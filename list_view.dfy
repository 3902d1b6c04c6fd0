/**
 * `mb.common.util.ListView`: a read-only view over a list. The wrapped list is
 * a value, so a view can never be changed through itself.
 */
module CommonUtil {
  import opened Wrappers

  datatype ListError = IndexOutOfBounds(index: int) | IllegalArgument(fromIndex: int, toIndex: int) | NoSuchElement | UnsupportedOperation

  datatype ListView<E> = ListView(items: seq<E>)

  /** `ListView.of()`. */
  function OfNone<E>(): (r: ListView<E>)
    ensures |r.items| == 0
  {
    ListView([])
  }

  /** `ListView.of(element)`. */
  function OfOne<E>(element: E): (r: ListView<E>)
    ensures |r.items| == 1 && r.items[0] == element
  {
    ListView([element])
  }

  /** `ListView.of(elements...)`: the arguments, in argument order. */
  function OfAll<E>(elements: seq<E>): (r: ListView<E>)
    ensures |r.items| == |elements|
    ensures forall i :: 0 <= i < |elements| ==> r.items[i] == elements[i]
  {
    ListView(elements)
  }

  /** `get(index)`; an index outside the list is `IndexOutOfBoundsException`. */
  function Get<E>(v: ListView<E>, index: int): (r: Result<E, ListError>)
    ensures r.Ok? <==> 0 <= index < |v.items|
    ensures r.Ok? ==> r.value == v.items[index]
    ensures r.Err? ==> r.error == IndexOutOfBounds(index)
  {
    if 0 <= index < |v.items| then Ok(v.items[index]) else Err(IndexOutOfBounds(index))
  }

  /** First index holding `e` in `s`, or -1 (the `java.util.List.indexOf` contract). */
  function FirstIndex<E(==)>(s: seq<E>, e: E): (r: int)
    ensures -1 <= r < |s|
    ensures r == -1 <==> e !in s
    ensures r >= 0 ==> s[r] == e && forall j :: 0 <= j < r ==> s[j] != e
  {
    if |s| == 0 then -1
    else if s[0] == e then 0
    else
      var k := FirstIndex(s[1..], e);
      if k == -1 then -1 else k + 1
  }

  /** Last index holding `e` in `s`, or -1 (the `java.util.List.lastIndexOf` contract). */
  function LastIndex<E(==)>(s: seq<E>, e: E): (r: int)
    ensures -1 <= r < |s|
    ensures r == -1 <==> e !in s
    ensures r >= 0 ==> s[r] == e && forall j :: r < j < |s| ==> s[j] != e
  {
    if |s| == 0 then -1
    else if s[|s| - 1] == e then |s| - 1
    else LastIndex(s[..|s| - 1], e)
  }

  /** The two searches agree exactly when `e` occurs at most once. */
  lemma {:induction false} IndexOfLastIndexOfAgree<E>(v: ListView<E>, e: E)
    requires e in v.items
    ensures FirstIndex(v.items, e) == LastIndex(v.items, e) <==>
      forall i, j :: 0 <= i < j < |v.items| && v.items[i] == e ==> v.items[j] != e
  {
    var f, l := FirstIndex(v.items, e), LastIndex(v.items, e);
    if f != l {
      assert f <= l;
      assert v.items[f] == e && v.items[l] == e;
    }
  }

  /**
   * `subList(fromIndex, toIndex)`: elements `fromIndex..toIndex - 1`. The
   * range is checked as `ArrayList` and `AbstractList` check it: a negative
   * `fromIndex`, then a `toIndex` past the end, are `IndexOutOfBoundsException`;
   * `fromIndex > toIndex` is `IllegalArgumentException`.
   */
  function SubList<E>(v: ListView<E>, fromIndex: int, toIndex: int): (r: Result<ListView<E>, ListError>)
    ensures r.Ok? <==> 0 <= fromIndex <= toIndex <= |v.items|
    ensures r.Ok? ==> |r.value.items| == toIndex - fromIndex
    ensures r.Ok? ==> forall k :: 0 <= k < toIndex - fromIndex ==> r.value.items[k] == v.items[fromIndex + k]
    ensures fromIndex < 0 ==> r == Err(IndexOutOfBounds(fromIndex))
    ensures 0 <= fromIndex && toIndex > |v.items| ==> r == Err(IndexOutOfBounds(toIndex))
    ensures 0 <= fromIndex && toIndex <= |v.items| && fromIndex > toIndex ==> r == Err(IllegalArgument(fromIndex, toIndex))
  {
    if fromIndex < 0 then Err(IndexOutOfBounds(fromIndex))
    else if toIndex > |v.items| then Err(IndexOutOfBounds(toIndex))
    else if fromIndex > toIndex then Err(IllegalArgument(fromIndex, toIndex))
    else Ok(ListView(v.items[fromIndex..toIndex]))
  }

  /** Indexing a sub-view is indexing the original at an offset. */
  lemma SubListGet<E>(v: ListView<E>, fromIndex: int, toIndex: int, k: int)
    requires 0 <= fromIndex <= toIndex <= |v.items|
    ensures SubList(v, fromIndex, toIndex).Ok?
    ensures Get(SubList(v, fromIndex, toIndex).value, k) ==
      if 0 <= k < toIndex - fromIndex then Get(v, fromIndex + k) else Err(IndexOutOfBounds(k))
  {
  }

  /**
   * `equals`: two views are equal iff their wrapped lists are, that is
   * (the `java.util.List.equals` contract) they have the same size and
   * equal elements at every position.
   */
  predicate Equals<E(==)>(a: ListView<E>, b: ListView<E>): (r: bool)
    ensures r <==> |a.items| == |b.items| && forall i :: 0 <= i < |a.items| ==> a.items[i] == b.items[i]
  {
    a.items == b.items
  }

  /** Java `int` arithmetic: wrap to 32-bit two's complement. */
  function WrapInt32(x: int): (r: int)
    ensures -0x8000_0000 <= r < 0x8000_0000
    ensures (r - x) % 0x1_0000_0000 == 0
  {
    var m := x % 0x1_0000_0000;
    if m >= 0x8000_0000 then m - 0x1_0000_0000 else m
  }

  /** `java.util.List.hashCode`: h := 1, then h := 31 * h + hash(e) for each element, in `int`. */
  function ListHash<E>(s: seq<E>, hash: E -> int): int
  {
    if |s| == 0 then 1 else WrapInt32(31 * ListHash(s[..|s| - 1], hash) + hash(s[|s| - 1]))
  }

  /** `hashCode`: `Objects.hash(collection)`, which is 31 + the list's hash code, in `int`. */
  function HashCode<E>(v: ListView<E>, hash: E -> int): (r: int)
    ensures -0x8000_0000 <= r < 0x8000_0000
  {
    WrapInt32(31 + ListHash(v.items, hash))
  }

  lemma EqualViewsHaveEqualHashCodes<E>(a: ListView<E>, b: ListView<E>, hash: E -> int)
    requires Equals(a, b)
    ensures HashCode(a, hash) == HashCode(b, hash)
  {
  }

  /** The view of `of(elements...)` is equal to another view iff it lists the same elements. */
  lemma {:induction false} OfAllEquals<E>(elements: seq<E>, other: ListView<E>)
    ensures Equals(OfAll(elements), other) <==>
      |other.items| == |elements| && forall i :: 0 <= i < |elements| ==> Get(other, i) == Ok(elements[i])
  {
    if |other.items| == |elements| && forall i :: 0 <= i < |elements| ==> Get(other, i) == Ok(elements[i]) {
      assert forall i :: 0 <= i < |elements| ==> other.items[i] == elements[i] by {
        forall i | 0 <= i < |elements| ensures other.items[i] == elements[i] {
          assert Get(other, i) == Ok(elements[i]);
        }
      }
      assert other.items == elements;
    }
  }

  /**
   * The iterator of `listIterator(index)`: a cursor over the view's elements.
   * `remove`, `set` and `add` always fail with `UnsupportedOperationException`.
   */
  class ViewIterator<E> {
    const items: seq<E>
    var cursor: nat

    ghost predicate Valid()
      reads this
    {
      cursor <= |items|
    }

    constructor (items: seq<E>, index: nat)
      requires index <= |items|
      ensures Valid() && this.items == items && cursor == index
    {
      this.items := items;
      cursor := index;
    }

    function HasNext(): (r: bool)
      reads this
      ensures r <==> cursor < |items|
    {
      cursor < |items|
    }

    function HasPrevious(): (r: bool)
      reads this
      ensures r <==> cursor > 0
    {
      cursor > 0
    }

    function NextIndex(): (r: int)
      reads this
      requires Valid()
      ensures 0 <= r <= |items| && r == PreviousIndex() + 1
    {
      cursor
    }

    function PreviousIndex(): (r: int)
      reads this
      requires Valid()
      ensures -1 <= r < |items|
      ensures r == -1 <==> !HasPrevious()
    {
      cursor - 1
    }

    /** `next()`: the element after the cursor; `NoSuchElementException` at the end. */
    method Next() returns (r: Result<E, ListError>)
      requires Valid()
      modifies this
      ensures Valid()
      ensures r.Ok? <==> old(cursor) < |items|
      ensures r.Ok? ==> r.value == items[old(cursor)] && cursor == old(cursor) + 1
      ensures r.Err? ==> r.error == NoSuchElement && cursor == old(cursor)
    {
      if cursor < |items| {
        r := Ok(items[cursor]);
        cursor := cursor + 1;
      } else {
        r := Err(NoSuchElement);
      }
    }

    /** `previous()`: the element before the cursor; `NoSuchElementException` at the start. */
    method Previous() returns (r: Result<E, ListError>)
      requires Valid()
      modifies this
      ensures Valid()
      ensures r.Ok? <==> old(cursor) > 0
      ensures r.Ok? ==> cursor == old(cursor) - 1 && r.value == items[cursor]
      ensures r.Err? ==> r.error == NoSuchElement && cursor == old(cursor)
    {
      if cursor > 0 {
        cursor := cursor - 1;
        r := Ok(items[cursor]);
      } else {
        r := Err(NoSuchElement);
      }
    }

    /** `remove()` always refuses; neither the cursor nor the elements change. */
    method Remove() returns (e: ListError)
      ensures e == UnsupportedOperation
    {
      e := UnsupportedOperation;
    }

    /** `set(e)` always refuses. */
    method Set(x: E) returns (e: ListError)
      ensures e == UnsupportedOperation
    {
      e := UnsupportedOperation;
    }

    /** `add(e)` always refuses. */
    method Add(x: E) returns (e: ListError)
      ensures e == UnsupportedOperation
    {
      e := UnsupportedOperation;
    }

    /** `forEachRemaining(action)`: the action sees the remaining elements in order; the cursor ends at the end. */
    method ForEachRemaining() returns (visited: seq<E>)
      requires Valid()
      modifies this
      ensures Valid() && cursor == |items|
      ensures visited == items[old(cursor)..]
    {
      visited := items[cursor..];
      cursor := |items|;
    }
  }

  /** `listIterator(index)`; `IndexOutOfBoundsException` unless `0 <= index <= size`. */
  method ListIterator<E>(v: ListView<E>, index: int) returns (r: Result<ViewIterator<E>, ListError>)
    ensures r.Ok? <==> 0 <= index <= |v.items|
    ensures r.Ok? ==> fresh(r.value) && r.value.Valid() && r.value.items == v.items && r.value.cursor == index
    ensures r.Err? ==> r.error == IndexOutOfBounds(index)
  {
    if 0 <= index <= |v.items| {
      var it := new ViewIterator(v.items, index);
      r := Ok(it);
    } else {
      r := Err(IndexOutOfBounds(index));
    }
  }
}
