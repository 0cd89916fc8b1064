/** Definitions shared by several models. */
module Prelude {
  datatype Option<+T> = None | Some(value: T)

  /** Exactly one of four claims holds. */
  predicate ExactlyOne(a: bool, b: bool, c: bool, d: bool) {
    && (a || b || c || d)
    && !(a && b) && !(a && c) && !(a && d)
    && !(b && c) && !(b && d) && !(c && d)
  }

  /** The wanted items, in order. */
  function Filter<T>(items: seq<T>, wanted: T -> bool): (kept: seq<T>)
    ensures forall x <- kept :: wanted(x)
  {
    if items == [] then []
    else
      var last := items[|items| - 1];
      Filter(items[..|items| - 1], wanted) + if wanted(last) then [last] else []
  }

  lemma FilterLast<T>(items: seq<T>, last: T, wanted: T -> bool)
    ensures Filter(items + [last], wanted) == Filter(items, wanted) + if wanted(last) then [last] else []
  {
    assert (items + [last])[..|items|] == items;
  }

  lemma {:induction false} FilterFirst<T>(first: T, items: seq<T>, wanted: T -> bool)
    ensures Filter([first] + items, wanted) == (if wanted(first) then [first] else []) + Filter(items, wanted)
  {
    if items == [] {
      FilterLast([], first, wanted);
      assert [first] + items == [] + [first];
    } else {
      var init, last := items[..|items| - 1], items[|items| - 1];
      FilterFirst(first, init, wanted);
      FilterLast([first] + init, last, wanted);
      assert [first] + items == [first] + init + [last];
    }
  }

  /** Every wanted item is kept, at a later place if it was at a later place. */
  lemma {:induction false} FilterExactly<T>(items: seq<T>, wanted: T -> bool) returns (origin: seq<nat>)
    ensures |origin| == |Filter(items, wanted)|
    ensures forall k :: 0 <= k < |origin| ==> origin[k] < |items| && Filter(items, wanted)[k] == items[origin[k]]
    ensures forall j, k :: 0 <= j < k < |origin| ==> origin[j] < origin[k]
    ensures forall i :: 0 <= i < |items| ==> (wanted(items[i]) <==> i in origin)
  {
    origin := [];
    if items != [] {
      var init, last := items[..|items| - 1], items[|items| - 1];
      var before := FilterExactly(init, wanted);
      var kept, more := Filter(init, wanted), Filter(items, wanted);
      assert more == kept + if wanted(last) then [last] else [];
      hide Filter;
      assert forall i :: 0 <= i < |init| ==> items[i] == init[i];
      if wanted(last) {
        origin := before + [|init|];
        assert forall k :: 0 <= k < |origin| ==> origin[k] < |items| && more[k] == items[origin[k]];
        assert forall i :: i in origin <==> i in before || i == |init|;
      } else {
        origin := before;
        assert |init| !in before;
      }
    }
  }
}
