/** A stable sort by a comparison, standing for the sorts of the runtime library. */
module Sorting {
  import opened Sequences

  type Order<!T> = (T, T) -> bool

  /** The comparison ranks any two values, and transitively so. */
  ghost predicate IsTotalPreorder<T(!new)>(atMost: Order<T>) {
    && (forall x, y :: atMost(x, y) || atMost(y, x))
    && (forall x, y, z :: atMost(x, y) && atMost(y, z) ==> atMost(x, z))
  }

  ghost predicate Sorted<T>(s: seq<T>, atMost: Order<T>) {
    forall i, j :: 0 <= i < j < |s| ==> atMost(s[i], s[j])
  }

  /** Inserts behind every element that is at most the new one. */
  function Insert<T>(sorted: seq<T>, x: T, atMost: Order<T>): seq<T> {
    if sorted == [] || atMost(sorted[|sorted| - 1], x) then sorted + [x]
    else Insert(sorted[..|sorted| - 1], x, atMost) + [sorted[|sorted| - 1]]
  }

  function Sort<T>(s: seq<T>, atMost: Order<T>): seq<T> {
    if s == [] then [] else Insert(Sort(s[..|s| - 1], atMost), s[|s| - 1], atMost)
  }

  lemma {:induction false} InsertAdds<T>(sorted: seq<T>, x: T, atMost: Order<T>)
    ensures multiset(Insert(sorted, x, atMost)) == multiset(sorted) + multiset{x}
  {
    if sorted == [] || atMost(sorted[|sorted| - 1], x) {
    } else {
      var init := sorted[..|sorted| - 1];
      assert sorted == init + [sorted[|sorted| - 1]];
      InsertAdds(init, x, atMost);
    }
  }

  lemma {:induction false} InsertKeepsSorted<T(!new)>(sorted: seq<T>, x: T, atMost: Order<T>)
    requires IsTotalPreorder(atMost) && Sorted(sorted, atMost)
    ensures Sorted(Insert(sorted, x, atMost), atMost)
  {
    if sorted == [] || atMost(sorted[|sorted| - 1], x) {
    } else {
      var init, last := sorted[..|sorted| - 1], sorted[|sorted| - 1];
      InsertKeepsSorted(init, x, atMost);
      InsertAdds(init, x, atMost);
      forall y | y in Insert(init, x, atMost) ensures atMost(y, last) {
        assert y in multiset(Insert(init, x, atMost));
        assert y in multiset(init) || y == x;
      }
    }
  }

  lemma {:induction false} SortIsSorted<T(!new)>(s: seq<T>, atMost: Order<T>)
    requires IsTotalPreorder(atMost)
    ensures Sorted(Sort(s, atMost), atMost)
    ensures multiset(Sort(s, atMost)) == multiset(s)
  {
    if s != [] {
      var init := s[..|s| - 1];
      assert s == init + [s[|s| - 1]];
      SortIsSorted(init, atMost);
      InsertKeepsSorted(Sort(init, atMost), s[|s| - 1], atMost);
      InsertAdds(Sort(init, atMost), s[|s| - 1], atMost);
    }
  }

  /** The values that are kept all have one rank. */
  ghost predicate OneRank<T(!new)>(keep: T -> bool, atMost: Order<T>) {
    forall x, y :: keep(x) && keep(y) ==> atMost(x, y)
  }

  lemma FilterAppend<T>(s: seq<T>, x: T, keep: T -> bool)
    ensures Filter(s + [x], keep) == Filter(s, keep) + if keep(x) then [x] else []
  {
    assert (s + [x])[..|s|] == s;
  }

  lemma {:induction false} InsertIsStable<T(!new)>(sorted: seq<T>, x: T, atMost: Order<T>, keep: T -> bool)
    requires OneRank(keep, atMost)
    ensures Filter(Insert(sorted, x, atMost), keep) == Filter(sorted + [x], keep)
  {
    FilterAppend(sorted, x, keep);
    if sorted != [] && !atMost(sorted[|sorted| - 1], x) {
      var init, last := sorted[..|sorted| - 1], sorted[|sorted| - 1];
      InsertIsStable(init, x, atMost, keep);
      FilterAppend(Insert(init, x, atMost), last, keep);
      FilterAppend(init, x, keep);
    }
  }

  /** Values of one rank stay in the order they were given in. */
  lemma {:induction false} SortIsStable<T(!new)>(s: seq<T>, atMost: Order<T>, keep: T -> bool)
    requires OneRank(keep, atMost)
    ensures Filter(Sort(s, atMost), keep) == Filter(s, keep)
  {
    if s != [] {
      var init, last := s[..|s| - 1], s[|s| - 1];
      SortIsStable(init, atMost, keep);
      InsertIsStable(Sort(init, atMost), last, atMost, keep);
      FilterAppend(Sort(init, atMost), last, keep);
    }
  }
}
