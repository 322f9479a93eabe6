/** Facts about sequences that several components need. */
module Sequences {
  ghost predicate NoDuplicates<T>(s: seq<T>) {
    forall i, j :: 0 <= i < j < |s| ==> s[i] != s[j]
  }

  function Elements<T>(s: seq<T>): set<T> {
    set x | x in s
  }

  lemma {:induction false} DistinctCount<T>(s: seq<T>)
    requires NoDuplicates(s)
    ensures |Elements(s)| == |s|
  {
    if s == [] {
    } else {
      var last := s[|s| - 1];
      var init := s[..|s| - 1];
      DistinctCount(init);
      assert s == init + [last];
      assert Elements(s) == Elements(init) + {last};
    }
  }

  lemma {:induction false} ElementsCountBound<T>(s: seq<T>)
    ensures |Elements(s)| <= |s|
    ensures |Elements(s)| == |s| ==> NoDuplicates(s)
  {
    if s == [] {
    } else {
      var last := s[|s| - 1];
      var init := s[..|s| - 1];
      ElementsCountBound(init);
      assert s == init + [last];
      assert Elements(s) == Elements(init) + {last};
    }
  }

  lemma SubsetCount<T>(a: set<T>, b: set<T>)
    requires a <= b
    ensures |a| <= |b|
    ensures |a| == |b| ==> a == b
  {
    assert b == a + (b - a);
  }

  lemma DistinctFits<T>(s: seq<T>, all: set<T>)
    requires NoDuplicates(s) && Elements(s) <= all
    ensures |s| <= |all|
  {
    DistinctCount(s);
    SubsetCount(Elements(s), all);
  }

  lemma {:induction false} AtMostOnceIsDistinct<T>(s: seq<T>)
    requires forall x :: multiset(s)[x] <= 1
    ensures NoDuplicates(s)
  {
    if s != [] {
      var init, last := s[..|s| - 1], s[|s| - 1];
      assert s == init + [last];
      forall x ensures multiset(init)[x] <= 1 {
        assert multiset(s)[x] <= 1;
      }
      AtMostOnceIsDistinct(init);
      assert multiset(s)[last] <= 1;
      assert last !in multiset(init);
    }
  }

  lemma DistinctHalves<T>(a: seq<T>, b: seq<T>)
    requires NoDuplicates(a + b)
    ensures NoDuplicates(a) && NoDuplicates(b)
    ensures forall x :: x in a ==> x !in b
  {
    assert forall i :: 0 <= i < |a| ==> (a + b)[i] == a[i];
    assert forall j :: 0 <= j < |b| ==> (a + b)[|a| + j] == b[j];
  }

  lemma JoinDistinct<T>(a: seq<T>, b: seq<T>)
    requires NoDuplicates(a) && NoDuplicates(b)
    requires forall x :: x in b ==> x !in Elements(a)
    ensures NoDuplicates(a + b)
  {
    forall i, j | 0 <= i < j < |a + b| ensures (a + b)[i] != (a + b)[j] {
      if i < |a| <= j {
        assert a[i] in Elements(a) && b[j - |a|] in b;
      }
    }
  }

  /** The first position of a value that is present. */
  function FirstIndex<T(==)>(s: seq<T>, x: T): (i: nat)
    requires x in s
    ensures i < |s| && s[i] == x && x !in s[..i]
  {
    if s[0] == x then 0 else 1 + FirstIndex(s[1..], x)
  }

  // ---------------------------------------------------------------------------------------
  // Deduplication
  // ---------------------------------------------------------------------------------------

  /** The values in the order of their first occurrence. */
  ghost function FirstOccurrences<T>(v: seq<T>): seq<T> {
    if v == [] then []
    else
      var init, last := v[..|v| - 1], v[|v| - 1];
      FirstOccurrences(init) + if last in init then [] else [last]
  }

  /** Deduplication keeps exactly the distinct values, and a list without repetition as it is. */
  lemma {:induction false} FirstOccurrencesSpec<T>(v: seq<T>)
    ensures NoDuplicates(FirstOccurrences(v)) && Elements(FirstOccurrences(v)) == Elements(v)
    ensures |FirstOccurrences(v)| <= |v|
    ensures FirstOccurrences(v) == v <==> NoDuplicates(v)
  {
    if v != [] {
      var init, last := v[..|v| - 1], v[|v| - 1];
      assert v == init + [last];
      FirstOccurrencesSpec(init);
      assert Elements(v) == Elements(init) + {last};
      assert last in init <==> last in Elements(FirstOccurrences(init));
      if last !in init {
        assert Elements(FirstOccurrences(init) + [last]) == Elements(FirstOccurrences(init)) + {last};
        if NoDuplicates(init) {
          assert NoDuplicates(v);
        }
      }
    }
  }

  /** Values keep the order of their first occurrences. */
  lemma {:induction false} FirstOccurrencesKeepOrder<T>(v: seq<T>, i: nat, j: nat) returns (a: nat, b: nat)
    requires i < j < |FirstOccurrences(v)|
    ensures a < b < |v| && v[a] == FirstOccurrences(v)[i] && v[b] == FirstOccurrences(v)[j]
    ensures v[a] !in v[..a] && v[b] !in v[..b]
  {
    var init, last := v[..|v| - 1], v[|v| - 1];
    FirstOccurrencesSpec(init);
    if j < |FirstOccurrences(init)| {
      a, b := FirstOccurrencesKeepOrder(init, i, j);
      assert v[..a] == init[..a] && v[..b] == init[..b];
    } else {
      b := |v| - 1;
      assert FirstOccurrences(init)[i] in Elements(init);
      a := FirstIndex(init, FirstOccurrences(init)[i]);
      assert v[..a] == init[..a];
    }
  }

  // ---------------------------------------------------------------------------------------
  // Filtering
  // ---------------------------------------------------------------------------------------

  /** The elements that are kept, in order and with repetition. */
  function Filter<T>(s: seq<T>, keep: T -> bool): seq<T> {
    if s == [] then []
    else Filter(s[..|s| - 1], keep) + if keep(s[|s| - 1]) then [s[|s| - 1]] else []
  }

  lemma {:induction false} FilterFromFront<T>(x: T, s: seq<T>, keep: T -> bool)
    ensures Filter([x] + s, keep) == (if keep(x) then [x] else []) + Filter(s, keep)
  {
    if s == [] {
      assert [x] + s == [x] && [x][..0] == [];
    } else {
      FilterFromFront(x, s[..|s| - 1], keep);
      assert ([x] + s)[..|s|] == [x] + s[..|s| - 1];
    }
  }

  /** Where the elements of a filtered sequence stood: in ascending positions, and no kept one is missed. */
  ghost predicate PicksKept<T>(at: seq<nat>, s: seq<T>, keep: T -> bool, r: seq<T>) {
    && |at| == |r|
    && (forall i, j :: 0 <= i < j < |at| ==> at[i] < at[j])
    && (forall i :: 0 <= i < |at| ==> at[i] < |s| && r[i] == s[at[i]])
    && (forall k: nat :: k in at <==> k < |s| && keep(s[k]))
  }

  lemma PickOneMore<T>(at: seq<nat>, s: seq<T>, x: T, keep: T -> bool, r: seq<T>) returns (longer: seq<nat>)
    requires PicksKept(at, s, keep, r)
    ensures PicksKept(longer, s + [x], keep, r + if keep(x) then [x] else [])
  {
    longer := if keep(x) then at + [|s|] else at;
    assert forall i :: 0 <= i < |at| ==> at[i] in at && longer[i] == at[i];
    forall k: nat ensures k in longer <==> k < |s + [x]| && keep((s + [x])[k]) {
      assert k in longer <==> k in at || (keep(x) && k == |s|);
    }
  }

  lemma {:induction false} FilterPositions<T>(s: seq<T>, keep: T -> bool) returns (at: seq<nat>)
    ensures PicksKept(at, s, keep, Filter(s, keep))
  {
    if s == [] {
      at := [];
    } else {
      var init, last := s[..|s| - 1], s[|s| - 1];
      var before := FilterPositions(init, keep);
      at := PickOneMore(before, init, last, keep, Filter(init, keep));
      assert s == init + [last];
    }
  }
}
