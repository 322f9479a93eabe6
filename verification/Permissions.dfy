/**
 * The role editor: grouping permissions by resource, toggling single permissions and whole
 * groups, and the validator that deduplicates what the editor submits.
 */
module Permissions {
  import opened Wrappers
  import opened Sequences
  import opened Sorting

  /** `p.split(':')[0]`. */
  function Resource(p: string): string {
    if p == "" || p[0] == ':' then "" else [p[0]] + Resource(p[1..])
  }

  /** The resource is what stands before the first colon, or the whole permission without one. */
  lemma {:induction false} ResourceIsPrefix(p: string) returns (rest: string)
    ensures p == Resource(p) + rest && ':' !in Resource(p)
    ensures rest == "" || rest[0] == ':'
  {
    if p == "" || p[0] == ':' {
      rest := p;
    } else {
      rest := ResourceIsPrefix(p[1..]);
      assert p == [p[0]] + p[1..];
    }
  }

  function Members(perms: seq<string>, resource: string): seq<string> {
    if perms == [] then []
    else
      var last := perms[|perms| - 1];
      Members(perms[..|perms| - 1], resource) + if Resource(last) == resource then [last] else []
  }

  /** The groups of a list, built by appending each permission to the group of its resource. */
  function Grouped(perms: seq<string>): map<string, seq<string>> {
    if perms == [] then map[]
    else
      var before, p := Grouped(perms[..|perms| - 1]), perms[|perms| - 1];
      before[Resource(p) := (if Resource(p) in before then before[Resource(p)] else []) + [p]]
  }

  lemma {:induction false} GroupedSpec(perms: seq<string>, resource: string)
    ensures resource in Grouped(perms) <==> Members(perms, resource) != []
    ensures resource in Grouped(perms) ==> Grouped(perms)[resource] == Members(perms, resource)
  {
    if perms != [] {
      GroupedSpec(perms[..|perms| - 1], resource);
    }
  }

  /** `groupByResource`; `atMost` stands for the locale's comparison. */
  method GroupByResource(perms: seq<string>, atMost: Order<string>) returns (grouped: map<string, seq<string>>)
    ensures forall r :: r in grouped <==> Members(Sort(perms, atMost), r) != []
    ensures forall r :: r in grouped ==> grouped[r] == Members(Sort(perms, atMost), r)
  {
    grouped := map[];
    var sorted := Sort(perms, atMost);
    for i := 0 to |sorted|
      invariant grouped == Grouped(sorted[..i])
    {
      var p := sorted[i];
      var resource := Resource(p);
      assert sorted[..i + 1][..i] == sorted[..i];
      if resource !in grouped {
        grouped := grouped[resource := []];
      }
      grouped := grouped[resource := grouped[resource] + [p]];
    }
    assert sorted[..|sorted|] == sorted;
    forall r
      ensures r in grouped <==> Members(sorted, r) != []
      ensures r in grouped ==> grouped[r] == Members(sorted, r)
    {
      GroupedSpec(sorted, r);
    }
  }

  /** A group lists its permissions in the order of the whole list, with repetition. */
  lemma {:induction false} MembersAreFiltered(perms: seq<string>, resource: string, keep: string -> bool)
    requires forall p :: keep(p) <==> Resource(p) == resource
    ensures Members(perms, resource) == Filter(perms, keep)
  {
    if perms != [] {
      MembersAreFiltered(perms[..|perms| - 1], resource, keep);
    }
  }

  lemma {:induction false} MembersCount(perms: seq<string>, resource: string, p: string)
    ensures multiset(Members(perms, resource))[p] == if Resource(p) == resource then multiset(perms)[p] else 0
  {
    if perms != [] {
      var init, last := perms[..|perms| - 1], perms[|perms| - 1];
      assert perms == init + [last];
      MembersCount(init, resource, p);
    }
  }

  lemma {:induction false} MembersStaySorted(perms: seq<string>, resource: string, atMost: Order<string>)
    requires Sorted(perms, atMost)
    ensures Sorted(Members(perms, resource), atMost)
    ensures forall p :: p in Members(perms, resource) <==> p in perms && Resource(p) == resource
  {
    if perms != [] {
      var init, last := perms[..|perms| - 1], perms[|perms| - 1];
      assert perms == init + [last];
      MembersStaySorted(init, resource, atMost);
      forall p | p in Members(init, resource) ensures atMost(p, last) {
        var k :| 0 <= k < |init| && init[k] == p;
        assert perms[k] == p;
      }
    }
  }

  /**
   * The groups are sorted and partition the permissions as a multiset: each permission is in
   * the group of its resource, as often as it was given, and in no other.
   */
  lemma GroupsPartition(perms: seq<string>, atMost: Order<string>, resource: string)
    requires IsTotalPreorder(atMost)
    ensures var group := Members(Sort(perms, atMost), resource);
      && Sorted(group, atMost)
      && forall p :: multiset(group)[p] == if Resource(p) == resource then multiset(perms)[p] else 0
  {
    var sorted := Sort(perms, atMost);
    SortIsSorted(perms, atMost);
    MembersStaySorted(sorted, resource, atMost);
    forall p
      ensures multiset(Members(sorted, resource))[p] == if Resource(p) == resource then multiset(perms)[p] else 0
    {
      MembersCount(sorted, resource, p);
    }
  }

  // ---------------------------------------------------------------------------------------
  // Toggles
  // ---------------------------------------------------------------------------------------

  /** Switching a group off if all of it is selected, and wholly on otherwise. */
  function Toggled(selected: set<string>, group: set<string>): set<string> {
    if group <= selected then selected - group else selected + group
  }

  /** A JavaScript `Set` as the sequence of its members in insertion order. */
  function Added(s: seq<string>, p: string): seq<string> {
    if p in s then s else s + [p]
  }

  function Deleted(s: seq<string>, p: string): (r: seq<string>)
    ensures |r| <= |s|
  {
    if s == [] then []
    else Deleted(s[..|s| - 1], p) + if s[|s| - 1] == p then [] else [s[|s| - 1]]
  }

  /** Deleting keeps the others in their order. */
  lemma {:induction false} DeletedIsFilter(s: seq<string>, p: string, keep: string -> bool)
    requires forall x :: keep(x) <==> x != p
    ensures Deleted(s, p) == Filter(s, keep)
  {
    if s != [] {
      DeletedIsFilter(s[..|s| - 1], p, keep);
    }
  }

  lemma {:induction false} DeletedSpec(s: seq<string>, p: string)
    requires NoDuplicates(s)
    ensures NoDuplicates(Deleted(s, p)) && Elements(Deleted(s, p)) == Elements(s) - {p}
  {
    if s != [] {
      var init, last := s[..|s| - 1], s[|s| - 1];
      assert s == init + [last];
      DeletedSpec(init, p);
      assert last !in Elements(init);
      assert Elements(s) == Elements(init) + {last};
      if last != p {
        assert last !in Elements(Deleted(init, p));
        assert Elements(Deleted(init, p) + [last]) == Elements(Deleted(init, p)) + {last};
      }
    }
  }

  lemma AddedSpec(s: seq<string>, p: string)
    requires NoDuplicates(s)
    ensures NoDuplicates(Added(s, p)) && Elements(Added(s, p)) == Elements(s) + {p}
  {
    assert Elements(s + [p]) == Elements(s) + {p};
  }

  method TogglePerm(prev: seq<string>, p: string) returns (next: seq<string>)
    requires NoDuplicates(prev)
    ensures NoDuplicates(next) && Elements(next) == Toggled(Elements(prev), {p})
    ensures Elements(next) == if p in prev then Elements(prev) - {p} else Elements(prev) + {p}
  {
    DeletedSpec(prev, p);
    AddedSpec(prev, p);
    assert p in prev <==> {p} <= Elements(prev);
    if p in prev {
      next := Deleted(prev, p);
    } else {
      next := Added(prev, p);
    }
  }

  method ToggleResource(prev: seq<string>, all: seq<string>) returns (next: seq<string>)
    requires NoDuplicates(prev)
    ensures NoDuplicates(next) && Elements(next) == Toggled(Elements(prev), Elements(all))
    ensures (forall p :: p in all ==> p in prev) ==> Elements(next) == Elements(prev) - Elements(all)
    ensures (exists p :: p in all && p !in prev) ==> Elements(next) == Elements(prev) + Elements(all)
  {
    next := prev;
    var hasAll := forall p :: p in all ==> p in next;
    if Elements(all) <= Elements(prev) {
      forall p | p in all ensures p in next {
        assert p in Elements(all);
      }
    }
    assert hasAll <==> Elements(all) <= Elements(prev);
    assert all[..|all|] == all;
    if hasAll {
      for i := 0 to |all|
        invariant NoDuplicates(next) && Elements(next) == Elements(prev) - Elements(all[..i])
      {
        DeletedSpec(next, all[i]);
        assert Elements(all[..i + 1]) == Elements(all[..i]) + {all[i]};
        next := Deleted(next, all[i]);
      }
    } else {
      for i := 0 to |all|
        invariant NoDuplicates(next) && Elements(next) == Elements(prev) + Elements(all[..i])
      {
        AddedSpec(next, all[i]);
        assert Elements(all[..i + 1]) == Elements(all[..i]) + {all[i]};
        next := Added(next, all[i]);
      }
    }
  }

  /** A group toggle leaves the group all in or all out, touches nothing else, and three equal one. */
  lemma ToggleLaws(selected: set<string>, group: set<string>)
    ensures var once := Toggled(selected, group);
      && (group <= once || group !! once)
      && once - group == selected - group
      && Toggled(Toggled(once, group), group) == once
      && (Toggled(once, group) == selected <==> group <= selected || group !! selected)
  {
    var once := Toggled(selected, group);
    var twice := Toggled(once, group);
    if group !! selected {
      assert selected + group - group == selected;
    }
    if twice == selected && !(group <= selected) {
      assert twice == once - group;
    }
    if group <= selected {
      assert selected - group + group == selected;
      if group != {} {
        var p :| p in group;
        assert p !in once;
      }
    }
    if group <= twice {
      assert Toggled(twice, group) == twice - group;
    }
  }

  lemma DisjointTogglesCommute(selected: set<string>, a: set<string>, b: set<string>)
    requires a !! b
    ensures Toggled(Toggled(selected, a), b) == Toggled(Toggled(selected, b), a)
  {
    assert a <= Toggled(selected, b) <==> a <= selected;
    assert b <= Toggled(selected, a) <==> b <= selected;
  }

  /** Toggling the groups of two resources gives the same selection in either order. */
  lemma GroupTogglesCommute(perms: seq<string>, atMost: Order<string>, r1: string, r2: string, selected: set<string>)
    requires IsTotalPreorder(atMost) && r1 != r2
    ensures var sorted := Sort(perms, atMost);
      var g1, g2 := Elements(Members(sorted, r1)), Elements(Members(sorted, r2));
      Toggled(Toggled(selected, g1), g2) == Toggled(Toggled(selected, g2), g1)
  {
    var sorted := Sort(perms, atMost);
    SortIsSorted(perms, atMost);
    MembersStaySorted(sorted, r1, atMost);
    MembersStaySorted(sorted, r2, atMost);
    DisjointTogglesCommute(selected, Elements(Members(sorted, r1)), Elements(Members(sorted, r2)));
  }

  // ---------------------------------------------------------------------------------------
  // The validator
  // ---------------------------------------------------------------------------------------

  /** `permissions_must_be_known`: refuses unknown permissions, and otherwise deduplicates. */
  method PermissionsMustBeKnown(v: seq<string>, known: set<string>) returns (r: Result<seq<string>, set<string>>)
    ensures r.Ok? <==> Elements(v) <= known
    ensures r.Err? ==> r.error == Elements(v) - known
    ensures r.Ok? ==> r.value == FirstOccurrences(v)
    ensures NoDuplicates(v) && Elements(v) <= known ==> r == Ok(v)
  {
    FirstOccurrencesSpec(v);
    var unknown := set p | p in v && p !in known;
    if unknown != {} {
      assert unknown == Elements(v) - known;
      return Err(unknown);
    }
    forall p | p in Elements(v) ensures p in known {
      assert p !in unknown;
    }
    var seen: set<string> := {};
    var out := [];
    for i := 0 to |v|
      invariant seen == Elements(v[..i])
      invariant out == FirstOccurrences(v[..i])
    {
      assert v[..i + 1] == v[..i] + [v[i]];
      assert v[..i + 1][..i] == v[..i];
      if v[i] !in seen {
        seen := seen + {v[i]};
        out := out + [v[i]];
      }
    }
    assert v[..|v|] == v;
    return Ok(out);
  }
}
