/**
 * The condition trees of the structured rule representation, and the nesting bound that is
 * checked at every level of them.
 */
module ConditionTree {
  /** A condition value as it arrives: scalars, lists and objects of any depth. */
  datatype Value = Scalar(text: string) | ListOf(items: seq<Value>) | Object(fields: map<string, Value>)

  datatype Condition = Condition(field: string, operator: string, value: Value, nested: seq<Condition>)

  /** `_max_nesting_depth`; `max` over the conditions of a non-empty list. */
  function MaxNestingDepth(conditions: seq<Condition>, depth: nat): (d: nat)
    ensures d >= depth
    decreases conditions, 1
  {
    if conditions == [] then depth else MaxOver(conditions, depth + 1)
  }

  function MaxOver(conditions: seq<Condition>, depth: nat): (d: nat)
    requires conditions != []
    ensures d >= depth
    decreases conditions, 0
  {
    var first := MaxNestingDepth(conditions[0].nested, depth);
    if |conditions| == 1 then first
    else
      var rest := MaxOver(conditions[1..], depth);
      if first >= rest then first else rest
  }

  /** A nesting path picks a condition of the list, then one nested in it, and so on. */
  predicate IsPath(conditions: seq<Condition>, p: seq<nat>)
    decreases p
  {
    p == [] || (p[0] < |conditions| && IsPath(conditions[p[0]].nested, p[1..]))
  }

  /** `n` is the length of a longest nesting path. */
  ghost predicate IsHeight(conditions: seq<Condition>, n: nat) {
    && (exists p :: IsPath(conditions, p) && |p| == n)
    && (forall p :: IsPath(conditions, p) ==> |p| <= n)
  }

  lemma {:induction false} DepthIsReached(conditions: seq<Condition>, depth: nat) returns (p: seq<nat>)
    ensures IsPath(conditions, p) && depth + |p| == MaxNestingDepth(conditions, depth)
    decreases conditions, 1
  {
    if conditions == [] {
      p := [];
    } else {
      p := MaxIsReached(conditions, depth + 1);
    }
  }

  lemma {:induction false} MaxIsReached(conditions: seq<Condition>, depth: nat) returns (p: seq<nat>)
    requires conditions != []
    ensures p != [] && IsPath(conditions, p) && depth + |p| - 1 == MaxOver(conditions, depth)
    decreases conditions, 0
  {
    var q := DepthIsReached(conditions[0].nested, depth);
    p := [0] + q;
    if |conditions| > 1 && MaxOver(conditions[1..], depth) > MaxNestingDepth(conditions[0].nested, depth) {
      var r := MaxIsReached(conditions[1..], depth);
      p := [r[0] + 1] + r[1..];
    }
  }

  lemma {:induction false} DepthBoundsPaths(conditions: seq<Condition>, depth: nat, p: seq<nat>)
    requires IsPath(conditions, p)
    ensures depth + |p| <= MaxNestingDepth(conditions, depth)
    decreases conditions, 1
  {
    if p != [] {
      MaxBoundsPaths(conditions, depth + 1, p);
    }
  }

  lemma {:induction false} MaxBoundsPaths(conditions: seq<Condition>, depth: nat, p: seq<nat>)
    requires p != [] && IsPath(conditions, p)
    ensures depth + |p| - 1 <= MaxOver(conditions, depth)
    decreases conditions, 0
  {
    if p[0] == 0 {
      DepthBoundsPaths(conditions[0].nested, depth, p[1..]);
    } else {
      var q := [p[0] - 1] + p[1..];
      assert q[1..] == p[1..];
      MaxBoundsPaths(conditions[1..], depth, q);
    }
  }

  /** The computed depth is the start depth plus the length of a longest nesting path. */
  lemma DepthIsHeight(conditions: seq<Condition>, depth: nat)
    ensures IsHeight(conditions, MaxNestingDepth(conditions, depth) - depth)
  {
    var longest := DepthIsReached(conditions, depth);
    forall p | IsPath(conditions, p) ensures |p| <= MaxNestingDepth(conditions, depth) - depth {
      DepthBoundsPaths(conditions, depth, p);
    }
  }

  // ---------------------------------------------------------------------------------------
  // Validation
  // ---------------------------------------------------------------------------------------

  predicate IsFlatValue(v: Value) {
    match v
    case Object(_) => false
    case ListOf(items) => forall i :: 0 <= i < |items| ==> items[i].Scalar?
    case Scalar(_) => true
  }

  const MAX_LEVELS := 3

  /** Building a condition: its value check, the nested conditions, then the depth check. */
  predicate Accepts(c: Condition) {
    && IsFlatValue(c.value)
    && (forall i :: 0 <= i < |c.nested| ==> Accepts(c.nested[i]))
    && MaxNestingDepth(c.nested, 0) <= MAX_LEVELS
  }

  predicate AllValuesFlat(c: Condition) {
    IsFlatValue(c.value) && forall i :: 0 <= i < |c.nested| ==> AllValuesFlat(c.nested[i])
  }

  /** Every value in the tree is a scalar or a list of scalars. */
  ghost predicate SimpleValues(c: Condition) {
    && (c.value.Scalar? || (c.value.ListOf? && forall item :: item in c.value.items ==> item.Scalar?))
    && forall i :: 0 <= i < |c.nested| ==> SimpleValues(c.nested[i])
  }

  lemma {:induction false} FlatMeansSimple(c: Condition)
    ensures AllValuesFlat(c) <==> SimpleValues(c)
    decreases c
  {
    forall i | 0 <= i < |c.nested| ensures AllValuesFlat(c.nested[i]) <==> SimpleValues(c.nested[i]) {
      FlatMeansSimple(c.nested[i]);
    }
  }

  lemma NestedIsShallower(c: Condition, i: nat)
    requires i < |c.nested|
    ensures MaxNestingDepth(c.nested[i].nested, 0) + 1 <= MaxNestingDepth(c.nested, 0)
  {
    var p := DepthIsReached(c.nested[i].nested, 0);
    assert ([i] + p)[1..] == p;
    DepthBoundsPaths(c.nested, 0, [i] + p);
  }

  /** Checking the depth at every level rejects nothing that checking it once at the root lets through. */
  lemma {:induction false} AcceptedExactlyWhenShallow(c: Condition)
    ensures Accepts(c) <==> AllValuesFlat(c) && MaxNestingDepth(c.nested, 0) <= MAX_LEVELS
    decreases c
  {
    forall i | 0 <= i < |c.nested|
      ensures Accepts(c.nested[i]) <==>
        AllValuesFlat(c.nested[i]) && MaxNestingDepth(c.nested[i].nested, 0) <= MAX_LEVELS
      ensures MaxNestingDepth(c.nested[i].nested, 0) + 1 <= MaxNestingDepth(c.nested, 0)
    {
      AcceptedExactlyWhenShallow(c.nested[i]);
      NestedIsShallower(c, i);
    }
  }

  /**
   * Accepted are exactly the trees of scalars and flat lists whose nesting paths below the root
   * have at most three steps.
   */
  lemma AcceptedTrees(c: Condition)
    ensures Accepts(c) <==> SimpleValues(c) && forall p :: IsPath(c.nested, p) ==> |p| <= 3
  {
    AcceptedExactlyWhenShallow(c);
    FlatMeansSimple(c);
    DepthIsHeight(c.nested, 0);
  }

  /**
   * A rule's list of conditions has no depth check of its own: its height is at most four,
   * one more than the three levels each condition may nest.
   */
  lemma AcceptedListHeight(conditions: seq<Condition>, p: seq<nat>)
    requires forall i :: 0 <= i < |conditions| ==> Accepts(conditions[i])
    requires IsPath(conditions, p)
    ensures |p| <= MAX_LEVELS + 1
  {
    if p != [] {
      assert Accepts(conditions[p[0]]);
      DepthBoundsPaths(conditions[p[0]].nested, 0, p[1..]);
    }
  }

  lemma HeightIsDepth(conditions: seq<Condition>, n: nat)
    ensures IsHeight(conditions, n) <==> n == MaxNestingDepth(conditions, 0)
  {
    DepthIsHeight(conditions, 0);
    if IsHeight(conditions, n) {
      var p :| IsPath(conditions, p) && |p| == n;
      DepthBoundsPaths(conditions, 0, p);
      var longest := DepthIsReached(conditions, 0);
    }
  }

  /** An accepted list is four levels deep exactly when a member uses all three levels it may nest. */
  lemma FourLevelsMeansFullMember(conditions: seq<Condition>)
    requires forall i :: 0 <= i < |conditions| ==> Accepts(conditions[i])
    ensures IsHeight(conditions, MAX_LEVELS + 1)
       <==> exists i :: 0 <= i < |conditions| && IsHeight(conditions[i].nested, MAX_LEVELS)
  {
    HeightIsDepth(conditions, MAX_LEVELS + 1);
    var p := DepthIsReached(conditions, 0);
    AcceptedListHeight(conditions, p);
    if p != [] {
      HeightIsDepth(conditions[p[0]].nested, MAX_LEVELS);
      assert Accepts(conditions[p[0]]);
      DepthBoundsPaths(conditions[p[0]].nested, 0, p[1..]);
    }
    forall i | 0 <= i < |conditions| && IsHeight(conditions[i].nested, MAX_LEVELS)
      ensures MaxNestingDepth(conditions, 0) == MAX_LEVELS + 1
    {
      var q :| IsPath(conditions[i].nested, q) && |q| == MAX_LEVELS;
      assert ([i] + q)[1..] == q;
      DepthBoundsPaths(conditions, 0, [i] + q);
    }
  }

  /** A chain of `n + 1` conditions, each nested in the one before. */
  function Chain(n: nat): Condition {
    Condition("f", "equals", Scalar("x"), if n == 0 then [] else [Chain(n - 1)])
  }

  lemma {:induction false} ChainDepth(n: nat)
    ensures MaxNestingDepth(Chain(n).nested, 0) == n
    ensures AllValuesFlat(Chain(n))
  {
    DepthIsHeight(Chain(n).nested, 0);
    var p := DepthIsReached(Chain(n).nested, 0);
    if n > 0 {
      ChainDepth(n - 1);
      var q := DepthIsReached(Chain(n - 1).nested, 0);
      NestedIsShallower(Chain(n), 0);
      DepthBoundsPaths(Chain(n - 1).nested, 0, p[1..]);
    }
  }

  /** The bound of four is reached, and a condition whose nested list goes one deeper is refused. */
  lemma FourLevelsAccepted()
    ensures Accepts(Chain(MAX_LEVELS)) && IsHeight([Chain(MAX_LEVELS)], MAX_LEVELS + 1)
    ensures !Accepts(Chain(MAX_LEVELS + 1))
  {
    ChainDepth(MAX_LEVELS);
    ChainDepth(MAX_LEVELS + 1);
    AcceptedExactlyWhenShallow(Chain(MAX_LEVELS));
    AcceptedExactlyWhenShallow(Chain(MAX_LEVELS + 1));
    DepthIsHeight([Chain(MAX_LEVELS)], 0);
    assert Chain(MAX_LEVELS + 1).nested == [Chain(MAX_LEVELS)];
  }
}
