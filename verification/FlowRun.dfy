/**
 * The flow executor: runs a plan level by level, feeds each node the merged outputs of its
 * dependencies, and stops early on cancellation or on a failure. What a node does is an
 * arbitrary function of its input; when the run is cancelled is arbitrary too.
 */
module FlowRun {
  import opened Wrappers
  import opened Sequences
  import opened Digraph
  import opened FlowPlanner
  import opened CycleSearch

  datatype NodeStatus = Pending | Running | Completed | Warning | Failed | Skipped

  type Data = map<string, string>

  /** A task either raises, or returns a record; `output` is absent when its handler failed. */
  datatype Outcome = Raised | Returned(status: NodeStatus, output: Option<Data>)

  datatype NodeResult = NodeResult(status: NodeStatus, output: Option<Data>)

  /** A stored result row: the node, its status and its `execution_order`. */
  datatype Row = Row(node: Id, status: NodeStatus, order: nat)

  type Results = map<Id, NodeResult>

  /** `dependencies[v]`: the sources of the connections into `v`, in connection order. */
  function Dependencies(connections: seq<Edge>, v: Id): (deps: seq<Id>)
    ensures forall u :: u in deps <==> Edge(u, v) in connections
  {
    if connections == [] then []
    else
      var init, last := connections[..|connections| - 1], connections[|connections| - 1];
      assert connections == init + [last];
      Dependencies(init, v) + if last.target == v then [last.source] else []
  }

  /** The outputs of `deps` merged in order, so that later ones win. */
  function MergedInput(deps: seq<Id>, results: Results): Data {
    if deps == [] then map[]
    else
      var before, last := MergedInput(deps[..|deps| - 1], results), deps[|deps| - 1];
      if last in results && results[last].output.Some? then before + results[last].output.value else before
  }

  lemma {:induction false} InputDependsOnDeps(deps: seq<Id>, a: Results, b: Results)
    requires forall u :: u in deps ==> (u in a <==> u in b) && (u in a ==> a[u] == b[u])
    ensures MergedInput(deps, a) == MergedInput(deps, b)
  {
    if deps != [] {
      assert deps[|deps| - 1] in deps;
      InputDependsOnDeps(deps[..|deps| - 1], a, b);
    }
  }

  /** The `i`-th connection brings `key` to `v`: its source has an output that holds the key. */
  ghost predicate Brings(connections: seq<Edge>, results: Results, v: Id, i: nat, key: string) {
    && i < |connections| && connections[i].target == v
    && connections[i].source in results && results[connections[i].source].output.Some?
    && key in results[connections[i].source].output.value
  }

  ghost predicate BringsLast(connections: seq<Edge>, results: Results, v: Id, i: nat, key: string) {
    Brings(connections, results, v, i, key)
    && forall j: nat :: j > i ==> !Brings(connections, results, v, j, key)
  }

  /** `input` holds what the connections into `v` bring, and of each key what the last one brings. */
  ghost predicate IsInputOf(connections: seq<Edge>, results: Results, v: Id, input: Data) {
    forall key ::
      && (key in input <==> exists i: nat :: Brings(connections, results, v, i, key))
      && (key in input ==> exists i: nat :: BringsLast(connections, results, v, i, key)
                             && input[key] == results[connections[i].source].output.value[key])
  }

  /** One more connection: it wins the keys it brings and leaves the others as they were. */
  lemma OneMoreConnection(init: seq<Edge>, last: Edge, results: Results, v: Id, key: string)
    ensures var before := MergedInput(Dependencies(init, v), results);
      var after := MergedInput(Dependencies(init + [last], v), results);
      if Brings(init + [last], results, v, |init|, key) then
        key in after && after[key] == results[last.source].output.value[key]
      else (key in after <==> key in before) && (key in after ==> after[key] == before[key])
  {
    var deps := Dependencies(init, v);
    assert (init + [last])[..|init|] == init && (init + [last])[|init|] == last;
    assert deps + [] == deps && (deps + [last.source])[..|deps|] == deps;
    assert Dependencies(init + [last], v) == if last.target == v then deps + [last.source] else deps;
  }

  lemma BringsInPrefix(init: seq<Edge>, last: Edge, results: Results, v: Id, i: nat, key: string)
    requires i != |init|
    ensures Brings(init + [last], results, v, i, key) <==> Brings(init, results, v, i, key)
  {
  }

  lemma {:induction false} MergedInputBrings(connections: seq<Edge>, results: Results, v: Id, key: string)
    ensures var input := MergedInput(Dependencies(connections, v), results);
      && (key in input <==> exists i: nat :: Brings(connections, results, v, i, key))
      && (key in input ==> exists i: nat :: BringsLast(connections, results, v, i, key)
                             && input[key] == results[connections[i].source].output.value[key])
  {
    if connections != [] {
      var init, last := connections[..|connections| - 1], connections[|connections| - 1];
      assert connections == init + [last];
      MergedInputBrings(init, results, v, key);
      OneMoreConnection(init, last, results, v, key);
      forall i: nat | i != |init|
        ensures Brings(connections, results, v, i, key) <==> Brings(init, results, v, i, key)
      {
        BringsInPrefix(init, last, results, v, i, key);
      }
      if Brings(connections, results, v, |init|, key) {
        assert BringsLast(connections, results, v, |init|, key);
      } else if i: nat :| BringsLast(init, results, v, i, key) {
        assert BringsLast(connections, results, v, i, key);
      }
    }
  }

  /** The executor hands a node exactly what the connections into it bring. */
  lemma MergedInputIsInput(connections: seq<Edge>, results: Results, v: Id)
    ensures IsInputOf(connections, results, v, MergedInput(Dependencies(connections, v), results))
  {
    forall key {
      MergedInputBrings(connections, results, v, key);
    }
  }

  lemma InputIsUnique(connections: seq<Edge>, results: Results, v: Id, a: Data, b: Data)
    requires IsInputOf(connections, results, v, a) && IsInputOf(connections, results, v, b)
    ensures a == b
  {
    assert forall key :: key in a <==> key in b;
    forall key | key in a ensures a[key] == b[key] {
      var i: nat :| BringsLast(connections, results, v, i, key)
                    && a[key] == results[connections[i].source].output.value[key];
      var j: nat :| BringsLast(connections, results, v, j, key)
                    && b[key] == results[connections[j].source].output.value[key];
      assert i == j;
    }
  }

  function Settle(o: Outcome): NodeResult {
    match o
    case Raised => NodeResult(Failed, None)
    case Returned(status, output) => NodeResult(status, output)
  }

  /** The data-flow equations: every finished node ran on the outputs of all it depends on. */
  ghost predicate FollowsDataFlow(connections: seq<Edge>, run: (Id, Data) -> Outcome, results: Results) {
    forall v :: v in results ==>
      && (forall u :: Edge(u, v) in connections ==> u in results)
      && results[v] == Settle(run(v, MergedInput(Dependencies(connections, v), results)))
  }

  ghost predicate IsRecordOf(o: Outcome, r: NodeResult) {
    match o
    case Raised => r.status == Failed && r.output == None
    case Returned(status, output) => r.status == status && r.output == output
  }

  /** `v` ran once all its sources had, on what they bring, and a task that raises is a failure. */
  ghost predicate RanOnSources(connections: seq<Edge>, run: (Id, Data) -> Outcome, results: Results, v: Id) {
    && v in results
    && (forall u :: Edge(u, v) in connections ==> u in results)
    && exists input :: IsInputOf(connections, results, v, input) && IsRecordOf(run(v, input), results[v])
  }

  lemma DataFlowReachesNodes(connections: seq<Edge>, run: (Id, Data) -> Outcome, results: Results)
    requires FollowsDataFlow(connections, run, results)
    ensures forall v :: v in results ==> RanOnSources(connections, run, results, v)
  {
    forall v | v in results ensures RanOnSources(connections, run, results, v) {
      MergedInputIsInput(connections, results, v);
      var input := MergedInput(Dependencies(connections, v), results);
      assert IsRecordOf(run(v, input), results[v]);
    }
  }

  ghost predicate LevelFailed(level: seq<Id>, results: Results) {
    exists v :: v in level && v in results && results[v].status == Failed
  }

  /** No level before `k` was cancelled, and none of them failed unless failures are tolerated. */
  ghost predicate NotStoppedBefore(levels: seq<seq<Id>>, k: nat, results: Results,
                                   cancelledAt: nat -> bool, continueOnError: bool)
    requires k <= |levels|
  {
    && (forall j :: 0 <= j < k ==> !cancelledAt(j))
    && (!continueOnError ==> forall j :: 0 <= j < k ==> !LevelFailed(levels[j], results))
  }

  /** `cut` is the first level the run did not start, for one of the two reasons there are. */
  ghost predicate StopsAt(levels: seq<seq<Id>>, cut: nat, results: Results,
                          cancelledAt: nat -> bool, continueOnError: bool) {
    && cut <= |levels|
    && (cut == |levels| || cancelledAt(cut) || (cut > 0 && !continueOnError && LevelFailed(levels[cut - 1], results)))
    && (cut > 0 ==> NotStoppedBefore(levels, cut - 1, results, cancelledAt, continueOnError) && !cancelledAt(cut - 1))
  }

  ghost predicate RowsNumbered(rows: seq<Row>) {
    forall i :: 0 <= i < |rows| ==> rows[i].order == i
  }

  function NodesOf(rows: seq<Row>): seq<Id> {
    seq(|rows|, i requires 0 <= i < |rows| => rows[i].node)
  }

  /** The rows a run leaves: one for each node up to the cut with its result, the rest skipped. */
  ghost predicate RowsTell(rows: seq<Row>, results: Results) {
    forall i :: 0 <= i < |rows| ==>
      rows[i].status == if rows[i].node in results then results[rows[i].node].status else Skipped
  }

  /** `after` adds to `before` what each node of `level` does on the outputs in `before`. */
  ghost predicate RanLevel(connections: seq<Edge>, run: (Id, Data) -> Outcome, level: seq<Id>,
                           before: Results, after: Results) {
    && (forall v :: v in after <==> v in before || v in level)
    && (forall v :: v in before ==> after[v] == before[v])
    && (forall v :: v in level ==>
          after[v] == Settle(run(v, MergedInput(Dependencies(connections, v), before))))
  }

  lemma LevelKeepsDataFlow(connections: seq<Edge>, run: (Id, Data) -> Outcome, level: seq<Id>,
                           before: Results, after: Results)
    requires FollowsDataFlow(connections, run, before)
    requires forall v :: v in level ==> v !in before
    requires forall v, u :: v in level && Edge(u, v) in connections ==> u in before
    requires RanLevel(connections, run, level, before, after)
    ensures FollowsDataFlow(connections, run, after)
  {
    forall w | w in after
      ensures forall u :: Edge(u, w) in connections ==> u in after
      ensures after[w] == Settle(run(w, MergedInput(Dependencies(connections, w), after)))
    {
      InputDependsOnDeps(Dependencies(connections, w), before, after);
    }
  }

  /** What the tasks of a level return, each run on the outputs that earlier levels stored. */
  function Outcomes(connections: seq<Edge>, run: (Id, Data) -> Outcome, level: seq<Id>, before: Results): seq<Outcome> {
    if level == [] then []
    else
      var v := level[|level| - 1];
      Outcomes(connections, run, level[..|level| - 1], before)
      + [run(v, MergedInput(Dependencies(connections, v), before))]
  }

  lemma {:induction false} OutcomesSpec(connections: seq<Edge>, run: (Id, Data) -> Outcome, level: seq<Id>,
                                        before: Results, i: nat)
    ensures |Outcomes(connections, run, level, before)| == |level|
    ensures i < |level| ==>
      Outcomes(connections, run, level, before)[i]
      == run(level[i], MergedInput(Dependencies(connections, level[i]), before))
  {
    if level != [] {
      OutcomesSpec(connections, run, level[..|level| - 1], before, i);
    }
  }

  method GatherLevel(connections: seq<Edge>, level: seq<Id>, run: (Id, Data) -> Outcome, results: Results)
    returns (outcomes: seq<Outcome>)
    ensures outcomes == Outcomes(connections, run, level, results)
  {
    outcomes := [];
    for i := 0 to |level|
      invariant outcomes == Outcomes(connections, run, level[..i], results)
    {
      assert level[..i + 1][..i] == level[..i];
      outcomes := outcomes + [run(level[i], MergedInput(Dependencies(connections, level[i]), results))];
    }
    assert level[..|level|] == level;
  }

  /** The results with the settled outcomes of a level added in order. */
  function StoreAll(level: seq<Id>, outcomes: seq<Outcome>, before: Results): Results
    requires |level| == |outcomes|
  {
    if level == [] then before
    else
      var n := |level| - 1;
      StoreAll(level[..n], outcomes[..n], before)[level[n] := Settle(outcomes[n])]
  }

  predicate AnyFailure(outcomes: seq<Outcome>) {
    outcomes != []
    && (AnyFailure(outcomes[..|outcomes| - 1]) || Settle(outcomes[|outcomes| - 1]).status == Failed)
  }

  lemma {:induction false} StoreAllKeys(level: seq<Id>, outcomes: seq<Outcome>, before: Results)
    requires |level| == |outcomes|
    ensures forall v :: v in StoreAll(level, outcomes, before) <==> v in before || v in level
  {
    if level != [] {
      var n := |level| - 1;
      StoreAllKeys(level[..n], outcomes[..n], before);
      assert level == level[..n] + [level[n]];
    }
  }

  lemma {:induction false} StoreAllKeepsOthers(level: seq<Id>, outcomes: seq<Outcome>, before: Results, v: Id)
    requires |level| == |outcomes| && v in before && v !in level
    ensures v in StoreAll(level, outcomes, before) && StoreAll(level, outcomes, before)[v] == before[v]
  {
    if level != [] {
      StoreAllKeepsOthers(level[..|level| - 1], outcomes[..|level| - 1], before, v);
    }
  }

  lemma {:induction false} StoreAllSets(level: seq<Id>, outcomes: seq<Outcome>, before: Results, i: nat)
    requires |level| == |outcomes| && NoDuplicates(level) && i < |level|
    ensures level[i] in StoreAll(level, outcomes, before)
    ensures StoreAll(level, outcomes, before)[level[i]] == Settle(outcomes[i])
  {
    var n := |level| - 1;
    if i < n {
      StoreAllSets(level[..n], outcomes[..n], before, i);
    }
  }

  lemma {:induction false} AnyFailureSpec(outcomes: seq<Outcome>)
    ensures AnyFailure(outcomes) <==> exists o :: o in outcomes && Settle(o).status == Failed
  {
    if outcomes != [] {
      var init := outcomes[..|outcomes| - 1];
      assert outcomes == init + [outcomes[|outcomes| - 1]];
      AnyFailureSpec(init);
    }
  }

  lemma StoredFailure(level: seq<Id>, outcomes: seq<Outcome>, before: Results)
    requires |level| == |outcomes| && NoDuplicates(level)
    ensures LevelFailed(level, StoreAll(level, outcomes, before)) <==> AnyFailure(outcomes)
  {
    var after := StoreAll(level, outcomes, before);
    AnyFailureSpec(outcomes);
    if LevelFailed(level, after) {
      var v :| v in level && v in after && after[v].status == Failed;
      var i :| 0 <= i < |level| && level[i] == v;
      StoreAllSets(level, outcomes, before, i);
      assert outcomes[i] in outcomes;
    }
    if AnyFailure(outcomes) {
      var o :| o in outcomes && Settle(o).status == Failed;
      var i :| 0 <= i < |outcomes| && outcomes[i] == o;
      StoreAllSets(level, outcomes, before, i);
      assert level[i] in level;
    }
  }

  /** Stores the outcomes of one level and says whether any of them is a failure. */
  method StoreLevel(level: seq<Id>, outcomes: seq<Outcome>, results: Results)
    returns (after: Results, failure: bool)
    requires |outcomes| == |level|
    ensures after == StoreAll(level, outcomes, results) && failure == AnyFailure(outcomes)
  {
    after, failure := results, false;
    for i := 0 to |level|
      invariant after == StoreAll(level[..i], outcomes[..i], results)
      invariant failure == AnyFailure(outcomes[..i])
    {
      assert level[..i + 1][..i] == level[..i] && outcomes[..i + 1][..i] == outcomes[..i];
      after := after[level[i] := Settle(outcomes[i])];
      if Settle(outcomes[i]).status == Failed {
        failure := true;
      }
    }
    assert level[..|level|] == level && outcomes[..|level|] == outcomes;
  }

  /** One row for each node of a level, numbered after those already written. */
  method WriteRows(level: seq<Id>, statuses: map<Id, NodeStatus>, rows: seq<Row>) returns (written: seq<Row>)
    requires RowsNumbered(rows)
    requires forall v :: v in level ==> v in statuses
    ensures RowsNumbered(written) && rows <= written
    ensures NodesOf(written) == NodesOf(rows) + level
    ensures forall i :: |rows| <= i < |written| ==>
      written[i].node in level && written[i].status == statuses[written[i].node]
  {
    written := rows;
    for i := 0 to |level|
      invariant |written| == |rows| + i && RowsNumbered(written) && rows <= written
      invariant NodesOf(written) == NodesOf(rows) + level[..i]
      invariant forall j :: |rows| <= j < |written| ==>
        written[j].node in level && written[j].status == statuses[written[j].node]
    {
      assert level[..i + 1] == level[..i] + [level[i]];
      ghost var before := written;
      written := written + [Row(level[i], statuses[level[i]], |written|)];
      assert NodesOf(written) == NodesOf(before) + [level[i]];
    }
    assert level[..|level|] == level;
  }

  /** Everything that holds after the first `k` levels have run. */
  ghost predicate RanThrough(connections: seq<Edge>, levels: seq<seq<Id>>, k: nat,
                             run: (Id, Data) -> Outcome, results: Results, rows: seq<Row>)
    requires k <= |levels|
  {
    && FollowsDataFlow(connections, run, results)
    && results.Keys == Elements(Flatten(levels[..k]))
    && RowsNumbered(rows) && RowsTell(rows, results)
    && NodesOf(rows) == Flatten(levels[..k])
  }

  lemma {:induction false} LevelInPrefix(levels: seq<seq<Id>>, j: nat, k: nat, v: Id)
    requires j < k <= |levels| && v in levels[j]
    ensures v in Flatten(levels[..k])
  {
    assert levels[..k][..k - 1] == levels[..k - 1];
    if j < k - 1 {
      LevelInPrefix(levels, j, k - 1, v);
    }
  }

  lemma SliceInit<T>(s: seq<T>, k: nat)
    requires k < |s|
    ensures s[..|s| - 1][..k] == s[..k] && s[..|s| - 1][k..] == s[k..][..|s[k..]| - 1]
    ensures s[k..][|s[k..]| - 1] == s[|s| - 1]
  {
  }

  lemma {:induction false} SplitFlatten(levels: seq<seq<Id>>, k: nat)
    requires k <= |levels|
    ensures Flatten(levels) == Flatten(levels[..k]) + Flatten(levels[k..])
  {
    if k == |levels| {
      assert levels[..k] == levels && levels[k..] == [];
    } else {
      var init, last := levels[..|levels| - 1], levels[|levels| - 1];
      SplitFlatten(init, k);
      SliceInit(levels, k);
    }
  }

  lemma NextLevelIsNew(nodes: seq<Id>, connections: seq<Edge>, levels: seq<seq<Id>>, k: nat, results: Results)
    requires IsLevelPlan(nodes, connections, levels) && k < |levels|
    requires results.Keys == Elements(Flatten(levels[..k]))
    ensures NoDuplicates(levels[k])
    ensures forall v :: v in levels[k] ==> v !in results
    ensures forall v, u :: v in levels[k] && Edge(u, v) in connections ==> u in results
    ensures Flatten(levels[..k + 1]) == Flatten(levels[..k]) + levels[k]
  {
    assert levels[..k + 1][..k] == levels[..k];
    SplitFlatten(levels, k + 1);
    DistinctHalves(Flatten(levels[..k + 1]), Flatten(levels[k + 1..]));
    DistinctHalves(Flatten(levels[..k]), levels[k]);
    forall v | v in levels[k] ensures v !in results {
      assert v !in Flatten(levels[..k]);
    }
    forall v, u | v in levels[k] && Edge(u, v) in connections ensures u in results {
      assert PlacedAt(connections, levels, k, v);
    }
  }

  lemma LaterLevelNotRun(nodes: seq<Id>, connections: seq<Edge>, levels: seq<seq<Id>>, k: nat, j: nat, results: Results)
    requires IsLevelPlan(nodes, connections, levels) && k <= j < |levels|
    requires results.Keys == Elements(Flatten(levels[..k]))
    ensures forall v :: v in levels[j] ==> v !in results
  {
    forall v | v in levels[j] ensures v !in Flatten(levels[..k]) {
      RankOfLevel(levels, j, v);
      if v in Flatten(levels[..k]) {
        var i := FlattenedLevel(levels[..k], v);
        RankOfLevel(levels, i, v);
      }
    }
  }

  lemma RowsStillTell(rows: seq<Row>, before: Results, after: Results)
    requires RowsTell(rows, before)
    requires forall v :: v in NodesOf(rows) ==> v in before
    requires before.Keys <= after.Keys && forall v :: v in before ==> after[v] == before[v]
    ensures RowsTell(rows, after)
  {
    forall i | 0 <= i < |rows|
      ensures rows[i].status == if rows[i].node in after then after[rows[i].node].status else Skipped
    {
      assert NodesOf(rows)[i] == rows[i].node;
    }
  }

  lemma LevelFailureStays(levels: seq<seq<Id>>, j: nat, k: nat, before: Results, after: Results)
    requires j < k <= |levels| && before.Keys == Elements(Flatten(levels[..k]))
    requires before.Keys <= after.Keys && forall v :: v in before ==> after[v] == before[v]
    ensures LevelFailed(levels[j], before) <==> LevelFailed(levels[j], after)
  {
    forall v | v in levels[j] ensures v in before {
      LevelInPrefix(levels, j, k, v);
    }
  }

  /** After levels that neither were cancelled nor failed, a run may end or be cancelled. */
  lemma StopsAfterCleanLevels(levels: seq<seq<Id>>, k: nat, results: Results,
                              cancelledAt: nat -> bool, continueOnError: bool)
    requires k <= |levels| && (k == |levels| || cancelledAt(k))
    requires NotStoppedBefore(levels, k, results, cancelledAt, continueOnError)
    ensures StopsAt(levels, k, results, cancelledAt, continueOnError)
  {
  }

  lemma StopsAfterFailedLevel(levels: seq<seq<Id>>, k: nat, results: Results,
                              cancelledAt: nat -> bool, continueOnError: bool)
    requires 0 < k <= |levels| && !continueOnError && !cancelledAt(k - 1) && LevelFailed(levels[k - 1], results)
    requires NotStoppedBefore(levels, k - 1, results, cancelledAt, continueOnError)
    ensures StopsAt(levels, k, results, cancelledAt, continueOnError)
  {
  }

  lemma StoredRanLevel(connections: seq<Edge>, run: (Id, Data) -> Outcome, level: seq<Id>, before: Results)
    requires NoDuplicates(level) && forall v :: v in level ==> v !in before
    ensures var outcomes := Outcomes(connections, run, level, before);
      |outcomes| == |level| && RanLevel(connections, run, level, before, StoreAll(level, outcomes, before))
  {
    OutcomesSpec(connections, run, level, before, 0);
    var outcomes := Outcomes(connections, run, level, before);
    StoreAllKeys(level, outcomes, before);
    var after := StoreAll(level, outcomes, before);
    forall v | v in before ensures after[v] == before[v] {
      StoreAllKeepsOthers(level, outcomes, before, v);
    }
    forall v | v in level
      ensures after[v] == Settle(run(v, MergedInput(Dependencies(connections, v), before)))
    {
      var i :| 0 <= i < |level| && level[i] == v;
      OutcomesSpec(connections, run, level, before, i);
      StoreAllSets(level, outcomes, before, i);
    }
  }

  lemma LevelKeepsRanThrough(nodes: seq<Id>, connections: seq<Edge>, levels: seq<seq<Id>>, k: nat,
                             run: (Id, Data) -> Outcome, before: Results, after: Results,
                             rows: seq<Row>, written: seq<Row>)
    requires IsLevelPlan(nodes, connections, levels) && k < |levels|
    requires RanThrough(connections, levels, k, run, before, rows)
    requires RanLevel(connections, run, levels[k], before, after)
    requires RowsNumbered(written) && rows <= written
    requires NodesOf(written) == NodesOf(rows) + levels[k]
    requires forall i :: |rows| <= i < |written| ==>
      written[i].node in levels[k] && written[i].status == after[written[i].node].status
    ensures RanThrough(connections, levels, k + 1, run, after, written)
  {
    NextLevelIsNew(nodes, connections, levels, k, before);
    LevelKeepsDataFlow(connections, run, levels[k], before, after);
    RowsStillTell(rows, before, after);
    assert RowsTell(written, after);
    forall v ensures v in after <==> v in Elements(Flatten(levels[..k + 1])) {
      assert v in before <==> v in Elements(Flatten(levels[..k]));
    }
  }

  lemma EarlierLevelsStay(levels: seq<seq<Id>>, k: nat, before: Results, after: Results,
                          cancelledAt: nat -> bool, continueOnError: bool)
    requires k <= |levels| && before.Keys == Elements(Flatten(levels[..k]))
    requires before.Keys <= after.Keys && forall v :: v in before ==> after[v] == before[v]
    requires NotStoppedBefore(levels, k, before, cancelledAt, continueOnError)
    ensures NotStoppedBefore(levels, k, after, cancelledAt, continueOnError)
  {
    forall j | 0 <= j < k ensures LevelFailed(levels[j], before) <==> LevelFailed(levels[j], after) {
      LevelFailureStays(levels, j, k, before, after);
    }
  }

  /** One turn of the executor's loop over levels. */
  method RunNextLevel(ghost nodes: seq<Id>, connections: seq<Edge>, levels: seq<seq<Id>>, k: nat,
                      run: (Id, Data) -> Outcome, results: Results, rows: seq<Row>,
                      ghost cancelledAt: nat -> bool, ghost continueOnError: bool)
    returns (after: Results, written: seq<Row>, failure: bool)
    requires IsLevelPlan(nodes, connections, levels) && k < |levels| && !cancelledAt(k)
    requires RanThrough(connections, levels, k, run, results, rows)
    requires NotStoppedBefore(levels, k, results, cancelledAt, continueOnError)
    ensures RanThrough(connections, levels, k + 1, run, after, written)
    ensures failure <==> LevelFailed(levels[k], after)
    ensures NotStoppedBefore(levels, k, after, cancelledAt, continueOnError)
    ensures !failure || continueOnError ==> NotStoppedBefore(levels, k + 1, after, cancelledAt, continueOnError)
  {
    var level := levels[k];
    NextLevelIsNew(nodes, connections, levels, k, results);
    OutcomesSpec(connections, run, level, results, 0);
    var outcomes := GatherLevel(connections, level, run, results);
    after, failure := StoreLevel(level, outcomes, results);
    StoreAllKeys(level, outcomes, results);
    written := WriteRows(level, map v | v in level :: after[v].status, rows);
    StoredRanLevel(connections, run, level, results);
    StoredFailure(level, outcomes, results);
    LevelKeepsRanThrough(nodes, connections, levels, k, run, results, after, rows, written);
    EarlierLevelsStay(levels, k, results, after, cancelledAt, continueOnError);
  }

  /** The loop over levels up to where it breaks; the rows of the levels it leaves out come after. */
  method RunLevels(ghost nodes: seq<Id>, connections: seq<Edge>, levels: seq<seq<Id>>,
                   run: (Id, Data) -> Outcome, cancelledAt: nat -> bool, continueOnError: bool)
    returns (results: Results, rows: seq<Row>, cut: nat)
    requires IsLevelPlan(nodes, connections, levels)
    ensures StopsAt(levels, cut, results, cancelledAt, continueOnError)
    ensures RanThrough(connections, levels, cut, run, results, rows)
  {
    results, rows, cut := map[], [], 0;
    while cut < |levels|
      invariant cut <= |levels|
      invariant RanThrough(connections, levels, cut, run, results, rows)
      invariant NotStoppedBefore(levels, cut, results, cancelledAt, continueOnError)
    {
      if cancelledAt(cut) {
        break;
      }
      var failure;
      results, rows, failure :=
        RunNextLevel(nodes, connections, levels, cut, run, results, rows, cancelledAt, continueOnError);
      cut := cut + 1;
      if failure && !continueOnError {
        StopsAfterFailedLevel(levels, cut, results, cancelledAt, continueOnError);
        return;
      }
    }
    StopsAfterCleanLevels(levels, cut, results, cancelledAt, continueOnError);
  }

  /** Writes a skipped row for every node of the levels from `k` on. */
  method SkipFrom(ghost nodes: seq<Id>, ghost connections: seq<Edge>, levels: seq<seq<Id>>, k: nat,
                  ghost run: (Id, Data) -> Outcome, results: Results, rows: seq<Row>)
    returns (written: seq<Row>)
    requires IsLevelPlan(nodes, connections, levels) && k <= |levels|
    requires RanThrough(connections, levels, k, run, results, rows)
    ensures RowsNumbered(written) && RowsTell(written, results)
    ensures NodesOf(written) == Flatten(levels)
  {
    written := rows;
    for j := k to |levels|
      invariant RowsNumbered(written) && RowsTell(written, results)
      invariant NodesOf(written) == Flatten(levels[..j])
    {
      assert levels[..j + 1][..j] == levels[..j];
      LaterLevelNotRun(nodes, connections, levels, k, j, results);
      written := WriteRows(levels[j], map v | v in levels[j] :: Skipped, written);
    }
    assert levels[..|levels|] == levels;
  }

  method ExecuteLevels(ghost nodes: seq<Id>, connections: seq<Edge>, levels: seq<seq<Id>>,
                       run: (Id, Data) -> Outcome, cancelledAt: nat -> bool, continueOnError: bool)
    returns (results: Results, rows: seq<Row>, cut: nat)
    requires IsLevelPlan(nodes, connections, levels)
    ensures StopsAt(levels, cut, results, cancelledAt, continueOnError)
    ensures results.Keys == Elements(Flatten(levels[..cut]))
    ensures FollowsDataFlow(connections, run, results)
    ensures forall v :: v in results ==> RanOnSources(connections, run, results, v)
    ensures RowsNumbered(rows) && RowsTell(rows, results)
    ensures NodesOf(rows) == Flatten(levels)
  {
    results, rows, cut := RunLevels(nodes, connections, levels, run, cancelledAt, continueOnError);
    DataFlowReachesNodes(connections, run, results);
    rows := SkipFrom(nodes, connections, levels, cut, run, results, rows);
  }

  // ---------------------------------------------------------------------------------------
  // What every run has in common
  // ---------------------------------------------------------------------------------------

  lemma {:induction false} ResultIsDetermined(nodes: seq<Id>, connections: seq<Edge>, levels: seq<seq<Id>>,
                                              run: (Id, Data) -> Outcome, a: Results, b: Results, k: nat, v: Id)
    requires IsLevelPlan(nodes, connections, levels) && k < |levels| && v in levels[k]
    requires FollowsDataFlow(connections, run, a) && FollowsDataFlow(connections, run, b)
    requires v in a && v in b
    ensures a[v] == b[v]
    decreases k
  {
    var deps := Dependencies(connections, v);
    forall u | u in deps ensures u in a && u in b && a[u] == b[u] {
      assert Edge(u, v) in connections && PlacedAt(connections, levels, k, v);
      var j := FlattenedLevel(levels[..k], u);
      ResultIsDetermined(nodes, connections, levels, run, a, b, j, u);
    }
    InputDependsOnDeps(deps, a, b);
  }

  /**
   * Runs of the same flow agree on every node that both executed, however the levels were
   * ordered, wherever either run was cut short, and whether or not it continued on errors.
   */
  lemma RunsAgree(nodes: seq<Id>, connections: seq<Edge>, levels: seq<seq<Id>>, run: (Id, Data) -> Outcome,
                  a: Results, b: Results)
    requires IsLevelPlan(nodes, connections, levels)
    requires FollowsDataFlow(connections, run, a) && FollowsDataFlow(connections, run, b)
    requires a.Keys <= Elements(nodes)
    ensures forall v :: v in a && v in b ==> a[v] == b[v]
    ensures a.Keys == b.Keys ==> a == b
  {
    forall v | v in a && v in b ensures a[v] == b[v] {
      assert v in Elements(Flatten(levels));
      var k := FlattenedLevel(levels, v);
      ResultIsDetermined(nodes, connections, levels, run, a, b, k, v);
    }
  }

  // ---------------------------------------------------------------------------------------
  // The summary and the final status
  // ---------------------------------------------------------------------------------------

  datatype Summary = Summary(executed: nat, passed: nat, failed: nat, skipped: nat)

  function WithStatus(results: Results, status: NodeStatus): set<Id> {
    set v | v in results && results[v].status == status
  }

  function Aggregate(results: Results): Summary {
    Summary(|results|, |WithStatus(results, Completed)|, |WithStatus(results, Failed)|, |WithStatus(results, Skipped)|)
  }

  datatype ExecutionStatus = ExecutionCompleted | ExecutionFailed

  function FinalStatus(summary: Summary): ExecutionStatus {
    if summary.failed == 0 then ExecutionCompleted else ExecutionFailed
  }

  lemma {:induction false} FlattenSize(levels: seq<seq<Id>>)
    requires forall k :: 0 <= k < |levels| ==> levels[k] != []
    ensures |Flatten(levels)| >= |levels|
  {
    if levels != [] {
      FlattenSize(levels[..|levels| - 1]);
    }
  }

  /** The summary accounts for the whole flow exactly when no level was left out. */
  lemma SummaryCoversFlow(nodes: seq<Id>, connections: seq<Edge>, levels: seq<seq<Id>>, cut: nat, results: Results)
    requires IsLevelPlan(nodes, connections, levels) && cut <= |levels|
    requires results.Keys == Elements(Flatten(levels[..cut]))
    ensures Aggregate(results).executed == |nodes| - |Flatten(levels[cut..])|
    ensures Aggregate(results).executed == |nodes| <==> cut == |levels|
  {
    SplitFlatten(levels, cut);
    DistinctHalves(Flatten(levels[..cut]), Flatten(levels[cut..]));
    DistinctCount(Flatten(levels[..cut]));
    DistinctCount(Flatten(levels));
    DistinctCount(nodes);
    assert |results| == |results.Keys|;
    FlattenSize(levels[cut..]);
  }

  /** The nodes whose stored row says they were skipped. */
  ghost function SkippedRows(rows: seq<Row>): set<Id> {
    set i | 0 <= i < |rows| && rows[i].status == Skipped :: rows[i].node
  }

  /**
   * The reported `nodes_skipped` counts only nodes that ran and reported themselves skipped.
   * The nodes the executor itself skipped are exactly what the report leaves out.
   */
  lemma ReportedSkipsFallShort(nodes: seq<Id>, results: Results, rows: seq<Row>)
    requires RowsTell(rows, results) && Elements(NodesOf(rows)) == Elements(nodes)
    requires results.Keys <= Elements(nodes)
    ensures |SkippedRows(rows)| == Aggregate(results).skipped + |Elements(nodes) - results.Keys|
  {
    var unrun, reported := Elements(nodes) - results.Keys, WithStatus(results, Skipped);
    forall v ensures v in SkippedRows(rows) <==> v in unrun + reported {
      if v in unrun + reported {
        assert v in NodesOf(rows);
        var i :| 0 <= i < |rows| && NodesOf(rows)[i] == v;
        assert rows[i].node == v;
      }
      if v in SkippedRows(rows) {
        var i :| 0 <= i < |rows| && rows[i].status == Skipped && rows[i].node == v;
        assert NodesOf(rows)[i] == v;
      }
    }
    assert SkippedRows(rows) == unrun + reported;
  }

  /** A run cancelled before its first level executes nothing and is still reported as completed. */
  lemma CancelledRunReportsCompleted(levels: seq<seq<Id>>, cut: nat, results: Results,
                                     cancelledAt: nat -> bool, continueOnError: bool)
    requires StopsAt(levels, cut, results, cancelledAt, continueOnError)
    requires results.Keys == Elements(Flatten(levels[..cut]))
    requires levels != [] && cancelledAt(0)
    ensures cut == 0
    ensures Aggregate(results) == Summary(0, 0, 0, 0)
    ensures FinalStatus(Aggregate(results)) == ExecutionCompleted
  {
    assert levels[..0] == [];
    assert results == map[];
  }

  /** Cancelled or not, a run ends as failed exactly when a node it executed failed. */
  lemma FinalStatusMeansNoFailure(results: Results)
    ensures FinalStatus(Aggregate(results)) == ExecutionFailed
       <==> exists v :: v in results && results[v].status == Failed
  {
    var failed := WithStatus(results, Failed);
    if v :| v in results && results[v].status == Failed {
      assert v in failed;
    } else {
      assert failed == {};
    }
  }

  /** The nodes executed are those of a plan's levels up to where the run stopped. */
  ghost predicate RanUntil(nodes: seq<Id>, connections: seq<Edge>, levels: seq<seq<Id>>, cut: nat, results: Results,
                           cancelledAt: nat -> bool, continueOnError: bool) {
    && IsLevelPlan(nodes, connections, levels)
    && StopsAt(levels, cut, results, cancelledAt, continueOnError)
    && results.Keys == Elements(Flatten(levels[..cut]))
  }

  lemma SameLevels(nodes: seq<Id>, connections: seq<Edge>, a: seq<seq<Id>>, b: seq<seq<Id>>, k: nat)
    requires TargetsKnown(nodes, connections)
    requires IsLevelPlan(nodes, connections, a) && IsLevelPlan(nodes, connections, b)
    requires k < |a|
    ensures k < |b| && Elements(a[k]) == Elements(b[k])
  {
    LevelsAreDetermined(nodes, connections, a, b, k, a[k][0]);
    forall v ensures v in a[k] <==> v in b[k] {
      if v in a[k] {
        LevelsAreDetermined(nodes, connections, a, b, k, v);
      }
      if v in b[k] {
        LevelsAreDetermined(nodes, connections, b, a, k, v);
      }
    }
  }

  lemma FailureIsShared(nodes: seq<Id>, connections: seq<Edge>, a: seq<seq<Id>>, k: nat, ra: Results,
                        b: seq<seq<Id>>, j: nat, rb: Results)
    requires TargetsKnown(nodes, connections)
    requires IsLevelPlan(nodes, connections, a) && IsLevelPlan(nodes, connections, b)
    requires k < |a| && k < j <= |b| && rb.Keys == Elements(Flatten(b[..j]))
    requires forall v :: v in ra && v in rb ==> ra[v] == rb[v]
    requires LevelFailed(a[k], ra)
    ensures k < |b| && LevelFailed(b[k], rb)
  {
    var v :| v in a[k] && v in ra && ra[v].status == Failed;
    LevelsAreDetermined(nodes, connections, a, b, k, v);
    LevelInPrefix(b, k, j, v);
    assert v in Elements(Flatten(b[..j]));
  }

  /** Of two runs of one flow, the first does not stop before the second. */
  lemma StopsNoEarlier(nodes: seq<Id>, connections: seq<Edge>, a: seq<seq<Id>>, i: nat, ra: Results,
                       b: seq<seq<Id>>, j: nat, rb: Results, cancelledAt: nat -> bool, continueOnError: bool)
    requires TargetsKnown(nodes, connections)
    requires RanUntil(nodes, connections, a, i, ra, cancelledAt, continueOnError)
    requires RanUntil(nodes, connections, b, j, rb, cancelledAt, continueOnError)
    requires forall v :: v in ra && v in rb ==> ra[v] == rb[v]
    ensures i >= j
  {
    if i < j {
      SameLevels(nodes, connections, b, a, i);
      if i > 0 && LevelFailed(a[i - 1], ra) {
        FailureIsShared(nodes, connections, a, i - 1, ra, b, j, rb);
      }
      assert false;
    }
  }

  lemma NodesUpToLevel(levels: seq<seq<Id>>, k: nat)
    requires k < |levels|
    ensures Elements(Flatten(levels[..k + 1])) == Elements(Flatten(levels[..k])) + Elements(levels[k])
  {
    assert levels[..k + 1] == levels[..k] + [levels[k]];
    FlattenAppend(levels[..k], levels[k]);
  }

  lemma {:induction false} SamePrefix(nodes: seq<Id>, connections: seq<Edge>, a: seq<seq<Id>>, b: seq<seq<Id>>, k: nat)
    requires TargetsKnown(nodes, connections)
    requires IsLevelPlan(nodes, connections, a) && IsLevelPlan(nodes, connections, b)
    requires k <= |a| && k <= |b|
    ensures Elements(Flatten(a[..k])) == Elements(Flatten(b[..k]))
  {
    if k > 0 {
      SamePrefix(nodes, connections, a, b, k - 1);
      SameLevels(nodes, connections, a, b, k - 1);
      NodesUpToLevel(a, k - 1);
      NodesUpToLevel(b, k - 1);
    }
  }

  /**
   * How a level lists its nodes makes no difference to a run: with the same node behaviour,
   * cancellation and tolerance, it stops at the same level with the same results.
   */
  lemma RunIsDetermined(nodes: seq<Id>, connections: seq<Edge>, run: (Id, Data) -> Outcome,
                        a: seq<seq<Id>>, i: nat, ra: Results, b: seq<seq<Id>>, j: nat, rb: Results,
                        cancelledAt: nat -> bool, continueOnError: bool)
    requires TargetsKnown(nodes, connections)
    requires RanUntil(nodes, connections, a, i, ra, cancelledAt, continueOnError)
    requires RanUntil(nodes, connections, b, j, rb, cancelledAt, continueOnError)
    requires FollowsDataFlow(connections, run, ra) && FollowsDataFlow(connections, run, rb)
    ensures i == j && ra == rb
    ensures Aggregate(ra) == Aggregate(rb)
  {
    SplitFlatten(a, i);
    assert ra.Keys <= Elements(Flatten(a));
    RunsAgree(nodes, connections, a, run, ra, rb);
    StopsNoEarlier(nodes, connections, a, i, ra, b, j, rb, cancelledAt, continueOnError);
    StopsNoEarlier(nodes, connections, b, j, rb, a, i, ra, cancelledAt, continueOnError);
    SamePrefix(nodes, connections, a, b, i);
  }

  /** A node whose task raises on its input is stored as failed, and the run ends as failed. */
  lemma RaisedTaskFailsRun(connections: seq<Edge>, run: (Id, Data) -> Outcome, results: Results, v: Id, input: Data)
    requires FollowsDataFlow(connections, run, results) && v in results
    requires IsInputOf(connections, results, v, input) && run(v, input) == Raised
    ensures results[v].status == Failed && results[v].output == None
    ensures FinalStatus(Aggregate(results)) == ExecutionFailed
  {
    MergedInputIsInput(connections, results, v);
    InputIsUnique(connections, results, v, input, MergedInput(Dependencies(connections, v), results));
    FinalStatusMeansNoFailure(results);
  }

  /** The summary counts the executed nodes and, among them, the completed, failed and skipped ones. */
  lemma SummaryCounts(results: Results, passed: set<Id>, failed: set<Id>, skipped: set<Id>)
    requires forall v :: v in passed <==> v in results && results[v].status == Completed
    requires forall v :: v in failed <==> v in results && results[v].status == Failed
    requires forall v :: v in skipped <==> v in results && results[v].status == Skipped
    ensures Aggregate(results) == Summary(|results.Keys|, |passed|, |failed|, |skipped|)
    ensures |passed| + |failed| + |skipped| <= |results.Keys|
  {
    assert passed == WithStatus(results, Completed);
    assert failed == WithStatus(results, Failed);
    assert skipped == WithStatus(results, Skipped);
    SubsetCount(passed + failed + skipped, results.Keys);
  }

  datatype FlowOutcome = Rejected | NoPlan(error: PlanError) | Finished(status: ExecutionStatus, summary: Summary)

  /** `execute_flow`: validate, plan, run, aggregate. `otherErrors` stands for the checks of node contents. */
  method ExecuteFlow(nodes: seq<Id>, connections: seq<Edge>, otherErrors: bool, run: (Id, Data) -> Outcome,
                     cancelledAt: nat -> bool, continueOnError: bool)
    returns (outcome: FlowOutcome, results: Results, rows: seq<Row>)
    ensures outcome == Rejected <==> nodes != [] && (otherErrors || !PassesGraphChecks(nodes, connections, true))
    ensures outcome.Finished? <==> outcome != Rejected && Plannable(nodes, connections)
    ensures outcome.Finished? ==> FollowsDataFlow(connections, run, results) && results.Keys <= Elements(nodes)
    ensures outcome.Finished? ==> forall v :: v in results ==> RanOnSources(connections, run, results, v)
    ensures outcome.Finished? ==> RowsNumbered(rows) && RowsTell(rows, results)
    ensures outcome.Finished? ==> NoDuplicates(NodesOf(rows)) && Elements(NodesOf(rows)) == Elements(nodes)
    ensures outcome.Finished? ==>
      exists levels, cut :: RanUntil(nodes, connections, levels, cut, results, cancelledAt, continueOnError)
    ensures outcome.Finished? && continueOnError && (forall k :: !cancelledAt(k)) ==>
      results.Keys == Elements(nodes)
    ensures outcome.Finished? ==>
      outcome.summary == Aggregate(results) && outcome.status == FinalStatus(outcome.summary)
    ensures !outcome.Finished? ==> results == map[] && rows == []
  {
    results, rows := map[], [];
    var valid, circular, cycle := ValidateGraph(nodes, connections, true);
    if !valid || (nodes != [] && otherErrors) {
      return Rejected, results, rows;
    }
    var plan := GetExecutionLevels(nodes, connections);
    if plan.Err? {
      return NoPlan(plan.error), results, rows;
    }
    var cut;
    results, rows, cut := ExecuteLevels(nodes, connections, plan.value, run, cancelledAt, continueOnError);
    SplitFlatten(plan.value, cut);
    assert plan.value[..|plan.value|] == plan.value;
    assert RanUntil(nodes, connections, plan.value, cut, results, cancelledAt, continueOnError);
    var summary := Aggregate(results);
    outcome := Finished(FinalStatus(summary), summary);
  }
}
