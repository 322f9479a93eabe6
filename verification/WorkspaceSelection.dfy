/**
 * The workspace provider: one asynchronous list load, user switches and guard-supplied details
 * all write the same selection and its stored copy.
 */
module WorkspaceSelection {
  import opened Wrappers
  import opened Sequences

  type Id = string

  datatype Workspace = Workspace(id: Id, tenant: string, name: string, status: string)

  /** The provider's React state together with the entry in local storage. */
  datatype State = State(workspaces: seq<Workspace>, selected: Option<Id>, stored: Option<Id>,
                         detail: Option<Workspace>, loading: bool)

  datatype Event =
    | Loaded(list: seq<Workspace>)
    | LoadFailed
    | Switched(id: Id)
    | DetailSet(detail: Option<Workspace>)

  function Active(list: seq<Workspace>): seq<Workspace> {
    if list == [] then []
    else (if list[0].status == "active" then [list[0]] else []) + Active(list[1..])
  }

  /** JavaScript's `!saved`: nothing is stored, or the empty string is. */
  predicate NothingSaved(stored: Option<Id>) {
    stored.None? || stored.value == ""
  }

  function Initial(stored: Option<Id>): State {
    State([], stored, stored, None, true)
  }

  function Apply(s: State, e: Event): State {
    match e
    case Loaded(list) =>
      var active := Active(list);
      if active != [] && NothingSaved(s.stored) then
        s.(workspaces := active, selected := Some(active[0].id), stored := Some(active[0].id), loading := false)
      else
        s.(workspaces := active, loading := false)
    case LoadFailed => s.(loading := false)
    case Switched(id) => s.(selected := Some(id), stored := Some(id), detail := None)
    case DetailSet(detail) =>
      if detail.Some? then
        s.(detail := detail, selected := Some(detail.value.id), stored := Some(detail.value.id))
      else
        s.(detail := None)
  }

  function Run(s: State, events: seq<Event>): State {
    if events == [] then s else Apply(Run(s, events[..|events| - 1]), events[|events| - 1])
  }

  function Find(list: seq<Workspace>, id: Option<Id>): Option<Workspace> {
    if list == [] then None
    else if Some(list[0].id) == id then Some(list[0])
    else Find(list[1..], id)
  }

  /** The derived `currentWorkspace`: the list entry, else the detail if it is the selected one. */
  function Current(s: State): Option<Workspace> {
    var listMatch := Find(s.workspaces, s.selected);
    if listMatch.Some? then listMatch
    else if s.detail.Some? && Some(s.detail.value.id) == s.selected then s.detail
    else None
  }

  /** The provider as the component runs it: each callback updates the fields in place. */
  class Provider {
    var workspaces: seq<Workspace>
    var selectedId: Option<Id>
    var stored: Option<Id>
    var detail: Option<Workspace>
    var loading: bool
    var cancelled: bool

    ghost function Value(): State
      reads this
    {
      State(workspaces, selectedId, stored, detail, loading)
    }

    constructor (saved: Option<Id>)
      ensures Value() == Initial(saved) && !cancelled
    {
      workspaces, selectedId, stored, detail, loading, cancelled := [], saved, saved, None, true, false;
    }

    method SetCurrentWorkspaceDetail(d: Option<Workspace>)
      modifies this
      ensures Value() == Apply(old(Value()), DetailSet(d)) && cancelled == old(cancelled)
    {
      detail := d;
      if d.Some? {
        selectedId := Some(d.value.id);
        stored := Some(d.value.id);
      }
    }

    method SwitchWorkspace(id: Id)
      modifies this
      ensures Value() == Apply(old(Value()), Switched(id)) && cancelled == old(cancelled)
    {
      selectedId := Some(id);
      stored := Some(id);
      detail := None;
    }

    /** The list reply; ignored once the provider is unmounted. */
    method ListArrived(list: seq<Workspace>)
      modifies this
      ensures Value() == if cancelled then old(Value()) else Apply(old(Value()), Loaded(list))
      ensures cancelled == old(cancelled)
    {
      if cancelled {
        return;
      }
      var active := Active(list);
      workspaces := active;
      if |active| > 0 {
        var saved := stored;
        if NothingSaved(saved) {
          var first := active[0].id;
          selectedId := Some(first);
          stored := Some(first);
        }
      }
      loading := false;
    }

    method ListFailed()
      modifies this
      ensures Value() == if cancelled then old(Value()) else Apply(old(Value()), LoadFailed)
      ensures cancelled == old(cancelled)
    {
      if !cancelled {
        loading := false;
      }
    }

    method Unmount()
      modifies this
      ensures Value() == old(Value()) && cancelled
    {
      cancelled := true;
    }
  }

  // ---------------------------------------------------------------------------------------
  // The order in which the load lands
  // ---------------------------------------------------------------------------------------

  /** The id an event writes to the selection and its stored copy, if it writes one. */
  function Written(e: Event): Option<Id> {
    match e
    case Switched(id) => Some(id)
    case DetailSet(Some(d)) => Some(d.id)
    case _ => None
  }

  function LastWritten(events: seq<Event>): Option<Id> {
    if events == [] then None
    else if Written(events[|events| - 1]).Some? then Written(events[|events| - 1])
    else LastWritten(events[..|events| - 1])
  }

  predicate UserEventsOnly(events: seq<Event>) {
    forall e :: e in events ==> e.Switched? || e.DetailSet?
  }

  /** The events with the list reply landing after the first `i` of them. */
  function LandingAt(events: seq<Event>, list: seq<Workspace>, i: nat): seq<Event>
    requires i <= |events|
  {
    events[..i] + [Loaded(list)] + events[i..]
  }

  lemma RunStep(s: State, events: seq<Event>, e: Event)
    ensures Run(s, events + [e]) == Apply(Run(s, events), e)
  {
    assert (events + [e])[..|events|] == events;
  }

  lemma {:induction false} RunConcat(s: State, a: seq<Event>, b: seq<Event>)
    ensures Run(s, a + b) == Run(Run(s, a), b)
  {
    if b == [] {
      assert a + b == a;
    } else {
      var init, last := b[..|b| - 1], b[|b| - 1];
      assert a + b == a + init + [last] && b == init + [last];
      RunConcat(s, a, init);
      RunStep(s, a + init, last);
      RunStep(Run(s, a), init, last);
    }
  }

  /** What user events do to a state: they fix the selection by the last write, and the detail. */
  lemma {:induction false} UserRun(s: State, events: seq<Event>)
    requires UserEventsOnly(events)
    ensures var t := Run(s, events);
      && t.workspaces == s.workspaces && t.loading == s.loading
      && (LastWritten(events).Some? ==> t.selected == t.stored == LastWritten(events))
      && (LastWritten(events).None? ==> t.selected == s.selected && t.stored == s.stored)
  {
    if events != [] {
      assert events[|events| - 1] in events;
      UserRun(s, events[..|events| - 1]);
    }
  }

  lemma {:induction false} UserRunDetail(s: State, t: State, events: seq<Event>)
    requires UserEventsOnly(events) && s.detail == t.detail
    ensures Run(s, events).detail == Run(t, events).detail
  {
    if events != [] {
      assert events[|events| - 1] in events;
      UserRunDetail(s, t, events[..|events| - 1]);
    }
  }

  /** The active workspaces of a list, in order and with repetition. */
  lemma {:induction false} ActiveIsFilter(list: seq<Workspace>, keep: Workspace -> bool)
    requires forall w :: keep(w) <==> w.status == "active"
    ensures Active(list) == Filter(list, keep)
  {
    if list != [] {
      ActiveIsFilter(list[1..], keep);
      FilterFromFront(list[0], list[1..], keep);
      assert list == [list[0]] + list[1..];
    }
  }

  /** The selection that results when the reply lands after the first `i` events. */
  lemma LandedState(s: State, events: seq<Event>, list: seq<Workspace>, i: nat)
    requires UserEventsOnly(events) && i <= |events| && s.selected == s.stored
    ensures var t := Run(s, LandingAt(events, list, i));
      var before := Run(s, events[..i]);
      var overridden := Active(list) != [] && NothingSaved(before.stored);
      && t.workspaces == Active(list) && !t.loading
      && t.detail == Run(s, events).detail
      && t.selected == t.stored
      && t.selected == if LastWritten(events[i..]).Some? then LastWritten(events[i..])
                       else if overridden then Some(Active(list)[0].id) else before.stored
  {
    var before := Run(s, events[..i]);
    var landed := Apply(before, Loaded(list));
    assert LandingAt(events, list, i) == events[..i] + ([Loaded(list)] + events[i..]);
    RunConcat(s, events[..i], [Loaded(list)] + events[i..]);
    RunConcat(before, [Loaded(list)], events[i..]);
    assert [Loaded(list)][..0] == [] && Run(before, []) == before;
    UserRun(s, events[..i]);
    UserRun(landed, events[i..]);
    UserRunDetail(before, landed, events[i..]);
    RunConcat(s, events[..i], events[i..]);
    assert events == events[..i] + events[i..];
  }

  /**
   * The state that results when the reply lands after the first `i` events; `keep` picks the
   * active workspaces.
   */
  lemma LandingOutcome(s: State, events: seq<Event>, list: seq<Workspace>, i: nat, keep: Workspace -> bool)
    requires UserEventsOnly(events) && i <= |events| && s.selected == s.stored
    requires forall w :: keep(w) <==> w.status == "active"
    ensures var t := Run(s, LandingAt(events, list, i));
      var before, active := Run(s, events[..i]), Filter(list, keep);
      var overridden := active != [] && (before.stored == None || before.stored == Some(""));
      && t.workspaces == active && !t.loading
      && t.detail == Run(s, events).detail
      && t.selected == t.stored
      && t.selected == if LastWritten(events[i..]).Some? then LastWritten(events[i..])
                       else if overridden then Some(active[0].id) else before.stored
  {
    LandedState(s, events, list, i);
    ActiveIsFilter(list, keep);
  }

  lemma {:induction false} LastWrittenSplit(events: seq<Event>, i: nat)
    requires i <= |events|
    ensures LastWritten(events)
         == if LastWritten(events[i..]).Some? then LastWritten(events[i..]) else LastWritten(events[..i])
  {
    if i == |events| {
      assert events[..i] == events;
    } else {
      var init := events[..|events| - 1];
      LastWrittenSplit(init, i);
      assert init[..i] == events[..i] && init[i..] == events[i..][..|events| - i - 1];
    }
  }

  function FinalState(s: State, events: seq<Event>, list: seq<Workspace>, i: nat): State
    requires i <= |events|
  {
    Run(s, LandingAt(events, list, i))
  }

  /** The user's last choice was the empty id, and the load has another id to put in its place. */
  predicate LoadCanOverrideChoice(events: seq<Event>, list: seq<Workspace>) {
    LastWritten(events) == Some("") && Active(list) != [] && Active(list)[0].id != ""
  }

  lemma LandingWithoutOverride(s: State, events: seq<Event>, list: seq<Workspace>, i: nat)
    requires UserEventsOnly(events) && i <= |events| && s.selected == s.stored
    requires !LoadCanOverrideChoice(events, list)
    ensures FinalState(s, events, list, i) == FinalState(s, events, list, 0)
  {
    LandedState(s, events, list, i);
    LandedState(s, events, list, 0);
    LastWrittenSplit(events, i);
    assert events[0..] == events && events[..0] == [];
    UserRun(s, events[..i]);
  }

  /**
   * Wherever the single list reply lands among the user's events, the final state is the same,
   * unless the last id chosen is empty and the list starts with a non-empty one.
   */
  lemma LandingOrderIrrelevant(s: State, events: seq<Event>, list: seq<Workspace>)
    requires UserEventsOnly(events) && s.selected == s.stored
    ensures (forall i, j :: 0 <= i <= |events| && 0 <= j <= |events| ==>
               FinalState(s, events, list, i) == FinalState(s, events, list, j))
       <==> !LoadCanOverrideChoice(events, list)
  {
    if LoadCanOverrideChoice(events, list) {
      LandedState(s, events, list, 0);
      LandedState(s, events, list, |events|);
      assert events[0..] == events && events[..|events|] == events && events[|events|..] == [];
      UserRun(s, events);
      assert FinalState(s, events, list, 0) != FinalState(s, events, list, |events|);
    } else {
      forall i, j | 0 <= i <= |events| && 0 <= j <= |events|
        ensures FinalState(s, events, list, i) == FinalState(s, events, list, j)
      {
        LandingWithoutOverride(s, events, list, i);
        LandingWithoutOverride(s, events, list, j);
      }
    }
  }

  // ---------------------------------------------------------------------------------------
  // What every reachable state satisfies
  // ---------------------------------------------------------------------------------------

  predicate Coherent(s: State) {
    s.stored == s.selected && (s.detail.Some? ==> s.selected == Some(s.detail.value.id))
  }

  /** The list reply is about to put another id in place of the empty one that the detail has. */
  predicate LoadOverridesDetail(s: State, e: Event) {
    && e.Loaded? && s.detail.Some? && s.detail.value.id == ""
    && Active(e.list) != [] && Active(e.list)[0].id != ""
  }

  /** One event breaks coherence in one case only: a load overriding a detail whose id is empty. */
  lemma StepCoherence(s: State, e: Event)
    requires Coherent(s)
    ensures Coherent(Apply(s, e)) <==> !LoadOverridesDetail(s, e)
  {
  }

  /** Every state of the run is coherent. */
  predicate CoherentThroughout(s: State, events: seq<Event>) {
    Coherent(Run(s, events)) && (events != [] ==> CoherentThroughout(s, events[..|events| - 1]))
  }

  /** Some list reply of the run overrides a detail. */
  predicate EverOverridesDetail(s: State, events: seq<Event>) {
    events != []
    && (LoadOverridesDetail(Run(s, events[..|events| - 1]), events[|events| - 1])
        || EverOverridesDetail(s, events[..|events| - 1]))
  }

  /** A run is coherent throughout exactly when no list reply on the way overrides a detail. */
  lemma {:induction false} RunIsCoherentThroughout(s: State, events: seq<Event>)
    requires Coherent(s)
    ensures CoherentThroughout(s, events) <==> !EverOverridesDetail(s, events)
  {
    if events != [] {
      var init, last := events[..|events| - 1], events[|events| - 1];
      RunIsCoherentThroughout(s, init);
      if Coherent(Run(s, init)) {
        StepCoherence(Run(s, init), last);
      }
    }
  }

  /** A detail whose id is empty, then a list: the stored id is the list's and the detail's is not. */
  lemma EmptyDetailBreaksCoherence(saved: Option<Id>, unnamed: Workspace, first: Workspace)
    requires unnamed.id == "" && first.id != "" && first.status == "active"
    ensures !Coherent(Run(Initial(saved), [DetailSet(Some(unnamed)), Loaded([first])]))
  {
    var events := [DetailSet(Some(unnamed)), Loaded([first])];
    assert events[..1] == [DetailSet(Some(unnamed))] && events[..1][..0] == [];
    assert Run(Initial(saved), events[..1]) == Apply(Initial(saved), DetailSet(Some(unnamed)));
    assert [first][1..] == [] && Active([first]) == [first];
  }

  /** Over every run, loads included in any number: stored and selected agree, and so does a detail. */
  lemma {:induction false} ReachableIsCoherent(saved: Option<Id>, events: seq<Event>)
    requires forall e :: e in events ==> Written(e) != Some("") || e.Switched?
    ensures var s := Run(Initial(saved), events);
      Coherent(s) && (s.detail.Some? ==> s.detail.value.id != "")
  {
    if events != [] {
      var last := events[|events| - 1];
      assert last in events;
      ReachableIsCoherent(saved, events[..|events| - 1]);
    }
  }

  ghost predicate IsFirstMatch(list: seq<Workspace>, id: Option<Id>, i: int) {
    && 0 <= i < |list| && Some(list[i].id) == id
    && forall k :: 0 <= k < i ==> Some(list[k].id) != id
  }

  lemma {:induction false} FindSpec(list: seq<Workspace>, id: Option<Id>)
    ensures Find(list, id).Some? <==> exists w :: w in list && Some(w.id) == id
    ensures Find(list, id).Some? ==>
      exists i :: 0 <= i < |list| && IsFirstMatch(list, id, i) && Find(list, id) == Some(list[i])
  {
    if list != [] {
      var rest := list[1..];
      FindSpec(rest, id);
      assert list == [list[0]] + rest;
      if Some(list[0].id) == id {
        assert IsFirstMatch(list, id, 0);
      } else if Find(rest, id).Some? {
        var i :| 0 <= i < |rest| && IsFirstMatch(rest, id, i) && Find(rest, id) == Some(rest[i]);
        assert IsFirstMatch(list, id, i + 1);
      }
    }
  }

  /** The list entry comes first, then the detail if it is the selected one. */
  lemma CurrentPrefersList(s: State, i: nat)
    ensures IsFirstMatch(s.workspaces, s.selected, i) ==> Current(s) == Some(s.workspaces[i])
    ensures (forall w :: w in s.workspaces ==> Some(w.id) != s.selected) ==>
      Current(s) == if s.detail.Some? && Some(s.detail.value.id) == s.selected then s.detail else None
  {
    FindSpec(s.workspaces, s.selected);
  }

  /** A coherent state with a detail shows a current workspace with the detail's id. */
  lemma CurrentFollowsDetail(s: State)
    requires Coherent(s)
    ensures s.detail.Some? ==> Current(s).Some? && Current(s).value.id == s.detail.value.id
    ensures Current(s).Some? ==> Some(Current(s).value.id) == s.selected
    ensures Current(s).None? <==> s.detail.None? && forall w :: w in s.workspaces ==> Some(w.id) != s.selected
  {
    FindSpec(s.workspaces, s.selected);
  }
}
