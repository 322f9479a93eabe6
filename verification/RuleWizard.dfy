/**
 * The natural-language rule wizard: three steps, a parse result that arrives asynchronously, a
 * growing clarification thread, and a bounded history with a stored copy.
 */
module RuleWizard {
  import opened Wrappers
  import opened Ascii

  const MAX_HISTORY := 5

  datatype Rule = Rule(confidence: real, ruleType: string)

  datatype Question = Question(field: string, text: string)

  /** A reply of the parse service. */
  datatype Reply = Reply(status: string, rule: Option<Rule>, questions: seq<Question>)

  datatype Entry = Entry(text: string, confidence: real, ruleType: string, timestamp: string)

  datatype Turn = Turn(field: string, question: string, answer: string, answeredAt: string)

  datatype Answer = Answer(field: string, text: string)

  /** A request to the parse service; a fresh interpretation carries neither answers nor history. */
  datatype Request = Request(text: string, answers: Option<seq<Answer>>, history: Option<seq<Turn>>)

  datatype Resolution = Resolution(id: string)

  datatype State = State(step: int, draft: string, result: Option<Reply>, resolution: Option<Resolution>,
                         history: seq<Entry>, stored: Option<seq<Entry>>, turns: seq<Turn>, sent: seq<Request>)

  datatype Event =
    | DraftChanged(text: string)
    | Interpret
    | Clarify(answers: seq<Answer>, now: string)
    | ReplyArrived(reply: Reply, now: string)
    | ReplyFailed
    | ResolutionArrived(resolution: Resolution)
    | ResolutionCancelled
    | ResultEdited(reply: Reply)
    | Continue
    | BackToInput
    | BackToReview
    | Clear

  /** What JavaScript's `trim` removes, as far as ASCII goes. */
  predicate IsBlank(c: char) {
    9 <= c as int <= 13 || c == ' '
  }

  function Trim(s: string): string {
    Strip(s, IsBlank)
  }

  /** A text without blanks at its ends is what is left when blanks around it are trimmed. */
  lemma TrimIs(a: string, m: string, b: string)
    requires forall i :: 0 <= i < |a| ==> a[i] as int in {9, 10, 11, 12, 13, 32}
    requires forall i :: 0 <= i < |b| ==> b[i] as int in {9, 10, 11, 12, 13, 32}
    requires m != [] ==> m[0] as int !in {9, 10, 11, 12, 13, 32} && m[|m| - 1] as int !in {9, 10, 11, 12, 13, 32}
    ensures Trim(a + m + b) == m
  {
    forall c: char ensures c as int in {9, 10, 11, 12, 13, 32} <==> IsBlank(c) {
    }
    if m == [] {
      assert a + m + b == (a + b) + [] + [];
      StripIs(a + b, [], [], IsBlank);
    } else {
      StripIs(a, m, b, IsBlank);
    }
  }

  /** `loadHistory`: the stored history, or none. */
  function Initial(stored: Option<seq<Entry>>, draft: string): State {
    State(1, draft, None, None, if stored.Some? then stored.value else [], stored, [], [])
  }

  predicate Succeeds(reply: Reply) {
    reply.status == "parsed" && reply.rule.Some?
  }

  function EntryFor(draft: string, rule: Rule, now: string): Entry {
    Entry(draft, rule.confidence, rule.ruleType, now)
  }

  function Shortened(h: seq<Entry>): seq<Entry> {
    if |h| <= MAX_HISTORY then h else h[..MAX_HISTORY]
  }

  function QuestionFor(questions: seq<Question>, field: string): string {
    if questions == [] then "Answer for " + field
    else if questions[0].field == field then questions[0].text
    else QuestionFor(questions[1..], field)
  }

  /** The turns a set of answers adds: the answers that are not blank, in order. */
  function NewTurns(questions: seq<Question>, answers: seq<Answer>, now: string): seq<Turn> {
    if answers == [] then []
    else
      (if Trim(answers[0].text) == "" then []
       else [Turn(answers[0].field, QuestionFor(questions, answers[0].field), answers[0].text, now)])
      + NewTurns(questions, answers[1..], now)
  }

  function AskedQuestions(s: State): seq<Question> {
    if s.result.Some? then s.result.value.questions else []
  }

  /** Whether the control that raises the event is on the page. */
  predicate Offered(s: State, e: Event) {
    match e
    case Interpret => s.step == 1
    case Clarify(_, _) => s.step == 2 && s.result.Some?
    case ResolutionCancelled => s.step == 2 && s.result.Some?
    case ResultEdited(_) => s.step == 2 && s.result.Some?
    case Continue => s.step == 2 && s.result.Some?
    case BackToInput => s.step == 2 && s.result.Some?
    case BackToReview => s.step == 3 && s.result.Some?
    case _ => true
  }

  function AfterReply(s: State, reply: Reply, now: string): State {
    if reply.status == "needs_clarification" then
      s.(result := Some(reply), resolution := None, step := 2)
    else if !Succeeds(reply) then
      s.(result := Some(reply), step := 2)
    else
      var updated := Shortened([EntryFor(s.draft, reply.rule.value, now)] + s.history);
      s.(result := Some(reply), resolution := None, step := 2, history := updated, stored := Some(updated))
  }

  function AfterClarify(s: State, answers: seq<Answer>, now: string): State {
    if Trim(s.draft) == "" then s
    else
      var turns := s.turns + NewTurns(AskedQuestions(s), answers, now);
      s.(turns := turns,
         sent := s.sent + [Request(Trim(s.draft), Some(answers), if turns != [] then Some(turns) else None)])
  }

  function Apply(s: State, e: Event): State {
    if !Offered(s, e) then s
    else
      match e
      case DraftChanged(text) => s.(draft := text)
      case Interpret =>
        if Trim(s.draft) == "" then s
        else s.(turns := [], sent := s.sent + [Request(Trim(s.draft), None, None)])
      case Clarify(answers, now) => AfterClarify(s, answers, now)
      case ReplyArrived(reply, now) => AfterReply(s, reply, now)
      case ReplyFailed => s
      case ResolutionArrived(resolution) => s.(resolution := Some(resolution))
      case ResolutionCancelled => s.(resolution := None)
      case ResultEdited(reply) => s.(result := Some(reply))
      case Continue => s.(step := 3)
      case BackToInput => s.(result := None, resolution := None, turns := [], step := 1)
      case BackToReview => s.(step := 2)
      case Clear => s.(draft := "", result := None, resolution := None, turns := [], step := 1)
  }

  function Run(s: State, events: seq<Event>): State {
    if events == [] then s else Apply(Run(s, events[..|events| - 1]), events[|events| - 1])
  }

  /** The page component: its hooks as fields, its handlers as methods. */
  class Wizard {
    var step: int
    var draft: string
    var result: Option<Reply>
    var resolution: Option<Resolution>
    var history: seq<Entry>
    var stored: Option<seq<Entry>>
    var turns: seq<Turn>
    var sent: seq<Request>

    ghost function Value(): State
      reads this
    {
      State(step, draft, result, resolution, history, stored, turns, sent)
    }

    constructor (stored: Option<seq<Entry>>, draft: string)
      ensures Value() == Initial(stored, draft)
    {
      step, this.draft, result, resolution := 1, draft, None, None;
      history := if stored.Some? then stored.value else [];
      this.stored, turns, sent := stored, [], [];
    }

    /** The parse mutation's `onSuccess`. */
    method OnParsed(data: Reply, now: string)
      modifies this
      ensures Value() == Apply(old(Value()), ReplyArrived(data, now))
    {
      if data.status == "needs_clarification" {
        result := Some(data);
        resolution := None;
        step := 2;
        return;
      }
      if data.status != "parsed" || data.rule.None? {
        result := Some(data);
        step := 2;
        return;
      }
      result := Some(data);
      resolution := None;
      step := 2;
      var entry := Entry(draft, data.rule.value.confidence, data.rule.value.ruleType, now);
      var updated := Shortened([entry] + history);
      history := updated;
      stored := Some(updated);
    }

    /** The resolve mutation's `onSuccess`. */
    method OnResolved(data: Resolution)
      modifies this
      ensures Value() == Apply(old(Value()), ResolutionArrived(data))
    {
      resolution := Some(data);
    }

    method HandleCancelResolution()
      requires Offered(Value(), ResolutionCancelled)
      modifies this
      ensures Value() == Apply(old(Value()), ResolutionCancelled)
    {
      resolution := None;
    }

    method HandleInterpret()
      requires Offered(Value(), Interpret)
      modifies this
      ensures Value() == Apply(old(Value()), Interpret)
    {
      var text := Trim(draft);
      if text == "" {
        return;
      }
      turns := [];
      sent := sent + [Request(text, None, None)];
    }

    method HandleClarify(answers: seq<Answer>, now: string)
      requires Offered(Value(), Clarify(answers, now))
      modifies this
      ensures Value() == Apply(old(Value()), Clarify(answers, now))
    {
      var text := Trim(draft);
      if text == "" {
        return;
      }
      var asked := if result.Some? then result.value.questions else [];
      var nextTurns := turns + NewTurns(asked, answers, now);
      turns := nextTurns;
      sent := sent + [Request(text, Some(answers), if |nextTurns| > 0 then Some(nextTurns) else None)];
    }

    method HandleClear()
      modifies this
      ensures Value() == Apply(old(Value()), Clear)
    {
      draft := "";
      result := None;
      resolution := None;
      turns := [];
      step := 1;
    }

    method HandleGoBackToStep1()
      requires Offered(Value(), BackToInput)
      modifies this
      ensures Value() == Apply(old(Value()), BackToInput)
    {
      result := None;
      resolution := None;
      turns := [];
      step := 1;
    }

    method HandleGoBackToStep2()
      requires Offered(Value(), BackToReview)
      modifies this
      ensures Value() == Apply(old(Value()), BackToReview)
    {
      step := 2;
    }

    method HandleContinue()
      requires Offered(Value(), Continue)
      modifies this
      ensures Value() == Apply(old(Value()), Continue)
    {
      step := 3;
    }
  }

  // ---------------------------------------------------------------------------------------
  // Steps
  // ---------------------------------------------------------------------------------------

  predicate StepsAgree(s: State) {
    && 1 <= s.step <= 3
    && (s.step == 1 <==> s.result.None?)
    && (s.step == 1 ==> s.turns == [])
  }

  /** The step whose page holds the control of an event; none for events that no page raises. */
  function StepOf(e: Event): Option<int> {
    match e
    case Interpret => Some(1)
    case Clarify(_, _) => Some(2)
    case ResolutionCancelled => Some(2)
    case ResultEdited(_) => Some(2)
    case Continue => Some(2)
    case BackToInput => Some(2)
    case BackToReview => Some(3)
    case _ => None
  }

  /** In a state that a run can reach, a control is there on its own step and on no other. */
  lemma ControlsOfSteps(s: State, e: Event)
    requires StepsAgree(s)
    ensures Offered(s, e) <==> StepOf(e) == None || StepOf(e) == Some(s.step)
    ensures StepOf(e) != None && StepOf(e) != Some(s.step) ==> Apply(s, e) == s
    ensures s.step == 2 ==> Apply(s, Continue).step == 3 && Apply(s, BackToInput).step == 1
    ensures s.step == 2 ==> Apply(s, ResolutionCancelled) == s.(resolution := None)
    ensures s.step == 3 ==> Apply(s, BackToReview) == s.(step := 2)
  {
  }

  /** In every run the first step shows exactly while there is no result, with no thread open. */
  lemma {:induction false} StepsAgreeInEveryRun(stored: Option<seq<Entry>>, draft: string, events: seq<Event>)
    ensures StepsAgree(Run(Initial(stored, draft), events))
  {
    if events != [] {
      StepsAgreeInEveryRun(stored, draft, events[..|events| - 1]);
    }
  }

  lemma {:induction false} QuietAfterLeaving(s: State, leave: Event, between: seq<Event>)
    requires Offered(s, leave) && (leave.Clear? || leave.BackToInput?)
    requires forall e :: e in between ==> !e.ReplyArrived?
    ensures var t := Run(s, [leave] + between);
      t.step == 1 && t.result == None && t.turns == []
  {
    if between == [] {
      assert ([leave] + between)[..0] == [];
    } else {
      var init := between[..|between| - 1];
      assert ([leave] + between)[..|between|] == [leave] + init;
      assert between[|between| - 1] in between;
      QuietAfterLeaving(s, leave, init);
    }
  }

  /** A reply that lands after the user cleared or went back reopens the review with no thread. */
  lemma LateReplyOpensFreshReview(s: State, leave: Event, between: seq<Event>, reply: Reply, now: string)
    requires StepsAgree(s) && Offered(s, leave) && (leave.Clear? || leave.BackToInput?)
    requires forall e :: e in between ==> !e.ReplyArrived?
    ensures var t := Run(s, [leave] + between + [ReplyArrived(reply, now)]);
      t.step == 2 && t.result == Some(reply) && t.turns == []
  {
    var all := [leave] + between + [ReplyArrived(reply, now)];
    assert all[..|all| - 1] == [leave] + between;
    QuietAfterLeaving(s, leave, between);
  }

  // ---------------------------------------------------------------------------------------
  // History
  // ---------------------------------------------------------------------------------------

  /** The entries that a run's successful replies produce, newest first. */
  function Earned(s: State, events: seq<Event>): seq<Entry> {
    if events == [] then []
    else
      var init, last := events[..|events| - 1], events[|events| - 1];
      (if last.ReplyArrived? && Succeeds(last.reply)
       then [EntryFor(Run(s, init).draft, last.reply.rule.value, last.now)] else [])
      + Earned(s, init)
  }

  lemma ShortenedTwice(newest: Entry, a: seq<Entry>)
    ensures Shortened([newest] + Shortened(a)) == Shortened([newest] + a)
  {
  }

  function HistoryAfter(earned: seq<Entry>, start: seq<Entry>): seq<Entry> {
    if earned == [] then start else Shortened(earned + start)
  }

  lemma HistoryAfterOneMore(newest: Entry, earned: seq<Entry>, start: seq<Entry>)
    ensures Shortened([newest] + HistoryAfter(earned, start)) == HistoryAfter([newest] + earned, start)
  {
    assert [newest] + earned + start == [newest] + (earned + start);
    if earned == [] {
      assert [newest] + earned == [newest];
    } else {
      ShortenedTwice(newest, earned + start);
    }
  }

  lemma HistoryChangesOnSuccess(s: State, e: Event)
    ensures var t := Apply(s, e);
      if e.ReplyArrived? && Succeeds(e.reply) then
        && t.history == Shortened([EntryFor(s.draft, e.reply.rule.value, e.now)] + s.history)
        && t.stored == Some(t.history)
      else t.history == s.history && t.stored == s.stored
  {
  }

  lemma {:induction false} HistoryOfRun(s: State, events: seq<Event>)
    ensures var t, earned := Run(s, events), Earned(s, events);
      && t.history == HistoryAfter(earned, s.history)
      && t.stored == if earned == [] then s.stored else Some(t.history)
  {
    if events != [] {
      var init, last := events[..|events| - 1], events[|events| - 1];
      HistoryOfRun(s, init);
      HistoryChangesOnSuccess(Run(s, init), last);
      if last.ReplyArrived? && Succeeds(last.reply) {
        var entry := EntryFor(Run(s, init).draft, last.reply.rule.value, last.now);
        HistoryAfterOneMore(entry, Earned(s, init), s.history);
      } else {
        assert Earned(s, events) == [] + Earned(s, init) == Earned(s, init);
      }
    }
  }

  /**
   * After a run with a success the history is the first five of what the run earned, newest
   * first, followed by what it started with, and so is the stored copy. Without one both stay.
   */
  lemma HistoryIsNewestFive(s: State, events: seq<Event>)
    ensures var t, earned := Run(s, events), Earned(s, events);
      var all := earned + s.history;
      if earned == [] then t.history == s.history && t.stored == s.stored
      else
        && |t.history| == (if |all| < 5 then |all| else 5)
        && t.history == all[..|t.history|]
        && t.stored == Some(t.history)
  {
    HistoryOfRun(s, events);
  }

  /** The entry a success earns: the draft as it is then, with the rule's confidence and type. */
  lemma SuccessEarnsEntry(s: State, events: seq<Event>, rule: Rule, questions: seq<Question>, now: string)
    ensures Earned(s, events + [ReplyArrived(Reply("parsed", Some(rule), questions), now)])
         == [Entry(Run(s, events).draft, rule.confidence, rule.ruleType, now)] + Earned(s, events)
  {
    var last := ReplyArrived(Reply("parsed", Some(rule), questions), now);
    assert (events + [last])[..|events|] == events;
  }

  /** The draft that a run of events leaves: the last one typed, or none once cleared. */
  function DraftAfter(draft: string, events: seq<Event>): string {
    if events == [] then draft
    else
      match events[|events| - 1]
      case DraftChanged(text) => text
      case Clear => ""
      case _ => DraftAfter(draft, events[..|events| - 1])
  }

  predicate SendsRequest(e: Event) {
    e.Interpret? || e.Clarify?
  }

  lemma {:induction false} QuietRun(s: State, events: seq<Event>)
    requires forall e :: e in events ==> !SendsRequest(e)
    ensures var t := Run(s, events);
      t.draft == DraftAfter(s.draft, events) && t.sent == s.sent
  {
    if events != [] {
      assert events[|events| - 1] in events;
      QuietRun(s, events[..|events| - 1]);
    }
  }

  /**
   * A history entry has the text that was sent exactly when the draft, as it stands when the
   * reply lands, is the sent draft without its surrounding blanks. That fails after an edit, and
   * with no edit at all if the draft had such blanks.
   */
  lemma HistoryTextIsSentText(s: State, request: Event, between: seq<Event>, reply: Reply, now: string)
    requires SendsRequest(request) && Offered(s, request) && Trim(s.draft) != ""
    requires forall e :: e in between ==> !SendsRequest(e)
    requires Succeeds(reply)
    ensures var t := Apply(Run(Apply(s, request), between), ReplyArrived(reply, now));
      && |t.sent| == |s.sent| + 1 && t.sent[|s.sent|].text == Trim(s.draft)
      && t.history != []
      && (t.history[0].text == t.sent[|s.sent|].text <==> DraftAfter(s.draft, between) == Trim(s.draft))
  {
    QuietRun(Apply(s, request), between);
    HistoryChangesOnSuccess(Run(Apply(s, request), between), ReplyArrived(reply, now));
  }

  /** An edit under way: "a" is sent, and the entry says "b". */
  lemma HistoryFollowsTheDraft(stored: Option<seq<Entry>>, reply: Reply, now: string)
    requires Succeeds(reply)
    ensures var s := Run(Apply(Initial(stored, "a"), Interpret), [DraftChanged("b")]);
      var t := Apply(s, ReplyArrived(reply, now));
      |t.sent| == 1 && t.history != [] && t.sent[0].text == "a" && t.history[0].text == "b"
  {
    var s0 := Initial(stored, "a");
    assert Trim("a") == "a";
    assert [DraftChanged("b")][..0] == [];
    HistoryTextIsSentText(s0, Interpret, [DraftChanged("b")], reply, now);
  }

  /** No edit at all: "a" is sent, and the entry says " a". */
  lemma HistoryKeepsBlanks(stored: Option<seq<Entry>>, reply: Reply, now: string)
    requires Succeeds(reply)
    ensures var t := Apply(Apply(Initial(stored, " a"), Interpret), ReplyArrived(reply, now));
      |t.sent| == 1 && t.history != [] && t.sent[0].text == "a" && t.history[0].text == " a"
  {
    assert " a"[1..] == "a" && DropLeading("a", IsBlank) == "a";
    assert Trim(" a") == "a";
    HistoryTextIsSentText(Initial(stored, " a"), Interpret, [], reply, now);
  }

  // ---------------------------------------------------------------------------------------
  // The clarification thread
  // ---------------------------------------------------------------------------------------

  predicate EndsThread(e: Event) {
    e.Interpret? || e.BackToInput? || e.Clear?
  }

  /** The turns a request carries. */
  function Carried(r: Request): seq<Turn> {
    if r.history.Some? then r.history.value else []
  }

  /**
   * While a thread lasts its turns only grow, and every request sent carries an extension of
   * what the requests before it carried.
   */
  lemma {:induction false} ThreadOnlyGrows(s: State, events: seq<Event>)
    requires forall e :: e in events ==> !EndsThread(e)
    ensures var t := Run(s, events);
      && s.turns <= t.turns && s.sent <= t.sent
      && (forall i :: |s.sent| <= i < |t.sent| ==> s.turns <= Carried(t.sent[i]) <= t.turns)
      && (forall i, j :: |s.sent| <= i < j < |t.sent| ==> Carried(t.sent[i]) <= Carried(t.sent[j]))
  {
    if events != [] {
      assert events[|events| - 1] in events;
      ThreadOnlyGrows(s, events[..|events| - 1]);
    }
  }

  ghost predicate IsFirstQuestion(questions: seq<Question>, field: string, i: int) {
    && 0 <= i < |questions| && questions[i].field == field
    && forall k :: 0 <= k < i ==> questions[k].field != field
  }

  /** A turn records the first question asked about its field, or a stand-in if none was. */
  lemma {:induction false} TurnRecordsQuestion(questions: seq<Question>, field: string, i: int)
    ensures (forall q :: q in questions ==> q.field != field) ==> QuestionFor(questions, field) == "Answer for " + field
    ensures IsFirstQuestion(questions, field, i) ==> QuestionFor(questions, field) == questions[i].text
  {
    if questions != [] {
      var rest := questions[1..];
      assert questions == [questions[0]] + rest;
      TurnRecordsQuestion(rest, field, i - 1);
      if IsFirstQuestion(questions, field, i) && i > 0 {
        assert IsFirstQuestion(rest, field, i - 1);
      }
    }
  }

  predicate IsAnswered(a: Answer) {
    Trim(a.text) != ""
  }

  function Answered(answers: seq<Answer>): seq<Answer> {
    if answers == [] then []
    else (if IsAnswered(answers[0]) then [answers[0]] else []) + Answered(answers[1..])
  }

  /** The turns a thread's clarifications add: one for each answer that is not blank, in order. */
  function ThreadAnswers(s: State, events: seq<Event>): seq<Answer> {
    if events == [] then []
    else
      var init, last := events[..|events| - 1], events[|events| - 1];
      var before := Run(s, init);
      ThreadAnswers(s, init)
      + if last.Clarify? && Offered(before, last) && Trim(before.draft) != "" then Answered(last.answers) else []
  }

  ghost predicate TurnsTell(turns: seq<Turn>, answers: seq<Answer>) {
    |turns| == |answers| && forall i :: 0 <= i < |turns| ==>
      turns[i].field == answers[i].field && turns[i].answer == answers[i].text
  }

  lemma {:induction false} NewTurnsTellAnswers(questions: seq<Question>, answers: seq<Answer>, now: string)
    ensures TurnsTell(NewTurns(questions, answers, now), Answered(answers))
  {
    if answers != [] {
      NewTurnsTellAnswers(questions, answers[1..], now);
    }
  }

  lemma {:induction false} ThreadHoldsItsAnswers(s: State, events: seq<Event>)
    requires s.turns == [] && forall e :: e in events ==> !EndsThread(e)
    ensures TurnsTell(Run(s, events).turns, ThreadAnswers(s, events))
  {
    if events != [] {
      var init, last := events[..|events| - 1], events[|events| - 1];
      assert last in events;
      ThreadHoldsItsAnswers(s, init);
      if last.Clarify? {
        NewTurnsTellAnswers(AskedQuestions(Run(s, init)), last.answers, last.now);
      }
    }
  }

  // ---------------------------------------------------------------------------------------
  // Replies and requests
  // ---------------------------------------------------------------------------------------

  /** A reply always shows; one that asks or that parsed leaves no resolution, any other leaves it alone. */
  lemma ReplySettlesResolution(s: State, reply: Reply, now: string)
    ensures var t := Apply(s, ReplyArrived(reply, now));
      && t.result == Some(reply) && t.step == 2 && t.draft == s.draft && t.turns == s.turns && t.sent == s.sent
      && (reply.status == "needs_clarification" || (reply.status == "parsed" && reply.rule.Some?) ==>
            t.resolution == None)
      && (reply.status != "needs_clarification" && !(reply.status == "parsed" && reply.rule.Some?) ==>
            t.resolution == s.resolution)
  {
  }

  /** A clarification sends exactly its answers, with the whole thread if there is one. */
  lemma ClarifySendsAnswers(s: State, answers: seq<Answer>, now: string)
    requires s.step == 2 && s.result.Some?
    ensures var t := Apply(s, Clarify(answers, now));
      if Trim(s.draft) == "" then t == s
      else
        && |t.sent| == |s.sent| + 1 && t.sent[..|s.sent|] == s.sent
        && t.sent[|s.sent|].text == Trim(s.draft) && t.sent[|s.sent|].answers == Some(answers)
        && t.sent[|s.sent|].history == if t.turns == [] then None else Some(t.turns)
  {
  }
}
