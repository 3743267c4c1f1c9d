/** What every run of the workflow keeps, for any number of interleaved requests. */
module WorkflowRuns {
  import opened Common
  import opened Workflow

  // ---------------------------------------------------------------- reading the log

  ghost predicate Adjacent(log: seq<Event>) {
    (|log| > 0 ==> log[0].from == Draft) && forall i | 0 < i < |log| :: log[i].from == log[i - 1].to
  }

  /** The log is a path from DRAFT to `end`. */
  ghost predicate Contiguous(log: seq<Event>, end: Status) {
    Adjacent(log) && end == if log == [] then Draft else log[|log| - 1].to
  }

  /** The lifecycle: the status changes that may ever be logged. */
  predicate Edge(a: Status, b: Status) {
    match a
    case Draft => b == Submitted
    case Submitted => b in {FormallyVerified, NeedsInfo, Rejected}
    case FormallyVerified => b in {Evaluating, NeedsInfo, Approved, Rejected}
    case Evaluating => b in {NeedsInfo, Approved, Rejected}
    case NeedsInfo => b in {Evaluating, Rejected}
    case Approved => b == Onboarding
    case Onboarding => b == ActiveProject
    case ActiveProject => b in {Paused, Completed}
    case Paused => b == ActiveProject
    case Completed => b == Archived
    case Rejected => false
    case Archived => false
  }

  /** How many events of each kind a log holds; `decisions` counts the entries into APPROVED or REJECTED. */
  datatype Tally = Tally(submitted: nat, verified: nat, started: nat, resubmitted: nat, decisions: nat)

  function Counted(t: Tally, e: Event): Tally {
    Tally(t.submitted + (if e.to == Submitted then 1 else 0),
          t.verified + (if e.to == FormallyVerified then 1 else 0),
          t.started + (if e.from == FormallyVerified && e.to == Evaluating then 1 else 0),
          t.resubmitted + (if e.from == NeedsInfo && e.to == Evaluating then 1 else 0),
          t.decisions + (if e.to in {Approved, Rejected} then 1 else 0))
  }

  function TallyOf(log: seq<Event>): Tally {
    if log == [] then Tally(0, 0, 0, 0, 0)
    else Counted(TallyOf(log[..|log| - 1]), log[|log| - 1])
  }

  /** The items named by the events that enter NEEDS_INFO, oldest first. */
  function AskedItems(log: seq<Event>): seq<Option<nat>> {
    if log == [] then []
    else AskedItems(log[..|log| - 1]) + if log[|log| - 1].to == NeedsInfo then [log[|log| - 1].item] else []
  }

  function CountItems(items: seq<ItemStatus>, st: ItemStatus): nat {
    if items == [] then 0
    else CountItems(items[..|items| - 1], st) + if items[|items| - 1] == st then 1 else 0
  }

  function Unresolved(items: seq<ItemStatus>): nat {
    CountItems(items, Open) + CountItems(items, Answered)
  }

  predicate IsDecided(st: Status) {
    st in {Approved, Rejected, Onboarding, ActiveProject, Paused, Completed, Archived}
  }

  // ---------------------------------------------------------------- the invariant

  ghost predicate LogOk(app: Application) {
    && Contiguous(app.events, app.status)
    && forall i | 0 <= i < |app.events| :: Edge(app.events[i].from, app.events[i].to)
  }

  ghost predicate StampsOk(app: Application) {
    && (app.submittedAt.Some? <==> app.status != Draft)
    && (app.decidedAt.Some? <==> IsDecided(app.status))
    && TallyOf(app.events).decisions == (if app.decidedAt.Some? then 1 else 0)
  }

  ghost predicate ItemsOk(app: Application) {
    && AskedItems(app.events) == seq(|app.items|, i => Some(i))
    && TallyOf(app.events).resubmitted == CountItems(app.items, Resolved)
    && Unresolved(app.items) + CountItems(app.items, Resolved) == |app.items|
    && (app.status == NeedsInfo ==> Unresolved(app.items) == 1)
    && (app.status == Rejected ==> Unresolved(app.items) <= 1)
    && (app.status !in {NeedsInfo, Rejected} ==> Unresolved(app.items) == 0)
  }

  ghost predicate LengthOk(app: Application) {
    var t := TallyOf(app.events);
    && t.submitted == (if app.status == Draft then 0 else 1)
    && t.verified <= (if app.status in {Draft, Submitted} then 0 else 1)
    && t.started <= t.verified
    && (app.status == FormallyVerified ==> t.verified == 1 && t.started == 0)
    && (!IsDecided(app.status) ==>
          |app.events| == t.submitted + t.verified + t.started + |app.items| + t.resubmitted)
  }

  /** The decision comes early: before it, each needs-info item accounts for at most two events. */
  ghost predicate DecidedEarly(app: Application) {
    forall k | 0 <= k < |app.events| && app.events[k].to in {Approved, Rejected} :: k + 1 <= 2 * |app.items| + 4
  }

  ghost predicate EvaluationsOk(app: Application) {
    && (forall u | u in app.evaluations :: ValidateScores(app.evaluations[u]) == Done)
    && (app.decisionBy.Some? ==> CheckCompleteness(app.evaluations) == Done)
  }

  /** What an admitted transaction carries, whatever has happened to the row since. */
  ghost predicate TxnShape(txn: Txn) {
    match txn
    case SubmitWrite => true
    case Move(k, from) => from in Froms(k)
    case Decision(from, to, user) => CanBeEvaluated(from) && to in {Approved, Rejected}
    case Ask(from) => CanAskInfo(from)
    case SaveEvaluation(user, scores) => ValidateScores(scores) == Done
  }

  ghost predicate Shaped(s: System) {
    forall id | id in s.inflight :: TxnShape(s.inflight[id])
  }

  ghost predicate TxnOk(app: Application, txn: Txn) {
    TxnShape(txn) && (txn.Decision? ==> CheckCompleteness(app.evaluations) == Done)
  }

  ghost predicate AppInv(app: Application) {
    LogOk(app) && StampsOk(app) && ItemsOk(app) && LengthOk(app) && DecidedEarly(app) && EvaluationsOk(app)
  }

  ghost predicate Inv(s: System) {
    AppInv(s.app) && forall id | id in s.inflight :: TxnOk(s.app, s.inflight[id])
  }

  // ---------------------------------------------------------------- one step keeps it

  lemma AppendToLog(log: seq<Event>, e: Event)
    ensures TallyOf(log + [e]) == Counted(TallyOf(log), e)
    ensures AskedItems(log + [e]) == AskedItems(log) + if e.to == NeedsInfo then [e.item] else []
  {
    assert (log + [e])[..|log|] == log;
  }

  lemma AppendItem(items: seq<ItemStatus>)
    ensures forall st :: CountItems(items + [Open], st) == CountItems(items, st) + if st == Open then 1 else 0
  {
    assert (items + [Open])[..|items|] == items;
  }

  lemma {:induction false} AnswerItem(items: seq<ItemStatus>, k: nat)
    requires k < |items| && items[k] == Open
    ensures var after := items[k := Answered];
            && Unresolved(after) == Unresolved(items)
            && CountItems(after, Resolved) == CountItems(items, Resolved)
  {
    var n := |items| - 1;
    if k < n {
      assert items[k := Answered][..n] == items[..n][k := Answered];
      AnswerItem(items[..n], k);
    } else {
      assert items[k := Answered][..n] == items[..n];
    }
  }

  lemma {:induction false} ResolveItems(items: seq<ItemStatus>)
    requires Open !in items
    ensures CountItems(items, Open) == 0
    ensures Unresolved(ResolveAnswered(items)) == 0
    ensures CountItems(ResolveAnswered(items), Resolved) == CountItems(items, Answered) + CountItems(items, Resolved)
  {
    if items != [] {
      var n := |items| - 1;
      assert ResolveAnswered(items)[..n] == ResolveAnswered(items[..n]);
      ResolveItems(items[..n]);
    }
  }

  lemma MovesAreEdges(k: Kind, from: Status)
    requires from in Froms(k)
    ensures Edge(from, Target(k))
  {}

  lemma AdmittedShape(s: System, actor: Actor, req: Request)
    requires Admit(s, actor, req).Ok?
    ensures TxnShape(Admit(s, actor, req).value)
  {}

  lemma StepKeepsShape(s: System, step: Step)
    requires Shaped(s)
    ensures Shaped(Next(s, step))
  {
    match step
    case Begin(id, actor, req) => if Admit(s, actor, req).Ok? { AdmittedShape(s, actor, req); }
    case _ => assert forall id | id in Next(s, step).inflight :: id in s.inflight;
  }

  lemma {:induction false} RunKeepsShape(s: System, steps: seq<Step>)
    requires Shaped(s)
    ensures Shaped(Run(s, steps))
    decreases |steps|
  {
    if steps != [] {
      StepKeepsShape(s, steps[0]);
      RunKeepsShape(Next(s, steps[0]), steps[1..]);
    }
  }

  /** The step logs a change from a to b. */
  ghost predicate Logs(s: System, step: Step, a: Status, b: Status) {
    Shaped(s) &&
    var log := Next(s, step).app.events;
    |log| == |s.app.events| + 1 && log[|log| - 1].from == a && log[|log| - 1].to == b
  }

  lemma LoggedIsEdge(s: System, step: Step, a: Status, b: Status)
    requires Logs(s, step, a, b)
    ensures Edge(a, b)
  {
    if step.Commit? && step.tid in s.inflight {
      assert TxnShape(s.inflight[step.tid]);
      var txn := s.inflight[step.tid];
      if txn.Move? { MovesAreEdges(txn.kind, txn.from); }
    }
  }

  /** A transaction or, for resubmit, none that logs the edge. */
  function WriterOf(a: Status, b: Status): Option<Txn> {
    match b
    case Draft => None
    case Submitted => Some(SubmitWrite)
    case FormallyVerified => Some(Move(FormalVerify, a))
    case Evaluating => if a == NeedsInfo then None else Some(Move(StartEvaluation, a))
    case NeedsInfo => Some(Ask(a))
    case Approved => if a == FormallyVerified then Some(Decision(a, b, "")) else Some(Move(Approve, a))
    case Rejected => Some(Move(Reject, a))
    case Onboarding => Some(Move(StartOnboarding, a))
    case ActiveProject => Some(Move(Activate, a))
    case Paused => Some(Move(Pause, a))
    case Completed => Some(Move(Complete, a))
    case Archived => Some(Move(Archive, a))
  }

  lemma EdgeHasWriter(a: Status, b: Status)
    requires Edge(a, b)
    ensures WriterOf(a, b) == None ==> a == NeedsInfo && b == Evaluating
    ensures WriterOf(a, b).Some? ==>
              TxnShape(WriterOf(a, b).value)
              && var w := Write(NEW_DRAFT.(status := a), WriterOf(a, b).value, 0);
                 w.Some? && |w.value.events| == 1 && w.value.events[0].from == a && w.value.events[0].to == b
  {}

  lemma EdgeIsLogged(a: Status, b: Status)
    requires Edge(a, b)
    ensures exists s, step :: Logs(s, step, a, b)
  {
    EdgeHasWriter(a, b);
    var app := NEW_DRAFT.(status := a);
    if WriterOf(a, b).Some? {
      var s := System(app, ProgramA, "", map[0 := WriterOf(a, b).value]);
      assert Logs(s, Commit(0, 0), a, b);
    } else {
      var s := System(app.(items := [Answered]), ProgramA, "", map[]);
      assert ResubmitCheck(s, Actor("", Student)) == Done;
      assert Logs(s, Resubmit(Actor("", Student)), a, b);
    }
  }

  /** What any operation can ever log is the lifecycle, and nothing less. */
  lemma EdgesAreWhatIsWritten(a: Status, b: Status)
    ensures Edge(a, b) <==> exists s, step :: Logs(s, step, a, b)
  {
    if exists s, step :: Logs(s, step, a, b) {
      var s, step :| Logs(s, step, a, b);
      LoggedIsEdge(s, step, a, b);
    }
    if Edge(a, b) { EdgeIsLogged(a, b); }
  }

  lemma LogGrows(app: Application, from: Status, to: Status, item: Option<nat>)
    requires LogOk(app) && app.status == from && Edge(from, to)
    ensures LogOk(Logged(app, from, to, item))
  {}

  /** A transition leaves items and evaluations alone. */
  lemma MoveKeeps(app: Application, k: Kind, now: Time)
    requires AppInv(app) && app.status in Froms(k)
    ensures AppInv(Write(app, Move(k, app.status), now).value)
  {
    MovesAreEdges(k, app.status);
    LogGrows(app, app.status, Target(k), None);
    MoveKeepsStamps(app, k, now);
    MoveKeepsItems(app, k, now);
    MoveKeepsLength(app, k, now);
    MoveKeepsDecidedEarly(app, Target(k));
  }

  lemma WhichMovesDecide(k: Kind, from: Status)
    requires from in Froms(k)
    ensures SetsDecidedAt(k) <==> Target(k) in {Approved, Rejected}
    ensures IsDecided(Target(k)) <==> SetsDecidedAt(k) || IsDecided(from)
    ensures !(SetsDecidedAt(k) && IsDecided(from)) && from != Draft && Target(k) != Draft
  {}

  lemma MoveWrites(app: Application, k: Kind, now: Time)
    ensures var decided := if SetsDecidedAt(k) then Some(now) else app.decidedAt;
            Write(app, Move(k, app.status), now)
            == Some(Logged(app.(decidedAt := decided), app.status, Target(k), None))
  {}

  lemma MoveKeepsStamps(app: Application, k: Kind, now: Time)
    requires StampsOk(app) && app.status in Froms(k)
    ensures StampsOk(Write(app, Move(k, app.status), now).value)
  {
    var from, to, decided := app.status, Target(k), if SetsDecidedAt(k) then Some(now) else app.decidedAt;
    assert SetsDecidedAt(k) <==> to in {Approved, Rejected} by { WhichMovesDecide(k, from); }
    assert IsDecided(to) <==> to in {Approved, Rejected} || IsDecided(from) by { WhichMovesDecide(k, from); }
    assert !(to in {Approved, Rejected} && IsDecided(from)) && from != Draft && to != Draft by {
      WhichMovesDecide(k, from);
    }
    MoveWrites(app, k, now);
    StampsOnEvent(app, Event(from, to, None), decided);
  }

  lemma StampsOnEvent(app: Application, e: Event, decided: Option<Time>)
    requires StampsOk(app) && app.status == e.from != Draft && e.to != Draft
    requires IsDecided(e.to) <==> e.to in {Approved, Rejected} || IsDecided(e.from)
    requires !(e.to in {Approved, Rejected} && IsDecided(e.from))
    requires if e.to in {Approved, Rejected} then decided.Some? else decided == app.decidedAt
    ensures StampsOk(Logged(app.(decidedAt := decided), e.from, e.to, e.item))
  {
    AppendToLog(app.events, e);
  }

  /** An event that neither asks nor resubmits leaves the items' account balanced. */
  lemma ItemsOnEvent(app: Application, e: Event)
    requires ItemsOk(app) && app.status == e.from != Rejected
    requires e.to != NeedsInfo && (e.from == NeedsInfo ==> e.to == Rejected)
    ensures ItemsOk(Logged(app, e.from, e.to, e.item))
  {
    AppendToLog(app.events, e);
  }

  lemma WhichMovesAnswer(k: Kind, from: Status)
    requires from in Froms(k)
    ensures from != Rejected && Target(k) != NeedsInfo && (from == NeedsInfo ==> Target(k) == Rejected)
  {}

  lemma MoveKeepsItems(app: Application, k: Kind, now: Time)
    requires ItemsOk(app) && app.status in Froms(k)
    ensures ItemsOk(Write(app, Move(k, app.status), now).value)
  {
    WhichMovesAnswer(k, app.status);
    MoveWrites(app, k, now);
    ItemsOnEvent(app, Event(app.status, Target(k), None));
  }

  lemma MoveKeepsLength(app: Application, k: Kind, now: Time)
    requires LengthOk(app) && app.status in Froms(k)
    ensures LengthOk(Write(app, Move(k, app.status), now).value)
  {
    if k == FormalVerify {
      VerifyKeepsLength(app, now);
    } else if k == StartEvaluation {
      StartKeepsLength(app, now);
    } else {
      DecidedKeepsLength(app, Target(k));
    }
  }

  lemma VerifyKeepsLength(app: Application, now: Time)
    requires LengthOk(app) && app.status == Submitted
    ensures LengthOk(Write(app, Move(FormalVerify, Submitted), now).value)
  {
    AppendToLog(app.events, Event(Submitted, FormallyVerified, None));
  }

  lemma StartKeepsLength(app: Application, now: Time)
    requires LengthOk(app) && app.status == FormallyVerified
    ensures LengthOk(Write(app, Move(StartEvaluation, FormallyVerified), now).value)
  {
    AppendToLog(app.events, Event(FormallyVerified, Evaluating, None));
  }

  /** Once decided, the law only counts what happened before. */
  lemma DecidedKeepsLength(app: Application, to: Status)
    requires LengthOk(app) && app.status != Draft && IsDecided(to)
    ensures LengthOk(Logged(app, app.status, to, None))
  {
    AppendToLog(app.events, Event(app.status, to, None));
  }

  /** A move keeps the decision early: an undecided log holds at most 2 * items + 3 events. */
  lemma MoveKeepsDecidedEarly(app: Application, to: Status)
    requires LengthOk(app) && ItemsOk(app) && DecidedEarly(app)
    requires !IsDecided(app.status) || to !in {Approved, Rejected}
    ensures DecidedEarly(Logged(app, app.status, to, None))
  {}

  function Decided(app: Application, to: Status, user: UserId, now: Time): Application {
    Logged(app.(decidedAt := Some(now), decisionBy := Some(user)), app.status, to, None)
  }

  lemma DecisionKeeps(app: Application, to: Status, user: UserId, now: Time)
    requires AppInv(app) && CanBeEvaluated(app.status) && to in {Approved, Rejected}
    requires CheckCompleteness(app.evaluations) == Done
    ensures AppInv(Write(app, Decision(app.status, to, user), now).value)
  {
    DecisionKeepsStamps(app, to, user, now);
    DecisionKeepsRows(app, to, user, now);
    DecisionKeepsEvaluations(app, to, user, now);
  }

  lemma DecisionKeepsRows(app: Application, to: Status, user: UserId, now: Time)
    requires LogOk(app) && ItemsOk(app) && LengthOk(app) && DecidedEarly(app)
    requires CanBeEvaluated(app.status) && to in {Approved, Rejected}
    ensures var app' := Decided(app, to, user, now);
            LogOk(app') && ItemsOk(app') && LengthOk(app') && DecidedEarly(app')
  {
    LogGrows(app, app.status, to, None);
    ItemsOnEvent(app, Event(app.status, to, None));
    DecidedKeepsLength(app, to);
    MoveKeepsDecidedEarly(app, to);
    SameRows(Logged(app, app.status, to, None), Decided(app, to, user, now));
  }

  lemma DecisionKeepsEvaluations(app: Application, to: Status, user: UserId, now: Time)
    requires EvaluationsOk(app) && CheckCompleteness(app.evaluations) == Done
    ensures EvaluationsOk(Decided(app, to, user, now))
  {}

  lemma DecisionKeepsStamps(app: Application, to: Status, user: UserId, now: Time)
    requires StampsOk(app) && CanBeEvaluated(app.status) && to in {Approved, Rejected}
    ensures Write(app, Decision(app.status, to, user), now) == Some(Decided(app, to, user, now))
    ensures StampsOk(Decided(app, to, user, now))
  {
    AppendToLog(app.events, Event(app.status, to, None));
  }

  /** Log, items and length are not about the decision's own columns. */
  lemma SameRows(a: Application, b: Application)
    requires a.status == b.status && a.items == b.items && a.events == b.events
    requires LogOk(a) && ItemsOk(a) && LengthOk(a) && DecidedEarly(a)
    ensures LogOk(b) && ItemsOk(b) && LengthOk(b) && DecidedEarly(b)
  {}

  lemma AskKeeps(app: Application, now: Time)
    requires AppInv(app) && CanAskInfo(app.status)
    ensures AppInv(Write(app, Ask(app.status), now).value)
  {
    LogGrows(app, app.status, NeedsInfo, Some(|app.items|));
    AskKeepsStamps(app, now);
    AskKeepsItems(app, now);
    AskKeepsLength(app, now);
  }

  lemma AskKeepsStamps(app: Application, now: Time)
    requires StampsOk(app) && CanAskInfo(app.status)
    ensures StampsOk(Write(app, Ask(app.status), now).value)
  {
    AppendToLog(app.events, Event(app.status, NeedsInfo, Some(|app.items|)));
  }

  lemma AskNamesItem(app: Application)
    requires AskedItems(app.events) == seq(|app.items|, i => Some(i))
    ensures var e := Event(app.status, NeedsInfo, Some(|app.items|));
            AskedItems(app.events + [e]) == seq(|app.items| + 1, i => Some(i))
  {
    AppendToLog(app.events, Event(app.status, NeedsInfo, Some(|app.items|)));
  }

  lemma AskKeepsItems(app: Application, now: Time)
    requires ItemsOk(app) && CanAskInfo(app.status)
    ensures ItemsOk(Write(app, Ask(app.status), now).value)
  {
    AskNamesItem(app);
    AppendToLog(app.events, Event(app.status, NeedsInfo, Some(|app.items|)));
    AppendItem(app.items);
    assert |app.items + [Open]| == |app.items| + 1;
  }

  lemma AskKeepsLength(app: Application, now: Time)
    requires LengthOk(app) && CanAskInfo(app.status)
    ensures LengthOk(Write(app, Ask(app.status), now).value)
  {
    AppendToLog(app.events, Event(app.status, NeedsInfo, Some(|app.items|)));
    AppendItem(app.items);
  }

  lemma SubmitKeeps(app: Application, now: Time)
    requires AppInv(app) && app.status == Draft
    ensures AppInv(Write(app, SubmitWrite, now).value)
  {
    LogGrows(app, Draft, Submitted, None);
    SubmitKeepsStamps(app, now);
    ItemsOnEvent(app, Event(Draft, Submitted, None));
    SubmitKeepsLength(app);
    SameRows(Logged(app, Draft, Submitted, None), Logged(app.(submittedAt := Some(now)), Draft, Submitted, None));
  }

  lemma SubmitKeepsStamps(app: Application, now: Time)
    requires StampsOk(app) && EvaluationsOk(app) && app.status == Draft
    ensures var app' := Logged(app.(submittedAt := Some(now)), Draft, Submitted, None);
            Write(app, SubmitWrite, now) == Some(app') && StampsOk(app') && EvaluationsOk(app')
  {
    AppendToLog(app.events, Event(Draft, Submitted, None));
  }

  lemma SubmitKeepsLength(app: Application)
    requires LengthOk(app) && DecidedEarly(app) && app.status == Draft
    ensures LengthOk(Logged(app, Draft, Submitted, None)) && DecidedEarly(Logged(app, Draft, Submitted, None))
  {
    AppendToLog(app.events, Event(Draft, Submitted, None));
  }

  lemma CompletenessIsNonEmptiness(evaluations: map<UserId, seq<Score>>)
    requires forall u | u in evaluations :: ValidateScores(evaluations[u]) == Done
    ensures CheckCompleteness(evaluations) == Done <==> evaluations != map[]
  {
    if evaluations != map[] {
      var u :| u in evaluations;
      assert IsComplete(evaluations[u]);
      assert evaluations.Keys != {};
    }
  }

  lemma SaveKeeps(app: Application, user: UserId, scores: seq<Score>, now: Time)
    requires AppInv(app) && ValidateScores(scores) == Done
    ensures var app' := Write(app, SaveEvaluation(user, scores), now).value;
            AppInv(app') && CheckCompleteness(app'.evaluations) == Done
  {
    var app' := Write(app, SaveEvaluation(user, scores), now).value;
    assert user in app'.evaluations;
    CompletenessIsNonEmptiness(app'.evaluations);
  }

  function Resubmitted(app: Application): Application {
    Logged(app.(items := ResolveAnswered(app.items)), NeedsInfo, Evaluating, None)
  }

  lemma ResubmitKeeps(app: Application)
    requires AppInv(app) && app.status == NeedsInfo && Open !in app.items
    ensures AppInv(Resubmitted(app))
  {
    ResubmitKeepsLog(app);
    ResubmitKeepsStamps(app);
    ResubmitKeepsItems(app);
    ResubmitKeepsLength(app);
    ResubmitKeepsTheRest(app);
  }

  lemma ResubmitKeepsLog(app: Application)
    requires LogOk(app) && app.status == NeedsInfo
    ensures LogOk(Resubmitted(app))
  {
    LogGrows(app, NeedsInfo, Evaluating, None);
  }

  lemma ResubmitKeepsTheRest(app: Application)
    requires DecidedEarly(app) && EvaluationsOk(app)
    ensures DecidedEarly(Resubmitted(app)) && EvaluationsOk(Resubmitted(app))
  {
    assert forall k | 0 <= k < |app.events| :: Resubmitted(app).events[k] == app.events[k];
  }

  lemma ResubmitKeepsStamps(app: Application)
    requires StampsOk(app) && app.status == NeedsInfo
    ensures StampsOk(Resubmitted(app))
  {
    AppendToLog(app.events, Event(NeedsInfo, Evaluating, None));
  }

  lemma ResubmitKeepsItems(app: Application)
    requires ItemsOk(app) && app.status == NeedsInfo && Open !in app.items
    ensures ItemsOk(Resubmitted(app))
  {
    AppendToLog(app.events, Event(NeedsInfo, Evaluating, None));
    ResolveItems(app.items);
  }

  lemma ResubmitKeepsLength(app: Application)
    requires LengthOk(app) && app.status == NeedsInfo
    ensures LengthOk(Resubmitted(app))
  {
    AppendToLog(app.events, Event(NeedsInfo, Evaluating, None));
  }

  lemma WriteKeeps(app: Application, txn: Txn, now: Time)
    requires AppInv(app) && TxnOk(app, txn) && Write(app, txn, now).Some?
    requires txn == SubmitWrite ==> app.status == Draft
    ensures AppInv(Write(app, txn, now).value)
    ensures CheckCompleteness(app.evaluations) == Done
        ==> CheckCompleteness(Write(app, txn, now).value.evaluations) == Done
  {
    match txn
    case SubmitWrite => SubmitKeeps(app, now);
    case Move(k, from) => MoveKeeps(app, k, now);
    case Decision(from, to, user) => DecisionKeeps(app, to, user, now);
    case Ask(from) => AskKeeps(app, now);
    case SaveEvaluation(user, scores) => SaveKeeps(app, user, scores, now);
  }

  lemma CommitKeeps(s: System, id: TxnId, now: Time)
    requires Inv(s) && !StaleSubmit(s, Commit(id, now))
    ensures Inv(Next(s, Commit(id, now)))
  {
    if id in s.inflight && Write(s.app, s.inflight[id], now).Some? {
      WriteKeeps(s.app, s.inflight[id], now);
      var s' := Next(s, Commit(id, now));
      assert s'.app == Write(s.app, s.inflight[id], now).value;
      forall t | t in s'.inflight ensures TxnOk(s'.app, s'.inflight[t]) {
        assert t in s.inflight;
      }
    }
  }

  lemma BeginKeeps(s: System, id: TxnId, actor: Actor, req: Request)
    requires Inv(s)
    ensures Inv(Next(s, Begin(id, actor, req)))
  {
    var s' := Next(s, Begin(id, actor, req));
    forall t | t in s'.inflight ensures TxnOk(s'.app, s'.inflight[t]) {
      if t !in s.inflight { assert t == id; }
    }
  }

  /** A step that leaves transactions and evaluations alone keeps the transactions in order. */
  lemma NewRowKeeps(s: System, app: Application)
    requires Inv(s) && AppInv(app) && app.evaluations == s.app.evaluations
    ensures Inv(s.(app := app))
  {}

  lemma ReplyKeeps(s: System, actor: Actor, item: nat)
    requires Inv(s)
    ensures Inv(Next(s, Reply(actor, item)))
  {
    if ReplyCheck(s, actor, item) == Done && s.app.items[item] == Open {
      AnswerKeeps(s.app, item);
      NewRowKeeps(s, s.app.(items := s.app.items[item := Answered]));
    }
  }

  lemma AnswerKeeps(app: Application, item: nat)
    requires AppInv(app) && item < |app.items| && app.items[item] == Open
    ensures AppInv(app.(items := app.items[item := Answered]))
  {
    AnswerItem(app.items, item);
  }

  lemma ResubmitStepKeeps(s: System, actor: Actor)
    requires Inv(s)
    ensures Inv(Next(s, Resubmit(actor)))
  {
    if ResubmitCheck(s, actor) == Done {
      ResubmitKeeps(s.app);
      NewRowKeeps(s, Resubmitted(s.app));
    }
  }

  lemma StepKeeps(s: System, step: Step)
    requires Inv(s) && !StaleSubmit(s, step)
    ensures Inv(Next(s, step))
  {
    match step
    case Begin(id, actor, req) => BeginKeeps(s, id, actor, req);
    case Commit(id, now) => CommitKeeps(s, id, now);
    case Reply(actor, item) => ReplyKeeps(s, actor, item);
    case Resubmit(actor) => ResubmitStepKeeps(s, actor);
    case SetContext(_, _) =>
  }

  lemma {:induction false} RunKeeps(s: System, steps: seq<Step>)
    requires Inv(s) && NoStaleSubmit(s, steps)
    ensures Inv(Run(s, steps))
    decreases |steps|
  {
    if steps != [] {
      StepKeeps(s, steps[0]);
      RunKeeps(Next(s, steps[0]), steps[1..]);
    }
  }

  lemma InitialInv(call: ProgramType, leader: UserId)
    ensures Inv(Initial(call, leader))
  {}
}
