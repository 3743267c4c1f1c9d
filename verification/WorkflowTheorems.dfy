/** The workflow's promises, for every run from a new draft. */
module WorkflowTheorems {
  import opened Common
  import opened Workflow
  import opened WorkflowRuns

  // ---------------------------------------------------------------- the status log

  /** Events are only ever appended. */
  lemma StepAppends(s: System, step: Step)
    ensures s.app.events <= Next(s, step).app.events
  {}

  lemma {:induction false} BrokenLogStaysBroken(s: System, steps: seq<Step>)
    requires !Adjacent(s.app.events)
    ensures !Adjacent(Run(s, steps).app.events)
    decreases |steps|
  {
    if steps != [] {
      StepAppends(s, steps[0]);
      var before, after := s.app.events, Next(s, steps[0]).app.events;
      assert forall i | 0 <= i < |before| :: before[i] == after[i];
      BrokenLogStaysBroken(Next(s, steps[0]), steps[1..]);
    }
  }

  lemma StaleSubmitBreaksLog(s: System, step: Step)
    requires AppInv(s.app) && StaleSubmit(s, step)
    ensures !Adjacent(Next(s, step).app.events)
  {
    var log, n := Next(s, step).app.events, |s.app.events|;
    assert log == s.app.events + [Event(Draft, Submitted, None)];
    assert log[n].from != log[n - 1].to;
  }

  lemma {:induction false} LogExactFrom(s: System, steps: seq<Step>)
    requires Inv(s)
    ensures var app := Run(s, steps).app;
            NoStaleSubmit(s, steps) <==> Contiguous(app.events, app.status)
    decreases |steps|
  {
    if steps != [] {
      if StaleSubmit(s, steps[0]) {
        StaleSubmitBreaksLog(s, steps[0]);
        BrokenLogStaysBroken(Next(s, steps[0]), steps[1..]);
      } else {
        StepKeeps(s, steps[0]);
        LogExactFrom(Next(s, steps[0]), steps[1..]);
      }
    }
  }

  /** The log is a path from DRAFT to the stored status exactly when no submit wrote over a non-draft. */
  lemma LogContiguousIffNoStaleSubmit(call: ProgramType, leader: UserId, steps: seq<Step>)
    ensures var app := Run(Initial(call, leader), steps).app;
            Contiguous(app.events, app.status) <==> NoStaleSubmit(Initial(call, leader), steps)
  {
    InitialInv(call, leader);
    LogExactFrom(Initial(call, leader), steps);
  }

  lemma LogIsLegalPath(call: ProgramType, leader: UserId, steps: seq<Step>)
    requires NoStaleSubmit(Initial(call, leader), steps)
    ensures var app := Run(Initial(call, leader), steps).app;
            && Contiguous(app.events, app.status)
            && forall i | 0 <= i < |app.events| :: Edge(app.events[i].from, app.events[i].to)
  {
    InitialInv(call, leader);
    RunKeeps(Initial(call, leader), steps);
  }

  lemma {:induction false} AtomicSubmitsAreNeverStale(s: System, steps: seq<Step>)
    requires !SubmitInFlight(s) && SubmitsAreAtomic(s, steps)
    ensures NoStaleSubmit(s, steps)
    decreases |steps|
  {
    if steps != [] {
      var s1 := Next(s, steps[0]);
      if !SubmitInFlight(s1) {
        AtomicSubmitsAreNeverStale(s1, steps[1..]);
      } else {
        var id :| id in s1.inflight && s1.inflight[id] == SubmitWrite;
        assert steps[0].Begin? && id == steps[0].id && s.app.status == Draft;
        var s2 := Next(s1, steps[1]);
        assert steps[1..][1..] == steps[2..];
        AtomicSubmitsAreNeverStale(s2, steps[2..]);
      }
    }
  }

  /** When submits are atomic, every interleaving of everything else leaves a contiguous, legal log. */
  lemma AtomicSubmitsKeepTheLog(call: ProgramType, leader: UserId, steps: seq<Step>)
    requires SubmitsAreAtomic(Initial(call, leader), steps)
    ensures var app := Run(Initial(call, leader), steps).app;
            && Contiguous(app.events, app.status)
            && forall i | 0 <= i < |app.events| :: Edge(app.events[i].from, app.events[i].to)
  {
    AtomicSubmitsAreNeverStale(Initial(call, leader), steps);
    LogIsLegalPath(call, leader, steps);
  }

  /** A double submit that the code lets through: both requests read DRAFT before either writes. */
  lemma DoubleSubmitBreaksLog(call: ProgramType, lead: Actor)
    ensures var app := Run(Initial(call, lead.id),
                           [Begin(0, lead, Submit(None)), Begin(1, lead, Submit(None)),
                            Commit(0, 5), Commit(1, 6)]).app;
            && !Contiguous(app.events, app.status)
            && app.events == [Event(Draft, Submitted, None), Event(Draft, Submitted, None)]
            && app.submittedAt == Some(6)
  {
    var s0 := Initial(call, lead.id);
    var steps := [Begin(0, lead, Submit(None)), Begin(1, lead, Submit(None)), Commit(0, 5), Commit(1, 6)];
    var s1 := Next(s0, steps[0]);
    var s2 := Next(s1, steps[1]);
    var s3 := Next(s2, steps[2]);
    var s4 := Next(s3, steps[3]);
    assert steps[1..][1..] == steps[2..] && steps[2..][1..] == steps[3..] && steps[3..][1..] == [];
    assert Run(s0, steps) == Run(s1, steps[1..]) == Run(s2, steps[2..]) == Run(s3, steps[3..]) == Run(s4, []);
    assert s4.app.events[1].from != s4.app.events[0].to;
  }

  // ---------------------------------------------------------------- needs-info conservation

  function UnresolvedItems(items: seq<ItemStatus>): set<nat> {
    set k: nat | k < |items| && items[k] != Resolved
  }

  lemma {:induction false} UnresolvedIsCardinality(items: seq<ItemStatus>)
    ensures |UnresolvedItems(items)| == Unresolved(items)
  {
    if items != [] {
      var n := |items| - 1;
      UnresolvedIsCardinality(items[..n]);
      var rest := UnresolvedItems(items[..n]);
      assert UnresolvedItems(items) == if items[n] == Resolved then rest else rest + {n};
    }
  }

  /** Each event that asks names the next item. */
  ghost predicate NamesItems(app: Application) {
    AskedItems(app.events) == seq(|app.items|, i => Some(i))
  }

  /** Each item has its event, in any state with well-formed transactions. */
  lemma StepNamesItems(s: System, step: Step)
    requires Shaped(s) && NamesItems(s.app)
    ensures NamesItems(Next(s, step).app)
  {
    var app := Next(s, step).app;
    StepAppends(s, step);
    if |app.events| == |s.app.events| {
      QuietStepKeepsItems(s, step);
    } else {
      var e := app.events[|s.app.events|];
      LoggedItems(s, step);
      EventNamesItem(s.app, e, app.items);
      assert app.events == s.app.events + [e];
    }
  }

  lemma EventNamesItem(app: Application, e: Event, items: seq<ItemStatus>)
    requires NamesItems(app)
    requires if e.to == NeedsInfo then e.item == Some(|app.items|) && |items| == |app.items| + 1
             else |items| == |app.items|
    ensures AskedItems(app.events + [e]) == seq(|items|, i => Some(i))
  {
    AppendToLog(app.events, e);
  }

  lemma QuietStepKeepsItems(s: System, step: Step)
    requires |Next(s, step).app.events| == |s.app.events|
    ensures Next(s, step).app.events == s.app.events && |Next(s, step).app.items| == |s.app.items|
  {}

  lemma LoggedItems(s: System, step: Step)
    requires Shaped(s) && |Next(s, step).app.events| > |s.app.events|
    ensures var app, e := Next(s, step).app, Next(s, step).app.events[|s.app.events|];
            && app.events == s.app.events + [e]
            && if e.to == NeedsInfo then e.item == Some(|s.app.items|) && |app.items| == |s.app.items| + 1
               else |app.items| == |s.app.items|
  {
    if step.Commit? { assert TxnShape(s.inflight[step.tid]); }
  }

  lemma {:induction false} ItemsNamedFrom(s: System, steps: seq<Step>)
    requires Shaped(s) && NamesItems(s.app)
    ensures NamesItems(Run(s, steps).app)
    decreases |steps|
  {
    if steps != [] {
      StepNamesItems(s, steps[0]);
      StepKeepsShape(s, steps[0]);
      ItemsNamedFrom(Next(s, steps[0]), steps[1..]);
    }
  }

  /** In every run, stale submits included: items and the events entering NEEDS_INFO match one by one, in order. */
  lemma ItemsMatchEvents(call: ProgramType, leader: UserId, steps: seq<Step>)
    ensures var app := Run(Initial(call, leader), steps).app;
            AskedItems(app.events) == seq(|app.items|, i => Some(i))
  {
    ItemsNamedFrom(Initial(call, leader), steps);
  }

  lemma NeedsInfoConservation(call: ProgramType, leader: UserId, steps: seq<Step>)
    requires NoStaleSubmit(Initial(call, leader), steps)
    ensures var app := Run(Initial(call, leader), steps).app;
            && AskedItems(app.events) == seq(|app.items|, i => Some(i))
            && CountItems(app.items, Resolved) == TallyOf(app.events).resubmitted
            && (!IsDecided(app.status) ==> |app.events| <= 2 * |app.items| + 3)
            && forall k | 0 <= k < |app.events| && app.events[k].to in {Approved, Rejected} ::
                 k + 1 <= 2 * |app.items| + 4
  {
    InitialInv(call, leader);
    RunKeeps(Initial(call, leader), steps);
  }

  /** Before the decision the length of the log is fixed by what happened, event by event. */
  lemma LogLengthLaw(call: ProgramType, leader: UserId, steps: seq<Step>)
    requires NoStaleSubmit(Initial(call, leader), steps)
    ensures var app := Run(Initial(call, leader), steps).app;
            var t := TallyOf(app.events);
            && t.submitted == (if app.status == Draft then 0 else 1)
            && t.started <= t.verified <= 1
            && (!IsDecided(app.status) ==>
                  |app.events| == t.submitted + t.verified + t.started
                                  + |app.items| + CountItems(app.items, Resolved))
  {
    InitialInv(call, leader);
    RunKeeps(Initial(call, leader), steps);
  }

  lemma UnresolvedByStatus(call: ProgramType, leader: UserId, steps: seq<Step>)
    requires NoStaleSubmit(Initial(call, leader), steps)
    ensures var app := Run(Initial(call, leader), steps).app;
            && (app.status == NeedsInfo ==> |UnresolvedItems(app.items)| == 1)
            && (app.status == Rejected ==> |UnresolvedItems(app.items)| <= 1)
            && (app.status !in {NeedsInfo, Rejected} ==> UnresolvedItems(app.items) == {})
  {
    InitialInv(call, leader);
    RunKeeps(Initial(call, leader), steps);
    UnresolvedIsCardinality(Run(Initial(call, leader), steps).app.items);
  }

  lemma SomeItemUnresolved(items: seq<ItemStatus>)
    ensures HasUnresolved(items) <==> UnresolvedItems(items) != {}
  {
    if HasUnresolved(items) {
      var k :| 0 <= k < |items| && (items[k] == Open || items[k] == Answered);
      assert k in UnresolvedItems(items);
    }
    if UnresolvedItems(items) != {} {
      var k :| k in UnresolvedItems(items);
      assert items[k] in items;
    }
  }

  /** Resubmit's check for unresolved items never fires, and a resubmit resolves exactly one item. */
  lemma ResubmitResolvesExactlyOne(call: ProgramType, leader: UserId, steps: seq<Step>, actor: Actor)
    requires NoStaleSubmit(Initial(call, leader), steps)
    ensures var s := Run(Initial(call, leader), steps);
            && (s.app.status == NeedsInfo ==> HasUnresolved(s.app.items))
            && (ResubmitCheck(s, actor) == Done ==>
                  var after := Next(s, Resubmit(actor)).app.items;
                  exists k :: 0 <= k < |s.app.items| && s.app.items[k] == Answered
                              && after == s.app.items[k := Resolved])
  {
    var s := Run(Initial(call, leader), steps);
    var items := s.app.items;
    UnresolvedByStatus(call, leader, steps);
    SomeItemUnresolved(items);
    if ResubmitCheck(s, actor) == Done {
      var k :| k in UnresolvedItems(items);
      assert UnresolvedItems(items) == {k} by {
        assert |UnresolvedItems(items) - {k}| == 0;
      }
      assert items[k] in items;
      forall j | 0 <= j < |items| && j != k ensures items[j] == Resolved {
        assert j !in UnresolvedItems(items);
      }
      assert ResolveAnswered(items) == items[k := Resolved];
    }
  }

  // ---------------------------------------------------------------- what can no longer change

  predicate IsClosed(st: Status) {
    st == Rejected || st == Archived
  }

  ghost predicate Later(a: Application, b: Application) {
    && a.events <= b.events
    && |a.items| <= |b.items|
    && (forall k | 0 <= k < |a.items| && a.items[k] == Resolved :: b.items[k] == Resolved)
    && a.evaluations.Keys <= b.evaluations.Keys
    && (a.submittedAt.Some? ==> b.submittedAt == a.submittedAt)
    && (a.decidedAt.Some? ==> b.decidedAt == a.decidedAt && b.decisionBy == a.decisionBy)
    && (a.status != Draft ==> b.status != Draft)
    && (IsDecided(a.status) ==> IsDecided(b.status))
    && (IsClosed(a.status) ==> b.status == a.status)
  }

  lemma WriteIsLater(app: Application, txn: Txn, now: Time)
    requires StampsOk(app) && TxnOk(app, txn) && Write(app, txn, now).Some?
    requires txn == SubmitWrite ==> app.status == Draft
    ensures Later(app, Write(app, txn, now).value)
  {
    match txn
    case Move(k, from) => assert SetsDecidedAt(k) ==> app.decidedAt.None?;
    case _ =>
  }

  lemma StepIsLater(s: System, step: Step)
    requires Inv(s) && !StaleSubmit(s, step)
    ensures Later(s.app, Next(s, step).app)
  {
    match step
    case Commit(id, now) =>
      if id in s.inflight && Write(s.app, s.inflight[id], now).Some? { WriteIsLater(s.app, s.inflight[id], now); }
    case Resubmit(actor) => ResubmitIsLater(s, actor);
    case _ =>
  }

  lemma ResubmitIsLater(s: System, actor: Actor)
    requires StampsOk(s.app)
    ensures Later(s.app, Next(s, Resubmit(actor)).app)
  {}

  lemma {:induction false} RunIsLater(s: System, steps: seq<Step>)
    requires Inv(s) && NoStaleSubmit(s, steps)
    ensures Later(s.app, Run(s, steps).app)
    decreases |steps|
  {
    if steps != [] {
      StepKeeps(s, steps[0]);
      StepIsLater(s, steps[0]);
      RunIsLater(Next(s, steps[0]), steps[1..]);
    }
  }

  lemma {:induction false} RunInTwoParts(s: System, a: seq<Step>, b: seq<Step>)
    ensures Run(s, a + b) == Run(Run(s, a), b)
    ensures NoStaleSubmit(s, a + b) <==> NoStaleSubmit(s, a) && NoStaleSubmit(Run(s, a), b)
    decreases |a|
  {
    if a == [] {
      assert a + b == b;
    } else {
      assert (a + b)[1..] == a[1..] + b;
      RunInTwoParts(Next(s, a[0]), a[1..], b);
    }
  }

  /** From any point of any run on: the log grows, decisions and submission stay, closed stays closed. */
  lemma HistoryIsKept(call: ProgramType, leader: UserId, before: seq<Step>, after: seq<Step>)
    requires NoStaleSubmit(Initial(call, leader), before + after)
    ensures Later(Run(Initial(call, leader), before).app, Run(Initial(call, leader), before + after).app)
  {
    var s0 := Initial(call, leader);
    RunInTwoParts(s0, before, after);
    InitialInv(call, leader);
    RunKeeps(s0, before);
    RunIsLater(Run(s0, before), after);
  }

  /** decidedAt and submittedAt match the status, and one event at most ever decides. */
  lemma StampsMatchStatus(call: ProgramType, leader: UserId, steps: seq<Step>)
    requires NoStaleSubmit(Initial(call, leader), steps)
    ensures var app := Run(Initial(call, leader), steps).app;
            && (app.decidedAt.Some? <==>
                  app.status in {Approved, Rejected, Onboarding, ActiveProject, Paused, Completed, Archived})
            && (app.submittedAt.Some? <==> app.status != Draft)
            && TallyOf(app.events).decisions == (if app.decidedAt.Some? then 1 else 0)
  {
    InitialInv(call, leader);
    RunKeeps(Initial(call, leader), steps);
  }

  // ---------------------------------------------------------------- Program B

  predicate StaysProgramB(steps: seq<Step>) {
    forall k | 0 <= k < |steps| && steps[k].SetContext? :: steps[k].call == ProgramB
  }

  lemma {:induction false} ProgramBFrom(s: System, steps: seq<Step>)
    requires s.call == ProgramB && StaysProgramB(steps)
    requires s.app.status in {Draft, Submitted, NeedsInfo, Evaluating}
    requires forall id | id in s.inflight :: s.inflight[id].SubmitWrite? || s.inflight[id].Ask?
    ensures Run(s, steps).app.status in {Draft, Submitted, NeedsInfo, Evaluating}
    decreases |steps|
  {
    if steps != [] {
      var s1 := Next(s, steps[0]);
      forall id | id in s1.inflight ensures s1.inflight[id].SubmitWrite? || s1.inflight[id].Ask? {
        assert id in s.inflight || (steps[0].Begin? && id == steps[0].id);
      }
      ProgramBFrom(s1, steps[1..]);
    }
  }

  /** While the call stays PROGRAM_B, in every run (stale submits included) four statuses are all there is. */
  lemma ProgramBStatuses(leader: UserId, steps: seq<Step>)
    requires StaysProgramB(steps)
    ensures Run(Initial(ProgramB, leader), steps).app.status in {Draft, Submitted, NeedsInfo, Evaluating}
  {
    ProgramBFrom(Initial(ProgramB, leader), steps);
  }

  // ---------------------------------------------------------------- evaluations

  ghost predicate AllDistinct(codes: seq<string>) {
    forall i, j | 0 <= i < j < |codes| :: codes[i] != codes[j]
  }

  lemma AppendCode(codes: seq<string>, c: string)
    ensures Elements(codes + [c]) == Elements(codes) + {c}
    ensures AllDistinct(codes + [c]) <==> AllDistinct(codes) && c !in codes
  {
    var all := codes + [c];
    assert forall i | 0 <= i < |codes| :: all[i] == codes[i];
    if c in codes {
      var i :| 0 <= i < |codes| && codes[i] == c;
      assert all[i] == all[|codes|];
    }
  }

  /** Comparing the size of a Set with the length of the list finds duplicates. */
  lemma {:induction false} NoDuplicates(codes: seq<string>)
    ensures |Elements(codes)| == |codes| <==> AllDistinct(codes)
    ensures |Elements(codes)| <= |codes|
  {
    if codes != [] {
      var n := |codes| - 1;
      assert codes == codes[..n] + [codes[n]];
      AppendCode(codes[..n], codes[n]);
      NoDuplicates(codes[..n]);
      if codes[n] in codes[..n] { assert Elements(codes) == Elements(codes[..n]); }
    }
  }

  lemma {:induction false} CountOfDistinct(codes: seq<string>, c: string)
    requires AllDistinct(codes)
    ensures multiset(codes)[c] == if c in codes then 1 else 0
  {
    if codes != [] {
      var n := |codes| - 1;
      assert codes == codes[..n] + [codes[n]];
      CountOfDistinct(codes[..n], c);
    }
  }

  /** The three checks together accept exactly the permutations of the three criteria. */
  lemma ValidScoresArePermutations(scores: seq<Score>)
    ensures ValidateScores(scores) == Done <==> multiset(Codes(scores)) == multiset(REQUIRED_CRITERIA)
  {
    var codes := Codes(scores);
    NoDuplicates(codes);
    assert |REQUIRED_CRITERIA[0]| != |REQUIRED_CRITERIA[1]| && |REQUIRED_CRITERIA[0]| != |REQUIRED_CRITERIA[2]|;
    assert REQUIRED_CRITERIA[1][0] != REQUIRED_CRITERIA[2][0];
    if ValidateScores(scores) == Done {
      forall c ensures multiset(codes)[c] == multiset(REQUIRED_CRITERIA)[c] {
        CountOfDistinct(codes, c);
        CountOfDistinct(REQUIRED_CRITERIA, c);
      }
    }
    if multiset(codes) == multiset(REQUIRED_CRITERIA) {
      forall c ensures c in codes <==> c in REQUIRED_CRITERIA {
        assert c in codes <==> c in multiset(codes);
        assert c in REQUIRED_CRITERIA <==> c in multiset(REQUIRED_CRITERIA);
      }
      NoDuplicates(REQUIRED_CRITERIA);
      assert Elements(codes) == Elements(REQUIRED_CRITERIA);
      assert |codes| == |multiset(codes)| == |multiset(REQUIRED_CRITERIA)| == |REQUIRED_CRITERIA|;
    }
  }

  ghost predicate RowsSound(app: Application) {
    && (forall u | u in app.evaluations :: ValidateScores(app.evaluations[u]) == Done)
    && (app.decisionBy.Some? ==> app.evaluations.Keys != {})
  }

  ghost predicate TxnSound(app: Application, txn: Txn) {
    && (txn.SaveEvaluation? ==> ValidateScores(txn.scores) == Done)
    && (txn.Decision? ==> app.evaluations.Keys != {})
  }

  /** Valid evaluations are stored and on their way, and decisions were admitted on at least one. */
  ghost predicate EvaluationsSound(s: System) {
    RowsSound(s.app) && forall id | id in s.inflight :: TxnSound(s.app, s.inflight[id])
  }

  lemma AdmittedIsSound(s: System, actor: Actor, req: Request)
    requires RowsSound(s.app) && Admit(s, actor, req).Ok?
    ensures TxnSound(s.app, Admit(s, actor, req).value)
  {
    if req.Decide? { CompletenessIsNonEmptiness(s.app.evaluations); }
  }

  lemma WrittenIsSound(app: Application, txn: Txn, now: Time)
    requires RowsSound(app) && TxnSound(app, txn) && Write(app, txn, now).Some?
    ensures RowsSound(Write(app, txn, now).value)
    ensures app.evaluations.Keys <= Write(app, txn, now).value.evaluations.Keys
  {}

  lemma StepKeepsEvaluations(s: System, step: Step)
    requires EvaluationsSound(s)
    ensures EvaluationsSound(Next(s, step))
  {
    match step
    case Begin(id, actor, req) =>
      if Admit(s, actor, req).Ok? { AdmittedIsSound(s, actor, req); }
    case Commit(id, now) => CommitKeepsEvaluations(s, id, now);
    case _ => assert Next(s, step).app.evaluations == s.app.evaluations && Next(s, step).inflight == s.inflight;
  }

  lemma CommitKeepsEvaluations(s: System, id: TxnId, now: Time)
    requires EvaluationsSound(s)
    ensures EvaluationsSound(Next(s, Commit(id, now)))
  {
    if id in s.inflight && Write(s.app, s.inflight[id], now).Some? {
      WrittenIsSound(s.app, s.inflight[id], now);
      var s' := Next(s, Commit(id, now));
      assert s'.app == Write(s.app, s.inflight[id], now).value;
      forall t | t in s'.inflight ensures TxnSound(s'.app, s'.inflight[t]) {
        assert TxnSound(s.app, s.inflight[t]);
      }
    }
  }

  lemma {:induction false} RunKeepsEvaluations(s: System, steps: seq<Step>)
    requires EvaluationsSound(s)
    ensures EvaluationsSound(Run(s, steps))
    decreases |steps|
  {
    if steps != [] {
      StepKeepsEvaluations(s, steps[0]);
      RunKeepsEvaluations(Next(s, steps[0]), steps[1..]);
    }
  }

  /** In every run, stale submits included: stored evaluations are complete and a recorded decision rests on one. */
  lemma EvaluationsInEveryRun(call: ProgramType, leader: UserId, steps: seq<Step>)
    ensures var app := Run(Initial(call, leader), steps).app;
            && (forall u | u in app.evaluations ::
                  multiset(Codes(app.evaluations[u])) == multiset(REQUIRED_CRITERIA))
            && (CheckCompleteness(app.evaluations) == Done <==> app.evaluations != map[])
            && (app.decisionBy.Some? ==> app.evaluations != map[])
  {
    RunKeepsEvaluations(Initial(call, leader), steps);
    var app := Run(Initial(call, leader), steps).app;
    CompletenessIsNonEmptiness(app.evaluations);
    forall u | u in app.evaluations
      ensures multiset(Codes(app.evaluations[u])) == multiset(REQUIRED_CRITERIA)
    {
      ValidScoresArePermutations(app.evaluations[u]);
    }
  }

  /** The step saves an evaluation although the status has moved on since its request read it. */
  predicate StaleEvaluation(s: System, step: Step) {
    step.Commit? && step.tid in s.inflight && s.inflight[step.tid].SaveEvaluation? && !CanBeEvaluated(s.app.status)
  }

  /** Such a save, of other scores than are stored. */
  predicate LateSave(s: System, step: Step) {
    StaleEvaluation(s, step) &&
    var txn := s.inflight[step.tid];
    txn.user !in s.app.evaluations || s.app.evaluations[txn.user] != txn.scores
  }

  predicate NoLateSave(s: System, steps: seq<Step>)
    decreases |steps|
  {
    steps == [] || (!LateSave(s, steps[0]) && NoLateSave(Next(s, steps[0]), steps[1..]))
  }

  /** Outside FORMALLY_VERIFIED and EVALUATING, evaluations change by a late save and in no other way. */
  lemma EvaluationsFrozenUnlessStale(s: System, step: Step)
    requires !CanBeEvaluated(s.app.status)
    ensures Next(s, step).app.evaluations != s.app.evaluations <==> LateSave(s, step)
  {}

  /** At every point of the run: outside those two statuses the next step leaves the evaluations alone. */
  ghost predicate AlwaysFrozen(s: System, steps: seq<Step>)
    decreases |steps|
  {
    steps == [] ||
    ((!CanBeEvaluated(s.app.status) ==> Next(s, steps[0]).app.evaluations == s.app.evaluations)
     && AlwaysFrozen(Next(s, steps[0]), steps[1..]))
  }

  /** For every run, from any state: the rule holds at every point exactly when no save is late. */
  lemma {:induction false} EvaluationsFrozenExactly(s: System, steps: seq<Step>)
    ensures AlwaysFrozen(s, steps) <==> NoLateSave(s, steps)
    decreases |steps|
  {
    if steps != [] {
      if !CanBeEvaluated(s.app.status) { EvaluationsFrozenUnlessStale(s, steps[0]); }
      EvaluationsFrozenExactly(Next(s, steps[0]), steps[1..]);
    }
  }

  ghost predicate EvaluationsStay(s: System, steps: seq<Step>, evaluations: map<UserId, seq<Score>>)
    decreases |steps|
  {
    s.app.evaluations == evaluations && (steps == [] || EvaluationsStay(Next(s, steps[0]), steps[1..], evaluations))
  }

  lemma {:induction false} StayFrom(s: System, steps: seq<Step>)
    requires Inv(s) && NoStaleSubmit(s, steps) && IsDecided(s.app.status)
    ensures EvaluationsStay(s, steps, s.app.evaluations) <==> NoLateSave(s, steps)
    decreases |steps|
  {
    if steps != [] {
      var s' := Next(s, steps[0]);
      StepKeeps(s, steps[0]);
      StepIsLater(s, steps[0]);
      EvaluationsFrozenUnlessStale(s, steps[0]);
      if s'.app.evaluations == s.app.evaluations { StayFrom(s', steps[1..]); }
      assert EvaluationsStay(s', steps[1..], s.app.evaluations) ==> s'.app.evaluations == s.app.evaluations;
    }
  }

  /** After the decision the evaluations it was based on stay as they were exactly when no save is late. */
  lemma EvaluationsFrozenAfterDecision(call: ProgramType, leader: UserId, before: seq<Step>, after: seq<Step>)
    requires NoStaleSubmit(Initial(call, leader), before + after)
    requires IsDecided(Run(Initial(call, leader), before).app.status)
    ensures var s := Run(Initial(call, leader), before);
            EvaluationsStay(s, after, s.app.evaluations) <==> NoLateSave(s, after)
  {
    RunInTwoParts(Initial(call, leader), before, after);
    InitialInv(call, leader);
    RunKeeps(Initial(call, leader), before);
    StayFrom(Run(Initial(call, leader), before), after);
  }

  // ---------------------------------------------------------------- approved and evaluated

  predicate RestsOnApproval(st: Status) {
    st in {Approved, Onboarding, ActiveProject, Paused, Completed, Archived}
  }

  ghost predicate ApprovedIsEvaluated(app: Application) {
    RestsOnApproval(app.status) ==> app.evaluations.Keys != {}
  }

  /** approve lands on an application that nobody has evaluated. */
  predicate BlindApproval(s: System, step: Step) {
    step.Commit? && step.tid in s.inflight && s.inflight[step.tid].Move? && s.inflight[step.tid].kind == Approve
    && s.app.status == Evaluating && s.app.evaluations.Keys == {}
  }

  predicate NoBlindApproval(s: System, steps: seq<Step>)
    decreases |steps|
  {
    steps == [] || (!BlindApproval(s, steps[0]) && NoBlindApproval(Next(s, steps[0]), steps[1..]))
  }

  ghost predicate AlwaysApprovedIsEvaluated(s: System, steps: seq<Step>)
    decreases |steps|
  {
    ApprovedIsEvaluated(s.app) && (steps == [] || AlwaysApprovedIsEvaluated(Next(s, steps[0]), steps[1..]))
  }

  lemma WriteApproves(app: Application, txn: Txn, now: Time)
    requires TxnShape(txn) && TxnSound(app, txn) && ApprovedIsEvaluated(app) && Write(app, txn, now).Some?
    ensures ApprovedIsEvaluated(Write(app, txn, now).value)
       <==> !(txn.Move? && txn.kind == Approve && app.evaluations.Keys == {})
  {
    if txn.Move? { MovesBeyondApproval(txn.kind, txn.from); }
  }

  /** approve is the only move into the approved statuses from outside. */
  lemma MovesBeyondApproval(k: Kind, from: Status)
    requires from in Froms(k)
    ensures RestsOnApproval(Target(k)) <==> k == Approve || RestsOnApproval(from)
    ensures k == Approve <==> from == Evaluating && Target(k) == Approved
  {}

  lemma StepApproves(s: System, step: Step)
    requires EvaluationsSound(s) && Shaped(s) && ApprovedIsEvaluated(s.app)
    ensures ApprovedIsEvaluated(Next(s, step).app) <==> !BlindApproval(s, step)
  {
    if step.Commit? && step.tid in s.inflight {
      var txn := s.inflight[step.tid];
      assert TxnShape(txn) && TxnSound(s.app, txn);
      if Write(s.app, txn, step.now).Some? { WriteApproves(s.app, txn, step.now); }
    }
  }

  lemma {:induction false} ApprovedIsEvaluatedFrom(s: System, steps: seq<Step>)
    requires EvaluationsSound(s) && Shaped(s) && ApprovedIsEvaluated(s.app)
    ensures AlwaysApprovedIsEvaluated(s, steps) <==> NoBlindApproval(s, steps)
    decreases |steps|
  {
    if steps != [] {
      var s' := Next(s, steps[0]);
      StepKeepsEvaluations(s, steps[0]);
      StepKeepsShape(s, steps[0]);
      StepApproves(s, steps[0]);
      if ApprovedIsEvaluated(s'.app) { ApprovedIsEvaluatedFrom(s', steps[1..]); }
    }
  }

  /** In any run, approved applications have evaluations at every point exactly when no approval is blind. */
  lemma ApprovedIsEvaluatedExactly(call: ProgramType, leader: UserId, steps: seq<Step>)
    ensures AlwaysApprovedIsEvaluated(Initial(call, leader), steps) <==> NoBlindApproval(Initial(call, leader), steps)
  {
    ApprovedIsEvaluatedFrom(Initial(call, leader), steps);
  }
}
