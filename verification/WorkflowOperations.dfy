/**
 What each request of the workflow is answered and what it does, said from the fields of the
 application: which requests are admitted and with which error the others are refused, and what the
 write leaves behind. Then, over whole runs, that a recorded decision is the one its user asked for.
 */
module WorkflowOperations {
  import opened Common
  import opened Workflow
  import opened WorkflowRuns
  import opened WorkflowTheorems

  const REVIEWERS: set<Role> := {Evaluator, Admin, SuperAdmin}

  /** The transitions by name. */
  predicate Performs(k: Kind, from: Status, to: Status) {
    match k
    case FormalVerify => from == Submitted && to == FormallyVerified
    case StartEvaluation => from == FormallyVerified && to == Evaluating
    case Approve => from == Evaluating && to == Approved
    case Reject => from in {Submitted, FormallyVerified, Evaluating, NeedsInfo} && to == Rejected
    case StartOnboarding => from == Approved && to == Onboarding
    case Activate => from in {Onboarding, Paused} && to == ActiveProject
    case Pause => from == ActiveProject && to == Paused
    case Complete => from == ActiveProject && to == Completed
    case Archive => from == Completed && to == Archived
  }

  /** Some evaluation has a score for every required criterion. */
  ghost predicate HasCompleteEvaluation(app: Application) {
    exists u | u in app.evaluations ::
      forall c | c in REQUIRED_CRITERIA :: exists k :: 0 <= k < |app.evaluations[u]| && app.evaluations[u][k].code == c
  }

  lemma CompletenessCheckExact(app: Application)
    ensures CheckCompleteness(app.evaluations) == Done <==> HasCompleteEvaluation(app)
    ensures CheckCompleteness(app.evaluations) != Done ==> CheckCompleteness(app.evaluations) == Failed(BadRequest)
  {
    forall u | u in app.evaluations
      ensures IsComplete(app.evaluations[u]) <==>
                forall c | c in REQUIRED_CRITERIA ::
                  exists k :: 0 <= k < |app.evaluations[u]| && app.evaluations[u][k].code == c
    {
      var scores := app.evaluations[u];
      forall c ensures c in Codes(scores) <==> exists k :: 0 <= k < |scores| && scores[k].code == c {
        if c in Codes(scores) {
          var k :| 0 <= k < |scores| && Codes(scores)[k] == c;
          assert scores[k].code == c;
        }
        if exists k :: 0 <= k < |scores| && scores[k].code == c {
          var k :| 0 <= k < |scores| && scores[k].code == c;
          assert Codes(scores)[k] == c;
        }
      }
    }
    if HasCompleteEvaluation(app) { assert app.evaluations.Keys != {}; }
  }

  // ---------------------------------------------------------------- answers

  /** createDecision: who decides what, and the error of everything else. */
  lemma DecisionAnswers(s: System, actor: Actor, approve: bool, rationale: string)
    ensures var r := Admit(s, actor, Decide(approve, rationale));
            var evaluable := s.app.status in {FormallyVerified, Evaluating} && HasCompleteEvaluation(s.app);
            && (r == Err(Forbidden) <==> actor.role !in REVIEWERS)
            && (r == Err(Conflict) <==>
                  actor.role in REVIEWERS && rationale != "" && (s.call == ProgramB || s.app.decidedAt.Some?))
            && (r == Err(BadRequest) <==>
                  actor.role in REVIEWERS
                  && (rationale == "" || (s.call == ProgramA && s.app.decidedAt.None? && !evaluable)))
            && (r.Ok? <==>
                  actor.role in REVIEWERS && rationale != "" && s.call == ProgramA
                  && s.app.decidedAt.None? && evaluable)
  {
    CompletenessCheckExact(s.app);
  }

  /** The nine transitions: a reason for rejecting, pausing and archiving, and the status each starts from. */
  lemma TransitionAnswers(s: System, actor: Actor, k: Kind, reason: Option<string>)
    ensures var r := Admit(s, actor, Transition(k, reason));
            var unexplained := k in {Reject, Pause, Archive} && (reason.None? || reason == Some(""));
            var possible := s.call == ProgramA && exists to :: Performs(k, s.app.status, to);
            && (r == Err(Forbidden) <==> actor.role !in REVIEWERS)
            && (r == Err(BadRequest) <==> actor.role in REVIEWERS && unexplained)
            && (r == Err(Conflict) <==> actor.role in REVIEWERS && !unexplained && !possible)
            && (r.Ok? <==> actor.role in REVIEWERS && !unexplained && possible)
  {
    assert s.app.status in Froms(k) <==> Performs(k, s.app.status, Target(k));
    forall to | Performs(k, s.app.status, to) ensures to == Target(k) {}
  }

  lemma SubmitAnswers(s: System, actor: Actor, obstacle: Option<Error>)
    ensures var r := Admit(s, actor, Submit(obstacle));
            && (actor.id != s.leader ==> r == Err(Forbidden))
            && (actor.id == s.leader && s.app.status != Draft ==> r == Err(Conflict))
            && (actor.id == s.leader && s.app.status == Draft && obstacle.Some? ==> r == Err(obstacle.value))
            && (actor.id == s.leader && s.app.status == Draft && obstacle.None? ==> r.Ok?)
  {}

  lemma AskAnswers(s: System, actor: Actor)
    ensures var r := Admit(s, actor, AskInfo);
            && (r == Err(Forbidden) <==> actor.role !in REVIEWERS)
            && (r == Err(BadRequest) <==>
                  actor.role in REVIEWERS && s.app.status !in {Submitted, FormallyVerified, Evaluating})
            && (r.Ok? <==> actor.role in REVIEWERS && s.app.status in {Submitted, FormallyVerified, Evaluating})
  {}

  lemma EvaluationAnswers(s: System, actor: Actor, scores: seq<Score>)
    ensures var r := Admit(s, actor, Evaluate(scores));
            var valid := s.app.status in {FormallyVerified, Evaluating}
                         && multiset(Codes(scores)) == multiset(REQUIRED_CRITERIA);
            && (r == Err(Forbidden) <==> actor.role !in REVIEWERS)
            && (r == Err(Conflict) <==> actor.role in REVIEWERS && s.call == ProgramB)
            && (r == Err(BadRequest) <==> actor.role in REVIEWERS && s.call == ProgramA && !valid)
            && (r.Ok? <==> actor.role in REVIEWERS && s.call == ProgramA && valid)
  {
    ValidScoresArePermutations(scores);
  }

  lemma ReplyAnswers(s: System, actor: Actor, item: nat)
    ensures var r := ReplyCheck(s, actor, item);
            var waiting := s.app.status == NeedsInfo;
            && (r == Failed(Forbidden) <==> actor.id != s.leader)
            && (r == Failed(BadRequest) <==> actor.id == s.leader && !waiting)
            && (r == Failed(NotFound) <==> actor.id == s.leader && waiting && item >= |s.app.items|)
            && (r == Failed(Conflict) <==>
                  actor.id == s.leader && waiting && item < |s.app.items| && s.app.items[item] == Resolved)
            && (r == Done <==>
                  actor.id == s.leader && waiting && item < |s.app.items| && s.app.items[item] != Resolved)
  {}

  /** Resubmitting needs an answered item and no open one. */
  lemma ResubmitAnswers(s: System, actor: Actor)
    ensures var r := ResubmitCheck(s, actor);
            var answered := (exists k :: 0 <= k < |s.app.items| && s.app.items[k] == Answered)
                            && forall k | 0 <= k < |s.app.items| :: s.app.items[k] != Open;
            && (r == Failed(Forbidden) <==> actor.id != s.leader)
            && (r == Done <==> actor.id == s.leader && s.app.status == NeedsInfo && answered)
            && (r == Failed(BadRequest) <==> actor.id == s.leader && !(s.app.status == NeedsInfo && answered))
  {
    var items := s.app.items;
    if Open in items { var k :| 0 <= k < |items| && items[k] == Open; }
    if exists k :: 0 <= k < |items| && items[k] == Answered {
      var k :| 0 <= k < |items| && items[k] == Answered;
      assert items[k] in items;
    }
    assert forall k | 0 <= k < |items| :: items[k] in items;
  }

  // ---------------------------------------------------------------- effects

  /** `later` is any state in which the request begun in `s` is still in flight. */
  predicate StillInFlight(s: System, id: TxnId, actor: Actor, req: Request, later: System) {
    id !in s.inflight && id in Next(s, Begin(id, actor, req)).inflight
    && id in later.inflight && later.inflight[id] == Next(s, Begin(id, actor, req)).inflight[id]
  }

  /** An admitted request changes nothing but that it is in flight; a refused one changes nothing. */
  lemma BeginDoes(s: System, id: TxnId, actor: Actor, req: Request)
    requires id !in s.inflight
    ensures var s' := Next(s, Begin(id, actor, req));
            && s'.app == s.app && s'.call == s.call && s'.leader == s.leader
            && (id in s'.inflight <==> Admit(s, actor, req).Ok?)
            && s'.inflight - {id} == s.inflight
  {
    assert s.inflight - {id} == s.inflight;
  }

  /** The verdict of the request becomes the status, its user and the moment of the write are recorded. */
  lemma DecisionDoes(s: System, id: TxnId, actor: Actor, approve: bool, rationale: string, later: System, now: Time)
    requires StillInFlight(s, id, actor, Decide(approve, rationale), later)
    ensures var verdict := if approve then Approved else Rejected;
            var app, app' := later.app, Next(later, Commit(id, now)).app;
            if app.status == s.app.status && app.decidedAt.None? then
              app' == app.(status := verdict, decidedAt := Some(now), decisionBy := Some(actor.id),
                           events := app.events + [Event(s.app.status, verdict, None)])
            else app' == app
  {}

  lemma TransitionDoes(s: System, id: TxnId, actor: Actor, k: Kind, reason: Option<string>, later: System, now: Time)
    requires StillInFlight(s, id, actor, Transition(k, reason), later)
    ensures var app, app' := later.app, Next(later, Commit(id, now)).app;
            if app.status != s.app.status then app' == app
            else Performs(k, app.status, app'.status)
                 && app' == app.(status := app'.status,
                                 decidedAt := if k == Approve || k == Reject then Some(now) else app.decidedAt,
                                 events := app.events + [Event(app.status, app'.status, None)])
  {}

  /** Whatever the row holds by then. */
  lemma SubmitDoes(s: System, id: TxnId, actor: Actor, obstacle: Option<Error>, later: System, now: Time)
    requires StillInFlight(s, id, actor, Submit(obstacle), later)
    ensures var app := later.app;
            Next(later, Commit(id, now)).app
            == app.(status := Submitted, submittedAt := Some(now),
                    events := app.events + [Event(Draft, Submitted, None)])
  {}

  /** A new open item, named by its event, or nothing at all. */
  lemma AskDoes(s: System, id: TxnId, actor: Actor, later: System, now: Time)
    requires StillInFlight(s, id, actor, AskInfo, later)
    ensures var app, app' := later.app, Next(later, Commit(id, now)).app;
            if app.status != s.app.status then app' == app
            else app' == app.(status := NeedsInfo, items := app.items + [Open],
                              events := app.events + [Event(app.status, NeedsInfo, Some(|app.items|))])
  {}

  lemma EvaluationDoes(s: System, id: TxnId, actor: Actor, scores: seq<Score>, later: System, now: Time)
    requires StillInFlight(s, id, actor, Evaluate(scores), later)
    ensures Next(later, Commit(id, now)).app == later.app.(evaluations := later.app.evaluations[actor.id := scores])
  {}

  lemma ReplyDoes(s: System, actor: Actor, item: nat)
    ensures var items, s' := s.app.items, Next(s, Reply(actor, item));
            if ReplyCheck(s, actor, item) == Done && items[item] == Open
            then s' == s.(app := s.app.(items := items[item := Answered]))
            else s' == s
  {}

  lemma ResubmitDoes(s: System, actor: Actor)
    ensures var app, app' := s.app, Next(s, Resubmit(actor)).app;
            if ResubmitCheck(s, actor) != Done then app' == app
            else && app' == app.(status := Evaluating, items := app'.items,
                                 events := app.events + [Event(NeedsInfo, Evaluating, None)])
                 && |app'.items| == |app.items|
                 && forall k | 0 <= k < |app.items| ::
                      app'.items[k] == if app.items[k] == Answered then Resolved else app.items[k]
  {}

  /** A change of the call's type or of the leader is all that happens, and later requests see it. */
  lemma ContextDoes(s: System, call: ProgramType, leader: UserId)
    ensures Next(s, SetContext(call, leader)) == System(s.app, call, leader, s.inflight)
  {}

  // ---------------------------------------------------------------- a decision is the one that was asked for

  /** Step i is the request that put this decision in flight. */
  ghost predicate AsksFor(s0: System, steps: seq<Step>, i: nat, id: TxnId, user: UserId, to: Status) {
    && i < |steps| && steps[i].Begin? && steps[i].id == id && steps[i].actor.id == user
    && steps[i].actor.role in REVIEWERS && steps[i].req.Decide?
    && to == (if steps[i].req.approve then Approved else Rejected)
    && id !in Run(s0, steps[..i]).inflight
  }

  lemma AskedBefore(s0: System, steps: seq<Step>, more: Step, i: nat, id: TxnId, user: UserId, to: Status)
    requires AsksFor(s0, steps, i, id, user, to)
    ensures AsksFor(s0, steps + [more], i, id, user, to)
  {
    assert (steps + [more])[..i] == steps[..i];
  }

  ghost predicate DecisionsAreAsked(s0: System, steps: seq<Step>) {
    var s := Run(s0, steps);
    forall id | id in s.inflight && s.inflight[id].Decision? ::
      exists i :: AsksFor(s0, steps, i, id, s.inflight[id].user, s.inflight[id].to)
  }

  lemma RunSnoc(s0: System, steps: seq<Step>, step: Step)
    ensures Run(s0, steps + [step]) == Next(Run(s0, steps), step)
    ensures NoStaleSubmit(s0, steps + [step])
       <==> NoStaleSubmit(s0, steps) && !StaleSubmit(Run(s0, steps), step)
  {
    RunInTwoParts(s0, steps, [step]);
    assert [step][1..] == [];
    var s := Run(s0, steps);
    assert Run(s, [step]) == Run(Next(s, step), []);
    assert NoStaleSubmit(s, [step]) <==> !StaleSubmit(s, step) && NoStaleSubmit(Next(s, step), []);
  }

  lemma AskedSnoc(s0: System, steps: seq<Step>, step: Step)
    requires DecisionsAreAsked(s0, steps)
    ensures DecisionsAreAsked(s0, steps + [step])
  {
    RunSnoc(s0, steps, step);
    var s, s' := Run(s0, steps), Run(s0, steps + [step]);
    forall id | id in s'.inflight && s'.inflight[id].Decision?
      ensures exists i :: AsksFor(s0, steps + [step], i, id, s'.inflight[id].user, s'.inflight[id].to)
    {
      if id in s.inflight {
        assert s'.inflight[id] == s.inflight[id];
        var i :| AsksFor(s0, steps, i, id, s.inflight[id].user, s.inflight[id].to);
        AskedBefore(s0, steps, step, i, id, s.inflight[id].user, s.inflight[id].to);
      } else {
        assert (steps + [step])[..|steps|] == steps;
        assert AsksFor(s0, steps + [step], |steps|, id, s'.inflight[id].user, s'.inflight[id].to);
      }
    }
  }

  lemma {:induction false} DecisionsAreAskedIn(s0: System, steps: seq<Step>)
    requires s0.inflight == map[]
    ensures DecisionsAreAsked(s0, steps)
  {
    if steps != [] {
      var n := |steps| - 1;
      DecisionsAreAskedIn(s0, steps[..n]);
      AskedSnoc(s0, steps[..n], steps[n]);
      assert steps == steps[..n] + [steps[n]];
    }
  }

  /** Request i of this user was written by step j, and event k is its verdict. */
  ghost predicate Recorded(s0: System, steps: seq<Step>, user: UserId, i: nat, j: nat, k: nat) {
    var app := Run(s0, steps).app;
    && i < j < |steps| && steps[j].Commit?
    && k == |Run(s0, steps[..j]).app.events| < |app.events| && app.events[k].from in {FormallyVerified, Evaluating}
    && AsksFor(s0, steps, i, steps[j].tid, user, app.events[k].to)
    && (NoStaleSubmit(s0, steps) ==> app.decidedAt == Some(steps[j].now))
  }

  ghost predicate DecisionIsRecorded(s0: System, steps: seq<Step>) {
    var decider := Run(s0, steps).app.decisionBy;
    decider.Some? ==> exists i, j, k :: Recorded(s0, steps, decider.value, i, j, k)
  }

  lemma RecordStays(s0: System, steps: seq<Step>, step: Step, user: UserId, i: nat, j: nat, k: nat)
    requires Recorded(s0, steps, user, i, j, k)
    requires NoStaleSubmit(s0, steps + [step]) ==> Inv(Run(s0, steps))
    ensures Recorded(s0, steps + [step], user, i, j, k)
  {
    RunSnoc(s0, steps, step);
    assert (steps + [step])[..j] == steps[..j];
    var app, app' := Run(s0, steps).app, Run(s0, steps + [step]).app;
    StepAppends(Run(s0, steps), step);
    assert app'.events[k] == app.events[k];
    AskedBefore(s0, steps, step, i, steps[j].tid, user, app.events[k].to);
    if NoStaleSubmit(s0, steps + [step]) { StepIsLater(Run(s0, steps), step); }
  }

  lemma NewRecord(s0: System, steps: seq<Step>, step: Step)
    requires DecisionsAreAsked(s0, steps) && Shaped(Run(s0, steps))
    requires Run(s0, steps + [step]).app.decisionBy != Run(s0, steps).app.decisionBy
    ensures DecisionIsRecorded(s0, steps + [step])
  {
    RunSnoc(s0, steps, step);
    var s, s' := Run(s0, steps), Run(s0, steps + [step]);
    assert step.Commit? && step.tid in s.inflight && s.inflight[step.tid].Decision?;
    var txn := s.inflight[step.tid];
    assert TxnShape(txn);
    var i :| AsksFor(s0, steps, i, step.tid, txn.user, txn.to);
    AskedBefore(s0, steps, step, i, step.tid, txn.user, txn.to);
    assert s'.app.events[|s.app.events|] == Event(txn.from, txn.to, None);
    assert (steps + [step])[..|steps|] == steps;
    assert Recorded(s0, steps + [step], txn.user, i, |steps|, |s.app.events|);
  }

  lemma {:induction false} DecisionIsRecordedIn(call: ProgramType, leader: UserId, steps: seq<Step>)
    ensures DecisionIsRecorded(Initial(call, leader), steps)
  {
    var s0 := Initial(call, leader);
    if steps != [] {
      var n := |steps| - 1;
      var before, last := steps[..n], steps[n];
      assert steps == before + [last];
      DecisionIsRecordedIn(call, leader, before);
      DecisionsAreAskedIn(s0, before);
      RunKeepsShape(s0, before);
      RunSnoc(s0, before, last);
      if Run(s0, steps).app.decisionBy != Run(s0, before).app.decisionBy {
        NewRecord(s0, before, last);
      } else if Run(s0, before).app.decisionBy.Some? {
        var user := Run(s0, before).app.decisionBy.value;
        var i, j, k :| Recorded(s0, before, user, i, j, k);
        if NoStaleSubmit(s0, steps) {
          InitialInv(call, leader);
          RunKeeps(s0, before);
        }
        RecordStays(s0, before, last, user, i, j, k);
      }
    }
  }

  /** In every run, whoever is recorded as decider asked as a reviewer for the verdict that the log shows. */
  lemma DecisionIsTheOneAskedFor(call: ProgramType, leader: UserId, steps: seq<Step>)
    requires Run(Initial(call, leader), steps).app.decisionBy.Some?
    ensures var s0 := Initial(call, leader);
            exists i, j, k :: Recorded(s0, steps, Run(s0, steps).app.decisionBy.value, i, j, k)
    ensures NoStaleSubmit(Initial(call, leader), steps) ==>
              TallyOf(Run(Initial(call, leader), steps).app.events).decisions == 1
  {
    DecisionIsRecordedIn(call, leader, steps);
    if NoStaleSubmit(Initial(call, leader), steps) {
      StampsMatchStatus(call, leader, steps);
      var s0 := Initial(call, leader);
      var i, j, k :| Recorded(s0, steps, Run(s0, steps).app.decisionBy.value, i, j, k);
    }
  }
}
