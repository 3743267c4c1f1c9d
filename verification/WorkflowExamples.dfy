/** Concrete runs: what the workflow does reach, and a promise it does not make. */
module WorkflowExamples {
  import opened Common
  import opened Workflow
  import opened WorkflowTheorems

  /** A request served without interruption. */
  function Serve(actor: Actor, req: Request, now: Time): seq<Step> {
    [Begin(0, actor, req), Commit(0, now)]
  }

  lemma ServeEffect(s: System, actor: Actor, req: Request, now: Time)
    requires 0 !in s.inflight && Admit(s, actor, req).Ok?
    ensures var written := Write(s.app, Admit(s, actor, req).value, now);
            && Run(s, Serve(actor, req, now)) == s.(app := if written.Some? then written.value else s.app)
            && (Admit(s, actor, req).value != SubmitWrite || s.app.status == Draft ==>
                  NoStaleSubmit(s, Serve(actor, req, now)))
  {
    var steps := Serve(actor, req, now);
    var s1 := Next(s, steps[0]);
    assert steps[1..] == [steps[1]] && steps[1..][1..] == [];
    assert s1.inflight - {0} == s.inflight;
    assert Run(s1, steps[1..]) == Run(Next(s1, steps[1]), []);
    assert NoStaleSubmit(s1, steps[1..]) <==> !StaleSubmit(s1, steps[1]);
  }

  /** One more served request at the end of a run that left nothing in flight. */
  lemma ThenServe(s0: System, steps: seq<Step>, s: System, actor: Actor, req: Request, now: Time)
    requires Run(s0, steps) == s && NoStaleSubmit(s0, steps)
    requires 0 !in s.inflight && Admit(s, actor, req).Ok?
    requires Admit(s, actor, req).value == SubmitWrite ==> s.app.status == Draft
    ensures var written := Write(s.app, Admit(s, actor, req).value, now);
            && Run(s0, steps + Serve(actor, req, now)) == s.(app := if written.Some? then written.value else s.app)
            && NoStaleSubmit(s0, steps + Serve(actor, req, now))
  {
    ServeEffect(s, actor, req, now);
    RunInTwoParts(s0, steps, Serve(actor, req, now));
  }

  lemma ThenStep(s0: System, steps: seq<Step>, s: System, step: Step)
    requires Run(s0, steps) == s && NoStaleSubmit(s0, steps) && !StaleSubmit(s, step)
    ensures Run(s0, steps + [step]) == Next(s, step) && NoStaleSubmit(s0, steps + [step])
  {
    RunInTwoParts(s0, steps, [step]);
    assert [step][1..] == [];
    assert Run(s, [step]) == Run(Next(s, step), []);
  }

  ghost predicate ReachesB(lead: UserId, steps: seq<Step>, st: Status) {
    StaysProgramB(steps) && Run(Initial(ProgramB, lead), steps).app.status == st
  }

  lemma ProgramBAsked(lead: Actor, reviewer: Actor) returns (submit: seq<Step>, ask: seq<Step>)
    requires IsReviewer(reviewer.role)
    ensures ReachesB(lead.id, submit, Submitted) && ReachesB(lead.id, ask, NeedsInfo)
    ensures NoStaleSubmit(Initial(ProgramB, lead.id), ask)
    ensures var s := Run(Initial(ProgramB, lead.id), ask);
            s.app.items == [Open] && s.leader == lead.id && s.inflight == map[]
  {
    var s0 := Initial(ProgramB, lead.id);
    ServeEffect(s0, lead, Submit(None), 1);
    submit := Serve(lead, Submit(None), 1);
    ThenServe(s0, submit, Run(s0, submit), reviewer, AskInfo, 2);
    ask := submit + Serve(reviewer, AskInfo, 2);
    assert Run(s0, ask).app.items == [Open];
  }

  lemma ProgramBResubmitted(lead: Actor, ask: seq<Step>) returns (resubmit: seq<Step>)
    requires ReachesB(lead.id, ask, NeedsInfo) && NoStaleSubmit(Initial(ProgramB, lead.id), ask)
    requires var s := Run(Initial(ProgramB, lead.id), ask); s.app.items == [Open] && s.leader == lead.id
    ensures ReachesB(lead.id, resubmit, Evaluating)
  {
    var s0 := Initial(ProgramB, lead.id);
    var reply := ask + [Reply(lead, 0)];
    ThenStep(s0, ask, Run(s0, ask), Reply(lead, 0));
    assert Run(s0, reply).app.items == [Answered];
    resubmit := reply + [Resubmit(lead)];
    ThenStep(s0, reply, Run(s0, reply), Resubmit(lead));
  }

  /** While the call stays PROGRAM_B, exactly the four statuses of ProgramBStatuses are reached. */
  lemma ProgramBReachesExactly(lead: Actor, reviewer: Actor, st: Status)
    requires IsReviewer(reviewer.role)
    ensures st in {Draft, Submitted, NeedsInfo, Evaluating} <==> exists steps :: ReachesB(lead.id, steps, st)
  {
    assert ReachesB(lead.id, [], Draft);
    var submit, ask := ProgramBAsked(lead, reviewer);
    var resubmit := ProgramBResubmitted(lead, ask);
    if exists steps :: ReachesB(lead.id, steps, st) {
      var steps :| ReachesB(lead.id, steps, st);
      ProgramBStatuses(lead.id, steps);
    }
  }

  lemma ThenMove(s0: System, steps: seq<Step>, reviewer: Actor, k: Kind, now: Time)
    requires NoStaleSubmit(s0, steps) && IsReviewer(reviewer.role) && !NeedsReason(k)
    requires var s := Run(s0, steps); 0 !in s.inflight && s.call == ProgramA && s.app.status in Froms(k)
    ensures var s := Run(s0, steps);
            Run(s0, steps + Serve(reviewer, Transition(k, None), now))
            == s.(app := Write(s.app, Move(k, s.app.status), now).value)
    ensures NoStaleSubmit(s0, steps + Serve(reviewer, Transition(k, None), now))
  {
    ThenServe(s0, steps, Run(s0, steps), reviewer, Transition(k, None), now);
  }

  lemma Verified(lead: Actor, reviewer: Actor) returns (verify: seq<Step>)
    requires IsReviewer(reviewer.role)
    ensures NoStaleSubmit(Initial(ProgramA, lead.id), verify)
    ensures var s := Run(Initial(ProgramA, lead.id), verify);
            && s.app.status == FormallyVerified && s.app.decisionBy.None? && s.app.evaluations == map[]
            && s.inflight == map[] && s.call == ProgramA
  {
    var s0 := Initial(ProgramA, lead.id);
    ServeEffect(s0, lead, Submit(None), 1);
    var submit := Serve(lead, Submit(None), 1);
    ThenMove(s0, submit, reviewer, FormalVerify, 2);
    verify := submit + Serve(reviewer, Transition(FormalVerify, None), 2);
  }

  /** approve does not look at evaluations: an application can be APPROVED that nobody has evaluated. */
  lemma ApprovedWithoutEvaluation(lead: Actor, reviewer: Actor)
    requires IsReviewer(reviewer.role)
    ensures exists steps: seq<Step> ::
              && NoStaleSubmit(Initial(ProgramA, lead.id), steps)
              && var app := Run(Initial(ProgramA, lead.id), steps).app;
              && app.status == Approved && app.decidedAt.Some? && app.decisionBy.None? && app.evaluations == map[]
  {
    var s0 := Initial(ProgramA, lead.id);
    var verify := Verified(lead, reviewer);
    ThenMove(s0, verify, reviewer, StartEvaluation, 3);
    var evaluate := verify + Serve(reviewer, Transition(StartEvaluation, None), 3);
    ThenMove(s0, evaluate, reviewer, Approve, 4);
  }

  /** A run in which an evaluation, admitted in time, is stored after the application was rejected. */
  lemma StaleEvaluationLands(lead: Actor, reviewer: Actor, scores: seq<Score>)
    requires IsReviewer(reviewer.role) && ValidateScores(scores) == Done
    ensures exists steps: seq<Step>, last: Step ::
              && NoStaleSubmit(Initial(ProgramA, lead.id), steps + [last])
              && var s, s' := Run(Initial(ProgramA, lead.id), steps), Run(Initial(ProgramA, lead.id), steps + [last]);
              && s.app.status == s'.app.status == Rejected
              && s.app.evaluations == map[] && s'.app.evaluations == map[reviewer.id := scores]
  {
    var s0 := Initial(ProgramA, lead.id);
    var verify := Verified(lead, reviewer);
    var s1 := Run(s0, verify);
    var begin := Begin(1, reviewer, Evaluate(scores));
    ThenStep(s0, verify, s1, begin);
    var s2 := Next(s1, begin);
    assert s2.inflight == map[1 := SaveEvaluation(reviewer.id, scores)] && s2.app == s1.app;
    var reject := Transition(Reject, Some("no"));
    ThenServe(s0, verify + [begin], s2, reviewer, reject, 4);
    var steps := verify + [begin] + Serve(reviewer, reject, 4);
    var s3 := Run(s0, steps);
    assert s3.app.status == Rejected && s3.inflight == s2.inflight && s3.app.evaluations == map[];
    ThenStep(s0, steps, s3, Commit(1, 5));
    assert Run(s0, steps + [Commit(1, 5)]).app.evaluations == map[reviewer.id := scores];
  }
}
