/**
 The services and repositories of the workflow, as methods that change one application's rows.

 Each request is a pair of methods: the checks, which put a transaction in flight, and its write.
 `View` is the abstract state; every method is proved to take exactly one step of Workflow.Next.
 */
module WorkflowEngine {
  import opened Common
  import opened Workflow

  class ApplicationRecord {
    var status: Status
    var submittedAt: Option<Time>
    var decidedAt: Option<Time>
    var decisionBy: Option<UserId>
    var items: seq<ItemStatus>
    var events: seq<Event>
    var evaluations: map<UserId, seq<Score>>
    var call: ProgramType
    var leader: UserId
    var inflight: map<TxnId, Txn>

    ghost function View(): System
      reads this
    {
      System(Application(status, submittedAt, decidedAt, decisionBy, items, events, evaluations),
             call, leader, inflight)
    }

    constructor (call: ProgramType, leader: UserId)
      ensures View() == Initial(call, leader)
    {
      this.call, this.leader, inflight := call, leader, map[];
      status, submittedAt, decidedAt, decisionBy := Draft, None, None, None;
      items, events, evaluations := [], [], map[];
    }

    // -------------------------------------------------------------- repositories

    method SubmitDraft(now: Time)
      modifies this`status, this`submittedAt
      ensures status == Submitted && submittedAt == Some(now)
    {
      status, submittedAt := Submitted, Some(now);
    }

    method UpdateStatusIfCurrent(current: Status, next: Status, decided: Option<Time>) returns (count: nat)
      modifies this`status, this`decidedAt
      ensures count == if old(status) == current then 1 else 0
      ensures status == if count == 1 then next else old(status)
      ensures decidedAt == if count == 1 && decided.Some? then decided else old(decidedAt)
    {
      count := 0;
      if status == current {
        status := next;
        if decided.Some? { decidedAt := decided; }
        count := 1;
      }
    }

    method UpdateDecisionIfCurrent(current: Status, next: Status, user: UserId, now: Time) returns (count: nat)
      modifies this`status, this`decidedAt, this`decisionBy
      ensures count == if old(status) == current && old(decidedAt).None? then 1 else 0
      ensures count == 1 ==> status == next && decidedAt == Some(now) && decisionBy == Some(user)
      ensures count == 0 ==> unchanged(this)
    {
      count := 0;
      if status == current && decidedAt.None? {
        status, decidedAt, decisionBy := next, Some(now), Some(user);
        count := 1;
      }
    }

    method CreateItem() returns (item: nat)
      modifies this`items
      ensures items == old(items) + [Open] && item == |old(items)|
    {
      item := |items|;
      items := items + [Open];
    }

    method CreateStatusEvent(from: Status, to: Status, item: Option<nat>)
      modifies this`events
      ensures events == old(events) + [Event(from, to, item)]
    {
      events := events + [Event(from, to, item)];
    }

    // -------------------------------------------------------------- the checks

    method BeginSubmit(id: TxnId, actor: Actor, obstacle: Option<Error>) returns (r: Outcome)
      requires id !in inflight
      modifies this`inflight
      ensures View() == Next(old(View()), Begin(id, actor, Submit(obstacle)))
      ensures r == Done <==> Admit(old(View()), actor, Submit(obstacle)).Ok?
      ensures r.Failed? ==> Admit(old(View()), actor, Submit(obstacle)) == Err(r.error)
    {
      if leader != actor.id { return Failed(Forbidden); }
      if status != Draft { return Failed(Conflict); }
      if obstacle.Some? { return Failed(obstacle.value); }
      inflight := inflight[id := SubmitWrite];
      return Done;
    }

    method BeginTransition(id: TxnId, actor: Actor, k: Kind, reason: Option<string>) returns (r: Outcome)
      requires id !in inflight
      modifies this`inflight
      ensures View() == Next(old(View()), Begin(id, actor, Transition(k, reason)))
      ensures r == Done <==> Admit(old(View()), actor, Transition(k, reason)).Ok?
      ensures r.Failed? ==> Admit(old(View()), actor, Transition(k, reason)) == Err(r.error)
    {
      if !IsReviewer(actor.role) { return Failed(Forbidden); }
      if NeedsReason(k) && (reason.None? || reason.value == "") { return Failed(BadRequest); }
      if call != ProgramA { return Failed(Conflict); }
      if status !in Froms(k) { return Failed(Conflict); }
      inflight := inflight[id := Move(k, status)];
      return Done;
    }

    method BeginDecision(id: TxnId, actor: Actor, approve: bool, rationale: string) returns (r: Outcome)
      requires id !in inflight
      modifies this`inflight
      ensures View() == Next(old(View()), Begin(id, actor, Decide(approve, rationale)))
      ensures r == Done <==> Admit(old(View()), actor, Decide(approve, rationale)).Ok?
      ensures r.Failed? ==> Admit(old(View()), actor, Decide(approve, rationale)) == Err(r.error)
      ensures r == Done ==>
                && status in {FormallyVerified, Evaluating} && call == ProgramA && decidedAt.None? && rationale != ""
                && inflight == old(inflight)[id := Decision(status, if approve then Approved else Rejected, actor.id)]
    {
      if !IsReviewer(actor.role) { return Failed(Forbidden); }
      if rationale == "" { return Failed(BadRequest); }
      var target := if approve then Approved else Rejected;
      if call != ProgramA { return Failed(Conflict); }
      if decidedAt.Some? { return Failed(Conflict); }
      if !CanBeEvaluated(status) { return Failed(BadRequest); }
      if CheckCompleteness(evaluations).Failed? { return Failed(BadRequest); }
      inflight := inflight[id := Decision(status, target, actor.id)];
      return Done;
    }

    method BeginNeedsInfo(id: TxnId, actor: Actor) returns (r: Outcome)
      requires id !in inflight
      modifies this`inflight
      ensures View() == Next(old(View()), Begin(id, actor, AskInfo))
      ensures r == Done <==> Admit(old(View()), actor, AskInfo).Ok?
      ensures r.Failed? ==> Admit(old(View()), actor, AskInfo) == Err(r.error)
    {
      if !IsReviewer(actor.role) { return Failed(Forbidden); }
      if !CanAskInfo(status) { return Failed(BadRequest); }
      inflight := inflight[id := Ask(status)];
      return Done;
    }

    method BeginEvaluation(id: TxnId, actor: Actor, scores: seq<Score>) returns (r: Outcome)
      requires id !in inflight
      modifies this`inflight
      ensures View() == Next(old(View()), Begin(id, actor, Evaluate(scores)))
      ensures r == Done <==> Admit(old(View()), actor, Evaluate(scores)).Ok?
      ensures r.Failed? ==> Admit(old(View()), actor, Evaluate(scores)) == Err(r.error)
    {
      if !IsReviewer(actor.role) { return Failed(Forbidden); }
      if call != ProgramA { return Failed(Conflict); }
      if !CanBeEvaluated(status) { return Failed(BadRequest); }
      if ValidateScores(scores).Failed? { return Failed(BadRequest); }
      inflight := inflight[id := SaveEvaluation(actor.id, scores)];
      return Done;
    }

    // -------------------------------------------------------------- the writes

    method CommitSubmit(id: TxnId, now: Time)
      requires id in inflight && inflight[id] == SubmitWrite
      modifies this
      ensures View() == Next(old(View()), Commit(id, now))
    {
      SubmitDraft(now);
      CreateStatusEvent(Draft, Submitted, None);
      inflight := inflight - {id};
    }

    method CommitTransition(id: TxnId, now: Time) returns (r: Outcome)
      requires id in inflight && inflight[id].Move?
      modifies this
      ensures View() == Next(old(View()), Commit(id, now))
      ensures r == Done <==> old(status) == old(inflight[id].from)
    {
      var Move(k, from) := inflight[id];
      inflight := inflight - {id};
      var count := UpdateStatusIfCurrent(from, Target(k), if SetsDecidedAt(k) then Some(now) else None);
      if count != 1 { return Failed(Conflict); }
      CreateStatusEvent(from, Target(k), None);
      return Done;
    }

    method CommitDecision(id: TxnId, now: Time) returns (r: Outcome)
      requires id in inflight && inflight[id].Decision?
      modifies this
      ensures View() == Next(old(View()), Commit(id, now))
      ensures r == Done <==> old(status) == old(inflight[id].from) && old(decidedAt).None?
      ensures r == Done ==>
                && status == old(inflight[id].to) && decidedAt == Some(now)
                && decisionBy == Some(old(inflight[id].user))
                && events == old(events) + [Event(old(status), status, None)]
    {
      var Decision(from, to, user) := inflight[id];
      inflight := inflight - {id};
      var count := UpdateDecisionIfCurrent(from, to, user, now);
      if count != 1 { return Failed(Conflict); }
      CreateStatusEvent(from, to, None);
      return Done;
    }

    /** The item is created before the compare-and-set, so a lost race has to take it back. */
    method CommitNeedsInfo(id: TxnId, now: Time) returns (r: Outcome)
      requires id in inflight && inflight[id].Ask?
      modifies this
      ensures View() == Next(old(View()), Commit(id, now))
      ensures r == Done <==> old(status) == old(inflight[id].from)
    {
      var Ask(from) := inflight[id];
      inflight := inflight - {id};
      var itemsBefore := items;
      var item := CreateItem();
      var count := UpdateStatusIfCurrent(from, NeedsInfo, None);
      if count != 1 {
        items := itemsBefore;
        return Failed(Conflict);
      }
      CreateStatusEvent(from, NeedsInfo, Some(item));
      return Done;
    }

    /** An upsert that replaces all scores of the evaluator's row. */
    method CommitEvaluation(id: TxnId, now: Time)
      requires id in inflight && inflight[id].SaveEvaluation?
      modifies this
      ensures View() == Next(old(View()), Commit(id, now))
    {
      var SaveEvaluation(user, scores) := inflight[id];
      inflight := inflight - {id};
      evaluations := evaluations[user := scores];
    }

    // -------------------------------------------------------------- the serializable requests

    method ReplyToNeedsInfoItem(actor: Actor, item: nat) returns (r: Outcome)
      modifies this`items
      ensures View() == Next(old(View()), Reply(actor, item))
      ensures r == ReplyCheck(old(View()), actor, item)
    {
      if leader != actor.id { return Failed(Forbidden); }
      if status != NeedsInfo { return Failed(BadRequest); }
      if item >= |items| { return Failed(NotFound); }
      if items[item] == Resolved { return Failed(Conflict); }
      if items[item] == Open { items := items[item := Answered]; }
      return Done;
    }

    method ResubmitApplication(actor: Actor, now: Time) returns (r: Outcome)
      modifies this
      ensures View() == Next(old(View()), Resubmit(actor))
      ensures r == ResubmitCheck(old(View()), actor)
    {
      if leader != actor.id { return Failed(Forbidden); }
      if status != NeedsInfo { return Failed(BadRequest); }
      if !HasUnresolved(items) { return Failed(BadRequest); }
      if Open in items { return Failed(BadRequest); }
      items := ResolveAnswered(items);
      var count := UpdateStatusIfCurrent(NeedsInfo, Evaluating, None);
      assert count == 1; // the guard after this write never fires in a serializable transaction
      CreateStatusEvent(NeedsInfo, Evaluating, None);
      return Done;
    }

    /** What updateCall and transferLeadership change under the workflow: its remaining kind of step. */
    method SetCallAndLeader(newCall: ProgramType, newLeader: UserId)
      modifies this`call, this`leader
      ensures View() == Next(old(View()), SetContext(newCall, newLeader))
    {
      call, leader := newCall, newLeader;
    }
  }
}
