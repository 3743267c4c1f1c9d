/**
 The application workflow: src/applications/applications.service.ts with its repositories.

 Every request reads a snapshot of the application, checks it, and then writes in a transaction.
 The model keeps the two phases apart, so requests of many users interleave: `Begin` runs the
 checks and leaves a transaction in flight, `Commit` performs its write on whatever the row holds
 by then. Most writes are compare-and-set; submit and createEvaluation write unconditionally.
 Reply and resubmit run SERIALIZABLE against every other writer of items and are one step each.
 */
module Workflow {
  import opened Common

  datatype Status =
    | Draft | Submitted | FormallyVerified | Evaluating | NeedsInfo | Approved | Rejected
    | Onboarding | ActiveProject | Paused | Completed | Archived

  datatype ItemStatus = Open | Answered | Resolved

  /** A row of the status log; `item` is the needs-info item the event was written for. */
  datatype Event = Event(from: Status, to: Status, item: Option<nat>)

  datatype Score = Score(code: string, value: real)

  /** The application row with the rows that belong to it. Items are named by their position. */
  datatype Application = Application(
    status: Status,
    submittedAt: Option<Time>,
    decidedAt: Option<Time>,
    decisionBy: Option<UserId>,
    items: seq<ItemStatus>,
    events: seq<Event>,
    evaluations: map<UserId, seq<Score>>)

  const NEW_DRAFT := Application(Draft, None, None, None, [], [], map[])

  // ---------------------------------------------------------------- transition tables

  datatype Kind =
    | FormalVerify | StartEvaluation | Approve | Reject
    | StartOnboarding | Activate | Pause | Complete | Archive

  function Froms(k: Kind): set<Status> {
    match k
    case FormalVerify => {Submitted}
    case StartEvaluation => {FormallyVerified}
    case Approve => {Evaluating}
    case Reject => {Submitted, FormallyVerified, Evaluating, NeedsInfo}
    case StartOnboarding => {Approved}
    case Activate => {Onboarding, Paused}
    case Pause => {ActiveProject}
    case Complete => {ActiveProject}
    case Archive => {Completed}
  }

  function Target(k: Kind): Status {
    match k
    case FormalVerify => FormallyVerified
    case StartEvaluation => Evaluating
    case Approve => Approved
    case Reject => Rejected
    case StartOnboarding => Onboarding
    case Activate => ActiveProject
    case Pause => Paused
    case Complete => Completed
    case Archive => Archived
  }

  predicate NeedsReason(k: Kind) {
    k.Reject? || k.Pause? || k.Archive?
  }

  predicate SetsDecidedAt(k: Kind) {
    k.Approve? || k.Reject?
  }

  predicate CanAskInfo(st: Status) {
    st.Submitted? || st.FormallyVerified? || st.Evaluating?
  }

  predicate CanBeEvaluated(st: Status) {
    st.FormallyVerified? || st.Evaluating?
  }

  // ---------------------------------------------------------------- evaluations

  const REQUIRED_CRITERIA: seq<string> := ["TECHNICAL_QUALITY", "BUSINESS_VALUE", "TEAM_CAPABILITY"]

  function Codes(scores: seq<Score>): seq<string> {
    seq(|scores|, i requires 0 <= i < |scores| => scores[i].code)
  }

  function Elements(codes: seq<string>): set<string> {
    set c | c in codes
  }

  /** validateEvaluationScores: duplicates first, then missing, then unknown criteria. */
  function ValidateScores(scores: seq<Score>): Outcome {
    var submitted := Codes(scores);
    var unique := Elements(submitted);
    if |unique| != |submitted| then Failed(BadRequest)
    else if exists c | c in REQUIRED_CRITERIA :: c !in unique then Failed(BadRequest)
    else if exists c | c in submitted :: c !in REQUIRED_CRITERIA then Failed(BadRequest)
    else Done
  }

  predicate IsComplete(scores: seq<Score>) {
    forall c | c in REQUIRED_CRITERIA :: c in Codes(scores)
  }

  /** ensureEvaluationCompleteness. */
  function CheckCompleteness(evaluations: map<UserId, seq<Score>>): Outcome {
    if |evaluations| == 0 then Failed(BadRequest)
    else if !exists u | u in evaluations :: IsComplete(evaluations[u]) then Failed(BadRequest)
    else Done
  }

  // ---------------------------------------------------------------- requests and transactions

  /** `reason` and `rationale` are trimmed; `obstacle` is what submit's document and call checks report. */
  datatype Request =
    | Submit(obstacle: Option<Error>)
    | Transition(kind: Kind, reason: Option<string>)
    | Decide(approve: bool, rationale: string)
    | AskInfo
    | Evaluate(scores: seq<Score>)

  /** A transaction whose checks have passed, with the status its snapshot showed. */
  datatype Txn =
    | SubmitWrite
    | Move(kind: Kind, from: Status)
    | Decision(from: Status, to: Status, user: UserId)
    | Ask(from: Status)
    | SaveEvaluation(user: UserId, scores: seq<Score>)

  /** The application, what its requests read besides it, and the transactions in flight. */
  datatype System = System(app: Application, call: ProgramType, leader: UserId, inflight: map<TxnId, Txn>)

  function Initial(call: ProgramType, leader: UserId): System {
    System(NEW_DRAFT, call, leader, map[])
  }

  /** The checks of a request on its snapshot, in the order the services run them. */
  function Admit(s: System, actor: Actor, req: Request): Result<Txn> {
    match req
    case Submit(obstacle) =>
      if s.leader != actor.id then Err(Forbidden)
      else if s.app.status != Draft then Err(Conflict)
      else if obstacle.Some? then Err(obstacle.value)
      else Ok(SubmitWrite)
    case Transition(k, reason) =>
      if !IsReviewer(actor.role) then Err(Forbidden)
      else if NeedsReason(k) && (reason.None? || reason.value == "") then Err(BadRequest)
      else if s.call != ProgramA then Err(Conflict)
      else if s.app.status !in Froms(k) then Err(Conflict)
      else Ok(Move(k, s.app.status))
    case Decide(approve, rationale) =>
      if !IsReviewer(actor.role) then Err(Forbidden)
      else if rationale == "" then Err(BadRequest)
      else if s.call != ProgramA then Err(Conflict)
      else if s.app.decidedAt.Some? then Err(Conflict)
      else if !CanBeEvaluated(s.app.status) then Err(BadRequest)
      else if CheckCompleteness(s.app.evaluations).Failed? then Err(BadRequest)
      else Ok(Decision(s.app.status, if approve then Approved else Rejected, actor.id))
    case AskInfo =>
      if !IsReviewer(actor.role) then Err(Forbidden)
      else if !CanAskInfo(s.app.status) then Err(BadRequest)
      else Ok(Ask(s.app.status))
    case Evaluate(scores) =>
      if !IsReviewer(actor.role) then Err(Forbidden)
      else if s.call != ProgramA then Err(Conflict)
      else if !CanBeEvaluated(s.app.status) then Err(BadRequest)
      else if ValidateScores(scores).Failed? then Err(BadRequest)
      else Ok(SaveEvaluation(actor.id, scores))
  }

  function Logged(app: Application, from: Status, to: Status, item: Option<nat>): Application {
    app.(status := to, events := app.events + [Event(from, to, item)])
  }

  /** The write of a transaction. None: the compare-and-set found another status and all is rolled back. */
  function Write(app: Application, txn: Txn, now: Time): Option<Application> {
    match txn
    case SubmitWrite => Some(Logged(app.(submittedAt := Some(now)), Draft, Submitted, None))
    case Move(k, from) =>
      if app.status != from then None
      else Some(Logged(if SetsDecidedAt(k) then app.(decidedAt := Some(now)) else app, from, Target(k), None))
    case Decision(from, to, user) =>
      if app.status != from || app.decidedAt.Some? then None
      else Some(Logged(app.(decidedAt := Some(now), decisionBy := Some(user)), from, to, None))
    case Ask(from) =>
      if app.status != from then None
      else Some(Logged(app.(items := app.items + [Open]), from, NeedsInfo, Some(|app.items|)))
    case SaveEvaluation(user, scores) => Some(app.(evaluations := app.evaluations[user := scores]))
  }

  // ---------------------------------------------------------------- the two serializable requests

  function ReplyCheck(s: System, actor: Actor, item: nat): Outcome {
    if s.leader != actor.id then Failed(Forbidden)
    else if s.app.status != NeedsInfo then Failed(BadRequest)
    else if item >= |s.app.items| then Failed(NotFound)
    else if s.app.items[item] == Resolved then Failed(Conflict)
    else Done
  }

  predicate HasUnresolved(items: seq<ItemStatus>) {
    Open in items || Answered in items
  }

  function ResubmitCheck(s: System, actor: Actor): Outcome {
    if s.leader != actor.id then Failed(Forbidden)
    else if s.app.status != NeedsInfo then Failed(BadRequest)
    else if !HasUnresolved(s.app.items) then Failed(BadRequest)
    else if Open in s.app.items then Failed(BadRequest)
    else Done
  }

  function ResolveAnswered(items: seq<ItemStatus>): seq<ItemStatus> {
    seq(|items|, i requires 0 <= i < |items| => if items[i] == Answered then Resolved else items[i])
  }

  // ---------------------------------------------------------------- runs

  datatype Step =
    | Begin(id: TxnId, actor: Actor, req: Request)
    | Commit(tid: TxnId, now: Time)
    | Reply(actor: Actor, item: nat)
    | Resubmit(actor: Actor)
    | SetContext(call: ProgramType, leader: UserId) // updateCall and transferLeadership

  function Next(s: System, step: Step): System {
    match step
    case Begin(id, actor, req) =>
      if id in s.inflight || Admit(s, actor, req).Err? then s
      else s.(inflight := s.inflight[id := Admit(s, actor, req).value])
    case Commit(id, now) =>
      if id !in s.inflight then s
      else
        var written := Write(s.app, s.inflight[id], now);
        s.(app := if written.Some? then written.value else s.app, inflight := s.inflight - {id})
    case Reply(actor, item) =>
      if ReplyCheck(s, actor, item).Failed? || s.app.items[item] != Open then s
      else s.(app := s.app.(items := s.app.items[item := Answered]))
    case Resubmit(actor) =>
      if ResubmitCheck(s, actor).Failed? then s
      else s.(app := Logged(s.app.(items := ResolveAnswered(s.app.items)), NeedsInfo, Evaluating, None))
    case SetContext(call, leader) => s.(call := call, leader := leader)
  }

  function Run(s: System, steps: seq<Step>): System
    decreases |steps|
  {
    if steps == [] then s else Run(Next(s, steps[0]), steps[1..])
  }

  predicate CommitsSubmit(s: System, step: Step) {
    step.Commit? && step.tid in s.inflight && s.inflight[step.tid] == SubmitWrite
  }

  /** The step is a submit's write on an application that has left DRAFT since the submit read it. */
  predicate StaleSubmit(s: System, step: Step) {
    CommitsSubmit(s, step) && s.app.status != Draft
  }

  predicate NoStaleSubmit(s: System, steps: seq<Step>)
    decreases |steps|
  {
    steps == [] || (!StaleSubmit(s, steps[0]) && NoStaleSubmit(Next(s, steps[0]), steps[1..]))
  }

  predicate SubmitInFlight(s: System) {
    exists id | id in s.inflight :: s.inflight[id] == SubmitWrite
  }

  /** The schedules in which every submit's write directly follows its read. */
  predicate SubmitsAreAtomic(s: System, steps: seq<Step>)
    decreases |steps|
  {
    steps == [] ||
    var s1 := Next(s, steps[0]);
    if !SubmitInFlight(s1) then SubmitsAreAtomic(s1, steps[1..])
    else |steps| > 1 && steps[1].Commit? &&
         !SubmitInFlight(Next(s1, steps[1])) && SubmitsAreAtomic(Next(s1, steps[1]), steps[2..])
  }
}
