/**
 One application, its documents and its team together: submission locks the team, and from then on
 a complete set of documents stays complete.

 Submit, attachments and membership changes all read and write apart. Attachments and most changes
 run SERIALIZABLE, but submit does not, so any of them may have read the draft or the unlocked team
 and land after the submission. Among themselves they are checked against the state they land on.
 The call does not change during the run.
 */
module Submission {
  import opened Common
  import opened Workflow
  import opened WorkflowRuns
  import opened Documents
  import opened Completeness
  import opened Teams

  /** A write whose checks have passed. */
  datatype Work = Upload(slot: Slot, file: string) | Change(change: TeamStep)

  datatype Case = Case(
    sys: System, rows: seq<Document>, team: Team, required: seq<DocumentType>, pending: map<TxnId, Work>)

  datatype CaseStep =
    | RequestSubmit(id: TxnId, actor: Actor, obstacle: Option<Error>) // archival, call window, sections
    | BeginAttach(tid: TxnId, user: UserId, dto: Attachment, files: map<string, UploadedFile>)
    | BeginChange(tid: TxnId, change: TeamStep)
    | Land(tid: TxnId) // the write of an attachment or a membership change
    | LockTeam(now: Time, overlaps: bool) // another submit of the team
    | Process(step: Step) // every other workflow step, the write of a submit included

  function PackObstacle(c: Case, other: Option<Error>): Option<Error> {
    if other.Some? then other
    else if BuildReport(c.sys.call, c.required, c.team.members, ActiveRows(c.rows)).isComplete then None
    else Some(Conflict)
  }

  predicate Allowed(step: Step) {
    !step.SetContext? && !(step.Begin? && step.req.Submit?)
  }

  function Landed(c: Case, tid: TxnId): Case
    requires tid in c.pending
  {
    var rest := c.(pending := c.pending - {tid});
    match c.pending[tid]
    case Upload(slot, file) => rest.(rows := Attached(c.rows, slot, file))
    case Change(change) =>
      var team := LandedTeam(c.team, change);
      rest.(team := team, sys := c.sys.(leader := team.leader))
  }

  function AttachContext(c: Case, files: map<string, UploadedFile>): Context {
    Context(c.sys.call, c.sys.app.status, c.team.leader, c.team.members, files)
  }

  function NextCase(c: Case, step: CaseStep): Case {
    match step
    case RequestSubmit(id, actor, obstacle) =>
      c.(sys := Next(c.sys, Begin(id, actor, Submit(PackObstacle(c, obstacle)))))
    case BeginAttach(tid, user, dto, files) =>
      var check := AttachCheck(AttachContext(c, files), user, dto);
      if tid in c.pending || check.Err? then c
      else c.(pending := c.pending[tid := Upload(check.value, dto.file)])
    case BeginChange(tid, change) =>
      if tid in c.pending || change.Lock? || TeamCheck(c.team, change).Failed? then c
      else c.(pending := c.pending[tid := Change(change)])
    case Land(tid) => if tid in c.pending then Landed(c, tid) else c
    case LockTeam(now, overlaps) => c.(team := NextTeam(c.team, Lock(now, overlaps)))
    case Process(s) =>
      if !Allowed(s) then c
      else if !CommitsSubmit(c.sys, s) then c.(sys := Next(c.sys, s))
      else c.(sys := Next(c.sys, s), team := NextTeam(c.team, Lock(s.now, false)))
  }

  function RunCase(c: Case, steps: seq<CaseStep>): Case
    decreases |steps|
  {
    if steps == [] then c else RunCase(NextCase(c, steps[0]), steps[1..])
  }

  function NewCase(call: ProgramType, team: Team, required: seq<DocumentType>): Case {
    Case(Initial(call, team.leader), [], team, required, map[])
  }

  // ---------------------------------------------------------------- documents only accumulate

  /** An attachment never empties a slot. */
  lemma AttachmentKeepsActive(rows: seq<Document>, target: Slot, file: string, slot: Slot)
    requires HasActive(rows, slot)
    ensures HasActive(Attached(rows, target, file), slot)
  {
    var after := Attached(rows, target, file);
    var k :| 0 <= k < |rows| && rows[k].isActive && rows[k].slot == slot;
    if slot == target {
      assert after[|rows|].isActive && after[|rows|].slot == slot;
    } else {
      assert after[k] == rows[k];
    }
  }

  lemma StepKeepsActive(c: Case, step: CaseStep, slot: Slot)
    requires HasActive(c.rows, slot)
    ensures HasActive(NextCase(c, step).rows, slot)
  {
    if step.Land? && step.tid in c.pending && c.pending[step.tid].Upload? {
      var Upload(target, file) := c.pending[step.tid];
      AttachmentKeepsActive(c.rows, target, file, slot);
    }
  }

  ghost predicate ApplicationSlotsFilled(rows: seq<Document>, required: seq<DocumentType>) {
    forall t | t in required && t != CV :: HasActive(rows, Slot(t, ApplicationScope, None))
  }

  function CvSlot(m: UserId): Slot {
    Slot(CV, TeamMemberScope, Some(m))
  }

  /** A CV is required and some current member has none. */
  ghost predicate LacksCv(c: Case) {
    CV in c.required && exists m | m in c.team.members :: !HasActive(c.rows, CvSlot(m))
  }

  // ---------------------------------------------------------------- the invariant

  ghost predicate CaseInv(c: Case) {
    && Shaped(c.sys)
    && AllProducible(c.rows)
    && (forall t | t in c.pending :: WorkOk(c.pending[t]))
    && c.team.leader in c.team.members && c.sys.leader == c.team.leader
    && (c.sys.app.status != Draft ==> c.team.lockedAt.Some?)
    && (c.sys.call == ProgramA && SubmitInFlight(c.sys) ==> ApplicationSlotsFilled(c.rows, c.required))
  }

  predicate WorkOk(work: Work) {
    match work
    case Upload(slot, _) => Producible(slot)
    case Change(change) => !change.Lock?
  }

  lemma AdmittedPack(c: Case, actor: Actor, obstacle: Option<Error>)
    requires AllProducible(c.rows) && Admit(c.sys, actor, Submit(PackObstacle(c, obstacle))).Ok?
    ensures c.sys.call == ProgramA ==> PackComplete(c.rows, c.required, c.team.members)
  {
    if c.sys.call == ProgramA { ReportIsCompleteExactly(c.rows, c.required, c.team.members); }
  }

  lemma RequestKeepsCase(c: Case, id: TxnId, actor: Actor, obstacle: Option<Error>)
    requires CaseInv(c)
    ensures CaseInv(NextCase(c, RequestSubmit(id, actor, obstacle)))
  {
    StepKeepsShape(c.sys, Begin(id, actor, Submit(PackObstacle(c, obstacle))));
    if Admit(c.sys, actor, Submit(PackObstacle(c, obstacle))).Ok? { AdmittedPack(c, actor, obstacle); }
  }

  lemma LandedAttachmentKeepsCase(c: Case, tid: TxnId)
    requires CaseInv(c) && tid in c.pending && c.pending[tid].Upload?
    ensures CaseInv(Landed(c, tid))
  {
    var c' := Landed(c, tid);
    var Upload(slot, file) := c.pending[tid];
    assert AllProducible(c'.rows) by { assert WorkOk(c.pending[tid]); }
    if ApplicationSlotsFilled(c.rows, c.required) {
      forall t | t in c.required && t != CV ensures HasActive(c'.rows, Slot(t, ApplicationScope, None)) {
        AttachmentKeepsActive(c.rows, slot, file, Slot(t, ApplicationScope, None));
      }
    }
  }

  lemma LandedChangeKeepsCase(c: Case, tid: TxnId)
    requires CaseInv(c) && tid in c.pending && c.pending[tid].Change?
    ensures CaseInv(Landed(c, tid))
  {
    var change := c.pending[tid].change;
    LeaderStaysMember(c.team, change);
    LeaderStaysMember(c.team.(lockedAt := None), change);
    assert NextTeam(c.team, change).lockedAt == c.team.lockedAt by { assert WorkOk(c.pending[tid]); }
  }

  lemma NoNewSubmits(s: System, step: Step)
    requires Allowed(step) && SubmitInFlight(Next(s, step))
    ensures SubmitInFlight(s)
  {
    var id :| id in Next(s, step).inflight && Next(s, step).inflight[id] == SubmitWrite;
    assert id in s.inflight && s.inflight[id] == SubmitWrite;
  }

  /** Only the write of a submit leaves DRAFT, and nothing returns to it. */
  lemma DraftIsLeftBySubmit(s: System, step: Step)
    requires Shaped(s)
    ensures CommitsSubmit(s, step) ==> Next(s, step).app.status == Submitted
    ensures !CommitsSubmit(s, step) ==> (Next(s, step).app.status == Draft <==> s.app.status == Draft)
  {
    if step.Commit? && step.tid in s.inflight { assert TxnShape(s.inflight[step.tid]); }
  }

  lemma ProcessKeepsCase(c: Case, step: Step)
    requires CaseInv(c) && Allowed(step)
    ensures CaseInv(NextCase(c, Process(step)))
  {
    StepKeepsShape(c.sys, step);
    DraftIsLeftBySubmit(c.sys, step);
    if SubmitInFlight(Next(c.sys, step)) { NoNewSubmits(c.sys, step); }
    assert Next(c.sys, step).leader == c.sys.leader && Next(c.sys, step).call == c.sys.call;
  }

  lemma CaseStepKeeps(c: Case, step: CaseStep)
    requires CaseInv(c)
    ensures CaseInv(NextCase(c, step))
  {
    match step
    case RequestSubmit(id, actor, obstacle) => RequestKeepsCase(c, id, actor, obstacle);
    case Land(tid) =>
      if tid in c.pending {
        if c.pending[tid].Upload? { LandedAttachmentKeepsCase(c, tid); } else { LandedChangeKeepsCase(c, tid); }
      }
    case Process(s) => if Allowed(s) { ProcessKeepsCase(c, s); }
    case _ =>
  }

  lemma {:induction false} CaseRunKeeps(c: Case, steps: seq<CaseStep>)
    requires CaseInv(c)
    ensures CaseInv(RunCase(c, steps))
    decreases |steps|
  {
    if steps != [] {
      CaseStepKeeps(c, steps[0]);
      CaseRunKeeps(NextCase(c, steps[0]), steps[1..]);
    }
  }

  /** In every run the leader is a member, and an application that is no draft has its team locked. */
  lemma SubmittedIsLocked(call: ProgramType, team: Team, required: seq<DocumentType>, steps: seq<CaseStep>)
    requires team.leader in team.members
    ensures var c := RunCase(NewCase(call, team, required), steps);
            c.team.leader in c.team.members && (c.sys.app.status != Draft ==> c.team.lockedAt.Some?)
  {
    CaseRunKeeps(NewCase(call, team, required), steps);
  }

  // ---------------------------------------------------------------- frozen from submission on, exactly when

  ghost predicate SamePack(a: Case, b: Case) {
    a.rows == b.rows && a.team.leader == b.team.leader && a.team.members == b.team.members
    && a.required == b.required && a.sys.call == b.sys.call
  }

  /** The membership rows are not as the change wants them yet. */
  predicate ChangesMembers(t: Team, change: TeamStep) {
    match change
    case RemoveMember(actor, member) => t.leader == actor && member != t.leader && member in t.members
    case Leave(actor) => actor in t.members && actor != t.leader
    case Join(user, refused, lapsed) => refused.None? && lapsed.None? && user !in t.members
    case _ => false
  }

  /** An attachment, or a change of the members, lands on a submitted application. */
  predicate LandsLate(c: Case, step: CaseStep) {
    step.Land? && step.tid in c.pending && c.sys.app.status != Draft &&
    match c.pending[step.tid]
    case Upload(_, _) => true
    case Change(change) => ChangesMembers(c.team, change)
  }

  predicate NoneLandsLate(c: Case, steps: seq<CaseStep>)
    decreases |steps|
  {
    steps == [] || (!LandsLate(c, steps[0]) && NoneLandsLate(NextCase(c, steps[0]), steps[1..]))
  }

  /** At every point of the run: once the application is submitted, the next step leaves team and documents alone. */
  ghost predicate AlwaysFrozen(c: Case, steps: seq<CaseStep>)
    decreases |steps|
  {
    steps == [] ||
    ((c.sys.app.status != Draft ==> SamePack(c, NextCase(c, steps[0])))
     && AlwaysFrozen(NextCase(c, steps[0]), steps[1..]))
  }

  lemma LandedTeamExactly(t: Team, change: TeamStep)
    requires t.lockedAt.Some? && !change.Lock?
    ensures LandedTeam(t, change) == t <==> !ChangesMembers(t, change)
  {
    match change
    case RemoveMember(_, member) => WithoutRemoves(t.members, member);
    case Leave(actor) => WithoutRemoves(t.members, actor);
    case _ =>
  }

  lemma StepFreezesExactly(c: Case, step: CaseStep)
    requires CaseInv(c) && c.sys.app.status != Draft
    ensures SamePack(c, NextCase(c, step)) <==> !LandsLate(c, step)
  {
    match step
    case Land(tid) =>
      if tid in c.pending && c.pending[tid].Change? {
        assert WorkOk(c.pending[tid]);
        LandedTeamExactly(c.team, c.pending[tid].change);
      }
    case Process(s) => assert Allowed(s) ==> Next(c.sys, s).call == c.sys.call;
    case _ =>
  }

  lemma {:induction false} FrozenExactlyFrom(c: Case, steps: seq<CaseStep>)
    requires CaseInv(c)
    ensures AlwaysFrozen(c, steps) <==> NoneLandsLate(c, steps)
    decreases |steps|
  {
    if steps != [] {
      CaseStepKeeps(c, steps[0]);
      if c.sys.app.status != Draft { StepFreezesExactly(c, steps[0]); }
      FrozenExactlyFrom(NextCase(c, steps[0]), steps[1..]);
    }
  }

  /** From submission on, leader, members and documents stay as they are exactly when nothing lands late. */
  lemma SubmissionFreezesThePack(call: ProgramType, team: Team, required: seq<DocumentType>, steps: seq<CaseStep>)
    requires team.leader in team.members
    ensures var c := NewCase(call, team, required); AlwaysFrozen(c, steps) <==> NoneLandsLate(c, steps)
  {
    FrozenExactlyFrom(NewCase(call, team, required), steps);
  }

  // ---------------------------------------------------------------- submitted means complete, exactly when

  ghost predicate CompleteIfSubmitted(c: Case) {
    c.sys.app.status != Draft && c.sys.call == ProgramA ==> PackComplete(c.rows, c.required, c.team.members)
  }

  /** A draft is written as submitted although a current member's CV is missing. */
  ghost predicate IncompleteSubmit(c: Case, step: CaseStep) {
    step.Process? && CommitsSubmit(c.sys, step.step)
    && c.sys.app.status == Draft && c.sys.call == ProgramA && LacksCv(c)
  }

  /** A member without a CV joins a submitted application's team. */
  ghost predicate JoinsUncovered(c: Case, step: CaseStep) {
    LandsLate(c, step) && c.sys.call == ProgramA && CV in c.required &&
    c.pending[step.tid].Change? && c.pending[step.tid].change.Join?
    && !HasActive(c.rows, CvSlot(c.pending[step.tid].change.user))
  }

  ghost predicate NoneUncovers(c: Case, steps: seq<CaseStep>)
    decreases |steps|
  {
    steps == [] ||
    (!IncompleteSubmit(c, steps[0]) && !JoinsUncovered(c, steps[0]) && NoneUncovers(NextCase(c, steps[0]), steps[1..]))
  }

  ghost predicate AlwaysComplete(c: Case, steps: seq<CaseStep>)
    decreases |steps|
  {
    CompleteIfSubmitted(c) && (steps == [] || AlwaysComplete(NextCase(c, steps[0]), steps[1..]))
  }

  lemma SubmitWriteCompletesExactly(c: Case, step: Step)
    requires CaseInv(c) && CommitsSubmit(c.sys, step) && c.sys.app.status == Draft && c.sys.call == ProgramA
    ensures CompleteIfSubmitted(NextCase(c, Process(step))) <==> !LacksCv(c)
  {
    DraftIsLeftBySubmit(c.sys, step);
    assert SubmitInFlight(c.sys);
    var c' := NextCase(c, Process(step));
    assert c'.rows == c.rows && c'.required == c.required && c'.team.members == c.team.members;
    assert c'.sys.call == ProgramA;
    FilledUpToCvs(c);
  }

  lemma FilledUpToCvs(c: Case)
    requires ApplicationSlotsFilled(c.rows, c.required)
    ensures PackComplete(c.rows, c.required, c.team.members) <==> !LacksCv(c)
  {
    assert forall m | m in c.team.members :: CvSlot(m) == Slot(CV, TeamMemberScope, Some(m));
  }

  lemma LandedAttachmentStaysComplete(c: Case, tid: TxnId)
    requires tid in c.pending && c.pending[tid].Upload? && PackComplete(c.rows, c.required, c.team.members)
    ensures PackComplete(Landed(c, tid).rows, c.required, c.team.members)
  {
    var Upload(target, file) := c.pending[tid];
    forall slot | HasActive(c.rows, slot) ensures HasActive(Attached(c.rows, target, file), slot) {
      AttachmentKeepsActive(c.rows, target, file, slot);
    }
  }

  lemma FewerMembersStayComplete(rows: seq<Document>, required: seq<DocumentType>, members: seq<UserId>,
                                 fewer: seq<UserId>)
    requires PackComplete(rows, required, members) && forall m | m in fewer :: m in members
    ensures PackComplete(rows, required, fewer)
  {}

  lemma OneMoreMember(rows: seq<Document>, required: seq<DocumentType>, members: seq<UserId>, m: UserId)
    requires PackComplete(rows, required, members)
    ensures PackComplete(rows, required, members + [m]) <==> (CV in required ==> HasActive(rows, CvSlot(m)))
  {
    assert m in members + [m];
  }

  lemma LandedChangeCompletesExactly(c: Case, tid: TxnId)
    requires CaseInv(c) && tid in c.pending && c.pending[tid].Change? && c.sys.app.status != Draft
    requires c.sys.call == ProgramA && PackComplete(c.rows, c.required, c.team.members)
    ensures PackComplete(c.rows, c.required, Landed(c, tid).team.members) <==> !JoinsUncovered(c, Land(tid))
  {
    var change := c.pending[tid].change;
    assert WorkOk(c.pending[tid]);
    LandedTeamExactly(c.team, change);
    if ChangesMembers(c.team, change) {
      match change
      case RemoveMember(_, m) =>
        WithoutRemoves(c.team.members, m);
        FewerMembersStayComplete(c.rows, c.required, c.team.members, Without(c.team.members, m));
      case Leave(m) =>
        WithoutRemoves(c.team.members, m);
        FewerMembersStayComplete(c.rows, c.required, c.team.members, Without(c.team.members, m));
      case Join(m, _, _) => OneMoreMember(c.rows, c.required, c.team.members, m);
      case _ =>
    }
  }

  lemma SubmittedStepCompletesExactly(c: Case, step: CaseStep)
    requires CaseInv(c) && CompleteIfSubmitted(c) && c.sys.app.status != Draft && c.sys.call == ProgramA
    ensures CompleteIfSubmitted(NextCase(c, step)) <==> !JoinsUncovered(c, step)
  {
    if step.Land? && step.tid in c.pending {
      if c.pending[step.tid].Upload? {
        LandedAttachmentStaysComplete(c, step.tid);
      } else {
        LandedChangeCompletesExactly(c, step.tid);
      }
    } else {
      StepFreezesExactly(c, step);
    }
    assert NextCase(c, step).sys.app.status != Draft by { SubmittedStays(c, step); }
    assert NextCase(c, step).sys.call == ProgramA;
  }

  lemma SubmittedStays(c: Case, step: CaseStep)
    requires Shaped(c.sys) && c.sys.app.status != Draft
    ensures NextCase(c, step).sys.app.status != Draft
  {
    if step.Process? && Allowed(step.step) { DraftIsLeftBySubmit(c.sys, step.step); }
  }

  lemma DraftStepCompletesExactly(c: Case, step: CaseStep)
    requires CaseInv(c) && c.sys.app.status == Draft
    ensures CompleteIfSubmitted(NextCase(c, step)) <==> !IncompleteSubmit(c, step)
  {
    if step.Process? && CommitsSubmit(c.sys, step.step) && c.sys.call == ProgramA {
      SubmitWriteCompletesExactly(c, step.step);
    } else if step.Process? && Allowed(step.step) {
      DraftIsLeftBySubmit(c.sys, step.step);
      assert Next(c.sys, step.step).call == c.sys.call;
    }
  }

  lemma StepCompletesExactly(c: Case, step: CaseStep)
    requires CaseInv(c) && CompleteIfSubmitted(c)
    ensures CompleteIfSubmitted(NextCase(c, step)) <==> !IncompleteSubmit(c, step) && !JoinsUncovered(c, step)
  {
    if c.sys.app.status == Draft {
      DraftStepCompletesExactly(c, step);
    } else if c.sys.call == ProgramA {
      SubmittedStepCompletesExactly(c, step);
    } else if step.Process? && Allowed(step.step) {
      assert Next(c.sys, step.step).call == c.sys.call;
    }
  }

  lemma {:induction false} CompleteExactlyFrom(c: Case, steps: seq<CaseStep>)
    requires CaseInv(c) && CompleteIfSubmitted(c)
    ensures AlwaysComplete(c, steps) <==> NoneUncovers(c, steps)
    decreases |steps|
  {
    if steps != [] {
      CaseStepKeeps(c, steps[0]);
      StepCompletesExactly(c, steps[0]);
      if !IncompleteSubmit(c, steps[0]) && !JoinsUncovered(c, steps[0]) {
        CompleteExactlyFrom(NextCase(c, steps[0]), steps[1..]);
      }
    }
  }

  /**
   In any run, submitted Program A applications are document-complete at every point exactly when no
   submit is written over a missing CV and nobody without a CV joins late.
   */
  lemma SubmittedIsCompleteExactly(call: ProgramType, team: Team, required: seq<DocumentType>, steps: seq<CaseStep>)
    requires team.leader in team.members
    ensures var c := NewCase(call, team, required); AlwaysComplete(c, steps) <==> NoneUncovers(c, steps)
  {
    CompleteExactlyFrom(NewCase(call, team, required), steps);
  }

  lemma {:induction false} RunKeepsActive(c: Case, steps: seq<CaseStep>, slot: Slot)
    requires HasActive(c.rows, slot)
    ensures HasActive(RunCase(c, steps).rows, slot)
    decreases |steps|
  {
    if steps != [] {
      StepKeepsActive(c, steps[0], slot);
      RunKeepsActive(NextCase(c, steps[0]), steps[1..], slot);
    }
  }

  /** Whoever lacks a CV when a submit is written joined after the submit was read. */
  lemma OnlyNewcomersLackCv(c: Case, actor: Actor, obstacle: Option<Error>, between: seq<CaseStep>, m: UserId)
    requires CaseInv(c) && c.sys.call == ProgramA && CV in c.required
    requires Admit(c.sys, actor, Submit(PackObstacle(c, obstacle))).Ok?
    requires !HasActive(RunCase(c, between).rows, CvSlot(m))
    ensures m !in c.team.members
  {
    AdmittedPack(c, actor, obstacle);
    if m in c.team.members { RunKeepsActive(c, between, CvSlot(m)); }
  }

  // ---------------------------------------------------------------- it does happen

  lemma {:induction false} CaseInTwoParts(c: Case, a: seq<CaseStep>, b: seq<CaseStep>)
    ensures RunCase(c, a + b) == RunCase(RunCase(c, a), b)
    decreases |a|
  {
    if a == [] {
      assert a + b == b;
    } else {
      assert (a + b)[1..] == a[1..] + b;
      CaseInTwoParts(NextCase(c, a[0]), a[1..], b);
    }
  }

  lemma Then(c0: Case, steps: seq<CaseStep>, c: Case, step: CaseStep)
    requires RunCase(c0, steps) == c
    ensures RunCase(c0, steps + [step]) == NextCase(c, step)
  {
    CaseInTwoParts(c0, steps, [step]);
    assert [step][1..] == [];
    assert RunCase(c, [step]) == RunCase(NextCase(c, step), []);
  }

  const CV_FILE := map["f" := UploadedFile("l", true)]
  const CV_OF_LEADER := Attachment(CV, Some("l"), "f")

  function LoneCase(members: seq<UserId>, rows: seq<Document>, inflight: map<TxnId, Txn>,
                    pending: map<TxnId, Work>): Case {
    Case(Initial(ProgramA, "l").(inflight := inflight), rows, Team("l", members, None), [CV], pending)
  }

  const CV_ROWS := [Document(CvSlot("l"), 1, true, "f")]

  lemma LoneAttaches() returns (steps: seq<CaseStep>)
    ensures RunCase(LoneCase(["l"], [], map[], map[]), steps) == LoneCase(["l"], CV_ROWS, map[], map[])
  {
    var c0 := LoneCase(["l"], [], map[], map[]);
    var none: seq<CaseStep> := [];
    var begin := BeginAttach(0, "l", CV_OF_LEADER, CV_FILE);
    Then(c0, none, c0, begin);
    var c1 := LoneCase(["l"], [], map[], map[0 := Upload(CvSlot("l"), "f")]);
    assert NextCase(c0, begin) == c1;
    Then(c0, none + [begin], c1, Land(0));
    steps := none + [begin] + [Land(0)];
    assert Landed(c1, 0).pending == map[] && Landed(c1, 0).rows == CV_ROWS;
  }

  lemma LoneSubmitIsAdmitted()
    ensures NextCase(LoneCase(["l"], CV_ROWS, map[], map[]), RequestSubmit(0, Actor("l", Student), None))
         == LoneCase(["l"], CV_ROWS, map[0 := SubmitWrite], map[])
  {
    var c := LoneCase(["l"], CV_ROWS, map[], map[]);
    assert HasActive(c.rows, c.rows[0].slot);
    ReportIsCompleteExactly(c.rows, [CV], ["l"]);
  }

  lemma NewcomerJoins(inflight: map<TxnId, Txn>)
    ensures var c := LoneCase(["l"], CV_ROWS, inflight, map[]);
            NextCase(NextCase(c, BeginChange(0, Join("m", None, None))), Land(0))
            == LoneCase(["l", "m"], CV_ROWS, inflight, map[])
  {
    assert "l"[0] != "m"[0];
    var c := LoneCase(["l"], CV_ROWS, inflight, map[]);
    var c1 := NextCase(c, BeginChange(0, Join("m", None, None)));
    assert c1 == LoneCase(["l"], CV_ROWS, inflight, map[0 := Change(Join("m", None, None))]);
    assert c1.pending - {0} == map[];
  }

  lemma NewcomerLacksCv(c: Case)
    requires c.rows == CV_ROWS && c.required == [CV] && c.team.members == ["l", "m"]
    ensures !PackComplete(c.rows, c.required, c.team.members)
  {
    assert "l"[0] != "m"[0];
    assert !HasActive(c.rows, Slot(CV, TeamMemberScope, Some("m")));
    assert c.team.members[1] == "m" && c.required[0] == CV;
  }

  lemma JoinedInBetween() returns (steps: seq<CaseStep>)
    ensures RunCase(LoneCase(["l"], [], map[], map[]), steps)
         == LoneCase(["l", "m"], CV_ROWS, map[0 := SubmitWrite], map[])
  {
    var c0 := LoneCase(["l"], [], map[], map[]);
    steps := LoneAttaches();
    var request := RequestSubmit(0, Actor("l", Student), None);
    Then(c0, steps, LoneCase(["l"], CV_ROWS, map[], map[]), request);
    LoneSubmitIsAdmitted();
    steps := steps + [request];
    var c := LoneCase(["l"], CV_ROWS, map[0 := SubmitWrite], map[]);
    var begin := BeginChange(0, Join("m", None, None));
    Then(c0, steps, c, begin);
    Then(c0, steps + [begin], NextCase(c, begin), Land(0));
    NewcomerJoins(map[0 := SubmitWrite]);
    steps := steps + [begin] + [Land(0)];
  }

  lemma NewcomerIsSubmitted()
    ensures var c := LoneCase(["l", "m"], CV_ROWS, map[0 := SubmitWrite], map[]);
            !CompleteIfSubmitted(NextCase(c, Process(Commit(0, 1))))
  {
    var c := LoneCase(["l", "m"], CV_ROWS, map[0 := SubmitWrite], map[]);
    var c' := NextCase(c, Process(Commit(0, 1)));
    assert c'.sys.app.status == Submitted && c'.sys.call == ProgramA;
    NewcomerLacksCv(c');
  }

  /** A member who joins between the read and the write of a submit leaves it submitted without a CV. */
  lemma JoinDuringSubmit()
    ensures exists steps :: !CompleteIfSubmitted(RunCase(LoneCase(["l"], [], map[], map[]), steps))
  {
    var c0 := LoneCase(["l"], [], map[], map[]);
    var steps := JoinedInBetween();
    Then(c0, steps, LoneCase(["l", "m"], CV_ROWS, map[0 := SubmitWrite], map[]), Process(Commit(0, 1)));
    NewcomerIsSubmitted();
  }

  /** An attachment that read the draft replaces documents of the submitted application. */
  lemma LateAttachmentLands()
    ensures exists steps, last: CaseStep ::
              var c0 := NewCase(ProgramA, Team("l", ["l"], None), []);
              var c, c' := RunCase(c0, steps), RunCase(c0, steps + [last]);
              c.sys.app.status == c'.sys.app.status == Submitted && c.rows != c'.rows
  {
    var c0 := NewCase(ProgramA, Team("l", ["l"], None), []);
    var none: seq<CaseStep> := [];
    var attach := BeginAttach(0, "l", Attachment(Budget, None, "f"), CV_FILE);
    var request, write := RequestSubmit(0, Actor("l", Student), None), Process(Commit(0, 1));
    Then(c0, none, c0, attach);
    var c1 := c0.(pending := map[0 := Upload(Slot(Budget, ApplicationScope, None), "f")]);
    assert NextCase(c0, attach) == c1;
    Then(c0, none + [attach], c1, request);
    var c2 := c1.(sys := c1.sys.(inflight := map[0 := SubmitWrite]));
    NothingRequired(c1, request);
    Then(c0, none + [attach] + [request], c2, write);
    var steps, c3 := none + [attach] + [request] + [write], NextCase(c2, write);
    Then(c0, steps, c3, Land(0));
    assert c3.sys.app.status == Submitted && c3.rows == [] && c3.pending == c1.pending;
    assert |Landed(c3, 0).rows| == 1;
  }

  lemma NothingRequired(c: Case, request: CaseStep)
    requires request == RequestSubmit(0, Actor("l", Student), None)
    requires c.sys == Initial(ProgramA, "l") && c.required == []
    ensures NextCase(c, request) == c.(sys := c.sys.(inflight := map[0 := SubmitWrite]))
  {}
}
