/**
 All applications together: draft creation, and at most one open application per team and call.

 createDraft checks and inserts in one transaction of default isolation, so another request may
 insert in between. Every write is subject to the partial unique index over (teamId, callId) of rows
 that are neither REJECTED nor ARCHIVED: a violating insert or status change is refused and rolled back.
 */
module Registry {
  import opened Common
  import opened Workflow
  import opened WorkflowRuns
  import opened WorkflowTheorems

  datatype Row = Row(team: TeamId, call: CallId, sys: System)

  /** A draft whose checks have passed. */
  datatype DraftWrite = DraftWrite(team: TeamId, call: CallId, program: ProgramType, leader: UserId)

  datatype Registry = Registry(rows: map<AppId, Row>, drafts: map<TxnId, DraftWrite>)

  const EMPTY := Registry(map[], map[])

  predicate IsBusy(st: Status) {
    st !in {Draft, Rejected, Archived, Completed}
  }

  /** findActiveApplicationForTeam: drafts and finished applications are not counted. */
  predicate TeamIsBusy(rows: map<AppId, Row>, team: TeamId) {
    exists id | id in rows ::
      rows[id].team == team && IsBusy(rows[id].sys.app.status)
  }

  /** findActiveByTeamAndCall, and the condition of the unique index. */
  predicate PairIsTaken(rows: map<AppId, Row>, team: TeamId, call: CallId) {
    exists id | id in rows ::
      rows[id].team == team && rows[id].call == call && !IsClosed(rows[id].sys.app.status)
  }

  predicate PairIsHeldBesides(rows: map<AppId, Row>, id: AppId)
    requires id in rows
  {
    exists k | k in rows ::
      k != id && rows[k].team == rows[id].team && rows[k].call == rows[id].call && !IsClosed(rows[k].sys.app.status)
  }

  /** Storing `sys` under `id` violates the index. */
  predicate IsRefused(rows: map<AppId, Row>, id: AppId, sys: System)
    requires id in rows
  {
    !IsClosed(sys.app.status) && PairIsHeldBesides(rows, id)
  }

  /** The state of `id` after the step: a refused write is rolled back, and its transaction is over. */
  function AfterWork(rows: map<AppId, Row>, id: AppId, step: Step): System
    requires id in rows
  {
    var sys := Next(rows[id].sys, step);
    if IsRefused(rows, id, sys) then sys.(app := rows[id].sys.app) else sys
  }

  /** `obstacle` is what the checks on the call and on the team's existence and archival report. */
  function DraftCheck(r: Registry, w: DraftWrite, actor: Actor, obstacle: Option<Error>): Outcome {
    if obstacle.Some? then Failed(obstacle.value)
    else if TeamIsBusy(r.rows, w.team) then Failed(Conflict)
    else if w.leader != actor.id then Failed(Forbidden)
    else if PairIsTaken(r.rows, w.team, w.call) then Failed(Conflict)
    else Done
  }

  datatype RegistryStep =
    | BeginDraft(txn: TxnId, actor: Actor, draft: DraftWrite, obstacle: Option<Error>)
    | CommitDraft(tid: TxnId, id: AppId)
    | Work(app: AppId, step: Step)

  function NextRegistry(r: Registry, step: RegistryStep): Registry {
    match step
    case BeginDraft(t, actor, w, obstacle) =>
      if t in r.drafts || DraftCheck(r, w, actor, obstacle).Failed? then r
      else r.(drafts := r.drafts[t := w])
    case CommitDraft(t, id) =>
      if t !in r.drafts then r
      else
        var w := r.drafts[t];
        var rest := r.(drafts := r.drafts - {t});
        if id in r.rows || PairIsTaken(r.rows, w.team, w.call) then rest
        else rest.(rows := r.rows[id := Row(w.team, w.call, Initial(w.program, w.leader))])
    case Work(id, s) =>
      if id !in r.rows then r
      else r.(rows := r.rows[id := r.rows[id].(sys := AfterWork(r.rows, id, s))])
  }

  function RunRegistry(r: Registry, steps: seq<RegistryStep>): Registry
    decreases |steps|
  {
    if steps == [] then r else RunRegistry(NextRegistry(r, steps[0]), steps[1..])
  }

  predicate Clean(r: Registry, step: RegistryStep) {
    step.Work? && step.app in r.rows ==> !StaleSubmit(r.rows[step.app].sys, step.step)
  }

  predicate AllClean(r: Registry, steps: seq<RegistryStep>)
    decreases |steps|
  {
    steps == [] || (Clean(r, steps[0]) && AllClean(NextRegistry(r, steps[0]), steps[1..]))
  }

  ghost predicate SamePairOpen(rows: map<AppId, Row>, a: AppId, b: AppId)
    requires a in rows && b in rows
  {
    rows[a].team == rows[b].team && rows[a].call == rows[b].call
    && !IsClosed(rows[a].sys.app.status) && !IsClosed(rows[b].sys.app.status)
  }

  ghost predicate OneOpenPerPair(rows: map<AppId, Row>) {
    forall a, b | a in rows && b in rows && SamePairOpen(rows, a, b) :: a == b
  }

  // ---------------------------------------------------------------- who may create a draft

  /** Another application of the team is under way, or one of the same team and call is not closed. */
  ghost predicate Busy(rows: map<AppId, Row>, id: AppId, team: TeamId) {
    && id in rows && rows[id].team == team
    && rows[id].sys.app.status in {Submitted, FormallyVerified, Evaluating, NeedsInfo, Approved,
                                   Onboarding, ActiveProject, Paused}
  }

  lemma UnderWay(st: Status)
    ensures IsBusy(st) <==> st in {Submitted, FormallyVerified, Evaluating, NeedsInfo, Approved,
                                   Onboarding, ActiveProject, Paused}
  {
    match st
    case _ =>
  }

  ghost predicate HoldsPair(rows: map<AppId, Row>, id: AppId, team: TeamId, call: CallId) {
    id in rows && rows[id].team == team && rows[id].call == call && rows[id].sys.app.status !in {Rejected, Archived}
  }

  lemma TakenExactly(rows: map<AppId, Row>, team: TeamId, call: CallId)
    ensures TeamIsBusy(rows, team) <==> exists id :: Busy(rows, id, team)
    ensures PairIsTaken(rows, team, call) <==> exists id :: HoldsPair(rows, id, team, call)
  {
    forall id | id in rows ensures rows[id].team == team && IsBusy(rows[id].sys.app.status) <==> Busy(rows, id, team) {
      UnderWay(rows[id].sys.app.status);
    }
    forall id | id in rows
      ensures rows[id].team == team && rows[id].call == call && !IsClosed(rows[id].sys.app.status)
         <==> HoldsPair(rows, id, team, call)
    {}
  }

  /** The answers to createDraft, in the order of its checks. */
  lemma DraftAnswers(r: Registry, w: DraftWrite, actor: Actor, obstacle: Option<Error>)
    ensures var o := DraftCheck(r, w, actor, obstacle);
            var busy := exists id :: Busy(r.rows, id, w.team);
            var held := exists id :: HoldsPair(r.rows, id, w.team, w.call);
            && (obstacle.Some? ==> o == Failed(obstacle.value))
            && (obstacle.None? && busy ==> o == Failed(Conflict))
            && (obstacle.None? && !busy && actor.id != w.leader ==> o == Failed(Forbidden))
            && (obstacle.None? && !busy && actor.id == w.leader && held ==> o == Failed(Conflict))
            && (obstacle.None? && !busy && actor.id == w.leader && !held ==> o == Done)
  {
    TakenExactly(r.rows, w.team, w.call);
  }

  /** A checked request inserts an empty draft of its team and call, unless the pair was taken since. */
  lemma DraftDoes(r: Registry, t: TxnId, actor: Actor, w: DraftWrite, obstacle: Option<Error>,
                  later: Registry, id: AppId)
    requires t !in r.drafts && t in NextRegistry(r, BeginDraft(t, actor, w, obstacle)).drafts
    requires t in later.drafts && later.drafts[t] == NextRegistry(r, BeginDraft(t, actor, w, obstacle)).drafts[t]
    requires id !in later.rows
    ensures DraftCheck(r, w, actor, obstacle) == Done
    ensures NextRegistry(r, BeginDraft(t, actor, w, obstacle)).rows == r.rows
    ensures var after := NextRegistry(later, CommitDraft(t, id));
            && after.drafts == later.drafts - {t}
            && if exists k :: HoldsPair(later.rows, k, w.team, w.call) then after.rows == later.rows
               else
                 && after.rows.Keys == later.rows.Keys + {id}
                 && (forall k | k in later.rows :: after.rows[k] == later.rows[k])
                 && after.rows[id].team == w.team && after.rows[id].call == w.call
                 && after.rows[id].sys == System(Application(Draft, None, None, None, [], [], map[]),
                                                 w.program, w.leader, map[])
  {
    TakenExactly(later.rows, w.team, w.call);
  }

  // ---------------------------------------------------------------- one open application per team and call

  lemma AddRow(rows: map<AppId, Row>, id: AppId, row: Row)
    requires OneOpenPerPair(rows) && !PairIsTaken(rows, row.team, row.call)
    ensures OneOpenPerPair(rows[id := row])
  {
    var rows' := rows[id := row];
    forall a, b | a in rows' && b in rows' && SamePairOpen(rows', a, b) ensures a == b {
      if a != id && b != id { assert SamePairOpen(rows, a, b); }
    }
  }

  lemma ReplaceRow(rows: map<AppId, Row>, id: AppId, sys: System)
    requires OneOpenPerPair(rows) && id in rows
    requires IsRefused(rows, id, sys) ==> sys.app.status == rows[id].sys.app.status
    ensures OneOpenPerPair(rows[id := rows[id].(sys := sys)])
  {
    var rows' := rows[id := rows[id].(sys := sys)];
    forall a, b | a in rows' && b in rows' && SamePairOpen(rows', a, b) ensures a == b {
      if sys.app.status == rows[id].sys.app.status { assert SamePairOpen(rows, a, b); }
      if a != id && b != id { assert SamePairOpen(rows, a, b); }
    }
  }

  lemma StepKeepsPairs(r: Registry, step: RegistryStep)
    requires OneOpenPerPair(r.rows)
    ensures OneOpenPerPair(NextRegistry(r, step).rows)
  {
    match step
    case BeginDraft(_, _, _, _) =>
    case CommitDraft(t, id) =>
      if t in r.drafts && !PairIsTaken(r.rows, r.drafts[t].team, r.drafts[t].call) {
        var w := r.drafts[t];
        AddRow(r.rows, id, Row(w.team, w.call, Initial(w.program, w.leader)));
      }
    case Work(id, s) => if id in r.rows { ReplaceRow(r.rows, id, AfterWork(r.rows, id, s)); }
  }

  lemma {:induction false} RunKeepsPairs(r: Registry, steps: seq<RegistryStep>)
    requires OneOpenPerPair(r.rows)
    ensures OneOpenPerPair(RunRegistry(r, steps).rows)
    decreases |steps|
  {
    if steps != [] {
      StepKeepsPairs(r, steps[0]);
      RunKeepsPairs(NextRegistry(r, steps[0]), steps[1..]);
    }
  }

  /** In every run at most one application per team and call is neither REJECTED nor ARCHIVED. */
  lemma OneOpenApplicationPerTeamAndCall(steps: seq<RegistryStep>)
    ensures OneOpenPerPair(RunRegistry(EMPTY, steps).rows)
  {
    RunKeepsPairs(EMPTY, steps);
  }

  // ---------------------------------------------------------------- the index is not needed for work

  ghost predicate AllInv(rows: map<AppId, Row>) {
    forall id | id in rows :: Inv(rows[id].sys)
  }

  lemma CleanWork(s: System, step: Step)
    requires Inv(s) && !StaleSubmit(s, step)
    ensures Inv(Next(s, step))
    ensures IsClosed(s.app.status) ==> IsClosed(Next(s, step).app.status)
  {
    StepKeeps(s, step);
    StepIsLater(s, step);
  }

  /** A closed application stays closed, so only an open one is written as open, and it is the only one. */
  lemma CleanWorkIsAccepted(rows: map<AppId, Row>, id: AppId, step: Step)
    requires OneOpenPerPair(rows) && id in rows && Inv(rows[id].sys) && !StaleSubmit(rows[id].sys, step)
    ensures !IsRefused(rows, id, Next(rows[id].sys, step))
    ensures Inv(AfterWork(rows, id, step))
  {
    CleanWork(rows[id].sys, step);
    if !IsClosed(Next(rows[id].sys, step).app.status) && PairIsHeldBesides(rows, id) {
      var k :| k in rows && k != id && rows[k].team == rows[id].team && rows[k].call == rows[id].call
               && !IsClosed(rows[k].sys.app.status);
      assert SamePairOpen(rows, id, k);
    }
  }

  lemma ReplaceKeepsInv(rows: map<AppId, Row>, id: AppId, sys: System)
    requires id in rows && Inv(sys) && AllInv(rows)
    ensures AllInv(rows[id := rows[id].(sys := sys)])
  {}

  lemma NewDraftKeepsInv(rows: map<AppId, Row>, id: AppId, w: DraftWrite)
    requires AllInv(rows)
    ensures AllInv(rows[id := Row(w.team, w.call, Initial(w.program, w.leader))])
  {
    InitialInv(w.program, w.leader);
  }

  lemma CleanStepKeepsInv(r: Registry, step: RegistryStep)
    requires OneOpenPerPair(r.rows) && AllInv(r.rows) && Clean(r, step)
    ensures AllInv(NextRegistry(r, step).rows)
  {
    match step
    case BeginDraft(_, _, _, _) =>
    case CommitDraft(t, id) => if t in r.drafts { NewDraftKeepsInv(r.rows, id, r.drafts[t]); }
    case Work(id, s) =>
      if id in r.rows {
        CleanWorkIsAccepted(r.rows, id, s);
        ReplaceKeepsInv(r.rows, id, AfterWork(r.rows, id, s));
      }
  }

  lemma {:induction false} CleanRunKeepsInv(r: Registry, steps: seq<RegistryStep>)
    requires OneOpenPerPair(r.rows) && AllInv(r.rows) && AllClean(r, steps)
    ensures OneOpenPerPair(RunRegistry(r, steps).rows) && AllInv(RunRegistry(r, steps).rows)
    decreases |steps|
  {
    if steps != [] {
      StepKeepsPairs(r, steps[0]);
      CleanStepKeepsInv(r, steps[0]);
      CleanRunKeepsInv(NextRegistry(r, steps[0]), steps[1..]);
    }
  }

  /** Without stale submits no status change ever meets the unique index. */
  lemma IndexNeverRefusesWork(steps: seq<RegistryStep>, id: AppId, step: Step)
    requires AllClean(EMPTY, steps) && Clean(RunRegistry(EMPTY, steps), Work(id, step))
    requires id in RunRegistry(EMPTY, steps).rows
    ensures var rows := RunRegistry(EMPTY, steps).rows; !IsRefused(rows, id, Next(rows[id].sys, step))
  {
    CleanRunKeepsInv(EMPTY, steps);
    CleanWorkIsAccepted(RunRegistry(EMPTY, steps).rows, id, step);
  }

  // ---------------------------------------------------------------- one busy application per team, exactly when

  ghost predicate SameTeamBusy(rows: map<AppId, Row>, a: AppId, b: AppId)
    requires a in rows && b in rows
  {
    rows[a].team == rows[b].team && IsBusy(rows[a].sys.app.status) && IsBusy(rows[b].sys.app.status)
  }

  /** What createDraft checks for: no team has two applications under way. */
  ghost predicate OneBusyPerTeam(rows: map<AppId, Row>) {
    forall a, b | a in rows && b in rows && SameTeamBusy(rows, a, b) :: a == b
  }

  predicate TeamIsBusyBesides(rows: map<AppId, Row>, id: AppId)
    requires id in rows
  {
    exists k | k in rows :: k != id && rows[k].team == rows[id].team && IsBusy(rows[k].sys.app.status)
  }

  /** A submit is written while the team is busy with another application: the check that submit omits. */
  predicate CrowdingSubmit(r: Registry, step: RegistryStep) {
    step.Work? && step.app in r.rows && CommitsSubmit(r.rows[step.app].sys, step.step)
    && TeamIsBusyBesides(r.rows, step.app) && !PairIsHeldBesides(r.rows, step.app)
  }

  predicate NoCrowding(r: Registry, steps: seq<RegistryStep>)
    decreases |steps|
  {
    steps == [] || (!CrowdingSubmit(r, steps[0]) && NoCrowding(NextRegistry(r, steps[0]), steps[1..]))
  }

  ghost predicate AlwaysOneBusy(r: Registry, steps: seq<RegistryStep>)
    decreases |steps|
  {
    OneBusyPerTeam(r.rows) && (steps == [] || AlwaysOneBusy(NextRegistry(r, steps[0]), steps[1..]))
  }

  ghost predicate AllShaped(rows: map<AppId, Row>) {
    forall id | id in rows :: Shaped(rows[id].sys)
  }

  lemma MovesStayBusy(k: Kind, from: Status)
    requires from in Froms(k)
    ensures IsBusy(Target(k)) ==> IsBusy(from)
  {}

  /** Only submit makes an application busy. */
  lemma OnlySubmitBusies(s: System, step: Step)
    requires Shaped(s) && !IsBusy(s.app.status) && !CommitsSubmit(s, step)
    ensures !IsBusy(Next(s, step).app.status)
  {
    if step.Commit? && step.tid in s.inflight {
      var txn := s.inflight[step.tid];
      assert TxnShape(txn);
      if txn.Move? { MovesStayBusy(txn.kind, txn.from); }
    }
  }

  lemma StepKeepsShapes(r: Registry, step: RegistryStep)
    requires AllShaped(r.rows)
    ensures AllShaped(NextRegistry(r, step).rows)
  {
    if step.Work? && step.app in r.rows {
      StepKeepsShape(r.rows[step.app].sys, step.step);
      assert Shaped(AfterWork(r.rows, step.app, step.step));
    }
  }

  lemma NotBusierThanBefore(rows: map<AppId, Row>, id: AppId, row: Row)
    requires OneBusyPerTeam(rows)
    requires IsBusy(row.sys.app.status) ==>
               && id in rows && row.team == rows[id].team
               && (IsBusy(rows[id].sys.app.status) || !TeamIsBusyBesides(rows, id))
    ensures OneBusyPerTeam(rows[id := row])
  {
    var rows' := rows[id := row];
    forall a, b | a in rows' && b in rows' && SameTeamBusy(rows', a, b) ensures a == b {
      if a != id && b != id { assert SameTeamBusy(rows, a, b); }
      if IsBusy(row.sys.app.status) && IsBusy(rows[id].sys.app.status) { assert SameTeamBusy(rows, a, b); }
    }
  }

  lemma CrowdingSubmitCrowds(r: Registry, step: RegistryStep)
    requires CrowdingSubmit(r, step)
    ensures !OneBusyPerTeam(NextRegistry(r, step).rows)
  {
    var id, rows := step.app, NextRegistry(r, step).rows;
    var k :| k in r.rows && k != id && r.rows[k].team == r.rows[id].team && IsBusy(r.rows[k].sys.app.status);
    assert Next(r.rows[id].sys, step.step).app.status == Submitted;
    assert rows[k] == r.rows[k] && SameTeamBusy(rows, id, k);
  }

  lemma StepKeepsOneBusyExactly(r: Registry, step: RegistryStep)
    requires OneBusyPerTeam(r.rows) && AllShaped(r.rows)
    ensures OneBusyPerTeam(NextRegistry(r, step).rows) <==> !CrowdingSubmit(r, step)
  {
    if CrowdingSubmit(r, step) {
      CrowdingSubmitCrowds(r, step);
    } else {
      match step
      case BeginDraft(_, _, _, _) =>
      case CommitDraft(t, id) =>
        if t in r.drafts {
          var w := r.drafts[t];
          NotBusierThanBefore(r.rows, id, Row(w.team, w.call, Initial(w.program, w.leader)));
        }
      case Work(id, s) => if id in r.rows { WorkKeepsOneBusy(r, id, s); }
    }
  }

  lemma WorkKeepsOneBusy(r: Registry, id: AppId, step: Step)
    requires OneBusyPerTeam(r.rows) && AllShaped(r.rows) && id in r.rows && !CrowdingSubmit(r, Work(id, step))
    ensures OneBusyPerTeam(NextRegistry(r, Work(id, step)).rows)
  {
    var before, after := r.rows[id].sys, AfterWork(r.rows, id, step);
    if !IsBusy(before.app.status) {
      if !CommitsSubmit(before, step) {
        OnlySubmitBusies(before, step);
      } else {
        assert Next(before, step).app.status == Submitted;
        assert PairIsHeldBesides(r.rows, id) ==> after.app == before.app;
      }
    }
    NotBusierThanBefore(r.rows, id, r.rows[id].(sys := after));
  }

  lemma {:induction false} OneBusyExactlyFrom(r: Registry, steps: seq<RegistryStep>)
    requires OneBusyPerTeam(r.rows) && AllShaped(r.rows)
    ensures AlwaysOneBusy(r, steps) <==> NoCrowding(r, steps)
    decreases |steps|
  {
    if steps != [] {
      StepKeepsOneBusyExactly(r, steps[0]);
      StepKeepsShapes(r, steps[0]);
      if !CrowdingSubmit(r, steps[0]) { OneBusyExactlyFrom(NextRegistry(r, steps[0]), steps[1..]); }
    }
  }

  /** In any run, no team ever has two applications under way exactly when no submit is written beside another. */
  lemma OneBusyApplicationPerTeamExactly(steps: seq<RegistryStep>)
    ensures AlwaysOneBusy(EMPTY, steps) <==> NoCrowding(EMPTY, steps)
  {
    OneBusyExactlyFrom(EMPTY, steps);
  }

  // ---------------------------------------------------------------- a team with two

  lemma AddDraft(r: Registry, id: AppId, w: DraftWrite, lead: Actor)
    requires r.drafts == map[] && DraftCheck(r, w, lead, None) == Done && id !in r.rows
    ensures var steps := [BeginDraft(0, lead, w, None), CommitDraft(0, id)];
            && RunRegistry(r, steps) == r.(rows := r.rows[id := Row(w.team, w.call, Initial(w.program, w.leader))])
            && AllClean(r, steps)
  {
    var steps := [BeginDraft(0, lead, w, None), CommitDraft(0, id)];
    var r1 := NextRegistry(r, steps[0]);
    assert r1 == r.(drafts := map[0 := w]);
    assert r1.drafts - {0} == map[];
    var r2 := NextRegistry(r1, steps[1]);
    assert steps[1..] == [steps[1]] && steps[1..][1..] == [];
    assert RunRegistry(r1, steps[1..]) == RunRegistry(r2, []) == r2;
  }

  lemma SubmitDraft(r: Registry, id: AppId, lead: Actor)
    requires id in r.rows && r.rows[id].sys == Initial(ProgramB, lead.id) && !PairIsHeldBesides(r.rows, id)
    ensures var steps := [Work(id, Begin(0, lead, Submit(None))), Work(id, Commit(0, 1))];
            var r' := RunRegistry(r, steps);
            && AllClean(r, steps) && r'.drafts == r.drafts && r'.rows.Keys == r.rows.Keys
            && r'.rows[id].team == r.rows[id].team && r'.rows[id].call == r.rows[id].call
            && r'.rows[id].sys.app.status == Submitted
            && forall x | x in r.rows && x != id :: r'.rows[x] == r.rows[x]
  {
    var steps := [Work(id, Begin(0, lead, Submit(None))), Work(id, Commit(0, 1))];
    var r1 := NextRegistry(r, steps[0]);
    var r2 := NextRegistry(r1, steps[1]);
    assert steps[1..] == [steps[1]] && steps[1..][1..] == [];
    assert RunRegistry(r1, steps[1..]) == RunRegistry(r2, []) == r2;
  }

  lemma {:induction false} InTwoParts(r: Registry, a: seq<RegistryStep>, b: seq<RegistryStep>)
    ensures RunRegistry(r, a + b) == RunRegistry(RunRegistry(r, a), b)
    ensures AllClean(r, a + b) <==> AllClean(r, a) && AllClean(RunRegistry(r, a), b)
    decreases |a|
  {
    if a == [] {
      assert a + b == b;
    } else {
      assert (a + b)[1..] == a[1..] + b;
      InTwoParts(NextRegistry(r, a[0]), a[1..], b);
    }
  }

  lemma BothDrafted(lead: Actor)
    ensures var steps := [BeginDraft(0, lead, DraftWrite("t", "c", ProgramB, lead.id), None), CommitDraft(0, "a")]
                         + [BeginDraft(0, lead, DraftWrite("t", "d", ProgramB, lead.id), None), CommitDraft(0, "b")];
            && RunRegistry(EMPTY, steps) == Registry(map["a" := Row("t", "c", Initial(ProgramB, lead.id)),
                                                         "b" := Row("t", "d", Initial(ProgramB, lead.id))], map[])
            && AllClean(EMPTY, steps)
  {
    var w1, w2 := DraftWrite("t", "c", ProgramB, lead.id), DraftWrite("t", "d", ProgramB, lead.id);
    var p1 := [BeginDraft(0, lead, w1, None), CommitDraft(0, "a")];
    var p2 := [BeginDraft(0, lead, w2, None), CommitDraft(0, "b")];
    AddDraft(EMPTY, "a", w1, lead);
    var r1 := RunRegistry(EMPTY, p1);
    assert r1.rows == map["a" := Row("t", "c", Initial(ProgramB, lead.id))];
    assert !PairIsTaken(r1.rows, "t", "d") by { assert "c"[0] != "d"[0]; }
    AddDraft(r1, "b", w2, lead);
    InTwoParts(EMPTY, p1, p2);
  }

  function SubmitBoth(lead: Actor): seq<RegistryStep> {
    [Work("a", Begin(0, lead, Submit(None))), Work("a", Commit(0, 1))]
    + [Work("b", Begin(0, lead, Submit(None))), Work("b", Commit(0, 1))]
  }

  ghost predicate TwoDrafts(r: Registry, lead: Actor) {
    && r.rows.Keys == {"a", "b"} && r.rows["a"].call != r.rows["b"].call
    && r.rows["a"].sys == r.rows["b"].sys == Initial(ProgramB, lead.id)
  }

  lemma FirstSubmitted(lead: Actor, r: Registry)
    requires TwoDrafts(r, lead)
    ensures var steps := SubmitBoth(lead)[..2];
            var r' := RunRegistry(r, steps);
            && AllClean(r, steps) && r'.rows.Keys == {"a", "b"} && r'.rows["b"] == r.rows["b"]
            && r'.rows["a"].sys.app.status == Submitted
            && r'.rows["a"].team == r.rows["a"].team && r'.rows["a"].call == r.rows["a"].call
  {
    assert "a"[0] != "b"[0];
    SubmitDraft(r, "a", lead);
    assert SubmitBoth(lead)[..2] == [Work("a", Begin(0, lead, Submit(None))), Work("a", Commit(0, 1))];
  }

  lemma SecondSubmitted(lead: Actor, r: Registry)
    requires r.rows.Keys == {"a", "b"} && r.rows["a"].call != r.rows["b"].call
    requires r.rows["b"].sys == Initial(ProgramB, lead.id)
    ensures var steps := SubmitBoth(lead)[2..];
            var r' := RunRegistry(r, steps);
            && AllClean(r, steps) && r'.rows.Keys == {"a", "b"} && r'.rows["a"] == r.rows["a"]
            && r'.rows["b"].sys.app.status == Submitted && r'.rows["b"].team == r.rows["b"].team
  {
    assert "a"[0] != "b"[0];
    SubmitDraft(r, "b", lead);
    assert SubmitBoth(lead)[2..] == [Work("b", Begin(0, lead, Submit(None))), Work("b", Commit(0, 1))];
  }

  lemma BothSubmitted(lead: Actor, r: Registry)
    requires TwoDrafts(r, lead)
    ensures AllClean(r, SubmitBoth(lead))
    ensures var rows := RunRegistry(r, SubmitBoth(lead)).rows;
            && rows.Keys == {"a", "b"} && rows["a"].team == r.rows["a"].team && rows["b"].team == r.rows["b"].team
            && rows["a"].sys.app.status == rows["b"].sys.app.status == Submitted
  {
    var steps := SubmitBoth(lead);
    FirstSubmitted(lead, r);
    SecondSubmitted(lead, RunRegistry(r, steps[..2]));
    InTwoParts(r, steps[..2], steps[2..]);
    assert steps == steps[..2] + steps[2..];
  }

  /** A crowding submit does happen: a leader may hold drafts for two calls and submit both. */
  lemma TeamMayHaveTwoOpenApplications(lead: Actor)
    ensures exists steps: seq<RegistryStep> ::
              && AllClean(EMPTY, steps)
              && var rows := RunRegistry(EMPTY, steps).rows;
              && "a" in rows && "b" in rows
              && rows["a"].team == rows["b"].team
              && rows["a"].sys.app.status == rows["b"].sys.app.status == Submitted
  {
    BothDrafted(lead);
    var p1 := [BeginDraft(0, lead, DraftWrite("t", "c", ProgramB, lead.id), None), CommitDraft(0, "a")]
              + [BeginDraft(0, lead, DraftWrite("t", "d", ProgramB, lead.id), None), CommitDraft(0, "b")];
    var r1 := RunRegistry(EMPTY, p1);
    assert "a"[0] != "b"[0];
    BothSubmitted(lead, r1);
    InTwoParts(EMPTY, p1, SubmitBoth(lead));
    assert AllClean(EMPTY, p1 + SubmitBoth(lead));
  }
}
