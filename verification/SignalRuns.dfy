/**
 The signal cache under overlapping requests. A refresh reads the members, their profiles, the rules
 and the stored signals, and later writes the signals it found different; a membership change and the
 refresh of its team become visible together; a profile is written first, and then the applications
 it concerns are refreshed one by one.
 */
module SignalRuns {
  import opened Common
  import opened Teams
  import opened Signals
  import W = Workflow

  datatype Change = Change(team: TeamId, step: TeamStep)

  /** A refresh that has read: what it read, what it will write, and the change or the profile write it belongs to. */
  datatype Job = Job(readings: map<AppId, Reading>, writes: Cache, change: Option<Change>, due: Option<TxnId>)

  /** A profile that was written, and the applications that still wait for their refresh. */
  datatype Due = Due(user: UserId, ids: set<AppId>)

  datatype Board = Board(world: World, cache: Cache, jobs: map<TxnId, Job>, dues: map<TxnId, Due>)

  datatype BoardStep =
    | NewTeam(created: TeamId, creator: UserId)
    | NewDraft(id: AppId, team: TeamId, call: CallId)
    | SetStatus(app: AppId, status: W.Status)
    | LockTeam(locked: TeamId, now: Time, overlaps: bool)
    | SetRules(ruled: CallId, rules: map<Code, Threshold>) // creating or updating a call refreshes nothing
    | BeginRefresh(tid: TxnId, target: AppId) // submit, or reading the signals
    | BeginChange(tid: TxnId, group: TeamId, change: TeamStep)
    | WriteProfile(tid: TxnId, user: UserId, profile: Profile)
    | BeginStudent(tid: TxnId, request: TxnId, waiting: AppId) // after the profile write of that request
    | Land(tid: TxnId)

  function Cells(ids: set<AppId>): set<(AppId, Code)> {
    set id, code | id in ids && code in CODES :: (id, code)
  }

  lemma AllCells(ids: set<AppId>, id: AppId, code: Code)
    ensures (id, code) in Cells(ids) <==> id in ids
  {
    AllCodes(code);
  }

  /** The read of a refresh of these applications. */
  function JobFor(cache: Cache, w: World, ids: set<AppId>, change: Option<Change>, due: Option<TxnId>): Job
    requires ids <= w.apps.Keys
  {
    Job(map id | id in ids :: ReadingOf(w, id),
        map k | k in Cells(ids) && NeedsWrite(cache, w, k.0, k.1) :: Current(w, k.0, k.1),
        change, due)
  }

  function WithTeam(w: World, id: TeamId, team: Team): World {
    w.(teams := w.teams[id := team])
  }

  /** The world once the change is visible. */
  function LandedWorld(w: World, change: Option<Change>): World {
    if change.None? || change.value.team !in w.teams then w
    else WithTeam(w, change.value.team, LandedTeam(w.teams[change.value.team], change.value.step))
  }

  /** A change that no longer applies fails, and its refresh with it. */
  predicate Fails(w: World, change: Option<Change>) {
    change.Some? && (change.value.team !in w.teams || !StillApplies(w.teams[change.value.team], change.value.step))
  }

  function Leaver(change: Option<Change>): Option<UserId> {
    if change.None? then None
    else
      match change.value.step
      case RemoveMember(_, member) => Some(member)
      case Leave(actor) => Some(actor)
      case _ => None
  }

  /** Who leaves a team is no reason any more to refresh its applications, and what was refreshed waits no more. */
  function DueAfter(w: World, t: TxnId, due: Due, job: Job): Due {
    due.(ids := set id | id in due.ids
                         && !(job.due == Some(t) && id in job.readings)
                         && !(Leaver(job.change) == Some(due.user)
                              && id in w.apps && w.apps[id].team == job.change.value.team))
  }

  function LandedDues(b: Board, tid: TxnId): map<TxnId, Due>
    requires tid in b.jobs
  {
    map t | t in b.dues :: DueAfter(b.world, t, b.dues[t], b.jobs[tid])
  }

  function Landed(b: Board, tid: TxnId): Board
    requires tid in b.jobs
  {
    var job := b.jobs[tid];
    Board(LandedWorld(b.world, job.change), b.cache + job.writes, b.jobs - {tid}, LandedDues(b, tid))
  }

  predicate IsPlain(step: BoardStep) {
    step.NewTeam? || step.NewDraft? || step.SetStatus? || step.LockTeam? || step.SetRules?
  }

  /** The steps that read no signals and write none. */
  function PlainWorld(w: World, step: BoardStep): World
    requires IsPlain(step)
  {
    match step
    case NewTeam(team, creator) =>
      if team in w.teams then w else WithTeam(w, team, Team(creator, [creator], None))
    case NewDraft(id, team, call) =>
      if id in w.apps || team !in w.teams then w else w.(apps := w.apps[id := AppRow(team, call, W.Draft)])
    case SetStatus(id, status) =>
      if id !in w.apps || !IsActive(w.apps[id]) then w
      else w.(apps := w.apps[id := w.apps[id].(status := status)])
    case LockTeam(team, now, overlaps) =>
      if team !in w.teams then w else WithTeam(w, team, NextTeam(w.teams[team], Lock(now, overlaps)))
    case SetRules(call, rules) => w.(configs := w.configs[call := rules])
  }

  function NextBoard(b: Board, step: BoardStep): Board {
    var w := b.world;
    match step
    case BeginRefresh(tid, id) =>
      if tid in b.jobs || id !in w.apps then b
      else b.(jobs := b.jobs[tid := JobFor(b.cache, w, {id}, None, None)])
    case BeginChange(tid, team, change) =>
      if tid in b.jobs || change.Lock? || MembershipCheck(w.teams, team, change).Failed? then b
      else
        var seen := WithTeam(w, team, NextTeam(w.teams[team], change));
        b.(jobs := b.jobs[tid := JobFor(b.cache, seen, TeamApps(seen, team), Some(Change(team, change)), None)])
    case WriteProfile(tid, user, profile) =>
      if tid in b.dues then b
      else b.(world := w.(profiles := w.profiles[user := profile]),
              dues := b.dues[tid := Due(user, StudentApps(w, user))])
    case BeginStudent(tid, request, id) =>
      if tid in b.jobs || request !in b.dues || id !in b.dues[request].ids || id !in w.apps then b
      else b.(jobs := b.jobs[tid := JobFor(b.cache, w, {id}, None, Some(request))])
    case Land(tid) =>
      if tid !in b.jobs then b
      else if Fails(w, b.jobs[tid].change) then b.(jobs := b.jobs - {tid})
      else Landed(b, tid)
    case _ => b.(world := PlainWorld(w, step))
  }

  function RunBoard(b: Board, steps: seq<BoardStep>): Board
    decreases |steps|
  {
    if steps == [] then b else RunBoard(NextBoard(b, steps[0]), steps[1..])
  }

  // ---------------------------------------------------------------- never stale

  ghost predicate Untouched(cache: Cache, id: AppId) {
    forall code :: (id, code) !in cache
  }

  predicate HasDue(b: Board, id: AppId) {
    exists t | t in b.dues :: id in b.dues[t].ids
  }

  ghost predicate AppOk(b: Board, id: AppId)
    requires id in b.world.apps
  {
    IsActive(b.world.apps[id]) ==> Untouched(b.cache, id) || IsFresh(b.cache, b.world, id) || HasDue(b, id)
  }

  /** Every active application has no signals yet, the current ones, or waits for the refresh of a written profile. */
  ghost predicate NeverStale(b: Board) {
    forall id | id in b.world.apps :: AppOk(b, id)
  }

  ghost predicate AlwaysNeverStale(b: Board, steps: seq<BoardStep>)
    decreases |steps|
  {
    NeverStale(b) && (steps == [] || AlwaysNeverStale(NextBoard(b, steps[0]), steps[1..]))
  }

  // ---------------------------------------------------------------- what leaves signals behind

  /** New rules move a limit across a number of a team whose signals for this call are stored and settled. */
  predicate RulesOutdate(b: Board, step: BoardStep) {
    step.SetRules? &&
    exists id, code | id in b.world.apps && code in CODES ::
      && b.world.apps[id].call == step.ruled && IsActive(b.world.apps[id]) && !HasDue(b, id) && (id, code) in b.cache
      && var r := ReadingOf(b.world, id);
         RulesMatter(r.members, r.profiles, r.rules, step.rules)
  }

  /** The application is refreshed, or is one of the team that changes. */
  predicate Concerned(b: Board, job: Job, id: AppId)
    requires id in b.world.apps
  {
    id in job.readings || (job.change.Some? && b.world.apps[id].team == job.change.value.team)
  }

  predicate DueThen(b: Board, tid: TxnId, id: AppId)
    requires tid in b.jobs
  {
    var dues := LandedDues(b, tid);
    exists t | t in dues :: id in dues[t].ids
  }

  /** What the refresh computed from its reading is not what the same reading gives when it lands. */
  predicate WritesOutdated(b: Board, job: Job, id: AppId, code: Code)
    requires id in b.world.apps
  {
    id in job.readings && (id, code) in job.writes
    && SignalOf(job.readings[id], code) != Current(LandedWorld(b.world, job.change), id, code)
  }

  /**
   It leaves a stored signal alone although its change gives the application another one; or, where a
   profile's refresh was awaited until now, although the stored one is not what is read now.
   */
  predicate LeavesOutdated(b: Board, job: Job, id: AppId, code: Code)
    requires id in b.world.apps
  {
    (id, code) !in job.writes && (id, code) in b.cache
    && (if HasDue(b, id) then b.cache[(id, code)] else Current(b.world, id, code))
       != Current(LandedWorld(b.world, job.change), id, code)
  }

  predicate LandsOutdated(b: Board, step: BoardStep) {
    step.Land? && step.tid in b.jobs && !Fails(b.world, b.jobs[step.tid].change) &&
    var job := b.jobs[step.tid];
    exists id, code | id in b.world.apps && code in CODES ::
      && IsActive(b.world.apps[id]) && Concerned(b, job, id) && !DueThen(b, step.tid, id)
      && (WritesOutdated(b, job, id, code) || LeavesOutdated(b, job, id, code))
  }

  predicate NoneOutdates(b: Board, steps: seq<BoardStep>)
    decreases |steps|
  {
    steps == [] ||
    (!RulesOutdate(b, steps[0]) && !LandsOutdated(b, steps[0]) && NoneOutdates(NextBoard(b, steps[0]), steps[1..]))
  }

  // ---------------------------------------------------------------- the invariant

  ghost predicate JobOk(b: Board, job: Job) {
    && job.readings.Keys <= b.world.apps.Keys
    && (forall k | k in job.writes :: k.0 in job.readings && job.writes[k] == SignalOf(job.readings[k.0], k.1))
    && (forall id, code | id in job.readings :: (id, code) in job.writes || (id, code) in b.cache)
    && (job.change.Some? ==> job.change.value.team in b.world.teams && !job.change.value.step.Lock?)
  }

  ghost predicate DueOk(b: Board, due: Due) {
    forall id | id in due.ids ::
      id in b.world.apps && due.user in Members(b.world, b.world.apps[id].team)
  }

  ghost predicate BoardInv(b: Board) {
    && (forall k | k in b.cache :: k.0 in b.world.apps)
    && (forall id | id in b.world.apps :: b.world.apps[id].team in b.world.teams)
    && (forall id, code, code' | (id, code) in b.cache :: (id, code') in b.cache)
    && (forall t | t in b.jobs :: JobOk(b, b.jobs[t]))
    && (forall t | t in b.dues :: DueOk(b, b.dues[t]))
  }

  lemma JobForIsOk(b: Board, w: World, ids: set<AppId>, change: Option<Change>, due: Option<TxnId>)
    requires ids <= w.apps.Keys && w.apps == b.world.apps
    requires change.Some? ==> change.value.team in b.world.teams && !change.value.step.Lock?
    ensures JobOk(b, JobFor(b.cache, w, ids, change, due))
  {
    var job := JobFor(b.cache, w, ids, change, due);
    forall id, code | id in job.readings ensures (id, code) in job.writes || (id, code) in b.cache {
      AllCells(ids, id, code);
    }
    forall k | k in job.writes ensures k.0 in job.readings && job.writes[k] == SignalOf(job.readings[k.0], k.1) {
      AllCells(ids, k.0, k.1);
      assert k == (k.0, k.1);
    }
  }

  lemma JobStaysOk(b: Board, b': Board, job: Job)
    requires JobOk(b, job) && b.world.apps.Keys <= b'.world.apps.Keys && b.world.teams.Keys <= b'.world.teams.Keys
    requires b.cache.Keys <= b'.cache.Keys
    ensures JobOk(b', job)
  {
    forall id, code | id in job.readings ensures (id, code) in job.writes || (id, code) in b'.cache {
      assert (id, code) in b.cache ==> (id, code) in b'.cache.Keys;
    }
  }

  /** Only the world changes, nobody leaves a team, and nothing becomes active again. */
  ghost predicate Gentle(before: World, after: World) {
    && before.apps.Keys <= after.apps.Keys && before.teams.Keys <= after.teams.Keys
    && (forall id | id in after.apps :: after.apps[id].team in after.teams)
    && (forall id | id in before.apps :: after.apps[id].team == before.apps[id].team)
    && (forall id | id in before.apps && IsActive(after.apps[id]) :: IsActive(before.apps[id]))
    && (forall team | team in before.teams :: after.teams[team].members == before.teams[team].members)
  }

  lemma WorldStepKeepsInv(b: Board, w: World)
    requires BoardInv(b) && Gentle(b.world, w)
    ensures BoardInv(b.(world := w))
  {
    var b' := b.(world := w);
    forall t | t in b'.jobs ensures JobOk(b', b'.jobs[t]) { JobStaysOk(b, b', b.jobs[t]); }
    forall t | t in b'.dues ensures DueOk(b', b'.dues[t]) { assert DueOk(b, b.dues[t]); }
  }

  lemma NewJobKeepsInv(b: Board, tid: TxnId, job: Job)
    requires BoardInv(b) && JobOk(b, job)
    ensures BoardInv(b.(jobs := b.jobs[tid := job]))
  {
    var b' := b.(jobs := b.jobs[tid := job]);
    forall t | t in b'.jobs ensures JobOk(b', b'.jobs[t]) {
      if t != tid { JobStaysOk(b, b', b.jobs[t]); } else { JobStaysOk(b, b', job); }
    }
    forall t | t in b'.dues ensures DueOk(b', b'.dues[t]) { assert DueOk(b, b.dues[t]); }
  }

  lemma BeginChangeKeepsInv(b: Board, tid: TxnId, team: TeamId, change: TeamStep)
    requires BoardInv(b)
    ensures BoardInv(NextBoard(b, BeginChange(tid, team, change)))
  {
    var w := b.world;
    if !change.Lock? && MembershipCheck(w.teams, team, change) == Done {
      var seen := WithTeam(w, team, NextTeam(w.teams[team], change));
      JobForIsOk(b, seen, TeamApps(seen, team), Some(Change(team, change)), None);
      NewJobKeepsInv(b, tid, JobFor(b.cache, seen, TeamApps(seen, team), Some(Change(team, change)), None));
    }
  }

  lemma BeginOneKeepsInv(b: Board, tid: TxnId, id: AppId, due: Option<TxnId>)
    requires BoardInv(b) && id in b.world.apps
    ensures BoardInv(b.(jobs := b.jobs[tid := JobFor(b.cache, b.world, {id}, None, due)]))
  {
    JobForIsOk(b, b.world, {id}, None, due);
    NewJobKeepsInv(b, tid, JobFor(b.cache, b.world, {id}, None, due));
  }

  lemma ProfileKeepsInv(b: Board, tid: TxnId, user: UserId, profile: Profile)
    requires BoardInv(b)
    ensures BoardInv(NextBoard(b, WriteProfile(tid, user, profile)))
  {
    if tid !in b.dues {
      var w := b.world.(profiles := b.world.profiles[user := profile]);
      WorldStepKeepsInv(b, w);
      var b1 := b.(world := w);
      var b' := b1.(dues := b1.dues[tid := Due(user, StudentApps(b.world, user))]);
      assert NextBoard(b, WriteProfile(tid, user, profile)) == b';
      forall t | t in b'.jobs ensures JobOk(b', b'.jobs[t]) { JobStaysOk(b1, b', b1.jobs[t]); }
      forall t | t in b'.dues ensures DueOk(b', b'.dues[t]) { if t != tid { assert DueOk(b1, b1.dues[t]); } }
      }
  }

  /** A change that lands takes at most its leaver out of the team. */
  lemma LandedMembers(t: Team, change: TeamStep, u: UserId)
    requires u in t.members && u !in LandedTeam(t, change).members
    ensures (change.RemoveMember? && change.member == u) || (change.Leave? && change.actor == u)
  {
    match change
    case RemoveMember(_, member) => WithoutRemoves(t.members, member);
    case Leave(actor) => WithoutRemoves(t.members, actor);
    case _ =>
  }

  lemma LandedDueIsOk(b: Board, t: TxnId, due: Due, job: Job)
    requires DueOk(b, due)
    ensures DueOk(b.(world := LandedWorld(b.world, job.change)), DueAfter(b.world, t, due, job))
  {
    var w, after := LandedWorld(b.world, job.change), DueAfter(b.world, t, due, job);
    forall id | id in after.ids ensures id in w.apps && after.user in Members(w, w.apps[id].team) {
      assert id in due.ids;
      var team := b.world.apps[id].team;
      if job.change.Some? && job.change.value.team == team && team in b.world.teams && due.user !in Members(w, team) {
        LandedMembers(b.world.teams[team], job.change.value.step, due.user);
      }
    }
  }

  lemma LandKeepsInv(b: Board, tid: TxnId)
    requires BoardInv(b) && tid in b.jobs
    ensures BoardInv(Landed(b, tid))
  {
    var job, b' := b.jobs[tid], Landed(b, tid);
    assert JobOk(b, job);
    LandKeepsCells(b, tid);
    forall t | t in b'.jobs ensures JobOk(b', b'.jobs[t]) { JobStaysOk(b, b', b.jobs[t]); }
    forall t | t in b'.dues ensures DueOk(b', b'.dues[t]) { LandedDueIsOk(b, t, b.dues[t], job); }
  }

  /** A landing leaves applications with all five signals or none. */
  lemma LandKeepsCells(b: Board, tid: TxnId)
    requires BoardInv(b) && tid in b.jobs
    ensures var b' := Landed(b, tid);
            && (forall k | k in b'.cache :: k.0 in b'.world.apps)
            && (forall id, code, code' | (id, code) in b'.cache :: (id, code') in b'.cache)
  {
    var job, b' := b.jobs[tid], Landed(b, tid);
    assert JobOk(b, job);
    forall id, code, code' | (id, code) in b'.cache ensures (id, code') in b'.cache {
      if (id, code) in job.writes {
        assert (id, code).0 in job.readings;
        assert (id, code') in job.writes || (id, code') in b.cache;
      } else {
        assert (id, code) in b.cache && (id, code') in b.cache;
      }
    }
  }

  lemma BoardStepKeeps(b: Board, step: BoardStep)
    requires BoardInv(b)
    ensures BoardInv(NextBoard(b, step))
  {
    match step
    case WriteProfile(tid, user, profile) => ProfileKeepsInv(b, tid, user, profile);
    case Land(tid) =>
      if tid in b.jobs {
        if Fails(b.world, b.jobs[tid].change) { DroppedJobKeepsInv(b, tid); } else { LandKeepsInv(b, tid); }
      }
    case BeginRefresh(tid, id) => if id in b.world.apps { BeginOneKeepsInv(b, tid, id, None); }
    case BeginChange(tid, team, change) => BeginChangeKeepsInv(b, tid, team, change);
    case BeginStudent(tid, request, id) => if id in b.world.apps { BeginOneKeepsInv(b, tid, id, Some(request)); }
    case _ => PlainStepKeepsInv(b, step);
  }

  lemma PlainIsGentle(w: World, step: BoardStep)
    requires IsPlain(step) && forall id | id in w.apps :: w.apps[id].team in w.teams
    ensures Gentle(w, PlainWorld(w, step))
  {}

  lemma PlainStepKeepsInv(b: Board, step: BoardStep)
    requires BoardInv(b) && IsPlain(step)
    ensures BoardInv(NextBoard(b, step))
  {
    PlainIsGentle(b.world, step);
    WorldStepKeepsInv(b, PlainWorld(b.world, step));
  }

  lemma DroppedJobKeepsInv(b: Board, tid: TxnId)
    requires BoardInv(b)
    ensures BoardInv(b.(jobs := b.jobs - {tid}))
  {
    var b' := b.(jobs := b.jobs - {tid});
    forall t | t in b'.jobs ensures JobOk(b', b'.jobs[t]) { JobStaysOk(b, b', b.jobs[t]); }
    forall t | t in b'.dues ensures DueOk(b', b'.dues[t]) { assert DueOk(b, b.dues[t]); }
  }

  // ---------------------------------------------------------------- which steps keep signals current

  /** An application stays in order when what is read and stored for it, and what it waits for, are the same. */
  lemma SameReading(b: Board, b': Board, id: AppId)
    requires id in b.world.apps && id in b'.world.apps && AppOk(b, id)
    requires IsActive(b'.world.apps[id]) ==> IsActive(b.world.apps[id])
    requires IsActive(b'.world.apps[id]) && HasDue(b, id) ==> HasDue(b', id)
    requires forall code :: (id, code) in b'.cache <==> (id, code) in b.cache
    requires forall code | (id, code) in b.cache :: b'.cache[(id, code)] == b.cache[(id, code)]
    requires ReadingOf(b'.world, id) == ReadingOf(b.world, id)
    ensures AppOk(b', id)
  {
    if IsActive(b'.world.apps[id]) && IsFresh(b.cache, b.world, id) {
      forall code ensures (id, code) in b'.cache && b'.cache[(id, code)] == Current(b'.world, id, code) {
        assert (id, code) in b.cache;
      }
    }
  }

  /** With all five signals stored, being current is a matter of each one. */
  lemma OkCellByCell(b: Board, id: AppId)
    requires BoardInv(b) && id in b.world.apps && IsActive(b.world.apps[id]) && !HasDue(b, id)
    ensures AppOk(b, id)
       <==> forall code | code in CODES && (id, code) in b.cache :: b.cache[(id, code)] == Current(b.world, id, code)
  {
    if forall code | code in CODES && (id, code) in b.cache :: b.cache[(id, code)] == Current(b.world, id, code) {
      if !Untouched(b.cache, id) {
        var some :| (id, some) in b.cache;
        forall code ensures (id, code) in b.cache && b.cache[(id, code)] == Current(b.world, id, code) {
          AllCodes(code);
        }
      }
    }
  }

  lemma OtherProfile(w: World, user: UserId, profile: Profile, id: AppId)
    requires id in w.apps && user !in Members(w, w.apps[id].team)
    ensures ReadingOf(w.(profiles := w.profiles[user := profile]), id) == ReadingOf(w, id)
  {
    var members := Members(w, w.apps[id].team);
    var after := w.profiles[user := profile];
    assert (map m | m in members && m in after :: after[m])
        == (map m | m in members && m in w.profiles :: w.profiles[m]);
  }

  lemma ProfileKeeps(b: Board, tid: TxnId, user: UserId, profile: Profile)
    requires BoardInv(b) && NeverStale(b)
    ensures NeverStale(NextBoard(b, WriteProfile(tid, user, profile)))
  {
    if tid !in b.dues {
      var w, b' := b.world, NextBoard(b, WriteProfile(tid, user, profile));
      forall id | id in b'.world.apps ensures AppOk(b', id) {
        if user in Members(w, w.apps[id].team) {
          assert IsActive(w.apps[id]) ==> id in b'.dues[tid].ids;
        } else {
          OtherProfile(w, user, profile, id);
          DueStays(b, b', id);
          SameReading(b, b', id);
        }
      }
    }
  }

  lemma DueStays(b: Board, b': Board, id: AppId)
    requires forall t | t in b.dues :: t in b'.dues && b'.dues[t] == b.dues[t]
    ensures HasDue(b, id) ==> HasDue(b', id)
  {
    if HasDue(b, id) {
      var t :| t in b.dues && id in b.dues[t].ids;
      assert id in b'.dues[t].ids;
    }
  }

  lemma PlainReading(w: World, step: BoardStep, id: AppId)
    requires IsPlain(step) && !step.SetRules? && id in w.apps && w.apps[id].team in w.teams
    ensures id in PlainWorld(w, step).apps && ReadingOf(PlainWorld(w, step), id) == ReadingOf(w, id)
  {
    assert Members(PlainWorld(w, step), w.apps[id].team) == Members(w, w.apps[id].team);
  }

  lemma PlainStepKeeps(b: Board, step: BoardStep)
    requires BoardInv(b) && NeverStale(b) && IsPlain(step) && !step.SetRules?
    ensures NeverStale(NextBoard(b, step))
  {
    var b' := b.(world := PlainWorld(b.world, step));
    PlainIsGentle(b.world, step);
    forall id | id in b'.world.apps ensures AppOk(b', id) {
      if id in b.world.apps {
        PlainReading(b.world, step, id);
        SameReading(b, b', id);
      } else {
        forall code ensures (id, code) !in b.cache { assert (id, code) in b.cache ==> (id, code).0 in b.world.apps; }
      }
    }
  }

  ghost predicate RulesOutdateApp(b: Board, step: BoardStep, id: AppId)
    requires step.SetRules? && id in b.world.apps
  {
    b.world.apps[id].call == step.ruled && IsActive(b.world.apps[id]) && !HasDue(b, id) && !Untouched(b.cache, id)
    && var r := ReadingOf(b.world, id);
       RulesMatter(r.members, r.profiles, r.rules, step.rules)
  }

  lemma RulesOutdateAppExactly(b: Board, step: BoardStep, id: AppId)
    requires BoardInv(b) && NeverStale(b) && step.SetRules? && id in b.world.apps
    ensures AppOk(NextBoard(b, step), id) <==> !RulesOutdateApp(b, step, id)
    ensures RulesOutdateApp(b, step, id) ==> RulesOutdate(b, step)
  {
    var b' := NextBoard(b, step);
    var r := ReadingOf(b.world, id);
    assert AppOk(b, id);
    assert HasDue(b', id) <==> HasDue(b, id);
    if b.world.apps[id].call != step.ruled {
      assert ReadingOf(b'.world, id) == r;
      SameReading(b, b', id);
    } else {
      assert ReadingOf(b'.world, id) == r.(rules := step.rules);
      RulesMatterExactly(r.members, r.profiles, r.rules, step.rules);
      if IsActive(b.world.apps[id]) && !HasDue(b, id) && !Untouched(b.cache, id) { FreshUnderRules(b, b', id, step); }
    }
    if RulesOutdateApp(b, step, id) {
      var code :| (id, code) in b.cache;
      AllCodes(code);
    }
  }

  lemma RulesOutdateByApp(b: Board, step: BoardStep)
    requires RulesOutdate(b, step)
    ensures exists id | id in b.world.apps :: RulesOutdateApp(b, step, id)
  {
    var id, code :| id in b.world.apps && code in CODES
      && b.world.apps[id].call == step.ruled && IsActive(b.world.apps[id]) && !HasDue(b, id) && (id, code) in b.cache
      && var r := ReadingOf(b.world, id);
         RulesMatter(r.members, r.profiles, r.rules, step.rules);
    assert RulesOutdateApp(b, step, id);
  }

  lemma SetRulesExactly(b: Board, step: BoardStep)
    requires BoardInv(b) && NeverStale(b) && step.SetRules?
    ensures NeverStale(NextBoard(b, step)) <==> !RulesOutdate(b, step)
  {
    forall id | id in b.world.apps
      ensures AppOk(NextBoard(b, step), id) <==> !RulesOutdateApp(b, step, id)
      ensures RulesOutdateApp(b, step, id) ==> RulesOutdate(b, step)
    {
      RulesOutdateAppExactly(b, step, id);
    }
    if RulesOutdate(b, step) { RulesOutdateByApp(b, step); }
  }

  lemma FreshUnderRules(b: Board, b': Board, id: AppId, step: BoardStep)
    requires step.SetRules? && id in b.world.apps && b' == NextBoard(b, step)
    requires b.world.apps[id].call == step.ruled && IsFresh(b.cache, b.world, id)
    ensures IsFresh(b'.cache, b'.world, id)
       <==> !exists code :: SignalOf(ReadingOf(b.world, id), code)
                         != Compute(ReadingOf(b.world, id).members, ReadingOf(b.world, id).profiles, step.rules, code)
  {
    var r := ReadingOf(b.world, id);
    forall code
      ensures (id, code) in b'.cache && (b'.cache[(id, code)] == Current(b'.world, id, code)
              <==> SignalOf(r, code) == Compute(r.members, r.profiles, step.rules, code))
    {
      assert (id, code) in b.cache && b.cache[(id, code)] == Current(b.world, id, code);
    }
  }

  // ---------------------------------------------------------------- landings

  lemma UnconcernedStays(b: Board, tid: TxnId, id: AppId)
    requires BoardInv(b) && tid in b.jobs && id in b.world.apps && AppOk(b, id) && !Concerned(b, b.jobs[tid], id)
    ensures AppOk(Landed(b, tid), id)
  {
    var job, b' := b.jobs[tid], Landed(b, tid);
    assert JobOk(b, job);
    assert Members(b'.world, b.world.apps[id].team) == Members(b.world, b.world.apps[id].team);
    forall code ensures (id, code) !in job.writes { assert (id, code) in job.writes ==> (id, code).0 in job.readings; }
    if HasDue(b, id) && IsActive(b.world.apps[id]) {
      var t :| t in b.dues && id in b.dues[t].ids;
      assert id in b'.dues[t].ids;
    }
    SameReading(b, b', id);
  }

  lemma ConcernedExactly(b: Board, tid: TxnId, id: AppId)
    requires BoardInv(b) && tid in b.jobs && id in b.world.apps && IsActive(b.world.apps[id])
    requires !DueThen(b, tid, id) && AppOk(b, id)
    ensures AppOk(Landed(b, tid), id)
       <==> !exists code | code in CODES ::
              WritesOutdated(b, b.jobs[tid], id, code) || LeavesOutdated(b, b.jobs[tid], id, code)
  {
    var job, b' := b.jobs[tid], Landed(b, tid);
    LandKeepsInv(b, tid);
    assert JobOk(b, job);
    assert !HasDue(b', id);
    OkCellByCell(b', id);
    forall code | code in CODES
      ensures (id, code) in b'.cache && b'.cache[(id, code)] != Current(b'.world, id, code)
         <==> WritesOutdated(b, job, id, code) || LeavesOutdated(b, job, id, code)
    {
      if (id, code) in job.writes {
        assert (id, code).0 in job.readings && job.writes[(id, code)] == SignalOf(job.readings[id], code);
      } else if (id, code) in b.cache && !HasDue(b, id) {
        assert IsFresh(b.cache, b.world, id);
      }
    }
  }

  lemma LandExactly(b: Board, tid: TxnId)
    requires BoardInv(b) && NeverStale(b) && tid in b.jobs && !Fails(b.world, b.jobs[tid].change)
    ensures NeverStale(Landed(b, tid)) <==> !LandsOutdated(b, Land(tid))
  {
    var job, b' := b.jobs[tid], Landed(b, tid);
    forall id | id in b.world.apps
      ensures AppOk(b', id) <==>
                !(IsActive(b.world.apps[id]) && Concerned(b, job, id) && !DueThen(b, tid, id)
                  && exists code | code in CODES ::
                       WritesOutdated(b, job, id, code) || LeavesOutdated(b, job, id, code))
    {
      if IsActive(b.world.apps[id]) {
        if !Concerned(b, job, id) {
          UnconcernedStays(b, tid, id);
        } else if !DueThen(b, tid, id) {
          ConcernedExactly(b, tid, id);
        } else {
          assert HasDue(b', id);
        }
      }
    }
    LandsOutdatedApp(b, tid);
  }

  lemma LandsOutdatedApp(b: Board, tid: TxnId)
    requires tid in b.jobs && !Fails(b.world, b.jobs[tid].change)
    ensures LandsOutdated(b, Land(tid)) <==>
              exists id | id in b.world.apps ::
                IsActive(b.world.apps[id]) && Concerned(b, b.jobs[tid], id) && !DueThen(b, tid, id)
                && exists code | code in CODES ::
                     WritesOutdated(b, b.jobs[tid], id, code) || LeavesOutdated(b, b.jobs[tid], id, code)
  {}

  lemma StepExactly(b: Board, step: BoardStep)
    requires BoardInv(b) && NeverStale(b)
    ensures NeverStale(NextBoard(b, step)) <==> !RulesOutdate(b, step) && !LandsOutdated(b, step)
  {
    match step
    case SetRules(_, _) => SetRulesExactly(b, step);
    case WriteProfile(tid, user, profile) => ProfileKeeps(b, tid, user, profile);
    case Land(tid) =>
      if tid in b.jobs {
        if Fails(b.world, b.jobs[tid].change) { JobsOnly(b, NextBoard(b, step)); } else { LandExactly(b, tid); }
      }
    case BeginRefresh(_, _) => JobsOnly(b, NextBoard(b, step));
    case BeginChange(_, _, _) => JobsOnly(b, NextBoard(b, step));
    case BeginStudent(_, _, _) => JobsOnly(b, NextBoard(b, step));
    case _ => PlainStepKeeps(b, step);
  }

  lemma JobsOnly(b: Board, b': Board)
    requires NeverStale(b) && b' == b.(jobs := b'.jobs)
    ensures NeverStale(b')
  {
    forall id | id in b'.world.apps ensures AppOk(b', id) { SameReading(b, b', id); }
  }

  lemma {:induction false} ExactlyFrom(b: Board, steps: seq<BoardStep>)
    requires BoardInv(b) && NeverStale(b)
    ensures AlwaysNeverStale(b, steps) <==> NoneOutdates(b, steps)
    ensures NoneOutdates(b, steps) ==> NeverStale(RunBoard(b, steps))
    decreases |steps|
  {
    if steps != [] {
      StepExactly(b, steps[0]);
      BoardStepKeeps(b, steps[0]);
      if !RulesOutdate(b, steps[0]) && !LandsOutdated(b, steps[0]) { ExactlyFrom(NextBoard(b, steps[0]), steps[1..]); }
    }
  }

  function NewBoard(profiles: map<UserId, Profile>, configs: map<CallId, map<Code, Threshold>>): Board {
    Board(World(map[], map[], profiles, configs), map[], map[], map[])
  }

  /** In any run signals are never stale, at any point, exactly when no rules and no landing leave one behind. */
  lemma SignalsAreNeverStaleExactly(profiles: map<UserId, Profile>, configs: map<CallId, map<Code, Threshold>>,
                                    steps: seq<BoardStep>)
    ensures AlwaysNeverStale(NewBoard(profiles, configs), steps) <==> NoneOutdates(NewBoard(profiles, configs), steps)
  {
    ExactlyFrom(NewBoard(profiles, configs), steps);
  }

  // ---------------------------------------------------------------- landings that find what they read

  /** Members, profiles, rules and skipped signals are as the refresh read them, and no application is new to it. */
  ghost predicate Unshifted(b: Board, job: Job) {
    && (forall id | id in job.readings && id in b.world.apps ::
          ReadingOf(LandedWorld(b.world, job.change), id) == job.readings[id])
    && (forall id, code | id in job.readings && (id, code) !in job.writes && (id, code) in b.cache ::
          b.cache[(id, code)] == SignalOf(job.readings[id], code))
    && (forall id | id in b.world.apps && IsActive(b.world.apps[id]) && Concerned(b, job, id) ::
          id in job.readings || Untouched(b.cache, id))
  }

  /** So a landing leaves nothing behind unless something it had read, or its list, has shifted since. */
  lemma UnshiftedLandingIsSafe(b: Board, tid: TxnId)
    requires BoardInv(b) && NeverStale(b) && tid in b.jobs && Unshifted(b, b.jobs[tid])
    ensures !LandsOutdated(b, Land(tid))
  {
    var job := b.jobs[tid];
    assert JobOk(b, job);
    forall id, code | id in b.world.apps && IsActive(b.world.apps[id]) && Concerned(b, job, id)
      ensures !WritesOutdated(b, job, id, code) && !LeavesOutdated(b, job, id, code)
    {
      assert (id, code) in job.writes ==> (id, code).0 in job.readings;
      if (id, code) in b.cache && !HasDue(b, id) {
        assert AppOk(b, id) && IsFresh(b.cache, b.world, id);
      }
    }
  }

  ghost predicate AllUnshifted(b: Board, steps: seq<BoardStep>)
    decreases |steps|
  {
    steps == [] ||
    (!RulesOutdate(b, steps[0])
     && (steps[0].Land? && steps[0].tid in b.jobs && !Fails(b.world, b.jobs[steps[0].tid].change) ==>
           Unshifted(b, b.jobs[steps[0].tid]))
     && AllUnshifted(NextBoard(b, steps[0]), steps[1..]))
  }

  lemma {:induction false} UnshiftedRunsAreSafe(b: Board, steps: seq<BoardStep>)
    requires BoardInv(b) && NeverStale(b) && AllUnshifted(b, steps)
    ensures NoneOutdates(b, steps)
    decreases |steps|
  {
    if steps != [] {
      if LandsOutdated(b, steps[0]) { UnshiftedLandingIsSafe(b, steps[0].tid); }
      BoardStepKeeps(b, steps[0]);
      StepExactly(b, steps[0]);
      UnshiftedRunsAreSafe(NextBoard(b, steps[0]), steps[1..]);
    }
  }

  /** If no rules outdate a signal and nothing shifts under a refresh, signals are absent, current or awaited. */
  lemma SignalsAreNeverStale(profiles: map<UserId, Profile>, configs: map<CallId, map<Code, Threshold>>,
                             steps: seq<BoardStep>, id: AppId)
    requires AllUnshifted(NewBoard(profiles, configs), steps)
    requires var b := RunBoard(NewBoard(profiles, configs), steps);
             id in b.world.apps && IsActive(b.world.apps[id]) && !HasDue(b, id)
    ensures var b := RunBoard(NewBoard(profiles, configs), steps);
            Untouched(b.cache, id) || IsFresh(b.cache, b.world, id)
  {
    UnshiftedRunsAreSafe(NewBoard(profiles, configs), steps);
    ExactlyFrom(NewBoard(profiles, configs), steps);
    assert AppOk(RunBoard(NewBoard(profiles, configs), steps), id);
  }

  /** A refresh that is not interrupted writes what writing everything would. */
  lemma UninterruptedWrites(cache: Cache, w: World, ids: set<AppId>, change: Option<Change>, due: Option<TxnId>)
    requires ids <= w.apps.Keys
    ensures cache + JobFor(cache, w, ids, change, due).writes == Refreshed(cache, w, ids)
  {
    var job := JobFor(cache, w, ids, change, due);
    RefreshedAt(cache, w, ids);
    forall k: (AppId, Code)
      ensures k in cache + job.writes <==> k in Refreshed(cache, w, ids)
      ensures k in cache + job.writes ==> (cache + job.writes)[k] == Refreshed(cache, w, ids)[k]
    {
      AllCells(ids, k.0, k.1);
      assert k == (k.0, k.1);
    }
    SameMap(cache + job.writes, Refreshed(cache, w, ids));
  }

  /** Each of the steps that touch no signals changes one entry of the world, or nothing if it does not apply. */
  lemma PlainStepsDo(b: Board, step: BoardStep)
    requires IsPlain(step)
    ensures var b', apps, teams := NextBoard(b, step), b.world.apps, b.world.teams;
            && b'.cache == b.cache && b'.jobs == b.jobs && b'.dues == b.dues
            && b'.world.profiles == b.world.profiles
            && (step.SetRules? || b'.world.configs == b.world.configs)
            && (step.NewTeam? || step.LockTeam? || b'.world.teams == teams)
            && (step.NewDraft? || step.SetStatus? || b'.world.apps == apps)
            && match step
               case NewTeam(t, creator) =>
                 b'.world.teams == if t in teams then teams else teams[t := Team(creator, [creator], None)]
               case NewDraft(id, t, call) =>
                 b'.world.apps == if id in apps || t !in teams then apps else apps[id := AppRow(t, call, W.Draft)]
               case SetStatus(id, status) =>
                 b'.world.apps
                 == if id !in apps || apps[id].status in {W.Rejected, W.Archived} then apps
                    else apps[id := AppRow(apps[id].team, apps[id].call, status)]
               case LockTeam(t, now, overlaps) =>
                 b'.world.teams
                 == if t !in teams || (teams[t].lockedAt.Some? && !overlaps) then teams
                    else teams[t := Team(teams[t].leader, teams[t].members, Some(now))]
               case SetRules(call, rules) => b'.world.configs == b.world.configs[call := rules]
               case _ => true
  {
    match step
    case LockTeam(t, now, overlaps) =>
      if t in b.world.teams && b.world.teams[t].lockedAt.Some? && !overlaps {
        assert b.world.teams[t := b.world.teams[t]] == b.world.teams;
      }
    case _ =>
  }

  /** After an uninterrupted membership change the team's active applications are fresh, whatever was stored. */
  lemma MembershipChangeRefreshes(b: Board, tid: TxnId, team: TeamId, change: TeamStep)
    requires tid !in b.jobs && !change.Lock? && MembershipCheck(b.world.teams, team, change) == Done
    ensures var b' := NextBoard(NextBoard(b, BeginChange(tid, team, change)), Land(tid));
            && b'.world == WithTeam(b.world, team, NextTeam(b.world.teams[team], change))
            && b'.cache == Refreshed(b.cache, b'.world, TeamApps(b'.world, team))
            && (forall id | id in b'.world.apps && b'.world.apps[id].team == team
                  && b'.world.apps[id].status !in {W.Rejected, W.Archived} :: IsFresh(b'.cache, b'.world, id))
            && (forall k | k in b.cache && (k.0 in b.world.apps ==> b.world.apps[k.0].team != team) ::
                  k in b'.cache && b'.cache[k] == b.cache[k])
  {
    var seen := WithTeam(b.world, team, NextTeam(b.world.teams[team], change));
    var b1 := NextBoard(b, BeginChange(tid, team, change));
    UninterruptedWrites(b.cache, seen, TeamApps(seen, team), Some(Change(team, change)), None);
    RefreshedExact(b.cache, seen, TeamApps(seen, team));
  }

  /** Writing a profile writes nothing else, and the active applications of the user's teams then wait. */
  lemma ProfileWriteDoes(b: Board, tid: TxnId, user: UserId, profile: Profile)
    requires tid !in b.dues
    ensures var b' := NextBoard(b, WriteProfile(tid, user, profile));
            && b'.world == World(b.world.apps, b.world.teams, b.world.profiles[user := profile], b.world.configs)
            && b'.cache == b.cache && b'.jobs == b.jobs && b'.dues.Keys == b.dues.Keys + {tid}
            && (forall t | t in b.dues :: b'.dues[t] == b.dues[t])
            && b'.dues[tid].user == user
            && forall id | id in b.world.apps :: id in b'.dues[tid].ids <==>
                 var app := b.world.apps[id];
                 && app.team in b.world.teams && user in b.world.teams[app.team].members
                 && app.status !in {W.Rejected, W.Archived}
  {
    RefreshedApplications(b.world, "", user);
  }

  /** After an uninterrupted submit or read of the signals the application's are current, and nothing else changed. */
  lemma RefreshDoes(b: Board, tid: TxnId, id: AppId)
    requires tid !in b.jobs && id in b.world.apps
    ensures var b' := NextBoard(NextBoard(b, BeginRefresh(tid, id)), Land(tid));
            && b'.world == b.world && b'.dues.Keys == b.dues.Keys && b'.jobs == b.jobs
            && b'.cache == Refreshed(b.cache, b.world, {id}) && IsFresh(b'.cache, b.world, id)
  {
    var job := JobFor(b.cache, b.world, {id}, None, None);
    var b1 := b.(jobs := b.jobs[tid := job]);
    assert NextBoard(b, BeginRefresh(tid, id)) == b1;
    assert NextBoard(b1, Land(tid)) == Landed(b1, tid);
    assert b1.jobs - {tid} == b.jobs;
    assert b.cache + job.writes == Refreshed(b.cache, b.world, {id}) by {
      UninterruptedWrites(b.cache, b.world, {id}, None, None);
    }
    assert IsFresh(Refreshed(b.cache, b.world, {id}), b.world, id) by { RefreshedExact(b.cache, b.world, {id}); }
  }

  lemma RefreshTakesOffList(w: World, t: TxnId, request: TxnId, due: Due, job: Job, id: AppId)
    requires job.change == None && job.due == Some(request) && job.readings.Keys == {id}
    ensures DueAfter(w, t, due, job) == if t == request then Due(due.user, due.ids - {id}) else due
  {
    assert DueAfter(w, t, due, job).ids == if t == request then due.ids - {id} else due.ids;
  }

  /** The uninterrupted refresh of a waiting application makes it current and takes it off the list, alone. */
  lemma StudentRefreshDoes(b: Board, tid: TxnId, request: TxnId, id: AppId)
    requires tid !in b.jobs && request in b.dues && id in b.dues[request].ids && id in b.world.apps
    ensures var b' := NextBoard(NextBoard(b, BeginStudent(tid, request, id)), Land(tid));
            && b'.world == b.world && b'.cache == Refreshed(b.cache, b.world, {id}) && IsFresh(b'.cache, b.world, id)
            && b'.dues == b.dues[request := Due(b.dues[request].user, b.dues[request].ids - {id})]
  {
    var job := JobFor(b.cache, b.world, {id}, None, Some(request));
    var b1 := b.(jobs := b.jobs[tid := job]);
    assert NextBoard(b, BeginStudent(tid, request, id)) == b1;
    assert NextBoard(b1, Land(tid)) == Landed(b1, tid);
    assert b.cache + job.writes == Refreshed(b.cache, b.world, {id}) by {
      UninterruptedWrites(b.cache, b.world, {id}, None, Some(request));
    }
    assert IsFresh(Refreshed(b.cache, b.world, {id}), b.world, id) by { RefreshedExact(b.cache, b.world, {id}); }
    forall t | t in b.dues { RefreshTakesOffList(b.world, t, request, b.dues[t], job, id); }
    assert LandedDues(b1, tid) == b.dues[request := Due(b.dues[request].user, b.dues[request].ids - {id})];
  }

  // ---------------------------------------------------------------- it does happen

  lemma {:induction false} BoardInTwoParts(b: Board, x: seq<BoardStep>, y: seq<BoardStep>)
    ensures RunBoard(b, x + y) == RunBoard(RunBoard(b, x), y)
    decreases |x|
  {
    if x == [] {
      assert x + y == y;
    } else {
      assert (x + y)[1..] == x[1..] + y;
      BoardInTwoParts(NextBoard(b, x[0]), x[1..], y);
    }
  }

  lemma Then(b0: Board, steps: seq<BoardStep>, b: Board, step: BoardStep)
    requires RunBoard(b0, steps) == b
    ensures RunBoard(b0, steps + [step]) == NextBoard(b, step)
  {
    BoardInTwoParts(b0, steps, [step]);
    assert [step][1..] == [];
    assert RunBoard(b, [step]) == RunBoard(NextBoard(b, step), []);
  }

  function OneTeam(members: seq<UserId>, configs: map<CallId, map<Code, Threshold>>): World {
    World(map["x" := AppRow("t", "c", W.Draft)], map["t" := Team("l", members, None)], map[], configs)
  }

  predicate NoRuleChange(steps: seq<BoardStep>) {
    forall k | 0 <= k < |steps| :: !steps[k].SetRules?
  }

  /** A team of one with one application whose signals have just been refreshed. */
  lemma Measured(configs: map<CallId, map<Code, Threshold>>) returns (steps: seq<BoardStep>)
    ensures RunBoard(NewBoard(map[], configs), steps)
         == Board(OneTeam(["l"], configs), Refreshed(map[], OneTeam(["l"], configs), {"x"}), map[], map[])
    ensures NoRuleChange(steps)
  {
    var b0, w := NewBoard(map[], configs), OneTeam(["l"], configs);
    var none: seq<BoardStep> := [];
    Then(b0, none, b0, NewTeam("t", "l"));
    var b1 := NextBoard(b0, NewTeam("t", "l"));
    Then(b0, none + [NewTeam("t", "l")], b1, NewDraft("x", "t", "c"));
    var b2 := Board(w, map[], map[], map[]);
    assert NextBoard(b1, NewDraft("x", "t", "c")) == b2;
    var two := none + [NewTeam("t", "l")] + [NewDraft("x", "t", "c")];
    Then(b0, two, b2, BeginRefresh(0, "x"));
    var job := JobFor(map[], w, {"x"}, None, None);
    var b3 := Board(w, map[], map[0 := job], map[]);
    assert NextBoard(b2, BeginRefresh(0, "x")) == b3;
    Then(b0, two + [BeginRefresh(0, "x")], b3, Land(0));
    steps := two + [BeginRefresh(0, "x")] + [Land(0)];
    LandsAlone(w, map[], 0, job);
    UninterruptedWrites(map[], w, {"x"}, None, None);
  }

  lemma LandsAlone(w: World, cache: Cache, tid: TxnId, job: Job)
    requires job.change == None
    ensures NextBoard(Board(w, cache, map[tid := job], map[]), Land(tid)) == Board(w, cache + job.writes, map[], map[])
  {
    var b := Board(w, cache, map[tid := job], map[]);
    assert b.jobs - {tid} == map[] && LandedDues(b, tid) == map[];
  }

  lemma StaleCell(b: Board, code: Code)
    requires b.dues == map[] && "x" in b.world.apps && IsActive(b.world.apps["x"])
    requires ("x", code) in b.cache && b.cache[("x", code)] != Current(b.world, "x", code)
    ensures !NeverStale(b)
  {
    assert !IsFresh(b.cache, b.world, "x") && !Untouched(b.cache, "x") && !HasDue(b, "x");
    assert !AppOk(b, "x");
  }

  lemma RaisedMinimumDecides(one: map<Code, Threshold>, five: map<Code, Threshold>)
    requires one == map[TeamSizeMin := Finite(1.0)] && five == map[TeamSizeMin := Finite(5.0)]
    ensures Current(OneTeam(["l"], map["c" := one]), "x", TeamSizeMin).passed
    ensures !Current(OneTeam(["l"], map["c" := five]), "x", TeamSizeMin).passed
  {}

  lemma RaisedMinimumIsStale(one: map<Code, Threshold>, five: map<Code, Threshold>)
    requires one == map[TeamSizeMin := Finite(1.0)] && five == map[TeamSizeMin := Finite(5.0)]
    ensures var w := OneTeam(["l"], map["c" := one]);
            !NeverStale(NextBoard(Board(w, Refreshed(map[], w, {"x"}), map[], map[]), SetRules("c", five)))
  {
    var w := OneTeam(["l"], map["c" := one]);
    var cache := Refreshed(map[], w, {"x"});
    var b := Board(OneTeam(["l"], map["c" := five]), cache, map[], map[]);
    assert NextBoard(Board(w, cache, map[], map[]), SetRules("c", five)) == b by {
      assert map["c" := one]["c" := five] == map["c" := five];
    }
    RefreshedCell(w, "x", TeamSizeMin);
    RaisedMinimumDecides(one, five);
    StaleCell(b, TeamSizeMin);
  }

  lemma RefreshedCell(w: World, id: AppId, code: Code)
    requires id in w.apps
    ensures (id, code) in Refreshed(map[], w, {id}) && Refreshed(map[], w, {id})[(id, code)] == Current(w, id, code)
  {
    RefreshedExact(map[], w, {id});
    assert IsFresh(Refreshed(map[], w, {id}), w, id);
  }

  /** A team of one meets the minimum of one; raising the minimum leaves the passed signal behind. */
  lemma NewRulesOutdate()
    ensures exists steps :: !NeverStale(RunBoard(NewBoard(map[], map["c" := map[TeamSizeMin := Finite(1.0)]]), steps))
  {
    var one, five := map[TeamSizeMin := Finite(1.0)], map[TeamSizeMin := Finite(5.0)];
    var w, b0 := OneTeam(["l"], map["c" := one]), NewBoard(map[], map["c" := one]);
    var b, step := Board(w, Refreshed(map[], w, {"x"}), map[], map[]), SetRules("c", five);
    var steps := Measured(map["c" := one]);
    var after := RunBoard(b0, steps + [step]);
    assert after == NextBoard(b, step) by { Then(b0, steps, b, step); }
    assert !NeverStale(after) by { RaisedMinimumIsStale(one, five); }
  }

  const LONE := OneTeam(["l"], map[])

  /** Another user joins the lone leader's team, seeing nobody else there. */
  function JoinJob(user: UserId): Job {
    JobFor(Refreshed(map[], LONE, {"x"}), OneTeam(["l", user], map[]), {"x"}, Some(Change("t", Join(user, None, None))),
           None)
  }

  lemma JoinBegins(jobs: map<TxnId, Job>, tid: TxnId, user: UserId)
    requires tid !in jobs && user != "l"
    ensures var b := Board(LONE, Refreshed(map[], LONE, {"x"}), jobs, map[]);
            NextBoard(b, BeginChange(tid, "t", Join(user, None, None))) == b.(jobs := jobs[tid := JoinJob(user)])
  {
    var seen := OneTeam(["l", user], map[]);
    assert user !in ["l"] && ["l"] + [user] == ["l", user];
    assert LONE.teams["t" := Team("l", ["l", user], None)] == seen.teams;
    assert WithTeam(LONE, "t", NextTeam(LONE.teams["t"], Join(user, None, None))) == seen;
    assert TeamApps(seen, "t") == {"x"};
  }

  /** It finds a team of two, one short of the minimum of three. */
  lemma JoinWritesTwo(user: UserId)
    requires user != "l"
    ensures var job := JoinJob(user);
            ("x", TeamSizeMin) in job.writes
            && job.writes[("x", TeamSizeMin)] == Signal(false, Some(TooFewMembers(2, 3.0)))
  {
    var seen := OneTeam(["l", user], map[]);
    RefreshedAt(map[], LONE, {"x"});
    AllCells({"x"}, "x", TeamSizeMin);
    assert ("x", TeamSizeMin).0 in {"x"};
    assert Refreshed(map[], LONE, {"x"})[("x", TeamSizeMin)] == Signal(false, Some(TooFewMembers(1, 3.0)));
    assert Current(seen, "x", TeamSizeMin) == Signal(false, Some(TooFewMembers(2, 3.0)));
  }

  lemma JoinLands(cache: Cache, members: seq<UserId>, jobs: map<TxnId, Job>, tid: TxnId, user: UserId)
    requires tid in jobs && jobs[tid] == JoinJob(user) && user !in members
    ensures NextBoard(Board(OneTeam(members, map[]), cache, jobs, map[]), Land(tid))
         == Board(OneTeam(members + [user], map[]), cache + JoinJob(user).writes, jobs - {tid}, map[])
  {
    var b := Board(OneTeam(members, map[]), cache, jobs, map[]);
    assert LandedDues(b, tid) == map[];
    assert StillApplies(b.world.teams["t"], Join(user, None, None));
    assert LandedWorld(b.world, jobs[tid].change) == OneTeam(members + [user], map[]);
  }

  lemma BothBegin() returns (steps: seq<BoardStep>)
    ensures NoRuleChange(steps)
    ensures RunBoard(NewBoard(map[], map[]), steps)
         == Board(LONE, Refreshed(map[], LONE, {"x"}), map[1 := JoinJob("m"), 2 := JoinJob("n")], map[])
  {
    assert "l"[0] != "m"[0] && "l"[0] != "n"[0];
    var b0, cache := NewBoard(map[], map[]), Refreshed(map[], LONE, {"x"});
    var m, n := BeginChange(1, "t", Join("m", None, None)), BeginChange(2, "t", Join("n", None, None));
    steps := Measured(map[]);
    Then(b0, steps, Board(LONE, cache, map[], map[]), m);
    JoinBegins(map[], 1, "m");
    Then(b0, steps + [m], Board(LONE, cache, map[1 := JoinJob("m")], map[]), n);
    JoinBegins(map[1 := JoinJob("m")], 2, "n");
    steps := steps + [m] + [n];
  }

  lemma BothLand(cache: Cache)
    ensures var b := Board(LONE, cache, map[1 := JoinJob("m"), 2 := JoinJob("n")], map[]);
            NextBoard(NextBoard(b, Land(1)), Land(2))
            == Board(OneTeam(["l", "m", "n"], map[]), cache + JoinJob("m").writes + JoinJob("n").writes, map[], map[])
  {
    assert "l"[0] != "m"[0] && "l"[0] != "n"[0] && "m"[0] != "n"[0];
    var jobs := map[1 := JoinJob("m"), 2 := JoinJob("n")];
    assert ["l"] + ["m"] == ["l", "m"] && ["l", "m"] + ["n"] == ["l", "m", "n"];
    JoinLands(cache, ["l"], jobs, 1, "m");
    assert jobs - {1} == map[2 := JoinJob("n")] && map[2 := JoinJob("n")] - {2} == map[];
    JoinLands(cache + JoinJob("m").writes, ["l", "m"], map[2 := JoinJob("n")], 2, "n");
  }

  lemma BothJoin() returns (steps: seq<BoardStep>)
    ensures NoRuleChange(steps)
    ensures RunBoard(NewBoard(map[], map[]), steps)
         == Board(OneTeam(["l", "m", "n"], map[]),
                  Refreshed(map[], LONE, {"x"}) + JoinJob("m").writes + JoinJob("n").writes, map[], map[])
  {
    var b0, cache := NewBoard(map[], map[]), Refreshed(map[], LONE, {"x"});
    steps := BothBegin();
    var b := Board(LONE, cache, map[1 := JoinJob("m"), 2 := JoinJob("n")], map[]);
    Then(b0, steps, b, Land(1));
    Then(b0, steps + [Land(1)], NextBoard(b, Land(1)), Land(2));
    BothLand(cache);
    steps := steps + [Land(1)] + [Land(2)];
  }

  /** Two users accept at once and neither refresh sees the other: a team of three keeps "2 of 3". */
  lemma OverlappingJoinsLeaveStale()
    ensures exists steps :: NoRuleChange(steps) && !NeverStale(RunBoard(NewBoard(map[], map[]), steps))
  {
    var steps := BothJoin();
    var b := RunBoard(NewBoard(map[], map[]), steps);
    assert "l"[0] != "n"[0];
    JoinWritesTwo("n");
    assert b.cache[("x", TeamSizeMin)] == Signal(false, Some(TooFewMembers(2, 3.0)));
    assert Current(b.world, "x", TeamSizeMin).passed;
    StaleCell(b, TeamSizeMin);
  }
}
