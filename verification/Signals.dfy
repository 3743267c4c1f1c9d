/**
 The eligibility-signal cache: src/applications/eligibility-signals/ and the places that refresh it,
 submit, reading the signals, team membership changes and student profile updates.
 */
module Signals {
  import opened Common
  import opened Teams
  import W = Workflow

  const CODES: seq<Code> :=
    [TeamSizeMin, DeclarationPresent, AcademicEvidencePresent, TransferredSubjectsMax, ProfileSubjectsAverageMax]

  /** What trimming and Number make of a stored threshold. */
  datatype Threshold = Blank | NotFinite | Finite(value: real)

  datatype Profile = Profile(
    declarationAccepted: bool, hasEvidence: bool, hasTransferred: bool, transferred: Option<int>, average: Option<real>)

  /** The reason texts are fixed by the numbers or the members they list (in the order of their ids). */
  datatype Reason = TooFewMembers(actual: nat, required: real) | FailingMembers(who: set<UserId>)

  datatype Signal = Signal(passed: bool, reason: Option<Reason>)

  datatype AppRow = AppRow(team: TeamId, call: CallId, status: W.Status)

  /** Everything the computation reads. Teams, profiles and configurations are found by id. */
  datatype World = World(
    apps: map<AppId, AppRow>,
    teams: map<TeamId, Team>,
    profiles: map<UserId, Profile>,
    configs: map<CallId, map<Code, Threshold>>)

  type Cache = map<(AppId, Code), Signal>

  // ---------------------------------------------------------------- computing

  /** The configured number, or the default when none is stored, it is blank, or it is not finite. */
  function Limit(configs: map<Code, Threshold>, code: Code, fallback: real): real {
    if code in configs && configs[code].Finite? then configs[code].value else fallback
  }

  function TeamSizeSignal(members: seq<UserId>, configs: map<Code, Threshold>): Signal {
    var required := Limit(configs, TeamSizeMin, 3.0);
    if |members| as real >= required then Signal(true, None)
    else Signal(false, Some(TooFewMembers(|members|, required)))
  }

  function MemberSignal(failing: set<UserId>): Signal {
    if failing == {} then Signal(true, None) else Signal(false, Some(FailingMembers(failing)))
  }

  predicate LacksDeclaration(profiles: map<UserId, Profile>, m: UserId) {
    m !in profiles || !profiles[m].declarationAccepted
  }

  predicate LacksEvidence(profiles: map<UserId, Profile>, m: UserId) {
    m !in profiles || !profiles[m].hasEvidence
  }

  /** A member who reports transferred subjects without a count is taken to have one. */
  predicate TransferredTooMany(profiles: map<UserId, Profile>, m: UserId, maximum: real) {
    m in profiles && profiles[m].hasTransferred &&
    (if profiles[m].transferred.Some? then profiles[m].transferred.value else 1) as real > maximum
  }

  predicate AverageTooHigh(profiles: map<UserId, Profile>, m: UserId, maximum: real) {
    m in profiles && profiles[m].average.Some? && profiles[m].average.value > maximum
  }

  function Compute(members: seq<UserId>, profiles: map<UserId, Profile>, configs: map<Code, Threshold>,
                   code: Code): Signal {
    match code
    case TeamSizeMin => TeamSizeSignal(members, configs)
    case DeclarationPresent => MemberSignal(set m | m in members && LacksDeclaration(profiles, m))
    case AcademicEvidencePresent => MemberSignal(set m | m in members && LacksEvidence(profiles, m))
    case TransferredSubjectsMax =>
      MemberSignal(set m | m in members && TransferredTooMany(profiles, m, Limit(configs, TransferredSubjectsMax, 0.0)))
    case ProfileSubjectsAverageMax =>
      MemberSignal(set m | m in members && AverageTooHigh(profiles, m, Limit(configs, ProfileSubjectsAverageMax, 2.0)))
  }

  /** The two presence signals pass exactly when every member has a profile with the required mark. */
  lemma PresenceSignalsExact(members: seq<UserId>, profiles: map<UserId, Profile>, configs: map<Code, Threshold>)
    ensures Compute(members, profiles, configs, DeclarationPresent).passed
       <==> forall m | m in members :: m in profiles && profiles[m].declarationAccepted
    ensures Compute(members, profiles, configs, AcademicEvidencePresent).passed
       <==> forall m | m in members :: m in profiles && profiles[m].hasEvidence
  {
    var d := set m | m in members && LacksDeclaration(profiles, m);
    var e := set m | m in members && LacksEvidence(profiles, m);
    assert d == {} <==> forall m | m in members :: m !in d;
    assert e == {} <==> forall m | m in members :: m !in e;
  }

  /** v is the number stored for this code, or else the given default. */
  predicate IsThreshold(configs: map<Code, Threshold>, code: Code, fallback: real, v: real) {
    if code !in configs then v == fallback
    else
      match configs[code]
      case Finite(stored) => v == stored
      case Blank => v == fallback
      case NotFinite => v == fallback
  }

  lemma LimitIsThreshold(configs: map<Code, Threshold>, code: Code, fallback: real)
    ensures forall v :: IsThreshold(configs, code, fallback, v) <==> v == Limit(configs, code, fallback)
  {}

  /** The two limit signals pass exactly when no member who reports a number exceeds the call's own limit. */
  lemma LimitSignalsExact(members: seq<UserId>, profiles: map<UserId, Profile>, configs: map<Code, Threshold>,
                          t: real, a: real)
    requires IsThreshold(configs, TransferredSubjectsMax, 0.0, t)
    requires IsThreshold(configs, ProfileSubjectsAverageMax, 2.0, a)
    ensures Compute(members, profiles, configs, TransferredSubjectsMax).passed
       <==> forall m | m in members && m in profiles && profiles[m].hasTransferred ::
              (if profiles[m].transferred.Some? then profiles[m].transferred.value else 1) as real <= t
    ensures Compute(members, profiles, configs, ProfileSubjectsAverageMax).passed
       <==> forall m | m in members && m in profiles && profiles[m].average.Some? :: profiles[m].average.value <= a
  {
    var many := set m | m in members && TransferredTooMany(profiles, m, t);
    var high := set m | m in members && AverageTooHigh(profiles, m, a);
    assert many == {} <==> forall m | m in members :: m !in many;
    assert high == {} <==> forall m | m in members :: m !in high;
  }

  /** A team below the minimum is told its size and that minimum. */
  lemma MinimumDecides(members: seq<UserId>, profiles: map<UserId, Profile>, configs: map<Code, Threshold>, v: real)
    requires IsThreshold(configs, TeamSizeMin, 3.0, v)
    ensures Compute(members, profiles, configs, TeamSizeMin)
         == if |members| as real < v then Signal(false, Some(TooFewMembers(|members|, v))) else Signal(true, None)
  {}

  /** Exactly the failing members are named, each by the mark that is missing. */
  lemma MissingMarksDecide(members: seq<UserId>, profiles: map<UserId, Profile>, configs: map<Code, Threshold>)
    ensures var unaccepted := set m | m in members && (m in profiles ==> !profiles[m].declarationAccepted);
            Compute(members, profiles, configs, DeclarationPresent)
            == Signal(unaccepted == {}, if unaccepted == {} then None else Some(FailingMembers(unaccepted)))
    ensures var unproven := set m | m in members && (m in profiles ==> !profiles[m].hasEvidence);
            Compute(members, profiles, configs, AcademicEvidencePresent)
            == Signal(unproven == {}, if unproven == {} then None else Some(FailingMembers(unproven)))
  {
    assert (set m | m in members && (m in profiles ==> !profiles[m].declarationAccepted))
        == (set m | m in members && LacksDeclaration(profiles, m));
    assert (set m | m in members && (m in profiles ==> !profiles[m].hasEvidence))
        == (set m | m in members && LacksEvidence(profiles, m));
  }

  /** Exactly the members with too many transferred subjects are named; no count with the mark set counts as one. */
  lemma TransferredDecides(members: seq<UserId>, profiles: map<UserId, Profile>, configs: map<Code, Threshold>, v: real)
    requires IsThreshold(configs, TransferredSubjectsMax, 0.0, v)
    ensures var over := set m | m in members && m in profiles && profiles[m].hasTransferred
                                && match profiles[m].transferred case Some(n) => n as real > v case None => 1.0 > v;
            Compute(members, profiles, configs, TransferredSubjectsMax)
            == Signal(over == {}, if over == {} then None else Some(FailingMembers(over)))
  {
    assert (set m | m in members && m in profiles && profiles[m].hasTransferred
                    && match profiles[m].transferred case Some(n) => n as real > v case None => 1.0 > v)
        == (set m | m in members && TransferredTooMany(profiles, m, v));
  }

  lemma AverageDecides(members: seq<UserId>, profiles: map<UserId, Profile>, configs: map<Code, Threshold>, v: real)
    requires IsThreshold(configs, ProfileSubjectsAverageMax, 2.0, v)
    ensures var over := set m | m in members && m in profiles
                                && match profiles[m].average case Some(x) => x > v case None => false;
            Compute(members, profiles, configs, ProfileSubjectsAverageMax)
            == Signal(over == {}, if over == {} then None else Some(FailingMembers(over)))
  {
    assert (set m | m in members && m in profiles && match profiles[m].average case Some(x) => x > v case None => false)
        == (set m | m in members && AverageTooHigh(profiles, m, v));
  }

  /** A signal depends on the rule of its own code alone, and on the profiles of the members alone. */
  lemma OwnRuleAndMembersOnly(members: seq<UserId>, code: Code, profiles: map<UserId, Profile>,
                              profiles': map<UserId, Profile>, c: map<Code, Threshold>, c': map<Code, Threshold>)
    requires code in c <==> code in c'
    requires code in c ==> c[code] == c'[code]
    requires forall m | m in members :: m in profiles <==> m in profiles'
    requires forall m | m in members && m in profiles :: profiles[m] == profiles'[m]
    ensures Compute(members, profiles, c, code) == Compute(members, profiles', c', code)
  {
    match code
    case TeamSizeMin =>
    case TransferredSubjectsMax =>
      var v := Limit(c, code, 0.0);
      assert (set m | m in members && TransferredTooMany(profiles, m, v))
          == (set m | m in members && TransferredTooMany(profiles', m, v));
    case ProfileSubjectsAverageMax =>
      var v := Limit(c, code, 2.0);
      assert (set m | m in members && AverageTooHigh(profiles, m, v))
          == (set m | m in members && AverageTooHigh(profiles', m, v));
    case _ =>
      assert (set m | m in members && LacksDeclaration(profiles, m))
          == (set m | m in members && LacksDeclaration(profiles', m));
      assert (set m | m in members && LacksEvidence(profiles, m))
          == (set m | m in members && LacksEvidence(profiles', m));
  }

  /** A signal fails with a reason and passes without one, and the members it names are failing members of the team. */
  lemma ReasonsAreExact(members: seq<UserId>, profiles: map<UserId, Profile>, configs: map<Code, Threshold>, code: Code)
    ensures var s := Compute(members, profiles, configs, code);
            && (s.passed <==> s.reason.None?)
            && (s.reason.Some? && s.reason.value.FailingMembers? ==>
                  s.reason.value.who != {}
                  && forall m | m in s.reason.value.who ::
                       m in members && !Compute([m], profiles, configs, code).passed)
  {
    var s := Compute(members, profiles, configs, code);
    if s.reason.Some? && s.reason.value.FailingMembers? {
      forall m | m in s.reason.value.who ensures m in members && !Compute([m], profiles, configs, code).passed {
        NamedMemberFails(members, profiles, configs, code, m);
      }
    }
  }

  lemma NamedMemberFails(members: seq<UserId>, profiles: map<UserId, Profile>, configs: map<Code, Threshold>,
                         code: Code, m: UserId)
    requires var s := Compute(members, profiles, configs, code);
             s.reason.Some? && s.reason.value.FailingMembers? && m in s.reason.value.who
    ensures m in members && !Compute([m], profiles, configs, code).passed
  {
    PresenceSignalsExact([m], profiles, configs);
    LimitSignalsExact([m], profiles, configs, Limit(configs, TransferredSubjectsMax, 0.0),
                      Limit(configs, ProfileSubjectsAverageMax, 2.0));
    assert m in [m];
  }

  function Members(w: World, team: TeamId): seq<UserId> {
    if team in w.teams then w.teams[team].members else []
  }

  function RulesOf(configs: map<CallId, map<Code, Threshold>>, call: CallId): map<Code, Threshold> {
    if call in configs then configs[call] else map[]
  }

  /** What the computation reads for one application: its members, their profiles and the call's rules. */
  datatype Reading = Reading(members: seq<UserId>, profiles: map<UserId, Profile>, rules: map<Code, Threshold>)

  function ReadingOf(w: World, id: AppId): Reading
    requires id in w.apps
  {
    var members := Members(w, w.apps[id].team);
    Reading(members, map m | m in members && m in w.profiles :: w.profiles[m], RulesOf(w.configs, w.apps[id].call))
  }

  function SignalOf(r: Reading, code: Code): Signal {
    Compute(r.members, r.profiles, r.rules, code)
  }

  /** The signal an application should have now. */
  function Current(w: World, id: AppId, code: Code): Signal
    requires id in w.apps
  {
    SignalOf(ReadingOf(w, id), code)
  }

  /** It is computed from the members of the application's team and the rules of its call. */
  lemma CurrentReads(w: World, id: AppId, code: Code)
    requires id in w.apps
    ensures w.apps[id].team in w.teams && w.apps[id].call in w.configs ==>
              Current(w, id, code)
              == Compute(w.teams[w.apps[id].team].members, w.profiles, w.configs[w.apps[id].call], code)
    ensures w.apps[id].team in w.teams && w.apps[id].call !in w.configs ==>
              Current(w, id, code) == Compute(w.teams[w.apps[id].team].members, w.profiles, map[], code)
  {
    var r := ReadingOf(w, id);
    OwnRuleAndMembersOnly(r.members, code, r.profiles, w.profiles, r.rules, r.rules);
  }

  // ---------------------------------------------------------------- the cache

  /** An unknown team is reported first, except that accepting an invitation looks at the invitation before. */
  function MembershipCheck(teams: map<TeamId, Team>, team: TeamId, step: TeamStep): Outcome {
    if team in teams then TeamCheck(teams[team], step)
    else if step.Join? && step.refused.Some? then Failed(step.refused.value)
    else Failed(NotFound)
  }

  predicate IsActive(app: AppRow) {
    app.status != W.Rejected && app.status != W.Archived
  }

  function TeamApps(w: World, team: TeamId): set<AppId> {
    set id | id in w.apps && w.apps[id].team == team && IsActive(w.apps[id])
  }

  function StudentApps(w: World, user: UserId): set<AppId> {
    set id | id in w.apps && user in Members(w, w.apps[id].team) && IsActive(w.apps[id])
  }

  /** All five signals of every listed application, written unconditionally. */
  function Refreshed(cache: Cache, w: World, ids: set<AppId>): Cache
    requires ids <= w.apps.Keys
  {
    cache + map k | k in (set id, code | id in ids && code in CODES :: (id, code)) :: Current(w, k.0, k.1)
  }

  ghost predicate IsFresh(cache: Cache, w: World, id: AppId)
    requires id in w.apps
  {
    forall code :: (id, code) in cache && cache[(id, code)] == Current(w, id, code)
  }

  lemma AllCodes(code: Code)
    ensures code in CODES
  {
    assert CODES[match code case TeamSizeMin => 0 case DeclarationPresent => 1 case AcademicEvidencePresent => 2
                 case TransferredSubjectsMax => 3 case ProfileSubjectsAverageMax => 4] == code;
  }

  lemma RefreshedExact(cache: Cache, w: World, ids: set<AppId>)
    requires ids <= w.apps.Keys
    ensures var after := Refreshed(cache, w, ids);
            && (forall id | id in ids :: IsFresh(after, w, id))
            && forall id, code | id !in ids ::
                 ((id, code) in after <==> (id, code) in cache)
                 && ((id, code) in cache ==> after[(id, code)] == cache[(id, code)])
  {
    var after := Refreshed(cache, w, ids);
    forall id | id in ids ensures IsFresh(after, w, id) {
      forall code ensures (id, code) in after && after[(id, code)] == Current(w, id, code) {
        AllCodes(code);
        assert (id, code) in set i, c | i in ids && c in CODES :: (i, c);
      }
    }
  }

  datatype SignalDto = SignalDto(code: Code, passed: bool, reason: Option<Reason>, isComputed: bool)

  /** getSignalsForApplication: always five, in the order of the codes, with a placeholder for a missing one. */
  function GetSignals(cache: Cache, id: AppId): seq<SignalDto> {
    seq(|CODES|, i requires 0 <= i < |CODES| =>
      if (id, CODES[i]) in cache
      then SignalDto(CODES[i], cache[(id, CODES[i])].passed, cache[(id, CODES[i])].reason, true)
      else SignalDto(CODES[i], false, None, false))
  }

  /** What the upsert loop finds different from the fresh results. */
  predicate NeedsWrite(cache: Cache, w: World, id: AppId, code: Code)
    requires id in w.apps
  {
    (id, code) !in cache || cache[(id, code)] != Current(w, id, code)
  }

  /** The cache after the first n results have been written, changed or not. */
  function WrittenUpTo(cache: Cache, w: World, id: AppId, n: nat): Cache
    requires id in w.apps && n <= |CODES|
  {
    if n == 0 then cache
    else WrittenUpTo(cache, w, id, n - 1)[(id, CODES[n - 1]) := Current(w, id, CODES[n - 1])]
  }

  lemma {:induction false} WrittenUpToExact(cache: Cache, w: World, id: AppId, n: nat)
    requires id in w.apps && n <= |CODES|
    ensures forall k :: k in WrittenUpTo(cache, w, id, n) <==> k in cache || (k.0 == id && k.1 in CODES[..n])
    ensures forall k | k in WrittenUpTo(cache, w, id, n) ::
              WrittenUpTo(cache, w, id, n)[k]
              == if k.0 == id && k.1 in CODES[..n] then Current(w, id, k.1) else cache[k]
  {
    if n > 0 {
      WrittenUpToExact(cache, w, id, n - 1);
      assert CODES[..n] == CODES[..n - 1] + [CODES[n - 1]];
    }
  }

  /** No application is left out but the rejected and the archived ones. */
  lemma RefreshedApplications(w: World, team: TeamId, user: UserId)
    ensures TeamApps(w, team) <= w.apps.Keys && StudentApps(w, user) <= w.apps.Keys
    ensures forall id | id in w.apps :: id in TeamApps(w, team) <==>
              w.apps[id].team == team && w.apps[id].status !in {W.Rejected, W.Archived}
    ensures forall id | id in w.apps :: id in StudentApps(w, user) <==>
              && w.apps[id].team in w.teams && user in w.teams[w.apps[id].team].members
              && w.apps[id].status !in {W.Rejected, W.Archived}
  {}

  lemma RefreshedAt(cache: Cache, w: World, ids: set<AppId>)
    requires ids <= w.apps.Keys
    ensures forall k :: k in Refreshed(cache, w, ids) <==> k in cache || k.0 in ids
    ensures forall k | k in Refreshed(cache, w, ids) ::
              Refreshed(cache, w, ids)[k] == if k.0 in ids then Current(w, k.0, k.1) else cache[k]
  {
    RefreshedExact(cache, w, ids);
    forall k: (AppId, Code) | k.0 in ids
      ensures k in Refreshed(cache, w, ids) && Refreshed(cache, w, ids)[k] == Current(w, k.0, k.1)
    {
      assert IsFresh(Refreshed(cache, w, ids), w, k.0);
      assert k == (k.0, k.1);
    }
    forall k: (AppId, Code) | k.0 !in ids
      ensures k in Refreshed(cache, w, ids) <==> k in cache
      ensures k in cache ==> Refreshed(cache, w, ids)[k] == cache[k]
    {
      assert k == (k.0, k.1);
    }
  }

  lemma SameMap(a: Cache, b: Cache)
    requires forall k :: k in a <==> k in b
    requires forall k | k in a :: a[k] == b[k]
    ensures a == b
  {}

  lemma WrittenAll(cache: Cache, w: World, id: AppId)
    requires id in w.apps
    ensures forall k :: k in WrittenUpTo(cache, w, id, |CODES|) <==> k in cache || k.0 == id
    ensures forall k | k in WrittenUpTo(cache, w, id, |CODES|) ::
              WrittenUpTo(cache, w, id, |CODES|)[k] == if k.0 == id then Current(w, id, k.1) else cache[k]
  {
    WrittenUpToExact(cache, w, id, |CODES|);
    assert CODES[..|CODES|] == CODES;
    forall code ensures code in CODES { AllCodes(code); }
  }

  lemma WritingAllIsRefreshing(cache: Cache, w: World, id: AppId)
    requires id in w.apps
    ensures WrittenUpTo(cache, w, id, |CODES|) == Refreshed(cache, w, {id})
  {
    WrittenAll(cache, w, id);
    RefreshedAt(cache, w, {id});
    SameMap(WrittenUpTo(cache, w, id, |CODES|), Refreshed(cache, w, {id}));
  }

  /** Skipping result n leaves the same cache as writing it, if the stored one is equal. */
  lemma SkippingIsWriting(cache: Cache, w: World, id: AppId, n: nat)
    requires id in w.apps && n < |CODES| && !NeedsWrite(cache, w, id, CODES[n])
    ensures WrittenUpTo(cache, w, id, n + 1) == WrittenUpTo(cache, w, id, n)
  {
    WrittenUpToExact(cache, w, id, n);
  }

  lemma RefreshInTwoParts(cache: Cache, w: World, a: set<AppId>, b: set<AppId>)
    requires a <= w.apps.Keys && b <= w.apps.Keys
    ensures Refreshed(Refreshed(cache, w, a), w, b) == Refreshed(cache, w, a + b)
  {
    RefreshedAt(cache, w, a);
    RefreshedAt(Refreshed(cache, w, a), w, b);
    RefreshedAt(cache, w, a + b);
    SameMap(Refreshed(Refreshed(cache, w, a), w, b), Refreshed(cache, w, a + b));
  }

  class SignalDesk {
    var apps: map<AppId, AppRow>
    var teams: map<TeamId, Team>
    var profiles: map<UserId, Profile>
    var configs: map<CallId, map<Code, Threshold>>
    var cache: Cache

    ghost function View(): World
      reads this
    {
      World(apps, teams, profiles, configs)
    }

    constructor (w: World)
      ensures View() == w && cache == map[]
    {
      apps, teams, profiles, configs, cache := w.apps, w.teams, w.profiles, w.configs, map[];
    }

    method UpsertSignal(id: AppId, code: Code, signal: Signal)
      modifies this`cache
      ensures cache == old(cache)[(id, code) := signal]
    {
      cache := cache[(id, code) := signal];
    }

    /** The loop skips what is unchanged, yet leaves what writing all five would leave. */
    method RecomputeForApplication(id: AppId) returns (r: Outcome, written: seq<Code>)
      modifies this`cache
      ensures r == if id in apps then Done else Failed(NotFound)
      ensures id !in apps ==> cache == old(cache) && written == []
      ensures id in apps ==> cache == Refreshed(old(cache), View(), {id})
      ensures id in apps ==> forall code :: code in written <==> NeedsWrite(old(cache), View(), id, code)
    {
      written := [];
      if id !in apps { return Failed(NotFound), []; }
      var app := apps[id];
      var members := if app.team in teams then teams[app.team].members else [];
      var rules := if app.call in configs then configs[app.call] else map[];
      var known := map m | m in members && m in profiles :: profiles[m];
      var results := seq(|CODES|, i requires 0 <= i < |CODES| => Compute(members, known, rules, CODES[i]));
      var existing := cache;
      for i := 0 to |CODES|
        invariant cache == WrittenUpTo(existing, View(), id, i)
        invariant forall code :: code in written <==> code in CODES[..i] && NeedsWrite(existing, View(), id, code)
      {
        var code, result := CODES[i], results[i];
        assert CODES[..i + 1] == CODES[..i] + [code];
        if (id, code) in existing && existing[(id, code)] == result {
          SkippingIsWriting(existing, View(), id, i);
          continue;
        }
        UpsertSignal(id, code, result);
        written := written + [code];
      }
      WritingAllIsRefreshing(existing, View(), id);
      assert CODES[..|CODES|] == CODES;
      forall code ensures code in CODES { AllCodes(code); }
      r := Done;
    }

    method RecomputeForEach(ids: set<AppId>)
      requires ids <= apps.Keys
      modifies this`cache
      ensures cache == Refreshed(old(cache), View(), ids)
    {
      var pending := ids;
      while pending != {}
        invariant pending <= ids
        invariant cache == Refreshed(old(cache), View(), ids - pending)
        decreases pending
      {
        var id :| id in pending;
        var r, written := RecomputeForApplication(id);
        RefreshInTwoParts(old(cache), View(), ids - pending, {id});
        assert ids - (pending - {id}) == ids - pending + {id};
        pending := pending - {id};
      }
      assert ids - pending == ids;
    }

    /** recomputeForTeamApplications. */
    method RecomputeForTeam(team: TeamId)
      modifies this`cache
      ensures cache == Refreshed(old(cache), View(), TeamApps(View(), team))
    {
      RecomputeForEach(set id | id in apps && apps[id].team == team && IsActive(apps[id]));
    }

    /** removeMember, leaveTeam, transferLeadership and accepting an invitation: the change, then the refresh. */
    method ChangeMembership(team: TeamId, step: TeamStep) returns (r: Outcome)
      requires !step.Lock?
      modifies this`teams, this`cache
      ensures r == MembershipCheck(old(teams), team, step)
      ensures team in old(teams) ==> r == TeamCheck(old(teams)[team], step)
      ensures team !in old(teams) ==>
                r == Failed(match step case Join(_, Some(e), _) => e case _ => NotFound)
      ensures r.Failed? ==> teams == old(teams) && cache == old(cache)
      ensures r == Done ==> team in old(teams) && teams == old(teams)[team := NextTeam(old(teams)[team], step)]
      ensures r == Done ==> cache == Refreshed(old(cache), View(), TeamApps(View(), team))
    {
      r := MembershipCheck(teams, team, step);
      if r.Failed? { return; }
      teams := teams[team := NextTeam(teams[team], step)];
      RecomputeForTeam(team);
    }

    /** recomputeForStudentApplications. */
    method RecomputeForStudent(user: UserId)
      modifies this`cache
      ensures cache == Refreshed(old(cache), View(), StudentApps(View(), user))
    {
      var ids := set id | id in apps && IsActive(apps[id])
        && user in (if apps[id].team in teams then teams[apps[id].team].members else []);
      assert ids == StudentApps(View(), user);
      RecomputeForEach(ids);
    }

    /** updateAcademicInformation when no other request comes between its write and its refresh. */
    method UpdateProfile(user: UserId, profile: Profile)
      modifies this`profiles, this`cache
      ensures profiles == old(profiles)[user := profile]
      ensures cache == Refreshed(old(cache), View(), StudentApps(View(), user))
    {
      profiles := profiles[user := profile];
      RecomputeForStudent(user);
    }
  }

  /** A second recompute finds nothing to write. */
  lemma SecondRecomputeWritesNothing(cache: Cache, w: World, id: AppId)
    requires id in w.apps
    ensures forall code :: !NeedsWrite(Refreshed(cache, w, {id}), w, id, code)
  {
    RefreshedExact(cache, w, {id});
    assert IsFresh(Refreshed(cache, w, {id}), w, id);
  }

  /** A signal that was never stored reads as not passed and not computed, a stored one as it is. */
  lemma ReadsWhatIsStored(cache: Cache, id: AppId, code: Code)
    ensures var dtos := GetSignals(cache, id);
            exists i :: 0 <= i < |dtos| && dtos[i].code == code
              && (forall j | 0 <= j < |dtos| :: dtos[j].code == code ==> j == i)
              && (if (id, code) !in cache then dtos[i] == SignalDto(code, false, None, false)
                  else dtos[i] == SignalDto(code, cache[(id, code)].passed, cache[(id, code)].reason, true))
  {
    AllCodes(code);
    var i :| 0 <= i < |CODES| && CODES[i] == code;
    assert GetSignals(cache, id)[i].code == code;
    assert forall j | 0 <= j < |CODES| :: GetSignals(cache, id)[j].code == CODES[j];
  }

  /** After a recompute, reading returns the five current signals in order. */
  lemma ReadAfterRecompute(cache: Cache, w: World, id: AppId)
    requires id in w.apps
    ensures var dtos := GetSignals(Refreshed(cache, w, {id}), id);
            |dtos| == 5 && forall i | 0 <= i < 5 ::
              dtos[i] == SignalDto(CODES[i], Current(w, id, CODES[i]).passed, Current(w, id, CODES[i]).reason, true)
  {
    RefreshedExact(cache, w, {id});
    assert IsFresh(Refreshed(cache, w, {id}), w, id);
  }

  // ---------------------------------------------------------------- which rule changes matter

  /** Exactly one of the two limits is below the number. */
  predicate Between(x: real, a: real, b: real) {
    a < x <= b || b < x <= a
  }

  function TransferredCount(p: Profile): real {
    (if p.transferred.Some? then p.transferred.value else 1) as real
  }

  /** The minimum changes and the team is below the old or the new one. */
  predicate MinimumMatters(count: nat, before: map<Code, Threshold>, after: map<Code, Threshold>) {
    var a, b := Limit(before, TeamSizeMin, 3.0), Limit(after, TeamSizeMin, 3.0);
    a != b && (count as real < a || count as real < b)
  }

  predicate TransferredMatters(p: Profile, before: map<Code, Threshold>, after: map<Code, Threshold>) {
    p.hasTransferred && Between(TransferredCount(p), Limit(before, TransferredSubjectsMax, 0.0),
                                Limit(after, TransferredSubjectsMax, 0.0))
  }

  predicate AverageMatters(p: Profile, before: map<Code, Threshold>, after: map<Code, Threshold>) {
    p.average.Some? && Between(p.average.value, Limit(before, ProfileSubjectsAverageMax, 2.0),
                               Limit(after, ProfileSubjectsAverageMax, 2.0))
  }

  /** For this team the new thresholds decide otherwise than the old ones, read off the numbers. */
  predicate RulesMatter(members: seq<UserId>, profiles: map<UserId, Profile>,
                        before: map<Code, Threshold>, after: map<Code, Threshold>) {
    || MinimumMatters(|members|, before, after)
    || exists m | m in members ::
         m in profiles && (TransferredMatters(profiles[m], before, after) || AverageMatters(profiles[m], before, after))
  }

  lemma MinimumMattersExactly(members: seq<UserId>, before: map<Code, Threshold>, after: map<Code, Threshold>)
    ensures TeamSizeSignal(members, before) != TeamSizeSignal(members, after)
       <==> MinimumMatters(|members|, before, after)
  {}

  lemma TransferredMattersExactly(members: seq<UserId>, profiles: map<UserId, Profile>,
                                  before: map<Code, Threshold>, after: map<Code, Threshold>)
    ensures Compute(members, profiles, before, TransferredSubjectsMax)
         != Compute(members, profiles, after, TransferredSubjectsMax)
       <==> exists m | m in members :: m in profiles && TransferredMatters(profiles[m], before, after)
  {
    var a, b := Limit(before, TransferredSubjectsMax, 0.0), Limit(after, TransferredSubjectsMax, 0.0);
    var fa := set m | m in members && TransferredTooMany(profiles, m, a);
    var fb := set m | m in members && TransferredTooMany(profiles, m, b);
    assert fa == fb <==> forall m | m in members :: m in fa <==> m in fb;
    assert forall m | m in members ::
        (m in fa <==> m in fb) <==> !(m in profiles && TransferredMatters(profiles[m], before, after));
  }

  lemma AverageMattersExactly(members: seq<UserId>, profiles: map<UserId, Profile>,
                              before: map<Code, Threshold>, after: map<Code, Threshold>)
    ensures Compute(members, profiles, before, ProfileSubjectsAverageMax)
         != Compute(members, profiles, after, ProfileSubjectsAverageMax)
       <==> exists m | m in members :: m in profiles && AverageMatters(profiles[m], before, after)
  {
    var a, b := Limit(before, ProfileSubjectsAverageMax, 2.0), Limit(after, ProfileSubjectsAverageMax, 2.0);
    var fa := set m | m in members && AverageTooHigh(profiles, m, a);
    var fb := set m | m in members && AverageTooHigh(profiles, m, b);
    assert fa == fb <==> forall m | m in members :: m in fa <==> m in fb;
    assert forall m | m in members ::
        (m in fa <==> m in fb) <==> !(m in profiles && AverageMatters(profiles[m], before, after));
  }

  /** New rules change one of the five signals exactly when a number of the team lies between old and new limit. */
  lemma RulesMatterExactly(members: seq<UserId>, profiles: map<UserId, Profile>,
                           before: map<Code, Threshold>, after: map<Code, Threshold>)
    ensures (exists code :: Compute(members, profiles, before, code) != Compute(members, profiles, after, code))
       <==> RulesMatter(members, profiles, before, after)
  {
    MinimumMattersExactly(members, before, after);
    TransferredMattersExactly(members, profiles, before, after);
    AverageMattersExactly(members, profiles, before, after);
    forall code | Compute(members, profiles, before, code) != Compute(members, profiles, after, code)
      ensures code == TeamSizeMin || code == TransferredSubjectsMax || code == ProfileSubjectsAverageMax
    {}
    if MinimumMatters(|members|, before, after) {
      assert Compute(members, profiles, before, TeamSizeMin) != Compute(members, profiles, after, TeamSizeMin);
    }
  }
}
