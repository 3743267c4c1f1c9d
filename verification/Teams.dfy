/** Team membership: src/team/team.service.ts, its repository, and the joining step of team invitations. */
module Teams {
  import opened Common

  datatype Team = Team(leader: UserId, members: seq<UserId>, lockedAt: Option<Time>)

  datatype TeamStep =
    | RemoveMember(actor: UserId, member: UserId)
    | Leave(actor: UserId)
    | Transfer(actor: UserId, newLeader: UserId)
    | Join(user: UserId, refused: Option<Error>, lapsed: Option<Error>) // the invitation's checks around the lock
    | Lock(now: Time, overlaps: bool) // the last write of submit; it overlaps if it had read the team unlocked

  function Without(members: seq<UserId>, user: UserId): seq<UserId> {
    if members == [] then []
    else (if members[0] == user then [] else [members[0]]) + Without(members[1..], user)
  }

  lemma {:induction false} WithoutRemoves(members: seq<UserId>, user: UserId)
    ensures forall m :: m in Without(members, user) <==> m in members && m != user
    ensures multiset(Without(members, user)) == multiset(members)[user := 0]
    ensures |Without(members, user)| <= |members|
    ensures user in members ==> |Without(members, user)| < |members|
  {
    if members != [] {
      WithoutRemoves(members[1..], user);
      assert members == [members[0]] + members[1..];
    }
  }

  function TeamCheck(t: Team, step: TeamStep): Outcome {
    match step
    case RemoveMember(actor, member) =>
      if t.leader != actor then Failed(Forbidden)
      else if t.lockedAt.Some? then Failed(Conflict)
      else if member == t.leader then Failed(Conflict)
      else if member !in t.members then Failed(NotFound)
      else Done
    case Leave(actor) =>
      if t.lockedAt.Some? then Failed(Conflict)
      else if actor !in t.members then Failed(NotFound)
      else if actor == t.leader then Failed(Conflict)
      else Done
    case Transfer(actor, newLeader) =>
      if t.leader != actor then Failed(Forbidden)
      else if t.lockedAt.Some? then Failed(Conflict)
      else if newLeader !in t.members then Failed(NotFound)
      else Done
    case Join(user, refused, lapsed) =>
      if refused.Some? then Failed(refused.value)
      else if t.lockedAt.Some? then Failed(Conflict)
      else if lapsed.Some? then Failed(lapsed.value)
      else if user in t.members then Failed(Conflict)
      else Done
    case Lock(_, _) => Done
  }

  function NextTeam(t: Team, step: TeamStep): Team {
    if TeamCheck(t, step).Failed? then t
    else
      match step
      case RemoveMember(_, member) => t.(members := Without(t.members, member))
      case Leave(actor) => t.(members := Without(t.members, actor))
      case Transfer(_, newLeader) => t.(leader := newLeader)
      case Join(user, _, _) => t.(members := t.members + [user])
      case Lock(now, overlaps) => if t.lockedAt.None? || overlaps then t.(lockedAt := Some(now)) else t
  }

  /**
   The change still applies to the team it lands on, having seen it unlocked. A transfer writes the
   team's own row, so it fails if the lock was written since; the others write membership rows and do
   not notice.
   */
  predicate StillApplies(t: Team, change: TeamStep) {
    TeamCheck(if change.Transfer? then t else t.(lockedAt := None), change) == Done
  }

  function LandedTeam(t: Team, change: TeamStep): Team {
    if !StillApplies(t, change) then t
    else if change.Transfer? then NextTeam(t, change)
    else NextTeam(t.(lockedAt := None), change).(lockedAt := t.lockedAt)
  }

  class TeamRecord {
    var leader: UserId
    var members: seq<UserId>
    var lockedAt: Option<Time>

    ghost function View(): Team
      reads this
    {
      Team(leader, members, lockedAt)
    }

    /** create and ensurePersonalTeamForUser: the creator leads and is the first member. */
    constructor (creator: UserId)
      ensures View() == Team(creator, [creator], None)
    {
      leader, members, lockedAt := creator, [creator], None;
    }

    /** deleteMany on the membership rows, with the number of rows it deleted. */
    method DeleteMembership(user: UserId) returns (count: nat)
      modifies this`members
      ensures members == Without(old(members), user)
      ensures count == |old(members)| - |members|
    {
      WithoutRemoves(members, user);
      count := |members| - |Without(members, user)|;
      members := Without(members, user);
    }

    method RemoveTeamMember(actor: UserId, member: UserId) returns (r: Outcome)
      modifies this
      ensures View() == NextTeam(old(View()), RemoveMember(actor, member))
      ensures r == TeamCheck(old(View()), RemoveMember(actor, member))
      ensures leader == old(leader) && lockedAt == old(lockedAt)
      ensures multiset(members) == if r == Done then multiset(old(members))[member := 0] else multiset(old(members))
    {
      if leader != actor { return Failed(Forbidden); }
      if lockedAt.Some? { return Failed(Conflict); }
      if member == leader { return Failed(Conflict); }
      if member !in members { return Failed(NotFound); }
      WithoutRemoves(members, member);
      var count := DeleteMembership(member);
      return Done;
    }

    method LeaveTeam(actor: UserId) returns (r: Outcome)
      modifies this
      ensures View() == NextTeam(old(View()), Leave(actor))
      ensures r == TeamCheck(old(View()), Leave(actor))
      ensures leader == old(leader) && lockedAt == old(lockedAt)
      ensures multiset(members) == if r == Done then multiset(old(members))[actor := 0] else multiset(old(members))
    {
      if lockedAt.Some? { return Failed(Conflict); }
      if actor !in members { return Failed(NotFound); }
      if actor == leader { return Failed(Conflict); }
      WithoutRemoves(members, actor);
      var count := DeleteMembership(actor);
      return Done;
    }

    method TransferLeadership(actor: UserId, newLeader: UserId) returns (r: Outcome)
      modifies this
      ensures View() == NextTeam(old(View()), Transfer(actor, newLeader))
      ensures r == TeamCheck(old(View()), Transfer(actor, newLeader))
      ensures r == Done <==> old(leader) == actor && old(lockedAt).None? && newLeader in old(members)
      ensures r == Done ==> leader == newLeader && members == old(members) && lockedAt == old(lockedAt)
      ensures r != Done ==> leader == old(leader) && members == old(members) && lockedAt == old(lockedAt)
    {
      if leader != actor { return Failed(Forbidden); }
      if lockedAt.Some? { return Failed(Conflict); }
      if newLeader !in members { return Failed(NotFound); }
      leader := newLeader;
      return Done;
    }

    /** Unknown, used and foreign invitations are reported before the lock, expired and revoked ones after it. */
    method AcceptInvitation(user: UserId, refused: Option<Error>, lapsed: Option<Error>) returns (r: Outcome)
      modifies this`members
      ensures View() == NextTeam(old(View()), Join(user, refused, lapsed))
      ensures r == TeamCheck(old(View()), Join(user, refused, lapsed))
      ensures r == Done <==> old(lockedAt).None? && user !in old(members) && refused.None? && lapsed.None?
      ensures members == if r == Done then old(members) + [user] else old(members)
    {
      if refused.Some? { return Failed(refused.value); }
      if lockedAt.Some? { return Failed(Conflict); }
      if lapsed.Some? { return Failed(lapsed.value); }
      if user in members { return Failed(Conflict); }
      members := members + [user];
      return Done;
    }

    /** Decided by the lock that the submit had read; nothing ever unlocks a team. */
    method LockOnSubmission(now: Time, seen: Option<Time>)
      requires seen.Some? ==> lockedAt.Some?
      modifies this`lockedAt
      ensures lockedAt == if seen.None? then Some(now) else old(lockedAt)
      ensures View() == NextTeam(old(View()), Lock(now, seen.None?))
    {
      if seen.None? { lockedAt := Some(now); }
    }
  }

  // ---------------------------------------------------------------- who may do what

  /** Every error and every acceptance, from the leader, the lock and the members. */
  lemma TeamAnswers(t: Team, step: TeamStep)
    ensures var (r, unlocked) := (TeamCheck(t, step), t.lockedAt.None?);
            match step
            case RemoveMember(actor, member) =>
              && (r == Done <==> actor == t.leader && unlocked && member in t.members && member != t.leader)
              && (r == Failed(Forbidden) <==> actor != t.leader)
              && (r == Failed(Conflict) <==> actor == t.leader && (!unlocked || member == t.leader))
              && (r == Failed(NotFound) <==>
                    actor == t.leader && unlocked && member != t.leader && member !in t.members)
            case Leave(actor) =>
              && (r == Done <==> unlocked && actor in t.members && actor != t.leader)
              && (r == Failed(Conflict) <==> !unlocked || (actor in t.members && actor == t.leader))
              && (r == Failed(NotFound) <==> unlocked && actor !in t.members)
            case Transfer(actor, newLeader) =>
              && (r == Done <==> actor == t.leader && unlocked && newLeader in t.members)
              && (r == Failed(Forbidden) <==> actor != t.leader)
              && (r == Failed(Conflict) <==> actor == t.leader && !unlocked)
              && (r == Failed(NotFound) <==> actor == t.leader && unlocked && newLeader !in t.members)
            case Join(user, refused, lapsed) =>
              && (r == Done <==> unlocked && user !in t.members && refused.None? && lapsed.None?)
              && (refused.Some? ==> r == Failed(refused.value))
              && (refused.None? && !unlocked ==> r == Failed(Conflict))
              && (refused.None? && unlocked && lapsed.Some? ==> r == Failed(lapsed.value))
              && (refused.None? && unlocked && lapsed.None? && user in t.members ==> r == Failed(Conflict))
            case Lock(_, _) => r == Done
  {}

  /** What each accepted step leaves behind; a refused one leaves the team as it was. */
  lemma TeamEffects(t: Team, step: TeamStep)
    ensures var t' := NextTeam(t, step);
            if TeamCheck(t, step) != Done then t' == t
            else
              match step
              case RemoveMember(_, member) =>
                t'.leader == t.leader && t'.lockedAt == t.lockedAt
                && multiset(t'.members) == multiset(t.members)[member := 0]
              case Leave(actor) =>
                t'.leader == t.leader && t'.lockedAt == t.lockedAt
                && multiset(t'.members) == multiset(t.members)[actor := 0]
              case Transfer(_, newLeader) => t' == Team(newLeader, t.members, t.lockedAt)
              case Join(user, _, _) => t' == Team(t.leader, t.members + [user], t.lockedAt)
              case Lock(now, overlaps) =>
                t'.leader == t.leader && t'.members == t.members
                && t'.lockedAt == (if t.lockedAt.None? || overlaps then Some(now) else t.lockedAt)
  {
    match step
    case RemoveMember(_, member) => WithoutRemoves(t.members, member);
    case Leave(actor) => WithoutRemoves(t.members, actor);
    case _ =>
  }

  /** A change that lands on a team still unlocked is an ordinary step; on a locked one a transfer fails. */
  lemma LandingIsAStep(t: Team, change: TeamStep)
    requires !change.Lock?
    ensures t.lockedAt.None? ==> LandedTeam(t, change) == NextTeam(t, change)
    ensures t.lockedAt.Some? ==>
              LandedTeam(t, change).leader == t.leader && LandedTeam(t, change).lockedAt == t.lockedAt
    ensures t.lockedAt.Some? && change.Transfer? ==> LandedTeam(t, change) == t
    ensures t.lockedAt.Some? && !change.Transfer? ==>
              LandedTeam(t, change).members == NextTeam(Team(t.leader, t.members, None), change).members
  {
    assert Team(t.leader, t.members, None) == t.(lockedAt := None);
  }

  // ---------------------------------------------------------------- what runs keep

  function RunTeam(t: Team, steps: seq<TeamStep>): Team
    decreases |steps|
  {
    if steps == [] then t else RunTeam(NextTeam(t, steps[0]), steps[1..])
  }

  lemma LeaderStaysMember(t: Team, step: TeamStep)
    requires t.leader in t.members
    ensures NextTeam(t, step).leader in NextTeam(t, step).members
  {
    match step
    case RemoveMember(_, member) => WithoutRemoves(t.members, member);
    case Leave(actor) => WithoutRemoves(t.members, actor);
    case _ =>
  }

  /** From creation on, the leader is always a member. */
  lemma {:induction false} LeaderIsAlwaysMember(t: Team, steps: seq<TeamStep>)
    requires t.leader in t.members
    ensures RunTeam(t, steps).leader in RunTeam(t, steps).members
    decreases |steps|
  {
    if steps != [] {
      LeaderStaysMember(t, steps[0]);
      LeaderIsAlwaysMember(NextTeam(t, steps[0]), steps[1..]);
    }
  }

  /** Once locked, no sequence of team operations changes leader or members; overlapping submits move the time. */
  lemma {:induction false} LockedTeamIsFrozen(t: Team, steps: seq<TeamStep>)
    requires t.lockedAt.Some?
    ensures var t' := RunTeam(t, steps);
            && t'.leader == t.leader && t'.members == t.members && t'.lockedAt.Some?
            && ((forall k | 0 <= k < |steps| && steps[k].Lock? :: !steps[k].overlaps) ==> t' == t)
    decreases |steps|
  {
    if steps != [] {
      assert forall k | 0 <= k < |steps| - 1 :: steps[1..][k] == steps[k + 1];
      LockedTeamIsFrozen(NextTeam(t, steps[0]), steps[1..]);
    }
  }

  /** Step i hands the team over: the leader names a member while the team is unlocked. */
  predicate HandsOver(t: Team, steps: seq<TeamStep>, i: nat) {
    && i < |steps| && steps[i].Transfer?
    && var now := RunTeam(t, steps[..i]);
       now.leader == steps[i].actor && now.lockedAt.None? && steps[i].newLeader in now.members
  }

  ghost predicate LastHandOver(t: Team, steps: seq<TeamStep>, i: nat) {
    HandsOver(t, steps, i) && forall j: nat :: i < j < |steps| ==> !HandsOver(t, steps, j)
  }

  lemma {:induction false} RunTeamSnoc(t: Team, steps: seq<TeamStep>, step: TeamStep)
    ensures RunTeam(t, steps + [step]) == NextTeam(RunTeam(t, steps), step)
    decreases |steps|
  {
    if steps == [] {
      assert RunTeam(t, [step]) == RunTeam(NextTeam(t, step), [step][1..]);
    } else {
      assert (steps + [step])[1..] == steps[1..] + [step];
      RunTeamSnoc(NextTeam(t, steps[0]), steps[1..], step);
    }
  }

  /** After any steps the leader is whom the last accepted transfer named, or the first leader without one. */
  lemma {:induction false} LeaderIsLastNamed(t: Team, steps: seq<TeamStep>)
    ensures (exists i: nat :: LastHandOver(t, steps, i) && RunTeam(t, steps).leader == steps[i].newLeader)
            || ((forall i: nat :: !HandsOver(t, steps, i)) && RunTeam(t, steps).leader == t.leader)
  {
    if steps != [] {
      var n := |steps| - 1;
      var before := steps[..n];
      assert steps == before + [steps[n]];
      LeaderIsLastNamed(t, before);
      RunTeamSnoc(t, before, steps[n]);
      forall i: nat | i < n ensures HandsOver(t, steps, i) <==> HandsOver(t, before, i) {
        assert steps[..i] == before[..i];
      }
      if HandsOver(t, steps, n) {
        assert LastHandOver(t, steps, n);
      } else if i: nat :| LastHandOver(t, before, i) && RunTeam(t, before).leader == before[i].newLeader {
        assert LastHandOver(t, steps, i);
      }
    }
  }
}
