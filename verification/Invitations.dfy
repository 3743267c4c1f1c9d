/**
 Organization invitations: src/organization/organization-invite.service.ts, its repository, and the
 shared state and creation helpers of src/common/invitations/.

 create, revoke and resend read in one statement and write in another, unconditionally and outside
 any transaction; `Begin...` is the read with its checks, `Insert` and `Land` the writes. Accepting
 locks the row and is one step. Sending the email may fail at any later point, and then the
 invitation is deleted (create) or its token and expiry are put back (resend).
 */
module Invitations {
  import opened Common

  type InviteId = string
  type OrgId = string
  type Email = string
  type Token = string
  type MailId = nat

  datatype InvitationStatus = Pending | Accepted | Expired | Revoked

  datatype Invitation = Invitation(
    email: Email, org: OrgId, token: Token, status: InvitationStatus,
    expiresAt: Time, acceptedAt: Option<Time>, revokedAt: Option<Time>)

  // ---------------------------------------------------------------- the state helpers

  predicate IsPendingAndUnexpired(i: Invitation, at: Time) {
    i.status == Pending && i.acceptedAt == None && i.revokedAt == None && i.expiresAt > at
  }

  /** resolveDisplayInvitationStatus. */
  function DisplayStatus(i: Invitation, now: Time): InvitationStatus {
    if i.status == Revoked || i.revokedAt != None then Revoked
    else if i.status == Accepted || i.acceptedAt != None then Accepted
    else if i.status == Expired || i.expiresAt <= now then Expired
    else Pending
  }

  /** buildStatusWhere: the rows that a list request for `wanted` selects. */
  predicate StatusFilter(i: Invitation, wanted: InvitationStatus, now: Time) {
    match wanted
    case Pending => i.status == Pending && i.acceptedAt == None && i.revokedAt == None && i.expiresAt > now
    case Expired =>
      i.status == Expired || (i.status == Pending && i.acceptedAt == None && i.revokedAt == None && i.expiresAt <= now)
    case Accepted => i.status == Accepted || i.acceptedAt != None
    case Revoked => i.status == Revoked || i.revokedAt != None
  }

  function AssertAcceptable(i: Invitation, now: Time): Outcome {
    if i.status == Revoked || i.revokedAt != None then Failed(BadRequest)
    else if i.status == Expired || i.expiresAt <= now then Failed(BadRequest)
    else if i.status == Accepted || i.acceptedAt != None then Failed(Conflict)
    else if i.status != Pending then Failed(BadRequest)
    else Done
  }

  /** The condition of findActivePendingByEmailAndOrganization, which does not look at acceptedAt. */
  predicate IsActive(i: Invitation, at: Time) {
    i.status == Pending && i.revokedAt == None && i.expiresAt > at
  }

  // ---------------------------------------------------------------- the store and its steps

  /** A write to come, with what its request read. */
  datatype Txn =
    | NewInvite(email: Email, org: OrgId)
    | Cancel(id: InviteId, at: Time)
    | Renew(id: InviteId, token: Token, expiresAt: Time, previousToken: Token, previousExpiresAt: Time)

  /** An email on its way, with what its failure would undo. */
  datatype Mail = Creation(id: InviteId) | Resending(id: InviteId, token: Token, expiresAt: Time)

  /** `used` holds every id ever generated; `days` is the configured validity. */
  datatype Store = Store(
    rows: map<InviteId, Invitation>, used: set<InviteId>, inflight: map<TxnId, Txn>, mails: map<MailId, Mail>,
    now: Time, days: nat)

  function Empty(now: Time, days: nat): Store {
    Store(map[], {}, map[], map[], now, days)
  }

  const DAY: Time := 24 * 60 * 60 * 1000

  function NewExpiry(st: Store): Time {
    st.now + st.days * DAY
  }

  /** `obstacle`, `refused` and `unfit` are what the checks report that are not modelled. */
  datatype Step =
    | BeginCreate(tid: TxnId, email: Email, org: OrgId, obstacle: Option<Error>)
    | BeginRevoke(tid: TxnId, target: InviteId, org: OrgId, obstacle: Option<Error>)
    | BeginResend(tid: TxnId, target: InviteId, org: OrgId, token: Token, obstacle: Option<Error>)
    | Insert(tid: TxnId, mail: MailId, id: InviteId, token: Token) // the insert of a create
    | Land(tid: TxnId, mail: MailId) // the update of a revoke or a resend
    | Accept(found: InviteId, token: Token, user: Email, refused: Option<Error>, unfit: Option<Error>)
    | MailSent(mail: MailId)
    | MailFailed(mail: MailId)
    | Tick(to: Time)

  predicate HasActive(st: Store, email: Email, org: OrgId) {
    exists id | id in st.rows ::
      st.rows[id].email == email && st.rows[id].org == org && IsActive(st.rows[id], st.now)
  }

  function CreateCheck(st: Store, email: Email, org: OrgId, obstacle: Option<Error>): Outcome {
    if obstacle.Some? then Failed(obstacle.value)
    else if HasActive(st, email, org) then Failed(Conflict)
    else Done
  }

  /** Revoking and resending ask for the same: access, a row of the organization, pending and unexpired. */
  function ChangeCheck(st: Store, id: InviteId, org: OrgId, obstacle: Option<Error>): Outcome {
    if obstacle.Some? then Failed(obstacle.value)
    else if id !in st.rows || st.rows[id].org != org then Failed(NotFound)
    else if !IsPendingAndUnexpired(st.rows[id], st.now) then Failed(BadRequest)
    else Done
  }

  /** `refused` is about the organization, `unfit` about the role and the user. */
  function AcceptCheck(st: Store, id: InviteId, token: Token, user: Email, refused: Option<Error>,
                       unfit: Option<Error>): Outcome {
    if id !in st.rows || st.rows[id].token != token then Failed(NotFound)
    else if st.rows[id].email != user then Failed(Forbidden)
    else if refused.Some? then Failed(refused.value)
    else if AssertAcceptable(st.rows[id], st.now).Failed? then AssertAcceptable(st.rows[id], st.now)
    else if unfit.Some? then Failed(unfit.value)
    else Done
  }

  /** The insert goes through: ids and emails are new. */
  predicate Inserts(st: Store, step: Step) {
    step.Insert? && step.tid in st.inflight && st.inflight[step.tid].NewInvite?
    && step.id !in st.used && step.mail !in st.mails
  }

  /** The update of a revoke goes through: its row has not been deleted. */
  predicate Cancels(st: Store, step: Step) {
    step.Land? && step.tid in st.inflight && st.inflight[step.tid].Cancel? && st.inflight[step.tid].id in st.rows
  }

  predicate Renews(st: Store, step: Step) {
    step.Land? && step.tid in st.inflight && st.inflight[step.tid].Renew? && st.inflight[step.tid].id in st.rows
    && step.mail !in st.mails
  }

  function Withdrawn(row: Invitation, at: Time): Invitation {
    row.(status := Revoked, revokedAt := Some(at))
  }

  function Renewed(row: Invitation, txn: Txn): Invitation
    requires txn.Renew?
  {
    row.(token := txn.token, status := Pending, expiresAt := txn.expiresAt)
  }

  function Begun(st: Store, tid: TxnId, check: Outcome, txn: Txn): Store {
    if tid in st.inflight || check.Failed? then st else st.(inflight := st.inflight[tid := txn])
  }

  function Landed(st: Store, step: Step): Store
    requires step.Land?
  {
    if Cancels(st, step) then
      var txn := st.inflight[step.tid];
      st.(rows := st.rows[txn.id := Withdrawn(st.rows[txn.id], txn.at)], inflight := st.inflight - {step.tid})
    else if Renews(st, step) then
      var txn := st.inflight[step.tid];
      st.(rows := st.rows[txn.id := Renewed(st.rows[txn.id], txn)], inflight := st.inflight - {step.tid},
          mails := st.mails[step.mail := Resending(txn.id, txn.previousToken, txn.previousExpiresAt)])
    else st
  }

  function RolledBack(st: Store, mail: MailId): Store {
    if mail !in st.mails then st
    else
      var rest := st.(mails := st.mails - {mail});
      match st.mails[mail]
      case Creation(id) => rest.(rows := st.rows - {id})
      case Resending(id, token, expiresAt) =>
        if id !in st.rows then rest
        else rest.(rows := st.rows[id := st.rows[id].(token := token, expiresAt := expiresAt)])
  }

  function Next(st: Store, step: Step): Store {
    match step
    case BeginCreate(tid, email, org, obstacle) =>
      Begun(st, tid, CreateCheck(st, email, org, obstacle), NewInvite(email, org))
    case BeginRevoke(tid, id, org, obstacle) => Begun(st, tid, ChangeCheck(st, id, org, obstacle), Cancel(id, st.now))
    case BeginResend(tid, id, org, token, obstacle) =>
      if ChangeCheck(st, id, org, obstacle).Failed? then st
      else Begun(st, tid, Done, Renew(id, token, NewExpiry(st), st.rows[id].token, st.rows[id].expiresAt))
    case Insert(tid, mail, id, token) =>
      if !Inserts(st, step) then st
      else
        var txn := st.inflight[tid];
        st.(rows := st.rows[id := Invitation(txn.email, txn.org, token, Pending, NewExpiry(st), None, None)],
            used := st.used + {id}, inflight := st.inflight - {tid}, mails := st.mails[mail := Creation(id)])
    case Land(_, _) => Landed(st, step)
    case Accept(id, token, user, refused, unfit) =>
      if AcceptCheck(st, id, token, user, refused, unfit).Failed? then st
      else st.(rows := st.rows[id := st.rows[id].(status := Accepted, acceptedAt := Some(st.now))])
    case MailSent(mail) => st.(mails := st.mails - {mail})
    case MailFailed(mail) => RolledBack(st, mail)
    case Tick(to) => if to < st.now then st else st.(now := to)
  }

  class InvitationTable {
    var rows: map<InviteId, Invitation>
    var used: set<InviteId>
    var inflight: map<TxnId, Txn>
    var mails: map<MailId, Mail>
    var now: Time
    const days: nat

    ghost function View(): Store
      reads this
    {
      Store(rows, used, inflight, mails, now, days)
    }

    constructor (now: Time, days: nat)
      ensures View() == Empty(now, days)
    {
      rows, used, inflight, mails := map[], {}, map[], map[];
      this.now, this.days := now, days;
    }

    /** createInvite up to its insert. */
    method BeginCreateInvite(tid: TxnId, email: Email, org: OrgId, obstacle: Option<Error>) returns (r: Outcome)
      requires tid !in inflight
      modifies this`inflight
      ensures View() == Next(old(View()), BeginCreate(tid, email, org, obstacle))
      ensures r == CreateCheck(old(View()), email, org, obstacle)
    {
      if obstacle.Some? { return Failed(obstacle.value); }
      if exists k | k in rows :: rows[k].email == email && rows[k].org == org && IsActive(rows[k], now) {
        return Failed(Conflict);
      }
      inflight := inflight[tid := NewInvite(email, org)];
      return Done;
    }

    method InsertInvite(tid: TxnId, mail: MailId, id: InviteId, token: Token)
      requires Inserts(View(), Insert(tid, mail, id, token))
      modifies this
      ensures View() == Next(old(View()), Insert(tid, mail, id, token))
    {
      var NewInvite(email, org) := inflight[tid];
      inflight := inflight - {tid};
      rows := rows[id := Invitation(email, org, token, Pending, now + days * DAY, None, None)];
      used := used + {id};
      mails := mails[mail := Creation(id)];
    }

    /** revokeInvite up to its update. */
    method BeginRevokeInvite(tid: TxnId, id: InviteId, org: OrgId, obstacle: Option<Error>) returns (r: Outcome)
      requires tid !in inflight
      modifies this`inflight
      ensures View() == Next(old(View()), BeginRevoke(tid, id, org, obstacle))
      ensures r == ChangeCheck(old(View()), id, org, obstacle)
    {
      if obstacle.Some? { return Failed(obstacle.value); }
      if id !in rows || rows[id].org != org { return Failed(NotFound); }
      if !IsPendingAndUnexpired(rows[id], now) { return Failed(BadRequest); }
      inflight := inflight[tid := Cancel(id, now)];
      return Done;
    }

    method WriteRevoked(tid: TxnId)
      requires tid in inflight && inflight[tid].Cancel? && inflight[tid].id in rows
      modifies this`rows, this`inflight
      ensures forall mail :: View() == Next(old(View()), Land(tid, mail))
    {
      var Cancel(id, at) := inflight[tid];
      inflight := inflight - {tid};
      rows := rows[id := rows[id].(status := Revoked, revokedAt := Some(at))];
    }

    /** resendInvite up to its update; the old token and expiry are kept for the email. */
    method BeginResendInvite(tid: TxnId, id: InviteId, org: OrgId, token: Token, obstacle: Option<Error>)
      returns (r: Outcome)
      requires tid !in inflight
      modifies this`inflight
      ensures View() == Next(old(View()), BeginResend(tid, id, org, token, obstacle))
      ensures r == ChangeCheck(old(View()), id, org, obstacle)
    {
      if obstacle.Some? { return Failed(obstacle.value); }
      if id !in rows || rows[id].org != org { return Failed(NotFound); }
      if !IsPendingAndUnexpired(rows[id], now) { return Failed(BadRequest); }
      inflight := inflight[tid := Renew(id, token, now + days * DAY, rows[id].token, rows[id].expiresAt)];
      return Done;
    }

    method WriteResent(tid: TxnId, mail: MailId)
      requires Renews(View(), Land(tid, mail))
      modifies this`rows, this`inflight, this`mails
      ensures View() == Next(old(View()), Land(tid, mail))
    {
      var Renew(id, token, expiresAt, previousToken, previousExpiresAt) := inflight[tid];
      inflight := inflight - {tid};
      rows := rows[id := rows[id].(token := token, status := Pending, expiresAt := expiresAt)];
      mails := mails[mail := Resending(id, previousToken, previousExpiresAt)];
    }

    /** acceptInvite; the found row is locked, so the conditional write always hits. */
    method AcceptInvite(found: InviteId, token: Token, user: Email, refused: Option<Error>, unfit: Option<Error>)
      returns (r: Outcome)
      modifies this`rows
      ensures View() == Next(old(View()), Accept(found, token, user, refused, unfit))
      ensures r == AcceptCheck(old(View()), found, token, user, refused, unfit)
      ensures r == Done ==>
                && found in old(rows) && old(rows)[found].token == token && old(rows)[found].email == user
                && refused.None? && unfit.None? && IsPendingAndUnexpired(old(rows)[found], now)
                && rows == old(rows)[found := Invitation(user, old(rows)[found].org, token, Accepted,
                                                         old(rows)[found].expiresAt, Some(now), None)]
      ensures r != Done ==> rows == old(rows)
    {
      if found !in rows || rows[found].token != token { return Failed(NotFound); }
      if rows[found].email != user { return Failed(Forbidden); }
      if refused.Some? { return Failed(refused.value); }
      r := AssertAcceptable(rows[found], now);
      if r.Failed? { return; }
      if unfit.Some? { return Failed(unfit.value); }
      rows := rows[found := rows[found].(status := Accepted, acceptedAt := Some(now))];
    }

    method DeliverMail(mail: MailId, delivered: bool)
      modifies this`rows, this`mails
      ensures View() == Next(old(View()), if delivered then MailSent(mail) else MailFailed(mail))
    {
      if mail in mails && !delivered {
        match mails[mail] {
          case Creation(id) => rows := rows - {id};
          case Resending(id, token, expiresAt) =>
            if id in rows { rows := rows[id := rows[id].(token := token, expiresAt := expiresAt)]; }
        }
      }
      if mail in mails || delivered { mails := mails - {mail}; }
    }
  }

  // ---------------------------------------------------------------- runs

  function Run(st: Store, steps: seq<Step>): Store
    decreases |steps|
  {
    if steps == [] then st else Run(Next(st, steps[0]), steps[1..])
  }

  lemma {:induction false} RunAppend(st: Store, a: seq<Step>, b: seq<Step>)
    ensures Run(st, a + b) == Run(Run(st, a), b)
    decreases |a|
  {
    if a == [] {
      assert a + b == b;
    } else {
      assert (a + b)[1..] == a[1..] + b;
      RunAppend(Next(st, a[0]), a[1..], b);
    }
  }

  ghost predicate SamePair(a: Invitation, b: Invitation) {
    a.email == b.email && a.org == b.org
  }

  ghost predicate OneActivePerPair(st: Store) {
    forall a, b | a in st.rows && b in st.rows && SamePair(st.rows[a], st.rows[b])
                  && IsActive(st.rows[a], st.now) && IsActive(st.rows[b], st.now) :: a == b
  }

  ghost predicate RowsAreUsed(st: Store) {
    forall id | id in st.rows :: id in st.used
  }

  lemma StepKeepsUsed(st: Store, step: Step)
    requires RowsAreUsed(st)
    ensures RowsAreUsed(Next(st, step)) && st.used <= Next(st, step).used
  {}

  lemma {:induction false} RunKeepsUsed(st: Store, steps: seq<Step>)
    requires RowsAreUsed(st)
    ensures RowsAreUsed(Run(st, steps)) && st.used <= Run(st, steps).used
    decreases |steps|
  {
    if steps != [] {
      StepKeepsUsed(st, steps[0]);
      RunKeepsUsed(Next(st, steps[0]), steps[1..]);
    }
  }

  // ---------------------------------------------------------------- what makes an invitation active

  /** A resend lands on an invitation that has expired or been accepted since, but not revoked. */
  predicate RenewalAwakens(st: Store, step: Step) {
    Renews(st, step) &&
    var txn := st.inflight[step.tid];
    var row := st.rows[txn.id];
    !IsActive(row, st.now) && row.revokedAt == None && txn.expiresAt > st.now
  }

  /** A failed resend puts an expiry back that has not passed yet, on a pending row that has expired since. */
  predicate RollbackAwakens(st: Store, step: Step) {
    step.MailFailed? && step.mail in st.mails && st.mails[step.mail].Resending? &&
    var mail := st.mails[step.mail];
    mail.id in st.rows &&
    var row := st.rows[mail.id];
    row.status == Pending && row.revokedAt == None && row.expiresAt <= st.now < mail.expiresAt
  }

  predicate Awakens(st: Store, step: Step) {
    RenewalAwakens(st, step) || RollbackAwakens(st, step)
  }

  function Awakened(st: Store, step: Step): InviteId
    requires Awakens(st, step)
  {
    if step.Land? then st.inflight[step.tid].id else st.mails[step.mail].id
  }

  /** A create inserts beside an invitation that was inserted since it looked. */
  predicate InsertCrowds(st: Store, step: Step) {
    Inserts(st, step) && st.days > 0 && HasActive(st, st.inflight[step.tid].email, st.inflight[step.tid].org)
  }

  /** The pair has an active invitation when another becomes active: the check of createInvite, at the write. */
  predicate Crowds(st: Store, step: Step) {
    || InsertCrowds(st, step)
    || (Awakens(st, step) &&
        var row := st.rows[Awakened(st, step)];
        HasActive(st, row.email, row.org))
  }

  predicate NoneAwakens(st: Store, steps: seq<Step>)
    decreases |steps|
  {
    steps == [] || (!Awakens(st, steps[0]) && NoneAwakens(Next(st, steps[0]), steps[1..]))
  }

  predicate NoneCrowds(st: Store, steps: seq<Step>)
    decreases |steps|
  {
    steps == [] || (!Crowds(st, steps[0]) && NoneCrowds(Next(st, steps[0]), steps[1..]))
  }

  /** Every known invitation that is active afterwards was there before, for the same pair, and was active. */
  ghost predicate NothingAwakens(before: Store, after: Store) {
    forall id | id in before.used && id in after.rows && IsActive(after.rows[id], after.now) ::
      id in before.rows && SamePair(before.rows[id], after.rows[id]) && IsActive(before.rows[id], before.now)
  }

  lemma LandingAwakensExactly(st: Store, step: Step)
    requires RowsAreUsed(st) && step.Land?
    ensures NothingAwakens(st, Next(st, step)) <==> !RenewalAwakens(st, step)
  {
    if RenewalAwakens(st, step) {
      var id := st.inflight[step.tid].id;
      assert id in st.used && IsActive(Next(st, step).rows[id], st.now) && !IsActive(st.rows[id], st.now);
    }
  }

  lemma FailureAwakensExactly(st: Store, step: Step)
    requires RowsAreUsed(st) && step.MailFailed?
    ensures NothingAwakens(st, Next(st, step)) <==> !RollbackAwakens(st, step)
  {
    if RollbackAwakens(st, step) {
      var id := st.mails[step.mail].id;
      assert id in st.used && IsActive(Next(st, step).rows[id], st.now) && !IsActive(st.rows[id], st.now);
    }
  }

  /** A step makes a known invitation active exactly when it is a late resend or such a rollback. */
  lemma AwakensExactly(st: Store, step: Step)
    requires RowsAreUsed(st)
    ensures NothingAwakens(st, Next(st, step)) <==> !Awakens(st, step)
  {
    if step.Land? {
      LandingAwakensExactly(st, step);
    } else if step.MailFailed? {
      FailureAwakensExactly(st, step);
    }
  }

  /** One row becomes active: the rule survives exactly if the pair had no active one. */
  lemma OneBecomesActive(st: Store, after: Store, id: InviteId)
    requires OneActivePerPair(st) && after.now == st.now
    requires id in after.rows && after.rows == st.rows[id := after.rows[id]]
    requires id in st.rows ==> !IsActive(st.rows[id], st.now)
    requires IsActive(after.rows[id], st.now)
    ensures OneActivePerPair(after) <==> !HasActive(st, after.rows[id].email, after.rows[id].org)
  {
    var row := after.rows[id];
    if HasActive(st, row.email, row.org) {
      var k :| k in st.rows && st.rows[k].email == row.email && st.rows[k].org == row.org
               && IsActive(st.rows[k], st.now);
      assert k != id && after.rows[k] == st.rows[k] && SamePair(after.rows[k], row);
    } else {
      assert forall k | k in st.rows && SamePair(st.rows[k], row) :: !IsActive(st.rows[k], st.now);
    }
  }

  lemma QuietStepKeepsOneActive(st: Store, after: Store)
    requires OneActivePerPair(st) && RowsAreUsed(st) && after.rows.Keys <= st.rows.Keys && NothingAwakens(st, after)
    ensures OneActivePerPair(after)
  {
    forall a, b | a in after.rows && b in after.rows && SamePair(after.rows[a], after.rows[b])
                  && IsActive(after.rows[a], after.now) && IsActive(after.rows[b], after.now)
      ensures a == b
    {
      assert a in st.used && b in st.used;
      assert SamePair(st.rows[a], st.rows[b]);
    }
  }

  lemma InsertKeepsOneActiveExactly(st: Store, step: Step)
    requires OneActivePerPair(st) && RowsAreUsed(st) && Inserts(st, step)
    ensures OneActivePerPair(Next(st, step)) <==> !InsertCrowds(st, step)
  {
    var st' := Next(st, step);
    if st.days > 0 {
      OneBecomesActive(st, st', step.id);
    } else {
      assert !IsActive(st'.rows[step.id], st'.now);
      assert forall k | k in st.rows :: k != step.id && st'.rows[k] == st.rows[k];
    }
  }

  lemma StepKeepsOneActiveExactly(st: Store, step: Step)
    requires OneActivePerPair(st) && RowsAreUsed(st)
    ensures OneActivePerPair(Next(st, step)) <==> !Crowds(st, step)
  {
    AwakensExactly(st, step);
    if Inserts(st, step) {
      InsertKeepsOneActiveExactly(st, step);
    } else if Awakens(st, step) {
      OneBecomesActive(st, Next(st, step), Awakened(st, step));
    } else {
      QuietStepKeepsOneActive(st, Next(st, step));
    }
  }

  /** At most one invitation per email and organization is active, at every point of the run. */
  ghost predicate AlwaysOneActive(st: Store, steps: seq<Step>)
    decreases |steps|
  {
    OneActivePerPair(st) && (steps == [] || AlwaysOneActive(Next(st, steps[0]), steps[1..]))
  }

  lemma {:induction false} OneActiveExactlyFrom(st: Store, steps: seq<Step>)
    requires OneActivePerPair(st) && RowsAreUsed(st)
    ensures AlwaysOneActive(st, steps) <==> NoneCrowds(st, steps)
    decreases |steps|
  {
    if steps != [] {
      StepKeepsOneActiveExactly(st, steps[0]);
      StepKeepsUsed(st, steps[0]);
      if !Crowds(st, steps[0]) { OneActiveExactlyFrom(Next(st, steps[0]), steps[1..]); }
    }
  }

  /** In any run it holds exactly when no write makes an invitation active beside an active one. */
  lemma OneActiveInvitationExactly(now: Time, days: nat, steps: seq<Step>)
    ensures AlwaysOneActive(Empty(now, days), steps) <==> NoneCrowds(Empty(now, days), steps)
  {
    OneActiveExactlyFrom(Empty(now, days), steps);
  }

  /** At every point of the run, the next step makes no known invitation active. */
  ghost predicate AlwaysQuiet(st: Store, steps: seq<Step>)
    decreases |steps|
  {
    steps == [] || (NothingAwakens(st, Next(st, steps[0])) && AlwaysQuiet(Next(st, steps[0]), steps[1..]))
  }

  lemma {:induction false} QuietExactlyFrom(st: Store, steps: seq<Step>)
    requires RowsAreUsed(st)
    ensures AlwaysQuiet(st, steps) <==> NoneAwakens(st, steps)
    decreases |steps|
  {
    if steps != [] {
      AwakensExactly(st, steps[0]);
      StepKeepsUsed(st, steps[0]);
      QuietExactlyFrom(Next(st, steps[0]), steps[1..]);
    }
  }

  lemma {:induction false} StaysInactive(st: Store, steps: seq<Step>, id: InviteId)
    requires RowsAreUsed(st) && NoneAwakens(st, steps) && id in st.used
    requires id in st.rows ==> !IsActive(st.rows[id], st.now)
    ensures id in Run(st, steps).rows ==> !IsActive(Run(st, steps).rows[id], Run(st, steps).now)
    decreases |steps|
  {
    if steps != [] {
      AwakensExactly(st, steps[0]);
      StepKeepsUsed(st, steps[0]);
      StaysInactive(Next(st, steps[0]), steps[1..], id);
    }
  }

  /** What is not active (any more) never becomes active again, from any point on at which no write awakens. */
  lemma InactiveForGood(now: Time, days: nat, before: seq<Step>, after: seq<Step>, id: InviteId)
    requires NoneAwakens(Run(Empty(now, days), before), after)
    requires id in Run(Empty(now, days), before).used
    requires var st := Run(Empty(now, days), before); id in st.rows ==> !IsActive(st.rows[id], st.now)
    ensures var st := Run(Empty(now, days), before + after); id in st.rows ==> !IsActive(st.rows[id], st.now)
  {
    RunAppend(Empty(now, days), before, after);
    RunKeepsUsed(Empty(now, days), before);
    StaysInactive(Run(Empty(now, days), before), after, id);
  }

  // ---------------------------------------------------------------- accepted and revoked, exactly when for good

  predicate IsSettled(i: Invitation) {
    i.status == Accepted || i.status == Revoked
  }

  predicate SameFate(i: Invitation, j: Invitation) {
    j.status == i.status && j.acceptedAt == i.acceptedAt && j.revokedAt == i.revokedAt
  }

  ghost predicate SettledKept(before: Store, after: Store) {
    forall id | id in before.rows && IsSettled(before.rows[id]) ::
      id in after.rows && SameFate(before.rows[id], after.rows[id])
  }

  /** The email of a creation fails although its invitation was accepted or revoked since, through a resend's email. */
  predicate DeletesSettled(st: Store, step: Step) {
    step.MailFailed? && step.mail in st.mails && st.mails[step.mail].Creation?
    && st.mails[step.mail].id in st.rows && IsSettled(st.rows[st.mails[step.mail].id])
  }

  /** A resend, a revoke of another moment, or the undoing of its creation hits a settled invitation. */
  predicate Unsettles(st: Store, step: Step) {
    || DeletesSettled(st, step)
    || (Renews(st, step) && IsSettled(st.rows[st.inflight[step.tid].id]))
    || (Cancels(st, step) &&
        var txn := st.inflight[step.tid];
        IsSettled(st.rows[txn.id]) && !(st.rows[txn.id].status == Revoked && st.rows[txn.id].revokedAt == Some(txn.at)))
  }

  predicate NoneUnsettles(st: Store, steps: seq<Step>)
    decreases |steps|
  {
    steps == [] || (!Unsettles(st, steps[0]) && NoneUnsettles(Next(st, steps[0]), steps[1..]))
  }

  lemma UnsettlesExactly(st: Store, step: Step)
    requires RowsAreUsed(st)
    ensures SettledKept(st, Next(st, step)) <==> !Unsettles(st, step)
  {
    if DeletesSettled(st, step) {
      assert st.mails[step.mail].id !in Next(st, step).rows;
    } else if Unsettles(st, step) {
      var id := st.inflight[step.tid].id;
      assert !SameFate(st.rows[id], Next(st, step).rows[id]);
    }
  }

  ghost predicate AlwaysSettled(st: Store, steps: seq<Step>)
    decreases |steps|
  {
    steps == [] || (SettledKept(st, Next(st, steps[0])) && AlwaysSettled(Next(st, steps[0]), steps[1..]))
  }

  /** In any run, accepted and revoked invitations keep status and timestamps exactly when no write unsettles one. */
  lemma {:induction false} SettledExactly(st: Store, steps: seq<Step>)
    requires RowsAreUsed(st)
    ensures AlwaysSettled(st, steps) <==> NoneUnsettles(st, steps)
    decreases |steps|
  {
    if steps != [] {
      UnsettlesExactly(st, steps[0]);
      StepKeepsUsed(st, steps[0]);
      SettledExactly(Next(st, steps[0]), steps[1..]);
    }
  }

  lemma {:induction false} SettledFrom(st: Store, steps: seq<Step>, id: InviteId)
    requires RowsAreUsed(st) && NoneUnsettles(st, steps) && id in st.rows && IsSettled(st.rows[id])
    ensures id in Run(st, steps).rows && SameFate(st.rows[id], Run(st, steps).rows[id])
    decreases |steps|
  {
    if steps != [] {
      UnsettlesExactly(st, steps[0]);
      StepKeepsUsed(st, steps[0]);
      SettledFrom(Next(st, steps[0]), steps[1..], id);
    }
  }

  /** Then an accepted or revoked invitation is never deleted, and stays accepted or revoked, whatever else happens. */
  lemma SettledForGood(now: Time, days: nat, before: seq<Step>, after: seq<Step>, id: InviteId)
    requires NoneUnsettles(Run(Empty(now, days), before), after)
    requires id in Run(Empty(now, days), before).rows && IsSettled(Run(Empty(now, days), before).rows[id])
    ensures id in Run(Empty(now, days), before + after).rows
            && SameFate(Run(Empty(now, days), before).rows[id], Run(Empty(now, days), before + after).rows[id])
  {
    RunAppend(Empty(now, days), before, after);
    RunKeepsUsed(Empty(now, days), before);
    SettledFrom(Run(Empty(now, days), before), after, id);
  }

  // ---------------------------------------------------------------- filters, display and guard

  /** For any row whatever: the filters select exactly what is displayed unless two of the three facts clash. */
  lemma FiltersMatchDisplayExactly(i: Invitation, now: Time)
    ensures (forall s :: StatusFilter(i, s, now) <==> s == DisplayStatus(i, now))
       <==> !(StatusFilter(i, Accepted, now) && StatusFilter(i, Revoked, now))
            && !(i.status == Expired && (i.acceptedAt.Some? || i.revokedAt.Some?))
  {
    var d := DisplayStatus(i, now);
    assert StatusFilter(i, d, now);
    if StatusFilter(i, Accepted, now) && StatusFilter(i, Revoked, now) { assert d == Revoked != Accepted; }
    if i.status == Expired && (i.acceptedAt.Some? || i.revokedAt.Some?) {
      assert StatusFilter(i, Expired, now) && d != Expired;
    }
  }

  /** For any row whatever: acceptance is possible exactly when PENDING is displayed. */
  lemma GuardMatchesDisplay(i: Invitation, now: Time)
    ensures AssertAcceptable(i, now) == Done <==> DisplayStatus(i, now) == Pending
    ensures IsActive(i, now)
       <==> DisplayStatus(i, now) == Pending
            || (i.status == Pending && i.acceptedAt.Some? && i.revokedAt.None? && i.expiresAt > now)
  {}

  /** Each status has its timestamp, and EXPIRED is never stored. */
  predicate Stamped(i: Invitation) {
    i.status != Expired && (i.status == Accepted ==> i.acceptedAt.Some?) && (i.status == Revoked ==> i.revokedAt.Some?)
  }

  ghost predicate AllStamped(st: Store) {
    forall id | id in st.rows :: Stamped(st.rows[id])
  }

  lemma StepKeepsStamps(st: Store, step: Step)
    requires AllStamped(st)
    ensures AllStamped(Next(st, step))
  {}

  /** The four lists show every invitation once, under its displayed status. */
  ghost predicate Partitioned(st: Store) {
    forall id, s | id in st.rows :: StatusFilter(st.rows[id], s, st.now) <==> s == DisplayStatus(st.rows[id], st.now)
  }

  ghost predicate NoneHasBothStamps(st: Store) {
    forall id | id in st.rows :: !(st.rows[id].acceptedAt.Some? && st.rows[id].revokedAt.Some?)
  }

  lemma PartitionedMeansNotBoth(st: Store)
    requires AllStamped(st)
    ensures Partitioned(st) <==> NoneHasBothStamps(st)
  {
    forall id | id in st.rows
      ensures (forall s :: StatusFilter(st.rows[id], s, st.now) <==> s == DisplayStatus(st.rows[id], st.now))
         <==> !(st.rows[id].acceptedAt.Some? && st.rows[id].revokedAt.Some?)
    {
      FiltersMatchDisplayExactly(st.rows[id], st.now);
    }
  }

  /** A revoke lands on an invitation that was accepted since it looked. */
  predicate RevokesAccepted(st: Store, step: Step) {
    Cancels(st, step) && st.rows[st.inflight[step.tid].id].acceptedAt.Some?
  }

  predicate NoneRevokesAccepted(st: Store, steps: seq<Step>)
    decreases |steps|
  {
    steps == [] || (!RevokesAccepted(st, steps[0]) && NoneRevokesAccepted(Next(st, steps[0]), steps[1..]))
  }

  lemma BothStampsExactly(st: Store, step: Step)
    requires NoneHasBothStamps(st)
    ensures NoneHasBothStamps(Next(st, step)) <==> !RevokesAccepted(st, step)
  {
    if RevokesAccepted(st, step) {
      var id := st.inflight[step.tid].id;
      assert Next(st, step).rows[id].acceptedAt.Some? && Next(st, step).rows[id].revokedAt.Some?;
    }
  }

  ghost predicate AlwaysPartitioned(st: Store, steps: seq<Step>)
    decreases |steps|
  {
    Partitioned(st) && (steps == [] || AlwaysPartitioned(Next(st, steps[0]), steps[1..]))
  }

  lemma {:induction false} PartitionedExactlyFrom(st: Store, steps: seq<Step>)
    requires AllStamped(st) && NoneHasBothStamps(st)
    ensures AlwaysPartitioned(st, steps) <==> NoneRevokesAccepted(st, steps)
    decreases |steps|
  {
    PartitionedMeansNotBoth(st);
    if steps != [] {
      var st' := Next(st, steps[0]);
      StepKeepsStamps(st, steps[0]);
      BothStampsExactly(st, steps[0]);
      PartitionedMeansNotBoth(st');
      if !RevokesAccepted(st, steps[0]) { PartitionedExactlyFrom(st', steps[1..]); }
    }
  }

  /** In any run the four lists partition the invitations at every point exactly when no revoke hits an accepted one. */
  lemma ListsPartitionInvitations(now: Time, days: nat, steps: seq<Step>)
    ensures AlwaysPartitioned(Empty(now, days), steps) <==> NoneRevokesAccepted(Empty(now, days), steps)
  {
    PartitionedExactlyFrom(Empty(now, days), steps);
  }

  // ---------------------------------------------------------------- runs in which nobody interferes

  /**
   The write still meets the check of its request, no earlier resend's email is on its way, and the
   creation whose email fails has not been accepted or revoked.
   */
  predicate Undisturbed(st: Store, step: Step) {
    && (Inserts(st, step) ==> !HasActive(st, st.inflight[step.tid].email, st.inflight[step.tid].org))
    && (Cancels(st, step) || Renews(st, step) ==> IsPendingAndUnexpired(st.rows[st.inflight[step.tid].id], st.now))
    && (Renews(st, step) ==>
          forall m | m in st.mails :: !(st.mails[m].Resending? && st.mails[m].id == st.inflight[step.tid].id))
    && !DeletesSettled(st, step)
  }

  predicate AllUndisturbed(st: Store, steps: seq<Step>)
    decreases |steps|
  {
    steps == [] || (Undisturbed(st, steps[0]) && AllUndisturbed(Next(st, steps[0]), steps[1..]))
  }

  ghost predicate ExpiriesOk(st: Store) {
    && (forall id | id in st.rows :: st.rows[id].expiresAt <= NewExpiry(st))
    && (forall t | t in st.inflight && st.inflight[t].Renew? ::
          st.inflight[t].previousExpiresAt <= st.inflight[t].expiresAt <= NewExpiry(st))
    && (forall m | m in st.mails && st.mails[m].Resending? :: st.mails[m].expiresAt <= NewExpiry(st))
  }

  ghost predicate MailsOk(st: Store) {
    && (forall m | m in st.mails :: st.mails[m].id in st.used)
    && (forall m | m in st.mails && st.mails[m].Resending? && st.mails[m].id in st.rows ::
          st.mails[m].expiresAt <= st.rows[st.mails[m].id].expiresAt)
    && (forall m, n | m in st.mails && n in st.mails && st.mails[m].Resending? && st.mails[n].Resending?
                      && st.mails[m].id == st.mails[n].id :: m == n)
  }

  lemma StepKeepsExpiries(st: Store, step: Step)
    requires ExpiriesOk(st)
    ensures ExpiriesOk(Next(st, step))
  {}

  lemma StepKeepsMails(st: Store, step: Step)
    requires ExpiriesOk(st) && RowsAreUsed(st) && MailsOk(st) && Undisturbed(st, step)
    ensures MailsOk(Next(st, step))
  {
    if step.Land? {
      LandingKeepsMails(st, step);
    } else if step.MailFailed? {
      FailureKeepsMails(st, step);
    }
  }

  lemma LandingKeepsMails(st: Store, step: Step)
    requires ExpiriesOk(st) && RowsAreUsed(st) && MailsOk(st) && Undisturbed(st, step) && step.Land?
    ensures MailsOk(Next(st, step))
  {}

  lemma FailureKeepsMails(st: Store, step: Step)
    requires MailsOk(st) && step.MailFailed?
    ensures MailsOk(Next(st, step))
  {}

  lemma UndisturbedIsHarmless(st: Store, step: Step)
    requires MailsOk(st) && Undisturbed(st, step)
    ensures !Awakens(st, step) && !Crowds(st, step) && !Unsettles(st, step) && !RevokesAccepted(st, step)
  {}

  lemma {:induction false} UndisturbedRunsAreHarmless(st: Store, steps: seq<Step>)
    requires ExpiriesOk(st) && RowsAreUsed(st) && MailsOk(st) && AllUndisturbed(st, steps)
    ensures NoneAwakens(st, steps) && NoneCrowds(st, steps) && NoneUnsettles(st, steps)
            && NoneRevokesAccepted(st, steps)
    decreases |steps|
  {
    if steps != [] {
      UndisturbedIsHarmless(st, steps[0]);
      StepKeepsExpiries(st, steps[0]);
      StepKeepsUsed(st, steps[0]);
      StepKeepsMails(st, steps[0]);
      UndisturbedRunsAreHarmless(Next(st, steps[0]), steps[1..]);
    }
  }

  /** If every write still meets its request's check and resends do not overlap, all of it holds at every point. */
  lemma OneActiveInvitation(now: Time, days: nat, steps: seq<Step>)
    requires AllUndisturbed(Empty(now, days), steps)
    ensures AlwaysOneActive(Empty(now, days), steps) && AlwaysQuiet(Empty(now, days), steps)
    ensures AlwaysSettled(Empty(now, days), steps) && AlwaysPartitioned(Empty(now, days), steps)
  {
    UndisturbedRunsAreHarmless(Empty(now, days), steps);
    OneActiveInvitationExactly(now, days, steps);
    QuietExactlyFrom(Empty(now, days), steps);
    SettledExactly(Empty(now, days), steps);
    ListsPartitionInvitations(now, days, steps);
  }

  // ---------------------------------------------------------------- it does happen

  lemma Then(st0: Store, steps: seq<Step>, st: Store, step: Step)
    requires Run(st0, steps) == st
    ensures Run(st0, steps + [step]) == Next(st, step)
  {
    RunAppend(st0, steps, [step]);
    assert [step][1..] == [];
    assert Run(st, [step]) == Run(Next(st, step), []);
  }

  const INVITED := Invitation("e", "o", "t", Pending, DAY, None, None)

  /** One day of validity, and invitation "a" sent at time 0. */
  function Sent(row: Invitation, inflight: map<TxnId, Txn>): Store {
    Store(map["a" := row], {"a"}, inflight, map[0 := Creation("a")], 0, 1)
  }

  lemma SendOne() returns (steps: seq<Step>)
    ensures Run(Empty(0, 1), steps) == Sent(INVITED, map[])
  {
    var none: seq<Step> := [];
    var st := Empty(0, 1).(inflight := map[0 := NewInvite("e", "o")]);
    Then(Empty(0, 1), none, Empty(0, 1), BeginCreate(0, "e", "o", None));
    steps := none + [BeginCreate(0, "e", "o", None)];
    assert Run(Empty(0, 1), steps) == st;
    Then(Empty(0, 1), steps, st, Insert(0, 0, "a", "t"));
    steps := steps + [Insert(0, 0, "a", "t")];
    assert Next(st, Insert(0, 0, "a", "t")).inflight == map[];
  }

  /** Two creates look before either inserts: both invitations are active. */
  lemma InterleavedCreatesCrowd()
    ensures exists steps :: !OneActivePerPair(Run(Empty(0, 1), steps))
  {
    var none: seq<Step> := [];
    var st0 := Empty(0, 1);
    var st1 := st0.(inflight := map[0 := NewInvite("e", "o")]);
    Then(st0, none, st0, BeginCreate(0, "e", "o", None));
    assert Next(st0, BeginCreate(0, "e", "o", None)) == st1;
    var s1 := none + [BeginCreate(0, "e", "o", None)];
    Then(st0, s1, st1, BeginCreate(1, "e", "o", None));
    var st2 := st0.(inflight := map[0 := NewInvite("e", "o"), 1 := NewInvite("e", "o")]);
    var s2 := s1 + [BeginCreate(1, "e", "o", None)];
    assert Run(st0, s2) == st2;
    Then(st0, s2, st2, Insert(0, 0, "a", "t"));
    var s3, st3 := s2 + [Insert(0, 0, "a", "t")], Next(st2, Insert(0, 0, "a", "t"));
    assert "a"[0] != "b"[0];
    Then(st0, s3, st3, Insert(1, 1, "b", "u"));
    var s4, st4 := s3 + [Insert(1, 1, "b", "u")], Next(st3, Insert(1, 1, "b", "u"));
    assert Run(st0, s4) == st4;
    BothActive(st3, st4);
  }

  lemma BothActive(before: Store, after: Store)
    requires "a" in before.rows && before.rows["a"] == INVITED && before.now == after.now == 0
    requires after.rows == before.rows["b" := INVITED.(token := "u")]
    ensures !OneActivePerPair(after)
  {
    assert "a"[0] != "b"[0];
    assert after.rows["a"] == INVITED && SamePair(after.rows["a"], after.rows["b"]);
    assert IsActive(after.rows["a"], 0) && IsActive(after.rows["b"], 0);
  }

  /** A resend that looked before the acceptance makes the accepted invitation pending and active again. */
  lemma LateResendRevivesAccepted()
    ensures exists steps, last: Step ::
              var st, st' := Run(Empty(0, 1), steps), Run(Empty(0, 1), steps + [last]);
              && "a" in st.rows && st.rows["a"].status == Accepted
              && "a" in st'.rows && st'.rows["a"].status == Pending && IsActive(st'.rows["a"], st'.now)
  {
    var steps := SendOne();
    var inflight := map[0 := Renew("a", "u", DAY, "t", DAY)];
    Then(Empty(0, 1), steps, Sent(INVITED, map[]), BeginResend(0, "a", "o", "u", None));
    steps := steps + [BeginResend(0, "a", "o", "u", None)];
    assert Run(Empty(0, 1), steps) == Sent(INVITED, inflight);
    Then(Empty(0, 1), steps, Sent(INVITED, inflight), Accept("a", "t", "e", None, None));
    steps := steps + [Accept("a", "t", "e", None, None)];
    var accepted := Sent(INVITED.(status := Accepted, acceptedAt := Some(0)), inflight);
    assert Run(Empty(0, 1), steps) == accepted;
    Then(Empty(0, 1), steps, accepted, Land(0, 1));
    assert Run(Empty(0, 1), steps + [Land(0, 1)]).rows["a"].status == Pending;
  }

  /** A revoke that looked before the acceptance puts the invitation into two lists. */
  lemma LateRevokeOfAccepted()
    ensures exists steps ::
              var st := Run(Empty(0, 1), steps);
              && "a" in st.rows && StatusFilter(st.rows["a"], Accepted, st.now)
              && StatusFilter(st.rows["a"], Revoked, st.now)
  {
    var steps := SendOne();
    var inflight := map[0 := Cancel("a", 0)];
    Then(Empty(0, 1), steps, Sent(INVITED, map[]), BeginRevoke(0, "a", "o", None));
    steps := steps + [BeginRevoke(0, "a", "o", None)];
    assert Run(Empty(0, 1), steps) == Sent(INVITED, inflight);
    Then(Empty(0, 1), steps, Sent(INVITED, inflight), Accept("a", "t", "e", None, None));
    steps := steps + [Accept("a", "t", "e", None, None)];
    var accepted := Sent(INVITED.(status := Accepted, acceptedAt := Some(0)), inflight);
    assert Run(Empty(0, 1), steps) == accepted;
    Then(Empty(0, 1), steps, accepted, Land(0, 0));
    assert Run(Empty(0, 1), steps + [Land(0, 0)]).rows["a"].revokedAt == Some(0);
  }

  lemma SendTwice() returns (steps: seq<Step>, st: Store)
    ensures Run(Empty(0, 1), steps) == st
    ensures st.now == 0 && st.rows == map["a" := INVITED.(token := "u")]
    ensures 0 in st.mails && st.mails[0] == Creation("a")
  {
    steps := SendOne();
    var inflight := map[0 := Renew("a", "u", DAY, "t", DAY)];
    Then(Empty(0, 1), steps, Sent(INVITED, map[]), BeginResend(0, "a", "o", "u", None));
    steps := steps + [BeginResend(0, "a", "o", "u", None)];
    assert Run(Empty(0, 1), steps) == Sent(INVITED, inflight);
    Then(Empty(0, 1), steps, Sent(INVITED, inflight), Land(0, 1));
    st := Next(Sent(INVITED, inflight), Land(0, 1));
    steps := steps + [Land(0, 1)];
  }

  /** An invitation accepted through a resend's email is deleted when the email of its creation fails. */
  lemma FailedCreationDeletesAccepted()
    ensures exists steps, last: Step ::
              var st, st' := Run(Empty(0, 1), steps), Run(Empty(0, 1), steps + [last]);
              "a" in st.rows && st.rows["a"].status == Accepted && "a" !in st'.rows
  {
    var accept := Accept("a", "u", "e", None, None);
    var steps, sent := SendTwice();
    Then(Empty(0, 1), steps, sent, accept);
    var accepted := Next(sent, accept);
    assert accepted.rows["a"].status == Accepted && accepted.mails == sent.mails;
    Then(Empty(0, 1), steps + [accept], accepted, MailFailed(0));
    assert "a" !in Run(Empty(0, 1), steps + [accept] + [MailFailed(0)]).rows;
  }

  // ---------------------------------------------------------------- overlapping resends

  function OverlapRun(days: nat): seq<Step> {
    [BeginCreate(0, "e", "o", None), Insert(0, 0, "a", "t0"), Tick(1),
     BeginResend(0, "a", "o", "t1", None), Land(0, 1), Tick(2), BeginResend(0, "a", "o", "t2", None), Land(0, 2),
     MailFailed(1), Tick(days * DAY), BeginCreate(0, "e", "o", None), Insert(0, 3, "b", "t3"), MailFailed(2)]
  }

  function OverlapRow(days: nat, resent: nat): Invitation {
    var token := if resent == 0 then "t0" else if resent == 1 then "t1" else "t2";
    Invitation("e", "o", token, Pending, days * DAY + resent, None, None)
  }

  function OverlapMails(days: nat, resent: nat): map<MailId, Mail> {
    if resent == 0 then map[0 := Creation("a")]
    else if resent == 1 then map[0 := Creation("a"), 1 := Resending("a", "t0", days * DAY)]
    else map[0 := Creation("a"), 1 := Resending("a", "t0", days * DAY), 2 := Resending("a", "t1", days * DAY + 1)]
  }

  function OverlapStore(days: nat, row: nat, inflight: map<TxnId, Txn>, mails: map<MailId, Mail>, now: Time): Store {
    Store(map["a" := OverlapRow(days, row)], {"a"}, inflight, mails, now, days)
  }

  /** The store before step k of that run. */
  function OverlapPoint(days: nat, k: nat): Store
    requires k <= 13
  {
    var d := days * DAY;
    var second := Invitation("e", "o", "t3", Pending, d + d, None, None);
    var rest := OverlapMails(days, 2) - {1};
    if k == 0 then Empty(0, days)
    else if k == 1 then Empty(0, days).(inflight := map[0 := NewInvite("e", "o")])
    else if k == 2 then OverlapStore(days, 0, map[], OverlapMails(days, 0), 0)
    else if k == 3 then OverlapStore(days, 0, map[], OverlapMails(days, 0), 1)
    else if k == 4 then OverlapStore(days, 0, map[0 := Renew("a", "t1", d + 1, "t0", d)], OverlapMails(days, 0), 1)
    else if k == 5 then OverlapStore(days, 1, map[], OverlapMails(days, 1), 1)
    else if k == 6 then OverlapStore(days, 1, map[], OverlapMails(days, 1), 2)
    else if k == 7 then OverlapStore(days, 1, map[0 := Renew("a", "t2", d + 2, "t1", d + 1)], OverlapMails(days, 1), 2)
    else if k == 8 then OverlapStore(days, 2, map[], OverlapMails(days, 2), 2)
    else if k == 9 then OverlapStore(days, 0, map[], rest, 2)
    else if k == 10 then OverlapStore(days, 0, map[], rest, d)
    else if k == 11 then OverlapStore(days, 0, map[0 := NewInvite("e", "o")], rest, d)
    else
      var both := map["a" := OverlapRow(days, if k == 12 then 0 else 1), "b" := second];
      var mails := rest[3 := Creation("b")];
      Store(both, {"a", "b"}, map[], if k == 12 then mails else mails - {2}, d, days)
  }

  lemma OverlapStart(days: nat, k: nat)
    requires days > 0 && k < 4
    ensures Next(OverlapPoint(days, k), OverlapRun(days)[k]) == OverlapPoint(days, k + 1)
  {
    if k == 1 { assert Next(OverlapPoint(days, 1), OverlapRun(days)[1]).inflight == map[]; }
  }

  lemma OverlapFirstResend(days: nat, k: nat)
    requires days > 0 && 4 <= k < 6
    ensures Next(OverlapPoint(days, k), OverlapRun(days)[k]) == OverlapPoint(days, k + 1)
  {
    if k == 4 { assert Next(OverlapPoint(days, 4), OverlapRun(days)[4]).inflight == map[]; }
  }

  lemma OverlapSecondResend(days: nat, k: nat)
    requires days > 0 && 6 <= k < 8
    ensures Next(OverlapPoint(days, k), OverlapRun(days)[k]) == OverlapPoint(days, k + 1)
  {
    if k == 7 { assert Next(OverlapPoint(days, 7), OverlapRun(days)[7]).inflight == map[]; }
  }

  lemma OverlapFails(days: nat, k: nat)
    requires days > 0 && 8 <= k < 11
    ensures Next(OverlapPoint(days, k), OverlapRun(days)[k]) == OverlapPoint(days, k + 1)
  {
    if k == 8 { assert Next(OverlapPoint(days, 8), OverlapRun(days)[8]).rows == OverlapPoint(days, 9).rows; }
    if k == 10 { assert !HasActive(OverlapPoint(days, 10), "e", "o"); }
  }

  lemma OverlapEnds(days: nat, k: nat)
    requires days > 0 && 11 <= k < 13
    ensures Next(OverlapPoint(days, k), OverlapRun(days)[k]) == OverlapPoint(days, k + 1)
  {
    assert "a"[0] != "b"[0];
    assert Next(OverlapPoint(days, k), OverlapRun(days)[k]).rows == OverlapPoint(days, k + 1).rows;
    if k == 11 { assert Next(OverlapPoint(days, 11), OverlapRun(days)[11]).inflight == map[]; }
  }

  lemma {:induction false} RunFromPoint(days: nat, k: nat)
    requires days > 0 && k <= 13
    ensures Run(OverlapPoint(days, k), OverlapRun(days)[k..]) == OverlapPoint(days, 13)
    decreases 13 - k
  {
    if k < 13 {
      if k < 4 {
        OverlapStart(days, k);
      } else if k < 6 {
        OverlapFirstResend(days, k);
      } else if k < 8 {
        OverlapSecondResend(days, k);
      } else if k < 11 {
        OverlapFails(days, k);
      } else {
        OverlapEnds(days, k);
      }
      RunFromPoint(days, k + 1);
      assert OverlapRun(days)[k..][1..] == OverlapRun(days)[k + 1..];
    }
  }

  /** Two resends in flight: the second rollback puts back an expiry that had not yet passed. */
  lemma OverlappingResendsAwaken(days: nat)
    requires days > 0
    ensures var st := Run(Empty(0, days), OverlapRun(days));
            && "a" in st.rows && "b" in st.rows && SamePair(st.rows["a"], st.rows["b"])
            && IsActive(st.rows["a"], st.now) && IsActive(st.rows["b"], st.now)
  {
    RunFromPoint(days, 0);
    assert OverlapRun(days)[0..] == OverlapRun(days);
    assert days * DAY >= DAY;
    assert "a"[0] != "b"[0];
  }
}
