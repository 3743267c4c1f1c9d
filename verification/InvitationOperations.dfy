/**
 What each request about an invitation is answered and what each step writes, said from the columns
 of the row. Then, over whole runs, which token opens an invitation: the one stored last, and never
 one that was replaced.
 */
module InvitationOperations {
  import opened Common
  import opened Invitations

  // ---------------------------------------------------------------- answers

  /** What stands in the way of another invitation of the same email and organization. */
  ghost predicate Blocks(st: Store, id: InviteId, email: Email, org: OrgId) {
    && id in st.rows && st.rows[id].email == email && st.rows[id].org == org
    && st.rows[id].status == Pending && st.rows[id].revokedAt.None? && st.now < st.rows[id].expiresAt
  }

  lemma CreateAnswers(st: Store, email: Email, org: OrgId, obstacle: Option<Error>)
    ensures var (r, blocked) := (CreateCheck(st, email, org, obstacle), exists id :: Blocks(st, id, email, org));
            && (obstacle.Some? ==> r == Failed(obstacle.value))
            && (obstacle.None? && blocked ==> r == Failed(Conflict))
            && (obstacle.None? && !blocked ==> r == Done)
  {
    if HasActive(st, email, org) {
      var id :| id in st.rows && st.rows[id].email == email && st.rows[id].org == org && IsActive(st.rows[id], st.now);
      assert Blocks(st, id, email, org);
    }
    if id :| Blocks(st, id, email, org) { assert HasActive(st, email, org); }
  }

  /** Open to an answer: pending, with neither timestamp, and not expired. */
  predicate Unanswered(i: Invitation, now: Time) {
    && i.status != Accepted && i.status != Revoked && i.status != Expired
    && i.acceptedAt.None? && i.revokedAt.None? && now < i.expiresAt
  }

  /** The answers to a revoke and to a resend. */
  lemma ChangeAnswers(st: Store, id: InviteId, org: OrgId, obstacle: Option<Error>)
    ensures var (r, own) := (ChangeCheck(st, id, org, obstacle), id in st.rows && st.rows[id].org == org);
            && (obstacle.Some? ==> r == Failed(obstacle.value))
            && (obstacle.None? && !own ==> r == Failed(NotFound))
            && (obstacle.None? && own && !Unanswered(st.rows[id], st.now) ==> r == Failed(BadRequest))
            && (obstacle.None? && own && Unanswered(st.rows[id], st.now) ==> r == Done)
  {}

  /** The token comes first, then the user, the organization, the state of the row, and the role and the user's link. */
  lemma AcceptAnswers(st: Store, id: InviteId, token: Token, user: Email, refused: Option<Error>, unfit: Option<Error>)
    ensures var r := AcceptCheck(st, id, token, user, refused, unfit);
            && (id !in st.rows || token != st.rows[id].token ==> r == Failed(NotFound))
            && (id in st.rows && token == st.rows[id].token ==>
                  var row := st.rows[id];
                  var open := Unanswered(row, st.now);
                  var late := row.status in {Revoked, Expired} || row.revokedAt.Some? || row.expiresAt <= st.now;
                  && (user != row.email ==> r == Failed(Forbidden))
                  && (user == row.email && refused.Some? ==> r == Failed(refused.value))
                  && (user == row.email && refused.None? && !open ==>
                        r == Failed(if late then BadRequest else Conflict))
                  && (user == row.email && refused.None? && open && unfit.Some? ==> r == Failed(unfit.value))
                  && (user == row.email && refused.None? && open && unfit.None? ==> r == Done))
  {}

  /** What is displayed: a revocation before an acceptance, and either before the expiry. */
  lemma DisplayAnswers(i: Invitation, now: Time)
    ensures var d := DisplayStatus(i, now);
            var revoked := i.status == Revoked || i.revokedAt.Some?;
            var accepted := i.status == Accepted || i.acceptedAt.Some?;
            && (d == Revoked <==> revoked)
            && (d == Accepted <==> accepted && !revoked)
            && (d == Expired <==> !accepted && !revoked && (i.status == Expired || i.expiresAt <= now))
            && (d == Pending <==> Unanswered(i, now))
  {}

  // ---------------------------------------------------------------- effects

  /** A refused request writes nothing; an admitted one remembers what it will write and nothing more. */
  lemma RequestsDo(st: Store, tid: TxnId, id: InviteId, email: Email, org: OrgId, token: Token, obstacle: Option<Error>)
    requires tid !in st.inflight
    ensures Next(st, BeginCreate(tid, email, org, obstacle))
         == if CreateCheck(st, email, org, obstacle) != Done then st
            else st.(inflight := st.inflight[tid := NewInvite(email, org)])
    ensures Next(st, BeginRevoke(tid, id, org, obstacle))
         == if ChangeCheck(st, id, org, obstacle) != Done then st
            else st.(inflight := st.inflight[tid := Cancel(id, st.now)])
    ensures Next(st, BeginResend(tid, id, org, token, obstacle))
         == if ChangeCheck(st, id, org, obstacle) != Done then st
            else st.(inflight := st.inflight[tid := Renew(id, token, st.now + st.days * 86_400_000,
                                                          st.rows[id].token, st.rows[id].expiresAt)])
  {}

  /** The new row is pending for the configured number of days. */
  lemma InsertDoes(st: Store, tid: TxnId, mail: MailId, id: InviteId, token: Token, email: Email, org: OrgId)
    requires tid in st.inflight && st.inflight[tid] == NewInvite(email, org) && id !in st.used && mail !in st.mails
    ensures var st' := Next(st, Insert(tid, mail, id, token));
            && st'.rows == st.rows[id := Invitation(email, org, token, Pending, st.now + st.days * 86_400_000,
                                                    None, None)]
            && st'.mails == st.mails[mail := Creation(id)] && st'.inflight == st.inflight - {tid}
            && st'.used == st.used + {id} && st'.now == st.now && st'.days == st.days
  {}

  /** The revoke stamps the moment of its check, and only the row's status and that stamp change. */
  lemma RevokeDoes(st: Store, tid: TxnId, mail: MailId, id: InviteId, at: Time)
    requires tid in st.inflight && st.inflight[tid] == Cancel(id, at) && id in st.rows
    ensures var row := st.rows[id];
            Next(st, Land(tid, mail))
            == st.(rows := st.rows[id := Invitation(row.email, row.org, row.token, Revoked, row.expiresAt,
                                                    row.acceptedAt, Some(at))],
                   inflight := st.inflight - {tid})
  {}

  /** The resend makes the row pending with the new token and expiry; its email keeps the ones it had read. */
  lemma ResendDoes(st: Store, tid: TxnId, mail: MailId, id: InviteId, token: Token, expiresAt: Time,
                   oldToken: Token, oldExpiresAt: Time)
    requires tid in st.inflight && st.inflight[tid] == Renew(id, token, expiresAt, oldToken, oldExpiresAt)
    requires id in st.rows && mail !in st.mails
    ensures var row := st.rows[id];
            Next(st, Land(tid, mail))
            == st.(rows := st.rows[id := Invitation(row.email, row.org, token, Pending, expiresAt,
                                                    row.acceptedAt, row.revokedAt)],
                   inflight := st.inflight - {tid}, mails := st.mails[mail := Resending(id, oldToken, oldExpiresAt)])
  {}

  lemma AcceptDoes(st: Store, id: InviteId, token: Token, user: Email, refused: Option<Error>, unfit: Option<Error>)
    ensures var st' := Next(st, Accept(id, token, user, refused, unfit));
            if AcceptCheck(st, id, token, user, refused, unfit) != Done then st' == st
            else st' == st.(rows := st.rows[id := Invitation(user, st.rows[id].org, token, Accepted,
                                                             st.rows[id].expiresAt, Some(st.now), None)])
  {}

  /** A creation whose email fails leaves no row; a resend whose email fails puts token and expiry back, no more. */
  lemma FailureDoes(st: Store, mail: MailId)
    requires mail in st.mails
    ensures var st' := Next(st, MailFailed(mail));
            && st'.mails == st.mails - {mail} && st'.inflight == st.inflight && st'.used == st.used
            && st'.now == st.now && st'.days == st.days
            && match st.mails[mail]
               case Creation(id) => st'.rows == st.rows - {id}
               case Resending(id, token, expiresAt) =>
                 if id !in st.rows then st'.rows == st.rows
                 else
                   var row := st.rows[id];
                   st'.rows == st.rows[id := Invitation(row.email, row.org, token, row.status, expiresAt,
                                                        row.acceptedAt, row.revokedAt)]
  {}

  /** A sent email can no longer undo anything, and the clock only moves forward. */
  lemma TimeAndMailDo(st: Store, mail: MailId, to: Time)
    ensures Next(st, MailSent(mail)) == st.(mails := st.mails - {mail})
    ensures Next(st, Tick(to)) == st.(now := if st.now <= to then to else st.now)
  {}

  // ---------------------------------------------------------------- which token opens an invitation

  /** The steps that store a token in the row: its insert, a resend that lands, a resend's email that fails. */
  predicate StoresToken(st: Store, step: Step, id: InviteId) {
    match step
    case Insert(tid, mail, row, _) =>
      row == id && tid in st.inflight && st.inflight[tid].NewInvite? && id !in st.used && mail !in st.mails
    case Land(tid, mail) =>
      tid in st.inflight && st.inflight[tid].Renew? && st.inflight[tid].id == id && id in st.rows && mail !in st.mails
    case MailFailed(mail) =>
      mail in st.mails && st.mails[mail].Resending? && st.mails[mail].id == id && id in st.rows
    case _ => false
  }

  function StoredToken(st: Store, step: Step, id: InviteId): Token
    requires StoresToken(st, step, id)
  {
    match step
    case Insert(_, _, _, token) => token
    case Land(tid, _) => st.inflight[tid].token
    case MailFailed(mail) => st.mails[mail].token
  }

  /** Such a step stores it; every other step keeps the token of the row. */
  lemma TokenStep(st: Store, step: Step, id: InviteId)
    requires RowsAreUsed(st) && id in Next(st, step).rows
    ensures StoresToken(st, step, id) ==> Next(st, step).rows[id].token == StoredToken(st, step, id)
    ensures !StoresToken(st, step, id) ==> id in st.rows && Next(st, step).rows[id].token == st.rows[id].token
  {}

  /** Step i of the run is the last one that stores a token in the row. */
  ghost predicate LastStore(st: Store, steps: seq<Step>, i: nat, id: InviteId) {
    && i < |steps| && StoresToken(Run(st, steps[..i]), steps[i], id)
    && forall j: nat :: i < j < |steps| ==> !StoresToken(Run(st, steps[..j]), steps[j], id)
  }

  lemma RunSnoc(st: Store, steps: seq<Step>, step: Step)
    ensures Run(st, steps + [step]) == Next(Run(st, steps), step)
  {
    RunAppend(st, steps, [step]);
    assert [step][1..] == [];
    assert Run(Run(st, steps), [step]) == Run(Next(Run(st, steps), step), []);
  }

  /** In every run the token of a row is the one that the last such step stored. */
  lemma {:induction false} TokenIsLastStored(st: Store, steps: seq<Step>, id: InviteId)
    requires st.rows == map[] && id in Run(st, steps).rows
    ensures exists i: nat :: LastStore(st, steps, i, id)
              && Run(st, steps).rows[id].token == StoredToken(Run(st, steps[..i]), steps[i], id)
  {
    if steps != [] {
      var n := |steps| - 1;
      var before, last := steps[..n], steps[n];
      assert steps == before + [last];
      RunSnoc(st, before, last);
      RunKeepsUsed(st, before);
      TokenStep(Run(st, before), last, id);
      if StoresToken(Run(st, before), last, id) {
        assert LastStore(st, steps, n, id);
      } else {
        TokenIsLastStored(st, before, id);
        var i: nat :| LastStore(st, before, i, id)
          && Run(st, before).rows[id].token == StoredToken(Run(st, before[..i]), before[i], id);
        forall j: nat | j < n ensures steps[..j] == before[..j] {}
        assert LastStore(st, steps, i, id);
      }
    }
  }

  /** So an invitation is accepted with the token stored last and with no other. */
  lemma AcceptedWithLastToken(now: Time, days: nat, steps: seq<Step>, id: InviteId, token: Token, user: Email,
                              refused: Option<Error>, unfit: Option<Error>)
    requires AcceptCheck(Run(Empty(now, days), steps), id, token, user, refused, unfit) == Done
    ensures exists i: nat :: LastStore(Empty(now, days), steps, i, id)
              && token == StoredToken(Run(Empty(now, days), steps[..i]), steps[i], id)
  {
    TokenIsLastStored(Empty(now, days), steps, id);
  }

  /** No step stores this token, in whatever row. */
  ghost predicate NeverStored(st: Store, steps: seq<Step>, token: Token)
    decreases |steps|
  {
    steps == [] ||
    ((forall id :: StoresToken(st, steps[0], id) ==> StoredToken(st, steps[0], id) != token)
     && NeverStored(Next(st, steps[0]), steps[1..], token))
  }

  ghost predicate HeldByNone(st: Store, token: Token) {
    forall id | id in st.rows :: st.rows[id].token != token
  }

  lemma {:induction false} UnstoredIsRefused(st: Store, steps: seq<Step>, token: Token)
    requires RowsAreUsed(st) && HeldByNone(st, token) && NeverStored(st, steps, token)
    ensures HeldByNone(Run(st, steps), token)
    ensures forall id, user, refused, unfit ::
              AcceptCheck(Run(st, steps), id, token, user, refused, unfit) == Failed(NotFound)
    decreases |steps|
  {
    if steps != [] {
      var st' := Next(st, steps[0]);
      forall id | id in st'.rows ensures st'.rows[id].token != token { TokenStep(st, steps[0], id); }
      StepKeepsUsed(st, steps[0]);
      UnstoredIsRefused(st', steps[1..], token);
    }
  }

  /** No step stores this token in this row. */
  ghost predicate NotStoredIn(st: Store, steps: seq<Step>, id: InviteId, token: Token)
    decreases |steps|
  {
    steps == [] ||
    ((StoresToken(st, steps[0], id) ==> StoredToken(st, steps[0], id) != token)
     && NotStoredIn(Next(st, steps[0]), steps[1..], id, token))
  }

  lemma {:induction false} ForeignTokenIsRefused(st: Store, steps: seq<Step>, id: InviteId, token: Token)
    requires RowsAreUsed(st) && NotStoredIn(st, steps, id, token)
    requires id in st.rows ==> st.rows[id].token != token
    ensures forall user, refused, unfit ::
              AcceptCheck(Run(st, steps), id, token, user, refused, unfit) == Failed(NotFound)
    decreases |steps|
  {
    if steps != [] {
      if id in Next(st, steps[0]).rows { TokenStep(st, steps[0], id); }
      StepKeepsUsed(st, steps[0]);
      ForeignTokenIsRefused(Next(st, steps[0]), steps[1..], id, token);
    }
  }

  /**
   From the landing of a resend with a new token on, the replaced token is answered NotFound: for this
   invitation until a step stores it there again, and for every one if no other row had it.
   */
  lemma ReplacedTokenIsRefused(now: Time, days: nat, before: seq<Step>, landing: Step, after: seq<Step>)
    requires var st := Run(Empty(now, days), before);
             && landing.Land? && landing.tid in st.inflight && st.inflight[landing.tid].Renew?
             && st.inflight[landing.tid].id in st.rows && landing.mail !in st.mails
             && st.inflight[landing.tid].token != st.rows[st.inflight[landing.tid].id].token
    ensures var st := Run(Empty(now, days), before);
            var id := st.inflight[landing.tid].id;
            var replaced := st.rows[id].token;
            var end := Run(Empty(now, days), before + [landing] + after);
            && (NotStoredIn(Next(st, landing), after, id, replaced) ==>
                  forall user, refused, unfit ::
                    AcceptCheck(end, id, replaced, user, refused, unfit) == Failed(NotFound))
            && ((forall other | other in st.rows && other != id :: st.rows[other].token != replaced)
                && NeverStored(Next(st, landing), after, replaced) ==>
                  forall any, user, refused, unfit ::
                    AcceptCheck(end, any, replaced, user, refused, unfit) == Failed(NotFound))
  {
    var st := Run(Empty(now, days), before);
    var id, st' := st.inflight[landing.tid].id, Next(st, landing);
    var replaced := st.rows[id].token;
    RunSnoc(Empty(now, days), before, landing);
    RunAppend(Empty(now, days), before + [landing], after);
    RunKeepsUsed(Empty(now, days), before);
    StepKeepsUsed(st, landing);
    TokenStep(st, landing, id);
    if NotStoredIn(st', after, id, replaced) { ForeignTokenIsRefused(st', after, id, replaced); }
    if (forall other | other in st.rows && other != id :: st.rows[other].token != replaced)
       && NeverStored(st', after, replaced) {
      forall any | any in st'.rows ensures st'.rows[any].token != replaced { TokenStep(st, landing, any); }
      UnstoredIsRefused(st', after, replaced);
    }
  }
}
