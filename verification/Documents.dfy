/**
 The document pack of an application: versioned slots, and which required documents are there.
 From attachDocument, resolveAttachmentSlot, buildDocumentCompleteness, buildRequiredDocumentSlots and
 buildDocumentSlotKey of src/applications/applications.service.ts and the documents repository.
 */
module Documents {
  import opened Common
  import W = Workflow

  datatype DocumentType =
    | ExecutiveSummary | TechnicalArchitecture | Roadmap | Budget | RiskAnalysis
    | MonetizationModel | CV | MotivationLetter | SolutionProposal | Other

  datatype Scope = ApplicationScope | TeamMemberScope

  datatype Slot = Slot(docType: DocumentType, scope: Scope, member: Option<UserId>)

  datatype Document = Document(slot: Slot, version: nat, isActive: bool, file: string)

  datatype UploadedFile = UploadedFile(owner: UserId, isUploaded: bool)

  /** What attachDocument reads besides the document rows. */
  datatype Context = Context(
    call: ProgramType, status: W.Status, leader: UserId, members: seq<UserId>, files: map<string, UploadedFile>)

  datatype Attachment = Attachment(docType: DocumentType, member: Option<UserId>, file: string)

  // ---------------------------------------------------------------- attaching

  /** An absent and an empty memberUserId are both falsy. */
  predicate NamesMember(dto: Attachment) {
    dto.member.Some? && dto.member.value != ""
  }

  /** The slot, and whose files may fill it. */
  function ResolveSlot(leader: UserId, members: seq<UserId>, dto: Attachment): Result<(Slot, set<UserId>)> {
    if dto.docType == CV then
      if !NamesMember(dto) then Err(BadRequest)
      else if leader != dto.member.value && dto.member.value !in members then Err(BadRequest)
      else Ok((Slot(CV, TeamMemberScope, dto.member), {leader, dto.member.value}))
    else if NamesMember(dto) then Err(BadRequest)
    else Ok((Slot(dto.docType, ApplicationScope, None), {leader}))
  }

  function AttachCheck(ctx: Context, actor: UserId, dto: Attachment): Result<Slot> {
    if ctx.call != ProgramA then Err(Conflict)
    else if ctx.leader != actor then Err(Forbidden)
    else if ctx.status != W.Draft then Err(Conflict)
    else
      match ResolveSlot(ctx.leader, ctx.members, dto)
      case Err(e) => Err(e)
      case Ok((slot, owners)) =>
        if dto.file !in ctx.files || ctx.files[dto.file].owner !in owners then Err(BadRequest)
        else if !ctx.files[dto.file].isUploaded then Err(BadRequest)
        else Ok(slot)
  }

  function Deactivated(rows: seq<Document>, slot: Slot): seq<Document> {
    seq(|rows|, i requires 0 <= i < |rows| =>
      if rows[i].slot == slot && rows[i].isActive then rows[i].(isActive := false) else rows[i])
  }

  /** The highest version among the slot's rows, active or not. */
  function LatestVersion(rows: seq<Document>, slot: Slot): Option<nat> {
    if rows == [] then None
    else
      var last := rows[|rows| - 1];
      var before := LatestVersion(rows[..|rows| - 1], slot);
      if last.slot != slot then before
      else if before.None? || before.value < last.version then Some(last.version)
      else before
  }

  function NextDocument(rows: seq<Document>, slot: Slot, file: string): Document {
    var latest := LatestVersion(rows, slot);
    Document(slot, (if latest.Some? then latest.value else 0) + 1, true, file)
  }

  function Attached(rows: seq<Document>, slot: Slot, file: string): seq<Document> {
    Deactivated(rows, slot) + [NextDocument(Deactivated(rows, slot), slot, file)]
  }

  function AfterAttach(rows: seq<Document>, ctx: Context, actor: UserId, dto: Attachment): seq<Document> {
    match AttachCheck(ctx, actor, dto)
    case Err(_) => rows
    case Ok(slot) => Attached(rows, slot, dto.file)
  }

  class DocumentPack {
    var rows: seq<Document>

    constructor ()
      ensures rows == []
    {
      rows := [];
    }

    /** No row of the slot is active any more, and that is all that has changed about any row. */
    method DeactivateActiveBySlot(slot: Slot)
      modifies this
      ensures |rows| == |old(rows)|
      ensures forall i | 0 <= i < |rows| && rows[i].slot == slot :: !rows[i].isActive
      ensures forall i | 0 <= i < |rows| :: rows[i] == old(rows)[i].(isActive := rows[i].isActive)
      ensures forall i | 0 <= i < |rows| && rows[i].slot != slot :: rows[i] == old(rows)[i]
    {
      var matching := set i | 0 <= i < |rows| && rows[i].slot == slot && rows[i].isActive;
      rows := seq(|rows|, i requires 0 <= i < |rows| reads this =>
        if i in matching then rows[i].(isActive := false) else rows[i]);
    }

    method CreateVersioned(document: Document)
      modifies this
      ensures rows == old(rows) + [document]
    {
      rows := rows + [document];
    }

    method AttachDocument(ctx: Context, actor: UserId, dto: Attachment) returns (r: Result<Document>)
      modifies this
      ensures rows == AfterAttach(old(rows), ctx, actor, dto)
      ensures match AttachCheck(ctx, actor, dto)
              case Err(e) => r == Err(e)
              case Ok(slot) => r.Ok? && rows == Deactivated(old(rows), slot) + [r.value]
    {
      if ctx.call != ProgramA { return Err(Conflict); }
      if ctx.leader != actor { return Err(Forbidden); }
      if ctx.status != W.Draft { return Err(Conflict); }
      var resolved := ResolveSlot(ctx.leader, ctx.members, dto);
      if resolved.Err? { return Err(resolved.error); }
      var (slot, owners) := resolved.value;
      if dto.file !in ctx.files || ctx.files[dto.file].owner !in owners { return Err(BadRequest); }
      if !ctx.files[dto.file].isUploaded { return Err(BadRequest); }
      DeactivateActiveBySlot(slot);
      assert rows == Deactivated(old(rows), slot);
      var latest := LatestVersion(rows, slot);
      var document := Document(slot, (if latest.Some? then latest.value else 0) + 1, true, dto.file);
      CreateVersioned(document);
      return Ok(document);
    }
  }

  // ---------------------------------------------------------------- who may attach what

  /** What a request may fill: a CV slot of the leader or a member it names, any other slot without naming one. */
  predicate SlotFits(ctx: Context, dto: Attachment) {
    match dto.member
    case None => dto.docType != CV
    case Some(m) => if m == "" then dto.docType != CV else dto.docType == CV && (m == ctx.leader || m in ctx.members)
  }

  /** Whose files may fill it: the leader's, and for a CV also those of the member it is about. */
  predicate FileFits(ctx: Context, dto: Attachment) {
    && dto.file in ctx.files && ctx.files[dto.file].isUploaded
    && (ctx.files[dto.file].owner == ctx.leader || (dto.docType == CV && Some(ctx.files[dto.file].owner) == dto.member))
  }

  lemma AttachAnswers(ctx: Context, actor: UserId, dto: Attachment)
    ensures var r := AttachCheck(ctx, actor, dto);
            && (ctx.call == ProgramB ==> r == Err(Conflict))
            && (ctx.call == ProgramA && actor != ctx.leader ==> r == Err(Forbidden))
            && (ctx.call == ProgramA && actor == ctx.leader && ctx.status != W.Draft ==> r == Err(Conflict))
            && (ctx.call == ProgramA && actor == ctx.leader && ctx.status == W.Draft ==>
                  if SlotFits(ctx, dto) && FileFits(ctx, dto)
                  then r == Ok(if dto.docType == CV then Slot(CV, TeamMemberScope, dto.member)
                               else Slot(dto.docType, ApplicationScope, None))
                  else r == Err(BadRequest))
  {}

  // ---------------------------------------------------------------- versions over whole runs

  /** The rows of one slot, oldest first. */
  function OfSlot(rows: seq<Document>, slot: Slot): seq<Document> {
    if rows == [] then []
    else OfSlot(rows[..|rows| - 1], slot) + if rows[|rows| - 1].slot == slot then [rows[|rows| - 1]] else []
  }

  /** Every slot holds versions 1..n in order and exactly the last of them is active. */
  ghost predicate Versioned(rows: seq<Document>) {
    forall slot, k | 0 <= k < |OfSlot(rows, slot)| ::
      var h := OfSlot(rows, slot);
      h[k].version == k + 1 && (h[k].isActive <==> k == |h| - 1)
  }

  /** The slots that resolveAttachmentSlot can produce. */
  predicate Producible(slot: Slot) {
    if slot.docType == CV then slot.scope == TeamMemberScope && slot.member.Some?
    else slot.scope == ApplicationScope && slot.member == None
  }

  predicate AllProducible(rows: seq<Document>) {
    forall k | 0 <= k < |rows| :: Producible(rows[k].slot)
  }

  lemma {:induction false} DeactivatedSlots(rows: seq<Document>, slot: Slot, other: Slot)
    ensures var before, after := OfSlot(rows, other), OfSlot(Deactivated(rows, slot), other);
            && (other != slot ==> after == before)
            && |after| == |before|
            && (other == slot ==> forall k | 0 <= k < |before| :: after[k] == before[k].(isActive := false))
  {
    if rows != [] {
      var n := |rows| - 1;
      assert Deactivated(rows, slot)[..n] == Deactivated(rows[..n], slot);
      DeactivatedSlots(rows[..n], slot, other);
    }
  }

  lemma {:induction false} LatestIsLength(rows: seq<Document>, slot: Slot)
    requires forall k | 0 <= k < |OfSlot(rows, slot)| :: OfSlot(rows, slot)[k].version == k + 1
    ensures LatestVersion(rows, slot) == if OfSlot(rows, slot) == [] then None else Some(|OfSlot(rows, slot)|)
  {
    if rows != [] {
      var h := OfSlot(rows, slot);
      var h0 := OfSlot(rows[..|rows| - 1], slot);
      assert forall k | 0 <= k < |h0| :: h0[k] == h[k];
      LatestIsLength(rows[..|rows| - 1], slot);
      if rows[|rows| - 1].slot == slot { assert h[|h0|] == rows[|rows| - 1]; }
    }
  }

  /** One attachment adds version n + 1 to its slot, retires version n, and leaves every other slot alone. */
  lemma AttachmentEffect(rows: seq<Document>, slot: Slot, file: string)
    requires Versioned(rows)
    ensures var before, after := OfSlot(rows, slot), OfSlot(Attached(rows, slot, file), slot);
            && |after| == |before| + 1
            && after[|before|] == Document(slot, |before| + 1, true, file)
            && forall k | 0 <= k < |before| :: after[k] == before[k].(isActive := false)
    ensures forall other | other != slot :: OfSlot(Attached(rows, slot, file), other) == OfSlot(rows, other)
    ensures Versioned(Attached(rows, slot, file))
  {
    var mid := Deactivated(rows, slot);
    var after := Attached(rows, slot, file);
    assert after[..|mid|] == mid;
    DeactivatedSlots(rows, slot, slot);
    LatestIsLength(mid, slot);
    forall other | other != slot ensures OfSlot(after, other) == OfSlot(rows, other) {
      DeactivatedSlots(rows, slot, other);
    }
  }

  datatype AttachCall = AttachCall(ctx: Context, actor: UserId, dto: Attachment)

  function RunAttach(rows: seq<Document>, calls: seq<AttachCall>): seq<Document>
    decreases |calls|
  {
    if calls == [] then rows
    else RunAttach(AfterAttach(rows, calls[0].ctx, calls[0].actor, calls[0].dto), calls[1..])
  }

  lemma {:induction false} AttachRunKeeps(rows: seq<Document>, calls: seq<AttachCall>)
    requires Versioned(rows) && AllProducible(rows)
    ensures Versioned(RunAttach(rows, calls)) && AllProducible(RunAttach(rows, calls))
    decreases |calls|
  {
    if calls != [] {
      var c := calls[0];
      var check := AttachCheck(c.ctx, c.actor, c.dto);
      if check.Ok? { AttachmentEffect(rows, check.value, c.dto.file); }
      AttachRunKeeps(AfterAttach(rows, c.ctx, c.actor, c.dto), calls[1..]);
    }
  }

  /** After any calls in any contexts: versions 1..n without gap or repeat, exactly the highest active. */
  lemma SlotsAreVersioned(calls: seq<AttachCall>)
    ensures Versioned(RunAttach([], calls)) && AllProducible(RunAttach([], calls))
  {
    AttachRunKeeps([], calls);
  }

  /** Calls made outside DRAFT change no row. */
  lemma {:induction false} PackIsFrozenOutsideDraft(rows: seq<Document>, calls: seq<AttachCall>)
    requires forall k | 0 <= k < |calls| :: calls[k].ctx.status != W.Draft
    ensures RunAttach(rows, calls) == rows
    decreases |calls|
  {
    if calls != [] { PackIsFrozenOutsideDraft(rows, calls[1..]); }
  }
}
