/**
 Administration of calls: src/applications/calls/admin-calls.service.ts with the partial writes of
 calls.repository.ts, where an undefined field of an update means "keep".

 Every operation on a stored call reads it in one statement and writes it in another, unconditionally
 and outside any transaction. `Begin` is the read with its checks, `Commit` the write, and other
 requests may come in between.
 */
module Calls {
  import opened Common
  import opened Documents

  datatype CallStatus = Drafted | Opened | Closed | Archived

  /** A stored rule; None is a threshold text that does not parse to a finite number. */
  datatype Config = Config(rule: Code, threshold: Option<real>)

  datatype CallOption = CallOption(value: string, caption: string)

  datatype Call = Call(
    program: ProgramType, title: string, status: CallStatus,
    opensAt: Option<Time>, closesAt: Option<Time>,
    required: seq<DocumentType>, configs: seq<Config>,
    categories: seq<CallOption>, stackTags: seq<CallOption>)

  /** A date in a request: left out, null, or given. */
  datatype DateField = Omitted | Cleared | Given(at: Time)

  datatype Input = Input(
    opensAt: DateField, closesAt: DateField, required: Option<seq<DocumentType>>,
    minTeamSize: Option<real>, maxTransferred: Option<real>, maxAverage: Option<real>,
    categories: Option<seq<CallOption>>, stackTags: Option<seq<CallOption>>)

  // ---------------------------------------------------------------- the helpers

  function ParseDate(field: DateField, fallback: Option<Time>): Option<Time> {
    match field
    case Omitted => fallback
    case Cleared => None
    case Given(at) => Some(at)
  }

  predicate ValidWindow(opensAt: Option<Time>, closesAt: Option<Time>) {
    opensAt.Some? && closesAt.Some? ==> opensAt.value < closesAt.value
  }

  function OrElse<T>(a: Option<T>, b: Option<T>): Option<T> {
    if a.Some? then a else b
  }

  function OrDefault<T>(a: Option<T>, fallback: T): T {
    if a.Some? then a.value else fallback
  }

  /** The stored threshold of a rule, if a row has it and it parses; a later row would win. */
  function StoredThreshold(configs: seq<Config>, rule: Code): Option<real> {
    if configs == [] then None
    else
      var last := configs[|configs| - 1];
      if last.rule == rule then last.threshold else StoredThreshold(configs[..|configs| - 1], rule)
  }

  function ResolveConfigs(program: ProgramType, input: Input, existing: seq<Config>): seq<Config> {
    if program != ProgramA then []
    else
      [Config(TeamSizeMin, Some(OrDefault(OrElse(input.minTeamSize, StoredThreshold(existing, TeamSizeMin)), 3.0))),
       Config(TransferredSubjectsMax,
              Some(OrDefault(OrElse(input.maxTransferred, StoredThreshold(existing, TransferredSubjectsMax)), 0.0))),
       Config(ProfileSubjectsAverageMax,
              Some(OrDefault(OrElse(input.maxAverage, StoredThreshold(existing, ProfileSubjectsAverageMax)), 2.0)))]
  }

  predicate UniqueValues(options: seq<CallOption>) {
    forall i, j | 0 <= i < j < |options| :: options[i].value != options[j].value
  }

  function ResolveOptions(program: ProgramType, options: Option<seq<CallOption>>): Result<seq<CallOption>> {
    if program != ProgramA then Ok([])
    else if !UniqueValues(OrDefault(options, [])) then Err(BadRequest)
    else Ok(OrDefault(options, []))
  }

  function CanBeOpened(program: ProgramType, opensAt: Option<Time>, closesAt: Option<Time>,
                       required: seq<DocumentType>): Outcome {
    if opensAt.None? || closesAt.None? then Failed(BadRequest)
    else if !ValidWindow(opensAt, closesAt) then Failed(BadRequest)
    else if program == ProgramA && required == [] then Failed(BadRequest)
    else Done
  }

  // ---------------------------------------------------------------- the partial write

  datatype Patch = Patch(
    program: Option<ProgramType>, title: Option<string>, status: Option<CallStatus>,
    opensAt: Option<Option<Time>>, closesAt: Option<Option<Time>>,
    required: Option<seq<DocumentType>>, configs: Option<seq<Config>>,
    categories: Option<seq<CallOption>>, stackTags: Option<seq<CallOption>>)

  const KEEP_ALL := Patch(None, None, None, None, None, None, None, None, None)

  /** updateAdminCall: given lists replace the stored rows, everything undefined is kept. */
  function ApplyPatch(call: Call, p: Patch): Call {
    Call(OrDefault(p.program, call.program), OrDefault(p.title, call.title), OrDefault(p.status, call.status),
         OrDefault(p.opensAt, call.opensAt), OrDefault(p.closesAt, call.closesAt),
         OrDefault(p.required, call.required), OrDefault(p.configs, call.configs),
         OrDefault(p.categories, call.categories), OrDefault(p.stackTags, call.stackTags))
  }

  // ---------------------------------------------------------------- the operations

  function NewCall(program: ProgramType, title: string, input: Input): Result<Call> {
    var required := OrDefault(input.required, []);
    var opensAt, closesAt := ParseDate(input.opensAt, None), ParseDate(input.closesAt, None);
    var categories, stackTags := ResolveOptions(program, input.categories), ResolveOptions(program, input.stackTags);
    if program == ProgramB && required != [] then Err(BadRequest)
    else if !ValidWindow(opensAt, closesAt) then Err(BadRequest)
    else if categories.Err? || stackTags.Err? then Err(BadRequest)
    else Ok(Call(program, title, Drafted, opensAt, closesAt, required,
                 ResolveConfigs(program, input, []), categories.value, stackTags.value))
  }

  /** updateCall: which fields are written depends on what the request names and on whether the type changes. */
  function UpdatePatch(call: Call, program: Option<ProgramType>, title: Option<string>, input: Input): Result<Patch> {
    var nextProgram := OrDefault(program, call.program);
    var opensAt, closesAt := ParseDate(input.opensAt, call.opensAt), ParseDate(input.closesAt, call.closesAt);
    var required := if nextProgram == ProgramB then [] else OrDefault(input.required, call.required);
    var typeChanges := nextProgram != call.program;
    var categories := ResolveOptions(nextProgram, input.categories);
    var stackTags := ResolveOptions(nextProgram, input.stackTags);
    if call.status == Archived then Err(Conflict)
    else if !ValidWindow(opensAt, closesAt) then Err(BadRequest)
    else if call.status == Opened && CanBeOpened(nextProgram, opensAt, closesAt, required).Failed? then Err(BadRequest)
    else if (input.categories.Some? || typeChanges) && categories.Err? then Err(BadRequest)
    else if (input.stackTags.Some? || typeChanges) && stackTags.Err? then Err(BadRequest)
    else Ok(Patch(
      Some(nextProgram), Some(OrDefault(title, call.title)), None, Some(opensAt), Some(closesAt),
      if input.required.Some? || typeChanges then Some(required) else None,
      Some(ResolveConfigs(nextProgram, input, call.configs)),
      if input.categories.Some? || typeChanges then Some(categories.value) else None,
      if input.stackTags.Some? || typeChanges then Some(stackTags.value) else None))
  }

  function StatusCheck(call: Call, next: CallStatus): Outcome {
    match next
    case Opened =>
      if call.status == Opened || call.status == Archived then Failed(Conflict)
      else CanBeOpened(call.program, call.opensAt, call.closesAt, call.required)
    case Closed => if call.status != Opened then Failed(Conflict) else Done
    case Archived => if call.status != Closed then Failed(Conflict) else Done
    case Drafted => Failed(Conflict) // no operation does this
  }

  // ---------------------------------------------------------------- requests, reads and writes

  datatype Request =
    | Update(program: Option<ProgramType>, title: Option<string>, input: Input)
    | SetStatus(status: CallStatus) // openCall, closeCall, archiveCall

  /** A request whose checks have passed: the call it read and the patch it is going to write. */
  datatype Txn = Txn(id: CallId, read: Call, req: Request, patch: Patch)

  datatype CallBoard = CallBoard(calls: map<CallId, Call>, inflight: map<TxnId, Txn>)

  const EMPTY := CallBoard(map[], map[])

  /** The patch a request computes from the call it reads. */
  function PatchFor(read: Call, req: Request): Result<Patch> {
    match req
    case Update(program, title, input) => UpdatePatch(read, program, title, input)
    case SetStatus(status) =>
      if StatusCheck(read, status).Failed? then Err(StatusCheck(read, status).error)
      else Ok(KEEP_ALL.(status := Some(status)))
  }

  function Admit(calls: map<CallId, Call>, actor: Role, id: CallId, req: Request): Result<Txn> {
    if !IsAdmin(actor) then Err(Forbidden)
    else if id !in calls then Err(NotFound)
    else
      match PatchFor(calls[id], req)
      case Err(e) => Err(e)
      case Ok(patch) => Ok(Txn(id, calls[id], req, patch))
  }

  /** createCall inserts without reading. Its id is generated and does not repeat. */
  function AdmitNew(calls: map<CallId, Call>, actor: Role, id: CallId, program: ProgramType, title: string,
                    input: Input): Result<Call> {
    if !IsAdmin(actor) then Err(Forbidden)
    else if id in calls then Err(ServerError)
    else NewCall(program, title, input)
  }

  datatype Step =
    | Create(id: CallId, actor: Role, program: ProgramType, title: string, input: Input)
    | Begin(tid: TxnId, actor: Role, target: CallId, req: Request)
    | Commit(tid: TxnId)

  function Next(d: CallBoard, step: Step): CallBoard {
    match step
    case Create(id, actor, program, title, input) =>
      (match AdmitNew(d.calls, actor, id, program, title, input)
       case Err(_) => d
       case Ok(call) => d.(calls := d.calls[id := call]))
    case Begin(tid, actor, id, req) =>
      if tid in d.inflight || Admit(d.calls, actor, id, req).Err? then d
      else d.(inflight := d.inflight[tid := Admit(d.calls, actor, id, req).value])
    case Commit(tid) =>
      if tid !in d.inflight || d.inflight[tid].id !in d.calls then d
      else
        var txn := d.inflight[tid];
        CallBoard(d.calls[txn.id := ApplyPatch(d.calls[txn.id], txn.patch)], d.inflight - {tid})
  }

  class CallTable {
    var calls: map<CallId, Call>
    var inflight: map<TxnId, Txn>

    ghost function View(): CallBoard
      reads this
    {
      CallBoard(calls, inflight)
    }

    constructor ()
      ensures View() == EMPTY
    {
      calls, inflight := map[], map[];
    }

    method UpdateAdminCall(id: CallId, patch: Patch) returns (call: Call)
      requires id in calls
      modifies this`calls
      ensures call == ApplyPatch(old(calls[id]), patch)
      ensures calls == old(calls)[id := call]
    {
      call := calls[id];
      if patch.program.Some? { call := call.(program := patch.program.value); }
      if patch.title.Some? { call := call.(title := patch.title.value); }
      if patch.status.Some? { call := call.(status := patch.status.value); }
      if patch.opensAt.Some? { call := call.(opensAt := patch.opensAt.value); }
      if patch.closesAt.Some? { call := call.(closesAt := patch.closesAt.value); }
      if patch.required.Some? { call := call.(required := patch.required.value); }
      if patch.configs.Some? { call := call.(configs := patch.configs.value); }
      if patch.categories.Some? { call := call.(categories := patch.categories.value); }
      if patch.stackTags.Some? { call := call.(stackTags := patch.stackTags.value); }
      calls := calls[id := call];
    }

    method CreateCall(id: CallId, actor: Role, program: ProgramType, title: string, input: Input)
      returns (r: Result<Call>)
      modifies this`calls
      ensures View() == Next(old(View()), Create(id, actor, program, title, input))
      ensures r == AdmitNew(old(calls), actor, id, program, title, input)
      ensures r.Ok? ==>
                && calls == old(calls)[id := r.value] && r.value.program == program && r.value.title == title
                && r.value.status == Drafted && (input.required.Some? ==> r.value.required == input.required.value)
                && (program == ProgramA && input.categories.Some? ==> r.value.categories == input.categories.value)
                && (program == ProgramA && input.stackTags.Some? ==> r.value.stackTags == input.stackTags.value)
    {
      if !IsAdmin(actor) { return Err(Forbidden); }
      if id in calls { return Err(ServerError); }
      r := NewCall(program, title, input);
      if r.Ok? { calls := calls[id := r.value]; }
    }

    /** updateCall up to its write. */
    method BeginUpdate(tid: TxnId, id: CallId, actor: Role, program: Option<ProgramType>, title: Option<string>,
                       input: Input) returns (r: Result<Txn>)
      requires tid !in inflight
      modifies this`inflight
      ensures View() == Next(old(View()), Begin(tid, actor, id, Update(program, title, input)))
      ensures r == Admit(calls, actor, id, Update(program, title, input))
    {
      if !IsAdmin(actor) { return Err(Forbidden); }
      if id !in calls { return Err(NotFound); }
      var patch := UpdatePatch(calls[id], program, title, input);
      if patch.Err? { return Err(patch.error); }
      r := Ok(Txn(id, calls[id], Update(program, title, input), patch.value));
      inflight := inflight[tid := r.value];
    }

    method BeginOpen(tid: TxnId, id: CallId, actor: Role) returns (r: Result<Txn>)
      requires tid !in inflight
      modifies this`inflight
      ensures View() == Next(old(View()), Begin(tid, actor, id, SetStatus(Opened)))
      ensures r == Admit(calls, actor, id, SetStatus(Opened))
    {
      if !IsAdmin(actor) { return Err(Forbidden); }
      if id !in calls { return Err(NotFound); }
      if calls[id].status == Opened { return Err(Conflict); }
      if calls[id].status == Archived { return Err(Conflict); }
      var ready := CanBeOpened(calls[id].program, calls[id].opensAt, calls[id].closesAt, calls[id].required);
      if ready.Failed? { return Err(ready.error); }
      r := Ok(Txn(id, calls[id], SetStatus(Opened), KEEP_ALL.(status := Some(Opened))));
      inflight := inflight[tid := r.value];
    }

    method BeginClose(tid: TxnId, id: CallId, actor: Role) returns (r: Result<Txn>)
      requires tid !in inflight
      modifies this`inflight
      ensures View() == Next(old(View()), Begin(tid, actor, id, SetStatus(Closed)))
      ensures r == Admit(calls, actor, id, SetStatus(Closed))
    {
      if !IsAdmin(actor) { return Err(Forbidden); }
      if id !in calls { return Err(NotFound); }
      if calls[id].status != Opened { return Err(Conflict); }
      r := Ok(Txn(id, calls[id], SetStatus(Closed), KEEP_ALL.(status := Some(Closed))));
      inflight := inflight[tid := r.value];
    }

    method BeginArchive(tid: TxnId, id: CallId, actor: Role) returns (r: Result<Txn>)
      requires tid !in inflight
      modifies this`inflight
      ensures View() == Next(old(View()), Begin(tid, actor, id, SetStatus(Archived)))
      ensures r == Admit(calls, actor, id, SetStatus(Archived))
    {
      if !IsAdmin(actor) { return Err(Forbidden); }
      if id !in calls { return Err(NotFound); }
      if calls[id].status != Closed { return Err(Conflict); }
      r := Ok(Txn(id, calls[id], SetStatus(Archived), KEEP_ALL.(status := Some(Archived))));
      inflight := inflight[tid := r.value];
    }

    /** The write of an update, open, close or archive. */
    method CommitWrite(tid: TxnId) returns (call: Call)
      requires tid in inflight && inflight[tid].id in calls
      modifies this
      ensures View() == Next(old(View()), Commit(tid))
      ensures call == ApplyPatch(old(calls[inflight[tid].id]), old(inflight[tid].patch))
    {
      var txn := inflight[tid];
      inflight := inflight - {tid};
      call := UpdateAdminCall(txn.id, txn.patch);
    }
  }

  // ---------------------------------------------------------------- the rules of a call

  function Run(d: CallBoard, steps: seq<Step>): CallBoard
    decreases |steps|
  {
    if steps == [] then d else Run(Next(d, steps[0]), steps[1..])
  }

  ghost predicate CallOk(c: Call) {
    && ValidWindow(c.opensAt, c.closesAt)
    && (c.status == Opened ==> CanBeOpened(c.program, c.opensAt, c.closesAt, c.required) == Done)
    && (c.program == ProgramB ==> c.required == [] && c.configs == [] && c.categories == [] && c.stackTags == [])
    && (c.program == ProgramA ==>
          && |c.configs| == 3 && (forall i | 0 <= i < 3 :: c.configs[i].threshold.Some?)
          && c.configs[0].rule == TeamSizeMin && c.configs[1].rule == TransferredSubjectsMax
          && c.configs[2].rule == ProfileSubjectsAverageMax)
    && UniqueValues(c.categories) && UniqueValues(c.stackTags)
  }

  ghost predicate RulesHold(calls: map<CallId, Call>) {
    forall id | id in calls :: CallOk(calls[id])
  }

  ghost predicate ArchivedKept(before: map<CallId, Call>, after: map<CallId, Call>) {
    forall id | id in before && before[id].status == Archived :: id in after && after[id] == before[id]
  }

  /** At every point of the run the rules hold and the next step leaves archived calls alone. */
  ghost predicate AlwaysRuled(d: CallBoard, steps: seq<Step>)
    decreases |steps|
  {
    RulesHold(d.calls) &&
    (steps == [] || (ArchivedKept(d.calls, Next(d, steps[0]).calls) && AlwaysRuled(Next(d, steps[0]), steps[1..])))
  }

  // ---------------------------------------------------------------- when a write breaks them

  /** An update that took the call for Program B keeps lists that a Program A call has got since. */
  predicate LeavesProgramAData(row: Call, read: Call, program: Option<ProgramType>, input: Input) {
    read.program == ProgramB && OrDefault(program, ProgramB) == ProgramB && row.program == ProgramA &&
    (|| (input.required.None? && row.required != [])
     || (input.categories.None? && row.categories != [])
     || (input.stackTags.None? && row.stackTags != []))
  }

  /** The documents the call will require: the request's, those read with another type, or the stored ones. */
  function RequiredThen(row: Call, read: Call, program: Option<ProgramType>, input: Input): seq<DocumentType> {
    if input.required.Some? then input.required.value
    else if OrDefault(program, read.program) != read.program then read.required
    else row.required
  }

  /** The call is open, and by the request and what it read a date or the last required document goes. */
  predicate UnpreparesOpenCall(row: Call, read: Call, program: Option<ProgramType>, input: Input) {
    row.status == Opened &&
    (|| ParseDate(input.opensAt, read.opensAt).None?
     || ParseDate(input.closesAt, read.closesAt).None?
     || (OrDefault(program, read.program) == ProgramA && RequiredThen(row, read, program, input) == []))
  }

  predicate IsStored<T(==)>(given: Option<T>, stored: T) {
    given.Some? ==> given.value == stored
  }

  /** The patch would write what is stored already. */
  predicate AgreesWith(patch: Patch, row: Call) {
    && IsStored(patch.program, row.program) && IsStored(patch.title, row.title) && IsStored(patch.status, row.status)
    && IsStored(patch.opensAt, row.opensAt) && IsStored(patch.closesAt, row.closesAt)
    && IsStored(patch.required, row.required) && IsStored(patch.configs, row.configs)
    && IsStored(patch.categories, row.categories) && IsStored(patch.stackTags, row.stackTags)
  }

  predicate NotReady(row: Call) {
    row.opensAt.None? || row.closesAt.None? || (row.program == ProgramA && row.required == [])
  }

  /** From the stored row, what was read and what was asked for: the write breaks a rule or an archived call. */
  predicate Breaks(row: Call, txn: Txn) {
    match txn.req
    case Update(program, title, input) =>
      || LeavesProgramAData(row, txn.read, program, input)
      || UnpreparesOpenCall(row, txn.read, program, input)
      || (row.status == Archived && !AgreesWith(txn.patch, row))
    case SetStatus(status) =>
      || (status == Opened && NotReady(row))
      || (row.status == Archived && status != Archived)
  }

  predicate BreakingCommit(d: CallBoard, step: Step) {
    step.Commit? && step.tid in d.inflight && d.inflight[step.tid].id in d.calls
    && Breaks(d.calls[d.inflight[step.tid].id], d.inflight[step.tid])
  }

  predicate NoBreakingCommit(d: CallBoard, steps: seq<Step>)
    decreases |steps|
  {
    steps == [] || (!BreakingCommit(d, steps[0]) && NoBreakingCommit(Next(d, steps[0]), steps[1..]))
  }

  lemma AgreeingPatchChangesNothing(row: Call, patch: Patch)
    ensures ApplyPatch(row, patch) == row <==> AgreesWith(patch, row)
  {}

  lemma UpdateKeepsWindowAndConfigs(row: Call, read: Call, req: Request)
    requires CallOk(row) && CallOk(read) && req.Update? && PatchFor(read, req).Ok?
    ensures var after := ApplyPatch(row, PatchFor(read, req).value);
            && after.program == OrDefault(req.program, read.program) && after.status == row.status
            && after.opensAt == ParseDate(req.input.opensAt, read.opensAt)
            && after.closesAt == ParseDate(req.input.closesAt, read.closesAt)
            && after.configs == ResolveConfigs(after.program, req.input, read.configs)
            && ValidWindow(after.opensAt, after.closesAt)
            && UniqueValues(after.categories) && UniqueValues(after.stackTags)
  {}

  lemma UpdateListsExactly(row: Call, read: Call, req: Request)
    requires CallOk(row) && CallOk(read) && req.Update? && PatchFor(read, req).Ok?
    ensures var after := ApplyPatch(row, PatchFor(read, req).value);
            && (after.program == ProgramB && !(after.required == [] && after.categories == [] && after.stackTags == [])
                <==> LeavesProgramAData(row, read, req.program, req.input))
            && (after.program == ProgramA ==> after.required == RequiredThen(row, read, req.program, req.input))
  {}

  lemma UpdateBreaksExactly(row: Call, read: Call, req: Request)
    requires CallOk(row) && CallOk(read) && req.Update? && PatchFor(read, req).Ok?
    ensures CallOk(ApplyPatch(row, PatchFor(read, req).value))
       <==> !LeavesProgramAData(row, read, req.program, req.input)
            && !UnpreparesOpenCall(row, read, req.program, req.input)
  {
    UpdateKeepsWindowAndConfigs(row, read, req);
    UpdateListsExactly(row, read, req);
  }

  /** For the write of any admitted request on any call in order. */
  lemma WriteBreaksExactly(row: Call, txn: Txn)
    requires CallOk(row) && CallOk(txn.read) && PatchFor(txn.read, txn.req) == Ok(txn.patch)
    ensures var after := ApplyPatch(row, txn.patch);
            CallOk(after) && (row.status == Archived ==> after == row) <==> !Breaks(row, txn)
  {
    AgreeingPatchChangesNothing(row, txn.patch);
    if txn.req.Update? { UpdateBreaksExactly(row, txn.read, txn.req); }
  }

  ghost predicate TxnOk(calls: map<CallId, Call>, txn: Txn) {
    txn.id in calls && CallOk(txn.read) && PatchFor(txn.read, txn.req) == Ok(txn.patch)
  }

  ghost predicate TxnsOk(d: CallBoard) {
    forall t | t in d.inflight :: TxnOk(d.calls, d.inflight[t])
  }

  lemma NewCallIsOk(program: ProgramType, title: string, input: Input)
    requires NewCall(program, title, input).Ok?
    ensures CallOk(NewCall(program, title, input).value) && NewCall(program, title, input).value.status == Drafted
  {}

  lemma AdmittedIsOk(calls: map<CallId, Call>, actor: Role, id: CallId, req: Request)
    requires RulesHold(calls) && Admit(calls, actor, id, req).Ok?
    ensures TxnOk(calls, Admit(calls, actor, id, req).value)
  {}

  lemma StepKeepsTxns(d: CallBoard, step: Step)
    requires RulesHold(d.calls) && TxnsOk(d)
    ensures TxnsOk(Next(d, step))
  {
    var d' := Next(d, step);
    if step.Begin? && Admit(d.calls, step.actor, step.target, step.req).Ok? {
      AdmittedIsOk(d.calls, step.actor, step.target, step.req);
    }
    assert d.calls.Keys <= d'.calls.Keys;
    forall t | t in d'.inflight ensures TxnOk(d'.calls, d'.inflight[t]) {
      if t in d.inflight { assert TxnOk(d.calls, d.inflight[t]) && d'.inflight[t] == d.inflight[t]; }
    }
  }

  lemma CommitRulesExactly(d: CallBoard, tid: TxnId)
    requires RulesHold(d.calls) && TxnsOk(d) && tid in d.inflight
    ensures var d' := Next(d, Commit(tid));
            RulesHold(d'.calls) && ArchivedKept(d.calls, d'.calls) <==> !BreakingCommit(d, Commit(tid))
  {
    var txn, d' := d.inflight[tid], Next(d, Commit(tid));
    var row := d.calls[txn.id];
    WriteBreaksExactly(row, txn);
    assert d'.calls == d.calls[txn.id := ApplyPatch(row, txn.patch)];
    assert d'.calls[txn.id] == ApplyPatch(row, txn.patch);
  }

  lemma StepRulesExactly(d: CallBoard, step: Step)
    requires RulesHold(d.calls) && TxnsOk(d)
    ensures RulesHold(Next(d, step).calls) && ArchivedKept(d.calls, Next(d, step).calls) <==> !BreakingCommit(d, step)
  {
    match step
    case Create(id, actor, program, title, input) =>
      if AdmitNew(d.calls, actor, id, program, title, input).Ok? { NewCallIsOk(program, title, input); }
    case Begin(_, _, _, _) =>
    case Commit(tid) => if tid in d.inflight { CommitRulesExactly(d, tid); }
  }

  lemma {:induction false} RulesExactlyFrom(d: CallBoard, steps: seq<Step>)
    requires RulesHold(d.calls) && TxnsOk(d)
    ensures AlwaysRuled(d, steps) <==> NoBreakingCommit(d, steps)
    ensures NoBreakingCommit(d, steps) ==>
              RulesHold(Run(d, steps).calls) && TxnsOk(Run(d, steps)) && ArchivedKept(d.calls, Run(d, steps).calls)
    decreases |steps|
  {
    if steps != [] {
      var d' := Next(d, steps[0]);
      StepRulesExactly(d, steps[0]);
      StepKeepsTxns(d, steps[0]);
      if !BreakingCommit(d, steps[0]) {
        RulesExactlyFrom(d', steps[1..]);
      } else {
        assert AlwaysRuled(d', steps[1..]) ==> RulesHold(d'.calls);
      }
    }
  }

  /** In any run, the rules hold and archived calls stay at every point exactly when no commit breaks them. */
  lemma CallRulesExactly(steps: seq<Step>)
    ensures AlwaysRuled(EMPTY, steps) <==> NoBreakingCommit(EMPTY, steps)
  {
    RulesExactlyFrom(EMPTY, steps);
  }

  // ---------------------------------------------------------------- what that gives

  /** In such runs: dates in order, open calls can take applications, Program B calls carry no Program A data. */
  lemma CallsInEveryRun(steps: seq<Step>, id: CallId)
    requires NoBreakingCommit(EMPTY, steps) && id in Run(EMPTY, steps).calls
    ensures var c := Run(EMPTY, steps).calls[id];
            && (c.opensAt.Some? && c.closesAt.Some? ==> c.opensAt.value < c.closesAt.value)
            && (c.status == Opened ==> c.opensAt.Some? && c.closesAt.Some?)
            && (c.status == Opened && c.program == ProgramA ==> c.required != [])
            && (c.program == ProgramB ==>
                  c.required == [] && c.configs == [] && c.categories == [] && c.stackTags == [])
            && (c.program == ProgramA ==> |c.configs| == 3)
  {
    RulesExactlyFrom(EMPTY, steps);
    assert CallOk(Run(EMPTY, steps).calls[id]);
  }

  lemma {:induction false} RunInTwoParts(d: CallBoard, a: seq<Step>, b: seq<Step>)
    ensures Run(d, a + b) == Run(Run(d, a), b)
    ensures NoBreakingCommit(d, a + b) <==> NoBreakingCommit(d, a) && NoBreakingCommit(Run(d, a), b)
    decreases |a|
  {
    if a == [] {
      assert a + b == b;
    } else {
      assert (a + b)[1..] == a[1..] + b;
      RunInTwoParts(Next(d, a[0]), a[1..], b);
    }
  }

  /** And an archived call never changes again. */
  lemma ArchivedCallsAreFinal(before: seq<Step>, after: seq<Step>, id: CallId)
    requires NoBreakingCommit(EMPTY, before + after)
    requires id in Run(EMPTY, before).calls && Run(EMPTY, before).calls[id].status == Archived
    ensures id in Run(EMPTY, before + after).calls
            && Run(EMPTY, before + after).calls[id] == Run(EMPTY, before).calls[id]
  {
    RunInTwoParts(EMPTY, before, after);
    RulesExactlyFrom(EMPTY, before);
    RulesExactlyFrom(Run(EMPTY, before), after);
  }

  /** A write that finds the call as its request read it breaks nothing. */
  lemma UndisturbedWriteIsSafe(row: Call, txn: Txn)
    requires CallOk(row) && PatchFor(row, txn.req) == Ok(txn.patch) && txn.read == row
    ensures !Breaks(row, txn)
  {}

  predicate NoLateWrite(d: CallBoard, steps: seq<Step>)
    decreases |steps|
  {
    steps == [] ||
    ((steps[0].Commit? && steps[0].tid in d.inflight && d.inflight[steps[0].tid].id in d.calls ==>
        d.inflight[steps[0].tid].read == d.calls[d.inflight[steps[0].tid].id])
     && NoLateWrite(Next(d, steps[0]), steps[1..]))
  }

  /** So the rules hold in every run in which no two requests on one call overlap with a change. */
  lemma {:induction false} UndisturbedRunsAreSafe(d: CallBoard, steps: seq<Step>)
    requires RulesHold(d.calls) && TxnsOk(d) && NoLateWrite(d, steps)
    ensures NoBreakingCommit(d, steps)
    decreases |steps|
  {
    if steps != [] {
      if BreakingCommit(d, steps[0]) {
        var txn := d.inflight[steps[0].tid];
        UndisturbedWriteIsSafe(d.calls[txn.id], txn);
      }
      StepRulesExactly(d, steps[0]);
      StepKeepsTxns(d, steps[0]);
      UndisturbedRunsAreSafe(Next(d, steps[0]), steps[1..]);
    }
  }

  /** An accepted update that keeps the type changes exactly the fields it names, thresholds one by one. */
  lemma UpdateChangesOnlyWhatIsGiven(c: Call, title: Option<string>, input: Input)
    requires CallOk(c) && UpdatePatch(c, None, title, input).Ok?
    ensures var after := ApplyPatch(c, UpdatePatch(c, None, title, input).value);
            && after.program == c.program && after.status == c.status
            && (title.None? ==> after.title == c.title) && (title.Some? ==> after.title == title.value)
            && after.opensAt
               == (match input.opensAt case Omitted => c.opensAt case Cleared => None case Given(t) => Some(t))
            && after.closesAt
               == (match input.closesAt case Omitted => c.closesAt case Cleared => None case Given(t) => Some(t))
            && (c.program == ProgramA ==>
                  && after.required == (match input.required case None => c.required case Some(given) => given)
                  && after.categories == (match input.categories case None => c.categories case Some(given) => given)
                  && after.stackTags == (match input.stackTags case None => c.stackTags case Some(given) => given))
            && (c.program == ProgramB ==>
                  after.required == [] && after.categories == [] && after.stackTags == [] && after.configs == [])
            && (c.program == ProgramA ==> (after.configs == [
                  Config(TeamSizeMin, if input.minTeamSize.None? then c.configs[0].threshold else input.minTeamSize),
                  Config(TransferredSubjectsMax,
                         if input.maxTransferred.None? then c.configs[1].threshold else input.maxTransferred),
                  Config(ProfileSubjectsAverageMax,
                         if input.maxAverage.None? then c.configs[2].threshold else input.maxAverage)]))
  {
    if c.program == ProgramA {
      var front := c.configs[..2];
      assert StoredThreshold(c.configs, ProfileSubjectsAverageMax) == c.configs[2].threshold;
      assert StoredThreshold(c.configs, TransferredSubjectsMax) == StoredThreshold(front, TransferredSubjectsMax)
          == c.configs[1].threshold;
      assert StoredThreshold(c.configs, TeamSizeMin) == StoredThreshold(front, TeamSizeMin)
          == StoredThreshold(front[..1], TeamSizeMin) == c.configs[0].threshold;
    }
  }

  // ---------------------------------------------------------------- it does happen

  const DATED := Input(Given(1), Given(2), None, None, None, None, None, None)
  const UNDATED := Input(Cleared, Cleared, None, None, None, None, None, None)
  const READY := Call(ProgramB, "t", Drafted, Some(1), Some(2), [], [], [], [])

  function StatusTxn(read: Call, to: CallStatus): Txn {
    Txn("c", read, SetStatus(to), KEEP_ALL.(status := Some(to)))
  }

  function Holding(call: Call, inflight: map<TxnId, Txn>): CallBoard {
    CallBoard(map["c" := call], inflight)
  }

  lemma Then(steps: seq<Step>, d: CallBoard, step: Step)
    requires Run(EMPTY, steps) == d
    ensures Run(EMPTY, steps + [step]) == Next(d, step)
  {
    RunInTwoParts(EMPTY, steps, [step]);
    assert [step][1..] == [];
    assert Run(d, [step]) == Run(Next(d, step), []);
  }

  lemma ThenBegin(steps: seq<Step>, call: Call, inflight: map<TxnId, Txn>, tid: TxnId, req: Request)
    requires Run(EMPTY, steps) == Holding(call, inflight) && tid !in inflight && PatchFor(call, req).Ok?
    ensures Run(EMPTY, steps + [Begin(tid, Admin, "c", req)])
         == Holding(call, inflight[tid := Txn("c", call, req, PatchFor(call, req).value)])
  {
    Then(steps, Holding(call, inflight), Begin(tid, Admin, "c", req));
  }

  lemma ThenCommit(steps: seq<Step>, call: Call, inflight: map<TxnId, Txn>, tid: TxnId)
    requires Run(EMPTY, steps) == Holding(call, inflight) && tid in inflight && inflight[tid].id == "c"
    ensures Run(EMPTY, steps + [Commit(tid)]) == Holding(ApplyPatch(call, inflight[tid].patch), inflight - {tid})
  {
    Then(steps, Holding(call, inflight), Commit(tid));
  }

  /** One status change, served without interruption. */
  lemma ThenServe(steps: seq<Step>, call: Call, to: CallStatus)
    requires Run(EMPTY, steps) == Holding(call, map[]) && StatusCheck(call, to) == Done
    ensures Run(EMPTY, steps + [Begin(0, Admin, "c", SetStatus(to))] + [Commit(0)])
         == Holding(call.(status := to), map[])
  {
    ThenBegin(steps, call, map[], 0, SetStatus(to));
    var inflight := map[0 := StatusTxn(call, to)];
    ThenCommit(steps + [Begin(0, Admin, "c", SetStatus(to))], call, inflight, 0);
    assert inflight - {0} == map[];
  }

  lemma Created() returns (steps: seq<Step>)
    ensures Run(EMPTY, steps) == Holding(READY, map[])
  {
    var none: seq<Step> := [];
    steps := none + [Create("c", Admin, ProgramB, "t", DATED)];
    Then(none, EMPTY, Create("c", Admin, ProgramB, "t", DATED));
  }

  /** An update that read the draft clears the dates of the call that was opened meanwhile. */
  lemma LateUpdateClearsOpenCall()
    ensures exists steps: seq<Step> ::
              var calls := Run(EMPTY, steps).calls;
              "c" in calls && calls["c"].status == Opened && calls["c"].opensAt.None? && calls["c"].closesAt.None?
  {
    var req := Update(None, None, UNDATED);
    var update, open := Txn("c", READY, req, PatchFor(READY, req).value), StatusTxn(READY, Opened);
    var steps := Created();
    ThenBegin(steps, READY, map[], 0, req);
    steps := steps + [Begin(0, Admin, "c", req)];
    ThenBegin(steps, READY, map[0 := update], 1, SetStatus(Opened));
    steps := steps + [Begin(1, Admin, "c", SetStatus(Opened))];
    ThenCommit(steps, READY, map[0 := update, 1 := open], 1);
    steps := steps + [Commit(1)];
    ThenCommit(steps, READY.(status := Opened), map[0 := update, 1 := open] - {1}, 0);
    steps := steps + [Commit(0)];
    var call := ApplyPatch(READY.(status := Opened), update.patch);
    assert call.status == Opened && call.opensAt.None? && call.closesAt.None?;
    assert Run(EMPTY, steps).calls["c"] == call;
  }

  /** An open that read the closed call reopens it after it was archived. */
  lemma LateOpenRevivesArchivedCall()
    ensures exists steps: seq<Step>, last: Step ::
              var before, after := Run(EMPTY, steps).calls, Run(EMPTY, steps + [last]).calls;
              && "c" in before && before["c"].status == Archived
              && "c" in after && after["c"].status == Opened
  {
    var closed := READY.(status := Closed);
    var open, archive := StatusTxn(closed, Opened), StatusTxn(closed, Archived);
    var steps := Created();
    ThenServe(steps, READY, Opened);
    steps := steps + [Begin(0, Admin, "c", SetStatus(Opened))] + [Commit(0)];
    ThenServe(steps, READY.(status := Opened), Closed);
    steps := steps + [Begin(0, Admin, "c", SetStatus(Closed))] + [Commit(0)];
    ThenBegin(steps, closed, map[], 0, SetStatus(Opened));
    steps := steps + [Begin(0, Admin, "c", SetStatus(Opened))];
    ThenBegin(steps, closed, map[0 := open], 1, SetStatus(Archived));
    steps := steps + [Begin(1, Admin, "c", SetStatus(Archived))];
    ThenCommit(steps, closed, map[0 := open, 1 := archive], 1);
    steps := steps + [Commit(1)];
    ThenCommit(steps, READY.(status := Archived), map[0 := open, 1 := archive] - {1}, 0);
    assert Run(EMPTY, steps).calls["c"].status == Archived;
    assert Run(EMPTY, steps + [Commit(0)]).calls["c"].status == Opened;
  }

  // ---------------------------------------------------------------- visible and open agree

  /** buildPublicVisibleWhere. */
  predicate PubliclyVisible(c: Call, at: Time) {
    c.status == Opened && (c.opensAt.None? || c.opensAt.value <= at) && (c.closesAt.None? || c.closesAt.value >= at)
  }

  /** ensureCallOpenForApplications. */
  function OpenForApplications(c: Call, now: Time): Outcome {
    if c.status != Opened then Failed(Conflict)
    else if c.opensAt.Some? && now < c.opensAt.value then Failed(BadRequest)
    else if c.closesAt.Some? && now > c.closesAt.value then Failed(BadRequest)
    else Done
  }

  /** Any call whatever is listed as visible exactly when it takes applications. */
  lemma VisibleIsOpenForApplications(c: Call, now: Time)
    ensures PubliclyVisible(c, now) <==> OpenForApplications(c, now) == Done
  {}

  /** Without breaking commits that is exactly an open call within its dates. */
  lemma VisibleIsWithinDates(steps: seq<Step>, id: CallId, now: Time)
    requires NoBreakingCommit(EMPTY, steps) && id in Run(EMPTY, steps).calls
    ensures var c := Run(EMPTY, steps).calls[id];
            PubliclyVisible(c, now) <==> c.status == Opened && c.opensAt.Some? && c.closesAt.Some?
                                         && c.opensAt.value <= now <= c.closesAt.value
  {
    CallsInEveryRun(steps, id);
  }
}
