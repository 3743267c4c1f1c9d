/**
 What each request of a call's administration is answered and what it stores, said field by field
 from the request, the call it read and the row its write finds.
 */
module CallOperations {
  import opened Common
  import opened Documents
  import opened Calls

  const ADMINS: set<Role> := {Admin, SuperAdmin}

  /** The stored value is the given one, or without one the other. */
  predicate Takes<T(==)>(given: Option<T>, otherwise: T, stored: T) {
    match given
    case Some(x) => stored == x
    case None => stored == otherwise
  }

  predicate TakesDate(field: DateField, otherwise: Option<Time>, stored: Option<Time>) {
    match field
    case Omitted => stored == otherwise
    case Cleared => stored == None
    case Given(at) => stored == Some(at)
  }

  /** The three rules in their order, each with its threshold. */
  predicate HasRules(configs: seq<Config>, minimum: real, transferred: real, average: real) {
    configs == [Config(TeamSizeMin, Some(minimum)), Config(TransferredSubjectsMax, Some(transferred)),
                Config(ProfileSubjectsAverageMax, Some(average))]
  }

  ghost predicate Repeats(options: Option<seq<CallOption>>) {
    options.Some? && exists i, j :: 0 <= i < j < |options.value| && options.value[i].value == options.value[j].value
  }

  lemma UniqueUnlessRepeats(options: Option<seq<CallOption>>)
    ensures UniqueValues(OrDefault(options, [])) <==> !Repeats(options)
  {
    if Repeats(options) {
      var i, j :| 0 <= i < j < |options.value| && options.value[i].value == options.value[j].value;
      assert OrDefault(options, [])[i].value == OrDefault(options, [])[j].value;
    }
  }

  // ---------------------------------------------------------------- createCall

  /** Who may create what: every error and the acceptance. */
  lemma CreateAnswers(calls: map<CallId, Call>, actor: Role, id: CallId, program: ProgramType, title: string,
                      input: Input)
    ensures var r := AdmitNew(calls, actor, id, program, title, input);
            var documentsForB := program == ProgramB && input.required.Some? && input.required.value != [];
            var reversed := input.opensAt.Given? && input.closesAt.Given? && input.opensAt.at >= input.closesAt.at;
            var repeated := program == ProgramA && (Repeats(input.categories) || Repeats(input.stackTags));
            && (r == Err(Forbidden) <==> actor !in ADMINS)
            && (r == Err(ServerError) <==> actor in ADMINS && id in calls)
            && (r == Err(BadRequest) <==> actor in ADMINS && id !in calls && (documentsForB || reversed || repeated))
            && (r.Ok? <==> actor in ADMINS && id !in calls && !documentsForB && !reversed && !repeated)
  {
    UniqueUnlessRepeats(input.categories);
    UniqueUnlessRepeats(input.stackTags);
  }

  /** A new draft with what the request gives, each thing under its own name, and the defaults for the rest. */
  lemma CreateStores(d: CallBoard, id: CallId, actor: Role, program: ProgramType, title: string, input: Input)
    ensures var d' := Next(d, Create(id, actor, program, title, input));
            if AdmitNew(d.calls, actor, id, program, title, input).Err? then d' == d
            else
              && d'.inflight == d.inflight && id in d'.calls && id !in d.calls && d'.calls - {id} == d.calls
              && var c := d'.calls[id];
                 && AdmitNew(d.calls, actor, id, program, title, input) == Ok(c)
                 && c.program == program && c.title == title && c.status == Drafted
                 && TakesDate(input.opensAt, None, c.opensAt) && TakesDate(input.closesAt, None, c.closesAt)
                 && Takes(input.required, [], c.required)
                 && (program == ProgramA ==>
                       && Takes(input.categories, [], c.categories) && Takes(input.stackTags, [], c.stackTags)
                       && exists m, t, a :: HasRules(c.configs, m, t, a) && Takes(input.minTeamSize, 3.0, m)
                            && Takes(input.maxTransferred, 0.0, t) && Takes(input.maxAverage, 2.0, a))
                 && (program == ProgramB ==>
                       c.required == [] && c.configs == [] && c.categories == [] && c.stackTags == [])
  {
    if AdmitNew(d.calls, actor, id, program, title, input).Ok? {
      var c := NewCall(program, title, input).value;
      assert d.calls[id := c] - {id} == d.calls;
      if program == ProgramA { RulesResolved(input, []); }
    }
  }

  /** The rules a Program A call gets: the request's thresholds, else the stored ones, else 3, 0 and 2. */
  lemma RulesResolved(input: Input, existing: seq<Config>)
    ensures exists m, t, a ::
              && HasRules(ResolveConfigs(ProgramA, input, existing), m, t, a)
              && Takes(input.minTeamSize, StoredOr(existing, TeamSizeMin, 3.0), m)
              && Takes(input.maxTransferred, StoredOr(existing, TransferredSubjectsMax, 0.0), t)
              && Takes(input.maxAverage, StoredOr(existing, ProfileSubjectsAverageMax, 2.0), a)
  {
    var configs := ResolveConfigs(ProgramA, input, existing);
    assert HasRules(configs, configs[0].threshold.value, configs[1].threshold.value, configs[2].threshold.value);
  }

  function StoredOr(configs: seq<Config>, rule: Code, fallback: real): real {
    match StoredThreshold(configs, rule)
    case None => fallback
    case Some(x) => x
  }

  /** The row of a rule that counts is its last one, and a text that is no number counts as none. */
  lemma {:induction false} LastRowCounts(configs: seq<Config>, rule: Code, k: nat, fallback: real)
    requires k < |configs| && configs[k].rule == rule
    requires forall j | k < j < |configs| :: configs[j].rule != rule
    ensures Takes(configs[k].threshold, fallback, StoredOr(configs, rule, fallback))
  {
    if k < |configs| - 1 { LastRowCounts(configs[..|configs| - 1], rule, k, fallback); }
  }

  lemma {:induction false} NoRowIsDefault(configs: seq<Config>, rule: Code, fallback: real)
    requires forall j | 0 <= j < |configs| :: configs[j].rule != rule
    ensures StoredOr(configs, rule, fallback) == fallback
  {
    if configs != [] { NoRowIsDefault(configs[..|configs| - 1], rule, fallback); }
  }

  // ---------------------------------------------------------------- requests on a stored call

  /** Rights first, then the call, then the request's own checks; an admitted request keeps what it read. */
  lemma BeginAnswers(d: CallBoard, tid: TxnId, actor: Role, id: CallId, req: Request)
    requires tid !in d.inflight
    ensures var (r, d') := (Admit(d.calls, actor, id, req), Next(d, Begin(tid, actor, id, req)));
            && (actor !in ADMINS ==> r == Err(Forbidden))
            && (actor in ADMINS && id !in d.calls ==> r == Err(NotFound))
            && (actor in ADMINS && id in d.calls ==>
                  match PatchFor(d.calls[id], req)
                  case Err(e) => r == Err(e)
                  case Ok(patch) => r == Ok(Txn(id, d.calls[id], req, patch)))
            && d' == (if r.Err? then d else CallBoard(d.calls, d.inflight[tid := r.value]))
  {}

  /** Opening asks for a draft or closed call with dates in order and, in Program A, a required document. */
  lemma StatusAnswers(read: Call, status: CallStatus)
    ensures var r := PatchFor(read, SetStatus(status));
            var ready := read.opensAt.Some? && read.closesAt.Some? && read.opensAt.value < read.closesAt.value
                         && (read.program == ProgramA ==> read.required != []);
            match status
            case Opened =>
              && (r.Ok? <==> read.status in {Drafted, Closed} && ready)
              && (r == Err(Conflict) <==> read.status in {Opened, Archived})
              && (r == Err(BadRequest) <==> read.status in {Drafted, Closed} && !ready)
            case Closed => (r.Ok? <==> read.status == Opened) && (r == Err(Conflict) <==> read.status != Opened)
            case Archived => (r.Ok? <==> read.status == Closed) && (r == Err(Conflict) <==> read.status != Closed)
            case Drafted => r == Err(Conflict)
  {}

  /** Its write changes the status of the row and nothing else. */
  lemma StatusStores(row: Call, read: Call, status: CallStatus)
    requires PatchFor(read, SetStatus(status)).Ok?
    ensures ApplyPatch(row, PatchFor(read, SetStatus(status)).value)
         == Call(row.program, row.title, status, row.opensAt, row.closesAt, row.required, row.configs,
                 row.categories, row.stackTags)
  {}

  /** The dates, the type and the documents that an update would leave behind, from the call it read. */
  ghost predicate WouldHave(read: Call, program: Option<ProgramType>, input: Input,
                            next: ProgramType, opensAt: Option<Time>, closesAt: Option<Time>, noDocuments: bool) {
    && Takes(program, read.program, next)
    && TakesDate(input.opensAt, read.opensAt, opensAt) && TakesDate(input.closesAt, read.closesAt, closesAt)
    && (noDocuments <==>
          next == ProgramB || (if input.required.None? then read.required else input.required.value) == [])
  }

  lemma UpdateAnswers(read: Call, program: Option<ProgramType>, title: Option<string>, input: Input,
                      next: ProgramType, opensAt: Option<Time>, closesAt: Option<Time>, noDocuments: bool)
    requires WouldHave(read, program, input, next, opensAt, closesAt, noDocuments)
    ensures var r := PatchFor(read, Update(program, title, input));
            var reversed := opensAt.Some? && closesAt.Some? && opensAt.value >= closesAt.value;
            var unready := read.status == Opened
                           && (opensAt.None? || closesAt.None? || (next == ProgramA && noDocuments));
            var repeated := next == ProgramA && (Repeats(input.categories) || Repeats(input.stackTags));
            && (r == Err(Conflict) <==> read.status == Archived)
            && (r == Err(BadRequest) <==> read.status != Archived && (reversed || unready || repeated))
            && (r.Ok? <==> read.status != Archived && !reversed && !unready && !repeated)
  {
    UniqueUnlessRepeats(input.categories);
    UniqueUnlessRepeats(input.stackTags);
  }

  /** A list of a Program A call after an update: the given one, an empty one for a new type, or the row's. */
  predicate TakesList<T(==)>(given: Option<seq<T>>, next: ProgramType, typeChanges: bool, row: seq<T>, stored: seq<T>) {
    if next == ProgramB && (given.Some? || typeChanges) then stored == []
    else Takes(given, if typeChanges then [] else row, stored)
  }

  /**
   What an update writes on the row it finds: dates, type, title and thresholds from the request or
   else from the call it had read, and lists only if the request names them or changes the type.
   */
  lemma UpdateStores(row: Call, read: Call, program: Option<ProgramType>, title: Option<string>, input: Input)
    requires PatchFor(read, Update(program, title, input)).Ok?
    ensures var c := ApplyPatch(row, PatchFor(read, Update(program, title, input)).value);
            var typeChanges := c.program != read.program;
            && Takes(program, read.program, c.program) && Takes(title, read.title, c.title) && c.status == row.status
            && TakesDate(input.opensAt, read.opensAt, c.opensAt) && TakesDate(input.closesAt, read.closesAt, c.closesAt)
            && TakesList(input.categories, c.program, typeChanges, row.categories, c.categories)
            && TakesList(input.stackTags, c.program, typeChanges, row.stackTags, c.stackTags)
            && (c.program == ProgramB ==>
                  c.required == if input.required.Some? || typeChanges then [] else row.required)
            && (c.program == ProgramA ==>
                  Takes(input.required, if typeChanges then read.required else row.required, c.required))
  {}

  lemma UpdateStoresRules(row: Call, read: Call, program: Option<ProgramType>, title: Option<string>, input: Input)
    requires PatchFor(read, Update(program, title, input)).Ok?
    ensures var c := ApplyPatch(row, PatchFor(read, Update(program, title, input)).value);
            && (c.program == ProgramB ==> c.configs == [])
            && (c.program == ProgramA ==>
                  exists m, t, a :: HasRules(c.configs, m, t, a)
                    && Takes(input.minTeamSize, StoredOr(read.configs, TeamSizeMin, 3.0), m)
                    && Takes(input.maxTransferred, StoredOr(read.configs, TransferredSubjectsMax, 0.0), t)
                    && Takes(input.maxAverage, StoredOr(read.configs, ProfileSubjectsAverageMax, 2.0), a))
  {
    var c := ApplyPatch(row, PatchFor(read, Update(program, title, input)).value);
    if c.program == ProgramA { RulesResolved(input, read.configs); }
  }

  /** The write replaces one row, on whatever it holds by then. */
  lemma CommitDoes(d: CallBoard, tid: TxnId)
    requires tid in d.inflight && d.inflight[tid].id in d.calls
    ensures var (d', id) := (Next(d, Commit(tid)), d.inflight[tid].id);
            && d'.inflight == d.inflight - {tid} && d'.calls.Keys == d.calls.Keys
            && d'.calls[id] == ApplyPatch(d.calls[id], d.inflight[tid].patch)
            && forall other | other in d.calls && other != id :: d'.calls[other] == d.calls[other]
  {}

  // ---------------------------------------------------------------- applying

  /** Applications are taken by an open call between its dates; a call that is not open is a conflict. */
  lemma ApplyingAnswers(c: Call, now: Time)
    ensures var r := OpenForApplications(c, now);
            var outside := (c.opensAt.Some? && now < c.opensAt.value) || (c.closesAt.Some? && c.closesAt.value < now);
            && (r == Failed(Conflict) <==> c.status != Opened)
            && (r == Failed(BadRequest) <==> c.status == Opened && outside)
            && (r == Done <==> c.status == Opened && !outside)
  {}
}
