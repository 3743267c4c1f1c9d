/**
 Versioned application sections: src/applications/sections/application-sections.service.ts and its
 repository, for the sections of one application.
 */
module Sections {
  import opened Common
  import W = Workflow

  type Key = string

  const PROFILE: Key := "profile"

  const PROGRAM_A_SECTION_KEYS: seq<Key> :=
    ["idea_overview", "category_and_stack", "team_setup", "execution_plan", "business_case", "risks"]

  predicate IsSupported(key: Key) {
    key == PROFILE || key in PROGRAM_A_SECTION_KEYS
  }

  datatype Json = Null | Object(text: string)

  datatype Section = Section(id: string, value: Json, version: nat, active: Option<nat>)

  /** The section rows by key, and the history rows by their unique (sectionId, version). */
  datatype Store = Store(sections: map<Key, Section>, history: map<(string, nat), Json>)

  const EMPTY := Store(map[], map[])

  /** `wellFormed` is the verdict of the section contract on an object; `newId` the generated row id. */
  datatype SectionStep =
    | Upsert(actor: Actor, status: W.Status, leader: UserId, call: ProgramType,
             key: Key, value: Json, wellFormed: bool, newId: string)
    | Pin(admin: Actor, program: ProgramType, section: Key, version: Option<nat>)

  function Check(st: Store, step: SectionStep): Outcome {
    match step
    case Upsert(actor, status, leader, call, key, value, wellFormed, newId) =>
      if status != W.Draft then Failed(BadRequest)
      else if leader != actor.id then Failed(Forbidden)
      else if call != ProgramA then Failed(Conflict)
      else if !IsSupported(key) || value == Null || !wellFormed then Failed(BadRequest)
      else Done
    case Pin(actor, program, key, version) =>
      if !IsAdmin(actor.role) then Failed(Forbidden)
      else if program == ProgramA && key !in PROGRAM_A_SECTION_KEYS then Failed(BadRequest)
      else if key !in st.sections then Failed(NotFound)
      else if version.Some? && (st.sections[key].id, version.value) !in st.history then Failed(BadRequest)
      else Done
  }

  predicate IdTaken(sections: map<Key, Section>, id: string) {
    exists k | k in sections :: sections[k].id == id
  }

  /** The row an upsert writes, before the new version is made active. */
  function UpsertedRow(sections: map<Key, Section>, key: Key, value: Json, newId: string): Section {
    if key in sections then sections[key].(value := value, version := sections[key].version + 1)
    else Section(newId, value, 1, None)
  }

  /** What the unique constraints on section ids and on history rows leave of a checked step. */
  predicate Violates(st: Store, step: SectionStep) {
    step.Upsert? &&
    (|| (step.key !in st.sections && IdTaken(st.sections, step.newId))
     || var row := UpsertedRow(st.sections, step.key, step.value, step.newId);
        (row.id, row.version) in st.history)
  }

  function Respond(st: Store, step: SectionStep): Outcome {
    if Check(st, step).Failed? then Check(st, step)
    else if Violates(st, step) then Failed(ServerError)
    else Done
  }

  function NextStore(st: Store, step: SectionStep): Store {
    if Respond(st, step).Failed? then st
    else
      match step
      case Upsert(_, _, _, _, key, value, _, newId) =>
        var row := UpsertedRow(st.sections, key, value, newId);
        Store(st.sections[key := row.(active := Some(row.version))], st.history[(row.id, row.version) := value])
      case Pin(_, _, key, version) =>
        st.(sections := st.sections[key := st.sections[key].(active := version)])
  }

  class SectionTable {
    var sections: map<Key, Section>
    var history: map<(string, nat), Json>

    ghost function View(): Store
      reads this
    {
      Store(sections, history)
    }

    constructor ()
      ensures View() == EMPTY
    {
      sections, history := map[], map[];
    }

    method UpsertRow(key: Key, value: Json, newId: string) returns (row: Section)
      modifies this`sections
      ensures row == UpsertedRow(old(sections), key, value, newId)
      ensures sections == old(sections)[key := row]
    {
      if key in sections {
        row := sections[key].(value := value, version := sections[key].version + 1);
      } else {
        row := Section(newId, value, 1, None);
      }
      sections := sections[key := row];
    }

    method SetActive(key: Key, version: Option<nat>)
      requires key in sections
      modifies this`sections
      ensures sections == old(sections)[key := old(sections[key]).(active := version)]
    {
      sections := sections[key := sections[key].(active := version)];
    }

    method UpsertSection(actor: Actor, status: W.Status, leader: UserId, call: ProgramType,
                         key: Key, value: Json, wellFormed: bool, newId: string) returns (r: Outcome)
      modifies this
      ensures var step := Upsert(actor, status, leader, call, key, value, wellFormed, newId);
              View() == NextStore(old(View()), step) && r == Respond(old(View()), step)
    {
      if status != W.Draft { return Failed(BadRequest); }
      if leader != actor.id { return Failed(Forbidden); }
      if call != ProgramA { return Failed(Conflict); }
      if !IsSupported(key) || value == Null || !wellFormed { return Failed(BadRequest); }
      if key !in sections && IdTaken(sections, newId) { return Failed(ServerError); }
      var before := sections;
      var row := UpsertRow(key, value, newId);
      if (row.id, row.version) in history {
        sections := before; // the transaction rolls back
        return Failed(ServerError);
      }
      history := history[(row.id, row.version) := value];
      SetActive(key, Some(row.version));
      return Done;
    }

    method SetActiveVersion(admin: Actor, program: ProgramType, key: Key, version: Option<nat>) returns (r: Outcome)
      modifies this`sections
      ensures View() == NextStore(old(View()), Pin(admin, program, key, version))
      ensures r == Respond(old(View()), Pin(admin, program, key, version))
    {
      if !IsAdmin(admin.role) { return Failed(Forbidden); }
      if program == ProgramA && key !in PROGRAM_A_SECTION_KEYS { return Failed(BadRequest); }
      if key !in sections { return Failed(NotFound); }
      if version.Some? && (sections[key].id, version.value) !in history { return Failed(BadRequest); }
      SetActive(key, version);
      return Done;
    }
  }

  // ---------------------------------------------------------------- who may do what

  /** Every error and every acceptance, with the unique constraints last. */
  lemma SectionAnswers(st: Store, step: SectionStep)
    ensures var r := Respond(st, step);
            match step
            case Upsert(actor, status, leader, call, key, value, wellFormed, newId) =>
              var valid := value != Null && wellFormed
                           && key in {"profile", "idea_overview", "category_and_stack", "team_setup",
                                      "execution_plan", "business_case", "risks"};
              && (status != W.Draft ==> r == Failed(BadRequest))
              && (status == W.Draft && actor.id != leader ==> r == Failed(Forbidden))
              && (status == W.Draft && actor.id == leader && call == ProgramB ==> r == Failed(Conflict))
              && (status == W.Draft && actor.id == leader && call == ProgramA && !valid ==> r == Failed(BadRequest))
              && (status == W.Draft && actor.id == leader && call == ProgramA && valid ==>
                    r == if Violates(st, step) then Failed(ServerError) else Done)
            case Pin(actor, program, key, version) =>
              var right := actor.role in {Admin, SuperAdmin};
              var foreign := program == ProgramA
                             && key !in {"idea_overview", "category_and_stack", "team_setup",
                                         "execution_plan", "business_case", "risks"};
              && (!right ==> r == Failed(Forbidden))
              && (right && foreign ==> r == Failed(BadRequest))
              && (right && !foreign && key !in st.sections ==> r == Failed(NotFound))
              && (right && !foreign && key in st.sections ==>
                    r == if version.None? || (st.sections[key].id, version.value) in st.history then Done
                         else Failed(BadRequest))
  {}

  // ---------------------------------------------------------------- reading

  datatype SectionDto = SectionDto(id: string, key: Key, value: Json, version: nat, active: Option<nat>)

  /** mapSectionToDto: an absent history row and a null payload both fall back to the section's own value. */
  function MapSection(key: Key, row: Section, activeHistory: Option<Json>): Result<SectionDto> {
    if !IsSupported(key) then Err(BadRequest)
    else
      var value := if activeHistory.Some? && activeHistory.value != Null then activeHistory.value else row.value;
      Ok(SectionDto(row.id, key, value, row.version, row.active))
  }

  function FindHistory(history: map<(string, nat), Json>, id: string, version: nat): Option<Json> {
    if (id, version) in history then Some(history[(id, version)]) else None
  }

  /** toSectionDto, with its one-row lookup. */
  function ToSectionDto(history: map<(string, nat), Json>, key: Key, row: Section): Result<SectionDto> {
    MapSection(key, row, if row.active.None? then None else FindHistory(history, row.id, row.active.value))
  }

  /** An unsupported key fails; a pin is read from its history row, unless that is absent or null. */
  lemma ReadAnswers(history: map<(string, nat), Json>, key: Key, row: Section)
    ensures var dto := ToSectionDto(history, key, row);
            var pinned := row.active.Some? && (row.id, row.active.value) in history
                          && history[(row.id, row.active.value)] != Null;
            && (!(key in PROGRAM_A_SECTION_KEYS || key == "profile") ==> dto == Err(BadRequest))
            && (key in PROGRAM_A_SECTION_KEYS || key == "profile" ==>
                  dto == Ok(SectionDto(row.id, key, if pinned then history[(row.id, row.active.value)] else row.value,
                                       row.version, row.active)))
  {}

  // ---------------------------------------------------------------- the store is a ledger with a cursor

  /** All payloads saved under a key, oldest first, and the version that is pinned. */
  datatype Entry = Entry(payloads: seq<Json>, cursor: Option<nat>)

  type Ledger = map<Key, Entry>

  function NextLedger(l: Ledger, step: SectionStep): Ledger {
    match step
    case Upsert(actor, status, leader, call, key, value, wellFormed, _) =>
      if status != W.Draft || leader != actor.id || call != ProgramA then l
      else if !IsSupported(key) || value == Null || !wellFormed then l
      else
        var saved := if key in l then l[key].payloads else [];
        l[key := Entry(saved + [value], Some(|saved| + 1))]
    case Pin(actor, program, key, version) =>
      if !IsAdmin(actor.role) || (program == ProgramA && key !in PROGRAM_A_SECTION_KEYS) || key !in l then l
      else if version.Some? && !(1 <= version.value <= |l[key].payloads|) then l
      else l[key := l[key].(cursor := version)]
  }

  function RunStore(st: Store, steps: seq<SectionStep>): Store
    decreases |steps|
  {
    if steps == [] then st else RunStore(NextStore(st, steps[0]), steps[1..])
  }

  function RunLedger(l: Ledger, steps: seq<SectionStep>): Ledger
    decreases |steps|
  {
    if steps == [] then l else RunLedger(NextLedger(l, steps[0]), steps[1..])
  }

  /** Generated ids are new: no upsert that creates a row proposes an id in use. */
  predicate FreshIds(st: Store, steps: seq<SectionStep>)
    decreases |steps|
  {
    steps == [] ||
    ((steps[0].Upsert? && steps[0].key !in st.sections ==> !IdTaken(st.sections, steps[0].newId))
     && FreshIds(NextStore(st, steps[0]), steps[1..]))
  }

  ghost predicate RowAgrees(row: Section, history: map<(string, nat), Json>, e: Entry) {
    && row.version == |e.payloads| >= 1
    && row.value == e.payloads[|e.payloads| - 1]
    && row.active == e.cursor
    && (e.cursor.Some? ==> 1 <= e.cursor.value <= |e.payloads|)
    && (forall v: nat :: (row.id, v) in history <==> 1 <= v <= |e.payloads|)
    && (forall v: nat | 1 <= v <= |e.payloads| :: history[(row.id, v)] == e.payloads[v - 1])
    && (forall k | 0 <= k < |e.payloads| :: e.payloads[k] != Null)
  }

  ghost predicate IdsAreUnique(st: Store) {
    && (forall a, b | a in st.sections && b in st.sections && st.sections[a].id == st.sections[b].id :: a == b)
    && (forall h | h in st.history :: IdTaken(st.sections, h.0))
  }

  ghost predicate Agrees(st: Store, l: Ledger) {
    && st.sections.Keys == l.Keys
    && (forall k | k in l :: IsSupported(k) && RowAgrees(st.sections[k], st.history, l[k]))
    && IdsAreUnique(st)
  }

  lemma SavedRowAgrees(row: Section, history: map<(string, nat), Json>, e: Entry, value: Json)
    requires RowAgrees(row, history, e) && value != Null
    ensures var v := row.version + 1;
            RowAgrees(row.(value := value, version := v, active := Some(v)), history[(row.id, v) := value],
                      Entry(e.payloads + [value], Some(v)))
  {}

  lemma OtherRowAgrees(row: Section, history: map<(string, nat), Json>, e: Entry, id: string, version: nat, value: Json)
    requires RowAgrees(row, history, e) && row.id != id
    ensures RowAgrees(row, history[(id, version) := value], e)
  {}

  lemma UpsertKeepsIds(st: Store, step: SectionStep)
    requires IdsAreUnique(st) && step.Upsert? && Respond(st, step) == Done
    ensures IdsAreUnique(NextStore(st, step))
  {
    var st' := NextStore(st, step);
    var row := UpsertedRow(st.sections, step.key, step.value, step.newId);
    assert st'.sections[step.key].id == row.id;
    forall h | h in st'.history ensures IdTaken(st'.sections, h.0) {
      if h in st.history {
        var k :| k in st.sections && st.sections[k].id == h.0;
        assert st'.sections[k].id == h.0;
      }
    }
  }

  lemma FreshIdHasNoHistory(st: Store, id: string)
    requires IdsAreUnique(st) && !IdTaken(st.sections, id)
    ensures forall v: nat :: (id, v) !in st.history
  {
    forall v: nat ensures (id, v) !in st.history {
      var h := (id, v);
      assert h in st.history ==> IdTaken(st.sections, h.0);
    }
  }

  lemma UpsertIsAccepted(st: Store, l: Ledger, step: SectionStep)
    requires Agrees(st, l) && step.Upsert? && Check(st, step) == Done
    requires step.key !in st.sections ==> !IdTaken(st.sections, step.newId)
    ensures !Violates(st, step)
  {
    if step.key in l {
      assert RowAgrees(st.sections[step.key], st.history, l[step.key]);
    } else {
      FreshIdHasNoHistory(st, step.newId);
    }
  }

  lemma ReplacedRowAgrees(st: Store, l: Ledger, key: Key, st': Store, e: Entry)
    requires Agrees(st, l) && IsSupported(key)
    requires key in st'.sections && st'.sections == st.sections[key := st'.sections[key]]
    requires RowAgrees(st'.sections[key], st'.history, e)
    requires forall k | k in l && k != key :: RowAgrees(st.sections[k], st'.history, l[k])
    requires IdsAreUnique(st')
    ensures Agrees(st', l[key := e])
  {}

  lemma UpsertedRowAgrees(st: Store, l: Ledger, step: SectionStep)
    requires Agrees(st, l) && step.Upsert? && Check(st, step) == Done
    requires step.key !in st.sections ==> !IdTaken(st.sections, step.newId)
    ensures var row := UpsertedRow(st.sections, step.key, step.value, step.newId);
            RowAgrees(row.(active := Some(row.version)), st.history[(row.id, row.version) := step.value],
                      NextLedger(l, step)[step.key])
  {
    if step.key in l {
      SavedRowAgrees(st.sections[step.key], st.history, l[step.key], step.value);
    } else {
      FreshIdHasNoHistory(st, step.newId);
      assert NextLedger(l, step)[step.key] == Entry([step.value], Some(1));
    }
  }

  lemma OtherRowsAgree(st: Store, l: Ledger, key: Key, id: string, version: nat, value: Json)
    requires Agrees(st, l) && if key in l then st.sections[key].id == id else !IdTaken(st.sections, id)
    ensures forall k | k in l && k != key :: RowAgrees(st.sections[k], st.history[(id, version) := value], l[k])
  {
    forall k | k in l && k != key ensures RowAgrees(st.sections[k], st.history[(id, version) := value], l[k]) {
      OtherRowAgrees(st.sections[k], st.history, l[k], id, version, value);
    }
  }

  lemma UpsertAgrees(st: Store, l: Ledger, step: SectionStep)
    requires Agrees(st, l) && step.Upsert? && Check(st, step) == Done
    requires step.key !in st.sections ==> !IdTaken(st.sections, step.newId)
    ensures Agrees(NextStore(st, step), NextLedger(l, step))
  {
    UpsertIsAccepted(st, l, step);
    UpsertKeepsIds(st, step);
    UpsertedRowAgrees(st, l, step);
    var row := UpsertedRow(st.sections, step.key, step.value, step.newId);
    OtherRowsAgree(st, l, step.key, row.id, row.version, step.value);
    ReplacedRowAgrees(st, l, step.key, NextStore(st, step), NextLedger(l, step)[step.key]);
  }

  lemma PinKeepsIds(st: Store, step: SectionStep)
    requires IdsAreUnique(st) && step.Pin?
    ensures IdsAreUnique(NextStore(st, step))
  {
    var st' := NextStore(st, step);
    forall h | h in st'.history ensures IdTaken(st'.sections, h.0) {
      var k :| k in st.sections && st.sections[k].id == h.0;
      assert st'.sections[k].id == h.0;
    }
  }

  lemma PinAgrees(st: Store, l: Ledger, step: SectionStep)
    requires Agrees(st, l) && step.Pin?
    ensures Agrees(NextStore(st, step), NextLedger(l, step))
  {
    var key, st' := step.section, NextStore(st, step);
    if key in l {
      assert RowAgrees(st.sections[key], st.history, l[key]);
      PinnedRowAgrees(st.sections[key], st.history, l[key], step.version);
      if Respond(st, step) == Done {
        PinKeepsIds(st, step);
        ReplacedRowAgrees(st, l, key, st', l[key].(cursor := step.version));
      }
    }
  }

  /** The history lookup of setActiveVersion accepts exactly the versions that were saved. */
  lemma PinnedRowAgrees(row: Section, history: map<(string, nat), Json>, e: Entry, version: Option<nat>)
    requires RowAgrees(row, history, e)
    ensures version.Some? ==> ((row.id, version.value) in history <==> 1 <= version.value <= |e.payloads|)
    ensures version.None? || 1 <= version.value <= |e.payloads|
        ==> RowAgrees(row.(active := version), history, e.(cursor := version))
  {}

  lemma {:induction false} RunsAgree(st: Store, l: Ledger, steps: seq<SectionStep>)
    requires Agrees(st, l) && FreshIds(st, steps)
    ensures Agrees(RunStore(st, steps), RunLedger(l, steps))
    decreases |steps|
  {
    if steps != [] {
      var step := steps[0];
      if step.Pin? {
        PinAgrees(st, l, step);
      } else if Check(st, step) == Done {
        UpsertAgrees(st, l, step);
      }
      RunsAgree(NextStore(st, step), NextLedger(l, step), steps[1..]);
    }
  }

  /** After any run: history versions are exactly 1..version, each holds what was saved then, pins are in range. */
  lemma StoreIsLedger(steps: seq<SectionStep>)
    requires FreshIds(EMPTY, steps)
    ensures Agrees(RunStore(EMPTY, steps), RunLedger(map[], steps))
  {
    RunsAgree(EMPTY, map[], steps);
  }

  /** So a read returns the payload saved at the pinned version, or the latest one when none is pinned. */
  lemma ReadReturnsPinnedPayload(steps: seq<SectionStep>, key: Key)
    requires FreshIds(EMPTY, steps) && key in RunStore(EMPTY, steps).sections
    ensures key in RunLedger(map[], steps)
    ensures var st, e := RunStore(EMPTY, steps), RunLedger(map[], steps)[key];
            && e.payloads != [] && (e.cursor.Some? ==> 1 <= e.cursor.value <= |e.payloads|)
            && var dto := ToSectionDto(st.history, key, st.sections[key]);
            && dto.Ok?
            && dto.value.value == e.payloads[if e.cursor.Some? then e.cursor.value - 1 else |e.payloads| - 1]
            && dto.value.version == |e.payloads| && dto.value.active == e.cursor
            && dto.value.key == key && dto.value.id == st.sections[key].id
  {
    StoreIsLedger(steps);
    var st, l := RunStore(EMPTY, steps), RunLedger(map[], steps);
    assert key in l && IsSupported(key) && RowAgrees(st.sections[key], st.history, l[key]);
    RowReads(key, st.sections[key], st.history, l[key]);
  }

  lemma RowReads(key: Key, row: Section, history: map<(string, nat), Json>, e: Entry)
    requires IsSupported(key) && RowAgrees(row, history, e)
    ensures ToSectionDto(history, key, row)
         == Ok(SectionDto(row.id, key, e.payloads[if e.cursor.Some? then e.cursor.value - 1 else |e.payloads| - 1],
                          |e.payloads|, e.cursor))
  {
    if e.cursor.Some? {
      var v := e.cursor.value;
      assert e.payloads[v - 1] != Null && history[(row.id, v)] == e.payloads[v - 1];
    }
  }

  /** History rows are never changed or removed, from any store on. */
  lemma {:induction false} HistoryIsAppendOnly(st: Store, steps: seq<SectionStep>)
    ensures forall h | h in st.history ::
              h in RunStore(st, steps).history && RunStore(st, steps).history[h] == st.history[h]
    decreases |steps|
  {
    if steps != [] { HistoryIsAppendOnly(NextStore(st, steps[0]), steps[1..]); }
  }

  // ---------------------------------------------------------------- what submit asks of the sections

  function CompletedKeys(st: Store): set<Key> {
    set k | k in st.sections && st.sections[k].active.Some?
  }

  function MissingFrom(keys: seq<Key>, completed: set<Key>): seq<Key> {
    if keys == [] then []
    else (if keys[0] in completed then [] else [keys[0]]) + MissingFrom(keys[1..], completed)
  }

  /** ensureRequiredProgramASectionsComplete. */
  function CheckSections(st: Store): Outcome {
    if |MissingFrom(PROGRAM_A_SECTION_KEYS, CompletedKeys(st))| > 0 then Failed(Conflict) else Done
  }

  lemma {:induction false} MissingFromExact(keys: seq<Key>, completed: set<Key>)
    ensures forall k :: k in MissingFrom(keys, completed) <==> k in keys && k !in completed
  {
    if keys != [] {
      MissingFromExact(keys[1..], completed);
      assert keys == [keys[0]] + keys[1..];
    }
  }

  lemma CheckSectionsExact(st: Store)
    ensures CheckSections(st) == Done
       <==> forall k | k in PROGRAM_A_SECTION_KEYS :: k in st.sections && st.sections[k].active.Some?
  {
    var missing := MissingFrom(PROGRAM_A_SECTION_KEYS, CompletedKeys(st));
    MissingFromExact(PROGRAM_A_SECTION_KEYS, CompletedKeys(st));
    if missing != [] { assert missing[0] in missing; }
  }

  /** The one kind of step that can leave a required key without an active version. */
  predicate Unpins(st: Store, step: SectionStep) {
    step.Pin? && Respond(st, step) == Done && step.version == None && step.section in PROGRAM_A_SECTION_KEYS
  }

  /** Sections once complete become incomplete in one way only: an administrator unpins a required one. */
  lemma CompletenessIsLostExactly(st: Store, step: SectionStep)
    requires CheckSections(st) == Done
    ensures CheckSections(NextStore(st, step)) != Done
       <==> Unpins(st, step)
  {
    CheckSectionsExact(st);
    CheckSectionsExact(NextStore(st, step));
    if step.Pin? && Respond(st, step) == Done && step.section in PROGRAM_A_SECTION_KEYS {
      assert NextStore(st, step).sections[step.section].active == step.version;
    }
  }

  /** If sections that were complete are not so later, a required one was unpinned in between. */
  lemma {:induction false} LostMeansUnpinned(st: Store, steps: seq<SectionStep>)
    requires CheckSections(st) == Done && CheckSections(RunStore(st, steps)) != Done
    ensures exists k :: 0 <= k < |steps| && Unpins(RunStore(st, steps[..k]), steps[k])
    decreases |steps|
  {
    CompletenessIsLostExactly(st, steps[0]);
    if Unpins(st, steps[0]) {
      assert RunStore(st, steps[..0]) == st;
    } else {
      LostMeansUnpinned(NextStore(st, steps[0]), steps[1..]);
      var k :| 0 <= k < |steps| - 1 && Unpins(RunStore(NextStore(st, steps[0]), steps[1..][..k]), steps[1..][k]);
      assert steps[..k + 1][1..] == steps[1..][..k];
      assert RunStore(st, steps[..k + 1]) == RunStore(NextStore(st, steps[0]), steps[1..][..k]);
    }
  }
}
