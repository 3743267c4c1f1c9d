/**
 The sections of an application beside its workflow. Submit reads the sections and writes later; an
 upsert carries the status it had read, so it may land after the submission; an administrator may move
 or clear the active version at any time. The call does not change during the run.
 */
module SubmittedSections {
  import opened Common
  import opened Workflow
  import opened WorkflowRuns
  import opened Sections
  import S = Submission

  datatype File = File(sys: System, store: Store)

  datatype FileStep =
    | RequestSubmit(id: TxnId, actor: Actor, obstacle: Option<Error>) // what the other checks report
    | Edit(edit: SectionStep)
    | Process(step: Step) // every other workflow step, the write of a submit included

  function SectionObstacle(f: File, other: Option<Error>): Option<Error> {
    if other.Some? then other
    else if f.sys.call == ProgramA && CheckSections(f.store).Failed? then Some(CheckSections(f.store).error)
    else None
  }

  function NextFile(f: File, step: FileStep): File {
    match step
    case RequestSubmit(id, actor, obstacle) =>
      f.(sys := Next(f.sys, Begin(id, actor, Submit(SectionObstacle(f, obstacle)))))
    case Edit(edit) => f.(store := NextStore(f.store, edit))
    case Process(s) => if S.Allowed(s) then f.(sys := Next(f.sys, s)) else f
  }

  function RunFile(f: File, steps: seq<FileStep>): File
    decreases |steps|
  {
    if steps == [] then f else RunFile(NextFile(f, steps[0]), steps[1..])
  }

  ghost predicate CompleteIfSubmitted(f: File) {
    f.sys.app.status != Draft && f.sys.call == ProgramA ==> CheckSections(f.store) == Done
  }

  predicate LacksSection(st: Store) {
    exists k | k in PROGRAM_A_SECTION_KEYS :: k !in st.sections || st.sections[k].active.None?
  }

  /** A draft is written as submitted although a required section has no active version. */
  predicate SubmitsIncomplete(f: File, step: FileStep) {
    step.Process? && CommitsSubmit(f.sys, step.step)
    && f.sys.app.status == Draft && f.sys.call == ProgramA && LacksSection(f.store)
  }

  /** A required section of a submitted application is unpinned. */
  predicate UnpinsSubmitted(f: File, step: FileStep) {
    step.Edit? && f.sys.app.status != Draft && f.sys.call == ProgramA && Unpins(f.store, step.edit)
  }

  predicate NoneUncovers(f: File, steps: seq<FileStep>)
    decreases |steps|
  {
    steps == [] ||
    (!SubmitsIncomplete(f, steps[0]) && !UnpinsSubmitted(f, steps[0])
     && NoneUncovers(NextFile(f, steps[0]), steps[1..]))
  }

  ghost predicate AlwaysComplete(f: File, steps: seq<FileStep>)
    decreases |steps|
  {
    CompleteIfSubmitted(f) && (steps == [] || AlwaysComplete(NextFile(f, steps[0]), steps[1..]))
  }

  lemma FileStepKeepsShape(f: File, step: FileStep)
    requires Shaped(f.sys)
    ensures Shaped(NextFile(f, step).sys)
  {
    match step
    case RequestSubmit(id, actor, obstacle) =>
      StepKeepsShape(f.sys, Begin(id, actor, Submit(SectionObstacle(f, obstacle))));
    case Edit(_) =>
    case Process(s) => StepKeepsShape(f.sys, s);
  }

  lemma ProcessCompletesExactly(f: File, step: Step)
    requires Shaped(f.sys) && CompleteIfSubmitted(f) && S.Allowed(step)
    ensures CompleteIfSubmitted(NextFile(f, Process(step))) <==> !SubmitsIncomplete(f, Process(step))
  {
    S.DraftIsLeftBySubmit(f.sys, step);
    CheckSectionsExact(f.store);
    assert Next(f.sys, step).call == f.sys.call;
  }

  lemma FileStepCompletesExactly(f: File, step: FileStep)
    requires Shaped(f.sys) && CompleteIfSubmitted(f)
    ensures CompleteIfSubmitted(NextFile(f, step)) <==> !SubmitsIncomplete(f, step) && !UnpinsSubmitted(f, step)
  {
    match step
    case RequestSubmit(_, _, _) =>
    case Edit(edit) => if CheckSections(f.store) == Done { CompletenessIsLostExactly(f.store, edit); }
    case Process(s) => if S.Allowed(s) { ProcessCompletesExactly(f, s); }
  }

  lemma {:induction false} CompleteExactlyFrom(f: File, steps: seq<FileStep>)
    requires Shaped(f.sys) && CompleteIfSubmitted(f)
    ensures AlwaysComplete(f, steps) <==> NoneUncovers(f, steps)
    decreases |steps|
  {
    if steps != [] {
      FileStepCompletesExactly(f, steps[0]);
      FileStepKeepsShape(f, steps[0]);
      if CompleteIfSubmitted(NextFile(f, steps[0])) { CompleteExactlyFrom(NextFile(f, steps[0]), steps[1..]); }
    }
  }

  function NewFile(call: ProgramType, leader: UserId): File {
    File(Initial(call, leader), EMPTY)
  }

  /**
   In any run, submitted Program A applications have all required sections at every point exactly when
   no submit is written over a missing one and none is unpinned afterwards. Late upserts do no harm.
   */
  lemma SubmittedSectionsExactly(call: ProgramType, leader: UserId, steps: seq<FileStep>)
    ensures AlwaysComplete(NewFile(call, leader), steps) <==> NoneUncovers(NewFile(call, leader), steps)
  {
    CompleteExactlyFrom(NewFile(call, leader), steps);
  }

  // ---------------------------------------------------------------- it does happen

  lemma {:induction false} FileInTwoParts(f: File, a: seq<FileStep>, b: seq<FileStep>)
    ensures RunFile(f, a + b) == RunFile(RunFile(f, a), b)
    decreases |a|
  {
    if a == [] {
      assert a + b == b;
    } else {
      assert (a + b)[1..] == a[1..] + b;
      FileInTwoParts(NextFile(f, a[0]), a[1..], b);
    }
  }

  lemma Then(f0: File, steps: seq<FileStep>, f: File, step: FileStep)
    requires RunFile(f0, steps) == f
    ensures RunFile(f0, steps + [step]) == NextFile(f, step)
  {
    FileInTwoParts(f0, steps, [step]);
    assert [step][1..] == [];
    assert RunFile(f, [step]) == RunFile(NextFile(f, step), []);
  }

  const LEAD := Actor("l", Student)
  const ADMIN := Actor("admin", Admin)

  function Save(key: Key): SectionStep {
    Upsert(LEAD, Draft, LEAD.id, ProgramA, key, Object("text"), true, key)
  }

  /** Rows carry their key as id, each with an active version. */
  ghost predicate Plain(st: Store) {
    && (forall k | k in st.sections :: st.sections[k].id == k && st.sections[k].active.Some?)
    && (forall h | h in st.history :: h.0 in st.sections)
  }

  lemma SaveNew(st: Store, key: Key)
    requires Plain(st) && key !in st.sections && IsSupported(key)
    ensures Plain(NextStore(st, Save(key))) && NextStore(st, Save(key)).sections.Keys == st.sections.Keys + {key}
  {
    assert !Violates(st, Save(key)) by { assert (key, 1) in st.history ==> (key, 1).0 in st.sections; }
  }

  ghost predicate Distinct(keys: seq<Key>) {
    forall i, j | 0 <= i < j < |keys| :: keys[i] != keys[j]
  }

  lemma {:induction false} SaveAll(f: File, keys: seq<Key>) returns (steps: seq<FileStep>)
    requires Plain(f.store) && Distinct(keys)
    requires forall k | k in keys :: IsSupported(k) && k !in f.store.sections
    ensures RunFile(f, steps).sys == f.sys
    ensures forall k | k in keys || k in f.store.sections ::
              k in RunFile(f, steps).store.sections && RunFile(f, steps).store.sections[k].active.Some?
    decreases |keys|
  {
    steps := [];
    if keys != [] {
      SaveNew(f.store, keys[0]);
      var f1 := NextFile(f, Edit(Save(keys[0])));
      assert forall k | k in keys[1..] :: k in keys && k != keys[0];
      var rest := SaveAll(f1, keys[1..]);
      steps := [Edit(Save(keys[0]))] + rest;
      assert steps[1..] == rest && keys == [keys[0]] + keys[1..];
    }
  }

  lemma KeysAreDistinct()
    ensures Distinct(PROGRAM_A_SECTION_KEYS)
  {
    var initials := ['i', 'c', 't', 'e', 'b', 'r'];
    assert forall i | 0 <= i < 6 :: PROGRAM_A_SECTION_KEYS[i][0] == initials[i];
  }

  lemma AllSaved() returns (steps: seq<FileStep>)
    ensures var f := RunFile(NewFile(ProgramA, LEAD.id), steps);
            f.sys == Initial(ProgramA, LEAD.id) && CheckSections(f.store) == Done
  {
    KeysAreDistinct();
    steps := SaveAll(NewFile(ProgramA, LEAD.id), PROGRAM_A_SECTION_KEYS);
    CheckSectionsExact(RunFile(NewFile(ProgramA, LEAD.id), steps).store);
  }

  lemma RisksUnpinned(st: Store)
    requires CheckSections(st) == Done
    ensures CheckSections(NextStore(st, Pin(ADMIN, ProgramA, "risks", None))) != Done
  {
    CheckSectionsExact(st);
    assert PROGRAM_A_SECTION_KEYS[5] == "risks";
    CompletenessIsLostExactly(st, Pin(ADMIN, ProgramA, "risks", None));
  }

  lemma WrittenIncomplete(f: File)
    requires f.sys == Initial(ProgramA, LEAD.id).(inflight := map[0 := SubmitWrite]) && CheckSections(f.store) != Done
    ensures !CompleteIfSubmitted(NextFile(f, Process(Commit(0, 1))))
  {
    assert NextFile(f, Process(Commit(0, 1))).sys.app.status == Submitted;
  }

  lemma UnpinnedInBetween() returns (steps: seq<FileStep>)
    ensures var f := RunFile(NewFile(ProgramA, LEAD.id), steps);
            f.sys == Initial(ProgramA, LEAD.id).(inflight := map[0 := SubmitWrite]) && CheckSections(f.store) != Done
  {
    var f0 := NewFile(ProgramA, LEAD.id);
    steps := AllSaved();
    var f1 := RunFile(f0, steps);
    var request, unpin := RequestSubmit(0, LEAD, None), Edit(Pin(ADMIN, ProgramA, "risks", None));
    Then(f0, steps, f1, request);
    var f2 := f1.(sys := f1.sys.(inflight := map[0 := SubmitWrite]));
    assert NextFile(f1, request) == f2;
    Then(f0, steps + [request], f2, unpin);
    RisksUnpinned(f2.store);
    steps := steps + [request] + [unpin];
  }

  /** A section unpinned between the read and the write of a submit is missing afterwards. */
  lemma UnpinDuringSubmit()
    ensures exists steps :: !CompleteIfSubmitted(RunFile(NewFile(ProgramA, LEAD.id), steps))
  {
    var f0 := NewFile(ProgramA, LEAD.id);
    var steps := UnpinnedInBetween();
    var write := Process(Commit(0, 1));
    var f := RunFile(f0, steps);
    Then(f0, steps, f, write);
    WrittenIncomplete(f);
    assert !CompleteIfSubmitted(RunFile(f0, steps + [write]));
  }
}
