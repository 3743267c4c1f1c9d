/**
 What the requests around a submission check and do, said from what is stored. Then, over whole runs,
 that every application that was submitted had been found complete by the request that did it.
 */
module SubmissionOperations {
  import opened Common
  import opened Workflow
  import opened WorkflowRuns
  import opened Documents
  import opened Completeness
  import opened Teams
  import opened Submission
  import Sections
  import SubmittedSections

  // ---------------------------------------------------------------- requests

  /** What submit reports, in its order: the call and the team, the sections, then the documents. */
  lemma SubmitReports(c: Case, f: SubmittedSections.File, other: Option<Error>)
    requires AllProducible(c.rows)
    ensures var missing := c.sys.call == ProgramA && !PackComplete(c.rows, c.required, c.team.members);
            PackObstacle(c, other)
            == match other case Some(e) => Some(e) case None => if missing then Some(Conflict) else None
    ensures var missing := f.sys.call == ProgramA && exists k | k in Sections.PROGRAM_A_SECTION_KEYS ::
                             k !in f.store.sections || f.store.sections[k].active.None?;
            SubmittedSections.SectionObstacle(f, other)
            == match other case Some(e) => Some(e) case None => if missing then Some(Conflict) else None
  {
    if c.sys.call == ProgramA { ReportIsCompleteExactly(c.rows, c.required, c.team.members); }
    Sections.CheckSectionsExact(f.store);
  }

  /** Admitted for the leader on a draft with a complete pack, and nothing but the request then changes. */
  lemma SubmitRequestDoes(c: Case, id: TxnId, actor: Actor, obstacle: Option<Error>)
    requires CaseInv(c) && id !in c.sys.inflight
    ensures var fits := actor.id == c.team.leader && c.sys.app.status == Draft && obstacle.None?
                        && (c.sys.call == ProgramA ==> PackComplete(c.rows, c.required, c.team.members));
            NextCase(c, RequestSubmit(id, actor, obstacle))
            == if fits then c.(sys := c.sys.(inflight := c.sys.inflight[id := SubmitWrite])) else c
  {
    if c.sys.call == ProgramA { ReportIsCompleteExactly(c.rows, c.required, c.team.members); }
  }

  /** Submit asks the sections of a Program A application only: each required one needs an active version. */
  lemma SectionRequestDoes(f: SubmittedSections.File, id: TxnId, actor: Actor, obstacle: Option<Error>)
    requires id !in f.sys.inflight
    ensures var complete := forall k | k in Sections.PROGRAM_A_SECTION_KEYS ::
                              k in f.store.sections && f.store.sections[k].active.Some?;
            var fits := actor.id == f.sys.leader && f.sys.app.status == Draft && obstacle.None?
                        && (f.sys.call == ProgramA ==> complete);
            SubmittedSections.NextFile(f, SubmittedSections.RequestSubmit(id, actor, obstacle))
            == if fits then f.(sys := f.sys.(inflight := f.sys.inflight[id := SubmitWrite])) else f
  {
    Sections.CheckSectionsExact(f.store);
  }

  /** An attachment is admitted for the leader, on a draft, into a slot and with a file that fit. */
  lemma AttachRequestDoes(c: Case, tid: TxnId, user: UserId, dto: Attachment, files: map<string, UploadedFile>)
    requires tid !in c.pending
    ensures var ctx := Context(c.sys.call, c.sys.app.status, c.team.leader, c.team.members, files);
            var slot := if dto.docType == CV then Slot(CV, TeamMemberScope, dto.member)
                        else Slot(dto.docType, ApplicationScope, None);
            var fits := c.sys.call == ProgramA && user == c.team.leader && c.sys.app.status == Draft
                        && SlotFits(ctx, dto) && FileFits(ctx, dto);
            NextCase(c, BeginAttach(tid, user, dto, files))
            == if fits then c.(pending := c.pending[tid := Upload(slot, dto.file)]) else c
  {
    AttachAnswers(AttachContext(c, files), user, dto);
  }

  lemma ChangeRequestDoes(c: Case, tid: TxnId, change: TeamStep)
    requires tid !in c.pending
    ensures NextCase(c, BeginChange(tid, change))
         == if !change.Lock? && TeamCheck(c.team, change) == Done then c.(pending := c.pending[tid := Change(change)])
            else c
  {}

  /** An attachment that lands touches its slot alone, a change the team alone, and the leader follows the team. */
  lemma LandDoes(c: Case, tid: TxnId)
    requires tid in c.pending
    ensures var c' := NextCase(c, Land(tid));
            && c'.pending == c.pending - {tid} && c'.required == c.required && c'.sys.app == c.sys.app
            && c'.sys.call == c.sys.call && c'.sys.inflight == c.sys.inflight
            && match c.pending[tid]
               case Upload(slot, file) =>
                 && c'.team == c.team && c'.sys.leader == c.sys.leader
                 && |c'.rows| == |c.rows| + 1 && c'.rows[|c.rows|].slot == slot && c'.rows[|c.rows|].file == file
                 && c'.rows[|c.rows|].isActive
                 && (forall k | 0 <= k < |c.rows| && c.rows[k].slot != slot :: c'.rows[k] == c.rows[k])
                 && (forall k | 0 <= k < |c.rows| && c.rows[k].slot == slot ::
                       c'.rows[k] == c.rows[k].(isActive := false))
               case Change(change) =>
                 c'.rows == c.rows && c'.team == LandedTeam(c.team, change) && c'.sys.leader == c'.team.leader
  {}

  // ---------------------------------------------------------------- every submission was found complete

  /** Step i requests this submit: the leader does, on a draft, and its pack is complete. */
  ghost predicate FoundComplete(c0: Case, steps: seq<CaseStep>, i: nat, id: TxnId) {
    && i < |steps| && steps[i].RequestSubmit? && steps[i].id == id
    && var c := RunCase(c0, steps[..i]);
       && steps[i].actor.id == c.team.leader && c.sys.app.status == Draft
       && (c.sys.call == ProgramA ==> PackComplete(c.rows, c.required, c.team.members))
  }

  /** Step j writes the submit that step i requests. */
  ghost predicate WrittenAfterCheck(c0: Case, steps: seq<CaseStep>, i: nat, j: nat) {
    && i < j < |steps| && steps[j].Process? && CommitsSubmit(RunCase(c0, steps[..j]).sys, steps[j].step)
    && FoundComplete(c0, steps, i, steps[j].step.tid)
  }

  ghost predicate SubmitsAreChecked(c0: Case, steps: seq<CaseStep>) {
    var c := RunCase(c0, steps);
    && (forall id | id in c.sys.inflight && c.sys.inflight[id] == SubmitWrite ::
          exists i: nat :: FoundComplete(c0, steps, i, id))
    && (c.sys.app.status != Draft ==> exists i: nat, j: nat :: WrittenAfterCheck(c0, steps, i, j))
  }

  lemma FoundBefore(c0: Case, steps: seq<CaseStep>, more: CaseStep, i: nat, id: TxnId)
    requires FoundComplete(c0, steps, i, id)
    ensures FoundComplete(c0, steps + [more], i, id)
  {
    assert (steps + [more])[..i] == steps[..i];
  }

  lemma InFlightIsChecked(c0: Case, steps: seq<CaseStep>, step: CaseStep, id: TxnId)
    requires SubmitsAreChecked(c0, steps) && CaseInv(RunCase(c0, steps))
    requires var sys := NextCase(RunCase(c0, steps), step).sys; id in sys.inflight && sys.inflight[id] == SubmitWrite
    ensures exists i: nat :: FoundComplete(c0, steps + [step], i, id)
  {
    var c := RunCase(c0, steps);
    if id in c.sys.inflight && c.sys.inflight[id] == SubmitWrite {
      var i: nat :| FoundComplete(c0, steps, i, id);
      FoundBefore(c0, steps, step, i, id);
    } else {
      SubmitRequestDoes(c, id, step.actor, step.obstacle);
      assert (steps + [step])[..|steps|] == steps;
      assert FoundComplete(c0, steps + [step], |steps|, id);
    }
  }

  lemma LeavingDraftIsChecked(c0: Case, steps: seq<CaseStep>, step: CaseStep)
    requires SubmitsAreChecked(c0, steps) && CaseInv(RunCase(c0, steps))
    requires NextCase(RunCase(c0, steps), step).sys.app.status != Draft
    ensures exists i: nat, j: nat :: WrittenAfterCheck(c0, steps + [step], i, j)
  {
    var c := RunCase(c0, steps);
    if c.sys.app.status != Draft {
      var i: nat, j: nat :| WrittenAfterCheck(c0, steps, i, j);
      assert (steps + [step])[..j] == steps[..j];
      FoundBefore(c0, steps, step, i, steps[j].step.tid);
      assert WrittenAfterCheck(c0, steps + [step], i, j);
    } else {
      assert step.Process?;
      DraftIsLeftBySubmit(c.sys, step.step);
      var i: nat :| FoundComplete(c0, steps, i, step.step.tid);
      FoundBefore(c0, steps, step, i, step.step.tid);
      assert (steps + [step])[..|steps|] == steps;
      assert WrittenAfterCheck(c0, steps + [step], i, |steps|);
    }
  }

  lemma {:induction false} SubmitsAreCheckedIn(c0: Case, steps: seq<CaseStep>)
    requires CaseInv(c0) && c0.sys.inflight == map[] && c0.sys.app.status == Draft
    ensures SubmitsAreChecked(c0, steps)
  {
    if steps != [] {
      var n := |steps| - 1;
      var before, last := steps[..n], steps[n];
      var c := RunCase(c0, before);
      SubmitsAreCheckedIn(c0, before);
      CaseRunKeeps(c0, before);
      Then(c0, before, c, last);
      assert steps == before + [last];
      forall id | id in RunCase(c0, steps).sys.inflight && RunCase(c0, steps).sys.inflight[id] == SubmitWrite
        ensures exists i: nat :: FoundComplete(c0, steps, i, id)
      {
        InFlightIsChecked(c0, before, last, id);
      }
      if RunCase(c0, steps).sys.app.status != Draft { LeavingDraftIsChecked(c0, before, last); }
    }
  }

  /** In every run, an application that is no draft was written by a submit whose request found the pack complete. */
  lemma SubmittedWasFoundComplete(call: ProgramType, team: Team, required: seq<DocumentType>, steps: seq<CaseStep>)
    requires team.leader in team.members
    requires RunCase(NewCase(call, team, required), steps).sys.app.status != Draft
    ensures exists i: nat, j: nat :: WrittenAfterCheck(NewCase(call, team, required), steps, i, j)
  {
    SubmitsAreCheckedIn(NewCase(call, team, required), steps);
  }
}
