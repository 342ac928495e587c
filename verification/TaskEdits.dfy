/**
 What an edit relies on. The version number it was given identifies the draft exactly as long
 as the record keeps its owner; a regenerated draft starts counting again. And what the
 drafting workflow itself guarantees about the way its runs end.
 */
module TaskEdits {
  import opened Wrappers
  import opened TaskRecords
  import opened RecordLaws
  import opened TaskMachine
  import opened TaskInvariants
  import opened TaskTheorems
  import opened TaskEffects
  import opened TaskSupervision
  import opened TaskSightings
  import L = UsageLedger
  import Text

  // ----- A draft since it was opened -------------------------------------------

  predicate Unattended(s: TaskState, id: ExecutionId) {
    id in s.executions ==> !s.executions[id].InCharge()
  }

  /** The draft is the one that was opened, or a later edit of it, or there is none to edit. */
  predicate DraftFollows(r: Record, basis: Record)
    requires basis.draft.Some?
  {
    r.status.HasMaterial() ==>
      && r.draft.Some?
      && (r.draft == basis.draft || r.draft.value.CurrentVersion() > basis.draft.value.CurrentVersion())
  }

  /** Either the record has moved past what was opened, or its draft follows from that one. */
  ghost predicate BasisHolds(s: TaskState, basis: Record)
    requires basis.draft.Some?
  {
    && s.record.Some? && Known(s, basis.executionId)
    && (MovedPast(s, basis.executionId)
        || (s.record.value.executionId == basis.executionId && Unattended(s, basis.executionId) && DraftFollows(s.record.value, basis)))
  }

  /** One step of a record that nobody works on: it changes hands, or its draft goes on following. */
  ghost predicate DraftGoesOn(s: TaskState, t: TaskState, basis: Record)
    requires basis.draft.Some?
  {
    && s.record.Some? && t.record.Some?
    && (ChangesHands(s, t)
        || (t.record.value.executionId == s.record.value.executionId && Unattended(t, s.record.value.executionId)
            && DraftFollows(t.record.value, basis)))
  }

  lemma DispatchDraft(s: TaskState, r: Record, disk: Disk, basis: Record)
    requires s.record.Some? && FreshId(s, disk.freshId) && basis.draft.Some?
    requires r.status.InFlight() && r.executionId == s.record.value.executionId
    requires s.record.value.executionId == basis.executionId && Unattended(s, basis.executionId) && DraftFollows(s.record.value, basis)
    ensures DraftGoesOn(s, SaveAndDispatch(s, r, disk).0, basis)
  {
  }

  lemma ClarifyDraft(s: TaskState, key: nat, resolved: Option<Resolved>, facts: Findings, disk: Disk, basis: Record)
    requires Invariant(s) && Enabled(s, DoClarifyFinish(key, resolved, facts, disk)) && basis.draft.Some?
    requires s.record.value.executionId == basis.executionId && Unattended(s, basis.executionId) && DraftFollows(s.record.value, basis)
    ensures DraftGoesOn(s, ClarifyFinish(s, key, resolved, facts, disk).0, basis)
  {
    hide Inv, Clarified, DraftFollows;
    var ticket, r, rest := s.waiting[key], s.record.value, s.Drop(key);
    assert TicketSound(ticket);
    if ClarifyPasses(s, key, resolved, facts, disk.at) {
      StoredIsSound(s);
      ClarifiedLaws(r, ticket.clarification, resolved.value, facts, disk.at);
      DispatchDraft(rest, Clarified(r, ticket.clarification, resolved.value, facts, disk.at).value, disk, basis);
    }
  }

  lemma StoredIsSound(s: TaskState)
    requires Invariant(s) && s.record.Some?
    ensures Sound(s.record.value)
  {
  }

  lemma ResumeDraftFollows(s: TaskState, key: nat, checkpoint: Option<Checkpoint>, disk: Disk, basis: Record)
    requires Enabled(s, DoResumeFinish(key, checkpoint, disk)) && basis.draft.Some?
    requires s.record.value.executionId == basis.executionId && Unattended(s, basis.executionId) && DraftFollows(s.record.value, basis)
    ensures DraftGoesOn(s, ResumeFinish(s, key, checkpoint, disk).0, basis)
  {
    hide DraftFollows, Continuable, MergedInputs, ApplyInputVersion;
    var ticket, latest, rest := s.waiting[key], s.record.value, s.Drop(key);
    if ResumePasses(s, key, checkpoint) {
      ResumedGeneration(latest, ticket.prepared, ticket.request.Some?, ticket.resolved, disk.at);
      DispatchDraft(rest, Resumed(latest, ticket.prepared, ticket.request.Some?, ticket.resolved, disk.at), disk, basis);
    }
  }

  lemma EditDraft(s: TaskState, key: nat, checkStatus: string, saved: bool, at: int, basis: Record)
    requires Enabled(s, DoEditFinish(key, checkStatus, saved, at)) && basis.draft.Some?
    requires s.record.value.executionId == basis.executionId && Unattended(s, basis.executionId) && DraftFollows(s.record.value, basis)
    ensures DraftGoesOn(s, EditFinish(s, key, checkStatus, saved, at).0, basis)
  {
    hide MarkStale;
  }

  lemma CommitDraft(env: Env, s: TaskState, step: Step, basis: Record)
    requires Invariant(s) && Enabled(s, step) && Commits(step) && s.record.Some? && basis.draft.Some?
    requires s.record.value.executionId == basis.executionId && Unattended(s, basis.executionId) && DraftFollows(s.record.value, basis)
    ensures DraftGoesOn(s, Next(env, s, step), basis)
  {
    hide Invariant, DraftFollows, ClarifyFinish, ResumeFinish, EditFinish, DuplicateLink, ChangesHands;
    if step.DoClarifyFinish? {
      ClarifyDraft(s, step.key, step.resolved, step.facts, step.disk, basis);
    } else if step.DoResumeFinish? {
      ResumeDraftFollows(s, step.key, step.checkpoint, step.disk, basis);
    } else if step.DoEditFinish? {
      EditDraft(s, step.key, step.checkStatus, step.saved, step.at, basis);
    } else {
      LinkDraft(s, step.key, step.confirmed, step.saved, step.at, basis);
    }
  }

  lemma LinkDraft(s: TaskState, key: nat, known: bool, saved: bool, at: int, basis: Record)
    requires Enabled(s, DoLinkFinish(key, known, saved, at)) && basis.draft.Some?
    requires s.record.value.executionId == basis.executionId && Unattended(s, basis.executionId) && DraftFollows(s.record.value, basis)
    ensures DraftGoesOn(s, LinkFinish(s, key, known, saved, at).0, basis)
  {
    hide DuplicateLink;
  }

  lemma ManagementDraft(env: Env, s: TaskState, step: Step, basis: Record)
    requires Enabled(s, step) && Manages(step) && s.record.Some? && basis.draft.Some?
    requires s.record.value.executionId == basis.executionId && Unattended(s, basis.executionId) && DraftFollows(s.record.value, basis)
    ensures DraftGoesOn(s, Next(env, s, step), basis)
  {
    hide Next, Enabled, Manages;
    ManagementEffect(env, s, step);
  }

  /** Nobody in charge of the record means that no run can publish into it. */
  lemma WorkDraft(env: Env, s: TaskState, step: Step, basis: Record)
    requires Enabled(s, step) && Works(step) && s.record.Some? && basis.draft.Some?
    requires s.record.value.executionId == basis.executionId && Unattended(s, basis.executionId) && DraftFollows(s.record.value, basis)
    ensures DraftGoesOn(s, Next(env, s, step), basis)
  {
    hide Next;
    WorkEffect(env, s, step);
  }

  lemma EndDraft(env: Env, s: TaskState, step: Step, basis: Record)
    requires Enabled(s, step) && Ends(step) && s.record.Some? && basis.draft.Some?
    requires s.record.value.executionId == basis.executionId && Unattended(s, basis.executionId) && DraftFollows(s.record.value, basis)
    ensures DraftGoesOn(s, Next(env, s, step), basis)
  {
    hide Enabled, DraftFollows, ChangesHands, Next;
    EndEffect(env, s, step);
    EndUnattended(env, s, step, basis.executionId);
    ClosedFollows(s.record.value, Next(env, s, step).record.value, basis);
  }

  lemma ClosedFollows(a: Record, b: Record, basis: Record)
    requires basis.draft.Some? && DraftFollows(a, basis)
    requires SameMaterial(a, b) && (b.status == a.status || b.status.Failed?)
    ensures DraftFollows(b, basis)
  {
  }

  lemma EndUnattended(env: Env, s: TaskState, step: Step, id: ExecutionId)
    requires Enabled(s, step) && Ends(step) && Unattended(s, id)
    ensures Unattended(Next(env, s, step), id)
  {
    hide Stopped, ClosedRecord;
  }

  lemma DraftStep(env: Env, s: TaskState, step: Step, basis: Record)
    requires Invariant(s) && Enabled(s, step) && s.record.Some? && basis.draft.Some?
    requires s.record.value.executionId == basis.executionId && Unattended(s, basis.executionId) && DraftFollows(s.record.value, basis)
    ensures DraftGoesOn(s, Next(env, s, step), basis)
  {
    hide Invariant, DraftFollows, ChangesHands;
    if Suspends(step) {
      SuspendKeeps(env, s, step);
    } else if Commits(step) {
      CommitDraft(env, s, step, basis);
    } else if Manages(step) {
      ManagementDraft(env, s, step, basis);
    } else if Works(step) {
      WorkDraft(env, s, step, basis);
    } else {
      EndDraft(env, s, step, basis);
    }
  }

  lemma BasisStep(env: Env, s: TaskState, step: Step, basis: Record)
    requires Invariant(s) && Enabled(s, step) && basis.draft.Some? && BasisHolds(s, basis)
    ensures BasisHolds(Next(env, s, step), basis)
  {
    hide Invariant, Enabled, MovedPast, ChangesHands, Next, DraftFollows;
    var t := Next(env, s, step);
    StepKeeps(env, s, step);
    ProgressRecord(s, t);
    if MovedPast(s, basis.executionId) {
      MovedPastStays(env, s, step, basis.executionId);
    } else {
      DraftStep(env, s, step, basis);
      if ChangesHands(s, t) {
        ChangedHandsMovesPast(s, t, basis.executionId);
      }
    }
  }

  ghost predicate BasesHold(s: TaskState) {
    forall key :: key in s.waiting && s.waiting[key].EditScanning? ==>
      s.waiting[key].basis.draft.Some? && BasisHolds(s, s.waiting[key].basis)
  }

  lemma BasisNow(s: TaskState)
    requires Invariant(s) && s.record.Some? && s.record.value.draft.Some? && s.record.value.status.HasMaterial()
    ensures BasisHolds(s, s.record.value)
  {
  }

  /** An edit parked after a step was parked before it, or has just looked at the record. */
  lemma BasisComesFrom(env: Env, s: TaskState, step: Step, key: nat)
    requires Enabled(s, step) && key in Next(env, s, step).waiting && Next(env, s, step).waiting[key].EditScanning?
    ensures var t := Next(env, s, step);
            || (key in s.waiting && s.waiting[key] == t.waiting[key])
            || (s.record.Some? && t.record == s.record && t.waiting[key].basis == s.record.value
                && s.record.value.draft.Some? && s.record.value.status.HasMaterial())
  {
    if Suspends(step) {
      ParkedBasis(env, s, step, key);
    } else {
      hide Enabled, Next;
      if Commits(step) {
        CommitDrops(env, s, step);
      } else {
        OtherTickets(env, s, step);
      }
      assert (key, Next(env, s, step).waiting[key]) in Next(env, s, step).waiting.Items;
    }
  }

  lemma ParkedBasis(env: Env, s: TaskState, step: Step, key: nat)
    requires Enabled(s, step) && Suspends(step) && key in Next(env, s, step).waiting && Next(env, s, step).waiting[key].EditScanning?
    ensures var t := Next(env, s, step);
            || (key in s.waiting && s.waiting[key] == t.waiting[key])
            || (s.record.Some? && t.record == s.record && t.waiting[key].basis == s.record.value
                && s.record.value.draft.Some? && s.record.value.status.HasMaterial())
  {
    hide ResumeDraft, DuplicateLink, Text.Trim;
  }

  lemma BasesStep(env: Env, s: TaskState, step: Step)
    requires Invariant(s) && Enabled(s, step) && BasesHold(s)
    ensures BasesHold(Next(env, s, step))
  {
    hide Invariant, Enabled, Next, BasisHolds;
    var t := Next(env, s, step);
    StepKeeps(env, s, step);
    forall key | key in t.waiting && t.waiting[key].EditScanning?
      ensures t.waiting[key].basis.draft.Some? && BasisHolds(t, t.waiting[key].basis)
    {
      BasisComesFrom(env, s, step, key);
      if key in s.waiting && s.waiting[key] == t.waiting[key] {
        BasisStep(env, s, step, s.waiting[key].basis);
      } else {
        BasisNow(t);
      }
    }
  }

  lemma {:induction false} ReachableBases(env: Env, s: TaskState, steps: seq<Step>)
    requires Invariant(s) && TicketsTrue(s) && BasesHold(s) && Feasible(env, s, steps)
    ensures var t := Run(env, s, steps); Invariant(t) && TicketsTrue(t) && BasesHold(t)
    decreases |steps|
  {
    hide Invariant, TicketsTrue, BasesHold;
    if steps != [] {
      StepKeeps(env, s, steps[0]);
      TicketsStayTrue(env, s, steps[0]);
      BasesStep(env, s, steps[0]);
      ReachableBases(env, Next(env, s, steps[0]), steps[1..]);
    }
  }

  // ----- The version check -----------------------------------------------------

  /** With the owner unchanged, the version number is as good as the draft itself. */
  lemma VersionIdentifiesDraft(s: TaskState, key: nat)
    requires TicketsTrue(s) && BasesHold(s) && key in s.waiting && s.waiting[key].EditScanning? && s.record.Some?
    requires s.record.value.executionId == s.waiting[key].basis.executionId && s.record.value.status.HasMaterial()
    ensures LatestDraft(s.record.value).CurrentVersion() == s.waiting[key].seenVersion
       <==> s.record.value.draft == s.waiting[key].basis.draft
  {
    OneTicket(s, key);
    assert BasisHolds(s, s.waiting[key].basis);
  }

  /** The rest of what an edit checks when it takes the record up again. */
  predicate EditPasses(s: TaskState) {
    s.record.Some? && s.record.value.Active() && !s.Live() && s.record.value.status.HasMaterial()
  }

  /**
   In every reachable state: while the record keeps the owner it had when the edit was opened, an
   edit is accepted exactly when the stored draft is the one it was opened on. After a change of
   owner it is accepted on any draft that happens to carry the same number.
   */
  lemma EditAcceptedExactly(env: Env, steps: seq<Step>, key: nat, checkStatus: string, saved: bool, at: int)
    requires Feasible(env, NO_TASK, steps) && Enabled(Run(env, NO_TASK, steps), DoEditFinish(key, checkStatus, saved, at))
    ensures var s := Run(env, NO_TASK, steps);
            var ticket, r := s.waiting[key], s.record.value;
            EditFinish(s, key, checkStatus, saved, at).1.Accepted?
            <==> saved && EditPasses(s)
                 && if r.executionId == ticket.basis.executionId then r.draft == ticket.basis.draft
                    else LatestDraft(r).CurrentVersion() == ticket.seenVersion
  {
    hide Invariant, Feasible, Run, LatestDraft, BasisHolds;
    var s := Run(env, NO_TASK, steps);
    EditsAtStart();
    ReachableBases(env, NO_TASK, steps);
    OneTicket(s, key);
    if s.record.value.status.HasMaterial() && s.record.value.executionId == s.waiting[key].basis.executionId {
      VersionIdentifiesDraft(s, key);
    }
  }

  lemma EditsAtStart()
    ensures Invariant(NO_TASK) && TicketsTrue(NO_TASK) && BasesHold(NO_TASK)
  {
  }

  /** An accepted edit leaves its own draft, numbered after the stored one, whatever that one was. */
  lemma EditReplacesStoredDraft(s: TaskState, key: nat, checkStatus: string, at: int)
    requires Enabled(s, DoEditFinish(key, checkStatus, true, at)) && EditFinish(s, key, checkStatus, true, at).1.Accepted?
    ensures var ticket, t := s.waiting[key], EditFinish(s, key, checkStatus, true, at).0;
            t.record.Some? && t.record.value.draft == Some(EditedDraft(LatestDraft(s.record.value), ticket.sql, ticket.rollback, checkStatus))
  {
    hide MarkStale;
  }

  /** A draft that is gone is edited exactly when the edit was opened on version 1. */
  lemma MissingDraftEditedExactly(env: Env, steps: seq<Step>, key: nat, checkStatus: string, saved: bool, at: int)
    requires Feasible(env, NO_TASK, steps) && Enabled(Run(env, NO_TASK, steps), DoEditFinish(key, checkStatus, saved, at))
    requires Run(env, NO_TASK, steps).record.value.draft.None?
    ensures var s := Run(env, NO_TASK, steps);
            EditFinish(s, key, checkStatus, saved, at).1.Accepted?
            <==> saved && EditPasses(s) && s.record.value.executionId != s.waiting[key].basis.executionId
                 && s.waiting[key].seenVersion == 1
  {
    hide Invariant, Feasible, Run, BasisHolds;
    var s := Run(env, NO_TASK, steps);
    EditAcceptedExactly(env, steps, key, checkStatus, saved, at);
    EditsAtStart();
    ReachableBases(env, NO_TASK, steps);
    OneTicket(s, key);
  }

  // ----- How the workflow's own runs end ---------------------------------------

  /** The drafting workflow ends stopped or waiting, and reports material only together with a draft. */
  predicate WorkflowEnds(outcome: RunOutcome) {
    outcome.Completed? ==>
      && (outcome.status.InputRejected? || outcome.status.NeedsInfo? || outcome.status.Failed?
          || outcome.status.CheckBlocked? || outcome.status.DraftReady?)
      && (outcome.status.HasMaterial() ==> outcome.draft.Some?)
  }

  predicate WorkflowStep(step: Step) {
    step.DoRunReturns? ==> WorkflowEnds(step.outcome)
  }

  predicate Presentable(r: Record) {
    r.status.HasMaterial() ==> r.draft.Some?
  }

  /** Stored material has a draft, and no result on its way to the store is in flight. */
  ghost predicate WorkflowTrue(s: TaskState) {
    && (s.record.Some? ==> Presentable(s.record.value))
    && (forall id :: id in s.executions && s.executions[id].phase.Saving? ==>
          Presentable(s.executions[id].phase.result) && !s.executions[id].phase.result.status.InFlight())
  }

  lemma FinishedPresentable(r: Record, outcome: RunOutcome, usage: L.Payload, at: int)
    requires WorkflowEnds(outcome)
    ensures var b := Finished(r, outcome, usage, at); Presentable(b) && !b.status.InFlight()
  {
    hide MergeEvents, SortByTime, MissingFrom, MarkStale;
  }

  lemma DispatchPresentable(s: TaskState, r: Record, disk: Disk)
    requires WorkflowTrue(s) && !r.status.HasMaterial()
    ensures WorkflowTrue(SaveAndDispatch(s, r, disk).0)
  {
  }

  lemma CommitWorkflow(env: Env, s: TaskState, step: Step)
    requires Invariant(s) && WorkflowTrue(s) && Enabled(s, step) && Commits(step)
    ensures WorkflowTrue(Next(env, s, step))
  {
    hide Inv, Clarified, Resumed, Continuable, MarkStale, DuplicateLink;
    if step.DoCreate? {
      DispatchPresentable(s, NewTask(step.actor, step.create, step.disk.at), step.disk);
    } else if step.DoClarifyFinish? {
      ClarifyWorkflow(s, step.key, step.resolved, step.facts, step.disk);
    } else if step.DoResumeFinish? {
      ResumeWorkflow(s, step.key, step.checkpoint, step.disk);
    } else {
      EditLinkWorkflow(env, s, step);
    }
  }

  lemma EditLinkWorkflow(env: Env, s: TaskState, step: Step)
    requires WorkflowTrue(s) && Enabled(s, step) && (step.DoEditFinish? || step.DoLinkFinish?)
    ensures WorkflowTrue(Next(env, s, step))
  {
    hide Next, Enabled;
    EditLinkEffect(env, s, step);
  }

  lemma ClarifyWorkflow(s: TaskState, key: nat, resolved: Option<Resolved>, facts: Findings, disk: Disk)
    requires Invariant(s) && WorkflowTrue(s) && Enabled(s, DoClarifyFinish(key, resolved, facts, disk))
    ensures WorkflowTrue(ClarifyFinish(s, key, resolved, facts, disk).0)
  {
    hide Inv, Clarified;
    var ticket, r, rest := s.waiting[key], s.record.value, s.Drop(key);
    assert TicketSound(ticket);
    if ClarifyPasses(s, key, resolved, facts, disk.at) {
      StoredIsSound(s);
      ClarifiedLaws(r, ticket.clarification, resolved.value, facts, disk.at);
      DispatchPresentable(rest, Clarified(r, ticket.clarification, resolved.value, facts, disk.at).value, disk);
    }
  }

  lemma ResumeWorkflow(s: TaskState, key: nat, checkpoint: Option<Checkpoint>, disk: Disk)
    requires WorkflowTrue(s) && Enabled(s, DoResumeFinish(key, checkpoint, disk))
    ensures WorkflowTrue(ResumeFinish(s, key, checkpoint, disk).0)
  {
    hide Continuable, MergedInputs, ApplyInputVersion;
    var ticket, rest := s.waiting[key], s.Drop(key);
    DispatchPresentable(rest, Resumed(s.record.value, ticket.prepared, ticket.request.Some?, ticket.resolved, disk.at), disk);
  }

  lemma ManagementWorkflow(env: Env, s: TaskState, step: Step)
    requires WorkflowTrue(s) && Enabled(s, step) && Manages(step)
    ensures WorkflowTrue(Next(env, s, step))
  {
    hide Next, Enabled, Manages;
    if s.record.Some? {
      ManagementEffect(env, s, step);
    } else {
      NothingManaged(env, s, step);
    }
  }

  lemma WorkWorkflow(env: Env, s: TaskState, step: Step)
    requires WorkflowTrue(s) && Enabled(s, step) && Works(step) && WorkflowStep(step)
    ensures WorkflowTrue(Next(env, s, step))
  {
    hide WorkflowEnds, RunReturns, Next;
    if step.DoRunReturns? {
      assert Next(env, s, step) == RunReturns(env, s, step.id, step.outcome, step.at) by { ReturnStep(env, s, step); }
      ReturnWorkflow(env, s, step.id, step.outcome, step.at);
    } else {
      WorkEffect(env, s, step);
    }
  }

  lemma ReturnStep(env: Env, s: TaskState, step: Step)
    requires Enabled(s, step) && step.DoRunReturns?
    ensures Next(env, s, step) == RunReturns(env, s, step.id, step.outcome, step.at)
  {
    hide RunReturns;
  }

  lemma ReturnWorkflow(env: Env, s: TaskState, id: ExecutionId, outcome: RunOutcome, at: int)
    requires WorkflowTrue(s) && id in s.executions && s.executions[id].phase.Working? && WorkflowEnds(outcome)
    ensures WorkflowTrue(RunReturns(env, s, id, outcome, at))
  {
    hide L.AsDict, Finished, WorkflowEnds;
    var work := s.executions[id].phase;
    FinishedPresentable(work.snapshot, outcome, L.AsDict(work.account, env.budget, env.LedgerId(id)), at);
  }

  lemma EndWorkflow(env: Env, s: TaskState, step: Step)
    requires WorkflowTrue(s) && Enabled(s, step) && Ends(step)
    ensures WorkflowTrue(Next(env, s, step))
  {
    hide Next, Enabled, Ends;
    EndEffect(env, s, step);
  }

  lemma WorkflowStays(env: Env, s: TaskState, step: Step)
    requires Invariant(s) && WorkflowTrue(s) && Enabled(s, step) && WorkflowStep(step)
    ensures WorkflowTrue(Next(env, s, step))
  {
    hide Invariant, WorkflowStep;
    if Suspends(step) {
      SuspendKeeps(env, s, step);
    } else if Commits(step) {
      CommitWorkflow(env, s, step);
    } else if Manages(step) {
      ManagementWorkflow(env, s, step);
    } else if Works(step) {
      WorkWorkflow(env, s, step);
    } else {
      EndWorkflow(env, s, step);
    }
  }

  lemma {:induction false} ReachableWorkflow(env: Env, s: TaskState, steps: seq<Step>)
    requires Invariant(s) && WorkflowTrue(s) && Feasible(env, s, steps)
    requires forall i :: 0 <= i < |steps| ==> WorkflowStep(steps[i])
    ensures Invariant(Run(env, s, steps)) && WorkflowTrue(Run(env, s, steps))
    decreases |steps|
  {
    hide Invariant, WorkflowTrue, WorkflowStep;
    if steps != [] {
      StepKeeps(env, s, steps[0]);
      WorkflowStays(env, s, steps[0]);
      ReachableWorkflow(env, Next(env, s, steps[0]), steps[1..]);
    }
  }

  /** With runs that end as the workflow's do, stored material always has its draft. */
  lemma MaterialHasDraft(env: Env, steps: seq<Step>)
    requires Feasible(env, NO_TASK, steps) && forall i :: 0 <= i < |steps| ==> WorkflowStep(steps[i])
    ensures var s := Run(env, NO_TASK, steps);
            s.record.Some? && s.record.value.status.HasMaterial() ==> s.record.value.draft.Some?
  {
    hide Invariant;
    EditsAtStart();
    ReachableWorkflow(env, NO_TASK, steps);
  }

  /** And then a failed compensation is the only way out of supervision. */
  lemma OnlyFailedCompensationEscapes(env: Env, s: TaskState, step: Step)
    requires Invariant(s) && Supervised(s) && WorkflowTrue(s) && Enabled(s, step)
    ensures Supervised(Next(env, s, step))
       <==> !(Admitted(s, step) && StrandedOn(step.disk) && !Watched(s))
  {
    hide Invariant, Supervised, Next, Watched, ClarifyPasses, ResumePasses, StrandedOn;
    SupervisionExactly(env, s, step);
  }

  predicate Compensated(step: Step) {
    (step.DoCreate? || step.DoClarifyFinish? || step.DoResumeFinish?) ==> !StrandedOn(step.disk)
  }

  lemma {:induction false} SupervisedRun(env: Env, s: TaskState, steps: seq<Step>)
    requires Invariant(s) && WorkflowTrue(s) && Supervised(s) && Feasible(env, s, steps)
    requires forall i :: 0 <= i < |steps| ==> WorkflowStep(steps[i]) && Compensated(steps[i])
    ensures Supervised(Run(env, s, steps))
    decreases |steps|
  {
    hide Invariant, WorkflowTrue, Supervised, WorkflowStep, Admitted, StrandedOn, Watched, Enabled;
    if steps != [] {
      StepKeeps(env, s, steps[0]);
      WorkflowStays(env, s, steps[0]);
      CompensatedIsSupervised(env, s, steps[0]);
      SupervisedRun(env, Next(env, s, steps[0]), steps[1..]);
    }
  }

  lemma CompensatedIsSupervised(env: Env, s: TaskState, step: Step)
    requires Invariant(s) && Supervised(s) && WorkflowTrue(s) && Enabled(s, step) && Compensated(step)
    ensures Supervised(Next(env, s, step))
  {
    hide Invariant, Supervised, WorkflowTrue, Next, Enabled, StrandedOn, Watched;
    OnlyFailedCompensationEscapes(env, s, step);
  }

  /** A task whose compensating saves succeed is supervised in every state of every run of the workflow. */
  lemma WorkflowSupervised(env: Env, steps: seq<Step>)
    requires Feasible(env, NO_TASK, steps)
    requires forall i :: 0 <= i < |steps| ==> WorkflowStep(steps[i]) && Compensated(steps[i])
    ensures Supervised(Run(env, NO_TASK, steps))
  {
    hide Invariant;
    EditsAtStart();
    SupervisedRun(env, NO_TASK, steps);
  }
}
