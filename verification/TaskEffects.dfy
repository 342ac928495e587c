/** What each kind of step leaves alone. The theorems about inputs, owners, drafts and supervision build on these frames. */
module TaskEffects {
  import opened Wrappers
  import opened TaskRecords
  import opened RecordLaws
  import opened TaskMachine
  import opened TaskInvariants
  import opened TaskTheorems
  import L = UsageLedger
  import Text

  // ----- The managed execution -------------------------------------------------

  /** The terminal save goes through: the result becomes the record. */
  predicate Stores(s: TaskState, step: Step)
    requires Enabled(s, step)
  {
    step.DoPersist? && step.saved && s.Owns(step.id)
  }

  /** Besides the record, only this execution's phase, the problem and the count of requests may change. */
  ghost predicate OnlyExecution(s: TaskState, t: TaskState, id: ExecutionId) {
    && t == s.(record := t.record, executions := t.executions, problem := t.problem, sent := t.sent)
    && id in s.executions && id in t.executions && !s.executions[id].phase.Returned?
    && t.executions == s.executions[id := Execution(t.executions[id].phase, s.executions[id].cancelRequested)]
    && (t.problem == s.problem || t.problem == Some(id))
  }

  ghost predicate OnlyUsage(s: TaskState, t: TaskState) {
    && t.record.Some? == s.record.Some?
    && (s.record.Some? ==> t.record.value == s.record.value.(usage := t.record.value.usage))
  }

  /** An owner that stops working has stored its result or left a problem. */
  ghost predicate Answers(s: TaskState, t: TaskState, id: ExecutionId) {
    id in t.executions && s.Owns(id) && t.executions[id].phase.Returned? ==> t.problem.Some?
  }

  lemma StartEffect(s: TaskState, id: ExecutionId)
    requires id in s.executions && s.executions[id].phase.Created?
    ensures var t := ExecutionStart(s, id);
            OnlyExecution(s, t, id) && t.record == s.record && Answers(s, t, id) && !t.executions[id].phase.Saving?
  {
    hide L.Seed;
  }

  lemma ReserveEffect(env: Env, s: TaskState, id: ExecutionId, phase: string, saved: bool)
    requires id in s.executions && s.executions[id].phase.Working?
    ensures var t := ReserveRequest(env, s, id, phase, saved);
            OnlyExecution(s, t, id) && OnlyUsage(s, t) && t.executions[id].phase.Working?
  {
    hide L.ReserveCall, L.AsDict, L.ExceededBy;
  }

  lemma SettleEffect(env: Env, s: TaskState, id: ExecutionId, settlement: L.Settlement, saved: bool)
    requires id in s.executions && s.executions[id].phase.Working?
    ensures var t := SettleRequest(env, s, id, settlement, saved);
            OnlyExecution(s, t, id) && OnlyUsage(s, t) && t.executions[id].phase.Working?
  {
    hide L.SettleCall, L.AsDict;
  }

  lemma ReturnEffect(env: Env, s: TaskState, id: ExecutionId, outcome: RunOutcome, at: int)
    requires id in s.executions && s.executions[id].phase.Working?
    ensures var t := RunReturns(env, s, id, outcome, at);
            OnlyExecution(s, t, id) && t.record == s.record && t.executions[id].phase.Saving?
  {
    hide L.AsDict, Finished;
  }

  lemma PersistEffect(env: Env, s: TaskState, id: ExecutionId, saved: bool)
    requires id in s.executions && s.executions[id].phase.Saving?
    ensures var t := PersistTerminal(env, s, id, saved);
            && OnlyExecution(s, t, id)
            && (t.executions[id].phase.Saving? ==> t.executions[id].phase.result == s.executions[id].phase.result)
            && (if saved && s.Owns(id)
                then t.record == Some(s.executions[id].phase.result) && t.problem == s.problem && t.executions[id].phase == Returned(false)
                else t.record == s.record && Answers(s, t, id))
  {
  }

  lemma WorkEffect(env: Env, s: TaskState, step: Step)
    requires Enabled(s, step) && Works(step)
    ensures var t := Next(env, s, step);
            && OnlyExecution(s, t, step.id)
            && (if Stores(s, step)
                then t.record == Some(s.executions[step.id].phase.result) && t.problem == s.problem && t.executions[step.id].phase == Returned(false)
                else OnlyUsage(s, t) && Answers(s, t, step.id))
            && (t.executions[step.id].phase.Saving? && !step.DoRunReturns? ==>
                  s.executions[step.id].phase.Saving? && t.executions[step.id].phase.result == s.executions[step.id].phase.result)
  {
    hide ExecutionStart, ReserveRequest, SettleRequest, RunReturns, PersistTerminal, OnlyExecution;
    if step.DoExecutionStart? {
      StartEffect(s, step.id);
    } else if step.DoReserve? {
      ReserveEffect(env, s, step.id, step.phase, step.saved);
    } else if step.DoSettle? {
      SettleEffect(env, s, step.id, step.settlement, step.saved);
    } else if step.DoRunReturns? {
      ReturnEffect(env, s, step.id, step.outcome, step.at);
    } else {
      PersistEffect(env, s, step.id, step.saved);
    }
  }

  /** What an owner holds ready to be stored has the record's own inputs and its own name on it. */
  lemma ReadyResult(s: TaskState, id: ExecutionId)
    requires Invariant(s) && s.Owns(id) && id in s.executions && s.executions[id].phase.Saving? && s.executions[id].InCharge()
    ensures SameInputs(s.record.value, s.executions[id].phase.result) && s.executions[id].phase.result.executionId == id
  {
    hide Sound, Grows, Registered, InChargeOwns, Stored;
    assert Tracks(s.record.value, s.executions[id]);
  }

  // ----- Management ------------------------------------------------------------

  /** Inputs, draft and everything but who owns the record and how it stands. */
  ghost predicate SameMaterial(a: Record, b: Record) {
    SameInputs(a, b) && b.draft == a.draft
  }

  ghost predicate SameCharge(a: Record, b: Record) {
    SameMaterial(a, b) && b.status == a.status && b.executionId == a.executionId
  }

  ghost predicate OnlyRecord(s: TaskState, t: TaskState) {
    t == s.(record := t.record) && s.record.Some? && t.record.Some? && SameCharge(s.record.value, t.record.value)
  }

  lemma ConfirmEffect(s: TaskState, actor: Actor, claimed: Option<MaterialDigest>, note: string, saved: bool, at: int)
    requires s.record.Some?
    ensures OnlyRecord(s, Confirm(s, actor, claimed, note, saved, at).0)
  {
    hide Authorized, AlreadyConfirmed, MarkStale, Text.Trim;
  }

  lemma ManageEffect(s: TaskState, r: Record, kind: string, actor: Actor, saved: bool, at: int)
    requires s.record.Some? && SameCharge(s.record.value, r)
    ensures OnlyRecord(s, Manage(s, r, kind, actor, saved, at).0)
  {
  }

  lemma ArchiveEffect(s: TaskState, actor: Actor, saved: bool, at: int)
    requires s.record.Some?
    ensures OnlyRecord(s, Archive(s, actor, saved, at).0)
  {
    hide Authorized, Manage;
    ManageEffect(s, s.record.value.(archived := true), "archived", actor, saved, at);
  }

  lemma RestoreEffect(s: TaskState, actor: Actor, saved: bool, at: int)
    requires s.record.Some?
    ensures OnlyRecord(s, Restore(s, actor, saved, at).0)
  {
    hide Authorized, Manage;
    ManageEffect(s, s.record.value.(deleted := false, archived := true), "restored", actor, saved, at);
    ManageEffect(s, s.record.value.(archived := false), "restored", actor, saved, at);
  }

  lemma DeleteEffect(s: TaskState, actor: Actor, previewed: RecordDigest, saved: bool, at: int)
    requires s.record.Some?
    ensures OnlyRecord(s, Delete(s, actor, previewed, saved, at).0)
  {
    hide Authorized, Manage, Deletable, VersionDigest;
    ManageEffect(s, s.record.value.(deleted := true), "moved_to_trash", actor, saved, at);
  }

  /** A cancellation leaves the record to nobody, and at most asks its execution to stop. */
  ghost predicate Cancels(s: TaskState, t: TaskState) {
    && t == s.(record := t.record, executions := t.executions) && s.record.Some? && t.record.Some?
    && SameMaterial(s.record.value, t.record.value)
    && t.record.value.executionId == NO_EXECUTION && t.record.value.status.Cancelled?
    && t.executions.Keys == s.executions.Keys
    && forall id :: id in t.executions ==> t.executions[id].phase == s.executions[id].phase
  }

  lemma CancelEffect(s: TaskState, actor: Actor, saved: bool, at: int)
    requires s.record.Some?
    ensures var t := Cancel(s, actor, saved, at).0; t == s || Cancels(s, t)
  {
    hide Authorized;
  }

  lemma ManagementEffect(env: Env, s: TaskState, step: Step)
    requires Enabled(s, step) && Manages(step) && s.record.Some?
    ensures var t := Next(env, s, step); OnlyRecord(s, t) || (step.DoCancel? && Cancels(s, t))
  {
    hide Confirm, Archive, Restore, Delete, Cancel, Cancels;
    if step.DoConfirm? {
      ConfirmEffect(s, step.actor, step.claimed, step.note, step.saved, step.at);
    } else if step.DoArchive? {
      ArchiveEffect(s, step.actor, step.saved, step.at);
    } else if step.DoRestore? {
      RestoreEffect(s, step.actor, step.saved, step.at);
    } else if step.DoDelete? {
      DeleteEffect(s, step.actor, step.previewed, step.saved, step.at);
    } else {
      CancelEffect(s, step.actor, step.saved, step.at);
    }
  }

  lemma NothingManaged(env: Env, s: TaskState, step: Step)
    requires Enabled(s, step) && Manages(step) && s.record.None?
    ensures Next(env, s, step) == s
  {
    hide Confirm, Archive, Restore, Delete, Cancel;
    NobodyAuthorized(s, step.actor);
    if step.DoConfirm? {
      assert Confirm(s, step.actor, step.claimed, step.note, step.saved, step.at).0 == s by { ConfirmRefused(s, step.actor, step.claimed, step.note, step.saved, step.at); }
    } else {
      OthersRefused(s, step.actor, step.saved, step.at);
      if step.DoDelete? {
        DeleteRefused(s, step.actor, step.previewed, step.saved, step.at);
      }
    }
  }

  lemma NobodyAuthorized(s: TaskState, actor: Actor)
    requires s.record.None?
    ensures !Authorized(s, actor)
  {
  }

  lemma ConfirmRefused(s: TaskState, actor: Actor, claimed: Option<MaterialDigest>, note: string, saved: bool, at: int)
    requires !Authorized(s, actor)
    ensures Confirm(s, actor, claimed, note, saved, at).0 == s
  {
    hide Authorized;
  }

  lemma DeleteRefused(s: TaskState, actor: Actor, previewed: RecordDigest, saved: bool, at: int)
    requires !Authorized(s, actor)
    ensures Delete(s, actor, previewed, saved, at).0 == s
  {
    hide Authorized;
  }

  lemma OthersRefused(s: TaskState, actor: Actor, saved: bool, at: int)
    requires !Authorized(s, actor)
    ensures Archive(s, actor, saved, at).0 == s && Restore(s, actor, saved, at).0 == s && Cancel(s, actor, saved, at).0 == s
  {
    hide Authorized;
  }

  // ----- Ends ------------------------------------------------------------------

  /** Closed or not, the record keeps its owner and material. */
  ghost predicate Closes(s: TaskState, t: TaskState) {
    && t.record.Some? == s.record.Some?
    && (s.record.Some? ==>
          && SameMaterial(s.record.value, t.record.value) && t.record.value.executionId == s.record.value.executionId
          && (t.record.value.status == s.record.value.status || t.record.value.status.Failed?))
  }

  /** No execution begins, and none gets anything new to store. */
  ghost predicate WindsDown(s: TaskState, t: TaskState) {
    forall id :: id in t.executions ==>
      id in s.executions && (t.executions[id].phase == s.executions[id].phase || t.executions[id].phase.Returned?)
  }

  lemma CallerCancelledEffect(s: TaskState, id: ExecutionId, saved: bool, at: int)
    requires id in s.issued
    ensures var t := CallerCancelled(s, id, saved, at); Closes(s, t) && WindsDown(s, t)
  {
  }

  lemma RestartEffect(s: TaskState, at: int)
    ensures Closes(s, Restart(s, at)) && WindsDown(s, Restart(s, at))
  {
  }

  lemma EndEffect(env: Env, s: TaskState, step: Step)
    requires Enabled(s, step) && Ends(step)
    ensures var t := Next(env, s, step); Closes(s, t) && WindsDown(s, t)
  {
    hide CallerCancelled, Restart;
    if step.DoCallerCancelled? {
      CallerCancelledEffect(s, step.id, step.saved, step.at);
    } else if step.DoRestart? {
      RestartEffect(s, step.at);
    }
  }

  // ----- Requests taken up again -----------------------------------------------

  lemma DispatchWaiting(s: TaskState, r: Record, disk: Disk)
    ensures SaveAndDispatch(s, r, disk).0.waiting == s.waiting
  {
    hide Stopped;
  }

  lemma ClarifyWaiting(s: TaskState, key: nat, resolved: Option<Resolved>, facts: Findings, disk: Disk)
    requires key in s.waiting && s.waiting[key].ClarifyWaiting? && s.record.Some?
    ensures ClarifyFinish(s, key, resolved, facts, disk).0.waiting == s.waiting - {key}
  {
    hide Clarified, SaveAndDispatch;
    if resolved.Some? {
      var clarified := Clarified(s.record.value, s.waiting[key].clarification, resolved.value, facts, disk.at);
      if clarified.Ok? {
        DispatchWaiting(s.Drop(key), clarified.value, disk);
      }
    }
  }

  lemma ResumeWaiting(s: TaskState, key: nat, checkpoint: Option<Checkpoint>, disk: Disk)
    requires key in s.waiting && s.waiting[key].ResumeInspecting? && s.record.Some?
    ensures ResumeFinish(s, key, checkpoint, disk).0.waiting == s.waiting - {key}
  {
    hide Resumed, SaveAndDispatch, Continuable;
    var ticket := s.waiting[key];
    DispatchWaiting(s.Drop(key), Resumed(s.record.value, ticket.prepared, ticket.request.Some?, ticket.resolved, disk.at), disk);
  }

  /** The record is saved, or not, and the ticket is gone. */
  ghost predicate OnlyRecordAndTicket(s: TaskState, t: TaskState, key: nat) {
    && t == s.(record := t.record, waiting := s.waiting - {key})
    && s.record.Some? && t.record.Some? && SameInputs(s.record.value, t.record.value)
    && t.record.value.executionId == s.record.value.executionId
  }

  lemma EditedShape(r: Record, sql: string, rollback: string, checkStatus: string, reason: string, actor: Actor, at: int)
    ensures var b := Edited(r, sql, rollback, checkStatus, reason, actor, at);
            && SameInputs(r, b) && b.executionId == r.executionId && b.status.HasMaterial()
            && b.draft == Some(EditedDraft(LatestDraft(r), sql, rollback, checkStatus))
  {
    hide MarkStale, EditedDraft, LatestDraft, VersionEntry;
  }

  lemma EditEffect(s: TaskState, key: nat, checkStatus: string, saved: bool, at: int)
    requires key in s.waiting && s.waiting[key].EditScanning? && s.record.Some?
    ensures var t := EditFinish(s, key, checkStatus, saved, at).0;
            && OnlyRecordAndTicket(s, t, key)
            && (t.record == s.record || (t.record.value.status.HasMaterial() && t.record.value.draft.Some?))
  {
    hide Edited, LatestDraft, EditedDraft;
    var ticket := s.waiting[key];
    EditedShape(s.record.value, ticket.sql, ticket.rollback, checkStatus, ticket.reason, ticket.editor, at);
  }

  lemma LinkEffect(s: TaskState, key: nat, known: bool, saved: bool, at: int)
    requires key in s.waiting && s.waiting[key].LinkChecking? && s.record.Some?
    ensures var t := LinkFinish(s, key, known, saved, at).0;
            OnlyRecordAndTicket(s, t, key) && SameCharge(s.record.value, t.record.value)
  {
    hide DuplicateLink;
  }

  lemma EditLinkEffect(env: Env, s: TaskState, step: Step)
    requires Enabled(s, step) && (step.DoEditFinish? || step.DoLinkFinish?)
    ensures var t := Next(env, s, step);
            && OnlyRecordAndTicket(s, t, step.key)
            && (SameCharge(s.record.value, t.record.value)
                || (t.record.value.status.HasMaterial() && t.record.value.draft.Some?))
  {
    hide EditFinish, LinkFinish, OnlyRecordAndTicket;
    if step.DoEditFinish? {
      EditEffect(s, step.key, step.checkStatus, step.saved, step.at);
    } else {
      LinkEffect(s, step.key, step.confirmed, step.saved, step.at);
    }
  }

  /** Taking a request up again takes its ticket, whatever comes of it. */
  lemma CommitWaiting(env: Env, s: TaskState, step: Step)
    requires Enabled(s, step) && Commits(step)
    ensures Next(env, s, step).waiting == if step.DoCreate? then s.waiting else s.waiting - {step.key}
  {
    hide ClarifyFinish, ResumeFinish, EditFinish, LinkFinish, SaveAndDispatch, NewTask;
    if step.DoCreate? {
      DispatchWaiting(s, NewTask(step.actor, step.create, step.disk.at), step.disk);
    } else if step.DoClarifyFinish? {
      ClarifyWaiting(s, step.key, step.resolved, step.facts, step.disk);
    } else if step.DoResumeFinish? {
      ResumeWaiting(s, step.key, step.checkpoint, step.disk);
    } else if step.DoEditFinish? {
      EditEffect(s, step.key, step.checkStatus, step.saved, step.at);
    } else {
      LinkEffect(s, step.key, step.confirmed, step.saved, step.at);
    }
  }
}
