/** What every atomic step keeps, whatever the interleaving. */
module TaskInvariants {
  import opened Wrappers
  import opened TaskRecords
  import opened RecordLaws
  import opened TaskMachine
  import L = UsageLedger

  // ----- The invariant ---------------------------------------------------------

  ghost predicate Registered(s: TaskState) {
    && NO_EXECUTION !in s.issued
    && s.executions.Keys <= s.issued
    && (s.current.Some? ==> s.current.value in s.executions)
    && (s.record.None? ==> s.executions == map[] && s.sent == 0)
    && (s.record.Some? ==> s.record.value.executionId == NO_EXECUTION || s.record.value.executionId in s.issued)
  }

  /** An execution that may still write owns an in-flight, active record and is the registered one. */
  ghost predicate InChargeOwns(s: TaskState) {
    forall id :: id in s.executions && s.executions[id].InCharge() ==>
      && s.Owns(id) && s.current == Some(id)
      && s.record.value.status.InFlight() && s.record.value.Active()
  }

  /** What an execution holds in memory against what is stored while it owns the record. */
  ghost predicate Tracks(r: Record, e: Execution) {
    match e.phase
    case Working(snapshot, account) =>
      r.UsedRequests() <= account.requests && (e.InCharge() ==> r == snapshot.(usage := r.usage))
    case Saving(result, _) =>
      e.InCharge() ==> Sound(result) && Grows(r, result) && SameInputs(r, result) && result.executionId == r.executionId && result.runGeneration == r.runGeneration
    case _ => true
  }

  ghost predicate OwnerTracks(s: TaskState) {
    forall id :: id in s.executions && s.Owns(id) ==> Tracks(s.record.value, s.executions[id])
  }

  ghost predicate Stored(s: TaskState) {
    s.record.Some? ==> Sound(s.record.value) && s.sent <= s.record.value.UsedRequests()
  }

  ghost predicate Inv(s: TaskState) {
    Registered(s) && InChargeOwns(s) && OwnerTracks(s) && Stored(s)
  }

  /** From one state to a later one: the record only grows, and nothing issued or sent is forgotten. */
  ghost predicate Progress(s: TaskState, t: TaskState) {
    && (s.record.Some? ==> t.record.Some? && Grows(s.record.value, t.record.value))
    && s.issued <= t.issued && s.sent <= t.sent
  }

  lemma ProgressTransitive(s: TaskState, t: TaskState, u: TaskState)
    requires Progress(s, t) && Progress(t, u)
    ensures Progress(s, u)
  {
    if s.record.Some? {
      GrowsTransitive(s.record.value, t.record.value, u.record.value);
    }
  }

  lemma InvAtStart()
    ensures Inv(NO_TASK)
  {
  }

  // ----- Shapes of steps -------------------------------------------------------

  /** Suspended requests play no part in the invariant. */
  lemma WaitingIrrelevant(s: TaskState, waiting: map<nat, Ticket>)
    requires Inv(s)
    ensures Inv(s.(waiting := waiting)) && Progress(s, s.(waiting := waiting))
  {
  }

  ghost predicate NoneInCharge(s: TaskState) {
    forall id :: id in s.executions ==> !s.executions[id].InCharge()
  }

  lemma QuietWhenSettled(s: TaskState)
    requires Inv(s) && s.record.Some?
    requires !s.record.value.status.InFlight() || !s.record.value.Active() || !s.Live()
    ensures NoneInCharge(s)
  {
  }

  /** A save that leaves ownership and ledger alone, made while no execution is in charge. */
  lemma QuietSave(s: TaskState, r: Record)
    requires Inv(s) && s.record.Some? && NoneInCharge(s)
    requires Sound(r) && Grows(s.record.value, r) && SameOwnership(s.record.value, r)
    ensures Inv(s.Save(r)) && Progress(s, s.Save(r)) && NoneInCharge(s.Save(r))
  {
    var t := s.Save(r);
    forall id | id in t.executions && t.Owns(id)
      ensures Tracks(r, t.executions[id])
    {
      assert Tracks(s.record.value, s.executions[id]);
    }
  }

  lemma DispatchKeeps(s: TaskState, disk: Disk)
    requires Inv(s) && s.record.Some? && NoneInCharge(s) && FreshId(s, disk.freshId)
    requires s.record.value.status.InFlight() && s.record.value.Active()
    ensures Inv(Dispatch(s, disk).0) && Progress(s, Dispatch(s, disk).0)
  {
    var r := s.record.value;
    if disk.begun {
      BegunLaws(r, disk.freshId);
      var t := Dispatch(s, disk).0;
      forall id | id in t.executions && t.Owns(id)
        ensures Tracks(t.record.value, t.executions[id])
      {
        assert id == disk.freshId;
      }
    } else {
      StoppedLaws(r, "dispatch_failed", disk.at);
      QuietSave(s, Stopped(r, "dispatch_failed", disk.at));
      GrowsReflexive(r);
    }
  }

  lemma SaveAndDispatchKeeps(s: TaskState, r: Record, disk: Disk)
    requires Inv(s) && s.record.Some? && NoneInCharge(s) && FreshId(s, disk.freshId)
    requires Sound(r) && Grows(s.record.value, r) && SameOwnership(s.record.value, r)
    requires r.status.InFlight() && r.Active()
    ensures Inv(SaveAndDispatch(s, r, disk).0) && Progress(s, SaveAndDispatch(s, r, disk).0)
  {
    if disk.saved {
      QuietSave(s, r);
      DispatchKeeps(s.Save(r), disk);
      ProgressTransitive(s, s.Save(r), Dispatch(s.Save(r), disk).0);
    } else {
      Unchanged(s);
    }
  }

  lemma Unchanged(s: TaskState)
    ensures Progress(s, s)
  {
  }

  // ----- Requests --------------------------------------------------------------

  lemma CreateKeeps(s: TaskState, actor: Actor, request: CreateRequest, disk: Disk)
    requires Inv(s) && s.record.None? && FreshId(s, disk.freshId)
    ensures Inv(CreateTask(s, actor, request, disk).0) && Progress(s, CreateTask(s, actor, request, disk).0)
  {
    if disk.saved {
      var r := NewTask(actor, request, disk.at);
      NewTaskSound(actor, request, disk.at);
      assert Inv(s.Save(r));
      DispatchKeeps(s.Save(r), disk);
    }
  }

  lemma ClarifiedDispatchKeeps(s: TaskState, request: ClarifyRequest, resolved: Resolved, facts: Findings, updated: Record, disk: Disk)
    requires Inv(s) && s.record.Some? && s.record.value.Active() && s.record.value.status.Resumable() && FreshId(s, disk.freshId)
    requires Clarified(s.record.value, request, resolved, facts, disk.at) == Ok(updated)
    ensures Inv(SaveAndDispatch(s, updated, disk).0) && Progress(s, SaveAndDispatch(s, updated, disk).0)
  {
    ClarifiedLaws(s.record.value, request, resolved, facts, disk.at);
    QuietWhenSettled(s);
    SaveAndDispatchKeeps(s, updated, disk);
  }

  lemma ClarifyFinishKeeps(s: TaskState, key: nat, resolved: Option<Resolved>, facts: Findings, disk: Disk)
    requires Inv(s) && key in s.waiting && s.waiting[key].ClarifyWaiting? && s.record.Some? && FreshId(s, disk.freshId)
    requires s.waiting[key].seenStatus.Resumable()
    ensures var t := ClarifyFinish(s, key, resolved, facts, disk).0;
            Inv(t) && Progress(s, t)
  {
    var ticket, r, rest := s.waiting[key], s.record.value, s.Drop(key);
    WaitingIrrelevant(s, rest.waiting);
    var t := ClarifyFinish(s, key, resolved, facts, disk).0;
    if resolved.Some? && r.Active() && r.status == ticket.seenStatus {
      match Clarified(r, ticket.clarification, resolved.value, facts, disk.at)
      case Err(_) =>
      case Ok(updated) =>
        ClarifiedDispatchKeeps(rest, ticket.clarification, resolved.value, facts, updated, disk);
        assert t == SaveAndDispatch(rest, updated, disk).0;
        ProgressTransitive(s, rest, t);
    } else {
      assert t == rest;
    }
  }

  lemma ResumeFinishKeeps(s: TaskState, key: nat, checkpoint: Option<Checkpoint>, disk: Disk)
    requires Inv(s) && key in s.waiting && s.waiting[key].ResumeInspecting? && s.record.Some? && FreshId(s, disk.freshId)
    requires s.waiting[key].prepared.status.Resumable()
    ensures var t := ResumeFinish(s, key, checkpoint, disk).0;
            Inv(t) && Progress(s, t)
  {
    var ticket, latest, rest := s.waiting[key], s.record.value, s.Drop(key);
    WaitingIrrelevant(s, rest.waiting);
    if Continuable(checkpoint, ticket.prepared) && latest.Active() && latest.executionId == ticket.prepared.executionId
       && latest.status == ticket.prepared.status && !s.Live() {
      ResumedLaws(latest, ticket.prepared, ticket.request.Some?, ticket.resolved, disk.at);
      QuietWhenSettled(rest);
      SaveAndDispatchKeeps(rest, Resumed(latest, ticket.prepared, ticket.request.Some?, ticket.resolved, disk.at), disk);
      ProgressTransitive(s, rest, ResumeFinish(s, key, checkpoint, disk).0);
    }
  }

  lemma ConfirmKeeps(s: TaskState, actor: Actor, claimed: Option<MaterialDigest>, note: string, saved: bool, at: int)
    requires Inv(s)
    ensures var t := Confirm(s, actor, claimed, note, saved, at).0;
            Inv(t) && Progress(s, t)
  {
    Unchanged(s);
    if Confirm(s, actor, claimed, note, saved, at).1.Accepted? {
      ConfirmedLaws(s.record.value, actor, note, at);
      QuietWhenSettled(s);
      QuietSave(s, Confirmed(s.record.value, actor, claimed.value, note, at));
    }
  }

  /** Flags of the workspace may change only within the rules of the lifecycle. */
  lemma ManageKeeps(s: TaskState, r: Record, kind: string, actor: Actor, saved: bool, at: int)
    requires Inv(s) && s.record.Some? && NoneInCharge(s)
    requires r == s.record.value.(archived := r.archived, deleted := r.deleted) && LifecycleValid(r)
    ensures var t := Manage(s, r, kind, actor, saved, at).0;
            Inv(t) && Progress(s, t)
  {
    Unchanged(s);
    if saved {
      var flagged := s.record.value;
      assert Sound(r) && Grows(flagged, r);
      ManagedLaws(r, kind, actor, at);
      GrowsTransitive(flagged, r, Managed(r, kind, actor, at));
      QuietSave(s, Managed(r, kind, actor, at));
    }
  }

  lemma ArchiveKeeps(s: TaskState, actor: Actor, saved: bool, at: int)
    requires Inv(s)
    ensures Inv(Archive(s, actor, saved, at).0) && Progress(s, Archive(s, actor, saved, at).0)
  {
    Unchanged(s);
    if Authorized(s, actor) && Idle(s) && !s.record.value.deleted && !s.record.value.archived {
      QuietWhenSettled(s);
      ManageKeeps(s, s.record.value.(archived := true), "archived", actor, saved, at);
    }
  }

  lemma RestoreKeeps(s: TaskState, actor: Actor, saved: bool, at: int)
    requires Inv(s)
    ensures Inv(Restore(s, actor, saved, at).0) && Progress(s, Restore(s, actor, saved, at).0)
  {
    Unchanged(s);
    if Authorized(s, actor) && Idle(s) {
      QuietWhenSettled(s);
      var r := s.record.value;
      if r.deleted {
        ManageKeeps(s, r.(deleted := false, archived := true), "restored", actor, saved, at);
      } else if r.archived {
        ManageKeeps(s, r.(archived := false), "restored", actor, saved, at);
      }
    }
  }

  lemma DeleteKeeps(s: TaskState, actor: Actor, previewed: RecordDigest, saved: bool, at: int)
    requires Inv(s)
    ensures Inv(Delete(s, actor, previewed, saved, at).0) && Progress(s, Delete(s, actor, previewed, saved, at).0)
  {
    Unchanged(s);
    if Authorized(s, actor) && Deletable(s) {
      QuietWhenSettled(s);
      ManageKeeps(s, s.record.value.(deleted := true), "moved_to_trash", actor, saved, at);
    }
  }

  lemma EditFinishKeeps(s: TaskState, key: nat, checkStatus: string, saved: bool, at: int)
    requires Inv(s) && key in s.waiting && s.waiting[key].EditScanning? && s.record.Some?
    ensures var t := EditFinish(s, key, checkStatus, saved, at).0;
            Inv(t) && Progress(s, t)
  {
    var ticket, r, rest := s.waiting[key], s.record.value, s.Drop(key);
    WaitingIrrelevant(s, rest.waiting);
    if EditFinish(s, key, checkStatus, saved, at).1.Accepted? {
      EditedLaws(r, ticket.sql, ticket.rollback, checkStatus, ticket.reason, ticket.editor, at);
      QuietWhenSettled(rest);
      QuietSave(rest, Edited(r, ticket.sql, ticket.rollback, checkStatus, ticket.reason, ticket.editor, at));
      ProgressTransitive(s, rest, EditFinish(s, key, checkStatus, saved, at).0);
    }
  }

  lemma LinkFinishKeeps(s: TaskState, key: nat, known: bool, saved: bool, at: int)
    requires Inv(s) && key in s.waiting && s.waiting[key].LinkChecking? && s.record.Some?
    ensures var t := LinkFinish(s, key, known, saved, at).0;
            Inv(t) && Progress(s, t)
  {
    var ticket, r, rest := s.waiting[key], s.record.value, s.Drop(key);
    WaitingIrrelevant(s, rest.waiting);
    if LinkFinish(s, key, known, saved, at).1.Accepted? {
      LinkedLaws(r, ticket.linker, ticket.changeId, ticket.key, at);
      QuietWhenSettled(rest);
      QuietSave(rest, Linked(r, ticket.linker, ticket.changeId, ticket.key, at));
      ProgressTransitive(s, rest, LinkFinish(s, key, known, saved, at).0);
    }
  }

  // ----- Stopping executions ---------------------------------------------------

  lemma RequestCancelKeeps(s: TaskState, id: ExecutionId)
    requires Inv(s)
    ensures Inv(RequestCancel(s, id)) && Progress(s, RequestCancel(s, id))
    ensures id in s.executions ==> !RequestCancel(s, id).executions[id].InCharge()
  {
    var t := RequestCancel(s, id);
    forall other | other in t.executions && t.Owns(other)
      ensures Tracks(t.record.value, t.executions[other])
    {
      assert Tracks(s.record.value, s.executions[other]);
    }
  }

  /** Saving and stopping commute, so cancelling may be read as: stop, then save. */
  lemma CancelKeeps(s: TaskState, actor: Actor, saved: bool, at: int)
    requires Inv(s)
    ensures Inv(Cancel(s, actor, saved, at).0) && Progress(s, Cancel(s, actor, saved, at).0)
  {
    Unchanged(s);
    if Cancel(s, actor, saved, at).1.Accepted? {
      var r := s.record.value;
      CancelledLaws(r, at);
      var stopped := if s.current == Some(r.executionId) then RequestCancel(s, r.executionId) else s;
      RequestCancelKeeps(s, r.executionId);
      assert NoneInCharge(stopped);
      assert Cancel(s, actor, saved, at).0 == stopped.Save(CancelledRecord(r, at));
      assert Inv(stopped.Save(CancelledRecord(r, at)));
    }
  }

  lemma CallerCancelledKeeps(s: TaskState, id: ExecutionId, saved: bool, at: int)
    requires Inv(s) && id in s.issued
    ensures Inv(CallerCancelled(s, id, saved, at)) && Progress(s, CallerCancelled(s, id, saved, at))
  {
    var after := RequestCancel(s, id);
    RequestCancelKeeps(s, id);
    if s.Owns(id) && s.record.value.status.InFlight() {
      assert NoneInCharge(after);
      if saved {
        StoppedLaws(s.record.value, "abandoned", at);
        QuietSave(after, Stopped(s.record.value, "abandoned", at));
      }
    }
  }

  // ----- Inside an execution ---------------------------------------------------

  /** Replacing one execution's memory, when the new memory still tracks the record. */
  lemma PhaseKeeps(s: TaskState, id: ExecutionId, phase: Phase)
    requires Inv(s) && id in s.executions && s.record.Some?
    requires !phase.Returned? ==> !s.executions[id].phase.Returned?
    requires s.Owns(id) ==> Tracks(s.record.value, s.executions[id].(phase := phase))
    ensures Inv(s.SetPhase(id, phase)) && Progress(s, s.SetPhase(id, phase))
  {
    var t := s.SetPhase(id, phase);
    forall other | other in t.executions && t.Owns(other)
      ensures Tracks(t.record.value, t.executions[other])
    {
      assert other != id ==> Tracks(s.record.value, s.executions[other]);
    }
  }

  lemma HasRecord(s: TaskState, id: ExecutionId)
    requires Inv(s) && id in s.executions
    ensures s.record.Some?
  {
  }

  lemma ExecutionStartKeeps(s: TaskState, id: ExecutionId)
    requires Inv(s) && id in s.executions && s.executions[id].phase.Created?
    ensures Inv(ExecutionStart(s, id)) && Progress(s, ExecutionStart(s, id))
  {
    HasRecord(s, id);
    if s.Owns(id) {
      PhaseKeeps(s, id, Working(s.record.value, L.Seed(L.FRESH, s.record.value.usage)));
    } else {
      PhaseKeeps(s, id, Returned(false));
    }
  }

  /** The owner's ledger write: only the usage changes, and it never counts fewer requests. */
  lemma PersistLedgerKeeps(s: TaskState, id: ExecutionId, payload: L.Payload)
    requires Inv(s) && id in s.executions && s.executions[id].phase.Working? && s.record.Some?
    requires payload.requests == s.executions[id].phase.account.requests
    ensures Inv(PersistLedger(s, id, payload)) && Progress(s, PersistLedger(s, id, payload))
  {
    Unchanged(s);
    if s.Owns(id) {
      var r := s.record.value;
      assert Tracks(r, s.executions[id]);
      BilledLaws(r, payload);
      var t := PersistLedger(s, id, payload);
      forall other | other in t.executions && t.Owns(other)
        ensures Tracks(t.record.value, t.executions[other])
      {
        assert other == id;
      }
    }
  }

  lemma ReserveKeeps(env: Env, s: TaskState, id: ExecutionId, phase: string, saved: bool)
    requires Inv(s) && id in s.executions && s.executions[id].phase.Working?
    ensures Inv(ReserveRequest(env, s, id, phase, saved)) && Progress(s, ReserveRequest(env, s, id, phase, saved))
  {
    Unchanged(s);
    HasRecord(s, id);
    var work := s.executions[id].phase;
    if L.ExceededBy(work.account, env.budget).None? {
      var account := L.ReserveCall(work.account, env.budget, env.LedgerId(id), phase, env.model);
      assert s.Owns(id) ==> Tracks(s.record.value, s.executions[id]);
      PhaseKeeps(s, id, work.(account := account));
      var after := s.SetPhase(id, work.(account := account));
      var payload := L.AsDict(account, env.budget, env.LedgerId(id));
      if s.Owns(id) && saved {
        PersistLedgerKeeps(after, id, payload);
        ProgressTransitive(s, after, PersistLedger(after, id, payload));
        assert s.sent + 1 <= account.requests;
      }
    }
  }

  lemma SettleKeeps(env: Env, s: TaskState, id: ExecutionId, settlement: L.Settlement, saved: bool)
    requires Inv(s) && id in s.executions && s.executions[id].phase.Working?
    ensures Inv(SettleRequest(env, s, id, settlement, saved)) && Progress(s, SettleRequest(env, s, id, settlement, saved))
  {
    Unchanged(s);
    HasRecord(s, id);
    var work := s.executions[id].phase;
    var settled := L.SettleCall(work.account, env.budget, settlement);
    if settled.Some? {
      assert settled.value.requests == work.account.requests;
      assert s.Owns(id) ==> Tracks(s.record.value, s.executions[id]);
      PhaseKeeps(s, id, work.(account := settled.value));
      var after := s.SetPhase(id, work.(account := settled.value));
      if saved {
        var payload := L.AsDict(settled.value, env.budget, env.LedgerId(id));
        PersistLedgerKeeps(after, id, payload);
        ProgressTransitive(s, after, PersistLedger(after, id, payload));
      }
    }
  }

  lemma RunReturnsKeeps(env: Env, s: TaskState, id: ExecutionId, outcome: RunOutcome, at: int)
    requires Inv(s) && id in s.executions && s.executions[id].phase.Working? && s.executions[id].InCharge()
    ensures Inv(RunReturns(env, s, id, outcome, at)) && Progress(s, RunReturns(env, s, id, outcome, at))
  {
    hide Finished, Grows, SameInputs, L.CostEstimate, ConfirmationsValid, VersionValid, TrailComplete;
    var work := s.executions[id].phase;
    var r := s.record.value;
    assert Tracks(r, s.executions[id]);
    var payload := L.AsDict(work.account, env.budget, env.LedgerId(id));
    FinishedLaws(r, outcome, payload, at);
    FinishedInputs(r, outcome, payload, at);
    SameRun(work.snapshot, r, outcome, payload, at);
    PhaseKeeps(s, id, Saving(Finished(r, outcome, payload, at), 0));
  }

  lemma PersistTerminalKeeps(env: Env, s: TaskState, id: ExecutionId, saved: bool)
    requires Inv(s) && id in s.executions && s.executions[id].phase.Saving? && s.executions[id].InCharge()
    ensures Inv(PersistTerminal(env, s, id, saved)) && Progress(s, PersistTerminal(env, s, id, saved))
  {
    var r := s.record.value;
    assert Tracks(r, s.executions[id]);
    var Saving(result, attempt) := s.executions[id].phase;
    PhaseKeeps(s, id, Returned(false));
    PhaseKeeps(s, id, Saving(result, attempt + 1));
    if saved {
      var t := s.SetPhase(id, Returned(false));
      assert NoneInCharge(t);
      forall other | other in t.executions && t.Save(result).Owns(other)
        ensures Tracks(result, t.executions[other])
      {
        assert other == id;
      }
    }
  }

  lemma ExecutionDoneKeeps(s: TaskState, id: ExecutionId)
    requires Inv(s) && id in s.executions && s.executions[id].phase.Returned?
    ensures Inv(ExecutionDone(s, id)) && Progress(s, ExecutionDone(s, id))
  {
    var t := ExecutionDone(s, id);
    forall other | other in t.executions && t.Owns(other)
      ensures Tracks(t.record.value, t.executions[other])
    {
      assert Tracks(s.record.value, s.executions[other]);
    }
  }

  lemma RestartKeeps(s: TaskState, at: int)
    requires Inv(s)
    ensures Inv(Restart(s, at)) && Progress(s, Restart(s, at))
  {
    if s.record.Some? && s.record.value.status.InFlight() {
      var r := s.record.value;
      StoppedLaws(r.(awaitingInput := false), "restart", at);
    }
  }
}
