/**
 One task under any number of racing coroutines. Each function below is one atomic
 segment of the service: it runs from one suspension point of the event loop to the
 next. Failing saves, cancelled callers and restarts are steps like any other.
 */
module TaskMachine {
  import opened Numbers
  import opened Wrappers
  import opened TaskRecords
  import L = UsageLedger
  import Text

  /** Settings in force for this task. */
  datatype Env = Env(budget: L.Budget, persistAttempts: int, model: string, taskId: string) {
    function LedgerId(id: ExecutionId): L.Identity { L.Identity(taskId, id, model) }
  }

  /** Where a managed execution stands. */
  datatype Phase =
    | Created
    | Working(snapshot: Record, account: L.Account)
    | Saving(result: Record, attempt: nat)
    | Returned(raised: bool)

  datatype Execution = Execution(phase: Phase, cancelRequested: bool) {
    predicate InCharge() { !cancelRequested && !phase.Returned? }
  }

  /** A request suspended at an await, with the locals it will use afterwards. */
  datatype Ticket =
    | ClarifyWaiting(clarification: ClarifyRequest, seenStatus: Status)
    | ResumeResolving(request: Option<ClarifyRequest>, seen: Record)
    | ResumeInspecting(request: Option<ClarifyRequest>, seen: Record, prepared: Record, resolved: Resolved)
    | EditScanning(editor: Actor, sql: string, rollback: string, reason: string, seenVersion: int, basis: Record)
    | LinkChecking(linker: Actor, changeId: string, key: string)

  /**
   The stored record, the executions not yet finished, the registered one, the recorded
   problem, the suspended requests, every execution id ever issued, and how many model
   requests were ever sent for the task.
   */
  datatype TaskState = TaskState(
    record: Option<Record>, executions: map<ExecutionId, Execution>, current: Option<ExecutionId>,
    problem: Option<ExecutionId>, waiting: map<nat, Ticket>, issued: set<ExecutionId>, sent: nat)
  {
    predicate Live() { current.Some? }

    predicate Owns(id: ExecutionId) { record.Some? && record.value.executionId == id }

    function Save(r: Record): TaskState { this.(record := Some(r)) }

    function SetPhase(id: ExecutionId, phase: Phase): TaskState
      requires id in executions
    {
      this.(executions := executions[id := executions[id].(phase := phase)])
    }

    function Drop(ticket: nat): TaskState { this.(waiting := waiting - {ticket}) }

    function Park(key: nat, ticket: Ticket): TaskState { this.(waiting := waiting[key := ticket]) }
  }

  const NO_TASK := TaskState(None, map[], None, None, map[], {}, 0)

  datatype Reply =
    | Accepted
    | Suspended
    | Repeated
    | Refused(refusal: Refusal)
    | StoreFailed

  /** How the saves of one dispatch turn out, and the fresh id it would use. */
  datatype Disk = Disk(saved: bool, begun: bool, compensated: bool, freshId: ExecutionId, at: int)

  datatype Checkpoint = Checkpoint(interrupted: bool, pending: bool, inputVersion: Option<InputDigest>)

  // ----- Access ----------------------------------------------------------------

  predicate Authorized(s: TaskState, actor: Actor) {
    && s.record.Some?
    && actor.organization != "" && actor.user != ""
    && Text.Trim(s.record.value.owner.organization) == actor.organization
    && Text.Trim(s.record.value.owner.user) == actor.user
  }

  // ----- Dispatch --------------------------------------------------------------

  /** Begins an execution, or marks the record failed when that could not be saved. */
  function Dispatch(s: TaskState, disk: Disk): (TaskState, Reply)
    requires s.record.Some?
  {
    var r := s.record.value;
    if disk.begun then
      (s.(record := Some(Begun(r, disk.freshId)),
          executions := s.executions[disk.freshId := Execution(Created, false)],
          current := Some(disk.freshId), problem := None, issued := s.issued + {disk.freshId}),
       Accepted)
    else if r.status.InFlight() && disk.compensated then
      (s.Save(Stopped(r, "dispatch_failed", disk.at)), StoreFailed)
    else (s, StoreFailed)
  }

  function SaveAndDispatch(s: TaskState, r: Record, disk: Disk): (TaskState, Reply) {
    if disk.saved then Dispatch(s.Save(r), disk) else (s, StoreFailed)
  }

  function CreateTask(s: TaskState, actor: Actor, request: CreateRequest, disk: Disk): (TaskState, Reply)
    requires s.record.None?
  {
    SaveAndDispatch(s, NewTask(actor, request, disk.at), disk)
  }

  // ----- Clarify ---------------------------------------------------------------

  function ClarifyStart(s: TaskState, key: nat, actor: Actor, request: ClarifyRequest): (TaskState, Reply) {
    if !Authorized(s, actor) then (s, Refused(NotFound))
    else if !s.record.value.Active() || !s.record.value.status.Resumable() then (s, Refused(NotResumable))
    else (s.Park(key, ClarifyWaiting(request, s.record.value.status)), Suspended)
  }

  function ClarifyFinish(s: TaskState, key: nat, resolved: Option<Resolved>, facts: Findings, disk: Disk): (TaskState, Reply)
    requires key in s.waiting && s.waiting[key].ClarifyWaiting? && s.record.Some?
  {
    var ticket, r, rest := s.waiting[key], s.record.value, s.Drop(key);
    if resolved.None? then (rest, Refused(NotAuthorized))
    else if !r.Active() || r.status != ticket.seenStatus then (rest, Refused(NotResumable))
    else
      match Clarified(r, ticket.clarification, resolved.value, facts, disk.at)
      case Err(e) => (rest, Refused(e))
      case Ok(updated) => SaveAndDispatch(rest, updated, disk)
  }

  // ----- Resume ----------------------------------------------------------------

  function ResumeStart(s: TaskState, key: nat, actor: Actor, request: Option<ClarifyRequest>): (TaskState, Reply) {
    if !Authorized(s, actor) then (s, Refused(NotFound))
    else if !s.record.value.Active() || !s.record.value.status.Resumable() || s.Live() then (s, Refused(NotResumable))
    else (s.Park(key, ResumeResolving(request, s.record.value)), Suspended)
  }

  function ResumeResolve(s: TaskState, key: nat, resolved: Option<Resolved>, facts: Findings, at: int): (TaskState, Reply)
    requires key in s.waiting && s.waiting[key].ResumeResolving?
  {
    var ticket, rest := s.waiting[key], s.Drop(key);
    if resolved.None? then (rest, Refused(NotAuthorized))
    else
      match ResumeDraft(ticket.seen, ticket.request, resolved.value, facts, at)
      case Err(e) => (rest, Refused(e))
      case Ok(prepared) => (rest.Park(key, ResumeInspecting(ticket.request, ticket.seen, prepared, resolved.value)), Suspended)
  }

  /** A pending node is only continued when the checkpoint saw exactly these inputs. */
  predicate Continuable(checkpoint: Option<Checkpoint>, prepared: Record) {
    checkpoint.Some?
    && (checkpoint.value.interrupted
        || (checkpoint.value.pending && checkpoint.value.inputVersion == Some(prepared.inputVersion)))
  }

  function ResumeFinish(s: TaskState, key: nat, checkpoint: Option<Checkpoint>, disk: Disk): (TaskState, Reply)
    requires key in s.waiting && s.waiting[key].ResumeInspecting? && s.record.Some?
  {
    var ticket, latest, rest := s.waiting[key], s.record.value, s.Drop(key);
    if !Continuable(checkpoint, ticket.prepared) then (rest, Refused(NotResumable))
    else if !latest.Active() || latest.executionId != ticket.prepared.executionId
         || latest.status != ticket.prepared.status || s.Live()
    then (rest, Refused(NotResumable))
    else SaveAndDispatch(rest, Resumed(latest, ticket.prepared, ticket.request.Some?, ticket.resolved, disk.at), disk)
  }

  // ----- Confirmation and management: one atomic step each ---------------------

  function Confirm(s: TaskState, actor: Actor, claimed: Option<MaterialDigest>, note: string, saved: bool, at: int): (TaskState, Reply) {
    if !Authorized(s, actor) then (s, Refused(NotFound))
    else
      var r := s.record.value;
      if !r.Active() || !r.status.HasMaterial() || r.draft.None? || claimed != Some(r.draft.value.Digest())
      then (s, Refused(NotConfirmable))
      else if AlreadyConfirmed(r, actor, claimed.value) then (s, Repeated)
      else if saved then (s.Save(Confirmed(r, actor, claimed.value, note, at)), Accepted)
      else (s, StoreFailed)
  }

  predicate Idle(s: TaskState)
    requires s.record.Some?
  {
    !s.record.value.status.InFlight() && !s.Live()
  }

  function Manage(s: TaskState, r: Record, kind: string, actor: Actor, saved: bool, at: int): (TaskState, Reply) {
    if saved then (s.Save(Managed(r, kind, actor, at)), Accepted) else (s, StoreFailed)
  }

  function Archive(s: TaskState, actor: Actor, saved: bool, at: int): (TaskState, Reply) {
    if !Authorized(s, actor) then (s, Refused(NotFound))
    else if !Idle(s) || s.record.value.deleted then (s, Refused(NotResumable))
    else if s.record.value.archived then (s, Repeated)
    else Manage(s, s.record.value.(archived := true), "archived", actor, saved, at)
  }

  /** The recycle bin restores into the archive, the archive into the active workspace. */
  function Restore(s: TaskState, actor: Actor, saved: bool, at: int): (TaskState, Reply) {
    if !Authorized(s, actor) then (s, Refused(NotFound))
    else if !Idle(s) then (s, Refused(NotResumable))
    else
      var r := s.record.value;
      if r.deleted then Manage(s, r.(deleted := false, archived := true), "restored", actor, saved, at)
      else if r.archived then Manage(s, r.(archived := false), "restored", actor, saved, at)
      else (s, Repeated)
  }

  const MATERIAL_KINDS := {"generate_draft", "finalize", "confirmed", "change_linked"}

  predicate Deletable(s: TaskState)
    requires s.record.Some?
  {
    var r := s.record.value;
    && !r.deleted && r.archived && r.status.Removable() && !s.Live()
    && r.draft.None? && r.confirmations == [] && r.changeLinks == [] && !r.foreignLinks
    && !(exists i :: 0 <= i < |r.events| && r.events[i].kind in MATERIAL_KINDS)
  }

  /** The caller names the version of the record that the preview showed. */
  function Delete(s: TaskState, actor: Actor, previewed: RecordDigest, saved: bool, at: int): (TaskState, Reply) {
    if !Authorized(s, actor) then (s, Refused(NotFound))
    else if !Deletable(s) || VersionDigest(s.record.value) != previewed then (s, Refused(NotResumable))
    else Manage(s, s.record.value.(deleted := true), "moved_to_trash", actor, saved, at)
  }

  // ----- Editing and linking ---------------------------------------------------

  function EditStart(s: TaskState, key: nat, actor: Actor, sql: string, rollback: string, reason: string,
                     expectedVersion: int, injectionFound: bool): (TaskState, Reply) {
    if !Authorized(s, actor) then (s, Refused(NotFound))
    else
      var r := s.record.value;
      if !r.Active() || !r.status.HasMaterial() || s.Live() || r.draft.None?
         || expectedVersion != r.draft.value.CurrentVersion() || injectionFound
      then (s, Refused(NotResumable))
      else (s.Park(key, EditScanning(actor, sql, rollback, reason, expectedVersion, r)), Suspended)
  }

  function EditFinish(s: TaskState, key: nat, checkStatus: string, saved: bool, at: int): (TaskState, Reply)
    requires key in s.waiting && s.waiting[key].EditScanning? && s.record.Some?
  {
    var ticket, r, rest := s.waiting[key], s.record.value, s.Drop(key);
    if !r.Active() || s.Live() || LatestDraft(r).CurrentVersion() != ticket.seenVersion || !r.status.HasMaterial()
    then (rest, Refused(NotResumable))
    else if saved then
      (rest.Save(Edited(r, ticket.sql, ticket.rollback, checkStatus, ticket.reason, ticket.editor, at)), Accepted)
    else (rest, StoreFailed)
  }

  function LinkStart(s: TaskState, key: nat, actor: Actor, changeId: string, idempotencyKey: string): (TaskState, Reply) {
    if !Authorized(s, actor) then (s, Refused(NotFound))
    else
      var r, change := s.record.value, Text.Trim(changeId);
      var idem := Text.Trim(if idempotencyKey == "" then change else idempotencyKey);
      if !r.Active() || s.Live() || change == "" then (s, Refused(NotResumable))
      else if DuplicateLink(r.changeLinks, change, idem) then (s, Repeated)
      else (s.Park(key, LinkChecking(actor, change, idem)), Suspended)
  }

  function LinkFinish(s: TaskState, key: nat, known: bool, saved: bool, at: int): (TaskState, Reply)
    requires key in s.waiting && s.waiting[key].LinkChecking? && s.record.Some?
  {
    var ticket, r, rest := s.waiting[key], s.record.value, s.Drop(key);
    if !known || !r.Active() || s.Live() then (rest, Refused(NotResumable))
    else if DuplicateLink(r.changeLinks, ticket.changeId, ticket.key) then (rest, Repeated)
    else if saved then (rest.Save(Linked(r, ticket.linker, ticket.changeId, ticket.key, at)), Accepted)
    else (rest, StoreFailed)
  }

  // ----- Cancelling ------------------------------------------------------------

  function RequestCancel(s: TaskState, id: ExecutionId): TaskState {
    if id in s.executions && !s.executions[id].phase.Returned?
    then s.(executions := s.executions[id := s.executions[id].(cancelRequested := true)])
    else s
  }

  /** The cancellation is saved first; only then is the superseded execution stopped. */
  function Cancel(s: TaskState, actor: Actor, saved: bool, at: int): (TaskState, Reply) {
    if !Authorized(s, actor) then (s, Refused(NotFound))
    else
      var r := s.record.value;
      if !r.Active() then (s, Refused(NotResumable))
      else if !saved then (s, StoreFailed)
      else
        var after := s.Save(CancelledRecord(r, at));
        (if s.current == Some(r.executionId) then RequestCancel(after, r.executionId) else after, Accepted)
  }

  /** The caller of an inline dispatch goes away: its execution is stopped and written off. */
  function CallerCancelled(s: TaskState, id: ExecutionId, saved: bool, at: int): TaskState
    requires id in s.issued
  {
    var after := RequestCancel(s, id);
    if !s.Owns(id) || !s.record.value.status.InFlight() then after
    else if saved then after.Save(Stopped(s.record.value, "abandoned", at))
    else after.(problem := Some(id))
  }

  // ----- The managed execution -------------------------------------------------

  function ExecutionStart(s: TaskState, id: ExecutionId): TaskState
    requires id in s.executions && s.executions[id].phase.Created?
  {
    if s.Owns(id) then s.SetPhase(id, Working(s.record.value, L.Seed(L.FRESH, s.record.value.usage)))
    else s.SetPhase(id, Returned(false))
  }

  /** Writes only the usage field, and only while the execution still owns the record. */
  function PersistLedger(s: TaskState, id: ExecutionId, payload: L.Payload): TaskState {
    if s.Owns(id) then s.Save(s.record.value.(usage := Some(payload))) else s
  }

  /** The budget guard, the durable reservation, and only then the model request. */
  function ReserveRequest(env: Env, s: TaskState, id: ExecutionId, phase: string, saved: bool): TaskState
    requires id in s.executions && s.executions[id].phase.Working?
  {
    var work := s.executions[id].phase;
    if L.ExceededBy(work.account, env.budget).Some? then s
    else
      var account := L.ReserveCall(work.account, env.budget, env.LedgerId(id), phase, env.model);
      var after := s.SetPhase(id, work.(account := account));
      if s.Owns(id) && saved
      then PersistLedger(after, id, L.AsDict(account, env.budget, env.LedgerId(id))).(sent := s.sent + 1)
      else after
  }

  function SettleRequest(env: Env, s: TaskState, id: ExecutionId, settlement: L.Settlement, saved: bool): TaskState
    requires id in s.executions && s.executions[id].phase.Working?
  {
    var work := s.executions[id].phase;
    match L.SettleCall(work.account, env.budget, settlement)
    case None => s
    case Some(account) =>
      var after := s.SetPhase(id, work.(account := account));
      if saved then PersistLedger(after, id, L.AsDict(account, env.budget, env.LedgerId(id))) else after
  }

  function RunReturns(env: Env, s: TaskState, id: ExecutionId, outcome: RunOutcome, at: int): TaskState
    requires id in s.executions && s.executions[id].phase.Working?
  {
    var work := s.executions[id].phase;
    s.SetPhase(id, Saving(Finished(work.snapshot, outcome, L.AsDict(work.account, env.budget, env.LedgerId(id)), at), 0))
  }

  /** One attempt of the bounded retry; the last failure is recorded as a problem. */
  function PersistTerminal(env: Env, s: TaskState, id: ExecutionId, saved: bool): TaskState
    requires id in s.executions && s.executions[id].phase.Saving?
  {
    var Saving(result, attempt) := s.executions[id].phase;
    if !s.Owns(id) then s.SetPhase(id, Returned(false))
    else if saved then s.Save(result).SetPhase(id, Returned(false))
    else if attempt + 1 >= Max(1, env.persistAttempts) then s.SetPhase(id, Returned(false)).(problem := Some(id))
    else s.SetPhase(id, Saving(result, attempt + 1))
  }

  function CancelDelivered(s: TaskState, id: ExecutionId): TaskState
    requires id in s.executions
  {
    s.SetPhase(id, Returned(false))
  }

  function Fault(s: TaskState, id: ExecutionId): TaskState
    requires id in s.executions
  {
    s.SetPhase(id, Returned(true))
  }

  function ExecutionDone(s: TaskState, id: ExecutionId): TaskState
    requires id in s.executions && s.executions[id].phase.Returned?
  {
    s.(executions := s.executions - {id},
       current := if s.current == Some(id) then None else s.current,
       problem := if s.executions[id].phase.raised then Some(id) else s.problem)
  }

  // ----- Restart ---------------------------------------------------------------

  /** What start-up makes of a record it finds: only one still in flight is closed. */
  function ClosedRecord(r: Record, at: int): Record {
    if r.status.InFlight() then Stopped(r.(awaitingInput := false), "restart", at) else r
  }

  /** A crash forgets everything but the store; start-up then closes interrupted records. */
  function Restart(s: TaskState, at: int): TaskState {
    TaskState(if s.record.Some? then Some(ClosedRecord(s.record.value, at)) else None,
              map[], None, None, map[], s.issued, s.sent)
  }

  // ----- All steps -------------------------------------------------------------

  datatype Step =
    | DoCreate(actor: Actor, create: CreateRequest, disk: Disk)
    | DoClarifyStart(key: nat, actor: Actor, clarify: ClarifyRequest)
    | DoClarifyFinish(key: nat, resolved: Option<Resolved>, facts: Findings, disk: Disk)
    | DoResumeStart(key: nat, actor: Actor, resume: Option<ClarifyRequest>)
    | DoResumeResolve(key: nat, resolved: Option<Resolved>, facts: Findings, at: int)
    | DoResumeFinish(key: nat, checkpoint: Option<Checkpoint>, disk: Disk)
    | DoConfirm(actor: Actor, claimed: Option<MaterialDigest>, note: string, saved: bool, at: int)
    | DoArchive(actor: Actor, saved: bool, at: int)
    | DoRestore(actor: Actor, saved: bool, at: int)
    | DoDelete(actor: Actor, previewed: RecordDigest, saved: bool, at: int)
    | DoEditStart(key: nat, actor: Actor, sql: string, rollback: string, reason: string, version: int, injectionFound: bool)
    | DoEditFinish(key: nat, checkStatus: string, saved: bool, at: int)
    | DoLinkStart(key: nat, actor: Actor, changeId: string, idempotencyKey: string)
    | DoLinkFinish(key: nat, confirmed: bool, saved: bool, at: int)
    | DoCancel(actor: Actor, saved: bool, at: int)
    | DoCallerCancelled(id: ExecutionId, saved: bool, at: int)
    | DoExecutionStart(id: ExecutionId)
    | DoReserve(id: ExecutionId, phase: string, saved: bool)
    | DoSettle(id: ExecutionId, settlement: L.Settlement, saved: bool)
    | DoRunReturns(id: ExecutionId, outcome: RunOutcome, at: int)
    | DoPersist(id: ExecutionId, saved: bool)
    | DoCancelDelivered(id: ExecutionId)
    | DoFault(id: ExecutionId)
    | DoDone(id: ExecutionId)
    | DoRestart(at: int)

  predicate FreshId(s: TaskState, id: ExecutionId) {
    id != NO_EXECUTION && id !in s.issued
  }

  /**
   An execution whose cancellation was requested may still make and settle requests, as its nodes
   run as tasks of their own; otherwise it gets to run nothing but its clean-up.
   */
  predicate Enabled(s: TaskState, step: Step) {
    match step
    case DoCreate(_, _, disk) => s.record.None? && FreshId(s, disk.freshId)
    case DoClarifyStart(key, _, _) => key !in s.waiting
    case DoClarifyFinish(key, _, _, disk) =>
      key in s.waiting && s.waiting[key].ClarifyWaiting? && s.record.Some? && FreshId(s, disk.freshId)
    case DoResumeStart(key, _, _) => key !in s.waiting
    case DoResumeResolve(key, _, _, _) => key in s.waiting && s.waiting[key].ResumeResolving?
    case DoResumeFinish(key, _, disk) =>
      key in s.waiting && s.waiting[key].ResumeInspecting? && s.record.Some? && FreshId(s, disk.freshId)
    case DoEditStart(key, _, _, _, _, _, _) => key !in s.waiting
    case DoEditFinish(key, _, _, _) => key in s.waiting && s.waiting[key].EditScanning? && s.record.Some?
    case DoLinkStart(key, _, _, _) => key !in s.waiting
    case DoLinkFinish(key, _, _, _) => key in s.waiting && s.waiting[key].LinkChecking? && s.record.Some?
    case DoCallerCancelled(id, _, _) => id in s.issued
    case DoExecutionStart(id) => id in s.executions && s.executions[id].phase.Created? && !s.executions[id].cancelRequested
    case DoReserve(id, _, _) => id in s.executions && s.executions[id].phase.Working?
    case DoSettle(id, _, _) => id in s.executions && s.executions[id].phase.Working?
    case DoRunReturns(id, _, _) => id in s.executions && s.executions[id].phase.Working? && !s.executions[id].cancelRequested
    case DoPersist(id, _) => id in s.executions && s.executions[id].phase.Saving? && !s.executions[id].cancelRequested
    case DoCancelDelivered(id) => id in s.executions && s.executions[id].cancelRequested && !s.executions[id].phase.Returned?
    case DoFault(id) => id in s.executions && s.executions[id].InCharge()
    case DoDone(id) => id in s.executions && s.executions[id].phase.Returned?
    case _ => true
  }

  function Answer(env: Env, s: TaskState, step: Step): (TaskState, Reply)
    requires Enabled(s, step)
  {
    match step
    case DoCreate(actor, create, disk) => CreateTask(s, actor, create, disk)
    case DoClarifyStart(key, actor, clarify) => ClarifyStart(s, key, actor, clarify)
    case DoClarifyFinish(key, resolved, facts, disk) => ClarifyFinish(s, key, resolved, facts, disk)
    case DoResumeStart(key, actor, resume) => ResumeStart(s, key, actor, resume)
    case DoResumeResolve(key, resolved, facts, at) => ResumeResolve(s, key, resolved, facts, at)
    case DoResumeFinish(key, checkpoint, disk) => ResumeFinish(s, key, checkpoint, disk)
    case DoConfirm(actor, claimed, note, saved, at) => Confirm(s, actor, claimed, note, saved, at)
    case DoArchive(actor, saved, at) => Archive(s, actor, saved, at)
    case DoRestore(actor, saved, at) => Restore(s, actor, saved, at)
    case DoDelete(actor, previewed, saved, at) => Delete(s, actor, previewed, saved, at)
    case DoEditStart(key, actor, sql, rollback, reason, version, injectionFound) =>
      EditStart(s, key, actor, sql, rollback, reason, version, injectionFound)
    case DoEditFinish(key, checkStatus, saved, at) => EditFinish(s, key, checkStatus, saved, at)
    case DoLinkStart(key, actor, changeId, idempotencyKey) => LinkStart(s, key, actor, changeId, idempotencyKey)
    case DoLinkFinish(key, confirmed, saved, at) => LinkFinish(s, key, confirmed, saved, at)
    case DoCancel(actor, saved, at) => Cancel(s, actor, saved, at)
    case _ => (Internal(env, s, step), Accepted)
  }

  /** The steps no caller is waiting for. */
  function Internal(env: Env, s: TaskState, step: Step): TaskState
    requires Enabled(s, step)
  {
    match step
    case DoCallerCancelled(id, saved, at) => CallerCancelled(s, id, saved, at)
    case DoExecutionStart(id) => ExecutionStart(s, id)
    case DoReserve(id, phase, saved) => ReserveRequest(env, s, id, phase, saved)
    case DoSettle(id, settlement, saved) => SettleRequest(env, s, id, settlement, saved)
    case DoRunReturns(id, outcome, at) => RunReturns(env, s, id, outcome, at)
    case DoPersist(id, saved) => PersistTerminal(env, s, id, saved)
    case DoCancelDelivered(id) => CancelDelivered(s, id)
    case DoFault(id) => Fault(s, id)
    case DoDone(id) => ExecutionDone(s, id)
    case DoRestart(at) => Restart(s, at)
    case _ => s
  }

  function Next(env: Env, s: TaskState, step: Step): TaskState
    requires Enabled(s, step)
  {
    Answer(env, s, step).0
  }

  /** Steps one after another, each enabled when it is taken. */
  predicate Feasible(env: Env, s: TaskState, steps: seq<Step>)
    decreases |steps|
  {
    steps == [] || (Enabled(s, steps[0]) && Feasible(env, Next(env, s, steps[0]), steps[1..]))
  }

  function Run(env: Env, s: TaskState, steps: seq<Step>): TaskState
    requires Feasible(env, s, steps)
    decreases |steps|
  {
    if steps == [] then s else Run(env, Next(env, s, steps[0]), steps[1..])
  }
}
