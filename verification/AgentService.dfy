/**
 The service object: a store of records, the registry of executions, the problems on
 file and the coroutines in flight, for all tasks at once. Each method is one atomic
 segment; it is proved to do to its own task exactly what TaskMachine says, and to
 leave every other task alone.
 */
module AgentService {
  import opened Numbers
  import opened Wrappers
  import opened TaskRecords
  import opened TaskMachine
  import opened TaskInvariants
  import opened TaskTheorems
  import L = UsageLedger
  import Text

  type TaskId = string

  datatype Settings = Settings(budget: L.Budget, persistAttempts: int, model: string)

  function Lookup<V>(m: map<TaskId, V>, task: TaskId): Option<V> {
    if task in m then Some(m[task]) else None
  }

  // ----- Loops over one record's lists -----------------------------------------

  /** Marks, one by one, the confirmations that no longer match the material. */
  method InvalidateStaleConfirmations(r: Record) returns (marked: Record)
    ensures marked == InvalidateStale(r)
  {
    var version, digest := r.inputVersion, r.CurrentHash();
    var items := r.confirmations;
    for i := 0 to |items|
      invariant |items| == |r.confirmations|
      invariant forall k :: 0 <= k < i ==> items[k] == MarkStale(r.confirmations, version, digest)[k]
      invariant forall k :: i <= k < |items| ==> items[k] == r.confirmations[k]
    {
      var item := items[i];
      if !item.invalidated && (item.materialVersion != version || Some(item.materialHash) != digest) {
        items := items[i := item.(invalidated := true)];
      }
    }
    assert items == MarkStale(r.confirmations, version, digest);
    marked := r.(confirmations := items);
  }

  /** Walks both trails in step and keeps what was produced beyond their common prefix. */
  method MergeEventLists(pre: seq<Event>, produced: seq<Event>) returns (merged: seq<Event>)
    ensures merged == MergeEvents(pre, produced)
  {
    if produced == [] {
      assert pre + produced[0..] == pre;
      return pre;
    }
    var common := 0;
    while common < |pre| && common < |produced| && pre[common] == produced[common]
      invariant common <= |pre| && common <= |produced|
      invariant pre[..common] == produced[..common]
    {
      common := common + 1;
    }
    PrefixIsCommon(pre, produced, common);
    merged := pre + produced[common..];
  }

  lemma PrefixIsCommon(pre: seq<Event>, produced: seq<Event>, n: nat)
    requires n <= |pre| && n <= |produced| && pre[..n] == produced[..n]
    requires n < |pre| && n < |produced| ==> pre[n] != produced[n]
    ensures CommonPrefix(pre, produced) == n
  {
    var m := CommonPrefix(pre, produced);
    assert pre[..m] == produced[..m];
  }

  lemma MissingStep(items: seq<Event>, i: nat, all: seq<Event>)
    requires i < |items|
    ensures MissingFrom(items[i..], all) == MissingFrom(items[i + 1..], if items[i] in all then all else all + [items[i]])
  {
    assert items[i..] != [] && items[i..][0] == items[i];
    assert items[i..][1..] == items[i + 1..];
  }

  lemma NothingMissing(all: seq<Event>)
    ensures MissingFrom([], all) == all
  {
  }

  /** Adds the management events a restored trail does not know about, in order. */
  method AddMissing(items: seq<Event>, events: seq<Event>) returns (all: seq<Event>)
    ensures all == MissingFrom(items, events)
  {
    hide MissingFrom;
    all := events;
    assert items[0..] == items;
    for i := 0 to |items|
      invariant MissingFrom(items, events) == MissingFrom(items[i..], all)
    {
      MissingStep(items, i, all);
      if items[i] !in all {
        all := all + [items[i]];
      }
    }
    NothingMissing(all);
    assert items[|items|..] == [];
  }

  lemma RestartHolds(env: Env, s: TaskState, at: int)
    requires Invariant(s)
    ensures Invariant(Restart(s, at))
  {
    hide Invariant;
    StepKeeps(env, s, DoRestart(at));
  }

  lemma EditFinishHolds(env: Env, s: TaskState, key: nat, checkStatus: string, saved: bool, at: int)
    requires Invariant(s) && Enabled(s, DoEditFinish(key, checkStatus, saved, at))
    ensures Invariant(EditFinish(s, key, checkStatus, saved, at).0)
  {
    hide Invariant;
    StepKeeps(env, s, DoEditFinish(key, checkStatus, saved, at));
  }

  lemma LinkFinishHolds(env: Env, s: TaskState, key: nat, known: bool, saved: bool, at: int)
    requires Invariant(s) && Enabled(s, DoLinkFinish(key, known, saved, at))
    ensures Invariant(LinkFinish(s, key, known, saved, at).0)
  {
    hide Invariant;
    StepKeeps(env, s, DoLinkFinish(key, known, saved, at));
  }

  lemma CancelHolds(env: Env, s: TaskState, actor: Actor, saved: bool, at: int)
    requires Invariant(s) && Enabled(s, DoCancel(actor, saved, at))
    ensures Invariant(Cancel(s, actor, saved, at).0)
  {
    hide Invariant;
    StepKeeps(env, s, DoCancel(actor, saved, at));
  }

  lemma CallerCancelledHolds(env: Env, s: TaskState, id: ExecutionId, saved: bool, at: int)
    requires Invariant(s) && Enabled(s, DoCallerCancelled(id, saved, at))
    ensures Invariant(CallerCancelled(s, id, saved, at))
  {
    hide Invariant;
    StepKeeps(env, s, DoCallerCancelled(id, saved, at));
  }

  lemma ReserveRequestHolds(env: Env, s: TaskState, id: ExecutionId, phase: string, saved: bool)
    requires Invariant(s) && Enabled(s, DoReserve(id, phase, saved))
    ensures Invariant(ReserveRequest(env, s, id, phase, saved))
  {
    hide Invariant;
    StepKeeps(env, s, DoReserve(id, phase, saved));
  }

  lemma PersistTerminalHolds(env: Env, s: TaskState, id: ExecutionId, saved: bool)
    requires Invariant(s) && Enabled(s, DoPersist(id, saved))
    ensures Invariant(PersistTerminal(env, s, id, saved))
  {
    hide Invariant;
    StepKeeps(env, s, DoPersist(id, saved));
  }

  lemma ExecutionDoneHolds(env: Env, s: TaskState, id: ExecutionId)
    requires Invariant(s) && Enabled(s, DoDone(id))
    ensures Invariant(ExecutionDone(s, id))
  {
    hide Invariant;
    StepKeeps(env, s, DoDone(id));
  }

  // ----- The service -----------------------------------------------------------

  class Service {
    const settings: Settings
    var store: map<TaskId, Record>
    var executions: map<TaskId, ExecutionId>
    var problems: map<TaskId, ExecutionId>
    var running: map<TaskId, map<ExecutionId, Execution>>
    var waiting: map<TaskId, map<nat, Ticket>>
    ghost var issued: map<TaskId, set<ExecutionId>>
    ghost var sent: map<TaskId, nat>

    function EnvOf(task: TaskId): Env {
      Env(settings.budget, settings.persistAttempts, settings.model, task)
    }

    /** The state of one task, as TaskMachine sees it. */
    ghost function View(task: TaskId): TaskState
      reads this
    {
      TaskState(Lookup(store, task), Lookup(running, task).GetOr(map[]), Lookup(executions, task),
                Lookup(problems, task), Lookup(waiting, task).GetOr(map[]),
                Lookup(issued, task).GetOr({}), Lookup(sent, task).GetOr(0))
    }

    twostate predicate OnlyTouched(task: TaskId)
      reads this
    {
      forall other :: other != task ==> View(other) == old(View(other))
    }

    constructor (settings: Settings)
      ensures this.settings == settings
      ensures forall task :: View(task) == NO_TASK
      ensures forall task :: Invariant(View(task))
    {
      this.settings := settings;
      store, executions, problems, running, waiting, issued, sent := map[], map[], map[], map[], map[], map[], map[];
    }

    predicate IsAuthorized(task: TaskId, actor: Actor)
      reads this
      ensures IsAuthorized(task, actor) == Authorized(View(task), actor)
    {
      && task in store
      && actor.organization != "" && actor.user != ""
      && Text.Trim(store[task].owner.organization) == actor.organization
      && Text.Trim(store[task].owner.user) == actor.user
    }

    predicate HasLiveExecution(task: TaskId)
      reads this
      ensures HasLiveExecution(task) == View(task).Live()
    {
      task in executions
    }

    method Park(task: TaskId, key: nat, ticket: Ticket)
      modifies this`waiting
      ensures View(task) == old(View(task)).Park(key, ticket) && OnlyTouched(task)
    {
      waiting := waiting[task := Lookup(waiting, task).GetOr(map[])[key := ticket]];
    }

    method Unpark(task: TaskId, key: nat) returns (ticket: Ticket)
      requires key in View(task).waiting
      modifies this`waiting
      ensures ticket == old(View(task)).waiting[key]
      ensures View(task) == old(View(task)).Drop(key) && OnlyTouched(task)
    {
      ticket := waiting[task][key];
      waiting := waiting[task := waiting[task] - {key}];
    }

    // ----- Dispatch ------------------------------------------------------------

    /** Begin and start; a begin that fails is compensated when the store allows it. */
    method DispatchOrFail(task: TaskId, disk: Disk) returns (reply: Reply)
      requires task in store
      modifies this`store, this`executions, this`problems, this`running, this`issued
      ensures (View(task), reply) == Dispatch(old(View(task)), disk)
      ensures OnlyTouched(task)
    {
      var r := store[task];
      if disk.begun {
        store := store[task := r.(runGeneration := r.runGeneration + 1, executionId := disk.freshId)];
        problems := problems - {task};
        running := running[task := Lookup(running, task).GetOr(map[])[disk.freshId := Execution(Created, false)]];
        executions := executions[task := disk.freshId];
        issued := issued[task := Lookup(issued, task).GetOr({}) + {disk.freshId}];
        return Accepted;
      }
      if r.status.InFlight() && disk.compensated {
        store := store[task := r.(status := Failed).Log(Event(disk.at, "dispatch_failed", ""))];
      }
      reply := StoreFailed;
    }

    method SaveAndDispatchTask(task: TaskId, r: Record, disk: Disk) returns (reply: Reply)
      modifies this`store, this`executions, this`problems, this`running, this`issued
      ensures (View(task), reply) == SaveAndDispatch(old(View(task)), r, disk)
      ensures OnlyTouched(task)
    {
      hide Dispatch;
      if !disk.saved {
        return StoreFailed;
      }
      store := store[task := r];
      reply := DispatchOrFail(task, disk);
    }

    method Create(task: TaskId, actor: Actor, request: CreateRequest, disk: Disk) returns (reply: Reply)
      requires Invariant(View(task)) && Enabled(View(task), DoCreate(actor, request, disk))
      modifies this`store, this`executions, this`problems, this`running, this`issued
      ensures (View(task), reply) == CreateTask(old(View(task)), actor, request, disk)
      ensures Invariant(View(task)) && OnlyTouched(task)
    {
      hide Invariant;
      reply := SaveAndDispatchTask(task, NewTask(actor, request, disk.at), disk);
      StepKeeps(EnvOf(task), old(View(task)), DoCreate(actor, request, disk));
    }

    // ----- Clarify and resume --------------------------------------------------

    method BeginClarify(task: TaskId, key: nat, actor: Actor, request: ClarifyRequest) returns (reply: Reply)
      requires Invariant(View(task)) && key !in View(task).waiting
      modifies this`waiting
      ensures (View(task), reply) == ClarifyStart(old(View(task)), key, actor, request)
      ensures Invariant(View(task)) && OnlyTouched(task)
    {
      hide Invariant;
      if !IsAuthorized(task, actor) {
        reply := Refused(NotFound);
      } else if store[task].archived || store[task].deleted || !store[task].status.Resumable() {
        reply := Refused(NotResumable);
      } else {
        Park(task, key, ClarifyWaiting(request, store[task].status));
        reply := Suspended;
      }
      StepKeeps(EnvOf(task), old(View(task)), DoClarifyStart(key, actor, request));
    }

    /** After the external check: reload, check again, merge onto the latest record, dispatch. */
    method FinishClarify(task: TaskId, key: nat, resolved: Option<Resolved>, facts: Findings, disk: Disk) returns (reply: Reply)
      requires Invariant(View(task)) && Enabled(View(task), DoClarifyFinish(key, resolved, facts, disk))
      modifies this
      ensures (View(task), reply) == ClarifyFinish(old(View(task)), key, resolved, facts, disk)
      ensures Invariant(View(task)) && OnlyTouched(task)
    {
      hide Invariant;
      var ticket := Unpark(task, key);
      if resolved.None? {
        reply := Refused(NotAuthorized);
      } else {
        var record := store[task];
        if record.archived || record.deleted || record.status != ticket.seenStatus {
          reply := Refused(NotResumable);
        } else {
          var clarified := Clarified(record, ticket.clarification, resolved.value, facts, disk.at);
          if clarified.Err? {
            reply := Refused(clarified.error);
          } else {
            reply := SaveAndDispatchTask(task, clarified.value, disk);
          }
        }
      }
      StepKeeps(EnvOf(task), old(View(task)), DoClarifyFinish(key, resolved, facts, disk));
    }

    method BeginResume(task: TaskId, key: nat, actor: Actor, request: Option<ClarifyRequest>) returns (reply: Reply)
      requires Invariant(View(task)) && key !in View(task).waiting
      modifies this`waiting
      ensures (View(task), reply) == ResumeStart(old(View(task)), key, actor, request)
      ensures Invariant(View(task)) && OnlyTouched(task)
    {
      hide Invariant;
      if !IsAuthorized(task, actor) {
        reply := Refused(NotFound);
      } else if store[task].archived || store[task].deleted || !store[task].status.Resumable() || HasLiveExecution(task) {
        reply := Refused(NotResumable);
      } else {
        Park(task, key, ResumeResolving(request, store[task]));
        reply := Suspended;
      }
      StepKeeps(EnvOf(task), old(View(task)), DoResumeStart(key, actor, request));
    }

    method PrepareResume(task: TaskId, key: nat, resolved: Option<Resolved>, facts: Findings, at: int) returns (reply: Reply)
      requires Invariant(View(task)) && Enabled(View(task), DoResumeResolve(key, resolved, facts, at))
      modifies this`waiting
      ensures (View(task), reply) == ResumeResolve(old(View(task)), key, resolved, facts, at)
      ensures Invariant(View(task)) && OnlyTouched(task)
    {
      hide Invariant;
      var ticket := Unpark(task, key);
      if resolved.None? {
        reply := Refused(NotAuthorized);
      } else {
        var prepared := ResumeDraft(ticket.seen, ticket.request, resolved.value, facts, at);
        if prepared.Err? {
          reply := Refused(prepared.error);
        } else {
          Park(task, key, ResumeInspecting(ticket.request, ticket.seen, prepared.value, resolved.value));
          reply := Suspended;
        }
      }
      StepKeeps(EnvOf(task), old(View(task)), DoResumeResolve(key, resolved, facts, at));
    }

    /** Between the checkpoint and the dispatch there is no await: check again, save, occupy. */
    method FinishResume(task: TaskId, key: nat, checkpoint: Option<Checkpoint>, disk: Disk) returns (reply: Reply)
      requires Invariant(View(task)) && Enabled(View(task), DoResumeFinish(key, checkpoint, disk))
      modifies this
      ensures (View(task), reply) == ResumeFinish(old(View(task)), key, checkpoint, disk)
      ensures Invariant(View(task)) && OnlyTouched(task)
    {
      hide Invariant;
      var ticket := Unpark(task, key);
      var latest := store[task];
      if !Continuable(checkpoint, ticket.prepared) {
        reply := Refused(NotResumable);
      } else if latest.archived || latest.deleted || latest.executionId != ticket.prepared.executionId
             || latest.status != ticket.prepared.status || HasLiveExecution(task) {
        reply := Refused(NotResumable);
      } else {
        reply := SaveAndDispatchTask(task, Resumed(latest, ticket.prepared, ticket.request.Some?, ticket.resolved, disk.at), disk);
      }
      StepKeeps(EnvOf(task), old(View(task)), DoResumeFinish(key, checkpoint, disk));
    }

    // ----- Confirmation and management -----------------------------------------

    method ConfirmMaterial(task: TaskId, actor: Actor, claimed: Option<MaterialDigest>, note: string, saved: bool, at: int)
      returns (reply: Reply)
      requires Invariant(View(task))
      modifies this`store
      ensures (View(task), reply) == Confirm(old(View(task)), actor, claimed, note, saved, at)
      ensures Invariant(View(task)) && OnlyTouched(task)
    {
      hide Invariant;
      reply := ConfirmLoaded(task, actor, claimed, note, saved, at);
      StepKeeps(EnvOf(task), old(View(task)), DoConfirm(actor, claimed, note, saved, at));
    }

    method ConfirmLoaded(task: TaskId, actor: Actor, claimed: Option<MaterialDigest>, note: string, saved: bool, at: int)
      returns (reply: Reply)
      modifies this`store
      ensures (View(task), reply) == Confirm(old(View(task)), actor, claimed, note, saved, at)
      ensures OnlyTouched(task)
    {
      if !IsAuthorized(task, actor) {
        return Refused(NotFound);
      }
      var record := store[task];
      if record.archived || record.deleted || !record.status.HasMaterial() || record.draft.None?
         || claimed != Some(record.draft.value.Digest()) {
        return Refused(NotConfirmable);
      }
      var digest := claimed.value;
      for i := 0 to |record.confirmations|
        invariant forall k :: 0 <= k < i ==>
          !(!record.confirmations[k].invalidated && record.confirmations[k].confirmedBy.user == actor.user
            && record.confirmations[k].materialVersion == record.inputVersion && record.confirmations[k].materialHash == digest)
      {
        var item := record.confirmations[i];
        if !item.invalidated && item.confirmedBy.user == actor.user
           && item.materialVersion == record.inputVersion && item.materialHash == digest {
          return Repeated;
        }
      }
      var marked := InvalidateStaleConfirmations(record);
      var confirmation := Confirmation(actor, record.inputVersion, digest, Text.Trim(note), false);
      marked := marked.(confirmations := marked.confirmations + [confirmation]);
      marked := marked.(events := marked.events + [Event(at, "confirmed", "")]);
      if !saved {
        return StoreFailed;
      }
      store := store[task := marked];
      reply := Accepted;
    }

    method SaveManagement(task: TaskId, r: Record, kind: string, actor: Actor, saved: bool, at: int) returns (reply: Reply)
      modifies this`store
      ensures (View(task), reply) == Manage(old(View(task)), r, kind, actor, saved, at)
      ensures OnlyTouched(task)
    {
      var entry := Event(at, kind, actor.user);
      var record := r.(managementEvents := r.managementEvents + [entry], events := r.events + [entry]);
      if !saved {
        return StoreFailed;
      }
      store := store[task := record];
      reply := Accepted;
    }

    method ArchiveTask(task: TaskId, actor: Actor, saved: bool, at: int) returns (reply: Reply)
      requires Invariant(View(task))
      modifies this`store
      ensures (View(task), reply) == Archive(old(View(task)), actor, saved, at)
      ensures Invariant(View(task)) && OnlyTouched(task)
    {
      hide Invariant;
      if !IsAuthorized(task, actor) {
        reply := Refused(NotFound);
      } else if store[task].status.InFlight() || HasLiveExecution(task) || store[task].deleted {
        reply := Refused(NotResumable);
      } else if store[task].archived {
        reply := Repeated;
      } else {
        reply := SaveManagement(task, store[task].(archived := true), "archived", actor, saved, at);
      }
      StepKeeps(EnvOf(task), old(View(task)), DoArchive(actor, saved, at));
    }

    method RestoreTask(task: TaskId, actor: Actor, saved: bool, at: int) returns (reply: Reply)
      requires Invariant(View(task))
      modifies this`store
      ensures (View(task), reply) == Restore(old(View(task)), actor, saved, at)
      ensures Invariant(View(task)) && OnlyTouched(task)
    {
      hide Invariant;
      if !IsAuthorized(task, actor) {
        reply := Refused(NotFound);
      } else if store[task].status.InFlight() || HasLiveExecution(task) {
        reply := Refused(NotResumable);
      } else if store[task].deleted {
        reply := SaveManagement(task, store[task].(deleted := false, archived := true), "restored", actor, saved, at);
      } else if store[task].archived {
        reply := SaveManagement(task, store[task].(archived := false), "restored", actor, saved, at);
      } else {
        reply := Repeated;
      }
      StepKeeps(EnvOf(task), old(View(task)), DoRestore(actor, saved, at));
    }

    /** Whether the trail shows that material once existed. */
    method HadMaterial(events: seq<Event>) returns (found: bool)
      ensures found == exists i :: 0 <= i < |events| && events[i].kind in MATERIAL_KINDS
    {
      for i := 0 to |events|
        invariant forall k :: 0 <= k < i ==> events[k].kind !in MATERIAL_KINDS
      {
        if events[i].kind in MATERIAL_KINDS {
          return true;
        }
      }
      found := false;
    }

    method DeleteTask(task: TaskId, actor: Actor, previewed: RecordDigest, saved: bool, at: int) returns (reply: Reply)
      requires Invariant(View(task))
      modifies this`store
      ensures (View(task), reply) == Delete(old(View(task)), actor, previewed, saved, at)
      ensures Invariant(View(task)) && OnlyTouched(task)
    {
      hide Invariant;
      if !IsAuthorized(task, actor) {
        reply := Refused(NotFound);
      } else {
        var record := store[task];
        var material := HadMaterial(record.events);
        var blocked := record.deleted || !record.archived
                    || !record.status.Removable() || HasLiveExecution(task)
                    || record.draft.Some? || record.confirmations != [] || record.changeLinks != []
                    || material || record.foreignLinks;
        if blocked || VersionDigest(record) != previewed {
          reply := Refused(NotResumable);
        } else {
          reply := SaveManagement(task, record.(deleted := true), "moved_to_trash", actor, saved, at);
        }
      }
      StepKeeps(EnvOf(task), old(View(task)), DoDelete(actor, previewed, saved, at));
    }

    // ----- Editing and linking -------------------------------------------------

    method BeginEdit(task: TaskId, key: nat, actor: Actor, sql: string, rollback: string, reason: string,
                     expectedVersion: int, injectionFound: bool) returns (reply: Reply)
      requires Invariant(View(task)) && key !in View(task).waiting
      modifies this`waiting
      ensures (View(task), reply) == EditStart(old(View(task)), key, actor, sql, rollback, reason, expectedVersion, injectionFound)
      ensures Invariant(View(task)) && OnlyTouched(task)
    {
      hide Invariant;
      if !IsAuthorized(task, actor) {
        reply := Refused(NotFound);
      } else {
        var record := store[task];
        if record.archived || record.deleted || !record.status.HasMaterial() || HasLiveExecution(task) || record.draft.None?
           || expectedVersion != record.draft.value.CurrentVersion() || injectionFound {
          reply := Refused(NotResumable);
        } else {
          Park(task, key, EditScanning(actor, sql, rollback, reason, expectedVersion, record));
          reply := Suspended;
        }
      }
      StepKeeps(EnvOf(task), old(View(task)), DoEditStart(key, actor, sql, rollback, reason, expectedVersion, injectionFound));
    }

    method FinishEdit(task: TaskId, key: nat, checkStatus: string, saved: bool, at: int) returns (reply: Reply)
      requires Invariant(View(task)) && Enabled(View(task), DoEditFinish(key, checkStatus, saved, at))
      modifies this`waiting, this`store
      ensures (View(task), reply) == EditFinish(old(View(task)), key, checkStatus, saved, at)
      ensures Invariant(View(task)) && OnlyTouched(task)
    {
      hide Invariant;
      EditFinishHolds(EnvOf(task), View(task), key, checkStatus, saved, at);
      var ticket := Unpark(task, key);
      var latest := store[task];
      if latest.archived || latest.deleted || HasLiveExecution(task)
         || LatestDraft(latest).CurrentVersion() != ticket.seenVersion || !latest.status.HasMaterial() {
        reply := Refused(NotResumable);
      } else {
        var draft := EditedDraft(LatestDraft(latest), ticket.sql, ticket.rollback, checkStatus);
        var failing := checkStatus == "BLOCKED" || checkStatus == "FAILED";
        var edited := latest.(draft := Some(draft), status := if failing then CheckBlocked else DraftReady);
        edited := InvalidateStaleConfirmations(edited);
        edited := RecordDraftVersion(edited, Some(draft), "user_edit", ticket.editor.user, ticket.reason);
        edited := edited.Log(Event(at, "draft_edited", ticket.editor.user));
        if saved {
          store := store[task := edited];
          reply := Accepted;
        } else {
          reply := StoreFailed;
        }
      }
    }

    method FindDuplicate(links: seq<ChangeLink>, changeId: string, key: string) returns (found: bool)
      ensures found == DuplicateLink(links, changeId, key)
    {
      for i := 0 to |links|
        invariant forall k :: 0 <= k < i ==>
          !(links[k].changeId == changeId || (links[k].idempotencyKey != "" && links[k].idempotencyKey == key))
      {
        if links[i].changeId == changeId || (links[i].idempotencyKey != "" && links[i].idempotencyKey == key) {
          return true;
        }
      }
      found := false;
    }

    method BeginLink(task: TaskId, key: nat, actor: Actor, changeId: string, idempotencyKey: string) returns (reply: Reply)
      requires Invariant(View(task)) && key !in View(task).waiting
      modifies this`waiting
      ensures (View(task), reply) == LinkStart(old(View(task)), key, actor, changeId, idempotencyKey)
      ensures Invariant(View(task)) && OnlyTouched(task)
    {
      hide Invariant, Text.Trim, DuplicateLink;
      if !IsAuthorized(task, actor) {
        reply := Refused(NotFound);
      } else {
        var record, change := store[task], Text.Trim(changeId);
        var idem := Text.Trim(if idempotencyKey == "" then change else idempotencyKey);
        if record.archived || record.deleted || HasLiveExecution(task) || change == "" {
          reply := Refused(NotResumable);
        } else {
          var duplicate := FindDuplicate(record.changeLinks, change, idem);
          if duplicate {
            reply := Repeated;
          } else {
            Park(task, key, LinkChecking(actor, change, idem));
            reply := Suspended;
          }
        }
      }
      StepKeeps(EnvOf(task), old(View(task)), DoLinkStart(key, actor, changeId, idempotencyKey));
    }

    method FinishLink(task: TaskId, key: nat, known: bool, saved: bool, at: int) returns (reply: Reply)
      requires Invariant(View(task)) && Enabled(View(task), DoLinkFinish(key, known, saved, at))
      modifies this`waiting, this`store
      ensures (View(task), reply) == LinkFinish(old(View(task)), key, known, saved, at)
      ensures Invariant(View(task)) && OnlyTouched(task)
    {
      hide Invariant;
      LinkFinishHolds(EnvOf(task), View(task), key, known, saved, at);
      var ticket := Unpark(task, key);
      var latest := store[task];
      if !known || latest.archived || latest.deleted || HasLiveExecution(task) {
        reply := Refused(NotResumable);
      } else {
        var duplicate := FindDuplicate(latest.changeLinks, ticket.changeId, ticket.key);
        if duplicate {
          reply := Repeated;
        } else if saved {
          var links := latest.changeLinks + [ChangeLink(ticket.changeId, ticket.linker, ticket.key)];
          store := store[task := latest.(changeLinks := links).Log(Event(at, "change_linked", ticket.changeId))];
          reply := Accepted;
        } else {
          reply := StoreFailed;
        }
      }
    }

    // ----- Cancelling ----------------------------------------------------------

    method Terminate(task: TaskId, id: ExecutionId)
      modifies this`running
      ensures View(task) == RequestCancel(old(View(task)), id) && OnlyTouched(task)
    {
      if task in running && id in running[task] && !running[task][id].phase.Returned? {
        running := running[task := running[task][id := running[task][id].(cancelRequested := true)]];
      }
    }

    /** The candidate is saved first; the superseded execution is stopped only after that. */
    method CancelTask(task: TaskId, actor: Actor, saved: bool, at: int) returns (reply: Reply)
      requires Invariant(View(task))
      modifies this`store, this`running
      ensures (View(task), reply) == Cancel(old(View(task)), actor, saved, at)
      ensures Invariant(View(task)) && OnlyTouched(task)
    {
      hide Invariant;
      CancelHolds(EnvOf(task), View(task), actor, saved, at);
      if !IsAuthorized(task, actor) {
        reply := Refused(NotFound);
      } else {
        var record := store[task];
        if record.archived || record.deleted {
          reply := Refused(NotResumable);
        } else {
          var superseded := record.executionId;
          var candidate := record.(runGeneration := record.runGeneration + 1, executionId := NO_EXECUTION, status := Cancelled);
          candidate := candidate.Log(Event(at, "cancelled", ""));
          if !saved {
            reply := StoreFailed;
          } else {
            store := store[task := candidate];
            if task in executions && executions[task] == superseded {
              Terminate(task, superseded);
            }
            reply := Accepted;
          }
        }
      }
    }

    method AbandonExecution(task: TaskId, id: ExecutionId, saved: bool, at: int)
      requires Invariant(View(task)) && id in View(task).issued
      modifies this`store, this`running, this`problems
      ensures View(task) == CallerCancelled(old(View(task)), id, saved, at)
      ensures Invariant(View(task)) && OnlyTouched(task)
    {
      hide Invariant;
      CallerCancelledHolds(EnvOf(task), View(task), id, saved, at);
      Terminate(task, id);
      if task in store && store[task].executionId == id && store[task].status.InFlight() {
        if saved {
          store := store[task := store[task].(status := Failed).Log(Event(at, "abandoned", ""))];
        } else {
          problems := problems[task := id];
        }
      }
    }

    // ----- The managed execution -----------------------------------------------

    method SetPhase(task: TaskId, id: ExecutionId, phase: Phase)
      requires id in View(task).executions
      modifies this`running
      ensures View(task) == old(View(task)).SetPhase(id, phase) && OnlyTouched(task)
    {
      running := running[task := running[task][id := running[task][id].(phase := phase)]];
    }

    /** Reads the record it owns and continues the task's ledger from what is stored. */
    method StartExecution(task: TaskId, id: ExecutionId)
      requires Invariant(View(task)) && Enabled(View(task), DoExecutionStart(id))
      modifies this`running
      ensures View(task) == ExecutionStart(old(View(task)), id)
      ensures Invariant(View(task)) && OnlyTouched(task)
    {
      hide Invariant;
      if task in store && store[task].executionId == id {
        SetPhase(task, id, Working(store[task], L.Seed(L.FRESH, store[task].usage)));
      } else {
        SetPhase(task, id, Returned(false));
      }
      StepKeeps(EnvOf(task), old(View(task)), DoExecutionStart(id));
    }

    method WriteLedger(task: TaskId, id: ExecutionId, payload: L.Payload)
      modifies this`store
      ensures View(task) == PersistLedger(old(View(task)), id, payload) && OnlyTouched(task)
    {
      if task in store && store[task].executionId == id {
        store := store[task := store[task].(usage := Some(payload))];
      }
    }

    method CountSent(task: TaskId)
      modifies this`sent
      ensures View(task) == old(View(task)).(sent := old(View(task)).sent + 1) && OnlyTouched(task)
    {
      sent := sent[task := Lookup(sent, task).GetOr(0) + 1];
    }

    method Reserve(task: TaskId, id: ExecutionId, phase: string, saved: bool)
      requires Invariant(View(task)) && Enabled(View(task), DoReserve(id, phase, saved))
      modifies this`running, this`store, this`sent
      ensures View(task) == ReserveRequest(EnvOf(task), old(View(task)), id, phase, saved)
      ensures Invariant(View(task)) && OnlyTouched(task)
    {
      hide Invariant, L.ReserveCall, L.AsDict, L.ExceededBy;
      ReserveRequestHolds(EnvOf(task), View(task), id, phase, saved);
      var work := running[task][id].phase;
      var env := EnvOf(task);
      if L.ExceededBy(work.account, settings.budget).None? {
        var account := L.ReserveCall(work.account, settings.budget, env.LedgerId(id), phase, settings.model);
        SetPhase(task, id, work.(account := account));
        if task in store && store[task].executionId == id && saved {
          WriteLedger(task, id, L.AsDict(account, settings.budget, env.LedgerId(id)));
          CountSent(task);
        }
      }
    }

    method Settle(task: TaskId, id: ExecutionId, settlement: L.Settlement, saved: bool)
      requires Invariant(View(task)) && Enabled(View(task), DoSettle(id, settlement, saved))
      modifies this`running, this`store
      ensures View(task) == SettleRequest(EnvOf(task), old(View(task)), id, settlement, saved)
      ensures Invariant(View(task)) && OnlyTouched(task)
    {
      hide Invariant;
      var work := running[task][id].phase;
      var env := EnvOf(task);
      var settled := L.SettleCall(work.account, settings.budget, settlement);
      if settled.Some? {
        SetPhase(task, id, work.(account := settled.value));
        if saved {
          WriteLedger(task, id, L.AsDict(settled.value, settings.budget, env.LedgerId(id)));
        }
      }
      StepKeeps(EnvOf(task), old(View(task)), DoSettle(id, settlement, saved));
    }

    /** Turns what the workflow returned into the record to be stored. */
    method FinishRun(r: Record, outcome: RunOutcome, usage: L.Payload, at: int) returns (result: Record)
      ensures result == Finished(r, outcome, usage, at)
    {
      var billed := r.(usage := Some(usage));
      match outcome {
        case TimedOut => result := billed.(status := Failed).Log(Event(at, "timeout", ""));
        case Raised => result := billed.(status := Failed).Log(Event(at, "failed", ""));
        case Interrupted(events) =>
          var merged := MergeEventLists(r.events, if events == [] then r.events else events);
          var waits := billed.(status := NeedsInfo, awaitingInput := true, events := merged + [Event(at, "awaiting_input", "")]);
          result := Annotate(waits, at);
        case Completed(status, draft, events) =>
          var merged := MergeEventLists(r.events, if events == [] then r.events else events);
          var run := billed.(awaitingInput := false, status := status, draft := draft, events := merged);
          var versioned := RecordDraftVersion(run, draft, "agent", "agent", "generated");
          var marked := InvalidateStaleConfirmations(versioned);
          result := Annotate(marked, at);
      }
    }

    method Annotate(r: Record, at: int) returns (result: Record)
      ensures result == AnnotateRecovery(r, at)
    {
      var all := AddMissing(r.managementEvents, r.events);
      var sorted := SortByTime(all);
      var noted := false;
      for i := 0 to |sorted|
        invariant noted == exists k :: 0 <= k < i && sorted[k].kind == RECOVERY_KIND
      {
        noted := noted || sorted[i].kind == RECOVERY_KIND;
      }
      result := r.(events := if r.atLeastOnce && !noted then sorted + [Event(at, RECOVERY_KIND, "")] else sorted);
    }

    method ReturnFromRun(task: TaskId, id: ExecutionId, outcome: RunOutcome, at: int)
      requires Invariant(View(task)) && Enabled(View(task), DoRunReturns(id, outcome, at))
      modifies this`running
      ensures View(task) == RunReturns(EnvOf(task), old(View(task)), id, outcome, at)
      ensures Invariant(View(task)) && OnlyTouched(task)
    {
      hide Invariant;
      var work := running[task][id].phase;
      var env := EnvOf(task);
      var result := FinishRun(work.snapshot, outcome, L.AsDict(work.account, settings.budget, env.LedgerId(id)), at);
      SetPhase(task, id, Saving(result, 0));
      StepKeeps(EnvOf(task), old(View(task)), DoRunReturns(id, outcome, at));
    }

    /** One pass through the retry loop of the terminal save. */
    method TryPersist(task: TaskId, id: ExecutionId, saved: bool)
      requires Invariant(View(task)) && Enabled(View(task), DoPersist(id, saved))
      modifies this`running, this`store, this`problems
      ensures View(task) == PersistTerminal(EnvOf(task), old(View(task)), id, saved)
      ensures Invariant(View(task)) && OnlyTouched(task)
    {
      hide Invariant;
      PersistTerminalHolds(EnvOf(task), View(task), id, saved);
      var result, attempt := running[task][id].phase.result, running[task][id].phase.attempt;
      var attempts := Max(1, settings.persistAttempts);
      if !(task in store && store[task].executionId == id) {
        SetPhase(task, id, Returned(false));
      } else if saved {
        store := store[task := result];
        SetPhase(task, id, Returned(false));
      } else if attempt + 1 >= attempts {
        SetPhase(task, id, Returned(false));
        problems := problems[task := id];
      } else {
        SetPhase(task, id, Saving(result, attempt + 1));
      }
    }

    method DeliverCancel(task: TaskId, id: ExecutionId)
      requires Invariant(View(task)) && Enabled(View(task), DoCancelDelivered(id))
      modifies this`running
      ensures View(task) == CancelDelivered(old(View(task)), id)
      ensures Invariant(View(task)) && OnlyTouched(task)
    {
      hide Invariant;
      SetPhase(task, id, Returned(false));
      StepKeeps(EnvOf(task), old(View(task)), DoCancelDelivered(id));
    }

    method RaiseFault(task: TaskId, id: ExecutionId)
      requires Invariant(View(task)) && Enabled(View(task), DoFault(id))
      modifies this`running
      ensures View(task) == Fault(old(View(task)), id)
      ensures Invariant(View(task)) && OnlyTouched(task)
    {
      hide Invariant;
      SetPhase(task, id, Returned(true));
      StepKeeps(EnvOf(task), old(View(task)), DoFault(id));
    }

    method KeepFailure(task: TaskId, id: ExecutionId)
      requires id in View(task).executions && View(task).executions[id].phase.Returned?
      modifies this`executions, this`problems
      ensures View(task) == old(View(task)).(
        current := if old(View(task)).current == Some(id) then None else old(View(task)).current,
        problem := if old(View(task)).executions[id].phase.raised then Some(id) else old(View(task)).problem)
      ensures OnlyTouched(task)
    {
      if running[task][id].phase.raised {
        problems := problems[task := id];
      }
      if task in executions && executions[task] == id {
        executions := executions - {task};
      }
    }

    /** The done callback: keep the failure, release the handle if it is still this one's. */
    method OnExecutionDone(task: TaskId, id: ExecutionId)
      requires Invariant(View(task)) && Enabled(View(task), DoDone(id))
      modifies this`running, this`executions, this`problems
      ensures View(task) == ExecutionDone(old(View(task)), id)
      ensures Invariant(View(task)) && OnlyTouched(task)
    {
      hide Invariant;
      ExecutionDoneHolds(EnvOf(task), View(task), id);
      KeepFailure(task, id);
      running := running[task := running[task] - {id}];
    }

    // ----- Restart -------------------------------------------------------------

    /** A new process: only the store survives, and every interrupted record is closed. */
    method RestartProcess(at: int)
      modifies this
      ensures forall task :: View(task) == Restart(old(View(task)), at)
      ensures forall task :: Invariant(old(View(task))) ==> Invariant(View(task))
    {
      hide Invariant;
      forall task | Invariant(View(task))
        ensures Invariant(Restart(View(task), at))
      {
        RestartHolds(EnvOf(task), View(task), at);
      }
      executions, problems, running, waiting := map[], map[], map[], map[];
      MarkInterruptedTasks(at);
    }

    static method Close(record: Record, at: int) returns (closed: Record)
      ensures closed == ClosedRecord(record, at)
    {
      closed := record;
      if record.status.InFlight() {
        closed := record.(awaitingInput := false, status := Failed).Log(Event(at, "restart", ""));
      }
    }

    /** Every record still in flight is closed; the others stay as they are. */
    method MarkInterruptedTasks(at: int)
      modifies this`store
      ensures store.Keys == old(store).Keys
      ensures forall task :: task in store ==> store[task] == ClosedRecord(old(store)[task], at)
    {
      hide ClosedRecord;
      var pending := store.Keys;
      while pending != {}
        invariant pending <= store.Keys == old(store).Keys
        invariant forall task :: task in pending ==> store[task] == old(store)[task]
        invariant forall task :: task in store && task !in pending ==> store[task] == ClosedRecord(old(store)[task], at)
      {
        var task :| task in pending;
        pending := pending - {task};
        var closed := Close(store[task], at);
        store := store[task := closed];
      }
    }
  }
}
