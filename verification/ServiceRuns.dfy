/** Whole runs of the service object: calls on any tasks, in any order, with restarts between them. */
module ServiceRuns {
  import opened Wrappers
  import opened TaskRecords
  import opened RecordLaws
  import opened TaskMachine
  import opened TaskInvariants
  import opened TaskTheorems
  import opened AgentService
  import L = UsageLedger

  /** One atomic segment on one task, or a new process for all of them. */
  datatype Call = On(task: TaskId, step: Step) | NewProcess(at: int)

  /** The steps a call is for one task. */
  function StepsOf(task: TaskId, call: Call): seq<Step> {
    match call
    case On(other, step) => if other == task then [step] else []
    case NewProcess(at) => [DoRestart(at)]
  }

  function Own(task: TaskId, calls: seq<Call>): seq<Step> {
    if calls == [] then [] else StepsOf(task, calls[0]) + Own(task, calls[1..])
  }

  predicate Proper(call: Call) {
    call.On? ==> !call.step.DoRestart?
  }

  function EnvFor(settings: Settings, task: TaskId): Env {
    Env(settings.budget, settings.persistAttempts, settings.model, task)
  }

  // ----- One call --------------------------------------------------------------

  method Request(service: Service, task: TaskId, step: Step) returns (reply: Reply)
    requires Invariant(service.View(task)) && Enabled(service.View(task), step) && (Suspends(step) || Commits(step))
    modifies service
    ensures (service.View(task), reply) == Answer(service.EnvOf(task), old(service.View(task)), step)
    ensures Invariant(service.View(task)) && forall other :: other != task ==> service.View(other) == old(service.View(other))
  {
    hide Invariant, ClarifyStart, ClarifyFinish, ResumeStart, ResumeResolve, ResumeFinish, EditStart, EditFinish, LinkStart, LinkFinish,
         CreateTask, Internal;
    match step {
      case DoCreate(actor, create, disk) => reply := service.Create(task, actor, create, disk);
      case DoClarifyStart(key, actor, clarify) => reply := service.BeginClarify(task, key, actor, clarify);
      case DoClarifyFinish(key, resolved, facts, disk) => reply := service.FinishClarify(task, key, resolved, facts, disk);
      case DoResumeStart(key, actor, resume) => reply := service.BeginResume(task, key, actor, resume);
      case DoResumeResolve(key, resolved, facts, at) => reply := service.PrepareResume(task, key, resolved, facts, at);
      case DoResumeFinish(key, checkpoint, disk) => reply := service.FinishResume(task, key, checkpoint, disk);
      case DoEditStart(key, actor, sql, rollback, reason, version, injectionFound) =>
        reply := service.BeginEdit(task, key, actor, sql, rollback, reason, version, injectionFound);
      case DoEditFinish(key, checkStatus, saved, at) => reply := service.FinishEdit(task, key, checkStatus, saved, at);
      case DoLinkStart(key, actor, changeId, idempotencyKey) => reply := service.BeginLink(task, key, actor, changeId, idempotencyKey);
      case DoLinkFinish(key, confirmed, saved, at) => reply := service.FinishLink(task, key, confirmed, saved, at);
    }
  }

  method Management(service: Service, task: TaskId, step: Step) returns (reply: Reply)
    requires Invariant(service.View(task)) && Enabled(service.View(task), step) && Manages(step)
    modifies service
    ensures (service.View(task), reply) == Answer(service.EnvOf(task), old(service.View(task)), step)
    ensures Invariant(service.View(task)) && forall other :: other != task ==> service.View(other) == old(service.View(other))
  {
    hide Invariant, Confirm, Archive, Restore, Delete, Cancel, Internal;
    match step {
      case DoConfirm(actor, claimed, note, saved, at) => reply := service.ConfirmMaterial(task, actor, claimed, note, saved, at);
      case DoArchive(actor, saved, at) => reply := service.ArchiveTask(task, actor, saved, at);
      case DoRestore(actor, saved, at) => reply := service.RestoreTask(task, actor, saved, at);
      case DoDelete(actor, previewed, saved, at) => reply := service.DeleteTask(task, actor, previewed, saved, at);
      case DoCancel(actor, saved, at) => reply := service.CancelTask(task, actor, saved, at);
    }
  }

  method Work(service: Service, task: TaskId, step: Step)
    requires Invariant(service.View(task)) && Enabled(service.View(task), step) && Works(step)
    modifies service
    ensures service.View(task) == Internal(service.EnvOf(task), old(service.View(task)), step)
    ensures Invariant(service.View(task)) && forall other :: other != task ==> service.View(other) == old(service.View(other))
  {
    hide Invariant, ExecutionStart, ReserveRequest, SettleRequest, RunReturns, PersistTerminal;
    match step {
      case DoExecutionStart(id) => service.StartExecution(task, id);
      case DoReserve(id, phase, saved) => service.Reserve(task, id, phase, saved);
      case DoSettle(id, settlement, saved) => service.Settle(task, id, settlement, saved);
      case DoRunReturns(id, outcome, at) => service.ReturnFromRun(task, id, outcome, at);
      case DoPersist(id, saved) => service.TryPersist(task, id, saved);
    }
  }

  method Ending(service: Service, task: TaskId, step: Step)
    requires Invariant(service.View(task)) && Enabled(service.View(task), step) && Ends(step) && !step.DoRestart?
    modifies service
    ensures service.View(task) == Internal(service.EnvOf(task), old(service.View(task)), step)
    ensures Invariant(service.View(task)) && forall other :: other != task ==> service.View(other) == old(service.View(other))
  {
    hide Invariant, CallerCancelled, CancelDelivered, Fault, ExecutionDone;
    match step {
      case DoCallerCancelled(id, saved, at) => service.AbandonExecution(task, id, saved, at);
      case DoCancelDelivered(id) => service.DeliverCancel(task, id);
      case DoFault(id) => service.RaiseFault(task, id);
      case DoDone(id) => service.OnExecutionDone(task, id);
    }
  }

  method Execute(service: Service, task: TaskId, step: Step) returns (reply: Reply)
    requires Invariant(service.View(task)) && Enabled(service.View(task), step) && !step.DoRestart?
    modifies service
    ensures (service.View(task), reply) == Answer(service.EnvOf(task), old(service.View(task)), step)
    ensures Invariant(service.View(task)) && forall other :: other != task ==> service.View(other) == old(service.View(other))
  {
    hide Invariant, Enabled, Internal;
    if Suspends(step) || Commits(step) {
      reply := Request(service, task, step);
    } else if Manages(step) {
      reply := Management(service, task, step);
    } else {
      if Works(step) {
        Work(service, task, step);
      } else {
        Ending(service, task, step);
      }
      reply := Accepted;
      hide *;
      BackgroundAnswer(service.EnvOf(task), old(service.View(task)), step);
    }
  }

  lemma BackgroundAnswer(env: Env, s: TaskState, step: Step)
    requires Enabled(s, step) && !Suspends(step) && !Commits(step) && !Manages(step)
    ensures Answer(env, s, step) == (Internal(env, s, step), Accepted)
  {
    hide Enabled, Internal;
  }

  // ----- Many calls ------------------------------------------------------------

  lemma OwnStep(env: Env, s: TaskState, task: TaskId, calls: seq<Call>)
    requires calls != [] && Feasible(env, s, Own(task, calls))
    ensures Feasible(env, s, StepsOf(task, calls[0]))
    ensures var next := Run(env, s, StepsOf(task, calls[0]));
            && Feasible(env, next, Own(task, calls[1..]))
            && Run(env, s, Own(task, calls)) == Run(env, next, Own(task, calls[1..]))
  {
    hide Enabled, Next;
    var steps, rest := StepsOf(task, calls[0]), Own(task, calls[1..]);
    if steps == [] {
      assert steps + rest == rest;
    } else {
      assert (steps + rest)[1..] == rest && steps[1..] == [];
    }
  }

  method Perform(service: Service, call: Call)
    requires Proper(call)
    requires forall task :: Invariant(service.View(task)) && Feasible(service.EnvOf(task), service.View(task), StepsOf(task, call))
    modifies service
    ensures forall task :: Invariant(service.View(task))
    ensures forall task :: service.View(task) == Run(service.EnvOf(task), old(service.View(task)), StepsOf(task, call))
  {
    hide Invariant, Enabled, Answer, Restart;
    match call {
      case On(task, step) =>
        assert Feasible(service.EnvOf(task), service.View(task), StepsOf(task, call));
        var reply := Execute(service, task, step);
        assert [step][1..] == [];
      case NewProcess(at) =>
        service.RestartProcess(at);
        forall task
          ensures Run(service.EnvOf(task), old(service.View(task)), StepsOf(task, call)) == Restart(old(service.View(task)), at)
        {
          RestartRun(service.EnvOf(task), old(service.View(task)), at);
        }
    }
  }

  lemma RestartRun(env: Env, s: TaskState, at: int)
    ensures Feasible(env, s, [DoRestart(at)]) && Run(env, s, [DoRestart(at)]) == Restart(s, at)
  {
    hide Restart;
    assert [DoRestart(at)][1..] == [];
  }

  /** Every task goes through its own calls, in their order, and through every restart: no call on another task shows. */
  method PerformAll(service: Service, calls: seq<Call>)
    requires forall i :: 0 <= i < |calls| ==> Proper(calls[i])
    requires forall task :: Invariant(service.View(task)) && Feasible(service.EnvOf(task), service.View(task), Own(task, calls))
    modifies service
    ensures forall task :: Invariant(service.View(task))
    ensures forall task :: service.View(task) == Run(service.EnvOf(task), old(service.View(task)), Own(task, calls))
  {
    hide Invariant, Feasible, Run, Own, StepsOf, Proper;
    assert calls[0..] == calls;
    for i := 0 to |calls|
      invariant forall task :: Invariant(service.View(task)) && Feasible(service.EnvOf(task), service.View(task), Own(task, calls[i..]))
      invariant forall task ::
        Run(service.EnvOf(task), service.View(task), Own(task, calls[i..])) == Run(service.EnvOf(task), old(service.View(task)), Own(task, calls))
    {
      forall task
        ensures Feasible(service.EnvOf(task), service.View(task), StepsOf(task, calls[i]))
        ensures var next := Run(service.EnvOf(task), service.View(task), StepsOf(task, calls[i]));
                && Feasible(service.EnvOf(task), next, Own(task, calls[i + 1..]))
                && Run(service.EnvOf(task), service.View(task), Own(task, calls[i..])) == Run(service.EnvOf(task), next, Own(task, calls[i + 1..]))
      {
        OwnStep(service.EnvOf(task), service.View(task), task, calls[i..]);
        assert calls[i..][0] == calls[i] && calls[i..][1..] == calls[i + 1..];
      }
      Perform(service, calls[i]);
    }
    forall task
      ensures Run(service.EnvOf(task), service.View(task), Own(task, calls[|calls|..])) == service.View(task)
    {
      NothingRuns(service.EnvOf(task), service.View(task), task, calls[|calls|..]);
    }
  }

  lemma NothingRuns(env: Env, s: TaskState, task: TaskId, calls: seq<Call>)
    requires calls == []
    ensures Feasible(env, s, Own(task, calls)) && Run(env, s, Own(task, calls)) == s
  {
  }

  /** From an empty store, whatever is called on whatever tasks: every stored record is sound and no task saw another. */
  method Serve(settings: Settings, calls: seq<Call>) returns (service: Service)
    requires forall i :: 0 <= i < |calls| ==> Proper(calls[i])
    requires forall task :: Feasible(EnvFor(settings, task), NO_TASK, Own(task, calls))
    ensures fresh(service)
    ensures forall task :: service.View(task) == Run(EnvFor(settings, task), NO_TASK, Own(task, calls))
    ensures forall task :: task in service.store ==> Sound(service.store[task])
  {
    hide Invariant, Feasible, Run, Own, Proper;
    service := new Service(settings);
    assert forall task :: service.EnvOf(task) == EnvFor(settings, task);
    PerformAll(service, calls);
    forall task | task in service.store
      ensures Sound(service.store[task])
    {
      assert service.View(task).record == Some(service.store[task]);
      EveryStoredRecordIsSound(EnvFor(settings, task), Own(task, calls));
    }
  }
}
