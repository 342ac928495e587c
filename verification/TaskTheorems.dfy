/** What holds of a task in every reachable state, over every interleaving. */
module TaskTheorems {
  import opened Wrappers
  import opened TaskRecords
  import opened RecordLaws
  import opened TaskMachine
  import opened TaskInvariants
  import L = UsageLedger

  // ----- Suspended requests ----------------------------------------------------

  /** A request suspended on the way to a dispatch saw a status that allows one. */
  ghost predicate TicketSound(t: Ticket) {
    match t
    case ClarifyWaiting(_, status) => status.Resumable()
    case ResumeResolving(_, seen) => seen.status.Resumable()
    case ResumeInspecting(_, _, prepared, _) => prepared.status.Resumable()
    case _ => true
  }

  ghost predicate TicketsSound(s: TaskState) {
    forall key :: key in s.waiting ==> TicketSound(s.waiting[key])
  }

  ghost predicate Invariant(s: TaskState) {
    Inv(s) && TicketsSound(s)
  }

  lemma PreparedFrame(r: Record, request: Option<ClarifyRequest>, resolved: Resolved, facts: Findings, at: int)
    requires ResumeDraft(r, request, resolved, facts, at).Ok?
    ensures var b := ResumeDraft(r, request, resolved, facts, at).value;
            b.status == r.status && b.executionId == r.executionId
  {
    if request.Some? {
      ApplyInputFrame(r, request.value, resolved, facts, at);
    }
  }

  /** The steps that only park or re-park a request. */
  predicate Suspends(step: Step) {
    step.DoClarifyStart? || step.DoResumeStart? || step.DoResumeResolve? || step.DoEditStart? || step.DoLinkStart?
  }

  /** The steps that take a request up again after its last await, and creation. */
  predicate Commits(step: Step) {
    step.DoCreate? || step.DoClarifyFinish? || step.DoResumeFinish? || step.DoEditFinish? || step.DoLinkFinish?
  }

  predicate Manages(step: Step) {
    step.DoConfirm? || step.DoArchive? || step.DoRestore? || step.DoDelete? || step.DoCancel?
  }

  predicate Works(step: Step) {
    step.DoExecutionStart? || step.DoReserve? || step.DoSettle? || step.DoRunReturns? || step.DoPersist?
  }

  predicate Ends(step: Step) {
    step.DoCallerCancelled? || step.DoCancelDelivered? || step.DoFault? || step.DoDone? || step.DoRestart?
  }

  lemma SuspendKeeps(env: Env, s: TaskState, step: Step)
    requires Enabled(s, step) && Suspends(step)
    ensures var t := Next(env, s, step);
            && t == s.(waiting := t.waiting)
            && (TicketsSound(s) ==> TicketsSound(t))
  {
    if step.DoResumeResolve? && step.resolved.Some? {
      var seen, request := s.waiting[step.key].seen, s.waiting[step.key].request;
      if ResumeDraft(seen, request, step.resolved.value, step.facts, step.at).Ok? {
        PreparedFrame(seen, request, step.resolved.value, step.facts, step.at);
      }
    }
  }

  lemma CommitTickets(env: Env, s: TaskState, step: Step)
    requires Enabled(s, step) && Commits(step) && TicketsSound(s)
    ensures TicketsSound(Next(env, s, step))
  {
  }

  lemma ManagementTickets(env: Env, s: TaskState, step: Step)
    requires Enabled(s, step) && Manages(step)
    ensures Next(env, s, step).waiting == s.waiting
  {
  }

  lemma WorkTickets(env: Env, s: TaskState, step: Step)
    requires Enabled(s, step) && Works(step)
    ensures Next(env, s, step).waiting == s.waiting
  {
  }

  lemma EndTickets(env: Env, s: TaskState, step: Step)
    requires Enabled(s, step) && Ends(step)
    ensures var w := Next(env, s, step).waiting; w == s.waiting || w == map[]
  {
  }

  // ----- One step, any run -----------------------------------------------------

  lemma CommitKeeps(env: Env, s: TaskState, step: Step)
    requires Invariant(s) && Enabled(s, step) && Commits(step)
    ensures Inv(Next(env, s, step)) && Progress(s, Next(env, s, step))
  {
    if step.DoCreate? {
      CreateKeeps(s, step.actor, step.create, step.disk);
    } else if step.DoClarifyFinish? {
      assert TicketSound(s.waiting[step.key]);
      ClarifyFinishKeeps(s, step.key, step.resolved, step.facts, step.disk);
    } else if step.DoResumeFinish? {
      assert TicketSound(s.waiting[step.key]);
      ResumeFinishKeeps(s, step.key, step.checkpoint, step.disk);
    } else if step.DoEditFinish? {
      EditFinishKeeps(s, step.key, step.checkStatus, step.saved, step.at);
    } else {
      LinkFinishKeeps(s, step.key, step.confirmed, step.saved, step.at);
    }
  }

  lemma ManagementKeeps(env: Env, s: TaskState, step: Step)
    requires Inv(s) && Enabled(s, step) && Manages(step)
    ensures var t := Next(env, s, step);
            Inv(t) && Progress(s, t)
  {
    if step.DoConfirm? {
      ConfirmKeeps(s, step.actor, step.claimed, step.note, step.saved, step.at);
    } else if step.DoArchive? {
      ArchiveKeeps(s, step.actor, step.saved, step.at);
    } else if step.DoRestore? {
      RestoreKeeps(s, step.actor, step.saved, step.at);
    } else if step.DoDelete? {
      DeleteKeeps(s, step.actor, step.previewed, step.saved, step.at);
    } else {
      CancelKeeps(s, step.actor, step.saved, step.at);
    }
  }

  lemma WorkKeeps(env: Env, s: TaskState, step: Step)
    requires Inv(s) && Enabled(s, step) && Works(step)
    ensures var t := Next(env, s, step);
            Inv(t) && Progress(s, t)
  {
    if step.DoExecutionStart? {
      ExecutionStartKeeps(s, step.id);
    } else if step.DoReserve? {
      ReserveKeeps(env, s, step.id, step.phase, step.saved);
    } else if step.DoSettle? {
      SettleKeeps(env, s, step.id, step.settlement, step.saved);
    } else if step.DoRunReturns? {
      RunReturnsKeeps(env, s, step.id, step.outcome, step.at);
    } else {
      PersistTerminalKeeps(env, s, step.id, step.saved);
    }
  }

  lemma EndKeeps(env: Env, s: TaskState, step: Step)
    requires Inv(s) && Enabled(s, step) && Ends(step)
    ensures var t := Next(env, s, step);
            Inv(t) && Progress(s, t)
  {
    if step.DoCallerCancelled? {
      CallerCancelledKeeps(s, step.id, step.saved, step.at);
    } else if step.DoCancelDelivered? {
      HasRecord(s, step.id);
      PhaseKeeps(s, step.id, Returned(false));
    } else if step.DoFault? {
      HasRecord(s, step.id);
      PhaseKeeps(s, step.id, Returned(true));
    } else if step.DoDone? {
      ExecutionDoneKeeps(s, step.id);
    } else {
      RestartKeeps(s, step.at);
    }
  }

  /** Every step keeps the invariant and only lets the record grow. */
  lemma StepKeeps(env: Env, s: TaskState, step: Step)
    requires Invariant(s) && Enabled(s, step)
    ensures Invariant(Next(env, s, step)) && Progress(s, Next(env, s, step))
  {
    if Suspends(step) {
      SuspendKeeps(env, s, step);
      WaitingIrrelevant(s, Next(env, s, step).waiting);
    } else if Commits(step) {
      CommitTickets(env, s, step);
      CommitKeeps(env, s, step);
    } else if Manages(step) {
      ManagementTickets(env, s, step);
      ManagementKeeps(env, s, step);
    } else if Works(step) {
      WorkTickets(env, s, step);
      WorkKeeps(env, s, step);
    } else {
      EndTickets(env, s, step);
      EndKeeps(env, s, step);
    }
  }

  /**
   No lost update: over any run, whatever a record held - confirmations, change links,
   draft versions, management events, its whole trail, its consumption - is still there.
   */
  lemma {:induction false} NothingIsLost(env: Env, s: TaskState, steps: seq<Step>)
    requires Invariant(s) && Feasible(env, s, steps)
    ensures Invariant(Run(env, s, steps)) && Progress(s, Run(env, s, steps))
    decreases |steps|
  {
    Unchanged(s);
    if steps != [] {
      var next := Next(env, s, steps[0]);
      StepKeeps(env, s, steps[0]);
      NothingIsLost(env, next, steps[1..]);
      ProgressTransitive(s, next, Run(env, s, steps));
    }
  }

  /** Every record ever stored is sound: versions, confirmations, lifecycle flags and trail agree. */
  lemma EveryStoredRecordIsSound(env: Env, steps: seq<Step>)
    requires Feasible(env, NO_TASK, steps)
    ensures var s := Run(env, NO_TASK, steps);
            s.record.Some? ==> Sound(s.record.value)
  {
    InvAtStart();
    NothingIsLost(env, NO_TASK, steps);
  }

  /** Stored consumption never falls below the number of requests sent, and never decreases. */
  lemma DurableAccounting(env: Env, earlier: seq<Step>, later: seq<Step>)
    requires Feasible(env, NO_TASK, earlier) && Feasible(env, Run(env, NO_TASK, earlier), later)
    ensures var s := Run(env, NO_TASK, earlier);
            var t := Run(env, s, later);
            && (s.record.Some? ==> t.record.Some? && s.record.value.UsedRequests() <= t.record.value.UsedRequests())
            && s.sent <= t.sent
            && (t.record.Some? ==> t.sent <= t.record.value.UsedRequests())
  {
    InvAtStart();
    NothingIsLost(env, NO_TASK, earlier);
    NothingIsLost(env, Run(env, NO_TASK, earlier), later);
  }

  /** Once a cancellation is saved the task stays cancelled: no late result is ever published. */
  lemma CancelledForever(env: Env, s: TaskState, steps: seq<Step>)
    requires Invariant(s) && Feasible(env, s, steps)
    requires s.record.Some? && s.record.value.status.Cancelled?
    ensures Run(env, s, steps).record.Some? && Run(env, s, steps).record.value.status.Cancelled?
  {
    NothingIsLost(env, s, steps);
  }

  // ----- Ownership -------------------------------------------------------------

  /** At most one execution is neither finished nor told to stop. */
  lemma AtMostOneInCharge(env: Env, steps: seq<Step>, a: ExecutionId, b: ExecutionId)
    requires Feasible(env, NO_TASK, steps)
    requires var s := Run(env, NO_TASK, steps);
             a in s.executions && b in s.executions && s.executions[a].InCharge() && s.executions[b].InCharge()
    ensures a == b
  {
    InvAtStart();
    NothingIsLost(env, NO_TASK, steps);
  }

  predicate ActsFor(step: Step, id: ExecutionId) {
    match step
    case DoExecutionStart(e) => e == id
    case DoReserve(e, _, _) => e == id
    case DoSettle(e, _, _) => e == id
    case DoRunReturns(e, _, _) => e == id
    case DoPersist(e, _) => e == id
    case DoFault(e) => e == id
    case DoCallerCancelled(e, _, _) => e == id
    case _ => false
  }

  /** While an execution is in charge, only its own steps, a cancellation or a restart touch the record. */
  lemma OwnerIsExclusive(env: Env, s: TaskState, id: ExecutionId, step: Step)
    requires Invariant(s) && Enabled(s, step)
    requires id in s.executions && s.executions[id].InCharge()
    requires !ActsFor(step, id) && !step.DoCancel? && !step.DoRestart?
    ensures Next(env, s, step).record == s.record
    ensures id in Next(env, s, step).executions && Next(env, s, step).executions[id] == s.executions[id]
  {
    if Suspends(step) {
      SuspendKeeps(env, s, step);
    } else if Commits(step) {
      CommitRefusedWhileOwned(env, s, id, step);
    } else if Manages(step) {
      ManagementRefusedWhileOwned(env, s, id, step);
    } else if Works(step) {
      OthersWorkInVain(env, s, id, step);
    }
  }

  lemma CommitRefusedWhileOwned(env: Env, s: TaskState, id: ExecutionId, step: Step)
    requires Invariant(s) && Enabled(s, step) && Commits(step)
    requires id in s.executions && s.executions[id].InCharge()
    ensures var t := Next(env, s, step); t == s.(waiting := t.waiting)
  {
    var r := s.record.value;
    assert r.status.InFlight() && r.Active() && s.Live();
    if step.DoClarifyFinish? || step.DoResumeFinish? {
      assert TicketSound(s.waiting[step.key]);
    }
  }

  lemma ManagementRefusedWhileOwned(env: Env, s: TaskState, id: ExecutionId, step: Step)
    requires Invariant(s) && Enabled(s, step) && Manages(step) && !step.DoCancel?
    requires id in s.executions && s.executions[id].InCharge()
    ensures Next(env, s, step) == s
  {
    var r := s.record.value;
    assert r.status.InFlight() && r.Active() && s.Live();
  }

  lemma OthersWorkInVain(env: Env, s: TaskState, id: ExecutionId, step: Step)
    requires Invariant(s) && Enabled(s, step) && Works(step) && !ActsFor(step, id)
    requires id in s.executions && s.executions[id].InCharge()
    ensures var t := Next(env, s, step);
            t.record == s.record && id in t.executions && t.executions[id] == s.executions[id]
  {
    assert s.Owns(id) && step.id != id;
  }

  function Generation(s: TaskState): nat {
    if s.record.Some? then s.record.value.runGeneration else 0
  }

  /** Every execution id ever issued comes with a strictly higher run generation. */
  lemma {:induction false} GenerationsIncrease(env: Env, s: TaskState, steps: seq<Step>)
    requires Invariant(s) && Feasible(env, s, steps)
    ensures Generation(s) <= Generation(Run(env, s, steps))
    ensures Run(env, s, steps).issued != s.issued ==> Generation(s) < Generation(Run(env, s, steps))
    decreases |steps|
  {
    if steps != [] {
      var next := Next(env, s, steps[0]);
      StepKeeps(env, s, steps[0]);
      IssuingRaisesGeneration(env, s, steps[0]);
      GenerationsIncrease(env, next, steps[1..]);
    }
  }

  lemma DispatchIssues(s: TaskState, r: Record, disk: Disk)
    requires r.runGeneration == Generation(s)
    ensures var t := SaveAndDispatch(s, r, disk).0;
            t.issued != s.issued ==> Generation(t) == Generation(s) + 1
  {
  }

  lemma IssuingRaisesGeneration(env: Env, s: TaskState, step: Step)
    requires Invariant(s) && Enabled(s, step)
    ensures var t := Next(env, s, step);
            t.issued != s.issued ==> Generation(s) < Generation(t)
  {
    hide Sound, Grows, Clarified, Resumed;
    if Suspends(step) {
      SuspendKeeps(env, s, step);
    } else if step.DoCreate? {
      DispatchIssues(s, NewTask(step.actor, step.create, step.disk.at), step.disk);
    } else if step.DoClarifyFinish? {
      var ticket, rest := s.waiting[step.key], s.Drop(step.key);
      if step.resolved.Some? {
        match Clarified(s.record.value, ticket.clarification, step.resolved.value, step.facts, step.disk.at)
        case Err(_) =>
        case Ok(updated) =>
          ClarifiedGeneration(s.record.value, ticket.clarification, step.resolved.value, step.facts, step.disk.at);
          DispatchIssues(rest, updated, step.disk);
      }
    } else if step.DoResumeFinish? {
      var ticket, rest := s.waiting[step.key], s.Drop(step.key);
      ResumedGeneration(s.record.value, ticket.prepared, ticket.request.Some?, ticket.resolved, step.disk.at);
      DispatchIssues(rest, Resumed(s.record.value, ticket.prepared, ticket.request.Some?, ticket.resolved, step.disk.at), step.disk);
    } else if Manages(step) {
      ManagementIssuesNothing(env, s, step);
    } else if Works(step) {
      WorkIssuesNothing(env, s, step);
    }
  }

  lemma ManagementIssuesNothing(env: Env, s: TaskState, step: Step)
    requires Enabled(s, step) && Manages(step)
    ensures Next(env, s, step).issued == s.issued
  {
  }

  lemma WorkIssuesNothing(env: Env, s: TaskState, step: Step)
    requires Enabled(s, step) && Works(step)
    ensures Next(env, s, step).issued == s.issued
  {
  }

  lemma ClarifiedGeneration(r: Record, request: ClarifyRequest, resolved: Resolved, facts: Findings, at: int)
    requires Clarified(r, request, resolved, facts, at).Ok?
    ensures Clarified(r, request, resolved, facts, at).value.runGeneration == r.runGeneration
  {
    var bound := r.(authorizedApplication := resolved.applicationId);
    ApplyInputFrame(bound, request, resolved, facts, at);
    ApplyInputVersionLaws(ApplyInput(bound, request, resolved, facts, at).value);
  }

  lemma ResumedGeneration(latest: Record, prepared: Record, hasRequest: bool, resolved: Resolved, at: int)
    ensures var b := Resumed(latest, prepared, hasRequest, resolved, at);
            b.runGeneration == latest.runGeneration && b.executionId == latest.executionId
  {
  }
}
