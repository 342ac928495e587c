/**
 Supervision and racing dispatch: no record is left in flight without a live execution
 or a recorded problem, and a sighting of the record starts at most one execution.
 */
module TaskSupervision {
  import opened Numbers
  import opened Wrappers
  import opened TaskRecords
  import opened RecordLaws
  import opened TaskMachine
  import opened TaskInvariants
  import opened TaskTheorems
  import opened TaskEffects
  import L = UsageLedger
  import Text

  // ----- Supervision -----------------------------------------------------------

  /** Somebody answers for the record: its owner still runs or has just failed, or a problem is on file. */
  ghost predicate Watched(s: TaskState) {
    || s.problem.Some?
    || (s.record.Some? && s.current == Some(s.record.value.executionId) && s.record.value.executionId in s.executions
        && (s.executions[s.record.value.executionId].InCharge()
            || s.executions[s.record.value.executionId].phase == Returned(true)))
  }

  ghost predicate Supervised(s: TaskState) {
    s.record.Some? && s.record.value.status.InFlight() ==> Watched(s)
  }

  /** A clarification goes on to its dispatch: the record is as it was seen, and its inputs are in order. */
  predicate ClarifyPasses(s: TaskState, key: nat, resolved: Option<Resolved>, facts: Findings, at: int)
    requires key in s.waiting && s.waiting[key].ClarifyWaiting? && s.record.Some?
  {
    var ticket, r := s.waiting[key], s.record.value;
    && resolved.Some? && r.Active() && r.status == ticket.seenStatus
    && Clarified(r, ticket.clarification, resolved.value, facts, at).Ok?
  }

  /** A resume goes on to its dispatch: checkpoint, owner and status are as it saw them, and nothing runs. */
  predicate ResumePasses(s: TaskState, key: nat, checkpoint: Option<Checkpoint>)
    requires key in s.waiting && s.waiting[key].ResumeInspecting? && s.record.Some?
  {
    var ticket, latest := s.waiting[key], s.record.value;
    && Continuable(checkpoint, ticket.prepared) && latest.Active() && !s.Live()
    && latest.executionId == ticket.prepared.executionId && latest.status == ticket.prepared.status
  }

  /** The guards in front of a dispatch. */
  predicate Admitted(s: TaskState, step: Step)
    requires Enabled(s, step)
  {
    match step
    case DoCreate(_, _, _) => true
    case DoClarifyFinish(key, resolved, facts, disk) => ClarifyPasses(s, key, resolved, facts, disk.at)
    case DoResumeFinish(key, checkpoint, _) => ResumePasses(s, key, checkpoint)
    case _ => false
  }

  /** A step is accepted by a dispatch exactly when its guards pass and both saves succeed. */
  lemma AdmittedAndSaved(env: Env, s: TaskState, step: Step)
    requires Enabled(s, step) && (step.DoCreate? || step.DoClarifyFinish? || step.DoResumeFinish?)
    ensures Answer(env, s, step).1.Accepted? <==> Admitted(s, step) && step.disk.saved && step.disk.begun
  {
    hide Clarified, Resumed, NewTask, Continuable;
  }

  /** The request was saved, but neither its execution nor the compensating failure could be. */
  predicate StrandedOn(disk: Disk) {
    disk.saved && !disk.begun && !disk.compensated
  }

  /**
   The two ways a task escapes supervision: a dispatch whose compensating save fails too,
   and a run that reports an in-flight status as its result.
   */
  ghost predicate Escapes(env: Env, s: TaskState, step: Step)
    requires Enabled(s, step)
  {
    match step
    case DoCreate(_, _, disk) => StrandedOn(disk) && !Watched(s)
    case DoClarifyFinish(_, _, _, disk) => Admitted(s, step) && StrandedOn(disk) && !Watched(s)
    case DoResumeFinish(_, _, disk) => Admitted(s, step) && StrandedOn(disk) && !Watched(s)
    case DoPersist(id, saved) => saved && s.executions[id].phase.result.status.InFlight() && s.problem.None?
    case _ => false
  }

  lemma DispatchSupervision(s: TaskState, r: Record, disk: Disk)
    requires Inv(s) && NoneInCharge(s) && FreshId(s, disk.freshId) && r.status.InFlight()
    requires s.record.Some? ==> !s.record.value.status.InFlight() && r.executionId == s.record.value.executionId
    requires s.record.None? ==> s.current.None?
    ensures Supervised(SaveAndDispatch(s, r, disk).0) <==> !(StrandedOn(disk) && !Watched(s))
  {
    if disk.saved && !disk.begun {
      var t := SaveAndDispatch(s, r, disk).0;
      assert t.executions == s.executions && t.current == s.current && t.problem == s.problem;
    }
  }

  lemma CommitSupervision(env: Env, s: TaskState, step: Step)
    requires Invariant(s) && Supervised(s) && Enabled(s, step) && Commits(step)
    ensures Supervised(Next(env, s, step)) <==> !Escapes(env, s, step)
  {
    hide Invariant, ClarifyFinish, ResumeFinish, Watched;
    if step.DoCreate? {
      CreateSupervision(s, step.actor, step.create, step.disk);
    } else if step.DoClarifyFinish? {
      ClarifySupervision(env, s, step);
    } else if step.DoResumeFinish? {
      ResumeSupervision(env, s, step);
    } else {
      EditLinkSupervision(env, s, step);
    }
  }

  lemma CreateSupervision(s: TaskState, actor: Actor, create: CreateRequest, disk: Disk)
    requires Invariant(s) && Enabled(s, DoCreate(actor, create, disk))
    ensures Supervised(CreateTask(s, actor, create, disk).0) <==> !(StrandedOn(disk) && !Watched(s))
  {
    hide SaveAndDispatch, StrandedOn, Watched;
    DispatchSupervision(s, NewTask(actor, create, disk.at), disk);
  }

  lemma EditLinkSupervision(env: Env, s: TaskState, step: Step)
    requires Supervised(s) && Enabled(s, step) && (step.DoEditFinish? || step.DoLinkFinish?)
    ensures Supervised(Next(env, s, step)) && !Escapes(env, s, step)
  {
    hide Next, Enabled;
    EditLinkEffect(env, s, step);
  }

  lemma QuietSupervision(s: TaskState, t: TaskState)
    requires Supervised(s) && t == s.(waiting := t.waiting)
    ensures Supervised(t)
  {
  }

  lemma ClarifySupervision(env: Env, s: TaskState, step: Step)
    requires Invariant(s) && Supervised(s) && Enabled(s, step) && step.DoClarifyFinish?
    ensures Supervised(Next(env, s, step)) <==> !Escapes(env, s, step)
  {
    hide Clarified, SaveAndDispatch, Inv, Watched;
    var ticket, r, rest := s.waiting[step.key], s.record.value, s.Drop(step.key);
    assert TicketSound(ticket);
    QuietWatched(s, rest);
    if ClarifyPasses(s, step.key, step.resolved, step.facts, step.disk.at) {
      var updated := Clarified(r, ticket.clarification, step.resolved.value, step.facts, step.disk.at).value;
      RestReady(s, rest);
      ClarifiedLaws(r, ticket.clarification, step.resolved.value, step.facts, step.disk.at);
      DispatchSupervision(rest, updated, step.disk);
    }
  }

  lemma QuietWatched(s: TaskState, rest: TaskState)
    requires rest == s.(waiting := rest.waiting)
    ensures Watched(rest) <==> Watched(s)
  {
  }

  /** Nobody works on a record that has stopped, and dropping a ticket changes nothing of that. */
  lemma RestReady(s: TaskState, rest: TaskState)
    requires Invariant(s) && s.record.Some? && !s.record.value.status.InFlight() && rest == s.(waiting := rest.waiting)
    ensures Inv(rest) && NoneInCharge(rest) && Sound(s.record.value)
  {
    WaitingIrrelevant(s, rest.waiting);
    QuietWhenSettled(rest);
  }

  lemma ResumeSupervision(env: Env, s: TaskState, step: Step)
    requires Invariant(s) && Supervised(s) && Enabled(s, step) && step.DoResumeFinish?
    ensures Supervised(Next(env, s, step)) <==> !Escapes(env, s, step)
  {
    hide Resumed, SaveAndDispatch, Inv, Watched, Continuable;
    var ticket, latest, rest := s.waiting[step.key], s.record.value, s.Drop(step.key);
    assert TicketSound(ticket);
    QuietWatched(s, rest);
    if ResumePasses(s, step.key, step.checkpoint) {
      RestReady(s, rest);
      ResumedLaws(latest, ticket.prepared, ticket.request.Some?, ticket.resolved, step.disk.at);
      DispatchSupervision(rest, Resumed(latest, ticket.prepared, ticket.request.Some?, ticket.resolved, step.disk.at), step.disk);
    }
  }

  lemma ManagementSupervision(env: Env, s: TaskState, step: Step)
    requires Invariant(s) && Supervised(s) && Enabled(s, step) && Manages(step)
    ensures Supervised(Next(env, s, step))
  {
    hide Invariant, Next, Enabled, Manages, SameMaterial;
    if s.record.Some? {
      ManagementEffect(env, s, step);
    } else {
      NothingManaged(env, s, step);
    }
  }

  lemma WorkSupervision(env: Env, s: TaskState, step: Step)
    requires Invariant(s) && Supervised(s) && Enabled(s, step) && Works(step)
    ensures Supervised(Next(env, s, step)) <==> !Escapes(env, s, step)
  {
    hide Next, Invariant, OnlyExecution, OnlyUsage, Answers, Supervised;
    WorkEffect(env, s, step);
    if Stores(s, step) {
      ReadyResult(s, step.id);
      StoredSupervision(s, Next(env, s, step), step.id);
    } else {
      WorkedSupervision(s, Next(env, s, step), step.id);
      if step.DoPersist? && step.saved {
        NotOwnedNotCharged(s, step.id);
      }
    }
  }

  lemma WorkedSupervision(s: TaskState, t: TaskState, id: ExecutionId)
    requires Supervised(s) && OnlyExecution(s, t, id) && OnlyUsage(s, t) && Answers(s, t, id)
    ensures Supervised(t)
  {
  }

  /** The owner is done: the record it stored must not be in flight, or there must be a problem on file. */
  lemma StoredSupervision(s: TaskState, t: TaskState, id: ExecutionId)
    requires OnlyExecution(s, t, id) && t.executions[id].phase == Returned(false) && t.problem == s.problem
    requires t.record.Some? && t.record.value.executionId == id
    ensures Supervised(t) <==> !(t.record.value.status.InFlight() && s.problem.None?)
  {
  }

  /** Only the owner of a record is in charge of it. */
  lemma NotOwnedNotCharged(s: TaskState, id: ExecutionId)
    requires Invariant(s) && id in s.executions && !s.Owns(id)
    ensures !s.executions[id].InCharge()
  {
    hide Registered, OwnerTracks, Stored;
  }

  lemma EndSupervision(env: Env, s: TaskState, step: Step)
    requires Invariant(s) && Supervised(s) && Enabled(s, step) && Ends(step)
    ensures Supervised(Next(env, s, step))
  {
    hide Invariant, CallerCancelled, ExecutionDone, Restart, Supervised, CancelDelivered, Fault;
    if step.DoCallerCancelled? {
      AbandonedSupervision(s, step.id, step.saved, step.at);
    } else if step.DoDone? {
      DoneSupervision(s, step.id);
    } else if step.DoRestart? {
      RestartSupervision(s, step.at);
    } else {
      StoppedSupervision(s, step.id);
    }
  }

  lemma AbandonedSupervision(s: TaskState, id: ExecutionId, saved: bool, at: int)
    requires Supervised(s) && id in s.issued
    ensures Supervised(CallerCancelled(s, id, saved, at))
  {
  }

  lemma DoneSupervision(s: TaskState, id: ExecutionId)
    requires Invariant(s) && Supervised(s) && id in s.executions && s.executions[id].phase.Returned?
    ensures Supervised(ExecutionDone(s, id))
  {
    hide Sound, Grows;
  }

  lemma RestartSupervision(s: TaskState, at: int)
    ensures Supervised(Restart(s, at))
  {
  }

  /** A delivered cancellation ends nobody in charge; a fault is on its way to becoming a problem. */
  lemma StoppedSupervision(s: TaskState, id: ExecutionId)
    requires Supervised(s) && id in s.executions
    ensures s.executions[id].cancelRequested && !s.executions[id].phase.Returned? ==> Supervised(CancelDelivered(s, id))
    ensures Supervised(Fault(s, id))
  {
  }

  /** Exactly the two escapes lose supervision; every other step keeps it. */
  lemma SupervisionExactly(env: Env, s: TaskState, step: Step)
    requires Invariant(s) && Supervised(s) && Enabled(s, step)
    ensures Supervised(Next(env, s, step)) <==> !Escapes(env, s, step)
  {
    if Suspends(step) {
      SuspendKeeps(env, s, step);
      QuietSupervision(s, Next(env, s, step));
    } else if Commits(step) {
      CommitSupervision(env, s, step);
    } else if Manages(step) {
      ManagementSupervision(env, s, step);
    } else if Works(step) {
      WorkSupervision(env, s, step);
    } else {
      EndSupervision(env, s, step);
    }
  }

  ghost predicate NeverEscapes(env: Env, s: TaskState, steps: seq<Step>)
    requires Feasible(env, s, steps)
    decreases |steps|
  {
    steps == [] || (!Escapes(env, s, steps[0]) && NeverEscapes(env, Next(env, s, steps[0]), steps[1..]))
  }

  /** A task nobody stranded is supervised in every state of every run. */
  lemma {:induction false} AlwaysSupervised(env: Env, s: TaskState, steps: seq<Step>)
    requires Invariant(s) && Supervised(s) && Feasible(env, s, steps) && NeverEscapes(env, s, steps)
    ensures Supervised(Run(env, s, steps))
    decreases |steps|
  {
    if steps != [] {
      StepKeeps(env, s, steps[0]);
      SupervisionExactly(env, s, steps[0]);
      AlwaysSupervised(env, Next(env, s, steps[0]), steps[1..]);
    }
  }

  /** A restart leaves nothing in flight, whatever was stranded before it. */
  lemma NothingInFlightAfterRestart(env: Env, s: TaskState, at: int)
    requires Invariant(s)
    ensures var t := Next(env, s, DoRestart(at));
            && Supervised(t) && t.executions == map[]
            && (t.record.Some? ==> !t.record.value.status.InFlight() && t.record.value.executionId == s.record.value.executionId)
  {
  }

  /** First escape, reached from nothing: the request was saved and no later save succeeded. */
  lemma StrandedAtCreation(env: Env, actor: Actor, request: CreateRequest, at: int)
    ensures var step := DoCreate(actor, request, Disk(true, false, false, "e", at));
            Enabled(NO_TASK, step) && !Supervised(Next(env, NO_TASK, step))
  {
  }

  /** What a returning run holds ready to be stored. */
  lemma ReturnedResult(env: Env, s: TaskState, id: ExecutionId, outcome: RunOutcome, at: int)
    requires Inv(s) && id in s.executions && s.executions[id].phase.Working? && s.executions[id].InCharge()
    ensures var t := RunReturns(env, s, id, outcome, at);
            && t.record == s.record && t.problem == s.problem && id in t.executions && t.executions[id].InCharge()
            && t.executions[id].phase.Saving? && t.executions[id].phase.result.status == OutcomeStatus(outcome)
  {
    hide Finished, Grows, SameInputs, L.CostEstimate;
    var work := s.executions[id].phase;
    assert Tracks(s.record.value, s.executions[id]);
    var payload := L.AsDict(work.account, env.budget, env.LedgerId(id));
    SameRun(work.snapshot, s.record.value, outcome, payload, at);
    assert Finished(work.snapshot, outcome, payload, at) == Finished(s.record.value, outcome, payload, at);
    FinishedLaws(s.record.value, outcome, payload, at);
  }

  lemma StoringAnInFlightResult(env: Env, s: TaskState, id: ExecutionId)
    requires Inv(s) && id in s.executions && s.executions[id].phase.Saving? && s.executions[id].InCharge()
    requires s.executions[id].phase.result.status.InFlight() && s.problem.None?
    ensures !Supervised(PersistTerminal(env, s, id, true))
  {
    var t := PersistTerminal(env, s, id, true);
    assert Tracks(s.record.value, s.executions[id]);
    assert t.record.value.executionId == id && t.executions[id].phase == Returned(false);
  }

  /** Second escape, open to every run: it reports RUNNING as its result and that result is stored. */
  lemma StrandedByItsResult(env: Env, s: TaskState, id: ExecutionId, draft: Option<Draft>, events: seq<Event>, at: int)
    requires Invariant(s) && id in s.executions && s.executions[id].phase.Working? && s.executions[id].InCharge() && s.problem.None?
    ensures var returned := RunReturns(env, s, id, Completed(Running, draft, events), at);
            returned.executions[id].phase.Saving? && !Supervised(PersistTerminal(env, returned, id, true))
  {
    ReturnedResult(env, s, id, Completed(Running, draft, events), at);
    var returned := RunReturns(env, s, id, Completed(Running, draft, events), at);
    RunReturnsKeeps(env, s, id, Completed(Running, draft, events), at);
    StoringAnInFlightResult(env, returned, id);
  }

  // ----- Racing resumes --------------------------------------------------------

  /** The record has moved past a sighting of this execution id, or is cancelled for good. */
  ghost predicate MovedPast(s: TaskState, seen: ExecutionId) {
    && s.record.Some?
    && (s.record.value.executionId != seen || s.record.value.status.Cancelled?)
    && (seen == NO_EXECUTION || seen in s.issued)
  }

  /** The owner of a record changes only to a fresh execution, or to nobody by cancellation. */
  lemma OwnerChanges(env: Env, s: TaskState, step: Step)
    requires Invariant(s) && Enabled(s, step) && s.record.Some?
    ensures var t := Next(env, s, step);
            t.record.Some?
            && (|| t.record.value.executionId == s.record.value.executionId
                || FreshId(s, t.record.value.executionId)
                || (t.record.value.executionId == NO_EXECUTION && t.record.value.status.Cancelled?))
  {
    if Suspends(step) {
      SuspendKeeps(env, s, step);
    } else if Commits(step) {
      CommitOwner(env, s, step);
    } else if Manages(step) {
      ManagementOwner(env, s, step);
    } else if Works(step) {
      WorkOwner(env, s, step);
    } else {
      EndOwner(env, s, step);
    }
  }

  lemma CommitOwner(env: Env, s: TaskState, step: Step)
    requires Invariant(s) && Enabled(s, step) && Commits(step) && s.record.Some?
    ensures var t := Next(env, s, step);
            t.record.Some? && (t.record.value.executionId == s.record.value.executionId || FreshId(s, t.record.value.executionId))
  {
    hide Invariant, ClarifyFinish, ResumeFinish, EditFinish, LinkFinish;
    if step.DoClarifyFinish? {
      ClarifyOwner(s, step.key, step.resolved, step.facts, step.disk);
    } else if step.DoResumeFinish? {
      ResumeOwner(s, step.key, step.checkpoint, step.disk);
    } else {
      EditLinkEffect(env, s, step);
    }
  }

  lemma DispatchOwner(s: TaskState, r: Record, disk: Disk)
    requires s.record.Some? && r.executionId == s.record.value.executionId && FreshId(s, disk.freshId)
    ensures var t := SaveAndDispatch(s, r, disk).0;
            t.record.Some? && (t.record.value.executionId == r.executionId || t.record.value.executionId == disk.freshId)
  {
  }

  lemma ClarifyOwner(s: TaskState, key: nat, resolved: Option<Resolved>, facts: Findings, disk: Disk)
    requires Invariant(s) && Enabled(s, DoClarifyFinish(key, resolved, facts, disk))
    ensures var t := ClarifyFinish(s, key, resolved, facts, disk).0;
            t.record.Some? && (t.record.value.executionId == s.record.value.executionId || FreshId(s, t.record.value.executionId))
  {
    var ticket, r, rest := s.waiting[key], s.record.value, s.Drop(key);
    assert TicketSound(ticket);
    if resolved.Some? && r.Active() && r.status == ticket.seenStatus {
      match Clarified(r, ticket.clarification, resolved.value, facts, disk.at)
      case Err(_) =>
      case Ok(updated) =>
        ClarifiedLaws(r, ticket.clarification, resolved.value, facts, disk.at);
        DispatchOwner(rest, updated, disk);
    }
  }

  lemma ResumeOwner(s: TaskState, key: nat, checkpoint: Option<Checkpoint>, disk: Disk)
    requires Invariant(s) && Enabled(s, DoResumeFinish(key, checkpoint, disk))
    ensures var t := ResumeFinish(s, key, checkpoint, disk).0;
            t.record.Some? && (t.record.value.executionId == s.record.value.executionId || FreshId(s, t.record.value.executionId))
  {
    var ticket, r, rest := s.waiting[key], s.record.value, s.Drop(key);
    var resumed := Resumed(r, ticket.prepared, ticket.request.Some?, ticket.resolved, disk.at);
    ResumedGeneration(r, ticket.prepared, ticket.request.Some?, ticket.resolved, disk.at);
    DispatchOwner(rest, resumed, disk);
    var t := ResumeFinish(s, key, checkpoint, disk).0;
    assert t == rest || t == SaveAndDispatch(rest, resumed, disk).0;
  }

  lemma ManagementOwner(env: Env, s: TaskState, step: Step)
    requires Enabled(s, step) && Manages(step) && s.record.Some?
    ensures var t := Next(env, s, step);
            t.record.Some?
            && (t.record.value.executionId == s.record.value.executionId
                || (t.record.value.executionId == NO_EXECUTION && t.record.value.status.Cancelled?))
  {
    hide Next, Enabled, Manages;
    ManagementEffect(env, s, step);
  }

  lemma WorkOwner(env: Env, s: TaskState, step: Step)
    requires Invariant(s) && Enabled(s, step) && Works(step) && s.record.Some?
    ensures var t := Next(env, s, step);
            t.record.Some? && t.record.value.executionId == s.record.value.executionId
  {
    hide Next, Invariant;
    WorkEffect(env, s, step);
    if Stores(s, step) {
      ReadyResult(s, step.id);
    }
  }

  lemma EndOwner(env: Env, s: TaskState, step: Step)
    requires Enabled(s, step) && Ends(step) && s.record.Some?
    ensures var t := Next(env, s, step);
            t.record.Some? && t.record.value.executionId == s.record.value.executionId
  {
    hide Next, Enabled, Ends;
    EndEffect(env, s, step);
  }

  lemma {:induction false} MovedPastForever(env: Env, s: TaskState, seen: ExecutionId, steps: seq<Step>)
    requires Invariant(s) && MovedPast(s, seen) && Feasible(env, s, steps)
    ensures MovedPast(Run(env, s, steps), seen)
    decreases |steps|
  {
    if steps != [] {
      StepKeeps(env, s, steps[0]);
      OwnerChanges(env, s, steps[0]);
      MovedPastForever(env, Next(env, s, steps[0]), seen, steps[1..]);
    }
  }

  /** A resume that dispatches moves the record past what it had seen. */
  lemma ResumeMovesPast(env: Env, s: TaskState, key: nat, checkpoint: Option<Checkpoint>, disk: Disk)
    requires Invariant(s) && Enabled(s, DoResumeFinish(key, checkpoint, disk))
    requires ResumeFinish(s, key, checkpoint, disk).1.Accepted?
    ensures MovedPast(ResumeFinish(s, key, checkpoint, disk).0, s.waiting[key].prepared.executionId)
  {
  }

  lemma RefusedOnceMovedPast(s: TaskState, key: nat, checkpoint: Option<Checkpoint>, disk: Disk)
    requires TicketsSound(s) && Enabled(s, DoResumeFinish(key, checkpoint, disk))
    requires MovedPast(s, s.waiting[key].prepared.executionId)
    ensures ResumeFinish(s, key, checkpoint, disk).1 == Refused(NotResumable)
  {
    assert TicketSound(s.waiting[key]);
  }

  /**
   Of all the resumes that saw the same execution id, whatever they saw as status, at most
   one starts an execution - however much happens in between.
   */
  lemma OneResumePerSighting(env: Env, s: TaskState, key: nat, checkpoint: Option<Checkpoint>, disk: Disk, steps: seq<Step>,
                             later: nat, laterCheckpoint: Option<Checkpoint>, laterDisk: Disk)
    requires Invariant(s) && Enabled(s, DoResumeFinish(key, checkpoint, disk))
    requires ResumeFinish(s, key, checkpoint, disk).1.Accepted?
    requires Feasible(env, ResumeFinish(s, key, checkpoint, disk).0, steps)
    requires var u := Run(env, ResumeFinish(s, key, checkpoint, disk).0, steps);
             && Enabled(u, DoResumeFinish(later, laterCheckpoint, laterDisk))
             && u.waiting[later].prepared.executionId == s.waiting[key].prepared.executionId
    ensures var u := Run(env, ResumeFinish(s, key, checkpoint, disk).0, steps);
            ResumeFinish(u, later, laterCheckpoint, laterDisk).1 == Refused(NotResumable)
  {
    var t := ResumeFinish(s, key, checkpoint, disk).0;
    var seen := s.waiting[key].prepared.executionId;
    assert t == Next(env, s, DoResumeFinish(key, checkpoint, disk));
    StepKeeps(env, s, DoResumeFinish(key, checkpoint, disk));
    ResumeMovesPast(env, s, key, checkpoint, disk);
    MovedPastForever(env, t, seen, steps);
    NothingIsLost(env, t, steps);
    RefusedOnceMovedPast(Run(env, t, steps), later, laterCheckpoint, laterDisk);
  }

  // ----- Accepted work ---------------------------------------------------------

  /** A confirmation that was accepted is in every later state of the task, valid or marked. */
  lemma AcceptedConfirmationStays(env: Env, s: TaskState, actor: Actor, claimed: Option<MaterialDigest>, note: string, at: int, steps: seq<Step>)
    requires Invariant(s) && Confirm(s, actor, claimed, note, true, at).1.Accepted?
    requires Feasible(env, Confirm(s, actor, claimed, note, true, at).0, steps)
    ensures var n := |s.record.value.confirmations|;
            var t := Run(env, Confirm(s, actor, claimed, note, true, at).0, steps);
            && t.record.Some? && n < |t.record.value.confirmations|
            && var c := t.record.value.confirmations[n];
            && c.confirmedBy == actor && Some(c.materialHash) == claimed && c.materialVersion == s.record.value.inputVersion
            && (!c.invalidated ==> c.materialVersion == t.record.value.inputVersion && Some(c.materialHash) == t.record.value.CurrentHash())
  {
    var step := DoConfirm(actor, claimed, note, true, at);
    var after := Confirm(s, actor, claimed, note, true, at).0;
    assert after == Next(env, s, step);
    StepKeeps(env, s, step);
    ConfirmedLaws(s.record.value, actor, note, at);
    var n := |s.record.value.confirmations|;
    assert after.record.value.confirmations[n] == Confirmation(actor, s.record.value.inputVersion, claimed.value, Text.Trim(note), false);
    NothingIsLost(env, after, steps);
    var t := Run(env, after, steps).record.value;
    assert t.confirmations[n] == after.record.value.confirmations[n].(invalidated := t.confirmations[n].invalidated);
  }

  /** The same for a change link: once accepted it is never missing again. */
  lemma AcceptedLinkStays(env: Env, s: TaskState, key: nat, at: int, steps: seq<Step>)
    requires Invariant(s) && Enabled(s, DoLinkFinish(key, true, true, at))
    requires LinkFinish(s, key, true, true, at).1.Accepted?
    requires Feasible(env, LinkFinish(s, key, true, true, at).0, steps)
    ensures var t := Run(env, LinkFinish(s, key, true, true, at).0, steps);
            && t.record.Some?
            && ChangeLink(s.waiting[key].changeId, s.waiting[key].linker, s.waiting[key].key) in t.record.value.changeLinks
            && s.record.value.changeLinks < t.record.value.changeLinks
  {
    var step := DoLinkFinish(key, true, true, at);
    var after := LinkFinish(s, key, true, true, at).0;
    assert after == Next(env, s, step);
    StepKeeps(env, s, step);
    NothingIsLost(env, after, steps);
    var link := ChangeLink(s.waiting[key].changeId, s.waiting[key].linker, s.waiting[key].key);
    var links := after.record.value.changeLinks;
    assert links == s.record.value.changeLinks + [link] && links[|links| - 1] == link;
    var t := Run(env, after, steps).record.value;
    assert t.changeLinks[|links| - 1] == link;
  }

  lemma EditedVersion(r: Record, sql: string, rollback: string, checkStatus: string, reason: string, actor: Actor, at: int)
    ensures var b := Edited(r, sql, rollback, checkStatus, reason, actor, at);
            |b.draftVersions| == |r.draftVersions| + 1
            && var v := b.draftVersions[|r.draftVersions|];
            && v.sql == sql && v.rollback == rollback && v.actor == actor.user && v.origin == "user_edit"
            && (LatestDraft(r).CurrentVersion() >= 0 ==> v.version == LatestDraft(r).CurrentVersion() + 1)
  {
    hide MarkStale;
  }

  /** And for an edit: the version it saved, with its text and its author, is never missing again. */
  lemma AcceptedEditStays(env: Env, s: TaskState, key: nat, checkStatus: string, at: int, steps: seq<Step>)
    requires Invariant(s) && Enabled(s, DoEditFinish(key, checkStatus, true, at))
    requires EditFinish(s, key, checkStatus, true, at).1.Accepted?
    requires Feasible(env, EditFinish(s, key, checkStatus, true, at).0, steps)
    ensures var ticket, n := s.waiting[key], |s.record.value.draftVersions|;
            var t := Run(env, EditFinish(s, key, checkStatus, true, at).0, steps);
            && t.record.Some? && s.record.value.draftVersions < t.record.value.draftVersions
            && var v := t.record.value.draftVersions[n];
            && v.sql == ticket.sql && v.rollback == ticket.rollback && v.actor == ticket.editor.user
            && (ticket.seenVersion >= 0 ==> v.version == ticket.seenVersion + 1)
  {
    hide Edited, Grows;
    var ticket, r, step := s.waiting[key], s.record.value, DoEditFinish(key, checkStatus, true, at);
    var after := EditFinish(s, key, checkStatus, true, at).0;
    assert after == Next(env, s, step);
    StepKeeps(env, s, step);
    EditedVersion(r, ticket.sql, ticket.rollback, checkStatus, ticket.reason, ticket.editor, at);
    EditedLaws(r, ticket.sql, ticket.rollback, checkStatus, ticket.reason, ticket.editor, at);
    NothingIsLost(env, after, steps);
    VersionsKept(r, after.record.value);
    VersionsKept(after.record.value, Run(env, after, steps).record.value);
  }

  lemma VersionsKept(a: Record, b: Record)
    requires Grows(a, b)
    ensures a.draftVersions <= b.draftVersions
  {
  }

  // ----- The bounded retry -----------------------------------------------------

  /** The retry loop of the terminal save, when nothing else happens in between. */
  function Retry(env: Env, s: TaskState, id: ExecutionId, saves: seq<bool>): TaskState
    decreases |saves|
  {
    if saves == [] || id !in s.executions || !s.executions[id].phase.Saving? then s
    else Retry(env, PersistTerminal(env, s, id, saves[0]), id, saves[1..])
  }

  /**
   As many attempts as configured, and at least one, always finish the loop: the result is
   stored, or the record is untouched and a problem is on file.
   */
  lemma {:induction false} RetryEnds(env: Env, s: TaskState, id: ExecutionId, saves: seq<bool>)
    requires id in s.executions && s.executions[id].phase.Saving? && s.Owns(id)
    requires s.executions[id].phase.attempt < Max(1, env.persistAttempts) <= s.executions[id].phase.attempt + |saves|
    ensures var t := Retry(env, s, id, saves);
            && id in t.executions && t.executions[id].phase == Returned(false)
            && (t.record == Some(s.executions[id].phase.result) || (t.record == s.record && t.problem == Some(id)))
            && ((forall i :: 0 <= i < |saves| ==> !saves[i]) ==> t.record == s.record && t.problem == Some(id))
    decreases |saves|
  {
    var next := PersistTerminal(env, s, id, saves[0]);
    if !saves[0] && s.executions[id].phase.attempt + 1 < Max(1, env.persistAttempts) {
      RetryEnds(env, next, id, saves[1..]);
    }
  }
}
