/**
 What a request saw against what it finishes on. A resume carries inputs it prepared on a
 copy, and an edit relies on a version number it was given: here is exactly when the record
 they finish on still is the one they saw.
 */
module TaskSightings {
  import opened Wrappers
  import opened TaskRecords
  import opened RecordLaws
  import opened TaskMachine
  import opened TaskInvariants
  import opened TaskTheorems
  import opened TaskEffects
  import opened TaskSupervision
  import L = UsageLedger
  import Text

  // ----- Inputs over one step --------------------------------------------------

  /** New inputs were stored, but the execution they were meant for was not. */
  predicate FailedDispatch(step: Step) {
    (step.DoClarifyFinish? || step.DoResumeFinish?) && step.disk.saved && !step.disk.begun
  }

  /** The record changes hands, or is cancelled for good. */
  ghost predicate ChangesHands(s: TaskState, t: TaskState) {
    && t.record.Some?
    && (FreshId(s, t.record.value.executionId)
        || (t.record.value.executionId == NO_EXECUTION && t.record.value.status.Cancelled?))
  }

  ghost predicate InputsStay(s: TaskState, t: TaskState) {
    s.record.Some? && t.record.Some? && SameInputs(s.record.value, t.record.value)
  }

  lemma DispatchInputs(s: TaskState, r: Record, disk: Disk)
    requires s.record.Some? && FreshId(s, disk.freshId)
    ensures var t := SaveAndDispatch(s, r, disk).0;
            && (disk.saved ==> t.record.Some? && SameInputs(r, t.record.value))
            && (disk.saved && disk.begun ==> t.record.value.executionId == disk.freshId)
            && (!disk.saved ==> t == s)
  {
  }

  lemma CommitInputs(env: Env, s: TaskState, step: Step)
    requires Enabled(s, step) && Commits(step) && s.record.Some?
    ensures var t := Next(env, s, step); ChangesHands(s, t) || FailedDispatch(step) || InputsStay(s, t)
  {
    hide ClarifyFinish, ResumeFinish, EditFinish, LinkFinish, ChangesHands, InputsStay, Next;
    if step.DoClarifyFinish? {
      ClarifyInputs(s, step.key, step.resolved, step.facts, step.disk);
      FinishStep(env, s, step);
    } else if step.DoResumeFinish? {
      ResumeInputs(s, step.key, step.checkpoint, step.disk);
      FinishStep(env, s, step);
    } else {
      EditLinkInputs(env, s, step);
    }
  }

  lemma FinishStep(env: Env, s: TaskState, step: Step)
    requires Enabled(s, step)
    ensures step.DoClarifyFinish? ==> Next(env, s, step) == ClarifyFinish(s, step.key, step.resolved, step.facts, step.disk).0
    ensures step.DoResumeFinish? ==> Next(env, s, step) == ResumeFinish(s, step.key, step.checkpoint, step.disk).0
  {
    hide ClarifyFinish, ResumeFinish;
  }

  lemma ClarifyInputs(s: TaskState, key: nat, resolved: Option<Resolved>, facts: Findings, disk: Disk)
    requires Enabled(s, DoClarifyFinish(key, resolved, facts, disk))
    ensures var t := ClarifyFinish(s, key, resolved, facts, disk).0;
            ChangesHands(s, t) || (disk.saved && !disk.begun) || InputsStay(s, t)
  {
    hide Clarified, SaveAndDispatch;
    if resolved.Some? {
      var clarified := Clarified(s.record.value, s.waiting[key].clarification, resolved.value, facts, disk.at);
      if clarified.Ok? {
        DispatchInputs(s.Drop(key), clarified.value, disk);
      }
    }
  }

  lemma ResumeInputs(s: TaskState, key: nat, checkpoint: Option<Checkpoint>, disk: Disk)
    requires Enabled(s, DoResumeFinish(key, checkpoint, disk))
    ensures var t := ResumeFinish(s, key, checkpoint, disk).0;
            ChangesHands(s, t) || (disk.saved && !disk.begun) || InputsStay(s, t)
  {
    hide Resumed, Continuable, SaveAndDispatch;
    var ticket := s.waiting[key];
    DispatchInputs(s.Drop(key), Resumed(s.record.value, ticket.prepared, ticket.request.Some?, ticket.resolved, disk.at), disk);
  }

  lemma ManagementInputs(env: Env, s: TaskState, step: Step)
    requires Enabled(s, step) && Manages(step) && s.record.Some?
    ensures InputsStay(s, Next(env, s, step))
  {
    hide Next, Enabled, Manages;
    ManagementEffect(env, s, step);
  }

  lemma WorkInputs(env: Env, s: TaskState, step: Step)
    requires Invariant(s) && Enabled(s, step) && Works(step) && s.record.Some?
    ensures InputsStay(s, Next(env, s, step))
  {
    hide Next, Invariant;
    WorkEffect(env, s, step);
    if Stores(s, step) {
      ReadyResult(s, step.id);
    }
  }

  lemma EndInputs(env: Env, s: TaskState, step: Step)
    requires Enabled(s, step) && Ends(step) && s.record.Some?
    ensures InputsStay(s, Next(env, s, step))
  {
    hide Next, Enabled, Ends;
    EndEffect(env, s, step);
  }

  /** Inputs change only with the owner, or by a dispatch that failed after its save. */
  lemma InputsStep(env: Env, s: TaskState, step: Step)
    requires Invariant(s) && Enabled(s, step) && s.record.Some?
    ensures var t := Next(env, s, step); ChangesHands(s, t) || FailedDispatch(step) || InputsStay(s, t)
  {
    hide Invariant, ChangesHands, InputsStay;
    if Suspends(step) {
      SuspendKeeps(env, s, step);
      SameRecordSameInputs(s, Next(env, s, step));
    } else if Commits(step) {
      CommitInputs(env, s, step);
    } else if Manages(step) {
      ManagementInputs(env, s, step);
    } else if Works(step) {
      WorkInputs(env, s, step);
    } else {
      EndInputs(env, s, step);
    }
  }

  lemma SameRecordSameInputs(s: TaskState, t: TaskState)
    requires s.record.Some? && t.record == s.record
    ensures InputsStay(s, t)
  {
  }

  // ----- A sighting ------------------------------------------------------------

  predicate Known(s: TaskState, id: ExecutionId) {
    id == NO_EXECUTION || id in s.issued
  }

  /** Either the record has moved past what was seen, or its inputs are those that were seen. */
  ghost predicate StillHolds(s: TaskState, seen: Record) {
    && s.record.Some? && Known(s, seen.executionId)
    && (MovedPast(s, seen.executionId) || SameInputs(seen, s.record.value))
  }

  lemma MovedPastStays(env: Env, s: TaskState, step: Step, seen: ExecutionId)
    requires Invariant(s) && Enabled(s, step) && MovedPast(s, seen)
    ensures MovedPast(Next(env, s, step), seen)
  {
    hide Invariant, MovedPast, Enabled;
    assert [step][1..] == [];
    MovedPastForever(env, s, seen, [step]);
    RunOne(env, s, step);
  }

  lemma RunOne(env: Env, s: TaskState, step: Step)
    requires Enabled(s, step)
    ensures Feasible(env, s, [step]) && Run(env, s, [step]) == Next(env, s, step)
  {
    hide Enabled, Next;
    assert [step][1..] == [];
  }

  lemma ChangedHandsMovesPast(s: TaskState, t: TaskState, seen: ExecutionId)
    requires ChangesHands(s, t) && Known(s, seen) && s.issued <= t.issued
    ensures MovedPast(t, seen)
  {
  }

  lemma StillHoldsStep(env: Env, s: TaskState, step: Step, seen: Record)
    requires Invariant(s) && Enabled(s, step) && StillHolds(s, seen) && !FailedDispatch(step)
    ensures StillHolds(Next(env, s, step), seen)
  {
    hide Invariant, Enabled, MovedPast, ChangesHands, Next;
    var t := Next(env, s, step);
    StepKeeps(env, s, step);
    if MovedPast(s, seen.executionId) {
      MovedPastStays(env, s, step, seen.executionId);
    } else {
      InputsStep(env, s, step);
      if ChangesHands(s, t) {
        ChangedHandsMovesPast(s, t, seen.executionId);
      }
    }
    assert t.record.Some? by { ProgressRecord(s, t); }
  }

  lemma ProgressRecord(s: TaskState, t: TaskState)
    requires Progress(s, t) && s.record.Some?
    ensures t.record.Some? && s.issued <= t.issued
  {
  }

  predicate NoFailedDispatch(steps: seq<Step>) {
    forall i :: 0 <= i < |steps| ==> !FailedDispatch(steps[i])
  }

  /** While no dispatch fails after its save, a sighting stays true or is left behind. */
  lemma {:induction false} StillHoldsForever(env: Env, s: TaskState, seen: Record, steps: seq<Step>)
    requires Invariant(s) && StillHolds(s, seen) && Feasible(env, s, steps) && NoFailedDispatch(steps)
    ensures StillHolds(Run(env, s, steps), seen)
    decreases |steps|
  {
    hide Invariant, StillHolds, FailedDispatch;
    if steps != [] {
      StepKeeps(env, s, steps[0]);
      StillHoldsStep(env, s, steps[0], seen);
      StillHoldsForever(env, Next(env, s, steps[0]), seen, steps[1..]);
    }
  }

  // ----- What a resume carries -------------------------------------------------

  /** The request says something about the schema snapshot. */
  predicate TouchesSnapshot(change: ClarifyRequest) {
    change.snapshotId.Some? || change.manualSnapshot.Some?
  }

  predicate SameSnapshot(a: Record, b: Record) {
    a.schemaSnapshot == b.schemaSnapshot && a.snapshotKind == b.snapshotKind && a.selectedSnapshot == b.selectedSnapshot
  }

  /** The prepared copy is the seen record with the request's own changes, and nothing else. */
  ghost predicate PreparedFrom(request: Option<ClarifyRequest>, seen: Record, prepared: Record, resolved: Resolved) {
    && prepared.executionId == seen.executionId && prepared.status == seen.status
    && match request
       case None => SameInputs(seen, prepared)
       case Some(change) =>
         && prepared.notes == WithNote(seen.notes, change.note)
         && prepared.slots == MergeSlots(seen.slots, change.slots, resolved)
         && (!TouchesSnapshot(change) ==> SameSnapshot(seen, prepared))
  }

  lemma UntouchedSnapshot(r: Record, change: ClarifyRequest, found: Option<(SnapshotMeta, string)>, at: int)
    requires !TouchesSnapshot(change)
    ensures ApplySnapshot(r, change, found, at) == Ok(r)
  {
    assert Text.Trim("") == "";
  }

  lemma AppliedShape(r: Record, change: ClarifyRequest, resolved: Resolved, facts: Findings, at: int)
    requires ApplyInput(r, change, resolved, facts, at).Ok?
    ensures var b := ApplyInput(r, change, resolved, facts, at).value;
            && b.notes == WithNote(r.notes, change.note)
            && b.slots == MergeSlots(r.slots, change.slots, resolved)
            && (!TouchesSnapshot(change) ==> SameSnapshot(r, b))
  {
    hide MergeSlots, WithNote, ApplySnapshot;
    var merged := r.(slots := MergeSlots(r.slots, change.slots, resolved));
    ApplySnapshotFrame(merged, change, facts.snapshot, at);
    if !TouchesSnapshot(change) {
      UntouchedSnapshot(merged, change, facts.snapshot, at);
    }
  }

  lemma PreparedShape(seen: Record, request: Option<ClarifyRequest>, resolved: Resolved, facts: Findings, at: int)
    requires ResumeDraft(seen, request, resolved, facts, at).Ok?
    ensures PreparedFrom(request, seen, ResumeDraft(seen, request, resolved, facts, at).value, resolved)
  {
    hide MergeSlots, WithNote, ApplyInput, ApplyInputVersion;
    PreparedFrame(seen, request, resolved, facts, at);
    match request
    case None => ApplyInputVersionLaws(seen);
    case Some(change) =>
      AppliedShape(seen, change, resolved, facts, at);
      ApplyInputVersionLaws(ApplyInput(seen, change, resolved, facts, at).value);
  }

  /** The slots a request sets itself. */
  function Addressed(change: ClarifyRequest, resolved: Resolved): set<string> {
    change.slots.Keys + if APPLICATION_ID in change.slots && resolved.name != "" then {APPLICATION} else {}
  }

  ghost predicate SlotsAgree(a: map<string, string>, b: map<string, string>, change: ClarifyRequest, resolved: Resolved) {
    forall key :: key !in Addressed(change, resolved) ==> SlotAt(a, key) == SlotAt(b, key)
  }

  /** What is stored is the latest record's inputs with the request's own changes: no input is lost. */
  ghost predicate Carried(latest: Record, request: Option<ClarifyRequest>, resolved: Resolved, stored: Record) {
    match request
    case None => SameInputs(latest, stored)
    case Some(change) =>
      && stored.notes == WithNote(latest.notes, change.note)
      && SlotsAgree(latest.slots, stored.slots, change, resolved)
      && (!TouchesSnapshot(change) ==> SameSnapshot(latest, stored))
  }

  /** What the request leaves alone is in the latest record as it was seen. */
  ghost predicate UnchangedSince(seen: Record, latest: Record, request: Option<ClarifyRequest>, resolved: Resolved) {
    match request
    case None => true
    case Some(change) =>
      && (latest.notes == seen.notes || WithNote(seen.notes, change.note) == [])
      && SlotsAgree(latest.slots, seen.slots, change, resolved)
      && (!TouchesSnapshot(change) ==> SameSnapshot(latest, seen))
  }

  lemma MergedSlotsAgree(seen: map<string, string>, change: ClarifyRequest, resolved: Resolved)
    ensures SlotsAgree(seen, MergeSlots(seen, change.slots, resolved), change, resolved)
  {
  }

  lemma ResumedInputs(latest: Record, prepared: Record, hasRequest: bool, resolved: Resolved, at: int)
    ensures SameInputs(MergedInputs(latest, prepared, hasRequest), Resumed(latest, prepared, hasRequest, resolved, at))
  {
    hide MarkStale, VersionOf, MergedInputs;
  }

  lemma SameNoteSameNotes(a: seq<string>, b: seq<string>, note: string)
    ensures WithNote(a, note) == WithNote(b, note) <==> a == b
    ensures WithNote(b, note) == [] ==> WithNote(a, note) == a
  {
    var n := Text.Trim(note);
    if n != "" && a + [n] == b + [n] {
      assert (a + [n])[..|a|] == a && (b + [n])[..|b|] == b;
    }
  }

  /** A resume carries every input exactly when what it leaves alone has not changed since it looked. */
  lemma CarriedExactly(latest: Record, seen: Record, prepared: Record, request: Option<ClarifyRequest>, resolved: Resolved, at: int)
    requires PreparedFrom(request, seen, prepared, resolved)
    ensures Carried(latest, request, resolved, Resumed(latest, prepared, request.Some?, resolved, at))
       <==> UnchangedSince(seen, latest, request, resolved)
  {
    hide Resumed, MergeSlots, WithNote, SlotAt, Addressed;
    ResumedInputs(latest, prepared, request.Some?, resolved, at);
    if request.Some? {
      SameNoteSameNotes(latest.notes, seen.notes, request.value.note);
      MergedSlotsAgree(seen.slots, request.value, resolved);
    }
  }

  // ----- Tickets ---------------------------------------------------------------

  ghost predicate TicketTrue(t: Ticket) {
    match t
    case ResumeInspecting(request, seen, prepared, resolved) => PreparedFrom(request, seen, prepared, resolved)
    case EditScanning(_, _, _, _, version, basis) =>
      basis.status.HasMaterial() && basis.draft.Some? && version == basis.draft.value.CurrentVersion()
    case _ => true
  }

  ghost predicate TicketsTrue(s: TaskState) {
    forall key :: key in s.waiting ==> TicketTrue(s.waiting[key])
  }

  lemma ParkedTrue(s: TaskState, key: nat, ticket: Ticket)
    requires TicketsTrue(s) && TicketTrue(ticket)
    ensures TicketsTrue(s.Park(key, ticket)) && TicketsTrue(s.Drop(key).Park(key, ticket))
  {
    hide TicketTrue;
  }

  lemma SuspendTickets(env: Env, s: TaskState, step: Step)
    requires Enabled(s, step) && Suspends(step) && TicketsTrue(s)
    ensures TicketsTrue(Next(env, s, step))
  {
    hide TicketsTrue, PreparedFrom, ResumeDraft, DuplicateLink, Text.Trim;
    if step.DoResumeResolve? {
      ResolveTickets(s, step.key, step.resolved, step.facts, step.at);
    } else if step.DoClarifyStart? && s.record.Some? {
      ParkedTrue(s, step.key, ClarifyWaiting(step.clarify, s.record.value.status));
    } else if step.DoResumeStart? && s.record.Some? {
      ParkedTrue(s, step.key, ResumeResolving(step.resume, s.record.value));
    } else if step.DoEditStart? && EditStart(s, step.key, step.actor, step.sql, step.rollback, step.reason, step.version, step.injectionFound).1.Suspended? {
      ParkedTrue(s, step.key, EditScanning(step.actor, step.sql, step.rollback, step.reason, step.version, s.record.value));
    } else if step.DoLinkStart? {
      var change := Text.Trim(step.changeId);
      var idem := Text.Trim(if step.idempotencyKey == "" then change else step.idempotencyKey);
      ParkedTrue(s, step.key, LinkChecking(step.actor, change, idem));
    }
  }

  lemma ResolveTickets(s: TaskState, key: nat, resolved: Option<Resolved>, facts: Findings, at: int)
    requires key in s.waiting && s.waiting[key].ResumeResolving? && TicketsTrue(s)
    ensures TicketsTrue(ResumeResolve(s, key, resolved, facts, at).0)
  {
    hide ResumeDraft, PreparedFrom;
    var ticket := s.waiting[key];
    if resolved.Some? {
      match ResumeDraft(ticket.seen, ticket.request, resolved.value, facts, at)
      case Err(_) =>
      case Ok(prepared) =>
        PreparedShape(ticket.seen, ticket.request, resolved.value, facts, at);
        ParkedTrue(s, key, ResumeInspecting(ticket.request, ticket.seen, prepared, resolved.value));
    }
  }

  lemma CommitDrops(env: Env, s: TaskState, step: Step)
    requires Enabled(s, step) && Commits(step)
    ensures Next(env, s, step).waiting.Items <= s.waiting.Items
  {
    hide Next, Enabled;
    CommitWaiting(env, s, step);
  }

  lemma FewerTickets(s: TaskState, t: TaskState)
    requires TicketsTrue(s) && t.waiting.Items <= s.waiting.Items
    ensures TicketsTrue(t)
  {
    hide TicketTrue;
    forall key | key in t.waiting
      ensures TicketTrue(t.waiting[key])
    {
      assert (key, t.waiting[key]) in t.waiting.Items;
    }
  }

  lemma TicketsStayTrue(env: Env, s: TaskState, step: Step)
    requires Enabled(s, step) && TicketsTrue(s)
    ensures TicketsTrue(Next(env, s, step))
  {
    hide TicketsTrue, Enabled;
    if Suspends(step) {
      SuspendTickets(env, s, step);
    } else if Commits(step) {
      CommitDrops(env, s, step);
      FewerTickets(s, Next(env, s, step));
    } else {
      OtherTickets(env, s, step);
      FewerTickets(s, Next(env, s, step));
    }
  }

  lemma OtherTickets(env: Env, s: TaskState, step: Step)
    requires Enabled(s, step) && !Suspends(step) && !Commits(step)
    ensures Next(env, s, step).waiting.Items <= s.waiting.Items
  {
    hide Enabled, Next;
    if Manages(step) {
      ManagementTickets(env, s, step);
    } else if Works(step) {
      WorkTickets(env, s, step);
    } else {
      EndTickets(env, s, step);
    }
  }

  lemma {:induction false} ReachableTickets(env: Env, s: TaskState, steps: seq<Step>)
    requires Invariant(s) && TicketsTrue(s) && Feasible(env, s, steps)
    ensures TicketsTrue(Run(env, s, steps)) && Invariant(Run(env, s, steps))
    decreases |steps|
  {
    hide Invariant, TicketsTrue;
    if steps != [] {
      StepKeeps(env, s, steps[0]);
      TicketsStayTrue(env, s, steps[0]);
      ReachableTickets(env, Next(env, s, steps[0]), steps[1..]);
    }
  }

  // ----- Resumes over whole runs -----------------------------------------------

  /**
   In every reachable state, a resume that passes its guards and is saved keeps every stored
   input exactly when what its request leaves alone is still as it saw it.
   */
  lemma ResumeCarriesExactly(env: Env, steps: seq<Step>, key: nat, checkpoint: Option<Checkpoint>, disk: Disk)
    requires Feasible(env, NO_TASK, steps) && disk.saved
    requires var s := Run(env, NO_TASK, steps); Enabled(s, DoResumeFinish(key, checkpoint, disk)) && ResumePasses(s, key, checkpoint)
    ensures var s := Run(env, NO_TASK, steps);
            var ticket, t := s.waiting[key], ResumeFinish(s, key, checkpoint, disk).0;
            && t.record.Some?
            && (Carried(s.record.value, ticket.request, ticket.resolved, t.record.value)
                <==> UnchangedSince(ticket.seen, s.record.value, ticket.request, ticket.resolved))
  {
    hide Invariant, TicketsTrue, Feasible, Run, PreparedFrom, Carried, UnchangedSince, Continuable, Resumed;
    var s := Run(env, NO_TASK, steps);
    var ticket, latest, rest := s.waiting[key], s.record.value, s.Drop(key);
    StartTrue();
    ReachableTickets(env, NO_TASK, steps);
    OneTicket(s, key);
    var resumed := Resumed(latest, ticket.prepared, ticket.request.Some?, ticket.resolved, disk.at);
    CarriedExactly(latest, ticket.seen, ticket.prepared, ticket.request, ticket.resolved, disk.at);
    DispatchInputs(rest, resumed, disk);
    CarriedByInputs(latest, ticket.request, ticket.resolved, resumed, ResumeFinish(s, key, checkpoint, disk).0.record.value);
  }

  lemma StartTrue()
    ensures Invariant(NO_TASK) && TicketsTrue(NO_TASK)
  {
  }

  lemma OneTicket(s: TaskState, key: nat)
    requires TicketsTrue(s) && key in s.waiting
    ensures TicketTrue(s.waiting[key])
  {
  }

  lemma CarriedByInputs(latest: Record, request: Option<ClarifyRequest>, resolved: Resolved, a: Record, b: Record)
    requires SameInputs(a, b)
    ensures Carried(latest, request, resolved, a) <==> Carried(latest, request, resolved, b)
  {
    hide SlotsAgree, WithNote;
  }

  /** Notes alone: none is lost exactly when those stored were seen, or are what the resume stores itself. */
  lemma NotesKeptExactly(env: Env, steps: seq<Step>, key: nat, checkpoint: Option<Checkpoint>, disk: Disk)
    requires Feasible(env, NO_TASK, steps) && disk.saved
    requires var s := Run(env, NO_TASK, steps); Enabled(s, DoResumeFinish(key, checkpoint, disk)) && ResumePasses(s, key, checkpoint)
    ensures var s := Run(env, NO_TASK, steps);
            var ticket, t := s.waiting[key], ResumeFinish(s, key, checkpoint, disk).0;
            && t.record.Some?
            && (s.record.value.notes <= t.record.value.notes
                <==> ticket.request.None? || s.record.value.notes <= ticket.seen.notes
                     || s.record.value.notes == WithNote(ticket.seen.notes, ticket.request.value.note)
                     || WithNote(ticket.seen.notes, ticket.request.value.note) == [])
  {
    hide Invariant, TicketsTrue, Feasible, Run, Continuable, Resumed, Text.Trim;
    var s := Run(env, NO_TASK, steps);
    var ticket, latest, rest := s.waiting[key], s.record.value, s.Drop(key);
    StartTrue();
    ReachableTickets(env, NO_TASK, steps);
    OneTicket(s, key);
    ResumedInputs(latest, ticket.prepared, ticket.request.Some?, ticket.resolved, disk.at);
    DispatchInputs(rest, Resumed(latest, ticket.prepared, ticket.request.Some?, ticket.resolved, disk.at), disk);
  }

  /**
   No input is lost by a resume if no dispatch failed after its save between the moment the
   resume looked at the record and the moment it finishes.
   */
  lemma NoInputLostWithoutFailedDispatch(env: Env, before: seq<Step>, between: seq<Step>, key: nat, actor: Actor,
                                         request: Option<ClarifyRequest>, checkpoint: Option<Checkpoint>, disk: Disk)
    requires Feasible(env, NO_TASK, before)
    requires var s := Run(env, NO_TASK, before);
             && key !in s.waiting && ResumeStart(s, key, actor, request).1.Suspended?
             && Feasible(env, ResumeStart(s, key, actor, request).0, between) && NoFailedDispatch(between)
    requires var s := Run(env, NO_TASK, before);
             var u := Run(env, ResumeStart(s, key, actor, request).0, between);
             && Enabled(u, DoResumeFinish(key, checkpoint, disk)) && u.waiting[key].seen == s.record.value
             && ResumePasses(u, key, checkpoint) && disk.saved
    ensures var s := Run(env, NO_TASK, before);
            var u := Run(env, ResumeStart(s, key, actor, request).0, between);
            var ticket, t := u.waiting[key], ResumeFinish(u, key, checkpoint, disk).0;
            && SameInputs(ticket.seen, u.record.value)
            && t.record.Some? && Carried(u.record.value, ticket.request, ticket.resolved, t.record.value)
  {
    hide Invariant, TicketsTrue, Carried, Continuable, Resumed, NoFailedDispatch, Authorized;
    var s := Run(env, NO_TASK, before);
    var s1 := ResumeStart(s, key, actor, request).0;
    var u := Run(env, s1, between);
    var step := DoResumeStart(key, actor, request);
    StartTrue();
    ReachableTickets(env, NO_TASK, before);
    assert Next(env, s, step) == s1;
    ResumeStartSaw(s, key, actor, request);
    StepKeeps(env, s, step);
    TicketsStayTrue(env, s, step);
    ReachableTickets(env, s1, between);
    SeenNow(s1);
    StillHoldsForever(env, s1, s.record.value, between);
    OneTicket(u, key);
    var ticket, latest := u.waiting[key], u.record.value;
    NotMovedPast(u, ticket, key);
    UnchangedWhenSame(ticket.seen, latest, ticket.request, ticket.resolved);
    CarriedExactly(latest, ticket.seen, ticket.prepared, ticket.request, ticket.resolved, disk.at);
    var resumed := Resumed(latest, ticket.prepared, ticket.request.Some?, ticket.resolved, disk.at);
    DispatchInputs(u.Drop(key), resumed, disk);
    CarriedByInputs(latest, ticket.request, ticket.resolved, resumed, ResumeFinish(u, key, checkpoint, disk).0.record.value);
  }

  lemma ResumeStartSaw(s: TaskState, key: nat, actor: Actor, request: Option<ClarifyRequest>)
    requires ResumeStart(s, key, actor, request).1.Suspended?
    ensures s.record.Some? && ResumeStart(s, key, actor, request).0 == s.Park(key, ResumeResolving(request, s.record.value))
  {
    hide Text.Trim;
  }

  lemma SeenNow(s: TaskState)
    requires Invariant(s) && s.record.Some?
    ensures StillHolds(s, s.record.value)
  {
  }

  /** A resume that passes its guards has not been left behind. */
  lemma NotMovedPast(s: TaskState, ticket: Ticket, key: nat)
    requires Invariant(s) && key in s.waiting && s.waiting[key] == ticket && ticket.ResumeInspecting? && TicketTrue(ticket)
    requires s.record.Some? && s.record.value.executionId == ticket.prepared.executionId && s.record.value.status == ticket.prepared.status
    ensures !MovedPast(s, ticket.seen.executionId)
  {
    hide Inv;
    assert TicketSound(ticket);
  }

  lemma UnchangedWhenSame(seen: Record, latest: Record, request: Option<ClarifyRequest>, resolved: Resolved)
    requires SameInputs(seen, latest)
    ensures UnchangedSince(seen, latest, request, resolved)
  {
  }

  // ----- Notes over whole runs -------------------------------------------------

  ghost predicate SightingsHold(s: TaskState) {
    forall key :: key in s.waiting && (s.waiting[key].ResumeResolving? || s.waiting[key].ResumeInspecting?) ==>
      StillHolds(s, s.waiting[key].seen)
  }

  /** Sightings of a state: all of an earlier one's that are still parked, and at most a new one. */
  lemma SightingsComeFrom(env: Env, s: TaskState, step: Step, key: nat)
    requires Enabled(s, step) && !FailedDispatch(step) && key in Next(env, s, step).waiting
    requires var ticket := Next(env, s, step).waiting[key]; ticket.ResumeResolving? || ticket.ResumeInspecting?
    ensures var ticket := Next(env, s, step).waiting[key];
            || (key in s.waiting && (s.waiting[key].ResumeResolving? || s.waiting[key].ResumeInspecting?) && s.waiting[key].seen == ticket.seen)
            || (s.record.Some? && Next(env, s, step).record == s.record && Next(env, s, step).issued == s.issued && ticket.seen == s.record.value)
  {
    if Suspends(step) {
      SuspendSightings(env, s, step, key);
    } else {
      hide Enabled, Next;
      if Commits(step) {
        CommitDrops(env, s, step);
      } else {
        OtherTickets(env, s, step);
      }
      assert (key, Next(env, s, step).waiting[key]) in Next(env, s, step).waiting.Items;
    }
  }

  lemma OtherParked(env: Env, s: TaskState, step: Step, key: nat)
    requires Enabled(s, step) && (step.DoClarifyStart? || step.DoEditStart? || step.DoLinkStart?)
    requires key in Next(env, s, step).waiting
    requires var ticket := Next(env, s, step).waiting[key]; ticket.ResumeResolving? || ticket.ResumeInspecting?
    ensures key in s.waiting && s.waiting[key] == Next(env, s, step).waiting[key]
  {
    hide DuplicateLink, Text.Trim, Authorized;
  }

  lemma SuspendSightings(env: Env, s: TaskState, step: Step, key: nat)
    requires Enabled(s, step) && Suspends(step) && key in Next(env, s, step).waiting
    requires var ticket := Next(env, s, step).waiting[key]; ticket.ResumeResolving? || ticket.ResumeInspecting?
    ensures var ticket := Next(env, s, step).waiting[key];
            || (key in s.waiting && (s.waiting[key].ResumeResolving? || s.waiting[key].ResumeInspecting?) && s.waiting[key].seen == ticket.seen)
            || (s.record.Some? && Next(env, s, step).record == s.record && Next(env, s, step).issued == s.issued && ticket.seen == s.record.value)
  {
    hide ResumeDraft, Text.Trim, ClarifyStart, EditStart, LinkStart;
    if step.DoClarifyStart? || step.DoEditStart? || step.DoLinkStart? {
      OtherParked(env, s, step, key);
    }
  }

  lemma SightingsStep(env: Env, s: TaskState, step: Step)
    requires Invariant(s) && Enabled(s, step) && SightingsHold(s) && !FailedDispatch(step)
    ensures SightingsHold(Next(env, s, step))
  {
    hide Invariant, Enabled, Next, StillHolds, FailedDispatch;
    var t := Next(env, s, step);
    StepKeeps(env, s, step);
    forall key | key in t.waiting && (t.waiting[key].ResumeResolving? || t.waiting[key].ResumeInspecting?)
      ensures StillHolds(t, t.waiting[key].seen)
    {
      SightingsComeFrom(env, s, step, key);
      if key in s.waiting && (s.waiting[key].ResumeResolving? || s.waiting[key].ResumeInspecting?) && s.waiting[key].seen == t.waiting[key].seen {
        StillHoldsStep(env, s, step, s.waiting[key].seen);
      } else {
        SeenNow(t);
      }
    }
  }

  lemma ClarifiedNotes(r: Record, request: ClarifyRequest, resolved: Resolved, facts: Findings, at: int)
    requires Clarified(r, request, resolved, facts, at).Ok?
    ensures r.notes <= Clarified(r, request, resolved, facts, at).value.notes
  {
    hide MarkStale, VersionOf, MergeSlots, Text.Trim;
    ApplyInputFrame(r.(authorizedApplication := resolved.applicationId), request, resolved, facts, at);
  }

  /** With sightings that hold, no step loses a note: not even a dispatch that fails after its save. */
  lemma NotesStep(env: Env, s: TaskState, step: Step)
    requires Invariant(s) && TicketsTrue(s) && SightingsHold(s) && Enabled(s, step) && s.record.Some?
    ensures var t := Next(env, s, step); t.record.Some? && s.record.value.notes <= t.record.value.notes
  {
    hide Invariant, TicketsTrue, StillHolds, MovedPast, Inv, Clarified, Resumed, Continuable;
    if step.DoClarifyFinish? {
      var ticket, r, rest := s.waiting[step.key], s.record.value, s.Drop(step.key);
      if ClarifyPasses(s, step.key, step.resolved, step.facts, step.disk.at) {
        ClarifiedNotes(r, ticket.clarification, step.resolved.value, step.facts, step.disk.at);
        DispatchInputs(rest, Clarified(r, ticket.clarification, step.resolved.value, step.facts, step.disk.at).value, step.disk);
      }
    } else if step.DoResumeFinish? {
      ResumeNotes(s, step.key, step.checkpoint, step.disk);
    } else {
      OtherNotes(env, s, step);
    }
  }

  lemma OtherNotes(env: Env, s: TaskState, step: Step)
    requires Invariant(s) && Enabled(s, step) && s.record.Some? && !step.DoClarifyFinish? && !step.DoResumeFinish?
    ensures InputsStay(s, Next(env, s, step))
  {
    hide Invariant, InputsStay, Enabled, Next;
    if Suspends(step) {
      SuspendKeeps(env, s, step);
      SameRecordSameInputs(s, Next(env, s, step));
    } else if Commits(step) {
      OnlyEditOrLink(s, step);
      EditLinkInputs(env, s, step);
    } else if Manages(step) {
      ManagementInputs(env, s, step);
    } else if Works(step) {
      WorkInputs(env, s, step);
    } else {
      EndInputs(env, s, step);
    }
  }

  lemma OnlyEditOrLink(s: TaskState, step: Step)
    requires Enabled(s, step) && s.record.Some? && Commits(step) && !step.DoClarifyFinish? && !step.DoResumeFinish?
    ensures step.DoEditFinish? || step.DoLinkFinish?
  {
  }

  lemma EditLinkInputs(env: Env, s: TaskState, step: Step)
    requires Enabled(s, step) && s.record.Some? && (step.DoEditFinish? || step.DoLinkFinish?)
    ensures InputsStay(s, Next(env, s, step))
  {
    hide Next, Enabled;
    EditLinkEffect(env, s, step);
  }

  lemma ResumeNotes(s: TaskState, key: nat, checkpoint: Option<Checkpoint>, disk: Disk)
    requires Invariant(s) && TicketsTrue(s) && SightingsHold(s) && Enabled(s, DoResumeFinish(key, checkpoint, disk))
    ensures var t := ResumeFinish(s, key, checkpoint, disk).0; t.record.Some? && s.record.value.notes <= t.record.value.notes
  {
    hide Inv, MovedPast, Continuable, Resumed, Text.Trim;
    var ticket, latest, rest := s.waiting[key], s.record.value, s.Drop(key);
    var resumed := Resumed(latest, ticket.prepared, ticket.request.Some?, ticket.resolved, disk.at);
    if ResumePasses(s, key, checkpoint) {
      OneTicket(s, key);
      NotMovedPast(s, ticket, key);
      assert StillHolds(s, ticket.seen);
      ResumedInputs(latest, ticket.prepared, ticket.request.Some?, ticket.resolved, disk.at);
    }
    DispatchInputs(rest, resumed, disk);
  }

  lemma {:induction false} NotesGrow(env: Env, s: TaskState, steps: seq<Step>)
    requires Invariant(s) && TicketsTrue(s) && SightingsHold(s) && Feasible(env, s, steps) && NoFailedDispatch(steps)
    ensures var t := Run(env, s, steps);
            && Invariant(t) && TicketsTrue(t) && SightingsHold(t)
            && (s.record.Some? ==> t.record.Some? && s.record.value.notes <= t.record.value.notes)
    decreases |steps|
  {
    hide Invariant, TicketsTrue, SightingsHold, FailedDispatch, Progress;
    if steps != [] {
      var next := Next(env, s, steps[0]);
      StepKeeps(env, s, steps[0]);
      TicketsStayTrue(env, s, steps[0]);
      SightingsStep(env, s, steps[0]);
      if s.record.Some? {
        NotesStep(env, s, steps[0]);
      }
      NotesGrow(env, next, steps[1..]);
    }
  }

  /** Over any run without a dispatch that fails after its save, no note once stored is ever missing. */
  lemma NotesNeverLost(env: Env, earlier: seq<Step>, later: seq<Step>)
    requires Feasible(env, NO_TASK, earlier) && NoFailedDispatch(earlier)
    requires Feasible(env, Run(env, NO_TASK, earlier), later) && NoFailedDispatch(later)
    ensures var s := Run(env, NO_TASK, earlier);
            var t := Run(env, s, later);
            s.record.Some? ==> t.record.Some? && s.record.value.notes <= t.record.value.notes
  {
    hide Invariant, TicketsTrue, NoFailedDispatch;
    StartTrue();
    assert SightingsHold(NO_TASK);
    NotesGrow(env, NO_TASK, earlier);
    NotesGrow(env, Run(env, NO_TASK, earlier), later);
  }
}
