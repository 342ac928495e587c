/** What management operations undo, repeat and refuse: laws that span several of them. */
module TaskManagement {
  import opened Wrappers
  import opened TaskRecords
  import opened TaskMachine
  import opened TaskSupervision
  import Text

  /** The same record but for what is written into its trails. */
  predicate SameButTrails(a: Record, b: Record) {
    b == a.(events := b.events, managementEvents := b.managementEvents)
  }

  /** Restoring right after archiving gives the record back, with both operations in its trails. */
  lemma RestoreUndoesArchive(s: TaskState, actor: Actor, other: Actor, at: int, later: int)
    requires Archive(s, actor, true, at).1.Accepted? && Authorized(s, other)
    ensures var archived := Archive(s, actor, true, at).0;
            var restored := Restore(archived, other, true, later);
            && archived.record.value.archived && restored.1.Accepted?
            && SameButTrails(s.record.value, restored.0.record.value)
            && restored.0.record.value.managementEvents
               == s.record.value.managementEvents + [Event(at, "archived", actor.user)] + [Event(later, "restored", other.user)]
  {
    hide Text.Trim;
  }

  /** A deleted record comes back in two steps: into the archive, then into the workspace. */
  lemma RestoreUndoesDelete(s: TaskState, actor: Actor, previewed: RecordDigest, at: int)
    requires Delete(s, actor, previewed, true, at).1.Accepted?
    ensures var deleted := Delete(s, actor, previewed, true, at).0;
            var once := Restore(deleted, actor, true, at);
            var twice := Restore(once.0, actor, true, at);
            && once.1.Accepted? && twice.1.Accepted?
            && SameButTrails(s.record.value, once.0.record.value)
            && SameButTrails(s.record.value.(archived := false), twice.0.record.value)
            && Restore(twice.0, actor, true, at) == (twice.0, Repeated)
  {
    hide Text.Trim, Deletable;
    var r := s.record.value;
    assert VersionDigest(r) == previewed && r.archived && !r.deleted && !s.Live() && !r.status.InFlight() by { DeletableMeans(s); }
  }

  lemma DeletableMeans(s: TaskState)
    requires s.record.Some? && Deletable(s)
    ensures var r := s.record.value; r.archived && !r.deleted && !s.Live() && !r.status.InFlight()
  {
  }

  /** Saying the same thing again changes nothing and says so. */
  lemma ConfirmTwiceIsRepeated(s: TaskState, actor: Actor, claimed: Option<MaterialDigest>, note: string, at: int, again: string, later: int)
    requires Confirm(s, actor, claimed, note, true, at).1.Accepted?
    ensures var t := Confirm(s, actor, claimed, note, true, at).0;
            Confirm(t, actor, claimed, again, true, later) == (t, Repeated)
  {
    hide Text.Trim;
    var r := s.record.value;
    var b := Confirmed(r, actor, claimed.value, note, at);
    var n := |r.confirmations|;
    assert b.confirmations[n] == Confirmation(actor, r.inputVersion, claimed.value, Text.Trim(note), false);
    assert AlreadyConfirmed(b, actor, claimed.value);
  }

  /** A change once linked is recognised by its identifier, whatever key comes with it. */
  lemma LinkTwiceIsRepeated(s: TaskState, key: nat, at: int, again: nat, actor: Actor, changeId: string, idempotencyKey: string)
    requires key in s.waiting && s.waiting[key].LinkChecking? && s.record.Some?
    requires LinkFinish(s, key, true, true, at).1.Accepted?
    requires Authorized(s, actor) && Text.Trim(changeId) == s.waiting[key].changeId != ""
    ensures var t := LinkFinish(s, key, true, true, at).0;
            LinkStart(t, again, actor, changeId, idempotencyKey) == (t, Repeated)
  {
    hide Text.Trim;
    var r, ticket := s.record.value, s.waiting[key];
    var b := Linked(r, ticket.linker, ticket.changeId, ticket.key, at);
    var n := |r.changeLinks|;
    assert b.changeLinks[n].changeId == ticket.changeId;
    var idem := Text.Trim(if idempotencyKey == "" then Text.Trim(changeId) else idempotencyKey);
    assert DuplicateLink(b.changeLinks, ticket.changeId, idem);
  }

  // ----- Refusals --------------------------------------------------------------

  /** Who asks for a step, when somebody does. */
  function Requester(step: Step): Option<Actor> {
    if step.DoClarifyStart? || step.DoResumeStart? || step.DoConfirm? || step.DoArchive? || step.DoRestore?
       || step.DoDelete? || step.DoEditStart? || step.DoLinkStart? || step.DoCancel?
    then Some(step.actor) else None
  }

  /** Anybody but the owner, and any request for a task that is not there, gets the same answer and changes nothing. */
  lemma StrangersLearnNothing(env: Env, s: TaskState, step: Step)
    requires Enabled(s, step) && Requester(step).Some? && !Authorized(s, Requester(step).value)
    ensures Answer(env, s, step) == (s, Refused(NotFound))
  {
    hide Authorized;
  }

  function TicketOf(step: Step): set<nat> {
    if step.DoClarifyFinish? || step.DoResumeResolve? || step.DoResumeFinish? || step.DoEditFinish? || step.DoLinkFinish?
    then {step.key} else {}
  }

  predicate Undispatched(step: Step) {
    !step.DoCreate? && !step.DoClarifyFinish? && !step.DoResumeFinish?
  }

  /** A refused or repeated request leaves everything as it was, but for the ticket it had parked. */
  lemma RefusalsChangeNothing(env: Env, s: TaskState, step: Step)
    requires Enabled(s, step) && (Answer(env, s, step).1.Refused? || Answer(env, s, step).1.Repeated?)
    ensures Answer(env, s, step).0 == s.(waiting := s.waiting - TicketOf(step))
  {
    hide Authorized, Text.Trim, AlreadyConfirmed, Deletable, DuplicateLink, Internal, Clarified, ResumeDraft, Resumed, Edited, Confirmed;
    assert s.waiting - {} == s.waiting;
  }

  /** A save that fails outside a dispatch leaves the stored record untouched. */
  lemma FailedSavesChangeNothing(env: Env, s: TaskState, step: Step)
    requires Enabled(s, step) && Undispatched(step) && Answer(env, s, step).1.StoreFailed?
    ensures Answer(env, s, step).0 == s.(waiting := s.waiting - TicketOf(step))
  {
    hide Authorized, Text.Trim, AlreadyConfirmed, Deletable, DuplicateLink, Internal, Edited, Confirmed;
    assert s.waiting - {} == s.waiting;
  }

  // ----- What a resume carries over --------------------------------------------

  lemma ResumedEvents(latest: Record, prepared: Record, hasRequest: bool, resolved: Resolved, at: int)
    ensures Resumed(latest, prepared, hasRequest, resolved, at).events
         == latest.events + [Event(at, "resumed", ""), Event(at, RECOVERY_KIND, "")]
  {
    hide VersionOf, MarkStale;
  }

  /** What saving and dispatching a resumed record writes behind its latest trail. */
  function ResumeTrail(disk: Disk): seq<Event> {
    [Event(disk.at, "resumed", ""), Event(disk.at, RECOVERY_KIND, "")]
      + if !disk.begun && disk.compensated then [Event(disk.at, "dispatch_failed", "")] else []
  }

  lemma DispatchTrail(s: TaskState, r: Record, disk: Disk)
    requires r.status.InFlight() && disk.saved
    ensures var t := SaveAndDispatch(s, r, disk).0;
            && t.record.Some?
            && t.record.value.events == r.events + if !disk.begun && disk.compensated then [Event(disk.at, "dispatch_failed", "")] else []
  {
  }

  /**
   Of the copy a resume prepared, no event reaches the store: a snapshot selection is in the trail
   after a saved resume exactly when the latest stored trail already had it.
   */
  lemma SelectionRecordedExactly(s: TaskState, key: nat, checkpoint: Option<Checkpoint>, disk: Disk, selection: Event)
    requires Enabled(s, DoResumeFinish(key, checkpoint, disk)) && ResumePasses(s, key, checkpoint) && disk.saved
    requires selection.kind == "snapshot_selected"
    ensures var t := ResumeFinish(s, key, checkpoint, disk).0;
            && t.record.Some? && t.record.value.events == s.record.value.events + ResumeTrail(disk)
            && (selection in t.record.value.events <==> selection in s.record.value.events)
  {
    hide Continuable, Resumed;
    var ticket, latest := s.waiting[key], s.record.value;
    var resumed := Resumed(latest, ticket.prepared, ticket.request.Some?, ticket.resolved, disk.at);
    ResumedEvents(latest, ticket.prepared, ticket.request.Some?, ticket.resolved, disk.at);
    assert resumed.status.Running? by { ResumedRuns(latest, ticket.prepared, ticket.request.Some?, ticket.resolved, disk.at); }
    DispatchTrail(s.Drop(key), resumed, disk);
    NoSelection(disk, selection);
  }

  lemma ResumedRuns(latest: Record, prepared: Record, hasRequest: bool, resolved: Resolved, at: int)
    ensures Resumed(latest, prepared, hasRequest, resolved, at).status.Running?
  {
    hide VersionOf, MarkStale, MergedInputs;
  }

  lemma NoSelection(disk: Disk, selection: Event)
    requires selection.kind == "snapshot_selected"
    ensures selection !in ResumeTrail(disk)
  {
    assert |selection.kind| == 17;
  }

  /** A clarification that selects a snapshot does store that event. */
  lemma ClarifyStoresSnapshotEvent(r: Record, request: ClarifyRequest, resolved: Resolved, facts: Findings, at: int)
    requires Clarified(r, request, resolved, facts, at).Ok? && Text.Trim(request.snapshotId.GetOr("")) != ""
    ensures Event(at, "snapshot_selected", Text.Trim(request.snapshotId.GetOr("")))
         in Clarified(r, request, resolved, facts, at).value.events
  {
    hide VersionOf, MarkStale, Text.Trim, MergeSlots;
    var bound := r.(authorizedApplication := resolved.applicationId);
    var selected := ApplySnapshot(bound.(slots := MergeSlots(bound.slots, request.slots, resolved)), request, facts.snapshot, at).value;
    var n := |r.events|;
    assert selected.events[n] == Event(at, "snapshot_selected", Text.Trim(request.snapshotId.GetOr("")));
    var b := Clarified(r, request, resolved, facts, at).value;
    assert n < |b.events| && b.events[n] == selected.events[n];
  }
}
