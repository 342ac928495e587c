/**
 What every save keeps: the soundness of a record in itself, and the growth of a
 record from one save to the next.
 */
module RecordLaws {
  import opened Wrappers
  import opened TaskRecords
  import Text
  import UsageLedger

  // ----- Soundness of one stored record ----------------------------------------

  /** The stored input version is the one recomputed from the current inputs. */
  ghost predicate VersionValid(r: Record) {
    r.inputVersion == VersionOf(r)
  }

  /** A confirmation not marked invalid matches both the input version and the material. */
  ghost predicate ConfirmationsValid(r: Record) {
    forall i :: 0 <= i < |r.confirmations| && !r.confirmations[i].invalidated ==>
      Current(r.confirmations[i], r.inputVersion, r.CurrentHash())
  }

  /** Archived work is not in flight; deleted work is archived, stopped and empty. */
  ghost predicate LifecycleValid(r: Record) {
    && (r.archived ==> !r.status.InFlight())
    && (r.deleted ==> r.archived && r.status.Removable() && r.draft.None? && r.confirmations == [] && r.changeLinks == [] && !r.foreignLinks)
  }

  /** Every management event is also in the task's own trail. */
  ghost predicate TrailComplete(r: Record) {
    multiset(r.managementEvents) <= multiset(r.events)
  }

  ghost predicate Sound(r: Record) {
    VersionValid(r) && ConfirmationsValid(r) && LifecycleValid(r) && TrailComplete(r)
  }

  // ----- Growth between two saves ----------------------------------------------

  /** Confirmations are never dropped, and a mark of invalidity is never taken back. */
  ghost predicate ConfirmationsKept(a: seq<Confirmation>, b: seq<Confirmation>) {
    |a| <= |b| && forall i :: 0 <= i < |a| ==> b[i] == a[i].(invalidated := b[i].invalidated) && (a[i].invalidated ==> b[i].invalidated)
  }

  ghost predicate MaterialKept(a: Record, b: Record) {
    && ConfirmationsKept(a.confirmations, b.confirmations)
    && a.changeLinks <= b.changeLinks
    && a.draftVersions <= b.draftVersions
  }

  ghost predicate TrailKept(a: Record, b: Record) {
    a.managementEvents <= b.managementEvents && multiset(a.events) <= multiset(b.events)
  }

  ghost predicate CountersKept(a: Record, b: Record) {
    && a.UsedRequests() <= b.UsedRequests()
    && a.runGeneration <= b.runGeneration
    && (a.status.Cancelled? ==> b.status.Cancelled?)
    && a.owner == b.owner && a.requirement == b.requirement
  }

  ghost predicate Grows(a: Record, b: Record) {
    MaterialKept(a, b) && TrailKept(a, b) && CountersKept(a, b)
  }

  /** What the user told the task: slots, notes and the schema snapshot with its source. */
  predicate SameInputs(a: Record, b: Record) {
    && a.slots == b.slots && a.notes == b.notes
    && a.schemaSnapshot == b.schemaSnapshot && a.snapshotKind == b.snapshotKind && a.selectedSnapshot == b.selectedSnapshot
  }

  lemma GrowsReflexive(a: Record)
    ensures Grows(a, a)
  {
  }

  lemma GrowsTransitive(a: Record, b: Record, c: Record)
    requires Grows(a, b) && Grows(b, c)
    ensures Grows(a, c)
  {
  }

  // ----- Building blocks -------------------------------------------------------

  lemma LogKeeps(r: Record, e: Event)
    ensures var b := r.Log(e);
            && TrailKept(r, b)
            && (TrailComplete(r) ==> TrailComplete(b))
  {
    assert multiset(r.events + [e]) == multiset(r.events) + multiset{e};
  }

  lemma InvalidateStaleLaws(r: Record)
    ensures ConfirmationsValid(InvalidateStale(r))
    ensures ConfirmationsKept(r.confirmations, InvalidateStale(r).confirmations)
  {
  }

  lemma ApplyInputVersionLaws(r: Record)
    ensures var b := ApplyInputVersion(r);
            && VersionValid(b)
            && ConfirmationsKept(r.confirmations, b.confirmations)
            && (ConfirmationsValid(r) ==> ConfirmationsValid(b))
            && b == r.(confirmations := b.confirmations, draft := b.draft, inputVersion := b.inputVersion)
  {
    if VersionOf(r) != r.inputVersion {
      var reset := r.(draft := None, inputVersion := VersionOf(r));
      InvalidateStaleLaws(reset);
    }
  }

  lemma AnnotateLaws(r: Record, at: int)
    ensures var b := AnnotateRecovery(r, at);
            && b == r.(events := b.events)
            && multiset(r.events) <= multiset(b.events)
            && (TrailComplete(r) ==> TrailComplete(b))
  {
    var all := MissingFrom(r.managementEvents, r.events);
    assert all == r.events + all[|r.events|..];
    assert multiset(all) == multiset(r.events) + multiset(all[|r.events|..]);
    var sorted := SortByTime(all);
    var e := Event(at, RECOVERY_KIND, "");
    assert multiset(sorted + [e]) == multiset(sorted) + multiset{e};
  }

  lemma AnnotatedLaws(r: Record, at: int)
    requires Sound(r)
    ensures var b := AnnotateRecovery(r, at);
            Sound(b) && Grows(r, b) && SameOwnership(r, b) && b.status == r.status
  {
    AnnotateLaws(r, at);
  }

  // ----- Each operation --------------------------------------------------------

  lemma NewTaskSound(actor: Actor, request: CreateRequest, at: int)
    ensures Sound(NewTask(actor, request, at))
  {
    assert BulletList([]) == "";
  }

  lemma ApplySnapshotFrame(r: Record, request: ClarifyRequest, found: Option<(SnapshotMeta, string)>, at: int)
    requires ApplySnapshot(r, request, found, at).Ok?
    ensures var b := ApplySnapshot(r, request, found, at).value;
            && b == r.(schemaSnapshot := b.schemaSnapshot, snapshotKind := b.snapshotKind,
                       selectedSnapshot := b.selectedSnapshot, events := b.events)
            && r.events <= b.events
  {
    hide Text.Trim, Text.Blank;
  }

  lemma TrailExtended(a: Record, b: Record)
    requires a.events <= b.events && a.managementEvents == b.managementEvents
    ensures TrailKept(a, b) && (TrailComplete(a) ==> TrailComplete(b))
  {
    assert b.events == a.events + b.events[|a.events|..];
    assert multiset(b.events) == multiset(a.events) + multiset(b.events[|a.events|..]);
  }

  /** Applying a request's inputs touches inputs and the trail, nothing else. */
  lemma ApplyInputFrame(r: Record, request: ClarifyRequest, resolved: Resolved, facts: Findings, at: int)
    requires ApplyInput(r, request, resolved, facts, at).Ok?
    ensures var b := ApplyInput(r, request, resolved, facts, at).value;
            && b == r.(slots := b.slots, schemaSnapshot := b.schemaSnapshot, snapshotKind := b.snapshotKind,
                       selectedSnapshot := b.selectedSnapshot, notes := b.notes, events := b.events)
            && r.notes <= b.notes && r.events <= b.events
  {
    ApplySnapshotFrame(r.(slots := MergeSlots(r.slots, request.slots, resolved)), request, facts.snapshot, at);
  }

  /** Back in flight, with nothing but the marks of how it got there changed. */
  lemma RequeuingKeeps(r: Record, changed: Record)
    requires Sound(r) && r.Active() && !r.status.Cancelled? && changed.status.InFlight()
    requires changed == r.(awaitingInput := changed.awaitingInput, status := changed.status, atLeastOnce := changed.atLeastOnce,
                           resumeCount := changed.resumeCount, authorizedApplication := changed.authorizedApplication)
    ensures Sound(changed) && Grows(r, changed) && SameOwnership(r, changed) && changed.Active()
  {
  }

  lemma RequeuedLaws(r: Record, at: int)
    requires Sound(r) && r.Active() && !r.status.Cancelled?
    ensures var b := Requeued(r, at);
            Sound(b) && Grows(r, b) && b.status.InFlight() && b.Active() && SameOwnership(r, b)
  {
    hide Sound, Grows;
    var logged := r.Log(Event(at, "clarified", ""));
    LoggedLaws(r, Event(at, "clarified", ""));
    if logged.awaitingInput {
      var running := logged.(awaitingInput := false, status := Running, atLeastOnce := true, resumeCount := logged.resumeCount + 1);
      RequeuingKeeps(logged, running);
      LoggedLaws(running, Event(at, RECOVERY_KIND, ""));
      GrowsTransitive(r, logged, running);
      GrowsTransitive(r, running, running.Log(Event(at, RECOVERY_KIND, "")));
    } else {
      RequeuingKeeps(logged, logged.(status := Received));
      GrowsTransitive(r, logged, logged.(status := Received));
    }
  }

  lemma VersionedLaws(r: Record, changed: Record)
    requires Sound(r) && r.Active()
    requires changed == r.(slots := changed.slots, schemaSnapshot := changed.schemaSnapshot, snapshotKind := changed.snapshotKind,
                           selectedSnapshot := changed.selectedSnapshot, notes := changed.notes, events := changed.events,
                           authorizedApplication := changed.authorizedApplication)
    requires r.events <= changed.events
    ensures var b := ApplyInputVersion(changed);
            Sound(b) && Grows(r, b) && b.status == r.status && b.Active() && SameOwnership(r, b)
  {
    assert ConfirmationsValid(changed);
    ApplyInputVersionLaws(changed);
    TrailExtended(r, changed);
  }

  lemma ClarifiedLaws(r: Record, request: ClarifyRequest, resolved: Resolved, facts: Findings, at: int)
    requires Sound(r) && r.Active() && r.status.Resumable()
    requires Clarified(r, request, resolved, facts, at).Ok?
    ensures var b := Clarified(r, request, resolved, facts, at).value;
            Sound(b) && Grows(r, b) && b.status.InFlight() && b.Active() && SameOwnership(r, b)
  {
    var bound := r.(authorizedApplication := resolved.applicationId);
    ApplyInputFrame(bound, request, resolved, facts, at);
    var changed := ApplyInput(bound, request, resolved, facts, at).value;
    VersionedLaws(r, changed);
    var versioned := ApplyInputVersion(changed);
    RequeuedLaws(versioned, at);
    GrowsTransitive(r, versioned, Requeued(versioned, at));
  }

  /** An operation that leaves the ownership of the record and its ledger to dispatch. */
  ghost predicate SameOwnership(a: Record, b: Record) {
    a.executionId == b.executionId && a.runGeneration == b.runGeneration && a.usage == b.usage
  }

  lemma ResumedLaws(latest: Record, prepared: Record, hasRequest: bool, resolved: Resolved, at: int)
    requires Sound(latest) && latest.Active() && latest.status.Resumable()
    ensures var b := Resumed(latest, prepared, hasRequest, resolved, at);
            Sound(b) && Grows(latest, b) && b.status.Running? && b.Active() && SameOwnership(latest, b)
  {
    hide Sound, Grows, ApplyInputVersion;
    var merged := MergedInputs(latest, prepared, hasRequest);
    VersionedLaws(latest, merged);
    var current := ApplyInputVersion(merged);
    var running := current.(authorizedApplication := resolved.applicationId, awaitingInput := false, status := Running,
                            atLeastOnce := true, resumeCount := current.resumeCount + 1);
    var a, b := Event(at, "resumed", ""), Event(at, RECOVERY_KIND, "");
    RequeuingKeeps(current, running);
    LoggedLaws(running, a);
    LoggedLaws(running.Log(a), b);
    assert current.events + [a] + [b] == current.events + [a, b];
    assert Resumed(latest, prepared, hasRequest, resolved, at) == running.Log(a).Log(b);
    GrowsTransitive(latest, current, running);
    GrowsTransitive(latest, running, running.Log(a));
    GrowsTransitive(latest, running.Log(a), running.Log(a).Log(b));
  }

  lemma InvalidatedLaws(r: Record, changed: Record)
    requires Sound(r) && r.Active()
    requires changed == r.(draft := changed.draft, status := changed.status)
    ensures var b := InvalidateStale(changed);
            Sound(b) && MaterialKept(r, b) && TrailKept(r, b)
  {
    InvalidateStaleLaws(changed);
  }

  lemma LoggedLaws(r: Record, e: Event)
    requires Sound(r)
    ensures Sound(r.Log(e)) && Grows(r, r.Log(e)) && SameOwnership(r, r.Log(e))
  {
    LogKeeps(r, e);
  }

  lemma ConfirmedLaws(r: Record, actor: Actor, note: string, at: int)
    requires Sound(r) && r.Active() && r.draft.Some?
    ensures var b := Confirmed(r, actor, r.draft.value.Digest(), note, at);
            && Sound(b) && Grows(r, b) && SameOwnership(r, b)
            && |b.confirmations| == |r.confirmations| + 1
            && !b.confirmations[|r.confirmations|].invalidated
            && b.confirmations[|r.confirmations|].confirmedBy == actor
  {
    var marked := InvalidateStale(r);
    InvalidatedLaws(r, r);
    var c := Confirmation(actor, r.inputVersion, r.draft.value.Digest(), Text.Trim(note), false);
    var signed := marked.(confirmations := marked.confirmations + [c]);
    assert Sound(signed) && Grows(r, signed);
    LoggedLaws(signed, Event(at, "confirmed", ""));
    GrowsTransitive(r, signed, signed.Log(Event(at, "confirmed", "")));
  }

  lemma ManagedLaws(r: Record, kind: string, actor: Actor, at: int)
    requires VersionValid(r) && ConfirmationsValid(r) && LifecycleValid(r) && TrailComplete(r)
    ensures var b := Managed(r, kind, actor, at);
            Sound(b) && Grows(r, b) && SameOwnership(r, b)
  {
    var e := Event(at, kind, actor.user);
    assert multiset(r.events + [e]) == multiset(r.events) + multiset{e};
    assert multiset(r.managementEvents + [e]) == multiset(r.managementEvents) + multiset{e};
  }

  lemma EditedMaterialLaws(r: Record, draft: Draft, status: Status, actor: string, reason: string)
    requires Sound(r) && r.Active() && r.status.HasMaterial() && status.HasMaterial()
    ensures var b := RecordDraftVersion(InvalidateStale(r.(draft := Some(draft), status := status)), Some(draft), "user_edit", actor, reason);
            && Sound(b) && Grows(r, b) && SameOwnership(r, b)
            && b.status == status && b.draft == Some(draft)
            && |b.draftVersions| == |r.draftVersions| + 1
  {
    var changed := r.(draft := Some(draft), status := status);
    InvalidatedLaws(r, changed);
    RecordDraftVersionLaws(InvalidateStale(changed), Some(draft), "user_edit", actor, reason);
  }

  lemma EditedLaws(r: Record, sql: string, rollback: string, checkStatus: string, reason: string, actor: Actor, at: int)
    requires Sound(r) && r.Active() && r.status.HasMaterial()
    ensures var b := Edited(r, sql, rollback, checkStatus, reason, actor, at);
            && Sound(b) && Grows(r, b) && SameOwnership(r, b) && b.status.HasMaterial()
            && b.draft == Some(EditedDraft(LatestDraft(r), sql, rollback, checkStatus))
            && |b.draftVersions| == |r.draftVersions| + 1
  {
    var draft := EditedDraft(LatestDraft(r), sql, rollback, checkStatus);
    var status := if checkStatus == "BLOCKED" || checkStatus == "FAILED" then CheckBlocked else DraftReady;
    EditedMaterialLaws(r, draft, status, actor.user, reason);
    var versioned := RecordDraftVersion(InvalidateStale(r.(draft := Some(draft), status := status)), Some(draft), "user_edit", actor.user, reason);
    LoggedLaws(versioned, Event(at, "draft_edited", actor.user));
    GrowsTransitive(r, versioned, versioned.Log(Event(at, "draft_edited", actor.user)));
  }

  lemma LinkedLaws(r: Record, actor: Actor, changeId: string, key: string, at: int)
    requires Sound(r) && r.Active()
    ensures var b := Linked(r, actor, changeId, key, at);
            Sound(b) && Grows(r, b) && SameOwnership(r, b) && b.status == r.status
  {
    LogKeeps(r.(changeLinks := r.changeLinks + [ChangeLink(changeId, actor, key)]), Event(at, "change_linked", changeId));
  }

  lemma CancelledLaws(r: Record, at: int)
    requires Sound(r) && r.Active()
    ensures Sound(CancelledRecord(r, at)) && Grows(r, CancelledRecord(r, at))
  {
    LogKeeps(r.(runGeneration := r.runGeneration + 1, executionId := NO_EXECUTION, status := Cancelled), Event(at, "cancelled", ""));
  }

  lemma StoppedLaws(r: Record, kind: string, at: int)
    requires Sound(r) && r.status.InFlight()
    ensures Sound(Stopped(r, kind, at)) && Grows(r, Stopped(r, kind, at)) && SameOwnership(r, Stopped(r, kind, at))
  {
    LogKeeps(r.(status := Failed), Event(at, kind, ""));
  }

  lemma BegunLaws(r: Record, id: ExecutionId)
    requires Sound(r)
    ensures Sound(Begun(r, id)) && Grows(r, Begun(r, id))
  {
  }

  lemma BilledLaws(r: Record, usage: UsageLedger.Payload)
    requires Sound(r) && r.UsedRequests() <= usage.requests
    ensures Sound(r.(usage := Some(usage))) && Grows(r, r.(usage := Some(usage)))
  {
  }

  lemma RecordDraftVersionLaws(r: Record, draft: Option<Draft>, origin: string, actor: string, reason: string)
    ensures var b := RecordDraftVersion(r, draft, origin, actor, reason);
            b == r.(draftVersions := b.draftVersions) && r.draftVersions <= b.draftVersions
  {
  }

  /** A run that completes regenerates the draft; what no longer matches it is marked. */
  lemma CompletedLaws(r: Record, status: Status, draft: Option<Draft>, merged: seq<Event>, at: int)
    requires Sound(r) && r.Active() && !r.status.Cancelled? && r.events <= merged
    ensures var run := r.(awaitingInput := false, status := status, draft := draft, events := merged);
            var b := AnnotateRecovery(InvalidateStale(RecordDraftVersion(run, draft, "agent", "agent", "generated")), at);
            Sound(b) && Grows(r, b) && SameOwnership(r, b) && b.status == status
  {
    var run := r.(awaitingInput := false, status := status, draft := draft, events := merged);
    TrailExtended(r, run);
    RecordDraftVersionLaws(run, draft, "agent", "agent", "generated");
    var versioned := RecordDraftVersion(run, draft, "agent", "agent", "generated");
    InvalidateStaleLaws(versioned);
    var marked := InvalidateStale(versioned);
    assert Sound(marked) && Grows(r, marked);
    AnnotatedLaws(marked, at);
    GrowsTransitive(r, marked, AnnotateRecovery(marked, at));
  }

  lemma InterruptedLaws(r: Record, merged: seq<Event>, at: int)
    requires Sound(r) && r.Active() && !r.status.Cancelled? && r.events <= merged
    ensures var waiting := r.(status := NeedsInfo, awaitingInput := true, events := merged + [Event(at, "awaiting_input", "")]);
            var b := AnnotateRecovery(waiting, at);
            Sound(b) && Grows(r, b) && SameOwnership(r, b) && b.status.NeedsInfo?
  {
    var waiting := r.(status := NeedsInfo, awaitingInput := true, events := merged + [Event(at, "awaiting_input", "")]);
    TrailExtended(r, waiting);
    assert Sound(waiting) && Grows(r, waiting);
    AnnotatedLaws(waiting, at);
    GrowsTransitive(r, waiting, AnnotateRecovery(waiting, at));
  }

  /** However a run ends, its terminal record is sound and loses nothing the run started from. */
  lemma FinishedLaws(r: Record, outcome: RunOutcome, usage: UsageLedger.Payload, at: int)
    requires Sound(r) && r.Active() && r.status.InFlight() && r.UsedRequests() <= usage.requests
    ensures var b := Finished(r, outcome, usage, at);
            && Sound(b) && Grows(r, b)
            && b.executionId == r.executionId && b.usage == Some(usage) && b.runGeneration == r.runGeneration
            && b.status == OutcomeStatus(outcome)
  {
    hide Sound, Grows, MergeEvents, AnnotateRecovery, InvalidateStale, RecordDraftVersion;
    var billed := r.(usage := Some(usage));
    BilledLaws(r, usage);
    match outcome
    case TimedOut =>
      StoppedLaws(billed, "timeout", at);
      GrowsTransitive(r, billed, Stopped(billed, "timeout", at));
    case Raised =>
      StoppedLaws(billed, "failed", at);
      GrowsTransitive(r, billed, Stopped(billed, "failed", at));
    case Interrupted(events) =>
      var produced := if events == [] then r.events else events;
      MergeKeeps(r.events, produced);
      InterruptedLaws(billed, MergeEvents(r.events, produced), at);
      GrowsTransitive(r, billed, Finished(r, outcome, usage, at));
    case Completed(status, draft, events) =>
      var produced := if events == [] then r.events else events;
      MergeKeeps(r.events, produced);
      CompletedLaws(billed, status, draft, MergeEvents(r.events, produced), at);
      GrowsTransitive(r, billed, Finished(r, outcome, usage, at));
  }

  /** What a run started from is billed again at its end, so the usage it saw does not matter. */
  lemma SameRun(a: Record, b: Record, outcome: RunOutcome, usage: UsageLedger.Payload, at: int)
    requires b == a.(usage := b.usage)
    ensures Finished(a, outcome, usage, at) == Finished(b, outcome, usage, at)
  {
    hide MergeEvents, AnnotateRecovery, InvalidateStale, RecordDraftVersion, Stopped;
  }

  lemma AnnotatedInputs(r: Record, at: int)
    ensures SameInputs(r, AnnotateRecovery(r, at))
  {
    hide SortByTime, MissingFrom;
  }

  lemma VersionedInputs(r: Record, draft: Option<Draft>)
    ensures SameInputs(r, InvalidateStale(RecordDraftVersion(r, draft, "agent", "agent", "generated")))
  {
    hide MarkStale, VersionEntry;
  }

  lemma CompletedInputs(r: Record, status: Status, draft: Option<Draft>, merged: seq<Event>, at: int)
    ensures var run := r.(awaitingInput := false, status := status, draft := draft, events := merged);
            SameInputs(r, AnnotateRecovery(InvalidateStale(RecordDraftVersion(run, draft, "agent", "agent", "generated")), at))
  {
    hide AnnotateRecovery, InvalidateStale, RecordDraftVersion;
    var run := r.(awaitingInput := false, status := status, draft := draft, events := merged);
    VersionedInputs(run, draft);
    AnnotatedInputs(InvalidateStale(RecordDraftVersion(run, draft, "agent", "agent", "generated")), at);
  }

  /** A run changes no input. */
  lemma FinishedInputs(r: Record, outcome: RunOutcome, usage: UsageLedger.Payload, at: int)
    ensures SameInputs(r, Finished(r, outcome, usage, at))
  {
    hide MergeEvents, AnnotateRecovery, InvalidateStale, RecordDraftVersion;
    var billed := r.(usage := Some(usage));
    match outcome
    case TimedOut =>
    case Raised =>
    case Interrupted(events) =>
      var merged := MergeEvents(r.events, if events == [] then r.events else events);
      AnnotatedInputs(billed.(status := NeedsInfo, awaitingInput := true, events := merged + [Event(at, "awaiting_input", "")]), at);
    case Completed(status, draft, events) =>
      CompletedInputs(billed, status, draft, MergeEvents(r.events, if events == [] then r.events else events), at);
  }

  function OutcomeStatus(outcome: RunOutcome): Status {
    match outcome
    case Interrupted(_) => NeedsInfo
    case Completed(status, _, _) => status
    case TimedOut => Failed
    case Raised => Failed
  }
}
