/**
 Who is answered what by every other request about a task, and the record it leaves behind:
 opening a request, confirming, editing, linking, managing, cancelling, creating, restarting.
 */
module TaskDecisions {
  import opened Wrappers
  import opened TaskRecords
  import opened RecordLaws
  import opened TaskMachine
  import opened TaskAnswers
  import opened TaskResults
  import L = UsageLedger
  import Text

  // ----- Who asks --------------------------------------------------------------

  /** The one who asks is the owner named by the record, both names known. */
  predicate AskedByOwner(s: TaskState, actor: Actor) {
    && s.record.Some?
    && !Text.Blank(s.record.value.owner.organization) && !Text.Blank(s.record.value.owner.user)
    && actor == Actor(Text.Trim(s.record.value.owner.organization), Text.Trim(s.record.value.owner.user))
  }

  lemma AuthorizedExactly(s: TaskState, actor: Actor)
    ensures Authorized(s, actor) <==> AskedByOwner(s, actor)
    ensures AskedByOwner(s, actor) ==> s.record.Some?
  {
    if s.record.Some? {
      Text.TrimEmptyIffBlank(s.record.value.owner.organization);
      Text.TrimEmptyIffBlank(s.record.value.owner.user);
    }
  }

  predicate InWorkspace(r: Record) { !r.archived && !r.deleted }

  predicate MayGoOn(r: Record) { InWorkspace(r) && (r.status == NeedsInfo || r.status == Failed || r.status == CheckBlocked) }

  predicate ShowsMaterial(r: Record) { InWorkspace(r) && (r.status == DraftReady || r.status == CheckBlocked) }

  // ----- Opening a request -----------------------------------------------------

  /** A clarification is taken in, with the status it saw, from the owner of a task that may go on. */
  lemma ClarifyOpens(s: TaskState, key: nat, actor: Actor, request: ClarifyRequest)
    ensures var (t, reply) := ClarifyStart(s, key, actor, request);
            if !AskedByOwner(s, actor) then (t, reply) == (s, Refused(NotFound))
            else if !MayGoOn(s.record.value) then (t, reply) == (s, Refused(NotResumable))
            else reply == Suspended && t == s.(waiting := s.waiting[key := ClarifyWaiting(request, s.record.value.status)])
  {
    hide Text.Trim, Text.Blank, Authorized, AskedByOwner;
    AuthorizedExactly(s, actor);
  }

  /** A resume also needs that nothing runs for the task, and keeps the whole record it saw. */
  lemma ResumeOpens(s: TaskState, key: nat, actor: Actor, request: Option<ClarifyRequest>)
    ensures var (t, reply) := ResumeStart(s, key, actor, request);
            if !AskedByOwner(s, actor) then (t, reply) == (s, Refused(NotFound))
            else if !MayGoOn(s.record.value) || s.current.Some? then (t, reply) == (s, Refused(NotResumable))
            else reply == Suspended && t == s.(waiting := s.waiting[key := ResumeResolving(request, s.record.value)])
  {
    hide Text.Trim, Text.Blank, Authorized, AskedByOwner;
    AuthorizedExactly(s, actor);
  }

  predicate EditOpens(s: TaskState, expectedVersion: int, injectionFound: bool) {
    && s.record.Some? && ShowsMaterial(s.record.value) && s.current.None? && !injectionFound && s.record.value.draft.Some?
    && expectedVersion == (if s.record.value.draft.value.version == 0 then 1 else s.record.value.draft.value.version)
  }

  /** An edit is taken in for the version that is stored, and parked with the text and the record it is based on. */
  lemma EditOpensExactly(s: TaskState, key: nat, actor: Actor, sql: string, rollback: string, reason: string, expectedVersion: int, injectionFound: bool)
    ensures var (t, reply) := EditStart(s, key, actor, sql, rollback, reason, expectedVersion, injectionFound);
            if !AskedByOwner(s, actor) then (t, reply) == (s, Refused(NotFound))
            else if !EditOpens(s, expectedVersion, injectionFound) then (t, reply) == (s, Refused(NotResumable))
            else reply == Suspended
                 && t == s.(waiting := s.waiting[key := EditScanning(actor, sql, rollback, reason, expectedVersion, s.record.value)])
  {
    hide Text.Trim, Text.Blank, Authorized, AskedByOwner;
    AuthorizedExactly(s, actor);
  }

  /** A change is linked already: under this identifier, or by the request with this key. */
  predicate LinkedAlready(r: Record, changeId: string, key: string) {
    exists link :: link in r.changeLinks && (link.changeId == changeId || (link.idempotencyKey == key && key != ""))
  }

  lemma DuplicateExactly(r: Record, changeId: string, key: string)
    ensures DuplicateLink(r.changeLinks, changeId, key) <==> LinkedAlready(r, changeId, key)
  {
  }

  /** The key of a link: the caller's own, or else the change's identifier. */
  function LinkKey(changeId: string, idempotencyKey: string): string {
    if idempotencyKey == "" then Text.Trim(changeId) else Text.Trim(idempotencyKey)
  }

  lemma LinkOpensExactly(s: TaskState, key: nat, actor: Actor, changeId: string, idempotencyKey: string)
    ensures var (t, reply) := LinkStart(s, key, actor, changeId, idempotencyKey);
            if !AskedByOwner(s, actor) then (t, reply) == (s, Refused(NotFound))
            else if !InWorkspace(s.record.value) || s.current.Some? || Text.Blank(changeId) then (t, reply) == (s, Refused(NotResumable))
            else if LinkedAlready(s.record.value, Text.Trim(changeId), LinkKey(changeId, idempotencyKey)) then (t, reply) == (s, Repeated)
            else reply == Suspended
                 && t == s.(waiting := s.waiting[key := LinkChecking(actor, Text.Trim(changeId), LinkKey(changeId, idempotencyKey))])
  {
    hide Text.Trim, Text.Blank, Authorized, AskedByOwner, DuplicateLink, LinkedAlready;
    AuthorizedExactly(s, actor);
    Text.TrimEmptyIffBlank(changeId);
    Text.TrimFixpoint(changeId);
    if s.record.Some? {
      DuplicateExactly(s.record.value, Text.Trim(changeId), LinkKey(changeId, idempotencyKey));
    }
  }

  // ----- Confirming ------------------------------------------------------------

  /** The owner has signed this material already: a confirmation of theirs still counts. */
  predicate SignedBy(r: Record, actor: Actor) {
    exists c :: c in r.confirmations && !c.invalidated && c.confirmedBy.user == actor.user
  }

  predicate Confirmable(r: Record, claimed: Option<MaterialDigest>) {
    ShowsMaterial(r) && r.draft.Some? && claimed == Some(HashOf(r.draft.value))
  }

  lemma SignedExactly(r: Record, actor: Actor)
    requires Sound(r) && r.draft.Some?
    ensures AlreadyConfirmed(r, actor, HashOf(r.draft.value)) <==> SignedBy(r, actor)
  {
    if SignedBy(r, actor) {
      var c :| c in r.confirmations && !c.invalidated && c.confirmedBy.user == actor.user;
      var i :| 0 <= i < |r.confirmations| && r.confirmations[i] == c;
      assert Current(c, r.inputVersion, r.CurrentHash());
    }
  }

  lemma NothingStale(r: Record)
    requires Sound(r)
    ensures InvalidateStale(r) == r
  {
    var marked := MarkStale(r.confirmations, r.inputVersion, r.CurrentHash());
    forall i | 0 <= i < |r.confirmations|
      ensures marked[i] == r.confirmations[i]
    {
    }
    assert marked == r.confirmations;
  }

  /** On a sound record a confirmation adds one entry, for exactly the material shown, and changes no other. */
  lemma ConfirmExactly(s: TaskState, actor: Actor, claimed: Option<MaterialDigest>, note: string, saved: bool, at: int)
    requires s.record.Some? ==> Sound(s.record.value)
    ensures var (t, reply) := Confirm(s, actor, claimed, note, saved, at);
            if !AskedByOwner(s, actor) then (t, reply) == (s, Refused(NotFound))
            else if !Confirmable(s.record.value, claimed) then (t, reply) == (s, Refused(NotConfirmable))
            else if SignedBy(s.record.value, actor) then (t, reply) == (s, Repeated)
            else if !saved then (t, reply) == (s, StoreFailed)
            else
              var r := s.record.value;
              && reply == Accepted
              && t == s.(record := Some(r.(
                   confirmations := r.confirmations + [Confirmation(actor, r.inputVersion, HashOf(r.draft.value), Text.Trim(note), false)],
                   events := r.events + [Event(at, "confirmed", "")])))
  {
    hide Text.Trim, Text.Blank, Authorized, AskedByOwner, Sound, AlreadyConfirmed, SignedBy, InvalidateStale;
    AuthorizedExactly(s, actor);
    if s.record.Some? && s.record.value.draft.Some? {
      SignedExactly(s.record.value, actor);
      NothingStale(s.record.value);
    }
  }

  // ----- Editing and linking ---------------------------------------------------

  function StoredVersion(r: Record): int {
    if r.draft.None? || r.draft.value.version == 0 then 1 else r.draft.value.version
  }

  /** The edited text as the next version, judged by its check, with every confirmation of another text marked. */
  predicate EditedInto(before: Record, sql: string, rollback: string, checkStatus: string, reason: string, editor: Actor, at: int, after: Record) {
    var notes := if before.draft.Some? then before.draft.value.revisionNotes else [];
    var d := Draft(StoredVersion(before) + 1, sql, rollback, checkStatus, notes + ["edited"]);
    && after == before.(draft := Some(d), status := after.status, confirmations := after.confirmations,
                        draftVersions := after.draftVersions, events := before.events + [Event(at, "draft_edited", editor.user)])
    && after.status == (if checkStatus == "BLOCKED" || checkStatus == "FAILED" then CheckBlocked else DraftReady)
    && ConfirmationsTold(before, after, Some(d))
    && after.draftVersions == before.draftVersions
         + [DraftVersion(if d.version == 0 then 1 else d.version, "user_edit", editor.user, reason, sql, rollback, HashOf(d), before.selectedSnapshot)]
  }

  lemma UserVersion(r: Record, d: Draft, editor: string, reason: string)
    ensures RecordDraftVersion(r, Some(d), "user_edit", editor, reason)
         == r.(draftVersions := r.draftVersions + [DraftVersion(if d.version == 0 then 1 else d.version, "user_edit", editor, reason,
                                                                d.sql, d.rollback, HashOf(d), r.selectedSnapshot)])
  {
    assert "user_edit" != "agent" by { assert |"user_edit"| != |"agent"|; }
  }

  lemma NextDraft(r: Record, sql: string, rollback: string, checkStatus: string)
    ensures EditedDraft(LatestDraft(r), sql, rollback, checkStatus)
         == Draft(StoredVersion(r) + 1, sql, rollback, checkStatus, (if r.draft.Some? then r.draft.value.revisionNotes else []) + ["edited"])
  {
  }

  lemma EditedParts(r: Record, d: Draft, status: Status, reason: string, editor: Actor, at: int)
    ensures var changed := r.(draft := Some(d), status := status);
            var b := RecordDraftVersion(InvalidateStale(changed), Some(d), "user_edit", editor.user, reason).Log(Event(at, "draft_edited", editor.user));
            && ConfirmationsTold(r, b, Some(d))
            && b == changed.(confirmations := b.confirmations,
                             draftVersions := r.draftVersions + [DraftVersion(if d.version == 0 then 1 else d.version, "user_edit", editor.user, reason,
                                                                             d.sql, d.rollback, HashOf(d), r.selectedSnapshot)],
                             events := r.events + [Event(at, "draft_edited", editor.user)])
  {
    hide InvalidateStale, RecordDraftVersion, ConfirmationsTold, HashOf;
    var changed := r.(draft := Some(d), status := status);
    var marked := InvalidateStale(changed);
    StaleTold(changed);
    UserVersion(marked, d, editor.user, reason);
    var b := RecordDraftVersion(marked, Some(d), "user_edit", editor.user, reason).Log(Event(at, "draft_edited", editor.user));
    ConfirmationsAgain(changed, marked, r, b, Some(d));
  }

  lemma EditedUnfolds(r: Record, sql: string, rollback: string, checkStatus: string, reason: string, editor: Actor, at: int)
    ensures var d := EditedDraft(LatestDraft(r), sql, rollback, checkStatus);
            var changed := r.(draft := Some(d), status := if checkStatus == "BLOCKED" || checkStatus == "FAILED" then CheckBlocked else DraftReady);
            Edited(r, sql, rollback, checkStatus, reason, editor, at)
            == RecordDraftVersion(InvalidateStale(changed), Some(d), "user_edit", editor.user, reason).Log(Event(at, "draft_edited", editor.user))
  {
    hide InvalidateStale, RecordDraftVersion, EditedDraft, LatestDraft;
  }

  lemma EditedExactly(r: Record, sql: string, rollback: string, checkStatus: string, reason: string, editor: Actor, at: int)
    ensures EditedInto(r, sql, rollback, checkStatus, reason, editor, at, Edited(r, sql, rollback, checkStatus, reason, editor, at))
  {
    hide InvalidateStale, RecordDraftVersion, ConfirmationsTold, EditedDraft, LatestDraft, HashOf, Edited;
    NextDraft(r, sql, rollback, checkStatus);
    EditedUnfolds(r, sql, rollback, checkStatus, reason, editor, at);
    EditedParts(r, EditedDraft(LatestDraft(r), sql, rollback, checkStatus),
                if checkStatus == "BLOCKED" || checkStatus == "FAILED" then CheckBlocked else DraftReady, reason, editor, at);
  }

  /** An edit is saved exactly when the task still shows material, nothing runs, and the version is the one it was opened on. */
  lemma EditStores(s: TaskState, key: nat, checkStatus: string, saved: bool, at: int)
    requires Enabled(s, DoEditFinish(key, checkStatus, saved, at))
    ensures var ticket, r := s.waiting[key], s.record.value;
            var (t, reply) := EditFinish(s, key, checkStatus, saved, at);
            && t == s.(record := t.record, waiting := s.waiting - {key}) && t.record.Some?
            && if !ShowsMaterial(r) || s.current.Some? || StoredVersion(r) != ticket.seenVersion
               then reply == Refused(NotResumable) && t.record == s.record
               else if !saved then reply == StoreFailed && t.record == s.record
               else reply == Accepted
                    && EditedInto(r, ticket.sql, ticket.rollback, checkStatus, ticket.reason, ticket.editor, at, t.record.value)
  {
    hide Edited, EditedInto;
    var ticket := s.waiting[key];
    EditedExactly(s.record.value, ticket.sql, ticket.rollback, checkStatus, ticket.reason, ticket.editor, at);
  }

  /** A link is saved exactly when the change is known, nothing runs, and it has not been linked in the meantime. */
  lemma LinkStores(s: TaskState, key: nat, known: bool, saved: bool, at: int)
    requires Enabled(s, DoLinkFinish(key, known, saved, at))
    ensures var ticket, r := s.waiting[key], s.record.value;
            var (t, reply) := LinkFinish(s, key, known, saved, at);
            && t == s.(record := t.record, waiting := s.waiting - {key})
            && if !known || !InWorkspace(r) || s.current.Some? then reply == Refused(NotResumable) && t.record == s.record
               else if LinkedAlready(r, ticket.changeId, ticket.key) then reply == Repeated && t.record == s.record
               else if !saved then reply == StoreFailed && t.record == s.record
               else reply == Accepted
                    && t.record == Some(r.(changeLinks := r.changeLinks + [ChangeLink(ticket.changeId, ticket.linker, ticket.key)],
                                           events := r.events + [Event(at, "change_linked", ticket.changeId)]))
  {
    hide DuplicateLink, LinkedAlready;
    DuplicateExactly(s.record.value, s.waiting[key].changeId, s.waiting[key].key);
  }

  // ----- Managing --------------------------------------------------------------

  /** Nothing is in flight and nothing runs. */
  predicate AtRest(s: TaskState) {
    s.record.Some? && s.current.None? && s.record.value.status != Received && s.record.value.status != Running
  }

  /** Flags changed as told, and the operation noted in both trails. */
  function Noted(r: Record, kind: string, actor: Actor, at: int): Record {
    r.(managementEvents := r.managementEvents + [Event(at, kind, actor.user)], events := r.events + [Event(at, kind, actor.user)])
  }

  lemma ArchiveExactly(s: TaskState, actor: Actor, saved: bool, at: int)
    ensures var (t, reply) := Archive(s, actor, saved, at);
            if !AskedByOwner(s, actor) then (t, reply) == (s, Refused(NotFound))
            else if !AtRest(s) || s.record.value.deleted then (t, reply) == (s, Refused(NotResumable))
            else if s.record.value.archived then (t, reply) == (s, Repeated)
            else if !saved then (t, reply) == (s, StoreFailed)
            else (t, reply) == (s.(record := Some(Noted(s.record.value.(archived := true), "archived", actor, at))), Accepted)
  {
    hide Authorized, AskedByOwner;
    AuthorizedExactly(s, actor);
  }

  /** From the recycle bin into the archive, from the archive into the workspace; there, there is nothing to restore. */
  lemma RestoreExactly(s: TaskState, actor: Actor, saved: bool, at: int)
    ensures var (t, reply) := Restore(s, actor, saved, at);
            if !AskedByOwner(s, actor) then (t, reply) == (s, Refused(NotFound))
            else if !AtRest(s) then (t, reply) == (s, Refused(NotResumable))
            else if InWorkspace(s.record.value) then (t, reply) == (s, Repeated)
            else if !saved then (t, reply) == (s, StoreFailed)
            else
              var r := s.record.value;
              (t, reply) == (s.(record := Some(Noted(r.(deleted := false, archived := r.deleted), "restored", actor, at))), Accepted)
  {
    hide Authorized, AskedByOwner;
    AuthorizedExactly(s, actor);
  }

  /** Archived, stopped for good, and without a trace of material, confirmation or formal change. */
  predicate Empty(s: TaskState) {
    s.record.Some? && s.current.None?
    && var r := s.record.value;
       && r.archived && !r.deleted && (r.status == Failed || r.status == Cancelled || r.status == InputRejected)
       && r.draft.None? && r.confirmations == [] && r.changeLinks == [] && !r.foreignLinks
       && forall e :: e in r.events ==> e.kind != "generate_draft" && e.kind != "finalize" && e.kind != "confirmed" && e.kind != "change_linked"
  }

  lemma DeletableExactly(s: TaskState)
    requires s.record.Some?
    ensures Deletable(s) <==> Empty(s)
  {
  }

  /** Deleted only as previewed: the digest named is that of the record as it now is. */
  lemma DeleteExactly(s: TaskState, actor: Actor, previewed: RecordDigest, saved: bool, at: int)
    ensures var (t, reply) := Delete(s, actor, previewed, saved, at);
            if !AskedByOwner(s, actor) then (t, reply) == (s, Refused(NotFound))
            else if !Empty(s) || previewed != RecordDigest(s.record.value) then (t, reply) == (s, Refused(NotResumable))
            else if !saved then (t, reply) == (s, StoreFailed)
            else (t, reply) == (s.(record := Some(Noted(s.record.value.(deleted := true), "moved_to_trash", actor, at))), Accepted)
  {
    hide Authorized, AskedByOwner, Deletable, Empty;
    AuthorizedExactly(s, actor);
    if s.record.Some? {
      DeletableExactly(s);
    }
  }

  // ----- Cancelling, creating, restarting --------------------------------------

  /** A saved cancellation takes the record from its execution and tells that one, if it runs, to stop; nothing else. */
  lemma CancelExactly(s: TaskState, actor: Actor, saved: bool, at: int)
    ensures var (t, reply) := Cancel(s, actor, saved, at);
            if !AskedByOwner(s, actor) then (t, reply) == (s, Refused(NotFound))
            else if !InWorkspace(s.record.value) then (t, reply) == (s, Refused(NotResumable))
            else if !saved then (t, reply) == (s, StoreFailed)
            else
              var r := s.record.value;
              && reply == Accepted && t == s.(record := t.record, executions := t.executions)
              && t.record == Some(r.(status := Cancelled, executionId := NO_EXECUTION, runGeneration := r.runGeneration + 1,
                                     events := r.events + [Event(at, "cancelled", "")]))
              && t.executions.Keys == s.executions.Keys
              && forall id :: id in s.executions ==>
                   t.executions[id] == s.executions[id].(cancelRequested :=
                     s.executions[id].cancelRequested || (s.current == Some(id) && id == r.executionId && !s.executions[id].phase.Returned?))
  {
    hide Authorized, AskedByOwner;
    AuthorizedExactly(s, actor);
  }

  /** A created task: the caller's, received, with the request's inputs, and with nothing yet of what a run or a person adds. */
  predicate CreatedAs(actor: Actor, request: CreateRequest, at: int, r: Record) {
    && r.owner == actor && r.requirement == Text.Trim(request.requirement) && r.slots == request.slots && r.notes == []
    && r.schemaSnapshot == request.schemaSnapshot && r.snapshotKind == request.snapshotKind && r.selectedSnapshot == request.selectedSnapshot
    && r.authorizedApplication == request.authorizedApplication && VersionTold(r)
    && r.status == Received && !r.awaitingInput && !r.atLeastOnce && r.resumeCount == 0 && r.runGeneration == 0 && r.executionId == NO_EXECUTION
    && r.draft == None && r.draftVersions == [] && r.confirmations == [] && r.changeLinks == [] && r.managementEvents == [] && r.usage == None
    && !r.archived && !r.deleted && !r.foreignLinks
    && r.events == [Event(at, "created", "")]
                   + (if request.selectedSnapshot.Some? then [Event(at, "snapshot_selected", request.selectedSnapshot.value.knowledgeId)] else [])
  }

  lemma CreateExactly(s: TaskState, actor: Actor, request: CreateRequest, disk: Disk)
    requires s.record.None?
    ensures CreatedAs(actor, request, disk.at, NewTask(actor, request, disk.at))
    ensures var (t, reply) := CreateTask(s, actor, request, disk);
            && reply == (if disk.saved && disk.begun then Accepted else StoreFailed)
            && (if disk.saved then t.record.Some? && Dispatched(NewTask(actor, request, disk.at), disk, t.record.value) else t == s)
  {
    hide Text.Trim, Dispatched, SaveAndDispatch;
    NotesTextFrom(Text.Trim(request.requirement));
    assert [Event(disk.at, "created", "")] + [] == [Event(disk.at, "created", "")];
    DispatchTold(s, NewTask(actor, request, disk.at), disk);
  }

  /** Start-up fails every record it finds in flight, and touches no other; all that was in memory is gone. */
  lemma RestartExactly(s: TaskState, at: int)
    ensures var t := Restart(s, at);
            && t == TaskState(t.record, map[], None, None, map[], s.issued, s.sent)
            && t.record == match s.record
                           case None => None
                           case Some(r) =>
                             Some(if r.status == Received || r.status == Running
                                  then r.(status := Failed, awaitingInput := false, events := r.events + [Event(at, "restart", "")]) else r)
  {
  }

  /** A caller that goes away stops its own execution; a record that one still owns in flight is failed, or filed as a problem. */
  lemma AbandonExactly(s: TaskState, id: ExecutionId, saved: bool, at: int)
    requires id in s.issued
    ensures var t := CallerCancelled(s, id, saved, at);
            var abandoned := s.record.Some? && s.record.value.executionId == id && s.record.value.status.InFlight();
            && t == s.(record := t.record, executions := t.executions, problem := t.problem)
            && t.problem == (if abandoned && !saved then Some(id) else s.problem)
            && t.record == (if abandoned && saved
                            then Some(s.record.value.(status := Failed, events := s.record.value.events + [Event(at, "abandoned", "")]))
                            else s.record)
            && t.executions.Keys == s.executions.Keys
            && forall other :: other in s.executions ==>
                 t.executions[other] == s.executions[other].(cancelRequested :=
                   s.executions[other].cancelRequested || (other == id && !s.executions[other].phase.Returned?))
  {
  }
}
