/**
 What a task's record holds after a request or a run, field by field: each stored field told
 from the record before, the request and what was found out about it.
 */
module TaskAnswers {
  import opened Wrappers
  import opened TaskRecords
  import opened RecordLaws
  import opened TaskMachine
  import opened TaskInvariants
  import opened TaskTheorems
  import opened TaskSupervision
  import opened TaskSightings
  import L = UsageLedger
  import Text

  // ----- Slots -----------------------------------------------------------------

  /** Given slots replace stored ones; of the application, what was confirmed counts. */
  ghost predicate SlotsOverridden(before: map<string, string>, after: map<string, string>, given: map<string, string>, resolved: Resolved) {
    && (forall key :: key in given && key != APPLICATION_ID && key != APPLICATION ==> SlotAt(after, key) == Some(given[key]))
    && (forall key :: key !in given && key != APPLICATION_ID && key != APPLICATION ==> SlotAt(after, key) == SlotAt(before, key))
    && SlotAt(after, APPLICATION_ID) == (if APPLICATION_ID in given then Some(resolved.applicationId) else SlotAt(before, APPLICATION_ID))
    && SlotAt(after, APPLICATION)
       == if APPLICATION_ID in given && resolved.name != "" then Some(resolved.name)
          else if APPLICATION in given then Some(given[APPLICATION]) else SlotAt(before, APPLICATION)
  }

  lemma MergeOverrides(slots: map<string, string>, given: map<string, string>, resolved: Resolved)
    ensures SlotsOverridden(slots, MergeSlots(slots, given, resolved), given, resolved)
  {
    assert APPLICATION_ID != APPLICATION by { assert |APPLICATION_ID| != |APPLICATION|; }
  }

  /** An override of other slots tells the same of these exactly when they agree on what it leaves alone. */
  lemma OverridesExactly(seen: map<string, string>, latest: map<string, string>, after: map<string, string>, change: ClarifyRequest, resolved: Resolved)
    requires SlotsOverridden(seen, after, change.slots, resolved)
    ensures SlotsOverridden(latest, after, change.slots, resolved) <==> SlotsAgree(latest, seen, change, resolved)
  {
    hide SlotAt;
    var given := change.slots;
    assert APPLICATION_ID != APPLICATION by { assert |APPLICATION_ID| != |APPLICATION|; }
    forall key | key !in Addressed(change, resolved)
      ensures SlotAt(after, key) == SlotAt(seen, key)
    {
      if key == APPLICATION_ID || key == APPLICATION {
        assert key !in given;
      }
    }
    if SlotsOverridden(latest, after, given, resolved) {
      forall key | key !in Addressed(change, resolved)
        ensures SlotAt(latest, key) == SlotAt(seen, key)
      {
        if key == APPLICATION_ID || key == APPLICATION {
          assert key !in given;
        }
      }
    }
  }

  // ----- The schema snapshot ---------------------------------------------------

  predicate Selects(request: ClarifyRequest) {
    request.snapshotId.Some? && !Text.Blank(request.snapshotId.value)
  }

  predicate Clears(request: ClarifyRequest) {
    request.snapshotId.Some? && Text.Blank(request.snapshotId.value)
  }

  /** The request brings a schema of its own. */
  predicate Writes(request: ClarifyRequest) {
    request.manualSnapshot.Some? && !Text.Blank(request.manualSnapshot.value)
  }

  /** Two sources at once, a silent replacement of the other source, or nothing found. */
  predicate SnapshotConflict(r: Record, request: ClarifyRequest, found: Option<(SnapshotMeta, string)>) {
    || (request.snapshotId.Some? && Writes(request))
    || (request.snapshotId.None? && request.manualSnapshot.Some? && r.snapshotKind == "knowledge")
    || (Selects(request) && (found.None? || (r.snapshotKind == "manual" && !Text.Blank(r.schemaSnapshot) && request.manualSnapshot.None?)))
  }

  predicate SnapshotSet(before: Record, after: Record, request: ClarifyRequest, found: Option<(SnapshotMeta, string)>) {
    if Selects(request) then
      found.Some? && after.selectedSnapshot == Some(found.value.0) && after.schemaSnapshot == found.value.1 && after.snapshotKind == "knowledge"
    else if Clears(request) then
      && after.selectedSnapshot == None
      && after.schemaSnapshot == (if before.snapshotKind == "knowledge" then "" else before.schemaSnapshot)
      && after.snapshotKind == (if before.snapshotKind == "knowledge" then "" else before.snapshotKind)
    else if request.manualSnapshot.Some? then
      && after.schemaSnapshot == request.manualSnapshot.value
      && after.snapshotKind == (if Writes(request) then "manual" else "")
      && after.selectedSnapshot == (if Writes(request) then before.selectedSnapshot else None)
    else SameSnapshot(before, after)
  }

  function SnapshotTrail(request: ClarifyRequest, at: int): seq<Event> {
    if Selects(request) then [Event(at, "snapshot_selected", Text.Trim(request.snapshotId.value))]
    else if Clears(request) then [Event(at, "snapshot_cleared", "")]
    else []
  }

  lemma IdGiven(request: ClarifyRequest)
    ensures Text.Trim(request.snapshotId.GetOr("")) == "" <==> !Selects(request)
  {
    Text.TrimEmptyIffBlank(request.snapshotId.GetOr(""));
  }

  /** Refused as invalid exactly on a conflict, and set as told otherwise. */
  ghost predicate SnapshotTold(r: Record, request: ClarifyRequest, found: Option<(SnapshotMeta, string)>, at: int, answer: Result<Record, Refusal>) {
    if SnapshotConflict(r, request, found) then answer == Err(InputInvalid)
    else answer.Ok? && SnapshotSet(r, answer.value, request, found) && answer.value.events == r.events + SnapshotTrail(request, at)
  }

  lemma SelectionTold(r: Record, request: ClarifyRequest, found: Option<(SnapshotMeta, string)>, at: int)
    requires Selects(request)
    ensures SnapshotTold(r, request, found, at, ApplySnapshot(r, request, found, at))
  {
    hide Text.Blank, Text.Trim;
    IdGiven(request);
  }

  lemma ClearingTold(r: Record, request: ClarifyRequest, found: Option<(SnapshotMeta, string)>, at: int)
    requires Clears(request)
    ensures SnapshotTold(r, request, found, at, ApplySnapshot(r, request, found, at))
  {
    hide Text.Blank, Text.Trim;
    IdGiven(request);
  }

  lemma WritingTold(r: Record, request: ClarifyRequest, found: Option<(SnapshotMeta, string)>, at: int)
    requires request.snapshotId.None?
    ensures SnapshotTold(r, request, found, at, ApplySnapshot(r, request, found, at))
  {
    hide Text.Blank, Text.Trim;
    IdGiven(request);
  }

  /** What a request does to the schema snapshot, and when it is refused for it. */
  lemma SnapshotExactly(r: Record, request: ClarifyRequest, found: Option<(SnapshotMeta, string)>, at: int)
    ensures SnapshotTold(r, request, found, at, ApplySnapshot(r, request, found, at))
  {
    hide SnapshotTold, ApplySnapshot;
    if Selects(request) {
      SelectionTold(r, request, found, at);
    } else if Clears(request) {
      ClearingTold(r, request, found, at);
    } else {
      WritingTold(r, request, found, at);
    }
  }

  // ----- Inputs and their version ----------------------------------------------

  /** A note of nothing but white space is no note. */
  predicate NoteAdded(before: seq<string>, after: seq<string>, note: string) {
    after == before + if Text.Blank(note) then [] else [Text.Trim(note)]
  }

  lemma WithNoteAdds(notes: seq<string>, note: string)
    ensures NoteAdded(notes, WithNote(notes, note), note)
  {
    Text.TrimEmptyIffBlank(note);
  }

  /** The request's inputs cannot be taken: a suspected injection, a snapshot conflict, or a selection no longer valid. */
  predicate InputsRefused(r: Record, request: ClarifyRequest, facts: Findings) {
    || facts.injectionFound || SnapshotConflict(r, request, facts.snapshot)
    || (!facts.snapshotStillValid && SelectionAfter(r, request, facts.snapshot).Some?)
  }

  /** The snapshot the record has selected once the request is applied. */
  function SelectionAfter(r: Record, request: ClarifyRequest, found: Option<(SnapshotMeta, string)>): Option<SnapshotMeta> {
    if Selects(request) then if found.Some? then Some(found.value.0) else None
    else if Clears(request) then None
    else if request.manualSnapshot.Some? && !Writes(request) then None
    else r.selectedSnapshot
  }

  predicate InputsTaken(before: Record, after: Record, request: ClarifyRequest, facts: Findings) {
    SnapshotSet(before, after, request, facts.snapshot) && NoteAdded(before.notes, after.notes, request.note)
  }

  lemma InputsExactly(r: Record, request: ClarifyRequest, resolved: Resolved, facts: Findings, at: int)
    ensures var answer := ApplyInput(r, request, resolved, facts, at);
            if InputsRefused(r, request, facts)
            then answer == Err(if facts.injectionFound then NotResumable else InputInvalid)
            else answer.Ok? && InputsTaken(r, answer.value, request, facts)
                 && SlotsOverridden(r.slots, answer.value.slots, request.slots, resolved)
                 && answer.value.events == r.events + SnapshotTrail(request, at)
  {
    hide MergeSlots, SlotsOverridden, SnapshotTrail, WithNote, NoteAdded, ApplySnapshot, SnapshotConflict;
    var merged := r.(slots := MergeSlots(r.slots, request.slots, resolved));
    MergeOverrides(r.slots, request.slots, resolved);
    SnapshotExactly(merged, request, facts.snapshot, at);
    SameConflict(r, merged, request, facts.snapshot);
    WithNoteAdds(r.notes, request.note);
    if ApplySnapshot(merged, request, facts.snapshot, at).Ok? {
      ApplySnapshotFrame(merged, request, facts.snapshot, at);
    }
  }

  lemma SameConflict(a: Record, b: Record, request: ClarifyRequest, found: Option<(SnapshotMeta, string)>)
    requires SameSnapshot(a, b)
    ensures SnapshotConflict(a, request, found) <==> SnapshotConflict(b, request, found)
  {
  }

  /** The digest of the inputs as they now are. */
  predicate VersionTold(r: Record) {
    r.inputVersion == InputDigest(EffectiveRequirement(r.requirement, r.notes), r.slots, r.schemaSnapshot)
  }

  /** Inputs that changed void the draft and every confirmation; inputs that did not, nothing. */
  predicate MaterialVoided(before: Record, after: Record) {
    && after.draft == (if after.inputVersion == before.inputVersion then before.draft else None)
    && |after.confirmations| == |before.confirmations|
    && forall i :: 0 <= i < |before.confirmations| ==>
         after.confirmations[i] == before.confirmations[i].(
           invalidated := before.confirmations[i].invalidated || after.inputVersion != before.inputVersion)
  }

  lemma VersionApplied(r: Record)
    ensures var b := ApplyInputVersion(r);
            && VersionTold(b) && MaterialVoided(r, b)
            && b == r.(inputVersion := b.inputVersion, draft := b.draft, confirmations := b.confirmations)
  {
    hide EffectiveRequirement;
    if VersionOf(r) != r.inputVersion {
      var reset := r.(draft := None, inputVersion := VersionOf(r));
      assert reset.CurrentHash() == None;
    }
  }

  lemma NotesTextFrom(requirement: string)
    ensures BulletList([]) == "" && EffectiveRequirement(requirement, []) == requirement
  {
  }

  /** A line and, behind it, the lines that follow. */
  function Lined(line: string, rest: string): string {
    if rest == "" then line else line + "\n" + rest
  }

  lemma LinedAssociates(a: string, b: string, c: string)
    requires b != "" && c != ""
    ensures Lined(a, Lined(b, c)) == Lined(Lined(a, b), c)
  {
    assert a + "\n" + (b + "\n" + c) == (a + "\n" + b) + "\n" + c;
  }

  lemma FirstBullet(notes: seq<string>)
    requires notes != []
    ensures BulletList(notes) == if Text.Blank(notes[0]) then BulletList(notes[1..]) else Lined("- " + Text.Trim(notes[0]), BulletList(notes[1..]))
  {
    hide Text.Trim, Text.Blank;
    var line, rest := "- " + Text.Trim(notes[0]), BulletList(notes[1..]);
    BehindBullet(line, rest);
  }

  lemma BehindBullet(line: string, rest: string)
    ensures line + (if rest == "" then "" else "\n" + rest) == Lined(line, rest)
  {
    assert line + "" == line && line + ("\n" + rest) == line + "\n" + rest;
  }

  /** Every note that is not blank adds its own line to the text the digest is taken of; a blank one adds nothing. */
  lemma {:induction false} NoteTextExactly(notes: seq<string>, note: string)
    ensures BulletList(notes + [note])
         == if Text.Blank(note) then BulletList(notes)
            else if BulletList(notes) == "" then "- " + Text.Trim(note)
            else BulletList(notes) + "\n" + "- " + Text.Trim(note)
    decreases |notes|
  {
    hide Text.Trim, Text.Blank, BulletList;
    var more, line := notes + [note], "- " + Text.Trim(note);
    FirstBullet(more);
    if notes == [] {
      assert more[1..] == [];
      NoBullets();
    } else {
      FirstBullet(notes);
      assert more[1..] == notes[1..] + [note];
      NoteTextExactly(notes[1..], note);
      var first, rest := "- " + Text.Trim(notes[0]), BulletList(notes[1..]);
      if rest != "" {
        LinedAssociates(first, rest, line);
        assert rest + "\n" + "- " + Text.Trim(note) == Lined(rest, line);
      }
      assert Lined(first, rest) + "\n" + "- " + Text.Trim(note) == Lined(Lined(first, rest), line);
    }
  }

  lemma NoBullets()
    ensures BulletList([]) == ""
  {
  }

  /** A note that is not blank changes the input version, and so voids what was confirmed. */
  lemma NoteChangesVersion(r: Record, note: string)
    requires !Text.Blank(note)
    ensures VersionOf(AddNote(r, note)) != VersionOf(r)
  {
    hide Text.Trim, BulletList;
    WithNoteAdds(r.notes, note);
    NoteTextExactly(r.notes, note);
    TrimmedNote(note);
    NoteTextExactly(r.notes, Text.Trim(note));
    var more := r.notes + [Text.Trim(note)];
    assert AddNote(r, note).notes == more;
    assert |BulletList(more)| > |BulletList(r.notes)|;
    assert |EffectiveRequirement(r.requirement, more)| > |EffectiveRequirement(r.requirement, r.notes)|;
  }

  lemma TrimmedNote(note: string)
    requires !Text.Blank(note)
    ensures !Text.Blank(Text.Trim(note)) && Text.Trim(Text.Trim(note)) == Text.Trim(note)
  {
    Text.TrimEmptyIffBlank(note);
    Text.TrimFixpoint(note);
    Text.TrimEmptyIffBlank(Text.Trim(note));
  }

  // ----- What a dispatch adds --------------------------------------------------

  predicate DispatchFailed(disk: Disk) { !disk.begun && disk.compensated }

  function FailureTrail(disk: Disk): seq<Event> {
    if DispatchFailed(disk) then [Event(disk.at, "dispatch_failed", "")] else []
  }

  /** A dispatch that begins hands the record to the fresh execution; no other one changes hands. */
  predicate HandedOver(before: Record, after: Record, disk: Disk) {
    && after.executionId == (if disk.begun then disk.freshId else before.executionId)
    && after.runGeneration == before.runGeneration + if disk.begun then 1 else 0
  }

  /** What neither a clarification nor a resume touches. */
  predicate RestKept(before: Record, after: Record) {
    && after.owner == before.owner && after.requirement == before.requirement && after.usage == before.usage
    && after.draftVersions == before.draftVersions && after.changeLinks == before.changeLinks
    && after.managementEvents == before.managementEvents
    && after.archived == before.archived && after.deleted == before.deleted && after.foreignLinks == before.foreignLinks
  }

  /** Saved and dispatched: the updated record, handed over, or marked when nothing could be begun. */
  predicate Dispatched(updated: Record, disk: Disk, stored: Record) {
    && HandedOver(updated, stored, disk)
    && stored == updated.(executionId := stored.executionId, runGeneration := stored.runGeneration,
                          status := if DispatchFailed(disk) then Failed else updated.status,
                          events := updated.events + FailureTrail(disk))
  }

  lemma DispatchTold(s: TaskState, r: Record, disk: Disk)
    requires r.status.InFlight()
    ensures var (t, reply) := SaveAndDispatch(s, r, disk);
            && reply == (if disk.saved && disk.begun then Accepted else StoreFailed)
            && (if disk.saved then t.record.Some? && Dispatched(r, disk, t.record.value) else t == s)
  {
  }

  /** Besides the record, only a dispatch that begins changes anything: its execution is there, registered and known, and no problem is left. */
  lemma DispatchRegisters(s: TaskState, r: Record, disk: Disk)
    ensures var t := SaveAndDispatch(s, r, disk).0;
            t == if disk.saved && disk.begun
                 then s.(record := t.record, executions := s.executions[disk.freshId := Execution(Created, false)],
                         current := Some(disk.freshId), problem := None, issued := s.issued + {disk.freshId})
                 else s.(record := t.record)
  {
    hide Begun, Stopped;
  }

  // ----- Clarifying ------------------------------------------------------------

  /** A clarified record: the request's inputs taken, its version and material told, and back in flight. */
  ghost predicate ClarifiedInto(before: Record, request: ClarifyRequest, resolved: Resolved, facts: Findings, disk: Disk, after: Record) {
    && SlotsOverridden(before.slots, after.slots, request.slots, resolved) && InputsTaken(before, after, request, facts)
    && VersionTold(after) && MaterialVoided(before, after) && RestKept(before, after) && HandedOver(before, after, disk)
    && after.authorizedApplication == resolved.applicationId && !after.awaitingInput
    && after.status == (if DispatchFailed(disk) then Failed else if before.awaitingInput then Running else Received)
    && after.atLeastOnce == (before.atLeastOnce || before.awaitingInput)
    && after.resumeCount == before.resumeCount + (if before.awaitingInput then 1 else 0)
    && after.events == before.events + SnapshotTrail(request, disk.at) + [Event(disk.at, "clarified", "")]
                       + (if before.awaitingInput then [Event(disk.at, RECOVERY_KIND, "")] else []) + FailureTrail(disk)
  }

  /** The disk on which everything that is saved stays as saved. */
  predicate Untouched(disk: Disk) { !disk.begun && !disk.compensated }

  lemma RequeuedShape(r: Record, at: int)
    ensures Requeued(r, at)
         == r.(awaitingInput := false, status := if r.awaitingInput then Running else Received,
               atLeastOnce := r.atLeastOnce || r.awaitingInput, resumeCount := r.resumeCount + (if r.awaitingInput then 1 else 0),
               events := r.events + [Event(at, "clarified", "")] + (if r.awaitingInput then [Event(at, RECOVERY_KIND, "")] else []))
  {
    assert r.awaitingInput || r.events + [Event(at, "clarified", "")] + [] == r.events + [Event(at, "clarified", "")];
  }

  lemma TakenAgain(a: Record, b: Record, a1: Record, b1: Record, request: ClarifyRequest, facts: Findings)
    requires InputsTaken(a, b, request, facts)
    requires SameSnapshot(a, a1) && a.notes == a1.notes && SameSnapshot(b, b1) && b.notes == b1.notes
    ensures InputsTaken(a1, b1, request, facts)
  {
    hide NoteAdded, Selects, Clears, Writes;
  }

  lemma VoidedAgain(a: Record, b: Record, a1: Record, b1: Record)
    requires VersionTold(b) && MaterialVoided(a, b)
    requires a1.inputVersion == a.inputVersion && a1.draft == a.draft && a1.confirmations == a.confirmations
    requires SameInputs(b, b1) && b1.requirement == b.requirement
    requires b1.inputVersion == b.inputVersion && b1.draft == b.draft && b1.confirmations == b.confirmations
    ensures VersionTold(b1) && MaterialVoided(a1, b1)
  {
    hide EffectiveRequirement;
  }

  lemma ClarifiedExactly(r: Record, request: ClarifyRequest, resolved: Resolved, facts: Findings, disk: Disk)
    requires Untouched(disk)
    ensures var answer := Clarified(r, request, resolved, facts, disk.at);
            if InputsRefused(r, request, facts)
            then answer == Err(if facts.injectionFound then NotResumable else InputInvalid)
            else answer.Ok? && answer.value.status.InFlight() && ClarifiedInto(r, request, resolved, facts, disk, answer.value)
  {
    hide ApplyInput, ApplyInputVersion, SlotsOverridden, InputsTaken, InputsRefused, VersionTold, MaterialVoided, SnapshotTrail, Requeued;
    var bound := r.(authorizedApplication := resolved.applicationId);
    InputsExactly(bound, request, resolved, facts, disk.at);
    BoundTheSame(r, bound, request, facts);
    if !InputsRefused(r, request, facts) {
      ApplyInputFrame(bound, request, resolved, facts, disk.at);
      var changed := ApplyInput(bound, request, resolved, facts, disk.at).value;
      var versioned := ApplyInputVersion(changed);
      VersionApplied(changed);
      RequeuedShape(versioned, disk.at);
      var b := Requeued(versioned, disk.at);
      assert InputsTaken(r, b, request, facts) by { TakenAgain(bound, changed, r, b, request, facts); }
      assert VersionTold(b) && MaterialVoided(r, b) by { VoidedAgain(changed, versioned, r, b); }
      assert b.events + FailureTrail(disk) == b.events;
    }
  }

  lemma BoundTheSame(r: Record, bound: Record, request: ClarifyRequest, facts: Findings)
    requires bound == r.(authorizedApplication := bound.authorizedApplication)
    ensures InputsRefused(bound, request, facts) <==> InputsRefused(r, request, facts)
  {
    hide SnapshotConflict;
    SameConflict(r, bound, request, facts.snapshot);
  }

  lemma ClarifiedThenDispatched(r: Record, request: ClarifyRequest, resolved: Resolved, facts: Findings, disk: Disk, b: Record, stored: Record)
    requires ClarifiedInto(r, request, resolved, facts, disk.(begun := false, compensated := false), b)
    requires Dispatched(b, disk, stored)
    ensures ClarifiedInto(r, request, resolved, facts, disk, stored)
  {
    hide SlotsOverridden, InputsTaken, VersionTold, MaterialVoided, SnapshotTrail;
    TakenAgain(r, b, r, stored, request, facts);
    VoidedAgain(r, b, r, stored);
    assert b.events + FailureTrail(disk) == stored.events;
  }

  /** What a clarification is answered once its application was looked up. */
  function ClarifyReply(r: Record, seenStatus: Status, request: ClarifyRequest, resolved: Option<Resolved>, facts: Findings, disk: Disk): Reply {
    if resolved.None? then Refused(NotAuthorized)
    else if r.archived || r.deleted || r.status != seenStatus || facts.injectionFound then Refused(NotResumable)
    else if InputsRefused(r, request, facts) then Refused(InputInvalid)
    else if disk.saved && disk.begun then Accepted
    else StoreFailed
  }

  /**
   A clarification taken up again: its answer, and every field of the record it leaves behind. What it
   provides replaces what was stored, what it leaves alone is as last stored, and changed inputs void the material.
   */
  lemma ClarifyStores(s: TaskState, key: nat, resolved: Option<Resolved>, facts: Findings, disk: Disk)
    requires Enabled(s, DoClarifyFinish(key, resolved, facts, disk))
    ensures var ticket, r := s.waiting[key], s.record.value;
            var (t, reply) := ClarifyFinish(s, key, resolved, facts, disk);
            && reply == ClarifyReply(r, ticket.seenStatus, ticket.clarification, resolved, facts, disk)
            && t.record.Some? && (reply.Refused? ==> t == s.(waiting := s.waiting - {key}))
            && (if disk.saved && !reply.Refused? then ClarifiedInto(r, ticket.clarification, resolved.value, facts, disk, t.record.value)
                else t.record == s.record)
  {
    hide Clarified, ClarifiedInto, InputsRefused, Dispatched, SaveAndDispatch;
    var ticket, r, rest := s.waiting[key], s.record.value, s.Drop(key);
    if resolved.Some? && r.Active() && r.status == ticket.seenStatus {
      var quiet := disk.(begun := false, compensated := false);
      ClarifiedExactly(r, ticket.clarification, resolved.value, facts, quiet);
      InjectionRefuses(r, ticket.clarification, facts);
      if !InputsRefused(r, ticket.clarification, facts) {
        var b := Clarified(r, ticket.clarification, resolved.value, facts, disk.at).value;
        DispatchTold(rest, b, disk);
        if disk.saved {
          ClarifiedThenDispatched(r, ticket.clarification, resolved.value, facts, disk, b, SaveAndDispatch(rest, b, disk).0.record.value);
        }
      }
    }
  }

  lemma InjectionRefuses(r: Record, request: ClarifyRequest, facts: Findings)
    ensures facts.injectionFound ==> InputsRefused(r, request, facts)
  {
  }

  // ----- Resuming --------------------------------------------------------------

  /** The working copy of a resume: what it saw, with the request's inputs taken and the version told. */
  ghost predicate PreparedAs(seen: Record, request: Option<ClarifyRequest>, resolved: Resolved, facts: Findings, prepared: Record) {
    && prepared.executionId == seen.executionId && prepared.status == seen.status && VersionTold(prepared)
    && match request
       case None => SameInputs(seen, prepared)
       case Some(change) => SlotsOverridden(seen.slots, prepared.slots, change.slots, resolved) && InputsTaken(seen, prepared, change, facts)
  }

  /** A resume whose inputs, or whose selected snapshot, cannot be taken. */
  predicate ResumeRefused(seen: Record, request: Option<ClarifyRequest>, facts: Findings) {
    match request
    case None => seen.selectedSnapshot.Some? && !facts.snapshotStillValid
    case Some(change) => InputsRefused(seen, change, facts)
  }

  lemma ResumeDraftExactly(seen: Record, request: Option<ClarifyRequest>, resolved: Resolved, facts: Findings, at: int)
    ensures var answer := ResumeDraft(seen, request, resolved, facts, at);
            if ResumeRefused(seen, request, facts)
            then answer == Err(if request.Some? && facts.injectionFound then NotResumable else InputInvalid)
            else answer.Ok? && PreparedAs(seen, request, resolved, facts, answer.value)
  {
    hide ApplyInput, ApplyInputVersion, SlotsOverridden, InputsTaken, InputsRefused, VersionTold, MaterialVoided;
    match request
    case None => VersionApplied(seen);
    case Some(change) =>
      InputsExactly(seen, change, resolved, facts, at);
      if !InputsRefused(seen, change, facts) {
        ApplyInputFrame(seen, change, resolved, facts, at);
        var changed := ApplyInput(seen, change, resolved, facts, at).value;
        VersionApplied(changed);
        TakenAgain(seen, changed, seen, ApplyInputVersion(changed), change, facts);
      }
  }

  /** Between its two awaits a resume parks the copy it prepared, or is refused. */
  lemma ResumeParks(s: TaskState, key: nat, resolved: Option<Resolved>, facts: Findings, at: int)
    requires Enabled(s, DoResumeResolve(key, resolved, facts, at))
    ensures var ticket := s.waiting[key];
            var (t, reply) := ResumeResolve(s, key, resolved, facts, at);
            && t == s.(waiting := t.waiting) && t.waiting - {key} == s.waiting - {key}
            && (if resolved.None? then reply == Refused(NotAuthorized)
                else if ticket.request.Some? && facts.injectionFound then reply == Refused(NotResumable)
                else if ResumeRefused(ticket.seen, ticket.request, facts) then reply == Refused(InputInvalid)
                else reply == Suspended && key in t.waiting && t.waiting[key].ResumeInspecting?
                     && t.waiting[key].request == ticket.request && t.waiting[key].seen == ticket.seen && t.waiting[key].resolved == resolved.value
                     && PreparedAs(ticket.seen, ticket.request, resolved.value, facts, t.waiting[key].prepared))
            && (reply.Refused? ==> key !in t.waiting)
  {
    hide ResumeDraft, PreparedAs;
    var ticket := s.waiting[key];
    if resolved.Some? {
      ResumeDraftExactly(ticket.seen, ticket.request, resolved.value, facts, at);
      if ticket.request.Some? {
        InjectionRefuses(ticket.seen, ticket.request.value, facts);
      }
    }
  }

  /** A resumed record: the prepared inputs over the latest record, its version and material told, and running. */
  ghost predicate ResumedInto(latest: Record, request: Option<ClarifyRequest>, seen: Record, prepared: Record, resolved: Resolved, disk: Disk, after: Record) {
    && (match request
        case None => SameInputs(latest, after)
        case Some(change) =>
          && SlotsOverridden(seen.slots, after.slots, change.slots, resolved) && SameSnapshot(prepared, after)
          && (prepared.notes == [] ==> after.notes == latest.notes)
          && (prepared.notes != [] ==> NoteAdded(seen.notes, after.notes, change.note)))
    && VersionTold(after) && MaterialVoided(latest, after) && RestKept(latest, after) && HandedOver(latest, after, disk)
    && after.authorizedApplication == resolved.applicationId && !after.awaitingInput && after.atLeastOnce
    && after.status == (if DispatchFailed(disk) then Failed else Running) && after.resumeCount == latest.resumeCount + 1
    && after.events == latest.events + [Event(disk.at, "resumed", ""), Event(disk.at, RECOVERY_KIND, "")] + FailureTrail(disk)
  }

  lemma ResumedShape(latest: Record, prepared: Record, hasRequest: bool, resolved: Resolved, at: int)
    ensures var b, c := Resumed(latest, prepared, hasRequest, resolved, at), ApplyInputVersion(MergedInputs(latest, prepared, hasRequest));
            b == c.(authorizedApplication := resolved.applicationId, awaitingInput := false, status := Running, atLeastOnce := true,
                    resumeCount := latest.resumeCount + 1, events := latest.events + [Event(at, "resumed", ""), Event(at, RECOVERY_KIND, "")])
  {
    hide ApplyInputVersion;
    VersionApplied(MergedInputs(latest, prepared, hasRequest));
  }

  lemma ResumedThenDispatched(latest: Record, request: Option<ClarifyRequest>, seen: Record, prepared: Record, resolved: Resolved, disk: Disk, stored: Record)
    requires PreparedFrom(request, seen, prepared, resolved)
    requires Dispatched(Resumed(latest, prepared, request.Some?, resolved, disk.at), disk, stored)
    ensures ResumedInto(latest, request, seen, prepared, resolved, disk, stored)
  {
    hide Resumed, ApplyInputVersion, SlotsOverridden, VersionTold, MaterialVoided, NoteAdded, MergeSlots, WithNote;
    var merged := MergedInputs(latest, prepared, request.Some?);
    var versioned := ApplyInputVersion(merged);
    VersionApplied(merged);
    ResumedShape(latest, prepared, request.Some?, resolved, disk.at);
    VoidedAgain(merged, versioned, latest, stored);
    if request.Some? {
      MergeOverrides(seen.slots, request.value.slots, resolved);
      WithNoteAdds(seen.notes, request.value.note);
    }
  }

  /** What a resume is answered after its second await: the checkpoint, the owner and the status must be as it saw them. */
  predicate ResumeGoesOn(s: TaskState, seen: Record, prepared: Record, checkpoint: Option<Checkpoint>) {
    && checkpoint.Some?
    && (checkpoint.value.interrupted || (checkpoint.value.pending && checkpoint.value.inputVersion == Some(prepared.inputVersion)))
    && s.current.None? && s.record.Some? && !s.record.value.archived && !s.record.value.deleted
    && s.record.value.executionId == seen.executionId && s.record.value.status == seen.status
  }

  /** In every reachable state: the answer of a resume, and every field of the record it leaves behind. */
  lemma ResumeStores(env: Env, steps: seq<Step>, key: nat, checkpoint: Option<Checkpoint>, disk: Disk)
    requires Feasible(env, NO_TASK, steps) && Enabled(Run(env, NO_TASK, steps), DoResumeFinish(key, checkpoint, disk))
    ensures var s := Run(env, NO_TASK, steps);
            var ticket, latest := s.waiting[key], s.record.value;
            var (t, reply) := ResumeFinish(s, key, checkpoint, disk);
            && reply == (if !ResumeGoesOn(s, ticket.seen, ticket.prepared, checkpoint) then Refused(NotResumable)
                         else if disk.saved && disk.begun then Accepted else StoreFailed)
            && t.record.Some?
            && (if disk.saved && !reply.Refused?
                then ResumedInto(latest, ticket.request, ticket.seen, ticket.prepared, ticket.resolved, disk, t.record.value)
                else t.record == s.record)
  {
    hide Invariant, TicketsTrue, Feasible, Run, Resumed, Dispatched, ResumedInto, SaveAndDispatch, PreparedFrom;
    var s := Run(env, NO_TASK, steps);
    StartTrue();
    ReachableTickets(env, NO_TASK, steps);
    ResumeTold(s, key, checkpoint, disk);
  }

  lemma ResumeTold(s: TaskState, key: nat, checkpoint: Option<Checkpoint>, disk: Disk)
    requires TicketsTrue(s) && Enabled(s, DoResumeFinish(key, checkpoint, disk))
    ensures var ticket, latest := s.waiting[key], s.record.value;
            var (t, reply) := ResumeFinish(s, key, checkpoint, disk);
            && reply == (if !ResumeGoesOn(s, ticket.seen, ticket.prepared, checkpoint) then Refused(NotResumable)
                         else if disk.saved && disk.begun then Accepted else StoreFailed)
            && t.record.Some?
            && (if disk.saved && !reply.Refused?
                then ResumedInto(latest, ticket.request, ticket.seen, ticket.prepared, ticket.resolved, disk, t.record.value)
                else t.record == s.record)
  {
    hide Resumed, Dispatched, ResumedInto, SaveAndDispatch;
    var ticket, latest, rest := s.waiting[key], s.record.value, s.Drop(key);
    OneTicket(s, key);
    SeenOwner(ticket);
    var resumed := Resumed(latest, ticket.prepared, ticket.request.Some?, ticket.resolved, disk.at);
    ResumedShape(latest, ticket.prepared, ticket.request.Some?, ticket.resolved, disk.at);
    if ResumeGoesOn(s, ticket.seen, ticket.prepared, checkpoint) {
      DispatchTold(rest, resumed, disk);
      if disk.saved {
        ResumedThenDispatched(latest, ticket.request, ticket.seen, ticket.prepared, ticket.resolved, disk, SaveAndDispatch(rest, resumed, disk).0.record.value);
      }
    }
  }

  lemma SeenOwner(ticket: Ticket)
    requires TicketTrue(ticket) && ticket.ResumeInspecting?
    ensures PreparedFrom(ticket.request, ticket.seen, ticket.prepared, ticket.resolved)
    ensures ticket.prepared.executionId == ticket.seen.executionId && ticket.prepared.status == ticket.seen.status
  {
  }

  /** Told of the latest record instead of the one it saw, the slots are right exactly when what the request leaves alone is as seen. */
  lemma ResumeOverridesExactly(latest: Record, request: ClarifyRequest, seen: Record, prepared: Record, resolved: Resolved, disk: Disk, after: Record)
    requires ResumedInto(latest, Some(request), seen, prepared, resolved, disk, after)
    ensures SlotsOverridden(latest.slots, after.slots, request.slots, resolved) <==> SlotsAgree(latest.slots, seen.slots, request, resolved)
  {
    hide SlotsOverridden, SlotsAgree, VersionTold, MaterialVoided, NoteAdded;
    OverridesExactly(seen.slots, latest.slots, after.slots, request, resolved);
  }
}
