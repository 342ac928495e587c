/**
 The stored task record (agent-app/app/service.py) and every transformation the
 service applies to it between reading it and saving it. Nothing here is about
 concurrency: these are the contents of one save.
 */
module TaskRecords {
  import opened Wrappers
  import UsageLedger
  import Text

  /** Execution ids; the empty text means that no execution owns the record. */
  type ExecutionId = string
  const NO_EXECUTION: ExecutionId := ""

  datatype Status =
    | Received
    | NeedsInfo
    | Running
    | DraftReady
    | CheckBlocked
    | InputRejected
    | Failed
    | Cancelled
  {
    predicate InFlight() { Received? || Running? }
    predicate Resumable() { NeedsInfo? || Failed? || CheckBlocked? }
    predicate HasMaterial() { DraftReady? || CheckBlocked? }
    predicate Removable() { Failed? || Cancelled? || InputRejected? }
  }

  datatype Actor = Actor(organization: string, user: string)

  datatype Event = Event(at: int, kind: string, detail: string)

  /** A collision-free digest, represented by the payload it was taken of. */
  datatype MaterialDigest = MaterialDigest(payload: string)
  datatype InputDigest = InputDigest(requirement: string, slots: map<string, string>, schemaSnapshot: string)

  function MaterialHash(sql: string, rollback: string): MaterialDigest {
    MaterialDigest(sql + "\0" + rollback)
  }

  datatype Draft = Draft(version: int, sql: string, rollback: string, checkStatus: string, revisionNotes: seq<string>) {
    /** Drafts without a version number count as the first one. */
    function CurrentVersion(): int { if version == 0 then 1 else version }
    function Digest(): MaterialDigest { MaterialHash(sql, rollback) }
  }

  datatype SnapshotMeta = SnapshotMeta(knowledgeId: string, contentHash: string)

  datatype DraftVersion = DraftVersion(
    version: int, origin: string, actor: string, reason: string,
    sql: string, rollback: string, contentHash: MaterialDigest, snapshotSource: Option<SnapshotMeta>)

  datatype Confirmation = Confirmation(
    confirmedBy: Actor, materialVersion: InputDigest, materialHash: MaterialDigest,
    note: string, invalidated: bool)

  datatype ChangeLink = ChangeLink(changeId: string, linkedBy: Actor, idempotencyKey: string)

  datatype Record = Record(
    owner: Actor,
    requirement: string, slots: map<string, string>, schemaSnapshot: string,
    snapshotKind: string, selectedSnapshot: Option<SnapshotMeta>, notes: seq<string>,
    authorizedApplication: string,
    status: Status, awaitingInput: bool, resumeCount: nat, atLeastOnce: bool,
    inputVersion: InputDigest, draft: Option<Draft>, draftVersions: seq<DraftVersion>,
    confirmations: seq<Confirmation>, changeLinks: seq<ChangeLink>,
    events: seq<Event>, managementEvents: seq<Event>,
    executionId: ExecutionId, runGeneration: nat, usage: Option<UsageLedger.Payload>,
    archived: bool, deleted: bool,
    /* Whether a formal change is named by one of the fields older releases wrote. */
    foreignLinks: bool)
  {
    predicate Active() { !archived && !deleted }

    function UsedRequests(): int {
      if usage.Some? then usage.value.requests else 0
    }

    function Log(event: Event): Record {
      this.(events := events + [event])
    }

    function CurrentHash(): Option<MaterialDigest> {
      if draft.Some? then Some(draft.value.Digest()) else None
    }
  }

  /** The digest of a whole record, as a deletion preview shows it. */
  datatype RecordDigest = RecordDigest(payload: Record)

  function VersionDigest(r: Record): RecordDigest {
    RecordDigest(r)
  }

  // ----- Input and material versions -------------------------------------------

  const NOTES_HEADER := "\n\n补充说明（用户后续提供）：\n"

  function BulletList(notes: seq<string>): string {
    if notes == [] then ""
    else
      var rest := BulletList(notes[1..]);
      if Text.Blank(notes[0]) then rest
      else "- " + Text.Trim(notes[0]) + (if rest == "" then "" else "\n" + rest)
  }

  function EffectiveRequirement(requirement: string, notes: seq<string>): string {
    var bullets := BulletList(notes);
    if bullets == "" then requirement else requirement + NOTES_HEADER + bullets
  }

  /** The input version recomputed from the record's current inputs. */
  function VersionOf(r: Record): InputDigest {
    InputDigest(EffectiveRequirement(r.requirement, r.notes), r.slots, r.schemaSnapshot)
  }

  predicate Current(c: Confirmation, version: InputDigest, digest: Option<MaterialDigest>) {
    c.materialVersion == version && Some(c.materialHash) == digest
  }

  /** Confirmations that no longer match the material are marked, never dropped. */
  function MarkStale(cs: seq<Confirmation>, version: InputDigest, digest: Option<MaterialDigest>): (r: seq<Confirmation>)
    ensures |r| == |cs|
    ensures forall i :: 0 <= i < |cs| ==>
              r[i] == cs[i].(invalidated := cs[i].invalidated || !Current(cs[i], version, digest))
  {
    seq(|cs|, i requires 0 <= i < |cs| => cs[i].(invalidated := cs[i].invalidated || !Current(cs[i], version, digest)))
  }

  function InvalidateStale(r: Record): Record {
    r.(confirmations := MarkStale(r.confirmations, r.inputVersion, r.CurrentHash()))
  }

  /** Recomputes the input version; a change of input voids the draft and stale confirmations. */
  function ApplyInputVersion(r: Record): Record {
    var version := VersionOf(r);
    if version == r.inputVersion then r
    else InvalidateStale(r.(draft := None, inputVersion := version))
  }

  // ----- The event trail -------------------------------------------------------

  function CommonPrefix(pre: seq<Event>, produced: seq<Event>): (n: nat)
    ensures n <= |pre| && n <= |produced| && pre[..n] == produced[..n]
    ensures n < |pre| && n < |produced| ==> pre[n] != produced[n]
  {
    if pre == [] || produced == [] || pre[0] != produced[0] then 0
    else
      var n := CommonPrefix(pre[1..], produced[1..]);
      assert pre[..n + 1] == [pre[0]] + pre[1..][..n] && produced[..n + 1] == [produced[0]] + produced[1..][..n];
      n + 1
  }

  /** The trail before dispatch, followed by whatever the run added beyond the common prefix. */
  function MergeEvents(pre: seq<Event>, produced: seq<Event>): seq<Event> {
    pre + produced[CommonPrefix(pre, produced)..]
  }

  /** Merging never loses an event of either side, and is exact when the run continued the trail. */
  lemma MergeKeeps(pre: seq<Event>, produced: seq<Event>)
    ensures pre <= MergeEvents(pre, produced)
    ensures multiset(produced) <= multiset(MergeEvents(pre, produced))
    ensures pre <= produced ==> MergeEvents(pre, produced) == produced
  {
    var n := CommonPrefix(pre, produced);
    assert pre == pre[..n] + pre[n..] && produced == produced[..n] + produced[n..];
    assert multiset(produced) == multiset(produced[..n]) + multiset(produced[n..]);
    assert multiset(pre) == multiset(pre[..n]) + multiset(pre[n..]);
    if pre <= produced {
      assert n == |pre|;
    }
  }

  function MissingFrom(items: seq<Event>, events: seq<Event>): (r: seq<Event>)
    ensures events <= r
    ensures forall e :: e in items || e in events ==> e in r
  {
    if items == [] then events
    else
      var grown := if items[0] in events then events else events + [items[0]];
      var r := MissingFrom(items[1..], grown);
      assert items[0] in grown && forall e :: e in grown ==> e in r;
      assert forall e :: e in items ==> e == items[0] || e in items[1..];
      r
  }

  predicate SortedByTime(s: seq<Event>) {
    forall i, j :: 0 <= i < j < |s| ==> s[i].at <= s[j].at
  }

  /** Inserts after every element that is not later, which keeps the sort stable. */
  function InsertByTime(s: seq<Event>, e: Event): (r: seq<Event>)
    ensures multiset(r) == multiset(s) + multiset{e}
  {
    if s == [] || s[|s| - 1].at <= e.at then s + [e]
    else
      assert s == s[..|s| - 1] + [s[|s| - 1]];
      InsertByTime(s[..|s| - 1], e) + [s[|s| - 1]]
  }

  function SortByTime(s: seq<Event>): (r: seq<Event>)
    ensures multiset(r) == multiset(s)
  {
    if s == [] then []
    else
      assert s == s[..|s| - 1] + [s[|s| - 1]];
      InsertByTime(SortByTime(s[..|s| - 1]), s[|s| - 1])
  }

  lemma {:induction false} InsertSorted(s: seq<Event>, e: Event)
    requires SortedByTime(s)
    ensures SortedByTime(InsertByTime(s, e))
  {
    if s != [] && s[|s| - 1].at > e.at {
      var front, last := s[..|s| - 1], s[|s| - 1];
      InsertSorted(front, e);
      var r := InsertByTime(front, e);
      forall i | 0 <= i < |r|
        ensures r[i].at <= last.at
      {
        assert r[i] in multiset(r) && (r[i] in front || r[i] == e);
      }
    }
  }

  lemma {:induction false} SortSorts(s: seq<Event>)
    ensures SortedByTime(SortByTime(s))
  {
    if s != [] {
      SortSorts(s[..|s| - 1]);
      InsertSorted(SortByTime(s[..|s| - 1]), s[|s| - 1]);
    }
  }

  const RECOVERY_KIND := "recovery_at_least_once"

  /** Management events survive a run whose trail predates them; recovery is noted once. */
  function AnnotateRecovery(r: Record, at: int): Record {
    var sorted := SortByTime(MissingFrom(r.managementEvents, r.events));
    var noted := exists i :: 0 <= i < |sorted| && sorted[i].kind == RECOVERY_KIND;
    r.(events := if r.atLeastOnce && !noted then sorted + [Event(at, RECOVERY_KIND, "")] else sorted)
  }

  // ----- Draft versions --------------------------------------------------------

  function VersionEntry(r: Record, draft: Draft, origin: string, actor: string, reason: string): DraftVersion {
    DraftVersion(draft.CurrentVersion(), origin, actor, reason, draft.sql, draft.rollback, draft.Digest(), r.selectedSnapshot)
  }

  /** A regenerated draft identical to the last version is not a new version. */
  function RecordDraftVersion(r: Record, draft: Option<Draft>, origin: string, actor: string, reason: string): Record {
    if draft.None? then r
    else
      var entry := VersionEntry(r, draft.value, origin, actor, reason);
      var last := |r.draftVersions| - 1;
      if origin == "agent" && last >= 0 && r.draftVersions[last].contentHash == entry.contentHash then r
      else r.(draftVersions := r.draftVersions + [entry])
  }

  // ----- Requests --------------------------------------------------------------

  datatype Refusal =
    | NotFound
    | NotResumable
    | NotConfirmable
    | InputInvalid
    | NotAuthorized

  datatype CreateRequest = CreateRequest(
    requirement: string, slots: map<string, string>, schemaSnapshot: string,
    snapshotKind: string, selectedSnapshot: Option<SnapshotMeta>, authorizedApplication: string)

  /** Supplementary input; an absent field leaves the current value alone. */
  datatype ClarifyRequest = ClarifyRequest(
    slots: map<string, string>, snapshotId: Option<string>, manualSnapshot: Option<string>, note: string)

  /** What the governance service confirmed about the application bound to the task. */
  datatype Resolved = Resolved(applicationId: string, name: string)

  /** External facts consulted while a request is applied. */
  datatype Findings = Findings(
    injectionFound: bool, snapshot: Option<(SnapshotMeta, string)>, snapshotStillValid: bool)

  function NewTask(actor: Actor, request: CreateRequest, at: int): Record {
    var requirement := Text.Trim(request.requirement);
    var created := [Event(at, "created", "")];
    Record(
      actor, requirement, request.slots, request.schemaSnapshot, request.snapshotKind, request.selectedSnapshot, [],
      request.authorizedApplication, Received, false, 0, false,
      InputDigest(requirement, request.slots, request.schemaSnapshot), None, [], [], [],
      if request.selectedSnapshot.Some? then created + [Event(at, "snapshot_selected", request.selectedSnapshot.value.knowledgeId)] else created,
      [], NO_EXECUTION, 0, None, false, false, false)
  }

  const APPLICATION_ID := "application_id"
  const APPLICATION := "application"

  function SlotAt(slots: map<string, string>, key: string): Option<string> {
    if key in slots then Some(slots[key]) else None
  }

  /** Only provided slots are overridden; an application is taken from what was confirmed. */
  function MergeSlots(slots: map<string, string>, patch: map<string, string>, resolved: Resolved): map<string, string> {
    var merged := slots + patch;
    if APPLICATION_ID !in patch then merged
    else
      var bound := merged[APPLICATION_ID := resolved.applicationId];
      if resolved.name != "" then bound[APPLICATION := resolved.name] else bound
  }

  /** Switching, clearing or replacing the schema snapshot; conflicts are refused outright. */
  function ApplySnapshot(r: Record, request: ClarifyRequest, found: Option<(SnapshotMeta, string)>, at: int): Result<Record, Refusal> {
    var id := Text.Trim(request.snapshotId.GetOr(""));
    var manual := request.manualSnapshot;
    var manualGiven := manual.Some? && !Text.Blank(manual.value);
    if id != "" then
      if manualGiven then Err(InputInvalid)
      else if r.snapshotKind == "manual" && !Text.Blank(r.schemaSnapshot) && manual.None? then Err(InputInvalid)
      else if found.None? then Err(InputInvalid)
      else Ok(r.(selectedSnapshot := Some(found.value.0), snapshotKind := "knowledge", schemaSnapshot := found.value.1)
               .Log(Event(at, "snapshot_selected", id)))
    else if request.snapshotId.Some? then
      if manualGiven then Err(InputInvalid)
      else
        var fromKnowledge := r.snapshotKind == "knowledge";
        Ok(r.(schemaSnapshot := if fromKnowledge then "" else r.schemaSnapshot,
              snapshotKind := if fromKnowledge then "" else r.snapshotKind,
              selectedSnapshot := None)
            .Log(Event(at, "snapshot_cleared", "")))
    else if manual.None? then Ok(r)
    else if r.snapshotKind == "knowledge" then Err(InputInvalid)
    else Ok(r.(schemaSnapshot := manual.value,
               snapshotKind := if manualGiven then "manual" else "",
               selectedSnapshot := if manualGiven then r.selectedSnapshot else None))
  }

  function WithNote(notes: seq<string>, note: string): seq<string> {
    if Text.Trim(note) == "" then notes else notes + [Text.Trim(note)]
  }

  function AddNote(r: Record, note: string): Record {
    r.(notes := WithNote(r.notes, note))
  }

  /** Slots, snapshot and note of one request applied to a working copy, with every check that can refuse it. */
  function ApplyInput(r: Record, request: ClarifyRequest, resolved: Resolved, facts: Findings, at: int): Result<Record, Refusal> {
    if facts.injectionFound then Err(NotResumable)
    else
      match ApplySnapshot(r.(slots := MergeSlots(r.slots, request.slots, resolved)), request, facts.snapshot, at)
      case Err(e) => Err(e)
      case Ok(changed) =>
        if changed.selectedSnapshot.Some? && !facts.snapshotStillValid then Err(InputInvalid)
        else Ok(AddNote(changed, request.note))
  }

  // ----- What each operation saves ---------------------------------------------

  /** A clarified record goes back to the waiting interrupt when there is one, else it starts over. */
  function Requeued(r: Record, at: int): Record {
    var logged := r.Log(Event(at, "clarified", ""));
    if logged.awaitingInput then
      logged.(awaitingInput := false, status := Running, atLeastOnce := true, resumeCount := logged.resumeCount + 1)
            .Log(Event(at, RECOVERY_KIND, ""))
    else logged.(status := Received)
  }

  function Clarified(r: Record, request: ClarifyRequest, resolved: Resolved, facts: Findings, at: int): Result<Record, Refusal> {
    match ApplyInput(r.(authorizedApplication := resolved.applicationId), request, resolved, facts, at)
    case Err(e) => Err(e)
    case Ok(changed) => Ok(Requeued(ApplyInputVersion(changed), at))
  }

  /** The working copy a resume prepares before it looks at the checkpoint. */
  function ResumeDraft(r: Record, request: Option<ClarifyRequest>, resolved: Resolved, facts: Findings, at: int): Result<Record, Refusal> {
    match request
    case None =>
      if r.selectedSnapshot.Some? && !facts.snapshotStillValid then Err(InputInvalid) else Ok(ApplyInputVersion(r))
    case Some(change) =>
      match ApplyInput(r, change, resolved, facts, at)
      case Err(e) => Err(e)
      case Ok(changed) => Ok(ApplyInputVersion(changed))
  }

  /** Only the request's own inputs are carried onto the latest record; a list of notes exists from the first note on. */
  function MergedInputs(latest: Record, prepared: Record, hasRequest: bool): Record {
    if hasRequest then
      latest.(slots := prepared.slots, schemaSnapshot := prepared.schemaSnapshot,
              notes := if prepared.notes == [] then latest.notes else prepared.notes,
              selectedSnapshot := prepared.selectedSnapshot, snapshotKind := prepared.snapshotKind)
    else latest
  }

  function Resumed(latest: Record, prepared: Record, hasRequest: bool, resolved: Resolved, at: int): Record {
    var current := ApplyInputVersion(MergedInputs(latest, prepared, hasRequest));
    current.(authorizedApplication := resolved.applicationId, awaitingInput := false, status := Running,
             atLeastOnce := true, resumeCount := current.resumeCount + 1,
             events := current.events + [Event(at, "resumed", ""), Event(at, RECOVERY_KIND, "")])
  }

  predicate AlreadyConfirmed(r: Record, actor: Actor, digest: MaterialDigest) {
    exists i :: 0 <= i < |r.confirmations|
      && !r.confirmations[i].invalidated && r.confirmations[i].confirmedBy.user == actor.user
      && r.confirmations[i].materialVersion == r.inputVersion && r.confirmations[i].materialHash == digest
  }

  function Confirmed(r: Record, actor: Actor, digest: MaterialDigest, note: string, at: int): Record {
    var marked := InvalidateStale(r);
    marked.(confirmations := marked.confirmations + [Confirmation(actor, r.inputVersion, digest, Text.Trim(note), false)])
          .Log(Event(at, "confirmed", ""))
  }

  /** Management operations leave their event in both trails. */
  function Managed(r: Record, kind: string, actor: Actor, at: int): Record {
    var entry := Event(at, kind, actor.user);
    r.(managementEvents := r.managementEvents + [entry]).Log(entry)
  }

  function EditedDraft(d: Draft, sql: string, rollback: string, checkStatus: string): Draft {
    Draft(d.CurrentVersion() + 1, sql, rollback, checkStatus, d.revisionNotes + ["edited"])
  }

  /** A record whose draft is gone by the time the edit is saved is edited as if it were empty. */
  function LatestDraft(r: Record): Draft {
    r.draft.GetOr(Draft(0, "", "", "", []))
  }

  function Edited(r: Record, sql: string, rollback: string, checkStatus: string, reason: string, actor: Actor, at: int): Record {
    var draft := EditedDraft(LatestDraft(r), sql, rollback, checkStatus);
    var status := if checkStatus == "BLOCKED" || checkStatus == "FAILED" then CheckBlocked else DraftReady;
    RecordDraftVersion(InvalidateStale(r.(draft := Some(draft), status := status)), Some(draft), "user_edit", actor.user, reason)
      .Log(Event(at, "draft_edited", actor.user))
  }

  predicate DuplicateLink(links: seq<ChangeLink>, changeId: string, key: string) {
    exists i :: 0 <= i < |links|
      && (links[i].changeId == changeId || (links[i].idempotencyKey != "" && links[i].idempotencyKey == key))
  }

  function Linked(r: Record, actor: Actor, changeId: string, key: string, at: int): Record {
    r.(changeLinks := r.changeLinks + [ChangeLink(changeId, actor, key)]).Log(Event(at, "change_linked", changeId))
  }

  function CancelledRecord(r: Record, at: int): Record {
    r.(runGeneration := r.runGeneration + 1, executionId := NO_EXECUTION, status := Cancelled)
     .Log(Event(at, "cancelled", ""))
  }

  /** A record forced to FAILED: a dispatch that never started, an abandoned run, a restart. */
  function Stopped(r: Record, kind: string, at: int): Record {
    r.(status := Failed).Log(Event(at, kind, ""))
  }

  function Begun(r: Record, id: ExecutionId): Record {
    r.(runGeneration := r.runGeneration + 1, executionId := id)
  }

  /** What a workflow run may come back with. */
  datatype RunOutcome =
    | Interrupted(events: seq<Event>)
    | Completed(status: Status, draft: Option<Draft>, events: seq<Event>)
    | TimedOut
    | Raised

  /** The terminal record of a run that started from `r`, with the ledger's final state. */
  function Finished(r: Record, outcome: RunOutcome, usage: UsageLedger.Payload, at: int): Record {
    var billed := r.(usage := Some(usage));
    match outcome
    case TimedOut => Stopped(billed, "timeout", at)
    case Raised => Stopped(billed, "failed", at)
    case Interrupted(events) =>
      var merged := MergeEvents(r.events, if events == [] then r.events else events);
      AnnotateRecovery(billed.(status := NeedsInfo, awaitingInput := true, events := merged + [Event(at, "awaiting_input", "")]), at)
    case Completed(status, draft, events) =>
      var merged := MergeEvents(r.events, if events == [] then r.events else events);
      var run := billed.(awaitingInput := false, status := status, draft := draft, events := merged);
      AnnotateRecovery(InvalidateStale(RecordDraftVersion(run, draft, "agent", "agent", "generated")), at)
  }
}
