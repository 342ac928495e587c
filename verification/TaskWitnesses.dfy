/** Concrete runs, from nothing, in which a request finishes on something it never saw. */
module TaskWitnesses {
  import opened Wrappers
  import opened TaskRecords
  import opened RecordLaws
  import opened TaskMachine
  import opened TaskTheorems
  import opened TaskSupervision
  import opened TaskSightings
  import L = UsageLedger
  import Text

  // ----- Running one list of steps after another -------------------------------

  lemma {:induction false} RunAppend(env: Env, s: TaskState, a: seq<Step>, b: seq<Step>)
    requires Feasible(env, s, a) && Feasible(env, Run(env, s, a), b)
    ensures Feasible(env, s, a + b) && Run(env, s, a + b) == Run(env, Run(env, s, a), b)
    decreases |a|
  {
    hide Enabled, Next;
    if a == [] {
      assert a + b == b;
    } else {
      assert (a + b)[1..] == a[1..] + b;
      RunAppend(env, Next(env, s, a[0]), a[1..], b);
    }
  }

  lemma OneMore(env: Env, s: TaskState, a: seq<Step>, step: Step)
    requires Feasible(env, s, a) && Enabled(Run(env, s, a), step)
    ensures Feasible(env, s, a + [step]) && Run(env, s, a + [step]) == Next(env, Run(env, s, a), step)
  {
    hide Enabled, Next;
    RunOne(env, Run(env, s, a), step);
    RunAppend(env, s, a, [step]);
  }

  // ----- One execution, alone --------------------------------------------------

  /** A state in which one execution is registered and nothing else runs. */
  function At(base: TaskState, r: Record, id: ExecutionId, phase: Phase): TaskState {
    base.(record := Some(r), executions := map[id := Execution(phase, false)], current := Some(id))
  }

  function Over(base: TaskState, r: Record): TaskState {
    base.(record := Some(r), executions := map[], current := None)
  }

  function ResultOf(env: Env, r: Record, id: ExecutionId, outcome: RunOutcome): Record {
    Finished(r, outcome, L.AsDict(L.Seed(L.FRESH, r.usage), env.budget, env.LedgerId(id)), 0)
  }

  function WholeRun(id: ExecutionId, outcome: RunOutcome): seq<Step> {
    [DoExecutionStart(id)] + [DoRunReturns(id, outcome, 0)] + [DoPersist(id, true)] + [DoDone(id)]
  }

  lemma Rephased(base: TaskState, r: Record, id: ExecutionId, a: Phase, b: Phase)
    ensures At(base, r, id, a).SetPhase(id, b) == At(base, r, id, b)
  {
  }

  lemma Starts(env: Env, base: TaskState, r: Record, id: ExecutionId)
    requires r.executionId == id
    ensures Enabled(At(base, r, id, Created), DoExecutionStart(id))
    ensures Next(env, At(base, r, id, Created), DoExecutionStart(id)) == At(base, r, id, Working(r, L.Seed(L.FRESH, r.usage)))
  {
    hide L.Seed;
    Rephased(base, r, id, Created, Working(r, L.Seed(L.FRESH, r.usage)));
  }

  lemma Returns(env: Env, base: TaskState, r: Record, id: ExecutionId, outcome: RunOutcome)
    ensures Enabled(At(base, r, id, Working(r, L.Seed(L.FRESH, r.usage))), DoRunReturns(id, outcome, 0))
    ensures Next(env, At(base, r, id, Working(r, L.Seed(L.FRESH, r.usage))), DoRunReturns(id, outcome, 0))
         == At(base, r, id, Saving(ResultOf(env, r, id, outcome), 0))
  {
    hide Finished, L.AsDict, L.Seed;
    Rephased(base, r, id, Working(r, L.Seed(L.FRESH, r.usage)), Saving(ResultOf(env, r, id, outcome), 0));
  }

  lemma Persists(env: Env, base: TaskState, r: Record, id: ExecutionId, result: Record)
    requires r.executionId == id
    ensures Enabled(At(base, r, id, Saving(result, 0)), DoPersist(id, true))
    ensures Next(env, At(base, r, id, Saving(result, 0)), DoPersist(id, true)) == At(base, result, id, Returned(false))
  {
    Rephased(base, result, id, Saving(result, 0), Returned(false));
  }

  lemma Finishes(env: Env, base: TaskState, result: Record, id: ExecutionId)
    ensures Enabled(At(base, result, id, Returned(false)), DoDone(id))
    ensures Next(env, At(base, result, id, Returned(false)), DoDone(id)) == Over(base, result)
  {
    assert map[id := Execution(Returned(false), false)] - {id} == map[];
  }

  lemma RunsAlone(env: Env, base: TaskState, r: Record, id: ExecutionId, outcome: RunOutcome)
    requires r.executionId == id
    ensures Feasible(env, At(base, r, id, Created), WholeRun(id, outcome))
    ensures Run(env, At(base, r, id, Created), WholeRun(id, outcome)) == Over(base, ResultOf(env, r, id, outcome))
  {
    hide Run, Feasible, Next, Enabled, ResultOf, At, Over;
    var s := At(base, r, id, Created);
    var a, b, c := DoExecutionStart(id), DoRunReturns(id, outcome, 0), DoPersist(id, true);
    var result := ResultOf(env, r, id, outcome);
    Starts(env, base, r, id);
    Returns(env, base, r, id, outcome);
    Persists(env, base, r, id, result);
    Finishes(env, base, result, id);
    RunOne(env, s, a);
    OneMore(env, s, [a], b);
    OneMore(env, s, [a] + [b], c);
    OneMore(env, s, [a] + [b] + [c], DoDone(id));
  }

  /** What a finished run leaves alone. */
  predicate KeepsCase(r: Record, b: Record) {
    && SameInputs(r, b) && b.owner == r.owner && b.executionId == r.executionId
    && b.archived == r.archived && b.deleted == r.deleted
  }

  lemma AnnotatedCase(r: Record, at: int)
    ensures var b := AnnotateRecovery(r, at);
            KeepsCase(r, b) && b.status == r.status && b.draft == r.draft && b.awaitingInput == r.awaitingInput
  {
    hide SortByTime, MissingFrom;
  }

  lemma CompletedShape(env: Env, r: Record, id: ExecutionId, outcome: RunOutcome)
    requires outcome.Completed?
    ensures var b := ResultOf(env, r, id, outcome);
            KeepsCase(r, b) && b.status == outcome.status && b.draft == outcome.draft && !b.awaitingInput
  {
    hide MergeEvents, AnnotateRecovery, L.AsDict, L.Seed, SameInputs;
    var usage := L.AsDict(L.Seed(L.FRESH, r.usage), env.budget, env.LedgerId(id));
    var merged := MergeEvents(r.events, if outcome.events == [] then r.events else outcome.events);
    var run := r.(usage := Some(usage), awaitingInput := false, status := outcome.status, draft := outcome.draft, events := merged);
    var versioned := InvalidateStale(RecordDraftVersion(run, outcome.draft, "agent", "agent", "generated"));
    VersionedCase(run, outcome.draft);
    assert KeepsCase(r, run) by { assert SameInputs(r, run) by { InputsOnly(r, run); } }
    AnnotatedCase(versioned, 0);
    assert ResultOf(env, r, id, outcome) == AnnotateRecovery(versioned, 0);
    KeepsTwice(r, run, versioned);
    KeepsTwice(r, versioned, AnnotateRecovery(versioned, 0));
  }

  lemma InputsOnly(r: Record, b: Record)
    requires b == r.(usage := b.usage, awaitingInput := b.awaitingInput, status := b.status, draft := b.draft, events := b.events)
    ensures SameInputs(r, b)
  {
  }

  lemma KeepsTwice(a: Record, b: Record, c: Record)
    requires KeepsCase(a, b) && KeepsCase(b, c)
    ensures KeepsCase(a, c)
  {
  }

  lemma VersionedCase(r: Record, draft: Option<Draft>)
    ensures var b := InvalidateStale(RecordDraftVersion(r, draft, "agent", "agent", "generated"));
            KeepsCase(r, b) && b.status == r.status && b.draft == r.draft && b.awaitingInput == r.awaitingInput
  {
    hide MarkStale;
  }

  /** A first run that stops to ask. */
  const ASKS := Interrupted([])

  lemma InterruptedShape(env: Env, r: Record, id: ExecutionId)
    requires r.managementEvents == [] && !r.atLeastOnce && r.events == [Event(0, "created", "")]
    ensures var b := ResultOf(env, r, id, ASKS);
            && KeepsCase(r, b) && b.status.NeedsInfo? && b.awaitingInput
            && b.events == [Event(0, "created", ""), Event(0, "awaiting_input", "")]
  {
    hide AnnotateRecovery, MergeEvents, L.AsDict, L.Seed;
    var usage := L.AsDict(L.Seed(L.FRESH, r.usage), env.budget, env.LedgerId(id));
    MergeKeeps(r.events, r.events);
    var waits := r.(usage := Some(usage), status := NeedsInfo, awaitingInput := true,
                    events := [Event(0, "created", ""), Event(0, "awaiting_input", "")]);
    AnnotatedCase(waits, 0);
    SortedAlready(waits);
    assert r.events + [Event(0, "awaiting_input", "")] == waits.events;
    assert ResultOf(env, r, id, ASKS) == AnnotateRecovery(waits, 0);
  }

  lemma SortedAlready(r: Record)
    requires r.managementEvents == [] && !r.atLeastOnce && |r.events| == 2 && r.events[0].at <= r.events[1].at
    ensures AnnotateRecovery(r, 0).events == r.events
  {
    hide SortByTime;
    SortedPair(r.events[0], r.events[1]);
    assert r.events == [r.events[0], r.events[1]];
  }

  lemma SortedPair(a: Event, b: Event)
    requires a.at <= b.at
    ensures SortByTime([a, b]) == [a, b]
  {
    assert [a, b][..1] == [a] && [a][..0] == [];
    assert SortByTime([a]) == [a];
  }

  // ----- A task whose first run is over ----------------------------------------

  const USER := Actor("org", "user")
  const REQUEST := CreateRequest("", map[], "", "", None, "")
  const FACTS := Findings(false, None, true)
  const CHECKED := Resolved("", "")

  function Saves(id: ExecutionId): Disk { Disk(true, true, true, id, 0) }

  /** The inputs are saved, the execution is not, and the record is marked failed. */
  function NotBegun(id: ExecutionId): Disk { Disk(true, false, true, id, 0) }

  function FirstRun(outcome: RunOutcome): seq<Step> {
    [DoCreate(USER, REQUEST, Saves("e1"))] + WholeRun("e1", outcome)
  }

  lemma PlainWords()
    ensures Text.Trim("") == "" && Text.Trim("org") == "org" && Text.Trim("user") == "user"
    ensures Text.Trim("seen") == "seen" && Text.Trim("lost") == "lost" && Text.Trim("k") == "k"
  {
    Text.TrimFixpoint("");
    Text.TrimFixpoint("org");
    Text.TrimFixpoint("user");
    Text.TrimFixpoint("seen");
    Text.TrimFixpoint("lost");
    Text.TrimFixpoint("k");
  }

  function FirstRecord(): Record {
    Begun(NewTask(USER, REQUEST, 0), "e1")
  }

  const REGISTERED := NO_TASK.(issued := {"e1"})

  lemma Creates(env: Env)
    ensures Enabled(NO_TASK, DoCreate(USER, REQUEST, Saves("e1")))
    ensures Next(env, NO_TASK, DoCreate(USER, REQUEST, Saves("e1"))) == At(REGISTERED, FirstRecord(), "e1", Created)
  {
    hide NewTask;
    assert map[]["e1" := Execution(Created, false)] == map["e1" := Execution(Created, false)];
  }

  /** The owner's own task under its first execution, with no slot and no snapshot. */
  predicate Plain(r: Record) {
    && r.owner == USER && r.executionId == "e1" && r.Active()
    && r.slots == map[] && r.schemaSnapshot == "" && r.snapshotKind == "" && r.selectedSnapshot == None
  }

  lemma FirstRecordShape()
    ensures var r := FirstRecord();
            && Plain(r) && r.notes == [] && r.events == [Event(0, "created", "")] && r.managementEvents == [] && !r.atLeastOnce
  {
    PlainWords();
  }

  lemma FirstRunResult(env: Env, outcome: RunOutcome)
    ensures Feasible(env, NO_TASK, FirstRun(outcome))
    ensures Run(env, NO_TASK, FirstRun(outcome)) == Over(REGISTERED, ResultOf(env, FirstRecord(), "e1", outcome))
  {
    hide Run, Feasible, Next, Enabled, ResultOf, At, Over, WholeRun, FirstRecord;
    FirstRecordShape();
    Creates(env);
    RunOne(env, NO_TASK, DoCreate(USER, REQUEST, Saves("e1")));
    RunsAlone(env, REGISTERED, FirstRecord(), "e1", outcome);
    RunAppend(env, NO_TASK, [DoCreate(USER, REQUEST, Saves("e1"))], WholeRun("e1", outcome));
  }

  /** The first run asks for more: the graph stands on its interrupt. */
  lemma FirstAsks(env: Env)
    ensures Feasible(env, NO_TASK, FirstRun(ASKS))
    ensures var s := Run(env, NO_TASK, FirstRun(ASKS));
            && s.record.Some? && s == Over(REGISTERED, s.record.value) && Plain(s.record.value) && s.record.value.notes == []
            && s.record.value.status.NeedsInfo?
            && s.record.value.events == [Event(0, "created", ""), Event(0, "awaiting_input", "")]
  {
    hide Run, Feasible, FirstRun, ResultOf, FirstRecord;
    FirstRecordShape();
    InterruptedShape(env, FirstRecord(), "e1");
    FirstRunResult(env, ASKS);
  }

  // ----- A resume that drops what it never saw ---------------------------------

  function Note(text: string): ClarifyRequest {
    ClarifyRequest(map[], None, None, text)
  }

  /** A request that only adds a note, applied to a record without slots or snapshot. */
  lemma NoteApplied(r: Record, text: string)
    requires Text.Trim(text) == text != "" && r.slots == map[] && r.selectedSnapshot == None
    ensures ApplyInput(r, Note(text), CHECKED, FACTS, 0) == Ok(r.(notes := r.notes + [text]))
  {
    hide Text.Trim;
    PlainWords();
    UntouchedSnapshot(r.(slots := map[]), Note(text), None, 0);
    assert r.slots + map[] == map[] && r == r.(slots := map[]);
  }

  predicate SameCase(a: Record, b: Record) {
    && a.status == b.status && a.executionId == b.executionId && a.owner == b.owner
    && a.archived == b.archived && a.deleted == b.deleted && a.awaitingInput == b.awaitingInput
  }

  lemma NotePrepared(r: Record, text: string)
    requires Text.Trim(text) == text != "" && r.slots == map[] && r.selectedSnapshot == None
    ensures var d := ResumeDraft(r, Some(Note(text)), CHECKED, FACTS, 0);
            && d.Ok? && SameCase(r, d.value) && SameInputs(r.(notes := r.notes + [text]), d.value)
  {
    hide Text.Trim, ApplyInput, ApplyInputVersion;
    NoteApplied(r, text);
    ApplyInputVersionLaws(r.(notes := r.notes + [text]));
  }

  lemma NoteClarified(r: Record, text: string)
    requires Text.Trim(text) == text != "" && r.slots == map[] && r.selectedSnapshot == None
    ensures var c := Clarified(r, Note(text), CHECKED, FACTS, 0);
            && c.Ok? && c.value.status.InFlight() && !c.value.awaitingInput
            && SameCase(r.(status := c.value.status, awaitingInput := false), c.value) && SameInputs(r.(notes := r.notes + [text]), c.value)
  {
    hide Text.Trim, ApplyInput, ApplyInputVersion;
    var bound := r.(authorizedApplication := "");
    NoteApplied(bound, text);
    ApplyInputVersionLaws(bound.(notes := r.notes + [text]));
  }

  /** A resume is opened and prepared; it now waits for its checkpoint. */
  function Opening(key: nat, change: ClarifyRequest, facts: Findings): seq<Step> {
    [DoResumeStart(key, USER, Some(change))] + [DoResumeResolve(key, Some(CHECKED), facts, 0)]
  }

  lemma OpeningParks(env: Env, s: TaskState, key: nat, change: ClarifyRequest, facts: Findings)
    requires s.record.Some? && Plain(s.record.value) && s.record.value.status.Resumable() && !s.Live() && key !in s.waiting
    requires ResumeDraft(s.record.value, Some(change), CHECKED, facts, 0).Ok?
    ensures Feasible(env, s, Opening(key, change, facts))
    ensures var prepared := ResumeDraft(s.record.value, Some(change), CHECKED, facts, 0).value;
            Run(env, s, Opening(key, change, facts)) == s.Park(key, ResumeInspecting(Some(change), s.record.value, prepared, CHECKED))
  {
    hide Run, Feasible, ResumeDraft, Text.Trim;
    PlainWords();
    var a, b := DoResumeStart(key, USER, Some(change)), DoResumeResolve(key, Some(CHECKED), facts, 0);
    var parked := s.Park(key, ResumeResolving(Some(change), s.record.value));
    assert Next(env, s, a) == parked;
    var prepared := ResumeDraft(s.record.value, Some(change), CHECKED, facts, 0).value;
    assert parked.Drop(key).Park(key, ResumeInspecting(Some(change), s.record.value, prepared, CHECKED))
        == s.Park(key, ResumeInspecting(Some(change), s.record.value, prepared, CHECKED)) by {
      assert s.waiting[key := parked.waiting[key]] - {key} == s.waiting;
    }
    RunOne(env, s, a);
    OneMore(env, s, [a], b);
  }

  const INTERRUPTED := Some(Checkpoint(true, false, None))

  /** The resume passes its guards, stores what it prepared, and dispatches. */
  lemma ResumeStoresPrepared(s: TaskState, key: nat, seen: Record, change: ClarifyRequest, prepared: Record, disk: Disk)
    requires key in s.waiting && s.waiting[key] == ResumeInspecting(Some(change), seen, prepared, CHECKED)
    requires s.record.Some? && s.record.value.Active() && !s.Live()
    requires prepared.executionId == s.record.value.executionId && prepared.status == s.record.value.status
    requires (prepared.notes != [] || s.record.value.notes == []) && disk.saved && FreshId(s, disk.freshId)
    ensures ResumePasses(s, key, INTERRUPTED)
    ensures var t := ResumeFinish(s, key, INTERRUPTED, disk);
            && t.0.record.Some? && SameInputs(prepared, t.0.record.value)
            && (t.1.Accepted? <==> disk.begun)
            && (!disk.begun && disk.compensated ==>
                  && t.0 == s.Drop(key).Save(t.0.record.value) && t.0.record.value.status.Failed?
                  && SameCase(s.record.value, t.0.record.value.(status := s.record.value.status, awaitingInput := s.record.value.awaitingInput)))
  {
    hide Resumed;
    var latest := s.record.value;
    ResumedInputs(latest, prepared, true, CHECKED, disk.at);
    ResumedCase(latest, prepared, disk.at);
    DispatchInputs(s.Drop(key), Resumed(latest, prepared, true, CHECKED, disk.at), disk);
  }

  lemma ResumedCase(latest: Record, prepared: Record, at: int)
    ensures var b := Resumed(latest, prepared, true, CHECKED, at);
            b.status.Running? && b.executionId == latest.executionId && b.owner == latest.owner
            && b.archived == latest.archived && b.deleted == latest.deleted
            && b.events == latest.events + [Event(at, "resumed", "")] + [Event(at, RECOVERY_KIND, "")]
  {
    hide MarkStale, VersionOf;
  }

  // A clarification's note, lost to a resume.

  /** A note is added, and the dispatch that follows fails after its save. */
  function FailingNote(key: nat, text: string): seq<Step> {
    [DoClarifyStart(key, USER, Note(text))] + [DoClarifyFinish(key, Some(CHECKED), FACTS, NotBegun("e2"))]
  }

  lemma ClarifyFailsAfterSave(env: Env, s: TaskState, key: nat, text: string)
    requires s.record.Some? && Plain(s.record.value) && s.record.value.status.Resumable() && key !in s.waiting && FreshId(s, "e2")
    requires Text.Trim(text) == text != ""
    ensures Feasible(env, s, FailingNote(key, text))
    ensures var t := Run(env, s, FailingNote(key, text));
            && t.record.Some? && t == s.Save(t.record.value) && t.record.value.status.Failed?
            && SameCase(s.record.value.(status := Failed, awaitingInput := false), t.record.value)
            && SameInputs(s.record.value.(notes := s.record.value.notes + [text]), t.record.value)
  {
    hide Clarified, Text.Trim, Run, Feasible;
    PlainWords();
    var a, b := DoClarifyStart(key, USER, Note(text)), DoClarifyFinish(key, Some(CHECKED), FACTS, NotBegun("e2"));
    var parked := s.Park(key, ClarifyWaiting(Note(text), s.record.value.status));
    assert Next(env, s, a) == parked;
    NoteClarified(s.record.value, text);
    assert parked.Drop(key) == s by { assert s.waiting[key := parked.waiting[key]] - {key} == s.waiting; }
    RunOne(env, s, a);
    OneMore(env, s, [a], b);
  }

  /** The first run asks, and the answer to it is stored but not dispatched. */
  function Answered(): seq<Step> {
    FirstRun(ASKS) + FailingNote(0, "k")
  }

  lemma AnswerStored(env: Env)
    ensures Feasible(env, NO_TASK, Answered())
    ensures var s := Run(env, NO_TASK, Answered());
            && s.record.Some? && s == Over(REGISTERED, s.record.value) && Plain(s.record.value)
            && s.record.value.status.Failed? && s.record.value.notes == ["k"]
  {
    hide Run, Feasible, FirstRun, FailingNote, Next, Enabled, Text.Trim;
    PlainWords();
    FirstAsks(env);
    var s := Run(env, NO_TASK, FirstRun(ASKS));
    ClarifyFailsAfterSave(env, s, 0, "k");
    RunAppend(env, NO_TASK, FirstRun(ASKS), FailingNote(0, "k"));
    assert [] + ["k"] == ["k"];
  }

  /** The resume that is waiting would now be accepted, and these notes and this schema would give way to those. */
  predicate Overwrites(s: TaskState, notes: seq<string>, schema: string, stored: seq<string>, storedSchema: string) {
    && Enabled(s, DoResumeFinish(0, INTERRUPTED, Saves("e2")))
    && s.record.value.notes == notes && s.record.value.schemaSnapshot == schema
    && var t := ResumeFinish(s, 0, INTERRUPTED, Saves("e2"));
    && t.1.Accepted? && t.0.record.Some? && t.0.record.value.notes == stored && t.0.record.value.schemaSnapshot == storedSchema
  }

  function ClarifyRace(): seq<Step> {
    Answered() + Opening(0, Note("seen"), FACTS) + FailingNote(1, "lost")
  }

  /** After that run the stored note "lost" is gone as soon as the resume is accepted. */
  lemma NoteLostToResume(env: Env)
    ensures Feasible(env, NO_TASK, ClarifyRace())
    ensures Overwrites(Run(env, NO_TASK, ClarifyRace()), ["k", "lost"], "", ["k", "seen"], "")
  {
    hide Run, Feasible, Answered, Opening, FailingNote, Next, ResumeDraft, ResumeFinish, Text.Trim;
    PlainWords();
    var base, opening := Answered(), Opening(0, Note("seen"), FACTS);
    AnswerStored(env);
    var s0 := Run(env, NO_TASK, base);
    var r := s0.record.value;
    NotePrepared(r, "seen");
    OpeningParks(env, s0, 0, Note("seen"), FACTS);
    RunAppend(env, NO_TASK, base, opening);
    var s1 := Run(env, NO_TASK, base + opening);
    ClarifyFailsAfterSave(env, s1, 1, "lost");
    RunAppend(env, NO_TASK, base + opening, FailingNote(1, "lost"));
    var s := Run(env, NO_TASK, ClarifyRace());
    var prepared := ResumeDraft(r, Some(Note("seen")), CHECKED, FACTS, 0).value;
    assert ["k"] + ["lost"] == ["k", "lost"] && ["k"] + ["seen"] == ["k", "seen"];
    ResumeStoresPrepared(s, 0, r, Note("seen"), prepared, Saves("e2"));
  }

  // Another resume's note and schema, lost the same way.

  const SCHEMA := ClarifyRequest(map[], None, Some("schema"), "lost")

  lemma SchemaPrepared(r: Record)
    requires Plain(r)
    ensures var d := ResumeDraft(r, Some(SCHEMA), CHECKED, FACTS, 0);
            && d.Ok? && SameCase(r, d.value) && d.value.notes == r.notes + ["lost"] && d.value.schemaSnapshot == "schema" && d.value.slots == map[]
  {
    hide Text.Trim, ApplyInputVersion;
    PlainWords();
    assert !Text.Blank("schema") by { assert "schema"[0] == 's'; }
    assert r.slots + map[] == map[] && r.(slots := map[]) == r;
    ApplyInputVersionLaws(ApplyInput(r, SCHEMA, CHECKED, FACTS, 0).value);
  }

  function ResumeRace(): seq<Step> {
    Answered() + Opening(0, Note("seen"), FACTS) + Opening(1, SCHEMA, FACTS) + [DoResumeFinish(1, INTERRUPTED, NotBegun("e2"))]
  }

  /** Two resumes saw the same record; the one that failed after its save loses its inputs to the other. */
  lemma InputsLostToResume(env: Env)
    ensures Feasible(env, NO_TASK, ResumeRace())
    ensures Overwrites(Run(env, NO_TASK, ResumeRace()), ["k", "lost"], "schema", ["k", "seen"], "")
  {
    hide Run, Feasible, Answered, Opening, ResumeDraft, ResumeFinish, Text.Trim;
    PlainWords();
    var base, first, second := Answered(), Opening(0, Note("seen"), FACTS), Opening(1, SCHEMA, FACTS);
    AnswerStored(env);
    var s0 := Run(env, NO_TASK, base);
    var r := s0.record.value;
    NotePrepared(r, "seen");
    SchemaPrepared(r);
    OpeningParks(env, s0, 0, Note("seen"), FACTS);
    RunAppend(env, NO_TASK, base, first);
    var s1 := Run(env, NO_TASK, base + first);
    OpeningParks(env, s1, 1, SCHEMA, FACTS);
    RunAppend(env, NO_TASK, base + first, second);
    var s2 := Run(env, NO_TASK, base + first + second);
    var mine, theirs := ResumeDraft(r, Some(Note("seen")), CHECKED, FACTS, 0).value, ResumeDraft(r, Some(SCHEMA), CHECKED, FACTS, 0).value;
    ResumeStoresPrepared(s2, 1, r, SCHEMA, theirs, NotBegun("e2"));
    var step := DoResumeFinish(1, INTERRUPTED, NotBegun("e2"));
    OneMore(env, NO_TASK, base + first + second, step);
    var s := Run(env, NO_TASK, ResumeRace());
    assert s == ResumeFinish(s2, 1, INTERRUPTED, NotBegun("e2")).0;
    assert ["k"] + ["lost"] == ["k", "lost"] && ["k"] + ["seen"] == ["k", "seen"];
    ResumeStoresPrepared(s, 0, r, Note("seen"), mine, Saves("e2"));
  }

  // ----- A snapshot without its event ------------------------------------------

  const META := SnapshotMeta("k", "hash")
  const SELECT := ClarifyRequest(map[], Some("k"), None, "")
  const FOUND := Findings(false, Some((META, "schema")), true)

  lemma SelectPrepared(r: Record)
    requires Plain(r) && r.notes == []
    ensures var d := ResumeDraft(r, Some(SELECT), CHECKED, FOUND, 0);
            && d.Ok? && SameCase(r, d.value) && d.value.selectedSnapshot == Some(META)
            && Event(0, "snapshot_selected", "k") in d.value.events
  {
    hide Text.Trim, ApplyInputVersion;
    PlainWords();
    assert r.slots + map[] == map[] && r.(slots := map[]) == r;
    var applied := ApplyInput(r, SELECT, CHECKED, FOUND, 0).value;
    assert applied.events[|r.events|] == Event(0, "snapshot_selected", "k");
    ApplyInputVersionLaws(applied);
  }

  function SelectingResume(): seq<Step> {
    FirstRun(ASKS) + Opening(0, SELECT, FOUND)
  }

  /** The resume that is waiting prepared a selection; it would be accepted and store it, and the trail would not say so. */
  predicate SelectsSilently(s: TaskState) {
    && Enabled(s, DoResumeFinish(0, INTERRUPTED, Saves("e2")))
    && Event(0, "snapshot_selected", "k") in s.waiting[0].prepared.events
    && var t := ResumeFinish(s, 0, INTERRUPTED, Saves("e2"));
    && t.1.Accepted? && t.0.record.Some? && t.0.record.value.selectedSnapshot == Some(META)
    && forall e :: e in t.0.record.value.events ==> e.kind != "snapshot_selected"
  }

  /** The resume selects a snapshot and stores it; its trail never says so. */
  lemma SnapshotSelectedSilently(env: Env)
    ensures Feasible(env, NO_TASK, SelectingResume())
    ensures SelectsSilently(Run(env, NO_TASK, SelectingResume()))
  {
    hide Run, Feasible, FirstRun, Opening, ResumeDraft, ResultOf, Text.Trim, Resumed;
    var base := FirstRun(ASKS);
    FirstAsks(env);
    var s0 := Run(env, NO_TASK, base);
    var r := s0.record.value;
    SelectPrepared(r);
    OpeningParks(env, s0, 0, SELECT, FOUND);
    RunAppend(env, NO_TASK, base, Opening(0, SELECT, FOUND));
    var s := Run(env, NO_TASK, SelectingResume());
    var prepared := ResumeDraft(r, Some(SELECT), CHECKED, FOUND, 0).value;
    ResumeStoresPrepared(s, 0, r, SELECT, prepared, Saves("e2"));
    ResumedCase(r, prepared, 0);
  }

  // ----- An edit over material it never saw ------------------------------------

  const DRAFT_A := Draft(1, "A", "", "BLOCKED", [])
  const DRAFT_B := Draft(1, "B", "", "PASSED", [])
  const RUN_A := Completed(CheckBlocked, Some(DRAFT_A), [])
  const RUN_B := Completed(DraftReady, Some(DRAFT_B), [])

  function Regeneration(): seq<Step> {
    FirstRun(RUN_A) + [DoEditStart(0, USER, "C", "", "", 1, false)]
      + [DoClarifyStart(1, USER, Note("seen"))] + [DoClarifyFinish(1, Some(CHECKED), FACTS, Saves("e2"))]
      + WholeRun("e2", RUN_B)
  }

  lemma FirstDrafts(env: Env)
    ensures Feasible(env, NO_TASK, FirstRun(RUN_A))
    ensures var s := Run(env, NO_TASK, FirstRun(RUN_A));
            && s.record.Some? && s == Over(REGISTERED, s.record.value) && Plain(s.record.value)
            && s.record.value.status.CheckBlocked? && s.record.value.draft == Some(DRAFT_A)
  {
    hide Run, Feasible, FirstRun, ResultOf, FirstRecord;
    FirstRecordShape();
    CompletedShape(env, FirstRecord(), "e1", RUN_A);
    FirstRunResult(env, RUN_A);
  }

  lemma EditParks(env: Env, s: TaskState)
    requires s.record.Some? && Plain(s.record.value) && s.record.value.status.CheckBlocked? && s.record.value.draft == Some(DRAFT_A)
    requires !s.Live() && 0 !in s.waiting
    ensures var a := DoEditStart(0, USER, "C", "", "", 1, false);
            Enabled(s, a) && Next(env, s, a) == s.Park(0, EditScanning(USER, "C", "", "", 1, s.record.value))
  {
    hide Text.Trim;
    PlainWords();
  }

  lemma ClarifyRestarts(env: Env, s: TaskState)
    requires s.record.Some? && Plain(s.record.value) && s.record.value.status.CheckBlocked? && 1 !in s.waiting && FreshId(s, "e2")
    requires s.executions == map[]
    ensures var a, b := DoClarifyStart(1, USER, Note("seen")), DoClarifyFinish(1, Some(CHECKED), FACTS, Saves("e2"));
            && Enabled(s, a) && Enabled(Next(env, s, a), b)
            && var t := Next(env, Next(env, s, a), b);
            && t.record.Some? && t.record.value.executionId == "e2" && t.record.value.Active()
            && t == At(s.(problem := None, issued := s.issued + {"e2"}), t.record.value, "e2", Created)
  {
    hide Clarified, Text.Trim;
    PlainWords();
    var a, b := DoClarifyStart(1, USER, Note("seen")), DoClarifyFinish(1, Some(CHECKED), FACTS, Saves("e2"));
    var parked := s.Park(1, ClarifyWaiting(Note("seen"), s.record.value.status));
    assert Next(env, s, a) == parked;
    NoteClarified(s.record.value, "seen");
    assert parked.Drop(1) == s by { assert s.waiting[1 := parked.waiting[1]] - {1} == s.waiting; }
    assert map[]["e2" := Execution(Created, false)] == map["e2" := Execution(Created, false)];
  }

  /** An edit opened on one draft is accepted on another, and stores a third. */
  predicate EditsUnseen(s: TaskState, key: nat, basis: Draft, found: Draft, left: Draft) {
    && Enabled(s, DoEditFinish(key, "PASSED", true, 0))
    && s.waiting[key].basis.draft == Some(basis) && s.record.value.draft == Some(found)
    && var t := EditFinish(s, key, "PASSED", true, 0);
    && t.1.Accepted? && t.0.record.Some? && t.0.record.value.draft == Some(left)
  }

  /** The edit was opened on draft A; it is accepted on draft B, which replaced A under the same number. */
  lemma EditOverUnseenDraft(env: Env)
    ensures Feasible(env, NO_TASK, Regeneration())
    ensures EditsUnseen(Run(env, NO_TASK, Regeneration()), 0, DRAFT_A, DRAFT_B, Draft(2, "C", "", "PASSED", ["edited"]))
  {
    hide Run, Feasible, FirstRun, WholeRun, ResultOf, Next, Text.Trim, MarkStale;
    var base, edit := FirstRun(RUN_A), DoEditStart(0, USER, "C", "", "", 1, false);
    var a, b := DoClarifyStart(1, USER, Note("seen")), DoClarifyFinish(1, Some(CHECKED), FACTS, Saves("e2"));
    FirstDrafts(env);
    var s0 := Run(env, NO_TASK, base);
    EditParks(env, s0);
    OneMore(env, NO_TASK, base, edit);
    var s1 := Next(env, s0, edit);
    ClarifyRestarts(env, s1);
    OneMore(env, NO_TASK, base + [edit], a);
    OneMore(env, NO_TASK, base + [edit] + [a], b);
    var s2 := Next(env, Next(env, s1, a), b);
    RunsAlone(env, s1.(problem := None, issued := s1.issued + {"e2"}), s2.record.value, "e2", RUN_B);
    RunAppend(env, NO_TASK, base + [edit] + [a] + [b], WholeRun("e2", RUN_B));
    CompletedShape(env, s2.record.value, "e2", RUN_B);
    assert [] + ["edited"] == ["edited"];
  }
}
