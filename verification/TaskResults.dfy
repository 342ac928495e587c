/** What a run leaves in its task's record, field by field, however it ends. */
module TaskResults {
  import opened Wrappers
  import opened TaskRecords
  import opened RecordLaws
  import opened TaskMachine
  import opened TaskInvariants
  import opened TaskTheorems
  import opened TaskEffects
  import L = UsageLedger
  import T = LedgerTotals

  // ----- Draft, versions and confirmations -------------------------------------

  /** The hash a draft's text has. */
  function HashOf(d: Draft): MaterialDigest {
    MaterialDigest(d.sql + "\0" + d.rollback)
  }

  /** A generated draft is the last version afterwards: added, unless the last one had the same text already. */
  predicate HistoryTold(before: Record, after: Record, draft: Option<Draft>) {
    var n := |before.draftVersions|;
    match draft
    case None => after.draftVersions == before.draftVersions
    case Some(d) =>
      if n > 0 && before.draftVersions[n - 1].contentHash == HashOf(d) then after.draftVersions == before.draftVersions
      else
        && |after.draftVersions| == n + 1 && after.draftVersions[..n] == before.draftVersions
        && after.draftVersions[n] == DraftVersion(if d.version == 0 then 1 else d.version, "agent", "agent", "generated",
                                                  d.sql, d.rollback, HashOf(d), before.selectedSnapshot)
  }

  /** Exactly the confirmations of other inputs or another draft are marked; none is dropped. */
  predicate ConfirmationsTold(before: Record, after: Record, draft: Option<Draft>) {
    && |after.confirmations| == |before.confirmations|
    && forall i :: 0 <= i < |before.confirmations| ==>
         var c := before.confirmations[i];
         after.confirmations[i] == c.(invalidated := c.invalidated || draft.None? || c.materialHash != HashOf(draft.value)
                                                     || c.materialVersion != before.inputVersion)
  }

  // ----- The trail -------------------------------------------------------------

  /** Nothing in the trail says yet that the run was taken up again. */
  ghost predicate NoticeDue(before: Record, produced: seq<Event>, own: seq<Event>) {
    before.atLeastOnce
    && forall e :: e in before.events || e in produced || e in before.managementEvents || e in own ==> e.kind != RECOVERY_KIND
  }

  /** A run that went on from the stored trail: its events as often as it brought them, a missing one of management once. */
  ghost predicate NoneDoubled(before: Record, after: Record, produced: seq<Event>, own: seq<Event>, notice: Event) {
    forall e :: e !in own && e != notice ==>
      multiset(after.events)[e] == if e in produced then multiset(produced)[e] else if e in before.managementEvents then 1 else 0
  }

  /** A finished trail, in order of time: what was there, what the run brought, what management noted, and a notice where one is due. */
  ghost predicate TrailShaped(before: Record, after: Record, produced: seq<Event>, own: seq<Event>, at: int) {
    var notice, n := Event(at, RECOVERY_KIND, ""), |after.events| - 1;
    && multiset(before.events) <= multiset(after.events) && multiset(produced) <= multiset(after.events)
    && (forall e :: e in after.events <==>
          || e in before.events || e in produced || e in before.managementEvents || e in own
          || (e == notice && NoticeDue(before, produced, own)))
    && (if NoticeDue(before, produced, own) then n >= 0 && after.events[n] == notice && SortedByTime(after.events[..n])
        else SortedByTime(after.events))
  }

  ghost predicate TrailTold(before: Record, after: Record, produced: seq<Event>, own: seq<Event>, at: int) {
    && TrailShaped(before, after, produced, own, at)
    && (before.events <= produced ==> NoneDoubled(before, after, produced, own, Event(at, RECOVERY_KIND, "")))
  }

  /** Missing events are added once each; those that are there already stay as they are. */
  lemma {:induction false} MissingExactly(items: seq<Event>, events: seq<Event>, e: Event)
    ensures multiset(MissingFrom(items, events))[e] == if e in events then multiset(events)[e] else if e in items then 1 else 0
    ensures e in MissingFrom(items, events) <==> e in items || e in events
    decreases |items|
  {
    if items != [] {
      var grown := if items[0] in events then events else events + [items[0]];
      MissingExactly(items[1..], grown, e);
      assert items == [items[0]] + items[1..];
      assert multiset(events + [items[0]]) == multiset(events) + multiset{items[0]};
    } else {
      assert e in events <==> e in multiset(events);
    }
  }

  /** The events of one moment, in their order. */
  function AtMoment(s: seq<Event>, at: int): seq<Event> {
    if s == [] then []
    else
      var n := |s| - 1;
      AtMoment(s[..n], at) + if s[n].at == at then [s[n]] else []
  }

  lemma AtMomentAppend(s: seq<Event>, e: Event, at: int)
    ensures AtMoment(s + [e], at) == AtMoment(s, at) + if e.at == at then [e] else []
  {
    assert (s + [e])[..|s|] == s;
  }

  lemma {:induction false} InsertIsStable(s: seq<Event>, e: Event, at: int)
    ensures AtMoment(InsertByTime(s, e), at) == AtMoment(s, at) + if e.at == at then [e] else []
    decreases |s|
  {
    hide AtMoment;
    if s == [] || s[|s| - 1].at <= e.at {
      AtMomentAppend(s, e, at);
    } else {
      var front, last := s[..|s| - 1], s[|s| - 1];
      InsertIsStable(front, e, at);
      assert s == front + [last];
      AtMomentAppend(front, last, at);
      AtMomentAppend(InsertByTime(front, e), last, at);
    }
  }

  /** Sorting by time leaves the events of one moment in the order they were written. */
  lemma {:induction false} SortIsStable(s: seq<Event>, at: int)
    ensures AtMoment(SortByTime(s), at) == AtMoment(s, at)
    decreases |s|
  {
    if s != [] {
      var n := |s| - 1;
      SortIsStable(s[..n], at);
      InsertIsStable(SortByTime(s[..n]), s[n], at);
    }
  }

  lemma SortMembers(s: seq<Event>)
    ensures forall e :: e in SortByTime(s) <==> e in s
  {
    hide SortByTime;
    assert multiset(SortByTime(s)) == multiset(s);
    forall e
      ensures e in SortByTime(s) <==> e in s
    {
      assert e in multiset(SortByTime(s)) <==> e in SortByTime(s);
      assert e in multiset(s) <==> e in s;
    }
  }

  lemma AnnotatedCounts(r: Record, at: int, e: Event)
    requires e != Event(at, RECOVERY_KIND, "")
    ensures multiset(AnnotateRecovery(r, at).events)[e]
         == if e in r.events then multiset(r.events)[e] else if e in r.managementEvents then 1 else 0
  {
    hide SortByTime, MissingFrom, SortedByTime;
    var all, notice := MissingFrom(r.managementEvents, r.events), Event(at, RECOVERY_KIND, "");
    MissingExactly(r.managementEvents, r.events, e);
    assert multiset(SortByTime(all)) == multiset(all);
    assert multiset(SortByTime(all) + [notice]) == multiset(SortByTime(all)) + multiset{notice};
  }

  /** The trail a run's record gets, from the events it is finished with. */
  lemma AnnotatedTrail(r: Record, at: int)
    ensures var b, notice := AnnotateRecovery(r, at), Event(at, RECOVERY_KIND, "");
            var due := r.atLeastOnce && forall e :: e in r.events || e in r.managementEvents ==> e.kind != RECOVERY_KIND;
            && b == r.(events := b.events) && multiset(r.events) <= multiset(b.events)
            && (forall e :: e in b.events <==> e in r.events || e in r.managementEvents || (e == notice && due))
            && (if due then b.events != [] && b.events[|b.events| - 1] == notice && SortedByTime(b.events[..|b.events| - 1])
                else SortedByTime(b.events))
  {
    hide SortByTime, MissingFrom, SortedByTime;
    AnnotateLaws(r, at);
    var all := MissingFrom(r.managementEvents, r.events);
    var sorted := SortByTime(all);
    forall e
      ensures e in all <==> e in r.managementEvents || e in r.events
    {
      MissingExactly(r.managementEvents, r.events, e);
    }
    SortMembers(all);
    SortSorts(all);
    var b, notice := AnnotateRecovery(r, at), Event(at, RECOVERY_KIND, "");
    var noted := exists i :: 0 <= i < |sorted| && sorted[i].kind == RECOVERY_KIND;
    assert noted <==> exists e :: e in sorted && e.kind == RECOVERY_KIND;
    if r.atLeastOnce && !noted {
      assert b.events == sorted + [notice];
      assert b.events[..|b.events| - 1] == sorted;
    }
  }

  lemma MergedMembers(before: seq<Event>, produced: seq<Event>)
    ensures forall e :: e in MergeEvents(before, produced) <==> e in before || e in produced
  {
    var n := CommonPrefix(before, produced);
    assert produced == produced[..n] + produced[n..];
    assert forall e :: e in produced[..n] ==> e in before;
  }

  /** The events a run starts its last part of the trail from. */
  function MergedTrail(before: seq<Event>, produced: seq<Event>): seq<Event> {
    MergeEvents(before, if produced == [] then before else produced)
  }

  lemma MergedTrailTold(before: seq<Event>, produced: seq<Event>)
    ensures var merged := MergedTrail(before, produced);
            && multiset(before) <= multiset(merged) && multiset(produced) <= multiset(merged)
            && forall e :: e in merged <==> e in before || e in produced
  {
    hide MergeEvents;
    MergeKeeps(before, if produced == [] then before else produced);
    MergedMembers(before, if produced == [] then before else produced);
    assert before <= MergedTrail(before, produced);
    var merged := MergedTrail(before, produced);
    assert merged == before + merged[|before|..];
    assert multiset(merged) == multiset(before) + multiset(merged[|before|..]);
  }

  lemma MergedContinues(before: seq<Event>, produced: seq<Event>)
    requires before <= produced
    ensures MergedTrail(before, produced) == produced
  {
    hide MergeEvents;
    MergeKeeps(before, if produced == [] then before else produced);
  }

  lemma MembersFinished(before: Record, run: Record, produced: seq<Event>, own: seq<Event>)
    requires run.events == MergedTrail(before.events, produced) + own && run.managementEvents == before.managementEvents
    ensures multiset(before.events) <= multiset(run.events) && multiset(produced) <= multiset(run.events)
    ensures forall e :: e in run.events || e in run.managementEvents
                   <==> e in before.events || e in produced || e in before.managementEvents || e in own
  {
    hide MergedTrail;
    MergedTrailTold(before.events, produced);
    assert multiset(run.events) == multiset(MergedTrail(before.events, produced)) + multiset(own);
  }

  lemma ShapeFinished(before: Record, run: Record, produced: seq<Event>, own: seq<Event>, at: int)
    requires run.events == MergedTrail(before.events, produced) + own
    requires run.managementEvents == before.managementEvents && run.atLeastOnce == before.atLeastOnce
    ensures TrailShaped(before, AnnotateRecovery(run, at), produced, own, at)
  {
    hide AnnotateRecovery, MergedTrail, SortedByTime, NoticeDue;
    MembersFinished(before, run, produced, own);
    AnnotatedTrail(run, at);
    SameNotice(before, run, produced, own);
  }

  lemma SameNotice(before: Record, run: Record, produced: seq<Event>, own: seq<Event>)
    requires run.atLeastOnce == before.atLeastOnce
    requires forall e :: e in run.events || e in run.managementEvents
                    <==> e in before.events || e in produced || e in before.managementEvents || e in own
    ensures NoticeDue(before, produced, own)
       <==> run.atLeastOnce && forall e :: e in run.events || e in run.managementEvents ==> e.kind != RECOVERY_KIND
  {
  }

  lemma Undoubled(before: Record, run: Record, produced: seq<Event>, own: seq<Event>, at: int)
    requires run.events == produced + own && run.managementEvents == before.managementEvents
    ensures NoneDoubled(before, AnnotateRecovery(run, at), produced, own, Event(at, RECOVERY_KIND, ""))
  {
    hide AnnotateRecovery;
    assert multiset(run.events) == multiset(produced) + multiset(own);
    forall e | e !in own && e != Event(at, RECOVERY_KIND, "")
      ensures multiset(AnnotateRecovery(run, at).events)[e]
           == if e in produced then multiset(produced)[e] else if e in before.managementEvents then 1 else 0
    {
      AnnotatedCounts(run, at, e);
      assert e !in multiset(own) && multiset(own)[e] == 0;
      assert e in run.events <==> e in produced;
    }
  }

  lemma TrailFinished(before: Record, run: Record, produced: seq<Event>, own: seq<Event>, at: int)
    requires run.events == MergedTrail(before.events, produced) + own
    requires run.managementEvents == before.managementEvents && run.atLeastOnce == before.atLeastOnce
    ensures TrailTold(before, AnnotateRecovery(run, at), produced, own, at)
  {
    hide AnnotateRecovery, MergedTrail, TrailShaped, NoneDoubled;
    ShapeFinished(before, run, produced, own, at);
    if before.events <= produced {
      MergedContinues(before.events, produced);
      Undoubled(before, run, produced, own, at);
    }
  }

  // ----- The whole record ------------------------------------------------------

  /** What no run touches; its usage is the ledger's. */
  predicate RunKeeps(before: Record, after: Record, usage: L.Payload) {
    && after == before.(status := after.status, awaitingInput := after.awaitingInput, draft := after.draft, draftVersions := after.draftVersions,
                        confirmations := after.confirmations, events := after.events, usage := Some(usage))
  }

  predicate MaterialKeptBy(before: Record, after: Record) {
    after.draft == before.draft && after.draftVersions == before.draftVersions && after.confirmations == before.confirmations
  }

  /** The record a run ends with. */
  ghost predicate FinishedInto(before: Record, outcome: RunOutcome, usage: L.Payload, at: int, after: Record) {
    RunKeeps(before, after, usage)
    && match outcome
       case TimedOut =>
         && after.status.Failed? && after.awaitingInput == before.awaitingInput && MaterialKeptBy(before, after)
         && after.events == before.events + [Event(at, "timeout", "")]
       case Raised =>
         && after.status.Failed? && after.awaitingInput == before.awaitingInput && MaterialKeptBy(before, after)
         && after.events == before.events + [Event(at, "failed", "")]
       case Interrupted(events) =>
         && after.status.NeedsInfo? && after.awaitingInput && MaterialKeptBy(before, after)
         && TrailTold(before, after, events, [Event(at, "awaiting_input", "")], at)
       case Completed(status, draft, events) =>
         && after.status == status && !after.awaitingInput && after.draft == draft
         && HistoryTold(before, after, draft) && ConfirmationsTold(before, after, draft) && TrailTold(before, after, events, [], at)
  }

  lemma VersionEntered(run: Record, draft: Option<Draft>)
    ensures var b := RecordDraftVersion(run, draft, "agent", "agent", "generated");
            HistoryTold(run, b, draft) && b == run.(draftVersions := b.draftVersions)
  {
  }

  lemma StaleTold(run: Record)
    ensures ConfirmationsTold(run, InvalidateStale(run), run.draft)
    ensures InvalidateStale(run) == run.(confirmations := InvalidateStale(run).confirmations)
  {
    hide MarkStale;
    MarkedTold(run.confirmations, run.inputVersion, run.draft);
  }

  lemma MarkedTold(cs: seq<Confirmation>, version: InputDigest, draft: Option<Draft>)
    ensures var digest := if draft.Some? then Some(HashOf(draft.value)) else None;
            var marked := MarkStale(cs, version, digest);
            && |marked| == |cs|
            && forall i :: 0 <= i < |cs| ==>
                 marked[i] == cs[i].(invalidated := cs[i].invalidated || draft.None? || cs[i].materialHash != HashOf(draft.value)
                                                    || cs[i].materialVersion != version)
  {
  }

  lemma InterruptedInto(r: Record, events: seq<Event>, usage: L.Payload, at: int)
    ensures FinishedInto(r, Interrupted(events), usage, at, Finished(r, Interrupted(events), usage, at))
  {
    hide MergeEvents, AnnotateRecovery, TrailTold;
    var own := [Event(at, "awaiting_input", "")];
    var run := r.(usage := Some(usage), status := NeedsInfo, awaitingInput := true, events := MergedTrail(r.events, events) + own);
    TrailFinished(r, run, events, own, at);
    assert AnnotateRecovery(run, at) == run.(events := AnnotateRecovery(run, at).events) by { AnnotateLaws(run, at); }
    assert Finished(r, Interrupted(events), usage, at) == AnnotateRecovery(run, at);
  }

  lemma CompletedInto(r: Record, status: Status, draft: Option<Draft>, events: seq<Event>, usage: L.Payload, at: int)
    ensures FinishedInto(r, Completed(status, draft, events), usage, at, Finished(r, Completed(status, draft, events), usage, at))
  {
    hide MergeEvents, AnnotateRecovery, InvalidateStale, RecordDraftVersion, TrailTold, HistoryTold, ConfirmationsTold;
    var run := r.(usage := Some(usage), awaitingInput := false, status := status, draft := draft, events := MergedTrail(r.events, events));
    var versioned := RecordDraftVersion(run, draft, "agent", "agent", "generated");
    var marked := InvalidateStale(versioned);
    var b := AnnotateRecovery(marked, at);
    VersionEntered(run, draft);
    StaleTold(versioned);
    assert marked.events == MergedTrail(r.events, events) + [];
    TrailFinished(r, marked, events, [], at);
    AnnotateLaws(marked, at);
    HistoryAgain(run, versioned, r, b, draft);
    ConfirmationsAgain(versioned, marked, r, b, draft);
    assert b == Finished(r, Completed(status, draft, events), usage, at);
  }

  lemma HistoryAgain(a: Record, b: Record, a1: Record, b1: Record, draft: Option<Draft>)
    requires HistoryTold(a, b, draft)
    requires a1.draftVersions == a.draftVersions && a1.selectedSnapshot == a.selectedSnapshot && b1.draftVersions == b.draftVersions
    ensures HistoryTold(a1, b1, draft)
  {
  }

  lemma ConfirmationsAgain(a: Record, b: Record, a1: Record, b1: Record, draft: Option<Draft>)
    requires ConfirmationsTold(a, b, draft)
    requires a1.confirmations == a.confirmations && a1.inputVersion == a.inputVersion && b1.confirmations == b.confirmations
    ensures ConfirmationsTold(a1, b1, draft)
  {
  }

  /** However a run ends, this is the record it leaves behind. */
  lemma FinishedExactly(r: Record, outcome: RunOutcome, usage: L.Payload, at: int)
    ensures FinishedInto(r, outcome, usage, at, Finished(r, outcome, usage, at))
  {
    match outcome
    case TimedOut =>
    case Raised =>
    case Interrupted(events) =>
      InterruptedInto(r, events, usage, at);
    case Completed(status, draft, events) =>
      CompletedInto(r, status, draft, events, usage, at);
  }

  // ----- From the run's return to its save -------------------------------------

  /** The execution has this result to store, has answered, or is gone. */
  ghost predicate Holds(s: TaskState, id: ExecutionId, result: Record) {
    id in s.issued
    && (id in s.executions ==> s.executions[id].phase.Returned? || (s.executions[id].phase.Saving? && s.executions[id].phase.result == result))
  }

  lemma DispatchExecutions(s: TaskState, r: Record, disk: Disk)
    ensures var t := SaveAndDispatch(s, r, disk).0;
            t.executions == s.executions || t.executions == s.executions[disk.freshId := Execution(Created, false)]
  {
  }

  lemma CommitHolds(env: Env, s: TaskState, step: Step, id: ExecutionId, result: Record)
    requires Enabled(s, step) && Commits(step) && Holds(s, id, result)
    ensures id in Next(env, s, step).executions ==> id in s.executions && Next(env, s, step).executions[id] == s.executions[id]
  {
    hide Clarified, Resumed, NewTask, SaveAndDispatch, Continuable, EditFinish, LinkFinish, OnlyRecordAndTicket;
    if step.DoCreate? {
      DispatchExecutions(s, NewTask(step.actor, step.create, step.disk.at), step.disk);
    } else if step.DoClarifyFinish? {
      if ClarifyUpdates(s, step).Some? {
        DispatchExecutions(s.Drop(step.key), ClarifyUpdates(s, step).value, step.disk);
      }
    } else if step.DoResumeFinish? {
      var ticket := s.waiting[step.key];
      DispatchExecutions(s.Drop(step.key), Resumed(s.record.value, ticket.prepared, ticket.request.Some?, ticket.resolved, step.disk.at), step.disk);
    } else {
      EditLinkExecutions(env, s, step);
    }
  }

  function ClarifyUpdates(s: TaskState, step: Step): Option<Record>
    requires Enabled(s, step) && step.DoClarifyFinish?
  {
    if step.resolved.None? then None
    else
      match Clarified(s.record.value, s.waiting[step.key].clarification, step.resolved.value, step.facts, step.disk.at)
      case Err(_) => None
      case Ok(updated) => Some(updated)
  }

  lemma EditLinkExecutions(env: Env, s: TaskState, step: Step)
    requires Enabled(s, step) && (step.DoEditFinish? || step.DoLinkFinish?)
    ensures Next(env, s, step).executions == s.executions
  {
    hide Next, Enabled;
    EditLinkEffect(env, s, step);
  }

  lemma OwnWork(s: TaskState, step: Step)
    requires Enabled(s, step) && Works(step) && step.id in s.executions
    requires s.executions[step.id].phase.Returned? || s.executions[step.id].phase.Saving?
    ensures step.DoPersist? && s.executions[step.id].phase.Saving?
  {
  }

  lemma WorkHolds(env: Env, s: TaskState, step: Step, id: ExecutionId, result: Record)
    requires Enabled(s, step) && Works(step) && Holds(s, id, result)
    ensures var t := Next(env, s, step);
            id in t.executions ==> t.executions[id].phase.Returned? || (t.executions[id].phase.Saving? && t.executions[id].phase.result == result)
  {
    hide Next, Enabled, RunReturns;
    WorkEffect(env, s, step);
    if step.id == id {
      OwnWork(s, step);
      PersistStep(env, s, step);
    }
  }

  lemma PersistStep(env: Env, s: TaskState, step: Step)
    requires Enabled(s, step) && step.DoPersist?
    ensures Next(env, s, step) == PersistTerminal(env, s, step.id, step.saved)
  {
    hide PersistTerminal;
  }

  lemma ManagementHolds(env: Env, s: TaskState, step: Step, id: ExecutionId)
    requires Enabled(s, step) && Manages(step) && id in Next(env, s, step).executions
    ensures id in s.executions && Next(env, s, step).executions[id].phase == s.executions[id].phase
  {
    hide Next, Enabled, Manages;
    if s.record.Some? {
      ManagementEffect(env, s, step);
    } else {
      NothingManaged(env, s, step);
    }
  }

  lemma HoldsStep(env: Env, s: TaskState, step: Step, id: ExecutionId, result: Record)
    requires Invariant(s) && Enabled(s, step) && Holds(s, id, result)
    ensures Holds(Next(env, s, step), id, result)
  {
    hide Invariant, Enabled, Next, Grows;
    StepKeeps(env, s, step);
    var t := Next(env, s, step);
    assert s.issued <= t.issued;
    if Suspends(step) {
      SuspendKeeps(env, s, step);
    } else if Commits(step) {
      CommitHolds(env, s, step, id, result);
    } else if Manages(step) {
      if id in t.executions {
        ManagementHolds(env, s, step, id);
      }
    } else if Works(step) {
      WorkHolds(env, s, step, id, result);
    } else {
      EndEffect(env, s, step);
    }
  }

  lemma {:induction false} HoldsForever(env: Env, s: TaskState, steps: seq<Step>, id: ExecutionId, result: Record)
    requires Invariant(s) && Feasible(env, s, steps) && Holds(s, id, result)
    ensures Invariant(Run(env, s, steps)) && Holds(Run(env, s, steps), id, result)
    decreases |steps|
  {
    hide Invariant, Holds, Enabled, Next, Progress;
    if steps != [] {
      StepKeeps(env, s, steps[0]);
      HoldsStep(env, s, steps[0], id, result);
      HoldsForever(env, Next(env, s, steps[0]), steps[1..], id, result);
    }
  }

  predicate RunsFor(s: TaskState, id: ExecutionId) {
    id in s.executions && s.executions[id].phase.Working? && !s.executions[id].cancelRequested
  }

  /** The terminal save of an execution that owns its record. */
  predicate StoresFor(s: TaskState, id: ExecutionId) {
    id in s.executions && s.executions[id].phase.Saving? && !s.executions[id].cancelRequested && s.Owns(id)
  }

  /** A returning run has its result told from the stored record. */
  lemma ReturnTold(env: Env, s: TaskState, id: ExecutionId, outcome: RunOutcome, at: int)
    requires Invariant(s) && RunsFor(s, id)
    ensures var u := RunReturns(env, s, id, outcome, at);
            && s.record.Some? && id in u.executions && u.executions[id].phase.Saving?
            && FinishedInto(s.record.value, outcome, L.AsDict(s.executions[id].phase.account, env.budget, env.LedgerId(id)), at, u.executions[id].phase.result)
            && Holds(u, id, u.executions[id].phase.result)
  {
    hide Finished, FinishedInto, L.AsDict, Sound, Grows, Stored;
    var work := s.executions[id].phase;
    assert s.executions[id].InCharge();
    assert s.Owns(id) && id in s.issued;
    assert Tracks(s.record.value, s.executions[id]);
    var usage := L.AsDict(work.account, env.budget, env.LedgerId(id));
    SameRun(work.snapshot, s.record.value, outcome, usage, at);
    FinishedExactly(s.record.value, outcome, usage, at);
  }

  lemma ReturnInvariant(env: Env, s: TaskState, id: ExecutionId, outcome: RunOutcome, at: int)
    requires Invariant(s) && RunsFor(s, id)
    ensures Invariant(RunReturns(env, s, id, outcome, at))
  {
    hide Invariant, RunReturns, Progress;
    StepKeeps(env, s, DoRunReturns(id, outcome, at));
  }

  /**
   Whatever happens between a run's return and the save of its result: what is stored then is the record the
   run found, with what its outcome says of status, draft, versions, confirmations and trail, and its bill.
   */
  lemma RunIsStored(env: Env, s: TaskState, id: ExecutionId, outcome: RunOutcome, at: int, steps: seq<Step>)
    requires Invariant(s) && RunsFor(s, id)
    requires var u := RunReturns(env, s, id, outcome, at); Feasible(env, u, steps) && StoresFor(Run(env, u, steps), id)
    ensures var t := PersistTerminal(env, Run(env, RunReturns(env, s, id, outcome, at), steps), id, true);
            && s.record.Some? && t.record.Some?
            && FinishedInto(s.record.value, outcome, L.AsDict(s.executions[id].phase.account, env.budget, env.LedgerId(id)), at, t.record.value)
  {
    hide Invariant, FinishedInto, RunReturns, PersistTerminal, Run, Feasible, L.AsDict, Progress;
    ReturnTold(env, s, id, outcome, at);
    var u := RunReturns(env, s, id, outcome, at);
    ReturnInvariant(env, s, id, outcome, at);
    HoldsForever(env, u, steps, id, u.executions[id].phase.result);
    PersistEffect(env, Run(env, u, steps), id, true);
  }

  /** So a generated draft is the record's last version once the run is stored, and by then no confirmation of another draft counts. */
  lemma DraftIsLastVersion(before: Record, status: Status, d: Draft, events: seq<Event>, usage: L.Payload, at: int, after: Record)
    requires FinishedInto(before, Completed(status, Some(d), events), usage, at, after)
    ensures after.draftVersions != [] && after.draftVersions[|after.draftVersions| - 1].contentHash == HashOf(d)
    ensures forall i :: 0 <= i < |after.confirmations| && !after.confirmations[i].invalidated ==> after.confirmations[i].materialHash == HashOf(d)
  {
    hide TrailTold;
  }

  // ----- While a run works -----------------------------------------------------

  /** An execution that owns its record works on it, with the books taken over from what was stored; any other one ends. */
  lemma StartExactly(s: TaskState, id: ExecutionId)
    requires id in s.executions && s.executions[id].phase.Created?
    ensures var t := ExecutionStart(s, id);
            && t == s.(executions := s.executions[id := Execution(t.executions[id].phase, s.executions[id].cancelRequested)])
            && if s.Owns(id) then
                 && t.executions[id].phase.Working? && t.executions[id].phase.snapshot == s.record.value
                 && t.executions[id].phase.account.requests == s.record.value.UsedRequests()
                 && var usage, account := s.record.value.usage, t.executions[id].phase.account;
                    if usage.None? then account == L.FRESH
                    else account.reported == usage.value.reported && account.chargedUnknown == usage.value.chargedUnknown
                         && account.promptTokens == usage.value.promptTokens.GetOr(0)
                         && account.completionTokens == usage.value.completionTokens.GetOr(0)
               else t.executions[id].phase == Returned(false)
  {
    hide L.Seed;
    if s.Owns(id) && s.record.value.usage.Some? {
      T.SeedAdds(L.FRESH, s.record.value.usage.value);
    } else {
      SeedNothing();
    }
  }

  lemma SeedNothing()
    ensures L.Seed(L.FRESH, None) == L.FRESH
  {
  }

  /** What persisting a new account changes in the stored record: its usage, and only for the execution that owns it. */
  predicate BooksStored(env: Env, s: TaskState, id: ExecutionId, account: L.Account, saved: bool, after: Option<Record>) {
    after == if s.Owns(id) && saved then Some(s.record.value.(usage := Some(L.AsDict(account, env.budget, env.LedgerId(id))))) else s.record
  }

  /**
   A model request goes out exactly when its budget leaves room and the reservation is stored for the owner;
   the execution counts it either way, charged in full.
   */
  lemma ReserveExactly(env: Env, s: TaskState, id: ExecutionId, phase: string, saved: bool)
    requires id in s.executions && s.executions[id].phase.Working?
    ensures var t, work := ReserveRequest(env, s, id, phase, saved), s.executions[id].phase;
            if !T.Room(work.account, env.budget) then t == s
            else
              && id in t.executions && t.executions[id].phase.Working?
              && var account := t.executions[id].phase.account;
                 && account.requests == work.account.requests + 1 && account.reported == work.account.reported
                 && account.promptTokens == work.account.promptTokens && account.completionTokens == work.account.completionTokens
                 && account.chargedUnknown == work.account.chargedUnknown + env.budget.Charge()
                 && t == s.(record := t.record, sent := s.sent + (if s.Owns(id) && saved then 1 else 0),
                            executions := s.executions[id := Execution(Working(work.snapshot, account), s.executions[id].cancelRequested)])
                 && BooksStored(env, s, id, account, saved, t.record)
  {
    hide L.ExceededBy, L.AsDict, T.Room, L.ReserveCall;
    T.GuardPassesExactly(s.executions[id].phase.account, env.budget);
    ReservedAccount(s.executions[id].phase.account, env.budget, env.LedgerId(id), phase, env.model);
  }

  lemma ReservedAccount(a: L.Account, b: L.Budget, id: L.Identity, phase: string, model: string)
    ensures var t := L.ReserveCall(a, b, id, phase, model);
            && t.requests == a.requests + 1 && t.reported == a.reported && t.promptTokens == a.promptTokens
            && t.completionTokens == a.completionTokens && t.chargedUnknown == a.chargedUnknown + b.Charge()
  {
  }

  /** A settlement changes the books of its execution, and the stored ones when they are saved for the owner; no request goes out. */
  lemma SettleExactly(env: Env, s: TaskState, id: ExecutionId, settlement: L.Settlement, saved: bool)
    requires id in s.executions && s.executions[id].phase.Working?
    ensures var t, work := SettleRequest(env, s, id, settlement, saved), s.executions[id].phase;
            match L.SettleCall(work.account, env.budget, settlement)
            case None => t == s
            case Some(account) =>
              && t == s.(record := t.record,
                         executions := s.executions[id := Execution(Working(work.snapshot, account), s.executions[id].cancelRequested)])
              && BooksStored(env, s, id, account, saved, t.record)
  {
    hide L.SettleCall, L.AsDict;
  }

  /**
   One attempt at the terminal save: given up when the record has another owner, stored when the save succeeds, and
   otherwise tried again until the configured number of attempts, at least one, is used up and a problem is filed.
   */
  lemma PersistExactly(env: Env, s: TaskState, id: ExecutionId, saved: bool)
    requires id in s.executions && s.executions[id].phase.Saving?
    ensures var t, phase, last := PersistTerminal(env, s, id, saved), s.executions[id].phase, s.executions[id].phase.attempt + 1 >= env.persistAttempts;
            var next := if !s.Owns(id) || saved || last then Returned(false) else Saving(phase.result, phase.attempt + 1);
            t == s.(record := if s.Owns(id) && saved then Some(phase.result) else s.record,
                    problem := if s.Owns(id) && !saved && last then Some(id) else s.problem,
                    executions := s.executions[id := Execution(next, s.executions[id].cancelRequested)])
  {
  }

  /** An execution that is done gives back its place, its own only, and leaves a problem when it ended in an error. */
  lemma DoneExactly(s: TaskState, id: ExecutionId)
    requires id in s.executions && s.executions[id].phase.Returned?
    ensures var t := ExecutionDone(s, id);
            && t == s.(executions := t.executions, current := t.current, problem := t.problem)
            && t.executions.Keys == s.executions.Keys - {id} && (forall other :: other in t.executions ==> t.executions[other] == s.executions[other])
            && (t.current == if s.current == Some(id) then None else s.current)
            && (t.problem == if s.executions[id].phase.raised then Some(id) else s.problem)
  {
  }
}
