# Verification of the change-guard model

A Dafny model of the parts of this repository that are hardest to get right: code whose
correctness is a statement about every interleaving, every history or every input. Loops and
classes are proved against functions, and what the code is for is proved about those functions.
`dafny verify dfyconfig.toml` checks the whole project.

## What is modelled

**Agent tasks** (`TaskRecords`, `RecordLaws`, `TaskMachine`, `TaskInvariants`, `TaskTheorems`,
`TaskEffects`, `TaskSupervision`, `TaskManagement`, `TaskSightings`, `TaskEdits`, `TaskWitnesses`, `AgentService`,
`ServiceRuns`, with the ledger in `UsageLedger`). One stored record per task is shared by racing
coroutines. `TaskMachine` has one function for each atomic segment between two suspension points,
and one step for each: requests, executions, retries of the terminal save, cancelled callers,
crashes and start-up. Any interleaving of steps is a run, and the main theorems are about all runs.
`AgentService.Service` is the object itself, with its maps of records, handles and problems for all
tasks; each of its methods is proved to do to its own task
what the machine says, to keep the invariant, and to leave every other task alone; `ServiceRuns`
draws the conclusion for any series of calls on any tasks. `TaskSightings` and `TaskEdits` are about
requests that finish on a record they saw earlier, and `TaskWitnesses` holds concrete runs.
`TaskAnswers`, `TaskResults` and `TaskDecisions` tell, operation by operation, who is answered what and
every field of the record that is left behind, from the record before and the request alone;
`LedgerTotals` does the same for the books.

**The SQL scanners** (`SqlLexer`, `SqlGrammar`). One lexer gives every byte its class; the splitter, the
meta-command scan and the comment stripper are loops proved against it and against each other;
`SqlGrammar` tells the lexer construct by construct.

**The organisation audit chain and its redacted evidence** (`AuditChain`, `AuditFields`,
`AuditProof`). The verifier of an interleaved log, linking and appending, what
tampering shows, and the second checker that must accept exactly the right projections.

**The gateway** (`TokenLimiter`, `MetricWindow`, `GatewayMetrics`, `MetricsLaws`, `MetricsFiles`,
`GatewayAudit`, `GatewayAuditLaws`). The token bucket with garbage collection, the windowed counters
and their signed file, and the append-only audit file byte by byte.

**Quotas** (`UsageQuota`, `RuntimeQuota`, `QuotaAnswers`). The sliding log, the three counters that move
together, and the circuit breaker.

`Common.dfy` holds options and results, ASCII trimming and letter case, and a few facts about
sequences and sums.

## Results that differ from what one might expect

- Supervision of a record in flight is lost in exactly two ways: the compensating save after a
  failed dispatch fails as well, or a run reports an in-flight status as its result and that is
  stored (`SupervisionExactly`, with concrete cases in `StrandedAtCreation` and
  `StrandedByItsResult`). A restart closes both. The second way needs a run that ends RUNNING, and
  the drafting workflow ends only with INPUT_REJECTED, NEEDS_INFO, FAILED, CHECK_BLOCKED or
  DRAFT_READY (agent-app/app/workflow/graph.py:272-286 and 705-730); with runs that end so, the
  failed compensation is the only way (`OnlyFailedCompensationEscapes`, `WorkflowSupervised`).
- A resume stores slots, snapshot and notes from the copy it prepared before its checkpoint was
  read (agent-app/app/service.py:512-521), and the check that follows compares only owner and
  status. A dispatch that fails after its save leaves both as they were, so inputs it stored can be
  overwritten: a clarification's note (`NoteLostToResume`), another resume's note and schema
  (`InputsLostToResume`). Inputs survive exactly when what the request leaves alone is as it was
  seen (`ResumeCarriesExactly`, `NotesKeptExactly`), and without such a failed dispatch nothing is
  lost (`NoInputLostWithoutFailedDispatch`, `NotesNeverLost`).
- The event that records the snapshot a resume selected belongs to the prepared copy and is never
  stored (`SnapshotSelectedSilently`); after a resume a selection is in the trail exactly when it
  was in the latest stored one (`SelectionRecordedExactly`). A clarification does store it
  (`ClarifyStoresSnapshotEvent`).
- An edit checks the draft's version number, and a regenerated draft starts at 1 again, so an edit can
  replace a draft its editor never saw (`EditOverUnseenDraft`). While the record keeps its owner the
  number identifies the draft and the check is exact (`VersionIdentifiesDraft`,
  `EditAcceptedExactly`). A draft that is gone counts as version 1
  (`MissingDraftEditedExactly`), but with the workflow's own runs material always has a draft
  (`MaterialHasDraft`).
- A transaction command is recognised when the statement equals it or continues it with a space, so
  one directly followed by a tab, a line break or a comment is accepted (`SlipsThroughExactly`,
  `TabSlipsThrough`, `NewlineSlipsThrough`).
- Linking fails for one kind of predecessor only: a stored hash that is not empty but blank
  (`LinkExtendsExactly`, `BlankHashBreaksLink`). The store looks the predecessor up by the
  identifier as stored, while the chain is keyed by the trimmed one (`AppendKeepsExactly`,
  `SpacedOrganizationBreaksAppend`).
- The audit file's reader refuses a line of 2^20 bytes or more with its newline, which the writer
  does not check (`AppendsReopenExactly`, `SomeRecordShutsTheLog`). A log that failed to write goes on
  under the same number, and the file then opens again exactly when the failed write left nothing
  behind (`FailedAppendHealsExactly`).
- The metrics file over 1 MiB is refused at start (`ReopenExactly`). A name of a megabyte would make one
  (`LongNameShutsTheMeter`), but the gateway counts under two names only
  (internal/agentgateway/gateway.go:25), and its files never exceed 22,000 bytes
  (`OrdinaryFileFits`), so its starts never fail for that reason (`GatewayRunsFaithfully`).
- When the tail window starts exactly at a line boundary, that first whole line is dropped too, and
  only then (`WholeLineDroppedExactly`).
- A bucket that is collected comes back full, so the burst must not exceed 15 minutes of refill, both
  for collection to stay invisible and for the rate to hold (`CollectionInvisibleExactly`,
  `AdmissionsBoundedExactly`, `EarnedExactly`).

## Assumptions

- Digests, signatures and JSON are function parameters or structured payloads: injective or
  collision-free where a theorem says so, hexadecimal where the chain needs it, and with decoding
  inverting encoding for the audit file. Execution ids are fresh.
- Text is ASCII: trimming and letter case act on ASCII white space and letters. Integers are
  unbounded. Times are reals or naturals, and cost is not rounded.
- A save is all or nothing, as in agent-app/app/store/tasks.py:93-113, and reads return copies. An
  execution that was told to stop makes no terminal write, but may still make requests and write its usage.
- A model request counts as sent when its durable reservation succeeded, because the reservation
  precedes the request. A run is an oracle: it may interrupt, return any status, draft and events,
  raise, or time out.
- Returning from a run and the first attempt to store its result are two steps, and a start-up
  save that fails means that start-up has not happened yet; both only add interleavings.
- Details of event texts that no branch reads are shortened, and external checks (application
  access, snapshots, scans, known changes) are parameters with any answer.
- The encoded length of the metrics file is a parameter bounded by its shape: constant parts, so much
  for each sample and operation, and the names. The bounds are those of the JSON with 64-bit numbers.
- Sorting is the library's: a stable insertion sort stands for it in the trail and in the
  percentile.

## Model

| member | source | states |
|---|---|---|
| UsageLedger.Ledger.AddCall | agent-app/app/budget.py:106-153 | one call is numbered, counted, charged when its usage is unknown and kept among the last 60 records; a failing callback is reported after the books were updated |
| UsageLedger.Ledger.Reserve | agent-app/app/budget.py:155-161 | a reservation is a pending call charged in full; its number is the request count |
| UsageLedger.Ledger.Settle | agent-app/app/budget.py:163-186 | the first record still pending under that number is settled in place, otherwise nothing changes and an error says so |
| UsageLedger.Ledger.SeedFromPrior | agent-app/app/budget.py:294-311 | adds a persisted account to this one and keeps the last 60 records |
| UsageLedger.SeedRestores | agent-app/app/budget.py:263-311 | reloading what was persisted restores the whole account |
| UsageLedger.SettleSucceedsIff | agent-app/app/budget.py:163-186 | settling succeeds exactly for a reservation still open whose record is among the last 60 |
| UsageLedger.RunConsistent | agent-app/app/budget.py:106-186 | after any history of reservations, records, settlements and reloads: the unknown charge is one unit for each request without reported usage, and the kept records carry consecutive numbers ending at the request count |
| UsageLedger.RequestsCountEveryCall | agent-app/app/budget.py:106-161 | the request count is the number of calls ever made, reloads included |
| UsageLedger.OneRequestCost | agent-app/app/budget.py:155-186 | a request reserved and then settled costs exactly one request, and the reported prompt and completion tokens, each on its own, or one unknown charge |
| UsageLedger.BudgetBound | agent-app/app/budget.py:229-261 | with the guard before each sequential request, a request limit is never passed and counted tokens pass the token limit by at most one response or one unknown charge |
| UsageLedger.GuardBudget | agent-app/app/llm/provider.py:434-439 | the guard over all ledgers in scope gives the first refusal, outermost first |
| UsageLedger.ReserveAll | agent-app/app/llm/provider.py:447-448 | one reservation on each ledger in scope, outermost first; the first that does not save stops the request, and the ledgers behind it are untouched |
| UsageLedger.RoundsDoNotDecide | agent-app/app/workflow/investigate.py:504-506 | ledgers without limits inside the task's own, as an investigation round opens them, never change the guard's answer |
| LedgerTotals.TokensAreThoseReported | agent-app/app/budget.py:106-186 | after any history the prompt tokens are the sum of the prompt counts reported, the completion tokens that of the completion counts, each on its own, over records, successful settlements and reloads |
| LedgerTotals.SeedAdds | agent-app/app/budget.py:294-311 | a persisted account is added figure by figure |
| LedgerTotals.CallIsRecorded | agent-app/app/budget.py:106-153 | the newest record says what was called, under which number, for which execution, and what was reported of it |
| LedgerTotals.SettlementIsRecorded | agent-app/app/budget.py:163-186 | a settlement changes one record only, the first still pending under its number, and says its outcome and counts |
| LedgerTotals.PayloadSaysWhatIsKnown | agent-app/app/budget.py:263-292 | what is persisted gives every figure, and as unknown, never as zero, the tokens nobody reported and the cost while any report is missing |
| LedgerTotals.GuardPassesExactly | agent-app/app/budget.py:229-261 | the guard passes exactly while every configured limit leaves room and a cost limit can be judged |
| LedgerTotals.RefusalNamesLimit | agent-app/app/budget.py:229-261 | a refusal names the first limit that is out, in the order requests, tokens, prompt tokens, pricing, unknown cost, cost |
| LedgerTotals.FirstRefusalExactly | agent-app/app/llm/provider.py:434-439 | of several ledgers the first one without room speaks, and none while all have room |
| LedgerTotals.RequestLimitIsExact | agent-app/app/budget.py:229-261 | under a request limit alone exactly as many requests go out as there is room for |
| LedgerTotals.PromptBound | agent-app/app/budget.py:229-261 | the prompt limit is passed by at most the prompt of one response |
| LedgerTotals.CostBound | agent-app/app/budget.py:229-261 | the cost limit is passed by at most the cost of one response, prompt and completion priced apart |
| LedgerTotals.UnknownCostStops | agent-app/app/budget.py:229-261 | under a cost limit a response that reports no usage is the last one |
| TaskRecords.MergeKeeps | agent-app/app/service.py:2266-2282 | the merged trail starts with the trail before dispatch, holds every event of the run, and equals the run's trail when that continued the first |
| TaskRecords.SortSorts | agent-app/app/service.py:2120-2137 | the sort of the trail puts it in time order |
| RecordLaws.AnnotateLaws | agent-app/app/service.py:2120-2137 | noting a recovery never removes an event, changes nothing else, and keeps the trail complete in management events |
| RecordLaws.ApplyInputVersionLaws | agent-app/app/service.py:2100-2117 | the input version becomes the one recomputed from the inputs; a change voids the draft and marks confirmations that no longer match |
| RecordLaws.ClarifiedLaws | agent-app/app/service.py:357-433 | a clarified record is sound, back in flight, and has lost nothing |
| RecordLaws.ResumedLaws | agent-app/app/service.py:502-543 | a resumed record, merged onto the latest stored one, is sound and in flight, and has lost no confirmation, link, draft version, event or consumption; for the inputs see ResumeCarriesExactly |
| RecordLaws.ConfirmedLaws | agent-app/app/service.py:545-606 | one confirmation by the caller is added after stale ones are marked; the record stays sound and loses nothing |
| RecordLaws.EditedLaws | agent-app/app/service.py:806-849 | an edit replaces the draft, appends one version to the history, and leaves the record sound with nothing lost |
| RecordLaws.CancelledLaws | agent-app/app/service.py:1481-1505 | a cancelled record is sound and has lost nothing |
| RecordLaws.FinishedLaws | agent-app/app/service.py:1834-1923 | whatever a run returns, the record to be stored is sound, keeps owner and generation, carries the ledger and has lost nothing |
| TaskTheorems.StepKeeps | agent-app/app/service.py:1550-1786 | every atomic step of every coroutine keeps the invariant: stored records are sound, at most the registered owner may write, and what an execution holds agrees with what is stored |
| TaskTheorems.NothingIsLost | agent-app/app/service.py:1608-1786 | over any interleaving, confirmations, change links, draft versions, management events, the event trail and consumption are never missing from a later state; for the inputs see NotesNeverLost and ResumeCarriesExactly |
| TaskTheorems.EveryStoredRecordIsSound | agent-app/app/service.py:545-606 | in every reachable state the input version is the recomputed one, unmarked confirmations match inputs and material, archived work is not in flight, and deleted work is archived, stopped and empty |
| TaskTheorems.DurableAccounting | agent-app/app/service.py:1717-1729 | the stored request count never decreases and is at least the number of requests sent, across failing saves, cancellations, resumes and crashes |
| TaskTheorems.CancelledForever | agent-app/app/service.py:1471-1505 | once a cancellation is stored no run ever leaves it |
| TaskTheorems.AtMostOneInCharge | agent-app/app/service.py:1563-1592 | in every reachable state at most one execution is neither finished nor told to stop |
| TaskTheorems.OwnerIsExclusive | agent-app/app/service.py:1731-1756 | while an execution is in charge only its own steps, a cancellation or a restart change the record |
| TaskTheorems.GenerationsIncrease | agent-app/app/service.py:1700-1715 | whenever an execution id is issued the run generation has strictly risen |
| TaskSupervision.SupervisionExactly | agent-app/app/service.py:1526-1548 | a step loses supervision of a record in flight exactly when a dispatch's compensating save fails too, or a run stores an in-flight status as its result |
| TaskSupervision.AlwaysSupervised | agent-app/app/service.py:1579-1698 | in every run without those two escapes, every record in flight has a live execution or a recorded problem |
| TaskSupervision.NothingInFlightAfterRestart | agent-app/app/service.py:1788-1816 | after start-up nothing is in flight, whatever was stranded before |
| TaskSupervision.StrandedAtCreation | agent-app/app/service.py:1526-1548 | a concrete creation whose later saves all fail leaves a record in flight that nobody watches |
| TaskSupervision.StrandedByItsResult | agent-app/app/service.py:1886-1923 | a run that reported RUNNING as its result would leave such a record once that is stored; no run of the drafting workflow does |
| TaskSupervision.AdmittedAndSaved | agent-app/app/service.py:1526-1548 | a creation, clarification or resume is accepted exactly when its own guards pass and both saves of the dispatch succeed |
| TaskSupervision.OwnerChanges | agent-app/app/service.py:1700-1715 | the owner of a record changes only to a fresh execution or, by cancellation, to nobody |
| TaskSupervision.OneResumePerSighting | agent-app/app/service.py:475-543 | of any resumes that saw the same execution id, at most one starts an execution, whatever happens in between |
| TaskSupervision.AcceptedConfirmationStays | agent-app/app/service.py:545-606 | an accepted confirmation is in every later state, and unmarked only while it matches |
| TaskSupervision.AcceptedLinkStays | agent-app/app/service.py:884-911 | an accepted change link is in every later state |
| TaskSupervision.AcceptedEditStays | agent-app/app/service.py:806-849 | the version an accepted edit saved, with its text and author, is in every later state |
| TaskSupervision.RetryEnds | agent-app/app/service.py:1631-1651 | as many attempts as configured, and at least one, end the retry loop: the result is stored, or the record is untouched and a problem is on file |
| TaskManagement.RestoreUndoesArchive | agent-app/app/service.py:674-695 | restoring right after archiving gives the record back, with both operations in its trail |
| TaskManagement.RestoreUndoesDelete | agent-app/app/service.py:684-731 | a deleted record comes back in two restores, first into the archive, and a third changes nothing |
| TaskManagement.ConfirmTwiceIsRepeated | agent-app/app/service.py:545-606 | confirming the same material again changes nothing, whatever the note |
| TaskManagement.LinkTwiceIsRepeated | agent-app/app/service.py:851-911 | a change once linked is recognised by its identifier, whatever key comes with it |
| TaskManagement.SelectionRecordedExactly | agent-app/app/service.py:512-543 | after a resume that passes its guards and is saved, the stored trail is the latest one with the dispatch's own events, so a snapshot selection is in it exactly when the latest stored trail had it |
| TaskManagement.ClarifyStoresSnapshotEvent | agent-app/app/service.py:357-433 | a clarification that selects a snapshot stores the event that says so |
| TaskAnswers.MergeOverrides | agent-app/app/workflow/state.py:29-35 | each given slot replaces the stored one and no other changes; of the application, the confirmed identifier and, where there is one, the confirmed name count |
| TaskAnswers.SnapshotExactly | agent-app/app/service.py:1096-1169 | a request about the schema snapshot is refused exactly when it names two sources, silently replaces the other source, or selects what is not found; otherwise it selects, clears or writes as told, and the trail says so |
| TaskAnswers.InputsExactly | agent-app/app/service.py:357-412 | inputs are refused exactly for an injection, a snapshot conflict or a selection no longer valid, and otherwise slots, snapshot and note are taken as told |
| TaskAnswers.NoteTextExactly | agent-app/app/service.py:2091-2097 | every note that is not blank adds one line to the text the version is taken of, a blank one nothing |
| TaskAnswers.NoteChangesVersion | agent-app/app/service.py:2091-2117 | a note that is not blank changes the input version |
| TaskAnswers.DispatchRegisters | agent-app/app/service.py:1526-1577 | besides the record only a dispatch that begins changes anything: its fresh execution is there and registered, and an earlier problem is cleared |
| TaskAnswers.ClarifyStores | agent-app/app/service.py:357-433 | the answer of a clarification after its await, and every field of the record it leaves: given slots, snapshot and note over the latest stored ones, the version of these inputs, draft and confirmations void exactly when that changed, back in flight, handed to the fresh execution |
| TaskAnswers.ResumeParks | agent-app/app/service.py:454-480 | between its awaits a resume is refused, or parks a copy of what it saw with the request's inputs taken |
| TaskAnswers.ResumeStores | agent-app/app/service.py:481-543 | in every reachable state: the answer of a resume, and every field of the record it leaves, with the request's slots over those it saw, the prepared snapshot and notes, and everything else from the latest record |
| TaskAnswers.ResumeOverridesExactly | agent-app/app/service.py:512-524 | told of the latest slots instead of those seen, the same holds exactly when what the request leaves alone is as it was seen |
| TaskResults.FinishedExactly | agent-app/app/service.py:1834-1923 | the record a run ends with, for each of its four ends: status, draft, the version history grown by exactly one entry of the agent unless the text is that of the last one, exactly the stale confirmations marked, the trail in time order with a notice where one is due, its bill, and nothing else changed |
| TaskResults.RunIsStored | agent-app/app/service.py:1631-1651 | whatever happens between a run's return and its terminal save, what is stored is that record, told from the one the run found |
| TaskResults.DraftIsLastVersion | agent-app/app/service.py:2208-2239 | so the last version has the text of the generated draft, and no confirmation of another text still counts |
| TaskResults.SortIsStable | agent-app/app/service.py:2120-2137 | sorting the trail leaves the events of one moment in their order |
| TaskResults.StartExactly | agent-app/app/service.py:1758-1786 | an execution works on its record exactly when it still owns it, with the books taken over from what is stored |
| TaskResults.ReserveExactly | agent-app/app/llm/provider.py:434-448 | a model request goes out exactly when the budget leaves room and its reservation is stored for the owner; the execution counts it in full either way |
| TaskResults.SettleExactly | agent-app/app/service.py:1717-1729 | a settlement changes the books of its execution, the stored usage exactly when it is saved for the owner, and nothing else |
| TaskResults.PersistExactly | agent-app/app/service.py:1631-1651 | one attempt of the terminal save: stored, given up, tried again or, with the last configured attempt, filed as a problem |
| TaskResults.DoneExactly | agent-app/app/service.py:1579-1592 | an execution that is done gives back its own handle only and leaves a problem exactly when it ended in an error |
| TaskDecisions.AuthorizedExactly | agent-app/app/service.py:1985-2007 | a request is heard exactly when it comes from the owner the record names, both names known |
| TaskDecisions.ClarifyOpens | agent-app/app/service.py:346-356 | a clarification is taken in exactly from the owner of a task in the workspace that waits, failed or is blocked |
| TaskDecisions.ResumeOpens | agent-app/app/service.py:435-453 | a resume is taken in exactly when such a task has no live execution, with the whole record it saw |
| TaskDecisions.EditOpensExactly | agent-app/app/service.py:772-801 | an edit is taken in exactly for the version stored, while material is shown, nothing runs and the text is clean |
| TaskDecisions.LinkOpensExactly | agent-app/app/service.py:851-879 | a link is refused, repeated for a change or key linked already, or parked under the trimmed identifier and its key |
| TaskDecisions.ConfirmExactly | agent-app/app/service.py:545-606 | on a sound record a confirmation of exactly the material shown is repeated when one by the same user still counts, and otherwise adds one entry and changes no other |
| TaskDecisions.EditStores | agent-app/app/service.py:802-849 | an edit is saved exactly when material is shown, nothing runs and the version is the one it was opened on; its text becomes the next version, judged by its check, with confirmations of another text marked |
| TaskDecisions.LinkStores | agent-app/app/service.py:880-911 | a link is saved exactly when the change is known, nothing runs and it has not been linked in the meantime |
| TaskDecisions.ArchiveExactly | agent-app/app/service.py:674-682 | who may archive what, and the record that leaves |
| TaskDecisions.RestoreExactly | agent-app/app/service.py:684-695 | who may restore what, and the record that leaves: out of the bin into the archive, out of the archive into the workspace |
| TaskDecisions.DeleteExactly | agent-app/app/service.py:697-731 | a task is deleted exactly by its owner, archived, stopped for good, without draft, confirmation, link or trace of them, and as previewed |
| TaskDecisions.CancelExactly | agent-app/app/service.py:1471-1505 | a saved cancellation takes the record from its execution and tells exactly that one, if it runs, to stop |
| TaskDecisions.CreateExactly | agent-app/app/service.py:273-345 | a created task is the caller's, received, with the request's inputs and nothing else yet, and is dispatched |
| TaskDecisions.RestartExactly | agent-app/app/service.py:1788-1816 | start-up fails exactly the records in flight and forgets all that was in memory |
| TaskDecisions.AbandonExactly | agent-app/app/service.py:1671-1698 | a caller that goes away stops its own execution; the record is failed, or a problem filed, exactly while that one owns it in flight |
| TaskSightings.InputsStep | agent-app/app/service.py:357-543 | an atomic step changes stored inputs only together with the owner, by a cancellation, or by a dispatch that failed after its save |
| TaskSightings.CarriedExactly | agent-app/app/service.py:512-524 | the record a resume stores has every input of the latest one exactly when what the request leaves alone is as it was seen |
| TaskSightings.ResumeCarriesExactly | agent-app/app/service.py:435-543 | in every reachable state a resume that passes its guards and is saved keeps every stored note, slot and snapshot exactly when what its request leaves alone is still as it saw it |
| TaskSightings.NotesKeptExactly | agent-app/app/service.py:512-524 | the stored notes survive such a resume exactly when there is no request, or they were all seen, or they are what it stores itself, or it brings no list of notes |
| TaskSightings.NoInputLostWithoutFailedDispatch | agent-app/app/service.py:435-543 | when no dispatch failed after its save between the moment a resume looked and the moment it finishes, the inputs are as it saw them and none is lost |
| TaskSightings.NotesNeverLost | agent-app/app/service.py:357-543 | over any run without a dispatch that failed after its save, no note once stored is ever missing |
| TaskEdits.VersionIdentifiesDraft | agent-app/app/service.py:802-812 | while the owner is the one the edit was opened under, the version number matches exactly when the draft is the very one that was opened |
| TaskEdits.EditAcceptedExactly | agent-app/app/service.py:802-849 | in every reachable state an edit is accepted exactly when it is saved, the task is active, idle and has material, and the stored draft is the one it was opened on; after a change of owner the same number is enough |
| TaskEdits.EditReplacesStoredDraft | agent-app/app/service.py:816-849 | what an accepted edit leaves is its own text under the number after the stored draft's |
| TaskEdits.MissingDraftEditedExactly | agent-app/app/service.py:810-812 | a draft that is gone is edited exactly when the owner changed and the edit was opened on version 1 |
| TaskEdits.MaterialHasDraft | agent-app/app/workflow/graph.py:705-730 | with runs that end as the workflow's do, a stored status with material always comes with a draft |
| TaskEdits.OnlyFailedCompensationEscapes | agent-app/app/workflow/graph.py:272-286 | with such runs, supervision is lost exactly by an admitted dispatch whose compensating save fails and whose record nobody watched before |
| TaskEdits.WorkflowSupervised | agent-app/app/service.py:1526-1548 | with such runs and compensating saves that succeed, every record in flight is supervised in every state of every run |
| TaskWitnesses.NoteLostToResume | agent-app/app/service.py:512-524 | a run from no task in which a clarification stores a note, its dispatch fails, and an earlier resume is then accepted and stores the notes without it |
| TaskWitnesses.InputsLostToResume | agent-app/app/service.py:512-524 | the same loss of a note and a schema that another resume had stored |
| TaskWitnesses.SnapshotSelectedSilently | agent-app/app/service.py:512-543 | a run whose accepted resume stores a newly selected snapshot while no event of its trail says so |
| TaskWitnesses.EditOverUnseenDraft | agent-app/app/service.py:802-849 | a run in which an edit opened on one draft is accepted on another that a later run had stored under the same number |
| AgentService.InvalidateStaleConfirmations | agent-app/app/service.py:2242-2254 | marks in one pass exactly the confirmations that no longer match, drops none |
| AgentService.MergeEventLists | agent-app/app/service.py:2266-2282 | walking both trails in step computes the merge at the longest common prefix |
| AgentService.AddMissing | agent-app/app/service.py:2120-2137 | adds the management events the trail lacks, in order |
| AgentService.Service.SaveAndDispatchTask | agent-app/app/service.py:1526-1577 | save, begin, register the execution; a begin that fails is compensated when the record is in flight |
| AgentService.Service.Create | agent-app/app/service.py:273-345 | creation is one atomic segment of the machine, keeps the invariant and touches no other task |
| AgentService.Service.BeginClarify | agent-app/app/service.py:346-356 | up to its await a clarification only checks and parks |
| AgentService.Service.FinishClarify | agent-app/app/service.py:357-433 | after its await it checks again on the latest record, merges and dispatches |
| AgentService.Service.BeginResume | agent-app/app/service.py:435-453 | up to its first await a resume only checks and parks what it saw |
| AgentService.Service.PrepareResume | agent-app/app/service.py:454-480 | between its awaits a resume prepares a stale copy and stores nothing |
| AgentService.Service.FinishResume | agent-app/app/service.py:481-543 | after the checkpoint it compares owner and status with what it saw, merges onto the latest record and dispatches |
| AgentService.Service.ConfirmMaterial | agent-app/app/service.py:545-606 | a confirmation is one atomic step, refused, repeated or stored exactly as the machine says |
| AgentService.Service.ArchiveTask | agent-app/app/service.py:674-682 | archiving needs an idle record and is idempotent |
| AgentService.Service.RestoreTask | agent-app/app/service.py:684-695 | the recycle bin restores into the archive, the archive into the workspace |
| AgentService.Service.DeleteTask | agent-app/app/service.py:697-731 | deletion needs an archived, stopped, empty record whose version digest is still the one previewed |
| AgentService.Service.BeginEdit | agent-app/app/service.py:772-801 | up to its scan an edit checks status, owner and version, and parks |
| AgentService.Service.FinishEdit | agent-app/app/service.py:802-849 | after the scan it checks again, raises the version of the latest draft and saves |
| AgentService.Service.BeginLink | agent-app/app/service.py:851-879 | up to its check a link is refused, repeated or parked |
| AgentService.Service.FinishLink | agent-app/app/service.py:880-911 | after the check it looks for a duplicate again and saves |
| AgentService.Service.CancelTask | agent-app/app/service.py:1471-1505 | the cancellation is stored first; only then is the superseded execution told to stop |
| AgentService.Service.AbandonExecution | agent-app/app/service.py:1671-1698 | an execution whose caller went away is stopped and its record failed, or a problem recorded |
| AgentService.Service.StartExecution | agent-app/app/service.py:1758-1786 | an execution works only on a record it still owns, on a ledger seeded from what is stored |
| AgentService.Service.Reserve | agent-app/app/llm/provider.py:434-448 | the guard and the durable reservation on the task's own ledger stand before each model request, also after a cancellation was asked for |
| AgentService.Service.Settle | agent-app/app/service.py:1717-1729 | a settlement is written through only by the owner, and only its usage field |
| AgentService.Service.FinishRun | agent-app/app/service.py:1834-1923 | a timeout, an error, an interrupt or a result becomes the record to store |
| AgentService.Service.ReturnFromRun | agent-app/app/service.py:1818-1923 | what the run returned, billed with its ledger, waits for the terminal save |
| AgentService.Service.TryPersist | agent-app/app/service.py:1631-1651 | one attempt of the bounded retry: give up when no longer owner, else save, else retry or record a problem |
| AgentService.Service.OnExecutionDone | agent-app/app/service.py:1579-1592 | the handle is released if it is still this execution's, and a failure is recorded |
| AgentService.Service.RestartProcess | agent-app/app/service.py:1788-1816 | a new process keeps only the store and closes every record left in flight, for all tasks |
| ServiceRuns.Execute | agent-app/app/service.py:273-1923 | any one segment on any task does to that task what the machine says and to no other task anything |
| ServiceRuns.PerformAll | agent-app/app/service.py:1526-1816 | a whole series of segments on any tasks, with restarts between them, takes each task through the run of its own segments |
| ServiceRuns.Serve | agent-app/app/service.py:1526-1816 | from an empty store, whatever is called, every stored record is sound and every task is where its own run leaves it |
| SqlLexer.SplitStatements | internal/checker/checker.go:322-387 | the index loop over four flags computes the pieces cut by the lexer, trimmed, with blank ones dropped |
| SqlLexer.CutsExactlyAtCodeSemicolons | internal/checker/checker.go:322-387 | joining the pieces with semicolons gives the input back, no piece has a semicolon in code, and there is one cut for each of them |
| SqlLexer.EveryStatementIsStable | internal/checker/checker.go:322-387 | every statement is trimmed, not empty and splits into itself alone, also when trimming pulls its semicolon into a line comment |
| SqlLexer.ContainsPsqlMetaCommand | internal/experiment/runner.go:328-376 | true exactly when some backslash is in code for the splitting lexer |
| SqlLexer.MetaSurvivesSplitting | internal/experiment/runner.go:305-376 | a script holds a meta-command exactly when one of its statements does |
| SqlLexer.StripLeadingComments | internal/experiment/runner.go:378-398 | terminates with the trimmed rest of the text from the first byte that is neither comment nor white space |
| SqlLexer.ExecutableStatements | internal/experiment/runner.go:293-303 | keeps, in order, exactly the statements with something besides comments, white space and the closing semicolon |
| SqlLexer.ExecutableIffPieceHoldsCode | internal/experiment/runner.go:293-303 | judging the trimmed statement alone agrees with judging its piece of the input |
| SqlLexer.ValidateExperimentSql | internal/experiment/runner.go:305-326 | both scripts are accepted exactly when they hold no meta-command and no statement that, normalised, equals a transaction-control command or continues one with a space |
| SqlLexer.AcceptedStatementByStatement | internal/experiment/runner.go:305-326 | a script is accepted exactly when each of its statements alone would be |
| SqlLexer.SlipsThroughExactly | internal/experiment/runner.go:313-322 | a statement that begins with a command as a word is let through exactly when every command it begins with is followed by something other than a space |
| SqlLexer.TabSlipsThrough | internal/experiment/runner.go:313-322 | BEGIN with a tab behind it is accepted whatever words follow; with a space it is refused |
| SqlLexer.NewlineSlipsThrough | internal/experiment/runner.go:313-322 | a chained commit on a second line is accepted |
| SqlGrammar.LiteralIsQuoted | internal/checker/checker.go:322-387 | a literal is quoted from its first quote to its last whatever it holds, and behind it code goes on |
| SqlGrammar.DoubledQuoteStays | internal/checker/checker.go:362-370 | two quotes inside a literal do not end it |
| SqlGrammar.IdentifierIsQuoted | internal/checker/checker.go:322-387 | so is a quoted identifier |
| SqlGrammar.UnclosedIsQuoted | internal/checker/checker.go:322-387 | what is never closed is quoted to the end of the text |
| SqlGrammar.LineIsComment | internal/checker/checker.go:332-353 | two dashes comment out the rest of their line and no more |
| SqlGrammar.BlockIsComment | internal/checker/checker.go:339-360 | a block comment ends at the first star with a slash behind it and does not nest |
| SqlGrammar.TextIsCode | internal/checker/checker.go:322-387 | text in which no quote and no comment opens is code, every byte of it |
| SqlGrammar.StatementsExactly | internal/checker/checker.go:373-387 | the statements are the pieces that are not blank, in order, trimmed, and closed unless they end the text |
| SqlGrammar.FilterExactly | internal/experiment/runner.go:293-303 | the statements that run are all that say something, in order, and no other |
| SqlGrammar.WordsRefusedExactly | internal/experiment/runner.go:313-322 | a statement of words, in capitals or not, is refused exactly when it is one of the ten commands or continues one behind a space |
| AuditChain.NormalizeIdempotent | internal/audit/audit.go:42-85 | normalising twice is normalising once, defaults included |
| AuditChain.CanonicalIgnoresHash | internal/audit/audit.go:15-18 | the canonical payload does not depend on the stored hash, and is that of the normal form |
| AuditChain.Verify | internal/audit/audit.go:135-174 | accepts an interleaved log exactly when every organisation's own subsequence is a valid chain |
| AuditChain.LinkExtendsExactly | internal/audit/audit.go:110-133 | linking after the last event of its chain keeps a valid log valid, except exactly when that event's stored hash is white space only |
| AuditChain.LegacyLogIsValid | internal/audit/audit.go:142-147 | events stored before hashing began form a valid log |
| AuditChain.AuditStore.Append | internal/store/store.go:861-907 | each event gets an identifier and a time, takes what it does not say from its change, and is linked to the latest one stored under the same identifier |
| AuditChain.AppendKeepsExactly | internal/store/store.go:882-904 | on a tidy valid log an append keeps validity exactly when the identifier is trimmed or opens a new chain |
| AuditChain.AppendsStayValid | internal/store/store.go:882-904 | any number of appends, to any chains, leave a valid log that extends the old one |
| AuditChain.StoreStaysValid | internal/store/store.go:861-907 | so does any series of the store's own appends, with everything it fills in first |
| AuditChain.BlankHashBreaksLink | internal/audit/audit.go:110-133 | a valid log of one event whose stored hash is a space no longer verifies once an event is linked after it |
| AuditChain.SpacedOrganizationBreaksAppend | internal/store/store.go:884-904 | a valid, tidy log of one organisation no longer verifies after an append under its name with spaces around it |
| AuditChain.LastHashFixesChain | internal/audit/audit.go:101-174 | with an injective digest the last hash of a fully hashed chain fixes its length and every canonical payload |
| AuditFields.CanonicalExactly | internal/audit/audit.go:42-99 | two events have the same digested payload exactly when they agree field by field: texts up to white space, codes also up to letter case, versions, time and link, and the four defaults |
| AuditFields.ValidExactly | internal/audit/audit.go:135-174 | a log verifies exactly when each of its events holds in its place, told without chains: unhashed only before its organisation's first hash, else digested and naming its nearest predecessor |
| AuditFields.TamperingNoticedExactly | internal/audit/audit.go:161-167 | with an injective digest, a valid log in which an event stored with a hash is altered, its hash aside, still verifies exactly when the event says the same |
| AuditFields.AlterationNoticed | internal/audit/audit.go:148-167 | once an event has a hashed successor, an alteration of what it says is noticed whatever hash comes with it |
| AuditFields.LinkKeeps | internal/audit/audit.go:110-133 | linking keeps every field up to tidying, names the predecessor's hash or digest, and digests exactly what it keeps |
| AuditFields.AppendStores | internal/store/store.go:861-907 | every event the store appends stands behind all that was stored, in order, with what it says kept, what it leaves out filled in from the first change it names, and linked to the latest one under its identifier |
| AuditProof.BuildAuditEvidence | internal/evidence/bundle.go:306-328 | evidence is built exactly for a valid log of one organisation, one node an event, summaries for the targets |
| AuditProof.VerifyAuditProof | internal/evidence/bundle.go:330-370 | one pass with a map, a set, an anchor and a flag decides: distinct summaries, chained nodes, targets summarised exactly, nothing else mentioned, every summary embedded |
| AuditProof.AcceptedSummariesAreTheTargets | internal/evidence/bundle.go:330-370 | accepted summaries are the target nodes, all and only, each once |
| AuditProof.AcceptedProofIsAChain | internal/evidence/bundle.go:343-356 | in an accepted proof each hashed node names the digest of the node before it, and hashing never stops |
| AuditProof.EvidenceAcceptedExactly | internal/evidence/bundle.go:306-370 | what is built for an accepted chain is accepted exactly when ids are present, hashes and links are stored in normal form, legacy events name no predecessor, and no target shares its id |
| AuditProof.SummariesExactly | internal/evidence/bundle.go:306-328 | the summaries are those of the events that name the change, all of them, in order, each with its identifier, link and digest |
| AuditProof.PlacesAre | internal/evidence/bundle.go:306-328 | an event names a change by its identifier or as the change it is the resource of, and every such place is listed once, in order |
| AuditProof.ProofExactly | internal/evidence/bundle.go:306-328 | of every event the proof shows identifier, link, digest and whether it names the change, and nothing else |
| TokenLimiter.Limiter.Collect | internal/agentgateway/metrics.go:253-260 | removes exactly the buckets idle for over 15 minutes, at most once in 5 minutes |
| TokenLimiter.Limiter.Allow | internal/agentgateway/metrics.go:250-280 | one call sweeps, fills by elapsed time up to the burst, and spends one token or refuses |
| TokenLimiter.SameAnswers | internal/agentgateway/metrics.go:250-280 | with nondecreasing times and burst at most 15 times the rate per minute, the collecting limiter answers as one that never collects |
| TokenLimiter.CollectionShows | internal/agentgateway/metrics.go:250-280 | with a larger burst a concrete series of calls gets different answers |
| TokenLimiter.CollectionInvisibleExactly | internal/agentgateway/metrics.go:227-280 | collection is invisible to callers if and only if burst is at most 15 times the rate per minute |
| TokenLimiter.TokensConserved | internal/agentgateway/metrics.go:262-279 | tokens come only from the initial level and the flow of time |
| TokenLimiter.AdmissionBound | internal/agentgateway/metrics.go:250-280 | in any stretch of calls within [a, b] one key is admitted at most burst + rate * (b - a) times |
| TokenLimiter.TwoBursts | internal/agentgateway/metrics.go:250-280 | with a larger burst, two whole bursts are admitted in a span in which less than one flows in |
| TokenLimiter.AdmissionsBoundedExactly | internal/agentgateway/metrics.go:227-280 | the bound holds for every stretch of every run if and only if burst is at most 15 times the rate per minute |
| TokenLimiter.AdmittedExactly | internal/agentgateway/metrics.go:250-280 | a call is admitted exactly when, with it, every stretch since an earlier call of its key stays within burst + rate * time |
| TokenLimiter.EarnedExactly | internal/agentgateway/metrics.go:227-280 | that rule decides every answer of every run if and only if burst is at most 15 times the rate per minute |
| TokenLimiter.FirstIsAdmitted | internal/agentgateway/metrics.go:250-280 | as long as none of a key's calls was admitted, the next one is |
| TokenLimiter.EarnedTokenIsGiven | internal/agentgateway/metrics.go:265-279 | a call 60 / rate seconds after its key's last admission is admitted, whatever was refused in between |
| TokenLimiter.RefusalCostsNothing | internal/agentgateway/metrics.go:265-279 | without a refused call every other call gets the same answer |
| TokenLimiter.SweepExactly | internal/agentgateway/metrics.go:253-260 | once in five minutes exactly the buckets unused for over 15 minutes go |
| MetricWindow.AddObserved | internal/agentgateway/metrics.go:127-165 | recording one more sample gives what counting all samples from scratch gives: counters, sums, per-operation tallies and the last 512 values of both buffers |
| MetricWindow.TalliesWithout | internal/agentgateway/metrics_persistence.go:222-234 | adding up the operations' tallies does not depend on the order of the map |
| MetricWindow.AddKeepsOperations | internal/agentgateway/metrics.go:127-165 | the operations' tallies keep adding up to the global counters |
| MetricWindow.Percentile95 | internal/agentgateway/metrics.go:190-213 | the nearest rank is the least value with at least 95 percent of the samples at or below it |
| GatewayMetrics.DecodeAndVerify | internal/agentgateway/metrics_persistence.go:201-260 | accepts exactly the states that pass every check, whatever the order of the operations |
| GatewayMetrics.Metrics.RecordCall | internal/agentgateway/metrics.go:113-171 | check the file, rotate an expired window, count, persist; each failing write leaves the state the machine says |
| GatewayMetrics.Metrics.Snapshot | internal/agentgateway/metrics.go:173-225 | checks or rotates first, then shows the counters, the tallies, the mean rounded down and the nearest-rank percentiles of both buffers, 0 where there is nothing |
| GatewayMetrics.Metrics.PersistLocked | internal/agentgateway/metrics_persistence.go:147-178 | a saved state clears the dirty mark; a failed write leaves it and withdraws the verified mark |
| GatewayMetrics.Open | internal/agentgateway/metrics_persistence.go:39-83 | initialises a missing file, refuses one that is too large or unacceptable, reloads or rotates the rest |
| MetricsLaws.EncodedAcceptableExactly | internal/agentgateway/metrics_persistence.go:147-260 | what is persisted decodes exactly when the clock is not before the window start, the window length is allowed and no operation is nameless |
| MetricsLaws.EncodeThenLoad | internal/agentgateway/metrics_persistence.go:147-291 | loading what was persisted gives the window back |
| MetricsLaws.RecordSettles | internal/agentgateway/metrics.go:113-171 | under any write failures the file still decodes; a call succeeds exactly when the counters were clean and its writes were saved, and then its sample is in the file |
| MetricsLaws.UnpersistedIsStuck | internal/agentgateway/metrics_persistence.go:180-199 | counters that could not be written are never built upon |
| MetricsLaws.ForeignFileRefused | internal/agentgateway/metrics_persistence.go:180-199 | a file with another signature than the last one written stops the counting |
| MetricsLaws.OwnFileExactly | internal/agentgateway/metrics_persistence.go:180-260 | with an injective signature a running meter goes on counting on exactly the file it has written itself |
| MetricsLaws.AlteredFileNotOpened | internal/agentgateway/metrics_persistence.go:201-260 | nor does a start take a file for its own that was altered anywhere but in its signature |
| MetricsLaws.AcceptableExactly | internal/agentgateway/metrics_persistence.go:201-260 | what the decoder holds a file to, check by check and column by column |
| MetricsLaws.PersistExactly | internal/agentgateway/metrics_persistence.go:147-178 | what each of the three ends of a write leaves in the file and in the meter |
| MetricsLaws.ReadingRotatesExactly | internal/agentgateway/metrics.go:173-188 | reading changes nothing, but that counters in order whose window is over start anew |
| MetricsLaws.SpanLaws | internal/agentgateway/metrics_persistence.go:121-131 | the current window holds the end of the run, all within its length, and everything earlier came no later than its start |
| MetricsLaws.FreshRun | internal/agentgateway/metrics.go:113-171 | after a first start and any calls and starts in any order, each start on a file within the limit, the file is clean and the window is exactly the calls of the current span, counted from scratch |
| MetricsLaws.ReopenExactly | internal/agentgateway/metrics_persistence.go:39-83 | reopening before the window ends gives the same meter back exactly when the file is within the size limit, and is refused otherwise |
| MetricsLaws.ReopenRotates | internal/agentgateway/metrics_persistence.go:72-81 | reopening after the window ended starts an empty one and persists it |
| MetricsLaws.ReopenAfterFailure | internal/agentgateway/metrics_persistence.go:39-83 | after any failure the last file still opens clean |
| MetricsFiles.OrdinaryFileFits | internal/agentgateway/metrics_persistence.go:147-178 | with the gateway's two operations and numbers that fit the code's integers, the file is at most 22,000 bytes long |
| MetricsFiles.ReopenIsIdentity | internal/agentgateway/metrics_persistence.go:39-83 | for such a meter reopening before the window ends is the identity, without any condition on the file |
| MetricsFiles.GatewayRunsFaithfully | internal/agentgateway/metrics.go:113-171 | over any calls of the gateway and any starts, every start succeeds, the file is clean and short, the window is the calls of the current span counted from scratch, and reopening changes nothing while it lasts |
| MetricsFiles.LongNameShutsTheMeter | internal/agentgateway/metrics_persistence.go:65-67 | one call counted under a name of a megabyte is written cleanly to a file that the next start refuses; the gateway itself passes only two names |
| GatewayAudit.VerifyExisting | internal/agentgateway/audit.go:110-150 | one pass accepts exactly the files whose lines fit the reader's buffer, decode, and form a signed chain numbered from 1 |
| GatewayAudit.AuditLog.Append | internal/agentgateway/audit.go:152-189 | numbers, links, signs, encodes and writes one line; any failure, of signing or encoding as well, withdraws the verified mark for good |
| GatewayAudit.AuditLog.Recent | internal/agentgateway/audit.go:223-304 | shows the newest visible events of what was read of the tail, with the total, or fails, on the file system as well, and withdraws the verified mark |
| GatewayAudit.OpenAuditLog | internal/agentgateway/audit.go:82-108 | opens exactly the valid files, at the sequence and hash of their last record |
| GatewayAudit.RenderedValidExactly | internal/agentgateway/audit.go:110-189 | a file of appended records is valid exactly when they are chained and every line fits the reader's buffer |
| GatewayAudit.AppendsReopenExactly | internal/agentgateway/audit.go:110-189 | after any appends that succeed the file reopens with the same records, exactly when no line outgrew the buffer |
| GatewayAudit.SomeRecordShutsTheLog | internal/agentgateway/audit.go:110-189 | whatever the codec and the log, there is a record that is written without complaint and after which the file does not open |
| GatewayAudit.RecentOnRendered | internal/agentgateway/audit.go:240-290 | on a file only appends have written, reading the tail never fails and sees exactly the records that begin after the window's first byte |
| GatewayAudit.WholeLineDroppedExactly | internal/agentgateway/audit.go:240-266 | some record that lies wholly inside the window is not read exactly when the window starts past the first byte and exactly where a record begins |
| GatewayAudit.NewestIsLastShown | internal/agentgateway/audit.go:291-303 | the page is the end of the visible events, newest first |
| GatewayAudit.TornWriteNoticedExactly | internal/agentgateway/audit.go:110-189 | a torn line is refused at the next start unless nothing, or all but its newline, was written |
| GatewayAudit.FailedAppendHealsExactly | internal/agentgateway/audit.go:152-189 | after an append that failed, later ones that succeed leave a file that opens exactly when the failed one left nothing behind: a torn part spoils the next line, an unsynced one uses the number twice |
| GatewayAuditLaws.ChainedExactly | internal/agentgateway/audit.go:122-141 | a file is chained exactly when each record has its number, names the hash before it and carries the signature of all the rest of itself |
| GatewayAuditLaws.LastHashFixesFile | internal/agentgateway/audit.go:122-141 | with an injective signature the last hash fixes the whole file |
| GatewayAuditLaws.TamperingNoticed | internal/agentgateway/audit.go:110-150 | a record altered in place is noticed at the next start unless it is the last one and signed anew |
| GatewayAuditLaws.RemovalNoticed | internal/agentgateway/audit.go:110-150 | a record missing anywhere but at the end is noticed too |
| GatewayAuditLaws.SplitExactly | internal/agentgateway/audit.go:268-273 | splitting into lines takes out the newlines and nothing else |
| GatewayAuditLaws.DecodedExactly | internal/agentgateway/audit.go:119-129 | a file decodes exactly when each line is blank or a record, and to the records of the lines that are not |
| GatewayAuditLaws.ParsedExactly | internal/agentgateway/audit.go:273-290 | the tail is accepted exactly when every line is a signed record and each but the first continues the one before |
| GatewayAuditLaws.StampedExactly | internal/agentgateway/audit.go:152-177 | an appended record keeps what it was called with; number, link, signature and a missing time are added |
| GatewayAuditLaws.PageExactly | internal/agentgateway/audit.go:291-303 | a page is the newest records to be shown, newest first, with the published fields of each |
| GatewayAuditLaws.SecretsStayInside | internal/agentgateway/audit.go:44-61 | digests, links and signatures never show in a page |
| GatewayAuditLaws.LimitExactly | internal/agentgateway/audit.go:230-253 | a page holds 20 events by default and never more than 100, read from the last 4 MiB |
| UsageQuota.UsageLimiter.Expire | agent-app/app/usage.py:60-63 | after old times are dropped the window's length is the number of calls in the last 60 seconds of the full history |
| UsageQuota.UsageLimiter.Check | agent-app/app/usage.py:54-78 | refuses by the same layer as the rule on the full history, and books nothing when it refuses |
| UsageQuota.MinuteBound | agent-app/app/usage.py:54-78 | any 60 seconds hold at most the permitted calls of one user |
| UsageQuota.DayBounds | agent-app/app/usage.py:54-78 | no daily counter passes its limit |
| UsageQuota.UsersAddUp | agent-app/app/usage.py:76-78 | one day's calls of all users add up to that day's global count |
| QuotaAnswers.RefusesExactly | agent-app/app/usage.py:54-78 | the gate refuses by the first of its three limits that the user's last minute, the user's day or everybody's day has used up, counted call by call, and admits every other call |
| RuntimeQuota.SharedCounters.RunScript | internal/agent/runtime.go:1046 | the script permits exactly when all three counts of the store's history allow it, and moves all three or none |
| RuntimeQuota.Reservations.Reserve | internal/agent/runtime.go:1048-1104 | in memory or through the shared store, permits exactly when all three counts of the full history allow it and the answer arrives; a lost answer is counted but refused, and without a required store nothing is permitted |
| RuntimeQuota.LimitsHold | internal/agent/runtime.go:1093-1095 | no user, organisation or global count passes its limit |
| RuntimeQuota.CountersMoveTogether | internal/agent/runtime.go:1096-1103 | on any day the users' counts and the organisations' counts each add up to the global count |
| QuotaAnswers.PermitsExactly | internal/agent/runtime.go:1048-1104 | a call is permitted exactly while the user's, the organisation's and everybody's calls of the day are below their limits, with the defaults written out |
| QuotaAnswers.NamedExactly | internal/agent/runtime.go:1048-1058 | callers who do not say who they are are counted as one |
| RuntimeQuota.Breaker.AllowModelCall | internal/agent/runtime.go:1112-1127 | refuses exactly while the streak of failures has reached the threshold and the pause after the last one is not over |
| RuntimeQuota.Breaker.RecordModelFailure | internal/agent/runtime.go:1129-1143 | one more failure of the streak; from the threshold on, each one restarts the pause |
| RuntimeQuota.Breaker.RecordModelSuccess | internal/agent/runtime.go:1145-1150 | a success ends the streak and closes the circuit |
| RuntimeQuota.StreakIsLastFailures | internal/agent/runtime.go:1112-1150 | the failures that open the circuit are the last ones recorded |
| QuotaAnswers.BreakerRefusesExactly | internal/agent/runtime.go:1112-1150 | a model call is refused exactly while the failures since the last success, or since the last call let through after a pause, reach the threshold and the pause after the last of them is not over |

## Left out

- HTTP handlers, proxies, identity providers, the other Redis scripts, PostgreSQL, configuration, reports and the web UI: library plumbing.
- The governance service, the passport and outbox state machines and the rest of the main store: only the audit append is modelled.
- The drafting workflow and the model provider: a run is an oracle.
- Knowledge and evaluation jobs, trace projection, pagination, deletion previews shown to users: easier members.
- Messages of errors, and which of several refusals with the same outcome is reported.
- The in-memory mode of the gateway metrics, their Close method, the service-level summary and the 64-bit wrap-around of counters.
- The manifest and section checks of the evidence bundle: they do not imply that all six sections are present.
- AgentService.Service.Reserve: only the task's own ledger is part of the service; the ledgers an investigation round opens inside it have no limits and no callback (agent-app/app/workflow/investigate.py:504), so they neither refuse (`RoundsDoNotDecide`) nor write (`ReserveAll`). Guard, reservation and write are one step, as there is no suspension between them.
- UsageLedger.Ledger.AddCall: token counts are any integers, as in the code, so no sign is promised for them.
