/**
 The per-task call ledger (agent-app/app/budget.py): every model request is
 reserved before it is sent, settled when the response arrives, charged
 conservatively while its usage is unknown, and carried across restarts.
 */
module UsageLedger {
  import opened Numbers
  import opened Sequences
  import opened Wrappers

  const MAX_CALL_RECORDS := 60
  const PENDING := "pending"
  const PHASE_OTHER := "other"

  /** What a provider reported for one response; either count may be absent. */
  datatype Usage = Usage(prompt: Option<int>, completion: Option<int>) {
    function Total(): int {
      prompt.GetOr(0) + completion.GetOr(0)
    }
  }

  datatype CallRecord = CallRecord(
    sequence: int, phase: string, outcome: string, requests: int, durationMs: int,
    usageKnown: bool, promptTokens: Option<int>, completionTokens: Option<int>,
    model: string, failureType: Option<string>, executionId: string)

  datatype Call = Call(
    phase: string, outcome: string, requests: int, durationMs: int,
    usage: Option<Usage>, model: string, failureType: Option<string>)

  /** Budget limits; zero disables a limit. */
  datatype Budget = Budget(
    maxTotalTokens: int, maxPromptTokens: int, maxCost: real,
    promptPrice: real, completionPrice: real, maxRequests: int, unknownCharge: int)
  {
    function Charge(): (c: int) ensures c >= 0 {
      Max(0, unknownCharge)
    }
  }

  datatype Identity = Identity(taskId: string, executionId: string, model: string)

  /** The ledger's accumulated quantities: the abstract value of a UsageLedger object. */
  datatype Account = Account(
    requests: int, reported: int, promptTokens: int, completionTokens: int,
    chargedUnknown: int, calls: seq<CallRecord>)
  {
    function Missing(): int { requests - reported }

    function Counted(): int { promptTokens + completionTokens + chargedUnknown }
  }

  const FRESH := Account(0, 0, 0, 0, 0, [])

  /** The persisted form: quantities nobody reported are unknown, never zero. */
  datatype Payload = Payload(
    taskId: string, executionId: string, requests: int, reported: int, missing: int,
    promptTokens: Option<int>, completionTokens: Option<int>, chargedUnknown: int,
    known: bool, costEstimate: Option<real>, calls: seq<CallRecord>)

  datatype Excess =
    | RequestsExhausted
    | TokensExhausted
    | PromptTokensExhausted
    | NoPricing
    | CostUnknown
    | CostExhausted

  datatype LedgerError = NotPersisted | NothingPending

  // ----- Specification of the individual operations ----------------------------

  function NewRecord(a: Account, id: Identity, call: Call): CallRecord {
    var known := call.usage.Some?;
    CallRecord(
      a.requests + 1,
      if call.phase == "" then PHASE_OTHER else call.phase,
      call.outcome, Max(0, call.requests), Max(0, call.durationMs), known,
      if known then call.usage.value.prompt else None,
      if known then call.usage.value.completion else None,
      if call.model == "" then id.model else call.model, call.failureType, id.executionId)
  }

  function Add(a: Account, b: Budget, id: Identity, call: Call): Account {
    var calls := LastN(a.calls + [NewRecord(a, id, call)], MAX_CALL_RECORDS);
    match call.usage
    case Some(u) =>
      Account(a.requests + 1, a.reported + 1, a.promptTokens + u.prompt.GetOr(0),
              a.completionTokens + u.completion.GetOr(0), a.chargedUnknown, calls)
    case None =>
      Account(a.requests + 1, a.reported, a.promptTokens, a.completionTokens,
              a.chargedUnknown + b.Charge(), calls)
  }

  function PendingCall(phase: string, model: string): Call {
    Call(phase, PENDING, 1, 0, None, model, None)
  }

  function ReserveCall(a: Account, b: Budget, id: Identity, phase: string, model: string): Account {
    Add(a, b, id, PendingCall(phase, model))
  }

  predicate PendingAt(calls: seq<CallRecord>, i: int, sequence: int) {
    0 <= i < |calls| && calls[i].sequence == sequence && calls[i].outcome == PENDING
  }

  /** Index of the first record still pending under this sequence number, or the length. */
  function FirstPending(calls: seq<CallRecord>, sequence: int, from: nat): (i: nat)
    requires from <= |calls|
    ensures from <= i <= |calls|
    ensures i < |calls| ==> PendingAt(calls, i, sequence)
    ensures forall j :: from <= j < i ==> !PendingAt(calls, j, sequence)
    decreases |calls| - from
  {
    if from == |calls| || PendingAt(calls, from, sequence) then from
    else FirstPending(calls, sequence, from + 1)
  }

  datatype Settlement = Settlement(
    sequence: int, outcome: string, durationMs: int, usage: Option<Usage>, failureType: Option<string>)

  function Settled(r: CallRecord, s: Settlement): CallRecord {
    var known := s.usage.Some?;
    r.(outcome := s.outcome, durationMs := s.durationMs, usageKnown := known,
       promptTokens := if known then Some(s.usage.value.prompt.GetOr(0)) else None,
       completionTokens := if known then Some(s.usage.value.completion.GetOr(0)) else None,
       failureType := s.failureType)
  }

  function SettleCall(a: Account, b: Budget, s: Settlement): Option<Account> {
    var i := FirstPending(a.calls, s.sequence, 0);
    if i == |a.calls| then None
    else
      var calls := a.calls[i := Settled(a.calls[i], s)];
      match s.usage
      case Some(u) =>
        Some(Account(a.requests, a.reported + 1, a.promptTokens + u.prompt.GetOr(0),
                     a.completionTokens + u.completion.GetOr(0),
                     a.chargedUnknown - b.Charge(), calls))
      case None => Some(a.(calls := calls))
  }

  function CostEstimate(a: Account, b: Budget): Option<real> {
    if b.promptPrice <= 0.0 && b.completionPrice <= 0.0 then None
    else Some(a.promptTokens as real / 1000.0 * b.promptPrice
              + a.completionTokens as real / 1000.0 * b.completionPrice)
  }

  function ExceededBy(a: Account, b: Budget): Option<Excess> {
    if b.maxRequests > 0 && a.requests >= b.maxRequests then Some(RequestsExhausted)
    else if b.maxTotalTokens > 0 && a.Counted() > b.maxTotalTokens then Some(TokensExhausted)
    else if b.maxPromptTokens > 0 && a.promptTokens > b.maxPromptTokens then Some(PromptTokensExhausted)
    else if b.maxCost > 0.0 then
      match CostEstimate(a, b)
      case None => Some(NoPricing)
      case Some(cost) =>
        if a.Missing() != 0 then Some(CostUnknown)
        else if cost > b.maxCost then Some(CostExhausted)
        else None
    else None
  }

  function AsDict(a: Account, b: Budget, id: Identity): Payload {
    var cost := CostEstimate(a, b);
    var known := a.requests > 0 && a.Missing() == 0;
    Payload(id.taskId, id.executionId, a.requests, a.reported, a.Missing(),
            if a.reported != 0 then Some(a.promptTokens) else None,
            if a.reported != 0 then Some(a.completionTokens) else None,
            a.chargedUnknown, known, if known then cost else None, a.calls)
  }

  function Seed(a: Account, prior: Option<Payload>): Account {
    match prior
    case None => a
    case Some(p) =>
      Account(a.requests + p.requests, a.reported + p.reported,
              a.promptTokens + p.promptTokens.GetOr(0),
              a.completionTokens + p.completionTokens.GetOr(0),
              a.chargedUnknown + p.chargedUnknown,
              LastN(a.calls + LastN(p.calls, MAX_CALL_RECORDS), MAX_CALL_RECORDS))
  }

  // ----- The object itself -----------------------------------------------------

  /**
   The mutable ledger. `saved` stands for the outcome of the persistence callback:
   a callback that fails raises after the ledger has already been updated.
   */
  class Ledger {
    const budget: Budget
    const id: Identity
    var requests: int
    var reported: int
    var promptTokens: int
    var completionTokens: int
    var chargedUnknown: int
    var calls: seq<CallRecord>

    function Value(): Account reads this {
      Account(requests, reported, promptTokens, completionTokens, chargedUnknown, calls)
    }

    constructor (budget: Budget, id: Identity)
      ensures Value() == FRESH && this.budget == budget && this.id == id
    {
      this.budget, this.id := budget, id;
      requests, reported, promptTokens, completionTokens, chargedUnknown, calls := 0, 0, 0, 0, 0, [];
    }

    method AddCall(call: Call, saved: bool) returns (r: Result<CallRecord, LedgerError>)
      modifies this
      ensures Value() == Add(old(Value()), budget, id, call)
      ensures r == if saved then Ok(NewRecord(old(Value()), id, call)) else Err(NotPersisted)
    {
      ghost var before := Value();
      requests := requests + 1;
      var known := call.usage.Some?;
      var prompt: Option<int>, completion: Option<int> := None, None;
      if known {
        prompt, completion := call.usage.value.prompt, call.usage.value.completion;
        reported := reported + 1;
        promptTokens := promptTokens + prompt.GetOr(0);
        completionTokens := completionTokens + completion.GetOr(0);
      } else {
        chargedUnknown := chargedUnknown + Max(0, budget.unknownCharge);
      }
      var record := CallRecord(
        requests, if call.phase == "" then PHASE_OTHER else call.phase, call.outcome,
        Max(0, call.requests), Max(0, call.durationMs), known, prompt, completion,
        if call.model == "" then id.model else call.model, call.failureType, id.executionId);
      assert record == NewRecord(before, id, call);
      var grown := calls + [record];
      calls := if |grown| > MAX_CALL_RECORDS then grown[|grown| - MAX_CALL_RECORDS..] else grown;
      assert calls == LastN(before.calls + [record], MAX_CALL_RECORDS);
      r := if saved then Ok(record) else Err(NotPersisted);
    }

    method Reserve(phase: string, model: string, saved: bool) returns (r: Result<int, LedgerError>)
      modifies this
      ensures Value() == ReserveCall(old(Value()), budget, id, phase, model)
      ensures r == (if saved then Ok(requests) else Err(NotPersisted)) && requests == old(requests) + 1
    {
      var added := AddCall(PendingCall(phase, model), saved);
      r := match added case Ok(record) => Ok(record.sequence) case Err(e) => Err(e);
    }

    method Settle(s: Settlement, saved: bool) returns (r: Result<(), LedgerError>)
      modifies this
      ensures var after := SettleCall(old(Value()), budget, s);
              match after
              case None => r == Err(NothingPending) && Value() == old(Value())
              case Some(a) => Value() == a && r == if saved then Ok(()) else Err(NotPersisted)
    {
      var index := 0;
      while index < |calls|
        invariant 0 <= index <= |calls| && Value() == old(Value())
        invariant FirstPending(calls, s.sequence, 0) == FirstPending(calls, s.sequence, index)
      {
        var record := calls[index];
        if record.sequence == s.sequence && record.outcome == PENDING {
          if s.usage.Some? {
            reported := reported + 1;
            promptTokens := promptTokens + s.usage.value.prompt.GetOr(0);
            completionTokens := completionTokens + s.usage.value.completion.GetOr(0);
            chargedUnknown := chargedUnknown - Max(0, budget.unknownCharge);
          }
          calls := calls[index := Settled(record, s)];
          return if saved then Ok(()) else Err(NotPersisted);
        }
        index := index + 1;
      }
      r := Err(NothingPending);
    }

    /** Requests first, then tokens; a cost limit that cannot be judged counts as passed. */
    method Exceeded() returns (reason: Option<Excess>)
      ensures reason == ExceededBy(Value(), budget)
    {
      if budget.maxRequests > 0 && requests >= budget.maxRequests {
        return Some(RequestsExhausted);
      }
      if budget.maxTotalTokens > 0 && promptTokens + completionTokens + chargedUnknown > budget.maxTotalTokens {
        return Some(TokensExhausted);
      }
      if budget.maxPromptTokens > 0 && promptTokens > budget.maxPromptTokens {
        return Some(PromptTokensExhausted);
      }
      if budget.maxCost > 0.0 {
        var cost := CostEstimate(Value(), budget);
        if cost.None? {
          return Some(NoPricing);
        }
        if requests - reported != 0 {
          return Some(CostUnknown);
        }
        if cost.value > budget.maxCost {
          return Some(CostExhausted);
        }
      }
      reason := None;
    }

    method AppendRecords(kept: seq<CallRecord>)
      modifies this`calls
      ensures calls == old(calls) + kept
    {
      for k := 0 to |kept|
        invariant calls == old(calls) + kept[..k]
      {
        calls := calls + [kept[k]];
        assert old(calls) + kept[..k] + [kept[k]] == old(calls) + kept[..k + 1];
      }
      assert kept[..|kept|] == kept;
    }

    method SeedFromPrior(prior: Option<Payload>)
      modifies this
      ensures Value() == Seed(old(Value()), prior)
    {
      hide LastN;
      if prior.None? {
        return;
      }
      var p := prior.value;
      requests := requests + p.requests;
      reported := reported + p.reported;
      promptTokens := promptTokens + p.promptTokens.GetOr(0);
      completionTokens := completionTokens + p.completionTokens.GetOr(0);
      chargedUnknown := chargedUnknown + p.chargedUnknown;
      AppendRecords(LastN(p.calls, MAX_CALL_RECORDS));
      calls := LastN(calls, MAX_CALL_RECORDS);
    }
  }

  // ----- Properties over whole histories ---------------------------------------

  /** One thing that can happen to a task's ledger; Reload is a restart or a resume. */
  datatype Op =
    | Reserve(phase: string, model: string)
    | Record(call: Call)
    | Settle(settlement: Settlement)
    | Reload

  /** Direct records are final, and settling never leaves a record pending. */
  predicate Legal(op: Op) {
    match op
    case Record(call) => call.outcome != PENDING
    case Settle(s) => s.outcome != PENDING
    case _ => true
  }

  /** A ledger together with the sequence numbers reserved and not yet settled. */
  datatype History = History(account: Account, open: set<int>)

  function Apply(h: History, b: Budget, id: Identity, op: Op): History {
    var a := h.account;
    match op
    case Reserve(phase, model) => History(ReserveCall(a, b, id, phase, model), h.open + {a.requests + 1})
    case Record(call) => History(Add(a, b, id, call), h.open)
    case Settle(s) =>
      (match SettleCall(a, b, s)
       case None => h
       case Some(after) => History(after, h.open - {s.sequence}))
    case Reload => h.(account := Seed(FRESH, Some(AsDict(a, b, id))))
  }

  function Run(b: Budget, id: Identity, ops: seq<Op>): History {
    if ops == [] then History(FRESH, {})
    else Apply(Run(b, id, ops[..|ops| - 1]), b, id, ops[|ops| - 1])
  }

  /** So many requests at the unknown charge. */
  function Charged(charge: int, requests: int): int { charge * requests }

  lemma ChargedMore(charge: int, requests: int)
    ensures Charged(charge, 0) == 0 && Charged(charge, requests + 1) == Charged(charge, requests) + charge
  {
  }

  /** Every request without reported usage is charged once, and only reported usage is counted. */
  ghost predicate Balanced(a: Account, b: Budget) {
    && 0 <= a.reported <= a.requests
    && a.chargedUnknown == Charged(b.Charge(), a.Missing())
    && (a.reported == 0 ==> a.promptTokens == 0 && a.completionTokens == 0)
  }

  /** The retained records are the last ones, numbered consecutively up to the request count. */
  ghost predicate Numbered(a: Account) {
    && |a.calls| == (if a.requests <= MAX_CALL_RECORDS then a.requests else MAX_CALL_RECORDS)
    && (forall i :: 0 <= i < |a.calls| ==> a.calls[i].sequence == a.requests - |a.calls| + 1 + i)
  }

  ghost predicate Consistent(h: History, b: Budget) {
    var a := h.account;
    && Balanced(a, b)
    && Numbered(a)
    && (forall i :: 0 <= i < |a.calls| ==> (a.calls[i].outcome == PENDING <==> a.calls[i].sequence in h.open))
    && (forall n :: n in h.open ==> 1 <= n <= a.requests)
    && |h.open| <= a.Missing()
  }

  /** Reloading from the persisted form restores the whole account. */
  lemma SeedRestores(h: History, b: Budget, id: Identity)
    requires Consistent(h, b)
    ensures Seed(FRESH, Some(AsDict(h.account, b, id))) == h.account
  {
    var calls := h.account.calls;
    assert LastN(calls, MAX_CALL_RECORDS) == calls;
    assert [] + calls == calls;
  }

  lemma AddBalanced(a: Account, b: Budget, id: Identity, call: Call)
    requires Balanced(a, b)
    ensures Balanced(Add(a, b, id, call), b)
  {
    hide Charged, LastN, NewRecord;
    ChargedMore(b.Charge(), a.Missing());
  }

  /** Adding appends the new record and drops the oldest when there are too many. */
  lemma AddedCalls(a: Account, b: Budget, id: Identity, call: Call) returns (drop: nat)
    requires Numbered(a)
    ensures var a' := Add(a, b, id, call);
            && Numbered(a') && a'.requests == a.requests + 1 && a'.calls != []
            && drop + |a'.calls| == |a.calls| + 1
            && (forall i :: 0 <= i < |a'.calls| - 1 ==> a'.calls[i] == a.calls[i + drop])
            && a'.calls[|a'.calls| - 1] == NewRecord(a, id, call)
  {
    hide NewRecord;
    var a' := Add(a, b, id, call);
    var grown := a.calls + [NewRecord(a, id, call)];
    drop := |grown| - |a'.calls|;
    assert a'.calls == grown[drop..];
    assert NewRecord(a, id, call).sequence == a.requests + 1 by { NewNumber(a, id, call); }
  }

  lemma NewNumber(a: Account, id: Identity, call: Call)
    ensures NewRecord(a, id, call).sequence == a.requests + 1 && NewRecord(a, id, call).outcome == call.outcome
  {
  }

  lemma AddConsistent(h: History, b: Budget, id: Identity, call: Call)
    requires Consistent(h, b)
    requires call.outcome == PENDING ==> call.usage.None?
    ensures var open := if call.outcome == PENDING then h.open + {h.account.requests + 1} else h.open;
            Consistent(History(Add(h.account, b, id, call), open), b)
  {
    hide Add, NewRecord, Balanced;
    var a, a' := h.account, Add(h.account, b, id, call);
    AddBalanced(a, b, id, call);
    var drop := AddedCalls(a, b, id, call);
    NewNumber(a, id, call);
    AddedMissing(a, b, id, call);
  }

  lemma AddedMissing(a: Account, b: Budget, id: Identity, call: Call)
    ensures Add(a, b, id, call).Missing() == a.Missing() + if call.usage.Some? then 0 else 1
  {
    hide LastN, NewRecord;
  }

  /**
   Settling succeeds exactly for a reservation that is still open and whose record
   is among the last sixty.
   */
  lemma SettleSucceedsIff(h: History, b: Budget, s: Settlement)
    requires Consistent(h, b)
    ensures SettleCall(h.account, b, s).Some?
       <==> s.sequence in h.open && s.sequence > h.account.requests - MAX_CALL_RECORDS
  {
    var a := h.account;
    var i := FirstPending(a.calls, s.sequence, 0);
    var base := a.requests - |a.calls| + 1;
    if s.sequence in h.open && s.sequence > a.requests - MAX_CALL_RECORDS {
      assert PendingAt(a.calls, s.sequence - base, s.sequence);
    }
    if i < |a.calls| {
      assert a.calls[i].sequence == base + i;
    }
  }

  lemma SettleConsistent(h: History, b: Budget, s: Settlement)
    requires Consistent(h, b) && s.outcome != PENDING
    ensures SettleCall(h.account, b, s).Some? ==>
              Consistent(History(SettleCall(h.account, b, s).value, h.open - {s.sequence}), b)
  {
    hide Charged;
    var a := h.account;
    var i := FirstPending(a.calls, s.sequence, 0);
    if i < |a.calls| {
      var n := a.calls[i].sequence;
      assert n == s.sequence && n in h.open;
      var a' := SettleCall(a, b, s).value;
      assert forall j :: 0 <= j < |a.calls| && j != i ==> a'.calls[j] == a.calls[j];
      if s.usage.Some? {
        ChargedMore(b.Charge(), a.Missing() - 1);
      }
    }
  }

  lemma FreshConsistent(b: Budget)
    ensures Consistent(History(FRESH, {}), b)
  {
    hide Charged;
    ChargedMore(b.Charge(), 0);
    assert Balanced(FRESH, b);
    assert Numbered(FRESH);
  }

  lemma ApplyConsistent(h: History, b: Budget, id: Identity, op: Op)
    requires Consistent(h, b) && Legal(op)
    ensures Consistent(Apply(h, b, id, op), b)
  {
    hide Consistent, SettleCall, Seed, AsDict, Add;
    match op
    case Reserve(phase, model) => AddConsistent(h, b, id, PendingCall(phase, model));
    case Record(call) => AddConsistent(h, b, id, call);
    case Settle(s) => SettleConsistent(h, b, s);
    case Reload => SeedRestores(h, b, id);
  }

  /**
   Every history of reservations, settlements, direct records and reloads keeps the
   books balanced: unknown responses are charged exactly once each, and the retained
   records carry consecutive sequence numbers ending at the request count.
   */
  lemma {:induction false} RunConsistent(b: Budget, id: Identity, ops: seq<Op>)
    requires forall op :: op in ops ==> Legal(op)
    ensures Consistent(Run(b, id, ops), b)
  {
    if ops == [] {
      FreshConsistent(b);
    } else {
      RunConsistent(b, id, ops[..|ops| - 1]);
      ApplyConsistent(Run(b, id, ops[..|ops| - 1]), b, id, ops[|ops| - 1]);
    }
  }

  /** The number of requests counts every reservation and record ever made, reloads included. */
  lemma {:induction false} RequestsCountEveryCall(b: Budget, id: Identity, ops: seq<Op>)
    requires forall op :: op in ops ==> Legal(op)
    ensures Run(b, id, ops).account.requests == CallsMade(ops)
  {
    if ops != [] {
      var prior := ops[..|ops| - 1];
      RequestsCountEveryCall(b, id, prior);
      RunConsistent(b, id, prior);
    }
  }

  function CallsMade(ops: seq<Op>): nat {
    if ops == [] then 0
    else
      var last := ops[|ops| - 1];
      CallsMade(ops[..|ops| - 1]) + if last.Reserve? || last.Record? then 1 else 0
  }

  // ----- The budget, checked before each sequential request --------------------

  datatype Response = Response(outcome: string, durationMs: int, usage: Option<Usage>)

  function LargestResponse(responses: seq<Response>): (m: int)
    ensures forall r :: r in responses && r.usage.Some? ==> r.usage.value.Total() <= m
  {
    if responses == [] then 0
    else
      var rest := LargestResponse(responses[1..]);
      if responses[0].usage.Some? then Max(responses[0].usage.value.Total(), rest) else rest
  }

  /** One sequential request: reserve, send, settle what was reserved. */
  function OneRequest(h: History, b: Budget, id: Identity, response: Response): History {
    var reserved := Apply(h, b, id, Reserve("", ""));
    Apply(reserved, b, id,
          Settle(Settlement(reserved.account.requests, response.outcome, response.durationMs, response.usage, None)))
  }

  function PromptOf(usage: Option<Usage>): int {
    if usage.Some? then usage.value.prompt.GetOr(0) else 0
  }

  function CompletionOf(usage: Option<Usage>): int {
    if usage.Some? then usage.value.completion.GetOr(0) else 0
  }

  lemma ReserveCost(a: Account, b: Budget, id: Identity)
    ensures var a' := ReserveCall(a, b, id, "", "");
            && a'.requests == a.requests + 1 && a'.Counted() == a.Counted() + b.Charge()
            && a'.promptTokens == a.promptTokens && a'.completionTokens == a.completionTokens && a'.reported == a.reported
  {
  }

  lemma SettleCost(a: Account, b: Budget, s: Settlement)
    requires SettleCall(a, b, s).Some?
    ensures var a' := SettleCall(a, b, s).value;
            && a'.requests == a.requests
            && a'.Counted() == a.Counted() + (if s.usage.Some? then s.usage.value.Total() - b.Charge() else 0)
            && a'.promptTokens == a.promptTokens + PromptOf(s.usage)
            && a'.completionTokens == a.completionTokens + CompletionOf(s.usage)
            && a'.reported == a.reported + (if s.usage.Some? then 1 else 0)
  {
  }

  /** It costs exactly one request, and either what was reported or one unknown charge. */
  lemma OneRequestCost(h: History, b: Budget, id: Identity, response: Response)
    requires Consistent(h, b) && response.outcome != PENDING
    ensures var h' := OneRequest(h, b, id, response);
            && Consistent(h', b)
            && h'.account.requests == h.account.requests + 1
            && h'.account.Counted() == h.account.Counted()
                 + (if response.usage.Some? then response.usage.value.Total() else b.Charge())
            && h'.account.promptTokens == h.account.promptTokens + PromptOf(response.usage)
            && h'.account.completionTokens == h.account.completionTokens + CompletionOf(response.usage)
            && h'.account.reported == h.account.reported + (if response.usage.Some? then 1 else 0)
  {
    var reserved := Apply(h, b, id, Reserve("", ""));
    ApplyConsistent(h, b, id, Reserve("", ""));
    ReserveCost(h.account, b, id);
    var s := Settlement(reserved.account.requests, response.outcome, response.durationMs, response.usage, None);
    ApplyConsistent(reserved, b, id, Settle(s));
    SettleSucceedsIff(reserved, b, s);
    SettleCost(reserved.account, b, s);
  }

  /** The guard stands in front of each request; the first refusal stops the run. */
  function Guarded(h: History, b: Budget, id: Identity, responses: seq<Response>): History
    decreases |responses|
  {
    if responses == [] || ExceededBy(h.account, b).Some? then h
    else Guarded(OneRequest(h, b, id, responses[0]), b, id, responses[1..])
  }

  /**
   With the guard in front of each sequential request, a request limit is never passed
   and the counted tokens exceed the token limit by at most one response.
   */
  lemma {:induction false} BudgetBound(h: History, b: Budget, id: Identity, responses: seq<Response>, slack: int)
    requires Consistent(h, b)
    requires forall r :: r in responses ==> r.outcome != PENDING
    requires slack >= Max(b.Charge(), LargestResponse(responses))
    requires b.maxRequests > 0 ==> h.account.requests <= b.maxRequests
    requires b.maxTotalTokens > 0 ==> h.account.Counted() <= b.maxTotalTokens + slack
    ensures var a := Guarded(h, b, id, responses).account;
            && (b.maxRequests > 0 ==> a.requests <= b.maxRequests)
            && (b.maxTotalTokens > 0 ==> a.Counted() <= b.maxTotalTokens + slack)
    decreases |responses|
  {
    if responses != [] && ExceededBy(h.account, b).None? {
      OneRequestCost(h, b, id, responses[0]);
      BudgetBound(OneRequest(h, b, id, responses[0]), b, id, responses[1..], slack);
    }
  }

  // ----- Several ledgers at once -----------------------------------------------

  /** A ledger in scope, with its limits. */
  datatype Scoped = Scoped(account: Account, budget: Budget)

  /** What a round of the investigation opens inside the task's ledger. */
  const NO_LIMITS := Budget(0, 0, 0.0, 0.0, 0.0, 0, 0)

  /** The first refusal of any ledger in scope, outermost first. */
  function FirstRefusal(ledgers: seq<Scoped>): Option<Excess> {
    if ledgers == [] then None
    else
      var excess := ExceededBy(ledgers[0].account, ledgers[0].budget);
      if excess.Some? then excess else FirstRefusal(ledgers[1..])
  }

  ghost function Scope(ledgers: seq<Ledger>): (scope: seq<Scoped>)
    reads ledgers
  {
    if ledgers == [] then [] else [Scoped(ledgers[0].Value(), ledgers[0].budget)] + Scope(ledgers[1..])
  }

  method GuardBudget(ledgers: seq<Ledger>) returns (refusal: Option<Excess>)
    ensures refusal == FirstRefusal(Scope(ledgers))
  {
    hide ExceededBy;
    assert ledgers[0..] == ledgers;
    for i := 0 to |ledgers|
      invariant FirstRefusal(Scope(ledgers)) == FirstRefusal(Scope(ledgers[i..]))
    {
      var excess := ledgers[i].Exceeded();
      assert ledgers[i..][0] == ledgers[i] && ledgers[i..][1..] == ledgers[i + 1..];
      assert Scope(ledgers[i..])[1..] == Scope(ledgers[i + 1..]);
      if excess.Some? {
        return excess;
      }
    }
    refusal := None;
  }

  /** How many ledgers are reserved on before one fails to save: that one included. */
  function Reached(saved: seq<bool>): (n: nat)
    ensures n <= |saved|
  {
    if saved == [] then 0 else if !saved[0] then 1 else 1 + Reached(saved[1..])
  }

  lemma {:induction false} ReachedStops(saved: seq<bool>, i: nat)
    requires i < |saved| && forall k :: 0 <= k < i ==> saved[k]
    ensures !saved[i] ==> Reached(saved) == i + 1
    ensures (forall k :: 0 <= k < |saved| ==> saved[k]) ==> Reached(saved) == |saved|
    decreases |saved|
  {
    if i > 0 {
      ReachedStops(saved[1..], i - 1);
    } else if |saved| > 1 && saved[0] {
      ReachedStops(saved[1..], 0);
    }
  }

  /** One reservation on each ledger in scope, outermost first, up to the first that does not save. */
  method ReserveAll(ledgers: seq<Ledger>, phase: string, model: string, saved: seq<bool>) returns (numbers: Option<seq<int>>)
    requires |saved| == |ledgers| && forall i, j :: 0 <= i < j < |ledgers| ==> ledgers[i] != ledgers[j]
    modifies ledgers
    ensures numbers.Some? <==> forall i :: 0 <= i < |saved| ==> saved[i]
    ensures numbers.Some? ==> |numbers.value| == |ledgers| && forall i :: 0 <= i < |ledgers| ==> numbers.value[i] == ledgers[i].requests
    ensures forall i :: 0 <= i < Reached(saved) ==>
      ledgers[i].Value() == ReserveCall(old(ledgers[i].Value()), ledgers[i].budget, ledgers[i].id, phase, model)
    ensures forall i :: Reached(saved) <= i < |ledgers| ==> ledgers[i].Value() == old(ledgers[i].Value())
  {
    hide ReserveCall, Reached;
    var taken: seq<int> := [];
    for i := 0 to |ledgers|
      invariant |taken| == i && forall k :: 0 <= k < i ==> saved[k] && taken[k] == ledgers[k].requests
      invariant forall k :: 0 <= k < i ==>
        ledgers[k].Value() == ReserveCall(old(ledgers[k].Value()), ledgers[k].budget, ledgers[k].id, phase, model)
      invariant forall k :: i <= k < |ledgers| ==> ledgers[k].Value() == old(ledgers[k].Value())
    {
      ReachedStops(saved, i);
      var number := ledgers[i].Reserve(phase, model, saved[i]);
      if number.Err? {
        return None;
      }
      taken := taken + [number.value];
    }
    NothingReached(saved);
    numbers := Some(taken);
  }

  lemma NothingReached(saved: seq<bool>)
    requires forall k :: 0 <= k < |saved| ==> saved[k]
    ensures Reached(saved) == |saved|
  {
    if saved != [] {
      ReachedStops(saved, 0);
    }
  }

  /** Whatever the rounds have counted, the task's own ledger alone decides. */
  lemma {:induction false} RoundsDoNotDecide(task: Scoped, rounds: seq<Scoped>)
    requires forall i :: 0 <= i < |rounds| ==> rounds[i].budget == NO_LIMITS
    ensures FirstRefusal([task] + rounds) == ExceededBy(task.account, task.budget)
    ensures FirstRefusal(rounds) == None
    decreases |rounds|
  {
    hide CostEstimate;
    assert ([task] + rounds)[1..] == rounds;
    if rounds != [] {
      RoundsDoNotDecide(rounds[0], rounds[1..]);
      assert [rounds[0]] + rounds[1..] == rounds;
      assert ExceededBy(rounds[0].account, NO_LIMITS) == None;
    }
  }
}
