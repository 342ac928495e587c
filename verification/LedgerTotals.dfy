/**
 What the books of a ledger add up to: which usage was reported, on either side of the bill, and
 exactly when the guard speaks up.
 */
module LedgerTotals {
  import opened Numbers
  import opened Sequences
  import opened UsageLedger
  import opened Wrappers

  // ----- Reported usage --------------------------------------------------------

  /** The usages reported over a history, in order: by records, and by settlements of what was still open and kept. */
  function Reports(b: Budget, id: Identity, ops: seq<Op>): seq<Usage> {
    if ops == [] then []
    else
      var n := |ops| - 1;
      var before := Reports(b, id, ops[..n]);
      match ops[n]
      case Record(call) => if call.usage.Some? then before + [call.usage.value] else before
      case Settle(s) =>
        if s.usage.Some? && StillOpen(Run(b, id, ops[..n]), s.sequence) then before + [s.usage.value] else before
      case _ => before
  }

  /** Reserved, not yet settled, and among the last records kept. */
  predicate StillOpen(h: History, sequence: int) {
    sequence in h.open && sequence > h.account.requests - 60
  }

  function PromptSum(us: seq<Usage>): int {
    if us == [] then 0 else PromptSum(us[..|us| - 1]) + us[|us| - 1].prompt.GetOr(0)
  }

  function CompletionSum(us: seq<Usage>): int {
    if us == [] then 0 else CompletionSum(us[..|us| - 1]) + us[|us| - 1].completion.GetOr(0)
  }

  lemma SumsAppend(us: seq<Usage>, u: Usage)
    ensures PromptSum(us + [u]) == PromptSum(us) + u.prompt.GetOr(0)
    ensures CompletionSum(us + [u]) == CompletionSum(us) + u.completion.GetOr(0)
  {
    assert (us + [u])[..|us|] == us;
  }

  /** The books say what was reported. */
  predicate Adds(a: Account, us: seq<Usage>) {
    a.promptTokens == PromptSum(us) && a.completionTokens == CompletionSum(us) && a.reported == |us|
  }

  lemma AddedTokens(a: Account, b: Budget, id: Identity, call: Call)
    ensures var t := Add(a, b, id, call);
            && t.promptTokens == a.promptTokens + PromptOf(call.usage)
            && t.completionTokens == a.completionTokens + CompletionOf(call.usage)
            && t.reported == a.reported + if call.usage.Some? then 1 else 0
  {
    hide NewRecord, LastN;
  }

  lemma OpAdds(h: History, b: Budget, id: Identity, op: Op, us: seq<Usage>)
    requires Consistent(h, b) && Legal(op) && Adds(h.account, us)
    ensures var more := if op.Record? then op.call.usage
                        else if op.Settle? && StillOpen(h, op.settlement.sequence) then op.settlement.usage else None;
            Adds(Apply(h, b, id, op).account, if more.Some? then us + [more.value] else us)
  {
    hide PromptSum, CompletionSum, Add, SettleCall, Seed, AsDict, Consistent;
    match op
    case Reserve(phase, model) => AddedTokens(h.account, b, id, PendingCall(phase, model));
    case Record(call) =>
      AddedTokens(h.account, b, id, call);
      if call.usage.Some? {
        SumsAppend(us, call.usage.value);
      }
    case Settle(s) =>
      SettleSucceedsIff(h, b, s);
      if SettleCall(h.account, b, s).Some? {
        SettleCost(h.account, b, s);
        if s.usage.Some? {
          SumsAppend(us, s.usage.value);
        }
      }
    case Reload => SeedRestores(h, b, id);
  }

  /** After any history the prompt tokens are those reported, and so are the completion tokens, each on its own. */
  lemma {:induction false} TokensAreThoseReported(b: Budget, id: Identity, ops: seq<Op>)
    requires forall op :: op in ops ==> Legal(op)
    ensures var a, us := Run(b, id, ops).account, Reports(b, id, ops);
            a.promptTokens == PromptSum(us) && a.completionTokens == CompletionSum(us) && a.reported == |us|
    decreases |ops|
  {
    hide Apply, Consistent;
    if ops != [] {
      var n := |ops| - 1;
      TokensAreThoseReported(b, id, ops[..n]);
      RunConsistent(b, id, ops[..n]);
      OpAdds(Run(b, id, ops[..n]), b, id, ops[n], Reports(b, id, ops[..n]));
    }
  }

  /** A persisted account is added to a ledger figure by figure. */
  lemma SeedAdds(a: Account, p: Payload)
    ensures var t := Seed(a, Some(p));
            && t.requests == a.requests + p.requests && t.reported == a.reported + p.reported
            && t.promptTokens == a.promptTokens + p.promptTokens.GetOr(0)
            && t.completionTokens == a.completionTokens + p.completionTokens.GetOr(0)
            && t.chargedUnknown == a.chargedUnknown + p.chargedUnknown
    ensures Seed(a, None) == a
  {
    hide LastN;
  }

  // ----- Single records --------------------------------------------------------

  /** The newest record says what was called, under which number and for which execution. */
  lemma CallIsRecorded(a: Account, b: Budget, id: Identity, call: Call)
    ensures var calls := Add(a, b, id, call).calls;
            && calls != []
            && var r := calls[|calls| - 1];
            && r.sequence == a.requests + 1 && r.outcome == call.outcome && r.failureType == call.failureType
            && r.executionId == id.executionId
            && r.phase == (if call.phase != "" then call.phase else "other")
            && r.model == (if call.model != "" then call.model else id.model)
            && r.requests == Max(0, call.requests) && r.durationMs == Max(0, call.durationMs)
            && (match call.usage
                case None => !r.usageKnown && r.promptTokens.None? && r.completionTokens.None?
                case Some(u) => r.usageKnown && r.promptTokens == u.prompt && r.completionTokens == u.completion)
  {
    var grown := a.calls + [NewRecord(a, id, call)];
    assert grown[|grown| - 1] == NewRecord(a, id, call);
  }

  /** Settling changes one record: the first that is pending under that number. */
  lemma SettlementIsRecorded(a: Account, b: Budget, s: Settlement)
    requires SettleCall(a, b, s).Some?
    ensures exists i :: FirstOpen(a.calls, s.sequence, i) && OnlySettled(a.calls, SettleCall(a, b, s).value.calls, s, i)
  {
    hide Settled, PendingAt;
    var i := FirstPending(a.calls, s.sequence, 0);
    var calls := SettleCall(a, b, s).value.calls;
    assert calls == a.calls[i := Settled(a.calls[i], s)];
    SettledReads(a.calls[i], s);
    FirstPendingIsOpen(a.calls, s.sequence);
    assert OnlySettled(a.calls, calls, s, i);
  }

  predicate FirstOpen(calls: seq<CallRecord>, sequence: int, i: int) {
    && 0 <= i < |calls| && calls[i].sequence == sequence && calls[i].outcome == "pending"
    && forall k :: 0 <= k < i ==> calls[k].sequence != sequence || calls[k].outcome != "pending"
  }

  predicate OnlySettled(before: seq<CallRecord>, after: seq<CallRecord>, s: Settlement, i: int) {
    && |after| == |before| && 0 <= i < |before| && SettledAs(before[i], s, after[i])
    && forall k :: 0 <= k < |before| && k != i ==> after[k] == before[k]
  }

  lemma FirstPendingIsOpen(calls: seq<CallRecord>, sequence: int)
    ensures var i := FirstPending(calls, sequence, 0);
            i < |calls| ==> FirstOpen(calls, sequence, i)
  {
    var i := FirstPending(calls, sequence, 0);
    forall k | 0 <= k < i
      ensures calls[k].sequence != sequence || calls[k].outcome != "pending"
    {
      assert !PendingAt(calls, k, sequence);
    }
  }

  lemma SettledReads(r: CallRecord, s: Settlement)
    ensures SettledAs(r, s, Settled(r, s))
  {
  }

  /** How the settled record reads: an absent count of a reported usage is 0. */
  predicate SettledAs(before: CallRecord, s: Settlement, r: CallRecord) {
    && r.sequence == before.sequence && r.phase == before.phase && r.requests == before.requests
    && r.model == before.model && r.executionId == before.executionId
    && r.outcome == s.outcome && r.durationMs == s.durationMs && r.failureType == s.failureType
    && match s.usage
       case None => !r.usageKnown && r.promptTokens.None? && r.completionTokens.None?
       case Some(u) => r.usageKnown && r.promptTokens == Some(u.prompt.GetOr(0)) && r.completionTokens == Some(u.completion.GetOr(0))
  }

  // ----- What is persisted -----------------------------------------------------

  predicate Priced(b: Budget) { b.promptPrice > 0.0 || b.completionPrice > 0.0 }

  /** Prices are per thousand tokens. */
  function Cost(b: Budget, prompt: int, completion: int): real {
    prompt as real / 1000.0 * b.promptPrice + completion as real / 1000.0 * b.completionPrice
  }

  lemma CostAsPriced(a: Account, b: Budget)
    ensures CostEstimate(a, b).Some? <==> Priced(b)
    ensures Priced(b) ==> CostEstimate(a, b).value == Cost(b, a.promptTokens, a.completionTokens)
  {
  }

  /** What nobody reported is unknown, never zero: tokens without any report, the cost with any report missing. */
  lemma PayloadSaysWhatIsKnown(a: Account, b: Budget, id: Identity)
    ensures var p := AsDict(a, b, id);
            && p.taskId == id.taskId && p.executionId == id.executionId && p.calls == a.calls
            && p.requests == a.requests && p.reported == a.reported && p.missing == a.requests - a.reported
            && p.chargedUnknown == a.chargedUnknown
            && p.promptTokens == (if a.reported == 0 then None else Some(a.promptTokens))
            && p.completionTokens == (if a.reported == 0 then None else Some(a.completionTokens))
            && (p.known <==> a.requests > 0 && a.requests == a.reported)
            && p.costEstimate == (if p.known && Priced(b) then Some(Cost(b, a.promptTokens, a.completionTokens)) else None)
  {
    hide CostEstimate, Cost;
    CostAsPriced(a, b);
  }

  // ----- The guard -------------------------------------------------------------

  /** Every configured limit still leaves room, and a cost limit can be judged. */
  predicate Room(a: Account, b: Budget) {
    && (b.maxRequests <= 0 || a.requests < b.maxRequests)
    && (b.maxTotalTokens <= 0 || a.promptTokens + a.completionTokens + a.chargedUnknown <= b.maxTotalTokens)
    && (b.maxPromptTokens <= 0 || a.promptTokens <= b.maxPromptTokens)
    && (b.maxCost <= 0.0
        || (Priced(b) && a.requests == a.reported && Cost(b, a.promptTokens, a.completionTokens) <= b.maxCost))
  }

  lemma GuardPassesExactly(a: Account, b: Budget)
    ensures ExceededBy(a, b).None? <==> Room(a, b)
  {
    hide CostEstimate, Cost, Priced;
    CostAsPriced(a, b);
  }

  predicate RequestsOut(a: Account, b: Budget) { b.maxRequests > 0 && a.requests >= b.maxRequests }

  predicate TokensOut(a: Account, b: Budget) { b.maxTotalTokens > 0 && a.promptTokens + a.completionTokens + a.chargedUnknown > b.maxTotalTokens }

  predicate PromptOut(a: Account, b: Budget) { b.maxPromptTokens > 0 && a.promptTokens > b.maxPromptTokens }

  /** A refusal names the first limit that is out: requests, tokens, prompt tokens, then a cost that nobody can tell or that is too high. */
  lemma RefusalNamesLimit(a: Account, b: Budget)
    requires ExceededBy(a, b).Some?
    ensures var e, counts := ExceededBy(a, b).value, RequestsOut(a, b) || TokensOut(a, b) || PromptOut(a, b);
            && (e.RequestsExhausted? <==> RequestsOut(a, b))
            && (e.TokensExhausted? <==> TokensOut(a, b) && !RequestsOut(a, b))
            && (e.PromptTokensExhausted? <==> PromptOut(a, b) && !TokensOut(a, b) && !RequestsOut(a, b))
            && (e.NoPricing? <==> !counts && !Priced(b))
            && (e.CostUnknown? <==> !counts && Priced(b) && a.requests != a.reported)
            && (e.CostExhausted? <==> !counts && Priced(b) && a.requests == a.reported)
  {
    hide CostEstimate, Priced;
    CostAsPriced(a, b);
  }

  /** Of several ledgers the first one without room speaks for all; none of them speaks while all have room. */
  lemma {:induction false} FirstRefusalExactly(ledgers: seq<Scoped>)
    ensures FirstRefusal(ledgers).None? <==> forall i :: 0 <= i < |ledgers| ==> Room(ledgers[i].account, ledgers[i].budget)
    ensures FirstRefusal(ledgers).Some? ==>
              exists i :: 0 <= i < |ledgers| && RefusesFirst(ledgers, i) && FirstRefusal(ledgers) == ExceededBy(ledgers[i].account, ledgers[i].budget)
    decreases |ledgers|
  {
    hide ExceededBy, Room;
    if ledgers != [] {
      GuardPassesExactly(ledgers[0].account, ledgers[0].budget);
      if ExceededBy(ledgers[0].account, ledgers[0].budget).Some? {
        assert RefusesFirst(ledgers, 0);
      } else {
        FirstRefusalExactly(ledgers[1..]);
        assert forall i :: 1 <= i < |ledgers| ==> ledgers[i] == ledgers[1..][i - 1];
        if FirstRefusal(ledgers).Some? {
          var i :| 0 <= i < |ledgers| - 1 && RefusesFirst(ledgers[1..], i)
                   && FirstRefusal(ledgers[1..]) == ExceededBy(ledgers[1..][i].account, ledgers[1..][i].budget);
          assert RefusesFirst(ledgers, i + 1);
        }
      }
    }
  }

  predicate RefusesFirst(ledgers: seq<Scoped>, i: nat)
    requires i < |ledgers|
  {
    !Room(ledgers[i].account, ledgers[i].budget) && forall k :: 0 <= k < i ==> Room(ledgers[k].account, ledgers[k].budget)
  }

  /** With a limit on the requests alone, exactly as many go out as there is room for. */
  lemma {:induction false} RequestLimitIsExact(h: History, b: Budget, id: Identity, responses: seq<Response>)
    requires Consistent(h, b) && forall r :: r in responses ==> r.outcome != PENDING
    requires b.maxRequests > 0 && b.maxTotalTokens <= 0 && b.maxPromptTokens <= 0 && b.maxCost <= 0.0
    requires h.account.requests <= b.maxRequests
    ensures Guarded(h, b, id, responses).account.requests
         == if h.account.requests + |responses| <= b.maxRequests then h.account.requests + |responses| else b.maxRequests
    decreases |responses|
  {
    hide ExceededBy, OneRequest, Consistent;
    GuardPassesExactly(h.account, b);
    if responses != [] && ExceededBy(h.account, b).None? {
      OneRequestCost(h, b, id, responses[0]);
      RequestLimitIsExact(OneRequest(h, b, id, responses[0]), b, id, responses[1..]);
    }
  }

  /** The prompt limit is passed by at most the prompt of one response. */
  lemma {:induction false} PromptBound(h: History, b: Budget, id: Identity, responses: seq<Response>, largest: nat)
    requires Consistent(h, b) && b.maxPromptTokens > 0
    requires forall r :: r in responses ==> r.outcome != PENDING && PromptOf(r.usage) <= largest
    requires h.account.promptTokens <= b.maxPromptTokens + largest
    ensures Guarded(h, b, id, responses).account.promptTokens <= b.maxPromptTokens + largest
    decreases |responses|
  {
    hide ExceededBy, OneRequest, Consistent;
    GuardPassesExactly(h.account, b);
    if responses != [] && ExceededBy(h.account, b).None? {
      OneRequestCost(h, b, id, responses[0]);
      PromptBound(OneRequest(h, b, id, responses[0]), b, id, responses[1..], largest);
    }
  }

  lemma CostAdds(b: Budget, p: int, c: int, dp: int, dc: int)
    ensures Cost(b, p + dp, c + dc) == Cost(b, p, c) + Cost(b, dp, dc)
  {
    Distributes(p as real / 1000.0, dp as real / 1000.0, b.promptPrice);
    Distributes(c as real / 1000.0, dc as real / 1000.0, b.completionPrice);
  }

  lemma Distributes(x: real, y: real, price: real)
    ensures (x + y) * price == x * price + y * price
  {
  }

  /** The cost limit is passed by at most the cost of one response, prompt and completion priced apart. */
  lemma {:induction false} CostBound(h: History, b: Budget, id: Identity, responses: seq<Response>, largest: real)
    requires Consistent(h, b) && b.maxCost > 0.0 && largest >= 0.0
    requires forall r :: r in responses ==> r.outcome != PENDING && Cost(b, PromptOf(r.usage), CompletionOf(r.usage)) <= largest
    requires Cost(b, h.account.promptTokens, h.account.completionTokens) <= b.maxCost + largest
    ensures var a := Guarded(h, b, id, responses).account;
            Cost(b, a.promptTokens, a.completionTokens) <= b.maxCost + largest
    decreases |responses|
  {
    hide ExceededBy, OneRequest, Consistent, Cost;
    GuardPassesExactly(h.account, b);
    if responses != [] && ExceededBy(h.account, b).None? {
      var r := responses[0];
      OneRequestCost(h, b, id, r);
      CostAdds(b, h.account.promptTokens, h.account.completionTokens, PromptOf(r.usage), CompletionOf(r.usage));
      CostBound(OneRequest(h, b, id, r), b, id, responses[1..], largest);
    }
  }

  /** Under a cost limit, a response that reports no usage is the last one. */
  lemma UnknownCostStops(h: History, b: Budget, id: Identity, responses: seq<Response>)
    requires Consistent(h, b) && b.maxCost > 0.0 && responses != []
    requires responses[0].outcome != PENDING && responses[0].usage.None?
    ensures Guarded(h, b, id, responses) == Guarded(h, b, id, responses[..1])
  {
    hide ExceededBy, OneRequest, Charged;
    GuardPassesExactly(h.account, b);
    OneRequestCost(h, b, id, responses[0]);
    GuardPassesExactly(OneRequest(h, b, id, responses[0]).account, b);
    assert responses[..1][1..] == [] && responses[..1][0] == responses[0];
  }
}
