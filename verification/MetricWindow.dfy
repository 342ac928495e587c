/**
 One metrics window: counters, two bounded sample buffers and per-operation tallies, kept
 incrementally. The incremental window is proved to be what one would count from scratch.
 */
module MetricWindow {
  import opened Sequences
  import Sums

  datatype Outcome = Success | Rejected | Other

  datatype Sample = Sample(operation: string, outcome: Outcome, durationMs: nat, injection: bool, upstreamError: bool)

  datatype Tally = Tally(total: nat, successful: nat, failed: nat, rejected: nat) {
    function Plus(t: Tally): Tally {
      Tally(total + t.total, successful + t.successful, failed + t.failed, rejected + t.rejected)
    }

    predicate Consistent() { total == successful + failed + rejected }
  }

  const ZERO := Tally(0, 0, 0, 0)
  const BUFFER := 512

  datatype Window = Window(
    started: nat, tally: Tally, upstreamErrors: nat, injections: nat, durationTotal: nat,
    durations: seq<nat>, eligible: seq<nat>, operations: map<string, Tally>)

  // ----- Incrementally ---------------------------------------------------------

  function Empty(started: nat): Window {
    Window(started, ZERO, 0, 0, 0, [], [], map[])
  }

  function One(outcome: Outcome): Tally {
    match outcome
    case Success => Tally(1, 1, 0, 0)
    case Rejected => Tally(1, 0, 0, 1)
    case Other => Tally(1, 0, 1, 0)
  }

  /** A full buffer drops its oldest sample. */
  function Push(buffer: seq<nat>, value: nat): seq<nat> {
    if |buffer| >= BUFFER then buffer[1..] + [value] else buffer + [value]
  }

  function TallyAt(operations: map<string, Tally>, operation: string): Tally {
    if operation in operations then operations[operation] else ZERO
  }

  function AddSample(w: Window, x: Sample): Window {
    w.(tally := w.tally.Plus(One(x.outcome)),
       upstreamErrors := w.upstreamErrors + if x.upstreamError then 1 else 0,
       injections := w.injections + if x.injection then 1 else 0,
       durationTotal := w.durationTotal + x.durationMs,
       durations := Push(w.durations, x.durationMs),
       eligible := if x.outcome.Rejected? then w.eligible else Push(w.eligible, x.durationMs),
       operations := w.operations[x.operation := TallyAt(w.operations, x.operation).Plus(One(x.outcome))])
  }

  // ----- From scratch ----------------------------------------------------------

  predicate Succeeded(x: Sample) { x.outcome.Success? }

  predicate Failed(x: Sample) { x.outcome.Other? }

  predicate Turned(x: Sample) { x.outcome.Rejected? }

  predicate Eligible(x: Sample) { !x.outcome.Rejected? }

  predicate UpstreamFailed(x: Sample) { x.upstreamError }

  predicate Suspected(x: Sample) { x.injection }

  function Matching(xs: seq<Sample>, p: Sample -> bool): (r: seq<Sample>)
    ensures |r| <= |xs|
  {
    if xs == [] then []
    else
      var n := |xs| - 1;
      if p(xs[n]) then Matching(xs[..n], p) + [xs[n]] else Matching(xs[..n], p)
  }

  function Count(xs: seq<Sample>, p: Sample -> bool): nat {
    |Matching(xs, p)|
  }

  function Milliseconds(xs: seq<Sample>): (r: seq<nat>)
    ensures |r| == |xs| && forall i :: 0 <= i < |xs| ==> r[i] == xs[i].durationMs
  {
    seq(|xs|, i requires 0 <= i < |xs| => xs[i].durationMs)
  }

  function Sum(s: seq<nat>): nat {
    if s == [] then 0 else Sum(s[..|s| - 1]) + s[|s| - 1]
  }

  function Counted(xs: seq<Sample>): Tally {
    Tally(|xs|, Count(xs, Succeeded), Count(xs, Failed),
          Count(xs, Turned))
  }

  function Operations(xs: seq<Sample>): set<string> {
    set i | 0 <= i < |xs| :: xs[i].operation
  }

  function Per(xs: seq<Sample>, operation: string): seq<Sample> {
    Matching(xs, (x: Sample) => x.operation == operation)
  }

  function EligibleBuffer(xs: seq<Sample>): seq<nat> {
    LastN(Milliseconds(Matching(xs, Eligible)), BUFFER)
  }

  /** What the samples amount to, counted from scratch. */
  function Observed(started: nat, xs: seq<Sample>): Window {
    Window(
      started, Counted(xs),
      Count(xs, UpstreamFailed), Count(xs, Suspected), Sum(Milliseconds(xs)),
      LastN(Milliseconds(xs), BUFFER),
      EligibleBuffer(xs),
      map operation | operation in Operations(xs) :: Counted(Per(xs, operation)))
  }

  lemma MatchingAppend(xs: seq<Sample>, x: Sample, p: Sample -> bool)
    ensures Matching(xs + [x], p) == if p(x) then Matching(xs, p) + [x] else Matching(xs, p)
  {
    assert (xs + [x])[..|xs|] == xs;
  }

  lemma CountedAppend(xs: seq<Sample>, x: Sample)
    ensures Counted(xs + [x]) == Counted(xs).Plus(One(x.outcome))
  {
    hide Matching;
    MatchingAppend(xs, x, Succeeded);
    MatchingAppend(xs, x, Failed);
    MatchingAppend(xs, x, Turned);
  }

  lemma PushIsLastN(s: seq<nat>, v: nat)
    ensures Push(LastN(s, BUFFER), v) == LastN(s + [v], BUFFER)
  {
    if |s| >= BUFFER {
      assert LastN(s, BUFFER)[1..] == s[|s| - BUFFER + 1..];
      assert (s + [v])[|s| + 1 - BUFFER..] == s[|s| - BUFFER + 1..] + [v];
    }
  }

  lemma MillisecondsAppend(xs: seq<Sample>, x: Sample)
    ensures Milliseconds(xs + [x]) == Milliseconds(xs) + [x.durationMs]
    ensures Sum(Milliseconds(xs + [x])) == Sum(Milliseconds(xs)) + x.durationMs
  {
    var longer := Milliseconds(xs) + [x.durationMs];
    assert longer[..|xs|] == Milliseconds(xs);
  }

  lemma OperationsAppend(xs: seq<Sample>, x: Sample)
    ensures Operations(xs + [x]) == Operations(xs) + {x.operation}
  {
    var longer := xs + [x];
    forall operation | operation in Operations(xs) + {x.operation}
      ensures operation in Operations(longer)
    {
      if operation in Operations(xs) {
        var i :| 0 <= i < |xs| && xs[i].operation == operation;
        assert longer[i].operation == operation;
      } else {
        assert longer[|xs|].operation == operation;
      }
    }
  }

  lemma {:induction false} AbsentOperation(xs: seq<Sample>, operation: string)
    ensures operation !in Operations(xs) ==> Per(xs, operation) == []
    decreases |xs|
  {
    if xs != [] {
      var n := |xs| - 1;
      assert xs == xs[..n] + [xs[n]];
      OperationsAppend(xs[..n], xs[n]);
      AbsentOperation(xs[..n], operation);
      MatchingAppend(xs[..n], xs[n], (x: Sample) => x.operation == operation);
    }
  }

  lemma PerOperationAppend(xs: seq<Sample>, x: Sample, operation: string)
    ensures Counted(Per(xs + [x], operation))
         == if operation == x.operation then Counted(Per(xs, operation)).Plus(One(x.outcome)) else Counted(Per(xs, operation))
  {
    hide Matching, Counted;
    MatchingAppend(xs, x, (x: Sample) => x.operation == operation);
    CountedAppend(Per(xs, operation), x);
  }

  lemma OperationTallies(started: nat, xs: seq<Sample>, x: Sample)
    ensures AddSample(Observed(started, xs), x).operations == Observed(started, xs + [x]).operations
  {
    hide Matching, Milliseconds, LastN, Operations, Per, Sum;
    var before, after := Observed(started, xs).operations, Observed(started, xs + [x]).operations;
    OperationsAppend(xs, x);
    AbsentOperation(xs, x.operation);
    assert x.operation !in before ==> Counted(Per(xs, x.operation)) == ZERO by {
      assert Counted([]) == ZERO by { NothingCounted(); }
    }
    forall operation | operation in after
      ensures operation in AddSample(Observed(started, xs), x).operations
      ensures AddSample(Observed(started, xs), x).operations[operation] == after[operation]
    {
      PerOperationAppend(xs, x, operation);
    }
  }

  lemma NothingCounted()
    ensures Counted([]) == ZERO
  {
  }

  lemma CountersAppend(started: nat, xs: seq<Sample>, x: Sample)
    ensures var after, counted := AddSample(Observed(started, xs), x), Observed(started, xs + [x]);
            && after.tally == counted.tally
            && after.upstreamErrors == counted.upstreamErrors && after.injections == counted.injections
  {
    hide Matching, Milliseconds, LastN, Push, Operations, Counted, Per, Sum;
    CountedAppend(xs, x);
    MatchingAppend(xs, x, UpstreamFailed);
    MatchingAppend(xs, x, Suspected);
  }

  lemma BufferAppend(xs: seq<Sample>, x: Sample)
    ensures LastN(Milliseconds(xs + [x]), BUFFER) == Push(LastN(Milliseconds(xs), BUFFER), x.durationMs)
  {
    hide Milliseconds, LastN, Push;
    MillisecondsAppend(xs, x);
    PushIsLastN(Milliseconds(xs), x.durationMs);
  }

  lemma EligibleAppend(xs: seq<Sample>, x: Sample)
    ensures EligibleBuffer(xs + [x]) == if x.outcome.Rejected? then EligibleBuffer(xs) else Push(EligibleBuffer(xs), x.durationMs)
  {
    hide Matching, LastN, Push, Milliseconds;
    MatchingAppend(xs, x, Eligible);
    BufferAppend(Matching(xs, Eligible), x);
  }

  lemma DurationsAppend(started: nat, xs: seq<Sample>, x: Sample)
    ensures AddSample(Observed(started, xs), x).durationTotal == Observed(started, xs + [x]).durationTotal
    ensures AddSample(Observed(started, xs), x).durations == Observed(started, xs + [x]).durations
  {
    hide Matching, Milliseconds, LastN, Push, Operations, Counted, Per, Sum, EligibleBuffer, TallyAt;
    MillisecondsAppend(xs, x);
    BufferAppend(xs, x);
  }

  lemma EligiblesAppend(started: nat, xs: seq<Sample>, x: Sample)
    ensures AddSample(Observed(started, xs), x).eligible == Observed(started, xs + [x]).eligible
  {
    hide Matching, Milliseconds, LastN, Push, Operations, Counted, Per, Sum, EligibleBuffer, TallyAt;
    EligibleAppend(xs, x);
  }

  /** Recording one more sample is counting one more sample. */
  lemma AddObserved(started: nat, xs: seq<Sample>, x: Sample)
    ensures AddSample(Observed(started, xs), x) == Observed(started, xs + [x])
  {
    hide AddSample, Observed;
    CountersAppend(started, xs, x);
    DurationsAppend(started, xs, x);
    EligiblesAppend(started, xs, x);
    OperationTallies(started, xs, x);
    StartedAppend(started, xs, x);
  }

  lemma StartedAppend(started: nat, xs: seq<Sample>, x: Sample)
    ensures AddSample(Observed(started, xs), x).started == Observed(started, xs + [x]).started
  {
  }

  lemma EmptyObserved(started: nat)
    ensures Observed(started, []) == Empty(started)
  {
  }

  // ----- Totals over operations ------------------------------------------------

  function Parts(operations: map<string, Tally>, part: Tally -> nat): map<string, nat> {
    map operation | operation in operations :: part(operations[operation])
  }

  function TotalOf(t: Tally): nat { t.total }

  function SuccessfulOf(t: Tally): nat { t.successful }

  function FailedOf(t: Tally): nat { t.failed }

  function RejectedOf(t: Tally): nat { t.rejected }

  /** The tallies of all operations, added up in some order. */
  ghost function SumOver(operations: map<string, Tally>): Tally {
    Tally(Sums.SumOf(Parts(operations, TotalOf)), Sums.SumOf(Parts(operations, SuccessfulOf)),
          Sums.SumOf(Parts(operations, FailedOf)), Sums.SumOf(Parts(operations, RejectedOf)))
  }

  lemma PartWithout(operations: map<string, Tally>, operation: string, part: Tally -> nat)
    requires operation in operations
    ensures Sums.SumOf(Parts(operations, part)) == part(operations[operation]) + Sums.SumOf(Parts(operations - {operation}, part))
  {
    hide Sums.SumOf;
    Sums.SumWithout(Parts(operations, part), operation);
    assert Parts(operations - {operation}, part) == Parts(operations, part) - {operation};
  }

  /** Any one of them may be added first. */
  lemma TalliesWithout(operations: map<string, Tally>, operation: string)
    requires operation in operations
    ensures SumOver(operations) == operations[operation].Plus(SumOver(operations - {operation}))
  {
    hide Sums.SumOf, Parts;
    PartWithout(operations, operation, TotalOf);
    PartWithout(operations, operation, SuccessfulOf);
    PartWithout(operations, operation, FailedOf);
    PartWithout(operations, operation, RejectedOf);
  }

  lemma TalliesUpdate(operations: map<string, Tally>, operation: string, t: Tally)
    ensures SumOver(operations[operation := TallyAt(operations, operation).Plus(t)]) == SumOver(operations).Plus(t)
  {
    hide SumOver;
    var updated := operations[operation := TallyAt(operations, operation).Plus(t)];
    TalliesWithout(updated, operation);
    assert updated - {operation} == operations - {operation};
    if operation in operations {
      TalliesWithout(operations, operation);
    } else {
      assert operations - {operation} == operations;
    }
  }

  ghost predicate OperationsConsistent(w: Window) {
    && SumOver(w.operations) == w.tally
    && forall operation :: operation in w.operations ==> w.operations[operation].Consistent()
  }

  predicate Sampled(w: Window) {
    && |w.durations| <= BUFFER && |w.eligible| <= BUFFER
    && w.tally.Consistent()
    && Sum(w.durations) <= w.durationTotal
  }

  lemma {:induction false} SumAtLeast(s: seq<nat>, v: nat)
    requires s != []
    ensures Sum(s[1..]) <= Sum(s) && Sum(s + [v]) == Sum(s) + v
    decreases |s|
  {
    assert (s + [v])[..|s|] == s;
    var n := |s| - 1;
    if n > 0 {
      SumAtLeast(s[..n], v);
      assert s[1..][..n - 1] == s[..n][1..];
    }
  }

  lemma PushSum(s: seq<nat>, v: nat)
    ensures Sum(Push(s, v)) <= Sum(s) + v
  {
    hide Sum;
    if s == [] {
      SumOne(v);
    } else {
      SumAtLeast(s, v);
      if |s| >= BUFFER {
        SumAtLeast(s[1..], v);
      }
    }
  }

  lemma SumOne(v: nat)
    ensures Sum([]) == 0 && Sum([] + [v]) == v
  {
    assert ([] + [v])[..0] == [];
  }

  lemma AddKeepsSampled(w: Window, x: Sample)
    requires Sampled(w)
    ensures Sampled(AddSample(w, x))
  {
    hide Sum, Push, TallyAt;
    PushSum(w.durations, x.durationMs);
    PushLength(w.durations, x.durationMs);
    PushLength(w.eligible, x.durationMs);
  }

  lemma PushLength(s: seq<nat>, v: nat)
    requires |s| <= BUFFER
    ensures |Push(s, v)| <= BUFFER
  {
  }

  lemma AddKeepsOperations(w: Window, x: Sample)
    requires OperationsConsistent(w)
    ensures OperationsConsistent(AddSample(w, x))
  {
    hide SumOver, AddSample, One, TallyAt;
    var after, one := AddSample(w, x), One(x.outcome);
    var bumped := TallyAt(w.operations, x.operation).Plus(one);
    AddedTallies(w, x);
    BumpedConsistent(w.operations, x.operation, x.outcome);
    TalliesUpdate(w.operations, x.operation, one);
    forall operation | operation in after.operations
      ensures after.operations[operation].Consistent()
    {
      assert after.operations[operation] == if operation == x.operation then bumped else w.operations[operation];
    }
  }

  lemma AddedTallies(w: Window, x: Sample)
    ensures var after := AddSample(w, x);
            && after.tally == w.tally.Plus(One(x.outcome))
            && after.operations == w.operations[x.operation := TallyAt(w.operations, x.operation).Plus(One(x.outcome))]
  {
    hide Push, One, TallyAt;
  }

  lemma BumpedConsistent(operations: map<string, Tally>, operation: string, outcome: Outcome)
    requires operation in operations ==> operations[operation].Consistent()
    ensures TallyAt(operations, operation).Plus(One(outcome)).Consistent()
  {
    hide TallyAt, One;
    assert TallyAt(operations, operation).Consistent() by { TallyAtConsistent(operations, operation); }
    assert One(outcome).Consistent() by { OneConsistent(outcome); }
    PlusConsistent(TallyAt(operations, operation), One(outcome));
  }

  lemma TallyAtConsistent(operations: map<string, Tally>, operation: string)
    requires operation in operations ==> operations[operation].Consistent()
    ensures TallyAt(operations, operation).Consistent()
  {
  }

  lemma OneConsistent(outcome: Outcome)
    ensures One(outcome).Consistent()
  {
  }

  lemma PlusConsistent(a: Tally, b: Tally)
    requires a.Consistent() && b.Consistent()
    ensures a.Plus(b).Consistent()
  {
  }

  // ----- The 95th percentile ---------------------------------------------------

  function AtMost(s: seq<nat>, v: nat): nat {
    if s == [] then 0 else (if s[0] <= v then 1 else 0) + AtMost(s[1..], v)
  }

  predicate Sorted(s: seq<nat>) {
    forall i, j :: 0 <= i < j < |s| ==> s[i] <= s[j]
  }

  function Insert(v: nat, s: seq<nat>): (r: seq<nat>)
    ensures |r| == |s| + 1
  {
    if s == [] || v <= s[0] then [v] + s else [s[0]] + Insert(v, s[1..])
  }

  function Sort(s: seq<nat>): (r: seq<nat>)
    ensures |r| == |s|
  {
    if s == [] then [] else Insert(s[0], Sort(s[1..]))
  }

  lemma {:induction false} InsertMembers(v: nat, s: seq<nat>, w: nat)
    ensures w in Insert(v, s) <==> w == v || w in s
  {
    if s != [] && s[0] < v {
      InsertMembers(v, s[1..], w);
      assert w in s <==> w == s[0] || w in s[1..];
    }
  }

  lemma {:induction false} InsertSorts(v: nat, s: seq<nat>)
    requires Sorted(s)
    ensures Sorted(Insert(v, s))
  {
    if s != [] && s[0] < v {
      var rest := Insert(v, s[1..]);
      InsertSorts(v, s[1..]);
      forall j | 0 <= j < |rest|
        ensures s[0] <= rest[j]
      {
        InsertMembers(v, s[1..], rest[j]);
        assert rest[j] in rest;
      }
    }
  }

  lemma {:induction false} InsertCounts(v: nat, s: seq<nat>, w: nat)
    ensures AtMost(Insert(v, s), w) == AtMost(s, w) + if v <= w then 1 else 0
  {
    var r := Insert(v, s);
    if s == [] || v <= s[0] {
      assert r[1..] == s;
    } else {
      InsertCounts(v, s[1..], w);
      assert r[1..] == Insert(v, s[1..]);
    }
  }

  lemma {:induction false} SortLaws(s: seq<nat>, w: nat)
    ensures Sorted(Sort(s))
    ensures AtMost(Sort(s), w) == AtMost(s, w)
    ensures w in Sort(s) <==> w in s
  {
    if s != [] {
      SortLaws(s[1..], w);
      InsertSorts(s[0], Sort(s[1..]));
      InsertCounts(s[0], Sort(s[1..]), w);
      InsertMembers(s[0], Sort(s[1..]), w);
    }
  }

  lemma {:induction false} AtMostSorted(s: seq<nat>, i: nat, v: nat)
    requires Sorted(s) && i < |s|
    ensures s[i] <= v ==> AtMost(s, v) >= i + 1
    ensures v < s[i] ==> AtMost(s, v) <= i
    decreases i
  {
    if i > 0 {
      AtMostSorted(s[1..], i - 1, v);
    } else if v < s[0] {
      NoneAtMost(s, v);
    }
  }

  lemma {:induction false} NoneAtMost(s: seq<nat>, v: nat)
    requires forall i :: 0 <= i < |s| ==> v < s[i]
    ensures AtMost(s, v) == 0
  {
    if s != [] {
      NoneAtMost(s[1..], v);
    }
  }

  /** The nearest rank in the sorted samples; 0 when there are none. */
  method Percentile95(samples: seq<nat>) returns (p: nat)
    ensures samples == [] ==> p == 0
    ensures samples != [] ==> p in samples && IsPercentile95(samples, p)
  {
    hide Sort, AtMost;
    p := 0;
    var durations := Sort(samples);
    if |durations| > 0 {
      var index := (95 * |durations| + 99) / 100;
      if index < 1 {
        index := 1;
      }
      p := durations[index - 1];
      SortLaws(samples, p);
      forall v: nat
        ensures v < p ==> 100 * AtMost(samples, v) < 95 * |samples|
        ensures v == p ==> 100 * AtMost(samples, v) >= 95 * |samples|
      {
        SortLaws(samples, v);
        AtMostSorted(durations, index - 1, v);
      }
    }
  }

  /** The least value with at least 95 percent of the samples at or below it. */
  ghost predicate IsPercentile95(samples: seq<nat>, p: nat) {
    && 100 * AtMost(samples, p) >= 95 * |samples|
    && forall v: nat :: v < p ==> 100 * AtMost(samples, v) < 95 * |samples|
  }
}
