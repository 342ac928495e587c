/**
 How long the metrics file can get. The encoded length is bounded by its shape: constant parts, so
 much for each sample and each operation, and the operations' names. The gateway counts under two
 names only, so every file it ever writes is within the limit its own start-up sets.
 */
module MetricsFiles {
  import opened Sequences
  import opened Wrappers
  import opened MetricWindow
  import opened GatewayMetrics
  import opened MetricsLaws
  import Sums

  // ----- The encoded length ----------------------------------------------------

  const U64 := 0x1_0000_0000_0000_0000
  const I63 := 0x8000_0000_0000_0000

  /** The end of the year 9999, the last instant that is encoded. */
  const LAST_INSTANT := 315_537_897_600 * SECOND

  /** Every number at its widest, both buffers and the operations empty, with a newline. */
  const FIXED_BYTES := 560
  const SAMPLE_BYTES := 20
  const OPERATION_BYTES := 130

  /** One byte of a name takes at most an escape sequence. */
  const NAME_BYTES := 6

  predicate NarrowTally(t: Tally) {
    t.total < U64 && t.successful < U64 && t.failed < U64 && t.rejected < U64
  }

  predicate NarrowSamples(s: seq<int>) {
    forall i :: 0 <= i < |s| ==> 0 <= s[i] < I63
  }

  predicate NarrowOperations(operations: map<string, Tally>) {
    forall operation :: operation in operations ==> NarrowTally(operations[operation])
  }

  /** A state whose numbers fit the code's integers and whose signature is 64 hexadecimal digits. */
  predicate Encodable(p: Persisted) {
    && p.schema == SCHEMA && |p.hmac| == 64
    && p.windowStarted <= LAST_INSTANT && p.updatedAt <= LAST_INSTANT && 0 <= p.windowSeconds < I63
    && NarrowTally(p.tally) && p.upstreamErrors < U64 && p.injections < U64 && 0 <= p.durationTotal < I63
    && NarrowSamples(p.durations) && NarrowSamples(p.eligible) && NarrowOperations(p.operations)
  }

  function Lengths(operations: map<string, Tally>): map<string, nat> {
    map operation | operation in operations :: |operation|
  }

  ghost function NameLengths(operations: map<string, Tally>): nat {
    Sums.SumOf(Lengths(operations))
  }

  ghost function MostBytes(p: Persisted): nat {
    FIXED_BYTES + SAMPLE_BYTES * (|p.durations| + |p.eligible|)
      + OPERATION_BYTES * |p.operations| + NAME_BYTES * NameLengths(p.operations)
  }

  /** The names are written out, and everything else is as narrow as its digits. */
  ghost predicate Sized(cfg: Config) {
    forall p :: Encodable(p) ==> 0 < cfg.size(p) && NameLengths(p.operations) <= cfg.size(p) <= MostBytes(p)
  }

  ghost predicate Signs64(cfg: Config) {
    forall p :: |cfg.sign(p)| == 64
  }

  const SIGNATURE := seq(64, _ => '0')

  /** There are such encodings. */
  ghost const WIDEST := Config(MIN_WINDOW_SECONDS * SECOND, _ => SIGNATURE, (p: Persisted) => MostBytes(p))

  lemma WidestIsSized()
    ensures Sized(WIDEST) && Signs64(WIDEST) && WIDEST.WindowAllowed()
  {
    hide Encodable;
  }

  // ----- The gateway's own operations ------------------------------------------

  /** What the protected paths end in. */
  const GATEWAY_OPERATIONS := {"agent-ask", "submit-check"}

  const LONGEST_NAME := 12

  lemma {:induction false} SumBound(counts: map<string, nat>)
    requires forall key :: key in counts ==> counts[key] <= LONGEST_NAME
    ensures Sums.SumOf(counts) <= LONGEST_NAME * |counts|
    decreases |counts|
  {
    if counts != map[] {
      var key :| key in counts;
      Sums.SumWithout(counts, key);
      FewerKeys(counts, key);
      SumBound(counts - {key});
    }
  }

  lemma FewerKeys(counts: map<string, nat>, key: string)
    requires key in counts
    ensures |counts - {key}| == |counts| - 1
  {
    assert (counts - {key}).Keys == counts.Keys - {key};
    assert |counts.Keys - {key}| == |counts.Keys| - 1;
  }

  lemma FewNames(operations: map<string, Tally>)
    requires operations.Keys <= GATEWAY_OPERATIONS
    ensures |operations| <= 2 && NameLengths(operations) <= 24
  {
    var rest := GATEWAY_OPERATIONS - operations.Keys;
    assert GATEWAY_OPERATIONS == operations.Keys + rest;
    assert |GATEWAY_OPERATIONS| == |operations.Keys| + |rest|;
    assert |operations| == |operations.Keys|;
    assert Lengths(operations).Keys == operations.Keys;
    assert |Lengths(operations)| == |Lengths(operations).Keys|;
    SumBound(Lengths(operations));
  }

  predicate Narrow(w: Window) {
    && w.started <= LAST_INSTANT && NarrowTally(w.tally) && w.upstreamErrors < U64 && w.injections < U64 && w.durationTotal < I63
    && NarrowSamples(w.durations) && NarrowSamples(w.eligible) && NarrowOperations(w.operations)
  }

  /** Numbers and names as they come about in the gateway. */
  ghost predicate Ordinary(w: Window) {
    Narrow(w) && w.operations.Keys <= GATEWAY_OPERATIONS
  }

  /** Its file is at most 22 KB long. */
  lemma OrdinaryFileFits(cfg: Config, m: Meter)
    requires Sized(cfg) && Signs64(cfg) && cfg.WindowAllowed()
    requires Settled(cfg, m) && Clean(cfg, m) && Ordinary(m.window) && m.lastPersisted <= LAST_INSTANT
    ensures FileFits(cfg, m) && cfg.size(m.disk.state) <= 22_000
  {
    hide Acceptable, Sum, SumOver, NarrowTally, NarrowSamples, NarrowOperations, NameLengths, MostBytes, Named, OperationsConsistent;
    CleanFile(cfg, m);
    var p := Encode(cfg, m.window, m.lastPersisted);
    assert Encodable(p);
    FewNames(m.window.operations);
    MostOf(p);
  }

  lemma MostOf(p: Persisted)
    requires |p.durations| <= BUFFER && |p.eligible| <= BUFFER && |p.operations| <= 2 && NameLengths(p.operations) <= 24
    ensures MostBytes(p) <= 22_000
  {
    hide NameLengths;
  }

  /** In the gateway reopening before the window ends is the identity: no file is ever too long. */
  lemma ReopenIsIdentity(cfg: Config, m: Meter, now: nat, write: Write)
    requires Sized(cfg) && Signs64(cfg) && cfg.WindowAllowed()
    requires Settled(cfg, m) && Clean(cfg, m) && Ordinary(m.window) && m.lastPersisted <= LAST_INSTANT
    requires now < m.window.started + cfg.window
    ensures Opened(cfg, m.disk, now, write) == Some(m)
  {
    hide Settled, Clean, Sized, Ordinary, Opened, FileFits;
    OrdinaryFileFits(cfg, m);
    SixtyFourSigns(cfg);
    ReopenExactly(cfg, m, now, write);
  }

  lemma SixtyFourSigns(cfg: Config)
    requires Signs64(cfg)
    ensures cfg.Signs()
  {
    forall p
      ensures cfg.sign(p) != ""
    {
      assert |cfg.sign(p)| == 64;
    }
  }

  // ----- What the window holds -------------------------------------------------

  lemma {:induction false} MatchingKeeps(xs: seq<Sample>, p: Sample -> bool, x: Sample)
    requires x in Matching(xs, p)
    ensures x in xs
    decreases |xs|
  {
    var n := |xs| - 1;
    if x in Matching(xs[..n], p) {
      MatchingKeeps(xs[..n], p, x);
    }
  }

  lemma {:induction false} AtMostTheSum(s: seq<nat>, v: nat)
    requires v in s
    ensures v <= Sum(s)
    decreases |s|
  {
    var n := |s| - 1;
    if v in s[..n] {
      AtMostTheSum(s[..n], v);
    } else {
      assert v == s[n];
    }
  }

  lemma SamplesNarrow(xs: seq<Sample>, ys: seq<Sample>)
    requires Sum(Milliseconds(xs)) < I63 && forall y :: y in ys ==> y in xs
    ensures NarrowSamples(LastN(Milliseconds(ys), BUFFER))
  {
    hide Sum;
    var buffer := LastN(Milliseconds(ys), BUFFER);
    forall i | 0 <= i < |buffer|
      ensures 0 <= buffer[i] < I63
    {
      var k := |ys| - |buffer| + i;
      assert buffer[i] == ys[k].durationMs && ys[k] in xs;
      var j :| 0 <= j < |xs| && xs[j] == ys[k];
      assert Milliseconds(xs)[j] == buffer[i];
      AtMostTheSum(Milliseconds(xs), buffer[i]);
    }
  }

  /** What is counted from scratch fits the integers when the calls and their durations do. */
  lemma ObservedIsNarrow(started: nat, xs: seq<Sample>)
    requires started <= LAST_INSTANT && |xs| < U64 && Sum(Milliseconds(xs)) < I63
    ensures Narrow(Observed(started, xs)) && Observed(started, xs).operations.Keys == Operations(xs)
  {
    hide Matching, Sum, Milliseconds;
    SamplesNarrow(xs, xs);
    forall y | y in Matching(xs, Eligible)
      ensures y in xs
    {
      MatchingKeeps(xs, Eligible, y);
    }
    SamplesNarrow(xs, Matching(xs, Eligible));
  }

  // ----- Whole runs of the gateway ---------------------------------------------

  function TotalMs(hs: seq<Happening>): nat {
    if hs == [] then 0
    else
      var n := |hs| - 1;
      TotalMs(hs[..n]) + if hs[n].Called? then hs[n].sample.durationMs else 0
  }

  lemma {:induction false} SpanTotal(hs: seq<Happening>, k: nat)
    requires k <= |hs|
    ensures Sum(Milliseconds(Samples(hs[k..]))) <= TotalMs(hs)
    decreases |hs|
  {
    hide Milliseconds;
    if k == |hs| {
      NothingTaken();
      NoSamples();
      assert hs[k..] == [];
    } else {
      var n := |hs| - 1;
      SpanTotal(hs[..n], k);
      assert hs[k..] == hs[..n][k..] + [hs[n]];
      SamplesAppend(hs[..n][k..], hs[n]);
      if hs[n].Called? {
        MillisecondsAppend(Samples(hs[..n][k..]), hs[n].sample);
      } else {
        assert Samples(hs[..n][k..]) + [] == Samples(hs[..n][k..]);
      }
    }
  }

  lemma NothingTaken()
    ensures Sum(Milliseconds([])) == 0
  {
  }

  /** The gateway's operations, and numbers that the code's integers and clock can hold. */
  ghost predicate GatewayRun(t0: nat, hs: seq<Happening>) {
    && t0 <= LAST_INSTANT && |hs| < U64 && TotalMs(hs) < I63
    && forall i :: 0 <= i < |hs| ==> hs[i].at <= LAST_INSTANT && (hs[i].Called? ==> hs[i].sample.operation in GATEWAY_OPERATIONS)
  }

  lemma {:induction false} SampleNames(hs: seq<Happening>, names: set<string>)
    requires forall i :: 0 <= i < |hs| ==> hs[i].Called? ==> hs[i].sample.operation in names
    ensures forall i :: 0 <= i < |Samples(hs)| ==> Samples(hs)[i].operation in names
    decreases |hs|
  {
    if hs != [] {
      SampleNames(hs[..|hs| - 1], names);
    }
  }

  lemma FaithfulFileFits(cfg: Config, t0: nat, hs: seq<Happening>, m: Meter)
    requires Sized(cfg) && Signs64(cfg) && cfg.WindowAllowed()
    requires Orderly(t0, hs) && GatewayRun(t0, hs) && Faithful(cfg, t0, hs, m)
    ensures Ordinary(m.window) && m.lastPersisted <= LAST_INSTANT && FileFits(cfg, m)
  {
    hide Sized, Settled, Clean, Observed, Samples, FileFits, Narrow, Sum, Milliseconds, TotalMs;
    var s := CurrentSpan(cfg, t0, hs);
    StartedBefore(cfg, t0, hs);
    SpanTotal(hs, s.first);
    SampleNames(hs[s.first..], GATEWAY_OPERATIONS);
    ObservedIsNarrow(s.started, Samples(hs[s.first..]));
    OrdinaryFileFits(cfg, m);
  }

  lemma GatewayRunPrefix(t0: nat, hs: seq<Happening>)
    requires GatewayRun(t0, hs) && hs != []
    ensures GatewayRun(t0, hs[..|hs| - 1])
  {
  }

  lemma OrderlyPrefix(t0: nat, hs: seq<Happening>)
    requires Orderly(t0, hs) && hs != []
    ensures Orderly(t0, hs[..|hs| - 1])
  {
  }

  lemma {:induction false} GatewayStaysFaithful(cfg: Config, t0: nat, m: Meter, hs: seq<Happening>)
    requires Sized(cfg) && Signs64(cfg) && cfg.WindowAllowed()
    requires Orderly(t0, hs) && GatewayRun(t0, hs) && Faithful(cfg, t0, [], m)
    ensures Faithful(cfg, t0, hs, After(cfg, m, hs)) && StartsFit(cfg, m, hs)
    decreases |hs|
  {
    hide Sized, Faithful, FileFits, Orderly, GatewayRun, Happened;
    SixtyFourSigns(cfg);
    if hs != [] {
      var n := |hs| - 1;
      var before := After(cfg, m, hs[..n]);
      OrderlyPrefix(t0, hs);
      GatewayRunPrefix(t0, hs);
      GatewayStaysFaithful(cfg, t0, m, hs[..n]);
      FaithfulFileFits(cfg, t0, hs[..n], before);
      FaithfulStep(cfg, t0, hs, before);
      forall i | 0 <= i < |hs| && hs[i].Restarted?
        ensures FileFits(cfg, After(cfg, m, hs[..i]))
      {
        if i < n {
          assert hs[..n][i] == hs[i] && hs[..n][..i] == hs[..i];
        }
      }
    }
  }

  /**
   The gateway over any calls and starts: every start succeeds, the file mirrors the counters, they are
   the calls of the current window counted from scratch, and starting again changes nothing while it lasts.
   */
  lemma GatewayRunsFaithfully(cfg: Config, t0: nat, hs: seq<Happening>, now: nat, write: Write)
    requires Sized(cfg) && Signs64(cfg) && cfg.WindowAllowed()
    requires t0 != 0 && Orderly(t0, hs) && GatewayRun(t0, hs)
    ensures var first := Opened(cfg, Missing, t0, Saved);
            && first.Some? && StartsFit(cfg, first.value, hs)
            && var m := After(cfg, first.value, hs);
            && Faithful(cfg, t0, hs, m) && m.disk.File? && cfg.size(m.disk.state) <= 22_000
            && (now < m.window.started + cfg.window ==> Opened(cfg, m.disk, now, write) == Some(m))
  {
    hide Sized, FileFits, Orderly, GatewayRun, Opened, After, StartsFit, Ordinary, Settled, Clean;
    SixtyFourSigns(cfg);
    FirstStart(cfg, t0);
    var first := Opened(cfg, Missing, t0, Saved).value;
    GatewayStaysFaithful(cfg, t0, first, hs);
    var m := After(cfg, first, hs);
    FaithfulFileFits(cfg, t0, hs, m);
    OrdinaryFileFits(cfg, m);
    CleanFile(cfg, m);
    if now < m.window.started + cfg.window {
      ReopenIsIdentity(cfg, m, now, write);
    }
  }

  // ----- Other callers ---------------------------------------------------------

  function LongName(): (name: string)
    ensures |name| == MAX_FILE + 1
  {
    seq(MAX_FILE + 1, _ => 'a')
  }

  function LongCall(): Sample {
    Sample(LongName(), Success, 0, false, false)
  }

  lemma LongNameCounts(w: Window)
    requires LongName() in w.operations
    ensures NameLengths(w.operations) > MAX_FILE
  {
    hide LongName;
    Sums.SumWithout(Lengths(w.operations), LongName());
  }

  lemma OneLongCall(started: nat)
    requires started <= LAST_INSTANT
    ensures AddSample(Empty(started), LongCall()) == Observed(started, [LongCall()])
    ensures Narrow(Observed(started, [LongCall()])) && LongName() in Observed(started, [LongCall()]).operations
  {
    hide Observed, Narrow, LongName, AddSample, Empty;
    EmptyObserved(started);
    AddObserved(started, [], LongCall());
    MillisecondsAppend([], LongCall());
    NothingTaken();
    assert [] + [LongCall()] == [LongCall()];
    ObservedIsNarrow(started, [LongCall()]);
    assert [LongCall()][0].operation in Operations([LongCall()]);
  }

  lemma FirstWindow(cfg: Config, t0: nat)
    requires cfg.Signs() && cfg.WindowAllowed() && t0 != 0
    ensures var first := Opened(cfg, Missing, t0, Saved);
            first.Some? && Settled(cfg, first.value) && Clean(cfg, first.value) && first.value.window == Empty(t0) && Empty(t0).started == t0
  {
    hide Settled, Clean, Observed, Opened, Empty;
    FirstStart(cfg, t0);
    NoSamples();
    EmptyObserved(t0);
    StartOfEmpty(t0);
  }

  /** One call counted under a name of a megabyte, and the file it is written to does not open again. */
  lemma LongNameShutsTheMeter(cfg: Config)
    requires Sized(cfg) && Signs64(cfg) && cfg.WindowAllowed()
    ensures var first := Opened(cfg, Missing, 1, Saved);
            && first.Some?
            && var (m, counted) := Record(cfg, first.value, LongCall(), 1, Saved, Saved);
            && counted && Clean(cfg, m) && Opened(cfg, m.disk, 1, Saved) == None
  {
    hide Sized, Settled, Observed, Opened, Record, Clean, LongName, MostBytes, NameLengths, Empty, AddSample, FileFits, Narrow;
    SixtyFourSigns(cfg);
    FirstWindow(cfg, 1);
    var first := Opened(cfg, Missing, 1, Saved).value;
    RecordSettles(cfg, first, LongCall(), 1, Saved, Saved);
    var m := Record(cfg, first, LongCall(), 1, Saved, Saved).0;
    OneLongCall(1);
    LongNameCounts(m.window);
    StartOfObserved(1, [LongCall()]);
    TooLong(cfg, m);
    ReopenExactly(cfg, m, 1, Saved);
  }

  lemma TooLong(cfg: Config, m: Meter)
    requires Sized(cfg) && Signs64(cfg) && cfg.WindowAllowed() && Settled(cfg, m) && Clean(cfg, m)
    requires Narrow(m.window) && m.lastPersisted <= LAST_INSTANT && NameLengths(m.window.operations) > MAX_FILE
    ensures !FileFits(cfg, m)
  {
    hide Acceptable, Sum, SumOver, NarrowTally, NarrowSamples, NarrowOperations, NameLengths, MostBytes, Named, OperationsConsistent;
    CleanFile(cfg, m);
    assert Encodable(Encode(cfg, m.window, m.lastPersisted));
  }
}
