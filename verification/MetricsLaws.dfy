/**
 What holds of the metrics file over whole runs: it always decodes, it holds exactly the
 calls of the current window, and reopening it gives back the window that was written.
 */
module MetricsLaws {
  import opened Wrappers
  import opened MetricWindow
  import opened GatewayMetrics
  import Sums

  // ----- One state written and read back ---------------------------------------

  ghost predicate Named(w: Window) {
    "" !in w.operations
  }

  ghost predicate Accounted(w: Window) {
    Sampled(w) && OperationsConsistent(w)
  }

  /** What the writer signs, the decoder accepts, exactly when clock, window and names are in order. */
  lemma EncodedAcceptableExactly(cfg: Config, w: Window, now: nat)
    requires cfg.Signs() && Accounted(w)
    ensures Acceptable(cfg, Encode(cfg, w, now))
       <==> w.started != 0 && w.started <= now && cfg.WindowAllowed() && Named(w)
  {
    hide Sum, SumOver;
    var p := Encode(cfg, w, now);
    var bare := p.(hmac := "");
    assert cfg.sign(bare) != "";
    assert Signed(cfg, p);
    assert SamplesAcceptable(p);
  }

  /** Decoding what was encoded gives the window back, field by field. */
  lemma EncodeThenLoad(cfg: Config, w: Window, now: nat)
    requires Sampled(w)
    ensures SamplesAcceptable(Encode(cfg, w, now)) && LoadedWindow(Encode(cfg, w, now)) == w
  {
    hide Sum;
  }

  // ----- Every step ------------------------------------------------------------

  /** The file is a faithful, acceptable copy of the counters in memory. */
  ghost predicate Clean(cfg: Config, m: Meter) {
    && m.verified && !m.dirty
    && m.disk == File(Encode(cfg, m.window, m.lastPersisted)) && m.lastHmac == m.disk.state.hmac
  }

  /** The file decodes; and either it mirrors the counters, or they are off limits. */
  ghost predicate Settled(cfg: Config, m: Meter) {
    && Accounted(m.window) && Named(m.window)
    && m.disk.File? && Acceptable(cfg, m.disk.state)
    && (Clean(cfg, m) || (m.dirty && !m.verified))
  }

  lemma EmptyCounted(now: nat)
    ensures Accounted(Empty(now)) && Named(Empty(now))
  {
    hide Sum, SumOver;
    SumOverNothing();
    SumNothing();
  }

  lemma AddCounted(w: Window, x: Sample)
    requires Accounted(w) && Named(w) && x.operation != ""
    ensures Accounted(AddSample(w, x)) && Named(AddSample(w, x))
  {
    hide Sampled, OperationsConsistent, Push;
    AddKeepsSampled(w, x);
    AddKeepsOperations(w, x);
  }

  lemma PersistSettles(cfg: Config, m: Meter, now: nat, write: Write)
    requires cfg.Signs() && cfg.WindowAllowed() && m.dirty
    requires Accounted(m.window) && Named(m.window) && m.window.started != 0 && m.window.started <= now
    requires m.disk.File? && Acceptable(cfg, m.disk.state)
    ensures var (next, ok) := Persist(cfg, m, now, write);
            && Settled(cfg, next) && next.window == m.window
            && (ok <==> write.Saved?) && (ok <==> Clean(cfg, next)) && (ok ==> next.lastPersisted == now)
  {
    hide Acceptable, Accounted, Named, Encode;
    EncodedAcceptableExactly(cfg, m.window, now);
  }

  lemma CleanIsVerified(cfg: Config, m: Meter)
    requires Settled(cfg, m)
    ensures DiskVerified(cfg, m) <==> Clean(cfg, m)
  {
    hide Acceptable, Accounted, Named, Encode;
  }

  /** The window a call is counted into. */
  function WindowFor(cfg: Config, m: Meter, now: nat): Window {
    if Expired(cfg, m, now) then Empty(now) else m.window
  }

  /**
   One call, whatever the disk does: it succeeds exactly when the counters were clean and every
   write it needed was saved; then the sample is in the file. Otherwise the file still decodes.
   */
  lemma RecordSettles(cfg: Config, m: Meter, x: Sample, now: nat, rotated: Write, counted: Write)
    requires cfg.Signs() && cfg.WindowAllowed() && Settled(cfg, m)
    requires x.operation != "" && now != 0 && m.window.started <= now && m.window.started != 0
    ensures var (next, ok) := Record(cfg, m, x, now, rotated, counted);
            && Settled(cfg, next)
            && (ok <==> Clean(cfg, m) && (Expired(cfg, m, now) ==> rotated.Saved?) && counted.Saved?)
            && (ok ==> Clean(cfg, next) && next.window == AddSample(WindowFor(cfg, m, now), x) && next.lastPersisted == now)
            && 0 < next.window.started <= now
  {
    hide Acceptable, Accounted, Named, Encode, Persist, DiskVerified, AddSample, Empty, Clean, Expired;
    CleanIsVerified(cfg, m);
    if Clean(cfg, m) {
      RotateSettles(cfg, m, now, rotated);
      var (current, ready) := Rotate(cfg, m, now, rotated);
      if ready {
        var added := current.(window := AddSample(current.window, x), dirty := true);
        AddCounted(current.window, x);
        AddKeepsStart(current.window, x);
        PersistSettles(cfg, added, now, counted);
      }
    } else {
      UncleanStays(cfg, m);
    }
  }

  lemma AddKeepsStart(w: Window, x: Sample)
    ensures AddSample(w, x).started == w.started
  {
  }

  lemma UncleanStays(cfg: Config, m: Meter)
    requires Settled(cfg, m) && !Clean(cfg, m)
    ensures m.(verified := false) == m
  {
    hide Clean, Acceptable;
  }

  lemma RotateSettles(cfg: Config, m: Meter, now: nat, write: Write)
    requires cfg.Signs() && cfg.WindowAllowed() && Settled(cfg, m) && Clean(cfg, m)
    requires now != 0 && m.window.started <= now && m.window.started != 0
    ensures var (next, ready) := Rotate(cfg, m, now, write);
            && Settled(cfg, next) && 0 < next.window.started <= now
            && (ready <==> (Expired(cfg, m, now) ==> write.Saved?))
            && (ready ==> Clean(cfg, next) && next.window == WindowFor(cfg, m, now))
  {
    hide Acceptable, Accounted, Named, Encode, Persist, Clean;
    EmptyCounted(now);
    if Expired(cfg, m, now) {
      assert Empty(now).started == now;
      PersistSettles(cfg, m.(window := Empty(now), dirty := true), now, write);
    }
  }

  /** Counters that could not be written are never built upon: every later call is refused. */
  lemma UnpersistedIsStuck(cfg: Config, m: Meter, x: Sample, now: nat, rotated: Write, counted: Write)
    requires Settled(cfg, m) && !Clean(cfg, m)
    ensures Record(cfg, m, x, now, rotated, counted) == (m, false) && Refresh(cfg, m, now, rotated) == m
  {
    hide Acceptable, Encode;
    CleanIsVerified(cfg, m);
  }

  /** A file that changed behind the process's back stops the counting. */
  lemma ForeignFileRefused(cfg: Config, m: Meter, disk: Disk, x: Sample, now: nat, rotated: Write, counted: Write)
    requires m.lastHmac != "" && (disk.File? ==> disk.state.hmac != m.lastHmac)
    ensures Record(cfg, m.(disk := disk), x, now, rotated, counted) == (m.(disk := disk, verified := false), false)
  {
    hide Acceptable, Encode, Persist, Rotate, AddSample;
  }

  // ----- Writing and reading ---------------------------------------------------

  /** The state written for a window: its counters, the schema, the window's length, the time and the signature of all that. */
  predicate Writes(cfg: Config, w: Window, now: nat, p: Persisted) {
    && p.schema == "changeguard-agent-metrics/v1" && p.windowStarted == w.started && p.windowSeconds == cfg.window / 1_000_000_000 && p.updatedAt == now
    && p.tally == w.tally && p.upstreamErrors == w.upstreamErrors && p.injections == w.injections && p.durationTotal == w.durationTotal
    && p.durations == w.durations && p.eligible == w.eligible && p.operations == w.operations
    && p.hmac == cfg.sign(p.(hmac := ""))
  }

  /**
   A write that succeeds leaves the counters on disk and settles the meter. One that fails before the rename leaves the
   file, one that fails after it has replaced it; either withdraws the verified mark and leaves the counters unwritten.
   */
  lemma PersistExactly(cfg: Config, m: Meter, now: nat, write: Write)
    ensures var (t, ok) := Persist(cfg, m, now, write);
            && (ok <==> write.Saved?) && t.window == m.window
            && (if write.Kept? then t.disk == m.disk else t.disk.File? && Writes(cfg, m.window, now, t.disk.state))
            && (if ok then t.verified && !t.dirty && t.lastPersisted == now && t.lastHmac == t.disk.state.hmac
                else !t.verified && t.dirty == m.dirty && t.lastPersisted == m.lastPersisted && t.lastHmac == m.lastHmac)
  {
    var p := Encode(cfg, m.window, now);
    assert p.(hmac := "") == p.(hmac := "").(hmac := "");
  }

  predicate IsEmpty(w: Window, now: nat) {
    && w.started == now && w.tally == Tally(0, 0, 0, 0) && w.upstreamErrors == 0 && w.injections == 0 && w.durationTotal == 0
    && w.durations == [] && w.eligible == [] && w.operations == map[]
  }

  lemma RefreshedWhenClean(cfg: Config, m: Meter, now: nat, write: Write)
    requires Settled(cfg, m)
    ensures Refresh(cfg, m, now, write) == if Clean(cfg, m) then Rotate(cfg, m, now, write).0 else m
  {
    hide Settled, DiskVerified, Rotate;
    CleanIsVerified(cfg, m);
    if !Clean(cfg, m) {
      UncleanStays(cfg, m);
    }
  }

  lemma PersistedWindow(cfg: Config, m: Meter, now: nat, write: Write)
    ensures Persist(cfg, m, now, write).0.window == m.window
  {
    hide Encode;
  }

  /** Reading the metrics changes nothing, but that counters in order whose window is over start anew. */
  lemma ReadingRotatesExactly(cfg: Config, m: Meter, now: nat, write: Write)
    requires Settled(cfg, m)
    ensures var t := Refresh(cfg, m, now, write);
            if Clean(cfg, m) && cfg.window > 0 && now >= m.window.started + cfg.window
            then IsEmpty(t.window, now) && t == Persist(cfg, m.(window := t.window, dirty := true), now, write).0
            else t == m
  {
    hide Refresh, Settled, Clean, Persist;
    RefreshedWhenClean(cfg, m, now, write);
    PersistedWindow(cfg, m.(window := Empty(now), dirty := true), now, write);
  }

  // ----- Tampering -------------------------------------------------------------

  ghost predicate Injective(cfg: Config) {
    forall p, q :: cfg.sign(p) == cfg.sign(q) ==> p == q
  }

  /** A state altered anywhere but in its signature is not acceptable. */
  lemma AlteredStateRefused(cfg: Config, p: Persisted, altered: Persisted)
    requires Injective(cfg) && Acceptable(cfg, p) && altered != p && altered.hmac == p.hmac
    ensures !Acceptable(cfg, altered)
  {
    hide HeaderAcceptable, SamplesAcceptable, OperationsAcceptable;
    assert p == p.(hmac := "").(hmac := p.hmac) && altered == altered.(hmac := "").(hmac := altered.hmac);
  }

  /** A running meter goes on counting on exactly the file it has written itself. */
  lemma OwnFileExactly(cfg: Config, m: Meter, disk: Disk)
    requires cfg.Signs() && Injective(cfg) && Settled(cfg, m) && Clean(cfg, m)
    ensures DiskVerified(cfg, m.(disk := disk)) <==> disk == m.disk
  {
    hide Acceptable, Sum, SumOver;
    CleanFile(cfg, m);
    assert m.lastHmac != "" by { EncodedSignature(cfg, m.window, m.lastPersisted); }
    if DiskVerified(cfg, m.(disk := disk)) && disk != m.disk {
      AlteredStateRefused(cfg, m.disk.state, disk.state);
    }
  }

  lemma EncodedSignature(cfg: Config, w: Window, now: nat)
    requires cfg.Signs()
    ensures Encode(cfg, w, now).hmac != ""
  {
    var bare := Encode(cfg, w, now).(hmac := "");
    assert cfg.sign(bare) != "";
  }

  /** No later start takes an altered file for its own either. */
  lemma AlteredFileNotOpened(cfg: Config, p: Persisted, altered: Persisted, now: nat, write: Write)
    requires Injective(cfg) && Acceptable(cfg, p) && altered != p && altered.hmac == p.hmac
    ensures Opened(cfg, File(altered), now, write) == None
  {
    hide Acceptable, Injective;
    AlteredStateRefused(cfg, p, altered);
  }

  /** Every column of the operations' tallies adds up to the column of the total. */
  ghost predicate ColumnsAddUp(operations: map<string, Tally>, tally: Tally) {
    && Sums.SumOf(map operation | operation in operations :: operations[operation].total) == tally.total
    && Sums.SumOf(map operation | operation in operations :: operations[operation].successful) == tally.successful
    && Sums.SumOf(map operation | operation in operations :: operations[operation].failed) == tally.failed
    && Sums.SumOf(map operation | operation in operations :: operations[operation].rejected) == tally.rejected
  }

  lemma TotalColumn(operations: map<string, Tally>)
    ensures Parts(operations, TotalOf) == map operation | operation in operations :: operations[operation].total
  {
  }

  lemma SuccessfulColumn(operations: map<string, Tally>)
    ensures Parts(operations, SuccessfulOf) == map operation | operation in operations :: operations[operation].successful
  {
  }

  lemma FailedColumn(operations: map<string, Tally>)
    ensures Parts(operations, FailedOf) == map operation | operation in operations :: operations[operation].failed
  {
  }

  lemma RejectedColumn(operations: map<string, Tally>)
    ensures Parts(operations, RejectedOf) == map operation | operation in operations :: operations[operation].rejected
  {
  }

  lemma ColumnsExactly(operations: map<string, Tally>, tally: Tally)
    ensures SumOver(operations) == tally <==> ColumnsAddUp(operations, tally)
  {
    hide Sums.SumOf, Parts;
    TotalColumn(operations);
    SuccessfulColumn(operations);
    FailedColumn(operations);
    RejectedColumn(operations);
  }

  predicate AddsUp(t: Tally) { t.total == t.successful + t.failed + t.rejected }

  /** What the decoder holds a file to, check by check. */
  lemma AcceptableExactly(cfg: Config, p: Persisted)
    ensures Acceptable(cfg, p)
       <==> && p.schema == "changeguard-agent-metrics/v1" && 3_600 <= p.windowSeconds <= 31 * 86_400
            && 0 < p.windowStarted <= p.updatedAt
            && AddsUp(p.tally) && ColumnsAddUp(p.operations, p.tally)
            && (forall operation :: operation in p.operations ==> operation != "" && AddsUp(p.operations[operation]))
            && |p.durations| <= 512 && |p.eligible| <= 512
            && (forall i :: 0 <= i < |p.durations| ==> p.durations[i] >= 0) && (forall i :: 0 <= i < |p.eligible| ==> p.eligible[i] >= 0)
            && Sum(p.durations) <= p.durationTotal
            && p.hmac != "" && p.hmac == cfg.sign(p.(hmac := ""))
  {
    hide SumOver, Sum, ColumnsAddUp;
    ColumnsExactly(p.operations, p.tally);
  }

  // ----- Reopening -------------------------------------------------------------

  ghost predicate FileFits(cfg: Config, m: Meter) {
    m.disk.File? ==> 0 < cfg.size(m.disk.state) <= MAX_FILE
  }

  /** Reopening before the window ends gives the meter back, or refuses a file over the size limit. */
  lemma ReopenExactly(cfg: Config, m: Meter, now: nat, write: Write)
    requires cfg.Signs() && Settled(cfg, m) && Clean(cfg, m) && now < m.window.started + cfg.window
    ensures Opened(cfg, m.disk, now, write) == if FileFits(cfg, m) then Some(m) else None
  {
    hide Acceptable, Sum, SumOver;
    EncodeThenLoad(cfg, m.window, m.lastPersisted);
  }

  /** After any failure the last file still opens: a crash loses at most what was never acknowledged. */
  lemma ReopenAfterFailure(cfg: Config, m: Meter, now: nat)
    requires cfg.Signs() && cfg.WindowAllowed() && Settled(cfg, m) && now != 0 && FileFits(cfg, m)
    ensures Opened(cfg, m.disk, now, Saved).Some?
    ensures Settled(cfg, Opened(cfg, m.disk, now, Saved).value) && Clean(cfg, Opened(cfg, m.disk, now, Saved).value)
  {
    hide Encode, Sum, SumOver, Empty;
    var p := m.disk.state;
    var loaded := Loaded(p);
    if p.windowSeconds != cfg.Seconds() || now >= p.windowStarted + cfg.window {
      EmptyCounted(now);
      StartOfEmpty(now);
      PersistSettles(cfg, loaded.(window := Empty(now), dirty := true), now, Saved);
    } else {
      LoadedIsClean(cfg, p);
    }
  }

  lemma LoadedIsClean(cfg: Config, p: Persisted)
    requires Acceptable(cfg, p) && p.windowSeconds == cfg.Seconds()
    ensures Settled(cfg, Loaded(p)) && Clean(cfg, Loaded(p))
  {
    hide Sum, SumOver;
    assert Encode(cfg, LoadedWindow(p), p.updatedAt) == p;
  }

  lemma StartOfEmpty(t0: nat)
    ensures Empty(t0).started == t0
  {
  }

  /** Reopening once the window is over starts an empty one. */
  lemma ReopenRotates(cfg: Config, m: Meter, now: nat)
    requires cfg.Signs() && cfg.WindowAllowed() && Settled(cfg, m) && Clean(cfg, m) && FileFits(cfg, m)
    requires now >= m.window.started + cfg.window && now != 0
    ensures var next := Opened(cfg, m.disk, now, Saved);
            && next.Some? && Settled(cfg, next.value) && Clean(cfg, next.value)
            && next.value.window == Empty(now) && next.value.lastPersisted == now
  {
    hide Acceptable, Sum, SumOver, Empty, Accounted, Named, Settled, Clean;
    ReopenAfterFailure(cfg, m, now);
    assert m.disk.File? && m.disk.state.windowStarted == m.window.started && Acceptable(cfg, m.disk.state) by { CleanFile(cfg, m); }
  }

  lemma CleanFile(cfg: Config, m: Meter)
    requires Settled(cfg, m) && Clean(cfg, m)
    ensures m.disk == File(Encode(cfg, m.window, m.lastPersisted)) && Acceptable(cfg, m.disk.state)
    ensures m.disk.state.windowStarted == m.window.started
  {
    hide Acceptable;
  }

  // ----- Whole runs ------------------------------------------------------------

  /** A call that is counted, or a start of the gateway on the file it left. */
  datatype Happening = Called(sample: Sample, at: nat) | Restarted(at: nat)

  ghost predicate Orderly(from: nat, hs: seq<Happening>) {
    && (forall i :: 0 <= i < |hs| ==> from <= hs[i].at && (hs[i].Called? ==> hs[i].sample.operation != ""))
    && (forall i, j :: 0 <= i < j < |hs| ==> hs[i].at <= hs[j].at)
  }

  /** A start that is refused leaves everything as it was. */
  ghost function Happened(cfg: Config, m: Meter, h: Happening): Meter {
    match h
    case Called(x, at) => Record(cfg, m, x, at, Saved, Saved).0
    case Restarted(at) => Opened(cfg, m.disk, at, Saved).GetOr(m)
  }

  ghost function After(cfg: Config, m: Meter, hs: seq<Happening>): Meter {
    if hs == [] then m
    else
      var n := |hs| - 1;
      Happened(cfg, After(cfg, m, hs[..n]), hs[n])
  }

  datatype Span = Span(started: nat, first: nat)

  /** When the current window began, and where in the run. */
  function CurrentSpan(cfg: Config, started: nat, hs: seq<Happening>): (s: Span)
    ensures s.first <= |hs|
  {
    if hs == [] then Span(started, 0)
    else
      var n := |hs| - 1;
      var before := CurrentSpan(cfg, started, hs[..n]);
      if hs[n].at >= before.started + cfg.window then Span(hs[n].at, n) else before
  }

  function Samples(hs: seq<Happening>): (xs: seq<Sample>)
    ensures |xs| <= |hs|
  {
    if hs == [] then []
    else
      var n := |hs| - 1;
      Samples(hs[..n]) + if hs[n].Called? then [hs[n].sample] else []
  }

  lemma SamplesAppend(hs: seq<Happening>, h: Happening)
    ensures Samples(hs + [h]) == Samples(hs) + if h.Called? then [h.sample] else []
  {
    assert (hs + [h])[..|hs|] == hs;
  }

  /** What happens in the current window is the end of the run, all of it within the window's length. */
  lemma {:induction false} SpanLaws(cfg: Config, started: nat, hs: seq<Happening>)
    requires cfg.window > 0 && Orderly(started, hs)
    ensures var s := CurrentSpan(cfg, started, hs);
            && started <= s.started
            && (forall i :: 0 <= i < s.first ==> hs[i].at <= s.started)
            && (forall i :: s.first <= i < |hs| ==> s.started <= hs[i].at < s.started + cfg.window)
    decreases |hs|
  {
    if hs != [] {
      var n := |hs| - 1;
      SpanLaws(cfg, started, hs[..n]);
      assert forall i :: 0 <= i < n ==> hs[..n][i] == hs[i];
    }
  }

  function Latest(started: nat, hs: seq<Happening>): nat {
    if hs == [] then started else hs[|hs| - 1].at
  }

  lemma {:induction false} StartedBefore(cfg: Config, started: nat, hs: seq<Happening>)
    requires Orderly(started, hs)
    ensures started <= CurrentSpan(cfg, started, hs).started <= Latest(started, hs)
    decreases |hs|
  {
    if hs != [] {
      var n := |hs| - 1;
      StartedBefore(cfg, started, hs[..n]);
      assert forall i :: 0 <= i < n ==> hs[..n][i] == hs[i];
    }
  }

  /** Clean, and holding exactly the calls of the current window. */
  ghost predicate Faithful(cfg: Config, t0: nat, hs: seq<Happening>, m: Meter) {
    var s := CurrentSpan(cfg, t0, hs);
    && Settled(cfg, m) && Clean(cfg, m) && m.lastPersisted <= Latest(t0, hs)
    && 0 < s.started && m.window == Observed(s.started, Samples(hs[s.first..]))
  }

  lemma FaithfulCall(cfg: Config, t0: nat, hs: seq<Happening>, x: Sample, at: nat, m: Meter)
    requires cfg.Signs() && cfg.WindowAllowed() && Faithful(cfg, t0, hs, m)
    requires CurrentSpan(cfg, t0, hs).started <= at && Latest(t0, hs) <= at && x.operation != ""
    ensures Faithful(cfg, t0, hs + [Called(x, at)], Record(cfg, m, x, at, Saved, Saved).0)
  {
    hide Acceptable, Encode, Accounted, Named, Clean, Observed, Settled, AddSample, Record, Samples;
    var s, longer := CurrentSpan(cfg, t0, hs), hs + [Called(x, at)];
    var xs := Samples(hs[s.first..]);
    assert longer[..|hs|] == hs;
    StartOfObserved(s.started, xs);
    RecordSettles(cfg, m, x, at, Saved, Saved);
    if at >= s.started + cfg.window {
      EmptyObserved(at);
      AddObserved(at, [], x);
      assert longer[|hs|..] == [] + [Called(x, at)];
      SamplesAppend([], Called(x, at));
      NoSamples();
    } else {
      AddObserved(s.started, xs, x);
      assert longer[s.first..] == hs[s.first..] + [Called(x, at)];
      SamplesAppend(hs[s.first..], Called(x, at));
    }
  }

  lemma NoSamples()
    ensures Samples([]) == []
  {
  }

  lemma FaithfulStart(cfg: Config, t0: nat, hs: seq<Happening>, at: nat, m: Meter)
    requires cfg.Signs() && cfg.WindowAllowed() && Faithful(cfg, t0, hs, m) && FileFits(cfg, m)
    requires CurrentSpan(cfg, t0, hs).started <= at && Latest(t0, hs) <= at
    ensures Opened(cfg, m.disk, at, Saved).Some?
    ensures Faithful(cfg, t0, hs + [Restarted(at)], Opened(cfg, m.disk, at, Saved).value)
  {
    hide Acceptable, Encode, Accounted, Named, Clean, Observed, Settled, Opened, Samples, FileFits;
    var s, longer := CurrentSpan(cfg, t0, hs), hs + [Restarted(at)];
    assert longer[..|hs|] == hs;
    StartOfObserved(s.started, Samples(hs[s.first..]));
    if at >= s.started + cfg.window {
      ReopenRotates(cfg, m, at);
      EmptyObserved(at);
      assert longer[|hs|..] == [] + [Restarted(at)];
      SamplesAppend([], Restarted(at));
      NoSamples();
    } else {
      ReopenExactly(cfg, m, at, Saved);
      assert longer[s.first..] == hs[s.first..] + [Restarted(at)];
      SamplesAppend(hs[s.first..], Restarted(at));
      assert Samples(hs[s.first..]) + [] == Samples(hs[s.first..]);
    }
  }

  lemma StartOfObserved(started: nat, xs: seq<Sample>)
    ensures Observed(started, xs).started == started
  {
  }

  /** Every start in the run finds a file within the size limit. */
  ghost predicate StartsFit(cfg: Config, m: Meter, hs: seq<Happening>) {
    forall i :: 0 <= i < |hs| && hs[i].Restarted? ==> FileFits(cfg, After(cfg, m, hs[..i]))
  }

  lemma FaithfulStep(cfg: Config, t0: nat, hs: seq<Happening>, m: Meter)
    requires cfg.Signs() && cfg.WindowAllowed() && Orderly(t0, hs) && hs != []
    requires var n := |hs| - 1;
             Faithful(cfg, t0, hs[..n], m) && (hs[n].Restarted? ==> FileFits(cfg, m))
    ensures Faithful(cfg, t0, hs, Happened(cfg, m, hs[|hs| - 1]))
  {
    hide Faithful, Record, Opened, FileFits;
    var n := |hs| - 1;
    assert hs == hs[..n] + [hs[n]];
    StartedBefore(cfg, t0, hs[..n]);
    assert Latest(t0, hs[..n]) <= hs[n].at;
    match hs[n] {
      case Called(x, at) => FaithfulCall(cfg, t0, hs[..n], x, at, m);
      case Restarted(at) => FaithfulStart(cfg, t0, hs[..n], at, m);
    }
  }

  lemma {:induction false} RunIsObserved(cfg: Config, t0: nat, m: Meter, hs: seq<Happening>)
    requires cfg.Signs() && cfg.WindowAllowed() && Faithful(cfg, t0, [], m)
    requires Orderly(t0, hs) && StartsFit(cfg, m, hs)
    ensures Faithful(cfg, t0, hs, After(cfg, m, hs))
    decreases |hs|
  {
    hide Faithful, FileFits, Happened;
    if hs != [] {
      var n := |hs| - 1;
      forall i | 0 <= i < n && hs[..n][i].Restarted?
        ensures FileFits(cfg, After(cfg, m, hs[..n][..i]))
      {
        assert hs[..n][..i] == hs[..i];
      }
      RunIsObserved(cfg, t0, m, hs[..n]);
      FaithfulStep(cfg, t0, hs, After(cfg, m, hs[..n]));
    }
  }

  /** A first start on an empty directory. */
  lemma FirstStart(cfg: Config, t0: nat)
    requires cfg.Signs() && cfg.WindowAllowed() && t0 != 0
    ensures Opened(cfg, Missing, t0, Saved).Some?
    ensures Faithful(cfg, t0, [], Opened(cfg, Missing, t0, Saved).value)
  {
    hide Acceptable, Encode, Accounted, Named, Observed, Empty;
    EmptyCounted(t0);
    StartOfEmpty(t0);
    EncodedAcceptableExactly(cfg, Empty(t0), t0);
    EmptyObserved(t0);
    NoSamples();
  }

  /**
   A first start, then any calls and starts in any order: the file mirrors the counters, and they are
   what counting the calls of the current window from scratch gives.
   */
  lemma FreshRun(cfg: Config, t0: nat, hs: seq<Happening>)
    requires cfg.Signs() && cfg.WindowAllowed() && t0 != 0 && Orderly(t0, hs)
    requires Opened(cfg, Missing, t0, Saved).Some? ==> StartsFit(cfg, Opened(cfg, Missing, t0, Saved).value, hs)
    ensures Opened(cfg, Missing, t0, Saved).Some?
    ensures Faithful(cfg, t0, hs, After(cfg, Opened(cfg, Missing, t0, Saved).value, hs))
  {
    hide Faithful, After, Opened, StartsFit;
    FirstStart(cfg, t0);
    RunIsObserved(cfg, t0, Opened(cfg, Missing, t0, Saved).value, hs);
  }
}
