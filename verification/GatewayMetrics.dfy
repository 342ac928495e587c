/**
 The gateway's metrics file. Every record is checked against the file, counted, and written
 back signed; a restart reloads the window or rotates it. Reading the file back is a
 JSON decode, so the file is modelled by the state it decodes to.
 */
module GatewayMetrics {
  import opened Wrappers
  import opened MetricWindow

  /** Times are nanoseconds since the zero instant; the zero instant means unset. */
  const SECOND := 1_000_000_000
  const SCHEMA := "changeguard-agent-metrics/v1"
  const MIN_WINDOW_SECONDS := 3600
  const MAX_WINDOW_SECONDS := 2_678_400
  const MAX_FILE := 1_048_576

  datatype Persisted = Persisted(
    schema: string, windowStarted: nat, windowSeconds: int, updatedAt: nat, tally: Tally,
    upstreamErrors: nat, injections: nat, durationTotal: int, durations: seq<int>, eligible: seq<int>,
    operations: map<string, Tally>, hmac: string)

  datatype Disk = Missing | Unreadable | File(state: Persisted)

  /** How an atomic write ends: done, failed before the rename, or failed after it. */
  datatype Write = Saved | Kept | Swapped

  datatype Config = Config(window: nat, sign: Persisted -> string, size: Persisted -> nat) {
    function Seconds(): nat { window / SECOND }

    ghost predicate Signs() { forall p :: sign(p) != "" }

    predicate WindowAllowed() { MIN_WINDOW_SECONDS <= Seconds() <= MAX_WINDOW_SECONDS }
  }

  // ----- The file --------------------------------------------------------------

  function Encode(cfg: Config, w: Window, now: nat): Persisted {
    var p := Persisted(SCHEMA, w.started, cfg.Seconds(), now, w.tally, w.upstreamErrors, w.injections,
                       w.durationTotal, w.durations, w.eligible, w.operations, "");
    p.(hmac := cfg.sign(p))
  }

  predicate NonNegative(s: seq<int>) {
    forall i :: 0 <= i < |s| ==> s[i] >= 0
  }

  ghost predicate OperationsAcceptable(operations: map<string, Tally>, tally: Tally) {
    && (forall operation :: operation in operations ==> operation != "" && operations[operation].Consistent())
    && SumOver(operations) == tally
  }

  predicate SamplesAcceptable(p: Persisted) {
    && |p.durations| <= BUFFER && |p.eligible| <= BUFFER
    && NonNegative(p.durations) && NonNegative(p.eligible)
    && Sum(p.durations) <= p.durationTotal
  }

  predicate HeaderAcceptable(p: Persisted) {
    && p.schema == SCHEMA
    && p.windowStarted != 0 && p.windowStarted <= p.updatedAt
    && MIN_WINDOW_SECONDS <= p.windowSeconds <= MAX_WINDOW_SECONDS
    && p.tally.Consistent()
  }

  predicate Signed(cfg: Config, p: Persisted) {
    p.hmac != "" && p.hmac == cfg.sign(p.(hmac := ""))
  }

  /** Everything the decoder checks. */
  ghost predicate Acceptable(cfg: Config, p: Persisted) {
    HeaderAcceptable(p) && SamplesAcceptable(p) && OperationsAcceptable(p.operations, p.tally) && Signed(cfg, p)
  }

  lemma SumOverNothing()
    ensures SumOver(map[]) == ZERO
  {
    assert forall part: Tally -> nat :: Parts(map[], part) == map[];
  }

  /** The operation tallies in whatever order the map gives them. */
  method CheckOperations(operations: map<string, Tally>, tally: Tally) returns (ok: bool)
    ensures ok <==> OperationsAcceptable(operations, tally)
  {
    hide SumOver;
    var sum := ZERO;
    var pending := operations;
    SumOverNothing();
    while pending != map[]
      invariant pending.Keys <= operations.Keys && forall operation :: operation in pending ==> pending[operation] == operations[operation]
      invariant forall operation :: operation in operations && operation !in pending ==>
        operation != "" && operations[operation].Consistent()
      invariant SumOver(operations) == sum.Plus(SumOver(pending))
      decreases |pending|
    {
      var operation :| operation in pending;
      var metric := pending[operation];
      if operation == "" || metric.total != metric.successful + metric.failed + metric.rejected {
        return false;
      }
      TalliesWithout(pending, operation);
      sum := sum.Plus(metric);
      pending := pending - {operation};
    }
    ok := sum == tally;
  }

  lemma SumTake(s: seq<nat>, i: nat)
    requires i < |s|
    ensures Sum(s[..i + 1]) == Sum(s[..i]) + s[i]
  {
    assert s[..i + 1][..i] == s[..i];
  }

  method CheckSamples(p: Persisted) returns (ok: bool)
    ensures ok <==> SamplesAcceptable(p)
  {
    hide Sum;
    if |p.durations| > BUFFER || |p.eligible| > BUFFER {
      return false;
    }
    var sampled: nat := 0;
    SumNothing();
    assert p.durations[..0] == [];
    for i := 0 to |p.durations|
      invariant NonNegative(p.durations[..i]) && sampled == Sum(p.durations[..i])
    {
      if p.durations[i] < 0 {
        return false;
      }
      assert NonNegative(p.durations[..i + 1]);
      SumTake(p.durations[..i + 1], i);
      assert p.durations[..i + 1][..i] == p.durations[..i] && p.durations[..i + 1][..i + 1] == p.durations[..i + 1];
      sampled := sampled + p.durations[i];
    }
    assert p.durations[..|p.durations|] == p.durations;
    for i := 0 to |p.eligible|
      invariant forall k :: 0 <= k < i ==> p.eligible[k] >= 0
    {
      if p.eligible[i] < 0 {
        return false;
      }
    }
    ok := p.durationTotal >= sampled;
  }

  lemma SumNothing()
    ensures Sum([]) == 0
  {
  }

  method DecodeAndVerify(cfg: Config, disk: Disk) returns (state: Option<Persisted>)
    ensures state == if disk.File? && Acceptable(cfg, disk.state) then Some(disk.state) else None
  {
    hide SamplesAcceptable, OperationsAcceptable;
    if !disk.File? || !HeaderAcceptable(disk.state) {
      return None;
    }
    var operations := CheckOperations(disk.state.operations, disk.state.tally);
    var samples := CheckSamples(disk.state);
    state := if operations && samples && Signed(cfg, disk.state) then Some(disk.state) else None;
  }

  // ----- The meter -------------------------------------------------------------

  datatype Meter = Meter(window: Window, lastPersisted: nat, lastHmac: string, verified: bool, dirty: bool, disk: Disk)

  function Persist(cfg: Config, m: Meter, now: nat, write: Write): (Meter, bool) {
    var p := Encode(cfg, m.window, now);
    match write
    case Saved => (m.(lastPersisted := now, lastHmac := p.hmac, dirty := false, verified := true, disk := File(p)), true)
    case Kept => (m.(verified := false), false)
    case Swapped => (m.(verified := false, disk := File(p)), false)
  }

  /** Nothing unpersisted, and the file still is the one this process wrote. */
  ghost predicate DiskVerified(cfg: Config, m: Meter) {
    && !m.dirty && m.disk.File? && Acceptable(cfg, m.disk.state)
    && (m.lastHmac != "" ==> m.disk.state.hmac == m.lastHmac)
  }

  predicate Expired(cfg: Config, m: Meter, now: nat) {
    cfg.window > 0 && now >= m.window.started + cfg.window
  }

  function Rotate(cfg: Config, m: Meter, now: nat, write: Write): (Meter, bool) {
    if Expired(cfg, m, now) then Persist(cfg, m.(window := Empty(now), dirty := true), now, write) else (m, true)
  }

  ghost function Record(cfg: Config, m: Meter, x: Sample, now: nat, rotated: Write, counted: Write): (Meter, bool) {
    if !DiskVerified(cfg, m) then (m.(verified := false), false)
    else
      var (current, ready) := Rotate(cfg, m, now, rotated);
      if !ready then (current, false)
      else Persist(cfg, current.(window := AddSample(current.window, x), dirty := true), now, counted)
  }

  /** What reading the metrics does to the meter. */
  ghost function Refresh(cfg: Config, m: Meter, now: nat, write: Write): Meter {
    if !m.verified then m
    else if !DiskVerified(cfg, m) then m.(verified := false)
    else Rotate(cfg, m, now, write).0
  }

  function LoadedWindow(p: Persisted): Window
    requires SamplesAcceptable(p)
  {
    Window(p.windowStarted, p.tally, p.upstreamErrors, p.injections,
           p.durationTotal, p.durations, p.eligible, p.operations)
  }

  function Loaded(p: Persisted): Meter
    requires SamplesAcceptable(p)
  {
    Meter(LoadedWindow(p), p.updatedAt, p.hmac, true, false, File(p))
  }

  function Renewed(cfg: Config, m: Meter, now: nat, write: Write): Option<Meter> {
    var (renewed, ok) := Persist(cfg, m.(window := Empty(now), dirty := true), now, write);
    if ok then Some(renewed) else None
  }

  ghost function Opened(cfg: Config, disk: Disk, now: nat, write: Write): Option<Meter> {
    match disk
    case Missing => Renewed(cfg, Meter(Empty(now), 0, "", true, true, Missing), now, write)
    case Unreadable => None
    case File(p) =>
      if !(0 < cfg.size(p) <= MAX_FILE) || !Acceptable(cfg, p) then None
      else if p.windowSeconds != cfg.Seconds() || now >= p.windowStarted + cfg.window then Renewed(cfg, Loaded(p), now, write)
      else Some(Loaded(p))
  }

  /** What a reader of the metrics is shown. */
  datatype Summary = Summary(tally: Tally, upstreamErrors: nat, injections: nat, average: nat, p95: nat, eligibleP95: nat,
                             operations: map<string, Tally>)

  /** The nearest rank of a buffer, and 0 for an empty one. */
  ghost predicate Ranks(samples: seq<nat>, p: nat) {
    if samples == [] then p == 0 else p in samples && IsPercentile95(samples, p)
  }

  /** The greatest whole number of milliseconds that is not above the mean, and 0 without calls. */
  predicate Averages(average: nat, sum: nat, count: nat) {
    if count == 0 then average == 0 else average * count <= sum < (average + 1) * count
  }

  ghost predicate Shows(shown: Summary, w: Window) {
    && shown.tally == w.tally && shown.upstreamErrors == w.upstreamErrors && shown.injections == w.injections
    && shown.operations == w.operations
    && Averages(shown.average, w.durationTotal, w.tally.total)
    && Ranks(w.durations, shown.p95) && Ranks(w.eligible, shown.eligibleP95)
  }

  class Metrics {
    const cfg: Config
    var windowStarted: nat
    var lastPersisted: nat
    var lastHmac: string
    var verified: bool
    var dirty: bool
    var total: nat
    var successful: nat
    var failed: nat
    var rejected: nat
    var upstreamErrors: nat
    var injections: nat
    var durationTotal: nat
    var durations: seq<nat>
    var eligibleDurations: seq<nat>
    var operations: map<string, Tally>
    var disk: Disk

    function Current(): Window
      reads this
    {
      Window(windowStarted, Tally(total, successful, failed, rejected), upstreamErrors, injections, durationTotal,
             durations, eligibleDurations, operations)
    }

    function Abstract(): Meter
      reads this
    {
      Meter(Current(), lastPersisted, lastHmac, verified, dirty, disk)
    }

    constructor (cfg: Config, m: Meter)
      ensures this.cfg == cfg && Abstract() == m
    {
      this.cfg := cfg;
      windowStarted, lastPersisted, lastHmac, verified, dirty, disk :=
        m.window.started, m.lastPersisted, m.lastHmac, m.verified, m.dirty, m.disk;
      total, successful, failed, rejected :=
        m.window.tally.total, m.window.tally.successful, m.window.tally.failed, m.window.tally.rejected;
      upstreamErrors, injections, durationTotal, durations, eligibleDurations, operations :=
        m.window.upstreamErrors, m.window.injections, m.window.durationTotal, m.window.durations, m.window.eligible, m.window.operations;
    }

    method PersistLocked(now: nat, write: Write) returns (ok: bool)
      modifies this
      ensures (Abstract(), ok) == Persist(cfg, old(Abstract()), now, write)
    {
      var state := Encode(cfg, Current(), now);
      if !write.Saved? {
        verified := false;
        if write.Swapped? {
          disk := File(state);
        }
        return false;
      }
      disk := File(state);
      lastPersisted := state.updatedAt;
      lastHmac := state.hmac;
      dirty := false;
      verified := true;
      ok := true;
    }

    method VerifyDiskLocked() returns (ok: bool)
      ensures ok <==> DiskVerified(cfg, Abstract())
    {
      hide Acceptable;
      if dirty {
        return false;
      }
      var state := DecodeAndVerify(cfg, disk);
      ok := state.Some? && (lastHmac != "" ==> state.value.hmac == lastHmac);
    }

    method ResetLocked(now: nat)
      modifies this`windowStarted, this`total, this`successful, this`failed, this`rejected, this`upstreamErrors,
               this`injections, this`durationTotal, this`durations, this`eligibleDurations, this`operations
      ensures Current() == Empty(now)
    {
      windowStarted := now;
      total, successful, failed, rejected := 0, 0, 0, 0;
      upstreamErrors, injections, durationTotal := 0, 0, 0;
      durations, eligibleDurations, operations := [], [], map[];
    }

    method RotateIfExpiredLocked(now: nat, write: Write) returns (ok: bool)
      modifies this
      ensures (Abstract(), ok) == Rotate(cfg, old(Abstract()), now, write)
    {
      hide Persist, Empty;
      if cfg.window <= 0 || now < windowStarted + cfg.window {
        return true;
      }
      ResetLocked(now);
      dirty := true;
      ok := PersistLocked(now, write);
    }

    method PushDuration(value: nat)
      modifies this`durations
      ensures durations == Push(old(durations), value)
    {
      if |durations| >= BUFFER {
        durations := durations[1..] + [value];
      } else {
        durations := durations + [value];
      }
    }

    method PushEligible(value: nat)
      modifies this`eligibleDurations
      ensures eligibleDurations == Push(old(eligibleDurations), value)
    {
      if |eligibleDurations| >= BUFFER {
        eligibleDurations := eligibleDurations[1..] + [value];
      } else {
        eligibleDurations := eligibleDurations + [value];
      }
    }

    method CountOutcome(outcome: Outcome)
      modifies this`total, this`successful, this`failed, this`rejected
      ensures Tally(total, successful, failed, rejected) == old(Tally(total, successful, failed, rejected)).Plus(One(outcome))
    {
      total := total + 1;
      if outcome.Success? {
        successful := successful + 1;
      } else if outcome.Rejected? {
        rejected := rejected + 1;
      } else {
        failed := failed + 1;
      }
    }

    static method Bump(tally: Tally, outcome: Outcome) returns (metric: Tally)
      ensures metric == tally.Plus(One(outcome))
    {
      metric := tally.(total := tally.total + 1);
      if outcome.Success? {
        metric := metric.(successful := metric.successful + 1);
      } else if outcome.Rejected? {
        metric := metric.(rejected := metric.rejected + 1);
      } else {
        metric := metric.(failed := metric.failed + 1);
      }
    }

    method CountOperation(operation: string, outcome: Outcome)
      modifies this`operations
      ensures operations == old(operations)[operation := TallyAt(old(operations), operation).Plus(One(outcome))]
    {
      hide TallyAt;
      var metric := Bump(TallyAt(operations, operation), outcome);
      operations := operations[operation := metric];
    }

    method Count(x: Sample)
      modifies this`total, this`successful, this`failed, this`rejected, this`operations,
               this`upstreamErrors, this`injections, this`durationTotal, this`durations, this`eligibleDurations
      ensures Current() == AddSample(old(Current()), x)
    {
      hide Push, TallyAt;
      CountOutcome(x.outcome);
      CountOperation(x.operation, x.outcome);
      if x.upstreamError { upstreamErrors := upstreamErrors + 1; }
      if x.injection { injections := injections + 1; }
      durationTotal := durationTotal + x.durationMs;
      PushDuration(x.durationMs);
      if !x.outcome.Rejected? {
        PushEligible(x.durationMs);
      }
    }

    /** A negative duration is counted as zero. */
    method RecordCall(operation: string, outcome: Outcome, durationMs: int, injection: bool, upstreamError: bool,
                      now: nat, rotated: Write, counted: Write) returns (ok: bool)
      modifies this
      ensures var x := Sample(operation, outcome, if durationMs < 0 then 0 else durationMs, injection, upstreamError);
              (Abstract(), ok) == Record(cfg, old(Abstract()), x, now, rotated, counted)
    {
      hide DiskVerified, Rotate, Persist, AddSample;
      var x := Sample(operation, outcome, if durationMs < 0 then 0 else durationMs, injection, upstreamError);
      var intact := VerifyDiskLocked();
      if !intact {
        verified := false;
        return false;
      }
      var ready := RotateIfExpiredLocked(now, rotated);
      if !ready {
        return false;
      }
      Count(x);
      dirty := true;
      ok := PersistLocked(now, counted);
    }

    /** What the counters show once the meter is refreshed; the average is rounded down. */
    method Snapshot(now: nat, write: Write) returns (shown: Summary)
      modifies this
      ensures Abstract() == Refresh(cfg, old(Abstract()), now, write)
      ensures Shows(shown, Current())
    {
      hide DiskVerified, Rotate, IsPercentile95, AtMost;
      if verified {
        var intact := VerifyDiskLocked();
        if !intact {
          verified := false;
        } else {
          var ready := RotateIfExpiredLocked(now, write);
        }
      }
      var p95 := Percentile95(durations);
      var eligibleP95 := Percentile95(eligibleDurations);
      var average := 0;
      if total > 0 {
        average := durationTotal / total;
        AverageRounds(durationTotal, total);
      }
      shown := Summary(Tally(total, successful, failed, rejected), upstreamErrors, injections, average, p95, eligibleP95, operations);
    }
  }

  lemma AverageRounds(sum: nat, count: nat)
    requires count > 0
    ensures sum / count * count <= sum < (sum / count + 1) * count
  {
  }

  method Open(cfg: Config, disk: Disk, now: nat, write: Write) returns (metrics: Option<Metrics>)
    ensures metrics.Some? <==> Opened(cfg, disk, now, write).Some?
    ensures metrics.Some? ==> fresh(metrics.value) && metrics.value.cfg == cfg
    ensures metrics.Some? ==> metrics.value.Abstract() == Opened(cfg, disk, now, write).value
  {
    hide Acceptable, Encode, Empty;
    if disk.Missing? {
      var m := new Metrics(cfg, Meter(Empty(now), 0, "", true, true, Missing));
      var ok := m.PersistLocked(now, write);
      return if ok then Some(m) else None;
    }
    if disk.Unreadable? || cfg.size(disk.state) == 0 || cfg.size(disk.state) > MAX_FILE {
      return None;
    }
    var state := DecodeAndVerify(cfg, disk);
    if state.None? {
      return None;
    }
    AcceptableSamples(cfg, state.value);
    var m := new Metrics(cfg, Loaded(state.value));
    if state.value.windowSeconds != cfg.Seconds() || !(now < m.windowStarted + cfg.window) {
      m.ResetLocked(now);
      m.dirty := true;
      var ok := m.PersistLocked(now, write);
      return if ok then Some(m) else None;
    }
    metrics := Some(m);
  }

  lemma AcceptableSamples(cfg: Config, p: Persisted)
    requires Acceptable(cfg, p)
    ensures SamplesAcceptable(p)
  {
  }
}
