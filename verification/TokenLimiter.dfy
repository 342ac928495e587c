/**
 The per-caller token bucket. Idle buckets are collected, and a collected bucket comes back
 full, so the limiter is compared with one that never collects.
 */
module TokenLimiter {

  /** Times are in seconds. */
  datatype Bucket = Bucket(tokens: real, last: real, seen: real)

  datatype State = State(buckets: map<string, Bucket>, lastGC: real)

  datatype Config = Config(ratePerMinute: nat, burst: nat) {
    function Rate(): real { ratePerMinute as real / 60.0 }

    function Capacity(): real { burst as real }

    predicate Valid() { 1 <= ratePerMinute && 1 <= burst }
  }

  const GC_INTERVAL := 300.0
  const IDLE_LIMIT := 900.0

  // ----- One call --------------------------------------------------------------

  /** The tokens that flow in during a span of time. */
  function Flow(cfg: Config, span: real): real {
    span * cfg.Rate()
  }

  function Fill(cfg: Config, b: Bucket, now: real): real {
    if now - b.last > 0.0 then
      var tokens := b.tokens + Flow(cfg, now - b.last);
      if tokens > cfg.Capacity() then cfg.Capacity() else tokens
    else b.tokens
  }

  predicate Idle(b: Bucket, now: real) {
    now - b.seen > IDLE_LIMIT
  }

  /** Removes the idle buckets, at most once per interval. */
  function Sweep(s: State, now: real): State {
    if now - s.lastGC >= GC_INTERVAL
    then State(map key | key in s.buckets && !Idle(s.buckets[key], now) :: s.buckets[key], now)
    else s
  }

  function Level(cfg: Config, s: State, key: string, now: real): real {
    if key in s.buckets then Fill(cfg, s.buckets[key], now) else cfg.Capacity()
  }

  /** The token step alone: what a limiter without collection does. */
  function Spend(cfg: Config, s: State, key: string, now: real): (State, bool) {
    var level := Level(cfg, s, key, now);
    var allowed := level >= 1.0;
    (s.(buckets := s.buckets[key := Bucket(if allowed then level - 1.0 else level, now, now)]), allowed)
  }

  function Serve(cfg: Config, collects: bool, s: State, key: string, now: real): (State, bool) {
    Spend(cfg, if collects then Sweep(s, now) else s, key, now)
  }

  /** Once in five minutes, and no sooner, the buckets nobody used for a quarter of an hour go; every other one stays as it is. */
  lemma SweepExactly(s: State, now: real)
    ensures var t, due := Sweep(s, now), now >= s.lastGC + 300.0;
            && t.lastGC == (if due then now else s.lastGC)
            && (forall key :: key in t.buckets <==> key in s.buckets && !(due && now > s.buckets[key].seen + 900.0))
            && forall key :: key in t.buckets ==> t.buckets[key] == s.buckets[key]
  {
  }

  class Limiter {
    const cfg: Config
    var buckets: map<string, Bucket>
    var lastGC: real

    ghost function Abstract(): State
      reads this
    {
      State(buckets, lastGC)
    }

    constructor (cfg: Config, now: real)
      ensures this.cfg == cfg && Abstract() == State(map[], now)
    {
      this.cfg := cfg;
      buckets := map[];
      lastGC := now;
    }

    method Collect(now: real)
      modifies this`buckets, this`lastGC
      ensures Abstract() == Sweep(old(Abstract()), now)
    {
      if now - lastGC >= GC_INTERVAL {
        var pending := buckets.Keys;
        while pending != {}
          invariant pending <= buckets.Keys <= old(buckets).Keys
          invariant forall key :: key in buckets ==> buckets[key] == old(buckets)[key]
          invariant forall key :: key in old(buckets) ==>
            (key in buckets <==> key in pending || !Idle(old(buckets)[key], now))
        {
          var key :| key in pending;
          pending := pending - {key};
          if now - buckets[key].seen > IDLE_LIMIT {
            buckets := buckets - {key};
          }
        }
        lastGC := now;
      }
    }

    method Allow(key: string, now: real) returns (allowed: bool)
      modifies this`buckets, this`lastGC
      ensures (Abstract(), allowed) == Serve(cfg, true, old(Abstract()), key, now)
    {
      Collect(now);
      var bucket := if key in buckets then buckets[key] else Bucket(cfg.Capacity(), now, now);
      var elapsed := now - bucket.last;
      if elapsed > 0.0 {
        bucket := bucket.(tokens := bucket.tokens + Flow(cfg, elapsed));
        if bucket.tokens > cfg.Capacity() {
          bucket := bucket.(tokens := cfg.Capacity());
        }
      }
      bucket := bucket.(last := now, seen := now);
      allowed := bucket.tokens >= 1.0;
      if allowed {
        bucket := bucket.(tokens := bucket.tokens - 1.0);
      }
      buckets := buckets[key := bucket];
    }
  }

  // ----- Histories -------------------------------------------------------------

  datatype Call = Call(key: string, at: real)

  ghost predicate Nondecreasing(from: real, calls: seq<Call>) {
    && (forall i :: 0 <= i < |calls| ==> from <= calls[i].at)
    && (forall i, j :: 0 <= i < j < |calls| ==> calls[i].at <= calls[j].at)
  }

  function After(cfg: Config, collects: bool, s: State, calls: seq<Call>): State
    decreases |calls|
  {
    if calls == [] then s
    else After(cfg, collects, Serve(cfg, collects, s, calls[0].key, calls[0].at).0, calls[1..])
  }

  function Answers(cfg: Config, collects: bool, s: State, calls: seq<Call>): (answers: seq<bool>)
    ensures |answers| == |calls|
    decreases |calls|
  {
    if calls == [] then []
    else
      var (next, allowed) := Serve(cfg, collects, s, calls[0].key, calls[0].at);
      [allowed] + Answers(cfg, collects, next, calls[1..])
  }

  // ----- Collection does not show ----------------------------------------------

  ghost predicate Sane(cfg: Config, b: Bucket, now: real) {
    0.0 <= b.tokens <= cfg.Capacity() && b.last == b.seen <= now
  }

  ghost predicate AllSane(cfg: Config, s: State, now: real) {
    forall key :: key in s.buckets ==> Sane(cfg, s.buckets[key], now)
  }

  lemma FlowAdds(cfg: Config, x: real, y: real)
    ensures Flow(cfg, x + y) == Flow(cfg, x) + Flow(cfg, y)
  {
  }

  lemma FlowGrows(cfg: Config, x: real, y: real)
    requires x <= y
    ensures Flow(cfg, x) <= Flow(cfg, y)
  {
    var rate, more := cfg.Rate(), y - x;
    assert rate >= 0.0;
    assert more * rate >= 0.0;
    assert y * rate == x * rate + more * rate;
  }

  lemma FlowZero(cfg: Config)
    ensures Flow(cfg, 0.0) == 0.0
  {
  }

  /** Filling is bounded, and a later look never sees less. */
  lemma FillBounds(cfg: Config, b: Bucket, now: real, later: real)
    requires cfg.Valid() && Sane(cfg, b, now) && now <= later
    ensures 0.0 <= Fill(cfg, b, now) <= Fill(cfg, b, later) <= cfg.Capacity()
    ensures Fill(cfg, b, later) <= Fill(cfg, b, now) + Flow(cfg, later - now)
  {
    hide Flow;
    FlowAdds(cfg, now - b.last, later - now);
    FlowGrows(cfg, 0.0, later - now);
    FlowGrows(cfg, 0.0, now - b.last);
    FlowZero(cfg);
  }

  lemma SpendStaysSane(cfg: Config, s: State, key: string, now: real, at: real)
    requires cfg.Valid() && AllSane(cfg, s, now) && now <= at
    ensures AllSane(cfg, Spend(cfg, s, key, at).0, at)
  {
    if key in s.buckets {
      FillBounds(cfg, s.buckets[key], now, at);
    }
  }

  /** Whatever the collecting limiter forgot is full by now in the other one. */
  ghost predicate Agrees(cfg: Config, collecting: State, plain: State, now: real) {
    && AllSane(cfg, plain, now)
    && (forall key :: key in collecting.buckets ==> key in plain.buckets && collecting.buckets[key] == plain.buckets[key])
    && (forall key :: key in plain.buckets && key !in collecting.buckets ==>
          Fill(cfg, plain.buckets[key], now) == cfg.Capacity())
  }

  lemma IdleIsFull(cfg: Config, b: Bucket, now: real)
    requires cfg.Valid() && cfg.burst <= 15 * cfg.ratePerMinute && Sane(cfg, b, now) && Idle(b, now)
    ensures Fill(cfg, b, now) == cfg.Capacity()
  {
    FlowGrows(cfg, IDLE_LIMIT, now - b.last);
    assert Flow(cfg, IDLE_LIMIT) == 15.0 * cfg.ratePerMinute as real;
  }

  lemma AgreesLater(cfg: Config, collecting: State, plain: State, now: real, later: real)
    requires cfg.Valid() && cfg.burst <= 15 * cfg.ratePerMinute
    requires Agrees(cfg, collecting, plain, now) && now <= later
    ensures Agrees(cfg, Sweep(collecting, later), plain, later)
  {
    hide Fill, Flow;
    forall key | key in plain.buckets
      ensures Fill(cfg, plain.buckets[key], now) == cfg.Capacity() ==> Fill(cfg, plain.buckets[key], later) == cfg.Capacity()
      ensures Idle(plain.buckets[key], later) ==> Fill(cfg, plain.buckets[key], later) == cfg.Capacity()
    {
      FillBounds(cfg, plain.buckets[key], now, later);
      if Idle(plain.buckets[key], later) {
        IdleIsFull(cfg, plain.buckets[key], later);
      }
    }
  }

  lemma AgreesStep(cfg: Config, collecting: State, plain: State, key: string, now: real, at: real)
    requires cfg.Valid() && cfg.burst <= 15 * cfg.ratePerMinute
    requires Agrees(cfg, collecting, plain, now) && now <= at
    ensures Serve(cfg, true, collecting, key, at).1 == Serve(cfg, false, plain, key, at).1
    ensures Agrees(cfg, Serve(cfg, true, collecting, key, at).0, Serve(cfg, false, plain, key, at).0, at)
  {
    hide Fill, Sweep, AllSane;
    AgreesLater(cfg, collecting, plain, now, at);
    SpendStaysSane(cfg, plain, key, now, at);
    assert Level(cfg, Sweep(collecting, at), key, at) == Level(cfg, plain, key, at);
  }

  lemma {:induction false} SameAnswers(cfg: Config, collecting: State, plain: State, now: real, calls: seq<Call>)
    requires cfg.Valid() && cfg.burst <= 15 * cfg.ratePerMinute
    requires Agrees(cfg, collecting, plain, now) && Nondecreasing(now, calls)
    ensures Answers(cfg, true, collecting, calls) == Answers(cfg, false, plain, calls)
    decreases |calls|
  {
    hide Agrees, Serve;
    if calls != [] {
      var key, at := calls[0].key, calls[0].at;
      AgreesStep(cfg, collecting, plain, key, now, at);
      SameAnswers(cfg, Serve(cfg, true, collecting, key, at).0, Serve(cfg, false, plain, key, at).0, at, calls[1..]);
    }
  }

  // ----- Collection shows when a full bucket takes longer to fill --------------

  function Repeated(key: string, at: real, n: nat): (calls: seq<Call>)
    ensures |calls| == n && forall i :: 0 <= i < n ==> calls[i] == Call(key, at)
  {
    seq(n, _ => Call(key, at))
  }

  lemma {:induction false} RunConcat(cfg: Config, collects: bool, s: State, a: seq<Call>, b: seq<Call>)
    ensures After(cfg, collects, s, a + b) == After(cfg, collects, After(cfg, collects, s, a), b)
    ensures Answers(cfg, collects, s, a + b) == Answers(cfg, collects, s, a) + Answers(cfg, collects, After(cfg, collects, s, a), b)
    decreases |a|
  {
    hide Serve;
    if a == [] {
      assert a + b == b;
    } else {
      assert (a + b)[1..] == a[1..] + b;
      RunConcat(cfg, collects, Serve(cfg, collects, s, a[0].key, a[0].at).0, a[1..], b);
    }
  }

  /** One key drained at one instant, once the sweep of that instant is over. */
  lemma {:induction false} Drain(cfg: Config, collects: bool, s: State, key: string, at: real, n: nat)
    requires cfg.Valid() && 0.0 <= Level(cfg, s, key, at) <= cfg.Capacity() && at - s.lastGC < GC_INTERVAL
    ensures forall i :: 0 <= i < n ==> Answers(cfg, collects, s, Repeated(key, at, n))[i] == (Level(cfg, s, key, at) >= (i + 1) as real)
    ensures var t := After(cfg, collects, s, Repeated(key, at, n));
            && t.lastGC == s.lastGC
            && (n > 0 ==> key in t.buckets && t.buckets[key].last == t.buckets[key].seen == at)
            && (Level(cfg, s, key, at) >= n as real ==> Level(cfg, t, key, at) == Level(cfg, s, key, at) - n as real)
    decreases n
  {
    if n > 0 {
      var calls := Repeated(key, at, n);
      var next := Serve(cfg, collects, s, key, at).0;
      var level := Level(cfg, s, key, at);
      assert Serve(cfg, collects, s, key, at) == Spend(cfg, s, key, at);
      assert Level(cfg, next, key, at) == if level >= 1.0 then level - 1.0 else level;
      assert calls[1..] == Repeated(key, at, n - 1);
      Drain(cfg, collects, next, key, at, n - 1);
      var later := Answers(cfg, collects, next, Repeated(key, at, n - 1));
      assert Answers(cfg, collects, s, calls) == [level >= 1.0] + later;
      forall i | 0 <= i < n
        ensures Answers(cfg, collects, s, calls)[i] == (level >= (i + 1) as real)
      {
        if i > 0 {
          assert later[i - 1] == (Level(cfg, next, key, at) >= i as real);
        }
      }
    }
  }

  /** Drain a key at once, wait just past the idle limit, drain it again: the sweep refills it. */
  function Exposing(cfg: Config): seq<Call>
    requires cfg.Valid()
  {
    Repeated("", 0.0, cfg.burst) + Repeated("", Wait(cfg), cfg.burst)
  }

  /** A moment longer than the idle limit, in which less than one more token flows in. */
  function Wait(cfg: Config): real
    requires cfg.Valid()
  {
    IDLE_LIMIT + 1.0 / cfg.ratePerMinute as real
  }

  lemma WaitBounds(cfg: Config)
    requires cfg.Valid() && cfg.burst > 15 * cfg.ratePerMinute
    ensures IDLE_LIMIT < Wait(cfg) && Flow(cfg, Wait(cfg)) < cfg.Capacity()
  {
    var n := cfg.ratePerMinute as real;
    var extra := 1.0 / n;
    assert extra * n == 1.0;
    assert extra * (n / 60.0) == 1.0 / 60.0;
    FlowAdds(cfg, IDLE_LIMIT, extra);
    assert Flow(cfg, IDLE_LIMIT) == 15.0 * n;
  }

  lemma CollectionShows(cfg: Config)
    requires cfg.Valid() && cfg.burst > 15 * cfg.ratePerMinute
    ensures var start := State(map[], 0.0);
            && Nondecreasing(0.0, Exposing(cfg))
            && Answers(cfg, true, start, Exposing(cfg)) != Answers(cfg, false, start, Exposing(cfg))
  {
    hide Answers, After, Serve;
    var start, n, wait := State(map[], 0.0), cfg.burst, Wait(cfg);
    var first, second := Repeated("", 0.0, n), Repeated("", wait, n);
    WaitBounds(cfg);
    RunConcat(cfg, true, start, first, second);
    RunConcat(cfg, false, start, first, second);
    Drain(cfg, true, start, "", 0.0, n);
    Drain(cfg, false, start, "", 0.0, n);
    var swept, kept := After(cfg, true, start, first), After(cfg, false, start, first);
    SecondDrainSwept(cfg, swept, wait, n);
    SecondDrainKept(cfg, kept, wait, n);
    var a, b := Answers(cfg, true, start, Exposing(cfg)), Answers(cfg, false, start, Exposing(cfg));
    assert a[2 * n - 1] == Answers(cfg, true, swept, second)[n - 1];
    assert b[2 * n - 1] == Answers(cfg, false, kept, second)[n - 1];
  }

  lemma SecondDrainSwept(cfg: Config, s: State, wait: real, n: nat)
    requires cfg.Valid() && n == cfg.burst && wait > IDLE_LIMIT && s.lastGC == 0.0
    requires "" in s.buckets && s.buckets[""].seen == 0.0
    ensures forall i :: 0 <= i < n ==> Answers(cfg, true, s, Repeated("", wait, n))[i]
  {
    var swept := Sweep(s, wait);
    Drain(cfg, true, swept, "", wait, n);
    SweepOnce(cfg, s, Repeated("", wait, n), wait);
  }

  lemma SweepOnce(cfg: Config, s: State, calls: seq<Call>, at: real)
    requires calls != [] && calls[0].at == at
    ensures Answers(cfg, true, s, calls) == Answers(cfg, true, Sweep(s, at), calls)
  {
    assert Sweep(Sweep(s, at), at) == Sweep(s, at);
  }

  lemma SecondDrainKept(cfg: Config, s: State, wait: real, n: nat)
    requires cfg.Valid() && n == cfg.burst && wait > IDLE_LIMIT && Flow(cfg, wait) < cfg.Capacity()
    requires "" in s.buckets && s.buckets[""].last == 0.0 && Level(cfg, s, "", 0.0) == 0.0
    ensures !Answers(cfg, false, s, Repeated("", wait, n))[n - 1]
  {
    var quiet := s.(lastGC := wait);
    hide Flow;
    FlowGrows(cfg, 0.0, wait);
    FlowZero(cfg);
    assert Level(cfg, quiet, "", wait) == Flow(cfg, wait);
    Drain(cfg, false, quiet, "", wait, n);
    ClockIgnored(cfg, s, Repeated("", wait, n), wait);
  }

  lemma {:induction false} ClockIgnored(cfg: Config, s: State, calls: seq<Call>, at: real)
    ensures Answers(cfg, false, s, calls) == Answers(cfg, false, s.(lastGC := at), calls)
    decreases |calls|
  {
    hide Fill;
    if calls != [] {
      ClockIgnored(cfg, Serve(cfg, false, s, calls[0].key, calls[0].at).0, calls[1..], at);
    }
  }

  ghost predicate CollectionInvisible(cfg: Config) {
    forall start: real, calls: seq<Call> :: Nondecreasing(start, calls) ==>
      Answers(cfg, true, State(map[], start), calls) == Answers(cfg, false, State(map[], start), calls)
  }

  /** No caller can tell that buckets are collected, exactly when an idle bucket has time to fill up. */
  lemma CollectionInvisibleExactly(cfg: Config)
    requires cfg.Valid()
    ensures CollectionInvisible(cfg) <==> cfg.burst <= 15 * cfg.ratePerMinute
  {
    hide Answers;
    if cfg.burst <= 15 * cfg.ratePerMinute {
      forall start: real, calls: seq<Call> | Nondecreasing(start, calls)
        ensures Answers(cfg, true, State(map[], start), calls) == Answers(cfg, false, State(map[], start), calls)
      {
        SameAnswers(cfg, State(map[], start), State(map[], start), start, calls);
      }
    } else {
      CollectionShows(cfg);
    }
  }

  // ----- How much one key can get ----------------------------------------------

  function Admitted(key: string, calls: seq<Call>, answers: seq<bool>): nat
    requires |calls| == |answers|
  {
    if calls == [] then 0
    else (if calls[0].key == key && answers[0] then 1 else 0) + Admitted(key, calls[1..], answers[1..])
  }

  lemma LevelBounds(cfg: Config, s: State, key: string, now: real, later: real)
    requires cfg.Valid() && AllSane(cfg, s, now) && now <= later
    ensures 0.0 <= Level(cfg, s, key, later) <= cfg.Capacity()
    ensures Level(cfg, s, key, later) <= Level(cfg, s, key, now) + Flow(cfg, later - now)
  {
    hide Flow, Fill;
    FlowGrows(cfg, 0.0, later - now);
    FlowZero(cfg);
    if key in s.buckets {
      FillBounds(cfg, s.buckets[key], now, later);
    }
  }

  /** Tokens are never created except by time: what is admitted was there or has flowed in. */
  lemma {:induction false} TokensConserved(cfg: Config, s: State, key: string, now: real, calls: seq<Call>, end: real)
    requires cfg.Valid() && AllSane(cfg, s, now) && Nondecreasing(now, calls) && now <= end
    requires forall i :: 0 <= i < |calls| ==> calls[i].at <= end
    ensures Admitted(key, calls, Answers(cfg, false, s, calls)) as real <= Level(cfg, s, key, now) + Flow(cfg, end - now)
    decreases |calls|
  {
    hide Fill, Flow, AllSane;
    LevelBounds(cfg, s, key, now, now);
    FlowZero(cfg);
    if calls == [] {
      FlowGrows(cfg, 0.0, end - now);
    } else {
      var at := calls[0].at;
      var (next, allowed) := Serve(cfg, false, s, calls[0].key, at);
      SpendStaysSane(cfg, s, calls[0].key, now, at);
      TokensConserved(cfg, next, key, at, calls[1..], end);
      LevelBounds(cfg, s, key, now, at);
      FlowAdds(cfg, at - now, end - at);
      if calls[0].key == key {
        FillNow(cfg, next.buckets[key], at);
      } else {
        assert Level(cfg, next, key, at) == Level(cfg, s, key, at);
      }
      assert Answers(cfg, false, s, calls)[1..] == Answers(cfg, false, next, calls[1..]);
    }
  }

  lemma FillNow(cfg: Config, b: Bucket, now: real)
    requires b.last == now
    ensures Fill(cfg, b, now) == b.tokens
  {
  }

  lemma {:induction false} RunStaysSane(cfg: Config, s: State, now: real, calls: seq<Call>, end: real)
    requires cfg.Valid() && AllSane(cfg, s, now) && Nondecreasing(now, calls) && now <= end
    requires forall i :: 0 <= i < |calls| ==> calls[i].at <= end
    ensures AllSane(cfg, After(cfg, false, s, calls), end)
    decreases |calls|
  {
    hide Spend;
    if calls != [] {
      SpendStaysSane(cfg, s, calls[0].key, now, calls[0].at);
      RunStaysSane(cfg, Serve(cfg, false, s, calls[0].key, calls[0].at).0, calls[0].at, calls[1..], end);
    }
  }

  lemma EmptyAgrees(cfg: Config, start: real)
    ensures Agrees(cfg, State(map[], start), State(map[], start), start) && AllSane(cfg, State(map[], start), start)
  {
  }

  lemma NondecreasingParts(start: real, before: seq<Call>, within: seq<Call>)
    requires Nondecreasing(start, before + within) && within != []
    ensures Nondecreasing(start, before) && Nondecreasing(within[0].at, within) && start <= within[0].at
    ensures forall i :: 0 <= i < |before| ==> before[i].at <= within[0].at
  {
    var calls, n := before + within, |before|;
    assert calls[n] == within[0];
    forall i | 0 <= i < n
      ensures before[i] == calls[i] && start <= calls[i].at <= calls[n].at
    {
    }
    forall i, j | 0 <= i < j < |within|
      ensures within[i].at <= within[j].at
    {
      assert within[i] == calls[n + i] && within[j] == calls[n + j];
    }
    forall i | 0 <= i < |within|
      ensures within[0].at <= within[i].at
    {
      assert within[i] == calls[n + i];
    }
    forall i, j | 0 <= i < j < n
      ensures before[i].at <= before[j].at
    {
      assert before[i] == calls[i] && before[j] == calls[j];
    }
  }

  /** After any past, the collecting limiter answers as the other one does from where it stands. */
  lemma AnswersAfter(cfg: Config, start: real, before: seq<Call>, within: seq<Call>)
    requires cfg.Valid() && cfg.burst <= 15 * cfg.ratePerMinute && Nondecreasing(start, before + within)
    ensures var empty := State(map[], start);
            Answers(cfg, true, empty, before + within)[|before|..] == Answers(cfg, false, After(cfg, false, empty, before), within)
  {
    hide Answers, Serve, Fill, Flow, Level, AllSane, After;
    var empty := State(map[], start);
    EmptyAgrees(cfg, start);
    SameAnswers(cfg, empty, empty, start, before + within);
    RunConcat(cfg, false, empty, before, within);
  }

  /**
   The limiter as it runs, collection included: in any stretch of calls within [a, b] one key
   is admitted at most burst + rate * (b - a) times.
   */
  lemma AdmissionBound(cfg: Config, start: real, before: seq<Call>, within: seq<Call>, key: string, a: real, b: real)
    requires cfg.Valid() && cfg.burst <= 15 * cfg.ratePerMinute
    requires Nondecreasing(start, before + within)
    requires a <= b && forall i :: 0 <= i < |within| ==> a <= within[i].at <= b
    ensures var answers := Answers(cfg, true, State(map[], start), before + within)[|before|..];
            Admitted(key, within, answers) as real <= cfg.Capacity() + Flow(cfg, b - a)
  {
    hide Answers, Serve, Fill, Flow, Level, AllSane, After, Nondecreasing;
    var empty := State(map[], start);
    FlowGrows(cfg, 0.0, b - a);
    FlowZero(cfg);
    if within == [] {
      assert Admitted(key, within, Answers(cfg, true, empty, before + within)[|before|..]) == 0;
    } else {
      var from := within[0].at;
      NondecreasingParts(start, before, within);
      AnswersAfter(cfg, start, before, within);
      EmptyAgrees(cfg, start);
      RunStaysSane(cfg, empty, start, before, from);
      var s := After(cfg, false, empty, before);
      TokensConserved(cfg, s, key, from, within, b);
      LevelBounds(cfg, s, key, from, from);
      FlowGrows(cfg, b - from, b - a);
    }
  }

  ghost predicate WithinBound(cfg: Config, start: real, before: seq<Call>, within: seq<Call>, key: string, a: real, b: real) {
    var answers := Answers(cfg, true, State(map[], start), before + within)[|before|..];
    Admitted(key, within, answers) as real <= cfg.Capacity() + Flow(cfg, b - a)
  }

  ghost predicate AdmissionsBounded(cfg: Config) {
    forall start: real, before: seq<Call>, within: seq<Call>, key: string, a: real, b: real ::
      Nondecreasing(start, before + within) && a <= b && (forall i :: 0 <= i < |within| ==> a <= within[i].at <= b) ==>
        WithinBound(cfg, start, before, within, key, a, b)
  }

  lemma {:induction false} AllAdmitted(key: string, calls: seq<Call>, answers: seq<bool>)
    requires |calls| == |answers| && forall i :: 0 <= i < |calls| ==> calls[i].key == key && answers[i]
    ensures Admitted(key, calls, answers) == |calls|
    decreases |calls|
  {
    if calls != [] {
      AllAdmitted(key, calls[1..], answers[1..]);
    }
  }

  lemma ExposedAllAdmitted(cfg: Config)
    requires cfg.Valid() && cfg.burst > 15 * cfg.ratePerMinute
    ensures var answers := Answers(cfg, true, State(map[], 0.0), Exposing(cfg));
            forall i :: 0 <= i < |Exposing(cfg)| ==> Exposing(cfg)[i].key == "" && answers[i]
  {
    hide Answers, After, Serve, Flow;
    var start, n, wait := State(map[], 0.0), cfg.burst, Wait(cfg);
    var first, second := Repeated("", 0.0, n), Repeated("", wait, n);
    WaitBounds(cfg);
    RunConcat(cfg, true, start, first, second);
    Drain(cfg, true, start, "", 0.0, n);
    SecondDrainSwept(cfg, After(cfg, true, start, first), wait, n);
  }

  /** With a larger burst, two whole bursts fit into a time in which less than one flows in. */
  lemma TwoBursts(cfg: Config)
    requires cfg.Valid() && cfg.burst > 15 * cfg.ratePerMinute
    ensures Nondecreasing(0.0, Exposing(cfg)) && Flow(cfg, Wait(cfg)) < cfg.Capacity() && 0.0 < Wait(cfg)
    ensures Admitted("", Exposing(cfg), Answers(cfg, true, State(map[], 0.0), Exposing(cfg))) == 2 * cfg.burst
  {
    hide Answers, Flow;
    WaitBounds(cfg);
    ExposedAllAdmitted(cfg);
    AllAdmitted("", Exposing(cfg), Answers(cfg, true, State(map[], 0.0), Exposing(cfg)));
  }

  /** Every stretch of every run respects the bound, exactly when an idle bucket has time to fill up. */
  lemma AdmissionsBoundedExactly(cfg: Config)
    requires cfg.Valid()
    ensures AdmissionsBounded(cfg) <==> cfg.burst <= 15 * cfg.ratePerMinute
  {
    hide Answers, Flow, Nondecreasing, Wait;
    if cfg.burst <= 15 * cfg.ratePerMinute {
      forall start: real, before: seq<Call>, within: seq<Call>, key: string, a: real, b: real
        | Nondecreasing(start, before + within) && a <= b && forall i :: 0 <= i < |within| ==> a <= within[i].at <= b
        ensures WithinBound(cfg, start, before, within, key, a, b)
      {
        AdmissionBound(cfg, start, before, within, key, a, b);
      }
    } else {
      TwoBursts(cfg);
      var calls := Exposing(cfg);
      assert [] + calls == calls;
      assert !WithinBound(cfg, 0.0, [], calls, "", 0.0, Wait(cfg)) by {
        assert Answers(cfg, true, State(map[], 0.0), calls)[0..] == Answers(cfg, true, State(map[], 0.0), calls);
      }
    }
  }

  // ----- Exactly who is admitted -----------------------------------------------

  lemma {:induction false} AdmittedAppend(key: string, calls: seq<Call>, answers: seq<bool>, c: Call, answer: bool)
    requires |calls| == |answers|
    ensures Admitted(key, calls + [c], answers + [answer]) == Admitted(key, calls, answers) + if c.key == key && answer then 1 else 0
    decreases |calls|
  {
    if calls == [] {
      assert [] + [c] == [c] && [] + [answer] == [answer];
    } else {
      AdmittedAppend(key, calls[1..], answers[1..], c, answer);
      assert (calls + [c])[1..] == calls[1..] + [c] && (answers + [answer])[1..] == answers[1..] + [answer];
    }
  }

  /** The stretch from one call until t, with `wanted` more, stays within burst plus rate times time. */
  ghost predicate StretchFits(cfg: Config, calls: seq<Call>, answers: seq<bool>, key: string, t: real, wanted: real, j: nat)
    requires |calls| == |answers| && j < |calls|
  {
    Admitted(key, calls[j..], answers[j..]) as real + wanted <= cfg.Capacity() + Flow(cfg, t - calls[j].at)
  }

  ghost predicate Affordable(cfg: Config, calls: seq<Call>, answers: seq<bool>, key: string, t: real, wanted: real)
    requires |calls| == |answers|
  {
    forall j :: 0 <= j < |calls| && calls[j].key == key ==> StretchFits(cfg, calls, answers, key, t, wanted, j)
  }

  lemma LevelAfterSpend(cfg: Config, s: State, key: string, u: real, t: real)
    requires u <= t
    ensures var filled := Level(cfg, s, key, u) - (if Spend(cfg, s, key, u).1 then 1.0 else 0.0) + Flow(cfg, t - u);
            Level(cfg, s, key, u) <= cfg.Capacity() ==>
              Level(cfg, Spend(cfg, s, key, u).0, key, t) == if filled > cfg.Capacity() then cfg.Capacity() else filled
  {
    FlowZero(cfg);
  }

  lemma OtherLevels(cfg: Config, s: State, key: string, other: string, u: real, t: real)
    requires other != key
    ensures Level(cfg, Spend(cfg, s, key, u).0, other, t) == Level(cfg, s, other, t)
  {
    hide Fill;
  }

  function Spent(c: Call, answer: bool, key: string): real {
    if c.key == key && answer then 1.0 else 0.0
  }

  lemma EarlierStretch(cfg: Config, calls: seq<Call>, answers: seq<bool>, c: Call, answer: bool, key: string, t: real, wanted: real, j: nat)
    requires |calls| == |answers| && j < |calls|
    ensures StretchFits(cfg, calls + [c], answers + [answer], key, t, wanted, j)
       <==> StretchFits(cfg, calls, answers, key, c.at, wanted + Spent(c, answer, key) - Flow(cfg, t - c.at), j)
  {
    hide Flow, Admitted;
    assert (calls + [c])[j..] == calls[j..] + [c] && (answers + [answer])[j..] == answers[j..] + [answer];
    AdmittedAppend(key, calls[j..], answers[j..], c, answer);
    FlowAdds(cfg, c.at - calls[j].at, t - c.at);
    assert (c.at - calls[j].at) + (t - c.at) == t - calls[j].at;
  }

  lemma LastStretch(cfg: Config, calls: seq<Call>, answers: seq<bool>, c: Call, answer: bool, key: string, t: real, wanted: real)
    requires |calls| == |answers|
    ensures StretchFits(cfg, calls + [c], answers + [answer], key, t, wanted, |calls|)
       <==> Spent(c, answer, key) + wanted <= cfg.Capacity() + Flow(cfg, t - c.at)
  {
    hide Flow, Admitted;
    assert (calls + [c])[|calls|..] == [] + [c] && (answers + [answer])[|calls|..] == [] + [answer];
    AdmittedAppend(key, [], [], c, answer);
    NobodyAdmitted(key);
  }

  lemma AffordableOne(cfg: Config, calls: seq<Call>, answers: seq<bool>, c: Call, answer: bool, key: string, t: real, wanted: real)
    requires |calls| == |answers|
    ensures Affordable(cfg, calls + [c], answers + [answer], key, t, wanted)
            <==> Affordable(cfg, calls, answers, key, c.at, wanted + Spent(c, answer, key) - Flow(cfg, t - c.at))
                 && (c.key == key ==> Spent(c, answer, key) + wanted <= cfg.Capacity() + Flow(cfg, t - c.at))
  {
    hide StretchFits, Flow, Spent;
    var longer, more, needed := calls + [c], answers + [answer], wanted + Spent(c, answer, key) - Flow(cfg, t - c.at);
    LastStretch(cfg, calls, answers, c, answer, key, t, wanted);
    assert longer[|calls|] == c;
    forall j | 0 <= j < |calls|
      ensures longer[j] == calls[j]
      ensures StretchFits(cfg, longer, more, key, t, wanted, j) <==> StretchFits(cfg, calls, answers, key, c.at, needed, j)
    {
      EarlierStretch(cfg, calls, answers, c, answer, key, t, wanted, j);
    }
  }

  lemma NobodyAdmitted(key: string)
    ensures Admitted(key, [], []) == 0
  {
  }

  lemma NondecreasingFront(start: real, calls: seq<Call>)
    requires Nondecreasing(start, calls) && calls != []
    ensures var n := |calls| - 1;
            && Nondecreasing(start, calls[..n]) && start <= calls[n].at
            && forall i :: 0 <= i < n ==> calls[i].at <= calls[n].at
  {
  }

  /** A bucket holds so many tokens exactly when the past leaves room for that many. */
  lemma {:induction false} LevelExactly(cfg: Config, start: real, calls: seq<Call>, key: string, t: real, wanted: real)
    requires cfg.Valid() && Nondecreasing(start, calls) && start <= t && forall i :: 0 <= i < |calls| ==> calls[i].at <= t
    requires wanted <= cfg.Capacity()
    ensures Level(cfg, After(cfg, false, State(map[], start), calls), key, t) >= wanted
       <==> Affordable(cfg, calls, Answers(cfg, false, State(map[], start), calls), key, t, wanted)
    decreases |calls|
  {
    hide Flow, Fill, Spend, AllSane, Level, Affordable;
    var empty := State(map[], start);
    if calls == [] {
      assert Level(cfg, empty, key, t) == cfg.Capacity() by { EmptyLevel(cfg, empty, key, t); }
      assert Affordable(cfg, [], [], key, t, wanted) by { NothingToAfford(cfg, key, t, wanted); }
    } else {
      var n := |calls| - 1;
      var c, front := calls[n], calls[..n];
      var before, answers := After(cfg, false, empty, front), Answers(cfg, false, empty, front);
      NondecreasingFront(start, calls);
      assert calls == front + [c];
      RunConcat(cfg, false, empty, front, [c]);
      ServedOne(cfg, before, c);
      var answer := Spend(cfg, before, c.key, c.at).1;
      AffordableOne(cfg, front, answers, c, answer, key, t, wanted);
      EmptyAgrees(cfg, start);
      RunStaysSane(cfg, empty, start, front, c.at);
      LevelBounds(cfg, before, key, c.at, t);
      LevelBounds(cfg, before, key, c.at, c.at);
      if c.key == key {
        var needed := wanted + (if answer then 1.0 else 0.0) - Flow(cfg, t - c.at);
        LevelAfterSpend(cfg, before, key, c.at, t);
        if needed <= cfg.Capacity() {
          LevelExactly(cfg, start, front, key, c.at, needed);
        }
      } else {
        OtherLevels(cfg, before, c.key, key, c.at, t);
        LevelExactly(cfg, start, front, key, t, wanted);
        AffordableLater(cfg, front, answers, key, c.at, t, wanted);
      }
    }
  }

  lemma AffordableLater(cfg: Config, calls: seq<Call>, answers: seq<bool>, key: string, u: real, t: real, wanted: real)
    requires |calls| == |answers|
    ensures Affordable(cfg, calls, answers, key, t, wanted) <==> Affordable(cfg, calls, answers, key, u, wanted - Flow(cfg, t - u))
  {
    hide Flow, Admitted;
    forall j | 0 <= j < |calls|
      ensures Flow(cfg, t - calls[j].at) == Flow(cfg, u - calls[j].at) + Flow(cfg, t - u)
    {
      FlowAdds(cfg, u - calls[j].at, t - u);
    }
  }

  lemma EmptyLevel(cfg: Config, s: State, key: string, t: real)
    requires s.buckets == map[]
    ensures Level(cfg, s, key, t) == cfg.Capacity()
  {
  }

  lemma NothingToAfford(cfg: Config, key: string, t: real, wanted: real)
    ensures Affordable(cfg, [], [], key, t, wanted)
  {
  }

  lemma ServedOne(cfg: Config, s: State, c: Call)
    ensures After(cfg, false, s, [c]) == Spend(cfg, s, c.key, c.at).0
    ensures Answers(cfg, false, s, [c]) == [Spend(cfg, s, c.key, c.at).1]
  {
    hide Spend;
    assert [c][1..] == [];
  }

  lemma SpendAnswers(cfg: Config, s: State, key: string, t: real)
    ensures Spend(cfg, s, key, t).1 <==> Level(cfg, s, key, t) >= 1.0
  {
  }

  lemma AnswerIs(cfg: Config, s: State, calls: seq<Call>, i: nat)
    requires i < |calls|
    ensures Answers(cfg, false, s, calls)[..i] == Answers(cfg, false, s, calls[..i])
    ensures Answers(cfg, false, s, calls)[i] <==> Level(cfg, After(cfg, false, s, calls[..i]), calls[i].key, calls[i].at) >= 1.0
  {
    hide Spend, Level;
    var rest := calls[i..];
    assert calls == calls[..i] + rest && rest == [calls[i]] + rest[1..];
    RunConcat(cfg, false, s, calls[..i], rest);
    var before := After(cfg, false, s, calls[..i]);
    RunConcat(cfg, false, before, [calls[i]], rest[1..]);
    ServedOne(cfg, before, calls[i]);
    SpendAnswers(cfg, before, calls[i].key, calls[i].at);
  }

  /** One more admission now keeps the stretch since an earlier call within burst + rate * time. */
  ghost predicate Earned(cfg: Config, calls: seq<Call>, answers: seq<bool>, i: nat, j: nat)
    requires |calls| == |answers| && j <= i < |calls|
  {
    Admitted(calls[i].key, calls[j..i], answers[j..i]) as real + 1.0
    <= cfg.burst as real + (calls[i].at - calls[j].at) * cfg.ratePerMinute as real / 60.0
  }

  /**
   The limiter as it runs: a call is admitted exactly when, with it, every stretch since an earlier call
   of the same key stays within burst + rate * time. Nothing else decides, and a refusal costs nothing.
   */
  lemma AdmittedExactly(cfg: Config, start: real, calls: seq<Call>, i: nat)
    requires cfg.Valid() && cfg.burst <= 15 * cfg.ratePerMinute && Nondecreasing(start, calls) && i < |calls|
    ensures var answers := Answers(cfg, true, State(map[], start), calls);
            answers[i] <==> forall j :: 0 <= j < i && calls[j].key == calls[i].key ==> Earned(cfg, calls, answers, i, j)
  {
    hide Answers, After, Level, AllSane, StretchFits, Earned;
    var empty := State(map[], start);
    EmptyAgrees(cfg, start);
    SameAnswers(cfg, empty, empty, start, calls);
    var answers := Answers(cfg, false, empty, calls);
    AnswerIs(cfg, empty, calls, i);
    NondecreasingUntil(start, calls, i);
    LevelExactly(cfg, start, calls[..i], calls[i].key, calls[i].at, 1.0);
    forall j | 0 <= j < i
      ensures StretchFits(cfg, calls[..i], answers[..i], calls[i].key, calls[i].at, 1.0, j) <==> Earned(cfg, calls, answers, i, j)
    {
      SameStretch(cfg, calls, answers, i, j);
    }
  }

  lemma NondecreasingUntil(start: real, calls: seq<Call>, i: nat)
    requires Nondecreasing(start, calls) && i < |calls|
    ensures Nondecreasing(start, calls[..i]) && start <= calls[i].at && forall j :: 0 <= j < i ==> calls[j].at <= calls[i].at
  {
  }

  lemma SameStretch(cfg: Config, calls: seq<Call>, answers: seq<bool>, i: nat, j: nat)
    requires |calls| == |answers| && j < i < |calls|
    ensures StretchFits(cfg, calls[..i], answers[..i], calls[i].key, calls[i].at, 1.0, j) <==> Earned(cfg, calls, answers, i, j)
  {
    hide Admitted;
    assert calls[..i][j..] == calls[j..i] && answers[..i][j..] == answers[j..i];
    PerMinute(cfg, calls[i].at - calls[j].at);
  }

  lemma PerMinute(cfg: Config, span: real)
    ensures Flow(cfg, span) == span * cfg.ratePerMinute as real / 60.0
  {
  }

  /** As long as none of a key's calls was admitted, the next one is. */
  lemma FirstIsAdmitted(cfg: Config, start: real, calls: seq<Call>, i: nat)
    requires cfg.Valid() && cfg.burst <= 15 * cfg.ratePerMinute && Nondecreasing(start, calls) && i < |calls|
    requires forall j :: 0 <= j < i && calls[j].key == calls[i].key ==> !Answers(cfg, true, State(map[], start), calls)[j]
    ensures Answers(cfg, true, State(map[], start), calls)[i]
  {
    hide Answers, Nondecreasing, Earned;
    var answers := Answers(cfg, true, State(map[], start), calls);
    AdmittedExactly(cfg, start, calls, i);
    NondecreasingUntil(start, calls, i);
    forall j | 0 <= j < i && calls[j].key == calls[i].key
      ensures Earned(cfg, calls, answers, i, j)
    {
      NoneAdmitted(calls[i].key, calls[j..i], answers[j..i]);
      EarnedWithNone(cfg, calls, answers, i, j);
    }
  }

  /** A call a whole token after its key's last admission is admitted, whatever was refused in between. */
  lemma EarnedTokenIsGiven(cfg: Config, start: real, calls: seq<Call>, last: nat, i: nat)
    requires cfg.Valid() && cfg.burst <= 15 * cfg.ratePerMinute && Nondecreasing(start, calls) && last < i < |calls|
    requires calls[last].key == calls[i].key && Answers(cfg, true, State(map[], start), calls)[last]
    requires forall j :: last < j < i && calls[j].key == calls[i].key ==> !Answers(cfg, true, State(map[], start), calls)[j]
    requires calls[i].at - calls[last].at >= 60.0 / cfg.ratePerMinute as real
    ensures Answers(cfg, true, State(map[], start), calls)[i]
  {
    hide Answers, Nondecreasing, Earned;
    var answers, key := Answers(cfg, true, State(map[], start), calls), calls[i].key;
    AdmittedExactly(cfg, start, calls, i);
    AdmittedExactly(cfg, start, calls, last);
    NondecreasingUntil(start, calls, i);
    forall j | 0 <= j < i && calls[j].key == key
      ensures Earned(cfg, calls, answers, i, j)
    {
      if j > last {
        NoneAdmitted(key, calls[j..i], answers[j..i]);
        EarnedWithNone(cfg, calls, answers, i, j);
      } else {
        EarnedThrough(cfg, calls, answers, i, j, last);
      }
    }
  }

  lemma {:induction false} NoneAdmitted(key: string, calls: seq<Call>, answers: seq<bool>)
    requires |calls| == |answers| && forall k :: 0 <= k < |calls| ==> calls[k].key == key ==> !answers[k]
    ensures Admitted(key, calls, answers) == 0
    decreases |calls|
  {
    if calls != [] {
      NoneAdmitted(key, calls[1..], answers[1..]);
    }
  }

  lemma EarnedWithNone(cfg: Config, calls: seq<Call>, answers: seq<bool>, i: nat, j: nat)
    requires cfg.Valid() && |calls| == |answers| && j < i < |calls| && calls[j].at <= calls[i].at
    requires Admitted(calls[i].key, calls[j..i], answers[j..i]) == 0
    ensures Earned(cfg, calls, answers, i, j)
  {
    hide Admitted, Flow;
    FlowGrows(cfg, 0.0, calls[i].at - calls[j].at);
    FlowZero(cfg);
    PerMinute(cfg, calls[i].at - calls[j].at);
  }

  /** What was affordable at the last admission is still, now that its token has flowed in again. */
  lemma EarnedThrough(cfg: Config, calls: seq<Call>, answers: seq<bool>, i: nat, j: nat, last: nat)
    requires cfg.Valid() && |calls| == |answers| && j <= last < i < |calls| && calls[last].key == calls[i].key && answers[last]
    requires j < last ==> Earned(cfg, calls, answers, last, j)
    requires forall k :: last < k < i ==> calls[k].key == calls[i].key ==> !answers[k]
    requires calls[i].at - calls[last].at >= 60.0 / cfg.ratePerMinute as real
    ensures Earned(cfg, calls, answers, i, j)
  {
    hide Flow, Admitted;
    var key := calls[i].key;
    assert calls[j..i] == (calls[j..last] + [calls[last]]) + calls[last + 1..i];
    assert answers[j..i] == (answers[j..last] + [true]) + answers[last + 1..i];
    AdmittedAppend(key, calls[j..last], answers[j..last], calls[last], true);
    NoneAdmitted(key, calls[last + 1..i], answers[last + 1..i]);
    AdmittedParts(key, calls[j..last] + [calls[last]], answers[j..last] + [true], calls[last + 1..i], answers[last + 1..i]);
    if j == last {
      assert calls[j..last] == [] && answers[j..last] == [];
      NobodyAdmitted(key);
    }
    TokenFlowsIn(cfg, calls[i].at - calls[last].at);
    PerMinute(cfg, calls[i].at - calls[j].at);
    PerMinute(cfg, calls[last].at - calls[j].at);
    FlowAdds(cfg, calls[last].at - calls[j].at, calls[i].at - calls[last].at);
    assert (calls[last].at - calls[j].at) + (calls[i].at - calls[last].at) == calls[i].at - calls[j].at;
    FlowZero(cfg);
  }

  lemma TokenFlowsIn(cfg: Config, span: real)
    requires cfg.Valid() && span >= 60.0 / cfg.ratePerMinute as real
    ensures Flow(cfg, span) >= 1.0
  {
    hide Flow;
    var rate := cfg.ratePerMinute as real;
    FlowGrows(cfg, 60.0 / rate, span);
    assert 60.0 / rate * rate == 60.0;
    assert Flow(cfg, 60.0 / rate) == 1.0 by {
      PerMinute(cfg, 60.0 / rate);
    }
  }

  lemma {:induction false} AdmittedParts(key: string, a: seq<Call>, p: seq<bool>, b: seq<Call>, q: seq<bool>)
    requires |a| == |p| && |b| == |q|
    ensures Admitted(key, a + b, p + q) == Admitted(key, a, p) + Admitted(key, b, q)
    decreases |a|
  {
    if a == [] {
      assert a + b == b && p + q == q;
    } else {
      AdmittedParts(key, a[1..], p[1..], b, q);
      assert (a + b)[1..] == a[1..] + b && (p + q)[1..] == p[1..] + q;
    }
  }

  /** Every answer of every run is the one its stretches earned. */
  ghost predicate AnswersAsEarned(cfg: Config) {
    forall start: real, calls: seq<Call>, i: nat :: Nondecreasing(start, calls) && i < |calls| ==> AnswerAsEarned(cfg, start, calls, i)
  }

  ghost predicate AnswerAsEarned(cfg: Config, start: real, calls: seq<Call>, i: nat)
    requires i < |calls|
  {
    var answers := Answers(cfg, true, State(map[], start), calls);
    answers[i] <==> forall j :: 0 <= j < i && calls[j].key == calls[i].key ==> Earned(cfg, calls, answers, i, j)
  }

  lemma NotEarned(cfg: Config, calls: seq<Call>, answers: seq<bool>, i: nat, j: nat)
    requires |calls| == |answers| && j <= i < |calls|
    requires Admitted(calls[i].key, calls[j..i], answers[j..i]) as real + 1.0 > cfg.Capacity() + Flow(cfg, calls[i].at - calls[j].at)
    ensures !Earned(cfg, calls, answers, i, j)
  {
    hide Admitted, Flow;
    PerMinute(cfg, calls[i].at - calls[j].at);
  }

  /** The limiter decides by what was earned, exactly when an idle bucket has time to fill up. */
  lemma EarnedExactly(cfg: Config)
    requires cfg.Valid()
    ensures AnswersAsEarned(cfg) <==> cfg.burst <= 15 * cfg.ratePerMinute
  {
    hide Answers, Flow, Nondecreasing, Earned;
    if cfg.burst <= 15 * cfg.ratePerMinute {
      forall start: real, calls: seq<Call>, i: nat | Nondecreasing(start, calls) && i < |calls|
        ensures AnswerAsEarned(cfg, start, calls, i)
      {
        AdmittedExactly(cfg, start, calls, i);
      }
    } else {
      TwoBursts(cfg);
      ExposedAllAdmitted(cfg);
      var calls, i := Exposing(cfg), 2 * cfg.burst - 1;
      var answers := Answers(cfg, true, State(map[], 0.0), calls);
      AllAdmitted("", calls[0..i], answers[0..i]);
      PerMinute(cfg, Wait(cfg));
      NotEarned(cfg, calls, answers, i, 0);
      assert !AnswerAsEarned(cfg, 0.0, calls, i);
    }
  }

  // ----- Refusals cost nothing -------------------------------------------------

  /** The same tokens for every key, now and at any later time. */
  ghost predicate SameLevels(cfg: Config, a: State, b: State, now: real) {
    forall key: string, t: real :: now <= t ==> Level(cfg, a, key, t) == Level(cfg, b, key, t)
  }

  lemma RefusedKeepsLevels(cfg: Config, s: State, key: string, now: real, at: real)
    requires cfg.Valid() && AllSane(cfg, s, now) && now <= at && !Spend(cfg, s, key, at).1
    ensures SameLevels(cfg, Spend(cfg, s, key, at).0, s, at)
  {
    hide Fill, Flow, Spend, Level, AllSane;
    var t := Spend(cfg, s, key, at).0;
    LevelBounds(cfg, s, key, now, at);
    SpendAnswers(cfg, s, key, at);
    forall other: string, later: real | at <= later
      ensures Level(cfg, t, other, later) == Level(cfg, s, other, later)
    {
      if other == key {
        LevelAfterSpend(cfg, s, key, at, later);
        LevelGoesOn(cfg, s, key, now, at, later);
      } else {
        OtherLevels(cfg, s, key, other, at, later);
      }
    }
  }

  /** A bucket that is not full at one time has filled by the flow since then, up to the burst. */
  lemma LevelGoesOn(cfg: Config, s: State, key: string, now: real, at: real, later: real)
    requires cfg.Valid() && AllSane(cfg, s, now) && now <= at <= later && Level(cfg, s, key, at) < 1.0
    ensures var filled := Level(cfg, s, key, at) + Flow(cfg, later - at);
            Level(cfg, s, key, later) == if filled > cfg.Capacity() then cfg.Capacity() else filled
  {
    hide Flow;
    assert key in s.buckets;
    var b := s.buckets[key];
    FlowAdds(cfg, at - b.last, later - at);
    assert (at - b.last) + (later - at) == later - b.last;
    FlowZero(cfg);
  }

  lemma SpendSameLevels(cfg: Config, a: State, b: State, key: string, now: real, at: real)
    requires SameLevels(cfg, a, b, now) && now <= at
    ensures Spend(cfg, a, key, at).1 == Spend(cfg, b, key, at).1
    ensures SameLevels(cfg, Spend(cfg, a, key, at).0, Spend(cfg, b, key, at).0, at)
  {
    hide Fill;
    var s, t := Spend(cfg, a, key, at).0, Spend(cfg, b, key, at).0;
    assert Level(cfg, a, key, at) == Level(cfg, b, key, at);
    forall other: string, later: real | at <= later
      ensures Level(cfg, s, other, later) == Level(cfg, t, other, later)
    {
      if other != key {
        assert Level(cfg, a, other, later) == Level(cfg, b, other, later);
      }
    }
  }

  lemma {:induction false} SameLevelsSameAnswers(cfg: Config, a: State, b: State, now: real, calls: seq<Call>)
    requires SameLevels(cfg, a, b, now) && Nondecreasing(now, calls)
    ensures Answers(cfg, false, a, calls) == Answers(cfg, false, b, calls)
    decreases |calls|
  {
    hide SameLevels, Spend;
    if calls != [] {
      var key, at := calls[0].key, calls[0].at;
      SpendSameLevels(cfg, a, b, key, now, at);
      SameLevelsSameAnswers(cfg, Spend(cfg, a, key, at).0, Spend(cfg, b, key, at).0, at, calls[1..]);
    }
  }

  lemma NondecreasingAround(start: real, before: seq<Call>, c: Call, after: seq<Call>)
    requires Nondecreasing(start, before + [c] + after)
    ensures Nondecreasing(start, before) && start <= c.at && Nondecreasing(c.at, after)
    ensures forall i :: 0 <= i < |before| ==> before[i].at <= c.at
  {
    hide Nondecreasing;
    var from := [c] + after;
    assert before + [c] + after == before + from && from[0] == c;
    NondecreasingParts(start, before, from);
    NondecreasingTail(c.at, from);
    assert from[1..] == after;
  }

  lemma NondecreasingTail(start: real, calls: seq<Call>)
    requires Nondecreasing(start, calls) && calls != []
    ensures Nondecreasing(start, calls[1..])
  {
  }

  lemma NondecreasingWithout(start: real, before: seq<Call>, c: Call, after: seq<Call>)
    requires Nondecreasing(start, before + [c] + after)
    ensures Nondecreasing(start, before + after)
  {
    var calls, rest, n := before + [c] + after, before + after, |before|;
    forall i | 0 <= i < |rest|
      ensures rest[i] == calls[if i < n then i else i + 1]
    {
    }
    forall i, j | 0 <= i < j < |rest|
      ensures rest[i].at <= rest[j].at
    {
      InOrder(start, calls, if i < n then i else i + 1, if j < n then j else j + 1);
    }
  }

  lemma InOrder(start: real, calls: seq<Call>, i: nat, j: nat)
    requires Nondecreasing(start, calls) && i < j < |calls|
    ensures calls[i].at <= calls[j].at
  {
  }

  /** Without a refused call, every other call gets the same answer. */
  lemma RefusalCostsNothing(cfg: Config, start: real, before: seq<Call>, c: Call, after: seq<Call>)
    requires cfg.Valid() && cfg.burst <= 15 * cfg.ratePerMinute && Nondecreasing(start, before + [c] + after)
    requires !Answers(cfg, true, State(map[], start), before + [c] + after)[|before|]
    ensures var answers := Answers(cfg, true, State(map[], start), before + [c] + after);
            Answers(cfg, true, State(map[], start), before + after) == answers[..|before|] + answers[|before| + 1..]
  {
    hide Answers, After, Spend, AllSane, SameLevels, Nondecreasing;
    var empty := State(map[], start);
    EmptyAgrees(cfg, start);
    NondecreasingAround(start, before, c, after);
    NondecreasingWithout(start, before, c, after);
    SameAnswers(cfg, empty, empty, start, before + [c] + after);
    SameAnswers(cfg, empty, empty, start, before + after);
    RunConcat(cfg, false, empty, before + [c], after);
    RunConcat(cfg, false, empty, before, [c]);
    RunConcat(cfg, false, empty, before, after);
    var s := After(cfg, false, empty, before);
    ServedOne(cfg, s, c);
    RunStaysSane(cfg, empty, start, before, c.at);
    RefusedKeepsLevels(cfg, s, c.key, c.at, c.at);
    SameLevelsSameAnswers(cfg, Spend(cfg, s, c.key, c.at).0, s, c.at, after);
  }
}
