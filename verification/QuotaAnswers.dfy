/**
 The answers of the limiters told from the calls themselves: how many of them each limit counts,
 and since when the breaker counts failures.
 */
module QuotaAnswers {
  import opened Wrappers
  import Q = UsageQuota
  import R = RuntimeQuota
  import Text

  lemma OneMoreIndex(before: set<int>, after: set<int>, n: int, counted: bool)
    requires n !in before && after == if counted then before + {n} else before
    ensures |after| == |before| + if counted then 1 else 0
  {
  }

  // ----- The agent's usage gate ------------------------------------------------

  function LastMinute(history: seq<Q.Entry>, user: string, at: real): set<int> {
    set i | 0 <= i < |history| && history[i].user == user && history[i].at >= at - 60.0
  }

  function OfUser(history: seq<Q.Entry>, user: string, day: int): set<int> {
    set i | 0 <= i < |history| && history[i].user == user && history[i].day == day
  }

  function OfDay(history: seq<Q.Entry>, day: int): set<int> {
    set i | 0 <= i < |history| && history[i].day == day
  }

  lemma {:induction false} MinuteCounted(history: seq<Q.Entry>, user: string, at: real)
    ensures Q.Since(Q.Times(history, user), at - 60.0) == |LastMinute(history, user, at)|
    decreases |history|
  {
    hide Q.Since;
    if history == [] {
      Q.SinceNothing(at - 60.0);
    } else {
      var n := |history| - 1;
      var e, before := history[n], Q.Times(history[..n], user);
      MinuteCounted(history[..n], user, at);
      OneMoreIndex(LastMinute(history[..n], user, at), LastMinute(history, user, at), n, e.user == user && e.at >= at - 60.0);
      if e.user == user {
        Q.SinceAppend(before, e.at, at - 60.0);
      } else {
        assert Q.Times(history, user) == before;
      }
    }
  }

  lemma OneMoreOfUser(history: seq<Q.Entry>, user: string, day: int)
    requires history != []
    ensures var n := |history| - 1;
            |OfUser(history, user, day)| == |OfUser(history[..n], user, day)| + if history[n].user == user && history[n].day == day then 1 else 0
  {
    var n := |history| - 1;
    var before, after := OfUser(history[..n], user, day), OfUser(history, user, day);
    assert forall i :: 0 <= i < n ==> history[..n][i] == history[i];
    assert forall i :: i in after <==> i in before || (i == n && history[n].user == user && history[n].day == day);
    OneMoreIndex(before, after, n, history[n].user == user && history[n].day == day);
  }

  lemma OneMoreOfDay(history: seq<Q.Entry>, day: int)
    requires history != []
    ensures var n := |history| - 1; |OfDay(history, day)| == |OfDay(history[..n], day)| + if history[n].day == day then 1 else 0
  {
    var n := |history| - 1;
    var before, after := OfDay(history[..n], day), OfDay(history, day);
    assert forall i :: 0 <= i < n ==> history[..n][i] == history[i];
    assert forall i :: i in after <==> i in before || (i == n && history[n].day == day);
    OneMoreIndex(before, after, n, history[n].day == day);
  }

  lemma {:induction false} DaysCounted(history: seq<Q.Entry>, user: string, day: int)
    ensures Q.ByUser(history, user, day) == |OfUser(history, user, day)| && Q.OnDay(history, day) == |OfDay(history, day)|
    decreases |history|
  {
    hide OfUser, OfDay;
    if history == [] {
      NothingOf(user, day);
    } else {
      DaysCounted(history[..|history| - 1], user, day);
      OneMoreOfUser(history, user, day);
      OneMoreOfDay(history, day);
    }
  }

  lemma NothingOf(user: string, day: int)
    ensures OfUser([], user, day) == {} && OfDay([], day) == {}
  {
  }

  /** The limit is on, and so many calls have already been admitted. */
  predicate UsedUp(limit: int, calls: nat) { limit > 0 && calls >= limit }

  /** The gate refuses by the first limit that is used up, and admits every other call. */
  lemma RefusesExactly(limits: Q.Limits, history: seq<Q.Entry>, e: Q.Entry)
    ensures var minute := UsedUp(limits.perMinute, |LastMinute(history, e.user, e.at)|);
            var user := UsedUp(limits.perUserDaily, |OfUser(history, e.user, e.day)|);
            var day := UsedUp(limits.globalDaily, |OfDay(history, e.day)|);
            Q.Refuses(limits, history, e)
            == if minute then Some(Q.PerMinute) else if user then Some(Q.PerUserDaily) else if day then Some(Q.GlobalDaily) else None
  {
    hide Q.Since, Q.Times, LastMinute, OfUser, OfDay;
    MinuteCounted(history, e.user, e.at);
    DaysCounted(history, e.user, e.day);
  }

  // ----- The runtime's three counters ------------------------------------------

  function UserCalls(history: seq<R.Entry>, user: string, day: int): set<int> {
    set i | 0 <= i < |history| && history[i].user == user && history[i].day == day
  }

  function OrgCalls(history: seq<R.Entry>, org: string, day: int): set<int> {
    set i | 0 <= i < |history| && history[i].org == org && history[i].day == day
  }

  function AllCalls(history: seq<R.Entry>, day: int): set<int> {
    set i | 0 <= i < |history| && history[i].day == day
  }

  lemma OneMoreUserCall(history: seq<R.Entry>, user: string, day: int)
    requires history != []
    ensures var n := |history| - 1;
            |UserCalls(history, user, day)| == |UserCalls(history[..n], user, day)| + if history[n].user == user && history[n].day == day then 1 else 0
  {
    var n := |history| - 1;
    var before, after := UserCalls(history[..n], user, day), UserCalls(history, user, day);
    assert forall i :: 0 <= i < n ==> history[..n][i] == history[i];
    assert forall i :: i in after <==> i in before || (i == n && history[n].user == user && history[n].day == day);
    OneMoreIndex(before, after, n, history[n].user == user && history[n].day == day);
  }

  lemma OneMoreOrgCall(history: seq<R.Entry>, org: string, day: int)
    requires history != []
    ensures var n := |history| - 1;
            |OrgCalls(history, org, day)| == |OrgCalls(history[..n], org, day)| + if history[n].org == org && history[n].day == day then 1 else 0
  {
    var n := |history| - 1;
    var before, after := OrgCalls(history[..n], org, day), OrgCalls(history, org, day);
    assert forall i :: 0 <= i < n ==> history[..n][i] == history[i];
    assert forall i :: i in after <==> i in before || (i == n && history[n].org == org && history[n].day == day);
    OneMoreIndex(before, after, n, history[n].org == org && history[n].day == day);
  }

  lemma OneMoreCall(history: seq<R.Entry>, day: int)
    requires history != []
    ensures var n := |history| - 1; |AllCalls(history, day)| == |AllCalls(history[..n], day)| + if history[n].day == day then 1 else 0
  {
    var n := |history| - 1;
    var before, after := AllCalls(history[..n], day), AllCalls(history, day);
    assert forall i :: 0 <= i < n ==> history[..n][i] == history[i];
    assert forall i :: i in after <==> i in before || (i == n && history[n].day == day);
    OneMoreIndex(before, after, n, history[n].day == day);
  }

  lemma TouchesExactly(e: R.Entry, user: string, org: string)
    ensures R.Touches(e, R.UserKey(user)) <==> e.user == user
    ensures R.Touches(e, R.OrgKey(org)) <==> e.org == org
    ensures R.Touches(e, R.GLOBAL_KEY)
  {
    hide R.UserKey, R.OrgKey;
    R.KeysApart(user, e.org);
    R.KeysApart(e.user, org);
    R.KeysInjective(user, e.user);
    R.KeysInjective(org, e.org);
  }

  lemma {:induction false} CallsCounted(history: seq<R.Entry>, user: string, org: string, day: int)
    ensures R.Count(history, R.UserKey(user), day) == |UserCalls(history, user, day)|
    ensures R.Count(history, R.OrgKey(org), day) == |OrgCalls(history, org, day)|
    ensures R.Count(history, R.GLOBAL_KEY, day) == |AllCalls(history, day)|
    decreases |history|
  {
    hide R.UserKey, R.OrgKey, R.Touches, UserCalls, OrgCalls, AllCalls;
    if history == [] {
      NoCalls(user, org, day);
    } else {
      var n := |history| - 1;
      CallsCounted(history[..n], user, org, day);
      TouchesExactly(history[n], user, org);
      OneMoreUserCall(history, user, day);
      OneMoreOrgCall(history, org, day);
      OneMoreCall(history, day);
    }
  }

  lemma NoCalls(user: string, org: string, day: int)
    ensures UserCalls([], user, day) == {} && OrgCalls([], org, day) == {} && AllCalls([], day) == {}
  {
  }

  function AtLeast(a: int, b: int): int { if a < b then b else a }

  /** A call is permitted exactly while the user's, the organisation's and everybody's calls of the day are below their limits. */
  lemma PermitsExactly(limits: R.Limits, history: seq<R.Entry>, e: R.Entry)
    ensures R.Permits(limits, history, e)
       <==> && limits.daily > 0
            && |UserCalls(history, e.user, e.day)| < limits.daily
            && |OrgCalls(history, e.org, e.day)| < (if limits.org > 0 then limits.org else AtLeast(5 * limits.daily, 50))
            && |AllCalls(history, e.day)| < (if limits.global > 0 then limits.global else AtLeast(10 * limits.daily, 100))
  {
    hide R.Count, UserCalls, OrgCalls, AllCalls;
    CallsCounted(history, e.user, e.org, e.day);
  }

  /** Callers who do not say who they are are counted as one. */
  lemma NamedExactly(id: string)
    ensures R.Named(id) == if Text.Blank(id) then "unknown" else id
  {
    Text.TrimEmptyIffBlank(id);
  }

  // ----- The circuit breaker ---------------------------------------------------

  /** Failures are forgotten: by a success, or by a question that comes when the pause of an open circuit is over. */
  predicate Forgets(cfg: R.BreakerConfig, signals: seq<R.Signal>, k: nat)
    requires k < |signals|
  {
    match signals[k]
    case Success => true
    case Failure(_) => false
    case Ask(at) => !Open(cfg, R.Streak(cfg, signals[..k]), at) && |R.Streak(cfg, signals[..k])| >= cfg.threshold
  }

  /** Enough failures in a row, and the last of them no longer ago than the pause: a minute where none is configured. */
  predicate Open(cfg: R.BreakerConfig, failures: seq<nat>, now: nat) {
    && failures != [] && |failures| >= cfg.threshold
    && now < failures[|failures| - 1] + if cfg.cooldown > 0 then cfg.cooldown else 60_000_000_000
  }

  /** Nothing has been forgotten from j on, and everything before it has. */
  predicate CountedSince(cfg: R.BreakerConfig, signals: seq<R.Signal>, j: nat) {
    && j <= |signals| && (j == 0 || Forgets(cfg, signals, j - 1))
    && forall k :: j <= k < |signals| ==> !Forgets(cfg, signals, k)
  }

  lemma FailuresAppend(signals: seq<R.Signal>, s: R.Signal)
    ensures R.Failures(signals + [s]) == R.Failures(signals) + if s.Failure? then [s.at] else []
  {
    assert (signals + [s])[..|signals|] == signals;
  }

  lemma ForgetsNow(cfg: R.BreakerConfig, signals: seq<R.Signal>)
    requires cfg.threshold > 0 && signals != []
    ensures var n := |signals| - 1;
            R.Streak(cfg, signals) == if Forgets(cfg, signals, n) then []
                                      else R.Streak(cfg, signals[..n]) + if signals[n].Failure? then [signals[n].at] else []
  {
    hide R.Streak;
    var n := |signals| - 1;
    assert R.Streak(cfg, signals) == R.NextStreak(cfg, R.Streak(cfg, signals[..n]), signals[n]) by { StreakNow(cfg, signals); }
    match signals[n]
    case Success =>
    case Failure(at) =>
    case Ask(at) =>
  }

  lemma StreakNow(cfg: R.BreakerConfig, signals: seq<R.Signal>)
    requires signals != []
    ensures R.Streak(cfg, signals) == R.NextStreak(cfg, R.Streak(cfg, signals[..|signals| - 1]), signals[|signals| - 1])
  {
  }

  lemma ForgetsEarlier(cfg: R.BreakerConfig, signals: seq<R.Signal>, n: nat, k: nat)
    requires k < n <= |signals|
    ensures Forgets(cfg, signals[..n], k) <==> Forgets(cfg, signals, k)
  {
    assert signals[..n][..k] == signals[..k];
  }

  /** What the breaker counts are exactly the failures since it last forgot. */
  lemma {:induction false} StreakSince(cfg: R.BreakerConfig, signals: seq<R.Signal>, j: nat)
    requires cfg.threshold > 0 && CountedSince(cfg, signals, j)
    ensures R.Streak(cfg, signals) == R.Failures(signals[j..])
    decreases |signals|
  {
    hide Forgets, R.Streak, R.Failures;
    if signals == [] {
      NoSignals(cfg);
    } else {
      var n := |signals| - 1;
      ForgetsNow(cfg, signals);
      if j == |signals| {
        assert signals[j..] == [];
        NoSignals(cfg);
      } else {
        forall k | 0 <= k < n
          ensures Forgets(cfg, signals[..n], k) <==> Forgets(cfg, signals, k)
        {
          ForgetsEarlier(cfg, signals, n, k);
        }
        StreakSince(cfg, signals[..n], j);
        assert signals[j..] == signals[..n][j..] + [signals[n]];
        FailuresAppend(signals[..n][j..], signals[n]);
      }
    }
  }

  lemma NoSignals(cfg: R.BreakerConfig)
    ensures R.Streak(cfg, []) == [] && R.Failures([]) == []
  {
  }

  lemma {:induction false} CountedFrom(cfg: R.BreakerConfig, signals: seq<R.Signal>) returns (j: nat)
    ensures CountedSince(cfg, signals, j)
    decreases |signals|
  {
    hide Forgets;
    if signals == [] {
      j := 0;
    } else {
      var n := |signals| - 1;
      if Forgets(cfg, signals, n) {
        j := n + 1;
      } else {
        j := CountedFrom(cfg, signals[..n]);
        forall k | 0 <= k < n
          ensures Forgets(cfg, signals[..n], k) <==> Forgets(cfg, signals, k)
        {
          ForgetsEarlier(cfg, signals, n, k);
        }
      }
    }
  }

  /** A model call is refused exactly while the failures since the last time they were forgotten keep the circuit open. */
  lemma BreakerRefusesExactly(cfg: R.BreakerConfig, signals: seq<R.Signal>, now: nat)
    ensures !R.Allowed(cfg, R.Streak(cfg, signals), now)
       <==> cfg.threshold > 0 && exists j :: 0 <= j <= |signals| && CountedSince(cfg, signals, j) && Open(cfg, R.Failures(signals[j..]), now)
  {
    hide CountedSince, R.Streak, R.Failures;
    if cfg.threshold > 0 {
      forall j | 0 <= j <= |signals| && CountedSince(cfg, signals, j)
        ensures R.Streak(cfg, signals) == R.Failures(signals[j..])
      {
        StreakSince(cfg, signals, j);
      }
      var j := CountedFrom(cfg, signals);
      CountedInRange(cfg, signals, j);
    }
  }

  lemma CountedInRange(cfg: R.BreakerConfig, signals: seq<R.Signal>, j: nat)
    requires CountedSince(cfg, signals, j)
    ensures j <= |signals|
  {
  }
}
