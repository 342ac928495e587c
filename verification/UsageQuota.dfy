/**
 The agent's usage gate: a sliding window of call times per user and two daily counters. It
 is proved to decide as if it kept every admitted call and counted them all each time.
 */
module UsageQuota {
  import opened Sums
  import opened Wrappers

  /** A limit that is not positive switches its layer off. */
  datatype Limits = Limits(perMinute: int, perUserDaily: int, globalDaily: int)

  datatype Layer = PerMinute | PerUserDaily | GlobalDaily

  datatype Entry = Entry(user: string, at: real, day: int)

  const WINDOW := 60.0

  // ----- The rule on the full history ------------------------------------------

  /** The times of one user's admitted calls, in order. */
  function Times(history: seq<Entry>, user: string): seq<real> {
    if history == [] then []
    else
      var n := |history| - 1;
      Times(history[..n], user) + if history[n].user == user then [history[n].at] else []
  }

  function Since(times: seq<real>, cutoff: real): nat {
    if times == [] then 0
    else
      var n := |times| - 1;
      Since(times[..n], cutoff) + if times[n] >= cutoff then 1 else 0
  }

  function OnDay(history: seq<Entry>, day: int): nat {
    if history == [] then 0
    else
      var n := |history| - 1;
      OnDay(history[..n], day) + if history[n].day == day then 1 else 0
  }

  function ByUser(history: seq<Entry>, user: string, day: int): nat {
    if history == [] then 0
    else
      var n := |history| - 1;
      ByUser(history[..n], user, day) + if history[n].user == user && history[n].day == day then 1 else 0
  }

  /** Which layer refuses a call, when one does; the layers are asked in this order. */
  function Refuses(limits: Limits, history: seq<Entry>, e: Entry): Option<Layer> {
    if limits.perMinute > 0 && Since(Times(history, e.user), e.at - WINDOW) >= limits.perMinute then Some(PerMinute)
    else if limits.perUserDaily > 0 && ByUser(history, e.user, e.day) >= limits.perUserDaily then Some(PerUserDaily)
    else if limits.globalDaily > 0 && OnDay(history, e.day) >= limits.globalDaily then Some(GlobalDaily)
    else None
  }

  predicate Ordered(times: seq<real>) {
    forall i, j :: 0 <= i < j < |times| ==> times[i] <= times[j]
  }

  lemma HistoryAppend(history: seq<Entry>, e: Entry, user: string, day: int)
    ensures Times(history + [e], user) == Times(history, user) + if e.user == user then [e.at] else []
    ensures OnDay(history + [e], day) == OnDay(history, day) + if e.day == day then 1 else 0
    ensures ByUser(history + [e], user, day) == ByUser(history, user, day) + if e.user == user && e.day == day then 1 else 0
  {
    assert (history + [e])[..|history|] == history;
  }

  /** In ordered times, those since a cutoff are the ones after a prefix that is older. */
  lemma {:induction false} SinceIsSuffix(times: seq<real>, dropped: nat, cutoff: real)
    requires Ordered(times) && dropped <= |times|
    requires forall i :: 0 <= i < dropped ==> times[i] < cutoff
    requires dropped < |times| ==> times[dropped] >= cutoff
    ensures Since(times, cutoff) == |times| - dropped
    decreases |times|
  {
    if times != [] {
      var n := |times| - 1;
      if dropped == |times| {
        NoneSince(times, cutoff);
      } else if dropped == n {
        NoneSince(times[..n], cutoff);
      } else {
        SinceIsSuffix(times[..n], dropped, cutoff);
      }
    }
  }

  lemma {:induction false} NoneSince(times: seq<real>, cutoff: real)
    requires forall i :: 0 <= i < |times| ==> times[i] < cutoff
    ensures Since(times, cutoff) == 0
    decreases |times|
  {
    if times != [] {
      NoneSince(times[..|times| - 1], cutoff);
    }
  }

  /** A history the gate can have admitted: every call passed the rule when it was made. */
  predicate Admitted(limits: Limits, history: seq<Entry>) {
    && (forall i :: 0 <= i < |history| ==> Refuses(limits, history[..i], history[i]) == None)
    && (forall i, j :: 0 <= i < j < |history| ==> history[i].at <= history[j].at)
  }

  lemma AdmittedAppend(limits: Limits, history: seq<Entry>, e: Entry)
    requires Admitted(limits, history) && Refuses(limits, history, e) == None
    requires forall i :: 0 <= i < |history| ==> history[i].at <= e.at
    ensures Admitted(limits, history + [e])
  {
    hide Refuses;
    var longer := history + [e];
    forall i | 0 <= i < |longer|
      ensures Refuses(limits, longer[..i], longer[i]) == None
    {
      assert longer[..i] == history[..i];
      assert i == |history| ==> history[..i] == history;
    }
  }

  // ----- The gate --------------------------------------------------------------

  /** A window holds the end of the user's times; what it let go is too old to count again. */
  predicate Holds(window: seq<real>, times: seq<real>, latest: real) {
    && |window| <= |times| && window == times[|times| - |window|..]
    && forall i :: 0 <= i < |times| - |window| ==> times[i] < latest - WINDOW
  }

  function Stored(windows: map<string, seq<real>>, user: string): seq<real> {
    if user in windows then windows[user] else []
  }

  ghost predicate UserHolds(windows: map<string, seq<real>>, history: seq<Entry>, latest: real, user: string) {
    var times := Times(history, user);
    && Holds(Stored(windows, user), times, latest)
    && Ordered(times)
    && forall i :: 0 <= i < |times| ==> times[i] <= latest
  }

  ghost predicate WindowsHold(windows: map<string, seq<real>>, history: seq<Entry>, latest: real) {
    forall user: string :: UserHolds(windows, history, latest, user)
  }

  function UserCount(userDaily: map<(string, int), nat>, user: string, day: int): nat {
    if (user, day) in userDaily then userDaily[(user, day)] else 0
  }

  function DayCount(globalDaily: map<int, nat>, day: int): nat {
    if day in globalDaily then globalDaily[day] else 0
  }

  ghost predicate CountersHold(userDaily: map<(string, int), nat>, globalDaily: map<int, nat>, history: seq<Entry>) {
    && (forall user: string, day: int :: ByUser(history, user, day) == UserCount(userDaily, user, day))
    && (forall day: int :: OnDay(history, day) == DayCount(globalDaily, day))
  }

  lemma LaterHolds(windows: map<string, seq<real>>, history: seq<Entry>, latest: real, now: real)
    requires WindowsHold(windows, history, latest) && latest <= now
    ensures WindowsHold(windows, history, now)
  {
    hide Times, Stored, Ordered;
    forall user: string
      ensures UserHolds(windows, history, now, user)
    {
      assert UserHolds(windows, history, latest, user);
    }
  }

  lemma ShrunkHolds(windows: map<string, seq<real>>, history: seq<Entry>, user: string, window: seq<real>, now: real)
    requires WindowsHold(windows, history, now) && Holds(window, Times(history, user), now)
    ensures WindowsHold(windows[user := window], history, now)
  {
    hide Times, Holds, Ordered;
    var shrunk := windows[user := window];
    forall other: string
      ensures UserHolds(shrunk, history, now, other)
    {
      assert UserHolds(windows, history, now, other);
    }
  }

  lemma BookedHolds(windows: map<string, seq<real>>, history: seq<Entry>, e: Entry)
    requires WindowsHold(windows, history, e.at)
    ensures WindowsHold(windows[e.user := Stored(windows, e.user) + [e.at]], history + [e], e.at)
  {
    hide Times, Holds, Ordered;
    var booked, longer := windows[e.user := Stored(windows, e.user) + [e.at]], history + [e];
    forall user: string
      ensures UserHolds(booked, longer, e.at, user)
    {
      assert UserHolds(windows, history, e.at, user);
      HistoryAppend(history, e, user, e.day);
      if user == e.user {
        AppendHolds(Stored(windows, user), Times(history, user), e.at);
      } else {
        assert Times(history, user) + [] == Times(history, user);
      }
    }
  }

  lemma BookedCounts(userDaily: map<(string, int), nat>, globalDaily: map<int, nat>, history: seq<Entry>, e: Entry)
    requires CountersHold(userDaily, globalDaily, history)
    ensures CountersHold(userDaily[(e.user, e.day) := UserCount(userDaily, e.user, e.day) + 1],
                         globalDaily[e.day := DayCount(globalDaily, e.day) + 1], history + [e])
  {
    hide ByUser, OnDay;
    var users := userDaily[(e.user, e.day) := UserCount(userDaily, e.user, e.day) + 1];
    var days := globalDaily[e.day := DayCount(globalDaily, e.day) + 1];
    forall user: string, day: int
      ensures ByUser(history + [e], user, day) == UserCount(users, user, day)
    {
      HistoryAppend(history, e, user, day);
      assert (user, day) == (e.user, e.day) <==> user == e.user && day == e.day;
    }
    forall day: int
      ensures OnDay(history + [e], day) == DayCount(days, day)
    {
      HistoryAppend(history, e, e.user, day);
    }
  }

  class UsageLimiter {
    const limits: Limits
    var windows: map<string, seq<real>>
    var userDaily: map<(string, int), nat>
    var globalDaily: map<int, nat>
    ghost var history: seq<Entry>
    ghost var latest: real

    ghost predicate Valid()
      reads this
    {
      && WindowsHold(windows, history, latest) && CountersHold(userDaily, globalDaily, history)
      && Admitted(limits, history) && forall i :: 0 <= i < |history| ==> history[i].at <= latest
    }

    constructor (limits: Limits, now: real)
      ensures Valid() && this.limits == limits && history == [] && latest == now
    {
      this.limits := limits;
      windows, userDaily, globalDaily := map[], map[], map[];
      history, latest := [], now;
    }

    /** Drops the times that left the window; what remains are the calls of the last minute. */
    method Expire(user: string, now: real) returns (window: seq<real>)
      requires WindowsHold(windows, history, latest) && latest <= now
      modifies this`windows, this`latest
      ensures WindowsHold(windows, history, latest) && latest == now
      ensures |window| == Since(Times(history, user), now - WINDOW)
    {
      hide Times, Since, WindowsHold;
      LaterHolds(windows, history, latest, now);
      latest := now;
      ghost var times := Times(history, user);
      OneUserHolds(windows, history, now, user);
      window := Stored(windows, user);
      while window != [] && window[0] < now - WINDOW
        invariant Holds(window, times, now)
        decreases |window|
      {
        window := window[1..];
      }
      SinceIsSuffix(times, |times| - |window|, now - WINDOW);
      ShrunkHolds(windows, history, user, window, now);
      windows := windows[user := window];
    }

    /** Admits and books a call, or names the layer that refuses it and books nothing. */
    method Check(user: string, now: real, today: int) returns (refused: Option<Layer>)
      requires Valid() && latest <= now
      modifies this
      ensures Valid() && latest == now
      ensures refused == Refuses(limits, old(history), Entry(user, now, today))
      ensures history == if refused.None? then old(history) + [Entry(user, now, today)] else old(history)
    {
      hide WindowsHold, Times, Since, ByUser, OnDay, UserCount, DayCount, Admitted, CountersHold;
      if limits.perMinute > 0 {
        var window := Expire(user, now);
        if |window| >= limits.perMinute {
          return Some(PerMinute);
        }
      } else {
        LaterHolds(windows, history, latest, now);
        latest := now;
      }
      CountsAgree(userDaily, globalDaily, history, user, today);
      if limits.perUserDaily > 0 {
        if UserCount(userDaily, user, today) >= limits.perUserDaily {
          return Some(PerUserDaily);
        }
      }
      if limits.globalDaily > 0 {
        if DayCount(globalDaily, today) >= limits.globalDaily {
          return Some(GlobalDaily);
        }
      }
      AdmittedAppend(limits, history, Entry(user, now, today));
      BookedHolds(windows, history, Entry(user, now, today));
      BookedCounts(userDaily, globalDaily, history, Entry(user, now, today));
      windows := windows[user := Stored(windows, user) + [now]];
      userDaily := userDaily[(user, today) := UserCount(userDaily, user, today) + 1];
      globalDaily := globalDaily[today := DayCount(globalDaily, today) + 1];
      history := history + [Entry(user, now, today)];
      refused := None;
    }
  }

  lemma CountsAgree(userDaily: map<(string, int), nat>, globalDaily: map<int, nat>, history: seq<Entry>, user: string, day: int)
    requires CountersHold(userDaily, globalDaily, history)
    ensures ByUser(history, user, day) == UserCount(userDaily, user, day) && OnDay(history, day) == DayCount(globalDaily, day)
  {
  }

  lemma OneUserHolds(windows: map<string, seq<real>>, history: seq<Entry>, latest: real, user: string)
    requires WindowsHold(windows, history, latest)
    ensures Holds(Stored(windows, user), Times(history, user), latest) && Ordered(Times(history, user))
  {
    hide Holds, Times, Stored, Ordered;
    assert UserHolds(windows, history, latest, user);
  }

  lemma AppendHolds(window: seq<real>, times: seq<real>, now: real)
    requires Holds(window, times, now) && Ordered(times) && forall i :: 0 <= i < |times| ==> times[i] <= now
    ensures Holds(window + [now], times + [now], now) && Ordered(times + [now])
  {
  }

  // ----- What the gate guarantees ----------------------------------------------

  function Within(history: seq<Entry>, user: string, a: real, b: real): nat {
    if history == [] then 0
    else
      var n := |history| - 1;
      Within(history[..n], user, a, b) + if history[n].user == user && a <= history[n].at <= b then 1 else 0
  }

  lemma {:induction false} WithinSince(history: seq<Entry>, user: string, a: real, b: real, cutoff: real)
    requires cutoff <= a
    ensures Within(history, user, a, b) <= Since(Times(history, user), cutoff)
    decreases |history|
  {
    hide Since;
    if history == [] {
      SinceNothing(cutoff);
    } else {
      var n := |history| - 1;
      WithinSince(history[..n], user, a, b, cutoff);
      var before := Times(history[..n], user);
      if history[n].user == user {
        assert Times(history, user) == before + [history[n].at];
        SinceAppend(before, history[n].at, cutoff);
      } else {
        assert Times(history, user) == before;
      }
    }
  }

  lemma SinceNothing(cutoff: real)
    ensures Since([], cutoff) == 0
  {
  }

  lemma SinceAppend(times: seq<real>, at: real, cutoff: real)
    ensures Since(times + [at], cutoff) == Since(times, cutoff) + if at >= cutoff then 1 else 0
  {
    assert (times + [at])[..|times|] == times;
  }

  /** Any sixty seconds, wherever they start, hold at most the permitted calls of one user. */
  lemma {:induction false} MinuteBound(limits: Limits, history: seq<Entry>, user: string, a: real)
    requires limits.perMinute > 0 && Admitted(limits, history)
    ensures Within(history, user, a, a + WINDOW) <= limits.perMinute
    decreases |history|
  {
    hide Since, Times;
    if history != [] {
      var n := |history| - 1;
      var e := history[n];
      AdmittedPrefix(limits, history);
      if e.user == user && a <= e.at <= a + WINDOW {
        WithinSince(history[..n], user, a, a + WINDOW, e.at - WINDOW);
        assert Refuses(limits, history[..n], e) == None;
      } else {
        MinuteBound(limits, history[..n], user, a);
      }
    }
  }

  lemma AdmittedPrefix(limits: Limits, history: seq<Entry>)
    requires Admitted(limits, history) && history != []
    ensures Admitted(limits, history[..|history| - 1])
  {
    var shorter := history[..|history| - 1];
    forall i | 0 <= i < |shorter|
      ensures Refuses(limits, shorter[..i], shorter[i]) == None
    {
      assert shorter[..i] == history[..i] && shorter[i] == history[i];
    }
  }

  lemma {:induction false} DayBounds(limits: Limits, history: seq<Entry>, user: string, day: int)
    requires Admitted(limits, history)
    ensures limits.perUserDaily > 0 ==> ByUser(history, user, day) <= limits.perUserDaily
    ensures limits.globalDaily > 0 ==> OnDay(history, day) <= limits.globalDaily
    decreases |history|
  {
    hide Since, Times;
    if history != [] {
      var n := |history| - 1;
      AdmittedPrefix(limits, history);
      DayBounds(limits, history[..n], user, day);
      assert Refuses(limits, history[..n], history[n]) == None;
    }
  }

  function Users(history: seq<Entry>): set<string> {
    set i | 0 <= i < |history| :: history[i].user
  }

  function PerUser(history: seq<Entry>, users: set<string>, day: int): map<string, nat> {
    map user | user in users :: ByUser(history, user, day)
  }

  /** One day's calls of all users add up to that day's global count. */
  lemma {:induction false} UsersAddUp(history: seq<Entry>, users: set<string>, day: int)
    requires Users(history) <= users
    ensures SumOf(PerUser(history, users, day)) == OnDay(history, day)
    decreases |history|
  {
    hide SumOf;
    if history == [] {
      ZeroSum(PerUser(history, users, day));
    } else {
      var n := |history| - 1;
      var e, before := history[n], PerUser(history[..n], users, day);
      assert e.user in Users(history);
      assert Users(history[..n]) <= Users(history);
      UsersAddUp(history[..n], users, day);
      if e.day == day {
        SumUpdate(before, e.user, before[e.user] + 1);
        assert PerUser(history, users, day) == before[e.user := before[e.user] + 1];
      } else {
        assert PerUser(history, users, day) == before;
      }
    }
  }
}
