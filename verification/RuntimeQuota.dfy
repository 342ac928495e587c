/**
 The Go runtime's limits: three counters that restart each day and move together, in memory or
 in a store that several processes share, and the circuit breaker in front of the model.
 */
module RuntimeQuota {
  import opened Numbers
  import opened Sums
  import opened Text

  datatype DailyUsage = DailyUsage(day: int, count: nat)

  datatype Limits = Limits(daily: int, org: int, global: int) {
    function OrgLimit(): int { if org <= 0 then Max(daily * 5, 50) else org }

    function GlobalLimit(): int { if global <= 0 then Max(daily * 10, 100) else global }
  }

  datatype Entry = Entry(org: string, user: string, day: int)

  function Named(id: string): string {
    if Trim(id) == "" then "unknown" else id
  }

  function UserKey(user: string): string { "user:" + user }

  function OrgKey(org: string): string { "org:" + org }

  const GLOBAL_KEY := "__global__"

  /** The three counters a call moves. */
  predicate Touches(e: Entry, key: string) {
    key == UserKey(e.user) || key == OrgKey(e.org) || key == GLOBAL_KEY
  }

  lemma KeysApart(user: string, org: string)
    ensures UserKey(user) != OrgKey(org) && UserKey(user) != GLOBAL_KEY && OrgKey(org) != GLOBAL_KEY
  {
    assert UserKey(user)[0] == 'u' && OrgKey(org)[0] == 'o' && GLOBAL_KEY[0] == '_';
  }

  lemma KeysInjective(a: string, b: string)
    ensures UserKey(a) == UserKey(b) ==> a == b
    ensures OrgKey(a) == OrgKey(b) ==> a == b
  {
    assert UserKey(a)[5..] == a && UserKey(b)[5..] == b;
    assert OrgKey(a)[4..] == a && OrgKey(b)[4..] == b;
  }

  // ----- The rule on the full history ------------------------------------------

  function Count(history: seq<Entry>, key: string, day: int): nat {
    if history == [] then 0
    else
      var n := |history| - 1;
      Count(history[..n], key, day) + if Touches(history[n], key) && history[n].day == day then 1 else 0
  }

  predicate Permits(limits: Limits, history: seq<Entry>, e: Entry) {
    && limits.daily > 0
    && Count(history, UserKey(e.user), e.day) < limits.daily
    && Count(history, OrgKey(e.org), e.day) < limits.OrgLimit()
    && Count(history, GLOBAL_KEY, e.day) < limits.GlobalLimit()
  }

  lemma CountAppend(history: seq<Entry>, e: Entry, key: string, day: int)
    ensures Count(history + [e], key, day) == Count(history, key, day) + if Touches(e, key) && e.day == day then 1 else 0
  {
    assert (history + [e])[..|history|] == history;
  }

  predicate Admitted(limits: Limits, history: seq<Entry>) {
    forall i :: 0 <= i < |history| ==> Permits(limits, history[..i], history[i])
  }

  lemma AdmittedAppend(limits: Limits, history: seq<Entry>, e: Entry)
    requires Admitted(limits, history) && Permits(limits, history, e)
    ensures Admitted(limits, history + [e])
  {
    hide Permits;
    var longer := history + [e];
    forall i | 0 <= i < |longer|
      ensures Permits(limits, longer[..i], longer[i])
    {
      assert longer[..i] == history[..i];
      assert i == |history| ==> history[..i] == history;
    }
  }

  function Today(usage: map<string, DailyUsage>, key: string, today: int): nat {
    if key in usage && usage[key].day == today then usage[key].count else 0
  }

  /** A counter is right for its own day, and nothing was counted on any later day. */
  ghost predicate Tracks(usage: map<string, DailyUsage>, history: seq<Entry>, latest: int) {
    && (forall key :: key in usage ==> usage[key].day <= latest)
    && (forall key: string, day: int :: day >= latest ==> Count(history, key, day) == Today(usage, key, day))
  }

  function Bumped(usage: map<string, DailyUsage>, key: string, today: int): map<string, DailyUsage> {
    usage[key := DailyUsage(today, Today(usage, key, today) + 1)]
  }

  function Moved(usage: map<string, DailyUsage>, e: Entry): map<string, DailyUsage> {
    Bumped(Bumped(Bumped(usage, UserKey(e.user), e.day), OrgKey(e.org), e.day), GLOBAL_KEY, e.day)
  }

  lemma MovedTracks(usage: map<string, DailyUsage>, history: seq<Entry>, e: Entry)
    requires Tracks(usage, history, e.day)
    ensures Tracks(Moved(usage, e), history + [e], e.day)
  {
    hide Count, UserKey, OrgKey;
    KeysApart(e.user, e.org);
    forall key: string, day: int | day >= e.day
      ensures Count(history + [e], key, day) == Today(Moved(usage, e), key, day)
    {
      CountAppend(history, e, key, day);
      assert Count(history, key, day) == Today(usage, key, day);
      if Touches(e, key) {
        assert Moved(usage, e)[key] == DailyUsage(e.day, Today(usage, key, e.day) + 1);
      } else {
        assert key in Moved(usage, e) <==> key in usage;
      }
    }
  }

  // ----- Counters that processes share -----------------------------------------

  type Slot = (int, string)

  function StoredAt(counters: map<Slot, nat>, day: int, key: string): nat {
    if (day, key) in counters then counters[(day, key)] else 0
  }

  /** The shared counters from some day on; earlier ones may have expired. */
  ghost predicate Mirrors(counters: map<Slot, nat>, history: seq<Entry>, oldest: int) {
    forall key: string, day: int :: day >= oldest ==> Count(history, key, day) == StoredAt(counters, day, key)
  }

  function Incremented(counters: map<Slot, nat>, day: int, key: string): map<Slot, nat> {
    counters[(day, key) := StoredAt(counters, day, key) + 1]
  }

  function AllIncremented(counters: map<Slot, nat>, e: Entry): map<Slot, nat> {
    Incremented(Incremented(Incremented(counters, e.day, UserKey(e.user)), e.day, OrgKey(e.org)), e.day, GLOBAL_KEY)
  }

  lemma IncrementedMirrors(counters: map<Slot, nat>, history: seq<Entry>, oldest: int, e: Entry)
    requires Mirrors(counters, history, oldest)
    ensures Mirrors(AllIncremented(counters, e), history + [e], oldest)
  {
    hide Count, UserKey, OrgKey;
    KeysApart(e.user, e.org);
    forall key: string, day: int | day >= oldest
      ensures Count(history + [e], key, day) == StoredAt(AllIncremented(counters, e), day, key)
    {
      CountAppend(history, e, key, day);
      assert Count(history, key, day) == StoredAt(counters, day, key);
    }
  }

  /** The store behind several runtimes: its script runs as one step, and old counters expire. */
  class SharedCounters {
    const limits: Limits
    var counters: map<Slot, nat>
    ghost var history: seq<Entry>
    ghost var oldest: int

    ghost predicate Valid()
      reads this
    {
      Mirrors(counters, history, oldest) && Admitted(limits, history)
    }

    constructor (limits: Limits, today: int)
      ensures Valid() && this.limits == limits && history == [] && oldest == today
    {
      this.limits := limits;
      counters, history, oldest := map[], [], today;
    }

    /** Reads the three counters, refuses when one has reached its limit, else increments all three. */
    method RunScript(e: Entry) returns (permitted: bool)
      requires Valid() && oldest <= e.day && limits.daily > 0
      modifies this`counters, this`history
      ensures Valid() && (permitted <==> Permits(limits, old(history), e))
      ensures history == if permitted then old(history) + [e] else old(history)
    {
      hide Count, UserKey, OrgKey, Admitted;
      var userKey, orgKey := UserKey(e.user), OrgKey(e.org);
      KeysApart(e.user, e.org);
      IncrementedMirrors(counters, history, oldest, e);
      ghost var before := counters;
      var user, org, global := StoredAt(counters, e.day, userKey), StoredAt(counters, e.day, orgKey), StoredAt(counters, e.day, GLOBAL_KEY);
      assert Count(history, userKey, e.day) == user && Count(history, orgKey, e.day) == org;
      assert Count(history, GLOBAL_KEY, e.day) == global;
      if user >= limits.daily || org >= limits.OrgLimit() || global >= limits.GlobalLimit() {
        return false;
      }
      counters := counters[(e.day, userKey) := user + 1];
      counters := counters[(e.day, orgKey) := org + 1];
      counters := counters[(e.day, GLOBAL_KEY) := global + 1];
      assert counters == AllIncremented(before, e);
      AdmittedAppend(limits, history, e);
      history := history + [e];
      permitted := true;
    }

    /** A counter lives 26 hours, so what expires belongs to a day that is over. */
    method Expire(today: int)
      requires Valid() && oldest <= today
      modifies this`counters, this`oldest
      ensures Valid() && oldest == today && history == old(history)
    {
      counters := map slot | slot in counters && slot.0 >= today :: counters[slot];
      oldest := today;
    }
  }

  /** Where the counters are kept: here, in a shared store, or nowhere although a store is required. */
  datatype Backend = InMemory | Shared(store: SharedCounters) | Unavailable

  /** How the call to the store ends: answered, never run, or run with its answer lost. */
  datatype Transport = Answered | Unsent | Unheard

  class Reservations {
    const limits: Limits
    const backend: Backend
    var usage: map<string, DailyUsage>
    ghost var history: seq<Entry>
    ghost var latest: int

    ghost predicate Valid()
      reads this, if backend.Shared? then {backend.store} else {}
    {
      && Tracks(usage, history, latest) && Admitted(limits, history)
      && (backend.Shared? ==> backend.store.Valid() && backend.store.limits == limits)
    }

    constructor (limits: Limits, backend: Backend, today: int)
      requires backend.Shared? ==> backend.store.Valid() && backend.store.limits == limits
      ensures Valid() && this.limits == limits && this.backend == backend && history == [] && latest == today
    {
      this.limits, this.backend := limits, backend;
      usage, history, latest := map[], [], today;
    }

    /** Reserves one call in all three counters, or in none. */
    method ReserveHere(e: Entry) returns (ok: bool)
      requires Valid() && latest <= e.day && limits.daily > 0
      modifies this`usage, this`history, this`latest
      ensures Valid() && latest == e.day && (ok <==> Permits(limits, old(history), e))
      ensures history == if ok then old(history) + [e] else old(history)
    {
      hide Count, UserKey, OrgKey, Admitted;
      latest := e.day;
      ghost var before := usage;
      var userKey, orgKey := UserKey(e.user), OrgKey(e.org);
      KeysApart(e.user, e.org);
      MovedTracks(usage, history, e);
      var current, organization, global :=
        Today(usage, userKey, e.day), Today(usage, orgKey, e.day), Today(usage, GLOBAL_KEY, e.day);
      assert Count(history, userKey, e.day) == current && Count(history, orgKey, e.day) == organization;
      assert Count(history, GLOBAL_KEY, e.day) == global;
      if current >= limits.daily || organization >= limits.OrgLimit() || global >= limits.GlobalLimit() {
        return false;
      }
      usage := usage[userKey := DailyUsage(e.day, current + 1)];
      usage := usage[orgKey := DailyUsage(e.day, organization + 1)];
      usage := usage[GLOBAL_KEY := DailyUsage(e.day, global + 1)];
      assert usage == Moved(before, e);
      AdmittedAppend(limits, history, e);
      history := history + [e];
      ok := true;
    }

    /** A call permitted by the store whose answer is lost is counted there, but refused here. */
    method Reserve(organizationId: string, userId: string, today: int, transport: Transport) returns (ok: bool)
      requires Valid() && latest <= today && (backend.Shared? ==> backend.store.oldest <= today)
      modifies this, if backend.Shared? then {backend.store} else {}
      ensures Valid()
      ensures var e := Entry(Named(organizationId), Named(userId), today);
              match backend
              case Unavailable => !ok && history == old(history)
              case InMemory =>
                && (ok <==> Permits(limits, old(history), e))
                && history == (if ok then old(history) + [e] else old(history))
              case Shared(store) =>
                var permitted := Permits(limits, old(store.history), e);
                && (ok <==> permitted && transport.Answered?)
                && store.history == (if permitted && !transport.Unsent? then old(store.history) + [e] else old(store.history))
                && history == old(history)
    {
      hide Permits, Tracks, Admitted, Mirrors, Named;
      if limits.daily <= 0 {
        NothingPermitted(limits);
        return false;
      }
      var e := Entry(Named(organizationId), Named(userId), today);
      match backend {
        case Unavailable => ok := false;
        case InMemory => ok := ReserveHere(e);
        case Shared(store) =>
          if transport.Unsent? {
            return false;
          }
          var permitted := store.RunScript(e);
          ok := permitted && transport.Answered?;
      }
    }
  }

  lemma NothingPermitted(limits: Limits)
    requires limits.daily <= 0
    ensures forall history: seq<Entry>, e: Entry :: !Permits(limits, history, e)
  {
  }

  // ----- What the counters guarantee -------------------------------------------

  lemma {:induction false} LimitsHold(limits: Limits, history: seq<Entry>, user: string, org: string, day: int)
    requires Admitted(limits, history)
    ensures Count(history, UserKey(user), day) <= Max(limits.daily, 0)
    ensures Count(history, OrgKey(org), day) <= limits.OrgLimit()
    ensures Count(history, GLOBAL_KEY, day) <= limits.GlobalLimit()
    decreases |history|
  {
    hide UserKey, OrgKey;
    if history != [] {
      var n := |history| - 1;
      var e := history[n];
      forall i | 0 <= i < n
        ensures Permits(limits, history[..n][..i], history[..n][i])
      {
        assert history[..n][..i] == history[..i];
      }
      LimitsHold(limits, history[..n], user, org, day);
      assert Permits(limits, history[..n], e);
      KeysApart(user, e.org);
      KeysApart(e.user, org);
      KeysApart(user, org);
      KeysInjective(user, e.user);
      KeysInjective(org, e.org);
    }
  }

  function PerUser(history: seq<Entry>, users: set<string>, day: int): map<string, nat> {
    map user | user in users :: Count(history, UserKey(user), day)
  }

  function PerOrg(history: seq<Entry>, orgs: set<string>, day: int): map<string, nat> {
    map org | org in orgs :: Count(history, OrgKey(org), day)
  }

  predicate Covers(history: seq<Entry>, users: set<string>, orgs: set<string>) {
    forall i :: 0 <= i < |history| ==> history[i].user in users && history[i].org in orgs
  }

  function Step(e: Entry, day: int): nat {
    if e.day == day then 1 else 0
  }

  lemma OneMoreUser(history: seq<Entry>, e: Entry, users: set<string>, day: int)
    requires e.user in users
    ensures var u := PerUser(history, users, day);
            PerUser(history + [e], users, day) == u[e.user := u[e.user] + Step(e, day)]
  {
    hide Count, UserKey, OrgKey;
    forall user | user in users
      ensures Count(history + [e], UserKey(user), day) == Count(history, UserKey(user), day) + if user == e.user then Step(e, day) else 0
    {
      CountAppend(history, e, UserKey(user), day);
      KeysApart(user, e.org);
      KeysInjective(user, e.user);
    }
  }

  lemma OneMoreOrg(history: seq<Entry>, e: Entry, orgs: set<string>, day: int)
    requires e.org in orgs
    ensures var o := PerOrg(history, orgs, day);
            PerOrg(history + [e], orgs, day) == o[e.org := o[e.org] + Step(e, day)]
  {
    hide Count, UserKey, OrgKey;
    forall org | org in orgs
      ensures Count(history + [e], OrgKey(org), day) == Count(history, OrgKey(org), day) + if org == e.org then Step(e, day) else 0
    {
      CountAppend(history, e, OrgKey(org), day);
      KeysApart(e.user, org);
      KeysInjective(org, e.org);
    }
  }

  /** On any day the users' counts, the organisations' counts and the global count agree. */
  lemma {:induction false} CountersMoveTogether(history: seq<Entry>, users: set<string>, orgs: set<string>, day: int)
    requires Covers(history, users, orgs)
    ensures SumOf(PerUser(history, users, day)) == Count(history, GLOBAL_KEY, day)
    ensures SumOf(PerOrg(history, orgs, day)) == Count(history, GLOBAL_KEY, day)
    decreases |history|
  {
    hide SumOf, Count, UserKey, OrgKey;
    if history == [] {
      NothingCounted(day);
      ZeroSum(PerUser(history, users, day));
      ZeroSum(PerOrg(history, orgs, day));
    } else {
      var n := |history| - 1;
      var e := history[n];
      var u, o := PerUser(history[..n], users, day), PerOrg(history[..n], orgs, day);
      CountersMoveTogether(history[..n], users, orgs, day);
      assert history == history[..n] + [e];
      OneMoreUser(history[..n], e, users, day);
      OneMoreOrg(history[..n], e, orgs, day);
      CountAppend(history[..n], e, GLOBAL_KEY, day);
      SumUpdate(u, e.user, u[e.user] + Step(e, day));
      SumUpdate(o, e.org, o[e.org] + Step(e, day));
    }
  }

  lemma NothingCounted(day: int)
    ensures forall key: string :: Count([], key, day) == 0
  {
  }

  // ----- The circuit breaker ---------------------------------------------------

  /** Times are counted from the zero instant, which stands for a closed circuit. */
  datatype BreakerConfig = BreakerConfig(threshold: int, cooldown: int) {
    function Pause(): nat { if cooldown <= 0 then 60_000_000_000 else cooldown }
  }

  datatype Signal = Failure(at: nat) | Success | Ask(at: nat)

  function NextStreak(cfg: BreakerConfig, streak: seq<nat>, s: Signal): seq<nat> {
    match s
    case Failure(at) => if cfg.threshold > 0 then streak + [at] else streak
    case Success => []
    case Ask(at) => if Tripped(cfg, streak) && at >= OpenUntil(cfg, streak) then [] else streak
  }

  /** The failures since the circuit was last known good, by replaying everything that happened. */
  function Streak(cfg: BreakerConfig, signals: seq<Signal>): seq<nat> {
    if signals == [] then []
    else NextStreak(cfg, Streak(cfg, signals[..|signals| - 1]), signals[|signals| - 1])
  }

  predicate Tripped(cfg: BreakerConfig, streak: seq<nat>) {
    cfg.threshold > 0 && |streak| >= cfg.threshold
  }

  function OpenUntil(cfg: BreakerConfig, streak: seq<nat>): nat
    requires Tripped(cfg, streak)
  {
    streak[|streak| - 1] + cfg.Pause()
  }

  predicate Allowed(cfg: BreakerConfig, streak: seq<nat>, now: nat) {
    !(Tripped(cfg, streak) && now < OpenUntil(cfg, streak))
  }

  class Breaker {
    const cfg: BreakerConfig
    var consecutiveFailures: nat
    var circuitOpenUntil: nat
    ghost var signals: seq<Signal>

    ghost predicate Valid()
      reads this
    {
      var streak := Streak(cfg, signals);
      && consecutiveFailures == |streak|
      && circuitOpenUntil == if Tripped(cfg, streak) then OpenUntil(cfg, streak) else 0
    }

    constructor (cfg: BreakerConfig)
      ensures Valid() && this.cfg == cfg && signals == []
    {
      this.cfg := cfg;
      consecutiveFailures, circuitOpenUntil, signals := 0, 0, [];
    }

    method AllowModelCall(now: nat) returns (allowed: bool)
      requires Valid()
      modifies this
      ensures Valid() && signals == old(signals) + [Ask(now)]
      ensures allowed == Allowed(cfg, Streak(cfg, old(signals)), now)
    {
      StreakAppend(cfg, signals, Ask(now));
      signals := signals + [Ask(now)];
      if cfg.threshold <= 0 {
        return true;
      }
      if circuitOpenUntil == 0 {
        return true;
      }
      if now < circuitOpenUntil {
        return false;
      }
      circuitOpenUntil := 0;
      consecutiveFailures := 0;
      allowed := true;
    }

    method RecordModelFailure(now: nat)
      requires Valid()
      modifies this
      ensures Valid() && signals == old(signals) + [Failure(now)]
    {
      StreakAppend(cfg, signals, Failure(now));
      signals := signals + [Failure(now)];
      if cfg.threshold <= 0 {
        return;
      }
      consecutiveFailures := consecutiveFailures + 1;
      if consecutiveFailures >= cfg.threshold {
        circuitOpenUntil := now + cfg.Pause();
      }
    }

    method RecordModelSuccess()
      requires Valid()
      modifies this
      ensures Valid() && signals == old(signals) + [Success]
    {
      StreakAppend(cfg, signals, Success);
      signals := signals + [Success];
      consecutiveFailures := 0;
      circuitOpenUntil := 0;
    }
  }

  lemma StreakAppend(cfg: BreakerConfig, signals: seq<Signal>, s: Signal)
    ensures Streak(cfg, signals + [s]) == NextStreak(cfg, Streak(cfg, signals), s)
  {
    assert (signals + [s])[..|signals|] == signals;
  }

  /** A streak is made of the last failures: fewer than the threshold failures never open the circuit. */
  function Failures(signals: seq<Signal>): seq<nat> {
    if signals == [] then []
    else
      var n := |signals| - 1;
      Failures(signals[..n]) + if signals[n].Failure? then [signals[n].at] else []
  }

  lemma {:induction false} StreakIsLastFailures(cfg: BreakerConfig, signals: seq<Signal>)
    ensures var streak, all := Streak(cfg, signals), Failures(signals);
            |streak| <= |all| && streak == all[|all| - |streak|..]
    ensures cfg.threshold <= 0 ==> Streak(cfg, signals) == []
    decreases |signals|
  {
    if signals != [] {
      var n := |signals| - 1;
      StreakIsLastFailures(cfg, signals[..n]);
      var streak, all := Streak(cfg, signals[..n]), Failures(signals[..n]);
      if signals[n].Failure? {
        assert (all + [signals[n].at])[|all| - |streak|..] == streak + [signals[n].at];
      }
    }
  }
}
