/**
 The LLM circuit breaker. Its whole state lives in three expiring Redis keys shared by every process:
 the breaker state, the failure counter of the current window, and the probe lock.
 Each service call is one atomic step; time passes between steps.
 */
module Breaker {
  import opened Wrappers

  datatype BreakerState = CLOSED | OPEN | HALF_OPEN

  datatype CBState = CBState(state: BreakerState, openedAt: Option<int>)

  /** A key with a time to live: it reads as missing from its expiry on. */
  datatype Key<T> = Absent | Held(value: T, expiresAt: int)

  /** The keys and the clock, in milliseconds. */
  datatype Redis = Redis(now: int, state: Key<CBState>, failures: Key<nat>, probe: Key<bool>)

  datatype Config = Config(windowMs: nat, cooldownMs: nat, threshold: nat)

  const STATE_TTL_MS := 3_600_000
  const PROBE_LOCK_TTL_MS := 120_000

  ghost predicate ValidConfig(c: Config) {
    c.windowMs > 0 && c.cooldownMs > 0 && c.threshold >= 1
  }

  predicate IsLive<T>(k: Key<T>, now: int) {
    k.Held? && now < k.expiresAt
  }

  // ---------- What each call does to the keys ----------

  function Load(r: Redis): CBState {
    if IsLive(r.state, r.now) then r.state.value else CBState(CLOSED, None)
  }

  function Save(r: Redis, s: CBState): Redis {
    r.(state := Held(s, r.now + STATE_TTL_MS))
  }

  predicate CooldownOver(c: Config, r: Redis) {
    var s := Load(r);
    s.openedAt.Some? && s.openedAt.value != 0 && r.now - s.openedAt.value >= c.cooldownMs
  }

  function AfterGetState(c: Config, r: Redis): Redis {
    if Load(r).state == OPEN && CooldownOver(c, r) then Save(r, Load(r).(state := HALF_OPEN)) else r
  }

  predicate Blocked(c: Config, r: Redis) {
    var s := AfterGetState(c, r);
    Load(s).state == OPEN || (Load(s).state == HALF_OPEN && IsLive(s.probe, s.now))
  }

  function AfterIsOpen(c: Config, r: Redis): Redis {
    var s := AfterGetState(c, r);
    if Load(s).state == HALF_OPEN && !IsLive(s.probe, s.now)
    then s.(probe := Held(true, s.now + PROBE_LOCK_TTL_MS)) else s
  }

  function AfterSuccess(r: Redis): Redis {
    if Load(r).state == OPEN then r
    else Save(r.(probe := Absent, failures := Absent), CBState(CLOSED, None))
  }

  function Counted(c: Config, r: Redis): Key<nat> {
    if IsLive(r.failures, r.now) then Held(r.failures.value + 1, r.failures.expiresAt)
    else Held(1, r.now + c.windowMs)
  }

  function AfterFailure(c: Config, r: Redis): Redis {
    match Load(r).state
    case HALF_OPEN => Save(r.(probe := Absent), Load(r).(state := OPEN, openedAt := Some(r.now)))
    case CLOSED =>
      var counted := r.(failures := Counted(c, r));
      if counted.failures.value >= c.threshold
      then Save(counted, Load(r).(state := OPEN, openedAt := Some(r.now))) else counted
    case OPEN => r
  }

  /** One process's view of the breaker; the keys are shared, so they are the only mutable state. */
  class CircuitBreakerService {
    const config: Config
    var redis: Redis

    constructor (config: Config, now: int)
      ensures this.config == config && redis == Redis(now, Absent, Absent, Absent)
    {
      this.config := config;
      redis := Redis(now, Absent, Absent, Absent);
    }

    method SetNx<T>(key: Key<T>, value: T, ttlMs: nat) returns (after: Key<T>, ok: bool)
      ensures ok <==> !IsLive(key, redis.now)
      ensures after == if ok then Held(value, redis.now + ttlMs) else key
    {
      ok := !IsLive(key, redis.now);
      after := if ok then Held(value, redis.now + ttlMs) else key;
    }

    method GetState() returns (state: BreakerState)
      modifies this
      ensures redis == AfterGetState(config, old(redis)) && state == Load(redis).state
    {
      var s := Load(redis);
      if s.state == OPEN {
        if s.openedAt.Some? && s.openedAt.value != 0 && redis.now - s.openedAt.value >= config.cooldownMs {
          redis := Save(redis, s.(state := HALF_OPEN));
          return HALF_OPEN;
        }
      }
      return s.state;
    }

    method IsOpen() returns (blocked: bool)
      modifies this
      ensures redis == AfterIsOpen(config, old(redis))
      ensures blocked == Blocked(config, old(redis))
    {
      var state := GetState();
      if state == OPEN {
        return true;
      }
      if state == HALF_OPEN {
        var probe, acquired := SetNx(redis.probe, true, PROBE_LOCK_TTL_MS);
        redis := redis.(probe := probe);
        return !acquired;
      }
      return false;
    }

    method RecordSuccess()
      modifies this
      ensures redis == AfterSuccess(old(redis))
      ensures Load(old(redis)).state != OPEN ==>
        Load(redis) == CBState(CLOSED, None) && redis.probe == Absent && redis.failures == Absent
      ensures Load(old(redis)).state == OPEN ==> redis == old(redis)
    {
      var s := Load(redis);
      if s.state == HALF_OPEN || s.state == CLOSED {
        redis := redis.(probe := Absent);
        redis := redis.(failures := Absent);
        redis := Save(redis, CBState(CLOSED, None));
      }
    }

    method RecordFailure()
      modifies this
      ensures redis == AfterFailure(config, old(redis))
      ensures Load(old(redis)).state == HALF_OPEN ==>
        && Load(redis).state == OPEN && Load(redis).openedAt == Some(redis.now) && redis.probe == Absent
        && redis.failures == old(redis).failures
    {
      var s := Load(redis);
      if s.state == HALF_OPEN {
        redis := redis.(probe := Absent);
        redis := Save(redis, s.(state := OPEN, openedAt := Some(redis.now)));
        return;
      }
      if s.state == CLOSED {
        var failures, _ := SetNx(redis.failures, 0, config.windowMs);
        redis := redis.(failures := failures.(value := failures.value + 1));
        if redis.failures.value >= config.threshold {
          redis := Save(redis, s.(state := OPEN, openedAt := Some(redis.now)));
        }
      }
    }
  }

  // ---------- Runs: any interleaving of calls and passing time ----------

  datatype Step = Tick(ms: nat) | GetStateCall | IsOpenCall | SuccessCall | FailureCall

  function Apply(c: Config, r: Redis, step: Step): Redis {
    match step
    case Tick(ms) => r.(now := r.now + ms)
    case GetStateCall => AfterGetState(c, r)
    case IsOpenCall => AfterIsOpen(c, r)
    case SuccessCall => AfterSuccess(r)
    case FailureCall => AfterFailure(c, r)
  }

  /** The keys before step n of the run. */
  function At(c: Config, start: int, run: seq<Step>, n: nat): Redis
    requires n <= |run|
  {
    if n == 0 then Redis(start, Absent, Absent, Absent) else Apply(c, At(c, start, run, n - 1), run[n - 1])
  }

  ghost predicate Admitted(c: Config, start: int, run: seq<Step>, n: nat)
    requires n < |run|
  {
    run[n] == IsOpenCall && !Blocked(c, At(c, start, run, n))
  }

  /** The state key was never left alone for a whole hour. */
  ghost predicate StateKept(c: Config, start: int, run: seq<Step>) {
    forall n :: 0 <= n <= |run| ==> var r := At(c, start, run, n); r.state.Held? ==> IsLive(r.state, r.now)
  }

  lemma {:induction false} TimeMovesForward(c: Config, start: int, run: seq<Step>, i: nat, j: nat)
    requires i <= j <= |run|
    ensures At(c, start, run, i).now <= At(c, start, run, j).now
    decreases j - i
  {
    if i < j {
      TimeMovesForward(c, start, run, i, j - 1);
    }
  }

  ghost predicate Invariant(c: Config, r: Redis) {
    var s := Load(r);
    && (IsLive(r.probe, r.now) ==> s.state == HALF_OPEN)
    && (s.state == CLOSED ==> IsLive(r.failures, r.now) ==> r.failures.value < c.threshold)
    && (s.state != CLOSED ==> s.openedAt.Some? && s.openedAt.value <= r.now)
    && (s.state == HALF_OPEN ==> CooldownOver(c, r))
  }

  /** A held probe lock means HALF_OPEN, and while CLOSED the counter is below the threshold. */
  lemma {:induction false} InvariantHolds(c: Config, start: int, run: seq<Step>, n: nat)
    requires ValidConfig(c) && n <= |run| && StateKept(c, start, run)
    ensures Invariant(c, At(c, start, run, n))
  {
    if n > 0 {
      InvariantHolds(c, start, run, n - 1);
    }
  }

  /** The state key never lapses under a live probe lock. */
  ghost predicate LockKept(c: Config, start: int, run: seq<Step>) {
    forall n :: 0 <= n <= |run| ==> OutlivesTheLock(At(c, start, run, n))
  }

  ghost predicate OutlivesTheLock(r: Redis) {
    IsLive(r.probe, r.now) ==> IsLive(r.state, r.now)
  }

  ghost predicate LockMeansHalfOpen(r: Redis) {
    IsLive(r.probe, r.now) ==> Load(r).state == HALF_OPEN
  }

  lemma {:induction false} KeptLockMeansHalfOpen(c: Config, start: int, run: seq<Step>, n: nat)
    requires n <= |run| && LockKept(c, start, run)
    ensures LockMeansHalfOpen(At(c, start, run, n))
  {
    if n > 0 {
      KeptLockMeansHalfOpen(c, start, run, n - 1);
      assert OutlivesTheLock(At(c, start, run, n));
    }
  }

  ghost predicate LockAlwaysMeansHalfOpen(c: Config, start: int, run: seq<Step>) {
    forall n :: 0 <= n <= |run| ==> LockMeansHalfOpen(At(c, start, run, n))
  }

  /**
   For the lock alone the exact condition: it means HALF_OPEN all along a run if and only if the state key outlives
   it.
   */
  lemma LockMeansHalfOpenIff(c: Config, start: int, run: seq<Step>)
    ensures LockAlwaysMeansHalfOpen(c, start, run) <==> LockKept(c, start, run)
  {
    if LockKept(c, start, run) {
      forall n | 0 <= n <= |run|
        ensures LockMeansHalfOpen(At(c, start, run, n))
      {
        KeptLockMeansHalfOpen(c, start, run, n);
      }
    }
  }

  /** A probe taken one millisecond before the state key lapses; a failure then trips the breaker again. */
  function LapsingRun(c: Config): seq<Step>
    requires 0 <= c.cooldownMs
  {
    [FailureCall, Tick(c.cooldownMs), GetStateCall, Tick(STATE_TTL_MS - 1), IsOpenCall, Tick(1), FailureCall]
  }

  /**
   The state key can lapse under a live lock: on this run from empty keys the probe is admitted, the breaker then reads
   as CLOSED while the lock is held, and the next failure leaves it OPEN with the lock still held.
   */
  lemma LapsedStateKeepsTheLock(c: Config, start: int)
    requires ValidConfig(c) && c.threshold == 1 && c.cooldownMs < STATE_TTL_MS && start != 0
    ensures var run := LapsingRun(c);
      var lapsed, tripped := At(c, start, run, 6), At(c, start, run, 7);
      && Admitted(c, start, run, 4)
      && Load(lapsed).state == CLOSED && IsLive(lapsed.probe, lapsed.now)
      && Load(tripped).state == OPEN && IsLive(tripped.probe, tripped.now) && !Invariant(c, tripped)
  {
    var run := LapsingRun(c);
    var half := start + c.cooldownMs;
    assert At(c, start, run, 0) == Redis(start, Absent, Absent, Absent) && run[0] == FailureCall;
    assert At(c, start, run, 1) ==
      Redis(start, Held(CBState(OPEN, Some(start)), start + STATE_TTL_MS), Held(1, start + c.windowMs), Absent);
    assert At(c, start, run, 2).now == half && At(c, start, run, 2).probe == Absent;
    assert At(c, start, run, 3).state == Held(CBState(HALF_OPEN, Some(start)), half + STATE_TTL_MS);
    assert At(c, start, run, 4).now == half + STATE_TTL_MS - 1 && At(c, start, run, 4).probe == Absent;
    assert At(c, start, run, 5).probe == Held(true, half + STATE_TTL_MS - 1 + PROBE_LOCK_TTL_MS);
    assert At(c, start, run, 6).now == half + STATE_TTL_MS;
  }

  // ---------- One probe per half-open episode ----------

  ghost predicate HalfOpenThroughout(c: Config, start: int, run: seq<Step>, i: nat, j: nat)
    requires j <= |run|
  {
    forall m :: i < m <= j ==> Load(At(c, start, run, m)).state == HALF_OPEN
  }

  lemma {:induction false} LockSurvivesTheEpisode(c: Config, start: int, run: seq<Step>, i: nat, m: nat)
    requires i < m < |run| && Admitted(c, start, run, i) && HalfOpenThroughout(c, start, run, i, m)
    requires At(c, start, run, m).now < At(c, start, run, i).now + PROBE_LOCK_TTL_MS
    ensures At(c, start, run, m).probe == Held(true, At(c, start, run, i).now + PROBE_LOCK_TTL_MS)
    decreases m
  {
    if i + 1 < m {
      TimeMovesForward(c, start, run, m - 1, m);
      LockSurvivesTheEpisode(c, start, run, i, m - 1);
      var r := At(c, start, run, m - 1);
      assert Load(r).state == HALF_OPEN;
    } else {
      var r := At(c, start, run, i);
      assert At(c, start, run, m) == AfterIsOpen(c, r);
      assert Load(At(c, start, run, m)).state == HALF_OPEN;
    }
  }

  /** Two admissions in one HALF_OPEN episode are at least the lock's lifetime apart. */
  lemma OneProbePerEpisode(c: Config, start: int, run: seq<Step>, i: nat, j: nat)
    requires i < j < |run| && Admitted(c, start, run, i) && Admitted(c, start, run, j)
    requires HalfOpenThroughout(c, start, run, i, j)
    ensures At(c, start, run, j).now >= At(c, start, run, i).now + PROBE_LOCK_TTL_MS
  {
    assert Load(At(c, start, run, j)).state == HALF_OPEN;
    if At(c, start, run, j).now < At(c, start, run, i).now + PROBE_LOCK_TTL_MS {
      LockSurvivesTheEpisode(c, start, run, i, j);
    }
  }

  // ---------- Nobody gets through during the cooldown ----------

  /** Step i opens the breaker. */
  ghost predicate Opens(c: Config, start: int, run: seq<Step>, i: nat)
    requires i < |run|
  {
    Load(At(c, start, run, i)).state != OPEN && Load(At(c, start, run, i + 1)).state == OPEN
  }

  function Min(a: int, b: int): int {
    if a <= b then a else b
  }

  lemma {:induction false} StaysOpen(c: Config, start: int, run: seq<Step>, i: nat, j: nat)
    requires ValidConfig(c) && i < j <= |run| && Opens(c, start, run, i)
    requires At(c, start, run, j).now - At(c, start, run, i).now < Min(c.cooldownMs, STATE_TTL_MS)
    ensures At(c, start, run, j).state ==
              Held(CBState(OPEN, Some(At(c, start, run, i).now)), At(c, start, run, i).now + STATE_TTL_MS)
    decreases j
  {
    var before := At(c, start, run, j - 1);
    if i + 1 < j {
      TimeMovesForward(c, start, run, j - 1, j);
      StaysOpen(c, start, run, i, j - 1);
      assert Load(before).state == OPEN && !CooldownOver(c, before);
    } else {
      assert At(c, start, run, j) == Apply(c, before, run[i]);
    }
  }

  /**
   From the step that opens the breaker until the cooldown (or the state key's hour) is over, every caller is
   blocked.
   */
  lemma NobodyDuringCooldown(c: Config, start: int, run: seq<Step>, i: nat, j: nat)
    requires ValidConfig(c) && i < j < |run| && Opens(c, start, run, i)
    requires At(c, start, run, j).now - At(c, start, run, i).now < Min(c.cooldownMs, STATE_TTL_MS)
    ensures !Admitted(c, start, run, j)
  {
    StaysOpen(c, start, run, i, j);
    var r := At(c, start, run, j);
    TimeMovesForward(c, start, run, i, j);
    assert Load(r).state == OPEN && !CooldownOver(c, r);
  }

  /**
   The bound is exact: an undisturbed open breaker with a free lock blocks a caller if and only if it has not been
   reached.
   */
  lemma CooldownIsExact(c: Config, r: Redis, openedAt: int)
    requires ValidConfig(c) && 0 < openedAt <= r.now && !IsLive(r.probe, r.now)
    requires r.state == Held(CBState(OPEN, Some(openedAt)), openedAt + STATE_TTL_MS)
    ensures Blocked(c, r) <==> r.now - openedAt < Min(c.cooldownMs, STATE_TTL_MS)
  {
  }

  // ---------- The expiring counter refines the call history ----------

  /** When failures were counted since the counter was last cleared, in order. */
  function FailureTimes(c: Config, start: int, run: seq<Step>, n: nat): seq<int>
    requires n <= |run|
  {
    if n == 0 then []
    else TimesAfter(At(c, start, run, n - 1), FailureTimes(c, start, run, n - 1), run[n - 1])
  }

  function TimesAfter(r: Redis, earlier: seq<int>, step: Step): seq<int> {
    match step
    case SuccessCall => if Load(r).state == OPEN then earlier else []
    case FailureCall => if Load(r).state == CLOSED then earlier + [r.now] else earlier
    case _ => earlier
  }

  /** The failure that opened the window the last failure falls in. */
  function WindowStart(c: Config, times: seq<int>): (i: nat)
    requires times != []
    ensures i < |times|
  {
    if |times| == 1 then 0
    else
      var n := |times| - 1;
      var i := WindowStart(c, times[..n]);
      if times[n] < times[i] + c.windowMs then i else n
  }

  ghost predicate Refines(c: Config, r: Redis, times: seq<int>) {
    if times == [] then r.failures == Absent
    else
      var i := WindowStart(c, times);
      r.failures == Held(|times| - i, times[i] + c.windowMs)
  }

  lemma StepRefines(c: Config, r: Redis, times: seq<int>, step: Step)
    requires ValidConfig(c) && Refines(c, r, times)
    ensures Refines(c, Apply(c, r, step), TimesAfter(r, times, step))
  {
    if step == FailureCall && Load(r).state == CLOSED {
      var after := times + [r.now];
      assert after[..|times|] == times;
      assert Apply(c, r, step).failures == Counted(c, r);
    }
  }

  /** On every run the counter is the number of failures since the window's first, and it expires with the window. */
  lemma {:induction false} CounterRefinesHistory(c: Config, start: int, run: seq<Step>, n: nat)
    requires ValidConfig(c) && n <= |run|
    ensures Refines(c, At(c, start, run, n), FailureTimes(c, start, run, n))
  {
    if n > 0 {
      CounterRefinesHistory(c, start, run, n - 1);
      StepRefines(c, At(c, start, run, n - 1), FailureTimes(c, start, run, n - 1), run[n - 1]);
    }
  }

  lemma OneMoreFailure(c: Config, r: Redis, times: seq<int>)
    requires ValidConfig(c) && Refines(c, r, times)
    ensures var after := times + [r.now];
      Counted(c, r) == Held(|after| - WindowStart(c, after), after[WindowStart(c, after)] + c.windowMs)
  {
    assert (times + [r.now])[..|times|] == times;
  }

  lemma FailureTrips(c: Config, r: Redis)
    requires ValidConfig(c) && Invariant(c, r) && Load(r).state == CLOSED
    ensures Counted(c, r).value <= c.threshold
    ensures Load(AfterFailure(c, r)).state == OPEN <==> Counted(c, r).value == c.threshold
  {
  }

  /**
   The breaker trips on the failure that brings the current window to the threshold, and on no other:
   a failure while CLOSED opens the breaker if and only if it is the threshold-th of its window.
   */
  lemma TripsExactlyAtThreshold(c: Config, start: int, run: seq<Step>, n: nat)
    requires ValidConfig(c) && n < |run| && StateKept(c, start, run)
    requires run[n] == FailureCall && Load(At(c, start, run, n)).state == CLOSED
    ensures var times := FailureTimes(c, start, run, n + 1);
      && times != [] && times[|times| - 1] == At(c, start, run, n).now
      && |times| - WindowStart(c, times) <= c.threshold
      && (Load(At(c, start, run, n + 1)).state == OPEN <==> |times| - WindowStart(c, times) == c.threshold)
  {
    InvariantHolds(c, start, run, n);
    CounterRefinesHistory(c, start, run, n);
    OneMoreFailure(c, At(c, start, run, n), FailureTimes(c, start, run, n));
    FailureTrips(c, At(c, start, run, n));
  }

  /** All failures of a window lie within its length, counted from its first. */
  lemma {:induction false} WindowSpan(c: Config, times: seq<int>, m: int)
    requires ValidConfig(c) && times != [] && WindowStart(c, times) <= m < |times|
    requires forall i, j :: 0 <= i <= j < |times| ==> times[i] <= times[j]
    ensures times[WindowStart(c, times)] <= times[m] < times[WindowStart(c, times)] + c.windowMs
  {
    var n := |times| - 1;
    if n > 0 && WindowStart(c, times) < n && m < n {
      WindowSpan(c, times[..n], m);
    }
  }

  ghost predicate AscendingUntil(times: seq<int>, now: int) {
    && (forall i, j :: 0 <= i <= j < |times| ==> times[i] <= times[j])
    && (forall i :: 0 <= i < |times| ==> times[i] <= now)
  }

  lemma AscendStep(c: Config, r: Redis, times: seq<int>, step: Step)
    requires AscendingUntil(times, r.now)
    ensures AscendingUntil(TimesAfter(r, times, step), Apply(c, r, step).now)
  {
  }

  /** The failure times of a run are ascending and none is later than now. */
  lemma {:induction false} FailureTimesAscend(c: Config, start: int, run: seq<Step>, n: nat)
    requires n <= |run|
    ensures AscendingUntil(FailureTimes(c, start, run, n), At(c, start, run, n).now)
  {
    if n > 0 {
      FailureTimesAscend(c, start, run, n - 1);
      AscendStep(c, At(c, start, run, n - 1), FailureTimes(c, start, run, n - 1), run[n - 1]);
    }
  }

  /** On every run, the failures the counter counts lie within one window length of the first of them. */
  lemma CountedFailuresShareAWindow(c: Config, start: int, run: seq<Step>, n: nat, m: int)
    requires ValidConfig(c) && n <= |run| && FailureTimes(c, start, run, n) != []
    requires WindowStart(c, FailureTimes(c, start, run, n)) <= m < |FailureTimes(c, start, run, n)|
    ensures var times := FailureTimes(c, start, run, n);
      times[WindowStart(c, times)] <= times[m] < times[WindowStart(c, times)] + c.windowMs
  {
    FailureTimesAscend(c, start, run, n);
    WindowSpan(c, FailureTimes(c, start, run, n), m);
  }

  /**
   The window is fixed, not sliding: three failures inside one window length need not trip a breaker
   with threshold 3 when they straddle the end of a window.
   */
  lemma FixedWindowMissesAStraddlingBurst(c: Config, t: int)
    requires c.windowMs >= 3 && c.threshold == 3
    ensures var run := [FailureCall, Tick(c.windowMs - 1), FailureCall, Tick(1), FailureCall, Tick(1), FailureCall];
      && FailureTimes(c, t, run, 7) == [t, t + c.windowMs - 1, t + c.windowMs, t + c.windowMs + 1]
      && Load(At(c, t, run, 7)).state == CLOSED
  {
    var run := [FailureCall, Tick(c.windowMs - 1), FailureCall, Tick(1), FailureCall, Tick(1), FailureCall];
    var w := c.windowMs;
    assert At(c, t, run, 1) == Redis(t, Absent, Held(1, t + w), Absent);
    assert At(c, t, run, 3) == Redis(t + w - 1, Absent, Held(2, t + w), Absent);
    assert At(c, t, run, 5) == Redis(t + w, Absent, Held(1, t + w + w), Absent);
    assert At(c, t, run, 7) == Redis(t + w + 1, Absent, Held(2, t + w + w), Absent);
    assert FailureTimes(c, t, run, 1) == [t];
    assert FailureTimes(c, t, run, 3) == [t, t + w - 1];
    assert FailureTimes(c, t, run, 5) == [t, t + w - 1, t + w];
  }

  // ---------- What a report decides ----------

  /**
   A success outside OPEN closes the breaker: both other keys go, and the next caller is let through. In OPEN it is
   ignored.
   */
  lemma SuccessCloses(c: Config, start: int, run: seq<Step>, n: nat)
    requires n < |run| && run[n] == SuccessCall
    ensures var r, after := At(c, start, run, n), At(c, start, run, n + 1);
      if Load(r).state == OPEN then after == r
      else
        && after == Redis(r.now, Held(CBState(CLOSED, None), r.now + 3_600_000), Absent, Absent)
        && !Blocked(c, after)
  {
  }

  /**
   A failed probe opens the breaker again from now on and drops the lock, so everybody is blocked; the counter is not
   touched. In OPEN a failure is ignored.
   */
  lemma FailedProbeReopens(c: Config, start: int, run: seq<Step>, n: nat)
    requires ValidConfig(c) && n < |run| && run[n] == FailureCall
    ensures var r, after := At(c, start, run, n), At(c, start, run, n + 1);
      && (Load(r).state == HALF_OPEN ==>
            && after == Redis(r.now, Held(CBState(OPEN, Some(r.now)), r.now + 3_600_000), r.failures, Absent)
            && Blocked(c, after))
      && (Load(r).state == OPEN ==> after == r)
  {
  }

  /** A failure that trips the breaker stamps it with the time; one that does not leaves state and lock alone. */
  lemma TripIsStamped(c: Config, start: int, run: seq<Step>, n: nat)
    requires ValidConfig(c) && n < |run| && run[n] == FailureCall && Load(At(c, start, run, n)).state == CLOSED
    ensures var r, after := At(c, start, run, n), At(c, start, run, n + 1);
      && after.now == r.now && after.probe == r.probe
      && (if Load(after).state == OPEN then after.state == Held(CBState(OPEN, Some(r.now)), r.now + 3_600_000)
          else after.state == r.state && Load(after).state == CLOSED)
  {
  }

  /**
   An admitted caller in HALF_OPEN holds the lock for two minutes; one admitted otherwise changes nothing, and the
   breaker is closed.
   */
  lemma AdmissionTakesTheLock(c: Config, start: int, run: seq<Step>, n: nat)
    requires n < |run| && run[n] == IsOpenCall
    ensures var r, after := At(c, start, run, n), At(c, start, run, n + 1);
      && after.failures == r.failures && after.now == r.now
      && (Admitted(c, start, run, n) && Load(after).state == HALF_OPEN ==> after.probe == Held(true, r.now + 120_000))
      && (Admitted(c, start, run, n) && Load(after).state != HALF_OPEN ==> after == r && Load(r).state == CLOSED)
      && (!Admitted(c, start, run, n) ==> after.probe == r.probe)
  {
  }
}
