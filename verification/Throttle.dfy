/** internal/api/bruteforce.go: the login throttle as values, with and without sweeping. */
module Throttle {
  import opened Model

  /** Times and durations are in nanoseconds. */
  const SECOND := 1_000_000_000

  datatype Config = Config(maxAttempts: int, window: int, lockout: int)

  datatype Attempts = Attempts(failures: nat, windowStart: int, lockedUntil: Option<int>)

  /** lastSweep is None before the first sweep: Go's zero time lies further back than any window. */
  datatype Guard = Guard(entries: map<string, Attempts>, lastSweep: Option<int>)

  predicate IsEnabled(cfg: Config) {
    cfg.maxAttempts > 0
  }

  function CeilSeconds(d: int): int {
    if d <= 0 then 0 else ((d + SECOND - 1) / SECOND) * SECOND
  }

  predicate LockedAt(e: Attempts, now: int) {
    e.lockedUntil.Some? && now < e.lockedUntil.value
  }

  /** retryAfter: None when not locked, else how long to wait. */
  function RetryAfter(cfg: Config, g: Guard, key: string, now: int): Option<int> {
    if IsEnabled(cfg) && key in g.entries && LockedAt(g.entries[key], now) then
      Some(CeilSeconds(g.entries[key].lockedUntil.value - now))
    else None
  }

  /** An entry a sweep at `now` drops: not locked, and its counting window is over. */
  predicate Sweepable(cfg: Config, e: Attempts, now: int) {
    !LockedAt(e, now) && now - e.windowStart > cfg.window
  }

  function Sweep(cfg: Config, g: Guard, now: int): Guard {
    if g.lastSweep.Some? && now - g.lastSweep.value < cfg.window then g
    else Guard(map key | key in g.entries && !Sweepable(cfg, g.entries[key], now) :: g.entries[key], Some(now))
  }

  /** A failure at `now` starts a new streak: none is open, it aged out, or its lockout has passed. */
  predicate StartsStreak(cfg: Config, e: Option<Attempts>, now: int) {
    || e.None?
    || now - e.value.windowStart > cfg.window
    || (e.value.lockedUntil.Some? && !LockedAt(e.value, now))
  }

  /** The key's entry after one more failure. */
  function FailEntry(cfg: Config, e: Option<Attempts>, now: int): Attempts {
    var base := if StartsStreak(cfg, e, now) then Attempts(0, now, None) else e.value;
    var failures := base.failures + 1;
    Attempts(failures, base.windowStart,
      if failures >= cfg.maxAttempts then Some(now + cfg.lockout) else base.lockedUntil)
  }

  function EntryOf(g: Guard, key: string): Option<Attempts> {
    if key in g.entries then Some(g.entries[key]) else None
  }

  function CountFailure(cfg: Config, g: Guard, key: string, now: int): Guard {
    g.(entries := g.entries[key := FailEntry(cfg, EntryOf(g, key), now)])
  }

  function RecordFailure(cfg: Config, g: Guard, key: string, now: int): Guard {
    if IsEnabled(cfg) then CountFailure(cfg, Sweep(cfg, g, now), key, now) else g
  }

  function RecordSuccess(cfg: Config, g: Guard, key: string): Guard {
    if IsEnabled(cfg) then g.(entries := g.entries - {key}) else g
  }

  /** What recordFailure answers: whether the key is locked now. */
  predicate Trips(cfg: Config, g: Guard, key: string, now: int) {
    IsEnabled(cfg) && FailEntry(cfg, EntryOf(Sweep(cfg, g, now), key), now).failures >= cfg.maxAttempts
  }

  // ---------------------------------------------------------------- runs

  datatype Event =
    | Check(key: string, at: int)
    | Failure(key: string, at: int)
    | Success(key: string, at: int)

  datatype Answer = Wait(after: Option<int>) | Tripped(locked: bool) | Cleared

  /** The guard as written, after a list of calls. */
  function Run(cfg: Config, events: seq<Event>): Guard {
    if events == [] then Guard(map[], None)
    else
      var g := Run(cfg, events[..|events| - 1]);
      match events[|events| - 1]
      case Check(_, _) => g
      case Failure(key, at) => RecordFailure(cfg, g, key, at)
      case Success(key, _) => RecordSuccess(cfg, g, key)
  }

  /** The same guard, never swept. */
  function RunUnswept(cfg: Config, events: seq<Event>): Guard {
    if events == [] then Guard(map[], None)
    else
      var g := RunUnswept(cfg, events[..|events| - 1]);
      match events[|events| - 1]
      case Check(_, _) => g
      case Failure(key, at) => if IsEnabled(cfg) then CountFailure(cfg, g, key, at) else g
      case Success(key, _) => RecordSuccess(cfg, g, key)
  }

  function AnswerOf(cfg: Config, g: Guard, e: Event): Answer {
    match e
    case Check(key, at) => Wait(RetryAfter(cfg, g, key, at))
    case Failure(key, at) => Tripped(Trips(cfg, g, key, at))
    case Success(_, _) => Cleared
  }

  function UnsweptAnswer(cfg: Config, g: Guard, e: Event): Answer {
    match e
    case Check(key, at) => Wait(RetryAfter(cfg, g, key, at))
    case Failure(key, at) => Tripped(IsEnabled(cfg) && FailEntry(cfg, EntryOf(g, key), at).failures >= cfg.maxAttempts)
    case Success(_, _) => Cleared
  }

  predicate Timely(events: seq<Event>) {
    forall i, j | 0 <= i < j < |events| :: events[i].at <= events[j].at
  }

  // ---------------------------------------------------------------- sweeping is invisible

  /** b is a with some sweepable entries missing. */
  predicate Thinned(cfg: Config, b: Guard, a: Guard, now: int) {
    && (forall key | key in b.entries :: key in a.entries && b.entries[key] == a.entries[key])
    && (forall key | key in a.entries && key !in b.entries :: Sweepable(cfg, a.entries[key], now))
  }

  lemma ThinnedLater(cfg: Config, b: Guard, a: Guard, now: int, later: int)
    requires Thinned(cfg, b, a, now) && now <= later
    ensures Thinned(cfg, b, a, later)
  {
  }

  lemma SweepThins(cfg: Config, b: Guard, a: Guard, now: int)
    requires Thinned(cfg, b, a, now)
    ensures Thinned(cfg, Sweep(cfg, b, now), a, now)
  {
  }

  /** A missing sweepable entry counts as no entry. */
  lemma SweepableCountsAsNone(cfg: Config, e: Attempts, now: int)
    requires Sweepable(cfg, e, now)
    ensures FailEntry(cfg, Some(e), now) == FailEntry(cfg, None, now) && !LockedAt(e, now)
  {
  }

  lemma FailureThinned(cfg: Config, b: Guard, a: Guard, key: string, now: int)
    requires Thinned(cfg, b, a, now)
    ensures Thinned(cfg, CountFailure(cfg, b, key, now), CountFailure(cfg, a, key, now), now)
    ensures FailEntry(cfg, EntryOf(b, key), now) == FailEntry(cfg, EntryOf(a, key), now)
  {
    if key in a.entries && key !in b.entries {
      SweepableCountsAsNone(cfg, a.entries[key], now);
    }
  }

  lemma {:induction false} RunThinned(cfg: Config, events: seq<Event>, now: int)
    requires Timely(events) && (events != [] ==> events[|events| - 1].at <= now)
    ensures Thinned(cfg, Run(cfg, events), RunUnswept(cfg, events), now)
  {
    hide FailEntry, Sweepable, Sweep;
    if events != [] {
      var front, e := events[..|events| - 1], events[|events| - 1];
      RunThinned(cfg, front, e.at);
      var b, a := Run(cfg, front), RunUnswept(cfg, front);
      if e.Failure? {
        SweepThins(cfg, b, a, e.at);
        FailureThinned(cfg, Sweep(cfg, b, e.at), a, e.key, e.at);
      }
      ThinnedLater(cfg, Run(cfg, events), RunUnswept(cfg, events), e.at, now);
    }
  }

  /** With a clock that never runs backwards, the swept guard answers every call like one never swept. */
  lemma SweepingInvisible(cfg: Config, events: seq<Event>, i: nat)
    requires Timely(events) && i < |events|
    ensures AnswerOf(cfg, Run(cfg, events[..i]), events[i]) ==
      UnsweptAnswer(cfg, RunUnswept(cfg, events[..i]), events[i])
  {
    hide FailEntry, Sweep;
    var e := events[i];
    var b, a := Run(cfg, events[..i]), RunUnswept(cfg, events[..i]);
    RunThinned(cfg, events[..i], e.at);
    if e.Failure? {
      SweepThins(cfg, b, a, e.at);
      FailureThinned(cfg, Sweep(cfg, b, e.at), a, e.key, e.at);
    }
  }

  // ---------------------------------------------------------------- the rate bound

  /** The times at which failures of the key were recorded. */
  function FailureTimes(events: seq<Event>, key: string): seq<int> {
    if events == [] then []
    else
      var e := events[|events| - 1];
      var r := FailureTimes(events[..|events| - 1], key);
      if e.Failure? && e.key == key then r + [e.at] else r
  }

  /** One key on its own: its entry after a list of failures. */
  function After(cfg: Config, times: seq<int>): Option<Attempts> {
    if times == [] then None
    else Some(FailEntry(cfg, After(cfg, times[..|times| - 1]), times[|times| - 1]))
  }

  predicate Sorted(times: seq<int>) {
    forall i, j | 0 <= i < j < |times| :: times[i] <= times[j]
  }

  /** No failure is recorded while the key is locked: what checking first achieves. */
  predicate NeverWhileLocked(cfg: Config, times: seq<int>) {
    forall i | 0 < i < |times| :: !LockedAt(After(cfg, times[..i]).value, times[i])
  }

  /** How many streaks the failures up to and including the last one have begun. */
  function Streaks(cfg: Config, times: seq<int>): nat {
    if times == [] then 0
    else
      var front := times[..|times| - 1];
      Streaks(cfg, front) + if StartsStreak(cfg, After(cfg, front), times[|times| - 1]) then 1 else 0
  }

  function Spacing(cfg: Config): int {
    if cfg.window < cfg.lockout then cfg.window else cfg.lockout
  }

  lemma PrefixFacts(cfg: Config, times: seq<int>)
    requires Sorted(times) && NeverWhileLocked(cfg, times) && times != []
    ensures Sorted(times[..|times| - 1]) && NeverWhileLocked(cfg, times[..|times| - 1])
  {
    var front := times[..|times| - 1];
    forall i | 0 < i < |front| ensures !LockedAt(After(cfg, front[..i]).value, front[i]) {
      assert front[..i] == times[..i];
    }
  }

  /** A streak holds at most maxAttempts failures; reaching that many locks the key for the full lockout. */
  lemma {:induction false} StreakShape(cfg: Config, times: seq<int>)
    requires IsEnabled(cfg) && cfg.window > 0 && cfg.lockout > 0
    requires times != [] && Sorted(times) && NeverWhileLocked(cfg, times)
    ensures var e := After(cfg, times).value;
      && 1 <= e.failures <= cfg.maxAttempts
      && e.windowStart <= times[|times| - 1]
      && (e.failures < cfg.maxAttempts <==> e.lockedUntil == None)
      && (e.lockedUntil.Some? ==> e.lockedUntil.value >= e.windowStart + cfg.lockout)
  {
    var front := times[..|times| - 1];
    if front != [] {
      PrefixFacts(cfg, times);
      StreakShape(cfg, front);
      assert times[..|times| - 1] == front;
      assert !LockedAt(After(cfg, front).value, times[|times| - 1]);
    }
  }

  /** Between failures n0 and n1 lie at most maxAttempts per streak. */
  lemma {:induction false} FailuresPerStreak(cfg: Config, times: seq<int>, n0: nat)
    requires IsEnabled(cfg) && cfg.window > 0 && cfg.lockout > 0
    requires n0 < |times| && Sorted(times) && NeverWhileLocked(cfg, times)
    ensures Streaks(cfg, times) >= Streaks(cfg, times[..n0 + 1])
    ensures |times| - n0 <= cfg.maxAttempts * (Streaks(cfg, times) - Streaks(cfg, times[..n0 + 1])) +
      After(cfg, times).value.failures
    decreases |times|
  {
    hide FailEntry, StartsStreak, Streaks, After, NeverWhileLocked, Sorted;
    var front, last := times[..|times| - 1], times[|times| - 1];
    StreakShape(cfg, times);
    if n0 + 1 == |times| {
      assert times[..n0 + 1] == times;
      MulNext(cfg.maxAttempts, -1);
    } else {
      PrefixFacts(cfg, times);
      FailuresPerStreak(cfg, front, n0);
      assert front[..n0 + 1] == times[..n0 + 1];
      StreakShape(cfg, front);
      OneMoreFailure(cfg, times);
      StreakCounts(cfg, After(cfg, front), last);
      MulNext(cfg.maxAttempts, Streaks(cfg, front) - Streaks(cfg, times[..n0 + 1]));
    }
  }

  lemma MulNext(m: int, k: int)
    ensures m * (k + 1) == m * k + m && m * 0 == 0
  {
  }

  lemma OneMoreFailure(cfg: Config, times: seq<int>)
    requires times != []
    ensures var front, last := times[..|times| - 1], times[|times| - 1];
      && After(cfg, times) == Some(FailEntry(cfg, After(cfg, front), last))
      && Streaks(cfg, times) ==
           Streaks(cfg, front) + if StartsStreak(cfg, After(cfg, front), last) then 1 else 0
  {
  }

  lemma StreakCounts(cfg: Config, e: Option<Attempts>, now: int)
    ensures FailEntry(cfg, e, now).failures == if StartsStreak(cfg, e, now) then 1 else e.value.failures + 1
    ensures FailEntry(cfg, e, now).windowStart == if StartsStreak(cfg, e, now) then now else e.value.windowStart
  {
  }

  lemma NextStreakLater(cfg: Config, e: Attempts, now: int)
    requires StartsStreak(cfg, Some(e), now) && !LockedAt(e, now)
    requires e.lockedUntil.Some? ==> e.lockedUntil.value >= e.windowStart + cfg.lockout
    ensures now - e.windowStart >= Spacing(cfg)
  {
  }

  lemma OneMore(k: int, d: int)
    ensures k * d == (k - 1) * d + d && 0 * d == 0
  {
  }

  /** Streaks begin at least Spacing apart. */
  lemma {:induction false} StreaksApart(cfg: Config, times: seq<int>, n0: nat)
    requires IsEnabled(cfg) && cfg.window > 0 && cfg.lockout > 0
    requires n0 < |times| && Sorted(times) && NeverWhileLocked(cfg, times)
    ensures var k := Streaks(cfg, times) - Streaks(cfg, times[..n0 + 1]);
      k >= 0 && (k >= 1 ==> After(cfg, times).value.windowStart >= times[n0] + (k - 1) * Spacing(cfg))
    decreases |times|
  {
    hide FailEntry, StartsStreak;
    var front, last := times[..|times| - 1], times[|times| - 1];
    if n0 + 1 == |times| {
      assert times[..n0 + 1] == times;
    } else {
      PrefixFacts(cfg, times);
      StreaksApart(cfg, front, n0);
      assert front[..n0 + 1] == times[..n0 + 1];
      StreakShape(cfg, front);
      StreakCounts(cfg, After(cfg, front), last);
      assert !LockedAt(After(cfg, front).value, last);
      var k := Streaks(cfg, front) - Streaks(cfg, times[..n0 + 1]);
      if StartsStreak(cfg, After(cfg, front), last) {
        NextStreakLater(cfg, After(cfg, front).value, last);
        OneMore(k, Spacing(cfg));
        assert times[n0] <= last;
      }
    }
  }

  lemma DivAtLeast(a: int, b: int, k: int)
    requires b > 0 && k * b <= a
    ensures k <= a / b
  {
    var q := a / b;
    assert (q + 1) * b == q * b + b;
    assert k >= q + 1 ==> k * b >= (q + 1) * b;
  }

  lemma MulMonotone(m: int, a: int, b: int)
    requires m >= 0 && a <= b
    ensures m * a <= m * b
  {
  }

  lemma DivMonotone(a: int, b: int, d: int)
    requires d > 0 && a <= b
    ensures a / d <= b / d
  {
    DivAtLeast(b, d, a / d);
  }

  /** Consecutive failures n0 .. |times|-1 of one key: their number against the time they span. */
  lemma SpanBound(cfg: Config, times: seq<int>, n0: nat)
    requires IsEnabled(cfg) && cfg.window > 0 && cfg.lockout > 0
    requires n0 < |times| && Sorted(times) && NeverWhileLocked(cfg, times)
    ensures |times| - n0 <= cfg.maxAttempts * ((times[|times| - 1] - times[n0]) / Spacing(cfg) + 2)
  {
    hide FailEntry, StartsStreak;
    FailuresPerStreak(cfg, times, n0);
    StreaksApart(cfg, times, n0);
    StreakShape(cfg, times);
    var k := Streaks(cfg, times) - Streaks(cfg, times[..n0 + 1]);
    var span := times[|times| - 1] - times[n0];
    assert span >= 0;
    if k >= 1 {
      DivAtLeast(span, Spacing(cfg), k - 1);
    } else {
      DivAtLeast(span, Spacing(cfg), 0);
    }
    assert k + 1 <= span / Spacing(cfg) + 2;
    MulMonotone(cfg.maxAttempts, k + 1, span / Spacing(cfg) + 2);
    assert cfg.maxAttempts * (k + 1) == cfg.maxAttempts * k + cfg.maxAttempts;
  }

  function CountIn(times: seq<int>, from: int, to: int): nat {
    if times == [] then 0
    else CountIn(times[..|times| - 1], from, to) + if from <= times[|times| - 1] <= to then 1 else 0
  }

  /** The failures inside an interval are consecutive, so SpanBound applies to them. */
  lemma {:induction false} IntervalBound(cfg: Config, times: seq<int>, from: int, length: nat)
    requires IsEnabled(cfg) && cfg.window > 0 && cfg.lockout > 0
    requires Sorted(times) && NeverWhileLocked(cfg, times)
    ensures CountIn(times, from, from + length) <= cfg.maxAttempts * (length / Spacing(cfg) + 2)
  {
    if times == [] {
      DivAtLeast(length, Spacing(cfg), 0);
      MulMonotone(cfg.maxAttempts, 0, length / Spacing(cfg) + 2);
    } else if times[|times| - 1] > from + length {
      PrefixFacts(cfg, times);
      IntervalBound(cfg, times[..|times| - 1], from, length);
    } else {
      var n0 := FirstFrom(times, from, from + length);
      if n0 == |times| {
        DivAtLeast(length, Spacing(cfg), 0);
        MulMonotone(cfg.maxAttempts, 0, length / Spacing(cfg) + 2);
      } else {
        SpanBound(cfg, times, n0);
        var span := times[|times| - 1] - times[n0];
        DivMonotone(span, length, Spacing(cfg));
        MulMonotone(cfg.maxAttempts, span / Spacing(cfg) + 2, length / Spacing(cfg) + 2);
      }
    }
  }

  lemma {:induction false} FirstFrom(times: seq<int>, from: int, to: int) returns (n0: nat)
    requires Sorted(times)
    ensures n0 <= |times| && (n0 < |times| ==> from <= times[n0]) && CountIn(times, from, to) <= |times| - n0
  {
    if times == [] {
      n0 := 0;
    } else {
      n0 := FirstFrom(times[..|times| - 1], from, to);
      if n0 == |times| - 1 && times[|times| - 1] < from {
        n0 := |times|;
      }
    }
  }

  // ---------------------------------------------------------------- from calls to one key's failures

  predicate NoSuccess(events: seq<Event>, key: string) {
    forall i | 0 <= i < |events| :: !(events[i].Success? && events[i].key == key)
  }

  /** Attempts of the key are serial: each recorded failure follows a check that was answered "not locked",
      with no other failure of that key in between. Answers are the real guard's. */
  predicate Serial(cfg: Config, events: seq<Event>, key: string) {
    forall j | 0 <= j < |events| && events[j].Failure? && events[j].key == key ::
      exists i | 0 <= i < j :: Admitted(cfg, events, key, i, j)
  }

  lemma {:induction false} KeyAlone(cfg: Config, events: seq<Event>, key: string)
    requires IsEnabled(cfg) && NoSuccess(events, key)
    ensures EntryOf(RunUnswept(cfg, events), key) == After(cfg, FailureTimes(events, key))
  {
    hide FailEntry;
    if events != [] {
      var front := events[..|events| - 1];
      KeyAlone(cfg, front, key);
      var e, r := events[|events| - 1], FailureTimes(front, key);
      if e.Failure? && e.key == key {
        assert (r + [e.at])[..|r|] == r;
      }
    }
  }

  lemma {:induction false} TimesSorted(events: seq<Event>, key: string)
    requires Timely(events)
    ensures Sorted(FailureTimes(events, key))
    ensures forall i | 0 <= i < |FailureTimes(events, key)| ::
      events != [] && FailureTimes(events, key)[i] <= events[|events| - 1].at
  {
    if events != [] {
      var front := events[..|events| - 1];
      TimesSorted(front, key);
      assert front != [] ==> front[|front| - 1].at <= events[|events| - 1].at;
      hide Timely;
    }
  }

  lemma {:induction false} SerialNeverLocked(cfg: Config, events: seq<Event>, key: string)
    requires IsEnabled(cfg) && Timely(events) && NoSuccess(events, key) && Serial(cfg, events, key)
    ensures NeverWhileLocked(cfg, FailureTimes(events, key))
  {
    hide FailEntry;
    if events != [] {
      var front, last := events[..|events| - 1], events[|events| - 1];
      SerialPrefix(cfg, events, key);
      SerialNeverLocked(cfg, front, key);
      var r := FailureTimes(front, key);
      if last.Failure? && last.key == key {
        assert FailureTimes(events, key) == r + [last.at];
        if r != [] {
          UnlockedAtRecord(cfg, events, key);
        }
        var all := r + [last.at];
        forall i | 0 < i < |all| ensures !LockedAt(After(cfg, all[..i]).value, all[i]) {
          assert i < |r| ==> all[..i] == r[..i] && all[i] == r[i];
          assert i == |r| ==> all[..i] == r;
        }
      }
    }
  }

  /** The failure at j follows the check at i, which was answered "not locked". */
  predicate Admitted(cfg: Config, events: seq<Event>, key: string, i: nat, j: nat)
    requires i < j <= |events|
  {
    && events[i] == Check(key, events[i].at)
    && RetryAfter(cfg, Run(cfg, events[..i]), key, events[i].at) == None
    && FailureTimes(events[..j], key) == FailureTimes(events[..i], key)
  }

  lemma AdmittedBefore(cfg: Config, events: seq<Event>, key: string, i: nat, j: nat)
    requires i < j < |events| && Admitted(cfg, events, key, i, j)
    ensures Admitted(cfg, events[..|events| - 1], key, i, j)
  {
    hide Run, FailureTimes, RetryAfter;
    var front := events[..|events| - 1];
    assert front[i] == events[i] && front[..i] == events[..i] && front[..j] == events[..j];
  }

  lemma SerialPrefix(cfg: Config, events: seq<Event>, key: string)
    requires events != [] && Timely(events) && NoSuccess(events, key) && Serial(cfg, events, key)
    ensures var front := events[..|events| - 1]; Timely(front) && NoSuccess(front, key) && Serial(cfg, front, key)
  {
    hide Admitted;
    var front := events[..|events| - 1];
    forall j | 0 <= j < |front| && front[j].Failure? && front[j].key == key
      ensures exists i | 0 <= i < j :: Admitted(cfg, front, key, i, j)
    {
      assert events[j] == front[j];
      var i :| 0 <= i < j && Admitted(cfg, events, key, i, j);
      AdmittedBefore(cfg, events, key, i, j);
    }
  }

  /** The check that let an attempt through still holds when its failure is recorded. */
  lemma UnlockedAtRecord(cfg: Config, events: seq<Event>, key: string)
    requires IsEnabled(cfg) && Timely(events) && NoSuccess(events, key) && Serial(cfg, events, key)
    requires events != [] && events[|events| - 1].Failure? && events[|events| - 1].key == key
    requires FailureTimes(events[..|events| - 1], key) != []
    ensures !LockedAt(After(cfg, FailureTimes(events[..|events| - 1], key)).value, events[|events| - 1].at)
  {
    hide FailEntry, Run, RunUnswept;
    var j := |events| - 1;
    assert events[j].Failure? && events[j].key == key;
    var i :| 0 <= i < j && Admitted(cfg, events, key, i, j);
    SweepingInvisible(cfg, events, i);
    KeyAlone(cfg, events[..i], key);
    assert events[i].at <= events[j].at;
  }

  /** Any interval of the given length holds at most maxAttempts * (length / min(window, lockout) + 2)
      failures of one key. */
  lemma LoginRateBound(cfg: Config, events: seq<Event>, key: string, from: int, length: nat)
    requires IsEnabled(cfg) && cfg.window > 0 && cfg.lockout > 0
    requires Timely(events) && NoSuccess(events, key) && Serial(cfg, events, key)
    ensures CountIn(FailureTimes(events, key), from, from + length) <= cfg.maxAttempts * (length / Spacing(cfg) + 2)
  {
    TimesSorted(events, key);
    SerialNeverLocked(cfg, events, key);
    IntervalBound(cfg, FailureTimes(events, key), from, length);
  }

  // ---------------------------------------------------------------- when a key locks

  /** A streak of failures inside one window locks the key at exactly the maxAttempts-th, for exactly the lockout. */
  lemma {:induction false} LocksAtLimit(cfg: Config, times: seq<int>)
    requires IsEnabled(cfg) && 0 < |times| <= cfg.maxAttempts && Sorted(times)
    requires times[|times| - 1] - times[0] <= cfg.window && 0 <= cfg.window
    ensures After(cfg, times) == Some(Attempts(|times|, times[0],
      if |times| == cfg.maxAttempts then Some(times[|times| - 1] + cfg.lockout) else None))
  {
    if |times| > 1 {
      LocksAtLimit(cfg, times[..|times| - 1]);
    }
  }

  /** A failure after the window of its streak, or after its lockout, counts as the first. */
  lemma StreakEnds(cfg: Config, e: Attempts, now: int)
    requires now > e.windowStart + cfg.window || (e.lockedUntil.Some? && now >= e.lockedUntil.value)
    ensures FailEntry(cfg, Some(e), now) ==
      Attempts(1, now, if cfg.maxAttempts <= 1 then Some(now + cfg.lockout) else None)
  {
  }

  /** Locked from the failure that reached the limit until the lockout has passed, and not before or after. */
  lemma LockedExactly(cfg: Config, times: seq<int>, now: int)
    requires IsEnabled(cfg) && 0 < |times| <= cfg.maxAttempts && Sorted(times)
    requires times[|times| - 1] - times[0] <= cfg.window && 0 <= cfg.window && times[|times| - 1] <= now
    ensures LockedAt(After(cfg, times).value, now) <==>
      |times| == cfg.maxAttempts && now < times[|times| - 1] + cfg.lockout
  {
    LocksAtLimit(cfg, times);
  }

  /** A sweep that is due, a window after the last, leaves exactly the keys that are locked or in their window, as they
      are; one that is not due leaves everything. */
  lemma SweepMeans(cfg: Config, g: Guard, now: int)
    ensures var due := g.lastSweep.None? || now >= g.lastSweep.value + cfg.window; var g' := Sweep(cfg, g, now);
      && (!due ==> g' == g)
      && (due ==>
            && g'.lastSweep == Some(now)
            && (forall key :: key in g'.entries <==>
                  key in g.entries &&
                  ((g.entries[key].lockedUntil.Some? && now < g.entries[key].lockedUntil.value) ||
                    now <= g.entries[key].windowStart + cfg.window))
            && (forall key | key in g'.entries :: g'.entries[key] == g.entries[key]))
  {
  }

  // ---------------------------------------------------------------- what a success forgets

  /** The events of one key. */
  function OfKey(events: seq<Event>, key: string): seq<Event> {
    if events == [] then []
    else
      var own := OfKey(events[..|events| - 1], key);
      if events[|events| - 1].key == key then own + [events[|events| - 1]] else own
  }

  /** What one call makes of what is known of a key. */
  function NextEntry(cfg: Config, known: Option<Attempts>, e: Event, key: string): Option<Attempts> {
    if e.key != key || !IsEnabled(cfg) then known
    else
      match e
      case Check(_, _) => known
      case Failure(_, at) => Some(FailEntry(cfg, known, at))
      case Success(_, _) => None
  }

  lemma UnsweptNext(cfg: Config, events: seq<Event>, e: Event, key: string)
    ensures EntryOf(RunUnswept(cfg, events + [e]), key) == NextEntry(cfg, EntryOf(RunUnswept(cfg, events), key), e, key)
  {
    hide FailEntry;
    assert (events + [e])[..|events|] == events;
  }

  /** What is known of a key depends on the events of that key only. */
  lemma {:induction false} KeysApart(cfg: Config, events: seq<Event>, key: string)
    ensures EntryOf(RunUnswept(cfg, events), key) == EntryOf(RunUnswept(cfg, OfKey(events, key)), key)
  {
    hide RunUnswept, EntryOf, FailEntry;
    if events != [] {
      var front, e := events[..|events| - 1], events[|events| - 1];
      assert events == front + [e];
      KeysApart(cfg, front, key);
      UnsweptNext(cfg, front, e, key);
      UnsweptNext(cfg, OfKey(front, key), e, key);
    }
  }

  lemma {:induction false} NothingKnown(cfg: Config, events: seq<Event>, key: string)
    requires !IsEnabled(cfg)
    ensures EntryOf(RunUnswept(cfg, events), key) == None
  {
    if events != [] {
      NothingKnown(cfg, events[..|events| - 1], key);
    }
  }

  lemma KnownAtFirst(cfg: Config, key: string)
    ensures EntryOf(RunUnswept(cfg, []), key) == None
  {
  }

  /** A success forgets every earlier failure of its key. */
  lemma {:induction false} SuccessForgets(cfg: Config, before: seq<Event>, key: string, at: int, after: seq<Event>)
    ensures EntryOf(RunUnswept(cfg, before + [Success(key, at)] + after), key) == EntryOf(RunUnswept(cfg, after), key)
  {
    hide RunUnswept, EntryOf, FailEntry;
    var all := before + [Success(key, at)] + after;
    if after == [] {
      assert all == before + [Success(key, at)];
      UnsweptNext(cfg, before, Success(key, at), key);
      KnownAtFirst(cfg, key);
      if !IsEnabled(cfg) {
        NothingKnown(cfg, before, key);
      }
    } else {
      var front, e := after[..|after| - 1], after[|after| - 1];
      assert after == front + [e];
      assert all == before + [Success(key, at)] + front + [e];
      SuccessForgets(cfg, before, key, at, front);
      UnsweptNext(cfg, before + [Success(key, at)] + front, e, key);
      UnsweptNext(cfg, front, e, key);
    }
  }

  /** With a clock that never runs back, a call about a key is answered after a success of the key as if nothing had
      come before it, and whatever other keys do. */
  lemma FreshAfterSuccess(cfg: Config, before: seq<Event>, key: string, at: int, after: seq<Event>, e: Event)
    requires Timely(before + [Success(key, at)] + after + [e]) && e.key == key
    ensures AnswerOf(cfg, Run(cfg, before + [Success(key, at)] + after), e) ==
      UnsweptAnswer(cfg, RunUnswept(cfg, OfKey(after, key)), e)
  {
    hide Run, RunUnswept, FailEntry;
    var all := before + [Success(key, at)] + after;
    assert (all + [e])[..|all|] == all;
    SweepingInvisible(cfg, all + [e], |all|);
    SuccessForgets(cfg, before, key, at, after);
    KeysApart(cfg, after, key);
  }
}

/** internal/api/bruteforce.go: the guard itself. The clock reading is a parameter of each call. */
module LoginGuard {
  import opened Model
  import opened Throttle

  class LoginGuard {
    const cfg: Config
    var entries: map<string, Attempts>
    var lastSweep: Option<int>

    function Value(): Guard
      reads this
    {
      Guard(entries, lastSweep)
    }

    constructor (maxAttempts: int, window: int, lockout: int)
      ensures cfg == Config(maxAttempts, window, lockout) && Value() == Guard(map[], None)
    {
      cfg := Config(maxAttempts, window, lockout);
      entries, lastSweep := map[], None;
    }

    method RetryAfter(key: string, now: int) returns (locked: bool, wait: int)
      ensures Throttle.RetryAfter(cfg, Value(), key, now) == if locked then Some(wait) else None
      ensures locked ==> wait >= SECOND && wait % SECOND == 0 && entries[key].lockedUntil.value <= now + wait
    {
      if !IsEnabled(cfg) {
        return false, 0;
      }
      if key !in entries || entries[key].lockedUntil == None {
        return false, 0;
      }
      var until := entries[key].lockedUntil.value;
      if now < until {
        WaitCovers(until - now);
        return true, CeilSeconds(until - now);
      }
      return false, 0;
    }

    method RecordFailure(key: string, now: int) returns (lockedNow: bool)
      modifies this
      ensures Value() == Throttle.RecordFailure(cfg, old(Value()), key, now)
      ensures lockedNow == Trips(cfg, old(Value()), key, now)
    {
      if !IsEnabled(cfg) {
        return false;
      }
      SweepLocked(now);
      var e := EntryOf(Value(), key);
      if e == None || now - e.value.windowStart > cfg.window
         || (e.value.lockedUntil.Some? && !(now < e.value.lockedUntil.value)) {
        e := Some(Attempts(0, now, None));
      }
      e := Some(e.value.(failures := e.value.failures + 1));
      if e.value.failures >= cfg.maxAttempts {
        e := Some(e.value.(lockedUntil := Some(now + cfg.lockout)));
        lockedNow := true;
      } else {
        lockedNow := false;
      }
      entries := entries[key := e.value];
    }

    method RecordSuccess(key: string)
      modifies this
      ensures Value() == Throttle.RecordSuccess(cfg, old(Value()), key)
    {
      if !IsEnabled(cfg) {
        return;
      }
      entries := entries - {key};
    }

    method SweepLocked(now: int)
      modifies this
      ensures Value() == Sweep(cfg, old(Value()), now)
    {
      if lastSweep.Some? && now - lastSweep.value < cfg.window {
        return;
      }
      lastSweep := Some(now);
      var todo := entries.Keys;
      while todo != {}
        invariant todo <= entries.Keys <= old(entries).Keys
        invariant lastSweep == Some(now)
        invariant forall key | key in entries :: entries[key] == old(entries)[key]
        invariant forall key | key in old(entries) ::
          key in entries <==> key in todo || !Sweepable(cfg, old(entries)[key], now)
        decreases |todo|
      {
        var key :| key in todo;
        var e := entries[key];
        var expiredLock := e.lockedUntil == None || !(now < e.lockedUntil.value);
        var agedOut := now - e.windowStart > cfg.window;
        if expiredLock && agedOut {
          entries := entries - {key};
        }
        todo := todo - {key};
      }
    }
  }

  /** Rounding up: never less than the remaining time, and less than a second more. */
  lemma WaitCovers(d: int)
    requires d > 0
    ensures d <= CeilSeconds(d) < d + SECOND && CeilSeconds(d) % SECOND == 0 && CeilSeconds(d) >= SECOND
  {
    var q := (d + SECOND - 1) / SECOND;
    assert q * SECOND % SECOND == 0;
  }
}
