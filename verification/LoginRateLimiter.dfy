/** The login rate limiter: a fixed window of counted failures and a block, per key.

    Times are integer clock ticks. `record_failure` reads the clock twice, once itself and once in
    the `evaluate` it calls, so a failure carries two readings. */
module LoginRateLimiter {
  import opened Basics

  type Key = string
  type Time = int

  const TICKS_PER_SECOND := 1_000_000

  datatype Config = Config(maxAttempts: int, window: int, block: int)

  predicate Sane(cfg: Config) {
    cfg.maxAttempts >= 1 && cfg.window >= 60 * TICKS_PER_SECOND && cfg.block >= 60 * TICKS_PER_SECOND
  }

  datatype Entry = Entry(windowStart: Time, failed: int, blockedUntil: Option<Time>)

  type Entries = map<Key, Entry>

  datatype Decision = Decision(blocked: bool, retryAfter: int)

  const PASS := Decision(false, 0)

  function RetryAfter(until: Time, now: Time): int {
    Max(1, (until - now) / TICKS_PER_SECOND)
  }

  // ----- one entry -------------------------------------------------------------------------

  function Find(entries: Entries, key: Key): Option<Entry> {
    if key in entries then Some(entries[key]) else None
  }

  function Store(entries: Entries, key: Key, e: Option<Entry>): Entries {
    if e.Some? then entries[key := e.value] else Without(entries, key)
  }

  predicate Blocked(e: Option<Entry>, now: Time) {
    e.Some? && e.value.blockedUntil.Some? && now < e.value.blockedUntil.value
  }

  predicate WindowOver(cfg: Config, e: Option<Entry>, now: Time) {
    e.Some? && now - e.value.windowStart >= cfg.window
  }

  /** What `evaluate` leaves: an entry whose window is over is dropped unless it still blocks. */
  function Evaluated(cfg: Config, e: Option<Entry>, now: Time): Option<Entry> {
    if !Blocked(e, now) && WindowOver(cfg, e, now) then None else e
  }

  function Verdict(e: Option<Entry>, now: Time): Decision {
    if Blocked(e, now) then Decision(true, RetryAfter(e.value.blockedUntil.value, now)) else PASS
  }

  /** The entry a failure is counted in. */
  function Opened(cfg: Config, e: Option<Entry>, now: Time): Entry {
    if e.None? then Entry(now, 0, None)
    else if WindowOver(cfg, e, now) then e.value.(windowStart := now, failed := 0)
    else e.value
  }

  function Bumped(cfg: Config, e: Entry, now: Time): Entry {
    if e.failed + 1 >= cfg.maxAttempts
    then e.(failed := e.failed + 1, blockedUntil := Some(now + cfg.block))
    else e.(failed := e.failed + 1)
  }

  function Failed(cfg: Config, e: Option<Entry>, now: Time, later: Time): Option<Entry> {
    if Blocked(e, later) then e
    else Some(Bumped(cfg, Opened(cfg, Evaluated(cfg, e, later), now), now))
  }

  function FailureVerdict(cfg: Config, e: Option<Entry>, now: Time, later: Time): Decision {
    if Blocked(e, later) then Verdict(e, later)
    else if Opened(cfg, Evaluated(cfg, e, later), now).failed + 1 >= cfg.maxAttempts
    then Decision(true, RetryAfter(now + cfg.block, now))
    else PASS
  }

  // ----- the class -------------------------------------------------------------------------

  class RateLimiter {
    const cfg: Config
    var entries: Entries

    constructor (maxAttempts: int, windowSeconds: int, blockSeconds: int)
      ensures Sane(cfg) && entries == map[]
      ensures cfg.maxAttempts == if maxAttempts < 1 then 1 else maxAttempts
      ensures cfg.window == (if windowSeconds < 60 then 60 else windowSeconds) * TICKS_PER_SECOND
      ensures cfg.block == (if blockSeconds < 60 then 60 else blockSeconds) * TICKS_PER_SECOND
    {
      cfg := Config(Max(1, maxAttempts), Max(60, windowSeconds) * TICKS_PER_SECOND,
                    Max(60, blockSeconds) * TICKS_PER_SECOND);
      entries := map[];
    }

    method Evaluate(key: Key, now: Time) returns (d: Decision)
      modifies this
      ensures d == Verdict(Find(old(entries), key), now)
      ensures entries == Store(old(entries), key, Evaluated(cfg, Find(old(entries), key), now))
    {
      if key !in entries {
        assert Without(entries, key) == entries;
        return PASS;
      }
      var entry := entries[key];
      if entry.blockedUntil.Some? && now < entry.blockedUntil.value {
        return Decision(true, Max(1, (entry.blockedUntil.value - now) / TICKS_PER_SECOND));
      }
      if now - entry.windowStart >= cfg.window {
        entries := Without(entries, key);
      }
      return PASS;
    }

    method RecordFailure(key: Key, now: Time, later: Time) returns (d: Decision)
      modifies this
      ensures d == FailureVerdict(cfg, Find(old(entries), key), now, later)
      ensures entries == Store(old(entries), key, Failed(cfg, Find(old(entries), key), now, later))
    {
      var decision := Evaluate(key, later);
      if decision.blocked {
        return decision;
      }
      var entry: Entry;
      if key !in entries {
        entry := Entry(now, 0, None);
      } else {
        entry := entries[key];
        if now - entry.windowStart >= cfg.window {
          entry := entry.(windowStart := now, failed := 0);
        }
      }
      entry := entry.(failed := entry.failed + 1);
      if entry.failed >= cfg.maxAttempts {
        entry := entry.(blockedUntil := Some(now + cfg.block));
        d := Decision(true, Max(1, (now + cfg.block - now) / TICKS_PER_SECOND));
      } else {
        d := PASS;
      }
      entries := entries[key := entry];
    }

    method RecordSuccess(key: Key)
      modifies this
      ensures entries == Store(old(entries), key, None)
    {
      entries := Without(entries, key);
    }
  }

  // ----- runs ------------------------------------------------------------------------------

  datatype Event =
    | Ask(key: Key, now: Time)
    | Failure(key: Key, now: Time, later: Time)
    | Success(key: Key, now: Time)

  /** The last reading an event takes. */
  function ClockAfter(e: Event): Time {
    if e.Failure? then e.later else e.now
  }

  /** Readings never go back, and the two readings of one failure are at most `skew` apart. */
  predicate Timely(events: seq<Event>, clock: Time, skew: nat)
    decreases |events|
  {
    events != [] ==>
      && clock <= events[0].now
      && (events[0].Failure? ==> events[0].now <= events[0].later <= events[0].now + skew)
      && Timely(events[1..], ClockAfter(events[0]), skew)
  }

  function Step(cfg: Config, entries: Entries, e: Event): Entries {
    match e
    case Ask(key, now) => Store(entries, key, Evaluated(cfg, Find(entries, key), now))
    case Failure(key, now, later) => Store(entries, key, Failed(cfg, Find(entries, key), now, later))
    case Success(key, _) => Store(entries, key, None)
  }

  predicate Counts(entries: Entries, e: Event, key: Key) {
    e.Failure? && e.key == key && !Blocked(Find(entries, key), e.later)
  }

  /** How many failures of `key` the limiter counts at times from `start` up to, not including, `end`. */
  function CountedIn(cfg: Config, entries: Entries, events: seq<Event>, key: Key, start: Time, end: Time): nat
    decreases |events|
  {
    if events == [] then 0
    else
      (if Counts(entries, events[0], key) && start <= events[0].now < end then 1 else 0)
      + CountedIn(cfg, Step(cfg, entries, events[0]), events[1..], key, start, end)
  }

  predicate NoSuccess(events: seq<Event>, key: Key) {
    forall e | e in events :: e.Success? ==> e.key != key
  }

  /** Every stored entry has counted at least one failure. */
  predicate Started(entries: Entries, key: Key) {
    key in entries ==> entries[key].failed >= 1
  }

  lemma FindAfterStore(entries: Entries, key: Key, e: Option<Entry>, other: Key)
    ensures Find(Store(entries, key, e), other) == if other == key then e else Find(entries, other)
  {
  }

  /** The bound: the greater of maxAttempts and 2 * maxAttempts - 2. */
  function Bound(cfg: Config): int {
    Max(cfg.maxAttempts, 2 * cfg.maxAttempts - 2)
  }

  /** With three attempts or more, a run that uses up the bound begins its block after the first tick of the
      interval, one tick later than a run with fewer attempts can. */
  function Slack(cfg: Config): nat {
    if cfg.maxAttempts >= 3 then 1 else 0
  }

  /** No failure whose first reading lies in the interval can find over the block that used up the bound. */
  predicate Outlasts(cfg: Config, length: int, skew: nat) {
    length <= Slack(cfg) || length + skew <= cfg.block + Slack(cfg)
  }

  /** The intervals the limits speak about. With one attempt the window plays no part. */
  predicate Fits(cfg: Config, length: int) {
    cfg.maxAttempts >= 2 ==> length <= Min(cfg.window, cfg.block)
  }

  /** How many more failures can be counted before `end` after the clock has reached the interval. A failure
      whose second reading is past `end` is the last one, and may find a block over that began at `start`. */
  function Left(cfg: Config, e: Option<Entry>, start: Time, end: Time, skew: nat, clock: Time): int {
    var extra := if clock <= start then Slack(cfg) else 0;
    if e.None? then cfg.maxAttempts + extra
    else if e.value.blockedUntil.Some? && e.value.blockedUntil.value >= end + skew then 0
    else if e.value.blockedUntil.Some? && e.value.blockedUntil.value >= end then 1
    else if e.value.windowStart >= start then Max(1, cfg.maxAttempts - e.value.failed) + extra
    else if e.value.failed >= cfg.maxAttempts || start - e.value.windowStart >= cfg.window then cfg.maxAttempts + extra
    else 2 * cfg.maxAttempts - 1 - e.value.failed
  }

  lemma LeftPaysForFailure(cfg: Config, e: Option<Entry>, now: Time, later: Time, start: Time, end: Time, skew: nat,
                           clock: Time)
    requires Sane(cfg) && (e.Some? ==> e.value.failed >= 1) && clock <= now
    requires start <= now < end && now <= later <= now + skew
    requires Fits(cfg, end - start) && Outlasts(cfg, end - start, skew)
    ensures var after := Failed(cfg, e, now, later);
            && after.Some? && after.value.failed >= 1
            && (if Blocked(e, later) then 0 else 1) <= Left(cfg, e, start, end, skew, clock)
            && (later < end ==>
                  Left(cfg, after, start, end, skew, later) + (if Blocked(e, later) then 0 else 1)
                  <= Left(cfg, e, start, end, skew, clock))
  {
  }

  lemma NothingCountedAfter(cfg: Config, entries: Entries, events: seq<Event>, key: Key, start: Time, end: Time,
                            clock: Time, skew: nat)
    requires Timely(events, clock, skew) && clock >= end
    ensures CountedIn(cfg, entries, events, key, start, end) == 0
    decreases |events|
  {
    if events != [] {
      NothingCountedAfter(cfg, Step(cfg, entries, events[0]), events[1..], key, start, end,
                          ClockAfter(events[0]), skew);
    }
  }

  lemma LeftAfterAsk(cfg: Config, e: Option<Entry>, now: Time, start: Time, end: Time, skew: nat, clock: Time)
    requires Sane(cfg) && (e.Some? ==> e.value.failed >= 1)
    requires start <= clock <= now < end && Fits(cfg, end - start)
    ensures Left(cfg, Evaluated(cfg, e, now), start, end, skew, now) <= Left(cfg, e, start, end, skew, clock)
  {
  }

  lemma StepFinds(cfg: Config, entries: Entries, e: Event, key: Key)
    ensures Find(Step(cfg, entries, e), key) ==
              if e.key != key then Find(entries, key)
              else match e
                   case Ask(_, now) => Evaluated(cfg, Find(entries, key), now)
                   case Failure(_, now, later) => Failed(cfg, Find(entries, key), now, later)
                   case Success(_, _) => None
  {
  }

  lemma {:induction false} CountedInside(cfg: Config, entries: Entries, events: seq<Event>, key: Key,
                                         start: Time, end: Time, clock: Time, skew: nat)
    requires Sane(cfg) && Started(entries, key) && Timely(events, clock, skew) && NoSuccess(events, key)
    requires clock >= start && Fits(cfg, end - start) && Outlasts(cfg, end - start, skew)
    ensures CountedIn(cfg, entries, events, key, start, end) <= Left(cfg, Find(entries, key), start, end, skew, clock)
    decreases |events|
  {
    if events != [] {
      var e := events[0];
      var next := Step(cfg, entries, e);
      assert e in events && forall x | x in events[1..] :: x in events;
      StepFinds(cfg, entries, e, key);
      if e.now < end && e.key == key && e.Failure? {
        LeftPaysForFailure(cfg, Find(entries, key), e.now, e.later, start, end, skew, clock);
      }
      if ClockAfter(e) >= end {
        NothingCountedAfter(cfg, next, events[1..], key, start, end, ClockAfter(e), skew);
      } else {
        if e.key == key && e.Ask? {
          LeftAfterAsk(cfg, Find(entries, key), e.now, start, end, skew, clock);
        }
        CountedInside(cfg, next, events[1..], key, start, end, ClockAfter(e), skew);
      }
    }
  }

  lemma LeftAtStart(cfg: Config, e: Option<Entry>, start: Time, end: Time, skew: nat)
    requires Sane(cfg) && (e.Some? ==> e.value.failed >= 1)
    ensures Left(cfg, e, start, end, skew, start) <= Bound(cfg)
  {
  }

  /** In every run in which `key` has no success, an interval no longer than the window and the block counts
      at most max(m, 2m - 2) failures of the key, if no block that begins in it is over for a failure of it:
      whatever happens to other keys and however often the limiter is asked. */
  lemma {:induction false} FailuresBounded(cfg: Config, entries: Entries, events: seq<Event>, key: Key,
                                           start: Time, end: Time, clock: Time, skew: nat)
    requires Sane(cfg) && Started(entries, key) && Timely(events, clock, skew) && NoSuccess(events, key)
    requires Fits(cfg, end - start) && Outlasts(cfg, end - start, skew)
    ensures CountedIn(cfg, entries, events, key, start, end) <= Bound(cfg)
    decreases |events|
  {
    if clock >= start {
      CountedFromStart(cfg, entries, events, key, start, end, clock, skew);
    } else if events != [] {
      var e := events[0];
      assert e in events && forall x | x in events[1..] :: x in events;
      if e.now >= start {
        CountedFromStart(cfg, entries, events, key, start, end, start, skew);
      } else {
        StepFinds(cfg, entries, e, key);
        FailuresBounded(cfg, Step(cfg, entries, e), events[1..], key, start, end, ClockAfter(e), skew);
      }
    }
  }

  lemma CountedFromStart(cfg: Config, entries: Entries, events: seq<Event>, key: Key,
                         start: Time, end: Time, clock: Time, skew: nat)
    requires Sane(cfg) && Started(entries, key) && Timely(events, clock, skew) && NoSuccess(events, key)
    requires clock >= start && Fits(cfg, end - start) && Outlasts(cfg, end - start, skew)
    ensures CountedIn(cfg, entries, events, key, start, end) <= Bound(cfg)
  {
    LeftAtStart(cfg, Find(entries, key), start, end, skew);
    assert Timely(events, start, skew);
    CountedInside(cfg, entries, events, key, start, end, start, skew);
  }

  /** Whatever the readings of a failure are apart, full intervals keep the bound of 2m - 1 from two attempts
      on. The failures whose readings both lie in the interval keep the bound above; there is one more at most. */
  lemma {:induction false} FailuresBoundedAlways(cfg: Config, entries: Entries, events: seq<Event>, key: Key,
                                                 start: Time, end: Time, clock: Time, skew: nat)
    requires Sane(cfg) && cfg.maxAttempts >= 2
    requires Started(entries, key) && Timely(events, clock, skew) && NoSuccess(events, key)
    requires end - start <= Min(cfg.window, cfg.block)
    ensures CountedIn(cfg, entries, events, key, start, end) <= 2 * cfg.maxAttempts - 1
    decreases |events|
  {
    if clock >= start {
      CountedWithLast(cfg, entries, events, key, start, end, clock, skew);
      LeftAtStart(cfg, Find(entries, key), start, end, 0);
    } else if events != [] {
      var e := events[0];
      assert e in events && forall x | x in events[1..] :: x in events;
      if e.now >= start {
        CountedWithLast(cfg, entries, events, key, start, end, start, skew);
        LeftAtStart(cfg, Find(entries, key), start, end, 0);
      } else {
        StepFinds(cfg, entries, e, key);
        FailuresBoundedAlways(cfg, Step(cfg, entries, e), events[1..], key, start, end, ClockAfter(e), skew);
      }
    }
  }

  lemma {:induction false} CountedWithLast(cfg: Config, entries: Entries, events: seq<Event>, key: Key,
                                           start: Time, end: Time, clock: Time, skew: nat)
    requires Sane(cfg) && cfg.maxAttempts >= 2
    requires Started(entries, key) && Timely(events, clock, skew) && NoSuccess(events, key)
    requires clock >= start && end - start <= Min(cfg.window, cfg.block)
    ensures CountedIn(cfg, entries, events, key, start, end) <= Left(cfg, Find(entries, key), start, end, 0, clock) + 1
    decreases |events|
  {
    if events != [] {
      var e := events[0];
      var next := Step(cfg, entries, e);
      assert e in events && forall x | x in events[1..] :: x in events;
      StepFinds(cfg, entries, e, key);
      if ClockAfter(e) >= end {
        NothingCountedAfter(cfg, next, events[1..], key, start, end, ClockAfter(e), skew);
      } else {
        if e.key == key && e.Failure? {
          PaidWithin(cfg, Find(entries, key), e.now, e.later, start, end, clock);
        }
        if e.key == key && e.Ask? {
          LeftAfterAsk(cfg, Find(entries, key), e.now, start, end, 0, clock);
        }
        CountedWithLast(cfg, next, events[1..], key, start, end, ClockAfter(e), skew);
      }
    }
  }

  /** A failure whose readings both lie in the interval is paid for as if they agreed. */
  lemma PaidWithin(cfg: Config, e: Option<Entry>, now: Time, later: Time, start: Time, end: Time, clock: Time)
    requires Sane(cfg) && cfg.maxAttempts >= 2 && (e.Some? ==> e.value.failed >= 1)
    requires start <= clock <= now <= later < end && end - start <= Min(cfg.window, cfg.block)
    ensures var after := Failed(cfg, e, now, later);
            && after.Some? && after.value.failed >= 1
            && Left(cfg, after, start, end, 0, later) + (if Blocked(e, later) then 0 else 1)
               <= Left(cfg, e, start, end, 0, clock)
  {
  }

  // ----- the bound is reached ---------------------------------------------------------------

  function Burst(key: Key, now: Time, n: nat): seq<Event>
    decreases n
  {
    if n == 0 then [] else [Failure(key, now, now)] + Burst(key, now, n - 1)
  }

  lemma TimelyCons(e: Event, rest: seq<Event>, clock: Time, skew: nat)
    requires e.Failure? && e.later == e.now && clock <= e.now && Timely(rest, e.now, skew)
    ensures Timely([e] + rest, clock, skew)
  {
    assert ([e] + rest)[1..] == rest;
  }

  lemma CountedCons(cfg: Config, entries: Entries, e: Event, rest: seq<Event>, key: Key, start: Time, end: Time)
    ensures CountedIn(cfg, entries, [e] + rest, key, start, end)
            == (if Counts(entries, e, key) && start <= e.now < end then 1 else 0)
               + CountedIn(cfg, Step(cfg, entries, e), rest, key, start, end)
  {
    assert ([e] + rest)[1..] == rest;
  }

  lemma BurstTimely(key: Key, now: Time, n: nat, rest: seq<Event>, clock: Time, skew: nat)
    requires clock <= now && Timely(rest, now, skew)
    ensures Timely(Burst(key, now, n) + rest, clock, skew)
    decreases n
  {
    if n > 0 {
      BurstTimely(key, now, n - 1, rest, now, skew);
      TimelyCons(Failure(key, now, now), Burst(key, now, n - 1) + rest, clock, skew);
      assert Burst(key, now, n) + rest == [Failure(key, now, now)] + (Burst(key, now, n - 1) + rest);
    } else {
      assert Burst(key, now, n) + rest == rest;
    }
  }

  /** A burst in a running window that stays below the limit counts each of its failures. */
  lemma BurstCounts(cfg: Config, key: Key, e: Entry, now: Time, n: nat, rest: seq<Event>, start: Time, end: Time)
    requires Sane(cfg) && start <= now < end
    requires e.blockedUntil.None? && now - e.windowStart < cfg.window
    requires e.failed + n < cfg.maxAttempts
    ensures CountedIn(cfg, map[key := e], Burst(key, now, n) + rest, key, start, end)
            == n + CountedIn(cfg, map[key := e.(failed := e.failed + n)], rest, key, start, end)
    decreases n
  {
    if n == 0 {
      assert Burst(key, now, n) + rest == rest;
    } else {
      var one := Failure(key, now, now);
      var more := Burst(key, now, n - 1) + rest;
      assert Burst(key, now, n) + rest == [one] + more;
      CountedCons(cfg, map[key := e], one, more, key, start, end);
      assert Step(cfg, map[key := e], one) == map[key := e.(failed := e.failed + 1)];
      BurstCounts(cfg, key, e.(failed := e.failed + 1), now, n - 1, rest, start, end);
    }
  }

  /** The run that reaches the bound: one failure opens a window, m - 2 more come in its last tick, which is
      `start`, and m come when the next window opens. */
  function WorstRun(cfg: Config, key: Key, start: Time, rest: seq<Event>): seq<Event>
    requires cfg.maxAttempts >= 2
  {
    [Opening(cfg, key, start)] + (Burst(key, start, cfg.maxAttempts - 2) + SecondWindow(cfg, key, start + 1, rest))
  }

  function Opening(cfg: Config, key: Key, start: Time): Event {
    Failure(key, start + 1 - cfg.window, start + 1 - cfg.window)
  }

  function SecondWindow(cfg: Config, key: Key, now: Time, rest: seq<Event>): seq<Event>
    requires cfg.maxAttempts >= 2
  {
    var next := Failure(key, now, now);
    [next] + (Burst(key, now, cfg.maxAttempts - 2) + ([next] + rest))
  }

  /** The limiter after the worst run. */
  function BlockedAt(cfg: Config, key: Key, now: Time): Entries {
    map[key := Entry(now, cfg.maxAttempts, Some(now + cfg.block))]
  }

  lemma SecondWindowCounts(cfg: Config, key: Key, e: Entry, start: Time, end: Time, rest: seq<Event>)
    requires Sane(cfg) && cfg.maxAttempts >= 2 && start + 1 < end
    requires e == Entry(start + 1 - cfg.window, cfg.maxAttempts - 1, None)
    ensures CountedIn(cfg, map[key := e], SecondWindow(cfg, key, start + 1, rest), key, start, end)
            == cfg.maxAttempts + CountedIn(cfg, BlockedAt(cfg, key, start + 1), rest, key, start, end)
  {
    var now, m := start + 1, cfg.maxAttempts;
    var next := Failure(key, now, now);
    CountedCons(cfg, map[key := e], next, Burst(key, now, m - 2) + ([next] + rest), key, start, end);
    assert Step(cfg, map[key := e], next) == map[key := Entry(now, 1, None)];
    BurstCounts(cfg, key, Entry(now, 1, None), now, m - 2, [next] + rest, start, end);
    LastOfWindow(cfg, key, start, end, rest);
  }

  lemma LastOfWindow(cfg: Config, key: Key, start: Time, end: Time, rest: seq<Event>)
    requires Sane(cfg) && cfg.maxAttempts >= 2 && start + 1 < end
    ensures var now := start + 1;
            CountedIn(cfg, map[key := Entry(now, cfg.maxAttempts - 1, None)], [Failure(key, now, now)] + rest, key, start, end)
            == 1 + CountedIn(cfg, BlockedAt(cfg, key, now), rest, key, start, end)
  {
    var now := start + 1;
    var almost := map[key := Entry(now, cfg.maxAttempts - 1, None)];
    CountedCons(cfg, almost, Failure(key, now, now), rest, key, start, end);
    assert Step(cfg, almost, Failure(key, now, now)) == BlockedAt(cfg, key, now);
  }

  lemma WorstRunCounts(cfg: Config, key: Key, start: Time, end: Time, rest: seq<Event>)
    requires Sane(cfg) && cfg.maxAttempts >= 2 && start + 1 < end
    ensures CountedIn(cfg, map[], WorstRun(cfg, key, start, rest), key, start, end)
            == Bound(cfg) + CountedIn(cfg, BlockedAt(cfg, key, start + 1), rest, key, start, end)
  {
    var first := Entry(start + 1 - cfg.window, 1, None);
    var second := SecondWindow(cfg, key, start + 1, rest);
    CountedCons(cfg, map[], Opening(cfg, key, start), Burst(key, start, cfg.maxAttempts - 2) + second, key, start, end);
    assert Step(cfg, map[], Opening(cfg, key, start)) == map[key := first];
    BurstCounts(cfg, key, first, start, cfg.maxAttempts - 2, second, start, end);
    SecondWindowCounts(cfg, key, first.(failed := cfg.maxAttempts - 1), start, end, rest);
  }

  lemma WorstRunTimely(cfg: Config, key: Key, start: Time, rest: seq<Event>, skew: nat)
    requires Sane(cfg) && cfg.maxAttempts >= 2 && Timely(rest, start + 1, skew) && NoSuccess(rest, key)
    ensures Timely(WorstRun(cfg, key, start, rest), start + 1 - cfg.window, skew)
    ensures NoSuccess(WorstRun(cfg, key, start, rest), key)
  {
    var now, m := start + 1, cfg.maxAttempts;
    var next := Failure(key, now, now);
    TimelyCons(next, rest, now, skew);
    BurstTimely(key, now, m - 2, [next] + rest, now, skew);
    TimelyCons(next, Burst(key, now, m - 2) + ([next] + rest), start, skew);
    BurstTimely(key, start, m - 2, SecondWindow(cfg, key, now, rest), now - cfg.window, skew);
    TimelyCons(Opening(cfg, key, start), Burst(key, start, m - 2) + SecondWindow(cfg, key, now, rest), now - cfg.window, skew);
    BurstHasNoSuccess(key, now, m - 2);
    BurstHasNoSuccess(key, start, m - 2);
  }

  /** The bound cannot be lowered: for every limit m >= 2 and every interval of two ticks or more, the worst
      run counts exactly 2m - 2 failures in it, with readings that agree. */
  lemma BoundIsReached(cfg: Config, key: Key, start: Time, end: Time)
    requires Sane(cfg) && cfg.maxAttempts >= 2 && start + 1 < end
    ensures Timely(WorstRun(cfg, key, start, []), start + 1 - cfg.window, 0)
    ensures NoSuccess(WorstRun(cfg, key, start, []), key)
    ensures CountedIn(cfg, map[], WorstRun(cfg, key, start, []), key, start, end) == Bound(cfg)
  {
    WorstRunTimely(cfg, key, start, [], 0);
    WorstRunCounts(cfg, key, start, end, []);
  }

  lemma BurstHasNoSuccess(key: Key, now: Time, n: nat)
    ensures forall e | e in Burst(key, now, n) :: e.Failure?
    decreases n
  {
    if n > 0 {
      BurstHasNoSuccess(key, now, n - 1);
    }
  }

  // ----- when the bound holds ---------------------------------------------------------------

  /** Every run of a new limiter without a success for the key keeps the bound in this interval. */
  ghost predicate BoundHolds(cfg: Config, key: Key, start: Time, end: Time, skew: nat) {
    forall events, clock | Timely(events, clock, skew) && NoSuccess(events, key) ::
      CountedIn(cfg, map[], events, key, start, end) <= Bound(cfg)
  }

  /** One or two attempts: as many failures as allowed at `start`, and one that finds the block over. */
  function FreshRun(cfg: Config, key: Key, start: Time, last: Event): seq<Event>
    requires cfg.maxAttempts >= 1
  {
    Burst(key, start, cfg.maxAttempts - 1) + ([Failure(key, start, start)] + [last])
  }

  lemma BurstFromNothing(cfg: Config, key: Key, now: Time, n: nat, rest: seq<Event>, start: Time, end: Time)
    requires Sane(cfg) && start <= now < end && 1 <= n < cfg.maxAttempts
    ensures CountedIn(cfg, map[], Burst(key, now, n) + rest, key, start, end)
            == n + CountedIn(cfg, map[key := Entry(now, n, None)], rest, key, start, end)
  {
    var one := Failure(key, now, now);
    assert Burst(key, now, n) + rest == [one] + (Burst(key, now, n - 1) + rest);
    CountedCons(cfg, map[], one, Burst(key, now, n - 1) + rest, key, start, end);
    assert Step(cfg, map[], one) == map[key := Entry(now, 1, None)];
    BurstCounts(cfg, key, Entry(now, 1, None), now, n - 1, rest, start, end);
  }

  lemma FreshRunCounts(cfg: Config, key: Key, start: Time, end: Time, last: Event)
    requires Sane(cfg) && start < end
    ensures CountedIn(cfg, map[], FreshRun(cfg, key, start, last), key, start, end)
            == cfg.maxAttempts + CountedIn(cfg, BlockedAt(cfg, key, start), [last], key, start, end)
  {
    var m := cfg.maxAttempts;
    var one := Failure(key, start, start);
    var earlier: Entries := if m == 1 then map[] else map[key := Entry(start, m - 1, None)];
    if m > 1 {
      BurstFromNothing(cfg, key, start, m - 1, [one] + [last], start, end);
    } else {
      assert Burst(key, start, 0) + ([one] + [last]) == [one] + [last];
    }
    CountedCons(cfg, earlier, one, [last], key, start, end);
    assert Step(cfg, earlier, one) == BlockedAt(cfg, key, start);
  }

  lemma FreshRunTimely(cfg: Config, key: Key, start: Time, last: Event, skew: nat)
    requires Sane(cfg) && Timely([last], start, skew) && NoSuccess([last], key)
    ensures Timely(FreshRun(cfg, key, start, last), start, skew) && NoSuccess(FreshRun(cfg, key, start, last), key)
  {
    TimelyCons(Failure(key, start, start), [last], start, skew);
    BurstTimely(key, start, cfg.maxAttempts - 1, [Failure(key, start, start)] + [last], start, skew);
    BurstHasNoSuccess(key, start, cfg.maxAttempts - 1);
  }

  /** The failure of the last tick whose second reading finds the block over. */
  lemma LastCounts(cfg: Config, key: Key, now: Time, start: Time, end: Time, skew: nat)
    requires Sane(cfg) && start <= now < end && end - 1 + skew >= now + cfg.block
    ensures var last := Failure(key, end - 1, end - 1 + skew);
            && Timely([last], now, skew) && NoSuccess([last], key)
            && CountedIn(cfg, BlockedAt(cfg, key, now), [last], key, start, end) == 1
  {
    var last := Failure(key, end - 1, end - 1 + skew);
    assert [last][1..] == [];
    assert !Blocked(Find(BlockedAt(cfg, key, now), key), last.later);
  }

  lemma BoundBroken(cfg: Config, key: Key, start: Time, end: Time, skew: nat)
    requires Sane(cfg) && start < end && Fits(cfg, end - start) && !Outlasts(cfg, end - start, skew)
    ensures !BoundHolds(cfg, key, start, end, skew)
  {
    var last := Failure(key, end - 1, end - 1 + skew);
    if cfg.maxAttempts >= 3 {
      LastCounts(cfg, key, start + 1, start, end, skew);
      WorstRunTimely(cfg, key, start, [last], skew);
      WorstRunCounts(cfg, key, start, end, [last]);
    } else {
      LastCounts(cfg, key, start, start, end, skew);
      FreshRunTimely(cfg, key, start, last, skew);
      FreshRunCounts(cfg, key, start, end, last);
    }
  }

  /** Exactly when a full interval keeps the bound: the interval and the greatest difference of two readings
      together are no longer than the block, or one tick longer from three attempts on, where a single tick
      always keeps it. With one attempt the bound is one failure, and the window plays no part. */
  lemma BoundHoldsIff(cfg: Config, key: Key, start: Time, end: Time, skew: nat)
    requires Sane(cfg) && start < end && (cfg.maxAttempts >= 2 ==> end - start <= Min(cfg.window, cfg.block))
    ensures BoundHolds(cfg, key, start, end, skew)
            <==> || end - start + skew <= cfg.block
                 || (cfg.maxAttempts >= 3 && (end - start == 1 || end - start + skew == cfg.block + 1))
  {
    if Outlasts(cfg, end - start, skew) {
      forall events, clock | Timely(events, clock, skew) && NoSuccess(events, key)
        ensures CountedIn(cfg, map[], events, key, start, end) <= Bound(cfg)
      {
        FailuresBounded(cfg, map[], events, key, start, end, clock, skew);
      }
    } else {
      BoundBroken(cfg, key, start, end, skew);
    }
  }

  // ----- cleaning up in evaluate ------------------------------------------------------------

  /** The limiter whose `evaluate` is read-only. */
  function FailedKeeping(cfg: Config, e: Option<Entry>, now: Time, later: Time): Option<Entry> {
    if Blocked(e, later) then e else Some(Bumped(cfg, Opened(cfg, e, now), now))
  }

  function StepKeeping(cfg: Config, entries: Entries, e: Event): Entries {
    match e
    case Ask(_, _) => entries
    case Failure(key, now, later) => Store(entries, key, FailedKeeping(cfg, Find(entries, key), now, later))
    case Success(key, _) => Store(entries, key, None)
  }

  function VerdictKeeping(cfg: Config, e: Option<Entry>, now: Time, later: Time): Decision {
    if Blocked(e, later) then Verdict(e, later)
    else if Opened(cfg, e, now).failed + 1 >= cfg.maxAttempts then Decision(true, RetryAfter(now + cfg.block, now))
    else PASS
  }

  function Answer(cfg: Config, entries: Entries, e: Event): Decision {
    match e
    case Ask(key, now) => Verdict(Find(entries, key), now)
    case Failure(key, now, later) => FailureVerdict(cfg, Find(entries, key), now, later)
    case Success(_, _) => PASS
  }

  function AnswerKeeping(cfg: Config, entries: Entries, e: Event): Decision {
    match e
    case Ask(key, now) => Verdict(Find(entries, key), now)
    case Failure(key, now, later) => VerdictKeeping(cfg, Find(entries, key), now, later)
    case Success(_, _) => PASS
  }

  function Answers(cfg: Config, entries: Entries, events: seq<Event>): seq<Decision>
    decreases |events|
  {
    if events == [] then []
    else [Answer(cfg, entries, events[0])] + Answers(cfg, Step(cfg, entries, events[0]), events[1..])
  }

  function AnswersKeeping(cfg: Config, entries: Entries, events: seq<Event>): seq<Decision>
    decreases |events|
  {
    if events == [] then []
    else [AnswerKeeping(cfg, entries, events[0])]
         + AnswersKeeping(cfg, StepKeeping(cfg, entries, events[0]), events[1..])
  }

  /** From `clock` on the entry is as good as none. */
  predicate Idle(cfg: Config, e: Option<Entry>, clock: Time) {
    e.None? || (!Blocked(e, clock) && WindowOver(cfg, e, clock))
  }

  /** From `clock` on the two entries decide alike: both are idle, or they differ at most in a block that
      is over. */
  predicate Alike(cfg: Config, e: Option<Entry>, kept: Option<Entry>, clock: Time) {
    || (Idle(cfg, e, clock) && Idle(cfg, kept, clock))
    || (&& e.Some? && kept.Some?
        && e.value.windowStart == kept.value.windowStart && e.value.failed == kept.value.failed
        && (e.value.blockedUntil == kept.value.blockedUntil || (!Blocked(e, clock) && !Blocked(kept, clock))))
  }

  ghost predicate AllAlike(cfg: Config, entries: Entries, kept: Entries, clock: Time) {
    forall key :: Alike(cfg, Find(entries, key), Find(kept, key), clock)
  }

  /** A counted failure whose window ends between its two readings. */
  predicate Straddles(cfg: Config, e: Option<Entry>, now: Time, later: Time) {
    !Blocked(e, later) && !WindowOver(cfg, e, now) && WindowOver(cfg, e, later)
  }

  predicate NoStraddle(cfg: Config, entries: Entries, events: seq<Event>)
    decreases |events|
  {
    events != [] ==>
      && (events[0].Failure? ==> !Straddles(cfg, Find(entries, events[0].key), events[0].now, events[0].later))
      && NoStraddle(cfg, Step(cfg, entries, events[0]), events[1..])
  }

  lemma FailureAlike(cfg: Config, e: Option<Entry>, kept: Option<Entry>, now: Time, later: Time, clock: Time)
    requires Sane(cfg) && Alike(cfg, e, kept, clock) && clock <= now <= later && !Straddles(cfg, e, now, later)
    ensures FailureVerdict(cfg, e, now, later) == VerdictKeeping(cfg, kept, now, later)
    ensures Alike(cfg, Failed(cfg, e, now, later), FailedKeeping(cfg, kept, now, later), later)
  {
  }

  lemma StepsAlike(cfg: Config, entries: Entries, kept: Entries, e: Event, clock: Time)
    requires Sane(cfg) && AllAlike(cfg, entries, kept, clock) && clock <= e.now
    requires e.Failure? ==> e.now <= e.later && !Straddles(cfg, Find(entries, e.key), e.now, e.later)
    ensures Answer(cfg, entries, e) == AnswerKeeping(cfg, kept, e)
    ensures AllAlike(cfg, Step(cfg, entries, e), StepKeeping(cfg, kept, e), ClockAfter(e))
  {
    assert Alike(cfg, Find(entries, e.key), Find(kept, e.key), clock);
    if e.Failure? {
      FailureAlike(cfg, Find(entries, e.key), Find(kept, e.key), e.now, e.later, clock);
    }
    forall key ensures Alike(cfg, Find(Step(cfg, entries, e), key), Find(StepKeeping(cfg, kept, e), key), ClockAfter(e)) {
      assert Alike(cfg, Find(entries, key), Find(kept, key), clock);
    }
  }

  /** For every reading skew: the clean-up inside `evaluate` changes no answer of a run in which no counted
      failure straddles the end of its window. */
  lemma {:induction false} CleanupIsInvisible(
      cfg: Config, entries: Entries, kept: Entries, events: seq<Event>, clock: Time, skew: nat)
    requires Sane(cfg) && AllAlike(cfg, entries, kept, clock) && Timely(events, clock, skew)
    requires NoStraddle(cfg, entries, events)
    ensures Answers(cfg, entries, events) == AnswersKeeping(cfg, kept, events)
    decreases |events|
  {
    if events != [] {
      StepsAlike(cfg, entries, kept, events[0], clock);
      CleanupIsInvisible(cfg, Step(cfg, entries, events[0]), StepKeeping(cfg, kept, events[0]), events[1..],
                         ClockAfter(events[0]), skew);
    }
  }

  /** Readings that agree do not straddle anything. */
  lemma EqualReadingsNeverStraddle(cfg: Config, entries: Entries, events: seq<Event>, clock: Time)
    requires Timely(events, clock, 0)
    ensures NoStraddle(cfg, entries, events)
    decreases |events|
  {
    if events != [] {
      EqualReadingsNeverStraddle(cfg, Step(cfg, entries, events[0]), events[1..], ClockAfter(events[0]));
    }
  }

  // ----- a limit of one ----------------------------------------------------------------------

  /** The two entries block alike from `clock` on. */
  predicate BlockAlike(e: Option<Entry>, kept: Option<Entry>, clock: Time) {
    (Blocked(e, clock) || Blocked(kept, clock)) ==>
      e.Some? && kept.Some? && e.value.blockedUntil == kept.value.blockedUntil
  }

  /** No counter is negative, so one more failure reaches a limit of one. */
  predicate AllBlockAlike(entries: Entries, kept: Entries, clock: Time) {
    && (forall key | key in entries :: entries[key].failed >= 0)
    && (forall key | key in kept :: kept[key].failed >= 0)
    && forall key | key in entries.Keys + kept.Keys :: BlockAlike(Find(entries, key), Find(kept, key), clock)
  }

  lemma FailureBlockAlike(cfg: Config, e: Option<Entry>, kept: Option<Entry>, now: Time, later: Time, clock: Time)
    requires Sane(cfg) && cfg.maxAttempts == 1 && BlockAlike(e, kept, clock) && clock <= now <= later
    requires (e.Some? ==> e.value.failed >= 0) && (kept.Some? ==> kept.value.failed >= 0)
    ensures FailureVerdict(cfg, e, now, later) == VerdictKeeping(cfg, kept, now, later)
    ensures BlockAlike(Failed(cfg, e, now, later), FailedKeeping(cfg, kept, now, later), later)
    ensures Failed(cfg, e, now, later).Some? && Failed(cfg, e, now, later).value.failed >= 0
    ensures FailedKeeping(cfg, kept, now, later).Some? && FailedKeeping(cfg, kept, now, later).value.failed >= 0
  {
  }

  lemma StepsBlockAlike(cfg: Config, entries: Entries, kept: Entries, e: Event, clock: Time)
    requires Sane(cfg) && cfg.maxAttempts == 1 && AllBlockAlike(entries, kept, clock) && clock <= e.now
    requires e.Failure? ==> e.now <= e.later
    ensures Answer(cfg, entries, e) == AnswerKeeping(cfg, kept, e)
    ensures AllBlockAlike(Step(cfg, entries, e), StepKeeping(cfg, kept, e), ClockAfter(e))
  {
    var t, u := Step(cfg, entries, e), StepKeeping(cfg, kept, e);
    assert BlockAlike(Find(entries, e.key), Find(kept, e.key), clock);
    if e.Failure? {
      FailureBlockAlike(cfg, Find(entries, e.key), Find(kept, e.key), e.now, e.later, clock);
    }
    forall key | key in t.Keys + u.Keys ensures BlockAlike(Find(t, key), Find(u, key), ClockAfter(e)) {
      assert BlockAlike(Find(entries, key), Find(kept, key), clock);
    }
  }

  /** With a limit of one the clean-up changes no answer of any run, straddling or not. */
  lemma {:induction false} CleanupNeverMattersForOne(
      cfg: Config, entries: Entries, kept: Entries, events: seq<Event>, clock: Time, skew: nat)
    requires Sane(cfg) && cfg.maxAttempts == 1 && AllBlockAlike(entries, kept, clock) && Timely(events, clock, skew)
    ensures Answers(cfg, entries, events) == AnswersKeeping(cfg, kept, events)
    decreases |events|
  {
    if events != [] {
      StepsBlockAlike(cfg, entries, kept, events[0], clock);
      CleanupNeverMattersForOne(cfg, Step(cfg, entries, events[0]), StepKeeping(cfg, kept, events[0]), events[1..],
                                ClockAfter(events[0]), skew);
    }
  }

  // ----- when the clean-up matters -------------------------------------------------------------

  /** The failure, and then a run whose readings agree: does the clean-up change an answer? */
  predicate ShowsIn(cfg: Config, key: Key, e: Entry, now: Time, later: Time, rest: seq<Event>) {
    var events := [Failure(key, now, later)] + rest;
    Timely(rest, later, 0) && Answers(cfg, map[key := e], events) != AnswersKeeping(cfg, map[key := e], events)
  }

  lemma AnswersCons(cfg: Config, entries: Entries, kept: Entries, e: Event, rest: seq<Event>)
    ensures Answers(cfg, entries, [e] + rest) == [Answer(cfg, entries, e)] + Answers(cfg, Step(cfg, entries, e), rest)
    ensures AnswersKeeping(cfg, kept, [e] + rest)
         == [AnswerKeeping(cfg, kept, e)] + AnswersKeeping(cfg, StepKeeping(cfg, kept, e), rest)
  {
    assert ([e] + rest)[1..] == rest;
  }

  lemma DifferLater(a: Decision, b: Decision, x: seq<Decision>, y: seq<Decision>)
    ensures x != y ==> [a] + x != [b] + y
    ensures a != b ==> [a] + x != [b] + y
  {
    assert ([a] + x)[1..] == x && ([b] + y)[1..] == y;
    assert ([a] + x)[0] == a && ([b] + y)[0] == b;
  }

  /** A first event that is answered differently, or after which the rest is. */
  lemma DifferCons(cfg: Config, entries: Entries, kept: Entries, e: Event, rest: seq<Event>)
    requires || Answer(cfg, entries, e) != AnswerKeeping(cfg, kept, e)
             || Answers(cfg, Step(cfg, entries, e), rest) != AnswersKeeping(cfg, StepKeeping(cfg, kept, e), rest)
    ensures Answers(cfg, entries, [e] + rest) != AnswersKeeping(cfg, kept, [e] + rest)
  {
    AnswersCons(cfg, entries, kept, e, rest);
    DifferLater(Answer(cfg, entries, e), AnswerKeeping(cfg, kept, e),
                Answers(cfg, Step(cfg, entries, e), rest), AnswersKeeping(cfg, StepKeeping(cfg, kept, e), rest));
  }

  /** One counter is ahead of the other by one: the burst that fills it is answered differently. */
  lemma BurstTellsApart(cfg: Config, key: Key, e: Entry, kept: Entry, now: Time)
    requires Sane(cfg) && e.failed == kept.failed + 1 && e.failed < cfg.maxAttempts
    requires !Blocked(Some(e), now) && !Blocked(Some(kept), now)
    requires now - e.windowStart < cfg.window && now - kept.windowStart < cfg.window
    ensures var burst := Burst(key, now, cfg.maxAttempts - e.failed);
            Answers(cfg, map[key := e], burst) != AnswersKeeping(cfg, map[key := kept], burst)
    decreases cfg.maxAttempts - e.failed
  {
    var one, n := Failure(key, now, now), cfg.maxAttempts - e.failed;
    assert Burst(key, now, n) == [one] + Burst(key, now, n - 1);
    if n > 1 {
      assert Step(cfg, map[key := e], one) == map[key := e.(failed := e.failed + 1)];
      assert StepKeeping(cfg, map[key := kept], one) == map[key := kept.(failed := kept.failed + 1)];
      BurstTellsApart(cfg, key, e.(failed := e.failed + 1), kept.(failed := kept.failed + 1), now);
    }
    DifferCons(cfg, map[key := e], map[key := kept], one, Burst(key, now, n - 1));
  }

  lemma OnlyFailures(key: Key, now: Time, n: nat)
    ensures Timely(Burst(key, now, n), now, 0)
  {
    BurstTimely(key, now, n, [], now, 0);
    assert Burst(key, now, n) + [] == Burst(key, now, n);
  }

  /** What the two limiters hold after a straddling failure that does not block. */
  lemma AfterStraddle(cfg: Config, key: Key, e: Entry, now: Time, later: Time)
    requires Sane(cfg) && e.failed >= 1 && now <= later
    requires Straddles(cfg, Some(e), now, later) && e.failed + 1 < cfg.maxAttempts
    ensures Step(cfg, map[key := e], Failure(key, now, later)) == map[key := Entry(now, 1, None)]
    ensures StepKeeping(cfg, map[key := e], Failure(key, now, later)) == map[key := e.(failed := e.failed + 1)]
  {
  }

  /** The dropped entry has restarted its window at the first reading, the kept one only does at the next
      failure: a burst at the second reading finds the one a failure ahead of the other. */
  lemma BurstAfterStraddle(cfg: Config, key: Key, dropped: Entry, kept: Entry, later: Time)
    requires Sane(cfg) && cfg.maxAttempts > 2
    requires dropped.failed == 1 && dropped.blockedUntil.None? && later - dropped.windowStart < cfg.window
    requires !Blocked(Some(kept), later) && WindowOver(cfg, Some(kept), later)
    ensures var burst := Burst(key, later, cfg.maxAttempts - 1);
            Answers(cfg, map[key := dropped], burst) != AnswersKeeping(cfg, map[key := kept], burst)
  {
    var next, m := Failure(key, later, later), cfg.maxAttempts;
    var restarted := kept.(windowStart := later, failed := 1);
    assert Burst(key, later, m - 1) == [next] + Burst(key, later, m - 2);
    assert Step(cfg, map[key := dropped], next) == map[key := dropped.(failed := 2)];
    assert StepKeeping(cfg, map[key := kept], next) == map[key := restarted];
    BurstTellsApart(cfg, key, dropped.(failed := 2), restarted, later);
    DifferCons(cfg, map[key := dropped], map[key := kept], next, Burst(key, later, m - 2));
  }

  lemma StraddleShows(cfg: Config, key: Key, e: Entry, now: Time, later: Time)
    requires Sane(cfg) && e.failed >= 1 && now <= later
    requires Straddles(cfg, Some(e), now, later) && e.failed + 1 < cfg.maxAttempts && later - now < cfg.window
    ensures ShowsIn(cfg, key, e, now, later, Burst(key, later, cfg.maxAttempts - 1))
  {
    var burst := Burst(key, later, cfg.maxAttempts - 1);
    OnlyFailures(key, later, cfg.maxAttempts - 1);
    AfterStraddle(cfg, key, e, now, later);
    BurstAfterStraddle(cfg, key, Entry(now, 1, None), e.(failed := e.failed + 1), later);
    DifferCons(cfg, map[key := e], map[key := e], Failure(key, now, later), burst);
  }

  lemma IdleAfterStraddle(cfg: Config, key: Key, e: Entry, now: Time, later: Time)
    requires Sane(cfg) && e.failed >= 1 && now <= later
    requires Straddles(cfg, Some(e), now, later) && e.failed + 1 < cfg.maxAttempts && later - now >= cfg.window
    ensures var first := Failure(key, now, later);
            && Answer(cfg, map[key := e], first) == AnswerKeeping(cfg, map[key := e], first)
            && AllAlike(cfg, Step(cfg, map[key := e], first), StepKeeping(cfg, map[key := e], first), later)
  {
    AfterStraddle(cfg, key, e, now, later);
    var t, u := map[key := Entry(now, 1, None)], map[key := e.(failed := e.failed + 1)];
    forall k ensures Alike(cfg, Find(t, k), Find(u, k), later) {
    }
  }

  /** Otherwise nothing shows: not in this answer, nor in any later one. */
  lemma NothingShows(cfg: Config, key: Key, e: Entry, now: Time, later: Time, rest: seq<Event>)
    requires Sane(cfg) && e.failed >= 1 && now <= later
    requires !Straddles(cfg, Some(e), now, later) || cfg.maxAttempts == 1
             || (e.failed + 1 < cfg.maxAttempts && later - now >= cfg.window)
    ensures !ShowsIn(cfg, key, e, now, later, rest)
  {
    var first, entries := Failure(key, now, later), map[key := e];
    if Timely(rest, later, 0) {
      AnswersCons(cfg, entries, entries, first, rest);
      var t, u := Step(cfg, entries, first), StepKeeping(cfg, entries, first);
      if cfg.maxAttempts == 1 {
        StepsBlockAlike(cfg, entries, entries, first, now);
        CleanupNeverMattersForOne(cfg, t, u, rest, later, 0);
      } else {
        if Straddles(cfg, Some(e), now, later) {
          IdleAfterStraddle(cfg, key, e, now, later);
        } else {
          StepsAlike(cfg, entries, entries, first, now);
        }
        EqualReadingsNeverStraddle(cfg, t, rest, later);
        CleanupIsInvisible(cfg, t, u, rest, later, 0);
      }
    }
  }

  /** With differing readings the clean-up in one failure can change an answer, its own or a later one,
      exactly when the failure straddles the end of its window, the limit is above one, and either this
      failure would have been the one that blocks or the readings are less than a window apart. */
  lemma CleanupMattersIff(cfg: Config, key: Key, e: Entry, now: Time, later: Time)
    requires Sane(cfg) && e.failed >= 1 && now <= later
    ensures (exists rest :: ShowsIn(cfg, key, e, now, later, rest))
            <==>
            && Straddles(cfg, Some(e), now, later) && cfg.maxAttempts > 1
            && (e.failed + 1 >= cfg.maxAttempts || later - now < cfg.window)
  {
    if Straddles(cfg, Some(e), now, later) && cfg.maxAttempts > 1
       && (e.failed + 1 >= cfg.maxAttempts || later - now < cfg.window) {
      if e.failed + 1 >= cfg.maxAttempts {
        DifferCons(cfg, map[key := e], map[key := e], Failure(key, now, later), []);
        assert ShowsIn(cfg, key, e, now, later, []);
      } else {
        StraddleShows(cfg, key, e, now, later);
      }
    } else {
      forall rest ensures !ShowsIn(cfg, key, e, now, later, rest) {
        NothingShows(cfg, key, e, now, later, rest);
      }
    }
  }

  // ----- what the answers mean -------------------------------------------------------------------

  /** A request is refused exactly before the end of the block. It is then told a number of whole seconds, of one at
      least: at every earlier whole second it is refused again, and one second after it no more. Right after that
      many seconds it is admitted exactly when no more than a second, or a whole number of them, was left. */
  lemma RefusedIff(cfg: Config, e: Option<Entry>, now: Time)
    ensures var d := Verdict(e, now);
            && (d.blocked <==> e.Some? && e.value.blockedUntil.Some? && now < e.value.blockedUntil.value)
            && (!d.blocked ==> d.retryAfter == 0)
            && (d.blocked ==>
                  var left := e.value.blockedUntil.value - now;
                  && d.retryAfter >= 1
                  && (forall k | 0 <= k < d.retryAfter :: Verdict(e, now + k * 1_000_000).blocked)
                  && !Verdict(e, now + (d.retryAfter + 1) * 1_000_000).blocked
                  && (!Verdict(e, now + d.retryAfter * 1_000_000).blocked <==> left <= 1_000_000 || left % 1_000_000 == 0))
  {
  }

  /** A failure that is not refused itself is told the block it has caused, and that one lasts from its first reading;
      one that causes none leaves none. */
  lemma FailureIsTold(cfg: Config, e: Option<Entry>, now: Time, later: Time)
    requires Sane(cfg) && now <= later
    ensures var d, after := FailureVerdict(cfg, e, now, later), Failed(cfg, e, now, later);
            && after.Some?
            && (Verdict(e, later).blocked ==> d == Verdict(e, later) && after == e)
            && (!Verdict(e, later).blocked ==>
                  && (d.blocked <==> after.value.failed >= cfg.maxAttempts)
                  && (d.blocked ==> after.value.blockedUntil == Some(now + cfg.block) && d == Verdict(after, now))
                  && (!d.blocked ==> d.retryAfter == 0 && !Verdict(after, later).blocked))
  {
  }

  function After(cfg: Config, entries: Entries, events: seq<Event>): Entries
    decreases |events|
  {
    if events == [] then entries else After(cfg, Step(cfg, entries, events[0]), events[1..])
  }

  /** What happens to a key depends on what was stored for it alone. */
  lemma {:induction false} KeysApart(cfg: Config, a: Entries, b: Entries, events: seq<Event>, key: Key)
    requires Find(a, key) == Find(b, key)
    ensures Find(After(cfg, a, events), key) == Find(After(cfg, b, events), key)
    decreases |events|
  {
    if events != [] {
      StepFinds(cfg, a, events[0], key);
      StepFinds(cfg, b, events[0], key);
      KeysApart(cfg, Step(cfg, a, events[0]), Step(cfg, b, events[0]), events[1..], key);
    }
  }

  lemma {:induction false} AfterAppend(cfg: Config, entries: Entries, first: seq<Event>, rest: seq<Event>)
    ensures After(cfg, entries, first + rest) == After(cfg, After(cfg, entries, first), rest)
    decreases |first|
  {
    if first == [] {
      assert first + rest == rest;
    } else {
      assert (first + rest)[1..] == first[1..] + rest;
      AfterAppend(cfg, Step(cfg, entries, first[0]), first[1..], rest);
    }
  }

  /** After a success a key is treated as one that was never seen, whatever came before and whatever others do. */
  lemma SuccessForgets(cfg: Config, entries: Entries, before: seq<Event>, key: Key, at: Time, events: seq<Event>, e: Event)
    requires e.key == key
    ensures Answer(cfg, After(cfg, entries, before + [Success(key, at)] + events), e) == Answer(cfg, After(cfg, map[], events), e)
  {
    AfterAppend(cfg, entries, before + [Success(key, at)], events);
    AfterAppend(cfg, entries, before, [Success(key, at)]);
    var s := After(cfg, entries, before);
    assert [Success(key, at)][1..] == [];
    assert After(cfg, s, [Success(key, at)]) == Step(cfg, s, Success(key, at));
    StepFinds(cfg, s, Success(key, at), key);
    KeysApart(cfg, Step(cfg, s, Success(key, at)), map[], events, key);
  }
}
