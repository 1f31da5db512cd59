/** The task-level circuit breaker: consecutive failures, a pause, one notice a day, and a reset
    when the login cookie file changes.

    Times are integer ticks and days are integers; the mtime comparison keeps its tolerance, over
    reals. Failure texts are left out. */
module FailureGuard {
  import opened Basics

  type Key = string
  type Time = int
  type Day = int

  const TICKS_PER_SECOND := 1_000_000

  datatype Config = Config(threshold: int, pause: int)

  predicate Sane(cfg: Config) {
    cfg.threshold >= 1 && cfg.pause >= 60 * TICKS_PER_SECOND
  }

  /** The cookie file as one call sees it. `record_failure` reads the mtime twice: once to store it
      and once to compare it. */
  datatype Cookie = NoPath | Path(stored: Option<real>, checked: Option<real>)

  datatype Entry = Entry(count: nat, pausedUntil: Option<Time>, lastNotified: Option<Day>, cookieMtime: Option<real>)

  const FRESH := Entry(0, None, None, None)

  datatype SkipReason = CookieUpdated | StillPaused | NotPaused

  datatype SkipDecision = SkipDecision(skip: bool, notify: bool, reason: SkipReason, pausedUntil: Option<Time>, count: nat)

  datatype FailureResult = FailureResult(notify: bool, circuitOpened: bool, pausedUntil: Option<Time>, count: nat)

  const MTIME_TOLERANCE: real := 0.000001

  predicate CookieChanged(cookie: Cookie, previous: Option<real>) {
    && cookie.Path? && cookie.checked.Some? && previous.Some?
    && cookie.checked.value > previous.value + MTIME_TOLERANCE
  }

  predicate PausedAt(e: Entry, now: Time) {
    e.pausedUntil.Some? && now < e.pausedUntil.value
  }

  // ----- one entry -------------------------------------------------------------------------

  function StartDecision(e: Entry, now: Time, today: Day, cookie: Cookie): SkipDecision {
    if PausedAt(e, now) && CookieChanged(cookie, e.cookieMtime) then
      SkipDecision(false, false, CookieUpdated, None, 0)
    else if PausedAt(e, now) then
      SkipDecision(true, e.lastNotified != Some(today), StillPaused, e.pausedUntil, e.count)
    else
      SkipDecision(false, false, NotPaused, None, e.count)
  }

  function AfterStart(e: Entry, now: Time, today: Day, cookie: Cookie): Entry {
    match StartDecision(e, now, today, cookie).reason
    case CookieUpdated => FRESH
    case StillPaused => e.(lastNotified := Some(today))
    case NotPaused => e
  }

  function Threshold(cfg: Config, minFailures: Option<int>): int {
    if minFailures.None? || minFailures.value == 0 then cfg.threshold else Max(1, minFailures.value)
  }

  /** The entry a failure is counted on: a changed cookie wipes count, pause and notice first. */
  function Base(e: Entry, cookie: Cookie): Entry {
    if CookieChanged(cookie, e.cookieMtime)
    then e.(count := 0, pausedUntil := None, lastNotified := None)
    else e
  }

  function AfterFailure(cfg: Config, e: Entry, now: Time, today: Day, cookie: Cookie, minFailures: Option<int>): Entry {
    var base := Base(e, cookie);
    var mtime := if cookie.Path? && cookie.stored.Some? then cookie.stored else base.cookieMtime;
    if base.count + 1 >= Threshold(cfg, minFailures)
    then Entry(base.count + 1, Some(now + cfg.pause), Some(today), mtime)
    else Entry(base.count + 1, None, base.lastNotified, mtime)
  }

  function ResultOfFailure(cfg: Config, e: Entry, now: Time, today: Day, cookie: Cookie, minFailures: Option<int>): FailureResult {
    var base := Base(e, cookie);
    if base.count + 1 >= Threshold(cfg, minFailures)
    then FailureResult(base.lastNotified != Some(today), !PausedAt(e, now), Some(now + cfg.pause), base.count + 1)
    else FailureResult(false, false, None, base.count + 1)
  }

  // ----- the class -------------------------------------------------------------------------

  function Load(entries: map<Key, Entry>, key: Key): Entry {
    if key in entries then entries[key] else FRESH
  }

  class Guard {
    const cfg: Config
    var entries: map<Key, Entry>

    constructor (threshold: int, pauseSeconds: int)
      ensures Sane(cfg) && entries == map[]
      ensures cfg.threshold == if threshold < 1 then 1 else threshold
      ensures cfg.pause == (if pauseSeconds < 60 then 60 else pauseSeconds) * TICKS_PER_SECOND
    {
      cfg := Config(Max(1, threshold), Max(60, pauseSeconds) * TICKS_PER_SECOND);
      entries := map[];
    }

    method RecordSuccess(key: Key)
      modifies this
      ensures entries == old(entries)[key := FRESH]
    {
      entries := entries[key := FRESH];
    }

    /** Only a cookie reset and a first notice of the day are saved; every other start leaves the
        stored row as it was. */
    method ShouldSkipStart(key: Key, cookie: Cookie, now: Time, today: Day) returns (d: SkipDecision)
      modifies this
      ensures d == StartDecision(Load(old(entries), key), now, today, cookie)
      ensures Load(entries, key) == AfterStart(Load(old(entries), key), now, today, cookie)
      ensures forall other | other != key :: Load(entries, other) == Load(old(entries), other)
    {
      var entry := Load(entries, key);
      if PausedAt(entry, now) && CookieChanged(cookie, entry.cookieMtime) {
        entries := entries[key := FRESH];
        return SkipDecision(false, false, CookieUpdated, None, 0);
      }
      if PausedAt(entry, now) {
        var notify := entry.lastNotified != Some(today);
        if notify {
          entries := entries[key := entry.(lastNotified := Some(today))];
        }
        return SkipDecision(true, notify, StillPaused, entry.pausedUntil, entry.count);
      }
      return SkipDecision(false, false, NotPaused, None, entry.count);
    }

    method RecordFailure(key: Key, cookie: Cookie, minFailures: Option<int>, now: Time, today: Day)
      returns (r: FailureResult)
      modifies this
      ensures r == ResultOfFailure(cfg, Load(old(entries), key), now, today, cookie, minFailures)
      ensures entries == old(entries)[key := AfterFailure(cfg, Load(old(entries), key), now, today, cookie, minFailures)]
    {
      var threshold := if minFailures.None? || minFailures.value == 0 then cfg.threshold else Max(1, minFailures.value);
      var entry := Load(entries, key);
      var wasPaused := PausedAt(entry, now);
      if CookieChanged(cookie, entry.cookieMtime) {
        entry := entry.(count := 0, pausedUntil := None, lastNotified := None);
      }
      var consecutive := entry.count + 1;
      entry := entry.(count := consecutive);
      if cookie.Path? && cookie.stored.Some? {
        entry := entry.(cookieMtime := cookie.stored);
      }
      r := FailureResult(false, false, None, consecutive);
      if consecutive >= threshold {
        entry := entry.(pausedUntil := Some(now + cfg.pause));
        r := r.(circuitOpened := !wasPaused, pausedUntil := Some(now + cfg.pause));
        if entry.lastNotified != Some(today) {
          entry := entry.(lastNotified := Some(today));
          r := r.(notify := true);
        }
      } else {
        entry := entry.(pausedUntil := None);
      }
      entries := entries[key := entry];
    }
  }

  // ----- runs of one task ------------------------------------------------------------------

  /** `immediate` marks the misconfiguration failures that the scraper lets pause at once. */
  datatype Event =
    | Start(now: Time, today: Day, cookie: Cookie)
    | Success(now: Time, today: Day)
    | Failure(now: Time, today: Day, cookie: Cookie, immediate: bool)

  function MinFailures(immediate: bool): Option<int> {
    if immediate then Some(1) else None
  }

  function Step(cfg: Config, e: Entry, ev: Event): Entry {
    match ev
    case Start(now, today, cookie) => AfterStart(e, now, today, cookie)
    case Success(_, _) => FRESH
    case Failure(now, today, cookie, immediate) => AfterFailure(cfg, e, now, today, cookie, MinFailures(immediate))
  }

  /** A success, a start that finds a new cookie during a pause, or a failure that finds one. */
  predicate IsReset(e: Entry, ev: Event) {
    match ev
    case Start(now, today, cookie) => StartDecision(e, now, today, cookie).reason == CookieUpdated
    case Success(_, _) => true
    case Failure(_, _, cookie, _) => CookieChanged(cookie, e.cookieMtime)
  }

  predicate Admits(e: Entry, ev: Event) {
    ev.Start? && !StartDecision(e, ev.now, ev.today, ev.cookie).skip
  }

  function Run(cfg: Config, e: Entry, events: seq<Event>): Entry
    decreases |events|
  {
    if events == [] then e
    else Step(cfg, Run(cfg, e, events[..|events| - 1]), events[|events| - 1])
  }

  /** Position of the last event that reset the count, or -1. */
  function LastReset(cfg: Config, e: Entry, events: seq<Event>): (i: int)
    ensures -1 <= i < |events|
    decreases |events|
  {
    if events == [] then -1
    else
      var init := events[..|events| - 1];
      if IsReset(Run(cfg, e, init), events[|events| - 1]) then |events| - 1 else LastReset(cfg, e, init)
  }

  function FailuresIn(events: seq<Event>): nat
    decreases |events|
  {
    if events == [] then 0
    else FailuresIn(events[..|events| - 1]) + if events[|events| - 1].Failure? then 1 else 0
  }

  /** The stored count is the number of failures since the last success or cookie reset. */
  lemma {:induction false} CountIsFailuresSinceReset(cfg: Config, e: Entry, events: seq<Event>)
    ensures var r := LastReset(cfg, e, events);
            Run(cfg, e, events).count == if r == -1 then e.count + FailuresIn(events) else FailuresIn(events[r..])
    decreases |events|
  {
    if events != [] {
      var init, last := events[..|events| - 1], events[|events| - 1];
      CountIsFailuresSinceReset(cfg, e, init);
      if IsReset(Run(cfg, e, init), last) {
        assert events[|events| - 1..] == [last];
        assert [last][..0] == [];
      } else {
        var r := LastReset(cfg, e, init);
        if r != -1 {
          assert events[r..][..|events[r..]| - 1] == init[r..];
        }
      }
    }
  }

  // ----- runs from the front, with a clock --------------------------------------------------

  predicate Timely(events: seq<Event>, clock: Time, day: Day)
    decreases |events|
  {
    events != [] ==>
      clock <= events[0].now && day <= events[0].today && Timely(events[1..], events[0].now, events[0].today)
  }

  /** Each recorded end belongs to a run that was admitted since the previous recorded end. */
  predicate Disciplined(cfg: Config, e: Entry, admitted: bool, events: seq<Event>)
    decreases |events|
  {
    events != [] ==>
      && (!events[0].Start? ==> admitted)
      && Disciplined(cfg, Step(cfg, e, events[0]), Admits(e, events[0]), events[1..])
  }

  /** No event at a time in [start, end) is a reset. */
  predicate NoResetIn(cfg: Config, e: Entry, events: seq<Event>, start: Time, end: Time)
    decreases |events|
  {
    events != [] ==>
      && (start <= events[0].now < end ==> !IsReset(e, events[0]))
      && NoResetIn(cfg, Step(cfg, e, events[0]), events[1..], start, end)
  }

  /** Every start the guard admits in this run comes at `t` or later. */
  predicate AdmittedFrom(cfg: Config, e: Entry, events: seq<Event>, t: Time)
    decreases |events|
  {
    events != [] ==>
      && (Admits(e, events[0]) ==> t <= events[0].now)
      && AdmittedFrom(cfg, Step(cfg, e, events[0]), events[1..], t)
  }

  lemma AdmittedLate(cfg: Config, e: Entry, events: seq<Event>, clock: Time, day: Day, t: Time)
    requires Timely(events, clock, day) && t <= clock
    ensures AdmittedFrom(cfg, e, events, t)
    decreases |events|
  {
    if events != [] {
      AdmittedLate(cfg, Step(cfg, e, events[0]), events[1..], events[0].now, events[0].today, t);
    }
  }

  lemma {:induction false} PauseHolds(cfg: Config, e: Entry, events: seq<Event>, clock: Time, day: Day, t: Time)
    requires Timely(events, clock, day) && Disciplined(cfg, e, false, events)
    requires e.pausedUntil == Some(t) && NoResetIn(cfg, e, events, clock, t)
    ensures AdmittedFrom(cfg, e, events, t)
    decreases |events|
  {
    if events != [] {
      var ev := events[0];
      var next := Step(cfg, e, ev);
      if ev.now < t {
        NoResetLater(cfg, next, events[1..], clock, ev.now, t);
        PauseHolds(cfg, next, events[1..], ev.now, ev.today, t);
      } else {
        AdmittedLate(cfg, next, events[1..], ev.now, ev.today, t);
      }
    }
  }

  lemma NoResetLater(cfg: Config, e: Entry, events: seq<Event>, start: Time, later: Time, end: Time)
    requires NoResetIn(cfg, e, events, start, end) && start <= later
    ensures NoResetIn(cfg, e, events, later, end)
    decreases |events|
  {
    if events != [] {
      NoResetLater(cfg, Step(cfg, e, events[0]), events[1..], start, later, end);
    }
  }

  /** After a failure that pauses the task, no start is admitted for the pause, however the run goes
      on, short of a cookie change. */
  lemma PauseAfterFailure(cfg: Config, e: Entry, f: Event, events: seq<Event>)
    requires Sane(cfg) && f.Failure?
    requires ResultOfFailure(cfg, e, f.now, f.today, f.cookie, MinFailures(f.immediate)).pausedUntil.Some?
    requires Timely(events, f.now, f.today) && Disciplined(cfg, Step(cfg, e, f), false, events)
    requires NoResetIn(cfg, Step(cfg, e, f), events, f.now, f.now + cfg.pause)
    ensures AdmittedFrom(cfg, Step(cfg, e, f), events, f.now + cfg.pause)
  {
    PauseHolds(cfg, Step(cfg, e, f), events, f.now, f.today, f.now + cfg.pause);
  }

  function FailuresBetween(events: seq<Event>, start: Time, end: Time): nat
    decreases |events|
  {
    if events == [] then 0
    else (if events[0].Failure? && start <= events[0].now < end then 1 else 0) + FailuresBetween(events[1..], start, end)
  }

  lemma NoFailuresAfter(events: seq<Event>, clock: Time, day: Day, start: Time, end: Time)
    requires Timely(events, clock, day) && end <= clock
    ensures FailuresBetween(events, start, end) == 0
    decreases |events|
  {
    if events != [] {
      NoFailuresAfter(events[1..], events[0].now, events[0].today, start, end);
    }
  }

  /** How many more failures fit before `end`. */
  function Left(cfg: Config, e: Entry, admitted: bool, end: Time): int {
    if !admitted && e.pausedUntil.Some? && e.pausedUntil.value >= end then 0
    else Max(1, cfg.threshold - e.count)
  }

  lemma {:induction false} FailuresInside(cfg: Config, e: Entry, admitted: bool, events: seq<Event>,
                                          clock: Time, day: Day, start: Time, end: Time)
    requires Sane(cfg) && Timely(events, clock, day) && Disciplined(cfg, e, admitted, events)
    requires NoResetIn(cfg, e, events, start, end) && start <= clock && end - start <= cfg.pause
    ensures FailuresBetween(events, start, end) <= Left(cfg, e, admitted, end)
    decreases |events|
  {
    if events != [] {
      var ev := events[0];
      var next := Step(cfg, e, ev);
      if ev.now >= end {
        NoFailuresAfter(events[1..], ev.now, ev.today, start, end);
      } else {
        FailuresInside(cfg, next, Admits(e, ev), events[1..], ev.now, ev.today, start, end);
      }
    }
  }

  /** In a disciplined run, an interval no longer than the pause and free of resets holds at most
      `threshold` failures, wherever in the run it lies and whatever state the run began in. */
  lemma {:induction false} FailuresPerPause(cfg: Config, e: Entry, admitted: bool, events: seq<Event>,
                                            clock: Time, day: Day, start: Time, end: Time)
    requires Sane(cfg) && Timely(events, clock, day) && Disciplined(cfg, e, admitted, events)
    requires NoResetIn(cfg, e, events, start, end) && end - start <= cfg.pause
    ensures FailuresBetween(events, start, end) <= cfg.threshold
    decreases |events|
  {
    if start <= clock {
      FailuresInside(cfg, e, admitted, events, clock, day, start, end);
    } else if events != [] {
      var ev := events[0];
      if ev.now >= start {
        FailuresInside(cfg, e, admitted, events, start, day, start, end);
      } else {
        FailuresPerPause(cfg, Step(cfg, e, ev), Admits(e, ev), events[1..], ev.now, ev.today, start, end);
      }
    }
  }

  /** Without the discipline the bound fails: two failures recorded with no start in between break
      it for a threshold of one. */
  lemma DisciplineMatters(cfg: Config)
    requires Sane(cfg) && cfg.threshold == 1
    ensures var f := Failure(0, 0, NoPath, false);
            && Timely([f, f], 0, 0) && NoResetIn(cfg, FRESH, [f, f], 0, cfg.pause)
            && FailuresBetween([f, f], 0, cfg.pause) == cfg.threshold + 1
  {
    var f := Failure(0, 0, NoPath, false);
    assert [f, f][1..] == [f] && [f][1..] == [];
    assert Timely([f], 0, 0) && NoResetIn(cfg, Step(cfg, FRESH, f), [f], 0, cfg.pause);
    assert FailuresBetween([f], 0, cfg.pause) == 1;
  }

  // ----- notices ---------------------------------------------------------------------------

  predicate Notifies(cfg: Config, e: Entry, ev: Event) {
    match ev
    case Start(now, today, cookie) => StartDecision(e, now, today, cookie).notify
    case Success(_, _) => false
    case Failure(now, today, cookie, immediate) =>
      ResultOfFailure(cfg, e, now, today, cookie, MinFailures(immediate)).notify
  }

  /** The days on which a notice is asked for, by starts and failures together. */
  function NoticeDays(cfg: Config, e: Entry, events: seq<Event>): seq<Day>
    decreases |events|
  {
    if events == [] then []
    else
      (if Notifies(cfg, e, events[0]) then [events[0].today] else [])
      + NoticeDays(cfg, Step(cfg, e, events[0]), events[1..])
  }

  predicate NoReset(cfg: Config, e: Entry, events: seq<Event>)
    decreases |events|
  {
    events != [] ==> !IsReset(e, events[0]) && NoReset(cfg, Step(cfg, e, events[0]), events[1..])
  }

  /** Between two resets a notice is asked for at most once per calendar day, by `should_skip_start`
      and `record_failure` together: the days strictly increase. */
  lemma {:induction false} OneNoticePerDay(cfg: Config, e: Entry, events: seq<Event>, clock: Time, day: Day)
    requires Timely(events, clock, day) && NoReset(cfg, e, events)
    requires e.lastNotified.Some? ==> e.lastNotified.value <= day
    ensures Increasing(NoticeDays(cfg, e, events))
    ensures e.lastNotified.Some? ==>
              forall d | d in NoticeDays(cfg, e, events) :: e.lastNotified.value < d
    decreases |events|
  {
    if events != [] {
      var ev := events[0];
      var next := Step(cfg, e, ev);
      OneNoticePerDay(cfg, next, events[1..], ev.now, ev.today);
      var rest := NoticeDays(cfg, next, events[1..]);
      if Notifies(cfg, e, ev) {
        assert next.lastNotified == Some(ev.today);
        forall i, j | 0 <= i < j < |[ev.today] + rest| ensures ([ev.today] + rest)[i] < ([ev.today] + rest)[j] {
          assert ([ev.today] + rest)[j] == rest[j - 1] && rest[j - 1] in rest;
        }
      } else {
        assert next.lastNotified == e.lastNotified
               || (next.lastNotified == Some(ev.today) && e.lastNotified == Some(ev.today));
      }
    }
  }
}
