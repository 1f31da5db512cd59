/** What the circuit breaker answers, from the history of the task alone: its recorded ends, its starts and the
    cookie files they saw. */
module GuardHistory {
  import opened Basics
  import opened FailureGuard

  /** The entry after the events of a new task. */
  function Now(cfg: Config, events: seq<Event>): Entry {
    Run(cfg, FRESH, events)
  }

  /** The events from the last reset on. */
  function SinceReset(cfg: Config, events: seq<Event>): seq<Event> {
    var r := LastReset(cfg, FRESH, events);
    if r == -1 then events else events[r..]
  }

  /** The position of the last failure since the last reset, or -1; a failure that finds a new cookie counts. */
  function LastFailure(cfg: Config, events: seq<Event>): (k: int)
    ensures -1 <= k < |events|
    ensures k >= 0 ==> events[k].Failure?
    decreases |events|
  {
    var n := |events| - 1;
    if n < 0 then -1
    else if events[n].Failure? then n
    else if IsReset(Now(cfg, events[..n]), events[n]) then -1
    else LastFailure(cfg, events[..n])
  }

  /** The failure at `k` is immediate, or at least the `threshold`-th since the last reset. */
  predicate Trips(cfg: Config, events: seq<Event>, k: nat)
    requires k < |events| && events[k].Failure?
  {
    events[k].immediate || FailuresIn(SinceReset(cfg, events[..k + 1])) >= cfg.threshold
  }

  /** The last failure tripped, and its pause is not over. */
  predicate InPause(cfg: Config, events: seq<Event>, now: Time) {
    var k := LastFailure(cfg, events);
    k >= 0 && Trips(cfg, events, k) && now < events[k].now + cfg.pause
  }

  /** The mtime of the cookie file that was remembered last and not forgotten since. */
  function KnownMtime(cfg: Config, events: seq<Event>): Option<real>
    decreases |events|
  {
    var n := |events| - 1;
    if n < 0 || events[n].Success? then None
    else if events[n].Failure? && events[n].cookie.Path? && events[n].cookie.stored.Some? then events[n].cookie.stored
    else if events[n].Start? && IsReset(Now(cfg, events[..n]), events[n]) then None
    else KnownMtime(cfg, events[..n])
  }

  /** The file is newer than the known one by more than a microsecond. */
  predicate Newer(cookie: Cookie, known: Option<real>) {
    cookie.Path? && cookie.checked.Some? && known.Some? && cookie.checked.value - known.value > 0.000001
  }

  /** The day of the last notice since the last reset. */
  function NoticeDay(cfg: Config, events: seq<Event>): Option<Day>
    decreases |events|
  {
    var n := |events| - 1;
    if n < 0 then None
    else if Notifies(cfg, Now(cfg, events[..n]), events[n]) then Some(events[n].today)
    else if IsReset(Now(cfg, events[..n]), events[n]) then None
    else NoticeDay(cfg, events[..n])
  }

  // ----- what the entry remembers ------------------------------------------------------------

  predicate PauseKnown(cfg: Config, events: seq<Event>) {
    var k := LastFailure(cfg, events);
    Now(cfg, events).pausedUntil == if k >= 0 && Trips(cfg, events, k) then Some(events[k].now + cfg.pause) else None
  }

  lemma {:induction false} CountSinceReset(cfg: Config, events: seq<Event>)
    ensures Now(cfg, events).count == FailuresIn(SinceReset(cfg, events))
  {
    CountIsFailuresSinceReset(cfg, FRESH, events);
  }

  lemma {:induction false} OneStep(cfg: Config, events: seq<Event>, n: nat)
    requires n + 1 == |events|
    ensures Now(cfg, events) == Step(cfg, Now(cfg, events[..n]), events[n])
  {
  }

  lemma TrippedBefore(cfg: Config, events: seq<Event>, n: nat, k: nat)
    requires k < n <= |events| && events[k].Failure?
    ensures Trips(cfg, events[..n], k) == Trips(cfg, events, k)
  {
    assert events[..n][..k + 1] == events[..k + 1];
  }

  lemma {:induction false} PauseAfterStart(cfg: Config, events: seq<Event>, n: nat)
    requires n + 1 == |events| && !events[n].Failure? && PauseKnown(cfg, events[..n])
    ensures PauseKnown(cfg, events)
  {
    OneStep(cfg, events, n);
    if IsReset(Now(cfg, events[..n]), events[n]) {
      assert LastFailure(cfg, events) == -1;
    } else {
      var k := LastFailure(cfg, events[..n]);
      assert LastFailure(cfg, events) == k;
      StartKeepsPause(cfg, Now(cfg, events[..n]), events[n]);
      if k >= 0 {
        TrippedBefore(cfg, events, n, k);
      }
    }
  }

  lemma StartKeepsPause(cfg: Config, e: Entry, ev: Event)
    requires !ev.Failure? && !IsReset(e, ev)
    ensures Step(cfg, e, ev).pausedUntil == e.pausedUntil
  {
  }

  lemma {:induction false} PauseAfterFailed(cfg: Config, events: seq<Event>, n: nat)
    requires n + 1 == |events| && events[n].Failure? && Sane(cfg)
    ensures PauseKnown(cfg, events)
  {
    OneStep(cfg, events, n);
    CountSinceReset(cfg, events);
    FailurePauses(cfg, Now(cfg, events[..n]), events[n]);
    assert events[..n + 1] == events;
  }

  lemma FailurePauses(cfg: Config, e: Entry, ev: Event)
    requires Sane(cfg) && ev.Failure?
    ensures var after := Step(cfg, e, ev);
            after.pausedUntil == if ev.immediate || after.count >= cfg.threshold then Some(ev.now + cfg.pause) else None
  {
  }

  lemma {:induction false} KnowsPause(cfg: Config, events: seq<Event>)
    requires Sane(cfg)
    ensures PauseKnown(cfg, events)
    decreases |events|
  {
    if events != [] {
      var n := |events| - 1;
      KnowsPause(cfg, events[..n]);
      if events[n].Failure? {
        PauseAfterFailed(cfg, events, n);
      } else {
        PauseAfterStart(cfg, events, n);
      }
    }
  }

  lemma {:induction false} KnowsMtime(cfg: Config, events: seq<Event>)
    ensures Now(cfg, events).cookieMtime == KnownMtime(cfg, events)
    decreases |events|
  {
    if events != [] {
      var n := |events| - 1;
      KnowsMtime(cfg, events[..n]);
      OneStep(cfg, events, n);
    }
  }

  lemma {:induction false} KnowsNotice(cfg: Config, events: seq<Event>)
    ensures Now(cfg, events).lastNotified == NoticeDay(cfg, events)
    decreases |events|
  {
    if events != [] {
      var n := |events| - 1;
      KnowsNotice(cfg, events[..n]);
      OneStep(cfg, events, n);
    }
  }

  /** Everything the entry remembers, in terms of the history. */
  lemma {:induction false} Remembers(cfg: Config, events: seq<Event>)
    requires Sane(cfg)
    ensures Now(cfg, events).count == FailuresIn(SinceReset(cfg, events))
    ensures PauseKnown(cfg, events)
    ensures Now(cfg, events).cookieMtime == KnownMtime(cfg, events)
    ensures Now(cfg, events).lastNotified == NoticeDay(cfg, events)
  {
    CountSinceReset(cfg, events);
    KnowsPause(cfg, events);
    KnowsMtime(cfg, events);
    KnowsNotice(cfg, events);
  }

  // ----- what it answers -----------------------------------------------------------------------

  /** Exactly when the history resets: with every success, with a failure that finds a newer cookie file than
      the known one, and with a start that finds one during a pause. */
  lemma {:induction false} ResetsIff(cfg: Config, events: seq<Event>, ev: Event)
    requires Sane(cfg)
    ensures IsReset(Now(cfg, events), ev) <==>
              || ev.Success?
              || (ev.Failure? && Newer(ev.cookie, KnownMtime(cfg, events)))
              || (ev.Start? && InPause(cfg, events, ev.now) && Newer(ev.cookie, KnownMtime(cfg, events)))
  {
    Remembers(cfg, events);
  }

  /** A failure pauses the task, for the whole pause, exactly when it is immediate or at least the
      `threshold`-th since the last reset; the circuit opens then unless it was open. */
  lemma {:induction false} PausesIff(cfg: Config, events: seq<Event>, f: Event)
    requires Sane(cfg) && f.Failure?
    ensures var r := ResultOfFailure(cfg, Now(cfg, events), f.now, f.today, f.cookie, MinFailures(f.immediate));
            var recorded := FailuresIn(SinceReset(cfg, events + [f]));
            && r.count == recorded
            && r.pausedUntil == (if f.immediate || recorded >= cfg.threshold then Some(f.now + cfg.pause) else None)
            && (r.circuitOpened <==> r.pausedUntil.Some? && !InPause(cfg, events, f.now))
  {
    Remembers(cfg, events);
    CountSinceReset(cfg, events + [f]);
    assert (events + [f])[..|events|] == events;
  }

  /** With a minimum of its own, a failure pauses exactly when it is at least that many since the last reset;
      zero counts as no minimum. */
  lemma {:induction false} PausesAtMinimum(cfg: Config, events: seq<Event>, now: Time, today: Day, cookie: Cookie,
                                           minFailures: Option<int>)
    requires Sane(cfg)
    ensures var r := ResultOfFailure(cfg, Now(cfg, events), now, today, cookie, minFailures);
            var recorded := 1 + if Newer(cookie, KnownMtime(cfg, events)) then 0 else FailuresIn(SinceReset(cfg, events));
            && r.count == recorded
            && (r.pausedUntil.Some? <==>
                  recorded >= if minFailures.Some? && minFailures.value != 0 then minFailures.value else cfg.threshold)
            && (r.pausedUntil.Some? ==> r.pausedUntil.value == now + cfg.pause)
  {
    Remembers(cfg, events);
  }

  /** A start is refused exactly during the pause of a last failure that tripped, unless it brings a newer
      cookie file; it is told the end of that pause. */
  lemma {:induction false} SkipsIff(cfg: Config, events: seq<Event>, now: Time, today: Day, cookie: Cookie)
    requires Sane(cfg)
    ensures var d := StartDecision(Now(cfg, events), now, today, cookie);
            && (d.skip <==> InPause(cfg, events, now) && !Newer(cookie, KnownMtime(cfg, events)))
            && (d.skip ==> d.reason == StillPaused
                           && d.pausedUntil == Some(events[LastFailure(cfg, events)].now + cfg.pause)
                           && d.count == FailuresIn(SinceReset(cfg, events)))
            && (!d.skip ==> d.pausedUntil.None?
                            && d.reason == (if InPause(cfg, events, now) then CookieUpdated else NotPaused)
                            && d.count == (if InPause(cfg, events, now) then 0 else FailuresIn(SinceReset(cfg, events))))
  {
    Remembers(cfg, events);
  }

  /** While fewer failures than the threshold have been recorded, a start after a failure that is not immediate
      is admitted. */
  lemma {:induction false} FewerAdmit(cfg: Config, events: seq<Event>, now: Time, today: Day, cookie: Cookie)
    requires Sane(cfg) && events != [] && events[|events| - 1].Failure? && !events[|events| - 1].immediate
    requires FailuresIn(SinceReset(cfg, events)) < cfg.threshold
    ensures !StartDecision(Now(cfg, events), now, today, cookie).skip
  {
    SkipsIff(cfg, events, now, today, cookie);
    assert events[..|events|] == events;
  }

  /** A notice is asked for exactly by a refused start or a pausing failure, when none was asked for on that day
      since the last reset. */
  lemma {:induction false} NotifiesIff(cfg: Config, events: seq<Event>, ev: Event)
    requires Sane(cfg)
    ensures Notifies(cfg, Now(cfg, events), ev) <==>
              || (ev.Start? && InPause(cfg, events, ev.now) && !Newer(ev.cookie, KnownMtime(cfg, events))
                  && NoticeDay(cfg, events) != Some(ev.today))
              || (ev.Failure? && (ev.immediate || FailuresIn(SinceReset(cfg, events + [ev])) >= cfg.threshold)
                  && (Newer(ev.cookie, KnownMtime(cfg, events)) || NoticeDay(cfg, events) != Some(ev.today)))
  {
    Remembers(cfg, events);
    if ev.Failure? {
      CountSinceReset(cfg, events + [ev]);
      assert (events + [ev])[..|events|] == events;
    }
  }
}
