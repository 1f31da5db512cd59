/** What the attempts of a scraper run are: how many, with which account and proxy, and how they end. */
module AttemptReference {
  import opened Basics
  import opened Rotation
  import opened ScrapeRun
  import FailureGuard
  import RuleReference
  import Text

  /** The loop after the first `n` attempts of the run. */
  function Loops(r: Run, n: nat): Loop
    requires n <= |r.attempts|
  {
    After(r.cfg, r.accounts, r.proxies, r.attempts, n)
  }

  lemma LoopOne(r: Run)
    requires r.attempts != []
    ensures Loops(r, 1) == Tried(r.cfg, Chosen(r.cfg, r.accounts, r.proxies, Begin(), true, r.attempts[0]), r.attempts[0].outcome)
  {
    assert After(r.cfg, r.accounts, r.proxies, r.attempts, 0) == Begin();
  }

  lemma LoopNext(r: Run, n: nat)
    requires 1 < n <= |r.attempts|
    ensures var s, a := Loops(r, n - 1), r.attempts[n - 1];
            Loops(r, n) == if s.stopped then s else Tried(r.cfg, Chosen(r.cfg, r.accounts, r.proxies, s, false, a), a.outcome)
  {
  }

  // ----- how attempts follow each other ----------------------------------------------------------

  /** What an outcome leaves as the error text. */
  function TextOf(outcome: Outcome): string {
    match outcome
    case Done(_) => ""
    case LoginRequired(text) => text
    case RiskControl(text) => text
    case Other(kind, text) => kind + ": " + text
  }

  /** All attempts before the last one made failed in a way that is tried again, and the loop has ended only after an
      attempt that is not, or for lack of an account or proxy. */
  predicate InOrder(r: Run, n: nat, s: Loop)
    requires n <= |r.attempts|
  {
    && |s.used| <= n
    && (forall k | 0 <= k < |s.used| - 1 :: r.attempts[k].outcome.Other?)
    && s.last == (if s.used == [] then None else Some(r.attempts[|s.used| - 1].outcome))
    && s.processed == (if s.last.Some? && s.last.value.Done? then s.last.value.items else 0)
    && (!s.stopped ==> |s.used| == n && (s.last.Some? ==> s.last.value.Other?))
    && (s.stopped && s.error != MISSING_ACCOUNT && s.error != MISSING_PROXY ==> s.last.Some? && !s.last.value.Other?)
    && (s.last.Some? && !(s.stopped && s.last.value.Other?) ==> s.error == TextOf(s.last.value))
    && (s.last.Some? && s.stopped && s.last.value.Other? ==> s.error == MISSING_ACCOUNT || s.error == MISSING_PROXY)
  }

  lemma TryInOrder(r: Run, n: nat, s: Loop)
    requires n < |r.attempts| && InOrder(r, n, s) && !s.stopped
    ensures InOrder(r, n + 1, Tried(r.cfg, s, r.attempts[n].outcome))
  {
  }

  lemma {:induction false} RunsInOrder(r: Run, n: nat)
    requires n <= |r.attempts|
    ensures InOrder(r, n, Loops(r, n))
    decreases n
  {
    if n > 0 {
      RunsInOrder(r, n - 1);
      var s, a := Loops(r, n - 1), r.attempts[n - 1];
      if !s.stopped {
        var chosen := Chosen(r.cfg, r.accounts, r.proxies, s, n == 1, a);
        assert InOrder(r, n - 1, chosen);
        TryInOrder(r, n - 1, chosen);
      }
    }
  }

  // ----- which account and proxy ------------------------------------------------------------------

  /** There is nothing to try with: no account from the given path, the root file or the pool. */
  predicate NoAccount(r: Run)
    requires r.attempts != []
  {
    r.cfg.forced.None? && if r.cfg.accountEnabled then r.accounts == [] else !r.attempts[0].rootExists
  }

  predicate NoProxy(r: Run) {
    r.cfg.proxyEnabled && r.proxies == []
  }

  lemma AllAvailable(values: seq<string>, n: nat)
    requires n <= |values|
    ensures AvailableUpTo(values, Blacklist(map[]), n) == values[..n]
    decreases n
  {
    if n > 0 {
      AllAvailable(values, n - 1);
      assert values[..n] == values[..n - 1] + [values[n - 1]];
    }
  }

  /** A first draw takes any value of the pool. */
  lemma FirstDrawIs(values: seq<string>, now: Time, choice: nat)
    ensures Picked(values, Blacklist(map[]), now, choice)
         == if values == [] then None else Some(values[choice % |values|])
  {
    AllAvailable(values, |values|);
    assert values[..|values|] == values;
    assert Cleaned(Blacklist(map[]), now) == Blacklist(map[]);
  }

  /** The account of the first attempt. */
  function FirstAccount(r: Run): Option<string>
    requires r.attempts != []
  {
    if r.cfg.forced.Some? then r.cfg.forced
    else if !r.cfg.accountEnabled then if r.attempts[0].rootExists then Some(r.cfg.rootState) else None
    else if r.accounts == [] then None
    else Some(r.accounts[r.attempts[0].accountChoice % |r.accounts|])
  }

  /** The proxy of the first attempt. */
  function FirstProxy(r: Run): Option<string>
    requires r.attempts != []
  {
    if !r.cfg.proxyEnabled || r.proxies == [] then None
    else Some(r.proxies[r.attempts[0].proxyChoice % |r.proxies|])
  }

  lemma FirstChoice(r: Run)
    requires r.attempts != []
    ensures var c := Chosen(r.cfg, r.accounts, r.proxies, Begin(), true, r.attempts[0]);
            c.account.item == FirstAccount(r) && c.proxy.item == FirstProxy(r)
  {
    FirstDrawIs(r.accounts, r.attempts[0].accountPickedAt, r.attempts[0].accountChoice);
    FirstDrawIs(r.proxies, r.attempts[0].proxyPickedAt, r.attempts[0].proxyChoice);
  }

  /** After the first choice there always is an account, and a proxy where one is needed. */
  predicate Equipped(r: Run, s: Loop) {
    s.account.item.Some? && (r.cfg.proxyEnabled ==> s.proxy.item.Some?)
  }

  lemma StaysEquipped(r: Run, s: Loop, a: Attempt)
    requires Equipped(r, s)
    ensures Equipped(r, Chosen(r.cfg, r.accounts, r.proxies, s, false, a))
  {
    DrawKeepsItem(r.accounts, s.account, r.cfg.accountTtl, a.accountMarkedAt, a.accountPickedAt, a.accountChoice);
    if r.cfg.proxyEnabled {
      DrawKeepsItem(r.proxies, s.proxy, r.cfg.proxyTtl, a.proxyMarkedAt, a.proxyPickedAt, a.proxyChoice);
    }
  }

  lemma DrawKeepsItem(values: seq<string>, c: Choice, ttl: int, marked: Time, now: Time, choice: nat)
    requires c.item.Some?
    ensures Draw(values, c.(bad := Marked(c.bad, ttl, c.item, marked)), now, choice).item.Some?
  {
  }

  lemma {:induction false} OnceEquipped(r: Run, n: nat)
    requires 0 < n <= |r.attempts| && FirstAccount(r).Some? && !NoProxy(r)
    ensures Equipped(r, Loops(r, n))
    decreases n
  {
    if n == 1 {
      FirstChoice(r);
      LoopOne(r);
    } else {
      LoopNext(r, n);
      OnceEquipped(r, n - 1);
      StaysEquipped(r, Loops(r, n - 1), r.attempts[n - 1]);
    }
  }

  /** Exactly when a run makes no attempt: it has no account to begin with, and says so, or no proxy that it needs, and
      says that. Otherwise the attempts go on, in order, up to the limit, until one goes through or meets a login or
      risk-control error; the last one gives the items and the error text. */
  lemma AttemptsAre(r: Run)
    requires r.attempts != []
    ensures var s := EndOf(r);
            && (s.used == [] <==> NoAccount(r) || NoProxy(r))
            && (NoAccount(r) ==> s.error == MISSING_ACCOUNT && s.processed == 0)
            && (!NoAccount(r) && NoProxy(r) ==> s.error == MISSING_PROXY && s.processed == 0)
            && (s.used != [] ==>
                  && |s.used| <= |r.attempts|
                  && (forall k | 0 <= k < |s.used| - 1 :: r.attempts[k].outcome.Other?)
                  && (|s.used| < |r.attempts| ==> !r.attempts[|s.used| - 1].outcome.Other?)
                  && var last := r.attempts[|s.used| - 1].outcome;
                  && s.error == TextOf(last) && s.processed == if last.Done? then last.items else 0)
  {
    RunsInOrder(r, |r.attempts|);
    if NoAccount(r) || NoProxy(r) {
      NothingTried(r, |r.attempts|);
    } else {
      OnceEquipped(r, |r.attempts|);
      NeverLacks(r, |r.attempts|);
    }
  }

  lemma {:induction false} NothingTried(r: Run, n: nat)
    requires 0 < n <= |r.attempts| && (NoAccount(r) || NoProxy(r))
    ensures var s := Loops(r, n);
            s.stopped && s.used == [] && s.processed == 0
            && s.error == if NoAccount(r) then MISSING_ACCOUNT else MISSING_PROXY
    decreases n
  {
    if n == 1 {
      FirstChoice(r);
      LoopOne(r);
    } else {
      LoopNext(r, n);
      NothingTried(r, n - 1);
    }
  }

  /** A run that is equipped stops only after an attempt that is not tried again. */
  lemma {:induction false} NeverLacks(r: Run, n: nat)
    requires 0 < n <= |r.attempts| && FirstAccount(r).Some? && !NoProxy(r)
    ensures var s := Loops(r, n);
            s.used != [] && s.last.Some? && (s.stopped <==> !s.last.value.Other?)
    decreases n
  {
    if n == 1 {
      FirstChoice(r);
      LoopOne(r);
    } else {
      LoopNext(r, n);
      NeverLacks(r, n - 1);
      OnceEquipped(r, n - 1);
      var s := Loops(r, n - 1);
      if !s.stopped {
        StaysEquipped(r, s, r.attempts[n - 1]);
      }
    }
  }

  /** Without rotation on failure every attempt uses the account of the first one: the given one, the root file, or
      one drawn from the pool. */
  lemma {:induction false} OneAccount(r: Run, n: nat)
    requires n <= |r.attempts| && !(r.cfg.accountEnabled && r.cfg.accountMode == OnFailure)
    ensures forall k | 0 <= k < |Loops(r, n).used| :: Some(Loops(r, n).used[k]) == FirstAccount(r)
    ensures n > 0 ==> Loops(r, n).account.item == FirstAccount(r)
    decreases n
  {
    if n > 0 {
      OneAccount(r, n - 1);
      if n == 1 {
        FirstChoice(r);
        LoopOne(r);
      } else {
        LoopNext(r, n);
      }
    }
  }

  /** A given account is used by every attempt, rotation or not. */
  lemma {:induction false} GivenAccount(r: Run, n: nat)
    requires n <= |r.attempts| && r.cfg.forced.Some?
    ensures forall k | 0 <= k < |Loops(r, n).used| :: Some(Loops(r, n).used[k]) == r.cfg.forced
    ensures n > 0 ==> Loops(r, n).account.item == r.cfg.forced
    decreases n
  {
    if n > 0 {
      GivenAccount(r, n - 1);
      if n == 1 {
        LoopOne(r);
      } else {
        LoopNext(r, n);
      }
    }
  }

  /** Without rotation on failure every attempt uses the proxy of the first one, and none when proxies are off. */
  lemma {:induction false} OneProxy(r: Run, n: nat)
    requires 0 < n <= |r.attempts| && !(r.cfg.proxyEnabled && r.cfg.proxyMode == OnFailure)
    ensures Loops(r, n).proxy.item == FirstProxy(r)
    decreases n
  {
    if n == 1 {
      FirstChoice(r);
      LoopOne(r);
    } else {
      LoopNext(r, n);
      OneProxy(r, n - 1);
    }
  }

  /** With rotation on failure a new attempt marks the proxy that has failed and takes one that is not marked, or keeps
      the old one when all are. */
  lemma NextProxyIs(r: Run, s: Loop, a: Attempt)
    requires r.cfg.proxyEnabled && r.cfg.proxyMode == OnFailure && r.cfg.proxyTtl > 0 && s.proxy.item.Some?
    requires a.proxyMarkedAt <= a.proxyPickedAt < a.proxyMarkedAt + r.cfg.proxyTtl
    ensures var c := Chosen(r.cfg, r.accounts, r.proxies, s, false, a).proxy;
            var marked := s.proxy.bad.until[s.proxy.item.value := a.proxyMarkedAt + r.cfg.proxyTtl];
            && c.bad.until == (map v | v in marked && marked[v] > a.proxyPickedAt :: marked[v])
            && c.item.Some?
            && ((c.item.value in r.proxies && c.item.value !in c.bad.until)
                || (c.item == s.proxy.item && forall v | v in r.proxies :: v in c.bad.until))
  {
    var bad := Marked(s.proxy.bad, r.cfg.proxyTtl, s.proxy.item, a.proxyMarkedAt);
    PickedIsAvailable(r.proxies, bad, a.proxyPickedAt, a.proxyChoice);
  }

  /** One selection of an account: the given one, else the root file if rotation is off, else the one there is if it is
      kept for the task, else a value of the pool that is not listed then, or the one there is when all are. */
  lemma SelectionIs(cfg: Settings, accounts: seq<string>, c: Choice, a: Attempt, forceNew: bool)
    ensures var chosen := WithAccount(cfg, accounts, c, a, forceNew).item;
            var kept := cfg.forced.None? && cfg.accountEnabled && cfg.accountMode == PerTask && c.item.Some? && !forceNew;
            var drawn := cfg.forced.None? && cfg.accountEnabled && !kept;
            && (cfg.forced.Some? ==> chosen == cfg.forced)
            && (cfg.forced.None? && !cfg.accountEnabled ==> chosen == if a.rootExists then Some(cfg.rootState) else None)
            && (kept ==> chosen == c.item)
            && (drawn ==> if forall v | v in accounts :: StillListed(c.bad, v, a.accountPickedAt) then chosen == c.item
                          else chosen.Some? && chosen.value in accounts && !StillListed(c.bad, chosen.value, a.accountPickedAt))
  {
    PickedIsAvailable(accounts, c.bad, a.accountPickedAt, a.accountChoice);
  }

  predicate StillListed(bad: Blacklist, v: string, now: Time) {
    v in bad.until && now < bad.until[v]
  }

  /** The same for a proxy. */
  lemma ProxySelectionIs(cfg: Settings, proxies: seq<string>, c: Choice, a: Attempt, forceNew: bool)
    ensures var chosen := WithProxy(cfg, proxies, c, a, forceNew).item;
            var kept := cfg.proxyEnabled && cfg.proxyMode == PerTask && c.item.Some? && !forceNew;
            && (!cfg.proxyEnabled ==> chosen == None)
            && (kept ==> chosen == c.item)
            && (cfg.proxyEnabled && !kept ==>
                  if forall v | v in proxies :: StillListed(c.bad, v, a.proxyPickedAt) then chosen == c.item
                  else chosen.Some? && chosen.value in proxies && !StillListed(c.bad, chosen.value, a.proxyPickedAt))
  {
    PickedIsAvailable(proxies, c.bad, a.proxyPickedAt, a.proxyChoice);
  }

  // ----- what a failed run reports ------------------------------------------------------------------

  /** A failure is reported with the cookie file of the last attempt, and with none when none was made; it is immediate
      exactly when the shortened reason names a missing account or proxy. */
  lemma FailureIs(r: Run)
    requires r.attempts != []
    ensures var f := FailureOf(EndOf(r), r);
            && f.now == r.endAt && f.today == r.endDay
            && f.cookie == (if NoAccount(r) || NoProxy(r) then FailureGuard.NoPath else FailureGuard.Path(r.stored, r.checked))
            && (f.immediate <==> exists i: nat ::
                  || Text.OccursAt(ACCOUNT_MARKER, FormatReason(EndOf(r).error), i)
                  || Text.OccursAt(PROXY_MARKER, FormatReason(EndOf(r).error), i))
  {
    AttemptsAre(r);
  }

  /** A reason is shortened to 500 characters: read as one line, and beyond that the first 497 and an ellipsis. */
  lemma ShortReasonIs(reason: string)
    requires reason != ""
    ensures var line := RuleReference.Read(reason, |reason|);
            FormatReason(reason) == if |line| > 500 then line[..497] + "..." else line
    ensures |FormatReason(reason)| <= 500
  {
    RuleReference.FieldsAreRead(reason, |reason|);
    assert reason[..|reason|] == reason;
  }
}
