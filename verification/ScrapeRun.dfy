/** One run of a task: the attempts with rotating accounts and proxies, and the single result the run
    reports to the failure guard. What an attempt does in the browser is a parameter. */
module ScrapeRun {
  import opened Basics
  import opened Rotation
  import FailureGuard
  import Text

  const MISSING_ACCOUNT := "未找到可用的登录状态文件，无法继续执行任务。"
  const MISSING_PROXY := "未找到可用的代理地址，无法继续执行任务。"
  const ACCOUNT_MARKER := "未找到可用的登录状态文件"
  const PROXY_MARKER := "未找到可用的代理地址"

  datatype Mode = PerTask | OnFailure | OtherMode

  datatype Settings = Settings(
    forced: Option<string>,
    accountEnabled: bool, accountMode: Mode, accountTtl: int,
    proxyEnabled: bool, proxyMode: Mode, proxyTtl: int,
    rootState: string)

  datatype Outcome =
    | Done(items: nat)
    | LoginRequired(text: string)
    | RiskControl(text: string)
    | Other(kind: string, text: string)

  /** What the outside world contributes to one attempt. */
  datatype Attempt = Attempt(
    accountMarkedAt: Time, accountPickedAt: Time, accountChoice: nat,
    proxyMarkedAt: Time, proxyPickedAt: Time, proxyChoice: nat,
    rootExists: bool, outcome: Outcome)

  /** What is selected from a pool, and the pool's blacklist. */
  datatype Choice = Choice(item: Option<string>, bad: Blacklist)

  /** The variables of the loop. `used` lists the accounts of the attempts made so far and `last` is
      their latest outcome. */
  datatype Loop = Loop(account: Choice, proxy: Choice, error: string, processed: nat, stopped: bool,
                       used: seq<string>, last: Option<Outcome>)

  function Begin(): Loop {
    Loop(Choice(None, Blacklist(map[])), Choice(None, Blacklist(map[])), "", 0, false, [], None)
  }

  // ----- choosing --------------------------------------------------------------------------

  /** A draw from the pool that keeps the current item when the pool gives none. */
  function Draw(values: seq<string>, c: Choice, now: Time, choice: nat): Choice {
    var picked := Picked(values, c.bad, now, choice);
    Choice(if picked.Some? then picked else c.item, Cleaned(c.bad, now))
  }

  /** `_select_account` */
  function WithAccount(cfg: Settings, accounts: seq<string>, c: Choice, a: Attempt, forceNew: bool): Choice {
    if cfg.forced.Some? then c.(item := cfg.forced)
    else if !cfg.accountEnabled then c.(item := if a.rootExists then Some(cfg.rootState) else None)
    else if cfg.accountMode == PerTask && c.item.Some? && !forceNew then c
    else Draw(accounts, c, a.accountPickedAt, a.accountChoice)
  }

  /** `_select_proxy` */
  function WithProxy(cfg: Settings, proxies: seq<string>, c: Choice, a: Attempt, forceNew: bool): Choice {
    if !cfg.proxyEnabled then c.(item := None)
    else if cfg.proxyMode == PerTask && c.item.Some? && !forceNew then c
    else Draw(proxies, c, a.proxyPickedAt, a.proxyChoice)
  }

  /** The failed item is marked before the next one is drawn. */
  function RotateAccount(cfg: Settings, accounts: seq<string>, c: Choice, a: Attempt): Choice {
    if cfg.accountEnabled && cfg.accountMode == OnFailure
    then WithAccount(cfg, accounts, c.(bad := Marked(c.bad, cfg.accountTtl, c.item, a.accountMarkedAt)), a, true)
    else c
  }

  function RotateProxy(cfg: Settings, proxies: seq<string>, c: Choice, a: Attempt): Choice {
    if cfg.proxyEnabled && cfg.proxyMode == OnFailure
    then WithProxy(cfg, proxies, c.(bad := Marked(c.bad, cfg.proxyTtl, c.item, a.proxyMarkedAt)), a, true)
    else c
  }

  function NextAccount(cfg: Settings, accounts: seq<string>, c: Choice, first: bool, a: Attempt): Choice {
    if first then WithAccount(cfg, accounts, c, a, false) else RotateAccount(cfg, accounts, c, a)
  }

  function NextProxy(cfg: Settings, proxies: seq<string>, c: Choice, first: bool, a: Attempt): Choice {
    if first then WithProxy(cfg, proxies, c, a, false) else RotateProxy(cfg, proxies, c, a)
  }

  function Chosen(cfg: Settings, accounts: seq<string>, proxies: seq<string>, s: Loop, first: bool, a: Attempt): Loop {
    s.(account := NextAccount(cfg, accounts, s.account, first, a), proxy := NextProxy(cfg, proxies, s.proxy, first, a))
  }

  // ----- attempts --------------------------------------------------------------------------

  /** The attempt itself, once account and proxy are chosen. */
  function Tried(cfg: Settings, s: Loop, outcome: Outcome): Loop {
    if s.account.item.None? then s.(error := MISSING_ACCOUNT, stopped := true)
    else if cfg.proxyEnabled && s.proxy.item.None? then s.(error := MISSING_PROXY, stopped := true)
    else
      var t := s.(used := s.used + [s.account.item.value], last := Some(outcome));
      match outcome
      case Done(items) => t.(processed := s.processed + items, error := "", stopped := true)
      case LoginRequired(text) => t.(error := text, stopped := true)
      case RiskControl(text) => t.(error := text, stopped := true)
      case Other(kind, text) => t.(error := kind + ": " + text)
  }

  function Iteration(cfg: Settings, accounts: seq<string>, proxies: seq<string>, s: Loop, first: bool, a: Attempt): Loop {
    if s.stopped then s else Tried(cfg, Chosen(cfg, accounts, proxies, s, first, a), a.outcome)
  }

  /** The loop after at most `n` attempts. */
  function After(cfg: Settings, accounts: seq<string>, proxies: seq<string>, attempts: seq<Attempt>, n: nat): Loop
    requires n <= |attempts|
  {
    if n == 0 then Begin()
    else Iteration(cfg, accounts, proxies, After(cfg, accounts, proxies, attempts, n - 1), n == 1, attempts[n - 1])
  }

  /** The last attempt went through. */
  predicate Succeeded(s: Loop) {
    s.last.Some? && s.last.value.Done?
  }

  const LIMIT := 500

  /** White space collapsed, and cut to the limit. */
  function FormatReason(reason: string): string {
    if reason == "" then "未知错误"
    else
      var cleaned := Text.Join(Text.Fields(reason));
      if |cleaned| <= LIMIT then cleaned else cleaned[..LIMIT - 3] + "..."
  }

  /** A misconfiguration: either marker in the shortened reason. */
  predicate PauseImmediately(reason: string) {
    Text.Contains(FormatReason(reason), PROXY_MARKER) || Text.Contains(FormatReason(reason), ACCOUNT_MARKER)
  }

  /** The cookie file that a failure is recorded with: the account of the last attempt, if any. */
  function CookieOf(s: Loop, stored: Option<real>, checked: Option<real>): FailureGuard.Cookie {
    if s.used == [] then FailureGuard.NoPath else FailureGuard.Path(stored, checked)
  }

  // ----- the run ---------------------------------------------------------------------------

  /** What a run reads; `attempts` is as long as the attempt limit, and the pools start without a
      blacklist. */
  datatype Run = Run(
    cfg: Settings, accounts: seq<string>, proxies: seq<string>,
    startAt: Time, startDay: FailureGuard.Day, startCookie: FailureGuard.Cookie,
    attempts: seq<Attempt>,
    endAt: Time, endDay: FailureGuard.Day, stored: Option<real>, checked: Option<real>)

  function EndOf(r: Run): Loop {
    After(r.cfg, r.accounts, r.proxies, r.attempts, |r.attempts|)
  }

  function StartOf(r: Run): FailureGuard.Event {
    FailureGuard.Start(r.startAt, r.startDay, r.startCookie)
  }

  function FailureOf(s: Loop, r: Run): FailureGuard.Event {
    FailureGuard.Failure(r.endAt, r.endDay, CookieOf(s, r.stored, r.checked), PauseImmediately(s.error))
  }

  /** What an admitted run reports to the guard, in this order. */
  function Report(s: Loop, r: Run): seq<FailureGuard.Event> {
    (if Succeeded(s) then [FailureGuard.Success(r.endAt, r.endDay)] else [])
    + if s.error != "" then [FailureOf(s, r)] else []
  }

  function RunEvents(e: FailureGuard.Entry, r: Run): seq<FailureGuard.Event> {
    [StartOf(r)] + if FailureGuard.Admits(e, StartOf(r)) then Report(EndOf(r), r) else []
  }

  // ----- the objects -------------------------------------------------------------------------

  function ValueOf(item: RotationItem?): Option<string> {
    if item == null then None else Some(item.value)
  }

  /** The variables of one call of the scraper. `stopped` stands for leaving the loop. */
  class Scrape {
    const cfg: Settings
    const accounts: RotationPool
    const proxies: RotationPool
    var account: RotationItem?
    var proxy: RotationItem?
    var error: string
    var processed: nat
    var stopped: bool
    var lastPath: Option<string>
    ghost var used: seq<string>
    ghost var last: Option<Outcome>

    ghost predicate Wired()
      reads this
    {
      && accounts != proxies
      && accounts.ttl == Max(0, cfg.accountTtl) && proxies.ttl == Max(0, cfg.proxyTtl)
      && (lastPath.Some? <==> used != [])
    }

    ghost function State(): Loop
      reads this, accounts, proxies
    {
      Loop(Choice(ValueOf(account), accounts.bad), Choice(ValueOf(proxy), proxies.bad), error, processed, stopped, used, last)
    }

    /** The last attempt went through. */
    ghost predicate Won()
      reads this
    {
      last.Some? && last.value.Done?
    }

    constructor (cfg: Settings, accountItems: seq<string>, proxyItems: seq<string>)
      ensures Wired() && State() == Begin() && this.cfg == cfg && fresh(accounts) && fresh(proxies)
      ensures accounts.Values() == Text.NonEmpty(accountItems)
      ensures proxies.Values() == Text.NonEmpty(proxyItems)
      ensures forall item | item in accounts.items :: fresh(item)
      ensures forall item | item in proxies.items :: fresh(item)
    {
      this.cfg := cfg;
      accounts := new RotationPool(accountItems, cfg.accountTtl);
      proxies := new RotationPool(proxyItems, cfg.proxyTtl);
      account, proxy := null, null;
      error, processed, stopped := "", 0, false;
      lastPath, used, last := None, [], None;
    }

    method SelectAccount(a: Attempt, forceNew: bool)
      requires Wired()
      modifies this`account, accounts
      ensures Choice(ValueOf(account), accounts.bad) ==
                WithAccount(cfg, accounts.Values(), old(Choice(ValueOf(account), accounts.bad)), a, forceNew)
      ensures account == null || account == old(account) || fresh(account) || account in accounts.items
    {
      if cfg.forced.Some? {
        account := new RotationItem(cfg.forced.value);
        return;
      }
      if !cfg.accountEnabled {
        account := null;
        if a.rootExists {
          account := new RotationItem(cfg.rootState);
        }
        return;
      }
      if cfg.accountMode == PerTask && account != null && !forceNew {
        return;
      }
      var picked := accounts.PickRandom(a.accountPickedAt, a.accountChoice);
      if picked != null {
        account := picked;
      }
    }

    method SelectProxy(a: Attempt, forceNew: bool)
      requires Wired()
      modifies this`proxy, proxies
      ensures Choice(ValueOf(proxy), proxies.bad) ==
                WithProxy(cfg, proxies.Values(), old(Choice(ValueOf(proxy), proxies.bad)), a, forceNew)
      ensures proxy == null || proxy == old(proxy) || proxy in proxies.items
    {
      if !cfg.proxyEnabled {
        proxy := null;
        return;
      }
      if cfg.proxyMode == PerTask && proxy != null && !forceNew {
        return;
      }
      var picked := proxies.PickRandom(a.proxyPickedAt, a.proxyChoice);
      if picked != null {
        proxy := picked;
      }
    }

    method ChooseAccount(first: bool, a: Attempt)
      requires Wired()
      modifies this`account, accounts, account
      ensures Choice(ValueOf(account), accounts.bad) ==
                NextAccount(cfg, accounts.Values(), old(Choice(ValueOf(account), accounts.bad)), first, a)
      ensures account == null || account == old(account) || fresh(account) || account in accounts.items
    {
      if first {
        SelectAccount(a, false);
      } else if cfg.accountEnabled && cfg.accountMode == OnFailure {
        accounts.MarkBad(account, error, a.accountMarkedAt);
        SelectAccount(a, true);
      }
    }

    method ChooseProxy(first: bool, a: Attempt)
      requires Wired()
      modifies this`proxy, proxies, proxy
      ensures Choice(ValueOf(proxy), proxies.bad) ==
                NextProxy(cfg, proxies.Values(), old(Choice(ValueOf(proxy), proxies.bad)), first, a)
      ensures proxy == null || proxy == old(proxy) || proxy in proxies.items
    {
      if first {
        SelectProxy(a, false);
      } else if cfg.proxyEnabled && cfg.proxyMode == OnFailure {
        proxies.MarkBad(proxy, error, a.proxyMarkedAt);
        SelectProxy(a, true);
      }
    }

    /** Success is recorded inside the attempt, failure only after the loop. */
    method Try(guard: FailureGuard.Guard, key: FailureGuard.Key, outcome: Outcome)
      requires Wired() && !stopped
      modifies this, guard
      ensures Wired() && State() == Tried(cfg, old(State()), outcome)
      ensures account == old(account) && proxy == old(proxy)
      ensures !old(Won()) ==>
                guard.entries == if Won() then old(guard.entries)[key := FailureGuard.FRESH] else old(guard.entries)
      ensures !stopped ==> !Won()
    {
      if account == null {
        error, stopped := MISSING_ACCOUNT, true;
        return;
      }
      if cfg.proxyEnabled && proxy == null {
        error, stopped := MISSING_PROXY, true;
        return;
      }
      lastPath, used, last := Some(account.value), used + [account.value], Some(outcome);
      match outcome
      case Done(items) =>
        processed := processed + items;
        error, stopped := "", true;
        guard.RecordSuccess(key);
      case LoginRequired(text) =>
        error, stopped := text, true;
      case RiskControl(text) =>
        error, stopped := text, true;
      case Other(kind, text) =>
        error := kind + ": " + text;
    }

    /** Attempt number `i` of a loop that has not been left; `states` lists the loop's states. */
    method OneAttempt(guard: FailureGuard.Guard, key: FailureGuard.Key, attempts: seq<Attempt>, i: nat, ghost states: seq<Loop>)
      requires Wired() && i < |attempts| && !stopped && !Won()
      requires Lists(states, cfg, accounts.Values(), proxies.Values(), attempts) && State() == states[i]
      modifies this, guard, accounts, proxies, account, proxy
      ensures Wired() && State() == states[i + 1]
      ensures account == null || account == old(account) || fresh(account) || account in accounts.items
      ensures proxy == null || proxy == old(proxy) || proxy in proxies.items
      ensures !stopped ==> !Won()
      ensures guard.entries == if Won() then old(guard.entries)[key := FailureGuard.FRESH] else old(guard.entries)
    {
      assert State() == After(cfg, accounts.Values(), proxies.Values(), attempts, i);
      ChooseAccount(i == 0, attempts[i]);
      ChooseProxy(i == 0, attempts[i]);
      Try(guard, key, attempts[i].outcome);
      assert State() == After(cfg, accounts.Values(), proxies.Values(), attempts, i + 1);
    }

    /** The attempt loop; `n` is the number of attempts begun. */
    method AttemptLoop(guard: FailureGuard.Guard, key: FailureGuard.Key, attempts: seq<Attempt>, ghost states: seq<Loop>)
      returns (n: nat)
      requires Wired() && State() == Begin()
      requires Lists(states, cfg, accounts.Values(), proxies.Values(), attempts) && State() == states[0]
      modifies this, guard, accounts, proxies, set item | item in accounts.items, set item | item in proxies.items
      ensures Wired() && n <= |attempts| && (stopped || n == |attempts|) && State() == states[n]
      ensures guard.entries == if Won() then old(guard.entries)[key := FailureGuard.FRESH] else old(guard.entries)
    {
      n := 0;
      while n < |attempts| && !stopped
        invariant Wired() && n <= |attempts| && State() == states[n]
        invariant account == null || fresh(account) || account in accounts.items
        invariant proxy == null || proxy in proxies.items
        invariant !stopped ==> !Won()
        invariant guard.entries == if Won() then old(guard.entries)[key := FailureGuard.FRESH] else old(guard.entries)
      {
        OneAttempt(guard, key, attempts, n, states);
        n := n + 1;
      }
    }

    method RunAttempts(guard: FailureGuard.Guard, key: FailureGuard.Key, attempts: seq<Attempt>)
      requires Wired() && State() == Begin()
      modifies this, guard, accounts, proxies, set item | item in accounts.items, set item | item in proxies.items
      ensures Wired()
      ensures State() == After(cfg, accounts.Values(), proxies.Values(), attempts, |attempts|)
      ensures guard.entries == if Won() then old(guard.entries)[key := FailureGuard.FRESH] else old(guard.entries)
    {
      ghost var a, p := accounts.Values(), proxies.Values();
      ghost var states := seq(|attempts| + 1, k requires 0 <= k <= |attempts| => After(cfg, a, p, attempts, k));
      assert After(cfg, a, p, attempts, 0) == Begin();
      var n := AttemptLoop(guard, key, attempts, states);
      StoppedStays(cfg, a, p, attempts, n, |attempts|);
    }
  }

  /** The states of the loop, one after each attempt. */
  ghost predicate Lists(states: seq<Loop>, cfg: Settings, accounts: seq<string>, proxies: seq<string>, attempts: seq<Attempt>) {
    && |states| == |attempts| + 1
    && forall k: nat {:trigger After(cfg, accounts, proxies, attempts, k)} | k <= |attempts| ::
         states[k] == After(cfg, accounts, proxies, attempts, k)
  }

  lemma {:induction false} StoppedStays(cfg: Settings, accounts: seq<string>, proxies: seq<string>,
                                        attempts: seq<Attempt>, i: nat, n: nat)
    requires i <= n <= |attempts|
    requires After(cfg, accounts, proxies, attempts, i).stopped || i == n
    ensures After(cfg, accounts, proxies, attempts, n) == After(cfg, accounts, proxies, attempts, i)
    decreases n
  {
    if i < n {
      StoppedStays(cfg, accounts, proxies, attempts, i, n - 1);
    }
  }

  /** `scrape_xianyu` around its attempts: ask the guard, run, report at most once. The pools drop empty
      entries; `r` describes the run with what they keep. */
  method ScrapeTask(guard: FailureGuard.Guard, key: FailureGuard.Key, accountItems: seq<string>, proxyItems: seq<string>, r: Run)
    returns (processed: nat)
    requires r.accounts == Text.NonEmpty(accountItems) && r.proxies == Text.NonEmpty(proxyItems)
    modifies guard
    ensures var e := FailureGuard.Load(old(guard.entries), key);
            && FailureGuard.Load(guard.entries, key) == FailureGuard.Run(guard.cfg, e, RunEvents(e, r))
            && processed == if FailureGuard.Admits(e, StartOf(r)) then EndOf(r).processed else 0
    ensures forall other | other != key ::
              FailureGuard.Load(guard.entries, other) == FailureGuard.Load(old(guard.entries), other)
  {
    RunIs(guard.cfg, FailureGuard.Load(guard.entries, key), r);
    var decision := guard.ShouldSkipStart(key, r.startCookie, r.startAt, r.startDay);
    if decision.skip {
      return 0;
    }
    var scrape := new Scrape(r.cfg, accountItems, proxyItems);
    scrape.RunAttempts(guard, key, r.attempts);
    assert scrape.State() == EndOf(r);
    if scrape.error != "" {
      var cookie := if scrape.lastPath.None? then FailureGuard.NoPath else FailureGuard.Path(r.stored, r.checked);
      var immediate := PauseImmediately(scrape.error);
      var _ := guard.RecordFailure(key, cookie, FailureGuard.MinFailures(immediate), r.endAt, r.endDay);
    }
    return scrape.processed;
  }

  /** What one run leaves in the guard, case by case. */
  lemma RunIs(guard: FailureGuard.Config, e: FailureGuard.Entry, r: Run)
    ensures var started := FailureGuard.AfterStart(e, r.startAt, r.startDay, r.startCookie);
            var s := EndOf(r);
            FailureGuard.Run(guard, e, RunEvents(e, r)) ==
              if !FailureGuard.Admits(e, StartOf(r)) then started
              else if Succeeded(s) then FailureGuard.FRESH
              else if s.error != "" then
                FailureGuard.AfterFailure(guard, started, r.endAt, r.endDay, CookieOf(s, r.stored, r.checked),
                                          FailureGuard.MinFailures(PauseImmediately(s.error)))
              else started
    ensures Succeeded(EndOf(r)) ==> EndOf(r).error == ""
  {
    var start := StartOf(r);
    RunOfOne(guard, e, start);
    EndReports(r);
    RunOfTwo(guard, e, start, FailureGuard.Success(r.endAt, r.endDay));
    RunOfTwo(guard, e, start, FailureOf(EndOf(r), r));
    assert [start] + [] == [start];
  }

  lemma RunOfOne(cfg: FailureGuard.Config, e: FailureGuard.Entry, a: FailureGuard.Event)
    ensures FailureGuard.Run(cfg, e, [a]) == FailureGuard.Step(cfg, e, a)
  {
    assert [a][..0] == [];
  }

  lemma RunOfTwo(cfg: FailureGuard.Config, e: FailureGuard.Entry, a: FailureGuard.Event, b: FailureGuard.Event)
    ensures FailureGuard.Run(cfg, e, [a] + [b]) == FailureGuard.Step(cfg, FailureGuard.Step(cfg, e, a), b)
  {
    RunOfOne(cfg, e, a);
    assert ([a] + [b])[..1] == [a];
  }

  // ----- exactly one result ------------------------------------------------------------------

  /** The run ended in a login or risk-control error whose text is empty. No raise site of the scraper gives
      an empty text; the loop itself does not rely on that. */
  predicate EndedSilently(s: Loop) {
    s.last == Some(LoginRequired("")) || s.last == Some(RiskControl(""))
  }

  /** Nothing was left to try with: no account, or no proxy when one is needed. */
  predicate Lacking(s: Loop) {
    s.stopped && (s.last.Some? ==> s.last.value.Other?)
  }

  /** How the variables hang together once an attempt was begun. */
  predicate Shape(s: Loop) {
    && (s.error == "" <==> Succeeded(s) || EndedSilently(s))
    && (!s.stopped ==> s.used != [] && s.last.Some? && s.last.value.Other?)
    && (s.last.Some? && !s.last.value.Other? ==> s.stopped)
    && (s.used == [] <==> s.last.None?)
    && (Lacking(s) ==> s.error == MISSING_ACCOUNT || s.error == MISSING_PROXY)
  }

  lemma TriedShape(cfg: Settings, s: Loop, outcome: Outcome)
    requires !s.stopped && (s == Begin().(account := s.account, proxy := s.proxy) || Shape(s))
    ensures Shape(Tried(cfg, s, outcome))
  {
  }

  lemma {:induction false} LoopShape(r: Run, n: nat)
    requires 0 < n <= |r.attempts|
    ensures Shape(After(r.cfg, r.accounts, r.proxies, r.attempts, n))
  {
    var s, a := After(r.cfg, r.accounts, r.proxies, r.attempts, n - 1), r.attempts[n - 1];
    if n > 1 {
      LoopShape(r, n - 1);
    }
    if !s.stopped {
      TriedShape(r.cfg, Chosen(r.cfg, r.accounts, r.proxies, s, n == 1, a), a.outcome);
    }
  }

  /** Whatever the attempts do: at most one result, and none exactly after an error with an empty text. */
  lemma ReportsOnceIff(r: Run)
    requires r.attempts != []
    ensures |Report(EndOf(r), r)| <= 1
    ensures |Report(EndOf(r), r)| == 1 <==> !EndedSilently(EndOf(r))
    ensures Report(EndOf(r), r) != [] ==> (Report(EndOf(r), r)[0].Success? <==> Succeeded(EndOf(r)))
  {
    LoopShape(r, |r.attempts|);
    assert Shape(EndOf(r));
  }

  /** Every login and risk-control error carries a text, as all those that the attempts raise do. */
  predicate ErrorsHaveTexts(r: Run) {
    forall i | 0 <= i < |r.attempts| ::
      r.attempts[i].outcome != LoginRequired("") && r.attempts[i].outcome != RiskControl("")
  }

  lemma {:induction false} LastIsAnOutcome(r: Run, n: nat)
    requires n <= |r.attempts|
    ensures var last := After(r.cfg, r.accounts, r.proxies, r.attempts, n).last;
            last.Some? ==> exists i | 0 <= i < n :: r.attempts[i].outcome == last.value
  {
    if n > 0 {
      LastIsAnOutcome(r, n - 1);
      assert r.attempts[n - 1].outcome == r.attempts[n - 1].outcome;
    }
  }

  /** An admitted run reports exactly one result. */
  lemma ReportsExactlyOnce(r: Run)
    requires r.attempts != [] && ErrorsHaveTexts(r)
    ensures |Report(EndOf(r), r)| == 1
    ensures Report(EndOf(r), r)[0].Success? <==> Succeeded(EndOf(r))
  {
    LastIsAnOutcome(r, |r.attempts|);
    ReportsOnceIff(r);
  }

  lemma EndReports(r: Run)
    ensures var s := EndOf(r);
            Report(s, r) == if Succeeded(s) then [FailureGuard.Success(r.endAt, r.endDay)]
                            else if s.error != "" then [FailureOf(s, r)] else []
    ensures Succeeded(EndOf(r)) ==> EndOf(r).error == ""
  {
    if r.attempts != [] {
      LoopShape(r, |r.attempts|);
      assert Shape(EndOf(r));
    }
  }

  // ----- different accounts -------------------------------------------------------------------

  predicate RotatesOnFailure(cfg: Settings) {
    cfg.forced.None? && cfg.accountEnabled && cfg.accountMode == OnFailure && cfg.accountTtl > 0
  }

  /** All account clock readings lie inside one TTL. */
  predicate WithinTtl(r: Run, from: Time) {
    forall i | 0 <= i < |r.attempts| ::
      && from <= r.attempts[i].accountMarkedAt < from + r.cfg.accountTtl
      && from <= r.attempts[i].accountPickedAt < from + r.cfg.accountTtl
  }

  function Members(xs: seq<string>): set<string> {
    set x | x in xs
  }

  /** The first `d` entries differ from each other, and every later one repeats the last of them. */
  predicate EachOnceThenLast(used: seq<string>, d: nat) {
    && (forall i, j | 0 <= i < j < |used| && j < d :: used[i] != used[j])
    && (forall j | 0 < d <= j < |used| :: used[j] == used[d - 1])
  }

  ghost predicate Rotated(r: Run, from: Time, s: Loop) {
    && Members(s.used) <= Members(r.accounts)
    && EachOnceThenLast(s.used, |Members(r.accounts)|)
    && (s.used == [] && !s.stopped ==> s.account == Choice(None, Blacklist(map[])))
    && (s.used != [] && !s.stopped ==>
          && s.account.item == Some(s.used[|s.used| - 1])
          && s.account.bad.until.Keys == Members(s.used[..|s.used| - 1])
          && forall v | v in s.account.bad.until :: s.account.bad.until[v] >= from + r.cfg.accountTtl)
  }

  lemma {:induction false} MembersCount(xs: seq<string>)
    ensures |Members(xs)| <= |xs|
    ensures (forall i, j | 0 <= i < j < |xs| :: xs[i] != xs[j]) ==> |Members(xs)| == |xs|
    decreases |xs|
  {
    if xs != [] {
      var init, last := xs[..|xs| - 1], xs[|xs| - 1];
      MembersCount(init);
      MembersAppend(init, last);
      assert xs == init + [last];
    }
  }

  lemma MembersAppend(xs: seq<string>, x: string)
    ensures Members(xs + [x]) == Members(xs) + {x}
  {
    forall v ensures v in Members(xs + [x]) <==> v in Members(xs) + {x} {
      assert v in xs + [x] <==> v in xs || v == x;
    }
  }

  lemma SubsetSize(a: set<string>, b: set<string>)
    requires a <= b
    ensures |a| <= |b| && (|a| == |b| ==> a == b)
    decreases b
  {
    if b - a == {} {
      assert a == b;
    } else {
      var x := Member(b - a);
      SubsetSize(a, b - {x});
    }
  }

  /** A new account leaves room: fewer accounts were used than there are. */
  lemma NewAccountFits(used: seq<string>, values: set<string>, v: string)
    requires Members(used) <= values && v in values && v !in used
    requires EachOnceThenLast(used, |values|)
    ensures |used| < |values|
  {
    var d := Min(|used|, |values|);
    var prefix := used[..d];
    MembersCount(prefix);
    assert Members(prefix) <= values - {v} by {
      forall x | x in prefix ensures x in values && x != v {
        assert x in used && x in Members(used);
      }
    }
    SubsetSize(Members(prefix), values - {v});
  }

  /** With no account left, as many have been used as there are. */
  lemma NoneLeft(used: seq<string>, values: set<string>)
    requires Members(used) == values
    ensures |values| <= |used|
  {
    MembersCount(used);
  }

  lemma AppendUsed(used: seq<string>, values: set<string>, v: string)
    requires Members(used) <= values && v in values && EachOnceThenLast(used, |values|)
    requires v !in used || (used != [] && v == used[|used| - 1] && |values| <= |used|)
    ensures Members(used + [v]) <= values && EachOnceThenLast(used + [v], |values|)
  {
    MembersAppend(used, v);
    if v !in used {
      NewAccountFits(used, values, v);
    }
  }

  /** Marking the current account blacklists every account used so far. */
  lemma MarkingCoversUsed(r: Run, from: Time, s: Loop, now: Time)
    requires RotatesOnFailure(r.cfg) && Rotated(r, from, s) && !s.stopped && s.used != [] && from <= now
    ensures var marked := Marked(s.account.bad, r.cfg.accountTtl, s.account.item, now);
            && marked.until.Keys == Members(s.used)
            && forall v | v in marked.until :: marked.until[v] >= from + r.cfg.accountTtl
  {
    var current := s.used[|s.used| - 1];
    assert s.used == s.used[..|s.used| - 1] + [current];
    MembersAppend(s.used[..|s.used| - 1], current);
  }

  /** The account drawn after marking the current one. */
  lemma DrawRotates(r: Run, from: Time, s: Loop, a: Attempt)
    requires RotatesOnFailure(r.cfg) && Rotated(r, from, s) && !s.stopped && s.used != []
    requires from <= a.accountMarkedAt && a.accountPickedAt < from + r.cfg.accountTtl
    ensures var c := RotateAccount(r.cfg, r.accounts, s.account, a);
            && c.item.Some? && Follows(r, s, c.item.value)
            && c.bad.until.Keys == Members(s.used)
            && forall v | v in c.bad.until :: c.bad.until[v] >= from + r.cfg.accountTtl
  {
    var marked := Marked(s.account.bad, r.cfg.accountTtl, s.account.item, a.accountMarkedAt);
    MarkingCoversUsed(r, from, s, a.accountMarkedAt);
    assert Cleaned(marked, a.accountPickedAt).until == marked.until;
    PickedIsAvailable(r.accounts, marked, a.accountPickedAt, a.accountChoice);
    var picked := Picked(r.accounts, marked, a.accountPickedAt, a.accountChoice);
    assert s.used[|s.used| - 1] in Members(s.used);
    if picked.None? {
      assert Members(r.accounts) <= Members(s.used);
      NoneLeft(s.used, Members(r.accounts));
    } else {
      assert picked.value !in marked.until;
      assert picked.value !in Members(s.used);
    }
  }

  /** A new account of the pool, or the current one when every account was used. */
  predicate Follows(r: Run, s: Loop, v: string) {
    && v in Members(r.accounts)
    && (v !in s.used || (s.used != [] && v == s.used[|s.used| - 1] && |Members(r.accounts)| <= |s.used|))
  }

  lemma FirstDraw(r: Run, from: Time, s: Loop, a: Attempt)
    requires RotatesOnFailure(r.cfg) && Rotated(r, from, s) && !s.stopped && s.used == []
    ensures var c := WithAccount(r.cfg, r.accounts, s.account, a, false);
            && (c.item.Some? ==> Follows(r, s, c.item.value))
            && c.bad.until == map[]
  {
    PickedIsAvailable(r.accounts, s.account.bad, a.accountPickedAt, a.accountChoice);
  }

  lemma TryKeepsRotated(r: Run, from: Time, s: Loop, t: Loop, outcome: Outcome)
    requires Rotated(r, from, s) && !s.stopped && t.used == s.used && !t.stopped
    requires t.account.item.Some? ==> Follows(r, s, t.account.item.value)
    requires t.account.bad.until.Keys == Members(s.used)
    requires forall v | v in t.account.bad.until :: t.account.bad.until[v] >= from + r.cfg.accountTtl
    ensures Rotated(r, from, Tried(r.cfg, t, outcome))
  {
    if t.account.item.Some? {
      AppendUsed(s.used, Members(r.accounts), t.account.item.value);
      assert (s.used + [t.account.item.value])[..|s.used|] == s.used;
    }
  }

  lemma {:induction false} RunRotates(r: Run, from: Time, n: nat)
    requires RotatesOnFailure(r.cfg) && WithinTtl(r, from) && n <= |r.attempts|
    ensures Rotated(r, from, After(r.cfg, r.accounts, r.proxies, r.attempts, n))
  {
    if n > 0 {
      RunRotates(r, from, n - 1);
      if n > 1 {
        LoopShape(r, n - 1);
      }
      var s, a := After(r.cfg, r.accounts, r.proxies, r.attempts, n - 1), r.attempts[n - 1];
      if !s.stopped {
        ChoiceRotates(r, from, s, n == 1, a);
      }
    }
  }

  lemma ChoiceRotates(r: Run, from: Time, s: Loop, first: bool, a: Attempt)
    requires RotatesOnFailure(r.cfg) && Rotated(r, from, s) && !s.stopped && (first <==> s.used == [])
    requires from <= a.accountMarkedAt && a.accountPickedAt < from + r.cfg.accountTtl
    ensures Rotated(r, from, Tried(r.cfg, Chosen(r.cfg, r.accounts, r.proxies, s, first, a), a.outcome))
  {
    if first {
      FirstDraw(r, from, s, a);
    } else {
      DrawRotates(r, from, s, a);
    }
    TryKeepsRotated(r, from, s, Chosen(r.cfg, r.accounts, r.proxies, s, first, a), a.outcome);
  }

  /** Rotation on failure within one TTL: as long as there are unused accounts every attempt uses a new
      one, and when all have been used the attempts stay with the last. */
  lemma AccountsInTurn(r: Run, from: Time)
    requires RotatesOnFailure(r.cfg) && WithinTtl(r, from)
    ensures EachOnceThenLast(EndOf(r).used, |Members(r.accounts)|)
    ensures Members(EndOf(r).used) <= Members(r.accounts)
  {
    RunRotates(r, from, |r.attempts|);
  }

  /** Every account used is the one the random number points at in the whole pool. */
  predicate DrawnFreely(r: Run, used: seq<string>) {
    && |used| <= |r.attempts|
    && forall i | 0 <= i < |used| ::
         r.accounts != [] && used[i] == r.accounts[r.attempts[i].accountChoice % |r.accounts|]
  }

  predicate DrawsFreely(cfg: Settings) {
    cfg.forced.None? && cfg.accountEnabled && cfg.accountMode == OnFailure && cfg.accountTtl <= 0
  }

  /** The account chosen when nothing is blacklisted and nothing gets blacklisted. */
  lemma FreeDraw(r: Run, c: Choice, first: bool, a: Attempt)
    requires DrawsFreely(r.cfg) && c.bad.until == map[] && (first ==> c.item.None?)
    ensures var d := NextAccount(r.cfg, r.accounts, c, first, a);
            && d.bad.until == map[]
            && d.item == if r.accounts == [] then c.item else Some(r.accounts[a.accountChoice % |r.accounts|])
  {
    EverythingAvailable(r.accounts, |r.accounts|);
    assert r.accounts[..|r.accounts|] == r.accounts;
    assert Cleaned(c.bad, a.accountPickedAt) == c.bad == Blacklist(map[]);
  }

  /** Without a TTL nothing is kept out: every attempt draws from the whole pool, so the failed account
      may come again at once. */
  lemma {:induction false} NoTtlDrawsFreely(r: Run, n: nat)
    requires DrawsFreely(r.cfg) && n <= |r.attempts|
    ensures var s := After(r.cfg, r.accounts, r.proxies, r.attempts, n);
            && s.account.bad.until == map[] && |s.used| <= n
            && (!s.stopped ==> |s.used| == n)
            && (n == 0 || r.accounts == [] ==> s.account.item.None?)
            && DrawnFreely(r, s.used)
  {
    if n > 0 {
      NoTtlDrawsFreely(r, n - 1);
      var s, a := After(r.cfg, r.accounts, r.proxies, r.attempts, n - 1), r.attempts[n - 1];
      if !s.stopped {
        FreeDraw(r, s.account, n == 1, a);
        var t := Chosen(r.cfg, r.accounts, r.proxies, s, n == 1, a);
        FreeTry(r, s, t, n - 1);
        assert After(r.cfg, r.accounts, r.proxies, r.attempts, n) == Tried(r.cfg, t, a.outcome);
      } else {
        assert After(r.cfg, r.accounts, r.proxies, r.attempts, n) == s;
      }
    }
  }

  lemma FreeTry(r: Run, s: Loop, t: Loop, k: nat)
    requires k < |r.attempts| && |s.used| == k && t.used == s.used && !t.stopped && t.account.bad.until == map[]
    requires t.account.item.Some? ==>
               r.accounts != [] && t.account.item.value == r.accounts[r.attempts[k].accountChoice % |r.accounts|]
    requires DrawnFreely(r, s.used)
    ensures var u := Tried(r.cfg, t, r.attempts[k].outcome);
            && u.account.bad.until == map[] && u.account == t.account && |u.used| <= k + 1
            && (!u.stopped ==> |u.used| == k + 1)
            && DrawnFreely(r, u.used)
  {
  }

  lemma {:induction false} EverythingAvailable(values: seq<string>, n: nat)
    requires n <= |values|
    ensures AvailableUpTo(values, Blacklist(map[]), n) == values[..n]
  {
    if n > 0 {
      EverythingAvailable(values, n - 1);
    }
  }

  // ----- runs, one after the other --------------------------------------------------------------

  function AfterRun(guard: FailureGuard.Config, e: FailureGuard.Entry, r: Run): FailureGuard.Entry {
    FailureGuard.Run(guard, e, RunEvents(e, r))
  }

  function AllEvents(guard: FailureGuard.Config, e: FailureGuard.Entry, runs: seq<Run>): seq<FailureGuard.Event>
    decreases |runs|
  {
    if runs == [] then [] else RunEvents(e, runs[0]) + AllEvents(guard, AfterRun(guard, e, runs[0]), runs[1..])
  }

  lemma {:induction false} AdmittedIsWeaker(guard: FailureGuard.Config, e: FailureGuard.Entry, events: seq<FailureGuard.Event>)
    requires FailureGuard.Disciplined(guard, e, false, events)
    ensures FailureGuard.Disciplined(guard, e, true, events)
  {
  }

  lemma StartInFront(guard: FailureGuard.Config, e: FailureGuard.Entry, start: FailureGuard.Event, rest: seq<FailureGuard.Event>)
    requires start.Start? && FailureGuard.Disciplined(guard, FailureGuard.Step(guard, e, start), false, rest)
    ensures FailureGuard.Disciplined(guard, e, false, [start] + rest)
  {
    AdmittedIsWeaker(guard, FailureGuard.Step(guard, e, start), rest);
    assert ([start] + rest)[1..] == rest;
  }

  lemma EndInFront(guard: FailureGuard.Config, e: FailureGuard.Entry, end: FailureGuard.Event, rest: seq<FailureGuard.Event>)
    requires !end.Start? && FailureGuard.Disciplined(guard, FailureGuard.Step(guard, e, end), false, rest)
    ensures FailureGuard.Disciplined(guard, e, true, [end] + rest)
  {
    assert ([end] + rest)[1..] == rest;
  }

  lemma PairInFront(guard: FailureGuard.Config, e: FailureGuard.Entry, start: FailureGuard.Event, end: FailureGuard.Event,
                    rest: seq<FailureGuard.Event>)
    requires start.Start? && FailureGuard.Admits(e, start) && !end.Start?
    requires FailureGuard.Disciplined(guard, FailureGuard.Step(guard, FailureGuard.Step(guard, e, start), end), false, rest)
    ensures FailureGuard.Disciplined(guard, e, false, [start] + [end] + rest)
  {
    EndInFront(guard, FailureGuard.Step(guard, e, start), end, rest);
    assert [start] + [end] + rest == [start] + ([end] + rest);
    assert ([start] + ([end] + rest))[1..] == [end] + rest;
  }

  /** The events of one run: the start alone, or the start of an admitted run and its end. */
  lemma EventsOfRun(e: FailureGuard.Entry, r: Run)
    ensures var events := RunEvents(e, r);
            || events == [StartOf(r)]
            || (FailureGuard.Admits(e, StartOf(r)) && |events| == 2
                && events == [StartOf(r)] + [events[1]] && !events[1].Start?)
  {
    EndReports(r);
    assert [StartOf(r)] + [] == [StartOf(r)];
  }

  /** The events of one run in front of disciplined ones are disciplined. */
  lemma RunInFront(guard: FailureGuard.Config, e: FailureGuard.Entry, r: Run, rest: seq<FailureGuard.Event>)
    requires FailureGuard.Disciplined(guard, AfterRun(guard, e, r), false, rest)
    ensures FailureGuard.Disciplined(guard, e, false, RunEvents(e, r) + rest)
  {
    var events := RunEvents(e, r);
    EventsOfRun(e, r);
    if events == [StartOf(r)] {
      RunOfOne(guard, e, StartOf(r));
      StartInFront(guard, e, StartOf(r), rest);
    } else {
      RunOfTwo(guard, e, StartOf(r), events[1]);
      PairInFront(guard, e, StartOf(r), events[1], rest);
    }
  }

  /** Runs of a task, one after the other, record an end only for a run that was admitted. */
  lemma {:induction false} RunsAreDisciplined(guard: FailureGuard.Config, e: FailureGuard.Entry, runs: seq<Run>)
    ensures FailureGuard.Disciplined(guard, e, false, AllEvents(guard, e, runs))
    decreases |runs|
  {
    if runs != [] {
      RunsAreDisciplined(guard, AfterRun(guard, e, runs[0]), runs[1..]);
      RunInFront(guard, e, runs[0], AllEvents(guard, AfterRun(guard, e, runs[0]), runs[1..]));
    }
  }

  /** However many attempts fail in each run: an interval no longer than the pause, without a reset, holds
      at most `threshold` failed runs. */
  lemma FailedRunsPerPause(guard: FailureGuard.Config, e: FailureGuard.Entry, runs: seq<Run>,
                           clock: Time, day: FailureGuard.Day, start: Time, end: Time)
    requires FailureGuard.Sane(guard) && FailureGuard.Timely(AllEvents(guard, e, runs), clock, day)
    requires FailureGuard.NoResetIn(guard, e, AllEvents(guard, e, runs), start, end) && end - start <= guard.pause
    ensures FailureGuard.FailuresBetween(AllEvents(guard, e, runs), start, end) <= guard.threshold
  {
    RunsAreDisciplined(guard, e, runs);
    FailureGuard.FailuresPerPause(guard, e, false, AllEvents(guard, e, runs), clock, day, start, end);
  }

  function FailedRuns(guard: FailureGuard.Config, e: FailureGuard.Entry, runs: seq<Run>): nat
    decreases |runs|
  {
    if runs == [] then 0
    else
      var failed := FailureGuard.Admits(e, StartOf(runs[0])) && EndOf(runs[0]).error != "";
      (if failed then 1 else 0) + FailedRuns(guard, AfterRun(guard, e, runs[0]), runs[1..])
  }

  lemma {:induction false} FailuresAppend(a: seq<FailureGuard.Event>, b: seq<FailureGuard.Event>)
    ensures FailureGuard.FailuresIn(a + b) == FailureGuard.FailuresIn(a) + FailureGuard.FailuresIn(b)
    decreases |b|
  {
    if b == [] {
      assert a + b == a;
    } else {
      var init, last := b[..|b| - 1], b[|b| - 1];
      assert (a + b)[..|a + b| - 1] == a + init;
      FailuresAppend(a, init);
    }
  }

  /** The guard counts runs, not attempts: it sees one failure for every admitted run that failed. */
  lemma {:induction false} GuardCountsRuns(guard: FailureGuard.Config, e: FailureGuard.Entry, runs: seq<Run>)
    ensures FailureGuard.FailuresIn(AllEvents(guard, e, runs)) == FailedRuns(guard, e, runs) <= |runs|
    decreases |runs|
  {
    if runs != [] {
      var next := AfterRun(guard, e, runs[0]);
      GuardCountsRuns(guard, next, runs[1..]);
      FailuresAppend(RunEvents(e, runs[0]), AllEvents(guard, next, runs[1..]));
      FailuresOfRun(e, runs[0]);
    }
  }

  lemma FailuresOfRun(e: FailureGuard.Entry, r: Run)
    ensures FailureGuard.FailuresIn(RunEvents(e, r)) ==
              if FailureGuard.Admits(e, StartOf(r)) && EndOf(r).error != "" then 1 else 0
  {
    EndReports(r);
    var report := RunEvents(e, r)[1..];
    FailuresAppend([StartOf(r)], report);
    assert RunEvents(e, r) == [StartOf(r)] + report;
    assert [StartOf(r)][..0] == [];
    if report != [] {
      assert report == [report[0]] && [report[0]][..0] == [];
    }
  }

  // ----- misconfiguration ------------------------------------------------------------------------

  /** A short text without white space that begins with one of the markers. */
  predicate NamesMarker(reason: string) {
    && reason != "" && |reason| <= LIMIT && Text.Free(Text.IsSpace, reason)
    && (ACCOUNT_MARKER <= reason || PROXY_MARKER <= reason)
  }

  lemma MissingNamesMarker()
    ensures NamesMarker(MISSING_ACCOUNT) && NamesMarker(MISSING_PROXY)
  {
    NoSpaces(MISSING_ACCOUNT);
    NoSpaces(MISSING_PROXY);
  }

  /** White space has character codes up to 32. */
  lemma NoSpaces(s: string)
    requires forall i | 0 <= i < |s| :: s[i] > ' '
    ensures Text.Free(Text.IsSpace, s)
  {
  }

  lemma PrefixOccurs(marker: string, reason: string)
    requires marker <= reason
    ensures Text.Contains(reason, marker)
  {
    assert Text.OccursAt(marker, reason, 0);
  }

  lemma MarkerIsImmediate(reason: string)
    requires NamesMarker(reason)
    ensures PauseImmediately(reason)
  {
    assert reason[0] in reason;
    Text.FieldsOfJoin([reason]);
    assert Text.Join([reason]) == reason;
    if ACCOUNT_MARKER <= reason {
      PrefixOccurs(ACCOUNT_MARKER, reason);
    } else {
      PrefixOccurs(PROXY_MARKER, reason);
    }
  }

  lemma LackingIsImmediate(s: Loop)
    requires Shape(s) && Lacking(s)
    ensures !Succeeded(s) && s.error != "" && PauseImmediately(s.error)
  {
    MissingNamesMarker();
    MarkerIsImmediate(s.error);
  }

  lemma ImmediatePauses(guard: FailureGuard.Config, e: FailureGuard.Entry, r: Run, s: Loop)
    requires PauseImmediately(s.error)
    ensures FailureGuard.Step(guard, e, FailureOf(s, r)).pausedUntil == Some(r.endAt + guard.pause)
  {
  }

  /** An admitted run that has no account left to try with, or no proxy when it needs one, pauses the
      task at once, whatever the threshold and the count. */
  lemma LackingPausesAtOnce(guard: FailureGuard.Config, e: FailureGuard.Entry, r: Run)
    requires FailureGuard.Admits(e, StartOf(r)) && r.attempts != [] && Lacking(EndOf(r))
    ensures AfterRun(guard, e, r).pausedUntil == Some(r.endAt + guard.pause)
  {
    var s := EndOf(r);
    LoopShape(r, |r.attempts|);
    LackingIsImmediate(s);
    EndReports(r);
    RunOfTwo(guard, e, StartOf(r), FailureOf(s, r));
    ImmediatePauses(guard, FailureGuard.Step(guard, e, StartOf(r)), r, s);
  }
}
