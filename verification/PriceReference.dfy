/** What the price aggregation computes, stated on the snapshots and prices themselves: which snapshots each part
    is about, and what the numbers are. */
module PriceReference {
  import opened Basics
  import opened PriceHistory

  // ----- which snapshots -----------------------------------------------------------------------

  /** `chosen` is the part of `all` at the ascending positions `at`. */
  predicate PartAt(all: seq<Snapshot>, chosen: seq<Snapshot>, at: seq<int>) {
    && Increasing(at) && |at| == |chosen|
    && forall k | 0 <= k < |at| :: 0 <= at[k] < |all| && chosen[k] == all[at[k]]
  }

  lemma PartWithout(all: seq<Snapshot>, last: Snapshot, chosen: seq<Snapshot>, at: seq<int>)
    requires PartAt(all, chosen, at)
    ensures PartAt(all + [last], chosen, at) && |all| !in at
  {
  }

  lemma PartWith(all: seq<Snapshot>, last: Snapshot, chosen: seq<Snapshot>, at: seq<int>)
    requires PartAt(all, chosen, at)
    ensures PartAt(all + [last], chosen + [last], at + [|all|])
  {
    var more := at + [|all|];
    forall i, j | 0 <= i < j < |more| ensures more[i] < more[j] {
    }
  }

  /** The window holds, in order, exactly the snapshots without a readable time and those less than `window` + 1
      days of 24 hours older than the latest one. */
  lemma {:induction false} WindowIs(snapshots: seq<Snapshot>, latest: Option<int>, window: nat) returns (at: seq<int>)
    ensures PartAt(snapshots, Window(snapshots, latest, window), at)
    ensures forall i | 0 <= i < |snapshots| ::
              i in at <==> latest.None? || snapshots[i].time.None?
                           || latest.value - snapshots[i].time.value < (window + 1) * 86_400
    decreases |snapshots|
  {
    if snapshots == [] {
      at := [];
    } else {
      var n := |snapshots| - 1;
      var init, last := snapshots[..n], snapshots[n];
      assert snapshots == init + [last];
      at := WindowIs(init, latest, window);
      PartWithout(init, last, Window(init, latest, window), at);
      PartWith(init, last, Window(init, latest, window), at);
      assert forall i | 0 <= i < n :: snapshots[i] == init[i];
      if latest.Some? && last.time.Some? {
        WithinDays(latest.value, last.time.value, window);
      }
      if Recent(latest, last, window) {
        at := at + [n];
      }
    }
  }

  lemma WithinDays(latest: int, current: int, window: nat)
    ensures DaysBetween(latest, current) <= window <==> latest - current < (window + 1) * 86_400
  {
  }

  /** The snapshots of the given items, in order. */
  lemma {:induction false} VisibleIs(snapshots: seq<Snapshot>, items: set<Item>) returns (at: seq<int>)
    ensures PartAt(snapshots, Visible(snapshots, items), at)
    ensures forall i | 0 <= i < |snapshots| :: i in at <==> snapshots[i].item in items
    decreases |snapshots|
  {
    if snapshots == [] {
      at := [];
    } else {
      var n := |snapshots| - 1;
      var init, last := snapshots[..n], snapshots[n];
      assert snapshots == init + [last];
      at := VisibleIs(init, items);
      PartWithout(init, last, Visible(init, items), at);
      PartWith(init, last, Visible(init, items), at);
      assert forall i | 0 <= i < n :: snapshots[i] == init[i];
      if last.item in items {
        at := at + [n];
      }
    }
  }

  /** The snapshots of the given run, in order. */
  lemma {:induction false} OfRunIs(snapshots: seq<Snapshot>, run: string) returns (at: seq<int>)
    ensures PartAt(snapshots, OfRun(snapshots, run), at)
    ensures forall i | 0 <= i < |snapshots| :: i in at <==> snapshots[i].run == run
    decreases |snapshots|
  {
    if snapshots == [] {
      at := [];
    } else {
      var n := |snapshots| - 1;
      var init, last := snapshots[..n], snapshots[n];
      assert snapshots == init + [last];
      at := OfRunIs(init, run);
      PartWithout(init, last, OfRun(init, run), at);
      PartWith(init, last, OfRun(init, run), at);
      assert forall i | 0 <= i < n :: snapshots[i] == init[i];
      if last.run == run {
        at := at + [n];
      }
    }
  }

  /** The snapshots of the given day, in order. */
  lemma {:induction false} OfDayIs(snapshots: seq<Snapshot>, day: Day) returns (at: seq<int>)
    ensures PartAt(snapshots, OfDay(snapshots, day), at)
    ensures forall i | 0 <= i < |snapshots| :: i in at <==> snapshots[i].day == day
    decreases |snapshots|
  {
    if snapshots == [] {
      at := [];
    } else {
      var n := |snapshots| - 1;
      var init, last := snapshots[..n], snapshots[n];
      assert snapshots == init + [last];
      at := OfDayIs(init, day);
      PartWithout(init, last, OfDay(init, day), at);
      PartWith(init, last, OfDay(init, day), at);
      assert forall i | 0 <= i < n :: snapshots[i] == init[i];
      if last.day == day {
        at := at + [n];
      }
    }
  }

  /** The last snapshot is in its own window and in its own run; so as soon as anything is visible there is a
      market sample and a history sample. */
  lemma LastIsSampled(snapshots: seq<Snapshot>, window: nat)
    requires snapshots != []
    ensures var last := snapshots[|snapshots| - 1];
            last in Window(snapshots, last.time, window) && last in OfRun(snapshots, last.run)
            && ItemsOf(Window(snapshots, last.time, window)) != {}
  {
    var last := snapshots[|snapshots| - 1];
    var at := WindowIs(snapshots, last.time, window);
    assert |snapshots| - 1 in at;
    var run := OfRunIs(snapshots, last.run);
    assert |snapshots| - 1 in run;
    assert last.item in ItemsOf(Window(snapshots, last.time, window));
  }

  // ----- what the numbers are ------------------------------------------------------------------

  /** Rounding goes to the nearest whole number; half way it goes away from zero, or to the even one. */
  lemma RoundingIff(mode: Rounding, x: real, n: int)
    ensures Nearest(mode, x) == n <==>
              || n as real - 0.5 < x < n as real + 0.5
              || (x == n as real - 0.5 && (if mode.HalfAway? then n > 0 else n % 2 == 0))
              || (x == n as real + 0.5 && (if mode.HalfAway? then n < 0 else n % 2 == 0))
  {
  }

  /** Prices are rounded to whole cents: to the nearest, and half way away from zero or to the even one. */
  lemma CentsIff(mode: Rounding, x: real, cents: int)
    ensures Round2(mode, x) == cents as real / 100.0 <==>
              || -0.5 < 100.0 * x - cents as real < 0.5
              || (100.0 * x - cents as real == -0.5 && (if mode.HalfAway? then cents > 0 else cents % 2 == 0))
              || (100.0 * x - cents as real == 0.5 && (if mode.HalfAway? then cents < 0 else cents % 2 == 0))
  {
    RoundingIff(mode, 100.0 * x, cents);
  }

  /** The sum counted from the front. */
  function Total(xs: seq<real>): real
    decreases |xs|
  {
    if xs == [] then 0.0 else xs[0] + Total(xs[1..])
  }

  lemma {:induction false} TotalAppend(xs: seq<real>, x: real)
    ensures Total(xs + [x]) == Total(xs) + x
    decreases |xs|
  {
    if xs == [] {
      assert xs + [x] == [x] && [x][1..] == [];
    } else {
      assert (xs + [x])[1..] == xs[1..] + [x];
      TotalAppend(xs[1..], x);
    }
  }

  lemma {:induction false} SumIsTotal(xs: seq<real>)
    ensures Sum(xs) == Total(xs)
    decreases |xs|
  {
    if xs != [] {
      var init := xs[..|xs| - 1];
      SumIsTotal(init);
      TotalAppend(init, xs[|xs| - 1]);
      assert xs == init + [xs[|xs| - 1]];
    }
  }

  /** The summary of prices that are `sorted` when put in ascending order, however that is done: the mean, the mean
      of the one or two in the middle, the first and the last, each rounded to cents. */
  lemma {:induction false} SummaryIs(mode: Rounding, prices: seq<real>, sorted: seq<real>)
    requires prices != [] && Sorted(sorted) && multiset(sorted) == multiset(prices)
    ensures |sorted| == |prices|
    ensures var n := |prices|;
            SummaryOf(mode, prices) ==
              Summary(n, Round2(mode, Total(prices) / n as real), Round2(mode, (sorted[(n - 1) / 2] + sorted[n / 2]) / 2.0),
                      Round2(mode, sorted[0]), Round2(mode, sorted[n - 1]))
  {
    AscendingCopy(prices, sorted);
    SumIsTotal(prices);
    MiddleIsMedian(sorted);
  }

  lemma {:induction false} AscendingCopy(prices: seq<real>, sorted: seq<real>)
    requires Sorted(sorted) && multiset(sorted) == multiset(prices)
    ensures sorted == SortedCopy(prices) && |sorted| == |prices|
  {
    assert |multiset(sorted)| == |sorted| && |multiset(prices)| == |prices|;
    SortedCopySorts(prices);
    SortedIsUnique(sorted, SortedCopy(prices));
  }

  lemma {:induction false} MiddleIsMedian(sorted: seq<real>)
    requires sorted != []
    ensures Median(sorted) == (sorted[(|sorted| - 1) / 2] + sorted[|sorted| / 2]) / 2.0
  {
    var n := |sorted|;
    if n % 2 == 0 {
      assert (n - 1) / 2 == n / 2 - 1;
    } else {
      assert (n - 1) / 2 == n / 2;
    }
  }

  lemma NoPrices(mode: Rounding)
    ensures SummaryOf(mode, []) == NoSample
  {
  }
}
