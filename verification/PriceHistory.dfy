/** Price-history aggregation: the last snapshot per item, price summaries and the daily trend.

    Prices are exact reals. Both rounding rules to cents are modelled: half away from zero (the Go
    side) and half to even (the Python side). Days are integers; a map may be walked in any order. */
module PriceHistory {
  import opened Basics
  import Text

  type Item = string
  type Day = int

  const TICKS_PER_DAY := 86_400

  /** `time` is absent when the stored timestamp cannot be parsed. */
  datatype Snapshot = Snapshot(time: Option<int>, day: Day, run: string, item: Item, price: real)

  // ----- rounding --------------------------------------------------------------------------

  datatype Rounding = HalfAway | HalfEven

  function Nearest(mode: Rounding, x: real): int {
    match mode
    case HalfAway => if x >= 0.0 then (x + 0.5).Floor else -((0.5 - x).Floor)
    case HalfEven =>
      var low := x.Floor;
      var rest := x - low as real;
      if rest < 0.5 then low
      else if rest > 0.5 then low + 1
      else if low % 2 == 0 then low
      else low + 1
  }

  function Round2(mode: Rounding, x: real): real {
    Nearest(mode, x * 100.0) as real / 100.0
  }

  lemma NearestMonotone(mode: Rounding, x: real, y: real)
    requires x <= y
    ensures Nearest(mode, x) <= Nearest(mode, y)
  {
    if mode.HalfEven? && x.Floor < y.Floor {
      assert x.Floor + 1 <= y.Floor;
    }
  }

  lemma Round2Monotone(mode: Rounding, x: real, y: real)
    requires x <= y
    ensures Round2(mode, x) <= Round2(mode, y)
  {
    NearestMonotone(mode, x * 100.0, y * 100.0);
  }

  // ----- the last snapshot per item ----------------------------------------------------------

  /** Later snapshots overwrite earlier ones of the same item. */
  function LatestOf(snapshots: seq<Snapshot>): map<Item, Snapshot>
    decreases |snapshots|
  {
    if snapshots == [] then map[]
    else
      var last := snapshots[|snapshots| - 1];
      LatestOf(snapshots[..|snapshots| - 1])[last.item := last]
  }

  function ItemsOf(snapshots: seq<Snapshot>): set<Item> {
    set s | s in snapshots :: s.item
  }

  predicate LastOfItem(snapshots: seq<Snapshot>, i: nat)
    requires i < |snapshots|
  {
    forall j | i < j < |snapshots| :: snapshots[j].item != snapshots[i].item
  }

  /** Every item has an entry, and it is the last snapshot of that item. */
  lemma {:induction false} LatestIsLast(snapshots: seq<Snapshot>)
    ensures LatestOf(snapshots).Keys == ItemsOf(snapshots)
    ensures forall i: nat | i < |snapshots| && LastOfItem(snapshots, i) :: LatestOf(snapshots)[snapshots[i].item] == snapshots[i]
    ensures forall item | item in LatestOf(snapshots) :: LatestOf(snapshots)[item].item == item
    decreases |snapshots|
  {
    if snapshots != [] {
      var init, last := snapshots[..|snapshots| - 1], snapshots[|snapshots| - 1];
      LatestIsLast(init);
      assert snapshots == init + [last];
      forall i: nat | i < |snapshots| && LastOfItem(snapshots, i)
        ensures LatestOf(snapshots)[snapshots[i].item] == snapshots[i]
      {
        if i < |init| {
          assert LastOfItem(init, i) && init[i] == snapshots[i];
          assert snapshots[|snapshots| - 1].item != snapshots[i].item;
        }
      }
    }
  }

  /** The Python side strips ids and skips empty ones. */
  function LatestOfPython(snapshots: seq<Snapshot>): map<Item, Snapshot>
    decreases |snapshots|
  {
    if snapshots == [] then map[]
    else
      var init, last := LatestOfPython(snapshots[..|snapshots| - 1]), snapshots[|snapshots| - 1];
      if Text.Trim(last.item) == "" then init else init[Text.Trim(last.item) := last]
  }

  /** `_dedupe_latest`, up to the order of the result. */
  method DedupeLatestPython(snapshots: seq<Snapshot>) returns (latest: map<Item, Snapshot>)
    ensures latest == LatestOfPython(snapshots)
  {
    latest := map[];
    for i := 0 to |snapshots|
      invariant latest == LatestOfPython(snapshots[..i])
    {
      assert snapshots[..i + 1][..i] == snapshots[..i];
      var key := Text.Trim(snapshots[i].item);
      if key != "" {
        latest := latest[key := snapshots[i]];
      }
    }
    assert snapshots[..|snapshots|] == snapshots;
  }

  predicate CleanId(item: Item) {
    item != "" && Text.Trim(item) == item
  }

  predicate LastOfKey(snapshots: seq<Snapshot>, i: nat)
    requires i < |snapshots|
  {
    forall j | i < j < |snapshots| :: Text.Trim(snapshots[j].item) != Text.Trim(snapshots[i].item)
  }

  /** On the Python side an entry is the last snapshot whose id is the same after stripping, and every id
      that is not blank has one. */
  lemma {:induction false} PythonLatestIsLast(snapshots: seq<Snapshot>)
    ensures forall i: nat | i < |snapshots| && LastOfKey(snapshots, i) && Text.Trim(snapshots[i].item) != "" ::
              Text.Trim(snapshots[i].item) in LatestOfPython(snapshots)
              && LatestOfPython(snapshots)[Text.Trim(snapshots[i].item)] == snapshots[i]
    ensures forall key | key in LatestOfPython(snapshots) ::
              key != "" && LatestOfPython(snapshots)[key] in snapshots && Text.Trim(LatestOfPython(snapshots)[key].item) == key
    decreases |snapshots|
  {
    if snapshots != [] {
      var init, last := snapshots[..|snapshots| - 1], snapshots[|snapshots| - 1];
      PythonLatestIsLast(init);
      assert snapshots == init + [last];
      forall i: nat | i < |snapshots| && LastOfKey(snapshots, i) && Text.Trim(snapshots[i].item) != ""
        ensures Text.Trim(snapshots[i].item) in LatestOfPython(snapshots)
        ensures LatestOfPython(snapshots)[Text.Trim(snapshots[i].item)] == snapshots[i]
      {
        if i < |init| {
          assert LastOfKey(init, i) && init[i] == snapshots[i];
        }
      }
    }
  }

  lemma {:induction false} CleanIdsAlike(snapshots: seq<Snapshot>)
    requires forall s | s in snapshots :: CleanId(s.item)
    ensures LatestOfPython(snapshots) == LatestOf(snapshots)
    decreases |snapshots|
  {
    if snapshots != [] {
      var init, last := snapshots[..|snapshots| - 1], snapshots[|snapshots| - 1];
      assert last in snapshots && forall s | s in init :: s in snapshots;
      CleanIdsAlike(init);
    }
  }

  /** Both sides build the same map exactly when no id is empty or has white space around it. */
  lemma DedupersAgreeIff(snapshots: seq<Snapshot>)
    ensures LatestOfPython(snapshots) == LatestOf(snapshots) <==> forall s | s in snapshots :: CleanId(s.item)
  {
    if s :| s in snapshots && !CleanId(s.item) {
      LatestIsLast(snapshots);
      PythonLatestIsLast(snapshots);
      assert s.item in LatestOf(snapshots);
      forall key | key in LatestOfPython(snapshots) ensures CleanId(key) {
        Text.TrimShape(LatestOfPython(snapshots)[key].item);
        Text.TrimmedStays(key);
      }
    } else {
      CleanIdsAlike(snapshots);
    }
  }

  /** A list of the map's values in some order, each once. */
  ghost predicate Enumerates(list: seq<Snapshot>, m: map<Item, Snapshot>) {
    && (forall s | s in list :: s.item in m && m[s.item] == s)
    && (forall item | item in m :: m[item] in list)
    && (forall i, j | 0 <= i < j < |list| :: list[i] != list[j])
  }

  /** `dedupeLatestSnapshots`: fill a map, then list its values in whatever order it gives them. */
  method DedupeLatest(snapshots: seq<Snapshot>) returns (deduped: seq<Snapshot>)
    ensures Enumerates(deduped, LatestOf(snapshots))
  {
    var latest: map<Item, Snapshot> := map[];
    for i := 0 to |snapshots|
      invariant latest == LatestOf(snapshots[..i])
    {
      assert snapshots[..i + 1][..i] == snapshots[..i];
      latest := latest[snapshots[i].item := snapshots[i]];
    }
    assert snapshots[..|snapshots|] == snapshots;
    LatestIsLast(snapshots);
    deduped := [];
    var todo := latest.Keys;
    while todo != {}
      invariant todo <= latest.Keys
      invariant forall s | s in deduped :: s.item in latest && s.item !in todo && latest[s.item] == s
      invariant forall item | item in latest && item !in todo :: latest[item] in deduped
      invariant forall i, j | 0 <= i < j < |deduped| :: deduped[i] != deduped[j]
      decreases todo
    {
      var item :| item in todo;
      deduped := deduped + [latest[item]];
      todo := todo - {item};
    }
  }

  // ----- order does not matter ---------------------------------------------------------------

  function Prices(list: seq<Snapshot>): seq<real> {
    seq(|list|, i requires 0 <= i < |list| => list[i].price)
  }

  lemma {:induction false} DistinctMultiset<T>(list: seq<T>)
    requires NoRepeats(list)
    ensures multiset(list) == multiset(set x | x in list)
    ensures |list| == |set x | x in list|
    decreases |list|
  {
    if list != [] {
      var init, last := list[..|list| - 1], list[|list| - 1];
      DistinctMultiset(init);
      assert list == init + [last] && last !in init;
      assert (set x | x in list) == (set x | x in init) + {last};
    }
  }

  function ValuesOf(m: map<Item, Snapshot>): set<Snapshot> {
    set item | item in m :: m[item]
  }

  function ItemList(list: seq<Snapshot>): seq<Item> {
    seq(|list|, i requires 0 <= i < |list| => list[i].item)
  }

  lemma EnumerationItems(list: seq<Snapshot>, m: map<Item, Snapshot>)
    requires Enumerates(list, m)
    ensures NoRepeats(ItemList(list))
    ensures forall item :: item in ItemList(list) <==> item in m && m[item].item == item
  {
    forall item ensures item in ItemList(list) <==> item in m && m[item].item == item {
      if item in m && m[item].item == item {
        var i :| 0 <= i < |list| && list[i] == m[item];
        assert ItemList(list)[i] == item;
      }
      if item in ItemList(list) {
        var i :| 0 <= i < |list| && ItemList(list)[i] == item;
        assert list[i] in list;
      }
    }
    forall i, j | 0 <= i < j < |list| ensures list[i].item != list[j].item {
      assert list[i] in list && list[j] in list;
    }
  }

  lemma EnumerationSize(list: seq<Snapshot>, m: map<Item, Snapshot>)
    requires Enumerates(list, m) && forall item | item in m :: m[item].item == item
    ensures |list| == |m| && multiset(list) == multiset(ValuesOf(m))
  {
    DistinctMultiset(list);
    assert (set x | x in list) == ValuesOf(m);
    EnumerationItems(list, m);
    DistinctMultiset(ItemList(list));
    assert (set item | item in ItemList(list)) == m.Keys;
  }

  function Removed<T>(xs: seq<T>, j: nat): seq<T>
    requires j < |xs|
  {
    xs[..j] + xs[j + 1..]
  }

  lemma RemovedMultiset<T>(xs: seq<T>, j: nat)
    requires j < |xs|
    ensures multiset(xs) == multiset(Removed(xs, j)) + multiset{xs[j]}
    ensures multiset(Removed(xs, j)) == multiset(xs) - multiset{xs[j]}
  {
    assert xs == xs[..j] + [xs[j]] + xs[j + 1..];
  }

  lemma PricesRemoved(list: seq<Snapshot>, j: nat)
    requires j < |list|
    ensures multiset(Prices(list)) == multiset(Prices(Removed(list, j))) + multiset{list[j].price}
  {
    RemovedMultiset(Prices(list), j);
    assert Prices(Removed(list, j)) == Removed(Prices(list), j);
  }

  lemma {:induction false} PricesPermute(a: seq<Snapshot>, b: seq<Snapshot>)
    requires multiset(a) == multiset(b)
    ensures multiset(Prices(a)) == multiset(Prices(b))
    decreases |a|
  {
    if a == [] {
      assert |multiset(b)| == 0;
      assert b == [];
    } else {
      assert a[0] in multiset(b);
      var j :| 0 <= j < |b| && b[j] == a[0];
      RemovedMultiset(a, 0);
      RemovedMultiset(b, j);
      PricesPermute(Removed(a, 0), Removed(b, j));
      PricesRemoved(a, 0);
      PricesRemoved(b, j);
    }
  }

  // ----- sorting and adding up ----------------------------------------------------------------

  predicate Sorted(xs: seq<real>) {
    forall i, j | 0 <= i < j < |xs| :: xs[i] <= xs[j]
  }

  function Inserted(xs: seq<real>, x: real): seq<real>
    decreases |xs|
  {
    if xs == [] || x <= xs[0] then [x] + xs else [xs[0]] + Inserted(xs[1..], x)
  }

  function SortedCopy(xs: seq<real>): seq<real>
    decreases |xs|
  {
    if xs == [] then [] else Inserted(SortedCopy(xs[1..]), xs[0])
  }

  lemma {:induction false} InsertedMultiset(xs: seq<real>, x: real)
    ensures multiset(Inserted(xs, x)) == multiset(xs) + multiset{x}
    decreases |xs|
  {
    if xs != [] && x > xs[0] {
      InsertedMultiset(xs[1..], x);
      assert xs == [xs[0]] + xs[1..];
    }
  }

  lemma SortedCons(x: real, xs: seq<real>)
    requires Sorted(xs) && forall y | y in xs :: x <= y
    ensures Sorted([x] + xs)
  {
    forall i, j | 0 <= i < j < |[x] + xs| ensures ([x] + xs)[i] <= ([x] + xs)[j] {
      assert ([x] + xs)[j] == xs[j - 1] && xs[j - 1] in xs;
    }
  }

  lemma {:induction false} InsertedSorts(xs: seq<real>, x: real)
    requires Sorted(xs)
    ensures Sorted(Inserted(xs, x)) && multiset(Inserted(xs, x)) == multiset(xs) + multiset{x}
    decreases |xs|
  {
    InsertedMultiset(xs, x);
    if xs == [] || x <= xs[0] {
      SortedCons(x, xs);
    } else {
      InsertedSorts(xs[1..], x);
      forall y | y in Inserted(xs[1..], x) ensures xs[0] <= y {
        assert y in multiset(xs[1..]) + multiset{x};
      }
      SortedCons(xs[0], Inserted(xs[1..], x));
    }
  }

  lemma {:induction false} SortedCopySorts(xs: seq<real>)
    ensures Sorted(SortedCopy(xs)) && multiset(SortedCopy(xs)) == multiset(xs) && |SortedCopy(xs)| == |xs|
    decreases |xs|
  {
    if xs != [] {
      SortedCopySorts(xs[1..]);
      InsertedSorts(SortedCopy(xs[1..]), xs[0]);
      assert xs == [xs[0]] + xs[1..];
      assert |multiset(SortedCopy(xs))| == |multiset(xs)|;
    }
  }

  lemma {:induction false} SortedIsUnique(a: seq<real>, b: seq<real>)
    requires Sorted(a) && Sorted(b) && multiset(a) == multiset(b)
    ensures a == b
    decreases |a|
  {
    if a == [] {
      assert |multiset(b)| == 0;
    } else {
      assert |multiset(a)| == |multiset(b)| && b != [];
      SameLeast(a, b);
      RemovedMultiset(a, 0);
      RemovedMultiset(b, 0);
      assert Removed(a, 0) == a[1..] && Removed(b, 0) == b[1..];
      SortedIsUnique(a[1..], b[1..]);
    }
  }

  lemma SameLeast(a: seq<real>, b: seq<real>)
    requires a != [] && b != [] && Sorted(a) && Sorted(b) && multiset(a) == multiset(b)
    ensures a[0] == b[0]
  {
    assert a[0] in multiset(b) && b[0] in multiset(a);
    var i :| 0 <= i < |b| && b[i] == a[0];
    var j :| 0 <= j < |a| && a[j] == b[0];
    assert a[0] <= a[j] && b[0] <= b[i];
  }

  function Sum(xs: seq<real>): real
    decreases |xs|
  {
    if xs == [] then 0.0 else Sum(xs[..|xs| - 1]) + xs[|xs| - 1]
  }

  lemma {:induction false} SumAppend(xs: seq<real>, x: real)
    ensures Sum(xs + [x]) == Sum(xs) + x
  {
    assert (xs + [x])[..|xs + [x]| - 1] == xs;
  }

  lemma {:induction false} SumRemoved(xs: seq<real>, j: nat)
    requires j < |xs|
    ensures Sum(xs) == Sum(Removed(xs, j)) + xs[j]
    decreases |xs|
  {
    var init, last := xs[..|xs| - 1], xs[|xs| - 1];
    if j == |xs| - 1 {
      assert Removed(xs, j) == init;
    } else {
      SumRemoved(init, j);
      assert Removed(xs, j) == Removed(init, j) + [last];
      SumAppend(Removed(init, j), last);
    }
  }

  lemma {:induction false} SumPermutes(a: seq<real>, b: seq<real>)
    requires multiset(a) == multiset(b)
    ensures Sum(a) == Sum(b)
    decreases |a|
  {
    if a == [] {
      assert |multiset(b)| == 0;
    } else {
      var i := |a| - 1;
      assert a[i] in multiset(b);
      var j :| 0 <= j < |b| && b[j] == a[i];
      RemovedMultiset(a, i);
      RemovedMultiset(b, j);
      SumRemoved(a, i);
      SumRemoved(b, j);
      SumPermutes(Removed(a, i), Removed(b, j));
    }
  }

  lemma {:induction false} SumBounds(xs: seq<real>, low: real, high: real)
    requires forall x | x in xs :: low <= x <= high
    ensures low * |xs| as real <= Sum(xs) <= high * |xs| as real
    decreases |xs|
  {
    if xs != [] {
      var init := xs[..|xs| - 1];
      assert forall x | x in init :: x in xs;
      SumBounds(init, low, high);
      assert xs[|xs| - 1] in xs;
      OneMore(low, |init|);
      OneMore(high, |init|);
    }
  }

  lemma OneMore(x: real, n: nat)
    ensures x * (n + 1) as real == x * n as real + x
  {
    assert (n + 1) as real == n as real + 1.0;
  }

  // ----- summaries ---------------------------------------------------------------------------

  datatype Summary = NoSample | Summary(count: nat, avg: real, median: real, min: real, max: real)

  function CountOf(summary: Summary): nat {
    if summary.NoSample? then 0 else summary.count
  }

  function Median(sorted: seq<real>): real
    requires sorted != []
  {
    var n := |sorted|;
    if n % 2 == 0 then (sorted[n / 2 - 1] + sorted[n / 2]) / 2.0 else sorted[n / 2]
  }

  function SummaryOf(mode: Rounding, prices: seq<real>): Summary {
    var sorted := SortedCopy(prices);
    if prices == [] || |sorted| != |prices| then NoSample
    else Summary(|prices|, Round2(mode, Sum(prices) / |prices| as real), Round2(mode, Median(sorted)),
                 Round2(mode, sorted[0]), Round2(mode, sorted[|sorted| - 1]))
  }

  method CollectPrices(snapshots: seq<Snapshot>) returns (prices: seq<real>)
    ensures prices == Prices(snapshots)
  {
    prices := [];
    for i := 0 to |snapshots|
      invariant prices == Prices(snapshots[..i])
    {
      prices := prices + [snapshots[i].price];
    }
    assert snapshots[..|snapshots|] == snapshots;
  }

  method AddUp(prices: seq<real>) returns (sum: real)
    ensures sum == Sum(prices)
  {
    sum := 0.0;
    for i := 0 to |prices|
      invariant sum == Sum(prices[..i])
    {
      SumAppend(prices[..i], prices[i]);
      assert prices[..i + 1] == prices[..i] + [prices[i]];
      sum := sum + prices[i];
    }
    assert prices[..|prices|] == prices;
  }

  /** `summarizePrices` */
  method SummarizePrices(mode: Rounding, snapshots: seq<Snapshot>) returns (summary: Summary)
    ensures summary == SummaryOf(mode, Prices(snapshots))
  {
    var prices := CollectPrices(snapshots);
    if prices == [] {
      return NoSample;
    }
    var sorted := SortedCopy(prices);
    SortedCopySorts(prices);
    var sum := AddUp(prices);
    var n := |prices|;
    var median := sorted[n / 2];
    if n % 2 == 0 {
      median := (sorted[n / 2 - 1] + sorted[n / 2]) / 2.0;
    }
    summary := Summary(n, Round2(mode, sum / n as real), Round2(mode, median), Round2(mode, sorted[0]),
                       Round2(mode, sorted[n - 1]));
  }

  lemma {:induction false} BoundedByEnds(sorted: seq<real>, x: real)
    requires Sorted(sorted) && x in sorted
    ensures sorted[0] <= x <= sorted[|sorted| - 1]
  {
    var i :| 0 <= i < |sorted| && sorted[i] == x;
  }

  lemma {:induction false} SameMembers(prices: seq<real>, sorted: seq<real>, x: real)
    requires multiset(prices) == multiset(sorted) && x in prices
    ensures x in sorted
  {
    assert x in multiset(prices);
  }

  /** The extremes of the sorted copy bound every price. */
  lemma {:induction false} ExtremesBound(prices: seq<real>)
    requires prices != []
    ensures var sorted := SortedCopy(prices);
            && |sorted| == |prices| && Sorted(sorted)
            && forall x | x in prices :: sorted[0] <= x <= sorted[|sorted| - 1]
  {
    SortedCopySorts(prices);
    var sorted := SortedCopy(prices);
    forall x | x in prices ensures sorted[0] <= x <= sorted[|sorted| - 1] {
      SameMembers(prices, sorted, x);
      BoundedByEnds(sorted, x);
    }
  }

  /** Under either rounding, the rounded minimum is at most the rounded median and average, and these
      are at most the rounded maximum. */
  lemma SummaryOrdered(mode: Rounding, prices: seq<real>)
    requires prices != []
    ensures var s := SummaryOf(mode, prices);
            && s.Summary? && s.count == |prices|
            && s.min <= s.median <= s.max && s.min <= s.avg <= s.max
  {
    ExtremesBound(prices);
    var sorted := SortedCopy(prices);
    MeanBetween(prices, sorted[0], sorted[|sorted| - 1]);
    MedianBetween(sorted);
    RoundedBetween(mode, sorted[0], Sum(prices) / |prices| as real, sorted[|sorted| - 1]);
    RoundedBetween(mode, sorted[0], Median(sorted), sorted[|sorted| - 1]);
  }

  lemma RoundedBetween(mode: Rounding, low: real, x: real, high: real)
    requires low <= x <= high
    ensures Round2(mode, low) <= Round2(mode, x) <= Round2(mode, high)
  {
    Round2Monotone(mode, low, x);
    Round2Monotone(mode, x, high);
  }

  lemma MedianBetween(sorted: seq<real>)
    requires sorted != [] && Sorted(sorted)
    ensures sorted[0] <= Median(sorted) <= sorted[|sorted| - 1]
  {
  }

  lemma MeanBetween(xs: seq<real>, low: real, high: real)
    requires xs != [] && forall x | x in xs :: low <= x <= high
    ensures low <= Sum(xs) / |xs| as real <= high
  {
    SumBounds(xs, low, high);
    QuotientBetween(Sum(xs), |xs| as real, low, high);
  }

  lemma QuotientBetween(sum: real, n: real, low: real, high: real)
    requires n > 0.0 && low * n <= sum <= high * n
    ensures low <= sum / n <= high
  {
    QuotientMonotone(low * n, sum, n);
    QuotientMonotone(sum, high * n, n);
    assert low * n / n == low && high * n / n == high;
  }

  lemma {:induction false} SummaryPermutes(mode: Rounding, a: seq<real>, b: seq<real>)
    requires multiset(a) == multiset(b)
    ensures SummaryOf(mode, a) == SummaryOf(mode, b)
  {
    assert |multiset(a)| == |a| && |multiset(b)| == |b|;
    SumPermutes(a, b);
    SortedCopySorts(a);
    SortedCopySorts(b);
    SortedIsUnique(SortedCopy(a), SortedCopy(b));
  }

  /** A summary does not depend on the order in which a map gives its values. */
  lemma SummaryIgnoresMapOrder(mode: Rounding, snapshots: seq<Snapshot>, a: seq<Snapshot>, b: seq<Snapshot>)
    requires Enumerates(a, LatestOf(snapshots)) && Enumerates(b, LatestOf(snapshots))
    ensures SummaryOf(mode, Prices(a)) == SummaryOf(mode, Prices(b))
    ensures CountOf(SummaryOf(mode, Prices(a))) == |ItemsOf(snapshots)|
  {
    LatestIsLast(snapshots);
    EnumerationSize(a, LatestOf(snapshots));
    EnumerationSize(b, LatestOf(snapshots));
    PricesPermute(a, b);
    SummaryPermutes(mode, Prices(a), Prices(b));
    SortedCopySorts(Prices(a));
    assert |LatestOf(snapshots)| == |LatestOf(snapshots).Keys|;
  }

  /** `summary` is what summarising the latest snapshots gives, in some order of the map. */
  ghost predicate Summarises(mode: Rounding, summary: Summary, snapshots: seq<Snapshot>) {
    exists list :: Enumerates(list, LatestOf(snapshots)) && summary == SummaryOf(mode, Prices(list))
  }

  lemma SummarisesUniquely(mode: Rounding, x: Summary, y: Summary, snapshots: seq<Snapshot>)
    requires Summarises(mode, x, snapshots) && Summarises(mode, y, snapshots)
    ensures x == y && CountOf(x) == |ItemsOf(snapshots)|
  {
    var a :| Enumerates(a, LatestOf(snapshots)) && x == SummaryOf(mode, Prices(a));
    var b :| Enumerates(b, LatestOf(snapshots)) && y == SummaryOf(mode, Prices(b));
    SummaryIgnoresMapOrder(mode, snapshots, a, b);
  }

  // ----- the daily trend ---------------------------------------------------------------------

  datatype Point = Point(day: Day, summary: Summary)

  function OfDay(snapshots: seq<Snapshot>, day: Day): seq<Snapshot>
    decreases |snapshots|
  {
    if snapshots == [] then []
    else
      var last := snapshots[|snapshots| - 1];
      OfDay(snapshots[..|snapshots| - 1], day) + if last.day == day then [last] else []
  }

  function DaysOf(snapshots: seq<Snapshot>): set<Day> {
    set s | s in snapshots :: s.day
  }

  /** The (day, item) pairs of the window. */
  function PairsOf(snapshots: seq<Snapshot>): set<(Day, Item)> {
    set s | s in snapshots :: (s.day, s.item)
  }

  lemma {:induction false} OfDayMembers(snapshots: seq<Snapshot>, day: Day, s: Snapshot)
    ensures s in OfDay(snapshots, day) <==> s in snapshots && s.day == day
    decreases |snapshots|
  {
    if snapshots != [] {
      OfDayMembers(snapshots[..|snapshots| - 1], day, s);
      assert snapshots == snapshots[..|snapshots| - 1] + [snapshots[|snapshots| - 1]];
    }
  }

  function PointDays(points: seq<Point>): set<Day> {
    set p | p in points :: p.day
  }

  /** What the trend of a window is: one point per day, days strictly increasing, each point the
      summary of that day's last snapshot per item. */
  ghost predicate IsTrend(mode: Rounding, points: seq<Point>, snapshots: seq<Snapshot>) {
    && (forall i, j | 0 <= i < j < |points| :: points[i].day < points[j].day)
    && PointDays(points) == DaysOf(snapshots)
    && (forall p | p in points :: Summarises(mode, p.summary, OfDay(snapshots, p.day)))
  }

  lemma {:induction false} OfDayAppend(snapshots: seq<Snapshot>, s: Snapshot, day: Day)
    ensures OfDay(snapshots + [s], day) == OfDay(snapshots, day) + if s.day == day then [s] else []
  {
    assert (snapshots + [s])[..|snapshots + [s]| - 1] == snapshots;
  }

  /** The groups of the snapshots seen so far. */
  ghost predicate GroupedLike(grouped: map<Day, seq<Snapshot>>, seen: seq<Snapshot>) {
    && grouped.Keys == DaysOf(seen)
    && (forall day | day in grouped :: grouped[day] == OfDay(seen, day))
    && (forall day | day !in grouped :: OfDay(seen, day) == [])
  }

  function GroupWith(grouped: map<Day, seq<Snapshot>>, s: Snapshot): map<Day, seq<Snapshot>> {
    grouped[s.day := (if s.day in grouped then grouped[s.day] else []) + [s]]
  }

  lemma DaysAppend(seen: seq<Snapshot>, s: Snapshot)
    ensures DaysOf(seen + [s]) == DaysOf(seen) + {s.day}
  {
    forall day ensures day in DaysOf(seen + [s]) <==> day in DaysOf(seen) + {s.day} {
      if day in DaysOf(seen) {
        var x :| x in seen && x.day == day;
        assert x in seen + [s];
      }
      assert s in seen + [s];
    }
  }

  lemma GroupAppend(grouped: map<Day, seq<Snapshot>>, seen: seq<Snapshot>, s: Snapshot)
    requires GroupedLike(grouped, seen)
    ensures GroupedLike(GroupWith(grouped, s), seen + [s])
  {
    DaysAppend(seen, s);
    var next := GroupWith(grouped, s);
    assert next.Keys == grouped.Keys + {s.day};
    forall day ensures (if day in next then next[day] else []) == OfDay(seen + [s], day) {
      OfDayAppend(seen, s, day);
    }
  }

  lemma NothingGrouped()
    ensures GroupedLike(map[], [])
  {
  }

  method AddToGroup(before: map<Day, seq<Snapshot>>, ghost seen: seq<Snapshot>, s: Snapshot)
    returns (grouped: map<Day, seq<Snapshot>>)
    requires GroupedLike(before, seen)
    ensures GroupedLike(grouped, seen + [s])
  {
    GroupAppend(before, seen, s);
    grouped := GroupWith(before, s);
  }

  method GroupByDay(snapshots: seq<Snapshot>) returns (grouped: map<Day, seq<Snapshot>>)
    ensures GroupedLike(grouped, snapshots)
  {
    grouped := map[];
    NothingGrouped();
    ghost var seen: seq<Snapshot> := [];
    for i := 0 to |snapshots|
      invariant seen == snapshots[..i] && GroupedLike(grouped, seen)
    {
      grouped := AddToGroup(grouped, seen, snapshots[i]);
      seen := seen + [snapshots[i]];
    }
    assert snapshots[..|snapshots|] == snapshots;
  }

  /** One point of the trend from the snapshots of its day. */
  method DayPoint(mode: Rounding, day: Day, snapshots: seq<Snapshot>) returns (p: Point)
    ensures p.day == day && Summarises(mode, p.summary, snapshots)
  {
    var list := DedupeLatest(snapshots);
    var summary := SummarizePrices(mode, list);
    p := Point(day, summary);
  }

  /** The trend of the days that are done; the days in `todo` all come later. */
  ghost predicate PartialTrend(mode: Rounding, points: seq<Point>, snapshots: seq<Snapshot>, todo: set<Day>) {
    && PointDays(points) == DaysOf(snapshots) - todo
    && (forall i, day | 0 <= i < |points| && day in todo :: points[i].day < day)
    && (forall i, j | 0 <= i < j < |points| :: points[i].day < points[j].day)
    && (forall p | p in points :: Summarises(mode, p.summary, OfDay(snapshots, p.day)))
  }

  lemma PartialAppend(mode: Rounding, points: seq<Point>, snapshots: seq<Snapshot>, todo: set<Day>, p: Point)
    requires PartialTrend(mode, points, snapshots, todo) && todo <= DaysOf(snapshots)
    requires p.day in todo && forall day | day in todo :: p.day <= day
    requires Summarises(mode, p.summary, OfDay(snapshots, p.day))
    ensures PartialTrend(mode, points + [p], snapshots, todo - {p.day})
  {
    AppendPoint(points, p);
  }

  /** `buildDailyTrend`: group by day, take the days in ascending order, summarise each group. */
  method BuildDailyTrend(mode: Rounding, snapshots: seq<Snapshot>) returns (points: seq<Point>)
    ensures IsTrend(mode, points, snapshots)
  {
    var grouped := GroupByDay(snapshots);
    points := [];
    var todo := grouped.Keys;
    while todo != {}
      invariant todo <= grouped.Keys
      invariant PartialTrend(mode, points, snapshots, todo)
      decreases todo
    {
      var day := Least(todo);
      var p := DayPoint(mode, day, grouped[day]);
      PartialAppend(mode, points, snapshots, todo, p);
      points := points + [p];
      todo := todo - {day};
    }
  }

  lemma AppendPoint(points: seq<Point>, p: Point)
    ensures PointDays(points + [p]) == PointDays(points) + {p.day}
  {
    assert forall q | q in points :: q in points + [p];
    assert p in points + [p];
  }

  function SampleTotal(points: seq<Point>): nat
    decreases |points|
  {
    if points == [] then 0
    else SampleTotal(points[..|points| - 1]) + CountOf(points[|points| - 1].summary)
  }

  /** The pairs whose day is among the first `k` points. */
  function PairsUpTo(points: seq<Point>, k: nat, snapshots: seq<Snapshot>): set<(Day, Item)>
    requires k <= |points|
  {
    set s | s in snapshots && (exists i | 0 <= i < k :: points[i].day == s.day) :: (s.day, s.item)
  }

  lemma PairsOfOneDay(snapshots: seq<Snapshot>, day: Day)
    ensures |set s | s in snapshots && s.day == day :: (s.day, s.item)| == |ItemsOf(OfDay(snapshots, day))|
  {
    var pairs := set s | s in snapshots && s.day == day :: (s.day, s.item);
    var items := ItemsOf(OfDay(snapshots, day));
    forall item ensures item in items <==> (day, item) in pairs {
      if item in items {
        var s :| s in OfDay(snapshots, day) && s.item == item;
        OfDayMembers(snapshots, day, s);
      }
      if (day, item) in pairs {
        var s :| s in snapshots && s.day == day && (s.day, s.item) == (day, item);
        OfDayMembers(snapshots, day, s);
      }
    }
    PairsLikeItems(day, pairs, items);
  }

  lemma {:induction false} PairsLikeItems(day: Day, pairs: set<(Day, Item)>, items: set<Item>)
    requires forall item :: item in items <==> (day, item) in pairs
    requires forall p | p in pairs :: p.0 == day
    ensures |pairs| == |items|
    decreases items
  {
    assert forall p | p in pairs :: p == (day, p.1) && p.1 in items;
    if items == {} {
      assert pairs == {};
    } else {
      var item := Member(items);
      PairsLikeItems(day, pairs - {(day, item)}, items - {item});
    }
  }

  lemma PairsSplit(points: seq<Point>, k: nat, snapshots: seq<Snapshot>)
    requires 0 < k <= |points|
    requires forall i, j | 0 <= i < j < |points| :: points[i].day < points[j].day
    ensures var today := set s | s in snapshots && s.day == points[k - 1].day :: (s.day, s.item);
            var earlier := PairsUpTo(points, k - 1, snapshots);
            PairsUpTo(points, k, snapshots) == earlier + today && earlier * today == {}
  {
    var today := set s | s in snapshots && s.day == points[k - 1].day :: (s.day, s.item);
    var earlier := PairsUpTo(points, k - 1, snapshots);
    forall pair ensures pair in PairsUpTo(points, k, snapshots) <==> pair in earlier + today {
    }
    forall pair | pair in earlier ensures pair !in today {
      assert exists i | 0 <= i < k - 1 :: points[i].day == pair.0;
    }
  }

  lemma TotalStep(points: seq<Point>, k: nat)
    requires 0 < k <= |points|
    ensures SampleTotal(points[..k]) == SampleTotal(points[..k - 1]) + CountOf(points[k - 1].summary)
  {
    assert points[..k][..k - 1] == points[..k - 1];
  }

  lemma DisjointSizes<T>(a: set<T>, b: set<T>)
    requires a * b == {}
    ensures |a + b| == |a| + |b|
  {
  }

  lemma {:induction false} TotalUpTo(mode: Rounding, points: seq<Point>, k: nat, snapshots: seq<Snapshot>)
    requires IsTrend(mode, points, snapshots) && k <= |points|
    ensures SampleTotal(points[..k]) == |PairsUpTo(points, k, snapshots)|
    decreases k
  {
    if k > 0 {
      TotalUpTo(mode, points, k - 1, snapshots);
      TotalStep(points, k);
      PointCount(mode, points, k - 1, snapshots);
      PairsSplit(points, k, snapshots);
      DisjointSizes(PairsUpTo(points, k - 1, snapshots),
                    set s | s in snapshots && s.day == points[k - 1].day :: (s.day, s.item));
    }
  }

  lemma PointCount(mode: Rounding, points: seq<Point>, i: nat, snapshots: seq<Snapshot>)
    requires IsTrend(mode, points, snapshots) && i < |points|
    ensures CountOf(points[i].summary) == |set s | s in snapshots && s.day == points[i].day :: (s.day, s.item)|
  {
    var p := points[i];
    assert p in points;
    SummarisesUniquely(mode, p.summary, p.summary, OfDay(snapshots, p.day));
    PairsOfOneDay(snapshots, p.day);
  }

  /** Conservation: the sample counts of the trend add up to the number of distinct (day, item) pairs
      in the window. */
  lemma TrendCountsEveryPairOnce(mode: Rounding, points: seq<Point>, snapshots: seq<Snapshot>)
    requires IsTrend(mode, points, snapshots)
    ensures SampleTotal(points) == |PairsOf(snapshots)|
  {
    TotalUpTo(mode, points, |points|, snapshots);
    assert points[..|points|] == points;
    assert PairsUpTo(points, |points|, snapshots) == PairsOf(snapshots) by {
      forall s | s in snapshots ensures exists i | 0 <= i < |points| :: points[i].day == s.day {
        assert s.day in PointDays(points);
        var p :| p in points && p.day == s.day;
      }
    }
  }

  /** The trend is the same whatever order the maps are walked in. */
  lemma {:induction false} TrendIsUnique(mode: Rounding, a: seq<Point>, b: seq<Point>, snapshots: seq<Snapshot>)
    requires IsTrend(mode, a, snapshots) && IsTrend(mode, b, snapshots)
    ensures a == b
  {
    SameDays(mode, a, b, snapshots);
    forall i | 0 <= i < |a| ensures a[i] == b[i] {
      assert a[i] in a && b[i] in b;
      SummarisesUniquely(mode, a[i].summary, b[i].summary, OfDay(snapshots, a[i].day));
    }
  }

  function DayList(points: seq<Point>): seq<Day> {
    seq(|points|, i requires 0 <= i < |points| => points[i].day)
  }

  lemma SameDays(mode: Rounding, a: seq<Point>, b: seq<Point>, snapshots: seq<Snapshot>)
    requires IsTrend(mode, a, snapshots) && IsTrend(mode, b, snapshots)
    ensures |a| == |b| && forall i | 0 <= i < |a| :: a[i].day == b[i].day
  {
    var x, y := DayList(a), DayList(b);
    forall day ensures day in x <==> day in DaysOf(snapshots)
      ensures day in y <==> day in DaysOf(snapshots)
    {
      DayListMembers(mode, a, snapshots, day);
      DayListMembers(mode, b, snapshots, day);
    }
    IncreasingIsUnique(x, y);
    assert forall i | 0 <= i < |a| :: x[i] == a[i].day && y[i] == b[i].day;
  }

  lemma DayListMembers(mode: Rounding, points: seq<Point>, snapshots: seq<Snapshot>, day: Day)
    requires IsTrend(mode, points, snapshots)
    ensures day in DayList(points) <==> day in DaysOf(snapshots)
  {
    if day in PointDays(points) {
      var p :| p in points && p.day == day;
      var i :| 0 <= i < |points| && points[i] == p;
      assert DayList(points)[i] == day;
    }
    if day in DayList(points) {
      var i :| 0 <= i < |points| && DayList(points)[i] == day;
      assert points[i] in points;
    }
  }

  lemma InOrder(x: seq<int>, i: nat, j: nat)
    requires Increasing(x) && i <= j < |x|
    ensures x[i] <= x[j]
  {
  }

  /** Where a member stands in the other list, when both agree before it. */
  lemma PlaceIn(x: seq<int>, y: seq<int>, n: nat) returns (k: nat)
    requires Increasing(x) && n < |x| && n <= |y| && x[n] in y
    requires forall i | 0 <= i < n :: x[i] == y[i]
    ensures n <= k < |y| && y[k] == x[n]
  {
    k :| 0 <= k < |y| && y[k] == x[n];
    assert forall i | 0 <= i < n :: y[i] < x[n];
  }

  lemma {:induction false} NextAgrees(x: seq<int>, y: seq<int>, n: nat)
    requires Increasing(x) && Increasing(y) && n < |x| && n <= |y|
    requires x[n] in y && (n < |y| ==> y[n] in x)
    requires forall i | 0 <= i < n :: x[i] == y[i]
    ensures n < |y| && x[n] == y[n]
  {
    var k := PlaceIn(x, y, n);
    InOrder(y, n, k);
    var l := PlaceIn(y, x, n);
    InOrder(x, n, l);
  }

  lemma {:induction false} IncreasingAgree(x: seq<int>, y: seq<int>, n: nat)
    requires Increasing(x) && Increasing(y) && n <= |x|
    requires (forall i | 0 <= i < |x| :: x[i] in y) && (forall i | 0 <= i < |y| :: y[i] in x)
    ensures n <= |y| && forall i | 0 <= i < n :: x[i] == y[i]
    decreases n
  {
    if n > 0 {
      IncreasingAgree(x, y, n - 1);
      NextAgrees(x, y, n - 1);
    }
  }

  lemma IncreasingIsUnique(x: seq<int>, y: seq<int>)
    requires Increasing(x) && Increasing(y) && forall d :: d in x <==> d in y
    ensures x == y
  {
    assert (forall i | 0 <= i < |x| :: x[i] in x) && (forall i | 0 <= i < |y| :: y[i] in y);
    IncreasingAgree(x, y, |x|);
    IncreasingAgree(y, x, |y|);
  }

  // ----- the insights ------------------------------------------------------------------------

  /** int(hours / 24) truncates toward zero. */
  function DaysBetween(latest: int, current: int): int {
    if latest >= current then (latest - current) / TICKS_PER_DAY else -((current - latest) / TICKS_PER_DAY)
  }

  predicate Recent(latest: Option<int>, s: Snapshot, window: int) {
    latest.None? || s.time.None? || DaysBetween(latest.value, s.time.value) <= Max(window, 0)
  }

  function Window(snapshots: seq<Snapshot>, latest: Option<int>, window: int): seq<Snapshot>
    decreases |snapshots|
  {
    if snapshots == [] then []
    else
      var last := snapshots[|snapshots| - 1];
      Window(snapshots[..|snapshots| - 1], latest, window) + if Recent(latest, last, window) then [last] else []
  }

  function OfRun(snapshots: seq<Snapshot>, run: string): seq<Snapshot>
    decreases |snapshots|
  {
    if snapshots == [] then []
    else
      var last := snapshots[|snapshots| - 1];
      OfRun(snapshots[..|snapshots| - 1], run) + if last.run == run then [last] else []
  }

  function Visible(snapshots: seq<Snapshot>, items: set<Item>): seq<Snapshot>
    decreases |snapshots|
  {
    if snapshots == [] then []
    else
      var last := snapshots[|snapshots| - 1];
      Visible(snapshots[..|snapshots| - 1], items) + if last.item in items then [last] else []
  }

  datatype Insights = Insights(market: Summary, history: Summary, uniqueItems: nat, trend: seq<Point>)

  /** `buildPriceHistoryInsights` on the loaded snapshots, with the window of 30 days. */
  method BuildInsights(mode: Rounding, snapshots: seq<Snapshot>, items: set<Item>) returns (r: Insights)
    ensures var filtered := Visible(snapshots, items);
            filtered == [] ==> r == Insights(NoSample, NoSample, 0, [])
    ensures var filtered := Visible(snapshots, items);
            filtered != [] ==>
              var last := filtered[|filtered| - 1];
              var recent := Window(filtered, last.time, 30);
              && Summarises(mode, r.market, OfRun(filtered, last.run))
              && Summarises(mode, r.history, recent)
              && r.uniqueItems == CountOf(r.history) == |ItemsOf(recent)|
              && IsTrend(mode, r.trend, recent)
              && SampleTotal(r.trend) == |PairsOf(recent)|
  {
    var filtered := Visible(snapshots, items);
    if filtered == [] {
      return Insights(NoSample, NoSample, 0, []);
    }
    var last := filtered[|filtered| - 1];
    var recent := Window(filtered, last.time, 30);
    var latestRun := DedupeLatest(OfRun(filtered, last.run));
    var perItem := DedupeLatest(recent);
    var market := SummarizePrices(mode, latestRun);
    var history := SummarizePrices(mode, perItem);
    var trend := BuildDailyTrend(mode, recent);
    SummaryIgnoresMapOrder(mode, recent, perItem, perItem);
    SortedCopySorts(Prices(perItem));
    assert Summarises(mode, history, recent) && Summarises(mode, market, OfRun(filtered, last.run));
    TrendCountsEveryPairOnce(mode, trend, recent);
    r := Insights(market, history, |perItem|, trend);
  }
}
