/** The deal score of an item against its market and its own history. */
module DealScore {
  import opened Basics

  /** Conversion of a float to an integer: truncation toward zero. */
  function Trunc(x: real): int {
    if x >= 0.0 then x.Floor else -((-x).Floor)
  }

  lemma TruncMonotone(x: real, y: real)
    requires x <= y
    ensures Trunc(x) <= Trunc(y)
  {
    if x < 0.0 && y >= 0.0 {
      assert (-x).Floor >= 0 && y.Floor >= 0;
    }
  }

  function Abs(x: real): real {
    if x < 0.0 then -x else x
  }

  function MaxReal(a: real, b: real): real {
    if a >= b then a else b
  }

  function MaxOf(xs: seq<real>): (m: real)
    requires xs != []
    ensures m in xs && forall x | x in xs :: x <= m
    decreases |xs|
  {
    if |xs| == 1 then xs[0]
    else
      var init := MaxOf(xs[..|xs| - 1]);
      assert forall x | x in xs :: x in xs[..|xs| - 1] || x == xs[|xs| - 1];
      if xs[|xs| - 1] > init then xs[|xs| - 1] else init
  }

  function MinOf(xs: seq<real>): (m: real)
    requires xs != []
    ensures m in xs && forall x | x in xs :: m <= x
    decreases |xs|
  {
    if |xs| == 1 then xs[0]
    else
      var init := MinOf(xs[..|xs| - 1]);
      assert forall x | x in xs :: x in xs[..|xs| - 1] || x == xs[|xs| - 1];
      if xs[|xs| - 1] < init then xs[|xs| - 1] else init
  }

  /** Go: an absolute tolerance. */
  predicate NearGo(price: real, low: real) {
    Abs(price - low) <= 0.001
  }

  /** Python: `math.isclose` with a relative tolerance. */
  predicate NearPython(price: real, low: real) {
    Abs(price - low) <= 0.001 * MaxReal(Abs(price), Abs(low))
  }

  datatype Side = Go | Python

  predicate Near(side: Side, price: real, low: real) {
    match side
    case Go => NearGo(price, low)
    case Python => NearPython(price, low)
  }

  /** Go tests the average for a positive value, Python for a non-zero one. */
  predicate UsesMarket(side: Side, avg: real) {
    match side
    case Go => avg > 0.0
    case Python => avg != 0.0
  }

  function Clamp(score: int): int {
    Max(0, Min(100, score))
  }

  function MarketPart(side: Side, avg: real, price: real): int {
    if UsesMarket(side, avg) then Trunc((avg - price) / avg * 60.0) else 0
  }

  function HistoryPart(history: seq<real>, price: real): int {
    if history != [] && MaxOf(history) > 0.0 then Trunc((MaxOf(history) - price) / MaxOf(history) * 20.0) else 0
  }

  predicate HasBonus(side: Side, history: seq<real>, price: real) {
    history != [] && Near(side, price, MinOf(history))
  }

  function Score(side: Side, avg: real, history: seq<real>, price: real): int {
    Clamp(50 + MarketPart(side, avg, price) + HistoryPart(history, price) + if HasBonus(side, history, price) then 8 else 0)
  }

  method Extremes(history: seq<real>) returns (low: real, high: real)
    requires history != []
    ensures low == MinOf(history) && high == MaxOf(history)
  {
    low, high := history[0], history[0];
    for i := 1 to |history|
      invariant high == MaxOf(history[..i]) && low == MinOf(history[..i])
    {
      assert history[..i + 1][..i] == history[..i];
      if history[i] > high {
        high := history[i];
      }
      if history[i] < low {
        low := history[i];
      }
    }
    assert history[..|history|] == history;
  }

  /** The score computation of `buildItemPriceContext`: a running total, then the clamp. */
  method ComputeScore(side: Side, avg: real, history: seq<real>, price: real) returns (score: int)
    ensures score == Score(side, avg, history, price)
    ensures 0 <= score <= 100
  {
    score := 50;
    if UsesMarket(side, avg) {
      score := score + Trunc((avg - price) / avg * 60.0);
    }
    if history != [] {
      var low, high := Extremes(history);
      if high > 0.0 {
        score := score + Trunc((high - price) / high * 20.0);
      }
      if Near(side, price, low) {
        score := score + 8;
      }
    }
    if score < 0 {
      score := 0;
    }
    if score > 100 {
      score := 100;
    }
  }

  lemma ShareFalls(base: real, p: real, q: real, weight: real)
    requires base > 0.0 && p <= q && weight > 0.0
    ensures (base - q) / base * weight <= (base - p) / base * weight
  {
    QuotientMonotone(base - q, base - p, base);
    ProductMonotone((base - q) / base, (base - p) / base, weight);
  }

  lemma ProductMonotone(x: real, y: real, n: real)
    requires x <= y && n > 0.0
    ensures x * n <= y * n
  {
  }

  lemma PartsFall(side: Side, avg: real, history: seq<real>, p: real, q: real)
    requires p <= q && (side.Python? ==> avg >= 0.0)
    ensures MarketPart(side, avg, q) <= MarketPart(side, avg, p)
    ensures HistoryPart(history, q) <= HistoryPart(history, p)
  {
    if UsesMarket(side, avg) {
      ShareFalls(avg, p, q, 60.0);
      TruncMonotone((avg - q) / avg * 60.0, (avg - p) / avg * 60.0);
    }
    if history != [] && MaxOf(history) > 0.0 {
      var high := MaxOf(history);
      ShareFalls(high, p, q, 20.0);
      TruncMonotone((high - q) / high * 20.0, (high - p) / high * 20.0);
    }
  }

  /** A cheaper price never scores worse by more than the bonus, and scores worse at all only when the
      dearer price earns the lowest-price bonus and the cheaper one does not. Both sides; for the
      Python side the market average must not be negative. */
  lemma CheaperScoresAlmostBetter(side: Side, avg: real, history: seq<real>, p: real, q: real)
    requires p <= q && (side.Python? ==> avg >= 0.0)
    ensures Score(side, avg, history, p) >= Score(side, avg, history, q) - 8
    ensures Score(side, avg, history, p) < Score(side, avg, history, q) ==>
              HasBonus(side, history, q) && !HasBonus(side, history, p)
  {
    PartsFall(side, avg, history, p, q);
  }

  /** The eight points can really be lost, on both sides: a price just under the old minimum forfeits
      the bonus and gains nothing. */
  lemma EightPointsCanBeLost(side: Side)
    ensures Score(side, 100.0, [100.0, 200.0], 100.0) == 68
    ensures Score(side, 100.0, [100.0, 200.0], 99.5) == 60
  {
    var history := [100.0, 200.0];
    assert history[..1] == [100.0];
    assert MaxOf(history) == 200.0 && MinOf(history) == 100.0;
    assert (100.0 - 99.5) / 100.0 * 60.0 == 0.3;
    assert (200.0 - 99.5) / 200.0 * 20.0 == 10.05;
    assert (200.0 - 100.0) / 200.0 * 20.0 == 10.0;
    assert NearPython(100.0, 100.0) && !NearPython(99.5, 100.0);
  }

  /** Scores fall with the price, up to the bonus, whatever the history. */
  ghost predicate AlmostAntitone(side: Side, avg: real) {
    forall history, p, q | p <= q :: Score(side, avg, history, p) >= Score(side, avg, history, q) - 8
  }

  /** The two ends of the scale for a negative average: the average itself, and nothing. */
  lemma NegativeAverageTurnsTheScore(avg: real)
    requires avg < 0.0
    ensures Score(Python, avg, [], avg) == 50 && Score(Python, avg, [], 0.0) == 100
  {
    assert (avg - 0.0) / avg == 1.0 && (avg - avg) / avg == 0.0;
  }

  /** The Go score always has the property; the Python score has it exactly when the average is not
      negative. */
  lemma AlmostAntitoneIff(avg: real)
    ensures AlmostAntitone(Go, avg)
    ensures AlmostAntitone(Python, avg) <==> avg >= 0.0
  {
    forall history, p, q | p <= q ensures Score(Go, avg, history, p) >= Score(Go, avg, history, q) - 8 {
      CheaperScoresAlmostBetter(Go, avg, history, p, q);
    }
    if avg >= 0.0 {
      forall history, p, q | p <= q ensures Score(Python, avg, history, p) >= Score(Python, avg, history, q) - 8 {
        CheaperScoresAlmostBetter(Python, avg, history, p, q);
      }
    } else {
      NegativeAverageTurnsTheScore(avg);
      assert Score(Python, avg, [], avg) < Score(Python, avg, [], 0.0) - 8;
    }
  }

  /** For every average the Go score is, up to the bonus, the Python score with a negative average taken
      as none, and the same where the bonus tests agree. */
  lemma SidesDifferByTheBonus(avg: real, history: seq<real>, price: real)
    ensures -8 <= Score(Go, avg, history, price) - Score(Python, MaxReal(avg, 0.0), history, price) <= 8
    ensures (HasBonus(Go, history, price) <==> HasBonus(Python, history, price)) ==>
              Score(Go, avg, history, price) == Score(Python, MaxReal(avg, 0.0), history, price)
  {
  }

  /** For prices of at least one unit the relative tolerance is the wider one. */
  lemma GoBonusIsStricter(history: seq<real>, price: real)
    requires price >= 1.0 && HasBonus(Go, history, price)
    ensures HasBonus(Python, history, price)
  {
  }

  // ----- the score from first principles -------------------------------------------------------

  /** `m` is `x` without its fraction. */
  predicate IntegerPart(x: real, m: int) {
    if x >= 0.0 then m as real <= x < m as real + 1.0 else m as real - 1.0 < x <= m as real
  }

  predicate Greatest(xs: seq<real>, high: real) {
    high in xs && forall x | x in xs :: x <= high
  }

  predicate Lowest(xs: seq<real>, low: real) {
    low in xs && forall x | x in xs :: low <= x
  }

  /** Within 0.001 of the lowest price in Go; within a thousandth of the greater of the two in Python. */
  predicate AtTheLowest(side: Side, price: real, low: real) {
    match side
    case Go => low - 0.001 <= price <= low + 0.001
    case Python =>
      || -0.001 * price <= price - low <= 0.001 * price
      || -0.001 * low <= price - low <= 0.001 * low
      || 0.001 * price <= price - low <= -0.001 * price
      || 0.001 * low <= price - low <= -0.001 * low
  }

  lemma IntegerPartIsTrunc(x: real, m: int)
    requires IntegerPart(x, m)
    ensures m == Trunc(x)
  {
  }

  lemma NearIsAtTheLowest(side: Side, price: real, low: real)
    ensures Near(side, price, low) <==> AtTheLowest(side, price, low)
  {
  }

  lemma ExtremesAre(history: seq<real>, low: real, high: real)
    requires Lowest(history, low) && Greatest(history, high)
    ensures low == MinOf(history) && high == MaxOf(history)
  {
  }

  /** From 50 points, the score gains or loses six tenths of a point for every percent below or above the market
      average and a fifth for every percent below the highest price seen, each without its fraction, and eight
      points at the lowest price seen; it is then brought into 0..100. The average counts when it is positive, in
      Python when it is not zero; the highest price when it is positive. */
  lemma ScoreIs(side: Side, avg: real, history: seq<real>, price: real, low: real, high: real, market: int, seen: int)
    requires history != [] ==> Lowest(history, low) && Greatest(history, high)
    requires avg != 0.0 ==> IntegerPart((avg - price) / avg * 60.0, market)
    requires high != 0.0 ==> IntegerPart((high - price) / high * 20.0, seen)
    ensures var points := 50 + (if avg > 0.0 || (side.Python? && avg < 0.0) then market else 0)
                             + (if history != [] && high > 0.0 then seen else 0)
                             + (if history != [] && AtTheLowest(side, price, low) then 8 else 0);
            Score(side, avg, history, price) == if points < 0 then 0 else if points > 100 then 100 else points
  {
    if history != [] {
      ExtremesAre(history, low, high);
      NearIsAtTheLowest(side, price, low);
    }
    if avg != 0.0 {
      IntegerPartIsTrunc((avg - price) / avg * 60.0, market);
    }
    if high != 0.0 {
      IntegerPartIsTrunc((high - price) / high * 20.0, seen);
    }
  }
}
