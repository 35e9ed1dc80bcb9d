/** The synthetic price series behind each line chart (`generatePriceHistory`).
    A walk of `days` steps starts from the current price, each step moving the
    price by at most 2% in a direction drawn from a sine-based hash of the
    coin id and the day; a final point is pinned to the current price.

    Floating point is modelled with exact reals. The one transcendental
    value, `Math.sin(daySeed) * 10000`, is a parameter `sine` of the model;
    everything the code does with it afterwards is modelled exactly. The
    calendar date of a point is left out; each point carries instead how many
    days before today it stands for. */
module PriceHistory {

  /** Length of the walk in days; the series has one more point. */
  const Days: nat := 14

  /** Day offsets are spread apart by this factor in the day seed. */
  const DayStride: int := 137

  /** The largest relative move of one step. */
  const Volatility: real := 0.02

  /** `Math.sin(daySeed) * 10000`, for each integer day seed. */
  type ScaledSine = int -> real

  /** One point of the series, `daysAgo` days before today. */
  datatype PricePoint = PricePoint(daysAgo: nat, price: real)

  /** `char.charCodeAt(0)` for one element of `Array.from(id)`. `Array.from`
      splits a string into code points, and `charCodeAt(0)` of a code point
      outside the Basic Multilingual Plane is its leading (high) surrogate. */
  function CharCode(c: char): (r: nat)
    ensures r < 0x10000
    ensures c as int < 0x10000 ==> r == c as int
    ensures 0x10000 <= c as int ==> 0xD800 <= r < 0xDC00
    ensures 0x10000 <= c as int ==>
              (r - 0xD800) * 0x400 <= c as int - 0x10000 < (r - 0xD800 + 1) * 0x400
  {
    if c as int < 0x10000 then c as int
    else
      var v := c as int - 0x10000;
      assert v == (v / 0x400) * 0x400 + v % 0x400;
      0xD800 + v / 0x400
  }

  /** The seed: `reduce((sum, char) => sum + charCode, 0)` over the id, a fold
      from the left. */
  function Seed(id: string): (r: nat)
    ensures r <= 0xFFFF * |id|
    decreases |id|
  {
    if |id| == 0 then 0
    else Seed(id[..|id| - 1]) + CharCode(id[|id| - 1])
  }

  /** The seed adds up over concatenation: it is the sum of the character codes. */
  lemma {:induction false} SeedAppend(a: string, b: string)
    ensures Seed(a + b) == Seed(a) + Seed(b)
    decreases |b|
  {
    if |b| > 0 {
      var b' := b[..|b| - 1];
      assert (a + b)[..|a + b| - 1] == a + b';
      assert (a + b)[|a + b| - 1] == b[|b| - 1];
      SeedAppend(a, b');
    } else {
      assert a + b == a;
    }
  }

  /** The seed of an ASCII id such as "btc" is the sum of its ASCII codes. */
  lemma SeedOfBtc()
    ensures Seed("btc") == 98 + 116 + 99
  {
  }

  /** The day seed of the point `daysAgo` days before today: the coin's seed,
      moved by a whole number of strides, further for older days. */
  function DaySeed(seed: int, daysAgo: int): int {
    seed + daysAgo * DayStride
  }

  /** Today draws at the coin's own seed and older days at larger seeds, so
      no two days of one coin share a day seed. */
  lemma DaySeedsDistinct(seed: int, d1: int, d2: int)
    ensures DaySeed(seed, 0) == seed
    ensures d1 < d2 ==> DaySeed(seed, d1) < DaySeed(seed, d2)
  {
  }

  /** `normalizedRandom`: twice the fractional part of the scaled sine, minus
      one. It always lies in `[-1, 1)`. */
  function NormalizedRandom(sine: ScaledSine, daySeed: int): (r: real)
    ensures -1.0 <= r < 1.0
  {
    var x := sine(daySeed);
    (x - x.Floor as real) * 2.0 - 1.0
  }

  /** One step of the walk: `previousPrice + previousPrice * random * volatility`. */
  function Drift(prev: real, random: real): real {
    prev + prev * random * Volatility
  }

  /** A step from a positive price with a draw in `[-1, 1)` stays within
      `[-2%, +2%)` of the price, so it stays positive. */
  lemma DriftBounds(prev: real, random: real)
    requires 0.0 < prev && -1.0 <= random < 1.0
    ensures 0.98 * prev <= Drift(prev, random) < 1.02 * prev
    ensures 0.0 < Drift(prev, random)
  {
  }

  /** From a positive price the sign of the draw is the direction of the
      move: a positive draw raises the price, a negative one lowers it, and a
      zero draw keeps it. */
  lemma DriftDirection(prev: real, random: real)
    requires 0.0 < prev
    ensures prev < Drift(prev, random) <==> 0.0 < random
    ensures Drift(prev, random) < prev <==> random < 0.0
    ensures Drift(prev, random) == prev <==> random == 0.0
  {
  }

  /** The price the step to point `k` starts from: the current price for the
      first point, the previous point's price afterwards. */
  function PriceBefore(h: seq<PricePoint>, base: real, k: nat): real
    requires k <= |h|
  {
    if k == 0 then base else h[k - 1].price
  }

  /** What a series generated for `base`, `seed` and `days` is: `days + 1`
      points, from `days` days ago down to today; every point but the last is
      one drift step from the one before it (from `base` for the first),
      driven by its own day seed; the last point is `base` exactly. */
  ghost predicate IsHistory(h: seq<PricePoint>, base: real, seed: int, days: nat, sine: ScaledSine) {
    && |h| == days + 1
    && (forall k :: 0 <= k < |h| ==> h[k].daysAgo == days - k)
    && h[days].price == base
    && (forall k :: 0 <= k < days ==> StepAt(h, base, seed, days, sine, k))
  }

  /** Point `k` is one drift step from the price before it, driven by the
      draw of the day it stands for. */
  ghost predicate StepAt(h: seq<PricePoint>, base: real, seed: int, days: nat, sine: ScaledSine, k: nat) {
    k < |h| && h[k].price == Drift(PriceBefore(h, base, k), NormalizedRandom(sine, DaySeed(seed, days - k)))
  }

  /** The drift steps for `daysAgo = i, i - 1, ..., 1`, starting from `prev`. */
  function Walk(prev: real, seed: int, i: nat, sine: ScaledSine): seq<PricePoint>
    decreases i
  {
    if i == 0 then []
    else
      var p := Drift(prev, NormalizedRandom(sine, DaySeed(seed, i)));
      [PricePoint(i, p)] + Walk(p, seed, i - 1, sine)
  }

  /** The points of a walk, one by one. */
  lemma {:induction false} WalkShape(prev: real, seed: int, i: nat, sine: ScaledSine)
    ensures var w := Walk(prev, seed, i, sine);
      && |w| == i
      && (forall k :: 0 <= k < i ==> w[k].daysAgo == i - k)
      && (forall k :: 0 <= k < i ==> StepAt(w, prev, seed, i, sine, k))
    decreases i
  {
    if i > 0 {
      var p := Drift(prev, NormalizedRandom(sine, DaySeed(seed, i)));
      var w := Walk(prev, seed, i, sine);
      var tail := Walk(p, seed, i - 1, sine);
      WalkShape(p, seed, i - 1, sine);
      assert w == [PricePoint(i, p)] + tail;
      forall k | 0 < k < i
        ensures w[k].daysAgo == i - k
        ensures StepAt(w, prev, seed, i, sine, k)
      {
        assert StepAt(tail, p, seed, i - 1, sine, k - 1);
        assert w[k] == tail[k - 1];
        assert PriceBefore(w, prev, k) == PriceBefore(tail, p, k - 1);
      }
    }
  }

  /** The series for a current price, a coin id and a number of days. */
  function History(base: real, id: string, days: nat, sine: ScaledSine): (h: seq<PricePoint>)
    ensures IsHistory(h, base, Seed(id), days, sine)
  {
    var w := Walk(base, Seed(id), days, sine);
    WalkShape(base, Seed(id), days, sine);
    var h := w + [PricePoint(0, base)];
    forall k | 0 <= k < days
      ensures StepAt(h, base, Seed(id), days, sine, k)
    {
      assert StepAt(w, base, Seed(id), days, sine, k);
      assert h[k] == w[k] && PriceBefore(h, base, k) == PriceBefore(w, base, k);
    }
    h
  }

  /** The series the charts use: 14 days, so 15 points ending at the current price. */
  function PriceHistoryOf(base: real, id: string, sine: ScaledSine): (h: seq<PricePoint>)
    ensures |h| == Days + 1 == 15
    ensures h[Days].price == base && h[Days].daysAgo == 0
    ensures IsHistory(h, base, Seed(id), Days, sine)
  {
    History(base, id, Days, sine)
  }

  /** `generatePriceHistory` as the code runs it: a loop from `days` down to 0
      that computes a step every day, keeps it for every day but today, and
      pins today's point to the current price. */
  method GeneratePriceHistory(basePrice: real, cryptoId: string, days: nat, sine: ScaledSine)
    returns (history: seq<PricePoint>)
    ensures history == History(basePrice, cryptoId, days, sine)
    ensures |history| == days + 1 && history[days].price == basePrice
  {
    var seed := Seed(cryptoId);
    ghost var walk := Walk(basePrice, seed, days, sine);
    WalkShape(basePrice, seed, days, sine);
    var previousPrice := basePrice;
    history := [];
    var i: int := days;
    while i >= 0
      invariant -1 <= i <= days
      invariant |history| == days - i
      invariant forall k :: 0 <= k < |history| && k < days ==> history[k] == walk[k]
      invariant i >= 0 ==> previousPrice == PriceBefore(walk, basePrice, |history|)
      invariant i < 0 ==> history[days] == PricePoint(0, basePrice)
      decreases i + 1
    {
      var daySeed := seed + i * DayStride;
      var normalizedRandom := NormalizedRandom(sine, daySeed);
      var priceChange := previousPrice * normalizedRandom * Volatility;
      var price;
      if i == 0 {
        price := basePrice;
      } else {
        price := previousPrice + priceChange;
        assert price == Drift(previousPrice, normalizedRandom);
        assert walk[|history|] == PricePoint(i, price) by {
          assert days - |history| == i && daySeed == DaySeed(seed, i);
          assert StepAt(walk, basePrice, seed, days, sine, |history|);
        }
        previousPrice := price;
      }
      history := history + [PricePoint(i, price)];
      i := i - 1;
    }
    ghost var h := History(basePrice, cryptoId, days, sine);
    assert forall k :: 0 <= k < |h| ==> history[k] == h[k];
  }

  /** Two series that both fit the description agree point for point: the
      series is determined by the current price, the seed, the number of days
      and the sine values alone. */
  lemma HistoryDetermined(h1: seq<PricePoint>, h2: seq<PricePoint>, base: real, seed: int,
                          days: nat, sine: ScaledSine)
    requires IsHistory(h1, base, seed, days, sine)
    requires IsHistory(h2, base, seed, days, sine)
    ensures h1 == h2
  {
    var k := 0;
    while k < |h1|
      invariant 0 <= k <= |h1|
      invariant forall j :: 0 <= j < k ==> h1[j] == h2[j]
    {
      if k < days {
        assert StepAt(h1, base, seed, days, sine, k) && StepAt(h2, base, seed, days, sine, k);
        assert PriceBefore(h1, base, k) == PriceBefore(h2, base, k);
      }
      k := k + 1;
    }
  }

  /** One step of a series from a positive price stays within 2% of it. */
  lemma StepWithinTwoPercent(h: seq<PricePoint>, base: real, seed: int, days: nat,
                             sine: ScaledSine, k: nat)
    requires IsHistory(h, base, seed, days, sine)
    requires k < days && 0.0 < PriceBefore(h, base, k)
    ensures 0.98 * PriceBefore(h, base, k) <= h[k].price < 1.02 * PriceBefore(h, base, k)
    ensures 0.0 < h[k].price
  {
    var before := PriceBefore(h, base, k);
    var r := NormalizedRandom(sine, DaySeed(seed, days - k));
    assert StepAt(h, base, seed, days, sine, k);
    assert h[k].price == Drift(before, r);
    DriftBounds(before, r);
  }

  /** From a positive current price, the price before every step is positive. */
  lemma {:induction false} PositiveBeforeEachStep(h: seq<PricePoint>, base: real, seed: int,
                                                  days: nat, sine: ScaledSine, k: nat)
    requires IsHistory(h, base, seed, days, sine)
    requires 0.0 < base && k <= days
    ensures 0.0 < PriceBefore(h, base, k)
    decreases k
  {
    if k > 0 {
      PositiveBeforeEachStep(h, base, seed, days, sine, k - 1);
      StepWithinTwoPercent(h, base, seed, days, sine, k - 1);
      assert PriceBefore(h, base, k) == h[k - 1].price;
    }
  }

  /** From a positive current price every point is positive, and each step
      moves the price by less than 2% of the price before it. */
  lemma HistoryPositive(h: seq<PricePoint>, base: real, seed: int, days: nat, sine: ScaledSine)
    requires IsHistory(h, base, seed, days, sine)
    requires 0.0 < base
    ensures forall k :: 0 <= k < |h| ==> 0.0 < h[k].price
    ensures forall k :: 0 <= k < days ==>
              0.98 * PriceBefore(h, base, k) <= h[k].price < 1.02 * PriceBefore(h, base, k)
  {
    forall k | 0 <= k < days
      ensures 0.98 * PriceBefore(h, base, k) <= h[k].price < 1.02 * PriceBefore(h, base, k)
    {
      PositiveBeforeEachStep(h, base, seed, days, sine, k);
      StepWithinTwoPercent(h, base, seed, days, sine, k);
    }
    forall k | 0 <= k < |h|
      ensures 0.0 < h[k].price
    {
      PositiveBeforeEachStep(h, base, seed, days, sine, k);
    }
  }
}
