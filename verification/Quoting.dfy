/** Quote generation: spread, skew, price protection, imbalance improvement and the ladder of rungs,
    with the volume-pressure pass. Rounding to eight decimals is any monotone function. */
module Quoting {
  import opened Common
  import opened Ladder

  datatype SpreadSettings = SpreadSettings(base: real, min: real, max: real, volatilityMultiplier: real)

  datatype SizeSettings = SizeSettings(base: real, min: real, max: real, levels: int, multiplier: real)

  datatype LayerSettings = LayerSettings(enabledLevels: int, spacing: real, outerMultiplier: real, maxPerSide: int)

  /** Everything that `build` reads besides its settings. */
  datatype Market = Market(mid: real, spread: real, skew: real, volatilityBuffer: real, imbalance: real)

  function AdjustedSpread(s: SpreadSettings, volatility: real, imbalance: real): real {
    Min(s.max, Max(s.min, s.base + volatility * 10000.0 * s.volatilityMultiplier + Abs(imbalance) * s.base))
  }

  function VolatilityBuffer(volatility: real): real {
    Max(0.0, volatility * 10000.0)
  }

  /** x basis points of a price. */
  function Bps(mid: real, x: real): real {
    mid * x / 10000.0
  }

  function Protect(side: Side, price: real, mid: real, distance: real): real {
    if side.Buy? then Min(price, mid + Bps(mid, distance)) else Max(price, mid - Bps(mid, distance))
  }

  function Improve(side: Side, price: real, mid: real, imbalance: real): real {
    if imbalance > 0.0 && side.Sell? then price - Bps(mid, Abs(imbalance))
    else if imbalance < 0.0 && side.Buy? then price + Bps(mid, Abs(imbalance))
    else price
  }

  function LevelSpread(m: Market, layers: LayerSettings, level: int): real {
    m.spread + layers.spacing * (level - 1) as real * layers.outerMultiplier + m.volatilityBuffer
  }

  /** The price of a rung before rounding. */
  function RungPrice(side: Side, m: Market, layers: LayerSettings, level: int): real {
    var spread := LevelSpread(m, layers, level);
    var raw := if side.Buy? then m.mid - Bps(m.mid, spread / 2.0 + m.skew)
               else m.mid + Bps(m.mid, spread / 2.0 - m.skew);
    Protect(side, Improve(side, raw, m.mid, m.imbalance), m.mid, Max(spread, 1.0))
  }

  function Power(x: real, n: nat): real {
    if n == 0 then 1.0 else x * Power(x, n - 1)
  }

  function RungSize(s: SizeSettings, level: int): real
    requires level >= 1
  {
    Min(s.max, Max(s.min, s.base * Power(s.multiplier, level - 1)))
  }

  function Levels(s: SizeSettings, layers: LayerSettings): int {
    var a := if s.levels < layers.enabledLevels then s.levels else layers.enabledLevels;
    if a < layers.maxPerSide then a else layers.maxPerSide
  }

  ghost predicate Monotone(round: real -> real) {
    forall x, y :: x <= y ==> round(x) <= round(y)
  }

  function RungQuote(side: Side, m: Market, s: SizeSettings, layers: LayerSettings, level: int,
                     round: real -> real, id: (Side, int) -> string): Quote
    requires level >= 1
  {
    Quote(side, round(RungPrice(side, m, layers, level)), RungSize(s, level), level, id(side, level))
  }

  /** Entry i of a ladder: buy and sell alternate, innermost level first. */
  function RungAt(m: Market, s: SizeSettings, layers: LayerSettings, round: real -> real,
                  id: (Side, int) -> string, i: nat): Quote
  {
    RungQuote(if i % 2 == 0 then Buy else Sell, m, s, layers, i / 2 + 1, round, id)
  }

  method Build(m: Market, s: SizeSettings, layers: LayerSettings, round: real -> real, id: (Side, int) -> string)
    returns (quotes: seq<Quote>)
    ensures |quotes| == 2 * (if Levels(s, layers) > 0 then Levels(s, layers) else 0)
    ensures forall i :: 0 <= i < |quotes| ==> quotes[i] == RungAt(m, s, layers, round, id, i)
  {
    quotes := [];
    var level := 1;
    while level <= Levels(s, layers)
      invariant 1 <= level && |quotes| == 2 * (level - 1)
      invariant level <= Levels(s, layers) + 1 || level == 1
      invariant forall i :: 0 <= i < |quotes| ==> quotes[i] == RungAt(m, s, layers, round, id, i)
    {
      var bid := RungPrice(Buy, m, layers, level);
      var ask := RungPrice(Sell, m, layers, level);
      var quantity := RungSize(s, level);
      quotes := quotes + [Quote(Buy, round(bid), quantity, level, id(Buy, level))];
      quotes := quotes + [Quote(Sell, round(ask), quantity, level, id(Sell, level))];
      level := level + 1;
    }
  }

  /** Entry by entry: buy and sell of the first level, then of the second, and so on, each with the rounded
      price and the size of its level. */
  lemma LadderEntries(m: Market, s: SizeSettings, layers: LayerSettings, round: real -> real,
                      id: (Side, int) -> string, k: nat)
    ensures RungAt(m, s, layers, round, id, 2 * k)
            == Quote(Buy, round(RungPrice(Buy, m, layers, k + 1)), RungSize(s, k + 1), k + 1, id(Buy, k + 1))
    ensures RungAt(m, s, layers, round, id, 2 * k + 1)
            == Quote(Sell, round(RungPrice(Sell, m, layers, k + 1)), RungSize(s, k + 1), k + 1, id(Sell, k + 1))
  {
    hide RungPrice, RungSize;
  }

  // ----- Bids never exceed asks -----

  lemma BpsOrdered(mid: real, x: real, y: real)
    requires mid >= 0.0 && x <= y
    ensures Bps(mid, x) <= Bps(mid, y)
  {
    assert mid * (y - x) >= 0.0;
  }

  lemma BpsAdds(mid: real, x: real, y: real)
    ensures Bps(mid, x) + Bps(mid, y) == Bps(mid, x + y) && Bps(mid, x) - Bps(mid, y) == Bps(mid, x - y)
    ensures Bps(mid, 0.0) == 0.0
  {
  }

  lemma BpsStrict(mid: real, x: real, y: real)
    requires mid > 0.0 && x < y
    ensures Bps(mid, x) < Bps(mid, y)
  {
    assert mid * (y - x) > 0.0;
  }

  lemma SpacingNonnegative(layers: LayerSettings, level: int)
    requires layers.spacing >= 0.0 && layers.outerMultiplier >= 0.0 && level >= 1
    ensures layers.spacing * (level - 1) as real * layers.outerMultiplier >= 0.0
  {
    assert layers.spacing * (level - 1) as real >= 0.0;
  }

  /** The inner spread covers the imbalance. */
  predicate Covers(m: Market) {
    m.spread + m.volatilityBuffer >= Abs(m.imbalance)
  }

  lemma RungsUncrossed(m: Market, layers: LayerSettings, i: int, j: int)
    requires m.mid >= 0.0 && layers.spacing >= 0.0 && layers.outerMultiplier >= 0.0 && i >= 1 && j >= 1 && Covers(m)
    ensures RungPrice(Buy, m, layers, i) <= RungPrice(Sell, m, layers, j)
  {
    SpacingNonnegative(layers, i);
    SpacingNonnegative(layers, j);
    var x, y, z := LevelSpread(m, layers, i), LevelSpread(m, layers, j), Abs(m.imbalance);
    hide LevelSpread, Bps;
    BpsAdds(m.mid, x / 2.0 + m.skew, y / 2.0 - m.skew);
    BpsOrdered(m.mid, z, (x / 2.0 + m.skew) + (y / 2.0 - m.skew));
    BpsOrdered(m.mid, 0.0, z);
    BpsAdds(m.mid, 0.0, 0.0);
  }

  /** Uncrossed for every inventory skew exactly when the inner spread covers the imbalance. */
  lemma UncrossedExactly(m: Market, layers: LayerSettings)
    requires m.mid > 0.0 && layers.spacing >= 0.0 && layers.outerMultiplier >= 0.0
    requires m.spread >= 0.0 && m.volatilityBuffer >= 0.0
    ensures Covers(m) <==>
            forall skew, i, j :: i >= 1 && j >= 1 ==>
              RungPrice(Buy, m.(skew := skew), layers, i) <= RungPrice(Sell, m.(skew := skew), layers, j)
  {
    if Covers(m) {
      forall skew, i, j | i >= 1 && j >= 1
        ensures RungPrice(Buy, m.(skew := skew), layers, i) <= RungPrice(Sell, m.(skew := skew), layers, j)
      {
        RungsUncrossed(m.(skew := skew), layers, i, j);
      }
    } else {
      InnerRungCrosses(m, layers);
    }
  }

  lemma InnerRungCrosses(m: Market, layers: LayerSettings)
    requires m.mid > 0.0 && m.spread >= 0.0 && m.volatilityBuffer >= 0.0 && !Covers(m)
    ensures RungPrice(Buy, m.(skew := 0.0), layers, 1) > RungPrice(Sell, m.(skew := 0.0), layers, 1)
  {
    var x, z := m.spread + m.volatilityBuffer, Abs(m.imbalance);
    assert LevelSpread(m.(skew := 0.0), layers, 1) == x;
    hide LevelSpread, Bps;
    BpsAdds(m.mid, x / 2.0, x / 2.0);
    BpsAdds(m.mid, 0.0, x / 2.0);
    BpsAdds(m.mid, z, x / 2.0);
    BpsStrict(m.mid, x, z);
    BpsStrict(m.mid, x / 2.0, z - x / 2.0);
    BpsStrict(m.mid, x / 2.0, Max(x, 1.0));
    BpsOrdered(m.mid, 0.0, x / 2.0);
  }

  /** Every bid of a generated ladder is at or below every ask, and sizes stay within their limits. */
  lemma LadderUncrossed(m: Market, s: SizeSettings, layers: LayerSettings, round: real -> real,
                        id: (Side, int) -> string, i: int, j: int)
    requires m.mid >= 0.0 && layers.spacing >= 0.0 && layers.outerMultiplier >= 0.0 && Covers(m)
    requires s.min <= s.max && Monotone(round) && i >= 1 && j >= 1
    ensures var bid := RungQuote(Buy, m, s, layers, i, round, id);
            var ask := RungQuote(Sell, m, s, layers, j, round, id);
            bid.price <= ask.price && s.min <= bid.quantity <= s.max && s.min <= ask.quantity <= s.max
  {
    RungsUncrossed(m, layers, i, j);
    hide RungPrice, Power;
  }

  /** The configured spread stays in its range, and covers every imbalance up to its minimum. */
  lemma SpreadInRange(s: SpreadSettings, volatility: real, imbalance: real)
    requires s.min <= s.max
    ensures s.min <= AdjustedSpread(s, volatility, imbalance) <= s.max
    ensures forall mid, skew :: Abs(imbalance) <= s.min ==>
              Covers(Market.Market(mid, AdjustedSpread(s, volatility, imbalance), skew, VolatilityBuffer(volatility),
                                   imbalance))
  {
  }

  /** The spread is the base widened by a share of itself for the imbalance and by the weighted volatility
      in basis points, unless that leaves the configured range. */
  lemma SpreadExactly(s: SpreadSettings, volatility: real, imbalance: real)
    requires s.min <= s.max
    ensures var raw := s.base * (1.0 + Abs(imbalance)) + 10000.0 * (volatility * s.volatilityMultiplier);
            AdjustedSpread(s, volatility, imbalance)
            == if raw <= s.min then s.min else if raw >= s.max then s.max else raw
    ensures VolatilityBuffer(volatility) == if volatility > 0.0 then 10000.0 * volatility else 0.0
  {
    assert volatility * 10000.0 * s.volatilityMultiplier == 10000.0 * (volatility * s.volatilityMultiplier);
  }

  /** Skew is a hundred basis points per unit of deviation, times the intensity. */
  lemma SkewExactly(baseRatio: real, targetRatio: real, intensity: real)
    ensures SkewBps(baseRatio, targetRatio, intensity) == 100.0 * (intensity * (baseRatio - targetRatio))
  {
  }

  /** The rung prices in the form the ladder engine computes them: a factor on the mid price, improved by
      the imbalance on the side it favours, and kept within the larger of the level's spread and one basis
      point on the far side of the mid. */
  lemma RungPriceExactly(m: Market, layers: LayerSettings, level: int)
    ensures var spread := m.spread + layers.spacing * (level - 1) as real * layers.outerMultiplier + m.volatilityBuffer;
            var far := m.mid * (if spread < 1.0 then 1.0 else spread) / 10000.0;
            var favour := m.mid * Abs(m.imbalance) / 10000.0;
            var bid := m.mid * (1.0 - (spread / 2.0 + m.skew) / 10000.0) + (if m.imbalance < 0.0 then favour else 0.0);
            var ask := m.mid * (1.0 + (spread / 2.0 - m.skew) / 10000.0) - (if m.imbalance > 0.0 then favour else 0.0);
            && RungPrice(Buy, m, layers, level) == (if bid <= m.mid + far then bid else m.mid + far)
            && RungPrice(Sell, m, layers, level) == (if ask >= m.mid - far then ask else m.mid - far)
  {
    hide RungPrice, Bps, LevelSpread;
    var spread := LevelSpread(m, layers, level);
    SpreadIs(m, layers, level);
    RungPriceForm(m, layers, level);
    FactorForm(m.mid, spread / 2.0 + m.skew);
    FactorForm(m.mid, spread / 2.0 - m.skew);
    BpsIs(m.mid, Abs(m.imbalance));
    BpsIs(m.mid, if spread < 1.0 then 1.0 else spread);
  }

  lemma RungPriceForm(m: Market, layers: LayerSettings, level: int)
    ensures var spread := LevelSpread(m, layers, level);
            var far, favour := Bps(m.mid, if spread < 1.0 then 1.0 else spread), Bps(m.mid, Abs(m.imbalance));
            var bid := m.mid - Bps(m.mid, spread / 2.0 + m.skew) + (if m.imbalance < 0.0 then favour else 0.0);
            var ask := m.mid + Bps(m.mid, spread / 2.0 - m.skew) - (if m.imbalance > 0.0 then favour else 0.0);
            && RungPrice(Buy, m, layers, level) == (if bid <= m.mid + far then bid else m.mid + far)
            && RungPrice(Sell, m, layers, level) == (if ask >= m.mid - far then ask else m.mid - far)
  {
    hide Bps, LevelSpread;
  }

  lemma BpsIs(mid: real, x: real)
    ensures Bps(mid, x) == mid * x / 10000.0
  {
  }

  lemma SpreadIs(m: Market, layers: LayerSettings, level: int)
    ensures LevelSpread(m, layers, level)
            == m.spread + layers.spacing * (level - 1) as real * layers.outerMultiplier + m.volatilityBuffer
  {
  }

  lemma FactorForm(mid: real, x: real)
    ensures mid - Bps(mid, x) == mid * (1.0 - x / 10000.0) && mid + Bps(mid, x) == mid * (1.0 + x / 10000.0)
  {
  }

  /** Quoted spread grows with volatility and with imbalance in either direction. */
  lemma SpreadWidens(s: SpreadSettings, v: real, w: real, i: real, j: real)
    requires s.base >= 0.0 && s.volatilityMultiplier >= 0.0 && v <= w && Abs(i) <= Abs(j)
    ensures AdjustedSpread(s, v, i) <= AdjustedSpread(s, w, j)
  {
    assert (w - v) * s.volatilityMultiplier >= 0.0;
    assert (Abs(j) - Abs(i)) * s.base >= 0.0;
  }

  /** Skew from inventory: the deviation of the base ratio from its target. */
  function SkewBps(baseRatio: real, targetRatio: real, intensity: real): real {
    (baseRatio - targetRatio) * intensity * 100.0
  }

  lemma SkewOrdered(less: real, more: real, target: real, intensity: real)
    requires intensity >= 0.0 && less <= more
    ensures SkewBps(less, target, intensity) <= SkewBps(more, target, intensity)
  {
    assert (more - target) * intensity - (less - target) * intensity == (more - less) * intensity;
    assert (more - less) * intensity >= 0.0;
  }

  /** Quotes lean against the position: holding more of the base asset never raises a rung's price. */
  lemma SkewLeansAgainstInventory(side: Side, m: Market, layers: LayerSettings, level: int,
                                  less: real, more: real, target: real, intensity: real)
    requires m.mid >= 0.0 && intensity >= 0.0 && less <= more
    ensures RungPrice(side, m.(skew := SkewBps(more, target, intensity)), layers, level)
            <= RungPrice(side, m.(skew := SkewBps(less, target, intensity)), layers, level)
  {
    var a, b := SkewBps(less, target, intensity), SkewBps(more, target, intensity);
    SkewOrdered(less, more, target, intensity);
    var x := LevelSpread(m, layers, level);
    assert LevelSpread(m.(skew := a), layers, level) == x && LevelSpread(m.(skew := b), layers, level) == x;
    hide LevelSpread, Bps, SkewBps;
    BpsOrdered(m.mid, x / 2.0 + a, x / 2.0 + b);
    BpsOrdered(m.mid, x / 2.0 - b, x / 2.0 - a);
  }

  lemma {:induction false} PowerGrows(x: real, n: nat)
    requires x >= 1.0
    ensures 1.0 <= Power(x, n) <= Power(x, n + 1)
  {
    if n > 0 {
      PowerGrows(x, n - 1);
    }
    assert (x - 1.0) * Power(x, n) >= 0.0;
  }

  /** The inner rung has the base size, and with a multiplier of at least one sizes never shrink
      outwards. */
  lemma SizesGrowOutwards(s: SizeSettings, level: int)
    requires s.min <= s.base <= s.max && s.base >= 0.0 && s.multiplier >= 1.0 && level >= 1
    ensures RungSize(s, 1) == s.base && RungSize(s, level) <= RungSize(s, level + 1)
  {
    PowerGrows(s.multiplier, level - 1);
    assert s.base * (Power(s.multiplier, level) - Power(s.multiplier, level - 1)) >= 0.0;
  }

  /** Sizes are the base times the multiplier once for every level beyond the first, unless that leaves
      the configured range; the number of levels is the smallest of the three limits. */
  lemma SizesExactly(s: SizeSettings, layers: LayerSettings, level: int)
    requires level >= 1 && s.min <= s.max
    ensures Power(s.multiplier, 0) == 1.0 && Power(s.multiplier, level) == s.multiplier * Power(s.multiplier, level - 1)
    ensures var raw := s.base * Power(s.multiplier, level - 1);
            RungSize(s, level) == if raw <= s.min then s.min else if raw >= s.max then s.max else raw
    ensures Levels(s, layers) <= s.levels && Levels(s, layers) <= layers.enabledLevels
            && Levels(s, layers) <= layers.maxPerSide
    ensures Levels(s, layers) == s.levels || Levels(s, layers) == layers.enabledLevels
            || Levels(s, layers) == layers.maxPerSide
  {
  }

  // ----- Volume pressure -----

  datatype Pressure = Pressure(enabled: bool, sizeMultiplier: real)

  function Pressed(q: Quote, multiplier: real, maxSize: real, bestBid: real, bestAsk: real,
                   round: real -> real): Quote {
    var price := if q.side.Buy? then Min(q.price, bestAsk * 0.999999) else Max(q.price, bestBid * 1.000001);
    q.(price := round(price), quantity := Min(maxSize, q.quantity * multiplier))
  }

  /** `allowed` is the engine's answer on the minimum time between pressure orders. */
  method ApplyVolumePressure(quotes: seq<Quote>, pressure: Pressure, allowed: bool, maxSize: real,
                             bestBid: real, bestAsk: real, round: real -> real) returns (adjusted: seq<Quote>)
    ensures |adjusted| == |quotes|
    ensures forall i :: 0 <= i < |quotes| ==>
              adjusted[i] == if pressure.enabled && pressure.sizeMultiplier != 1.0 && allowed
                             then Pressed(quotes[i], pressure.sizeMultiplier, maxSize, bestBid, bestAsk, round)
                             else quotes[i]
  {
    if !pressure.enabled || pressure.sizeMultiplier == 1.0 || !allowed {
      return quotes;
    }
    adjusted := [];
    for i := 0 to |quotes|
      invariant |adjusted| == i
      invariant forall j :: 0 <= j < i ==>
                  adjusted[j] == Pressed(quotes[j], pressure.sizeMultiplier, maxSize, bestBid, bestAsk, round)
    {
      adjusted := adjusted + [Pressed(quotes[i], pressure.sizeMultiplier, maxSize, bestBid, bestAsk, round)];
    }
  }

  /** The pass keeps rungs, keeps the ladder uncrossed and keeps sizes within the maximum. */
  lemma PressureKeepsLadder(bid: Quote, ask: Quote, multiplier: real, maxSize: real, bestBid: real, bestAsk: real,
                            round: real -> real)
    requires bid.side.Buy? && ask.side.Sell? && bid.price <= ask.price && Monotone(round)
    ensures var b := Pressed(bid, multiplier, maxSize, bestBid, bestAsk, round);
            var a := Pressed(ask, multiplier, maxSize, bestBid, bestAsk, round);
            && b.price <= a.price && b.quantity <= maxSize && a.quantity <= maxSize
            && b.price <= round(bid.price) && a.price >= round(ask.price)
            && forall symbol :: && QuoteKey(symbol, b) == QuoteKey(symbol, bid)
                                && QuoteKey(symbol, a) == QuoteKey(symbol, ask)
  {
    hide LadderKey;
  }

  /** The pass scales every size, up to the maximum, and pulls every price at least a millionth inside the
      opposite side of the book. */
  lemma PressedExactly(q: Quote, multiplier: real, maxSize: real, bestBid: real, bestAsk: real, round: real -> real)
    ensures var r := Pressed(q, multiplier, maxSize, bestBid, bestAsk, round);
            && r.side == q.side && r.level == q.level && r.clientId == q.clientId
            && r.quantity == (if q.quantity * multiplier <= maxSize then q.quantity * multiplier else maxSize)
            && (q.side.Buy? ==> r.price == round(if q.price * 1000000.0 <= bestAsk * 999999.0 then q.price
                                                 else bestAsk * 999999.0 / 1000000.0))
            && (q.side.Sell? ==> r.price == round(if q.price * 1000000.0 >= bestBid * 1000001.0 then q.price
                                                  else bestBid * 1000001.0 / 1000000.0))
  {
  }

  /** The two passes together: whatever the skew and the pressure, the quotes that reach submission
      are uncrossed and no larger than the maximum size. */
  method GenerateQuotes(m: Market, s: SizeSettings, layers: LayerSettings, round: real -> real,
                        id: (Side, int) -> string,
                        pressure: Pressure, allowed: bool, bestBid: real, bestAsk: real) returns (quotes: seq<Quote>)
    requires m.mid >= 0.0 && layers.spacing >= 0.0 && layers.outerMultiplier >= 0.0 && Covers(m)
    requires s.min <= s.max && Monotone(round)
    ensures forall i, j :: 0 <= i < |quotes| && 0 <= j < |quotes| && quotes[i].side.Buy? && quotes[j].side.Sell? ==>
              quotes[i].price <= quotes[j].price
    ensures forall q <- quotes :: q.quantity <= s.max
    ensures |quotes| == 2 * (if Levels(s, layers) > 0 then Levels(s, layers) else 0)
    ensures forall i :: 0 <= i < |quotes| ==>
              quotes[i] == if pressure.enabled && pressure.sizeMultiplier != 1.0 && allowed
                           then Pressed(RungAt(m, s, layers, round, id, i), pressure.sizeMultiplier, s.max, bestBid,
                                        bestAsk, round)
                           else RungAt(m, s, layers, round, id, i)
  {
    hide RungPrice, Power, Levels, Covers, RungSize;
    var built := Build(m, s, layers, round, id);
    quotes := ApplyVolumePressure(built, pressure, allowed, s.max, bestBid, bestAsk, round);
    forall i, j | 0 <= i < |quotes| && 0 <= j < |quotes|
      ensures quotes[i].side.Buy? && quotes[j].side.Sell? ==> quotes[i].price <= quotes[j].price
      ensures quotes[i].quantity <= s.max
    {
      LadderUncrossed(m, s, layers, round, id, i / 2 + 1, j / 2 + 1);
      LadderUncrossed(m, s, layers, round, id, 1, i / 2 + 1);
      if built[i].side.Buy? && built[j].side.Sell? {
        PressureKeepsLadder(built[i], built[j], pressure.sizeMultiplier, s.max, bestBid, bestAsk, round);
      }
    }
  }
}
