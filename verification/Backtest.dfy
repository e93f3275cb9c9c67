/** Backtest accounting: replaying events in time order, trading on them, and measuring drawdown.
    The strategy's side and the risk verdict for each replayed event are arbitrary inputs. */
module Backtest {
  import opened Common
  import opened Sorting

  datatype Event = Event(timestamp: real, isTrade: bool, price: real, quantity: real)

  /** What strategy and risk engine answer for an event. */
  datatype Choice = Choice(side: Side, allowed: bool)

  datatype State = State(cash: real, inventory: real, realized: real, fees: real, rejected: nat)

  datatype Result = Result(finalEquity: real, realized: real, inventory: real, fees: real, maxDrawdown: real,
                           decisions: nat, rejected: nat)

  function Replay(events: seq<Event>): seq<Event> {
    SortBy(events, (e: Event) => e.timestamp)
  }

  /** Replaying is a stable sort by time: nothing lost, in time order, ties in their given order. */
  lemma ReplayOrder(events: seq<Event>, instant: real)
    ensures multiset(Replay(events)) == multiset(events)
    ensures Ascending(Replay(events), (e: Event) => e.timestamp)
    ensures WithKey(Replay(events), (e: Event) => e.timestamp, instant)
            == WithKey(events, (e: Event) => e.timestamp, instant)
  {
    SortByFacts(events, (e: Event) => e.timestamp);
    SortByStable(events, (e: Event) => e.timestamp, instant);
  }

  function Equity(s: State, price: real): real {
    s.cash + Value(s.inventory, price)
  }

  function Value(quantity: real, price: real): real {
    quantity * price
  }

  function TradeSize(e: Event): real {
    Min(e.quantity, 0.01)
  }

  /** Whether an event leads to a trade. */
  predicate Executes(e: Event, c: Choice) {
    e.isTrade && c.allowed
  }

  function FeeOf(feeBps: real, e: Event): real {
    Value(TradeSize(e), e.price) * feeBps / 10000.0
  }

  /** Exactly the trades that the risk engine allows are copied. An event trades its own quantity up to a
      hundredth, whatever its sign; the value of a quantity is its product with the price, and the fee the
      rate in basis points of the value traded. */
  lemma TradeTerms(e: Event, c: Choice, feeBps: real, quantity: real, price: real)
    ensures Executes(e, c) <==> e.isTrade && c.allowed
    ensures TradeSize(e) <= 0.01 && TradeSize(e) <= e.quantity && (TradeSize(e) == 0.01 || TradeSize(e) == e.quantity)
    ensures Value(quantity, price) == quantity * price
    ensures FeeOf(feeBps, e) * 10000.0 == feeBps * (TradeSize(e) * e.price)
  {
    assert Value(TradeSize(e), e.price) == TradeSize(e) * e.price;
  }

  /** Sum over the first n events of signed quantity times (mark minus trade price). */
  function TradeGains(replay: seq<Event>, choices: seq<Choice>, n: nat, mark: real): real
    requires n <= |replay| == |choices|
  {
    if n == 0 then 0.0
    else
      var e, c := replay[n - 1], choices[n - 1];
      TradeGains(replay, choices, n - 1, mark) +
      if !Executes(e, c) then 0.0
      else Value(if c.side.Buy? then TradeSize(e) else -TradeSize(e), mark - e.price)
  }

  function TotalFees(replay: seq<Event>, choices: seq<Choice>, n: nat, feeBps: real): real
    requires n <= |replay| == |choices|
  {
    if n == 0 then 0.0
    else TotalFees(replay, choices, n - 1, feeBps) +
         if Executes(replay[n - 1], choices[n - 1]) then FeeOf(feeBps, replay[n - 1]) else 0.0
  }

  /** Sale proceeds net of fees. */
  function Proceeds(replay: seq<Event>, choices: seq<Choice>, n: nat, feeBps: real): real
    requires n <= |replay| == |choices|
  {
    if n == 0 then 0.0
    else
      var e, c := replay[n - 1], choices[n - 1];
      Proceeds(replay, choices, n - 1, feeBps) +
      if Executes(e, c) && c.side.Sell? then Value(TradeSize(e), e.price) - FeeOf(feeBps, e) else 0.0
  }

  /** Bought minus sold quantity. */
  function NetTraded(replay: seq<Event>, choices: seq<Choice>, n: nat): real
    requires n <= |replay| == |choices|
  {
    if n == 0 then 0.0
    else
      var e, c := replay[n - 1], choices[n - 1];
      NetTraded(replay, choices, n - 1) +
      if !Executes(e, c) then 0.0 else if c.side.Buy? then TradeSize(e) else -TradeSize(e)
  }

  /** How many of the first n events were trades that the risk engine refused. */
  function Refused(replay: seq<Event>, choices: seq<Choice>, n: nat): nat
    requires n <= |replay| == |choices|
  {
    if n == 0 then 0
    else Refused(replay, choices, n - 1) + if replay[n - 1].isTrade && !choices[n - 1].allowed then 1 else 0
  }

  /** Equity at a mark after n events, from the events alone. */
  function EquityAfter(replay: seq<Event>, choices: seq<Choice>, cash: real, inventory: real, feeBps: real, n: nat,
                       mark: real): real
    requires n <= |replay| == |choices|
  {
    cash + Value(inventory, mark) + TradeGains(replay, choices, n, mark) - TotalFees(replay, choices, n, feeBps)
  }

  /** The books after n events: equity at any mark is the starting equity at that mark, plus the gains
      of the trades so far, minus fees. */
  ghost predicate Balanced(s: State, cash: real, inventory: real, feeBps: real,
                           replay: seq<Event>, choices: seq<Choice>, n: nat)
    requires n <= |replay| == |choices|
  {
    && (forall mark :: Equity(s, mark) == EquityAfter(replay, choices, cash, inventory, feeBps, n, mark))
    && s.fees == TotalFees(replay, choices, n, feeBps)
    && s.realized == Proceeds(replay, choices, n, feeBps)
    && s.inventory == inventory + NetTraded(replay, choices, n)
  }

  function Trade(s: State, e: Event, side: Side, feeBps: real): State {
    var quantity, notional, fee := TradeSize(e), Value(TradeSize(e), e.price), FeeOf(feeBps, e);
    if side.Buy? then s.(cash := s.cash - (notional + fee), inventory := s.inventory + quantity, fees := s.fees + fee)
    else s.(cash := s.cash + (notional - fee), inventory := s.inventory - quantity,
    realized := s.realized + (notional - fee), fees := s.fees + fee)
  }

  lemma ValueAdds(x: real, y: real, price: real)
    ensures Value(x + y, price) == Value(x, price) + Value(y, price)
    ensures Value(-x, price) == -Value(x, price)
  {
  }

  lemma ValueSplits(x: real, mark: real, price: real)
    ensures Value(x, mark - price) == Value(x, mark) - Value(x, price)
  {
  }

  lemma TradeBalanced(s: State, cash: real, inventory: real, feeBps: real, replay: seq<Event>, choices: seq<Choice>,
                      n: nat)
    requires n < |replay| == |choices| && Balanced(s, cash, inventory, feeBps, replay, choices, n)
    requires Executes(replay[n], choices[n])
    ensures Balanced(Trade(s, replay[n], choices[n].side, feeBps), cash, inventory, feeBps, replay, choices, n + 1)
  {
    var e, side := replay[n], choices[n].side;
    var r := Trade(s, e, side, feeBps);
    hide Value, FeeOf, TradeSize;
    forall mark
      ensures Equity(r, mark) == EquityAfter(replay, choices, cash, inventory, feeBps, n + 1, mark)
    {
      var q := TradeSize(e);
      assert Equity(s, mark) == EquityAfter(replay, choices, cash, inventory, feeBps, n, mark);
      ValueAdds(s.inventory, q, mark);
      ValueAdds(q, 0.0, mark);
      ValueAdds(s.inventory, -q, mark);
      ValueAdds(q, 0.0, e.price);
      ValueSplits(q, mark, e.price);
      ValueSplits(-q, mark, e.price);
    }
  }

  lemma StartBalanced(cash: real, inventory: real, feeBps: real, replay: seq<Event>, choices: seq<Choice>)
    requires |replay| == |choices|
    ensures Balanced(State(cash, inventory, 0.0, 0.0, 0), cash, inventory, feeBps, replay, choices, 0)
  {
  }

  /** An event without a trade, or a refused one, leaves the books as they are. */
  lemma SkipBalanced(s: State, cash: real, inventory: real, feeBps: real, replay: seq<Event>, choices: seq<Choice>,
                     n: nat, rejected: nat)
    requires n < |replay| == |choices| && Balanced(s, cash, inventory, feeBps, replay, choices, n)
    requires !Executes(replay[n], choices[n])
    ensures Balanced(s.(rejected := rejected), cash, inventory, feeBps, replay, choices, n + 1)
  {
    hide Value, FeeOf;
    forall mark ensures Equity(s.(rejected := rejected), mark) == Equity(s, mark) {
    }
  }

  /** `curve` is the equity seen at each event, marked at its price, before trading on it. */
  method Run(events: seq<Event>, choices: seq<Choice>, cash: real, inventory: real, feeBps: real)
    returns (result: Result, curve: seq<real>)
    requires |choices| == |events|
    ensures |Replay(events)| == |events|
    ensures var replay := Replay(events);
            var last := if replay == [] then 0.0 else replay[|replay| - 1].price;
            && result.finalEquity == EquityAfter(replay, choices, cash, inventory, feeBps, |replay|, last)
            && result.fees == TotalFees(replay, choices, |replay|, feeBps)
            && result.realized == Proceeds(replay, choices, |replay|, feeBps)
            && result.inventory == inventory + NetTraded(replay, choices, |replay|)
            && result.rejected == Refused(replay, choices, |replay|)
            && result.decisions == |events|
            && |curve| == |replay|
            && (forall i :: 0 <= i < |curve| ==>
                  curve[i] == EquityAfter(replay, choices, cash, inventory, feeBps, i, replay[i].price))
            && result.maxDrawdown == RunningDrawdown(curve, |curve|)
  {
    hide EquityAfter, TotalFees, Proceeds, NetTraded, RunningDrawdown, Equity, SortBy;
    var replay := Replay(events);
    SortByFacts(events, (e: Event) => e.timestamp);
    StartBalanced(cash, inventory, feeBps, replay, choices);
    var s := State(cash, inventory, 0.0, 0.0, 0);
    curve := [];
    for i := 0 to |replay|
      invariant |curve| == i
      invariant forall k :: 0 <= k < i ==>
                              curve[k] == EquityAfter(replay, choices, cash, inventory, feeBps, k, replay[k].price)
      invariant Balanced(s, cash, inventory, feeBps, replay, choices, i) && s.rejected == Refused(replay, choices, i)
    {
      var e := replay[i];
      curve := curve + [Equity(s, e.price)];
      if !Executes(e, choices[i]) {
        SkipBalanced(s, cash, inventory, feeBps, replay, choices, i, s.rejected);
        SkipBalanced(s, cash, inventory, feeBps, replay, choices, i, s.rejected + 1);
      }
      if e.isTrade {
        if !choices[i].allowed {
          s := s.(rejected := s.rejected + 1);
        } else {
          TradeBalanced(s, cash, inventory, feeBps, replay, choices, i);
          s := Trade(s, e, choices[i].side, feeBps);
        }
      }
    }
    var drawdown := MaxDrawdown(curve);
    var last := if replay == [] then 0.0 else replay[|replay| - 1].price;
    result := Result(Equity(s, last), s.realized, s.inventory, s.fees, drawdown, |replay|, s.rejected);
  }

  // ----- Drawdown -----

  function Drawdown(high: real, equity: real): real
    requires high > 0.0
  {
    (high - equity) / high
  }

  function Peak(curve: seq<real>, n: nat): real
    requires n <= |curve|
  {
    if n == 0 then 0.0 else Max(Peak(curve, n - 1), curve[n - 1])
  }

  /** The largest drawdown from the running peak, over the first n points. */
  function RunningDrawdown(curve: seq<real>, n: nat): real
    requires n <= |curve|
  {
    if n == 0 then 0.0
    else
      var before := RunningDrawdown(curve, n - 1);
      if Peak(curve, n) > 0.0 then Max(before, Drawdown(Peak(curve, n), curve[n - 1])) else before
  }

  method MaxDrawdown(curve: seq<real>) returns (worst: real)
    ensures worst == RunningDrawdown(curve, |curve|)
  {
    var peak := 0.0;
    worst := 0.0;
    for i := 0 to |curve|
      invariant peak == Peak(curve, i) && worst == RunningDrawdown(curve, i)
    {
      peak := Max(peak, curve[i]);
      if peak > 0.0 {
        worst := Max(worst, (peak - curve[i]) / peak);
      }
    }
  }

  lemma ZeroFactor(x: real, y: real)
    requires x * y == 0.0 && y > 0.0
    ensures x == 0.0
  {
  }

  lemma DrawdownRatio(high: real, equity: real)
    requires high > 0.0
    ensures Drawdown(high, equity) == 1.0 - equity / high
  {
    var d, r := Drawdown(high, equity), equity / high;
    assert d * high == high - equity && r * high == equity;
    var x := d - (1.0 - r);
    assert x * high == d * high - (high - r * high);
    ZeroFactor(x, high);
  }

  lemma RatioOrdered(low: real, high: real, equity: real)
    requires 0.0 < low < high
    ensures equity / low >= equity / high <==> equity >= 0.0
  {
    var a, b := equity / low, equity / high;
    assert a * low == equity && b * high == equity;
    assert (a - b) * low == b * (high - low);
  }

  /** Measured from a higher start, a fall to a nonnegative equity is at least as deep; a fall to a
      negative one is strictly less deep. */
  lemma DrawdownFromHigher(low: real, high: real, equity: real)
    requires 0.0 < low < high
    ensures Drawdown(low, equity) <= Drawdown(high, equity) <==> equity >= 0.0
  {
    hide Drawdown;
    DrawdownRatio(low, equity);
    DrawdownRatio(high, equity);
    RatioOrdered(low, high, equity);
  }

  lemma {:induction false} PeakIsHighest(curve: seq<real>, n: nat)
    requires n <= |curve|
    ensures forall i :: 0 <= i < n ==> curve[i] <= Peak(curve, n)
    ensures Peak(curve, n) >= 0.0
    ensures Peak(curve, n) > 0.0 ==> exists i :: 0 <= i < n && curve[i] == Peak(curve, n)
  {
    if n > 0 {
      PeakIsHighest(curve, n - 1);
    }
  }

  /** The point is nonnegative, or no earlier positive equity differs from the peak. */
  ghost predicate PeakSuffices(curve: seq<real>, n: nat)
    requires n < |curve|
  {
    curve[n] >= 0.0 || forall i :: 0 <= i <= n && curve[i] > 0.0 ==> curve[i] == Peak(curve, n + 1)
  }

  /** At one point: the running peak gives the deepest fall from any earlier positive equity exactly
      when the point is nonnegative or no earlier positive equity differs from the peak. */
  lemma PeakIsWorstExactly(curve: seq<real>, n: nat)
    requires n < |curve| && Peak(curve, n + 1) > 0.0
    ensures (forall i :: 0 <= i <= n && curve[i] > 0.0 ==>
                           Drawdown(curve[i], curve[n]) <= Drawdown(Peak(curve, n + 1), curve[n]))
            <==> PeakSuffices(curve, n)
  {
    var peak := Peak(curve, n + 1);
    PeakIsHighest(curve, n + 1);
    hide Peak, Drawdown;
    forall i | 0 <= i <= n && curve[i] > 0.0 && curve[i] != peak
      ensures Drawdown(curve[i], curve[n]) <= Drawdown(peak, curve[n]) <==> curve[n] >= 0.0
    {
      DrawdownFromHigher(curve[i], peak, curve[n]);
    }
  }

  /** d is the drawdown of some pair of points in order, the first positive, or zero. */
  ghost predicate Attained(curve: seq<real>, n: nat, d: real)
    requires n <= |curve|
  {
    d == 0.0 || exists i, j :: 0 <= i <= j < n && curve[i] > 0.0 && d == Drawdown(curve[i], curve[j])
  }

  lemma {:induction false} RunningAttained(curve: seq<real>, n: nat)
    requires n <= |curve|
    ensures Attained(curve, n, RunningDrawdown(curve, n)) && RunningDrawdown(curve, n) >= 0.0
  {
    if n > 0 {
      RunningAttained(curve, n - 1);
      PeakIsHighest(curve, n);
      hide Peak, Drawdown;
    }
  }

  /** Where the peak suffices at every point, as it does on a nonnegative curve, the running-peak
      drawdown is the maximum over all pairs: it is attained by a pair, and no pair falls deeper. */
  lemma {:induction false} RunningIsMaximal(curve: seq<real>, n: nat)
    requires n <= |curve| && forall k :: 0 <= k < n ==> PeakSuffices(curve, k)
    ensures Attained(curve, n, RunningDrawdown(curve, n))
    ensures forall i, j :: 0 <= i <= j < n && curve[i] > 0.0 ==>
                             Drawdown(curve[i], curve[j]) <= RunningDrawdown(curve, n)
  {
    RunningAttained(curve, n);
    if n > 0 {
      RunningIsMaximal(curve, n - 1);
      PeakIsHighest(curve, n);
      if Peak(curve, n) > 0.0 {
        PeakIsWorstExactly(curve, n - 1);
      }
      assert PeakSuffices(curve, n - 1);
      hide Peak, Drawdown, Attained, PeakSuffices;
    }
  }

  /** With a negative equity the running peak can miss the deepest fall. */
  lemma NegativeEquityMissesWorst()
    ensures var curve := [1.0, 2.0, -1.0];
            Drawdown(curve[0], curve[2]) == 2.0 && RunningDrawdown(curve, 3) == 1.5
  {
    var curve := [1.0, 2.0, -1.0];
    assert Peak(curve, 0) == 0.0 && Peak(curve, 1) == 1.0 && Peak(curve, 2) == 2.0 && Peak(curve, 3) == 2.0;
    assert RunningDrawdown(curve, 1) == 0.0;
    assert RunningDrawdown(curve, 2) == 0.0;
  }
}
