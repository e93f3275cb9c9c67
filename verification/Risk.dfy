/** The risk engine: circuit breakers that reset themselves when queried after a cooldown, the kill
    switch, and the order checks. */
module Risk {
  import opened Common

  // ----- Circuit breaker -----

  datatype Breaker = Breaker(threshold: int, cooldown: real, failures: int, openedAt: Option<real>)

  function AfterSuccess(b: Breaker): Breaker {
    b.(failures := 0, openedAt := None)
  }

  function AfterFailure(b: Breaker, now: real): Breaker {
    b.(failures := b.failures + 1, openedAt := if b.failures + 1 >= b.threshold then Some(now) else b.openedAt)
  }

  /** A query; past the cooldown it also resets the breaker. */
  function Queried(b: Breaker, now: real): (Breaker, bool) {
    if b.openedAt.None? then (b, false)
    else if now - b.openedAt.value >= b.cooldown then (AfterSuccess(b), false)
    else (b, true)
  }

  datatype Event = Success | Failure(at: real) | Query(at: real)

  function Step(b: Breaker, e: Event): Breaker {
    match e
    case Success => AfterSuccess(b)
    case Failure(at) => AfterFailure(b, at)
    case Query(at) => Queried(b, at).0
  }

  function Run(b: Breaker, events: seq<Event>): Breaker {
    if events == [] then b else Step(Run(b, events[..|events| - 1]), events[|events| - 1])
  }

  /** At least `threshold` of the failure times, the latest one less than the cooldown ago. */
  predicate Tripped(threshold: int, cooldown: real, times: seq<real>, now: real) {
    |times| >= threshold && times != [] && now - times[|times| - 1] < cooldown
  }

  /** The failure times since the last reset, read off the history alone: a success resets, and so
      does a query that finds enough failures with an expired cooldown. */
  function SinceReset(threshold: int, cooldown: real, events: seq<Event>): seq<real> {
    if events == [] then []
    else
      var before, e := SinceReset(threshold, cooldown, events[..|events| - 1]), events[|events| - 1];
      match e
      case Success => []
      case Failure(at) => before + [at]
      case Query(at) =>
        if |before| >= threshold && before != [] && !Tripped(threshold, cooldown, before, at) then [] else before
  }

  lemma {:induction false} BreakerTracksHistory(threshold: int, cooldown: real, events: seq<Event>)
    requires threshold >= 1
    ensures var b := Run(Breaker(threshold, cooldown, 0, None), events);
            var times := SinceReset(threshold, cooldown, events);
            && b.threshold == threshold && b.cooldown == cooldown
            && b.failures == |times|
            && b.openedAt == if |times| >= threshold then Some(times[|times| - 1]) else None
  {
    if events != [] {
      BreakerTracksHistory(threshold, cooldown, events[..|events| - 1]);
    }
  }

  /** In every run a query answers open exactly when enough failures were recorded since the last
      reset and the latest is recent. */
  lemma QueryExact(threshold: int, cooldown: real, events: seq<Event>, now: real)
    requires threshold >= 1
    ensures Queried(Run(Breaker(threshold, cooldown, 0, None), events), now).1
            <==> Tripped(threshold, cooldown, SinceReset(threshold, cooldown, events), now)
  {
    BreakerTracksHistory(threshold, cooldown, events);
  }

  class CircuitBreaker {
    const name: string
    const threshold: int
    const cooldown: real
    var failures: int
    var openedAt: Option<real>

    function View(): Breaker
      reads this
    {
      Breaker(threshold, cooldown, failures, openedAt)
    }

    constructor (name: string, threshold: int, cooldown: real)
      ensures this.name == name && View() == Breaker(threshold, cooldown, 0, None)
    {
      this.name := name;
      this.threshold, this.cooldown, failures, openedAt := threshold, cooldown, 0, None;
    }

    method RecordSuccess()
      modifies this
      ensures View() == AfterSuccess(old(View()))
    {
      failures, openedAt := 0, None;
    }

    method RecordFailure(now: real)
      modifies this
      ensures View() == AfterFailure(old(View()), now)
    {
      failures := failures + 1;
      if failures >= threshold {
        openedAt := Some(now);
      }
    }

    method IsOpen(now: real) returns (open: bool)
      modifies this
      ensures (View(), open) == Queried(old(View()), now)
    {
      if openedAt.None? {
        return false;
      }
      if now - openedAt.value >= cooldown {
        RecordSuccess();
        return false;
      }
      return true;
    }
  }

  // ----- Order evaluation -----

  datatype Limits = Limits(maxOrderNotional: real, maxPositionQuantity: real, maxPositionNotional: real,
                           maxTotalExposure: real, maxOpenOrders: int, maxDailyLoss: real, breakersEnabled: bool)

  datatype Exposure = Exposure(position: real, total: real, openOrders: int, dailyPnl: real)

  predicate WithinLimits(limits: Limits, price: real, quantity: real, x: Exposure) {
    && price * quantity <= limits.maxOrderNotional
    && quantity <= limits.maxPositionQuantity
    && Abs(x.position) + price * quantity <= limits.maxPositionNotional
    && Abs(x.total) + price * quantity <= limits.maxTotalExposure
    && x.openOrders + 1 <= limits.maxOpenOrders
    && x.dailyPnl > -Abs(limits.maxDailyLoss)
  }

  datatype Violation = OrderNotional | PositionQuantity | PositionNotional | TotalExposure | OpenOrders | DailyLoss
                     | BreakerOpen(name: string)

  predicate Breaks(limits: Limits, price: real, quantity: real, x: Exposure, v: Violation) {
    match v
    case OrderNotional => price * quantity > limits.maxOrderNotional
    case PositionQuantity => quantity > limits.maxPositionQuantity
    case PositionNotional => Abs(x.position) + price * quantity > limits.maxPositionNotional
    case TotalExposure => Abs(x.total) + price * quantity > limits.maxTotalExposure
    case OpenOrders => x.openOrders + 1 > limits.maxOpenOrders
    case DailyLoss => x.dailyPnl <= -Abs(limits.maxDailyLoss)
    case BreakerOpen(_) => false
  }

  lemma WithinExactly(limits: Limits, price: real, quantity: real, x: Exposure)
    ensures WithinLimits(limits, price, quantity, x) <==> forall v :: !Breaks(limits, price, quantity, x, v)
  {
    if forall v :: !Breaks(limits, price, quantity, x, v) {
      assert !Breaks(limits, price, quantity, x, OrderNotional)
             && !Breaks(limits, price, quantity, x, PositionQuantity);
      assert !Breaks(limits, price, quantity, x, PositionNotional)
             && !Breaks(limits, price, quantity, x, TotalExposure);
      assert !Breaks(limits, price, quantity, x, OpenOrders) && !Breaks(limits, price, quantity, x, DailyLoss);
    }
  }

  method LimitViolations(limits: Limits, price: real, quantity: real, x: Exposure) returns (violations: seq<Violation>)
    ensures forall v :: v in violations <==> Breaks(limits, price, quantity, x, v)
  {
    violations := [];
    var notional := price * quantity;
    if notional > limits.maxOrderNotional {
      violations := violations + [OrderNotional];
    }
    if quantity > limits.maxPositionQuantity {
      violations := violations + [PositionQuantity];
    }
    if Abs(x.position) + notional > limits.maxPositionNotional {
      violations := violations + [PositionNotional];
    }
    if Abs(x.total) + notional > limits.maxTotalExposure {
      violations := violations + [TotalExposure];
    }
    if x.openOrders + 1 > limits.maxOpenOrders {
      violations := violations + [OpenOrders];
    }
    if x.dailyPnl <= -Abs(limits.maxDailyLoss) {
      violations := violations + [DailyLoss];
    }
  }

  datatype Verdict = KillSwitchActive | Evaluated(violations: seq<Violation>)

  class RiskEngine {
    const limits: Limits
    var killed: bool
    const breakers: seq<CircuitBreaker>

    ghost predicate Valid()
      reads this
    {
      forall i, j :: 0 <= i < j < |breakers| ==> breakers[i] != breakers[j]
    }

    constructor (limits: Limits, breakers: seq<CircuitBreaker>)
      requires forall i, j :: 0 <= i < j < |breakers| ==> breakers[i] != breakers[j]
      ensures Valid() && !killed && this.breakers == breakers && this.limits == limits
    {
      this.limits, killed, this.breakers := limits, false, breakers;
    }

    method ActivateKillSwitch()
      modifies this
      ensures killed
    {
      killed := true;
    }

    /** Raises when the kill switch is on. Otherwise it names exactly the broken limits and the enabled
        breakers that answer open, so it names none exactly when every limit holds and no breaker
        answers open; each breaker is queried, and may thereby reset. */
    method EvaluateOrder(price: real, quantity: real, x: Exposure, now: real) returns (verdict: Verdict)
      requires Valid()
      modifies breakers
      ensures killed == old(killed)
      ensures verdict.KillSwitchActive? <==> killed
      ensures verdict.Evaluated? ==>
                forall v :: v in verdict.violations <==>
                            || Breaks(limits, price, quantity, x, v)
                            || (limits.breakersEnabled
                                && exists b <- breakers :: v == BreakerOpen(b.name) && Queried(old(b.View()), now).1)
      ensures verdict.Evaluated? ==>
                (verdict.violations == [] <==>
                 && WithinLimits(limits, price, quantity, x)
                 && (limits.breakersEnabled ==> forall b <- breakers :: !Queried(old(b.View()), now).1))
      ensures forall b <- breakers ::
                b.View() == if !killed && limits.breakersEnabled then Queried(old(b.View()), now).0 else old(b.View())
    {
      if killed {
        return KillSwitchActive;
      }
      WithinExactly(limits, price, quantity, x);
      hide Breaks, WithinLimits, Queried;
      var broken := LimitViolations(limits, price, quantity, x);
      var violations := broken;
      if limits.breakersEnabled {
        for i := 0 to |breakers|
          invariant forall v :: v in violations <==>
                                v in broken || exists j :: 0 <= j < i && v == BreakerOpen(breakers[j].name)
                                                           && Queried(old(breakers[j].View()), now).1
          invariant violations == [] <==>
                    broken == [] && forall j :: 0 <= j < i ==> !Queried(old(breakers[j].View()), now).1
          invariant forall j :: 0 <= j < i ==> breakers[j].View() == Queried(old(breakers[j].View()), now).0
          invariant forall j :: i <= j < |breakers| ==> breakers[j].View() == old(breakers[j].View())
        {
          var open := breakers[i].IsOpen(now);
          if open {
            violations := violations + [BreakerOpen(breakers[i].name)];
          }
        }
      }
      assert broken == [] <==> forall v :: v !in broken by {
        if broken != [] { assert broken[0] in broken; }
      }
      verdict := Evaluated(violations);
    }
  }
}
