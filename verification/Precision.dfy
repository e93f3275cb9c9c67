/** Venue precision: truncating prices and quantities to their increments, and validating intents
    against them. */
module Precision {
  import opened Common

  datatype SymbolPrecision = SymbolPrecision(priceTick: real, quantityStep: real, minQuantity: real, minNotional: real)

  datatype Result<+T> = Ok(value: T) | PrecisionError

  /** The integer part, towards zero. */
  function Truncate(x: real): int {
    if x >= 0.0 then x.Floor else -((-x).Floor)
  }

  function Times(k: int, increment: real): real {
    k as real * increment
  }

  function QuantizeDown(value: real, increment: real): Result<real> {
    if increment <= 0.0 then PrecisionError else Ok(Times(Truncate(value / increment), increment))
  }

  function ApplyPrecision(i: Intent, p: SymbolPrecision): Result<Intent> {
    var quantity := QuantizeDown(i.quantity, p.quantityStep);
    if quantity.PrecisionError? || quantity.value < p.minQuantity then PrecisionError
    else if i.price.None? then Ok(i.(quantity := quantity.value))
    else
      var price := QuantizeDown(i.price.value, p.priceTick);
      if price.PrecisionError? || quantity.value * price.value < p.minNotional then PrecisionError
      else Ok(i.(quantity := quantity.value, price := Some(price.value)))
  }

  /** Whether an intent is accepted as it stands. */
  predicate Validates(i: Intent, p: SymbolPrecision) {
    && i.quantity > 0.0
    && i.quantity >= p.minQuantity
    && QuantizeDown(i.quantity, p.quantityStep) == Ok(i.quantity)
    && (i.price.Some? ==>
          && i.price.value > 0.0
          && QuantizeDown(i.price.value, p.priceTick) == Ok(i.price.value)
          && i.quantity * i.price.value >= p.minNotional)
  }

  lemma DivideMultiple(k: int, increment: real)
    requires increment > 0.0
    ensures Times(k, increment) / increment == k as real
  {
  }

  lemma TruncateInteger(k: int)
    ensures Truncate(k as real) == k
  {
    if k < 0 {
      assert (-(k as real)).Floor == -k;
    }
  }

  lemma TimesOrdered(k: int, x: real, increment: real)
    requires increment > 0.0
    ensures k as real <= x <==> Times(k, increment) <= x * increment
    ensures x <= k as real <==> x * increment <= Times(k, increment)
  {
    if k as real < x {
      assert (x - k as real) * increment > 0.0;
    } else if k as real > x {
      assert (k as real - x) * increment > 0.0;
    }
  }

  lemma TimesNext(k: int, increment: real)
    ensures Times(k + 1, increment) == Times(k, increment) + increment
    ensures Times(k - 1, increment) == Times(k, increment) - increment
    ensures Times(0, increment) == 0.0
  {
  }

  /** The result is the nearest multiple towards zero: a multiple between zero and the value, less
      than one increment away, and no multiple on that side is closer. */
  lemma QuantizeNearest(value: real, increment: real, k: int)
    requires increment > 0.0
    ensures var q := QuantizeDown(value, increment);
            && q.Ok? && (exists j :: q.value == Times(j, increment))
            && (value >= 0.0 ==> 0.0 <= q.value <= value < q.value + increment)
            && (value <= 0.0 ==> q.value - increment < value <= q.value <= 0.0)
            && (0.0 <= Times(k, increment) <= value ==> Times(k, increment) <= q.value)
            && (value <= Times(k, increment) <= 0.0 ==> q.value <= Times(k, increment))
  {
    var x := value / increment;
    var t := Truncate(x);
    TruncateBounds(x, k);
    assert value == x * increment;
    hide Times, Truncate;
    TimesNext(t, increment);
    TimesNext(0, increment);
    TimesOrdered(t, x, increment);
    TimesOrdered(t + 1, x, increment);
    TimesOrdered(t - 1, x, increment);
    TimesOrdered(k, x, increment);
    TimesOrdered(0, x, increment);
    TimesMonotone(k, t, increment);
    TimesMonotone(t, k, increment);
    TimesMonotone(0, t, increment);
    TimesMonotone(t, 0, increment);
    TimesMonotone(0, k, increment);
    TimesMonotone(k, 0, increment);
  }

  lemma TruncateBounds(x: real, k: int)
    ensures x >= 0.0 ==> 0 <= Truncate(x) && Truncate(x) as real <= x < (Truncate(x) + 1) as real
    ensures x <= 0.0 ==> Truncate(x) <= 0 && (Truncate(x) - 1) as real < x <= Truncate(x) as real
    ensures 0 <= k && k as real <= x ==> k <= Truncate(x)
    ensures k <= 0 && x <= k as real ==> Truncate(x) <= k
  {
  }

  lemma TimesMonotone(j: int, k: int, increment: real)
    requires increment > 0.0
    ensures j <= k <==> Times(j, increment) <= Times(k, increment)
  {
    TimesOrdered(j, k as real, increment);
  }

  /** Quantizing twice is quantizing once, for every value and increment. */
  lemma QuantizeIdempotent(value: real, increment: real)
    ensures var q := QuantizeDown(value, increment);
            q.Ok? ==> QuantizeDown(q.value, increment) == q
  {
    hide Times;
    if increment > 0.0 {
      var t := Truncate(value / increment);
      DivideMultiple(t, increment);
      TruncateInteger(t);
    }
  }

  /** A valid intent is left unchanged, so the price that was checked is the price that is sent. */
  lemma ValidIntentUnchanged(i: Intent, p: SymbolPrecision)
    requires Validates(i, p)
    ensures ApplyPrecision(i, p) == Ok(i)
  {
    hide QuantizeDown;
  }

  /** What precision application returns is valid exactly when its quantity and price are positive. */
  lemma AppliedIntentValid(i: Intent, p: SymbolPrecision)
    requires ApplyPrecision(i, p).Ok?
    ensures var j := ApplyPrecision(i, p).value;
            Validates(j, p) <==> j.quantity > 0.0 && (j.price.Some? ==> j.price.value > 0.0)
  {
    QuantizeIdempotent(i.quantity, p.quantityStep);
    if i.price.Some? {
      QuantizeIdempotent(i.price.value, p.priceTick);
    }
    hide QuantizeDown;
  }

  /** value is a whole number of increments. */
  predicate Multiple(value: real, increment: real)
    requires increment > 0.0
  {
    (value / increment).Floor as real == value / increment
  }

  lemma MultipleQuantized(value: real, increment: real)
    requires increment > 0.0
    ensures QuantizeDown(value, increment) == Ok(value) <==> Multiple(value, increment)
  {
    var x := value / increment;
    assert x * increment == value;
    if QuantizeDown(value, increment) == Ok(value) {
      DivideMultiple(Truncate(x), increment);
    }
    if Multiple(value, increment) {
      TruncateInteger(x.Floor);
      assert Times(x.Floor, increment) == value;
    }
  }

  /** Validation accepts exactly the intents whose quantity is a positive whole number of steps, at least
      the minimum, and whose price, if any, is a positive whole number of ticks that makes the notional
      at least the minimum. */
  lemma ValidatesExactly(i: Intent, p: SymbolPrecision)
    requires p.quantityStep > 0.0 && p.priceTick > 0.0
    ensures Validates(i, p) <==>
            && i.quantity > 0.0 && i.quantity >= p.minQuantity && Multiple(i.quantity, p.quantityStep)
            && (i.price.Some? ==> && i.price.value > 0.0 && Multiple(i.price.value, p.priceTick)
                                  && i.quantity * i.price.value >= p.minNotional)
  {
    hide QuantizeDown, Multiple;
    MultipleQuantized(i.quantity, p.quantityStep);
    if i.price.Some? {
      MultipleQuantized(i.price.value, p.priceTick);
    }
  }

  /** Application fails exactly for a nonpositive step or tick, a quantity that falls below its minimum or
      a notional that does; otherwise it changes quantity and price alone, to their quantized values. */
  lemma AppliedExactly(i: Intent, p: SymbolPrecision)
    ensures var q := QuantizeDown(i.quantity, p.quantityStep);
            var x := if i.price.Some? then QuantizeDown(i.price.value, p.priceTick) else PrecisionError;
            var r := ApplyPrecision(i, p);
            && (QuantizeDown(i.quantity, p.quantityStep).Ok? <==> p.quantityStep > 0.0)
            && (r.Ok? <==> && p.quantityStep > 0.0 && q.value >= p.minQuantity
                           && (i.price.Some? ==> p.priceTick > 0.0 && q.value * x.value >= p.minNotional))
            && (r.Ok? ==> r.value == i.(quantity := q.value, price := if i.price.Some? then Some(x.value) else None))
  {
    hide Truncate, Times;
  }
}
