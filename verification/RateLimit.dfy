/** The token bucket behind every signed request. */
module RateLimit {
  import opened Common

  datatype Bucket = Bucket(capacity: real, window: real, tokens: real, updatedAt: real) {
    predicate Sound() {
      capacity >= 0.0 && window > 0.0 && 0.0 <= tokens
    }

    /** The level is within the bucket. */
    predicate Valid() {
      Sound() && tokens <= capacity
    }

    function Rate(): real
      requires window > 0.0
    {
      capacity / window
    }

    /** The level at a later instant. */
    function Available(now: real): real
      requires window > 0.0
    {
      Min(capacity, tokens + Refill(now - updatedAt, Rate()))
    }
  }

  function Refill(elapsed: real, rate: real): real {
    elapsed * rate
  }

  /** A request; the source takes any integer. */
  datatype Call = Call(at: real, tokens: int)

  predicate Grants(b: Bucket, c: Call)
    requires b.window > 0.0
  {
    b.Available(c.at) >= c.tokens as real
  }

  function Acquired(b: Bucket, c: Call): (r: Bucket)
    requires b.window > 0.0
    ensures r.window == b.window && r.capacity == b.capacity && r.updatedAt == c.at
  {
    var level := b.Available(c.at);
    b.(tokens := if Grants(b, c) then level - c.tokens as real else level, updatedAt := c.at)
  }

  function Run(b: Bucket, calls: seq<Call>): (r: Bucket)
    requires b.window > 0.0
    ensures r.window == b.window && r.capacity == b.capacity
  {
    if calls == [] then b else Acquired(Run(b, calls[..|calls| - 1]), calls[|calls| - 1])
  }

  /** Net tokens granted by a run to the calls made at instants between s and t. */
  function GrantedWithin(b: Bucket, calls: seq<Call>, s: real, t: real): real
    requires b.window > 0.0
  {
    if calls == [] then 0.0
    else
      var init, c := calls[..|calls| - 1], calls[|calls| - 1];
      GrantedWithin(b, init, s, t) + if s <= c.at <= t && Grants(Run(b, init), c) then c.tokens as real else 0.0
  }

  /** Clock readings never decrease, starting at the bucket's own. */
  ghost predicate Timely(b: Bucket, calls: seq<Call>) {
    && (forall i :: 0 <= i < |calls| ==> b.updatedAt <= calls[i].at)
    && (forall i, j :: 0 <= i < j < |calls| ==> calls[i].at <= calls[j].at)
  }

  lemma RefillAdds(x: real, y: real, rate: real)
    ensures Refill(x, rate) + Refill(y, rate) == Refill(x + y, rate)
  {
  }

  lemma RefillMonotone(x: real, y: real, rate: real)
    requires x <= y && rate >= 0.0
    ensures Refill(x, rate) <= Refill(y, rate)
  {
  }

  lemma RateNonnegative(b: Bucket)
    requires b.Sound()
    ensures b.Rate() >= 0.0
  {
  }

  lemma AcquireFacts(b: Bucket, c: Call)
    requires b.Sound() && b.updatedAt <= c.at
    ensures var r, g := Acquired(b, c), if Grants(b, c) then c.tokens as real else 0.0;
            && r.Sound() && (c.tokens >= 0 ==> r.tokens <= b.capacity)
            && r.tokens + g <= b.capacity && r.tokens + g <= b.tokens + Refill(c.at - b.updatedAt, b.Rate())
            && g <= r.tokens + g
  {
    hide Refill, Bucket.Rate;
    RateNonnegative(b);
    SameRate(b, b);
    RefillMonotone(0.0, c.at - b.updatedAt, b.Rate());
  }

  /** What each call adds to the account: granted tokens plus the level left never exceed what the
      bucket held at the start of the interval plus what has flowed in since. */
  lemma {:induction false} Ledger(b: Bucket, calls: seq<Call>, s: real, t: real)
    requires b.Valid() && Timely(b, calls) && s <= t
    ensures var r, g := Run(b, calls), GrantedWithin(b, calls, s, t);
            && r.Sound() && ((forall c <- calls :: c.tokens >= 0) ==> r.Valid())
            && (calls != [] ==> r.updatedAt == calls[|calls| - 1].at)
            && (calls == [] ==> r.updatedAt == b.updatedAt)
            && (r.updatedAt < s ==> g == 0.0)
            && (s <= r.updatedAt <= t ==> g + r.tokens <= b.capacity + Refill(r.updatedAt - s, b.Rate()))
            && g <= b.capacity + Refill(t - s, b.Rate())
  {
    hide Refill, Bucket.Rate, Bucket.Available, Grants, Acquired;
    RateNonnegative(b);
    SameRate(b, b);
    RefillMonotone(0.0, t - s, b.Rate());
    if calls == [] {
      if s <= b.updatedAt { RefillMonotone(0.0, b.updatedAt - s, b.Rate()); }
    } else {
      var init, c := calls[..|calls| - 1], calls[|calls| - 1];
      assert c in calls && forall d <- init :: d in calls;
      Ledger(b, init, s, t);
      var before := Run(b, init);
      assert before.updatedAt <= c.at;
      SameRate(b, before);
      AcquireFacts(before, c);
      if s <= c.at <= t {
        RefillMonotone(0.0, c.at - s, b.Rate());
        RefillMonotone(c.at - s, t - s, b.Rate());
        RefillAdds(before.updatedAt - s, c.at - before.updatedAt, b.Rate());
      }
    }
  }

  lemma SameRate(b: Bucket, r: Bucket)
    requires b.window > 0.0 && r.window == b.window && r.capacity == b.capacity
    ensures r.Rate() == b.Rate() && Refill(0.0, b.Rate()) == 0.0
  {
  }

  /** The limit: over any interval at most one full bucket plus the inflow of that interval is
      granted, net of negative requests, and without those the stored level never leaves the bucket. */
  lemma IntervalLimit(b: Bucket, calls: seq<Call>, s: real, t: real)
    requires b.Valid() && Timely(b, calls) && s <= t
    ensures (forall c <- calls :: c.tokens >= 0) ==> Run(b, calls).Valid()
    ensures GrantedWithin(b, calls, s, t) <= b.capacity + (t - s) * (b.capacity / b.window)
  {
    hide GrantedWithin, Run, Timely, Min;
    Ledger(b, calls, s, t);
  }

  /** One request keeps the level within the bucket exactly when it gives back no more than is free. */
  lemma AcquiredValidExactly(b: Bucket, c: Call)
    requires b.Valid() && b.updatedAt <= c.at
    ensures Acquired(b, c).Valid() <==> c.tokens as real >= b.Available(c.at) - b.capacity
  {
    RateNonnegative(b);
    hide Bucket.Rate;
    RefillMonotone(0.0, c.at - b.updatedAt, b.Rate());
  }

  // ----- What is granted, exactly -----

  /** Net tokens granted by a run from call i on. */
  function GrantedFrom(b: Bucket, calls: seq<Call>, i: nat): real
    requires b.window > 0.0
  {
    if |calls| <= i then 0.0
    else
      var init, c := calls[..|calls| - 1], calls[|calls| - 1];
      GrantedFrom(b, init, i) + if Grants(Run(b, init), c) then c.tokens as real else 0.0
  }

  /** What flows in over a time: one capacity per window. */
  ghost function Inflow(b: Bucket, elapsed: real): real
    requires b.window > 0.0
  {
    elapsed * (b.capacity / b.window)
  }

  lemma RefillIs(b: Bucket, elapsed: real)
    requires b.window > 0.0
    ensures Refill(elapsed, b.Rate()) == Inflow(b, elapsed)
  {
  }

  /** x more tokens at an instant fit the capacity, what the bucket started with plus all inflow, and
      the capacity plus the inflow since any earlier call. */
  ghost predicate Fits(b: Bucket, calls: seq<Call>, x: real, now: real)
    requires b.window > 0.0
  {
    && x <= b.capacity
    && x + GrantedFrom(b, calls, 0) <= b.tokens + Refill(now - b.updatedAt, b.Rate())
    && forall i :: 0 <= i < |calls| ==> FitsSince(b, calls, i, x, now)
  }

  ghost predicate FitsSince(b: Bucket, calls: seq<Call>, i: nat, x: real, now: real)
    requires b.window > 0.0 && i < |calls|
  {
    x + GrantedFrom(b, calls, i) <= b.capacity + Refill(now - calls[i].at, b.Rate())
  }

  function LastGrant(b: Bucket, calls: seq<Call>): real
    requires b.window > 0.0 && calls != []
  {
    var init, c := calls[..|calls| - 1], calls[|calls| - 1];
    if Grants(Run(b, init), c) then c.tokens as real else 0.0
  }

  lemma GrantedNext(b: Bucket, calls: seq<Call>, i: nat)
    requires b.window > 0.0 && i < |calls|
    ensures GrantedFrom(b, calls, i) == GrantedFrom(b, calls[..|calls| - 1], i) + LastGrant(b, calls)
    ensures i == |calls| - 1 ==> GrantedFrom(b, calls[..|calls| - 1], i) == 0.0
  {
    hide Run, Grants;
  }

  lemma FitsSinceNext(b: Bucket, calls: seq<Call>, i: nat, x: real, now: real)
    requires b.window > 0.0 && i < |calls|
    ensures var init, c := calls[..|calls| - 1], calls[|calls| - 1];
            var y := x + LastGrant(b, calls) - Refill(now - c.at, b.Rate());
            FitsSince(b, calls, i, x, now) <==> if i < |init| then FitsSince(b, init, i, y, c.at) else y <= b.capacity
  {
    hide Refill, Bucket.Rate, Run, Grants, GrantedFrom, LastGrant;
    var init, c := calls[..|calls| - 1], calls[|calls| - 1];
    GrantedNext(b, calls, i);
    RefillAdds(now - c.at, c.at - calls[i].at, b.Rate());
    assert i < |init| ==> init[i] == calls[i];
  }

  /** One more call, taking g tokens at its instant, shifts the condition by g less the inflow since. */
  lemma FitsNext(b: Bucket, calls: seq<Call>, x: real, now: real)
    requires b.window > 0.0 && calls != []
    ensures var init, c := calls[..|calls| - 1], calls[|calls| - 1];
            Fits(b, calls, x, now) <==>
            x <= b.capacity && Fits(b, init, x + LastGrant(b, calls) - Refill(now - c.at, b.Rate()), c.at)
  {
    hide Refill, Bucket.Rate, Run, Grants, FitsSince;
    var init, c := calls[..|calls| - 1], calls[|calls| - 1];
    var y := x + LastGrant(b, calls) - Refill(now - c.at, b.Rate());
    RefillAdds(now - c.at, c.at - b.updatedAt, b.Rate());
    FitsSinceNext(b, calls, |init|, x, now);
    forall i | 0 <= i < |init| ensures FitsSince(b, calls, i, x, now) <==> FitsSince(b, init, i, y, c.at) {
      FitsSinceNext(b, calls, i, x, now);
    }
  }

  /** The level at any instant after any calls, in terms of the history alone. */
  lemma {:induction false} AvailableExactly(b: Bucket, calls: seq<Call>, x: real, now: real)
    requires b.window > 0.0
    ensures x <= Run(b, calls).Available(now) <==> Fits(b, calls, x, now)
  {
    hide Refill, Bucket.Rate, Fits;
    if calls == [] {
      FitsFirst(b, x, now);
    } else {
      var init, c := calls[..|calls| - 1], calls[|calls| - 1];
      var y := x + LastGrant(b, calls) - Refill(now - c.at, b.Rate());
      FitsNext(b, calls, x, now);
      AvailableExactly(b, init, y, c.at);
      SameRate(b, Run(b, init));
      SameRate(b, Run(b, calls));
      assert Run(b, calls).tokens == Run(b, init).Available(c.at) - LastGrant(b, calls);
    }
  }

  lemma FitsFirst(b: Bucket, x: real, now: real)
    requires b.window > 0.0
    ensures Fits(b, [], x, now) <==> x <= b.capacity && x <= b.tokens + Refill(now - b.updatedAt, b.Rate())
  {
  }


  /** A request is granted exactly when it fits the capacity, the starting level plus all inflow, and
      for every earlier call the capacity plus the inflow since, each less what was granted meanwhile.
      The bucket refuses nothing that it can afford, after any calls at any instants. */
  lemma GrantExactly(b: Bucket, calls: seq<Call>, c: Call)
    requires b.window > 0.0
    ensures Grants(Run(b, calls), c) <==>
            && c.tokens as real <= b.capacity
            && c.tokens as real + GrantedFrom(b, calls, 0) <= b.tokens + Inflow(b, c.at - b.updatedAt)
            && forall i :: 0 <= i < |calls| ==>
                             c.tokens as real + GrantedFrom(b, calls, i)
                             <= b.capacity + Inflow(b, c.at - calls[i].at)
  {
    hide Refill, Bucket.Rate, Run, GrantedFrom, FitsSince, Inflow;
    var x := c.tokens as real;
    AvailableExactly(b, calls, x, c.at);
    RefillIs(b, c.at - b.updatedAt);
    forall i | 0 <= i < |calls|
      ensures FitsSince(b, calls, i, x, c.at) <==>
              x + GrantedFrom(b, calls, i) <= b.capacity + Inflow(b, c.at - calls[i].at)
    {
      SinceIs(b, calls, i, x, c.at);
    }
  }

  lemma SinceIs(b: Bucket, calls: seq<Call>, i: nat, x: real, now: real)
    requires b.window > 0.0 && i < |calls|
    ensures FitsSince(b, calls, i, x, now) <==>
            x + GrantedFrom(b, calls, i) <= b.capacity + Inflow(b, now - calls[i].at)
  {
    hide Refill, Bucket.Rate, GrantedFrom, Inflow;
    RefillIs(b, now - calls[i].at);
  }

  /** From a full bucket and at nondecreasing instants, only the capacity and the earlier calls count. */
  lemma FullGrantExactly(b: Bucket, calls: seq<Call>, c: Call)
    requires b.Valid() && b.tokens == b.capacity && Timely(b, calls + [c])
    ensures Grants(Run(b, calls), c) <==>
            && c.tokens as real <= b.capacity
            && forall i :: 0 <= i < |calls| ==>
                             c.tokens as real + GrantedFrom(b, calls, i)
                             <= b.capacity + Inflow(b, c.at - calls[i].at)
  {
    hide Refill, Bucket.Rate, Run, FitsSince, Timely, Inflow;
    var x := c.tokens as real;
    AvailableExactly(b, calls, x, c.at);
    forall i | 0 <= i < |calls|
      ensures FitsSince(b, calls, i, x, c.at) <==>
              x + GrantedFrom(b, calls, i) <= b.capacity + Inflow(b, c.at - calls[i].at)
    {
      SinceIs(b, calls, i, x, c.at);
    }
    if x <= b.capacity && (calls == [] || FitsSince(b, calls, 0, x, c.at)) {
      StartFits(b, calls, c);
    }
  }

  /** From a full bucket the starting level adds no condition. */
  lemma StartFits(b: Bucket, calls: seq<Call>, c: Call)
    requires b.Valid() && b.tokens == b.capacity && Timely(b, calls + [c]) && c.tokens as real <= b.capacity
    requires calls == [] || FitsSince(b, calls, 0, c.tokens as real, c.at)
    ensures c.tokens as real + GrantedFrom(b, calls, 0) <= b.tokens + Refill(c.at - b.updatedAt, b.Rate())
  {
    hide Run, Grants, Refill, Bucket.Rate;
    RateNonnegative(b);
    SameRate(b, b);
    assert (calls + [c])[|calls|] == c;
    RefillMonotone(0.0, c.at - b.updatedAt, b.Rate());
    if calls != [] {
      assert (calls + [c])[0] == calls[0];
      RefillMonotone(c.at - calls[0].at, c.at - b.updatedAt, b.Rate());
    }
  }

  /** A bucket left alone for one window is full. */
  lemma FullAfterWindow(b: Bucket, now: real)
    requires b.Sound() && now - b.updatedAt >= b.window
    ensures b.Available(now) == b.capacity
  {
    hide Refill, Bucket.Rate;
    RateNonnegative(b);
    RefillMonotone(b.window, now - b.updatedAt, b.Rate());
    RefillIs(b, b.window);
    assert Inflow(b, b.window) == b.window * (b.capacity / b.window) == b.capacity;
  }

  // ----- A refused call is invisible to later ones -----

  function Decisions(b: Bucket, calls: seq<Call>): (d: seq<bool>)
    requires b.window > 0.0
    ensures |d| == |calls|
    decreases |calls|
  {
    if calls == [] then [] else [Grants(b, calls[0])] + Decisions(Acquired(b, calls[0]), calls[1..])
  }

  /** Topping up in two stages gives the same level as topping up once. */
  lemma RefusedKeepsLevel(b: Bucket, c: Call, now: real)
    requires b.Sound() && b.updatedAt <= c.at <= now && !Grants(b, c)
    ensures Acquired(b, c).Available(now) == b.Available(now)
  {
    RateNonnegative(b);
    SameRate(b, Acquired(b, c));
    hide Refill, Bucket.Rate;
    RefillAdds(c.at - b.updatedAt, now - c.at, b.Rate());
    RefillMonotone(0.0, now - c.at, b.Rate());
  }

  lemma {:induction false} DecisionsAppend(b: Bucket, first: seq<Call>, second: seq<Call>)
    requires b.window > 0.0
    ensures Decisions(b, first + second) == Decisions(b, first) + Decisions(Run(b, first), second)
    decreases |second|
  {
    if second == [] {
      assert first + second == first;
    } else {
      var one := first + [second[0]];
      assert first + second == one + second[1..];
      DecisionsAppend(b, one, second[1..]);
      assert one[..|first|] == first;
      DecisionsLast(b, first, second[0]);
    }
  }

  lemma {:induction false} DecisionsLast(b: Bucket, calls: seq<Call>, c: Call)
    requires b.window > 0.0
    ensures Decisions(b, calls + [c]) == Decisions(b, calls) + [Grants(Run(b, calls), c)]
    decreases |calls|
  {
    if calls == [] {
      assert calls + [c] == [c] && [c][1..] == [];
    } else {
      assert (calls + [c])[1..] == calls[1..] + [c];
      DecisionsLast(Acquired(b, calls[0]), calls[1..], c);
      RunFirst(b, calls);
    }
  }

  lemma {:induction false} RunFirst(b: Bucket, calls: seq<Call>)
    requires b.window > 0.0 && calls != []
    ensures Run(b, calls) == Run(Acquired(b, calls[0]), calls[1..])
    decreases |calls|
  {
    if |calls| > 1 {
      var init := calls[..|calls| - 1];
      RunFirst(b, init);
      assert calls[1..][..|calls| - 2] == init[1..];
    } else {
      assert calls[..0] == [] && calls[1..] == [];
    }
  }

  /** Striking a refused call out of any run leaves every other decision as it was. */
  lemma RefusedCallIsInvisible(b: Bucket, before: seq<Call>, c: Call, after: seq<Call>)
    requires b.Valid() && Timely(b, before + [c] + after) && !Grants(Run(b, before), c)
    ensures Decisions(b, before + [c] + after) == Decisions(b, before) + [false] + Decisions(Run(b, before), after)
    ensures Decisions(b, before + after) == Decisions(b, before) + Decisions(Run(b, before), after)
  {
    var calls := before + [c] + after;
    var r := Run(b, before);
    assert calls[..|before|] == before && calls[|before|] == c;
    assert Timely(b, before) by { assert forall i :: 0 <= i < |before| ==> before[i] == calls[i]; }
    Ledger(b, before, 0.0, 0.0);
    DecisionsAppend(b, before + [c], after);
    DecisionsLast(b, before, c);
    DecisionsAppend(b, before, after);
    assert (before + [c])[..|before|] == before;
    assert Run(b, before + [c]) == Acquired(r, c);
    if after != [] {
      assert calls[|before| + 1] == after[0];
      if before != [] { assert calls[|before| - 1] == before[|before| - 1]; }
      RefusedKeepsLevel(r, c, after[0].at);
      assert Acquired(Acquired(r, c), after[0]) == Acquired(r, after[0]);
    }
  }

  class AsyncRateLimiter {
    var bucket: Bucket

    constructor (requests: nat, window: real, now: real)
      requires window > 0.0
      ensures bucket == Bucket(requests as real, window, requests as real, now) && bucket.Valid()
    {
      bucket := Bucket(requests as real, window, requests as real, now);
    }

    /** Returns whether the tokens were granted; a refusal is the source's rate-limit error. */
    method Acquire(tokens: int, now: real) returns (granted: bool)
      requires bucket.window > 0.0
      modifies this
      ensures bucket == Acquired(old(bucket), Call(now, tokens)) && granted == Grants(old(bucket), Call(now, tokens))
      ensures var inflow := (now - old(bucket.updatedAt)) * (bucket.capacity / bucket.window);
              granted <==> tokens as real <= bucket.capacity && tokens as real <= old(bucket.tokens) + inflow
      ensures old(bucket.Valid()) && old(bucket.updatedAt) <= now ==>
                (bucket.Valid() <==> tokens as real >= old(bucket).Available(now) - bucket.capacity)
    {
      RefillIs(bucket, now - bucket.updatedAt);
      if bucket.Valid() && bucket.updatedAt <= now {
        AcquiredValidExactly(bucket, Call(now, tokens));
      }
      var elapsed := now - bucket.updatedAt;
      var refill := Refill(elapsed, bucket.capacity / bucket.window);
      bucket := bucket.(tokens := Min(bucket.capacity, bucket.tokens + refill));
      bucket := bucket.(updatedAt := now);
      if bucket.tokens < tokens as real {
        return false;
      }
      bucket := bucket.(tokens := bucket.tokens - tokens as real);
      return true;
    }
  }
}
