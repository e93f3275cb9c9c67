/** Anti-manipulation surveillance: sliding windows kept by trimming a queue at its old end, the
    rate alerts they drive, and same-account crossing detection. */
module Surveillance {
  import opened Common

  type Key = (string, string)

  // ----- Windows -----

  /** The queue after dropping leading entries before the cutoff. */
  function Trim(times: seq<real>, cutoff: real): seq<real> {
    if times == [] || times[0] >= cutoff then times else Trim(times[1..], cutoff)
  }

  /** The entries at or after the cutoff. */
  function Since(times: seq<real>, cutoff: real): seq<real> {
    if times == [] then []
    else (if times[0] >= cutoff then [times[0]] else []) + Since(times[1..], cutoff)
  }

  predicate Nondecreasing(times: seq<real>) {
    forall i, j :: 0 <= i < j < |times| ==> times[i] <= times[j]
  }

  method TrimTimes(times: seq<real>, cutoff: real) returns (trimmed: seq<real>)
    ensures trimmed == Trim(times, cutoff)
  {
    trimmed := times;
    while trimmed != [] && trimmed[0] < cutoff
      invariant Trim(trimmed, cutoff) == Trim(times, cutoff)
      decreases |trimmed|
    {
      trimmed := trimmed[1..];
    }
  }

  predicate AllSince(times: seq<real>, cutoff: real) {
    times == [] || (times[0] >= cutoff && AllSince(times[1..], cutoff))
  }

  /** Once an entry is at or after the cutoff, so are all entries behind it. */
  predicate NoneBehind(times: seq<real>, cutoff: real) {
    times == [] || if times[0] >= cutoff then AllSince(times[1..], cutoff) else NoneBehind(times[1..], cutoff)
  }

  lemma {:induction false} SinceAll(times: seq<real>, cutoff: real)
    ensures |Since(times, cutoff)| <= |times|
    ensures if AllSince(times, cutoff) then Since(times, cutoff) == times else |Since(times, cutoff)| < |times|
  {
    if times != [] {
      SinceAll(times[1..], cutoff);
    }
  }

  /** Trimming keeps exactly the window if and only if no stale entry sits behind a recent one. */
  lemma {:induction false} TrimExactly(times: seq<real>, cutoff: real)
    ensures Trim(times, cutoff) == Since(times, cutoff) <==> NoneBehind(times, cutoff)
  {
    if times != [] {
      if times[0] >= cutoff {
        SinceAll(times, cutoff);
      } else {
        TrimExactly(times[1..], cutoff);
      }
    }
  }

  lemma {:induction false} SinceKeepsOrder(times: seq<real>, early: real, late: real)
    ensures AllSince(times, late) ==> AllSince(Since(times, early), late)
    ensures NoneBehind(times, late) ==> NoneBehind(Since(times, early), late)
  {
    if times != [] {
      SinceKeepsOrder(times[1..], early, late);
      if times[0] >= early {
        assert ([times[0]] + Since(times[1..], early))[1..] == Since(times[1..], early);
      } else {
        assert [] + Since(times[1..], early) == Since(times[1..], early);
      }
    }
  }

  lemma {:induction false} NondecreasingNoneBehind(times: seq<real>, cutoff: real)
    requires Nondecreasing(times)
    ensures NoneBehind(times, cutoff) && (times != [] && times[0] >= cutoff ==> AllSince(times, cutoff))
  {
    if times != [] {
      assert forall i :: 0 <= i < |times[1..]| ==> times[1..][i] == times[i + 1];
      NondecreasingNoneBehind(times[1..], cutoff);
    }
  }

  /** One record: append the instant, then trim to the window. */
  function Recorded(queue: seq<real>, now: real, window: real): seq<real> {
    Trim(queue + [now], now - window)
  }

  function Run(history: seq<real>, window: real): seq<real> {
    if history == [] then [] else Recorded(Run(history[..|history| - 1], window), history[|history| - 1], window)
  }

  /** Narrowing a window that was already narrowed less. */
  lemma {:induction false} SinceTwice(times: seq<real>, early: real, late: real)
    requires early <= late
    ensures Since(Since(times, early), late) == Since(times, late)
  {
    if times != [] {
      SinceTwice(times[1..], early, late);
      if times[0] >= early {
        assert ([times[0]] + Since(times[1..], early))[1..] == Since(times[1..], early);
      } else {
        assert [] + Since(times[1..], early) == Since(times[1..], early);
      }
    }
  }

  lemma {:induction false} SinceAppend(times: seq<real>, t: real, cutoff: real)
    ensures Since(times + [t], cutoff) == Since(times, cutoff) + if t >= cutoff then [t] else []
  {
    if times == [] {
      assert times + [t] == [t] && [t][1..] == [];
    } else {
      SinceAppend(times[1..], t, cutoff);
      assert (times + [t])[1..] == times[1..] + [t];
    }
  }

  /** In every run at nondecreasing instants the queue is the whole recorded history, filtered to the
      window that ends at the latest record. */
  lemma {:induction false} QueueIsWindow(history: seq<real>, now: real, window: real)
    requires Nondecreasing(history + [now]) && window >= 0.0
    ensures Run(history + [now], window) == Since(history + [now], now - window)
    decreases history, 1
  {
    var all := history + [now];
    var start := PreviousStart(history, now, window);
    assert all[..|history|] == history;
    NondecreasingNoneBehind(all, now - window);
    hide Nondecreasing, Trim, NoneBehind;
    SinceAppend(history, now, start);
    SinceKeepsOrder(all, start, now - window);
    TrimExactly(Since(all, start), now - window);
    SinceTwice(all, start, now - window);
  }

  /** The induction step: where the queue's window started before the latest record. */
  lemma {:induction false} PreviousStart(history: seq<real>, now: real, window: real) returns (start: real)
    requires Nondecreasing(history + [now]) && window >= 0.0
    ensures start <= now - window && Run(history, window) == Since(history, start)
    decreases history, 0
  {
    start := now - window;
    if history != [] {
      var init, before := history[..|history| - 1], history[|history| - 1];
      assert history == init + [before];
      assert (history + [now])[|history| - 1] == before && (history + [now])[|history|] == now;
      assert forall i :: 0 <= i < |history| ==> history[i] == (history + [now])[i];
      QueueIsWindow(init, before, window);
      start := before - window;
    }
  }

  // ----- Same-account crossings -----

  datatype Order = Order(account: string, symbol: string, side: Side, price: real, clientId: string)

  /** An open order of the same account and symbol, on the other side, at the same price. */
  predicate Opposes(existing: Order, order: Order) {
    && existing.account == order.account && existing.symbol == order.symbol
    && existing.side == order.side.Opposite() && existing.price == order.price
  }

  method DetectSelfTrade(open: map<string, Order>, order: Order) returns (alert: bool)
    ensures alert <==> exists id <- open :: open[id].account == order.account && open[id].symbol == order.symbol
                                            && open[id].side != order.side && open[id].price == order.price
  {
    var rest := open.Keys;
    while rest != {}
      invariant rest <= open.Keys
      invariant forall id :: id in open && id !in rest ==> !Opposes(open[id], order)
      decreases |rest|
    {
      var id :| id in rest;
      if Opposes(open[id], order) {
        return true;
      }
      rest := rest - {id};
    }
    return false;
  }

  /** An open order of another account on the same symbol, on the other side, at the same price. */
  predicate Collides(existing: Order, order: Order) {
    && existing.account != order.account && existing.symbol == order.symbol
    && existing.side == order.side.Opposite() && existing.price == order.price
  }

  /** The colliding open orders; each raises one alert. */
  method DetectCollisions(open: map<string, Order>, order: Order) returns (ids: set<string>)
    ensures forall id :: id in ids <==>
                         && id in open && open[id].account != order.account && open[id].symbol == order.symbol
                         && open[id].side != order.side && open[id].price == order.price
  {
    ids := {};
    var rest := open.Keys;
    while rest != {}
      invariant rest <= open.Keys
      invariant forall id :: id in ids <==> id in open && id !in rest && Collides(open[id], order)
      decreases |rest|
    {
      var id :| id in rest;
      if Collides(open[id], order) {
        ids := ids + {id};
      }
      rest := rest - {id};
    }
  }

  // ----- The engine object -----

  function Queue(m: map<Key, seq<real>>, key: Key): seq<real> {
    if key in m then m[key] else []
  }

  /** Every queue is what its history leaves in the window. */
  ghost predicate Tracks(queues: map<Key, seq<real>>, histories: map<Key, seq<real>>, window: real) {
    forall key :: Queue(queues, key) == Run(Queue(histories, key), window)
  }

  /** Recording one instant: the new queue is the true window, and the other queues still track. */
  lemma RecordTracks(queues: map<Key, seq<real>>, histories: map<Key, seq<real>>, window: real, key: Key, now: real,
                     times: seq<real>)
    requires Tracks(queues, histories, window) && window >= 0.0
    requires times == Recorded(Queue(queues, key), now, window) && Nondecreasing(Queue(histories, key) + [now])
    ensures Tracks(queues[key := times], histories[key := Queue(histories, key) + [now]], window)
    ensures times == Since(Queue(histories, key) + [now], now - window)
  {
    hide Nondecreasing, Trim, Since;
    var history := Queue(histories, key) + [now];
    assert history[..|history| - 1] == Queue(histories, key);
    assert Run(history, window) == times;
    QueueIsWindow(Queue(histories, key), now, window);
    var queues', histories' := queues[key := times], histories[key := history];
    forall k ensures Queue(queues', k) == Run(Queue(histories', k), window) {
      if k != key {
        assert Queue(queues, k) == Run(Queue(histories, k), window);
      }
    }
  }

  class AntiManipulationEngine {
    const cancelWindow: real
    const maxCancels: int
    const maxOrdersPerSecond: int
    var openOrders: map<string, Order>
    var orderTimes: map<Key, seq<real>>
    var cancels: map<Key, seq<real>>
    /** Every instant ever recorded, by key. */
    ghost var orderHistory: map<Key, seq<real>>
    ghost var cancelHistory: map<Key, seq<real>>

    ghost predicate Valid()
      reads this
    {
      && cancelWindow >= 0.0
      && Tracks(orderTimes, orderHistory, 1.0)
      && Tracks(cancels, cancelHistory, cancelWindow)
    }

    constructor (cancelWindow: real, maxCancels: int, maxOrdersPerSecond: int)
      requires cancelWindow >= 0.0
      ensures Valid() && orderHistory == map[] && cancelHistory == map[] && openOrders == map[]
      ensures this.cancelWindow == cancelWindow && this.maxCancels == maxCancels
              && this.maxOrdersPerSecond == maxOrdersPerSecond
    {
      this.cancelWindow, this.maxCancels, this.maxOrdersPerSecond := cancelWindow, maxCancels, maxOrdersPerSecond;
      openOrders, orderTimes, cancels := map[], map[], map[];
      orderHistory, cancelHistory := map[], map[];
    }

    /** The spam alert fires exactly when more than the allowed number of all orders ever recorded
        for the account and symbol lie in the second that ends now. */
    method RecordOrder(order: Order, now: real) returns (spam: bool, selfTrade: bool, collisions: set<string>)
      requires Valid() && Nondecreasing(Queue(orderHistory, (order.account, order.symbol)) + [now])
      modifies this
      ensures Valid() && cancels == old(cancels) && cancelHistory == old(cancelHistory)
      ensures openOrders == old(openOrders)[order.clientId := order]
      ensures var key := (order.account, order.symbol);
              && orderHistory == old(orderHistory)[key := old(Queue(orderHistory, key)) + [now]]
              && (spam <==> |Since(orderHistory[key], now - 1.0)| > maxOrdersPerSecond)
      ensures selfTrade <==> exists id <- old(openOrders) ::
                               && old(openOrders)[id].account == order.account
                               && old(openOrders)[id].symbol == order.symbol
                               && old(openOrders)[id].side != order.side && old(openOrders)[id].price == order.price
      ensures forall id :: id in collisions <==>
                           && id in old(openOrders)
                           && old(openOrders)[id].account != order.account && old(openOrders)[id].symbol == order.symbol
                           && old(openOrders)[id].side != order.side && old(openOrders)[id].price == order.price
    {
      hide Tracks, Since, Nondecreasing, Trim;
      var key := (order.account, order.symbol);
      ghost var history := Queue(orderHistory, key) + [now];
      var times := Queue(orderTimes, key) + [now];
      times := TrimTimes(times, now - 1.0);
      RecordTracks(orderTimes, orderHistory, 1.0, key, now, times);
      orderTimes, orderHistory := orderTimes[key := times], orderHistory[key := history];
      spam := |times| > maxOrdersPerSecond;
      selfTrade := DetectSelfTrade(openOrders, order);
      collisions := DetectCollisions(openOrders, order);
      openOrders := openOrders[order.clientId := order];
    }

    /** Likewise for cancellations, over the configured window. */
    method RecordCancel(key: Key, clientId: string, now: real) returns (excessive: bool)
      requires Valid() && Nondecreasing(Queue(cancelHistory, key) + [now])
      modifies this
      ensures Valid() && orderTimes == old(orderTimes) && orderHistory == old(orderHistory)
      ensures openOrders == old(openOrders) - {clientId}
      ensures cancelHistory == old(cancelHistory)[key := old(Queue(cancelHistory, key)) + [now]]
      ensures excessive <==> |Since(cancelHistory[key], now - cancelWindow)| > maxCancels
    {
      hide Tracks, Since, Nondecreasing, Trim;
      openOrders := openOrders - {clientId};
      ghost var history := Queue(cancelHistory, key) + [now];
      var times := Queue(cancels, key) + [now];
      times := TrimTimes(times, now - cancelWindow);
      RecordTracks(cancels, cancelHistory, cancelWindow, key, now, times);
      cancels, cancelHistory := cancels[key := times], cancelHistory[key := history];
      excessive := |times| > maxCancels;
    }
  }
}
