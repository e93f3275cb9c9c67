/** Handling a private message: balance rows, order rows and trades of its payloads in turn, with
    trading pairs created on the way, up to the first payload that raises. */
module PrivateMessages {
  import opened Common
  import opened LiveOrders
  import opened LiveHistory
  import opened PrivateStream

  // ----- What is stored and what is read -----

  datatype Pair = Pair(normalized: string, venue: string)

  datatype Balance = Balance(asset: string, total: real, available: real, reserved: real)

  datatype Records = Records(orders: Table, pairs: set<Pair>, balances: seq<Balance>, trades: map<TradeKey, Json>)

  /** One of the three roles of a payload: it does not have it, it has it but cannot be read, or it
      says this. */
  datatype Part<+T> = Absent | Malformed | Present(value: T)

  datatype OrderUpdate = OrderUpdate(symbol: string, id: string, report: Answer)

  /** `trade` is empty if the payload names no trade; `readable` says whether the rest of the trade
      row can be read. */
  datatype FillUpdate = FillUpdate(order: OrderUpdate, trade: string, readable: bool)

  /** A fill that is unsafe (a wash trade, a self-trade) counts as malformed: both raise at once. */
  datatype Reading = Reading(balance: Part<Balance>, order: Part<OrderUpdate>, fill: Part<FillUpdate>)

  /** The account, the payload readers, and the exchange's symbol for a normalized one, if it lists it. */
  datatype Venue = Venue(account: string, read: Json -> Reading, venueSymbol: string -> Option<string>) {
    /** The trade id of a fill that is not refused outright. */
    function Fill(x: Json): Option<string> {
      if read(x).fill.Present? && read(x).fill.value.trade != "" then Some(read(x).fill.value.trade) else None
    }
  }

  datatype Outcome = Outcome(records: Records, raised: bool)

  // ----- Trading pairs -----

  function Compact(symbol: string): string {
    if symbol == [] then []
    else if symbol[0] == '/' then Compact(symbol[1..])
    else [symbol[0]] + Compact(symbol[1..])
  }

  function Matching(pairs: set<Pair>, symbol: string): set<Pair> {
    set p | p in pairs && (p.normalized == symbol || p.venue == Compact(symbol))
  }

  /** Raises if several pairs match, or none does and none can be made. */
  predicate PairRaises(pairs: set<Pair>, symbol: string, v: Venue) {
    var found := Matching(pairs, symbol);
    |found| > 1 || (|found| == 0 && ('/' !in symbol || v.venueSymbol(symbol).None?))
  }

  function PairsAfter(pairs: set<Pair>, symbol: string, v: Venue): set<Pair> {
    if PairRaises(pairs, symbol, v) || |Matching(pairs, symbol)| == 1 then pairs
    else pairs + {Pair(symbol, v.venueSymbol(symbol).value)}
  }

  // ----- One payload -----

  function WithBalance(r: Records, part: Part<Balance>): Outcome {
    match part
    case Absent => Outcome(r, false)
    case Malformed => Outcome(r, true)
    case Present(b) => Outcome(r.(balances := r.balances + [b]), false)
  }

  function PersistUpdate(r: Records, v: Venue, u: OrderUpdate): Outcome {
    if PairRaises(r.pairs, u.symbol, v) then Outcome(r, true)
    else Outcome(r.(pairs := PairsAfter(r.pairs, u.symbol, v),
                    orders := PersistOrder(r.orders, v.account, u.id, u.report, None)), false)
  }

  function WithOrder(r: Records, v: Venue, part: Part<OrderUpdate>): Outcome {
    match part
    case Absent => Outcome(r, false)
    case Malformed => Outcome(r, true)
    case Present(u) => PersistUpdate(r, v, u)
  }

  /** The order row of a fill is written even if the fill then raises for want of a trade id. */
  function WithFill(r: Records, v: Venue, part: Part<FillUpdate>, x: Json): Outcome {
    match part
    case Absent => Outcome(r, false)
    case Malformed => Outcome(r, true)
    case Present(u) =>
      var persisted := PersistUpdate(r, v, u.order);
      var key := (v.account, u.trade);
      if persisted.raised then persisted
      else if u.trade == "" || (key !in r.trades && !u.readable) then persisted.(raised := true)
      else persisted.(records := persisted.records.(trades := StoreFill(r.trades, v.account, Some(u.trade), x)))
  }

  function HandlePayload(r: Records, v: Venue, x: Json): Outcome {
    var balanced := WithBalance(r, v.read(x).balance);
    if balanced.raised then balanced
    else
      var ordered := WithOrder(balanced.records, v, v.read(x).order);
      if ordered.raised then ordered else WithFill(ordered.records, v, v.read(x).fill, x)
  }

  /** A payload that goes through stores its fill; one that raises stores no trade. */
  lemma PayloadTrades(r: Records, v: Venue, x: Json)
    ensures var after := HandlePayload(r, v, x);
            after.records.trades == if after.raised then r.trades else StoreFill(r.trades, v.account, v.Fill(x), x)
  {
    hide WithFill, PersistUpdate;
    var balanced := WithBalance(r, v.read(x).balance);
    if !balanced.raised {
      UpdateKeepsTrades(balanced.records, v, v.read(x).order);
      FillTrades(WithOrder(balanced.records, v, v.read(x).order).records, v, x);
    }
  }

  lemma UpdateKeepsTrades(r: Records, v: Venue, part: Part<OrderUpdate>)
    ensures WithOrder(r, v, part).records.trades == r.trades
  {
    hide PairRaises, PairsAfter, PersistOrder;
  }

  lemma FillTrades(r: Records, v: Venue, x: Json)
    ensures var after := WithFill(r, v, v.read(x).fill, x);
            after.records.trades == if after.raised then r.trades else StoreFill(r.trades, v.account, v.Fill(x), x)
  {
    hide PairRaises, PairsAfter, PersistOrder;
  }

  /** A payload raises exactly when one of its roles cannot be read or is an unsafe fill, when a symbol gets
      no single trading pair, or when a fill names no trade or one that is not stored and whose row cannot
      be read. */
  lemma PayloadRaisesExactly(r: Records, v: Venue, x: Json)
    ensures var reading := v.read(x);
            var pairs := if reading.order.Present? then PairsAfter(r.pairs, reading.order.value.symbol, v) else r.pairs;
            HandlePayload(r, v, x).raised <==>
            || reading.balance.Malformed? || reading.order.Malformed? || reading.fill.Malformed?
            || (reading.order.Present? && PairRaises(r.pairs, reading.order.value.symbol, v))
            || (reading.fill.Present?
                && (|| PairRaises(pairs, reading.fill.value.order.symbol, v)
                    || reading.fill.value.trade == ""
                    || ((v.account, reading.fill.value.trade) !in r.trades && !reading.fill.value.readable)))
  {
    hide PairRaises, PairsAfter, PersistOrder;
  }

  // ----- One message -----

  /** The payloads in turn. The second result counts those that went through; if it is not all of
      them, the next one raised and ended the message. */
  function HandlePayloads(r: Records, v: Venue, payloads: seq<Json>): (result: (Records, nat))
    ensures result.1 <= |payloads|
    decreases |payloads|
  {
    if payloads == [] then (r, 0)
    else
      var first := HandlePayload(r, v, payloads[0]);
      if first.raised then (first.records, 0)
      else
        var (rest, n) := HandlePayloads(first.records, v, payloads[1..]);
        (rest, n + 1)
  }

  /** The trades after a message are the fills of the payloads that went through, and no others. */
  lemma {:induction false} TradesDelivered(r: Records, v: Venue, payloads: seq<Json>)
    ensures var (after, n) := HandlePayloads(r, v, payloads);
            after.trades == StoreFills(r.trades, v.account, v.Fill, payloads[..n])
    decreases |payloads|
  {
    hide HandlePayload;
    if payloads != [] {
      var first := HandlePayload(r, v, payloads[0]);
      PayloadTrades(r, v, payloads[0]);
      if !first.raised {
        var n := HandlePayloads(first.records, v, payloads[1..]).1;
        TradesDelivered(first.records, v, payloads[1..]);
        assert payloads[..n + 1][1..] == payloads[1..][..n];
      }
    }
  }

  // ----- What a message writes -----

  function OrderOf(u: OrderUpdate): Recording {
    Recording(u.id, u.report, None)
  }

  /** The order rows that a payload writes if it goes through: as an order, then as a fill. */
  function PayloadUpdates(v: Venue, x: Json): seq<Recording> {
    (if v.read(x).order.Present? then [OrderOf(v.read(x).order.value)] else [])
    + (if v.read(x).fill.Present? then [OrderOf(v.read(x).fill.value.order)] else [])
  }

  function PayloadBalances(v: Venue, x: Json): seq<Balance> {
    if v.read(x).balance.Present? then [v.read(x).balance.value] else []
  }

  function AllUpdates(v: Venue, payloads: seq<Json>): seq<Recording> {
    if payloads == [] then [] else PayloadUpdates(v, payloads[0]) + AllUpdates(v, payloads[1..])
  }

  function AllBalances(v: Venue, payloads: seq<Json>): seq<Balance> {
    if payloads == [] then [] else PayloadBalances(v, payloads[0]) + AllBalances(v, payloads[1..])
  }

  lemma UpdateRecords(r: Records, v: Venue, u: OrderUpdate)
    ensures var after := PersistUpdate(r, v, u);
            && after.records.orders == (if after.raised then r.orders else RecordAll(r.orders, v.account, [OrderOf(u)]))
            && after.records.balances == r.balances
  {
    hide PersistOrder, PairRaises, PairsAfter;
    assert [OrderOf(u)][..0] == [] && RecordAll(r.orders, v.account, []) == r.orders;
  }

  /** A payload that goes through writes all its updates; one that raises writes the first m of them. */
  lemma PayloadWrites(r: Records, v: Venue, x: Json) returns (m: nat)
    ensures var after, updates := HandlePayload(r, v, x), PayloadUpdates(v, x);
            && m <= |updates| && (!after.raised ==> m == |updates|)
            && after.records.orders == RecordAll(r.orders, v.account, updates[..m])
            && (if v.read(x).balance.Malformed? then after.raised && after.records == r
                else after.records.balances == r.balances + PayloadBalances(v, x))
  {
    hide PersistUpdate, RecordAll, OrderOf;
    var reading, updates := v.read(x), PayloadUpdates(v, x);
    var balanced := WithBalance(r, reading.balance);
    m := 0;
    NothingRecorded(r.orders, v.account);
    if balanced.raised { return; }
    assert balanced.records.orders == r.orders;
    var now := balanced.records;
    if reading.order.Malformed? { return; }
    if reading.order.Present? {
      UpdateRecords(now, v, reading.order.value);
      var after := PersistUpdate(now, v, reading.order.value);
      if after.raised { return; }
      now, m := after.records, 1;
      assert updates[..1] == [OrderOf(reading.order.value)];
    }
    assert now.orders == RecordAll(r.orders, v.account, updates[..m]);
    if reading.fill.Present? {
      UpdateRecords(now, v, reading.fill.value.order);
      var after := PersistUpdate(now, v, reading.fill.value.order);
      if !after.raised {
        RecordConcat(r.orders, v.account, updates[..m], [OrderOf(reading.fill.value.order)]);
        assert updates[..m + 1] == updates[..m] + [OrderOf(reading.fill.value.order)];
        m := m + 1;
      }
    }
  }

  /** The order rows after a message are those recorded by its payloads in turn, all of those that went
      through and the first m of the one that raised; so are the balance rows. */
  lemma {:induction false} MessageWrites(r: Records, v: Venue, payloads: seq<Json>) returns (m: nat)
    ensures var (after, n) := HandlePayloads(r, v, payloads);
            var last := if n < |payloads| then PayloadUpdates(v, payloads[n]) else [];
            && m <= |last|
            && after.orders == RecordAll(r.orders, v.account, AllUpdates(v, payloads[..n]) + last[..m])
            && after.balances == r.balances + AllBalances(v, payloads[..n])
               + (if n < |payloads| then PayloadBalances(v, payloads[n]) else [])
    decreases |payloads|
  {
    hide HandlePayload, PayloadUpdates, PayloadBalances, RecordAll;
    if payloads == [] {
      m := 0;
      NothingRecorded(r.orders, v.account);
      var none: seq<Recording> := [];
      assert AllUpdates(v, payloads[..0]) + none[..0] == [];
      return;
    }
    var first := HandlePayload(r, v, payloads[0]);
    m := PayloadWrites(r, v, payloads[0]);
    if v.read(payloads[0]).balance.Malformed? { NoBalance(v, payloads[0]); }
    var updates := PayloadUpdates(v, payloads[0]);
    if first.raised {
      assert AllUpdates(v, []) + updates[..m] == updates[..m];
      assert AllBalances(v, payloads[..0]) == [];
      return;
    }
    assert updates[..m] == updates;
    var rest := payloads[1..];
    m := MessageWrites(first.records, v, rest);
    var (after, n) := HandlePayloads(first.records, v, rest);
    var last := if n < |rest| then PayloadUpdates(v, rest[n]) else [];
    RecordConcat(r.orders, v.account, updates, AllUpdates(v, rest[..n]) + last[..m]);
    assert payloads[..n + 1][1..] == rest[..n] && payloads[..n + 1][0] == payloads[0];
    assert updates + (AllUpdates(v, rest[..n]) + last[..m]) == AllUpdates(v, payloads[..n + 1]) + last[..m];
  }

  lemma NoBalance(v: Venue, x: Json)
    requires v.read(x).balance.Malformed?
    ensures PayloadBalances(v, x) == []
  {
  }

  /** So each order row after a message says what was written last under its id, with the terms it
      started from or was first written with. */
  lemma MessageHistory(r: Records, v: Venue, payloads: seq<Json>) returns (m: nat)
    ensures var (after, n) := HandlePayloads(r, v, payloads);
            var last := if n < |payloads| then PayloadUpdates(v, payloads[n]) else [];
            m <= |last| && TableSays(r.orders, v.account, AllUpdates(v, payloads[..n]) + last[..m], after.orders)
  {
    hide HandlePayloads, TableSays, PayloadUpdates;
    m := MessageWrites(r, v, payloads);
    var (after, n) := HandlePayloads(r, v, payloads);
    var last := if n < |payloads| then PayloadUpdates(v, payloads[n]) else [];
    RowHistory(r.orders, v.account, AllUpdates(v, payloads[..n]) + last[..m]);
  }

  // ----- Trading pairs in terms of symbols -----

  lemma {:induction false} CompactConcat(a: string, b: string)
    ensures Compact(a + b) == Compact(a) + Compact(b)
  {
    if a == [] {
      assert a + b == b;
    } else {
      CompactConcat(a[1..], b);
      assert (a + b)[1..] == a[1..] + b && (a + b)[0] == a[0];
    }
  }

  lemma {:induction false} CompactPlain(a: string)
    requires '/' !in a
    ensures Compact(a) == a
  {
    if a != [] {
      CompactPlain(a[1..]);
    }
  }

  lemma CompactSeparator()
    ensures Compact("/") == ""
  {
    assert "/"[1..] == "" && Compact("") == "";
  }

  /** The compact form of a separated symbol runs its two parts together. */
  lemma CompactForm(base: string, quote: string)
    requires '/' !in base && '/' !in quote
    ensures Compact(base + "/" + quote) == base + quote
  {
    hide Compact;
    CompactConcat(base + "/", quote);
    CompactConcat(base, "/");
    CompactPlain(base);
    CompactPlain(quote);
    CompactSeparator();
    assert base + "" == base;
  }

  /** A symbol finds the pair stored under its normalized name, and the one whose exchange name is its
      compact form; with several it raises, with one it changes nothing, with none it makes one from a
      separated symbol that the exchange lists, and raises otherwise. */
  lemma PairExactly(pairs: set<Pair>, symbol: string, v: Venue)
    ensures forall p <- pairs :: p in Matching(pairs, symbol) <==> p.normalized == symbol || p.venue == Compact(symbol)
    ensures PairRaises(pairs, symbol, v) ==> PairsAfter(pairs, symbol, v) == pairs
    ensures !PairRaises(pairs, symbol, v) ==> |Matching(PairsAfter(pairs, symbol, v), symbol)| == 1
    ensures PairsAfter(pairs, symbol, v) != pairs ==>
              && Matching(pairs, symbol) == {} && '/' in symbol && v.venueSymbol(symbol).Some?
              && PairsAfter(pairs, symbol, v) == pairs + {Pair(symbol, v.venueSymbol(symbol).value)}
    ensures PairRaises(pairs, symbol, v) <==>
            || (exists p, q :: p in Matching(pairs, symbol) && q in Matching(pairs, symbol) && p != q)
            || (Matching(pairs, symbol) == {} && ('/' !in symbol || v.venueSymbol(symbol).None?))
  {
    hide Compact;
    var found := Matching(pairs, symbol);
    Several(found);
    if |found| == 0 && !PairRaises(pairs, symbol, v) {
      var made := Pair(symbol, v.venueSymbol(symbol).value);
      assert Matching(pairs + {made}, symbol) == {made};
    }
  }

  lemma Several<T>(s: set<T>)
    ensures |s| > 1 <==> exists p, q :: p in s && q in s && p != q
  {
    if |s| > 1 {
      var p :| p in s;
      assert |s - {p}| > 0;
      var q :| q in s - {p};
      assert p in s && q in s && p != q;
    }
    if p, q :| p in s && q in s && p != q {
      assert {p, q} <= s && |s - {p}| == |s| - 1 && q in s - {p};
    }
  }

  /** A payload that raises ends its message: what is behind it leaves no trace in any table. */
  lemma {:induction false} RaiseDropsRest(r: Records, v: Venue, payloads: seq<Json>, behind: seq<Json>)
    requires HandlePayloads(r, v, payloads).1 < |payloads|
    ensures HandlePayloads(r, v, payloads + behind) == HandlePayloads(r, v, payloads)
    decreases |payloads|
  {
    hide HandlePayload;
    var first := HandlePayload(r, v, payloads[0]);
    if !first.raised {
      RaiseDropsRest(first.records, v, payloads[1..], behind);
      assert (payloads + behind)[1..] == payloads[1..] + behind;
    }
  }

  function HandleMessage(r: Records, v: Venue, message: Json): (result: (Records, nat))
    requires message.Dict?
    ensures result.1 <= |Payloads(message)|
  {
    HandlePayloads(r, v, Payloads(message))
  }

  /** Every payload of the message went through. */
  predicate WentThrough(r: Records, v: Venue, message: Json)
    requires message.Dict?
  {
    HandleMessage(r, v, message).1 == |Payloads(message)|
  }

  // ----- Runs -----

  /** A message, or an order recorded by another route, which may create a trading pair. */
  datatype Event = Deliver(message: Json) | Record(update: OrderUpdate)

  predicate Deliverable(e: Event) {
    e.Deliver? ==> e.message.Dict?
  }

  function Step(r: Records, v: Venue, e: Event): Records
    requires Deliverable(e)
  {
    match e
    case Deliver(message) => HandleMessage(r, v, message).0
    case Record(update) => PersistUpdate(r, v, update).records
  }

  function Run(r: Records, v: Venue, events: seq<Event>): Records
    requires forall e <- events :: Deliverable(e)
    decreases |events|
  {
    if events == [] then r else Run(Step(r, v, events[0]), v, events[1..])
  }

  lemma StepKeepsTrades(r: Records, v: Venue, e: Event)
    requires Deliverable(e)
    ensures var after := Step(r, v, e);
            forall key <- r.trades :: key in after.trades && after.trades[key] == r.trades[key]
  {
    hide Payloads, HandlePayloads, PersistOrder, PairRaises, PairsAfter, StoreFills;
    if e.Deliver? {
      var payloads := Payloads(e.message);
      TradesDelivered(r, v, payloads);
      FirstFillWins(r.trades, v.account, v.Fill, payloads[..HandlePayloads(r, v, payloads).1]);
    }
  }

  lemma DeliverIsHandle(r: Records, v: Venue, message: Json)
    requires message.Dict?
    ensures Step(r, v, Deliver(message)) == HandleMessage(r, v, message).0
  {
    hide HandleMessage;
  }

  /** No run loses or changes a stored trade. */
  lemma {:induction false} TradesKept(r: Records, v: Venue, events: seq<Event>)
    requires forall e <- events :: Deliverable(e)
    ensures var after := Run(r, v, events);
            forall key <- r.trades :: key in after.trades && after.trades[key] == r.trades[key]
    decreases |events|
  {
    hide Step;
    if events != [] {
      StepKeepsTrades(r, v, events[0]);
      TradesKept(Step(r, v, events[0]), v, events[1..]);
    }
  }

  /** In any state, delivering a message stores no trade exactly when every fill among the payloads
      that go through is already stored. */
  lemma ReplayExactly(r: Records, v: Venue, message: Json)
    requires message.Dict?
    ensures var (after, n) := HandleMessage(r, v, message);
            after.trades == r.trades <==> AllStored(r.trades, v.account, v.Fill, Payloads(message)[..n])
  {
    hide Payloads, HandlePayloads, AllStored;
    var payloads := Payloads(message);
    TradesDelivered(r, v, payloads);
    StoresNothingExactly(r.trades, v.account, v.Fill, payloads[..HandlePayloads(r, v, payloads).1]);
  }

  /** After a delivery and whatever happens next, delivering the message again stores no trade unless
      it now gets further than it did. */
  lemma ReplayStoresNothing(r: Records, v: Venue, message: Json, between: seq<Event>)
    requires message.Dict? && forall e <- between :: Deliverable(e)
    ensures var (first, reached) := HandleMessage(r, v, message);
            var later := Run(first, v, between);
            HandleMessage(later, v, message).1 <= reached ==> HandleMessage(later, v, message).0.trades == later.trades
  {
    hide Payloads, HandlePayloads, Run, StoreFills;
    var payloads := Payloads(message);
    var (first, reached) := HandleMessage(r, v, message);
    var later := Run(first, v, between);
    var again := HandleMessage(later, v, message).1;
    TradesDelivered(r, v, payloads);
    FillsStored(r.trades, v.account, v.Fill, payloads[..reached]);
    TradesKept(first, v, between);
    ReplayExactly(later, v, message);
    if again <= reached {
      assert forall x <- payloads[..again] :: x in payloads[..reached];
    }
  }

  /** A message that went through once can be delivered again at any time, whether it then goes
      through or raises, and stores no further trade. */
  lemma ReplayOfThrough(r: Records, v: Venue, message: Json, between: seq<Event>)
    requires message.Dict? && WentThrough(r, v, message) && forall e <- between :: Deliverable(e)
    ensures var later := Run(HandleMessage(r, v, message).0, v, between);
            HandleMessage(later, v, message).0.trades == later.trades
  {
    hide Payloads, HandlePayloads, Run;
    ReplayStoresNothing(r, v, message, between);
  }

  /** A message that raised is another matter. A fill under a compact symbol raises while no pair
      matches; once an order under the normalized symbol has made the pair, redelivery stores it. */
  lemma PairUnlocksFill(r: Records, v: Venue, message: Json, fill: FillUpdate, order: OrderUpdate)
    requires message.Dict? && Payloads(message) == [message]
    requires v.read(message) == Reading(Absent, Absent, Present(fill)) && fill.trade != "" && fill.readable
    requires '/' in order.symbol && v.venueSymbol(order.symbol) == Some(fill.order.symbol)
    requires Compact(order.symbol) == fill.order.symbol && Compact(fill.order.symbol) == fill.order.symbol
    requires '/' !in fill.order.symbol && r.pairs == {} && (v.account, fill.trade) !in r.trades
    ensures var first := HandleMessage(r, v, message).0;
            var later := Run(first, v, [Record(order)]);
            && first == r && later.trades == r.trades
            && HandleMessage(later, v, message).0.trades == r.trades[(v.account, fill.trade) := message]
  {
    hide Payloads, PersistOrder, Compact;
    assert Matching({}, fill.order.symbol) == {} && Matching({}, order.symbol) == {};
    assert HandleMessage(r, v, message).0 == r;
    var pair := Pair(order.symbol, fill.order.symbol);
    var later := Step(r, v, Record(order));
    assert [Record(order)][1..] == [] && Run(r, v, [Record(order)]) == later;
    assert later.pairs == {pair} && later.trades == r.trades;
    assert Matching({pair}, fill.order.symbol) == {pair};
    assert !HandlePayload(later, v, message).raised;
    PayloadTrades(later, v, message);
    OnePayload(later, v, message);
  }

  lemma OnePayload(r: Records, v: Venue, x: Json)
    ensures HandlePayloads(r, v, [x]).0 == HandlePayload(r, v, x).records
  {
    hide HandlePayload;
    assert [x][1..] == [];
  }
}
