/** The paper execution engine: open orders, balances, fills and the mirrored order rows.

    Every `PaperOrder` object ever created keeps its place in `orders`; its index there is the
    identity of that placement. The open-order dictionary is `open`, from client id to placement,
    together with `keys`, its insertion order. */
module PaperExecution {
  import opened Common
  import opened Sorting

  datatype Level = Level(price: real, size: real)

  datatype Book = Book(bids: seq<Level>, asks: seq<Level>)

  datatype PaperStatus = NEW | ACKNOWLEDGED | PARTIAL_FILL | FILLED | CANCELLED | REPLACED

  datatype Order = Order(intent: Intent, status: PaperStatus, filled: real,
                         average: Option<real>, createdAt: real)
  {
    function Remaining(): real {
      Max(0.0, intent.quantity - filled)
    }
  }

  /** `placement` is the identity of the order object that the fill was applied to. */
  datatype Fill = Fill(placement: nat, clientId: string, symbol: string, side: Side,
                       price: real, quantity: real, fee: real)

  datatype Account = Account(base: string, quote: string, balances: map<string, real>,
                             realized: real, fees: real)

  datatype Paper = Paper(account: Account, feeBps: real, orders: seq<Order>, open: map<string, nat>,
                         keys: seq<string>, fills: seq<Fill>, table: Table)
  {
    /** Each key is listed once, and is the client id of the placement that it maps to. */
    ghost predicate WellFormed() {
      && NoDuplicates(keys)
      && (forall id :: id in keys <==> id in open)
      && (forall id <- open :: open[id] < |orders| && orders[open[id]].intent.clientId == id)
    }
  }

  const PAPER_ACCOUNT := "paper"

  ghost predicate NoDuplicates(s: seq<string>) {
    forall i, j :: 0 <= i < j < |s| ==> s[i] != s[j]
  }

  /** The elements of s outside `removed`, in order. */
  function Without(s: seq<string>, removed: set<string>): (r: seq<string>)
    ensures forall x :: x in r <==> x in s && x !in removed
    ensures NoDuplicates(s) ==> NoDuplicates(r)
  {
    if s == [] then []
    else if s[0] in removed then Without(s[1..], removed)
    else [s[0]] + Without(s[1..], removed)
  }

  // ----- The stored row -----

  function StoredStatus(status: PaperStatus): OrderStatus {
    match status
    case NEW => Created
    case ACKNOWLEDGED => Open
    case PARTIAL_FILL => PartiallyFilled
    case FILLED => Filled
    case CANCELLED => Cancelled
    case REPLACED => Cancelled
  }

  function Persist(table: Table, order: Order): Table {
    var id := order.intent.clientId;
    var status := StoredStatus(order.status);
    if id in table then
      table[id := table[id].(status := status, price := order.intent.price,
      quantity := order.intent.quantity, filled := order.filled, average := order.average)]
    else
      table[id := Row(PAPER_ACCOUNT, order.intent.side, status, order.intent.price,
      order.intent.quantity, order.filled, order.average)]
  }

  predicate Mirrors(row: Row, order: Order) {
    && row.status == StoredStatus(order.status)
    && row.price == order.intent.price
    && row.quantity == order.intent.quantity
    && row.filled == order.filled
    && row.average == order.average
  }

  // ----- Placing and cancelling -----

  function Accept(p: Paper, intent: Intent, now: real): (r: Paper)
    requires p.WellFormed()
    ensures r.WellFormed()
    ensures intent.clientId in r.open && r.orders[r.open[intent.clientId]].intent == intent
    ensures r.orders[r.open[intent.clientId]].createdAt == now
  {
    var order, id := Order(intent, ACKNOWLEDGED, 0.0, None, now), intent.clientId;
    p.(orders := p.orders + [order],
    open := p.open[id := |p.orders|],
    keys := if id in p.open then p.keys else p.keys + [id],
    table := Persist(p.table, order))
  }

  function PlaceOrder(p: Paper, intent: Intent, book: Option<Book>, now: real): (r: Paper)
    requires p.WellFormed()
    ensures r.WellFormed()
  {
    var accepted := Accept(p, intent, now);
    if book.Some? then SimulateFills(accepted, intent.symbol, book.value) else accepted
  }

  function CancelOrder(p: Paper, id: string): (r: Paper)
    requires p.WellFormed()
    ensures r.WellFormed()
  {
    if id !in p.open then p
    else
      var order := p.orders[p.open[id]].(status := CANCELLED);
      p.(orders := p.orders[p.open[id] := order], open := p.open - {id}, keys := Without(p.keys, {id}),
      table := Persist(p.table, order))
  }

  function ReplaceOrder(p: Paper, id: string, intent: Intent, book: Option<Book>, now: real): (r: Paper)
    requires p.WellFormed()
    ensures r.WellFormed()
  {
    PlaceOrder(CancelOrder(p, id), intent, book, now)
  }

  // ----- Fills -----

  function Fillable(levels: seq<Level>, side: Side, limit: real): seq<Level> {
    if levels == [] then []
    else if (if side.Buy? then levels[0].price <= limit else levels[0].price >= limit)
    then [levels[0]] + Fillable(levels[1..], side, limit)
    else Fillable(levels[1..], side, limit)
  }

  /** The opposite side of the book, best level first. */
  function OppositeLevels(side: Side, book: Book): seq<Level> {
    if side.Buy? then SortBy(book.asks, (l: Level) => l.price)
    else SortBy(book.bids, (l: Level) => -l.price)
  }

  function MatchOrder(order: Order, book: Book): (Option<real>, real) {
    if order.intent.price.None? || order.intent.orderType !in {Limit, PostOnly} then (None, 0.0)
    else
      var fillable := Fillable(OppositeLevels(order.intent.side, book), order.intent.side, order.intent.price.value);
      if fillable == [] then (None, 0.0)
      else (Some(fillable[0].price), Min(order.Remaining(), fillable[0].size))
  }

  function Balance(balances: map<string, real>, asset: string): real {
    if asset in balances then balances[asset] else 0.0
  }

  function Notional(price: real, quantity: real): real {
    price * quantity
  }

  function FeeOf(feeBps: real, price: real, quantity: real): real {
    Notional(price, quantity) * feeBps / 10000.0
  }

  function Settle(account: Account, side: Side, notional: real, quantity: real, fee: real): Account {
    var signed := if side.Buy? then quantity else -quantity;
    var cash := if side.Buy? then -notional else notional;
    var moved := account.balances[account.base := Balance(account.balances, account.base) + signed];
    account.(balances := moved[account.quote := Balance(moved, account.quote) + cash - fee],
    realized := if side.Buy? then account.realized else account.realized + (notional - fee),
    fees := account.fees + fee)
  }

  function AverageAfter(order: Order, price: real, quantity: real): real {
    var total := order.filled + quantity;
    if order.filled == 0.0 || total == 0.0 then price
    else
      var previous := if order.average.None? || order.average.value == 0.0 then price else order.average.value;
      (previous * order.filled + price * quantity) / total
  }

  function FilledOrder(order: Order, price: real, quantity: real): Order {
    var grown := order.(filled := order.filled + quantity, average := Some(AverageAfter(order, price, quantity)));
    grown.(status := if grown.Remaining() <= 0.0 then FILLED else PARTIAL_FILL)
  }

  /** Applies one fill to an open order: account, order, fill list, dictionary and stored row. */
  function ApplyFill(p: Paper, id: string, price: real, quantity: real): (r: Paper)
    requires p.WellFormed() && id in p.open
    ensures r.WellFormed()
  {
    var k := p.open[id];
    var order := p.orders[k];
    var fee := FeeOf(p.feeBps, price, quantity);
    var after := FilledOrder(order, price, quantity);
    p.(account := Settle(p.account, order.intent.side, Notional(price, quantity), quantity, fee),
    orders := p.orders[k := after],
    open := if after.status.FILLED? then p.open - {id} else p.open,
    keys := if after.status.FILLED? then Without(p.keys, {id}) else p.keys,
    fills := p.fills + [Fill(k, id, order.intent.symbol, order.intent.side, price, quantity, fee)],
    table := Persist(p.table, after))
  }

  function FillOne(p: Paper, id: string, symbol: string, book: Book): (r: Paper)
    requires p.WellFormed() && id in p.open
    ensures r.WellFormed()
    ensures p.open.Keys - {id} <= r.open.Keys
  {
    var order := p.orders[p.open[id]];
    if order.intent.symbol != symbol || order.Remaining() <= 0.0 then p
    else
      var (price, quantity) := MatchOrder(order, book);
      if quantity <= 0.0 || price.None? then p else ApplyFill(p, id, price.value, quantity)
  }

  /** The first n entries of a snapshot of the dictionary, offered to the book in turn. */
  function FillUpTo(p: Paper, n: nat, symbol: string, book: Book): (r: Paper)
    requires p.WellFormed() && n <= |p.keys|
    ensures r.WellFormed()
    ensures forall i :: n <= i < |p.keys| ==> p.keys[i] in r.open
  {
    if n == 0 then p else FillOne(FillUpTo(p, n - 1, symbol, book), p.keys[n - 1], symbol, book)
  }

  function SimulateFills(p: Paper, symbol: string, book: Book): (r: Paper)
    requires p.WellFormed()
    ensures r.WellFormed()
  {
    FillUpTo(p, |p.keys|, symbol, book)
  }

  /** What a run starts from: the constructor's arguments and the table already stored. */
  datatype Origin = Origin(cash: real, base: string, quote: string, feeBps: real, table: Table)

  function Fresh(o: Origin): Paper {
    Paper(Account(o.base, o.quote, map[o.quote := o.cash][o.base := 0.0], 0.0, 0.0), o.feeBps, [], map[], [], [],
          o.table)
  }
}
