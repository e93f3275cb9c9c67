/** What every run of the paper engine keeps: money and inventory are conserved, each placement
    accounts for its own fills, fills respect price limits, and the stored rows mirror the
    dictionary. */
module PaperLaws {
  import opened Common
  import opened Sorting
  import opened PaperExecution

  datatype Event =
    | Place(intent: Intent, book: Option<Book>, now: real)
    | Cancel(id: string)
    | Replace(id: string, intent: Intent, book: Option<Book>, now: real)
    | BookUpdate(symbol: string, update: Book)

  function Step(p: Paper, e: Event): (r: Paper)
    requires p.WellFormed()
    ensures r.WellFormed()
  {
    match e
    case Place(intent, book, now) => PlaceOrder(p, intent, book, now)
    case Cancel(id) => CancelOrder(p, id)
    case Replace(id, intent, book, now) => ReplaceOrder(p, id, intent, book, now)
    case BookUpdate(symbol, book) => SimulateFills(p, symbol, book)
  }

  function Run(p: Paper, events: seq<Event>): (r: Paper)
    requires p.WellFormed()
    ensures r.WellFormed()
  {
    if events == [] then p else Step(Run(p, events[..|events| - 1]), events[|events| - 1])
  }

  // ----- Sums over the fill list -----

  datatype Measure = BoughtQuantity | SoldQuantity | BuyNotional | SellNotional | SellFees | AllFees
                   | QuantityOf(placement: nat) | NotionalOf(placement: nat)

  function Amount(f: Fill, m: Measure): real {
    match m
    case BoughtQuantity => if f.side.Buy? then f.quantity else 0.0
    case SoldQuantity => if f.side.Sell? then f.quantity else 0.0
    case BuyNotional => if f.side.Buy? then f.price * f.quantity else 0.0
    case SellNotional => if f.side.Sell? then f.price * f.quantity else 0.0
    case SellFees => if f.side.Sell? then f.fee else 0.0
    case AllFees => f.fee
    case QuantityOf(k) => if f.placement == k then f.quantity else 0.0
    case NotionalOf(k) => if f.placement == k then f.price * f.quantity else 0.0
  }

  function Sum(fills: seq<Fill>, m: Measure): real {
    if fills == [] then 0.0 else Sum(fills[..|fills| - 1], m) + Amount(fills[|fills| - 1], m)
  }

  lemma SumAppend(fills: seq<Fill>, f: Fill, m: Measure)
    ensures Sum(fills + [f], m) == Sum(fills, m) + Amount(f, m)
  {
    assert (fills + [f])[..|fills|] == fills;
  }

  /** What one fill adds to each sum. */
  lemma FillAmounts(f: Fill)
    ensures Amount(f, BoughtQuantity) == if f.side.Buy? then f.quantity else 0.0
    ensures Amount(f, SoldQuantity) == if f.side.Buy? then 0.0 else f.quantity
    ensures Amount(f, BuyNotional) == if f.side.Buy? then Notional(f.price, f.quantity) else 0.0
    ensures Amount(f, SellNotional) == if f.side.Buy? then 0.0 else Notional(f.price, f.quantity)
    ensures Amount(f, SellFees) == if f.side.Buy? then 0.0 else f.fee
    ensures Amount(f, AllFees) == f.fee
    ensures Amount(f, QuantityOf(f.placement)) == f.quantity
    ensures Amount(f, NotionalOf(f.placement)) == Notional(f.price, f.quantity)
  {
  }

  // ----- Conservation -----

  /** Balances, fees and realized profit are determined by the fills alone. */
  ghost predicate Conserved(p: Paper, cash: real) {
    && Balance(p.account.balances, p.account.base) == Sum(p.fills, BoughtQuantity) - Sum(p.fills, SoldQuantity)
    && Balance(p.account.balances, p.account.quote) + p.account.fees
       == cash - Sum(p.fills, BuyNotional) + Sum(p.fills, SellNotional)
    && p.account.realized == Sum(p.fills, SellNotional) - Sum(p.fills, SellFees)
    && p.account.fees == Sum(p.fills, AllFees)
  }

  lemma ApplyFillConserves(p: Paper, id: string, price: real, quantity: real, cash: real)
    requires p.WellFormed() && id in p.open && p.account.base != p.account.quote
    requires Conserved(p, cash)
    ensures Conserved(ApplyFill(p, id, price, quantity), cash)
  {
    hide Paper.WellFormed, Amount, Notional, FeeOf, Sum, FilledOrder, Persist;
    var r := ApplyFill(p, id, price, quantity);
    var f := r.fills[|p.fills|];
    FillAmounts(f);
    forall m: Measure ensures Sum(r.fills, m) == Sum(p.fills, m) + Amount(f, m) {
      SumAppend(p.fills, f, m);
    }
  }

  // ----- Each placement accounts for its fills -----

  ghost predicate PositivePrices(fills: seq<Fill>, k: nat) {
    forall f <- fills :: f.placement == k ==> f.price > 0.0
  }

  ghost predicate AverageLaw(o: Order, notional: real) {
    if o.filled == 0.0 then o.average == None && notional == 0.0
    else o.average.Some? && o.average.value * o.filled == notional
  }

  ghost predicate Accounted(p: Paper, k: nat)
    requires k < |p.orders|
  {
    var o := p.orders[k];
    && o.filled == Sum(p.fills, QuantityOf(k))
    && 0.0 <= o.filled <= Max(0.0, o.intent.quantity)
    && (PositivePrices(p.fills, k) ==>
          && AverageLaw(o, Sum(p.fills, NotionalOf(k)))
          && (o.filled > 0.0 ==> o.average.value > 0.0))
  }

  predicate WithinLimit(side: Side, price: real, limit: Option<real>) {
    limit.Some? && if side.Buy? then price <= limit.value else price >= limit.value
  }

  /** A fill belongs to its placement, has positive size, and is not worse than the limit. */
  ghost predicate Honest(p: Paper, f: Fill) {
    && f.placement < |p.orders|
    && f.quantity > 0.0
    && f.fee * 10000.0 == f.price * f.quantity * p.feeBps
    && var i := p.orders[f.placement].intent;
       f.clientId == i.clientId && f.symbol == i.symbol && f.side == i.side && WithinLimit(i.side, f.price, i.price)
  }

  /** What the averaging formula does to the law, fill by fill: it survives exactly when the
      stored average is not a zero standing in for a missing one. */
  lemma AverageStep(o: Order, price: real, quantity: real, notional: real)
    requires o.filled >= 0.0 && quantity > 0.0 && AverageLaw(o, notional)
    ensures AverageLaw(FilledOrder(o, price, quantity), notional + Notional(price, quantity))
            <==> o.filled == 0.0 || o.average.value != 0.0 || price == 0.0
  {
    var total := o.filled + quantity;
    var r := AverageAfter(o, price, quantity);
    if o.filled == 0.0 {
      assert r * total == notional + Notional(price, quantity);
    } else {
      var previous := if o.average.value == 0.0 then price else o.average.value;
      DivideThenMultiply(previous * o.filled + price * quantity, total);
      assert r * total == previous * o.filled + Notional(price, quantity);
      if o.average.value == 0.0 {
        assert notional == 0.0;
        assert price * o.filled == 0.0 <==> price == 0.0;
      }
    }
  }

  lemma DivideThenMultiply(x: real, y: real)
    requires y != 0.0
    ensures x / y * y == x
  {
  }

  lemma AveragePositive(o: Order, notional: real)
    requires o.filled > 0.0 && notional > 0.0 && AverageLaw(o, notional)
    ensures o.average.value > 0.0
  {
  }

  lemma {:induction false} NotionalOfPositive(fills: seq<Fill>, k: nat)
    requires PositivePrices(fills, k) && forall f <- fills :: f.quantity > 0.0
    ensures Sum(fills, QuantityOf(k)) >= 0.0 && Sum(fills, NotionalOf(k)) >= 0.0
    ensures Sum(fills, QuantityOf(k)) > 0.0 ==> Sum(fills, NotionalOf(k)) > 0.0
  {
    if fills != [] {
      var init, f := fills[..|fills| - 1], fills[|fills| - 1];
      assert f in fills && forall g <- init :: g in fills;
      NotionalOfPositive(init, k);
      if f.placement == k {
        assert f.price * f.quantity > 0.0;
      }
    }
  }

  // ----- The stored rows -----

  ghost predicate OpenMirrored(p: Paper) {
    forall id <- p.open ::
      && p.open[id] < |p.orders| && p.orders[p.open[id]].status in {ACKNOWLEDGED, PARTIAL_FILL}
      && id in p.table && Mirrors(p.table[id], p.orders[p.open[id]])
  }

  ghost predicate StraysInherited(p: Paper, initial: Table) {
    forall id <- p.table :: p.table[id].status.Active() && id !in p.open ==> id in initial && initial[id] == p.table[id]
  }

  ghost predicate NewRowsPaper(p: Paper, initial: Table) {
    forall id <- p.table :: id !in initial ==> p.table[id].account == PAPER_ACCOUNT
  }

  /** Open orders are live and mirrored; an active row without an open order was already there,
      in the same state, in the table that the run started from. */
  ghost predicate Mirrored(p: Paper, initial: Table) {
    OpenMirrored(p) && StraysInherited(p, initial) && NewRowsPaper(p, initial)
  }

  lemma AcceptMirrored(p: Paper, intent: Intent, now: real, initial: Table)
    requires p.WellFormed() && Mirrored(p, initial)
    ensures Mirrored(Accept(p, intent, now), initial)
  {
    hide NoDuplicates;
  }

  lemma CancelMirrored(p: Paper, id: string, initial: Table)
    requires p.WellFormed() && Mirrored(p, initial)
    ensures Mirrored(CancelOrder(p, id), initial)
  {
    hide NoDuplicates;
  }

  lemma FillOpenMirrored(p: Paper, id: string, price: real, quantity: real)
    requires p.WellFormed() && OpenMirrored(p) && id in p.open
    ensures OpenMirrored(ApplyFill(p, id, price, quantity))
  {
    hide NoDuplicates, AverageAfter, Settle, Notional, FeeOf;
  }

  lemma FillStraysInherited(p: Paper, id: string, price: real, quantity: real, initial: Table)
    requires p.WellFormed() && StraysInherited(p, initial) && id in p.open
    ensures StraysInherited(ApplyFill(p, id, price, quantity), initial)
  {
    hide NoDuplicates, AverageAfter, Settle, Notional, FeeOf;
  }

  lemma FillNewRowsPaper(p: Paper, id: string, price: real, quantity: real, initial: Table)
    requires p.WellFormed() && NewRowsPaper(p, initial) && id in p.open
    ensures NewRowsPaper(ApplyFill(p, id, price, quantity), initial)
  {
    hide NoDuplicates, AverageAfter, Settle, Notional, FeeOf;
  }

  lemma FillMirrored(p: Paper, id: string, price: real, quantity: real, initial: Table)
    requires p.WellFormed() && Mirrored(p, initial) && id in p.open
    ensures Mirrored(ApplyFill(p, id, price, quantity), initial)
  {
    hide Paper.WellFormed, OpenMirrored, StraysInherited, NewRowsPaper, ApplyFill;
    FillOpenMirrored(p, id, price, quantity);
    FillStraysInherited(p, id, price, quantity, initial);
    FillNewRowsPaper(p, id, price, quantity, initial);
  }

  // ----- The run invariant -----

  ghost predicate AllAccounted(p: Paper) {
    forall k :: 0 <= k < |p.orders| ==> Accounted(p, k)
  }

  ghost predicate AllHonest(p: Paper) {
    forall f <- p.fills :: Honest(p, f)
  }

  ghost predicate Lawful(p: Paper, origin: Origin) {
    && p.WellFormed()
    && p.account.base == origin.base && p.account.quote == origin.quote && p.feeBps == origin.feeBps
    && (origin.base != origin.quote ==> Conserved(p, origin.cash))
    && AllAccounted(p)
    && AllHonest(p)
    && Mirrored(p, origin.table)
  }

  lemma {:induction false} SumOfLater(fills: seq<Fill>, k: nat)
    requires forall f <- fills :: f.placement != k
    ensures Sum(fills, QuantityOf(k)) == 0.0 && Sum(fills, NotionalOf(k)) == 0.0
  {
    if fills != [] {
      var init, f := fills[..|fills| - 1], fills[|fills| - 1];
      assert f in fills && forall g <- init :: g in fills;
      SumOfLater(init, k);
    }
  }

  /** Steps that neither trade nor alter intents keep every order accounted and every fill honest. */
  lemma WithoutTrading(p: Paper, r: Paper)
    requires AllAccounted(p) && AllHonest(p) && r.fills == p.fills && r.feeBps == p.feeBps
    requires |p.orders| <= |r.orders|
    requires forall k :: 0 <= k < |p.orders| ==> r.orders[k].(status := NEW) == p.orders[k].(status := NEW)
    requires forall k :: |p.orders| <= k < |r.orders| ==> r.orders[k].filled == 0.0 && r.orders[k].average == None
    ensures AllAccounted(r) && AllHonest(r)
  {
    forall k | 0 <= k < |r.orders| ensures Accounted(r, k) {
      if k < |p.orders| {
        assert Accounted(p, k) && r.orders[k].(status := NEW) == p.orders[k].(status := NEW);
      } else {
        forall f <- p.fills ensures f.placement != k { assert Honest(p, f); }
        SumOfLater(p.fills, k);
      }
    }
    forall f <- r.fills ensures Honest(r, f) {
      assert Honest(p, f);
      var k := f.placement;
      assert r.orders[k].(status := NEW) == p.orders[k].(status := NEW);
    }
  }

  lemma AcceptLawful(p: Paper, intent: Intent, now: real, origin: Origin)
    requires Lawful(p, origin)
    ensures Lawful(Accept(p, intent, now), origin)
  {
    AcceptMirrored(p, intent, now, origin.table);
    hide Paper.WellFormed, Mirrored, Persist, AllAccounted, AllHonest;
    WithoutTrading(p, Accept(p, intent, now));
  }

  lemma CancelLawful(p: Paper, id: string, origin: Origin)
    requires Lawful(p, origin)
    ensures Lawful(CancelOrder(p, id), origin)
  {
    CancelMirrored(p, id, origin.table);
    assert id in p.open ==> p.open[id] < |p.orders|;
    hide Paper.WellFormed, Mirrored, Persist, AllAccounted, AllHonest;
    WithoutTrading(p, CancelOrder(p, id));
  }

  lemma FillAccountsOther(p: Paper, id: string, price: real, quantity: real, k: nat)
    requires p.WellFormed() && id in p.open && k < |p.orders| && Accounted(p, k) && k != p.open[id]
    ensures Accounted(ApplyFill(p, id, price, quantity), k)
  {
    var r := ApplyFill(p, id, price, quantity);
    hide Paper.WellFormed, Persist, Settle, FilledOrder;
    var f := r.fills[|p.fills|];
    SumAppend(p.fills, f, QuantityOf(k));
    SumAppend(p.fills, f, NotionalOf(k));
    assert forall g <- p.fills :: g in r.fills;
  }

  lemma FillAccountsSelf(p: Paper, id: string, price: real, quantity: real)
    requires p.WellFormed() && id in p.open && Accounted(p, p.open[id])
    requires forall f <- p.fills :: f.quantity > 0.0
    requires 0.0 < quantity <= p.orders[p.open[id]].Remaining()
    ensures Accounted(ApplyFill(p, id, price, quantity), p.open[id])
  {
    var r, k := ApplyFill(p, id, price, quantity), p.open[id];
    hide Persist, Settle, AverageAfter, Notional, Amount;
    var o, after, f := p.orders[k], r.orders[k], r.fills[|p.fills|];
    assert after == FilledOrder(o, price, quantity) && r.fills == p.fills + [f] && f.placement == k;
    FillAmounts(f);
    assert after.filled == o.filled + quantity && after.intent == o.intent && Amount(f, QuantityOf(k)) == quantity;
    hide Paper.WellFormed, ApplyFill, FilledOrder, AverageLaw, Notional, Amount;
    SumAppend(p.fills, f, QuantityOf(k));
    SumAppend(p.fills, f, NotionalOf(k));
    if PositivePrices(r.fills, k) {
      assert f in r.fills && forall g <- p.fills :: g in r.fills;
      AverageStep(o, price, quantity, Sum(p.fills, NotionalOf(k)));
      NotionalOfPositive(r.fills, k);
      AveragePositive(after, Sum(r.fills, NotionalOf(k)));
    }
  }

  lemma FillHonest(p: Paper, id: string, price: real, quantity: real)
    requires p.WellFormed() && id in p.open && AllHonest(p) && quantity > 0.0
    requires WithinLimit(p.orders[p.open[id]].intent.side, price, p.orders[p.open[id]].intent.price)
    ensures AllHonest(ApplyFill(p, id, price, quantity))
  {
    hide NoDuplicates, Persist, Settle, AverageAfter;
    var r := ApplyFill(p, id, price, quantity);
    forall f <- r.fills ensures Honest(r, f) {
      if f in p.fills { assert Honest(p, f); }
    }
  }

  lemma FillLawful(p: Paper, id: string, price: real, quantity: real, origin: Origin)
    requires Lawful(p, origin) && id in p.open
    requires p.open[id] < |p.orders| && 0.0 < quantity <= p.orders[p.open[id]].Remaining()
    requires WithinLimit(p.orders[p.open[id]].intent.side, price, p.orders[p.open[id]].intent.price)
    ensures Lawful(ApplyFill(p, id, price, quantity), origin)
  {
    var r := ApplyFill(p, id, price, quantity);
    hide Paper.WellFormed, Accounted, Conserved, Honest, Mirrored, Persist, FilledOrder;
    if origin.base != origin.quote {
      ApplyFillConserves(p, id, price, quantity, origin.cash);
    }
    FillMirrored(p, id, price, quantity, origin.table);
    FillHonest(p, id, price, quantity);
    forall k | 0 <= k < |r.orders| ensures Accounted(r, k) {
      if k != p.open[id] {
        FillAccountsOther(p, id, price, quantity, k);
      } else {
        QuantitiesPositive(p);
        FillAccountsSelf(p, id, price, quantity);
      }
    }
  }

  lemma QuantitiesPositive(p: Paper)
    requires AllHonest(p)
    ensures forall f <- p.fills :: f.quantity > 0.0
  {
    forall f <- p.fills ensures f.quantity > 0.0 {
      assert Honest(p, f);
    }
  }

  // ----- Matching takes the best opposite level -----

  function Offers(side: Side, book: Book): seq<Level> {
    if side.Buy? then book.asks else book.bids
  }

  /** Level i is the earliest of the best-priced levels that the side can trade against. */
  ghost predicate BestOffer(side: Side, book: Book, i: nat) {
    var offers := Offers(side, book);
    && i < |offers|
    && (forall j :: 0 <= j < |offers| ==> WithinLimit(side, offers[i].price, Some(offers[j].price)))
    && (forall j :: 0 <= j < i ==> offers[j].price != offers[i].price)
  }

  lemma {:induction false} FillableEmpty(levels: seq<Level>, side: Side, limit: real)
    requires forall l <- levels :: !WithinLimit(side, l.price, Some(limit))
    ensures Fillable(levels, side, limit) == []
  {
    if levels != [] {
      assert levels[0] in levels && forall l <- levels[1..] :: l in levels;
      FillableEmpty(levels[1..], side, limit);
    }
  }

  lemma BestLevelFirst(side: Side, book: Book) returns (i: nat)
    requires Offers(side, book) != []
    ensures BestOffer(side, book, i)
    ensures |OppositeLevels(side, book)| > 0 && OppositeLevels(side, book)[0] == Offers(side, book)[i]
  {
    if side.Buy? {
      i := SortByHead(book.asks, (l: Level) => l.price);
    } else {
      i := SortByHead(book.bids, (l: Level) => -l.price);
    }
  }

  /** Matching yields a price exactly when the best offer is within the limit of a limit-type
      order, and then it is that offer's price, for at most its size. */
  lemma MatchIsBest(o: Order, book: Book) returns (i: nat)
    ensures MatchOrder(o, book).0.Some? ==>
              && BestOffer(o.intent.side, book, i)
              && WithinLimit(o.intent.side, Offers(o.intent.side, book)[i].price, o.intent.price)
              && MatchOrder(o, book) == (Some(Offers(o.intent.side, book)[i].price),
                                         Min(o.Remaining(), Offers(o.intent.side, book)[i].size))
    ensures MatchOrder(o, book).0.Some? <==>
            && o.intent.orderType in {Limit, PostOnly}
            && exists l <- Offers(o.intent.side, book) :: WithinLimit(o.intent.side, l.price, o.intent.price)
  {
    i := 0;
    var side, offers := o.intent.side, Offers(o.intent.side, book);
    var levels := OppositeLevels(side, book);
    if offers == [] {
      assert levels == [];
      return;
    }
    i := BestLevelFirst(side, book);
    assert offers[i] in offers;
    if o.intent.price.None? { return; }
    if !WithinLimit(side, offers[i].price, o.intent.price) {
      forall l <- levels ensures !WithinLimit(side, l.price, o.intent.price) {
        SortByElements(book.asks, (l: Level) => l.price, l);
        SortByElements(book.bids, (l: Level) => -l.price, l);
        assert l in offers;
      }
      FillableEmpty(levels, side, o.intent.price.value);
    }
  }

  // ----- Lifting to book updates and runs -----

  lemma FillOneLawful(p: Paper, id: string, symbol: string, book: Book, origin: Origin)
    requires Lawful(p, origin) && id in p.open
    ensures Lawful(FillOne(p, id, symbol, book), origin)
  {
    assert p.open[id] < |p.orders|;
    var o := p.orders[p.open[id]];
    hide Lawful, Paper.WellFormed, MatchOrder, ApplyFill;
    if o.intent.symbol == symbol && o.Remaining() > 0.0 {
      var _ := MatchIsBest(o, book);
      var (price, quantity) := MatchOrder(o, book);
      if quantity > 0.0 && price.Some? {
        FillLawful(p, id, price.value, quantity, origin);
      }
    }
  }

  lemma {:induction false} FillUpToLawful(p: Paper, n: nat, symbol: string, book: Book, origin: Origin)
    requires p.WellFormed() && Lawful(p, origin) && n <= |p.keys|
    ensures Lawful(FillUpTo(p, n, symbol, book), origin)
  {
    hide Lawful, FillOne, Paper.WellFormed;
    if n > 0 {
      FillUpToLawful(p, n - 1, symbol, book, origin);
      assert p.keys[n - 1] in FillUpTo(p, n - 1, symbol, book).open;
      FillOneLawful(FillUpTo(p, n - 1, symbol, book), p.keys[n - 1], symbol, book, origin);
    }
  }

  lemma PlaceLawful(p: Paper, intent: Intent, book: Option<Book>, now: real, origin: Origin)
    requires p.WellFormed() && Lawful(p, origin)
    ensures Lawful(PlaceOrder(p, intent, book, now), origin)
  {
    hide Lawful, Accept, FillUpTo;
    AcceptLawful(p, intent, now, origin);
    if book.Some? {
      var accepted := Accept(p, intent, now);
      FillUpToLawful(accepted, |accepted.keys|, intent.symbol, book.value, origin);
    }
  }

  lemma StepLawful(p: Paper, e: Event, origin: Origin)
    requires p.WellFormed() && Lawful(p, origin)
    ensures Lawful(Step(p, e), origin)
  {
    hide Lawful, PlaceOrder, CancelOrder, FillUpTo;
    match e
    case Place(intent, book, now) => PlaceLawful(p, intent, book, now, origin);
    case Cancel(id) => CancelLawful(p, id, origin);
    case Replace(id, intent, book, now) =>
      CancelLawful(p, id, origin);
      PlaceLawful(CancelOrder(p, id), intent, book, now, origin);
    case BookUpdate(symbol, book) => FillUpToLawful(p, |p.keys|, symbol, book, origin);
  }

  /** Every run from a fresh engine, over any table, keeps all the laws. */
  lemma {:induction false} RunLawful(origin: Origin, events: seq<Event>)
    ensures Fresh(origin).WellFormed()
    ensures Lawful(Run(Fresh(origin), events), origin)
  {
    var p := Fresh(origin);
    assert p.WellFormed();
    if events == [] {
      assert Lawful(p, origin);
    } else {
      hide Lawful;
      var init := events[..|events| - 1];
      RunLawful(origin, init);
      StepLawful(Run(p, init), events[|events| - 1], origin);
    }
  }

  // ----- What the invariant says, law by law -----

  lemma FeeOfFill(p: Paper, f: Fill)
    requires Honest(p, f)
    ensures Amount(f, AllFees) * 10000.0 == (Amount(f, BuyNotional) + Amount(f, SellNotional)) * p.feeBps
  {
    assert Amount(f, BuyNotional) + Amount(f, SellNotional) == f.price * f.quantity;
  }

  lemma RatesAdd(a: real, b: real, x: real, y: real, rate: real)
    requires a * 10000.0 == x * rate && b * 10000.0 == y * rate
    ensures (a + b) * 10000.0 == (x + y) * rate
  {
  }

  lemma {:induction false} FeesOfHonest(p: Paper, fills: seq<Fill>)
    requires forall f <- fills :: Honest(p, f)
    ensures Sum(fills, AllFees) * 10000.0 == (Sum(fills, BuyNotional) + Sum(fills, SellNotional)) * p.feeBps
  {
    hide Honest, Amount;
    if fills != [] {
      var init, f := fills[..|fills| - 1], fills[|fills| - 1];
      assert f in fills && forall g <- init :: g in fills;
      FeesOfHonest(p, init);
      FeeOfFill(p, f);
      RatesAdd(Sum(init, AllFees), Amount(f, AllFees), Sum(init, BuyNotional) + Sum(init, SellNotional),
               Amount(f, BuyNotional) + Amount(f, SellNotional), p.feeBps);
      assert Sum(fills, BuyNotional) + Sum(fills, SellNotional)
          == Sum(init, BuyNotional) + Sum(init, SellNotional) + (Amount(f, BuyNotional) + Amount(f, SellNotional));
    }
  }

  /** In every run the fees are the fee rate, in basis points, of everything traded. */
  lemma FeesFollowTrades(origin: Origin, events: seq<Event>)
    requires origin.base != origin.quote
    ensures Fresh(origin).WellFormed()
    ensures var r := Run(Fresh(origin), events);
            r.account.fees * 10000.0 == (Sum(r.fills, BuyNotional) + Sum(r.fills, SellNotional)) * origin.feeBps
  {
    hide Run, AllAccounted, Mirrored, Honest, Sum;
    RunLawful(origin, events);
    var r := Run(Fresh(origin), events);
    FeesOfHonest(r, r.fills);
  }

  ghost predicate AtBest(f: Fill, book: Book) {
    exists i: nat :: BestOffer(f.side, book, i) && f.price == Offers(f.side, book)[i].price
  }

  /** Offering one order to the book appends at most one fill, at the best opposite price. */
  lemma FillOneAtBest(p: Paper, id: string, symbol: string, book: Book)
    requires p.WellFormed() && id in p.open
    ensures var r := FillOne(p, id, symbol, book);
            r.fills == p.fills
            || (|r.fills| == |p.fills| + 1 && p.fills <= r.fills
                && r.fills[|p.fills|].symbol == symbol && AtBest(r.fills[|p.fills|], book))
  {
    var o := p.orders[p.open[id]];
    var i := MatchIsBest(o, book);
    hide Paper.WellFormed, MatchOrder, Persist, Settle, FilledOrder, BestOffer;
  }

  /** A book update only appends fills, all for its symbol and at the best opposite price. */
  lemma {:induction false} NewFillsAtBest(p: Paper, n: nat, symbol: string, book: Book)
    requires p.WellFormed() && n <= |p.keys|
    ensures var r := FillUpTo(p, n, symbol, book);
            && p.fills <= r.fills
            && forall i :: |p.fills| <= i < |r.fills| ==> r.fills[i].symbol == symbol && AtBest(r.fills[i], book)
  {
    hide Paper.WellFormed, FillOne, AtBest;
    if n > 0 {
      NewFillsAtBest(p, n - 1, symbol, book);
      FillOneAtBest(FillUpTo(p, n - 1, symbol, book), p.keys[n - 1], symbol, book);
    }
  }

  /** From an empty table the active rows are exactly the open orders, field for field. */
  lemma TableMirrorsDictionary(origin: Origin, events: seq<Event>)
    requires origin.table == map[]
    ensures Fresh(origin).WellFormed()
    ensures var r := Run(Fresh(origin), events);
            && (forall id :: id in r.open <==> id in r.table && r.table[id].status.Active())
            && (forall id <- r.open :: r.open[id] < |r.orders| && Mirrors(r.table[id], r.orders[r.open[id]]))
            && (forall id <- r.table :: r.table[id].account == PAPER_ACCOUNT)
  {
    RunLawful(origin, events);
    hide Run, Conserved, AllAccounted, AllHonest, NoDuplicates;
  }

  ghost predicate Conserves(origin: Origin, events: seq<Event>) {
    Fresh(origin).WellFormed() && Conserved(Run(Fresh(origin), events), origin.cash)
  }

  /** Every run conserves, for every starting cash, exactly when the two assets differ. */
  lemma ConservationNeedsTwoAssets(base: string, quote: string, feeBps: real, table: Table)
    ensures (forall cash, events :: Conserves(Origin(cash, base, quote, feeBps, table), events)) <==> base != quote
  {
    if base != quote {
      forall cash, events ensures Conserves(Origin(cash, base, quote, feeBps, table), events) {
        RunLawful(Origin(cash, base, quote, feeBps, table), events);
        hide Run, Conserved, AllAccounted, AllHonest, Paper.WellFormed, Mirrored;
      }
    } else {
      assert !Conserves(Origin(1.0, base, quote, feeBps, table), []);
    }
  }

  lemma OneAskMatches(o: Order, level: Level)
    requires o.intent.side.Buy? && o.intent.orderType.Limit?
    requires o.intent.price.Some? && level.price <= o.intent.price.value
    ensures MatchOrder(o, Book([], [level])) == (Some(level.price), Min(o.Remaining(), level.size))
  {
    var limit := o.intent.price.value;
    assert [level][1..] == [] && SortBy([level][1..], (l: Level) => l.price) == [];
    assert OppositeLevels(Buy, Book([], [level])) == [level];
    assert Fillable([level][1..], Buy, limit) == [];
    assert Fillable([level], Buy, limit) == [level];
  }

  /** The one open order, a buy that crosses the one ask, is filled from it once. */
  lemma LoneOrderFills(p: Paper, id: string, level: Level)
    requires p.WellFormed() && p.keys == [id] && id in p.open && p.open[id] < |p.orders|
    requires var o := p.orders[p.open[id]];
             && o.intent.side.Buy? && o.intent.orderType.Limit? && o.Remaining() > 0.0 && level.size > 0.0
             && o.intent.price.Some? && level.price <= o.intent.price.value
    ensures var o := p.orders[p.open[id]];
            SimulateFills(p, o.intent.symbol, Book([], [level]))
            == ApplyFill(p, id, level.price, Min(o.Remaining(), level.size))
  {
    hide Paper.WellFormed, MatchOrder, ApplyFill;
    var o, book := p.orders[p.open[id]], Book([], [level]);
    OneAskMatches(o, level);
    assert FillUpTo(p, 0, o.intent.symbol, book) == p;
    assert FillUpTo(p, 1, o.intent.symbol, book) == FillOne(p, id, o.intent.symbol, book);
  }

  /** What one fill at a price does to an unfinished lone order. */
  lemma LoneOrderGrows(p: Paper, id: string, price: real, quantity: real)
    requires p.WellFormed() && p.keys == [id] && id in p.open && p.open[id] == 0 && |p.orders| == 1
    requires 0.0 < quantity < p.orders[0].Remaining()
    ensures var r := ApplyFill(p, id, price, quantity);
            && r.orders == [FilledOrder(p.orders[0], price, quantity)] && r.keys == [id] && r.open == p.open
            && Sum(r.fills, NotionalOf(0)) == Sum(p.fills, NotionalOf(0)) + Notional(price, quantity)
  {
    hide Paper.WellFormed, Persist, Settle, AverageAfter, Notional, FeeOf, Sum;
    var r, o := ApplyFill(p, id, price, quantity), p.orders[0];
    var f := r.fills[|p.fills|];
    SumAppend(p.fills, f, NotionalOf(0));
    FillAmounts(f);
    assert r.fills == p.fills + [f];
    assert FilledOrder(o, price, quantity).status == PARTIAL_FILL;
    assert p.orders[0 := FilledOrder(o, price, quantity)] == [FilledOrder(o, price, quantity)];
  }

  /** An average can be lost on the way: a buy that takes one unit at price zero and then one at
      price one ends with an average of one over two units, where the notional is one. */
  lemma ZeroAverageIsLost(origin: Origin, intent: Intent, now: real)
    requires intent.side.Buy? && intent.orderType.Limit? && intent.quantity > 2.0
    requires intent.price.Some? && intent.price.value >= 1.0
    ensures Fresh(origin).WellFormed()
    ensures var free, dear := Book([], [Level(0.0, 1.0)]), Book([], [Level(1.0, 1.0)]);
            var r := Run(Fresh(origin), [Place(intent, None, now), BookUpdate(intent.symbol, free),
                                         BookUpdate(intent.symbol, dear)]);
            && |r.orders| == 1 && r.orders[0].filled == 2.0 && r.orders[0].average == Some(1.0)
            && Sum(r.fills, NotionalOf(0)) == 1.0
            && !AverageLaw(r.orders[0], Sum(r.fills, NotionalOf(0)))
  {
    hide ApplyFill, SimulateFills, Sum, AverageAfter;
    var id, free, dear := intent.clientId, Level(0.0, 1.0), Level(1.0, 1.0);
    var p0 := Fresh(origin);
    var p1 := Accept(p0, intent, now);
    assert p1.orders == [Order(intent, ACKNOWLEDGED, 0.0, None, now)] && p1.keys == [id] && p1.fills == [];
    LoneOrderFills(p1, id, free);
    LoneOrderGrows(p1, id, 0.0, 1.0);
    var p2 := ApplyFill(p1, id, 0.0, 1.0);
    LoneOrderFills(p2, id, dear);
    LoneOrderGrows(p2, id, 1.0, 1.0);
    ZeroThenOne(p1.orders[0]);
    NothingSold(p1);
    ThreeSteps(p0, Place(intent, None, now), BookUpdate(intent.symbol, Book([], [free])),
               BookUpdate(intent.symbol, Book([], [dear])));
  }

  lemma NothingSold(p: Paper)
    requires p.fills == []
    ensures Sum(p.fills, NotionalOf(0)) == 0.0
  {
  }

  lemma ZeroThenOne(o: Order)
    requires o.filled == 0.0
    ensures var r := FilledOrder(FilledOrder(o, 0.0, 1.0), 1.0, 1.0);
            r.filled == 2.0 && r.average == Some(1.0) && Notional(0.0, 1.0) == 0.0 && Notional(1.0, 1.0) == 1.0
  {
    assert FilledOrder(o, 0.0, 1.0).average == Some(0.0);
  }

  lemma ThreeSteps(p: Paper, a: Event, b: Event, c: Event)
    requires p.WellFormed()
    ensures Run(p, [a, b, c]) == Step(Step(Step(p, a), b), c)
  {
    hide Step, Paper.WellFormed;
    assert [a, b, c][..2] == [a, b] && [a, b][..1] == [a] && [a][..0] == [];
    assert Run(p, [a]) == Step(Run(p, []), a) && Run(p, [a, b]) == Step(Run(p, [a]), b);
  }
}
