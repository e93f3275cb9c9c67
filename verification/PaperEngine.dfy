/** The engine object itself, with its in-place updates and its loop over a dictionary snapshot,
    proved to compute the transitions of `PaperExecution`. */
module PaperEngine {
  import opened Common
  import opened PaperExecution
  import opened PaperFills

  lemma OpenInRange(p: Paper, id: string)
    requires p.WellFormed() && id in p.open
    ensures p.open[id] < |p.orders|
  {
  }

  class PaperEngine {
    var account: Account
    const feeBps: real
    var orders: seq<Order>
    var open: map<string, nat>
    var keys: seq<string>
    var fills: seq<Fill>
    var table: Table

    function View(): Paper
      reads this
    {
      Paper(account, feeBps, orders, open, keys, fills, table)
    }

    ghost predicate Valid()
      reads this
    {
      View().WellFormed()
    }

    constructor (startingCash: real, base: string, quote: string, feeBps: real)
      ensures Valid()
      ensures View() == Fresh(Origin(startingCash, base, quote, feeBps, map[]))
    {
      this.feeBps := feeBps;
      account := Account(base, quote, map[quote := startingCash][base := 0.0], 0.0, 0.0);
      orders, open, keys, fills, table := [], map[], [], [], map[];
    }

    /** Returns the new placement, after offering the whole symbol to the book when one is given. */
    method PlaceOrder(intent: Intent, book: Option<Book>, now: real) returns (placement: nat)
      requires Valid()
      modifies this
      ensures Valid()
      ensures placement == old(|orders|)
      ensures View() == PaperExecution.PlaceOrder(old(View()), intent, book, now)
    {
      hide Paper.WellFormed, Persist;
      placement := |orders|;
      var order := Order(intent, ACKNOWLEDGED, 0.0, None, now);
      orders := orders + [order];
      keys := if intent.clientId in open then keys else keys + [intent.clientId];
      open := open[intent.clientId := placement];
      table := Persist(table, order);
      assert View() == Accept(old(View()), intent, now);
      if book.Some? {
        var _ := SimulateFills(intent.symbol, book.value);
      }
    }

    method CancelOrder(id: string) returns (cancelled: Option<nat>)
      requires Valid()
      modifies this
      ensures Valid()
      ensures View() == PaperExecution.CancelOrder(old(View()), id)
      ensures cancelled == if id in old(open) then Some(old(open)[id]) else None
    {
      hide Paper.WellFormed, Persist;
      if id !in open {
        return None;
      }
      OpenInRange(View(), id);
      var k := open[id];
      orders := orders[k := orders[k].(status := CANCELLED)];
      open, keys := open - {id}, Without(keys, {id});
      table := Persist(table, orders[k]);
      cancelled := Some(k);
      assert orders[k] == old(orders[k]).(status := CANCELLED);
      assert View() == PaperExecution.CancelOrder(old(View()), id);
    }

    method ReplaceOrder(id: string, replacement: Intent, book: Option<Book>, now: real) returns (placement: nat)
      requires Valid()
      modifies this
      ensures Valid()
      ensures View() == PaperExecution.ReplaceOrder(old(View()), id, replacement, book, now)
    {
      var _ := CancelOrder(id);
      placement := PlaceOrder(replacement, book, now);
    }

    /** Offers a snapshot of the dictionary to the book; returns the fills it produced. */
    method SimulateFills(symbol: string, book: Book) returns (produced: seq<Fill>)
      requires Valid()
      modifies this
      ensures Valid()
      ensures View() == PaperExecution.SimulateFills(old(View()), symbol, book)
      ensures forall id <- old(open) :: Updated(old(View()), View(), symbol, book, id)
      ensures |old(fills)| <= |fills| && produced == fills[|old(fills)|..]
    {
      hide Paper.WellFormed, FillOne, Updated;
      forall id <- open ensures Updated(View(), PaperExecution.SimulateFills(View(), symbol, book), symbol, book, id) {
        BookUpdateExactly(View(), symbol, book, id);
      }
      produced := [];
      var snapshot := keys;
      ghost var before := View();
      for i := 0 to |snapshot|
        invariant View() == FillUpTo(before, i, symbol, book)
        invariant |old(fills)| <= |fills| && produced == fills[|old(fills)|..]
      {
        var fill := OfferToBook(snapshot[i], symbol, book);
        if fill.Some? {
          produced := produced + [fill.value];
        }
      }
    }

    /** The body of that loop. */
    method OfferToBook(id: string, symbol: string, book: Book) returns (fill: Option<Fill>)
      requires Valid() && id in open
      modifies this
      ensures View() == FillOne(old(View()), id, symbol, book)
      ensures fills == if fill.Some? then old(fills) + [fill.value] else old(fills)
    {
      fill := None;
      var k := open[id];
      if orders[k].intent.symbol != symbol || orders[k].Remaining() <= 0.0 {
        return;
      }
      var (price, quantity) := MatchOrder(orders[k], book);
      if quantity <= 0.0 || price.None? {
        return;
      }
      var applied := ApplyFill(k, price.value, quantity);
      fill := Some(applied);
      if orders[k].Remaining() <= 0.0 {
        orders := orders[k := orders[k].(status := FILLED)];
        open, keys := open - {id}, Without(keys, {id});
      } else {
        orders := orders[k := orders[k].(status := PARTIAL_FILL)];
      }
      table := Persist(table, orders[k]);
      assert orders == old(orders)[k := FilledOrder(old(orders[k]), price.value, quantity)];
      assert View() == PaperExecution.ApplyFill(old(View()), id, price.value, quantity);
    }

    /** The account, fill list and order quantities after one fill; status and row follow in the caller. */
    method ApplyFill(k: nat, price: real, quantity: real) returns (fill: Fill)
      requires k < |orders|
      modifies this`account, this`orders, this`fills
      ensures fills == old(fills) + [fill]
      ensures fill == Fill(k, old(orders[k]).intent.clientId, old(orders[k]).intent.symbol, old(orders[k]).intent.side,
                           price, quantity, FeeOf(feeBps, price, quantity))
      ensures account == Settle(old(account), fill.side, Notional(price, quantity), quantity, fill.fee)
      ensures orders == old(orders)[k := FilledOrder(old(orders[k]), price, quantity).(status := old(orders[k]).status)]
    {
      hide AverageAfter, Notional, Balance;
      var order := orders[k];
      var notional := Notional(price, quantity);
      var fee := notional * feeBps / 10000.0;
      var base, quote := account.base, account.quote;
      if order.intent.side.Buy? {
        account := account.(balances := account.balances[base := Balance(account.balances, base) + quantity]);
        account := account.(balances := account.balances[quote := Balance(account.balances, quote) - notional - fee]);
      } else {
        account := account.(balances := account.balances[base := Balance(account.balances, base) - quantity]);
        account := account.(balances := account.balances[quote := Balance(account.balances, quote) + notional - fee]);
        account := account.(realized := account.realized + (notional - fee));
      }
      account := account.(fees := account.fees + fee);
      orders := orders[k := order.(filled := order.filled + quantity,
                                   average := Some(AverageAfter(order, price, quantity)))];
      fill := Fill(k, order.intent.clientId, order.intent.symbol, order.intent.side, price, quantity, fee);
      fills := fills + [fill];
    }
  }
}
