/** The live execution service object: it owns the order rows, trading pairs, balance rows and stored
    trades of one account and updates them in place. */
module CoinstoreService {
  import opened Common
  import opened Precision
  import opened LiveOrders
  import opened LiveHistory
  import opened PrivateStream
  import opened PrivateMessages

  class CoinstoreExecutionService {
    const venue: Venue
    var orders: Table
    var pairs: set<Pair>
    var balances: seq<Balance>
    var trades: map<TradeKey, Json>

    function View(): Records
      reads this
    {
      Records(orders, pairs, balances, trades)
    }

    constructor (venue: Venue, records: Records)
      ensures this.venue == venue && View() == records
    {
      this.venue := venue;
      orders, pairs, balances, trades := records.orders, records.pairs, records.balances, records.trades;
    }

    /** Finds the trading pair of a symbol or creates it; returns whether that raised. */
    method EnsureTradingPair(symbol: string) returns (raised: bool)
      modifies this`pairs
      ensures raised == PairRaises(old(pairs), symbol, venue)
      ensures pairs == PairsAfter(old(pairs), symbol, venue) && (raised ==> pairs == old(pairs))
    {
      var found := Matching(pairs, symbol);
      if |found| > 0 {
        return |found| > 1;
      }
      if '/' !in symbol || venue.venueSymbol(symbol).None? {
        return true;
      }
      pairs := pairs + {Pair(symbol, venue.venueSymbol(symbol).value)};
      return false;
    }

    method PersistOrder(symbol: string, id: string, answer: Answer, intent: Option<Intent>) returns (raised: bool)
      modifies this`orders, this`pairs
      ensures raised == PairRaises(old(pairs), symbol, venue)
      ensures pairs == PairsAfter(old(pairs), symbol, venue) && (raised ==> pairs == old(pairs))
      ensures orders == if raised then old(orders)
                        else LiveOrders.PersistOrder(old(orders), venue.account, id, answer, intent)
      ensures !raised ==> id in orders && SaysLast(orders[id], Recording(id, answer, intent))
                          && (id in old(orders) ==> SameTerms(orders[id], old(orders)[id]))
                          && (id !in old(orders) ==> TermsOf(orders[id], venue.account, Recording(id, answer, intent)))
    {
      hide PairRaises, PairsAfter;
      PersistSays(orders, venue.account, Recording(id, answer, intent));
      raised := EnsureTradingPair(symbol);
      if raised {
        return;
      }
      if id in orders {
        var row := orders[id].(status := StatusOf(answer.status));
        row := row.(filled := answer.filled, average := answer.average);
        orders := orders[id := row];
      } else {
        var side := OrElse(answer.side, if intent.Some? then Some(intent.value.side) else None);
        var price := OrElse(answer.price, if intent.Some? then intent.value.price else None);
        var quantity := OrElse(answer.quantity, if intent.Some? then Some(intent.value.quantity) else None);
        var row := Row(venue.account, if side.Some? then side.value else Buy, StatusOf(answer.status), price,
                       if quantity.Some? then quantity.value else 0.0, answer.filled, answer.average);
        orders := orders[id := row];
      }
    }

    /** `answer` is what the exchange returns if the order is sent. The order is sent exactly when it
        is valid, not a duplicate and safe from self-trading, with the very price that was checked. It
        is recorded exactly when it was sent, its answer is identified and its symbol has or gets a
        trading pair: otherwise this raises and a sent order is live without a row. A faithful answer
        under a new id leaves an uncrossed table uncrossed. */
    method PlaceOrder(i: Intent, p: SymbolPrecision, answer: Answer) returns (sent: Option<Intent>, recorded: bool)
      modifies this`orders, this`pairs
      ensures sent == if Accepted(old(orders), venue.account, i, p) then Some(i) else None
      ensures var symbol := if answer.symbol.Some? then answer.symbol.value else i.symbol;
              var paired := !PairRaises(old(pairs), symbol, venue);
              && (recorded <==> sent.Some? && answer.identified && paired)
              && pairs == (if sent.None? || !answer.identified then old(pairs)
                           else PairsAfter(old(pairs), symbol, venue))
              && orders == LiveOrders.Step(old(orders), venue.account, Place(i, p, answer, paired))
      ensures orders == if !recorded then old(orders)
                        else LiveOrders.PersistOrder(old(orders), venue.account, AnsweredId(i, answer), answer, Some(i))
      ensures Uncrossed(old(orders), venue.account) && i.clientId !in old(orders) && Faithful(i, answer) ==>
                Uncrossed(orders, venue.account)
    {
      hide Uncrossed, QuantizeDown, Faithful, PairRaises, PairsAfter;
      sent, recorded := None, false;
      var symbol := if answer.symbol.Some? then answer.symbol.value else i.symbol;
      if Uncrossed(orders, venue.account) {
        StepUncrossed(orders, venue.account, Place(i, p, answer, !PairRaises(pairs, symbol, venue)));
      }
      if !Validates(i, p) || Duplicate(orders, venue.account, i.clientId) {
        return;
      }
      var conflict := FindSelfTrade(orders, venue.account, i);
      if conflict.Some? {
        return;
      }
      ValidIntentUnchanged(i, p);
      var precise := ApplyPrecision(i, p);
      sent := Some(precise.value);
      if !answer.identified {
        return;
      }
      var raised := PersistOrder(symbol, AnsweredId(i, answer), answer, Some(i));
      recorded := !raised;
    }

    method PersistFill(fill: Part<FillUpdate>, payload: Json) returns (raised: bool)
      modifies this`orders, this`pairs, this`trades
      ensures Outcome(View(), raised) == WithFill(old(View()), venue, fill, payload)
    {
      hide PairRaises, PairsAfter;
      if !fill.Present? {
        return fill.Malformed?;
      }
      var u := fill.value;
      raised := PersistOrder(u.order.symbol, u.order.id, u.order.report, None);
      if raised {
        return;
      }
      if u.trade == "" {
        return true;
      }
      if (venue.account, u.trade) in trades {
        return false;
      }
      if !u.readable {
        return true;
      }
      trades := trades[(venue.account, u.trade) := payload];
    }

    /** One payload in its roles: balance, order, fill. */
    method HandleOne(payload: Json) returns (raised: bool)
      modifies this`orders, this`pairs, this`balances, this`trades
      ensures Outcome(View(), raised) == HandlePayload(old(View()), venue, payload)
    {
      hide PairRaises, PairsAfter, WithFill;
      var reading := venue.read(payload);
      if reading.balance.Malformed? {
        return true;
      }
      if reading.balance.Present? {
        balances := balances + [reading.balance.value];
      }
      if reading.order.Malformed? {
        return true;
      }
      if reading.order.Present? {
        var u := reading.order.value;
        raised := PersistOrder(u.symbol, u.id, u.report, None);
        if raised {
          return;
        }
      }
      raised := PersistFill(reading.fill, payload);
    }

    /** Handles a message, payload by payload, up to the first that raises. */
    method HandlePrivateMessage(message: Json) returns (raised: bool)
      requires message.Dict?
      modifies this`orders, this`pairs, this`balances, this`trades
      ensures View() == HandleMessage(old(View()), venue, message).0
      ensures raised <==> !WentThrough(old(View()), venue, message)
      ensures forall key <- old(trades) :: key in trades && trades[key] == old(trades)[key]
    {
      hide Payloads, HandlePayload, PrivateMessages.Step;
      StepKeepsTrades(View(), venue, Deliver(message));
      DeliverIsHandle(View(), venue, message);
      var payloads := PrivatePayloads(message);
      assert payloads[0..] == payloads;
      for i := 0 to |payloads|
        invariant var (after, n) := HandlePayloads(View(), venue, payloads[i..]);
                  (after, i + n) == HandlePayloads(old(View()), venue, payloads)
      {
        assert payloads[i..][0] == payloads[i] && payloads[i..][1..] == payloads[i + 1..];
        raised := HandleOne(payloads[i]);
        if raised {
          return;
        }
      }
      return false;
    }
  }
}
