/** Live order safety: the duplicate and self-trade checks before an order is sent, and the row that
    records the exchange's answer. */
module LiveOrders {
  import opened Common
  import opened Precision

  /** The statuses an exchange reports, and the stored status of each. */
  datatype Reported = New | OpenOrder | Partial | Done | CancelledOrder | RejectedOrder | ExpiredOrder | Unknown

  function StatusOf(r: Reported): OrderStatus {
    match r
    case New => Created
    case OpenOrder => Open
    case Partial => PartiallyFilled
    case Done => Filled
    case CancelledOrder => Cancelled
    case RejectedOrder => Rejected
    case ExpiredOrder => Expired
    case Unknown => Submitted
  }

  /** An order as parsed from an exchange answer; absent fields fall back to the intent. The answer to
      a placement is recorded only if it is identified, that is, names the exchange's order id. */
  datatype Answer = Answer(identified: bool, symbol: Option<string>, clientId: Option<string>, side: Option<Side>,
                           price: Option<real>, quantity: Option<real>, status: Reported, filled: real,
                           average: Option<real>)

  function OrElse<T>(first: Option<T>, second: Option<T>): Option<T> {
    if first.Some? then first else second
  }

  /** Inserts a row, or updates status and fill of the existing one, leaving its side and price. */
  function PersistOrder(table: Table, account: string, id: string, answer: Answer, intent: Option<Intent>): Table {
    if id in table then
      table[id := table[id].(status := StatusOf(answer.status), filled := answer.filled, average := answer.average)]
    else
      var side := OrElse(answer.side, if intent.Some? then Some(intent.value.side) else None);
      var quantity := OrElse(answer.quantity, if intent.Some? then Some(intent.value.quantity) else None);
      table[id := Row(account, if side.Some? then side.value else Buy, StatusOf(answer.status),
      OrElse(answer.price, if intent.Some? then intent.value.price else None),
      if quantity.Some? then quantity.value else 0.0, answer.filled, answer.average)]
  }

  // ----- The two checks -----

  predicate Duplicate(table: Table, account: string, id: string) {
    id in table && table[id].account == account && table[id].status.Active()
  }

  /** A working order of the account on the other side, at a price that would trade with this one. */
  predicate Conflicts(row: Row, account: string, side: Side, price: real) {
    && row.account == account && row.status.Working() && row.side == side.Opposite() && row.price.Some?
    && if side.Buy? then price >= row.price.value else price <= row.price.value
  }

  ghost predicate SelfTradeSafe(table: Table, account: string, i: Intent) {
    i.price.Some? ==> forall id <- table :: !Conflicts(table[id], account, i.side, i.price.value)
  }

  /** Scans the rows for a conflict. */
  method FindSelfTrade(table: Table, account: string, i: Intent) returns (conflict: Option<string>)
    ensures conflict.None? <==> SelfTradeSafe(table, account, i)
    ensures conflict.Some? ==> conflict.value in table && i.price.Some?
                               && Conflicts(table[conflict.value], account, i.side, i.price.value)
  {
    if i.price.None? {
      return None;
    }
    var rest := table.Keys;
    while rest != {}
      invariant rest <= table.Keys
      invariant forall id :: id in table && id !in rest ==> !Conflicts(table[id], account, i.side, i.price.value)
      decreases |rest|
    {
      var id :| id in rest;
      if Conflicts(table[id], account, i.side, i.price.value) {
        return Some(id);
      }
      rest := rest - {id};
    }
    return None;
  }

  // ----- Uncrossed tables -----

  ghost predicate Uncrossed(table: Table, account: string) {
    forall b, s :: b in table && s in table && Working(table[b], account, Buy) && Working(table[s], account, Sell) ==>
                     table[b].price.value < table[s].price.value
  }

  predicate Working(row: Row, account: string, side: Side) {
    row.account == account && row.status.Working() && row.side == side && row.price.Some?
  }

  /** The self-trade check is exact: a priced order passes exactly when a working row for it, under a
      new id, would leave an uncrossed table uncrossed. */
  lemma SelfTradeCheckExact(table: Table, account: string, i: Intent, id: string, status: OrderStatus)
    requires Uncrossed(table, account) && id !in table && i.price.Some? && status.Working()
    ensures SelfTradeSafe(table, account, i) <==>
            Uncrossed(table[id := Row(account, i.side, status, i.price, i.quantity, 0.0, None)], account)
  {
    var row := Row(account, i.side, status, i.price, i.quantity, 0.0, None);
    var after := table[id := row];
    if Uncrossed(after, account) && !SelfTradeSafe(table, account, i) {
      var c :| c in table && Conflicts(table[c], account, i.side, i.price.value);
      assert after[c] == table[c] && after[id] == row && Working(row, account, i.side);
    }
  }

  // ----- Runs of placements and updates -----

  datatype Event =
    | Place(intent: Intent, precision: SymbolPrecision, answer: Answer, paired: bool)
    | Update(id: string, report: Answer)

  ghost predicate Accepted(table: Table, account: string, i: Intent, p: SymbolPrecision) {
    Validates(i, p) && !Duplicate(table, account, i.clientId) && SelfTradeSafe(table, account, i)
  }

  /** A placement is recorded when it was sent, which precision rounding may still prevent, its answer
      is identified and its symbol has a trading pair; any other order that was sent is live without
      a row. */
  ghost predicate Recorded(table: Table, account: string, i: Intent, p: SymbolPrecision, answer: Answer, paired: bool) {
    Accepted(table, account, i, p) && ApplyPrecision(i, p).Ok? && answer.identified && paired
  }

  function AnsweredId(i: Intent, answer: Answer): string {
    if answer.clientId.Some? then answer.clientId.value else i.clientId
  }

  ghost function Step(table: Table, account: string, e: Event): Table {
    match e
    case Place(i, p, answer, paired) =>
      if !Recorded(table, account, i, p, answer, paired) then table
      else PersistOrder(table, account, AnsweredId(i, answer), answer, Some(i))
    case Update(id, report) => PersistOrder(table, account, id, report, None)
  }

  ghost function Run(table: Table, account: string, events: seq<Event>): Table {
    if events == [] then table else Step(Run(table, account, events[..|events| - 1]), account, events[|events| - 1])
  }

  /** If the row is a working one of the account, no working row of the table conflicts with it. */
  ghost predicate RowSafe(table: Table, account: string, row: Row) {
    Working(row, account, row.side) ==> forall id <- table :: !Conflicts(table[id], account, row.side, row.price.value)
  }

  /** Recording an answer, to a placement or an update, under a known or a new id, leaves an uncrossed
      table uncrossed exactly when the resulting row is safe. */
  lemma PersistUncrossedExactly(table: Table, account: string, id: string, answer: Answer, intent: Option<Intent>)
    requires Uncrossed(table, account)
    ensures var after := PersistOrder(table, account, id, answer, intent);
            Uncrossed(after, account) <==> RowSafe(table, account, after[id])
  {
    var after := PersistOrder(table, account, id, answer, intent);
    var row := after[id];
    assert after == table[id := row] && (id in table ==> row.side == table[id].side);
    hide PersistOrder, StatusOf;
    if Uncrossed(after, account) && Working(row, account, row.side) {
      forall o <- table ensures !Conflicts(table[o], account, row.side, row.price.value) {
        assert o != id ==> after[o] == table[o];
      }
    }
  }

  /** A row never changes account, side or price. */
  lemma StepKeepsTerms(table: Table, account: string, e: Event)
    ensures var after := Step(table, account, e);
            forall id <- table :: id in after && after[id].account == table[id].account
                                  && after[id].side == table[id].side && after[id].price == table[id].price
                                  && after[id].quantity == table[id].quantity
  {
    hide Accepted, ApplyPrecision;
  }

  ghost predicate StepSafe(table: Table, account: string, e: Event) {
    match e
    case Place(i, p, answer, paired) =>
      Recorded(table, account, i, p, answer, paired) ==>
        var id := AnsweredId(i, answer);
        RowSafe(table, account, PersistOrder(table, account, id, answer, Some(i))[id])
    case Update(id, report) => RowSafe(table, account, PersistOrder(table, account, id, report, None)[id])
  }

  /** The answer to a placement keeps the client id, side and price sent. */
  predicate Faithful(i: Intent, answer: Answer) {
    && answer.clientId in {None, Some(i.clientId)} && answer.side in {None, Some(i.side)}
    && answer.price in {None, i.price}
  }

  /** What the self-trade check is for: with a faithful answer under a new id, whatever its status, a
      placement is safe. */
  lemma PlacementSafe(table: Table, account: string, i: Intent, p: SymbolPrecision, answer: Answer, paired: bool)
    requires i.clientId !in table && Faithful(i, answer)
    ensures StepSafe(table, account, Place(i, p, answer, paired))
  {
    hide Validates, ApplyPrecision, StatusOf;
  }

  /** An update is safe on an uncrossed table unless it turns a row that is not working into a working
      one. */
  lemma UpdateSafe(table: Table, account: string, id: string, report: Answer)
    requires Uncrossed(table, account)
    requires StatusOf(report.status).Working() ==> id in table && table[id].status.Working()
    ensures StepSafe(table, account, Update(id, report))
  {
    var row := PersistOrder(table, account, id, report, None)[id];
    if Working(row, account, row.side) {
      assert Working(table[id], account, row.side) && row.price == table[id].price;
      forall o <- table ensures !Conflicts(table[o], account, row.side, row.price.value) {
      }
    }
  }

  /** Placements use new ids and have faithful answers; updates do not open a row against a working
      one. */
  ghost predicate Disciplined(table: Table, account: string, e: Event) {
    match e
    case Place(i, p, answer, paired) => i.clientId !in table && Faithful(i, answer)
    case Update(id, report) => StepSafe(table, account, e)
  }

  ghost predicate DisciplinedRun(table: Table, account: string, events: seq<Event>) {
    events == [] || (DisciplinedRun(table, account, events[..|events| - 1])
                     && Disciplined(Run(table, account, events[..|events| - 1]), account, events[|events| - 1]))
  }

  lemma StepUncrossed(table: Table, account: string, e: Event)
    requires Uncrossed(table, account)
    ensures Uncrossed(Step(table, account, e), account) <==> StepSafe(table, account, e)
    ensures Disciplined(table, account, e) ==> Uncrossed(Step(table, account, e), account)
  {
    hide Uncrossed, PersistOrder, RowSafe, Accepted, ApplyPrecision, Faithful;
    match e
    case Place(i, p, answer, paired) =>
      PersistUncrossedExactly(table, account, AnsweredId(i, answer), answer, Some(i));
      if i.clientId !in table && Faithful(i, answer) {
        PlacementSafe(table, account, i, p, answer, paired);
      }
    case Update(id, report) => PersistUncrossedExactly(table, account, id, report, None);
  }

  /** From an uncrossed table, every disciplined run keeps each working buy of the account strictly
      below each working sell. */
  lemma {:induction false} RunUncrossed(table: Table, account: string, events: seq<Event>)
    requires Uncrossed(table, account) && DisciplinedRun(table, account, events)
    ensures Uncrossed(Run(table, account, events), account)
  {
    hide Step, Uncrossed, Disciplined, StepSafe;
    if events != [] {
      RunUncrossed(table, account, events[..|events| - 1]);
      StepUncrossed(Run(table, account, events[..|events| - 1]), account, events[|events| - 1]);
    }
  }

  ghost predicate SafeRun(table: Table, account: string, events: seq<Event>) {
    events == [] || (SafeRun(table, account, events[..|events| - 1])
                     && StepSafe(Run(table, account, events[..|events| - 1]), account, events[|events| - 1]))
  }

  ghost predicate AlwaysUncrossed(table: Table, account: string, events: seq<Event>) {
    Uncrossed(Run(table, account, events), account)
    && (events == [] || AlwaysUncrossed(table, account, events[..|events| - 1]))
  }

  /** Over any run at all, the table is uncrossed throughout exactly when every step is safe. */
  lemma {:induction false} AlwaysUncrossedExactly(table: Table, account: string, events: seq<Event>)
    requires Uncrossed(table, account)
    ensures AlwaysUncrossed(table, account, events) <==> SafeRun(table, account, events)
  {
    hide Step, Uncrossed, StepSafe;
    if events != [] {
      var init := events[..|events| - 1];
      AlwaysUncrossedExactly(table, account, init);
      if SafeRun(table, account, init) {
        assert Uncrossed(Run(table, account, init), account);
        StepUncrossed(Run(table, account, init), account, events[|events| - 1]);
      }
    }
  }

  /** Why an update can be unsafe: a `created` row blocks a duplicate id but is not seen by the
      self-trade check, so a crossing order is let through and the table crosses once the row opens. */
  lemma CreatedRowIsUnseen(account: string, p: SymbolPrecision, sell: Intent, buy: Intent)
    requires sell.side.Sell? && buy.side.Buy? && sell.clientId != buy.clientId
    requires Validates(sell, p) && Validates(buy, p) && sell.price.Some? && buy.price.Some?
    requires buy.price.value >= sell.price.value
    ensures var created := Answer(true, None, None, None, None, None, New, 0.0, None);
            var live := created.(status := OpenOrder);
            var events := [Place(sell, p, created, true), Place(buy, p, live, true), Update(sell.clientId, live)];
            !Uncrossed(Run(map[], account, events), account)
  {
    hide Validates;
    ValidIntentUnchanged(sell, p);
    ValidIntentUnchanged(buy, p);
    var created := Answer(true, None, None, None, None, None, New, 0.0, None);
    var live := created.(status := OpenOrder);
    var e1, e2, e3 := Place(sell, p, created, true), Place(buy, p, live, true), Update(sell.clientId, live);
    var t1 := Step(map[], account, e1);
    var t2 := Step(t1, account, e2);
    var t3 := Step(t2, account, e3);
    assert [e1, e2, e3][..2] == [e1, e2] && [e1, e2][..1] == [e1] && [e1][..0] == [];
    assert Run(map[], account, []) == map[] && Run(map[], account, [e1]) == t1;
    assert Run(map[], account, [e1, e2]) == t2 && Run(map[], account, [e1, e2, e3]) == t3;
    assert t1 == map[sell.clientId := Row(account, Sell, Created, sell.price, sell.quantity, 0.0, None)];
    assert Working(t3[buy.clientId], account, Buy) && Working(t3[sell.clientId], account, Sell);
  }
}
