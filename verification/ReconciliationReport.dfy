/** What a reconciliation report contains, entry by entry, and in which order. */
module ReconciliationReport {
  import opened Common
  import opened Reconciliation

  // ----- Records and keys -----

  /** Balances are compared by asset on total and available, positions by symbol and asset on quantity and
      notional, orders by client id on status and filled quantity. */
  lemma EntryTerms(b: BalanceRecord, p: PositionRecord, o: OrderRecord)
    ensures BalanceEntry(b).key == [b.asset] && BalanceEntry(b).first.x == b.total
            && BalanceEntry(b).second.x == b.available
    ensures PositionEntry(p).key == [p.symbol, p.asset]
            && PositionEntry(p).first.x == p.quantity && PositionEntry(p).second.x == p.notional
    ensures OrderEntry(o).key == [o.clientId] && OrderEntry(o).first.s == o.status && OrderEntry(o).second.x == o.filled
  {
  }

  /** The last record of a key stands for it. */
  lemma {:induction false} LastRecordWins(entries: seq<Entry>, k: nat)
    requires k < |entries| && forall j :: k < j < |entries| ==> entries[j].key != entries[k].key
    ensures entries[k].key in Collapse(entries) && Collapse(entries)[entries[k].key] == entries[k]
  {
    if k < |entries| - 1 {
      var init := entries[..|entries| - 1];
      assert init[k] == entries[k];
      LastRecordWins(init, k);
    }
  }

  lemma {:induction false} KeysOfRecords(entries: seq<Entry>, key: Key)
    ensures key in Collapse(entries) <==> exists k :: 0 <= k < |entries| && entries[k].key == key
  {
    if entries != [] {
      var init := entries[..|entries| - 1];
      KeysOfRecords(init, key);
      if k :| 0 <= k < |entries| && entries[k].key == key && k < |init| {
        assert init[k].key == key;
      }
    }
  }

  // ----- One key -----

  function Words(c: Category): (string, string, string)
    requires c.BalanceItem? || c.PositionItem? || c.OrderItem?
  {
    if c.BalanceItem? then ("missing balance record", "total balance mismatch", "available balance mismatch")
    else if c.PositionItem? then ("missing position record", "position quantity mismatch", "position notional mismatch")
    else ("missing order record", "order status mismatch", "filled quantity mismatch")
  }

  /** Amounts further apart than the tolerance, texts that differ, or an amount against a text. */
  predicate Apart(a: Value, b: Value, tolerance: real) {
    if a.Amount? && b.Amount? then a.x - b.x > tolerance || b.x - a.x > tolerance else a != b
  }

  lemma ApartExactly(a: Value, b: Value, tolerance: real)
    ensures Agree(a, b, tolerance) <==> !Apart(a, b, tolerance)
  {
  }

  /** For one key: a critical entry if one side lacks it, showing what the other has; otherwise a critical
      one for the first field and a warning for the second, each exactly if the sides are apart on it,
      showing both values. */
  lemma KeyReport(c: Category, t: Tolerances, left: map<Key, Entry>, right: map<Key, Entry>, key: Key, m: Mismatch)
    requires c.BalanceItem? || c.PositionItem? || c.OrderItem?
    ensures m in CompareAt(c, t, left, right, key) <==>
            if key in left && key in right then
              var l, r := left[key], right[key];
              || (Apart(l.first, r.first, t.balance)
                  && m == Mismatch(c, key, Critical, Words(c).1, Field(l.first), Field(r.first)))
              || (Apart(l.second, r.second, if c.PositionItem? then t.notional else t.balance)
                  && m == Mismatch(c, key, Warning, Words(c).2, Field(l.second), Field(r.second)))
            else
              m == Mismatch(c, key, Critical, Words(c).0, if key in left then Whole(left[key]) else Missing,
                            if key in right then Whole(right[key]) else Missing)
  {
    hide Agree, Apart, Messages, Words;
    SameWords(c);
    if key in left && key in right {
      var l, r := left[key], right[key];
      ApartExactly(l.first, r.first, t.balance);
      ApartExactly(l.second, r.second, if c.PositionItem? then t.notional else t.balance);
    }
  }

  lemma SameWords(c: Category)
    requires c.BalanceItem? || c.PositionItem? || c.OrderItem?
    ensures Messages(c) == Words(c)
  {
  }

  // ----- One comparator -----

  lemma {:induction false} KeysReport(c: Category, t: Tolerances, left: map<Key, Entry>, right: map<Key, Entry>,
                                      keys: seq<Key>, m: Mismatch)
    ensures m in CompareKeys(c, t, left, right, keys) <==> m.key in keys && m in CompareAt(c, t, left, right, m.key)
  {
    hide CompareAt;
    if keys != [] {
      var init, key := keys[..|keys| - 1], keys[|keys| - 1];
      KeysReport(c, t, left, right, init, m);
      KeyOfEntry(c, t, left, right, key, m);
      assert keys == init + [key];
    }
  }

  lemma KeyOfEntry(c: Category, t: Tolerances, left: map<Key, Entry>, right: map<Key, Entry>, key: Key, m: Mismatch)
    ensures m in CompareAt(c, t, left, right, key) ==> m.key == key && m.category == c
  {
    hide Agree, Messages;
  }

  /** A comparator reports, for every key of either side, what that key calls for, and nothing else. */
  lemma ComparatorReport(c: Category, t: Tolerances, left: seq<Entry>, right: seq<Entry>, m: Mismatch)
    ensures m in Compared(c, t, left, right) <==>
            && (m.key in Collapse(left) || m.key in Collapse(right))
            && m in CompareAt(c, t, Collapse(left), Collapse(right), m.key)
    ensures m in Compared(c, t, left, right) ==> m.category == c
  {
    hide CompareAt, Collapse, CompareKeys;
    var l, r := Collapse(left), Collapse(right);
    KeysReport(c, t, l, r, Sorted(l.Keys + r.Keys), m);
    KeyOfEntry(c, t, l, r, m.key, m);
  }

  /** A fill is reported exactly when one side lacks it, with which side has it. */
  lemma FillReport(left: seq<FillRecord>, right: seq<FillRecord>, m: Mismatch)
    ensures m in ComparedFills(left, right) <==>
            exists trade :: (trade in TradesOf(left)) != (trade in TradesOf(right))
                            && m == Mismatch(FillItem, [trade], Critical, "fill missing from one side",
                                             Present(trade in TradesOf(left)), Present(trade in TradesOf(right)))
  {
    hide Ascending;
    var l, r := TradeIds(left), TradeIds(right);
    var keys := Sorted((l - r) + (r - l));
    if m in ComparedFills(left, right) {
      var i :| 0 <= i < |keys| && m == MissingFill(keys[i], l, r);
      assert keys[i] in keys;
      var trade :| keys[i] == [trade];
      assert trade in TradesOf(left) <==> [trade] in l;
    }
    if trade :| (trade in TradesOf(left)) != (trade in TradesOf(right))
                && m == Mismatch(FillItem, [trade], Critical, "fill missing from one side",
                                 Present(trade in TradesOf(left)), Present(trade in TradesOf(right))) {
      SameTrade(left, trade);
      SameTrade(right, trade);
      assert [trade] in keys;
      var i :| 0 <= i < |keys| && keys[i] == [trade];
      assert ComparedFills(left, right)[i] == m;
    }
  }

  function TradesOf(fills: seq<FillRecord>): set<string> {
    set f <- fills :: f.tradeId
  }

  lemma SameTrade(fills: seq<FillRecord>, trade: string)
    ensures trade in TradesOf(fills) <==> [trade] in TradeIds(fills)
  {
    if [trade] in TradeIds(fills) {
      var f :| f in fills && [f.tradeId] == [trade];
      assert [f.tradeId][0] == [trade][0];
    }
  }

  /** Profit and loss: one critical entry if one side has none, else one warning for each of the three
      components that is further apart than the notional tolerance. */
  lemma PnlReport(left: Option<PnlRecord>, right: Option<PnlRecord>, t: Tolerances, m: Mismatch)
    ensures m in ComparedPnl(left, right, t) <==>
            if left.Some? && right.Some? then
              exists name <- ["realized", "unrealized", "fees"] ::
                Apart(Component(left.value, name), Component(right.value, name), t.notional)
                && m == Mismatch(PnlItem, [name], Warning, "pnl component mismatch", Field(Component(left.value, name)),
                                 Field(Component(right.value, name)))
            else
              left.Some? != right.Some?
              && m == Mismatch(PnlItem, ["summary"], Critical, "missing pnl record",
                               if left.Some? then Pnl(left.value) else Missing,
                               if right.Some? then Pnl(right.value) else Missing)
  {
    if left.Some? && right.Some? {
      var names := ["realized", "unrealized", "fees"];
      assert names[0] in names && names[1] in names && names[2] in names;
      var l, r := left.value, right.value;
      PnlPart("realized", l.realized, r.realized, t, m);
      PnlPart("unrealized", l.unrealized, r.unrealized, t, m);
      PnlPart("fees", l.fees, r.fees, t, m);
      Components(l);
      Components(r);
      hide ComparePnlField, Component, Apart;
    }
  }

  function Component(p: PnlRecord, name: string): Value {
    Amount(if name == "realized" then p.realized else if name == "unrealized" then p.unrealized else p.fees)
  }

  lemma Components(p: PnlRecord)
    ensures Component(p, "realized") == Amount(p.realized) && Component(p, "unrealized") == Amount(p.unrealized)
    ensures Component(p, "fees") == Amount(p.fees)
  {
    assert "realized"[0] != "unrealized"[0] && "fees"[0] != "realized"[0] && "fees"[0] != "unrealized"[0];
  }

  lemma PnlPart(name: string, left: real, right: real, t: Tolerances, m: Mismatch)
    ensures m in ComparePnlField(name, left, right, t) <==>
            Apart(Amount(left), Amount(right), t.notional)
            && m == Mismatch(PnlItem, [name], Warning, "pnl component mismatch", Field(Amount(left)),
                             Field(Amount(right)))
  {
  }

  // ----- The whole report -----

  function Rank(c: Category): nat {
    match c
    case BalanceItem => 0
    case PositionItem => 1
    case OrderItem => 2
    case FillItem => 3
    case PnlItem => 4
  }

  ghost predicate AllOf(c: Category, report: seq<Mismatch>) {
    forall i :: 0 <= i < |report| ==> report[i].category == c
  }

  ghost predicate RanksAscend(report: seq<Mismatch>) {
    forall i, j :: 0 <= i < j < |report| ==> Rank(report[i].category) <= Rank(report[j].category)
  }

  /** The report is that of balances, then positions, orders, fills and profit and loss. */
  lemma ReportOrder(exchange: Snapshot, internal: Snapshot, t: Tolerances)
    ensures RanksAscend(Reconciled(exchange, internal, t))
  {
    hide Compared, ComparedFills, ComparedPnl;
    var b := Compared(BalanceItem, t, Entries(exchange.balances, BalanceEntry),
                      Entries(internal.balances, BalanceEntry));
    var p := Compared(PositionItem, t, Entries(exchange.positions, PositionEntry),
                      Entries(internal.positions, PositionEntry));
    var o := Compared(OrderItem, t, Entries(exchange.orders, OrderEntry), Entries(internal.orders, OrderEntry));
    var f := ComparedFills(exchange.fills, internal.fills);
    var n := ComparedPnl(exchange.pnl, internal.pnl, t);
    OneCategory(BalanceItem, t, Entries(exchange.balances, BalanceEntry), Entries(internal.balances, BalanceEntry));
    OneCategory(PositionItem, t, Entries(exchange.positions, PositionEntry),
                Entries(internal.positions, PositionEntry));
    OneCategory(OrderItem, t, Entries(exchange.orders, OrderEntry), Entries(internal.orders, OrderEntry));
    FillCategory(exchange.fills, internal.fills);
    PnlCategory(exchange.pnl, internal.pnl, t);
    Stack(b, p, o, f, n);
  }

  lemma Stack(b: seq<Mismatch>, p: seq<Mismatch>, o: seq<Mismatch>, f: seq<Mismatch>, n: seq<Mismatch>)
    requires AllOf(BalanceItem, b) && AllOf(PositionItem, p) && AllOf(OrderItem, o) && AllOf(FillItem, f)
             && AllOf(PnlItem, n)
    ensures RanksAscend(b + p + o + f + n)
  {
  }

  lemma OneCategory(c: Category, t: Tolerances, left: seq<Entry>, right: seq<Entry>)
    ensures AllOf(c, Compared(c, t, left, right))
  {
    hide Compared;
    forall m | m in Compared(c, t, left, right) ensures m.category == c {
      ComparatorReport(c, t, left, right, m);
    }
    var report := Compared(c, t, left, right);
    assert forall i :: 0 <= i < |report| ==> report[i] in report;
  }

  lemma FillCategory(left: seq<FillRecord>, right: seq<FillRecord>)
    ensures AllOf(FillItem, ComparedFills(left, right))
  {
  }

  lemma PnlCategory(left: Option<PnlRecord>, right: Option<PnlRecord>, t: Tolerances)
    ensures AllOf(PnlItem, ComparedPnl(left, right, t))
  {
  }

  ghost predicate KeysUp(report: seq<Mismatch>) {
    forall i, j :: 0 <= i < j < |report| ==> report[i].key == report[j].key || Before(report[i].key, report[j].key)
  }

  lemma AppendUp(a: seq<Mismatch>, b: seq<Mismatch>, key: Key)
    requires KeysUp(a) && (forall m <- a :: Before(m.key, key)) && forall m <- b :: m.key == key
    ensures KeysUp(a + b)
  {
    hide Before;
    assert forall i :: 0 <= i < |a| ==> a[i] in a;
    assert forall i :: 0 <= i < |b| ==> b[i] in b;
  }

  /** Within one comparator the entries go through the keys in ascending order. */
  lemma {:induction false} KeysAscend(c: Category, t: Tolerances, left: map<Key, Entry>, right: map<Key, Entry>,
                                      keys: seq<Key>)
    requires Ascending(keys)
    ensures KeysUp(CompareKeys(c, t, left, right, keys))
  {
    hide CompareAt, Before, KeysUp;
    if keys == [] {
      NothingUp();
    } else {
      var init, key := keys[..|keys| - 1], keys[|keys| - 1];
      KeysAscend(c, t, left, right, init);
      var a, b := CompareKeys(c, t, left, right, init), CompareAt(c, t, left, right, key);
      forall m | m in a ensures Before(m.key, key) {
        KeysReport(c, t, left, right, init, m);
        var i :| 0 <= i < |init| && init[i] == m.key;
        assert Before(keys[i], keys[|keys| - 1]);
      }
      forall m | m in b ensures m.key == key {
        KeyOfEntry(c, t, left, right, key, m);
      }
      AppendUp(a, b, key);
    }
  }

  lemma NothingUp()
    ensures KeysUp([])
  {
  }
}
