/** Comparison of an exchange snapshot with the internal one, record by record. */
module Reconciliation {
  import opened Common

  // ----- Ordered keys -----

  /** Record keys: one string, or a (symbol, asset) pair. */
  type Key = seq<string>

  predicate TextBefore(a: string, b: string) {
    b != [] && (a == [] || a[0] < b[0] || (a[0] == b[0] && TextBefore(a[1..], b[1..])))
  }

  predicate Before(a: Key, b: Key) {
    b != [] && (a == [] || TextBefore(a[0], b[0]) || (a[0] == b[0] && Before(a[1..], b[1..])))
  }

  lemma {:induction false} TextOrder(a: string, b: string, c: string)
    ensures !TextBefore(a, a)
    ensures TextBefore(a, b) && TextBefore(b, c) ==> TextBefore(a, c)
    ensures a == b || TextBefore(a, b) || TextBefore(b, a)
  {
    if a != [] {
      TextOrder(a[1..], if b == [] then [] else b[1..], if c == [] then [] else c[1..]);
      assert a == [a[0]] + a[1..];
    }
    if b != [] {
      assert b == [b[0]] + b[1..];
    }
  }

  lemma {:induction false} KeyOrder(a: Key, b: Key, c: Key)
    ensures !Before(a, a)
    ensures Before(a, b) && Before(b, c) ==> Before(a, c)
    ensures a == b || Before(a, b) || Before(b, a)
  {
    if a != [] {
      TextOrder(a[0], if b == [] then [] else b[0], if c == [] then [] else c[0]);
      KeyOrder(a[1..], if b == [] then [] else b[1..], if c == [] then [] else c[1..]);
      assert a == [a[0]] + a[1..];
    }
    if b != [] {
      assert b == [b[0]] + b[1..];
    }
  }

  ghost predicate Ascending(keys: seq<Key>) {
    forall i, j :: 0 <= i < j < |keys| ==> Before(keys[i], keys[j])
  }

  /** An ascending list is determined by its elements. */
  lemma {:induction false} AscendingUnique(a: seq<Key>, b: seq<Key>)
    requires Ascending(a) && Ascending(b) && forall k :: k in a <==> k in b
    ensures a == b
    decreases |a|
  {
    if a == [] {
      assert forall i :: 0 <= i < |b| ==> b[i] in b;
    } else {
      assert a[0] in a && a[0] in b;
      assert b[0] in b && b[0] in a;
      KeyOrder(a[0], b[0], a[0]);
      KeyOrder(a[0], a[0], a[0]);
      assert a[0] == b[0];
      var x := a[0];
      forall k ensures k in a[1..] <==> k in b[1..] {
        KeyOrder(k, k, k);
        assert k in a <==> k == x || k in a[1..];
        assert k in b <==> k == x || k in b[1..];
        if k in a[1..] { assert Before(x, k); }
        if k in b[1..] { assert Before(x, k); }
      }
      AscendingUnique(a[1..], b[1..]);
      assert a == [x] + a[1..] && b == [x] + b[1..];
    }
  }

  lemma {:induction false} LeastExists(keys: set<Key>)
    requires keys != {}
    ensures exists k :: k in keys && forall o <- keys :: o == k || Before(k, o)
    decreases |keys|
  {
    var x :| x in keys;
    var rest := keys - {x};
    if rest == {} {
      assert keys == {x};
    } else {
      LeastExists(rest);
      var k :| k in rest && forall o <- rest :: o == k || Before(k, o);
      forall o ensures Before(x, k) && Before(k, o) ==> Before(x, o) {
        KeyOrder(x, k, o);
      }
      KeyOrder(x, k, k);
      var least := if Before(x, k) then x else k;
      assert forall o <- keys :: o == least || Before(least, o);
    }
  }

  /** A set of keys in ascending order. */
  ghost function Sorted(keys: set<Key>): (sorted: seq<Key>)
    ensures Ascending(sorted) && forall k :: k in sorted <==> k in keys
    decreases |keys|
  {
    if keys == {} then []
    else
      LeastExists(keys);
      var k :| k in keys && forall o <- keys :: o == k || Before(k, o);
      var rest := Sorted(keys - {k});
      assert forall i :: 0 <= i < |rest| ==> rest[i] in rest;
      [k] + rest
  }

  method Least(keys: set<Key>) returns (least: Key)
    requires keys != {}
    ensures least in keys && forall k <- keys :: k == least || Before(least, k)
  {
    least :| least in keys;
    var rest := keys - {least};
    while rest != {}
      invariant least in keys && rest <= keys
      invariant forall k :: k in keys && k !in rest ==> k == least || Before(least, k)
      decreases |rest|
    {
      var k :| k in rest;
      forall other ensures Before(k, least) && Before(least, other) ==> Before(k, other) {
        KeyOrder(k, least, other);
      }
      KeyOrder(least, k, k);
      if Before(k, least) {
        least := k;
      }
      rest := rest - {k};
    }
  }

  method SortedKeys(keys: set<Key>) returns (sorted: seq<Key>)
    ensures sorted == Sorted(keys)
  {
    sorted := [];
    var rest := keys;
    while rest != {}
      invariant rest <= keys && Ascending(sorted)
      invariant forall k :: k in sorted <==> k in keys && k !in rest
      invariant forall i, k :: 0 <= i < |sorted| && k in rest ==> Before(sorted[i], k)
      decreases |rest|
    {
      var k := Least(rest);
      sorted := sorted + [k];
      rest := rest - {k};
    }
    AscendingUnique(sorted, Sorted(keys));
  }

  // ----- Records -----

  datatype BalanceRecord = BalanceRecord(asset: string, total: real, available: real, reserved: real)

  datatype PositionRecord = PositionRecord(symbol: string, asset: string, quantity: real, notional: real)

  datatype OrderRecord = OrderRecord(clientId: string, exchangeId: Option<string>, symbol: string, status: string,
                                     filled: real, remaining: real)

  datatype FillRecord = FillRecord(tradeId: string, orderId: string, symbol: string, quantity: real, price: real,
                                   fee: real)

  datatype PnlRecord = PnlRecord(realized: real, unrealized: real, fees: real)

  datatype Snapshot = Snapshot(balances: seq<BalanceRecord>, positions: seq<PositionRecord>, orders: seq<OrderRecord>,
                               fills: seq<FillRecord>, pnl: Option<PnlRecord>)

  datatype Tolerances = Tolerances(balance: real, notional: real)

  datatype Category = BalanceItem | PositionItem | OrderItem | FillItem | PnlItem

  datatype Severity = Warning | Critical

  datatype Value = Amount(x: real) | Text(s: string)

  /** A record reduced to its key and its two compared fields. */
  datatype Entry = Entry(key: Key, first: Value, second: Value)

  /** What a mismatch shows for one side. */
  datatype Shown = Missing | Whole(entry: Entry) | Field(value: Value) | Present(held: bool) | Pnl(record: PnlRecord)

  datatype Mismatch = Mismatch(category: Category, key: Key, severity: Severity, message: string, exchange: Shown,
                               internal: Shown)

  function BalanceEntry(b: BalanceRecord): Entry {
    Entry([b.asset], Amount(b.total), Amount(b.available))
  }

  function PositionEntry(p: PositionRecord): Entry {
    Entry([p.symbol, p.asset], Amount(p.quantity), Amount(p.notional))
  }

  function OrderEntry(o: OrderRecord): Entry {
    Entry([o.clientId], Text(o.status), Amount(o.filled))
  }

  function Entries<R>(records: seq<R>, entry: R -> Entry): seq<Entry> {
    seq(|records|, i requires 0 <= i < |records| => entry(records[i]))
  }

  /** Last record wins for each key. */
  function Collapse(entries: seq<Entry>): map<Key, Entry> {
    if entries == [] then map[]
    else Collapse(entries[..|entries| - 1])[entries[|entries| - 1].key := entries[|entries| - 1]]
  }

  /** Agreement within a tolerance; texts must be equal. */
  predicate Agree(a: Value, b: Value, tolerance: real) {
    match (a, b)
    case (Amount(x), Amount(y)) => Abs(x - y) <= tolerance
    case (Text(s), Text(t)) => s == t
    case _ => false
  }

  // ----- Comparison -----

  function SecondTolerance(c: Category, t: Tolerances): real {
    if c.PositionItem? then t.notional else t.balance
  }

  function Messages(c: Category): (string, string, string) {
    match c
    case BalanceItem => ("missing balance record", "total balance mismatch", "available balance mismatch")
    case PositionItem => ("missing position record", "position quantity mismatch", "position notional mismatch")
    case _ => ("missing order record", "order status mismatch", "filled quantity mismatch")
  }

  function Show(m: map<Key, Entry>, key: Key): Shown {
    if key in m then Whole(m[key]) else Missing
  }

  function CompareAt(c: Category, t: Tolerances, left: map<Key, Entry>, right: map<Key, Entry>,
                     key: Key): seq<Mismatch> {
    if key !in left || key !in right then
      [Mismatch(c, key, Critical, Messages(c).0, Show(left, key), Show(right, key))]
    else
      var l, r := left[key], right[key];
      (if Agree(l.first, r.first, t.balance) then []
       else [Mismatch(c, key, Critical, Messages(c).1, Field(l.first), Field(r.first))])
      + (if Agree(l.second, r.second, SecondTolerance(c, t)) then []
         else [Mismatch(c, key, Warning, Messages(c).2, Field(l.second), Field(r.second))])
  }

  function CompareKeys(c: Category, t: Tolerances, left: map<Key, Entry>, right: map<Key, Entry>,
                       keys: seq<Key>): seq<Mismatch> {
    if keys == [] then []
    else CompareKeys(c, t, left, right, keys[..|keys| - 1]) + CompareAt(c, t, left, right, keys[|keys| - 1])
  }

  ghost function Compared(c: Category, t: Tolerances, left: seq<Entry>, right: seq<Entry>): seq<Mismatch> {
    var l, r := Collapse(left), Collapse(right);
    CompareKeys(c, t, l, r, Sorted(l.Keys + r.Keys))
  }

  method Compare(c: Category, t: Tolerances, left: seq<Entry>, right: seq<Entry>) returns (mismatches: seq<Mismatch>)
    ensures mismatches == Compared(c, t, left, right)
  {
    hide Collapse, CompareAt, Ascending, Before;
    var l, r := Collapse(left), Collapse(right);
    var keys := SortedKeys(l.Keys + r.Keys);
    mismatches := [];
    for i := 0 to |keys|
      invariant mismatches == CompareKeys(c, t, l, r, keys[..i])
    {
      assert keys[..i + 1][..i] == keys[..i];
      mismatches := mismatches + CompareAt(c, t, l, r, keys[i]);
    }
    assert keys[..|keys|] == keys;
  }

  function TradeIds(fills: seq<FillRecord>): set<Key> {
    set f <- fills :: [f.tradeId]
  }

  function MissingFill(key: Key, left: set<Key>, right: set<Key>): Mismatch {
    Mismatch(FillItem, key, Critical, "fill missing from one side", Present(key in left), Present(key in right))
  }

  function MissingFills(keys: seq<Key>, left: set<Key>, right: set<Key>): seq<Mismatch> {
    seq(|keys|, i requires 0 <= i < |keys| => MissingFill(keys[i], left, right))
  }

  ghost function ComparedFills(left: seq<FillRecord>, right: seq<FillRecord>): seq<Mismatch> {
    var l, r := TradeIds(left), TradeIds(right);
    MissingFills(Sorted((l - r) + (r - l)), l, r)
  }

  function ComparePnlField(name: string, left: real, right: real, t: Tolerances): seq<Mismatch> {
    if Abs(left - right) <= t.notional then []
    else [Mismatch(PnlItem, [name], Warning, "pnl component mismatch", Field(Amount(left)), Field(Amount(right)))]
  }

  function ShowPnl(p: Option<PnlRecord>): Shown {
    if p.Some? then Pnl(p.value) else Missing
  }

  function ComparedPnl(left: Option<PnlRecord>, right: Option<PnlRecord>, t: Tolerances): seq<Mismatch> {
    if left.None? && right.None? then []
    else if left.None? || right.None? then
      [Mismatch(PnlItem, ["summary"], Critical, "missing pnl record", ShowPnl(left), ShowPnl(right))]
    else
      ComparePnlField("realized", left.value.realized, right.value.realized, t)
      + ComparePnlField("unrealized", left.value.unrealized, right.value.unrealized, t)
      + ComparePnlField("fees", left.value.fees, right.value.fees, t)
  }

  ghost function Reconciled(exchange: Snapshot, internal: Snapshot, t: Tolerances): seq<Mismatch> {
    Compared(BalanceItem, t, Entries(exchange.balances, BalanceEntry), Entries(internal.balances, BalanceEntry))
    + Compared(PositionItem, t, Entries(exchange.positions, PositionEntry), Entries(internal.positions, PositionEntry))
    + Compared(OrderItem, t, Entries(exchange.orders, OrderEntry), Entries(internal.orders, OrderEntry))
    + ComparedFills(exchange.fills, internal.fills)
    + ComparedPnl(exchange.pnl, internal.pnl, t)
  }

  method Reconcile(exchange: Snapshot, internal: Snapshot, t: Tolerances) returns (mismatches: seq<Mismatch>)
    ensures mismatches == Reconciled(exchange, internal, t)
  {
    mismatches := Compare(BalanceItem, t, Entries(exchange.balances, BalanceEntry),
                          Entries(internal.balances, BalanceEntry));
    var more := Compare(PositionItem, t, Entries(exchange.positions, PositionEntry),
                        Entries(internal.positions, PositionEntry));
    mismatches := mismatches + more;
    more := Compare(OrderItem, t, Entries(exchange.orders, OrderEntry), Entries(internal.orders, OrderEntry));
    mismatches := mismatches + more;
    var l, r := TradeIds(exchange.fills), TradeIds(internal.fills);
    var missing := SortedKeys((l - r) + (r - l));
    mismatches := mismatches + MissingFills(missing, l, r);
    mismatches := mismatches + ComparedPnl(exchange.pnl, internal.pnl, t);
  }

  // ----- No mismatch means agreement -----

  /** Same keys after collapsing, and agreement on both compared fields. */
  ghost predicate Matches(c: Category, t: Tolerances, left: seq<Entry>, right: seq<Entry>) {
    var l, r := Collapse(left), Collapse(right);
    && l.Keys == r.Keys
    && forall key <- l :: Agree(l[key].first, r[key].first, t.balance)
                          && Agree(l[key].second, r[key].second, SecondTolerance(c, t))
  }

  ghost predicate PnlMatches(left: Option<PnlRecord>, right: Option<PnlRecord>, t: Tolerances) {
    left.None? == right.None? &&
    (left.Some? ==>
       && Abs(left.value.realized - right.value.realized) <= t.notional
       && Abs(left.value.unrealized - right.value.unrealized) <= t.notional
       && Abs(left.value.fees - right.value.fees) <= t.notional)
  }

  ghost predicate SnapshotsMatch(exchange: Snapshot, internal: Snapshot, t: Tolerances) {
    && Matches(BalanceItem, t, Entries(exchange.balances, BalanceEntry), Entries(internal.balances, BalanceEntry))
    && Matches(PositionItem, t, Entries(exchange.positions, PositionEntry), Entries(internal.positions, PositionEntry))
    && Matches(OrderItem, t, Entries(exchange.orders, OrderEntry), Entries(internal.orders, OrderEntry))
    && TradeIds(exchange.fills) == TradeIds(internal.fills)
    && PnlMatches(exchange.pnl, internal.pnl, t)
  }

  lemma {:induction false} CompareKeysEmpty(c: Category, t: Tolerances, left: map<Key, Entry>, right: map<Key, Entry>,
                                            keys: seq<Key>)
    ensures CompareKeys(c, t, left, right, keys) == []
            <==> forall key <- keys :: CompareAt(c, t, left, right, key) == []
  {
    if keys != [] {
      CompareKeysEmpty(c, t, left, right, keys[..|keys| - 1]);
      assert forall key :: key in keys <==> key in keys[..|keys| - 1] || key == keys[|keys| - 1];
    }
  }

  lemma ComparedEmpty(c: Category, t: Tolerances, left: seq<Entry>, right: seq<Entry>)
    ensures Compared(c, t, left, right) == [] <==> Matches(c, t, left, right)
  {
    hide Collapse, Ascending, Agree, CompareAt, CompareKeys;
    var l, r := Collapse(left), Collapse(right);
    var keys := Sorted(l.Keys + r.Keys);
    CompareKeysEmpty(c, t, l, r, keys);
    forall key ensures CompareAt(c, t, l, r, key) == [] <==> AgreeAt(c, t, l, r, key) {
      CompareAtEmpty(c, t, l, r, key);
    }
    if Compared(c, t, left, right) == [] {
      forall key | key in l || key in r ensures AgreeAt(c, t, l, r, key) {
        assert key in keys;
      }
    } else {
      assert exists key :: key in keys && !AgreeAt(c, t, l, r, key);
    }
  }

  ghost predicate AgreeAt(c: Category, t: Tolerances, l: map<Key, Entry>, r: map<Key, Entry>, key: Key) {
    && key in l && key in r
    && Agree(l[key].first, r[key].first, t.balance) && Agree(l[key].second, r[key].second, SecondTolerance(c, t))
  }

  lemma CompareAtEmpty(c: Category, t: Tolerances, l: map<Key, Entry>, r: map<Key, Entry>, key: Key)
    ensures CompareAt(c, t, l, r, key) == [] <==> AgreeAt(c, t, l, r, key)
  {
    hide Agree, Messages, Show;
  }

  lemma ComparedFillsEmpty(left: seq<FillRecord>, right: seq<FillRecord>)
    ensures ComparedFills(left, right) == [] <==> TradeIds(left) == TradeIds(right)
  {
    var l, r := TradeIds(left), TradeIds(right);
    var keys := Sorted((l - r) + (r - l));
    hide TradeIds, Ascending;
    assert keys == [] <==> (l - r) + (r - l) == {} by {
      if keys != [] {
        assert keys[0] in keys;
      } else {
        assert forall k :: k !in (l - r) + (r - l);
      }
    }
  }

  /** Reconciliation reports nothing exactly when the snapshots match. */
  lemma NoMismatchExactly(exchange: Snapshot, internal: Snapshot, t: Tolerances)
    ensures Reconciled(exchange, internal, t) == [] <==> SnapshotsMatch(exchange, internal, t)
  {
    hide Compared, Matches, ComparedFills, TradeIds;
    ComparedEmpty(BalanceItem, t, Entries(exchange.balances, BalanceEntry), Entries(internal.balances, BalanceEntry));
    ComparedEmpty(PositionItem, t, Entries(exchange.positions, PositionEntry),
                  Entries(internal.positions, PositionEntry));
    ComparedEmpty(OrderItem, t, Entries(exchange.orders, OrderEntry), Entries(internal.orders, OrderEntry));
    ComparedFillsEmpty(exchange.fills, internal.fills);
  }

  // ----- Swapping the sides -----

  function Mirror(m: Mismatch): Mismatch {
    m.(exchange := m.internal, internal := m.exchange)
  }

  function MirrorAll(mismatches: seq<Mismatch>): seq<Mismatch> {
    seq(|mismatches|, i requires 0 <= i < |mismatches| => Mirror(mismatches[i]))
  }

  lemma MirrorConcat(a: seq<Mismatch>, b: seq<Mismatch>)
    ensures MirrorAll(a + b) == MirrorAll(a) + MirrorAll(b)
  {
  }

  lemma AgreeSymmetric(a: Value, b: Value, tolerance: real)
    ensures Agree(a, b, tolerance) == Agree(b, a, tolerance)
  {
  }

  lemma CompareAtSwapped(c: Category, t: Tolerances, left: map<Key, Entry>, right: map<Key, Entry>, key: Key)
    ensures CompareAt(c, t, right, left, key) == MirrorAll(CompareAt(c, t, left, right, key))
  {
    hide Agree, Messages;
    if key in left && key in right {
      AgreeSymmetric(left[key].first, right[key].first, t.balance);
      AgreeSymmetric(left[key].second, right[key].second, SecondTolerance(c, t));
    }
  }

  lemma {:induction false} CompareKeysSwapped(c: Category, t: Tolerances, left: map<Key, Entry>,
                                              right: map<Key, Entry>, keys: seq<Key>)
    ensures CompareKeys(c, t, right, left, keys) == MirrorAll(CompareKeys(c, t, left, right, keys))
  {
    hide CompareAt;
    if keys != [] {
      var init, key := keys[..|keys| - 1], keys[|keys| - 1];
      CompareKeysSwapped(c, t, left, right, init);
      CompareAtSwapped(c, t, left, right, key);
      MirrorConcat(CompareKeys(c, t, left, right, init), CompareAt(c, t, left, right, key));
    }
  }

  lemma ComparedSwapped(c: Category, t: Tolerances, left: seq<Entry>, right: seq<Entry>)
    ensures Compared(c, t, right, left) == MirrorAll(Compared(c, t, left, right))
  {
    var l, r := Collapse(left), Collapse(right);
    assert l.Keys + r.Keys == r.Keys + l.Keys;
    CompareKeysSwapped(c, t, l, r, Sorted(l.Keys + r.Keys));
  }

  lemma ComparedFillsSwapped(left: seq<FillRecord>, right: seq<FillRecord>)
    ensures ComparedFills(right, left) == MirrorAll(ComparedFills(left, right))
  {
    var l, r := TradeIds(left), TradeIds(right);
    assert (l - r) + (r - l) == (r - l) + (l - r);
  }

  lemma ComparedPnlSwapped(left: Option<PnlRecord>, right: Option<PnlRecord>, t: Tolerances)
    ensures ComparedPnl(right, left, t) == MirrorAll(ComparedPnl(left, right, t))
  {
    if left.Some? && right.Some? {
      var a := ComparePnlField("realized", left.value.realized, right.value.realized, t);
      var b := ComparePnlField("unrealized", left.value.unrealized, right.value.unrealized, t);
      var c := ComparePnlField("fees", left.value.fees, right.value.fees, t);
      MirrorConcat(a + b, c);
      MirrorConcat(a, b);
    }
  }

  /** Swapping the snapshots yields the same categories, keys, severities and messages in the same
      order, with the two shown values exchanged. */
  lemma ReconcileSwapped(exchange: Snapshot, internal: Snapshot, t: Tolerances)
    ensures Reconciled(internal, exchange, t) == MirrorAll(Reconciled(exchange, internal, t))
  {
    hide Compared, ComparedFills, ComparedPnl, MirrorAll;
    var b := Compared(BalanceItem, t, Entries(exchange.balances, BalanceEntry),
                      Entries(internal.balances, BalanceEntry));
    var p := Compared(PositionItem, t, Entries(exchange.positions, PositionEntry),
                      Entries(internal.positions, PositionEntry));
    var o := Compared(OrderItem, t, Entries(exchange.orders, OrderEntry), Entries(internal.orders, OrderEntry));
    var f := ComparedFills(exchange.fills, internal.fills);
    var n := ComparedPnl(exchange.pnl, internal.pnl, t);
    ComparedSwapped(BalanceItem, t, Entries(exchange.balances, BalanceEntry), Entries(internal.balances, BalanceEntry));
    ComparedSwapped(PositionItem, t, Entries(exchange.positions, PositionEntry),
                    Entries(internal.positions, PositionEntry));
    ComparedSwapped(OrderItem, t, Entries(exchange.orders, OrderEntry), Entries(internal.orders, OrderEntry));
    ComparedFillsSwapped(exchange.fills, internal.fills);
    ComparedPnlSwapped(exchange.pnl, internal.pnl, t);
    MirrorConcat(b + p + o + f, n);
    MirrorConcat(b + p + o, f);
    MirrorConcat(b + p, o);
    MirrorConcat(b, p);
  }
}
