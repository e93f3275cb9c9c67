/** What the placements and the stored rows say about each other over whole runs: which placement is
    open, what its status means, and whose row it is. */
module PaperRecords {
  import opened Common
  import opened PaperExecution
  import opened PaperLaws
  import opened PaperFills

  // ----- Placements -----

  /** No later placement has the same client id. */
  ghost predicate LastPlacement(p: Paper, k: nat) {
    k < |p.orders| && forall j :: k < j < |p.orders| ==> p.orders[j].intent.clientId != p.orders[k].intent.clientId
  }

  ghost predicate FirstPlacement(p: Paper, k: nat) {
    k < |p.orders| && forall j :: 0 <= j < k ==> p.orders[j].intent.clientId != p.orders[k].intent.clientId
  }

  ghost predicate IsOpen(p: Paper, k: nat)
    requires k < |p.orders|
  {
    var id := p.orders[k].intent.clientId;
    id in p.open && p.open[id] == k
  }

  /** What a status says about the quantity. */
  predicate StatusFits(o: Order) {
    match o.status
    case ACKNOWLEDGED => o.filled == 0.0
    case PARTIAL_FILL => 0.0 < o.filled < o.intent.quantity
    case FILLED => 0.0 < o.filled == o.intent.quantity
    case CANCELLED => true
    case _ => false
  }

  /** A placement is open exactly when it is the last under its id and is acknowledged or partly
      filled. */
  ghost predicate PlacementsFit(p: Paper) {
    forall k :: 0 <= k < |p.orders| ==>
                  && StatusFits(p.orders[k])
                  && (IsOpen(p, k) <==> LastPlacement(p, k) && p.orders[k].status in {ACKNOWLEDGED, PARTIAL_FILL})
  }

  // ----- Rows -----

  /** The row shows the order, status for status. */
  predicate Shows(row: Row, o: Order) {
    && row.price == o.intent.price && row.quantity == o.intent.quantity
    && row.filled == o.filled && row.average == o.average
    && (o.status.ACKNOWLEDGED? ==> row.status.Open?)
    && (o.status.PARTIAL_FILL? ==> row.status.PartiallyFilled?)
    && (o.status.FILLED? ==> row.status.Filled?)
    && (o.status.CANCELLED? ==> row.status.Cancelled?)
  }

  /** The row of every id ever placed shows its last placement. */
  ghost predicate RowsShowLast(p: Paper) {
    forall k: nat :: LastPlacement(p, k) ==>
                       && p.orders[k].intent.clientId in p.table
                       && Shows(p.table[p.orders[k].intent.clientId], p.orders[k])
  }

  /** Rows that were there before keep their account and side. */
  ghost predicate KeepsTerms(p: Paper, initial: Table) {
    forall id <- initial ::
      id in p.table && p.table[id].account == initial[id].account && p.table[id].side == initial[id].side
  }

  /** A new row is of the paper account, with the side of the first placement under its id. */
  ghost predicate NewTerms(p: Paper, initial: Table) {
    forall k: nat :: FirstPlacement(p, k) && p.orders[k].intent.clientId !in initial ==>
                       && p.orders[k].intent.clientId in p.table
                       && p.table[p.orders[k].intent.clientId].account == "paper"
                       && p.table[p.orders[k].intent.clientId].side == p.orders[k].intent.side
  }

  ghost predicate Placed(p: Paper, id: string) {
    exists k :: 0 <= k < |p.orders| && p.orders[k].intent.clientId == id
  }

  /** A row whose id was never placed is as it was. */
  ghost predicate OthersKept(p: Paper, initial: Table) {
    forall id <- p.table :: Placed(p, id) || (id in initial && p.table[id] == initial[id])
  }

  ghost predicate RowTerms(p: Paper, initial: Table) {
    KeepsTerms(p, initial) && NewTerms(p, initial) && OthersKept(p, initial)
  }

  ghost predicate Recorded(p: Paper, initial: Table) {
    p.WellFormed() && PlacementsFit(p) && RowsShowLast(p) && RowTerms(p, initial)
  }

  /** What persisting an order writes. */
  lemma PersistFacts(table: Table, o: Order)
    requires StatusFits(o)
    ensures var id, t := o.intent.clientId, Persist(table, o);
            && id in t && Shows(t[id], o)
            && t[id].account == (if id in table then table[id].account else "paper")
            && t[id].side == (if id in table then table[id].side else o.intent.side)
            && forall u :: u != id ==> (u in t <==> u in table) && (u in table ==> t[u] == table[u])
  {
  }

  lemma OneLast(p: Paper, j: nat, k: nat)
    requires LastPlacement(p, j) && LastPlacement(p, k) && p.orders[j].intent.clientId == p.orders[k].intent.clientId
    ensures j == k
  {
  }

  // ----- Changing one open placement in place -----

  /** r is p with the open placement of id replaced by an order for the same intent, which stays open or
      closes. */
  ghost predicate Replaces(p: Paper, r: Paper, id: string, after: Order) {
    && p.WellFormed() && r.WellFormed() && id in p.open
    && after.intent == p.orders[p.open[id]].intent
    && r.orders == p.orders[p.open[id] := after]
    && r.open == (if after.status in {FILLED, CANCELLED} then p.open - {id} else p.open)
    && r.table == Persist(p.table, after)
  }

  lemma SamePlacements(p: Paper, r: Paper, id: string, after: Order)
    requires Replaces(p, r, id, after)
    ensures |r.orders| == |p.orders|
    ensures forall k :: 0 <= k < |p.orders| ==> r.orders[k].intent == p.orders[k].intent
    ensures forall k: nat :: LastPlacement(r, k) <==> LastPlacement(p, k)
    ensures forall k: nat :: FirstPlacement(r, k) <==> FirstPlacement(p, k)
  {
    hide NoDuplicates, Persist;
    assert forall k :: 0 <= k < |p.orders| ==> r.orders[k].intent == p.orders[k].intent;
  }

  lemma ReplacedFits(p: Paper, r: Paper, id: string, after: Order)
    requires Replaces(p, r, id, after) && PlacementsFit(p) && StatusFits(after)
    ensures PlacementsFit(r)
  {
    SamePlacements(p, r, id, after);
    hide NoDuplicates, Persist, LastPlacement, StatusFits;
    assert IsOpen(p, p.open[id]);
    forall k | 0 <= k < |r.orders|
      ensures StatusFits(r.orders[k])
      ensures IsOpen(r, k) <==> LastPlacement(r, k) && r.orders[k].status in {ACKNOWLEDGED, PARTIAL_FILL}
    {
      assert IsOpen(p, k) <==> LastPlacement(p, k) && p.orders[k].status in {ACKNOWLEDGED, PARTIAL_FILL};
      ReplacedStatus(after, p.orders[k]);
    }
  }

  lemma ReplacedStatus(after: Order, o: Order)
    requires StatusFits(after)
    ensures after.status in {ACKNOWLEDGED, PARTIAL_FILL, FILLED, CANCELLED}
  {
  }

  lemma ReplacedRows(p: Paper, r: Paper, id: string, after: Order)
    requires Replaces(p, r, id, after) && PlacementsFit(p) && RowsShowLast(p) && StatusFits(after)
    ensures RowsShowLast(r)
  {
    hide NoDuplicates, FirstPlacement, LastPlacement, Persist, Shows, StatusFits;
    SamePlacements(p, r, id, after);
    PersistFacts(p.table, after);
    assert IsOpen(p, p.open[id]) && LastPlacement(p, p.open[id]);
    forall k: nat | LastPlacement(r, k)
      ensures k < |r.orders| && r.orders[k].intent.clientId in r.table
              && Shows(r.table[r.orders[k].intent.clientId], r.orders[k])
    {
      LastInRange(r, k);
      if p.orders[k].intent.clientId == id {
        OneLast(p, k, p.open[id]);
      }
    }
  }

  lemma ReplacedTerms(p: Paper, r: Paper, id: string, after: Order, initial: Table)
    requires Replaces(p, r, id, after) && PlacementsFit(p) && RowsShowLast(p) && RowTerms(p, initial)
             && StatusFits(after)
    ensures RowTerms(r, initial)
  {
    hide NoDuplicates, FirstPlacement, LastPlacement, Persist, Shows, StatusFits, NewTerms, OthersKept;
    PersistFacts(p.table, after);
    assert IsOpen(p, p.open[id]) && LastPlacement(p, p.open[id]);
    assert id in p.table;
    ReplacedNewTerms(p, r, id, after, initial);
    ReplacedOthers(p, r, id, after, initial);
  }

  lemma ReplacedNewTerms(p: Paper, r: Paper, id: string, after: Order, initial: Table)
    requires Replaces(p, r, id, after) && StatusFits(after) && id in p.table && NewTerms(p, initial)
    ensures NewTerms(r, initial)
  {
    hide NoDuplicates, FirstPlacement, LastPlacement, Persist, Shows, StatusFits;
    SamePlacements(p, r, id, after);
    PersistFacts(p.table, after);
    FirstsInRange(r);
  }

  lemma ReplacedOthers(p: Paper, r: Paper, id: string, after: Order, initial: Table)
    requires Replaces(p, r, id, after) && StatusFits(after) && OthersKept(p, initial)
    ensures OthersKept(r, initial)
  {
    hide NoDuplicates, Persist, Shows, StatusFits;
    PersistFacts(p.table, after);
    assert p.orders[p.open[id]].intent.clientId == id;
    forall u | Placed(p, u) ensures Placed(r, u) {
      var k :| 0 <= k < |p.orders| && p.orders[k].intent.clientId == u;
      assert r.orders[k].intent.clientId == u;
    }
  }

  lemma FirstsInRange(p: Paper)
    ensures forall k: nat :: FirstPlacement(p, k) ==> k < |p.orders|
  {
  }

  lemma ReplacedRecorded(p: Paper, r: Paper, id: string, after: Order, initial: Table)
    requires Replaces(p, r, id, after) && Recorded(p, initial) && StatusFits(after)
    ensures Recorded(r, initial)
  {
    hide PlacementsFit, RowsShowLast, RowTerms, StatusFits, Paper.WellFormed;
    ReplacedFits(p, r, id, after);
    ReplacedRows(p, r, id, after);
    ReplacedTerms(p, r, id, after, initial);
  }

  lemma CancelRecorded(p: Paper, id: string, initial: Table)
    requires Recorded(p, initial)
    ensures Recorded(CancelOrder(p, id), initial)
  {
    hide PlacementsFit, RowsShowLast, RowTerms, NoDuplicates, Persist;
    if id in p.open {
      ReplacedRecorded(p, CancelOrder(p, id), id, p.orders[p.open[id]].(status := CANCELLED), initial);
    }
  }

  lemma FilledFits(o: Order, price: real, quantity: real)
    requires StatusFits(o) && o.status in {ACKNOWLEDGED, PARTIAL_FILL} && 0.0 < quantity <= o.Remaining()
    ensures StatusFits(FilledOrder(o, price, quantity)) && FilledOrder(o, price, quantity).intent == o.intent
    ensures FilledOrder(o, price, quantity).status in {PARTIAL_FILL, FILLED}
  {
    hide AverageAfter;
  }

  lemma FillRecorded(p: Paper, id: string, price: real, quantity: real, initial: Table)
    requires p.WellFormed() && Recorded(p, initial) && id in p.open
    requires 0.0 < quantity <= p.orders[p.open[id]].Remaining()
    ensures Recorded(ApplyFill(p, id, price, quantity), initial)
  {
    hide PlacementsFit, RowsShowLast, RowTerms, Paper.WellFormed, StatusFits, Recorded, ApplyFill, FilledOrder;
    OpenFits(p, id, initial);
    var o := p.orders[p.open[id]];
    FilledFits(o, price, quantity);
    FillReplaces(p, id, price, quantity);
    ReplacedRecorded(p, ApplyFill(p, id, price, quantity), id, FilledOrder(o, price, quantity), initial);
  }

  lemma FillReplaces(p: Paper, id: string, price: real, quantity: real)
    requires p.WellFormed() && id in p.open
    requires FilledOrder(p.orders[p.open[id]], price, quantity).status in {PARTIAL_FILL, FILLED}
    requires FilledOrder(p.orders[p.open[id]], price, quantity).intent == p.orders[p.open[id]].intent
    ensures Replaces(p, ApplyFill(p, id, price, quantity), id, FilledOrder(p.orders[p.open[id]], price, quantity))
  {
    hide NoDuplicates, Persist, FilledOrder, Settle;
  }

  lemma OpenFits(p: Paper, id: string, initial: Table)
    requires Recorded(p, initial) && id in p.open
    ensures p.open[id] < |p.orders|
    ensures StatusFits(p.orders[p.open[id]]) && p.orders[p.open[id]].status in {ACKNOWLEDGED, PARTIAL_FILL}
  {
    hide RowsShowLast, RowTerms, NoDuplicates, StatusFits;
    assert IsOpen(p, p.open[id]);
  }

  // ----- A new placement -----

  lemma AcceptPlacements(p: Paper, intent: Intent, now: real)
    requires p.WellFormed()
    ensures var r, n := Accept(p, intent, now), |p.orders|;
            && LastPlacement(r, n)
            && (forall k: nat :: k < n ==>
                  (LastPlacement(r, k) <==> LastPlacement(p, k) && p.orders[k].intent.clientId != intent.clientId))
            && (forall k: nat :: k < n ==> (FirstPlacement(r, k) <==> FirstPlacement(p, k)))
            && (FirstPlacement(r, n) <==> forall k :: 0 <= k < n ==> p.orders[k].intent.clientId != intent.clientId)
  {
    hide NoDuplicates, Persist;
    var r, n := Accept(p, intent, now), |p.orders|;
    assert forall k :: 0 <= k < n ==> r.orders[k] == p.orders[k];
  }

  lemma AcceptFits(p: Paper, intent: Intent, now: real)
    requires p.WellFormed() && PlacementsFit(p)
    ensures PlacementsFit(Accept(p, intent, now))
  {
    AcceptPlacements(p, intent, now);
    hide NoDuplicates, Persist, LastPlacement, FirstPlacement;
    var r := Accept(p, intent, now);
    forall k | 0 <= k < |r.orders|
      ensures StatusFits(r.orders[k])
      ensures IsOpen(r, k) <==> LastPlacement(r, k) && r.orders[k].status in {ACKNOWLEDGED, PARTIAL_FILL}
    {
      if k < |p.orders| {
        assert IsOpen(p, k) <==> LastPlacement(p, k) && p.orders[k].status in {ACKNOWLEDGED, PARTIAL_FILL};
      }
    }
  }

  lemma AcceptRows(p: Paper, intent: Intent, now: real)
    requires p.WellFormed() && RowsShowLast(p)
    ensures RowsShowLast(Accept(p, intent, now))
  {
    hide NoDuplicates, LastPlacement, FirstPlacement, Persist, Shows;
    AcceptPlacements(p, intent, now);
    var r := Accept(p, intent, now);
    PersistFacts(p.table, Order(intent, ACKNOWLEDGED, 0.0, None, now));
    forall k: nat | LastPlacement(r, k)
      ensures k < |r.orders| && r.orders[k].intent.clientId in r.table
              && Shows(r.table[r.orders[k].intent.clientId], r.orders[k])
    {
      LastInRange(r, k);
      if k < |p.orders| {
        assert LastPlacement(p, k);
      }
    }
  }

  lemma LastInRange(p: Paper, k: nat)
    requires LastPlacement(p, k)
    ensures k < |p.orders|
  {
  }

  lemma AcceptTerms(p: Paper, intent: Intent, now: real, initial: Table)
    requires p.WellFormed() && RowTerms(p, initial)
    ensures RowTerms(Accept(p, intent, now), initial)
  {
    hide NoDuplicates, Shows, Persist, NewTerms, OthersKept;
    PersistFacts(p.table, Order(intent, ACKNOWLEDGED, 0.0, None, now));
    AcceptNewTerms(p, intent, now, initial);
    AcceptOthers(p, intent, now, initial);
  }

  lemma AcceptParts(p: Paper, intent: Intent, now: real)
    requires p.WellFormed()
    ensures var r, o := Accept(p, intent, now), Order(intent, ACKNOWLEDGED, 0.0, None, now);
            r.orders == p.orders + [o] && r.table == Persist(p.table, o)
  {
    hide Paper.WellFormed, Persist;
  }

  lemma AcceptNewTerms(p: Paper, intent: Intent, now: real, initial: Table)
    requires p.WellFormed() && NewTerms(p, initial) && OthersKept(p, initial)
    ensures NewTerms(Accept(p, intent, now), initial)
  {
    hide Paper.WellFormed, Accept, Shows, LastPlacement, FirstPlacement, Persist, Placed;
    AcceptParts(p, intent, now);
    AcceptPlacements(p, intent, now);
    var r, n, id := Accept(p, intent, now), |p.orders|, intent.clientId;
    PersistFacts(p.table, Order(intent, ACKNOWLEDGED, 0.0, None, now));
    FirstsInRange(r);
    forall k: nat | FirstPlacement(r, k) && r.orders[k].intent.clientId !in initial
      ensures var u := r.orders[k].intent.clientId;
              u in r.table && r.table[u].account == "paper" && r.table[u].side == r.orders[k].intent.side
    {
      if k < n {
        assert FirstPlacement(p, k);
      } else {
        NotPlaced(p, id);
      }
    }
  }

  lemma NotPlaced(p: Paper, id: string)
    requires forall k :: 0 <= k < |p.orders| ==> p.orders[k].intent.clientId != id
    ensures !Placed(p, id)
  {
  }

  lemma AcceptOthers(p: Paper, intent: Intent, now: real, initial: Table)
    requires p.WellFormed() && OthersKept(p, initial)
    ensures OthersKept(Accept(p, intent, now), initial)
  {
    hide NoDuplicates, Shows, Persist;
    var r := Accept(p, intent, now);
    PersistFacts(p.table, Order(intent, ACKNOWLEDGED, 0.0, None, now));
    forall u | Placed(p, u) || u == intent.clientId ensures Placed(r, u) {
      if Placed(p, u) {
        var k :| 0 <= k < |p.orders| && p.orders[k].intent.clientId == u;
        assert r.orders[k].intent.clientId == u;
      } else {
        assert r.orders[|p.orders|].intent.clientId == u;
      }
    }
  }

  lemma AcceptRecorded(p: Paper, intent: Intent, now: real, initial: Table)
    requires Recorded(p, initial)
    ensures Recorded(Accept(p, intent, now), initial)
  {
    hide PlacementsFit, RowsShowLast, RowTerms, Paper.WellFormed, Accept;
    AcceptFits(p, intent, now);
    AcceptRows(p, intent, now);
    AcceptTerms(p, intent, now, initial);
  }

  // ----- Runs -----

  lemma FillOneRecorded(p: Paper, id: string, symbol: string, book: Book, initial: Table)
    requires Recorded(p, initial) && id in p.open
    ensures Recorded(FillOne(p, id, symbol, book), initial)
  {
    OpenFits(p, id, initial);
    hide PlacementsFit, RowsShowLast, RowTerms, NoDuplicates, MatchOrder, ApplyFill, StatusFits;
    var o := p.orders[p.open[id]];
    if o.intent.symbol == symbol && o.Remaining() > 0.0 {
      var _ := MatchIsBest(o, book);
      var (price, quantity) := MatchOrder(o, book);
      if quantity > 0.0 && price.Some? {
        FillRecorded(p, id, price.value, quantity, initial);
      }
    }
  }

  lemma {:induction false} FillUpToRecorded(p: Paper, n: nat, symbol: string, book: Book, initial: Table)
    requires Recorded(p, initial) && n <= |p.keys|
    ensures Recorded(FillUpTo(p, n, symbol, book), initial)
  {
    hide PlacementsFit, RowsShowLast, RowTerms, FillOne, Paper.WellFormed;
    if n > 0 {
      FillUpToRecorded(p, n - 1, symbol, book, initial);
      FillOneRecorded(FillUpTo(p, n - 1, symbol, book), p.keys[n - 1], symbol, book, initial);
    }
  }

  lemma PlaceRecorded(p: Paper, intent: Intent, book: Option<Book>, now: real, initial: Table)
    requires Recorded(p, initial)
    ensures Recorded(PlaceOrder(p, intent, book, now), initial)
  {
    hide PlacementsFit, RowsShowLast, RowTerms, Accept, FillUpTo, Paper.WellFormed;
    AcceptRecorded(p, intent, now, initial);
    if book.Some? {
      var accepted := Accept(p, intent, now);
      FillUpToRecorded(accepted, |accepted.keys|, intent.symbol, book.value, initial);
    }
  }

  lemma StepRecorded(p: Paper, e: Event, initial: Table)
    requires Recorded(p, initial)
    ensures Recorded(Step(p, e), initial)
  {
    hide PlacementsFit, RowsShowLast, RowTerms, PlaceOrder, CancelOrder, FillUpTo, Paper.WellFormed;
    match e
    case Place(intent, book, now) => PlaceRecorded(p, intent, book, now, initial);
    case Cancel(id) => CancelRecorded(p, id, initial);
    case Replace(id, intent, book, now) =>
      CancelRecorded(p, id, initial);
      PlaceRecorded(CancelOrder(p, id), intent, book, now, initial);
    case BookUpdate(symbol, book) => FillUpToRecorded(p, |p.keys|, symbol, book, initial);
  }

  /** Over every run from a fresh engine, over any table: a placement is open exactly when it is the
      last under its id and acknowledged or partly filled; statuses say what they mean; the row of each
      id shows its last placement; and rows keep account and side. */
  lemma {:induction false} RunRecorded(origin: Origin, events: seq<Event>)
    ensures Fresh(origin).WellFormed() && Recorded(Run(Fresh(origin), events), origin.table)
  {
    var p := Fresh(origin);
    assert p.WellFormed();
    if events == [] {
      assert Recorded(p, origin.table);
    } else {
      hide Recorded, Step;
      RunRecorded(origin, events[..|events| - 1]);
      StepRecorded(Run(p, events[..|events| - 1]), events[|events| - 1], origin.table);
    }
  }

  /** Cancelling an open id marks its placement and its row, closes it and touches no other. */
  lemma CancelCloses(p: Paper, id: string)
    requires p.WellFormed() && id in p.open
    ensures var r, k := CancelOrder(p, id), p.open[id];
            && r.orders[k].status == CANCELLED && id !in r.open
            && id in r.table && r.table[id].status == Cancelled
            && r.fills == p.fills && r.account == p.account
            && (forall u :: u != id ==> (u in r.open <==> u in p.open) && (u in r.table <==> u in p.table))
            && (forall u <- p.open :: u != id ==> r.open[u] == p.open[u] && r.orders[p.open[u]] == p.orders[p.open[u]])
            && (forall u <- p.table :: u != id ==> r.table[u] == p.table[u])
  {
    hide NoDuplicates;
  }

  /** Replacing an open order cancels it for good and opens one new placement: unless the new one takes
      its id, the id is closed. */
  lemma ReplaceExactly(p: Paper, id: string, intent: Intent, book: Option<Book>, now: real)
    requires p.WellFormed() && id in p.open
    ensures var r, k := ReplaceOrder(p, id, intent, book, now), p.open[id];
            && |r.orders| == |p.orders| + 1
            && r.orders[k] == p.orders[k].(status := CANCELLED)
            && r.orders[|p.orders|].intent == intent
            && (id != intent.clientId ==> id !in r.open)
  {
    hide NoDuplicates, Persist, FillUpTo;
    var cancelled := CancelOrder(p, id);
    var accepted, k := Accept(cancelled, intent, now), p.open[id];
    assert forall u <- accepted.open :: accepted.open[u] != k;
    if book.Some? {
      ClosedKept(accepted, |accepted.keys|, intent.symbol, book.value, k);
      hide Takes, Grown;
      BookUpdateExactly(accepted, intent.symbol, book.value, intent.clientId);
    }
  }

  // ----- Dictionary order -----

  /** a is listed before b. */
  ghost predicate Precedes(s: seq<string>, a: string, b: string) {
    exists i, j :: 0 <= i < j < |s| && s[i] == a && s[j] == b
  }

  lemma {:induction false} WithoutKeepsOrder(s: seq<string>, removed: set<string>, a: string, b: string)
    ensures Precedes(Without(s, removed), a, b) <==> Precedes(s, a, b) && a !in removed && b !in removed
  {
    if s != [] {
      var rest := Without(s[1..], removed);
      WithoutKeepsOrder(s[1..], removed, a, b);
      PrecedesFirst(s, a, b);
      if s[0] !in removed {
        PrecedesFirst([s[0]] + rest, a, b);
        assert ([s[0]] + rest)[1..] == rest;
      }
    }
  }

  lemma PrecedesFirst(s: seq<string>, a: string, b: string)
    requires s != []
    ensures Precedes(s, a, b) <==> (s[0] == a && b in s[1..]) || Precedes(s[1..], a, b)
  {
    if Precedes(s, a, b) {
      var i, j :| 0 <= i < j < |s| && s[i] == a && s[j] == b;
      assert s[1..][j - 1] == b;
      if i > 0 {
        assert s[1..][i - 1] == a;
      }
    }
    if s[0] == a && b in s[1..] {
      var j :| 0 <= j < |s[1..]| && s[1..][j] == b;
      assert s[0] == a && s[j + 1] == b;
    }
    if Precedes(s[1..], a, b) {
      var i, j :| 0 <= i < j < |s[1..]| && s[1..][i] == a && s[1..][j] == b;
      assert s[i + 1] == a && s[j + 1] == b;
    }
  }

  /** The dictionary keeps insertion order: placing under a known id keeps its place, a new id goes to
      the end, and closing one leaves the others in order. */
  lemma DictionaryOrder(p: Paper, intent: Intent, now: real, id: string, a: string, b: string)
    requires p.WellFormed()
    ensures p.keys <= Accept(p, intent, now).keys && |Accept(p, intent, now).keys| <= |p.keys| + 1
    ensures Precedes(CancelOrder(p, id).keys, a, b) <==> Precedes(p.keys, a, b) && a != id && b != id
  {
    hide NoDuplicates, Persist;
    WithoutKeepsOrder(p.keys, {id}, a, b);
    if id !in p.open {
      assert id !in p.keys;
    }
  }
}
