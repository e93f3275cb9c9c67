/** What a book update does to every order, on both sides: which orders it fills, by how much, and
    which of them it closes. */
module PaperFills {
  import opened Common
  import opened PaperExecution
  import opened PaperLaws

  /** The order trades against offer i: it is of the symbol, limit-type and has quantity left, and the
      best offer is within its limit and not empty. */
  ghost predicate Takes(o: Order, symbol: string, book: Book, i: nat) {
    && o.intent.symbol == symbol && o.intent.orderType in {Limit, PostOnly} && o.filled < o.intent.quantity
    && BestOffer(o.intent.side, book, i)
    && WithinLimit(o.intent.side, Offers(o.intent.side, book)[i].price, o.intent.price)
    && Offers(o.intent.side, book)[i].size > 0.0
  }

  /** u is o after trading against an offer: for what is left or for what is offered, the smaller. */
  ghost predicate Grown(o: Order, u: Order, offer: Level) {
    && u.intent == o.intent && u.createdAt == o.createdAt
    && u.filled == (if o.intent.quantity - o.filled <= offer.size then o.intent.quantity else o.filled + offer.size)
    && u.status == (if u.filled < u.intent.quantity then PARTIAL_FILL else FILLED)
  }

  /** The order of an open id after an update: grown if it trades and closed if nothing is left,
      otherwise as it was. */
  ghost predicate Updated(p: Paper, r: Paper, symbol: string, book: Book, id: string)
    requires p.WellFormed() && r.WellFormed() && id in p.open
  {
    && |r.orders| == |p.orders|
    && (id in r.open ==> r.open[id] == p.open[id])
    && var o, u := p.orders[p.open[id]], r.orders[p.open[id]];
       && u.intent == o.intent
       && (forall i: nat :: Takes(o, symbol, book, i) ==>
                              && Grown(o, u, Offers(o.intent.side, book)[i])
                              && (id in r.open <==> u.filled < u.intent.quantity))
       && ((forall i: nat :: !Takes(o, symbol, book, i)) ==> u == o && id in r.open)
  }

  ghost predicate Untouched(p: Paper, r: Paper, id: string)
    requires p.WellFormed() && r.WellFormed() && id in p.open
  {
    |r.orders| == |p.orders| && id in r.open && r.open[id] == p.open[id] && r.orders[p.open[id]] == p.orders[p.open[id]]
  }

  /** The best offers of a book share one price and one place. */
  lemma OneBestOffer(side: Side, book: Book, i: nat, j: nat)
    requires BestOffer(side, book, i) && BestOffer(side, book, j)
    ensures i == j
  {
    var offers := Offers(side, book);
    assert WithinLimit(side, offers[i].price, Some(offers[j].price));
    assert WithinLimit(side, offers[j].price, Some(offers[i].price));
  }

  /** When an order trades, and against which offer. */
  lemma MatchTakes(o: Order, symbol: string, book: Book) returns (i: nat)
    requires o.intent.symbol == symbol && o.Remaining() > 0.0
    ensures var (price, quantity) := MatchOrder(o, book);
            if price.Some? && quantity > 0.0
            then
              && Takes(o, symbol, book, i)
              && quantity == Min(o.intent.quantity - o.filled, Offers(o.intent.side, book)[i].size)
            else forall j: nat :: !Takes(o, symbol, book, j)
  {
    hide MatchOrder;
    i := MatchIsBest(o, book);
    forall j: nat | Takes(o, symbol, book, j)
      ensures MatchOrder(o, book).0.Some? && j == i && MatchOrder(o, book).1 > 0.0
    {
      assert Offers(o.intent.side, book)[j] in Offers(o.intent.side, book);
      OneBestOffer(o.intent.side, book, i, j);
    }
  }

  lemma FillGrows(o: Order, price: real, offer: Level)
    requires o.filled < o.intent.quantity && offer.size > 0.0
    ensures Grown(o, FilledOrder(o, price, Min(o.intent.quantity - o.filled, offer.size)), offer)
  {
    hide AverageAfter;
  }

  lemma FillOneUpdates(p: Paper, id: string, symbol: string, book: Book)
    requires p.WellFormed() && id in p.open
    ensures Updated(p, FillOne(p, id, symbol, book), symbol, book, id)
  {
    hide MatchOrder, FilledOrder, Settle, Persist, NoDuplicates;
    var o := p.orders[p.open[id]];
    if o.intent.symbol == symbol && o.Remaining() > 0.0 {
      var i := MatchTakes(o, symbol, book);
      var (price, quantity) := MatchOrder(o, book);
      if price.Some? && quantity > 0.0 {
        FillGrows(o, price.value, Offers(o.intent.side, book)[i]);
        forall j: nat | Takes(o, symbol, book, j) ensures j == i { OneBestOffer(o.intent.side, book, i, j); }
      }
    }
  }

  /** Offering one order to the book leaves the others alone. */
  lemma FillOneKeeps(p: Paper, id: string, symbol: string, book: Book, other: string)
    requires p.WellFormed() && id in p.open && other in p.open && other != id
    ensures Untouched(p, FillOne(p, id, symbol, book), other)
  {
    hide MatchOrder, FilledOrder, Settle, Persist, NoDuplicates;
  }

  lemma {:induction false} FillUpToUpdates(p: Paper, n: nat, symbol: string, book: Book, id: string)
    requires p.WellFormed() && n <= |p.keys| && id in p.open
    ensures var r := FillUpTo(p, n, symbol, book);
            if id in p.keys[..n] then Updated(p, r, symbol, book, id) else Untouched(p, r, id)
  {
    hide Paper.WellFormed, FillOne, Updated, Untouched;
    if n == 0 {
      UntouchedSelf(p, id);
    } else {
      var q, at := FillUpTo(p, n - 1, symbol, book), p.keys[n - 1];
      FillUpToUpdates(p, n - 1, symbol, book, id);
      KeyOnce(p, n - 1);
      OwnId(p, id);
      UpdatedOwn(p, q, symbol, book, id);
      if id == at {
        UntouchedOpen(p, q, id);
        FillOneUpdates(q, id, symbol, book);
        UntouchedThenUpdated(p, q, FillOne(q, at, symbol, book), symbol, book, id);
      } else if id in q.open {
        FillOneKeeps(q, at, symbol, book, id);
        ThenUntouched(p, q, FillOne(q, at, symbol, book), symbol, book, id);
      } else {
        ClosedStays(q, at, symbol, book, id, p.open[id]);
        ThenClosed(p, q, FillOne(q, at, symbol, book), symbol, book, id);
      }
    }
  }

  lemma UntouchedSelf(p: Paper, id: string)
    requires p.WellFormed() && id in p.open
    ensures Untouched(p, p, id)
  {
    hide NoDuplicates;
  }

  lemma UntouchedOpen(p: Paper, q: Paper, id: string)
    requires p.WellFormed() && q.WellFormed() && id in p.open && Untouched(p, q, id)
    ensures id in q.open
  {
    hide NoDuplicates;
  }

  /** Either way the placement of the id is in range and still has its intent. */
  lemma UpdatedOwn(p: Paper, q: Paper, symbol: string, book: Book, id: string)
    requires p.WellFormed() && q.WellFormed() && id in p.open
    ensures Updated(p, q, symbol, book, id) || Untouched(p, q, id) ==>
              && |q.orders| == |p.orders| && p.open[id] < |q.orders|
              && q.orders[p.open[id]].intent == p.orders[p.open[id]].intent
  {
    hide NoDuplicates, Takes, Grown;
  }

  lemma UntouchedThenUpdated(p: Paper, q: Paper, r: Paper, symbol: string, book: Book, id: string)
    requires p.WellFormed() && q.WellFormed() && r.WellFormed() && id in p.open && Untouched(p, q, id)
    requires id in q.open && Updated(q, r, symbol, book, id)
    ensures Updated(p, r, symbol, book, id)
  {
    hide NoDuplicates, Takes, Grown;
  }

  lemma ThenUntouched(p: Paper, q: Paper, r: Paper, symbol: string, book: Book, id: string)
    requires p.WellFormed() && q.WellFormed() && r.WellFormed() && id in p.open && id in q.open && Untouched(q, r, id)
    ensures Untouched(p, q, id) ==> Untouched(p, r, id)
    ensures Updated(p, q, symbol, book, id) ==> Updated(p, r, symbol, book, id)
  {
    hide NoDuplicates, Takes, Grown;
  }

  lemma ThenClosed(p: Paper, q: Paper, r: Paper, symbol: string, book: Book, id: string)
    requires p.WellFormed() && q.WellFormed() && r.WellFormed() && id in p.open && id !in q.open && id !in r.open
    requires |q.orders| == |p.orders| == |r.orders| && r.orders[p.open[id]] == q.orders[p.open[id]]
    ensures !Untouched(p, q, id)
    ensures Updated(p, q, symbol, book, id) ==> Updated(p, r, symbol, book, id)
  {
    hide NoDuplicates, Takes, Grown;
  }

  lemma OwnId(p: Paper, id: string)
    requires p.WellFormed() && id in p.open
    ensures p.open[id] < |p.orders| && p.orders[p.open[id]].intent.clientId == id
  {
  }

  lemma KeyOnce(p: Paper, n: nat)
    requires p.WellFormed() && n < |p.keys|
    ensures p.keys[..n + 1] == p.keys[..n] + [p.keys[n]] && p.keys[n] !in p.keys[..n]
  {
  }

  /** A placement that no open id maps to is out of reach. */
  lemma ClosedStays(p: Paper, at: string, symbol: string, book: Book, id: string, k: nat)
    requires p.WellFormed() && at in p.open && id !in p.open && k < |p.orders| && p.orders[k].intent.clientId == id
    ensures var r := FillOne(p, at, symbol, book);
            |r.orders| == |p.orders| && id !in r.open && r.orders[k] == p.orders[k]
  {
    hide MatchOrder, FilledOrder, Settle, Persist, NoDuplicates;
  }

  /** A book update, for every open order: it is filled from the best offer exactly when it takes it,
      it leaves the dictionary exactly when nothing is left, and otherwise it is as before. */
  lemma BookUpdateExactly(p: Paper, symbol: string, book: Book, id: string)
    requires p.WellFormed() && id in p.open
    ensures Updated(p, SimulateFills(p, symbol, book), symbol, book, id)
  {
    hide FillUpTo, Takes, Grown, NoDuplicates;
    FillUpToUpdates(p, |p.keys|, symbol, book, id);
    assert p.keys[..|p.keys|] == p.keys;
  }

  /** The place of an id in a list without repeats. */
  function PlaceOf(keys: seq<string>, id: string): nat {
    if keys == [] || keys[0] == id then 0 else 1 + PlaceOf(keys[1..], id)
  }

  lemma {:induction false} PlaceAt(keys: seq<string>, n: nat)
    requires n < |keys| && keys[n] !in keys[..n]
    ensures PlaceOf(keys, keys[n]) == n
  {
    if n > 0 {
      assert keys[0] in keys[..n] && keys[1..][..n - 1] == keys[..n][1..];
      assert forall x <- keys[..n][1..] :: x in keys[..n];
      PlaceAt(keys[1..], n - 1);
    }
  }

  /** The fills from one on are for ids in the given order, all among the first n. */
  ghost predicate FollowsKeys(keys: seq<string>, n: nat, before: nat, fills: seq<Fill>) {
    && before <= |fills|
    && (forall a :: before <= a < |fills| ==> PlaceOf(keys, fills[a].clientId) < n)
    && (forall a, b :: before <= a < b < |fills| ==>
                         PlaceOf(keys, fills[a].clientId) < PlaceOf(keys, fills[b].clientId))
  }

  lemma FillOneAppends(p: Paper, id: string, symbol: string, book: Book)
    requires p.WellFormed() && id in p.open
    ensures var r := FillOne(p, id, symbol, book);
            || r.fills == p.fills
            || (|r.fills| == |p.fills| + 1 && p.fills <= r.fills && r.fills[|p.fills|].clientId == id)
  {
    hide Paper.WellFormed, MatchOrder, FilledOrder, Settle, Persist;
  }

  lemma FollowsMore(keys: seq<string>, n: nat, before: nat, fills: seq<Fill>, f: Fill)
    requires FollowsKeys(keys, n, before, fills)
    ensures FollowsKeys(keys, n + 1, before, fills)
    ensures PlaceOf(keys, f.clientId) == n ==> FollowsKeys(keys, n + 1, before, fills + [f])
  {
    hide PlaceOf;
  }

  /** The fills of a book update come in dictionary order, at most one for each order. */
  lemma {:induction false} FillsInOrder(p: Paper, n: nat, symbol: string, book: Book)
    requires p.WellFormed() && n <= |p.keys|
    ensures FollowsKeys(p.keys, n, |p.fills|, FillUpTo(p, n, symbol, book).fills)
  {
    hide Paper.WellFormed, FillOne, FollowsKeys;
    if n == 0 {
      FollowsNone(p.keys, p.fills);
    } else {
      var q := FillUpTo(p, n - 1, symbol, book);
      FillsInOrder(p, n - 1, symbol, book);
      FillOneAppends(q, p.keys[n - 1], symbol, book);
      var r := FillOne(q, p.keys[n - 1], symbol, book);
      var f := if r.fills == q.fills then Fill(0, "", "", Buy, 0.0, 0.0, 0.0) else r.fills[|q.fills|];
      FollowsMore(p.keys, n - 1, |p.fills|, q.fills, f);
      if r.fills != q.fills {
        KeyOnce(p, n - 1);
        PlaceAt(p.keys, n - 1);
        assert r.fills == q.fills + [f];
      }
    }
  }

  lemma FollowsNone(keys: seq<string>, fills: seq<Fill>)
    ensures FollowsKeys(keys, 0, |fills|, fills)
  {
  }

  /** Placements that are not open are out of a book update's reach. */
  lemma {:induction false} ClosedKept(p: Paper, n: nat, symbol: string, book: Book, k: nat)
    requires p.WellFormed() && n <= |p.keys| && k < |p.orders| && forall id <- p.open :: p.open[id] != k
    ensures var r := FillUpTo(p, n, symbol, book);
            && |r.orders| == |p.orders| && r.orders[k] == p.orders[k]
            && forall id <- r.open :: id in p.open && r.open[id] == p.open[id]
  {
    hide Paper.WellFormed, FillOne;
    if n > 0 {
      ClosedKept(p, n - 1, symbol, book, k);
      var q := FillUpTo(p, n - 1, symbol, book);
      FillOneReaches(q, p.keys[n - 1], symbol, book, k);
    }
  }

  lemma FillOneReaches(p: Paper, at: string, symbol: string, book: Book, k: nat)
    requires p.WellFormed() && at in p.open && k < |p.orders| && p.open[at] != k
    ensures var r := FillOne(p, at, symbol, book);
            && |r.orders| == |p.orders| && r.orders[k] == p.orders[k]
            && forall id <- r.open :: id in p.open && r.open[id] == p.open[id]
  {
    hide MatchOrder, FilledOrder, Settle, Persist, NoDuplicates;
  }

  /** Placing an order is accepting it and then the same for every order of its symbol, itself first of
      all: an order that crosses trades at once. */
  lemma PlacementUpdates(p: Paper, intent: Intent, book: Book, now: real, id: string)
    requires p.WellFormed() && (id in p.open || id == intent.clientId)
    ensures Updated(Accept(p, intent, now), PlaceOrder(p, intent, Some(book), now), intent.symbol, book, id)
  {
    hide Updated, Accept, FillUpTo;
    AcceptOpens(p, intent, now, id);
    BookUpdateExactly(Accept(p, intent, now), intent.symbol, book, id);
  }

  lemma AcceptOpens(p: Paper, intent: Intent, now: real, id: string)
    requires p.WellFormed()
    ensures id in Accept(p, intent, now).open <==> id in p.open || id == intent.clientId
  {
    hide Paper.WellFormed, Persist;
  }
}
