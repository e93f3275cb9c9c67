/** The ladder claim: after a sync and the submission of its result the open orders of the symbol
    sit on distinct desired rungs, and all survivors are young and undrifted. */
module LadderTheorem {
  import opened Common
  import opened PaperExecution
  import opened Ladder

  /** What can happen while the result of a sync is being submitted: the next quote is accepted or
      refused by the risk and canary checks, the book of any symbol moves, an order is cancelled, or
      the operator closes the position with an order that has no rung. */
  datatype Act =
    | Submit(quote: Quote, accepted: bool, book: Book, now: real)
    | BookMoves(symbol: string, update: Book)
    | Drop(id: string)
    | CloseOut(intent: Intent, book: Book, now: real)

  function Perform(p: Paper, symbol: string, act: Act): (r: Paper)
    requires p.WellFormed()
    ensures r.WellFormed()
  {
    match act
    case Submit(q, accepted, book, now) =>
      if accepted then PlaceOrder(p, IntentOf(symbol, q), Some(book), now) else p
    case BookMoves(other, book) => SimulateFills(p, other, book)
    case Drop(id) => CancelOrder(p, id)
    case CloseOut(intent, book, now) => PlaceOrder(p, intent, Some(book), now)
  }

  function PerformAll(p: Paper, symbol: string, acts: seq<Act>): (r: Paper)
    requires p.WellFormed()
    ensures r.WellFormed()
    decreases |acts|
  {
    if acts == [] then p else PerformAll(Perform(p, symbol, acts[0]), symbol, acts[1..])
  }

  function QuotesOf(acts: seq<Act>): seq<Quote> {
    if acts == [] then []
    else if acts[0].Submit? then [acts[0].quote] + QuotesOf(acts[1..])
    else QuotesOf(acts[1..])
  }

  // ----- Fills only shrink the dictionary -----

  /** Fills were appended and orders may have left; without new fills nothing changed at all. */
  ghost predicate Trades(p: Paper, r: Paper)
    requires p.WellFormed() && r.WellFormed()
  {
    Shrinks(p, r) && |r.fills| >= |p.fills| && (|r.fills| == |p.fills| ==> r == p)
  }

  lemma FillOneTrades(p: Paper, id: string, symbol: string, book: Book)
    requires p.WellFormed() && id in p.open
    ensures Trades(p, FillOne(p, id, symbol, book))
  {
    hide NoDuplicates, MatchOrder, Settle, AverageAfter, Persist;
  }

  lemma TradesSelf(p: Paper)
    requires p.WellFormed()
    ensures Trades(p, p)
  {
  }

  lemma TradesTwice(p: Paper, q: Paper, r: Paper)
    requires p.WellFormed() && q.WellFormed() && r.WellFormed() && Trades(p, q) && Trades(q, r)
    ensures Trades(p, r)
  {
    hide NoDuplicates;
  }

  lemma {:induction false} FillUpToTrades(p: Paper, n: nat, symbol: string, book: Book)
    requires p.WellFormed() && n <= |p.keys|
    ensures Trades(p, FillUpTo(p, n, symbol, book))
  {
    hide Trades, FillOne, Paper.WellFormed;
    TradesSelf(p);
    if n > 0 {
      var q := FillUpTo(p, n - 1, symbol, book);
      FillUpToTrades(p, n - 1, symbol, book);
      FillOneTrades(q, p.keys[n - 1], symbol, book);
      TradesTwice(p, q, FillOne(q, p.keys[n - 1], symbol, book));
    }
  }

  // ----- The ladder invariant -----

  /** Desired quotes carry the key they are filed under, and different rungs have different ids. */
  ghost predicate DistinctIds(symbol: string, desired: map<string, Quote>) {
    && (forall key <- desired :: QuoteKey(symbol, desired[key]) == key)
    && (forall k, l :: k in desired && l in desired && desired[k].clientId == desired[l].clientId ==> k == l)
  }

  /** Where the ladder was synced: placements before `first` are survivors, and the ids in `closing`
      are those of close-out orders placed since. */
  datatype Synced = Synced(symbol: string, desired: map<string, Quote>, now: real, settings: Settings, first: nat,
                           closing: set<string>)

  ghost predicate OnLadder(p: Paper, s: Synced, id: string)
    requires p.WellFormed() && id in p.open
  {
    var o := OpenOrder(p, id);
    && OrderKey(o.intent).Some? && OrderKey(o.intent).value in s.desired
    && var q := s.desired[OrderKey(o.intent).value];
       if p.open[id] < s.first then FreshFor(o, q, s.now, s.settings) else Carries(o.intent, s.symbol, q)
  }

  ghost predicate ClosesOut(p: Paper, s: Synced, id: string)
    requires p.WellFormed() && id in p.open
  {
    id in s.closing && OrderKey(OpenOrder(p, id).intent).None?
  }

  /** All open orders of the symbol but the close-outs are on desired rungs, one each; survivors
      are fresh, and newer orders are the desired quotes to the letter. */
  ghost predicate LadderShape(p: Paper, s: Synced)
    requires p.WellFormed()
  {
    && (forall id :: id in p.open && OpenOrder(p, id).intent.symbol == s.symbol ==>
                       OnLadder(p, s, id) || ClosesOut(p, s, id))
    && (forall i, j, key :: OnRung(p, s.symbol, i, key) && OnRung(p, s.symbol, j, key) ==> i == j)
  }

  /** A pending quote's rung is free or already carries that quote's own id, and conversely. */
  ghost predicate RoomFor(p: Paper, s: Synced, q: Quote)
    requires p.WellFormed()
  {
    var key := QuoteKey(s.symbol, q);
    && key in s.desired && s.desired[key] == q && q.clientId !in s.closing
    && (forall id :: OnRung(p, s.symbol, id, key) ==> id == q.clientId)
    && (q.clientId in p.open ==> OnRung(p, s.symbol, q.clientId, key))
  }

  ghost predicate LadderInv(p: Paper, s: Synced, pending: seq<Quote>)
    requires p.WellFormed()
  {
    && s.first <= |p.orders|
    && LadderShape(p, s)
    && forall q <- pending :: RoomFor(p, s, q)
  }

  lemma ShrinkKeepsLadder(p: Paper, r: Paper, s: Synced, pending: seq<Quote>)
    requires p.WellFormed() && r.WellFormed() && Shrinks(p, r) && LadderInv(p, s, pending)
    ensures LadderInv(r, s, pending)
  {
    hide NoDuplicates, Drifted, LadderKey;
    forall id, key | OnRung(r, s.symbol, id, key) ensures OnRung(p, s.symbol, id, key) {
      assert OpenOrder(r, id).intent == OpenOrder(p, id).intent;
    }
    forall id | id in r.open && OpenOrder(r, id).intent.symbol == s.symbol
      ensures OnLadder(r, s, id) || ClosesOut(r, s, id)
    {
      assert OnLadder(p, s, id) || ClosesOut(p, s, id);
    }
    forall q <- pending ensures RoomFor(r, s, q) {
      assert RoomFor(p, s, q);
    }
  }

  /** Accepting a quote puts its id on its rung and moves nothing else. */
  lemma AcceptRungs(p: Paper, symbol: string, q: Quote, now: real)
    requires p.WellFormed()
    ensures var r := Accept(p, IntentOf(symbol, q), now);
            forall id, key :: OnRung(r, symbol, id, key) <==>
                              if id == q.clientId then key == QuoteKey(symbol, q) else OnRung(p, symbol, id, key)
  {
    hide NoDuplicates, Persist;
  }

  lemma AcceptOnLadder(p: Paper, s: Synced, q: Quote, now: real, id: string)
    requires p.WellFormed() && s.first <= |p.orders| && LadderShape(p, s) && RoomFor(p, s, q)
    requires var r := Accept(p, IntentOf(s.symbol, q), now); id in r.open && OpenOrder(r, id).intent.symbol == s.symbol
    ensures var r := Accept(p, IntentOf(s.symbol, q), now); OnLadder(r, s, id) || ClosesOut(r, s, id)
  {
    hide NoDuplicates, FreshFor, Persist, QuoteKey;
    if id != q.clientId {
      assert OnLadder(p, s, id) || ClosesOut(p, s, id);
    } else {
      AcceptRungs(p, s.symbol, q, now);
      assert OnRung(Accept(p, IntentOf(s.symbol, q), now), s.symbol, id, QuoteKey(s.symbol, q));
    }
  }

  lemma AcceptShape(p: Paper, s: Synced, q: Quote, now: real)
    requires p.WellFormed() && s.first <= |p.orders| && LadderShape(p, s) && RoomFor(p, s, q)
    ensures LadderShape(Accept(p, IntentOf(s.symbol, q), now), s)
  {
    hide Paper.WellFormed, OnRung, QuoteKey, Persist, OnLadder, ClosesOut, IntentOf;
    var r := Accept(p, IntentOf(s.symbol, q), now);
    AcceptRungs(p, s.symbol, q, now);
    forall id | id in r.open && OpenOrder(r, id).intent.symbol == s.symbol
      ensures OnLadder(r, s, id) || ClosesOut(r, s, id)
    {
      AcceptOnLadder(p, s, q, now, id);
    }
  }

  lemma AcceptRoom(p: Paper, s: Synced, q: Quote, u: Quote, now: real)
    requires p.WellFormed() && DistinctIds(s.symbol, s.desired) && RoomFor(p, s, q) && RoomFor(p, s, u)
    ensures RoomFor(Accept(p, IntentOf(s.symbol, q), now), s, u)
  {
    AcceptRungs(p, s.symbol, q, now);
    hide Paper.WellFormed, OnRung, QuoteKey, Persist;
  }

  lemma AcceptKeepsLadder(p: Paper, s: Synced, q: Quote, pending: seq<Quote>, now: real)
    requires p.WellFormed() && LadderInv(p, s, [q] + pending) && DistinctIds(s.symbol, s.desired)
    ensures LadderInv(Accept(p, IntentOf(s.symbol, q), now), s, pending)
  {
    hide Paper.WellFormed, LadderShape, RoomFor, DistinctIds;
    assert q in [q] + pending;
    AcceptShape(p, s, q, now);
    forall u <- pending ensures RoomFor(Accept(p, IntentOf(s.symbol, q), now), s, u) {
      assert u in [q] + pending;
      AcceptRoom(p, s, q, u, now);
    }
  }

  /** A close-out has no rung, and its id is among the closing ones. */
  predicate Closer(s: Synced, act: Act) {
    act.CloseOut? ==> OrderKey(act.intent).None? && act.intent.clientId in s.closing
  }

  /** Accepting a close-out puts nothing on any rung, and frees the rung that carried its id. */
  lemma CloseOutRungs(p: Paper, symbol: string, intent: Intent, now: real)
    requires p.WellFormed() && (OrderKey(intent).None? || intent.symbol != symbol)
    ensures var r := Accept(p, intent, now);
            forall id, key :: OnRung(r, symbol, id, key) <==> id != intent.clientId && OnRung(p, symbol, id, key)
  {
    hide NoDuplicates, Persist;
  }

  lemma CloseOutKeepsLadder(p: Paper, s: Synced, intent: Intent, pending: seq<Quote>, now: real)
    requires p.WellFormed() && LadderInv(p, s, pending) && OrderKey(intent).None? && intent.clientId in s.closing
    ensures LadderInv(Accept(p, intent, now), s, pending)
  {
    var r := Accept(p, intent, now);
    CloseOutRungs(p, s.symbol, intent, now);
    forall id | id in r.open && OpenOrder(r, id).intent.symbol == s.symbol
      ensures OnLadder(r, s, id) || ClosesOut(r, s, id)
    {
      hide NoDuplicates, FreshFor, Persist, QuoteKey;
      if id != intent.clientId {
        assert OnLadder(p, s, id) || ClosesOut(p, s, id);
      }
    }
    forall q <- pending ensures RoomFor(r, s, q) {
      hide Paper.WellFormed, OnRung, QuoteKey, Persist;
      assert RoomFor(p, s, q);
    }
    forall i, j, key | OnRung(r, s.symbol, i, key) && OnRung(r, s.symbol, j, key) ensures i == j {
      hide Paper.WellFormed, OnRung, QuoteKey, Persist;
    }
  }

  /** An id that no pending quote has may join the closing ones. */
  lemma WidenClosing(p: Paper, s: Synced, pending: seq<Quote>, id: string)
    requires p.WellFormed() && LadderInv(p, s, pending) && forall q <- pending :: q.clientId != id
    ensures LadderInv(p, s.(closing := s.closing + {id}), pending)
  {
    hide Paper.WellFormed, OnRung, FreshFor, QuoteKey, OrderKey;
    var t := s.(closing := s.closing + {id});
    forall q <- pending ensures RoomFor(p, t, q) {
      assert RoomFor(p, s, q);
    }
    forall u | u in p.open && OpenOrder(p, u).intent.symbol == s.symbol
      ensures OnLadder(p, t, u) || ClosesOut(p, t, u)
    {
      assert OnLadder(p, s, u) || ClosesOut(p, s, u);
    }
  }

  lemma PerformKeepsLadder(p: Paper, s: Synced, act: Act, pending: seq<Quote>)
    requires p.WellFormed() && DistinctIds(s.symbol, s.desired) && Closer(s, act)
    requires LadderInv(p, s, (if act.Submit? then [act.quote] else []) + pending)
    ensures LadderInv(Perform(p, s.symbol, act), s, pending)
  {
    hide LadderShape, RoomFor, DistinctIds, FillUpTo, Accept, NoDuplicates;
    match act
    case Submit(q, accepted, book, now) =>
      if accepted {
        var r := Accept(p, IntentOf(s.symbol, q), now);
        AcceptKeepsLadder(p, s, q, pending, now);
        FillUpToTrades(r, |r.keys|, s.symbol, book);
        ShrinkKeepsLadder(r, SimulateFills(r, s.symbol, book), s, pending);
      } else {
        assert forall u <- pending :: u in [q] + pending;
      }
    case BookMoves(other, book) =>
      assert [] + pending == pending;
      FillUpToTrades(p, |p.keys|, other, book);
      ShrinkKeepsLadder(p, SimulateFills(p, other, book), s, pending);
    case Drop(id) =>
      assert [] + pending == pending;
      CancelManyFacts(p, [id]);
      assert CancelMany(p, [id]) == CancelOrder(CancelMany(p, []), id);
      ShrinkKeepsLadder(p, CancelOrder(p, id), s, pending);
    case CloseOut(intent, book, now) =>
      assert [] + pending == pending;
      var r := Accept(p, intent, now);
      CloseOutKeepsLadder(p, s, intent, pending, now);
      FillUpToTrades(r, |r.keys|, intent.symbol, book);
      ShrinkKeepsLadder(r, SimulateFills(r, intent.symbol, book), s, pending);
  }

  lemma {:induction false} RunKeepsLadder(p: Paper, s: Synced, acts: seq<Act>)
    requires p.WellFormed() && DistinctIds(s.symbol, s.desired) && LadderInv(p, s, QuotesOf(acts))
    requires forall act <- acts :: Closer(s, act)
    ensures LadderInv(PerformAll(p, s.symbol, acts), s, [])
    decreases |acts|
  {
    hide LadderInv, DistinctIds, Perform, Paper.WellFormed;
    if acts != [] {
      assert QuotesOf(acts) == (if acts[0].Submit? then [acts[0].quote] else []) + QuotesOf(acts[1..]);
      PerformKeepsLadder(p, s, acts[0], QuotesOf(acts[1..]));
      RunKeepsLadder(Perform(p, s.symbol, acts[0]), s, acts[1..]);
    }
  }

  // ----- Orders that leave one by one -----

  /** Of two dictionaries shrunken from one, the smaller is shrunken from the larger. */
  lemma ShrinksBoth(p: Paper, a: Paper, b: Paper)
    requires p.WellFormed() && a.WellFormed() && b.WellFormed()
    requires Shrinks(p, a) && Shrinks(p, b) && b.open.Keys <= a.open.Keys
    ensures Shrinks(a, b)
  {
    hide NoDuplicates;
  }

  lemma ShrunkenLeave(p: Paper, r: Paper, leaving: seq<string>)
    requires p.WellFormed() && r.WellFormed() && Shrinks(p, r)
    ensures Shrinks(CancelMany(p, leaving), CancelMany(r, leaving))
  {
    hide CancelMany, Paper.WellFormed;
    var a, b := CancelMany(p, leaving), CancelMany(r, leaving);
    CancelManyFacts(p, leaving);
    CancelManyFacts(r, leaving);
    ShrinksTwice(p, r, b);
    ShrinksBoth(p, a, b);
  }

  /** What trades and what is cancelled before the orders in `leaving` are all gone does not disturb
      the ladder that remains without them. */
  lemma ShrinkWhileLeaving(p: Paper, r: Paper, s: Synced, leaving: seq<string>, pending: seq<Quote>)
    requires p.WellFormed() && r.WellFormed() && Shrinks(p, r) && LadderInv(CancelMany(p, leaving), s, pending)
    ensures LadderInv(CancelMany(r, leaving), s, pending)
  {
    hide CancelMany, Shrinks, LadderInv, Paper.WellFormed;
    ShrunkenLeave(p, r, leaving);
    ShrinkKeepsLadder(CancelMany(p, leaving), CancelMany(r, leaving), s, pending);
  }

  lemma CancelIsCancelMany(p: Paper, id: string)
    requires p.WellFormed()
    ensures CancelMany(p, [id]) == CancelOrder(p, id) && CancelMany(p, []) == p
  {
    hide Paper.WellFormed, CancelOrder;
    assert [id][..0] == [] && CancelMany(p, []) == p;
  }

  lemma FirstLeaves(p: Paper, leaving: seq<string>)
    requires p.WellFormed() && leaving != []
    ensures Shrinks(CancelMany(p, leaving), CancelMany(CancelOrder(p, leaving[0]), leaving[1..]))
  {
    hide CancelMany, CancelOrder, Paper.WellFormed;
    var q := CancelOrder(p, leaving[0]);
    var a, b := CancelMany(p, leaving), CancelMany(q, leaving[1..]);
    CancelIsCancelMany(p, leaving[0]);
    CancelManyFacts(p, [leaving[0]]);
    CancelManyFacts(p, leaving);
    CancelManyFacts(q, leaving[1..]);
    ShrinksTwice(p, q, b);
    assert forall id :: id in leaving <==> id == leaving[0] || id in leaving[1..];
    ShrinksBoth(p, a, b);
  }

  /** Cancelling the first of them leaves the same ladder without the others. */
  lemma LeaveNext(p: Paper, s: Synced, leaving: seq<string>, pending: seq<Quote>)
    requires p.WellFormed() && leaving != [] && LadderInv(CancelMany(p, leaving), s, pending)
    ensures LadderInv(CancelMany(CancelOrder(p, leaving[0]), leaving[1..]), s, pending)
  {
    hide CancelMany, CancelOrder, Shrinks, LadderInv, Paper.WellFormed;
    FirstLeaves(p, leaving);
    ShrinkKeepsLadder(CancelMany(p, leaving), CancelMany(CancelOrder(p, leaving[0]), leaving[1..]), s, pending);
  }

  lemma AcceptShrunken(p: Paper, q: Paper, intent: Intent, now: real)
    requires p.WellFormed() && q.WellFormed() && Shrinks(p, q)
    ensures Shrinks(Accept(p, intent, now), Accept(q, intent, now))
  {
    hide NoDuplicates, Persist;
  }

  lemma AcceptedWhileLeaving(p: Paper, intent: Intent, now: real, leaving: seq<string>)
    requires p.WellFormed()
    ensures Shrinks(Accept(CancelMany(p, leaving), intent, now), CancelMany(Accept(p, intent, now), leaving))
  {
    hide CancelMany, Paper.WellFormed, Persist;
    var q, accepted := CancelMany(p, leaving), Accept(p, intent, now);
    CancelManyFacts(p, leaving);
    CancelManyFacts(accepted, leaving);
    AcceptShrunken(p, q, intent, now);
    ShrinksBoth(accepted, Accept(q, intent, now), CancelMany(accepted, leaving));
  }

  /** A close-out in the meantime joins that ladder, unless it takes an id that is leaving. */
  lemma CloseWhileLeaving(p: Paper, s: Synced, intent: Intent, book: Book, now: real, leaving: seq<string>,
                          pending: seq<Quote>)
    requires p.WellFormed() && LadderInv(CancelMany(p, leaving), s, pending)
    requires OrderKey(intent).None? && intent.clientId in s.closing
    ensures LadderInv(CancelMany(PlaceOrder(p, intent, Some(book), now), leaving), s, pending)
  {
    hide CancelMany, Accept, FillUpTo, Shrinks, LadderInv, Paper.WellFormed, OrderKey;
    var before, accepted := CancelMany(p, leaving), Accept(p, intent, now);
    AcceptedWhileLeaving(p, intent, now, leaving);
    CloseOutKeepsLadder(before, s, intent, pending, now);
    ShrinkKeepsLadder(Accept(before, intent, now), CancelMany(accepted, leaving), s, pending);
    FillUpToTrades(accepted, |accepted.keys|, intent.symbol, book);
    ShrinkWhileLeaving(accepted, PlaceOrder(p, intent, Some(book), now), s, leaving, pending);
  }

  // ----- A sync establishes the invariant -----

  /** The ids of the desired quotes are neither open nor those of close-outs. */
  ghost predicate FreshIds(p: Paper, s: Synced) {
    forall key <- s.desired :: s.desired[key].clientId !in p.open && s.desired[key].clientId !in s.closing
  }

  /** An order with an empty id survives the sync; its rung does not count as held. */
  ghost predicate EmptyIdStays(p: Paper, s: Synced)
    requires p.WellFormed()
  {
    "" in p.open && Survives(p, s.symbol, s.desired, s.now, s.settings, "")
  }

  lemma SyncLadder(p: Paper, s: Synced, gone: seq<string>, toPlace: seq<Quote>)
    requires p.WellFormed() && s.first == |p.orders|
    requires SyncOutcome(p, s.symbol, s.desired, s.now, s.settings, gone, toPlace)
    requires DistinctIds(s.symbol, s.desired) && FreshIds(p, s) && !EmptyIdStays(p, s)
    ensures LadderInv(CancelMany(p, gone), s, toPlace)
  {
    var r := CancelMany(p, gone);
    CancelManyFacts(p, gone);
    hide CancelMany, NoDuplicates, LadderKey, Leads, FreshFor;
    forall id, key | OnRung(r, s.symbol, id, key)
      ensures OnRung(p, s.symbol, id, key) && Survives(p, s.symbol, s.desired, s.now, s.settings, id)
    {
    }
    forall id | id in r.open && OpenOrder(r, id).intent.symbol == s.symbol
      ensures OnLadder(r, s, id) || ClosesOut(r, s, id)
    {
      assert Survives(p, s.symbol, s.desired, s.now, s.settings, id);
      var q := s.desired[OrderKey(OpenOrder(p, id).intent).value];
      SameFreshness(OpenOrder(p, id), OpenOrder(r, id), q, s.now, s.settings);
    }
    forall i, j, key | OnRung(r, s.symbol, i, key) && OnRung(r, s.symbol, j, key) ensures i == j {
      OneLeader(p, s.symbol, key, i, j);
    }
    forall q <- toPlace ensures RoomFor(r, s, q) {
      AskedFor(p, s.symbol, s.desired, s.now, s.settings, gone, toPlace, q);
      var key :| key in s.desired && s.desired[key] == q && !Held(p, s.symbol, s.desired, s.now, s.settings, key);
      assert QuoteKey(s.symbol, q) == key;
    }
  }

  lemma SameFreshness(o: Order, u: Order, q: Quote, now: real, settings: Settings)
    requires o.intent == u.intent && o.createdAt == u.createdAt
    ensures FreshFor(o, q, now, settings) == FreshFor(u, q, now, settings)
  {
  }

  /** The ladder claim, for every interleaving of submissions, book moves, cancellations and
      close-outs. */
  lemma LadderAfterSubmission(p: Paper, s: Synced, gone: seq<string>, toPlace: seq<Quote>, acts: seq<Act>)
    requires p.WellFormed() && s.first == |p.orders|
    requires SyncOutcome(p, s.symbol, s.desired, s.now, s.settings, gone, toPlace)
    requires DistinctIds(s.symbol, s.desired) && FreshIds(p, s) && !EmptyIdStays(p, s)
    requires QuotesOf(acts) == toPlace && forall act <- acts :: Closer(s, act)
    ensures LadderShape(PerformAll(CancelMany(p, gone), s.symbol, acts), s)
  {
    hide LadderShape, RoomFor, SyncOutcome, DistinctIds, FreshIds, EmptyIdStays, Closer, Paper.WellFormed, PerformAll,
         CancelMany;
    SyncLadder(p, s, gone, toPlace);
    RunKeepsLadder(CancelMany(p, gone), s, acts);
  }

  // ----- Exactness when everything is accepted and nothing of the symbol fills -----

  /** Every quote is accepted, nothing of the symbol fills, and none of its orders is cancelled or
      replaced; other symbols may trade and cancel as they like. */
  ghost predicate Quiet(p: Paper, symbol: string, act: Act)
    requires p.WellFormed()
  {
    match act
    case Submit(_, accepted, _, _) => accepted && Perform(p, symbol, act).fills == p.fills
    case BookMoves(other, _) => other == symbol ==> Perform(p, symbol, act).fills == p.fills
    case Drop(id) => id in p.open ==> OpenOrder(p, id).intent.symbol != symbol
    case CloseOut(intent, _, _) =>
      && (intent.clientId in p.open ==> OpenOrder(p, intent.clientId).intent.symbol != symbol)
      && (intent.symbol == symbol ==> Perform(p, symbol, act).fills == p.fills)
  }

  ghost predicate QuietRun(p: Paper, symbol: string, acts: seq<Act>)
    requires p.WellFormed()
    decreases |acts|
  {
    acts == [] || (Quiet(p, symbol, acts[0]) && QuietRun(Perform(p, symbol, acts[0]), symbol, acts[1..]))
  }

  /** Every order on a rung of the symbol is still there. */
  ghost predicate KeepsRungs(p: Paper, r: Paper, symbol: string)
    requires p.WellFormed() && r.WellFormed()
  {
    forall id, key :: OnRung(p, symbol, id, key) ==> OnRung(r, symbol, id, key)
  }

  lemma FillOneElsewhere(p: Paper, id: string, other: string, book: Book, symbol: string)
    requires p.WellFormed() && id in p.open && other != symbol
    ensures KeepsRungs(p, FillOne(p, id, other, book), symbol)
  {
    hide NoDuplicates, MatchOrder, Settle, AverageAfter, Persist, OrderKey;
  }

  /** Fills on one symbol leave the rungs of another alone. */
  lemma {:induction false} FillsElsewhere(p: Paper, n: nat, other: string, book: Book, symbol: string)
    requires p.WellFormed() && n <= |p.keys| && other != symbol
    ensures KeepsRungs(p, FillUpTo(p, n, other, book), symbol)
  {
    hide FillOne, Paper.WellFormed, OnRung;
    if n > 0 {
      FillsElsewhere(p, n - 1, other, book, symbol);
      FillOneElsewhere(FillUpTo(p, n - 1, other, book), p.keys[n - 1], other, book, symbol);
    }
  }

  lemma FillsKeepRungs(p: Paper, other: string, book: Book, symbol: string)
    requires p.WellFormed() && (other == symbol ==> |SimulateFills(p, other, book).fills| == |p.fills|)
    ensures KeepsRungs(p, SimulateFills(p, other, book), symbol)
  {
    hide FillUpTo, Paper.WellFormed, OnRung, Shrinks;
    if other == symbol {
      FillUpToTrades(p, |p.keys|, other, book);
    } else {
      FillsElsewhere(p, |p.keys|, other, book, symbol);
    }
  }

  lemma CancelElsewhere(p: Paper, id: string, symbol: string)
    requires p.WellFormed() && (id in p.open ==> OpenOrder(p, id).intent.symbol != symbol)
    ensures KeepsRungs(p, CancelOrder(p, id), symbol)
  {
    hide NoDuplicates, Persist, OrderKey;
  }

  lemma QuietKeepsRungs(p: Paper, s: Synced, act: Act)
    requires p.WellFormed() && Quiet(p, s.symbol, act) && Closer(s, act) && !act.Submit?
    ensures KeepsRungs(p, Perform(p, s.symbol, act), s.symbol)
  {
    hide FillUpTo, CancelOrder, NoDuplicates, OrderKey, Persist;
    match act
    case BookMoves(other, book) => FillsKeepRungs(p, other, book, s.symbol);
    case Drop(id) => CancelElsewhere(p, id, s.symbol);
    case CloseOut(intent, book, now) =>
      CloseOutRungs(p, s.symbol, intent, now);
      FillsKeepRungs(Accept(p, intent, now), intent.symbol, book, s.symbol);
  }

  /** Every desired rung is occupied or still pending. */
  ghost predicate Covered(p: Paper, s: Synced, pending: seq<Quote>)
    requires p.WellFormed()
  {
    forall key <- s.desired :: Occupied(p, s.symbol, key) || s.desired[key] in pending
  }

  ghost predicate Occupied(p: Paper, symbol: string, key: string)
    requires p.WellFormed()
  {
    exists id :: OnRung(p, symbol, id, key)
  }

  lemma QuietSubmitCovers(p: Paper, s: Synced, act: Act, pending: seq<Quote>)
    requires p.WellFormed() && DistinctIds(s.symbol, s.desired) && act.Submit? && act.accepted
    requires Perform(p, s.symbol, act).fills == p.fills
    requires LadderInv(p, s, [act.quote] + pending) && Covered(p, s, [act.quote] + pending)
    ensures Covered(Perform(p, s.symbol, act), s, pending)
  {
    var q := act.quote;
    var r := Accept(p, IntentOf(s.symbol, q), act.now);
    assert r.fills == p.fills;
    AcceptRungs(p, s.symbol, q, act.now);
    FillUpToTrades(r, |r.keys|, s.symbol, act.book);
    assert Perform(p, s.symbol, act) == r;
    assert q in [q] + pending && RoomFor(p, s, q);
    hide Paper.WellFormed, OnRung, QuoteKey, Accept, Perform, LadderShape;
    forall key <- s.desired ensures Occupied(r, s.symbol, key) || s.desired[key] in pending {
      if s.desired[key] == q {
        assert OnRung(r, s.symbol, q.clientId, key);
      } else if Occupied(p, s.symbol, key) {
        var id :| OnRung(p, s.symbol, id, key);
        if id == q.clientId {
          assert OnRung(r, s.symbol, id, QuoteKey(s.symbol, q));
          OneKey(p, s.symbol, id, key, QuoteKey(s.symbol, q));
        }
        assert OnRung(r, s.symbol, id, key);
      }
    }
  }

  lemma OneKey(p: Paper, symbol: string, id: string, k: string, l: string)
    requires p.WellFormed() && OnRung(p, symbol, id, k) && OnRung(p, symbol, id, l)
    ensures k == l
  {
  }

  lemma QuietActCovers(p: Paper, s: Synced, act: Act, pending: seq<Quote>)
    requires p.WellFormed() && Quiet(p, s.symbol, act) && Closer(s, act) && !act.Submit? && Covered(p, s, pending)
    ensures Covered(Perform(p, s.symbol, act), s, pending)
  {
    hide Paper.WellFormed, OnRung, Perform, Quiet, Closer;
    QuietKeepsRungs(p, s, act);
    forall key | Occupied(p, s.symbol, key) ensures Occupied(Perform(p, s.symbol, act), s.symbol, key) {
      var id :| OnRung(p, s.symbol, id, key);
      assert OnRung(Perform(p, s.symbol, act), s.symbol, id, key);
    }
  }

  lemma {:induction false} QuietRunCovers(p: Paper, s: Synced, acts: seq<Act>)
    requires p.WellFormed() && DistinctIds(s.symbol, s.desired) && QuietRun(p, s.symbol, acts)
    requires forall act <- acts :: Closer(s, act)
    requires LadderInv(p, s, QuotesOf(acts)) && Covered(p, s, QuotesOf(acts))
    ensures Covered(PerformAll(p, s.symbol, acts), s, [])
    decreases |acts|
  {
    hide LadderInv, DistinctIds, Perform, Paper.WellFormed, Covered, Closer;
    if acts != [] {
      assert QuotesOf(acts) == (if acts[0].Submit? then [acts[0].quote] else []) + QuotesOf(acts[1..]);
      PerformKeepsLadder(p, s, acts[0], QuotesOf(acts[1..]));
      if acts[0].Submit? {
        QuietSubmitCovers(p, s, acts[0], QuotesOf(acts[1..]));
      } else {
        QuietActCovers(p, s, acts[0], QuotesOf(acts[1..]));
      }
      QuietRunCovers(Perform(p, s.symbol, acts[0]), s, acts[1..]);
    }
  }

  lemma SyncCovers(p: Paper, s: Synced, gone: seq<string>, toPlace: seq<Quote>)
    requires p.WellFormed() && SyncOutcome(p, s.symbol, s.desired, s.now, s.settings, gone, toPlace)
    ensures Covered(CancelMany(p, gone), s, toPlace)
  {
    hide CancelMany, Survives, NoDuplicates;
    var r := CancelMany(p, gone);
    CancelManyFacts(p, gone);
    forall key <- s.desired ensures Occupied(r, s.symbol, key) || s.desired[key] in toPlace {
      if Held(p, s.symbol, s.desired, s.now, s.settings, key) {
        var id :| OnRung(p, s.symbol, id, key) && Survives(p, s.symbol, s.desired, s.now, s.settings, id) && id != "";
        assert OnRung(r, s.symbol, id, key);
      } else {
        AskedFor(p, s.symbol, s.desired, s.now, s.settings, gone, toPlace, s.desired[key]);
      }
    }
  }

  /** The ladder is whole: once nothing is pending, occupied and desired rungs coincide. */
  lemma CoveredIsExact(p: Paper, s: Synced)
    requires p.WellFormed() && LadderInv(p, s, []) && Covered(p, s, [])
    ensures forall key :: key in s.desired <==> Occupied(p, s.symbol, key)
  {
    hide Paper.WellFormed, OrderKey, FreshFor;
    forall key | Occupied(p, s.symbol, key) ensures key in s.desired {
      var id :| OnRung(p, s.symbol, id, key);
      assert OnLadder(p, s, id);
    }
  }

  /** If every quote is accepted and no order of the symbol fills or is cancelled, the open rungs are
      exactly the desired rungs. */
  lemma LadderExact(p: Paper, s: Synced, gone: seq<string>, toPlace: seq<Quote>, acts: seq<Act>)
    requires p.WellFormed() && s.first == |p.orders|
    requires SyncOutcome(p, s.symbol, s.desired, s.now, s.settings, gone, toPlace)
    requires DistinctIds(s.symbol, s.desired) && FreshIds(p, s) && !EmptyIdStays(p, s)
    requires QuotesOf(acts) == toPlace && QuietRun(CancelMany(p, gone), s.symbol, acts)
    requires forall act <- acts :: Closer(s, act)
    ensures var r := PerformAll(CancelMany(p, gone), s.symbol, acts);
            forall key :: key in s.desired <==> Occupied(r, s.symbol, key)
  {
    hide *;
    var r := CancelMany(p, gone);
    SyncLadder(p, s, gone, toPlace);
    SyncCovers(p, s, gone, toPlace);
    QuietRunCovers(r, s, acts);
    RunKeepsLadder(r, s, acts);
    CoveredIsExact(PerformAll(r, s.symbol, acts), s);
  }

  // ----- The order with an empty id -----

  lemma EmptyBookFillsNone(p: Paper, id: string, symbol: string)
    requires p.WellFormed() && id in p.open
    ensures FillOne(p, id, symbol, Book([], [])) == p
  {
    hide ApplyFill, Paper.WellFormed;
    assert OppositeLevels(Buy, Book([], [])) == [] && OppositeLevels(Sell, Book([], [])) == [];
  }

  lemma {:induction false} EmptyBookFillsNothing(p: Paper, n: nat, symbol: string)
    requires p.WellFormed() && n <= |p.keys|
    ensures FillUpTo(p, n, symbol, Book([], [])) == p
  {
    hide FillOne, Paper.WellFormed;
    if n > 0 {
      EmptyBookFillsNothing(p, n - 1, symbol);
      EntryIsOpen(p, n - 1);
      EmptyBookFillsNone(p, p.keys[n - 1], symbol);
    }
  }

  /** Submits the quotes on an empty book, accepting only q. */
  function AcceptOnly(quotes: seq<Quote>, q: Quote, now: real): seq<Act> {
    if quotes == [] then []
    else [Submit(quotes[0], quotes[0] == q, Book([], []), now)] + AcceptOnly(quotes[1..], q, now)
  }

  lemma {:induction false} AcceptOnlyPlaces(p: Paper, s: Synced, quotes: seq<Quote>, q: Quote, stays: string)
    requires p.WellFormed() && q.clientId != stays
    ensures var key := QuoteKey(s.symbol, q);
            var acts := AcceptOnly(quotes, q, s.now);
            var r := PerformAll(p, s.symbol, acts);
            && QuotesOf(acts) == quotes && (forall act <- acts :: Closer(s, act))
            && (OnRung(p, s.symbol, stays, key) ==> OnRung(r, s.symbol, stays, key))
            && (q in quotes || OnRung(p, s.symbol, q.clientId, key) ==> OnRung(r, s.symbol, q.clientId, key))
    decreases |quotes|
  {
    hide Paper.WellFormed, OnRung, QuoteKey, Perform;
    if quotes != [] {
      var act, rest := Submit(quotes[0], quotes[0] == q, Book([], []), s.now), AcceptOnly(quotes[1..], q, s.now);
      assert AcceptOnly(quotes, q, s.now) == [act] + rest && ([act] + rest)[1..] == rest;
      AcceptOnlyStep(p, s.symbol, act, q, stays);
      AcceptOnlyPlaces(Perform(p, s.symbol, act), s, quotes[1..], q, stays);
    }
  }

  lemma AcceptOnlyStep(p: Paper, symbol: string, act: Act, q: Quote, stays: string)
    requires p.WellFormed() && q.clientId != stays
    requires act.Submit? && act.accepted == (act.quote == q) && act.book == Book([], [])
    ensures var r, key := Perform(p, symbol, act), QuoteKey(symbol, q);
            && (OnRung(p, symbol, stays, key) ==> OnRung(r, symbol, stays, key))
            && (act.quote == q || OnRung(p, symbol, q.clientId, key) ==> OnRung(r, symbol, q.clientId, key))
  {
    hide Paper.WellFormed, OnRung, QuoteKey, IntentOf, Accept, FillUpTo;
    if act.accepted {
      var a := Accept(p, IntentOf(symbol, q), act.now);
      AcceptRungs(p, symbol, q, act.now);
      EmptyBookFillsNothing(a, |a.keys|, symbol);
      SameSymbol(symbol, q);
    }
  }

  lemma SameSymbol(symbol: string, q: Quote)
    ensures IntentOf(symbol, q).symbol == symbol
  {
  }

  lemma EmptyIdDoubles(p: Paper, s: Synced, gone: seq<string>, toPlace: seq<Quote>) returns (acts: seq<Act>)
    requires p.WellFormed() && SyncOutcome(p, s.symbol, s.desired, s.now, s.settings, gone, toPlace)
    requires DistinctIds(s.symbol, s.desired) && FreshIds(p, s) && EmptyIdStays(p, s)
    ensures QuotesOf(acts) == toPlace && (forall act <- acts :: Closer(s, act))
    ensures !LadderShape(PerformAll(CancelMany(p, gone), s.symbol, acts), s)
  {
    var key := OrderKey(OpenOrder(p, "").intent).value;
    var q, r := s.desired[key], CancelMany(p, gone);
    assert QuoteKey(s.symbol, q) == key && q.clientId != "";
    EmptyIdUnheld(p, s, key);
    CancelManyFacts(p, gone);
    hide CancelMany, PerformAll, QuoteKey, NoDuplicates, Leads, FreshFor, OrderKey;
    AskedFor(p, s.symbol, s.desired, s.now, s.settings, gone, toPlace, q);
    assert OnRung(r, s.symbol, "", key);
    acts := AcceptOnly(toPlace, q, s.now);
    AcceptOnlyPlaces(r, s, toPlace, q, "");
  }

  lemma EmptyIdUnheld(p: Paper, s: Synced, key: string)
    requires p.WellFormed() && EmptyIdStays(p, s) && OrderKey(OpenOrder(p, "").intent) == Some(key)
    ensures OnRung(p, s.symbol, "", key) && !Held(p, s.symbol, s.desired, s.now, s.settings, key)
  {
    hide NoDuplicates, FreshFor, OrderKey;
    forall id | OnRung(p, s.symbol, id, key) && Survives(p, s.symbol, s.desired, s.now, s.settings, id)
      ensures id == ""
    {
      OneLeader(p, s.symbol, key, id, "");
    }
  }

  /** For fresh ids the ladder claim holds after every submission of a sync's result exactly when no
      order with an empty id survives that sync. */
  lemma LadderClaimExactly(p: Paper, s: Synced, gone: seq<string>, toPlace: seq<Quote>)
    requires p.WellFormed() && s.first == |p.orders|
    requires SyncOutcome(p, s.symbol, s.desired, s.now, s.settings, gone, toPlace)
    requires DistinctIds(s.symbol, s.desired) && FreshIds(p, s)
    ensures (forall acts :: QuotesOf(acts) == toPlace && (forall act <- acts :: Closer(s, act)) ==>
                              LadderShape(PerformAll(CancelMany(p, gone), s.symbol, acts), s))
            <==> !EmptyIdStays(p, s)
  {
    hide *;
    if EmptyIdStays(p, s) {
      var acts := EmptyIdDoubles(p, s, gone, toPlace);
    } else {
      forall acts | QuotesOf(acts) == toPlace && forall act <- acts :: Closer(s, act)
        ensures LadderShape(PerformAll(CancelMany(p, gone), s.symbol, acts), s)
      {
        LadderAfterSubmission(p, s, gone, toPlace, acts);
      }
    }
  }
}
