/** How much one submission can trade under a quote's id: at most the quote's size for every time the
    sync asked for it, and that bound is reached. */
module LadderVolume {
  import opened Common
  import opened PaperExecution
  import opened Ladder
  import opened LadderTheorem
  import opened PaperLaws

  // ----- What an id has traded and can still trade -----

  function Traded(fills: seq<Fill>, id: string): real {
    if fills == [] then 0.0
    else
      var f := fills[|fills| - 1];
      Traded(fills[..|fills| - 1], id) + if f.clientId == id then f.quantity else 0.0
  }

  lemma TradedAppend(fills: seq<Fill>, f: Fill, id: string)
    ensures Traded(fills + [f], id) == Traded(fills, id) + if f.clientId == id then f.quantity else 0.0
  {
    assert (fills + [f])[..|fills|] == fills;
  }

  function Resting(p: Paper, id: string): real
    requires p.WellFormed()
  {
    if id in p.open then OpenOrder(p, id).Remaining() else 0.0
  }

  function Exposure(p: Paper, id: string): real
    requires p.WellFormed()
  {
    Traded(p.fills, id) + Resting(p, id)
  }

  /** A fill moves quantity from resting to traded and creates none. */
  lemma ApplyFillExposure(p: Paper, at: string, price: real, quantity: real, id: string)
    requires p.WellFormed() && at in p.open && 0.0 < quantity <= OpenOrder(p, at).Remaining()
    ensures Exposure(ApplyFill(p, at, price, quantity), id) == Exposure(p, id)
  {
    hide NoDuplicates, Settle, AverageAfter, Persist, Notional, FeeOf, Traded;
    var r := ApplyFill(p, at, price, quantity);
    TradedAppend(p.fills, r.fills[|p.fills|], id);
    assert r.fills == p.fills + [r.fills[|p.fills|]];
  }

  lemma FillOneExposure(p: Paper, at: string, symbol: string, book: Book, id: string)
    requires p.WellFormed() && at in p.open
    ensures Exposure(FillOne(p, at, symbol, book), id) == Exposure(p, id)
  {
    hide Paper.WellFormed, ApplyFill, Exposure;
    var order := OpenOrder(p, at);
    var (price, quantity) := MatchOrder(order, book);
    if order.intent.symbol == symbol && order.Remaining() > 0.0 && quantity > 0.0 && price.Some? {
      ApplyFillExposure(p, at, price.value, quantity, id);
    }
  }

  lemma {:induction false} FillsKeepExposure(p: Paper, n: nat, symbol: string, book: Book, id: string)
    requires p.WellFormed() && n <= |p.keys|
    ensures Exposure(FillUpTo(p, n, symbol, book), id) == Exposure(p, id)
  {
    hide Paper.WellFormed, FillOne, Exposure;
    if n > 0 {
      FillsKeepExposure(p, n - 1, symbol, book, id);
      FillOneExposure(FillUpTo(p, n - 1, symbol, book), p.keys[n - 1], symbol, book, id);
    }
  }

  /** A cancellation gives up what was resting. */
  lemma CancelExposure(p: Paper, at: string, id: string)
    requires p.WellFormed()
    ensures Exposure(CancelOrder(p, at), id) == Exposure(p, id) - if at == id then Resting(p, id) else 0.0
  {
    hide NoDuplicates, Persist, Traded;
  }

  /** Placing an order under an id replaces what was resting there. */
  lemma AcceptExposure(p: Paper, intent: Intent, now: real, id: string)
    requires p.WellFormed()
    ensures Exposure(Accept(p, intent, now), id)
            == Exposure(p, id) + if intent.clientId == id then Max(0.0, intent.quantity) - Resting(p, id) else 0.0
  {
    hide NoDuplicates, Persist, Traded;
  }

  // ----- One submission -----

  /** The size that some quotes can add under an id. */
  function Volume(quotes: seq<Quote>, id: string): real {
    if quotes == [] then 0.0
    else (if quotes[0].clientId == id then Max(0.0, quotes[0].quantity) else 0.0) + Volume(quotes[1..], id)
  }

  lemma PerformExposure(p: Paper, symbol: string, act: Act, id: string)
    requires p.WellFormed() && (act.CloseOut? ==> act.intent.clientId != id)
    ensures Exposure(Perform(p, symbol, act), id) <= Exposure(p, id) + Volume(QuotesOf([act]), id)
  {
    hide Paper.WellFormed, FillUpTo, CancelOrder, Accept, Exposure;
    match act
    case Submit(q, accepted, book, now) =>
      var intent := IntentOf(symbol, q);
      var r := Accept(p, intent, now);
      AcceptExposure(p, intent, now, id);
      FillsKeepExposure(r, |r.keys|, symbol, book, id);
      assert QuotesOf([act]) == [q];
    case BookMoves(other, book) => FillsKeepExposure(p, |p.keys|, other, book, id);
    case Drop(at) => CancelExposure(p, at, id);
    case CloseOut(intent, book, now) =>
      var r := Accept(p, intent, now);
      AcceptExposure(p, intent, now, id);
      FillsKeepExposure(r, |r.keys|, intent.symbol, book, id);
  }

  /** Whatever is accepted, filled and cancelled, in whatever order, an id gains no more than the
      sizes submitted under it. */
  lemma {:induction false} RunExposure(p: Paper, symbol: string, acts: seq<Act>, id: string)
    requires p.WellFormed() && forall act <- acts :: act.CloseOut? ==> act.intent.clientId != id
    ensures Exposure(PerformAll(p, symbol, acts), id) <= Exposure(p, id) + Volume(QuotesOf(acts), id)
    decreases |acts|
  {
    hide Paper.WellFormed, Perform, Exposure;
    if acts != [] {
      PerformExposure(p, symbol, acts[0], id);
      RunExposure(Perform(p, symbol, acts[0]), symbol, acts[1..], id);
    }
  }

  function Times(n: nat, x: real): real {
    n as real * x
  }

  lemma OnceMore(n: nat, x: real)
    ensures Times(0, x) == 0.0 && Times(n + 1, x) == x + Times(n, x)
  {
  }

  lemma {:induction false} VolumeCounts(quotes: seq<Quote>, q: Quote)
    requires forall u <- quotes :: u.clientId == q.clientId ==> u == q
    ensures Volume(quotes, q.clientId) == Times(multiset(quotes)[q], Max(0.0, q.quantity))
  {
    hide Times;
    OnceMore(0, Max(0.0, q.quantity));
    if quotes != [] {
      var rest := quotes[1..];
      VolumeCounts(rest, q);
      assert quotes == [quotes[0]] + rest;
      assert multiset(quotes)[q] == multiset(rest)[q] + if quotes[0] == q then 1 else 0;
      OnceMore(multiset(rest)[q], Max(0.0, q.quantity));
    }
  }

  /** After a sync a desired id has nothing resting, and what is asked for under it is its quote, as
      often as the sync asks for it. */
  lemma AskedVolume(p: Paper, s: Synced, gone: seq<string>, toPlace: seq<Quote>, key: string)
    requires p.WellFormed() && SyncOutcome(p, s.symbol, s.desired, s.now, s.settings, gone, toPlace)
    requires DistinctIds(s.symbol, s.desired) && FreshIds(p, s) && key in s.desired
    ensures var q := s.desired[key];
            && Exposure(CancelMany(p, gone), q.clientId) == Traded(p.fills, q.clientId)
            && Volume(toPlace, q.clientId)
               == Times(TimesAsked(p, s.symbol, s.desired, s.now, s.settings, key), Max(0.0, q.quantity))
  {
    hide NoDuplicates, Held, Refreshes, Survives, CancelMany, Traded;
    var q := s.desired[key];
    CancelManyFacts(p, gone);
    forall u <- toPlace | u.clientId == q.clientId ensures u == q {
      var k :| k in s.desired && s.desired[k] == u;
    }
    VolumeCounts(toPlace, q);
  }

  lemma TradedWithinExposure(p: Paper, id: string)
    requires p.WellFormed()
    ensures Traded(p.fills, id) <= Exposure(p, id)
  {
    hide Paper.WellFormed;
  }

  /** The quantity traded under every desired id stays within the quote's size times how often the
      sync that started from p asked for it. */
  ghost predicate TradesWithinAsked(p: Paper, s: Synced, r: Paper)
    requires p.WellFormed()
  {
    forall key <- s.desired ::
      var q := s.desired[key];
      Traded(r.fills, q.clientId) <= Traded(p.fills, q.clientId)
      + Times(TimesAsked(p, s.symbol, s.desired, s.now, s.settings, key), Max(0.0, q.quantity))
  }

  /** It does when each exposure stays within what was resting and traded after the sync plus the volume
      asked for. */
  lemma ExposureWithinAsked(p: Paper, s: Synced, gone: seq<string>, toPlace: seq<Quote>, r: Paper)
    requires p.WellFormed() && SyncOutcome(p, s.symbol, s.desired, s.now, s.settings, gone, toPlace)
    requires DistinctIds(s.symbol, s.desired) && FreshIds(p, s) && r.WellFormed()
    requires forall key <- s.desired ::
               var id := s.desired[key].clientId;
               Exposure(r, id) <= Exposure(CancelMany(p, gone), id) + Volume(toPlace, id)
    ensures TradesWithinAsked(p, s, r)
  {
    hide Exposure, Paper.WellFormed, SyncOutcome, DistinctIds, FreshIds, TimesAsked, CancelMany, Traded, Times, Volume;
    forall key <- s.desired
      ensures var q := s.desired[key];
              Traded(r.fills, q.clientId) <= Traded(p.fills, q.clientId)
              + Times(TimesAsked(p, s.symbol, s.desired, s.now, s.settings, key), Max(0.0, q.quantity))
    {
      AskedVolume(p, s, gone, toPlace, key);
      TradedWithinExposure(r, s.desired[key].clientId);
    }
  }

  /** In one submission of a sync's result, whatever is accepted, filled, cancelled and closed out in
      between, the quantity traded under a desired quote's id is at most the quote's size times how
      often the sync asked for it. */
  lemma TradedAtMostAsked(p: Paper, s: Synced, gone: seq<string>, toPlace: seq<Quote>, acts: seq<Act>)
    requires p.WellFormed() && SyncOutcome(p, s.symbol, s.desired, s.now, s.settings, gone, toPlace)
    requires DistinctIds(s.symbol, s.desired) && FreshIds(p, s)
    requires QuotesOf(acts) == toPlace && forall act <- acts :: Closer(s, act)
    ensures TradesWithinAsked(p, s, PerformAll(CancelMany(p, gone), s.symbol, acts))
  {
    hide Exposure, Paper.WellFormed, SyncOutcome, DistinctIds, CancelMany, PerformAll, TradesWithinAsked;
    var start := CancelMany(p, gone);
    forall key <- s.desired
      ensures var id := s.desired[key].clientId;
              Exposure(PerformAll(start, s.symbol, acts), id) <= Exposure(start, id) + Volume(toPlace, id)
    {
      RunExposure(start, s.symbol, acts, s.desired[key].clientId);
    }
    ExposureWithinAsked(p, s, gone, toPlace, PerformAll(start, s.symbol, acts));
  }

  // ----- The bound is reached -----

  lemma CrossingOrderFills(p: Paper, intent: Intent, level: Level, now: real)
    requires p.WellFormed() && p.keys == []
    requires intent.side.Buy? && intent.orderType.Limit? && 0.0 < intent.quantity <= level.size
    requires intent.price.Some? && level.price <= intent.price.value
    ensures var r := PlaceOrder(p, intent, Some(Book([], [level])), now);
            r.keys == [] && |r.fills| == |p.fills| + 1 && p.fills <= r.fills
            && r.fills[|p.fills|].clientId == intent.clientId && r.fills[|p.fills|].quantity == intent.quantity
  {
    hide Settle, AverageAfter, Persist, FillUpTo;
    var a, id := Accept(p, intent, now), intent.clientId;
    LoneOrderFills(a, id, level);
    var r := ApplyFill(a, id, level.price, intent.quantity);
    assert r.keys == [] by { assert Without([id], {id}) == Without([id][1..], {id}); }
  }

  lemma {:induction false} AllTheSame(quotes: seq<Quote>, q: Quote)
    requires forall u <- quotes :: u == q
    ensures multiset(quotes)[q] == |quotes|
  {
    if quotes != [] {
      assert quotes[0] in quotes && forall u <- quotes[1..] :: u in quotes;
      AllTheSame(quotes[1..], q);
      assert quotes == [quotes[0]] + quotes[1..];
    }
  }

  /** With one order open, on the rung of the one quote and too old or drifted, every sync cancels it
      and asks for the quote twice. */
  lemma RefreshAsksTwice(p: Paper, symbol: string, id: string, q: Quote, now: real, settings: Settings,
                         gone: seq<string>, toPlace: seq<Quote>)
    requires p.WellFormed() && p.keys == [id] && OnRung(p, symbol, id, QuoteKey(symbol, q))
    requires !FreshFor(OpenOrder(p, id), q, now, settings)
    requires SyncOutcome(p, symbol, Desired(symbol, [q]), now, settings, gone, toPlace)
    ensures toPlace == [q, q] && CancelMany(p, gone).keys == []
  {
    hide CancelMany, QuoteKey, Desired, OrderKey, FreshFor, Leads, NoDuplicates;
    var key, desired := QuoteKey(symbol, q), Desired(symbol, [q]);
    DesiredOne(symbol, q);
    LoneOrderLeads(p, symbol, id, key);
    CancelManyFacts(p, gone);
    assert !Survives(p, symbol, desired, now, settings, id);
    assert Refreshes(p, symbol, desired, now, settings, key);
    RefreshedNotHeld(p, symbol, desired, now, settings, key);
    AllTheSame(toPlace, q);
    assert |toPlace| == 2 && toPlace == [toPlace[0], toPlace[1]];
    assert toPlace[0] in toPlace && toPlace[1] in toPlace;
    NothingListed(CancelMany(p, gone));
  }

  lemma DesiredOne(symbol: string, q: Quote)
    ensures Desired(symbol, [q]) == map[QuoteKey(symbol, q) := q]
  {
    hide QuoteKey;
    assert [q][..0] == [] && Desired(symbol, []) == map[];
  }

  lemma NothingListed(p: Paper)
    requires p.WellFormed() && forall id :: id !in p.open
    ensures p.keys == []
  {
    hide Paper.WellFormed;
    if p.keys != [] {
      EntryIsOpen(p, 0);
    }
  }

  lemma LoneOrderLeads(p: Paper, symbol: string, id: string, key: string)
    requires p.WellFormed() && p.keys == [id] && OnRung(p, symbol, id, key)
    ensures Leads(p, symbol, key, id)
  {
    hide OrderKey;
    assert Group(p, symbol, key, 0) == [];
    assert Group(p, symbol, key, 1) == [id];
    assert Newest(p, [id], 0);
  }

  lemma TwoSubmissionsTradeTwice(p: Paper, symbol: string, q: Quote, level: Level, now: real)
    requires p.WellFormed() && p.keys == []
    requires q.side.Buy? && 0.0 < q.quantity <= level.size && level.price <= q.price
    ensures var act := Submit(q, true, Book([], [level]), now);
            var r := PerformAll(p, symbol, [act, act]);
            Traded(r.fills, q.clientId) == Traded(p.fills, q.clientId) + Times(2, q.quantity)
  {
    hide PlaceOrder;
    var book, intent := Book([], [level]), IntentOf(symbol, q);
    var act := Submit(q, true, book, now);
    var once := PlaceOrder(p, intent, Some(book), now);
    var twice := PlaceOrder(once, intent, Some(book), now);
    CrossingOrderFills(p, intent, level, now);
    CrossingOrderFills(once, intent, level, now);
    assert once.fills == p.fills + [once.fills[|p.fills|]];
    assert twice.fills == once.fills + [twice.fills[|once.fills|]];
    TradedAppend(p.fills, once.fills[|p.fills|], q.clientId);
    TradedAppend(once.fills, twice.fills[|once.fills|], q.clientId);
    assert [act, act][1..] == [act] && [act][1..] == [];
    assert PerformAll(p, symbol, [act, act]) == PerformAll(once, symbol, [act]);
    assert PerformAll(once, symbol, [act]) == PerformAll(twice, symbol, []);
  }

  /** From one stale or drifted order on the rung of the quote, through any sync, to two accepted
      submissions on a crossing book: the second does not replace the first, which has already
      filled, and the quote trades twice its size. */
  lemma RefreshTradesTwice(p: Paper, symbol: string, id: string, q: Quote, now: real, settings: Settings,
                           gone: seq<string>, toPlace: seq<Quote>, level: Level)
    requires p.WellFormed() && p.keys == [id] && OnRung(p, symbol, id, QuoteKey(symbol, q))
    requires !FreshFor(OpenOrder(p, id), q, now, settings)
    requires SyncOutcome(p, symbol, Desired(symbol, [q]), now, settings, gone, toPlace)
    requires q.side.Buy? && 0.0 < q.quantity <= level.size && level.price <= q.price
    ensures var act := Submit(q, true, Book([], [level]), now);
            var r := PerformAll(CancelMany(p, gone), symbol, [act, act]);
            && QuotesOf([act, act]) == toPlace
            && Traded(r.fills, q.clientId) == Traded(p.fills, q.clientId) + Times(2, q.quantity)
  {
    hide *;
    RefreshAsksTwice(p, symbol, id, q, now, settings, gone, toPlace);
    TwoSubmissionsTradeTwice(CancelMany(p, gone), symbol, q, level, now);
    CancelManyFacts(p, gone);
    SubmittedTwice(Submit(q, true, Book([], [level]), now));
  }

  lemma SubmittedTwice(act: Act)
    requires act.Submit?
    ensures QuotesOf([act, act]) == [act.quote, act.quote]
  {
    assert [act, act][1..] == [act];
    assert QuotesOf([act]) == [act.quote];
  }
}
