/** The submission of a symbol's quotes in paper mode, end to end: sync the ladder, then offer each
    returned quote to the checks and place the accepted ones. */
module QuoteSubmission {
  import opened Common
  import opened PaperExecution
  import opened Ladder
  import opened LadderRuntime
  import opened LadderTheorem
  import opened LadderVolume

  /** Offering the quotes from the i-th on, with these verdicts of the checks at these instants. */
  function Offers(asked: seq<Quote>, i: nat, verdict: nat -> bool, book: Book, clock: nat -> real): seq<Act>
    requires i <= |asked|
    decreases |asked| - i
  {
    if i == |asked| then []
    else [Submit(asked[i], verdict(i), book, clock(i))] + Offers(asked, i + 1, verdict, book, clock)
  }

  lemma {:induction false} OffersSubmit(asked: seq<Quote>, i: nat, verdict: nat -> bool, book: Book, clock: nat -> real)
    requires i <= |asked|
    ensures QuotesOf(Offers(asked, i, verdict, book, clock)) == asked[i..]
    ensures forall act <- Offers(asked, i, verdict, book, clock) :: act.Submit?
    decreases |asked| - i
  {
    if i < |asked| {
      OffersSubmit(asked, i + 1, verdict, book, clock);
      assert Offers(asked, i, verdict, book, clock)[1..] == Offers(asked, i + 1, verdict, book, clock);
    }
  }

  /** Placing appends fills; if none was appended the dictionary only gained the new order. */
  lemma SubmitTrades(p: Paper, symbol: string, act: Act)
    requires p.WellFormed() && act.Submit?
    ensures |Perform(p, symbol, act).fills| >= |p.fills|
    ensures |Perform(p, symbol, act).fills| == |p.fills| ==> Perform(p, symbol, act).fills == p.fills
  {
    hide FillUpTo, Shrinks, Paper.WellFormed, Persist;
    if act.accepted {
      var r := Accept(p, IntentOf(symbol, act.quote), act.now);
      FillUpToTrades(r, |r.keys|, symbol, act.book);
    }
  }

  /** Submissions that are all accepted and leave the number of fills as it was are quiet. */
  lemma {:induction false} UnfilledIsQuiet(p: Paper, symbol: string, acts: seq<Act>)
    requires p.WellFormed() && forall act <- acts :: act.Submit?
    ensures |PerformAll(p, symbol, acts).fills| >= |p.fills|
    ensures (forall act <- acts :: act.accepted) && |PerformAll(p, symbol, acts).fills| == |p.fills| ==>
              QuietRun(p, symbol, acts)
    decreases |acts|
  {
    hide Paper.WellFormed, Perform;
    if acts != [] {
      assert acts[0] in acts && forall act <- acts[1..] :: act in acts;
      SubmitTrades(p, symbol, acts[0]);
      UnfilledIsQuiet(Perform(p, symbol, acts[0]), symbol, acts[1..]);
    }
  }

  lemma {:induction false} OffersAccepted(asked: seq<Quote>, i: nat, verdict: nat -> bool, book: Book,
                                          clock: nat -> real)
    requires i <= |asked| && forall k :: i <= k < |asked| ==> verdict(k)
    ensures forall act <- Offers(asked, i, verdict, book, clock) :: act.Submit? && act.accepted
    decreases |asked| - i
  {
    if i < |asked| {
      OffersAccepted(asked, i + 1, verdict, book, clock);
    }
  }

  /** What a submission promises, given fresh distinct ids: bounded volumes, the ladder claim if no
      survivor has an empty id, and a whole ladder if all quotes are accepted and nothing fills. */
  ghost predicate Promised(p: Paper, s: Synced, r: Paper, accepted: bool)
    requires p.WellFormed() && r.WellFormed()
  {
    DistinctIds(s.symbol, s.desired) && FreshIds(p, s) ==>
      && TradesWithinAsked(p, s, r)
      && (!EmptyIdStays(p, s) ==>
            && LadderShape(r, s)
            && (accepted && |r.fills| == |p.fills| ==> forall key :: key in s.desired <==> Occupied(r, s.symbol, key)))
  }

  lemma SubmissionKeepsPromise(p: Paper, s: Synced, gone: seq<string>, asked: seq<Quote>, verdict: nat -> bool,
                               book: Book, clock: nat -> real)
    requires p.WellFormed() && s.first == |p.orders| && s.closing == {}
    requires SyncOutcome(p, s.symbol, s.desired, s.now, s.settings, gone, asked)
    ensures Promised(p, s, PerformAll(CancelMany(p, gone), s.symbol, Offers(asked, 0, verdict, book, clock)),
                     forall i :: 0 <= i < |asked| ==> verdict(i))
  {
    hide Paper.WellFormed, PerformAll, CancelMany, SyncOutcome, DistinctIds, FreshIds, EmptyIdStays, LadderShape,
         TradesWithinAsked, Offers, Occupied, QuietRun;
    var start, acts := CancelMany(p, gone), Offers(asked, 0, verdict, book, clock);
    OffersSubmit(asked, 0, verdict, book, clock);
    assert asked[0..] == asked;
    assert forall act <- acts :: Closer(s, act);
    if DistinctIds(s.symbol, s.desired) && FreshIds(p, s) {
      TradedAtMostAsked(p, s, gone, asked, acts);
      if !EmptyIdStays(p, s) {
        LadderAfterSubmission(p, s, gone, asked, acts);
        if (forall i :: 0 <= i < |asked| ==> verdict(i)) && |PerformAll(start, s.symbol, acts).fills| == |p.fills| {
          OffersAccepted(asked, 0, verdict, book, clock);
          CancelManyFacts(p, gone);
          UnfilledIsQuiet(start, s.symbol, acts);
          LadderExact(p, s, gone, asked, acts);
        }
      }
    }
  }

  /** `verdict` and `clock` give the outcome of the risk and canary checks and the instant for each
      quote that the sync asks for. The result is the sync's, followed by the accepted placements in
      order; whatever the verdicts and fills, it keeps the promise. */
  method SubmitQuotes(runtime: MarketMakerRuntime, trading: bool, symbol: string, quotes: seq<Quote>, book: Book,
                      now: real, verdict: nat -> bool, clock: nat -> real)
    returns (ghost asked: seq<Quote>, ghost gone: seq<string>)
    requires runtime.paper.Valid()
    modifies runtime`cancelledOrders, runtime.paper
    ensures runtime.paper.Valid()
    ensures !trading ==> runtime.paper.View() == old(runtime.paper.View())
    ensures trading ==>
              var p := old(runtime.paper.View());
              var s := Synced(symbol, Desired(symbol, quotes), now, runtime.settings, |p.orders|, {});
              && SyncOutcome(p, symbol, s.desired, now, runtime.settings, gone, asked)
              && runtime.paper.View() == PerformAll(CancelMany(p, gone), symbol, Offers(asked, 0, verdict, book, clock))
              && Promised(p, s, runtime.paper.View(), forall i :: 0 <= i < |asked| ==> verdict(i))
  {
    hide Paper.WellFormed, CancelMany, Desired, IntentOf, SyncOutcome, PlaceOrder, Promised;
    asked, gone := [], [];
    if !trading {
      return;
    }
    var paper := runtime.paper;
    ghost var p := paper.View();
    ghost var s := Synced(symbol, Desired(symbol, quotes), now, runtime.settings, |p.orders|, {});
    var toPlace: seq<Quote>;
    toPlace, gone := runtime.SyncPaperLadder(symbol, quotes, now);
    asked := toPlace;
    SubmissionKeepsPromise(p, s, gone, asked, verdict, book, clock);
    for i := 0 to |toPlace|
      invariant paper.Valid()
      invariant PerformAll(paper.View(), symbol, Offers(asked, i, verdict, book, clock))
                == PerformAll(CancelMany(p, gone), symbol, Offers(asked, 0, verdict, book, clock))
    {
      ghost var act := Submit(asked[i], verdict(i), book, clock(i));
      assert Offers(asked, i, verdict, book, clock)[1..] == Offers(asked, i + 1, verdict, book, clock);
      SameSymbol(symbol, toPlace[i]);
      if verdict(i) {
        var _ := paper.PlaceOrder(IntentOf(symbol, toPlace[i]), Some(book), clock(i));
      }
    }
  }
}
