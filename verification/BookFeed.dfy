/** Reconstruction of one order book from snapshots and sequence-numbered deltas. */
module BookFeed {
  import opened Common

  /** One (price, size) entry of a message. */
  datatype Entry = Entry(price: real, size: real)

  type Levels = map<real, real>

  datatype Feed =
    | NoBook
    | Feed(bids: Levels, asks: Levels, number: Option<int>, last: Option<int>, gaps: nat)

  datatype Event =
    | Snapshot(bids: seq<Entry>, asks: seq<Entry>, number: Option<int>)
    | Delta(bids: seq<Entry>, asks: seq<Entry>, number: Option<int>, previous: Option<int>)

  // ----- Sequence checking -----

  /** The number and the previous number of a delta fit the last number known. */
  predicate Fits(last: Option<int>, number: Option<int>, previous: Option<int>) {
    number.None? || last.None? || ((previous.None? || previous == last) && number.value > last.value)
  }

  class SequenceState {
    var last: Option<int>
    var gaps: nat

    constructor (last: Option<int>)
      ensures this.last == last && gaps == 0
    {
      this.last, gaps := last, 0;
    }

    method Validate(number: Option<int>, previous: Option<int>) returns (valid: bool)
      modifies this
      ensures valid <==> Fits(old(last), number, previous)
      ensures last == if valid && number.Some? then number else old(last)
      ensures gaps == old(gaps) + if valid then 0 else 1
    {
      if number.None? {
        return true;
      }
      if last.None? {
        last := number;
        return true;
      }
      var expected := if previous.None? then last else previous;
      if expected != last || number.value <= last.value {
        gaps := gaps + 1;
        return false;
      }
      last := number;
      return true;
    }
  }

  // ----- Folding entries into a side -----

  /** A snapshot keeps every price, the last size given for it. */
  function Load(entries: seq<Entry>): Levels {
    if entries == [] then map[]
    else Load(entries[..|entries| - 1])[entries[|entries| - 1].price := entries[|entries| - 1].size]
  }

  /** A delta overwrites prices, and drops those whose size is zero. */
  function Merge(side: Levels, entries: seq<Entry>): Levels {
    if entries == [] then side
    else
      var m, e := Merge(side, entries[..|entries| - 1]), entries[|entries| - 1];
      if e.size == 0.0 then m - {e.price} else m[e.price := e.size]
  }

  method MergeInto(side: Levels, entries: seq<Entry>) returns (r: Levels)
    ensures r == Merge(side, entries)
  {
    r := side;
    for i := 0 to |entries|
      invariant r == Merge(side, entries[..i])
    {
      assert entries[..i + 1][..i] == entries[..i];
      var price, size := entries[i].price, entries[i].size;
      if size == 0.0 {
        r := r - {price};
      } else {
        r := r[price := size];
      }
    }
    assert entries[..|entries|] == entries;
  }

  function Step(feed: Feed, e: Event): (Feed, bool) {
    match e
    case Snapshot(bids, asks, number) => (Feed(Load(bids), Load(asks), number, number, 0), true)
    case Delta(bids, asks, number, previous) =>
      if feed.NoBook? then (feed, false)
      else if !Fits(feed.last, number, previous) then (feed.(gaps := feed.gaps + 1), false)
      else (Feed(Merge(feed.bids, bids), Merge(feed.asks, asks), number,
                 if number.Some? then number else feed.last, feed.gaps), true)
  }

  function Run(events: seq<Event>): Feed {
    if events == [] then NoBook else Step(Run(events[..|events| - 1]), events[|events| - 1]).0
  }

  // ----- The history that a book should reflect -----

  /** The messages in force: the last snapshot, then the deltas accepted since. */
  function InForce(events: seq<Event>): seq<Event> {
    if events == [] then []
    else
      var before, e := InForce(events[..|events| - 1]), events[|events| - 1];
      if e.Snapshot? then [e]
      else if before != [] && Fits(LastNumber(before), e.number, e.previous) then before + [e]
      else before
  }

  /** The last number given by any of the messages. */
  function LastNumber(messages: seq<Event>): Option<int> {
    if messages == [] then None
    else if messages[|messages| - 1].number.Some? then messages[|messages| - 1].number
    else LastNumber(messages[..|messages| - 1])
  }

  /** Everything that the messages say about a side, in order. */
  function Said(messages: seq<Event>, side: Side): seq<Entry> {
    if messages == [] then []
    else
      var m := messages[|messages| - 1];
      Said(messages[..|messages| - 1], side) + if side.Buy? then m.bids else m.asks
  }

  /** The size in the last entry for a price. */
  function LastSize(entries: seq<Entry>, price: real): Option<real> {
    if entries == [] then None
    else if entries[|entries| - 1].price == price then Some(entries[|entries| - 1].size)
    else LastSize(entries[..|entries| - 1], price)
  }

  /** A side holds what was said last about each price; a price it lacks was never mentioned or was
      last set to zero. */
  ghost predicate Reflects(side: Levels, entries: seq<Entry>) {
    forall price :: if price in side then LastSize(entries, price) == Some(side[price])
                    else LastSize(entries, price) in {None, Some(0.0)}
  }

  lemma {:induction false} LoadReflects(entries: seq<Entry>)
    ensures Reflects(Load(entries), entries)
  {
    if entries != [] {
      LoadReflects(entries[..|entries| - 1]);
    }
  }

  lemma {:induction false} MergeReflects(side: Levels, said: seq<Entry>, entries: seq<Entry>)
    requires Reflects(side, said)
    ensures Reflects(Merge(side, entries), said + entries)
  {
    if entries == [] {
      assert said + entries == said;
    } else {
      MergeReflects(side, said, entries[..|entries| - 1]);
      assert (said + entries)[..|said + entries| - 1] == said + entries[..|entries| - 1];
    }
  }

  lemma {:induction false} InForceShape(events: seq<Event>)
    ensures InForce(events) != [] ==> InForce(events)[0].Snapshot?
    ensures forall i :: 0 < i < |InForce(events)| ==> InForce(events)[i].Delta?
    ensures forall m <- InForce(events) :: m in events
  {
    if events != [] {
      InForceShape(events[..|events| - 1]);
    }
  }

  /** The reconstructed book always equals the last snapshot with all later accepted deltas folded
      in: price by price it is what was said last, and the sequence state is the last number. */
  lemma {:induction false} FeedReflectsHistory(events: seq<Event>)
    ensures var f, h := Run(events), InForce(events);
            && (f.NoBook? <==> h == [])
            && (f.Feed? ==>
                  && Reflects(f.bids, Said(h, Buy))
                  && Reflects(f.asks, Said(h, Sell))
                  && f.last == LastNumber(h)
                  && f.number == h[|h| - 1].number)
  {
    if events != [] {
      var init, e := events[..|events| - 1], events[|events| - 1];
      FeedReflectsHistory(init);
      var f, h := Run(init), InForce(init);
      if e.Snapshot? {
        assert [e][..0] == [] && Said([], Buy) == [] && Said([], Sell) == [];
        assert Said([e], Buy) == e.bids && Said([e], Sell) == e.asks;
        LoadReflects(e.bids);
        LoadReflects(e.asks);
      } else if h != [] && Fits(LastNumber(h), e.number, e.previous) {
        assert (h + [e])[..|h|] == h;
        MergeReflects(f.bids, Said(h, Buy), e.bids);
        MergeReflects(f.asks, Said(h, Sell), e.asks);
      }
    }
  }

  /** Numbers in force strictly increase, and a supplied previous number is the last one before. */
  lemma {:induction false} NumbersIncrease(events: seq<Event>, i: nat)
    requires i < |InForce(events)| && InForce(events)[i].number.Some?
    ensures var h := InForce(events);
            && (LastNumber(h[..i]).Some? ==>
                  && LastNumber(h[..i]).value < h[i].number.value
                  && (h[i].Delta? && h[i].previous.Some? ==> h[i].previous == LastNumber(h[..i])))
            && forall j :: 0 <= j < i && h[j].number.Some? ==> h[j].number.value < h[i].number.value
  {
    var init, e := events[..|events| - 1], events[|events| - 1];
    var h := InForce(events);
    InForceShape(events);
    if e.Snapshot? {
      assert h == [e];
    } else if i == |InForce(init)| {
      assert h[..i] == InForce(init);
      NumbersBelowLast(init);
    } else {
      NumbersIncrease(init, i);
      assert h[..i] == InForce(init)[..i];
    }
  }

  lemma {:induction false} NumbersBelowLast(events: seq<Event>)
    ensures var h := InForce(events);
            forall j :: 0 <= j < |h| && h[j].number.Some? ==>
                          LastNumber(h).Some? && h[j].number.value <= LastNumber(h).value
  {
    if events != [] {
      var init, e := events[..|events| - 1], events[|events| - 1];
      NumbersBelowLast(init);
      var h := InForce(events);
      if e.Snapshot? {
        assert [e][..0] == [];
      } else if h == InForce(init) + [e] {
        assert h[..|h| - 1] == InForce(init);
        assert forall j :: 0 <= j < |h| - 1 ==> h[j] == InForce(init)[j];
        assert Fits(LastNumber(InForce(init)), e.number, e.previous);
      }
    }
  }

  /** A refused delta changes nothing but the gap counter. */
  lemma RefusedDelta(feed: Feed, e: Event)
    requires e.Delta? && !Step(feed, e).1
    ensures Step(feed, e).0 == if feed.NoBook? then feed else feed.(gaps := feed.gaps + 1)
  {
  }

  /** A snapshot is always accepted. A delta is accepted exactly when there is a book and either number is
      unknown, or its number is beyond the last one and its previous number, if given, is the last one. */
  lemma AcceptedExactly(feed: Feed, e: Event)
    ensures e.Snapshot? ==> Step(feed, e).1
    ensures e.Delta? ==>
            (Step(feed, e).1 <==>
               && feed.Feed?
               && (e.number.Some? && feed.last.Some? ==>
                  e.number.value > feed.last.value && (e.previous.Some? ==> e.previous.value == feed.last.value)))
  {
  }

  /** How many deltas were refused since the last snapshot. */
  function RefusedSince(events: seq<Event>): nat {
    if events == [] || events[|events| - 1].Snapshot? then 0
    else
      var init := events[..|events| - 1];
      RefusedSince(init) + if Run(init).Feed? && !Step(Run(init), events[|events| - 1]).1 then 1 else 0
  }

  lemma {:induction false} GapsCounted(events: seq<Event>)
    ensures Run(events).Feed? ==> Run(events).gaps == RefusedSince(events)
    ensures Run(events).NoBook? ==> RefusedSince(events) == 0
  {
    hide Load, Merge;
    if events != [] {
      GapsCounted(events[..|events| - 1]);
    }
  }

  // ----- The published view -----

  predicate Better(a: Entry, b: Entry, ascending: bool) {
    if ascending then a.price <= b.price else a.price >= b.price
  }

  method Best(entries: set<Entry>, ascending: bool) returns (best: Entry)
    requires entries != {}
    ensures best in entries && forall e <- entries :: Better(best, e, ascending)
  {
    best :| best in entries;
    var rest := entries - {best};
    while rest != {}
      invariant best in entries && rest <= entries
      invariant forall e :: e in entries && e !in rest ==> Better(best, e, ascending)
      decreases |rest|
    {
      var e :| e in rest;
      if Better(e, best, ascending) {
        best := e;
      }
      rest := rest - {e};
    }
  }

  predicate Before(a: Entry, b: Entry, ascending: bool) {
    if ascending then a.price < b.price else a.price > b.price
  }

  ghost predicate Sorted(levels: seq<Entry>, ascending: bool) {
    forall i, j :: 0 <= i < j < |levels| ==>
                     if ascending then levels[i].price < levels[j].price else levels[i].price > levels[j].price
  }

  /** Exactly the positive entries of a side, strictly sorted. */
  ghost predicate Lists(levels: seq<Entry>, side: Levels, ascending: bool) {
    && Sorted(levels, ascending)
    && forall e :: e in levels <==> e.price in side && side[e.price] == e.size && e.size > 0.0
  }

  /** Entries of one side, so that a price has one size. */
  ghost predicate EntriesOf(entries: set<Entry>, side: Levels) {
    forall e <- entries :: e.price in side && side[e.price] == e.size
  }

  ghost predicate Precede(levels: seq<Entry>, rest: set<Entry>, ascending: bool) {
    forall a, b :: a in levels && b in rest ==> Before(a, b, ascending)
  }

  /** The best remaining entry comes strictly before all the others. */
  lemma BestIsStrict(side: Levels, rest: set<Entry>, best: Entry, ascending: bool)
    requires EntriesOf(rest, side) && best in rest && forall e <- rest :: Better(best, e, ascending)
    ensures Precede([best], rest - {best}, ascending)
  {
  }

  lemma AppendSorted(levels: seq<Entry>, rest: set<Entry>, best: Entry, ascending: bool)
    requires Sorted(levels, ascending) && Precede(levels, rest, ascending) && best in rest
    ensures Sorted(levels + [best], ascending)
  {
    assert forall i :: 0 <= i < |levels| ==> levels[i] in levels;
  }

  /** Asks are published in ascending order, bids in descending order. */
  method Publish(side: Levels, ascending: bool) returns (levels: seq<Entry>)
    ensures Lists(levels, side, ascending)
  {
    hide Before, Better, Sorted;
    levels := [];
    var rest := set p <- side :: Entry(p, side[p]);
    assert forall e :: e in rest <==> e.price in side && side[e.price] == e.size by {
      assert forall e: Entry :: e == Entry(e.price, e.size);
    }
    NothingSorted(ascending);
    ghost var items := rest;
    while rest != {}
      invariant rest <= items && Sorted(levels, ascending) && Precede(levels, rest, ascending)
      invariant forall e :: e in levels <==> e in items && e !in rest && e.size > 0.0
      decreases |rest|
    {
      var e := Best(rest, ascending);
      BestIsStrict(side, rest, e, ascending);
      if e.size > 0.0 {
        AppendSorted(levels, rest, e, ascending);
        levels := levels + [e];
      }
      rest := rest - {e};
    }
  }

  lemma NothingSorted(ascending: bool)
    ensures Sorted([], ascending)
  {
  }

  /** The published side, in terms of the messages alone: a price is listed with a size exactly when
      that size was said last about it, and is positive. */
  lemma PublishedReflects(events: seq<Event>, side: Side, levels: seq<Entry>)
    requires Run(events).Feed?
    requires Lists(levels, if side.Buy? then Run(events).bids else Run(events).asks, side.Sell?)
    ensures forall e :: e in levels <==> LastSize(Said(InForce(events), side), e.price) == Some(e.size) && e.size > 0.0
  {
    FeedReflectsHistory(events);
    hide Run, Said, InForce, LastSize;
  }

  // ----- The reconstructor object -----

  type Key = (string, string)

  class OrderBookReconstructor {
    var feeds: map<Key, Feed>

    constructor ()
      ensures feeds == map[]
    {
      feeds := map[];
    }

    function FeedOf(key: Key): Feed
      reads this
    {
      if key in feeds then feeds[key] else NoBook
    }

    method ApplySnapshot(key: Key, bids: seq<Entry>, asks: seq<Entry>, number: Option<int>)
      returns (bidView: seq<Entry>, askView: seq<Entry>)
      modifies this
      ensures feeds == old(feeds)[key := Step(old(FeedOf(key)), Snapshot(bids, asks, number)).0]
      ensures Lists(bidView, FeedOf(key).bids, false) && Lists(askView, FeedOf(key).asks, true)
    {
      var feed := Feed(Load(bids), Load(asks), number, number, 0);
      feeds := feeds[key := feed];
      bidView := Publish(feed.bids, false);
      askView := Publish(feed.asks, true);
    }

    method ApplyDelta(key: Key, bids: seq<Entry>, asks: seq<Entry>, number: Option<int>, previous: Option<int>)
      returns (applied: bool, bidView: seq<Entry>, askView: seq<Entry>)
      requires forall k <- feeds :: feeds[k].Feed?
      modifies this
      ensures forall k <- feeds :: feeds[k].Feed?
      ensures (FeedOf(key), applied) == Step(old(FeedOf(key)), Delta(bids, asks, number, previous))
      ensures feeds - {key} == old(feeds) - {key}
      ensures applied ==> Lists(bidView, FeedOf(key).bids, false) && Lists(askView, FeedOf(key).asks, true)
    {
      applied, bidView, askView := false, [], [];
      if key !in feeds {
        return;
      }
      var feed := feeds[key];
      var sequence := new SequenceState(feed.last);
      var valid := sequence.Validate(number, previous);
      if !valid {
        feeds := feeds[key := feed.(gaps := feed.gaps + 1)];
        return;
      }
      var newBids := MergeInto(feed.bids, bids);
      var newAsks := MergeInto(feed.asks, asks);
      feed := Feed(newBids, newAsks, number, sequence.last, feed.gaps);
      feeds := feeds[key := feed];
      applied := true;
      bidView := Publish(feed.bids, false);
      askView := Publish(feed.asks, true);
    }
  }
}
