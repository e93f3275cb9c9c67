/** The quote ladder of one symbol: rung keys, which open orders a sync must remove, what it must
    place, and the shape of the ladder once its result has been submitted, whatever book moves and
    cancellations come in between. */
module Ladder {
  import opened Common
  import opened PaperExecution

  datatype Quote = Quote(side: Side, price: real, quantity: real, level: int, clientId: string)

  /** The two strategy settings that a sync reads. */
  datatype Settings = Settings(maxOrderAge: real, refreshThresholdBps: real)

  // ----- Rung keys -----

  function SideName(side: Side): string {
    if side.Buy? then "buy" else "sell"
  }

  function Digits(n: nat): string {
    var d := ['0', '1', '2', '3', '4', '5', '6', '7', '8', '9'][n % 10];
    if n < 10 then [d] else Digits(n / 10) + [d]
  }

  function IntText(n: int): string {
    if n < 0 then "-" + Digits(-n) else Digits(n)
  }

  function LadderKey(symbol: string, side: string, level: int): string {
    symbol + ":" + side + ":" + IntText(level)
  }

  function QuoteKey(symbol: string, q: Quote): string {
    LadderKey(symbol, SideName(q.side), q.level)
  }

  function OrderKey(i: Intent): Option<string> {
    var m := i.metadata;
    if m.ladderKey.Some? && m.ladderKey.value != "" then m.ladderKey
    else if m.level.None? then None
    else
      var side := if m.side.Some? && m.side.value != "" then m.side.value else SideName(i.side);
      var symbol := if m.symbol.Some? && m.symbol.value != "" then m.symbol.value else i.symbol;
      Some(LadderKey(symbol, side, m.level.value))
  }

  lemma {:induction false} DigitsInjective(m: nat, n: nat)
    requires Digits(m) == Digits(n)
    ensures m == n
  {
    var a, b := Digits(m), Digits(n);
    assert a[|a| - 1] == b[|b| - 1];
    assert m % 10 == n % 10;
    if m >= 10 && n >= 10 {
      assert a[..|a| - 1] == Digits(m / 10) && b[..|b| - 1] == Digits(n / 10);
      DigitsInjective(m / 10, n / 10);
    }
  }

  /** The number that a decimal text denotes. */
  function Denotes(text: string): int {
    if text == [] then 0 else 10 * Denotes(text[..|text| - 1]) + (text[|text| - 1] as int - '0' as int)
  }

  lemma {:induction false} DigitsDenote(n: nat)
    ensures Denotes(Digits(n)) == n
  {
    var text := Digits(n);
    if n >= 10 {
      DigitsDenote(n / 10);
      assert text[..|text| - 1] == Digits(n / 10);
    } else {
      assert text[..|text| - 1] == [];
    }
    assert text[|text| - 1] as int - '0' as int == n % 10;
  }

  lemma {:induction false} DigitsAreDigits(n: nat)
    ensures |Digits(n)| > 0 && forall i :: 0 <= i < |Digits(n)| ==> '0' <= Digits(n)[i] <= '9'
  {
    if n >= 10 {
      DigitsAreDigits(n / 10);
    }
  }

  lemma IntTextInjective(m: int, n: int)
    requires IntText(m) == IntText(n)
    ensures m == n
  {
    hide Digits;
    var x, y := if m < 0 then -m else m, if n < 0 then -n else n;
    DigitsAreDigits(x);
    DigitsAreDigits(y);
    assert (m < 0) == (n < 0) by { assert IntText(m)[0] == IntText(n)[0]; }
    if m < 0 {
      assert IntText(m)[1..] == Digits(x) && IntText(n)[1..] == Digits(y);
    }
    DigitsInjective(x, y);
  }

  /** A key is symbol, side and level, separated by colons, the level in decimal. */
  lemma KeyText(symbol: string, q: Quote)
    ensures QuoteKey(symbol, q) == symbol + (if q.side.Buy? then ":buy:" else ":sell:") + IntText(q.level)
    ensures IntText(q.level) == if q.level < 0 then "-" + Digits(-q.level) else Digits(q.level)
  {
    hide Digits;
  }

  /** The key text of a level follows the symbol and the side. */
  lemma KeySuffix(symbol: string, q: Quote)
    ensures var key := QuoteKey(symbol, q);
            var n := |symbol| + 2 + |SideName(q.side)|;
            |key| >= n && key[|symbol| + 1] == SideName(q.side)[0] && key[n..] == IntText(q.level)
  {
    hide IntText;
  }

  /** Within a symbol, two quotes share a rung key exactly when side and level agree. */
  lemma RungKeyInjective(symbol: string, q: Quote, r: Quote)
    ensures QuoteKey(symbol, q) == QuoteKey(symbol, r) <==> q.side == r.side && q.level == r.level
  {
    hide QuoteKey, IntText;
    KeySuffix(symbol, q);
    KeySuffix(symbol, r);
    if QuoteKey(symbol, q) == QuoteKey(symbol, r) {
      assert q.side == r.side;
      IntTextInjective(q.level, r.level);
    }
    if q.side == r.side && q.level == r.level {
      SameKey(symbol, q, r);
    }
  }

  lemma SameKey(symbol: string, q: Quote, r: Quote)
    requires q.side == r.side && q.level == r.level
    ensures QuoteKey(symbol, q) == QuoteKey(symbol, r)
  {
  }

  // ----- The desired ladder -----

  /** Last quote wins for each key. */
  function Desired(symbol: string, quotes: seq<Quote>): map<string, Quote> {
    if quotes == [] then map[]
    else Desired(symbol, quotes[..|quotes| - 1])[QuoteKey(symbol, quotes[|quotes| - 1]) := quotes[|quotes| - 1]]
  }

  lemma {:induction false} DesiredFacts(symbol: string, quotes: seq<Quote>)
    ensures forall q <- quotes :: QuoteKey(symbol, q) in Desired(symbol, quotes)
    ensures forall key <- Desired(symbol, quotes) ::
              Desired(symbol, quotes)[key] in quotes && QuoteKey(symbol, Desired(symbol, quotes)[key]) == key
  {
    if quotes != [] {
      DesiredFacts(symbol, quotes[..|quotes| - 1]);
    }
  }

  /** The quote of a rung is the last one given for it. */
  lemma {:induction false} LastQuoteWins(symbol: string, quotes: seq<Quote>, k: nat)
    requires k < |quotes| && forall j :: k < j < |quotes| ==> QuoteKey(symbol, quotes[j]) != QuoteKey(symbol, quotes[k])
    ensures var d := Desired(symbol, quotes);
            QuoteKey(symbol, quotes[k]) in d && d[QuoteKey(symbol, quotes[k])] == quotes[k]
  {
    hide QuoteKey;
    if k < |quotes| - 1 {
      var init := quotes[..|quotes| - 1];
      assert init[k] == quotes[k];
      LastQuoteWins(symbol, init, k);
    }
  }

  /** Different rungs have different quotes. */
  lemma DesiredInjective(symbol: string, quotes: seq<Quote>)
    ensures var d := Desired(symbol, quotes);
            forall k, l :: k in d && l in d && d[k] == d[l] ==> k == l
  {
    DesiredFacts(symbol, quotes);
  }

  function IntentOf(symbol: string, q: Quote): Intent {
    Intent(symbol, q.side, Limit, q.quantity, Some(q.price), q.clientId,
           Metadata(Some(QuoteKey(symbol, q)), Some(SideName(q.side)), Some(q.level), Some(symbol)))
  }

  /** A limit order for exactly what the quote says. */
  predicate Carries(i: Intent, symbol: string, q: Quote) {
    && i.symbol == symbol && i.side == q.side && i.orderType.Limit? && i.quantity == q.quantity
    && i.price == Some(q.price) && i.clientId == q.clientId
  }

  lemma IntentCarries(symbol: string, q: Quote)
    ensures Carries(IntentOf(symbol, q), symbol, q)
  {
  }

  /** An order finds its rung by its own key if it has one, and otherwise by its level, with side and
      symbol from the metadata or else from the order itself. So an order placed for a quote is on the
      quote's rung, and stays there when any of these entries but the level is lost; without key and
      level it has no rung. */
  lemma RungOfOrder(symbol: string, q: Quote, i: Intent)
    requires i.symbol == symbol && i.side == q.side
    ensures forall key :: i.metadata.ladderKey == Some(key) && key != "" ==> OrderKey(i) == Some(key)
    ensures OrderKey(i).None? <==> i.metadata.ladderKey in {None, Some("")} && i.metadata.level.None?
    ensures && i.metadata.ladderKey in {None, Some(""), Some(QuoteKey(symbol, q))} && i.metadata.level == Some(q.level)
            && i.metadata.side in {None, Some(""), Some(SideName(q.side))}
            && i.metadata.symbol in {None, Some(""), Some(symbol)}
            ==> OrderKey(i) == Some(QuoteKey(symbol, q))
    ensures forall side, other :: side != "" && other != ""
                                  && i.metadata == Metadata(None, Some(side), Some(q.level), Some(other)) ==>
                                    OrderKey(i) == Some(LadderKey(other, side, q.level))
  {
    hide LadderKey;
    KeyIsText(symbol, q);
  }

  lemma KeyIsText(symbol: string, q: Quote)
    ensures QuoteKey(symbol, q) != ""
  {
    hide IntText;
  }

  // ----- What a sync removes -----

  const TINY := 0.000000000001

  predicate Drifted(i: Intent, q: Quote, settings: Settings) {
    i.price.None?
    || Abs(q.price - i.price.value) / Max(Abs(q.price), TINY) * 10000.0 >= settings.refreshThresholdBps
    || Abs(q.quantity - i.quantity) > TINY
  }

  function OpenOrder(p: Paper, id: string): Order
    requires p.WellFormed() && id in p.open
  {
    p.orders[p.open[id]]
  }

  /** An open order of the symbol that has a rung key. */
  predicate OnRung(p: Paper, symbol: string, id: string, key: string)
    requires p.WellFormed()
  {
    id in p.open && OpenOrder(p, id).intent.symbol == symbol && OrderKey(OpenOrder(p, id).intent) == Some(key)
  }

  /** The orders on a rung among the first n dictionary entries, in dictionary order. */
  function Group(p: Paper, symbol: string, key: string, n: nat): (ids: seq<string>)
    requires p.WellFormed() && n <= |p.keys|
    ensures forall id :: id in ids <==> id in p.keys[..n] && OnRung(p, symbol, id, key)
  {
    if n == 0 then []
    else
      assert p.keys[..n] == p.keys[..n - 1] + [p.keys[n - 1]];
      var before := Group(p, symbol, key, n - 1);
      if OnRung(p, symbol, p.keys[n - 1], key) then before + [p.keys[n - 1]] else before
  }

  lemma EntryIsOpen(p: Paper, n: nat)
    requires p.WellFormed() && n < |p.keys|
    ensures p.keys[n] in p.open
  {
  }

  /** Entry i of a group is the newest, the earliest in the dictionary among equals. */
  ghost predicate Newest(p: Paper, ids: seq<string>, i: nat)
    requires p.WellFormed() && forall id <- ids :: id in p.open
  {
    && i < |ids|
    && (forall j :: 0 <= j < |ids| ==> OpenOrder(p, ids[j]).createdAt <= OpenOrder(p, ids[i]).createdAt)
    && (forall j :: 0 <= j < i ==> OpenOrder(p, ids[j]).createdAt < OpenOrder(p, ids[i]).createdAt)
  }

  ghost predicate Leads(p: Paper, symbol: string, key: string, id: string)
    requires p.WellFormed()
  {
    var ids := Group(p, symbol, key, |p.keys|);
    exists i: nat :: Newest(p, ids, i) && ids[i] == id
  }

  /** Younger than the limit, priced, and within the refresh band around the quote's price and size. */
  predicate FreshFor(o: Order, q: Quote, now: real, settings: Settings) {
    && now - o.createdAt < settings.maxOrderAge
    && o.intent.price.Some?
    && Abs(q.price - o.intent.price.value) * 10000.0 < settings.refreshThresholdBps * Max(Abs(q.price), 0.000000000001)
    && Abs(q.quantity - o.intent.quantity) <= 0.000000000001
  }

  lemma RatioAgainst(a: real, b: real, x: real)
    requires b > 0.0
    ensures a / b * 10000.0 >= x <==> a * 10000.0 >= x * b
  {
    var r := a / b;
    assert r * b == a;
    if r * 10000.0 >= x {
      assert (r * 10000.0 - x) * b >= 0.0;
    } else {
      assert (x - r * 10000.0) * b > 0.0;
    }
  }

  /** The drift test keeps exactly the orders within the band. */
  lemma UndriftedExactly(o: Order, q: Quote, now: real, settings: Settings)
    ensures now - o.createdAt < settings.maxOrderAge && !Drifted(o.intent, q, settings)
            <==> FreshFor(o, q, now, settings)
  {
    if o.intent.price.Some? {
      RatioAgainst(Abs(q.price - o.intent.price.value), Max(Abs(q.price), TINY), settings.refreshThresholdBps);
    }
  }

  /** For a desired price of at least the smallest divisor: the newest order of a desired rung survives
      a sync exactly when it is younger than the limit, has a price, lies less than the threshold, in
      basis points of the desired price, away from it, and has the desired size. */
  lemma SurvivorBand(p: Paper, symbol: string, desired: map<string, Quote>, now: real, settings: Settings, id: string,
                     key: string)
    requires p.WellFormed() && key in desired && OnRung(p, symbol, id, key) && Leads(p, symbol, key, id)
    requires desired[key].price >= 0.000000000001
    ensures var o, q := OpenOrder(p, id), desired[key];
            Survives(p, symbol, desired, now, settings, id) <==>
            && now - o.createdAt < settings.maxOrderAge
            && o.intent.price.Some?
            && Abs(q.price - o.intent.price.value) * 10000.0 < settings.refreshThresholdBps * q.price
            && Abs(q.quantity - o.intent.quantity) <= 0.000000000001
  {
    hide Leads, OrderKey, NoDuplicates;
  }

  /** An order survives a sync when it is the newest on a desired rung, young and undrifted. */
  ghost predicate Survives(p: Paper, symbol: string, desired: map<string, Quote>, now: real, settings: Settings,
                           id: string)
    requires p.WellFormed() && id in p.open
  {
    var key := OrderKey(OpenOrder(p, id).intent);
    && key.Some? && key.value in desired
    && Leads(p, symbol, key.value, id)
    && FreshFor(OpenOrder(p, id), desired[key.value], now, settings)
  }

  /** The rung is held by a survivor; an empty client id does not count, as it is falsy. */
  ghost predicate Held(p: Paper, symbol: string, desired: map<string, Quote>, now: real, settings: Settings,
                       key: string)
    requires p.WellFormed()
  {
    exists id :: OnRung(p, symbol, id, key) && Survives(p, symbol, desired, now, settings, id) && id != ""
  }

  /** A desired rung whose newest order is too old or has drifted. */
  ghost predicate Refreshes(p: Paper, symbol: string, desired: map<string, Quote>, now: real, settings: Settings,
                            key: string)
    requires p.WellFormed() && key in desired
  {
    exists id :: && OnRung(p, symbol, id, key) && Leads(p, symbol, key, id)
                 && !Survives(p, symbol, desired, now, settings, id)
  }

  /** How often a sync asks for the quote of a desired rung. */
  ghost function TimesAsked(p: Paper, symbol: string, desired: map<string, Quote>, now: real, settings: Settings,
                            key: string): nat
    requires p.WellFormed() && key in desired
  {
    if Held(p, symbol, desired, now, settings, key) then 0
    else if Refreshes(p, symbol, desired, now, settings, key) then 2
    else 1
  }

  // ----- Cancelling several orders -----

  function CancelMany(p: Paper, ids: seq<string>): (r: Paper)
    requires p.WellFormed()
    ensures r.WellFormed()
  {
    if ids == [] then p else CancelOrder(CancelMany(p, ids[..|ids| - 1]), ids[|ids| - 1])
  }

  /** The dictionary shrinks to some of its entries; what is left is untouched. */
  ghost predicate Shrinks(p: Paper, r: Paper)
    requires p.WellFormed() && r.WellFormed()
  {
    && |p.orders| == |r.orders|
    && r.open.Keys <= p.open.Keys
    && forall id <- r.open :: r.open[id] == p.open[id] && OpenOrder(r, id).intent == OpenOrder(p, id).intent
                              && OpenOrder(r, id).createdAt == OpenOrder(p, id).createdAt
  }

  lemma ShrinksTwice(p: Paper, q: Paper, r: Paper)
    requires p.WellFormed() && q.WellFormed() && r.WellFormed() && Shrinks(p, q) && Shrinks(q, r)
    ensures Shrinks(p, r)
  {
    hide NoDuplicates;
  }

  lemma CancelFacts(p: Paper, id: string)
    requires p.WellFormed()
    ensures var r := CancelOrder(p, id);
            && Shrinks(p, r)
            && (forall u :: u in r.open <==> u in p.open && u != id)
            && r.fills == p.fills && r.account == p.account
  {
    hide NoDuplicates, Persist;
  }

  lemma ShrinksSelf(p: Paper)
    requires p.WellFormed()
    ensures Shrinks(p, p)
  {
  }

  lemma {:induction false} CancelManyFacts(p: Paper, ids: seq<string>)
    requires p.WellFormed()
    ensures var r := CancelMany(p, ids);
            && Shrinks(p, r)
            && (forall id :: id in r.open <==> id in p.open && id !in ids)
            && r.fills == p.fills && r.account == p.account
  {
    hide Paper.WellFormed, CancelOrder, Shrinks;
    if ids == [] {
      ShrinksSelf(p);
    } else {
      var init, last := ids[..|ids| - 1], ids[|ids| - 1];
      CancelManyFacts(p, init);
      CancelFacts(CancelMany(p, init), last);
      ShrinksTwice(p, CancelMany(p, init), CancelMany(p, ids));
      assert ids == init + [last];
    }
  }

  /** What a sync leaves behind: the orders it cancelled, in the order it cancelled them, and the
      quotes it asks for, each as often as it does. */
  ghost predicate SyncOutcome(p: Paper, symbol: string, desired: map<string, Quote>, now: real, settings: Settings,
                              gone: seq<string>, toPlace: seq<Quote>)
    requires p.WellFormed()
  {
    && (forall id :: id in gone <==> id in p.open && OpenOrder(p, id).intent.symbol == symbol
                                     && !Survives(p, symbol, desired, now, settings, id))
    && NoDuplicates(gone)
    && (forall key <- desired :: multiset(toPlace)[desired[key]] == TimesAsked(p, symbol, desired, now, settings, key))
    && (forall q <- toPlace :: exists key :: key in desired && desired[key] == q)
  }

  /** A sync asks exactly for the desired quotes whose rung is not held. */
  lemma AskedFor(p: Paper, symbol: string, desired: map<string, Quote>, now: real, settings: Settings,
                 gone: seq<string>, toPlace: seq<Quote>, q: Quote)
    requires p.WellFormed() && SyncOutcome(p, symbol, desired, now, settings, gone, toPlace)
    ensures q in toPlace <==>
            exists key :: key in desired && desired[key] == q && !Held(p, symbol, desired, now, settings, key)
  {
    hide Held, Refreshes, Survives, NoDuplicates;
    assert q in toPlace <==> multiset(toPlace)[q] > 0;
  }

  ghost predicate Repeats(quotes: seq<Quote>) {
    exists q :: multiset(quotes)[q] >= 2
  }

  /** A sync repeats a quote exactly when it refreshes some rung. */
  lemma RepeatsExactly(p: Paper, symbol: string, desired: map<string, Quote>, now: real, settings: Settings,
                       gone: seq<string>, toPlace: seq<Quote>)
    requires p.WellFormed() && SyncOutcome(p, symbol, desired, now, settings, gone, toPlace)
    ensures Repeats(toPlace) <==> exists key :: key in desired && Refreshes(p, symbol, desired, now, settings, key)
  {
    hide Survives, NoDuplicates;
    if q :| multiset(toPlace)[q] >= 2 {
      assert q in toPlace;
      var key :| key in desired && desired[key] == q;
      assert Refreshes(p, symbol, desired, now, settings, key);
    }
    if key :| key in desired && Refreshes(p, symbol, desired, now, settings, key) {
      RefreshedNotHeld(p, symbol, desired, now, settings, key);
      assert multiset(toPlace)[desired[key]] == 2;
    }
  }

  lemma OneLeader(p: Paper, symbol: string, key: string, a: string, b: string)
    requires p.WellFormed() && Leads(p, symbol, key, a) && Leads(p, symbol, key, b)
    ensures a == b
  {
  }

  lemma RefreshedNotHeld(p: Paper, symbol: string, desired: map<string, Quote>, now: real, settings: Settings,
                         key: string)
    requires p.WellFormed() && key in desired && Refreshes(p, symbol, desired, now, settings, key)
    ensures !Held(p, symbol, desired, now, settings, key)
  {
    hide Leads, FreshFor, NoDuplicates;
    var id :| OnRung(p, symbol, id, key) && Leads(p, symbol, key, id)
      && !Survives(p, symbol, desired, now, settings, id);
    if a :| OnRung(p, symbol, a, key) && Survives(p, symbol, desired, now, settings, a) && a != "" {
      OneLeader(p, symbol, key, id, a);
    }
  }

  // ----- The order in which quotes are asked for -----

  /** The rungs found among the first n dictionary entries, in the order of their first order. */
  ghost function RungsInOrder(p: Paper, symbol: string, n: nat): seq<string>
    requires p.WellFormed() && n <= |p.keys|
  {
    if n == 0 then []
    else
      var before, i := RungsInOrder(p, symbol, n - 1), OpenOrder(p, p.keys[n - 1]).intent;
      if i.symbol != symbol || OrderKey(i).None? || OrderKey(i).value in before then before
      else before + [OrderKey(i).value]
  }

  /** The keys of some quotes, in the order of their first quote. */
  function KeysInOrder(symbol: string, quotes: seq<Quote>): seq<string> {
    if quotes == [] then []
    else
      var before, key := KeysInOrder(symbol, quotes[..|quotes| - 1]), QuoteKey(symbol, quotes[|quotes| - 1]);
      if key in before then before else before + [key]
  }

  /** The desired quotes of the rungs in a list that are not held. */
  ghost function Unheld(p: Paper, symbol: string, desired: map<string, Quote>, now: real, settings: Settings,
                        rungs: seq<string>): seq<Quote>
    requires p.WellFormed()
  {
    if rungs == [] then []
    else
      var key := rungs[|rungs| - 1];
      Unheld(p, symbol, desired, now, settings, rungs[..|rungs| - 1])
      + if key in desired && !Held(p, symbol, desired, now, settings, key) then [desired[key]] else []
  }

  /** The desired quotes of the keys in a list whose rung is empty or is refreshed. */
  ghost function Waiting(p: Paper, symbol: string, desired: map<string, Quote>, now: real, settings: Settings,
                         keys: seq<string>): seq<Quote>
    requires p.WellFormed() && forall key <- keys :: key in desired
  {
    if keys == [] then []
    else
      assert forall key <- keys[1..] :: key in keys;
      (if (forall id :: !OnRung(p, symbol, id, keys[0])) || Refreshes(p, symbol, desired, now, settings, keys[0])
       then [desired[keys[0]]] else [])
      + Waiting(p, symbol, desired, now, settings, keys[1..])
  }

  /** First the rungs that carry orders but are not held, in dictionary order; then those that are empty
      or refreshed, in the order of the quotes. */
  ghost predicate AskedInOrder(p: Paper, symbol: string, quotes: seq<Quote>, now: real, settings: Settings,
                               toPlace: seq<Quote>)
    requires p.WellFormed()
  {
    var desired, keys := Desired(symbol, quotes), KeysInOrder(symbol, quotes);
    && (forall key <- keys :: key in desired)
    && toPlace == Unheld(p, symbol, desired, now, settings, RungsInOrder(p, symbol, |p.keys|))
                  + Waiting(p, symbol, desired, now, settings, keys)
  }

  /** Where the first order of a rung is, from entry n on. */
  ghost function FirstOrderAt(p: Paper, symbol: string, key: string, n: nat): nat
    requires p.WellFormed()
    decreases |p.keys| - n
  {
    if n >= |p.keys| || OnRung(p, symbol, p.keys[n], key) then n else FirstOrderAt(p, symbol, key, n + 1)
  }

  lemma {:induction false} FirstOrderIs(p: Paper, symbol: string, key: string, n: nat, k: nat)
    requires p.WellFormed() && n <= k < |p.keys| && OnRung(p, symbol, p.keys[k], key)
    requires forall j :: n <= j < k ==> !OnRung(p, symbol, p.keys[j], key)
    ensures FirstOrderAt(p, symbol, key, n) == k
    decreases k - n
  {
    hide OnRung, Paper.WellFormed;
    if n < k {
      FirstOrderIs(p, symbol, key, n + 1, k);
    }
  }

  ghost predicate OccupiedAmong(p: Paper, symbol: string, key: string, n: nat)
    requires p.WellFormed() && n <= |p.keys|
  {
    exists k :: 0 <= k < n && OnRung(p, symbol, p.keys[k], key)
  }

  lemma OccupiedNext(p: Paper, symbol: string, key: string, n: nat)
    requires p.WellFormed() && 0 < n <= |p.keys|
    ensures OccupiedAmong(p, symbol, key, n) <==>
            OccupiedAmong(p, symbol, key, n - 1) || OnRung(p, symbol, p.keys[n - 1], key)
  {
    hide OnRung, Paper.WellFormed;
    if OccupiedAmong(p, symbol, key, n) {
      var k :| 0 <= k < n && OnRung(p, symbol, p.keys[k], key);
      assert k < n - 1 ==> OccupiedAmong(p, symbol, key, n - 1);
    }
    if OccupiedAmong(p, symbol, key, n - 1) {
      var k :| 0 <= k < n - 1 && OnRung(p, symbol, p.keys[k], key);
    }
  }

  /** The rungs are listed once each, exactly those that carry an order, by their first order. */
  lemma {:induction false} RungsByFirstOrder(p: Paper, symbol: string, n: nat)
    requires p.WellFormed() && n <= |p.keys|
    ensures var rungs := RungsInOrder(p, symbol, n);
            && (forall key :: key in rungs <==> OccupiedAmong(p, symbol, key, n))
            && (forall key <- rungs :: FirstOrderAt(p, symbol, key, 0) < n)
            && (forall i, j :: 0 <= i < j < |rungs| ==>
                                 FirstOrderAt(p, symbol, rungs[i], 0) < FirstOrderAt(p, symbol, rungs[j], 0))
  {
    hide FirstOrderAt, OrderKey, NoDuplicates, OccupiedAmong;
    if n == 0 {
      NoneAmong(p, symbol);
    } else {
      RungsByFirstOrder(p, symbol, n - 1);
      var before, rungs, at := RungsInOrder(p, symbol, n - 1), RungsInOrder(p, symbol, n), p.keys[n - 1];
      forall key ensures key in rungs <==> OccupiedAmong(p, symbol, key, n) {
        OccupiedNext(p, symbol, key, n);
      }
      if rungs != before {
        var key := OrderKey(OpenOrder(p, at).intent).value;
        NotAmong(p, symbol, key, n - 1);
        FirstOrderIs(p, symbol, key, 0, n - 1);
        assert rungs == before + [key];
        assert forall i :: 0 <= i < |before| ==> before[i] in before;
      }
    }
  }

  lemma NoneAmong(p: Paper, symbol: string)
    requires p.WellFormed()
    ensures forall key :: !OccupiedAmong(p, symbol, key, 0)
  {
  }

  lemma NotAmong(p: Paper, symbol: string, key: string, n: nat)
    requires p.WellFormed() && n <= |p.keys| && !OccupiedAmong(p, symbol, key, n)
    ensures forall k :: 0 <= k < n ==> !OnRung(p, symbol, p.keys[k], key)
  {
    hide OnRung, Paper.WellFormed;
  }
}
