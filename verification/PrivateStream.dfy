/** Private-stream messages: flattening nested payloads with a queue, and storing each trade once. */
module PrivateStream {
  import opened Common

  /** A decoded message. Leaves keep only whether they count as true; objects list their fields in
      order, each name once. */
  datatype Json = Null | Leaf(truthy: bool, text: string) | List(items: seq<Json>) | Dict(fields: seq<Field>)

  datatype Field = Field(name: string, value: Json)

  // ----- Node counts -----

  function Size(j: Json): (n: nat)
    ensures n > 0
    decreases j, 1
  {
    match j
    case List(items) => 1 + SizeAll(items)
    case Dict(fields) => 1 + SizeFields(fields)
    case _ => 1
  }

  function SizeAll(items: seq<Json>): nat
    decreases items, 0
  {
    if items == [] then 0 else Size(items[0]) + SizeAll(items[1..])
  }

  function SizeFields(fields: seq<Field>): nat
    decreases fields, 0
  {
    if fields == [] then 0 else Size(fields[0].value) + SizeFields(fields[1..])
  }

  lemma {:induction false} SizeAllConcat(a: seq<Json>, b: seq<Json>)
    ensures SizeAll(a + b) == SizeAll(a) + SizeAll(b)
  {
    if a == [] {
      assert a + b == b;
    } else {
      SizeAllConcat(a[1..], b);
      assert (a + b)[1..] == a[1..] + b;
    }
  }

  lemma {:induction false} FieldSize(fields: seq<Field>, i: nat)
    requires i < |fields|
    ensures Size(fields[i].value) <= SizeFields(fields)
  {
    if i > 0 {
      FieldSize(fields[1..], i - 1);
    }
  }

  // ----- Field lookup -----

  function Get(fields: seq<Field>, name: string): (value: Json)
    ensures value == Null || exists i :: 0 <= i < |fields| && fields[i].name == name && fields[i].value == value
  {
    if fields == [] then Null
    else if fields[0].name == name then fields[0].value
    else
      var value := Get(fields[1..], name);
      assert value != Null ==>
               exists i :: 0 <= i < |fields[1..]| && fields[1..][i].name == name && fields[1..][i].value == value;
      assert forall i :: 0 <= i < |fields[1..]| ==> fields[1..][i] == fields[i + 1];
      value
  }

  predicate Truthy(j: Json) {
    match j
    case Null => false
    case Leaf(truthy, _) => truthy
    case List(items) => items != []
    case Dict(fields) => fields != []
  }

  function FirstTruthy(fields: seq<Field>, names: seq<string>): (value: Json)
    ensures value == Null || exists i :: 0 <= i < |fields| && fields[i].value == value
  {
    if names == [] then Null
    else if |names| == 1 || Truthy(Get(fields, names[0])) then Get(fields, names[0])
    else FirstTruthy(fields, names[1..])
  }

  const NESTED := ["data", "items", "orders", "matches", "balances"]
  const ENVELOPE := ["body", "data", "result", "payload"]

  /** What an item is replaced by in the queue: a list by its items, an object by its nested list. */
  predicate Expands(j: Json) {
    j.List? || (j.Dict? && FirstTruthy(j.fields, NESTED).List?)
  }

  function Children(j: Json): (items: seq<Json>)
    requires Expands(j)
    ensures SizeAll(items) < Size(j)
  {
    if j.List? then j.items
    else
      var nested := FirstTruthy(j.fields, NESTED);
      var i :| 0 <= i < |j.fields| && j.fields[i].value == nested;
      FieldSize(j.fields, i);
      nested.items
  }

  // ----- What flattening should yield -----

  /** The objects reached by expansion that do not expand themselves, by structural recursion. */
  ghost function Yield(j: Json): multiset<Json>
    decreases Size(j), 1
  {
    if Expands(j) then YieldAll(Children(j))
    else if j.Dict? then multiset{j}
    else multiset{}
  }

  ghost function YieldAll(items: seq<Json>): multiset<Json>
    decreases SizeAll(items), 2
  {
    if items == [] then multiset{} else Yield(items[0]) + YieldAll(items[1..])
  }

  lemma {:induction false} YieldAllConcat(a: seq<Json>, b: seq<Json>)
    ensures YieldAll(a + b) == YieldAll(a) + YieldAll(b)
    decreases |a|
  {
    hide Yield, SizeAll;
    if a == [] {
      assert a + b == b;
    } else {
      YieldAllConcat(a[1..], b);
      assert (a + b)[1..] == a[1..] + b;
    }
  }

  /** j occurs somewhere inside root. */
  ghost predicate Within(j: Json, root: Json)
    decreases root
  {
    j == root || match root
                 case List(items) => exists i :: 0 <= i < |items| && Within(j, items[i])
                 case Dict(fields) => exists i :: 0 <= i < |fields| && Within(j, fields[i].value)
                 case _ => false
  }

  lemma {:induction false} YieldWithin(j: Json, x: Json)
    requires x in Yield(j)
    ensures Within(x, j) && x.Dict? && !Expands(x)
    decreases Size(j), 1
  {
    if Expands(j) {
      var items := Children(j);
      var i := YieldAllWithin(items, x);
      if j.Dict? {
        var nested := FirstTruthy(j.fields, NESTED);
        var k :| 0 <= k < |j.fields| && j.fields[k].value == nested;
        assert Within(x, nested);
      }
    }
  }

  lemma {:induction false} YieldAllWithin(items: seq<Json>, x: Json) returns (i: nat)
    requires x in YieldAll(items)
    ensures i < |items| && Within(x, items[i]) && x.Dict? && !Expands(x)
    decreases SizeAll(items), 2
  {
    if x in Yield(items[0]) {
      YieldWithin(items[0], x);
      i := 0;
    } else {
      i := YieldAllWithin(items[1..], x);
      i := i + 1;
    }
  }

  // ----- The queue -----

  /** The queue loop as a recursion; the total node count of the queue falls with every item. */
  function Drain(queue: seq<Json>): seq<Json>
    decreases SizeAll(queue)
  {
    if queue == [] then []
    else
      var item, rest := queue[0], queue[1..];
      if Expands(item) then
        SizeAllConcat(rest, Children(item));
        Drain(rest + Children(item))
      else if item.Dict? then [item] + Drain(rest)
      else Drain(rest)
  }

  lemma {:induction false} DrainYields(queue: seq<Json>)
    ensures multiset(Drain(queue)) == YieldAll(queue)
    decreases SizeAll(queue)
  {
    if queue != [] {
      var item, rest := queue[0], queue[1..];
      if Expands(item) {
        SizeAllConcat(rest, Children(item));
        YieldAllConcat(rest, Children(item));
        DrainYields(rest + Children(item));
      } else {
        DrainYields(rest);
      }
    }
  }

  function Envelope(fields: seq<Field>, names: seq<string>): (values: seq<Json>)
    ensures forall v <- values :: exists i :: 0 <= i < |fields| && fields[i].value == v
  {
    if names == [] then []
    else
      var value, rest := Get(fields, names[0]), Envelope(fields, names[1..]);
      if value.Null? then rest else [value] + rest
  }

  function Candidates(message: Json): seq<Json>
    requires message.Dict?
  {
    [message] + Envelope(message.fields, ENVELOPE)
  }

  function Payloads(message: Json): seq<Json>
    requires message.Dict?
  {
    Drain(Candidates(message))
  }

  method PrivatePayloads(message: Json) returns (payloads: seq<Json>)
    requires message.Dict?
    ensures payloads == Payloads(message)
  {
    var candidates := Candidates(message);
    payloads := [];
    while candidates != []
      invariant payloads + Drain(candidates) == Payloads(message)
      decreases SizeAll(candidates)
    {
      var item := candidates[0];
      candidates := candidates[1..];
      if Expands(item) {
        SizeAllConcat(candidates, Children(item));
        candidates := candidates + Children(item);
      } else if item.Dict? {
        payloads := payloads + [item];
      }
    }
  }

  /** The loop collects, with multiplicity, exactly what structural recursion collects from the
      message and its envelope, and only objects nested in the message. */
  lemma PayloadsExact(message: Json)
    requires message.Dict?
    ensures multiset(Payloads(message)) == Yield(message) + YieldAll(Envelope(message.fields, ENVELOPE))
    ensures forall x <- Payloads(message) :: Within(x, message) && x.Dict? && !Expands(x)
  {
    var envelope := Envelope(message.fields, ENVELOPE);
    DrainYields(Candidates(message));
    assert Candidates(message)[1..] == envelope;
    forall x <- Payloads(message) ensures Within(x, message) && x.Dict? && !Expands(x) {
      assert x in multiset(Payloads(message));
      if x in Yield(message) {
        YieldWithin(message, x);
      } else {
        var i := YieldAllWithin(envelope, x);
        assert envelope[i] in envelope;
        var k :| 0 <= k < |message.fields| && message.fields[k].value == envelope[i];
      }
    }
  }

  // ----- Which fields count, and in which order payloads come -----

  /** A field's value is that of its first occurrence, and null if it does not occur. */
  lemma {:induction false} GetExactly(fields: seq<Field>, name: string)
    ensures (forall i :: 0 <= i < |fields| ==> fields[i].name != name) ==> Get(fields, name) == Null
    ensures forall k :: 0 <= k < |fields| && fields[k].name == name
                        && (forall i :: 0 <= i < k ==> fields[i].name != name) ==>
                          Get(fields, name) == fields[k].value
  {
    if fields != [] && fields[0].name != name {
      var rest := fields[1..];
      GetExactly(rest, name);
      assert forall i :: 0 <= i < |rest| ==> rest[i] == fields[i + 1];
      forall k | 0 <= k < |fields| && fields[k].name == name && (forall i :: 0 <= i < k ==> fields[i].name != name)
        ensures Get(fields, name) == fields[k].value
      {
        assert rest[k - 1] == fields[k];
        assert forall i :: 0 <= i < k - 1 ==> rest[i].name != name;
      }
    }
  }

  /** What counts as absent: null, a false or zero leaf, an empty list, an empty object. */
  lemma TruthyExactly(j: Json)
    ensures !Truthy(j) <==> j.Null? || j == List([]) || j == Dict([]) || (j.Leaf? && !j.truthy)
  {
  }

  function Either(a: Json, b: Json): Json {
    if Truthy(a) then a else b
  }

  /** An object stands for the list under the first of `data`, `items`, `orders`, `matches` and `balances`
      that is neither null, empty nor zero. */
  lemma NestedExactly(fields: seq<Field>)
    ensures var nested := Either(Get(fields, "data"), Either(Get(fields, "items"), Either(Get(fields, "orders"),
                                 Either(Get(fields, "matches"), Get(fields, "balances")))));
            && (Expands(Dict(fields)) <==> nested.List?)
            && (nested.List? ==> Children(Dict(fields)) == nested.items)
  {
    hide Get, Truthy, FirstTruthy, Either;
    FirstTruthyStep(fields, "data", ["items", "orders", "matches", "balances"]);
    FirstTruthyStep(fields, "items", ["orders", "matches", "balances"]);
    FirstTruthyStep(fields, "orders", ["matches", "balances"]);
    FirstTruthyStep(fields, "matches", ["balances"]);
    FirstTruthyStep(fields, "balances", []);
    assert ["items"] + ["orders", "matches", "balances"] == ["items", "orders", "matches", "balances"];
    assert ["orders"] + ["matches", "balances"] == ["orders", "matches", "balances"];
    assert ["matches"] + ["balances"] == ["matches", "balances"];
    var none: seq<string> := [];
    assert ["balances"] + none == ["balances"];
    assert NESTED == ["data"] + ["items", "orders", "matches", "balances"];
  }

  lemma FirstTruthyStep(fields: seq<Field>, name: string, rest: seq<string>)
    ensures FirstTruthy(fields, [name] + rest)
            == if rest == [] then Get(fields, name) else Either(Get(fields, name), FirstTruthy(fields, rest))
  {
    hide Get, Truthy;
    assert ([name] + rest)[1..] == rest;
  }

  function Given(value: Json): seq<Json> {
    if value.Null? then [] else [value]
  }

  /** The queue starts with the message and whatever it has under `body`, `data`, `result` and `payload`. */
  lemma CandidatesExactly(fields: seq<Field>)
    ensures Candidates(Dict(fields)) == [Dict(fields)] + Given(Get(fields, "body")) + Given(Get(fields, "data"))
                                        + Given(Get(fields, "result")) + Given(Get(fields, "payload"))
  {
    hide Get, Envelope, Given;
    EnvelopeStep(fields, "body", ["data", "result", "payload"]);
    EnvelopeStep(fields, "data", ["result", "payload"]);
    EnvelopeStep(fields, "result", ["payload"]);
    EnvelopeStep(fields, "payload", []);
    assert ENVELOPE == ["body"] + ["data", "result", "payload"];
    assert ["data"] + ["result", "payload"] == ["data", "result", "payload"];
    assert ["result"] + ["payload"] == ["result", "payload"] && ["payload"] + [] == ["payload"];
    NoEnvelope(fields);
  }

  lemma NoEnvelope(fields: seq<Field>)
    ensures Envelope(fields, []) == []
  {
  }

  lemma EnvelopeStep(fields: seq<Field>, name: string, rest: seq<string>)
    ensures Envelope(fields, [name] + rest) == Given(Get(fields, name)) + Envelope(fields, rest)
  {
    hide Get;
    assert ([name] + rest)[1..] == rest;
  }

  /** The payloads among the items of a queue, in order. */
  function Flat(queue: seq<Json>): seq<Json> {
    if queue == [] then []
    else (if queue[0].Dict? && !Expands(queue[0]) then [queue[0]] else []) + Flat(queue[1..])
  }

  /** What the other items stand for, in order. */
  function Deeper(queue: seq<Json>): seq<Json> {
    if queue == [] then []
    else (if Expands(queue[0]) then Children(queue[0]) else []) + Deeper(queue[1..])
  }

  lemma DrainStep(item: Json, rest: seq<Json>)
    ensures Drain([item] + rest)
            == if Expands(item) then Drain(rest + Children(item))
               else if item.Dict? then [item] + Drain(rest) else Drain(rest)
  {
    hide Expands, Children, SizeAll;
    assert ([item] + rest)[1..] == rest;
  }

  lemma FlatStep(item: Json, rest: seq<Json>)
    ensures Flat([item] + rest) == if item.Dict? && !Expands(item) then [item] + Flat(rest) else Flat(rest)
    ensures Deeper([item] + rest) == if Expands(item) then Children(item) + Deeper(rest) else Deeper(rest)
  {
    hide Expands, Children;
    assert ([item] + rest)[1..] == rest;
  }

  lemma Regroup(a: seq<Json>, b: seq<Json>, c: seq<Json>)
    ensures (a + b) + c == a + (b + c)
  {
  }

  lemma {:induction false} DrainPrefix(first: seq<Json>, second: seq<Json>)
    ensures Drain(first + second) == Flat(first) + Drain(second + Deeper(first))
    decreases |first|
  {
    hide Expands, Children, Drain, Flat, Deeper;
    if first == [] {
      NothingFlat();
      assert first + second == second && second + [] == second;
    } else {
      var item, rest := first[0], first[1..];
      assert first == [item] + rest;
      Regroup([item], rest, second);
      DrainStep(item, rest + second);
      FlatStep(item, rest);
      if Expands(item) {
        Regroup(rest, second, Children(item));
        DrainPrefix(rest, second + Children(item));
        Regroup(second, Children(item), Deeper(rest));
      } else {
        DrainPrefix(rest, second);
        Regroup([item], Flat(rest), Drain(second + Deeper(rest)));
      }
    }
  }

  lemma NothingFlat()
    ensures Flat([]) == [] && Deeper([]) == []
  {
  }

  /** Payloads come level by level: those of the queue itself in order, then those one level deeper. */
  lemma LevelByLevel(queue: seq<Json>)
    ensures Drain(queue) == Flat(queue) + Drain(Deeper(queue))
  {
    DrainPrefix(queue, []);
    assert queue + [] == queue && [] + Deeper(queue) == Deeper(queue);
  }

  /** A list under the `data` key is delivered twice, once through the message itself and once as
      an envelope entry. */
  lemma DataDeliveredTwice(fields: seq<Field>, x: Json)
    requires Get(fields, "data").List? && Truthy(Get(fields, "data")) && x in YieldAll(Get(fields, "data").items)
    ensures multiset(Payloads(Dict(fields)))[x] >= 2
  {
    var message, data := Dict(fields), Get(fields, "data");
    PayloadsExact(message);
    assert Children(message) == data.items;
    assert NESTED[0] == "data";
    EnvelopeYield(fields, ENVELOPE, x, 1);
  }

  lemma {:induction false} EnvelopeYield(fields: seq<Field>, names: seq<string>, x: Json, i: nat)
    requires i < |names| && x in Yield(Get(fields, names[i]))
    ensures x in YieldAll(Envelope(fields, names))
  {
    var values := Envelope(fields, names);
    if i > 0 {
      EnvelopeYield(fields, names[1..], x, i - 1);
    }
    if !Get(fields, names[0]).Null? {
      assert values[1..] == Envelope(fields, names[1..]);
    }
  }

  // ----- Storing trades -----

  type TradeKey = (string, string)

  /** Stores the fills among some payloads, in turn, each under its account and trade id unless one is
      already there; `fill` gives the trade id of a fill and nothing for any other payload. */
  function StoreFills(trades: map<TradeKey, Json>, account: string, fill: Json -> Option<string>,
                      payloads: seq<Json>): map<TradeKey, Json>
    decreases |payloads|
  {
    if payloads == [] then trades
    else StoreFills(StoreFill(trades, account, fill(payloads[0]), payloads[0]), account, fill, payloads[1..])
  }

  function StoreFill(trades: map<TradeKey, Json>, account: string, trade: Option<string>,
                     payload: Json): map<TradeKey, Json>
  {
    if trade.Some? && (account, trade.value) !in trades then trades[(account, trade.value) := payload] else trades
  }

  /** Payload k is the first fill with this trade id. */
  ghost predicate Wins(fill: Json -> Option<string>, payloads: seq<Json>, trade: string, k: nat) {
    && k < |payloads| && fill(payloads[k]) == Some(trade)
    && forall j :: 0 <= j < k ==> fill(payloads[j]) != Some(trade)
  }

  lemma WinsLater(fill: Json -> Option<string>, payloads: seq<Json>, trade: string, k: nat)
    requires payloads != [] && fill(payloads[0]) != Some(trade)
    ensures Wins(fill, payloads[1..], trade, k) <==> Wins(fill, payloads, trade, k + 1)
  {
    if Wins(fill, payloads, trade, k + 1) {
      forall j | 0 <= j < k ensures fill(payloads[1..][j]) != Some(trade) {
        assert payloads[1..][j] == payloads[j + 1];
      }
    }
  }

  /** Each trade id keeps one trade: the one already stored, otherwise the first fill delivered.
      Nothing else is stored, and rows of other accounts are untouched. */
  lemma {:induction false} FirstFillWins(trades: map<TradeKey, Json>, account: string, fill: Json -> Option<string>,
                                         payloads: seq<Json>)
    ensures var r := StoreFills(trades, account, fill, payloads);
            && (forall key <- trades :: key in r && r[key] == trades[key])
            && (forall key <- r :: key in trades ||
                  (key.0 == account && exists k: nat :: Wins(fill, payloads, key.1, k) && payloads[k] == r[key]))
            && (forall trade, k: nat :: Wins(fill, payloads, trade, k) ==> (account, trade) in r)
    decreases |payloads|
  {
    if payloads != [] {
      var next, rest := StoreFill(trades, account, fill(payloads[0]), payloads[0]), payloads[1..];
      FirstFillWins(next, account, fill, rest);
      var r := StoreFills(next, account, fill, rest);
      forall key <- r | key !in trades
        ensures key.0 == account && exists k: nat :: Wins(fill, payloads, key.1, k) && payloads[k] == r[key]
      {
        if key in next {
          assert Wins(fill, payloads, key.1, 0);
        } else {
          var k: nat :| Wins(fill, rest, key.1, k) && rest[k] == r[key];
          WinsLater(fill, payloads, key.1, k);
          assert Wins(fill, payloads, key.1, k + 1);
        }
      }
      forall trade, k: nat | Wins(fill, payloads, trade, k) ensures (account, trade) in r {
        if k > 0 {
          WinsLater(fill, payloads, trade, k - 1);
        }
      }
    }
  }

  /** Every fill among the payloads is already stored. */
  ghost predicate AllStored(trades: map<TradeKey, Json>, account: string, fill: Json -> Option<string>,
                            payloads: seq<Json>)
  {
    forall x <- payloads :: fill(x).Some? ==> (account, fill(x).value) in trades
  }

  lemma {:induction false} FillsStored(trades: map<TradeKey, Json>, account: string, fill: Json -> Option<string>,
                                       payloads: seq<Json>)
    ensures trades.Keys <= StoreFills(trades, account, fill, payloads).Keys
    ensures AllStored(StoreFills(trades, account, fill, payloads), account, fill, payloads)
    decreases |payloads|
  {
    if payloads != [] {
      var next := StoreFill(trades, account, fill(payloads[0]), payloads[0]);
      FillsStored(next, account, fill, payloads[1..]);
      assert forall x <- payloads :: x == payloads[0] || x in payloads[1..];
    }
  }

  /** Payloads store nothing exactly when every fill among them is already stored. */
  lemma {:induction false} StoresNothingExactly(trades: map<TradeKey, Json>, account: string,
                                                fill: Json -> Option<string>, payloads: seq<Json>)
    ensures StoreFills(trades, account, fill, payloads) == trades <==> AllStored(trades, account, fill, payloads)
    decreases |payloads|
  {
    FillsStored(trades, account, fill, payloads);
    if payloads != [] && AllStored(trades, account, fill, payloads) {
      assert payloads[0] in payloads && forall x <- payloads[1..] :: x in payloads;
      StoresNothingExactly(trades, account, fill, payloads[1..]);
    }
  }
}
