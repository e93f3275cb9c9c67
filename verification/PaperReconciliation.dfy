/** Paper-mode reconciliation: orders at or over the age limit are cancelled, then every active
    paper row without an open order is marked cancelled. */
module PaperReconciliation {
  import opened Common
  import opened PaperExecution
  import opened Ladder
  import opened LadderRuntime

  /** `gone` lists the orders at or over the age limit among the first n entries. */
  ghost predicate Aged(p: Paper, now: real, maxAge: real, n: nat, gone: seq<string>)
    requires p.WellFormed() && n <= |p.keys|
  {
    && NoDuplicates(gone)
    && forall id :: id in gone <==> id in p.keys[..n] && now - OpenOrder(p, id).createdAt >= maxAge
  }

  /** An active paper row that no open order stands behind. */
  predicate Stray(p: Paper, id: string) {
    && id in p.table && id !in p.open
    && p.table[id].account == PAPER_ACCOUNT && p.table[id].status.Active()
  }

  function Strays(p: Paper): set<string> {
    set id | id in p.table && Stray(p, id)
  }

  function Swept(p: Paper): Paper {
    p.(table := map id | id in p.table :: if Stray(p, id) then p.table[id].(status := Cancelled) else p.table[id])
  }

  lemma SweptWellFormed(p: Paper)
    requires p.WellFormed()
    ensures Swept(p).WellFormed()
  {
  }

  lemma AgedNext(p: Paper, now: real, maxAge: real, n: nat, gone: seq<string>)
    requires p.WellFormed() && n < |p.keys| && Aged(p, now, maxAge, n, gone)
    ensures p.keys[n] in p.open && p.keys[n] !in gone
    ensures var late := now - OpenOrder(p, p.keys[n]).createdAt >= maxAge;
            Aged(p, now, maxAge, n + 1, if late then gone + [p.keys[n]] else gone)
  {
    assert p.keys[..n + 1] == p.keys[..n] + [p.keys[n]];
    assert p.keys[n] !in p.keys[..n];
  }

  method CancelAged(runtime: MarketMakerRuntime, now: real) returns (ghost gone: seq<string>)
    requires runtime.paper.Valid()
    modifies runtime`cancelledOrders, runtime.paper
    ensures runtime.paper.View() == CancelMany(old(runtime.paper.View()), gone)
    ensures runtime.cancelledOrders == old(runtime.cancelledOrders) + |gone|
    ensures Aged(old(runtime.paper.View()), now, runtime.settings.maxOrderAge, |old(runtime.paper.keys)|, gone)
  {
    var p := runtime.paper.View();
    gone := [];
    for i := 0 to |p.keys|
      invariant runtime.paper.View() == CancelMany(p, gone)
      invariant runtime.cancelledOrders == old(runtime.cancelledOrders) + |gone|
      invariant Aged(p, now, runtime.settings.maxOrderAge, i, gone)
    {
      AgedNext(p, now, runtime.settings.maxOrderAge, i, gone);
      if now - OpenOrder(p, p.keys[i]).createdAt >= runtime.settings.maxOrderAge {
        runtime.CancelNext(p, gone, p.keys[i]);
        gone := gone + [p.keys[i]];
      }
    }
  }

  lemma SweptTable(p: Paper, table: Table)
    requires table.Keys == p.table.Keys
    requires forall id <- p.table ::
               table[id] == if id in Strays(p) then p.table[id].(status := Cancelled) else p.table[id]
    ensures p.(table := table) == Swept(p)
  {
    hide Stray;
    assert table == Swept(p).table;
  }

  /** Marks the stray rows cancelled. */
  method SweepStrays(runtime: MarketMakerRuntime)
    requires runtime.paper.Valid()
    modifies runtime`cancelledOrders, runtime.paper`table
    ensures runtime.paper.View() == Swept(old(runtime.paper.View()))
    ensures runtime.cancelledOrders == old(runtime.cancelledOrders) + |Strays(old(runtime.paper.View()))|
  {
    hide Paper.WellFormed, Swept, Stray;
    var paper := runtime.paper;
    var q := paper.View();
    var strays := Strays(q);
    var todo := strays;
    while todo != {}
      invariant todo <= strays
      invariant paper.table.Keys == q.table.Keys
      invariant forall id <- q.table ::
                  paper.table[id] == if id in strays - todo then q.table[id].(status := Cancelled) else q.table[id]
      invariant runtime.cancelledOrders == old(runtime.cancelledOrders) + |strays| - |todo|
      decreases |todo|
    {
      var id :| id in todo;
      paper.table := paper.table[id := paper.table[id].(status := Cancelled)];
      runtime.cancelledOrders := runtime.cancelledOrders + 1;
      todo := todo - {id};
    }
    SweptTable(q, paper.table);
  }

  /** Returns the number of actions; `gone` lists the orders cancelled for age. */
  method ReconcilePaperOrderState(runtime: MarketMakerRuntime, now: real)
    returns (actions: nat, ghost gone: seq<string>)
    requires runtime.paper.Valid()
    modifies runtime`cancelledOrders, runtime.paper
    ensures Aged(old(runtime.paper.View()), now, runtime.settings.maxOrderAge, |old(runtime.paper.keys)|, gone)
    ensures runtime.paper.View() == Swept(CancelMany(old(runtime.paper.View()), gone))
    ensures actions == |gone| + |Strays(CancelMany(old(runtime.paper.View()), gone))|
    ensures runtime.cancelledOrders == old(runtime.cancelledOrders) + actions
  {
    hide Paper.WellFormed, CancelMany, Swept, Strays, Aged;
    var before := runtime.cancelledOrders;
    gone := CancelAged(runtime, now);
    SweepStrays(runtime);
    actions := runtime.cancelledOrders - before;
  }

  /** From any table: afterwards every active paper row has an open order, no open order is at or
      over the age limit, younger orders stay open, and rows of open orders and of other accounts
      are untouched. */
  lemma ReconciledState(p: Paper, now: real, maxAge: real, gone: seq<string>)
    requires p.WellFormed() && Aged(p, now, maxAge, |p.keys|, gone)
    ensures var r := Swept(CancelMany(p, gone));
            && r.WellFormed()
            && (forall id <- r.table :: r.table[id].account == PAPER_ACCOUNT && r.table[id].status.Active() ==>
                                          id in r.open)
            && (forall id :: id in r.open <==> id in p.open && now - OpenOrder(p, id).createdAt < maxAge)
            && (forall id <- r.table :: id in r.open || r.table[id].account != PAPER_ACCOUNT ==>
                                          id in gone || (id in p.table && r.table[id] == p.table[id]))
            && r.fills == p.fills && r.account == p.account
  {
    assert p.keys[..|p.keys|] == p.keys;
    CancelManyFacts(p, gone);
    CancelManyRows(p, gone);
  }

  /** Cancelling touches only the rows of the cancelled orders. */
  lemma {:induction false} CancelManyRows(p: Paper, gone: seq<string>)
    requires p.WellFormed()
    ensures forall id <- CancelMany(p, gone).table ::
              id in gone || (id in p.table && CancelMany(p, gone).table[id] == p.table[id])
  {
    if gone != [] {
      CancelManyRows(p, gone[..|gone| - 1]);
      assert gone == gone[..|gone| - 1] + [gone[|gone| - 1]];
    }
  }

  /** The sweep changes exactly the active rows of the paper account without an open order, and of those
      the status alone, to cancelled. */
  lemma SweptExactly(p: Paper)
    ensures Swept(p) == p.(table := Swept(p).table) && Swept(p).table.Keys == p.table.Keys
    ensures forall id <- p.table ::
              Swept(p).table[id] ==
              if p.table[id].account == "paper" && id !in p.open
                 && p.table[id].status in {Created, Submitted, Open, PartiallyFilled}
              then p.table[id].(status := Cancelled) else p.table[id]
  {
  }
}
