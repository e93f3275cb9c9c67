/** Every part of the event loop's state, and the events that change it: the flags, the stops, the
    tick task, the quotes counted and the paper engine. */
module LoopEffects {
  import opened Common
  import opened PaperExecution
  import opened Ladder
  import opened PaperReconciliation
  import opened PaperFills
  import opened StopProtocol
  import Canary

  /** A read of the kill-switch key that keeps the tick or the command from going on. */
  predicate Stops(rt: Runtime, read: KillRead) {
    read.Active? || (read.Unavailable? && rt.mode != Canary.PaperMode && rt.mode != Canary.Shadow)
  }

  predicate SwitchesOff(e: Event) {
    e.Operator? && (e.command.Disable? || e.command.Pause? || e.command.StopStrategy?)
  }

  predicate SwitchesOn(rt: Runtime, e: Event) {
    e.Operator? && (e.command.Enable? || e.command.Resume?) && !Stops(rt, e.read)
  }

  /** The commands that cancel all open orders. */
  predicate Clears(command: Command) {
    command.Disable? || command.CancelAll? || command.Restart? || command.StopStrategy?
  }

  // ----- Flags -----

  /** What a flag is after a step without a reload. */
  function Switched(rt: Runtime, e: Event, before: bool): bool {
    if SwitchesOff(e) then false else if SwitchesOn(rt, e) then true else before
  }

  /** Trading and quoting go off exactly with the commands that disable, pause or stop, on exactly with
      those that enable or resume under a read that does not stop, and to what a reload says; the
      strategy's own flag and the settings change with a reload alone. */
  lemma FlagsExactly(rt: Runtime, e: Event)
    requires rt.paper.WellFormed()
    ensures var r := Step(rt, e);
            && r.trading == (if e.Reload? then e.trading else Switched(rt, e, rt.trading))
            && r.quoting == (if e.Reload? then e.quoting else Switched(rt, e, rt.quoting))
            && r.strategyQuoting == (if e.Reload? then e.quoting else rt.strategyQuoting)
            && r.settings == (if e.Reload? then e.settings else rt.settings)
            && r.mode == rt.mode && r.policy == rt.policy
  {
    hide Paper.WellFormed, Step, Switched;
    if e.Operator? {
      CommandStep(rt, e);
      CommandFlags(rt, e.command, e.read);
    } else {
      NoCommand(rt, e);
      if e.Reload? {
        ReloadStep(rt, e);
      } else {
        OtherStep(rt, e);
      }
    }
  }

  lemma CommandStep(rt: Runtime, e: Event)
    requires rt.paper.WellFormed() && e.Operator?
    ensures Step(rt, e) == Apply(rt, e.command, e.read)
  {
    hide Paper.WellFormed, Apply;
  }

  lemma ReloadStep(rt: Runtime, e: Event)
    requires rt.paper.WellFormed() && e.Reload?
    ensures Step(rt, e) == rt.(trading := e.trading, quoting := e.quoting, strategyQuoting := e.quoting,
                               settings := e.settings, riskKilled := false)
  {
    hide Paper.WellFormed;
  }

  /** The other events touch the canary, the paper engine, the task and the counter alone. */
  lemma OtherStep(rt: Runtime, e: Event)
    requires rt.paper.WellFormed() && !e.Operator? && !e.Reload?
    ensures SameFlags(rt, Step(rt, e))
  {
    hide Paper.WellFormed, PlaceQuote, CancelMany, CancelOrder, SimulateFills, Swept, Desired, ReadKillSwitch,
         SameFlags;
    PartsKeepFlags(rt);
    if e.Proceed? && Placing(rt) {
      QuoteKeepsFlags(rt, e.limitsOk, e.today, e.now);
    }
  }

  predicate SameFlags(rt: Runtime, r: Runtime) {
    && r.trading == rt.trading && r.quoting == rt.quoting && r.strategyQuoting == rt.strategyQuoting
    && r.settings == rt.settings && r.riskKilled == rt.riskKilled && r.mode == rt.mode && r.policy == rt.policy
  }

  lemma PartsKeepFlags(rt: Runtime)
    ensures SameFlags(rt, rt)
    ensures forall canary, paper, task, quoteOrders ::
              SameFlags(rt, rt.(canary := canary, paper := paper, task := task, quoteOrders := quoteOrders))
    ensures forall task :: SameFlags(rt, rt.(task := task))
    ensures forall paper :: SameFlags(rt, rt.(paper := paper))
    ensures forall paper, task :: SameFlags(rt, rt.(paper := paper, task := task))
    ensures forall canary :: SameFlags(rt, rt.(canary := canary))
    ensures forall canary, task :: SameFlags(rt, rt.(canary := canary).(task := task))
  {
  }

  lemma NoCommand(rt: Runtime, e: Event)
    requires !e.Operator?
    ensures Switched(rt, e, true) && !Switched(rt, e, false)
  {
  }

  lemma CommandFlags(rt: Runtime, command: Command, read: KillRead)
    requires rt.paper.WellFormed()
    ensures var r, e := Apply(rt, command, read), Operator(command, read);
            && r.trading == Switched(rt, e, rt.trading) && r.quoting == Switched(rt, e, rt.quoting)
            && r == rt.(trading := r.trading, quoting := r.quoting, riskKilled := rt.riskKilled || command.Disable?,
                        canary := r.canary, paper := r.paper, task := r.task)
  {
    hide Paper.WellFormed, CancelMany, PlaceOrder, ReadKillSwitch;
    ReadStopsExactly(rt, read);
  }

  lemma QuoteKeepsFlags(rt: Runtime, limitsOk: bool, today: int, now: real)
    requires rt.paper.WellFormed() && Placing(rt)
    ensures var r := PlaceQuote(rt, limitsOk, today, now);
            SameFlags(rt, r)
  {
    hide Paper.WellFormed, PlaceOrder, IntentOf, Canary.Evaluated;
  }

  // ----- Stops -----

  /** The risk kill switch goes on exactly when the operator disables, and off exactly with a reload. */
  lemma RiskSwitchExactly(rt: Runtime, e: Event)
    requires rt.paper.WellFormed()
    ensures Step(rt, e).riskKilled <==> !e.Reload? && (rt.riskKilled || (e.Operator? && e.command.Disable?))
  {
    hide Paper.WellFormed, Step;
    if e.Operator? {
      CommandStep(rt, e);
      CommandFlags(rt, e.command, e.read);
    } else if e.Reload? {
      ReloadStep(rt, e);
    } else {
      OtherStep(rt, e);
    }
  }

  /** The quote that is offered next meets every limit of the policy on that day. */
  predicate NextWithin(rt: Runtime, today: int)
    requires Placing(rt)
  {
    var intent := IntentOf(rt.task.synced.symbol, rt.task.pending[0]);
    Canary.WithinPolicy(rt.policy, Canary.RollDay(rt.canary, today), Some(intent))
  }

  /** The canary latches exactly when a tick or an enabling command reads a stopping key, when a tick
      that trades on the exchange ends with mismatches, and when a quote that passed the risk checks
      meets a broken limit. */
  lemma LatchExactly(rt: Runtime, e: Event)
    requires rt.paper.WellFormed()
    ensures Step(rt, e).canary.killed <==>
            || rt.canary.killed
            || (e.TickStart? && rt.task.Idle? && Stops(rt, e.read))
            || (e.Operator? && (e.command.Enable? || e.command.Resume?) && Stops(rt, e.read))
            || (e.EndTick? && rt.task == Quoting([]) && (rt.mode.CanaryMode? || rt.mode.Live?) && e.mismatches > 0)
            || (e.Proceed? && Placing(rt) && !rt.riskKilled && e.limitsOk && !NextWithin(rt, e.today))
  {
    hide Paper.WellFormed, Apply, PlaceQuote, CancelMany, CancelOrder, SimulateFills, Swept, Desired, NextWithin;
    if e.Operator? {
      CommandLatch(rt, e.command, e.read);
    } else if e.Proceed? && Placing(rt) {
      QuoteLatch(rt, e.limitsOk, e.today, e.now);
    }
  }

  lemma CommandLatch(rt: Runtime, command: Command, read: KillRead)
    requires rt.paper.WellFormed()
    ensures Apply(rt, command, read).canary.killed <==>
            rt.canary.killed || ((command.Enable? || command.Resume?) && Stops(rt, read))
  {
    hide Paper.WellFormed, CancelMany, PlaceOrder, ReadKillSwitch;
    ReadStopsExactly(rt, read);
  }

  lemma QuoteLatch(rt: Runtime, limitsOk: bool, today: int, now: real)
    requires rt.paper.WellFormed() && Placing(rt)
    ensures PlaceQuote(rt, limitsOk, today, now).canary.killed <==>
            rt.canary.killed || (!rt.riskKilled && limitsOk && !NextWithin(rt, today))
  {
    hide Paper.WellFormed, PlaceOrder, IntentOf, Canary.Evaluated, Canary.WithinPolicy;
    var intent := IntentOf(rt.task.synced.symbol, rt.task.pending[0]);
    Canary.EvaluatedExactly(rt.policy, rt.canary, Some(intent), today);
  }

  /** The reason kept is the one stored with the key, or says what went wrong. */
  lemma LatchReason(rt: Runtime, e: Event)
    requires rt.paper.WellFormed()
    ensures var reason := Step(rt, e).canary.reason;
            && (forall why, symbols :: e == TickStart(Active(why), symbols) && rt.task.Idle? ==>
                                         reason == Some(if why == "" then "kill_switch_active" else why))
            && (e.TickStart? && e.read.Unavailable? && rt.task.Idle? && Stops(rt, e.read) ==>
                  reason == Some("kill_switch_state_unavailable"))
            && (e.EndTick? && rt.task == Quoting([]) && (rt.mode.CanaryMode? || rt.mode.Live?) && e.mismatches > 0 ==>
                  reason == Some("reconciliation_mismatch"))
  {
    hide Paper.WellFormed, Apply, PlaceQuote, CancelMany, CancelOrder, SimulateFills, Swept, Desired;
  }

  // ----- Quotes -----

  /** A quote goes out with this event. */
  predicate Quotes(rt: Runtime, e: Event) {
    && e.Proceed? && Placing(rt) && !rt.riskKilled && e.limitsOk && !rt.canary.killed && NextWithin(rt, e.today)
    && !rt.canary.mode.ReadOnly?
    && (rt.mode.PaperMode? || rt.canary.mode.CanaryMode? || rt.canary.mode.Live?)
  }

  /** A quote is counted exactly when it is next, no stop is on, the limits hold and the mode may trade;
      in paper mode it is then the newest order, for exactly what the quote says. */
  lemma QuoteExactly(rt: Runtime, e: Event)
    requires rt.paper.WellFormed()
    ensures var r := Step(rt, e);
            && r.quoteOrders == rt.quoteOrders + (if Quotes(rt, e) then 1 else 0)
            && (Quotes(rt, e) && rt.mode.PaperMode? ==>
                  && |r.paper.orders| == |rt.paper.orders| + 1
                  && Carries(r.paper.orders[|rt.paper.orders|].intent, rt.task.synced.symbol, rt.task.pending[0])
                  && r.paper.orders[|rt.paper.orders|].createdAt == e.now)
  {
    hide Paper.WellFormed, Step, NextWithin;
    if e.Proceed? && Placing(rt) {
      PlacingStep(rt, e);
      QuoteCounted(rt, e.limitsOk, e.today, e.now);
    } else {
      NoQuote(rt, e);
    }
  }

  lemma PlacingStep(rt: Runtime, e: Event)
    requires rt.paper.WellFormed() && e.Proceed? && Placing(rt)
    ensures Step(rt, e) == PlaceQuote(rt, e.limitsOk, e.today, e.now)
  {
    hide Paper.WellFormed, PlaceQuote;
  }

  lemma NoQuote(rt: Runtime, e: Event)
    requires rt.paper.WellFormed() && !(e.Proceed? && Placing(rt))
    ensures Step(rt, e).quoteOrders == rt.quoteOrders
  {
    hide Paper.WellFormed, Apply, PlaceQuote, CancelMany, CancelOrder, SimulateFills, Swept, Desired, ReadKillSwitch;
    if e.Operator? {
      ApplyKeepsStops(rt, e.command, e.read);
    }
  }

  lemma QuoteCounted(rt: Runtime, limitsOk: bool, today: int, now: real)
    requires rt.paper.WellFormed() && Placing(rt)
    ensures var r, e := PlaceQuote(rt, limitsOk, today, now), Proceed(limitsOk, today, now);
            && r.quoteOrders == rt.quoteOrders + (if Quotes(rt, e) then 1 else 0)
            && (!(Quotes(rt, e) && rt.mode.PaperMode?) ==> r.paper == rt.paper)
            && (Quotes(rt, e) && rt.mode.PaperMode? ==>
                  && |r.paper.orders| == |rt.paper.orders| + 1
                  && Carries(r.paper.orders[|rt.paper.orders|].intent, rt.task.synced.symbol, rt.task.pending[0])
                  && r.paper.orders[|rt.paper.orders|].createdAt == now)
  {
    hide Paper.WellFormed, PlaceOrder, IntentOf, Canary.Evaluated, Canary.WithinPolicy, Carries;
    var intent := IntentOf(rt.task.synced.symbol, rt.task.pending[0]);
    Canary.EvaluatedExactly(rt.policy, rt.canary, Some(intent), today);
    IntentCarries(rt.task.synced.symbol, rt.task.pending[0]);
    NewestPlacement(rt.paper, intent, rt.task.book, now);
  }

  /** A placement appends an order with its intent and instant, whatever trades. */
  lemma NewestPlacement(p: Paper, intent: Intent, book: Book, now: real)
    requires p.WellFormed()
    ensures var r := PlaceOrder(p, intent, Some(book), now);
            && |r.orders| == |p.orders| + 1
            && r.orders[|p.orders|].intent == intent && r.orders[|p.orders|].createdAt == now
  {
    hide FillUpTo, NoDuplicates, Persist, Takes, Grown;
    var a := Accept(p, intent, now);
    PlacementUpdates(p, intent, book, now, intent.clientId);
    NewestAge(p, intent, book, now);
  }

  lemma NewestAge(p: Paper, intent: Intent, book: Book, now: real)
    requires p.WellFormed()
    ensures var r := PlaceOrder(p, intent, Some(book), now);
            |r.orders| == |p.orders| + 1 && r.orders[|p.orders|].createdAt == now
  {
    hide FillUpTo, NoDuplicates, Persist;
    var a := Accept(p, intent, now);
    AgesKept(a, |a.keys|, intent.symbol, book);
  }

  lemma AgeKept(p: Paper, id: string, symbol: string, book: Book)
    requires p.WellFormed() && id in p.open
    ensures var r := FillOne(p, id, symbol, book);
            && |r.orders| == |p.orders|
            && forall k :: 0 <= k < |p.orders| ==> r.orders[k].createdAt == p.orders[k].createdAt
  {
    hide NoDuplicates, MatchOrder, Settle, Persist, AverageAfter;
  }

  lemma {:induction false} AgesKept(p: Paper, n: nat, symbol: string, book: Book)
    requires p.WellFormed() && n <= |p.keys|
    ensures var r := FillUpTo(p, n, symbol, book);
            && |r.orders| == |p.orders|
            && forall k :: 0 <= k < |p.orders| ==> r.orders[k].createdAt == p.orders[k].createdAt
  {
    hide Paper.WellFormed, FillOne;
    if n > 0 {
      AgesKept(p, n - 1, symbol, book);
      AgeKept(FillUpTo(p, n - 1, symbol, book), p.keys[n - 1], symbol, book);
    }
  }

  // ----- The tick task -----

  /** A tick starts exactly from idle with a read that does not stop; a symbol is priced exactly when all
      three flags are on and its data is ready, and is skipped otherwise; its submission starts exactly
      when trading is still on; and a submission ends when nothing is left to cancel or to offer. */
  lemma TaskExactly(rt: Runtime, e: Event)
    requires rt.paper.WellFormed()
    ensures var t, r := rt.task, Step(rt, e).task;
            match t
            case Idle => r == if e.TickStart? && !Stops(rt, e.read) then Quoting(e.symbols) else Idle
            case Quoting(symbols) =>
              if symbols == [] then r == (if e.EndTick? then Idle else t)
              else if !e.PriceNext? then r == t
              else if rt.trading && rt.quoting && rt.strategyQuoting && e.ready
              then r == Priced(symbols[0], e.quotes, e.book, symbols[1..])
              else r == Quoting(symbols[1..])
            case Priced(symbol, quotes, book, rest) =>
              if !e.BeginSubmit? then r == t
              else if !rt.trading then r == Quoting(rest)
              else
                && r.Submitting? && r.book == book && r.rest == rest
                && r.synced.symbol == symbol && r.synced.now == e.now && r.synced.settings == rt.settings
                && r.synced.first == |rt.paper.orders| && r.synced.closing == {}
                && (forall q <- quotes :: QuoteKey(symbol, q) in r.synced.desired)
                && (forall k: nat :: LastForRung(symbol, quotes, k) ==>
                                   r.synced.desired[QuoteKey(symbol, quotes[k])] == quotes[k])
                && (if rt.mode.PaperMode? then r.leaving == e.gone && r.pending == e.toPlace
                    else r.leaving == [] && r.pending == quotes)
            case Submitting(synced, book, leaving, pending, rest) =>
              if e.Proceed? then
                r == (if leaving != [] then t.(leaving := leaving[1..])
                      else if pending != [] then t.(pending := pending[1..]) else Quoting(rest))
              else if Closes(e) && !rt.mode.CanaryMode? && !rt.mode.Live? then
                r == t.(synced := synced.(closing := synced.closing + {e.command.intent.clientId}))
              else r == t
  {
    hide Paper.WellFormed, Apply, PlaceQuote, CancelMany, CancelOrder, SimulateFills, Swept, Desired, QuoteKey;
    if e.Operator? {
      CommandTask(rt, e.command, e.read);
    } else if e.Proceed? && Placing(rt) {
      QuoteTask(rt, e.limitsOk, e.today, e.now);
    } else if e.BeginSubmit? && rt.task.Priced? {
      DesiredLasts(rt.task.symbol, rt.task.quotes);
    }
  }

  /** No later quote is for the same rung. */
  ghost predicate LastForRung(symbol: string, quotes: seq<Quote>, k: nat) {
    k < |quotes| && forall j :: k < j < |quotes| ==> QuoteKey(symbol, quotes[j]) != QuoteKey(symbol, quotes[k])
  }

  lemma DesiredLasts(symbol: string, quotes: seq<Quote>)
    ensures var d := Desired(symbol, quotes);
            && (forall q <- quotes :: QuoteKey(symbol, q) in d)
            && (forall k: nat :: LastForRung(symbol, quotes, k) ==>
                                   d[QuoteKey(symbol, quotes[k])] == quotes[k])
  {
    hide QuoteKey, Desired;
    DesiredFacts(symbol, quotes);
    forall k: nat | LastForRung(symbol, quotes, k)
      ensures QuoteKey(symbol, quotes[k]) in Desired(symbol, quotes)
      ensures Desired(symbol, quotes)[QuoteKey(symbol, quotes[k])] == quotes[k]
    {
      LastQuoteWins(symbol, quotes, k);
    }
  }

  lemma CommandTask(rt: Runtime, command: Command, read: KillRead)
    requires rt.paper.WellFormed()
    ensures var t, r := rt.task, Apply(rt, command, read).task;
            r == if command.ClosePositions? && t.Submitting? && !rt.mode.CanaryMode? && !rt.mode.Live?
                 then t.(synced := t.synced.(closing := t.synced.closing + {command.intent.clientId})) else t
  {
    hide Paper.WellFormed, CancelMany, PlaceOrder;
  }

  lemma QuoteTask(rt: Runtime, limitsOk: bool, today: int, now: real)
    requires rt.paper.WellFormed() && Placing(rt)
    ensures PlaceQuote(rt, limitsOk, today, now).task == rt.task.(pending := rt.task.pending[1..])
  {
    hide Paper.WellFormed, PlaceOrder, IntentOf, Canary.Evaluated;
  }

  // ----- The paper engine -----

  /** From any state, the clearing commands leave no open paper order and keep fills and account; pausing,
      enabling and resuming leave the paper engine as it was, and so does closing positions in the modes
      that trade on the exchange; in the others it places one order without a rung. */
  lemma CommandsOnPaper(rt: Runtime, command: Command, read: KillRead)
    requires rt.paper.WellFormed()
    ensures var r := Step(rt, Operator(command, read)).paper;
            && (Clears(command) ==> r.open == map[] && r.fills == rt.paper.fills && r.account == rt.paper.account)
            && (command.Pause? || command.Enable? || command.Resume? ==> r == rt.paper)
            && (command.ClosePositions? && (rt.mode.CanaryMode? || rt.mode.Live?) ==> r == rt.paper)
            && (command.ClosePositions? && !rt.mode.CanaryMode? && !rt.mode.Live? ==>
                  && |r.orders| == |rt.paper.orders| + 1
                  && var i := r.orders[|rt.paper.orders|].intent;
                     OrderKey(i).None? && i == command.intent.(metadata := i.metadata))
  {
    hide CancelMany, PlaceOrder, NoDuplicates, OrderKey;
    CancelManyFacts(rt.paper, rt.paper.keys);
    if command.ClosePositions? {
      NewestPlacement(rt.paper, CloseIntent(command.intent), command.against, command.at);
    }
  }

  /** Apart from commands and placements: a market event updates every open order as the book says, a
      running sync cancels exactly the next order that leaves, and nothing else touches the engine but
      the reconciliation that ends a tick. */
  lemma EventsOnPaper(rt: Runtime, e: Event)
    requires rt.paper.WellFormed() && !e.Operator?
    ensures var p, r := rt.paper, Step(rt, e).paper;
            && (e.MarketEvent? ==> forall id <- p.open :: Updated(p, r, e.symbol, e.update, id))
            && (e.Proceed? && rt.task.Submitting? && rt.task.leaving != [] ==>
                  && (forall id :: id in r.open <==> id in p.open && id != rt.task.leaving[0])
                  && r.fills == p.fills && r.account == p.account)
            && (e.TickStart? || e.PriceNext? || e.BeginSubmit? || e.Reload? ==> r == p)
            && (e.Proceed? && (!rt.task.Submitting? || rt.task.leaving == []) && !(Quotes(rt, e) && rt.mode.PaperMode?)
                ==> r == p)
            && (e.EndTick? && (rt.task != Quoting([]) || rt.mode.CanaryMode? || rt.mode.Live? || e.aged.None?) ==>
                  r == p)
  {
    hide Paper.WellFormed, PlaceQuote, CancelMany, CancelOrder, SimulateFills, Swept, Desired, NextWithin, Updated;
    match e
    case MarketEvent(symbol, book) =>
      forall id <- rt.paper.open ensures Updated(rt.paper, SimulateFills(rt.paper, symbol, book), symbol, book, id) {
        BookUpdateExactly(rt.paper, symbol, book, id);
      }
    case Proceed(limitsOk, today, now) =>
      if Placing(rt) {
        QuoteCounted(rt, limitsOk, today, now);
      } else if rt.task.Submitting? && rt.task.leaving != [] {
        CancelFacts(rt.paper, rt.task.leaving[0]);
      }
    case _ =>
  }

  /** A tick that ends outside the modes that trade on the exchange reconciles: afterwards the open orders
      are exactly the younger ones, and every active paper row has one. */
  lemma TickEndReconciles(rt: Runtime, mismatches: nat, aged: seq<string>, now: real, maxAge: real)
    requires rt.paper.WellFormed() && rt.task == Quoting([]) && !rt.mode.CanaryMode? && !rt.mode.Live?
    requires Aged(rt.paper, now, maxAge, |rt.paper.keys|, aged)
    ensures var p, r := rt.paper, Step(rt, EndTick(mismatches, Some(aged))).paper;
            && (forall id :: id in r.open <==> id in p.open && now - OpenOrder(p, id).createdAt < maxAge)
            && (forall id <- r.table :: r.table[id].account == "paper" && r.table[id].status.Active() ==> id in r.open)
            && r.fills == p.fills && r.account == p.account
  {
    hide CancelMany, Swept, Aged, NoDuplicates;
    ReconciledState(rt.paper, now, maxAge, aged);
  }
}
