/** The market maker's event loop as interleaved steps of its two tasks: the tick, which reads the
    shared kill switch, prices symbols and submits quotes one by one, and the bus consumer, which
    applies market events, operator commands and configuration reloads between any two of them. */
module StopProtocol {
  import opened Common
  import opened PaperExecution
  import opened Ladder
  import opened LadderTheorem
  import opened PaperReconciliation
  import Canary

  /** Outcome of reading the shared kill-switch key. */
  datatype KillRead = Clear | Active(reason: string) | Unavailable

  /** Where the tick task is. A submission first cancels the orders in `leaving` that its sync found
      to go, one by one, and then offers the quotes in `pending`. */
  datatype Task =
    | Idle
    | Quoting(symbols: seq<string>)
    | Priced(symbol: string, quotes: seq<Quote>, book: Book, rest: seq<string>)
    | Submitting(synced: Synced, book: Book, leaving: seq<string>, pending: seq<Quote>, rest: seq<string>)

  datatype Runtime = Runtime(mode: Canary.LaunchMode, policy: Canary.Policy, trading: bool, quoting: bool,
                             strategyQuoting: bool, settings: Settings, riskKilled: bool, canary: Canary.State,
                             paper: Paper, task: Task, quoteOrders: nat)

  datatype Command =
    | Disable(reason: string)
    | Enable
    | CancelAll
    | ClosePositions(intent: Intent, against: Book, at: real)
    | Restart
    | Pause
    | StopStrategy
    | Resume

  datatype Event =
    | TickStart(read: KillRead, symbols: seq<string>)
    | PriceNext(ready: bool, quotes: seq<Quote>, book: Book)
    | BeginSubmit(gone: seq<string>, toPlace: seq<Quote>, now: real)
    | Proceed(limitsOk: bool, today: int, now: real)
    | EndTick(mismatches: nat, aged: Option<seq<string>>)
    | MarketEvent(symbol: string, update: Book)
    | Operator(command: Command, read: KillRead)
    | Reload(trading: bool, quoting: bool, settings: Settings)

  function Latch(rt: Runtime, reason: string): Runtime {
    rt.(canary := Canary.Shutdown(rt.canary, reason))
  }

  /** Reading the key latches the canary when it is active, and when it cannot be read in a mode
      that trades outside. */
  function ReadKillSwitch(rt: Runtime, read: KillRead): (r: (Runtime, bool))
    ensures r.0 == rt.(canary := r.0.canary)
  {
    match read
    case Clear => (rt, false)
    case Active(reason) => (Latch(rt, if reason == "" then "kill_switch_active" else reason), true)
    case Unavailable =>
      if rt.mode in {Canary.PaperMode, Canary.Shadow} then (rt, false)
      else (Latch(rt, "kill_switch_state_unavailable"), true)
  }

  function CancelAllOrders(rt: Runtime): (r: Runtime)
    requires rt.paper.WellFormed()
    ensures r.paper.WellFormed() && r == rt.(paper := r.paper)
  {
    rt.(paper := CancelMany(rt.paper, rt.paper.keys))
  }

  /** The order that closes a position carries no metadata, hence no rung. */
  function CloseIntent(intent: Intent): (r: Intent)
    ensures OrderKey(r).None?
  {
    intent.(metadata := Metadata(None, None, None, None))
  }

  /** Outside the modes that trade on the exchange the position is closed on the paper engine; a
      running submission notes the id. */
  function ClosePaperPositions(rt: Runtime, intent: Intent, book: Book, at: real): (r: Runtime)
    requires rt.paper.WellFormed()
    ensures r.paper.WellFormed()
  {
    if rt.mode in {Canary.CanaryMode, Canary.Live} then rt
    else
      var t := rt.task;
      rt.(paper := PlaceOrder(rt.paper, CloseIntent(intent), Some(book), at),
      task := if t.Submitting? then t.(synced := t.synced.(closing := t.synced.closing + {intent.clientId})) else t)
  }

  function Apply(rt: Runtime, command: Command, read: KillRead): (r: Runtime)
    requires rt.paper.WellFormed()
    ensures r.paper.WellFormed()
  {
    hide Paper.WellFormed;
    match command
    case Disable(_) => CancelAllOrders(rt.(trading := false, quoting := false, riskKilled := true))
    case Enable =>
      var (r, active) := ReadKillSwitch(rt, read);
      if active then r else r.(trading := true, quoting := true)
    case CancelAll => CancelAllOrders(rt)
    case ClosePositions(intent, book, at) => ClosePaperPositions(rt, intent, book, at)
    case Restart => CancelAllOrders(rt)
    case Pause => rt.(trading := false, quoting := false)
    case StopStrategy => CancelAllOrders(rt.(trading := false, quoting := false))
    case Resume =>
      var (r, active) := ReadKillSwitch(rt, read);
      if active then r else r.(trading := true, quoting := true)
  }

  /** The cancellations are done and a quote is pending. */
  predicate Placing(rt: Runtime) {
    rt.task.Submitting? && rt.task.leaving == [] && rt.task.pending != []
  }

  /** One check-then-place step for the next pending quote. `limitsOk` is the verdict of the risk
      limits and breakers, which the kill switch overrides. */
  function PlaceQuote(rt: Runtime, limitsOk: bool, today: int, now: real): (r: Runtime)
    requires rt.paper.WellFormed() && Placing(rt)
    ensures r.paper.WellFormed()
  {
    var t := rt.task;
    var intent := IntentOf(t.synced.symbol, t.pending[0]);
    var popped := rt.(task := t.(pending := t.pending[1..]));
    if rt.riskKilled || !limitsOk then popped
    else
      var (canary, decision) := Canary.Evaluated(rt.policy, rt.canary, Some(intent), today);
      var judged := popped.(canary := canary);
      if !decision.accepted then judged
      else if rt.mode.PaperMode? then
        judged.(paper := PlaceOrder(rt.paper, intent, Some(t.book), now), quoteOrders := rt.quoteOrders + 1)
      else if decision.executionAllowed then judged.(quoteOrders := rt.quoteOrders + 1)
      else judged
  }

  function Step(rt: Runtime, e: Event): (r: Runtime)
    requires rt.paper.WellFormed()
    ensures r.paper.WellFormed()
  {
    hide Paper.WellFormed;
    match e
    case TickStart(read, symbols) =>
      if !rt.task.Idle? then rt
      else
        var (r, active) := ReadKillSwitch(rt, read);
        if active then r else r.(task := Quoting(symbols))
    case PriceNext(ready, quotes, book) =>
      if !rt.task.Quoting? || rt.task.symbols == [] then rt
      else
        var symbol, rest := rt.task.symbols[0], rt.task.symbols[1..];
        if !rt.trading || !rt.quoting || !rt.strategyQuoting || !ready then rt.(task := Quoting(rest))
        else rt.(task := Priced(symbol, quotes, book, rest))
    case BeginSubmit(gone, toPlace, now) =>
      if !rt.task.Priced? then rt
      else
        var t := rt.task;
        if !rt.trading then rt.(task := Quoting(t.rest))
        else
          var synced := Synced(t.symbol, Desired(t.symbol, t.quotes), now, rt.settings, |rt.paper.orders|, {});
          if rt.mode.PaperMode? then
            rt.(task := Submitting(synced, t.book, gone, toPlace, t.rest))
          else rt.(task := Submitting(synced, t.book, [], t.quotes, t.rest))
    case Proceed(limitsOk, today, now) =>
      if !rt.task.Submitting? then rt
      else if rt.task.leaving != [] then
        rt.(paper := CancelOrder(rt.paper, rt.task.leaving[0]), task := rt.task.(leaving := rt.task.leaving[1..]))
      else if rt.task.pending == [] then rt.(task := Quoting(rt.task.rest))
      else PlaceQuote(rt, limitsOk, today, now)
    case EndTick(mismatches, aged) =>
      if rt.task != Quoting([]) then rt
      else if rt.mode in {Canary.CanaryMode, Canary.Live} then
        (if mismatches > 0 then Latch(rt, "reconciliation_mismatch") else rt).(task := Idle)
      else if aged.Some? then
        SweptWellFormed(CancelMany(rt.paper, aged.value));
        rt.(paper := Swept(CancelMany(rt.paper, aged.value)), task := Idle)
      else rt.(task := Idle)
    case MarketEvent(symbol, book) => rt.(paper := SimulateFills(rt.paper, symbol, book))
    case Operator(command, read) => Apply(rt, command, read)
    case Reload(trading, quoting, settings) =>
      rt.(trading := trading, quoting := quoting, strategyQuoting := quoting, settings := settings, riskKilled := false)
  }

  function Run(rt: Runtime, events: seq<Event>): (r: Runtime)
    requires rt.paper.WellFormed()
    ensures r.paper.WellFormed()
  {
    if events == [] then rt else Step(Run(rt, events[..|events| - 1]), events[|events| - 1])
  }

  // ----- The canary latch -----

  lemma ApplyKeepsStops(rt: Runtime, command: Command, read: KillRead)
    requires rt.paper.WellFormed()
    ensures var r := Apply(rt, command, read);
            && (rt.canary.killed ==> r.canary.killed)
            && (rt.riskKilled ==> r.riskKilled)
            && r.quoteOrders == rt.quoteOrders
  {
    hide Paper.WellFormed, CancelAllOrders, ReadKillSwitch, PlaceOrder;
    ReadStopsExactly(rt, read);
  }

  /** A pending quote is not placed under either stop. */
  lemma StoppedQuote(rt: Runtime, limitsOk: bool, today: int, now: real)
    requires rt.paper.WellFormed() && Placing(rt)
    ensures var r := PlaceQuote(rt, limitsOk, today, now);
            && (rt.canary.killed ==> r.canary.killed) && r.riskKilled == rt.riskKilled
            && (rt.canary.killed || rt.riskKilled ==> r.quoteOrders == rt.quoteOrders)
  {
    hide Paper.WellFormed, PlaceOrder, IntentOf, Canary.ShutdownReason;
  }

  lemma LatchedStep(rt: Runtime, e: Event)
    requires rt.paper.WellFormed() && rt.canary.killed
    ensures var r := Step(rt, e); r.canary.killed && r.quoteOrders == rt.quoteOrders
  {
    hide Paper.WellFormed, CancelMany, CancelOrder, Apply, PlaceQuote, SimulateFills, Desired, Swept,
         ReadKillSwitch;
    if e.TickStart? {
      ReadStopsExactly(rt, e.read);
    }
    if e.Operator? {
      ApplyKeepsStops(rt, e.command, e.read);
    } else if e.Proceed? && Placing(rt) {
      StoppedQuote(rt, e.limitsOk, e.today, e.now);
    }
  }

  lemma {:induction false} LatchHolds(rt: Runtime, events: seq<Event>)
    requires rt.paper.WellFormed() && rt.canary.killed
    ensures var r := Run(rt, events); r.canary.killed && r.quoteOrders == rt.quoteOrders
  {
    hide Step, Paper.WellFormed;
    if events != [] {
      LatchHolds(rt, events[..|events| - 1]);
      LatchedStep(Run(rt, events[..|events| - 1]), events[|events| - 1]);
    }
  }

  lemma {:induction false} RunConcat(rt: Runtime, first: seq<Event>, second: seq<Event>)
    requires rt.paper.WellFormed()
    ensures Run(rt, first + second) == Run(Run(rt, first), second)
  {
    hide Step, Paper.WellFormed;
    if second == [] {
      assert first + second == first;
    } else {
      var init := second[..|second| - 1];
      RunConcat(rt, first, init);
      assert (first + second)[..|first + second| - 1] == first + init;
    }
  }

  lemma RunOne(rt: Runtime, e: Event)
    requires rt.paper.WellFormed()
    ensures Run(rt, [e]) == Step(rt, e)
  {
    hide Step, Paper.WellFormed;
    assert [e][..0] == [] && Run(rt, []) == rt;
  }

  /** Once a tick has read an active kill switch, no continuation of the run, whatever ticks,
      market events, commands and reloads it interleaves, places another quote. */
  lemma ActiveKillSwitchStopsQuotes(rt: Runtime, before: seq<Event>, reason: string, symbols: seq<string>,
                                    after: seq<Event>)
    requires rt.paper.WellFormed() && Run(rt, before).task.Idle?
    ensures Run(rt, before + [TickStart(Active(reason), symbols)] + after).quoteOrders == Run(rt, before).quoteOrders
  {
    hide Paper.WellFormed, Run;
    var tick := TickStart(Active(reason), symbols);
    RunConcat(rt, before + [tick], after);
    RunConcat(rt, before, [tick]);
    RunOne(Run(rt, before), tick);
    LatchHolds(Run(rt, before + [tick]), after);
  }

  /** When a read stops the tick: an active key, or an unreadable one outside paper and shadow. */
  lemma ReadStopsExactly(rt: Runtime, read: KillRead)
    ensures ReadKillSwitch(rt, read).1 <==>
            read.Active? || (read.Unavailable? && rt.mode !in {Canary.PaperMode, Canary.Shadow})
    ensures ReadKillSwitch(rt, read).0.canary.killed <==> rt.canary.killed || ReadKillSwitch(rt, read).1
  {
  }

  // ----- The operator's stop -----

  lemma DisabledStep(rt: Runtime, e: Event)
    requires rt.paper.WellFormed() && rt.riskKilled && !e.Reload?
    ensures var r := Step(rt, e); r.riskKilled && r.quoteOrders == rt.quoteOrders
  {
    hide Paper.WellFormed, CancelMany, CancelOrder, Apply, PlaceQuote, SimulateFills, Desired, Swept,
         ReadKillSwitch;
    if e.TickStart? {
      ReadStopsExactly(rt, e.read);
    }
    if e.Operator? {
      ApplyKeepsStops(rt, e.command, e.read);
    } else if e.Proceed? && Placing(rt) {
      StoppedQuote(rt, e.limitsOk, e.today, e.now);
    }
  }

  lemma {:induction false} DisableHolds(rt: Runtime, events: seq<Event>)
    requires rt.paper.WellFormed() && rt.riskKilled && forall e <- events :: !e.Reload?
    ensures var r := Run(rt, events); r.riskKilled && r.quoteOrders == rt.quoteOrders
  {
    hide Step, Paper.WellFormed;
    if events != [] {
      var init, e := events[..|events| - 1], events[|events| - 1];
      assert e in events && forall d <- init :: d in events;
      DisableHolds(rt, init);
      DisabledStep(Run(rt, init), e);
    }
  }

  lemma DisableKills(rt: Runtime, reason: string, read: KillRead)
    requires rt.paper.WellFormed()
    ensures var r := Step(rt, Operator(Disable(reason), read)); r.riskKilled && r.quoteOrders == rt.quoteOrders
  {
    hide Paper.WellFormed, CancelMany;
  }

  /** After the operator disables trading, in any task state, no quote is placed before the next
      configuration reload, even if trading is enabled again. */
  lemma DisableStopsQuotes(rt: Runtime, before: seq<Event>, reason: string, read: KillRead, after: seq<Event>)
    requires rt.paper.WellFormed() && forall e <- after :: !e.Reload?
    ensures Run(rt, before + [Operator(Disable(reason), read)] + after).quoteOrders == Run(rt, before).quoteOrders
  {
    hide Paper.WellFormed, Run, Step;
    var stop := Operator(Disable(reason), read);
    DisableKills(Run(rt, before), reason, read);
    RunConcat(rt, before + [stop], after);
    RunConcat(rt, before, [stop]);
    RunOne(Run(rt, before), stop);
    DisableHolds(Run(rt, before + [stop]), after);
  }

  /** Disabling also empties the paper dictionary. */
  lemma DisableCancelsOpenOrders(rt: Runtime, reason: string, read: KillRead)
    requires rt.paper.WellFormed()
    ensures Step(rt, Operator(Disable(reason), read)).paper.open == map[]
  {
    hide CancelMany, NoDuplicates;
    CancelManyFacts(rt.paper, rt.paper.keys);
  }

  // ----- Pausing -----

  /** The events that switch trading back on. */
  predicate Restarts(e: Event) {
    e.Reload? || (e.Operator? && (e.command.Enable? || e.command.Resume?))
  }

  lemma PausedApply(rt: Runtime, command: Command, read: KillRead)
    requires rt.paper.WellFormed() && !rt.trading && !rt.task.Submitting? && !command.Enable? && !command.Resume?
    ensures var r := Apply(rt, command, read); !r.trading && !r.task.Submitting? && r.quoteOrders == rt.quoteOrders
  {
    hide Paper.WellFormed, CancelMany, PlaceOrder;
  }

  lemma PausedStep(rt: Runtime, e: Event)
    requires rt.paper.WellFormed() && !rt.trading && !rt.task.Submitting? && !Restarts(e)
    ensures var r := Step(rt, e); !r.trading && !r.task.Submitting? && r.quoteOrders == rt.quoteOrders
  {
    hide Paper.WellFormed, Apply, PlaceQuote, CancelMany, CancelOrder, SimulateFills, Swept, Desired, ReadKillSwitch;
    if e.Operator? {
      PausedApply(rt, e.command, e.read);
    }
  }

  /** Between submissions a pause holds: nothing is placed until trading is switched back on. */
  lemma {:induction false} PauseHolds(rt: Runtime, events: seq<Event>)
    requires rt.paper.WellFormed() && !rt.trading && !rt.task.Submitting? && forall e <- events :: !Restarts(e)
    ensures var r := Run(rt, events); !r.trading && !r.task.Submitting? && r.quoteOrders == rt.quoteOrders
  {
    hide Step, Paper.WellFormed, Restarts;
    if events != [] {
      var init, e := events[..|events| - 1], events[|events| - 1];
      assert e in events && forall d <- init :: d in events;
      PauseHolds(rt, init);
      PausedStep(Run(rt, init), e);
    }
  }

  /** The checks can still let this pending quote through, today or on another day. */
  predicate CanPlace(rt: Runtime, q: Quote)
    requires rt.task.Submitting?
  {
    && Canary.CanAccept(rt.policy, rt.canary, IntentOf(rt.task.synced.symbol, q))
    && (rt.mode.PaperMode? || rt.canary.mode in {Canary.CanaryMode, Canary.Live})
  }

  /** A submission is running, the risk kill switch is off, and some pending quote can pass. */
  predicate CanStillPlace(rt: Runtime) {
    rt.task.Submitting? && !rt.riskKilled && exists q <- rt.task.pending :: CanPlace(rt, q)
  }

  lemma BlockedQuote(rt: Runtime, limitsOk: bool, today: int, now: real)
    requires rt.paper.WellFormed() && Placing(rt) && !CanStillPlace(rt)
    ensures var r := PlaceQuote(rt, limitsOk, today, now);
            !CanStillPlace(r) && r.trading == rt.trading && r.quoteOrders == rt.quoteOrders
  {
    hide Paper.WellFormed, PlaceOrder, IntentOf, Canary.Evaluated, Canary.CanAccept;
    var q, symbol := rt.task.pending[0], rt.task.synced.symbol;
    assert q in rt.task.pending && forall u <- rt.task.pending[1..] :: u in rt.task.pending;
    Canary.AcceptableToday(rt.policy, rt.canary, IntentOf(symbol, q), today);
    forall u: Quote ensures var after := Canary.Evaluated(rt.policy, rt.canary, Some(IntentOf(symbol, q)), today).0;
                     Canary.CanAccept(rt.policy, after, IntentOf(symbol, u)) ==>
                       Canary.CanAccept(rt.policy, rt.canary, IntentOf(symbol, u))
    {
      var after := Canary.Evaluated(rt.policy, rt.canary, Some(IntentOf(symbol, q)), today).0;
      if Canary.CanAccept(rt.policy, after, IntentOf(symbol, u)) {
        Canary.EvaluatedNarrows(rt.policy, rt.canary, Some(IntentOf(symbol, q)), today, IntentOf(symbol, u));
      }
    }
  }

  lemma BlockedApply(rt: Runtime, command: Command, read: KillRead)
    requires rt.paper.WellFormed() && !rt.trading && !CanStillPlace(rt) && !command.Enable? && !command.Resume?
    ensures var r := Apply(rt, command, read); !r.trading && !CanStillPlace(r) && r.quoteOrders == rt.quoteOrders
  {
    hide Paper.WellFormed, CancelMany, PlaceOrder, IntentOf, Canary.CanAccept;
  }

  lemma BlockedStep(rt: Runtime, e: Event)
    requires rt.paper.WellFormed() && !rt.trading && !CanStillPlace(rt) && !Restarts(e)
    ensures var r := Step(rt, e); !r.trading && !CanStillPlace(r) && r.quoteOrders == rt.quoteOrders
  {
    hide Paper.WellFormed, Apply, PlaceQuote, CancelMany, CancelOrder, SimulateFills, Swept, Desired, IntentOf,
         Canary.CanAccept;
    if e.Operator? {
      BlockedApply(rt, e.command, e.read);
    } else if e.Proceed? && Placing(rt) {
      BlockedQuote(rt, e.limitsOk, e.today, e.now);
    }
  }

  lemma {:induction false} BlockedRun(rt: Runtime, events: seq<Event>)
    requires rt.paper.WellFormed() && !rt.trading && !CanStillPlace(rt) && forall e <- events :: !Restarts(e)
    ensures var r := Run(rt, events); !r.trading && !CanStillPlace(r) && r.quoteOrders == rt.quoteOrders
  {
    hide Step, Paper.WellFormed, Restarts, CanStillPlace;
    if events != [] {
      var init, e := events[..|events| - 1], events[|events| - 1];
      assert e in events && forall d <- init :: d in events;
      BlockedRun(rt, init);
      BlockedStep(Run(rt, init), e);
    }
  }

  /** The tick task proceeds n times while the limits refuse every quote. */
  function Refusals(n: nat): seq<Event> {
    if n == 0 then [] else Refusals(n - 1) + [Proceed(false, 0, 0.0)]
  }

  lemma {:induction false} RefusalsProceed(n: nat)
    ensures forall e <- Refusals(n) :: e.Proceed?
  {
    if n > 0 {
      RefusalsProceed(n - 1);
    }
  }

  lemma LeaveStep(rt: Runtime)
    requires rt.paper.WellFormed() && rt.task.Submitting? && rt.task.leaving != []
    ensures var r := Step(rt, Proceed(false, 0, 0.0));
            r == rt.(paper := r.paper, task := rt.task.(leaving := rt.task.leaving[1..]))
  {
    hide Paper.WellFormed, CancelOrder;
  }

  lemma RefuseStep(rt: Runtime)
    requires rt.paper.WellFormed() && Placing(rt)
    ensures Step(rt, Proceed(false, 0, 0.0)) == rt.(task := rt.task.(pending := rt.task.pending[1..]))
  {
    hide Paper.WellFormed, PlaceOrder, Canary.Evaluated, IntentOf;
  }

  /** A running sync gets through its cancellations. */
  lemma {:induction false} RefusalsLeave(rt: Runtime, n: nat)
    requires rt.paper.WellFormed() && rt.task.Submitting? && n <= |rt.task.leaving|
    ensures var r := Run(rt, Refusals(n));
            r == rt.(paper := r.paper, task := rt.task.(leaving := rt.task.leaving[n..]))
  {
    hide Paper.WellFormed, Step;
    if n > 0 {
      RefusalsLeave(rt, n - 1);
      assert Refusals(n)[..|Refusals(n)| - 1] == Refusals(n - 1);
      LeaveStep(Run(rt, Refusals(n - 1)));
    }
  }

  lemma {:induction false} RefusalsPop(rt: Runtime, k: nat)
    requires rt.paper.WellFormed() && rt.task.Submitting? && rt.task.leaving == [] && k <= |rt.task.pending|
    ensures Run(rt, Refusals(k)) == rt.(task := rt.task.(pending := rt.task.pending[k..]))
  {
    hide Paper.WellFormed, Step;
    if k > 0 {
      RefusalsPop(rt, k - 1);
      assert Refusals(k)[..|Refusals(k)| - 1] == Refusals(k - 1);
      RefuseStep(Run(rt, Refusals(k - 1)));
    }
  }

  lemma NextIsPlaced(rt: Runtime, today: int)
    requires rt.paper.WellFormed() && Placing(rt) && !rt.riskKilled
    requires var d := Canary.Evaluated(rt.policy, rt.canary,
                                       Some(IntentOf(rt.task.synced.symbol, rt.task.pending[0])), today).1;
             d.accepted && (rt.mode.PaperMode? || d.executionAllowed)
    ensures Step(rt, Proceed(true, today, 0.0)).quoteOrders == rt.quoteOrders + 1
  {
    hide Paper.WellFormed, PlaceOrder, IntentOf, Canary.Evaluated;
  }

  /** A pending quote that can pass is placed by a run of placement steps alone. */
  lemma PendingCanPlace(rt: Runtime) returns (events: seq<Event>)
    requires rt.paper.WellFormed() && CanStillPlace(rt)
    ensures forall e <- events :: e.Proceed?
    ensures Run(rt, events).quoteOrders == rt.quoteOrders + 1
  {
    hide Paper.WellFormed, Step, IntentOf, Canary.Evaluated, Canary.CanAccept;
    var k :| 0 <= k < |rt.task.pending| && CanPlace(rt, rt.task.pending[k]);
    var today := Canary.AcceptingDay(rt.policy, rt.canary, IntentOf(rt.task.synced.symbol, rt.task.pending[k]));
    var n, place := |rt.task.leaving|, Proceed(true, today, 0.0);
    RefusalsProceed(n);
    RefusalsProceed(k);
    RefusalsLeave(rt, n);
    var synced := Run(rt, Refusals(n));
    RefusalsPop(synced, k);
    var ready := Run(synced, Refusals(k));
    NextIsPlaced(ready, today);
    events := Refusals(n) + Refusals(k) + [place];
    RunConcat(rt, Refusals(n) + Refusals(k), [place]);
    RunConcat(rt, Refusals(n), Refusals(k));
    RunOne(ready, place);
  }

  /** While trading is off, every continuation that does not switch it back on places no quote
      exactly when no pending quote can still pass: the placement steps consult only the risk kill
      switch, the limits and the canary. */
  lemma PausedExactly(rt: Runtime)
    requires rt.paper.WellFormed() && !rt.trading
    ensures (forall events :: (forall e <- events :: !Restarts(e)) ==> Run(rt, events).quoteOrders == rt.quoteOrders)
            <==> !CanStillPlace(rt)
  {
    hide Run, Paper.WellFormed, CanStillPlace;
    if CanStillPlace(rt) {
      var events := PendingCanPlace(rt);
      assert forall e <- events :: !Restarts(e);
      assert Run(rt, events).quoteOrders != rt.quoteOrders;
    } else {
      forall events | forall e <- events :: !Restarts(e) ensures Run(rt, events).quoteOrders == rt.quoteOrders {
        BlockedRun(rt, events);
      }
    }
  }

  /** A pause in any state of the loop stops quotes exactly when none that is pending can pass. */
  lemma PauseStopsExactly(rt: Runtime, read: KillRead)
    requires rt.paper.WellFormed()
    ensures var paused := Step(rt, Operator(Pause, read));
            (forall events :: (forall e <- events :: !Restarts(e)) ==>
                                Run(paused, events).quoteOrders == rt.quoteOrders)
            <==> !CanStillPlace(rt)
  {
    hide Run, Paper.WellFormed, IntentOf, Canary.CanAccept, Restarts;
    PausedExactly(Step(rt, Operator(Pause, read)));
  }

  /** A reload ends the operator's stop, in any mode and even if it leaves trading off: the pending
      quotes that can pass are placed again by placement steps, which placed nothing before it. */
  lemma ReloadLiftsDisable(rt: Runtime, reason: string, read: KillRead, reload: Event) returns (events: seq<Event>)
    requires rt.paper.WellFormed() && CanStillPlace(rt.(riskKilled := false)) && reload.Reload?
    ensures var stopped := Step(rt, Operator(Disable(reason), read));
            && (forall e <- events :: e.Proceed?)
            && Run(stopped, events).quoteOrders == rt.quoteOrders
            && Run(Step(stopped, reload), events).quoteOrders == rt.quoteOrders + 1
  {
    hide Paper.WellFormed, CancelMany, IntentOf, Canary.CanAccept, Run;
    var stopped := Step(rt, Operator(Disable(reason), read));
    events := PendingCanPlace(Step(stopped, reload));
    DisableHolds(stopped, events);
  }

  /** With trading left off by the reload, that is exactly when quotes can follow. */
  lemma ReloadLiftsExactly(rt: Runtime, reason: string, read: KillRead, quoting: bool, settings: Settings)
    requires rt.paper.WellFormed()
    ensures var reloaded := Step(Step(rt, Operator(Disable(reason), read)), Reload(false, quoting, settings));
            (forall events :: (forall e <- events :: !Restarts(e)) ==>
                                Run(reloaded, events).quoteOrders == rt.quoteOrders)
            <==> !CanStillPlace(rt.(riskKilled := false))
  {
    hide Paper.WellFormed, CancelMany, IntentOf, Canary.CanAccept, Run, Restarts;
    PausedExactly(Step(Step(rt, Operator(Disable(reason), read)), Reload(false, quoting, settings)));
  }

  // ----- The counter and the paper orders -----

  predicate Closes(e: Event) {
    e.Operator? && e.command.ClosePositions?
  }

  lemma FillsAddNoOrder(p: Paper, symbol: string, book: Book)
    requires p.WellFormed()
    ensures |SimulateFills(p, symbol, book).orders| == |p.orders|
  {
    hide FillUpTo, Paper.WellFormed;
    FillUpToTrades(p, |p.keys|, symbol, book);
  }

  lemma PlaceAddsOneOrder(p: Paper, intent: Intent, book: Book, now: real)
    requires p.WellFormed()
    ensures |PlaceOrder(p, intent, Some(book), now).orders| == |p.orders| + 1
  {
    hide FillUpTo, Paper.WellFormed;
    FillsAddNoOrder(Accept(p, intent, now), intent.symbol, book);
  }

  lemma CancelAddsNoOrder(p: Paper, id: string)
    requires p.WellFormed()
    ensures |CancelOrder(p, id).orders| == |p.orders|
  {
  }

  lemma CancelsAddNoOrder(p: Paper, ids: seq<string>)
    requires p.WellFormed()
    ensures |CancelMany(p, ids).orders| == |p.orders|
  {
    hide CancelMany, Paper.WellFormed;
    CancelManyFacts(p, ids);
  }

  lemma CommandOrders(rt: Runtime, command: Command, read: KillRead)
    requires rt.paper.WellFormed() && rt.mode.PaperMode?
    ensures var r := Apply(rt, command, read);
            && r.mode.PaperMode? && r.quoteOrders == rt.quoteOrders
            && |r.paper.orders| == |rt.paper.orders| + if command.ClosePositions? then 1 else 0
  {
    hide Paper.WellFormed, PlaceOrder, CancelMany;
    CancelsAddNoOrder(rt.paper, rt.paper.keys);
    if command.ClosePositions? {
      PlaceAddsOneOrder(rt.paper, CloseIntent(command.intent), command.against, command.at);
    }
  }

  /** In paper mode the counter of placed quotes counts orders on the paper engine: one step adds as
      many orders as it counts quotes, and one more if it closes positions. */
  lemma OrdersFollowCounter(rt: Runtime, e: Event)
    requires rt.paper.WellFormed() && rt.mode.PaperMode?
    ensures var r := Step(rt, e);
            && r.mode.PaperMode?
            && |r.paper.orders| - |rt.paper.orders| == r.quoteOrders - rt.quoteOrders + if Closes(e) then 1 else 0
  {
    hide Paper.WellFormed, PlaceOrder, CancelMany, CancelOrder, SimulateFills, Desired, IntentOf, Canary.Evaluated,
         Apply;
    match e
    case Proceed(limitsOk, today, now) =>
      if Placing(rt) {
        PlaceAddsOneOrder(rt.paper, IntentOf(rt.task.synced.symbol, rt.task.pending[0]), rt.task.book, now);
      } else if rt.task.Submitting? && rt.task.leaving != [] {
        CancelAddsNoOrder(rt.paper, rt.task.leaving[0]);
      }
    case EndTick(_, aged) => if aged.Some? { CancelsAddNoOrder(rt.paper, aged.value); }
    case MarketEvent(symbol, book) => FillsAddNoOrder(rt.paper, symbol, book);
    case Operator(command, read) => CommandOrders(rt, command, read);
    case _ =>
  }

  function Closings(events: seq<Event>): nat {
    if events == [] then 0 else Closings(events[..|events| - 1]) + if Closes(events[|events| - 1]) then 1 else 0
  }

  lemma {:induction false} RunOrdersFollowCounter(rt: Runtime, events: seq<Event>)
    requires rt.paper.WellFormed() && rt.mode.PaperMode?
    ensures var r := Run(rt, events);
            && r.mode.PaperMode?
            && |r.paper.orders| - |rt.paper.orders| == r.quoteOrders - rt.quoteOrders + Closings(events)
  {
    hide Paper.WellFormed, Step, Closes;
    if events != [] {
      RunOrdersFollowCounter(rt, events[..|events| - 1]);
      OrdersFollowCounter(Run(rt, events[..|events| - 1]), events[|events| - 1]);
    }
  }

  // ----- What the loop tells the canary -----

  lemma CanaryAfterRead(rt: Runtime, read: KillRead)
    ensures Canary.Unbooked(rt.canary, ReadKillSwitch(rt, read).0.canary)
  {
  }

  lemma CanaryAfterCommand(rt: Runtime, command: Command, read: KillRead)
    requires rt.paper.WellFormed()
    ensures Canary.Unbooked(rt.canary, Apply(rt, command, read).canary)
  {
    hide Paper.WellFormed, CancelMany, PlaceOrder, Canary.Unbooked, ReadKillSwitch;
    Canary.ShutdownUnbooked(rt.canary);
    CanaryAfterRead(rt, read);
  }

  lemma CanaryAfterQuote(rt: Runtime, limitsOk: bool, today: int, now: real)
    requires rt.paper.WellFormed() && Placing(rt)
    ensures Canary.Unbooked(rt.canary, PlaceQuote(rt, limitsOk, today, now).canary)
  {
    hide Paper.WellFormed, PlaceOrder, IntentOf, Canary.Evaluated;
    var intent := IntentOf(rt.task.synced.symbol, rt.task.pending[0]);
    Canary.EvaluatedUnbooked(rt.policy, rt.canary, Some(intent), today);
  }

  lemma CanaryAfterStep(rt: Runtime, e: Event)
    requires rt.paper.WellFormed()
    ensures Canary.Unbooked(rt.canary, Step(rt, e).canary)
  {
    hide Paper.WellFormed, Apply, PlaceQuote, CancelMany, CancelOrder, SimulateFills, Swept, Desired, Canary.Unbooked,
         Canary.Shutdown;
    Canary.ShutdownUnbooked(rt.canary);
    if e.Operator? {
      CanaryAfterCommand(rt, e.command, e.read);
    } else if e.Proceed? && Placing(rt) {
      CanaryAfterQuote(rt, e.limitsOk, e.today, e.now);
    }
  }

  /** The loop evaluates orders at the canary and never records one there: over every run, position,
      inventory and mode stay as they were, and the order count stays or starts over at zero. */
  lemma {:induction false} LoopNeverBooks(rt: Runtime, events: seq<Event>)
    requires rt.paper.WellFormed()
    ensures Canary.Unbooked(rt.canary, Run(rt, events).canary)
  {
    hide Paper.WellFormed, Step;
    if events != [] {
      LoopNeverBooks(rt, events[..|events| - 1]);
      CanaryAfterStep(Run(rt, events[..|events| - 1]), events[|events| - 1]);
    }
  }

  // ----- The ladder claim inside the event loop -----

  /** From the start of a paper sync to its last submission the ladder invariant holds of what is open
      apart from the orders still to be cancelled; once those are gone, of all that is open. */
  ghost predicate LadderInLoop(rt: Runtime)
    requires rt.paper.WellFormed()
  {
    rt.mode.PaperMode? && rt.task.Submitting? ==>
      && DistinctIds(rt.task.synced.symbol, rt.task.synced.desired)
      && LadderInv(CancelMany(rt.paper, rt.task.leaving), rt.task.synced, rt.task.pending)
  }

  /** What the environment owes each step: a sync has its outcome, its quotes have fresh distinct
      ids and no survivor has an empty one, and a close-out does not take the id of a pending quote. */
  ghost predicate Admissible(rt: Runtime, e: Event)
    requires rt.paper.WellFormed()
  {
    && (e.BeginSubmit? && rt.task.Priced? ==>
          var s := Synced(rt.task.symbol, Desired(rt.task.symbol, rt.task.quotes), e.now, rt.settings,
                          |rt.paper.orders|, {});
          && SyncOutcome(rt.paper, s.symbol, s.desired, s.now, s.settings, e.gone, e.toPlace)
          && DistinctIds(s.symbol, s.desired) && FreshIds(rt.paper, s) && !EmptyIdStays(rt.paper, s))
    && (Closes(e) && rt.task.Submitting? ==> forall q <- rt.task.pending :: q.clientId != e.command.intent.clientId)
  }

  ghost predicate AdmissibleRun(rt: Runtime, events: seq<Event>)
    requires rt.paper.WellFormed()
  {
    events == [] || (AdmissibleRun(rt, events[..|events| - 1])
                     && Admissible(Run(rt, events[..|events| - 1]), events[|events| - 1]))
  }

  lemma CancelsKeepLadder(rt: Runtime, paper: Paper, ids: seq<string>)
    requires rt.paper.WellFormed() && paper == CancelMany(rt.paper, ids) && LadderInLoop(rt)
    ensures LadderInLoop(rt.(paper := paper))
  {
    CancelManyFacts(rt.paper, ids);
    hide CancelMany, LadderInv, DistinctIds, Paper.WellFormed, Shrinks;
    if rt.mode.PaperMode? && rt.task.Submitting? {
      ShrinkWhileLeaving(rt.paper, paper, rt.task.synced, rt.task.leaving, rt.task.pending);
    }
  }

  lemma CloseKeepsLadder(rt: Runtime, intent: Intent, book: Book, at: real)
    requires rt.paper.WellFormed() && LadderInLoop(rt)
    requires rt.task.Submitting? ==> forall q <- rt.task.pending :: q.clientId != intent.clientId
    ensures LadderInLoop(ClosePaperPositions(rt, intent, book, at))
  {
    hide LadderInv, DistinctIds, Paper.WellFormed, PlaceOrder, CancelMany;
    if rt.mode.PaperMode? && rt.task.Submitting? {
      var t := rt.task;
      var s := t.synced.(closing := t.synced.closing + {intent.clientId});
      WidenClosing(CancelMany(rt.paper, t.leaving), t.synced, t.pending, intent.clientId);
      CloseWhileLeaving(rt.paper, s, CloseIntent(intent), book, at, t.leaving, t.pending);
    }
  }

  lemma ApplyKeepsLadder(rt: Runtime, command: Command, read: KillRead)
    requires rt.paper.WellFormed() && LadderInLoop(rt)
    requires command.ClosePositions? && rt.task.Submitting? ==>
               forall q <- rt.task.pending :: q.clientId != command.intent.clientId
    ensures LadderInLoop(Apply(rt, command, read))
  {
    hide CancelMany, LadderInv, DistinctIds, Paper.WellFormed, ClosePaperPositions;
    CancelsKeepLadder(rt, CancelMany(rt.paper, rt.paper.keys), rt.paper.keys);
    if command.ClosePositions? {
      CloseKeepsLadder(rt, command.intent, command.against, command.at);
    }
  }

  lemma QuoteKeepsLadder(rt: Runtime, limitsOk: bool, today: int, now: real)
    requires rt.paper.WellFormed() && LadderInLoop(rt) && Placing(rt)
    ensures LadderInLoop(PlaceQuote(rt, limitsOk, today, now))
  {
    hide LadderInv, DistinctIds, Paper.WellFormed, PlaceOrder, Canary.Evaluated, IntentOf, CancelMany;
    var t := rt.task;
    if rt.mode.PaperMode? {
      forall p: Paper | p.WellFormed() ensures CancelMany(p, []) == p {
        CancelIsCancelMany(p, "");
      }
      var q, rest := t.pending[0], t.pending[1..];
      assert [q] + rest == t.pending;
      PerformKeepsLadder(rt.paper, t.synced, Submit(q, true, t.book, now), rest);
      PerformKeepsLadder(rt.paper, t.synced, Submit(q, false, t.book, now), rest);
    }
  }

  lemma StepKeepsLadder(rt: Runtime, e: Event)
    requires rt.paper.WellFormed() && LadderInLoop(rt) && Admissible(rt, e)
    ensures LadderInLoop(Step(rt, e))
  {
    hide LadderInv, DistinctIds, Paper.WellFormed, CancelMany, Apply, PlaceQuote, Desired, Swept, SyncOutcome,
         FreshIds, EmptyIdStays, FillUpTo;
    match e
    case BeginSubmit(gone, toPlace, now) =>
      if rt.task.Priced? {
        var desired := Desired(rt.task.symbol, rt.task.quotes);
        var s := Synced(rt.task.symbol, desired, now, rt.settings, |rt.paper.orders|, {});
        SyncLadder(rt.paper, s, gone, toPlace);
      }
    case Proceed(limitsOk, today, now) =>
      if Placing(rt) {
        QuoteKeepsLadder(rt, limitsOk, today, now);
      } else if rt.mode.PaperMode? && rt.task.Submitting? && rt.task.leaving != [] {
        LeaveNext(rt.paper, rt.task.synced, rt.task.leaving, rt.task.pending);
      }
    case MarketEvent(symbol, book) =>
      if rt.mode.PaperMode? && rt.task.Submitting? {
        FillUpToTrades(rt.paper, |rt.paper.keys|, symbol, book);
        var after := SimulateFills(rt.paper, symbol, book);
        ShrinkWhileLeaving(rt.paper, after, rt.task.synced, rt.task.leaving, rt.task.pending);
      }
    case Operator(command, read) => ApplyKeepsLadder(rt, command, read);
    case _ =>
  }

  /** In every admissible run, with any interleaving of events between the single cancellations of a
      paper sync and the single submissions after it, the ladder invariant holds from the start of the
      sync to the end of the submission: distinct desired rungs, fresh survivors, newer orders equal to
      the desired quotes, and nothing else but close-outs and the orders still to be cancelled. */
  lemma {:induction false} EveryRunKeepsLadder(rt: Runtime, events: seq<Event>)
    requires rt.paper.WellFormed() && rt.task.Idle? && AdmissibleRun(rt, events)
    ensures LadderInLoop(Run(rt, events))
  {
    hide LadderShape, RoomFor, DistinctIds, Paper.WellFormed, Step, Admissible;
    if events != [] {
      var init := events[..|events| - 1];
      EveryRunKeepsLadder(rt, init);
      StepKeepsLadder(Run(rt, init), events[|events| - 1]);
    }
  }
}
