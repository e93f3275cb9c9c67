/** The canary controller: limits checked before each order, and a shutdown latch that only an
    approved reset lifts. */
module Canary {
  import opened Common

  datatype LaunchMode = ReadOnly | Shadow | PaperMode | DryRun | CanaryMode | Live

  datatype Policy = Policy(maxPosition: real, maxDailyLoss: real, maxOrderCount: int, maxInventory: real,
                           maxOrderNotional: real, allowedTypes: set<OrderType>)

  datatype State = State(mode: LaunchMode, position: real, inventory: real, dailyPnl: real, orderCount: int,
                         day: int, killed: bool, reason: Option<string>)

  datatype Decision = Decision(accepted: bool, executionAllowed: bool, reason: string)

  function NotionalOf(i: Intent): real {
    (if i.price.Some? then i.price.value else 0.0) * i.quantity
  }

  function RollDay(st: State, today: int): State {
    if st.day == today then st else st.(day := today, orderCount := 0, dailyPnl := 0.0)
  }

  function ShutdownReason(policy: Policy, st: State, intent: Option<Intent>): Option<string> {
    if Abs(st.position) > policy.maxPosition then Some("max_position_limit_exceeded")
    else if st.inventory > policy.maxInventory then Some("max_inventory_limit_exceeded")
    else if st.dailyPnl <= -Abs(policy.maxDailyLoss) then Some("max_daily_loss_exceeded")
    else if st.orderCount >= policy.maxOrderCount then Some("max_order_count_exceeded")
    else if intent.Some? && NotionalOf(intent.value) > policy.maxOrderNotional then Some("max_order_notional_exceeded")
    else if intent.Some? && intent.value.orderType !in policy.allowedTypes then Some("order_type_not_allowed_in_canary")
    else None
  }

  function Shutdown(st: State, reason: string): State {
    st.(killed := true, reason := Some(reason))
  }

  function NoExecution(mode: LaunchMode): string
    requires mode in {Shadow, PaperMode, DryRun}
  {
    if mode.Shadow? then "shadow_no_external_execution"
    else if mode.PaperMode? then "paper_no_external_execution"
    else "dry_run_no_external_execution"
  }

  function KillReason(st: State): string {
    if st.reason.Some? && st.reason.value != "" then st.reason.value else "kill_switch_active"
  }

  function Evaluated(policy: Policy, st: State, intent: Option<Intent>, today: int): (State, Decision) {
    var now := RollDay(st, today);
    if now.killed then
      (now, Decision(false, false, KillReason(now)))
    else
      var stop := ShutdownReason(policy, now, intent);
      if stop.Some? then (Shutdown(now, stop.value), Decision(false, false, stop.value))
      else if now.mode.ReadOnly? then (now, Decision(false, false, "read_only_mode"))
      else if now.mode in {Shadow, PaperMode, DryRun} then (now, Decision(true, false, NoExecution(now.mode)))
      else (now, Decision(true, true, "execution_allowed"))
  }

  function Book(st: State, i: Intent): State {
    var position := st.position + if i.side.Buy? then NotionalOf(i) else -NotionalOf(i);
    st.(orderCount := st.orderCount + 1, position := position, inventory := Abs(position))
  }

  function Recorded(policy: Policy, st: State, intent: Intent, today: int): (State, Decision) {
    var (now, decision) := Evaluated(policy, st, Some(intent), today);
    (if decision.accepted then Book(now, intent) else now, decision)
  }

  function Reset(st: State, mode: LaunchMode): State {
    st.(mode := mode, killed := false, reason := None, orderCount := 0)
  }

  /** Every limit, as the policy states it. */
  predicate WithinPolicy(policy: Policy, st: State, intent: Option<Intent>) {
    && Abs(st.position) <= policy.maxPosition
    && st.inventory <= policy.maxInventory
    && st.dailyPnl > -Abs(policy.maxDailyLoss)
    && st.orderCount < policy.maxOrderCount
    && (intent.Some? ==>
          NotionalOf(intent.value) <= policy.maxOrderNotional && intent.value.orderType in policy.allowedTypes)
  }

  /** An evaluation accepts exactly when the latch is off, the day's limits hold and the mode may
      quote; it shuts down exactly when the latch was on or a limit is broken. */
  lemma EvaluatedExactly(policy: Policy, st: State, intent: Option<Intent>, today: int)
    ensures var (r, d) := Evaluated(policy, st, intent, today);
            var within := WithinPolicy(policy, RollDay(st, today), intent);
            && (d.accepted <==> !st.killed && within && !st.mode.ReadOnly?)
            && (d.executionAllowed <==> d.accepted && st.mode in {CanaryMode, Live})
            && (r.killed <==> st.killed || !within)
            && (r.day == today && r.position == st.position && (st.day == today ==> r.orderCount == st.orderCount))
  {
    hide NotionalOf, NoExecution;
  }

  /** A refusal names the first broken limit, in the order position, inventory, daily loss, order count,
      order notional, order type. */
  lemma ReasonExactly(policy: Policy, st: State, i: Intent)
    ensures var reason := ShutdownReason(policy, st, Some(i));
            var notional := (if i.price.Some? then i.price.value else 0.0) * i.quantity;
            var a := Abs(st.position) > policy.maxPosition;
            var b := st.inventory > policy.maxInventory;
            var c := st.dailyPnl <= -Abs(policy.maxDailyLoss);
            var d := st.orderCount >= policy.maxOrderCount;
            var e := notional > policy.maxOrderNotional;
            var f := i.orderType !in policy.allowedTypes;
            && (reason.None? <==> !a && !b && !c && !d && !e && !f)
            && (reason == Some("max_position_limit_exceeded") <==> a)
            && (reason == Some("max_inventory_limit_exceeded") <==> b && !a)
            && (reason == Some("max_daily_loss_exceeded") <==> c && !a && !b)
            && (reason == Some("max_order_count_exceeded") <==> d && !a && !b && !c)
            && (reason == Some("max_order_notional_exceeded") <==> e && !a && !b && !c && !d)
            && (reason == Some("order_type_not_allowed_in_canary") <==> f && !a && !b && !c && !d && !e)
  {
    var names := ["max_position_limit_exceeded", "max_inventory_limit_exceeded", "max_daily_loss_exceeded",
                  "max_order_count_exceeded", "max_order_notional_exceeded", "order_type_not_allowed_in_canary"];
    assert names[0][4] == 'p' && names[1][4] == 'i' && names[2][4] == 'd' && names[3][4] == 'o' && names[4][4] == 'o';
    assert names[5][4] == 'r' && names[3][10] == 'c' && names[4][10] == 'n';
  }

  /** What a decision says: the reason of the shutdown it met or caused, that the mode is read-only, that
      it does not trade outside, or that it does. */
  lemma DecisionExactly(policy: Policy, st: State, i: Intent, today: int)
    ensures var stop, d := ShutdownReason(policy, RollDay(st, today), Some(i)), Evaluated(policy, st, Some(i), today).1;
            if st.killed then d.reason == KillReason(st)
            else if stop.Some? then Some(d.reason) == stop && Evaluated(policy, st, Some(i), today).0.reason == stop
            else d.reason == if st.mode.ReadOnly? then "read_only_mode"
                             else if st.mode.Shadow? then "shadow_no_external_execution"
                             else if st.mode.PaperMode? then "paper_no_external_execution"
                             else if st.mode.DryRun? then "dry_run_no_external_execution"
                             else "execution_allowed"
  {
    hide ShutdownReason, KillReason;
    SameReason(st, today);
  }

  lemma SameReason(st: State, today: int)
    ensures KillReason(RollDay(st, today)) == KillReason(st)
    ensures KillReason(st) == if st.reason in {None, Some("")} then "kill_switch_active" else st.reason.value
  {
  }

  /** The day rolls by resetting the count and the profit of the day and nothing else. */
  lemma DayRolls(st: State, today: int)
    ensures RollDay(st, today) == if today == st.day then st
                                  else State(st.mode, st.position, st.inventory, 0.0, 0, today, st.killed, st.reason)
  {
  }

  /** Recording an order that is accepted moves the position by its signed notional, makes the inventory
      its absolute value and counts one more for the day; any other leaves all three. */
  lemma RecordedExactly(policy: Policy, st: State, i: Intent, today: int)
    ensures var (r, d) := Recorded(policy, st, i, today);
            var notional := (if i.price.Some? then i.price.value else 0.0) * i.quantity;
            && d == Evaluated(policy, st, Some(i), today).1
            && r.day == today
            && (d.accepted ==>
                  && r.position == st.position + (if i.side.Buy? then notional else -notional)
                  && r.inventory == Abs(r.position) && !r.killed
                  && r.orderCount == (if st.day == today then st.orderCount else 0) + 1
                  && r.dailyPnl == (if st.day == today then st.dailyPnl else 0.0))
            && (!d.accepted ==> r == Evaluated(policy, st, Some(i), today).0 && r.position == st.position
                                && r.inventory == st.inventory)
  {
    hide ShutdownReason, NoExecution;
  }

  /** An approved reset lifts the latch, takes the new mode and starts the count over; position, inventory
      and the day's profit stay, so a broken limit shuts down again. */
  lemma ResetExactly(st: State, mode: LaunchMode)
    ensures Reset(st, mode) == State(mode, st.position, st.inventory, st.dailyPnl, 0, st.day, false, None)
  {
  }

  /** The limits that no day roll lifts hold, and the daily ones hold now or on a fresh day. */
  predicate CanAccept(policy: Policy, st: State, i: Intent) {
    && !st.killed && !st.mode.ReadOnly?
    && Abs(st.position) <= policy.maxPosition && st.inventory <= policy.maxInventory
    && NotionalOf(i) <= policy.maxOrderNotional && i.orderType in policy.allowedTypes
    && ((st.dailyPnl > -Abs(policy.maxDailyLoss) && st.orderCount < policy.maxOrderCount)
        || (policy.maxDailyLoss != 0.0 && policy.maxOrderCount > 0))
  }

  lemma AcceptableToday(policy: Policy, st: State, i: Intent, today: int)
    ensures var (r, d) := Evaluated(policy, st, Some(i), today);
            && r.mode == st.mode
            && (d.accepted ==> CanAccept(policy, st, i))
            && (d.executionAllowed <==> d.accepted && st.mode in {CanaryMode, Live})
  {
    hide NotionalOf, NoExecution;
    EvaluatedExactly(policy, st, Some(i), today);
  }

  lemma AcceptingDay(policy: Policy, st: State, i: Intent) returns (today: int)
    requires CanAccept(policy, st, i)
    ensures var d := Evaluated(policy, st, Some(i), today).1;
            d.accepted && (d.executionAllowed <==> st.mode in {CanaryMode, Live})
  {
    hide NotionalOf, NoExecution;
    var sameDay := st.dailyPnl > -Abs(policy.maxDailyLoss) && st.orderCount < policy.maxOrderCount;
    today := if sameDay then st.day else st.day + 1;
    EvaluatedExactly(policy, st, Some(i), today);
  }

  /** An order can be accepted on some day exactly when this decidable condition holds. */
  lemma CanAcceptExactly(policy: Policy, st: State, i: Intent)
    ensures CanAccept(policy, st, i) <==> exists today :: Evaluated(policy, st, Some(i), today).1.accepted
  {
    hide CanAccept, Evaluated;
    if CanAccept(policy, st, i) {
      var today := AcceptingDay(policy, st, i);
      assert Evaluated(policy, st, Some(i), today).1.accepted;
    }
    if today :| Evaluated(policy, st, Some(i), today).1.accepted {
      AcceptableToday(policy, st, i, today);
    }
  }

  /** Evaluating any order makes no other acceptable: it rolls the day or latches. */
  lemma EvaluatedNarrows(policy: Policy, st: State, probe: Option<Intent>, today: int, i: Intent)
    requires CanAccept(policy, Evaluated(policy, st, probe, today).0, i)
    ensures CanAccept(policy, st, i)
  {
    hide NotionalOf, NoExecution, ShutdownReason;
  }

  /** Nothing was recorded between two states. */
  predicate Unbooked(st: State, r: State) {
    && r.mode == st.mode && r.position == st.position && r.inventory == st.inventory
    && (r.orderCount == st.orderCount || r.orderCount == 0) && (r.dailyPnl == st.dailyPnl || r.dailyPnl == 0.0)
  }

  lemma ShutdownUnbooked(st: State)
    ensures Unbooked(st, st) && forall reason :: Unbooked(st, Shutdown(st, reason))
  {
  }

  lemma EvaluatedUnbooked(policy: Policy, st: State, probe: Option<Intent>, today: int)
    ensures Unbooked(st, Evaluated(policy, st, probe, today).0)
  {
    hide NotionalOf, NoExecution, ShutdownReason;
  }

  // ----- Runs -----

  datatype Event =
    | Check(probe: Option<Intent>, today: int)
    | Record(order: Intent, today: int)
    | Stop(why: string)
    | Approve(mode: LaunchMode)

  function Step(policy: Policy, st: State, e: Event): (State, Option<Decision>) {
    match e
    case Check(probe, today) => var (r, d) := Evaluated(policy, st, probe, today); (r, Some(d))
    case Record(order, today) => var (r, d) := Recorded(policy, st, order, today); (r, Some(d))
    case Stop(why) => (Shutdown(st, why), None)
    case Approve(mode) => (Reset(st, mode), None)
  }

  function Run(policy: Policy, st: State, events: seq<Event>): State {
    if events == [] then st else Step(policy, Run(policy, st, events[..|events| - 1]), events[|events| - 1]).0
  }

  function Initial(mode: LaunchMode, today: int): State {
    State(mode, 0.0, 0.0, 0.0, 0, today, false, None)
  }

  ghost predicate Bounded(policy: Policy, st: State) {
    && Abs(st.position) <= Max(0.0, policy.maxPosition + policy.maxOrderNotional)
    && st.inventory == Abs(st.position)
    && 0 <= st.orderCount
    && (st.orderCount <= policy.maxOrderCount || st.orderCount == 0)
  }

  lemma StepBounded(policy: Policy, st: State, e: Event)
    requires Bounded(policy, st) && (e.Record? ==> NotionalOf(e.order) >= -policy.maxOrderNotional)
    ensures Bounded(policy, Step(policy, st, e).0)
  {
    hide NotionalOf, NoExecution;
  }

  /** Every run keeps position and order count bounded, as long as no recorded order has a notional
      below minus the order limit (a nonnegative one never does when the limit is nonnegative). */
  lemma {:induction false} RunBounded(policy: Policy, mode: LaunchMode, today: int, events: seq<Event>)
    requires forall e <- events :: e.Record? ==> NotionalOf(e.order) >= -policy.maxOrderNotional
    ensures Bounded(policy, Run(policy, Initial(mode, today), events))
  {
    hide Step, NotionalOf;
    if events != [] {
      var init, e := events[..|events| - 1], events[|events| - 1];
      assert e in events && forall d <- init :: d in events;
      RunBounded(policy, mode, today, init);
      StepBounded(policy, Run(policy, Initial(mode, today), init), e);
    }
  }

  /** The hypothesis is exact: for an order that the checks let through, the bound survives from
      every admissible position exactly when the notional is not below minus the limit. */
  lemma BoundNeedsNotional(policy: Policy, i: Intent)
    requires policy.maxPosition >= 0.0 && policy.maxOrderNotional >= 0.0 && NotionalOf(i) <= policy.maxOrderNotional
    ensures NotionalOf(i) >= -policy.maxOrderNotional <==>
            forall st: State :: Abs(st.position) <= policy.maxPosition ==>
                                  Abs(Book(st, i).position) <= policy.maxPosition + policy.maxOrderNotional
  {
    if NotionalOf(i) < -policy.maxOrderNotional {
      var far := if i.side.Buy? then -policy.maxPosition else policy.maxPosition;
      var st := State(Live, far, 0.0, 0.0, 0, 0, false, None);
      assert Abs(Book(st, i).position) > policy.maxPosition + policy.maxOrderNotional;
    }
  }

  /** Once shut down, a run without an approved reset stays shut down, whatever days roll by, and
      every decision in it refuses. */
  lemma {:induction false} ShutdownHolds(policy: Policy, st: State, events: seq<Event>, n: nat)
    requires st.killed && n <= |events| && forall e <- events :: !e.Approve?
    ensures var r := Run(policy, st, events[..n]);
            r.killed && r.position == st.position
    ensures n < |events| ==> var d := Step(policy, Run(policy, st, events[..n]), events[n]).1;
                             d.Some? ==> !d.value.accepted && !d.value.executionAllowed
  {
    if n > 0 {
      ShutdownHolds(policy, st, events, n - 1);
      assert events[..n][..n - 1] == events[..n - 1] && events[..n][n - 1] == events[n - 1];
      assert events[n - 1] in events;
    }
  }

  // ----- The controller object -----

  class CanaryController {
    const policy: Policy
    var state: State

    constructor (policy: Policy, state: State)
      ensures this.policy == policy && this.state == state
    {
      this.policy, this.state := policy, state;
    }

    method RollDayIfNeeded(today: int)
      modifies this
      ensures state == RollDay(old(state), today)
    {
      if state.day != today {
        state := state.(day := today, orderCount := 0, dailyPnl := 0.0);
      }
    }

    method ActivateShutdown(reason: string)
      modifies this
      ensures state == Shutdown(old(state), reason)
    {
      state := state.(killed := true, reason := Some(reason));
    }

    method ResetAfterApproval(mode: LaunchMode)
      modifies this
      ensures state == Reset(old(state), mode)
    {
      state := state.(mode := mode, killed := false, reason := None, orderCount := 0);
    }

    method Evaluate(intent: Option<Intent>, today: int) returns (decision: Decision)
      modifies this
      ensures (state, decision) == Evaluated(policy, old(state), intent, today)
    {
      RollDayIfNeeded(today);
      if state.killed {
        return Decision(false, false, KillReason(state));
      }
      var stop := ShutdownReason(policy, state, intent);
      if stop.Some? {
        ActivateShutdown(stop.value);
        return Decision(false, false, stop.value);
      }
      if state.mode.ReadOnly? {
        return Decision(false, false, "read_only_mode");
      }
      if state.mode in {Shadow, PaperMode, DryRun} {
        return Decision(true, false, NoExecution(state.mode));
      }
      return Decision(true, true, "execution_allowed");
    }

    method RecordOrder(intent: Intent, today: int) returns (decision: Decision)
      modifies this
      ensures (state, decision) == Recorded(policy, old(state), intent, today)
    {
      decision := Evaluate(Some(intent), today);
      if decision.accepted {
        var notional := NotionalOf(intent);
        var position := state.position + if intent.side.Buy? then notional else -notional;
        state := state.(orderCount := state.orderCount + 1, position := position);
        state := state.(inventory := Abs(state.position));
      }
    }
  }
}
