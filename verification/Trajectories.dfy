/** Sequences of states that move by the standard exit rule, however their entries are decided:
    what the open position, or its absence, says about the next trade of the final log. */
module Trajectories {
  import opened Market
  import opened Costs
  import opened Positions
  import opened Simulator

  ghost predicate Exits(bars: Series, k: nat, st: SimState)
    requires k < |bars|
  {
    st.position.Some? && OnBar(st.position.value, bars[k]).Exit?
  }

  /** From before bar k to before bar k + 1. */
  ghost predicate PlainStep(costs: CostModel, bars: Series, k: nat, st: SimState, st': SimState)
    requires k < |bars|
  {
    && (st.position.Some? ==> st.position.value.tracker == Plain)
    && st'.trades == (if Exits(bars, k, st)
                      then var o := OnBar(st.position.value, bars[k]);
                           st.trades + [CloseAll(costs, st.position.value, o.price, bars[k].time, o.reason)]
                      else st.trades)
    && if st.position.Some? && !Exits(bars, k, st) then st'.position == st.position
       else st'.position.Some? ==> k + 1 < |bars| && st'.position.value.entryTime == bars[k + 1].time
  }

  ghost predicate Trajectory(costs: CostModel, bars: Series, states: seq<SimState>) {
    && |states| == |bars| + 1
    && (states[|bars|].position.Some? ==> states[|bars|].position.value.tracker == Plain)
    && forall k :: 0 <= k < |bars| ==> PlainStep(costs, bars, k, states[k], states[k + 1])
  }

  lemma ClosedTradeIsThePosition(costs: CostModel, p: Position, price: real, time: int, reason: ExitReason)
    requires p.tracker == Plain
    ensures var t := CloseAll(costs, p, price, time, reason); t.entryTime == p.entryTime && t.quantity == p.quantity
  {
  }

  /** An open position is the next trade of the log; without one the next trade enters later. */
  lemma {:induction false} NextTrade(costs: CostModel, bars: Series, states: seq<SimState>, k: nat)
    requires bars != [] && Chronological(bars) && Trajectory(costs, bars, states)
    requires k <= |bars|
    ensures var st, full := states[k], Finish(costs, bars, states[|bars|]).trades;
            && st.trades <= full
            && match st.position
               case Some(p) =>
                 && |full| > |st.trades|
                 && full[|st.trades|].entryTime == p.entryTime && full[|st.trades|].quantity == p.quantity
               case None =>
                 |full| > |st.trades| ==> k < |bars| && full[|st.trades|].entryTime > bars[k].time
    decreases |bars| - k
  {
    hide OnBar, CloseAll;
    var st := states[k];
    if k == |bars| {
      FinishShape(costs, bars, st);
      if st.position.Some? {
        var last := bars[|bars| - 1];
        ClosedTradeIsThePosition(costs, st.position.value, costs.ExitFill(last.close), last.time, EndOfData);
      }
    } else {
      NextTrade(costs, bars, states, k + 1);
      if Exits(bars, k, st) {
        var o := OnBar(st.position.value, bars[k]);
        ClosedTradeIsThePosition(costs, st.position.value, o.price, bars[k].time, o.reason);
      }
      hide Finish;
    }
  }
}
