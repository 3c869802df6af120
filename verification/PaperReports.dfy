/**
 * What a paper trade reports, from the approval, its ticks and the cost model
 * alone: when it closes and why, at which price, and every figure of the report.
 */
module PaperReports {
  import opened Common
  import opened Rounding
  import opened RiskArithmetic
  import opened RiskGate
  import opened PaperLoop

  /** Bought at the ask, sold at the bid. */
  function EntryPrice(e: Evaluation, first: Tick): real {
    if e.direction == Buy then first.ask else first.bid
  }

  /** A long position is closed at the bid, a short one at the ask. */
  function ClosePrice(e: Evaluation, tick: Tick): real {
    if e.direction == Buy then tick.bid else tick.ask
  }

  /** The money made, spread included, were the position closed at this tick. */
  function Profit(e: Evaluation, first: Tick, tick: Tick, s: Spec): real {
    var move := if e.direction == Buy then tick.bid - first.ask else first.bid - tick.ask;
    move * e.lot * s.contractSize
  }

  predicate PaysCommission(mode: CostMode) { mode == CommissionConfigured || mode == FullCostModel }

  predicate PaysSlippage(mode: CostMode) { mode == SlippageConfigured || mode == FullCostModel }

  function CommissionOf(e: Evaluation, model: CostModel): real {
    if PaysCommission(model.mode) then model.commissionPerLot * e.lot else 0.0
  }

  function SlippageOf(e: Evaluation, s: Spec, model: CostModel): real {
    if PaysSlippage(model.mode) then model.slippagePoints * model.point * e.lot * s.contractSize else 0.0
  }

  /** Half of both spreads, in ticks, at the value of a tick. */
  function SpreadOf(e: Evaluation, first: Tick, tick: Tick, s: Spec): real
    requires s.tickSize > 0.0
  {
    (first.spread + tick.spread) * e.lot * s.tickValue / s.tickSize * 0.5
  }

  /** Commission and slippage, each rounded to four decimals; the spread is in the prices already, and
      swap is never charged. */
  function Charges(e: Evaluation, s: Spec, model: CostModel): real {
    RoundTo(CommissionOf(e, model), 10000.0) + RoundTo(SlippageOf(e, s, model), 10000.0)
  }

  function NetProfit(e: Evaluation, first: Tick, tick: Tick, s: Spec, model: CostModel): real {
    Profit(e, first, tick, s) - Charges(e, s, model)
  }

  predicate HitsStop(e: Evaluation, tick: Tick) {
    (e.direction == Buy && tick.bid <= e.sl) || (e.direction == Sell && tick.ask >= e.sl)
  }

  predicate Within(x: real, y: real, slack: real) { -slack <= x - y <= slack }

  // ------------------------------------------------------------------ the report

  /** The costs of a report, each up to its rounding. */
  predicate CostFigures(c: Costs, e: Evaluation, first: Tick, tick: Tick, s: Spec, model: CostModel)
    requires s.tickSize > 0.0
  {
    && Within(c.spread, SpreadOf(e, first, tick, s), 0.00005)
    && c.commission == RoundTo(CommissionOf(e, model), 10000.0)
    && c.slippage == RoundTo(SlippageOf(e, s, model), 10000.0) && c.swap == 0.0
    && Within(c.total, SpreadOf(e, first, tick, s) + CommissionOf(e, model) + SlippageOf(e, s, model), 0.00005)
  }

  predicate ReportFigures(r: CloseResult, e: Evaluation, first: Tick, tick: Tick, s: Spec, model: CostModel)
    requires s.tickSize > 0.0
  {
    var net := NetProfit(e, first, tick, s, model);
    && r.exitPrice == ClosePrice(e, tick)
    && Within(r.gross, Profit(e, first, tick, s), 0.00005)
    && Within(r.net, net, 0.00005)
    && Within(r.riskRealized, if net < 0.0 then -net else 0.0, 0.00005)
    && CostFigures(r.costs, e, first, tick, s, model)
  }

  lemma ProfitIsGross(e: Evaluation, first: Tick, tick: Tick, s: Spec, model: CostModel)
    ensures Gross(Filled(e, first, s, model), tick) == Profit(e, first, tick, s)
  {
  }

  lemma CostsTell(e: Evaluation, first: Tick, tick: Tick, s: Spec, model: CostModel)
    requires s.tickSize > 0.0
    ensures CostFigures(EstimateCosts(Filled(e, first, s, model), tick), e, first, tick, s, model)
    ensures Net(Filled(e, first, s, model), tick) == NetProfit(e, first, tick, s, model)
  {
    hide RoundTo, CommissionOf, SlippageOf, SpreadOf, Commission, Slippage, SpreadCost, Swap, Gross, Profit;
    var t := Filled(e, first, s, model);
    ProfitIsGross(e, first, tick, s, model);
    RawCosts(e, first, tick, s, model);
    SwapIsNeverCharged(t, tick);
    Near4(SpreadCost(t, tick));
    Near4(SpreadCost(t, tick) + Commission(t) + Swap(t, 0.0) + Slippage(t));
  }

  lemma RawCosts(e: Evaluation, first: Tick, tick: Tick, s: Spec, model: CostModel)
    requires s.tickSize > 0.0
    ensures var t := Filled(e, first, s, model);
      && SpreadCost(t, tick) == SpreadOf(e, first, tick, s) && Commission(t) == CommissionOf(e, model)
      && Slippage(t) == SlippageOf(e, s, model) && Swap(t, 0.0) == 0.0
  {
    assert Product(Product(model.swapPerLotPerNight, e.lot), 0.0) == 0.0;
  }

  lemma ClosingTells(e: Evaluation, first: Tick, seen: seq<Tick>, tick: Tick, reason: ExitReason, s: Spec,
                     model: CostModel)
    requires s.tickSize > 0.0
    ensures ReportFigures(Closing(Filled(e, first, s, model), seen, tick, reason), e, first, tick, s, model)
  {
    hide RoundTo, Gross, Profit, Net, NetProfit, EstimateCosts, CostFigures, Worst, Best;
    var t := Filled(e, first, s, model);
    ProfitIsGross(e, first, tick, s, model);
    CostsTell(e, first, tick, s, model);
    var net := Net(t, tick);
    Near4(Gross(t, tick));
    Near4(net);
    Near4(if net < 0.0 then -net else 0.0);
  }

  // -------------------------------------------------------------- when it closes

  /** The position would be closed at this tick: stopped, or with a net profit. */
  predicate ClosesAt(e: Evaluation, first: Tick, tick: Tick, s: Spec, model: CostModel) {
    HitsStop(e, tick) || NetProfit(e, first, tick, s, model) > 0.0
  }

  lemma ClosesIff(e: Evaluation, first: Tick, tick: Tick, s: Spec, model: CostModel)
    requires s.tickSize > 0.0
    ensures Exits(Filled(e, first, s, model), tick) <==> ClosesAt(e, first, tick, s, model)
    ensures Stopped(Filled(e, first, s, model), tick) <==> HitsStop(e, tick)
  {
    hide Net, NetProfit;
    CostsTell(e, first, tick, s, model);
  }

  /** The whole of a paper trade: filled at the first tick, closed at the first later tick that stops it
      or shows a net profit, and if there is none, at the first tick again. */
  lemma PaperTradeTells(e: Evaluation, ticks: seq<Tick>, s: Spec, model: CostModel, at: nat, r: CloseResult)
    requires |ticks| > 0 && s.tickSize > 0.0 && Ended(Filled(e, ticks[0], s, model), ticks, at, r)
    ensures at < |ticks| && r.steps == (if at == 0 then |ticks| - 1 else at)
    ensures forall k :: 1 <= k < (if at == 0 then |ticks| else at) ==> !ClosesAt(e, ticks[0], ticks[k], s, model)
    ensures at > 0 ==> ClosesAt(e, ticks[0], ticks[at], s, model)
    ensures r.reason == if at == 0 then PaperSessionEnd else if HitsStop(e, ticks[at]) then SlStop else AbcProfitClose
    ensures ReportFigures(r, e, ticks[0], ticks[at], s, model)
  {
    hide Exits, Stopped, ClosesAt, HitsStop, ReportFigures, Net, Gross, EstimateCosts, Realized, RoundTo, Worst, Best;
    forall k | 0 <= k < |ticks|
      ensures Exits(Filled(e, ticks[0], s, model), ticks[k]) <==> ClosesAt(e, ticks[0], ticks[k], s, model)
      ensures Stopped(Filled(e, ticks[0], s, model), ticks[k]) <==> HitsStop(e, ticks[k])
    {
      ClosesIff(e, ticks[0], ticks[k], s, model);
    }
    ClosingTells(e, ticks[0], if at == 0 then ticks[1..] else ticks[1..at + 1], ticks[at], r.reason, s, model);
  }

  /** The excursions of a report are the least and the greatest of zero and the profits of the ticks
      looked at, up to the rounding. */
  lemma ExcursionsTell(e: Evaluation, ticks: seq<Tick>, s: Spec, model: CostModel, at: nat, r: CloseResult)
    requires |ticks| > 0 && s.tickSize > 0.0 && Ended(Filled(e, ticks[0], s, model), ticks, at, r)
    ensures var last := if at == 0 then |ticks| - 1 else at;
      && r.worst <= 0.00005 && r.best >= -0.00005
      && (forall k :: 1 <= k <= last ==>
            r.worst - 0.00005 <= Profit(e, ticks[0], ticks[k], s) <= r.best + 0.00005)
      && (Within(r.worst, 0.0, 0.00005) ||
          exists k :: 1 <= k <= last && Within(r.worst, Profit(e, ticks[0], ticks[k], s), 0.00005))
      && (Within(r.best, 0.0, 0.00005) ||
          exists k :: 1 <= k <= last && Within(r.best, Profit(e, ticks[0], ticks[k], s), 0.00005))
  {
    hide Gross, Profit, Net, EstimateCosts, RoundTo, Realized, Exits, Stopped;
    var t, last := Filled(e, ticks[0], s, model), if at == 0 then |ticks| - 1 else at;
    var seen := if at == 0 then ticks[1..] else ticks[1..at + 1];
    assert |seen| == last && forall k :: 0 <= k < last ==> seen[k] == ticks[k + 1];
    ExcursionsBound(t, seen);
    Near4(Worst(t, seen));
    Near4(Best(t, seen));
    forall k | 1 <= k <= last ensures Gross(t, ticks[k]) == Profit(e, ticks[0], ticks[k], s) {
      ProfitIsGross(e, ticks[0], ticks[k], s, model);
      assert seen[k - 1] == ticks[k];
    }
    assert forall k :: 1 <= k <= last ==> seen[k - 1] == ticks[k];
  }

  /** A stop loses at least the distance from entry to stop-loss. */
  lemma StopLoses(e: Evaluation, ticks: seq<Tick>, s: Spec, model: CostModel, at: nat, r: CloseResult)
    requires |ticks| > 0 && s.tickSize > 0.0 && Ended(Filled(e, ticks[0], s, model), ticks, at, r)
    requires r.reason == SlStop && e.lot >= 0.0 && s.contractSize >= 0.0
    ensures e.direction == Buy || e.direction == Sell
    ensures var distance := if e.direction == Buy then ticks[0].ask - e.sl else e.sl - ticks[0].bid;
      r.gross <= -(distance * e.lot * s.contractSize) + 0.00005
  {
    hide Ended, ReportFigures, Profit;
    PaperTradeTells(e, ticks, s, model, at, r);
    FiguresGross(r, e, ticks[0], ticks[at], s, model);
    var distance := if e.direction == Buy then ticks[0].ask - e.sl else e.sl - ticks[0].bid;
    LossAtStop(e, ticks[0], ticks[at], s, distance);
  }

  lemma FiguresGross(r: CloseResult, e: Evaluation, first: Tick, tick: Tick, s: Spec, model: CostModel)
    requires s.tickSize > 0.0 && ReportFigures(r, e, first, tick, s, model)
    ensures r.gross <= Profit(e, first, tick, s) + 0.00005
  {
  }

  lemma LossAtStop(e: Evaluation, first: Tick, tick: Tick, s: Spec, distance: real)
    requires HitsStop(e, tick) && e.lot >= 0.0 && s.contractSize >= 0.0
    requires distance == if e.direction == Buy then first.ask - e.sl else e.sl - first.bid
    ensures Profit(e, first, tick, s) <= -(distance * e.lot * s.contractSize)
  {
    var move := if e.direction == Buy then tick.bid - first.ask else first.bid - tick.ask;
    TimesMonotone(move, -distance, e.lot);
    TimesMonotone(move * e.lot, -distance * e.lot, s.contractSize);
  }
}
