/**
 * Paper trading (paper_validation/execution_simulator.py, cost_model.py, scenario_runner.py):
 * a simulated position watched tick by tick until stop, profit or the end of the session.
 */
module PaperLoop {
  import opened Common
  import opened Rounding
  import opened RiskArithmetic
  import opened RiskGate

  /** stamped: the tick's timestamp can be parsed. */
  datatype Tick = Tick(bid: real, ask: real, spread: real, mid: real, named: bool, stamped: bool)

  datatype CostMode = SpreadOnly | CommissionConfigured | SlippageConfigured | FullCostModel

  datatype CostModel = CostModel(mode: CostMode, commissionPerLot: real, swapPerLotPerNight: real,
                                 slippagePoints: real, point: real)

  datatype Costs = Costs(spread: real, commission: real, swap: real, slippage: real, total: real)

  /** What stays fixed of an open position. */
  datatype Trade = Trade(direction: Direction, lot: real, entry: real, sl: real, spreadAtEntry: real, risk: real,
                         model: CostModel, spec: Spec)

  datatype ExitReason = AbcProfitClose | SlStop | PaperSessionEnd

  datatype CloseResult = CloseResult(
    exitPrice: real, reason: ExitReason, gross: real, costs: Costs, net: real, riskRealized: real,
    worst: real, best: real, steps: nat)

  function ExitPrice(t: Trade, tick: Tick): real {
    if t.direction.Buy? then tick.bid else tick.ask
  }

  /** What the price has moved in the position's favour since entry. */
  function Move(t: Trade, price: real): real {
    if t.direction.Buy? then price - t.entry else t.entry - price
  }

  function Gross(t: Trade, tick: Tick): real {
    Worth(t, Move(t, ExitPrice(t, tick)))
  }

  /** The money value of a price move. */
  function Worth(t: Trade, move: real): real {
    Product(Product(move, t.lot), t.spec.contractSize)
  }

  function SpreadCost(t: Trade, tick: Tick): real
    requires t.spec.tickSize > 0.0
  {
    (t.spreadAtEntry + tick.spread) * t.lot * t.spec.tickValue / t.spec.tickSize * 0.5
  }

  function Commission(t: Trade): real {
    if t.model.mode.CommissionConfigured? || t.model.mode.FullCostModel?
      then Product(t.model.commissionPerLot, t.lot) else 0.0
  }

  function Slippage(t: Trade): real {
    if t.model.mode.SlippageConfigured? || t.model.mode.FullCostModel?
    then Worth(t, Product(t.model.slippagePoints, t.model.point)) else 0.0
  }

  function Swap(t: Trade, nights: real): real {
    if t.model.mode.FullCostModel? then Product(Product(t.model.swapPerLotPerNight, t.lot), nights) else 0.0
  }

  function ComputeCosts(t: Trade, tick: Tick, nights: real): Costs
    requires t.spec.tickSize > 0.0
  {
    var total := SpreadCost(t, tick) + Commission(t) + Swap(t, nights) + Slippage(t);
    Costs(RoundTo(SpreadCost(t, tick), SCALE4), RoundTo(Commission(t), SCALE4), RoundTo(Swap(t, nights), SCALE4),
          RoundTo(Slippage(t), SCALE4), RoundTo(total, SCALE4))
  }

  /** Holding nights are never passed on, so they are always none. */
  function EstimateCosts(t: Trade, tick: Tick): Costs
    requires t.spec.tickSize > 0.0
  {
    ComputeCosts(t, tick, 0.0)
  }

  function Net(t: Trade, tick: Tick): real
    requires t.spec.tickSize > 0.0
  {
    var c := EstimateCosts(t, tick);
    Gross(t, tick) - c.commission - c.swap - c.slippage
  }

  predicate Stopped(t: Trade, tick: Tick) {
    (t.direction.Buy? && tick.bid <= t.sl) || (t.direction.Sell? && tick.ask >= t.sl)
  }

  predicate Exits(t: Trade, tick: Tick)
    requires t.spec.tickSize > 0.0
  {
    Stopped(t, tick) || Net(t, tick) > 0.0
  }

  function Realized(net: real): real {
    RoundTo(if net < 0.0 then -net else 0.0, SCALE4)
  }

  /** The lowest gross result over these ticks, no higher than 0. */
  function Worst(t: Trade, ticks: seq<Tick>): real {
    if ticks == [] then 0.0
    else Min(Worst(t, ticks[..|ticks| - 1]), Gross(t, ticks[|ticks| - 1]))
  }

  function Best(t: Trade, ticks: seq<Tick>): real {
    if ticks == [] then 0.0
    else Max(Best(t, ticks[..|ticks| - 1]), Gross(t, ticks[|ticks| - 1]))
  }

  /** The excursions bound every gross result and 0, and each is reached. */
  lemma {:induction false} ExcursionsBound(t: Trade, ticks: seq<Tick>)
    ensures Worst(t, ticks) <= 0.0 <= Best(t, ticks)
    ensures forall k :: 0 <= k < |ticks| ==> Worst(t, ticks) <= Gross(t, ticks[k]) <= Best(t, ticks)
    ensures Worst(t, ticks) == 0.0 || exists k :: 0 <= k < |ticks| && Worst(t, ticks) == Gross(t, ticks[k])
    ensures Best(t, ticks) == 0.0 || exists k :: 0 <= k < |ticks| && Best(t, ticks) == Gross(t, ticks[k])
  {
    hide Gross;
    if ticks != [] { ExcursionsBound(t, ticks[..|ticks| - 1]); }
  }

  lemma ExcursionsGrow(t: Trade, seen: seq<Tick>, tick: Tick)
    ensures Worst(t, seen + [tick]) == Min(Worst(t, seen), Gross(t, tick))
    ensures Best(t, seen + [tick]) == Max(Best(t, seen), Gross(t, tick))
  {
    hide Gross;
    assert (seen + [tick])[..|seen|] == seen;
  }

  class SimulatedPosition {
    const trade: Trade
    var maxAdverseExcursion: real
    var maxFavorableExcursion: real
    var holdingSteps: nat
    ghost var seen: seq<Tick>

    ghost predicate Valid()
      reads this
    {
      && trade.spec.tickSize > 0.0
      && holdingSteps == |seen|
      && maxAdverseExcursion == Worst(trade, seen)
      && maxFavorableExcursion == Best(trade, seen)
    }

    constructor (t: Trade)
      requires t.spec.tickSize > 0.0
      ensures Valid() && trade == t && seen == []
    {
      trade := t;
      maxAdverseExcursion, maxFavorableExcursion, holdingSteps := 0.0, 0.0, 0;
      seen := [];
    }

    method CheckExit(tick: Tick) returns (exit: Option<ExitReason>)
      requires Valid()
      modifies this
      ensures Valid() && seen == old(seen) + [tick]
      ensures exit.Some? <==> Exits(trade, tick)
      ensures exit.Some? ==> exit.value == if Stopped(trade, tick) then SlStop else AbcProfitClose
    {
      hide Gross, EstimateCosts, Worst, Best, RoundTo;
      holdingSteps := holdingSteps + 1;
      var gross := Gross(trade, tick);
      if gross < maxAdverseExcursion { maxAdverseExcursion := gross; }
      if gross > maxFavorableExcursion { maxFavorableExcursion := gross; }
      seen := seen + [tick];
      ExcursionsGrow(trade, old(seen), tick);
      if trade.direction.Buy? && tick.bid <= trade.sl { return Some(SlStop); }
      if trade.direction.Sell? && tick.ask >= trade.sl { return Some(SlStop); }
      var costs := EstimateCosts(trade, tick);
      var additional := costs.commission + costs.swap + costs.slippage;
      var net := gross - additional;
      if net > 0.0 { return Some(AbcProfitClose); }
      exit := None;
    }

    method Close(tick: Tick, reason: ExitReason) returns (r: CloseResult)
      requires Valid()
      ensures r == Closing(trade, seen, tick, reason)
    {
      hide Gross, EstimateCosts, RoundTo;
      var gross := Gross(trade, tick);
      var costs := EstimateCosts(trade, tick);
      var net := gross - costs.commission - costs.swap - costs.slippage;
      r := CloseResult(ExitPrice(trade, tick), reason, RoundTo(gross, SCALE4), costs, RoundTo(net, SCALE4),
        Realized(net), RoundTo(maxAdverseExcursion, SCALE4), RoundTo(maxFavorableExcursion, SCALE4), holdingSteps);
    }
  }

  /** The evidence of a trade closed at a tick after these ticks were checked. */
  function Closing(t: Trade, seen: seq<Tick>, tick: Tick, reason: ExitReason): CloseResult
    requires t.spec.tickSize > 0.0
  {
    CloseResult(ExitPrice(t, tick), reason, RoundTo(Gross(t, tick), SCALE4), EstimateCosts(t, tick),
                RoundTo(Net(t, tick), SCALE4), Realized(Net(t, tick)), RoundTo(Worst(t, seen), SCALE4),
                RoundTo(Best(t, seen), SCALE4), |seen|)
  }

  /** The end of a paper trade over ticks[0] (the fill) and the ticks after it: closed at tick `at`
      having looked at `seen`. */
  ghost predicate Ended(t: Trade, ticks: seq<Tick>, at: nat, r: CloseResult)
    requires |ticks| > 0 && t.spec.tickSize > 0.0
  {
    && at < |ticks|
    && (forall k :: 1 <= k < (if at == 0 then |ticks| else at) ==> !Exits(t, ticks[k]))
    && (at == 0 <==> r.reason == PaperSessionEnd)
    && (at > 0 ==> Exits(t, ticks[at]) && r.reason == if Stopped(t, ticks[at]) then SlStop else AbcProfitClose)
    && r == Closing(t, if at == 0 then ticks[1..] else ticks[1..at + 1], ticks[at], r.reason)
  }

  /** Looks at every tick after the fill until one closes the position. Left without an exit, the
      position is closed at the tick it was filled at. */
  method Watch(position: SimulatedPosition, ticks: seq<Tick>) returns (at: nat, r: CloseResult)
    requires position.Valid() && position.seen == [] && |ticks| > 0
    modifies position
    ensures Ended(position.trade, ticks, at, r)
  {
    hide Gross, Net, Stopped, Worst, Best, EstimateCosts, RoundTo, Realized;
    var exit: Option<ExitReason> := None;
    at := 0;
    var i := 1;
    while i < |ticks|
      invariant 1 <= i <= |ticks| && at == 0 && exit.None?
      invariant position.Valid() && position.seen == ticks[1..i]
      invariant forall k :: 1 <= k < i ==> !Exits(position.trade, ticks[k])
    {
      assert ticks[1..i] + [ticks[i]] == ticks[1..i + 1];
      exit := position.CheckExit(ticks[i]);
      if exit.Some? {
        at := i;
        break;
      }
      i := i + 1;
    }
    assert position.seen == if at == 0 then ticks[1..] else ticks[1..at + 1];
    var reason := if exit.Some? then exit.value else PaperSessionEnd;
    r := position.Close(ticks[at], reason);
  }

  datatype ScenarioResult =
    | NoTicks
    | NotApproved(reason: Reason)
    | Traded(evaluation: Evaluation, at: nat, close: CloseResult, overrun: bool)

  function MarketAt(tick: Tick): Market {
    Market(tick.bid, tick.ask, tick.spread, tick.mid, tick.named, if tick.stamped then Some(0.0) else None)
  }

  /** The position filled for an approved proposal at a tick: bought at the ask, sold at the bid. */
  function Filled(e: Evaluation, tick: Tick, s: Spec, model: CostModel): Trade {
    Trade(e.direction, e.lot, if e.direction.Buy? then tick.ask else tick.bid, e.sl, tick.spread, e.risk, model, s)
  }

  method RunScenario(p: Proposal, a: Account, ticks: seq<Tick>, s: Spec, c: RiskConfig, model: CostModel)
    returns (r: ScenarioResult)
    ensures r.NoTicks? <==> ticks == []
    ensures ticks != [] ==>
      var first := ticks[0];
      var m := Market(first.bid, first.ask, first.spread, first.mid, first.named,
                      if first.stamped then Some(0.0) else None);
      var e := Evaluate(p, a, m, s, c);
      && (r.NotApproved? <==> !e.approved)
      && (r.NotApproved? ==> r.reason == e.reason)
      && (e.approved ==>
        && r.evaluation == e && s.tickSize > 0.0
        && Ended(Filled(e, first, s, model), ticks, r.at, r.close)
        && (r.overrun <==> r.close.riskRealized > e.risk * 1.0001))
  {
    hide Evaluate, Ended;
    if ticks == [] { return NoTicks; }
    var e := Evaluate(p, a, MarketAt(ticks[0]), s, c);
    if !e.approved { return NotApproved(e.reason); }
    ApprovedSpec(p, a, MarketAt(ticks[0]), s, c);
    var position := new SimulatedPosition(Filled(e, ticks[0], s, model));
    var at, close := Watch(position, ticks);
    r := Traded(e, at, close, close.riskRealized > Product(e.risk, ALLOWANCE));
  }

  lemma ApprovedSpec(p: Proposal, a: Account, m: Market, s: Spec, c: RiskConfig)
    requires Evaluate(p, a, m, s, c).approved
    ensures SpecValid(s) && (Evaluate(p, a, m, s, c).direction.Buy? || Evaluate(p, a, m, s, c).direction.Sell?)
  {
    hide RoundTo, Evaluate;
    ApprovalIsSound(p, a, m, s, c);
  }

  // ---------------------------------------------------------------- outcomes

  lemma RoundedSign(x: real)
    requires x >= 0.0
    ensures RoundTo(x, SCALE4) >= 0.0
    ensures RoundTo(0.0, SCALE4) == 0.0
  {
    RoundExact(0, SCALE4);
    RoundMonotone(0.0, x, SCALE4);
  }

  /** A profit close never reports a loss and realises no risk. */
  lemma ProfitClosePays(t: Trade, ticks: seq<Tick>, at: nat, r: CloseResult)
    requires |ticks| > 0 && t.spec.tickSize > 0.0 && Ended(t, ticks, at, r)
    requires r.reason == AbcProfitClose
    ensures r.net >= 0.0 && r.riskRealized == 0.0 && !Stopped(t, ticks[at])
  {
    hide RoundTo, Net, Gross, EstimateCosts, Stopped;
    RoundedSign(Net(t, ticks[at]));
  }

  /** The end of a trade is a function of its ticks. */
  lemma EndIsUnique(t: Trade, ticks: seq<Tick>, at: nat, r: CloseResult, at': nat, r': CloseResult)
    requires |ticks| > 0 && t.spec.tickSize > 0.0 && Ended(t, ticks, at, r) && Ended(t, ticks, at', r')
    ensures at == at' && r == r'
  {
    hide Gross, Net, Stopped, RoundTo, EstimateCosts, Realized;
  }

  /** A session that ends without an exit closes at the very tick of the fill, however the market
      went afterwards: the result is the spread of that tick, lost. */
  lemma SessionEndLosesTheSpread(e: Evaluation, ticks: seq<Tick>, s: Spec, model: CostModel, at: nat, r: CloseResult)
    requires |ticks| > 0 && s.tickSize > 0.0 && (e.direction.Buy? || e.direction.Sell?)
    requires Ended(Filled(e, ticks[0], s, model), ticks, at, r) && r.reason == PaperSessionEnd
    ensures var t := Filled(e, ticks[0], s, model);
      && r.exitPrice == ExitPrice(t, ticks[0])
      && r.gross == RoundTo(Worth(t, ticks[0].bid - ticks[0].ask), SCALE4)
      && forall k :: 1 <= k < |ticks| ==> Gross(t, ticks[k]) - CarriedCosts(t, ticks[k]) <= 0.0
  {
    hide RoundTo, Worth, EstimateCosts, Realized;
  }

  const QUIET_SPEC := Spec(1.0, 0.01, 1.0, 0.01, 1000.0, 0.01, 0.01, 0.0, 0.0)
  const QUIET_TRADE := Trade(Buy, 1.0, 100.0, 90.0, 0.1, 10.0, CostModel(SpreadOnly, 0.0, 0.0, 0.0, 0.01), QUIET_SPEC)
  const FIRST_TICK := Tick(99.9, 100.0, 0.1, 99.95, true, true)
  const LAST_TICK := Tick(95.0, 95.1, 0.1, 95.05, true, true)

  /** The market falls by almost five and the session ends: the trade is closed at the first price,
      0.1 down, where its last tick would have shown 5.0. */
  lemma SessionEndMissesTheFall()
    ensures var r := Closing(QUIET_TRADE, [LAST_TICK], FIRST_TICK, PaperSessionEnd);
      && Ended(QUIET_TRADE, [FIRST_TICK, LAST_TICK], 0, r)
      && r.exitPrice == 99.9 && r.exitPrice != ExitPrice(QUIET_TRADE, LAST_TICK)
    ensures Gross(QUIET_TRADE, FIRST_TICK) == -0.1 && Gross(QUIET_TRADE, LAST_TICK) == -5.0
  {
    hide RoundTo, Realized, EstimateCosts;
    SpreadOnlyNet(QUIET_TRADE, LAST_TICK);
    assert [FIRST_TICK, LAST_TICK][1..] == [LAST_TICK];
  }

  function CarriedCosts(t: Trade, tick: Tick): real
    requires t.spec.tickSize > 0.0
  {
    var c := EstimateCosts(t, tick);
    c.commission + c.swap + c.slippage
  }

  /** Swap is never charged, whatever the cost mode and the configured swap. */
  lemma SwapIsNeverCharged(t: Trade, tick: Tick)
    requires t.spec.tickSize > 0.0
    ensures EstimateCosts(t, tick).swap == 0.0
  {
    hide RoundTo, Worth;
    assert Product(Product(t.model.swapPerLotPerNight, t.lot), 0.0) == 0.0;
    RoundedSign(0.0);
  }

  /** The figures of a close add up, up to their rounding: the net result is the gross one less
      commission, swap and slippage (the spread is in the prices already), the realised risk is the
      net loss, and the total is the sum of all four costs. */
  lemma ReportAddsUp(t: Trade, seen: seq<Tick>, tick: Tick, reason: ExitReason)
    requires t.spec.tickSize > 0.0
    ensures var r := Closing(t, seen, tick, reason);
      && -0.0001 <= r.net - (r.gross - r.costs.commission - r.costs.swap - r.costs.slippage) <= 0.0001
      && -0.0001 <= r.riskRealized + Min(r.net, 0.0) <= 0.0001
      && -0.00025 <= r.costs.total - (r.costs.spread + r.costs.commission + r.costs.swap + r.costs.slippage) <= 0.00025
  {
    hide RoundTo, Gross, Worth, Worst, Best, EstimateCosts;
    CostsAddUp(t, tick);
    var net := Net(t, tick);
    Near4(net);
    Near4(Gross(t, tick));
    Near4(if net < 0.0 then -net else 0.0);
  }

  lemma CostsAddUp(t: Trade, tick: Tick)
    requires t.spec.tickSize > 0.0
    ensures var c := EstimateCosts(t, tick);
      -0.00025 <= c.total - (c.spread + c.commission + c.swap + c.slippage) <= 0.00025
  {
    hide RoundTo, SpreadCost, Commission, Slippage, Swap;
    Near4(SpreadCost(t, tick));
    Near4(Commission(t));
    Near4(Swap(t, 0.0));
    Near4(Slippage(t));
    Near4(SpreadCost(t, tick) + Commission(t) + Swap(t, 0.0) + Slippage(t));
  }

  lemma SpreadOnlyNet(t: Trade, tick: Tick)
    requires t.spec.tickSize > 0.0 && t.model.mode.SpreadOnly?
    ensures Net(t, tick) == Gross(t, tick)
  {
    hide RoundTo, Gross, Worth;
    RoundedSign(0.0);
  }

  // ------------------------------------------------------- loss against risk

  /** The most a position may lose by price: the money between entry and stop-loss. */
  predicate NotPastSl(t: Trade, tick: Tick) {
    (t.direction.Buy? ==> tick.bid >= t.sl) && (t.direction.Sell? ==> tick.ask <= t.sl)
  }

  /** Losing the stop distance costs no more than the reckoned risk exactly when a tick is worth at
      least the contract's value of a point times the tick size. */
  lemma LossFitsRiskIff(distance: real, lot: real, s: Spec)
    requires SpecValid(s) && distance > 0.0 && lot > 0.0
    ensures Product(Product(distance, lot), s.contractSize) <= Product(lot, LossPerLot(InPoints(distance, s), s))
      <==> s.contractSize * s.point * s.tickSize <= s.tickValue
  {
    LossPerLotIsPerPoint(distance, s);
    var loss, need := LossPerLot(InPoints(distance, s), s), s.contractSize * s.point * s.tickSize;
    var base := lot * distance;
    var scale := s.point * s.tickSize;
    LossScaled(distance, s);
    assert Product(lot, loss) * scale == base * s.tickValue by { Regroup(lot, loss, scale, distance, s.tickValue); }
    assert Product(Product(distance, lot), s.contractSize) * scale == base * need by {
      Regroup3(distance, lot, s.contractSize, s.point, s.tickSize);
    }
    OrderUnderScale(Product(Product(distance, lot), s.contractSize), Product(lot, loss), scale);
    OrderUnderScale(need, s.tickValue, base);
  }

  lemma Regroup(lot: real, loss: real, scale: real, distance: real, tickValue: real)
    requires loss * scale == distance * tickValue
    ensures Product(lot, loss) * scale == (lot * distance) * tickValue
  {
    assert lot * loss * scale == lot * (loss * scale);
    assert lot * (distance * tickValue) == lot * distance * tickValue;
  }

  lemma Regroup3(distance: real, lot: real, size: real, point: real, tick: real)
    ensures Product(Product(distance, lot), size) * (point * tick) == (lot * distance) * (size * point * tick)
  {
    assert Product(distance, lot) == lot * distance;
    var base := lot * distance;
    assert base * size * (point * tick) == base * (size * (point * tick));
    assert size * (point * tick) == size * point * tick;
  }

  lemma LossScaled(distance: real, s: Spec)
    requires SpecValid(s)
    ensures LossPerLot(InPoints(distance, s), s) * (s.point * s.tickSize) == distance * s.tickValue
  {
    LossPerLotIsPerPoint(distance, s);
    var loss := LossPerLot(InPoints(distance, s), s);
    var perTick := distance / s.tickSize;
    assert perTick * s.tickSize == distance;
    assert loss * s.point == perTick * s.tickValue;
    assert loss * s.point * s.tickSize == perTick * s.tickValue * s.tickSize;
    assert perTick * s.tickValue * s.tickSize == perTick * s.tickSize * s.tickValue;
    assert loss * (s.point * s.tickSize) == loss * s.point * s.tickSize;
  }

  lemma OrderUnderScale(x: real, y: real, scale: real)
    requires scale > 0.0
    ensures x <= y <==> x * scale <= y * scale
    ensures x <= y <==> scale * x <= scale * y
  {
    if x <= y { TimesMonotone(x, y, scale); } else { assert (x - y) * scale > 0.0; }
  }

  /** The plan behind an approval, as far as the stop-loss and the risk go. */
  lemma ApprovedPlan(p: Proposal, a: Account, m: Market, s: Spec, c: RiskConfig) returns (distance: real)
    requires Evaluate(p, a, m, s, c).approved
    ensures var e := Evaluate(p, a, m, s, c);
      && SpecValid(s) && e.lot > 0.0 && distance > 0.0 && (e.direction.Buy? || e.direction.Sell?)
      && e.risk == RoundTo(Product(e.lot, LossPerLot(InPoints(distance, s), s)), SCALE4)
      && (e.direction.Buy? ==> m.ask - e.sl <= distance + 0.00001)
      && (e.direction.Sell? ==> e.sl - m.bid <= distance + 0.00001)
  {
    hide RoundTo, RoundDownStep, SizedPlan;
    var capital, entry := Capital(a, c), Entry(p.direction, m);
    var sl := StopLoss(p.direction, m, s, c).value;
    var slPoints := InPoints(sl.1, s);
    distance := sl.1;
    SizedPlanFacts(Product(capital, c.riskPerTrade), capital, entry, sl.0, slPoints, LossPerLot(slPoints, s), s, c);
    SlNearDistance(p.direction, entry, Product(c.slDistancePoints, s.point), Product(s.stopsLevel, s.point));
    LossScaled(distance, s);
    PositiveFactor(LossPerLot(slPoints, s), s.point * s.tickSize, distance, s.tickValue);
  }

  lemma PositiveFactor(loss: real, scale: real, distance: real, value: real)
    requires loss > 0.0 && scale > 0.0 && value > 0.0 && loss * scale == distance * value
    ensures distance > 0.0
  {
    assert loss * scale > 0.0;
    if distance <= 0.0 { TimesMonotone(distance, 0.0, value); }
  }

  lemma SlNearDistance(d: Direction, entry: real, configured: real, stops: real)
    requires SlPrice(d, entry, configured, stops).Some?
    ensures var (sl, distance) := SlPrice(d, entry, configured, stops).value;
      && (d.Buy? ==> entry - sl <= distance + 0.00001)
      && (d.Sell? ==> sl - entry <= distance + 0.00001)
  {
    hide RoundTo;
    var distance := if stops > 0.0 then Max(configured, stops) else configured;
    Near5(entry - distance);
    Near5(entry + distance);
    Near5(distance);
  }

  /** Without extra costs and without a gap past the stop-loss, a paper trade realises no more than
      the risk it was approved for, up to the rounding of stop-loss, risk and result. */
  lemma LossWithinRisk(p: Proposal, a: Account, ticks: seq<Tick>, s: Spec, c: RiskConfig, model: CostModel, at: nat,
                       r: CloseResult)
    requires |ticks| > 0 && Evaluate(p, a, MarketAt(ticks[0]), s, c).approved
    requires s.tickSize > 0.0 && Ended(Filled(Evaluate(p, a, MarketAt(ticks[0]), s, c), ticks[0], s, model), ticks,
      at, r)
    requires model.mode.SpreadOnly? && s.contractSize * s.point * s.tickSize <= s.tickValue
    requires NotPastSl(Filled(Evaluate(p, a, MarketAt(ticks[0]), s, c), ticks[0], s, model), ticks[at])
    ensures var e := Evaluate(p, a, MarketAt(ticks[0]), s, c);
      r.riskRealized <= e.risk + Product(Product(0.00001, e.lot), s.contractSize) + 0.0001
  {
    hide RoundTo, Evaluate, EstimateCosts, Worth;
    var m := MarketAt(ticks[0]);
    var e := Evaluate(p, a, m, s, c);
    var t := Filled(e, ticks[0], s, model);
    var distance := ApprovedPlan(p, a, m, s, c);
    SpreadOnlyNet(t, ticks[at]);
    var move := Move(t, ExitPrice(t, ticks[at]));
    LossFitsRiskIff(distance, e.lot, s);
    WorthBound(t, move, distance);
    Near4(Product(e.lot, LossPerLot(InPoints(distance, s), s)));
    var net := Net(t, ticks[at]);
    Near4(if net < 0.0 then -net else 0.0);
    assert Product(Product(distance, e.lot), s.contractSize) >= 0.0 by { WorthSign(distance, e.lot, s.contractSize); }
    WorthSign(0.00001, e.lot, s.contractSize);
  }

  lemma WorthSign(move: real, lot: real, size: real)
    requires move >= 0.0 && lot >= 0.0 && size >= 0.0
    ensures Product(Product(move, lot), size) >= 0.0
  {
    TimesMonotone(0.0, move, lot);
    TimesMonotone(0.0, Product(move, lot), size);
  }

  lemma WorthBound(t: Trade, move: real, distance: real)
    requires t.lot > 0.0 && t.spec.contractSize > 0.0 && -move <= distance + 0.00001
    ensures -Worth(t, move) <= Product(Product(distance, t.lot), t.spec.contractSize) +
      Product(Product(0.00001, t.lot), t.spec.contractSize)
  {
    TimesMonotone(-move, distance + 0.00001, t.lot);
    assert (distance + 0.00001) * t.lot == Product(distance, t.lot) + Product(0.00001, t.lot);
    assert (-move) * t.lot == -Product(move, t.lot);
    TimesMonotone(-Product(move, t.lot), Product(distance, t.lot) + Product(0.00001, t.lot), t.spec.contractSize);
    Distribute(Product(distance, t.lot), Product(0.00001, t.lot), t.spec.contractSize);
    assert (-Product(move, t.lot)) * t.spec.contractSize == -Worth(t, move);
  }

  lemma Distribute(x: real, y: real, z: real)
    ensures (x + y) * z == Product(x, z) + Product(y, z)
  {
  }
}
