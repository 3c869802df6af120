/**
 * The risk gate (risk_engine/validators.py, calculators.py, engine.py): input
 * validation, trade plan and approval, in exact reals with the source's rounding.
 */
module RiskGate {
  import opened Common
  import opened Rounding
  import opened RiskArithmetic

  datatype Direction = Buy | Sell | NoTrade | OtherDirection

  datatype Basis = Equity | Balance | OtherBasis

  datatype Account = Account(
    balance: real, equity: real, freeMargin: real, positions: int, exposure: real, drawdown: real)

  /** age is the age of the quote in seconds, None when its timestamp cannot be parsed. */
  datatype Market = Market(bid: real, ask: real, spread: real, mid: real, named: bool, age: Option<real>)

  datatype Spec = Spec(
    contractSize: real, tickSize: real, tickValue: real, volumeMin: real, volumeMax: real, volumeStep: real,
    point: real, stopsLevel: real, marginInitial: real)

  datatype RiskConfig = RiskConfig(
    basis: Basis, riskPerTrade: real, maxPositions: int, maxDrawdown: real, slDistancePoints: real,
    maxSpreadPoints: real, maxExposureRatio: real, minFreeMarginRatio: real, marginMultiplier: real,
    leverage: real, compounding: real, observedSpread: real, maxStaleSeconds: real, minConfidence: real)

  datatype Reason =
    | Approved | AiNoTrade | InvalidMarket | InvalidAccount | SpreadTooHigh | DrawdownLimit | ExposureLimit
    | InsufficientMargin | LotOutOfRange | RiskLimit | InvalidSl | BrokerConstraint | StaleContext
    | UnknownRiskInput | AuthorityViolation

  predicate AccountValid(a: Account) {
    a.balance >= 0.0 && a.equity >= 0.0 && a.positions >= 0
  }

  predicate MarketValid(m: Market) {
    m.bid > 0.0 && m.ask > 0.0 && m.mid > 0.0 && m.ask >= m.bid && m.spread >= 0.0 && m.named
  }

  predicate SpecValid(s: Spec) {
    && s.contractSize > 0.0 && s.tickSize > 0.0 && s.tickValue > 0.0 && s.point > 0.0
    && s.volumeMin > 0.0 && s.volumeMax >= s.volumeMin && s.volumeStep > 0.0
  }

  predicate ConfigValid(c: RiskConfig) {
    && !c.basis.OtherBasis? && 0.0 < c.riskPerTrade <= 1.0 && c.maxPositions >= 1 && 0.0 < c.maxDrawdown < 1.0
    && c.slDistancePoints > 0.0 && c.slDistancePoints > c.observedSpread && c.maxSpreadPoints > 0.0
    && c.maxExposureRatio > 0.0 && c.minFreeMarginRatio >= 0.0 && c.marginMultiplier >= 0.0 && c.leverage > 0.0
    && 0.0 <= c.compounding <= 1.0 && c.observedSpread >= 0.0 && c.maxStaleSeconds > 0.0
  }

  /** The first failing precondition, in the source's order; None when all hold. */
  function ValidateAllInputs(d: Direction, confidence: real, a: Account, m: Market, s: Spec,
                             c: RiskConfig): Option<Reason> {
    if d.OtherDirection? then Some(AuthorityViolation)
    else if d.NoTrade? then Some(AiNoTrade)
    else if confidence < c.minConfidence then Some(AuthorityViolation)
    else if !AccountValid(a) then Some(InvalidAccount)
    else if !MarketValid(m) then Some(InvalidMarket)
    else if !SpecValid(s) then Some(BrokerConstraint)
    else if !ConfigValid(c) then Some(UnknownRiskInput)
    else if m.age.None? || m.age.value < -5.0 || m.age.value > c.maxStaleSeconds then Some(StaleContext)
    else if m.spread / s.point > c.maxSpreadPoints then Some(SpreadTooHigh)
    else if a.drawdown >= c.maxDrawdown then Some(DrawdownLimit)
    else if a.positions >= c.maxPositions then Some(ExposureLimit)
    else None
  }

  function Max(x: real, y: real): real { if x < y then y else x }

  function Min(x: real, y: real): real { if y < x then y else x }

  const SCALE2: real := 100.0
  const SCALE4: real := 10000.0
  const SCALE5: real := 100000.0

  /** Stop-loss level and distance in price units; None when there is none. */
  function SlPrice(d: Direction, entry: real, configured: real, stops: real): Option<(real, real)> {
    if configured <= 0.0 then None
    else
      var distance := if stops > 0.0 then Max(configured, stops) else configured;
      match d
      case Buy =>
        if entry - distance <= 0.0 then None
        else Some((RoundTo(entry - distance, SCALE5), RoundTo(distance, SCALE5)))
      case Sell => Some((RoundTo(entry + distance, SCALE5), RoundTo(distance, SCALE5)))
      case _ => None
  }

  datatype Plan =
    | NoPlan(reason: Reason)
    | Plan(lot: real, sl: real, slPoints: real, lossPerLot: real, risk: real, riskPct: real, exposure: real,
      margin: real)

  function Capital(a: Account, c: RiskConfig): real {
    if c.basis.Equity? then a.equity else a.balance
  }

  function Entry(d: Direction, m: Market): real {
    if d.Buy? then m.ask else m.bid
  }

  function LossPerLot(slPoints: real, s: Spec): real
    requires s.tickSize > 0.0
  {
    slPoints / s.tickSize * s.tickValue
  }

  function Product(a: real, b: real): real { a * b }

  function StopLoss(d: Direction, m: Market, s: Spec, c: RiskConfig): Option<(real, real)> {
    SlPrice(d, Entry(d, m), Product(c.slDistancePoints, s.point), Product(s.stopsLevel, s.point))
  }

  function InPoints(distance: real, s: Spec): real
    requires s.point > 0.0
  {
    distance / s.point
  }

  function TradePlan(d: Direction, a: Account, m: Market, s: Spec, c: RiskConfig): Plan
    requires SpecValid(s) && ConfigValid(c)
  {
    var capital := Capital(a, c);
    if !d.Buy? && !d.Sell? then NoPlan(BrokerConstraint)
    else if capital <= 0.0 then NoPlan(BrokerConstraint)
    else
      var sl := StopLoss(d, m, s, c);
      if sl.None? then NoPlan(InvalidSl)
      else
        var slPoints := InPoints(sl.value.1, s);
        if slPoints <= c.observedSpread then NoPlan(InvalidSl)
        else
          var loss := LossPerLot(slPoints, s);
          if loss <= 0.0 then NoPlan(BrokerConstraint)
          else SizedPlan(Product(capital, c.riskPerTrade), capital, Entry(d, m), sl.value.0, slPoints, loss, s, c)
  }

  function Exposure(lot: real, entry: real, s: Spec): real {
    lot * s.contractSize * entry
  }

  function Margin(lot: real, entry: real, s: Spec, c: RiskConfig): real
    requires ConfigValid(c)
  {
    if s.marginInitial > 0.0 then lot * s.marginInitial else Exposure(lot, entry, s) / c.leverage
  }

  function RawLot(budget: real, loss: real): real
    requires loss > 0.0
  {
    budget / loss
  }

  /** The lot for a risk budget, and what it risks, exposes and binds. */
  function SizedPlan(budget: real, capital: real, entry: real, sl: real, slPoints: real, loss: real, s: Spec,
                     c: RiskConfig): Plan
    requires SpecValid(s) && ConfigValid(c) && loss > 0.0 && capital > 0.0
  {
    var candidate := RoundDownStep(RawLot(budget, loss), s.volumeStep);
    if candidate < s.volumeMin then NoPlan(LotOutOfRange)
    else
      var lot := Min(candidate, s.volumeMax);
      var risk := Product(lot, loss);
      Plan(lot, sl, slPoints, loss, RoundTo(risk, SCALE4), RoundTo(risk / capital * 100.0, SCALE4),
           RoundTo(Exposure(lot, entry, s), SCALE2), RoundTo(Margin(lot, entry, s, c), SCALE2))
  }

  datatype Proposal = NotAProposal | Proposal(direction: Direction, confidence: real, valid: bool)

  datatype Evaluation = Evaluation(
    approved: bool, reason: Reason, direction: Direction, lot: real, sl: real, risk: real, riskPct: real,
      exposure: real)

  function Refuse(reason: Reason, d: Direction): Evaluation {
    Evaluation(false, reason, d, 0.0, 0.0, 0.0, 0.0, 0.0)
  }

  function RequiredFreeMargin(capital: real, c: RiskConfig): real {
    capital * c.minFreeMarginRatio + Product(capital, c.riskPerTrade) * c.marginMultiplier
  }

  const ALLOWANCE: real := 1.0001

  function Evaluate(p: Proposal, a: Account, m: Market, s: Spec, c: RiskConfig): Evaluation {
    if p.NotAProposal? then Refuse(UnknownRiskInput, NoTrade)
    else if !p.valid then Refuse(AuthorityViolation, p.direction)
    else
      var failed := ValidateAllInputs(p.direction, p.confidence, a, m, s, c);
      if failed.Some? then Refuse(failed.value, p.direction)
      else
        var plan := TradePlan(p.direction, a, m, s, c);
        if plan.NoPlan? then Refuse(plan.reason, p.direction)
        else
          var capital := Capital(a, c);
          if a.exposure + plan.exposure > capital * c.maxExposureRatio then Refuse(ExposureLimit, p.direction)
          else if a.freeMargin - plan.margin < RequiredFreeMargin(capital, c)
            then Refuse(InsufficientMargin, p.direction)
          else if plan.risk > Product(capital, c.riskPerTrade) * ALLOWANCE then Refuse(RiskLimit, p.direction)
          else Evaluation(true, Approved, p.direction, plan.lot, plan.sl, plan.risk, plan.riskPct, plan.exposure)
  }

  // --------------------------------------------------------------- soundness

  lemma Near5(x: real)
    ensures x - 0.000005 <= RoundTo(x, SCALE5) <= x + 0.000005
  {
    RoundNear(x, SCALE5);
  }

  lemma Near4(x: real)
    ensures x - 0.00005 <= RoundTo(x, SCALE4) <= x + 0.00005
  {
    RoundNear(x, SCALE4);
  }

  lemma Near2(x: real)
    ensures x - 0.005 <= RoundTo(x, SCALE2) <= x + 0.005
  {
    RoundNear(x, SCALE2);
  }

  /** The stop-loss lies on the losing side at no less than both the configured and the broker's
      distance, up to the fifth decimal. */
  lemma SlOnLosingSide(d: Direction, entry: real, configured: real, stops: real)
    requires SlPrice(d, entry, configured, stops).Some?
    ensures var (sl, distance) := SlPrice(d, entry, configured, stops).value;
      && (d.Buy? ==> sl <= entry - configured + 0.000005 && sl <= entry - stops + 0.000005)
      && (d.Sell? ==> sl >= entry + configured - 0.000005 && sl >= entry + stops - 0.000005)
      && (d.Buy? || d.Sell?)
      && distance >= configured - 0.000005 && distance >= stops - 0.000005
  {
    hide RoundTo, HalfEven;
    var distance := if stops > 0.0 then Max(configured, stops) else configured;
    Near5(entry - distance);
    Near5(entry + distance);
    Near5(distance);
  }

  /** What an approval guarantees of the plan behind it, before rounding as well as after. */
  ghost predicate SoundApproval(e: Evaluation, p: Proposal, a: Account, m: Market, s: Spec, c: RiskConfig) {
    var capital, entry := Capital(a, c), Entry(e.direction, m);
    && p.Proposal? && e.direction == p.direction && (e.direction.Buy? || e.direction.Sell?)
    && AccountValid(a) && MarketValid(m) && SpecValid(s) && ConfigValid(c) && capital > 0.0
    && s.volumeMin <= e.lot <= s.volumeMax
    && a.exposure + e.exposure <= capital * c.maxExposureRatio
    && e.exposure - 0.005 <= Exposure(e.lot, entry, s) <= e.exposure + 0.005
    && a.freeMargin - Margin(e.lot, entry, s, c) >= RequiredFreeMargin(capital, c) - 0.005
    && e.risk <= Product(capital, c.riskPerTrade) * ALLOWANCE
    && (e.direction.Buy? ==> e.sl <= entry - SlDistance(s, c) + 0.000005)
    && (e.direction.Sell? ==> e.sl >= entry + SlDistance(s, c) - 0.000005)
    && a.drawdown < c.maxDrawdown && a.positions < c.maxPositions && p.confidence >= c.minConfidence
    && m.spread / s.point <= c.maxSpreadPoints
  }

  /** The greater of the configured distance and the broker's stops level, in price units. */
  function SlDistance(s: Spec, c: RiskConfig): real {
    Max(Product(c.slDistancePoints, s.point), Product(s.stopsLevel, s.point))
  }

  lemma SizedPlanFacts(budget: real, capital: real, entry: real, sl: real, slPoints: real, loss: real, s: Spec,
                       c: RiskConfig)
    requires SpecValid(s) && ConfigValid(c) && loss > 0.0 && capital > 0.0
    ensures var plan := SizedPlan(budget, capital, entry, sl, slPoints, loss, s, c);
      plan.Plan? ==>
        && s.volumeMin <= plan.lot <= s.volumeMax && plan.lot <= RoundDownStep(RawLot(budget, loss), s.volumeStep)
        && (plan.lot == s.volumeMax || plan.lot == RoundDownStep(RawLot(budget, loss), s.volumeStep))
        && plan.sl == sl
        && plan.exposure - 0.005 <= Exposure(plan.lot, entry, s) <= plan.exposure + 0.005
        && plan.margin - 0.005 <= Margin(plan.lot, entry, s, c) <= plan.margin + 0.005
        && plan.risk == RoundTo(Product(plan.lot, loss), SCALE4)
  {
    hide RoundTo, HalfEven, RoundDownStep;
    var lot := Min(RoundDownStep(RawLot(budget, loss), s.volumeStep), s.volumeMax);
    Near2(Exposure(lot, entry, s));
    Near2(Margin(lot, entry, s, c));
  }

  lemma ApprovalIsSound(p: Proposal, a: Account, m: Market, s: Spec, c: RiskConfig)
    requires Evaluate(p, a, m, s, c).approved
    ensures SoundApproval(Evaluate(p, a, m, s, c), p, a, m, s, c)
  {
    hide RoundTo, HalfEven, RoundDownStep, SizedPlan, SlPrice;
    var capital, entry := Capital(a, c), Entry(p.direction, m);
    SlOnLosingSide(p.direction, entry, Product(c.slDistancePoints, s.point), Product(s.stopsLevel, s.point));
    var sl := StopLoss(p.direction, m, s, c).value;
    var slPoints := InPoints(sl.1, s);
    SizedPlanFacts(Product(capital, c.riskPerTrade), capital, entry, sl.0, slPoints, LossPerLot(slPoints, s), s, c);
  }

  /** Every refusal carries no lot, no stop-loss, no risk and no exposure. */
  lemma RefusalIsEmpty(p: Proposal, a: Account, m: Market, s: Spec, c: RiskConfig)
    ensures var e := Evaluate(p, a, m, s, c);
      (!e.approved <==> e.reason != Approved) && (!e.approved ==> e == Refuse(e.reason, e.direction))
  {
    hide RoundTo, HalfEven, RoundDownStep, SlPrice;
    if p.Proposal? && p.valid && ValidateAllInputs(p.direction, p.confidence, a, m, s, c).None? {
      PlanReasons(p.direction, a, m, s, c);
    }
  }

  lemma PlanReasons(d: Direction, a: Account, m: Market, s: Spec, c: RiskConfig)
    requires SpecValid(s) && ConfigValid(c)
    ensures TradePlan(d, a, m, s, c).NoPlan? ==>
      TradePlan(d, a, m, s, c).reason in {BrokerConstraint, InvalidSl, LotOutOfRange}
  {
    hide RoundTo, HalfEven, RoundDownStep, SlPrice;
  }

  // ------------------------------------------------------ the unreachable refusal

  const LIFT: real := 1.0 - HALF8

  /** The most that quantisation to a decimal step can make of a budget. */
  function MostRisk(budget: real): real { budget / LIFT }

  /** A lot of at least one decimal step, quantised from budget / loss, risks at most the budget
      plus a hundred-millionth part of it. */
  lemma LotRiskWithinBudget(budget: real, loss: real, lot: real, k: int)
    requires DecimalStep(k) && loss > 0.0
    requires 1.0 / k as real <= lot <= RoundDownStep(RawLot(budget, loss), 1.0 / k as real)
    ensures Product(lot, loss) <= MostRisk(budget)
    ensures lot * loss <= budget + 0.00000001 * budget
  {
    hide RoundTo, HalfEven, RoundDownStep;
    var raw, step := RawLot(budget, loss), 1.0 / k as real;
    ExceedsByUnits(raw, k);
    var slack := HALF8 / k as real;
    assert slack == HALF8 * step;
    QuotientBudget(budget, loss, lot, step, raw);
  }

  lemma QuotientBudget(budget: real, loss: real, lot: real, step: real, raw: real)
    requires loss > 0.0 && step > 0.0 && raw == budget / loss
    requires step <= lot <= raw + HALF8 * step
    ensures Product(lot, loss) <= MostRisk(budget)
    ensures lot * loss <= budget + 0.00000001 * budget
  {
    assert raw * loss == budget;
    assert lot * LIFT <= raw;
    TimesMonotone(lot * LIFT, raw, loss);
    var risk := lot * loss;
    assert lot * LIFT * loss == risk * LIFT;
    assert risk * LIFT <= budget;
    assert risk >= 0.0 by { TimesMonotone(0.0, lot, loss); }
  }

  /** Rounding the most that a budget can be made to risk to four decimals exceeds the allowance. */
  predicate Liftable(budget: real) {
    budget > 0.0 && RoundTo(MostRisk(budget), SCALE4) > budget * ALLOWANCE
  }

  /** An evaluation on this budget, with a decimal volume step and a minimum of at least one step,
      that the final risk check refuses. */
  ghost predicate RefusedBy(p: Proposal, a: Account, m: Market, s: Spec, c: RiskConfig, k: int, budget: real) {
    && DecimalStep(k) && s.volumeStep == 1.0 / k as real && s.volumeMin >= s.volumeStep
    && Product(Capital(a, c), c.riskPerTrade) == budget && Evaluate(p, a, m, s, c).reason == RiskLimit
  }

  /** A budget on which some evaluation ends in RISK_LIMIT. */
  ghost predicate Refusable(budget: real) {
    exists p, a, m, s, c, k :: RefusedBy(p, a, m, s, c, k, budget)
  }

  lemma RefusedIsLiftable(p: Proposal, a: Account, m: Market, s: Spec, c: RiskConfig, k: int, budget: real)
    requires RefusedBy(p, a, m, s, c, k, budget)
    ensures Liftable(budget)
  {
    hide RoundTo, HalfEven, RoundDownStep, SizedPlan, SlPrice, MostRisk;
    RiskLimitComesLast(p, a, m, s, c);
    var capital, entry := Capital(a, c), Entry(p.direction, m);
    var sl := StopLoss(p.direction, m, s, c).value;
    var slPoints := InPoints(sl.1, s);
    var loss := LossPerLot(slPoints, s);
    var plan := TradePlan(p.direction, a, m, s, c);
    SizedPlanFacts(budget, capital, entry, sl.0, slPoints, loss, s, c);
    LotRiskWithinBudget(budget, loss, plan.lot, k);
    RoundMonotone(Product(plan.lot, loss), MostRisk(budget), SCALE4);
    PositiveProduct(capital, c.riskPerTrade);
  }

  lemma PositiveProduct(x: real, y: real)
    requires x > 0.0 && y > 0.0
    ensures Product(x, y) > 0.0
  {
  }

  /** Whoever is refused for the risk limit has a plan, and its rounded risk exceeds the allowance. */
  lemma RiskLimitComesLast(p: Proposal, a: Account, m: Market, s: Spec, c: RiskConfig)
    requires Evaluate(p, a, m, s, c).reason == RiskLimit
    ensures p.Proposal? && SpecValid(s) && ConfigValid(c) && Capital(a, c) > 0.0
    ensures var plan := TradePlan(p.direction, a, m, s, c);
      plan.Plan? && plan.risk > Product(Capital(a, c), c.riskPerTrade) * ALLOWANCE
  {
    hide RoundTo, HalfEven, RoundDownStep, SizedPlan, SlPrice;
    if p.Proposal? && p.valid && ValidateAllInputs(p.direction, p.confidence, a, m, s, c).None? {
      PlanReasons(p.direction, a, m, s, c);
    }
  }

  /** Only budgets below one half can be lifted over their allowance. */
  lemma LiftableIsSmall(budget: real)
    requires Liftable(budget)
    ensures budget * ALLOWANCE < 0.5
  {
    hide HalfEven;
    var most := MostRisk(budget);
    var n := HalfEven(most * SCALE4);
    RoundDefinition(most, SCALE4);
    HalfEvenNear(most * SCALE4);
    assert most * LIFT == budget;
    assert n <= 5000;
  }

  lemma HalfEvenNear(x: real)
    ensures HalfEven(x) as real - 0.5 <= x <= HalfEven(x) as real + 0.5
  {
  }

  /** With a decimal volume step, a minimum volume of at least one step and a budget whose allowance
      is at least half a unit of account, the final risk check can never refuse. */
  lemma RiskLimitUnreachable(p: Proposal, a: Account, m: Market, s: Spec, c: RiskConfig, k: int)
    requires DecimalStep(k) && s.volumeStep == 1.0 / k as real && s.volumeMin >= s.volumeStep
    requires Product(Capital(a, c), c.riskPerTrade) * ALLOWANCE >= 0.5
    ensures Evaluate(p, a, m, s, c).reason != RiskLimit
  {
    hide Evaluate, Liftable;
    var budget := Product(Capital(a, c), c.riskPerTrade);
    if Evaluate(p, a, m, s, c).reason == RiskLimit {
      RefusedIsLiftable(p, a, m, s, c, k, budget);
      LiftableIsSmall(budget);
      assert false;
    }
  }

  // ---------------------------------------------- the budgets that can be refused

  const LIFTED_PROPOSAL := Proposal(Sell, 1.0, true)
  const LIFTED_MARKET := Market(100.0, 100.0, 0.0, 100.0, true, Some(0.0))

  function LiftedAccount(budget: real): Account {
    Account(100.0 * budget, 100.0 * budget, 10.0, 0, 0.0, 0.0)
  }

  /** One whole lot is the only volume, and it loses the most that the budget can be made to risk. */
  function LiftedSpec(budget: real): Spec {
    Spec(0.0001, 1.0, MostRisk(budget) / 50.0, 1.0, 1.0, 1.0, 1.0, 0.0, 0.0)
  }

  function LiftedConfig(budget: real): RiskConfig
    requires budget > 0.0
  {
    RiskConfig(Equity, 0.01, 1, 0.5, 50.0, 45.0, 1.0 / budget, 0.0, 0.0, 2000.0, 0.0, 36.0, 10.0, 0.5)
  }

  lemma LiftedInputs(budget: real)
    requires budget > 0.0
    ensures SpecValid(LiftedSpec(budget)) && ConfigValid(LiftedConfig(budget))
    ensures var a, s, c := LiftedAccount(budget), LiftedSpec(budget), LiftedConfig(budget);
      && Product(Capital(a, c), c.riskPerTrade) == budget && Capital(a, c) * c.maxExposureRatio == 100.0
      && ValidateAllInputs(Sell, 1.0, a, LIFTED_MARKET, s, c).None? && RequiredFreeMargin(Capital(a, c), c) == 0.0
  {
    hide RoundTo, HalfEven;
    var share := 1.0 / budget;
    assert share > 0.0 && budget * share == 1.0;
    assert MostRisk(budget) * LIFT == budget;
    assert MostRisk(budget) > 0.0;
  }

  lemma LiftedPlan(budget: real)
    requires budget > 0.0 && SpecValid(LiftedSpec(budget)) && ConfigValid(LiftedConfig(budget))
    ensures TradePlan(Sell, LiftedAccount(budget), LIFTED_MARKET, LiftedSpec(budget), LiftedConfig(budget)) ==
      SizedPlan(budget, 100.0 * budget, 100.0, 150.0, 50.0, MostRisk(budget), LiftedSpec(budget), LiftedConfig(budget))
  {
    hide RoundTo, HalfEven, RoundDownStep, SizedPlan, MostRisk;
    IntegerAt5(50);
    IntegerAt5(150);
    var s, c := LiftedSpec(budget), LiftedConfig(budget);
    assert StopLoss(Sell, LIFTED_MARKET, s, c) == Some((150.0, 50.0));
    assert LossPerLot(50.0, s) == MostRisk(budget);
  }

  lemma LiftedSize(budget: real)
    requires budget > 0.0 && SpecValid(LiftedSpec(budget)) && ConfigValid(LiftedConfig(budget))
      && MostRisk(budget) > 0.0
    ensures var plan :=
        SizedPlan(budget, 100.0 * budget, 100.0, 150.0, 50.0, MostRisk(budget), LiftedSpec(budget),
          LiftedConfig(budget));
      && plan.Plan? && plan.lot == 1.0 && plan.risk == RoundTo(MostRisk(budget), SCALE4)
      && plan.exposure <= 0.1 && plan.margin <= 0.1
  {
    hide RoundTo, HalfEven, RoundDownStep, MostRisk;
    var s, c := LiftedSpec(budget), LiftedConfig(budget);
    OneLot(budget);
    Near2(Exposure(1.0, 100.0, s));
    Near2(Margin(1.0, 100.0, s, c));
    assert Product(1.0, MostRisk(budget)) == MostRisk(budget);
  }

  /** The quotient is just, but only just, taken for a whole lot. */
  lemma OneLot(budget: real)
    requires budget > 0.0 && MostRisk(budget) > 0.0
    ensures RoundDownStep(RawLot(budget, MostRisk(budget)), 1.0) == 1.0
  {
    hide RoundTo, HalfEven, RoundDownStep;
    var most := MostRisk(budget);
    assert most * LIFT == budget;
    assert RawLot(budget, most) == LIFT;
    DecimalStepIsExact(LIFT, 1);
    assert Stretch(LIFT, 1) == LIFT;
    RoundedBelow(LIFT, 1);
    RoundedBelow(LIFT, 2);
    assert Units(LIFT, 1) == 1;
  }

  lemma LiftableIsRefused(budget: real)
    requires Liftable(budget)
    ensures RefusedBy(LIFTED_PROPOSAL, LiftedAccount(budget), LIFTED_MARKET, LiftedSpec(budget),
      LiftedConfig(budget), 1, budget)
  {
    hide RoundTo, HalfEven, RoundDownStep, SizedPlan, TradePlan, ValidateAllInputs, MostRisk, RequiredFreeMargin;
    LiftedInputs(budget);
    LiftedPlan(budget);
    LiftedSize(budget);
  }

  /** Some evaluation on a budget ends in RISK_LIMIT if and only if rounding the most that the budget
      can be made to risk to four decimals exceeds 1.0001 times the budget. */
  lemma RefusableIff(budget: real)
    ensures Refusable(budget) <==> Liftable(budget)
  {
    hide Liftable, RefusedBy;
    if Refusable(budget) {
      var p, a, m, s, c, k :| RefusedBy(p, a, m, s, c, k, budget);
      RefusedIsLiftable(p, a, m, s, c, k, budget);
    }
    if Liftable(budget) { LiftableIsRefused(budget); }
  }

  /** Every budget of n - 1/2 ten-thousandths, n even and at most 5000, can be refused: its own
      rounding lifts it over the allowance. */
  lemma RoundingLiftsBudget(n: int)
    requires 2 <= n <= 5000 && n % 2 == 0
    ensures var budget := (n as real - 0.5) / SCALE4;
      RoundTo(budget, SCALE4) == n as real / SCALE4 && RoundTo(budget, SCALE4) > budget * ALLOWANCE && Refusable(budget)
  {
    hide HalfEven, RoundTo, Refusable;
    var x := n as real - 0.5;
    var budget := x / SCALE4;
    assert budget * SCALE4 == x;
    HalfUp(n);
    RoundDefinition(budget, SCALE4);
    assert MostRisk(budget) * LIFT == budget;
    assert budget <= MostRisk(budget);
    RoundMonotone(budget, MostRisk(budget), SCALE4);
    RefusableIff(budget);
  }

  lemma HalfUp(n: int)
    requires n % 2 == 0
    ensures HalfEven(n as real - 0.5) == n
  {
  }

  /** 0.49995 is such a budget, a hair below the 0.5 / 1.0001 from which on none is. */
  lemma SmallBudgetRefused()
    ensures Refusable(0.49995) && forall budget :: budget * ALLOWANCE >= 0.5 ==> !Refusable(budget)
  {
    hide Refusable, Liftable;
    RoundingLiftsBudget(5000);
    forall budget | budget * ALLOWANCE >= 0.5 ensures !Refusable(budget) {
      RefusableIff(budget);
      if Liftable(budget) { LiftableIsSmall(budget); }
    }
  }

  lemma IntegerAt5(n: int)
    ensures RoundTo(n as real, SCALE5) == n as real
  {
    RoundExact(n * 100000, SCALE5);
    assert (n * 100000) as real / SCALE5 == n as real;
  }

  /** Loss per lot is reckoned per point, not per price unit: it is the loss of a lot over the
      stop distance divided by the size of a point. */
  lemma LossPerLotIsPerPoint(distance: real, s: Spec)
    requires SpecValid(s)
    ensures LossPerLot(InPoints(distance, s), s) * s.point == distance / s.tickSize * s.tickValue
  {
    var points := InPoints(distance, s);
    assert points * s.point == distance;
    var perTick := points / s.tickSize;
    assert perTick * s.tickSize == points;
    assert perTick * s.point * s.tickSize == distance;
    assert perTick * s.point == distance / s.tickSize;
  }
}
