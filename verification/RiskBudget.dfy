/**
 * The risk gate from its inputs to its answer: what an approval is worth in
 * plain figures, that it uses its budget, and what stands behind each refusal.
 */
module RiskBudget {
  import opened Common
  import opened Rounding
  import opened RiskArithmetic
  import opened RiskGate

  // -------------------------------------------------------- figures of the inputs

  function Basis(a: Account, c: RiskConfig): real {
    if c.basis == Equity then a.equity else a.balance
  }

  function Budget(a: Account, c: RiskConfig): real { Basis(a, c) * c.riskPerTrade }

  /** A buy is filled at the ask, a sell at the bid. */
  function FillPrice(d: Direction, m: Market): real {
    if d == Buy then m.ask else m.bid
  }

  /** The configured distance, or the broker's stops level if that is greater. */
  function Reach(s: Spec, c: RiskConfig): real {
    var configured, stops := c.slDistancePoints * s.point, s.stopsLevel * s.point;
    if stops > configured then stops else configured
  }

  /** What one lot loses over this distance. */
  function LotLoss(distance: real, s: Spec): real
    requires s.point > 0.0 && s.tickSize > 0.0
  {
    distance / s.point / s.tickSize * s.tickValue
  }

  /** What a lot loses over this distance. */
  function LotRisk(lot: real, distance: real, s: Spec): real
    requires s.point > 0.0 && s.tickSize > 0.0
  {
    lot * LotLoss(distance, s)
  }

  function Percent(part: real, whole: real): real
    requires whole > 0.0
  {
    part / whole * 100.0
  }

  /** The exposure all positions together may reach. */
  function ExposureCap(a: Account, c: RiskConfig): real { Basis(a, c) * c.maxExposureRatio }

  function Notional(lot: real, price: real, s: Spec): real { lot * s.contractSize * price }

  /** What the broker binds for this lot. */
  function Deposit(lot: real, price: real, s: Spec, c: RiskConfig): real
    requires c.leverage > 0.0
  {
    if s.marginInitial > 0.0 then lot * s.marginInitial else lot * s.contractSize * price / c.leverage
  }

  /** Free margin to be kept: a share of the capital and a multiple of the budget. */
  function Reserve(a: Account, c: RiskConfig): real {
    Basis(a, c) * c.minFreeMarginRatio + Budget(a, c) * c.marginMultiplier
  }

  /** What eight-decimal rounding can add to a number of lots, or take from it. */
  function Drift(lots: real, step: real): real {
    0.000000005 * step * (lots + 1.0) + 0.000000005
  }

  predicate Usable(s: Spec, c: RiskConfig) {
    && s.contractSize > 0.0 && s.tickSize > 0.0 && s.tickValue > 0.0 && s.point > 0.0
    && 0.0 < s.volumeMin <= s.volumeMax && s.volumeStep > 0.0
    && c.basis in {Equity, Balance} && 0.0 < c.riskPerTrade <= 1.0 && c.maxPositions >= 1
    && 0.0 < c.maxDrawdown < 1.0 && c.slDistancePoints > 0.0 && c.slDistancePoints > c.observedSpread >= 0.0
    && c.maxSpreadPoints > 0.0 && c.maxExposureRatio > 0.0 && c.minFreeMarginRatio >= 0.0
    && c.marginMultiplier >= 0.0 && c.leverage > 0.0 && 0.0 <= c.compounding <= 1.0 && c.maxStaleSeconds > 0.0
  }

  /** A stop distance and a lot that fit the inputs: the distance is the reach up to the fifth decimal,
      the lot is within the volume limits, and it is the greatest volume or uses the budget up to one
      step, with the rounding of both. */
  predicate Sized(lot: real, distance: real, a: Account, s: Spec, c: RiskConfig) {
    && Usable(s, c) && Basis(a, c) > 0.0
    && -0.000005 <= distance - Reach(s, c) <= 0.000005
    && distance / s.point > c.observedSpread && LotLoss(distance, s) > 0.0
    && s.volumeMin <= lot <= s.volumeMax
    && var lots := Budget(a, c) / LotLoss(distance, s);
    && lot <= lots + Drift(lots, s.volumeStep)
    && (lot == s.volumeMax || lot >= lots - s.volumeStep - Drift(lots, s.volumeStep))
  }

  // ---------------------------------------------------------------- the plan

  lemma Figures(d: Direction, a: Account, m: Market, s: Spec, c: RiskConfig)
    ensures Capital(a, c) == Basis(a, c) && Product(Capital(a, c), c.riskPerTrade) == Budget(a, c)
    ensures Entry(d, m) == FillPrice(d, m) && RequiredFreeMargin(Capital(a, c), c) == Reserve(a, c)
    ensures Capital(a, c) * c.maxExposureRatio == ExposureCap(a, c)
    ensures SpecValid(s) && ConfigValid(c) <==> Usable(s, c)
  {
  }

  lemma LossFigures(distance: real, s: Spec)
    requires SpecValid(s)
    ensures LossPerLot(InPoints(distance, s), s) == LotLoss(distance, s)
    ensures forall lot :: Product(lot, LotLoss(distance, s)) == LotRisk(lot, distance, s)
  {
  }

  lemma PlanFigures(lot: real, price: real, s: Spec, c: RiskConfig)
    requires ConfigValid(c)
    ensures Exposure(lot, price, s) == Notional(lot, price, s) && Margin(lot, price, s, c) == Deposit(lot, price, s, c)
  {
  }

  lemma DistanceNearReach(d: Direction, entry: real, s: Spec, c: RiskConfig)
    requires Usable(s, c)
    ensures var r := SlPrice(d, entry, Product(c.slDistancePoints, s.point), Product(s.stopsLevel, s.point));
      && (r.Some? ==>
            && -0.000005 <= r.value.1 - Reach(s, c) <= 0.000005
            && (d == Buy ==> -0.000005 <= r.value.0 - (entry - Reach(s, c)) <= 0.000005 && entry > Reach(s, c))
            && (d == Sell ==> -0.000005 <= r.value.0 - (entry + Reach(s, c)) <= 0.000005))
      && (r.None? && d in {Buy, Sell} ==> d == Buy && entry <= Reach(s, c))
  {
    hide RoundTo, HalfEven;
    var configured, stops := Product(c.slDistancePoints, s.point), Product(s.stopsLevel, s.point);
    PositiveProduct(c.slDistancePoints, s.point);
    var distance := if stops > 0.0 then Max(configured, stops) else configured;
    assert distance == Reach(s, c);
    Near5(entry - distance);
    Near5(entry + distance);
    Near5(distance);
  }

  lemma LotFits(budget: real, loss: real, s: Spec)
    requires SpecValid(s) && loss > 0.0 && budget >= 0.0
    ensures var lots, candidate := budget / loss, RoundDownStep(RawLot(budget, loss), s.volumeStep);
      lots - s.volumeStep - Drift(lots, s.volumeStep) <= candidate <= lots + Drift(lots, s.volumeStep)
  {
    hide RoundDownStep;
    var lots := RawLot(budget, loss);
    assert lots >= 0.0 by { QuotientSign(budget, loss); }
    QuantisationBounds(lots, s.volumeStep);
    assert Drift(lots, s.volumeStep) == HALF8 * s.volumeStep * (lots + 1.0) + HALF8;
  }

  lemma QuotientSign(x: real, y: real)
    requires x >= 0.0 && y > 0.0
    ensures x / y >= 0.0
  {
  }

  /** A plan made of sized figures, each within its rounding. */
  predicate WellPlanned(plan: Plan, lot: real, distance: real, d: Direction, a: Account, m: Market, s: Spec,
                        c: RiskConfig)
    requires Sized(lot, distance, a, s, c)
  {
    var price, loss := FillPrice(d, m), LotRisk(lot, distance, s);
    && plan.Plan? && plan.lot == lot
    && -0.00005 <= plan.risk - loss <= 0.00005
    && -0.00005 <= plan.riskPct - Percent(loss, Basis(a, c)) <= 0.00005
    && -0.005 <= plan.exposure - Notional(lot, price, s) <= 0.005
    && -0.005 <= plan.margin - Deposit(lot, price, s, c) <= 0.005
    && (d == Buy ==> -0.000005 <= plan.sl - (price - Reach(s, c)) <= 0.000005)
    && (d == Sell ==> -0.000005 <= plan.sl - (price + Reach(s, c)) <= 0.000005)
  }

  /** Why there is no plan. */
  ghost predicate Unplannable(reason: Reason, d: Direction, a: Account, m: Market, s: Spec, c: RiskConfig)
    requires Usable(s, c)
  {
    || (reason == BrokerConstraint && Basis(a, c) <= 0.0)
    || (reason == InvalidSl && d == Buy && m.ask <= Reach(s, c))
    || (reason == InvalidSl && (Reach(s, c) - 0.000005) / s.point <= c.observedSpread)
    || (reason == BrokerConstraint && Reach(s, c) <= 0.000005)
    || (reason == LotOutOfRange && TooSmall(a, s, c))
  }

  /** The budget buys less than the least volume, up to one step and rounding. */
  ghost predicate TooSmall(a: Account, s: Spec, c: RiskConfig)
    requires Usable(s, c)
  {
    exists distance ::
      && -0.000005 <= distance - Reach(s, c) <= 0.000005 && LotLoss(distance, s) > 0.0
      && var lots := Budget(a, c) / LotLoss(distance, s);
      lots - s.volumeStep - Drift(lots, s.volumeStep) < s.volumeMin
  }

  lemma SizedPlanTells(budget: real, capital: real, entry: real, sl: real, slPoints: real, loss: real, s: Spec,
                       c: RiskConfig)
    requires SpecValid(s) && ConfigValid(c) && loss > 0.0 && capital > 0.0 && budget >= 0.0
    ensures var plan, lots := SizedPlan(budget, capital, entry, sl, slPoints, loss, s, c), budget / loss;
      var drift := Drift(lots, s.volumeStep);
      && (plan.NoPlan? ==> plan.reason == LotOutOfRange && lots - s.volumeStep - drift < s.volumeMin)
      && (plan.Plan? ==>
            && s.volumeMin <= plan.lot <= s.volumeMax && plan.lot <= lots + drift
            && (plan.lot == s.volumeMax || plan.lot >= lots - s.volumeStep - drift)
            && plan.sl == sl
            && -0.00005 <= plan.risk - Product(plan.lot, loss) <= 0.00005
            && -0.00005 <= plan.riskPct - Percent(Product(plan.lot, loss), capital) <= 0.00005
            && -0.005 <= plan.exposure - Exposure(plan.lot, entry, s) <= 0.005
            && -0.005 <= plan.margin - Margin(plan.lot, entry, s, c) <= 0.005)
  {
    hide RoundTo, HalfEven, RoundDownStep, Drift, Exposure, Margin, Product, RawLot;
    LotFits(budget, loss, s);
    var candidate := RoundDownStep(RawLot(budget, loss), s.volumeStep);
    var lot := Min(candidate, s.volumeMax);
    var risk := Product(lot, loss);
    Near2(Exposure(lot, entry, s));
    Near2(Margin(lot, entry, s, c));
    Near4(risk);
    Near4(risk / capital * 100.0);
  }

  /** The trade plan from its inputs: sized and figured as above, or one of the reasons above. */
  lemma PlanTells(d: Direction, a: Account, m: Market, s: Spec, c: RiskConfig) returns (lot: real, distance: real)
    requires Usable(s, c) && (d == Buy || d == Sell)
    ensures var plan := TradePlan(d, a, m, s, c);
      && (plan.Plan? ==>
            && Sized(lot, distance, a, s, c) && WellPlanned(plan, lot, distance, d, a, m, s, c)
            && StopLoss(d, m, s, c).Some? && StopLoss(d, m, s, c).value.1 == distance)
      && (plan.NoPlan? ==> Unplannable(plan.reason, d, a, m, s, c))
  {
    hide SizedPlan, SlPrice, RoundTo, HalfEven, RoundDownStep, Reach, LotLoss, LossPerLot, InPoints, Exposure, Notional,
      Margin, Deposit, Drift;
    Figures(d, a, m, s, c);
    lot, distance := 0.0, 0.0;
    if Basis(a, c) > 0.0 {
      DistanceNearReach(d, FillPrice(d, m), s, c);
      var sl := StopLoss(d, m, s, c);
      if sl.Some? {
        distance := sl.value.1;
        lot := StoppedPlanTells(d, a, m, s, c, distance);
      }
    }
  }

  lemma StoppedPlanTells(d: Direction, a: Account, m: Market, s: Spec, c: RiskConfig, distance: real)
    returns (lot: real)
    requires Usable(s, c) && (d == Buy || d == Sell) && Basis(a, c) > 0.0
    requires var sl, price := StopLoss(d, m, s, c), FillPrice(d, m);
      && sl.Some? && distance == sl.value.1 && -0.000005 <= distance - Reach(s, c) <= 0.000005
      && (d == Buy ==> -0.000005 <= sl.value.0 - (price - Reach(s, c)) <= 0.000005)
      && (d == Sell ==> -0.000005 <= sl.value.0 - (price + Reach(s, c)) <= 0.000005)
    ensures var plan := TradePlan(d, a, m, s, c);
      && (plan.Plan? ==>
            Sized(lot, distance, a, s, c) && WellPlanned(plan, lot, distance, d, a, m, s, c))
      && (plan.NoPlan? ==> Unplannable(plan.reason, d, a, m, s, c))
  {
    hide SizedPlan, StopLoss, RoundTo, HalfEven, RoundDownStep, Reach, LotLoss, LossPerLot, InPoints, Exposure,
      Notional, Margin, Deposit, Drift, Budget, Basis, FillPrice, Entry, Capital, LotRisk, Percent, Product;
    Figures(d, a, m, s, c);
    var sl := StopLoss(d, m, s, c);
    lot := 0.0;
    PointsOf(distance, s, c);
    LossFigures(distance, s);
    var loss := LotLoss(distance, s);
    if InPoints(distance, s) > c.observedSpread {
      if loss > 0.0 {
        BudgetSign(a, c);
        var slPoints := InPoints(distance, s);
        SizedPlanTells(Budget(a, c), Basis(a, c), FillPrice(d, m), sl.value.0, slPoints, loss, s, c);
        var plan := TradePlan(d, a, m, s, c);
        if plan.Plan? {
          lot := plan.lot;
          PlanFigures(lot, FillPrice(d, m), s, c);
        }
      } else {
        NoLoss(distance, s);
      }
    }
  }

  lemma BudgetSign(a: Account, c: RiskConfig)
    requires Basis(a, c) > 0.0 && c.riskPerTrade > 0.0
    ensures Budget(a, c) > 0.0
  {
    PositiveProduct(Basis(a, c), c.riskPerTrade);
  }

  lemma PointsOf(distance: real, s: Spec, c: RiskConfig)
    requires Usable(s, c) && -0.000005 <= distance - Reach(s, c) <= 0.000005
    ensures InPoints(distance, s) == distance / s.point
    ensures (Reach(s, c) - 0.000005) / s.point <= distance / s.point
  {
    OverMonotone(Reach(s, c) - 0.000005, distance, s.point);
  }

  lemma NoLoss(distance: real, s: Spec)
    requires s.point > 0.0 && s.tickSize > 0.0 && s.tickValue > 0.0 && LotLoss(distance, s) <= 0.0
    ensures distance <= 0.0
  {
  }

  // ------------------------------------------------------------- the evaluation

  /** Everything the gate asks for before it plans. */
  predicate Acceptable(p: Proposal, a: Account, m: Market, s: Spec, c: RiskConfig) {
    && p.Proposal? && p.valid && (p.direction == Buy || p.direction == Sell) && p.confidence >= c.minConfidence
    && a.balance >= 0.0 && a.equity >= 0.0 && a.positions >= 0
    && m.bid > 0.0 && m.ask >= m.bid && m.mid > 0.0 && m.spread >= 0.0 && m.named
    && Usable(s, c)
    && m.age.Some? && -5.0 <= m.age.value <= c.maxStaleSeconds
    && m.spread / s.point <= c.maxSpreadPoints && a.drawdown < c.maxDrawdown && a.positions < c.maxPositions
  }

  /** What an approval is worth: a lot sized to the inputs, with figures that are those of the lot up to
      their rounding, and limits that hold for them. */
  predicate Approves(e: Evaluation, distance: real, p: Proposal, a: Account, m: Market, s: Spec, c: RiskConfig) {
    && Acceptable(p, a, m, s, c) && e.direction == p.direction && e.reason == Approved
    && Sized(e.lot, distance, a, s, c)
    && var price, loss := FillPrice(p.direction, m), LotRisk(e.lot, distance, s);
    && -0.00005 <= e.risk - loss <= 0.00005
    && -0.00005 <= e.riskPct - Percent(loss, Basis(a, c)) <= 0.00005
    && -0.005 <= e.exposure - Notional(e.lot, price, s) <= 0.005
    && (p.direction == Buy ==> -0.000005 <= e.sl - (price - Reach(s, c)) <= 0.000005)
    && (p.direction == Sell ==> -0.000005 <= e.sl - (price + Reach(s, c)) <= 0.000005)
    && a.exposure + e.exposure <= ExposureCap(a, c)
    && a.freeMargin - Deposit(e.lot, price, s, c) >= Reserve(a, c) - 0.005
    && e.risk <= Budget(a, c) * 1.0001
  }

  lemma AcceptableIff(p: Proposal, a: Account, m: Market, s: Spec, c: RiskConfig)
    ensures Acceptable(p, a, m, s, c) <==>
      p.Proposal? && p.valid && ValidateAllInputs(p.direction, p.confidence, a, m, s, c).None?
  {
    if p.Proposal? && p.valid && SpecValid(s) { assert Usable(s, c) <==> ConfigValid(c); }
  }

  lemma ApprovedPlanTells(p: Proposal, a: Account, m: Market, s: Spec, c: RiskConfig) returns (distance: real)
    requires Evaluate(p, a, m, s, c).approved
    ensures var e := Evaluate(p, a, m, s, c);
      && Approves(e, distance, p, a, m, s, c) && SpecValid(s) && ConfigValid(c)
      && StopLoss(p.direction, m, s, c).Some? && StopLoss(p.direction, m, s, c).value.1 == distance
      && TradePlan(p.direction, a, m, s, c).Plan? && TradePlan(p.direction, a, m, s, c).lot == e.lot
  {
    hide TradePlan, StopLoss, ValidateAllInputs, Acceptable, Sized, Usable, Reach, LotLoss, LotRisk, Percent,
      ExposureCap, Notional, Deposit, Reserve, Capital, RequiredFreeMargin, FillPrice, Entry, Basis, Budget;
    AcceptableIff(p, a, m, s, c);
    AcceptableDirection(p, a, m, s, c);
    Figures(p.direction, a, m, s, c);
    var lot;
    lot, distance := PlanTells(p.direction, a, m, s, c);
    var e, plan := Evaluate(p, a, m, s, c), TradePlan(p.direction, a, m, s, c);
    assert plan.Plan? && plan.lot == e.lot;
    assert Sized(e.lot, distance, a, s, c);
    assert e.risk <= Budget(a, c) * 1.0001;
    assert a.exposure + e.exposure <= ExposureCap(a, c);
    assert a.freeMargin - plan.margin >= Reserve(a, c);
    assert a.freeMargin - Deposit(e.lot, FillPrice(p.direction, m), s, c) >= Reserve(a, c) - 0.005;
  }

  /** An approval uses its budget: whatever the inputs, the lot is the greatest volume or within one
      step of what the budget buys, and every figure and limit is that of this lot. */
  lemma ApprovalUsesBudget(p: Proposal, a: Account, m: Market, s: Spec, c: RiskConfig) returns (distance: real)
    requires Evaluate(p, a, m, s, c).approved
    ensures Approves(Evaluate(p, a, m, s, c), distance, p, a, m, s, c)
  {
    hide Evaluate, Approves;
    distance := ApprovedPlanTells(p, a, m, s, c);
  }

  lemma AcceptableDirection(p: Proposal, a: Account, m: Market, s: Spec, c: RiskConfig)
    requires Acceptable(p, a, m, s, c)
    ensures (p.direction == Buy || p.direction == Sell) && Usable(s, c) && SpecValid(s) && ConfigValid(c)
  {
  }

  // ------------------------------------------------------------- decimal steps

  predicate InUnits(lot: real, k: int)
    requires k > 0
  {
    lot == (lot * k as real).Floor as real / k as real
  }

  /** What a lot greater by one step, less 5e-9 of it, would risk. */
  function NextRisk(lot: real, step: real, loss: real): real { (lot + 0.999999995 * step) * loss }

  /** With a decimal volume step the lot is a whole number of steps and the next one up would risk more
      than the budget, unless the lot is the greatest volume. */
  predicate FillsBudget(lot: real, distance: real, k: int, a: Account, s: Spec, c: RiskConfig)
    requires k > 0 && Sized(lot, distance, a, s, c)
  {
    || lot == s.volumeMax
    || (&& InUnits(lot, k)
        && NextRisk(lot, s.volumeStep, LotLoss(distance, s)) > Budget(a, c))
  }

  /** Units of a value come to within one of it, less the eighth decimal. */
  lemma NextUnit(value: real, k: int)
    requires DecimalStep(k)
    ensures var lot := RoundDownStep(value, 1.0 / k as real);
      && lot == Units(value, k) as real / k as real
      && lot + (1.0 - HALF8) / k as real > value
  {
    hide RoundTo, HalfEven, RoundDownStep;
    DecimalStepIsExact(value, k);
    var u := Units(value, k);
    RoundedBelow(Stretch(value, k), u + 1);
    BelowNext(u as real, value, k as real, Stretch(value, k));
  }

  lemma BelowNext(u: real, value: real, q: real, x: real)
    requires q > 0.0 && x == value * q && x < u + 1.0 - HALF8
    ensures u / q + (1.0 - HALF8) / q > value
  {
    var r := u / q + (1.0 - HALF8) / q;
    assert u / q * q == u && (1.0 - HALF8) / q * q == 1.0 - HALF8;
    assert r * q == u + 1.0 - HALF8;
    if r <= value { TimesMonotone(r, value, q); }
  }

  lemma WholeUnits(u: int, k: int)
    requires k > 0
    ensures InUnits(u as real / k as real, k)
  {
    assert u as real / k as real * k as real == u as real;
  }

  lemma NextOver(budget: real, loss: real, lot: real, step: real)
    requires loss > 0.0 && lot + (1.0 - HALF8) * step > RawLot(budget, loss)
    ensures NextRisk(lot, step, loss) > budget
  {
    var next := lot + 0.999999995 * step;
    assert budget / loss * loss == budget;
    StrictTimes(budget / loss, next, loss);
  }

  lemma DecimalLot(budget: real, loss: real, lot: real, k: int, step: real)
    requires DecimalStep(k) && loss > 0.0 && step == 1.0 / k as real
    requires lot == RoundDownStep(RawLot(budget, loss), step)
    ensures InUnits(lot, k) && NextRisk(lot, step, loss) > budget
  {
    hide RoundTo, HalfEven, RoundDownStep, RawLot, Units, InUnits, NextRisk;
    var lots := RawLot(budget, loss);
    NextUnit(lots, k);
    WholeUnits(Units(lots, k), k);
    OverIsTimes(1.0 - HALF8, k as real);
    NextOver(budget, loss, lot, step);
  }

  /** With a decimal volume step an approved lot fills its budget. */
  lemma DecimalStepFillsBudget(p: Proposal, a: Account, m: Market, s: Spec, c: RiskConfig, k: int)
    returns (distance: real)
    requires DecimalStep(k) && s.volumeStep == 1.0 / k as real && Evaluate(p, a, m, s, c).approved
    ensures Approves(Evaluate(p, a, m, s, c), distance, p, a, m, s, c)
    ensures FillsBudget(Evaluate(p, a, m, s, c).lot, distance, k, a, s, c)
  {
    hide TradePlan, StopLoss, Evaluate, LotLoss, Sized, FillsBudget, RoundDownStep, RawLot, Budget, DecimalStep;
    distance := ApprovedPlanTells(p, a, m, s, c);
    PlanIsSized(p.direction, a, m, s, c, Evaluate(p, a, m, s, c).lot, distance);
    QuantisedFills(Evaluate(p, a, m, s, c).lot, distance, k, a, s, c);
  }

  lemma QuantisedFills(lot: real, distance: real, k: int, a: Account, s: Spec, c: RiskConfig)
    requires DecimalStep(k) && s.volumeStep == 1.0 / k as real && Sized(lot, distance, a, s, c)
    requires lot == s.volumeMax || lot == RoundDownStep(RawLot(Budget(a, c), LotLoss(distance, s)), s.volumeStep)
    ensures FillsBudget(lot, distance, k, a, s, c)
  {
    hide RoundDownStep, RawLot, Budget, LotLoss, Reach, Drift, NextRisk, InUnits;
    if lot != s.volumeMax { DecimalLot(Budget(a, c), LotLoss(distance, s), lot, k, s.volumeStep); }
  }

  lemma PlanIsSized(d: Direction, a: Account, m: Market, s: Spec, c: RiskConfig, lot: real, distance: real)
    requires SpecValid(s) && ConfigValid(c) && TradePlan(d, a, m, s, c).Plan? && TradePlan(d, a, m, s, c).lot == lot
    requires StopLoss(d, m, s, c).Some? && StopLoss(d, m, s, c).value.1 == distance
    ensures LotLoss(distance, s) > 0.0
    ensures lot == s.volumeMax || lot == RoundDownStep(RawLot(Budget(a, c), LotLoss(distance, s)), s.volumeStep)
  {
    hide SizedPlan, StopLoss, RoundDownStep, LotLoss, LossPerLot, InPoints, RawLot;
    Figures(d, a, m, s, c);
    LossFigures(distance, s);
    var slPoints := InPoints(distance, s);
    SizedPlanFacts(Budget(a, c), Basis(a, c), FillPrice(d, m), StopLoss(d, m, s, c).value.0, slPoints,
      LotLoss(distance, s), s, c);
  }

  // ------------------------------------------------------------------ refusals

  /** The checks before planning, in their order. */
  predicate Passes(n: nat, p: Proposal, a: Account, m: Market, s: Spec, c: RiskConfig)
    requires p.Proposal?
  {
    match n
    case 0 => p.direction != OtherDirection
    case 1 => p.direction != NoTrade
    case 2 => p.confidence >= c.minConfidence
    case 3 => a.balance >= 0.0 && a.equity >= 0.0 && a.positions >= 0
    case 4 => m.bid > 0.0 && m.ask >= m.bid && m.mid > 0.0 && m.spread >= 0.0 && m.named
    case 5 =>
      && s.contractSize > 0.0 && s.tickSize > 0.0 && s.tickValue > 0.0 && s.point > 0.0
      && 0.0 < s.volumeMin <= s.volumeMax && s.volumeStep > 0.0
    case 6 =>
      && c.basis in {Equity, Balance} && 0.0 < c.riskPerTrade <= 1.0 && c.maxPositions >= 1
      && 0.0 < c.maxDrawdown < 1.0 && c.slDistancePoints > 0.0 && c.slDistancePoints > c.observedSpread >= 0.0
      && c.maxSpreadPoints > 0.0 && c.maxExposureRatio > 0.0 && c.minFreeMarginRatio >= 0.0
      && c.marginMultiplier >= 0.0 && c.leverage > 0.0 && 0.0 <= c.compounding <= 1.0 && c.maxStaleSeconds > 0.0
    case 7 => m.age.Some? && -5.0 <= m.age.value <= c.maxStaleSeconds
    case 8 => s.point > 0.0 ==> m.spread / s.point <= c.maxSpreadPoints
    case 9 => a.drawdown < c.maxDrawdown
    case 10 => a.positions < c.maxPositions
    case _ => true
  }

  function Blames(n: nat): Reason {
    match n
    case 0 => AuthorityViolation
    case 1 => AiNoTrade
    case 2 => AuthorityViolation
    case 3 => InvalidAccount
    case 4 => InvalidMarket
    case 5 => BrokerConstraint
    case 6 => UnknownRiskInput
    case 7 => StaleContext
    case 8 => SpreadTooHigh
    case 9 => DrawdownLimit
    case _ => ExposureLimit
  }

  /** The first check that fails names the reason; a proposal that is none, or marked invalid, gets no
      further than that. */
  lemma FirstFailureTells(p: Proposal, a: Account, m: Market, s: Spec, c: RiskConfig, n: nat)
    requires p.Proposal? && p.valid && n <= 10 && !Passes(n, p, a, m, s, c)
    requires forall k: nat :: k < n ==> Passes(k, p, a, m, s, c)
    ensures Evaluate(p, a, m, s, c) == Evaluation(false, Blames(n), p.direction, 0.0, 0.0, 0.0, 0.0, 0.0)
  {
    hide TradePlan;
    assert forall k: nat :: k < n ==> Passes(k, p, a, m, s, c);
    assert n > 0 ==> Passes(0, p, a, m, s, c);
    assert n > 1 ==> Passes(1, p, a, m, s, c);
    assert n > 2 ==> Passes(2, p, a, m, s, c);
    assert n > 3 ==> Passes(3, p, a, m, s, c);
    assert n > 4 ==> Passes(4, p, a, m, s, c);
    assert n > 5 ==> Passes(5, p, a, m, s, c);
    assert n > 6 ==> Passes(6, p, a, m, s, c);
    assert n > 7 ==> Passes(7, p, a, m, s, c);
    assert n > 8 ==> Passes(8, p, a, m, s, c);
    assert n > 9 ==> Passes(9, p, a, m, s, c);
  }

  lemma UnfitProposals(p: Proposal, a: Account, m: Market, s: Spec, c: RiskConfig)
    ensures p.NotAProposal? ==>
      Evaluate(p, a, m, s, c) == Evaluation(false, UnknownRiskInput, NoTrade, 0.0, 0.0, 0.0, 0.0, 0.0)
    ensures p.Proposal? && !p.valid ==>
      Evaluate(p, a, m, s, c) == Evaluation(false, AuthorityViolation, p.direction, 0.0, 0.0, 0.0, 0.0, 0.0)
  {
    hide TradePlan;
  }

  /** What stands behind a refusal of acceptable inputs: no plan, or a limit the planned lot breaks, up
      to the rounding of its figures. */
  ghost predicate Explains(reason: Reason, d: Direction, a: Account, m: Market, s: Spec, c: RiskConfig)
    requires Usable(s, c)
  {
    || Unplannable(reason, d, a, m, s, c)
    || exists lot, distance :: Sized(lot, distance, a, s, c) && Breaks(reason, lot, distance, d, a, m, s, c)
  }

  predicate Breaks(reason: Reason, lot: real, distance: real, d: Direction, a: Account, m: Market, s: Spec,
                   c: RiskConfig)
    requires Usable(s, c)
  {
    var price := FillPrice(d, m);
    match reason
    case ExposureLimit => a.exposure + Notional(lot, price, s) + 0.005 > ExposureCap(a, c)
    case InsufficientMargin => a.freeMargin - Deposit(lot, price, s, c) - 0.005 < Reserve(a, c)
    case RiskLimit => LotRisk(lot, distance, s) + 0.00005 > Budget(a, c) * 1.0001
    case _ => false
  }

  /** Acceptable inputs are approved, or refused for a reason that holds of them. */
  lemma RefusalHasItsReason(p: Proposal, a: Account, m: Market, s: Spec, c: RiskConfig)
    requires Acceptable(p, a, m, s, c)
    ensures var e := Evaluate(p, a, m, s, c);
      && Usable(s, c)
      && (e.approved || Explains(e.reason, p.direction, a, m, s, c))
      && (!e.approved ==> e == Evaluation(false, e.reason, p.direction, 0.0, 0.0, 0.0, 0.0, 0.0))
  {
    hide TradePlan, ValidateAllInputs, Acceptable, Sized, Usable, Reach, LotLoss, LotRisk, Percent,
      ExposureCap, Notional, Deposit, Reserve, Capital, RequiredFreeMargin, FillPrice, Entry, Basis, Budget,
        Unplannable;
    AcceptableIff(p, a, m, s, c);
    AcceptableDirection(p, a, m, s, c);
    Figures(p.direction, a, m, s, c);
    var lot, distance := PlanTells(p.direction, a, m, s, c);
    var e, plan := Evaluate(p, a, m, s, c), TradePlan(p.direction, a, m, s, c);
    if plan.Plan? && !e.approved {
      assert e.reason in {ExposureLimit, InsufficientMargin, RiskLimit};
      assert e.reason.ExposureLimit? ==> a.exposure + plan.exposure > ExposureCap(a, c);
      assert e.reason.InsufficientMargin? ==> a.freeMargin - plan.margin < Reserve(a, c);
      assert e.reason.RiskLimit? ==> plan.risk > Budget(a, c) * 1.0001;
      assert Breaks(e.reason, lot, distance, p.direction, a, m, s, c);
    }
  }
}
