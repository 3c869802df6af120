/**
 * The deterministic simulated broker (execution/simulated.py): a book of orders
 * and positions, and the proof that it answers as the protocol needs.
 */
module SimulatedBroker {
  import opened Common
  import opened Rounding
  import opened ExecutionModels
  import opened ExecutionProtocol
  import opened ExecutionProtection
  import opened ExecutionDepartures

  datatype Mode =
    | FullFillMode | PartialFillMode | RejectMode | TimeoutMode | AmbiguousMode
    | RequoteMode | ExpiredMode | StaleFeedMode | PositionExistsMode

  datatype Scenario = Scenario(mode: Mode, fillRatio: real, slippagePoints: real, entryPrice: real, timeoutLanded: bool)

  datatype OrderState = Placed | Complete | Canceled

  datatype Order = Order(filledVolume: real, fillPrice: real, sl: Option<real>, state: OrderState)

  datatype Holding = Holding(command: string, volume: real, openPrice: real, sl: Option<real>, closed: bool)

  /** The command state a found order stands for. */
  function Discovered(o: Order, p: Option<Holding>): CommandState {
    if p.Some? && p.value.closed then Closed
    else match o.state
      case Complete => Filled
      case Placed => Submitted
      case Canceled => Rejected
  }

  /** The entry price, moved by the slippage against the trader, up to half of the fifth decimal. */
  predicate PriceNear(price: real, c: Command, s: Scenario) {
    var asked := s.entryPrice + (if c.isBuy then s.slippagePoints else -s.slippagePoints) / 100.0;
    -0.000005 <= price - asked <= 0.000005
  }

  lemma SlippedNear(c: Command, s: Scenario)
    ensures var slip := s.slippagePoints * 0.01;
      PriceNear(RoundTo(if c.isBuy then s.entryPrice + slip else s.entryPrice - slip, 100000.0), c, s)
  {
    hide RoundTo;
    var slip := s.slippagePoints * 0.01;
    RoundWithin(if c.isBuy then s.entryPrice + slip else s.entryPrice - slip, 100000.0, 0.000005);
  }

  class SimulatedExecutor {
    var fallback: Scenario
    var scenarios: map<string, Scenario>
    var slAttachFail: bool
    var closeFail: bool
    var seqNo: nat
    var orders: map<string, Order>
    var positions: map<nat, Holding>
    var positionByCommand: map<string, nat>

    /** Every filled order has its one position, every position its one order. */
    ghost predicate Valid()
      reads this
    {
      && (forall c :: c in positionByCommand ==>
            && c in orders && !orders[c].state.Placed?
            && positionByCommand[c] in positions && positions[positionByCommand[c]].command == c)
      && (forall p :: p in positions ==>
            p <= seqNo && positions[p].command in positionByCommand && positionByCommand[positions[p].command] == p)
      && (forall c :: c in orders && !orders[c].state.Placed? ==> c in positionByCommand)
    }

    constructor (fallback: Scenario, slAttachFail: bool, closeFail: bool)
      ensures Valid() && orders == map[] && positions == map[] && scenarios == map[]
      ensures this.fallback == fallback && this.slAttachFail == slAttachFail && this.closeFail == closeFail
    {
      this.fallback, this.slAttachFail, this.closeFail := fallback, slAttachFail, closeFail;
      scenarios, orders, positions, positionByCommand, seqNo := map[], map[], map[], map[], 0;
    }

    function ScenarioOf(c: Command): Scenario
      reads this
    {
      if c.id in scenarios then scenarios[c.id] else fallback
    }

    function PositionOf(id: string): Option<Holding>
      requires Valid()
      reads this
    {
      if id in positionByCommand then Some(positions[positionByCommand[id]]) else None
    }

    /** Whether this call puts an order on the book. */
    predicate Lands(c: Command, pastExpiry: bool)
      reads this
    {
      var s := ScenarioOf(c);
      && c.id !in orders && !pastExpiry
      && (s.mode.FullFillMode? || s.mode.PartialFillMode? || s.mode.AmbiguousMode?
        || (s.mode.TimeoutMode? && s.timeoutLanded))
    }

    /** A command gets at most one order ever; a reply that claims a fill is backed by a position,
        a refusal of a new command leaves no order. */
    method Submit(c: Command, pastExpiry: bool) returns (r: ExecutionResult)
      requires Valid()
      modifies this
      ensures Valid()
      ensures scenarios == old(scenarios) && fallback == old(fallback)
      ensures slAttachFail == old(slAttachFail) && closeFail == old(closeFail)
      ensures orders.Keys == old(orders).Keys + (if old(Lands(c, pastExpiry)) then {c.id} else {})
      ensures forall k :: k in old(orders) ==> orders[k] == old(orders)[k]
      ensures forall p :: p in old(positions) ==> p in positions && positions[p] == old(positions)[p]
      ensures forall k :: k in old(positionByCommand) ==>
        k in positionByCommand && positionByCommand[k] == old(positionByCommand)[k]
      ensures forall p :: p in positions && p !in old(positions) ==> positions[p].command == c.id
      ensures c.id in old(orders) ==>
        r == ExecutionResult(RejectedStatus, Some(DuplicateCommand), 0.0, 0.0, false) && orders == old(orders)
      ensures r.status.FilledStatus? || r.status.PartialStatus? ==>
        && c.id !in old(orders) && c.id in positionByCommand
        && PositionOf(c.id).value.volume == r.filledVolume && PositionOf(c.id).value.openPrice == r.fillPrice
        && PositionOf(c.id).value.sl == (if slAttachFail then None else Some(c.sl)) && (r.slApplied <==> !slAttachFail)
        && !PositionOf(c.id).value.closed
        && orders[c.id].state == (if r.status.FilledStatus? then Complete else Canceled)
      ensures r.status.FilledStatus? ==> r.filledVolume == c.volume
      ensures c.id !in old(orders) && pastExpiry ==>
        r == ExecutionResult(ExpiredStatus, Some(CommandExpired), 0.0, 0.0, false)
      ensures c.id !in old(orders) && !pastExpiry ==>
        var m := ScenarioOf(c).mode;
        && (r.status.FilledStatus? <==> m.FullFillMode?) && (r.status.PartialStatus? <==> m.PartialFillMode?)
        && (r.status.ExpiredStatus? <==> m.ExpiredMode?)
        && (r.status.UnknownStatus? <==> m.TimeoutMode? || m.AmbiguousMode?)
        && (r.status.RejectedStatus? <==> m.RejectMode? || m.RequoteMode? || m.StaleFeedMode? || m.PositionExistsMode?)
        && r.error == (match m
            case FullFillMode => None
            case PartialFillMode => None
            case RejectMode => Some(BrokerReject)
            case RequoteMode => Some(RequoteSlippage)
            case StaleFeedMode => Some(StaleFeed)
            case PositionExistsMode => Some(PositionExists)
            case ExpiredMode => Some(CommandExpired)
            case TimeoutMode => Some(NetworkTimeout)
            case AmbiguousMode => Some(AmbiguousResponse))
      ensures r.status.FilledStatus? || r.status.PartialStatus? ==>
        PriceNear(r.fillPrice, c, ScenarioOf(c))
      ensures r.status.PartialStatus? ==> -0.005 <= r.filledVolume - c.volume * ScenarioOf(c).fillRatio <= 0.005
      ensures !r.status.FilledStatus? && !r.status.PartialStatus? && !r.status.UnknownStatus? ==> orders == old(orders)
    {
      hide RoundTo, Rounding.HalfEven, PriceNear;
      seqNo := seqNo + 1;
      var scenario := ScenarioOf(c);
      if c.id in orders { return Plain(RejectedStatus, Some(DuplicateCommand)); }
      if pastExpiry { return Plain(ExpiredStatus, Some(CommandExpired)); }
      if scenario.mode.RejectMode? { return Plain(RejectedStatus, Some(BrokerReject)); }
      if scenario.mode.RequoteMode? { return Plain(RejectedStatus, Some(RequoteSlippage)); }
      if scenario.mode.StaleFeedMode? { return Plain(RejectedStatus, Some(StaleFeed)); }
      if scenario.mode.PositionExistsMode? { return Plain(RejectedStatus, Some(PositionExists)); }
      if scenario.mode.ExpiredMode? { return Plain(ExpiredStatus, Some(CommandExpired)); }
      if scenario.mode.TimeoutMode? || scenario.mode.AmbiguousMode? {
        r := Unanswered(c, scenario);
        return;
      }
      r := Fill(c, scenario);
    }

    /** A submit whose outcome is not reported: a timed-out order may have been filled all the same,
        an ambiguous one stays placed. */
    method Unanswered(c: Command, s: Scenario) returns (r: ExecutionResult)
      requires Valid() && c.id !in orders && (s.mode.TimeoutMode? || s.mode.AmbiguousMode?)
      modifies this
      ensures Valid()
      ensures scenarios == old(scenarios) && fallback == old(fallback)
      ensures slAttachFail == old(slAttachFail) && closeFail == old(closeFail)
      ensures r == ExecutionResult(UnknownStatus,
        Some(if s.mode.TimeoutMode? then NetworkTimeout else AmbiguousResponse), 0.0, 0.0, false)
      ensures s.mode.TimeoutMode? && !s.timeoutLanded ==>
        orders == old(orders) && positions == old(positions) && positionByCommand == old(positionByCommand)
      ensures s.mode.AmbiguousMode? ==>
        && orders == old(orders)[c.id := Order(0.0, 0.0, None, Placed)]
        && positions == old(positions) && positionByCommand == old(positionByCommand)
      ensures s.mode.TimeoutMode? && s.timeoutLanded ==>
        && c.id in orders && orders == old(orders)[c.id := orders[c.id]]
        && orders[c.id].filledVolume == c.volume && orders[c.id].state == Complete
        && seqNo !in old(positions) && positionByCommand == old(positionByCommand)[c.id := seqNo]
        && positions == old(positions)[seqNo := positions[seqNo]] && positions[seqNo].command == c.id
    {
      hide RoundTo, Rounding.HalfEven, PriceNear;
      if s.mode.TimeoutMode? {
        if s.timeoutLanded {
          FillOrder(c, s, c.volume, Complete);
        }
        return UnknownResult(NetworkTimeout);
      }
      orders := orders[c.id := Order(0.0, 0.0, None, Placed)];
      return UnknownResult(AmbiguousResponse);
    }

    /** Fills a new command, fully or in part, and reports the fill. */
    method Fill(c: Command, s: Scenario) returns (r: ExecutionResult)
      requires Valid() && c.id !in orders && (s.mode.FullFillMode? || s.mode.PartialFillMode?)
      modifies this
      ensures Valid()
      ensures scenarios == old(scenarios) && fallback == old(fallback)
      ensures slAttachFail == old(slAttachFail) && closeFail == old(closeFail)
      ensures r.status == (if s.mode.FullFillMode? then FilledStatus else PartialStatus) && r.error.None?
      ensures s.mode.FullFillMode? ==> r.filledVolume == c.volume
      ensures s.mode.PartialFillMode? ==> -0.005 <= r.filledVolume - c.volume * s.fillRatio <= 0.005
      ensures PriceNear(r.fillPrice, c, s) && (r.slApplied <==> !slAttachFail)
      ensures
        var sl, end := if slAttachFail then None else Some(c.sl), if s.mode.FullFillMode? then Complete else Canceled;
        && orders == old(orders)[c.id := Order(r.filledVolume, r.fillPrice, sl, end)]
        && positions == old(positions)[seqNo := Holding(c.id, r.filledVolume, r.fillPrice, sl, false)]
        && positionByCommand == old(positionByCommand)[c.id := seqNo]
      ensures seqNo !in old(positions)
    {
      hide RoundTo, Rounding.HalfEven, PriceNear;
      var partial := s.mode.PartialFillMode?;
      var filled := if partial then RoundTo(c.volume * s.fillRatio, 100.0) else c.volume;
      RoundWithin(c.volume * s.fillRatio, 100.0, 0.005);
      FillOrder(c, s, filled, if partial then Canceled else Complete);
      var order := orders[c.id];
      return ExecutionResult(if partial then PartialStatus else FilledStatus, None, filled, order.fillPrice,
        order.sl.Some?);
    }

    /** Places the order and opens its position; a partial fill leaves the order CANCELED. */
    method FillOrder(c: Command, s: Scenario, volume: real, end: OrderState)
      requires Valid() && c.id !in orders && !end.Placed?
      modifies this
      ensures Valid() && seqNo == old(seqNo) + 1
      ensures scenarios == old(scenarios) && fallback == old(fallback)
      ensures slAttachFail == old(slAttachFail) && closeFail == old(closeFail)
      ensures
        var slip := s.slippagePoints * 0.01;
        var price := RoundTo(if c.isBuy then s.entryPrice + slip else s.entryPrice - slip, 100000.0);
        var sl := if slAttachFail then None else Some(c.sl);
        && orders == old(orders)[c.id := Order(volume, price, sl, end)]
        && positions == old(positions)[seqNo := Holding(c.id, volume, price, sl, false)]
        && positionByCommand == old(positionByCommand)[c.id := seqNo]
      ensures seqNo !in old(positions)
      ensures PriceNear(orders[c.id].fillPrice, c, s)
    {
      hide RoundTo, PriceNear;
      var slippage := s.slippagePoints * 0.01;
      var price := RoundTo(if c.isBuy then s.entryPrice + slippage else s.entryPrice - slippage, 100000.0);
      var sl := if slAttachFail then None else Some(c.sl);
      orders := orders[c.id := Order(volume, price, sl, end)];
      seqNo := seqNo + 1;
      positions := positions[seqNo := Holding(c.id, volume, price, sl, false)];
      positionByCommand := positionByCommand[c.id := seqNo];
      SlippedNear(c, s);
    }

    method GetPosition(c: Command) returns (pid: nat, snapshot: Option<Holding>)
      requires Valid()
      ensures snapshot == PositionOf(c.id)
      ensures snapshot.Some? ==> pid in positions && positions[pid] == snapshot.value && snapshot.value.command == c.id
    {
      if c.id !in positionByCommand { return 0, None; }
      pid := positionByCommand[c.id];
      snapshot := Some(positions[pid]);
    }

    /** Honest attach: success means the position now carries exactly this stop-loss. */
    method AttachSl(c: Command, pid: nat, sl: real) returns (r: ExecutionResult)
      requires Valid()
      modifies this`positions, this`orders
      ensures Valid()
      ensures r.slApplied <==> old(pid in positions && !positions[pid].closed && !slAttachFail)
      ensures !r.slApplied ==> positions == old(positions) && orders == old(orders)
      ensures r.slApplied ==>
        && positions == old(positions)[pid := old(positions)[pid].(sl := Some(sl))]
        && r == ExecutionResult(FilledStatus, None, positions[pid].volume, positions[pid].openPrice, true)
        && (c.id in orders ==> orders[c.id].sl == Some(sl))
      ensures !r.slApplied ==> r == ExecutionResult(FailedStatus, Some(SlAttachFailed), 0.0, 0.0, false)
      ensures orders.Keys == old(orders).Keys && forall k :: k in orders ==>
        orders[k] == old(orders)[k].(sl := orders[k].sl)
    {
      if pid !in positions || positions[pid].closed || slAttachFail {
        return Plain(FailedStatus, Some(SlAttachFailed));
      }
      positions := positions[pid := positions[pid].(sl := Some(sl))];
      if c.id in orders {
        orders := orders[c.id := orders[c.id].(sl := Some(sl))];
      }
      return ExecutionResult(FilledStatus, None, positions[pid].volume, positions[pid].openPrice, true);
    }

    method ClosePosition(c: Command, pid: nat) returns (r: ExecutionResult)
      requires Valid()
      modifies this`positions
      ensures Valid()
      ensures r.status.ClosedStatus? <==> old(pid in positions && !positions[pid].closed && !closeFail)
      ensures r == if r.status.ClosedStatus? then ExecutionResult(ClosedStatus, None, 0.0, 0.0, true)
        else ExecutionResult(FailedStatus, Some(CloseFailed), 0.0, 0.0, false)
      ensures positions == if r.status.ClosedStatus? then old(positions)[pid := old(positions)[pid].(closed := true)]
        else old(positions)
    {
      if pid !in positions || positions[pid].closed || closeFail {
        return Plain(FailedStatus, Some(CloseFailed));
      }
      positions := positions[pid := positions[pid].(closed := true)];
      return Plain(ClosedStatus, None);
    }

    /** Broker truth.  "Nothing, not ambiguous" is said exactly when the book holds no order, so
        the assumption behind at-most-one-order is met; what is reported is always a state that
        reconciliation may adopt; and REJECTED hides a live position exactly when a partial fill
        was canceled. */
    method Query(c: Command) returns (t: Truth)
      requires Valid()
      ensures t.discovered.None? && !t.ambiguous <==> c.id !in orders
      ensures t.ambiguous <==> c.id in orders && ScenarioOf(c).mode.AmbiguousMode?
      ensures t.discovered.Some? ==> c.id in orders && t.discovered.value in {Filled, Submitted, Rejected, Closed}
      ensures c.id in orders && !t.ambiguous && (PositionOf(c.id).Some? ==> !PositionOf(c.id).value.closed) ==>
        && (t.discovered == Some(Filled) <==> orders[c.id].state.Complete?)
        && (t.discovered == Some(Submitted) <==> orders[c.id].state.Placed?)
        && (t.discovered == Some(Rejected) <==> orders[c.id].state.Canceled?)
      ensures t.filledVolume == (if c.id in orders then orders[c.id].filledVolume else 0.0)
      ensures t.fillPrice == (if c.id in orders then orders[c.id].fillPrice else 0.0)
      ensures t.discovered == Some(Closed) <==> !t.ambiguous && PositionOf(c.id).Some? && PositionOf(c.id).value.closed
      ensures (t.discovered == Some(Rejected) && PositionOf(c.id).Some? && !PositionOf(c.id).value.closed) <==>
        (c.id in orders && !t.ambiguous && orders[c.id].state.Canceled? && !PositionOf(c.id).value.closed)
      ensures forall m: Machine ::
        m.pc.Busy? && m.pc.command == c && Count(m.book.landed, c.id) == (if c.id in orders then 1 else 0)
        ==> TellsOrders(m, Told(t))
    {
      if c.id !in orders {
        return Truth(None, false, 0.0, 0.0);
      }
      var order := orders[c.id];
      var position := PositionOf(c.id);
      if ScenarioOf(c).mode.AmbiguousMode? {
        return Truth(None, true, order.filledVolume, order.fillPrice);
      }
      return Truth(Some(Discovered(order, position)), false, order.filledVolume, order.fillPrice);
    }
  }

  /** A partial fill with a live, unprotected position is reported as REJECTED.  With the replies the
      simulator gives, the engine's own run, without any crash, ends with that command terminal in
      its journal while the position is open. */
  method PartialFillReportedRejected(c: Command, s: Scenario, ghost cfg: Config, ghost m0: Machine,
                                     ghost pidText: string)
    returns (t: Truth, live: Option<Holding>, ghost ops: seq<Op>, ghost m: Machine)
    requires s.mode.PartialFillMode? && Initial(m0)
    ensures t.discovered == Some(Rejected) && !t.ambiguous
    ensures live.Some? && !live.value.closed && live.value.command == c.id && live.value.sl.None?
    ensures Reaches(cfg, m0, ops, m, c.id) && Uneventful(ops) && m.pc.Idle?
    ensures c.id in m.journal.rows && m.journal.rows[c.id].state.Rejected? && Count(m.book.landed, c.id) == 1
  {
    hide Reaches;
    var broker := new SimulatedExecutor(s, true, true);
    var r := broker.Submit(c, false);
    assert c.id in broker.orders;
    var pid, before := broker.GetPosition(c);
    var refused := broker.ClosePosition(c, pid);
    t := broker.Query(c);
    pid, live := broker.GetPosition(c);
    ops, m := PartialFillLost(cfg, c, m0, r, refused, t, pidText);
  }
}
