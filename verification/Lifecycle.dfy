/**
 * Contract lifecycle of one trade and of a whole stream
 * (shared/contracts/lifecycle.py, collector/event_model/lifecycle.py).
 */
module Lifecycle {
  import opened Common
  import opened Events

  predicate OutOfBand(k: Kind) {
    k.TickReceivedKind? || k.ReconciliationKind? || k.ErrorKind? || k.TimeoutKind?
  }

  predicate TradeFlow(k: Kind) { !OutOfBand(k) }

  predicate TerminalEvent(k: Kind) {
    k.PositionClosedKind? || k.ErrorKind? || k.TimeoutKind?
  }

  function NextAllowed(k: Kind): set<Kind> {
    match k
    case TriggerDetectedKind => {ContextBuiltKind, RiskGateKind}
    case ContextBuiltKind => {AiRequestKind}
    case AiRequestKind => {AiResponseKind}
    case AiResponseKind => {RiskGateKind}
    case RiskGateKind => {OrderSubmittedKind}
    case OrderSubmittedKind => {OrderAcknowledgedKind}
    case OrderAcknowledgedKind => {OrderFilledKind}
    case OrderFilledKind => {PositionOpenedKind}
    case PositionOpenedKind => {PositionUpdatedKind, NetProfitPositiveKind, ExitSubmittedKind}
    case PositionUpdatedKind => {PositionUpdatedKind, NetProfitPositiveKind, ExitSubmittedKind}
    case NetProfitPositiveKind => {PositionUpdatedKind, ExitSubmittedKind}
    case ExitSubmittedKind => {PositionClosedKind}
    case _ => {}
  }

  predicate ValidTransition(previous: Kind, next: Kind, previousPayload: Option<Payload>) {
    OutOfBand(next) ||
    (&& TradeFlow(previous) && next in NextAllowed(previous)
     && !(previous.RiskGateKind? && Rejects(previousPayload)))
  }

  predicate Rejects(p: Option<Payload>) {
    p.Some? && p.value.RiskGate? && p.value.reject
  }

  datatype TradeState = TradeState(state: Option<Kind>, last: Option<Payload>, terminal: bool)

  const FRESH := TradeState(None, None, false)

  /** One event of a trade; None is the source's ContractValidationError. */
  function Apply(t: TradeState, p: Payload): Option<TradeState> {
    var k := p.Kind();
    if TradeFlow(k) && t.terminal then None
    else if t.state.None? && TradeFlow(k) && !k.TriggerDetectedKind? then None
    else if t.state.Some? && !ValidTransition(t.state.value, k, t.last) then None
    else
      var ends :=
        || (p.RiskGate? && p.reject)
        || (k.ReconciliationKind? && t.state.Some?
          && (t.state.value.OrderSubmittedKind? || t.state.value.OrderAcknowledgedKind?))
        || TerminalEvent(k);
      Some(TradeState(
        if TradeFlow(k) || TerminalEvent(k) then Some(k) else t.state,
        if TradeFlow(k) then Some(p) else t.last,
        t.terminal || ends))
  }

  /** The state after a trade's events, or None when one of them is refused. */
  function Fold(flow: seq<Payload>): Option<TradeState> {
    if flow == [] then Some(FRESH)
    else
      var before := Fold(flow[..|flow| - 1]);
      if before.None? then None else Apply(before.value, flow[|flow| - 1])
  }

  /** The events of one trade, in stream order. */
  function Flow(events: seq<Event>, trade: string): seq<Payload> {
    if events == [] then []
    else
      var e := events[|events| - 1];
      Flow(events[..|events| - 1], trade) + (if e.trade == Some(trade) then [e.payload] else [])
  }

  /** What a stream demands of a single event. */
  predicate Guarded(e: Event) {
    && (e.payload.TriggerDetected? ==> e.correlation.Some?)
    && (TradeFlow(e.payload.Kind()) ==> e.trade.Some?)
  }

  ghost predicate Ordered(events: seq<Event>) {
    forall i, k :: 0 <= i < k < |events| ==> events[i].tsMonotonic <= events[k].tsMonotonic
  }

  /** A stream is acceptable when time does not run back, every event passes its guard and every
      trade's own events are accepted by a fresh lifecycle. */
  ghost predicate StreamOk(events: seq<Event>) {
    && Ordered(events)
    && (forall i :: 0 <= i < |events| ==> Guarded(events[i]))
    && (forall trade :: Fold(Flow(events, trade)).Some?)
  }

  // ------------------------------------------------------------- the objects

  class TradeLifecycle {
    var state: Option<Kind>
    var lastPayload: Option<Payload>
    var terminal: bool

    function View(): TradeState
      reads this
    {
      TradeState(state, lastPayload, terminal)
    }

    constructor ()
      ensures View() == FRESH
    {
      state, lastPayload, terminal := None, None, false;
    }

    /** Refused events leave the lifecycle as it was. */
    method ApplyEvent(p: Payload) returns (ok: bool)
      modifies this
      ensures ok <==> Apply(old(View()), p).Some?
      ensures View() == if ok then Apply(old(View()), p).value else old(View())
    {
      var kind := p.Kind();
      if !OutOfBand(kind) && terminal { return false; }
      if state.None? {
        if !OutOfBand(kind) && !kind.TriggerDetectedKind? { return false; }
      } else if !OutOfBand(kind) {
        if !ValidTransition(state.value, kind, lastPayload) { return false; }
      }
      ApplySpecialRules(p);
      if !OutOfBand(kind) || TerminalEvent(kind) { state := Some(kind); }
      if TradeFlow(kind) { lastPayload := Some(p); }
      return true;
    }

    method ApplySpecialRules(p: Payload)
      modifies this`terminal
      ensures terminal ==
        (|| old(terminal) || (p.RiskGate? && p.reject)
         || (p.Reconciliation? && state.Some?
           && (state.value.OrderSubmittedKind? || state.value.OrderAcknowledgedKind?))
         || TerminalEvent(p.Kind()))
    {
      if p.RiskGate? && p.reject {
        terminal := true;
      } else if p.Reconciliation? && state.Some?
        && (state.value.OrderSubmittedKind? || state.value.OrderAcknowledgedKind?) {
        terminal := true;
      } else if TerminalEvent(p.Kind()) {
        terminal := true;
      }
    }
  }

  /** The demultiplexing loop accepts exactly the streams that are acceptable trade by trade. */
  method ValidateSequence(events: seq<Event>) returns (ok: bool)
    ensures ok <==> StreamOk(events)
  {
    hide Fold, Flow, Apply, StreamOk;
    var lifecycles: map<string, TradeLifecycle> := map[];
    var lastMonotonic: Option<int> := None;
    EmptyStream(events);
    for i := 0 to |events|
      invariant StreamOk(events[..i])
      invariant lastMonotonic == if i == 0 then None else Some(events[i - 1].tsMonotonic)
      invariant forall t :: t in lifecycles ==> fresh(lifecycles[t])
      invariant forall t, u :: t in lifecycles && u in lifecycles && t != u ==> lifecycles[t] != lifecycles[u]
      invariant forall t :: t in lifecycles ==> After(events, i, t) == Some(lifecycles[t].View())
      invariant forall t :: t !in lifecycles ==> After(events, i, t) == Some(FRESH)
    {
      var e := events[i];
      FoldsSnoc(events, i);
      if Fits(events, i) { FittingSnoc(events, i); } else { MisfitDooms(events, i); }
      if lastMonotonic.Some? && e.tsMonotonic < lastMonotonic.value { return false; }
      lastMonotonic := Some(e.tsMonotonic);
      if e.payload.TriggerDetected? && e.correlation.None? { return false; }
      if TradeFlow(e.payload.Kind()) && e.trade.None? { return false; }
      if e.trade.None? { continue; }
      var trade := e.trade.value;
      if trade !in lifecycles {
        var newcomer := new TradeLifecycle();
        lifecycles := lifecycles[trade := newcomer];
      }
      ghost var before := lifecycles[trade].View();
      var accepted := lifecycles[trade].ApplyEvent(e.payload);
      if !accepted { return false; }
      assert After(events, i + 1, trade) == Some(lifecycles[trade].View());
    }
    assert events[..|events|] == events;
    return true;
  }

  lemma EmptyStream(events: seq<Event>)
    ensures StreamOk(events[..0]) && forall t :: After(events, 0, t) == Some(FRESH)
  {
  }

  /** Where a trade stands after the first n events. */
  function After(events: seq<Event>, n: nat, trade: string): Option<TradeState>
    requires n <= |events|
  {
    Fold(Flow(events[..n], trade))
  }

  function Moved(t: Option<TradeState>, p: Payload): Option<TradeState> {
    if t.None? then None else Apply(t.value, p)
  }

  lemma FoldSnoc(events: seq<Event>, i: nat, t: string)
    requires i < |events|
    ensures After(events, i + 1, t) ==
      (if events[i].trade == Some(t) then Moved(After(events, i, t), events[i].payload) else After(events, i, t))
  {
    assert events[..i + 1][..i] == events[..i];
    var flow := Flow(events[..i], t);
    assert (flow + [events[i].payload])[..|flow|] == flow;
    assert flow + [] == flow;
  }

  /** Only the trade of the next event moves. */
  lemma FoldsSnoc(events: seq<Event>, i: nat)
    requires i < |events|
    ensures forall t :: events[i].trade == Some(t) ==>
      After(events, i + 1, t) == Moved(After(events, i, t), events[i].payload)
    ensures forall t :: events[i].trade != Some(t) ==> After(events, i + 1, t) == After(events, i, t)
  {
    forall t
      ensures events[i].trade == Some(t) ==> After(events, i + 1, t) == Moved(After(events, i, t), events[i].payload)
      ensures events[i].trade != Some(t) ==> After(events, i + 1, t) == After(events, i, t)
    {
      FoldSnoc(events, i, t);
    }
  }

  /** The next event is in time, guarded and accepted by its trade. */
  predicate Fits(events: seq<Event>, i: nat)
    requires i < |events|
  {
    && (i > 0 ==> events[i - 1].tsMonotonic <= events[i].tsMonotonic) && Guarded(events[i])
    && (events[i].trade.Some? ==> Moved(After(events, i, events[i].trade.value), events[i].payload).Some?)
  }

  lemma FittingSnoc(events: seq<Event>, i: nat)
    requires i < |events| && StreamOk(events[..i]) && Fits(events, i)
    ensures StreamOk(events[..i + 1])
  {
    var prefix, longer := events[..i], events[..i + 1];
    forall k | 0 <= k < |longer| ensures Guarded(longer[k]) {
      if k < i { assert prefix[k] == longer[k]; }
    }
    forall j, k | 0 <= j < k < |longer| ensures longer[j].tsMonotonic <= longer[k].tsMonotonic {
      assert k < i ==> prefix[j].tsMonotonic <= prefix[k].tsMonotonic;
      assert j < i - 1 ==> prefix[j].tsMonotonic <= prefix[i - 1].tsMonotonic;
    }
    forall t ensures Fold(Flow(longer, t)).Some? {
      FoldSnoc(events, i, t);
      assert Fold(Flow(prefix, t)).Some?;
    }
  }

  lemma MisfitDooms(events: seq<Event>, i: nat)
    requires i < |events| && StreamOk(events[..i]) && !Fits(events, i)
    ensures !StreamOk(events)
  {
    if (i == 0 || events[i - 1].tsMonotonic <= events[i].tsMonotonic) && Guarded(events[i]) {
      var t := events[i].trade.value;
      FoldSnoc(events, i, t);
      FoldPrefix(events, i + 1, t);
    }
  }

  /** A refused prefix dooms the stream. */
  lemma {:induction false} FoldPrefix(events: seq<Event>, n: nat, trade: string)
    requires n <= |events| && Fold(Flow(events[..n], trade)).None?
    ensures Fold(Flow(events, trade)).None?
  {
    if n == |events| {
      assert events[..n] == events;
    } else {
      var init := events[..|events| - 1];
      assert init[..n] == events[..n];
      FoldPrefix(init, n, trade);
      var flow := Flow(init, trade);
      var e := events[|events| - 1];
      assert (flow + [e.payload])[..|flow|] == flow;
      assert flow + [] == flow;
    }
  }

  // ------------------------------------------------ what an accepted flow looks like

  /** Position of an event kind along the trade path. */
  function Rank(k: Kind): nat {
    match k
    case TriggerDetectedKind => 1
    case ContextBuiltKind => 2
    case AiRequestKind => 3
    case AiResponseKind => 4
    case RiskGateKind => 5
    case OrderSubmittedKind => 6
    case OrderAcknowledgedKind => 7
    case OrderFilledKind => 8
    case PositionOpenedKind => 9
    case PositionUpdatedKind => 10
    case NetProfitPositiveKind => 10
    case ExitSubmittedKind => 11
    case PositionClosedKind => 12
    case _ => 0
  }

  predicate Repeatable(k: Kind) {
    k.PositionUpdatedKind? || k.NetProfitPositiveKind?
  }

  /** How far along the path a trade is; a trade ended by ERROR or TIMEOUT accepts nothing more. */
  predicate Beyond(t: TradeState, k: Kind) {
    t.terminal || (t.state.Some? && TradeFlow(t.state.value) && Rank(k) <= Rank(t.state.value))
  }

  lemma ApplyAdvances(t: TradeState, p: Payload)
    requires Apply(t, p).Some? && (t.state.Some? && !TradeFlow(t.state.value) ==> t.terminal)
    ensures var u := Apply(t, p).value;
      && (u.state.Some? && !TradeFlow(u.state.value) ==> u.terminal)
      && (forall k :: Beyond(t, k) ==> Beyond(u, k))
      && (TradeFlow(p.Kind()) ==> Beyond(u, p.Kind()))
      && (TradeFlow(p.Kind()) && Beyond(t, p.Kind()) ==> Repeatable(p.Kind()))
  {
  }

  /** The kinds seen so far lie behind the trade's state. */
  ghost predicate PastIsBehind(flow: seq<Payload>, t: TradeState) {
    && (t.state.Some? && !TradeFlow(t.state.value) ==> t.terminal)
    && forall i :: 0 <= i < |flow| && TradeFlow(flow[i].Kind()) ==> Beyond(t, flow[i].Kind())
  }

  lemma {:induction false} AcceptedFlowAdvances(flow: seq<Payload>)
    requires Fold(flow).Some?
    ensures PastIsBehind(flow, Fold(flow).value)
  {
    if flow != [] {
      AcceptedFlowAdvances(flow[..|flow| - 1]);
      ApplyAdvances(Fold(flow[..|flow| - 1]).value, flow[|flow| - 1]);
    }
  }

  /** Along an accepted flow the rank rises strictly, but for the two repeatable kinds. */
  lemma {:induction false} LaterIsAhead(flow: seq<Payload>, i: nat, k: nat)
    requires Fold(flow).Some? && i < k < |flow| && TradeFlow(flow[i].Kind()) && TradeFlow(flow[k].Kind())
    ensures Rank(flow[i].Kind()) < Rank(flow[k].Kind()) || Repeatable(flow[k].Kind())
  {
    var init := flow[..|flow| - 1];
    if k < |init| {
      LaterIsAhead(init, i, k);
    } else {
      AcceptedFlowAdvances(init);
      assert Beyond(Fold(init).value, init[i].Kind());
      ApplyAdvances(Fold(init).value, flow[k]);
    }
  }

  /** In an accepted flow every trade-path event but POSITION_UPDATED and NET_PROFIT_POSITIVE
      occurs at most once. */
  lemma AtMostOnce(flow: seq<Payload>)
    requires Fold(flow).Some?
    ensures forall i, k ::
      && 0 <= i < |flow| && 0 <= k < |flow| && flow[i].Kind() == flow[k].Kind()
      && TradeFlow(flow[i].Kind()) && !Repeatable(flow[i].Kind())
      ==> i == k
  {
    forall i, k |
      && 0 <= i < |flow| && 0 <= k < |flow| && flow[i].Kind() == flow[k].Kind()
      && TradeFlow(flow[i].Kind()) && !Repeatable(flow[i].Kind())
      ensures i == k
    {
      if i < k { LaterIsAhead(flow, i, k); }
      if k < i { LaterIsAhead(flow, k, i); }
    }
  }

  /** The gate was passed before the trade got beyond it. */
  ghost predicate Gated(flow: seq<Payload>, t: TradeState) {
    && (t.state.Some? && TradeFlow(t.state.value) && Rank(t.state.value) > Rank(RiskGateKind) ==>
          exists g :: 0 <= g < |flow| && flow[g].RiskGate? && !flow[g].reject)
    && (t.state == Some(RiskGateKind) ==>
          && t.last.Some? && t.last.value.RiskGate?
          && (t.last.value.reject ==> t.terminal)
          && (!t.last.value.reject ==> exists g :: 0 <= g < |flow| && flow[g].RiskGate? && !flow[g].reject))
  }

  /** A position opens only after a risk gate that did not reject. */
  lemma {:induction false} OpensOnlyAfterGate(flow: seq<Payload>)
    requires Fold(flow).Some?
    ensures Gated(flow, Fold(flow).value)
    ensures forall i :: 0 <= i < |flow| && TradeFlow(flow[i].Kind()) && Rank(flow[i].Kind()) > Rank(RiskGateKind) ==>
      exists g :: 0 <= g < i && flow[g].RiskGate? && !flow[g].reject
  {
    if flow != [] {
      var init, p := flow[..|flow| - 1], flow[|flow| - 1];
      OpensOnlyAfterGate(init);
      GateStep(init, Fold(init).value, p);
      assert init + [p] == flow;
    }
  }

  lemma GateStep(flow: seq<Payload>, t: TradeState, p: Payload)
    requires Gated(flow, t) && Apply(t, p).Some?
    ensures Gated(flow + [p], Apply(t, p).value)
    ensures TradeFlow(p.Kind()) && Rank(p.Kind()) > Rank(RiskGateKind) ==>
      exists g :: 0 <= g < |flow| && flow[g].RiskGate? && !flow[g].reject
  {
    var all := flow + [p];
    if exists g :: 0 <= g < |flow| && flow[g].RiskGate? && !flow[g].reject {
      var g :| 0 <= g < |flow| && flow[g].RiskGate? && !flow[g].reject;
      assert all[g].RiskGate? && !all[g].reject;
    }
    if p.RiskGate? { assert all[|flow|] == p; }
  }
}
