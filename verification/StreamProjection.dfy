/**
 * Where lifecycle and projection meet: on a stream the lifecycle accepts, the
 * derived index of open positions is right.
 */
module StreamProjection {
  import opened Common
  import opened Events
  import opened Lifecycle
  import opened Projection

  predicate Opens(e: Event, position: string) {
    e.payload.PositionOpened? && e.payload.position == position
  }

  predicate Closes(e: Event, position: string) {
    e.payload.PositionClosed? && e.payload.position == position
  }

  function PositionNamed(e: Event): Option<string> {
    match e.payload
    case PositionOpened(p, _, _, _, _) => Some(p)
    case PositionClosed(p, _, _, _, _, _) => Some(p)
    case _ => None
  }

  /** Each trade uses one broker position id, and no other trade uses it. */
  ghost predicate OnePositionPerTrade(events: seq<Event>) {
    forall i, k ::
      && 0 <= i < |events| && 0 <= k < |events|
      && PositionNamed(events[i]).Some? && PositionNamed(events[k]).Some?
      ==> (events[i].trade == events[k].trade <==> PositionNamed(events[i]) == PositionNamed(events[k]))
  }

  lemma PrefixOk(events: seq<Event>)
    requires StreamOk(events) && events != []
    ensures StreamOk(events[..|events| - 1])
  {
    var n := |events| - 1;
    forall t ensures Fold(Flow(events[..n], t)).Some? {
      if Fold(Flow(events[..n], t)).None? { FoldPrefix(events, n, t); }
    }
  }

  lemma {:induction false} FlowHas(events: seq<Event>, trade: string, k: nat) returns (a: nat)
    requires k < |events| && events[k].trade == Some(trade)
    ensures a < |Flow(events, trade)| && Flow(events, trade)[a] == events[k].payload
  {
    var init := events[..|events| - 1];
    if k < |init| {
      a := FlowHas(init, trade, k);
    } else {
      a := |Flow(init, trade)|;
    }
  }

  /** A trade whose position was closed never opens one again. */
  lemma NoReopening(events: seq<Event>, k: nat)
    requires StreamOk(events) && events != [] && k < |events| - 1
    requires events[|events| - 1].payload.PositionOpened? && events[k].payload.PositionClosed?
    ensures events[k].trade != events[|events| - 1].trade
  {
    var init, e := events[..|events| - 1], events[|events| - 1];
    assert Guarded(e);
    if events[k].trade == e.trade {
      var trade := e.trade.value;
      var a := FlowHas(init, trade, k);
      var flow := Flow(events, trade);
      assert flow == Flow(init, trade) + [e.payload];
      assert Fold(flow).Some?;
      LaterIsAhead(flow, a, |flow| - 1);
    }
  }

  lemma {:induction false} LastStateWritten(events: seq<Event>, position: string)
    requires StreamOk(events) && OnePositionPerTrade(events)
    ensures LastWrite(events, Slot(Positions, position), PositionState) == Some(Text("OPEN")) <==>
      (&& (exists i :: 0 <= i < |events| && Opens(events[i], position))
       && (forall k :: 0 <= k < |events| ==> !Closes(events[k], position)))
  {
    hide StreamOk, Writes, Put;
    if events != [] {
      var init, e := events[..|events| - 1], events[|events| - 1];
      PrefixOk(events);
      LastStateWritten(init, position);
      var w := StateWritten(e, position);
      assert forall i :: 0 <= i < |init| ==> init[i] == events[i];
      if Opens(e, position) {
        forall k | 0 <= k < |events| ensures !Closes(events[k], position) {
          if k < |init| && Closes(events[k], position) { NoReopening(events, k); }
        }
      }
    }
  }

  /** Event i opens the position, and its trade never closes one. */
  ghost predicate OpenTrade(events: seq<Event>, i: nat, position: string) {
    && i < |events| && Opens(events[i], position)
    && forall k :: 0 <= k < |events| && events[k].trade == events[i].trade ==> !events[k].payload.PositionClosed?
  }

  lemma OpenTradeOfPosition(events: seq<Event>, i: nat, position: string)
    requires OnePositionPerTrade(events) && i < |events| && Opens(events[i], position)
    ensures OpenTrade(events, i, position) <==> forall k :: 0 <= k < |events| ==> !Closes(events[k], position)
  {
    assert PositionNamed(events[i]) == Some(position);
    forall k | 0 <= k < |events|
      ensures events[k].trade == events[i].trade && events[k].payload.PositionClosed? <==> Closes(events[k], position)
    {
      if events[k].payload.PositionClosed? {
        assert PositionNamed(events[k]) == Some(events[k].payload.position);
      }
    }
  }

  /** On an accepted stream in which each trade has its own position, the projected index of open
      positions holds exactly the positions of trades that opened one and have not closed it. */
  lemma OpenPositionsAreTheOpenTrades(log: seq<Entry>, position: string)
    requires StreamOk(EventsOf(log)) && OnePositionPerTrade(EventsOf(log))
    ensures IsOpen(Project(log), position) <==> exists i :: OpenTrade(EventsOf(log), i, position)
  {
    hide StreamOk;
    var events := EventsOf(log);
    CellsHoldLastWrite(log, Slot(Positions, position), PositionState);
    LastStateWritten(events, position);
    forall i: nat | i < |events| && Opens(events[i], position)
      ensures OpenTrade(events, i, position) <==> forall k :: 0 <= k < |events| ==> !Closes(events[k], position)
    {
      OpenTradeOfPosition(events, i, position);
    }
  }
}
