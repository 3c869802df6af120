/**
 * The local side of a comparison, read off the event log: which positions and
 * orders are open, and what is known of them.
 */
module LocalState {
  import opened Common
  import opened Events
  import P = Projection
  import opened ProjectionCells
  import C = Classifier
  import opened ReconciliationService

  /** A position is open locally exactly when the last event that names it opened it; it is then
      compared with the direction, volume and price of that event. */
  lemma OpenPositionsTell(log: seq<P.Entry>, position: string)
    ensures var last, locals := LastOf(P.EventsOf(log), Naming(position)), LocalPositions(P.Project(log));
      && (position in locals <==> last.Some? && last.value.payload.PositionOpened?)
      && (position in locals ==>
            var o := last.value.payload;
            locals[position] ==
              C.Local(position, Some(o.direction), Some(o.volume), Some(o.openPrice), Some("OPEN")))
  {
    hide P.Project, P.EventsOf, LastOf;
    var t, s := P.Project(log), P.Slot(P.Positions, position);
    PositionRowTells(log, position);
    OpenedLast(P.EventsOf(log), position);
    if P.Cell(t, s, P.PositionState) == Some(P.Text("OPEN")) { assert s in t && OpenPosition(t, s); }
  }

  /** When the last event naming a position opened it, that is also its last opening. */
  lemma {:induction false} OpenedLast(events: seq<Event>, position: string)
    ensures var last := LastOf(events, Naming(position));
      last.Some? && last.value.payload.PositionOpened? ==> LastOf(events, OpeningOf(position)) == last
  {
    if events != [] { OpenedLast(events[..|events| - 1], position); }
  }

  /** The last word on an order: the acknowledged state, or FILLED. */
  function StateReported(e: Event): string
    requires e.payload.OrderAcknowledged? || e.payload.OrderFilled?
  {
    if e.payload.OrderFilled? then "FILLED" else e.payload.brokerState
  }

  /** An order is open locally exactly when something was reported of it and the last report is neither
      FILLED nor CANCELLED nor REJECTED; of it only that state is known. */
  lemma OpenOrdersTell(log: seq<P.Entry>, order: string)
    ensures var last, locals := LastOf(P.EventsOf(log), Reporting(order)), LocalOrders(P.Project(log));
      && (order in locals <==>
            last.Some? && StateReported(last.value) !in {"FILLED", "CANCELLED", "REJECTED"})
      && (order in locals ==>
            locals[order] == C.Local(order, None, None, None, Some(StateReported(last.value))))
  {
    hide P.Project, P.EventsOf, LastOf;
    var t, s := P.Project(log), P.Slot(P.Orders, order);
    OrderRowTells(log, order);
    OrderKnown(log, order);
    NothingRequested(log, order);
    if s in t && OpenOrder(t, s) { assert order in LocalOrders(t); }
  }

  lemma NothingRequested(log: seq<P.Entry>, order: string)
    ensures P.Cell(P.Project(log), P.Slot(P.Orders, order), P.RequestedLot).None?
    ensures P.Cell(P.Project(log), P.Slot(P.Orders, order), P.RequestedPrice).None?
  {
    hide P.Project, P.EventsOf;
    var s := P.Slot(P.Orders, order);
    CellsTell(log, s, P.RequestedLot);
    CellsTell(log, s, P.RequestedPrice);
    NeverTold(P.EventsOf(log), order);
  }

  lemma {:induction false} NeverTold(events: seq<Event>, order: string)
    ensures LastTold(events, P.Slot(P.Orders, order), P.RequestedLot).None?
    ensures LastTold(events, P.Slot(P.Orders, order), P.RequestedPrice).None?
  {
    if events != [] { NeverTold(events[..|events| - 1], order); }
  }

  /** An order has a row exactly when something was reported of it. */
  lemma {:induction false} OrderKnown(log: seq<P.Entry>, order: string)
    ensures P.Slot(P.Orders, order) in P.Project(log) <==> LastOf(P.EventsOf(log), Reporting(order)).Some?
  {
    hide P.Apply;
    if log != [] {
      var init, last := log[..|log| - 1], log[|log| - 1];
      OrderKnown(init, order);
      RowsAppear(P.Project(init), last, P.Slot(P.Orders, order));
    }
  }

  lemma RowsAppear(t: P.Tables, e: P.Entry, s: P.Slot)
    requires s.table == P.Orders
    ensures s in P.Apply(t, e) <==> s in t || About(e.event, Reporting(s.key))
  {
    hide P.Writes, P.PerformAll, Aims, About;
    AimedRows(t, P.Writes(e.event), e.now, s);
    AimsTouches(e.event, s);
    ReportsTouch(e.event, s);
  }

  lemma ReportsTouch(e: Event, s: P.Slot)
    requires s.table == P.Orders
    ensures Touches(e, s) <==> About(e, Reporting(s.key))
  {
  }

  lemma {:induction false} AimedRows(t: P.Tables, ws: seq<P.Write>, now: string, s: P.Slot)
    ensures s in P.PerformAll(t, ws, now) <==> s in t || Aims(ws, s)
  {
    if ws != [] {
      var init, w := ws[..|ws| - 1], ws[|ws| - 1];
      AimedRows(t, init, now, s);
      assert ws == init + [w];
      AimsSnoc(init, w, s);
    }
  }

  lemma AimsSnoc(init: seq<P.Write>, w: P.Write, s: P.Slot)
    ensures Aims(init + [w], s) <==> Aims(init, s) || w.slot == s
  {
    var ws := init + [w];
    assert ws[|init|] == w;
    if Aims(init, s) {
      var k :| 0 <= k < |init| && init[k].slot == s;
      assert ws[k].slot == s;
    }
  }
}
