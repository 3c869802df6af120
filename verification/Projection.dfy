/**
 * Derived state from canonical events (collector/persistence/projector.py,
 * records.py): merging upserts, insert-or-ignore tables, and the law that every
 * derived cell holds the last value written to it.
 */
module Projection {
  import opened Common
  import opened Events

  datatype Table = Trades | Orders | Positions | InvalidTrades | ReconciliationEvents | MarketSnapshots

  datatype Column =
    | TradeId | PositionId | Direction | Lot | EntryPrice | ExitPrice | EntryTs | ExitTs | Mfe | Mae
    | NetPnl | TxCost | ExitReason | ValidFlag
    | BrokerOrderId | RequestedPrice | RequestedLot | OrderState | AckTs | DoneTs | BrokerResponse
    | BrokerPositionId | OpenPrice | ClosePrice | OpenTs | CloseTs | PositionState
    | InvalidReason | DetectedTs | PayloadJson
    | ReconciliationId | Ts | LocalStateJson | BrokerStateJson | Result | Details
    | SnapshotId | BarM1 | BarM5 | AtrM1 | AtrM5 | FeaturesJson
    | UpdatedAt

  datatype Value = Text(text: string) | Num(num: real) | Flag(flag: bool)

  /** A row holds its non-NULL columns. */
  type Row = map<Column, Value>

  datatype Slot = Slot(table: Table, key: string)

  type Tables = map<Slot, Row>

  datatype Write = Write(slot: Slot, cells: Row)

  datatype Entry = Entry(event: Event, now: string)

  /** The tables written by INSERT OR IGNORE; all others merge. */
  predicate FirstWins(t: Table) {
    t.ReconciliationEvents? || t.MarketSnapshots?
  }

  predicate TracksUpdates(t: Table) {
    t.Trades? || t.Orders? || t.Positions?
  }

  function OptText(c: Column, v: Option<string>): Row {
    if v.Some? then map[c := Text(v.value)] else map[]
  }

  function OptNum(c: Column, v: Option<real>): Row {
    if v.Some? then map[c := Num(v.value)] else map[]
  }

  function TradeKey(e: Event): string {
    if e.trade.Some? then e.trade.value else ""
  }

  /** A trades record always carries its default valid_flag. */
  function TradeCells(e: Event, cells: Row): Write {
    Write(Slot(Trades, TradeKey(e)), map[TradeId := Text(TradeKey(e)), ValidFlag := Flag(true)] + cells)
  }

  /** Which rows an event updates. */
  function Writes(e: Event): seq<Write> {
    match e.payload
    case OrderAcknowledged(order, state, ackTs) =>
      [Write(Slot(Orders, order),
             map[BrokerOrderId := Text(order), OrderState := Text(state), AckTs := Text(ackTs)]
             + OptText(TradeId, e.trade))]
    case OrderFilled(order, fillTs, response) =>
      [Write(Slot(Orders, order),
             map[BrokerOrderId := Text(order), OrderState := Text("FILLED"), DoneTs := Text(fillTs),
                 BrokerResponse := Text(response)])]
    case PositionOpened(position, direction, volume, openPrice, openTs) =>
      [Write(Slot(Positions, position),
             map[BrokerPositionId := Text(position), Direction := Text(direction), Lot := Num(volume),
                 OpenPrice := Num(openPrice), OpenTs := Text(openTs), PositionState := Text("OPEN")]
             + OptText(TradeId, e.trade)),
       TradeCells(e, map[PositionId := Text(position), Direction := Text(direction), Lot := Num(volume),
                         EntryPrice := Num(openPrice), EntryTs := Text(openTs)])]
    case PositionUpdated(mfe, mae) =>
      [TradeCells(e, map[Mfe := Num(mfe), Mae := Num(mae)])]
    case PositionClosed(position, exitPrice, exitTs, netPnl, txCost, exitReason) =>
      [Write(Slot(Positions, position),
             map[BrokerPositionId := Text(position), ClosePrice := Num(exitPrice), CloseTs := Text(exitTs),
                 PositionState := Text("CLOSED")]),
       TradeCells(e, map[ExitPrice := Num(exitPrice), ExitTs := Text(exitTs), NetPnl := Num(netPnl),
                         TxCost := Num(txCost), ExitReason := Text(exitReason)])]
    case RiskGate(reject, reason, json) =>
      if !reject then []
      else [Write(Slot(InvalidTrades, TradeKey(e)),
                  map[TradeId := Text(TradeKey(e)), InvalidReason := Text(reason), DetectedTs := Text(e.tsCollected),
                      PayloadJson := Text(json)])]
    case Reconciliation(recId, ts, local, remote, result, details) =>
      [Write(Slot(ReconciliationEvents, recId),
             map[ReconciliationId := Text(recId), Ts := Text(ts), LocalStateJson := Text(local),
                 BrokerStateJson := Text(remote), Result := Text(result), Details := Text(details)]
             + OptText(TradeId, e.trade))]
    case ContextBuilt(snapshotId, m1, m5, atrM1, atrM5, features) =>
      [Write(Slot(MarketSnapshots, snapshotId),
             map[SnapshotId := Text(snapshotId), Ts := Text(e.tsEvent), BarM1 := Text(m1), BarM5 := Text(m5),
                 AtrM1 := Num(atrM1)]
             + OptText(TradeId, e.trade) + OptNum(AtrM5, atrM5) + OptText(FeaturesJson, features))]
    case _ => []
  }

  /** One row: insert, or merge the given columns into what is there; first row wins where ignored. */
  function Perform(t: Tables, w: Write, now: string): Tables {
    if FirstWins(w.slot.table) then
      if w.slot in t then t else t[w.slot := w.cells]
    else
      var row: Row := if w.slot in t then t[w.slot] else map[];
      var stamp: Row := if TracksUpdates(w.slot.table) then map[UpdatedAt := Text(now)] else map[];
      t[w.slot := row + w.cells + stamp]
  }

  function PerformAll(t: Tables, ws: seq<Write>, now: string): Tables {
    if ws == [] then t else Perform(PerformAll(t, ws[..|ws| - 1], now), ws[|ws| - 1], now)
  }

  function Apply(t: Tables, entry: Entry): Tables {
    PerformAll(t, Writes(entry.event), entry.now)
  }

  function Project(log: seq<Entry>): Tables {
    if log == [] then map[] else Apply(Project(log[..|log| - 1]), log[|log| - 1])
  }

  // ------------------------------------------------------- the per-cell spec

  function EventsOf(log: seq<Entry>): seq<Event> {
    if log == [] then [] else EventsOf(log[..|log| - 1]) + [log[|log| - 1].event]
  }

  function Cell(t: Tables, s: Slot, c: Column): Option<Value> {
    if s in t && c in t[s] then Some(t[s][c]) else None
  }

  function RowAt(t: Tables, s: Slot): Option<Row> {
    if s in t then Some(t[s]) else None
  }

  /** What a list of writes puts into a cell, the last write winning. */
  function Put(ws: seq<Write>, s: Slot, c: Column): Option<Value> {
    if ws == [] then None
    else
      var w := ws[|ws| - 1];
      if w.slot == s && c in w.cells then Some(w.cells[c]) else Put(ws[..|ws| - 1], s, c)
  }

  function LastWrite(events: seq<Event>, s: Slot, c: Column): Option<Value> {
    if events == [] then None
    else
      var now := Put(Writes(events[|events| - 1]), s, c);
      if now.Some? then now else LastWrite(events[..|events| - 1], s, c)
  }

  /** The row a list of writes offers for a slot, the first offer winning. */
  function Offer(ws: seq<Write>, s: Slot): Option<Row> {
    if ws == [] then None
    else
      var before := Offer(ws[..|ws| - 1], s);
      if before.Some? then before
      else if ws[|ws| - 1].slot == s then Some(ws[|ws| - 1].cells) else None
  }

  function FirstRow(events: seq<Event>, s: Slot): Option<Row> {
    if events == [] then None
    else
      var before := FirstRow(events[..|events| - 1], s);
      if before.Some? then before else Offer(Writes(events[|events| - 1]), s)
  }

  lemma {:induction false} PerformAllCell(t: Tables, ws: seq<Write>, now: string, s: Slot, c: Column)
    requires !FirstWins(s.table) && c != UpdatedAt
    requires forall k :: 0 <= k < |ws| ==> UpdatedAt !in ws[k].cells
    ensures Cell(PerformAll(t, ws, now), s, c) == if Put(ws, s, c).Some? then Put(ws, s, c) else Cell(t, s, c)
  {
    if ws != [] { PerformAllCell(t, ws[..|ws| - 1], now, s, c); }
  }

  lemma {:induction false} PerformAllRow(t: Tables, ws: seq<Write>, now: string, s: Slot)
    requires FirstWins(s.table)
    ensures RowAt(PerformAll(t, ws, now), s) == if RowAt(t, s).Some? then RowAt(t, s) else Offer(ws, s)
  {
    if ws != [] { PerformAllRow(t, ws[..|ws| - 1], now, s); }
  }

  lemma WritesNeverStamp(e: Event)
    ensures forall k :: 0 <= k < |Writes(e)| ==> UpdatedAt !in Writes(e)[k].cells
  {
  }

  /** After projecting any log, every merged cell but updated_at holds the last value written to it. */
  lemma {:induction false} CellsHoldLastWrite(log: seq<Entry>, s: Slot, c: Column)
    requires !FirstWins(s.table) && c != UpdatedAt
    ensures Cell(Project(log), s, c) == LastWrite(EventsOf(log), s, c)
  {
    if log != [] {
      var init, last := log[..|log| - 1], log[|log| - 1];
      CellsHoldLastWrite(init, s, c);
      WritesNeverStamp(last.event);
      PerformAllCell(Project(init), Writes(last.event), last.now, s, c);
    }
  }

  /** ... and every row of an insert-or-ignore table is the first one offered. */
  lemma {:induction false} RowsHoldFirst(log: seq<Entry>, s: Slot)
    requires FirstWins(s.table)
    ensures RowAt(Project(log), s) == FirstRow(EventsOf(log), s)
  {
    if log != [] {
      var init, last := log[..|log| - 1], log[|log| - 1];
      RowsHoldFirst(init, s);
      PerformAllRow(Project(init), Writes(last.event), last.now, s);
    }
  }

  // ------------------------------------------------------------------ replay

  /** Equal in everything derived but the time of the last update. */
  ghost predicate SameCells(t: Tables, u: Tables) {
    && (forall s: Slot, c: Column :: !FirstWins(s.table) && c != UpdatedAt ==> Cell(t, s, c) == Cell(u, s, c))
    && (forall s: Slot :: FirstWins(s.table) ==> RowAt(t, s) == RowAt(u, s))
  }

  lemma {:induction false} LastWriteConcat(a: seq<Event>, b: seq<Event>, s: Slot, c: Column)
    ensures LastWrite(a + b, s, c) == if LastWrite(b, s, c).Some? then LastWrite(b, s, c) else LastWrite(a, s, c)
  {
    if b == [] {
      assert a + b == a;
    } else {
      assert (a + b)[..|a + b| - 1] == a + b[..|b| - 1];
      LastWriteConcat(a, b[..|b| - 1], s, c);
    }
  }

  lemma {:induction false} FirstRowConcat(a: seq<Event>, b: seq<Event>, s: Slot)
    ensures FirstRow(a + b, s) == if FirstRow(a, s).Some? then FirstRow(a, s) else FirstRow(b, s)
  {
    if b == [] {
      assert a + b == a;
    } else {
      assert (a + b)[..|a + b| - 1] == a + b[..|b| - 1];
      FirstRowConcat(a, b[..|b| - 1], s);
    }
  }

  lemma {:induction false} EventsOfConcat(a: seq<Entry>, b: seq<Entry>)
    ensures EventsOf(a + b) == EventsOf(a) + EventsOf(b)
  {
    if b == [] {
      assert a + b == a && EventsOf(a) + [] == EventsOf(a);
    } else {
      assert (a + b)[..|a + b| - 1] == a + b[..|b| - 1];
      EventsOfConcat(a, b[..|b| - 1]);
    }
  }

  /** Replaying any suffix of the log, at whatever later times, changes no derived cell. */
  lemma ReplaySuffixHarmless(a: seq<Entry>, b: seq<Entry>, again: seq<Entry>)
    requires EventsOf(again) == EventsOf(b)
    ensures SameCells(Project(a + b + again), Project(a + b))
  {
    var whole, events, suffix := a + b + again, EventsOf(a + b), EventsOf(b);
    EventsOfConcat(a, b);
    EventsOfConcat(a + b, again);
    forall s: Slot, c: Column | !FirstWins(s.table) && c != UpdatedAt
      ensures Cell(Project(whole), s, c) == Cell(Project(a + b), s, c)
    {
      CellsHoldLastWrite(whole, s, c);
      CellsHoldLastWrite(a + b, s, c);
      LastWriteConcat(events, suffix, s, c);
      LastWriteConcat(EventsOf(a), suffix, s, c);
    }
    forall s: Slot | FirstWins(s.table) ensures RowAt(Project(whole), s) == RowAt(Project(a + b), s) {
      RowsHoldFirst(whole, s);
      RowsHoldFirst(a + b, s);
      FirstRowConcat(events, suffix, s);
      FirstRowConcat(EventsOf(a), suffix, s);
    }
  }

  /** The current derived state already shows everything an event would write. */
  ghost predicate Shown(t: Tables, e: Event) {
    && (forall s: Slot, c: Column :: !FirstWins(s.table) && Put(Writes(e), s, c).Some? ==>
      Cell(t, s, c) == Put(Writes(e), s, c))
    && (forall s: Slot :: FirstWins(s.table) && Offer(Writes(e), s).Some? ==> s in t)
  }

  /** Projecting a single event again is harmless if and only if its values still stand. */
  lemma ReplayOneIff(log: seq<Entry>, again: Entry)
    ensures SameCells(Project(log + [again]), Project(log)) <==> Shown(Project(log), again.event)
  {
    var t, e := Project(log), again.event;
    assert (log + [again])[..|log|] == log;
    WritesNeverStamp(e);
    forall s: Slot, c: Column | !FirstWins(s.table) && c != UpdatedAt
      ensures Cell(Apply(t, again), s, c) == if Put(Writes(e), s, c).Some? then Put(Writes(e), s, c) else Cell(t, s, c)
    {
      PerformAllCell(t, Writes(e), again.now, s, c);
    }
    forall s: Slot | FirstWins(s.table)
      ensures RowAt(Apply(t, again), s) == if RowAt(t, s).Some? then RowAt(t, s) else Offer(Writes(e), s)
    {
      PerformAllRow(t, Writes(e), again.now, s);
    }
    forall s: Slot ensures Put(Writes(e), s, UpdatedAt).None? { NoStamp(Writes(e), s); }
  }

  lemma {:induction false} NoStamp(ws: seq<Write>, s: Slot)
    requires forall k :: 0 <= k < |ws| ==> UpdatedAt !in ws[k].cells
    ensures Put(ws, s, UpdatedAt).None?
  {
    if ws != [] { NoStamp(ws[..|ws| - 1], s); }
  }

  function Hit(w: Write, s: Slot, c: Column): Option<Value> {
    if w.slot == s && c in w.cells then Some(w.cells[c]) else None
  }

  lemma PutPair(v: Write, w: Write, s: Slot, c: Column)
    ensures Put([v], s, c) == Hit(v, s, c)
    ensures Put([v, w], s, c) == if Hit(w, s, c).Some? then Hit(w, s, c) else Hit(v, s, c)
  {
    assert [v, w][..1] == [v] && [v][..0] == [];
  }

  // ----------------------------------------------------------- open positions

  ghost predicate IsOpen(t: Tables, position: string) {
    Cell(t, Slot(Positions, position), PositionState) == Some(Text("OPEN"))
  }

  /** What an event says about the state of a position. */
  function StateWritten(e: Event, position: string): (r: Option<Value>)
    ensures r == Put(Writes(e), Slot(Positions, position), PositionState)
  {
    PutState(e, position);
    match e.payload
    case PositionOpened(p, _, _, _, _) => if p == position then Some(Text("OPEN")) else None
    case PositionClosed(p, _, _, _, _, _) => if p == position then Some(Text("CLOSED")) else None
    case _ => None
  }

  lemma PutState(e: Event, position: string)
    ensures Put(Writes(e), Slot(Positions, position), PositionState) ==
      match e.payload
      case PositionOpened(p, _, _, _, _) => if p == position then Some(Text("OPEN")) else None
      case PositionClosed(p, _, _, _, _, _) => if p == position then Some(Text("CLOSED")) else None
      case _ => None
  {
    var ws, s := Writes(e), Slot(Positions, position);
    if |ws| == 1 { PutPair(ws[0], ws[0], s, PositionState); }
    if |ws| == 2 { PutPair(ws[0], ws[1], s, PositionState); assert ws == [ws[0], ws[1]]; }
  }

  /** One stale POSITION_OPENED, delivered again, opens its position again, whatever closed it. */
  lemma StaleOpenReopens(log: seq<Entry>, again: Entry)
    requires again.event.payload.PositionOpened?
    ensures IsOpen(Project(log + [again]), again.event.payload.position)
    ensures SameCells(Project(log + [again]), Project(log)) ==> IsOpen(Project(log), again.event.payload.position)
  {
    var p := again.event.payload.position;
    CellsHoldLastWrite(log + [again], Slot(Positions, p), PositionState);
    EventsOfConcat(log, [again]);
    assert EventsOf([again]) == [again.event];
    LastWriteConcat(EventsOf(log), [again.event], Slot(Positions, p), PositionState);
    var w := StateWritten(again.event, p);
    assert LastWrite([again.event], Slot(Positions, p), PositionState) == w;
  }

  /** Every trades write sets valid_flag, so the projection never shows an invalid trade. */
  lemma {:induction false} ValidFlagAlwaysTrue(log: seq<Entry>, trade: string)
    ensures Cell(Project(log), Slot(Trades, trade), ValidFlag) in {None, Some(Flag(true))}
  {
    if log != [] {
      var init, last := log[..|log| - 1], log[|log| - 1];
      ValidFlagAlwaysTrue(init, trade);
      WritesNeverStamp(last.event);
      PerformAllCell(Project(init), Writes(last.event), last.now, Slot(Trades, trade), ValidFlag);
      PutValid(last.event, trade);
    }
  }

  lemma PutValid(e: Event, trade: string)
    ensures Put(Writes(e), Slot(Trades, trade), ValidFlag) in {None, Some(Flag(true))}
  {
    var ws, s := Writes(e), Slot(Trades, trade);
    if |ws| == 1 { PutPair(ws[0], ws[0], s, ValidFlag); assert ws == [ws[0]]; }
    if |ws| == 2 { PutPair(ws[0], ws[1], s, ValidFlag); assert ws == [ws[0], ws[1]]; }
  }
}
