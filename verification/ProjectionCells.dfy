/**
 * The derived tables read column by column: after any log every cell shows the
 * payload field of the event that told it last (or first, where rows are only
 * inserted), and a closed trade shows its own opening and closing.
 */
module ProjectionCells {
  import opened Common
  import opened Events
  import opened Lifecycle
  import opened LifecyclePaths
  import opened Projection
  import opened StreamProjection

  // ------------------------------------------- what one event says of one cell

  /** Events without a trade count for the trade with the empty id. */
  predicate OfTrade(e: Event, trade: string) {
    if e.trade.Some? then e.trade.value == trade else trade == ""
  }

  function Told(e: Event, s: Slot, c: Column): Option<Value> {
    match s.table
    case Trades => if OfTrade(e, s.key) then TradeTold(e.payload, s.key, c) else None
    case Positions => PositionTold(e, s.key, c)
    case Orders => OrderTold(e, s.key, c)
    case InvalidTrades =>
      if OfTrade(e, s.key) && e.payload.RiskGate? && e.payload.reject then RefusalTold(e, s.key, c) else None
    case ReconciliationEvents =>
      if e.payload.Reconciliation? && e.payload.recId == s.key then ReconciliationTold(e, c) else None
    case MarketSnapshots =>
      if e.payload.ContextBuilt? && e.payload.snapshotId == s.key then SnapshotTold(e, c) else None
  }

  function TradeTold(p: Payload, trade: string, c: Column): Option<Value> {
    match c
    case TradeId =>
      if p.PositionOpened? || p.PositionUpdated? || p.PositionClosed? then Some(Text(trade)) else None
    case ValidFlag =>
      if p.PositionOpened? || p.PositionUpdated? || p.PositionClosed? then Some(Flag(true)) else None
    case PositionId => if p.PositionOpened? then Some(Text(p.position)) else None
    case Direction => if p.PositionOpened? then Some(Text(p.direction)) else None
    case Lot => if p.PositionOpened? then Some(Num(p.volume)) else None
    case EntryPrice => if p.PositionOpened? then Some(Num(p.openPrice)) else None
    case EntryTs => if p.PositionOpened? then Some(Text(p.openTs)) else None
    case Mfe => if p.PositionUpdated? then Some(Num(p.mfe)) else None
    case Mae => if p.PositionUpdated? then Some(Num(p.mae)) else None
    case ExitPrice => if p.PositionClosed? then Some(Num(p.exitPrice)) else None
    case ExitTs => if p.PositionClosed? then Some(Text(p.exitTs)) else None
    case NetPnl => if p.PositionClosed? then Some(Num(p.netPnl)) else None
    case TxCost => if p.PositionClosed? then Some(Num(p.txCost)) else None
    case ExitReason => if p.PositionClosed? then Some(Text(p.exitReason)) else None
    case _ => None
  }

  function PositionTold(e: Event, position: string, c: Column): Option<Value> {
    var p := e.payload;
    var opens, closes := p.PositionOpened? && p.position == position, p.PositionClosed? && p.position == position;
    match c
    case BrokerPositionId => if opens || closes then Some(Text(position)) else None
    case TradeId => if opens && e.trade.Some? then Some(Text(e.trade.value)) else None
    case Direction => if opens then Some(Text(p.direction)) else None
    case Lot => if opens then Some(Num(p.volume)) else None
    case OpenPrice => if opens then Some(Num(p.openPrice)) else None
    case OpenTs => if opens then Some(Text(p.openTs)) else None
    case ClosePrice => if closes then Some(Num(p.exitPrice)) else None
    case CloseTs => if closes then Some(Text(p.exitTs)) else None
    case PositionState => if opens then Some(Text("OPEN")) else if closes then Some(Text("CLOSED")) else None
    case _ => None
  }

  function OrderTold(e: Event, order: string, c: Column): Option<Value> {
    var p := e.payload;
    var acked, filled := p.OrderAcknowledged? && p.order == order, p.OrderFilled? && p.order == order;
    match c
    case BrokerOrderId => if acked || filled then Some(Text(order)) else None
    case TradeId => if acked && e.trade.Some? then Some(Text(e.trade.value)) else None
    case OrderState => if acked then Some(Text(p.brokerState)) else if filled then Some(Text("FILLED")) else None
    case AckTs => if acked then Some(Text(p.ackTs)) else None
    case DoneTs => if filled then Some(Text(p.fillTs)) else None
    case BrokerResponse => if filled then Some(Text(p.response)) else None
    case _ => None
  }

  function RefusalTold(e: Event, trade: string, c: Column): Option<Value>
    requires e.payload.RiskGate?
  {
    match c
    case TradeId => Some(Text(trade))
    case InvalidReason => Some(Text(e.payload.reason))
    case DetectedTs => Some(Text(e.tsCollected))
    case PayloadJson => Some(Text(e.payload.json))
    case _ => None
  }

  function ReconciliationTold(e: Event, c: Column): Option<Value>
    requires e.payload.Reconciliation?
  {
    match c
    case ReconciliationId => Some(Text(e.payload.recId))
    case Ts => Some(Text(e.payload.ts))
    case LocalStateJson => Some(Text(e.payload.localState))
    case BrokerStateJson => Some(Text(e.payload.remoteState))
    case Result => Some(Text(e.payload.result))
    case Details => Some(Text(e.payload.details))
    case TradeId => if e.trade.Some? then Some(Text(e.trade.value)) else None
    case _ => None
  }

  function SnapshotTold(e: Event, c: Column): Option<Value>
    requires e.payload.ContextBuilt?
  {
    match c
    case SnapshotId => Some(Text(e.payload.snapshotId))
    case Ts => Some(Text(e.tsEvent))
    case BarM1 => Some(Text(e.payload.m1))
    case BarM5 => Some(Text(e.payload.m5))
    case AtrM1 => Some(Num(e.payload.atrM1))
    case AtrM5 => if e.payload.atrM5.Some? then Some(Num(e.payload.atrM5.value)) else None
    case FeaturesJson => if e.payload.features.Some? then Some(Text(e.payload.features.value)) else None
    case TradeId => if e.trade.Some? then Some(Text(e.trade.value)) else None
    case _ => None
  }

  /** The tables whose rows are only ever inserted; all others are merged into. */
  predicate InsertOnly(s: Slot) {
    s.table == ReconciliationEvents || s.table == MarketSnapshots
  }

  lemma PutTold(e: Event, s: Slot, c: Column)
    requires !InsertOnly(s)
    ensures Put(Writes(e), s, c) == Told(e, s, c)
  {
    hide Writes, Put, Told;
    match e.payload
    case PositionOpened(_, _, _, _, _) => OpenedTold(e, s, c);
    case PositionClosed(_, _, _, _, _, _) => ClosedTold(e, s, c);
    case OrderAcknowledged(_, _, _) => OrderEventTold(e, s, c);
    case OrderFilled(_, _, _) => OrderEventTold(e, s, c);
    case _ => OtherTold(e, s, c);
  }

  /** A trades record and its defaults. */
  lemma TradeHit(e: Event, cells: Row, s: Slot, c: Column)
    ensures Hit(TradeCells(e, cells), s, c) ==
      if !s.table.Trades? || !OfTrade(e, s.key) then None
      else if c in cells then Some(cells[c])
      else if c == TradeId then Some(Text(s.key)) else if c == ValidFlag then Some(Flag(true)) else None
  {
    var defaults := map[TradeId := Text(TradeKey(e)), ValidFlag := Flag(true)];
    assert c in defaults + cells <==> c in cells || c in defaults;
  }

  lemma Silent(e: Event, key: string, c: Column)
    ensures !e.payload.OrderAcknowledged? && !e.payload.OrderFilled? ==> OrderTold(e, key, c).None?
    ensures !e.payload.PositionOpened? && !e.payload.PositionClosed? ==> PositionTold(e, key, c).None?
    ensures !e.payload.PositionOpened? && !e.payload.PositionUpdated? && !e.payload.PositionClosed? ==>
      TradeTold(e.payload, key, c).None?
  {
  }

  lemma OpenedTold(e: Event, s: Slot, c: Column)
    requires !InsertOnly(s) && e.payload.PositionOpened?
    ensures Put(Writes(e), s, c) == Told(e, s, c)
  {
    hide Put, TradeCells, OptText, Hit, TradeTold, PositionTold, OrderTold;
    var ws, p := Writes(e), e.payload;
    PutPair(ws[0], ws[1], s, c);
    assert ws == [ws[0], ws[1]];
    var cells: Row := map[PositionId := Text(p.position), Direction := Text(p.direction), Lot := Num(p.volume),
                          EntryPrice := Num(p.openPrice), EntryTs := Text(p.openTs)];
    TradeHit(e, cells, s, c);
    OpenedTradeTold(p, cells, s.key, c);
    OpenedPositionHit(e, s, c);
    Silent(e, s.key, c);
  }

  lemma OpenedTradeTold(p: Payload, cells: Row, trade: string, c: Column)
    requires p.PositionOpened?
    requires cells == map[PositionId := Text(p.position), Direction := Text(p.direction), Lot := Num(p.volume),
                          EntryPrice := Num(p.openPrice), EntryTs := Text(p.openTs)]
    ensures TradeTold(p, trade, c) ==
      if c in cells then Some(cells[c])
      else if c == TradeId then Some(Text(trade)) else if c == ValidFlag then Some(Flag(true)) else None
  {
  }

  lemma OpenedPositionHit(e: Event, s: Slot, c: Column)
    requires e.payload.PositionOpened?
    ensures Hit(Writes(e)[0], s, c) == if s.table.Positions? then PositionTold(e, s.key, c) else None
  {
    hide TradeCells, OptText, PositionTold;
    var p := e.payload;
    var cells: Row := map[BrokerPositionId := Text(p.position), Direction := Text(p.direction), Lot := Num(p.volume),
                          OpenPrice := Num(p.openPrice), OpenTs := Text(p.openTs), PositionState := Text("OPEN")];
    OpenedPositionBase(e, cells, s.key, c);
    WithTrade(cells, e.trade, c);
  }

  lemma OpenedPositionBase(e: Event, cells: Row, position: string, c: Column)
    requires e.payload.PositionOpened?
    requires var p := e.payload;
      cells == map[BrokerPositionId := Text(p.position), Direction := Text(p.direction), Lot := Num(p.volume),
                   OpenPrice := Num(p.openPrice), OpenTs := Text(p.openTs), PositionState := Text("OPEN")]
    ensures TradeId !in cells
    ensures PositionTold(e, position, c) ==
      if e.payload.position != position then None
      else if c == TradeId then (if e.trade.Some? then Some(Text(e.trade.value)) else None)
      else if c in cells then Some(cells[c]) else None
  {
  }

  lemma WithTrade(cells: Row, trade: Option<string>, c: Column)
    ensures var row := cells + OptText(TradeId, trade);
      && (c == TradeId && trade.Some? ==> c in row && row[c] == Text(trade.value))
      && (c != TradeId || trade.None? ==> (c in row <==> c in cells) && (c in row ==> row[c] == cells[c]))
  {
  }

  lemma ClosedTold(e: Event, s: Slot, c: Column)
    requires !InsertOnly(s) && e.payload.PositionClosed?
    ensures Put(Writes(e), s, c) == Told(e, s, c)
  {
    hide Put, TradeCells, Hit, TradeTold, PositionTold, OrderTold;
    var ws, p := Writes(e), e.payload;
    PutPair(ws[0], ws[1], s, c);
    assert ws == [ws[0], ws[1]];
    var cells: Row := map[ExitPrice := Num(p.exitPrice), ExitTs := Text(p.exitTs), NetPnl := Num(p.netPnl),
                          TxCost := Num(p.txCost), ExitReason := Text(p.exitReason)];
    TradeHit(e, cells, s, c);
    ClosedTradeTold(p, cells, s.key, c);
    ClosedPositionHit(e, s, c);
    Silent(e, s.key, c);
  }

  lemma ClosedTradeTold(p: Payload, cells: Row, trade: string, c: Column)
    requires p.PositionClosed?
    requires cells == map[ExitPrice := Num(p.exitPrice), ExitTs := Text(p.exitTs), NetPnl := Num(p.netPnl),
                          TxCost := Num(p.txCost), ExitReason := Text(p.exitReason)]
    ensures TradeTold(p, trade, c) ==
      if c in cells then Some(cells[c])
      else if c == TradeId then Some(Text(trade)) else if c == ValidFlag then Some(Flag(true)) else None
  {
  }

  lemma ClosedPositionHit(e: Event, s: Slot, c: Column)
    requires e.payload.PositionClosed?
    ensures Hit(Writes(e)[0], s, c) == if s.table.Positions? then PositionTold(e, s.key, c) else None
  {
    hide TradeCells;
  }

  lemma OrderEventTold(e: Event, s: Slot, c: Column)
    requires !InsertOnly(s) && (e.payload.OrderAcknowledged? || e.payload.OrderFilled?)
    ensures Put(Writes(e), s, c) == Told(e, s, c)
  {
    hide Put, TradeTold, PositionTold, OrderTold, Hit;
    var ws := Writes(e);
    PutPair(ws[0], ws[0], s, c);
    assert ws == [ws[0]];
    Silent(e, s.key, c);
    if e.payload.OrderAcknowledged? { AcknowledgedHit(e, s, c); } else { FilledHit(e, s, c); }
  }

  lemma AcknowledgedHit(e: Event, s: Slot, c: Column)
    requires e.payload.OrderAcknowledged?
    ensures Hit(Writes(e)[0], s, c) == if s.table.Orders? then OrderTold(e, s.key, c) else None
  {
  }

  lemma FilledHit(e: Event, s: Slot, c: Column)
    requires e.payload.OrderFilled?
    ensures Hit(Writes(e)[0], s, c) == if s.table.Orders? then OrderTold(e, s.key, c) else None
  {
  }

  lemma OtherTold(e: Event, s: Slot, c: Column)
    requires !InsertOnly(s) && !e.payload.PositionOpened? && !e.payload.PositionClosed?
    requires !e.payload.OrderAcknowledged? && !e.payload.OrderFilled?
    ensures Put(Writes(e), s, c) == Told(e, s, c)
  {
    hide Put, TradeTold, PositionTold, OrderTold, RefusalTold, Hit, TradeCells, OptText, OptNum;
    var ws, p := Writes(e), e.payload;
    Silent(e, s.key, c);
    if ws == [] {
      NothingPut(s, c);
    } else {
      PutPair(ws[0], ws[0], s, c);
      assert ws == [ws[0]];
      if p.PositionUpdated? {
        TradeHit(e, map[Mfe := Num(p.mfe), Mae := Num(p.mae)], s, c);
        UpdatedTradeTold(p, s.key, c);
      } else if p.RiskGate? {
        RefusedHit(e, s, c);
      } else {
        HitsOwnTable(ws[0], s, c);
      }
    }
  }

  lemma HitsOwnTable(w: Write, s: Slot, c: Column)
    ensures w.slot.table != s.table ==> Hit(w, s, c).None?
  {
  }

  lemma UpdatedTradeTold(p: Payload, trade: string, c: Column)
    requires p.PositionUpdated?
    ensures TradeTold(p, trade, c) ==
      if c == Mfe then Some(Num(p.mfe)) else if c == Mae then Some(Num(p.mae))
      else if c == TradeId then Some(Text(trade)) else if c == ValidFlag then Some(Flag(true)) else None
  {
  }

  lemma RefusedHit(e: Event, s: Slot, c: Column)
    requires e.payload.RiskGate? && e.payload.reject
    ensures Hit(Writes(e)[0], s, c) ==
      if s.table.InvalidTrades? && OfTrade(e, s.key) then RefusalTold(e, s.key, c) else None
  {
  }

  lemma NothingPut(s: Slot, c: Column)
    ensures Put([], s, c).None?
  {
  }

  // --------------------------------------------- what the tables say after a log

  /** The value a cell was told last. */
  function LastTold(events: seq<Event>, s: Slot, c: Column): Option<Value> {
    if events == [] then None
    else
      var now := Told(events[|events| - 1], s, c);
      if now.Some? then now else LastTold(events[..|events| - 1], s, c)
  }

  /** After any log every merged cell, whatever table and column, shows what it was told last, and is
      absent if nothing told it. */
  lemma {:induction false} CellsTell(log: seq<Entry>, s: Slot, c: Column)
    requires !InsertOnly(s) && c != UpdatedAt
    ensures Cell(Project(log), s, c) == LastTold(EventsOf(log), s, c)
  {
    hide Told, Writes, Put;
    if log != [] {
      var init, last := log[..|log| - 1], log[|log| - 1];
      CellsTell(init, s, c);
      WritesNeverStamp(last.event);
      PerformAllCell(Project(init), Writes(last.event), last.now, s, c);
      PutTold(last.event, s, c);
    }
  }

  /** The events that update a row of the trades, orders or positions table. */
  predicate Touches(e: Event, s: Slot) {
    var p := e.payload;
    match s.table
    case Trades => OfTrade(e, s.key) && (p.PositionOpened? || p.PositionUpdated? || p.PositionClosed?)
    case Orders => (p.OrderAcknowledged? && p.order == s.key) || (p.OrderFilled? && p.order == s.key)
    case Positions => (p.PositionOpened? && p.position == s.key) || (p.PositionClosed? && p.position == s.key)
    case _ => false
  }

  function LastTouch(log: seq<Entry>, s: Slot): Option<Value> {
    if log == [] then None
    else if Touches(log[|log| - 1].event, s) then Some(Text(log[|log| - 1].now))
    else LastTouch(log[..|log| - 1], s)
  }

  ghost predicate Aims(ws: seq<Write>, s: Slot) {
    exists k :: 0 <= k < |ws| && ws[k].slot == s
  }

  lemma {:induction false} StampAll(t: Tables, ws: seq<Write>, now: string, s: Slot)
    requires !InsertOnly(s) && forall k :: 0 <= k < |ws| ==> UpdatedAt !in ws[k].cells
    ensures Cell(PerformAll(t, ws, now), s, UpdatedAt) ==
      if TracksUpdates(s.table) && Aims(ws, s) then Some(Text(now)) else Cell(t, s, UpdatedAt)
  {
    if ws != [] {
      var init := ws[..|ws| - 1];
      StampAll(t, init, now, s);
      assert Aims(ws, s) <==> Aims(init, s) || ws[|ws| - 1].slot == s by {
        if Aims(init, s) {
          var k :| 0 <= k < |init| && init[k].slot == s;
          assert ws[k].slot == s;
        }
        if Aims(ws, s) && ws[|ws| - 1].slot != s {
          var k :| 0 <= k < |ws| && ws[k].slot == s;
          assert init[k].slot == s;
        }
      }
    }
  }

  lemma AimsTouches(e: Event, s: Slot)
    requires TracksUpdates(s.table)
    ensures Aims(Writes(e), s) <==> Touches(e, s)
  {
    hide OptText, OptNum;
    var ws := Writes(e);
    if |ws| == 1 { assert Aims(ws, s) <==> ws[0].slot == s; }
    if |ws| == 2 { assert Aims(ws, s) <==> ws[0].slot == s || ws[1].slot == s; }
  }

  /** A row of the trades, orders or positions table is stamped with the time of its last update; no
      other merged row ever is. */
  lemma {:induction false} StampTells(log: seq<Entry>, s: Slot)
    requires !InsertOnly(s)
    ensures Cell(Project(log), s, UpdatedAt) == LastTouch(log, s)
  {
    hide Writes, Aims, Touches;
    if log != [] {
      var init, last := log[..|log| - 1], log[|log| - 1];
      StampTells(init, s);
      WritesNeverStamp(last.event);
      StampAll(Project(init), Writes(last.event), last.now, s);
      if TracksUpdates(s.table) { AimsTouches(last.event, s); } else { NoTouch(last.event, s); }
    }
  }

  lemma NoTouch(e: Event, s: Slot)
    requires s.table.InvalidTrades?
    ensures !Touches(e, s)
  {
  }

  /** The reconciliation or context event that names a row of an insert-only table. */
  predicate Names(e: Event, s: Slot) {
    || (s.table.ReconciliationEvents? && e.payload.Reconciliation? && e.payload.recId == s.key)
    || (s.table.MarketSnapshots? && e.payload.ContextBuilt? && e.payload.snapshotId == s.key)
  }

  function FirstNaming(events: seq<Event>, s: Slot): Option<Event> {
    if events == [] then None
    else
      var before := FirstNaming(events[..|events| - 1], s);
      if before.Some? then before
      else if Names(events[|events| - 1], s) then Some(events[|events| - 1]) else None
  }

  lemma OfferTold(e: Event, s: Slot, c: Column)
    requires InsertOnly(s)
    ensures Offer(Writes(e), s).Some? <==> Names(e, s)
    ensures Names(e, s) ==>
      var row := Offer(Writes(e), s).value;
      Told(e, s, c) == if c in row then Some(row[c]) else None
  {
    hide Writes, Offer, Told;
    if e.payload.Reconciliation? {
      ReconciliationOffer(e, s, c);
    } else if e.payload.ContextBuilt? {
      SnapshotOffer(e, s, c);
    } else {
      NoOffer(e, s);
    }
  }

  lemma OfferOne(w: Write, s: Slot)
    ensures Offer([w], s) == if w.slot == s then Some(w.cells) else None
  {
    assert [w][..0] == [];
  }

  lemma ReconciliationOffer(e: Event, s: Slot, c: Column)
    requires InsertOnly(s) && e.payload.Reconciliation?
    ensures Offer(Writes(e), s).Some? <==> Names(e, s)
    ensures Names(e, s) ==>
      var row := Offer(Writes(e), s).value;
      Told(e, s, c) == if c in row then Some(row[c]) else None
  {
    hide Offer, OptText, ReconciliationTold;
    var w, p := Writes(e)[0], e.payload;
    assert Writes(e) == [w];
    OfferOne(w, s);
    var cells: Row :=
      map[ReconciliationId := Text(p.recId), Ts := Text(p.ts), LocalStateJson := Text(p.localState),
          BrokerStateJson := Text(p.remoteState), Result := Text(p.result), Details := Text(p.details)];
    ReconciliationBase(e, cells, c);
    WithTrade(cells, e.trade, c);
  }

  lemma ReconciliationBase(e: Event, cells: Row, c: Column)
    requires e.payload.Reconciliation?
    requires var p := e.payload;
      cells == map[ReconciliationId := Text(p.recId), Ts := Text(p.ts), LocalStateJson := Text(p.localState),
                   BrokerStateJson := Text(p.remoteState), Result := Text(p.result), Details := Text(p.details)]
    ensures TradeId !in cells
    ensures ReconciliationTold(e, c) ==
      if c == TradeId then (if e.trade.Some? then Some(Text(e.trade.value)) else None)
      else if c in cells then Some(cells[c]) else None
  {
  }

  lemma SnapshotOffer(e: Event, s: Slot, c: Column)
    requires InsertOnly(s) && e.payload.ContextBuilt?
    ensures Offer(Writes(e), s).Some? <==> Names(e, s)
    ensures Names(e, s) ==>
      var row := Offer(Writes(e), s).value;
      Told(e, s, c) == if c in row then Some(row[c]) else None
  {
    hide Offer, OptText, OptNum, SnapshotTold;
    var w, p := Writes(e)[0], e.payload;
    assert Writes(e) == [w];
    OfferOne(w, s);
    var cells: Row :=
      map[SnapshotId := Text(p.snapshotId), Ts := Text(e.tsEvent), BarM1 := Text(p.m1), BarM5 := Text(p.m5),
          AtrM1 := Num(p.atrM1)];
    SnapshotBase(e, cells, c);
    WithTrade(cells, e.trade, c);
    WithOptions(cells + OptText(TradeId, e.trade), p.atrM5, p.features, c);
  }

  lemma SnapshotBase(e: Event, cells: Row, c: Column)
    requires e.payload.ContextBuilt?
    requires var p := e.payload;
      cells == map[SnapshotId := Text(p.snapshotId), Ts := Text(e.tsEvent), BarM1 := Text(p.m1), BarM5 := Text(p.m5),
                   AtrM1 := Num(p.atrM1)]
    ensures TradeId !in cells && AtrM5 !in cells && FeaturesJson !in cells
    ensures SnapshotTold(e, c) ==
      if c == TradeId then (if e.trade.Some? then Some(Text(e.trade.value)) else None)
      else if c == AtrM5 then (if e.payload.atrM5.Some? then Some(Num(e.payload.atrM5.value)) else None)
      else if c == FeaturesJson then (if e.payload.features.Some? then Some(Text(e.payload.features.value)) else None)
      else if c in cells then Some(cells[c]) else None
  {
  }

  lemma WithOptions(cells: Row, atr: Option<real>, features: Option<string>, c: Column)
    ensures var row := cells + OptNum(AtrM5, atr) + OptText(FeaturesJson, features);
      && (c == AtrM5 && atr.Some? ==> c in row && row[c] == Num(atr.value))
      && (c == FeaturesJson && features.Some? ==> c in row && row[c] == Text(features.value))
      && ((c == AtrM5 ==> atr.None?) && (c == FeaturesJson ==> features.None?) ==>
            (c in row <==> c in cells) && (c in row ==> row[c] == cells[c]))
  {
  }

  lemma NoOffer(e: Event, s: Slot)
    requires InsertOnly(s) && !e.payload.Reconciliation? && !e.payload.ContextBuilt?
    ensures Offer(Writes(e), s).None?
  {
    var ws := Writes(e);
    if |ws| == 2 { assert ws[..1] == [ws[0]]; OfferOne(ws[0], s); }
    if |ws| == 1 { OfferOne(ws[0], s); }
  }

  /** A row of an insert-only table shows, column by column, the first event that named it. */
  lemma {:induction false} RowsTell(log: seq<Entry>, s: Slot, c: Column)
    requires InsertOnly(s)
    ensures var e := FirstNaming(EventsOf(log), s);
      && (s in Project(log) <==> e.Some?)
      && Cell(Project(log), s, c) == if e.None? then None else Told(e.value, s, c)
  {
    hide Told, Writes, Offer;
    if log != [] {
      var init, last := log[..|log| - 1], log[|log| - 1];
      RowsTell(init, s, c);
      PerformAllRow(Project(init), Writes(last.event), last.now, s);
      OfferTold(last.event, s, c);
      assert RowAt(Project(log), s) == if RowAt(Project(init), s).Some? then RowAt(Project(init), s)
        else Offer(Writes(last.event), s);
    }
  }

  // --------------------------------------------------- rows by their last events

  datatype Topic =
    | Opening(trade: string) | Updating(trade: string) | Closing(trade: string) | Refusing(trade: string)
    | OpeningOf(position: string) | ClosingOf(position: string) | Naming(position: string)
    | Acknowledging(order: string) | Filling(order: string) | Reporting(order: string)

  predicate About(e: Event, topic: Topic) {
    var p := e.payload;
    match topic
    case Opening(trade) => p.PositionOpened? && OfTrade(e, trade)
    case Updating(trade) => p.PositionUpdated? && OfTrade(e, trade)
    case Closing(trade) => p.PositionClosed? && OfTrade(e, trade)
    case Refusing(trade) => p.RiskGate? && p.reject && OfTrade(e, trade)
    case OpeningOf(position) => p.PositionOpened? && p.position == position
    case ClosingOf(position) => p.PositionClosed? && p.position == position
    case Naming(position) => (p.PositionOpened? || p.PositionClosed?) && p.position == position
    case Acknowledging(order) => p.OrderAcknowledged? && p.order == order
    case Filling(order) => p.OrderFilled? && p.order == order
    case Reporting(order) => (p.OrderAcknowledged? || p.OrderFilled?) && p.order == order
  }

  /** The last event about a topic. */
  function LastOf(events: seq<Event>, topic: Topic): (last: Option<Event>)
    ensures last.Some? ==> About(last.value, topic)
  {
    if events == [] then None
    else if About(events[|events| - 1], topic) then Some(events[|events| - 1])
    else LastOf(events[..|events| - 1], topic)
  }

  lemma {:induction false} ToldByLast(events: seq<Event>, topic: Topic, s: Slot, c: Column)
    requires forall e :: Told(e, s, c).Some? <==> About(e, topic)
    ensures var last := LastOf(events, topic);
      LastTold(events, s, c) == if last.None? then None else Told(last.value, s, c)
  {
    hide Told, About;
    if events != [] { ToldByLast(events[..|events| - 1], topic, s, c); }
  }

  /** After any log a merged cell with one topic shows what the last event about it says. */
  lemma CellByLast(log: seq<Entry>, topic: Topic, s: Slot, c: Column)
    requires !InsertOnly(s) && c != UpdatedAt
    requires forall e :: Told(e, s, c).Some? <==> About(e, topic)
    ensures var last := LastOf(EventsOf(log), topic);
      Cell(Project(log), s, c) == if last.None? then None else Told(last.value, s, c)
  {
    hide Told, About;
    CellsTell(log, s, c);
    ToldByLast(EventsOf(log), topic, s, c);
  }

  /** A trade's row shows its last opening, its last update and its last closing. */
  lemma TradeRowTells(log: seq<Entry>, trade: string)
    ensures var t, s, events := Project(log), Slot(Trades, trade), EventsOf(log);
      var o, u, x := LastOf(events, Opening(trade)), LastOf(events, Updating(trade)), LastOf(events, Closing(trade));
      && Cell(t, s, PositionId) == (if o.Some? then Some(Text(o.value.payload.position)) else None)
      && Cell(t, s, Direction) == (if o.Some? then Some(Text(o.value.payload.direction)) else None)
      && Cell(t, s, Lot) == (if o.Some? then Some(Num(o.value.payload.volume)) else None)
      && Cell(t, s, EntryPrice) == (if o.Some? then Some(Num(o.value.payload.openPrice)) else None)
      && Cell(t, s, EntryTs) == (if o.Some? then Some(Text(o.value.payload.openTs)) else None)
      && Cell(t, s, Mfe) == (if u.Some? then Some(Num(u.value.payload.mfe)) else None)
      && Cell(t, s, Mae) == (if u.Some? then Some(Num(u.value.payload.mae)) else None)
      && Cell(t, s, ExitPrice) == (if x.Some? then Some(Num(x.value.payload.exitPrice)) else None)
      && Cell(t, s, ExitTs) == (if x.Some? then Some(Text(x.value.payload.exitTs)) else None)
      && Cell(t, s, NetPnl) == (if x.Some? then Some(Num(x.value.payload.netPnl)) else None)
      && Cell(t, s, TxCost) == (if x.Some? then Some(Num(x.value.payload.txCost)) else None)
      && Cell(t, s, ExitReason) == (if x.Some? then Some(Text(x.value.payload.exitReason)) else None)
  {
    hide Project, EventsOf, LastOf, Cell;
    var s := Slot(Trades, trade);
    OpeningCells(log, trade);
    CellByLast(log, Updating(trade), s, Mfe);
    CellByLast(log, Updating(trade), s, Mae);
    ClosingCells(log, trade);
  }

  lemma ClosingCells(log: seq<Entry>, trade: string)
    ensures var t, s, x := Project(log), Slot(Trades, trade), LastOf(EventsOf(log), Closing(trade));
      && Cell(t, s, ExitPrice) == (if x.Some? then Some(Num(x.value.payload.exitPrice)) else None)
      && Cell(t, s, ExitTs) == (if x.Some? then Some(Text(x.value.payload.exitTs)) else None)
      && Cell(t, s, NetPnl) == (if x.Some? then Some(Num(x.value.payload.netPnl)) else None)
      && Cell(t, s, TxCost) == (if x.Some? then Some(Num(x.value.payload.txCost)) else None)
      && Cell(t, s, ExitReason) == (if x.Some? then Some(Text(x.value.payload.exitReason)) else None)
  {
    hide Project, EventsOf, LastOf, Cell;
    var s := Slot(Trades, trade);
    CellByLast(log, Closing(trade), s, ExitPrice);
    CellByLast(log, Closing(trade), s, ExitTs);
    CellByLast(log, Closing(trade), s, NetPnl);
    CellByLast(log, Closing(trade), s, TxCost);
    CellByLast(log, Closing(trade), s, ExitReason);
  }

  lemma OpeningCells(log: seq<Entry>, trade: string)
    ensures var t, s, o := Project(log), Slot(Trades, trade), LastOf(EventsOf(log), Opening(trade));
      && Cell(t, s, PositionId) == (if o.Some? then Some(Text(o.value.payload.position)) else None)
      && Cell(t, s, Direction) == (if o.Some? then Some(Text(o.value.payload.direction)) else None)
      && Cell(t, s, Lot) == (if o.Some? then Some(Num(o.value.payload.volume)) else None)
      && Cell(t, s, EntryPrice) == (if o.Some? then Some(Num(o.value.payload.openPrice)) else None)
      && Cell(t, s, EntryTs) == (if o.Some? then Some(Text(o.value.payload.openTs)) else None)
  {
    hide Project, EventsOf, LastOf, Cell;
    var s := Slot(Trades, trade);
    CellByLast(log, Opening(trade), s, PositionId);
    CellByLast(log, Opening(trade), s, Direction);
    CellByLast(log, Opening(trade), s, Lot);
    CellByLast(log, Opening(trade), s, EntryPrice);
    CellByLast(log, Opening(trade), s, EntryTs);
  }

  /** A position's row shows its last opening and its last closing, and is OPEN or CLOSED by the later
      of the two. */
  lemma PositionRowTells(log: seq<Entry>, position: string)
    ensures var t, s, events := Project(log), Slot(Positions, position), EventsOf(log);
      var o, x, n := LastOf(events, OpeningOf(position)), LastOf(events, ClosingOf(position)),
        LastOf(events, Naming(position));
      && Cell(t, s, Direction) == (if o.Some? then Some(Text(o.value.payload.direction)) else None)
      && Cell(t, s, Lot) == (if o.Some? then Some(Num(o.value.payload.volume)) else None)
      && Cell(t, s, OpenPrice) == (if o.Some? then Some(Num(o.value.payload.openPrice)) else None)
      && Cell(t, s, OpenTs) == (if o.Some? then Some(Text(o.value.payload.openTs)) else None)
      && Cell(t, s, ClosePrice) == (if x.Some? then Some(Num(x.value.payload.exitPrice)) else None)
      && Cell(t, s, CloseTs) == (if x.Some? then Some(Text(x.value.payload.exitTs)) else None)
      && Cell(t, s, PositionState) ==
        (if n.None? then None else Some(Text(if n.value.payload.PositionOpened? then "OPEN" else "CLOSED")))
  {
    hide Project, EventsOf, LastOf, Cell;
    var s := Slot(Positions, position);
    PositionOpeningCells(log, position);
    CellByLast(log, ClosingOf(position), s, ClosePrice);
    CellByLast(log, ClosingOf(position), s, CloseTs);
    CellByLast(log, Naming(position), s, PositionState);
  }

  lemma PositionOpeningCells(log: seq<Entry>, position: string)
    ensures var t, s, o := Project(log), Slot(Positions, position), LastOf(EventsOf(log), OpeningOf(position));
      && Cell(t, s, Direction) == (if o.Some? then Some(Text(o.value.payload.direction)) else None)
      && Cell(t, s, Lot) == (if o.Some? then Some(Num(o.value.payload.volume)) else None)
      && Cell(t, s, OpenPrice) == (if o.Some? then Some(Num(o.value.payload.openPrice)) else None)
      && Cell(t, s, OpenTs) == (if o.Some? then Some(Text(o.value.payload.openTs)) else None)
  {
    hide Project, EventsOf, LastOf, Cell;
    var s := Slot(Positions, position);
    CellByLast(log, OpeningOf(position), s, Direction);
    CellByLast(log, OpeningOf(position), s, Lot);
    CellByLast(log, OpeningOf(position), s, OpenPrice);
    CellByLast(log, OpeningOf(position), s, OpenTs);
  }

  /** An order's row shows its last acknowledgement and its last fill. */
  lemma OrderRowTells(log: seq<Entry>, order: string)
    ensures var t, s, events := Project(log), Slot(Orders, order), EventsOf(log);
      var a, f, r := LastOf(events, Acknowledging(order)), LastOf(events, Filling(order)),
        LastOf(events, Reporting(order));
      && Cell(t, s, AckTs) == (if a.Some? then Some(Text(a.value.payload.ackTs)) else None)
      && Cell(t, s, DoneTs) == (if f.Some? then Some(Text(f.value.payload.fillTs)) else None)
      && Cell(t, s, BrokerResponse) == (if f.Some? then Some(Text(f.value.payload.response)) else None)
      && Cell(t, s, OrderState) ==
        (if r.None? then None
         else if r.value.payload.OrderFilled? then Some(Text("FILLED")) else Some(Text(r.value.payload.brokerState)))
  {
    hide Project, EventsOf, LastOf, Cell;
    var s := Slot(Orders, order);
    CellByLast(log, Acknowledging(order), s, AckTs);
    CellByLast(log, Filling(order), s, DoneTs);
    CellByLast(log, Filling(order), s, BrokerResponse);
    CellByLast(log, Reporting(order), s, OrderState);
  }

  /** An invalid trade's row shows its last refusal by the risk gate. */
  lemma RefusalRowTells(log: seq<Entry>, trade: string)
    ensures var t, s, g := Project(log), Slot(InvalidTrades, trade), LastOf(EventsOf(log), Refusing(trade));
      && Cell(t, s, InvalidReason) == (if g.Some? then Some(Text(g.value.payload.reason)) else None)
      && Cell(t, s, DetectedTs) == (if g.Some? then Some(Text(g.value.tsCollected)) else None)
      && Cell(t, s, PayloadJson) == (if g.Some? then Some(Text(g.value.payload.json)) else None)
  {
    hide Project, EventsOf, LastOf, Cell;
    var s := Slot(InvalidTrades, trade);
    CellByLast(log, Refusing(trade), s, InvalidReason);
    CellByLast(log, Refusing(trade), s, DetectedTs);
    CellByLast(log, Refusing(trade), s, PayloadJson);
  }

  // ------------------------------------------------------------- closed trades

  lemma {:induction false} LastIs(events: seq<Event>, topic: Topic, k: nat)
    requires k < |events| && About(events[k], topic)
    requires forall j :: k < j < |events| ==> !About(events[j], topic)
    ensures LastOf(events, topic) == Some(events[k])
  {
    if k < |events| - 1 { LastIs(events[..|events| - 1], topic, k); }
  }

  /** Two events of a trade keep their order in its flow. */
  lemma {:induction false} InFlow(events: seq<Event>, trade: string, i: nat, k: nat) returns (a: nat, b: nat)
    requires i <= k < |events| && events[i].trade == events[k].trade == Some(trade)
    ensures a <= b < |Flow(events, trade)| && (i < k ==> a < b)
    ensures Flow(events, trade)[a] == events[i].payload && Flow(events, trade)[b] == events[k].payload
  {
    var init := events[..|events| - 1];
    if k < |init| {
      a, b := InFlow(init, trade, i, k);
    } else {
      b := |Flow(init, trade)|;
      if i == k { a := b; } else { a := FlowHas(init, trade, i); }
    }
  }

  /** On an accepted stream a trade opens and closes a position at most once, and in that order. */
  lemma OpensThenCloses(events: seq<Event>, i: nat, k: nat)
    requires StreamOk(events) && i < k < |events| && events[i].trade == events[k].trade
    requires events[i].payload.PositionOpened? || events[i].payload.PositionClosed?
    requires events[k].payload.PositionOpened? || events[k].payload.PositionClosed?
    ensures events[i].payload.PositionOpened? && events[k].payload.PositionClosed?
  {
    assert Guarded(events[i]);
    var trade := events[i].trade.value;
    var a, b := InFlow(events, trade, i, k);
    assert Fold(Flow(events, trade)).Some?;
    LaterIsAhead(Flow(events, trade), a, b);
  }

  lemma {:induction false} FromFlow(events: seq<Event>, trade: string, a: nat) returns (i: nat)
    requires a < |Flow(events, trade)|
    ensures i < |events| && events[i].trade == Some(trade) && events[i].payload == Flow(events, trade)[a]
  {
    var init := events[..|events| - 1];
    if a < |Flow(init, trade)| { i := FromFlow(init, trade, a); } else { i := |init|; }
  }

  /** A closed trade was opened before. */
  lemma ClosedWasOpened(events: seq<Event>, k: nat) returns (i: nat)
    requires StreamOk(events) && k < |events| && events[k].payload.PositionClosed?
    ensures i < k && events[i].trade == events[k].trade && events[i].payload.PositionOpened?
  {
    hide FullPath, Updates;
    assert Guarded(events[k]);
    var trade := events[k].trade.value;
    var flow := Flow(events, trade);
    assert Fold(flow).Some?;
    AcceptedIffOnPath(flow);
    var c := FlowHas(events, trade, k);
    var j := KindAmong(flow, c);
    var ai: bool, us :| Updates(us) && Kinds(flow) <= FullPath(ai, us);
    assert FullPath(ai, us)[j] == PositionClosedKind;
    ClosedIsLast(ai, us, j);
    PathAt(ai, us);
    var o := if ai then 8 else 5;
    assert Kinds(flow)[o] == PositionOpenedKind;
    var a := KindFrom(flow, o);
    i := FromFlow(events, trade, a);
    if k < i { OpensThenCloses(events, k, i); }
  }

  lemma {:induction false} KindAmong(flow: seq<Payload>, c: nat) returns (j: nat)
    requires c < |flow| && InBand(flow[c])
    ensures j < |Kinds(flow)| && Kinds(flow)[j] == flow[c].Kind()
  {
    var init := flow[..|flow| - 1];
    if c < |init| { j := KindAmong(init, c); } else { j := |Kinds(init)|; }
  }

  /** On an accepted stream a closed trade was opened once before, and its row shows exactly the
      payloads of its own opening and closing; so does its position's row, which is CLOSED, where
      each trade has its own position. */
  lemma ClosedTradeShowsItself(log: seq<Entry>, k: nat) returns (i: nat)
    requires StreamOk(EventsOf(log)) && k < |EventsOf(log)| && EventsOf(log)[k].payload.PositionClosed?
    ensures i < k && EventsOf(log)[i].payload.PositionOpened? && EventsOf(log)[i].trade == EventsOf(log)[k].trade
    ensures EventsOf(log)[k].trade.Some?
    ensures var t, o, x := Project(log), EventsOf(log)[i].payload, EventsOf(log)[k].payload;
      var s := Slot(Trades, EventsOf(log)[k].trade.value);
      && Cell(t, s, PositionId) == Some(Text(o.position)) && Cell(t, s, Direction) == Some(Text(o.direction))
      && Cell(t, s, Lot) == Some(Num(o.volume)) && Cell(t, s, EntryPrice) == Some(Num(o.openPrice))
      && Cell(t, s, EntryTs) == Some(Text(o.openTs))
      && Cell(t, s, ExitPrice) == Some(Num(x.exitPrice)) && Cell(t, s, ExitTs) == Some(Text(x.exitTs))
      && Cell(t, s, NetPnl) == Some(Num(x.netPnl)) && Cell(t, s, TxCost) == Some(Num(x.txCost))
      && Cell(t, s, ExitReason) == Some(Text(x.exitReason))
    ensures OnePositionPerTrade(EventsOf(log)) ==>
      var t, o, x := Project(log), EventsOf(log)[i].payload, EventsOf(log)[k].payload;
      var s := Slot(Positions, x.position);
      && o.position == x.position
      && Cell(t, s, Direction) == Some(Text(o.direction)) && Cell(t, s, Lot) == Some(Num(o.volume))
      && Cell(t, s, OpenPrice) == Some(Num(o.openPrice)) && Cell(t, s, OpenTs) == Some(Text(o.openTs))
      && Cell(t, s, ClosePrice) == Some(Num(x.exitPrice)) && Cell(t, s, CloseTs) == Some(Text(x.exitTs))
      && Cell(t, s, PositionState) == Some(Text("CLOSED"))
  {
    hide StreamOk, Project, EventsOf, LastOf, OnePositionPerTrade;
    var events := EventsOf(log);
    i := ClosedWasOpened(events, k);
    OnlyEvents(events, i, k);
    var trade := events[k].trade.value;
    TradeRowTells(log, trade);
    if OnePositionPerTrade(events) {
      OnlyPositionEvents(events, i, k);
      PositionRowTells(log, events[k].payload.position);
    }
  }

  lemma OnlyEvents(events: seq<Event>, i: nat, k: nat)
    requires StreamOk(events) && i < k < |events| && events[i].trade == events[k].trade
    requires events[i].payload.PositionOpened? && events[k].payload.PositionClosed?
    ensures events[k].trade.Some?
    ensures LastOf(events, Opening(events[k].trade.value)) == Some(events[i])
    ensures LastOf(events, Closing(events[k].trade.value)) == Some(events[k])
  {
    assert Guarded(events[k]);
    var trade := events[k].trade.value;
    forall j | i < j < |events| ensures !About(events[j], Opening(trade)) {
      assert Guarded(events[j]);
      if About(events[j], Opening(trade)) { OpensThenCloses(events, i, j); }
    }
    forall j | k < j < |events| ensures !About(events[j], Closing(trade)) {
      assert Guarded(events[j]);
      if About(events[j], Closing(trade)) { OpensThenCloses(events, k, j); }
    }
    LastIs(events, Opening(trade), i);
    LastIs(events, Closing(trade), k);
  }

  lemma OnlyPositionEvents(events: seq<Event>, i: nat, k: nat)
    requires StreamOk(events) && OnePositionPerTrade(events) && i < k < |events| && events[i].trade == events[k].trade
    requires events[i].payload.PositionOpened? && events[k].payload.PositionClosed?
    ensures var p := events[k].payload.position;
      && events[i].payload.position == p
      && LastOf(events, OpeningOf(p)) == Some(events[i]) && LastOf(events, ClosingOf(p)) == Some(events[k])
      && LastOf(events, Naming(p)) == Some(events[k])
  {
    hide StreamOk;
    var p := events[k].payload.position;
    assert PositionNamed(events[i]) == PositionNamed(events[k]) == Some(p);
    forall j | 0 <= j < |events| && About(events[j], Naming(p)) ensures events[j].trade == events[k].trade {
      assert PositionNamed(events[j]) == Some(p);
    }
    forall j | i < j < |events| ensures !About(events[j], OpeningOf(p)) {
      if About(events[j], OpeningOf(p)) { OpensThenCloses(events, i, j); }
    }
    forall j | k < j < |events| ensures !About(events[j], Naming(p)) {
      if About(events[j], Naming(p)) { OpensThenCloses(events, k, j); }
    }
    LastIs(events, OpeningOf(p), i);
    LastIs(events, ClosingOf(p), k);
    LastIs(events, Naming(p), k);
  }
}
