/**
 * The reconciliation service (collector/reconciliation/reconciler.py): observe,
 * compare, record. It only ever adds to the reconciliation tables.
 */
module ReconciliationService {
  import opened Common
  import opened Sorting
  import opened Classifier
  import opened ClassifierTheorems
  import opened ReconciliationRuns
  import Events
  import P = Projection
  import opened EventRepository

  function TextAt(row: P.Row, c: P.Column): Option<string> {
    if c in row && row[c].Text? then Some(row[c].text) else None
  }

  function NumAt(row: P.Row, c: P.Column): Option<real> {
    if c in row && row[c].Num? then Some(row[c].num) else None
  }

  function PositionRow(id: string, row: P.Row): Local {
    Local(id, TextAt(row, P.Direction), NumAt(row, P.Lot), NumAt(row, P.OpenPrice), TextAt(row, P.PositionState))
  }

  function OrderRow(id: string, row: P.Row): Local {
    Local(id, None, NumAt(row, P.RequestedLot), NumAt(row, P.RequestedPrice), TextAt(row, P.OrderState))
  }

  predicate OpenPosition(t: P.Tables, s: P.Slot) {
    s.table.Positions? && P.Cell(t, s, P.PositionState) == Some(P.Text("OPEN"))
  }

  predicate OpenOrder(t: P.Tables, s: P.Slot) {
    s.table.Orders? && P.Cell(t, s, P.OrderState) !in
      {Some(P.Text("FILLED")), Some(P.Text("CANCELLED")), Some(P.Text("REJECTED"))}
  }

  function LocalPositions(t: P.Tables): Locals {
    map s | s in t.Keys && OpenPosition(t, s) :: s.key := PositionRow(s.key, t[s])
  }

  function LocalOrders(t: P.Tables): Locals {
    map s | s in t.Keys && OpenOrder(t, s) :: s.key := OrderRow(s.key, t[s])
  }

  /** The local state of these tables against a snapshot. */
  function Against(t: P.Tables, s: Snapshot): Sides {
    Sides(LocalPositions(t), LocalOrders(t), BrokersById(s.positions), BrokersById(s.orders))
  }

  /** The outcome compares the rows of these tables, listed in some order, with the snapshot. */
  ghost predicate ComparesTables(o: Outcome, t: P.Tables, s: Snapshot) {
    exists positions, orders ::
      && DistinctKeys(positions, LocalKey) && LocalsById(positions) == LocalPositions(t)
      && DistinctKeys(orders, LocalKey) && LocalsById(orders) == LocalOrders(t)
      && o == Comparison(positions, orders, s)
  }

  /** The rows of a query, in some order; the comparison does not depend on it. */
  method ListRows(m: Locals) returns (rows: seq<Local>)
    requires forall id :: id in m ==> m[id].id == id
    ensures DistinctKeys(rows, LocalKey) && LocalsById(rows) == m
  {
    rows := [];
    var todo := m.Keys;
    while todo != {}
      invariant todo <= m.Keys
      invariant LocalsById(rows) == map id | id in m && id !in todo :: m[id]
      invariant DistinctKeys(rows, LocalKey) && forall k :: 0 <= k < |rows| ==> rows[k].id in m && rows[k].id !in todo
      decreases todo
    {
      var id :| id in todo;
      assert (rows + [m[id]])[..|rows|] == rows;
      rows := rows + [m[id]];
      todo := todo - {id};
    }
    assert (map id | id in m && id !in {} :: m[id]) == m;
  }

  datatype EventText = EventText(ts: string, localState: string, remoteState: string, result: string, details: string)

  /** What is not the service's to choose: a fresh event id, the times, and whether the database works. */
  datatype Stamp = Stamp(
    eventId: string, ts: int, tsEvent: string, tsCollected: string, tsMonotonic: int, now: string, works: bool)

  datatype Report =
    | SnapshotUnavailable
    | Failed(outcome: Outcome)
    | Done(skipped: bool, outcome: Outcome)

  /** Rows the service must never touch. */
  twostate predicate TradingStateKept(repo: PersistenceRepository)
    reads repo
  {
    forall s: P.Slot :: s.table.Positions? || s.table.Orders? || s.table.Trades? ==>
      P.RowAt(repo.tables, s) == old(P.RowAt(repo.tables, s))
  }

  class Service {
    const repo: PersistenceRepository
    const name: Naming
    const text: Observation -> EventText
    ghost var history: seq<Observation>
    ghost var recorded: seq<Observation>

    /** The tables are those of the history of comparisons made. */
    ghost predicate Valid()
      reads this, repo
    {
      repo.Valid() && Book(repo.runs, repo.adoptions, recorded) == Replay(name, history)
    }

    constructor (repo: PersistenceRepository, name: Naming, text: Observation -> EventText)
      requires repo.Valid() && repo.runs == [] && repo.adoptions == map[]
      ensures Valid() && this.repo == repo && this.name == name && this.text == text && history == []
    {
      this.repo, this.name, this.text := repo, name, text;
      history, recorded := [], [];
    }

    /** The event that records an observation. */
    ghost function EventFor(ob: Observation, stamp: Stamp): P.Entry {
      var t := text(ob);
      P.Entry(
        Events.Event(stamp.eventId, stamp.tsEvent, stamp.tsCollected, stamp.tsMonotonic, None, None,
                     Events.Reconciliation(name(Sig(ob)), t.ts, t.localState, t.remoteState, t.result, t.details)),
        stamp.now)
    }

    ghost function TimeoutFor(stamp: Stamp): P.Entry {
      P.Entry(
        Events.Event(stamp.eventId, stamp.tsEvent, stamp.tsCollected, stamp.tsMonotonic, None, None, Events.Timeout),
        stamp.now)
    }

    method CurrentShadowState() returns (r: Option<Result>)
      requires Valid()
      ensures r == ShadowState(Replay(name, history).runs)
    {
      hide Latest, Replay;
      var latest := Latest(repo.runs);
      if latest.None? { return None; }
      r := Some(latest.value.result);
    }

    method Reconcile(trigger: Trigger, provided: Option<Snapshot>, stamp: Stamp) returns (r: Report)
      requires Valid()
      modifies this, repo
      ensures Valid() && TradingStateKept(repo)
      ensures r.SnapshotUnavailable? <==> provided.None?
      ensures provided.Some? ==> ComparesTables(r.outcome, old(repo.tables), provided.value)
      ensures provided.Some? && UniqueIds(provided.value) ==>
        Characterised(r.outcome, Against(old(repo.tables), provided.value))
      ensures provided.Some? ==>
        (r == Done(true, r.outcome) <==>
           Unchanged(old(repo.runs), Observation(trigger, r.outcome, provided.value, stamp.ts)))
      ensures history == old(history) + if r.Done? then [Observation(trigger, r.outcome, provided.value, stamp.ts)]
        else []
      ensures recorded == old(recorded)
        + if r.Done? && !r.skipped then [Observation(trigger, r.outcome, provided.value, stamp.ts)] else []
      ensures r.Failed? || (r.Done? && r.skipped) ==> repo.View() == old(repo.View()) && repo.log == old(repo.log)
      ensures r.Done? && !r.skipped ==>
        repo.log == old(repo.log) + [EventFor(Observation(trigger, r.outcome, provided.value, stamp.ts), stamp)]
      ensures r.SnapshotUnavailable? ==> repo.log in {old(repo.log), old(repo.log) + [TimeoutFor(stamp)]}
    {
      hide Replay, Latest, Characterised, ComparesTables, Sig, Find, P.Apply, P.Cell, P.RowAt;
      if provided.None? {
        RecordTimeout(stamp);
        return SnapshotUnavailable;
      }
      var outcome := Compare(provided.value);
      var ob := Observation(trigger, outcome, provided.value, stamp.ts);
      var latest := Latest(repo.runs);
      if latest.Some? && latest.value.signature == Sig(ob) && latest.value.result == outcome.result {
        ReplaySnoc(name, history, ob);
        history := history + [ob];
        return Done(true, outcome);
      }
      r := Record(ob, stamp);
    }

    method Compare(s: Snapshot) returns (outcome: Outcome)
      requires Valid()
      ensures ComparesTables(outcome, repo.tables, s)
      ensures UniqueIds(s) ==> Characterised(outcome, Against(repo.tables, s))
    {
      hide Characterised, LocalPositions, LocalOrders, Comparison;
      RowsKeyed(repo.tables);
      var positions := ListRows(LocalPositions(repo.tables));
      var orders := ListRows(LocalOrders(repo.tables));
      outcome := Classify(positions, orders, s);
      if UniqueIds(s) { ClassifiesExactly(positions, orders, s); }
    }

    /** The run of an outcome that is not the latest one on record. */
    method Record(ob: Observation, stamp: Stamp) returns (r: Report)
      requires Valid() && !Unchanged(repo.runs, ob)
      modifies this, repo
      ensures Valid() && TradingStateKept(repo)
      ensures r == Done(false, ob.outcome) || r == Failed(ob.outcome)
      ensures r.Done? ==> history == old(history) + [ob] && recorded == old(recorded) + [ob]
      ensures r.Done? ==> repo.log == old(repo.log) + [EventFor(ob, stamp)]
      ensures r.Failed? ==> history == old(history) && recorded == old(recorded)
      ensures r.Failed? ==> repo.View() == old(repo.View()) && repo.log == old(repo.log)
    {
      hide Replay, Latest, Adopt, AdoptionsFor, Sig, P.Apply, Find, Unchanged;
      var id := name(Sig(ob));
      var t := text(ob);
      var event := Events.Event(stamp.eventId, stamp.tsEvent, stamp.tsCollected, stamp.tsMonotonic, None, None,
        Events.Reconciliation(id, t.ts, t.localState, t.remoteState, t.result, t.details));
      var adoptions := BuildAdoptions(ob.outcome.diffs, ob.snapshot, id, ob.ts);
      KeepsTradingState(repo.tables, P.Entry(event, stamp.now));
      var checksum := repo.seal(event);
      if checksum.None? { return Failed(ob.outcome); }
      var saved := repo.SaveReconciliationRun(Sealed(event, checksum.value), stamp.now, RunFor(name, ob), adoptions,
        stamp.works);
      if saved.None? { return Failed(ob.outcome); }
      ReplaySnoc(name, history, ob);
      history, recorded := history + [ob], recorded + [ob];
      r := Done(false, ob.outcome);
    }

    /** A snapshot that cannot be had leaves a TIMEOUT event and nothing else. */
    method RecordTimeout(stamp: Stamp)
      requires Valid()
      modifies repo`events, repo`tables, repo`log
      ensures Valid() && TradingStateKept(repo)
      ensures repo.log in {old(repo.log), old(repo.log) + [TimeoutFor(stamp)]}
    {
      hide Replay, P.Apply, Find;
      var event := Events.Event(stamp.eventId, stamp.tsEvent, stamp.tsCollected, stamp.tsMonotonic, None, None,
        Events.Timeout);
      KeepsTradingState(repo.tables, P.Entry(event, stamp.now));
      var checksum := repo.seal(event);
      if checksum.Some? {
        var _ := repo.InsertEventWithDerived(Sealed(event, checksum.value), stamp.now, stamp.works);
      }
    }

    /** Reconciling again at once, for the same reason and on the same snapshot, after a run with a
        new signature, writes nothing. */
    method ReconcileTwice(trigger: Trigger, s: Snapshot, first: Stamp, second: Stamp) returns (r: Report, again: Report)
      requires Valid()
      requires first.ts < second.ts && Increasing(history)
      requires forall k :: 0 <= k < |history| ==> history[k].ts < first.ts
      modifies this, repo
      ensures Valid() && TradingStateKept(repo)
      ensures r.Done? && !SeenBefore(old(history), SignatureOf(trigger, r.outcome))
        && NoCollision(name, old(history) + [Observation(trigger, r.outcome, s, first.ts)])
        ==> again == Done(true, r.outcome)
    {
      hide Replay, Latest, NoCollision, ComparesTables, Characterised, LocalPositions, LocalOrders, SeenBefore,
        Unchanged, P.RowAt, Increasing;
      ghost var tables := repo.tables;
      r := Reconcile(trigger, Some(s), first);
      SameLocals(tables, repo.tables, s);
      ghost var before := repo.tables;
      again := Reconcile(trigger, Some(s), second);
      SameOutcome(r.outcome, again.outcome, tables, before, s);
      if r.Done? && !SeenBefore(old(history), SignatureOf(trigger, r.outcome))
        && NoCollision(name, old(history) + [Observation(trigger, r.outcome, s, first.ts)]) {
        LaterIncreases(old(history), Observation(trigger, r.outcome, s, first.ts));
        JustRecorded(name, old(history), Observation(trigger, r.outcome, s, first.ts),
          Observation(trigger, r.outcome, s, second.ts));
      }
    }
  }

  /** Two comparisons of the same open rows with the same snapshot have the same outcome. */
  lemma SameOutcome(o: Outcome, o': Outcome, t: P.Tables, t': P.Tables, s: Snapshot)
    requires ComparesTables(o, t, s) && ComparesTables(o', t', s)
    requires LocalPositions(t) == LocalPositions(t') && LocalOrders(t) == LocalOrders(t')
    ensures o == o'
  {
    hide Comparison, LocalsById, LocalPositions, LocalOrders, DistinctKeys;
    var positions, orders :|
      LocalsById(positions) == LocalPositions(t) && LocalsById(orders) == LocalOrders(t)
        && o == Comparison(positions, orders, s);
    var positions', orders' :|
      LocalsById(positions') == LocalPositions(t') && LocalsById(orders') == LocalOrders(t')
      && o' == Comparison(positions', orders', s);
    LocalsDetermine(positions, orders, positions', orders', s);
  }

  lemma LaterIncreases(obs: seq<Observation>, ob: Observation)
    requires Increasing(obs) && forall k :: 0 <= k < |obs| ==> obs[k].ts < ob.ts
    ensures Increasing(obs + [ob])
  {
  }

  method BuildAdoptions(diffs: seq<Diff>, s: Snapshot, run: string, ts: int) returns (adoptions: seq<Adoption>)
    ensures adoptions == AdoptionsFor(diffs, s, run, ts)
  {
    hide RowOf;
    adoptions := [];
    for k := 0 to |diffs|
      invariant adoptions == AdoptionsFor(diffs[..k], s, run, ts)
    {
      assert diffs[..k + 1][..k] == diffs[..k];
      var d := diffs[k];
      if d.cls.Recoverable? {
        var row := RowOf(Rows(s, d.kind), d.id);
        if row.Some? { adoptions := adoptions + [Adoption(AdoptionId(d.kind, d.id, run), row.value, d.reason, ts)]; }
      }
    }
    assert diffs[..|diffs|] == diffs;
  }

  lemma RowsKeyed(t: P.Tables)
    ensures forall id :: id in LocalPositions(t) ==> LocalPositions(t)[id].id == id
    ensures forall id :: id in LocalOrders(t) ==> LocalOrders(t)[id].id == id
  {
  }

  lemma KeepsTradingState(t: P.Tables, e: P.Entry)
    requires e.event.payload.Reconciliation? || e.event.payload.Timeout?
    ensures forall s: P.Slot :: !s.table.ReconciliationEvents? ==> P.RowAt(P.Apply(t, e), s) == P.RowAt(t, s)
  {
    var ws := P.Writes(e.event);
    if e.event.payload.Reconciliation? {
      assert |ws| == 1 && ws[..0] == [];
      assert P.PerformAll(t, ws, e.now) == P.Perform(t, ws[0], e.now);
    }
  }

  lemma SameLocals(t: P.Tables, t': P.Tables, s: Snapshot)
    requires forall s: P.Slot :: s.table.Positions? || s.table.Orders? ==> P.RowAt(t', s) == P.RowAt(t, s)
    ensures Against(t', s) == Against(t, s)
  {
    SameOpenPositions(t, t');
    SameOpenOrders(t, t');
  }

  lemma SameOpenPositions(t: P.Tables, t': P.Tables)
    requires forall s: P.Slot :: s.table.Positions? ==> P.RowAt(t', s) == P.RowAt(t, s)
    ensures LocalPositions(t') == LocalPositions(t)
  {
    forall s: P.Slot | s.table.Positions? ensures s in t <==> s in t' { assert P.RowAt(t', s) == P.RowAt(t, s); }
    forall id ensures id in LocalPositions(t) <==> id in LocalPositions(t') {
      var s := P.Slot(P.Positions, id);
      assert P.RowAt(t', s) == P.RowAt(t, s);
    }
  }

  lemma SameOpenOrders(t: P.Tables, t': P.Tables)
    requires forall s: P.Slot :: s.table.Orders? ==> P.RowAt(t', s) == P.RowAt(t, s)
    ensures LocalOrders(t') == LocalOrders(t)
  {
    forall s: P.Slot | s.table.Orders? ensures s in t <==> s in t' { assert P.RowAt(t', s) == P.RowAt(t, s); }
    forall id ensures id in LocalOrders(t) <==> id in LocalOrders(t') {
      var s := P.Slot(P.Orders, id);
      assert P.RowAt(t', s) == P.RowAt(t, s);
    }
  }

  lemma {:induction false} RowOfIff(bs: seq<Seen>, id: string)
    ensures RowOf(bs, id).Some? <==> id in BrokersById(bs)
  {
    if bs != [] { RowOfIff(bs[..|bs| - 1], id); }
  }

  /** Every entity an exact comparison wants adopted can be adopted. */
  lemma ComparisonsAreGrounded(t: P.Tables, ob: Observation)
    requires Characterised(ob.outcome, Against(t, ob.snapshot))
    ensures Grounded(ob)
  {
    hide Conflict, SeenSummary, LocalSummary, LocalPositions, LocalOrders;
    var s := Against(t, ob.snapshot);
    forall d | d in ob.outcome.diffs && d.cls.Recoverable? ensures RowOf(Rows(ob.snapshot, d.kind), d.id).Some? {
      assert Known(s, d.kind, d.id) && d == Expected(s, d.kind, d.id);
      RowOfIff(Rows(ob.snapshot, d.kind), d.id);
    }
  }

  /** No event writes the requested lot or price of an order. */
  lemma {:induction false} NeverRequested(events: seq<Events.Event>, s: P.Slot, c: P.Column)
    requires c == P.RequestedLot || c == P.RequestedPrice
    ensures P.LastWrite(events, s, c).None?
  {
    hide P.Writes;
    if events != [] {
      NeverRequested(events[..|events| - 1], s, c);
      NotPut(events[|events| - 1], s, c);
    }
  }

  lemma NotPut(e: Events.Event, s: P.Slot, c: P.Column)
    requires c == P.RequestedLot || c == P.RequestedPrice
    ensures P.Put(P.Writes(e), s, c).None?
  {
    hide P.Writes, P.Put;
    if c == P.RequestedLot { LotNotRequested(e); } else { PriceNotRequested(e); }
    NotAmong(P.Writes(e), s, c);
  }

  lemma LotNotRequested(e: Events.Event)
    ensures forall k :: 0 <= k < |P.Writes(e)| ==> P.RequestedLot !in P.Writes(e)[k].cells
  {
  }

  lemma PriceNotRequested(e: Events.Event)
    ensures forall k :: 0 <= k < |P.Writes(e)| ==> P.RequestedPrice !in P.Writes(e)[k].cells
  {
  }

  lemma {:induction false} NotAmong(ws: seq<P.Write>, s: P.Slot, c: P.Column)
    requires forall k :: 0 <= k < |ws| ==> c !in ws[k].cells
    ensures P.Put(ws, s, c).None?
  {
    if ws != [] { NotAmong(ws[..|ws| - 1], s, c); }
  }

  /** Whatever the log, the projection knows neither lot nor price of any order, so no order is ever
      in conflict with the broker, whatever the broker shows for it. */
  lemma OrdersNeverConflict(log: seq<P.Entry>, s: Snapshot)
    ensures forall id :: id in LocalOrders(P.Project(log)) ==>
      LocalOrders(P.Project(log))[id].lot.None? && LocalOrders(P.Project(log))[id].price.None?
    ensures InConflict(Against(P.Project(log), s), OrderKind) == {}
  {
    hide P.Project, P.LastWrite;
    var t := P.Project(log);
    forall id | id in LocalOrders(t) ensures LocalOrders(t)[id].lot.None? && LocalOrders(t)[id].price.None? {
      var slot := P.Slot(P.Orders, id);
      P.CellsHoldLastWrite(log, slot, P.RequestedLot);
      P.CellsHoldLastWrite(log, slot, P.RequestedPrice);
      NeverRequested(P.EventsOf(log), slot, P.RequestedLot);
      NeverRequested(P.EventsOf(log), slot, P.RequestedPrice);
      assert P.Cell(t, slot, P.RequestedLot).None? && P.Cell(t, slot, P.RequestedPrice).None?;
    }
  }
}
