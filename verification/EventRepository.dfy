/**
 * The append-only event table and its derived tables behind one transaction
 * (collector/persistence/repository.py).
 */
module EventRepository {
  import opened Common
  import opened Events
  import opened Projection
  import opened ReconciliationRuns

  /** An event with the checksum it arrived with. */
  datatype Sealed = Sealed(event: Event, checksum: string)

  datatype InsertResult = Inserted | Duplicate

  datatype Db = Db(events: seq<Sealed>, tables: Tables)

  function Find(events: seq<Sealed>, id: string): (r: Option<Sealed>)
    ensures r.Some? ==> r.value in events && r.value.event.id == id
    ensures r.None? ==> forall k :: 0 <= k < |events| ==> events[k].event.id != id
  {
    if events == [] then None
    else if events[|events| - 1].event.id == id then Some(events[|events| - 1])
    else Find(events[..|events| - 1], id)
  }

  /** The checksum of an event; None when the event does not meet its schema. */
  type Seal = Event -> Option<string>

  /** None is the source's refusal: a schema violation, a broken seal, or an id taken by another checksum. */
  function Insert(seal: Seal, db: Db, e: Sealed, now: string): Option<(Db, InsertResult)> {
    if seal(e.event) != Some(e.checksum) then None
    else
      var known := Find(db.events, e.event.id);
      var tables := Apply(db.tables, Entry(e.event, now));
      if known.None? then Some((Db(db.events + [e], tables), Inserted))
      else if known.value.checksum == e.checksum then Some((Db(db.events, tables), Duplicate))
      else None
  }

  class PersistenceRepository {
    const seal: Seal
    var events: seq<Sealed>
    var tables: Tables
    var runs: seq<Run>
    var adoptions: Adoptions
    ghost var log: seq<Entry>

    ghost function View(): Db
      reads this
    {
      Db(events, tables)
    }

    /** The derived tables are the projection of everything delivered, duplicates included; the
        event table holds each delivered event once, in order of first delivery. */
    ghost predicate Valid()
      reads this
    {
      && tables == Project(log)
      && (forall k :: 0 <= k < |events| ==> seal(events[k].event) == Some(events[k].checksum))
      && (forall i, k :: 0 <= i < k < |events| ==> events[i].event.id != events[k].event.id)
      && (forall i :: 0 <= i < |log| ==> Find(events, log[i].event.id).Some?)
    }

    constructor (seal: Seal)
      ensures Valid() && this.seal == seal && View() == Db([], map[]) && log == [] && runs == [] && adoptions == map[]
    {
      this.seal := seal;
      events, tables, log := [], map[], [];
      runs, adoptions := [], map[];
    }

    /** One transaction; works says whether its writes and its commit go through. */
    method InsertEventWithDerived(e: Sealed, now: string, works: bool) returns (r: Option<InsertResult>)
      requires Valid()
      modifies `events, `tables, `log
      ensures Valid()
      ensures r.Some? <==> works && Insert(seal, old(View()), e, now).Some?
      ensures r.None? ==> View() == old(View()) && log == old(log)
      ensures r.Some? ==> (View(), r.value) == Insert(seal, old(View()), e, now).value
      ensures r.Some? ==> log == old(log) + [Entry(e.event, now)]
    {
      hide Apply, Find;
      if seal(e.event) != Some(e.checksum) { return None; }
      var before := (events, tables);
      var known := Find(events, e.event.id);
      if known.Some? && known.value.checksum != e.checksum { return None; }
      r := Some(Duplicate);
      if known.None? {
        FindSnoc(events, e);
        events := events + [e];
        r := Some(Inserted);
      }
      ApplyDerivedState(e.event, now);
      if !works {
        events, tables := before.0, before.1;
        return None;
      }
      ProjectEntry(log, Entry(e.event, now));
      log := log + [Entry(e.event, now)];
    }

    /** Writes the event's derived rows one by one. */
    method ApplyDerivedState(e: Event, now: string)
      modifies this`tables
      ensures tables == Apply(old(tables), Entry(e, now))
    {
      hide Writes, Perform;
      var ws := Writes(e);
      for k := 0 to |ws|
        invariant tables == PerformAll(old(tables), ws[..k], now)
      {
        assert ws[..k + 1][..k] == ws[..k];
        if FirstWins(ws[k].slot.table) {
          InsertOrIgnore(ws[k], now);
        } else {
          UpsertRecord(ws[k], now);
        }
      }
      assert ws[..|ws|] == ws;
    }

    /** Merges the given columns into the row; nothing else of it is touched. */
    method UpsertRecord(w: Write, now: string)
      requires !FirstWins(w.slot.table)
      modifies this`tables
      ensures tables == Perform(old(tables), w, now)
    {
      var row: Row := map[];
      if w.slot in tables { row := tables[w.slot]; }
      row := row + w.cells;
      if TracksUpdates(w.slot.table) { row := row[UpdatedAt := Text(now)]; }
      assert row == (if w.slot in tables then tables[w.slot] else map[]) + w.cells
                    + (if TracksUpdates(w.slot.table) then map[UpdatedAt := Text(now)] else map[]);
      tables := tables[w.slot := row];
    }

    method InsertOrIgnore(w: Write, ghost now: string)
      requires FirstWins(w.slot.table)
      modifies this`tables
      ensures tables == Perform(old(tables), w, now)
    {
      if w.slot !in tables { tables := tables[w.slot := w.cells]; }
    }

    /** A reconciliation event with its derived row, the run and its adoptions, all or nothing. */
    method SaveReconciliationRun(e: Sealed, now: string, run: Run, more: seq<Adoption>, works: bool)
      returns (r: Option<InsertResult>)
      requires Valid()
      modifies this
      ensures Valid()
      ensures r.Some? <==> works && Insert(seal, old(View()), e, now).Some?
      ensures r.None? ==> View() == old(View()) && log == old(log) && runs == old(runs) && adoptions == old(adoptions)
      ensures r.Some? ==>
        && (View(), r.value) == Insert(seal, old(View()), e, now).value
        && runs == Remember(old(runs), run) && adoptions == Adopt(old(adoptions), more)
        && log == old(log) + [Entry(e.event, now)]
    {
      hide Insert, Apply, Find, Project, Remember, Adopt;
      r := InsertEventWithDerived(e, now, works);
      if r.None? { return; }
      WriteReconciliationRun(run);
      WriteReconciliationAdoptions(more);
    }

    method WriteReconciliationRun(run: Run)
      modifies `runs
      ensures runs == Remember(old(runs), run)
    {
      if !HasRun(runs, run.id) { runs := runs + [run]; }
    }

    method WriteReconciliationAdoptions(more: seq<Adoption>)
      modifies `adoptions
      ensures adoptions == Adopt(old(adoptions), more)
    {
      for k := 0 to |more|
        invariant adoptions == Adopt(old(adoptions), more[..k])
      {
        assert more[..k + 1][..k] == more[..k];
        if more[k].id !in adoptions { adoptions := adoptions[more[k].id := more[k]]; }
      }
      assert more[..|more|] == more;
    }

    /** Ids of the positions whose derived state is OPEN. */
    method OpenPositions() returns (open: set<string>)
      requires Valid()
      ensures forall p :: p in open <==> IsOpen(Project(log), p)
    {
      open := set s | s in tables.Keys && s.table.Positions?
        && Cell(tables, s, PositionState) == Some(Text("OPEN")) :: s.key;
      forall p ensures p in open <==> IsOpen(Project(log), p) {
        assert p in open ==> exists s :: s in tables && s.table.Positions? && s.key == p;
        if IsOpen(Project(log), p) { assert Slot(Positions, p) in tables; }
      }
    }
  }

  lemma ProjectEntry(log: seq<Entry>, entry: Entry)
    ensures Project(log + [entry]) == Apply(Project(log), entry)
  {
    assert (log + [entry])[..|log|] == log;
  }

  lemma FindSnoc(events: seq<Sealed>, e: Sealed)
    ensures forall id :: Find(events + [e], id) == if e.event.id == id then Some(e) else Find(events, id)
  {
    assert (events + [e])[..|events|] == events;
  }

  // ------------------------------------------------------- delivering twice

  /** The database after a list of deliveries, all of which must be accepted. */
  function Deliver(seal: Seal, db: Db, es: seq<(Sealed, string)>): Option<Db> {
    if es == [] then Some(db)
    else
      var before := Deliver(seal, db, es[..|es| - 1]);
      if before.None? then None
      else
        var after := Insert(seal, before.value, es[|es| - 1].0, es[|es| - 1].1);
        if after.None? then None else Some(after.value.0)
  }

  function Entries(es: seq<(Sealed, string)>): seq<Entry> {
    seq(|es|, k requires 0 <= k < |es| => Entry(es[k].0.event, es[k].1))
  }

  lemma EntriesConcat(a: seq<(Sealed, string)>, b: seq<(Sealed, string)>)
    ensures Entries(a + b) == Entries(a) + Entries(b)
  {
  }

  /** The event table holds this delivery, by its id and checksum. */
  predicate Holds(seal: Seal, db: Db, e: Sealed) {
    && seal(e.event) == Some(e.checksum) && Find(db.events, e.event.id).Some?
    && Find(db.events, e.event.id).value.checksum == e.checksum
  }

  lemma InsertHolds(seal: Seal, db: Db, e: Sealed, now: string)
    requires Insert(seal, db, e, now).Some?
    ensures var after := Insert(seal, db, e, now).value.0;
      && after.tables == Apply(db.tables, Entry(e.event, now)) && Holds(seal, after, e)
      && forall d :: Holds(seal, db, d) ==> Holds(seal, after, d)
  {
    hide Apply;
    FindSnoc(db.events, e);
  }

  /** Whatever was delivered, the derived tables are its projection, and every delivered event
      is in the event table with the checksum it was delivered with. */
  lemma {:induction false} DeliveredState(seal: Seal, es: seq<(Sealed, string)>)
    requires Deliver(seal, Db([], map[]), es).Some?
    ensures Deliver(seal, Db([], map[]), es).value.tables == Project(Entries(es))
    ensures forall k :: 0 <= k < |es| ==> Holds(seal, Deliver(seal, Db([], map[]), es).value, es[k].0)
  {
    hide Apply, Find, Insert;
    if es != [] {
      var init, last := es[..|es| - 1], es[|es| - 1];
      DeliveredState(seal, init);
      var before := Deliver(seal, Db([], map[]), init).value;
      InsertHolds(seal, before, last.0, last.1);
      assert Entries(es) == Entries(init) + [Entry(last.0.event, last.1)];
      ProjectEntry(Entries(init), Entry(last.0.event, last.1));
    }
  }

  /** Delivering again what was delivered before is accepted and leaves the event table alone. */
  lemma {:induction false} RedeliveryAccepted(seal: Seal, es: seq<(Sealed, string)>, again: seq<(Sealed, string)>)
    requires Deliver(seal, Db([], map[]), es).Some?
    requires forall k :: 0 <= k < |again| ==> exists i :: 0 <= i < |es| && es[i].0 == again[k].0
    ensures Deliver(seal, Db([], map[]), es + again).Some?
    ensures Deliver(seal, Db([], map[]), es + again).value.events == Deliver(seal, Db([], map[]), es).value.events
  {
    if again == [] {
      assert es + again == es;
    } else {
      var init, last := again[..|again| - 1], again[|again| - 1];
      assert (es + again)[..|es + again| - 1] == es + init;
      RedeliveryAccepted(seal, es, init);
      DeliveredState(seal, es);
      var i :| 0 <= i < |es| && es[i].0 == last.0;
      assert (es + again)[|es + again| - 1] == last;
    }
  }

  /** Redelivering any suffix of what was delivered, or all of it, changes neither the events nor
      any derived cell but updated_at. */
  lemma RedeliverSuffix(seal: Seal, a: seq<(Sealed, string)>, b: seq<(Sealed, string)>, again: seq<(Sealed, string)>)
    requires Deliver(seal, Db([], map[]), a + b).Some?
    requires |again| == |b| && forall k :: 0 <= k < |b| ==> again[k].0 == b[k].0
    ensures Deliver(seal, Db([], map[]), a + b + again).Some?
    ensures var before := Deliver(seal, Db([], map[]), a + b).value;
      var after := Deliver(seal, Db([], map[]), a + b + again).value;
      after.events == before.events && SameCells(after.tables, before.tables)
  {
    forall k | 0 <= k < |again| ensures exists i :: 0 <= i < |a + b| && (a + b)[i].0 == again[k].0 {
      assert (a + b)[|a| + k] == b[k];
    }
    RedeliveryAccepted(seal, a + b, again);
    DeliveredState(seal, a + b);
    DeliveredState(seal, a + b + again);
    EntriesConcat(a, b);
    EntriesConcat(a + b, again);
    SameEvents(b, again);
    ReplaySuffixHarmless(Entries(a), Entries(b), Entries(again));
  }

  lemma {:induction false} SameEvents(b: seq<(Sealed, string)>, again: seq<(Sealed, string)>)
    requires |again| == |b| && forall k :: 0 <= k < |b| ==> again[k].0 == b[k].0
    ensures EventsOf(Entries(again)) == EventsOf(Entries(b))
  {
    if b != [] {
      var n := |b| - 1;
      SameEvents(b[..n], again[..n]);
      assert Entries(b)[..n] == Entries(b[..n]) && Entries(again)[..n] == Entries(again[..n]);
    }
  }
}
