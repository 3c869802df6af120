/** What the classification means: one diff per entity, counters as set differences, and no
    dependence on the order of any list. */
module ClassifierTheorems {
  import opened Sorting
  import opened Classifier

  /** Both sides by id. */
  datatype Sides = Sides(positions: Locals, orders: Locals, brokerPositions: Brokers, brokerOrders: Brokers)

  function Ours(s: Sides, kind: Kind): Locals {
    if kind.PositionKind? then s.positions else s.orders
  }

  function Theirs(s: Sides, kind: Kind): Brokers {
    if kind.PositionKind? then s.brokerPositions else s.brokerOrders
  }

  function BrokersById(bs: seq<Seen>): Brokers {
    if bs == [] then map[] else BrokersById(bs[..|bs| - 1])[bs[|bs| - 1].id := bs[|bs| - 1]]
  }

  function SidesOf(positions: seq<Local>, orders: seq<Local>, snapshot: Snapshot): Sides {
    Sides(LocalsById(positions), LocalsById(orders), BrokersById(snapshot.positions), BrokersById(snapshot.orders))
  }

  predicate Known(s: Sides, kind: Kind, id: string) {
    id in Ours(s, kind) || id in Theirs(s, kind)
  }

  function Expected(s: Sides, kind: Kind, id: string): Diff
    requires Known(s, kind, id)
  {
    if id in Theirs(s, kind) then
      if id in Ours(s, kind) then Compared(kind, Ours(s, kind)[id], Theirs(s, kind)[id])
      else Adoptable(kind, Theirs(s, kind)[id])
    else Missing(kind, Ours(s, kind)[id], id)
  }

  function BrokerOnly(s: Sides, kind: Kind): set<string> {
    Theirs(s, kind).Keys - Ours(s, kind).Keys
  }

  function LocalOnly(s: Sides, kind: Kind): set<string> {
    Ours(s, kind).Keys - Theirs(s, kind).Keys
  }

  function InConflict(s: Sides, kind: Kind): set<string> {
    set id | id in Ours(s, kind).Keys && id in Theirs(s, kind)
      && Conflict(kind, Ours(s, kind)[id], Theirs(s, kind)[id]).Some?
  }

  ghost predicate Keyed(s: Sides) {
    forall kind, id :: id in Theirs(s, kind) ==> Theirs(s, kind)[id].id == id
  }

  /** Exactly the expected diff of every known entity, in strict order; counters that are the sizes
      of the set differences and of the set of conflicts; the result they call for. */
  ghost predicate Characterised(o: Outcome, s: Sides) {
    && Keyed(s) && Ordered(o.diffs, DiffKey) && DistinctKeys(o.diffs, DiffKey)
    && ExactlyExpected(o.diffs, s)
    && o.brokerOrphans == |BrokerOnly(s, PositionKind)| + |BrokerOnly(s, OrderKind)|
    && o.localOrphans == |LocalOnly(s, PositionKind)| + |LocalOnly(s, OrderKind)|
    && o.conflicts == |InConflict(s, PositionKind)| + |InConflict(s, OrderKind)|
    && o.result == Verdict(o.conflicts, |LocalOnly(s, PositionKind)|, |LocalOnly(s, OrderKind)|, o.brokerOrphans)
    && o.action == ActionFor(o.result) && (o.mismatch <==> !o.result.Synced?)
    && o.openPositions == |s.positions| && o.openOrders == |s.orders|
    && o.brokerPositions == |s.brokerPositions| && o.brokerOrders == |s.brokerOrders|
  }

  ghost predicate ExactlyExpected(diffs: seq<Diff>, s: Sides) {
    forall d :: d in diffs <==> Known(s, d.kind, d.id) && d == Expected(s, d.kind, d.id)
  }

  predicate UniqueIds(s: Snapshot) {
    DistinctKeys(s.positions, SeenKey) && DistinctKeys(s.orders, SeenKey)
  }

  // ------------------------------------------------------------ dictionaries

  lemma {:induction false} BrokerIds(bs: seq<Seen>)
    ensures forall id :: id in BrokersById(bs) ==> BrokersById(bs)[id] in bs && BrokersById(bs)[id].id == id
    ensures forall k :: 0 <= k < |bs| ==> bs[k].id in BrokersById(bs)
  {
    if bs != [] { BrokerIds(bs[..|bs| - 1]); }
  }

  lemma BrokerRows(bs: seq<Seen>)
    requires DistinctKeys(bs, SeenKey)
    ensures forall b :: b in bs <==> b.id in BrokersById(bs) && BrokersById(bs)[b.id] == b
    ensures forall id :: id in BrokersById(bs) ==> BrokersById(bs)[id].id == id
  {
    hide BrokersById;
    BrokerIds(bs);
    forall b | b in bs ensures b.id in BrokersById(bs) && BrokersById(bs)[b.id] == b {
      var i :| 0 <= i < |bs| && bs[i] == b;
      var k :| 0 <= k < |bs| && bs[k] == BrokersById(bs)[b.id];
      SameIndex(bs, i, k);
    }
  }

  lemma SameIndex(bs: seq<Seen>, i: nat, k: nat)
    requires DistinctKeys(bs, SeenKey) && i < |bs| && k < |bs| && bs[i].id == bs[k].id
    ensures i == k
  {
  }

  lemma {:induction false} BrokerSize(bs: seq<Seen>)
    requires DistinctKeys(bs, SeenKey)
    ensures |BrokersById(bs)| == |bs|
  {
    hide Ordered;
    if bs != [] {
      var init, last := bs[..|bs| - 1], bs[|bs| - 1];
      BrokerSize(init);
      BrokerIds(init);
      forall k | 0 <= k < |init| ensures init[k].id != last.id { assert SeenKey(bs[k]) != SeenKey(bs[|bs| - 1]); }
    }
  }

  function LocalKey(l: Local): Key { Key(OrderKind, l.id) }

  lemma {:induction false} LocalIds(rows: seq<Local>)
    ensures forall id :: id in LocalsById(rows) ==> LocalsById(rows)[id] in rows && LocalsById(rows)[id].id == id
    ensures forall k :: 0 <= k < |rows| ==> rows[k].id in LocalsById(rows)
  {
    if rows != [] { LocalIds(rows[..|rows| - 1]); }
  }

  lemma LocalRows(rows: seq<Local>)
    requires DistinctKeys(rows, LocalKey)
    ensures forall l :: l in rows <==> l.id in LocalsById(rows) && LocalsById(rows)[l.id] == l
    ensures forall id :: id in LocalsById(rows) ==> LocalsById(rows)[id].id == id
  {
    hide LocalsById;
    LocalIds(rows);
    forall l | l in rows ensures l.id in LocalsById(rows) && LocalsById(rows)[l.id] == l {
      var i :| 0 <= i < |rows| && rows[i] == l;
      var k :| 0 <= k < |rows| && rows[k] == LocalsById(rows)[l.id];
      assert i < k ==> LocalKey(rows[i]) != LocalKey(rows[k]);
      assert k < i ==> LocalKey(rows[k]) != LocalKey(rows[i]);
    }
  }

  lemma SeenIdIff(bs: seq<Seen>, sorted: seq<Seen>, id: string)
    requires DistinctKeys(bs, SeenKey) && multiset(sorted) == multiset(bs)
    ensures SeenId(sorted, id) <==> id in BrokersById(bs)
  {
    BrokerRows(bs);
    SameElements(sorted, bs);
    if SeenId(sorted, id) {
      var k :| 0 <= k < |sorted| && sorted[k].id == id;
      assert sorted[k] in bs;
    }
    if id in BrokersById(bs) {
      assert BrokersById(bs)[id] in sorted;
    }
  }

  lemma {:induction false} DistinctCount(ids: seq<string>, all: set<string>)
    requires forall i, k :: 0 <= i < k < |ids| ==> ids[i] != ids[k]
    requires forall id :: id in ids <==> id in all
    ensures |ids| == |all|
  {
    if ids == [] {
      assert all == {};
    } else {
      var init, last := ids[..|ids| - 1], ids[|ids| - 1];
      assert ids == init + [last];
      DistinctCount(init, all - {last});
    }
  }

  // -------------------------------------------------------------- membership

  lemma SeenMembers(kind: Kind, locals: Locals, bs: seq<Seen>, sorted: seq<Seen>, d: Diff)
    requires DistinctKeys(bs, SeenKey) && multiset(sorted) == multiset(bs)
    ensures d in SeenDiffs(kind, locals, sorted)
      <==> d.id in BrokersById(bs) && d == SeenDiff(kind, locals, BrokersById(bs)[d.id])
  {
    hide Conflict, SeenSummary, LocalSummary;
    SeenShape(kind, locals, sorted);
    BrokerRows(bs);
    SameElements(sorted, bs);
    var ds := SeenDiffs(kind, locals, sorted);
    if d in ds {
      var k :| 0 <= k < |ds| && ds[k] == d;
      assert sorted[k] in bs;
    }
    if d.id in BrokersById(bs) && d == SeenDiff(kind, locals, BrokersById(bs)[d.id]) {
      var k :| 0 <= k < |sorted| && sorted[k] == BrokersById(bs)[d.id];
      assert ds[k] == d;
    }
  }

  lemma {:induction false} MissingMembers(kind: Kind, locals: Locals, ids: seq<string>, bs: seq<Seen>, d: Diff)
    requires forall k :: 0 <= k < |ids| ==> ids[k] in locals
    ensures d in MissingDiffs(kind, locals, ids, bs)
      <==> d.id in ids && !SeenId(bs, d.id) && d == Missing(kind, locals[d.id], d.id)
  {
    hide SeenId, LocalSummary;
    if ids != [] { MissingMembers(kind, locals, ids[..|ids| - 1], bs, d); }
  }

  lemma AllMembers(positions: seq<Local>, orders: seq<Local>, s: Snapshot, d: Diff)
    requires UniqueIds(s)
    ensures d in AllDiffs(positions, orders, s) <==>
      Known(SidesOf(positions, orders, s), d.kind, d.id) && d == Expected(SidesOf(positions, orders, s), d.kind, d.id)
  {
    hide SeenDiffs, MissingDiffs, SeenId, Sort, LocalsById, FirstIds, BrokersById, Conflict, SeenSummary, LocalSummary;
    KindMembers(PositionKind, positions, s.positions, d);
    KindMembers(OrderKind, orders, s.orders, d);
  }

  lemma KindMembers(kind: Kind, rows: seq<Local>, bs: seq<Seen>, d: Diff)
    requires DistinctKeys(bs, SeenKey)
    ensures var sorted := Sort(bs, SeenKey);
      var locals, brokers := LocalsById(rows), BrokersById(bs);
      d in SeenDiffs(kind, locals, sorted) || d in LocalMissing(kind, rows, sorted) <==>
        && d.kind == kind && (d.id in locals || d.id in brokers)
        && d == if d.id in brokers then SeenDiff(kind, locals, brokers[d.id]) else Missing(kind, locals[d.id], d.id)
  {
    hide SeenDiffs, MissingDiffs, SeenId, Sort, LocalsById, FirstIds, BrokersById, Conflict, SeenSummary, LocalSummary;
    var sorted := Sort(bs, SeenKey);
    SortSorts(bs, SeenKey);
    FirstIdsAreKeys(rows);
    BrokerRows(bs);
    SeenMembers(kind, LocalsById(rows), bs, sorted, d);
    MissingMembers(kind, LocalsById(rows), FirstIds(rows), sorted, d);
    SeenIdIff(bs, sorted, d.id);
  }

  // ---------------------------------------------------------------- distinct

  lemma DistinctConcat(a: seq<Diff>, b: seq<Diff>)
    requires DistinctKeys(a, DiffKey) && DistinctKeys(b, DiffKey)
    requires forall x, y :: x in a && y in b ==> DiffKey(x) != DiffKey(y)
    ensures DistinctKeys(a + b, DiffKey)
  {
  }

  lemma SeenDistinct(kind: Kind, locals: Locals, bs: seq<Seen>)
    requires DistinctKeys(bs, SeenKey)
    ensures DistinctKeys(SeenDiffs(kind, locals, Sort(bs, SeenKey)), DiffKey)
  {
    hide SeenDiffs, Sort, Conflict, SeenSummary, LocalSummary;
    var sorted := Sort(bs, SeenKey);
    SortSorts(bs, SeenKey);
    DistinctPermutes(bs, sorted, SeenKey);
    SeenShape(kind, locals, sorted);
    forall i, k | 0 <= i < k < |sorted|
      ensures DiffKey(SeenDiffs(kind, locals, sorted)[i]) != DiffKey(SeenDiffs(kind, locals, sorted)[k])
    {
      assert SeenKey(sorted[i]) != SeenKey(sorted[k]);
    }
  }

  lemma {:induction false} MissingDistinct(kind: Kind, locals: Locals, ids: seq<string>, bs: seq<Seen>)
    requires forall k :: 0 <= k < |ids| ==> ids[k] in locals
    requires forall i, k :: 0 <= i < k < |ids| ==> ids[i] != ids[k]
    ensures DistinctKeys(MissingDiffs(kind, locals, ids, bs), DiffKey)
  {
    hide SeenId, LocalSummary;
    if ids != [] {
      var init, last := ids[..|ids| - 1], ids[|ids| - 1];
      MissingDistinct(kind, locals, init, bs);
      var ds := MissingDiffs(kind, locals, init, bs);
      forall k | 0 <= k < |ds| ensures DiffKey(ds[k]) != Key(kind, last) {
        MissingMembers(kind, locals, init, bs, ds[k]);
      }
    }
  }

  lemma AllDistinct(positions: seq<Local>, orders: seq<Local>, s: Snapshot)
    requires UniqueIds(s)
    ensures DistinctKeys(AllDiffs(positions, orders, s), DiffKey)
  {
    hide SeenDiffs, MissingDiffs, SeenId, Sort, LocalsById, FirstIds, BrokersById;
    var sp, so := Sort(s.positions, SeenKey), Sort(s.orders, SeenKey);
    var ps, os := SeenDiffs(PositionKind, LocalsById(positions), sp), SeenDiffs(OrderKind, LocalsById(orders), so);
    var pm, om := LocalMissing(PositionKind, positions, sp), LocalMissing(OrderKind, orders, so);
    FirstIdsAreKeys(positions);
    FirstIdsAreKeys(orders);
    SeenDistinct(PositionKind, LocalsById(positions), s.positions);
    SeenDistinct(OrderKind, LocalsById(orders), s.orders);
    MissingDistinct(PositionKind, LocalsById(positions), FirstIds(positions), sp);
    MissingDistinct(OrderKind, LocalsById(orders), FirstIds(orders), so);
    SeenShape(PositionKind, LocalsById(positions), sp);
    SeenShape(OrderKind, LocalsById(orders), so);
    MissingShape(PositionKind, LocalsById(positions), FirstIds(positions), sp);
    MissingShape(OrderKind, LocalsById(orders), FirstIds(orders), so);
    DistinctConcat(ps, os);
    SeenApart(PositionKind, positions, s.positions);
    SeenApart(OrderKind, orders, s.orders);
    DistinctConcat(ps + os, pm);
    DistinctConcat(ps + os + pm, om);
  }

  /** No entity is both seen at the broker and missing there. */
  lemma SeenApart(kind: Kind, rows: seq<Local>, bs: seq<Seen>)
    requires DistinctKeys(bs, SeenKey)
    ensures forall x, y ::
      x in SeenDiffs(kind, LocalsById(rows), Sort(bs, SeenKey)) && y in LocalMissing(kind, rows, Sort(bs, SeenKey))
      ==> DiffKey(x) != DiffKey(y)
  {
    hide SeenDiffs, MissingDiffs, SeenId, Sort, LocalsById, FirstIds, BrokersById, Conflict, SeenSummary, LocalSummary;
    var sorted := Sort(bs, SeenKey);
    SortSorts(bs, SeenKey);
    FirstIdsAreKeys(rows);
    forall x, y | x in SeenDiffs(kind, LocalsById(rows), sorted) && y in LocalMissing(kind, rows, sorted)
      ensures DiffKey(x) != DiffKey(y)
    {
      SeenMembers(kind, LocalsById(rows), bs, sorted, x);
      MissingMembers(kind, LocalsById(rows), FirstIds(rows), sorted, y);
      SeenIdIff(bs, sorted, y.id);
    }
  }

  // ---------------------------------------------------------------- counters

  /** The entities of one kind and class among the diffs. */
  function IdsWith(diffs: seq<Diff>, kind: Kind, cls: Class): set<string> {
    set k | 0 <= k < |diffs| && diffs[k].kind == kind && diffs[k].cls == cls :: diffs[k].id
  }

  lemma IdsSnoc(init: seq<Diff>, last: Diff, kind: Kind, cls: Class)
    ensures IdsWith(init + [last], kind, cls) ==
      IdsWith(init, kind, cls) + if last.kind == kind && last.cls == cls then {last.id} else {}
  {
    var all := init + [last];
    var more := if last.kind == kind && last.cls == cls then {last.id} else {};
    assert all[|init|] == last;
    forall id | id in IdsWith(init, kind, cls) ensures id in IdsWith(all, kind, cls) {
      var k :| 0 <= k < |init| && init[k].kind == kind && init[k].cls == cls && init[k].id == id;
      assert all[k] == init[k];
    }
    forall id | id in IdsWith(all, kind, cls) ensures id in IdsWith(init, kind, cls) + more {
      var k :| 0 <= k < |all| && all[k].kind == kind && all[k].cls == cls && all[k].id == id;
      assert k < |init| ==> all[k] == init[k];
    }
  }

  lemma {:induction false} CountIsSize(diffs: seq<Diff>, kind: Kind, cls: Class)
    requires DistinctKeys(diffs, DiffKey)
    ensures Count(diffs, kind, cls) == |IdsWith(diffs, kind, cls)|
  {
    if diffs != [] {
      var init, last := diffs[..|diffs| - 1], diffs[|diffs| - 1];
      CountIsSize(init, kind, cls);
      assert diffs == init + [last];
      IdsSnoc(init, last, kind, cls);
      if last.kind == kind && last.cls == cls { FreshId(diffs, kind, cls); }
    }
  }

  lemma FreshId(diffs: seq<Diff>, kind: Kind, cls: Class)
    requires DistinctKeys(diffs, DiffKey) && diffs != [] && diffs[|diffs| - 1].kind == kind
    ensures diffs[|diffs| - 1].id !in IdsWith(diffs[..|diffs| - 1], kind, cls)
  {
    forall k | 0 <= k < |diffs| - 1 && diffs[k].kind == kind ensures diffs[k].id != diffs[|diffs| - 1].id {
      assert DiffKey(diffs[k]) != DiffKey(diffs[|diffs| - 1]);
    }
  }

  lemma ExpectedIds(diffs: seq<Diff>, s: Sides, kind: Kind, cls: Class, id: string)
    requires ExactlyExpected(diffs, s) && Keyed(s)
    ensures id in IdsWith(diffs, kind, cls) <==> Known(s, kind, id) && Expected(s, kind, id).cls == cls
  {
    hide Conflict, SeenSummary, LocalSummary;
    if id in IdsWith(diffs, kind, cls) {
      var k :| 0 <= k < |diffs| && diffs[k].kind == kind && diffs[k].cls == cls && diffs[k].id == id;
      assert diffs[k] in diffs;
    }
    if Known(s, kind, id) && Expected(s, kind, id).cls == cls {
      var d := Expected(s, kind, id);
      assert d.kind == kind && d.id == id;
      assert d in diffs;
    }
  }

  lemma ExpectedClass(s: Sides, kind: Kind, id: string)
    ensures Known(s, kind, id) && Expected(s, kind, id).cls.Recoverable? <==> id in BrokerOnly(s, kind)
    ensures Known(s, kind, id) && Expected(s, kind, id).cls.MissingBroker? <==> id in LocalOnly(s, kind)
    ensures Known(s, kind, id) && Expected(s, kind, id).cls.ConflictingState? <==> id in InConflict(s, kind)
  {
    hide Conflict, SeenSummary, LocalSummary;
  }

  lemma CountersAreSizes(diffs: seq<Diff>, s: Sides, kind: Kind)
    requires DistinctKeys(diffs, DiffKey) && ExactlyExpected(diffs, s) && Keyed(s)
    ensures Count(diffs, kind, Recoverable) == |BrokerOnly(s, kind)|
    ensures Count(diffs, kind, MissingBroker) == |LocalOnly(s, kind)|
    ensures Count(diffs, kind, ConflictingState) == |InConflict(s, kind)|
  {
    hide Count, IdsWith, BrokerOnly, LocalOnly, InConflict, Expected, Known;
    forall id ensures id in IdsWith(diffs, kind, Recoverable) <==> id in BrokerOnly(s, kind) {
      ExpectedIds(diffs, s, kind, Recoverable, id);
      ExpectedClass(s, kind, id);
    }
    forall id ensures id in IdsWith(diffs, kind, MissingBroker) <==> id in LocalOnly(s, kind) {
      ExpectedIds(diffs, s, kind, MissingBroker, id);
      ExpectedClass(s, kind, id);
    }
    forall id ensures id in IdsWith(diffs, kind, ConflictingState) <==> id in InConflict(s, kind) {
      ExpectedIds(diffs, s, kind, ConflictingState, id);
      ExpectedClass(s, kind, id);
    }
    assert IdsWith(diffs, kind, Recoverable) == BrokerOnly(s, kind);
    assert IdsWith(diffs, kind, MissingBroker) == LocalOnly(s, kind);
    assert IdsWith(diffs, kind, ConflictingState) == InConflict(s, kind);
    CountIsSize(diffs, kind, Recoverable);
    CountIsSize(diffs, kind, MissingBroker);
    CountIsSize(diffs, kind, ConflictingState);
  }

  /** Classification is exact: for unique broker ids, whatever the local rows. */
  lemma ClassifiesExactly(positions: seq<Local>, orders: seq<Local>, snapshot: Snapshot)
    requires UniqueIds(snapshot)
    ensures Characterised(Comparison(positions, orders, snapshot), SidesOf(positions, orders, snapshot))
  {
    hide AllDiffs, Sort, Expected, Count, LocalsById, FirstIds, BrokersById, Known, BrokerOnly, LocalOnly, InConflict;
    var s, all := SidesOf(positions, orders, snapshot), AllDiffs(positions, orders, snapshot);
    var diffs := Sort(all, DiffKey);
    SortSorts(all, DiffKey);
    SameElements(diffs, all);
    AllDistinct(positions, orders, snapshot);
    DistinctPermutes(all, diffs, DiffKey);
    forall d ensures d in diffs <==> Known(s, d.kind, d.id) && d == Expected(s, d.kind, d.id) {
      AllMembers(positions, orders, snapshot, d);
    }
    BrokerRows(snapshot.positions);
    BrokerRows(snapshot.orders);
    BrokerSize(snapshot.positions);
    BrokerSize(snapshot.orders);
    CountersAreSizes(diffs, s, PositionKind);
    CountersAreSizes(diffs, s, OrderKind);
    RowsCounted(positions);
    RowsCounted(orders);
  }

  lemma RowsCounted(rows: seq<Local>)
    ensures |FirstIds(rows)| == |LocalsById(rows)|
  {
    FirstIdsAreKeys(rows);
    DistinctCount(FirstIds(rows), LocalsById(rows).Keys);
  }

  // ------------------------------------------------------------ consequences

  /** The two sides determine the outcome. */
  lemma OutcomeDetermined(o: Outcome, o': Outcome, s: Sides)
    requires Characterised(o, s) && Characterised(o', s)
    ensures o == o'
  {
    hide Ordered, DistinctKeys, Expected, Known, BrokerOnly, LocalOnly, InConflict;
    forall d ensures d in o.diffs <==> d in o'.diffs {}
    OrderedUnique(o.diffs, o'.diffs, DiffKey);
  }

  /** SYNCED exactly when both sides know the same entities and none is in conflict; ADOPTED_BROKER
      exactly when the broker knows more, nothing conflicts and no local position is missing. */
  lemma ResultMeaning(o: Outcome, s: Sides)
    requires Characterised(o, s)
    ensures o.result.Synced? <==> o.brokerOrphans == o.localOrphans == o.conflicts == 0
    ensures o.result.Synced? <==> Agree(s, PositionKind) && Agree(s, OrderKind)
    ensures o.result.AdoptedBroker? <==>
      && (BrokerOnly(s, PositionKind) != {} || BrokerOnly(s, OrderKind) != {}) && LocalOnly(s, PositionKind) == {}
      && InConflict(s, PositionKind) == {} && InConflict(s, OrderKind) == {}
    ensures o.mismatch <==> exists d :: d in o.diffs && !d.cls.NoMismatch?
  {
    hide Ordered, DistinctKeys, InConflict, BrokerOnly, LocalOnly, ExactlyExpected, Agree;
    AgreeIff(s, PositionKind);
    AgreeIff(s, OrderKind);
    Mismatches(o.diffs, s);
  }

  /** Both sides know the same entities of a kind, and no two rows conflict. */
  ghost predicate Agree(s: Sides, kind: Kind) {
    && Ours(s, kind).Keys == Theirs(s, kind).Keys
    && forall id :: id in Ours(s, kind) && id in Theirs(s, kind) ==>
      Conflict(kind, Ours(s, kind)[id], Theirs(s, kind)[id]).None?
  }

  lemma AgreeIff(s: Sides, kind: Kind)
    ensures Agree(s, kind) <==> BrokerOnly(s, kind) == {} && LocalOnly(s, kind) == {} && InConflict(s, kind) == {}
  {
    hide Conflict;
    if BrokerOnly(s, kind) == {} && LocalOnly(s, kind) == {} && InConflict(s, kind) == {} {
      forall id ensures id in Ours(s, kind).Keys <==> id in Theirs(s, kind).Keys {
        assert id !in BrokerOnly(s, kind) && id !in LocalOnly(s, kind);
      }
      forall id | id in Ours(s, kind) && id in Theirs(s, kind)
        ensures Conflict(kind, Ours(s, kind)[id], Theirs(s, kind)[id]).None?
      {
        assert id !in InConflict(s, kind);
      }
    }
  }

  lemma Mismatches(diffs: seq<Diff>, s: Sides)
    requires ExactlyExpected(diffs, s) && Keyed(s)
    ensures Agree(s, PositionKind) && Agree(s, OrderKind) <==> forall d :: d in diffs ==> d.cls.NoMismatch?
  {
    hide SeenSummary, LocalSummary, Conflict;
    if forall d :: d in diffs ==> d.cls.NoMismatch? {
      MatchesAgree(diffs, s, PositionKind);
      MatchesAgree(diffs, s, OrderKind);
    }
  }

  lemma MatchesAgree(diffs: seq<Diff>, s: Sides, kind: Kind)
    requires ExactlyExpected(diffs, s) && Keyed(s) && forall d :: d in diffs ==> d.cls.NoMismatch?
    ensures Agree(s, kind)
  {
    hide SeenSummary, LocalSummary, Conflict, ExactlyExpected;
    forall id | Known(s, kind, id) ensures Expected(s, kind, id).cls.NoMismatch? {
      InDiffs(diffs, s, kind, id);
    }
    forall id ensures id in Ours(s, kind).Keys <==> id in Theirs(s, kind).Keys {
      if Known(s, kind, id) { assert Expected(s, kind, id).cls.NoMismatch?; }
    }
    forall id | id in Ours(s, kind) && id in Theirs(s, kind)
      ensures Conflict(kind, Ours(s, kind)[id], Theirs(s, kind)[id]).None?
    {
      assert Known(s, kind, id) && Expected(s, kind, id).cls.NoMismatch?;
    }
  }

  lemma InDiffs(diffs: seq<Diff>, s: Sides, kind: Kind, id: string)
    requires ExactlyExpected(diffs, s) && Keyed(s) && Known(s, kind, id)
    ensures Expected(s, kind, id) in diffs
  {
    hide SeenSummary, LocalSummary, Conflict;
  }

  /** The order of the local rows, of the broker's positions and of its orders is irrelevant. */
  lemma OrderDoesNotMatter(positions: seq<Local>, orders: seq<Local>, s: Snapshot,
                           positions': seq<Local>, orders': seq<Local>, s': Snapshot)
    requires UniqueIds(s) && DistinctKeys(positions, LocalKey) && DistinctKeys(orders, LocalKey)
    requires multiset(positions) == multiset(positions') && multiset(orders) == multiset(orders')
    requires multiset(s.positions) == multiset(s'.positions) && multiset(s.orders) == multiset(s'.orders)
    ensures Comparison(positions, orders, s) == Comparison(positions', orders', s')
  {
    hide Characterised, Comparison;
    LocalsPermute(positions, positions');
    LocalsPermute(orders, orders');
    BrokersPermute(s.positions, s'.positions);
    BrokersPermute(s.orders, s'.orders);
    ClassifiesExactly(positions, orders, s);
    ClassifiesExactly(positions', orders', s');
    OutcomeDetermined(Comparison(positions, orders, s), Comparison(positions', orders', s'),
      SidesOf(positions, orders, s));
  }

  lemma LocalsPermute(rows: seq<Local>, rows': seq<Local>)
    requires DistinctKeys(rows, LocalKey) && multiset(rows) == multiset(rows')
    ensures LocalsById(rows) == LocalsById(rows')
  {
    DistinctPermutes(rows, rows', LocalKey);
    SameElements(rows, rows');
    LocalRows(rows);
    LocalRows(rows');
    forall id ensures id in LocalsById(rows) <==> id in LocalsById(rows') {
      if id in LocalsById(rows) { assert LocalsById(rows)[id] in rows'; }
      if id in LocalsById(rows') { assert LocalsById(rows')[id] in rows; }
    }
  }

  lemma BrokersPermute(bs: seq<Seen>, bs': seq<Seen>)
    requires DistinctKeys(bs, SeenKey) && multiset(bs) == multiset(bs')
    ensures DistinctKeys(bs', SeenKey) && BrokersById(bs) == BrokersById(bs')
  {
    DistinctPermutes(bs, bs', SeenKey);
    SameElements(bs, bs');
    BrokerRows(bs);
    BrokerRows(bs');
    forall id ensures id in BrokersById(bs) <==> id in BrokersById(bs') {
      if id in BrokersById(bs) { assert BrokersById(bs)[id] in bs'; }
      if id in BrokersById(bs') { assert BrokersById(bs')[id] in bs; }
    }
  }

  // ------------------------------------------------ only the local rows by id count

  /** Missing diffs by kind, kept apart by it. */
  lemma MissingOfBoth(positions: seq<Local>, orders: seq<Local>, sp: seq<Seen>, so: seq<Seen>)
    ensures var pm, om := LocalMissing(PositionKind, positions, sp), LocalMissing(OrderKind, orders, so);
      DistinctKeys(pm + om, DiffKey)
  {
    hide MissingDiffs, LocalsById, FirstIds;
    FirstIdsAreKeys(positions);
    FirstIdsAreKeys(orders);
    MissingDistinct(PositionKind, LocalsById(positions), FirstIds(positions), sp);
    MissingDistinct(OrderKind, LocalsById(orders), FirstIds(orders), so);
    MissingShape(PositionKind, LocalsById(positions), FirstIds(positions), sp);
    MissingShape(OrderKind, LocalsById(orders), FirstIds(orders), so);
    DistinctConcat(LocalMissing(PositionKind, positions, sp), LocalMissing(OrderKind, orders, so));
  }

  lemma SameMissing(kind: Kind, rows: seq<Local>, rows': seq<Local>, bs: seq<Seen>, d: Diff)
    requires LocalsById(rows) == LocalsById(rows')
    ensures d in LocalMissing(kind, rows, bs) <==> d in LocalMissing(kind, rows', bs)
  {
    hide MissingDiffs, LocalsById, FirstIds, SeenId;
    FirstIdsAreKeys(rows);
    FirstIdsAreKeys(rows');
    MissingMembers(kind, LocalsById(rows), FirstIds(rows), bs, d);
    MissingMembers(kind, LocalsById(rows'), FirstIds(rows'), bs, d);
  }

  /** Whatever the snapshot, repeated broker ids included, the outcome depends on the local rows only
      through what they hold by id. */
  lemma LocalsDetermine(positions: seq<Local>, orders: seq<Local>, positions': seq<Local>, orders': seq<Local>,
                        s: Snapshot)
    requires LocalsById(positions) == LocalsById(positions') && LocalsById(orders) == LocalsById(orders')
    ensures Comparison(positions, orders, s) == Comparison(positions', orders', s)
  {
    hide SeenDiffs, LocalMissing, LocalsById, FirstIds, Sort, Count, InsertAll;
    var sp, so := Sort(s.positions, SeenKey), Sort(s.orders, SeenKey);
    var seen := SeenDiffs(PositionKind, LocalsById(positions), sp) + SeenDiffs(OrderKind, LocalsById(orders), so);
    var missing := LocalMissing(PositionKind, positions, sp) + LocalMissing(OrderKind, orders, so);
    var missing' := LocalMissing(PositionKind, positions', sp) + LocalMissing(OrderKind, orders', so);
    assert AllDiffs(positions, orders, s) == seen + missing;
    assert AllDiffs(positions', orders', s) == seen + missing';
    MissingOfBoth(positions, orders, sp, so);
    MissingOfBoth(positions', orders', sp, so);
    forall d ensures d in missing <==> d in missing' {
      SameMissing(PositionKind, positions, positions', sp, d);
      SameMissing(OrderKind, orders, orders', so, d);
    }
    SortConcat(seen, missing, DiffKey);
    SortConcat(seen, missing', DiffKey);
    InsertAnyOrder(Sort(seen, DiffKey), missing, missing', DiffKey);
    RowsCounted(positions);
    RowsCounted(positions');
    RowsCounted(orders);
    RowsCounted(orders');
  }
}
