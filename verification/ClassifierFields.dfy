/**
 * The comparison read on the rows' own fields: what every diff says and when,
 * whatever the snapshot, repeated ids included.
 */
module ClassifierFields {
  import opened Common
  import opened Sorting
  import opened Classifier
  import opened ClassifierTheorems

  // ------------------------------------------------------------------ fields

  function Distance(x: real, y: real): real { if x < y then y - x else x - y }

  /** Within a millionth of each other, absolutely or relative to either; a missing value is near any. */
  predicate Near(a: Option<real>, b: Option<real>) {
    a.Some? && b.Some? ==>
      var d, x, y := Distance(a.value, b.value), a.value, b.value;
      d <= 0.000001 || d <= 0.000001 * Distance(x, 0.0) || d <= 0.000001 * Distance(y, 0.0)
  }

  /** Space, tab, newline, vertical tab, form feed, carriage return and the four separators. */
  predicate White(c: char) {
    var n := c as int;
    n == 32 || (9 <= n && n <= 13) || (28 <= n && n <= 31)
  }

  /** t is s without the blanks around it, its letters in upper case. */
  ghost predicate IsToken(t: string, s: string) {
    exists before: string, core: string, after: string :: TokenOf(t, s, before, core, after)
  }

  predicate TokenOf(t: string, s: string, before: string, core: string, after: string) {
    && s == before + core + after
    && (forall k :: 0 <= k < |before| ==> White(before[k])) && (forall k :: 0 <= k < |after| ==> White(after[k]))
    && (core != [] ==> !White(core[0]) && !White(core[|core| - 1]))
    && |t| == |core| && forall k :: 0 <= k < |t| ==>
      var n := core[k] as int;
      t[k] as int == if 97 <= n && n <= 122 then n - 32 else n
  }

  lemma {:induction false} TrimsLeft(s: string) returns (before: string)
    ensures s == before + TrimLeft(s) && forall k :: 0 <= k < |before| ==> White(before[k])
    ensures TrimLeft(s) != [] ==> !White(TrimLeft(s)[0])
  {
    before := [];
    if s != [] && Blank(s[0]) {
      before := TrimsLeft(s[1..]);
      before := [s[0]] + before;
    }
  }

  lemma {:induction false} TrimsRight(s: string) returns (after: string)
    ensures s == TrimRight(s) + after && forall k :: 0 <= k < |after| ==> White(after[k])
    ensures TrimRight(s) != [] ==> !White(TrimRight(s)[|TrimRight(s)| - 1])
  {
    after := [];
    if s != [] && Blank(s[|s| - 1]) {
      after := TrimsRight(s[..|s| - 1]);
      after := after + [s[|s| - 1]];
    }
  }

  /** Texts are compared and printed without the blanks around them and in upper case; a missing text
      as the empty one. */
  lemma TokenMeans(s: string)
    ensures IsToken(Token(Some(s)), s) && Token(None) == ""
  {
    var before := TrimsLeft(s);
    var left := TrimLeft(s);
    var after := TrimsRight(left);
    var core := TrimRight(left);
    assert core != [] ==> core[0] == left[0];
    assert s == before + core + after;
    assert TokenOf(Upper(core), s, before, core, after);
  }

  // --------------------------------------------------------- rows and their diffs

  /** l is the row that counts for its id: the last one with it. */
  predicate Counts(rows: seq<Local>, l: Local) {
    exists n :: 0 <= n < |rows| && rows[n] == l && forall m :: n < m < |rows| ==> rows[m].id != l.id
  }

  predicate NoRow(rows: seq<Local>, id: string) {
    forall n :: 0 <= n < |rows| ==> rows[n].id != id
  }

  lemma {:induction false} ByIdMeans(rows: seq<Local>, id: string)
    ensures id !in LocalsById(rows) <==> NoRow(rows, id)
    ensures id in LocalsById(rows) ==> LocalsById(rows)[id].id == id && Counts(rows, LocalsById(rows)[id])
  {
    if rows != [] {
      var init, last := rows[..|rows| - 1], rows[|rows| - 1];
      ByIdMeans(init, id);
      if last.id == id {
        assert rows[|rows| - 1] == last;
      } else if id in LocalsById(init) {
        var n :| 0 <= n < |init| && init[n] == LocalsById(init)[id] && forall m :: n < m < |init| ==> init[m].id != id;
        assert rows[n] == init[n];
      }
    }
  }

  lemma CountsOnce(rows: seq<Local>, l: Local)
    requires Counts(rows, l)
    ensures l.id in LocalsById(rows) && LocalsById(rows)[l.id] == l
  {
    ByIdMeans(rows, l.id);
    var n :| 0 <= n < |rows| && rows[n] == l && forall m :: n < m < |rows| ==> rows[m].id != l.id;
    var k := LocalsById(rows)[l.id];
    var i :| 0 <= i < |rows| && rows[i] == k && forall m :: i < m < |rows| ==> rows[m].id != k.id;
    assert i == n;
  }

  /** A local and a broker position of one id: the first of direction, volume and price that differs
      is the reason of a conflict. */
  predicate PositionDiff(d: Diff, l: Local, b: Seen) {
    && d.kind == PositionKind && d.id == b.id
    && d.local == Summary(None, Some(Token(l.direction)), l.lot, l.price, Token(l.state))
    && d.remote == Summary(b.symbol, Some(Token(b.side)), b.volume, b.price, Token(Some(b.state)))
    && (if Token(l.direction) != Token(b.side) then d.cls == ConflictingState && d.reason == DirectionDiffers
        else if !Near(l.lot, b.volume) then d.cls == ConflictingState && d.reason == VolumeDiffers
        else if !Near(l.price, b.price) then d.cls == ConflictingState && d.reason == PriceDiffers
        else d.cls == NoMismatch && d.reason == Match)
  }

  /** Orders likewise, but for the direction. */
  predicate OrderDiff(d: Diff, l: Local, b: Seen) {
    && d.kind == OrderKind && d.id == b.id
    && d.local == Summary(None, None, l.lot, l.price, Token(l.state))
    && d.remote == Summary(b.symbol, if b.side.None? then None else Some(Token(b.side)), b.volume, b.price,
                           Token(Some(b.state)))
    && (if !Near(l.lot, b.volume) then d.cls == ConflictingState && d.reason == VolumeDiffers
        else if !Near(l.price, b.price) then d.cls == ConflictingState && d.reason == PriceDiffers
        else d.cls == NoMismatch && d.reason == Match)
  }

  predicate SharedDiff(d: Diff, kind: Kind, l: Local, b: Seen) {
    if kind.PositionKind? then PositionDiff(d, l, b) else OrderDiff(d, l, b)
  }

  /** A broker row without a local one is adopted. */
  predicate OrphanDiff(d: Diff, kind: Kind, b: Seen) {
    && d.kind == kind && d.id == b.id && d.cls == Recoverable && d.reason == NoLocalMapping && d.local == NoSummary
    && d.remote == Summary(b.symbol, if kind.OrderKind? && b.side.None? then None else Some(Token(b.side)), b.volume,
                           b.price, Token(Some(b.state)))
  }

  /** A local row without a broker one is missing there. */
  predicate AbsentDiff(d: Diff, kind: Kind, l: Local) {
    && d.kind == kind && d.id == l.id && d.cls == MissingBroker && d.reason == AbsentFromBroker
    && d.remote == NoSummary
    && d.local == Summary(None, if kind.PositionKind? then Some(Token(l.direction)) else None, l.lot, l.price,
                          Token(l.state))
  }

  lemma NearIsClose(a: Option<real>, b: Option<real>)
    ensures IsClose(a, b) <==> Near(a, b)
  {
    if a.Some? && b.Some? {
      assert Abs(a.value - b.value) == Distance(a.value, b.value);
      assert Abs(a.value) == Distance(a.value, 0.0) && Abs(b.value) == Distance(b.value, 0.0);
    }
  }

  lemma ComparedTells(kind: Kind, l: Local, b: Seen)
    ensures SharedDiff(Compared(kind, l, b), kind, l, b)
  {
    hide Token, IsClose, Near;
    NearIsClose(l.lot, b.volume);
    NearIsClose(l.price, b.price);
  }

  lemma SharedOnce(d: Diff, e: Diff, kind: Kind, l: Local, b: Seen)
    requires SharedDiff(d, kind, l, b) && SharedDiff(e, kind, l, b)
    ensures d == e
  {
    hide Token, Near;
  }

  // ------------------------------------------------------------ the comparison

  predicate FromBroker(d: Diff, kind: Kind, rows: seq<Local>, bs: seq<Seen>) {
    exists b :: b in bs && ToldOf(d, kind, rows, b)
  }

  /** The diff of broker row b: against the row that counts for its id, or an adoption. */
  predicate ToldOf(d: Diff, kind: Kind, rows: seq<Local>, b: Seen) {
    if NoRow(rows, b.id) then OrphanDiff(d, kind, b)
    else exists l :: l in rows && l.id == b.id && Counts(rows, l) && SharedDiff(d, kind, l, b)
  }

  predicate Unseen(bs: seq<Seen>, id: string) {
    forall k :: 0 <= k < |bs| ==> bs[k].id != id
  }

  predicate FromLocal(d: Diff, kind: Kind, rows: seq<Local>, bs: seq<Seen>) {
    exists l :: l in rows && Counts(rows, l) && AbsentDiff(d, kind, l) && Unseen(bs, l.id)
  }

  lemma SeenTells(kind: Kind, rows: seq<Local>, b: Seen, d: Diff)
    ensures d == SeenDiff(kind, LocalsById(rows), b) <==> ToldOf(d, kind, rows, b)
  {
    hide LocalsById, Compared, SharedDiff, Counts, NoRow, Token;
    ByIdMeans(rows, b.id);
    var locals := LocalsById(rows);
    if b.id in locals {
      var l := locals[b.id];
      ComparedTells(kind, l, b);
      CountsIn(rows, l);
      assert ToldOf(Compared(kind, l, b), kind, rows, b);
      if ToldOf(d, kind, rows, b) {
        var k :| k in rows && k.id == b.id && Counts(rows, k) && SharedDiff(d, kind, k, b);
        CountsOnce(rows, k);
        SharedOnce(d, Compared(kind, l, b), kind, l, b);
      }
    } else {
      AdoptedTells(kind, b, d);
    }
  }

  lemma CountsIn(rows: seq<Local>, l: Local)
    requires Counts(rows, l)
    ensures l in rows
  {
  }

  lemma AdoptedTells(kind: Kind, b: Seen, d: Diff)
    ensures d == Adoptable(kind, b) <==> OrphanDiff(d, kind, b)
  {
    hide Token;
  }

  lemma MissingTells(kind: Kind, rows: seq<Local>, bs: seq<Seen>, d: Diff)
    ensures d in LocalMissing(kind, rows, bs) <==> FromLocal(d, kind, rows, bs)
  {
    hide LocalsById, FirstIds, MissingDiffs, Counts, NoRow, Token;
    FirstIdsAreKeys(rows);
    var locals := LocalsById(rows);
    MissingMembers(kind, locals, FirstIds(rows), bs, d);
    if d in LocalMissing(kind, rows, bs) {
      ByIdMeans(rows, d.id);
      CountsIn(rows, locals[d.id]);
      assert AbsentDiff(d, kind, locals[d.id]);
    }
    if FromLocal(d, kind, rows, bs) {
      var l :| l in rows && Counts(rows, l) && AbsentDiff(d, kind, l) && Unseen(bs, l.id);
      CountsOnce(rows, l);
      assert d == Missing(kind, locals[d.id], d.id);
    }
  }

  lemma KindTells(kind: Kind, rows: seq<Local>, bs: seq<Seen>, d: Diff)
    ensures var sorted := Sort(bs, SeenKey);
      && (d in SeenDiffs(kind, LocalsById(rows), sorted) <==> FromBroker(d, kind, rows, bs))
      && (d in LocalMissing(kind, rows, sorted) <==> FromLocal(d, kind, rows, bs))
  {
    hide LocalsById, SeenDiff, SeenDiffs, LocalMissing, ToldOf, Sort, FromLocal;
    var sorted, locals := Sort(bs, SeenKey), LocalsById(rows);
    SortSorts(bs, SeenKey);
    SameElements(sorted, bs);
    SeenShape(kind, locals, sorted);
    var ds := SeenDiffs(kind, locals, sorted);
    if d in ds {
      var k :| 0 <= k < |ds| && ds[k] == d;
      SeenTells(kind, rows, sorted[k], d);
      assert sorted[k] in bs;
    }
    if FromBroker(d, kind, rows, bs) {
      var b :| b in bs && ToldOf(d, kind, rows, b);
      SeenTells(kind, rows, b, d);
      var k :| 0 <= k < |sorted| && sorted[k] == b;
      assert ds[k] == d;
    }
    MissingTells(kind, rows, sorted, d);
    SameAbsences(kind, rows, sorted, bs, d);
  }

  lemma SameAbsences(kind: Kind, rows: seq<Local>, a: seq<Seen>, b: seq<Seen>, d: Diff)
    requires forall x :: x in a <==> x in b
    ensures FromLocal(d, kind, rows, a) <==> FromLocal(d, kind, rows, b)
  {
    hide Counts, AbsentDiff;
    forall id ensures Unseen(a, id) <==> Unseen(b, id) {
      assert (forall k :: 0 <= k < |a| ==> a[k].id != id) <==> (forall x :: x in a ==> x.id != id);
      assert (forall k :: 0 <= k < |b| ==> b[k].id != id) <==> (forall x :: x in b ==> x.id != id);
    }
  }

  /** Whatever the two sides hold: the diffs are exactly those of the broker's rows and of the local
      rows it does not show; orders come before positions, each by id. */
  lemma DiffsTell(positions: seq<Local>, orders: seq<Local>, s: Snapshot, d: Diff)
    ensures d in Comparison(positions, orders, s).diffs <==>
      || FromBroker(d, PositionKind, positions, s.positions) || FromLocal(d, PositionKind, positions, s.positions)
      || FromBroker(d, OrderKind, orders, s.orders) || FromLocal(d, OrderKind, orders, s.orders)
  {
    hide SeenDiffs, LocalMissing, LocalsById, Sort, FromBroker, FromLocal;
    KindTells(PositionKind, positions, s.positions, d);
    KindTells(OrderKind, orders, s.orders, d);
    var all := AllDiffs(positions, orders, s);
    SortSorts(all, DiffKey);
    SameElements(Sort(all, DiffKey), all);
  }

  lemma DiffsInOrder(positions: seq<Local>, orders: seq<Local>, s: Snapshot, i: nat, k: nat)
    requires i < k < |Comparison(positions, orders, s).diffs|
    ensures var d, e := Comparison(positions, orders, s).diffs[i], Comparison(positions, orders, s).diffs[k];
      && (d.kind == PositionKind ==> e.kind == PositionKind)
      && (d.kind == e.kind ==> TextAtMost(d.id, e.id))
  {
    hide AllDiffs, Sort;
    SortSorts(AllDiffs(positions, orders, s), DiffKey);
    var ds := Sort(AllDiffs(positions, orders, s), DiffKey);
    assert AtMost(DiffKey(ds[i]), DiffKey(ds[k]));
  }

  // ------------------------------------------------------------------- results

  lemma {:induction false} CountFinds(diffs: seq<Diff>, kind: Kind, cls: Class)
    ensures Classifier.Count(diffs, kind, cls) > 0 <==> exists d :: d in diffs && d.kind == kind && d.cls == cls
  {
    if diffs != [] {
      var init, last := diffs[..|diffs| - 1], diffs[|diffs| - 1];
      CountFinds(init, kind, cls);
      assert diffs == init + [last];
    }
  }

  predicate Among(diffs: seq<Diff>, kind: Kind, cls: Class) {
    exists d :: d in diffs && d.kind == kind && d.cls == cls
  }

  /** A conflict or a missing position calls for escalation, and so does a missing order when the
      broker shows nothing unknown; otherwise anything unknown is adopted. */
  lemma ResultTells(positions: seq<Local>, orders: seq<Local>, s: Snapshot)
    ensures var o := Comparison(positions, orders, s);
      var orphan := Among(o.diffs, PositionKind, Recoverable) || Among(o.diffs, OrderKind, Recoverable);
      && (o.result == Escalated <==>
            || Among(o.diffs, PositionKind, ConflictingState) || Among(o.diffs, OrderKind, ConflictingState)
            || Among(o.diffs, PositionKind, MissingBroker) || (Among(o.diffs, OrderKind, MissingBroker) && !orphan))
      && (o.result != Escalated ==> o.result == if orphan then AdoptedBroker else Synced)
      && (o.result == Escalated ==> o.action == Escalate && o.mismatch)
      && (o.result == AdoptedBroker ==> o.action == AdoptBroker && o.mismatch)
      && (o.result == Synced ==> o.action == NoAction && !o.mismatch)
      && (o.conflicts > 0 <==>
            Among(o.diffs, PositionKind, ConflictingState) || Among(o.diffs, OrderKind, ConflictingState))
      && (o.brokerOrphans > 0 <==> orphan)
      && (o.localOrphans > 0 <==>
            Among(o.diffs, PositionKind, MissingBroker) || Among(o.diffs, OrderKind, MissingBroker))
  {
    hide AllDiffs, Sort, Classifier.Count, FirstIds, Among;
    var diffs := Comparison(positions, orders, s).diffs;
    Finds(diffs, PositionKind);
    Finds(diffs, OrderKind);
  }

  lemma Finds(diffs: seq<Diff>, kind: Kind)
    ensures Classifier.Count(diffs, kind, Recoverable) > 0 <==> Among(diffs, kind, Recoverable)
    ensures Classifier.Count(diffs, kind, MissingBroker) > 0 <==> Among(diffs, kind, MissingBroker)
    ensures Classifier.Count(diffs, kind, ConflictingState) > 0 <==> Among(diffs, kind, ConflictingState)
  {
    CountFinds(diffs, kind, Recoverable);
    CountFinds(diffs, kind, MissingBroker);
    CountFinds(diffs, kind, ConflictingState);
  }

  /** A position known to both sides has a diff that names the first field that differs; if one does,
      the comparison escalates. */
  lemma ConflictEscalates(positions: seq<Local>, orders: seq<Local>, s: Snapshot, l: Local, b: Seen) returns (d: Diff)
    requires Counts(positions, l) && b in s.positions && b.id == l.id
    ensures var o := Comparison(positions, orders, s);
      && d in o.diffs && PositionDiff(d, l, b)
      && (Token(l.direction) != Token(b.side) || !Near(l.lot, b.volume) || !Near(l.price, b.price) ==>
            o.result == Escalated && o.action == Escalate && o.conflicts > 0)
  {
    hide Comparison, Counts, Token, Near;
    d := Compared(PositionKind, l, b);
    ComparedTells(PositionKind, l, b);
    CountsIn(positions, l);
    HasRow(positions, l);
    assert ToldOf(d, PositionKind, positions, b);
    DiffsTell(positions, orders, s, d);
    ResultTells(positions, orders, s);
    assert d.cls.ConflictingState? ==> Among(Comparison(positions, orders, s).diffs, PositionKind, ConflictingState);
  }

  lemma HasRow(rows: seq<Local>, l: Local)
    requires Counts(rows, l)
    ensures !NoRow(rows, l.id)
  {
  }

  /** When the result is SYNCED or ADOPTED_BROKER, every position known to both sides has the same
      direction on both, and volumes and prices within a millionth. */
  lemma SyncedPositionsAgree(positions: seq<Local>, orders: seq<Local>, s: Snapshot, l: Local, b: Seen)
    requires Counts(positions, l) && b in s.positions && b.id == l.id
    requires var r := Comparison(positions, orders, s).result; r == Synced || r == AdoptedBroker
    ensures Token(l.direction) == Token(b.side) && Near(l.lot, b.volume) && Near(l.price, b.price)
  {
    hide Comparison, Counts, Token, Near, PositionDiff;
    var d := ConflictEscalates(positions, orders, s, l, b);
  }

  /** Orders known to both sides likewise agree in volume and price. */
  lemma SyncedOrdersAgree(positions: seq<Local>, orders: seq<Local>, s: Snapshot, l: Local, b: Seen)
    requires Counts(orders, l) && b in s.orders && b.id == l.id
    requires var r := Comparison(positions, orders, s).result; r == Synced || r == AdoptedBroker
    ensures Near(l.lot, b.volume) && Near(l.price, b.price)
  {
    hide Comparison, Counts, Token, Near;
    var d := Compared(OrderKind, l, b);
    ComparedTells(OrderKind, l, b);
    CountsIn(orders, l);
    HasRow(orders, l);
    assert ToldOf(d, OrderKind, orders, b);
    DiffsTell(positions, orders, s, d);
    ResultTells(positions, orders, s);
    assert d.cls.ConflictingState? ==> Among(Comparison(positions, orders, s).diffs, OrderKind, ConflictingState);
  }
}
