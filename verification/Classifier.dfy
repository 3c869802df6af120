/**
 * Local state against one broker snapshot (collector/reconciliation/classifier.py):
 * one diff per entity, counters, and the overall result.
 */
module Classifier {
  import opened Common
  import opened Sorting

  /** A locally derived position or order, as far as it is compared. */
  datatype Local = Local(id: string, direction: Option<string>, lot: Option<real>, price: Option<real>,
                         state: Option<string>)

  /** An observed position or order; side is a position's direction, an order's type. A position always
      has side, volume and price. */
  datatype Seen = Seen(id: string, symbol: Option<string>, side: Option<string>, volume: Option<real>,
                       price: Option<real>, state: string)

  datatype Snapshot = Snapshot(positions: seq<Seen>, orders: seq<Seen>)

  datatype Class = NoMismatch | MissingBroker | ConflictingState | Recoverable

  datatype Reason = NoLocalMapping | Match | AbsentFromBroker | DirectionDiffers | VolumeDiffers | PriceDiffers

  /** The fields a summary prints; the texts of direction, type and state as tokens. */
  datatype Summary = NoSummary | Summary(symbol: Option<string>, side: Option<string>, volume: Option<real>,
                                         price: Option<real>, state: string)

  datatype Diff = Diff(kind: Kind, id: string, cls: Class, reason: Reason, local: Summary, remote: Summary)

  datatype Result = Synced | AdoptedBroker | Escalated

  datatype Action = NoAction | AdoptBroker | Escalate

  datatype Outcome = Outcome(
    result: Result, action: Action, mismatch: bool, openPositions: nat, openOrders: nat, brokerPositions: nat,
    brokerOrders: nat, diffs: seq<Diff>, brokerOrphans: nat, localOrphans: nat, conflicts: nat)

  function Abs(x: real): real { if x < 0.0 then -x else x }

  const TOLERANCE: real := 0.000001

  /** math.isclose with relative and absolute tolerance; a missing side is always close. */
  predicate IsClose(a: Option<real>, b: Option<real>) {
    a.None? || b.None?
    || Abs(a.value - b.value) <= TOLERANCE
    || Abs(a.value - b.value) <= TOLERANCE * Abs(a.value)
    || Abs(a.value - b.value) <= TOLERANCE * Abs(b.value)
  }

  /** The ASCII characters that str.strip removes. */
  predicate Blank(c: char) { c == ' ' || '\t' <= c <= '\r' || 28 as char <= c <= 31 as char }

  function TrimLeft(s: string): string {
    if s != [] && Blank(s[0]) then TrimLeft(s[1..]) else s
  }

  function TrimRight(s: string): string {
    if s != [] && Blank(s[|s| - 1]) then TrimRight(s[..|s| - 1]) else s
  }

  function Upper(s: string): string {
    seq(|s|, k requires 0 <= k < |s| => if 'a' <= s[k] <= 'z' then s[k] - 'a' + 'A' else s[k])
  }

  function Token(value: Option<string>): string {
    if value.None? then "" else Upper(TrimRight(TrimLeft(value.value)))
  }

  function LocalSummary(kind: Kind, l: Local): Summary {
    Summary(None, if kind.PositionKind? then Some(Token(l.direction)) else None, l.lot, l.price, Token(l.state))
  }

  function SeenSummary(kind: Kind, b: Seen): Summary {
    Summary(b.symbol, if kind.OrderKind? && b.side.None? then None else Some(Token(b.side)), b.volume, b.price,
      Token(Some(b.state)))
  }

  /** The first field that differs; orders have no direction to compare. */
  function Conflict(kind: Kind, l: Local, b: Seen): Option<Reason> {
    if kind.PositionKind? && Token(l.direction) != Token(b.side) then Some(DirectionDiffers)
    else if !IsClose(l.lot, b.volume) then Some(VolumeDiffers)
    else if !IsClose(l.price, b.price) then Some(PriceDiffers)
    else None
  }

  function Adoptable(kind: Kind, b: Seen): Diff {
    Diff(kind, b.id, Recoverable, NoLocalMapping, NoSummary, SeenSummary(kind, b))
  }

  function Compared(kind: Kind, l: Local, b: Seen): Diff {
    var conflict := Conflict(kind, l, b);
    Diff(kind, b.id, if conflict.Some? then ConflictingState else NoMismatch,
         if conflict.Some? then conflict.value else Match, LocalSummary(kind, l), SeenSummary(kind, b))
  }

  function Missing(kind: Kind, l: Local, id: string): Diff {
    Diff(kind, id, MissingBroker, AbsentFromBroker, LocalSummary(kind, l), NoSummary)
  }

  type Locals = map<string, Local>

  type Brokers = map<string, Seen>

  /** A dictionary by id, a later row replacing an earlier one. */
  function LocalsById(s: seq<Local>): Locals {
    if s == [] then map[] else LocalsById(s[..|s| - 1])[s[|s| - 1].id := s[|s| - 1]]
  }

  /** Its keys, in order of first insertion. */
  function FirstIds(s: seq<Local>): seq<string> {
    if s == [] then []
    else
      var ids := FirstIds(s[..|s| - 1]);
      if s[|s| - 1].id in ids then ids else ids + [s[|s| - 1].id]
  }

  function SeenDiff(kind: Kind, locals: Locals, b: Seen): Diff {
    if b.id in locals then Compared(kind, locals[b.id], b) else Adoptable(kind, b)
  }

  function SeenDiffs(kind: Kind, locals: Locals, bs: seq<Seen>): seq<Diff> {
    if bs == [] then [] else SeenDiffs(kind, locals, bs[..|bs| - 1]) + [SeenDiff(kind, locals, bs[|bs| - 1])]
  }

  predicate SeenId(bs: seq<Seen>, id: string) {
    exists k :: 0 <= k < |bs| && bs[k].id == id
  }

  function MissingDiffs(kind: Kind, locals: Locals, ids: seq<string>, bs: seq<Seen>): seq<Diff>
    requires forall k :: 0 <= k < |ids| ==> ids[k] in locals
  {
    if ids == [] then []
    else
      var last := ids[|ids| - 1];
      MissingDiffs(kind, locals, ids[..|ids| - 1], bs)
      + if SeenId(bs, last) then [] else [Missing(kind, locals[last], last)]
  }

  function DiffKey(d: Diff): Key { Key(d.kind, d.id) }

  function SeenKey(b: Seen): Key { Key(OrderKind, b.id) }

  function Count(diffs: seq<Diff>, kind: Kind, cls: Class): nat {
    if diffs == [] then 0
    else
      var last := diffs[|diffs| - 1];
      Count(diffs[..|diffs| - 1], kind, cls) + if last.kind == kind && last.cls == cls then 1 else 0
  }

  function Total(diffs: seq<Diff>, cls: Class): nat {
    Count(diffs, PositionKind, cls) + Count(diffs, OrderKind, cls)
  }

  /** The overall result: escalation before adoption before synchrony. */
  function Verdict(conflicts: nat, missingPositions: nat, missingOrders: nat, orphans: nat): Result {
    if conflicts > 0 || missingPositions > 0 || (missingOrders > 0 && orphans == 0) then Escalated
    else if orphans > 0 then AdoptedBroker
    else Synced
  }

  function ActionFor(r: Result): Action {
    match r
    case Escalated => Escalate
    case AdoptedBroker => AdoptBroker
    case Synced => NoAction
  }

  function OutcomeOf(diffs: seq<Diff>, openPositions: nat, openOrders: nat, brokerPositions: nat,
                     brokerOrders: nat): Outcome {
    var conflicts, orphans := Total(diffs, ConflictingState), Total(diffs, Recoverable);
    var r := Verdict(conflicts, Count(diffs, PositionKind, MissingBroker), Count(diffs, OrderKind, MissingBroker),
      orphans);
    Outcome(r, ActionFor(r), !r.Synced?, openPositions, openOrders, brokerPositions, brokerOrders, diffs, orphans,
            Total(diffs, MissingBroker), conflicts)
  }

  function LocalMissing(kind: Kind, locals: seq<Local>, bs: seq<Seen>): seq<Diff> {
    FirstIdsAreKeys(locals);
    MissingDiffs(kind, LocalsById(locals), FirstIds(locals), bs)
  }

  /** All diffs, before they are put in order. */
  function AllDiffs(positions: seq<Local>, orders: seq<Local>, s: Snapshot): seq<Diff> {
    SeenDiffs(PositionKind, LocalsById(positions), Sort(s.positions, SeenKey))
    + SeenDiffs(OrderKind, LocalsById(orders), Sort(s.orders, SeenKey))
    + LocalMissing(PositionKind, positions, Sort(s.positions, SeenKey))
    + LocalMissing(OrderKind, orders, Sort(s.orders, SeenKey))
  }

  /** What classify returns, as a function of its inputs. */
  function Comparison(positions: seq<Local>, orders: seq<Local>, s: Snapshot): Outcome {
    OutcomeOf(Sort(AllDiffs(positions, orders, s), DiffKey),
              |FirstIds(positions)|, |FirstIds(orders)|, |s.positions|, |s.orders|)
  }

  lemma {:induction false} FirstIdsAreKeys(s: seq<Local>)
    ensures forall id :: id in FirstIds(s) <==> id in LocalsById(s)
    ensures forall i, k :: 0 <= i < k < |FirstIds(s)| ==> FirstIds(s)[i] != FirstIds(s)[k]
  {
    if s != [] { FirstIdsAreKeys(s[..|s| - 1]); }
  }

  // ------------------------------------------------------------- the algorithm

  method ById(rows: seq<Local>) returns (byId: Locals, ids: seq<string>)
    ensures byId == LocalsById(rows) && ids == FirstIds(rows)
  {
    byId, ids := map[], [];
    for k := 0 to |rows|
      invariant byId == LocalsById(rows[..k]) && ids == FirstIds(rows[..k])
    {
      assert rows[..k + 1][..k] == rows[..k];
      if rows[k].id !in ids { ids := ids + [rows[k].id]; }
      byId := byId[rows[k].id := rows[k]];
    }
    assert rows[..|rows|] == rows;
  }

  /** Every broker row of one entity type against the local row of its id. */
  method CompareSeen(kind: Kind, locals: Locals, bs: seq<Seen>) returns (diffs: seq<Diff>, orphans: nat, conflicts: nat)
    ensures diffs == SeenDiffs(kind, locals, bs)
    ensures orphans == Count(diffs, kind, Recoverable) && conflicts == Count(diffs, kind, ConflictingState)
  {
    hide Conflict, SeenSummary, LocalSummary, Count, SeenDiffs;
    diffs, orphans, conflicts := [], 0, 0;
    Nothing(kind, locals);
    for k := 0 to |bs|
      invariant diffs == SeenDiffs(kind, locals, bs[..k])
      invariant orphans == Count(diffs, kind, Recoverable) && conflicts == Count(diffs, kind, ConflictingState)
    {
      SeenSnoc(kind, locals, bs, k);
      var d := Adoptable(kind, bs[k]);
      if bs[k].id !in locals {
        orphans := orphans + 1;
      } else {
        d := Compared(kind, locals[bs[k].id], bs[k]);
        if d.cls.ConflictingState? { conflicts := conflicts + 1; }
      }
      CountSnoc(diffs, d, kind, Recoverable);
      CountSnoc(diffs, d, kind, ConflictingState);
      diffs := diffs + [d];
    }
    assert bs[..|bs|] == bs;
  }

  lemma Nothing(kind: Kind, locals: Locals)
    ensures SeenDiffs(kind, locals, []) == [] && MissingDiffs(kind, locals, [], []) == []
    ensures forall cls :: Count([], kind, cls) == 0
  {
  }

  lemma SeenSnoc(kind: Kind, locals: Locals, bs: seq<Seen>, k: nat)
    requires k < |bs|
    ensures SeenDiffs(kind, locals, bs[..k + 1]) == SeenDiffs(kind, locals, bs[..k]) + [SeenDiff(kind, locals, bs[k])]
  {
    hide SeenDiff;
    assert bs[..k + 1][..k] == bs[..k];
  }

  /** The local rows of one entity type that the broker does not show. */
  method FindMissing(kind: Kind, locals: Locals, ids: seq<string>, bs: seq<Seen>)
    returns (diffs: seq<Diff>, absent: nat)
    requires forall k :: 0 <= k < |ids| ==> ids[k] in locals
    ensures diffs == MissingDiffs(kind, locals, ids, bs) && absent == Count(diffs, kind, MissingBroker)
  {
    hide LocalSummary, Count, SeenId;
    diffs, absent := [], 0;
    Nothing(kind, locals);
    for k := 0 to |ids|
      invariant diffs == MissingDiffs(kind, locals, ids[..k], bs)
      invariant absent == Count(diffs, kind, MissingBroker)
    {
      assert ids[..k + 1][..k] == ids[..k];
      if !SeenId(bs, ids[k]) {
        absent := absent + 1;
        var d := Missing(kind, locals[ids[k]], ids[k]);
        CountSnoc(diffs, d, kind, MissingBroker);
        diffs := diffs + [d];
      }
    }
    assert ids[..|ids|] == ids;
  }

  method Classify(positions: seq<Local>, orders: seq<Local>, s: Snapshot) returns (o: Outcome)
    ensures o == Comparison(positions, orders, s)
  {
    hide Sort, SeenDiffs, MissingDiffs, FirstIds, LocalsById, Count;
    FirstIdsAreKeys(positions);
    FirstIdsAreKeys(orders);
    var positionsById, positionIds := ById(positions);
    var ordersById, orderIds := ById(orders);
    var brokerPositions, brokerOrders := Sort(s.positions, SeenKey), Sort(s.orders, SeenKey);
    var ps, orphans, conflicts := CompareSeen(PositionKind, positionsById, brokerPositions);
    var os, orphans', conflicts' := CompareSeen(OrderKind, ordersById, brokerOrders);
    var pm, absent := FindMissing(PositionKind, positionsById, positionIds, brokerPositions);
    var om, absent' := FindMissing(OrderKind, ordersById, orderIds, brokerOrders);
    orphans, absent, conflicts := orphans + orphans', absent + absent', conflicts + conflicts';
    var ordered := Sort(ps + os + pm + om, DiffKey);
    SeenShape(PositionKind, positionsById, brokerPositions);
    SeenShape(OrderKind, ordersById, brokerOrders);
    MissingShape(PositionKind, positionsById, positionIds, brokerPositions);
    MissingShape(OrderKind, ordersById, orderIds, brokerOrders);
    Tally(ps, os, pm, om);
    var missingPositions, missingOrders := Count(ordered, PositionKind, MissingBroker),
      Count(ordered, OrderKind, MissingBroker);
    var result := Synced;
    if conflicts > 0 || missingPositions > 0 || (missingOrders > 0 && orphans == 0) {
      result := Escalated;
    } else if orphans > 0 {
      result := AdoptedBroker;
    }
    o := Outcome(result, ActionFor(result), result != Synced, |positionIds|, |orderIds|, |brokerPositions|,
      |brokerOrders|, ordered, orphans, absent, conflicts);
    SortSorts(s.positions, SeenKey);
    SortSorts(s.orders, SeenKey);
    SameElements(brokerPositions, s.positions);
    SameElements(brokerOrders, s.orders);
  }

  // ------------------------------------------------------------------ counting

  lemma {:induction false} CountConcat(a: seq<Diff>, b: seq<Diff>, kind: Kind, cls: Class)
    ensures Count(a + b, kind, cls) == Count(a, kind, cls) + Count(b, kind, cls)
  {
    if b == [] {
      assert a + b == a;
    } else {
      assert (a + b)[..|a + b| - 1] == a + b[..|b| - 1];
      CountConcat(a, b[..|b| - 1], kind, cls);
    }
  }

  lemma CountSnoc(a: seq<Diff>, d: Diff, kind: Kind, cls: Class)
    ensures Count(a + [d], kind, cls) == Count(a, kind, cls) + if d.kind == kind && d.cls == cls then 1 else 0
  {
    assert (a + [d])[..|a|] == a;
  }

  lemma {:induction false} CountInsert(s: seq<Diff>, d: Diff, kind: Kind, cls: Class)
    ensures Count(Insert(s, d, DiffKey), kind, cls) == Count(s + [d], kind, cls)
  {
    hide AtMost;
    CountSnoc(s, d, kind, cls);
    if s != [] && !AtMost(DiffKey(s[|s| - 1]), DiffKey(d)) {
      var init, last := s[..|s| - 1], s[|s| - 1];
      CountInsert(init, d, kind, cls);
      CountSnoc(init, d, kind, cls);
      CountSnoc(Insert(init, d, DiffKey), last, kind, cls);
    }
  }

  lemma {:induction false} CountSort(s: seq<Diff>, kind: Kind, cls: Class)
    ensures Count(Sort(s, DiffKey), kind, cls) == Count(s, kind, cls)
  {
    if s != [] {
      var init, last := s[..|s| - 1], s[|s| - 1];
      CountSort(init, kind, cls);
      CountInsert(Sort(init, DiffKey), last, kind, cls);
      CountSnoc(Sort(init, DiffKey), last, kind, cls);
    }
  }

  lemma {:induction false} CountNone(s: seq<Diff>, kind: Kind, cls: Class)
    requires forall k :: 0 <= k < |s| ==> s[k].kind != kind || s[k].cls != cls
    ensures Count(s, kind, cls) == 0
  {
    if s != [] { CountNone(s[..|s| - 1], kind, cls); }
  }

  /** Diffs of broker rows: of one kind, and never missing at the broker. */
  ghost predicate SeenOnly(s: seq<Diff>, kind: Kind) {
    forall k :: 0 <= k < |s| ==> s[k].kind == kind && !s[k].cls.MissingBroker?
  }

  ghost predicate MissingOnly(s: seq<Diff>, kind: Kind) {
    forall k :: 0 <= k < |s| ==> s[k].kind == kind && s[k].cls.MissingBroker?
  }

  lemma {:induction false} SeenShape(kind: Kind, locals: Locals, bs: seq<Seen>)
    ensures SeenOnly(SeenDiffs(kind, locals, bs), kind)
    ensures |SeenDiffs(kind, locals, bs)| == |bs|
    ensures forall k :: 0 <= k < |bs| ==> SeenDiffs(kind, locals, bs)[k] == SeenDiff(kind, locals, bs[k])
  {
    hide Conflict, SeenSummary, LocalSummary;
    if bs != [] { SeenShape(kind, locals, bs[..|bs| - 1]); }
  }

  lemma {:induction false} MissingShape(kind: Kind, locals: Locals, ids: seq<string>, bs: seq<Seen>)
    requires forall k :: 0 <= k < |ids| ==> ids[k] in locals
    ensures MissingOnly(MissingDiffs(kind, locals, ids, bs), kind)
  {
    if ids != [] { MissingShape(kind, locals, ids[..|ids| - 1], bs); }
  }

  lemma Tally(ps: seq<Diff>, os: seq<Diff>, pm: seq<Diff>, om: seq<Diff>)
    requires SeenOnly(ps, PositionKind) && SeenOnly(os, OrderKind)
    requires MissingOnly(pm, PositionKind) && MissingOnly(om, OrderKind)
    ensures var ordered := Sort(ps + os + pm + om, DiffKey);
      && Total(ordered, Recoverable) == Count(ps, PositionKind, Recoverable) + Count(os, OrderKind, Recoverable)
      && Total(ordered, ConflictingState) ==
         Count(ps, PositionKind, ConflictingState) + Count(os, OrderKind, ConflictingState)
      && Total(ordered, MissingBroker) == Count(pm, PositionKind, MissingBroker) + Count(om, OrderKind, MissingBroker)
  {
    hide Sort, Count;
    TallyOf(ps, os, pm, om, PositionKind, Recoverable);
    TallyOf(ps, os, pm, om, OrderKind, Recoverable);
    TallyOf(ps, os, pm, om, PositionKind, ConflictingState);
    TallyOf(ps, os, pm, om, OrderKind, ConflictingState);
    TallyOf(ps, os, pm, om, PositionKind, MissingBroker);
    TallyOf(ps, os, pm, om, OrderKind, MissingBroker);
  }

  lemma TallyOf(ps: seq<Diff>, os: seq<Diff>, pm: seq<Diff>, om: seq<Diff>, kind: Kind, cls: Class)
    requires SeenOnly(ps, PositionKind) && SeenOnly(os, OrderKind)
    requires MissingOnly(pm, PositionKind) && MissingOnly(om, OrderKind)
    ensures Count(Sort(ps + os + pm + om, DiffKey), kind, cls) ==
      if cls.MissingBroker? then Count(if kind.PositionKind? then pm else om, kind, cls)
      else Count(if kind.PositionKind? then ps else os, kind, cls)
  {
    hide Sort, Count;
    CountSort(ps + os + pm + om, kind, cls);
    CountConcat(ps + os + pm, om, kind, cls);
    CountConcat(ps + os, pm, kind, cls);
    CountConcat(ps, os, kind, cls);
    if !(kind.PositionKind? && !cls.MissingBroker?) { CountNone(ps, kind, cls); }
    if !(kind.OrderKind? && !cls.MissingBroker?) { CountNone(os, kind, cls); }
    if !(kind.PositionKind? && cls.MissingBroker?) { CountNone(pm, kind, cls); }
    if !(kind.OrderKind? && cls.MissingBroker?) { CountNone(om, kind, cls); }
  }
}
