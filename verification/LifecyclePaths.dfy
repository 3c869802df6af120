/**
 * Which trade flows and which streams are accepted, said without the
 * transition table: a flow is accepted exactly when its trade-path events run
 * along the one path of a trade and none of them follows an ending event.
 */
module LifecyclePaths {
  import opened Common
  import opened Events
  import opened Lifecycle

  // ------------------------------------------------------------- the path

  /** From the trigger to the open position, with the AI round trip or without it. */
  function Opening(asksAi: bool): seq<Kind> {
    [TriggerDetectedKind]
    + (if asksAi then [ContextBuiltKind, AiRequestKind, AiResponseKind] else [])
    + [RiskGateKind, OrderSubmittedKind, OrderAcknowledgedKind, OrderFilledKind, PositionOpenedKind]
  }

  /** The whole life of a trade with these events while its position is open. */
  function FullPath(asksAi: bool, updates: seq<Kind>): seq<Kind> {
    Opening(asksAi) + updates + [ExitSubmittedKind, PositionClosedKind]
  }

  /** Updates and net-profit events, no two net-profit events in a row. */
  ghost predicate Updates(ks: seq<Kind>) {
    && (forall i :: 0 <= i < |ks| ==> ks[i] == PositionUpdatedKind || ks[i] == NetProfitPositiveKind)
    && (forall i :: 0 < i < |ks| ==> ks[i - 1] != NetProfitPositiveKind || ks[i] != NetProfitPositiveKind)
  }

  ghost predicate OnPath(ks: seq<Kind>) {
    exists asksAi: bool, updates :: Updates(updates) && ks <= FullPath(asksAi, updates)
  }

  /** Ticks, reconciliations, errors and timeouts may come at any point; all else is the trade's own. */
  predicate InBand(p: Payload) {
    !p.TickReceived? && !p.Reconciliation? && !p.Error? && !p.Timeout?
  }

  /** The kinds of a flow's own events, in order. */
  function Kinds(flow: seq<Payload>): seq<Kind> {
    if flow == [] then []
    else
      var p := flow[|flow| - 1];
      Kinds(flow[..|flow| - 1]) + (if InBand(p) then [p.Kind()] else [])
  }

  /** Event i ends the trade: a rejecting gate, a closed position, an error or timeout, or a
      reconciliation while the order is submitted or acknowledged. */
  predicate Ends(flow: seq<Payload>, i: nat)
    requires i < |flow|
  {
    var p, before := flow[i], Kinds(flow[..i]);
    || (p.RiskGate? && p.reject) || p.PositionClosed? || p.Error? || p.Timeout?
    || (p.Reconciliation? && before != []
        && (before[|before| - 1] == OrderSubmittedKind || before[|before| - 1] == OrderAcknowledgedKind))
  }

  ghost predicate Ended(flow: seq<Payload>) {
    exists i :: 0 <= i < |flow| && Ends(flow, i)
  }

  ghost predicate NothingAfterEnd(flow: seq<Payload>) {
    forall i, k :: 0 <= i < k < |flow| && Ends(flow, i) ==> !InBand(flow[k])
  }

  // ------------------------------------------------------ steps along the path

  /** What stands where on a path. */
  lemma PathAt(asksAi: bool, updates: seq<Kind>)
    ensures var f, b, n := FullPath(asksAi, updates), if asksAi then 3 else 0, |updates|;
      && |f| == b + n + 8
      && f[0] == TriggerDetectedKind
      && (asksAi ==> f[1] == ContextBuiltKind && f[2] == AiRequestKind && f[3] == AiResponseKind)
      && f[b + 1] == RiskGateKind && f[b + 2] == OrderSubmittedKind && f[b + 3] == OrderAcknowledgedKind
      && f[b + 4] == OrderFilledKind && f[b + 5] == PositionOpenedKind
      && (forall i :: 0 <= i < n ==> f[b + 6 + i] == updates[i])
      && f[b + 6 + n] == ExitSubmittedKind && f[b + 7 + n] == PositionClosedKind
  {
  }

  /** May event k come right after event j? */
  predicate Follows(j: Kind, k: Kind) {
    match j
    case TriggerDetectedKind => k == ContextBuiltKind || k == RiskGateKind
    case ContextBuiltKind => k == AiRequestKind
    case AiRequestKind => k == AiResponseKind
    case AiResponseKind => k == RiskGateKind
    case RiskGateKind => k == OrderSubmittedKind
    case OrderSubmittedKind => k == OrderAcknowledgedKind
    case OrderAcknowledgedKind => k == OrderFilledKind
    case OrderFilledKind => k == PositionOpenedKind
    case PositionOpenedKind => k == PositionUpdatedKind || k == NetProfitPositiveKind || k == ExitSubmittedKind
    case PositionUpdatedKind => k == PositionUpdatedKind || k == NetProfitPositiveKind || k == ExitSubmittedKind
    case NetProfitPositiveKind => k == PositionUpdatedKind || k == ExitSubmittedKind
    case ExitSubmittedKind => k == PositionClosedKind
    case _ => false
  }

  lemma NextOnPath(asksAi: bool, updates: seq<Kind>, i: nat)
    requires Updates(updates) && 0 < i < |FullPath(asksAi, updates)|
    ensures Follows(FullPath(asksAi, updates)[i - 1], FullPath(asksAi, updates)[i])
  {
    hide FullPath;
    PathAt(asksAi, updates);
    var b, n := if asksAi then 3 else 0, |updates|;
    if b + 6 <= i < b + 6 + n { assert FullPath(asksAi, updates)[b + 6 + (i - b - 6)] == updates[i - b - 6]; }
    if b + 6 < i <= b + 6 + n { assert FullPath(asksAi, updates)[b + 6 + (i - b - 7)] == updates[i - b - 7]; }
  }

  /** Before the position opens, but for the choice at the trigger, and after it is exited, one event
      only can come next. */
  lemma OneWay(asksAi: bool, updates: seq<Kind>, i: nat, k: Kind)
    requires var open := if asksAi then 9 else 6;
      1 < i < open || open + |updates| < i <= |FullPath(asksAi, updates)|
    requires i <= |FullPath(asksAi, updates)| && Follows(FullPath(asksAi, updates)[i - 1], k)
    ensures i < |FullPath(asksAi, updates)| && FullPath(asksAi, updates)[i] == k
  {
    hide FullPath;
    PathAt(asksAi, updates);
  }

  /** A walk along the path can take every step that follows. */
  lemma Extend(asksAi: bool, updates: seq<Kind>, ks: seq<Kind>, k: Kind) returns (ai: bool, us: seq<Kind>)
    requires Updates(updates) && ks <= FullPath(asksAi, updates)
    requires if ks == [] then k == TriggerDetectedKind else Follows(ks[|ks| - 1], k)
    ensures Updates(us) && ks + [k] <= FullPath(ai, us)
  {
    hide FullPath, Updates, Follows;
    var open, i := if asksAi then 9 else 6, |ks|;
    ai, us := asksAi, updates;
    if i == 0 {
      Fork(asksAi, updates, k);
    } else if i == 1 {
      Fork(asksAi, updates, k);
      ai, us := k == ContextBuiltKind, [];
      Fork(ai, us, k);
      NoUpdates();
    } else if open <= i <= open + |updates| {
      var taken := updates[..i - open];
      us := if k == ExitSubmittedKind then taken else taken + [k];
      Retraced(asksAi, updates, us, i, taken, k);
    } else {
      OneWay(asksAi, updates, i, k);
    }
  }

  lemma Fork(asksAi: bool, updates: seq<Kind>, k: Kind)
    ensures var f := FullPath(asksAi, updates);
      && |f| > 1 && f[0] == TriggerDetectedKind
      && f[1] == (if asksAi then ContextBuiltKind else RiskGateKind)
      && (Follows(TriggerDetectedKind, k) ==> k == ContextBuiltKind || k == RiskGateKind)
  {
    hide FullPath;
    PathAt(asksAi, updates);
  }

  /** While the position is open the walk has covered some of the updates and may go on with any other. */
  lemma Retraced(asksAi: bool, updates: seq<Kind>, us: seq<Kind>, i: nat, taken: seq<Kind>, k: Kind)
    requires var b := if asksAi then 3 else 0;
      b + 6 <= i <= b + 6 + |updates| && taken == updates[..i - b - 6]
    requires Updates(updates) && (us == taken + [k] || (us == taken && k == ExitSubmittedKind))
    requires Follows(FullPath(asksAi, updates)[i - 1], k) && (us == taken + [k] ==> k != ExitSubmittedKind)
    ensures Updates(us) && FullPath(asksAi, updates)[..i] + [k] <= FullPath(asksAi, us)
  {
    hide FullPath;
    PathAt(asksAi, updates);
    PathAt(asksAi, us);
    var b, f, g := if asksAi then 3 else 0, FullPath(asksAi, updates), FullPath(asksAi, us);
    if i > b + 6 { assert f[b + 6 + (i - b - 7)] == updates[i - b - 7]; }
    forall j | b + 6 <= j < i ensures f[j] == g[j] {
      assert f[b + 6 + (j - b - 6)] == updates[j - b - 6] && g[b + 6 + (j - b - 6)] == us[j - b - 6];
    }
    if us == taken + [k] { assert g[b + 6 + (i - b - 6)] == us[i - b - 6] == k; }
    assert forall j :: 0 <= j < i ==> f[j] == g[j];
  }

  predicate Steps(ks: seq<Kind>, k: Kind) {
    if ks == [] then k == TriggerDetectedKind else Follows(ks[|ks| - 1], k)
  }

  /** The path as a walk: every prefix of it goes on with exactly the events that follow. */
  lemma PathSnoc(ks: seq<Kind>, k: Kind)
    ensures OnPath(ks + [k]) <==> OnPath(ks) && Steps(ks, k)
    ensures OnPath([])
  {
    hide FullPath, Updates;
    assert Updates([]) by { NoUpdates(); }
    assert [] <= FullPath(false, []);
    if OnPath(ks + [k]) {
      var ai: bool, us :| Updates(us) && ks + [k] <= FullPath(ai, us);
      assert (ks + [k])[|ks|] == FullPath(ai, us)[|ks|] && ks <= FullPath(ai, us);
      PathAt(ai, us);
      if ks != [] {
        NextOnPath(ai, us, |ks|);
        assert ks[|ks| - 1] == FullPath(ai, us)[|ks| - 1];
      }
    }
    if OnPath(ks) && Steps(ks, k) {
      var ai: bool, us :| Updates(us) && ks <= FullPath(ai, us);
      var aj, vs := Extend(ai, us, ks, k);
    }
  }

  lemma NoUpdates()
    ensures Updates([])
  {
  }

  // ------------------------------------------------------------ the lifecycle

  lemma EndsSnoc(init: seq<Payload>, p: Payload)
    ensures Ended(init + [p]) <==> Ended(init) || Ends(init + [p], |init|)
    ensures NothingAfterEnd(init + [p]) <==> NothingAfterEnd(init) && (InBand(p) ==> !Ended(init))
    ensures (init + [p])[..|init|] == init
  {
    var flow := init + [p];
    forall i | 0 <= i < |init| ensures flow[..i] == init[..i] && (Ends(flow, i) <==> Ends(init, i)) {
      assert flow[..i] == init[..i];
    }
    assert flow[|init|] == p;
    if NothingAfterEnd(flow) {
      forall i, k | 0 <= i < k < |init| && Ends(init, i) ensures !InBand(init[k]) {
        assert Ends(flow, i) && flow[k] == init[k];
      }
    }
    if Ended(init) {
      var i :| 0 <= i < |init| && Ends(init, i);
      assert Ends(flow, i);
    }
  }

  /** The lifecycle object knows how far the trade is, and whether it has ended. */
  ghost predicate Shows(t: TradeState, flow: seq<Payload>) {
    var ks := Kinds(flow);
    && (t.terminal <==> Ended(flow))
    && (!t.terminal ==> t.state == if ks == [] then None else Some(ks[|ks| - 1]))
    && (!t.terminal && t.state == Some(RiskGateKind) ==> t.last.Some? && t.last.value.RiskGate? && !t.last.value.reject)
  }

  lemma TableFollows(j: Kind, k: Kind)
    ensures k in NextAllowed(j) <==> Follows(j, k)
  {
  }

  lemma ApplyIff(t: TradeState, init: seq<Payload>, p: Payload)
    requires Shows(t, init)
    ensures Apply(t, p).Some? <==> (InBand(p) ==> !Ended(init) && Steps(Kinds(init), p.Kind()))
  {
    hide Ended, Kinds, NextAllowed, Follows;
    KindInBand(init);
    if t.state.Some? { TableFollows(t.state.value, p.Kind()); }
  }

  lemma {:induction false} KindInBand(flow: seq<Payload>)
    ensures forall i :: 0 <= i < |Kinds(flow)| ==> TradeFlow(Kinds(flow)[i])
  {
    if flow != [] { KindInBand(flow[..|flow| - 1]); }
  }

  lemma ApplyShows(t: TradeState, init: seq<Payload>, p: Payload)
    requires Shows(t, init) && Apply(t, p).Some?
    ensures Shows(Apply(t, p).value, init + [p])
  {
    hide Ended, Kinds, ValidTransition;
    EndsSnoc(init, p);
    KindsSnoc(init, p);
  }

  lemma KindsSnoc(init: seq<Payload>, p: Payload)
    ensures Kinds(init + [p]) == if InBand(p) then Kinds(init) + [p.Kind()] else Kinds(init)
  {
    assert (init + [p])[..|init|] == init;
    assert Kinds(init) + [] == Kinds(init);
  }

  lemma FreshShows()
    ensures Kinds([]) == [] && Shows(FRESH, [])
  {
  }

  /** Exactly the flows along the path of a trade are accepted, and nothing of the trade's own after
      its end; the lifecycle then shows the last event and whether the trade has ended. */
  lemma {:induction false} AcceptedIffOnPath(flow: seq<Payload>)
    ensures Fold(flow).Some? <==> OnPath(Kinds(flow)) && NothingAfterEnd(flow)
    ensures Fold(flow).Some? ==> Shows(Fold(flow).value, flow)
  {
    hide OnPath, Ends, Apply, Follows, Kinds, Shows;
    if flow == [] {
      PathSnoc([], TriggerDetectedKind);
      FreshShows();
    } else {
      var init, p := flow[..|flow| - 1], flow[|flow| - 1];
      assert flow == init + [p];
      AcceptedIffOnPath(init);
      EndsSnoc(init, p);
      PathSnoc(Kinds(init), p.Kind());
      KindsSnoc(init, p);
      if Fold(init).Some? {
        ApplyIff(Fold(init).value, init, p);
        if Fold(flow).Some? { ApplyShows(Fold(init).value, init, p); }
      }
    }
  }

  /** Every whole life of a trade is accepted, whatever ticks come between. */
  lemma FullPathAccepted(flow: seq<Payload>, asksAi: bool, updates: seq<Kind>)
    requires Updates(updates) && Kinds(flow) == FullPath(asksAi, updates)
    requires forall i :: 0 <= i < |flow| ==> InBand(flow[i]) || flow[i].TickReceived?
    requires forall i :: 0 <= i < |flow| && flow[i].RiskGate? ==> !flow[i].reject
    ensures Fold(flow).Some? && Fold(flow).value.terminal
  {
    hide Kinds, FullPath, Updates, OnPath, Fold, Ends, Ended, NothingAfterEnd, InBand;
    WholePath(asksAi, updates);
    QuietEnd(flow, asksAi, updates);
    AcceptedIffOnPath(flow);
    ShownEnd(flow);
  }

  lemma ShownEnd(flow: seq<Payload>)
    requires Fold(flow).Some? && Shows(Fold(flow).value, flow) && Ended(flow)
    ensures Fold(flow).value.terminal
  {
    hide Fold, Ended;
  }

  lemma QuietEnd(flow: seq<Payload>, asksAi: bool, updates: seq<Kind>)
    requires Updates(updates) && Kinds(flow) == FullPath(asksAi, updates)
    requires forall i :: 0 <= i < |flow| ==> InBand(flow[i]) || flow[i].TickReceived?
    requires forall i :: 0 <= i < |flow| && flow[i].RiskGate? ==> !flow[i].reject
    ensures NothingAfterEnd(flow) && Ended(flow)
  {
    hide FullPath, Updates, Kinds, Ends;
    EndsClosed(asksAi, updates);
    forall i, k | 0 <= i < k < |flow| && Ends(flow, i) ensures !InBand(flow[k]) {
      EndsByClosing(flow, i);
      NothingAfterClose(flow, asksAi, updates, i, k);
    }
    var c := KindFrom(flow, |FullPath(asksAi, updates)| - 1);
    EndsByClosing(flow, c);
  }

  lemma EndsByClosing(flow: seq<Payload>, i: nat)
    requires i < |flow| && (InBand(flow[i]) || flow[i].TickReceived?) && (flow[i].RiskGate? ==> !flow[i].reject)
    ensures Ends(flow, i) <==> flow[i].PositionClosed?
  {
    hide Kinds;
  }

  lemma WholePath(asksAi: bool, updates: seq<Kind>)
    requires Updates(updates)
    ensures OnPath(FullPath(asksAi, updates))
  {
    hide FullPath, Updates;
    var f := FullPath(asksAi, updates);
    assert f <= f;
  }

  lemma EndsClosed(asksAi: bool, updates: seq<Kind>)
    ensures var f := FullPath(asksAi, updates); |f| > 0 && f[|f| - 1] == PositionClosedKind
  {
    hide FullPath;
    PathAt(asksAi, updates);
  }

  lemma NothingAfterClose(flow: seq<Payload>, asksAi: bool, updates: seq<Kind>, i: nat, k: nat)
    requires Updates(updates) && Kinds(flow) == FullPath(asksAi, updates)
    requires i < k < |flow| && flow[i].PositionClosed?
    ensures !InBand(flow[k])
  {
    hide FullPath, Updates;
    if InBand(flow[k]) {
      KindsUpTo(flow, i + 1, k);
      var some := flow[..i + 1];
      assert some[..|some| - 1] == flow[..i];
      ClosedIsLast(asksAi, updates, |Kinds(some)| - 1);
    }
  }

  lemma ClosedIsLast(asksAi: bool, updates: seq<Kind>, j: nat)
    requires Updates(updates) && j < |FullPath(asksAi, updates)| && FullPath(asksAi, updates)[j] == PositionClosedKind
    ensures j == |FullPath(asksAi, updates)| - 1
  {
    hide FullPath;
    PathAt(asksAi, updates);
    if j + 1 < |FullPath(asksAi, updates)| { NextOnPath(asksAi, updates, j + 1); }
  }

  /** The kinds up to m are a prefix of all, and a proper one when a later event is the trade's own. */
  lemma {:induction false} KindsUpTo(flow: seq<Payload>, m: nat, k: nat)
    requires m <= k <= |flow|
    ensures Kinds(flow[..m]) <= Kinds(flow)
    ensures k < |flow| && InBand(flow[k]) ==> |Kinds(flow[..m])| < |Kinds(flow)|
  {
    if m == |flow| {
      assert flow[..m] == flow;
    } else {
      var init := flow[..|flow| - 1];
      assert init[..m] == flow[..m];
      KindsUpTo(init, m, if k <= |init| then k else |init|);
    }
  }

  lemma {:induction false} KindFrom(flow: seq<Payload>, j: nat) returns (i: nat)
    requires j < |Kinds(flow)|
    ensures i < |flow| && InBand(flow[i]) && flow[i].Kind() == Kinds(flow)[j]
  {
    var init := flow[..|flow| - 1];
    if j < |Kinds(init)| { i := KindFrom(init, j); } else { i := |init|; }
  }

  // ------------------------------------------------------------------ streams

  /** A trade's own events run along the path, and none of them follows an ending event. */
  ghost predicate KeepsToPath(events: seq<Event>, trade: string) {
    OnPath(Kinds(Flow(events, trade))) && NothingAfterEnd(Flow(events, trade))
  }

  /** A stream is acceptable exactly when time does not run back, triggers are correlated, the trade's
      own events name their trade, and every trade keeps to its path. */
  lemma AcceptedStreams(events: seq<Event>)
    ensures StreamOk(events) <==>
      && (forall i, k :: 0 <= i < k < |events| ==> events[i].tsMonotonic <= events[k].tsMonotonic)
      && (forall i :: 0 <= i < |events| && events[i].payload.TriggerDetected? ==> events[i].correlation.Some?)
      && (forall i :: 0 <= i < |events| && InBand(events[i].payload) ==> events[i].trade.Some?)
      && (forall trade :: KeepsToPath(events, trade))
  {
    hide Fold, Flow, KeepsToPath;
    forall trade ensures Fold(Flow(events, trade)).Some? <==> KeepsToPath(events, trade) {
      TradeAccepted(events, trade);
    }
    forall i | 0 <= i < |events|
      ensures Guarded(events[i]) <==>
        && (events[i].payload.TriggerDetected? ==> events[i].correlation.Some?)
        && (InBand(events[i].payload) ==> events[i].trade.Some?)
    {
    }
  }

  lemma TradeAccepted(events: seq<Event>, trade: string)
    ensures Fold(Flow(events, trade)).Some? <==> KeepsToPath(events, trade)
  {
    AcceptedIffOnPath(Flow(events, trade));
  }
}
