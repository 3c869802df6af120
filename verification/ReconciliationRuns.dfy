/**
 * Recorded reconciliation runs (collector/reconciliation/types.py and reconciler.py,
 * collector/persistence/reconciling.py): skip, insert or ignore, and what the
 * tables show after any history of observations.
 */
module ReconciliationRuns {
  import opened Common
  import opened Sorting
  import opened Classifier

  datatype Trigger = Startup | PostExecution | Heartbeat | MismatchFound

  /** The content whose hash is the signature of an outcome: everything but the counters. */
  datatype Signature = Signature(
    trigger: Trigger, result: Result, action: Action, mismatch: bool, openPositions: nat, openOrders: nat,
    brokerPositions: nat, brokerOrders: nat, diffs: seq<Diff>)

  function SignatureOf(trigger: Trigger, o: Outcome): Signature {
    Signature(trigger, o.result, o.action, o.mismatch, o.openPositions, o.openOrders, o.brokerPositions,
      o.brokerOrders, o.diffs)
  }

  /** The run id made from a signature. */
  type Naming = Signature -> string

  datatype Run = Run(id: string, trigger: Trigger, signature: Signature, result: Result, action: Action,
                     mismatch: bool, ts: int)

  datatype AdoptionId = AdoptionId(kind: Kind, brokerId: string, run: string)

  datatype Adoption = Adoption(id: AdoptionId, row: Seen, reason: Reason, ts: int)

  type Adoptions = map<AdoptionId, Adoption>

  predicate HasRun(runs: seq<Run>, id: string) {
    exists k :: 0 <= k < |runs| && runs[k].id == id
  }

  /** INSERT OR IGNORE by run id. */
  function Remember(runs: seq<Run>, r: Run): seq<Run> {
    if HasRun(runs, r.id) then runs else runs + [r]
  }

  function Adopt(table: Adoptions, more: seq<Adoption>): Adoptions {
    if more == [] then table
    else
      var before := Adopt(table, more[..|more| - 1]);
      if more[|more| - 1].id in before then before else before[more[|more| - 1].id := more[|more| - 1]]
  }

  /** ORDER BY run_ts DESC, reconciliation_id DESC LIMIT 1. */
  function Latest(runs: seq<Run>): Option<Run> {
    if runs == [] then None
    else
      var last, before := runs[|runs| - 1], Latest(runs[..|runs| - 1]);
      if before.None? || before.value.ts < last.ts
        || (before.value.ts == last.ts && TextAtMost(before.value.id, last.id))
      then Some(last) else before
  }

  /** The last result on record, None for UNKNOWN. */
  function ShadowState(runs: seq<Run>): Option<Result> {
    if Latest(runs).None? then None else Some(Latest(runs).value.result)
  }

  /** The last row with an id, as in a dictionary. */
  function RowOf(bs: seq<Seen>, id: string): Option<Seen> {
    if bs == [] then None
    else if bs[|bs| - 1].id == id then Some(bs[|bs| - 1])
    else RowOf(bs[..|bs| - 1], id)
  }

  function Rows(s: Snapshot, kind: Kind): seq<Seen> {
    if kind.PositionKind? then s.positions else s.orders
  }

  function AdoptionsFor(diffs: seq<Diff>, s: Snapshot, run: string, ts: int): seq<Adoption> {
    if diffs == [] then []
    else
      var before, d := AdoptionsFor(diffs[..|diffs| - 1], s, run, ts), diffs[|diffs| - 1];
      var row := RowOf(Rows(s, d.kind), d.id);
      if d.cls.Recoverable? && row.Some?
      then before + [Adoption(AdoptionId(d.kind, d.id, run), row.value, d.reason, ts)]
      else before
  }

  /** One reconciliation: what was compared, why, and when. */
  datatype Observation = Observation(trigger: Trigger, outcome: Outcome, snapshot: Snapshot, ts: int)

  /** The reconciliation tables, and the observations that left an event. */
  datatype Book = Book(runs: seq<Run>, adoptions: Adoptions, events: seq<Observation>)

  const EMPTY_BOOK := Book([], map[], [])

  function Sig(ob: Observation): Signature {
    SignatureOf(ob.trigger, ob.outcome)
  }

  predicate Unchanged(runs: seq<Run>, ob: Observation) {
    var latest := Latest(runs);
    latest.Some? && latest.value.signature == Sig(ob) && latest.value.result == ob.outcome.result
  }

  function RunFor(name: Naming, ob: Observation): Run {
    Run(name(Sig(ob)), ob.trigger, Sig(ob), ob.outcome.result, ob.outcome.action, ob.outcome.mismatch, ob.ts)
  }

  function Observe(name: Naming, book: Book, ob: Observation): Book {
    if Unchanged(book.runs, ob) then book
    else
      Book(Remember(book.runs, RunFor(name, ob)),
           Adopt(book.adoptions, AdoptionsFor(ob.outcome.diffs, ob.snapshot, name(Sig(ob)), ob.ts)),
           book.events + [ob])
  }

  function Replay(name: Naming, obs: seq<Observation>): Book {
    if obs == [] then EMPTY_BOOK else Observe(name, Replay(name, obs[..|obs| - 1]), obs[|obs| - 1])
  }

  // ------------------------------------------------------------ first sightings

  predicate SeenBefore(obs: seq<Observation>, sig: Signature) {
    exists k :: 0 <= k < |obs| && Sig(obs[k]) == sig
  }

  /** The observations whose signature was new when they were made. */
  function FirstSightings(obs: seq<Observation>): seq<Observation> {
    if obs == [] then []
    else
      var init, last := obs[..|obs| - 1], obs[|obs| - 1];
      if SeenBefore(init, Sig(last)) then FirstSightings(init) else FirstSightings(init) + [last]
  }

  /** This observation does not share its run id with another signature among these. */
  ghost predicate Apart(name: Naming, obs: seq<Observation>, ob: Observation) {
    forall k :: 0 <= k < |obs| && name(Sig(obs[k])) == name(Sig(ob)) ==> Sig(obs[k]) == Sig(ob)
  }

  /** No two different signatures observed share a run id. */
  ghost predicate NoCollision(name: Naming, obs: seq<Observation>) {
    forall k :: 0 <= k < |obs| ==> Apart(name, obs, obs[k])
  }

  predicate Increasing(obs: seq<Observation>) {
    forall i, k :: 0 <= i < k < |obs| ==> obs[i].ts < obs[k].ts
  }

  function RunsFor(name: Naming, obs: seq<Observation>): seq<Run> {
    if obs == [] then [] else RunsFor(name, obs[..|obs| - 1]) + [RunFor(name, obs[|obs| - 1])]
  }

  lemma {:induction false} RunsForAt(name: Naming, obs: seq<Observation>)
    ensures |RunsFor(name, obs)| == |obs|
    ensures forall k :: 0 <= k < |obs| ==> RunsFor(name, obs)[k] == RunFor(name, obs[k])
  {
    hide RunFor;
    if obs != [] { RunsForAt(name, obs[..|obs| - 1]); }
  }

  /** Each first sighting is an observation; each signature is sighted first once; times increase. */
  lemma {:induction false} Sightings(obs: seq<Observation>)
    requires Increasing(obs)
    ensures forall sig :: SeenBefore(FirstSightings(obs), sig) <==> SeenBefore(obs, sig)
    ensures forall i, k :: 0 <= i < k < |FirstSightings(obs)| ==>
      Sig(FirstSightings(obs)[i]) != Sig(FirstSightings(obs)[k])
    ensures Increasing(FirstSightings(obs))
    ensures forall k :: 0 <= k < |FirstSightings(obs)| ==> FirstSightings(obs)[k].ts <= obs[|obs| - 1].ts
    ensures obs == [] <==> FirstSightings(obs) == []
  {
    hide Sig, SeenBefore;
    if obs == [] {
      forall sig ensures !SeenBefore([], sig) { NoneSeen(sig); }
    } else {
      var init, last := obs[..|obs| - 1], obs[|obs| - 1];
      Sightings(init);
      NoneSeen(Sig(last));
      assert obs == init + [last];
      forall sig ensures SeenBefore(obs, sig) <==> SeenBefore(init, sig) || Sig(last) == sig {
        SeenSnoc(init, last, sig);
      }
      forall sig
        ensures SeenBefore(FirstSightings(init) + [last], sig) <==>
          SeenBefore(FirstSightings(init), sig) || Sig(last) == sig
      {
        SeenSnoc(FirstSightings(init), last, sig);
      }
      if !SeenBefore(init, Sig(last)) {
        var firsts := FirstSightings(init);
        forall k | 0 <= k < |firsts| ensures Sig(firsts[k]) != Sig(last) { Sighted(firsts, k); }
      }
    }
  }

  lemma NoneSeen(sig: Signature)
    ensures !SeenBefore([], sig)
  {
  }

  lemma Sighted(obs: seq<Observation>, k: nat)
    requires k < |obs|
    ensures SeenBefore(obs, Sig(obs[k]))
  {
    hide Sig;
  }

  lemma SeenSnoc(obs: seq<Observation>, last: Observation, sig: Signature)
    ensures SeenBefore(obs + [last], sig) <==> SeenBefore(obs, sig) || Sig(last) == sig
  {
    hide Sig;
    var all := obs + [last];
    assert all[|obs|] == last;
    if SeenBefore(obs, sig) {
      var k :| 0 <= k < |obs| && Sig(obs[k]) == sig;
      assert all[k] == obs[k];
    }
  }

  lemma {:induction false} LatestOfIncreasing(runs: seq<Run>)
    requires forall i, k :: 0 <= i < k < |runs| ==> runs[i].ts < runs[k].ts
    ensures Latest(runs) == if runs == [] then None else Some(runs[|runs| - 1])
  {
    hide TextAtMost;
    if runs != [] { LatestOfIncreasing(runs[..|runs| - 1]); }
  }

  lemma LatestRun(name: Naming, firsts: seq<Observation>)
    requires Increasing(firsts)
    ensures Latest(RunsFor(name, firsts)) == if firsts == [] then None else Some(RunFor(name, firsts[|firsts| - 1]))
  {
    hide Latest;
    RunsForAt(name, firsts);
    LatestOfIncreasing(RunsFor(name, firsts));
  }

  /** Over any history the run table holds one row per distinct signature ever observed: that of
      its first sighting, in order. */
  lemma {:induction false} RunsAreFirstSightings(name: Naming, obs: seq<Observation>)
    requires NoCollision(name, obs) && Increasing(obs)
    ensures Replay(name, obs).runs == RunsFor(name, FirstSightings(obs))
  {
    hide Latest, Sig, Adopt, AdoptionsFor, NoCollision, RunFor;
    if obs != [] {
      var init, last := obs[..|obs| - 1], obs[|obs| - 1];
      assert obs == init + [last];
      PrefixApart(name, init, last);
      RunsAreFirstSightings(name, init);
      Sightings(init);
      var firsts := FirstSightings(init);
      FirstsApart(name, init, last);
      LatestRun(name, firsts);
      HasRunIff(name, firsts, last);
      assert (firsts + [last])[..|firsts|] == firsts;
      if Unchanged(Replay(name, init).runs, last) { UnchangedIsSeen(name, firsts, last); }
    }
  }

  lemma UnchangedIsSeen(name: Naming, firsts: seq<Observation>, last: Observation)
    requires Increasing(firsts) && Unchanged(RunsFor(name, firsts), last)
    ensures SeenBefore(firsts, Sig(last)) && Sig(firsts[|firsts| - 1]) == Sig(last)
  {
    hide Latest, Sig;
    LatestRun(name, firsts);
  }

  lemma PrefixApart(name: Naming, obs: seq<Observation>, ob: Observation)
    requires NoCollision(name, obs + [ob])
    ensures NoCollision(name, obs) && Apart(name, obs, ob)
  {
    hide Sig;
    var all := obs + [ob];
    assert all[|obs|] == ob;
    forall i, k | 0 <= i < |obs| && 0 <= k < |obs| && name(Sig(obs[i])) == name(Sig(obs[k]))
      ensures Sig(obs[i]) == Sig(obs[k]) {
      assert all[i] == obs[i] && all[k] == obs[k] && Apart(name, all, all[k]);
    }
    forall i | 0 <= i < |obs| && name(Sig(obs[i])) == name(Sig(ob)) ensures Sig(obs[i]) == Sig(ob) {
      assert all[i] == obs[i] && Apart(name, all, all[|obs|]);
    }
  }

  lemma FirstsApart(name: Naming, obs: seq<Observation>, ob: Observation)
    requires Apart(name, obs, ob) && Increasing(obs)
    ensures Apart(name, FirstSightings(obs), ob)
  {
    hide Sig, FirstSightings;
    Sightings(obs);
    var firsts := FirstSightings(obs);
    forall k | 0 <= k < |firsts| && name(Sig(firsts[k])) == name(Sig(ob)) ensures Sig(firsts[k]) == Sig(ob) {
      Sighted(firsts, k);
      var i :| 0 <= i < |obs| && Sig(obs[i]) == Sig(firsts[k]);
      assert name(Sig(obs[i])) == name(Sig(ob));
    }
  }

  lemma HasRunIff(name: Naming, firsts: seq<Observation>, ob: Observation)
    requires Apart(name, firsts, ob)
    ensures HasRun(RunsFor(name, firsts), RunFor(name, ob).id) <==> SeenBefore(firsts, Sig(ob))
  {
    hide Sig;
    RunsForAt(name, firsts);
    var runs := RunsFor(name, firsts);
    if HasRun(runs, name(Sig(ob))) {
      var k :| 0 <= k < |runs| && runs[k].id == name(Sig(ob));
      assert runs[k] == RunFor(name, firsts[k]);
      assert Sig(firsts[k]) == Sig(ob);
    }
    if SeenBefore(firsts, Sig(ob)) {
      var k :| 0 <= k < |firsts| && Sig(firsts[k]) == Sig(ob);
      assert runs[k] == RunFor(name, firsts[k]);
    }
  }

  /** The newest first sighting of a history. */
  ghost predicate Newest(obs: seq<Observation>, ob: Observation) {
    FirstSightings(obs) != [] && FirstSightings(obs)[|FirstSightings(obs)| - 1] == ob
  }

  /** The shadow state is the result of the newest first-seen signature. */
  lemma ShadowIsNewestSighting(name: Naming, obs: seq<Observation>)
    requires NoCollision(name, obs) && Increasing(obs)
    ensures obs == [] ==> ShadowState(Replay(name, obs).runs).None?
    ensures forall ob :: Newest(obs, ob) ==> ShadowState(Replay(name, obs).runs) == Some(ob.outcome.result)
  {
    hide Latest, NoCollision, Sig, Replay;
    RunsAreFirstSightings(name, obs);
    Sightings(obs);
    LatestRun(name, FirstSightings(obs));
  }

  /** A further observation shows in the shadow state exactly when its signature is new, or the
      newest first-seen signature happens to have the same result. */
  lemma ShadowFollowsIff(name: Naming, obs: seq<Observation>, ob: Observation)
    requires NoCollision(name, obs + [ob]) && Increasing(obs + [ob])
    ensures ShadowState(Replay(name, obs + [ob]).runs) == Some(ob.outcome.result) <==>
      !SeenBefore(obs, Sig(ob)) || ShadowState(Replay(name, obs).runs) == Some(ob.outcome.result)
  {
    hide Latest, NoCollision, Sig, Replay;
    PrefixApart(name, obs, ob);
    PrefixIncreases(obs, ob);
    SightingsSnoc(obs, ob);
    RunsAreFirstSightings(name, obs);
    RunsAreFirstSightings(name, obs + [ob]);
    Sightings(obs + [ob]);
    LatestRun(name, FirstSightings(obs + [ob]));
  }

  lemma PrefixIncreases(obs: seq<Observation>, ob: Observation)
    requires Increasing(obs + [ob])
    ensures Increasing(obs)
  {
    forall i, k | 0 <= i < k < |obs| ensures obs[i].ts < obs[k].ts {
      assert (obs + [ob])[i] == obs[i] && (obs + [ob])[k] == obs[k];
    }
  }

  lemma SightingsSnoc(obs: seq<Observation>, ob: Observation)
    ensures FirstSightings(obs + [ob]) ==
      if SeenBefore(obs, Sig(ob)) then FirstSightings(obs) else FirstSightings(obs) + [ob]
  {
    assert (obs + [ob])[..|obs|] == obs;
  }

  lemma ReplaySnoc(name: Naming, obs: seq<Observation>, ob: Observation)
    ensures Replay(name, obs + [ob]) == Observe(name, Replay(name, obs), ob)
  {
    hide Observe;
    assert (obs + [ob])[..|obs|] == obs;
  }

  /** A run writes nothing exactly when its signature is the newest first-seen one. */
  lemma SilentIff(name: Naming, obs: seq<Observation>, ob: Observation)
    requires NoCollision(name, obs) && Increasing(obs)
    ensures Replay(name, obs + [ob]) == Replay(name, obs) <==>
      exists newest :: Newest(obs, newest) && Sig(newest) == Sig(ob)
  {
    hide Latest, NoCollision, Replay, Adopt, AdoptionsFor, Remember;
    ReplaySnoc(name, obs, ob);
    RunsAreFirstSightings(name, obs);
    Sightings(obs);
    LatestRun(name, FirstSightings(obs));
    var book := Replay(name, obs);
    assert |Observe(name, book, ob).events| == |book.events| + if Unchanged(book.runs, ob) then 0 else 1;
  }

  /** Repeating trigger and comparison right after a run with a new signature writes nothing. */
  lemma RepeatIsSilent(name: Naming, obs: seq<Observation>, ob: Observation, again: Observation)
    requires NoCollision(name, obs + [ob]) && Increasing(obs + [ob]) && !SeenBefore(obs, Sig(ob))
    requires again.trigger == ob.trigger && again.outcome == ob.outcome
    ensures Replay(name, obs + [ob] + [again]) == Replay(name, obs + [ob])
  {
    hide Latest, NoCollision, Replay, Observe;
    SightingsSnoc(obs, ob);
    SilentIff(name, obs + [ob], again);
    assert Newest(obs + [ob], ob) && Sig(ob) == Sig(again);
  }

  lemma JustRecorded(name: Naming, obs: seq<Observation>, ob: Observation, again: Observation)
    requires NoCollision(name, obs + [ob]) && Increasing(obs + [ob]) && !SeenBefore(obs, Sig(ob))
    requires again.trigger == ob.trigger && again.outcome == ob.outcome
    ensures Unchanged(Replay(name, obs + [ob]).runs, again)
  {
    hide Latest, NoCollision, Replay, SeenBefore;
    SightingsSnoc(obs, ob);
    RunsAreFirstSightings(name, obs + [ob]);
    Sightings(obs + [ob]);
    LatestRun(name, FirstSightings(obs + [ob]));
  }

  /** Going back to a signature that is not the newest (outcomes A, B, A) leaves an event, but no
      run row, no adoption and no change of the shadow state, however often it is repeated. */
  lemma {:induction false} ReturnLeavesOnlyEvents(name: Naming, obs: seq<Observation>, again: seq<Observation>)
    requires NoCollision(name, obs + again) && Increasing(obs + again) && FirstSightings(obs) != []
    requires forall k :: 0 <= k < |again| ==> SeenBefore(obs, Sig(again[k])) && Grounded(again[k])
    requires forall k :: 0 <= k < |again| ==> Sig(again[k]) != Sig(FirstSightings(obs)[|FirstSightings(obs)| - 1])
    requires forall k :: 0 <= k < |obs| ==> Grounded(obs[k])
    ensures var before, after := Replay(name, obs), Replay(name, obs + again);
      && after.runs == before.runs && after.adoptions == before.adoptions
      && after.events == before.events + again
      && FirstSightings(obs + again) == FirstSightings(obs)
  {
    hide Latest, NoCollision, Replay, Sig, Grounded;
    if again == [] {
      assert obs + again == obs;
    } else {
      var init, last := again[..|again| - 1], again[|again| - 1];
      assert obs + again == (obs + init) + [last];
      PrefixApart(name, obs + init, last);
      PrefixIncreases(obs + init, last);
      ReturnLeavesOnlyEvents(name, obs, init);
      ReturnOnce(name, obs, init, last);
    }
  }

  lemma ReturnOnce(name: Naming, obs: seq<Observation>, init: seq<Observation>, last: Observation)
    requires NoCollision(name, obs + init + [last]) && Increasing(obs + init)
      && FirstSightings(obs + init) == FirstSightings(obs) != []
    requires SeenBefore(obs, Sig(last)) && Grounded(last) && forall k :: 0 <= k < |obs| ==> Grounded(obs[k])
    requires forall k :: 0 <= k < |init| ==> Grounded(init[k])
    requires Sig(last) != Sig(FirstSightings(obs)[|FirstSightings(obs)| - 1])
    ensures var before, after := Replay(name, obs + init), Replay(name, obs + init + [last]);
      && after.runs == before.runs && after.adoptions == before.adoptions && after.events == before.events + [last]
      && FirstSightings(obs + init + [last]) == FirstSightings(obs)
  {
    hide Latest, NoCollision, Replay, Sig, Grounded, Adopt, AdoptionsFor, RunFor, Adopted;
    var all := obs + init;
    var k :| 0 <= k < |obs| && Sig(obs[k]) == Sig(last);
    assert all[k] == obs[k];
    assert SeenBefore(all, Sig(last));
    ReplaySnoc(name, all, last);
    SightingsSnoc(all, last);
    PrefixApart(name, all, last);
    RunsAreFirstSightings(name, all);
    Sightings(all);
    FirstsApart(name, all, last);
    HasRunIff(name, FirstSightings(all), last);
    LatestRun(name, FirstSightings(all));
    if Unchanged(Replay(name, all).runs, last) { UnchangedIsSeen(name, FirstSightings(all), last); }
    forall i | 0 <= i < |all| ensures Grounded(all[i]) {
      assert all[i] == if i < |obs| then obs[i] else init[i - |obs|];
    }
    AdoptedOnRecord(name, all, k);
    NothingNew(name, Replay(name, all).adoptions, all[k], last);
  }

  // ------------------------------------------------------------------ adoptions

  /** Every entity to be adopted is in the snapshot. */
  predicate Grounded(ob: Observation) {
    forall d :: d in ob.outcome.diffs && d.cls.Recoverable? ==> RowOf(Rows(ob.snapshot, d.kind), d.id).Some?
  }

  /** An entity these diffs class as unknown locally. */
  predicate Unmapped(diffs: seq<Diff>, kind: Kind, brokerId: string) {
    exists k :: 0 <= k < |diffs| && diffs[k].cls.Recoverable? && diffs[k].kind == kind && diffs[k].id == brokerId
  }

  predicate Adopted(ob: Observation, kind: Kind, brokerId: string) {
    Unmapped(ob.outcome.diffs, kind, brokerId)
  }

  predicate Lists(more: seq<Adoption>, id: AdoptionId) {
    exists k :: 0 <= k < |more| && more[k].id == id
  }

  lemma ListsSnoc(more: seq<Adoption>, last: Adoption, id: AdoptionId)
    ensures Lists(more + [last], id) <==> Lists(more, id) || last.id == id
  {
    assert (more + [last])[|more|] == last;
    if Lists(more, id) {
      var k :| 0 <= k < |more| && more[k].id == id;
      assert (more + [last])[k] == more[k];
    }
  }

  lemma UnmappedSnoc(diffs: seq<Diff>, last: Diff, kind: Kind, brokerId: string)
    ensures Unmapped(diffs + [last], kind, brokerId)
      <==> Unmapped(diffs, kind, brokerId) || (last.cls.Recoverable? && last.kind == kind && last.id == brokerId)
  {
    assert (diffs + [last])[|diffs|] == last;
    if Unmapped(diffs, kind, brokerId) {
      var k :| 0 <= k < |diffs| && diffs[k].cls.Recoverable? && diffs[k].kind == kind && diffs[k].id == brokerId;
      assert (diffs + [last])[k] == diffs[k];
    }
  }

  lemma {:induction false} AdoptKeys(table: Adoptions, more: seq<Adoption>, id: AdoptionId)
    ensures id in Adopt(table, more) <==> id in table || Lists(more, id)
  {
    hide Lists;
    if more != [] {
      var init, last := more[..|more| - 1], more[|more| - 1];
      assert more == init + [last];
      AdoptKeys(table, init, id);
      ListsSnoc(init, last, id);
    } else {
      NothingListed(id);
    }
  }

  lemma {:induction false} AdoptKnown(table: Adoptions, more: seq<Adoption>)
    requires forall k :: 0 <= k < |more| ==> more[k].id in table
    ensures Adopt(table, more) == table
  {
    if more != [] { AdoptKnown(table, more[..|more| - 1]); }
  }

  lemma {:induction false} AdoptionsForKeys(diffs: seq<Diff>, s: Snapshot, run: string, ts: int, id: AdoptionId)
    ensures Lists(AdoptionsFor(diffs, s, run, ts), id)
      <==> (id.run == run && RowOf(Rows(s, id.kind), id.brokerId).Some? && Unmapped(diffs, id.kind, id.brokerId))
  {
    hide RowOf, Rows, Lists, Unmapped;
    if diffs != [] {
      var init, last := diffs[..|diffs| - 1], diffs[|diffs| - 1];
      assert diffs == init + [last];
      AdoptionsForKeys(init, s, run, ts, id);
      UnmappedSnoc(init, last, id.kind, id.brokerId);
      var row := RowOf(Rows(s, last.kind), last.id);
      if last.cls.Recoverable? && row.Some? {
        ListsSnoc(AdoptionsFor(init, s, run, ts),
          Adoption(AdoptionId(last.kind, last.id, run), row.value, last.reason, ts), id);
      }
    } else {
      NothingListed(id);
    }
  }

  lemma NothingListed(id: AdoptionId)
    ensures !Lists([], id) && !Unmapped([], id.kind, id.brokerId)
  {
  }

  lemma ObserveKeys(name: Naming, book: Book, ob: Observation, id: AdoptionId)
    requires Grounded(ob) && !Unchanged(book.runs, ob)
    ensures id in Observe(name, book, ob).adoptions <==>
      id in book.adoptions || (id.run == name(Sig(ob)) && Adopted(ob, id.kind, id.brokerId))
  {
    hide Latest, Sig, Adopt, AdoptionsFor, RowOf, Rows, Unchanged, Remember, Lists;
    AdoptKeys(book.adoptions, AdoptionsFor(ob.outcome.diffs, ob.snapshot, name(Sig(ob)), ob.ts), id);
    AdoptionsForKeys(ob.outcome.diffs, ob.snapshot, name(Sig(ob)), ob.ts, id);
    if Adopted(ob, id.kind, id.brokerId) {
      var k :| 0 <= k < |ob.outcome.diffs| && ob.outcome.diffs[k].cls.Recoverable?
        && ob.outcome.diffs[k].kind == id.kind && ob.outcome.diffs[k].id == id.brokerId;
      assert ob.outcome.diffs[k] in ob.outcome.diffs;
    }
  }

  /** After any history the adoption table holds, for every signature ever observed, exactly the
      entities that outcome classified as unknown locally. */
  lemma {:induction false} AdoptedOnRecord(name: Naming, obs: seq<Observation>, k: nat)
    requires NoCollision(name, obs) && Increasing(obs) && k < |obs|
    requires forall i :: 0 <= i < |obs| ==> Grounded(obs[i])
    ensures forall kind, brokerId ::
      AdoptionId(kind, brokerId, name(Sig(obs[k]))) in Replay(name, obs).adoptions <==> Adopted(obs[k], kind, brokerId)
  {
    hide Latest, NoCollision, Sig, Grounded, Adopted;
    forall kind, brokerId
      ensures AdoptionId(kind, brokerId, name(Sig(obs[k]))) in Replay(name, obs).adoptions <==>
        Adopted(obs[k], kind, brokerId)
    {
      AdoptionsTrace(name, obs, AdoptionId(kind, brokerId, name(Sig(obs[k]))), k);
    }
  }

  lemma {:induction false} AdoptionsTrace(name: Naming, obs: seq<Observation>, id: AdoptionId, k: nat)
    requires NoCollision(name, obs) && Increasing(obs) && k < |obs| && id.run == name(Sig(obs[k]))
    requires forall i :: 0 <= i < |obs| ==> Grounded(obs[i])
    ensures id in Replay(name, obs).adoptions <==> Adopted(obs[k], id.kind, id.brokerId)
  {
    hide Latest, Sig, Grounded, Adopted, Observe, RunFor;
    var init, last := obs[..|obs| - 1], obs[|obs| - 1];
    assert obs == init + [last];
    PrefixApart(name, init, last);
    if Sig(last) == Sig(obs[k]) {
      SameSignature(last, obs[k], id.kind, id.brokerId);
      if i :| 0 <= i < |init| && Sig(init[i]) == Sig(last) {
        AdoptionsTrace(name, init, id, i);
        SameSignature(init[i], last, id.kind, id.brokerId);
      } else {
        NoTrace(name, init, id, last);
        NotUnchanged(name, init, last);
      }
      if !Unchanged(Replay(name, init).runs, last) {
        ObserveKeys(name, Replay(name, init), last, id);
      } else {
        StaysPut(name, Replay(name, init), last);
      }
    } else {
      assert k < |init| && init[k] == obs[k];
      AdoptionsTrace(name, init, id, k);
      assert Apart(name, obs, obs[k]) && obs[|obs| - 1] == last;
      assert name(Sig(last)) != id.run;
      if !Unchanged(Replay(name, init).runs, last) {
        ObserveKeys(name, Replay(name, init), last, id);
      } else {
        StaysPut(name, Replay(name, init), last);
      }
    }
  }

  lemma StaysPut(name: Naming, book: Book, ob: Observation)
    requires Unchanged(book.runs, ob)
    ensures Observe(name, book, ob) == book
  {
    hide Latest, Sig, Unchanged;
  }

  /** A signature not yet seen has no adoption. */
  lemma {:induction false} NoTrace(name: Naming, obs: seq<Observation>, id: AdoptionId, ob: Observation)
    requires Apart(name, obs, ob) && id.run == name(Sig(ob))
    requires forall i :: 0 <= i < |obs| ==> Grounded(obs[i]) && Sig(obs[i]) != Sig(ob)
    ensures id !in Replay(name, obs).adoptions
  {
    hide Latest, Sig, Grounded, Adopted, Observe;
    if obs != [] {
      var init, last := obs[..|obs| - 1], obs[|obs| - 1];
      NoTrace(name, init, id, ob);
      assert name(Sig(last)) != id.run;
      if !Unchanged(Replay(name, init).runs, last) {
        ObserveKeys(name, Replay(name, init), last, id);
      } else {
        StaysPut(name, Replay(name, init), last);
      }
    }
  }

  lemma NotUnchanged(name: Naming, obs: seq<Observation>, ob: Observation)
    requires NoCollision(name, obs) && Increasing(obs)
    requires forall i :: 0 <= i < |obs| ==> Sig(obs[i]) != Sig(ob)
    ensures !Unchanged(Replay(name, obs).runs, ob)
  {
    hide Latest, Sig, Unchanged, NoCollision, Replay;
    RunsAreFirstSightings(name, obs);
    Sightings(obs);
    if Unchanged(Replay(name, obs).runs, ob) {
      UnchangedIsSeen(name, FirstSightings(obs), ob);
      assert false;
    }
  }

  lemma SameSignature(a: Observation, b: Observation, kind: Kind, brokerId: string)
    requires Sig(a) == Sig(b)
    ensures Adopted(a, kind, brokerId) <==> Adopted(b, kind, brokerId)
  {
  }

  lemma NothingNew(name: Naming, table: Adoptions, first: Observation, again: Observation)
    requires Sig(first) == Sig(again)
    requires forall kind, brokerId :: Adopted(first, kind, brokerId) ==>
      AdoptionId(kind, brokerId, name(Sig(first))) in table
    ensures Adopt(table, AdoptionsFor(again.outcome.diffs, again.snapshot, name(Sig(again)), again.ts)) == table
  {
    hide Sig, Adopt, AdoptionsFor, RowOf, Rows, Unmapped;
    var more := AdoptionsFor(again.outcome.diffs, again.snapshot, name(Sig(again)), again.ts);
    forall k | 0 <= k < |more| ensures more[k].id in table {
      assert Lists(more, more[k].id);
      AdoptionsForKeys(again.outcome.diffs, again.snapshot, name(Sig(again)), again.ts, more[k].id);
      SameSignature(first, again, more[k].id.kind, more[k].id.brokerId);
    }
    AdoptKnown(table, more);
  }
}
