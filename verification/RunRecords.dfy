/**
 * What the recorded rows of reconciliation say: a signature is its outcome, a
 * run row tells its first sighting, an adoption carries the broker's row.
 */
module RunRecords {
  import opened Common
  import opened Sorting
  import opened Classifier
  import opened ReconciliationRuns

  // ---------------------------------------------------------------- signatures

  /** Two signatures are the same exactly when trigger, result, action, mismatch, all four numbers of
      entities and all diffs are. */
  lemma SignatureTells(t: Trigger, o: Outcome, t': Trigger, o': Outcome)
    ensures SignatureOf(t, o) == SignatureOf(t', o') <==>
      && t == t' && o.result == o'.result && o.action == o'.action && o.mismatch == o'.mismatch
      && o.openPositions == o'.openPositions && o.openOrders == o'.openOrders
      && o.brokerPositions == o'.brokerPositions && o.brokerOrders == o'.brokerOrders && o.diffs == o'.diffs
  {
  }

  /** Between comparisons the counters left out make no difference: equal signatures mean the same
      trigger and the same outcome altogether. */
  lemma SignatureIsOutcome(t: Trigger, positions: seq<Local>, orders: seq<Local>, s: Snapshot, t': Trigger,
                           positions': seq<Local>, orders': seq<Local>, s': Snapshot)
    ensures var o, o' := Comparison(positions, orders, s), Comparison(positions', orders', s');
      SignatureOf(t, o) == SignatureOf(t', o') <==> t == t' && o == o'
  {
    hide AllDiffs, Sort, Classifier.Count, FirstIds;
  }

  // ------------------------------------------------------------------ run rows

  /** Every run row tells the trigger, result, action, mismatch and time of its first sighting, under
      the id made from its signature. */
  lemma RunRowsTell(name: Naming, obs: seq<Observation>, k: nat)
    requires NoCollision(name, obs) && Increasing(obs) && k < |FirstSightings(obs)|
    ensures var runs, ob := Replay(name, obs).runs, FirstSightings(obs)[k];
      && |runs| == |FirstSightings(obs)|
      && runs[k].trigger == ob.trigger && runs[k].result == ob.outcome.result
      && runs[k].action == ob.outcome.action && runs[k].mismatch == ob.outcome.mismatch && runs[k].ts == ob.ts
      && runs[k].signature == SignatureOf(ob.trigger, ob.outcome)
      && runs[k].id == name(SignatureOf(ob.trigger, ob.outcome))
  {
    hide Replay, FirstSightings, NoCollision;
    RunsAreFirstSightings(name, obs);
    RunsForAt(name, FirstSightings(obs));
  }

  /** The latest run is the one of greatest time, and of greatest id among those. */
  lemma {:induction false} LatestMeans(runs: seq<Run>)
    ensures Latest(runs).None? <==> runs == []
    ensures Latest(runs).Some? ==>
      var r := Latest(runs).value;
      && r in runs
      && forall k :: 0 <= k < |runs| ==> runs[k].ts < r.ts || (runs[k].ts == r.ts && TextAtMost(runs[k].id, r.id))
  {
    hide TextAtMost;
    if runs != [] {
      var init, last := runs[..|runs| - 1], runs[|runs| - 1];
      LatestMeans(init);
      TextOrder(last.id, last.id);
      if init != [] {
        var b := Latest(init).value;
        TextOrder(b.id, last.id);
        forall k | 0 <= k < |init| && TextAtMost(init[k].id, b.id) && TextAtMost(b.id, last.id)
          ensures TextAtMost(init[k].id, last.id)
        {
          TextTransitive(init[k].id, b.id, last.id);
        }
      }
    }
  }

  // ----------------------------------------------------------------- adoptions

  /** The row that counts for its id: the last one with it. */
  predicate LastRow(bs: seq<Seen>, b: Seen) {
    exists n :: 0 <= n < |bs| && bs[n] == b && forall m :: n < m < |bs| ==> bs[m].id != b.id
  }

  lemma {:induction false} RowMeans(bs: seq<Seen>, id: string)
    ensures RowOf(bs, id).Some? ==> RowOf(bs, id).value.id == id && LastRow(bs, RowOf(bs, id).value)
  {
    if bs != [] {
      var init, last := bs[..|bs| - 1], bs[|bs| - 1];
      RowMeans(init, id);
      if last.id == id {
        assert bs[|bs| - 1] == last;
      } else if RowOf(init, id).Some? {
        var n :| 0 <= n < |init| && init[n] == RowOf(init, id).value && forall m :: n < m < |init| ==> init[m].id != id;
        assert bs[n] == init[n];
      }
    }
  }

  /** x adopts the broker's own row of an entity this comparison classed as unknown locally. */
  ghost predicate AdoptedFrom(ob: Observation, id: AdoptionId, x: Adoption) {
    && x.id == id && x.ts == ob.ts && x.row.id == id.brokerId
    && LastRow(if id.kind == PositionKind then ob.snapshot.positions else ob.snapshot.orders, x.row)
    && exists d :: d in ob.outcome.diffs && d.cls == Recoverable && d.kind == id.kind && d.id == id.brokerId
                   && d.reason == x.reason
  }

  lemma {:induction false} ListedAdoption(ob: Observation, diffs: seq<Diff>, run: string, x: Adoption)
    requires forall d :: d in diffs ==> d in ob.outcome.diffs
    requires x in AdoptionsFor(diffs, ob.snapshot, run, ob.ts)
    ensures x.id.run == run && AdoptedFrom(ob, x.id, x)
  {
    hide LastRow, RowOf;
    if diffs != [] {
      var init, d := diffs[..|diffs| - 1], diffs[|diffs| - 1];
      assert d in diffs;
      forall e | e in init ensures e in ob.outcome.diffs { assert e in diffs; }
      var before, row := AdoptionsFor(init, ob.snapshot, run, ob.ts), RowOf(Rows(ob.snapshot, d.kind), d.id);
      RowMeans(Rows(ob.snapshot, d.kind), d.id);
      if x in before { ListedAdoption(ob, init, run, x); }
    }
  }

  lemma {:induction false} AdoptAdds(table: Adoptions, more: seq<Adoption>, id: AdoptionId)
    requires id in Adopt(table, more)
    ensures if id in table then Adopt(table, more)[id] == table[id]
      else Adopt(table, more)[id] in more && Adopt(table, more)[id].id == id
  {
    if more != [] {
      var init, last := more[..|more| - 1], more[|more| - 1];
      if id in Adopt(table, init) {
        AdoptAdds(table, init, id);
      } else {
        AdoptKeys(table, init, id);
      }
    }
  }

  /** After any history every adoption on record is that of the first comparison with its signature:
      the broker's row as that snapshot showed it, at the time it was made. */
  lemma {:induction false} AdoptionsTell(name: Naming, obs: seq<Observation>, id: AdoptionId) returns (k: nat)
    requires NoCollision(name, obs) && Increasing(obs) && forall i :: 0 <= i < |obs| ==> Grounded(obs[i])
    requires id in Replay(name, obs).adoptions
    ensures k < |obs| && id.run == name(Sig(obs[k])) && AdoptedFrom(obs[k], id, Replay(name, obs).adoptions[id])
    ensures forall i :: 0 <= i < k ==> Sig(obs[i]) != Sig(obs[k])
  {
    hide Latest, Sig, Grounded, Adopted, AdoptedFrom, RunFor, Unchanged, Remember, Adopt, AdoptionsFor, NoCollision;
    var init, last := obs[..|obs| - 1], obs[|obs| - 1];
    assert obs == init + [last];
    PrefixApart(name, init, last);
    var book := Replay(name, init);
    if id in book.adoptions {
      k := AdoptionsTell(name, init, id);
      if !Unchanged(book.runs, last) {
        AdoptAdds(book.adoptions, AdoptionsFor(last.outcome.diffs, last.snapshot, name(Sig(last)), last.ts), id);
      }
    } else {
      k := |init|;
      NewlyAdopted(name, book, last, id);
      forall i | 0 <= i < |init| ensures Sig(init[i]) != Sig(last) {
        if Sig(init[i]) == Sig(last) {
          AdoptionsTrace(name, init, id, i);
          SameSignature(init[i], last, id.kind, id.brokerId);
        }
      }
    }
  }

  lemma NewlyAdopted(name: Naming, book: Book, ob: Observation, id: AdoptionId)
    requires id !in book.adoptions && id in Observe(name, book, ob).adoptions
    ensures !Unchanged(book.runs, ob) && id.run == name(Sig(ob)) && Adopted(ob, id.kind, id.brokerId)
    ensures AdoptedFrom(ob, id, Observe(name, book, ob).adoptions[id])
  {
    hide Latest, Sig, Adopt, AdoptionsFor, Remember, Unchanged;
    var more := AdoptionsFor(ob.outcome.diffs, ob.snapshot, name(Sig(ob)), ob.ts);
    AdoptAdds(book.adoptions, more, id);
    var x := Adopt(book.adoptions, more)[id];
    ListedAdoption(ob, ob.outcome.diffs, name(Sig(ob)), x);
    var d :| d in ob.outcome.diffs && d.cls == Recoverable && d.kind == id.kind && d.id == id.brokerId
             && d.reason == x.reason;
    var n :| 0 <= n < |ob.outcome.diffs| && ob.outcome.diffs[n] == d;
  }
}
