/** What the counters of a protocol run count: transactions observed, candidates extracted, and those
    of them that are stored as verified and as strict. */
module RunCounters {
  import opened ScanTypes
  import opened ProtocolRunner
  import opened RunConvergence
  import RunEvents
  import Aggregator

  /** Those of the first k candidates whose stored row is verified. */
  ghost function VerifiedRows(t: Task, rows: map<Key, Aggregator.Row>, k: nat): set<nat>
    requires k <= |t.candidates|
  {
    set i: nat | i < k && t.candidates[i].key in rows && rows[t.candidates[i].key].verdict.verified
  }

  ghost function StrictRows(t: Task, rows: map<Key, Aggregator.Row>, k: nat): set<nat>
    requires k <= |t.candidates|
  {
    set i: nat | i < k && t.candidates[i].key in rows && rows[t.candidates[i].key].verdict.strict
  }

  lemma {:induction false} CandidateCounted(t: Task, r: Run, c: Candidate)
    requires !CandidateStep(t, r, c).failed
    ensures
      var next, outcome := CandidateStep(t, r, c), Judge(t, r.store, c);
      && outcome.Judged?
      && next.stats.verified == r.stats.verified + (if outcome.verdict.verified then 1 else 0)
      && next.stats.strict == r.stats.strict + (if outcome.verdict.strict then 1 else 0)
      && next.stats.observed == r.stats.observed && next.stats.candidates == r.stats.candidates
  {
    hide WithLegs, LegsAt, BlockOf;
  }

  lemma {:induction false} OthersSame(t: Task, before: map<Key, Aggregator.Row>, after: map<Key, Aggregator.Row>, k: nat, i: nat)
    requires DistinctCandidates(t) && i < k < |t.candidates| && forall key :: key != t.candidates[k].key ==> SameAt(before, after, key)
    ensures SameAt(before, after, t.candidates[i].key)
  {
    assert t.candidates[i].key != t.candidates[k].key;
  }

  lemma {:induction false} OneMoreVerified(t: Task, before: map<Key, Aggregator.Row>, after: map<Key, Aggregator.Row>, k: nat)
    requires k < |t.candidates| && t.candidates[k].key in after && forall i: nat :: i < k ==> SameAt(before, after, t.candidates[i].key)
    ensures |VerifiedRows(t, after, k + 1)| == |VerifiedRows(t, before, k)| + if after[t.candidates[k].key].verdict.verified then 1 else 0
  {
    assert VerifiedRows(t, after, k + 1) == VerifiedRows(t, before, k) + if after[t.candidates[k].key].verdict.verified then {k} else {};
  }

  lemma {:induction false} OneMoreStrict(t: Task, before: map<Key, Aggregator.Row>, after: map<Key, Aggregator.Row>, k: nat)
    requires k < |t.candidates| && t.candidates[k].key in after && forall i: nat :: i < k ==> SameAt(before, after, t.candidates[i].key)
    ensures |StrictRows(t, after, k + 1)| == |StrictRows(t, before, k)| + if after[t.candidates[k].key].verdict.strict then 1 else 0
  {
    assert StrictRows(t, after, k + 1) == StrictRows(t, before, k) + if after[t.candidates[k].key].verdict.strict then {k} else {};
  }

  lemma {:induction false} VerifyCounted(t: Task, r: Run, k: nat)
    requires DistinctCandidates(t) && k <= |t.candidates| && !VerifyAll(t, r, k).failed && r.stats.verified == r.stats.strict == 0
    requires forall i :: 0 <= i < |t.candidates| ==> t.candidates[i].key in r.store.rows
    ensures
      var next := VerifyAll(t, r, k);
      && next.stats.verified == |VerifiedRows(t, next.store.rows, k)| && next.stats.strict == |StrictRows(t, next.store.rows, k)|
      && next.stats.observed == r.stats.observed && next.stats.candidates == r.stats.candidates
      && (forall i :: 0 <= i < |t.candidates| ==> t.candidates[i].key in next.store.rows)
  {
    hide CandidateStep, DistinctCandidates, VerifiedRows, StrictRows, LegsAt;
    if k == 0 {
      NoRowsYet(t, r.store.rows);
    } else {
      var before, c := VerifyAll(t, r, k - 1), t.candidates[k - 1];
      CandidateWrites(t, before, c);
      VerifyCounted(t, r, k - 1);
      CandidateCounted(t, before, c);
      var after := VerifyAll(t, r, k).store.rows;
      forall i: nat | i < k - 1 ensures SameAt(before.store.rows, after, t.candidates[i].key) {
        OthersSame(t, before.store.rows, after, k - 1, i);
      }
      OneMoreVerified(t, before.store.rows, after, k - 1);
      OneMoreStrict(t, before.store.rows, after, k - 1);
    }
  }

  lemma {:induction false} NoRowsYet(t: Task, rows: map<Key, Aggregator.Row>)
    ensures VerifiedRows(t, rows, 0) == {} && StrictRows(t, rows, 0) == {}
  {
  }

  lemma {:induction false} AggregatesCountNothing(r: Run, txs: seq<string>, k: nat)
    requires k <= |txs|
    ensures
      var next := AggregateAll(r, txs, k);
      && next.stats.observed == r.stats.observed && next.stats.candidates == r.stats.candidates
      && next.stats.verified == r.stats.verified && next.stats.strict == r.stats.strict && next.store.rows == r.store.rows
  {
    hide Aggregator.Summarize, Aggregator.RowsOf, BlockOf;
    if k > 0 {
      AggregatesCountNothing(r, txs, k - 1);
    }
  }

  lemma {:induction false} PreparedCounts(t: Task, store: Store, budget: nat)
    requires !Prepared(t, Start(store, budget)).failed
    ensures Prepared(t, Start(store, budget)).stats.observed == t.observed
  {
  }

  /** A run that succeeds has counted the transactions observed, the candidates extracted, and those of
      them whose stored verdict is verified, and strict. */
  lemma {:induction false} RunCounts(t: Task, store: Store, order: seq<Key>, budget: nat)
    requires DistinctCandidates(t) && HasWork(t) && !RunOf(t, store, order, budget).failed
    ensures
      var r := RunOf(t, store, order, budget);
      && r.stats.observed == t.observed && r.stats.candidates == |t.candidates|
      && r.stats.verified == |VerifiedRows(t, r.store.rows, |t.candidates|)|
      && r.stats.strict == |StrictRows(t, r.store.rows, |t.candidates|)|
  {
    var start := Start(store, budget);
    PhasesSucceed(t, start, order);
    RunEvents.PreparedQuiet(t, store, budget);
    PreparedCounts(t, store, budget);
    var prepared := Prepared(t, start);
    var upserted := UpsertStep(t, prepared);
    var replaced := ReplaceAll(t, upserted, order, |order|);
    hide Prepared, Upserted, ReplaceAll, VerifyAll, AggregateAll, TxOrder, DistinctCandidates, VerifiedRows, StrictRows;
    RunEvents.ReplaceQuiet(t, upserted, order, |order|);
    forall i | 0 <= i < |t.candidates| ensures t.candidates[i].key in replaced.store.rows {
      UpsertedLast(store.rows, t.candidates, |t.candidates|, i);
    }
    VerifyCounted(t, replaced, |t.candidates|);
    AggregatesCountNothing(VerifyAll(t, replaced, |t.candidates|), Txs(t), |Txs(t)|);
  }
}
