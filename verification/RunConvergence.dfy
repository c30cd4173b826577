/** Re-running a protocol over the same range converges: however often a run was cut off before, a
    run that succeeds leaves what one clean run would have left. */
module RunConvergence {
  import opened Text
  import opened ScanTypes
  import opened Aggregator
  import opened ProtocolRunner
  import Verifiers
  import TraceVerifiers

  /** Verifying the legs a verification returned gives the same outcome. */
  ghost predicate Stable(verify: (Candidate, seq<Leg>) -> Outcome) {
    forall c, legs :: verify(c, legs).Judged? && verify(c, legs).legs.Some? ==> verify(c, verify(c, legs).legs.value) == verify(c, legs)
  }

  /** No two candidates share an id. */
  ghost predicate DistinctCandidates(t: Task) {
    forall i, j :: 0 <= i < j < |t.candidates| ==> t.candidates[i].key != t.candidates[j].key
  }

  ghost predicate IsCandidate(t: Task, key: Key) {
    exists i :: 0 <= i < |t.candidates| && t.candidates[i].key == key
  }

  function Txs(t: Task): seq<string> {
    TxOrder(t.candidates, |t.candidates|)
  }

  /** Legs b are legs a, or what verifying candidate i turns them into. */
  ghost predicate VerifiedFrom(t: Task, i: nat, a: seq<Leg>, b: seq<Leg>)
    requires i < |t.candidates|
  {
    t.verify(t.candidates[i], a).Judged? && t.verify(t.candidates[i], a).legs == Some(b)
  }

  ghost predicate LegsNear(t: Task, key: Key, from: nat, a: seq<Leg>, b: seq<Leg>) {
    a == b || exists i :: from <= i < |t.candidates| && t.candidates[i].key == key && VerifiedFrom(t, i, a, b)
  }

  ghost predicate SameAt<K, V>(a: map<K, V>, b: map<K, V>, k: K) {
    (k in a <==> k in b) && (k in a ==> a[k] == b[k])
  }

  /** Store b is store a with some of the work of a run done to it. */
  ghost predicate Near(t: Task, a: Store, b: Store) {
    && (forall key :: !IsCandidate(t, key) ==> SameAt(a.rows, b.rows, key))
    && (forall key :: key !in GroupKeys(t.legs) ==> LegsNear(t, key, 0, LegsAt(a.legs, key), LegsAt(b.legs, key)))
    && (forall tx :: tx !in Txs(t) ==> SameAt(a.summaries, b.summaries, tx))
  }

  ghost predicate SameStore(a: Store, b: Store) {
    a.rows == b.rows && a.summaries == b.summaries && forall key :: LegsAt(a.legs, key) == LegsAt(b.legs, key)
  }

  lemma {:induction false} LegsAtWith(table: map<Key, seq<Leg>>, key: Key, legs: seq<Leg>, other: Key)
    ensures LegsAt(WithLegs(table, key, legs), other) == if other == key then legs else LegsAt(table, other)
  {
  }

  // ---- any run, however far it gets, stays near ----

  lemma {:induction false} UpsertedAt(rows: map<Key, Row>, candidates: seq<Candidate>, k: nat, key: Key)
    requires k <= |candidates| && forall i :: 0 <= i < k ==> candidates[i].key != key
    ensures SameAt(rows, Upserted(rows, candidates, k), key)
  {
    if k > 0 {
      UpsertedAt(rows, candidates, k - 1, key);
    }
  }

  lemma {:induction false} UpsertNear(t: Task, start: Store, r: Run)
    requires Near(t, start, r.store)
    ensures Near(t, start, UpsertStep(t, r).store)
  {
    hide LegsNear, LegsAt, TxOrder;
    forall key | !IsCandidate(t, key) ensures SameAt(start.rows, UpsertStep(t, r).store.rows, key) {
      UpsertedAt(r.store.rows, t.candidates, |t.candidates|, key);
    }
  }

  lemma {:induction false} ReplaceNear(t: Task, start: Store, r: Run, order: seq<Key>, k: nat)
    requires Near(t, start, r.store) && k <= |order| && forall key :: key in order ==> key in GroupKeys(t.legs)
    ensures Near(t, start, ReplaceAll(t, r, order, k).store)
  {
    hide LegsNear, LegsAt, WithLegs, TxOrder, GroupOf, GroupKeys, SameAt;
    if k > 0 {
      ReplaceNear(t, start, r, order, k - 1);
      var before := ReplaceAll(t, r, order, k - 1).store;
      assert order[k - 1] in order;
      forall key | key !in GroupKeys(t.legs)
        ensures LegsAt(WithLegs(before.legs, order[k - 1], GroupOf(t, order[k - 1])), key) == LegsAt(before.legs, key)
      {
        LegsAtWith(before.legs, order[k - 1], GroupOf(t, order[k - 1]), key);
      }
    }
  }

  lemma {:induction false} Again(t: Task, i: nat, a: seq<Leg>, b: seq<Leg>)
    requires Stable(t.verify) && i < |t.candidates| && VerifiedFrom(t, i, a, b)
    ensures t.verify(t.candidates[i], b) == t.verify(t.candidates[i], a)
  {
  }

  /** Verifying a candidate whose legs are near keeps them near. */
  lemma {:induction false} JudgedNear(t: Task, i: nat, from: nat, a: seq<Leg>, b: seq<Leg>)
    requires Stable(t.verify) && DistinctCandidates(t) && from <= i < |t.candidates|
    requires LegsNear(t, t.candidates[i].key, from, a, b)
    ensures t.verify(t.candidates[i], b) == t.verify(t.candidates[i], a)
    ensures t.verify(t.candidates[i], b).Judged? && t.verify(t.candidates[i], b).legs.None? ==> a == b
  {
    hide Stable;
    if a != b {
      var j :| from <= j < |t.candidates| && t.candidates[j].key == t.candidates[i].key && VerifiedFrom(t, j, a, b);
      assert j == i;
      Again(t, i, a, b);
    }
  }

  lemma {:induction false} CandidateNear(t: Task, start: Store, r: Run, i: nat)
    requires Stable(t.verify) && DistinctCandidates(t) && i < |t.candidates| && Near(t, start, r.store)
    ensures Near(t, start, CandidateStep(t, r, t.candidates[i]).store)
  {
    hide Stable, LegsAt, WithLegs, TxOrder, GroupKeys, SameAt, DistinctCandidates, LegsNear, Advance, BlockOf;
    var c := t.candidates[i];
    assert IsCandidate(t, c.key);
    var after := CandidateStep(t, r, c).store;
    CandidateWrites(t, r, c);
    assert forall key :: key != c.key ==> SameAt(r.store.rows, after.rows, key);
    forall key | !IsCandidate(t, key) ensures SameAt(start.rows, after.rows, key) {
      SameThrough(start.rows, r.store.rows, after.rows, key);
    }
    forall key | key !in GroupKeys(t.legs) ensures LegsNear(t, key, 0, LegsAt(start.legs, key), LegsAt(after.legs, key)) {
      if key == c.key {
        JudgedNear(t, i, 0, LegsAt(start.legs, key), LegsAt(r.store.legs, key));
        NearAfter(t, i, LegsAt(start.legs, key), LegsAt(r.store.legs, key), LegsAt(after.legs, key));
      }
    }
  }

  lemma {:induction false} SameThrough<K, V>(a: map<K, V>, b: map<K, V>, c: map<K, V>, k: K)
    requires SameAt(a, b, k) && SameAt(b, c, k)
    ensures SameAt(a, c, k)
  {
  }

  lemma {:induction false} NearAfter(t: Task, i: nat, a: seq<Leg>, b: seq<Leg>, after: seq<Leg>)
    requires i < |t.candidates| && LegsNear(t, t.candidates[i].key, 0, a, b)
    requires t.verify(t.candidates[i], b) == t.verify(t.candidates[i], a)
    requires after == b || (t.verify(t.candidates[i], b).Judged? && t.verify(t.candidates[i], b).legs == Some(after))
    ensures LegsNear(t, t.candidates[i].key, 0, a, after)
  {
    assert after != b ==> VerifiedFrom(t, i, a, after);
  }

  lemma {:induction false} VerifyStepWrites(t: Task, r: Run, c: Candidate)
    ensures VerifyStep(t, r, c).store == r.store
    ensures !VerifyStep(t, r, c).failed ==> !r.failed && Judge(t, r.store, c).Judged?
  {
    hide Judge, Advance, BlockOf;
  }

  lemma {:induction false} WriteStepWrites(t: Task, r: Run, c: Candidate)
    ensures
      var before, after, outcome := r.store, WriteStep(t, r, c).store, Judge(t, r.store, c);
      && after.summaries == before.summaries && after.legs == before.legs
      && (forall key :: key != c.key ==> SameAt(before.rows, after.rows, key))
      && (!WriteStep(t, r, c).failed && outcome.Judged? ==>
            after.rows == (if c.key in before.rows then before.rows[c.key := before.rows[c.key].(verdict := outcome.verdict)] else before.rows))
      && (!WriteStep(t, r, c).failed ==> !r.failed)
  {
    hide LegsAt;
  }

  lemma {:induction false} LegsStepWrites(t: Task, r: Run, c: Candidate)
    ensures
      var before, after, outcome := r.store, LegsStep(t, r, c).store, Judge(t, r.store, c);
      && after.summaries == before.summaries && after.rows == before.rows
      && (forall key :: key != c.key ==> LegsAt(after.legs, key) == LegsAt(before.legs, key))
      && (LegsAt(after.legs, c.key) == LegsAt(before.legs, c.key) || (outcome.Judged? && outcome.legs == Some(LegsAt(after.legs, c.key))))
      && (!LegsStep(t, r, c).failed ==> !r.failed)
      && (!LegsStep(t, r, c).failed && outcome.Judged? ==>
            LegsAt(after.legs, c.key) == if outcome.legs.Some? then outcome.legs.value else LegsAt(before.legs, c.key))
  {
    hide LegsAt, WithLegs;
    var outcome := Judge(t, r.store, c);
    if outcome.Judged? && outcome.legs.Some? {
      forall key ensures LegsAt(WithLegs(r.store.legs, c.key, outcome.legs.value), key) == if key == c.key then outcome.legs.value else LegsAt(r.store.legs, key) {
        LegsAtWith(r.store.legs, c.key, outcome.legs.value, key);
      }
    }
  }

  /** What processing one candidate can write: its own row, its own legs, and nothing else. */
  lemma {:induction false} CandidateWrites(t: Task, r: Run, c: Candidate)
    ensures
      var before, after, outcome := r.store, CandidateStep(t, r, c).store, Judge(t, r.store, c);
      && after.summaries == before.summaries
      && (forall key :: key != c.key ==> SameAt(before.rows, after.rows, key) && LegsAt(after.legs, key) == LegsAt(before.legs, key))
      && (LegsAt(after.legs, c.key) == LegsAt(before.legs, c.key)
          || (outcome.Judged? && outcome.legs == Some(LegsAt(after.legs, c.key))))
      && (!CandidateStep(t, r, c).failed ==>
            && outcome.Judged? && !r.failed
            && after.rows == (if c.key in before.rows then before.rows[c.key := before.rows[c.key].(verdict := outcome.verdict)] else before.rows)
            && LegsAt(after.legs, c.key) == if outcome.legs.Some? then outcome.legs.value else LegsAt(before.legs, c.key))
  {
    hide LegsAt, VerifyStep, WriteStep, LegsStep, SameAt;
    var verified := VerifyStep(t, r, c);
    var written := WriteStep(t, verified, c);
    VerifyStepWrites(t, r, c);
    WriteStepWrites(t, verified, c);
    LegsStepWrites(t, written, c);
  }

  lemma {:induction false} VerifyNear(t: Task, start: Store, r: Run, k: nat)
    requires Stable(t.verify) && DistinctCandidates(t) && k <= |t.candidates| && Near(t, start, r.store)
    ensures Near(t, start, VerifyAll(t, r, k).store)
  {
    hide Near, Stable, CandidateStep, DistinctCandidates;
    if k > 0 {
      VerifyNear(t, start, r, k - 1);
      CandidateNear(t, start, VerifyAll(t, r, k - 1), k - 1);
    }
  }

  lemma {:induction false} AggregateNear(t: Task, start: Store, r: Run, k: nat)
    requires k <= |Txs(t)| && Near(t, start, r.store)
    ensures Near(t, start, AggregateAll(r, Txs(t), k).store)
  {
    hide LegsNear, LegsAt, TxOrder, Summarize, RowsOf, Counted;
    if k > 0 {
      AggregateNear(t, start, r, k - 1);
      assert Txs(t)[k - 1] in Txs(t);
    }
  }

  lemma {:induction false} PrepareKeeps(t: Task, r: Run)
    ensures Prepared(t, r).store == r.store
  {
  }

  lemma {:induction false} NearItself(t: Task, store: Store)
    ensures Near(t, store, store)
  {
  }

  /** However far a run gets, what it leaves is near what it started from. */
  lemma {:induction false} RunNear(t: Task, start: Store, store: Store, order: seq<Key>, budget: nat)
    requires Stable(t.verify) && DistinctCandidates(t) && GroupOrder(t, order) && Near(t, start, store)
    ensures Near(t, start, RunOf(t, store, order, budget).store)
    ensures !HasWork(t) ==> RunOf(t, store, order, budget).store == store
  {
    hide Near, Stable, CandidateStep, AggregateStep, ReplaceStep, UpsertStep, Prepared, DistinctCandidates;
    var prepared := Prepared(t, Start(store, budget));
    PrepareKeeps(t, Start(store, budget));
    if HasWork(t) {
      UpsertNear(t, start, prepared);
      var upserted := UpsertStep(t, prepared);
      ReplaceNear(t, start, upserted, order, |order|);
      var replaced := ReplaceAll(t, upserted, order, |order|);
      VerifyNear(t, start, replaced, |t.candidates|);
      AggregateNear(t, start, VerifyAll(t, replaced, |t.candidates|), |Txs(t)|);
    }
  }

  // ---- two successful runs from near stores move together ----

  /** After the rows agree: legs agree but for candidates from k on, and summaries of other transactions. */
  ghost predicate Lock(t: Task, k: nat, a: Store, b: Store) {
    && a.rows == b.rows
    && (forall key :: LegsNear(t, key, k, LegsAt(a.legs, key), LegsAt(b.legs, key)))
    && (forall tx :: tx !in Txs(t) ==> SameAt(a.summaries, b.summaries, tx))
  }

  lemma {:induction false} UpsertedLast(rows: map<Key, Row>, candidates: seq<Candidate>, k: nat, i: nat)
    requires i < k <= |candidates|
    ensures candidates[i].key in Upserted(rows, candidates, k)
    decreases k
  {
    if i < k - 1 {
      UpsertedLast(rows, candidates, k - 1, i);
    }
  }

  lemma {:induction false} UpsertAgrees(a: map<Key, Row>, b: map<Key, Row>, candidates: seq<Candidate>, k: nat, key: Key)
    requires k <= |candidates| && (SameAt(a, b, key) || exists i :: 0 <= i < k && candidates[i].key == key)
    ensures SameAt(Upserted(a, candidates, k), Upserted(b, candidates, k), key)
  {
    if k > 0 && candidates[k - 1].key != key {
      UpsertAgrees(a, b, candidates, k - 1, key);
    }
  }

  lemma {:induction false} MapsEqual<K, V>(a: map<K, V>, b: map<K, V>)
    requires forall k :: SameAt(a, b, k)
    ensures a == b
  {
    assert forall k :: SameAt(a, b, k) ==> (k in a <==> k in b);
  }

  /** Upserting from near stores gives equal rows, which hold every candidate. */
  lemma {:induction false} UpsertLocks(t: Task, start: Store, store: Store)
    requires Near(t, start, store)
    ensures
      var a, b := Upserted(start.rows, t.candidates, |t.candidates|), Upserted(store.rows, t.candidates, |t.candidates|);
      a == b && forall i :: 0 <= i < |t.candidates| ==> t.candidates[i].key in a
  {
    hide LegsNear, LegsAt, TxOrder, SameAt;
    var a, b := Upserted(start.rows, t.candidates, |t.candidates|), Upserted(store.rows, t.candidates, |t.candidates|);
    forall key ensures SameAt(a, b, key) {
      UpsertAgrees(start.rows, store.rows, t.candidates, |t.candidates|, key);
    }
    MapsEqual(a, b);
    forall i | 0 <= i < |t.candidates| ensures t.candidates[i].key in a {
      UpsertedLast(start.rows, t.candidates, |t.candidates|, i);
    }
  }

  /** Writing the leg groups, in any order: the groups' legs are then the extracted ones. */
  lemma {:induction false} ReplaceWrites(t: Task, r: Run, order: seq<Key>, k: nat, key: Key)
    requires k <= |order| && !ReplaceAll(t, r, order, k).failed
    ensures
      var after := ReplaceAll(t, r, order, k).store;
      && LegsAt(after.legs, key) == (if key in order[..k] then GroupOf(t, key) else LegsAt(r.store.legs, key))
      && after.rows == r.store.rows && after.summaries == r.store.summaries
  {
    hide LegsAt, WithLegs, GroupOf;
    if k > 0 {
      ReplaceWrites(t, r, order, k - 1, key);
      LegsAtWith(ReplaceAll(t, r, order, k - 1).store.legs, order[k - 1], GroupOf(t, order[k - 1]), key);
      assert order[..k] == order[..k - 1] + [order[k - 1]];
    }
  }

  lemma {:induction false} ReplaceLocks(t: Task, start: Store, store: Store, ra: Run, rb: Run, orderA: seq<Key>,
                                        orderB: seq<Key>)
    requires Near(t, start, store) && ra.store.rows == rb.store.rows
    requires ra.store == start.(rows := ra.store.rows) && rb.store == store.(rows := rb.store.rows)
    requires GroupOrder(t, orderA) && GroupOrder(t, orderB)
    requires !ReplaceAll(t, ra, orderA, |orderA|).failed && !ReplaceAll(t, rb, orderB, |orderB|).failed
    ensures Lock(t, 0, ReplaceAll(t, ra, orderA, |orderA|).store, ReplaceAll(t, rb, orderB, |orderB|).store)
    ensures ReplaceAll(t, ra, orderA, |orderA|).store.rows == ra.store.rows
  {
    hide LegsAt, GroupOf, GroupKeys, TxOrder, LegsNear, ReplaceAll, SameAt;
    var a, b := ReplaceAll(t, ra, orderA, |orderA|).store, ReplaceAll(t, rb, orderB, |orderB|).store;
    assert orderA[..|orderA|] == orderA && orderB[..|orderB|] == orderB;
    forall key ensures LegsNear(t, key, 0, LegsAt(a.legs, key), LegsAt(b.legs, key)) && a.rows == b.rows == ra.store.rows
      && a.summaries == start.summaries && b.summaries == store.summaries
    {
      ReplaceWrites(t, ra, orderA, |orderA|, key);
      ReplaceWrites(t, rb, orderB, |orderB|, key);
      EqualIsNear(t, key, 0, GroupOf(t, key));
    }
    assert a.rows == b.rows == ra.store.rows && a.summaries == start.summaries && b.summaries == store.summaries by {
      ReplaceWrites(t, ra, orderA, |orderA|, Key("", 0));
      ReplaceWrites(t, rb, orderB, |orderB|, Key("", 0));
    }
  }

  lemma {:induction false} EqualIsNear(t: Task, key: Key, from: nat, legs: seq<Leg>)
    ensures LegsNear(t, key, from, legs, legs)
  {
  }

  lemma {:induction false} LegsNearNext(t: Task, k: nat, key: Key, a: seq<Leg>, b: seq<Leg>)
    requires k < |t.candidates| && LegsNear(t, key, k, a, b) && key != t.candidates[k].key
    ensures LegsNear(t, key, k + 1, a, b)
  {
    if a != b {
      var i :| k <= i < |t.candidates| && t.candidates[i].key == key && VerifiedFrom(t, i, a, b);
      assert i != k;
    }
  }

  lemma {:induction false} CandidateLocks(t: Task, k: nat, ra: Run, rb: Run)
    requires Stable(t.verify) && DistinctCandidates(t) && k < |t.candidates| && Lock(t, k, ra.store, rb.store)
    requires !CandidateStep(t, ra, t.candidates[k]).failed && !CandidateStep(t, rb, t.candidates[k]).failed
    ensures Lock(t, k + 1, CandidateStep(t, ra, t.candidates[k]).store, CandidateStep(t, rb, t.candidates[k]).store)
  {
    hide Stable, LegsAt, TxOrder, SameAt, DistinctCandidates, LegsNear, CandidateStep;
    var c := t.candidates[k];
    var a, b := CandidateStep(t, ra, c).store, CandidateStep(t, rb, c).store;
    CandidateWrites(t, ra, c);
    CandidateWrites(t, rb, c);
    JudgedNear(t, k, k, LegsAt(ra.store.legs, c.key), LegsAt(rb.store.legs, c.key));
    forall key ensures LegsNear(t, key, k + 1, LegsAt(a.legs, key), LegsAt(b.legs, key)) {
      if key == c.key {
        EqualIsNear(t, key, k + 1, LegsAt(a.legs, key));
      } else {
        LegsNearNext(t, k, key, LegsAt(ra.store.legs, key), LegsAt(rb.store.legs, key));
      }
    }
  }

  lemma {:induction false} VerifyLocks(t: Task, ra: Run, rb: Run, k: nat)
    requires Stable(t.verify) && DistinctCandidates(t) && k <= |t.candidates| && Lock(t, 0, ra.store, rb.store)
    requires !VerifyAll(t, ra, k).failed && !VerifyAll(t, rb, k).failed
    ensures Lock(t, k, VerifyAll(t, ra, k).store, VerifyAll(t, rb, k).store)
    ensures forall key :: key in ra.store.rows ==> key in VerifyAll(t, ra, k).store.rows
  {
    hide Stable, Lock, CandidateStep, DistinctCandidates;
    if k > 0 {
      var c := t.candidates[k - 1];
      CandidateWrites(t, VerifyAll(t, ra, k - 1), c);
      CandidateWrites(t, VerifyAll(t, rb, k - 1), c);
      assert !VerifyAll(t, ra, k - 1).failed && !VerifyAll(t, rb, k - 1).failed;
      VerifyLocks(t, ra, rb, k - 1);
      CandidateLocks(t, k - 1, VerifyAll(t, ra, k - 1), VerifyAll(t, rb, k - 1));
    }
  }

  lemma {:induction false} AggregateStores(r: Run, tx: string)
    ensures !AggregateStep(r, tx).failed ==> !r.failed
    ensures
      var summary := Summarize(tx, RowsOf(r.store.rows, tx));
      !AggregateStep(r, tx).failed && summary.Some? ==> AggregateStep(r, tx).store == r.store.(summaries := r.store.summaries[tx := summary.value])
  {
    hide RowsOf, Summarize, Counted;
  }

  lemma {:induction false} AggregateLocks(t: Task, ra: Run, rb: Run, k: nat)
    requires Lock(t, |t.candidates|, ra.store, rb.store) && k <= |Txs(t)|
    requires forall i :: 0 <= i < |t.candidates| ==> t.candidates[i].key in ra.store.rows
    requires !AggregateAll(ra, Txs(t), k).failed && !AggregateAll(rb, Txs(t), k).failed
    ensures
      var a, b := AggregateAll(ra, Txs(t), k).store, AggregateAll(rb, Txs(t), k).store;
      && a.rows == b.rows == ra.store.rows && a.legs == ra.store.legs && b.legs == rb.store.legs
      && (forall tx :: tx !in Txs(t) || tx in Txs(t)[..k] ==> SameAt(a.summaries, b.summaries, tx))
  {
    hide TxOrder, Txs, LegsNear, LegsAt, RowsOf, Summarize, AggregateStep;
    if k > 0 {
      var tx := Txs(t)[k - 1];
      AggregateStores(AggregateAll(ra, Txs(t), k - 1), tx);
      AggregateStores(AggregateAll(rb, Txs(t), k - 1), tx);
      AggregateLocks(t, ra, rb, k - 1);
      assert Txs(t)[..k] == Txs(t)[..k - 1] + [tx];
      CandidateRows(t, ra.store.rows, tx);
    }
  }

  lemma {:induction false} CandidateRows(t: Task, rows: map<Key, Row>, tx: string)
    requires tx in Txs(t) && forall i :: 0 <= i < |t.candidates| ==> t.candidates[i].key in rows
    ensures Summarize(tx, RowsOf(rows, tx)).Some?
  {
    var i :| 0 <= i < |t.candidates| && t.candidates[i].key.tx == tx;
    assert t.candidates[i].key in rows;
  }

  lemma {:induction false} LockIsSame(t: Task, a: Store, b: Store)
    requires a.rows == b.rows && (forall key :: LegsNear(t, key, |t.candidates|, LegsAt(a.legs, key), LegsAt(b.legs, key)))
    requires forall tx :: tx !in Txs(t) || tx in Txs(t)[..|Txs(t)|] ==> SameAt(a.summaries, b.summaries, tx)
    ensures SameStore(a, b)
  {
    hide TxOrder, LegsAt;
    assert Txs(t)[..|Txs(t)|] == Txs(t);
    assert forall tx :: SameAt(a.summaries, b.summaries, tx);
    MapsEqual(a.summaries, b.summaries);
  }

  /** A successful run keeps succeeding backwards: each of its phases succeeded. */
  lemma {:induction false} PhasesSucceed(t: Task, r: Run, order: seq<Key>)
    requires HasWork(t) && !Body(t, r, order).failed
    ensures
      var prepared := Prepared(t, r);
      var upserted := UpsertStep(t, prepared);
      var replaced := ReplaceAll(t, upserted, order, |order|);
      && !prepared.failed && !upserted.failed && !replaced.failed && !VerifyAll(t, replaced, |t.candidates|).failed
      && upserted.store == r.store.(rows := Upserted(r.store.rows, t.candidates, |t.candidates|))
  {
    hide Prepared, Upserted, CandidateStep, ReplaceStep, AggregateStep;
    PrepareKeeps(t, r);
    var upserted := UpsertStep(t, Prepared(t, r));
    var replaced := ReplaceAll(t, upserted, order, |order|);
    var verified := VerifyAll(t, replaced, |t.candidates|);
    if upserted.failed {
      FailedReplace(t, upserted, order, |order|);
    }
    if replaced.failed {
      FailedVerify(t, replaced, |t.candidates|);
    }
    if verified.failed {
      FailedAggregate(verified, Txs(t), |Txs(t)|);
    }
  }

  /** Two successful runs from near stores leave the same store, whatever the order of leg groups. */
  lemma {:induction false} NearRunsAgree(t: Task, start: Store, store: Store, orderA: seq<Key>, budgetA: nat,
                                         orderB: seq<Key>, budgetB: nat)
    requires Stable(t.verify) && DistinctCandidates(t) && HasWork(t) && Near(t, start, store)
    requires GroupOrder(t, orderA) && GroupOrder(t, orderB)
    requires !RunOf(t, start, orderA, budgetA).failed && !RunOf(t, store, orderB, budgetB).failed
    ensures SameStore(RunOf(t, start, orderA, budgetA).store, RunOf(t, store, orderB, budgetB).store)
  {
    var sa, sb := Start(start, budgetA), Start(store, budgetB);
    PhasesSucceed(t, sa, orderA);
    PhasesSucceed(t, sb, orderB);
    var ua, ub := UpsertStep(t, Prepared(t, sa)), UpsertStep(t, Prepared(t, sb));
    var ra, rb := ReplaceAll(t, ua, orderA, |orderA|), ReplaceAll(t, ub, orderB, |orderB|);
    var va, vb := VerifyAll(t, ra, |t.candidates|), VerifyAll(t, rb, |t.candidates|);
    hide Stable, Near, DistinctCandidates, Prepared, UpsertStep, ReplaceAll, VerifyAll, AggregateAll, TxOrder,
         LegsNear, LegsAt, GroupOrder, SameAt;
    UpsertLocks(t, start, store);
    ReplaceLocks(t, start, store, ua, ub, orderA, orderB);
    VerifyLocks(t, ra, rb, |t.candidates|);
    AggregateLocks(t, va, vb, |Txs(t)|);
    LockIsSame(t, AggregateAll(va, Txs(t), |Txs(t)|).store, AggregateAll(vb, Txs(t), |Txs(t)|).store);
  }

  // ---- what a successful run leaves ----

  /** The legs a candidate is verified with: those extracted, or else those stored before. */
  function LegsToVerify(t: Task, store: Store, key: Key): seq<Leg> {
    if key in GroupKeys(t.legs) then GroupOf(t, key) else LegsAt(store.legs, key)
  }

  ghost predicate Settled(t: Task, start: Store, store: Store, i: nat)
    requires i < |t.candidates|
  {
    var c := t.candidates[i];
    var legs := LegsToVerify(t, start, c.key);
    var outcome := t.verify(c, legs);
    && outcome.Judged? && c.key in store.rows && store.rows[c.key] == Row(c, outcome.verdict)
    && LegsAt(store.legs, c.key) == if outcome.legs.Some? then outcome.legs.value else legs
  }

  lemma {:induction false} VerifySettles(t: Task, start: Store, r: Run, k: nat, i: nat)
    requires DistinctCandidates(t) && k <= |t.candidates| && i < |t.candidates| && !VerifyAll(t, r, k).failed
    requires LegsAt(r.store.legs, t.candidates[i].key) == LegsToVerify(t, start, t.candidates[i].key)
    requires t.candidates[i].key in r.store.rows && r.store.rows[t.candidates[i].key].candidate == t.candidates[i]
    ensures
      var store, c := VerifyAll(t, r, k).store, t.candidates[i];
      && c.key in store.rows && store.rows[c.key].candidate == c
      && if i < k then Settled(t, start, store, i) else LegsAt(store.legs, c.key) == LegsToVerify(t, start, c.key)
  {
    hide CandidateStep, LegsAt, GroupOf, LegsToVerify;
    if k > 0 {
      CandidateWrites(t, VerifyAll(t, r, k - 1), t.candidates[k - 1]);
      VerifySettles(t, start, r, k - 1, i);
    }
  }

  lemma {:induction false} AggregateWrites(r: Run, txs: seq<string>, k: nat)
    requires k <= |txs|
    ensures AggregateAll(r, txs, k).store.rows == r.store.rows && AggregateAll(r, txs, k).store.legs == r.store.legs
  {
    hide Summarize, RowsOf, Counted;
    if k > 0 {
      AggregateWrites(r, txs, k - 1);
    }
  }

  lemma {:induction false} UpsertedIs(rows: map<Key, Row>, candidates: seq<Candidate>, k: nat, i: nat)
    requires i < k <= |candidates| && forall a, b :: 0 <= a < b < |candidates| ==> candidates[a].key != candidates[b].key
    ensures candidates[i].key in Upserted(rows, candidates, k)
    ensures Upserted(rows, candidates, k)[candidates[i].key] == Row(candidates[i], UNVERIFIED)
    decreases k
  {
    if i < k - 1 {
      UpsertedIs(rows, candidates, k - 1, i);
    }
  }

  /** A successful run leaves every candidate with its verdict on the extracted legs, and with the
      legs the verifier returned. */
  lemma {:induction false} RunSettles(t: Task, start: Store, order: seq<Key>, budget: nat, i: nat)
    requires DistinctCandidates(t) && GroupOrder(t, order) && HasWork(t) && i < |t.candidates|
    requires !RunOf(t, start, order, budget).failed
    ensures Settled(t, start, RunOf(t, start, order, budget).store, i)
  {
    var s := Start(start, budget);
    PhasesSucceed(t, s, order);
    var upserted := UpsertStep(t, Prepared(t, s));
    var replaced := ReplaceAll(t, upserted, order, |order|);
    var verified := VerifyAll(t, replaced, |t.candidates|);
    hide Prepared, UpsertStep, ReplaceAll, VerifyAll, AggregateAll, TxOrder, LegsAt, GroupOf, Upserted, Settled;
    UpsertedIs(start.rows, t.candidates, |t.candidates|, i);
    ReplaceWrites(t, upserted, order, |order|, t.candidates[i].key);
    assert order[..|order|] == order;
    VerifySettles(t, start, replaced, |t.candidates|, i);
    AggregateWrites(verified, Txs(t), |Txs(t)|);
    SettledSame(t, start, verified.store, RunOf(t, start, order, budget).store, i);
  }

  lemma {:induction false} SettledSame(t: Task, start: Store, a: Store, b: Store, i: nat)
    requires i < |t.candidates| && Settled(t, start, a, i) && a.rows == b.rows && a.legs == b.legs
    ensures Settled(t, start, b, i)
  {
  }

  // ---- convergence ----

  /** One try at a run: the order its leg groups came in and the call it was cut off at. */
  datatype Try = Try(order: seq<Key>, budget: nat)

  function After(t: Task, store: Store, tries: seq<Try>): Store
    decreases tries
  {
    if tries == [] then store else RunOf(t, After(t, store, tries[..|tries| - 1]), tries[|tries| - 1].order, tries[|tries| - 1].budget).store
  }

  lemma {:induction false} TriesNear(t: Task, start: Store, tries: seq<Try>)
    requires Stable(t.verify) && DistinctCandidates(t) && forall a :: a in tries ==> GroupOrder(t, a.order)
    ensures Near(t, start, After(t, start, tries)) && (!HasWork(t) ==> After(t, start, tries) == start)
    decreases tries
  {
    hide Near, Stable, DistinctCandidates, RunOf, GroupOrder;
    if tries == [] {
      NearItself(t, start);
    } else {
      var last := tries[|tries| - 1];
      TriesNear(t, start, tries[..|tries| - 1]);
      RunNear(t, start, After(t, start, tries[..|tries| - 1]), last.order, last.budget);
    }
  }

  /** Convergence: any number of runs, each cut off anywhere or not, followed by one that succeeds,
      leave the same interactions, legs and summaries as a single clean run. With one complete try
      this says that running twice equals running once; with none, that the order in which leg
      groups are written does not matter. */
  lemma {:induction false} RunsConverge(t: Task, start: Store, tries: seq<Try>, last: Try, clean: Try)
    requires Stable(t.verify) && DistinctCandidates(t)
    requires (forall a :: a in tries ==> GroupOrder(t, a.order)) && GroupOrder(t, last.order) && GroupOrder(t, clean.order)
    requires !RunOf(t, start, clean.order, clean.budget).failed
    requires !RunOf(t, After(t, start, tries), last.order, last.budget).failed
    ensures SameStore(RunOf(t, start, clean.order, clean.budget).store, RunOf(t, After(t, start, tries), last.order, last.budget).store)
  {
    hide Near, Stable, DistinctCandidates, GroupOrder, RunOf, LegsAt;
    TriesNear(t, start, tries);
    if HasWork(t) {
      NearRunsAgree(t, start, After(t, start, tries), clean.order, clean.budget, last.order, last.budget);
    } else {
      NearItself(t, start);
      RunNear(t, start, start, clean.order, clean.budget);
      RunNear(t, start, start, last.order, last.budget);
    }
  }

  /** The three verifiers are stable, trace-backed or not, so runs that use them converge. */
  lemma {:induction false} VerifiersAreStable(kind: Verifiers.Kind, chain: Chain)
    ensures Stable((c: Candidate, legs: seq<Leg>) => TraceVerifiers.TraceOutcome(kind, chain, c, legs))
    ensures Stable((c: Candidate, legs: seq<Leg>) => TraceVerifiers.BaseOutcome(kind, chain, c, legs))
  {
    hide TraceVerifiers.TraceOutcome, TraceVerifiers.BaseOutcome;
    var traced := (c: Candidate, legs: seq<Leg>) => TraceVerifiers.TraceOutcome(kind, chain, c, legs);
    forall c, legs | traced(c, legs).Judged? && traced(c, legs).legs.Some?
      ensures traced(c, traced(c, legs).legs.value) == traced(c, legs)
    {
      TraceVerifiers.VerifyAgain(kind, chain, c, legs);
    }
    var base := (c: Candidate, legs: seq<Leg>) => TraceVerifiers.BaseOutcome(kind, chain, c, legs);
    forall c, legs | base(c, legs).Judged? && base(c, legs).legs.Some?
      ensures base(c, base(c, legs).legs.value) == base(c, legs)
    {
      TraceVerifiers.BaseAgain(kind, chain, c, legs);
    }
  }
}
