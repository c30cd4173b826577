/** A protocol run neither reads nor writes beyond the transactions of its candidates and legs: on a
    store cut down to those it does the same. */
module RunLocality {
  import opened ScanTypes
  import opened Aggregator
  import opened ProtocolRunner
  import opened RunConvergence

  function RowsIn(rows: map<Key, Row>, txs: set<string>): map<Key, Row> {
    map key | key in rows && key.tx in txs :: rows[key]
  }

  function LegsIn(legs: map<Key, seq<Leg>>, txs: set<string>): map<Key, seq<Leg>> {
    map key | key in legs && key.tx in txs :: legs[key]
  }

  function SummariesIn(summaries: map<string, Summary>, txs: set<string>): map<string, Summary> {
    map tx | tx in summaries && tx in txs :: summaries[tx]
  }

  /** What a store says about some transactions. */
  function Only(s: Store, txs: set<string>): Store {
    Store(RowsIn(s.rows, txs), LegsIn(s.legs, txs), SummariesIn(s.summaries, txs))
  }

  function OnlyRun(r: Run, txs: set<string>): Run {
    r.(store := Only(r.store, txs))
  }

  /** All candidates and legs of a task are about these transactions. */
  ghost predicate IsAbout(t: Task, txs: set<string>) {
    (forall c :: c in t.candidates ==> c.key.tx in txs) && forall leg :: leg in t.legs ==> leg.key.tx in txs
  }

  lemma {:induction false} UpsertedIn(rows: map<Key, Row>, candidates: seq<Candidate>, k: nat, txs: set<string>)
    requires k <= |candidates| && forall c :: c in candidates ==> c.key.tx in txs
    ensures Upserted(RowsIn(rows, txs), candidates, k) == RowsIn(Upserted(rows, candidates, k), txs)
  {
    if k > 0 {
      UpsertedIn(rows, candidates, k - 1, txs);
      assert candidates[k - 1] in candidates;
    }
  }

  lemma {:induction false} WithLegsIn(legs: map<Key, seq<Leg>>, key: Key, group: seq<Leg>, txs: set<string>)
    requires key.tx in txs
    ensures WithLegs(LegsIn(legs, txs), key, group) == LegsIn(WithLegs(legs, key, group), txs)
    ensures LegsAt(LegsIn(legs, txs), key) == LegsAt(legs, key)
  {
  }

  lemma {:induction false} RowsOfIn(rows: map<Key, Row>, tx: string, txs: set<string>)
    requires tx in txs
    ensures RowsOf(RowsIn(rows, txs), tx) == RowsOf(rows, tx)
  {
    assert Ordinals(RowsIn(rows, txs), tx) == Ordinals(rows, tx);
    var ordinals := Ascending(Ordinals(rows, tx));
    assert forall n :: n in ordinals ==> Key(tx, n) in rows;
  }

  lemma {:induction false} ReplaceIn(t: Task, r: Run, order: seq<Key>, k: nat, txs: set<string>)
    requires k <= |order| && forall key :: key in order ==> key.tx in txs
    ensures ReplaceAll(t, OnlyRun(r, txs), order, k) == OnlyRun(ReplaceAll(t, r, order, k), txs)
  {
    hide WithLegs, LegsIn, RowsIn, GroupOf, LegsAt, SummariesIn;
    if k > 0 {
      ReplaceIn(t, r, order, k - 1, txs);
      assert order[k - 1] in order;
      WithLegsIn(ReplaceAll(t, r, order, k - 1).store.legs, order[k - 1], GroupOf(t, order[k - 1]), txs);
    }
  }

  lemma {:induction false} WriteIn(t: Task, r: Run, c: Candidate, txs: set<string>)
    requires c.key.tx in txs
    ensures WriteStep(t, OnlyRun(r, txs), c) == OnlyRun(WriteStep(t, r, c), txs)
  {
    hide WithLegs, LegsIn, LegsAt, SummariesIn;
    WithLegsIn(r.store.legs, c.key, [], txs);
    var outcome := Judge(t, r.store, c);
    if c.key in r.store.rows && outcome.Judged? {
      RowIn(r.store.rows, c.key, r.store.rows[c.key].(verdict := outcome.verdict), txs);
    }
    hide RowsIn;
    assert c.key in RowsIn(r.store.rows, txs) <==> c.key in r.store.rows by { RowKept(r.store.rows, c.key, txs); }
    RowKept(r.store.rows, c.key, txs);
  }

  lemma {:induction false} RowIn(rows: map<Key, Row>, key: Key, row: Row, txs: set<string>)
    requires key.tx in txs
    ensures RowsIn(rows, txs)[key := row] == RowsIn(rows[key := row], txs)
  {
  }

  lemma {:induction false} RowKept(rows: map<Key, Row>, key: Key, txs: set<string>)
    requires key.tx in txs
    ensures key in RowsIn(rows, txs) <==> key in rows
    ensures key in rows ==> RowsIn(rows, txs)[key] == rows[key]
  {
  }

  lemma {:induction false} VerifyStepIn(t: Task, r: Run, c: Candidate, txs: set<string>)
    requires c.key.tx in txs
    ensures VerifyStep(t, OnlyRun(r, txs), c) == OnlyRun(VerifyStep(t, r, c), txs)
  {
    hide WithLegs, LegsIn, LegsAt, SummariesIn, RowsIn, Advance, BlockOf;
    WithLegsIn(r.store.legs, c.key, [], txs);
  }

  lemma {:induction false} LegsStepIn(t: Task, r: Run, c: Candidate, txs: set<string>)
    requires c.key.tx in txs
    ensures LegsStep(t, OnlyRun(r, txs), c) == OnlyRun(LegsStep(t, r, c), txs)
  {
    hide WithLegs, LegsIn, LegsAt, SummariesIn, RowsIn;
    var outcome := Judge(t, r.store, c);
    WithLegsIn(r.store.legs, c.key, if outcome.Judged? && outcome.legs.Some? then outcome.legs.value else [], txs);
  }

  lemma {:induction false} CandidateIn(t: Task, r: Run, c: Candidate, txs: set<string>)
    requires c.key.tx in txs
    ensures CandidateStep(t, OnlyRun(r, txs), c) == OnlyRun(CandidateStep(t, r, c), txs)
  {
    hide OnlyRun, VerifyStep, WriteStep, LegsStep;
    VerifyStepIn(t, r, c, txs);
    WriteIn(t, VerifyStep(t, r, c), c, txs);
    LegsStepIn(t, WriteStep(t, VerifyStep(t, r, c), c), c, txs);
  }

  lemma {:induction false} VerifyIn(t: Task, r: Run, k: nat, txs: set<string>)
    requires IsAbout(t, txs) && k <= |t.candidates|
    ensures VerifyAll(t, OnlyRun(r, txs), k) == OnlyRun(VerifyAll(t, r, k), txs)
  {
    hide CandidateStep, OnlyRun;
    if k > 0 {
      VerifyIn(t, r, k - 1, txs);
      assert t.candidates[k - 1] in t.candidates;
      CandidateIn(t, VerifyAll(t, r, k - 1), t.candidates[k - 1], txs);
    }
  }

  lemma {:induction false} SummaryIn(summaries: map<string, Summary>, tx: string, summary: Summary, txs: set<string>)
    requires tx in txs
    ensures SummariesIn(summaries, txs)[tx := summary] == SummariesIn(summaries[tx := summary], txs)
  {
  }

  lemma {:induction false} AggregateStepIn(r: Run, tx: string, txs: set<string>)
    requires tx in txs
    ensures AggregateStep(OnlyRun(r, txs), tx) == OnlyRun(AggregateStep(r, tx), txs)
  {
    hide RowsIn, LegsIn, RowsOf, Summarize, Counted, SummariesIn;
    RowsOfIn(r.store.rows, tx, txs);
    if Summarize(tx, RowsOf(r.store.rows, tx)).Some? {
      SummaryIn(r.store.summaries, tx, Summarize(tx, RowsOf(r.store.rows, tx)).value, txs);
    }
  }

  lemma {:induction false} AggregateIn(r: Run, list: seq<string>, k: nat, txs: set<string>)
    requires k <= |list| && forall tx :: tx in list ==> tx in txs
    ensures AggregateAll(OnlyRun(r, txs), list, k) == OnlyRun(AggregateAll(r, list, k), txs)
  {
    hide AggregateStep, OnlyRun;
    if k > 0 {
      AggregateIn(r, list, k - 1, txs);
      assert list[k - 1] in list;
      AggregateStepIn(AggregateAll(r, list, k - 1), list[k - 1], txs);
    }
  }

  /** Running on the cut-down store leaves the cut-down result, with the same reports and the same end. */
  lemma {:induction false} RunIsLocal(t: Task, store: Store, order: seq<Key>, budget: nat, txs: set<string>)
    requires IsAbout(t, txs) && GroupOrder(t, order)
    ensures RunOf(t, Only(store, txs), order, budget) == OnlyRun(RunOf(t, store, order, budget), txs)
  {
    hide Prepared, ReplaceAll, VerifyAll, AggregateAll, Upserted, RowsIn, LegsIn, SummariesIn;
    var prepared := Prepared(t, Start(store, budget));
    assert Prepared(t, Start(Only(store, txs), budget)) == OnlyRun(prepared, txs) by {
      PreparedIn(t, store, budget, txs);
    }
    if !prepared.failed && HasWork(t) {
      UpsertedIn(prepared.store.rows, t.candidates, |t.candidates|, txs);
      var upserted := UpsertStep(t, prepared);
      assert UpsertStep(t, OnlyRun(prepared, txs)) == OnlyRun(upserted, txs);
      ReplaceIn(t, upserted, order, |order|, txs);
      var replaced := ReplaceAll(t, upserted, order, |order|);
      VerifyIn(t, replaced, |t.candidates|, txs);
      var list := TxOrder(t.candidates, |t.candidates|);
      AggregateIn(VerifyAll(t, replaced, |t.candidates|), list, |list|, txs);
    }
  }

  lemma {:induction false} PreparedIn(t: Task, store: Store, budget: nat, txs: set<string>)
    ensures Prepared(t, Start(Only(store, txs), budget)) == OnlyRun(Prepared(t, Start(store, budget)), txs)
  {
    hide Only;
  }
}
