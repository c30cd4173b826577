/** One protocol run over a block range (RunOnce in scanner/orchestrator/protocol_runner.go). Every
    call into a store, the fetcher or the verifier may fail; `budget` says how many calls still
    succeed, so a run with a small budget is a run cut off at that call. */
module ProtocolRunner {
  import opened Text
  import opened ScanTypes
  import opened Aggregator

  /** The tables a run writes. Absent legs and an empty list of legs are the same. */
  datatype Store = Store(rows: map<Key, Row>, legs: map<Key, seq<Leg>>, summaries: map<string, Summary>)

  /** The fixed data of a run: how many transactions the range holds, what the extractor makes of
      them, and how the verifier judges a candidate given its stored legs. */
  datatype Task = Task(from: nat, to: nat, skipTxFetch: bool, observed: nat, extracts: bool, candidates: seq<Candidate>,
                       legs: seq<Leg>, verify: (Candidate, seq<Leg>) -> Outcome)

  datatype Stats = Stats(currentBlock: nat, observed: nat, candidates: nat, verified: nat, strict: nat,
                         findings: nat, verifiedFindings: nat, strictFindings: nat)

  datatype Event = Started | Progress(stats: Stats) | Finding(summary: Summary) | Completed(stats: Stats) | Failed(currentBlock: nat)

  datatype Run = Run(store: Store, stats: Stats, events: seq<Event>, progressEmitted: bool, lastProgress: nat, budget: nat, failed: bool)

  // ---- pieces ----

  /** parseUint64 of a block number: numbers that do not fit count as zero. */
  function BlockOf(block: nat): nat {
    if block < UINT64 then block else 0
  }

  function Advance(stats: Stats, block: nat): Stats {
    if block > stats.currentBlock then stats.(currentBlock := block) else stats
  }

  function LegsAt(table: map<Key, seq<Leg>>, key: Key): seq<Leg> {
    if key in table then table[key] else []
  }

  function WithLegs(table: map<Key, seq<Leg>>, key: Key, legs: seq<Leg>): map<Key, seq<Leg>> {
    if legs == [] then table - {key} else table[key := legs]
  }

  function LegsOf(legs: seq<Leg>, key: Key, k: nat): seq<Leg>
    requires k <= |legs|
  {
    if k == 0 then [] else LegsOf(legs, key, k - 1) + if legs[k - 1].key == key then [legs[k - 1]] else []
  }

  function GroupOf(t: Task, key: Key): seq<Leg> {
    LegsOf(t.legs, key, |t.legs|)
  }

  function GroupKeys(legs: seq<Leg>): set<Key> {
    set leg | leg in legs :: leg.key
  }

  /** An order in which the groups of legs may be written: map iteration gives any. */
  ghost predicate GroupOrder(t: Task, order: seq<Key>) {
    forall key :: key in order <==> key in GroupKeys(t.legs)
  }

  const UNVERIFIED := Verdict(false, false, false, false, false, false, None)

  function Upserted(rows: map<Key, Row>, candidates: seq<Candidate>, k: nat): map<Key, Row>
    requires k <= |candidates|
  {
    if k == 0 then rows else
      Upserted(rows, candidates, k - 1)[candidates[k - 1].key := Row(candidates[k - 1], UNVERIFIED)]
  }

  /** The transactions of the candidates, each once, in the order first seen. */
  function TxOrder(candidates: seq<Candidate>, k: nat): (order: seq<string>)
    requires k <= |candidates|
    ensures forall tx :: tx in order <==> exists i :: 0 <= i < k && candidates[i].key.tx == tx
  {
    if k == 0 then [] else
      var before, tx := TxOrder(candidates, k - 1), candidates[k - 1].key.tx;
      if tx in before then before else before + [tx]
  }

  // ---- the run as a function ----

  /** A call that does nothing but succeed or fail. */
  function Call(r: Run): Run {
    if r.failed then r else if r.budget == 0 then r.(failed := true) else r.(budget := r.budget - 1)
  }

  function FetchStep(t: Task, r: Run): Run {
    if t.skipTxFetch then r else Call(r)
  }

  function ListStep(t: Task, r: Run): Run {
    var c := Call(r);
    if c.failed then c else c.(stats := c.stats.(observed := t.observed))
  }

  function ExtractStep(t: Task, r: Run): Run {
    var c := Call(r);
    if c.failed then c else if !t.extracts then c.(failed := true) else c.(stats := c.stats.(candidates := |t.candidates|))
  }

  function UpsertStep(t: Task, r: Run): Run {
    var c := Call(r);
    if c.failed then c else c.(store := c.store.(rows := Upserted(c.store.rows, t.candidates, |t.candidates|)))
  }

  function ReplaceStep(t: Task, r: Run, key: Key): Run {
    var c := Call(r);
    if c.failed then c else c.(store := c.store.(legs := WithLegs(c.store.legs, key, GroupOf(t, key))))
  }

  function Judge(t: Task, store: Store, c: Candidate): Outcome {
    t.verify(c, LegsAt(store.legs, c.key))
  }

  function VerifyStep(t: Task, r: Run, c: Candidate): Run {
    if r.failed then r else
      var called := Call(r.(stats := Advance(r.stats, BlockOf(c.block))));
      if called.failed then called else if Judge(t, r.store, c).VerifyError? then called.(failed := true) else called
  }

  function WriteStep(t: Task, r: Run, c: Candidate): Run {
    var called, outcome := Call(r), Judge(t, r.store, c);
    if called.failed || outcome.VerifyError? || c.key !in r.store.rows then called
    else called.(store := r.store.(rows := r.store.rows[c.key := r.store.rows[c.key].(verdict := outcome.verdict)]))
  }

  /** Legs are written only if the verifier returned some; then the run counts the verdict. */
  function LegsStep(t: Task, r: Run, c: Candidate): Run {
    var outcome := Judge(t, r.store, c);
    if r.failed || outcome.VerifyError? then r else
      var called := if outcome.legs.Some? then Call(r) else r;
      if called.failed then called else
        called.(store := if outcome.legs.Some? then r.store.(legs := WithLegs(r.store.legs, c.key, outcome.legs.value)) else r.store,
                stats := r.stats.(verified := r.stats.verified + if outcome.verdict.verified then 1 else 0,
                                  strict := r.stats.strict + if outcome.verdict.strict then 1 else 0))
  }

  function CandidateStep(t: Task, r: Run, c: Candidate): Run {
    LegsStep(t, WriteStep(t, VerifyStep(t, r, c), c), c)
  }

  function Counted(stats: Stats, s: Summary): Stats {
    Advance(stats.(findings := stats.findings + 1,
                   verifiedFindings := stats.verifiedFindings + if s.verified then 1 else 0,
                   strictFindings := stats.strictFindings + if s.strict then 1 else 0), BlockOf(s.block))
  }

  function AggregateStep(r: Run, tx: string): Run {
    var called, summary := Call(r), Summarize(tx, RowsOf(r.store.rows, tx));
    if called.failed || summary.None? then called else
      var stats := Counted(r.stats, summary.value);
      called.(store := r.store.(summaries := r.store.summaries[tx := summary.value]), stats := stats,
              events := r.events + [Finding(summary.value), Progress(stats)], progressEmitted := true, lastProgress := stats.currentBlock)
  }

  function ReplaceAll(t: Task, r: Run, order: seq<Key>, k: nat): Run
    requires k <= |order|
  {
    if k == 0 then r else ReplaceStep(t, ReplaceAll(t, r, order, k - 1), order[k - 1])
  }

  function VerifyAll(t: Task, r: Run, k: nat): Run
    requires k <= |t.candidates|
  {
    if k == 0 then r else CandidateStep(t, VerifyAll(t, r, k - 1), t.candidates[k - 1])
  }

  function AggregateAll(r: Run, txs: seq<string>, k: nat): Run
    requires k <= |txs|
  {
    if k == 0 then r else AggregateStep(AggregateAll(r, txs, k - 1), txs[k - 1])
  }

  function Prepared(t: Task, r: Run): Run {
    var listed := ListStep(t, FetchStep(t, r));
    if listed.failed || t.observed == 0 then listed else ExtractStep(t, listed)
  }

  /** There is work only if transactions were observed and candidates extracted. */
  predicate HasWork(t: Task) {
    t.observed > 0 && t.extracts && t.candidates != []
  }

  function Body(t: Task, r: Run, order: seq<Key>): Run {
    var prepared := Prepared(t, r);
    if prepared.failed || !HasWork(t) then prepared else
      var txs := TxOrder(t.candidates, |t.candidates|);
      AggregateAll(VerifyAll(t, ReplaceAll(t, UpsertStep(t, prepared), order, |order|), |t.candidates|), txs, |txs|)
  }

  /** The deferred end of a run. */
  function Finish(t: Task, r: Run): Run {
    if r.failed then r.(events := r.events + [Failed(r.stats.currentBlock)]) else
      var stats := if r.stats.currentBlock < t.to then r.stats.(currentBlock := t.to) else r.stats;
      r.(stats := stats,
         events := r.events + (if !r.progressEmitted || r.lastProgress < t.to then [Progress(stats)] else []) + [Completed(stats)])
  }

  function Start(store: Store, budget: nat): Run {
    Run(store, Stats(0, 0, 0, 0, 0, 0, 0, 0), [Started], false, 0, budget, false)
  }

  function RunOf(t: Task, store: Store, order: seq<Key>, budget: nat): Run {
    Finish(t, Body(t, Start(store, budget), order))
  }

  // ---- a failed run does nothing more ----

  lemma {:induction false} FailedReplace(t: Task, r: Run, order: seq<Key>, k: nat)
    requires k <= |order| && r.failed
    ensures ReplaceAll(t, r, order, k) == r
  {
    if k > 0 {
      FailedReplace(t, r, order, k - 1);
    }
  }

  lemma {:induction false} FailedCandidate(t: Task, r: Run, c: Candidate)
    requires r.failed
    ensures CandidateStep(t, r, c) == r
  {
    hide Judge, WithLegs, BlockOf;
  }

  lemma {:induction false} FailedVerify(t: Task, r: Run, k: nat)
    requires k <= |t.candidates| && r.failed
    ensures VerifyAll(t, r, k) == r
  {
    hide CandidateStep;
    if k > 0 {
      FailedCandidate(t, r, t.candidates[k - 1]);
      FailedVerify(t, r, k - 1);
    }
  }

  lemma {:induction false} FailedAggregate(r: Run, txs: seq<string>, k: nat)
    requires k <= |txs| && r.failed
    ensures AggregateAll(r, txs, k) == r
  {
    if k > 0 {
      FailedAggregate(r, txs, k - 1);
    }
  }

  // ---- the run as the source executes it ----

  class Runner {
    const t: Task
    var store: Store
    var stats: Stats
    var events: seq<Event>
    var progressEmitted: bool
    var lastProgress: nat
    var budget: nat

    constructor (t: Task, store: Store, budget: nat)
      ensures this.t == t && View(false) == Start(store, budget).(events := [])
    {
      this.t := t;
      this.store := store;
      this.budget := budget;
      stats, events, progressEmitted, lastProgress := Stats(0, 0, 0, 0, 0, 0, 0, 0), [], false, 0;
    }

    ghost function View(failed: bool): Run
      reads this
    {
      Run(store, stats, events, progressEmitted, lastProgress, budget, failed)
    }

    method Try() returns (failed: bool)
      modifies this`budget
      ensures View(failed) == Call(old(View(false)))
    {
      failed := budget == 0;
      if !failed {
        budget := budget - 1;
      }
    }

    method Prepare() returns (failed: bool)
      modifies this
      ensures View(failed) == Prepared(t, old(View(false)))
    {
      failed := false;
      if !t.skipTxFetch {
        failed := Try();
        if failed {
          return;
        }
      }
      failed := Try();
      if failed {
        return;
      }
      stats := stats.(observed := t.observed);
      if t.observed == 0 {
        return;
      }
      failed := Try();
      if failed {
        return;
      }
      if !t.extracts {
        return true;
      }
      stats := stats.(candidates := |t.candidates|);
    }

    method ReplaceLegs(key: Key, legs: seq<Leg>) returns (failed: bool)
      modifies this`store, this`budget
      ensures View(failed) == (var c := Call(old(View(false))); if c.failed then c else c.(store := c.store.(legs := WithLegs(old(store).legs, key, legs))))
    {
      failed := Try();
      if !failed {
        store := store.(legs := WithLegs(store.legs, key, legs));
      }
    }

    method Verify(c: Candidate) returns (failed: bool, outcome: Outcome)
      modifies this`stats, this`budget
      ensures View(failed) == VerifyStep(t, old(View(false)), c)
      ensures outcome == Judge(t, store, c) && (!failed ==> !outcome.VerifyError?)
    {
      hide LegsAt, BlockOf;
      if BlockOf(c.block) > stats.currentBlock {
        stats := stats.(currentBlock := BlockOf(c.block));
      }
      outcome := t.verify(c, LegsAt(store.legs, c.key));
      failed := Try();
      if failed {
        return;
      }
      failed := outcome.VerifyError?;
    }

    method UpdateVerificationResult(c: Candidate, outcome: Outcome) returns (failed: bool)
      requires outcome == Judge(t, store, c) && !outcome.VerifyError?
      modifies this`store, this`budget
      ensures View(failed) == WriteStep(t, old(View(false)), c) && store.legs == old(store).legs
    {
      hide LegsAt;
      failed := Try();
      if failed {
        return;
      }
      if c.key in store.rows {
        store := store.(rows := store.rows[c.key := store.rows[c.key].(verdict := outcome.verdict)]);
      }
    }

    method WriteLegsAndCount(c: Candidate, outcome: Outcome) returns (failed: bool)
      requires outcome == Judge(t, store, c) && !outcome.VerifyError?
      modifies this
      ensures View(failed) == LegsStep(t, old(View(false)), c)
    {
      hide LegsAt, WithLegs;
      failed := false;
      if outcome.legs.Some? {
        failed := ReplaceLegs(c.key, outcome.legs.value);
        if failed {
          return;
        }
      }
      if outcome.verdict.verified {
        stats := stats.(verified := stats.verified + 1);
      }
      if outcome.verdict.strict {
        stats := stats.(strict := stats.strict + 1);
      }
    }

    method VerifyCandidate(c: Candidate) returns (failed: bool)
      modifies this
      ensures View(failed) == CandidateStep(t, old(View(false)), c)
    {
      var outcome: Outcome;
      failed, outcome := Verify(c);
      if failed {
        return;
      }
      failed := UpdateVerificationResult(c, outcome);
      if failed {
        return;
      }
      failed := WriteLegsAndCount(c, outcome);
    }

    method CountFinding(summary: Summary)
      modifies this`stats
      ensures stats == Counted(old(stats), summary)
    {
      stats := stats.(findings := stats.findings + 1);
      if summary.verified {
        stats := stats.(verifiedFindings := stats.verifiedFindings + 1);
      }
      if summary.strict {
        stats := stats.(strictFindings := stats.strictFindings + 1);
      }
      if BlockOf(summary.block) > stats.currentBlock {
        stats := stats.(currentBlock := BlockOf(summary.block));
      }
    }

    method AggregateTx(tx: string) returns (failed: bool)
      modifies this
      ensures View(failed) == AggregateStep(old(View(false)), tx)
    {
      hide Summarize, RowsOf, Counted;
      failed := Try();
      if failed {
        return;
      }
      var summary := AggregateByTx(tx, RowsOf(store.rows, tx));
      if summary.None? {
        return;
      }
      store := store.(summaries := store.summaries[tx := summary.value]);
      CountFinding(summary.value);
      events := events + [Finding(summary.value)];
      events := events + [Progress(stats)];
      progressEmitted := true;
      lastProgress := stats.currentBlock;
    }

    method Work(order: seq<Key>) returns (failed: bool)
      modifies this
      ensures View(failed) == Body(t, old(View(false)), order)
    {
      hide Prepared, CandidateStep, AggregateStep, GroupOf, Upserted, ReplaceStep, UpsertStep, WithLegs;
      failed := Prepare();
      if failed || !HasWork(t) {
        return;
      }
      ghost var prepared := View(false);
      failed := UpsertInteractions();
      ghost var upserted := View(failed);
      if failed {
        FailedReplace(t, upserted, order, |order|);
        FailedVerify(t, upserted, |t.candidates|);
        FailedAggregate(upserted, TxOrder(t.candidates, |t.candidates|), |TxOrder(t.candidates, |t.candidates|)|);
        return;
      }
      failed := ReplaceGroups(order);
      ghost var replaced := View(failed);
      if failed {
        FailedVerify(t, replaced, |t.candidates|);
        FailedAggregate(replaced, TxOrder(t.candidates, |t.candidates|), |TxOrder(t.candidates, |t.candidates|)|);
        return;
      }
      var txs: seq<string>;
      failed, txs := VerifyCandidates();
      if failed {
        FailedAggregate(View(failed), TxOrder(t.candidates, |t.candidates|), |TxOrder(t.candidates, |t.candidates|)|);
        return;
      }
      failed := AggregateTxs(txs);
    }

    method UpsertInteractions() returns (failed: bool)
      modifies this`store, this`budget
      ensures View(failed) == UpsertStep(t, old(View(false)))
    {
      failed := Try();
      if failed {
        return;
      }
      var rows := store.rows;
      for k := 0 to |t.candidates|
        invariant rows == Upserted(store.rows, t.candidates, k)
      {
        rows := rows[t.candidates[k].key := Row(t.candidates[k], UNVERIFIED)];
      }
      store := store.(rows := rows);
    }

    method ReplaceGroups(order: seq<Key>) returns (failed: bool)
      modifies this`store, this`budget
      ensures View(failed) == ReplaceAll(t, old(View(false)), order, |order|)
    {
      hide WithLegs;
      ghost var start := View(false);
      failed := false;
      for k := 0 to |order|
        invariant View(false) == ReplaceAll(t, start, order, k)
      {
        failed := ReplaceLegs(order[k], GroupOf(t, order[k]));
        if failed {
          ReplaceStays(t, start, order, k + 1);
          return;
        }
      }
    }

    method VerifyCandidates() returns (failed: bool, txs: seq<string>)
      modifies this
      ensures View(failed) == VerifyAll(t, old(View(false)), |t.candidates|)
      ensures !failed ==> txs == TxOrder(t.candidates, |t.candidates|)
    {
      hide CandidateStep;
      ghost var start := View(false);
      var seen: set<string> := {};
      failed, txs := false, [];
      for k := 0 to |t.candidates|
        invariant View(false) == VerifyAll(t, start, k)
        invariant txs == TxOrder(t.candidates, k) && forall tx :: tx in seen <==> tx in txs
      {
        failed := VerifyCandidate(t.candidates[k]);
        if failed {
          VerifyStays(t, start, k + 1);
          return;
        }
        var tx := t.candidates[k].key.tx;
        if tx in seen {
          continue;
        }
        seen := seen + {tx};
        txs := txs + [tx];
      }
    }

    method AggregateTxs(txs: seq<string>) returns (failed: bool)
      modifies this
      ensures View(failed) == AggregateAll(old(View(false)), txs, |txs|)
    {
      hide AggregateStep;
      ghost var start := View(false);
      failed := false;
      for k := 0 to |txs|
        invariant View(false) == AggregateAll(start, txs, k)
      {
        failed := AggregateTx(txs[k]);
        if failed {
          AggregateStays(start, txs, k + 1);
          return;
        }
      }
    }

    method RunOnce(order: seq<Key>) returns (failed: bool)
      requires events == []
      modifies this
      ensures View(failed) == Finish(t, Body(t, old(View(false)).(events := [Started]), order))
    {
      hide Body;
      events := [Started];
      failed := Work(order);
      if failed {
        events := events + [Failed(stats.currentBlock)];
        return;
      }
      var needsFinalProgress := !progressEmitted || lastProgress < t.to;
      if stats.currentBlock < t.to {
        stats := stats.(currentBlock := t.to);
      }
      if needsFinalProgress {
        events := events + [Progress(stats)];
      }
      events := events + [Completed(stats)];
    }
  }

  lemma {:induction false} ReplaceStays(t: Task, r: Run, order: seq<Key>, k: nat)
    requires k <= |order| && ReplaceAll(t, r, order, k).failed
    ensures ReplaceAll(t, r, order, |order|) == ReplaceAll(t, r, order, k)
    decreases |order| - k
  {
    hide WithLegs, GroupOf;
    if k < |order| {
      ReplaceStays(t, r, order, k + 1);
    }
  }

  lemma {:induction false} VerifyStays(t: Task, r: Run, k: nat)
    requires k <= |t.candidates| && VerifyAll(t, r, k).failed
    ensures VerifyAll(t, r, |t.candidates|) == VerifyAll(t, r, k)
    decreases |t.candidates| - k
  {
    if k < |t.candidates| {
      VerifyStays(t, r, k + 1);
    }
  }

  lemma {:induction false} AggregateStays(r: Run, txs: seq<string>, k: nat)
    requires k <= |txs| && AggregateAll(r, txs, k).failed
    ensures AggregateAll(r, txs, |txs|) == AggregateAll(r, txs, k)
    decreases |txs| - k
  {
    if k < |txs| {
      AggregateStays(r, txs, k + 1);
    }
  }
}
