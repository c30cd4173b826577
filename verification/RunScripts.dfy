/** The events of a protocol run as an automaton reads them, one by one: what an observer can rely on
    after any prefix of them. */
module RunScripts {
  import opened ScanTypes
  import R = ProtocolRunner
  import opened RunConvergence
  import opened RunEvents

  datatype Phase = Before | Idle | Telling | Last | Ended | Rejected

  datatype Counts = Counts(candidates: nat, verified: nat, strict: nat)

  /** After some events: where the run is, the counts last reported, and the findings told so far. */
  datatype Reading = Reading(phase: Phase, counts: Counts, findings: nat)

  function CountsOf(s: R.Stats): Counts {
    Counts(s.findings, s.verifiedFindings, s.strictFindings)
  }

  predicate AtMost(a: Counts, b: Counts) {
    a.candidates <= b.candidates && a.verified <= b.verified && a.strict <= b.strict
  }

  predicate Ordered(c: Counts) {
    c.strict <= c.verified <= c.candidates
  }

  /** New counts are as many as the findings told, in order, and no less than before. */
  predicate Fits(r: Reading, c: Counts) {
    c.candidates == r.findings && Ordered(c) && AtMost(r.counts, c)
  }

  function Read(r: Reading, e: R.Event): Reading {
    match e
    case Started => if r.phase == Before then r.(phase := Idle) else r.(phase := Rejected)
    case Finding(_) => if r.phase == Idle then r.(phase := Telling, findings := r.findings + 1) else r.(phase := Rejected)
    case Progress(s) =>
      if !Fits(r, CountsOf(s)) then r.(phase := Rejected)
      else if r.phase == Telling then r.(phase := Idle, counts := CountsOf(s))
      else if r.phase == Idle then r.(phase := Last, counts := CountsOf(s))
      else r.(phase := Rejected)
    case Completed(s) =>
      if (r.phase == Idle || r.phase == Last) && Fits(r, CountsOf(s)) then r.(phase := Ended, counts := CountsOf(s)) else r.(phase := Rejected)
    case Failed(_) => if r.phase == Idle then r.(phase := Ended) else r.(phase := Rejected)
  }

  function ReadAll(script: seq<R.Event>, k: nat): Reading
    requires k <= |script|
  {
    if k == 0 then Reading(Before, Counts(0, 0, 0), 0) else Read(ReadAll(script, k - 1), script[k - 1])
  }

  predicate IsScript(script: seq<R.Event>) {
    ReadAll(script, |script|).phase == Ended
  }

  lemma {:induction false} RejectedStays(script: seq<R.Event>, k: nat)
    requires k <= |script| && ReadAll(script, k).phase == Rejected
    ensures ReadAll(script, |script|).phase == Rejected
    decreases |script| - k
  {
    if k < |script| {
      RejectedStays(script, k + 1);
    }
  }

  /** Within a script no prefix is rejected, only the whole has ended, and counts stay in order. */
  lemma {:induction false} ScriptReads(script: seq<R.Event>, k: nat)
    requires IsScript(script) && k <= |script|
    ensures
      var r := ReadAll(script, k);
      && r.phase != Rejected && (r.phase == Ended <==> k == |script|) && (r.phase == Before <==> k == 0)
      && Ordered(r.counts) && r.counts.candidates <= r.findings
      && (k == |script| ==> script[k - 1].Completed? || script[k - 1].Failed?)
      && (k == |script| && script[k - 1].Completed? ==> r.counts.candidates == r.findings)
  {
    if ReadAll(script, k).phase == Rejected {
      RejectedStays(script, k);
    }
    if k < |script| && ReadAll(script, k).phase == Ended {
      RejectedStays(script, k + 1);
    }
    if k > 0 {
      ScriptReads(script, k - 1);
    }
  }

  lemma {:induction false} ReadPrefix(a: seq<R.Event>, b: seq<R.Event>, k: nat)
    requires k <= |a|
    ensures ReadAll(a + b, k) == ReadAll(a, k)
  {
    if k > 0 {
      ReadPrefix(a, b, k - 1);
      assert (a + b)[k - 1] == a[k - 1];
    }
  }

  lemma {:induction false} ReadMore(a: seq<R.Event>, e: R.Event)
    ensures ReadAll(a + [e], |a| + 1) == Read(ReadAll(a, |a|), e)
  {
    ReadPrefix(a, [e], |a|);
  }

  lemma {:induction false} OrderlyLast(reports: seq<Report>, txs: seq<string>, now: R.Stats)
    requires Orderly(reports, txs, now) && reports != []
    ensures
      var before, counts := reports[..|reports| - 1], CountsOf(reports[|reports| - 1].stats);
      && Orderly(before, txs, now) && Ordered(counts) && counts.candidates == |reports|
      && AtMost(if before == [] then Counts(0, 0, 0) else CountsOf(before[|before| - 1].stats), counts)
  {
    if |reports| > 1 {
      assert StatsLeq(reports[|reports| - 2].stats, reports[|reports| - 1].stats);
    }
  }

  lemma {:induction false} ReadTold(reports: seq<Report>, txs: seq<string>, now: R.Stats)
    requires Orderly(reports, txs, now)
    ensures
      var e := [R.Started] + Told(reports);
      var r := ReadAll(e, |e|);
      && r.phase == Idle && r.findings == |reports|
      && r.counts == if reports == [] then Counts(0, 0, 0) else CountsOf(reports[|reports| - 1].stats)
    decreases reports
  {
    if reports == [] {
      ReadMore([], R.Started);
      assert [R.Started] + Told([]) == [] + [R.Started];
    } else {
      var before, last := reports[..|reports| - 1], reports[|reports| - 1];
      var e := [R.Started] + Told(before);
      assert [R.Started] + Told(reports) == e + [R.Finding(last.summary)] + [R.Progress(last.stats)];
      OrderlyLast(reports, txs, now);
      hide Told, Orderly;
      ReadTold(before, txs, now);
      ReadMore(e, R.Finding(last.summary));
      ReadMore(e + [R.Finding(last.summary)], R.Progress(last.stats));
    }
  }

  lemma {:induction false} ToldThenFailed(reports: seq<Report>, txs: seq<string>, now: R.Stats, block: nat)
    requires Orderly(reports, txs, now)
    ensures IsScript([R.Started] + Told(reports) + [R.Failed(block)])
  {
    hide Told, Orderly;
    ReadTold(reports, txs, now);
    ReadMore([R.Started] + Told(reports), R.Failed(block));
  }

  lemma {:induction false} ToldThenCompleted(reports: seq<Report>, txs: seq<string>, now: R.Stats)
    requires Orderly(reports, txs, now) && reports != [] && reports[|reports| - 1].stats == now && now.findings == |reports|
    ensures IsScript([R.Started] + Told(reports) + [R.Completed(now)])
  {
    OrderlyNow(reports, txs, now);
    hide Told, Orderly;
    ReadTold(reports, txs, now);
    ReadMore([R.Started] + Told(reports), R.Completed(now));
  }

  lemma {:induction false} ToldThenProgress(reports: seq<Report>, txs: seq<string>, now: R.Stats)
    requires Orderly(reports, txs, now) && now.findings == |reports|
    ensures IsScript([R.Started] + Told(reports) + [R.Progress(now), R.Completed(now)])
  {
    OrderlyNow(reports, txs, now);
    assert reports != [] ==> StatsLeq(reports[|reports| - 1].stats, now);
    hide Told, Orderly;
    var e := [R.Started] + Told(reports);
    ReadTold(reports, txs, now);
    ReadMore(e, R.Progress(now));
    ReadMore(e + [R.Progress(now)], R.Completed(now));
    assert e + [R.Progress(now), R.Completed(now)] == e + [R.Progress(now)] + [R.Completed(now)];
  }

  /** Whatever a protocol run reports is a script. */
  lemma {:induction false} RunIsScript(t: R.Task, store: R.Store, order: seq<Key>, budget: nat)
    requires StrictIsVerified(t)
    ensures IsScript(R.RunOf(t, store, order, budget).events)
  {
    var r := R.RunOf(t, store, order, budget);
    var reports := RunReports(t, store, order, budget);
    hide R.RunOf, Told, StrictIsVerified, R.TxOrder, Orderly, IsScript;
    if r.failed {
      ToldThenFailed(reports, Txs(t), r.stats, r.stats.currentBlock);
    } else if reports != [] && reports[|reports| - 1].stats.currentBlock >= t.to {
      ToldThenCompleted(reports, Txs(t), r.stats);
    } else {
      ToldThenProgress(reports, Txs(t), r.stats);
    }
  }

  lemma {:induction false} ToldFirst(reports: seq<Report>)
    requires reports != []
    ensures |Told(reports)| >= 2 && Told(reports)[0] == R.Finding(reports[0].summary) && Told(reports)[1] == R.Progress(reports[0].stats)
    decreases |reports|
  {
    var before := reports[..|reports| - 1];
    if before == [] {
      assert Told(before) == [];
    } else {
      ToldFirst(before);
    }
  }

  lemma {:induction false} SomeTx(candidates: seq<Candidate>, k: nat)
    requires 0 < k <= |candidates|
    ensures R.TxOrder(candidates, k) != []
  {
    assert candidates[k - 1].key.tx in R.TxOrder(candidates, k);
  }

  /** A run with work that succeeds tells of a finding right after it started. */
  lemma {:induction false} CleanRunTells(t: R.Task, store: R.Store, order: seq<Key>, budget: nat)
    requires StrictIsVerified(t) && R.HasWork(t) && !R.RunOf(t, store, order, budget).failed
    ensures
      var events := R.RunOf(t, store, order, budget).events;
      IsScript(events) && |events| > 1 && events[1].Finding?
  {
    RunIsScript(t, store, order, budget);
    var reports := RunReports(t, store, order, budget);
    hide R.RunOf, StrictIsVerified, Orderly, IsScript, Told;
    SomeTx(t.candidates, |t.candidates|);
    ToldFirst(reports);
  }
}
