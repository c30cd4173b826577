/** What the observer of a protocol run sees: the grammar of its events, counters that never
    decrease, and one finding per transaction. */
module RunEvents {
  import opened Text
  import opened ScanTypes
  import opened Aggregator
  import opened ProtocolRunner
  import opened RunConvergence
  import Verifiers
  import TraceVerifiers

  predicate StatsLeq(a: Stats, b: Stats) {
    && a.currentBlock <= b.currentBlock && a.observed <= b.observed && a.candidates <= b.candidates && a.verified <= b.verified
    && a.strict <= b.strict && a.findings <= b.findings && a.verifiedFindings <= b.verifiedFindings && a.strictFindings <= b.strictFindings
  }

  /** Strict never exceeds verified, nor verified what there is. */
  predicate Sensible(s: Stats) {
    s.strict <= s.verified <= s.candidates && s.strictFindings <= s.verifiedFindings <= s.findings
  }

  /** A verdict that is strict is verified. */
  ghost predicate StrictIsVerified(t: Task) {
    forall c, legs :: t.verify(c, legs).Judged? && t.verify(c, legs).verdict.strict ==> t.verify(c, legs).verdict.verified
  }

  /** One finding and the progress told right after it. */
  datatype Report = Report(summary: Summary, stats: Stats)

  function Told(reports: seq<Report>): seq<Event>
    decreases reports
  {
    if reports == [] then [] else
      var last := reports[|reports| - 1];
      Told(reports[..|reports| - 1]) + [Finding(last.summary), Progress(last.stats)]
  }

  /** Reports about the transactions in order, with sensible counters that never decrease up to `now`. */
  ghost predicate Orderly(reports: seq<Report>, txs: seq<string>, now: Stats) {
    && |reports| <= |txs| && Sensible(now)
    && (forall j :: 0 <= j < |reports| ==>
          reports[j].summary.tx == txs[j] && reports[j].stats.findings == j + 1 && Sensible(reports[j].stats) && StatsLeq(reports[j].stats, now))
    && (forall i, j :: 0 <= i < j < |reports| ==> StatsLeq(reports[i].stats, reports[j].stats))
  }

  /** The state of a run that has told these reports so far. */
  ghost predicate Reported(r: Run, reports: seq<Report>, txs: seq<string>) {
    && r.events == [Started] + Told(reports)
    && Orderly(reports, txs, r.stats) && r.stats.findings == |reports|
    && (r.progressEmitted <==> reports != [])
    && (reports != [] ==> r.lastProgress == r.stats.currentBlock && reports[|reports| - 1].stats == r.stats)
  }

  // ---- which block and which summaries the reports show ----

  /** The highest of some blocks, 0 if there is none. */
  ghost predicate IsHighest(block: nat, blocks: seq<nat>) {
    (block == 0 || block in blocks) && forall b :: b in blocks ==> b <= block
  }

  /** The blocks of the first k candidates. */
  function CandidateBlocks(t: Task, k: nat): seq<nat>
    requires k <= |t.candidates|
  {
    seq(k, i requires 0 <= i < k => BlockOf(t.candidates[i].block))
  }

  function SummaryBlocks(reports: seq<Report>): seq<nat> {
    seq(|reports|, i requires 0 <= i < |reports| => BlockOf(reports[i].summary.block))
  }

  function CountIf(reports: seq<Report>, test: Summary -> bool): nat
    decreases reports
  {
    if reports == [] then 0 else
      CountIf(reports[..|reports| - 1], test) + if test(reports[|reports| - 1].summary) then 1 else 0
  }

  function Verified(): Summary -> bool {
    (s: Summary) => s.verified
  }

  function Strict(): Summary -> bool {
    (s: Summary) => s.strict
  }

  /** Report j: the summary of its transaction's rows, which is stored; the highest block of all candidates
      and of the summaries told so far; and how many of those summaries are verified, and strict. */
  ghost predicate ReportSays(t: Task, r: Run, reports: seq<Report>, txs: seq<string>, j: nat)
    requires j < |reports| <= |txs|
  {
    && Summarize(txs[j], RowsOf(r.store.rows, txs[j])) == Some(reports[j].summary)
    && txs[j] in r.store.summaries && r.store.summaries[txs[j]] == reports[j].summary
    && IsHighest(reports[j].stats.currentBlock, CandidateBlocks(t, |t.candidates|) + SummaryBlocks(reports[..j + 1]))
    && reports[j].stats.verifiedFindings == CountIf(reports[..j + 1], Verified())
    && reports[j].stats.strictFindings == CountIf(reports[..j + 1], Strict())
  }

  ghost predicate Figured(t: Task, r: Run, reports: seq<Report>, txs: seq<string>, reached: nat) {
    && reached <= |t.candidates| && |reports| <= |txs| && (reports != [] ==> reached == |t.candidates|)
    && IsHighest(r.stats.currentBlock, CandidateBlocks(t, reached) + SummaryBlocks(reports))
    && r.stats.verifiedFindings == CountIf(reports, Verified()) && r.stats.strictFindings == CountIf(reports, Strict())
    && forall j :: 0 <= j < |reports| ==> ReportSays(t, r, reports, txs, j)
  }

  lemma {:induction false} AdvanceHighest(stats: Stats, block: nat, blocks: seq<nat>)
    requires IsHighest(stats.currentBlock, blocks)
    ensures IsHighest(Advance(stats, block).currentBlock, blocks + [block])
  {
  }

  lemma {:induction false} FigureOne(t: Task, r: Run, next: Run, reports: seq<Report>, txs: seq<string>, last: Report)
    requires Figured(t, r, reports, txs, |t.candidates|) && |reports| < |txs|
    requires forall i, j :: 0 <= i < j < |txs| ==> txs[i] != txs[j]
    requires Summarize(txs[|reports|], RowsOf(r.store.rows, txs[|reports|])) == Some(last.summary)
    requires next.stats == last.stats == Counted(r.stats, last.summary)
    requires next.store == r.store.(summaries := r.store.summaries[txs[|reports|] := last.summary])
    ensures Figured(t, next, reports + [last], txs, |t.candidates|)
  {
    hide Summarize, RowsOf, TxOrder, BlockOf;
    var more := reports + [last];
    assert more[..|reports|] == reports && more[..|more|] == more;
    assert SummaryBlocks(more) == SummaryBlocks(reports) + [BlockOf(last.summary.block)];
    var blocks := CandidateBlocks(t, |t.candidates|) + SummaryBlocks(reports);
    AdvanceHighest(r.stats, BlockOf(last.summary.block), blocks);
    assert CandidateBlocks(t, |t.candidates|) + SummaryBlocks(more) == blocks + [BlockOf(last.summary.block)];
    hide IsHighest, CountIf;
    CountedFigures(r.stats, last.summary);
    CountOne(reports, last, Verified());
    CountOne(reports, last, Strict());
    forall j | 0 <= j < |more| ensures ReportSays(t, next, more, txs, j) {
      if j < |reports| {
        assert ReportSays(t, r, reports, txs, j);
        assert more[..j + 1] == reports[..j + 1];
      }
    }
  }

  lemma {:induction false} CountedFigures(stats: Stats, s: Summary)
    ensures
      var next := Counted(stats, s);
      && next.currentBlock == Advance(stats, BlockOf(s.block)).currentBlock
      && next.verifiedFindings == stats.verifiedFindings + (if s.verified then 1 else 0)
      && next.strictFindings == stats.strictFindings + (if s.strict then 1 else 0)
  {
  }

  lemma {:induction false} CountOne(reports: seq<Report>, last: Report, test: Summary -> bool)
    ensures CountIf(reports + [last], test) == CountIf(reports, test) + if test(last.summary) then 1 else 0
  {
    assert (reports + [last])[..|reports|] == reports;
  }

  /** How many candidates a verification of the first k gets to: all, or up to the one whose call fails. */
  ghost function Reached(t: Task, r: Run, k: nat): (n: nat)
    requires k <= |t.candidates|
    ensures n <= k
  {
    if k == 0 then 0 else if VerifyAll(t, r, k - 1).failed then Reached(t, r, k - 1) else k
  }

  /** While candidates are verified the current block is the highest of those reached. */
  lemma {:induction false} VerifyBlocks(t: Task, r: Run, k: nat)
    requires k <= |t.candidates| && r.stats.currentBlock == 0
    ensures r.failed ==> Reached(t, r, k) == 0 || k == 0
    ensures !VerifyAll(t, r, k).failed ==> Reached(t, r, k) == k
    ensures IsHighest(VerifyAll(t, r, k).stats.currentBlock, CandidateBlocks(t, Reached(t, r, k)))
  {
    hide CandidateStep;
    if k > 0 {
      VerifyBlocks(t, r, k - 1);
      var before, c := VerifyAll(t, r, k - 1), t.candidates[k - 1];
      if before.failed {
        FailedCandidate(t, before, c);
      } else {
        CandidateAdvances(t, before, c);
        AdvanceHighest(before.stats, BlockOf(c.block), CandidateBlocks(t, k - 1));
        assert CandidateBlocks(t, k) == CandidateBlocks(t, k - 1) + [BlockOf(c.block)];
      }
      StartedNotFailed(t, r, k);
    }
  }

  lemma {:induction false} StartedNotFailed(t: Task, r: Run, k: nat)
    requires k <= |t.candidates|
    ensures r.failed ==> VerifyAll(t, r, k).failed
    ensures r.failed ==> Reached(t, r, k) == 0
  {
    hide VerifyAll;
    if r.failed {
      FailedVerify(t, r, k);
      if k > 0 {
        FailedVerify(t, r, k - 1);
        StartedNotFailed(t, r, k - 1);
      }
    }
  }

  lemma {:induction false} CandidateAdvances(t: Task, r: Run, c: Candidate)
    requires !r.failed
    ensures CandidateStep(t, r, c).stats.currentBlock == Advance(r.stats, BlockOf(c.block)).currentBlock
  {
    hide WithLegs, LegsAt, BlockOf;
  }

  lemma {:induction false} OrderlyGrows(reports: seq<Report>, txs: seq<string>, now: Stats, last: Report)
    requires Orderly(reports, txs, now) && |reports| < |txs| && last.summary.tx == txs[|reports|]
    requires StatsLeq(now, last.stats) && Sensible(last.stats) && last.stats.findings == |reports| + 1
    ensures Orderly(reports + [last], txs, last.stats)
  {
  }

  lemma {:induction false} ToldMore(events: seq<Event>, reports: seq<Report>, last: Report)
    requires events == [Started] + Told(reports)
    ensures events + [Finding(last.summary), Progress(last.stats)] == [Started] + Told(reports + [last])
  {
    assert (reports + [last])[..|reports|] == reports;
  }

  lemma {:induction false} AggregateShape(r: Run, tx: string)
    requires Summarize(tx, RowsOf(r.store.rows, tx)).Some?
    ensures
      var next, summary := AggregateStep(r, tx), Summarize(tx, RowsOf(r.store.rows, tx)).value;
      if next.failed then next == r.(failed := true)
      else
        && next.stats == Counted(r.stats, summary) && next.events == r.events + [Finding(summary), Progress(next.stats)]
        && next.progressEmitted && next.lastProgress == next.stats.currentBlock
        && next.store == r.store.(summaries := r.store.summaries[tx := summary])
  {
    hide Summarize, RowsOf, Counted;
  }

  lemma {:induction false} AggregateReports(r: Run, reports: seq<Report>, txs: seq<string>) returns (more: seq<Report>)
    requires Reported(r, reports, txs) && |reports| < |txs| && Summarize(txs[|reports|], RowsOf(r.store.rows, txs[|reports|])).Some?
    ensures
      var next := AggregateStep(r, txs[|reports|]);
      Reported(next, more, txs) && next.store.rows == r.store.rows
      && if next.failed then more == reports && next.store == r.store && next.stats == r.stats
         else
           var summary := Summarize(txs[|reports|], RowsOf(r.store.rows, txs[|reports|])).value;
           && more == reports + [Report(summary, next.stats)] && next.stats == Counted(r.stats, summary)
           && next.store == r.store.(summaries := r.store.summaries[txs[|reports|] := summary])
  {
    var tx := txs[|reports|];
    var next, summary := AggregateStep(r, tx), Summarize(tx, RowsOf(r.store.rows, tx)).value;
    hide Summarize, RowsOf, Counted, AggregateStep, Reported;
    AggregateShape(r, tx);
    SummaryNames(tx, RowsOf(r.store.rows, tx));
    more := reports;
    if next.failed {
      ReportedFails(r, reports, txs);
    } else {
      more := reports + [Report(summary, next.stats)];
      ReportedGrows(r, next, reports, txs, summary);
    }
  }

  lemma {:induction false} ReportedFails(r: Run, reports: seq<Report>, txs: seq<string>)
    requires Reported(r, reports, txs)
    ensures Reported(r.(failed := true), reports, txs)
  {
    hide Orderly, Told;
  }

  /** A run that has told one more summary and its progress. */
  lemma {:induction false} ReportedGrows(r: Run, next: Run, reports: seq<Report>, txs: seq<string>, summary: Summary)
    requires Reported(r, reports, txs) && |reports| < |txs| && summary.tx == txs[|reports|] && (summary.strict ==> summary.verified)
    requires next.stats == Counted(r.stats, summary) && next.events == r.events + [Finding(summary), Progress(next.stats)]
    requires next.progressEmitted && next.lastProgress == next.stats.currentBlock
    ensures Reported(next, reports + [Report(summary, next.stats)], txs)
  {
    hide Orderly, Counted, Told, Sensible, StatsLeq;
    OrderlyNow(reports, txs, r.stats);
    CountedGrows(r.stats, summary);
    OrderlyGrows(reports, txs, r.stats, Report(summary, next.stats));
    ToldMore(r.events, reports, Report(summary, next.stats));
  }

  lemma {:induction false} CountedGrows(stats: Stats, summary: Summary)
    requires summary.strict ==> summary.verified
    ensures StatsLeq(stats, Counted(stats, summary)) && Counted(stats, summary).findings == stats.findings + 1
    ensures Sensible(stats) ==> Sensible(Counted(stats, summary))
  {
  }

  lemma {:induction false} OrderlyNow(reports: seq<Report>, txs: seq<string>, now: Stats)
    requires Orderly(reports, txs, now)
    ensures Sensible(now) && |reports| <= |txs|
  {
  }

  lemma {:induction false} SummaryNames(tx: string, rows: seq<Row>)
    requires Summarize(tx, rows).Some?
    ensures Summarize(tx, rows).value.tx == tx
    ensures Summarize(tx, rows).value.strict ==> Summarize(tx, rows).value.verified
  {
    SummaryConsistent(tx, rows);
  }

  lemma {:induction false} AggregatesReport(t: Task, r: Run, k: nat) returns (reports: seq<Report>)
    requires Reported(r, [], Txs(t)) && Figured(t, r, [], Txs(t), |t.candidates|) && !r.failed && k <= |Txs(t)|
    requires forall i :: 0 <= i < |t.candidates| ==> t.candidates[i].key in r.store.rows
    ensures
      var next := AggregateAll(r, Txs(t), k);
      && Reported(next, reports, Txs(t)) && Figured(t, next, reports, Txs(t), |t.candidates|)
      && |reports| <= k && (!next.failed ==> |reports| == k) && next.store.rows == r.store.rows
  {
    hide Reported, Figured, TxOrder, Summarize, RowsOf, Counted, AggregateStep;
    reports := [];
    if k > 0 {
      reports := AggregatesReport(t, r, k - 1);
      var before, tx := AggregateAll(r, Txs(t), k - 1), Txs(t)[k - 1];
      var next := AggregateStep(before, tx);
      if before.failed {
        AlreadyFailed(before, tx);
      } else {
        CandidateRows(t, r.store.rows, tx);
        TxOrderDistinct(t.candidates, |t.candidates|);
        var more := AggregateReports(before, reports, Txs(t));
        if next.failed {
          FiguredSame(t, before, next, reports, Txs(t), |t.candidates|);
        } else {
          FigureOne(t, before, next, reports, Txs(t), more[|reports|]);
        }
        reports := more;
      }
    }
  }

  lemma {:induction false} AlreadyFailed(r: Run, tx: string)
    requires r.failed
    ensures AggregateStep(r, tx) == r
  {
    hide Summarize, RowsOf;
  }

  lemma {:induction false} FiguredSame(t: Task, r: Run, next: Run, reports: seq<Report>, txs: seq<string>, reached: nat)
    requires Figured(t, r, reports, txs, reached) && next.stats == r.stats && next.store == r.store
    ensures Figured(t, next, reports, txs, reached)
  {
    hide ReportSays, IsHighest;
    forall j | 0 <= j < |reports| ensures ReportSays(t, next, reports, txs, j) {
      SaysSame(t, r, next, reports, txs, j);
    }
  }

  /** Before any finding: nothing but the start has been reported. */
  ghost predicate Quiet(r: Run) {
    r.events == [Started] && !r.progressEmitted && r.stats.findings == r.stats.verifiedFindings == r.stats.strictFindings == 0
  }

  lemma {:induction false} QuietIsReported(r: Run, txs: seq<string>)
    requires Quiet(r) && Sensible(r.stats)
    ensures Reported(r, [], txs)
  {
  }

  lemma {:induction false} CandidateCounts(t: Task, r: Run, c: Candidate)
    requires StrictIsVerified(t) && Quiet(r)
    ensures
      var next := CandidateStep(t, r, c);
      && Quiet(next) && r.stats.candidates == next.stats.candidates
      && (r.stats.strict <= r.stats.verified ==> next.stats.strict <= next.stats.verified)
      && next.stats.verified <= r.stats.verified + 1
      && (forall key :: key in r.store.rows ==> key in next.store.rows)
  {
    hide WithLegs, LegsAt, BlockOf;
  }

  lemma {:induction false} VerifyCounts(t: Task, r: Run, k: nat)
    requires StrictIsVerified(t) && Quiet(r) && k <= |t.candidates| && r.stats.strict == r.stats.verified == 0
    ensures
      var next := VerifyAll(t, r, k);
      && Quiet(next) && next.stats.candidates == r.stats.candidates && next.stats.strict <= next.stats.verified <= k
      && (forall key :: key in r.store.rows ==> key in next.store.rows)
  {
    hide CandidateStep, StrictIsVerified;
    if k > 0 {
      VerifyCounts(t, r, k - 1);
      CandidateCounts(t, VerifyAll(t, r, k - 1), t.candidates[k - 1]);
    }
  }

  lemma {:induction false} ReplaceQuiet(t: Task, r: Run, order: seq<Key>, k: nat)
    requires k <= |order|
    ensures
      var next := ReplaceAll(t, r, order, k);
      next.events == r.events && next.progressEmitted == r.progressEmitted && next.stats == r.stats && next.store.rows == r.store.rows
  {
    hide WithLegs, GroupOf;
    if k > 0 {
      ReplaceQuiet(t, r, order, k - 1);
    }
  }

  lemma {:induction false} PreparedQuiet(t: Task, store: Store, budget: nat)
    ensures
      var p := Prepared(t, Start(store, budget));
      && Quiet(p) && p.stats.strict == p.stats.verified == p.stats.currentBlock == 0 && p.store == store
      && (!p.failed && HasWork(t) ==> p.stats.candidates == |t.candidates|)
  {
  }

  /** How many candidates a run reaches: those before the one whose call fails, and that one. */
  ghost function CandidatesReached(t: Task, store: Store, order: seq<Key>, budget: nat): (n: nat)
    ensures n <= |t.candidates|
  {
    var prepared := Prepared(t, Start(store, budget));
    if prepared.failed || !HasWork(t) then 0 else Reached(t, ReplaceAll(t, UpsertStep(t, prepared), order, |order|), |t.candidates|)
  }

  lemma {:induction false} QuietIsFigured(t: Task, r: Run, reached: nat)
    requires Quiet(r) && reached <= |t.candidates| && IsHighest(r.stats.currentBlock, CandidateBlocks(t, reached))
    ensures Figured(t, r, [], Txs(t), reached)
  {
    assert CandidateBlocks(t, reached) + SummaryBlocks([]) == CandidateBlocks(t, reached);
    hide TxOrder, IsHighest;
  }

  lemma {:induction false} NothingReached(t: Task)
    ensures IsHighest(0, CandidateBlocks(t, 0))
  {
  }

  lemma {:induction false} BodyReports(t: Task, store: Store, order: seq<Key>, budget: nat) returns (reports: seq<Report>)
    requires StrictIsVerified(t)
    ensures
      var r := Body(t, Start(store, budget), order);
      && Reported(r, reports, Txs(t)) && Figured(t, r, reports, Txs(t), CandidatesReached(t, store, order, budget))
      && (!r.failed && HasWork(t) ==> CandidatesReached(t, store, order, budget) == |t.candidates|)
      && (!r.failed ==> |reports| == if HasWork(t) then |Txs(t)| else 0)
  {
    var start := Start(store, budget);
    var prepared := Prepared(t, start);
    PreparedQuiet(t, store, budget);
    reports := [];
    QuietIsReported(prepared, Txs(t));
    NothingReached(t);
    hide Prepared, Reported, Figured, Reached, StrictIsVerified, TxOrder, Upserted, ReplaceAll, VerifyAll, AggregateAll, IsHighest, Quiet;
    if prepared.failed || !HasWork(t) {
      QuietIsFigured(t, prepared, 0);
    } else {
      var upserted := UpsertStep(t, prepared);
      var replaced := ReplaceAll(t, upserted, order, |order|);
      var verified := VerifyAll(t, replaced, |t.candidates|);
      ReplaceQuiet(t, upserted, order, |order|);
      VerifyCounts(t, replaced, |t.candidates|);
      QuietIsReported(verified, Txs(t));
      VerifyBlocks(t, replaced, |t.candidates|);
      QuietIsFigured(t, verified, Reached(t, replaced, |t.candidates|));
      if upserted.failed {
        FailedReplace(t, upserted, order, |order|);
        FailedVerify(t, upserted, |t.candidates|);
        FailedAggregate(verified, Txs(t), |Txs(t)|);
      } else {
        forall i | 0 <= i < |t.candidates| ensures t.candidates[i].key in verified.store.rows {
          UpsertedLast(prepared.store.rows, t.candidates, |t.candidates|, i);
        }
        if verified.failed {
          FailedAggregate(verified, Txs(t), |Txs(t)|);
        } else {
          reports := AggregatesReport(t, verified, |Txs(t)|);
        }
      }
    }
  }

  /** Every run reports Started, then pairs of a finding and its progress, one for each distinct
      transaction of the candidates in the order first seen, and then either Failed, or an optional
      last progress and Completed. Counters and current block never decrease from one report to the
      next and stay sensible. Each finding is the summary of its transaction's rows, and each progress
      shows the highest block of all candidates and of the summaries told so far. A run that succeeds
      has reported all transactions, and its last progress and its completion reach the end block; one
      that fails shows the highest block it got to. */
  lemma {:induction false} RunReports(t: Task, store: Store, order: seq<Key>, budget: nat) returns (reports: seq<Report>)
    requires StrictIsVerified(t)
    ensures RunFigures(t, RunOf(t, store, order, budget), reports, CandidatesReached(t, store, order, budget))
    ensures RunTells(t, RunOf(t, store, order, budget), reports)
  {
    reports := BodyReports(t, store, order, budget);
    var body := Body(t, Start(store, budget), order);
    hide Body, Finish, TxOrder, Reported, RunFigures, Figured, CandidatesReached, RunTells;
    FinishFigures(t, body, reports, CandidatesReached(t, store, order, budget));
    FinishTells(t, body, reports);
  }

  /** The events of a run that has ended: Started, the reports in order, and its end. */
  ghost predicate RunTells(t: Task, r: Run, reports: seq<Report>) {
    && Orderly(reports, Txs(t), r.stats)
    && (r.failed ==> r.events == [Started] + Told(reports) + [Failed(r.stats.currentBlock)])
    && (!r.failed ==>
          && |reports| == (if HasWork(t) then |Txs(t)| else 0)
          && r.stats.findings == |reports| && r.stats.currentBlock >= t.to
          && (if reports != [] && reports[|reports| - 1].stats.currentBlock >= t.to
              then r.events == [Started] + Told(reports) + [Completed(r.stats)] && r.stats == reports[|reports| - 1].stats
              else r.events == [Started] + Told(reports) + [Progress(r.stats), Completed(r.stats)]))
  }

  lemma {:induction false} FinishTells(t: Task, body: Run, reports: seq<Report>)
    requires Reported(body, reports, Txs(t)) && (!body.failed ==> |reports| == if HasWork(t) then |Txs(t)| else 0)
    ensures RunTells(t, Finish(t, body), reports)
  {
    hide TxOrder, Told;
    OrderlyLater(reports, Txs(t), body.stats, Finish(t, body).stats);
  }

  /** What a run has told when it ends: the figures of its reports, and as its last block the highest it
      got to, and at least the end block if it succeeded. */
  ghost predicate RunFigures(t: Task, r: Run, reports: seq<Report>, reached: nat) {
    && reached <= |t.candidates| && |reports| <= |Txs(t)|
    && (forall j :: 0 <= j < |reports| ==> ReportSays(t, r, reports, Txs(t), j))
    && r.stats.verifiedFindings == CountIf(reports, Verified()) && r.stats.strictFindings == CountIf(reports, Strict())
    && (reports != [] || (!r.failed && HasWork(t)) ==> reached == |t.candidates|)
    && IsHighest(r.stats.currentBlock, CandidateBlocks(t, reached) + SummaryBlocks(reports) + if r.failed then [] else [t.to])
  }

  lemma {:induction false} FinishFigures(t: Task, body: Run, reports: seq<Report>, reached: nat)
    requires Figured(t, body, reports, Txs(t), reached) && (!body.failed && HasWork(t) ==> reached == |t.candidates|)
    ensures RunFigures(t, Finish(t, body), reports, reached)
  {
    var r, blocks := Finish(t, body), CandidateBlocks(t, reached) + SummaryBlocks(reports);
    EndHighest(body.stats.currentBlock, t.to, blocks);
    assert blocks + [] == blocks;
    hide IsHighest, ReportSays, TxOrder;
    forall j | 0 <= j < |reports| ensures ReportSays(t, r, reports, Txs(t), j) {
      SaysSame(t, body, r, reports, Txs(t), j);
    }
  }

  lemma {:induction false} EndHighest(block: nat, end: nat, blocks: seq<nat>)
    requires IsHighest(block, blocks)
    ensures IsHighest(if block < end then end else block, blocks + [end])
  {
  }

  lemma {:induction false} SaysSame(t: Task, r: Run, next: Run, reports: seq<Report>, txs: seq<string>, j: nat)
    requires j < |reports| <= |txs| && ReportSays(t, r, reports, txs, j) && next.store == r.store
    ensures ReportSays(t, next, reports, txs, j)
  {
    hide IsHighest, Summarize, RowsOf;
  }

  lemma {:induction false} OrderlyLater(reports: seq<Report>, txs: seq<string>, now: Stats, later: Stats)
    requires Orderly(reports, txs, now) && StatsLeq(now, later) && Sensible(later)
    ensures Orderly(reports, txs, later)
  {
  }

  lemma {:induction false} TxOrderDistinct(candidates: seq<Candidate>, k: nat)
    requires k <= |candidates|
    ensures forall i, j :: 0 <= i < j < |TxOrder(candidates, k)| ==> TxOrder(candidates, k)[i] != TxOrder(candidates, k)[j]
    ensures forall j :: 0 <= j <= k ==> TxOrder(candidates, j) <= TxOrder(candidates, k)
  {
    if k > 0 {
      TxOrderDistinct(candidates, k - 1);
    }
  }

  /** The three verifiers, trace-backed or not, never call an unverified interaction strict. */
  lemma {:induction false} VerifiersKeepOrder(kind: Verifiers.Kind, chain: Chain, t: Task)
    requires
      || t.verify == ((c: Candidate, legs: seq<Leg>) => TraceVerifiers.TraceOutcome(kind, chain, c, legs))
      || t.verify == ((c: Candidate, legs: seq<Leg>) => TraceVerifiers.BaseOutcome(kind, chain, c, legs))
    ensures StrictIsVerified(t)
  {
    hide TraceVerifiers.TraceOutcome, TraceVerifiers.BaseOutcome;
    forall c, legs | t.verify(c, legs).Judged? && t.verify(c, legs).verdict.strict ensures t.verify(c, legs).verdict.verified {
      TraceVerifiers.BaseVerdicts(kind, chain, c, legs);
      if TraceVerifiers.TraceOutcome(kind, chain, c, legs).Judged? {
        TraceVerifiers.StrictImplies(kind, chain, c, legs);
      }
    }
  }
}
