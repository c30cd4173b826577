/** How far a client's totals can lag behind its job while broadcasts of different goroutines overtake
    one another, and a run of two protocol runs in which they do. */
module ScanLag {
  import opened Text
  import opened JobManager
  import opened ScanReplica
  import opened ScanBroadcast
  import opened RunScripts
  import M = ScanMachine
  import R = ProtocolRunner
  import opened ScanTypes
  import Verifiers
  import RunEvents
  import Aggregator
  import TraceVerifiers

  /** The state right after the last step that a source took. */
  function OriginOf(actions: seq<Action>, states: seq<Net>, source: Source, k: nat): (origin: nat)
    requires k <= |actions| < |states|
    ensures origin <= k
  {
    if k == 0 then 0
    else if actions[k - 1].Perform? && IsAbout(states[k - 1], actions[k - 1].step) && SourceOf(actions[k - 1].step) == source then k
    else OriginOf(actions, states, source, k - 1)
  }

  predicate DeliversOverview(n: Net, a: Action) {
    a.Send? && !a.drop && PendingOf(n, a.source) != [] && PendingOf(n, a.source)[0].OfJob?
  }

  /** The state whose overview was the last to reach the client; the first one if none has. */
  function ShownAt(actions: seq<Action>, states: seq<Net>, k: nat): (at: nat)
    requires k <= |actions| < |states|
    ensures at <= k
  {
    if k == 0 then 0
    else if DeliversOverview(states[k - 1], actions[k - 1]) then OriginOf(actions, states, actions[k - 1].source, k - 1)
    else ShownAt(actions, states, k - 1)
  }

  /** What an overview brings, but for the protocols. */
  predicate ShowsStatusOf(c: Client, job: Job) {
    c.status == job.status && c.error == job.error && c.totals == job.totals && c.completedProtocols == CompletedCount(job.protocols)
  }

  /** Every overview still to be sent is that of the state after its source's last step. */
  ghost predicate Dated(actions: seq<Action>, states: seq<Net>, k: nat)
    requires k <= |actions| < |states|
  {
    forall s, m :: m in PendingOf(states[k], s) && m.OfJob? ==>
      Has(states[OriginOf(actions, states, s, k)]) && m == OfJob(OverviewOf(JobOf(states[OriginOf(actions, states, s, k)])))
  }

  lemma {:induction false} MessagesDated(job: Job, op: Op)
    ensures forall m :: m in Messages(job, op) && m.OfJob? ==> m == OfJob(OverviewOf(Applied(job, op)))
  {
    hide SumOf, Truncated, CompletedCount, ExtractTxHash, OverviewOf;
  }

  lemma {:induction false} RunDated(actions: seq<Action>, states: seq<Net>, k: nat)
    requires IsRun(actions, states) && k <= |actions|
    ensures Dated(actions, states, k)
  {
    hide Enabled, Next, IsStart, Applied, Messages, OverviewOf, OpOf, SourceOf, PendingOf;
    if k == 0 {
      StartSent(states[0]);
    } else {
      var n, next, a := states[k - 1], states[k - 1 + 1], actions[k - 1];
      assert next == Next(n, a);
      RunDated(actions, states, k - 1);
      forall s, m | m in PendingOf(next, s) && m.OfJob?
        ensures var o := OriginOf(actions, states, s, k); Has(states[o]) && m == OfJob(OverviewOf(JobOf(states[o])))
      {
        match a {
          case Perform(step) =>
            StepIsOp(n, step);
            if IsAbout(n, step) && OpOf(JobOf(n), ControlOf(n), step).Some? {
              MessagesDated(JobOf(n), OpOf(JobOf(n), ControlOf(n), step).value);
            }
            if !IsAbout(n, step) {
              SamePending(n, next);
            }
          case Send(source, drop) =>
            SendLeaves(n, source, drop, s, m);
        }
      }
    }
  }

  lemma {:induction false} StartSent(n: Net)
    requires IsStart(n)
    ensures AllSent(n) && Has(n) && ShowsStatusOf(n.client, JobOf(n))
  {
    hide M.Sound, Normalized;
  }

  lemma {:induction false} SendLeaves(n: Net, source: Source, drop: bool, s: Source, m: Message)
    requires Enabled(n, Send(source, drop)) && m in PendingOf(Next(n, Send(source, drop)), s)
    ensures m in PendingOf(n, s)
  {
    hide ApplyMessage;
  }

  lemma {:induction false} SendShows(n: Net, source: Source, drop: bool, job: Job)
    requires Enabled(n, Send(source, drop))
    requires ShowsStatusOf(n.client, job)
    requires !DeliversOverview(n, Send(source, drop))
    ensures ShowsStatusOf(Next(n, Send(source, drop)).client, job)
  {
    hide CompletedCount, Truncated, EnrichLog;
  }

  lemma {:induction false} DeliveryShows(n: Net, source: Source, drop: bool, job: Job)
    requires Enabled(n, Send(source, drop)) && DeliversOverview(n, Send(source, drop))
    requires PendingOf(n, source)[0] == OfJob(OverviewOf(job))
    ensures ShowsStatusOf(Next(n, Send(source, drop)).client, job)
  {
    hide CompletedCount, Truncated, EnrichLog;
  }

  /** At every state of every run, drops included: status, error, totals and completed protocols the
      client shows are those of the job as of the step whose overview reached it last. */
  lemma {:induction false} ShownAsOf(actions: seq<Action>, states: seq<Net>, k: nat)
    requires IsRun(actions, states) && k <= |actions|
    ensures Has(states[ShownAt(actions, states, k)]) && ShowsStatusOf(states[k].client, JobOf(states[ShownAt(actions, states, k)]))
  {
    hide Enabled, Next, IsStart, OverviewOf, OpOf, SourceOf, ShowsStatusOf;
    if k == 0 {
      StartSent(states[0]);
    } else {
      var n, a := states[k - 1], actions[k - 1];
      assert states[k - 1 + 1] == Next(n, a);
      ShownAsOf(actions, states, k - 1);
      match a {
        case Perform(step) => StepIsOp(n, step);
        case Send(source, drop) =>
          if DeliversOverview(n, a) {
            RunDated(actions, states, k - 1);
            assert PendingOf(n, source)[0] in PendingOf(n, source);
            DeliveryShows(n, source, drop, JobOf(states[ShownAt(actions, states, k)]));
          } else {
            SendShows(n, source, drop, JobOf(states[ShownAt(actions, states, k - 1)]));
          }
      }
    }
  }

  // ---- when the totals shown are those of the job ----

  /** A worker of the job reports counts other than those the job holds for its protocol. */
  predicate NewCounts(n: Net, a: Action) {
    && Has(n) && a.Perform? && a.step.Emit? && IsAbout(n, a.step)
    && var op := OpOf(JobOf(n), ControlOf(n), a.step);
       && op.Some? && (op.value.ProtocolProgress? || op.value.ProtocolCompleted?)
       && var x := op.value.progress;
          x.protocol in JobOf(n).protocols && Counts(x.candidates, x.verified, x.strict) != M.CountsIn(JobOf(n).protocols[x.protocol])
  }

  /** No step lowers the totals, and just new counts change them. */
  lemma {:induction false} StepTotals(n: Net, a: Action)
    requires Tidy(n) && Enabled(n, a)
    ensures
      var next := Next(n, a);
      && Has(next) && M.TotalsAtMost(JobOf(n).totals, JobOf(next).totals)
      && (JobOf(n).totals == JobOf(next).totals <==> !NewCounts(n, a))
  {
    hide Applied, M.JobSound, Messages, M.Next, SumOf, M.OpFor, AboutJob, Settling, Tidy;
    assert M.JobSound(JobOf(n), ControlOf(n)) && Has(n) by {
      TidyIsSound(n);
    }
    if a.Perform? {
      StepIsOp(n, a.step);
      if IsAbout(n, a.step) {
        match a.step {
          case Begin(_) => M.StatusShape(JobOf(n), JobStarted);
          case Finish(_, message) =>
            M.StatusShape(JobOf(n), JobFailed(message));
            M.StatusShape(JobOf(n), JobCompleted);
          case Emit(_, p, message) =>
            M.EmitGrows(JobOf(n), ControlOf(n), p, message);
          case _ =>
        }
      }
    }
  }

  lemma {:induction false} TidyIsSound(n: Net)
    requires Tidy(n)
    ensures Has(n) && M.JobSound(JobOf(n), ControlOf(n)) && M.Sound(n.machine)
  {
    hide M.JobSound, Settling, AboutJob;
  }

  ghost predicate NoNewCounts(actions: seq<Action>, states: seq<Net>, i: nat, k: nat)
    requires k <= |actions| < |states|
  {
    forall j :: i <= j < k ==> !NewCounts(states[j], actions[j])
  }

  lemma {:induction false} OneMore(actions: seq<Action>, states: seq<Net>, i: nat, k: nat)
    requires i < k <= |actions| < |states|
    ensures NoNewCounts(actions, states, i, k) <==> NoNewCounts(actions, states, i, k - 1) && !NewCounts(states[k - 1], actions[k - 1])
  {
    hide NewCounts;
  }

  lemma {:induction false} NothingBetween(actions: seq<Action>, states: seq<Net>, k: nat)
    requires k <= |actions| < |states|
    ensures NoNewCounts(actions, states, k, k)
  {
  }

  lemma {:induction false} RunLength(actions: seq<Action>, states: seq<Net>)
    requires IsRun(actions, states)
    ensures |states| == |actions| + 1
  {
    hide Enabled, Next, IsStart;
  }

  lemma {:induction false} StepOf(actions: seq<Action>, states: seq<Net>, k: nat)
    requires IsRun(actions, states) && k < |actions|
    ensures Enabled(states[k], actions[k]) && states[k + 1] == Next(states[k], actions[k]) && Tidy(states[k]) && Tidy(states[k + 1])
  {
    hide Enabled, Next, IsStart, Tidy;
    RunTidy(actions, states, k);
    RunTidy(actions, states, k + 1);
  }

  lemma {:induction false} TotalsBetween(actions: seq<Action>, states: seq<Net>, i: nat, k: nat)
    requires IsRun(actions, states) && i <= k <= |actions|
    ensures Has(states[i]) && Has(states[k]) && M.TotalsAtMost(JobOf(states[i]).totals, JobOf(states[k]).totals)
    ensures JobOf(states[i]).totals == JobOf(states[k]).totals <==> NoNewCounts(actions, states, i, k)
  {
    hide IsRun, Enabled, Next, Tidy, NewCounts, M.TotalsAtMost, NoNewCounts, M.Sound, M.JobSound;
    RunLength(actions, states);
    RunTidy(actions, states, k);
    TidyIsSound(states[k]);
    if i == k {
      NothingBetween(actions, states, k);
      AtMostItself(JobOf(states[k]).totals);
    } else {
      TotalsBetween(actions, states, i, k - 1);
      StepOf(actions, states, k - 1);
      StepTotals(states[k - 1], actions[k - 1]);
      OneMore(actions, states, i, k);
      M.AtMostThrough(JobOf(states[i]).totals, JobOf(states[k - 1]).totals, JobOf(states[k]).totals);
    }
  }

  lemma {:induction false} AtMostItself(t: Totals)
    ensures M.TotalsAtMost(t, t)
  {
  }

  /** In every run, drops included, the totals a client shows are never more than the job's, and equal
      to them exactly when no worker has reported new counts since the step whose overview reached
      the client last. */
  lemma {:induction false} TotalsShownExactly(actions: seq<Action>, states: seq<Net>, k: nat)
    requires IsRun(actions, states) && k <= |actions|
    ensures
      var n, shown := states[k], ShownAt(actions, states, k);
      && Has(n) && M.TotalsAtMost(n.client.totals, JobOf(n).totals)
      && (n.client.totals == JobOf(n).totals <==> NoNewCounts(actions, states, shown, k))
  {
    hide Enabled, Next, IsStart, NewCounts;
    ShownAsOf(actions, states, k);
    TotalsBetween(actions, states, ShownAt(actions, states, k), k);
  }

  // ---- a run in which they are not ----

  ghost predicate ReachableFrom(start: Net, n: Net) {
    exists actions, states :: IsRun(actions, states) && states[0] == start && states[|actions|] == n
  }

  lemma {:induction false} ReachesItself(start: Net)
    requires IsStart(start)
    ensures ReachableFrom(start, start)
  {
    hide IsStart;
    var actions: seq<Action>, states := [], [start];
    assert IsRun(actions, states) && states[|actions|] == start;
  }

  lemma {:induction false} ReachesOn(start: Net, n: Net, a: Action)
    requires ReachableFrom(start, n) && Enabled(n, a)
    ensures ReachableFrom(start, Next(n, a))
  {
    hide IsStart, Enabled, Next;
    var actions, states :| IsRun(actions, states) && states[0] == start && states[|actions|] == n;
    var more, all := actions + [a], states + [Next(n, a)];
    forall i | 0 <= i < |more| ensures Enabled(all[i], more[i]) && all[i + 1] == Next(all[i], more[i]) {
      if i < |actions| {
        assert all[i] == states[i] && all[i + 1] == states[i + 1] && more[i] == actions[i];
      }
    }
    assert IsRun(more, all) && all[|more|] == Next(n, a);
  }

  lemma {:induction false} ReachedIsTidy(start: Net, n: Net)
    requires ReachableFrom(start, n)
    ensures Tidy(n) && Has(n) && M.JobSound(JobOf(n), ControlOf(n))
  {
    hide IsStart, Enabled, Next, Tidy, M.JobSound;
    var actions, states :| IsRun(actions, states) && states[0] == start && states[|actions|] == n;
    RunTidy(actions, states, |actions|);
    TidyIsSound(n);
  }

  /** What a source has still to send can all be sent. */
  lemma {:induction false} SendRest(start: Net, n: Net, source: Source) returns (sent: Net)
    requires ReachableFrom(start, n) && !n.dropped && forall s :: s != source ==> PendingOf(n, s) == []
    ensures ReachableFrom(start, sent) && sent.machine == n.machine && sent.id == n.id && !sent.dropped && AllSent(sent)
    decreases |PendingOf(n, source)|
  {
    hide ReachableFrom, ApplyMessage, M.Sound;
    sent := n;
    if PendingOf(n, source) != [] {
      ReachedIsTidy(start, n);
      ReachesOn(start, n, Send(source, false));
      SendFacts(n, source);
      sent := SendRest(start, Next(n, Send(source, false)), source);
    }
  }

  /** Two workers are at their i-th and j-th event; everything before is sent. */
  ghost predicate Ready(start: Net, n: Net, p: Protocol, w: M.Worker, q: Protocol, v: M.Worker) {
    && ReachableFrom(start, n) && AllSent(n) && !n.dropped && p != q && n.id == start.id
    && Has(n) && ControlOf(n).stage == M.Forked && p in ControlOf(n).workers && q in ControlOf(n).workers
    && ControlOf(n).workers[p] == w && ControlOf(n).workers[q] == v
  }

  /** The worker of p emits its next event. */
  lemma {:induction false} EmitStep(start: Net, n: Net, p: Protocol, w: M.Worker, q: Protocol, v: M.Worker) returns (next: Net)
    requires Ready(start, n, p, w, q, v) && w.Working? && !M.Ended(w)
    ensures
      var a := Perform(M.Emit(n.id, p, ""));
      && Enabled(n, a) && next == Next(n, a) && ReachableFrom(start, next) && !next.dropped && next.id == n.id
      && (forall s :: s != WorkerFor(p) ==> PendingOf(next, s) == [])
      && Has(next) && ControlOf(next).stage == M.Forked && ControlOf(next).workers == ControlOf(n).workers[p := M.Moved(w)]
  {
    hide ReachableFrom, Tidy, M.JobSound, Applied, Messages, M.OpFor;
    ReachedIsTidy(start, n);
    M.WorkerIn(JobOf(n), ControlOf(n), p);
    var a := Perform(M.Emit(n.id, p, ""));
    assert Enabled(n, a);
    next := Next(n, a);
    ReachesOn(start, n, a);
    StepIsOp(n, a.step);
    StageMoves(n, a.step);
  }

  lemma {:induction false} EmitAndSend(start: Net, n: Net, p: Protocol, w: M.Worker, q: Protocol, v: M.Worker) returns (sent: Net)
    requires Ready(start, n, p, w, q, v) && w.Working? && !M.Ended(w)
    ensures Ready(start, sent, p, M.Moved(w), q, v) && Ready(start, sent, q, v, p, M.Moved(w))
  {
    hide ReachableFrom, Enabled, Next, M.Ended, M.Moved;
    var next := EmitStep(start, n, p, w, q, v);
    sent := SendRest(start, next, WorkerFor(p));
  }

  /** A step about the job, taken when everything is sent. */
  lemma {:induction false} OwnStep(start: Net, n: Net, step: M.Action) returns (next: Net)
    requires ReachableFrom(start, n) && AllSent(n) && !n.dropped && Has(n) && IsAbout(n, step) && M.Enabled(n.machine, step)
    ensures ReachableFrom(start, next) && !next.dropped && next.id == n.id && Has(next)
    ensures forall s :: s != SourceOf(step) ==> PendingOf(next, s) == []
    ensures OpOf(JobOf(n), ControlOf(n), step).None? ==> AllSent(next)
    ensures ControlOf(next) == M.JobAfter(JobOf(n), ControlOf(n), step).1
    ensures JobOf(next).protocols.Keys == JobOf(n).protocols.Keys
  {
    hide ReachableFrom, Tidy, M.JobSound, Applied, Messages, M.OpFor, M.Sound, M.AllEnded, M.AnyErrs;
    ReachedIsTidy(start, n);
    TidyIsSound(n);
    next := Next(n, Perform(step));
    ReachesOn(start, n, Perform(step));
    StepIsOp(n, step);
    StepStaysSound(n, Perform(step));
  }

  lemma {:induction false} RequestedProtocols(id: string, params: Params)
    requires Refusal(map[], params).None?
    ensures Normalized(params.protocols).Ok?
    ensures forall p :: p in params.protocols ==> p in NewJob(id, params, Normalized(params.protocols).value).protocols
  {
    assert params.protocols[..|params.protocols|] == params.protocols;
  }

  /** A request to an idle server. */
  lemma {:induction false} RequestStarts(id: string, params: Params) returns (start: Net)
    requires Refusal(map[], params).None?
    ensures IsStart(start) && start.machine == M.Next(M.Machine(map[], map[]), M.Request(id, params)) && start.id == id
    ensures forall p :: p in params.protocols ==> p in JobOf(start).protocols
  {
    hide M.Sound, Refusal, Normalized, NewJob, StartScan;
    var empty := M.Machine(map[], map[]);
    M.NothingSound();
    M.StepSound(empty, M.Request(id, params));
    RequestedProtocols(id, params);
    start := Net(M.Next(empty, M.Request(id, params)), id, map[], StartScan(params), false, false);
  }

  /** The job's goroutine begins and forks its workers; all it says is sent. */
  lemma {:induction false} ForkJob(start: Net) returns (n: Net)
    requires IsStart(start)
    ensures ReachableFrom(start, n) && AllSent(n) && !n.dropped && n.id == start.id && Has(n)
    ensures ControlOf(n) == M.Control(M.Forked, map p | p in JobOf(start).protocols :: M.Waiting)
  {
    hide ReachableFrom, M.Sound, M.Next, Tidy, M.JobSound, PendingOf, Applied, M.AnyErrs, M.AllEnded;
    ReachesItself(start);
    StartSent(start);
    hide IsStart;
    assert ControlOf(start) == M.Control(M.Created, map[]) by { StartControl(start); }
    var begun := OwnStep(start, start, M.Begin(start.id));
    var sent := SendRest(start, begun, JobRoutine);
    n := OwnStep(start, sent, M.Fork(start.id));
    SameKeys(JobOf(sent), JobOf(start));
  }

  lemma {:induction false} StartControl(n: Net)
    requires IsStart(n)
    ensures Has(n) && ControlOf(n) == M.Control(M.Created, map[])
  {
    hide M.Sound;
  }

  lemma {:induction false} SameKeys(a: Job, b: Job)
    requires a.protocols.Keys == b.protocols.Keys
    ensures (map p | p in a.protocols :: M.Waiting) == (map p | p in b.protocols :: M.Waiting)
  {
    assert forall p :: p in a.protocols <==> p in a.protocols.Keys;
    assert forall p :: p in b.protocols <==> p in b.protocols.Keys;
  }

  /** A worker that waits is launched with a script. */
  lemma {:induction false} LaunchOne(start: Net, n: Net, p: Protocol, s: seq<R.Event>) returns (next: Net)
    requires ReachableFrom(start, n) && AllSent(n) && !n.dropped && n.id == start.id && Has(n) && IsScript(s)
    requires ControlOf(n).stage == M.Forked && p in ControlOf(n).workers && ControlOf(n).workers[p] == M.Waiting
    ensures ReachableFrom(start, next) && AllSent(next) && !next.dropped && next.id == start.id && Has(next)
    ensures ControlOf(next) == M.Control(M.Forked, ControlOf(n).workers[p := M.Working(s, 0)])
  {
    hide ReachableFrom, IsScript, M.Next, PendingOf;
    next := OwnStep(start, n, M.Launch(n.id, p, s));
  }

  /** A job of two protocols or more, requested of an idle server, and the workers of two of them launched. */
  lemma {:induction false} LaunchTwo(id: string, params: Params, p: Protocol, s: seq<R.Event>, q: Protocol, t: seq<R.Event>)
    returns (start: Net, n: Net)
    requires Refusal(map[], params).None? && p in params.protocols && q in params.protocols && p != q
    requires IsScript(s) && IsScript(t)
    ensures IsStart(start) && start.machine == M.Next(M.Machine(map[], map[]), M.Request(id, params)) && start.id == id
    ensures Ready(start, n, p, M.Working(s, 0), q, M.Working(t, 0))
  {
    hide ReachableFrom, IsScript, M.Sound, M.Next, IsStart, Refusal, PendingOf;
    start := RequestStarts(id, params);
    var forked := ForkJob(start);
    var first := LaunchOne(start, forked, p, s);
    n := LaunchOne(start, first, q, t);
  }

  /** A run that begins with a finding reports it next. */
  lemma {:induction false} FindingThenProgress(s: seq<R.Event>)
    requires IsScript(s) && |s| > 1 && s[1].Finding?
    ensures |s| > 2 && s[2].Progress? && s[2].stats.findings == 1 && ReadAll(s, 2).counts == Counts(0, 0, 0)
  {
    ScriptReads(s, 1);
    ScriptReads(s, 2);
    assert ReadAll(s, 1) == Read(ReadAll(s, 0), s[0]) && ReadAll(s, 2) == Read(ReadAll(s, 1), s[1]);
    ScriptReads(s, 3);
    assert ReadAll(s, 3) == Read(ReadAll(s, 2), s[2]);
  }

  /** Two messages sent by one source: the client's totals are those of the overview. */
  lemma {:induction false} SendTwo(start: Net, n: Net, source: Source, snapshot: ProtocolState, overview: Overview) returns (sent: Net)
    requires ReachableFrom(start, n) && Has(n) && PendingOf(n, source) == [OfProtocol(snapshot), OfJob(overview)]
    ensures ReachableFrom(start, sent) && sent.machine == n.machine && sent.id == n.id && sent.dropped == n.dropped
    ensures sent.client.totals == overview.totals
    ensures forall s :: PendingOf(sent, s) == if s == source then [] else PendingOf(n, s)
  {
    hide ReachableFrom, M.Sound;
    assert [OfProtocol(snapshot), OfJob(overview)][1..] == [OfJob(overview)] && [OfJob(overview)][1..] == [];
    ReachesOn(start, n, Send(source, false));
    SendFacts(n, source);
    var first := Next(n, Send(source, false));
    ReachesOn(start, first, Send(source, false));
    SendFacts(first, source);
    sent := Next(first, Send(source, false));
  }

  lemma {:induction false} ProgressMessages(job: Job, x: Progress) returns (snapshot: ProtocolState)
    requires x.protocol in job.protocols
    ensures Messages(job, ProtocolProgress(x)) == [OfProtocol(snapshot), OfJob(OverviewOf(Applied(job, ProtocolProgress(x))))]
  {
    hide SumOf, CompletedCount;
    snapshot := Applied(job, ProtocolProgress(x)).protocols[x.protocol];
  }

  /** A worker of p with a first progress to report. */
  ghost predicate TellsFirst(n: Net, p: Protocol, w: M.Worker) {
    && Has(n) && ControlOf(n).stage == M.Forked && p in ControlOf(n).workers && ControlOf(n).workers[p] == w && w.Working?
    && w.pos == 2 < |w.script| && w.script[2].Progress? && w.script[2].stats.findings == 1 && ReadAll(w.script, 2).counts == Counts(0, 0, 0)
  }

  /** It reports: new counts, and the two messages that follow. */
  lemma {:induction false} TellFirst(start: Net, n: Net, p: Protocol, w: M.Worker) returns (next: Net, snapshot: ProtocolState)
    requires ReachableFrom(start, n) && !n.dropped && TellsFirst(n, p, w) && PendingOf(n, WorkerFor(p)) == []
    ensures
      var a := Perform(M.Emit(n.id, p, ""));
      && Enabled(n, a) && next == Next(n, a) && ReachableFrom(start, next) && !next.dropped && next.id == n.id && Has(next)
      && NewCounts(n, a) && M.TotalsAtMost(JobOf(n).totals, JobOf(next).totals) && JobOf(n).totals != JobOf(next).totals
      && PendingOf(next, WorkerFor(p)) == [OfProtocol(snapshot), OfJob(OverviewOf(JobOf(next)))]
      && (forall s :: s != WorkerFor(p) ==> PendingOf(next, s) == PendingOf(n, s))
      && next.client == n.client
      && ControlOf(next).stage == M.Forked && ControlOf(next).workers == ControlOf(n).workers[p := M.Moved(w)]
  {
    hide ReachableFrom, Tidy, M.JobSound, Applied, Messages, M.TotalsAtMost, OverviewOf, SumOf;
    ReachedIsTidy(start, n);
    M.WorkerIn(JobOf(n), ControlOf(n), p);
    var a := Perform(M.Emit(n.id, p, ""));
    assert Enabled(n, a);
    next := Next(n, a);
    ReachesOn(start, n, a);
    StepIsOp(n, a.step);
    StageMoves(n, a.step);
    assert NewCounts(n, a);
    StepTotals(n, a);
    var stats := w.script[2].stats;
    snapshot := ProgressMessages(JobOf(n), Progress(p, stats.currentBlock, stats.findings, stats.verifiedFindings, stats.strictFindings));
  }

  /** Nothing was dropped and all is sent, and the client shows totals the job has left behind. */
  ghost predicate Outdated(n: Net) {
    && !n.dropped && AllSent(n) && Has(n)
    && M.TotalsAtMost(n.client.totals, JobOf(n).totals) && n.client.totals != JobOf(n).totals
  }

  /** Both report, p before q, and q's broadcasts overtake those of p. */
  lemma {:induction false} Overtake(start: Net, n: Net, p: Protocol, w: M.Worker, q: Protocol, v: M.Worker) returns (end: Net)
    requires Ready(start, n, p, w, q, v) && TellsFirst(n, p, w) && TellsFirst(n, q, v)
    ensures ReachableFrom(start, end) && Outdated(end)
  {
    hide ReachableFrom, Enabled, Next, NewCounts, ReadAll, M.TotalsAtMost, OverviewOf;
    var first, second, end1: Net;
    var x, y: ProtocolState;
    first, x := TellFirst(start, n, p, w);
    second, y := TellFirst(start, first, q, v);
    end1 := SendTwo(start, second, WorkerFor(q), y, OverviewOf(JobOf(second)));
    end := SendTwo(start, end1, WorkerFor(p), x, OverviewOf(JobOf(first)));
    OverviewTotals(JobOf(first));
  }

  lemma {:induction false} OverviewTotals(job: Job)
    ensures OverviewOf(job).totals == job.totals
  {
  }

  /** The overtaking happens: for any request of two protocols to an idle server and any two protocol
      runs that begin with a finding there is a run of the whole system in which nothing is dropped and
      everything is sent, and still the client shows totals the job has left behind. */
  lemma {:induction false} DelayedBroadcastShowsOldTotals(id: string, params: Params, p: Protocol, s: seq<R.Event>, q: Protocol,
                                                         t: seq<R.Event>) returns (actions: seq<Action>, states: seq<Net>)
    requires Refusal(map[], params).None? && p in params.protocols && q in params.protocols && p != q
    requires IsScript(s) && |s| > 1 && s[1].Finding?
    requires IsScript(t) && |t| > 1 && t[1].Finding?
    ensures IsRun(actions, states) && states[0].machine == M.Next(M.Machine(map[], map[]), M.Request(id, params)) && states[0].id == id
    ensures Outdated(states[|actions|])
  {
    hide IsStart, Enabled, Next, IsScript, ReadAll, M.Next, Outdated, Refusal;
    FindingThenProgress(s);
    FindingThenProgress(t);
    var start, n := LaunchTwo(id, params, p, s, q, t);
    n := EmitAndSend(start, n, p, M.Working(s, 0), q, M.Working(t, 0));
    n := EmitAndSend(start, n, q, M.Working(t, 0), p, M.Working(s, 1));
    n := EmitAndSend(start, n, p, M.Working(s, 1), q, M.Working(t, 1));
    n := EmitAndSend(start, n, q, M.Working(t, 1), p, M.Working(s, 2));
    var end := Overtake(start, n, p, M.Working(s, 2), q, M.Working(t, 2));
    actions, states :| IsRun(actions, states) && states[0] == start && states[|actions|] == end;
  }

  /** A run over one transaction with one candidate and no legs, on a chain that knows nothing else. */
  function OneCandidate(kind: Verifiers.Kind, tx: string): R.Task {
    R.Task(1, 1, true, 1, true, [Candidate(Key(tx, 0), 1, "", "", "", "", 1, None)], [],
           (c: Candidate, legs: seq<Leg>) => TraceVerifiers.TraceOutcome(kind, Chain(map[], map[], map[]), c, legs))
  }

  const EMPTY := R.Store(map[], map[], map[])

  lemma {:induction false} OneUpserted(kind: Verifiers.Kind, tx: string)
    ensures
      var t := OneCandidate(kind, tx);
      var r := R.UpsertStep(t, R.Prepared(t, R.Start(EMPTY, 6)));
      R.HasWork(t) && r.budget == 3 && !r.failed && R.ReplaceAll(t, r, [], 0) == r
  {
    hide R.Upserted;
  }

  lemma {:induction false} OneVerified(kind: Verifiers.Kind, tx: string, r: R.Run)
    requires r.budget == 3 && !r.failed
    ensures var v := R.VerifyAll(OneCandidate(kind, tx), r, 1); v.budget == 1 && !v.failed
  {
    hide R.LegsAt, R.WithLegs, R.Advance, R.BlockOf;
    var t := OneCandidate(kind, tx);
    var c := t.candidates[0];
    assert forall legs :: t.verify(c, legs) == Judged(Excluded("transaction_not_successful"), None);
    assert R.VerifyAll(t, r, 0) == r;
    assert R.VerifyAll(t, r, 1) == R.CandidateStep(t, r, c);
  }

  lemma {:induction false} OneAggregated(r: R.Run, txs: seq<string>)
    requires r.budget == 1 && !r.failed && |txs| == 1
    ensures !R.AggregateAll(r, txs, 1).failed
  {
    hide Aggregator.Summarize, Aggregator.RowsOf, R.Counted;
    assert R.AggregateAll(r, txs, 0) == r;
    assert R.AggregateAll(r, txs, 1) == R.AggregateStep(r, txs[0]);
  }

  lemma {:induction false} OneTx(c: Candidate)
    ensures R.TxOrder([c], 1) == [c.key.tx]
  {
    assert R.TxOrder([c], 0) == [];
  }

  lemma {:induction false} OneCandidateSucceeds(kind: Verifiers.Kind, tx: string)
    ensures R.HasWork(OneCandidate(kind, tx)) && !R.RunOf(OneCandidate(kind, tx), EMPTY, [], 6).failed
  {
    hide R.Prepared, R.UpsertStep, R.ReplaceAll, R.VerifyAll, R.AggregateAll, R.TxOrder;
    var t := OneCandidate(kind, tx);
    OneUpserted(kind, tx);
    var upserted := R.UpsertStep(t, R.Prepared(t, R.Start(EMPTY, 6)));
    assert !R.Prepared(t, R.Start(EMPTY, 6)).failed by { OnePrepared(kind, tx); }
    OneVerified(kind, tx, upserted);
    OneTx(t.candidates[0]);
    OneAggregated(R.VerifyAll(t, upserted, 1), [tx]);
  }

  lemma {:induction false} OnePrepared(kind: Verifiers.Kind, tx: string)
    ensures !R.Prepared(OneCandidate(kind, tx), R.Start(EMPTY, 6)).failed
  {
  }

  const TWO_PROTOCOLS := Params(1, 1, 1, true, [AaveV3, BalancerV2])

  lemma {:induction false} TwoAccepted()
    ensures Refusal(map[], TWO_PROTOCOLS).None? && AaveV3 in TWO_PROTOCOLS.protocols && BalancerV2 in TWO_PROTOCOLS.protocols
  {
  }

  /** In particular with the events of real protocol runs: one job over two protocols, each of which
      finds one transaction. */
  lemma {:induction false} DelayedInRealRuns(id: string) returns (actions: seq<Action>, states: seq<Net>)
    ensures IsRun(actions, states) && states[0].machine == M.Next(M.Machine(map[], map[]), M.Request(id, TWO_PROTOCOLS)) && states[0].id == id
    ensures Outdated(states[|actions|])
  {
    hide *;
    TwoAccepted();
    var s := FindingRun(Verifiers.Aave, "0x1");
    var t := FindingRun(Verifiers.Balancer, "0x2");
    actions, states := DelayedBroadcastShowsOldTotals(id, TWO_PROTOCOLS, AaveV3, s, BalancerV2, t);
  }

  lemma {:induction false} FindingRun(kind: Verifiers.Kind, tx: string) returns (events: seq<R.Event>)
    ensures events == R.RunOf(OneCandidate(kind, tx), EMPTY, [], 6).events && IsScript(events) && |events| > 1 && events[1].Finding?
  {
    hide R.RunOf, R.HasWork, IsScript;
    OneCandidateSucceeds(kind, tx);
    RunEvents.VerifiersKeepOrder(kind, Chain(map[], map[], map[]), OneCandidate(kind, tx));
    CleanRunTells(OneCandidate(kind, tx), EMPTY, [], 6);
    events := R.RunOf(OneCandidate(kind, tx), EMPTY, [], 6).events;
  }
}
