/** Broadcasts leave the job manager after its lock is released, so the messages of different
    goroutines interleave and a full channel drops them. The scan machine with a subscriber to one
    of its jobs: what the client can still rely on. */
module ScanBroadcast {
  import opened Text
  import opened JobManager
  import opened ScanReplica
  import M = ScanMachine

  /** Who broadcasts: the goroutine of the job, or the worker of a protocol. */
  datatype Source = JobRoutine | WorkerFor(protocol: Protocol)

  /** The machine, what each source of job `id` has still to send, and the client, which receives what
      was sent and not dropped, in that order. `finalLost` says that the last overview was dropped. */
  datatype Net = Net(machine: M.Machine, id: string, pending: map<Source, seq<Message>>, client: Client, finalLost: bool, dropped: bool)

  datatype Action = Perform(step: M.Action) | Send(source: Source, drop: bool)

  predicate Has(n: Net) {
    n.id in n.machine.jobs && n.id in n.machine.control
  }

  function JobOf(n: Net): Job
    requires Has(n)
  {
    n.machine.jobs[n.id]
  }

  function ControlOf(n: Net): M.Control
    requires Has(n)
  {
    n.machine.control[n.id]
  }

  predicate Finished(n: Net)
    requires Has(n)
  {
    ControlOf(n).stage == M.Done
  }

  function PendingOf(n: Net, source: Source): seq<Message> {
    if source in n.pending then n.pending[source] else []
  }

  ghost predicate AllSent(n: Net) {
    forall s :: PendingOf(n, s) == []
  }

  predicate IsAbout(n: Net, step: M.Action) {
    !step.Request? && step.id == n.id
  }

  function SourceOf(step: M.Action): Source {
    if step.Launch? || step.Emit? then WorkerFor(step.protocol) else JobRoutine
  }

  /** The operation on the job that a step performs, if any. */
  function OpOf(job: Job, c: M.Control, step: M.Action): Option<Op> {
    match step
    case Begin(_) => Some(JobStarted)
    case Emit(_, p, message) =>
      var w := M.WorkerOf(c.workers, p);
      if w.Working? && !M.Ended(w) then Some(M.OpFor(p, job.params, w.script[w.pos], message)) else None
    case Finish(_, message) => Some(if c.stage == M.Joined(true) then JobFailed(message) else JobCompleted)
    case _ => None
  }

  /** A goroutine works on once its own broadcasts are out; workers are joined once those of all are. */
  ghost predicate Enabled(n: Net, a: Action) {
    && Has(n)
    && match a
       case Perform(step) =>
         && M.Enabled(n.machine, step)
         && (IsAbout(n, step) ==> PendingOf(n, SourceOf(step)) == [])
         && (IsAbout(n, step) && step.Join? ==> AllSent(n))
       case Send(source, _) => PendingOf(n, source) != []
  }

  function Next(n: Net, a: Action): Net
    requires Enabled(n, a)
  {
    match a
    case Perform(step) =>
      var op := if IsAbout(n, step) then OpOf(JobOf(n), ControlOf(n), step) else None;
      n.(machine := M.Next(n.machine, step),
         pending := if op.Some? then n.pending[SourceOf(step) := Messages(JobOf(n), op.value)] else n.pending)
    case Send(source, drop) =>
      var ms := PendingOf(n, source);
      n.(pending := n.pending[source := ms[1..]],
         client := if drop then n.client else ApplyMessage(n.client, ms[0]),
         finalLost := n.finalLost || (drop && Finished(n) && ms[0].OfJob?),
         dropped := n.dropped || drop)
  }

  /** A job has just been created in a reachable machine, and the client follows it. */
  ghost predicate IsStart(n: Net) {
    && M.Sound(n.machine) && Has(n) && ControlOf(n) == M.Control(M.Created, map[])
    && (exists params: Params :: Normalized(params.protocols).Ok? && n.client == StartScan(params)
          && JobOf(n) == NewJob(n.id, params, Normalized(params.protocols).value))
    && n.pending == map[] && !n.finalLost && !n.dropped
  }

  ghost predicate IsRun(actions: seq<Action>, states: seq<Net>) {
    && |states| == |actions| + 1 && IsStart(states[0])
    && forall i :: 0 <= i < |actions| ==> Enabled(states[i], actions[i]) && states[i + 1] == Next(states[i], actions[i])
  }

  // ---- what a step does ----

  lemma {:induction false} StepIsOp(n: Net, step: M.Action)
    requires Enabled(n, Perform(step))
    ensures
      var next := Next(n, Perform(step));
      && Has(n) && Has(next) && next.id == n.id && next.client == n.client && next.finalLost == n.finalLost && next.dropped == n.dropped
      && (!IsAbout(n, step) ==> JobOf(next) == JobOf(n) && ControlOf(next) == ControlOf(n) && next.pending == n.pending)
      && (IsAbout(n, step) ==>
           var op := OpOf(JobOf(n), ControlOf(n), step);
           if op.Some? then JobOf(next) == Applied(JobOf(n), op.value) && PendingOf(next, SourceOf(step)) == Messages(JobOf(n), op.value)
           else JobOf(next) == JobOf(n) && PendingOf(next, SourceOf(step)) == [])
      && (forall s :: s != SourceOf(step) ==> PendingOf(next, s) == PendingOf(n, s))
  {
    hide Applied, Messages, M.OpFor, M.AllEnded, M.AnyErrs, Refusal;
  }

  lemma {:induction false} StepStaysSound(n: Net, a: Action)
    requires Enabled(n, a) && M.Sound(n.machine)
    ensures Has(Next(n, a)) && Next(n, a).id == n.id && M.Sound(Next(n, a).machine)
    ensures a.Send? ==> Next(n, a).machine == n.machine
    ensures JobOf(Next(n, a)).protocols.Keys == JobOf(n).protocols.Keys
  {
    hide Applied, Messages, M.Sound, M.Enabled, M.Next;
    if a.Perform? {
      M.StepSound(n.machine, a.step);
      StepIsOp(n, a.step);
      if IsAbout(n, a.step) && OpOf(JobOf(n), ControlOf(n), a.step).Some? {
        AppliedKeys(JobOf(n), OpOf(JobOf(n), ControlOf(n), a.step).value);
      }
    }
  }

  // ---- once everything is sent, the client shows the finished job ----

  /** What the client shows of the job, apart from findings and logs. */
  predicate Shows(c: Client, job: Job) {
    && c.status == job.status && c.error == job.error && c.totals == job.totals
    && c.completedProtocols == CompletedCount(job.protocols) && c.protocols == job.protocols
  }

  /** A message about the job: its protocols, and one of them. */
  predicate AboutJob(m: Message, keys: set<Protocol>) {
    && (m.OfJob? ==> m.overview.protocols.Keys == keys)
    && (m.OfProtocol? ==> m.snapshot.protocol in keys)
  }

  ghost predicate WorkersSilent(n: Net) {
    forall s :: s != JobRoutine ==> PendingOf(n, s) == []
  }

  ghost predicate Settling(n: Net)
    requires Has(n)
  {
    var ms := PendingOf(n, JobRoutine);
    && (|ms| == 2 ==> ms[0] == OfJob(OverviewOf(JobOf(n))) && ms[1].OfLog?)
    && (|ms| == 1 ==> ms[0].OfLog?)
    && |ms| <= 2
    && (|ms| < 2 && !n.finalLost ==> Shows(n.client, JobOf(n)))
  }

  ghost predicate Tidy(n: Net) {
    && Has(n) && M.Sound(n.machine)
    && n.client.protocols.Keys == JobOf(n).protocols.Keys
    && (forall s, m :: m in PendingOf(n, s) ==> AboutJob(m, JobOf(n).protocols.Keys))
    && (ControlOf(n).stage.Joined? || Finished(n) || ControlOf(n).stage.Created? || ControlOf(n).stage.Begun? ==> WorkersSilent(n))
    && (Finished(n) ==> Settling(n))
    && (n.finalLost ==> Finished(n) && n.dropped)
  }

  lemma {:induction false} StartTidy(n: Net)
    requires IsStart(n)
    ensures Tidy(n)
  {
    hide M.Sound;
    var params: Params :| Normalized(params.protocols).Ok? && n.client == StartScan(params) && JobOf(n) == NewJob(n.id, params, Normalized(params.protocols).value);
    hide OverviewOf;
    StartAgrees(n.id, params);
    hide StartScan, NewJob;
  }

  lemma {:induction false} MessagesAboutJob(job: Job, op: Op)
    ensures forall m :: m in Messages(job, op) ==> AboutJob(m, job.protocols.Keys)
    ensures op.JobCompleted? || op.JobFailed? ==> Messages(job, op) == [OfJob(OverviewOf(Applied(job, op))), OfLog(LogFor(op).value)]
  {
    hide SumOf, Truncated, CompletedCount, ExtractTxHash;
    AppliedKeys(job, op);
  }

  lemma {:induction false} MessageKeys(c: Client, m: Message, keys: set<Protocol>)
    requires c.protocols.Keys == keys && AboutJob(m, keys)
    ensures ApplyMessage(c, m).protocols.Keys == keys
  {
    hide Truncated, EnrichLog;
    if m.OfProtocol? {
      assert c.protocols[m.snapshot.protocol := m.snapshot].Keys == keys + {m.snapshot.protocol};
    }
  }

  lemma {:induction false} OverviewShows(c: Client, job: Job)
    requires c.protocols.Keys == job.protocols.Keys
    ensures Shows(ApplyMessage(c, OfJob(OverviewOf(job))), job)
  {
    hide CompletedCount;
    assert forall p :: p in c.protocols ==> p in c.protocols.Keys;
    assert c.protocols + job.protocols == job.protocols;
  }

  lemma {:induction false} LogShows(c: Client, job: Job, entry: LogEntry)
    requires Shows(c, job)
    ensures Shows(ApplyMessage(c, OfLog(entry)), job)
  {
    hide CompletedCount, Truncated, EnrichLog;
  }

  /** How a step moves the job through its stages. */
  lemma {:induction false} StageMoves(n: Net, step: M.Action)
    requires Enabled(n, Perform(step))
    ensures
      var next, before := Next(n, Perform(step)), ControlOf(n).stage;
      && Has(next)
      && (IsAbout(n, step) ==>
           && before != M.Done
           && (Finished(next) <==> step.Finish?) && (ControlOf(next).stage.Joined? <==> step.Join? || step.SetUpFails?)
           && (step.SetUpFails? || step.Fork? ==> before.Begun?) && (step.Begin? ==> before.Created?) && (step.Finish? ==> before.Joined?)
           && (ControlOf(next).stage.Begun? <==> step.Begin?) && !ControlOf(next).stage.Created?
           && (step.Launch? || step.Emit? || step.Join? ==> before.Forked?)
           && (step.Launch? || step.Emit? || step.Fork? <==> ControlOf(next).stage.Forked?))
      && (!IsAbout(n, step) ==> ControlOf(next) == ControlOf(n) && JobOf(next) == JobOf(n))
  {
    hide Applied, Messages, M.OpFor, M.AllEnded, M.AnyErrs, Refusal;
  }

  lemma {:induction false} PerformTidy(n: Net, step: M.Action)
    requires Tidy(n) && Enabled(n, Perform(step))
    ensures Tidy(Next(n, Perform(step)))
  {
    hide Applied, Messages, AboutJob, Shows, OverviewOf, M.Enabled, M.Next, M.Sound, Next;
    var next := Next(n, Perform(step));
    StepIsOp(n, step);
    StageMoves(n, step);
    StepStaysSound(n, Perform(step));
    if IsAbout(n, step) {
      var op := OpOf(JobOf(n), ControlOf(n), step);
      if op.Some? {
        MessagesAboutJob(JobOf(n), op.value);
      }
      forall s, m | m in PendingOf(next, s) ensures AboutJob(m, JobOf(n).protocols.Keys) {
        if s != SourceOf(step) {
          assert m in PendingOf(n, s);
        }
      }
    } else {
      assert forall s :: PendingOf(next, s) == PendingOf(n, s);
    }
  }

  lemma {:induction false} SendTidy(n: Net, source: Source, drop: bool)
    requires Tidy(n) && Enabled(n, Send(source, drop))
    ensures Tidy(Next(n, Send(source, drop)))
  {
    hide AboutJob, Shows, OverviewOf, ApplyMessage, M.Sound;
    var ms, next := PendingOf(n, source), Next(n, Send(source, drop));
    assert ms[0] in ms;
    MessageKeys(n.client, ms[0], JobOf(n).protocols.Keys);
    forall s, m | m in PendingOf(next, s) ensures AboutJob(m, JobOf(n).protocols.Keys) {
      assert m in PendingOf(n, s);
    }
    assert forall s :: s != source ==> PendingOf(next, s) == PendingOf(n, s);
    if Finished(n) {
      assert source == JobRoutine;
      assert PendingOf(next, JobRoutine) == ms[1..];
      if |ms| == 2 {
        OverviewShows(n.client, JobOf(n));
        assert ms[1..] == [ms[1]];
      } else if Shows(n.client, JobOf(n)) {
        LogShows(n.client, JobOf(n), ms[0].entry);
      }
    }
  }

  lemma {:induction false} RunTidy(actions: seq<Action>, states: seq<Net>, k: nat)
    requires IsRun(actions, states) && k <= |actions|
    ensures Tidy(states[k])
  {
    hide Enabled, Next, IsStart, Tidy;
    if k == 0 {
      StartTidy(states[0]);
    } else {
      RunTidy(actions, states, k - 1);
      assert states[k - 1 + 1] == Next(states[k - 1], actions[k - 1]);
      match actions[k - 1] {
        case Perform(step) => PerformTidy(states[k - 1], step);
        case Send(source, drop) => SendTidy(states[k - 1], source, drop);
      }
    }
  }

  /** However broadcasts interleave and whatever else is dropped: once a job has finished and its last
      overview was sent and not dropped, the client shows the job's status, error, totals and
      protocols as they are, latest findings included. */
  lemma {:induction false} FinishedJobIsShown(actions: seq<Action>, states: seq<Net>, k: nat)
    requires IsRun(actions, states) && k <= |actions| && Has(states[k])
    requires Finished(states[k]) && |PendingOf(states[k], JobRoutine)| < 2 && !states[k].finalLost
    ensures Shows(states[k].client, JobOf(states[k]))
  {
    hide Enabled, Next, Shows, IsStart, M.Sound;
    RunTidy(actions, states, k);
  }
  // ---- findings are neither lost nor repeated while nothing is dropped ----

  function FindingsIn(ms: seq<Message>): multiset<Finding> {
    if ms == [] then multiset{} else (if ms[0].OfFinding? then multiset{ms[0].finding} else multiset{}) + FindingsIn(ms[1..])
  }

  function PendingFindings(n: Net): multiset<Finding> {
    FindingsIn(PendingOf(n, JobRoutine)) + FindingsIn(PendingOf(n, WorkerFor(AaveV3)))
    + FindingsIn(PendingOf(n, WorkerFor(BalancerV2))) + FindingsIn(PendingOf(n, WorkerFor(UniswapV2)))
  }

  ghost predicate Conserved(n: Net)
    requires Has(n)
  {
    && multiset(JobOf(n).findings) == multiset(n.client.findings) + PendingFindings(n)
    && (forall s: Source :: s.WorkerFor? && s.protocol.Unknown? ==> PendingOf(n, s) == [])
  }

  lemma {:induction false} NoFindings(ms: seq<Message>)
    requires forall m :: m in ms ==> !m.OfFinding?
    ensures FindingsIn(ms) == multiset{}
  {
    if ms != [] {
      NoFindings(ms[1..]);
    }
  }

  lemma {:induction false} MessageFindings(job: Job, op: Op)
    requires Applies(job, op)
    ensures FindingsIn(Messages(job, op)) == if op.FindingRecorded? then multiset{op.finding} else multiset{}
    ensures multiset(Applied(job, op).findings) == multiset(job.findings) + FindingsIn(Messages(job, op))
  {
    hide SumOf, Truncated, CompletedCount, ExtractTxHash, OverviewOf;
    var ms := Messages(job, op);
    NoFindings(ms[1..]);
    if !op.FindingRecorded? {
      NoFindings(ms);
    } else {
      assert Applied(job, op).findings == [op.finding] + job.findings;
    }
  }

  lemma {:induction false} ClientFindings(c: Client, m: Message)
    ensures multiset(ApplyMessage(c, m).findings) == multiset(c.findings) + if m.OfFinding? then multiset{m.finding} else multiset{}
  {
    hide Truncated, EnrichLog;
  }

  /** Only the findings of one source can change in a step. */
  lemma {:induction false} PendingChange(n: Net, next: Net, source: Source)
    requires source.JobRoutine? || !source.protocol.Unknown?
    requires forall s :: s != source ==> PendingOf(next, s) == PendingOf(n, s)
    ensures PendingFindings(next) + FindingsIn(PendingOf(n, source)) == PendingFindings(n) + FindingsIn(PendingOf(next, source))
  {
    hide FindingsIn, PendingOf;
    if source.WorkerFor? {
      assert source.protocol == AaveV3 || source.protocol == BalancerV2 || source.protocol == UniswapV2;
    }
  }

  lemma {:induction false} Balance(job: multiset<Finding>, client: multiset<Finding>, pending: multiset<Finding>,
                                   more: multiset<Finding>, after: multiset<Finding>)
    requires job == client + pending && after + multiset{} == pending + more
    ensures job + more == client + after
  {
    assert after + multiset{} == after;
    assert (client + pending) + more == client + (pending + more);
  }

  lemma {:induction false} Shift(job: multiset<Finding>, client: multiset<Finding>, pending: multiset<Finding>,
                                 sent: multiset<Finding>, rest: multiset<Finding>, after: multiset<Finding>)
    requires job == client + pending && after + (sent + rest) == pending + rest
    ensures job == client + sent + after
  {
    assert after + sent == pending by {
      assert (after + sent) + rest == pending + rest;
      forall f: Finding ensures (after + sent)[f] == pending[f] {
        assert ((after + sent) + rest)[f] == (pending + rest)[f];
      }
    }
  }

  lemma {:induction false} OpIsAbout(job: Job, c: M.Control, step: M.Action)
    ensures var op := OpOf(job, c, step); op.Some? ==> About(op.value) == if step.Emit? then Some(step.protocol) else None
  {
  }

  /** Only known protocols have workers, so no step belongs to another source. */
  lemma {:induction false} SourceKnown(n: Net, step: M.Action)
    requires Tidy(n) && Enabled(n, Perform(step)) && IsAbout(n, step)
    ensures SourceOf(step).JobRoutine? || !SourceOf(step).protocol.Unknown?
    ensures FindingsIn(PendingOf(n, SourceOf(step))) == multiset{}
    ensures var op := OpOf(JobOf(n), ControlOf(n), step); op.Some? ==> Applies(JobOf(n), op.value)
  {
    hide FindingsIn, AboutJob, Settling, M.WorkersShown, SumOf, M.FindingsCounted, M.AllEnded, M.AllCompleted, M.StageShown, Messages, Applied, M.Next, Refusal;
    assert FindingsIn([]) == multiset{} by {
      NoFindings([]);
    }
    hide OpOf, PendingOf;
    assert M.JobSound(JobOf(n), ControlOf(n));
    OpIsAbout(JobOf(n), ControlOf(n), step);
    if step.Launch? || step.Emit? {
      M.WorkerIn(JobOf(n), ControlOf(n), step.protocol);
    }
  }

  lemma {:induction false} PerformConserves(n: Net, step: M.Action)
    requires Has(n) && Tidy(n) && Conserved(n) && Enabled(n, Perform(step))
    ensures Has(Next(n, Perform(step))) && Conserved(Next(n, Perform(step)))
  {
    hide Applied, Messages, PendingFindings, FindingsIn, Enabled, Next, PendingOf, Applies, Tidy, OpOf, SourceOf;
    var next := Next(n, Perform(step));
    StepIsOp(n, step);
    if IsAbout(n, step) {
      var op := OpOf(JobOf(n), ControlOf(n), step);
      SourceKnown(n, step);
      if op.Some? {
        MessageFindings(JobOf(n), op.value);
      } else {
        NoFindings([]);
      }
      PendingChange(n, next, SourceOf(step));
      Balance(multiset(JobOf(n).findings), multiset(n.client.findings), PendingFindings(n), FindingsIn(PendingOf(next, SourceOf(step))), PendingFindings(next));
    } else {
      SamePending(n, next);
    }
  }

  lemma {:induction false} SamePending(n: Net, next: Net)
    requires next.pending == n.pending
    ensures PendingFindings(next) == PendingFindings(n) && forall s :: PendingOf(next, s) == PendingOf(n, s)
  {
    hide FindingsIn;
  }

  lemma {:induction false} HeadFindings(ms: seq<Message>)
    requires ms != []
    ensures FindingsIn(ms) == (if ms[0].OfFinding? then multiset{ms[0].finding} else multiset{}) + FindingsIn(ms[1..])
  {
  }

  lemma {:induction false} SendFacts(n: Net, source: Source)
    requires Enabled(n, Send(source, false))
    ensures
      var ms, next := PendingOf(n, source), Next(n, Send(source, false));
      && ms != [] && next.machine == n.machine && next.id == n.id && PendingOf(next, source) == ms[1..]
      && next.client == ApplyMessage(n.client, ms[0]) && next.dropped == n.dropped
      && forall s :: s != source ==> PendingOf(next, s) == PendingOf(n, s)
  {
    hide ApplyMessage;
  }

  lemma {:induction false} SendConserves(n: Net, source: Source)
    requires Has(n) && Conserved(n) && Enabled(n, Send(source, false))
    ensures Has(Next(n, Send(source, false))) && Conserved(Next(n, Send(source, false)))
  {
    hide ApplyMessage, PendingFindings, FindingsIn, Enabled, Next, PendingOf;
    var ms, next := PendingOf(n, source), Next(n, Send(source, false));
    SendFacts(n, source);
    HeadFindings(ms);
    ClientFindings(n.client, ms[0]);
    PendingChange(n, next, source);
    Shift(multiset(JobOf(n).findings), multiset(n.client.findings), PendingFindings(n),
          if ms[0].OfFinding? then multiset{ms[0].finding} else multiset{}, FindingsIn(ms[1..]), PendingFindings(next));
  }

  lemma {:induction false} StartConserves(n: Net)
    requires IsStart(n)
    ensures Has(n) && Conserved(n)
  {
    hide M.Sound, Normalized;
  }

  lemma {:induction false} DroppedStays(n: Net, a: Action)
    requires Enabled(n, a)
    ensures n.dropped || (a.Send? && a.drop) ==> Next(n, a).dropped
  {
    hide ApplyMessage, M.Next, M.Enabled, OpOf, Messages;
  }

  lemma {:induction false} RunConserves(actions: seq<Action>, states: seq<Net>, k: nat)
    requires IsRun(actions, states) && k <= |actions| && !states[k].dropped
    ensures Has(states[k]) && Conserved(states[k])
  {
    hide Enabled, Next, IsStart, Conserved, Tidy;
    if k == 0 {
      StartConserves(states[0]);
    } else {
      assert states[k - 1 + 1] == Next(states[k - 1], actions[k - 1]);
      DroppedStays(states[k - 1], actions[k - 1]);
      RunConserves(actions, states, k - 1);
      RunTidy(actions, states, k - 1);
      match actions[k - 1] {
        case Perform(step) => PerformConserves(states[k - 1], step);
        case Send(source, drop) => SendConserves(states[k - 1], source);
      }
    }
  }

  /** As long as nothing is dropped, whatever the interleaving: once all broadcasts are out the client
      lists exactly the job's findings, each as often as the job does. Only their order may differ. */
  lemma {:induction false} FindingsConserved(actions: seq<Action>, states: seq<Net>, k: nat)
    requires IsRun(actions, states) && k <= |actions| && !states[k].dropped && AllSent(states[k])
    ensures Has(states[k]) && multiset(states[k].client.findings) == multiset(JobOf(states[k]).findings)
  {
    hide Enabled, Next, IsStart;
    RunConserves(actions, states, k);
  }

  /** A job that has finished, seen from a client that lost nothing: it shows the job as completed
      exactly when every protocol it shows is, its totals are in order and no more than the findings
      it lists, and those of a completed job count all of them. */
  lemma {:induction false} FinishedClientIsRight(actions: seq<Action>, states: seq<Net>, k: nat)
    requires IsRun(actions, states) && k <= |actions| && Has(states[k]) && Finished(states[k])
    requires !states[k].dropped && AllSent(states[k])
    ensures
      var c := states[k].client;
      && (c.status == Status.Completed <==> forall p :: p in c.protocols ==> c.protocols[p].status == Status.Completed)
      && (c.status == Status.Completed || c.status == Status.Failed)
      && c.totals == SumOf(c.protocols)
      && c.totals.strict <= c.totals.verified <= c.totals.candidates <= |c.findings|
      && (c.status == Status.Completed ==> c.totals.candidates == |c.findings|)
  {
    hide Enabled, Next, IsStart, SumOf, Settling, CompletedCount, M.JobSound;
    var n := states[k];
    RunTidy(actions, states, k);
    FinishedJobIsShown(actions, states, k);
    FindingsConserved(actions, states, k);
    assert |n.client.findings| == |multiset(n.client.findings)| == |multiset(JobOf(n).findings)| == |JobOf(n).findings|;
    M.JobInOrder(JobOf(n), ControlOf(n));
    M.ActiveUntilDone(JobOf(n), ControlOf(n));
    M.SoundSums(JobOf(n), ControlOf(n));
  }
}
