/** The scan server as interleaved steps (api/service/runner_bridge.go over job_manager.go): start
    requests, the goroutine of each job, and one worker per protocol that emits the events of a
    protocol run. A step is one critical section of the job manager; steps interleave freely. */
module ScanMachine {
  import opened Text
  import opened JobManager
  import opened RunScripts
  import R = ProtocolRunner

  /** A worker waits until its set-up is done; then it has a script of events to emit, which is empty
      when the set-up failed. */
  datatype Worker = Waiting | Working(script: seq<R.Event>, pos: nat)

  /** Created: CreateJob returned. Begun: marked as started, its goroutine runs. Forked: workers run.
      Joined: all workers are done, with or without an error. Done: the final status is recorded. */
  datatype Stage = Created | Begun | Forked | Joined(failed: bool) | Done

  datatype Control = Control(stage: Stage, workers: map<Protocol, Worker>)

  datatype Machine = Machine(jobs: map<string, Job>, control: map<string, Control>)

  datatype Action =
    | Request(id: string, params: Params)
    | Begin(id: string)
    | SetUpFails(id: string)
    | Fork(id: string)
    | Launch(id: string, protocol: Protocol, script: seq<R.Event>)
    | Emit(id: string, protocol: Protocol, message: string)
    | Join(id: string)
    | Finish(id: string, message: string)

  /** JobObserver: what the manager records for an event of a run. */
  function OpFor(p: Protocol, params: Params, e: R.Event, message: string): Op {
    match e
    case Started => ProtocolStarted(p, params.startBlock, params.endBlock)
    case Progress(s) => ProtocolProgress(Progress(p, s.currentBlock, s.findings, s.verifiedFindings, s.strictFindings))
    case Finding(s) => FindingRecorded(Finding(s.tx, p, R.BlockOf(s.block), s.verified, s.strict))
    case Completed(s) => ProtocolCompleted(Progress(p, s.currentBlock, s.findings, s.verifiedFindings, s.strictFindings))
    case Failed(block) => ProtocolFailed(p, block, message)
  }

  predicate Ended(w: Worker) {
    w.Working? && w.pos >= |w.script|
  }

  /** RunOnce returned an error, or the worker failed before it could call it. */
  predicate Errs(w: Worker) {
    w.Working? && (w.script == [] || w.script[|w.script| - 1].Failed?)
  }

  predicate AllEnded(workers: map<Protocol, Worker>) {
    forall p :: p in workers ==> Ended(workers[p])
  }

  predicate AnyErrs(workers: map<Protocol, Worker>) {
    exists p :: p in workers && Errs(workers[p])
  }

  /** A job is begun once, right after its request. Recording a start has no guard of its own and would
      make a finished job active again, so that at most one job is active rests on this. */
  predicate Enabled(m: Machine, a: Action) {
    match a
    case Request(id, _) => id !in m.jobs && id !in m.control
    case Begin(id) => At(m, id, Created)
    case SetUpFails(id) => At(m, id, Begun)
    case Fork(id) => At(m, id, Begun)
    case Launch(id, p, script) =>
      At(m, id, Forked) && p in m.control[id].workers && m.control[id].workers[p].Waiting? && (script == [] || IsScript(script))
    case Emit(id, p, _) =>
      && At(m, id, Forked) && p in m.control[id].workers && p in m.jobs[id].protocols
      && m.control[id].workers[p].Working? && !Ended(m.control[id].workers[p])
    case Join(id) => At(m, id, Forked) && AllEnded(m.control[id].workers)
    case Finish(id, _) => At(m, id, Joined(false)) || At(m, id, Joined(true))
  }

  predicate At(m: Machine, id: string, stage: Stage) {
    id in m.jobs && id in m.control && m.control[id].stage == stage
  }

  function WorkerOf(workers: map<Protocol, Worker>, p: Protocol): Worker {
    if p in workers then workers[p] else Waiting
  }

  /** The job once the next event of a worker is recorded. */
  function Emitted(job: Job, p: Protocol, w: Worker, message: string): Job {
    if w.Working? && !Ended(w) then Applied(job, OpFor(p, job.params, w.script[w.pos], message)) else job
  }

  function Moved(w: Worker): Worker {
    if w.Working? then w.(pos := w.pos + 1) else w
  }

  /** The job and the control of one id after an enabled step about it. */
  function JobAfter(job: Job, c: Control, a: Action): (Job, Control) {
    match a
    case Request(_, _) => (job, c)
    case Begin(_) => (Applied(job, JobStarted), c.(stage := Begun))
    case SetUpFails(_) => (job, c.(stage := Joined(true)))
    case Fork(_) => (job, Control(Forked, map p | p in job.protocols :: Waiting))
    case Launch(_, p, script) => (job, c.(workers := c.workers[p := Working(script, 0)]))
    case Emit(_, p, message) =>
      (Emitted(job, p, WorkerOf(c.workers, p), message), c.(workers := c.workers[p := Moved(WorkerOf(c.workers, p))]))
    case Join(_) => (job, c.(stage := Joined(AnyErrs(c.workers))))
    case Finish(_, message) => (Applied(job, if c.stage == Joined(true) then JobFailed(message) else JobCompleted), c.(stage := Done))
  }

  function Next(m: Machine, a: Action): Machine
    requires Enabled(m, a)
  {
    if a.Request? then
      if Refusal(m.jobs, a.params).Some? then m
      else Machine(m.jobs[a.id := NewJob(a.id, a.params, Normalized(a.params.protocols).value)],
                   m.control[a.id := Control(Created, map[])])
    else
      var (job, c) := JobAfter(m.jobs[a.id], m.control[a.id], a);
      Machine(m.jobs[a.id := job], m.control[a.id := c])
  }

  /** A run of the machine: every action is enabled when it is taken. */
  ghost predicate IsRun(actions: seq<Action>, states: seq<Machine>) {
    && |states| == |actions| + 1 && states[0] == Machine(map[], map[])
    && forall i :: 0 <= i < |actions| ==> Enabled(states[i], actions[i]) && states[i + 1] == Next(states[i], actions[i])
  }

  // ---- the invariant ----

  function CountsIn(state: ProtocolState): Counts {
    Counts(state.candidates, state.verified, state.strict)
  }

  function FindingsBy(findings: seq<Finding>, p: Protocol): nat {
    if findings == [] then 0 else (if findings[0].protocol == p then 1 else 0) + FindingsBy(findings[1..], p)
  }

  function StatusAt(script: seq<R.Event>, pos: nat): Status
    requires pos <= |script|
  {
    if pos == 0 then Status.Pending
    else if pos < |script| then Status.Running
    else if script[pos - 1].Completed? then Status.Completed
    else Status.Failed
  }

  /** What a job shows of a protocol, with `told` findings of it, is what its worker has emitted so far. */
  ghost predicate WorkerShown(state: ProtocolState, told: nat, w: Worker) {
    match w
    case Waiting => state.status == Status.Pending && CountsIn(state) == Counts(0, 0, 0) && told == 0
    case Working(script, pos) =>
      && pos <= |script| && (script == [] || IsScript(script))
      && state.status == StatusAt(script, pos)
      && CountsIn(state) == ReadAll(script, pos).counts
      && told == ReadAll(script, pos).findings
  }

  ghost predicate WorkersShown(protocols: map<Protocol, ProtocolState>, findings: seq<Finding>, workers: map<Protocol, Worker>) {
    && workers.Keys <= protocols.Keys
    && (forall p :: p in protocols ==> WorkerShown(protocols[p], FindingsBy(findings, p), WorkerOf(workers, p)))
    && (forall p :: p !in protocols ==> FindingsBy(findings, p) == 0)
  }

  /** Every finding belongs to a known protocol. */
  ghost predicate FindingsCounted(findings: seq<Finding>) {
    |findings| == FindingsBy(findings, AaveV3) + FindingsBy(findings, BalancerV2) + FindingsBy(findings, UniswapV2)
  }

  ghost predicate AllCompleted(job: Job) {
    forall p :: p in job.protocols ==> job.protocols[p].status == Status.Completed
  }

  ghost predicate StageShown(job: Job, c: Control) {
    match c.stage
    case Created => job.status == Status.Pending && c.workers == map[]
    case Begun => job.status == Status.Running && c.workers == map[]
    case Forked => job.status == Status.Running && c.workers.Keys == job.protocols.Keys
    case Joined(failed) => job.status == Status.Running && AllEnded(c.workers) && (failed <==> !AllCompleted(job))
    case Done => AllEnded(c.workers) && (job.status == if AllCompleted(job) then Status.Completed else Status.Failed)
  }

  ghost predicate JobSound(job: Job, c: Control) {
    && IsKnown(job.protocols) && job.protocols != map[]
    && job.totals == SumOf(job.protocols)
    && StageShown(job, c)
    && WorkersShown(job.protocols, job.findings, c.workers)
    && FindingsCounted(job.findings)
  }

  ghost predicate AtMostOneActive(m: Machine) {
    forall a, b :: a in m.jobs && b in m.jobs && IsActive(m.jobs[a]) && IsActive(m.jobs[b]) ==> a == b
  }

  ghost predicate Sound(m: Machine) {
    && m.jobs.Keys == m.control.Keys
    && AtMostOneActive(m)
    && forall id :: id in m.jobs ==> JobSound(m.jobs[id], m.control[id])
  }

  // ---- every step keeps it ----

  lemma {:induction false} KnownProtocolsOf(params: Params)
    requires Normalized(params.protocols).Ok?
    ensures Normalized(params.protocols).value != []
    ensures forall p :: p in Normalized(params.protocols).value ==> !p.Unknown?
  {
    assert params.protocols[..|params.protocols|] == params.protocols;
    assert params.protocols[0] in Normalized(params.protocols).value;
  }

  lemma {:induction false} NewStates(id: string, params: Params, protocols: seq<Protocol>)
    requires protocols != [] && forall p :: p in protocols ==> !p.Unknown?
    ensures
      var job := NewJob(id, params, protocols);
      && IsKnown(job.protocols) && job.protocols != map[]
      && (forall p :: p in job.protocols ==> job.protocols[p].status == Status.Pending && CountsIn(job.protocols[p]) == Counts(0, 0, 0))
      && (forall p :: Part(job.protocols, p) == Totals(0, 0, 0))
  {
    assert protocols[0] in NewJob(id, params, protocols).protocols;
  }

  lemma {:induction false} NewTotals(protocols: map<Protocol, ProtocolState>)
    requires forall p :: Part(protocols, p) == Totals(0, 0, 0)
    ensures SumOf(protocols) == Totals(0, 0, 0)
  {
    hide Part;
  }

  lemma {:induction false} NewJobSound(id: string, params: Params)
    requires Normalized(params.protocols).Ok?
    ensures JobSound(NewJob(id, params, Normalized(params.protocols).value), Control(Created, map[]))
  {
    hide Normalized, SumOf, Part, IsKnown;
    KnownProtocolsOf(params);
    NewStates(id, params, Normalized(params.protocols).value);
    NewTotals(NewJob(id, params, Normalized(params.protocols).value).protocols);
  }

  /** The state of a protocol after an operation on it. */
  function StateAfter(state: ProtocolState, op: Op): ProtocolState
    requires About(op).Some?
  {
    match op
    case ProtocolStarted(p, start, end) => state.(protocol := p, status := Status.Running, startBlock := start, endBlock := end, currentBlock := start)
    case ProtocolProgress(x) => Progressed(state, x, Status.Running).(protocol := x.protocol)
    case FindingRecorded(f) => state.(protocol := f.protocol, latestFinding := Some(f))
    case ProtocolCompleted(x) => Progressed(state, x, Status.Completed).(protocol := x.protocol)
    case ProtocolFailed(p, current, message) => state.(protocol := p, status := Status.Failed, currentBlock := current, error := message)
  }

  lemma {:induction false} AppliedShape(job: Job, op: Op)
    requires Applies(job, op) && About(op).Some?
    ensures
      var p, after := About(op).value, Applied(job, op);
      && after.protocols == job.protocols[p := StateAfter(job.protocols[p], op)]
      && after.status == job.status && after.params == job.params
      && after.findings == (if op.FindingRecorded? then [op.finding] + job.findings else job.findings)
      && after.totals == if op.ProtocolStarted? || op.FindingRecorded? then job.totals else SumOf(after.protocols)
  {
    hide SumOf, Truncated;
  }

  /** One more event of a script: what is read, and the status that goes with it. */
  lemma {:induction false} OneMoreRead(script: seq<R.Event>, pos: nat)
    requires IsScript(script) && pos < |script|
    ensures
      var e, before, after := script[pos], ReadAll(script, pos), ReadAll(script, pos + 1);
      && after.findings == before.findings + (if e.Finding? then 1 else 0)
      && after.counts == (if e.Progress? || e.Completed? then CountsOf(e.stats) else before.counts)
      && AtMost(before.counts, after.counts)
      && StatusAt(script, pos + 1) == (if e.Completed? then Status.Completed else if e.Failed? then Status.Failed else Status.Running)
      && (e.Finding? ==> StatusAt(script, pos) == Status.Running)
  {
    ScriptReads(script, pos);
    ScriptReads(script, pos + 1);
    hide IsScript;
  }

  /** Emitting an event moves what the job shows of the protocol along with the worker. */
  lemma {:induction false} EmitShown(params: Params, state: ProtocolState, told: nat, p: Protocol, w: Worker,
                                     message: string)
    requires w.Working? && !Ended(w) && WorkerShown(state, told, w)
    ensures
      var op := OpFor(p, params, w.script[w.pos], message);
      && About(op) == Some(p)
      && WorkerShown(StateAfter(state, op), told + (if op.FindingRecorded? then 1 else 0), Moved(w))
      && (op.ProtocolStarted? || op.FindingRecorded? ==> CountsIn(StateAfter(state, op)) == CountsIn(state))
      && (op.FindingRecorded? ==> op.finding.protocol == p)
      && AtMost(CountsIn(state), CountsIn(StateAfter(state, op)))
  {
    OneMoreRead(w.script, w.pos);
    hide IsScript, ReadAll, StatusAt;
  }

  lemma {:induction false} SumSame(a: map<Protocol, ProtocolState>, p: Protocol, state: ProtocolState)
    requires p in a && CountsIn(state) == CountsIn(a[p])
    ensures SumOf(a[p := state]) == SumOf(a)
  {
    hide Sum3;
  }

  lemma {:induction false} FindingAdded(findings: seq<Finding>, f: Finding, q: Protocol)
    ensures FindingsBy([f] + findings, q) == FindingsBy(findings, q) + if f.protocol == q then 1 else 0
  {
    assert ([f] + findings)[1..] == findings;
  }

  lemma {:induction false} FindingCounted(findings: seq<Finding>, f: Finding)
    requires FindingsCounted(findings) && !f.protocol.Unknown?
    ensures FindingsCounted([f] + findings)
  {
    FindingAdded(findings, f, AaveV3);
    FindingAdded(findings, f, BalancerV2);
    FindingAdded(findings, f, UniswapV2);
    hide FindingsBy;
  }

  /** The workers after one of them emitted: its state is updated, the others' are as before. */
  lemma {:induction false} OthersShown(protocols: map<Protocol, ProtocolState>, findings: seq<Finding>,
                                       workers: map<Protocol, Worker>,
                                       p: Protocol, state: ProtocolState, w: Worker, more: seq<Finding>)
    requires WorkersShown(protocols, findings, workers) && p in protocols
    requires WorkerShown(state, FindingsBy(more, p), w)
    requires forall q :: q != p ==> FindingsBy(more, q) == FindingsBy(findings, q)
    ensures WorkersShown(protocols[p := state], more, workers[p := w])
  {
    hide WorkerShown, FindingsBy;
  }

  lemma {:induction false} EmitSound(job: Job, c: Control, p: Protocol, message: string)
    requires p in c.workers && c.workers[p].Working? && !Ended(c.workers[p])
    requires c.stage == Forked && JobSound(job, c)
    ensures JobSound(Emitted(job, p, c.workers[p], message), c.(workers := c.workers[p := Moved(c.workers[p])]))
  {
    hide Applied, OpFor, SumOf, FindingsBy, WorkerShown, StateAfter, FindingsCounted, JobSound, Moved;
    var w, told := c.workers[p], FindingsBy(job.findings, p);
    WorkerIn(job, c, p);
    var op := OpFor(p, job.params, w.script[w.pos], message);
    EmitShown(job.params, job.protocols[p], told, p, w, message);
    var state := StateAfter(job.protocols[p], op);
    AppliedShape(job, op);
    var after := Applied(job, op);
    EmitFindings(job, after, op, p);
    if op.ProtocolStarted? || op.FindingRecorded? {
      SumSame(job.protocols, p, state);
    }
    hide WorkersShown;
    OthersShown(job.protocols, job.findings, c.workers, p, state, Moved(w), after.findings);
    EmittedSound(job, c, p, Moved(w), after);
  }

  lemma {:induction false} WorkerIn(job: Job, c: Control, p: Protocol)
    requires JobSound(job, c) && p in c.workers
    ensures p in job.protocols && !p.Unknown? && WorkerShown(job.protocols[p], FindingsBy(job.findings, p), c.workers[p])
    ensures WorkersShown(job.protocols, job.findings, c.workers) && FindingsCounted(job.findings) && job.totals == SumOf(job.protocols)
  {
    hide WorkerShown, FindingsBy, SumOf, FindingsCounted;
    assert p in c.workers.Keys && WorkerOf(c.workers, p) == c.workers[p];
  }

  lemma {:induction false} EmitFindings(job: Job, after: Job, op: Op, p: Protocol)
    requires FindingsCounted(job.findings) && !p.Unknown? && (op.FindingRecorded? ==> op.finding.protocol == p)
    requires after.findings == if op.FindingRecorded? then [op.finding] + job.findings else job.findings
    ensures FindingsCounted(after.findings)
    ensures forall q :: FindingsBy(after.findings, q) == FindingsBy(job.findings, q) + if op.FindingRecorded? && q == p then 1 else 0
  {
    hide FindingsBy, FindingsCounted;
    if op.FindingRecorded? {
      FindingCounted(job.findings, op.finding);
      forall q ensures FindingsBy(after.findings, q) == FindingsBy(job.findings, q) + if q == p then 1 else 0 {
        FindingAdded(job.findings, op.finding, q);
      }
    }
  }

  lemma {:induction false} EmittedSound(job: Job, c: Control, p: Protocol, w: Worker, after: Job)
    requires JobSound(job, c) && c.stage == Forked && p in c.workers && p in after.protocols
    requires after.status == job.status && after.totals == SumOf(after.protocols) && after.protocols.Keys == job.protocols.Keys
    requires WorkersShown(after.protocols, after.findings, c.workers[p := w]) && FindingsCounted(after.findings)
    ensures JobSound(after, c.(workers := c.workers[p := w]))
  {
    hide SumOf, WorkersShown, FindingsCounted;
    assert forall q :: q in after.protocols ==> q in job.protocols.Keys;
    assert c.workers[p := w].Keys == c.workers.Keys + {p} == c.workers.Keys by {
      assert p in c.workers.Keys;
    }
  }

  /** Operations on a job's own status leave its protocols and findings alone. */
  lemma {:induction false} StatusShape(job: Job, op: Op)
    requires About(op).None?
    ensures
      var after := Applied(job, op);
      && after.protocols == job.protocols && after.findings == job.findings && after.totals == job.totals
      && after.status == if op.JobStarted? then Status.Running else if op.JobCompleted? then Status.Completed else Status.Failed
  {
    hide Truncated;
  }

  lemma {:induction false} StatusSound(job: Job, c: Control, op: Op, stage: Stage)
    requires JobSound(job, c) && About(op).None? && StageShown(Applied(job, op), c.(stage := stage))
    ensures JobSound(Applied(job, op), c.(stage := stage))
  {
    StatusShape(job, op);
    hide Applied, SumOf, WorkersShown, FindingsCounted, StageShown;
  }

  lemma {:induction false} ForkSound(job: Job, c: Control)
    requires JobSound(job, c) && c.stage == Begun
    ensures JobSound(job, Control(Forked, map p | p in job.protocols :: Waiting))
  {
    hide WorkerShown, SumOf, FindingsBy, FindingsCounted;
  }

  lemma {:induction false} LaunchSound(job: Job, c: Control, p: Protocol, script: seq<R.Event>)
    requires JobSound(job, c) && c.stage == Forked && p in c.workers && c.workers[p] == Waiting && (script == [] || IsScript(script))
    ensures JobSound(job, c.(workers := c.workers[p := Working(script, 0)]))
  {
    hide WorkerShown, SumOf, FindingsBy, FindingsCounted, IsScript, JobSound, WorkersShown;
    WorkerIn(job, c, p);
    LaunchShown(job.protocols[p], FindingsBy(job.findings, p), script);
    OthersShown(job.protocols, job.findings, c.workers, p, job.protocols[p], Working(script, 0), job.findings);
    assert job.protocols[p := job.protocols[p]] == job.protocols;
    EmittedSound(job, c, p, Working(script, 0), job);
  }

  lemma {:induction false} LaunchShown(state: ProtocolState, told: nat, script: seq<R.Event>)
    requires WorkerShown(state, told, Waiting) && (script == [] || IsScript(script))
    ensures WorkerShown(state, told, Working(script, 0))
  {
  }

  /** A worker that is done failed exactly when its protocol is not completed. */
  lemma {:induction false} EndedShown(state: ProtocolState, told: nat, w: Worker)
    requires WorkerShown(state, told, w) && Ended(w)
    ensures Errs(w) <==> state.status != Status.Completed
    ensures state.status == Status.Completed ==> state.candidates == told
  {
    if w.script != [] {
      ScriptReads(w.script, |w.script|);
    }
    hide IsScript, ReadAll;
  }

  /** Once all workers are done, one of them failed exactly when some protocol is not completed. */
  lemma {:induction false} JoinSound(job: Job, c: Control)
    requires JobSound(job, c) && c.stage == Forked && AllEnded(c.workers)
    ensures JobSound(job, c.(stage := Joined(AnyErrs(c.workers))))
  {
    hide WorkerShown, SumOf, FindingsBy, FindingsCounted, Ended, Errs;
    forall p | p in job.protocols ensures p in c.workers && (Errs(c.workers[p]) <==> job.protocols[p].status != Status.Completed) {
      assert p in c.workers.Keys;
      assert WorkerOf(c.workers, p) == c.workers[p];
      EndedShown(job.protocols[p], FindingsBy(job.findings, p), c.workers[p]);
    }
    forall p | p in c.workers ensures p in job.protocols {
      assert p in c.workers.Keys;
    }
    hide WorkersShown;
    if !AllCompleted(job) {
      var p :| p in job.protocols && job.protocols[p].status != Status.Completed;
      assert Errs(c.workers[p]);
    }
  }

  lemma {:induction false} SetUpSound(job: Job, c: Control)
    requires JobSound(job, c) && c.stage == Begun
    ensures JobSound(job, c.(stage := Joined(true)))
  {
    hide SumOf, FindingsBy, FindingsCounted;
    var p :| p in job.protocols;
    assert WorkerOf(c.workers, p) == Waiting;
    assert WorkerShown(job.protocols[p], FindingsBy(job.findings, p), Waiting);
  }

  /** A job is active exactly until it is done. */
  lemma {:induction false} ActiveUntilDone(job: Job, c: Control)
    requires JobSound(job, c)
    ensures StageShown(job, c) && (IsActive(job) <==> c.stage != Done)
  {
    hide SumOf, WorkersShown, FindingsCounted, AllEnded;
  }

  lemma {:induction false} BeginSound(job: Job, c: Control)
    requires JobSound(job, c) && c.stage == Created
    ensures JobSound(Applied(job, JobStarted), c.(stage := Begun))
  {
    hide Applied, JobSound, AllEnded;
    ActiveUntilDone(job, c);
    StatusShape(job, JobStarted);
    StatusSound(job, c, JobStarted, Begun);
  }

  lemma {:induction false} FinishSound(job: Job, c: Control, message: string)
    requires c.stage.Joined? && JobSound(job, c)
    ensures JobSound(Applied(job, if c.stage.failed then JobFailed(message) else JobCompleted), c.(stage := Done))
  {
    hide Applied, JobSound, AllEnded;
    var op := if c.stage.failed then JobFailed(message) else JobCompleted;
    ActiveUntilDone(job, c);
    StatusShape(job, op);
    SameProtocols(job, Applied(job, op));
    hide AllCompleted;
    StatusSound(job, c, op, Done);
  }

  lemma {:induction false} SameProtocols(a: Job, b: Job)
    requires a.protocols == b.protocols
    ensures AllCompleted(a) <==> AllCompleted(b)
  {
  }

  /** A step about a job keeps it sound. No step is about a job that is done. */
  lemma {:induction false} JobStepSound(m: Machine, a: Action)
    requires Enabled(m, a) && !a.Request? && JobSound(m.jobs[a.id], m.control[a.id])
    ensures var (job, c) := JobAfter(m.jobs[a.id], m.control[a.id], a); JobSound(job, c)
    ensures m.control[a.id].stage != Done
  {
    hide JobSound, Applied, IsScript, Emitted, Moved;
    var job, c := m.jobs[a.id], m.control[a.id];
    match a {
      case Begin(_) => BeginSound(job, c);
      case SetUpFails(_) => SetUpSound(job, c);
      case Fork(_) => ForkSound(job, c);
      case Launch(_, p, script) => LaunchSound(job, c, p, script);
      case Emit(_, p, message) => EmitSound(job, c, p, message);
      case Join(_) => JoinSound(job, c);
      case Finish(_, message) => FinishSound(job, c, message);
    }
  }

  lemma {:induction false} RequestSound(m: Machine, a: Action)
    requires Sound(m) && Enabled(m, a) && a.Request? && Refusal(m.jobs, a.params).None?
    ensures Sound(Next(m, a))
  {
    hide JobSound, JobAfter, Normalized;
    NewJobSound(a.id, a.params);
  }

  lemma {:induction false} StepSound(m: Machine, a: Action)
    requires Sound(m) && Enabled(m, a)
    ensures Sound(Next(m, a))
  {
    hide JobSound, JobAfter, Refusal, Normalized, NewJob;
    if a.Request? {
      if Refusal(m.jobs, a.params).None? {
        RequestSound(m, a);
      }
    } else {
      var (job, c) := JobAfter(m.jobs[a.id], m.control[a.id], a);
      JobStepSound(m, a);
      ActiveUntilDone(m.jobs[a.id], m.control[a.id]);
    }
  }

  lemma {:induction false} RunSound(actions: seq<Action>, states: seq<Machine>, k: nat)
    requires IsRun(actions, states) && k <= |actions|
    ensures Sound(states[k])
  {
    hide Enabled, Next, Sound;
    if k == 0 {
      NothingSound();
    } else {
      RunSound(actions, states, k - 1);
      StepSound(states[k - 1], actions[k - 1]);
      assert states[k - 1 + 1] == Next(states[k - 1], actions[k - 1]);
    }
  }

  lemma {:induction false} NothingSound()
    ensures Sound(Machine(map[], map[]))
  {
  }

  // ---- what holds in every run ----

  ghost predicate TotalsAtMost(a: Totals, b: Totals) {
    a.candidates <= b.candidates && a.verified <= b.verified && a.strict <= b.strict
  }

  /** The counts of one protocol are in order and no more than its findings; once it is completed they
      are all of them. */
  lemma {:induction false} PartInOrder(job: Job, c: Control, p: Protocol)
    requires JobSound(job, c)
    ensures
      var part := Part(job.protocols, p);
      && part.strict <= part.verified <= part.candidates <= FindingsBy(job.findings, p)
      && (p in job.protocols && job.protocols[p].status == Status.Completed ==> part.candidates == FindingsBy(job.findings, p))
  {
    hide SumOf, FindingsBy, FindingsCounted, StageShown;
    if p in job.protocols {
      assert WorkerShown(job.protocols[p], FindingsBy(job.findings, p), WorkerOf(c.workers, p));
      ShownInOrder(job.protocols[p], FindingsBy(job.findings, p), WorkerOf(c.workers, p));
    }
  }

  lemma {:induction false} ShownInOrder(state: ProtocolState, told: nat, w: Worker)
    requires WorkerShown(state, told, w)
    ensures state.strict <= state.verified <= state.candidates <= told
    ensures state.status == Status.Completed ==> state.candidates == told
  {
    if w.Working? && w.script != [] {
      ScriptReads(w.script, w.pos);
    }
    hide IsScript;
  }

  lemma {:induction false} PartComplete(job: Job, c: Control, p: Protocol)
    requires JobSound(job, c) && AllCompleted(job)
    ensures Part(job.protocols, p).candidates == FindingsBy(job.findings, p)
  {
    hide JobSound, FindingsBy, SumOf;
    PartInOrder(job, c, p);
    SoundSums(job, c);
  }

  lemma {:induction false} JobInOrder(job: Job, c: Control)
    requires JobSound(job, c)
    ensures job.totals.strict <= job.totals.verified <= job.totals.candidates <= |job.findings|
    ensures AllCompleted(job) ==> job.totals.candidates == |job.findings|
  {
    hide FindingsBy, Part, JobSound, AllCompleted;
    PartInOrder(job, c, AaveV3);
    PartInOrder(job, c, BalancerV2);
    PartInOrder(job, c, UniswapV2);
    SoundSums(job, c);
    if AllCompleted(job) {
      PartComplete(job, c, AaveV3);
      PartComplete(job, c, BalancerV2);
      PartComplete(job, c, UniswapV2);
    }
  }

  lemma {:induction false} SoundSums(job: Job, c: Control)
    requires JobSound(job, c)
    ensures job.totals == SumOf(job.protocols)
    ensures |job.findings| == FindingsBy(job.findings, AaveV3) + FindingsBy(job.findings, BalancerV2) + FindingsBy(job.findings, UniswapV2)
    ensures forall p :: p !in job.protocols ==> Part(job.protocols, p).candidates == FindingsBy(job.findings, p) == 0
  {
    hide FindingsBy, SumOf, WorkerShown, StageShown;
  }

  /** In every reachable state, under every interleaving: at most one job is pending or running; the
      totals of each job are the sums over its protocols, in order, and no more than its findings; a
      job that is no longer active has no live worker; it is completed exactly when every one of its
      protocols is, and then its totals count every finding. */
  lemma {:induction false} ScanSafe(actions: seq<Action>, states: seq<Machine>, k: nat)
    requires IsRun(actions, states) && k <= |actions|
    ensures
      var m := states[k];
      && AtMostOneActive(m) && m.jobs.Keys == m.control.Keys
      && forall id :: id in m.jobs ==>
           var job := m.jobs[id];
           && job.totals == SumOf(job.protocols)
           && job.totals.strict <= job.totals.verified <= job.totals.candidates <= |job.findings|
           && (!IsActive(job) ==>
                 && AllEnded(m.control[id].workers)
                 && (job.status == Status.Completed <==> AllCompleted(job))
                 && (job.status == Status.Completed ==> job.totals.candidates == |job.findings|))
  {
    hide Enabled, Next, JobSound, SumOf, AllEnded, AllCompleted;
    RunSound(actions, states, k);
    var m := states[k];
    forall id | id in m.jobs
      ensures
        var job := m.jobs[id];
        && job.totals == SumOf(job.protocols)
        && job.totals.strict <= job.totals.verified <= job.totals.candidates <= |job.findings|
        && (!IsActive(job) ==> AllEnded(m.control[id].workers) && (job.status == Status.Completed <==> AllCompleted(job)))
        && (AllCompleted(job) ==> job.totals.candidates == |job.findings|)
    {
      assert id in m.control.Keys;
      ActiveUntilDone(m.jobs[id], m.control[id]);
      JobInOrder(m.jobs[id], m.control[id]);
      SoundSums(m.jobs[id], m.control[id]);
    }
  }

  lemma {:induction false} SumGrows(a: map<Protocol, ProtocolState>, p: Protocol, state: ProtocolState)
    requires p in a && !p.Unknown? && AtMost(CountsIn(a[p]), CountsIn(state))
    ensures TotalsAtMost(SumOf(a), SumOf(a[p := state]))
    ensures SumOf(a) == SumOf(a[p := state]) <==> CountsIn(state) == CountsIn(a[p])
  {
    PartGrows(a, p, state, AaveV3);
    PartGrows(a, p, state, BalancerV2);
    PartGrows(a, p, state, UniswapV2);
    var b := a[p := state];
    Sum3Grows(Part(a, AaveV3), Part(a, BalancerV2), Part(a, UniswapV2), Part(b, AaveV3), Part(b, BalancerV2), Part(b, UniswapV2));
    hide Part, Sum3, TotalsAtMost;
    match p {
      case AaveV3 =>
      case BalancerV2 =>
      case UniswapV2 =>
    }
  }

  lemma {:induction false} Sum3Grows(a: Totals, b: Totals, c: Totals, d: Totals, e: Totals, f: Totals)
    requires TotalsAtMost(a, d) && TotalsAtMost(b, e) && TotalsAtMost(c, f)
    ensures TotalsAtMost(Sum3(a, b, c), Sum3(d, e, f))
    ensures Sum3(a, b, c) == Sum3(d, e, f) <==> a == d && b == e && c == f
  {
  }

  lemma {:induction false} AtMostThrough(a: Totals, b: Totals, c: Totals)
    requires TotalsAtMost(a, b) && TotalsAtMost(b, c)
    ensures TotalsAtMost(a, c) && (a == c <==> a == b && b == c)
  {
  }

  lemma {:induction false} PartGrows(a: map<Protocol, ProtocolState>, p: Protocol, state: ProtocolState, q: Protocol)
    requires p in a && AtMost(CountsIn(a[p]), CountsIn(state))
    ensures TotalsAtMost(Part(a, q), Part(a[p := state], q))
    ensures q != p ==> Part(a[p := state], q) == Part(a, q)
    ensures q == p ==> (Part(a, q) == Part(a[p := state], q) <==> CountsIn(state) == CountsIn(a[p]))
  {
  }

  /** Recording an event never lowers the totals, and leaves them as they are exactly when it brings no
      new counts. */
  lemma {:induction false} EmitGrows(job: Job, c: Control, p: Protocol, message: string)
    requires p in c.workers && c.workers[p].Working? && !Ended(c.workers[p])
    requires JobSound(job, c)
    ensures TotalsAtMost(job.totals, Emitted(job, p, c.workers[p], message).totals)
    ensures
      var op := OpFor(p, job.params, c.workers[p].script[c.workers[p].pos], message);
      && About(op) == Some(p) && p in job.protocols
      && (job.totals == Emitted(job, p, c.workers[p], message).totals <==> CountsIn(StateAfter(job.protocols[p], op)) == CountsIn(job.protocols[p]))
  {
    hide Applied, OpFor, SumOf, FindingsBy, WorkerShown, StateAfter, FindingsCounted, JobSound, WorkersShown;
    var w := c.workers[p];
    WorkerIn(job, c, p);
    var op := OpFor(p, job.params, w.script[w.pos], message);
    EmitShown(job.params, job.protocols[p], FindingsBy(job.findings, p), p, w, message);
    AppliedShape(job, op);
    SumGrows(job.protocols, p, StateAfter(job.protocols[p], op));
  }

  /** One step never takes a job away or its totals down, and never touches a job that is done. */
  lemma {:induction false} StepKeepsJob(m: Machine, a: Action, id: string)
    requires Sound(m) && Enabled(m, a) && id in m.jobs
    ensures id in Next(m, a).jobs && TotalsAtMost(m.jobs[id].totals, Next(m, a).jobs[id].totals)
    ensures !IsActive(m.jobs[id]) ==> Next(m, a).jobs[id] == m.jobs[id]
  {
    hide JobSound, Applied, IsScript, Emitted, SumOf;
    assert id in m.control.Keys;
    ActiveUntilDone(m.jobs[id], m.control[id]);
    if !a.Request? && a.id == id {
      match a {
        case Begin(_) => StatusShape(m.jobs[id], JobStarted);
        case Emit(_, p, message) => EmitGrows(m.jobs[id], m.control[id], p, message);
        case Finish(_, message) =>
          StatusShape(m.jobs[id], JobFailed(message));
          StatusShape(m.jobs[id], JobCompleted);
        case _ =>
      }
    }
  }

  /** From one state of a run to any later one: jobs stay, their totals never fall, and a finished job
      never changes again. */
  lemma {:induction false} FinishedStays(actions: seq<Action>, states: seq<Machine>, i: nat, k: nat, id: string)
    requires IsRun(actions, states) && i <= k <= |actions| && id in states[i].jobs
    ensures id in states[k].jobs && TotalsAtMost(states[i].jobs[id].totals, states[k].jobs[id].totals)
    ensures !IsActive(states[i].jobs[id]) ==> states[k].jobs[id] == states[i].jobs[id]
  {
    hide Enabled, Next, Sound;
    if i < k {
      FinishedStays(actions, states, i, k - 1, id);
      RunSound(actions, states, k - 1);
      StepKeepsJob(states[k - 1], actions[k - 1], id);
      assert states[k - 1 + 1] == Next(states[k - 1], actions[k - 1]);
    }
  }
}
