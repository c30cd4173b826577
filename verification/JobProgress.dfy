/** What a job shows of each of its workers, event by event: its blocks, its latest finding and the
    findings it told; when requests are refused; and what a subscriber's channel holds. */
module JobProgress {
  import opened Text
  import opened JobManager
  import M = ScanMachine
  import R = ProtocolRunner
  import A = Aggregator
  import opened RunScripts

  // ---- what the events of a worker say ----

  /** The block a worker is at after these events: where it started, then what it reported last. */
  function BlockAfter(params: Params, events: seq<R.Event>): nat {
    if events == [] then 0 else
      match events[|events| - 1]
      case Started => params.startBlock
      case Progress(s) => s.currentBlock
      case Completed(s) => s.currentBlock
      case Failed(block) => block
      case Finding(_) => BlockAfter(params, events[..|events| - 1])
  }

  /** What is told of a transaction. */
  predicate Tells(f: Finding, p: Protocol, s: A.Summary) {
    f.tx == s.tx && f.protocol == p && f.verified == s.verified && f.strict == s.strict && f.block == if s.block < 0x1_0000_0000_0000_0000 then s.block else 0
  }

  /** The findings told by these events, newest first. */
  ghost predicate AreTold(findings: seq<Finding>, p: Protocol, events: seq<R.Event>)
    decreases events
  {
    if events == [] then findings == [] else
      var before, last := events[..|events| - 1], events[|events| - 1];
      if last.Finding? then findings != [] && Tells(findings[0], p, last.summary) && AreTold(findings[1..], p, before)
      else AreTold(findings, p, before)
  }

  function Of(findings: seq<Finding>, p: Protocol): seq<Finding> {
    if findings == [] then [] else (if findings[0].protocol == p then [findings[0]] else []) + Of(findings[1..], p)
  }

  function EventsOf(w: M.Worker): seq<R.Event> {
    if w.Working? && w.pos <= |w.script| then w.script[..w.pos] else []
  }

  /** A protocol of a job as the events of its worker so far say. */
  ghost predicate ShowsWorker(params: Params, p: Protocol, state: ProtocolState, findings: seq<Finding>, w: M.Worker) {
    var events, theirs := EventsOf(w), Of(findings, p);
    && state.protocol == p && state.startBlock == params.startBlock && state.endBlock == params.endBlock
    && state.currentBlock == BlockAfter(params, events)
    && AreTold(theirs, p, events)
    && state.latestFinding == (if theirs == [] then None else Some(theirs[0]))
    && (state.error != "" ==> events != [] && events[|events| - 1].Failed?)
  }

  ghost predicate ShowsWorkers(job: Job, c: M.Control) {
    && (forall p :: p in job.protocols ==> ShowsWorker(job.params, p, job.protocols[p], job.findings, M.WorkerOf(c.workers, p)))
    && (job.error != "" ==> c.stage.Done? && job.status == Status.Failed)
  }

  // ---- every step keeps it ----

  lemma {:induction false} OfMore(f: Finding, findings: seq<Finding>, p: Protocol)
    ensures Of([f] + findings, p) == (if f.protocol == p then [f] else []) + Of(findings, p)
  {
    assert ([f] + findings)[1..] == findings;
  }

  lemma {:induction false} EventsMore(w: M.Worker)
    requires w.Working? && w.pos < |w.script|
    ensures EventsOf(M.Moved(w)) == EventsOf(w) + [w.script[w.pos]]
  {
  }

  /** A failure is the last event of a script. */
  lemma {:induction false} NotFailedYet(script: seq<R.Event>, pos: nat)
    requires IsScript(script) && 0 < pos < |script|
    ensures !script[pos - 1].Failed?
  {
    ScriptReads(script, pos);
    assert ReadAll(script, pos) == Read(ReadAll(script, pos - 1), script[pos - 1]);
    hide IsScript;
  }

  lemma {:induction false} HasScript(state: ProtocolState, told: nat, w: M.Worker)
    requires M.WorkerShown(state, told, w) && w.Working? && !M.Ended(w)
    ensures IsScript(w.script) && w.pos < |w.script|
  {
    hide IsScript, ReadAll;
  }

  /** Recording a worker's event: the protocol shows one event more. */
  lemma {:induction false} EmitShows(params: Params, p: Protocol, state: ProtocolState, findings: seq<Finding>, w: M.Worker, message: string)
    requires ShowsWorker(params, p, state, findings, w) && w.Working? && w.pos < |w.script| && IsScript(w.script)
    ensures
      var op := M.OpFor(p, params, w.script[w.pos], message);
      About(op) == Some(p)
      && ShowsWorker(params, p, M.StateAfter(state, op), if op.FindingRecorded? then [op.finding] + findings else findings, M.Moved(w))
  {
    EventsMore(w);
    if w.pos > 0 {
      NotFailedYet(w.script, w.pos);
    }
    hide IsScript;
    var e, before := w.script[w.pos], EventsOf(w);
    var events := EventsOf(M.Moved(w));
    assert events[|events| - 1] == e && events[..|events| - 1] == before;
    var op := M.OpFor(p, params, e, message);
    if op.FindingRecorded? {
      OfMore(op.finding, findings, p);
      assert ([op.finding] + Of(findings, p))[1..] == Of(findings, p);
    }
  }

  lemma {:induction false} EmitJobShows(job: Job, c: M.Control, p: Protocol, message: string)
    requires p in c.workers && c.workers[p].Working? && !M.Ended(c.workers[p]) && c.stage == M.Forked
    requires M.JobSound(job, c) && ShowsWorkers(job, c)
    ensures ShowsWorkers(M.Emitted(job, p, c.workers[p], message), c.(workers := c.workers[p := M.Moved(c.workers[p])]))
  {
    hide ShowsWorker, M.StateAfter, M.OpFor, Applied, SumOf, M.JobSound, IsScript, M.FindingsBy, M.WorkersShown, M.FindingsCounted;
    var w := c.workers[p];
    M.WorkerIn(job, c, p);
    var op := M.OpFor(p, job.params, w.script[w.pos], message);
    assert M.WorkerOf(c.workers, p) == w;
    HasScript(job.protocols[p], M.FindingsBy(job.findings, p), w);
    EmitShows(job.params, p, job.protocols[p], job.findings, w, message);
    M.AppliedShape(job, op);
    var after, workers := Applied(job, op), c.workers[p := M.Moved(w)];
    AppliedError(job, op);
    OpTells(p, job.params, w.script[w.pos], message);
    forall q | q in after.protocols ensures ShowsWorker(after.params, q, after.protocols[q], after.findings, M.WorkerOf(workers, q)) {
      if q != p {
        assert M.WorkerOf(workers, q) == M.WorkerOf(c.workers, q);
        assert q in job.protocols;
        OthersShow(job.params, q, job.protocols[q], job.findings, after.findings, M.WorkerOf(c.workers, q));
      }
    }
  }

  lemma {:induction false} OpTells(p: Protocol, params: Params, e: R.Event, message: string)
    ensures var op := M.OpFor(p, params, e, message); (op.FindingRecorded? ==> op.finding.protocol == p) && About(op).Some?
  {
  }

  lemma {:induction false} AppliedError(job: Job, op: Op)
    requires About(op).Some?
    ensures Applied(job, op).error == job.error && Applied(job, op).status == job.status
  {
    hide SumOf, Truncated;
  }

  lemma {:induction false} OthersShow(params: Params, q: Protocol, state: ProtocolState, findings: seq<Finding>, more: seq<Finding>, w: M.Worker)
    requires ShowsWorker(params, q, state, findings, w)
    requires more == findings || exists f: Finding :: f.protocol != q && more == [f] + findings
    ensures ShowsWorker(params, q, state, more, w)
  {
    if more != findings {
      var f: Finding :| f.protocol != q && more == [f] + findings;
      OfMore(f, findings, q);
      assert [] + Of(findings, q) == Of(findings, q);
    }
  }

  lemma {:induction false} NewJobShows(id: string, params: Params, protocols: seq<Protocol>)
    ensures ShowsWorkers(NewJob(id, params, protocols), M.Control(M.Created, map[]))
  {
  }

  lemma {:induction false} StatusShows(job: Job, op: Op)
    requires About(op).None?
    ensures
      var after := Applied(job, op);
      && after.protocols == job.protocols && after.findings == job.findings && after.params == job.params
      && (op.JobFailed? ==> after.error == op.message && after.status == Status.Failed) && (!op.JobFailed? ==> after.error == job.error)
  {
    hide Truncated;
  }

  /** Workers that have said nothing yet. */
  lemma {:induction false} SilentShows(job: Job, c: M.Control, d: M.Control)
    requires ShowsWorkers(job, c) && (c.stage.Done? ==> d.stage.Done?)
    requires forall p :: EventsOf(M.WorkerOf(d.workers, p)) == EventsOf(M.WorkerOf(c.workers, p))
    ensures ShowsWorkers(job, d)
  {
    hide BlockAfter, AreTold, Of, M.WorkerOf, EventsOf;
  }

  lemma {:induction false} StepShows(m: M.Machine, a: M.Action)
    requires M.Enabled(m, a) && !a.Request? && M.JobSound(m.jobs[a.id], m.control[a.id]) && ShowsWorkers(m.jobs[a.id], m.control[a.id])
    ensures var (job, c) := M.JobAfter(m.jobs[a.id], m.control[a.id], a); ShowsWorkers(job, c)
  {
    hide ShowsWorker, Applied, M.Emitted, M.Moved, M.JobSound, M.AllEnded, M.AnyErrs;
    var job, c := m.jobs[a.id], m.control[a.id];
    match a {
      case Begin(_) => StatusShows(job, JobStarted);
      case Fork(_) =>
        BegunHasNone(job, c);
        SilentShows(job, c, M.Control(M.Forked, map p | p in job.protocols :: M.Waiting));
      case Launch(_, p, script) => SilentShows(job, c, c.(workers := c.workers[p := M.Working(script, 0)]));
      case Emit(_, p, message) =>
        assert M.WorkerOf(c.workers, p) == c.workers[p];
        EmitJobShows(job, c, p, message);
      case Finish(_, message) =>
        StatusShows(job, JobFailed(message));
        StatusShows(job, JobCompleted);
      case _ =>
    }
  }

  lemma {:induction false} BegunHasNone(job: Job, c: M.Control)
    requires M.JobSound(job, c) && c.stage == M.Begun
    ensures c.workers == map[]
  {
    hide SumOf, M.WorkersShown, M.FindingsCounted;
  }

  /** In every reachable state every job shows of each protocol exactly what its worker has told so far: its
      block, and its findings, newest first and in full; the blocks of its request; and an error only after a failure. */
  lemma {:induction false} JobsShowWorkers(actions: seq<M.Action>, states: seq<M.Machine>, k: nat, id: string)
    requires M.IsRun(actions, states) && k <= |actions| && id in states[k].jobs
    ensures id in states[k].control && ShowsWorkers(states[k].jobs[id], states[k].control[id])
  {
    hide M.Enabled, M.Next, M.Sound, ShowsWorkers;
    if k > 0 {
      var m, a := states[k - 1], actions[k - 1];
      assert M.Enabled(m, a) && states[k - 1 + 1] == M.Next(m, a);
      M.RunSound(actions, states, k - 1);
      if id in m.jobs {
        SoundHas(m, id);
        JobsShowWorkers(actions, states, k - 1, id);
      }
      hide M.IsRun;
      NextShows(m, a, id);
    }
  }

  lemma {:induction false} SoundHas(m: M.Machine, id: string)
    requires M.Sound(m) && id in m.jobs
    ensures id in m.control && M.JobSound(m.jobs[id], m.control[id])
  {
    hide M.JobSound;
    assert id in m.control.Keys;
  }

  lemma {:induction false} AcceptedNormalized(jobs: map<string, Job>, params: Params)
    requires Refusal(jobs, params).None?
    ensures Normalized(params.protocols).Ok?
  {
    hide Normalized;
  }

  lemma {:induction false} NextShows(m: M.Machine, a: M.Action, id: string)
    requires M.Sound(m) && M.Enabled(m, a) && id in M.Next(m, a).jobs
    requires id in m.jobs ==> id in m.control && ShowsWorkers(m.jobs[id], m.control[id])
    ensures id in M.Next(m, a).control && ShowsWorkers(M.Next(m, a).jobs[id], M.Next(m, a).control[id])
  {
    hide ShowsWorkers, M.JobAfter, M.JobSound, Refusal, NewJob, Normalized;
    if a.Request? {
      if Refusal(m.jobs, a.params).None? {
        AcceptedNormalized(m.jobs, a.params);
        NewJobShows(a.id, a.params, Normalized(a.params.protocols).value);
      }
    } else {
      assert M.JobSound(m.jobs[a.id], m.control[a.id]);
      if a.id == id {
        StepShows(m, a);
      }
    }
  }

  // ---- requests ----

  /** A request is accepted exactly when it names a chain, a range that is not reversed, and protocols, all of them
      known, and no job is pending or running. */
  lemma {:induction false} AcceptedExactly(jobs: map<string, Job>, params: Params)
    ensures
      Refusal(jobs, params).None? <==>
        && params.chainID != 0 && params.startBlock <= params.endBlock
        && params.protocols != [] && (forall p :: p in params.protocols ==> p == AaveV3 || p == BalancerV2 || p == UniswapV2)
        && forall id :: id in jobs ==> jobs[id].status == Status.Completed || jobs[id].status == Status.Failed
  {
    hide DistinctUpTo;
    forall p: Protocol ensures p.Unknown? <==> !(p == AaveV3 || p == BalancerV2 || p == UniswapV2) {
    }
  }

  // ---- hashes in logs ----

  /** At position i the text has 0x and 64 hexadecimal digits. */
  predicate HashAt(s: string, i: nat) {
    |s| >= i + 66 && s[i] == '0' && s[i + 1] == 'x'
    && forall k :: i + 2 <= k < i + 66 ==> '0' <= s[k] <= '9' || 'a' <= s[k] <= 'f' || 'A' <= s[k] <= 'F'
  }

  lemma {:induction false} HashLater(s: string, i: nat)
    requires s != ""
    ensures HashAt(s[1..], i) <==> HashAt(s, i + 1)
  {
    if HashAt(s, i + 1) {
      assert forall k :: i + 2 <= k < i + 66 ==> s[1..][k] == s[k + 1];
    }
    if HashAt(s[1..], i) {
      forall k | i + 3 <= k < i + 67 ensures '0' <= s[k] <= '9' || 'a' <= s[k] <= 'f' || 'A' <= s[k] <= 'F' {
        assert s[k] == s[1..][k - 1];
      }
    }
  }

  /** The hash a log carries is the first that its text has. */
  lemma {:induction false} FirstHashFound(s: string, i: nat)
    requires HashAt(s, i) && forall j :: 0 <= j < i ==> !HashAt(s, j)
    ensures ExtractTxHash(s) == Some(s[i..i + 66])
    decreases i
  {
    StartIsHash(s);
    if i > 0 {
      hide HashAt, StartsWithHash;
      assert !HashAt(s, 0);
      HashLater(s, i - 1);
      forall j | 0 <= j < i - 1 ensures !HashAt(s[1..], j) {
        HashLater(s, j);
      }
      FirstHashFound(s[1..], i - 1);
      assert |s[1..]| >= i - 1 + 66 by { HashFits(s[1..], i - 1); }
      assert s[1..][i - 1..i - 1 + 66] == s[i..i + 66];
    }
  }

  lemma {:induction false} HashFits(s: string, i: nat)
    requires HashAt(s, i)
    ensures |s| >= i + 66
  {
  }

  lemma {:induction false} StartIsHash(s: string)
    ensures StartsWithHash(s) <==> HashAt(s, 0)
  {
    if |s| >= 66 && s[0] == '0' && s[1] == 'x' {
      assert s[..2] == "0x";
    }
    if |s| >= 66 && s[..2] == "0x" {
      assert s[0] == s[..2][0] && s[1] == s[..2][1];
    }
  }

  /** A finding is logged with the hash of its transaction. */
  lemma {:induction false} FindingLogsItsHash(f: Finding)
    requires |f.tx| == 66 && HashAt(f.tx, 0)
    ensures LogFor(FindingRecorded(f)).Some? && LogFor(FindingRecorded(f)).value.hash == Some(f.tx)
  {
    FirstHashFound(f.tx, 0);
    hide ExtractTxHash, HashAt;
    assert f.tx[0..66] == f.tx;
  }

  // ---- channels ----

  /** What a channel holds after some messages: what it held, and of the messages as many of the first as fit. */
  lemma {:induction false} ChannelHolds(c: Channel, ms: seq<Message>)
    requires |c.items| <= c.capacity
    ensures
      var room := c.capacity - |c.items|;
      OfferedAll(c, ms) == c.(items := c.items + ms[..if |ms| < room then |ms| else room])
    decreases ms
  {
    if ms != [] {
      ChannelHolds(Offered(c, ms[0]), ms[1..]);
      var room := c.capacity - |c.items|;
      if room > 0 {
        var n := if |ms| < room then |ms| else room;
        assert ms[..n] == [ms[0]] + ms[1..][..n - 1];
      }
    }
  }

  // ---- logs ----

  /** What is logged of a worker's event: a start at its first block, a finding at its block, an end at the
      block reached, a failure as an error; a progress is not logged. */
  lemma {:induction false} EventIsLogged(p: Protocol, params: Params, e: R.Event, message: string)
    ensures
      var log := LogFor(M.OpFor(p, params, e, message));
      && (e.Progress? <==> log.None?)
      && (log.Some? ==>
            && log.value.protocol == Some(p) && (log.value.level == Level.Error <==> e.Failed?)
            && (e.Started? ==> log.value.block == params.startBlock)
            && (e.Finding? && e.summary.block < 0x1_0000_0000_0000_0000 ==> log.value.block == e.summary.block)
            && (e.Completed? ==> log.value.block == e.stats.currentBlock) && (e.Failed? ==> log.value.block == e.currentBlock))
  {
    hide ExtractTxHash;
  }

  /** What is logged of the job itself: its start and its end, as no protocol's, an end with an error as such. */
  lemma {:induction false} JobIsLogged(op: Op)
    requires About(op).None?
    ensures
      var log := LogFor(op);
      log.Some? && log.value.protocol.None? && log.value.block == 0 && (log.value.level == Level.Error <==> op.JobFailed?)
  {
    hide ExtractTxHash;
  }
}
