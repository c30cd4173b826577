/** Jobs of the scan machine come to an end: until a job is finished some step about it can be taken,
    every such step brings it nearer to its end, and it can still be completed exactly when none of its
    workers is bound to fail. */
module ScanLiveness {
  import opened Text
  import opened JobManager
  import S = RunScripts
  import opened ScanMachine
  import R = ProtocolRunner
  import B = ScanBroadcast

  // ---- how far a job is from its end ----

  function StageLeft(stage: Stage): nat {
    match stage
    case Created => 4
    case Begun => 3
    case Forked => 2
    case Joined(_) => 1
    case Done => 0
  }

  function Waits(workers: map<Protocol, Worker>, p: Protocol): nat {
    if p in workers && workers[p].Waiting? then 1 else 0
  }

  function WaitsLeft(workers: map<Protocol, Worker>): nat {
    Waits(workers, AaveV3) + Waits(workers, BalancerV2) + Waits(workers, UniswapV2)
  }

  function EventsOf(workers: map<Protocol, Worker>, p: Protocol): nat {
    if p in workers && workers[p].Working? && !Ended(workers[p]) then |workers[p].script| - workers[p].pos else 0
  }

  function EventsLeft(workers: map<Protocol, Worker>): nat {
    EventsOf(workers, AaveV3) + EventsOf(workers, BalancerV2) + EventsOf(workers, UniswapV2)
  }

  /** d is nearer to its end than c: in a later stage, or with fewer workers to start, or with fewer events to tell. */
  predicate Nearer(d: Control, c: Control) {
    || StageLeft(d.stage) < StageLeft(c.stage)
    || (d.stage == c.stage && WaitsLeft(d.workers) < WaitsLeft(c.workers))
    || (d.stage == c.stage && WaitsLeft(d.workers) == WaitsLeft(c.workers) && EventsLeft(d.workers) < EventsLeft(c.workers))
  }

  predicate IsStepOf(a: Action, id: string) {
    !a.Request? && a.id == id
  }

  lemma {:induction false} WorkerMoves(workers: map<Protocol, Worker>, p: Protocol, w: Worker)
    requires p in workers && !p.Unknown?
    ensures workers[p].Waiting? && w.Working? ==> WaitsLeft(workers[p := w]) < WaitsLeft(workers)
    ensures
      workers[p].Working? && !Ended(workers[p]) && w == Moved(workers[p]) ==>
        WaitsLeft(workers[p := w]) == WaitsLeft(workers) && EventsLeft(workers[p := w]) < EventsLeft(workers)
  {
  }

  lemma {:induction false} WorkersKnown(job: Job, c: Control, p: Protocol)
    requires JobSound(job, c) && p in c.workers
    ensures !p.Unknown? && p in job.protocols
  {
    WorkerIn(job, c, p);
  }

  /** A step about a job brings it nearer to its end; any other step leaves it as it is. */
  lemma {:induction false} StepNearer(m: Machine, a: Action, id: string)
    requires Sound(m) && Enabled(m, a) && id in m.jobs
    ensures id in Next(m, a).jobs && id in Next(m, a).control && id in m.control
    ensures IsStepOf(a, id) ==> Nearer(Next(m, a).control[id], m.control[id])
    ensures !IsStepOf(a, id) ==> Next(m, a).control[id] == m.control[id] && Next(m, a).jobs[id] == m.jobs[id]
  {
    hide JobSound, Applied, Refusal, NewJob, Normalized, S.IsScript, AllEnded, AnyErrs, WaitsLeft, EventsLeft, Ended, Moved, OpFor;
    assert id in m.control.Keys;
    if IsStepOf(a, id) && (a.Launch? || a.Emit?) {
      WorkersKnown(m.jobs[id], m.control[id], a.protocol);
      if a.Launch? {
        WorkerMoves(m.control[id].workers, a.protocol, Working(a.script, 0));
      } else {
        WorkerMoves(m.control[id].workers, a.protocol, Moved(m.control[id].workers[a.protocol]));
      }
    }
  }

  // ---- some step can be taken until it is finished ----

  /** The step taken next: workers are started before any goes on, and those yet to start complete at once. */
  function StepOf(m: Machine, id: string): Action
    requires id in m.jobs && id in m.control
  {
    var c := m.control[id];
    match c.stage
    case Created => Begin(id)
    case Begun => Fork(id)
    case Forked =>
      if Stays(c.workers, AaveV3) then StepOfWorker(c.workers, id, AaveV3)
      else if Stays(c.workers, BalancerV2) then StepOfWorker(c.workers, id, BalancerV2)
      else if Stays(c.workers, UniswapV2) then StepOfWorker(c.workers, id, UniswapV2)
      else Join(id)
    case Joined(_) => Finish(id, "")
    case Done => Finish(id, "")
  }

  predicate Stays(workers: map<Protocol, Worker>, p: Protocol) {
    p in workers && !Ended(workers[p])
  }

  const EMPTY_RUN: seq<R.Event> := [R.Started, R.Completed(R.Stats(0, 0, 0, 0, 0, 0, 0, 0))]

  function StepOfWorker(workers: map<Protocol, Worker>, id: string, p: Protocol): Action
    requires p in workers
  {
    if workers[p].Waiting? then Launch(id, p, EMPTY_RUN) else Emit(id, p, "")
  }

  lemma {:induction false} EmptyRunIsScript()
    ensures S.IsScript(EMPTY_RUN) && !EMPTY_RUN[|EMPTY_RUN| - 1].Failed?
  {
    assert S.ReadAll(EMPTY_RUN, 1) == S.Read(S.ReadAll(EMPTY_RUN, 0), R.Started);
    assert S.ReadAll(EMPTY_RUN, 2) == S.Read(S.ReadAll(EMPTY_RUN, 1), EMPTY_RUN[1]);
  }

  lemma {:induction false} StepOfEnabled(m: Machine, id: string)
    requires Sound(m) && id in m.jobs && id in m.control && m.control[id].stage != Done
    ensures IsStepOf(StepOf(m, id), id) && Enabled(m, StepOf(m, id))
  {
    hide JobSound, S.IsScript, Ended;
    EmptyRunIsScript();
    var c := m.control[id];
    if c.stage == Forked {
      forall p | p in c.workers ensures !p.Unknown? && p in m.jobs[id].protocols {
        WorkersKnown(m.jobs[id], c, p);
      }
    }
  }

  /** In every reachable state, a job has a step to be taken exactly as long as it is pending or running. */
  lemma {:induction false} StuckExactly(actions: seq<Action>, states: seq<Machine>, k: nat, id: string)
    requires IsRun(actions, states) && k <= |actions| && id in states[k].jobs
    ensures (exists a :: IsStepOf(a, id) && Enabled(states[k], a)) <==> IsActive(states[k].jobs[id])
  {
    hide Enabled, Next, JobSound, StepOf;
    RunSound(actions, states, k);
    SoundStuck(states[k], id);
  }

  lemma {:induction false} SoundStuck(m: Machine, id: string)
    requires Sound(m) && id in m.jobs
    ensures id in m.control && JobSound(m.jobs[id], m.control[id]) && (IsActive(m.jobs[id]) <==> m.control[id].stage != Done)
    ensures (exists a :: IsStepOf(a, id) && Enabled(m, a)) <==> IsActive(m.jobs[id])
  {
    hide Enabled, JobSound, StepOf;
    assert id in m.control.Keys;
    ActiveUntilDone(m.jobs[id], m.control[id]);
    if IsActive(m.jobs[id]) {
      StepOfEnabled(m, id);
    }
    forall a | IsStepOf(a, id) && Enabled(m, a) ensures m.control[id].stage != Done {
      JobStepSound(m, a);
    }
  }

  // ---- when it can still be completed ----

  /** A worker fails, or the set-up did. */
  ghost predicate Doomed(c: Control, job: Job) {
    c.stage == Joined(true) || AnyErrs(c.workers) || job.status == Status.Failed
  }

  lemma {:induction false} ErrsMoved(w: Worker)
    ensures Errs(Moved(w)) <==> Errs(w)
  {
  }

  lemma {:induction false} AnyErrsMoved(workers: map<Protocol, Worker>, p: Protocol)
    requires p in workers
    ensures AnyErrs(workers[p := Moved(workers[p])]) <==> AnyErrs(workers)
  {
    hide Errs, Moved;
    var after := workers[p := Moved(workers[p])];
    ErrsMoved(workers[p]);
    if q :| q in workers && Errs(workers[q]) {
      assert Errs(after[q]);
    }
  }

  lemma {:induction false} AnyErrsStarted(workers: map<Protocol, Worker>, p: Protocol, w: Worker)
    requires p in workers && workers[p].Waiting?
    ensures AnyErrs(workers[p := w]) <==> Errs(w) || AnyErrs(workers)
  {
    var after := workers[p := w];
    if Errs(w) {
      assert Errs(after[p]);
    } else if q :| q in workers && Errs(workers[q]) {
      assert Errs(after[q]);
    }
  }

  /** What a step about a job changes of its fate: a failed set-up, or a worker that starts to fail. */
  lemma {:induction false} FateMoves(m: Machine, a: Action, id: string)
    requires Sound(m) && Enabled(m, a) && id in m.jobs && id in m.control && IsStepOf(a, id)
    ensures id in Next(m, a).jobs && id in Next(m, a).control
    ensures Doomed(Next(m, a).control[id], Next(m, a).jobs[id]) <==>
              Doomed(m.control[id], m.jobs[id]) || a.SetUpFails? || (a.Launch? && Errs(Working(a.script, 0)))
  {
    hide JobSound, Applied, S.IsScript, AllEnded, AnyErrs, OpFor, Moved, Errs;
    var job, c := m.jobs[id], m.control[id];
    ActiveUntilDone(job, c);
    match a {
      case Begin(_) =>
        StatusShape(job, JobStarted);
      case SetUpFails(_) =>
      case Fork(_) =>
        NoErrs(c.workers);
        NoErrs(map p | p in job.protocols :: Waiting);
      case Launch(_, p, script) =>
        AnyErrsStarted(c.workers, p, Working(script, 0));
      case Emit(_, p, message) =>
        AnyErrsMoved(c.workers, p);
        EmitStatus(job, p, c.workers[p], message);
      case Join(_) =>
      case Finish(_, message) =>
        StatusShape(job, JobFailed(message));
        StatusShape(job, JobCompleted);
        if AnyErrs(c.workers) {
          JoinedFate(job, c);
        }
    }
  }

  lemma {:induction false} NoErrs(workers: map<Protocol, Worker>)
    requires forall p :: p in workers ==> workers[p].Waiting?
    ensures !AnyErrs(workers)
  {
  }

  lemma {:induction false} EmitStatus(job: Job, p: Protocol, w: Worker, message: string)
    ensures Emitted(job, p, w, message).status == job.status
  {
    hide SumOf, Truncated;
  }

  /** A joined job has a failed worker only if it is joined as failed. */
  lemma {:induction false} JoinedFate(job: Job, c: Control)
    requires JobSound(job, c) && (c.stage.Joined? || c.stage.Done?) && AnyErrs(c.workers)
    ensures c.stage == Joined(true) || job.status == Status.Failed
  {
    hide SumOf, FindingsBy, FindingsCounted, WorkerShown, Errs, Ended;
    var p :| p in c.workers && Errs(c.workers[p]);
    WorkerIn(job, c, p);
    EndedShown(job.protocols[p], FindingsBy(job.findings, p), c.workers[p]);
  }

  /** A job never escapes its fate. */
  lemma {:induction false} DoomedStays(actions: seq<Action>, states: seq<Machine>, i: nat, k: nat, id: string)
    requires IsRun(actions, states) && i <= k <= |actions|
    requires id in states[i].jobs && id in states[i].control && Doomed(states[i].control[id], states[i].jobs[id])
    ensures id in states[k].jobs && id in states[k].control && Doomed(states[k].control[id], states[k].jobs[id])
  {
    hide Enabled, Next, Sound, Doomed, IsStepOf, Nearer;
    if i < k {
      DoomedStays(actions, states, i, k - 1, id);
      RunSound(actions, states, k - 1);
      assert states[k - 1 + 1] == Next(states[k - 1], actions[k - 1]);
      StepNearer(states[k - 1], actions[k - 1], id);
      if IsStepOf(actions[k - 1], id) {
        FateMoves(states[k - 1], actions[k - 1], id);
      }
    }
  }

  /** A job that is finished is completed exactly when it is not doomed. */
  lemma {:induction false} FateShown(job: Job, c: Control)
    requires JobSound(job, c) && !IsActive(job)
    ensures job.status == Status.Completed <==> !Doomed(c, job)
  {
    hide JobSound, AnyErrs, AllEnded, AllCompleted;
    ActiveUntilDone(job, c);
    if AnyErrs(c.workers) {
      JoinedFate(job, c);
    }
  }

  lemma {:induction false} RunExtends(actions: seq<Action>, states: seq<Machine>, a: Action)
    requires IsRun(actions, states) && Enabled(states[|actions|], a)
    ensures IsRun(actions + [a], states + [Next(states[|actions|], a)])
  {
    hide Enabled, Next;
    var more, later := actions + [a], states + [Next(states[|actions|], a)];
    forall i | 0 <= i < |more| ensures Enabled(later[i], more[i]) && later[i + 1] == Next(later[i], more[i]) {
      if i < |actions| {
        assert later[i] == states[i] && later[i + 1] == states[i + 1] && more[i] == actions[i];
      }
    }
  }

  ghost predicate Continues(actions: seq<Action>, states: seq<Machine>, more: seq<Action>, later: seq<Machine>) {
    IsRun(more, later) && actions <= more && states <= later
  }

  lemma {:induction false} ContinuesFurther(actions: seq<Action>, states: seq<Machine>, longer: seq<Action>, on: seq<Machine>,
                                            more: seq<Action>, later: seq<Machine>)
    requires Continues(actions, states, longer, on) && Continues(longer, on, more, later)
    ensures Continues(actions, states, more, later)
  {
    hide IsRun;
  }

  /** The job with this id and its control in the last state. */
  predicate Ongoing(actions: seq<Action>, states: seq<Machine>, id: string) {
    |states| == |actions| + 1 && id in states[|actions|].jobs && id in states[|actions|].control
  }

  function LastJob(actions: seq<Action>, states: seq<Machine>, id: string): Job
    requires Ongoing(actions, states, id)
  {
    states[|actions|].jobs[id]
  }

  function LastControl(actions: seq<Action>, states: seq<Machine>, id: string): Control
    requires Ongoing(actions, states, id)
  {
    states[|actions|].control[id]
  }

  /** The job goes to its end from here, and is completed if nothing has failed yet. */
  lemma {:induction false} GoesToEnd(actions: seq<Action>, states: seq<Machine>, id: string) returns (more: seq<Action>, later: seq<Machine>)
    requires IsRun(actions, states) && Ongoing(actions, states, id)
    ensures Continues(actions, states, more, later) && Ongoing(more, later, id) && !IsActive(LastJob(more, later, id))
    ensures LastJob(more, later, id).status == Status.Completed <==> !Doomed(LastControl(actions, states, id), LastJob(actions, states, id))
    decreases StageLeft(LastControl(actions, states, id).stage), WaitsLeft(LastControl(actions, states, id).workers),
              EventsLeft(LastControl(actions, states, id).workers)
  {
    hide *;
    if LastControl(actions, states, id).stage == Done {
      AtItsEnd(actions, states, id);
      more, later := actions, states;
    } else {
      var longer, on := OneOn(actions, states, id);
      NearerDescends(LastControl(longer, on, id), LastControl(actions, states, id));
      more, later := GoesToEnd(longer, on, id);
      ContinuesFurther(actions, states, longer, on, more, later);
    }
  }

  lemma {:induction false} NearerDescends(d: Control, c: Control)
    requires Nearer(d, c)
    ensures
      || StageLeft(d.stage) < StageLeft(c.stage)
      || (StageLeft(d.stage) == StageLeft(c.stage)
          && (WaitsLeft(d.workers) < WaitsLeft(c.workers)
              || (WaitsLeft(d.workers) == WaitsLeft(c.workers) && EventsLeft(d.workers) < EventsLeft(c.workers))))
  {
    hide WaitsLeft, EventsLeft;
  }

  lemma {:induction false} AtItsEnd(actions: seq<Action>, states: seq<Machine>, id: string)
    requires IsRun(actions, states) && Ongoing(actions, states, id) && LastControl(actions, states, id).stage == Done
    ensures Continues(actions, states, actions, states) && !IsActive(LastJob(actions, states, id))
    ensures LastJob(actions, states, id).status == Status.Completed <==> !Doomed(LastControl(actions, states, id), LastJob(actions, states, id))
  {
    hide Sound, JobSound, Enabled, Next, Doomed, IsActive;
    RunSound(actions, states, |actions|);
    SoundStuck(states[|actions|], id);
    FateShown(states[|actions|].jobs[id], states[|actions|].control[id]);
  }

  /** One step on, as StepOf says. */
  lemma {:induction false} OneOn(actions: seq<Action>, states: seq<Machine>, id: string) returns (more: seq<Action>, later: seq<Machine>)
    requires IsRun(actions, states) && Ongoing(actions, states, id) && LastControl(actions, states, id).stage != Done
    ensures IsRun(more, later) && Continues(actions, states, more, later) && Ongoing(more, later, id)
    ensures Nearer(LastControl(more, later, id), LastControl(actions, states, id))
    ensures Doomed(LastControl(more, later, id), LastJob(more, later, id)) <==> Doomed(LastControl(actions, states, id), LastJob(actions, states, id))
  {
    hide Enabled, Next, StepOf, Doomed, JobSound, WaitsLeft, EventsLeft, StageLeft, Nearer, Errs;
    var m := states[|actions|];
    RunSound(actions, states, |actions|);
    var a := StepOf(m, id);
    StepOfEnabled(m, id);
    StepNearer(m, a, id);
    FateMoves(m, a, id);
    StepIsHarmless(m, id);
    RunExtends(actions, states, a);
    more, later := actions + [a], states + [Next(m, a)];
    assert later[|more|] == Next(m, a);
  }

  lemma {:induction false} StepIsHarmless(m: Machine, id: string)
    requires id in m.jobs && id in m.control
    ensures !StepOf(m, id).SetUpFails?
    ensures StepOf(m, id).Launch? ==> !Errs(Working(StepOf(m, id).script, 0))
  {
  }

  /** From every reachable state a job can be brought to its end; and it can still be completed exactly
      when its set-up has not failed and no worker is bound to. */
  lemma {:induction false} CompletionOpenExactly(actions: seq<Action>, states: seq<Machine>, id: string)
    requires IsRun(actions, states) && id in states[|actions|].jobs
    ensures Ongoing(actions, states, id)
    ensures exists more, later :: Continues(actions, states, more, later) && Ongoing(more, later, id) && !IsActive(LastJob(more, later, id))
    ensures !Doomed(LastControl(actions, states, id), LastJob(actions, states, id)) <==>
              exists more, later :: Continues(actions, states, more, later) && Ongoing(more, later, id)
                && LastJob(more, later, id).status == Status.Completed
  {
    RunSound(actions, states, |actions|);
    SoundStuck(states[|actions|], id);
    hide Doomed, JobSound, IsRun, Enabled, Next, IsActive, Continues;
    var ended, end := GoesToEnd(actions, states, id);
    forall more, later | Continues(actions, states, more, later) && Ongoing(more, later, id) && LastJob(more, later, id).status == Status.Completed
      ensures !Doomed(LastControl(actions, states, id), LastJob(actions, states, id))
    {
      LaterFate(actions, states, more, later, id);
    }
  }

  lemma {:induction false} LaterFate(actions: seq<Action>, states: seq<Machine>, more: seq<Action>, later: seq<Machine>, id: string)
    requires IsRun(actions, states) && Ongoing(actions, states, id) && Continues(actions, states, more, later) && Ongoing(more, later, id)
    requires LastJob(more, later, id).status == Status.Completed
    ensures !Doomed(LastControl(actions, states, id), LastJob(actions, states, id))
  {
    hide Doomed, JobSound, Enabled, Next;
    if Doomed(LastControl(actions, states, id), LastJob(actions, states, id)) {
      assert later[|actions|] == states[|actions|];
      DoomedStays(more, later, |actions|, |more|, id);
      RunSound(more, later, |more|);
      FateShown(later[|more|].jobs[id], later[|more|].control[id]);
    }
  }

  // ---- with a subscriber ----

  /** Something is left to do: a step about the job, or a broadcast. */
  ghost predicate MayGoOn(n: B.Net) {
    exists a :: B.Enabled(n, a) && (a.Perform? ==> B.IsAbout(n, a.step))
  }

  /** In every reachable state, drops included, a job with a subscriber has something left to do exactly
      until it is finished and all is sent. */
  lemma {:induction false} SettledExactly(actions: seq<B.Action>, states: seq<B.Net>, k: nat)
    requires B.IsRun(actions, states) && k <= |actions|
    ensures B.Has(states[k]) && (MayGoOn(states[k]) <==> !(B.Finished(states[k]) && B.AllSent(states[k])))
  {
    B.RunTidy(actions, states, k);
    hide B.IsRun, MayGoOn, B.AllSent, Sound;
    NetStuck(states[k]);
  }

  lemma {:induction false} NetStuck(n: B.Net)
    requires B.Has(n) && Sound(n.machine)
    ensures MayGoOn(n) <==> !(B.Finished(n) && B.AllSent(n))
  {
    hide JobSound, Enabled, StepOf;
    SoundStuck(n.machine, n.id);
    if !B.AllSent(n) {
      var s :| B.PendingOf(n, s) != [];
      assert B.Enabled(n, B.Send(s, false));
    } else if !B.Finished(n) {
      var step := StepOf(n.machine, n.id);
      StepOfEnabled(n.machine, n.id);
      assert B.Enabled(n, B.Perform(step));
    }
    forall a | B.Enabled(n, a) && (a.Perform? ==> B.IsAbout(n, a.step)) ensures !(B.Finished(n) && B.AllSent(n)) {
      if a.Perform? {
        assert IsStepOf(a.step, n.id);
      }
    }
  }
}
