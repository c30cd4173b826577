/** Scan jobs and the manager that records their progress (api/service/job_manager.go,
    job_state.go). Each method is one critical section followed by broadcasts; wall-clock
    timestamps and message texts are left out. */
module JobManager {
  import opened Text

  datatype Protocol = AaveV3 | BalancerV2 | UniswapV2 | Unknown(name: string)

  datatype Status = Pending | Running | Completed | Failed

  datatype Params = Params(chainID: nat, startBlock: nat, endBlock: nat, traceEnabled: bool, protocols: seq<Protocol>)

  datatype Finding = Finding(tx: string, protocol: Protocol, block: nat, verified: bool, strict: bool)

  datatype Level = Info | Error

  /** Of a log's message only the first transaction hash it mentions is kept. */
  datatype LogEntry = LogEntry(level: Level, protocol: Option<Protocol>, block: nat, hash: Option<string>)

  /** A protocol's progress; its snapshot on the wire holds the same fields. */
  datatype ProtocolState = ProtocolState(protocol: Protocol, status: Status, startBlock: nat, endBlock: nat, currentBlock: nat,
                                         candidates: nat, verified: nat, strict: nat, latestFinding: Option<Finding>, error: string)

  datatype Totals = Totals(candidates: nat, verified: nat, strict: nat)

  datatype Job = Job(id: string, params: Params, status: Status, protocols: map<Protocol, ProtocolState>,
                     findings: seq<Finding>, logs: seq<LogEntry>, totals: Totals, error: string)

  datatype Overview = Overview(id: string, params: Params, status: Status, totals: Totals, completedProtocols: nat,
                               protocols: map<Protocol, ProtocolState>, error: string)

  /** What is broadcast to the subscribers of a job. */
  datatype Message = OfJob(overview: Overview) | OfProtocol(snapshot: ProtocolState) | OfFinding(finding: Finding) | OfLog(entry: LogEntry)

  predicate StartsWithHash(s: string) {
    |s| >= 66 && s[..2] == "0x" && forall i :: 2 <= i < 66 ==> IsHexDigit(s[i])
  }

  /** The first 0x followed by 64 hexadecimal digits. */
  function ExtractTxHash(s: string): Option<string> {
    if s == "" then None else if StartsWithHash(s) then Some(s[..66]) else ExtractTxHash(s[1..])
  }

  datatype Result<+T> = Ok(value: T) | Err(reason: string)

  const MAX_LOGS := 200

  // ---- protocols of a request ----

  function DistinctUpTo(protocols: seq<Protocol>, k: nat): (out: seq<Protocol>)
    requires k <= |protocols|
    ensures forall p :: p in out <==> p in protocols[..k]
    ensures forall i, j :: 0 <= i < j < |out| ==> out[i] != out[j]
  {
    if k == 0 then [] else
      assert protocols[..k] == protocols[..k - 1] + [protocols[k - 1]];
      var before := DistinctUpTo(protocols, k - 1);
      if protocols[k - 1] in before then before else before + [protocols[k - 1]]
  }

  /** The distinct protocols in request order; nothing at all or anything unknown is refused. */
  function Normalized(protocols: seq<Protocol>): Result<seq<Protocol>> {
    if protocols == [] then Err("at least one protocol is required")
    else if exists p :: p in protocols && p.Unknown? then Err("unsupported protocol")
    else Ok(DistinctUpTo(protocols, |protocols|))
  }

  method NormalizeProtocols(protocols: seq<Protocol>) returns (result: Result<seq<Protocol>>)
    ensures result == Normalized(protocols)
  {
    if |protocols| == 0 {
      return Err("at least one protocol is required");
    }
    var seen: set<Protocol> := {};
    var out: seq<Protocol> := [];
    for k := 0 to |protocols|
      invariant forall p :: p in protocols[..k] ==> !p.Unknown?
      invariant out == DistinctUpTo(protocols, k) && forall p :: p in seen <==> p in out
    {
      var p := protocols[k];
      assert protocols[..k + 1] == protocols[..k] + [p];
      if p.Unknown? {
        assert p in protocols;
        return Err("unsupported protocol");
      }
      if p in seen {
        continue;
      }
      seen := seen + {p};
      out := out + [p];
    }
    assert protocols[..|protocols|] == protocols;
    return Ok(out);
  }

  // ---- totals ----

  function Part(protocols: map<Protocol, ProtocolState>, p: Protocol): Totals {
    if p in protocols then Totals(protocols[p].candidates, protocols[p].verified, protocols[p].strict) else Totals(0, 0, 0)
  }

  function Plus(a: Totals, b: Totals): Totals {
    Totals(a.candidates + b.candidates, a.verified + b.verified, a.strict + b.strict)
  }

  function Sum3(a: Totals, b: Totals, c: Totals): Totals {
    Plus(Plus(a, b), c)
  }

  lemma {:induction false} Sum3Add(a: Totals, b: Totals, c: Totals)
    ensures Plus(Sum3(Totals(0, 0, 0), b, c), a) == Sum3(a, b, c)
    ensures Plus(Sum3(a, Totals(0, 0, 0), c), b) == Sum3(a, b, c)
    ensures Plus(Sum3(a, b, Totals(0, 0, 0)), c) == Sum3(a, b, c)
    ensures Sum3(Totals(0, 0, 0), Totals(0, 0, 0), Totals(0, 0, 0)) == Totals(0, 0, 0)
  {
  }

  /** The counts of all protocols added up. */
  function SumOf(protocols: map<Protocol, ProtocolState>): Totals {
    Sum3(Part(protocols, AaveV3), Part(protocols, BalancerV2), Part(protocols, UniswapV2))
  }

  function PartIn(protocols: map<Protocol, ProtocolState>, some: set<Protocol>, p: Protocol): Totals {
    if p in some then Part(protocols, p) else Totals(0, 0, 0)
  }

  /** The counts of some of the protocols added up. */
  function SumIn(protocols: map<Protocol, ProtocolState>, some: set<Protocol>): Totals {
    Sum3(PartIn(protocols, some, AaveV3), PartIn(protocols, some, BalancerV2), PartIn(protocols, some, UniswapV2))
  }

  lemma {:induction false} AddOne(protocols: map<Protocol, ProtocolState>, some: set<Protocol>, p: Protocol)
    requires p !in some && !p.Unknown?
    ensures SumIn(protocols, some + {p}) == Plus(SumIn(protocols, some), Part(protocols, p))
  {
    hide Part, PartIn, Plus, Sum3;
    PartAdded(protocols, some, p, AaveV3);
    PartAdded(protocols, some, p, BalancerV2);
    PartAdded(protocols, some, p, UniswapV2);
    var a, b, c := PartIn(protocols, some, AaveV3), PartIn(protocols, some, BalancerV2), PartIn(protocols, some, UniswapV2);
    var x := Part(protocols, p);
    match p {
      case AaveV3 => Sum3Add(x, b, c);
      case BalancerV2 => Sum3Add(a, x, c);
      case UniswapV2 => Sum3Add(a, b, x);
    }
  }

  lemma {:induction false} PartAdded(protocols: map<Protocol, ProtocolState>, some: set<Protocol>, p: Protocol, q: Protocol)
    requires p !in some
    ensures PartIn(protocols, some + {p}, q) == if q == p then Part(protocols, p) else PartIn(protocols, some, q)
    ensures PartIn(protocols, some, p) == Totals(0, 0, 0)
  {
    hide Part;
  }

  lemma {:induction false} SumInAll(protocols: map<Protocol, ProtocolState>)
    ensures SumIn(protocols, {}) == Totals(0, 0, 0)
    ensures SumIn(protocols, protocols.Keys) == SumOf(protocols)
  {
    hide Plus, Sum3;
    Sum3Add(Totals(0, 0, 0), Totals(0, 0, 0), Totals(0, 0, 0));
  }

  predicate IsKnown(protocols: map<Protocol, ProtocolState>) {
    forall p :: p in protocols ==> !p.Unknown?
  }

  function IsCompleted(protocols: map<Protocol, ProtocolState>, p: Protocol): nat {
    if p in protocols && protocols[p].status == Completed then 1 else 0
  }

  function CompletedCount(protocols: map<Protocol, ProtocolState>): nat {
    IsCompleted(protocols, AaveV3) + IsCompleted(protocols, BalancerV2) + IsCompleted(protocols, UniswapV2)
  }

  // ---- the critical sections, as functions on a job ----

  function OverviewOf(job: Job): Overview {
    Overview(job.id, job.params, job.status, job.totals, CompletedCount(job.protocols), job.protocols, job.error)
  }

  function Truncated(logs: seq<LogEntry>): seq<LogEntry> {
    if |logs| > MAX_LOGS then logs[..MAX_LOGS] else logs
  }

  function WithLog(job: Job, entry: LogEntry): Job {
    job.(logs := Truncated([entry] + job.logs))
  }

  function WithProtocol(job: Job, state: ProtocolState): Job {
    job.(protocols := job.protocols[state.protocol := state])
  }

  function Recalculated(job: Job): Job {
    job.(totals := SumOf(job.protocols))
  }

  function NewJob(id: string, params: Params, protocols: seq<Protocol>): Job {
    Job(id, params, Pending,
        map p | p in protocols :: ProtocolState(p, Pending, params.startBlock, params.endBlock, 0, 0, 0, 0, None, ""),
        [], [], Totals(0, 0, 0), "")
  }

  datatype Progress = Progress(protocol: Protocol, currentBlock: nat, candidates: nat, verified: nat, strict: nat)

  datatype Op =
    | JobStarted
    | JobCompleted
    | JobFailed(message: string)
    | ProtocolStarted(protocol: Protocol, startBlock: nat, endBlock: nat)
    | ProtocolProgress(progress: Progress)
    | FindingRecorded(finding: Finding)
    | ProtocolCompleted(progress: Progress)
    | ProtocolFailed(protocol: Protocol, currentBlock: nat, message: string)

  /** The protocol an operation is about; operations on a job's own status are about none. */
  function About(op: Op): Option<Protocol> {
    match op
    case ProtocolStarted(p, _, _) => Some(p)
    case ProtocolProgress(x) => Some(x.protocol)
    case FindingRecorded(f) => Some(f.protocol)
    case ProtocolCompleted(x) => Some(x.protocol)
    case ProtocolFailed(p, _, _) => Some(p)
    case _ => None
  }

  predicate Applies(job: Job, op: Op) {
    About(op).Some? ==> About(op).value in job.protocols
  }

  function LogFor(op: Op): Option<LogEntry> {
    match op
    case JobStarted => Some(LogEntry(Info, None, 0, None))
    case JobCompleted => Some(LogEntry(Info, None, 0, None))
    case JobFailed(message) => Some(LogEntry(Error, None, 0, ExtractTxHash(message)))
    case ProtocolStarted(p, start, _) => Some(LogEntry(Info, Some(p), start, None))
    case ProtocolProgress(_) => None
    case FindingRecorded(f) => Some(LogEntry(Info, Some(f.protocol), f.block, ExtractTxHash(f.tx)))
    case ProtocolCompleted(x) => Some(LogEntry(Info, Some(x.protocol), x.currentBlock, None))
    case ProtocolFailed(p, current, message) => Some(LogEntry(Error, Some(p), current, ExtractTxHash(message)))
  }

  function Progressed(state: ProtocolState, x: Progress, status: Status): ProtocolState {
    state.(status := status, currentBlock := x.currentBlock, candidates := x.candidates, verified := x.verified, strict := x.strict)
  }

  /** What an operation does to the job, before its log entry. */
  function Updated(job: Job, op: Op): Job
    requires Applies(job, op)
  {
    match op
    case JobStarted => job.(status := Running)
    case JobCompleted => job.(status := Completed)
    case JobFailed(message) => job.(status := Failed, error := message)
    case ProtocolStarted(p, start, end) =>
      WithProtocol(job, job.protocols[p].(protocol := p, status := Running, startBlock := start, endBlock := end, currentBlock := start))
    case ProtocolProgress(x) => Recalculated(WithProtocol(job, Progressed(job.protocols[x.protocol], x, Running).(protocol := x.protocol)))
    case FindingRecorded(f) => WithProtocol(job, job.protocols[f.protocol].(protocol := f.protocol, latestFinding := Some(f))).(findings := [f] + job.findings)
    case ProtocolCompleted(x) => Recalculated(WithProtocol(job, Progressed(job.protocols[x.protocol], x, Completed).(protocol := x.protocol)))
    case ProtocolFailed(p, current, message) =>
      Recalculated(WithProtocol(job, job.protocols[p].(protocol := p, status := Failed, currentBlock := current, error := message)))
  }

  /** An operation on a protocol the job does not have changes nothing. */
  function Applied(job: Job, op: Op): Job {
    if !Applies(job, op) then job else
    var updated := Updated(job, op);
    if LogFor(op).Some? then WithLog(updated, LogFor(op).value) else updated
  }

  /** What is broadcast afterwards, in order, as snapshots of the job at the end of the critical section. */
  function Messages(job: Job, op: Op): seq<Message> {
    var after := Applied(job, op);
    if !Applies(job, op) then []
    else if op.FindingRecorded? then [OfFinding(op.finding), OfLog(LogFor(op).value)]
    else if About(op).None? then [OfJob(OverviewOf(after)), OfLog(LogFor(op).value)]
    else if LogFor(op).None? then [OfProtocol(after.protocols[About(op).value]), OfJob(OverviewOf(after))]
    else [OfProtocol(after.protocols[About(op).value]), OfJob(OverviewOf(after)), OfLog(LogFor(op).value)]
  }

  // ---- the manager ----

  /** A subscriber's channel: a bounded buffer; what does not fit is dropped. */
  datatype Channel = Channel(capacity: nat, items: seq<Message>)

  function Offered(c: Channel, m: Message): Channel {
    if |c.items| < c.capacity then c.(items := c.items + [m]) else c
  }

  function OfferedAll(c: Channel, ms: seq<Message>): Channel
    decreases ms
  {
    if ms == [] then c else OfferedAll(Offered(c, ms[0]), ms[1..])
  }

  function Broadcasted(channels: map<nat, Channel>, ms: seq<Message>): map<nat, Channel> {
    map ch | ch in channels :: OfferedAll(channels[ch], ms)
  }

  function ChannelsOf(subscribers: map<string, map<nat, Channel>>, id: string): map<nat, Channel> {
    if id in subscribers then subscribers[id] else map[]
  }

  predicate IsActive(job: Job) {
    job.status == Pending || job.status == Running
  }

  predicate AnyActive(jobs: map<string, Job>) {
    exists id :: id in jobs && IsActive(jobs[id])
  }

  /** Why a request is refused, if it is. */
  function Refusal(jobs: map<string, Job>, params: Params): Option<string> {
    if params.chainID == 0 then Some("chain id is required")
    else if params.endBlock < params.startBlock then Some("end block is less than start block")
    else if Normalized(params.protocols).Err? then Some(Normalized(params.protocols).reason)
    else if AnyActive(jobs) then Some("a scan job is already active")
    else None
  }

  class Manager {
    var jobs: map<string, Job>
    var subscribers: map<string, map<nat, Channel>>

    /** Jobs only have protocols the scanner knows: CreateJob refuses any other. */
    ghost predicate Valid()
      reads this
    {
      forall id :: id in jobs ==> IsKnown(jobs[id].protocols)
    }

    constructor ()
      ensures Valid() && jobs == map[] && subscribers == map[]
    {
      jobs, subscribers := map[], map[];
    }

    method HasActiveJob() returns (active: bool)
      ensures active <==> AnyActive(jobs)
    {
      var rest := jobs.Keys;
      while rest != {}
        invariant rest <= jobs.Keys && forall id :: id in jobs.Keys - rest ==> !IsActive(jobs[id])
        decreases |rest|
      {
        var id :| id in rest;
        if jobs[id].status == Pending || jobs[id].status == Running {
          return true;
        }
        rest := rest - {id};
      }
      return false;
    }

    /** The id is a fresh one. */
    method CreateJob(id: string, params: Params) returns (result: Result<Overview>)
      requires Valid() && id !in jobs
      modifies this`jobs
      ensures Valid()
      ensures
        var refusal := Refusal(old(jobs), params);
        if refusal.Some? then result == Err(refusal.value) && jobs == old(jobs)
        else
          var job := NewJob(id, params, Normalized(params.protocols).value);
          result == Ok(OverviewOf(job)) && jobs == old(jobs)[id := job]
    {
      if params.chainID == 0 {
        return Err("chain id is required");
      }
      if params.endBlock < params.startBlock {
        return Err("end block is less than start block");
      }
      var protocols := NormalizeProtocols(params.protocols);
      if protocols.Err? {
        return Err(protocols.reason);
      }
      var active := HasActiveJob();
      if active {
        return Err("a scan job is already active");
      }
      var states: map<Protocol, ProtocolState> := map[];
      for k := 0 to |protocols.value|
        invariant states == NewJob(id, params, protocols.value[..k]).protocols
      {
        var p := protocols.value[k];
        states := states[p := ProtocolState(p, Pending, params.startBlock, params.endBlock, 0, 0, 0, 0, None, "")];
        assert protocols.value[..k + 1] == protocols.value[..k] + [p];
      }
      assert protocols.value[..|protocols.value|] == protocols.value;
      var job := Job(id, params, Pending, states, [], [], Totals(0, 0, 0), "");
      jobs := jobs[id := job];
      return Ok(OverviewOf(job));
    }

    /** The channel number is a fresh one. */
    method Subscribe(id: string, channel: nat, buffer: nat) returns (ok: bool)
      requires channel !in ChannelsOf(subscribers, id)
      modifies this`subscribers
      ensures ok <==> id in jobs
      ensures subscribers == if ok then old(subscribers)[id := ChannelsOf(old(subscribers), id)[channel := Channel(if buffer == 0 then 64 else buffer, [])]]
                             else old(subscribers)
    {
      ok := id in jobs;
      if ok {
        subscribers := subscribers[id := ChannelsOf(subscribers, id)[channel := Channel(if buffer == 0 then 64 else buffer, [])]];
      }
    }

    method Broadcast(id: string, message: Message)
      modifies this`subscribers
      ensures ChannelsOf(subscribers, id) == map ch | ch in ChannelsOf(old(subscribers), id) :: Offered(ChannelsOf(old(subscribers), id)[ch], message)
      ensures forall other :: other != id ==> ChannelsOf(subscribers, other) == ChannelsOf(old(subscribers), other)
    {
      ghost var before := ChannelsOf(subscribers, id);
      if id !in subscribers {
        return;
      }
      var channels := subscribers[id];
      var rest := channels.Keys;
      while rest != {}
        invariant rest <= channels.Keys == before.Keys
        invariant forall ch :: ch in before ==> channels[ch] == if ch in rest then before[ch] else Offered(before[ch], message)
        decreases |rest|
      {
        var ch :| ch in rest;
        if |channels[ch].items| < channels[ch].capacity {
          channels := channels[ch := channels[ch].(items := channels[ch].items + [message])];
        }
        rest := rest - {ch};
      }
      subscribers := subscribers[id := channels];
    }

    method BroadcastAll(id: string, messages: seq<Message>)
      modifies this`subscribers
      ensures ChannelsOf(subscribers, id) == Broadcasted(ChannelsOf(old(subscribers), id), messages)
      ensures forall other :: other != id ==> ChannelsOf(subscribers, other) == ChannelsOf(old(subscribers), other)
    {
      ghost var before := ChannelsOf(subscribers, id);
      for k := 0 to |messages|
        invariant ChannelsOf(subscribers, id).Keys == before.Keys
        invariant forall ch :: ch in before ==> OfferedAll(ChannelsOf(subscribers, id)[ch], messages[k..]) == OfferedAll(before[ch], messages)
        invariant forall other :: other != id ==> ChannelsOf(subscribers, other) == ChannelsOf(old(subscribers), other)
      {
        assert messages[k..][1..] == messages[k + 1..];
        Broadcast(id, messages[k]);
      }
    }

    /** recalculateJobTotalsLocked: a loop over the protocol map, in any order. */
    static method RecalculateTotals(protocols: map<Protocol, ProtocolState>) returns (totals: Totals)
      requires IsKnown(protocols)
      ensures totals == SumOf(protocols)
    {
      hide SumIn, SumOf;
      SumInAll(protocols);
      totals := Totals(0, 0, 0);
      var rest := protocols.Keys;
      assert protocols.Keys - rest == {};
      while rest != {}
        invariant rest <= protocols.Keys
        invariant totals == SumIn(protocols, protocols.Keys - rest)
        decreases |rest|
      {
        var p :| p in rest;
        AddOne(protocols, protocols.Keys - rest, p);
        assert protocols.Keys - (rest - {p}) == protocols.Keys - rest + {p};
        totals := Totals(totals.candidates + protocols[p].candidates, totals.verified + protocols[p].verified, totals.strict + protocols[p].strict);
        rest := rest - {p};
      }
      assert protocols.Keys - rest == protocols.Keys;
    }

    /** What recording an operation does: an error if the job or its protocol is unknown, and otherwise
        the updated job, the broadcast of its messages, and nothing else. */
    twostate predicate Recorded(id: string, op: Op, ok: bool)
      reads this
    {
      && ok == (id in old(jobs) && Applies(old(jobs)[id], op))
      && jobs == (if ok then old(jobs)[id := Applied(old(jobs)[id], op)] else old(jobs))
      && ChannelsOf(subscribers, id) == (if ok then Broadcasted(ChannelsOf(old(subscribers), id), Messages(old(jobs)[id], op))
                                         else ChannelsOf(old(subscribers), id))
      && (forall other :: other != id ==> ChannelsOf(subscribers, other) == ChannelsOf(old(subscribers), other))
    }

    method MarkJobStarted(id: string) returns (ok: bool)
      requires Valid()
      modifies this
      ensures Valid() && Recorded(id, JobStarted, ok)
    {
      if id !in jobs {
        return false;
      }
      var job := jobs[id].(status := Running);
      var entry := LogEntry(Info, None, 0, None);
      job := WithLog(job, entry);
      jobs := jobs[id := job];
      BroadcastAll(id, [OfJob(OverviewOf(job)), OfLog(entry)]);
      return true;
    }

    method MarkJobCompleted(id: string) returns (ok: bool)
      requires Valid()
      modifies this
      ensures Valid() && Recorded(id, JobCompleted, ok)
    {
      if id !in jobs {
        return false;
      }
      var job := jobs[id].(status := Completed);
      var entry := LogEntry(Info, None, 0, None);
      job := WithLog(job, entry);
      jobs := jobs[id := job];
      BroadcastAll(id, [OfJob(OverviewOf(job)), OfLog(entry)]);
      return true;
    }

    method MarkJobFailed(id: string, message: string) returns (ok: bool)
      requires Valid()
      modifies this
      ensures Valid() && Recorded(id, JobFailed(message), ok)
    {
      if id !in jobs {
        return false;
      }
      var job := jobs[id].(status := Failed);
      job := job.(error := message);
      var entry := LogEntry(Error, None, 0, ExtractTxHash(message));
      job := WithLog(job, entry);
      jobs := jobs[id := job];
      BroadcastAll(id, [OfJob(OverviewOf(job)), OfLog(entry)]);
      return true;
    }

    method RecordProtocolStarted(id: string, p: Protocol, startBlock: nat, endBlock: nat) returns (ok: bool)
      requires Valid()
      modifies this
      ensures Valid() && Recorded(id, ProtocolStarted(p, startBlock, endBlock), ok)
    {
      if id !in jobs || p !in jobs[id].protocols {
        return false;
      }
      var state := jobs[id].protocols[p].(protocol := p, status := Running);
      state := state.(startBlock := startBlock, endBlock := endBlock, currentBlock := startBlock);
      var entry := LogEntry(Info, Some(p), startBlock, None);
      var job := WithLog(WithProtocol(jobs[id], state), entry);
      jobs := jobs[id := job];
      BroadcastAll(id, [OfProtocol(state), OfJob(OverviewOf(job)), OfLog(entry)]);
      return true;
    }

    method RecordProtocolProgress(id: string, x: Progress) returns (ok: bool)
      requires Valid()
      modifies this
      ensures Valid() && Recorded(id, ProtocolProgress(x), ok)
    {
      hide SumOf, Broadcasted, Truncated, CompletedCount, ExtractTxHash;
      if id !in jobs || x.protocol !in jobs[id].protocols {
        return false;
      }
      var state := jobs[id].protocols[x.protocol].(protocol := x.protocol, status := Running, currentBlock := x.currentBlock);
      state := state.(candidates := x.candidates, verified := x.verified, strict := x.strict);
      var job := WithProtocol(jobs[id], state);
      var totals := RecalculateTotals(job.protocols);
      job := job.(totals := totals);
      jobs := jobs[id := job];
      BroadcastAll(id, [OfProtocol(state), OfJob(OverviewOf(job))]);
      return true;
    }

    method RecordFinding(id: string, finding: Finding) returns (ok: bool)
      requires Valid()
      modifies this
      ensures Valid() && Recorded(id, FindingRecorded(finding), ok)
    {
      if id !in jobs || finding.protocol !in jobs[id].protocols {
        return false;
      }
      var p := finding.protocol;
      var job := jobs[id].(findings := [finding] + jobs[id].findings);
      job := WithProtocol(job, job.protocols[p].(protocol := p, latestFinding := Some(finding)));
      var entry := LogEntry(Info, Some(p), finding.block, ExtractTxHash(finding.tx));
      job := WithLog(job, entry);
      jobs := jobs[id := job];
      BroadcastAll(id, [OfFinding(finding), OfLog(entry)]);
      return true;
    }

    method RecordProtocolCompleted(id: string, x: Progress) returns (ok: bool)
      requires Valid()
      modifies this
      ensures Valid() && Recorded(id, ProtocolCompleted(x), ok)
    {
      hide SumOf, Broadcasted, Truncated, CompletedCount, ExtractTxHash;
      if id !in jobs || x.protocol !in jobs[id].protocols {
        return false;
      }
      var state := jobs[id].protocols[x.protocol].(protocol := x.protocol, status := Completed, currentBlock := x.currentBlock);
      state := state.(candidates := x.candidates, verified := x.verified, strict := x.strict);
      var job := WithProtocol(jobs[id], state);
      var totals := RecalculateTotals(job.protocols);
      job := job.(totals := totals);
      var entry := LogEntry(Info, Some(x.protocol), x.currentBlock, None);
      job := WithLog(job, entry);
      jobs := jobs[id := job];
      BroadcastAll(id, [OfProtocol(state), OfJob(OverviewOf(job)), OfLog(entry)]);
      return true;
    }

    method RecordProtocolFailed(id: string, p: Protocol, currentBlock: nat, message: string) returns (ok: bool)
      requires Valid()
      modifies this
      ensures Valid() && Recorded(id, ProtocolFailed(p, currentBlock, message), ok)
    {
      hide SumOf, Broadcasted, Truncated, CompletedCount, ExtractTxHash;
      if id !in jobs || p !in jobs[id].protocols {
        return false;
      }
      var state := jobs[id].protocols[p].(protocol := p, status := Failed, currentBlock := currentBlock);
      state := state.(error := message);
      var job := WithProtocol(jobs[id], state);
      var totals := RecalculateTotals(job.protocols);
      job := job.(totals := totals);
      var entry := LogEntry(Error, Some(p), currentBlock, ExtractTxHash(message));
      job := WithLog(job, entry);
      jobs := jobs[id := job];
      BroadcastAll(id, [OfProtocol(state), OfJob(OverviewOf(job)), OfLog(entry)]);
      return true;
    }
  }
}
