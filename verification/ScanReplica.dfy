/** The browser's store as a replica of a job (frontend/src/store/useScanStore.ts), fed by the
    messages the job manager broadcasts. */
module ScanReplica {
  import opened Text
  import opened JobManager

  /** The store's state while it follows a job; an absent error is the empty string. */
  datatype Client = Client(jobID: Option<string>, status: Status, totals: Totals, completedProtocols: nat,
                           protocols: map<Protocol, ProtocolState>, findings: seq<Finding>, logs: seq<LogEntry>, error: string)

  // ---- the reducer ----

  function FirstWithHash(findings: seq<Finding>, hash: string): Option<Finding> {
    if findings == [] then None
    else if Lower(findings[0].tx) == Lower(hash) then Some(findings[0])
    else FirstWithHash(findings[1..], hash)
  }

  function EnrichLog(log: LogEntry, findings: seq<Finding>): LogEntry {
    if log.block != 0 || log.hash.None? then log
    else
      var finding := FirstWithHash(findings, log.hash.value);
      if finding.None? then log else log.(block := finding.value.block)
  }

  function ApplyOverview(c: Client, o: Overview): Client {
    c.(jobID := Some(o.id), status := o.status, error := o.error, totals := o.totals,
       completedProtocols := o.completedProtocols, protocols := c.protocols + o.protocols)
  }

  function ApplyMessage(c: Client, m: Message): Client {
    match m
    case OfJob(overview) => ApplyOverview(c, overview)
    case OfProtocol(snapshot) => c.(protocols := c.protocols[snapshot.protocol := snapshot])
    case OfFinding(finding) => c.(findings := [finding] + c.findings)
    case OfLog(entry) => c.(logs := Truncated([EnrichLog(entry, c.findings)] + c.logs))
  }

  function ApplyAll(c: Client, ms: seq<Message>): Client
    decreases ms
  {
    if ms == [] then c else ApplyAll(ApplyMessage(c, ms[0]), ms[1..])
  }

  function StartScan(params: Params): Client {
    Client(None, Pending, Totals(0, 0, 0), 0,
           map p | p in params.protocols :: ProtocolState(p, Pending, params.startBlock, params.endBlock, 0, 0, 0, 0, None, ""),
           [], [], "")
  }

  // ---- agreement under in-order delivery ----

  /** The same entry, but for a block number that the client may fill in where the server has none. */
  predicate SameLog(server: LogEntry, client: LogEntry) {
    client == server || (server.block == 0 && server.hash.Some? && client == server.(block := client.block))
  }

  ghost predicate SameLogs(server: seq<LogEntry>, client: seq<LogEntry>) {
    |server| == |client| && forall i :: 0 <= i < |server| ==> SameLog(server[i], client[i])
  }

  /** Equal, but for the latest finding where it may lag. */
  predicate SameProtocol(server: ProtocolState, client: ProtocolState, lags: bool) {
    client == (if lags then server.(latestFinding := client.latestFinding) else server)
  }

  ghost predicate Agrees(job: Job, c: Client, lagging: set<Protocol>) {
    && c.status == job.status && c.error == job.error && c.totals == job.totals
    && c.completedProtocols == CompletedCount(job.protocols)
    && c.findings == job.findings && SameLogs(job.logs, c.logs)
    && c.protocols.Keys == job.protocols.Keys
    && (forall p :: p in job.protocols ==> job.protocols[p].protocol == p)
    && (forall p :: p in job.protocols ==> SameProtocol(job.protocols[p], c.protocols[p], p in lagging))
  }

  function Performed(job: Job, ops: seq<Op>, k: nat): Job
    requires k <= |ops|
  {
    if k == 0 then job else Applied(Performed(job, ops, k - 1), ops[k - 1])
  }

  function Received(c: Client, job: Job, ops: seq<Op>, k: nat): Client
    requires k <= |ops|
  {
    if k == 0 then c else ApplyAll(Received(c, job, ops, k - 1), Messages(Performed(job, ops, k - 1), ops[k - 1]))
  }

  /** The protocols whose latest finding the client has not heard of: those with a finding since the
      last operation of any other kind. */
  function Lagging(job: Job, ops: seq<Op>, k: nat): set<Protocol>
    requires k <= |ops|
  {
    if k == 0 then {}
    else if !Applies(job, ops[k - 1]) then Lagging(job, ops, k - 1)
    else if ops[k - 1].FindingRecorded? then Lagging(job, ops, k - 1) + {ops[k - 1].finding.protocol}
    else {}
  }

  lemma {:induction false} AppliedKeys(job: Job, op: Op)
    ensures Applied(job, op).protocols.Keys == job.protocols.Keys
  {
    hide SumOf, Truncated;
    if Applies(job, op) && About(op).Some? {
      assert About(op).value in job.protocols.Keys;
      assert job.protocols.Keys + {About(op).value} == job.protocols.Keys;
    }
  }

  lemma {:induction false} KeysKept(job: Job, ops: seq<Op>, k: nat)
    requires k <= |ops|
    ensures Performed(job, ops, k).protocols.Keys == job.protocols.Keys
    ensures forall op :: Applies(Performed(job, ops, k), op) <==> Applies(job, op)
  {
    hide Applied;
    if k > 0 {
      KeysKept(job, ops, k - 1);
      AppliedKeys(Performed(job, ops, k - 1), ops[k - 1]);
    }
    forall op ensures Applies(Performed(job, ops, k), op) <==> Applies(job, op) {
      assert About(op).Some? ==> (About(op).value in Performed(job, ops, k).protocols.Keys <==> About(op).value in job.protocols.Keys);
    }
  }

  lemma {:induction false} LogsAgree(server: seq<LogEntry>, client: seq<LogEntry>, entry: LogEntry, findings: seq<Finding>)
    requires SameLogs(server, client)
    ensures SameLogs(Truncated([entry] + server), Truncated([EnrichLog(entry, findings)] + client))
  {
  }

  /** An overview brings everything but findings and logs up to date. */
  lemma {:induction false} OverviewAgrees(job: Job, c: Client)
    requires c.findings == job.findings && SameLogs(job.logs, c.logs) && c.protocols.Keys <= job.protocols.Keys
    requires forall p :: p in job.protocols ==> job.protocols[p].protocol == p
    ensures Agrees(job, ApplyOverview(c, OverviewOf(job)), {})
  {
    hide CompletedCount, SameLogs;
    var after := ApplyOverview(c, OverviewOf(job));
    assert forall p :: p in c.protocols ==> p in c.protocols.Keys;
    assert after.protocols == job.protocols;
  }

  lemma {:induction false} ApplyTwo(c: Client, a: Message, b: Message)
    ensures ApplyAll(c, [a, b]) == ApplyMessage(ApplyMessage(c, a), b)
  {
    hide ApplyMessage;
    assert [a, b][1..] == [b] && [b][1..] == [];
    assert ApplyAll(ApplyMessage(c, a), [b]) == ApplyAll(ApplyMessage(ApplyMessage(c, a), b), []);
  }

  lemma {:induction false} ApplyThree(c: Client, a: Message, b: Message, d: Message)
    ensures ApplyAll(c, [a, b, d]) == ApplyMessage(ApplyMessage(ApplyMessage(c, a), b), d)
  {
    hide ApplyMessage;
    assert [a, b, d][1..] == [b, d];
    ApplyTwo(ApplyMessage(c, a), b, d);
  }

  /** A log at the end of an operation keeps agreement. */
  lemma {:induction false} LogAgrees(job: Job, c: Client, entry: LogEntry, lagging: set<Protocol>)
    requires Agrees(job, c, lagging)
    ensures Agrees(WithLog(job, entry), ApplyMessage(c, OfLog(entry)), lagging)
  {
    LogsAgree(job.logs, c.logs, entry, c.findings);
    hide SameLogs, EnrichLog, CompletedCount, Truncated;
  }

  /** What every operation but a finding leaves for the overview to bring up to date. */
  lemma {:induction false} UpdatedAgrees(job: Job, c: Client, op: Op, lagging: set<Protocol>)
    requires Agrees(job, c, lagging) && Applies(job, op) && !op.FindingRecorded?
    ensures
      var updated := Updated(job, op);
      && c.findings == updated.findings && SameLogs(updated.logs, c.logs)
      && c.protocols.Keys == updated.protocols.Keys && (forall p :: p in updated.protocols ==> updated.protocols[p].protocol == p)
      && (About(op).Some? ==> About(op).value in updated.protocols)
  {
    hide SameLogs, CompletedCount, SumOf, SameProtocol;
    if About(op).Some? {
      assert About(op).value in job.protocols.Keys;
      assert job.protocols.Keys + {About(op).value} == job.protocols.Keys;
    }
  }

  /** Overviews do not show logs, so they are the same before and after the log entry is added. */
  lemma {:induction false} OverviewBeforeLog(job: Job, entry: LogEntry)
    ensures OverviewOf(WithLog(job, entry)) == OverviewOf(job)
  {
    hide Truncated, CompletedCount;
  }

  lemma {:induction false} StatusOpAgrees(job: Job, c: Client, op: Op, lagging: set<Protocol>)
    requires Agrees(job, c, lagging) && About(op).None?
    ensures Agrees(Applied(job, op), ApplyAll(c, Messages(job, op)), {})
  {
    hide Agrees, OverviewOf, WithLog, ApplyMessage, SameLogs, ExtractTxHash;
    var updated, entry := Updated(job, op), LogFor(op).value;
    UpdatedAgrees(job, c, op, lagging);
    OverviewAgrees(updated, c);
    OverviewBeforeLog(updated, entry);
    ApplyTwo(c, OfJob(OverviewOf(updated)), OfLog(entry));
    OfJobApplies(c, updated);
    LogAgrees(updated, ApplyOverview(c, OverviewOf(updated)), entry, {});
  }

  lemma {:induction false} OfJobApplies(c: Client, job: Job)
    ensures ApplyMessage(c, OfJob(OverviewOf(job))) == ApplyOverview(c, OverviewOf(job))
  {
  }

  /** A protocol's own message changes nothing the overview would not bring. */
  lemma {:induction false} SnapshotThenOverview(c: Client, job: Job, p: Protocol)
    requires p in job.protocols && job.protocols[p].protocol == p
    ensures ApplyMessage(ApplyMessage(c, OfProtocol(job.protocols[p])), OfJob(OverviewOf(job))) == ApplyOverview(c, OverviewOf(job))
  {
    hide CompletedCount;
    assert c.protocols[p := job.protocols[p]] + job.protocols == c.protocols + job.protocols;
  }

  lemma {:induction false} ProtocolOpAgrees(job: Job, c: Client, op: Op, lagging: set<Protocol>)
    requires Agrees(job, c, lagging) && Applies(job, op) && About(op).Some? && !op.FindingRecorded?
    ensures Agrees(Applied(job, op), ApplyAll(c, Messages(job, op)), {})
  {
    hide Agrees, OverviewOf, WithLog, ApplyMessage, SameLogs, ExtractTxHash, Updated, ApplyOverview;
    var updated, p := Updated(job, op), About(op).value;
    UpdatedAgrees(job, c, op, lagging);
    OverviewAgrees(updated, c);
    SnapshotThenOverview(c, updated, p);
    if LogFor(op).Some? {
      var entry := LogFor(op).value;
      OverviewBeforeLog(updated, entry);
      ProtocolsBeforeLog(updated, entry);
      ApplyThree(c, OfProtocol(updated.protocols[p]), OfJob(OverviewOf(updated)), OfLog(entry));
      LogAgrees(updated, ApplyOverview(c, OverviewOf(updated)), entry, {});
    } else {
      ApplyTwo(c, OfProtocol(updated.protocols[p]), OfJob(OverviewOf(updated)));
    }
  }

  lemma {:induction false} ProtocolsBeforeLog(job: Job, entry: LogEntry)
    ensures WithLog(job, entry).protocols == job.protocols
  {
    hide Truncated;
  }

  lemma {:induction false} CountSame(a: map<Protocol, ProtocolState>, p: Protocol, state: ProtocolState)
    requires p in a && state.status == a[p].status
    ensures CompletedCount(a[p := state]) == CompletedCount(a)
  {
  }

  lemma {:induction false} FindingAgrees(job: Job, c: Client, f: Finding, lagging: set<Protocol>)
    requires Agrees(job, c, lagging) && f.protocol in job.protocols
    ensures Agrees(Updated(job, FindingRecorded(f)), ApplyMessage(c, OfFinding(f)), lagging + {f.protocol})
  {
    hide SameLogs, CompletedCount;
    var updated := Updated(job, FindingRecorded(f));
    assert f.protocol in job.protocols.Keys;
    assert updated.protocols.Keys == job.protocols.Keys;
    CountSame(job.protocols, f.protocol, updated.protocols[f.protocol]);
  }

  /** One operation, delivered in order: the client agrees with the job again, and lags only in the
      latest finding of protocols that have had a finding since. */
  lemma {:induction false} OpAgrees(job: Job, c: Client, op: Op, lagging: set<Protocol>)
    requires Agrees(job, c, lagging) && Applies(job, op)
    ensures Agrees(Applied(job, op), ApplyAll(c, Messages(job, op)), if op.FindingRecorded? then lagging + {op.finding.protocol} else {})
  {
    hide Agrees, WithLog, ApplyMessage, ExtractTxHash, Updated;
    if About(op).None? {
      StatusOpAgrees(job, c, op, lagging);
    } else if op.FindingRecorded? {
      var f, entry := op.finding, LogFor(op).value;
      FindingAgrees(job, c, f, lagging);
      ApplyTwo(c, OfFinding(f), OfLog(entry));
      LogAgrees(Updated(job, op), ApplyMessage(c, OfFinding(f)), entry, lagging + {f.protocol});
    } else {
      ProtocolOpAgrees(job, c, op, lagging);
    }
  }

  /** A fresh request: the store and the new job agree from the start. */
  lemma {:induction false} StartAgrees(id: string, params: Params)
    requires Normalized(params.protocols).Ok?
    ensures Agrees(NewJob(id, params, Normalized(params.protocols).value), StartScan(params), {})
  {
    assert params.protocols[..|params.protocols|] == params.protocols;
    var job, c := NewJob(id, params, Normalized(params.protocols).value), StartScan(params);
    assert c.protocols == job.protocols;
  }

  /** Replica agreement: for every sequence of job operations whose messages arrive in order and
      complete, the store agrees with the job after each of them. Only latest findings may lag, and
      log entries that carry no block number may show that of the finding they mention. */
  lemma {:induction false} ReplicaAgrees(id: string, params: Params, ops: seq<Op>, k: nat)
    requires Normalized(params.protocols).Ok? && k <= |ops|
    ensures
      var job := NewJob(id, params, Normalized(params.protocols).value);
      Agrees(Performed(job, ops, k), Received(StartScan(params), job, ops, k), Lagging(job, ops, k))
  {
    hide Agrees, Applied, Messages, StartScan, NewJob, Normalized;
    var job := NewJob(id, params, Normalized(params.protocols).value);
    if k == 0 {
      StartAgrees(id, params);
    } else {
      ReplicaAgrees(id, params, ops, k - 1);
      KeysKept(job, ops, k - 1);
      if Applies(job, ops[k - 1]) {
        OpAgrees(Performed(job, ops, k - 1), Received(StartScan(params), job, ops, k - 1), ops[k - 1], Lagging(job, ops, k - 1));
      } else {
        RefusedOp(Performed(job, ops, k - 1), ops[k - 1]);
      }
    }
  }

  lemma {:induction false} RefusedOp(job: Job, op: Op)
    requires !Applies(job, op)
    ensures Applied(job, op) == job && Messages(job, op) == []
  {
  }

  /** How many operations there had been when the last one that was not a finding was recorded. */
  function LastOther(job: Job, ops: seq<Op>, k: nat): (n: nat)
    requires k <= |ops|
    ensures n <= k
  {
    if k == 0 then 0 else if Applies(job, ops[k - 1]) && !ops[k - 1].FindingRecorded? then k else LastOther(job, ops, k - 1)
  }

  lemma {:induction false} FindingLeavesProtocols(c: Client, job: Job, f: Finding)
    ensures ApplyAll(c, Messages(job, FindingRecorded(f))).protocols == c.protocols
  {
    hide Truncated, EnrichLog, ExtractTxHash, Applied;
    if Applies(job, FindingRecorded(f)) {
      ApplyTwo(c, OfFinding(f), OfLog(LogFor(FindingRecorded(f)).value));
    } else {
      RefusedOp(job, FindingRecorded(f));
    }
  }

  lemma {:induction false} UpToDate(job: Job, c: Client, lagging: set<Protocol>)
    requires Agrees(job, c, lagging) && lagging == {}
    ensures c.protocols == job.protocols
  {
    hide SameLogs, CompletedCount;
    assert forall p :: p in c.protocols <==> p in c.protocols.Keys;
    assert forall p :: p in job.protocols <==> p in job.protocols.Keys;
  }

  /** How far latest findings lag: after any operations, delivered in order, the client shows every
      protocol as the job had it right after the last operation that was not a finding. */
  lemma {:induction false} LatestFindingShown(id: string, params: Params, ops: seq<Op>, k: nat)
    requires Normalized(params.protocols).Ok? && k <= |ops|
    ensures
      var job := NewJob(id, params, Normalized(params.protocols).value);
      var client, earlier := Received(StartScan(params), job, ops, k), Performed(job, ops, LastOther(job, ops, k));
      client.protocols == earlier.protocols
  {
    hide Agrees, Applied, Messages, StartScan, NewJob, Normalized;
    var job, op := NewJob(id, params, Normalized(params.protocols).value), if k > 0 then ops[k - 1] else JobStarted;
    if k == 0 {
      StartAgrees(id, params);
      UpToDate(job, StartScan(params), {});
    } else {
      KeysKept(job, ops, k - 1);
      LatestFindingShown(id, params, ops, k - 1);
      if !Applies(job, op) {
        RefusedOp(Performed(job, ops, k - 1), op);
      } else if op.FindingRecorded? {
        FindingLeavesProtocols(Received(StartScan(params), job, ops, k - 1), Performed(job, ops, k - 1), op.finding);
      } else {
        ReplicaAgrees(id, params, ops, k);
        UpToDate(Performed(job, ops, k), Received(StartScan(params), job, ops, k), Lagging(job, ops, k));
      }
    }
  }

  /** All log entries of the operations so far, newest first. */
  function History(job: Job, ops: seq<Op>, k: nat): seq<LogEntry>
    requires k <= |ops|
  {
    if k == 0 then [] else
      (if Applies(job, ops[k - 1]) && LogFor(ops[k - 1]).Some? then [LogFor(ops[k - 1]).value] else []) + History(job, ops, k - 1)
  }

  lemma {:induction false} TruncatedMore(entry: LogEntry, logs: seq<LogEntry>)
    ensures Truncated([entry] + Truncated(logs)) == Truncated([entry] + logs)
  {
  }

  /** A job's log is its 200 latest entries, newest first, whatever the operations. */
  lemma {:induction false} LogIsLatest(id: string, params: Params, protocols: seq<Protocol>, ops: seq<Op>, k: nat)
    requires k <= |ops|
    ensures Performed(NewJob(id, params, protocols), ops, k).logs == Truncated(History(NewJob(id, params, protocols), ops, k))
  {
    hide NewJob, Truncated, SumOf, ExtractTxHash;
    var job := NewJob(id, params, protocols);
    if k == 0 {
      NoLogYet(id, params, protocols);
    } else {
      LogIsLatest(id, params, protocols, ops, k - 1);
      KeysKept(job, ops, k - 1);
      if Applies(job, ops[k - 1]) && LogFor(ops[k - 1]).Some? {
        TruncatedMore(LogFor(ops[k - 1]).value, History(job, ops, k - 1));
      } else {
        assert [] + History(job, ops, k - 1) == History(job, ops, k - 1);
      }
    }
  }

  lemma {:induction false} NoLogYet(id: string, params: Params, protocols: seq<Protocol>)
    ensures NewJob(id, params, protocols).logs == Truncated([])
  {
  }
}
