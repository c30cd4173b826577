/** The recursive searches of the trace verifiers (scanner/verifier/aave_v3_trace.go) and their
    agreement with the linear scans over the flattened frame list. */
module TraceSearch {
  import opened Text
  import opened TraceTree
  import opened TokenCalls
  import opened TraceEvidence
  import RunCover

  const APPROVE := "0x095ea7b3"
  const TRANSFER := "0xa9059cbb"
  const TRANSFER_FROM := "0x23b872dd"

  /** A successful call from `from` to `to` somewhere below the root. */
  predicate HasSuccessfulDirectCall(root: CallFrame, from: string, to: string)
    decreases root, 1
  {
    HasSuccessfulDirectCallIn(root.calls, from, to)
  }

  predicate HasSuccessfulDirectCallIn(calls: seq<CallFrame>, from: string, to: string)
    decreases calls, 0
  {
    calls != [] && (
      IsCallback(calls[0], from, to)
      || HasSuccessfulDirectCall(calls[0], from, to)
      || HasSuccessfulDirectCallIn(calls[1..], from, to))
  }

  predicate IsRepaymentCall(f: CallFrame, provider: string, assets: set<string>) {
    var from, to, selector := Lower(f.from), Lower(f.to), MethodSelector(f.input);
    && f.error == ""
    && (from in assets || to in assets)
    && (selector == APPROVE || selector == TRANSFER || selector == TRANSFER_FROM || from == provider || to == provider)
  }

  predicate HasRepaymentCall(f: CallFrame, provider: string, assets: set<string>)
    decreases f, 1
  {
    IsRepaymentCall(f, provider, assets) || HasRepaymentCallIn(f.calls, provider, assets)
  }

  predicate HasRepaymentCallIn(calls: seq<CallFrame>, provider: string, assets: set<string>)
    decreases calls, 0
  {
    calls != [] && (HasRepaymentCall(calls[0], provider, assets) || HasRepaymentCallIn(calls[1..], provider, assets))
  }

  // ---- recursion agrees with the scan ----

  lemma {:induction false} RepaymentScan(f: CallFrame, provider: string, assets: set<string>, id: string,
                                         parent: string, depth: nat, index: nat)
    ensures HasRepaymentCall(f, provider, assets)
       <==> exists x :: x in Flatten(f, id, parent, depth, index) && IsRepaymentCall(x.frame, provider, assets)
    decreases f, 1
  {
    RepaymentScanIn(f.calls, provider, assets, 0, id, depth + 1, index + 1);
    var head, rest := FlatFrame(f, id, parent, depth, index), FlattenCalls(f.calls, 0, id, depth + 1, index + 1);
    assert Flatten(f, id, parent, depth, index) == [head] + rest;
    if x :| x in rest && IsRepaymentCall(x.frame, provider, assets) {
      assert x in [head] + rest;
    }
    assert head in [head] + rest;
  }

  lemma {:induction false} RepaymentScanIn(calls: seq<CallFrame>, provider: string, assets: set<string>, k: nat,
                                           parent: string, depth: nat, index: nat)
    ensures HasRepaymentCallIn(calls, provider, assets)
       <==> exists x :: x in FlattenCalls(calls, k, parent, depth, index) && IsRepaymentCall(x.frame, provider, assets)
    decreases calls, 0
  {
    if calls != [] {
      RepaymentScan(calls[0], provider, assets, ChildID(parent, k), parent, depth, index);
      RepaymentScanIn(calls[1..], provider, assets, k + 1, parent, depth, index + Size(calls[0]));
      var head := Flatten(calls[0], ChildID(parent, k), parent, depth, index);
      var rest := FlattenCalls(calls[1..], k + 1, parent, depth, index + Size(calls[0]));
      assert FlattenCalls(calls, k, parent, depth, index) == head + rest;
      assert forall x :: x in head + rest <==> x in head || x in rest;
    }
  }

  lemma {:induction false} DirectCallScan(calls: seq<CallFrame>, from: string, to: string, k: nat, parent: string,
                                          depth: nat, index: nat)
    ensures HasSuccessfulDirectCallIn(calls, from, to)
       <==> exists x :: x in FlattenCalls(calls, k, parent, depth, index) && IsCallback(x.frame, from, to)
    decreases calls, 0
  {
    if calls != [] {
      DirectCallScan(calls[0].calls, from, to, 0, ChildID(parent, k), depth + 1, index + 1);
      DirectCallScan(calls[1..], from, to, k + 1, parent, depth, index + Size(calls[0]));
      var top := FlatFrame(calls[0], ChildID(parent, k), parent, depth, index);
      var below := FlattenCalls(calls[0].calls, 0, ChildID(parent, k), depth + 1, index + 1);
      var rest := FlattenCalls(calls[1..], k + 1, parent, depth, index + Size(calls[0]));
      assert FlattenCalls(calls, k, parent, depth, index) == [top] + below + rest;
      assert forall x :: x in [top] + below + rest <==> x == top || x in below || x in rest;
    }
  }

  /** hasSuccessfulDirectCall finds a call exactly when the flat list has a callback frame other
      than its first one. */
  lemma {:induction false} DirectCallIsLaterCallback(root: CallFrame, from: string, to: string)
    ensures HasSuccessfulDirectCall(root, from, to)
       <==> exists i :: 0 < i < Size(root) && IsCallback(FlattenTrace(root)[i].frame, from, to)
  {
    var out := FlattenTrace(root);
    DirectCallScan(root.calls, from, to, 0, ROOT_ID, 1, 1);
    var rest := FlattenCalls(root.calls, 0, ROOT_ID, 1, 1);
    assert out[1..] == rest;
    if x :| x in rest && IsCallback(x.frame, from, to) {
      var j :| 0 <= j < |rest| && rest[j] == x;
      assert out[j + 1] == x;
    }
    if i :| 0 < i < Size(root) && IsCallback(out[i].frame, from, to) {
      assert rest[i - 1] == out[i];
    }
  }

  /** hasRepaymentCall finds a frame exactly when some listed frame meets its test. */
  lemma {:induction false} RepaymentCallIsListed(root: CallFrame, provider: string, assets: set<string>)
    ensures HasRepaymentCall(root, provider, assets)
       <==> exists i :: 0 <= i < Size(root) && IsRepaymentCall(FlattenTrace(root)[i].frame, provider, assets)
  {
    var out := FlattenTrace(root);
    RepaymentScan(root, provider, assets, ROOT_ID, "", 0, 0);
    if x :| x in out && IsRepaymentCall(x.frame, provider, assets) {
      var j :| 0 <= j < |out| && out[j] == x;
    }
  }

  /** The verifier and the trace summary look for the same callback: the verifier sees one exactly
      when the summary's evidence names a callback frame that is not the root. They can differ only
      by the white space that the summary trims from the stored addresses. */
  lemma {:induction false} CallbackEvidenceAgrees(root: CallFrame, interaction: Interaction)
    requires Trim(interaction.provider) == interaction.provider && Trim(interaction.receiver) == interaction.receiver
    ensures HasSuccessfulDirectCall(root, Lower(interaction.provider), Lower(interaction.receiver))
       <==> exists id :: id in EvidenceOf(FlattenTrace(root), interaction).callbackFrameIDs && id != ROOT_ID
  {
    var out := FlattenTrace(root);
    var p, r := Lower(interaction.provider), Lower(interaction.receiver);
    DirectCallIsLaterCallback(root, p, r);
    FlattenIsPreorder(root);
    var ids := EvidenceOf(out, interaction).callbackFrameIDs;
    assert ids == RunCover.Dedupe(CallbackIDs(out, p, r, |out|));
    assert RunAt(out, 0) && out[0].id == ROOT_ID;
    if i :| 0 < i < |out| && IsCallback(out[i].frame, p, r) {
      assert RunAt(out, i);
      DedupeMember(CallbackIDs(out, p, r, |out|), out[i].id);
      CallbackIDsMember(out, p, r, |out|, out[i].id);
      assert out[i].id in ids && out[i].id != ROOT_ID;
    }
    if id :| id in ids && id != ROOT_ID {
      DedupeMember(CallbackIDs(out, p, r, |out|), id);
      CallbackIDsMember(out, p, r, |out|, id);
    }
  }

  lemma {:induction false} CallbackIDsMember(out: seq<FlatFrame>, provider: string, receiver: string, k: nat, id: string)
    requires k <= |out| && PreorderIDs(out)
    ensures id in CallbackIDs(out, provider, receiver, k)
       <==> id != "" && exists i :: 0 <= i < k && IsCallback(out[i].frame, provider, receiver) && out[i].id == id
  {
    if k > 0 {
      CallbackIDsMember(out, provider, receiver, k - 1, id);
      assert RunAt(out, k - 1);
    }
  }

  lemma {:induction false} DedupeMember(values: seq<string>, id: string)
    ensures id in RunCover.Dedupe(values) <==> id in values && id != ""
  {
    DedupeIntoMember([], values, id);
  }

  lemma {:induction false} DedupeIntoMember(kept: seq<string>, values: seq<string>, id: string)
    ensures id in RunCover.DedupeInto(kept, values) <==> id in kept || (id in values && id != "")
    decreases values
  {
    if values != [] {
      DedupeIntoMember(if values[0] == "" || values[0] in kept then kept else kept + [values[0]], values[1..], id);
    }
  }

}
