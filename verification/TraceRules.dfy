/** What the evidence, the tags and the token flows of a trace say, frame by frame. */
module TraceRules {
  import opened Text
  import opened TraceTree
  import opened TokenCalls
  import opened TraceEvidence
  import opened RunCover
  import FlowOrder

  // ---- evidence ----

  /** The provider calls the receiver, and the call succeeds. */
  predicate CallsBack(f: CallFrame, i: Interaction) {
    f.error == "" && Lower(f.from) == NormalizeAddress(i.provider) && Lower(f.to) == NormalizeAddress(i.receiver)
  }

  ghost predicate IsAsset(i: Interaction, address: string) {
    exists a :: a in i.assets && a != "" && Lower(a) == address
  }

  /** A successful token call with the provider or an asset of the interaction at one end. */
  ghost predicate LooksRepaid(f: CallFrame, i: Interaction) {
    && f.error == "" && DecodeTokenAction(f.from, MethodSelector(f.input), f.input) != NoAction
    && (IsAsset(i, Lower(f.from)) || IsAsset(i, Lower(f.to)) || Lower(f.from) == NormalizeAddress(i.provider) || Lower(f.to) == NormalizeAddress(i.provider))
  }

  lemma {:induction false} CallbackListed(frames: seq<FlatFrame>, provider: string, receiver: string, k: nat, id: string)
    requires k <= |frames|
    ensures id in CallbackIDs(frames, provider, receiver, k) <==> exists j :: 0 <= j < k && frames[j].id == id && IsCallback(frames[j].frame, provider, receiver)
  {
    hide IsCallback;
    if k > 0 {
      CallbackListed(frames, provider, receiver, k - 1, id);
    }
  }

  lemma {:induction false} RepaymentListed(frames: seq<FlatFrame>, provider: string, assets: set<string>, k: nat, id: string)
    requires k <= |frames|
    ensures id in RepaymentIDs(frames, provider, assets, k) <==> exists j :: 0 <= j < k && frames[j].id == id && MatchesRepaymentFrame(frames[j].frame, provider, assets)
  {
    hide MatchesRepaymentFrame;
    if k > 0 {
      RepaymentListed(frames, provider, assets, k - 1, id);
    }
  }

  lemma {:induction false} DedupedIn(out: seq<string>, values: seq<string>, s: string)
    ensures s in DedupeInto(out, values) <==> s in out || (s in values && s != "")
    decreases values
  {
    if values != [] {
      assert values == [values[0]] + values[1..];
      if values[0] == "" || values[0] in out {
        DedupedIn(out, values[1..], s);
      } else {
        DedupedIn(out + [values[0]], values[1..], s);
      }
    }
  }

  lemma {:induction false} RepaymentExactly(f: CallFrame, i: Interaction)
    ensures MatchesRepaymentFrame(f, NormalizeAddress(i.provider), AssetSet(i.assets)) <==> LooksRepaid(f, i)
  {
    hide NormalizeAddress, DecodeTokenAction, MethodSelector, Lower;
  }

  /** A frame of a trace is evidence of a callback, and of a repayment, exactly when it looks like one. */
  lemma {:induction false} EvidenceExactly(root: CallFrame, i: Interaction, j: nat)
    requires j < Size(root)
    ensures
      var out := FlattenTrace(root);
      var e := EvidenceOf(out, i);
      && e.interactionID == i.interactionID
      && (out[j].id in e.callbackFrameIDs <==> CallsBack(out[j].frame, i))
      && (out[j].id in e.repaymentFrameIDs <==> LooksRepaid(out[j].frame, i))
  {
    var out := FlattenTrace(root);
    var provider, receiver, assets := NormalizeAddress(i.provider), NormalizeAddress(i.receiver), AssetSet(i.assets);
    FlattenIsPreorder(root);
    assert RunAt(out, j);
    CallbackListed(out, provider, receiver, |out|, out[j].id);
    RepaymentListed(out, provider, assets, |out|, out[j].id);
    DedupedIn([], CallbackIDs(out, provider, receiver, |out|), out[j].id);
    DedupedIn([], RepaymentIDs(out, provider, assets, |out|), out[j].id);
    RepaymentExactly(out[j].frame, i);
    hide FlattenTrace, MatchesRepaymentFrame, LooksRepaid, NormalizeAddress, AssetSet, CallbackIDs, RepaymentIDs, AllSubtreeIDs, Lower, DedupeInto;
  }

  // ---- tags ----

  lemma {:induction false} TagsMean(f: FlatFrame, callbackSubtree: set<string>, repayment: set<string>)
    ensures
      var tags := TagsOf(f, callbackSubtree, repayment);
      && ("token_action" in tags <==> TokenOf(f.frame) != NoAction)
      && ("repayment_path" in tags <==> f.id in repayment)
      && ("error" in tags <==> f.frame.error != "")
  {
    hide TokenOf;
    assert "token_action"[0] == 't' && "callback_path"[0] == 'c' && "repayment_path"[0] == 'r' && "error"[0] == 'e';
  }

  lemma {:induction false} RepaymentIDsAre(evidence: seq<Evidence>, id: string)
    ensures id in RepaymentIDSet(evidence) <==> exists k :: 0 <= k < |evidence| && id in evidence[k].repaymentFrameIDs
  {
  }

  /** A frame is tagged token_action exactly when it calls a token, repayment_path when it looks like a
      repayment of some interaction, and error when it failed. */
  lemma {:induction false} TagsExactly(root: CallFrame, interactions: seq<Interaction>, j: nat)
    requires j < Size(root)
    ensures
      var out := FlattenTrace(root);
      var evidence := EvidenceList(out, interactions, |interactions|);
      var tags, f := TagsOf(out[j], SubtreeIDSet(evidence), RepaymentIDSet(evidence)), out[j].frame;
      && ("token_action" in tags <==> DecodeTokenAction(f.from, MethodSelector(f.input), f.input) != NoAction)
      && ("repayment_path" in tags <==> exists k :: 0 <= k < |interactions| && LooksRepaid(f, interactions[k]))
      && ("error" in tags <==> f.error != "")
  {
    hide LooksRepaid, EvidenceOf, DecodeTokenAction, MethodSelector, TagsOf, SubtreeIDSet, RepaymentIDSet;
    var out := FlattenTrace(root);
    var evidence := EvidenceList(out, interactions, |interactions|);
    TagsMean(out[j], SubtreeIDSet(evidence), RepaymentIDSet(evidence));
    RepaymentIDsAre(evidence, out[j].id);
    hide FlattenTrace;
    forall k | 0 <= k < |interactions| ensures out[j].id in evidence[k].repaymentFrameIDs <==> LooksRepaid(out[j].frame, interactions[k]) {
      EvidenceExactly(root, interactions[k], j);
    }
  }

  // ---- token flows ----

  /** The flow of a frame that calls a token: of the token called, between the parties the call data names, of the
      amount in decimal. A call without a caller moves nothing that could be drawn. */
  lemma {:induction false} FlowOfCall(f: FlatFrame, call: TokenCall)
    requires f.frame.input == Encoded(call) && WellFormed(call)
    ensures
      FlowOrder.FlowOf(f) ==
        match call
        case Transfer(to, n) =>
          if f.frame.from == "" then None else Some(FlowOrder.Flow(f.id, "transfer", f.frame.to, f.frame.from, "0x" + to, Decimal(n), 0))
        case TransferFrom(from, to, n) => Some(FlowOrder.Flow(f.id, "transferFrom", f.frame.to, "0x" + from, "0x" + to, Decimal(n), 0))
        case Approve(spender, n) =>
          if f.frame.from == "" then None else Some(FlowOrder.Flow(f.id, "approve", f.frame.to, f.frame.from, "0x" + spender, Decimal(n), 0))
  {
    hide Encoded, Decimal, WellFormed, DecodeTokenAction, MethodSelector;
    DecodeOfEncoded(f.frame.from, call);
    match call {
      case Transfer(to, _) => assert |"0x" + to| >= 2;
      case TransferFrom(from, to, _) => assert |"0x" + from| >= 2 && |"0x" + to| >= 2;
      case Approve(spender, _) => assert |"0x" + spender| >= 2;
    }
  }
}
