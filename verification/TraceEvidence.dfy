/** Evidence read off a flattened trace (api/service/trace_summary.go): which frames are callbacks
    from the provider to the receiver, which frames lie below them, which look like repayments,
    and the tags that follow. */
module TraceEvidence {
  import opened Text
  import opened TraceTree
  import opened TokenCalls
  import opened RunCover

  datatype Interaction = Interaction(interactionID: string, provider: string, receiver: string, assets: seq<string>)

  datatype Evidence = Evidence(
    interactionID: string, callbackFrameIDs: seq<string>, callbackSubtreeIDs: seq<string>, repaymentFrameIDs: seq<string>)

  function TokenOf(f: CallFrame): TokenAction {
    DecodeTokenAction(f.from, MethodSelector(f.input), f.input)
  }

  predicate IsCallback(f: CallFrame, provider: string, receiver: string) {
    f.error == "" && Lower(f.from) == provider && Lower(f.to) == receiver
  }

  function AssetSet(assets: seq<string>): set<string> {
    set a | a in assets && a != "" :: Lower(a)
  }

  predicate MatchesRepaymentFrame(f: CallFrame, provider: string, assets: set<string>) {
    var from, to := Lower(f.from), Lower(f.to);
    f.error == "" && TokenOf(f) != NoAction && (from in assets || to in assets || from == provider || to == provider)
  }

  // ---- specification of the loops; k counts the frames (or roots) already visited ----

  function CallbackIDs(frames: seq<FlatFrame>, provider: string, receiver: string, k: nat): seq<string>
    requires k <= |frames|
  {
    if k == 0 then [] else
      CallbackIDs(frames, provider, receiver, k - 1)
      + if IsCallback(frames[k - 1].frame, provider, receiver) then [frames[k - 1].id] else []
  }

  function RepaymentIDs(frames: seq<FlatFrame>, provider: string, assets: set<string>, k: nat): seq<string>
    requires k <= |frames|
  {
    if k == 0 then [] else
      RepaymentIDs(frames, provider, assets, k - 1)
      + if MatchesRepaymentFrame(frames[k - 1].frame, provider, assets) then [frames[k - 1].id] else []
  }

  function SubtreeIDs(frames: seq<FlatFrame>, rootID: string, k: nat): seq<string>
    requires k <= |frames|
  {
    if k == 0 then [] else
      SubtreeIDs(frames, rootID, k - 1) + if Under(rootID, frames[k - 1].id) then [frames[k - 1].id] else []
  }

  function AllSubtreeIDs(frames: seq<FlatFrame>, roots: seq<string>, k: nat): seq<string>
    requires k <= |roots|
  {
    if k == 0 then [] else
      AllSubtreeIDs(frames, roots, k - 1) + SubtreeIDs(frames, roots[k - 1], |frames|)
  }

  function EvidenceOf(frames: seq<FlatFrame>, interaction: Interaction): Evidence {
    var provider, receiver := NormalizeAddress(interaction.provider), NormalizeAddress(interaction.receiver);
    var callbacks := CallbackIDs(frames, provider, receiver, |frames|);
    Evidence(
      interaction.interactionID,
      Dedupe(callbacks),
      Dedupe(AllSubtreeIDs(frames, callbacks, |callbacks|)),
      Dedupe(RepaymentIDs(frames, provider, AssetSet(interaction.assets), |frames|)))
  }

  // ---- the loops ----

  method CollectSubtreeFrameIDs(frames: seq<FlatFrame>, rootID: string) returns (out: seq<string>)
    ensures out == SubtreeIDs(frames, rootID, |frames|)
  {
    out := [];
    var prefix := rootID + ".";
    for i := 0 to |frames|
      invariant out == SubtreeIDs(frames, rootID, i)
    {
      if frames[i].id == rootID || prefix <= frames[i].id {
        out := out + [frames[i].id];
      }
    }
  }

  method DedupeStrings(values: seq<string>) returns (out: seq<string>)
    ensures out == Dedupe(values)
  {
    if |values| == 0 {
      return values;
    }
    var seen: set<string> := {};
    out := [];
    for i := 0 to |values|
      invariant DedupeInto(out, values[i..]) == Dedupe(values)
      invariant forall s :: s in seen <==> s in out
    {
      if values[i] == "" || values[i] in seen {
        continue;
      }
      seen := seen + {values[i]};
      out := out + [values[i]];
    }
  }

  method InteractionEvidence(frames: seq<FlatFrame>, interaction: Interaction) returns (e: Evidence)
    ensures e == EvidenceOf(frames, interaction)
  {
    var provider := NormalizeAddress(interaction.provider);
    var receiver := NormalizeAddress(interaction.receiver);
    var assets := AssetSet(interaction.assets);
    var callbacks: seq<string>, repayments: seq<string>, subtrees: seq<string> := [], [], [];
    for i := 0 to |frames|
      invariant callbacks == CallbackIDs(frames, provider, receiver, i)
      invariant repayments == RepaymentIDs(frames, provider, assets, i)
    {
      if IsCallback(frames[i].frame, provider, receiver) {
        callbacks := callbacks + [frames[i].id];
      }
      if MatchesRepaymentFrame(frames[i].frame, provider, assets) {
        repayments := repayments + [frames[i].id];
      }
    }
    for c := 0 to |callbacks|
      invariant subtrees == AllSubtreeIDs(frames, callbacks, c)
    {
      var below := CollectSubtreeFrameIDs(frames, callbacks[c]);
      subtrees := subtrees + below;
    }
    subtrees := DedupeStrings(subtrees);
    repayments := DedupeStrings(repayments);
    callbacks := DedupeStrings(callbacks);
    e := Evidence(interaction.interactionID, callbacks, subtrees, repayments);
  }

  function EvidenceList(frames: seq<FlatFrame>, interactions: seq<Interaction>, k: nat): (out: seq<Evidence>)
    requires k <= |interactions|
  {
    seq(k, i requires 0 <= i < k => EvidenceOf(frames, interactions[i]))
  }

  method BuildTraceInteractionEvidence(frames: seq<FlatFrame>, interactions: seq<Interaction>) returns (out: seq<Evidence>)
    ensures out == EvidenceList(frames, interactions, |interactions|)
  {
    hide EvidenceOf;
    out := [];
    for k := 0 to |interactions|
      invariant out == EvidenceList(frames, interactions, k)
    {
      var e := InteractionEvidence(frames, interactions[k]);
      out := out + [e];
    }
  }

  // ---- subtrees are exact, contiguous runs ----

  function IDs(frames: seq<FlatFrame>): seq<string> {
    seq(|frames|, i requires 0 <= i < |frames| => frames[i].id)
  }

  lemma {:induction false} SubtreeIDsBefore(out: seq<FlatFrame>, i: nat, k: nat)
    requires PreorderIDs(out) && i < |out| && k <= i
    ensures SubtreeIDs(out, out[i].id, k) == []
  {
    if k > 0 {
      SubtreeIDsBefore(out, i, k - 1);
      assert RunAt(out, i) && !Under(out[i].id, out[k - 1].id);
    }
  }

  lemma {:induction false} SubtreeIDsWithin(out: seq<FlatFrame>, ids: seq<string>, i: nat, k: nat)
    requires PreorderIDs(out) && ids == IDs(out) && i < |out| && RunAt(out, i) && i <= k <= i + Size(out[i].frame)
    ensures SubtreeIDs(out, out[i].id, k) == ids[i..k]
  {
    if k == i {
      SubtreeIDsBefore(out, i, i);
    } else {
      SubtreeIDsWithin(out, ids, i, k - 1);
      assert RunAt(out, i) && Under(out[i].id, out[k - 1].id);
      assert ids[i..k] == ids[i..k - 1] + [ids[k - 1]];
    }
  }

  lemma {:induction false} SubtreeIDsAfter(out: seq<FlatFrame>, ids: seq<string>, i: nat, k: nat)
    requires PreorderIDs(out) && ids == IDs(out) && i < |out| && RunAt(out, i) && i + Size(out[i].frame) <= k <= |out|
    ensures SubtreeIDs(out, out[i].id, k) == ids[i..i + Size(out[i].frame)]
  {
    if k == i + Size(out[i].frame) {
      SubtreeIDsWithin(out, ids, i, k);
    } else {
      SubtreeIDsAfter(out, ids, i, k - 1);
      assert RunAt(out, i) && !Under(out[i].id, out[k - 1].id);
    }
  }

  /** collectSubtreeFrameIDs on a flattened trace returns the ids of one run, in call order, and
      that run is the flattening of the frame: the frame and its descendants, nothing else. */
  lemma {:induction false} SubtreeIDsExact(root: CallFrame, i: nat)
    requires i < Size(root)
    ensures
      var out := FlattenTrace(root);
      var f := out[i];
      && i + Size(f.frame) <= |out|
      && SubtreeIDs(out, f.id, |out|) == IDs(out)[i..i + Size(f.frame)]
      && out[i..i + Size(f.frame)] == Flatten(f.frame, f.id, f.parentID, f.depth, i)
  {
    var out := FlattenTrace(root);
    SubtreeIsRun(root, ROOT_ID, "", 0, 0, i);
    FlattenIsPreorder(root);
    assert RunAt(out, i);
    SubtreeIDsAfter(out, IDs(out), i, |out|);
  }

  // ---- the deduplicated union of callback subtrees ----

  function Sizes(frames: seq<FlatFrame>): seq<nat> {
    seq(|frames|, i requires 0 <= i < |frames| => Size(frames[i].frame))
  }

  function Callbacks(frames: seq<FlatFrame>, provider: string, receiver: string): seq<bool> {
    seq(|frames|, i requires 0 <= i < |frames| => IsCallback(frames[i].frame, provider, receiver))
  }

  lemma {:induction false} PreorderIsLaminar(out: seq<FlatFrame>)
    requires PreorderIDs(out)
    ensures Laminar(IDs(out), Sizes(out))
  {
    forall i | 0 <= i < |out| ensures i + Size(out[i].frame) <= |out| && out[i].id != "" {
      assert RunAt(out, i);
    }
    forall i, j | 0 <= i < j < |out| ensures out[i].id != out[j].id {
      assert RunAt(out, i);
    }
    forall i, j | 0 <= i <= j < |out| && j < i + Size(out[i].frame)
      ensures j + Size(out[j].frame) <= i + Size(out[i].frame)
    {
      assert RunAt(out, i) && RunAt(out, j);
      var k := j + Size(out[j].frame) - 1;
      assert Under(out[i].id, out[j].id) && Under(out[j].id, out[k].id);
      UnderTransitive(out[i].id, out[j].id, out[k].id);
    }
  }

  lemma {:induction false} AllSubtreeIDsPrefix(frames: seq<FlatFrame>, roots: seq<string>, last: string, k: nat)
    requires k <= |roots|
    ensures AllSubtreeIDs(frames, roots + [last], k) == AllSubtreeIDs(frames, roots, k)
  {
    if k > 0 {
      AllSubtreeIDsPrefix(frames, roots, last, k - 1);
    }
  }

  lemma {:induction false} AddSubtree(out: seq<FlatFrame>, ids: seq<string>, earlier: seq<string>, i: nat)
    requires PreorderIDs(out) && ids == IDs(out) && i < |out| && RunAt(out, i)
    ensures AllSubtreeIDs(out, earlier + [out[i].id], |earlier| + 1)
         == AllSubtreeIDs(out, earlier, |earlier|) + ids[i..i + Size(out[i].frame)]
  {
    AllSubtreeIDsPrefix(out, earlier, out[i].id, |earlier|);
    SubtreeIDsAfter(out, ids, i, |out|);
  }

  /** The ids of the roots before k. */
  function RootIDs(ids: seq<string>, roots: seq<bool>, k: nat): seq<string>
    requires k <= |ids| == |roots|
  {
    if k == 0 then [] else RootIDs(ids, roots, k - 1) + if roots[k - 1] then [ids[k - 1]] else []
  }

  lemma {:induction false} CallbackIDsAreRoots(out: seq<FlatFrame>, provider: string, receiver: string, k: nat)
    requires k <= |out|
    ensures CallbackIDs(out, provider, receiver, k) == RootIDs(IDs(out), Callbacks(out, provider, receiver), k)
  {
    if k > 0 {
      CallbackIDsAreRoots(out, provider, receiver, k - 1);
    }
  }

  lemma {:induction false} JoinedSubtrees(out: seq<FlatFrame>, ids: seq<string>, sizes: seq<nat>, roots: seq<bool>, m: nat)
    requires PreorderIDs(out) && m <= |out| == |roots|
    requires ids == IDs(out) && sizes == Sizes(out) && Laminar(ids, sizes)
    ensures AllSubtreeIDs(out, RootIDs(ids, roots, m), |RootIDs(ids, roots, m)|) == JoinedRuns(ids, sizes, roots, m)
  {
    if m > 0 {
      JoinedSubtrees(out, ids, sizes, roots, m - 1);
      var earlier := RootIDs(ids, roots, m - 1);
      assert RunAt(out, m - 1);
      if roots[m - 1] {
        AddSubtree(out, ids, earlier, m - 1);
      } else {
        assert earlier + [] == earlier;
      }
    }
  }

  /** Joining the subtrees of all callback frames, nested ones included, and deduplicating gives
      exactly the frames below a callback, each once, in call order. */
  lemma {:induction false} CallbackSubtreesInCallOrder(root: CallFrame, interaction: Interaction)
    ensures
      var out := FlattenTrace(root);
      var roots := Callbacks(out, NormalizeAddress(interaction.provider), NormalizeAddress(interaction.receiver));
      EvidenceOf(out, interaction).callbackSubtreeIDs == CoveredIDs(IDs(out), Sizes(out), roots, |out|, |out|)
  {
    var out := FlattenTrace(root);
    var p, r := NormalizeAddress(interaction.provider), NormalizeAddress(interaction.receiver);
    FlattenIsPreorder(root);
    PreorderIsLaminar(out);
    CallbackIDsAreRoots(out, p, r, |out|);
    JoinedSubtrees(out, IDs(out), Sizes(out), Callbacks(out, p, r), |out|);
    JoinedRunsInOrder(IDs(out), Sizes(out), Callbacks(out, p, r), |out|);
  }

  /** The callback subtree ids of an interaction are strictly increasing in call index, nested
      callbacks included. */
  lemma {:induction false} CallbackSubtreesIncrease(root: CallFrame, interaction: Interaction, a: nat, b: nat)
    returns (f: FlatFrame, g: FlatFrame)
    requires a < b < |EvidenceOf(FlattenTrace(root), interaction).callbackSubtreeIDs|
    ensures
      var out := FlattenTrace(root);
      var listed := EvidenceOf(out, interaction).callbackSubtreeIDs;
      f in out && g in out && f.id == listed[a] && g.id == listed[b] && f.callIndex < g.callIndex
  {
    var out := FlattenTrace(root);
    var roots := Callbacks(out, NormalizeAddress(interaction.provider), NormalizeAddress(interaction.receiver));
    CallbackSubtreesInCallOrder(root, interaction);
    FlattenIsPreorder(root);
    hide EvidenceOf, NormalizeAddress, FlattenTrace;
    var i, j := CoveredIncrease(IDs(out), Sizes(out), roots, |out|, |out|, a, b);
    f, g := out[i], out[j];
    assert RunAt(out, i) && RunAt(out, j);
  }

  // ---- tags ----

  function TagsOf(f: FlatFrame, callbackSubtree: set<string>, repayment: set<string>): seq<string> {
    (if TokenOf(f.frame) != NoAction then ["token_action"] else [])
    + (if f.id in callbackSubtree then ["callback_path"] else [])
    + (if f.id in repayment then ["repayment_path"] else [])
    + (if f.frame.error != "" then ["error"] else [])
  }

  function SubtreeIDSet(evidence: seq<Evidence>): set<string> {
    set k, s | 0 <= k < |evidence| && s in evidence[k].callbackSubtreeIDs :: s
  }

  function RepaymentIDSet(evidence: seq<Evidence>): set<string> {
    set k, s | 0 <= k < |evidence| && s in evidence[k].repaymentFrameIDs :: s
  }

  method TagTraceFrames(frames: seq<FlatFrame>, evidence: seq<Evidence>) returns (tags: seq<seq<string>>)
    ensures |tags| == |frames|
    ensures forall j :: 0 <= j < |frames| ==> tags[j] == TagsOf(frames[j], SubtreeIDSet(evidence), RepaymentIDSet(evidence))
  {
    hide TagsOf;
    var callbackSubtree: set<string>, repayment: set<string> := {}, {};
    for k := 0 to |evidence|
      invariant callbackSubtree == set m, s | 0 <= m < k && s in evidence[m].callbackSubtreeIDs :: s
      invariant repayment == set m, s | 0 <= m < k && s in evidence[m].repaymentFrameIDs :: s
    {
      callbackSubtree := callbackSubtree + set s | s in evidence[k].callbackSubtreeIDs;
      repayment := repayment + set s | s in evidence[k].repaymentFrameIDs;
    }
    tags := [];
    for j := 0 to |frames|
      invariant |tags| == j
      invariant forall i :: 0 <= i < j ==> tags[i] == TagsOf(frames[i], callbackSubtree, repayment)
    {
      var row := TagsOf(frames[j], callbackSubtree, repayment);
      tags := tags + [row];
    }
  }

  lemma {:induction false} CoveredMeaning(out: seq<FlatFrame>, provider: string, receiver: string, j: nat)
    requires j < |out|
    ensures Covered(Sizes(out), Callbacks(out, provider, receiver), |out|, j)
       <==> exists i :: 0 <= i <= j < |out| && j < i + Size(out[i].frame) && IsCallback(out[i].frame, provider, receiver)
  {
    var sizes, roots := Sizes(out), Callbacks(out, provider, receiver);
    if i :| 0 <= i < |out| && roots[i] && i <= j < i + sizes[i] {
      assert i <= j < i + Size(out[i].frame);
    }
    if i :| 0 <= i <= j < |out| && j < i + Size(out[i].frame) && IsCallback(out[i].frame, provider, receiver) {
      assert roots[i] && sizes[i] == Size(out[i].frame);
    }
  }

  /** Frame j of a flattened trace is a callback frame of the interaction or lies below one. */
  ghost predicate InCallbackRun(out: seq<FlatFrame>, interaction: Interaction, j: nat) {
    exists i :: 0 <= i <= j < |out| && j < i + Size(out[i].frame)
      && IsCallback(out[i].frame, NormalizeAddress(interaction.provider), NormalizeAddress(interaction.receiver))
  }

  /** A frame's id is among the callback subtree ids exactly when the frame lies in the run of a
      callback frame. */
  lemma {:induction false} InCallbackSubtree(root: CallFrame, interaction: Interaction, j: nat)
    requires j < Size(root)
    ensures
      var out := FlattenTrace(root);
      out[j].id in EvidenceOf(out, interaction).callbackSubtreeIDs <==> InCallbackRun(out, interaction, j)
  {
    var out := FlattenTrace(root);
    var p, r := NormalizeAddress(interaction.provider), NormalizeAddress(interaction.receiver);
    FlattenIsPreorder(root);
    PreorderIsLaminar(out);
    CallbackSubtreesInCallOrder(root, interaction);
    CoveredAt(IDs(out), Sizes(out), Callbacks(out, p, r), j);
    CoveredMeaning(out, p, r, j);
  }

  lemma {:induction false} TagMembership(f: FlatFrame, evidence: seq<Evidence>)
    ensures "callback_path" in TagsOf(f, SubtreeIDSet(evidence), RepaymentIDSet(evidence))
       <==> exists k :: 0 <= k < |evidence| && f.id in evidence[k].callbackSubtreeIDs
  {
    assert "callback_path"[0] == 'c' && "token_action"[0] == 't' && "repayment_path"[0] == 'r' && "error"[0] == 'e';
  }

  /** A frame is tagged callback_path exactly when it is inside the call-tree run of some frame
      that is a callback of some interaction. */
  lemma {:induction false} CallbackTagExact(root: CallFrame, interactions: seq<Interaction>, j: nat)
    requires j < Size(root)
    ensures
      var out := FlattenTrace(root);
      var evidence := EvidenceList(out, interactions, |interactions|);
      "callback_path" in TagsOf(out[j], SubtreeIDSet(evidence), RepaymentIDSet(evidence))
      <==> exists k :: 0 <= k < |interactions| && InCallbackRun(out, interactions[k], j)
  {
    var out := FlattenTrace(root);
    var evidence := EvidenceList(out, interactions, |interactions|);
    TagMembership(out[j], evidence);
    forall k | 0 <= k < |interactions|
      ensures out[j].id in evidence[k].callbackSubtreeIDs <==> InCallbackRun(out, interactions[k], j)
    {
      InCallbackSubtree(root, interactions[k], j);
    }
  }
}
