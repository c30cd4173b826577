/** Token flows of a trace and their order (api/service/trace_summary.go, fund_flow_graph.go):
    flows carry the code callIndex * 10 + depth of their frame and are sorted by it. */
module FlowOrder {
  import opened Text
  import opened TraceTree
  import opened TokenCalls
  import TraceEvidence
  import Sorting

  datatype Flow = Flow(frameID: string, action: string, asset: string, source: string, target: string, amount: string, order: int)

  function OrderCode(f: FlatFrame): nat {
    f.callIndex * 10 + f.depth
  }

  function ByOrder(): (Flow, Flow) -> bool {
    (a: Flow, b: Flow) => if a.order != b.order then a.order < b.order else StrLess(a.frameID, b.frameID)
  }

  /** The asset flow a frame contributes to the summary, if any; it has no order yet. */
  function FlowOf(f: FlatFrame): Option<Flow> {
    var token := TraceEvidence.TokenOf(f.frame);
    if token == NoAction || token.source == "" || token.target == "" then None
    else Some(Flow(f.id, token.name, f.frame.to, token.source, token.target, token.amount, 0))
  }

  function FlowsUpTo(frames: seq<FlatFrame>, k: nat): seq<Flow>
    requires k <= |frames|
  {
    if k == 0 then [] else
      FlowsUpTo(frames, k - 1) + if FlowOf(frames[k - 1]).Some? then [FlowOf(frames[k - 1]).value] else []
  }

  /** The order of a frame id: the code of its last listing, 0 when it is not listed. */
  function OrderAt(frames: seq<FlatFrame>, id: string, k: nat): nat
    requires k <= |frames|
  {
    if k == 0 then 0 else if frames[k - 1].id == id then OrderCode(frames[k - 1]) else OrderAt(frames, id, k - 1)
  }

  function Ordered(frames: seq<FlatFrame>, flows: seq<Flow>): seq<Flow> {
    seq(|flows|, i requires 0 <= i < |flows| => flows[i].(order := OrderAt(frames, flows[i].frameID, |frames|)))
  }

  method SortFundFlowsByTrace(frames: seq<FlatFrame>, flows: seq<Flow>) returns (out: seq<Flow>)
    ensures out == Sorting.Sort(ByOrder(), Ordered(frames, flows))
  {
    var frameOrder: map<string, int> := map[];
    for k := 0 to |frames|
      invariant forall id :: (if id in frameOrder then frameOrder[id] else 0) == OrderAt(frames, id, k)
    {
      frameOrder := frameOrder[frames[k].id := frames[k].callIndex * 10 + frames[k].depth];
    }
    out := [];
    for i := 0 to |flows|
      invariant out == Ordered(frames, flows)[..i]
    {
      var order := if flows[i].frameID in frameOrder then frameOrder[flows[i].frameID] else 0;
      out := out + [flows[i].(order := order)];
    }
    assert out == Ordered(frames, flows);
    out := Sorting.Sort(ByOrder(), out);
  }

  /** The order of a flow is the code of the last frame listed with its id. */
  lemma {:induction false} OrderIsOfLast(frames: seq<FlatFrame>, id: string, k: nat, j: nat)
    requires j < k <= |frames| && frames[j].id == id && forall i :: j < i < k ==> frames[i].id != id
    ensures OrderAt(frames, id, k) == frames[j].callIndex * 10 + frames[j].depth
  {
    if j < k - 1 {
      OrderIsOfLast(frames, id, k - 1, j);
    }
  }

  /** A flow whose frame is not listed has order 0. */
  lemma {:induction false} OrderOfUnlisted(frames: seq<FlatFrame>, id: string, k: nat)
    requires k <= |frames| && forall i :: 0 <= i < k ==> frames[i].id != id
    ensures OrderAt(frames, id, k) == 0
  {
    if k > 0 {
      OrderOfUnlisted(frames, id, k - 1);
    }
  }

  lemma {:induction false} OrderIsStrictWeak()
    ensures Sorting.StrictWeak(ByOrder())
  {
    forall a: Flow, b: Flow ensures ByOrder()(a, b) ==> !ByOrder()(b, a) {
      StrLessTotal(a.frameID, b.frameID);
    }
    forall a: Flow, b: Flow, c: Flow | ByOrder()(a, c) ensures ByOrder()(a, b) || ByOrder()(b, c) {
      StrLessTotal(a.frameID, b.frameID);
      StrLessTotal(b.frameID, c.frameID);
      StrLessTotal(a.frameID, c.frameID);
      if a.order == b.order == c.order && StrLess(b.frameID, a.frameID) {
        StrLessTransitive(b.frameID, a.frameID, c.frameID);
      }
    }
  }

  // ---- when the codes follow the execution ----

  ghost predicate CodesIncrease(out: seq<FlatFrame>) {
    forall i, j :: 0 <= i < j < |out| ==> OrderCode(out[i]) < OrderCode(out[j])
  }

  /** From one frame to the next the trace returns from at most nine levels at once. */
  ghost predicate ReturnsAtMostNine(out: seq<FlatFrame>) {
    forall i :: 0 <= i < |out| - 1 ==> out[i].depth <= out[i + 1].depth + 9
  }

  /** The codes are strictly increasing exactly when no step of the trace drops ten or more levels. */
  lemma {:induction false} CodesIncreaseExactly(root: CallFrame)
    ensures CodesIncrease(FlattenTrace(root)) <==> ReturnsAtMostNine(FlattenTrace(root))
  {
    var out := FlattenTrace(root);
    FlattenIsPreorder(root);
    forall i | 0 <= i < |out| - 1 ensures OrderCode(out[i]) < OrderCode(out[i + 1]) <==> out[i].depth <= out[i + 1].depth + 9 {
      assert RunAt(out, i) && RunAt(out, i + 1);
    }
    if ReturnsAtMostNine(out) {
      forall i, j | 0 <= i < j < |out| ensures OrderCode(out[i]) < OrderCode(out[j]) {
        StepsAddUp(out, i, j);
      }
    }
  }

  lemma {:induction false} StepsAddUp(out: seq<FlatFrame>, i: nat, j: nat)
    requires i < j < |out| && forall k :: 0 <= k < |out| - 1 ==> OrderCode(out[k]) < OrderCode(out[k + 1])
    ensures OrderCode(out[i]) < OrderCode(out[j])
  {
    assert OrderCode(out[j - 1]) < OrderCode(out[j - 1 + 1]);
    if i < j - 1 {
      StepsAddUp(out, i, j - 1);
    }
  }

  /** Traces nested at most ten levels deep are always in order: below the root no frame has depth 0. */
  lemma {:induction false} TenLevelsSuffice(root: CallFrame)
    requires forall i :: 0 <= i < Size(root) ==> FlattenTrace(root)[i].depth <= 10
    ensures CodesIncrease(FlattenTrace(root))
    ensures Sorting.Sort(ByOrder(), SummaryFlows(root)) == SummaryFlows(root)
  {
    var out := FlattenTrace(root);
    forall i | 0 <= i < |out| - 1 ensures out[i].depth <= out[i + 1].depth + 9 {
      IdsUnder(root, ROOT_ID, "", 0, 0, i + 1);
    }
    CodesIncreaseExactly(root);
    IncreasingKeepsUp(root);
    SortKeepsExecutionOrder(root);
  }

  /** The flows of a trace's summary, with their order codes. */
  function SummaryFlows(root: CallFrame): seq<Flow> {
    var out := FlattenTrace(root);
    Ordered(out, FlowsUpTo(out, |out|))
  }

  /** Of two frames with a flow, the later one is not ten levels per step higher up; at exactly that
      distance the frame ids decide. */
  ghost predicate FlowsKeepUp(out: seq<FlatFrame>) {
    forall i, j :: 0 <= i < j < |out| && FlowOf(out[i]).Some? && FlowOf(out[j]).Some? ==>
      || out[i].depth < out[j].depth + 10 * (j - i)
      || (out[i].depth == out[j].depth + 10 * (j - i) && !StrLess(out[j].id, out[i].id))
  }

  lemma {:induction false} KeepingUpIsSorted(out: seq<FlatFrame>)
    requires PreorderIDs(out) && FlowsKeepUp(out)
    ensures Sorting.Sorted(ByOrder(), Ordered(out, FlowsUpTo(out, |out|)))
  {
    hide FlowOf, StrLess, PreorderIDs;
    var flows := Ordered(out, FlowsUpTo(out, |out|));
    forall i, j | 0 <= i < j < |flows| ensures !ByOrder()(flows[j], flows[i]) {
      var a, b := FlowFrames(out, |out|, i, j);
      CodesCompared(out, a, b);
    }
  }

  lemma {:induction false} SortedKeepsUp(out: seq<FlatFrame>)
    requires PreorderIDs(out) && Sorting.Sorted(ByOrder(), Ordered(out, FlowsUpTo(out, |out|)))
    ensures FlowsKeepUp(out)
  {
    hide FlowOf, StrLess, PreorderIDs;
    var flows := Ordered(out, FlowsUpTo(out, |out|));
    forall a, b | 0 <= a < b < |out| && FlowOf(out[a]).Some? && FlowOf(out[b]).Some?
      ensures out[a].depth < out[b].depth + 10 * (b - a) || (out[a].depth == out[b].depth + 10 * (b - a) && !StrLess(out[b].id, out[a].id))
    {
      FlowPlace(out, |out|, a);
      FlowPlace(out, |out|, b);
      FlowPlace(out, b, a);
      var i, j := |FlowsUpTo(out, a)|, |FlowsUpTo(out, b)|;
      assert !ByOrder()(flows[j], flows[i]);
      CodesCompared(out, a, b);
    }
  }

  /** Sorting leaves the flows of a summary in execution order exactly when, for any two frames with a
      flow, the second is fewer than ten levels per step further up, or just ten with its id not the smaller. */
  lemma {:induction false} SortKeepsExecutionOrder(root: CallFrame)
    ensures Sorting.Sort(ByOrder(), SummaryFlows(root)) == SummaryFlows(root) <==> FlowsKeepUp(FlattenTrace(root))
  {
    hide FlowsKeepUp, PreorderIDs, Ordered, FlowsUpTo, ByOrder, FlattenTrace;
    var out, flows := FlattenTrace(root), SummaryFlows(root);
    FlattenIsPreorder(root);
    OrderIsStrictWeak();
    Sorting.SortSorted(ByOrder(), flows);
    if FlowsKeepUp(out) {
      KeepingUpIsSorted(out);
      Sorting.SortOfSorted(ByOrder(), flows);
    }
    if Sorting.Sorted(ByOrder(), flows) {
      SortedKeepsUp(out);
    }
  }

  /** The codes two frames give their flows. */
  lemma {:induction false} CodesCompared(out: seq<FlatFrame>, a: nat, b: nat)
    requires PreorderIDs(out) && a < b < |out|
    ensures OrderAt(out, out[a].id, |out|) == a * 10 + out[a].depth && OrderAt(out, out[b].id, |out|) == b * 10 + out[b].depth
    ensures out[a].depth < out[b].depth + 10 * (b - a) <==> a * 10 + out[a].depth < b * 10 + out[b].depth
  {
    OrderOfListed(out, |out|, a);
    OrderOfListed(out, |out|, b);
    assert RunAt(out, a) && RunAt(out, b);
  }

  /** Where the codes increase the flows keep up. */
  lemma {:induction false} IncreasingKeepsUp(root: CallFrame)
    requires CodesIncrease(FlattenTrace(root))
    ensures FlowsKeepUp(FlattenTrace(root))
  {
    var out := FlattenTrace(root);
    FlattenIsPreorder(root);
    forall i, j | 0 <= i < j < |out| ensures out[i].depth < out[j].depth + 10 * (j - i) {
      assert RunAt(out, i) && RunAt(out, j) && OrderCode(out[i]) < OrderCode(out[j]);
    }
  }

  /** Two flows of the list come from two frames in the same order. */
  lemma {:induction false} FlowFrames(out: seq<FlatFrame>, k: nat, i: nat, j: nat) returns (a: nat, b: nat)
    requires k <= |out| && i <= j < |FlowsUpTo(out, k)|
    ensures a <= b < k && (i < j ==> a < b)
    ensures FlowOf(out[a]) == Some(FlowsUpTo(out, k)[i]) && FlowOf(out[b]) == Some(FlowsUpTo(out, k)[j])
    ensures FlowsUpTo(out, k)[i].frameID == out[a].id && FlowsUpTo(out, k)[j].frameID == out[b].id
  {
    var before := FlowsUpTo(out, k - 1);
    if j < |before| {
      a, b := FlowFrames(out, k - 1, i, j);
    } else {
      b := k - 1;
      if i < j {
        var same: nat;
        a, same := FlowFrames(out, k - 1, i, i);
      } else {
        a := b;
      }
    }
  }

  /** Where the flow of a frame stands in the list. */
  lemma {:induction false} FlowPlace(out: seq<FlatFrame>, k: nat, a: nat)
    requires a < k <= |out| && FlowOf(out[a]).Some?
    ensures |FlowsUpTo(out, a)| < |FlowsUpTo(out, k)| && FlowsUpTo(out, k)[|FlowsUpTo(out, a)|] == FlowOf(out[a]).value
    ensures FlowOf(out[a]).value.frameID == out[a].id
    decreases k
  {
    hide TraceEvidence.TokenOf;
    if a < k - 1 {
      FlowPlace(out, k - 1, a);
    }
  }

  lemma {:induction false} OrderOfListed(out: seq<FlatFrame>, k: nat, a: nat)
    requires PreorderIDs(out) && a < k <= |out|
    ensures OrderAt(out, out[a].id, k) == OrderCode(out[a])
  {
    if a < k - 1 {
      assert RunAt(out, a);
      OrderOfListed(out, k - 1, a);
    }
  }

  // ---- a trace that is too deep ----

  /** A chain of n + 1 nested calls; the innermost has call data. */
  function Chain(n: nat, input: string): CallFrame {
    if n == 0 then CallFrame("CALL", "a", "b", input, "", "", "", []) else CallFrame("CALL", "a", "b", "", "", "", "", [Chain(n - 1, input)])
  }

  /** A chain below the root whose innermost call moves tokens, then a second token call of the root. */
  function DeepTrace(n: nat, first: TokenCall, second: TokenCall): CallFrame {
    CallFrame("CALL", "a", "b", "", "", "", "", [Chain(n, Encoded(first)), Chain(0, Encoded(second))])
  }

  lemma {:induction false} ChainFlat(n: nat, input: string, id: string, parent: string, depth: nat, index: nat)
    ensures Size(Chain(n, input)) == n + 1
    ensures var last := Flatten(Chain(n, input), id, parent, depth, index)[n]; last.depth == depth + n && last.frame == Chain(0, input)
  {
    var f := Chain(n, input);
    if n > 0 {
      ChainFlat(n - 1, input, ChildID(id, 0), id, depth + 1, index + 1);
      assert f.calls == [Chain(n - 1, input)] && f.calls[1..] == [];
      assert SizeAll(f.calls) == Size(Chain(n - 1, input)) + SizeAll(f.calls[1..]);
    }
  }

  lemma {:induction false} DeepTraceShape(n: nat, first: TokenCall, second: TokenCall)
    ensures
      var out := FlattenTrace(DeepTrace(n, first, second));
      && |out| == n + 3
      && out[n + 1].depth == n + 1 && out[n + 1].frame == Chain(0, Encoded(first))
      && out[n + 2].depth == 1 && out[n + 2].frame == Chain(0, Encoded(second))
  {
    hide Encoded;
    var root := DeepTrace(n, first, second);
    var inner, last := Chain(n, Encoded(first)), Chain(0, Encoded(second));
    ChainFlat(n, Encoded(first), ChildID(ROOT_ID, 0), ROOT_ID, 1, 1);
    assert root.calls == [inner, last] && root.calls[1..] == [last] && [last][1..] == [];
    var calls, tail := FlattenCalls(root.calls, 0, ROOT_ID, 1, 1), FlattenCalls([last], 1, ROOT_ID, 1, n + 2);
    assert calls == Flatten(inner, ChildID(ROOT_ID, 0), ROOT_ID, 1, 1) + tail;
    assert last.calls == [] && Size(last) == 1;
    assert tail == Flatten(last, ChildID(ROOT_ID, 1), ROOT_ID, 1, n + 2) + FlattenCalls([last][1..], 2, ROOT_ID, 1, n + 3);
    assert |tail| == 1 && tail[0].depth == 1 && tail[0].frame == last;
  }

  lemma {:induction false} TokenFrameFlows(f: FlatFrame, call: TokenCall)
    requires f.frame == Chain(0, Encoded(call)) && WellFormed(call)
    ensures FlowOf(f).Some?
  {
    hide Encoded, Decimal, WellFormed, DecodeTokenAction, MethodSelector;
    DecodeOfEncoded("a", call);
    assert f.frame.from == "a" && f.frame.input == Encoded(call);
    var token := TraceEvidence.TokenOf(f.frame);
    assert token.source != "" && token.target != "" by {
      match call {
        case Transfer(to, _) => assert |"0x" + to| >= 2;
        case TransferFrom(from, to, _) => assert |"0x" + from| >= 2 && |"0x" + to| >= 2;
        case Approve(spender, _) => assert |"0x" + spender| >= 2;
      }
    }
  }

  /** Token calls in the innermost of twelve or more nested calls and then in the next call of the root:
      the second runs later, yet sorting does not leave the flows of the trace in that order. */
  lemma {:induction false} DeepTraceMisordered(n: nat, first: TokenCall, second: TokenCall)
    requires n >= 11 && WellFormed(first) && WellFormed(second)
    ensures Sorting.Sort(ByOrder(), SummaryFlows(DeepTrace(n, first, second))) != SummaryFlows(DeepTrace(n, first, second))
  {
    hide Encoded, WellFormed, Chain, DeepTrace, FlowOf, SummaryFlows;
    var root := DeepTrace(n, first, second);
    var out := FlattenTrace(root);
    DeepTraceShape(n, first, second);
    TokenFrameFlows(out[n + 1], first);
    TokenFrameFlows(out[n + 2], second);
    SortKeepsExecutionOrder(root);
  }
}
