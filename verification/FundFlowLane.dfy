/** The lane of a flash-loan leg in the fund-flow graph (buildFundFlowLane and its fallback in
    api/service/fund_flow_graph.go): which flows it shows, and the edges drawn for them. Titles,
    subtitles and ids made of counters are presentation and are not modelled. */
module FundFlowLane {
  import opened Text
  import opened FlowOrder
  import opened FlowSelection
  import opened ExecutionWalk
  import opened DecimalAmounts
  import opened LaneGraph

  datatype Interaction = Interaction(provider: string, factory: string, pair: string)
  datatype Leg = Leg(asset: string, borrowed: string, repaid: string, repaidTo: string, premium: string, fee: string)

  /** What the lane of one leg is built from. */
  datatype Input = Input(sender: string, receiver: string, interaction: Interaction, leg: Leg, flows: seq<Flow>)

  function FirstNonEmpty(values: seq<string>): (v: string)
    ensures v == "" || Trim(v) != ""
  {
    if values == [] then "" else if Trim(values[0]) != "" then values[0] else FirstNonEmpty(values[1..])
  }

  function FirstNonZero(values: seq<string>): string {
    if values == [] then "0" else if NormalizeAmount(values[0]) != "0" then NormalizeAmount(values[0]) else FirstNonZero(values[1..])
  }

  // ---- labels that decide something ----

  function ShortenHash(s: string): string {
    if |s| <= 18 then s else s[..10] + "..." + s[|s| - 6..]
  }

  function AssetLabel(asset: string): string {
    var key := NormalizeAddress(asset);
    if asset == "" then "N/A"
    else if key == "0x514910771af9ca656af840dff83e8264ecf986ca" then "LINK"
    else if key == "0xc02aa39b223fe8d0a0e5c4f27ead9083c756cc2" then "WETH"
    else if key == "0x5e8c8a7243651db1384c0ddfdbe39761e8e7e51a" then "aEthLINK"
    else if key == "0x4d5f47fa6a74757f35c14fd3a6ef8e3c9bc514e8" then "aEthWETH"
    else if key == "0x7effd7b47bfd17e52fb7559d3f924201b9dbff3d" then "varDebtLINK"
    else ShortenHash(asset)
  }

  predicate IsDebtLikeAsset(asset: string) {
    Contains(Lower(AssetLabel(asset)), "debt") || Contains(Lower(AssetLabel(asset)), "vardebt")
  }

  function HumanizeAction(action: string): string {
    var a := Lower(Trim(action));
    if Contains(a, "swap") then "Swap"
    else if Contains(a, "repay") || Contains(a, "return") then "Repay"
    else if Contains(a, "borrow") || Contains(a, "flash") then "Borrow"
    else if Contains(a, "transferfrom") then "transferFrom"
    else if Contains(a, "transfer") then "transfer"
    else if action == "" then "Transfer"
    else action
  }

  // ---- which flows the lane shows ----

  function FeeAmount(x: Input): string {
    SumRaw([x.leg.premium, x.leg.fee])
  }

  function ExpectedRepayment(x: Input): string {
    SumRaw([if NormalizeAmount(x.leg.repaid) != "0" then NormalizeAmount(x.leg.repaid) else NormalizeAmount(x.leg.borrowed),
            x.leg.premium, x.leg.fee])
  }

  function IntoReceiver(x: Input): Flow -> bool {
    (f: Flow) => SameAddress(f.target, x.receiver) && SameAddress(f.asset, NormalizeAddress(x.leg.asset))
  }

  function OutOfReceiver(x: Input): Flow -> bool {
    (f: Flow) => SameAddress(f.source, x.receiver) && SameAddress(f.asset, NormalizeAddress(x.leg.asset))
  }

  function FromAddress(address: string, amount: string): Flow -> bool {
    (f: Flow) => SameAddress(f.source, address) && NormalizeAmount(f.amount) == amount
  }

  function NotFromAddress(address: string): Flow -> bool {
    (f: Flow) => !SameAddress(f.source, address)
  }

  function NotFromWithAmount(address: string, amount: string): Flow -> bool {
    (f: Flow) => !SameAddress(f.source, address) && NormalizeAmount(f.amount) == amount
  }

  function ToAddress(address: string): Flow -> bool {
    (f: Flow) => SameAddress(f.target, address)
  }

  function ToWithAmount(address: string, amount: string): Flow -> bool {
    (f: Flow) => SameAddress(f.target, address) && NormalizeAmount(f.amount) == amount
  }

  function OfAmount(amount: string): Flow -> bool {
    (f: Flow) => NormalizeAmount(f.amount) == amount
  }

  function BorrowTiers(x: Input): seq<seq<Flow>> {
    var candidates, amount := Filter(IntoReceiver(x), x.flows), NormalizeAmount(x.leg.borrowed);
    [Filter(FromAddress(x.interaction.provider, amount), candidates),
     Filter(NotFromWithAmount(x.sender, amount), candidates),
     Filter(OfAmount(amount), candidates),
     Filter(NotFromAddress(x.sender), candidates),
     candidates]
  }

  function BorrowFlow(x: Input): Option<Flow> {
    Preferred(BorrowTiers(x))
  }

  function BorrowSource(x: Input): string {
    FirstNonEmpty([if BorrowFlow(x).Some? then BorrowFlow(x).value.source else "",
                   x.interaction.provider, x.interaction.factory, x.interaction.pair])
  }

  function RepayTiers(x: Input): seq<seq<Flow>> {
    var candidates, amount := Filter(OutOfReceiver(x), x.flows), ExpectedRepayment(x);
    [Filter(ToWithAmount(x.leg.repaidTo, amount), candidates),
     Filter(ToWithAmount(x.interaction.provider, amount), candidates),
     Filter(OfAmount(amount), candidates),
     Filter(ToAddress(x.interaction.provider), candidates),
     candidates]
  }

  function RepayFlow(x: Input): Option<Flow> {
    Preferred(RepayTiers(x))
  }

  function RepaymentTarget(x: Input): string {
    FirstNonEmpty([if RepayFlow(x).Some? then RepayFlow(x).value.target else "",
                   x.leg.repaidTo, x.interaction.provider, x.interaction.pair, x.interaction.factory])
  }

  function ExecutionFlows(x: Input): seq<Flow> {
    KeyExecutionSegments(Ends(x.receiver, BorrowSource(x), RepaymentTarget(x)), x.flows,
                         if BorrowFlow(x).Some? then BorrowFlow(x).value.order else -1)
  }

  function FrameIDs(flows: seq<Flow>): set<string> {
    set f | f in flows :: f.frameID
  }

  function TopUpCandidate(x: Input): Flow -> bool {
    (f: Flow) =>
      && !(BorrowFlow(x).Some? && f.order <= BorrowFlow(x).value.order)
      && SameAddress(f.target, x.receiver) && !SameAddress(f.source, x.receiver)
      && f.frameID !in FrameIDs(ExecutionFlows(x))
      && !IsDebtLikeAsset(f.asset)
      && (SameAddress(f.source, x.sender) || NormalizeAmount(f.amount) == ExpectedRepayment(x)
          || SameAddress(f.asset, NormalizeAddress(x.leg.asset))
          || SameAddress(f.source, BorrowSource(x)) || SameAddress(f.source, RepaymentTarget(x)))
  }

  function TopUpFlows(x: Input): seq<Flow> {
    KeyTopUps(Filter(TopUpCandidate(x), x.flows), x.sender, ExpectedRepayment(x))
  }

  // ---- the edges of the lane, in the order they are pushed ----

  function BorrowPush(x: Input): seq<Push> {
    var amount := NormalizeAmount(x.leg.borrowed);
    if BorrowSource(x) != "" && amount != "0"
    then [Push(BorrowSource(x), "borrow_source", x.receiver, "receiver", "Borrow", x.leg.asset, amount, "borrow")]
    else []
  }

  function ExecutionPush(x: Input, f: Flow): Push {
    Push(f.source, if SameAddress(f.source, x.receiver) then "receiver" else "hop",
         f.target, if SameAddress(f.target, x.receiver) then "receiver" else "hop",
         HumanizeAction(f.action), f.asset, NormalizeAmount(f.amount), "swap")
  }

  function TopUpPush(x: Input, f: Flow): Push {
    Push(f.source, "topup_source", x.receiver, "receiver", "Top-up", f.asset, NormalizeAmount(f.amount), "repay")
  }

  function ExecutionPushes(x: Input, walk: seq<Flow>): seq<Push> {
    seq(|walk|, i requires 0 <= i < |walk| => ExecutionPush(x, walk[i]))
  }

  function TopUpPushes(x: Input, topUps: seq<Flow>): seq<Push> {
    seq(|topUps|, i requires 0 <= i < |topUps| => TopUpPush(x, topUps[i]))
  }

  function RepayPush(x: Input): seq<Push> {
    if RepaymentTarget(x) != "" && (ExpectedRepayment(x) != "0" || FeeAmount(x) != "0")
    then [Push(x.receiver, "receiver", RepaymentTarget(x), "repayment_target", "Repay", x.leg.asset,
               FirstNonZero([ExpectedRepayment(x), FeeAmount(x)]), "repay")]
    else []
  }

  function Edges(x: Input): seq<Push> {
    var walk, topUps := ExecutionFlows(x), TopUpFlows(x);
    BorrowPush(x) + ExecutionPushes(x, walk) + TopUpPushes(x, topUps) + RepayPush(x)
  }

  method PickFlows(x: Input) returns (borrowFlow: Option<Flow>, repayFlow: Option<Flow>)
    ensures borrowFlow == BorrowFlow(x) && repayFlow == RepayFlow(x)
  {
    var amount, expected := NormalizeAmount(x.leg.borrowed), ExpectedRepayment(x);
    var into := FilterTraceFlows(x.flows, IntoReceiver(x));
    var b0 := FilterTraceFlows(into, FromAddress(x.interaction.provider, amount));
    var b1 := FilterTraceFlows(into, NotFromWithAmount(x.sender, amount));
    var b2 := FilterTraceFlows(into, OfAmount(amount));
    var b3 := FilterTraceFlows(into, NotFromAddress(x.sender));
    borrowFlow := PickPreferredOrderedFlow([b0, b1, b2, b3, into]);
    var outOf := FilterTraceFlows(x.flows, OutOfReceiver(x));
    var r0 := FilterTraceFlows(outOf, ToWithAmount(x.leg.repaidTo, expected));
    var r1 := FilterTraceFlows(outOf, ToWithAmount(x.interaction.provider, expected));
    var r2 := FilterTraceFlows(outOf, OfAmount(expected));
    var r3 := FilterTraceFlows(outOf, ToAddress(x.interaction.provider));
    repayFlow := PickPreferredOrderedFlow([r0, r1, r2, r3, outOf]);
  }

  method PickBranches(x: Input, borrowFlow: Option<Flow>) returns (walk: seq<Flow>, topUps: seq<Flow>)
    requires borrowFlow == BorrowFlow(x)
    ensures walk == ExecutionFlows(x) && topUps == TopUpFlows(x)
  {
    hide TopUpCandidate, BorrowSource, RepaymentTarget, ExpectedRepayment, KeyExecutionSegments, KeyTopUps, BorrowFlow;
    walk := ExtractKeyExecutionSegments(Ends(x.receiver, BorrowSource(x), RepaymentTarget(x)), x.flows,
                                        if borrowFlow.Some? then borrowFlow.value.order else -1);
    var candidates := FilterTraceFlows(x.flows, TopUpCandidate(x));
    topUps := PickKeyTopupFlows(candidates, x.sender, ExpectedRepayment(x));
  }

  /** Where each edge stands in the list. */
  lemma {:induction false} EdgesListed(x: Input)
    ensures
      var borrow, walk, topUps, repay, edges := BorrowPush(x), ExecutionFlows(x), TopUpFlows(x), RepayPush(x), Edges(x);
      && |edges| == |borrow| + |walk| + |topUps| + |repay| && |borrow| <= 1 && |repay| <= 1
      && (|borrow| > 0 ==> edges[0] == borrow[0])
      && (forall i :: 0 <= i < |walk| ==> edges[|borrow| + i] == ExecutionPush(x, walk[i]))
      && (forall i :: 0 <= i < |topUps| ==> edges[|borrow| + |walk| + i] == TopUpPush(x, topUps[i]))
      && (|repay| > 0 ==> edges[|edges| - 1] == repay[0])
  {
    hide ExecutionFlows, TopUpFlows, BorrowSource, RepaymentTarget, ExpectedRepayment, FeeAmount, ExecutionPush, TopUpPush,
         SameAddress, NormalizeAmount, FirstNonZero;
  }

  function LaneDrawing(x: Input): Drawing {
    DrawAll(Edges(x), |Edges(x)|)
  }

  method BuildFundFlowLane(x: Input) returns (lane: Option<Lane>)
    ensures IsLane(LaneDrawing(x), lane)
  {
    hide Edges, BorrowPush, RepayPush, ExecutionPush, TopUpPush, ExecutionFlows, TopUpFlows, BorrowFlow, RepayFlow,
         Draw, IsLane, WellKeyed;
    var builder := new LaneBuilder();
    var borrowFlow, repayFlow := PickFlows(x);
    ghost var edges := Edges(x);
    EdgesListed(x);
    var borrow, repay := BorrowPush(x), RepayPush(x);
    if |borrow| > 0 {
      builder.DrawEdge(borrow[0]);
    }
    assert Drawing(builder.nodes, builder.segments) == DrawAll(edges, |borrow|);
    var walk, topUps := PickBranches(x, borrowFlow);
    builder.DrawEdges(ExecutionPushes(x, walk), edges, |borrow|);
    builder.DrawEdges(TopUpPushes(x, topUps), edges, |borrow| + |walk|);
    if |repay| > 0 {
      builder.DrawEdge(repay[0]);
    }
    DrawnWellKeyed(edges, |edges|);
    lane := CollectLane(builder.nodes, builder.segments);
  }

  lemma {:induction false} LaneIsGraph(x: Input, lane: Lane)
    requires IsLane(LaneDrawing(x), Some(lane))
    ensures WellFormed(LaneDrawing(x).segments, lane)
  {
    hide WellFormed, IsLane, Edges;
    DrawnWellKeyed(Edges(x), |Edges(x)|);
    DrawnEnds(Edges(x), |Edges(x)|);
    ListedIsWellFormed(LaneDrawing(x), lane);
  }

  // ---- which flows a lane shows ----

  /** When the provider pays the receiver exactly the borrowed amount, the borrow is drawn from the
      earliest such flow. */
  lemma {:induction false} BorrowComesFromProvider(x: Input, f: Flow)
    requires f in x.flows && IntoReceiver(x)(f) && FromAddress(x.interaction.provider, NormalizeAmount(x.leg.borrowed))(f)
    ensures
      var b := BorrowFlow(x);
      && b.Some? && b.value in x.flows && IntoReceiver(x)(b.value)
      && FromAddress(x.interaction.provider, NormalizeAmount(x.leg.borrowed))(b.value)
      && b.value.order <= f.order
  {
    hide IntoReceiver, FromAddress, NotFromWithAmount, OfAmount, NotFromAddress, NormalizeAmount, Filter, Preferred;
    var candidates, tiers := Filter(IntoReceiver(x), x.flows), BorrowTiers(x);
    var fromProvider := FromAddress(x.interaction.provider, NormalizeAmount(x.leg.borrowed));
    FilterIn(IntoReceiver(x), x.flows, f);
    FilterIn(fromProvider, candidates, f);
    var t, i := PreferredExact(tiers);
    assert f in tiers[0];
    assert tiers[t][i] in tiers[0];
    FilterIn(fromProvider, candidates, tiers[t][i]);
    FilterIn(IntoReceiver(x), x.flows, tiers[t][i]);
  }

  /** The amounts the repayment is expected to consist of. */
  function RepaymentParts(x: Input): seq<string> {
    [if NormalizeAmount(x.leg.repaid) != "0" then NormalizeAmount(x.leg.repaid) else NormalizeAmount(x.leg.borrowed),
     x.leg.premium, x.leg.fee]
  }

  /** What an amount is worth; nothing when it is no numeral. */
  function Worth(amount: string): nat {
    if Amount(amount) then Value(NormalizeAmount(amount)) else 0
  }

  /** When the receiver pays the repayment address or the provider a flow worth principal, premium and
      fee, the flow drawn as repayment is worth exactly that and goes to one of the two. */
  lemma {:induction false} RepaymentIsWorthTheDebt(x: Input, f: Flow)
    requires f in x.flows && OutOfReceiver(x)(f)
    requires SameAddress(f.target, x.leg.repaidTo) || SameAddress(f.target, x.interaction.provider)
    requires forall v :: v in RepaymentParts(x) ==> Amount(v)
    requires CanonicalAmounts(RepaymentParts(x)) && Canonical(NormalizeAmount(f.amount))
    requires Worth(f.amount) == TotalValue(RepaymentParts(x), 3)
    ensures
      var r := RepayFlow(x);
      && r.Some? && r.value in x.flows && OutOfReceiver(x)(r.value)
      && (SameAddress(r.value.target, x.leg.repaidTo) || SameAddress(r.value.target, x.interaction.provider))
      && Worth(r.value.amount) == TotalValue(RepaymentParts(x), 3)
  {
    hide OutOfReceiver, OfAmount, ToAddress, NormalizeAmount, SameAddress, Filter, Preferred, CanonicalAmounts, Value,
         TotalValue, SumRaw;
    var candidates, tiers, expected := Filter(OutOfReceiver(x), x.flows), RepayTiers(x), ExpectedRepayment(x);
    SumExact(RepaymentParts(x));
    RepaymentMatchExactly(f.amount, RepaymentParts(x));
    FilterIn(OutOfReceiver(x), x.flows, f);
    FilterIn(ToWithAmount(x.leg.repaidTo, expected), candidates, f);
    FilterIn(ToWithAmount(x.interaction.provider, expected), candidates, f);
    assert f in tiers[0] || f in tiers[1];
    var t, i := PreferredExact(tiers);
    var r := tiers[t][i];
    assert t <= 1 && r in tiers[t];
    FilterIn(ToWithAmount(x.leg.repaidTo, expected), candidates, r);
    FilterIn(ToWithAmount(x.interaction.provider, expected), candidates, r);
    FilterIn(OutOfReceiver(x), x.flows, r);
    RepaymentMatchExactly(r.amount, RepaymentParts(x));
  }

  /** Top-ups come after the borrow, pay the receiver from elsewhere, and repeat no execution branch. */
  lemma {:induction false} TopUpsStandApart(x: Input, f: Flow)
    requires f in TopUpFlows(x)
    ensures f in x.flows && SameAddress(f.target, x.receiver) && !SameAddress(f.source, x.receiver)
    ensures BorrowFlow(x).Some? ==> f.order > BorrowFlow(x).value.order
    ensures forall g :: g in ExecutionFlows(x) ==> g.frameID != f.frameID
  {
    hide ExecutionFlows, BorrowFlow, SameAddress, IsDebtLikeAsset, ExpectedRepayment, KeyTopUps;
    var candidates := Filter(TopUpCandidate(x), x.flows);
    TopUpsOptimal(candidates, x.sender, ExpectedRepayment(x));
    FilterIn(TopUpCandidate(x), x.flows, f);
    forall g | g in ExecutionFlows(x) ensures g.frameID != f.frameID {
      assert g.frameID in FrameIDs(ExecutionFlows(x));
    }
  }

  // ---- the fallback lane, drawn without a trace ----

  function FallbackEdges(x: Input): seq<Push> {
    var provider := FirstNonEmpty([x.interaction.provider, x.interaction.pair, x.interaction.factory]);
    var target := FirstNonEmpty([x.leg.repaidTo, x.interaction.provider, x.interaction.pair, x.interaction.factory]);
    var amount := NormalizeAmount(x.leg.borrowed);
    var expected := SumRaw([FirstNonZero([x.leg.repaid, x.leg.borrowed]), x.leg.premium, x.leg.fee]);
    (if provider != "" && amount != "0"
     then [Push(provider, "borrow_source", x.receiver, "receiver", "Borrow", x.leg.asset, amount, "borrow")] else [])
    + (if target != "" && expected != "0"
       then [Push(x.receiver, "receiver", target, "repayment_target", "Repay", x.leg.asset, expected, "repay")] else [])
  }

  /** The fallback keeps the first role an address appears in. */
  function WithFirstNode(nodes: map<string, LaneNode>, address: string, role: string): map<string, LaneNode> {
    var id := NormalizeAddress(address);
    if id == "" || id in nodes then nodes else nodes[id := LaneNode(id, [role], address)]
  }

  /** The fallback draws both ends and always keeps the segment. */
  function DrawFallback(d: Drawing, p: Push): Drawing {
    Drawing(WithFirstNode(WithFirstNode(d.nodes, p.from, p.fromRole), p.to, p.toRole),
            d.segments + [Segment(NormalizeAddress(p.from), NormalizeAddress(p.to), p.action, p.asset, p.amount, p.tone)])
  }

  function DrawFallbacks(edges: seq<Push>, k: nat): Drawing
    requires k <= |edges|
  {
    if k == 0 then Drawing(map[], []) else DrawFallback(DrawFallbacks(edges, k - 1), edges[k - 1])
  }

  method BuildFallbackFundFlowLane(x: Input) returns (lane: Option<Lane>)
    ensures IsLane(DrawFallbacks(FallbackEdges(x), |FallbackEdges(x)|), lane)
  {
    hide FallbackEdges, WellKeyed, DrawFallback;
    NothingDrawn();
    var edges := FallbackEdges(x);
    var drawing := Drawing(map[], []);
    for k := 0 to |edges|
      invariant drawing == DrawFallbacks(edges, k) && WellKeyed(drawing.nodes)
    {
      FallbackKeyed(drawing, edges[k]);
      drawing := DrawFallback(drawing, edges[k]);
    }
    lane := CollectLane(drawing.nodes, drawing.segments);
  }

  lemma {:induction false} NormalizedNonBlank(s: string)
    requires Trim(s) != ""
    ensures NormalizeAddress(s) != ""
  {
    assert |NormalizeAddress(s)| == |Trim(s)|;
  }

  /** With a receiver, which the graph builder insists on, fallback lanes are well-formed graphs too. */
  lemma {:induction false} FallbackIsGraph(x: Input, lane: Lane)
    requires Trim(x.receiver) != "" && IsLane(DrawFallbacks(FallbackEdges(x), |FallbackEdges(x)|), Some(lane))
    ensures WellFormed(DrawFallbacks(FallbackEdges(x), |FallbackEdges(x)|).segments, lane)
  {
    var edges := FallbackEdges(x);
    assert forall e :: e in edges ==> Trim(e.from) != "" && Trim(e.to) != "";
    FallbackDrawn(edges, |edges|);
    ListedIsWellFormed(DrawFallbacks(edges, |edges|), lane);
  }

  lemma {:induction false} NothingDrawn()
    ensures WellKeyed(map[]) && EndsDrawn(Drawing(map[], []))
  {
  }

  lemma {:induction false} FirstNodeKeyed(nodes: map<string, LaneNode>, address: string, role: string)
    requires WellKeyed(nodes)
    ensures WellKeyed(WithFirstNode(nodes, address, role))
  {
  }

  lemma {:induction false} FallbackKeyed(d: Drawing, p: Push)
    requires WellKeyed(d.nodes)
    ensures WellKeyed(DrawFallback(d, p).nodes)
  {
    hide NormalizeAddress, WellKeyed, WithFirstNode;
    FirstNodeKeyed(d.nodes, p.from, p.fromRole);
    FirstNodeKeyed(WithFirstNode(d.nodes, p.from, p.fromRole), p.to, p.toRole);
  }

  lemma {:induction false} EdgeDrawn(d: Drawing, p: Push)
    requires EndsDrawn(d) && NormalizeAddress(p.from) != "" && NormalizeAddress(p.to) != ""
    ensures EndsDrawn(DrawFallback(d, p))
  {
    hide NormalizeAddress;
  }

  lemma {:induction false} FallbackDrawn(edges: seq<Push>, k: nat)
    requires k <= |edges| && forall e :: e in edges ==> Trim(e.from) != "" && Trim(e.to) != ""
    ensures WellKeyed(DrawFallbacks(edges, k).nodes) && EndsDrawn(DrawFallbacks(edges, k))
  {
    hide Trim, NormalizeAddress, WellKeyed, EndsDrawn, DrawFallback;
    if k > 0 {
      FallbackDrawn(edges, k - 1);
      assert edges[k - 1] in edges;
      NormalizedNonBlank(edges[k - 1].from);
      NormalizedNonBlank(edges[k - 1].to);
      FallbackKeyed(DrawFallbacks(edges, k - 1), edges[k - 1]);
      EdgeDrawn(DrawFallbacks(edges, k - 1), edges[k - 1]);
    } else {
      NothingDrawn();
    }
  }
}
