/** The trace-backed verifiers (scanner/verifier/aave_v3_trace.go, balancer_v2_trace.go,
    uniswap_v2_trace.go, trace_fallback.go). The three share their shape and differ in the base
    verifier, the debt-opening branch of Aave and the annotation of legs. */
module TraceVerifiers {
  import opened Text
  import opened TraceTree
  import opened TraceEvidence
  import opened TraceSearch
  import opened ScanTypes
  import opened Verifiers

  // ---- the specification ----

  function BaseOutcome(kind: Kind, chain: Chain, c: Candidate, legs: seq<Leg>): Outcome {
    match kind
    case Aave => AaveOutcome(chain, c, legs)
    case Balancer => BalancerOutcome(chain, c, legs)
    case Uniswap => UniswapOutcome(chain, c, legs)
  }

  function AnswerFor(chain: Chain, tx: string): TraceAnswer {
    if tx in chain.traces then chain.traces[tx] else NoTrace
  }

  predicate IsTraceUnavailable(message: string) {
    var m := Lower(message);
    || Contains(m, "historical state is not available") || Contains(m, "debug_tracetransaction")
    || Contains(m, "the method debug_tracetransaction does not exist") || Contains(m, "method not found")
    || Contains(m, "unsupported")
  }

  function AssetsOf(legs: seq<Leg>, k: nat): set<string>
    requires k <= |legs|
  {
    if k == 0 then {} else AssetsOf(legs, k - 1) + if legs[k - 1].asset != "" then {Lower(legs[k - 1].asset)} else {}
  }

  predicate HasRepaymentPath(root: CallFrame, provider: string, legs: seq<Leg>) {
    AssetsOf(legs, |legs|) != {} && HasRepaymentCall(root, Lower(provider), AssetsOf(legs, |legs|))
  }

  predicate HasCallback(root: CallFrame, c: Candidate) {
    HasSuccessfulDirectCall(root, Lower(c.provider), Lower(c.receiver))
  }

  function AnnotateLeg(kind: Kind, leg: Leg): Leg {
    if kind == Aave && leg.openedDebt then leg.(eventSeen := true)
    else
      leg.(eventSeen := true, strict := true,
           settlement := if leg.settlement.Some? then leg.settlement
                         else Some(if kind == Uniswap then "invariant_restored" else "full_repayment"))
  }

  function AnnotateLegs(kind: Kind, legs: seq<Leg>): seq<Leg> {
    seq(|legs|, i requires 0 <= i < |legs| => AnnotateLeg(kind, legs[i]))
  }

  /** What the trace stage makes of a verified base verdict. */
  function WithTrace(kind: Kind, c: Candidate, base: Verdict, legs: seq<Leg>, root: CallFrame): Outcome {
    var callback, repayment := HasCallback(root, c), HasRepaymentPath(root, c.provider, legs);
    var debt := kind == Aave && base.debtOpening;
    var seen := base.(callbackSeen := callback, settlementSeen := callback, repaymentSeen := repayment && !debt);
    if debt then Judged(seen.(strict := false), Some(legs))
    else if !callback then Judged(seen.(verified := false, strict := false, exclusion := Some("missing_trace_callback")), Some(legs))
    else if !repayment then Judged(seen.(strict := false), Some(legs))
    else Judged(seen.(strict := true), Some(AnnotateLegs(kind, legs)))
  }

  function TraceOutcome(kind: Kind, chain: Chain, c: Candidate, legs: seq<Leg>): Outcome {
    var base := BaseOutcome(kind, chain, c, legs);
    if base.VerifyError? || !base.verdict.verified || base.legs.None? then base else
      match AnswerFor(chain, c.key.tx)
      case TraceError(message) => if IsTraceUnavailable(message) then base else VerifyError
      case NoTrace =>
        base.(verdict := base.verdict.(verified := false, strict := false, callbackSeen := false, repaymentSeen := false, exclusion := Some("missing_trace")))
      case Traced(root) => WithTrace(kind, c, base.verdict, base.legs.value, root)
  }

  // ---- the verifiers as they run ----

  method CollectAssets(legs: seq<Leg>) returns (assets: set<string>)
    ensures assets == AssetsOf(legs, |legs|)
  {
    assets := {};
    for k := 0 to |legs|
      invariant assets == AssetsOf(legs, k)
    {
      if legs[k].asset != "" {
        assets := assets + {Lower(legs[k].asset)};
      }
    }
  }

  method AnnotateTraceLegs(kind: Kind, legs: seq<Leg>) returns (out: seq<Leg>)
    ensures out == AnnotateLegs(kind, legs)
  {
    out := [];
    for k := 0 to |legs|
      invariant |out| == k && forall i :: 0 <= i < k ==> out[i] == AnnotateLeg(kind, legs[i])
    {
      var leg := legs[k].(eventSeen := true);
      if leg.settlement == None && !(kind == Aave && leg.openedDebt) {
        leg := leg.(settlement := Some(if kind == Uniswap then "invariant_restored" else "full_repayment"));
      }
      if !(kind == Aave && leg.openedDebt) {
        leg := leg.(strict := true);
      }
      out := out + [leg];
    }
  }

  method VerifyBase(kind: Kind, chain: Chain, c: Candidate, legs: seq<Leg>) returns (outcome: Outcome)
    ensures outcome == BaseOutcome(kind, chain, c, legs)
  {
    match kind
    case Aave => outcome := VerifyAave(chain, c, legs);
    case Balancer => outcome := VerifyBalancer(chain, c, legs);
    case Uniswap => outcome := VerifyUniswap(chain, c, legs);
  }

  method VerifyWithTrace(kind: Kind, chain: Chain, c: Candidate, legs: seq<Leg>) returns (outcome: Outcome)
    ensures outcome == TraceOutcome(kind, chain, c, legs)
  {
    hide BaseOutcome, AnswerFor, AssetsOf, HasSuccessfulDirectCall, HasRepaymentCall, IsTraceUnavailable, AnnotateLegs, Lower;
    var base := VerifyBase(kind, chain, c, legs);
    if base.VerifyError? || !base.verdict.verified || base.legs.None? {
      return base;
    }
    var result, baseLegs := base.verdict, base.legs.value;
    match AnswerFor(chain, c.key.tx)
    case TraceError(message) =>
      if IsTraceUnavailable(message) {
        return Judged(result, Some(baseLegs));
      }
      return VerifyError;
    case NoTrace =>
      result := result.(verified := false, strict := false, callbackSeen := false, repaymentSeen := false, exclusion := Some("missing_trace"));
      return Judged(result, Some(baseLegs));
    case Traced(root) =>
      var callbackSeen := HasSuccessfulDirectCall(root, Lower(c.provider), Lower(c.receiver));
      var assets := CollectAssets(baseLegs);
      var repaymentPathSeen := assets != {} && HasRepaymentCall(root, Lower(c.provider), assets);
      var containsDebtOpening := kind == Aave && result.debtOpening;
      result := result.(callbackSeen := callbackSeen);
      result := result.(settlementSeen := callbackSeen);
      result := result.(repaymentSeen := repaymentPathSeen && !containsDebtOpening);
      if containsDebtOpening {
        result := result.(strict := false);
        return Judged(result, Some(baseLegs));
      }
      if !callbackSeen {
        result := result.(verified := false);
        result := result.(strict := false, exclusion := Some("missing_trace_callback"));
        return Judged(result, Some(baseLegs));
      }
      if !repaymentPathSeen {
        result := result.(strict := false);
        return Judged(result, Some(baseLegs));
      }
      result := result.(strict := true);
      var annotated := AnnotateTraceLegs(kind, baseLegs);
      return Judged(result, Some(annotated));
  }

  // ---- what a base verdict can be ----

  ghost predicate AllStrict(legs: seq<Leg>) {
    forall leg :: leg in legs ==> leg.strict
  }

  /** A verified base verdict is strict exactly when no leg opened debt, shows every kind of evidence
      if so, and then comes with strict legs; anything else claims nothing. */
  lemma {:induction false} BaseVerdicts(kind: Kind, chain: Chain, c: Candidate, legs: seq<Leg>)
    ensures
      var base := BaseOutcome(kind, chain, c, legs);
      && base.Judged?
      && (base.verdict.verified ==>
            && base.legs.Some? && |base.legs.value| == |legs|
            && base.verdict == Accepted(!base.verdict.debtOpening, base.verdict.debtOpening)
            && (base.verdict.debtOpening ==> kind == Aave)
            && (base.verdict.strict ==> AllStrict(base.legs.value) && AnnotateLegs(kind, base.legs.value) == base.legs.value))
      && (!base.verdict.verified ==> base.verdict.exclusion.Some? && base.verdict == Excluded(base.verdict.exclusion.value))
      && (base.verdict.debtOpening <==> base.verdict.verified && kind == Aave && AnyDebt(c, legs, ProviderEvents(chain, c, Aave)))
  {
    var base := BaseOutcome(kind, chain, c, legs);
    hide LoanFor, ProviderEvents, FitsSwap, Found;
    if base.verdict.verified && base.verdict.strict {
      var out, events := base.legs.value, ProviderEvents(chain, c, kind);
      forall i | 0 <= i < |out| ensures out[i].strict && AnnotateLeg(kind, out[i]) == out[i] {
        LoanFits(c, legs[i], events, kind);
        assert kind == Aave ==> !OpensDebt(c, legs[i], events) && LoanFor(c, legs[i], events, Aave).Some?;
        assert kind == Balancer ==> LoanFor(c, legs[i], events, Balancer).Some?;
      }
      assert AnnotateLegs(kind, out) == out;
    }
  }

  // ---- what the trace stage guarantees ----

  lemma {:induction false} TraceLength(root: CallFrame)
    ensures |FlattenTrace(root)| == Size(root)
  {
  }

  /** With a trace, strict is reported exactly when the base verified, no leg opened debt, the flat
      list of frames shows a successful provider-to-receiver call below the root, and some frame of
      it is a repayment call on an asset of the legs. */
  lemma {:induction false} StrictExactly(kind: Kind, chain: Chain, c: Candidate, legs: seq<Leg>)
    requires AnswerFor(chain, c.key.tx).Traced?
    ensures
      var base, outcome := BaseOutcome(kind, chain, c, legs), TraceOutcome(kind, chain, c, legs);
      var frames := FlattenTrace(AnswerFor(chain, c.key.tx).root);
      && base.Judged? && outcome.Judged?
      && (outcome.verdict.strict <==>
            && base.verdict.verified && !base.verdict.debtOpening && base.legs.Some?
            && (exists i :: 0 < i < |frames| && IsCallback(frames[i].frame, Lower(c.provider), Lower(c.receiver)))
            && AssetsOf(base.legs.value, |base.legs.value|) != {}
            && (exists i :: 0 <= i < |frames| && IsRepaymentCall(frames[i].frame, Lower(c.provider), AssetsOf(base.legs.value, |base.legs.value|))))
  {
    hide BaseOutcome, AnswerFor, AssetsOf, HasRepaymentCall, HasSuccessfulDirectCall, IsCallback, IsRepaymentCall, FlattenTrace;
    var base, root := BaseOutcome(kind, chain, c, legs), AnswerFor(chain, c.key.tx).root;
    BaseVerdicts(kind, chain, c, legs);
    TraceLength(root);
    DirectCallIsLaterCallback(root, Lower(c.provider), Lower(c.receiver));
    if base.legs.Some? {
      RepaymentCallIsListed(root, Lower(c.provider), AssetsOf(base.legs.value, |base.legs.value|));
    }
  }

  /** Whatever the trace provider answers: strict implies verified, all three kinds of evidence, and
      strict legs; and the trace stage never upgrades the base verdict. */
  lemma {:induction false} StrictImplies(kind: Kind, chain: Chain, c: Candidate, legs: seq<Leg>)
    requires TraceOutcome(kind, chain, c, legs).Judged?
    ensures
      var base, outcome := BaseOutcome(kind, chain, c, legs), TraceOutcome(kind, chain, c, legs);
      && (outcome.verdict.strict ==>
            && outcome.verdict.verified && outcome.verdict.callbackSeen && outcome.verdict.settlementSeen && outcome.verdict.repaymentSeen
            && outcome.legs.Some? && AllStrict(outcome.legs.value))
      && base.Judged? && (outcome.verdict.verified ==> base.verdict.verified) && (outcome.verdict.strict ==> base.verdict.strict)
  {
    BaseVerdicts(kind, chain, c, legs);
    hide BaseOutcome, AnswerFor, HasCallback, HasRepaymentPath, AllStrict, AnnotateLegs, IsTraceUnavailable;
  }

  /** The legs returned are the base verifier's: annotating them changes nothing. */
  lemma {:induction false} TraceKeepsLegs(kind: Kind, chain: Chain, c: Candidate, legs: seq<Leg>)
    requires TraceOutcome(kind, chain, c, legs).Judged?
    ensures TraceOutcome(kind, chain, c, legs).legs == BaseOutcome(kind, chain, c, legs).legs
  {
    BaseVerdicts(kind, chain, c, legs);
    hide BaseOutcome, AnswerFor, HasCallback, HasRepaymentPath, AllStrict, AnnotateLegs, IsTraceUnavailable;
  }

  // ---- verifying again changes nothing ----

  /** Verification never touches what legs are matched by. */
  ghost predicate SameCore(a: seq<Leg>, b: seq<Leg>) {
    |a| == |b| && forall i :: 0 <= i < |a| ==> a[i].asset == b[i].asset && a[i].borrowed == b[i].borrowed && a[i].side == b[i].side
  }

  lemma {:induction false} WantedSame(a: seq<Leg>, b: seq<Leg>, side: string, k: nat)
    requires SameCore(a, b) && k <= |a|
    ensures Wanted(a, side, k) == Wanted(b, side, k)
  {
    if k > 0 {
      WantedSame(a, b, side, k - 1);
    }
  }

  lemma {:induction false} FoundSame(p: ChainEvent -> bool, q: ChainEvent -> bool, events: seq<ChainEvent>)
    requires forall e :: p(e) == q(e)
    ensures Found(p, events) == Found(q, events)
  {
    if events != [] {
      FoundSame(p, q, events[1..]);
    }
  }

  lemma {:induction false} SwapSame(a: seq<Leg>, b: seq<Leg>, receiver: string, events: seq<ChainEvent>)
    requires SameCore(a, b)
    ensures Found(FitsSwap(a, receiver), events) == Found(FitsSwap(b, receiver), events)
  {
    WantedSame(a, b, "token0", |a|);
    WantedSame(a, b, "token1", |a|);
    FoundSame(FitsSwap(a, receiver), FitsSwap(b, receiver), events);
  }

  lemma {:induction false} SwapFits(legs: seq<Leg>, receiver: string, events: seq<ChainEvent>)
    ensures Found(FitsSwap(legs, receiver), events).Some? ==> Found(FitsSwap(legs, receiver), events).value.UniswapSwap?
  {
  }

  lemma {:induction false} AaveAgain(chain: Chain, c: Candidate, legs: seq<Leg>)
    requires AaveOutcome(chain, c, legs).Judged? && AaveOutcome(chain, c, legs).legs.Some?
    ensures AaveOutcome(chain, c, AaveOutcome(chain, c, legs).legs.value) == AaveOutcome(chain, c, legs)
  {
    hide LoanFor, ProviderEvents, Found;
    var events, out := ProviderEvents(chain, c, Aave), AaveOutcome(chain, c, legs).legs.value;
    forall i | 0 <= i < |legs|
      ensures LoanFor(c, out[i], events, Aave) == LoanFor(c, legs[i], events, Aave)
      ensures AaveLeg(c, AaveLeg(c, legs[i], events), events) == AaveLeg(c, legs[i], events)
    {
      SameLoanFor(c, legs[i], out[i], events, Aave);
      SameLoanFor(c, legs[i], AaveLeg(c, legs[i], events), events, Aave);
      LoanFits(c, legs[i], events, Aave);
    }
    if AaveOutcome(chain, c, legs).verdict.verified {
      assert AaveLegs(c, out, events) == out;
      assert forall i :: 0 <= i < |legs| ==> OpensDebt(c, out[i], events) == OpensDebt(c, legs[i], events);
    }
  }

  lemma {:induction false} SameLoanFor(c: Candidate, a: Leg, b: Leg, events: seq<ChainEvent>, kind: Kind)
    requires a.asset == b.asset && a.borrowed == b.borrowed
    ensures LoanFor(c, a, events, kind) == LoanFor(c, b, events, kind)
  {
  }

  lemma {:induction false} BalancerAgain(chain: Chain, c: Candidate, legs: seq<Leg>)
    requires BalancerOutcome(chain, c, legs).Judged? && BalancerOutcome(chain, c, legs).legs.Some?
    ensures BalancerOutcome(chain, c, BalancerOutcome(chain, c, legs).legs.value) == BalancerOutcome(chain, c, legs)
  {
    hide LoanFor, ProviderEvents, Found;
    var events, out := ProviderEvents(chain, c, Balancer), BalancerOutcome(chain, c, legs).legs.value;
    forall i | 0 <= i < |legs|
      ensures LoanFor(c, out[i], events, Balancer) == LoanFor(c, legs[i], events, Balancer)
      ensures BalancerLeg(c, BalancerLeg(c, legs[i], events), events) == BalancerLeg(c, legs[i], events)
    {
      SameLoanFor(c, legs[i], out[i], events, Balancer);
      SameLoanFor(c, legs[i], BalancerLeg(c, legs[i], events), events, Balancer);
      LoanFits(c, legs[i], events, Balancer);
    }
    if BalancerOutcome(chain, c, legs).verdict.verified {
      assert BalancerLegs(c, out, events) == out;
    }
  }

  lemma {:induction false} UniswapAgain(chain: Chain, c: Candidate, legs: seq<Leg>)
    requires UniswapOutcome(chain, c, legs).Judged? && UniswapOutcome(chain, c, legs).legs.Some?
    ensures UniswapOutcome(chain, c, UniswapOutcome(chain, c, legs).legs.value) == UniswapOutcome(chain, c, legs)
  {
    var outcome, events := UniswapOutcome(chain, c, legs), ProviderEvents(chain, c, Uniswap);
    hide ProviderEvents, FitsSwap, Found;
    if outcome.verdict.verified {
      SwapSame(legs, outcome.legs.value, c.receiver, events);
      var swap := Found(FitsSwap(legs, c.receiver), events);
      SwapFits(legs, c.receiver, events);
      assert UniswapLegs(outcome.legs.value, swap.value) == outcome.legs.value;
    }
  }

  lemma {:induction false} BaseAgain(kind: Kind, chain: Chain, c: Candidate, legs: seq<Leg>)
    requires BaseOutcome(kind, chain, c, legs).legs.Some?
    ensures BaseOutcome(kind, chain, c, BaseOutcome(kind, chain, c, legs).legs.value) == BaseOutcome(kind, chain, c, legs)
  {
    hide AaveOutcome, BalancerOutcome, UniswapOutcome;
    BaseVerdicts(kind, chain, c, legs);
    match kind {
      case Aave => AaveAgain(chain, c, legs);
      case Balancer => BalancerAgain(chain, c, legs);
      case Uniswap => UniswapAgain(chain, c, legs);
    }
  }

  /** Verifying the legs a verification has written gives the same verdict and the same legs. */
  lemma {:induction false} VerifyAgain(kind: Kind, chain: Chain, c: Candidate, legs: seq<Leg>)
    requires TraceOutcome(kind, chain, c, legs).Judged? && TraceOutcome(kind, chain, c, legs).legs.Some?
    ensures TraceOutcome(kind, chain, c, TraceOutcome(kind, chain, c, legs).legs.value) == TraceOutcome(kind, chain, c, legs)
  {
    hide BaseOutcome, AnswerFor, WithTrace, IsTraceUnavailable;
    TraceKeepsLegs(kind, chain, c, legs);
    BaseVerdicts(kind, chain, c, legs);
    BaseAgain(kind, chain, c, legs);
  }
}
