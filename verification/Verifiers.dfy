/** The event-based verifiers (scanner/verifier/aave_v3.go, balancer_v2.go, uniswap_v2.go): every
    leg of a candidate is matched to the first suitable event of its provider. Events are not used
    up, so several legs may match one event. */
module Verifiers {
  import opened Text
  import opened ScanTypes

  // ---- finding events ----

  /** The position of the first event the test accepts, |events| when there is none. */
  function FirstMatch(test: ChainEvent -> bool, events: seq<ChainEvent>): (i: nat)
    ensures i <= |events|
    ensures i < |events| ==> test(events[i])
    ensures forall j :: 0 <= j < i ==> !test(events[j])
  {
    if events == [] || test(events[0]) then 0 else 1 + FirstMatch(test, events[1..])
  }

  method FindFirst(test: ChainEvent -> bool, events: seq<ChainEvent>) returns (found: Option<ChainEvent>)
    ensures found == Found(test, events)
  {
    for k := 0 to |events|
      invariant forall j :: 0 <= j < k ==> !test(events[j])
    {
      if !test(events[k]) {
        continue;
      }
      return Some(events[k]);
    }
    return None;
  }

  function Found(test: ChainEvent -> bool, events: seq<ChainEvent>): Option<ChainEvent> {
    if FirstMatch(test, events) < |events| then Some(events[FirstMatch(test, events)]) else None
  }

  function Kept(test: ChainEvent -> bool, events: seq<ChainEvent>, k: nat): (kept: seq<ChainEvent>)
    requires k <= |events|
    ensures forall e :: e in kept <==> e in events[..k] && test(e)
  {
    if k == 0 then [] else
      assert events[..k] == events[..k - 1] + [events[k - 1]];
      Kept(test, events, k - 1) + if test(events[k - 1]) then [events[k - 1]] else []
  }

  function AllKept(test: ChainEvent -> bool, events: seq<ChainEvent>): (kept: seq<ChainEvent>)
    ensures forall e :: e in kept <==> e in events && test(e)
  {
    assert events[..|events|] == events;
    Kept(test, events, |events|)
  }

  method KeepEvents(test: ChainEvent -> bool, events: seq<ChainEvent>) returns (kept: seq<ChainEvent>)
    ensures kept == AllKept(test, events)
  {
    kept := [];
    for k := 0 to |events|
      invariant kept == Kept(test, events, k)
    {
      if test(events[k]) {
        kept := kept + [events[k]];
      }
    }
  }

  /** Searching the events kept is searching all events for one that is kept and passes the test. */
  lemma {:induction false} FoundInKept(keep: ChainEvent -> bool, test: ChainEvent -> bool, both: ChainEvent -> bool,
                                       events: seq<ChainEvent>, k: nat)
    requires k <= |events| && forall e :: both(e) <==> keep(e) && test(e)
    ensures Found(test, Kept(keep, events, k)) == Found(both, events[..k])
  {
    if k > 0 {
      FoundInKept(keep, test, both, events, k - 1);
      var last := events[k - 1];
      assert events[..k] == events[..k - 1] + [last];
      FoundAppend(both, events[..k - 1], last);
      FoundAppend(test, Kept(keep, events, k - 1), last);
      assert Kept(keep, events, k - 1) + [] == Kept(keep, events, k - 1);
    }
  }

  lemma {:induction false} FoundAppend(test: ChainEvent -> bool, events: seq<ChainEvent>, last: ChainEvent)
    ensures Found(test, events + [last]) ==
            if Found(test, events).Some? then Found(test, events) else if test(last) then Some(last) else None
  {
    if events == [] {
      assert [] + [last] == [last] && [last][1..] == [];
    } else if !test(events[0]) {
      assert (events + [last])[1..] == events[1..] + [last];
      FoundAppend(test, events[1..], last);
    }
  }

  // ---- which event fits a leg ----

  function OfProvider(provider: string, kind: Kind): ChainEvent -> bool {
    (e: ChainEvent) => e.contract == provider && IsKind(e, kind)
  }

  datatype Kind = Aave | Balancer | Uniswap

  predicate IsKind(e: ChainEvent, kind: Kind) {
    match kind
    case Aave => e.AaveFlashLoan?
    case Balancer => e.BalancerFlashLoan?
    case Uniswap => e.UniswapSwap?
  }

  /** A flash-loan event of the leg's token, the candidate's receiver and the borrowed amount. */
  function FitsLoan(asset: string, borrowed: Option<nat>, receiver: string, kind: Kind): ChainEvent -> bool {
    (e: ChainEvent) =>
      && IsKind(e, kind) && (e.AaveFlashLoan? || e.BalancerFlashLoan?)
      && e.asset == asset && e.receiver == receiver && e.amount.Some? && e.amount == borrowed
  }

  /** The amount the last leg of a token side asks for. */
  function Wanted(legs: seq<Leg>, side: string, k: nat): Option<nat>
    requires k <= |legs|
  {
    if k == 0 then None else if legs[k - 1].side == Some(side) then legs[k - 1].borrowed else Wanted(legs, side, k - 1)
  }

  /** A swap to the receiver whose outputs are what the legs borrowed. */
  function FitsSwap(legs: seq<Leg>, receiver: string): ChainEvent -> bool {
    (e: ChainEvent) =>
      var want0, want1 := Wanted(legs, "token0", |legs|), Wanted(legs, "token1", |legs|);
      && e.UniswapSwap? && e.receiver == receiver
      && (want0.Some? ==> e.out0 == want0) && (want1.Some? ==> e.out1 == want1)
      && (want0.Some? || want1.Some?)
  }

  // ---- what a matched leg becomes ----

  function SettleBalancer(leg: Leg, e: ChainEvent): Leg
    requires e.BalancerFlashLoan?
  {
    leg.(fee := if e.fee.Some? then e.fee else leg.fee, eventSeen := true, strict := true, settlement := Some("full_repayment"))
  }

  function SettleAave(leg: Leg, e: ChainEvent): Leg
    requires e.AaveFlashLoan?
  {
    var paid := leg.(premium := if e.premium.Some? then e.premium else leg.premium, rateMode := Some(e.mode));
    if e.mode != 0 then paid.(openedDebt := true, strict := false, settlement := Some("debt_opening"))
    else paid.(strict := true, eventSeen := true, settlement := Some("full_repayment"))
  }

  function Positive(amount: Option<nat>, otherwise: Option<nat>): Option<nat> {
    if amount.Some? && amount.value > 0 then amount else otherwise
  }

  function SettleUniswap(leg: Leg, e: ChainEvent): Leg
    requires e.UniswapSwap?
  {
    leg.(eventSeen := true, strict := true, settlement := Some("invariant_restored"),
         amountIn := if leg.side == Some("token0") then Positive(e.in0, leg.amountIn)
                     else if leg.side == Some("token1") then Positive(e.in1, leg.amountIn)
                     else leg.amountIn)
  }

  // ---- the verdicts, stated over the whole list of legs ----

  function LoanFor(c: Candidate, leg: Leg, events: seq<ChainEvent>, kind: Kind): Option<ChainEvent> {
    Found(FitsLoan(leg.asset, leg.borrowed, c.receiver, kind), events)
  }

  /** The loan event found for a leg is the first of the list that fits it. */
  lemma {:induction false} LoanFits(c: Candidate, leg: Leg, events: seq<ChainEvent>, kind: Kind)
    ensures
      var loan := LoanFor(c, leg, events, kind);
      && (loan.Some? ==> loan.value in events && IsKind(loan.value, kind) && FitsLoan(leg.asset, leg.borrowed, c.receiver, kind)(loan.value))
      && (loan.None? ==> forall e :: e in events ==> !FitsLoan(leg.asset, leg.borrowed, c.receiver, kind)(e))
  {
  }

  predicate AllMatched(c: Candidate, legs: seq<Leg>, events: seq<ChainEvent>, kind: Kind) {
    forall i :: 0 <= i < |legs| ==> LoanFor(c, legs[i], events, kind).Some?
  }

  predicate OpensDebt(c: Candidate, leg: Leg, events: seq<ChainEvent>) {
    var e := LoanFor(c, leg, events, Aave);
    e.Some? && e.value.AaveFlashLoan? && e.value.mode != 0
  }

  function Accepted(strict: bool, debtOpening: bool): Verdict {
    Verdict(true, strict, true, true, strict, debtOpening, None)
  }

  function ProviderEvents(chain: Chain, c: Candidate, kind: Kind): seq<ChainEvent> {
    AllKept(OfProvider(c.provider, kind), EventsOf(chain, c.key.tx))
  }

  function BalancerLeg(c: Candidate, leg: Leg, events: seq<ChainEvent>): Leg {
    var e := LoanFor(c, leg, events, Balancer);
    if e.Some? then SettleBalancer(leg, e.value) else leg
  }

  function BalancerLegs(c: Candidate, legs: seq<Leg>, events: seq<ChainEvent>): seq<Leg> {
    seq(|legs|, i requires 0 <= i < |legs| => BalancerLeg(c, legs[i], events))
  }

  function BalancerOutcome(chain: Chain, c: Candidate, legs: seq<Leg>): Outcome {
    var events := ProviderEvents(chain, c, Balancer);
    if !Succeeded(chain, c.key.tx) then Judged(Excluded("transaction_not_successful"), None)
    else if events == [] then Judged(Excluded("missing_flashloan_event"), Some(legs))
    else if !AllMatched(c, legs, events, Balancer) then Judged(Excluded("flashloan_event_mismatch"), Some(legs))
    else Judged(Accepted(true, false), Some(BalancerLegs(c, legs, events)))
  }

  function AaveLeg(c: Candidate, leg: Leg, events: seq<ChainEvent>): Leg {
    var e := LoanFor(c, leg, events, Aave);
    if e.Some? then SettleAave(leg, e.value) else leg
  }

  predicate AnyDebt(c: Candidate, legs: seq<Leg>, events: seq<ChainEvent>) {
    exists i :: 0 <= i < |legs| && OpensDebt(c, legs[i], events)
  }

  function AaveLegs(c: Candidate, legs: seq<Leg>, events: seq<ChainEvent>): seq<Leg> {
    seq(|legs|, i requires 0 <= i < |legs| => AaveLeg(c, legs[i], events))
  }

  function AaveOutcome(chain: Chain, c: Candidate, legs: seq<Leg>): Outcome {
    var events := ProviderEvents(chain, c, Aave);
    if !Succeeded(chain, c.key.tx) then Judged(Excluded("transaction_not_successful"), None)
    else if events == [] then Judged(Excluded("missing_flashloan_event"), Some(legs))
    else if !AllMatched(c, legs, events, Aave) then Judged(Excluded("flashloan_event_mismatch"), Some(legs))
    else
      var debt := AnyDebt(c, legs, events);
      Judged(Accepted(!debt, debt), Some(AaveLegs(c, legs, events)))
  }

  function UniswapLegs(legs: seq<Leg>, swap: ChainEvent): seq<Leg>
    requires swap.UniswapSwap?
  {
    seq(|legs|, i requires 0 <= i < |legs| => SettleUniswap(legs[i], swap))
  }

  function UniswapOutcome(chain: Chain, c: Candidate, legs: seq<Leg>): Outcome {
    var events := ProviderEvents(chain, c, Uniswap);
    var swap := Found(FitsSwap(legs, c.receiver), events);
    if !Succeeded(chain, c.key.tx) then Judged(Excluded("transaction_not_successful"), None)
    else if c.dataNonEmpty != Some(true) then Judged(Excluded("empty_swap_data"), None)
    else if events == [] then Judged(Excluded("missing_swap_event"), Some(legs))
    else if swap.None? then Judged(Excluded("swap_event_mismatch"), Some(legs))
    else Judged(Accepted(true, false), Some(UniswapLegs(legs, swap.value)))
  }

  // ---- the verifiers as they run ----

  method VerifyBalancer(chain: Chain, c: Candidate, legs: seq<Leg>) returns (outcome: Outcome)
    ensures outcome == BalancerOutcome(chain, c, legs)
  {
    if !Succeeded(chain, c.key.tx) {
      return Judged(Excluded("transaction_not_successful"), None);
    }
    var events := KeepEvents(OfProvider(c.provider, Balancer), EventsOf(chain, c.key.tx));
    if |events| == 0 {
      return Judged(Excluded("missing_flashloan_event"), Some(legs));
    }
    var verifiedLegs: seq<Leg> := [];
    for i := 0 to |legs|
      invariant |verifiedLegs| == i
      invariant forall j :: 0 <= j < i ==> LoanFor(c, legs[j], events, Balancer).Some? && verifiedLegs[j] == BalancerLeg(c, legs[j], events)
    {
      var outLeg := legs[i];
      var event := FindFirst(FitsLoan(outLeg.asset, outLeg.borrowed, c.receiver, Balancer), events);
      if event.None? {
        return Judged(Excluded("flashloan_event_mismatch"), Some(legs));
      }
      if event.value.fee.Some? {
        outLeg := outLeg.(fee := event.value.fee);
      }
      outLeg := outLeg.(eventSeen := true, strict := true, settlement := Some("full_repayment"));
      verifiedLegs := verifiedLegs + [outLeg];
    }
    assert verifiedLegs == BalancerLegs(c, legs, events);
    return Judged(Accepted(true, false), Some(verifiedLegs));
  }

  method VerifyAave(chain: Chain, c: Candidate, legs: seq<Leg>) returns (outcome: Outcome)
    ensures outcome == AaveOutcome(chain, c, legs)
  {
    hide FirstMatch, AllKept, FitsLoan, OfProvider, Found, Kept;
    if !Succeeded(chain, c.key.tx) {
      return Judged(Excluded("transaction_not_successful"), None);
    }
    var events := KeepEvents(OfProvider(c.provider, Aave), EventsOf(chain, c.key.tx));
    if |events| == 0 {
      return Judged(Excluded("missing_flashloan_event"), Some(legs));
    }
    var strict, containsDebtOpening := true, false;
    var verifiedLegs: seq<Leg> := [];
    for i := 0 to |legs|
      invariant |verifiedLegs| == i && strict == !containsDebtOpening
      invariant forall j :: 0 <= j < i ==> LoanFor(c, legs[j], events, Aave).Some? && verifiedLegs[j] == AaveLeg(c, legs[j], events)
      invariant containsDebtOpening <==> exists j :: 0 <= j < i && OpensDebt(c, legs[j], events)
    {
      var outLeg := legs[i];
      var event := FindFirst(FitsLoan(outLeg.asset, outLeg.borrowed, c.receiver, Aave), events);
      if event.None? {
        return Judged(Excluded("flashloan_event_mismatch"), Some(legs));
      }
      LoanFits(c, outLeg, events, Aave);
      assert OpensDebt(c, legs[i], events) <==> event.value.mode != 0;
      if event.value.premium.Some? {
        outLeg := outLeg.(premium := event.value.premium);
      }
      if event.value.mode != 0 {
        containsDebtOpening := true;
        strict := false;
        outLeg := outLeg.(openedDebt := true, strict := false, settlement := Some("debt_opening"));
      } else {
        outLeg := outLeg.(strict := true, eventSeen := true, settlement := Some("full_repayment"));
      }
      outLeg := outLeg.(rateMode := Some(event.value.mode));
      verifiedLegs := verifiedLegs + [outLeg];
    }
    assert verifiedLegs == AaveLegs(c, legs, events);
    return Judged(Verdict(true, strict, true, true, strict, containsDebtOpening, None), Some(verifiedLegs));
  }

  method MatchesUniswapLegs(event: ChainEvent, legs: seq<Leg>) returns (matched: bool)
    requires event.UniswapSwap?
    ensures matched == FitsSwap(legs, event.receiver)(event)
  {
    var want0: Option<nat>, want1: Option<nat> := None, None;
    for i := 0 to |legs|
      invariant want0 == Wanted(legs, "token0", i) && want1 == Wanted(legs, "token1", i)
    {
      if legs[i].side == Some("token0") {
        want0 := legs[i].borrowed;
      }
      if legs[i].side == Some("token1") {
        want1 := legs[i].borrowed;
      }
    }
    if want0.Some? && event.out0 != want0 {
      return false;
    }
    if want1.Some? && event.out1 != want1 {
      return false;
    }
    return want0.Some? || want1.Some?;
  }

  method MatchUniswapSwapEvent(events: seq<ChainEvent>, receiver: string, legs: seq<Leg>) returns (found: Option<ChainEvent>)
    requires forall e :: e in events ==> e.UniswapSwap?
    ensures found == Found(FitsSwap(legs, receiver), events)
  {
    for k := 0 to |events|
      invariant forall j :: 0 <= j < k ==> !FitsSwap(legs, receiver)(events[j])
    {
      if events[k].receiver != receiver {
        continue;
      }
      var matched := MatchesUniswapLegs(events[k], legs);
      if matched {
        return Some(events[k]);
      }
    }
    return None;
  }

  method VerifyUniswap(chain: Chain, c: Candidate, legs: seq<Leg>) returns (outcome: Outcome)
    ensures outcome == UniswapOutcome(chain, c, legs)
  {
    if !Succeeded(chain, c.key.tx) {
      return Judged(Excluded("transaction_not_successful"), None);
    }
    if c.dataNonEmpty != Some(true) {
      return Judged(Excluded("empty_swap_data"), None);
    }
    var events := KeepEvents(OfProvider(c.provider, Uniswap), EventsOf(chain, c.key.tx));
    if |events| == 0 {
      return Judged(Excluded("missing_swap_event"), Some(legs));
    }
    var swap := MatchUniswapSwapEvent(events, c.receiver, legs);
    if swap.None? {
      return Judged(Excluded("swap_event_mismatch"), Some(legs));
    }
    var verifiedLegs: seq<Leg> := [];
    for i := 0 to |legs|
      invariant |verifiedLegs| == i && forall j :: 0 <= j < i ==> verifiedLegs[j] == SettleUniswap(legs[j], swap.value)
    {
      var outLeg := legs[i].(eventSeen := true, strict := true, settlement := Some("invariant_restored"));
      if outLeg.side == Some("token0") {
        if swap.value.in0.Some? && swap.value.in0.value > 0 {
          outLeg := outLeg.(amountIn := swap.value.in0);
        }
      } else if outLeg.side == Some("token1") {
        if swap.value.in1.Some? && swap.value.in1.value > 0 {
          outLeg := outLeg.(amountIn := swap.value.in1);
        }
      }
      verifiedLegs := verifiedLegs + [outLeg];
    }
    assert verifiedLegs == UniswapLegs(legs, swap.value);
    return Judged(Accepted(true, false), Some(verifiedLegs));
  }
}
