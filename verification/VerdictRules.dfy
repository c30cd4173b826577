/** What the verifiers decide, said of the logs of the transaction and the frames of its trace: when a
    candidate is verified and strict, why it is excluded, and what its legs become. */
module VerdictRules {
  import opened Text
  import opened ScanTypes
  import opened Verifiers
  import opened TraceTree
  import opened TraceVerifiers
  import TokenCalls
  import TraceEvidence
  import TraceSearch

  // ---- logs and legs ----

  /** The log is a flash loan of the candidate's provider to its receiver, of the leg's token and amount. */
  predicate LendsLeg(e: ChainEvent, c: Candidate, leg: Leg, kind: Kind) {
    match e
    case AaveFlashLoan(contract, receiver, asset, amount, _, _) =>
      kind == Aave && contract == c.provider && receiver == c.receiver && asset == leg.asset && amount.Some? && amount == leg.borrowed
    case BalancerFlashLoan(contract, receiver, asset, amount, _) =>
      kind == Balancer && contract == c.provider && receiver == c.receiver && asset == leg.asset && amount.Some? && amount == leg.borrowed
    case _ => false
  }

  /** Log j of the transaction is the first one that lends the leg. */
  ghost predicate FirstLoan(chain: Chain, c: Candidate, leg: Leg, kind: Kind, j: nat) {
    var logs := EventsOf(chain, c.key.tx);
    j < |logs| && LendsLeg(logs[j], c, leg, kind) && forall i :: 0 <= i < j ==> !LendsLeg(logs[i], c, leg, kind)
  }

  ghost predicate HasLoan(chain: Chain, c: Candidate, leg: Leg, kind: Kind) {
    exists e :: e in EventsOf(chain, c.key.tx) && LendsLeg(e, c, leg, kind)
  }

  ghost predicate HasProviderLog(chain: Chain, c: Candidate, kind: Kind) {
    exists e :: e in EventsOf(chain, c.key.tx) && e.contract == c.provider
                && (match kind case Aave => e.AaveFlashLoan? case Balancer => e.BalancerFlashLoan? case Uniswap => e.UniswapSwap?)
  }

  ghost predicate TxSucceeded(chain: Chain, tx: string) {
    tx in chain.status && chain.status[tx] == 1
  }

  /** The loan event a verifier finds for a leg is the first log of the transaction that lends it. */
  lemma {:induction false} LoanIsFirstLog(chain: Chain, c: Candidate, leg: Leg, kind: Kind)
    requires kind != Uniswap
    ensures
      var loan := LoanFor(c, leg, ProviderEvents(chain, c, kind), kind);
      && (loan.Some? <==> HasLoan(chain, c, leg, kind))
      && (loan.Some? ==> exists j: nat :: FirstLoan(chain, c, leg, kind, j))
      && (forall j: nat :: FirstLoan(chain, c, leg, kind, j) ==> loan == Some(EventsOf(chain, c.key.tx)[j]))
  {
    var logs, lends := EventsOf(chain, c.key.tx), (e: ChainEvent) => LendsLeg(e, c, leg, kind);
    FoundInKept(OfProvider(c.provider, kind), FitsLoan(leg.asset, leg.borrowed, c.receiver, kind), lends, logs, |logs|);
    assert logs[..|logs|] == logs;
    var j := FirstMatch(lends, logs);
    hide LendsLeg;
    if j < |logs| {
      assert lends(logs[j]) && logs[j] in logs;
      assert forall i :: 0 <= i < j ==> !lends(logs[i]);
      assert FirstLoan(chain, c, leg, kind, j);
    }
    forall k: nat | FirstLoan(chain, c, leg, kind, k) ensures k == j {
      assert lends(logs[k]);
    }
  }

  lemma {:induction false} ProviderLogs(chain: Chain, c: Candidate, kind: Kind)
    ensures ProviderEvents(chain, c, kind) != [] <==> HasProviderLog(chain, c, kind)
  {
    var kept := ProviderEvents(chain, c, kind);
    if kept != [] {
      assert kept[0] in kept;
    }
  }

  ghost predicate AllLegsLent(chain: Chain, c: Candidate, legs: seq<Leg>, kind: Kind) {
    forall i :: 0 <= i < |legs| ==> HasLoan(chain, c, legs[i], kind)
  }

  /** Some leg's loan was taken as debt, with an interest rate mode. */
  ghost predicate SomeDebt(chain: Chain, c: Candidate, legs: seq<Leg>) {
    exists i: nat, j: nat :: i < |legs| && FirstLoan(chain, c, legs[i], Aave, j) && EventsOf(chain, c.key.tx)[j].AaveFlashLoan?
                   && EventsOf(chain, c.key.tx)[j].mode != 0
  }

  /** The verdict on a candidate that is not verified: nothing is claimed but the reason. */
  ghost predicate Refused(v: Verdict, reason: string) {
    !v.verified && !v.strict && !v.callbackSeen && !v.settlementSeen && !v.repaymentSeen && !v.debtOpening && v.exclusion == Some(reason)
  }

  ghost predicate Granted(v: Verdict, debt: bool) {
    v.verified && v.callbackSeen && v.settlementSeen && v.debtOpening == debt && v.strict == v.repaymentSeen == !debt && v.exclusion.None?
  }

  /** What a loan leg becomes, given its log. */
  ghost predicate AaveSettled(before: Leg, after: Leg, log: ChainEvent) {
    && log.AaveFlashLoan?
    && after.key == before.key && after.index == before.index && after.asset == before.asset && after.borrowed == before.borrowed
    && after.side == before.side && after.amountIn == before.amountIn && after.fee == before.fee
    && after.premium == (if log.premium.Some? then log.premium else before.premium) && after.rateMode == Some(log.mode)
    && (log.mode != 0 ==> after.openedDebt && !after.strict && after.eventSeen == before.eventSeen && after.settlement == Some("debt_opening"))
    && (log.mode == 0 ==> after.openedDebt == before.openedDebt && after.strict && after.eventSeen && after.settlement == Some("full_repayment"))
  }

  /** The Aave verdict: verified exactly when the transaction succeeded, the pool logged a flash loan and
      every leg is lent by a log; strict exactly when, besides, no leg's loan was taken as debt. The
      reason of an exclusion is the first of these that fails, and each leg is settled by its first log. */
  lemma {:induction false} AaveVerdict(chain: Chain, c: Candidate, legs: seq<Leg>)
    ensures
      var out := AaveOutcome(chain, c, legs);
      var success, logged, lent := TxSucceeded(chain, c.key.tx), HasProviderLog(chain, c, Aave), AllLegsLent(chain, c, legs, Aave);
      && out.Judged?
      && (out.verdict.verified <==> success && logged && lent)
      && (!success ==> Refused(out.verdict, "transaction_not_successful") && out.legs.None?)
      && (success && !logged ==> Refused(out.verdict, "missing_flashloan_event") && out.legs == Some(legs))
      && (success && logged && !lent ==> Refused(out.verdict, "flashloan_event_mismatch") && out.legs == Some(legs))
      && (out.verdict.verified ==>
            && Granted(out.verdict, SomeDebt(chain, c, legs))
            && out.legs.Some? && |out.legs.value| == |legs|
            && forall i: nat, j: nat :: i < |legs| && FirstLoan(chain, c, legs[i], Aave, j) ==> AaveSettled(legs[i], out.legs.value[i], EventsOf(chain, c.key.tx)[j]))
  {
    hide LoanFor, ProviderEvents, LendsLeg, FirstLoan, HasLoan, HasProviderLog;
    var events, logs := ProviderEvents(chain, c, Aave), EventsOf(chain, c.key.tx);
    ProviderLogs(chain, c, Aave);
    forall i | 0 <= i < |legs|
      ensures LoanFor(c, legs[i], events, Aave).Some? <==> HasLoan(chain, c, legs[i], Aave)
      ensures LoanFor(c, legs[i], events, Aave).Some? ==>
                LoanFor(c, legs[i], events, Aave).value.AaveFlashLoan? && exists j: nat :: FirstLoan(chain, c, legs[i], Aave, j)
      ensures forall j: nat :: FirstLoan(chain, c, legs[i], Aave, j) ==> j < |logs| && LoanFor(c, legs[i], events, Aave) == Some(logs[j])
    {
      LoanIsFirstLog(chain, c, legs[i], Aave);
      LoanFits(c, legs[i], events, Aave);
      FirstLoanListed(chain, c, legs[i], Aave);
    }
    if AaveOutcome(chain, c, legs).verdict.verified {
      DebtIsSeen(chain, c, legs);
    }
  }

  lemma {:induction false} FirstLoanListed(chain: Chain, c: Candidate, leg: Leg, kind: Kind)
    ensures forall j: nat :: FirstLoan(chain, c, leg, kind, j) ==> j < |EventsOf(chain, c.key.tx)|
  {
  }

  lemma {:induction false} DebtIsSeen(chain: Chain, c: Candidate, legs: seq<Leg>)
    ensures AnyDebt(c, legs, ProviderEvents(chain, c, Aave)) <==> SomeDebt(chain, c, legs)
  {
    hide LoanFor, ProviderEvents, LendsLeg, FirstLoan, HasLoan;
    var events := ProviderEvents(chain, c, Aave);
    forall i | 0 <= i < |legs|
      ensures OpensDebt(c, legs[i], events) ==> exists j: nat :: FirstLoan(chain, c, legs[i], Aave, j)
      ensures forall j: nat :: FirstLoan(chain, c, legs[i], Aave, j) ==>
                j < |EventsOf(chain, c.key.tx)| && LoanFor(c, legs[i], events, Aave) == Some(EventsOf(chain, c.key.tx)[j])
    {
      LoanIsFirstLog(chain, c, legs[i], Aave);
      FirstLoanListed(chain, c, legs[i], Aave);
    }
  }

  ghost predicate BalancerSettled(before: Leg, after: Leg, log: ChainEvent) {
    && log.BalancerFlashLoan?
    && after.key == before.key && after.index == before.index && after.asset == before.asset && after.borrowed == before.borrowed
    && after.side == before.side && after.amountIn == before.amountIn && after.premium == before.premium
    && after.rateMode == before.rateMode && after.openedDebt == before.openedDebt
    && after.fee == (if log.fee.Some? then log.fee else before.fee)
    && after.strict && after.eventSeen && after.settlement == Some("full_repayment")
  }

  /** The Balancer verdict: verified and strict exactly when the transaction succeeded, the vault logged a
      flash loan and every leg is lent by a log; each leg then has the fee of its first log. */
  lemma {:induction false} BalancerVerdict(chain: Chain, c: Candidate, legs: seq<Leg>)
    ensures
      var out := BalancerOutcome(chain, c, legs);
      var success, logged, lent := TxSucceeded(chain, c.key.tx), HasProviderLog(chain, c, Balancer), AllLegsLent(chain, c, legs, Balancer);
      && out.Judged?
      && (out.verdict.verified <==> success && logged && lent)
      && (!success ==> Refused(out.verdict, "transaction_not_successful") && out.legs.None?)
      && (success && !logged ==> Refused(out.verdict, "missing_flashloan_event") && out.legs == Some(legs))
      && (success && logged && !lent ==> Refused(out.verdict, "flashloan_event_mismatch") && out.legs == Some(legs))
      && (out.verdict.verified ==>
            && Granted(out.verdict, false) && out.legs.Some? && |out.legs.value| == |legs|
            && forall i: nat, j: nat :: i < |legs| && FirstLoan(chain, c, legs[i], Balancer, j) ==>
                 BalancerSettled(legs[i], out.legs.value[i], EventsOf(chain, c.key.tx)[j]))
  {
    hide LoanFor, ProviderEvents, LendsLeg, FirstLoan, HasLoan, HasProviderLog;
    var events, logs := ProviderEvents(chain, c, Balancer), EventsOf(chain, c.key.tx);
    ProviderLogs(chain, c, Balancer);
    forall i | 0 <= i < |legs|
      ensures LoanFor(c, legs[i], events, Balancer).Some? <==> HasLoan(chain, c, legs[i], Balancer)
      ensures LoanFor(c, legs[i], events, Balancer).Some? ==> LoanFor(c, legs[i], events, Balancer).value.BalancerFlashLoan?
      ensures forall j: nat :: FirstLoan(chain, c, legs[i], Balancer, j) ==> j < |logs| && LoanFor(c, legs[i], events, Balancer) == Some(logs[j])
    {
      LoanIsFirstLog(chain, c, legs[i], Balancer);
      LoanFits(c, legs[i], events, Balancer);
      FirstLoanListed(chain, c, legs[i], Balancer);
    }
  }

  // ---- swaps ----

  /** Leg i is the last of its side and asks for the amount. */
  ghost predicate AsksAt(legs: seq<Leg>, side: string, amount: nat, i: nat) {
    i < |legs| && legs[i].side == Some(side) && legs[i].borrowed == Some(amount) && forall j :: i < j < |legs| ==> legs[j].side != Some(side)
  }

  /** The last leg of a token side asks for this amount. */
  ghost predicate Asks(legs: seq<Leg>, side: string, amount: nat) {
    exists i :: 0 <= i < |legs| && AsksAt(legs, side, amount, i)
  }

  /** The log is a swap of the candidate's pair to its receiver that pays out what the legs ask for. */
  ghost predicate PaysOut(e: ChainEvent, c: Candidate, legs: seq<Leg>) {
    && e.UniswapSwap? && e.contract == c.provider && e.receiver == c.receiver
    && (forall amount: nat :: Asks(legs, "token0", amount) ==> e.out0 == Some(amount))
    && (forall amount: nat :: Asks(legs, "token1", amount) ==> e.out1 == Some(amount))
    && exists amount: nat :: Asks(legs, "token0", amount) || Asks(legs, "token1", amount)
  }

  lemma {:induction false} WantedIsAsked(legs: seq<Leg>, side: string, k: nat)
    requires k <= |legs|
    ensures forall amount: nat :: Asks(legs[..k], side, amount) <==> Wanted(legs, side, k) == Some(amount)
  {
    if k > 0 {
      var some, last := legs[..k - 1], legs[k - 1];
      assert legs[..k] == some + [last];
      WantedIsAsked(legs, side, k - 1);
      forall amount: nat ensures Asks(legs[..k], side, amount) <==> Wanted(legs, side, k) == Some(amount) {
        AsksOneMore(some, last, side, amount);
      }
    }
  }

  lemma {:induction false} AsksOneMore(some: seq<Leg>, last: Leg, side: string, amount: nat)
    ensures Asks(some + [last], side, amount) <==> if last.side == Some(side) then last.borrowed == Some(amount) else Asks(some, side, amount)
  {
    var all := some + [last];
    assert all[|some|] == last;
    if Asks(all, side, amount) {
      var i :| 0 <= i < |all| && AsksAt(all, side, amount, i);
      if i < |some| {
        assert last.side != Some(side);
        assert all[i] == some[i];
        forall j | i < j < |some| ensures some[j].side != Some(side) {
          assert all[j] == some[j];
        }
        assert AsksAt(some, side, amount, i);
      }
    }
    if last.side == Some(side) && last.borrowed == Some(amount) {
      assert AsksAt(all, side, amount, |some|);
    }
    if last.side != Some(side) && Asks(some, side, amount) {
      var i :| 0 <= i < |some| && AsksAt(some, side, amount, i);
      assert all[i] == some[i];
      assert AsksAt(all, side, amount, i);
    }
  }

  lemma {:induction false} SwapFitsExactly(e: ChainEvent, c: Candidate, legs: seq<Leg>)
    ensures PaysOut(e, c, legs) <==> OfProvider(c.provider, Uniswap)(e) && FitsSwap(legs, c.receiver)(e)
  {
    WantedIsAsked(legs, "token0", |legs|);
    WantedIsAsked(legs, "token1", |legs|);
    assert legs[..|legs|] == legs;
    hide Asks;
    var want0, want1 := Wanted(legs, "token0", |legs|), Wanted(legs, "token1", |legs|);
    assert want0.Some? ==> Asks(legs, "token0", want0.value);
    assert want1.Some? ==> Asks(legs, "token1", want1.value);
  }

  ghost predicate FirstPayout(chain: Chain, c: Candidate, legs: seq<Leg>, j: nat) {
    var logs := EventsOf(chain, c.key.tx);
    j < |logs| && PaysOut(logs[j], c, legs) && forall i :: 0 <= i < j ==> !PaysOut(logs[i], c, legs)
  }

  lemma {:induction false} SwapIsFirstLog(chain: Chain, c: Candidate, legs: seq<Leg>)
    ensures
      var swap := Found(FitsSwap(legs, c.receiver), ProviderEvents(chain, c, Uniswap));
      && (swap.Some? <==> exists e :: e in EventsOf(chain, c.key.tx) && PaysOut(e, c, legs))
      && (swap.Some? ==> swap.value.UniswapSwap?)
      && (forall j: nat :: FirstPayout(chain, c, legs, j) ==> j < |EventsOf(chain, c.key.tx)| && swap == Some(EventsOf(chain, c.key.tx)[j]))
  {
    hide FitsSwap, PaysOut;
    var logs := EventsOf(chain, c.key.tx);
    var pays := (e: ChainEvent) => OfProvider(c.provider, Uniswap)(e) && FitsSwap(legs, c.receiver)(e);
    forall e ensures PaysOut(e, c, legs) <==> pays(e) {
      SwapFitsExactly(e, c, legs);
    }
    FoundInKept(OfProvider(c.provider, Uniswap), FitsSwap(legs, c.receiver), pays, logs, |logs|);
    assert logs[..|logs|] == logs;
    var j := FirstMatch(pays, logs);
    if j < |logs| {
      assert pays(logs[j]) && logs[j] in logs;
      IsSwap(logs[j], c, legs);
    }
    forall k: nat | FirstPayout(chain, c, legs, k) ensures k == j {
      assert pays(logs[k]);
    }
  }

  lemma {:induction false} IsSwap(e: ChainEvent, c: Candidate, legs: seq<Leg>)
    requires PaysOut(e, c, legs)
    ensures e.UniswapSwap?
  {
  }

  ghost predicate SwapSettled(before: Leg, after: Leg, log: ChainEvent) {
    && log.UniswapSwap?
    && after.key == before.key && after.index == before.index && after.asset == before.asset && after.borrowed == before.borrowed
    && after.side == before.side && after.premium == before.premium && after.fee == before.fee
    && after.rateMode == before.rateMode && after.openedDebt == before.openedDebt
    && after.strict && after.eventSeen && after.settlement == Some("invariant_restored")
    && after.amountIn == (if before.side == Some("token0") && log.in0.Some? && log.in0.value > 0 then log.in0
                          else if before.side == Some("token1") && log.in1.Some? && log.in1.value > 0 then log.in1
                          else before.amountIn)
  }

  /** The Uniswap verdict: verified and strict exactly when the transaction succeeded, the swap was called
      with data, and some swap of the pair to the receiver paid out what the legs ask for; each leg then
      has what the first such swap took in on its side. */
  lemma {:induction false} UniswapVerdict(chain: Chain, c: Candidate, legs: seq<Leg>)
    ensures
      var out := UniswapOutcome(chain, c, legs);
      var success, called, logged := TxSucceeded(chain, c.key.tx), c.dataNonEmpty == Some(true), HasProviderLog(chain, c, Uniswap);
      var paid := exists e :: e in EventsOf(chain, c.key.tx) && PaysOut(e, c, legs);
      && out.Judged?
      && (out.verdict.verified <==> success && called && paid)
      && (!success ==> Refused(out.verdict, "transaction_not_successful") && out.legs.None?)
      && (success && !called ==> Refused(out.verdict, "empty_swap_data") && out.legs.None?)
      && (success && called && !logged ==> Refused(out.verdict, "missing_swap_event") && out.legs == Some(legs))
      && (success && called && logged && !paid ==> Refused(out.verdict, "swap_event_mismatch") && out.legs == Some(legs))
      && (out.verdict.verified ==>
            && Granted(out.verdict, false) && out.legs.Some? && |out.legs.value| == |legs|
            && forall i: nat, j: nat :: i < |legs| && FirstPayout(chain, c, legs, j) ==> SwapSettled(legs[i], out.legs.value[i], EventsOf(chain, c.key.tx)[j]))
  {
    hide FitsSwap, ProviderEvents, Found, FirstPayout;
    ProviderLogs(chain, c, Uniswap);
    SwapIsFirstLog(chain, c, legs);
    if HasProviderLog(chain, c, Uniswap) {
    } else {
      forall e | e in EventsOf(chain, c.key.tx) ensures !PaysOut(e, c, legs) {
      }
    }
  }

  // ---- with a trace ----

  /** A frame in which the provider calls the receiver and the call succeeds. */
  predicate CallsBack(f: CallFrame, c: Candidate) {
    f.error == "" && Lower(f.from) == Lower(c.provider) && Lower(f.to) == Lower(c.receiver)
  }

  /** Some frame of the trace other than its root calls back. */
  ghost predicate CalledBack(root: CallFrame, c: Candidate) {
    exists i :: 0 < i < |FlattenTrace(root)| && CallsBack(FlattenTrace(root)[i].frame, c)
  }

  ghost predicate IsAsset(legs: seq<Leg>, address: string) {
    exists leg :: leg in legs && leg.asset != "" && Lower(leg.asset) == address
  }

  /** A successful call from or to an asset of the legs that moves tokens, or has the provider at one end. */
  ghost predicate PaysBack(f: CallFrame, c: Candidate, legs: seq<Leg>) {
    var from, to, selector := Lower(f.from), Lower(f.to), TokenCalls.MethodSelector(f.input);
    && f.error == "" && (IsAsset(legs, from) || IsAsset(legs, to))
    && (selector == "0x095ea7b3" || selector == "0xa9059cbb" || selector == "0x23b872dd" || from == Lower(c.provider) || to == Lower(c.provider))
  }

  ghost predicate PaidBack(root: CallFrame, c: Candidate, legs: seq<Leg>) {
    exists i :: 0 <= i < |FlattenTrace(root)| && PaysBack(FlattenTrace(root)[i].frame, c, legs)
  }

  lemma {:induction false} AssetsAre(legs: seq<Leg>, k: nat, address: string)
    requires k <= |legs|
    ensures address in AssetsOf(legs, k) <==> IsAsset(legs[..k], address)
  {
    if k > 0 {
      AssetsAre(legs, k - 1, address);
      assert legs[..k] == legs[..k - 1] + [legs[k - 1]];
    }
  }

  lemma {:induction false} CallbackIsListed(root: CallFrame, c: Candidate)
    ensures HasCallback(root, c) <==> CalledBack(root, c)
  {
    TraceSearch.DirectCallIsLaterCallback(root, Lower(c.provider), Lower(c.receiver));
    TraceLength(root);
    hide FlattenTrace;
  }

  lemma {:induction false} RepaymentIsListed(root: CallFrame, c: Candidate, legs: seq<Leg>)
    ensures HasRepaymentPath(root, c.provider, legs) <==> PaidBack(root, c, legs)
  {
    var assets := AssetsOf(legs, |legs|);
    TraceSearch.RepaymentCallIsListed(root, Lower(c.provider), assets);
    TraceLength(root);
    assert legs[..|legs|] == legs;
    forall address ensures address in assets <==> IsAsset(legs, address) {
      AssetsAre(legs, |legs|, address);
    }
    hide FlattenTrace, IsAsset, AssetsOf;
    forall i | 0 <= i < |FlattenTrace(root)|
      ensures TraceSearch.IsRepaymentCall(FlattenTrace(root)[i].frame, Lower(c.provider), assets) <==> PaysBack(FlattenTrace(root)[i].frame, c, legs)
    {
    }
    if PaidBack(root, c, legs) {
      var i :| 0 <= i < |FlattenTrace(root)| && PaysBack(FlattenTrace(root)[i].frame, c, legs);
      assert IsAsset(legs, Lower(FlattenTrace(root)[i].frame.from)) || IsAsset(legs, Lower(FlattenTrace(root)[i].frame.to));
    }
  }

  /** The trace's verdict on a verified base: a candidate whose leg opened debt stays verified but is not
      strict; without a callback below the root it is not verified; without a repayment call it is not
      strict; and otherwise it is both. The flags say what the trace shows. */
  ghost predicate TraceSays(v: Verdict, base: Verdict, callback: bool, repayment: bool) {
    && v.debtOpening == base.debtOpening
    && v.callbackSeen == callback && v.settlementSeen == callback && v.repaymentSeen == (repayment && !base.debtOpening)
    && (v.verified <==> base.debtOpening || callback)
    && (v.strict <==> !base.debtOpening && callback && repayment)
    && v.exclusion == if !base.debtOpening && !callback then Some("missing_trace_callback") else None
  }

  /** What a trace adds to a leg: it is seen; unless it opened debt it is strict, and settled if it was not. */
  lemma {:induction false} LegIsAnnotated(kind: Kind, legs: seq<Leg>, i: nat)
    requires i < |legs|
    ensures
      var before, after := legs[i], AnnotateLegs(kind, legs)[i];
      var debt := kind == Aave && before.openedDebt;
      && |AnnotateLegs(kind, legs)| == |legs|
      && after.eventSeen && (after.strict <==> before.strict || !debt)
      && (debt || before.settlement.Some? ==> after.settlement == before.settlement)
      && (!debt && before.settlement.None? ==>
            after.settlement == match kind case Aave => Some("full_repayment") case Balancer => Some("full_repayment") case Uniswap => Some("invariant_restored"))
      && after == before.(eventSeen := after.eventSeen, strict := after.strict, settlement := after.settlement)
  {
  }

  /** With a trace, of every candidate: what the base did not verify stays as it is, and what it did is
      judged by the frames of the trace. In particular it is verified exactly when the base verified it
      and a leg opened debt or some frame below the root is a successful call from provider to receiver. */
  lemma {:induction false} TracedVerdict(kind: Kind, chain: Chain, c: Candidate, legs: seq<Leg>)
    requires AnswerFor(chain, c.key.tx).Traced?
    ensures
      var base, out, root := BaseOutcome(kind, chain, c, legs), TraceOutcome(kind, chain, c, legs), AnswerFor(chain, c.key.tx).root;
      && base.Judged? && out.Judged?
      && (!base.verdict.verified ==> out == base)
      && (base.verdict.verified ==>
            base.legs.Some? && TraceSays(out.verdict, base.verdict, CalledBack(root, c), PaidBack(root, c, base.legs.value)))
      && (out.verdict.verified <==> base.verdict.verified && (base.verdict.debtOpening || CalledBack(root, c)))
  {
    hide BaseOutcome, AnswerFor, HasCallback, HasRepaymentPath, CalledBack, PaidBack, AnnotateLegs;
    var base, root := BaseOutcome(kind, chain, c, legs), AnswerFor(chain, c.key.tx).root;
    BaseVerdicts(kind, chain, c, legs);
    CallbackIsListed(root, c);
    if base.legs.Some? {
      RepaymentIsListed(root, c, base.legs.value);
    }
  }

  /** A message that says so anywhere, in whatever case around it, says that tracing is unavailable. */
  lemma {:induction false} UnavailableMessages(before: string, part: string, after: string)
    requires part == "historical state is not available" || part == "debug_tracetransaction" || part == "method not found" || part == "unsupported"
    ensures IsTraceUnavailable(before + part + after)
  {
    assert Lower(part) == part by { PartsAreLower(); }
    LowerJoins(before + part, after);
    LowerJoins(before, part);
    ContainsInside(Lower(before), part, Lower(after));
    hide Lower, Contains;
  }

  lemma {:induction false} PartsAreLower()
    ensures Lower("historical state is not available") == "historical state is not available"
    ensures Lower("debug_tracetransaction") == "debug_tracetransaction"
    ensures Lower("method not found") == "method not found" && Lower("unsupported") == "unsupported"
  {
    LowerStays("historical state is not available");
    LowerStays("debug_tracetransaction");
    LowerStays("method not found");
    LowerStays("unsupported");
    hide Lower;
  }

  lemma {:induction false} LowerStays(s: string)
    requires forall i :: 0 <= i < |s| ==> LowerChar(s[i]) == s[i]
    ensures Lower(s) == s
  {
  }

  /** Without a trace: if there is none nothing is verified, for a stated reason; if the provider failed,
      a verified base stands exactly when the failure says that tracing is unavailable, and is an error
      otherwise. What the base did not verify stays as it is in any case. */
  lemma {:induction false} UntracedVerdict(kind: Kind, chain: Chain, c: Candidate, legs: seq<Leg>)
    requires !AnswerFor(chain, c.key.tx).Traced?
    ensures
      var base, out, answer := BaseOutcome(kind, chain, c, legs), TraceOutcome(kind, chain, c, legs), AnswerFor(chain, c.key.tx);
      && base.Judged?
      && (!base.verdict.verified ==> out == base)
      && (base.verdict.verified && answer.NoTrace? ==>
            && out.Judged? && out.legs == base.legs && out.verdict.exclusion == Some("missing_trace")
            && !out.verdict.verified && !out.verdict.strict && !out.verdict.callbackSeen && !out.verdict.repaymentSeen
            && out.verdict.settlementSeen && out.verdict.debtOpening == base.verdict.debtOpening)
      && (base.verdict.verified && answer.TraceError? ==> out == if IsTraceUnavailable(answer.message) then base else VerifyError)
      && (answer.NoTrace? ==> out.Judged? && !out.verdict.verified)
  {
    hide BaseOutcome, AnswerFor, IsTraceUnavailable;
    BaseVerdicts(kind, chain, c, legs);
  }
}
