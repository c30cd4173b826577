/** Which flows a lane takes for borrow, repayment and top-ups, said of the flows of the trace: the best
    of those that qualify, by what is known of the loan and then by execution order. */
module FlowChoice {
  import opened Text
  import opened FlowOrder
  import opened FlowSelection
  import opened FundFlowLane
  import ExecutionWalk
  import Sorting

  // ---- the borrow ----

  /** A flow of the borrowed asset into the receiver. */
  predicate MayBorrow(x: Input, f: Flow) {
    SameAddress(f.target, x.receiver) && SameAddress(f.asset, NormalizeAddress(x.leg.asset))
  }

  /** Of the borrowed amount: from the provider best, then not from the sender, then any. Of another amount:
      not from the sender, then any. */
  function BorrowRank(x: Input, f: Flow): nat {
    var exact := NormalizeAmount(f.amount) == NormalizeAmount(x.leg.borrowed);
    if exact && SameAddress(f.source, x.interaction.provider) then 0
    else if exact && !SameAddress(f.source, x.sender) then 1
    else if exact then 2
    else if !SameAddress(f.source, x.sender) then 3
    else 4
  }

  /** The flow drawn as the borrow is one of the best rank, the earliest of those; there is none exactly
      when no flow qualifies. */
  lemma {:induction false} BorrowIsBest(x: Input, f: Flow)
    ensures BorrowFlow(x).Some? ==> BorrowFlow(x).value in x.flows && MayBorrow(x, BorrowFlow(x).value)
    ensures
      f in x.flows && MayBorrow(x, f) ==>
        && BorrowFlow(x).Some?
        && var b := BorrowFlow(x).value;
           BorrowRank(x, b) < BorrowRank(x, f) || (BorrowRank(x, b) == BorrowRank(x, f) && b.order <= f.order)
  {
    hide SameAddress, NormalizeAmount, NormalizeAddress, Preferred, Filter;
    var tiers, candidates := BorrowTiers(x), Filter(IntoReceiver(x), x.flows);
    var t, i := PreferredExact(tiers);
    if BorrowFlow(x).Some? {
      BorrowTier(x, BorrowFlow(x).value);
      assert tiers[t][i] in tiers[t];
    }
    BorrowTier(x, f);
    if f in x.flows && MayBorrow(x, f) {
      assert f in tiers[BorrowRank(x, f)];
      if BorrowFlow(x).Some? {
        var b := tiers[t][i];
        assert t <= BorrowRank(x, f);
        assert BorrowRank(x, b) <= t;
        if BorrowRank(x, b) == BorrowRank(x, f) {
          var j :| 0 <= j < |tiers[t]| && tiers[t][j] == f;
        }
      }
    }
  }

  /** Which tiers a flow is in: those from its rank on that it qualifies for. */
  lemma {:induction false} BorrowTier(x: Input, f: Flow)
    ensures |BorrowTiers(x)| == 5
    ensures f in x.flows && MayBorrow(x, f) ==> f in BorrowTiers(x)[BorrowRank(x, f)]
    ensures forall t :: 0 <= t < 5 && f in BorrowTiers(x)[t] ==> f in x.flows && MayBorrow(x, f) && BorrowRank(x, f) <= t
  {
    hide SameAddress, NormalizeAmount, NormalizeAddress, Filter;
    var amount, candidates := NormalizeAmount(x.leg.borrowed), Filter(IntoReceiver(x), x.flows);
    FilterIn(IntoReceiver(x), x.flows, f);
    FilterIn(FromAddress(x.interaction.provider, amount), candidates, f);
    FilterIn(NotFromWithAmount(x.sender, amount), candidates, f);
    FilterIn(OfAmount(amount), candidates, f);
    FilterIn(NotFromAddress(x.sender), candidates, f);
  }

  // ---- the repayment ----

  /** A flow of the borrowed asset out of the receiver. */
  predicate MayRepay(x: Input, f: Flow) {
    SameAddress(f.source, x.receiver) && SameAddress(f.asset, NormalizeAddress(x.leg.asset))
  }

  /** Of the expected amount: to the repayment address best, then to the provider, then to any. Of another
      amount: to the provider, then to any. */
  function RepayRank(x: Input, f: Flow): nat {
    var exact := NormalizeAmount(f.amount) == ExpectedRepayment(x);
    if exact && SameAddress(f.target, x.leg.repaidTo) then 0
    else if exact && SameAddress(f.target, x.interaction.provider) then 1
    else if exact then 2
    else if SameAddress(f.target, x.interaction.provider) then 3
    else 4
  }

  /** The same for the flow drawn as the repayment. */
  lemma {:induction false} RepayIsBest(x: Input, f: Flow)
    ensures RepayFlow(x).Some? ==> RepayFlow(x).value in x.flows && MayRepay(x, RepayFlow(x).value)
    ensures
      f in x.flows && MayRepay(x, f) ==>
        && RepayFlow(x).Some?
        && var r := RepayFlow(x).value;
           RepayRank(x, r) < RepayRank(x, f) || (RepayRank(x, r) == RepayRank(x, f) && r.order <= f.order)
  {
    hide SameAddress, NormalizeAmount, NormalizeAddress, Preferred, Filter, ExpectedRepayment;
    var tiers, candidates := RepayTiers(x), Filter(OutOfReceiver(x), x.flows);
    var t, i := PreferredExact(tiers);
    if RepayFlow(x).Some? {
      RepayTier(x, RepayFlow(x).value);
      assert tiers[t][i] in tiers[t];
    }
    RepayTier(x, f);
    if f in x.flows && MayRepay(x, f) {
      assert f in tiers[RepayRank(x, f)];
      if RepayFlow(x).Some? {
        var r := tiers[t][i];
        assert t <= RepayRank(x, f);
        assert RepayRank(x, r) <= t;
        if RepayRank(x, r) == RepayRank(x, f) {
          var j :| 0 <= j < |tiers[t]| && tiers[t][j] == f;
        }
      }
    }
  }

  lemma {:induction false} RepayTier(x: Input, f: Flow)
    ensures |RepayTiers(x)| == 5
    ensures f in x.flows && MayRepay(x, f) ==> f in RepayTiers(x)[RepayRank(x, f)]
    ensures forall t :: 0 <= t < 5 && f in RepayTiers(x)[t] ==> f in x.flows && MayRepay(x, f) && RepayRank(x, f) <= t
  {
    hide SameAddress, NormalizeAmount, NormalizeAddress, Filter, ExpectedRepayment;
    var amount, candidates := ExpectedRepayment(x), Filter(OutOfReceiver(x), x.flows);
    FilterIn(OutOfReceiver(x), x.flows, f);
    FilterIn(ToWithAmount(x.leg.repaidTo, amount), candidates, f);
    FilterIn(ToWithAmount(x.interaction.provider, amount), candidates, f);
    FilterIn(OfAmount(amount), candidates, f);
    FilterIn(ToAddress(x.interaction.provider), candidates, f);
  }

  // ---- where borrow and repayment are drawn ----

  /** The borrow comes from the source of its flow if that has one, else from the first of provider, factory and
      pair that is known. */
  lemma {:induction false} BorrowSourceIs(x: Input)
    ensures
      var source := if BorrowFlow(x).Some? then BorrowFlow(x).value.source else "";
      BorrowSource(x) ==
        if Trim(source) != "" then source else if Trim(x.interaction.provider) != "" then x.interaction.provider
        else if Trim(x.interaction.factory) != "" then x.interaction.factory
        else if Trim(x.interaction.pair) != "" then x.interaction.pair else ""
  {
    hide BorrowFlow, Trim, FirstNonEmpty;
    var source := if BorrowFlow(x).Some? then BorrowFlow(x).value.source else "";
    var i := x.interaction;
    FirstOf(source, [i.provider, i.factory, i.pair]);
    FirstOf(i.provider, [i.factory, i.pair]);
    FirstOf(i.factory, [i.pair]);
    FirstOf(i.pair, []);
    assert [source, i.provider, i.factory, i.pair] == [source] + [i.provider, i.factory, i.pair];
    assert [i.provider, i.factory, i.pair] == [i.provider] + [i.factory, i.pair];
    assert [i.factory, i.pair] == [i.factory] + [i.pair] && [i.pair] == [i.pair] + [];
  }

  lemma {:induction false} FirstOf(v: string, rest: seq<string>)
    ensures FirstNonEmpty([v] + rest) == if Trim(v) != "" then v else FirstNonEmpty(rest)
    ensures FirstNonEmpty([]) == ""
  {
    hide Trim;
    assert ([v] + rest)[1..] == rest;
  }

  /** The repayment goes to the target of its flow if that has one, else to the first of repayment address,
      provider, pair and factory that is known. */
  lemma {:induction false} RepaymentTargetIs(x: Input)
    ensures
      var target := if RepayFlow(x).Some? then RepayFlow(x).value.target else "";
      RepaymentTarget(x) ==
        if Trim(target) != "" then target else if Trim(x.leg.repaidTo) != "" then x.leg.repaidTo
        else if Trim(x.interaction.provider) != "" then x.interaction.provider
        else if Trim(x.interaction.pair) != "" then x.interaction.pair
        else if Trim(x.interaction.factory) != "" then x.interaction.factory else ""
  {
    hide RepayFlow, Trim, FirstNonEmpty;
    var target := if RepayFlow(x).Some? then RepayFlow(x).value.target else "";
    var i := x.interaction;
    FirstOf(target, [x.leg.repaidTo, i.provider, i.pair, i.factory]);
    FirstOf(x.leg.repaidTo, [i.provider, i.pair, i.factory]);
    FirstOf(i.provider, [i.pair, i.factory]);
    FirstOf(i.pair, [i.factory]);
    FirstOf(i.factory, []);
    assert [target, x.leg.repaidTo, i.provider, i.pair, i.factory] == [target] + [x.leg.repaidTo, i.provider, i.pair, i.factory];
    assert [x.leg.repaidTo, i.provider, i.pair, i.factory] == [x.leg.repaidTo] + [i.provider, i.pair, i.factory];
    assert [i.provider, i.pair, i.factory] == [i.provider] + [i.pair, i.factory];
    assert [i.pair, i.factory] == [i.pair] + [i.factory] && [i.factory] == [i.factory] + [];
  }

  // ---- top-ups ----

  /** A flow that tops up the receiver: after the borrow, from elsewhere, of no debt token, in no execution
      branch, and tied to the loan by its sender, amount, asset or source. */
  ghost predicate MayTopUp(x: Input, f: Flow) {
    && (BorrowFlow(x).Some? ==> f.order > BorrowFlow(x).value.order)
    && SameAddress(f.target, x.receiver) && !SameAddress(f.source, x.receiver) && !IsDebtLikeAsset(f.asset)
    && (forall g :: g in ExecutionFlows(x) ==> g.frameID != f.frameID)
    && (|| SameAddress(f.source, x.sender) || NormalizeAmount(f.amount) == ExpectedRepayment(x)
        || SameAddress(f.asset, NormalizeAddress(x.leg.asset))
        || SameAddress(f.source, BorrowSource(x)) || SameAddress(f.source, RepaymentTarget(x)))
  }

  /** From the sender first, then of exactly the expected amount. */
  function TopUpClass(x: Input, f: Flow): nat {
    (if SameAddress(f.source, x.sender) then 0 else 2) + (if NormalizeAmount(f.amount) == ExpectedRepayment(x) then 0 else 1)
  }

  /** f is of a better class than g, or of the same and earlier. */
  predicate TopUpBefore(x: Input, f: Flow, g: Flow) {
    TopUpClass(x, f) < TopUpClass(x, g) || (TopUpClass(x, f) == TopUpClass(x, g) && f.order < g.order)
  }

  predicate SameTopUp(f: Flow, g: Flow) {
    NormalizeAddress(f.source) == NormalizeAddress(g.source) && NormalizeAddress(f.asset) == NormalizeAddress(g.asset)
    && NormalizeAmount(f.amount) == NormalizeAmount(g.amount)
  }

  lemma {:induction false} RankIsClass(x: Input, f: Flow, g: Flow)
    ensures ByTopUpRank(x.sender, ExpectedRepayment(x))(f, g) <==> TopUpBefore(x, f, g)
  {
    hide SameAddress, NormalizeAmount, ExpectedRepayment;
  }

  lemma {:induction false} SameTopUpSameKey(f: Flow, g: Flow)
    requires SameTopUp(f, g)
    ensures TopUpKey(f) == TopUpKey(g)
  {
    hide NormalizeAddress, NormalizeAmount;
  }

  lemma {:induction false} FirstBarSplits(a: string, b: string, c: string, d: string)
    requires '|' !in a && '|' !in c && a + "|" + b == c + "|" + d
    ensures a == c && b == d
  {
    var s := a + "|" + b;
    assert s[|a|] == s[|c|] == '|';
    assert forall i :: 0 <= i < |a| ==> s[i] == a[i] && a[i] in a;
    assert forall i :: 0 <= i < |c| ==> s[i] == c[i] && c[i] in c;
    assert |a| == |c|;
    assert s[..|a|] == a && s[..|c|] == c && s[|a| + 1..] == b && s[|c| + 1..] == d;
  }

  /** Top-ups share a key exactly when source, asset and amount are the same. */
  lemma {:induction false} SameKeyExactly(f: Flow, g: Flow)
    requires forall h :: h in [f, g] ==> '|' !in NormalizeAddress(h.source) && '|' !in NormalizeAddress(h.asset)
    ensures TopUpKey(f) == TopUpKey(g) <==> SameTopUp(f, g)
  {
    hide NormalizeAddress, NormalizeAmount;
    assert f in [f, g] && g in [f, g];
    var a, b, c := NormalizeAddress(f.source), NormalizeAddress(f.asset), NormalizeAmount(f.amount);
    var x, y, z := NormalizeAddress(g.source), NormalizeAddress(g.asset), NormalizeAmount(g.amount);
    if TopUpKey(f) == TopUpKey(g) {
      assert TopUpKey(f) == a + "|" + (b + "|" + c) && TopUpKey(g) == x + "|" + (y + "|" + z);
      FirstBarSplits(a, b + "|" + c, x, y + "|" + z);
      FirstBarSplits(b, c, y, z);
    }
  }

  lemma {:induction false} CandidateExactly(x: Input, f: Flow)
    ensures TopUpCandidate(x)(f) <==> MayTopUp(x, f)
  {
    hide ExecutionFlows, BorrowFlow, BorrowSource, RepaymentTarget, SameAddress, NormalizeAddress, NormalizeAmount, ExpectedRepayment, IsDebtLikeAsset;
    if forall g :: g in ExecutionFlows(x) ==> g.frameID != f.frameID {
      assert f.frameID !in FrameIDs(ExecutionFlows(x));
    }
  }

  /** The top-ups drawn: at most three of the flows that may top up, no two of one source, asset and amount, in
      order of class and then execution; and each such flow left out shares its key with one taken that it
      does not precede, or three were taken that it precedes none of. */
  lemma {:induction false} TopUpsExactly(x: Input, f: Flow)
    ensures
      var out := TopUpFlows(x);
      && |out| <= 3
      && (f in out ==> f in x.flows && MayTopUp(x, f))
      && (forall i, j :: 0 <= i < j < |out| ==> !TopUpBefore(x, out[j], out[i]) && !SameTopUp(out[i], out[j]))
      && (f in x.flows && MayTopUp(x, f) ==>
            || f in out
            || (exists p :: p in out && TopUpKey(p) == TopUpKey(f) && !TopUpBefore(x, f, p))
            || (|out| == 3 && forall p :: p in out ==> !TopUpBefore(x, f, p)))
  {
    hide TopUpCandidate, MayTopUp, KeyTopUps, ByTopUpRank, TopUpBefore, TopUpKey, SameTopUp, ExpectedRepayment;
    var candidates, out := Filter(TopUpCandidate(x), x.flows), TopUpFlows(x);
    var less := ByTopUpRank(x.sender, ExpectedRepayment(x));
    TopUpsOptimal(candidates, x.sender, ExpectedRepayment(x));
    FilterIn(TopUpCandidate(x), x.flows, f);
    CandidateExactly(x, f);
    forall g, h ensures less(g, h) <==> TopUpBefore(x, g, h) {
      RankIsClass(x, g, h);
    }
    forall i, j | 0 <= i < j < |out| ensures !TopUpBefore(x, out[j], out[i]) && !SameTopUp(out[i], out[j]) {
      assert !less(out[j], out[i]);
      if SameTopUp(out[i], out[j]) {
        SameTopUpSameKey(out[i], out[j]);
      }
    }
    if f in x.flows && MayTopUp(x, f) {
      assert Accounted(less, out, f);
    }
  }

  // ---- debt tokens ----

  const DEBT_TOKEN := "0x7effd7b47bfd17e52fb7559d3f924201b9dbff3d"

  lemma {:induction false} LowerHas(s: string, c: char)
    requires c in Lower(s)
    ensures exists d :: d in s && LowerChar(d) == c
  {
    var i :| 0 <= i < |s| && Lower(s)[i] == c;
    assert s[i] in s;
  }

  /** A label without the letter d, or without the letter t, is no debt label. */
  lemma {:induction false} NoDebt(text: string)
    requires (forall c :: c in text ==> LowerChar(c) != 'd') || (forall c :: c in text ==> LowerChar(c) != 't')
    ensures !Contains(Lower(text), "debt") && !Contains(Lower(text), "vardebt")
  {
    hide Lower, LowerChar, Contains;
    assert "debt"[0] == 'd' && "debt"[3] == 't' && "vardebt"[3] == 'd' && "vardebt"[6] == 't';
    if Contains(Lower(text), "debt") {
      ContainsChar(Lower(text), "debt", 'd');
      ContainsChar(Lower(text), "debt", 't');
      LowerHas(text, 'd');
      LowerHas(text, 't');
    }
    if Contains(Lower(text), "vardebt") {
      ContainsChar(Lower(text), "vardebt", 'd');
      ContainsChar(Lower(text), "vardebt", 't');
      LowerHas(text, 'd');
      LowerHas(text, 't');
    }
  }

  /** An address as the chain writes it: hexadecimal digits after 0x. */
  predicate IsHexAddress(a: string) {
    a != "" && forall c :: c in a ==> c == 'x' || c == 'X' || IsHexDigit(c)
  }

  lemma {:induction false} ShortHasNoT(a: string)
    requires IsHexAddress(a)
    ensures forall c :: c in ShortenHash(a) ==> LowerChar(c) != 't'
  {
    forall c | c in ShortenHash(a) ensures LowerChar(c) != 't' {
      if |a| > 18 {
        assert c in a[..10] || c in "..." || c in a[|a| - 6..];
        if c !in "..." {
          assert c in a;
        }
      }
    }
  }

  lemma {:induction false} DebtLabel()
    ensures Contains(Lower("varDebtLINK"), "debt")
  {
    assert Lower("varDebtLINK") == "vardebtlink";
    ContainsInside("var", "debt", "link");
    assert "var" + "debt" + "link" == "vardebtlink";
  }

  /** Of all addresses only that of the variable debt token is taken for debt. */
  lemma {:induction false} DebtTokenExactly(asset: string)
    requires IsHexAddress(asset)
    ensures IsDebtLikeAsset(asset) <==> NormalizeAddress(asset) == DEBT_TOKEN
  {
    hide NormalizeAddress, Contains, Lower, ShortenHash, AssetLabel;
    DebtLabel();
    NoDebt("LINK");
    NoDebt("WETH");
    NoDebt("aEthLINK");
    NoDebt("aEthWETH");
    ShortHasNoT(asset);
    NoDebt(ShortenHash(asset));
    LabelOf(asset);
  }

  lemma {:induction false} LabelOf(asset: string)
    requires asset != ""
    ensures NormalizeAddress(asset) == DEBT_TOKEN ==> AssetLabel(asset) == "varDebtLINK"
    ensures NormalizeAddress(asset) != DEBT_TOKEN ==> AssetLabel(asset) in ["LINK", "WETH", "aEthLINK", "aEthWETH", ShortenHash(asset)]
  {
    hide NormalizeAddress, ShortenHash;
    assert DEBT_TOKEN[2] == '7' && "0x514910771af9ca656af840dff83e8264ecf986ca"[2] == '5' && "0xc02aa39b223fe8d0a0e5c4f27ead9083c756cc2"[2] == 'c'
           && "0x5e8c8a7243651db1384c0ddfdbe39761e8e7e51a"[2] == '5' && "0x4d5f47fa6a74757f35c14fd3a6ef8e3c9bc514e8"[2] == '4';
  }
}
