/** What the lane of a flash-loan leg shows: its segments are the borrow, the execution branches, the
    top-ups and the repayment, each in its own direction and with its own amount, and its nodes carry
    the roles they play in them. */
module LaneShows {
  import opened Text
  import opened FlowOrder
  import opened LaneGraph
  import opened FundFlowLane
  import DecimalAmounts

  // ---- the segments a lane may have ----

  predicate BorrowDrawn(x: Input) {
    BorrowSource(x) != "" && NormalizeAmount(x.leg.borrowed) != "0"
  }

  predicate RepayDrawn(x: Input) {
    RepaymentTarget(x) != "" && (ExpectedRepayment(x) != "0" || FeeAmount(x) != "0")
  }

  /** From the borrow source into the receiver, of the borrowed amount. */
  predicate IsBorrow(x: Input, s: Segment) {
    && BorrowDrawn(x) && NormalizeAddress(x.receiver) != ""
    && s.source == NormalizeAddress(BorrowSource(x)) && s.target == NormalizeAddress(x.receiver)
    && s.action == "Borrow" && s.tone == "borrow" && s.asset == x.leg.asset && s.amount == NormalizeAmount(x.leg.borrowed)
  }

  /** From the receiver to the repayment target, of the expected repayment, or of the fee if that is nothing. */
  predicate IsRepay(x: Input, s: Segment) {
    && RepayDrawn(x) && NormalizeAddress(x.receiver) != ""
    && s.source == NormalizeAddress(x.receiver) && s.target == NormalizeAddress(RepaymentTarget(x))
    && s.action == "Repay" && s.tone == "repay" && s.asset == x.leg.asset
    && s.amount == (if NormalizeAmount(ExpectedRepayment(x)) != "0" then NormalizeAmount(ExpectedRepayment(x)) else NormalizeAmount(FeeAmount(x)))
  }

  /** From where the flow comes into the receiver. */
  predicate IsTopUp(x: Input, f: Flow, s: Segment) {
    && s.source == NormalizeAddress(f.source) != "" && s.target == NormalizeAddress(x.receiver) != ""
    && s.action == "Top-up" && s.tone == "repay" && s.asset == f.asset && s.amount == NormalizeAmount(f.amount)
  }

  /** As the flow goes. */
  predicate IsBranch(f: Flow, s: Segment) {
    && s.source == NormalizeAddress(f.source) != "" && s.target == NormalizeAddress(f.target) != ""
    && s.action == HumanizeAction(f.action) && s.tone == "swap" && s.asset == f.asset && s.amount == NormalizeAmount(f.amount)
  }

  // ---- what is drawn ----

  function SegmentOf(p: Push): Segment {
    Segment(NormalizeAddress(p.from), NormalizeAddress(p.to), p.action, p.asset, p.amount, p.tone)
  }

  predicate HasEnds(p: Push) {
    NormalizeAddress(p.from) != "" && NormalizeAddress(p.to) != ""
  }

  /** The segments drawn are those of the edges with two ends. */
  lemma {:induction false} DrawnExactly(edges: seq<Push>, k: nat, s: Segment)
    requires k <= |edges|
    ensures s in DrawAll(edges, k).segments <==> exists i :: 0 <= i < k && HasEnds(edges[i]) && s == SegmentOf(edges[i])
  {
    hide NormalizeAddress, WithNode;
    if k > 0 {
      DrawnExactly(edges, k - 1, s);
      var before := DrawAll(edges, k - 1).segments;
      if HasEnds(edges[k - 1]) {
        assert DrawAll(edges, k).segments == before + [SegmentOf(edges[k - 1])];
      } else {
        assert DrawAll(edges, k).segments == before;
      }
    }
  }

  /** The edges of a lane are its borrow, branches, top-ups and repayment. */
  lemma {:induction false} EdgeKinds(x: Input, p: Push)
    ensures p in Edges(x) <==>
              || p in BorrowPush(x) || p in RepayPush(x)
              || (exists f :: f in ExecutionFlows(x) && p == ExecutionPush(x, f))
              || (exists f :: f in TopUpFlows(x) && p == TopUpPush(x, f))
  {
    hide ExecutionFlows, TopUpFlows, BorrowPush, RepayPush, ExecutionPush, TopUpPush;
    var walk, topUps := ExecutionFlows(x), TopUpFlows(x);
    forall p ensures p in ExecutionPushes(x, walk) <==> exists f :: f in walk && p == ExecutionPush(x, f) {
      if f :| f in walk && p == ExecutionPush(x, f) {
        var i :| 0 <= i < |walk| && walk[i] == f;
        assert ExecutionPushes(x, walk)[i] == p;
      }
    }
    forall p ensures p in TopUpPushes(x, topUps) <==> exists f :: f in topUps && p == TopUpPush(x, f) {
      if f :| f in topUps && p == TopUpPush(x, f) {
        var i :| 0 <= i < |topUps| && topUps[i] == f;
        assert TopUpPushes(x, topUps)[i] == p;
      }
    }
    hide ExecutionPushes, TopUpPushes;
  }

  lemma {:induction false} BorrowEdge(x: Input, s: Segment)
    ensures (exists p :: p in BorrowPush(x) && HasEnds(p) && s == SegmentOf(p)) <==> IsBorrow(x, s)
  {
    hide BorrowSource, NormalizeAmount, NormalizeAddress;
    SourceNotBlank(x);
    if IsBorrow(x, s) {
      var p := BorrowPush(x)[0];
      assert p in BorrowPush(x) && HasEnds(p) && s == SegmentOf(p);
    }
  }

  lemma {:induction false} SourceNotBlank(x: Input)
    ensures BorrowSource(x) != "" ==> NormalizeAddress(BorrowSource(x)) != ""
    ensures RepaymentTarget(x) != "" ==> NormalizeAddress(RepaymentTarget(x)) != ""
  {
    hide BorrowFlow, RepayFlow, Trim, NormalizeAddress;
    if BorrowSource(x) != "" {
      NormalizedNonBlank(BorrowSource(x));
    }
    if RepaymentTarget(x) != "" {
      NormalizedNonBlank(RepaymentTarget(x));
    }
  }

  lemma {:induction false} RepayEdge(x: Input, s: Segment)
    ensures (exists p :: p in RepayPush(x) && HasEnds(p) && s == SegmentOf(p)) <==> IsRepay(x, s)
  {
    hide RepaymentTarget, NormalizeAmount, NormalizeAddress, ExpectedRepayment, FeeAmount;
    SourceNotBlank(x);
    FirstOfTwo(ExpectedRepayment(x), FeeAmount(x));
    if IsRepay(x, s) {
      var p := RepayPush(x)[0];
      assert p in RepayPush(x) && HasEnds(p) && s == SegmentOf(p);
    }
  }

  lemma {:induction false} FirstOfTwo(a: string, b: string)
    ensures FirstNonZero([a, b]) == if NormalizeAmount(a) != "0" then NormalizeAmount(a) else NormalizeAmount(b)
  {
    hide NormalizeAmount;
    assert [a, b][1..] == [b] && [b][1..] == [];
    assert FirstNonZero([b]) == if NormalizeAmount(b) != "0" then NormalizeAmount(b) else FirstNonZero([]);
  }

  /** Whatever a lane draws is a borrow, a repayment, a top-up or a branch, and each of these is drawn. */
  lemma {:induction false} DrawnKinds(x: Input, s: Segment)
    ensures s in LaneDrawing(x).segments <==>
              || IsBorrow(x, s) || IsRepay(x, s)
              || (exists f :: f in TopUpFlows(x) && IsTopUp(x, f, s))
              || (exists f :: f in ExecutionFlows(x) && IsBranch(f, s))
  {
    hide ExecutionFlows, TopUpFlows, BorrowPush, RepayPush, NormalizeAddress, NormalizeAmount, HumanizeAction, IsBorrow, IsRepay, Edges, SameAddress;
    var edges := Edges(x);
    DrawnExactly(edges, |edges|, s);
    BorrowEdge(x, s);
    RepayEdge(x, s);
    forall f ensures HasEnds(TopUpPush(x, f)) && s == SegmentOf(TopUpPush(x, f)) <==> IsTopUp(x, f, s) {
    }
    forall f ensures HasEnds(ExecutionPush(x, f)) && s == SegmentOf(ExecutionPush(x, f)) <==> IsBranch(f, s) {
    }
    hide TopUpPush, ExecutionPush, SegmentOf, HasEnds, IsTopUp, IsBranch;
    forall p ensures p in edges <==>
              || p in BorrowPush(x) || p in RepayPush(x)
              || (exists f :: f in ExecutionFlows(x) && p == ExecutionPush(x, f))
              || (exists f :: f in TopUpFlows(x) && p == TopUpPush(x, f)) {
      EdgeKinds(x, p);
    }
    assert (exists p :: p in edges && HasEnds(p) && s == SegmentOf(p)) <==> exists i :: 0 <= i < |edges| && HasEnds(edges[i]) && s == SegmentOf(edges[i]);
    if f :| f in TopUpFlows(x) && IsTopUp(x, f, s) {
      assert TopUpPush(x, f) in edges;
    }
    if f :| f in ExecutionFlows(x) && IsBranch(f, s) {
      assert ExecutionPush(x, f) in edges;
    }
  }

  // ---- segments of different kinds have different keys ----

  predicate NoBar(s: string) {
    '|' !in s
  }

  /** Trimming leaves what follows a letter, and the letter. */
  lemma {:induction false} TrimLeftKeeps(before: string, rest: string) returns (kept: string)
    requires rest != "" && !IsSpace(rest[0])
    ensures TrimLeft(before + rest) == kept + rest
  {
    kept := before;
    if before == "" {
      assert before + rest == rest;
    } else if IsSpace(before[0]) {
      assert (before + rest)[1..] == before[1..] + rest;
      kept := TrimLeftKeeps(before[1..], rest);
    }
  }

  /** An action that ends with a word, a bar and a capitalised name contains the word once lower-cased. */
  lemma {:induction false} ActionHasWord(before: string, word: string, name: string)
    requires word != "" && !IsSpace(word[0]) && Lower(word) == word && name != "" && !IsSpace(name[|name| - 1])
    ensures Contains(Lower(Trim(before + word + "|" + name)), word)
  {
    var rest := word + "|" + name;
    assert before + word + "|" + name == before + rest;
    assert rest[0] == word[0] && rest[|rest| - 1] == name[|name| - 1];
    var kept := TrimLeftKeeps(before, rest);
    var trimmed := kept + rest;
    assert trimmed[|trimmed| - 1] == rest[|rest| - 1];
    assert Trim(before + word + "|" + name) == trimmed;
    assert trimmed == kept + word + ("|" + name);
    LowerJoins(kept + word, "|" + name);
    LowerJoins(kept, word);
    ContainsInside(Lower(kept), word, Lower("|" + name));
  }

  lemma {:induction false} HumanizedHasNoBar(action: string)
    requires '|' in HumanizeAction(action)
    ensures HumanizeAction(action) == action
    ensures !Contains(Lower(Trim(action)), "repay") && !Contains(Lower(Trim(action)), "borrow")
  {
    hide Contains, Lower, Trim;
  }

  /** A key that ends with a word, a bar and a name, none of them with a bar inside, cannot end with a
      shorter part after "|swap|". */
  lemma {:induction false} SwapPartIsLong(p: string, x: string, q: string, word: string, name: string)
    requires p + "|swap|" + x == q + "|" + word + "|" + name
    requires NoBar(word) && NoBar(name) && word != "" && word[|word| - 1] != 'p'
    ensures |x| > |word| + |name|
  {
    var i := |p| + 5;
    LastOf(p, x);
    assert |p| + 6 + |x| == |q| + 2 + |word| + |name|;
    if |x| <= |word| + |name| {
      CharsOf(q, word, name, i);
      CharsOf(q, word, name, i - 1);
      assert false;
    }
  }

  /** So what follows "|swap|" ends with them. */
  lemma {:induction false} SwapTail(p: string, x: string, q: string, word: string, name: string) returns (before: string)
    requires p + "|swap|" + x == q + "|" + word + "|" + name
    requires NoBar(word) && NoBar(name) && word != "" && word[|word| - 1] != 'p'
    ensures x == before + word + "|" + name
  {
    SwapPartIsLong(p, x, q, word, name);
    hide NoBar;
    var k, tail := p + "|swap|" + x, word + "|" + name;
    before := x[..|x| - |tail|];
    assert k == q + "|" + tail;
    assert k[|k| - |tail|..] == x[|x| - |tail|..] == tail;
    assert x == before + tail == before + word + "|" + name;
  }

  lemma {:induction false} LastOf(p: string, x: string)
    ensures (p + "|swap|" + x)[|p| + 4] == 'p' && (p + "|swap|" + x)[|p| + 5] == '|'
  {
  }

  /** The characters of a key's tail: the word, a bar, the name. */
  lemma {:induction false} CharsOf(q: string, word: string, name: string, i: int)
    ensures |q| < i <= |q| + |word| ==> (q + "|" + word + "|" + name)[i] == word[i - |q| - 1]
    ensures |q| + |word| + 1 < i < |q| + |word| + 2 + |name| ==> (q + "|" + word + "|" + name)[i] == name[i - |q| - |word| - 2]
  {
  }

  lemma {:induction false} SwapKeyApart(a: Segment, action: string, b: Segment, word: string, name: string)
    requires a.tone == "swap" && a.action == HumanizeAction(action) && b.tone == word && b.action == name
    requires word == "repay" || word == "borrow"
    requires NoBar(name) && name != "" && !IsSpace(name[|name| - 1])
    ensures SegmentKey(a) != SegmentKey(b)
  {
    if SegmentKey(a) == SegmentKey(b) {
      hide HumanizeAction, NormalizeAddress, Trim, Contains, Lower;
      var p, q := a.source + "|" + a.target + "|" + NormalizeAddress(a.asset), b.source + "|" + b.target + "|" + NormalizeAddress(b.asset);
      assert SegmentKey(a) == p + "|swap|" + a.action;
      assert SegmentKey(b) == q + "|" + word + "|" + name;
      var before := SwapTail(p, a.action, q, word, name);
      assert a.action[|before + word|] == '|';
      HumanizedHasNoBar(action);
      assert Lower(word) == word by { LowerWords(); }
      ActionHasWord(before, word, name);
    }
  }

  lemma {:induction false} LowerWords()
    ensures Lower("repay") == "repay" && Lower("borrow") == "borrow"
  {
  }

  ghost predicate IsAnyBranch(x: Input, s: Segment) {
    exists f :: f in ExecutionFlows(x) && IsBranch(f, s)
  }

  ghost predicate IsAnyTopUp(x: Input, s: Segment) {
    exists f :: f in TopUpFlows(x) && IsTopUp(x, f, s)
  }

  lemma {:induction false} LastChar(s: Segment)
    requires s.action != ""
    ensures SegmentKey(s)[|SegmentKey(s)| - 1] == s.action[|s.action| - 1]
  {
    hide NormalizeAddress;
  }

  /** Segments of a lane with one key are of one kind. */
  lemma {:induction false} KeyTellsKind(x: Input, a: Segment, b: Segment)
    requires a in LaneDrawing(x).segments && b in LaneDrawing(x).segments && SegmentKey(a) == SegmentKey(b)
    ensures IsBorrow(x, a) ==> a == b
    ensures IsRepay(x, a) ==> a == b
    ensures IsAnyTopUp(x, a) ==> IsAnyTopUp(x, b)
    ensures IsAnyBranch(x, a) ==> IsAnyBranch(x, b)
  {
    DrawnKinds(x, a);
    DrawnKinds(x, b);
    hide LaneDrawing, SegmentKey, ExecutionFlows, TopUpFlows, NormalizeAddress, NormalizeAmount, HumanizeAction, BorrowDrawn, RepayDrawn,
         BorrowSource, RepaymentTarget, ExpectedRepayment, FeeAmount;
    if IsAnyBranch(x, a) {
      BranchApart(x, a, b);
    }
    if IsAnyBranch(x, b) {
      BranchApart(x, b, a);
    }
    if a.tone != "swap" && b.tone != "swap" {
      LastChar(a);
      LastChar(b);
    }
  }

  lemma {:induction false} BranchApart(x: Input, a: Segment, b: Segment)
    requires SegmentKey(a) == SegmentKey(b) && IsAnyBranch(x, a)
    ensures !IsBorrow(x, b) && !IsRepay(x, b) && !IsAnyTopUp(x, b)
  {
    hide ExecutionFlows, TopUpFlows, NormalizeAddress, NormalizeAmount, HumanizeAction, BorrowDrawn, RepayDrawn,
         BorrowSource, RepaymentTarget, ExpectedRepayment, FeeAmount, SegmentKey;
    var f :| f in ExecutionFlows(x) && IsBranch(f, a);
    if IsBorrow(x, b) {
      SwapKeyApart(a, f.action, b, "borrow", "Borrow");
    } else if IsRepay(x, b) {
      SwapKeyApart(a, f.action, b, "repay", "Repay");
    } else if IsAnyTopUp(x, b) {
      SwapKeyApart(a, f.action, b, "repay", "Top-up");
    }
  }

  // ---- how actions are named ----

  lemma {:induction false} HasNot(text: string, part: string, i: nat)
    requires i < |part| && part[i] !in text
    ensures !Contains(text, part)
  {
    if Contains(text, part) {
      ContainsChar(text, part, part[i]);
    }
  }

  /** An action that speaks of none of these. */
  ghost predicate IsPlain(a: string) {
    !Contains(a, "swap") && !Contains(a, "repay") && !Contains(a, "return") && !Contains(a, "borrow") && !Contains(a, "flash")
  }

  /** The flows of token calls are drawn under the names of these calls. */
  lemma {:induction false} CallsAreNamed(call: string)
    requires call == "transfer" || call == "transferFrom" || call == "approve"
    ensures HumanizeAction(call) == call
  {
    hide Lower, Contains, IsPlain, HumanizeAction, Trim;
    if call == "transfer" {
      TransferIsPlain(call);
      LowerTransfer(call);
      PlainNamed(call, call);
    } else if call == "approve" {
      ApproveIsPlain();
      LowerApprove(call);
      PlainNamed(call, call);
    } else {
      TransferFromIsPlain("transferfrom");
      LowerTransferFrom(call);
      PlainNamed(call, "transferfrom");
    }
  }

  lemma {:induction false} PlainNamed(action: string, a: string)
    requires action != "" && !IsSpace(action[0]) && !IsSpace(action[|action| - 1]) && Lower(action) == a && IsPlain(a)
    ensures HumanizeAction(action) == if Contains(a, "transferfrom") then "transferFrom" else if Contains(a, "transfer") then "transfer" else action
  {
    TrimKeeps(action);
    hide Lower, Trim, Contains;
  }

  lemma {:induction false} ApproveIsPlain()
    ensures IsPlain("approve") && !Contains("approve", "transferfrom") && !Contains("approve", "transfer")
  {
    hide Contains;
    HasNot("approve", "swap", 0);
    HasNot("approve", "repay", 4);
    HasNot("approve", "return", 2);
    HasNot("approve", "borrow", 0);
    HasNot("approve", "flash", 0);
    HasNot("approve", "transferfrom", 0);
    HasNot("approve", "transfer", 0);
  }

  lemma {:induction false} TransferIsPlain(text: string)
    requires text == "transfer"
    ensures IsPlain(text) && Contains(text, "transfer") && !Contains(text, "transferfrom")
  {
    hide Contains;
    ContainsItself(text);
    HasNot(text, "swap", 1);
    HasNot(text, "repay", 2);
    HasNot(text, "return", 3);
    HasNot(text, "borrow", 0);
    HasNot(text, "flash", 1);
    HasNot(text, "transferfrom", 11);
  }

  lemma {:induction false} TransferFromIsPlain(text: string)
    requires text == "transferfrom"
    ensures IsPlain(text) && Contains(text, "transferfrom")
  {
    hide Contains;
    ContainsItself(text);
    HasNot(text, "swap", 1);
    HasNot(text, "repay", 2);
    HasNot(text, "return", 3);
    HasNot(text, "borrow", 0);
    HasNot(text, "flash", 1);
  }

  lemma {:induction false} ContainsItself(text: string)
    ensures Contains(text, text)
  {
  }

  lemma {:induction false} TrimKeeps(s: string)
    requires s != "" && !IsSpace(s[0]) && !IsSpace(s[|s| - 1])
    ensures Trim(s) == s
  {
  }

  lemma {:induction false} LowerTransfer(s: string)
    requires s == "transfer"
    ensures Lower(s) == "transfer"
  {
  }

  lemma {:induction false} LowerApprove(s: string)
    requires s == "approve"
    ensures Lower(s) == "approve"
  {
  }

  lemma {:induction false} LowerTransferFrom(s: string)
    requires s == "transferFrom"
    ensures Lower(s) == "transferfrom"
  {
  }

  // ---- what a lane shows ----

  /** A segment drawn whose key no other kind of segment has is shown; else one of its key is. */
  lemma {:induction false} DrawnIsShown(x: Input, lane: Lane, s: Segment) returns (shown: Segment)
    requires IsLane(LaneDrawing(x), Some(lane)) && s in LaneDrawing(x).segments
    ensures shown in lane.segments && shown in LaneDrawing(x).segments && SegmentKey(shown) == SegmentKey(s)
  {
    hide LaneDrawing, SegmentKey, FirstOfKey, IsLane, StrLess;
    LaneIsGraph(x, lane);
    var drawn := LaneDrawing(x).segments;
    var i :| 0 <= i < |drawn| && drawn[i] == s;
    assert HasKey(lane, SegmentKey(drawn[i]));
    shown :| shown in lane.segments && SegmentKey(shown) == SegmentKey(s);
    ShownIsDrawn(x, lane, shown);
  }

  lemma {:induction false} ShownIsDrawn(x: Input, lane: Lane, s: Segment)
    requires IsLane(LaneDrawing(x), Some(lane)) && s in lane.segments
    ensures s in LaneDrawing(x).segments
  {
    hide LaneDrawing, SegmentKey, FirstOfKey, IsLane, StrLess;
    LaneIsGraph(x, lane);
    var drawn := LaneDrawing(x).segments;
    var i :| 0 <= i < |drawn| && drawn[i] == s && FirstOfKey(drawn, i);
  }

  /** The lane shows the borrow and the repayment exactly when they are due, each in its direction, with
      its amount and once; every top-up and every branch by a segment of its kind and key; and nothing
      else. A segment is the borrow exactly when its tone is "borrow", and the repayment exactly when its
      tone is "repay" and its action "Repay". */
  lemma {:induction false} LaneShowsExactly(x: Input, lane: Lane, s: Segment)
    requires IsLane(LaneDrawing(x), Some(lane))
    ensures s in lane.segments && s.tone == "borrow" <==> IsBorrow(x, s)
    ensures s in lane.segments && s.tone == "repay" && s.action == "Repay" <==> IsRepay(x, s)
    ensures s in lane.segments ==> IsBorrow(x, s) || IsRepay(x, s) || IsAnyTopUp(x, s) || IsAnyBranch(x, s)
    ensures IsAnyTopUp(x, s) ==> exists t :: t in lane.segments && IsAnyTopUp(x, t) && SegmentKey(t) == SegmentKey(s)
    ensures IsAnyBranch(x, s) ==> exists t :: t in lane.segments && IsAnyBranch(x, t) && SegmentKey(t) == SegmentKey(s)
    ensures forall i, j :: 0 <= i < j < |lane.segments| ==> SegmentKey(lane.segments[i]) != SegmentKey(lane.segments[j])
  {
    DrawnKinds(x, s);
    LaneIsGraph(x, lane);
    hide LaneDrawing, SegmentKey, IsLane, ExecutionFlows, TopUpFlows, NormalizeAddress, NormalizeAmount, HumanizeAction, BorrowDrawn, RepayDrawn,
         BorrowSource, RepaymentTarget, ExpectedRepayment, FeeAmount;
    if s in lane.segments {
      ShownIsDrawn(x, lane, s);
    }
    if s in LaneDrawing(x).segments {
      var t := DrawnIsShown(x, lane, s);
      KeyTellsKind(x, s, t);
    }
  }

  /** When the parts of the repayment are numerals that add up to something, the repayment shown is worth
      exactly their sum. */
  lemma {:induction false} RepaymentShownIsTheSum(x: Input, lane: Lane, s: Segment)
    requires IsLane(LaneDrawing(x), Some(lane)) && s in lane.segments && s.tone == "repay" && s.action == "Repay"
    requires (forall v :: v in RepaymentParts(x) ==> DecimalAmounts.Amount(v)) && DecimalAmounts.TotalValue(RepaymentParts(x), 3) > 0
    ensures s.source == NormalizeAddress(x.receiver) && s.target == NormalizeAddress(RepaymentTarget(x)) && s.asset == x.leg.asset
    ensures AllDigits(s.amount) && Value(s.amount) == DecimalAmounts.TotalValue(RepaymentParts(x), 3)
  {
    LaneShowsExactly(x, lane, s);
    ExpectedIsTheSum(x);
    hide LaneDrawing, IsLane, IsBorrow, RepaymentTarget, NormalizeAddress, NormalizeAmount, ExpectedRepayment, FeeAmount, DecimalAmounts.TotalValue,
         RepaymentParts, Value, AllDigits, RepayDrawn, IsAnyTopUp, IsAnyBranch, SegmentKey;
  }

  lemma {:induction false} ExpectedIsTheSum(x: Input)
    requires (forall v :: v in RepaymentParts(x) ==> DecimalAmounts.Amount(v)) && DecimalAmounts.TotalValue(RepaymentParts(x), 3) > 0
    ensures
      var amount := NormalizeAmount(ExpectedRepayment(x));
      amount != "0" && AllDigits(amount) && Value(amount) == DecimalAmounts.TotalValue(RepaymentParts(x), 3)
  {
    hide DecimalAmounts.TotalValue, DecimalAmounts.SumRaw, DecimalAmounts.Amount, NormalizeAmount, AllDigits, Value;
    DecimalAmounts.SumExact(RepaymentParts(x));
    DecimalAmounts.ZeroIsCanonical();
    DecimalAmounts.TrimOfDigits(ExpectedRepayment(x));
    DecimalAmounts.LastDigitValue("") by { NoDigits(); }
  }

  lemma {:induction false} NoDigits()
    ensures AllDigits("")
  {
  }

  // ---- the roles of the nodes ----

  /** The edge gives the node a role at one of its ends. */
  predicate Gives(p: Push, id: string, role: string) {
    (NormalizeAddress(p.from) == id && p.fromRole == role) || (NormalizeAddress(p.to) == id && p.toRole == role)
  }

  predicate HasRole(nodes: map<string, LaneNode>, id: string, role: string) {
    id in nodes && role in nodes[id].roles
  }

  lemma {:induction false} WithNodeRoles(nodes: map<string, LaneNode>, address: string, role: string, id: string, r: string)
    ensures HasRole(WithNode(nodes, address, role), id, r) <==> HasRole(nodes, id, r) || (id != "" && id == NormalizeAddress(address) && r == role)
  {
    hide NormalizeAddress, Sorting.Sort;
    var key := NormalizeAddress(address);
    if key in nodes {
      var more := nodes[key].roles + [role];
      Sorting.SameElements(more, Sorting.Sort(ByText(), more), r);
    }
  }

  /** A node carries exactly the roles its edges give it. */
  lemma {:induction false} RolesExactly(edges: seq<Push>, k: nat, id: string, role: string)
    requires k <= |edges|
    ensures HasRole(DrawAll(edges, k).nodes, id, role) <==> id != "" && exists i :: 0 <= i < k && Gives(edges[i], id, role)
  {
    hide NormalizeAddress, WithNode, HasRole;
    if k > 0 {
      RolesExactly(edges, k - 1, id, role);
      var before, p := DrawAll(edges, k - 1).nodes, edges[k - 1];
      WithNodeRoles(before, p.from, p.fromRole, id, role);
      WithNodeRoles(WithNode(before, p.from, p.fromRole), p.to, p.toRole, id, role);
    } else {
      assert !HasRole(map[], id, role) by { NoRoles(id, role); }
    }
  }

  lemma {:induction false} NoRoles(id: string, role: string)
    ensures !HasRole(map[], id, role)
  {
  }

  /** What a role of a node says about the flows of the lane. */
  ghost predicate Plays(x: Input, id: string, role: string) {
    || (role == "borrow_source" && BorrowDrawn(x) && id == NormalizeAddress(BorrowSource(x)))
    || (role == "repayment_target" && RepayDrawn(x) && id == NormalizeAddress(RepaymentTarget(x)))
    || (role == "topup_source" && exists f :: f in TopUpFlows(x) && id == NormalizeAddress(f.source))
    || (role == "receiver" && id == NormalizeAddress(x.receiver) && (BorrowDrawn(x) || RepayDrawn(x) || TopUpFlows(x) != []))
    || (role == "receiver" && exists f :: f in ExecutionFlows(x) && AtReceiver(x, f, id))
    || (role == "hop" && exists f :: f in ExecutionFlows(x) && AwayFromReceiver(x, f, id))
  }

  predicate AtReceiver(x: Input, f: Flow, id: string) {
    (id == NormalizeAddress(f.source) && SameAddress(f.source, x.receiver)) || (id == NormalizeAddress(f.target) && SameAddress(f.target, x.receiver))
  }

  predicate AwayFromReceiver(x: Input, f: Flow, id: string) {
    (id == NormalizeAddress(f.source) && !SameAddress(f.source, x.receiver)) || (id == NormalizeAddress(f.target) && !SameAddress(f.target, x.receiver))
  }

  lemma {:induction false} EdgesGive(x: Input, id: string, role: string)
    ensures (exists i :: 0 <= i < |Edges(x)| && Gives(Edges(x)[i], id, role)) <==> Given(x, id, role)
  {
    hide Edges, Gives, BorrowPush, RepayPush, ExecutionPush, TopUpPush, ExecutionFlows, TopUpFlows;
    var edges := Edges(x);
    if i :| 0 <= i < |edges| && Gives(edges[i], id, role) {
      EdgeKinds(x, edges[i]);
    }
    if p :| p in BorrowPush(x) && Gives(p, id, role) {
      EdgeKinds(x, p);
    } else if p :| p in RepayPush(x) && Gives(p, id, role) {
      EdgeKinds(x, p);
    } else if f :| f in ExecutionFlows(x) && Gives(ExecutionPush(x, f), id, role) {
      EdgeKinds(x, ExecutionPush(x, f));
    } else if f :| f in TopUpFlows(x) && Gives(TopUpPush(x, f), id, role) {
      EdgeKinds(x, TopUpPush(x, f));
    }
  }

  lemma {:induction false} NodeRoles(x: Input, lane: Lane, n: LaneNode, role: string)
    requires IsLane(LaneDrawing(x), Some(lane)) && n in lane.nodes
    ensures HasRole(DrawAll(Edges(x), |Edges(x)|).nodes, n.id, role) <==> role in n.roles
  {
    hide Edges, DrawAll;
  }

  /** A node of a lane carries exactly the roles it plays in its flows. */
  lemma {:induction false} RolesShownExactly(x: Input, lane: Lane, n: LaneNode, role: string)
    requires IsLane(LaneDrawing(x), Some(lane)) && n in lane.nodes
    ensures role in n.roles <==> n.id != "" && Plays(x, n.id, role)
  {
    hide *;
    NodeRoles(x, lane, n, role);
    RolesExactly(Edges(x), |Edges(x)|, n.id, role);
    EdgesGive(x, n.id, role);
    RolesGiven(x, n.id, role);
  }

  ghost predicate Given(x: Input, id: string, role: string) {
    || (exists p :: p in BorrowPush(x) && Gives(p, id, role)) || (exists p :: p in RepayPush(x) && Gives(p, id, role))
    || (exists f :: f in ExecutionFlows(x) && Gives(ExecutionPush(x, f), id, role))
    || (exists f :: f in TopUpFlows(x) && Gives(TopUpPush(x, f), id, role))
  }

  lemma {:induction false} RolesGiven(x: Input, id: string, role: string)
    ensures Given(x, id, role) <==> Plays(x, id, role)
  {
    hide NormalizeAddress, SameAddress, ExecutionFlows, TopUpFlows, BorrowSource, RepaymentTarget, ExpectedRepayment, FeeAmount, NormalizeAmount,
         HumanizeAction;
    if BorrowDrawn(x) {
      assert BorrowPush(x)[0] in BorrowPush(x);
    }
    if RepayDrawn(x) {
      assert RepayPush(x)[0] in RepayPush(x);
    }
    if TopUpFlows(x) != [] {
      assert TopUpFlows(x)[0] in TopUpFlows(x);
    }
  }

  // ---- the fallback lane ----

  /** The sum the fallback expects back, and where it comes from and goes to. */
  function FallbackAmount(x: Input): string {
    DecimalAmounts.SumRaw([FirstNonZero([x.leg.repaid, x.leg.borrowed]), x.leg.premium, x.leg.fee])
  }

  /** Without a trace the lane shows just the borrow from the provider, pair or factory to the receiver, and
      the repayment from the receiver to the repayment address, provider, pair or factory. */
  lemma {:induction false} FallbackShowsExactly(x: Input, lane: Lane, s: Segment)
    requires IsLane(DrawFallbacks(FallbackEdges(x), |FallbackEdges(x)|), Some(lane))
    ensures
      var lender := FirstNonEmpty([x.interaction.provider, x.interaction.pair, x.interaction.factory]);
      var payee := FirstNonEmpty([x.leg.repaidTo, x.interaction.provider, x.interaction.pair, x.interaction.factory]);
      var borrowed, due := NormalizeAmount(x.leg.borrowed), FallbackAmount(x);
      s in lane.segments <==>
        || (lender != "" && borrowed != "0"
            && s == Segment(NormalizeAddress(lender), NormalizeAddress(x.receiver), "Borrow", x.leg.asset, borrowed, "borrow"))
        || (payee != "" && due != "0"
            && s == Segment(NormalizeAddress(x.receiver), NormalizeAddress(payee), "Repay", x.leg.asset, due, "repay"))
  {
    hide FirstNonEmpty, FirstNonZero, NormalizeAmount, NormalizeAddress, DecimalAmounts.SumRaw, SegmentKey, WithFirstNode;
    var edges := FallbackEdges(x);
    var drawn := DrawFallbacks(edges, |edges|).segments;
    FallbackDrawnAre(edges, |edges|);
    hide DrawFallback, DrawFallbacks;
    if |edges| > 1 {
      FallbackKeysDiffer(drawn[0], drawn[1]);
    }
    DedupedExact(drawn, |drawn|);
    assert forall i :: 0 <= i < |drawn| ==> FirstOfKey(drawn, i);
    assert s in lane.segments <==> exists i :: 0 <= i < |drawn| && drawn[i] == s;
  }

  lemma {:induction false} FallbackDrawnAre(edges: seq<Push>, k: nat)
    requires k <= |edges|
    ensures |DrawFallbacks(edges, k).segments| == k && forall i :: 0 <= i < k ==> DrawFallbacks(edges, k).segments[i] == SegmentOf(edges[i])
  {
    hide NormalizeAddress, WithFirstNode;
    if k > 0 {
      FallbackDrawnAre(edges, k - 1);
    }
  }

  lemma {:induction false} FallbackKeysDiffer(a: Segment, b: Segment)
    requires a.action == "Borrow" && b.action == "Repay"
    ensures SegmentKey(a) != SegmentKey(b)
  {
    LastChar(a);
    LastChar(b);
    hide SegmentKey;
  }

  /** The first value that is not blank, if there is one. */
  lemma {:induction false} FirstNonEmptyIs(values: seq<string>, i: nat)
    requires i < |values| && Trim(values[i]) != "" && forall j :: 0 <= j < i ==> Trim(values[j]) == ""
    ensures FirstNonEmpty(values) == values[i]
  {
    if i > 0 {
      assert Trim(values[0]) == "";
      FirstNonEmptyIs(values[1..], i - 1);
    }
  }
}
