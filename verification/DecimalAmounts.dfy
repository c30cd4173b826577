/** Raw token amounts as decimal strings of any length (addDecimalStrings and sumRawAmounts in
    api/service/fund_flow_graph.go): a byte buffer filled from the right with a carry, then
    reversed in place. */
module DecimalAmounts {
  import opened Text

  /** The digit a byte counts for, in the byte arithmetic of the source: also for non-digits. */
  function DigitOf(c: char): nat {
    (c as int - 48) % 256
  }

  function LastDigit(s: string): nat {
    if s == "" then 0 else DigitOf(s[|s| - 1])
  }

  function Init(s: string): string {
    if s == "" then "" else s[..|s| - 1]
  }

  function Max(a: nat, b: nat): nat {
    if a > b then a else b
  }

  /** Schoolbook addition, last digits first. */
  function AddDigits(left: string, right: string, carry: nat): (sum: string)
    requires carry < 100
    ensures |sum| <= Max(|left|, |right|) + 1 && |sum| >= Max(|left|, |right|)
    decreases |left| + |right|
  {
    if left == "" && right == "" then (if carry > 0 then [(48 + carry) as char] else "") else
      var digit := carry + LastDigit(left) + LastDigit(right);
      AddDigits(Init(left), Init(right), digit / 10) + [DigitChar(digit % 10)]
  }

  function AddDecimal(left: string, right: string): string {
    if Trim(left) == "" then NormalizeAmount(right)
    else if Trim(right) == "" then NormalizeAmount(left)
    else AddDigits(Trim(left), Trim(right), 0)
  }

  method Reverse(buffer: array<char>, n: nat)
    requires n <= buffer.Length
    modifies buffer
    ensures forall k :: 0 <= k < n ==> buffer[k] == old(buffer[n - 1 - k])
  {
    var i, j := 0, n - 1;
    while i < j
      invariant 0 <= i && i + j == n - 1 && i <= j + 2
      invariant forall k :: 0 <= k < n && (k < i || j < k) ==> buffer[k] == old(buffer[n - 1 - k])
      invariant forall k :: i <= k <= j ==> buffer[k] == old(buffer[k])
    {
      buffer[i], buffer[j] := buffer[j], buffer[i];
      i, j := i + 1, j - 1;
    }
  }

  /** What is left of s once its last i characters are consumed. */
  function Rest(s: string, i: nat): string {
    if i < |s| then s[..|s| - i] else ""
  }

  lemma {:induction false} RestStep(s: string, i: nat)
    ensures Rest(s, i + 1) == Init(Rest(s, i))
    ensures LastDigit(Rest(s, i)) == if i < |s| then DigitOf(s[|s| - 1 - i]) else 0
  {
  }

  lemma {:induction false} RestEmpty(s: string, i: nat)
    ensures Rest(s, 0) == s && (i >= |s| ==> Rest(s, i) == "") && (i < |s| ==> Rest(s, i) != "")
  {
  }

  lemma {:induction false} CarryOut(carry: nat)
    requires carry < 100
    ensures AddDigits("", "", carry) == if carry > 0 then [(48 + carry) as char] else ""
  {
  }

  /** One turn of the carry loop produces the next digit from the right. */
  lemma {:induction false} CarryStep(left: string, right: string, carry: nat, sum: string, i: nat)
    requires carry < 100 && (left != "" || right != "")
    requires i <= |sum| && AddDigits(left, right, carry) == sum[..|sum| - i]
    ensures
      var digit := carry + LastDigit(left) + LastDigit(right);
      && i < |sum| && digit / 10 < 100
      && sum[|sum| - 1 - i] == DigitChar(digit % 10)
      && AddDigits(Init(left), Init(right), digit / 10) == sum[..|sum| - (i + 1)]
  {
    var digit, head := carry + LastDigit(left) + LastDigit(right), sum[..|sum| - i];
    assert head == AddDigits(Init(left), Init(right), digit / 10) + [DigitChar(digit % 10)];
    assert head[..|head| - 1] == sum[..|sum| - (i + 1)];
  }

  method AddDecimalStrings(left: string, right: string) returns (out: string)
    ensures out == AddDecimal(left, right)
  {
    hide AddDigits, DigitOf, LastDigit, Init, Rest, Trim, DigitChar;
    var l, r := Trim(left), Trim(right);
    if l == "" {
      return NormalizeAmount(right);
    }
    if r == "" {
      return NormalizeAmount(left);
    }
    var maxLen := if |r| > |l| then |r| else |l|;
    var result := new char[maxLen + 1];
    var carry: nat, i: nat := 0, 0;
    ghost var sum := AddDigits(l, r, 0);
    RestEmpty(l, 0);
    RestEmpty(r, 0);
    while i < maxLen
      invariant i <= maxLen && carry < 100
      invariant i <= |sum| && AddDigits(Rest(l, i), Rest(r, i), carry) == sum[..|sum| - i]
      invariant forall k :: 0 <= k < i ==> result[k] == sum[|sum| - 1 - k]
    {
      RestEmpty(l, i);
      RestEmpty(r, i);
      RestStep(l, i);
      RestStep(r, i);
      CarryStep(Rest(l, i), Rest(r, i), carry, sum, i);
      var li, ri := |l| - 1 - i, |r| - 1 - i;
      var digit := carry;
      if li >= 0 {
        digit := digit + DigitOf(l[li]);
      }
      if ri >= 0 {
        digit := digit + DigitOf(r[ri]);
      }
      result[i] := DigitChar(digit % 10);
      carry := digit / 10;
      i := i + 1;
    }
    RestEmpty(l, i);
    RestEmpty(r, i);
    CarryOut(carry);
    if carry > 0 {
      result[i] := (48 + carry) as char;
      assert sum[..|sum| - i] == [result[i]];
      i := i + 1;
    }
    assert |sum| == i;
    assert forall k :: 0 <= k < i ==> result[i - 1 - k] == sum[k];
    Reverse(result, i);
    assert forall k :: 0 <= k < i ==> result[k] == sum[k];
    assert result[..i] == sum;
    return result[..i];
  }

  /** One turn of the loop of sumRawAmounts. */
  function Added(total: string, normalized: string): string {
    if normalized == "0" then total else if total == "0" then normalized else AddDecimal(total, normalized)
  }

  function SumUpTo(values: seq<string>, k: nat): string
    requires k <= |values|
  {
    if k == 0 then "0" else
      var total, normalized := SumUpTo(values, k - 1), NormalizeAmount(values[k - 1]);
      Added(total, normalized)
  }

  function SumRaw(values: seq<string>): string {
    SumUpTo(values, |values|)
  }

  method SumRawAmounts(values: seq<string>) returns (total: string)
    ensures total == SumRaw(values)
  {
    total := "0";
    for k := 0 to |values|
      invariant total == SumUpTo(values, k)
    {
      var normalized := NormalizeAmount(values[k]);
      if normalized == "0" {
        continue;
      }
      if total == "0" {
        total := normalized;
        continue;
      }
      total := AddDecimalStrings(total, normalized);
    }
  }

  // ---- what the strings denote ----

  /** An amount as the chain data gives it: digits, perhaps with spaces around or nothing at all. */
  predicate Amount(s: string) {
    AllDigits(NormalizeAmount(s))
  }

  /** No superfluous leading zero. */
  predicate Canonical(s: string) {
    AllDigits(s) && s != "" && (|s| > 1 ==> s[0] != '0')
  }

  function TotalValue(values: seq<string>, k: nat): nat
    requires k <= |values| && forall v :: v in values ==> Amount(v)
  {
    if k == 0 then 0 else
      assert values[k - 1] in values;
      TotalValue(values, k - 1) + Value(NormalizeAmount(values[k - 1]))
  }

  lemma {:induction false} LastDigitValue(s: string)
    requires AllDigits(s)
    ensures AllDigits(Init(s)) && LastDigit(s) < 10 && Value(s) == 10 * Value(Init(s)) + LastDigit(s)
    ensures Value("") == 0
  {
  }

  lemma {:induction false} DigitAppended(s: string, d: nat)
    requires AllDigits(s) && d < 10
    ensures AllDigits(s + [DigitChar(d)]) && Value(s + [DigitChar(d)]) == 10 * Value(s) + d
  {
    assert (s + [DigitChar(d)])[..|s|] == s;
  }

  lemma {:induction false} AddDigitsExact(left: string, right: string, carry: nat)
    requires AllDigits(left) && AllDigits(right) && carry <= 1
    ensures AllDigits(AddDigits(left, right, carry))
    ensures Value(AddDigits(left, right, carry)) == Value(left) + Value(right) + carry
    decreases |left| + |right|
  {
    hide Value, LastDigit, AllDigits;
    LastDigitValue(left);
    LastDigitValue(right);
    if left == "" && right == "" {
      DigitAppended("", carry);
      assert "" + [DigitChar(carry)] == [DigitChar(carry)] == [(48 + carry) as char];
    } else {
      var digit := carry + LastDigit(left) + LastDigit(right);
      AddDigitsExact(Init(left), Init(right), digit / 10);
      DigitAppended(AddDigits(Init(left), Init(right), digit / 10), digit % 10);
    }
  }

  lemma {:induction false} LeadingDigit(s: string)
    requires AllDigits(s) && s != ""
    ensures s[0] != '0' ==> Value(s) > 0
    ensures Canonical(s) && s != "0" ==> Value(s) > 0
  {
    if |s| > 1 {
      LeadingDigit(s[..|s| - 1]);
    } else {
      assert s[..0] == "" && s == [s[0]];
    }
  }

  /** Numerals without leading zeros denote different numbers. */
  lemma {:induction false} CanonicalUnique(s: string, t: string)
    requires Canonical(s) && Canonical(t)
    ensures Value(s) == Value(t) <==> s == t
    decreases |s|
  {
    if Value(s) == Value(t) {
      var a, b := s[..|s| - 1], t[..|t| - 1];
      assert s == a + [s[|s| - 1]] && t == b + [t[|t| - 1]];
      assert Value(a) == Value(b);
      if a == "" || b == "" {
        if a != "" {
          LeadingDigit(a);
        }
        if b != "" {
          LeadingDigit(b);
        }
      } else {
        CanonicalUnique(a, b);
      }
    }
  }

  /** A sum of numerals without leading zeros has none either. */
  lemma {:induction false} AddDigitsCanonical(left: string, right: string, carry: nat)
    requires AllDigits(left) && AllDigits(right) && carry <= 1
    requires left != "" ==> left[0] != '0'
    requires right != "" ==> right[0] != '0'
    ensures var sum := AddDigits(left, right, carry); sum != "" ==> sum[0] != '0'
    decreases |left| + |right|
  {
    LastDigitValue(left);
    LastDigitValue(right);
    if left == "" && right == "" {
    } else {
      var digit := carry + LastDigit(left) + LastDigit(right);
      FirstKept(left);
      FirstKept(right);
      hide LastDigit, Value, AllDigits;
      AddDigitsCanonical(Init(left), Init(right), digit / 10);
    }
  }

  lemma {:induction false} FirstKept(s: string)
    ensures Init(s) != "" ==> Init(s)[0] == s[0]
  {
  }

  lemma {:induction false} TrimOfDigits(s: string)
    requires AllDigits(s)
    ensures Trim(s) == s && NormalizeAmount(s) == (if s == "" then "0" else s)
  {
  }

  /** Adding two non-zero numerals. */
  lemma {:induction false} AddExact(left: string, right: string)
    requires AllDigits(left) && AllDigits(right) && left != "" && right != ""
    ensures AllDigits(AddDecimal(left, right)) && AddDecimal(left, right) != ""
    ensures Value(AddDecimal(left, right)) == Value(left) + Value(right)
    ensures |AddDecimal(left, right)| <= Max(|left|, |right|) + 1
    ensures Canonical(left) && Canonical(right) && left != "0" && right != "0" ==> Canonical(AddDecimal(left, right))
  {
    TrimOfDigits(left);
    TrimOfDigits(right);
    AddDigitsExact(left, right, 0);
    if Canonical(left) && Canonical(right) && left != "0" && right != "0" {
      assert left[0] == '0' ==> left == "0";
      assert right[0] == '0' ==> right == "0";
      AddDigitsCanonical(left, right, 0);
    }
  }

  /** addDecimalStrings adds amounts exactly, and leaves any text as it is when the other side is blank. */
  lemma {:induction false} AddDecimalExact(left: string, right: string)
    ensures Trim(left) == "" ==> AddDecimal(left, right) == NormalizeAmount(right)
    ensures Trim(right) == "" ==> AddDecimal(left, right) == NormalizeAmount(left)
    ensures
      Amount(left) && Amount(right) ==>
        && AllDigits(AddDecimal(left, right)) && AddDecimal(left, right) != ""
        && Value(AddDecimal(left, right)) == Value(NormalizeAmount(left)) + Value(NormalizeAmount(right))
  {
    hide Value, AllDigits, AddDigits, Canonical;
    ZeroIsCanonical();
    if Amount(left) && Amount(right) && Trim(left) != "" && Trim(right) != "" {
      TrimOfDigits(Trim(left));
      TrimOfDigits(Trim(right));
      AddExact(Trim(left), Trim(right));
      assert AddDecimal(left, right) == AddDigits(Trim(left), Trim(right), 0);
    }
  }

  ghost predicate CanonicalAmounts(values: seq<string>) {
    forall v :: v in values ==> Canonical(NormalizeAmount(v))
  }

  function Longest(values: seq<string>, k: nat): nat
    requires k <= |values|
  {
    if k == 0 then 1 else Max(Longest(values, k - 1), |NormalizeAmount(values[k - 1])|)
  }

  lemma {:induction false} ZeroIsCanonical()
    ensures Value("0") == 0 && Canonical("0")
  {
    assert "0"[..0] == "";
  }

  lemma {:induction false} AddedExact(total: string, v: string)
    requires AllDigits(total) && AllDigits(v) && total != "" && v != ""
    ensures AllDigits(Added(total, v)) && Added(total, v) != "" && Value(Added(total, v)) == Value(total) + Value(v)
    ensures Canonical(total) && Canonical(v) ==> Canonical(Added(total, v))
    ensures |Added(total, v)| <= |total| + 1 || |Added(total, v)| <= |v| + 1
    ensures total == "0" ==> |Added(total, v)| <= 1 || |Added(total, v)| <= |v|
  {
    hide AddDecimal, Value, Canonical, AllDigits;
    ZeroIsCanonical();
    if v != "0" && total != "0" {
      AddExact(total, v);
    }
  }

  lemma {:induction false} NotBlank(s: string)
    ensures NormalizeAmount(s) != ""
  {
  }

  lemma {:induction false} MaxBounds(a: nat, b: nat)
    ensures Max(a, b) >= a && Max(a, b) >= b && (Max(a, b) == a || Max(a, b) == b)
  {
  }

  lemma {:induction false} SumUpToExact(values: seq<string>, k: nat)
    requires k <= |values| && forall v :: v in values ==> Amount(v)
    ensures AllDigits(SumUpTo(values, k)) && SumUpTo(values, k) != ""
    ensures Value(SumUpTo(values, k)) == TotalValue(values, k)
    ensures CanonicalAmounts(values) ==> Canonical(SumUpTo(values, k))
    ensures |SumUpTo(values, k)| <= Longest(values, k) + if k > 0 then k - 1 else 0
  {
    hide NormalizeAmount, AddDecimal, Value, Canonical, AllDigits, Max;
    ZeroIsCanonical();
    if k > 0 {
      SumUpToExact(values, k - 1);
      assert values[k - 1] in values;
      NotBlank(values[k - 1]);
      AddedExact(SumUpTo(values, k - 1), NormalizeAmount(values[k - 1]));
      MaxBounds(Longest(values, k - 1), |NormalizeAmount(values[k - 1])|);
    }
  }

  /** sumRawAmounts is exact for amounts of any length, and canonical for canonical amounts; the
      sum of n amounts is at most n - 1 digits longer than the longest of them. */
  lemma {:induction false} SumExact(values: seq<string>)
    requires forall v :: v in values ==> Amount(v)
    ensures AllDigits(SumRaw(values)) && Value(SumRaw(values)) == TotalValue(values, |values|)
    ensures CanonicalAmounts(values) ==> Canonical(SumRaw(values))
    ensures values != [] ==> |SumRaw(values)| <= Longest(values, |values|) + |values| - 1
  {
    SumUpToExact(values, |values|);
  }

  /** Numerals of equal value are equal as strings exactly when they are equally long. */
  lemma {:induction false} SameValueSameLength(s: string, t: string)
    requires AllDigits(s) && AllDigits(t) && Value(s) == Value(t)
    ensures s == t <==> |s| == |t|
    decreases |s|
  {
    if |s| == |t| && s != "" {
      var a, b := s[..|s| - 1], t[..|t| - 1];
      assert s == a + [s[|s| - 1]] && t == b + [t[|t| - 1]];
      assert Value(a) == Value(b);
      SameValueSameLength(a, b);
    }
  }

  /** A flow matches the expected repayment as a string exactly when it is worth that much and is
      written in as many digits; if the parts of the repayment have no leading zeros, that is exactly
      when it is worth that much and has none either. */
  lemma {:induction false} RepaymentMatchExactly(amount: string, values: seq<string>)
    requires Amount(amount) && forall v :: v in values ==> Amount(v)
    ensures AllDigits(SumRaw(values))
    ensures
      var equal := Value(NormalizeAmount(amount)) == TotalValue(values, |values|);
      && (NormalizeAmount(amount) == SumRaw(values) <==> equal && |NormalizeAmount(amount)| == |SumRaw(values)|)
      && (CanonicalAmounts(values) ==> (NormalizeAmount(amount) == SumRaw(values) <==> equal && Canonical(NormalizeAmount(amount))))
  {
    SumExact(values);
    if Value(NormalizeAmount(amount)) == TotalValue(values, |values|) {
      SameValueSameLength(NormalizeAmount(amount), SumRaw(values));
      if CanonicalAmounts(values) && Canonical(NormalizeAmount(amount)) {
        CanonicalUnique(NormalizeAmount(amount), SumRaw(values));
      }
    }
  }

  /** What a big integer prints has no leading zeros. */
  lemma {:induction false} DecimalIsCanonical(n: nat)
    ensures Canonical(Decimal(n)) && NormalizeAmount(Decimal(n)) == Decimal(n)
  {
    TrimOfDigits(Decimal(n));
    if n >= 10 {
      DecimalIsCanonical(n / 10);
      if n / 10 < 10 {
        assert Decimal(n / 10) == [DigitChar(n / 10)];
      }
      FirstDigit(n / 10);
    }
  }

  lemma {:induction false} FirstDigit(n: nat)
    requires n > 0
    ensures Decimal(n)[0] != '0'
  {
    if n >= 10 {
      FirstDigit(n / 10);
    }
  }

  function Decimals(parts: seq<nat>): seq<string> {
    seq(|parts|, i requires 0 <= i < |parts| => Decimal(parts[i]))
  }

  function Total(parts: seq<nat>, k: nat): nat
    requires k <= |parts|
  {
    if k == 0 then 0 else Total(parts, k - 1) + parts[k - 1]
  }

  lemma {:induction false} TotalOfDecimals(parts: seq<nat>, k: nat)
    requires k <= |parts|
    ensures forall v :: v in Decimals(parts) ==> Amount(v) && Canonical(NormalizeAmount(v))
    ensures TotalValue(Decimals(parts), k) == Total(parts, k)
  {
    hide Value, NormalizeAmount, Canonical, Decimal, AllDigits;
    forall v | v in Decimals(parts) ensures Amount(v) && Canonical(NormalizeAmount(v)) {
      var i :| 0 <= i < |parts| && v == Decimal(parts[i]);
      DecimalIsCanonical(parts[i]);
    }
    if k > 0 {
      TotalOfDecimals(parts, k - 1);
      DecimalIsCanonical(parts[k - 1]);
      ValueOfDecimal(parts[k - 1]);
    }
  }

  /** Amounts as the scanner writes them, in decimal: the flow of n matches exactly when n is the sum
      of the parts, and what the parts add up to is that sum in decimal. */
  lemma {:induction false} DecimalsAddUp(n: nat, parts: seq<nat>)
    ensures SumRaw(Decimals(parts)) == Decimal(Total(parts, |parts|))
    ensures NormalizeAmount(Decimal(n)) == SumRaw(Decimals(parts)) <==> n == Total(parts, |parts|)
  {
    var sum := Total(parts, |parts|);
    TotalOfDecimals(parts, |parts|);
    SumExact(Decimals(parts));
    DecimalIsCanonical(sum);
    DecimalIsCanonical(n);
    ValueOfDecimal(sum);
    CanonicalUnique(SumRaw(Decimals(parts)), Decimal(sum));
    if n != sum && Decimal(n) == Decimal(sum) {
      DecimalInjective(n, sum);
    }
  }
}
