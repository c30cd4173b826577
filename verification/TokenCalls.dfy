/** Token calls recognised in call data (api/service/trace_summary.go): the selector, the 32-byte
    argument words and the transfer, transferFrom or approve they spell. */
module TokenCalls {
  import opened Text

  datatype TokenAction = NoAction | Action(name: string, amount: string, source: string, target: string)

  function MethodSelector(input: string): string {
    if |input| < 10 || !("0x" <= input) then "" else Lower(input[..10])
  }

  /** The argIndex-th 32-byte word of the call data, as 64 characters; "" when it is cut short. */
  function InputSlot(input: string, argIndex: nat): (slot: string)
    requires |input| >= 10
    ensures slot == "" || |slot| == 64
  {
    if !("0x" <= input) || |input| - 10 < argIndex * 64 + 64 then ""
    else input[10 + argIndex * 64..10 + argIndex * 64 + 64]
  }

  function HexDigit(c: char): nat
    requires IsHexDigit(c)
  {
    if c <= '9' then c as int - 48 else if c <= 'F' then c as int - 55 else c as int - 87
  }

  function HexValue(s: string): nat
    requires forall c :: c in s ==> IsHexDigit(c)
  {
    if s == "" then 0 else 16 * HexValue(s[..|s| - 1]) + HexDigit(s[|s| - 1])
  }

  function InputAddress(input: string, argIndex: nat): string
    requires |input| >= 10
  {
    var slot := InputSlot(input, argIndex);
    if slot == "" then "" else "0x" + Lower(slot[24..64])
  }

  predicate IsSigned(s: string) {
    s != "" && (s[0] == '-' || s[0] == '+')
  }

  /** A big.Int read in base 16, which may carry a sign, and written in base 10. */
  function InputUint(input: string, argIndex: nat): string
    requires |input| >= 10
  {
    var slot := InputSlot(input, argIndex);
    var digits := if IsSigned(slot) then slot[1..] else slot;
    if slot == "" || exists c :: c in digits && !IsHexDigit(c) then ""
    else (if slot[0] == '-' && HexValue(digits) > 0 then "-" else "") + Decimal(HexValue(digits))
  }

  /** Recognises transfer, transferFrom and approve calls; a cut-short argument gives no action. */
  function DecodeTokenAction(caller: string, selector: string, input: string): TokenAction
    requires selector == MethodSelector(input)
  {
    if selector == "0xa9059cbb" then
      var to, value := InputAddress(input, 0), InputUint(input, 1);
      if to == "" || value == "" then NoAction else Action("transfer", value, caller, to)
    else if selector == "0x23b872dd" then
      var from, to, value := InputAddress(input, 0), InputAddress(input, 1), InputUint(input, 2);
      if from == "" || to == "" || value == "" then NoAction else Action("transferFrom", value, from, to)
    else if selector == "0x095ea7b3" then
      var spender, value := InputAddress(input, 0), InputUint(input, 1);
      if spender == "" || value == "" then NoAction else Action("approve", value, caller, spender)
    else NoAction
  }

  // ---- what a well-formed call encodes is what is decoded ----

  function HexChar(d: nat): (c: char)
    requires d < 16
    ensures IsHexDigit(c) && HexDigit(c) == d
  {
    if d < 10 then (48 + d) as char else (87 + d) as char
  }

  /** The last `width` hexadecimal digits of n, most significant first. */
  function HexDigits(n: nat, width: nat): (s: string)
    ensures |s| == width && forall c :: c in s ==> IsHexDigit(c)
  {
    if width == 0 then "" else HexDigits(n / 16, width - 1) + [HexChar(n % 16)]
  }

  function Power16(k: nat): nat {
    if k == 0 then 1 else 16 * Power16(k - 1)
  }

  lemma {:induction false} HexValueOfDigits(n: nat, width: nat)
    requires n < Power16(width)
    ensures HexValue(HexDigits(n, width)) == n
  {
    if width > 0 {
      HexValueOfDigits(n / 16, width - 1);
      var head := HexDigits(n / 16, width - 1);
      assert (head + [HexChar(n % 16)])[..|head|] == head;
    }
  }

  /** Twenty bytes of an address, in lower-case hexadecimal. */
  predicate IsAddress(a: string) {
    |a| == 40 && forall c :: c in a ==> IsHexDigit(c) && LowerChar(c) == c
  }

  /** An argument word is the address after 24 zeros, or the number in 64 digits. */
  function AddressWord(a: string): string {
    seq(24, _ => '0') + a
  }

  function UintWord(n: nat): string {
    HexDigits(n, 64)
  }

  lemma {:induction false} SlotOf(head: string, before: string, word: string, after: string, argIndex: nat)
    requires |head| == 10 && "0x" <= head && |before| == argIndex * 64 && |word| == 64
    ensures InputSlot(head + before + word + after, argIndex) == word
  {
    var input := head + before + word + after;
    assert "0x" <= input by {
      assert input[0] == head[0] && input[1] == head[1];
    }
    assert input[10 + argIndex * 64..10 + argIndex * 64 + 64] == word;
  }

  lemma {:induction false} AddressOf(head: string, before: string, a: string, after: string, argIndex: nat)
    requires |head| == 10 && "0x" <= head && |before| == argIndex * 64 && IsAddress(a)
    ensures InputAddress(head + before + AddressWord(a) + after, argIndex) == "0x" + a
  {
    SlotOf(head, before, AddressWord(a), after, argIndex);
    assert AddressWord(a)[24..64] == a;
    assert Lower(a) == a by {
      assert forall i :: 0 <= i < |a| ==> a[i] in a;
    }
  }

  lemma {:induction false} UintOf(head: string, before: string, n: nat, after: string, argIndex: nat)
    requires |head| == 10 && "0x" <= head && |before| == argIndex * 64 && n < Power16(64)
    ensures InputUint(head + before + UintWord(n) + after, argIndex) == Decimal(n)
  {
    hide Power16, HexDigits, HexValue;
    SlotOf(head, before, UintWord(n), after, argIndex);
    HexValueOfDigits(n, 64);
    assert UintWord(n)[0] in UintWord(n);
    assert "" + Decimal(n) == Decimal(n);
  }

  /** The calls the decoder knows, with their arguments as the ABI lays them out. */
  datatype TokenCall = Transfer(to: string, amount: nat) | TransferFrom(from: string, to: string, amount: nat) | Approve(spender: string, amount: nat)

  function Encoded(call: TokenCall): string {
    match call
    case Transfer(to, n) => "0xa9059cbb" + AddressWord(to) + UintWord(n)
    case TransferFrom(from, to, n) => "0x23b872dd" + AddressWord(from) + AddressWord(to) + UintWord(n)
    case Approve(spender, n) => "0x095ea7b3" + AddressWord(spender) + UintWord(n)
  }

  predicate WellFormed(call: TokenCall) {
    && call.amount < Power16(64)
    && (match call
        case Transfer(to, _) => IsAddress(to)
        case TransferFrom(from, to, _) => IsAddress(from) && IsAddress(to)
        case Approve(spender, _) => IsAddress(spender))
  }

  /** Round trip: decoding the call data of a token call gives back its parties and its amount. */
  lemma {:induction false} DecodeOfEncoded(caller: string, call: TokenCall)
    requires WellFormed(call)
    ensures DecodeTokenAction(caller, MethodSelector(Encoded(call)), Encoded(call)) ==
            match call
            case Transfer(to, n) => Action("transfer", Decimal(n), caller, "0x" + to)
            case TransferFrom(from, to, n) => Action("transferFrom", Decimal(n), "0x" + from, "0x" + to)
            case Approve(spender, n) => Action("approve", Decimal(n), caller, "0x" + spender)
  {
    hide AddressWord, UintWord, InputAddress, InputUint, Power16, Decimal, IsAddress;
    var input := Encoded(call);
    match call {
      case Transfer(to, n) =>
        WordSizes(to, n);
        SelectorOf("0xa9059cbb", AddressWord(to) + UintWord(n));
        TwoWords("0xa9059cbb", to, n);
        assert input == "0xa9059cbb" + (AddressWord(to) + UintWord(n));
      case TransferFrom(from, to, n) =>
        WordSizes(from, n);
        WordSizes(to, n);
        SelectorOf("0x23b872dd", AddressWord(from) + AddressWord(to) + UintWord(n));
        ThreeWords("0x23b872dd", from, to, n);
        assert input == "0x23b872dd" + (AddressWord(from) + AddressWord(to) + UintWord(n));
      case Approve(spender, n) =>
        WordSizes(spender, n);
        SelectorOf("0x095ea7b3", AddressWord(spender) + UintWord(n));
        TwoWords("0x095ea7b3", spender, n);
        assert input == "0x095ea7b3" + (AddressWord(spender) + UintWord(n));
    }
  }

  lemma {:induction false} WordSizes(a: string, n: nat)
    requires IsAddress(a)
    ensures |AddressWord(a)| == 64 && |UintWord(n)| == 64
  {
  }

  lemma {:induction false} SelectorOf(head: string, args: string)
    requires |head| == 10 && "0x" <= head && Lower(head) == head
    ensures MethodSelector(head + args) == head
  {
    assert (head + args)[..10] == head;
    assert "0x" <= head + args by {
      assert (head + args)[0] == head[0] && (head + args)[1] == head[1];
    }
  }

  lemma {:induction false} TwoWords(head: string, a: string, n: nat)
    requires |head| == 10 && "0x" <= head && IsAddress(a) && n < Power16(64)
    ensures var input := head + AddressWord(a) + UintWord(n);
            |input| >= 10 && InputAddress(input, 0) == "0x" + a && InputUint(input, 1) == Decimal(n)
  {
    hide UintWord, InputAddress, InputUint, Power16, Decimal;
    WordSizes(a, n);
    AddressOf(head, "", a, UintWord(n), 0);
    UintOf(head, AddressWord(a), n, "", 1);
    assert head + "" + AddressWord(a) + UintWord(n) == head + AddressWord(a) + UintWord(n);
    assert head + AddressWord(a) + UintWord(n) + "" == head + AddressWord(a) + UintWord(n);
  }

  lemma {:induction false} ThreeWords(head: string, a: string, b: string, n: nat)
    requires |head| == 10 && "0x" <= head && IsAddress(a) && IsAddress(b) && n < Power16(64)
    ensures var input := head + AddressWord(a) + AddressWord(b) + UintWord(n);
            |input| >= 10 && InputAddress(input, 0) == "0x" + a && InputAddress(input, 1) == "0x" + b && InputUint(input, 2) == Decimal(n)
  {
    hide AddressWord, UintWord, InputAddress, InputUint, Power16, Decimal;
    WordSizes(a, n);
    WordSizes(b, n);
    AddressOf(head, "", a, AddressWord(b) + UintWord(n), 0);
    AddressOf(head, AddressWord(a), b, UintWord(n), 1);
    UintOf(head, AddressWord(a) + AddressWord(b), n, "", 2);
    var input := head + AddressWord(a) + AddressWord(b) + UintWord(n);
    assert head + "" + AddressWord(a) + (AddressWord(b) + UintWord(n)) == input;
    assert head + (AddressWord(a) + AddressWord(b)) + UintWord(n) + "" == input;
  }

  /** Call data that ends before its last argument does is no token action. */
  lemma {:induction false} CutShortIsNoAction(caller: string, input: string)
    requires |input| < 10 + 128 || (MethodSelector(input) == "0x23b872dd" && |input| < 10 + 192)
    ensures DecodeTokenAction(caller, MethodSelector(input), input) == NoAction
  {
    hide HexValue, Decimal, Lower;
  }
}
