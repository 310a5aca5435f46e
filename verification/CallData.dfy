/**
 ERC-20 call data (src/common/utils/eth-utils.js:88-152 and
 src/common/transaction/operations.js:23, 177-210): a selector and left-padded 32-byte words, as
 the sections "Function Selector" and "Formal Specification of the Encoding" of the Solidity
 Contract ABI Specification lay out a `transfer(address,uint256)` call.
 */
module CallData {
  import opened Wrappers
  import opened Numerals
  import opened Strings

  const WORD := 64

  const TRANSFER_HEX := "0xa9059cbb"

  /** 2^256, the first number that does not fit in a word. */
  const WORD_LIMIT: nat := 0x1_0000_0000_0000_0000_0000_0000_0000_0000_0000_0000_0000_0000_0000_0000_0000_0000

  /** `padLeft(n, width)` */
  function PadLeft(n: string, width: nat): string {
    if |n| >= width then n else Zeros(width - |n|) + n
  }

  /** The padded words one after the other. */
  function Words(vals: seq<string>): string {
    if vals == [] then "" else Words(vals[..|vals| - 1]) + PadLeft(vals[|vals| - 1], WORD)
  }

  datatype DataObject = DataObject(to: string, data: string)

  method GetDataObj(to: string, func: string, arrVals: seq<string>) returns (r: DataObject)
    ensures r == DataObject(to, func + Words(arrVals))
  {
    var val := "";
    for i := 0 to |arrVals|
      invariant val == Words(arrVals[..i])
    {
      assert arrVals[..i + 1][..i] == arrVals[..i];
      val := val + PadLeft(arrVals[i], WORD);
    }
    assert arrVals[..|arrVals|] == arrVals;
    r := DataObject(to, func + val);
  }

  /** `s.replace('0x', '')`: the first occurrence, wherever it is. */
  function WithoutPrefix(s: string): string {
    if |s| < 2 then s
    else if s[..2] == "0x" then s[2..]
    else [s[0]] + WithoutPrefix(s[1..])
  }

  predicate Plain(s: string) {
    forall i :: 0 <= i < |s| ==> s[i] != '\n' && s[i] != '\r' && s[i] != '\U{2028}' && s[i] != '\U{2029}'
  }

  /** `s.match(/.{64}/g)`, with no match as the empty list. */
  function Chunks(s: string): seq<string> {
    if |s| < WORD then []
    else if Plain(s[..WORD]) then [s[..WORD]] + Chunks(s[WORD..])
    else Chunks(s[1..])
  }

  /** A word without its leading zeros; all zeros read as `0`. */
  function Canonical(word: string): string {
    if StripZeros(word) == "" then "0" else StripZeros(word)
  }

  function CanonicalAll(words: seq<string>): (r: seq<string>)
    ensures |r| == |words|
  {
    seq(|words|, i requires 0 <= i < |words| => Canonical(words[i]))
  }

  /** `contractOutToArray`: rewrites the matched words in place; without a match it throws. */
  method ContractOutToArray(hex: string) returns (r: Result<seq<string>>)
    ensures r == if Chunks(WithoutPrefix(hex)) == [] then Failure(TypeError)
                 else Success(CanonicalAll(Chunks(WithoutPrefix(hex))))
  {
    var matched := Chunks(WithoutPrefix(hex));
    if matched == [] {
      return Failure(TypeError);
    }
    var words := new string[|matched|](i requires 0 <= i < |matched| => matched[i]);
    for i := 0 to words.Length
      invariant forall k :: 0 <= k < i ==> words[k] == Canonical(matched[k])
      invariant forall k :: i <= k < words.Length ==> words[k] == matched[k]
    {
      words[i] := StripZeros(words[i]);
      words[i] := if words[i] == "" then "0" else words[i];
    }
    assert words[..] == CanonicalAll(matched);
    r := Success(words[..]);
  }

  // Splitting what was concatenated

  ghost predicate HexWords(vals: seq<string>) {
    forall i :: 0 <= i < |vals| ==> |vals[i]| <= WORD && IsNumeral(vals[i], 16)
  }

  /** Two hexadecimal texts of the same number. */
  ghost predicate SameValue(a: string, b: string) {
    IsNumeral(a, 16) && IsNumeral(b, 16) && NumeralValue(a, 16) == NumeralValue(b, 16)
  }

  lemma PadLeftWord(n: string)
    requires |n| <= WORD && IsNumeral(n, 16)
    ensures |PadLeft(n, WORD)| == WORD && IsNumeral(PadLeft(n, WORD), 16)
    ensures Canonical(PadLeft(n, WORD)) == Canonical(n)
  {
    StripPadding(WORD - |n|, n);
    assert Zeros(0) + n == n;
  }

  lemma HexIsPlain(s: string)
    requires IsNumeral(s, 16)
    ensures Plain(s) && WithoutPrefix(s) == s
  {
    if |s| >= 2 {
      assert IsDigit(s[1], 16);
      assert s[..2] != "0x" by {
        assert "0x"[1] == 'x' && s[..2][1] == s[1];
      }
      HexIsPlain(s[1..]);
      assert s == [s[0]] + s[1..];
      assert forall i :: 0 <= i < |s| ==> IsDigit(s[i], 16);
    }
  }

  lemma {:induction false} ChunksAppend(s: string, word: string)
    requires IsNumeral(s, 16) && |s| % WORD == 0
    requires IsNumeral(word, 16) && |word| == WORD
    ensures Chunks(s + word) == Chunks(s) + [word]
    decreases |s|
  {
    if s == "" {
      assert s + word == word && word[..WORD] == word && word[WORD..] == "";
      HexIsPlain(word);
    } else {
      var head, tail := s[..WORD], s[WORD..];
      HexIsPlain(head);
      assert (s + word)[..WORD] == head && (s + word)[WORD..] == tail + word;
      ChunksAppend(tail, word);
    }
  }

  lemma {:induction false} ChunksOfWords(vals: seq<string>)
    requires HexWords(vals)
    ensures IsNumeral(Words(vals), 16) && |Words(vals)| == WORD * |vals|
    ensures |Chunks(Words(vals))| == |vals|
    ensures forall i :: 0 <= i < |vals| ==> Chunks(Words(vals))[i] == PadLeft(vals[i], WORD)
  {
    if vals != [] {
      var front, last := vals[..|vals| - 1], vals[|vals| - 1];
      assert forall i :: 0 <= i < |front| ==> front[i] == vals[i];
      ChunksOfWords(front);
      PadLeftWord(last);
      ChunksAppend(Words(front), PadLeft(last, WORD));
    }
  }

  /**
   Splitting concatenated padded words gives the words back without their leading zeros, with
   or without the `0x` a node puts in front; their values are unchanged.
   */
  lemma WordsReadBack(vals: seq<string>)
    requires HexWords(vals)
    ensures CanonicalAll(Chunks(WithoutPrefix(Words(vals)))) == CanonicalAll(vals)
    ensures CanonicalAll(Chunks(WithoutPrefix("0x" + Words(vals)))) == CanonicalAll(vals)
    ensures forall i :: 0 <= i < |vals| ==> SameValue(CanonicalAll(vals)[i], vals[i])
  {
    var words := Words(vals);
    ChunksOfWords(vals);
    HexIsPlain(words);
    assert WithoutPrefix("0x" + words) == words by {
      assert ("0x" + words)[..2] == "0x" && ("0x" + words)[2..] == words;
    }
    forall i | 0 <= i < |vals|
      ensures Canonical(Chunks(words)[i]) == Canonical(vals[i])
      ensures SameValue(Canonical(vals[i]), vals[i])
    {
      PadLeftWord(vals[i]);
      CanonicalValue(vals[i]);
    }
  }

  lemma CanonicalValue(word: string)
    requires IsNumeral(word, 16)
    ensures SameValue(Canonical(word), word)
  {
    StripKeepsValue(word, 16);
    assert NumeralValue("0", 16) == 0 by {
      assert "0"[..0] == "";
    }
  }

  // The transfer call

  function GetNakedAddress(address: string): string {
    WithoutPrefix(Lower(address))
  }

  /** An amount as typed: `mantissa / 10^scale`. */
  datatype Amount = Amount(mantissa: nat, scale: nat)

  /** The amount in the token's smallest unit, when that is a whole number. */
  function Units(value: Amount, decimals: nat): Option<nat> {
    PowerPositive(10, value.scale);
    var n := value.mantissa * Power(10, decimals);
    if n % Power(10, value.scale) == 0 then Some(n / Power(10, value.scale)) else None
  }

  /** `generateContractData` for a whole number of units. */
  function GenerateContractData(toAddress: string, units: nat): string {
    TRANSFER_HEX + PadLeft(GetNakedAddress(toAddress), WORD) + PadLeft(Numeral(units, 16), WORD)
  }

  /** Forty hexadecimal digits in either case, with or without `0x`. */
  predicate IsAddress(address: string) {
    |GetNakedAddress(address)| == 40 && IsNumeral(GetNakedAddress(address), 16)
  }

  /** The number forty hexadecimal digits stand for, the most significant first. */
  function FromDigits(digits: seq<nat>): nat {
    if digits == [] then 0 else FromDigits(digits[..|digits| - 1]) * 16 + digits[|digits| - 1]
  }

  /** The text has these hexadecimal digits, each in either case. */
  ghost predicate Spells(text: string, digits: seq<nat>) {
    |text| == |digits| &&
    forall i :: 0 <= i < |digits| ==>
      digits[i] < 16 && (text[i] == "0123456789abcdef"[digits[i]] || text[i] == "0123456789ABCDEF"[digits[i]])
  }

  /** An address as typed: its forty digits, with `0x` in front or without. */
  ghost predicate AddressOf(address: string, digits: seq<nat>) {
    |digits| == 40 && (Spells(address, digits) || (|address| == 42 && address[..2] == "0x" && Spells(address[2..], digits)))
  }

  lemma {:induction false} LoweredDigits(text: string, digits: seq<nat>)
    requires Spells(text, digits)
    ensures IsNumeral(Lower(text), 16) && NumeralValue(Lower(text), 16) == FromDigits(digits)
  {
    if text != "" {
      var front, last := text[..|text| - 1], |text| - 1;
      LoweredDigits(front, digits[..last]);
      LoweredDigit(text[last], digits[last]);
      assert Lower(text) == Lower(front) + [LowerChar(text[last])];
      assert Lower(text)[..last] == Lower(front);
    }
  }

  lemma LoweredDigit(c: char, d: nat)
    requires d < 16 && (c == "0123456789abcdef"[d] || c == "0123456789ABCDEF"[d])
    ensures DigitValue(LowerChar(c)) == d
  {
  }

  /** The naked address reads as the number its digits stand for. */
  lemma NakedDigits(address: string, digits: seq<nat>)
    requires AddressOf(address, digits)
    ensures IsAddress(address) && NumeralValue(GetNakedAddress(address), 16) == FromDigits(digits)
  {
    if Spells(address, digits) {
      LoweredDigits(address, digits);
      HexIsPlain(Lower(address));
    } else {
      LoweredDigits(address[2..], digits);
      assert Lower(address)[..2] == "0x" by {
        assert address[..2][0] == '0' && address[..2][1] == 'x';
      }
      assert Lower(address)[2..] == Lower(address[2..]);
    }
  }

  /** The two arguments the contract reads after the four selector bytes. */
  ghost predicate Decodes(data: string, recipient: nat, amount: nat) {
    |data| == 138 && data[..10] == "0xa9059cbb" &&
    IsNumeral(data[10..74], 16) && NumeralValue(data[10..74], 16) == recipient &&
    IsNumeral(data[74..], 16) && NumeralValue(data[74..], 16) == amount
  }

  lemma PowerDoubles(e: nat, v: nat)
    requires Power(16, e) == v
    ensures Power(16, 2 * e) == v * v
  {
    PowerAdd(16, e, e);
  }

  lemma WordLimitIsPower(bits: nat)
    requires bits == 64
    ensures Power(16, bits) == WORD_LIMIT
  {
    var e := bits / 16;
    assert Power(16, e - 2) == Power(16, e - 3) * 16 == 0x100;
    assert Power(16, e) == Power(16, e - 1) * 16 == 0x1_0000;
    PowerDoubles(e, 0x1_0000);
    PowerDoubles(2 * e, 0x1_0000_0000);
    PowerDoubles(4 * e, 0x1_0000_0000_0000_0000);
    PowerDoubles(8 * e, 0x1_0000_0000_0000_0000_0000_0000_0000_0000);
  }

  lemma FitsWord(units: nat)
    ensures |Numeral(units, 16)| <= WORD <==> units < WORD_LIMIT
  {
    var k := WORD;
    WordLimitIsPower(k);
    NumeralLength(units, 16, k);
  }

  /**
   The call data is the selector and two 32-byte words holding recipient and amount exactly when
   the amount is below 2^256; a larger one spills over its word.
   */
  lemma TransferDecodes(toAddress: string, digits: seq<nat>, units: nat)
    requires AddressOf(toAddress, digits)
    ensures Decodes(GenerateContractData(toAddress, units), FromDigits(digits), units) <==> units < WORD_LIMIT
  {
    NakedDigits(toAddress, digits);
    NakedDecodes(toAddress, units);
  }

  lemma NakedDecodes(toAddress: string, units: nat)
    requires IsAddress(toAddress)
    ensures Decodes(GenerateContractData(toAddress, units), NumeralValue(GetNakedAddress(toAddress), 16), units) <==>
            units < WORD_LIMIT
  {
    var to, hex := GetNakedAddress(toAddress), Numeral(units, 16);
    var data := GenerateContractData(toAddress, units);
    NumeralReadsBack(units, 16);
    FitsWord(units);
    PaddedValue(to);
    assert data == TRANSFER_HEX + (PadLeft(to, WORD) + PadLeft(hex, WORD)) && data[..10] == TRANSFER_HEX;
    if units < WORD_LIMIT {
      PaddedValue(hex);
      assert data[10..74] == PadLeft(to, WORD) && data[74..] == PadLeft(hex, WORD);
    }
  }

  /** A padded word has the value of what was padded. */
  lemma PaddedValue(n: string)
    requires |n| <= WORD && IsNumeral(n, 16)
    ensures |PadLeft(n, WORD)| == WORD && SameValue(PadLeft(n, WORD), n)
  {
    PadLeftWord(n);
    if |n| < WORD {
      StripPadding(WORD - |n|, n);
      StripKeepsValue(PadLeft(n, WORD), 16);
      StripKeepsValue(n, 16);
    }
  }

  // sanitizeHex

  function PadLeftEven(hex: string): string {
    if |hex| % 2 != 0 then "0" + hex else hex
  }

  function SanitizeHex(hex: string): string {
    var naked := if |hex| >= 2 && hex[..2] == "0x" then hex[2..] else hex;
    if naked == "" then "" else "0x" + PadLeftEven(naked)
  }

  /** Sanitising what is already sanitised changes nothing. */
  lemma SanitizeIdempotent(hex: string)
    ensures SanitizeHex(SanitizeHex(hex)) == SanitizeHex(hex)
    ensures SanitizeHex(hex) == hex <==> hex == "" || (|hex| > 2 && hex[..2] == "0x" && |hex| % 2 == 0)
  {
    var once := SanitizeHex(hex);
    if once != "" {
      assert once[..2] == "0x";
      assert once[2..] == PadLeftEven(if |hex| >= 2 && hex[..2] == "0x" then hex[2..] else hex);
      assert once == "0x" + once[2..];
    }
    if |hex| > 2 && hex[..2] == "0x" {
      assert hex == "0x" + hex[2..];
      assert SanitizeHex(hex) == "0x" + PadLeftEven(hex[2..]);
    }
    if SanitizeHex(hex) == hex && hex != "" {
      assert hex[..2] == "0x";
    }
  }

  /** Sanitised hexadecimal text, given with `0x` or without, has `0x`, an even number of digits, and the value it had. */
  lemma SanitizeKeepsValue(hex: string)
    requires hex != "" && IsNumeral(hex, 16)
    ensures SanitizeHex(hex) == SanitizeHex("0x" + hex)
    ensures var text := SanitizeHex(hex);
      |text| > 2 && |text| % 2 == 0 && text[..2] == "0x" && SameValue(text[2..], hex)
  {
    Unprefixed(hex);
    EvenValue(hex);
    assert SanitizeHex(hex)[2..] == PadLeftEven(hex);
  }

  lemma Unprefixed(hex: string)
    requires hex != "" && IsNumeral(hex, 16)
    ensures SanitizeHex(hex) == "0x" + PadLeftEven(hex) == SanitizeHex("0x" + hex)
  {
    assert ("0x" + hex)[..2] == "0x" && ("0x" + hex)[2..] == hex;
    if |hex| >= 2 {
      assert IsDigit(hex[1], 16) && hex[..2][1] == hex[1];
    }
  }

  lemma EvenValue(hex: string)
    requires IsNumeral(hex, 16)
    ensures |PadLeftEven(hex)| % 2 == 0 && SameValue(PadLeftEven(hex), hex)
  {
    StripPadding(1, hex);
    assert Zeros(1) == "0";
    StripKeepsValue(hex, 16);
    StripKeepsValue(PadLeftEven(hex), 16);
  }

  /** `confirmSend` may sanitise the generated data: it comes out unchanged. */
  lemma TransferIsSanitized(toAddress: string, digits: seq<nat>, units: nat)
    requires AddressOf(toAddress, digits) && units < WORD_LIMIT
    ensures SanitizeHex(GenerateContractData(toAddress, units)) == GenerateContractData(toAddress, units)
  {
    NakedDigits(toAddress, digits);
    var data := GenerateContractData(toAddress, units);
    FitsWord(units);
    assert |data| == 138;
    assert data[..2] == "0x";
    SanitizeIdempotent(data);
  }

  /** The amount the contract reads, scaled back, is the amount typed. */
  lemma TransferAmount(toAddress: string, digits: seq<nat>, value: Amount, decimals: nat)
    requires AddressOf(toAddress, digits) && Units(value, decimals).Some?
    ensures var units := Units(value, decimals).value;
      units * Power(10, value.scale) == value.mantissa * Power(10, decimals) &&
      (units < WORD_LIMIT ==> Decodes(GenerateContractData(toAddress, units), FromDigits(digits), units))
  {
    TransferDecodes(toAddress, digits, Units(value, decimals).value);
    UnitsScale(value, decimals);
  }

  lemma UnitsScale(value: Amount, decimals: nat)
    requires Units(value, decimals).Some?
    ensures Units(value, decimals).value * Power(10, value.scale) == value.mantissa * Power(10, decimals)
  {
    PowerPositive(10, value.scale);
    ExactQuotient(value.mantissa * Power(10, decimals), Power(10, value.scale));
  }

  lemma ExactQuotient(n: nat, p: nat)
    requires p > 0 && n % p == 0
    ensures n / p * p == n
  {
    assert n == p * (n / p) + n % p;
  }
}
