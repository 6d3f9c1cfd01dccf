/** Segments and the data bit string, section 7.4 of ISO/IEC 18004:2015. */
module QrSegments {

  type Bits = seq<bool>

  datatype Option<T> = None | Some(value: T)

  function Pow2(n: nat): (r: nat)
    ensures r > 0
  {
    if n == 0 then 1 else 2 * Pow2(n - 1)
  }

  /** The low `len` bits of a value, most significant first. */
  function BitsOf(val: nat, len: nat): (r: Bits)
    ensures |r| == len
  {
    if len == 0 then [] else BitsOf(val / 2, len - 1) + [val % 2 == 1]
  }

  function Value(b: Bits): nat {
    if b == [] then 0 else 2 * Value(b[..|b| - 1]) + if b[|b| - 1] then 1 else 0
  }

  lemma {:induction false} ValueOfBits(val: nat, len: nat)
    requires val < Pow2(len)
    ensures Value(BitsOf(val, len)) == val
  {
    if len > 0 {
      var b := BitsOf(val, len);
      assert b[..len - 1] == BitsOf(val / 2, len - 1);
      ValueOfBits(val / 2, len - 1);
    }
  }

  /** The bit the source reads with a shift. */
  lemma {:induction false} BitByShift(val: nat, len: nat, i: nat)
    requires i < len
    ensures BitsOf(val, len)[i] == (val / Pow2(len - 1 - i) % 2 == 1)
  {
    if i < len - 1 {
      BitByShift(val / 2, len - 1, i);
      DivTwice(val, Pow2(len - 2 - i));
    }
  }

  lemma DivTwice(v: nat, p: nat)
    requires p > 0
    ensures v / 2 / p == v / (2 * p)
  {
    var q := v / (2 * p);
    var r := v % (2 * p);
    assert v == q * (2 * p) + r;
    assert v / 2 == q * p + r / 2 && 0 <= r / 2 < p;
    DivUnique(v / 2, p, q, r / 2);
  }

  lemma MulAtLeast(k: int, p: nat)
    ensures k >= 1 ==> k * p >= p
    ensures k <= -1 ==> k * p + p <= 0
  {
  }

  lemma DivUnique(v: nat, p: nat, q: nat, r: nat)
    requires p > 0 && v == q * p + r && r < p
    ensures v / p == q
  {
    var d := v / p;
    assert v == d * p + v % p;
    assert (d - q) * p == d * p - q * p;
    MulAtLeast(d - q, p);
  }

  /** appendBits: an error unless len is within 0..31 and the value fits. */
  method AppendBits(bb: Bits, val: nat, len: int) returns (r: Option<Bits>)
    ensures r.Some? <==> 0 <= len <= 31 && val < Pow2(len)
    ensures r.Some? ==> r.value == bb + BitsOf(val, len)
  {
    if len < 0 || len > 31 || val / Pow2(len) != 0 {
      if 0 <= len <= 31 { DivUniqueZero(val, Pow2(len)); }
      return None;
    }
    DivUniqueZero(val, Pow2(len));
    var out := bb;
    var i := len - 1;
    while i >= 0
      invariant -1 <= i < len && out == bb + BitsOf(val, len)[..len - 1 - i]
    {
      BitByShift(val, len, len - 1 - i);
      out := out + [val / Pow2(i) % 2 != 0];
      i := i - 1;
    }
    assert BitsOf(val, len)[..len] == BitsOf(val, len);
    r := Some(out);
  }

  lemma DivUniqueZero(v: nat, p: nat)
    requires p > 0
    ensures v / p == 0 <==> v < p
  {
  }

  // ------------------------------------------------------------------ numeric mode

  predicate IsDigit(c: char) { '0' <= c <= '9' }

  function DigitOf(c: char): (r: nat)
    requires IsDigit(c)
    ensures r < 10
  {
    c as int - '0' as int
  }

  function CharOf(d: nat): (c: char)
    requires d < 10
    ensures IsDigit(c) && DigitOf(c) == d
  {
    ('0' as int + d) as char
  }

  predicate AllDigits(s: string) { forall i | 0 <= i < |s| :: IsDigit(s[i]) }

  function Number(s: string): nat
    requires AllDigits(s)
  {
    if s == "" then 0 else 10 * Number(s[..|s| - 1]) + DigitOf(s[|s| - 1])
  }

  /** Groups of three digits in ten bits; one or two left over in four or seven. */
  function NumericBits(s: string): Bits
    requires AllDigits(s)
  {
    if s == "" then []
    else if |s| < 3 then BitsOf(Number(s), 3 * |s| + 1)
    else BitsOf(Number(s[..3]), 10) + NumericBits(s[3..])
  }

  function Digits(n: nat, len: nat): (r: string)
    ensures |r| == len
  {
    if len == 0 then "" else Digits(n / 10, len - 1) + [CharOf(n % 10)]
  }

  lemma TenSplits(a: nat, d: nat)
    requires d < 10
    ensures (10 * a + d) / 10 == a && (10 * a + d) % 10 == d
  {
  }

  lemma DigitsSnoc(a: nat, d: nat, len: nat)
    requires d < 10
    ensures Digits(10 * a + d, len + 1) == Digits(a, len) + [CharOf(d)]
  {
    TenSplits(a, d);
    hide CharOf;
  }

  lemma {:induction false} DigitsOfNumber(s: string)
    requires AllDigits(s)
    ensures Digits(Number(s), |s|) == s
  {
    hide IsDigit, DigitOf, CharOf, Digits;
    if s == "" {
      NoDigits();
    } else {
      var init, c := s[..|s| - 1], s[|s| - 1];
      DigitsOfNumber(init);
      assert s == init + [c];
      CharOfDigit(c);
      DigitsSnoc(Number(init), DigitOf(c), |init|);
    }
  }

  lemma NoDigits()
    ensures Digits(0, 0) == ""
  {
  }

  lemma CharOfDigit(c: char)
    requires IsDigit(c)
    ensures CharOf(DigitOf(c)) == c
  {
  }

  function NumericSize(n: nat): nat {
    if n == 0 then 0 else if n < 3 then 3 * n + 1 else 10 + NumericSize(n - 3)
  }

  function ReadNumeric(b: Bits, n: nat): string
    requires |b| == NumericSize(n)
  {
    if n == 0 then ""
    else if n < 3 then Digits(Value(b), n)
    else Digits(Value(b[..10]), 3) + ReadNumeric(b[10..], n - 3)
  }

  lemma {:induction false} NumberBelow(s: string, n: nat)
    requires AllDigits(s) && n == |s|
    ensures Number(s) < if n == 0 then 1 else if n == 1 then 10 else if n == 2 then 100 else if n == 3 then 1000 else Number(s) + 1
  {
    hide IsDigit, DigitOf;
    if 0 < n <= 3 { NumberBelow(s[..n - 1], n - 1); }
  }

  lemma NumberFits(s: string)
    requires AllDigits(s) && 0 < |s| <= 3
    ensures Number(s) < Pow2(3 * |s| + 1)
  {
    NumberBelow(s, |s|);
    hide Number;
    assert Pow2(4) == 16 && Pow2(7) == 128 && Pow2(10) == 1024;
  }

  lemma {:induction false} NumericReadsBack(s: string)
    requires AllDigits(s)
    ensures |NumericBits(s)| == NumericSize(|s|) && ReadNumeric(NumericBits(s), |s|) == s
  {
    hide BitsOf, Value, Pow2, Number, Digits, IsDigit, DigitOf;
    if s == "" {
    } else if |s| < 3 {
      NumberFits(s);
      ValueOfBits(Number(s), 3 * |s| + 1);
      DigitsOfNumber(s);
    } else {
      var a, b := s[..3], s[3..];
      NumberFits(a);
      ValueOfBits(Number(a), 10);
      DigitsOfNumber(a);
      NumericReadsBack(b);
      var bits := NumericBits(s);
      assert bits[..10] == BitsOf(Number(a), 10) && bits[10..] == NumericBits(b);
      assert s == a + b;
    }
  }

  // ------------------------------------------------------------------ alphanumeric mode

  const DIGITS := "0123456789"

  const LETTERS := "ABCDEFGHIJKLMNOPQRSTUVWXYZ"

  /** The nine characters that are neither digit nor letter. */
  const SIGNS := " $%*+-./:"

  const CHARSET: string := DIGITS + LETTERS + SIGNS

  predicate InCharset(c: char) { c in CHARSET }

  /** strchr: where a character first stands. */
  function Find(c: char, from: nat): (r: nat)
    requires from <= |CHARSET| && c in CHARSET[from..]
    ensures from <= r < |CHARSET| && CHARSET[r] == c
    decreases |CHARSET| - from
  {
    if CHARSET[from] == c then from
    else
      assert CHARSET[from..] == [CHARSET[from]] + CHARSET[from + 1..];
      Find(c, from + 1)
  }

  function Code(c: char): (r: nat)
    requires InCharset(c)
    ensures r < 45 && CHARSET[r] == c
  {
    assert CHARSET[0..] == CHARSET;
    Find(c, 0)
  }

  predicate AllCharset(s: string) { forall i | 0 <= i < |s| :: InCharset(s[i]) }

  /** Pairs in eleven bits; one left over in six. */
  function AlphanumericBits(s: string): Bits
    requires AllCharset(s)
  {
    if s == "" then []
    else if |s| == 1 then BitsOf(Code(s[0]), 6)
    else BitsOf(45 * Code(s[0]) + Code(s[1]), 11) + AlphanumericBits(s[2..])
  }

  function AlphanumericSize(n: nat): nat {
    if n == 0 then 0 else if n == 1 then 6 else 11 + AlphanumericSize(n - 2)
  }

  function CharOfCode(n: nat): char { if n < 45 then CHARSET[n] else ' ' }

  function ReadAlphanumeric(b: Bits, n: nat): string
    requires |b| == AlphanumericSize(n)
  {
    if n == 0 then ""
    else if n == 1 then [CharOfCode(Value(b))]
    else [CharOfCode(Value(b[..11]) / 45), CharOfCode(Value(b[..11]) % 45)] + ReadAlphanumeric(b[11..], n - 2)
  }

  lemma PairSplits(a: nat, b: nat)
    requires a < 45 && b < 45
    ensures (45 * a + b) / 45 == a && (45 * a + b) % 45 == b && 45 * a + b < Pow2(11) && a < Pow2(6)
  {
    assert Pow2(6) == 64 && Pow2(11) == 2048;
  }

  lemma ReadPair(b: Bits, n: nat)
    requires n >= 2 && |b| == AlphanumericSize(n)
    ensures |b| == 11 + AlphanumericSize(n - 2)
    ensures ReadAlphanumeric(b, n) == [CharOfCode(Value(b[..11]) / 45), CharOfCode(Value(b[..11]) % 45)] + ReadAlphanumeric(b[11..], n - 2)
  {
    hide Value, CharOfCode;
  }

  lemma CodeReads(c: char)
    requires InCharset(c)
    ensures Code(c) < 45 && CharOfCode(Code(c)) == c
  {
  }

  lemma SizeGrows(n: nat)
    ensures AlphanumericSize(n + 2) == 11 + AlphanumericSize(n)
  {
  }

  /** Eleven bits for two characters, then the rest. */
  lemma PairReads(a: char, b: char, rest: Bits, n: nat)
    requires InCharset(a) && InCharset(b) && |rest| == AlphanumericSize(n)
    ensures var bits := BitsOf(45 * Code(a) + Code(b), 11) + rest;
      |bits| == AlphanumericSize(n + 2) && ReadAlphanumeric(bits, n + 2) == [a, b] + ReadAlphanumeric(rest, n)
  {
    hide Find, Code, BitsOf, Value, InCharset, AlphanumericSize, ReadAlphanumeric, CharOfCode;
    SizeGrows(n);
    CodeReads(a);
    CodeReads(b);
    PairSplits(Code(a), Code(b));
    var v := 45 * Code(a) + Code(b);
    ValueOfBits(v, 11);
    var bits := BitsOf(v, 11) + rest;
    assert bits[..11] == BitsOf(v, 11) && bits[11..] == rest;
    ReadPair(bits, n + 2);
  }

  lemma {:induction false} AlphanumericReadsBack(s: string)
    requires AllCharset(s)
    ensures |AlphanumericBits(s)| == AlphanumericSize(|s|) && ReadAlphanumeric(AlphanumericBits(s), |s|) == s
  {
    hide Find, Code, BitsOf, Value, InCharset, CharOfCode;
    if s == "" {
    } else if |s| == 1 {
      CodeReads(s[0]);
      PairSplits(Code(s[0]), 0);
      ValueOfBits(Code(s[0]), 6);
    } else {
      AlphanumericReadsBack(s[2..]);
      PairReads(s[0], s[1], AlphanumericBits(s[2..]), |s| - 2);
      hide ReadAlphanumeric, AlphanumericSize;
      assert s == [s[0], s[1]] + s[2..];
    }
  }

  // ------------------------------------------------------------------ byte mode

  predicate AllBytes(s: string) { forall i | 0 <= i < |s| :: s[i] as int < 256 }

  function ByteBits(s: string): Bits {
    if s == "" then [] else BitsOf(s[0] as nat, 8) + ByteBits(s[1..])
  }

  function ReadBytes(b: Bits, n: nat): string
    requires |b| == 8 * n
  {
    if n == 0 then "" else [if Value(b[..8]) < 256 then Value(b[..8]) as char else ' '] + ReadBytes(b[8..], n - 1)
  }

  lemma {:induction false} BytesReadBack(s: string)
    requires AllBytes(s)
    ensures |ByteBits(s)| == 8 * |s| && ReadBytes(ByteBits(s), |s|) == s
  {
    if s != "" {
      assert Pow2(8) == 256;
      ValueOfBits(s[0] as nat, 8);
      hide BitsOf, Value, Pow2;
      BytesReadBack(s[1..]);
      var bits := ByteBits(s);
      assert bits[..8] == BitsOf(s[0] as nat, 8) && bits[8..] == ByteBits(s[1..]);
      assert s == [s[0]] + s[1..];
    }
  }

  // ------------------------------------------------------------------ segments

  datatype Mode = Numeric | Alphanumeric | Byte

  function ModeBits(m: Mode): nat { match m case Numeric => 1 case Alphanumeric => 2 case Byte => 4 }

  /** The widths of a mode's count field in the three ranges of versions. */
  function CountWidths(m: Mode): (r: seq<nat>)
    ensures |r| == 3
  {
    match m case Numeric => [10, 12, 14] case Alphanumeric => [9, 11, 13] case Byte => [8, 16, 16]
  }

  function CountBits(m: Mode, version: nat): (r: nat)
    requires 1 <= version <= 40
    ensures 8 <= r <= 16
  {
    CountWidths(m)[(version + 7) / 17]
  }

  /** Table 3 of ISO/IEC 18004:2015: the ranges end at versions 9, 26 and 40. */
  lemma CountFields(version: nat)
    requires 1 <= version <= 40
    ensures CountBits(Numeric, version) == if version <= 9 then 10 else if version <= 26 then 12 else 14
    ensures CountBits(Alphanumeric, version) == if version <= 9 then 9 else if version <= 26 then 11 else 13
    ensures CountBits(Byte, version) == if version <= 9 then 8 else 16
  {
  }

  lemma DigitAt(i: nat)
    requires i < 10
    ensures CHARSET[i] as nat == '0' as nat + i
  {
    assert CHARSET[i] == DIGITS[i];
    if i == 0 {} else if i == 1 {} else if i == 2 {} else if i == 3 {} else if i == 4 {} else if i == 5 {}
    else if i == 6 {} else if i == 7 {} else if i == 8 {} else {}
  }

  lemma LetterAt(i: nat)
    requires 10 <= i < 36
    ensures CHARSET[i] as nat == 'A' as nat + (i - 10)
  {
    assert CHARSET[i] == LETTERS[i - 10];
    if i == 10 {} else if i == 11 {} else if i == 12 {} else if i == 13 {} else if i == 14 {} else if i == 15 {}
    else if i == 16 {} else if i == 17 {} else if i == 18 {} else if i == 19 {} else if i == 20 {} else if i == 21 {}
    else if i == 22 {} else if i == 23 {} else if i == 24 {} else if i == 25 {} else if i == 26 {} else if i == 27 {}
    else if i == 28 {} else if i == 29 {} else if i == 30 {} else if i == 31 {} else if i == 32 {} else if i == 33 {}
    else if i == 34 {} else {}
  }

  lemma SignAt(i: nat)
    requires 36 <= i < 45
    ensures CHARSET[i] == SIGNS[i - 36]
  {
  }

  lemma SignsAreSigns(i: nat)
    requires i < 9
    ensures !('0' <= SIGNS[i] <= '9') && !('A' <= SIGNS[i] <= 'Z')
  {
    if i == 0 {} else if i == 1 {} else if i == 2 {} else if i == 3 {} else if i == 4 {} else if i == 5 {}
    else if i == 6 {} else if i == 7 {} else {}
  }

  /** Table 5 of ISO/IEC 18004:2015: digits count for themselves, letters from ten on, then the signs in their order. */
  lemma CharValues(c: char)
    requires InCharset(c)
    ensures '0' <= c <= '9' ==> Code(c) == c as nat - '0' as nat
    ensures 'A' <= c <= 'Z' ==> Code(c) == c as nat - 'A' as nat + 10
    ensures !('0' <= c <= '9') && !('A' <= c <= 'Z') ==> 36 <= Code(c) && c == SIGNS[Code(c) - 36]
  {
    var i := Code(c);
    hide Find, Code;
    if i < 10 { DigitAt(i); } else if i < 36 { LetterAt(i); } else {
      SignAt(i);
      SignsAreSigns(i - 36);
    }
  }

  datatype Segment = Segment(mode: Mode, numChars: nat, data: Bits)

  predicate Encodable(m: Mode, s: string) {
    match m case Numeric => AllDigits(s) case Alphanumeric => AllCharset(s) case Byte => AllBytes(s)
  }

  function Payload(m: Mode, s: string): Bits
    requires Encodable(m, s)
  {
    match m case Numeric => NumericBits(s) case Alphanumeric => AlphanumericBits(s) case Byte => ByteBits(s)
  }

  function PayloadSize(m: Mode, n: nat): nat {
    match m case Numeric => NumericSize(n) case Alphanumeric => AlphanumericSize(n) case Byte => 8 * n
  }

  function ReadPayload(m: Mode, b: Bits, n: nat): string
    requires |b| == PayloadSize(m, n)
  {
    match m case Numeric => ReadNumeric(b, n) case Alphanumeric => ReadAlphanumeric(b, n) case Byte => ReadBytes(b, n)
  }

  /** Each mode's payload gives its text back. */
  lemma PayloadReadsBack(m: Mode, s: string)
    requires Encodable(m, s)
    ensures |Payload(m, s)| == PayloadSize(m, |s|) && ReadPayload(m, Payload(m, s), |s|) == s
  {
    match m
    case Numeric => NumericReadsBack(s);
    case Alphanumeric => AlphanumericReadsBack(s);
    case Byte => BytesReadBack(s);
  }

  function SegmentOf(m: Mode, s: string): Segment
    requires Encodable(m, s)
  {
    Segment(m, |s|, Payload(m, s))
  }

  /** Part way through makeNumeric: k digits read, the last `count` of them still in the accumulator. */
  predicate NumericSoFar(digits: string, k: nat, accum: nat, count: nat, bb: Bits) {
    count <= k <= |digits| && count < 3 && AllDigits(digits[..k]) && AllDigits(digits[k - count..k]) &&
    accum == Number(digits[k - count..k]) &&
    (AllDigits(digits) ==> bb + NumericBits(digits[k - count..]) == NumericBits(digits))
  }

  lemma NumberSnoc(s: string, c: char)
    requires AllDigits(s) && IsDigit(c)
    ensures AllDigits(s + [c]) && Number(s + [c]) == 10 * Number(s) + DigitOf(c)
  {
    assert (s + [c])[..|s|] == s;
  }

  lemma PrefixSnoc(s: string, k: nat)
    requires k < |s| && AllDigits(s[..k]) && IsDigit(s[k])
    ensures AllDigits(s[..k + 1])
  {
    assert s[..k + 1] == s[..k] + [s[k]];
  }

  lemma NumericMore(digits: string, k: nat, accum: nat, count: nat, bb: Bits)
    requires NumericSoFar(digits, k, accum, count, bb) && k < |digits| && IsDigit(digits[k]) && count < 2
    ensures NumericSoFar(digits, k + 1, accum * 10 + DigitOf(digits[k]), count + 1, bb)
  {
    hide NumericBits, IsDigit, DigitOf;
    PrefixSnoc(digits, k);
    NumberSnoc(digits[k - count..k], digits[k]);
    assert digits[k - count..k + 1] == digits[k - count..k] + [digits[k]];
  }

  lemma NumericGroup(digits: string, k: nat, accum: nat, bb: Bits)
    requires NumericSoFar(digits, k, accum, 2, bb) && k < |digits| && IsDigit(digits[k])
    ensures var n := accum * 10 + DigitOf(digits[k]);
      n < Pow2(10) && NumericSoFar(digits, k + 1, 0, 0, bb + BitsOf(n, 10))
  {
    hide NumericBits, IsDigit, DigitOf, Pow2, BitsOf;
    PrefixSnoc(digits, k);
    var group := digits[k - 2..k] + [digits[k]];
    NumberSnoc(digits[k - 2..k], digits[k]);
    NumberFits(group);
    assert digits[k + 1..k + 1] == "";
    if AllDigits(digits) {
      var rest := digits[k - 2..];
      assert rest[..3] == group && rest[3..] == digits[k + 1..];
      NumericSplit(rest);
      assert bb + (BitsOf(Number(group), 10) + NumericBits(digits[k + 1..])) == (bb + BitsOf(Number(group), 10)) + NumericBits(digits[k + 1..]);
    }
  }

  lemma NumericSplit(s: string)
    requires AllDigits(s) && |s| >= 3
    ensures NumericBits(s) == BitsOf(Number(s[..3]), 10) + NumericBits(s[3..])
  {
    hide BitsOf, Number;
  }

  lemma NumericRest(digits: string, accum: nat, count: nat, bb: Bits)
    requires NumericSoFar(digits, |digits|, accum, count, bb)
    ensures AllDigits(digits)
    ensures count > 0 ==> accum < Pow2(3 * count + 1)
    ensures NumericBits(digits) == if count > 0 then bb + BitsOf(accum, 3 * count + 1) else bb
  {
    hide Pow2, BitsOf, Number;
    assert digits[..|digits|] == digits;
    var rest := digits[|digits| - count..];
    assert rest == digits[|digits| - count..|digits|];
    if count > 0 { NumberFits(rest); }
  }

  lemma NumericStart(digits: string)
    ensures NumericSoFar(digits, 0, 0, 0, [])
  {
    assert digits[0..] == digits;
  }

  /** makeNumeric: the text up to its NUL; an error for anything but digits. */
  method MakeNumeric(digits: string) returns (r: Option<Segment>)
    ensures r.Some? <==> AllDigits(digits)
    ensures r.Some? ==> r.value == SegmentOf(Numeric, digits)
  {
    hide NumericSoFar, NumericBits, BitsOf, Pow2;
    var bb: Bits := [];
    var accumData: nat, accumCount: nat, charCount: nat := 0, 0, 0;
    NumericStart(digits);
    while charCount < |digits|
      invariant charCount <= |digits| && accumCount < 3 && NumericSoFar(digits, charCount, accumData, accumCount, bb)
    {
      var c := digits[charCount];
      if !IsDigit(c) { return None; }
      if accumCount == 2 {
        NumericGroup(digits, charCount, accumData, bb);
      } else {
        NumericMore(digits, charCount, accumData, accumCount, bb);
      }
      accumData := accumData * 10 + DigitOf(c);
      accumCount := accumCount + 1;
      charCount := charCount + 1;
      if accumCount == 3 {
        var added := AppendBits(bb, accumData, 10);
        bb := added.value;
        accumData, accumCount := 0, 0;
      }
    }
    NumericRest(digits, accumData, accumCount, bb);
    if accumCount > 0 {
      var added := AppendBits(bb, accumData, accumCount * 3 + 1);
      bb := added.value;
    }
    r := Some(Segment(Numeric, charCount, bb));
  }

  /** Part way through makeAlphanumeric. */
  predicate AlphanumericSoFar(text: string, k: nat, accum: nat, count: nat, bb: Bits) {
    count <= k <= |text| && count < 2 && AllCharset(text[..k]) && (count == 1 ==> InCharset(text[k - 1])) &&
    accum == (if count == 0 then 0 else Code(text[k - 1])) &&
    (AllCharset(text) ==> bb + AlphanumericBits(text[k - count..]) == AlphanumericBits(text))
  }

  lemma CharsetSnoc(s: string, k: nat)
    requires k < |s| && AllCharset(s[..k]) && InCharset(s[k])
    ensures AllCharset(s[..k + 1])
  {
    assert s[..k + 1] == s[..k] + [s[k]];
  }

  lemma AlphanumericNext(text: string, k: nat, accum: nat, count: nat, bb: Bits)
    requires AlphanumericSoFar(text, k, accum, count, bb) && k < |text| && InCharset(text[k])
    ensures var n := accum * 45 + Code(text[k]);
      if count == 0 then AlphanumericSoFar(text, k + 1, n, 1, bb)
      else n < Pow2(11) && AlphanumericSoFar(text, k + 1, 0, 0, bb + BitsOf(n, 11))
  {
    hide AlphanumericBits, InCharset, Code, Pow2, BitsOf;
    CharsetSnoc(text, k);
    if count == 1 {
      PairSplits(accum, Code(text[k]));
      if AllCharset(text) {
        var rest := text[k - 1..];
        assert rest[0] == text[k - 1] && rest[1] == text[k] && rest[2..] == text[k + 1..];
        AlphanumericSplit(rest);
        var pair := BitsOf(45 * accum + Code(text[k]), 11);
        assert bb + (pair + AlphanumericBits(text[k + 1..])) == (bb + pair) + AlphanumericBits(text[k + 1..]);
      }
    }
  }

  lemma AlphanumericSplit(s: string)
    requires AllCharset(s) && |s| >= 2
    ensures AlphanumericBits(s) == BitsOf(45 * Code(s[0]) + Code(s[1]), 11) + AlphanumericBits(s[2..])
  {
    hide BitsOf, Code, InCharset;
  }

  lemma AlphanumericRest(text: string, accum: nat, count: nat, bb: Bits)
    requires AlphanumericSoFar(text, |text|, accum, count, bb)
    ensures AllCharset(text)
    ensures count > 0 ==> accum < Pow2(6)
    ensures AlphanumericBits(text) == if count > 0 then bb + BitsOf(accum, 6) else bb
  {
    hide Pow2, BitsOf, Code, InCharset;
    assert text[..|text|] == text;
    var rest := text[|text| - count..];
    if count > 0 {
      assert rest[0] == text[|text| - 1];
      PairSplits(accum, 0);
    }
  }

  lemma AlphanumericStart(text: string)
    ensures AlphanumericSoFar(text, 0, 0, 0, [])
  {
    assert text[0..] == text;
  }

  method MakeAlphanumeric(text: string) returns (r: Option<Segment>)
    ensures r.Some? <==> AllCharset(text)
    ensures r.Some? ==> r.value == SegmentOf(Alphanumeric, text)
  {
    hide AlphanumericSoFar, AlphanumericBits, BitsOf, Pow2, Code, InCharset;
    var bb: Bits := [];
    var accumData: nat, accumCount: nat, charCount: nat := 0, 0, 0;
    AlphanumericStart(text);
    while charCount < |text|
      invariant charCount <= |text| && accumCount < 2 && AlphanumericSoFar(text, charCount, accumData, accumCount, bb)
    {
      var c := text[charCount];
      if !InCharset(c) { return None; }
      AlphanumericNext(text, charCount, accumData, accumCount, bb);
      accumData := accumData * 45 + Code(c);
      accumCount := accumCount + 1;
      charCount := charCount + 1;
      if accumCount == 2 {
        var added := AppendBits(bb, accumData, 11);
        bb := added.value;
        accumData, accumCount := 0, 0;
      }
    }
    AlphanumericRest(text, accumData, accumCount, bb);
    if accumCount > 0 {
      var added := AppendBits(bb, accumData, 6);
      bb := added.value;
    }
    r := Some(Segment(Alphanumeric, charCount, bb));
  }

  lemma ByteNext(data: string, k: nat, bb: Bits)
    requires k < |data| && AllBytes(data) && bb + ByteBits(data[k..]) == ByteBits(data)
    ensures (data[k] as nat) < Pow2(8) && bb + BitsOf(data[k] as nat, 8) + ByteBits(data[k + 1..]) == ByteBits(data)
  {
    ByteRange();
    hide BitsOf, Pow2;
    var rest := data[k..];
    assert rest[0] == data[k] && rest[1..] == data[k + 1..];
    assert bb + (BitsOf(data[k] as nat, 8) + ByteBits(data[k + 1..])) == bb + BitsOf(data[k] as nat, 8) + ByteBits(data[k + 1..]);
  }

  method MakeBytes(data: string) returns (r: Option<Segment>)
    requires AllBytes(data)
    ensures r.Some? <==> |data| <= 0x7fff_ffff
    ensures r.Some? ==> r.value == SegmentOf(Byte, data)
  {
    hide BitsOf, Pow2, ByteBits;
    if |data| > 0x7fff_ffff { return None; }
    var bb: Bits := [];
    var k := 0;
    assert data[0..] == data && bb + ByteBits(data) == ByteBits(data);
    while k < |data|
      invariant k <= |data| && bb + ByteBits(data[k..]) == ByteBits(data)
    {
      ByteNext(data, k, bb);
      var added := AppendBits(bb, data[k] as nat, 8);
      bb := added.value;
      k := k + 1;
    }
    NoBytes();
    assert data[k..] == "" && bb + [] == bb;
    r := Some(Segment(Byte, |data|, bb));
  }

  lemma ByteRange()
    ensures Pow2(8) == 256
  {
  }

  lemma NoBytes()
    ensures ByteBits("") == []
  {
  }

  /** The mode makeSegments picks: the narrowest that takes the whole text. */
  function BestMode(text: string): Mode {
    if AllDigits(text) then Numeric else if AllCharset(text) then Alphanumeric else Byte
  }

  method MakeSegments(text: string) returns (r: Option<seq<Segment>>)
    requires AllBytes(text)
    ensures r.Some? ==> r.value == if text == "" then [] else [SegmentOf(BestMode(text), text)]
    ensures r.None? ==> |text| > 0x7fff_ffff
  {
    if text == "" { return Some([]); }
    var made := MakeNumeric(text);
    if made.None? { made := MakeAlphanumeric(text); }
    if made.None? { made := MakeBytes(text); }
    if made.None? { return None; }
    r := Some([made.value]);
  }
}
