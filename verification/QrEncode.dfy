/** encodeSegments: the smallest version that fits, the data bit string, its padding and its packing into codewords. */
module QrEncode {
  import opened QrSegments
  import P = QrPlacement

  const INT_MAX := 0x7fff_ffff

  datatype Ecc = Low | Medium | Quartile | High

  /** Data codewords of a version and level: getNumDataCodewords, whose tables are a parameter here. */
  type Capacity = (nat, Ecc) -> nat

  /** The bits of one segment: mode, count, payload. */
  function Head(s: Segment, version: nat): Bits
    requires 1 <= version <= 40
  {
    BitsOf(ModeBits(s.mode), 4) + BitsOf(s.numChars, CountBits(s.mode, version))
  }

  function Written(segs: seq<Segment>, version: nat): Bits
    requires 1 <= version <= 40
  {
    if segs == [] then [] else Written(segs[..|segs| - 1], version) + Head(segs[|segs| - 1], version) + segs[|segs| - 1].data
  }

  /** Every count fits its field. */
  predicate CountsFit(segs: seq<Segment>, version: nat)
    requires 1 <= version <= 40
  {
    forall k | 0 <= k < |segs| :: segs[k].numChars < Pow2(CountBits(segs[k].mode, version))
  }

  lemma {:induction false} WrittenGrows(segs: seq<Segment>, k: nat, version: nat)
    requires 1 <= version <= 40 && k <= |segs|
    ensures |Written(segs[..k], version)| <= |Written(segs, version)|
  {
    if k < |segs| {
      WrittenGrows(segs[..|segs| - 1], k, version);
      assert segs[..|segs| - 1][..k] == segs[..k];
    } else {
      assert segs[..k] == segs;
    }
  }

  /** getTotalBits: just the number of bits written, when every count fits and the sum is an int. */
  method GetTotalBits(segs: seq<Segment>, version: nat) returns (r: Option<nat>)
    requires 1 <= version <= 40
    ensures r.Some? <==> CountsFit(segs, version) && |Written(segs, version)| <= INT_MAX
    ensures r.Some? ==> r.value == |Written(segs, version)|
  {
    hide Pow2, CountBits, ModeBits;
    var result := 0;
    var k := 0;
    while k < |segs|
      invariant k <= |segs| && CountsFit(segs[..k], version) && result == |Written(segs[..k], version)| <= INT_MAX
    {
      var seg := segs[k];
      var ccbits := CountBits(seg.mode, version);
      assert segs[..k + 1][..k] == segs[..k];
      assert |Written(segs[..k + 1], version)| == result + 4 + ccbits + |seg.data|;
      WrittenGrows(segs, k + 1, version);
      if seg.numChars >= Pow2(ccbits) || 4 + ccbits > INT_MAX - result { return None; }
      result := result + 4 + ccbits;
      if |seg.data| > INT_MAX - result { return None; }
      result := result + |seg.data|;
      k := k + 1;
    }
    assert segs[..k] == segs;
    r := Some(result);
  }

  // ------------------------------------------------------------------ padding

  function Zeros(n: nat): (r: Bits)
    ensures |r| == n && forall k | 0 <= k < n :: !r[k]
  {
    seq(n, i => false)
  }

  /** Alternating pad bytes 0xEC and 0x11, as far as n bytes. */
  function PadBytes(n: nat, odd: bool): (r: Bits)
    ensures |r| == 8 * n
  {
    if n == 0 then [] else BitsOf(if odd then 0x11 else 0xEC, 8) + PadBytes(n - 1, !odd)
  }

  function Terminator(used: nat, room: nat): nat
    requires used <= room
  {
    if room - used < 4 then room - used else 4
  }

  lemma Rounded(n: nat, room: nat)
    requires n <= room && room % 8 == 0
    ensures var m := n + (8 - n % 8) % 8; m % 8 == 0 && m <= room && (room - m) % 8 == 0 && 8 * ((room - m) / 8) == room - m
  {
  }

  /** What follows the segments. */
  function Padding(used: nat, room: nat): (r: Bits)
    requires used <= room && room % 8 == 0
    ensures used + |r| == room
  {
    var n := used + Terminator(used, room);
    var m := n + (8 - n % 8) % 8;
    Rounded(n, room);
    Zeros(Terminator(used, room)) + Zeros(m - n) + PadBytes((room - m) / 8, false)
  }

  method Pad(bits: Bits, room: nat) returns (bb: Bits)
    requires |bits| <= room && room % 8 == 0
    ensures bb == bits + Padding(|bits|, room) && |bb| == room
  {
    hide BitsOf, Pow2, PadBytes;
    PowersOfPad();
    var t := if room - |bits| < 4 then room - |bits| else 4;
    var added := AppendBits(bits, 0, t);
    ZeroBits(t);
    bb := added.value;
    var rest := (8 - |bb| % 8) % 8;
    Rounded(|bb|, room);
    added := AppendBits(bb, 0, rest);
    ZeroBits(rest);
    bb := added.value;
    bb := FillUp(bb, room);
  }

  lemma PowersOfPad()
    ensures Pow2(8) == 256 && forall n: nat :: 0 < Pow2(n)
  {
  }

  /** The pad bytes, up to the room there is. */
  method FillUp(from: Bits, room: nat) returns (bb: Bits)
    requires |from| <= room && room % 8 == 0 && |from| % 8 == 0
    ensures bb == from + PadBytes((room - |from|) / 8, false) && |bb| == room
  {
    hide BitsOf, Pow2, PadBytes;
    PowersOfPad();
    bb := from;
    var padByte := 0xEC;
    ghost var n: nat := (room - |from|) / 8;
    ghost var left: nat := n;
    PadStep(0, false);
    PadStep(0, true);
    while |bb| < room
      invariant |bb| + 8 * left == room && (padByte == 0xEC || padByte == 0x11)
      invariant bb + PadBytes(left, padByte == 0x11) == from + PadBytes(n, false)
    {
      PadStep(left, padByte == 0x11);
      var added := AppendBits(bb, padByte, 8);
      assert bb + (BitsOf(padByte, 8) + PadBytes(left - 1, padByte != 0x11)) == added.value + PadBytes(left - 1, padByte != 0x11);
      bb := added.value;
      left := left - 1;
      padByte := if padByte == 0xEC then 0x11 else 0xEC;
    }
  }

  lemma PadStep(k: nat, odd: bool)
    ensures PadBytes(k, odd) == if k == 0 then [] else BitsOf(if odd then 0x11 else 0xEC, 8) + PadBytes(k - 1, !odd)
  {
    hide BitsOf;
  }

  lemma {:induction false} ZeroBits(n: nat)
    ensures BitsOf(0, n) == Zeros(n)
  {
    if n > 0 { ZeroBits(n - 1); }
  }

  // ------------------------------------------------------------------ reading it back

  type Piece = (Mode, string)

  function ModeOf(n: nat): Option<Mode> {
    if n == 1 then Some(Numeric) else if n == 2 then Some(Alphanumeric) else if n == 4 then Some(Byte) else None
  }

  /** A decoder: segments until a terminator, or until nothing sensible is left. */
  function Decode(b: Bits, version: nat): seq<Piece>
    requires 1 <= version <= 40
    decreases |b|
  {
    if |b| < 4 then []
    else
      var mode := ModeOf(Value(b[..4]));
      if mode.None? then []
      else
        var at := 4 + CountBits(mode.value, version);
        if |b| < at then []
        else
          var n := Value(b[4..at]);
          var end := at + PayloadSize(mode.value, n);
          if |b| < end then [] else [(mode.value, ReadPayload(mode.value, b[at..end], n))] + Decode(b[end..], version)
  }

  predicate AllEncodable(ps: seq<Piece>) { forall k | 0 <= k < |ps| :: Encodable(ps[k].0, ps[k].1) }

  function Segments(ps: seq<Piece>): (r: seq<Segment>)
    requires AllEncodable(ps)
    ensures |r| == |ps|
  {
    seq(|ps|, k requires 0 <= k < |ps| => SegmentOf(ps[k].0, ps[k].1))
  }

  lemma DecodeOne(m: Mode, s: string, version: nat, rest: Bits)
    requires 1 <= version <= 40 && Encodable(m, s) && |s| < Pow2(CountBits(m, version))
    ensures var seg := SegmentOf(m, s);
      Decode(Head(seg, version) + seg.data + rest, version) == [(m, s)] + Decode(rest, version)
  {
    hide Encodable, Payload, ReadPayload, PayloadSize, BitsOf, Value;
    var seg := SegmentOf(m, s);
    var b := Head(seg, version) + seg.data + rest;
    var at := 4 + CountBits(m, version);
    PayloadReadsBack(m, s);
    assert Pow2(4) == 16;
    ValueOfBits(ModeBits(m), 4);
    ValueOfBits(|s|, CountBits(m, version));
    assert b[..4] == BitsOf(ModeBits(m), 4) && b[4..at] == BitsOf(|s|, CountBits(m, version));
    var end := at + |seg.data|;
    assert b[at..end] == seg.data && b[end..] == rest;
  }

  lemma SegmentsSnoc(init: seq<Piece>, p: Piece, version: nat, rest: Bits)
    requires 1 <= version <= 40 && AllEncodable(init + [p])
    ensures AllEncodable(init) && Encodable(p.0, p.1) && Segments(init + [p]) == Segments(init) + [SegmentOf(p.0, p.1)]
    ensures var seg := SegmentOf(p.0, p.1);
      Written(Segments(init + [p]), version) + rest == Written(Segments(init), version) + (Head(seg, version) + seg.data + rest)
  {
    hide Encodable, Head, SegmentOf;
    assert (init + [p])[|init|] == p && forall k | 0 <= k < |init| :: (init + [p])[k] == init[k];
    var seg := SegmentOf(p.0, p.1);
    assert Segments(init + [p]) == Segments(init) + [seg];
    assert Segments(init + [p])[..|init|] == Segments(init);
  }

  /** Segments written, then a terminator or fewer than four bits, are read back as they were. */
  lemma {:induction false} DecodeAll(ps: seq<Piece>, version: nat, rest: Bits, tail: seq<Piece>)
    requires 1 <= version <= 40 && AllEncodable(ps) && CountsFit(Segments(ps), version) && Decode(rest, version) == tail
    ensures Decode(Written(Segments(ps), version) + rest, version) == ps + tail
    decreases |ps|
  {
    hide Decode, Encodable, Head, Pow2, SegmentOf, Payload, CountBits;
    if ps == [] {
      assert Written(Segments(ps), version) + rest == rest && ps + tail == tail;
    } else {
      hide Written;
      var init, p := ps[..|ps| - 1], ps[|ps| - 1];
      assert ps == init + [p];
      SegmentsSnoc(init, p, version, rest);
      CountOf(p.0, p.1, Segments(ps), |init|, version);
      DecodeOne(p.0, p.1, version, rest);
      var seg := SegmentOf(p.0, p.1);
      CountsPrefix(Segments(init), seg, version);
      DecodeAll(init, version, Head(seg, version) + seg.data + rest, [p] + tail);
      assert init + ([p] + tail) == ps + tail;
    }
  }

  lemma CountOf(m: Mode, s: string, segs: seq<Segment>, k: nat, version: nat)
    requires 1 <= version <= 40 && CountsFit(segs, version) && k < |segs| && Encodable(m, s) && segs[k] == SegmentOf(m, s)
    ensures |s| < Pow2(CountBits(m, version))
  {
  }

  lemma CountsPrefix(segs: seq<Segment>, seg: Segment, version: nat)
    requires 1 <= version <= 40 && CountsFit(segs + [seg], version)
    ensures CountsFit(segs, version)
  {
    assert forall k | 0 <= k < |segs| :: (segs + [seg])[k] == segs[k];
  }

  lemma PaddingStops(used: nat, room: nat, version: nat)
    requires used <= room && room % 8 == 0 && 1 <= version <= 40
    ensures Decode(Padding(used, room), version) == []
  {
    var p := Padding(used, room);
    if |p| >= 4 {
      assert p[..4] == Zeros(4);
      assert Value(Zeros(4)) == 0 by { ZeroBits(4); ValueOfBits(0, 4); }
    }
  }

  // ------------------------------------------------------------------ packing into bytes

  function Mask(j: nat): bv8
    requires j < 8
  {
    if j == 0 then 0x80 else if j == 1 then 0x40 else if j == 2 then 0x20 else if j == 3 then 0x10
    else if j == 4 then 0x08 else if j == 5 then 0x04 else if j == 6 then 0x02 else 0x01
  }

  predicate Bit(b: bv8, j: nat)
    requires j < 8
  {
    b & Mask(j) != 0
  }

  lemma ShiftIsMask(j: nat)
    requires j < 8
    ensures (1 as bv8) << (7 - j) == Mask(j)
  {
    if j == 0 {} else if j == 1 {} else if j == 2 {} else if j == 3 {} else if j == 4 {} else if j == 5 {} else if j == 6 {} else {}
  }

  lemma BitIsShift(b: bv8, j: nat)
    requires j < 8
    ensures ((b >> (7 - j)) & 1 != 0) == Bit(b, j)
  {
    if j == 0 {} else if j == 1 {} else if j == 2 {} else if j == 3 {} else if j == 4 {} else if j == 5 {} else if j == 6 {} else {}
  }

  /** Or-ing in one bit changes that bit alone. */
  lemma OrSets(b: bv8, j: nat, t: nat)
    requires j < 8 && t < 8
    ensures Bit(b | Mask(j), t) == (t == j || Bit(b, t))
  {
    OrMask(b, Mask(j), Mask(t));
    MasksDiffer(j, t);
  }

  lemma OrMask(b: bv8, m: bv8, n: bv8)
    ensures m & n == 0 ==> (b | m) & n == b & n
    ensures m == n != 0 ==> (b | m) & n != 0
  {
  }

  lemma MasksDiffer(j: nat, t: nat)
    requires j < 8 && t < 8
    ensures Mask(j) != 0 && (j != t ==> Mask(j) & Mask(t) == 0)
  {
    if j == 0 {} else if j == 1 {} else if j == 2 {} else if j == 3 {} else if j == 4 {} else if j == 5 {} else if j == 6 {} else {}
  }

  predicate Packed(data: P.Bytes, bits: Bits, n: nat)
    requires n <= |bits| == 8 * |data|
  {
    forall i | 0 <= i < |bits| :: Bit(data[i / 8], i % 8) == (i < n && bits[i])
  }

  lemma PackStep(data: P.Bytes, bits: Bits, n: nat)
    requires n < |bits| == 8 * |data| && Packed(data, bits, n)
    ensures Packed(if bits[n] then data[n / 8 := data[n / 8] | Mask(n % 8)] else data, bits, n + 1)
  {
    hide Bit, Mask;
    var next := if bits[n] then data[n / 8 := data[n / 8] | Mask(n % 8)] else data;
    forall i | 0 <= i < |bits| ensures Bit(next[i / 8], i % 8) == (i < n + 1 && bits[i]) {
      OrSets(data[n / 8], n % 8, i % 8);
      if i / 8 == n / 8 && i % 8 == n % 8 { assert i == n; }
    }
  }

  /** Bits into bytes, most significant first. */
  method Pack(bits: Bits) returns (data: P.Bytes)
    requires |bits| % 8 == 0
    ensures 8 * |data| == |bits| && forall i | 0 <= i < |bits| :: P.BitAt(data, i) == bits[i]
  {
    hide Bit, Mask, P.BitAt, Packed;
    data := seq(|bits| / 8, i => 0);
    NothingPacked(data, bits);
    var i := 0;
    while i < |bits|
      invariant i <= |bits| == 8 * |data| && Packed(data, bits, i)
    {
      PackStep(data, bits, i);
      ShiftIsMask(i % 8);
      OrZero(data[i / 8]);
      if !bits[i] { assert data[i / 8 := data[i / 8]] == data; }
      data := data[i / 8 := data[i / 8] | (if bits[i] then 1 << (7 - i % 8) else 0)];
      i := i + 1;
    }
    AllPacked(data, bits);
  }

  lemma AllPacked(data: P.Bytes, bits: Bits)
    requires |bits| == 8 * |data| && Packed(data, bits, |bits|)
    ensures forall i | 0 <= i < |bits| :: P.BitAt(data, i) == bits[i]
  {
    hide Bit, Mask, P.BitAt;
    forall k | 0 <= k < |bits| ensures P.BitAt(data, k) == bits[k] { BitAtIs(data, k); }
  }

  lemma OrZero(b: bv8)
    ensures b | 0 == b
  {
  }

  lemma NothingPacked(data: P.Bytes, bits: Bits)
    requires |bits| == 8 * |data| && forall i | 0 <= i < |data| :: data[i] == 0
    ensures Packed(data, bits, 0)
  {
    hide Mask;
    forall i | 0 <= i < |bits| ensures !Bit(data[i / 8], i % 8) { AndZero(Mask(i % 8)); }
  }

  lemma AndZero(b: bv8)
    ensures 0 & b == 0
  {
  }

  lemma BitAtIs(data: P.Bytes, i: nat)
    requires i < 8 * |data|
    ensures P.BitAt(data, i) == Bit(data[i / 8], i % 8)
  {
    hide Bit;
    BitIsShift(data[i / 8], i % 8);
  }

  // ------------------------------------------------------------------ the whole of encodeSegments

  datatype Outcome =
    | Encoded(version: nat, ecl: Ecc, codewords: P.Bytes)
    | InvalidArgument
    | DataTooLong

  /** Whether the segments go into a version at a level. */
  predicate FitsIn(segs: seq<Segment>, version: nat, ecl: Ecc, cap: Capacity)
    requires 1 <= version <= 40
  {
    CountsFit(segs, version) && |Written(segs, version)| <= INT_MAX && |Written(segs, version)| <= 8 * cap(version, ecl)
  }

  /** The highest level above low that the segments go into, or else the level asked for. */
  function Raised(segs: seq<Segment>, version: nat, ecl: Ecc, cap: Capacity): Ecc
    requires 1 <= version <= 40
  {
    if FitsIn(segs, version, High, cap) then High
    else if FitsIn(segs, version, Quartile, cap) then Quartile
    else if FitsIn(segs, version, Medium, cap) then Medium
    else ecl
  }

  lemma FitsCounts(segs: seq<Segment>, version: nat, ecl: Ecc, cap: Capacity)
    requires 1 <= version <= 40 && FitsIn(segs, version, ecl, cap)
    ensures CountsFit(segs, version)
  {
  }

  lemma FitsBits(segs: seq<Segment>, version: nat, ecl: Ecc, cap: Capacity, bits: Option<nat>)
    requires 1 <= version <= 40
    requires bits.Some? <==> CountsFit(segs, version) && |Written(segs, version)| <= INT_MAX
    requires bits.Some? ==> bits.value == |Written(segs, version)|
    ensures FitsIn(segs, version, ecl, cap) <==> bits.Some? && bits.value <= cap(version, ecl) * 8
  {
    hide CountsFit, Written;
  }

  method Choose(segs: seq<Segment>, ecl0: Ecc, minVersion: nat, maxVersion: nat, boost: bool, cap: Capacity)
      returns (found: bool, version: nat, ecl: Ecc)
    requires 1 <= minVersion <= maxVersion <= 40
    ensures found <==> exists v | minVersion <= v <= maxVersion :: FitsIn(segs, v, ecl0, cap)
    ensures found ==> minVersion <= version <= maxVersion && FitsIn(segs, version, ecl, cap) && FitsIn(segs, version, ecl0, cap)
    ensures found ==> forall v | minVersion <= v < version :: !FitsIn(segs, v, ecl0, cap)
    ensures found && !boost ==> ecl == ecl0
    ensures found && boost ==> ecl == Raised(segs, version, ecl0, cap)
  {
    hide FitsIn;
    version, ecl, found := minVersion, ecl0, false;
    var used := 0;
    while true
      invariant minVersion <= version <= maxVersion && ecl == ecl0 && !found
      invariant forall v | minVersion <= v < version :: !FitsIn(segs, v, ecl0, cap)
      decreases maxVersion - version
    {
      var bits := GetTotalBits(segs, version);
      forall e ensures FitsIn(segs, version, e, cap) <==> bits.Some? && bits.value <= cap(version, e) * 8 {
        FitsBits(segs, version, e, cap, bits);
      }
      if bits.Some? && bits.value <= cap(version, ecl) * 8 {
        used := bits.value;
        assert FitsIn(segs, version, ecl0, cap);
        break;
      }
      if version >= maxVersion { return false, version, ecl; }
      version := version + 1;
    }
    found := true;
    if boost {
      if used <= cap(version, Medium) * 8 { ecl := Medium; }
      if used <= cap(version, Quartile) * 8 { ecl := Quartile; }
      if used <= cap(version, High) * 8 { ecl := High; }
    }
  }

  method Concatenate(segs: seq<Segment>, version: nat) returns (bb: Bits)
    requires 1 <= version <= 40 && CountsFit(segs, version)
    ensures bb == Written(segs, version)
  {
    hide BitsOf, Pow2;
    bb := [];
    var k := 0;
    while k < |segs|
      invariant k <= |segs| && bb == Written(segs[..k], version)
    {
      var seg := segs[k];
      assert segs[..k + 1][..k] == segs[..k];
      ModeFits(seg.mode);
      var added := AppendBits(bb, ModeBits(seg.mode), 4);
      added := AppendBits(added.value, seg.numChars, CountBits(seg.mode, version));
      assert added.value == bb + Head(seg, version);
      bb := added.value + seg.data;
      k := k + 1;
    }
    assert segs[..k] == segs;
  }

  lemma ModeFits(m: Mode)
    ensures ModeBits(m) < Pow2(4)
  {
    assert Pow2(4) == 16;
  }

  /** encodeSegments up to the constructor: an error for bad arguments or data that fits no version in the range; otherwise
      codewords that fill the smallest version that fits, and start with the segments' bits. */
  method EncodeSegments(segs: seq<Segment>, ecl: Ecc, minVersion: int, maxVersion: int, mask: int, boost: bool, cap: Capacity)
      returns (r: Outcome)
    ensures r.InvalidArgument? <==> !(1 <= minVersion <= maxVersion <= 40) || mask < -1 || mask > 7
    ensures r.DataTooLong? ==> forall v: nat | minVersion <= v <= maxVersion :: !FitsIn(segs, v, ecl, cap)
    ensures r.Encoded? ==> minVersion <= r.version <= maxVersion && FitsIn(segs, r.version, ecl, cap)
    ensures r.Encoded? ==> r.ecl == if boost then Raised(segs, r.version, ecl, cap) else ecl
    ensures r.Encoded? ==> FitsIn(segs, r.version, r.ecl, cap) && |r.codewords| == cap(r.version, r.ecl)
    ensures r.Encoded? ==> forall v: nat | minVersion <= v < r.version :: !FitsIn(segs, v, ecl, cap)
    ensures r.Encoded? ==> Carries(r.codewords, segs, r.version)
  {
    if !(1 <= minVersion <= maxVersion <= 40) || mask < -1 || mask > 7 { return InvalidArgument; }
    var found, version, level := Choose(segs, ecl, minVersion, maxVersion, boost, cap);
    if !found { return DataTooLong; }
    var bits := Concatenate(segs, version);
    var room := cap(version, level) * 8;
    var bb := Pad(bits, room);
    var codewords := Pack(bb);
    r := Encoded(version, level, codewords);
  }

  /** The bits of the codewords are the segments' followed by padding. */
  ghost predicate Carries(codewords: P.Bytes, segs: seq<Segment>, version: nat)
    requires 1 <= version <= 40
  {
    var bits := Written(segs, version);
    |bits| <= 8 * |codewords| && Unpacked(codewords) == bits + Padding(|bits|, 8 * |codewords|)
  }

  function Unpacked(data: P.Bytes): (r: Bits)
    ensures |r| == 8 * |data|
  {
    seq(8 * |data|, i requires 0 <= i < 8 * |data| => P.BitAt(data, i))
  }

  /** Reading the codewords of any encoding back gives the pieces of text that went in, and nothing else. */
  lemma CodewordsReadBack(codewords: P.Bytes, ps: seq<Piece>, version: nat)
    requires 1 <= version <= 40 && AllEncodable(ps) && CountsFit(Segments(ps), version)
    requires Carries(codewords, Segments(ps), version)
    ensures Decode(Unpacked(codewords), version) == ps
  {
    hide Decode, AllEncodable, Unpacked, Padding, Written, Segments, CountsFit;
    var bits := Written(Segments(ps), version);
    PaddingStops(|bits|, 8 * |codewords|, version);
    DecodeAll(ps, version, Padding(|bits|, 8 * |codewords|), []);
    assert ps + [] == ps;
  }
}
