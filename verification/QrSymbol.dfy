/** The constructor: from data codewords to a finished symbol, and back. */
module QrSymbol {
  import opened QrField
  import opened ReedSolomon
  import opened QrBlocks
  import opened QrPlacement
  import F = QrFormat
  import E = QrEncode

  lemma BytesEqual(a: Poly, b: Poly)
    requires |a| == |b| && forall k | 0 <= k < 8 * |a| :: BitAt(a, k) == BitAt(b, k)
    ensures a == b
  {
    hide BitAt;
    forall i | 0 <= i < |a| ensures a[i] == b[i] {
      forall j | 0 <= j < 8 ensures E.Bit(a[i], j) == E.Bit(b[i], j) {
        E.BitAtIs(a, 8 * i + j);
        E.BitAtIs(b, 8 * i + j);
        assert BitAt(a, 8 * i + j) == BitAt(b, 8 * i + j);
      }
      ByteIsBits(a[i], b[i]);
    }
  }

  lemma ByteIsBits(a: bv8, b: bv8)
    requires forall j | 0 <= j < 8 :: E.Bit(a, j) == E.Bit(b, j)
    ensures a == b
  {
    assert E.Bit(a, 0) == E.Bit(b, 0) && E.Bit(a, 1) == E.Bit(b, 1) && E.Bit(a, 2) == E.Bit(b, 2) && E.Bit(a, 3) == E.Bit(b, 3);
    assert E.Bit(a, 4) == E.Bit(b, 4) && E.Bit(a, 5) == E.Bit(b, 5) && E.Bit(a, 6) == E.Bit(b, 6) && E.Bit(a, 7) == E.Bit(b, 7);
    assert E.Mask(0) == 0x80 && E.Mask(1) == 0x40 && E.Mask(2) == 0x20 && E.Mask(3) == 0x10;
    assert E.Mask(4) == 0x08 && E.Mask(5) == 0x04 && E.Mask(6) == 0x02 && E.Mask(7) == 0x01;
  }

  /** A symbol whose unmasked scan starts with some bytes' bits. */
  ghost predicate Scans(g: Grid, fn: Grid, size: nat, mask: nat, bytes: Poly)
    requires SizeOk(size) && GridOk(g, size) && GridOk(fn, size) && mask < 8
  {
    var read := ReadAll(Masked(g, fn, size, mask), fn, size);
    8 * |bytes| <= |read| && forall k | 0 <= k < 8 * |bytes| :: read[k] == BitAt(bytes, k)
  }

  /** Whatever bytes a reader scans from the unmasked symbol, de-interleaving them gives the data codewords. */
  lemma DataRecovered(l: Layout, data: Poly, divisor: Poly, all: Poly, back: Poly, g: Grid, fn: Grid, size: nat, mask: nat)
    requires SizeOk(size) && GridOk(g, size) && GridOk(fn, size) && mask < 8
    requires Fits(l, data) && |divisor| == l.ecc && |all| == l.raw && Interleaved(l, data, divisor, l.Rows() + 1 + l.ecc, all)
    requires Scans(g, fn, size, mask, all) && Scans(g, fn, size, mask, back) && |back| == l.raw
    ensures ReadData(l, back, l.blocks) == data
  {
    hide BitAt, Masked, ReadAll, Interleaved;
    BytesEqual(all, back);
    ReadDataBack(l, data, divisor, all, l.blocks);
    assert data[..l.Start(l.blocks)] == data;
  }

  /** Both copies of the format word on the symbol name its error correction level and its mask. */
  ghost predicate Tells(g: Grid, size: nat, level: nat, mask: nat)
    requires SizeOk(size) && GridOk(g, size) && level < 4 && mask < 8
  {
    exists word: seq<bool> :: |word| == 15 && F.WordNames(word, level, mask) && ShowsWord(g, size, word)
  }

  /** Table 12 of ISO/IEC 18004:2015: the levels that 00, 01, 10 and 11 stand for. */
  const LEVELS: seq<E.Ecc> := [E.Medium, E.Low, E.High, E.Quartile]

  /** getFormatBits. */
  function LevelBits(e: E.Ecc): (r: nat)
    ensures r < 4 && LEVELS[r] == e
  {
    match e case Low => 1 case Medium => 0 case Quartile => 3 case High => 2
  }

  /** The constructor after its function patterns are drawn: refuses data of the wrong size, else finishes a symbol that
      scans back to all its codewords. Enough free modules are the caller's business; the tables see to it. */
  method Construct(qr: QrCode, l: Layout, data: Poly, level: nat, asked: int, penalty: Grid -> int)
      returns (ok: bool, mask: nat, ghost all: Poly, ghost divisor: Poly)
    requires qr.Valid() && FormatReserved(qr.isFunction, qr.size) && l.Valid()
    requires 8 * l.raw <= |ReadAll(qr.modules, qr.isFunction, qr.size)|
    requires level < 4 && -1 <= asked <= 7 && forall g :: penalty(g) < LONG_MAX
    modifies qr
    ensures ok <==> |data| == l.raw - l.blocks * l.ecc
    ensures qr.Valid() && qr.isFunction == old(qr.isFunction) && mask < 8
    ensures ok ==> Fits(l, data) && [1] + divisor == Generator(l.ecc) && |divisor| == l.ecc && |all| == l.raw
    ensures ok ==> Interleaved(l, data, divisor, l.Rows() + 1 + l.ecc, all) && Scans(qr.modules, qr.isFunction, qr.size, mask, all)
    ensures ok ==> Tells(qr.modules, qr.size, level, mask)
    ensures ok && asked >= 0 ==> mask == asked
  {
    hide BitAt, Masked, ReadAll, Interleaved, Formatted, Finished, FormatCells, Best, ShowsWord, Flipped, F.WordNames;
    all, mask := [], 0;
    var r;
    r, divisor := AddEccAndInterleave(l, data);
    ok := r.Some?;
    if ok {
      all := r.value;
      qr.DrawCodewords(r.value);
      ghost var drawn := qr.modules;
      var words := F.FormatWords(level);
      mask := qr.Finish(asked, words, penalty);
      FinishedReadsBack(drawn, qr.isFunction, qr.size, mask, words);
    }
  }

  // ------------------------------------------------------------------ from text to symbol and back

  /** The blank symbol of a version, and how its codewords are split into blocks at a level. */
  datatype Blank = Blank(size: nat, modules: Grid, isFunction: Grid, layout: Layout)

  /** What the version tables and the drawing of function patterns must give: a reserved place for the format bits, room
      for every codeword, and as many data codewords as the capacity says. */
  ghost predicate BlankOk(b: Blank, capacity: nat)
  {
    && SizeOk(b.size) && GridOk(b.modules, b.size) && GridOk(b.isFunction, b.size) && FormatReserved(b.isFunction, b.size)
    && b.layout.Valid() && 8 * b.layout.raw <= |ReadAll(b.modules, b.isFunction, b.size)|
    && capacity == b.layout.raw - b.layout.blocks * b.layout.ecc
  }

  /** A symbol that says `ps` to every reader: its codewords can be scanned off it, and whoever
      does reads exactly these pieces of text. */
  ghost predicate Says(g: Grid, b: Blank, mask: nat, version: nat, ps: seq<E.Piece>)
    requires SizeOk(b.size) && GridOk(g, b.size) && GridOk(b.isFunction, b.size) && mask < 8 && b.layout.Valid() && 1 <= version <= 40
  {
    && (exists all: Poly :: |all| == b.layout.raw && Scans(g, b.isFunction, b.size, mask, all))
    && forall back: Poly | |back| == b.layout.raw && Scans(g, b.isFunction, b.size, mask, back) ::
      E.Decode(E.Unpacked(ReadData(b.layout, back, b.layout.blocks)), version) == ps
  }

  /** encodeSegments with the constructor behind it: whatever is not refused ends as a symbol that reads back as the very
      pieces of text that were put in. */
  method EncodeText(ps: seq<E.Piece>, ecl: E.Ecc, minVersion: int, maxVersion: int, asked: int, boost: bool, cap: E.Capacity,
      blank: (nat, E.Ecc) -> Blank, penalty: Grid -> int)
      returns (r: E.Outcome, qr: QrCode?, mask: nat)
    requires E.AllEncodable(ps)
    requires forall v, e | 1 <= v <= 40 :: BlankOk(blank(v, e), cap(v, e))
    requires forall g :: penalty(g) < LONG_MAX
    ensures qr != null <==> r.Encoded?
    ensures r.InvalidArgument? <==> !(1 <= minVersion <= maxVersion <= 40) || asked < -1 || asked > 7
    ensures r.DataTooLong? ==> forall v: nat | minVersion <= v <= maxVersion :: !E.FitsIn(E.Segments(ps), v, ecl, cap)
    ensures qr != null ==> var b := blank(r.version, r.ecl);
      && 1 <= r.version <= 40 && BlankOk(b, cap(r.version, r.ecl)) && qr.Valid() && qr.size == b.size && qr.isFunction == b.isFunction
      && mask < 8 && (asked >= 0 ==> mask == asked)
      && Tells(qr.modules, qr.size, LevelBits(r.ecl), mask) && Says(qr.modules, b, mask, r.version, ps)
  {
    hide ReadAll, GridOk, FormatReserved, Scans, Interleaved, Says, Woven, CarriesText, E.Carries, E.FitsIn, E.Segments, E.AllEncodable, Fits, SizeOk, Generator, Tells;
    qr, mask := null, 0;
    r := E.EncodeSegments(E.Segments(ps), ecl, minVersion, maxVersion, asked, boost, cap);
    if r.Encoded? {
      var b := blank(r.version, r.ecl);
      qr := new QrCode(b.size, b.modules, b.isFunction);
      var ok;
      ghost var all, divisor;
      ok, mask, all, divisor := Construct(qr, b.layout, r.codewords, LevelBits(r.ecl), asked, penalty);
      EncodedCarries(ps, r, ecl, cap);
      IsWoven(b.layout, r.codewords, divisor, all);
      SymbolSays(b, r.codewords, divisor, all, qr.modules, mask, r.version, ps);
    }
  }

  ghost predicate Woven(l: Layout, data: Poly, divisor: Poly, all: Poly)
  {
    Fits(l, data) && |divisor| == l.ecc && |all| == l.raw && Interleaved(l, data, divisor, l.Rows() + 1 + l.ecc, all)
  }

  ghost predicate CarriesText(data: Poly, ps: seq<E.Piece>, version: nat)
  {
    1 <= version <= 40 && E.AllEncodable(ps) && E.CountsFit(E.Segments(ps), version) && E.Carries(data, E.Segments(ps), version)
  }

  lemma IsWoven(l: Layout, data: Poly, divisor: Poly, all: Poly)
    requires Fits(l, data) && |divisor| == l.ecc && |all| == l.raw && Interleaved(l, data, divisor, l.Rows() + 1 + l.ecc, all)
    ensures Woven(l, data, divisor, all)
  {
  }

  lemma EncodedCarries(ps: seq<E.Piece>, r: E.Outcome, ecl: E.Ecc, cap: E.Capacity)
    requires E.AllEncodable(ps) && r.Encoded? && 1 <= r.version <= 40
    requires E.FitsIn(E.Segments(ps), r.version, ecl, cap) && E.Carries(r.codewords, E.Segments(ps), r.version)
    ensures CarriesText(r.codewords, ps, r.version)
  {
    hide E.Carries, E.AllEncodable, E.Segments;
  }

  lemma ReaderReads(b: Blank, data: Poly, divisor: Poly, all: Poly, g: Grid, mask: nat, version: nat, ps: seq<E.Piece>, back: Poly)
    requires SizeOk(b.size) && GridOk(g, b.size) && GridOk(b.isFunction, b.size) && mask < 8 && b.layout.Valid() && 1 <= version <= 40
    requires Woven(b.layout, data, divisor, all) && Scans(g, b.isFunction, b.size, mask, all) && CarriesText(data, ps, version)
    requires |back| == b.layout.raw && Scans(g, b.isFunction, b.size, mask, back)
    ensures E.Decode(E.Unpacked(ReadData(b.layout, back, b.layout.blocks)), version) == ps
  {
    hide Scans, Interleaved, Fits, Layout.Rows, E.Decode, E.Unpacked, E.AllEncodable, E.CountsFit, E.Carries, E.Segments, GridOk, ReadData, SizeOk;
    DataRecovered(b.layout, data, divisor, all, back, g, b.isFunction, b.size, mask);
    E.CodewordsReadBack(data, ps, version);
  }

  lemma SymbolSays(b: Blank, data: Poly, divisor: Poly, all: Poly, g: Grid, mask: nat, version: nat, ps: seq<E.Piece>)
    requires SizeOk(b.size) && GridOk(g, b.size) && GridOk(b.isFunction, b.size) && mask < 8 && b.layout.Valid() && 1 <= version <= 40
    requires Woven(b.layout, data, divisor, all) && Scans(g, b.isFunction, b.size, mask, all) && CarriesText(data, ps, version)
    ensures Says(g, b, mask, version, ps)
  {
    assert |all| == b.layout.raw;
    hide Scans, Woven, CarriesText, E.Decode, E.Unpacked, ReadData, GridOk, SizeOk, Layout.Valid;
    forall back: Poly | |back| == b.layout.raw && Scans(g, b.isFunction, b.size, mask, back)
      ensures E.Decode(E.Unpacked(ReadData(b.layout, back, b.layout.blocks)), version) == ps
    {
      ReaderReads(b, data, divisor, all, g, mask, version, ps, back);
    }
  }
}
