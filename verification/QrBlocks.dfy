/** Splitting data into blocks, appending error correction and interleaving: addEccAndInterleave. */
module QrBlocks {
  import opened QrField
  import opened ReedSolomon

  /** What the tables say for a version and level: `raw` codewords in `blocks` blocks, `ecc` of them error correction
      in each. */
  datatype Layout = Layout(blocks: nat, ecc: nat, raw: nat) {
    predicate Valid() { 0 < blocks && 0 < ecc <= 255 && ecc <= raw / blocks }

    function Short(): nat
      requires Valid()
    {
      blocks - raw % blocks
    }

    /** Data bytes in a short block. */
    function Rows(): nat
      requires Valid()
    {
      raw / blocks - ecc
    }

    function DataLen(j: nat): nat
      requires Valid()
    {
      Rows() + if j < Short() then 0 else 1
    }

    /** Where block j's data starts. */
    function Start(j: nat): nat
      requires Valid()
    {
      if j == 0 then 0 else Start(j - 1) + DataLen(j - 1)
    }
  }

  predicate Fits(l: Layout, data: Poly) { l.Valid() && |data| == l.Start(l.blocks) }

  lemma {:induction false} StartGrows(l: Layout, i: nat, j: nat)
    requires l.Valid() && i <= j
    ensures l.Start(i) <= l.Start(j) && (i < j ==> l.Start(i) + l.DataLen(i) <= l.Start(j))
    decreases j - i
  {
    if i < j {
      StartGrows(l, i, j - 1);
      if i < j - 1 { assert l.Start(j) >= l.Start(j - 1); }
    }
  }

  /** The data the blocks hold together is what the raw count leaves beside the error correction. */
  lemma {:induction false} StartIs(l: Layout, j: nat)
    requires l.Valid() && j <= l.blocks
    ensures l.Start(j) == j * l.Rows() + (if j > l.Short() then j - l.Short() else 0)
  {
    if j > 0 {
      StartIs(l, j - 1);
      assert j * l.Rows() == (j - 1) * l.Rows() + l.Rows();
    }
  }

  lemma DataCount(l: Layout)
    requires l.Valid()
    ensures l.Start(l.blocks) == l.raw - l.blocks * l.ecc
  {
    StartIs(l, l.blocks);
    var q, n := l.raw / l.blocks, l.blocks;
    assert l.raw == q * n + l.raw % n;
    assert n * (q - l.ecc) == n * q - n * l.ecc;
  }

  function BlockData(l: Layout, data: Poly, j: nat): (r: Poly)
    requires Fits(l, data) && j < l.blocks
    ensures |r| == l.DataLen(j)
  {
    StartGrows(l, j + 1, l.blocks);
    data[l.Start(j)..l.Start(j + 1)]
  }

  /** A block as the source builds it: a short one gets a byte of padding before its error correction. */
  function Block(l: Layout, data: Poly, divisor: Poly, j: nat): (r: Poly)
    requires Fits(l, data) && j < l.blocks && |divisor| == l.ecc
    ensures |r| == l.Rows() + 1 + l.ecc
  {
    var d := BlockData(l, data, j);
    d + (if j < l.Short() then [0] else []) + Remainder(d, divisor)
  }

  /** The padding byte is skipped. */
  predicate Skipped(l: Layout, i: nat, j: nat)
    requires l.Valid()
  {
    i == l.Rows() && j < l.Short()
  }

  function RowLen(l: Layout, i: nat): nat
    requires l.Valid()
  {
    if i == l.Rows() then l.blocks - l.Short() else l.blocks
  }

  function RowStart(l: Layout, i: nat): nat
    requires l.Valid()
  {
    if i == 0 then 0 else RowStart(l, i - 1) + RowLen(l, i - 1)
  }

  /** Where byte i of block j ends up. */
  function Place(l: Layout, i: nat, j: nat): nat
    requires l.Valid() && j < l.blocks && !Skipped(l, i, j)
  {
    RowStart(l, i) + j - (if i == l.Rows() then l.Short() else 0)
  }

  lemma {:induction false} RowStartIs(l: Layout, i: nat)
    requires l.Valid()
    ensures RowStart(l, i) == i * l.blocks - (if i > l.Rows() then l.Short() else 0)
  {
    if i > 0 {
      RowStartIs(l, i - 1);
      assert i * l.blocks == (i - 1) * l.blocks + l.blocks;
    }
  }

  /** All rows together are all raw codewords. */
  lemma RowsFill(l: Layout)
    requires l.Valid()
    ensures RowStart(l, l.Rows() + 1 + l.ecc) == l.raw
  {
    var q, n := l.raw / l.blocks, l.blocks;
    RowStartIs(l, q + 1);
    assert l.raw == q * n + l.raw % n && (q + 1) * n == q * n + n;
  }

  lemma {:induction false} RowsGrow(l: Layout, i: nat, k: nat)
    requires l.Valid() && i < k
    ensures RowStart(l, i) + RowLen(l, i) <= RowStart(l, k)
    decreases k - i
  {
    if i < k - 1 { RowsGrow(l, i, k - 1); }
  }

  /** Interleaving is a permutation: no two block bytes share a place, and every place is taken. */
  lemma PlacesDiffer(l: Layout, i: nat, j: nat, i2: nat, j2: nat)
    requires l.Valid() && j < l.blocks && j2 < l.blocks && !Skipped(l, i, j) && !Skipped(l, i2, j2)
    requires Place(l, i, j) == Place(l, i2, j2)
    ensures i == i2 && j == j2
  {
    if i < i2 { RowsGrow(l, i, i2); } else if i2 < i { RowsGrow(l, i2, i); }
  }

  lemma {:induction false} PlaceTaken(l: Layout, k: nat, rows: nat) returns (i: nat, j: nat)
    requires l.Valid() && k < RowStart(l, rows)
    ensures i < rows && j < l.blocks && !Skipped(l, i, j) && Place(l, i, j) == k
  {
    if k < RowStart(l, rows - 1) {
      i, j := PlaceTaken(l, k, rows - 1);
    } else {
      i := rows - 1;
      j := k - RowStart(l, i) + (if i == l.Rows() then l.Short() else 0);
    }
  }

  /** Every byte of every block at its place. */
  predicate Interleaved(l: Layout, data: Poly, divisor: Poly, rows: nat, result: Poly)
    requires Fits(l, data) && |divisor| == l.ecc && rows <= l.Rows() + 1 + l.ecc
  {
    |result| == RowStart(l, rows) &&
    forall i, j | 0 <= i < rows && 0 <= j < l.blocks && !Skipped(l, i, j) ::
      Place(l, i, j) < |result| && result[Place(l, i, j)] == Block(l, data, divisor, j)[i]
  }

  datatype Option<T> = None | Some(value: T)

  /** Data of the wrong size is refused. */
  method AddEccAndInterleave(l: Layout, data: Poly) returns (result: Option<Poly>, ghost divisor: Poly)
    requires l.Valid()
    ensures result.Some? <==> |data| == l.raw - l.blocks * l.ecc
    ensures result.Some? ==> Fits(l, data) && [1] + divisor == Generator(l.ecc) && |divisor| == l.ecc && |result.value| == l.raw
    ensures result.Some? ==> Interleaved(l, data, divisor, l.Rows() + 1 + l.ecc, result.value)
  {
    DataCount(l);
    divisor := Zeros(l.ecc);
    if |data| != l.raw - l.blocks * l.ecc { return None, divisor; }
    var drawn := ComputeDivisor(l.ecc);
    var div := drawn[..];
    divisor := div;
    var blocks := SplitBlocks(l, data, div);
    var r := InterleaveBlocks(l, data, div, blocks);
    RowsFill(l);
    result := Some(r);
  }

  lemma BlockStarts(l: Layout, data: Poly, j: nat)
    requires Fits(l, data) && j < l.blocks
    ensures l.Start(j) + l.DataLen(j) == l.Start(j + 1) <= |data|
    ensures data[l.Start(j)..l.Start(j) + l.DataLen(j)] == BlockData(l, data, j)
  {
    StartGrows(l, j + 1, l.blocks);
  }

  method SplitBlocks(l: Layout, data: Poly, divisor: Poly) returns (blocks: seq<Poly>)
    requires Fits(l, data) && |divisor| == l.ecc
    ensures |blocks| == l.blocks && forall j | 0 <= j < l.blocks :: blocks[j] == Block(l, data, divisor, j)
  {
    blocks := [];
    var k := 0;
    for i := 0 to l.blocks
      invariant |blocks| == i && k == l.Start(i)
      invariant forall j | 0 <= j < i :: blocks[j] == Block(l, data, divisor, j)
    {
      BlockStarts(l, data, i);
      var dat := data[k..k + (l.raw / l.blocks - l.ecc + if i < l.Short() then 0 else 1)];
      var ecc := ComputeRemainder(dat, divisor);
      var block := MakeBlock(l, data, divisor, i, dat, ecc);
      k := k + |dat|;
      blocks := blocks + [block];
    }
  }

  /** Data, padding for a short block, error correction. */
  method MakeBlock(l: Layout, ghost data: Poly, ghost divisor: Poly, i: nat, dat: Poly, ecc: Poly) returns (block: Poly)
    requires Fits(l, data) && |divisor| == l.ecc && i < l.blocks && dat == BlockData(l, data, i) && ecc == Remainder(dat, divisor)
    ensures block == Block(l, data, divisor, i)
  {
    block := dat;
    if i < l.Short() { block := block + [0]; }
    block := block + ecc;
  }

  /** The first j blocks have put their byte i after what the rows before gave. */
  predicate RowDone(l: Layout, data: Poly, divisor: Poly, i: nat, j: nat, before: Poly, result: Poly)
    requires Fits(l, data) && |divisor| == l.ecc && i < l.Rows() + 1 + l.ecc && j <= l.blocks
  {
    && before <= result
    && |result| == |before| + (if i == l.Rows() then (if j > l.Short() then j - l.Short() else 0) else j)
    && forall t | 0 <= t < j && !Skipped(l, i, t) ::
      Place(l, i, t) < |result| && result[Place(l, i, t)] == Block(l, data, divisor, t)[i]
  }

  lemma RowStep(l: Layout, data: Poly, divisor: Poly, i: nat, j: nat, before: Poly, result: Poly)
    requires Fits(l, data) && |divisor| == l.ecc && i < l.Rows() + 1 + l.ecc && j < l.blocks && |before| == RowStart(l, i)
    requires RowDone(l, data, divisor, i, j, before, result)
    ensures RowDone(l, data, divisor, i, j + 1, before, if Skipped(l, i, j) then result else result + [Block(l, data, divisor, j)[i]])
  {
    hide Block, RowStart;
  }

  lemma RowEnds(l: Layout, data: Poly, divisor: Poly, i: nat, before: Poly, result: Poly)
    requires Fits(l, data) && |divisor| == l.ecc && i < l.Rows() + 1 + l.ecc
    requires Interleaved(l, data, divisor, i, before) && RowDone(l, data, divisor, i, l.blocks, before, result)
    ensures Interleaved(l, data, divisor, i + 1, result)
  {
    hide Block, Place, Skipped;
  }

  method InterleaveBlocks(l: Layout, data: Poly, divisor: Poly, blocks: seq<Poly>) returns (result: Poly)
    requires Fits(l, data) && |divisor| == l.ecc
    requires |blocks| == l.blocks && forall j | 0 <= j < l.blocks :: blocks[j] == Block(l, data, divisor, j)
    ensures Interleaved(l, data, divisor, l.Rows() + 1 + l.ecc, result)
  {
    hide Block, Place, RowDone;
    result := [];
    var i := 0;
    while i < |blocks[0]|
      invariant i <= l.Rows() + 1 + l.ecc && Interleaved(l, data, divisor, i, result)
    {
      ghost var before := result;
      NoneDone(l, data, divisor, i, result);
      var j := 0;
      while j < |blocks|
        invariant j <= l.blocks && RowDone(l, data, divisor, i, j, before, result)
      {
        RowStep(l, data, divisor, i, j, before, result);
        if i != l.Rows() || j >= l.Short() { result := result + [blocks[j][i]]; }
        j := j + 1;
      }
      RowEnds(l, data, divisor, i, before, result);
      i := i + 1;
    }
  }

  lemma NoneDone(l: Layout, data: Poly, divisor: Poly, i: nat, before: Poly)
    requires Fits(l, data) && |divisor| == l.ecc && i < l.Rows() + 1 + l.ecc
    ensures RowDone(l, data, divisor, i, 0, before, before)
  {
  }

  // ------------------------------------------------------------------ reading it back

  /** Block j's data, read from its places. */
  function ReadBlock(l: Layout, result: Poly, j: nat, n: nat): Poly
    requires l.Valid() && j < l.blocks && n <= l.DataLen(j) && |result| == l.raw
  {
    if n == 0 then []
    else
      PlaceInside(l, n - 1, j);
      ReadBlock(l, result, j, n - 1) + [result[Place(l, n - 1, j)]]
  }

  function ReadData(l: Layout, result: Poly, j: nat): Poly
    requires l.Valid() && j <= l.blocks && |result| == l.raw
  {
    if j == 0 then [] else ReadData(l, result, j - 1) + ReadBlock(l, result, j - 1, l.DataLen(j - 1))
  }

  lemma PlaceInside(l: Layout, i: nat, j: nat)
    requires l.Valid() && j < l.blocks && i < l.DataLen(j)
    ensures !Skipped(l, i, j) && Place(l, i, j) < l.raw
  {
    RowsFill(l);
    RowsGrow(l, i, l.Rows() + 1 + l.ecc);
  }

  lemma {:induction false} ReadBlockBack(l: Layout, data: Poly, divisor: Poly, result: Poly, j: nat, n: nat)
    requires Fits(l, data) && |divisor| == l.ecc && |result| == l.raw && j < l.blocks && n <= l.DataLen(j)
    requires Interleaved(l, data, divisor, l.Rows() + 1 + l.ecc, result)
    ensures ReadBlock(l, result, j, n) == BlockData(l, data, j)[..n]
  {
    if n > 0 {
      ReadBlockBack(l, data, divisor, result, j, n - 1);
      PlaceInside(l, n - 1, j);
      var d := BlockData(l, data, j);
      assert Block(l, data, divisor, j)[n - 1] == d[n - 1];
      assert d[..n] == d[..n - 1] + [d[n - 1]];
    }
  }

  /** De-interleaving gives the data back. */
  lemma {:induction false} ReadDataBack(l: Layout, data: Poly, divisor: Poly, result: Poly, j: nat)
    requires Fits(l, data) && |divisor| == l.ecc && |result| == l.raw && j <= l.blocks
    requires Interleaved(l, data, divisor, l.Rows() + 1 + l.ecc, result)
    ensures l.Start(j) <= |data| && ReadData(l, result, j) == data[..l.Start(j)]
  {
    hide Interleaved, ReadBlock;
    StartGrows(l, j, l.blocks);
    if j > 0 {
      ReadDataBack(l, data, divisor, result, j - 1);
      ReadBlockBack(l, data, divisor, result, j - 1, l.DataLen(j - 1));
      var d := BlockData(l, data, j - 1);
      assert d[..|d|] == d && data[..l.Start(j)] == data[..l.Start(j - 1)] + d;
    }
  }
}
