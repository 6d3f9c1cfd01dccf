/** drawCodewords, applyMask and the constructor's choice of mask. */
module QrPlacement {

  type Bytes = seq<bv8>

  datatype Cell = Cell(x: nat, y: nat)

  /** Rows of modules, true for dark. */
  type Grid = seq<seq<bool>>

  predicate GridOk(g: Grid, size: nat) { |g| == size && forall y | 0 <= y < size :: |g[y]| == size }

  predicate In(c: Cell, size: nat) { c.x < size && c.y < size }

  function Get(g: Grid, size: nat, c: Cell): bool
    requires GridOk(g, size) && In(c, size)
  {
    g[c.y][c.x]
  }

  function Set(g: Grid, size: nat, c: Cell, b: bool): (r: Grid)
    requires GridOk(g, size) && In(c, size)
    ensures GridOk(r, size) && Get(r, size, c) == b && forall d | In(d, size) && d != c :: Get(r, size, d) == Get(g, size, d)
  {
    g[c.y := g[c.y][c.x := b]]
  }

  lemma SameGrid(g: Grid, h: Grid, size: nat)
    requires GridOk(g, size) && GridOk(h, size) && forall c | In(c, size) :: Get(g, size, c) == Get(h, size, c)
    ensures g == h
  {
    forall y | 0 <= y < size ensures g[y] == h[y] {
      forall x | 0 <= x < size ensures g[y][x] == h[y][x] { assert Get(g, size, Cell(x, y)) == Get(h, size, Cell(x, y)); }
    }
  }

  // ------------------------------------------------------------------ the zigzag scan

  /** A position of the scan: column pair, vertical counter, left or right of the pair. */
  datatype Scan = Scan(pair: nat, vert: nat, left: nat)

  predicate SizeOk(size: nat) { size >= 21 && size % 4 == 1 }

  predicate InScan(size: nat, s: Scan) { s.pair < size / 2 && s.vert < size && s.left < 2 }

  /** The right column of a pair: column 6 is stepped over. */
  function Right(size: nat, pair: nat): nat
    requires SizeOk(size) && pair < size / 2
  {
    var right := size - 1 - 2 * pair;
    if right <= 6 then right - 1 else right
  }

  function CellAt(size: nat, s: Scan): Cell
    requires SizeOk(size) && InScan(size, s)
  {
    var right := Right(size, s.pair);
    var upward := (right + 1) % 4 < 2;
    Cell(right - s.left, if upward then size - 1 - s.vert else s.vert)
  }

  /** The scan position of a cell. */
  function ScanOf(size: nat, c: Cell): Scan
    requires SizeOk(size) && c.x < size && c.y < size && c.x != 6
  {
    var d := if c.x > 6 then size - 1 - c.x else size - 2 - c.x;
    var right := Right(size, d / 2);
    Scan(d / 2, if (right + 1) % 4 < 2 then size - 1 - c.y else c.y, d % 2)
  }

  /** The scan visits every cell outside column 6 exactly once, and no other. */
  lemma ScanIsOneToOne(size: nat, s: Scan)
    requires SizeOk(size) && InScan(size, s)
    ensures var c := CellAt(size, s); c.x < size && c.y < size && c.x != 6 && ScanOf(size, c) == s
  {
    var right := Right(size, s.pair);
    var c := CellAt(size, s);
    var d := if c.x > 6 then size - 1 - c.x else size - 2 - c.x;
    assert d == 2 * s.pair + s.left;
  }

  lemma ScanIsOnto(size: nat, c: Cell)
    requires SizeOk(size) && c.x < size && c.y < size && c.x != 6
    ensures InScan(size, ScanOf(size, c)) && CellAt(size, ScanOf(size, c)) == c
  {
    SizeIsOdd(size);
    var d := if c.x > 6 then size - 1 - c.x else size - 2 - c.x;
    HalfOf(d);
    RightOf(size, d / 2);
    hide Right, SizeOk;
    assert Right(size, d / 2) == c.x + d % 2;
  }

  lemma SizeIsOdd(size: nat)
    requires SizeOk(size)
    ensures size == 2 * (size / 2) + 1 && (size / 2) % 2 == 0 && size / 2 >= 10
  {
  }

  lemma HalfOf(d: nat)
    ensures d == 2 * (d / 2) + d % 2 && d % 2 < 2
  {
  }

  lemma RightOf(size: nat, pair: nat)
    requires SizeOk(size) && pair < size / 2
    ensures Right(size, pair) == size - 1 - 2 * pair - (if size - 1 - 2 * pair < 7 then 1 else 0)
    ensures size - 1 - 2 * pair != 7 && size - 1 - 2 * pair != 5
  {
  }

  // ------------------------------------------------------------------ placing and reading bits

  /** Bits from the most significant of the first byte on: getBit(data[i >> 3], 7 - (i & 7)). */
  function BitAt(data: Bytes, i: nat): bool
    requires i < 8 * |data|
  {
    (data[i / 8] >> (7 - i % 8)) & 1 != 0
  }

  /** Between two cells of the scan, or at either end. */
  predicate Stop(size: nat, s: Scan) {
    s.pair <= size / 2 && s.vert <= size && s.left <= 2 && (s.pair == size / 2 ==> s.vert == 0 && s.left == 0) &&
    (s.vert == size ==> s.left == 0)
  }

  /** The bits in the free cells before a position, in scan order. */
  function ReadBefore(g: Grid, fn: Grid, size: nat, s: Scan): seq<bool>
    requires SizeOk(size) && GridOk(g, size) && GridOk(fn, size) && Stop(size, s)
    decreases s.pair, s.vert, s.left
  {
    if s.left > 0 then ReadBefore(g, fn, size, s.(left := s.left - 1)) + ReadCell(g, fn, size, s.(left := s.left - 1))
    else if s.vert > 0 then ReadBefore(g, fn, size, Scan(s.pair, s.vert - 1, 2))
    else if s.pair > 0 then ReadBefore(g, fn, size, Scan(s.pair - 1, size, 0))
    else []
  }

  function ReadCell(g: Grid, fn: Grid, size: nat, s: Scan): seq<bool>
    requires SizeOk(size) && GridOk(g, size) && GridOk(fn, size) && InScan(size, s)
  {
    ScanIsOneToOne(size, s);
    var c := CellAt(size, s);
    if Get(fn, size, c) then [] else [Get(g, size, c)]
  }

  function ReadAll(g: Grid, fn: Grid, size: nat): seq<bool>
    requires SizeOk(size) && GridOk(g, size) && GridOk(fn, size)
  {
    ReadBefore(g, fn, size, Scan(size / 2, 0, 0))
  }

  predicate Precedes(a: Scan, b: Scan) {
    a.pair < b.pair || (a.pair == b.pair && (a.vert < b.vert || (a.vert == b.vert && a.left < b.left)))
  }

  ghost predicate AgreeBefore(g: Grid, h: Grid, size: nat, s: Scan)
    requires SizeOk(size) && GridOk(g, size) && GridOk(h, size)
  {
    forall t | InScan(size, t) && Precedes(t, s) :: SameAt(g, h, size, t)
  }

  ghost predicate SameAt(g: Grid, h: Grid, size: nat, t: Scan)
    requires SizeOk(size) && GridOk(g, size) && GridOk(h, size) && InScan(size, t)
  {
    ScanIsOneToOne(size, t);
    Get(g, size, CellAt(size, t)) == Get(h, size, CellAt(size, t))
  }

  lemma {:induction false} ReadFrame(g: Grid, h: Grid, fn: Grid, size: nat, s: Scan)
    requires SizeOk(size) && GridOk(g, size) && GridOk(h, size) && GridOk(fn, size) && Stop(size, s) && AgreeBefore(g, h, size, s)
    ensures ReadBefore(g, fn, size, s) == ReadBefore(h, fn, size, s)
    decreases s.pair, s.vert, s.left
  {
    if s.left > 0 {
      var t := s.(left := s.left - 1);
      ReadFrame(g, h, fn, size, t);
      assert SameAt(g, h, size, t);
    } else if s.vert > 0 {
      ReadFrame(g, h, fn, size, Scan(s.pair, s.vert - 1, 2));
    } else if s.pair > 0 {
      ReadFrame(g, h, fn, size, Scan(s.pair - 1, size, 0));
    }
  }

  /** How many bits fit does not depend on what is there. */
  lemma {:induction false} ReadLength(g: Grid, h: Grid, fn: Grid, size: nat, s: Scan)
    requires SizeOk(size) && GridOk(g, size) && GridOk(h, size) && GridOk(fn, size) && Stop(size, s)
    ensures |ReadBefore(g, fn, size, s)| == |ReadBefore(h, fn, size, s)|
    decreases s.pair, s.vert, s.left
  {
    hide Get;
    if s.left > 0 { ReadLength(g, h, fn, size, s.(left := s.left - 1)); }
    else if s.vert > 0 { ReadLength(g, h, fn, size, Scan(s.pair, s.vert - 1, 2)); }
    else if s.pair > 0 { ReadLength(g, h, fn, size, Scan(s.pair - 1, size, 0)); }
  }

  function Min(a: nat, b: nat): nat { if a < b then a else b }

  /** Part way through drawCodewords: i bits placed, in order; nothing else touched. */
  ghost predicate Drawn(was: Grid, g: Grid, fn: Grid, size: nat, data: Bytes, s: Scan, i: nat)
    requires SizeOk(size) && GridOk(was, size) && GridOk(g, size) && GridOk(fn, size) && Stop(size, s)
  {
    var bits := ReadBefore(g, fn, size, s);
    var before := ReadBefore(was, fn, size, s);
    |bits| == |before| && i == Min(8 * |data|, |bits|) && (forall k | 0 <= k < i :: bits[k] == BitAt(data, k)) &&
    (forall k | i <= k < |bits| :: bits[k] == before[k]) && Untouched(was, g, fn, size, s)
  }

  ghost predicate Untouched(was: Grid, g: Grid, fn: Grid, size: nat, s: Scan)
    requires SizeOk(size) && GridOk(was, size) && GridOk(g, size) && GridOk(fn, size)
  {
    forall c | In(c, size) && (Get(fn, size, c) || c.x == 6 || !Precedes(ScanOf(size, c), s)) :: Get(g, size, c) == Get(was, size, c)
  }

  /** One cell of the scan. */
  function DrawCell(g: Grid, fn: Grid, size: nat, data: Bytes, s: Scan, i: nat): (Grid, nat)
    requires SizeOk(size) && GridOk(g, size) && GridOk(fn, size) && InScan(size, s)
  {
    ScanIsOneToOne(size, s);
    var c := CellAt(size, s);
    if !Get(fn, size, c) && i < 8 * |data| then (Set(g, size, c, BitAt(data, i)), i + 1) else (g, i)
  }

  lemma UntouchedStep(was: Grid, g: Grid, fn: Grid, size: nat, data: Bytes, s: Scan, i: nat)
    requires SizeOk(size) && GridOk(was, size) && GridOk(g, size) && GridOk(fn, size) && InScan(size, s)
    requires Untouched(was, g, fn, size, s)
    ensures SameAt(was, g, size, s)
    ensures Untouched(was, DrawCell(g, fn, size, data, s, i).0, fn, size, s.(left := s.left + 1))
    ensures AgreeBefore(g, DrawCell(g, fn, size, data, s, i).0, size, s)
  {
    hide BitAt;
    ScanIsOneToOne(size, s);
    AgreesBeforeCell(g, DrawCell(g, fn, size, data, s, i).0, size, s);
  }

  lemma ReadNext(g: Grid, fn: Grid, size: nat, s: Scan)
    requires SizeOk(size) && GridOk(g, size) && GridOk(fn, size) && InScan(size, s)
    ensures ReadBefore(g, fn, size, s.(left := s.left + 1)) == ReadBefore(g, fn, size, s) + ReadCell(g, fn, size, s)
  {
    assert s.(left := s.left + 1).(left := s.left) == s;
  }

  lemma DrawStep(was: Grid, g: Grid, fn: Grid, size: nat, data: Bytes, s: Scan, i: nat)
    requires SizeOk(size) && GridOk(was, size) && GridOk(g, size) && GridOk(fn, size) && InScan(size, s)
    requires Drawn(was, g, fn, size, data, s, i)
    ensures var (h, k) := DrawCell(g, fn, size, data, s, i);
      GridOk(h, size) && Drawn(was, h, fn, size, data, s.(left := s.left + 1), k)
  {
    hide BitAt, ReadBefore, Untouched, AgreeBefore;
    ScanIsOneToOne(size, s);
    var h := DrawCell(g, fn, size, data, s, i).0;
    UntouchedStep(was, g, fn, size, data, s, i);
    ReadFrame(g, h, fn, size, s);
    ReadNext(h, fn, size, s);
    ReadNext(was, fn, size, s);
  }

  lemma AgreesBeforeCell(g: Grid, h: Grid, size: nat, s: Scan)
    requires SizeOk(size) && GridOk(g, size) && GridOk(h, size) && InScan(size, s)
    requires forall c | In(c, size) && c != CellAt(size, s) :: Get(g, size, c) == Get(h, size, c)
    ensures AgreeBefore(g, h, size, s)
  {
    ScanIsOneToOne(size, s);
    forall t | InScan(size, t) && Precedes(t, s) ensures SameAt(g, h, size, t) {
      ScanIsOneToOne(size, t);
      assert CellAt(size, t) != CellAt(size, s);
    }
  }

  /** The end of a row of the pair is the start of the next, and the end of a pair the start of the next. */
  lemma RowEnds(was: Grid, g: Grid, fn: Grid, size: nat, data: Bytes, pair: nat, vert: nat, i: nat)
    requires SizeOk(size) && GridOk(was, size) && GridOk(g, size) && GridOk(fn, size) && pair < size / 2
    ensures vert < size && Drawn(was, g, fn, size, data, Scan(pair, vert, 2), i) ==> Drawn(was, g, fn, size, data, Scan(pair, vert + 1, 0), i)
    ensures Drawn(was, g, fn, size, data, Scan(pair, size, 0), i) ==> Drawn(was, g, fn, size, data, Scan(pair + 1, 0, 0), i)
  {
    hide BitAt, Get, SizeOk, GridOk;
    forall c | In(c, size) && c.x != 6 ensures InScan(size, ScanOf(size, c)) { ScanIsOnto(size, c); }
  }

  // ------------------------------------------------------------------ masks

  predicate Invert(mask: nat, c: Cell)
    requires mask < 8
  {
    var (x, y) := (c.x, c.y);
    match mask
    case 0 => (x + y) % 2 == 0
    case 1 => y % 2 == 0
    case 2 => x % 3 == 0
    case 3 => (x + y) % 3 == 0
    case 4 => (x / 3 + y / 2) % 2 == 0
    case 5 => x * y % 2 + x * y % 3 == 0
    case 6 => (x * y % 2 + x * y % 3) % 2 == 0
    case _ => ((x + y) % 2 + x * y % 3) % 2 == 0
  }

  /** The pictures of the masks in the standard: the tile that each repeats over the symbol, inverted cells marked. */
  function Tile(mask: nat): (t: seq<string>)
    requires mask < 8
    ensures |t| == Height(mask) && forall i | 0 <= i < |t| :: |t[i]| == Width(mask)
  {
    match mask
    case 0 => ["#.", ".#"]
    case 1 => ["#", "."]
    case 2 => ["#.."]
    case 3 => ["#..", "..#", ".#."]
    case 4 => ["###...", "###...", "...###", "...###"]
    case 5 => ["######", "#.....", "#..#..", "#.#.#.", "#..#..", "#....."]
    case 6 => ["######", "###...", "##.##.", "#.#.#.", "#.##.#", "#...##"]
    case _ => ["#.#.#.", "...###", "#...##", ".#.#.#", "###...", ".###.."]
  }

  function Width(mask: nat): nat { if mask == 0 then 2 else if mask == 1 then 1 else if mask == 2 || mask == 3 then 3 else 6 }

  function Height(mask: nat): nat { if mask < 2 then 2 else if mask == 2 then 1 else if mask == 3 then 3 else if mask == 4 then 4 else 6 }

  predicate Marked(mask: nat, c: Cell)
    requires mask < 8
  {
    Tile(mask)[c.y % Height(mask)][c.x % Width(mask)] == '#'
  }

  lemma TileShows(mask: nat, x: nat, y: nat)
    requires mask < 8 && x < Width(mask) && y < Height(mask)
    ensures Invert(mask, Cell(x, y)) <==> Tile(mask)[y][x] == '#'
  {
    if mask == 0 { TileShows0(x, y); } else if mask == 1 { TileShows1(x, y); } else if mask == 2 { TileShows2(x, y); }
    else if mask == 3 { TileShows3(x, y); } else if mask == 4 { TileShows4(x, y); } else if mask == 5 { TileShows5(x, y); }
    else if mask == 6 { TileShows6(x, y); } else { TileShows7(x, y); }
  }

  lemma TileShows0(x: nat, y: nat)
    requires x < 2 && y < 2
    ensures Invert(0, Cell(x, y)) <==> Tile(0)[y][x] == '#'
  {
    if y == 0 { if x == 0 {} else {} }
    else { if x == 0 {} else {} }
  }

  lemma TileShows1(x: nat, y: nat)
    requires x < 1 && y < 2
    ensures Invert(1, Cell(x, y)) <==> Tile(1)[y][x] == '#'
  {
    if y == 0 { {} }
    else { {} }
  }

  lemma TileShows2(x: nat, y: nat)
    requires x < 3 && y < 1
    ensures Invert(2, Cell(x, y)) <==> Tile(2)[y][x] == '#'
  {
    { if x == 0 {} else if x == 1 {} else {} }
  }

  lemma TileShows3(x: nat, y: nat)
    requires x < 3 && y < 3
    ensures Invert(3, Cell(x, y)) <==> Tile(3)[y][x] == '#'
  {
    if y == 0 { if x == 0 {} else if x == 1 {} else {} }
    else if y == 1 { if x == 0 {} else if x == 1 {} else {} }
    else { if x == 0 {} else if x == 1 {} else {} }
  }

  lemma TileShows4(x: nat, y: nat)
    requires x < 6 && y < 4
    ensures Invert(4, Cell(x, y)) <==> Tile(4)[y][x] == '#'
  {
    if y == 0 { if x == 0 {} else if x == 1 {} else if x == 2 {} else if x == 3 {} else if x == 4 {} else {} }
    else if y == 1 { if x == 0 {} else if x == 1 {} else if x == 2 {} else if x == 3 {} else if x == 4 {} else {} }
    else if y == 2 { if x == 0 {} else if x == 1 {} else if x == 2 {} else if x == 3 {} else if x == 4 {} else {} }
    else { if x == 0 {} else if x == 1 {} else if x == 2 {} else if x == 3 {} else if x == 4 {} else {} }
  }

  lemma TileShows5(x: nat, y: nat)
    requires x < 6 && y < 6
    ensures Invert(5, Cell(x, y)) <==> Tile(5)[y][x] == '#'
  {
    if y == 0 { if x == 0 {} else if x == 1 {} else if x == 2 {} else if x == 3 {} else if x == 4 {} else {} }
    else if y == 1 { if x == 0 {} else if x == 1 {} else if x == 2 {} else if x == 3 {} else if x == 4 {} else {} }
    else if y == 2 { if x == 0 {} else if x == 1 {} else if x == 2 {} else if x == 3 {} else if x == 4 {} else {} }
    else if y == 3 { if x == 0 {} else if x == 1 {} else if x == 2 {} else if x == 3 {} else if x == 4 {} else {} }
    else if y == 4 { if x == 0 {} else if x == 1 {} else if x == 2 {} else if x == 3 {} else if x == 4 {} else {} }
    else { if x == 0 {} else if x == 1 {} else if x == 2 {} else if x == 3 {} else if x == 4 {} else {} }
  }

  lemma TileShows6a(x: nat, y: nat)
    requires x < 6 && 0 <= y < 3
    ensures Invert(6, Cell(x, y)) <==> Tile(6)[y][x] == '#'
  {
    if y == 0 { if x == 0 {} else if x == 1 {} else if x == 2 {} else if x == 3 {} else if x == 4 {} else {} }
    else if y == 1 { if x == 0 {} else if x == 1 {} else if x == 2 {} else if x == 3 {} else if x == 4 {} else {} }
    else { if x == 0 {} else if x == 1 {} else if x == 2 {} else if x == 3 {} else if x == 4 {} else {} }
  }

  lemma TileShows6b(x: nat, y: nat)
    requires x < 6 && 3 <= y < 6
    ensures Invert(6, Cell(x, y)) <==> Tile(6)[y][x] == '#'
  {
    if y == 3 { if x == 0 {} else if x == 1 {} else if x == 2 {} else if x == 3 {} else if x == 4 {} else {} }
    else if y == 4 { if x == 0 {} else if x == 1 {} else if x == 2 {} else if x == 3 {} else if x == 4 {} else {} }
    else { if x == 0 {} else if x == 1 {} else if x == 2 {} else if x == 3 {} else if x == 4 {} else {} }
  }

  lemma TileShows6(x: nat, y: nat)
    requires x < 6 && y < 6
    ensures Invert(6, Cell(x, y)) <==> Tile(6)[y][x] == '#'
  {
    if y < 3 { TileShows6a(x, y); } else { TileShows6b(x, y); }
  }

  lemma TileShows7(x: nat, y: nat)
    requires x < 6 && y < 6
    ensures Invert(7, Cell(x, y)) <==> Tile(7)[y][x] == '#'
  {
    if y == 0 { if x == 0 {} else if x == 1 {} else if x == 2 {} else if x == 3 {} else if x == 4 {} else {} }
    else if y == 1 { if x == 0 {} else if x == 1 {} else if x == 2 {} else if x == 3 {} else if x == 4 {} else {} }
    else if y == 2 { if x == 0 {} else if x == 1 {} else if x == 2 {} else if x == 3 {} else if x == 4 {} else {} }
    else if y == 3 { if x == 0 {} else if x == 1 {} else if x == 2 {} else if x == 3 {} else if x == 4 {} else {} }
    else if y == 4 { if x == 0 {} else if x == 1 {} else if x == 2 {} else if x == 3 {} else if x == 4 {} else {} }
    else { if x == 0 {} else if x == 1 {} else if x == 2 {} else if x == 3 {} else if x == 4 {} else {} }
  }

  lemma ModAdds(a: nat, b: nat, m: nat)
    requires m == 2 || m == 3
    ensures (a + b) % m == (a % m + b % m) % m
  {
  }

  lemma ProductSplits(m: nat, p: nat, r: nat, q: nat, s: nat)
    ensures (m * p + r) * (m * q + s) == m * (p * (m * q + s) + r * q) + r * s
  {
  }

  lemma ProductRest(m: nat, p: nat, r: nat, q: nat, s: nat)
    requires m == 2 || m == 3
    ensures (m * p + r) * (m * q + s) % m == r * s % m
  {
    ProductSplits(m, p, r, q, s);
    Multiple(m, p * (m * q + s) + r * q, r * s);
  }

  lemma ModTimes(a: nat, b: nat, m: nat)
    requires m == 2 || m == 3
    ensures a * b % m == (a % m) * (b % m) % m
  {
    ProductRest(m, a / m, a % m, b / m, b % m);
    assert m * (a / m) + a % m == a && m * (b / m) + b % m == b;
  }

  lemma Multiple(m: nat, k: nat, r: nat)
    requires m == 2 || m == 3
    ensures (m * k + r) % m == r % m
  {
  }

  lemma SixTwoThree(a: nat)
    ensures a % 6 % 2 == a % 2 && a % 6 % 3 == a % 3
  {
    var q, r := a / 6, a % 6;
    Multiple(2, 3 * q, r);
    Multiple(3, 2 * q, r);
    assert a == 2 * (3 * q) + r && a == 3 * (2 * q) + r;
  }

  lemma ThirdsOfSix(a: nat)
    ensures a / 3 % 2 == a % 6 / 3
  {
  }

  lemma HalvesOfFour(a: nat)
    ensures a / 2 % 2 == a % 4 / 2
  {
  }

  lemma ProductOfRests(x: nat, y: nat)
    ensures x * y % 2 == (x % 6) * (y % 6) % 2 && x * y % 3 == (x % 6) * (y % 6) % 3
  {
    SixTwoThree(x);
    SixTwoThree(y);
    ModTimes(x, y, 2);
    ModTimes(x % 6, y % 6, 2);
    ModTimes(x, y, 3);
    ModTimes(x % 6, y % 6, 3);
  }

  /** Every mask repeats its tile. */
  lemma Repeats(mask: nat, c: Cell)
    requires mask < 8
    ensures Invert(mask, c) <==> Invert(mask, Cell(c.x % Width(mask), c.y % Height(mask)))
  {
    var (x, y) := (c.x, c.y);
    if mask == 0 {
      ModAdds(x, y, 2);
    } else if mask == 3 {
      ModAdds(x, y, 3);
    } else if mask == 4 {
      ThirdsOfSix(x);
      HalvesOfFour(y);
      ModAdds(x / 3, y / 2, 2);
    } else if mask >= 5 {
      RepeatsSix(mask, x, y);
    }
  }

  lemma RepeatsSix(mask: nat, x: nat, y: nat)
    requires 5 <= mask < 8
    ensures Invert(mask, Cell(x, y)) <==> Invert(mask, Cell(x % 6, y % 6))
  {
    ProductOfRests(x, y);
    SixTwoThree(x);
    SixTwoThree(y);
    ModAdds(x, y, 2);
    ModAdds(x % 6, y % 6, 2);
  }

  /** Each mask inverts exactly the cells of its picture, over the whole symbol. */
  lemma InvertsPicture(mask: nat, c: Cell)
    requires mask < 8
    ensures Invert(mask, c) <==> Marked(mask, c)
  {
    hide Invert, Tile, Width, Height;
    Repeats(mask, c);
    WidthIs(mask);
    TileShows(mask, c.x % Width(mask), c.y % Height(mask));
  }

  lemma WidthIs(mask: nat)
    ensures Width(mask) > 0 && Height(mask) > 0
  {
  }

  function Masked(g: Grid, fn: Grid, size: nat, mask: nat): (r: Grid)
    requires GridOk(g, size) && GridOk(fn, size) && mask < 8
    ensures GridOk(r, size)
    ensures forall c | In(c, size) :: Get(r, size, c) == (Get(g, size, c) != (Invert(mask, c) && !Get(fn, size, c)))
  {
    var r := seq(size, y requires 0 <= y < size => seq(size, x requires 0 <= x < size => g[y][x] != (Invert(mask, Cell(x, y)) && !fn[y][x])));
    assert forall c | In(c, size) :: Get(r, size, c) == r[c.y][c.x];
    r
  }

  /** Masking twice is not masking at all, and function modules are never masked. */
  lemma MaskTwice(g: Grid, fn: Grid, size: nat, mask: nat)
    requires GridOk(g, size) && GridOk(fn, size) && mask < 8
    ensures Masked(Masked(g, fn, size, mask), fn, size, mask) == g
    ensures forall c | In(c, size) && Get(fn, size, c) :: Get(Masked(g, fn, size, mask), size, c) == Get(g, size, c)
  {
    hide Invert;
    SameGrid(Masked(Masked(g, fn, size, mask), fn, size, mask), g, size);
  }

  // ------------------------------------------------------------------ format bits

  /** The k-th cell that drawFormatBits writes, and which of the 15 bits it takes; 15 stands for always dark. Two copies
      of the word beside the finder patterns, then one dark cell (section 7.9.1 of ISO/IEC 18004:2015). */
  function FormatCell(size: nat, k: nat): (r: (Cell, nat))
    requires SizeOk(size) && k < 31
    ensures In(r.0, size) && r.1 <= 15
  {
    if k < 6 then (Cell(8, k), k)
    else if k < 8 then (Cell(8, k + 1), k)
    else if k == 8 then (Cell(7, 8), 8)
    else if k < 15 then (Cell(14 - k, 8), k)
    else if k < 23 then (Cell(size - 1 - (k - 15), 8), k - 15)
    else if k < 30 then (Cell(8, size - 15 + (k - 15)), k - 15)
    else (Cell(8, size - 8), 15)
  }

  function FormatCells(size: nat): (r: seq<(Cell, nat)>)
    requires SizeOk(size)
    ensures |r| == 31 && forall k | 0 <= k < |r| :: In(r[k].0, size) && r[k].1 <= 15
  {
    seq(31, k requires 0 <= k < 31 => FormatCell(size, k))
  }

  lemma FormatCellsDiffer(size: nat, i: nat, j: nat)
    requires SizeOk(size) && i < j < 31
    ensures FormatCell(size, i).0 != FormatCell(size, j).0
  {
  }

  /** A cell written once holds what was written. */
  lemma {:induction false} WrittenStays(g: Grid, size: nat, cells: seq<(Cell, nat)>, word: seq<bool>, k: nat)
    requires GridOk(g, size) && |word| == 15 && (forall i | 0 <= i < |cells| :: In(cells[i].0, size) && cells[i].1 <= 15)
    requires k < |cells| && forall i | k < i < |cells| :: cells[i].0 != cells[k].0
    ensures Get(Write(g, size, cells, word), size, cells[k].0) == (cells[k].1 == 15 || word[cells[k].1])
  {
    if k < |cells| - 1 {
      var init := cells[..|cells| - 1];
      assert init[k] == cells[k];
      WrittenStays(g, size, init, word, k);
    }
  }

  /** Both copies of the word can be read off the symbol, bit by bit, and the one cell is dark. */
  predicate ShowsWord(g: Grid, size: nat, word: seq<bool>)
    requires SizeOk(size) && GridOk(g, size) && |word| == 15
  {
    && (forall i: nat | i < 15 :: Get(g, size, FormatCell(size, i).0) == word[i] && Get(g, size, FormatCell(size, 15 + i).0) == word[i])
    && Get(g, size, Cell(8, size - 8))
  }

  lemma FormatShows(g: Grid, size: nat, word: seq<bool>)
    requires SizeOk(size) && GridOk(g, size) && |word| == 15
    ensures ShowsWord(Formatted(g, size, word), size, word)
  {
    hide Write, Get, FormatCells;
    var cells := FormatCells(size);
    forall k: nat | k < 31
      ensures cells[k] == FormatCell(size, k)
      ensures Get(Formatted(g, size, word), size, FormatCell(size, k).0) == (FormatCell(size, k).1 == 15 || word[FormatCell(size, k).1])
    {
      CellsAt(size, k);
      forall i | k < i < 31 ensures cells[i].0 != cells[k].0 {
        CellsAt(size, i);
        FormatCellsDiffer(size, k, i);
      }
      WrittenStays(g, size, cells, word, k);
    }
    assert FormatCell(size, 30) == (Cell(8, size - 8), 15);
  }

  lemma WriteNone(g: Grid, size: nat, word: seq<bool>)
    requires GridOk(g, size) && |word| == 15
    ensures Write(g, size, [], word) == g
  {
  }

  lemma CellsAt(size: nat, k: nat)
    requires SizeOk(size) && k < 31
    ensures FormatCells(size)[k] == FormatCell(size, k)
  {
  }

  function Write(g: Grid, size: nat, cells: seq<(Cell, nat)>, word: seq<bool>): (r: Grid)
    requires GridOk(g, size) && |word| == 15 && forall k | 0 <= k < |cells| :: In(cells[k].0, size) && cells[k].1 <= 15
    ensures GridOk(r, size)
    ensures forall c | In(c, size) && (forall k | 0 <= k < |cells| :: cells[k].0 != c) :: Get(r, size, c) == Get(g, size, c)
  {
    if cells == [] then g
    else
      var (init, (c, b)) := (cells[..|cells| - 1], cells[|cells| - 1]);
      Set(Write(g, size, init, word), size, c, b == 15 || word[b])
  }

  /** A written cell does not depend on what was there. */
  lemma {:induction false} WriteCovers(g: Grid, h: Grid, size: nat, cells: seq<(Cell, nat)>, word: seq<bool>, c: Cell)
    requires GridOk(g, size) && GridOk(h, size) && |word| == 15 && In(c, size)
    requires forall k | 0 <= k < |cells| :: In(cells[k].0, size) && cells[k].1 <= 15
    requires Get(g, size, c) == Get(h, size, c) || exists k | 0 <= k < |cells| :: cells[k].0 == c
    ensures Get(Write(g, size, cells, word), size, c) == Get(Write(h, size, cells, word), size, c)
  {
    if cells != [] {
      var init := cells[..|cells| - 1];
      if cells[|cells| - 1].0 != c {
        if Get(g, size, c) != Get(h, size, c) {
          var k :| 0 <= k < |cells| && cells[k].0 == c;
          assert init[k].0 == c;
        }
        WriteCovers(g, h, size, init, word, c);
      }
    }
  }

  function Formatted(g: Grid, size: nat, word: seq<bool>): (r: Grid)
    requires SizeOk(size) && GridOk(g, size) && |word| == 15
    ensures GridOk(r, size)
  {
    Write(g, size, FormatCells(size), word)
  }

  /** The format cells are among the function modules, so the mask leaves them alone. */
  predicate FormatReserved(fn: Grid, size: nat)
    requires SizeOk(size) && GridOk(fn, size)
  {
    forall k | 0 <= k < |FormatCells(size)| :: Get(fn, size, FormatCells(size)[k].0)
  }

  /** Format bits overwrite older ones, and commute with masking. */
  lemma FormatAgain(g: Grid, fn: Grid, size: nat, mask: nat, a: seq<bool>, b: seq<bool>)
    requires SizeOk(size) && GridOk(g, size) && GridOk(fn, size) && FormatReserved(fn, size) && mask < 8 && |a| == |b| == 15
    ensures Formatted(Formatted(g, size, a), size, b) == Formatted(g, size, b)
    ensures Formatted(Masked(g, fn, size, mask), size, b) == Masked(Formatted(g, size, b), fn, size, mask)
  {
    hide Invert, FormatCells, Write, Masked;
    var cells := FormatCells(size);
    var fa, m := Formatted(g, size, a), Masked(g, fn, size, mask);
    forall c | In(c, size) ensures Get(Formatted(fa, size, b), size, c) == Get(Formatted(g, size, b), size, c) {
      WriteCovers(fa, g, size, cells, b, c);
    }
    SameGrid(Formatted(fa, size, b), Formatted(g, size, b), size);
    var x, y := Formatted(m, size, b), Masked(Formatted(g, size, b), fn, size, mask);
    forall c | In(c, size) ensures Get(x, size, c) == Get(y, size, c) {
      if Get(fn, size, c) { WriteCovers(m, g, size, cells, b, c); }
    }
    SameGrid(x, y, size);
  }

  /** Only the free cells are read, so neither format bits nor what the mask skips can matter. */
  lemma ReadsAlike(g: Grid, h: Grid, fn: Grid, size: nat, s: Scan)
    requires SizeOk(size) && GridOk(g, size) && GridOk(h, size) && GridOk(fn, size) && Stop(size, s)
    requires forall c | In(c, size) && !Get(fn, size, c) :: Get(g, size, c) == Get(h, size, c)
    ensures ReadBefore(g, fn, size, s) == ReadBefore(h, fn, size, s)
    decreases s.pair, s.vert, s.left
  {
    if s.left > 0 { ReadsAlike(g, h, fn, size, s.(left := s.left - 1)); }
    else if s.vert > 0 { ReadsAlike(g, h, fn, size, Scan(s.pair, s.vert - 1, 2)); }
    else if s.pair > 0 { ReadsAlike(g, h, fn, size, Scan(s.pair - 1, size, 0)); }
  }

  lemma FormatReadsAlike(g: Grid, fn: Grid, size: nat, word: seq<bool>)
    requires SizeOk(size) && GridOk(g, size) && GridOk(fn, size) && FormatReserved(fn, size) && |word| == 15
    ensures ReadAll(Formatted(g, size, word), fn, size) == ReadAll(g, fn, size)
  {
    hide FormatCells, Write;
    ReadsAlike(Formatted(g, size, word), g, fn, size, Scan(size / 2, 0, 0));
  }

  // ------------------------------------------------------------------ the object

  const LONG_MAX := 0x7fff_ffff

  /** The finished symbol for a mask: masked, with its format bits. */
  function Finished(g: Grid, fn: Grid, size: nat, mask: nat, words: seq<seq<bool>>): Grid
    requires SizeOk(size) && GridOk(g, size) && GridOk(fn, size) && mask < 8 && |words| == 8 && forall k | 0 <= k < 8 :: |words[k]| == 15
  {
    Formatted(Masked(g, fn, size, mask), size, words[mask])
  }

  /** Outside the function modules the second grid is the first with the cells of the mask's picture inverted. */
  ghost predicate Flipped(g: Grid, h: Grid, fn: Grid, size: nat, mask: nat)
    requires GridOk(g, size) && GridOk(h, size) && GridOk(fn, size) && mask < 8
  {
    forall c | In(c, size) && !Get(fn, size, c) :: Get(h, size, c) == (Get(g, size, c) != Marked(mask, c))
  }

  lemma FinishedFlips(g: Grid, fn: Grid, size: nat, mask: nat, words: seq<seq<bool>>)
    requires SizeOk(size) && GridOk(g, size) && GridOk(fn, size) && FormatReserved(fn, size) && mask < 8
    requires |words| == 8 && forall k | 0 <= k < 8 :: |words[k]| == 15
    ensures GridOk(Finished(g, fn, size, mask, words), size) && Flipped(g, Finished(g, fn, size, mask, words), fn, size, mask)
  {
    hide Invert, Marked, Masked, Write, FormatCells;
    var m := Masked(g, fn, size, mask);
    var h := Finished(g, fn, size, mask, words);
    forall c | In(c, size) && !Get(fn, size, c) ensures Get(h, size, c) == (Get(g, size, c) != Marked(mask, c)) {
      InvertsPicture(mask, c);
      assert Get(h, size, c) == Get(m, size, c);
    }
  }

  predicate NoBetter(p: int, q: int, earlier: bool) { p <= q && (earlier ==> p < q) }

  /** The first mask of least penalty. */
  predicate Best(g: Grid, fn: Grid, size: nat, words: seq<seq<bool>>, penalty: Grid -> int, mask: int, n: nat)
    requires SizeOk(size) && GridOk(g, size) && GridOk(fn, size) && |words| == 8 && forall k | 0 <= k < 8 :: |words[k]| == 15
    requires n <= 8
  {
    0 <= mask < n &&
    var p := penalty(Finished(g, fn, size, mask, words));
    forall k | 0 <= k < n :: NoBetter(p, penalty(Finished(g, fn, size, k, words)), k < mask)
  }

  lemma DrawStarts(was: Grid, fn: Grid, size: nat, data: Bytes)
    requires SizeOk(size) && GridOk(was, size) && GridOk(fn, size)
    ensures Drawn(was, was, fn, size, data, Scan(0, 0, 0), 0)
  {
  }

  lemma DrawEnds(was: Grid, g: Grid, fn: Grid, size: nat, data: Bytes, i: nat)
    requires SizeOk(size) && GridOk(was, size) && GridOk(g, size) && GridOk(fn, size) && 8 * |data| <= |ReadAll(was, fn, size)|
    requires Drawn(was, g, fn, size, data, Scan(size / 2, 0, 0), i)
    ensures i == 8 * |data|
    ensures var bits := ReadAll(g, fn, size);
      |bits| == |ReadAll(was, fn, size)| && (forall k | 0 <= k < 8 * |data| :: bits[k] == BitAt(data, k)) &&
      (forall k | 8 * |data| <= k < |bits| :: bits[k] == ReadAll(was, fn, size)[k])
    ensures forall c | In(c, size) && (Get(fn, size, c) || c.x == 6) :: Get(g, size, c) == Get(was, size, c)
  {
    hide BitAt, ScanOf;
  }

  /** The switch in applyMask. */
  method Inverting(mask: nat, x: nat, y: nat) returns (invert: bool)
    requires mask < 8
    ensures invert <==> Marked(mask, Cell(x, y))
    ensures invert <==> Invert(mask, Cell(x, y))
  {
    InvertsPicture(mask, Cell(x, y));
    hide Marked;
    if mask == 0 { invert := (x + y) % 2 == 0; }
    else if mask == 1 { invert := y % 2 == 0; }
    else if mask == 2 { invert := x % 3 == 0; }
    else if mask == 3 { invert := (x + y) % 3 == 0; }
    else if mask == 4 { invert := (x / 3 + y / 2) % 2 == 0; }
    else if mask == 5 { invert := x * y % 2 + x * y % 3 == 0; }
    else if mask == 6 { invert := (x * y % 2 + x * y % 3) % 2 == 0; }
    else { invert := ((x + y) % 2 + x * y % 3) % 2 == 0; }
  }

  class QrCode {
    const size: nat
    var modules: Grid
    var isFunction: Grid

    ghost predicate Valid()
      reads this
    {
      SizeOk(size) && GridOk(modules, size) && GridOk(isFunction, size)
    }

    /** A symbol whose function patterns are drawn. */
    constructor (size: nat, modules: Grid, isFunction: Grid)
      requires SizeOk(size) && GridOk(modules, size) && GridOk(isFunction, size)
      ensures Valid() && this.size == size && this.modules == modules && this.isFunction == isFunction
    {
      this.size, this.modules, this.isFunction := size, modules, isFunction;
    }

    /** One row of a column pair, right cell first. */
    method DrawRow(data: Bytes, right: int, vert: nat, i0: nat, ghost was: Grid, ghost pair: nat) returns (i: nat)
      requires Valid() && GridOk(was, size) && pair < size / 2 && vert < size && right == Right(size, pair)
      requires Drawn(was, modules, isFunction, size, data, Scan(pair, vert, 0), i0)
      modifies this`modules
      ensures Valid() && Drawn(was, modules, isFunction, size, data, Scan(pair, vert, 2), i)
    {
      hide Drawn, ScanOf;
      i := i0;
      var j := 0;
      while j < 2
        invariant j <= 2 && Valid() && Drawn(was, modules, isFunction, size, data, Scan(pair, vert, j), i)
      {
        var x := right - j;
        var upward := (right + 1) % 4 < 2;
        var y := if upward then size - 1 - vert else vert;
        ghost var s := Scan(pair, vert, j);
        ScanIsOneToOne(size, s);
        assert Cell(x, y) == CellAt(size, s);
        DrawStep(was, modules, isFunction, size, data, s, i);
        if !Get(isFunction, size, Cell(x, y)) && i < 8 * |data| {
          modules := Set(modules, size, Cell(x, y), BitAt(data, i));
          i := i + 1;
        }
        j := j + 1;
      }
    }

    /** drawCodewords: the bits go to the free cells in scan order; what does not fit, or is not free, stays. */
    method DrawCodewords(data: Bytes)
      requires Valid() && 8 * |data| <= |ReadAll(modules, isFunction, size)|
      modifies this`modules
      ensures Valid()
      ensures var bits := ReadAll(modules, isFunction, size);
        |bits| == |ReadAll(old(modules), isFunction, size)| && (forall k | 0 <= k < 8 * |data| :: bits[k] == BitAt(data, k)) &&
        (forall k | 8 * |data| <= k < |bits| :: bits[k] == ReadAll(old(modules), isFunction, size)[k])
      ensures forall c | In(c, size) && (Get(isFunction, size, c) || c.x == 6) :: Get(modules, size, c) == Get(old(modules), size, c)
    {
      hide BitAt, Drawn, ReadBefore, ScanOf, CellAt, Right, SizeOk;
      SizeIsOdd(size);
      ghost var was, fn := modules, isFunction;
      var i: nat := 0;
      var right: int := size - 1;
      ghost var pair := 0;
      DrawStarts(was, fn, size, data);
      while right >= 1
        invariant Valid() && isFunction == fn && pair <= size / 2
        invariant right == size - 1 - 2 * pair - (if size - 1 - 2 * pair < 6 then 1 else 0)
        invariant Drawn(was, modules, fn, size, data, Scan(pair, 0, 0), i)
        decreases right
      {
        RightOf(size, pair);
        if right == 6 { right := 5; }
        assert right == Right(size, pair);
        var vert := 0;
        while vert < size
          invariant Valid() && isFunction == fn && vert <= size
          invariant Drawn(was, modules, fn, size, data, Scan(pair, vert, 0), i)
        {
          i := DrawRow(data, right, vert, i, was, pair);
          RowEnds(was, modules, fn, size, data, pair, vert, i);
          vert := vert + 1;
        }
        RowEnds(was, modules, fn, size, data, pair, 0, i);
        pair := pair + 1;
        right := right - 2;
      }
      assert pair == size / 2;
      DrawEnds(was, modules, fn, size, data, i);
      assert i == 8 * |data|;
    }

    /** applyMask; an error for a mask out of range. */
    method ApplyMask(mask: int) returns (ok: bool)
      requires Valid()
      modifies this`modules
      ensures ok <==> 0 <= mask <= 7
      ensures Valid() && modules == if ok then Masked(old(modules), isFunction, size, mask) else old(modules)
      ensures ok ==> forall c | In(c, size) ::
        Get(modules, size, c) == (Get(old(modules), size, c) != (Marked(mask, c) && !Get(isFunction, size, c)))
    {
      if mask < 0 || mask > 7 { return false; }
      hide Invert, Marked;
      ghost var was := modules;
      var y := 0;
      while y < size
        invariant y <= size && Valid()
        invariant forall c | In(c, size) :: Get(modules, size, c) == if c.y < y then Get(Masked(was, isFunction, size, mask), size, c) else Get(was, size, c)
      {
        var x := 0;
        while x < size
          invariant x <= size && Valid()
          invariant forall c | In(c, size) ::
            (Get(modules, size, c) ==
             if c.y < y || (c.y == y && c.x < x) then Get(Masked(was, isFunction, size, mask), size, c) else Get(was, size, c))
        {
          var c := Cell(x, y);
          var invert := Inverting(mask, x, y);
          modules := Set(modules, size, c, Get(modules, size, c) != (invert && !Get(isFunction, size, c)));
          x := x + 1;
        }
        y := y + 1;
      }
      SameGrid(modules, Masked(was, isFunction, size, mask), size);
      forall c | In(c, size) ensures Invert(mask, c) <==> Marked(mask, c) { InvertsPicture(mask, c); }
      return true;
    }

    /** setFunctionModule: the cell is set and marked. */
    method SetFunctionModule(c: Cell, dark: bool, ghost was: Grid, ghost k: nat, word: seq<bool>)
      requires Valid() && |word| == 15 && FormatReserved(isFunction, size) && k < 31 && GridOk(was, size)
      requires FormatCell(size, k).0 == c && dark == (FormatCell(size, k).1 == 15 || word[FormatCell(size, k).1])
      requires modules == Write(was, size, FormatCells(size)[..k], word)
      modifies this
      ensures Valid() && modules == Write(was, size, FormatCells(size)[..k + 1], word) && isFunction == old(isFunction)
    {
      hide FormatCells, FormatCell;
      ghost var cells := FormatCells(size);
      CellsAt(size, k);
      assert cells[..k + 1][..k] == cells[..k] && cells[k] in cells;
      modules := Set(modules, size, c, dark);
      isFunction := Set(isFunction, size, c, true);
      SameGrid(isFunction, old(isFunction), size);
    }

    /** drawFormatBits, for a word of format bits: both copies, and the dark cell. */
    method DrawFormatBits(word: seq<bool>)
      requires Valid() && |word| == 15 && FormatReserved(isFunction, size)
      modifies this
      ensures Valid() && modules == Formatted(old(modules), size, word) && isFunction == old(isFunction)
      ensures ShowsWord(modules, size, word)
    {
      hide FormatCells, Write, FormatReserved;
      ghost var was := modules;
      assert FormatCells(size)[..0] == [];
      WriteNone(was, size, word);
      for i := 0 to 6
        invariant Valid() && isFunction == old(isFunction) && modules == Write(was, size, FormatCells(size)[..i], word)
      {
        SetFunctionModule(Cell(8, i), word[i], was, i, word);
      }
      SetFunctionModule(Cell(8, 7), word[6], was, 6, word);
      SetFunctionModule(Cell(8, 8), word[7], was, 7, word);
      SetFunctionModule(Cell(7, 8), word[8], was, 8, word);
      for i := 9 to 15
        invariant Valid() && isFunction == old(isFunction) && modules == Write(was, size, FormatCells(size)[..i], word)
      {
        SetFunctionModule(Cell(14 - i, 8), word[i], was, i, word);
      }
      for i := 0 to 8
        invariant Valid() && isFunction == old(isFunction) && modules == Write(was, size, FormatCells(size)[..15 + i], word)
      {
        SetFunctionModule(Cell(size - 1 - i, 8), word[i], was, 15 + i, word);
      }
      for i := 8 to 15
        invariant Valid() && isFunction == old(isFunction) && modules == Write(was, size, FormatCells(size)[..15 + i], word)
      {
        SetFunctionModule(Cell(8, size - 15 + i), word[i], was, 15 + i, word);
      }
      SetFunctionModule(Cell(8, size - 8), true, was, 30, word);
      assert FormatCells(size)[..31] == FormatCells(size);
      FormatShows(was, size, word);
    }

    /** The constructor's end: the mask asked for, or the first of least penalty, applied once. `penalty` stands for
        getPenaltyScore and `words` for the eight format words. */
    method Finish(asked: int, words: seq<seq<bool>>, penalty: Grid -> int) returns (mask: nat)
      requires Valid() && -1 <= asked <= 7 && FormatReserved(isFunction, size)
      requires |words| == 8 && (forall k | 0 <= k < 8 :: |words[k]| == 15) && forall g :: penalty(g) < LONG_MAX
      modifies this
      ensures Valid() && mask < 8 && isFunction == old(isFunction) && modules == Finished(old(modules), isFunction, size, mask, words)
      ensures ShowsWord(modules, size, words[mask]) && Flipped(old(modules), modules, isFunction, size, mask)
      ensures asked >= 0 ==> mask == asked
      ensures asked == -1 ==> Best(old(modules), isFunction, size, words, penalty, mask, 8)
    {
      hide Invert, Masked, FormatCells, Formatted, ShowsWord, Marked;
      ghost var was := modules;
      var msk := asked;
      if msk == -1 {
        var minPenalty := LONG_MAX;
        var i := 0;
        while i < 8
          invariant i <= 8 && Valid() && isFunction == old(isFunction) && -1 <= msk < i
          invariant modules == if i == 0 then was else Formatted(was, size, words[i - 1])
          invariant if i == 0 then msk == -1 && minPenalty == LONG_MAX
            else Best(was, isFunction, size, words, penalty, msk, i) && minPenalty == penalty(Finished(was, isFunction, size, msk, words))
        {
          ghost var before := modules;
          var ok := ApplyMask(i);
          DrawFormatBits(words[i]);
          TryMask(was, before, isFunction, size, i, words, if i == 0 then words[0] else words[i - 1]);
          var p := penalty(modules);
          if p < minPenalty {
            msk := i;
            minPenalty := p;
          }
          ok := ApplyMask(i);
          i := i + 1;
        }
      }
      mask := msk;
      ghost var before := modules;
      var ok := ApplyMask(msk);
      DrawFormatBits(words[msk]);
      LastMask(was, before, isFunction, size, msk, words);
      FinishedFlips(was, isFunction, size, msk, words);
    }
  }

  /** One mask tried: what is scored is the finished symbol, and undoing it leaves only format bits behind. */
  lemma TryMask(was: Grid, g: Grid, fn: Grid, size: nat, i: nat, words: seq<seq<bool>>, last: seq<bool>)
    requires SizeOk(size) && GridOk(was, size) && GridOk(g, size) && GridOk(fn, size) && FormatReserved(fn, size) && i < 8
    requires |words| == 8 && (forall k | 0 <= k < 8 :: |words[k]| == 15) && |last| == 15
    requires g == was || g == Formatted(was, size, last)
    ensures var h := Formatted(Masked(g, fn, size, i), size, words[i]);
      h == Finished(was, fn, size, i, words) && Masked(h, fn, size, i) == Formatted(was, size, words[i])
  {
    hide Invert, Masked, FormatCells, Formatted;
    FormatAgain(was, fn, size, i, last, words[i]);
    FormatAgain(g, fn, size, i, last, words[i]);
    MaskTwice(Formatted(was, size, words[i]), fn, size, i);
  }

  lemma LastMask(was: Grid, g: Grid, fn: Grid, size: nat, i: nat, words: seq<seq<bool>>)
    requires SizeOk(size) && GridOk(was, size) && GridOk(g, size) && GridOk(fn, size) && FormatReserved(fn, size) && i < 8
    requires |words| == 8 && (forall k | 0 <= k < 8 :: |words[k]| == 15)
    requires g == was || g == Formatted(was, size, words[7])
    ensures Formatted(Masked(g, fn, size, i), size, words[i]) == Finished(was, fn, size, i, words)
  {
    TryMask(was, g, fn, size, i, words, words[7]);
  }

  /** Unmasking a finished symbol and scanning it again gives the bits that were drawn. */
  lemma FinishedReadsBack(g: Grid, fn: Grid, size: nat, mask: nat, words: seq<seq<bool>>)
    requires SizeOk(size) && GridOk(g, size) && GridOk(fn, size) && FormatReserved(fn, size) && mask < 8
    requires |words| == 8 && (forall k | 0 <= k < 8 :: |words[k]| == 15)
    ensures ReadAll(Masked(Finished(g, fn, size, mask, words), fn, size, mask), fn, size) == ReadAll(g, fn, size)
  {
    hide Invert, Masked, FormatCells, Formatted, ReadAll;
    FormatAgain(g, fn, size, mask, words[0], words[mask]);
    MaskTwice(Formatted(g, size, words[mask]), fn, size, mask);
    FormatReadsAlike(g, fn, size, words[mask]);
  }
}
