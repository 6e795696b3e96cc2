/**
 * The image layer of the PNG screenshot validator: the pass sizes of flat and
 * Adam7-interlaced images (section 2.6 of RFC 2083) and the scanline cursor that
 * walks the decoded bytes (filter types, section 6 of RFC 2083).
 */
module PngImage {
  import opened Common
  import opened PngChunks

  /** One Adam7 pass: the grid of pixels (xStart + i * xStep, yStart + j * yStep). */
  datatype Pass = Pass(xStart: nat, yStart: nat, xStep: nat, yStep: nat)

  const ADAM7: seq<Pass> := [
    Pass(0, 0, 8, 8), Pass(4, 0, 8, 8), Pass(0, 4, 4, 8), Pass(2, 0, 4, 4),
    Pass(0, 2, 2, 4), Pass(1, 0, 2, 2), Pass(0, 1, 1, 2)
  ]

  /** The reduced image a pass transmits. */
  datatype Extent = Extent(width: nat, height: nat)

  /** Number of grid lines `start, start + step, ...` below `size`, as the validator computes it. */
  function PassLength(size: nat, start: nat, step: nat): nat
    requires step > 0
  {
    if size <= start then 0 else (size - start + step - 1) / step
  }

  function PassExtent(h: Header, p: Pass): Extent
    requires p.xStep > 0 && p.yStep > 0
  {
    Extent(PassLength(h.width, p.xStart, p.xStep), PassLength(h.height, p.yStart, p.yStep))
  }

  /** The non-empty passes among the first `n`, in transmission order. */
  function InterlacedPasses(h: Header, n: nat): seq<Extent>
    requires n <= |ADAM7|
  {
    if n == 0 then [] else
      var e := PassExtent(h, ADAM7[n - 1]);
      InterlacedPasses(h, n - 1) + (if e.width > 0 && e.height > 0 then [e] else [])
  }

  function Passes(h: Header): seq<Extent> {
    if h.interlaced then InterlacedPasses(h, |ADAM7|) else [Extent(h.width, h.height)]
  }

  // ---- Adam7 covers the image exactly -----------------------------------------------------------

  /** Coordinate `x` lies on the grid `start, start + step, ...`. */
  predicate OnGrid(x: nat, start: nat, step: nat)
    requires step > 0
  {
    x >= start && (x - start) % step == 0
  }

  predicate InPass(p: Pass, x: nat, y: nat)
    requires p.xStep > 0 && p.yStep > 0
  {
    OnGrid(x, p.xStart, p.xStep) && OnGrid(y, p.yStart, p.yStep)
  }

  /** The pass a pixel travels in, read off its low coordinate bits. */
  function PassOf(x: nat, y: nat): (k: nat)
    ensures k < |ADAM7|
  {
    if y % 2 == 1 then 6
    else if x % 2 == 1 then 5
    else if y % 4 == 2 then 4
    else if x % 4 == 2 then 3
    else if y % 8 == 4 then 2
    else if x % 8 == 4 then 1
    else 0
  }

  /** Every pixel belongs to exactly one of the seven passes. */
  lemma EveryPixelInExactlyOnePass(x: nat, y: nat, k: nat)
    requires k < |ADAM7|
    ensures InPass(ADAM7[k], x, y) <==> k == PassOf(x, y)
  {
    hide OnGrid;
    GridBits(x);
    GridBits(y);
  }

  /** Membership in each Adam7 grid, in terms of the low three bits of a coordinate. */
  lemma GridBits(x: nat)
    ensures OnGrid(x, 0, 1)
    ensures OnGrid(x, 1, 2) <==> x % 2 == 1
    ensures OnGrid(x, 0, 2) <==> x % 2 == 0
    ensures OnGrid(x, 2, 4) <==> x % 4 == 2
    ensures OnGrid(x, 0, 4) <==> x % 4 == 0
    ensures OnGrid(x, 4, 8) <==> x % 8 == 4
    ensures OnGrid(x, 0, 8) <==> x % 8 == 0
    ensures x % 2 == 0 <==> x % 4 == 0 || x % 4 == 2
    ensures x % 4 == 0 <==> x % 8 == 0 || x % 8 == 4
  {
    GridResidue(x, 1, 2);
    GridResidue(x, 0, 2);
    GridResidue(x, 2, 4);
    GridResidue(x, 0, 4);
    GridResidue(x, 4, 8);
    GridResidue(x, 0, 8);
    GridResidue(x, 0, 1);
    ResidueHalves(x, 2, 4);
    ResidueHalves(x, 4, 8);
  }

  lemma GridResidue(x: nat, start: nat, step: nat)
    requires start < step
    ensures OnGrid(x, start, step) <==> x % step == start
  {
    var (q, r) := (x / step, x % step);
    assert x == q * step + r;
    if r >= start {
      DivisionUnique(x - start, step, q, r - start);
    } else if x >= start {
      MulStep(q - 1, step);
      DivisionUnique(x - start, step, q - 1, r - start + step);
    }
  }

  /** Modulo 2m, a residue modulo m splits in two. */
  lemma ResidueHalves(x: nat, m: nat, d: nat)
    requires m > 0 && d == m + m
    ensures x % m == 0 <==> x % d == 0 || x % d == m
  {
    var (q, r) := (x / d, x % d);
    assert x == q * d + r;
    Distribute(q, q, m);
    Distribute(m, m, q);
    if r < m {
      DivisionUnique(x, m, q + q, r);
    } else {
      MulStep(q + q, m);
      DivisionUnique(x, m, q + q + 1, r - m);
    }
  }

  /** The columns (or rows) of the image on a grid. */
  ghost function GridLines(size: nat, start: nat, step: nat): set<nat>
    requires step > 0
  {
    set x: nat | x < size && OnGrid(x, start, step)
  }

  /** A computed pass length counts exactly the grid lines inside the image. */
  lemma {:induction false} PassLengthCounts(size: nat, start: nat, step: nat)
    requires step > 0
    ensures |GridLines(size, start, step)| == PassLength(size, start, step)
    decreases size
  {
    if size == 0 {
      assert GridLines(size, start, step) == {};
    } else {
      PassLengthCounts(size - 1, start, step);
      var before := GridLines(size - 1, start, step);
      PassLengthStep(size - 1, start, step);
      if OnGrid(size - 1, start, step) {
        assert GridLines(size, start, step) == before + {size - 1};
      } else {
        assert GridLines(size, start, step) == before;
      }
    }
  }

  lemma PassLengthStep(size: nat, start: nat, step: nat)
    requires step > 0
    ensures PassLength(size + 1, start, step)
         == PassLength(size, start, step) + if OnGrid(size, start, step) then 1 else 0
  {
    if size >= start {
      var d := size - start;
      CeilingStep(d, step);
    }
  }

  lemma CeilingStep(d: nat, step: nat)
    requires step > 0
    ensures (d + step) / step == (d + step - 1) / step + if d % step == 0 then 1 else 0
  {
    var (q, r) := (d / step, d % step);
    assert d == q * step + r;
    DivisionUnique(d + step, step, q + 1, r);
    if r == 0 {
      DivisionUnique(d + step - 1, step, q, step - 1);
    } else {
      DivisionUnique(d + step - 1, step, q + 1, r - 1);
    }
  }

  lemma DivisionUnique(n: nat, step: nat, q: nat, r: nat)
    requires 0 <= r < step && n == q * step + r
    ensures n / step == q && n % step == r
  {
    var p := n / step;
    assert n == p * step + n % step;
    if p < q {
      MulMonotone(p + 1, q, step);
    } else if p > q {
      MulMonotone(q + 1, p, step);
    }
  }

  lemma MulMonotone(a: nat, b: nat, c: nat)
    requires a <= b
    ensures a * c <= b * c
  {
  }

  /** A pass is kept exactly when some pixel of the image travels in it. */
  lemma PassKeptWhenItHasPixels(h: Header, p: Pass)
    requires p.xStep > 0 && p.yStep > 0
    ensures PassExtent(h, p).width > 0 && PassExtent(h, p).height > 0
      <==> exists x: nat, y: nat :: x < h.width && y < h.height && InPass(p, x, y)
  {
    PassLengthPositive(h.width, p.xStart, p.xStep);
    PassLengthPositive(h.height, p.yStart, p.yStep);
    if h.width > p.xStart && h.height > p.yStart {
      assert InPass(p, p.xStart, p.yStart);
    }
  }

  lemma PassLengthPositive(size: nat, start: nat, step: nat)
    requires step > 0
    ensures PassLength(size, start, step) > 0 <==> size > start
  {
    if size > start {
      DivisionAtLeastOne(size - start + step - 1, step);
    }
  }

  lemma DivisionAtLeastOne(n: nat, step: nat)
    requires 0 < step <= n
    ensures n / step >= 1
  {
    assert n == n / step * step + n % step;
  }

  function Area(ps: seq<Extent>): nat {
    if ps == [] then 0 else Area(ps[..|ps| - 1]) + ps[|ps| - 1].width * ps[|ps| - 1].height
  }

  lemma AreaSnoc(ps: seq<Extent>, e: Extent)
    ensures Area(ps + [e]) == Area(ps) + e.width * e.height
  {
    assert (ps + [e])[..|ps|] == ps;
  }

  /** The area of the first `n` passes: dropping the empty ones loses nothing. */
  lemma InterlacedAreaStep(h: Header, n: nat)
    requires 0 < n <= |ADAM7|
    ensures var e := PassExtent(h, ADAM7[n - 1]);
            Area(InterlacedPasses(h, n)) == Area(InterlacedPasses(h, n - 1)) + e.width * e.height
  {
    var e := PassExtent(h, ADAM7[n - 1]);
    if e.width > 0 && e.height > 0 {
      AreaSnoc(InterlacedPasses(h, n - 1), e);
    } else {
      assert e.width * e.height == 0;
      assert InterlacedPasses(h, n - 1) + [] == InterlacedPasses(h, n - 1);
    }
  }

  /** A grid of step s splits into the two grids of step 2s. */
  lemma GridHalves(size: nat)
    ensures PassLength(size, 0, 8) + PassLength(size, 4, 8) == PassLength(size, 0, 4)
    ensures PassLength(size, 0, 4) + PassLength(size, 2, 4) == PassLength(size, 0, 2)
    ensures PassLength(size, 0, 2) + PassLength(size, 1, 2) == size
  {
    GridHalves8(size);
    GridHalves4(size);
    GridHalves2(size);
  }

  lemma GridHalves8(size: nat)
    ensures PassLength(size, 0, 8) + PassLength(size, 4, 8) == PassLength(size, 0, 4)
  {
  }

  lemma GridHalves4(size: nat)
    ensures PassLength(size, 0, 4) + PassLength(size, 2, 4) == PassLength(size, 0, 2)
  {
  }

  lemma GridHalves2(size: nat)
    ensures PassLength(size, 0, 2) + PassLength(size, 1, 2) == size
  {
  }

  /** The passes of either method carry each pixel once: their areas add up to the image. */
  lemma PassesCoverImage(h: Header)
    ensures Area(Passes(h)) == h.width * h.height
  {
    if h.interlaced {
      InterlacedCovers(h);
    } else {
      AreaSnoc([], Extent(h.width, h.height));
    }
  }

  lemma InterlacedCovers(h: Header)
    ensures Area(InterlacedPasses(h, 7)) == h.width * h.height
  {
    hide PassLength, Area;
    GridHalves(h.width);
    GridHalves(h.height);
    InterlacedAreaStep(h, 1);
    InterlacedAreaStep(h, 2);
    InterlacedAreaStep(h, 3);
    InterlacedAreaStep(h, 4);
    InterlacedAreaStep(h, 5);
    InterlacedAreaStep(h, 6);
    InterlacedAreaStep(h, 7);
    WholeGrid(h.width);
    Telescopes(
      PassLength(h.width, 0, 8), PassLength(h.width, 4, 8), PassLength(h.width, 2, 4), PassLength(h.width, 1, 2),
      PassLength(h.height, 0, 8), PassLength(h.height, 4, 8), PassLength(h.height, 2, 4), PassLength(h.height, 1, 2));
    NoArea();
  }

  lemma WholeGrid(size: nat)
    ensures PassLength(size, 0, 1) == size
  {
  }

  lemma NoArea()
    ensures Area([]) == 0
  {
  }

  /** Each pass doubles the covered grid in one direction. */
  lemma Telescopes(c: nat, c4: nat, c2: nat, c1: nat, r: nat, r4: nat, r2: nat, r1: nat)
    ensures c * r + c4 * r + (c + c4) * r4 + c2 * (r + r4) + (c + c4 + c2) * r2 + c1 * (r + r4 + r2)
            + (c + c4 + c2 + c1) * r1
         == (c + c4 + c2 + c1) * (r + r4 + r2 + r1)
  {
    Distribute(c, c4, r);
    Distribute(r, r4, c + c4);
    Distribute(c + c4, c2, r + r4);
    Distribute(r + r4, r2, c + c4 + c2);
    Distribute(c + c4 + c2, c1, r + r4 + r2);
    Distribute(r + r4 + r2, r1, c + c4 + c2 + c1);
  }

  lemma Distribute(a: nat, b: nat, c: nat)
    ensures a * c + b * c == (a + b) * c && c * a + c * b == (a + b) * c
  {
  }

  // ---- Scanline accounting ----------------------------------------------------------------------

  function RowBytes(width: nat, bitsPerPixel: nat): nat {
    (width * bitsPerPixel + 7) / 8
  }

  /** A row holds its pixels with less than a byte to spare. */
  lemma RowBytesTight(width: nat, bitsPerPixel: nat)
    ensures 8 * RowBytes(width, bitsPerPixel) - 8 < width * bitsPerPixel <= 8 * RowBytes(width, bitsPerPixel)
  {
  }

  /** The widths of all scanlines, in the order in which they are sent. */
  function LineWidths(ps: seq<Extent>): seq<nat> {
    if ps == [] then []
    else
      var e := ps[|ps| - 1];
      LineWidths(ps[..|ps| - 1]) + seq(e.height, _ => e.width)
  }

  /** Where scanline `i` begins in the decoded bytes: every scanline is one filter byte and a row. */
  function LineStart(widths: seq<nat>, bitsPerPixel: nat, i: nat): nat
    requires i <= |widths|
  {
    if i == 0 then 0 else LineStart(widths, bitsPerPixel, i - 1) + 1 + RowBytes(widths[i - 1], bitsPerPixel)
  }

  predicate FilterOk(decoded: seq<Byte>, at: nat) {
    at < |decoded| && decoded[at] <= 4
  }

  /** Every scanline begins with a filter type 0 to 4. */
  ghost predicate FiltersOk(decoded: seq<Byte>, widths: seq<nat>, bitsPerPixel: nat) {
    forall i: nat | i < |widths| :: FilterOk(decoded, LineStart(widths, bitsPerPixel, i))
  }

  ghost function ScanlineVerdict(decoded: seq<Byte>, widths: seq<nat>, bitsPerPixel: nat): Option<PngError> {
    if !FiltersOk(decoded, widths, bitsPerPixel) then Some(InvalidFilter)
    else if |decoded| != LineStart(widths, bitsPerPixel, |widths|) then Some(InconsistentLength)
    else None
  }

  lemma {:induction false} WidthsPrefix(ps: seq<Extent>, i: nat)
    requires i < |ps|
    ensures LineWidths(ps[..i]) + seq(ps[i].height, _ => ps[i].width) <= LineWidths(ps)
    ensures LineWidths(ps[..i + 1]) == LineWidths(ps[..i]) + seq(ps[i].height, _ => ps[i].width)
    decreases |ps|
  {
    assert ps[..i + 1][..i] == ps[..i];
    if i == |ps| - 1 {
      assert ps[..i + 1] == ps;
    } else {
      WidthsPrefix(ps[..|ps| - 1], i);
      assert ps[..|ps| - 1][..i] == ps[..i];
    }
  }

  method ComputePasses(h: Header) returns (ps: seq<Extent>)
    ensures ps == Passes(h)
  {
    if !h.interlaced {
      ps := [Extent(h.width, h.height)];
    } else {
      ps := [];
      for k := 0 to |ADAM7|
        invariant ps == InterlacedPasses(h, k)
      {
        var p := ADAM7[k];
        var passWidth := if h.width <= p.xStart then 0 else (h.width - p.xStart + p.xStep - 1) / p.xStep;
        var passHeight := if h.height <= p.yStart then 0 else (h.height - p.yStart + p.yStep - 1) / p.yStep;
        if passWidth > 0 && passHeight > 0 {
          ps := ps + [Extent(passWidth, passHeight)];
        }
      }
    }
  }

  lemma NoLines(ps: seq<Extent>, bitsPerPixel: nat)
    ensures LineWidths(ps[..0]) == [] && LineStart(LineWidths(ps), bitsPerPixel, 0) == 0
  {
  }

  /** Within a pass the scanlines follow one another at its width. */
  lemma NextLine(ps: seq<Extent>, bitsPerPixel: nat, i: nat, k: nat)
    requires i < |ps| && k < ps[i].height
    ensures var n := |LineWidths(ps[..i])| + k;
            && n < |LineWidths(ps)|
            && LineStart(LineWidths(ps), bitsPerPixel, n + 1)
               == LineStart(LineWidths(ps), bitsPerPixel, n) + 1 + RowBytes(ps[i].width, bitsPerPixel)
  {
    hide LineWidths, RowBytes;
    WidthsPrefix(ps, i);
    var (sent, pass) := (LineWidths(ps[..i]), seq(ps[i].height, _ => ps[i].width));
    assert LineWidths(ps)[|sent| + k] == (sent + pass)[|sent| + k];
  }

  /** The scanline cursor: one step per row, at the width of its pass. */
  method CheckScanlines(decoded: seq<Byte>, ps: seq<Extent>, bitsPerPixel: nat) returns (r: Option<PngError>)
    ensures r == ScanlineVerdict(decoded, LineWidths(ps), bitsPerPixel)
  {
    hide LineWidths, LineStart;
    ghost var widths := LineWidths(ps);
    NoLines(ps, bitsPerPixel);
    var cursor := 0;
    for i := 0 to |ps|
      invariant LineWidths(ps[..i]) <= widths
      invariant cursor == LineStart(widths, bitsPerPixel, |LineWidths(ps[..i])|)
      invariant forall n: nat | n < |LineWidths(ps[..i])| :: FilterOk(decoded, LineStart(widths, bitsPerPixel, n))
    {
      WidthsPrefix(ps, i);
      ghost var sent := |LineWidths(ps[..i])|;
      var rowBytes := (ps[i].width * bitsPerPixel + 7) / 8;
      for k := 0 to ps[i].height
        invariant sent + ps[i].height <= |widths|
        invariant cursor == LineStart(widths, bitsPerPixel, sent + k)
        invariant forall n: nat | n < sent + k :: FilterOk(decoded, LineStart(widths, bitsPerPixel, n))
      {
        if cursor >= |decoded| || decoded[cursor] > 4 {
          assert !FilterOk(decoded, LineStart(widths, bitsPerPixel, sent + k));
          return Some(InvalidFilter);
        }
        NextLine(ps, bitsPerPixel, i, k);
        cursor := cursor + 1 + rowBytes;
      }
    }
    assert ps[..|ps|] == ps;
    if cursor != |decoded| {
      return Some(InconsistentLength);
    }
    return None;
  }

  lemma MulStep(k: int, c: nat)
    ensures (k + 1) * c == k * c + c
  {
  }

  // ---- What the decoded bytes of an image are ---------------------------------------------------

  /** The reduced image of section 2.6 a pixel is sent in; without interlacing there is one. */
  function PassNumber(h: Header, x: nat, y: nat): nat {
    if h.interlaced then PassOf(x, y) else 0
  }

  ghost predicate RowInPass(h: Header, k: nat, y: nat) {
    exists x: nat :: x < h.width && PassNumber(h, x, y) == k
  }

  ghost predicate ColumnInPass(h: Header, k: nat, x: nat) {
    exists y: nat :: y < h.height && PassNumber(h, x, y) == k
  }

  /** The rows of the image that have a pixel in a pass. */
  ghost function PassRows(h: Header, k: nat): set<nat> {
    set y: nat | y < h.height && RowInPass(h, k, y)
  }

  ghost function PassColumns(h: Header, k: nat): set<nat> {
    set x: nat | x < h.width && ColumnInPass(h, k, x)
  }

  /** The scanlines of the first `n` passes: one for each row of a pass, as wide as the pass has columns. */
  ghost function ScanlineWidths(h: Header, n: nat): seq<nat> {
    if n == 0 then []
    else ScanlineWidths(h, n - 1) + seq(|PassRows(h, n - 1)|, _ => |PassColumns(h, n - 1)|)
  }

  /** A filter type of section 6 and just enough bytes for the pixels of the row. */
  predicate IsScanline(line: seq<Byte>, width: nat, bitsPerPixel: nat) {
    && |line| >= 1 && line[0] in {0, 1, 2, 3, 4}
    && 8 * (|line| - 2) < width * bitsPerPixel <= 8 * (|line| - 1)
  }

  function Joined(lines: seq<seq<Byte>>): seq<Byte> {
    if lines == [] then [] else Joined(lines[..|lines| - 1]) + lines[|lines| - 1]
  }

  ghost predicate AreScanlines(decoded: seq<Byte>, lines: seq<seq<Byte>>, widths: seq<nat>, bitsPerPixel: nat) {
    && |lines| == |widths| && decoded == Joined(lines)
    && forall i | 0 <= i < |lines| :: IsScanline(lines[i], widths[i], bitsPerPixel)
  }

  /** The bytes are the scanlines of the image, pass after pass, and nothing else. */
  ghost predicate HoldsImage(decoded: seq<Byte>, h: Header) {
    exists lines :: AreScanlines(decoded, lines, ScanlineWidths(h, 7), h.bitsPerPixel)
  }

  /** The seven passes as the 8 by 8 pattern of section 2.6 numbers them. */
  const PATTERN: seq<seq<nat>> := [
    [1, 6, 4, 6, 2, 6, 4, 6],
    [7, 7, 7, 7, 7, 7, 7, 7],
    [5, 6, 5, 6, 5, 6, 5, 6],
    [7, 7, 7, 7, 7, 7, 7, 7],
    [3, 6, 4, 6, 3, 6, 4, 6],
    [7, 7, 7, 7, 7, 7, 7, 7],
    [5, 6, 5, 6, 5, 6, 5, 6],
    [7, 7, 7, 7, 7, 7, 7, 7]
  ]

  lemma PassesFollowPattern(x: nat, y: nat)
    ensures |PATTERN| == 8 && forall row | row in PATTERN :: |row| == 8
    ensures PATTERN[y % 8][x % 8] == PassOf(x, y) + 1
  {
    hide PassOf;
    PassByLowBits(x, y);
    PatternCell(x % 8, y % 8);
  }

  lemma PatternCell(x: nat, y: nat)
    requires x < 8 && y < 8
    ensures PATTERN[y][x] == PassOf(x, y) + 1
  {
    var row := PATTERN[y];
    if y % 2 == 1 {
      assert row == [7, 7, 7, 7, 7, 7, 7, 7];
    } else if y % 4 == 2 {
      assert row == [5, 6, 5, 6, 5, 6, 5, 6];
    } else if y == 4 {
      assert row == [3, 6, 4, 6, 3, 6, 4, 6];
    } else {
      assert row == [1, 6, 4, 6, 2, 6, 4, 6];
    }
  }

  lemma LowBits(x: nat)
    ensures x % 2 == x % 8 % 2 && x % 4 == x % 8 % 4 && x % 8 == x % 8 % 8
  {
  }

  lemma PassByLowBits(x: nat, y: nat)
    ensures PassOf(x, y) == PassOf(x % 8, y % 8)
  {
    LowBits(x);
    LowBits(y);
  }

  /** In a pass that is sent, the rows and columns are the grid lines of its start and step. */
  lemma PassIsGrid(h: Header, k: nat)
    requires h.interlaced && k < |ADAM7|
    ensures var e := PassExtent(h, ADAM7[k]);
            if e.width > 0 && e.height > 0 then |PassRows(h, k)| == e.height && |PassColumns(h, k)| == e.width
            else PassRows(h, k) == {}
  {
    var p := ADAM7[k];
    forall x: nat, y: nat
      ensures PassNumber(h, x, y) == k <==> InPass(p, x, y)
    {
      EveryPixelInExactlyOnePass(x, y, k);
    }
    hide PassOf, OnGrid, PassLength, PassNumber;
    PassKeptWhenItHasPixels(h, p);
    PassLengthCounts(h.width, p.xStart, p.xStep);
    PassLengthCounts(h.height, p.yStart, p.yStep);
    if PassExtent(h, p).width > 0 && PassExtent(h, p).height > 0 {
      var x: nat, y: nat :| x < h.width && y < h.height && InPass(p, x, y);
      forall y': nat
        ensures y' in PassRows(h, k) <==> y' in GridLines(h.height, p.yStart, p.yStep)
      {
        assert InPass(p, x, y') <==> OnGrid(y', p.yStart, p.yStep);
      }
      forall x': nat
        ensures x' in PassColumns(h, k) <==> x' in GridLines(h.width, p.xStart, p.xStep)
      {
        assert InPass(p, x', y) <==> OnGrid(x', p.xStart, p.xStep);
      }
      assert PassRows(h, k) == GridLines(h.height, p.yStart, p.yStep);
      assert PassColumns(h, k) == GridLines(h.width, p.xStart, p.xStep);
    }
  }

  /** The scanlines of the passes computed are those of the pixels. */
  lemma {:induction false} InterlacedWidths(h: Header, n: nat)
    requires h.interlaced && n <= |ADAM7|
    ensures LineWidths(InterlacedPasses(h, n)) == ScanlineWidths(h, n)
  {
    if n > 0 {
      InterlacedWidths(h, n - 1);
      PassIsGrid(h, n - 1);
      var (before, e) := (InterlacedPasses(h, n - 1), PassExtent(h, ADAM7[n - 1]));
      if e.width > 0 && e.height > 0 {
        assert (before + [e])[..|before|] == before;
      } else {
        assert before + [] == before;
        assert ScanlineWidths(h, n) == ScanlineWidths(h, n - 1) + [];
      }
    }
  }

  lemma {:induction false} Numbers(n: nat) returns (s: set<nat>)
    ensures |s| == n && forall x: nat :: x in s <==> x < n
  {
    if n == 0 {
      s := {};
    } else {
      s := Numbers(n - 1);
      s := s + {n - 1};
    }
  }

  lemma {:induction false} FlatWidths(h: Header, n: nat)
    requires !h.interlaced && h.width > 0 && h.height > 0 && n > 0
    ensures LineWidths([Extent(h.width, h.height)]) == ScanlineWidths(h, n)
    decreases n
  {
    if n == 1 {
      var rows := Numbers(h.height);
      var columns := Numbers(h.width);
      forall y: nat
        ensures RowInPass(h, 0, y)
      {
        assert PassNumber(h, 0, y) == 0;
      }
      forall x: nat
        ensures ColumnInPass(h, 0, x)
      {
        assert PassNumber(h, x, 0) == 0;
      }
      assert PassRows(h, 0) == rows && PassColumns(h, 0) == columns;
      assert LineWidths([]) == [] && ScanlineWidths(h, 0) == [];
      assert [Extent(h.width, h.height)][..0] == [];
      assert ScanlineWidths(h, 1) == ScanlineWidths(h, 0) + seq(|rows|, _ => |columns|);
    } else {
      FlatWidths(h, n - 1);
      assert PassRows(h, n - 1) == {};
      assert ScanlineWidths(h, n) == ScanlineWidths(h, n - 1) + [];
    }
  }

  lemma PassWidths(h: Header)
    requires h.width > 0 && h.height > 0
    ensures LineWidths(Passes(h)) == ScanlineWidths(h, 7)
  {
    hide LineWidths, ScanlineWidths;
    if h.interlaced {
      InterlacedWidths(h, 7);
    } else {
      FlatWidths(h, 7);
    }
  }

  lemma LineLength(line: seq<Byte>, width: nat, bitsPerPixel: nat)
    ensures IsScanline(line, width, bitsPerPixel)
      <==> |line| == 1 + RowBytes(width, bitsPerPixel) && line[0] <= 4
  {
    RowBytesTight(width, bitsPerPixel);
  }

  lemma {:induction false} StartsAgree(widths: seq<nat>, bitsPerPixel: nat, n: nat, i: nat)
    requires i <= n <= |widths|
    ensures LineStart(widths[..n], bitsPerPixel, i) == LineStart(widths, bitsPerPixel, i)
    ensures LineStart(widths, bitsPerPixel, i) + (n - i) <= LineStart(widths, bitsPerPixel, n)
    decreases n, i
  {
    hide RowBytes;
    if i > 0 {
      StartsAgree(widths, bitsPerPixel, n, i - 1);
    } else if n > 0 {
      StartsAgree(widths, bitsPerPixel, n - 1, 0);
    }
    if i < n {
      StartsAgree(widths, bitsPerPixel, n - 1, i);
    }
  }

  /** Scanlines laid end to end begin where the cursor looks for them. */
  lemma {:induction false} LinesAreFound(decoded: seq<Byte>, lines: seq<seq<Byte>>, widths: seq<nat>, bitsPerPixel: nat)
    requires AreScanlines(decoded, lines, widths, bitsPerPixel)
    ensures |decoded| == LineStart(widths, bitsPerPixel, |widths|) && FiltersOk(decoded, widths, bitsPerPixel)
    decreases |lines|
  {
    hide RowBytes, IsScanline;
    if lines != [] {
      var n := |lines| - 1;
      LineLength(lines[n], widths[n], bitsPerPixel);
      LinesAreFound(Joined(lines[..n]), lines[..n], widths[..n], bitsPerPixel);
      StartsAgree(widths, bitsPerPixel, n, n);
      forall i: nat | i < |widths|
        ensures FilterOk(decoded, LineStart(widths, bitsPerPixel, i))
      {
        if i < n {
          StartsAgree(widths, bitsPerPixel, n, i);
          assert FilterOk(Joined(lines[..n]), LineStart(widths[..n], bitsPerPixel, i));
        }
      }
    }
  }

  /** And bytes in which the cursor finds its filters are scanlines laid end to end. */
  lemma {:induction false} CutIntoLines(decoded: seq<Byte>, widths: seq<nat>, bitsPerPixel: nat)
    returns (lines: seq<seq<Byte>>)
    requires |decoded| == LineStart(widths, bitsPerPixel, |widths|) && FiltersOk(decoded, widths, bitsPerPixel)
    ensures AreScanlines(decoded, lines, widths, bitsPerPixel)
    decreases |widths|
  {
    hide RowBytes, IsScanline;
    if widths == [] {
      lines := [];
    } else {
      var n := |widths| - 1;
      var front := decoded[..LineStart(widths, bitsPerPixel, n)];
      StartsAgree(widths, bitsPerPixel, n, n);
      forall i: nat | i < n
        ensures FilterOk(front, LineStart(widths[..n], bitsPerPixel, i))
      {
        StartsAgree(widths, bitsPerPixel, n, i);
        assert FilterOk(decoded, LineStart(widths, bitsPerPixel, i));
      }
      lines := CutIntoLines(front, widths[..n], bitsPerPixel);
      assert FilterOk(decoded, LineStart(widths, bitsPerPixel, n));
      var last := decoded[LineStart(widths, bitsPerPixel, n)..];
      LineLength(last, widths[n], bitsPerPixel);
      lines := lines + [last];
      assert lines[..n] == lines[..|lines| - 1];
    }
  }

  /** The scanline check passes exactly the bytes that hold the image. */
  lemma CheckedMeansHolds(decoded: seq<Byte>, h: Header)
    requires h.width > 0 && h.height > 0
    ensures ScanlineVerdict(decoded, LineWidths(Passes(h)), h.bitsPerPixel).None? <==> HoldsImage(decoded, h)
  {
    hide FiltersOk, LineStart, LineWidths, Passes, ScanlineWidths, AreScanlines;
    PassWidths(h);
    var widths := ScanlineWidths(h, 7);
    if ScanlineVerdict(decoded, widths, h.bitsPerPixel).None? {
      var lines := CutIntoLines(decoded, widths, h.bitsPerPixel);
    }
    if HoldsImage(decoded, h) {
      var lines :| AreScanlines(decoded, lines, widths, h.bitsPerPixel);
      LinesAreFound(decoded, lines, widths, h.bitsPerPixel);
    }
  }
}
