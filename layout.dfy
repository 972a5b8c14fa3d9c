/** Index arithmetic of the cube buffer.
    A cube buffer holds one full line for every band before the next line
    starts: the value of (line, band, sample) sits at
    `line*bands*samples + band*samples + sample`.  A single band plane, as the
    image library stores it, holds pixel (sample, line) at `line*samples + sample`. */
module Layout {

  /** Position of (row, col) in a row-major grid that is `width` wide. */
  function RowMajor(row: nat, col: nat, width: nat): nat
  {
    row * width + col
  }

  lemma MulLeft(a: nat, b: nat, c: nat)
    requires a <= b
    ensures a * c <= b * c
  {
  }

  /** One more row adds one row's worth of cells. */
  lemma MulPred(n: nat, m: nat)
    requires n > 0
    ensures (n - 1) * m + m == n * m
  {
  }

  /** The same, for a successor given as its own value. */
  lemma MulSucc(a: nat, b: nat, m: nat)
    requires b == a + 1
    ensures a * m + m == b * m
  {
  }

  lemma MulAdd(a: nat, b: nat, c: nat, m: nat)
    requires c == a + b
    ensures a * m + b * m == c * m
  {
  }

  lemma MulAssoc(a: nat, b: nat, c: nat)
    ensures a * (b * c) == a * b * c
  {
  }

  /** Every cell of a `rows` x `width` grid lands inside the grid. */
  lemma {:induction false} RowMajorBounds(row: nat, col: nat, rows: nat, width: nat)
    requires row < rows && col < width
    ensures RowMajor(row, col, width) < rows * width
  {
    MulLeft(row + 1, rows, width);
  }

  /** No two cells of the grid share a position. */
  lemma {:induction false} RowMajorInjective(r1: nat, c1: nat, r2: nat, c2: nat, width: nat)
    requires c1 < width && c2 < width
    requires RowMajor(r1, c1, width) == RowMajor(r2, c2, width)
    ensures r1 == r2 && c1 == c2
  {
    if r1 < r2 {
      MulLeft(r1 + 1, r2, width);
    } else if r2 < r1 {
      MulLeft(r2 + 1, r1, width);
    }
  }

  /** Division and remainder recover the cell from its position. */
  lemma {:induction false} RowMajorSplit(row: nat, col: nat, width: nat)
    requires col < width
    ensures RowMajor(row, col, width) / width == row
    ensures RowMajor(row, col, width) % width == col
  {
    var p := RowMajor(row, col, width);
    var q, r := p / width, p % width;
    assert p == q * width + r;
    RowMajorInjective(q, r, row, col, width);
  }

  /** Every position inside the grid is the position of some cell. */
  lemma {:induction false} RowMajorCover(p: nat, rows: nat, width: nat)
    requires p < rows * width
    ensures width > 0
    ensures p / width < rows && p % width < width
    ensures RowMajor(p / width, p % width, width) == p
  {
    var q := p / width;
    assert p == q * width + p % width;
    if q >= rows {
      MulLeft(rows, q, width);
    }
  }

  /** Offset of (line, band, sample) in a cube buffer of `bands` x `samples` lines. */
  function CubeIndex(line: nat, band: nat, sample: nat, bands: nat, samples: nat): nat
  {
    line * bands * samples + band * samples + sample
  }

  function LineOf(c: nat, bands: nat, samples: nat): nat
    requires bands > 0 && samples > 0
  {
    (c / samples) / bands
  }

  function BandOf(c: nat, bands: nat, samples: nat): nat
    requires bands > 0 && samples > 0
  {
    (c / samples) % bands
  }

  function SampleOf(c: nat, samples: nat): nat
    requires samples > 0
  {
    c % samples
  }

  /** Number of cells of a cube. */
  function CubeSize(lines: nat, bands: nat, samples: nat): nat
  {
    lines * bands * samples
  }

  lemma CubeIndexNested(line: nat, band: nat, sample: nat, bands: nat, samples: nat)
    ensures CubeIndex(line, band, sample, bands, samples)
         == RowMajor(RowMajor(line, band, bands), sample, samples)
  {
    calc {
      RowMajor(RowMajor(line, band, bands), sample, samples);
      (line * bands + band) * samples + sample;
      { assert (line * bands + band) * samples == line * bands * samples + band * samples; }
      CubeIndex(line, band, sample, bands, samples);
    }
  }

  /** The buffer layout contract: every in-range (line, band, sample) has its own
      cell inside the buffer, and the cell gives back its coordinates. */
  lemma {:induction false} CubeIndexInRange(line: nat, band: nat, sample: nat, lines: nat, bands: nat, samples: nat)
    requires line < lines && band < bands && sample < samples
    ensures CubeIndex(line, band, sample, bands, samples) < CubeSize(lines, bands, samples)
    ensures LineOf(CubeIndex(line, band, sample, bands, samples), bands, samples) == line
    ensures BandOf(CubeIndex(line, band, sample, bands, samples), bands, samples) == band
    ensures SampleOf(CubeIndex(line, band, sample, bands, samples), samples) == sample
  {
    CubeIndexNested(line, band, sample, bands, samples);
    RowMajorBounds(line, band, lines, bands);
    RowMajorBounds(RowMajor(line, band, bands), sample, lines * bands, samples);
    RowMajorSplit(RowMajor(line, band, bands), sample, samples);
    RowMajorSplit(line, band, bands);
  }

  /** Distinct coordinates never share a cell: no cell is written twice. */
  lemma {:induction false} CubeIndexInjective(l1: nat, b1: nat, s1: nat, l2: nat, b2: nat, s2: nat, bands: nat, samples: nat)
    requires b1 < bands && s1 < samples && b2 < bands && s2 < samples
    requires CubeIndex(l1, b1, s1, bands, samples) == CubeIndex(l2, b2, s2, bands, samples)
    ensures l1 == l2 && b1 == b2 && s1 == s2
  {
    CubeIndexNested(l1, b1, s1, bands, samples);
    CubeIndexNested(l2, b2, s2, bands, samples);
    RowMajorInjective(RowMajor(l1, b1, bands), s1, RowMajor(l2, b2, bands), s2, samples);
    RowMajorInjective(l1, b1, l2, b2, bands);
  }

  /** Every cell of the buffer is the cell of some (line, band, sample): the
      whole buffer is covered. */
  lemma {:induction false} CubeIndexCover(c: nat, lines: nat, bands: nat, samples: nat)
    requires c < CubeSize(lines, bands, samples)
    ensures bands > 0 && samples > 0
    ensures LineOf(c, bands, samples) < lines
    ensures BandOf(c, bands, samples) < bands
    ensures SampleOf(c, samples) < samples
    ensures CubeIndex(LineOf(c, bands, samples), BandOf(c, bands, samples), SampleOf(c, samples), bands, samples) == c
  {
    assert c < (lines * bands) * samples;
    RowMajorCover(c, lines * bands, samples);
    RowMajorCover(c / samples, lines, bands);
    CubeIndexNested(LineOf(c, bands, samples), BandOf(c, bands, samples), SampleOf(c, samples), bands, samples);
  }

  /** `d` with the cells from `at` on replaced by `piece`. */
  function Splice(d: seq<real>, at: nat, piece: seq<real>): (r: seq<real>)
    requires at + |piece| <= |d|
    ensures |r| == |d|
    decreases |piece|
  {
    if piece == [] then d else Splice(d[at := piece[0]], at + 1, piece[1..])
  }

  /** Each cell of a splice comes from the piece inside it, from `d` outside. */
  lemma {:induction false} SpliceCells(d: seq<real>, at: nat, piece: seq<real>)
    requires at + |piece| <= |d|
    ensures forall c :: 0 <= c < |d| ==>
      Splice(d, at, piece)[c] == if at <= c < at + |piece| then piece[c - at] else d[c]
    decreases |piece|
  {
    if piece != [] {
      SpliceCells(d[at := piece[0]], at + 1, piece[1..]);
    }
  }

  lemma SpliceEmpty(d: seq<real>, at: nat)
    requires at <= |d|
    ensures Splice(d, at, []) == d
  {
    SpliceCells(d, at, []);
    assert forall c :: 0 <= c < |d| ==> Splice(d, at, [])[c] == d[c];
  }

  /** Writing the cell right after a spliced piece extends the piece. */
  lemma SpliceSnoc(d: seq<real>, at: nat, piece: seq<real>, next: nat, v: real)
    requires next == at + |piece| && next < |d|
    ensures Splice(d, at, piece)[next := v] == Splice(d, at, piece + [v])
  {
    var l, r := Splice(d, at, piece)[next := v], Splice(d, at, piece + [v]);
    SpliceCells(d, at, piece);
    SpliceCells(d, at, piece + [v]);
    assert forall c :: 0 <= c < |d| ==> l[c] == r[c];
  }

  /** Splicing a piece right after another splices their concatenation. */
  lemma SpliceJoin(d: seq<real>, at: nat, x: seq<real>, next: nat, y: seq<real>)
    requires next == at + |x| && next + |y| <= |d|
    ensures Splice(Splice(d, at, x), next, y) == Splice(d, at, x + y)
  {
    var l, r := Splice(Splice(d, at, x), next, y), Splice(d, at, x + y);
    SpliceCells(d, at, x);
    SpliceCells(Splice(d, at, x), next, y);
    SpliceCells(d, at, x + y);
    assert forall c :: 0 <= c < |d| ==> l[c] == r[c];
  }
}
