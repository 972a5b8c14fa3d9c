/** The raster half of the cube codec: reading a cube (or a subset of it) from
    its `.img` file into the line/band/sample buffer, and writing a buffer
    back as a band-interleaved-by-line float32 file.
    A raster file is the sequence of its elements' values; 16-bit elements
    are widened to the same value. */
module RasterCodec {
  import opened Options
  import opened Envi
  import opened Layout

  /** Width in bytes of one element of the given data type code: float32,
      unsigned 16-bit and signed 16-bit are the only supported types. */
  function ElementBytes(dataType: int): (r: Option<nat>)
    ensures r.Some? <==> dataType == 4 || dataType == 12 || dataType == 2
    ensures r.Some? ==> r.value > 0
  {
    if dataType == 4 then Some(4)
    else if dataType == 12 then Some(2)
    else if dataType == 2 then Some(2)
    else None
  }

  /** Where (band, sample) sits inside one raw line of the file: all samples
      of a band together for BIL, all bands of a sample together for BIP.
      Every in-range pair lands inside the line. */
  function Position(il: Interleave, band: nat, sample: nat, bands: nat, samples: nat): (r: nat)
    requires band < bands && sample < samples
    ensures r < bands * samples
  {
    match il
    case Bil => RowMajorBounds(band, sample, bands, samples); RowMajor(band, sample, samples)
    case Bip =>
      RowMajorBounds(sample, band, samples, bands);
      assert samples * bands == bands * samples;
      RowMajor(sample, band, bands)
  }

  /** What `fread` delivers when asked for `count` elements at element
      position `at`: the elements that are there, fewer at the end of the
      file, none past it. */
  function Fread(file: seq<real>, at: nat, count: nat): (r: seq<real>)
    ensures |r| <= count
    ensures |r| == 0 <==> count == 0 || at >= |file|
    ensures |r| < count ==> at + |r| >= |file|
    ensures |r| > 0 ==> at + |r| <= |file|
    ensures forall q :: 0 <= q < |r| ==> r[q] == file[at + q]
  {
    if at >= |file| then []
    else if at + count <= |file| then file[at..at + count]
    else file[at..]
  }

  lemma SamePosition(il: Interleave, il': Interleave, band: nat, band': nat, sample: nat, sample': nat,
                     bands: nat, bands': nat, samples: nat, samples': nat)
    requires il == il' && band == band' && sample == sample' && bands == bands' && samples == samples'
    requires band < bands && sample < samples
    ensures Position(il, band, sample, bands, samples) == Position(il', band', sample', bands', samples')
  {
  }

  /** Raw line `i` of a read starts `startLine + i` raw lines after the
      element holding the header offset. */
  lemma PlanLineStart(p: Plan, h: Header, s: Subset, eb: nat, junk: (nat, nat) -> real,
                      i: nat, line: nat, len: nat, lineStart: nat)
    requires eb > 0 && p == MakePlan(p.file, h, s, eb, junk)
    requires line == s.startLine + i && len == h.bands * h.samples && lineStart == p.LineStart(i)
    ensures lineStart == line * len + h.offset / eb && len == p.LineLen()
  {
    StartElement(s.startLine, h.bands, h.samples, eb, h.offset);
    MulAdd(s.startLine, i, line, len);
  }

  /** A read covers every position that lies inside the file. */
  lemma FreadCovers(file: seq<real>, at: nat, count: nat, q: nat)
    requires q < count && at + q < |file|
    ensures q < |Fread(file, at, count)|
  {
  }

  /** The buffer of the `line`-th line after its read at element `at`: what
      `fread` delivered, then whatever the fresh allocation held there
      (`junk(line, position)`). */
  function LineBuffer(file: seq<real>, at: nat, len: nat, junk: (nat, nat) -> real, line: nat): (r: seq<real>)
    ensures |r| == len
    ensures forall q :: 0 <= q < |Fread(file, at, len)| ==> r[q] == file[at + q]
  {
    var got := Fread(file, at, len);
    got + seq(len - |got|, q requires 0 <= q => junk(line, |got| + q))
  }

  /** Everything a read needs once the data type and the file are known:
      the file, the element where line `startLine` begins, the number of
      elements per raw line, the geometry and the subset, and the contents
      of freshly allocated line buffers (`junk(line, position)`). */
  datatype Plan = Plan(file: seq<real>, start: nat, il: Interleave, bands: nat, samples: nat,
                       s: Subset, junk: (nat, nat) -> real)
  {
    /** Elements in one raw line of the file. */
    function LineLen(): nat { bands * samples }

    predicate Valid()
    {
      s.startBand <= s.endBand <= bands && s.startSample <= s.endSample <= samples &&
      s.startLine <= s.endLine
    }

    /** Elements in one line of the output buffer. */
    function OutLen(): nat requires Valid() { s.Bands() * s.Samples() }

    /** Element position of the `i`-th line read. */
    function LineStart(i: nat): nat { start + i * LineLen() }

    /** The buffer of the `i`-th line read. */
    function LineAt(i: nat): (r: seq<real>)
      ensures |r| == LineLen()
    {
      LineBuffer(file, LineStart(i), LineLen(), junk, i)
    }

    /** How many elements the read of the `i`-th line delivers. */
    function Delivered(i: nat): nat
    {
      |Fread(file, LineStart(i), LineLen())|
    }

    /** The first line, at or after `i`, whose read delivers nothing;
        the subset's line count if there is none. */
    function FirstFail(i: nat): (r: nat)
      requires Valid()
      requires i <= s.Lines()
      ensures i <= r <= s.Lines()
      ensures r < s.Lines() ==> Delivered(r) == 0
      ensures forall m :: i <= m < r ==> Delivered(m) > 0
      decreases s.Lines() - i
    {
      if i == s.Lines() then i
      else if Delivered(i) == 0 then i
      else FirstFail(i + 1)
    }

    /** Row `k` (relative to the subset) of a line buffer: the subset's
        samples of band `startBand + k`. */
    function Row(buf: seq<real>, k: nat): (r: seq<real>)
      requires Valid() && |buf| == LineLen() && s.startBand + k < s.endBand
      ensures |r| == s.Samples()
    {
      seq(s.Samples(), j requires 0 <= j < s.Samples() =>
        buf[Position(il, s.startBand + k, s.startSample + j, bands, samples)])
    }

    /** The first `n` rows of a decoded line. */
    function Rows(buf: seq<real>, n: nat): (r: seq<real>)
      requires Valid() && |buf| == LineLen() && n <= s.Bands()
      ensures |r| == n * s.Samples()
    {
      if n == 0 then [] else MulPred(n, s.Samples()); Rows(buf, n - 1) + Row(buf, n - 1)
    }

    /** The first `n` lines of the output buffer. */
    function Lines(n: nat): (r: seq<real>)
      requires Valid()
      ensures |r| == n * OutLen()
    {
      if n == 0 then [] else MulPred(n, OutLen()); Lines(n - 1) + Rows(LineAt(n - 1), s.Bands())
    }
  }

  /** The plan a read follows, once the element width is known: the read
      starts `startLine` raw lines plus the header offset into the file. */
  function MakePlan(file: seq<real>, h: Header, s: Subset, eb: nat, junk: (nat, nat) -> real): (p: Plan)
    requires eb > 0
    ensures p.file == file && p.il == h.interleave && p.bands == h.bands && p.samples == h.samples
    ensures p.s == s && p.junk == junk
    ensures ValidSubset(h, s) ==> p.Valid()
  {
    Plan(file, (s.startLine * h.samples * h.bands * eb + h.offset) / eb, h.interleave, h.bands, h.samples, s, junk)
  }

  /** The status of a read and the prefix of the output buffer it fills:
      nothing when the data type is unsupported (checked before the file is
      opened) or the file is missing, the lines before the first line
      whose read delivers nothing otherwise. */
  function Decode(disk: Disk, filename: string, h: Header, s: Subset, junk: (nat, nat) -> real)
    : (r: (HyperErr, seq<real>))
    requires ValidSubset(h, s)
    ensures ElementBytes(h.dataType).None? ==> r == (DatatypeUnsupported, [])
    ensures ElementBytes(h.dataType).Some? && filename !in disk.rasters ==> r == (FileNotFound, [])
    ensures r.0 == NoErr || r.0 == DatatypeUnsupported || r.0 == FileNotFound || r.0 == FileReadingError
    ensures r.0 == NoErr ==> |r.1| == s.Lines() * s.Bands() * s.Samples()
    ensures |r.1| <= s.Lines() * s.Bands() * s.Samples()
  {
    match ElementBytes(h.dataType)
    case None => (DatatypeUnsupported, [])
    case Some(eb) =>
      if filename !in disk.rasters then (FileNotFound, [])
      else
        Run(MakePlan(disk.rasters[filename], h, s, eb, junk))
  }

  /** The status and the written prefix of a read that follows plan `p`:
      the lines before the first line whose read delivers nothing, and a
      reading error when that line is inside the subset. */
  function Run(p: Plan): (r: (HyperErr, seq<real>))
    requires p.Valid()
    ensures r.0 == NoErr || r.0 == FileReadingError
    ensures r.0 == NoErr ==> |r.1| == p.s.Lines() * p.s.Bands() * p.s.Samples()
    ensures |r.1| <= p.s.Lines() * p.s.Bands() * p.s.Samples()
  {
    var f := p.FirstFail(0);
    WrittenLength(p, f, p.s.Lines() * p.s.Bands() * p.s.Samples());
    (if f < p.s.Lines() then FileReadingError else NoErr, p.Lines(f))
  }

  /** The lines read before a failure fit in the output buffer, and all
      of them fill it. */
  lemma WrittenLength(p: Plan, f: nat, size: nat)
    requires p.Valid() && f <= p.s.Lines() && size == p.s.Lines() * p.s.Bands() * p.s.Samples()
    ensures |p.Lines(f)| <= size
    ensures f == p.s.Lines() ==> |p.Lines(f)| == size
  {
    MulLeft(f, p.s.Lines(), p.OutLen());
    MulAssoc(p.s.Lines(), p.s.Bands(), p.s.Samples());
  }

  /** The reader with a subset, as a result: the decoded buffer, or the error. */
  function ReadCube(disk: Disk, filename: string, h: Header, s: Subset, junk: (nat, nat) -> real)
    : (r: Result<seq<real>>)
    requires ValidSubset(h, s)
    ensures r.Ok? <==> Decode(disk, filename, h, s, junk).0 == NoErr
    ensures r.Ok? ==> |r.value| == s.Lines() * s.Bands() * s.Samples()
    ensures r.Err? ==> r.error == Decode(disk, filename, h, s, junk).0 && r.error != NoErr
  {
    var (err, data) := Decode(disk, filename, h, s, junk);
    if err == NoErr then Ok(data) else Err(err)
  }

  /** Copies the subset's samples of band `k` from a line buffer into the
      output buffer, starting at cell `base`; nothing else changes. */
  method CopyRow(data: array<real>, base: nat, p: Plan, buf: seq<real>, k: nat)
    requires p.Valid() && |buf| == p.LineLen() && p.s.startBand <= k < p.s.endBand
    requires base + p.s.Samples() <= data.Length
    modifies data
    ensures data[..] == Splice(old(data[..]), base, p.Row(buf, k - p.s.startBand))
  {
    var row := p.Row(buf, k - p.s.startBand);
    SpliceEmpty(data[..], base);
    var j := p.s.startSample;
    while j < p.s.endSample
      invariant p.s.startSample <= j <= p.s.endSample
      invariant data[..] == Splice(old(data[..]), base, row[..j - p.s.startSample])
    {
      var done := j - p.s.startSample;
      var next := done + 1;
      var cell := base + done;
      var v := buf[Position(p.il, k, j, p.bands, p.samples)];
      SpliceSnoc(old(data[..]), base, row[..done], cell, v);
      data[cell] := v;
      assert row[..done] + [v] == row[..next];
      j := j + 1;
    }
    assert row[..p.s.Samples()] == row;
  }

  /** Copies every band of the subset from a line buffer into the output
      line starting at cell `lineBase`; nothing else changes. */
  method CopyLine(data: array<real>, lineBase: nat, p: Plan, buf: seq<real>)
    requires p.Valid() && |buf| == p.LineLen()
    requires lineBase + p.OutLen() <= data.Length
    modifies data
    ensures data[..] == Splice(old(data[..]), lineBase, p.Rows(buf, p.s.Bands()))
  {
    var ns, nb := p.s.Samples(), p.s.Bands();
    SpliceEmpty(data[..], lineBase);
    var k := p.s.startBand;
    var done := 0;
    var rowBase := lineBase;
    while k < p.s.endBand
      invariant done <= nb && k == p.s.startBand + done && rowBase == lineBase + done * ns
      invariant rowBase <= lineBase + nb * ns
      invariant data[..] == Splice(old(data[..]), lineBase, p.Rows(buf, done))
    {
      var next := done + 1;
      MulLeft(next, nb, ns);
      MulSucc(done, next, ns);
      CopyRow(data, rowBase, p, buf, k);
      SpliceJoin(old(data[..]), lineBase, p.Rows(buf, done), rowBase, p.Row(buf, done));
      RowsSnoc(p, buf, done, next);
      k := k + 1;
      done := next;
      rowBase := rowBase + ns;
    }
  }

  lemma RowsSnoc(p: Plan, buf: seq<real>, n: nat, next: nat)
    requires p.Valid() && |buf| == p.LineLen() && next == n + 1 && next <= p.s.Bands()
    ensures p.Rows(buf, next) == p.Rows(buf, n) + p.Row(buf, n)
  {
  }

  lemma LinesSnoc(p: Plan, n: nat, next: nat)
    requires p.Valid() && next == n + 1
    ensures p.Lines(next) == p.Lines(n) + p.Rows(p.LineAt(n), p.s.Bands())
  {
    assert next - 1 == n;
  }

  /** The file cursor before the `i`-th line read: at the line's start, or
      at the end of the file when the line starts past it. */
  predicate Follows(p: Plan, i: nat, cursor: nat)
  {
    cursor == p.LineStart(i) || (cursor >= |p.file| && p.LineStart(i) >= |p.file|)
  }

  lemma SameRead(p: Plan, i: nat, cursor: nat)
    requires Follows(p, i, cursor)
    ensures Fread(p.file, cursor, p.LineLen()) == Fread(p.file, p.LineStart(i), p.LineLen())
    ensures LineBuffer(p.file, cursor, p.LineLen(), p.junk, i) == p.LineAt(i)
  {
  }

  /** `fread` advances the cursor by what it delivered, so after a
      non-empty read the cursor follows the next line. */
  lemma NextCursor(p: Plan, i: nat, cursor: nat, next: nat)
    requires Follows(p, i, cursor)
    requires |Fread(p.file, cursor, p.LineLen())| > 0
    requires next == cursor + |Fread(p.file, cursor, p.LineLen())|
    ensures Follows(p, i + 1, next)
  {
    MulPred(i + 1, p.LineLen());
  }

  /** The reader with a subset.  On success the first
      `lines * bands * samples` cells of `data` hold the subset in the
      line/band/sample layout; on failure the status says why and the lines
      read before the failure are in place.  Cells past what was read keep
      their contents. */
  method ReadImage(disk: Disk, filename: string, h: Header, s: Subset, data: array<real>,
                   junk: (nat, nat) -> real) returns (err: HyperErr)
    requires ValidSubset(h, s)
    requires s.Lines() * s.Bands() * s.Samples() <= data.Length
    modifies data
    ensures Decode(disk, filename, h, s, junk).0 == err
    ensures |Decode(disk, filename, h, s, junk).1| <= data.Length
    ensures data[..] == Splice(old(data[..]), 0, Decode(disk, filename, h, s, junk).1)
  {
    var elementBytes := ElementBytes(h.dataType);
    SpliceEmpty(data[..], 0);
    if elementBytes.None? {
      return DatatypeUnsupported;
    }
    if filename !in disk.rasters {
      return FileNotFound;
    }
    var p := MakePlan(disk.rasters[filename], h, s, elementBytes.value, junk);
    var cursor: nat := (s.startLine * h.samples * h.bands * elementBytes.value + h.offset) / elementBytes.value;
    err := ReadLines(p, cursor, data);
  }

  /** The line loop of the reader: reads raw line after raw line at the
      file cursor into a fresh line buffer, stops with a reading error at
      the first read that delivers nothing, and copies the subset of each
      line read into the next line of `data`. */
  method ReadLines(p: Plan, cursor0: nat, data: array<real>) returns (err: HyperErr)
    requires p.Valid() && Follows(p, 0, cursor0)
    requires p.s.Lines() * p.s.Bands() * p.s.Samples() <= data.Length
    modifies data
    ensures err == Run(p).0
    ensures data[..] == Splice(old(data[..]), 0, Run(p).1)
  {
    var cursor: nat := cursor0;
    var numLinesToRead := p.s.endLine - p.s.startLine;
    var outLen := p.OutLen();
    MulAssoc(numLinesToRead, p.s.Bands(), p.s.Samples());
    SpliceEmpty(data[..], 0);
    var lineBase := 0;
    var i := 0;
    while i < numLinesToRead
      invariant i <= numLinesToRead
      invariant lineBase == i * outLen && lineBase <= numLinesToRead * outLen <= data.Length
      invariant p.FirstFail(0) == p.FirstFail(i)
      invariant Follows(p, i, cursor)
      invariant data[..] == Splice(old(data[..]), 0, p.Lines(i))
    {
      var line := LineBuffer(p.file, cursor, p.LineLen(), p.junk, i);
      var sizeRead := |Fread(p.file, cursor, p.LineLen())|;
      SameRead(p, i, cursor);
      if sizeRead == 0 {
        return FileReadingError;
      }
      var next := i + 1;
      MulLeft(next, numLinesToRead, outLen);
      MulSucc(i, next, outLen);
      CopyLine(data, lineBase, p, line);
      SpliceJoin(old(data[..]), 0, p.Lines(i), lineBase, p.Rows(line, p.s.Bands()));
      LinesSnoc(p, i, next);
      var advanced: nat := cursor + sizeRead;
      NextCursor(p, i, cursor, advanced);
      cursor := advanced;
      lineBase := lineBase + outLen;
      i := next;
    }
    return NoErr;
  }

  // ---------------------------------------------------------------------
  // Where each cell of the output buffer comes from.

  /** Cell (k, j) of the decoded rows is sample `startSample + j` of band
      `startBand + k` of the line buffer. */
  lemma {:induction false} RowsCell(p: Plan, buf: seq<real>, m: nat, k: nat, j: nat)
    requires p.Valid() && |buf| == p.LineLen() && m <= p.s.Bands() && k < m && j < p.s.Samples()
    ensures RowMajor(k, j, p.s.Samples()) < |p.Rows(buf, m)|
    ensures p.Rows(buf, m)[RowMajor(k, j, p.s.Samples())] ==
      buf[Position(p.il, p.s.startBand + k, p.s.startSample + j, p.bands, p.samples)]
  {
    var ns := p.s.Samples();
    var m' := m - 1;
    RowsSnoc(p, buf, m', m);
    if k < m' {
      RowMajorBounds(k, j, m', ns);
      RowsCell(p, buf, m', k, j);
    } else {
      assert RowMajor(k, j, ns) == m' * ns + j;
    }
  }

  /** The documented layout: cell `line*bands*samples + band*samples + sample`
      of the output (all counted inside the subset) comes from the buffer of
      that line, at the position of that band and sample in the raw line. */
  lemma {:induction false} LinesCell(p: Plan, n: nat, i: nat, k: nat, j: nat)
    requires p.Valid() && i < n && k < p.s.Bands() && j < p.s.Samples()
    ensures CubeIndex(i, k, j, p.s.Bands(), p.s.Samples()) < |p.Lines(n)|
    ensures p.Lines(n)[CubeIndex(i, k, j, p.s.Bands(), p.s.Samples())] ==
      p.LineAt(i)[Position(p.il, p.s.startBand + k, p.s.startSample + j, p.bands, p.samples)]
  {
    var nb, ns := p.s.Bands(), p.s.Samples();
    var n' := n - 1;
    var ci := CubeIndex(i, k, j, nb, ns);
    LinesSnoc(p, n', n);
    MulAssoc(n', nb, ns);
    var prefix := p.Lines(n');
    assert |prefix| == n' * nb * ns;
    if i < n' {
      CubeIndexInRange(i, k, j, n', nb, ns);
      LinesCell(p, n', i, k, j);
      assert p.Lines(n)[ci] == prefix[ci];
    } else {
      var q := RowMajor(k, j, ns);
      CubeIndexNested(i, k, j, nb, ns);
      assert ci == |prefix| + q;
      RowsCell(p, p.LineAt(i), nb, k, j);
      assert p.Lines(n)[ci] == p.Rows(p.LineAt(i), nb)[q];
    }
  }

  /** The byte offset where reading starts, `startLine` raw lines of
      `eb`-byte elements plus the header offset, falls in the element
      `startLine * bands * samples + offset / eb`. */
  lemma StartElement(startLine: nat, bands: nat, samples: nat, eb: nat, offset: nat)
    requires eb > 0
    ensures (startLine * samples * bands * eb + offset) / eb == startLine * (bands * samples) + offset / eb
  {
    var a := startLine * (bands * samples);
    assert startLine * samples * bands == a by {
      MulAssoc(startLine, samples, bands);
      assert samples * bands == bands * samples;
    }
    var q, r := offset / eb, offset % eb;
    assert a * eb + offset == RowMajor(a + q, r, eb);
    RowMajorSplit(a + q, r, eb);
  }

  /** Cell (line i, band k, sample j) of a successful read, all counted
      inside the subset, holds the file element `at`: band `startBand + k`,
      sample `startSample + j` of raw line `line = startLine + i` of the raster
      that starts `offset / eb` elements into the file, provided the file
      reaches that far. */
  lemma ReadCubeCell(disk: Disk, filename: string, h: Header, s: Subset, junk: (nat, nat) -> real,
                     i: nat, k: nat, j: nat, eb: nat, line: nat, at: nat)
    requires ValidSubset(h, s) && ReadCube(disk, filename, h, s, junk).Ok?
    requires i < s.Lines() && k < s.Bands() && j < s.Samples()
    requires ElementBytes(h.dataType) == Some(eb) && filename in disk.rasters
    requires line == s.startLine + i
    requires at == line * (h.bands * h.samples) + h.offset / eb +
                   Position(h.interleave, s.startBand + k, s.startSample + j, h.bands, h.samples)
    requires at < |disk.rasters[filename]|
    ensures CubeIndex(i, k, j, s.Bands(), s.Samples()) < s.Lines() * s.Bands() * s.Samples()
    ensures ReadCube(disk, filename, h, s, junk).value[CubeIndex(i, k, j, s.Bands(), s.Samples())] ==
      disk.rasters[filename][at]
  {
    CubeIndexInRange(i, k, j, s.Lines(), s.Bands(), s.Samples());
    var file := disk.rasters[filename];
    var p := MakePlan(file, h, s, eb, junk);
    var nl := s.Lines();
    assert p.FirstFail(0) == nl;
    assert ReadCube(disk, filename, h, s, junk).value == p.Lines(nl);
    var len := h.bands * h.samples;
    var lineStart := p.LineStart(i);
    PlanLineStart(p, h, s, eb, junk, i, line, len, lineStart);
    var pos := Position(h.interleave, s.startBand + k, s.startSample + j, h.bands, h.samples);
    SamePosition(p.il, h.interleave, p.s.startBand + k, s.startBand + k, p.s.startSample + j, s.startSample + j,
                 p.bands, h.bands, p.samples, h.samples);
    PlanCell(p, nl, i, k, j, pos, at);
  }

  /** Cell (i, k, j) of the output buffer of a plan is the file element at
      the cell's position in the `i`-th raw line, when the file reaches it. */
  lemma PlanCell(p: Plan, n: nat, i: nat, k: nat, j: nat, pos: nat, at: nat)
    requires p.Valid() && i < n && k < p.s.Bands() && j < p.s.Samples()
    requires pos == Position(p.il, p.s.startBand + k, p.s.startSample + j, p.bands, p.samples)
    requires at == p.LineStart(i) + pos && at < |p.file|
    ensures CubeIndex(i, k, j, p.s.Bands(), p.s.Samples()) < |p.Lines(n)|
    ensures p.Lines(n)[CubeIndex(i, k, j, p.s.Bands(), p.s.Samples())] == p.file[at]
  {
    LinesCell(p, n, i, k, j);
    var start, len := p.LineStart(i), p.LineLen();
    FreadCovers(p.file, start, len, pos);
    BufferCell(p.file, start, len, p.junk, i, pos);
  }

  /** A position the read delivered holds the file element there. */
  lemma BufferCell(file: seq<real>, at: nat, len: nat, junk: (nat, nat) -> real, line: nat, q: nat)
    requires q < |Fread(file, at, len)|
    ensures q < len && at + q < |file|
    ensures LineBuffer(file, at, len, junk, line)[q] == file[at + q]
  {
  }

  /** The reader without a subset: the whole cube. */
  method ReadImageFull(disk: Disk, filename: string, h: Header, data: array<real>,
                       junk: (nat, nat) -> real) returns (err: HyperErr)
    requires h.lines * h.bands * h.samples <= data.Length
    modifies data
    ensures Decode(disk, filename, h, FullSubset(h), junk).0 == err
    ensures |Decode(disk, filename, h, FullSubset(h), junk).1| <= data.Length
    ensures data[..] == Splice(old(data[..]), 0, Decode(disk, filename, h, FullSubset(h), junk).1)
  {
    var subset := Subset(0, h.samples, 0, h.lines, 0, h.bands);
    err := ReadImage(disk, filename, h, subset, data, junk);
  }

  // ---------------------------------------------------------------------
  // Writing a cube.

  /** hyperspectral_write_image: writes `filename.img`, line after line,
      the first `numLines * numBands * numPixels` cells of the buffer as
      float32 values; no other file changes. */
  method WriteImage(disk: Disk, filename: string, numBands: nat, numPixels: nat, numLines: nat,
                    data: array<real>) returns (d: Disk)
    requires numLines * numBands * numPixels <= data.Length
    ensures d.texts == disk.texts
    ensures d.rasters == disk.rasters[filename + ".img" := data[..numLines * numBands * numPixels]]
  {
    var lineLen := numBands * numPixels;
    MulAssoc(numLines, numBands, numPixels);
    var out: seq<real> := [];
    var i := 0;
    while i < numLines
      invariant i <= numLines
      invariant i * lineLen <= numLines * lineLen
      invariant out == data[..i * lineLen]
    {
      var next := i + 1;
      MulLeft(next, numLines, lineLen);
      MulSucc(i, next, lineLen);
      var from, to := i * lineLen, next * lineLen;
      out := out + data[from..to];
      assert out == data[..to];
      i := next;
    }
    d := disk.(rasters := disk.rasters[filename + ".img" := out]);
  }

  // ---------------------------------------------------------------------
  // Reading a cube that was stored in the file's own layout.

  /** Where (line, band, sample) of a cube sits in a raster with the given
      interleave: its line's raw line, at the band and sample's position. */
  function RawIndex(il: Interleave, line: nat, band: nat, sample: nat, lines: nat, bands: nat, samples: nat): (r: nat)
    requires line < lines && band < bands && sample < samples
    ensures r < lines * bands * samples
  {
    var pos := Position(il, band, sample, bands, samples);
    RowMajorBounds(line, pos, lines, bands * samples);
    MulAssoc(lines, bands, samples);
    RowMajor(line, pos, bands * samples)
  }

  /** `raster` stores the cube `v` (in the buffer's line/band/sample order)
      with interleave `il`; whatever follows the cube is not looked at. */
  ghost predicate Encodes(raster: seq<real>, il: Interleave, v: seq<real>, lines: nat, bands: nat, samples: nat)
  {
    && |raster| >= lines * bands * samples && |v| == lines * bands * samples
    && forall line: nat, band: nat, sample: nat | line < lines && band < bands && sample < samples ::
         CubeIndexInRange(line, band, sample, lines, bands, samples);
         raster[RawIndex(il, line, band, sample, lines, bands, samples)] == v[CubeIndex(line, band, sample, bands, samples)]
  }

  /** A band-interleaved-by-line raster is the buffer itself. */
  lemma BilEncodesItself(v: seq<real>, lines: nat, bands: nat, samples: nat)
    requires |v| == lines * bands * samples
    ensures Encodes(v, Bil, v, lines, bands, samples)
  {
    forall line: nat, band: nat, sample: nat | line < lines && band < bands && sample < samples
      ensures RawIndex(Bil, line, band, sample, lines, bands, samples) == CubeIndex(line, band, sample, bands, samples)
    {
      MulAssoc(line, bands, samples);
    }
  }

  /** The part of the cube `v` (of `bands` x `samples` lines) that subset
      `s` selects, in the buffer's line/band/sample order. */
  function Crop(v: seq<real>, lines: nat, bands: nat, samples: nat, s: Subset): (r: seq<real>)
    requires |v| == lines * bands * samples
    requires s.startLine <= s.endLine <= lines && s.startBand <= s.endBand <= bands
    requires s.startSample <= s.endSample <= samples
    ensures |r| == s.Lines() * s.Bands() * s.Samples()
  {
    var nl, nb, ns := s.Lines(), s.Bands(), s.Samples();
    seq(nl * nb * ns, c requires 0 <= c < nl * nb * ns =>
      CubeIndexCover(c, nl, nb, ns);
      CubeIndexInRange(s.startLine + LineOf(c, nb, ns), s.startBand + BandOf(c, nb, ns),
                       s.startSample + SampleOf(c, ns), lines, bands, samples);
      v[CubeIndex(s.startLine + LineOf(c, nb, ns), s.startBand + BandOf(c, nb, ns),
                  s.startSample + SampleOf(c, ns), bands, samples)])
  }

  /** Cell (i, k, j) of a crop is cell (startLine + i, startBand + k,
      startSample + j) of the cube. */
  lemma CropCell(v: seq<real>, lines: nat, bands: nat, samples: nat, s: Subset, i: nat, k: nat, j: nat)
    requires |v| == lines * bands * samples
    requires s.startLine <= s.endLine <= lines && s.startBand <= s.endBand <= bands
    requires s.startSample <= s.endSample <= samples
    requires i < s.Lines() && k < s.Bands() && j < s.Samples()
    ensures CubeIndex(i, k, j, s.Bands(), s.Samples()) < |Crop(v, lines, bands, samples, s)|
    ensures CubeIndex(s.startLine + i, s.startBand + k, s.startSample + j, bands, samples) < |v|
    ensures Crop(v, lines, bands, samples, s)[CubeIndex(i, k, j, s.Bands(), s.Samples())] ==
      v[CubeIndex(s.startLine + i, s.startBand + k, s.startSample + j, bands, samples)]
  {
    CubeIndexInRange(i, k, j, s.Lines(), s.Bands(), s.Samples());
    CubeIndexInRange(s.startLine + i, s.startBand + k, s.startSample + j, lines, bands, samples);
  }

  /** Every line of a subset lies inside a raster that holds at least the
      whole cube, so its read delivers something when raw lines are not
      empty. */
  lemma LineDelivers(p: Plan, h: Header, s: Subset, eb: nat, junk: (nat, nat) -> real, m: nat)
    requires eb > 0 && ValidSubset(h, s) && p == MakePlan(p.file, h, s, eb, junk)
    requires m < s.Lines() && h.bands * h.samples > 0
    requires |p.file| >= h.offset / eb + h.lines * h.bands * h.samples
    ensures p.Delivered(m) > 0
  {
    var len := h.bands * h.samples;
    var line := s.startLine + m;
    var lineStart := p.LineStart(m);
    PlanLineStart(p, h, s, eb, junk, m, line, len, lineStart);
    MulLeft(line + 1, h.lines, len);
    MulSucc(line, line + 1, len);
    MulAssoc(h.lines, h.bands, h.samples);
  }

  lemma ShiftIndex(file: seq<real>, off: nat, raw: nat, at: nat)
    requires off <= |file| && raw < |file| - off && at == off + raw
    ensures at < |file| && file[off..][raw] == file[at]
  {
  }

  /** One cell of a successful read of a raster that stores the cube `v`
      (after the header offset) is the matching cell of the crop of `v`. */
  lemma ReadEncodedCell(disk: Disk, filename: string, h: Header, s: Subset, junk: (nat, nat) -> real,
                        v: seq<real>, eb: nat, i: nat, k: nat, j: nat)
    requires ValidSubset(h, s) && ReadCube(disk, filename, h, s, junk).Ok?
    requires ElementBytes(h.dataType) == Some(eb) && filename in disk.rasters
    requires h.offset / eb <= |disk.rasters[filename]|
    requires Encodes(disk.rasters[filename][h.offset / eb..], h.interleave, v, h.lines, h.bands, h.samples)
    requires i < s.Lines() && k < s.Bands() && j < s.Samples()
    ensures CubeIndex(i, k, j, s.Bands(), s.Samples()) < s.Lines() * s.Bands() * s.Samples()
    ensures ReadCube(disk, filename, h, s, junk).value[CubeIndex(i, k, j, s.Bands(), s.Samples())] ==
      Crop(v, h.lines, h.bands, h.samples, s)[CubeIndex(i, k, j, s.Bands(), s.Samples())]
  {
    var at := EncodedCropCell(disk.rasters[filename], h.offset / eb, h.interleave, v, h.lines, h.bands, h.samples, s, i, k, j);
    ReadCubeCell(disk, filename, h, s, junk, i, k, j, eb, s.startLine + i, at);
  }

  /** Cell (i, k, j) of the crop of `v` sits in a file that encodes `v`
      after `off` elements at the raw position of its line, band and sample. */
  lemma EncodedCropCell(file: seq<real>, off: nat, il: Interleave, v: seq<real>, lines: nat, bands: nat, samples: nat,
                        s: Subset, i: nat, k: nat, j: nat) returns (at: nat)
    requires off <= |file| && Encodes(file[off..], il, v, lines, bands, samples)
    requires s.startLine <= s.endLine <= lines && s.startBand <= s.endBand <= bands
    requires s.startSample <= s.endSample <= samples
    requires i < s.Lines() && k < s.Bands() && j < s.Samples()
    ensures at == (s.startLine + i) * (bands * samples) + off +
                  Position(il, s.startBand + k, s.startSample + j, bands, samples)
    ensures at < |file| && CubeIndex(i, k, j, s.Bands(), s.Samples()) < |Crop(v, lines, bands, samples, s)|
    ensures file[at] == Crop(v, lines, bands, samples, s)[CubeIndex(i, k, j, s.Bands(), s.Samples())]
  {
    at := EncodedAt(file, off, il, v, lines, bands, samples, s.startLine + i, s.startBand + k, s.startSample + j);
    CropCell(v, lines, bands, samples, s, i, k, j);
  }

  /** Where cell (line, band, sample) of `v` sits in a file that encodes
      `v` after `off` elements. */
  lemma EncodedAt(file: seq<real>, off: nat, il: Interleave, v: seq<real>, lines: nat, bands: nat, samples: nat,
                  line: nat, band: nat, sample: nat) returns (at: nat)
    requires off <= |file| && Encodes(file[off..], il, v, lines, bands, samples)
    requires line < lines && band < bands && sample < samples
    ensures at == line * (bands * samples) + off + Position(il, band, sample, bands, samples)
    ensures at < |file| && CubeIndex(line, band, sample, bands, samples) < |v|
    ensures file[at] == v[CubeIndex(line, band, sample, bands, samples)]
  {
    var raw := RawIndex(il, line, band, sample, lines, bands, samples);
    CubeIndexInRange(line, band, sample, lines, bands, samples);
    at := off + raw;
    ShiftIndex(file, off, raw, at);
  }

  /** Reading a subset of a raster that stores a whole cube `v` after the
      header offset, in the header's interleave, yields exactly the part of
      `v` the subset selects; the one way it fails is a cube with empty raw
      lines, whose first read delivers nothing. */
  lemma ReadEncoded(disk: Disk, filename: string, h: Header, s: Subset, junk: (nat, nat) -> real,
                    v: seq<real>, eb: nat)
    requires ValidSubset(h, s)
    requires ElementBytes(h.dataType) == Some(eb) && filename in disk.rasters
    requires h.offset / eb <= |disk.rasters[filename]|
    requires Encodes(disk.rasters[filename][h.offset / eb..], h.interleave, v, h.lines, h.bands, h.samples)
    ensures ReadCube(disk, filename, h, s, junk) ==
      if s.Lines() > 0 && h.bands * h.samples == 0 then Err(FileReadingError)
      else Ok(Crop(v, h.lines, h.bands, h.samples, s))
  {
    var file := disk.rasters[filename];
    var p := MakePlan(file, h, s, eb, junk);
    assert Decode(disk, filename, h, s, junk) == Run(p);
    var f := p.FirstFail(0);
    if s.Lines() > 0 && h.bands * h.samples == 0 {
      assert p.Delivered(0) == 0;
      assert Run(p).0 == FileReadingError;
    } else {
      if f < s.Lines() {
        LineDelivers(p, h, s, eb, junk, f);
      }
      assert Run(p).0 == NoErr;
      var r := ReadCube(disk, filename, h, s, junk);
      var crop := Crop(v, h.lines, h.bands, h.samples, s);
      var nl, nb, ns := s.Lines(), s.Bands(), s.Samples();
      forall c | 0 <= c < |crop|
        ensures r.value[c] == crop[c]
      {
        CubeIndexCover(c, nl, nb, ns);
        ReadEncodedCell(disk, filename, h, s, junk, v, eb, LineOf(c, nb, ns), BandOf(c, nb, ns), SampleOf(c, ns));
      }
      assert r.value == crop;
    }
  }

  /** A BIL raster and a BIP raster that store the same cube read back the
      same: the interleave only changes where a cell sits in a raw line. */
  lemma InterleavesAgree(disk: Disk, bilName: string, bipName: string, h: Header, s: Subset,
                         junk: (nat, nat) -> real, v: seq<real>, eb: nat)
    requires ValidSubset(h, s) && ElementBytes(h.dataType) == Some(eb)
    requires bilName in disk.rasters && bipName in disk.rasters
    requires h.offset / eb <= |disk.rasters[bilName]| && h.offset / eb <= |disk.rasters[bipName]|
    requires Encodes(disk.rasters[bilName][h.offset / eb..], Bil, v, h.lines, h.bands, h.samples)
    requires Encodes(disk.rasters[bipName][h.offset / eb..], Bip, v, h.lines, h.bands, h.samples)
    ensures ReadCube(disk, bilName, h.(interleave := Bil), s, junk) ==
            ReadCube(disk, bipName, h.(interleave := Bip), s, junk)
  {
    ReadEncoded(disk, bilName, h.(interleave := Bil), s, junk, v, eb);
    ReadEncoded(disk, bipName, h.(interleave := Bip), s, junk, v, eb);
  }

  /** A subset read is the subset's crop of the full read of the same file. */
  lemma SubsetOfFullRead(disk: Disk, filename: string, h: Header, s: Subset, junk: (nat, nat) -> real,
                         v: seq<real>, eb: nat)
    requires ValidSubset(h, s)
    requires ElementBytes(h.dataType) == Some(eb) && filename in disk.rasters
    requires h.offset / eb <= |disk.rasters[filename]|
    requires Encodes(disk.rasters[filename][h.offset / eb..], h.interleave, v, h.lines, h.bands, h.samples)
    requires h.bands * h.samples > 0
    ensures ReadCube(disk, filename, h, FullSubset(h), junk).Ok? && ReadCube(disk, filename, h, s, junk).Ok?
    ensures ReadCube(disk, filename, h, s, junk).value ==
            Crop(ReadCube(disk, filename, h, FullSubset(h), junk).value, h.lines, h.bands, h.samples, s)
  {
    ReadEncoded(disk, filename, h, FullSubset(h), junk, v, eb);
    CropWhole(v, h.lines, h.bands, h.samples);
    ReadEncoded(disk, filename, h, s, junk, v, eb);
  }

  /** The crop of the whole cube is the cube. */
  lemma CropWhole(v: seq<real>, lines: nat, bands: nat, samples: nat)
    requires |v| == lines * bands * samples
    ensures Crop(v, lines, bands, samples, Subset(0, samples, 0, lines, 0, bands)) == v
  {
    var full := Subset(0, samples, 0, lines, 0, bands);
    var crop := Crop(v, lines, bands, samples, full);
    forall c | 0 <= c < |v|
      ensures crop[c] == v[c]
    {
      CubeIndexCover(c, lines, bands, samples);
      CropCell(v, lines, bands, samples, full, LineOf(c, bands, samples), BandOf(c, bands, samples), SampleOf(c, samples));
    }
  }
}
