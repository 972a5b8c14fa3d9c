/** One band of a cube as a two-dimensional image: readITK copies band `band`
    of the flat cube buffer into an image of `samples` x `lines` pixels, and
    writeITK copies an image back into band `band` of a buffer. Pixel
    (k, j) of an image (sample k of line j) is kept at `j * samples + k`. */
module BandStore {
  import opened Layout

  /** Pixel `p` of band `band`: the cube cell of line `p / samples` and
      sample `p % samples`. */
  function BandPixel(cube: seq<real>, band: nat, p: nat, lines: nat, bands: nat, samples: nat): real
    requires |cube| == CubeSize(lines, bands, samples) && band < bands && p < lines * samples
  {
    RowMajorCover(p, lines, samples);
    CubeIndexInRange(p / samples, band, p % samples, lines, bands, samples);
    cube[CubeIndex(p / samples, band, p % samples, bands, samples)]
  }

  /** Band `band` of a cube, as the image readITK fills. */
  function ExtractBand(cube: seq<real>, band: nat, lines: nat, bands: nat, samples: nat): (b: seq<real>)
    requires |cube| == CubeSize(lines, bands, samples) && band < bands
    ensures |b| == lines * samples
    ensures forall j, k :: 0 <= j < lines && 0 <= k < samples ==>
      RowMajor(j, k, samples) < |b| && CubeIndex(j, band, k, bands, samples) < |cube| &&
      b[RowMajor(j, k, samples)] == cube[CubeIndex(j, band, k, bands, samples)]
  {
    var b := seq(lines * samples, p requires 0 <= p < lines * samples => BandPixel(cube, band, p, lines, bands, samples));
    forall j, k | 0 <= j < lines && 0 <= k < samples
      ensures RowMajor(j, k, samples) < |b| && CubeIndex(j, band, k, bands, samples) < |cube|
      ensures b[RowMajor(j, k, samples)] == cube[CubeIndex(j, band, k, bands, samples)]
    {
      RowMajorBounds(j, k, lines, samples);
      RowMajorSplit(j, k, samples);
      CubeIndexInRange(j, band, k, lines, bands, samples);
    }
    b
  }

  /** Cell `c` after the image `img` is written into band `band`: the image's
      pixel when `c` belongs to that band, the old cell otherwise. */
  function InsertCell(cube: seq<real>, band: nat, img: seq<real>, c: nat, lines: nat, bands: nat, samples: nat): real
    requires |cube| == CubeSize(lines, bands, samples) && |img| == lines * samples && c < |cube|
  {
    CubeIndexCover(c, lines, bands, samples);
    if BandOf(c, bands, samples) == band then
      RowMajorBounds(LineOf(c, bands, samples), SampleOf(c, samples), lines, samples);
      img[RowMajor(LineOf(c, bands, samples), SampleOf(c, samples), samples)]
    else cube[c]
  }

  /** The cube with image `img` written into band `band`, as writeITK leaves
      it. */
  function InsertBand(cube: seq<real>, band: nat, img: seq<real>, lines: nat, bands: nat, samples: nat): (r: seq<real>)
    requires |cube| == CubeSize(lines, bands, samples) && |img| == lines * samples
    ensures |r| == |cube|
  {
    seq(|cube|, c requires 0 <= c < |cube| => InsertCell(cube, band, img, c, lines, bands, samples))
  }

  /** What writing a band does to each cell: the band's cells take the
      image's pixels and every cell of another band keeps its value. */
  lemma {:induction false} InsertBandCells(cube: seq<real>, band: nat, img: seq<real>, lines: nat, bands: nat, samples: nat,
                                           j: nat, b: nat, k: nat)
    requires |cube| == CubeSize(lines, bands, samples) && |img| == lines * samples
    requires j < lines && b < bands && k < samples
    ensures CubeIndex(j, b, k, bands, samples) < |cube| && RowMajor(j, k, samples) < |img|
    ensures InsertBand(cube, band, img, lines, bands, samples)[CubeIndex(j, b, k, bands, samples)]
      == if b == band then img[RowMajor(j, k, samples)] else cube[CubeIndex(j, b, k, bands, samples)]
  {
    CubeIndexInRange(j, b, k, lines, bands, samples);
    RowMajorBounds(j, k, lines, samples);
  }

  /** Reading back a band just written gives the written image. */
  lemma {:induction false} ExtractInsertSame(cube: seq<real>, band: nat, img: seq<real>, lines: nat, bands: nat, samples: nat)
    requires |cube| == CubeSize(lines, bands, samples) && |img| == lines * samples && band < bands
    ensures ExtractBand(InsertBand(cube, band, img, lines, bands, samples), band, lines, bands, samples) == img
  {
    var r := InsertBand(cube, band, img, lines, bands, samples);
    var e := ExtractBand(r, band, lines, bands, samples);
    forall p | 0 <= p < lines * samples ensures e[p] == img[p] {
      RowMajorCover(p, lines, samples);
      InsertBandCells(cube, band, img, lines, bands, samples, p / samples, band, p % samples);
    }
  }

  /** Writing one band leaves every other band as it was. */
  lemma {:induction false} ExtractInsertOther(cube: seq<real>, band: nat, img: seq<real>, other: nat,
                                              lines: nat, bands: nat, samples: nat)
    requires |cube| == CubeSize(lines, bands, samples) && |img| == lines * samples
    requires other < bands && other != band
    ensures ExtractBand(InsertBand(cube, band, img, lines, bands, samples), other, lines, bands, samples)
         == ExtractBand(cube, other, lines, bands, samples)
  {
    var r := InsertBand(cube, band, img, lines, bands, samples);
    var e := ExtractBand(r, other, lines, bands, samples);
    var e0 := ExtractBand(cube, other, lines, bands, samples);
    forall p | 0 <= p < lines * samples ensures e[p] == e0[p] {
      RowMajorCover(p, lines, samples);
      InsertBandCells(cube, band, img, lines, bands, samples, p / samples, other, p % samples);
    }
  }

  /** The bands of a cube after one band is written. */
  lemma InsertBandBands(cube: seq<real>, band: nat, img: seq<real>, lines: nat, bands: nat, samples: nat)
    requires |cube| == CubeSize(lines, bands, samples) && |img| == lines * samples && band < bands
    ensures forall b :: 0 <= b < bands ==>
      ExtractBand(InsertBand(cube, band, img, lines, bands, samples), b, lines, bands, samples)
        == if b == band then img else ExtractBand(cube, b, lines, bands, samples)
  {
    forall b | 0 <= b < bands
      ensures ExtractBand(InsertBand(cube, band, img, lines, bands, samples), b, lines, bands, samples)
        == if b == band then img else ExtractBand(cube, b, lines, bands, samples)
    {
      if b == band {
        ExtractInsertSame(cube, band, img, lines, bands, samples);
      } else {
        ExtractInsertOther(cube, band, img, b, lines, bands, samples);
      }
    }
  }

  /** Writing back a band just read leaves the cube unchanged. */
  lemma {:induction false} InsertExtract(cube: seq<real>, band: nat, lines: nat, bands: nat, samples: nat)
    requires |cube| == CubeSize(lines, bands, samples) && band < bands
    ensures InsertBand(cube, band, ExtractBand(cube, band, lines, bands, samples), lines, bands, samples) == cube
  {
    var img := ExtractBand(cube, band, lines, bands, samples);
    var r := InsertBand(cube, band, img, lines, bands, samples);
    forall c | 0 <= c < |cube| ensures r[c] == cube[c] {
      CubeIndexCover(c, lines, bands, samples);
      InsertBandCells(cube, band, img, lines, bands, samples,
                      LineOf(c, bands, samples), BandOf(c, bands, samples), SampleOf(c, samples));
    }
  }

  /** A cube is determined by its bands. */
  lemma {:induction false} BandsDetermineCube(x: seq<real>, y: seq<real>, lines: nat, bands: nat, samples: nat)
    requires |x| == CubeSize(lines, bands, samples) && |y| == CubeSize(lines, bands, samples)
    requires forall b :: 0 <= b < bands ==>
      ExtractBand(x, b, lines, bands, samples) == ExtractBand(y, b, lines, bands, samples)
    ensures x == y
  {
    forall c | 0 <= c < |x| ensures x[c] == y[c] {
      CubeIndexCover(c, lines, bands, samples);
      var j, b, k := LineOf(c, bands, samples), BandOf(c, bands, samples), SampleOf(c, samples);
      RowMajorBounds(j, k, lines, samples);
      assert ExtractBand(x, b, lines, bands, samples)[RowMajor(j, k, samples)]
          == ExtractBand(y, b, lines, bands, samples)[RowMajor(j, k, samples)];
    }
  }

  /** The cell readITK and writeITK address for pixel (k, j) of band `band`
      is that pixel's cube cell. */
  lemma SourceIndex(j: nat, band: nat, k: nat, lines: nat, bands: nat, samples: nat, at: int, p: int)
    requires j < lines && band < bands && k < samples
    requires at == j * samples * bands + band * samples + k && p == j * samples + k
    ensures at == CubeIndex(j, band, k, bands, samples) && at < CubeSize(lines, bands, samples)
    ensures p == RowMajor(j, k, samples) && p < lines * samples
    ensures p / samples == j && p % samples == k
  {
    assert j * samples * bands == j * bands * samples by { MulAssoc(j, samples, bands); MulAssoc(j, bands, samples); }
    CubeIndexInRange(j, band, k, lines, bands, samples);
    RowMajorBounds(j, k, lines, samples);
    RowMajorSplit(j, k, samples);
  }

  /** readITK: fills the image `itkimg` line by line with band `band` of the
      cube buffer `img`. */
  method ReadITK(itkimg: array<real>, img: array<real>, band: nat, lines: nat, bands: nat, samples: nat)
    requires itkimg != img
    requires img.Length == CubeSize(lines, bands, samples) && band < bands
    requires itkimg.Length == lines * samples
    modifies itkimg
    ensures itkimg[..] == ExtractBand(img[..], band, lines, bands, samples)
  {
    ghost var cube := img[..];
    var j := 0;
    while j < lines
      invariant j <= lines
      invariant forall p :: 0 <= p < j * samples ==> itkimg[p] == BandPixel(cube, band, p, lines, bands, samples)
    {
      MulLeft(j + 1, lines, samples);
      var k := 0;
      while k < samples
        invariant k <= samples
        invariant forall p :: 0 <= p < j * samples + k ==> itkimg[p] == BandPixel(cube, band, p, lines, bands, samples)
      {
        var at: int := j * samples * bands + band * samples + k;
        var p: int := j * samples + k;
        SourceIndex(j, band, k, lines, bands, samples, at, p);
        itkimg[p] := img[at];
        k := k + 1;
      }
      j := j + 1;
    }
    assert itkimg[..] == ExtractBand(cube, band, lines, bands, samples);
  }

  /** The cells of band `band` whose pixel comes before `n` in line order. */
  predicate PixelWritten(c: nat, band: nat, n: nat, lines: nat, bands: nat, samples: nat)
    requires c < CubeSize(lines, bands, samples)
  {
    CubeIndexCover(c, lines, bands, samples);
    BandOf(c, bands, samples) == band && RowMajor(LineOf(c, bands, samples), SampleOf(c, samples), samples) < n
  }

  /** Writing pixel `p` = (k, j) adds exactly its cell to the written ones. */
  lemma PixelWrittenStep(band: nat, lines: nat, bands: nat, samples: nat, j: nat, k: nat, at: nat, p: nat)
    requires j < lines && band < bands && k < samples
    requires at == CubeIndex(j, band, k, bands, samples) && p == RowMajor(j, k, samples)
    requires at < CubeSize(lines, bands, samples)
    ensures PixelWritten(at, band, p + 1, lines, bands, samples) && !PixelWritten(at, band, p, lines, bands, samples)
    ensures forall c :: 0 <= c < CubeSize(lines, bands, samples) && c != at ==>
      (PixelWritten(c, band, p + 1, lines, bands, samples) <==> PixelWritten(c, band, p, lines, bands, samples))
  {
    CubeIndexInRange(j, band, k, lines, bands, samples);
    forall c | 0 <= c < CubeSize(lines, bands, samples) && c != at
      ensures PixelWritten(c, band, p + 1, lines, bands, samples) <==> PixelWritten(c, band, p, lines, bands, samples)
    {
      CubeIndexCover(c, lines, bands, samples);
      var l, s := LineOf(c, bands, samples), SampleOf(c, samples);
      if BandOf(c, bands, samples) == band && RowMajor(l, s, samples) == p {
        RowMajorInjective(l, s, j, k, samples);
        assert false;
      }
    }
  }

  /** writeITK: copies the image `itkimg` line by line into band `band` of
      the cube buffer `image`; every other cell keeps its value. */
  method WriteITK(itkimg: seq<real>, image: array<real>, band: nat, lines: nat, bands: nat, samples: nat)
    requires image.Length == CubeSize(lines, bands, samples) && band < bands
    requires |itkimg| == lines * samples
    modifies image
    ensures image[..] == InsertBand(old(image[..]), band, itkimg, lines, bands, samples)
  {
    ghost var before := image[..];
    var j := 0;
    while j < lines
      invariant j <= lines
      invariant forall c :: 0 <= c < image.Length ==>
        image[c] == if PixelWritten(c, band, j * samples, lines, bands, samples)
                    then InsertCell(before, band, itkimg, c, lines, bands, samples) else before[c]
    {
      var k := 0;
      while k < samples
        invariant k <= samples
        invariant forall c :: 0 <= c < image.Length ==>
          image[c] == if PixelWritten(c, band, j * samples + k, lines, bands, samples)
                      then InsertCell(before, band, itkimg, c, lines, bands, samples) else before[c]
      {
        var at: int := j * samples * bands + band * samples + k;
        var p: int := j * samples + k;
        SourceIndex(j, band, k, lines, bands, samples, at, p);
        PixelWrittenStep(band, lines, bands, samples, j, k, at, p);
        CubeIndexInRange(j, band, k, lines, bands, samples);
        image[at] := itkimg[p];
        k := k + 1;
      }
      MulSucc(j, j + 1, samples);
      j := j + 1;
    }
    forall c | 0 <= c < image.Length ensures image[c] == InsertBand(before, band, itkimg, lines, bands, samples)[c] {
      CubeIndexCover(c, lines, bands, samples);
      RowMajorBounds(LineOf(c, bands, samples), SampleOf(c, samples), lines, samples);
    }
  }
}
