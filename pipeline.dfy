/** hyperspec_img: every band of a cube is registered to the middle band
    and resampled onto it; the aligned cube, and when asked for a cube of
    differences, are written next to the input. The ITK filters and
    registrations are parameters of the model: functions on band images. */
module Pipeline {
  import opened Options
  import opened Envi
  import opened Layout
  import opened HeaderCodec
  import opened RasterCodec
  import opened Config
  import opened BandStore
  import opened CubeRoundTrip

  /** A band image: `samples` x `lines` pixels, pixel (k, j) at
      `j * samples + k`. */
  type Band = seq<real>

  /** The parameters of a transform found by a registration. */
  type Transform = seq<real>

  /** The ITK side of the program: the two filters, the registration for a
      method (1 rigid, 2 similarity, 3 affine, 4 B-spline) from a fixed and
      a moving image, resampling of the moving image through a transform
      onto the fixed image's grid, and the difference filter. */
  datatype Itk = Itk(
    medianFilter: (Band, int) -> Band,
    gradientFilter: (Band, int) -> Band,
    register: (int, Band, Band, RegParams) -> Transform,
    resample: (int, Band, Band, Transform) -> Band,
    diffFilter: (Band, Band) -> Band)

  /** Resampling gives an image on the fixed image's grid, and the
      difference of two images of a size has that size. */
  ghost predicate KeepsSize(itk: Itk, lines: nat, samples: nat)
  {
    var n := lines * samples;
    && (forall m, f, v, t :: |f| == n ==> |itk.resample(m, f, v, t)| == n)
    && (forall a, b :: |a| == n && |b| == n ==> |itk.diffFilter(a, b)| == n)
  }

  /** The image the registration sees: median filtered when `median` is 1,
      then gradient filtered when `gradient` is 1. */
  function Filtered(itk: Itk, p: RegParams, img: Band): Band
  {
    var m := if p.median == 1 then itk.medianFilter(img, p.radius) else img;
    if p.gradient == 1 then itk.gradientFilter(m, p.sigma) else m
  }

  /** The moving image resampled onto the fixed one: the transform is found
      between the filtered images, and the unfiltered moving image is
      resampled through it. */
  function Registered(itk: Itk, p: RegParams, fixed: Band, moving: Band): Band
  {
    itk.resample(p.regmethod, fixed, moving, itk.register(p.regmethod, Filtered(itk, p, fixed), Filtered(itk, p, moving), p))
  }

  /** The reference band, to which every other band is aligned. */
  function Reference(bands: nat): (r: nat)
    requires bands > 0
    ensures r < bands
  {
    bands / 2
  }

  /** Band `b` of the aligned cube: the reference band as it is, every other
      band registered to it. */
  function AlignedBand(itk: Itk, p: RegParams, cube: seq<real>, b: nat, lines: nat, bands: nat, samples: nat): Band
    requires |cube| == CubeSize(lines, bands, samples) && b < bands
  {
    var fixed := ExtractBand(cube, Reference(bands), lines, bands, samples);
    if b == Reference(bands) then fixed
    else Registered(itk, p, fixed, ExtractBand(cube, b, lines, bands, samples))
  }

  /** Band `b` of the difference cube: the difference between the moving
      band and its registered image when differences are asked for
      (`diff_conf` 1) and `b` is not the reference band; otherwise band `b`
      of `prev`, the buffer's contents before the loop. */
  function DiffBand(itk: Itk, p: RegParams, cube: seq<real>, prev: seq<real>, b: nat,
                    lines: nat, bands: nat, samples: nat): Band
    requires |cube| == CubeSize(lines, bands, samples) && |prev| == CubeSize(lines, bands, samples) && b < bands
  {
    if p.diffConf == 1 && b != Reference(bands) then
      var moving := ExtractBand(cube, b, lines, bands, samples);
      itk.diffFilter(moving, Registered(itk, p, ExtractBand(cube, Reference(bands), lines, bands, samples), moving))
    else ExtractBand(prev, b, lines, bands, samples)
  }

  /** The cube whose band `b` is `f(b)`. */
  function CubeOf(f: nat -> Band, lines: nat, bands: nat, samples: nat): (r: seq<real>)
    requires forall b :: 0 <= b < bands ==> |f(b)| == lines * samples
    ensures |r| == CubeSize(lines, bands, samples)
  {
    seq(CubeSize(lines, bands, samples), c requires 0 <= c < CubeSize(lines, bands, samples) =>
      CubeIndexCover(c, lines, bands, samples);
      RowMajorBounds(LineOf(c, bands, samples), SampleOf(c, samples), lines, samples);
      f(BandOf(c, bands, samples))[RowMajor(LineOf(c, bands, samples), SampleOf(c, samples), samples)])
  }

  /** Each band of `CubeOf(f)` is `f`'s image for it. */
  lemma {:induction false} CubeOfBands(f: nat -> Band, lines: nat, bands: nat, samples: nat, b: nat)
    requires forall b :: 0 <= b < bands ==> |f(b)| == lines * samples
    requires b < bands
    ensures ExtractBand(CubeOf(f, lines, bands, samples), b, lines, bands, samples) == f(b)
  {
    var cube := CubeOf(f, lines, bands, samples);
    var e := ExtractBand(cube, b, lines, bands, samples);
    forall p | 0 <= p < lines * samples ensures e[p] == f(b)[p] {
      RowMajorCover(p, lines, samples);
      var j, k := p / samples, p % samples;
      CubeIndexInRange(j, b, k, lines, bands, samples);
      var c := CubeIndex(j, b, k, bands, samples);
      assert e[p] == cube[c];
    }
  }

  /** The aligned cube. */
  function AlignedCube(itk: Itk, p: RegParams, cube: seq<real>, lines: nat, bands: nat, samples: nat): (r: seq<real>)
    requires |cube| == CubeSize(lines, bands, samples) && KeepsSize(itk, lines, samples)
    ensures |r| == |cube|
    ensures forall b :: 0 <= b < bands ==>
      ExtractBand(r, b, lines, bands, samples) == AlignedBand(itk, p, cube, b, lines, bands, samples)
  {
    var f := (b: nat) => if b < bands then AlignedBand(itk, p, cube, b, lines, bands, samples) else [];
    var r := CubeOf(f, lines, bands, samples);
    forall b | 0 <= b < bands
      ensures ExtractBand(r, b, lines, bands, samples) == AlignedBand(itk, p, cube, b, lines, bands, samples)
    {
      CubeOfBands(f, lines, bands, samples, b);
    }
    r
  }

  /** The difference cube, over the buffer's earlier contents `prev`. */
  function DiffCube(itk: Itk, p: RegParams, cube: seq<real>, prev: seq<real>, lines: nat, bands: nat, samples: nat)
    : (r: seq<real>)
    requires |cube| == CubeSize(lines, bands, samples) && |prev| == CubeSize(lines, bands, samples)
    requires KeepsSize(itk, lines, samples)
    ensures |r| == |cube|
    ensures forall b :: 0 <= b < bands ==>
      ExtractBand(r, b, lines, bands, samples) == DiffBand(itk, p, cube, prev, b, lines, bands, samples)
  {
    var f := (b: nat) => if b < bands then DiffBand(itk, p, cube, prev, b, lines, bands, samples) else [];
    var r := CubeOf(f, lines, bands, samples);
    forall b | 0 <= b < bands
      ensures ExtractBand(r, b, lines, bands, samples) == DiffBand(itk, p, cube, prev, b, lines, bands, samples)
    {
      CubeOfBands(f, lines, bands, samples, b);
    }
    r
  }

  /** The band loop of hyperspec_img: the reference band is read once as the
      fixed image and filtered; then each band in turn is read as the moving
      image and either copied through (the reference band) or registered,
      resampled and written into `out`, its difference image going into
      `diff` when `diff_conf` is 1. */
  method AlignBands(itk: Itk, params: RegParams, img: array<real>, out: array<real>, diff: array<real>,
                    lines: nat, bands: nat, samples: nat)
    requires img != out && img != diff && out != diff
    requires img.Length == CubeSize(lines, bands, samples)
    requires out.Length == CubeSize(lines, bands, samples) && diff.Length == CubeSize(lines, bands, samples)
    requires bands > 0 && 1 <= params.regmethod <= 4 && KeepsSize(itk, lines, samples)
    modifies out, diff
    ensures out[..] == AlignedCube(itk, params, img[..], lines, bands, samples)
    ensures diff[..] == DiffCube(itk, params, img[..], old(diff[..]), lines, bands, samples)
  {
    ghost var cube := img[..];
    ghost var diff0 := diff[..];
    ghost var out0 := out[..];
    var fixed := new real[lines * samples];
    var moving := new real[lines * samples];
    var ref := Reference(bands);
    ReadITK(fixed, img, ref, lines, bands, samples);
    var ffixed := Filtered(itk, params, fixed[..]);
    var i := 0;
    while i < bands
      invariant i <= bands
      invariant fixed[..] == ExtractBand(cube, ref, lines, bands, samples)
      invariant forall b :: 0 <= b < bands ==>
        ExtractBand(out[..], b, lines, bands, samples) ==
          (if b < i then AlignedBand(itk, params, cube, b, lines, bands, samples)
           else ExtractBand(out0, b, lines, bands, samples))
      invariant forall b :: 0 <= b < bands ==>
        ExtractBand(diff[..], b, lines, bands, samples) ==
          (if b < i then DiffBand(itk, params, cube, diff0, b, lines, bands, samples)
           else ExtractBand(diff0, b, lines, bands, samples))
    {
      ReadITK(moving, img, i, lines, bands, samples);
      if i == ref {
        InsertBandBands(out[..], i, moving[..], lines, bands, samples);
        WriteITK(moving[..], out, i, lines, bands, samples);
      } else {
        var fmoving := Filtered(itk, params, moving[..]);
        var transform := itk.register(params.regmethod, ffixed, fmoving, params);
        var output := itk.resample(params.regmethod, fixed[..], moving[..], transform);
        var outdiff := itk.diffFilter(moving[..], output);
        InsertBandBands(out[..], i, output, lines, bands, samples);
        WriteITK(output, out, i, lines, bands, samples);
        if params.diffConf == 1 {
          InsertBandBands(diff[..], i, outdiff, lines, bands, samples);
          WriteITK(outdiff, diff, i, lines, bands, samples);
        }
      }
      i := i + 1;
    }
    BandsDetermineCube(out[..], AlignedCube(itk, params, cube, lines, bands, samples), lines, bands, samples);
    BandsDetermineCube(diff[..], DiffCube(itk, params, cube, diff0, lines, bands, samples), lines, bands, samples);
  }

  /** A cube of zeros, as `new float[n]()` allocates it. */
  function Zeros(n: nat): (z: seq<real>)
    ensures |z| == n && forall c :: 0 <= c < n ==> z[c] == 0.0
  {
    seq(n, _ => 0.0)
  }

  /** The input buffer after the full read into a zeroed buffer: the cells
      the read delivered, zeros after them. */
  function InputCube(disk: Disk, filename: string, h: Header, junk: (nat, nat) -> real): (v: seq<real>)
    ensures |v| == CubeSize(h.lines, h.bands, h.samples)
    ensures ReadCube(disk, filename, h, FullSubset(h), junk).Ok? ==>
      v == ReadCube(disk, filename, h, FullSubset(h), junk).value
  {
    var size := CubeSize(h.lines, h.bands, h.samples);
    var piece := Decode(disk, filename, h, FullSubset(h), junk).1;
    SpliceCells(Zeros(size), 0, piece);
    Splice(Zeros(size), 0, piece)
  }

  /** The disk after the results are written: the cube `aligned` under
      `reg_name`, and the cube `diffs` under `diff_name` when `diff_conf`
      is 1, each with a descriptor of the input's geometry and wavelengths. */
  function Saved(disk: Disk, h: Header, p: RegParams, aligned: seq<real>, diffs: seq<real>, fmt: real -> string): Disk
  {
    var d := Written(disk, p.regName, h.bands, h.samples, h.lines, h.wlens, fmt, aligned);
    if p.diffConf == 1 then Written(d, p.diffName, h.bands, h.samples, h.lines, h.wlens, fmt, diffs) else d
  }

  /** What hyperspec_img leaves on the disk, for the descriptor `h`, the
      parameters `p` and the input buffer `input`: the aligned cube, and the
      difference cube over a zeroed buffer. */
  function Outputs(disk: Disk, h: Header, p: RegParams, input: seq<real>, itk: Itk, fmt: real -> string): Disk
    requires |input| == CubeSize(h.lines, h.bands, h.samples) && KeepsSize(itk, h.lines, h.samples)
  {
    Saved(disk, h, p, AlignedCube(itk, p, input, h.lines, h.bands, h.samples),
          DiffCube(itk, p, input, Zeros(|input|), h.lines, h.bands, h.samples), fmt)
  }

  /** hyperspec_img: read the parameters, the descriptor and the cube (their
      status codes are not looked at), align the bands, and write the
      results. */
  method HyperspecImg(disk: Disk, filename: string, conf: Option<string>, itk: Itk, fmt: real -> string,
                      junk: (nat, nat) -> real) returns (d: Disk)
    requires '.' in filename && ReadHeader(disk, filename).Ok?
    requires var h := ReadHeader(disk, filename).value; h.bands > 0 && KeepsSize(itk, h.lines, h.samples)
    requires 1 <= Settings(conf).regmethod <= 4
    ensures var h := ReadHeader(disk, filename).value;
      d == Outputs(disk, h, Settings(conf), InputCube(disk, filename, h, junk), itk, fmt)
  {
    var regErr, params := ParamsRead(conf);
    var header := ReadHeader(disk, filename).value;
    d := ProcessCube(disk, filename, header, params, itk, fmt, junk);
  }

  /** The body of hyperspec_img once the parameters and the descriptor are
      read: the cube is read into a zeroed buffer, aligned into zeroed `out`
      and `diff` buffers, and written. */
  method ProcessCube(disk: Disk, filename: string, header: Header, params: RegParams, itk: Itk,
                     fmt: real -> string, junk: (nat, nat) -> real) returns (d: Disk)
    requires header.bands > 0 && KeepsSize(itk, header.lines, header.samples)
    requires 1 <= params.regmethod <= 4
    ensures d == Outputs(disk, header, params, InputCube(disk, filename, header, junk), itk, fmt)
  {
    var size := header.samples * header.lines * header.bands;
    CubeSizeOrder(header.lines, header.bands, header.samples, size);
    var img := new real[size](_ => 0.0);
    assert img[..] == Zeros(size);
    var hypErr := ReadImageFull(disk, filename, header, img, junk);
    ghost var input := img[..];
    assert input == InputCube(disk, filename, header, junk);
    var out := new real[size](_ => 0.0);
    var diff := new real[size](_ => 0.0);
    assert diff[..] == Zeros(size);
    AlignBands(itk, params, img, out, diff, header.lines, header.bands, header.samples);
    d := SaveResults(disk, header, params, out, diff, fmt);
  }

  /** The writes at the end of hyperspec_img. */
  method SaveResults(disk: Disk, header: Header, params: RegParams, out: array<real>, diff: array<real>,
                     fmt: real -> string) returns (d: Disk)
    requires out.Length == CubeSize(header.lines, header.bands, header.samples)
    requires diff.Length == CubeSize(header.lines, header.bands, header.samples)
    ensures d == Saved(disk, header, params, out[..], diff[..], fmt)
  {
    var size := out.Length;
    assert out[..size] == out[..] && diff[..size] == diff[..];
    d := WriteHeader(disk, params.regName, header.bands, header.samples, header.lines, header.wlens, fmt);
    d := WriteImage(d, params.regName, header.bands, header.samples, header.lines, out);
    assert d == Written(disk, params.regName, header.bands, header.samples, header.lines, header.wlens, fmt, out[..]);
    if params.diffConf == 1 {
      ghost var aligned := d;
      d := WriteHeader(d, params.diffName, header.bands, header.samples, header.lines, header.wlens, fmt);
      d := WriteImage(d, params.diffName, header.bands, header.samples, header.lines, diff);
      assert d == Written(aligned, params.diffName, header.bands, header.samples, header.lines, header.wlens, fmt, diff[..]);
    }
  }

  lemma CubeSizeOrder(lines: nat, bands: nat, samples: nat, size: int)
    requires size == samples * lines * bands
    ensures size == CubeSize(lines, bands, samples)
  {
    MulAssoc(samples, lines, bands);
    MulAssoc(lines, bands, samples);
  }

  // ---------------------------------------------------------------------
  // What the results hold.

  /** The reference band goes into the aligned cube as it is, and the
      difference cube keeps it zero. */
  lemma {:induction false} ReferenceBandCopied(itk: Itk, p: RegParams, input: seq<real>, lines: nat, bands: nat, samples: nat)
    requires |input| == CubeSize(lines, bands, samples) && KeepsSize(itk, lines, samples) && bands > 0
    ensures ExtractBand(AlignedCube(itk, p, input, lines, bands, samples), Reference(bands), lines, bands, samples)
         == ExtractBand(input, Reference(bands), lines, bands, samples)
    ensures ExtractBand(DiffCube(itk, p, input, Zeros(|input|), lines, bands, samples), Reference(bands), lines, bands, samples)
         == Zeros(lines * samples)
  {
    ZeroBands(lines, bands, samples, Reference(bands));
  }

  /** Without `diff_conf` 1 the difference buffer stays all zero. */
  lemma {:induction false} NoDiffStaysZero(itk: Itk, p: RegParams, input: seq<real>, lines: nat, bands: nat, samples: nat)
    requires |input| == CubeSize(lines, bands, samples) && KeepsSize(itk, lines, samples)
    requires p.diffConf != 1
    ensures DiffCube(itk, p, input, Zeros(|input|), lines, bands, samples) == Zeros(|input|)
  {
    var r := DiffCube(itk, p, input, Zeros(|input|), lines, bands, samples);
    forall b | 0 <= b < bands
      ensures ExtractBand(r, b, lines, bands, samples) == ExtractBand(Zeros(|input|), b, lines, bands, samples)
    {
    }
    BandsDetermineCube(r, Zeros(|input|), lines, bands, samples);
  }

  /** Every band of a zero cube is a zero image. */
  lemma {:induction false} ZeroBands(lines: nat, bands: nat, samples: nat, b: nat)
    requires b < bands
    ensures ExtractBand(Zeros(CubeSize(lines, bands, samples)), b, lines, bands, samples) == Zeros(lines * samples)
  {
    var e := ExtractBand(Zeros(CubeSize(lines, bands, samples)), b, lines, bands, samples);
    forall q | 0 <= q < lines * samples ensures e[q] == 0.0 {
      RowMajorCover(q, lines, samples);
    }
  }

  /** Writes of two different names commute. */
  lemma WrittenCommute(disk: Disk, a: string, b: string, bands: nat, samples: nat, lines: nat, wlens: seq<real>,
                       fmt: real -> string, va: seq<real>, vb: seq<real>)
    requires a != b
    ensures Written(Written(disk, a, bands, samples, lines, wlens, fmt, va), b, bands, samples, lines, wlens, fmt, vb)
         == Written(Written(disk, b, bands, samples, lines, wlens, fmt, vb), a, bands, samples, lines, wlens, fmt, va)
  {
    SuffixDistinct(a, b, ".hdr");
    SuffixDistinct(a, b, ".img");
  }

  lemma SuffixDistinct(a: string, b: string, suffix: string)
    requires a != b
    ensures a + suffix != b + suffix
  {
    assert (a + suffix)[..|a|] == a;
    assert (b + suffix)[..|b|] == b;
  }

  /** The aligned cube reads back from `reg_name` (unless the difference
      cube was written over it under the same name). */
  lemma AlignedCubeReadsBack(disk: Disk, h: Header, p: RegParams, input: seq<real>, itk: Itk, fmt: real -> string,
                             junk: (nat, nat) -> real)
    requires |input| == CubeSize(h.lines, h.bands, h.samples) && KeepsSize(itk, h.lines, h.samples)
    requires h.lines == 0 || h.bands * h.samples > 0
    requires p.diffConf != 1 || p.diffName != p.regName
    ensures '.' in p.regName + ".img"
    ensures var d := Outputs(disk, h, p, input, itk, fmt);
      var r := ReadHeader(d, p.regName + ".img");
      && r.Ok? && r.value.lines == h.lines && r.value.bands == h.bands && r.value.samples == h.samples
      && ReadCube(d, p.regName + ".img", r.value, FullSubset(r.value), junk)
           == Ok(AlignedCube(itk, p, input, h.lines, h.bands, h.samples))
  {
    var aligned := AlignedCube(itk, p, input, h.lines, h.bands, h.samples);
    var diffs := DiffCube(itk, p, input, Zeros(|input|), h.lines, h.bands, h.samples);
    var base := if p.diffConf == 1 then Written(disk, p.diffName, h.bands, h.samples, h.lines, h.wlens, fmt, diffs) else disk;
    if p.diffConf == 1 {
      WrittenCommute(disk, p.regName, p.diffName, h.bands, h.samples, h.lines, h.wlens, fmt, aligned, diffs);
    }
    assert Outputs(disk, h, p, input, itk, fmt) == Written(base, p.regName, h.bands, h.samples, h.lines, h.wlens, fmt, aligned);
    WrittenDescriptorReadsBack(base, p.regName, h.bands, h.samples, h.lines, h.wlens, fmt, aligned);
    WrittenCubeReadsBackWhole(base, p.regName, h.bands, h.samples, h.lines, h.wlens, fmt, aligned, junk);
  }

  /** A cube that the writers stored reads in as the buffer that was
      written, so hyperspec_img aligns exactly that buffer. */
  lemma WrittenInput(disk: Disk, name: string, bands: nat, samples: nat, lines: nat, wlens: seq<real>,
                     fmt: real -> string, v: seq<real>, junk: (nat, nat) -> real)
    requires |v| == CubeSize(lines, bands, samples)
    requires lines == 0 || bands * samples > 0
    ensures '.' in name + ".img"
    ensures var d := Written(disk, name, bands, samples, lines, wlens, fmt, v);
      var r := ReadHeader(d, name + ".img");
      r.Ok? && InputCube(d, name + ".img", r.value, junk) == v
  {
    WrittenCubeReadsBackWhole(disk, name, bands, samples, lines, wlens, fmt, v, junk);
  }
}
