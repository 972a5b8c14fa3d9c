/** A cube written by the writers (descriptor, then raster) reads back:
    the descriptor gives its geometry, and any subset of the raster gives
    the matching part of the written buffer. */
module CubeRoundTrip {
  import opened Options
  import opened Envi
  import opened HeaderCodec
  import opened HeaderRoundTrip
  import opened RasterCodec

  /** The disk after hyperspectral_write_header and hyperspectral_write_image
      stored `name`'s descriptor and the buffer `v` as its raster. */
  function Written(disk: Disk, name: string, bands: nat, samples: nat, lines: nat,
                   wlens: seq<real>, fmt: real -> string, v: seq<real>): (d: Disk)
    ensures name + ".img" in d.rasters && d.rasters[name + ".img"] == v
    ensures name + ".hdr" in d.texts && d.texts[name + ".hdr"] == HeaderText(bands, samples, lines, wlens, fmt)
  {
    disk.(texts := disk.texts[name + ".hdr" := HeaderText(bands, samples, lines, wlens, fmt)],
          rasters := disk.rasters[name + ".img" := v])
  }

  /** Reading back a written cube through `name.img`: the descriptor reads
      as a float32 BIL cube of the written size, and a subset read of the
      raster gives the subset's crop of the buffer; the one exception is a
      cube with lines but empty raw lines, whose read reports a reading
      error. */
  lemma WrittenCubeReadsBack(disk: Disk, name: string, bands: nat, samples: nat, lines: nat,
                             wlens: seq<real>, fmt: real -> string, v: seq<real>,
                             s: Subset, junk: (nat, nat) -> real)
    requires |v| == lines * bands * samples
    requires s.startSample <= s.endSample <= samples && s.startLine <= s.endLine <= lines
    requires s.startBand <= s.endBand <= bands
    ensures '.' in name + ".img"
    ensures var d := Written(disk, name, bands, samples, lines, wlens, fmt, v);
      var r := ReadHeader(d, name + ".img");
      && r.Ok? && r.value.interleave == Bil && r.value.dataType == 4 && r.value.offset == 0
      && r.value.samples == samples && r.value.lines == lines && r.value.bands == bands
      && ValidSubset(r.value, s)
      && ReadCube(d, name + ".img", r.value, s, junk) ==
           (if s.Lines() > 0 && bands * samples == 0 then Err(FileReadingError)
            else Ok(Crop(v, lines, bands, samples, s)))
  {
    var d := Written(disk, name, bands, samples, lines, wlens, fmt, v);
    WrittenDescriptorReadsBack(disk, name, bands, samples, lines, wlens, fmt, v);
    WrittenRasterReadsBack(d, name, ReadHeader(d, name + ".img").value, bands, samples, lines, v, s, junk);
  }

  /** The wavelength part of the round trip, through the whole disk: when
      the stream prints each of the band's wavelengths plainly and `strtod`
      reads it back, the wavelengths come back. */
  lemma WrittenListReadsBack(disk: Disk, name: string, bands: nat, samples: nat, lines: nat,
                             wlens: seq<real>, fmt: real -> string, v: seq<real>)
    requires bands == |wlens| && AllPrintPlain(fmt, wlens) && AllReadBack(fmt, wlens)
    ensures '.' in name + ".img"
    ensures var r := ReadHeader(Written(disk, name, bands, samples, lines, wlens, fmt, v), name + ".img");
      r.Ok? && r.value.wlens == wlens
  {
    ImgHdrName(name);
    WrittenWavelengthsReadBack(Written(disk, name, bands, samples, lines, wlens, fmt, v), name, samples, lines, wlens, fmt);
  }

  /** The descriptor part of the round trip, through the whole disk. */
  lemma WrittenDescriptorReadsBack(disk: Disk, name: string, bands: nat, samples: nat, lines: nat,
                                   wlens: seq<real>, fmt: real -> string, v: seq<real>)
    ensures '.' in name + ".img"
    ensures var r := ReadHeader(Written(disk, name, bands, samples, lines, wlens, fmt, v), name + ".img");
      && r.Ok? && r.value.interleave == Bil && r.value.dataType == 4 && r.value.offset == 0
      && r.value.samples == samples && r.value.lines == lines && r.value.bands == bands
  {
    var d := Written(disk, name, bands, samples, lines, wlens, fmt, v);
    var withRaster := disk.(rasters := disk.rasters[name + ".img" := v]);
    assert d == withRaster.(texts := withRaster.texts[name + ".hdr" := HeaderText(bands, samples, lines, wlens, fmt)]);
    WrittenHeaderReadsBack(withRaster, name, bands, samples, lines, wlens, fmt);
  }

  /** The raster part of the round trip: a float32 BIL raster without
      header offset that holds the buffer `v` reads back as `v`'s crops. */
  lemma WrittenRasterReadsBack(d: Disk, name: string, h: Header, bands: nat, samples: nat, lines: nat,
                               v: seq<real>, s: Subset, junk: (nat, nat) -> real)
    requires h.interleave == Bil && h.dataType == 4 && h.offset == 0
    requires h.bands == bands && h.samples == samples && h.lines == lines
    requires name + ".img" in d.rasters && d.rasters[name + ".img"] == v
    requires |v| == lines * bands * samples && ValidSubset(h, s)
    ensures ReadCube(d, name + ".img", h, s, junk) ==
      (if s.Lines() > 0 && bands * samples == 0 then Err(FileReadingError)
       else Ok(Crop(v, lines, bands, samples, s)))
  {
    DropNothing(v, h.offset / 4);
    BilEncodesItself(v, lines, bands, samples);
    ReadEncoded(d, name + ".img", h, s, junk, v, 4);
  }

  lemma DropNothing(v: seq<real>, k: nat)
    requires k == 0
    ensures k <= |v| && v[k..] == v
  {
  }

  /** In particular, the whole written cube reads back unchanged whenever
      its raw lines are not empty or it has no lines. */
  lemma WrittenCubeReadsBackWhole(disk: Disk, name: string, bands: nat, samples: nat, lines: nat,
                                  wlens: seq<real>, fmt: real -> string, v: seq<real>, junk: (nat, nat) -> real)
    requires |v| == lines * bands * samples
    requires lines == 0 || bands * samples > 0
    ensures '.' in name + ".img"
    ensures var d := Written(disk, name, bands, samples, lines, wlens, fmt, v);
      var r := ReadHeader(d, name + ".img");
      r.Ok? && ReadCube(d, name + ".img", r.value, FullSubset(r.value), junk) == Ok(v)
  {
    var full := Subset(0, samples, 0, lines, 0, bands);
    WrittenCubeReadsBack(disk, name, bands, samples, lines, wlens, fmt, v, full, junk);
    CropWhole(v, lines, bands, samples);
  }
}
