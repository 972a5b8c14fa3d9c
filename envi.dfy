/** Optional values, for lookups that may find nothing. */
module Options {
  datatype Option<+T> = None | Some(value: T)
}

/** The types of the cube codec's interface: interleave, header, subset,
    error codes, and the files the codec reads and writes. */
module Envi {

  /** Only band-interleaved-by-line and band-interleaved-by-pixel exist;
      band-sequential cubes are not supported. */
  datatype Interleave = Bil | Bip

  /** The parsed `.hdr` descriptor of a cube. */
  datatype Header = Header(
    interleave: Interleave,
    samples: nat,       // pixels across track
    bands: nat,         // spectral bands
    lines: nat,         // lines along track
    offset: nat,        // byte offset of the raster inside its file
    wlens: seq<real>,   // one wavelength per band
    dataType: int)      // element type code: 4 float32, 12 uint16, 2 int16

  /** A request for part of a cube: a start/end pair per axis, end exclusive. */
  datatype Subset = Subset(
    startSample: nat, endSample: nat,
    startLine: nat, endLine: nat,
    startBand: nat, endBand: nat)
  {
    function Lines(): nat requires startLine <= endLine { endLine - startLine }
    function Bands(): nat requires startBand <= endBand { endBand - startBand }
    function Samples(): nat requires startSample <= endSample { endSample - startSample }
  }

  /** A subset whose bounds lie inside the cube on every axis. */
  predicate ValidSubset(h: Header, s: Subset)
  {
    && s.startSample <= s.endSample <= h.samples
    && s.startLine <= s.endLine <= h.lines
    && s.startBand <= s.endBand <= h.bands
  }

  /** The subset the reader without a subset argument uses: the whole cube. */
  function FullSubset(h: Header): (s: Subset)
    ensures ValidSubset(h, s)
    ensures s.Lines() == h.lines && s.Bands() == h.bands && s.Samples() == h.samples
    ensures s.startLine == 0 && s.startBand == 0 && s.startSample == 0
  {
    Subset(0, h.samples, 0, h.lines, 0, h.bands)
  }

  /** The codec's status codes. */
  datatype HyperErr =
    | NoErr
    | FileNotFound
    | HdrPropertyNotFound
    | InterleaveUnsupported
    | DatatypeUnsupported
    | FileReadingError

  datatype Result<+T> = Ok(value: T) | Err(error: HyperErr)

  /** The files the codec sees: text files (headers) and raster files, the
      latter as the sequence of their elements' numeric values. */
  datatype Disk = Disk(texts: map<string, string>, rasters: map<string, seq<real>>)
}
