# Band registration of hyperspectral cubes — a Dafny model

The program reads a hyperspectral cube stored in the ENVI layout. That is a
text descriptor `name.hdr` beside a raw raster `name.img`, in band-interleaved-by-line
(BIL) or band-interleaved-by-pixel (BIP) order. It aligns every spectral band to
the middle band with an ITK registration and writes two ENVI cubes: the
aligned cube, and optionally a cube of per-band differences. It is configured
by `key = value` lines in `params.conf`.

This project models the core of that pipeline and proves what it computes:

- **Envi, Layout**: the descriptor, subset and status types. The output
  buffer's layout `line*bands*samples + band*samples + sample`: every
  coordinate has its own cell, and every cell has its coordinate.
- **TextScan**: the regular-expression lookup `property\s*=\s*([CLASS]+)`
  (leftmost match, greedy `\s*`, no left boundary on the key). Also `strtod`
  on the digits the value classes admit, decimal printing, and the base name
  `(.*)[.].*$`.
- **HeaderCodec**: `getValue`, `hyperspectral_read_header` with its status
  codes, `getWavelengths` (the scanning loop and the fallback to `0, 1, 2, …`),
  and `hyperspectral_write_header` with the text it streams.
- **HeaderRoundTrip**: a descriptor the writer emits reads back as BIL
  float32 with offset 0 and the written counts. Wavelengths that print plainly
  read back exactly.
- **RasterCodec**:
  - `hyperspectral_read_image`, both overloads, as an imperative line loop
    over an `array`. It is proved equal to a functional description, and that
    description is proved to crop the stored cube.
  - `hyperspectral_write_image`, a line loop.
- **CubeRoundTrip**: a cube written by the two writers reads back, whole or
  through any subset.
- **Config**: `getParam`, `params_read` with all eighteen keys and defaults,
  and the `metric` defect (see Findings).
- **BandStore**: `readITK` and `writeITK` as nested loops over arrays. They
  are proved to extract a band and to write a band without touching the
  others.
- **Pipeline**: `hyperspec_img`. It reads the parameters, descriptor and cube,
  runs the band loop over `out` and `diff` arrays, and writes the results. The
  ITK filters, registrations, resampling and difference filter are parameters
  (function values in the `Itk` record). The proof shows:
  - the files written hold the aligned and difference cubes;
  - the reference band is copied through unchanged;
  - the aligned cube reads back from disk.

The files on disk are a `Disk` value: text files by name, and raster files as
sequences of element values. Reading a short file gives a shortened read.
Where a line buffer is not filled, its cells hold `junk(line, position)`,
which stands for the contents of an uninitialised `malloc`.

Where the code and its own documentation disagree, the model follows the code:

- `includes/hyperspec.h` declares `reg_params` without the `translation`,
  `metric` and `output` fields. `params_read` nevertheless sets them, so
  `Config.RegParams` has them as integers. The registration files read
  `translation` (`src/rigid.cpp`, `src/bspline.cpp`) and `output`
  (`src/rigid.cpp`, `src/similarity.cpp`); `metric` is only printed.
- `includes/readimage.h` documents `HYPERSPECTRAL_FILE_READING_ERROR` only
  as `???`. The model gives it the meaning the code gives it: the first line
  read that delivers no element at all.

## Model

| member | source | states |
|---|---|---|
| Envi.FullSubset | src/readimage.cpp:91-101 | the overload without a subset reads every sample, line and band from 0, a subset valid for the header |
| Layout.CubeIndexInRange | includes/readimage.h:95 | an in-range (line, band, sample) lands inside the buffer, and line, band and sample are recovered from its cell |
| Layout.CubeIndexInjective | includes/readimage.h:95 | distinct in-range coordinates have distinct cells |
| Layout.CubeIndexCover | includes/readimage.h:95 | every cell of the buffer is the cell of some in-range coordinate |
| TextScan.GetMatch | src/readimage.cpp:171-175 | the capture has length end minus start, and each of its characters is the text's character at that offset |
| TextScan.FirstMatchNone | src/readimage.cpp:188-194 | a failed search means no position of the text matches the pattern |
| TextScan.FirstMatchFound | src/readimage.cpp:188-195 | a successful search comes from a matching position, and its capture is a non-empty run of the value class |
| TextScan.FirstMatchIs | src/readimage.cpp:185-195 | the leftmost match wins: when nothing matches before `at` and a match starts at `at`, its capture is the result |
| TextScan.KeyLineFound | src/readimage.cpp:185-195 | a `key = v` line whose key does not occur in the text before it is what the lookup finds |
| TextScan.StrtoIntDecimal | src/readimage.cpp:66-71 | `strtod` of a printed non-negative count gives that count, also once stored into an `int` |
| TextScan.Basename | src/readimage.cpp:205-215 | the base name is the prefix before the last dot: a dot follows it, and none comes after that one |
| TextScan.BasenameOfExtension | src/readimage.cpp:26-30 | stripping an appended `.ext` gives the name back, so `name.img` finds `name.hdr` |
| HeaderCodec.GetValue | src/readimage.cpp:177-203 | no value exactly when no position matches `property\s*=\s*(…)`; otherwise a non-empty run of the header value class |
| HeaderCodec.ReadHeader | src/readimage.cpp:24-89 | file-not-found exactly when the `.hdr` is missing; property-not-found exactly when one of the six required keys is missing; interleave-unsupported exactly when the interleave is neither `bil` nor `bip`; otherwise every field is `strtod` of its value and the wavelengths are `getWavelengths` of the band count and the `wavelength` value (empty when absent) |
| HeaderCodec.Wavelengths | src/readimage.cpp:217-262 | one wavelength per band: `0, 1, 2, …` for an empty text or when the numbers run out, otherwise the `strtod` values of the first `bands` numbers after the first brace |
| HeaderCodec.ScanWavelengths | src/readimage.cpp:228-248 | the scanning loop completes exactly when `bands` numbers are found, and then holds their `strtod` values in order |
| HeaderCodec.StandardWavelengths | src/readimage.cpp:255-260 | the fallback loop yields `0, 1, …, bands-1` |
| HeaderCodec.GetWavelengths | src/readimage.cpp:217-262 | the method computes the wavelengths the functional description gives, for every input |
| HeaderCodec.StreamWavelengths | src/readimage.cpp:288-291 | the output loop appends each wavelength as printed, followed by a space |
| HeaderCodec.WriteHeader | src/readimage.cpp:273-294 | writes exactly `filename.hdr` with the fixed descriptor text and the wavelength list; no other file changes |
| HeaderRoundTrip.WrittenHeaderReadsBack | src/readimage.cpp:278-287 | the written descriptor reads back through `name.img` as BIL, data type 4, offset 0, with the written samples, lines and bands |
| HeaderRoundTrip.BracedListReadsBack | src/readimage.cpp:229-248 | a braced list of plainly printed numbers that `strtod` reads back exactly parses back into the same list |
| HeaderRoundTrip.WrittenWavelengthsReadBack | src/readimage.cpp:288-292 | a descriptor written with one plainly printed wavelength per band gives the same wavelengths back |
| RasterCodec.ElementBytes | src/readimage.cpp:106-115 | an element width exists exactly for data types 4, 12 and 2, and it is positive |
| RasterCodec.Position | src/readimage.cpp:143-151 | a BIL or BIP position of an in-range (band, sample) lies inside one raw line |
| RasterCodec.Fread | src/readimage.cpp:132-133 | the read delivers at most `count` elements, the file's own in order; nothing exactly when none are asked for or the cursor is at or past the end; fewer only at the end of the file |
| RasterCodec.Decode | src/readimage.cpp:104-169 | data-type-unsupported is checked before the file is opened, then file-not-found; no other status besides success and reading error; on success the whole subset is filled |
| RasterCodec.ReadCube | src/readimage.cpp:104-169 | success exactly when the reader reports no error, and then a buffer of the subset's size |
| RasterCodec.CopyRow | src/readimage.cpp:140-160 | the sample loop writes band `k`'s subset samples into consecutive cells from `base`; no other cell changes |
| RasterCodec.CopyLine | src/readimage.cpp:139-161 | the band loop writes every subset band of one line buffer into the next line of output; no other cell changes |
| RasterCodec.ReadLines | src/readimage.cpp:127-168 | the line loop returns the status of the functional reader, and leaves the lines read before a failure in place |
| RasterCodec.ReadImage | src/readimage.cpp:104-169 | the subset reader's status and buffer are those of the functional reader; cells past what was read keep their contents |
| RasterCodec.ReadImageFull | src/readimage.cpp:91-101 | the reader without a subset is the subset reader on the full subset |
| RasterCodec.LinesCell | src/readimage.cpp:159 | output cell `i*nb*ns + k*ns + j` comes from the buffer of line `i`, at the raw position of band `startBand+k` and sample `startSample+j` |
| RasterCodec.ReadCubeCell | src/readimage.cpp:123-159 | each cell of a successful read is the file element at `offset/width + line*bands*samples +` its raw position, whenever the file reaches that far |
| RasterCodec.BilEncodesItself | src/readimage.cpp:144-146 | a BIL raster is laid out exactly as the output buffer |
| RasterCodec.ReadEncoded | src/readimage.cpp:104-169 | reading any valid subset of a raster that stores a cube after the header offset, whatever follows it, gives exactly that subset's crop of the cube; it fails, with a reading error, only for a cube with lines whose raw lines are empty |
| RasterCodec.InterleavesAgree | src/readimage.cpp:143-151 | a BIL raster and a BIP raster storing the same cube after the offset (trailing data allowed) give the same result for every subset |
| RasterCodec.SubsetOfFullRead | src/readimage.cpp:91-169 | for a raster holding at least the whole cube after the offset, when raw lines are not empty, a subset read succeeds and is the subset's crop of the full read |
| RasterCodec.CropWhole | src/readimage.cpp:91-101 | the crop of the full subset is the whole cube |
| RasterCodec.WriteImage | src/readimage.cpp:296-310 | `filename.img` holds the buffer's first `lines*bands*samples` cells, written line after line; no other file changes |
| CubeRoundTrip.Written | src/readimage.cpp:273-310 | after both writers, `name.img` holds the buffer and `name.hdr` holds the descriptor text |
| CubeRoundTrip.WrittenDescriptorReadsBack | src/readimage.cpp:273-294 | the written descriptor reads back with the written geometry, BIL, float32, offset 0 |
| CubeRoundTrip.WrittenCubeReadsBack | src/readimage.cpp:296-310 | any valid subset of a written cube reads back as the subset's crop of the written buffer (the one exception is empty raw lines) |
| CubeRoundTrip.WrittenCubeReadsBackWhole | src/readimage.cpp:91-101 | the whole written cube reads back unchanged |
| CubeRoundTrip.WrittenListReadsBack | src/readimage.cpp:288-292 | plainly printed wavelengths read back through the whole disk |
| Config.GetParam | src/hyperspec.cpp:680-705 | the empty string exactly when no position matches `property\s*=\s*([0-9\|.\|a-z\|"\|]+)`; otherwise characters of that class only |
| Config.GetParamLeftmost | src/hyperspec.cpp:690-698 | the leftmost matching position decides the value |
| Config.KeyLineParam | src/hyperspec.cpp:685-698 | a `key = v` line whose key does not occur earlier sets the key to `v` |
| Config.SuffixKeyMatches | src/hyperspec.cpp:686-688 | the key has no left boundary: a line setting a longer key such as `tscale` also sets its suffix `scale` |
| Config.MissingKeyDefaults | src/hyperspec.cpp:499-634 | a key the file does not set, or any key when there is no file, takes its default for integer, real and name fields alike |
| Config.SettingReadsBack | src/hyperspec.cpp:499-506 | a file line `key = n`, before any other match of the key, gives the integer field the value `n` |
| Config.TwoLinesRead | src/hyperspec.cpp:680-705 | in a file of two `key = number` lines each key reads its own number, when the second key cannot start inside the first line |
| Config.MetricReadsTranslation | src/hyperspec.cpp:620-627 | as written, a file with `translation = t` and `metric = m` gives `metric` the value `t`; the intended setting gives `m` |
| Config.ReadInt | src/hyperspec.cpp:499-506 | an integer field is its default when there is no file or no position matches `key = value`, and otherwise the integer part of `strtod` of the leftmost match's text |
| Config.ReadReal | src/hyperspec.cpp:600-609 | a floating-point field is its default when there is no file or no position matches the key, and otherwise `strtod` of the leftmost match's text |
| Config.ReadName | src/hyperspec.cpp:506-513 | a name field is its default when there is no file or no position matches the key, and otherwise the leftmost match's text itself |
| Config.Settings | src/hyperspec.cpp:499-634 | without a file every field has its default |
| Config.ParamsRead | src/hyperspec.cpp:453-677 | always reports success; every one of the eighteen fields is set from its key, or to its default; without a file the record is the defaults |
| BandStore.ExtractBand | src/hyperspec.cpp:419-427 | pixel (k, j) of the band image is cell `j*samples*bands + band*samples + k` of the cube |
| BandStore.ReadITK | src/hyperspec.cpp:414-429 | the nested loops fill the image with exactly that band of the cube |
| BandStore.InsertBandCells | src/hyperspec.cpp:437-445 | after a band is written, its cells hold the image's pixels and every other cell is unchanged |
| BandStore.WriteITK | src/hyperspec.cpp:432-447 | the nested loops leave the cube with the image written into the band |
| BandStore.ExtractInsertSame | src/hyperspec.cpp:432-447 | reading back a band just written gives the written image |
| BandStore.ExtractInsertOther | src/hyperspec.cpp:432-447 | writing one band leaves every other band as it was |
| BandStore.InsertBandBands | src/hyperspec.cpp:432-447 | the bands of a cube after a write: the written image for that band, the old band elsewhere |
| BandStore.InsertExtract | src/hyperspec.cpp:414-447 | writing back a band just read leaves the cube unchanged |
| BandStore.BandsDetermineCube | src/hyperspec.cpp:66-172 | two cubes with the same bands are equal |
| Pipeline.Reference | src/hyperspec.cpp:50 | the fixed band `bands / 2` is a band of the cube |
| Pipeline.CubeOfBands | src/hyperspec.cpp:66-172 | a cube built band by band has those bands |
| Pipeline.AlignedCube | src/hyperspec.cpp:66-157 | band `b` of the aligned cube is the reference band itself for `b = bands/2`, and otherwise the band resampled through the transform registered between the filtered reference and the filtered band |
| Pipeline.DiffCube | src/hyperspec.cpp:100-157 | band `b` of the difference cube is the difference filter of the band and its registered image when `diff_conf` is 1 and `b` is not the reference, and the earlier contents otherwise |
| Pipeline.AlignBands | src/hyperspec.cpp:49-172 | the band loop leaves `out` holding the aligned cube and `diff` holding the difference cube over its earlier contents |
| Pipeline.Zeros | src/hyperspec.cpp:26-32 | a zero-initialised buffer of the given size |
| Pipeline.InputCube | src/hyperspec.cpp:26-27 | the input buffer has the cube's size and, when the read succeeds, holds exactly the cube read |
| Pipeline.ProcessCube | src/hyperspec.cpp:26-185 | the disk afterwards is the disk with the aligned cube and, when asked for, the difference cube written |
| Pipeline.SaveResults | src/hyperspec.cpp:175-185 | writes `reg_name` with the aligned buffer, then `diff_name` with the difference buffer when `diff_conf` is 1, each with the input's geometry and wavelengths |
| Pipeline.HyperspecImg | src/hyperspec.cpp:13-192 | the disk afterwards holds the outputs computed from the parameters, the descriptor and the cube read from it |
| Pipeline.ReferenceBandCopied | src/hyperspec.cpp:72-75 | the reference band goes into the aligned cube unchanged, and stays zero in the difference cube |
| Pipeline.NoDiffStaysZero | src/hyperspec.cpp:155-157 | when `diff_conf` is not 1 the difference buffer stays all zeros |
| Pipeline.AlignedCubeReadsBack | src/hyperspec.cpp:175-185 | reading `reg_name.img` after the run gives the input's geometry and exactly the aligned cube, unless the difference cube was written over it under the same name |
| Pipeline.WrittenInput | src/hyperspec.cpp:26-27 | a cube stored by the writers is read in as exactly the buffer that was written |

## Left out

- File input and output are a `Disk` value. Text encodings, file modes and
  `fseek` past the end are not modelled. Text files and raster files are two
  separate maps, so one name can hold a descriptor and a raster at once; in
  the source they share one file namespace, and an input named `x.hdr` is
  read both as the descriptor and as the raster. The descriptor is read whole; the
  4000-byte `hdrText` and `confText` buffers and their overflow are left out.
- Floating point: cube values, wavelengths and real parameters are exact
  reals. float32 rounding, the widening of 16-bit elements and NaN are not
  modelled.
- `strtod` is modelled on unsigned decimals `digits[.digits]` after white
  space. Exponents, hexadecimal, `inf` and `nan` are not modelled. The value
  classes admit letters, so the model reads such text as far as its leading
  digits go.
- The 32-bit `int` fields of the header and the parameters are unbounded
  integers; overflow of `samples*lines*bands` is not modelled.
- The regular-expression engine is not modelled. Each pattern is modelled by
  the one match it can produce: the leftmost match, greedy `\s*`, maximal
  capture.
- RasterCodec.ReadImage: the header offset is in bytes. The model's file is a
  sequence of elements, so an offset that is not a multiple of the element
  width is rounded down to whole elements.
- RasterCodec.ReadImage requires a subset inside the cube, as the reader's
  documentation asks and every caller provides, and a buffer large enough
  for it. The source checks neither. An undersized buffer is written out of
  bounds. A band or sample range past the cube reads outside the line
  buffer or from neighbouring cells of it. A line range past the cube reads
  on beyond the declared lines until the file ends, and then reports a
  reading error. An inverted range reads nothing and reports success.
- TextScan.Basename requires a dot in the file name. Without one the match
  fails and the source reads unset match offsets.
- HeaderCodec.ReadHeader: property-not-found is the documented intent, not
  what the code does. For every missing key, of the six required ones and
  `wavelength` alike, `getValue` returns `NULL` from a function returning
  `std::string`, which constructs a string from a null `char*` (undefined
  behaviour, in practice an exception) before the `.empty()` tests run. Those
  tests can never succeed either, because the captured value is a non-empty
  run. The model returns property-not-found for a missing required key, and
  reads a missing `wavelength` key as an empty value, which gives the
  standard wavelengths.
- HeaderCodec.ReadHeader: on interleave-unsupported the source has already
  set every field of `*header` but `interleave`; the model returns only the
  error.
- Config.ParamsRead takes the text of `params.conf`, with `None` for a missing
  file. The source then goes on to `fread` and `fclose` a null `FILE*`; the
  model only keeps the documented intent, the defaults. The caller's record is
  returned as a value: `params_read` sets every field of `*params`, so
  nothing of the old record survives.
- Pipeline.HyperspecImg runs on the corrected parameter record `Settings`,
  whose `metric` comes from its own key (see Findings); the source passes the
  `translation` value there. No registration reads `params.metric`, so the
  outputs are the same; an `Itk.register` that read it would differ.
- Pipeline.HyperspecImg requires `regmethod` to be one of 1 to 4. Otherwise
  the source dereferences an unset resampler.
- Pipeline.HyperspecImg requires at least one band, and a descriptor that
  reads without error. The source ignores the status and goes on with the
  header as the reader left it: unset after a missing file or key, and with
  every field but `interleave` set after an unsupported interleave.
- Pipeline.HyperspecImg: the status codes of `params_read`, the header read
  and the image read are computed but never looked at, as in the source.
- The four registration methods (rigid, similarity, affine, B-spline) and
  their resamplers are one `register` and one `resample` function indexed by
  the method. The median filter, gradient filter and difference filter are
  function parameters too. ITK's image containers (`imageContainer`) and
  pipeline updates are not modelled.
- The MAT-file and TIFF adapters (`hyperspec_mat`, `main.cpp`), the older
  band loop in `src/hyperspec_read.cpp` and the multispectral variant are not
  part of this model; they are separate front ends over the same pieces.
- The per-band TIFF report written by ITK's writer, the progress messages and
  all logging to `stderr` and `cout` are left out.
- Pipeline.KeepsSize is assumed of the ITK functions: resampling and the
  difference filter keep an image's size.

## Findings

| source | as written | input that shows it | evidently intended | confidence | as-written member | corrected member |
|---|---|---|---|---|---|---|
| src/hyperspec.cpp:620-627 | when `metric` has a value, `params->metric` is set to `strtod` of the `translation` text | `params.conf` holding `translation = 1` then `metric = 0` gives `metric` the value 1 | `metric` set from its own text, as every other field is | not executed | Config.MetricReadsTranslation | Config.ParamsRead |
