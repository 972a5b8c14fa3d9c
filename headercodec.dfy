/** The `.hdr` side of the cube codec: looking properties up in a header
    text, reading the descriptor of a cube, parsing its wavelength list, and
    writing the fixed-format descriptor of an output cube. */
module HeaderCodec {
  import opened Options
  import opened Envi
  import opened TextScan

  // ---------------------------------------------------------------------
  // Property lookup.

  /** getValue: the capture of the leftmost match of
      `property\s*=\s*([{|}|0-9|,| |.|a-z]+)`, or None where no position
      matches (the source returns NULL there). */
  function GetValue(hdrText: string, property: string): (r: Option<string>)
    ensures r.None? <==> forall m :: 0 <= m <= |hdrText| ==> MatchAt(HeaderValue, hdrText, property, m).None?
    ensures r.Some? ==> |r.value| > 0 && forall i :: 0 <= i < |r.value| ==> InClass(HeaderValue, r.value[i])
  {
    var r := FirstMatch(HeaderValue, hdrText, property, 0);
    if r.None? then
      FirstMatchNone(HeaderValue, hdrText, property, 0);
      r
    else
      FirstMatchFound(HeaderValue, hdrText, property, 0);
      r
  }

  /** The six properties the header reader cannot do without are found. */
  predicate HasRequiredKeys(text: string)
  {
    && GetValue(text, "samples").Some? && GetValue(text, "bands").Some?
    && GetValue(text, "lines").Some? && GetValue(text, "header offset").Some?
    && GetValue(text, "interleave").Some? && GetValue(text, "data type").Some?
  }

  /** The descriptor that belongs to a cube file: its name up to the last
      dot, with `.hdr` appended. */
  function HdrName(filename: string): (n: string)
    requires '.' in filename
    ensures n == Basename(filename) + ".hdr"
    ensures |n| <= |filename| + 3
  {
    Basename(filename) + ".hdr"
  }

  // ---------------------------------------------------------------------
  // Wavelength list.

  /** The class `[0-9|.]` of a wavelength number. */
  predicate IsNumberChar(c: char)
  {
    IsDigit(c) || c == '|' || c == '.'
  }

  /** The class `[,| |}]` of what may follow a wavelength number. */
  predicate IsSeparatorChar(c: char)
  {
    c == ',' || c == '|' || c == ' ' || c == '}'
  }

  /** Where the leftmost match of `([0-9|.]+)[,| |}]*` in s[p..] starts:
      the first number character at or after `p`, or |s| if there is none. */
  function NumberStart(s: string, p: nat): (r: nat)
    requires p <= |s|
    ensures p <= r <= |s|
    decreases |s| - p
  {
    if p == |s| || IsNumberChar(s[p]) then p else NumberStart(s, p + 1)
  }

  lemma {:induction false} NumberStartLeftmost(s: string, p: nat)
    requires p <= |s|
    ensures forall m :: p <= m < NumberStart(s, p) ==> !IsNumberChar(s[m])
    ensures NumberStart(s, p) < |s| ==> IsNumberChar(s[NumberStart(s, p)])
    decreases |s| - p
  {
    if p < |s| && !IsNumberChar(s[p]) {
      NumberStartLeftmost(s, p + 1);
    }
  }

  /** End of the maximal run of number characters from `i`: the end of the
      capture of the longest match starting there. */
  function NumberEnd(s: string, i: nat): (e: nat)
    requires i <= |s|
    ensures i <= e <= |s|
    decreases |s| - i
  {
    if i < |s| && IsNumberChar(s[i]) then NumberEnd(s, i + 1) else i
  }

  lemma {:induction false} NumberEndMaximal(s: string, i: nat)
    requires i <= |s|
    ensures forall m :: i <= m < NumberEnd(s, i) ==> IsNumberChar(s[m])
    ensures NumberEnd(s, i) == |s| || !IsNumberChar(s[NumberEnd(s, i)])
    decreases |s| - i
  {
    if i < |s| && IsNumberChar(s[i]) {
      NumberEndMaximal(s, i + 1);
    }
  }

  /** End of the maximal run of separator characters from `i`: the end of
      the whole match. */
  function SeparatorEnd(s: string, i: nat): (e: nat)
    requires i <= |s|
    ensures i <= e <= |s|
    decreases |s| - i
  {
    if i < |s| && IsSeparatorChar(s[i]) then SeparatorEnd(s, i + 1) else i
  }

  lemma {:induction false} SeparatorEndMaximal(s: string, i: nat)
    requires i <= |s|
    ensures forall m :: i <= m < SeparatorEnd(s, i) ==> IsSeparatorChar(s[m])
    ensures SeparatorEnd(s, i) == |s| || !IsSeparatorChar(s[SeparatorEnd(s, i)])
    decreases |s| - i
  {
    if i < |s| && IsSeparatorChar(s[i]) {
      SeparatorEndMaximal(s, i + 1);
    }
  }

  /** The captures of the next `count` number matches of `s` from position
      `p`: each is the leftmost run of number characters, and scanning
      resumes after the separators that follow it.  None as soon as no
      match is left. */
  function ScanNumbers(s: string, p: nat, count: nat): (r: Option<seq<string>>)
    requires p <= |s|
    ensures r.Some? ==> |r.value| == count
    decreases count
  {
    if count == 0 then Some([])
    else
      var st := NumberStart(s, p);
      if st == |s| then None
      else
        var e := NumberEnd(s, st);
        match ScanNumbers(s, SeparatorEnd(s, e), count - 1)
        case None => None
        case Some(cs) => Some([s[st..e]] + cs)
  }

  /** `strtod` of each capture, in order. */
  function Convert(cs: seq<string>): (r: seq<real>)
    ensures |r| == |cs|
  {
    if cs == [] then [] else Convert(cs[..|cs| - 1]) + [Strtod(cs[|cs| - 1])]
  }

  lemma {:induction false} ConvertAt(cs: seq<string>, k: nat)
    requires k < |cs|
    ensures Convert(cs)[k] == Strtod(cs[k])
  {
    if k < |cs| - 1 {
      ConvertAt(cs[..|cs| - 1], k);
    }
  }

  /** The standard values 0, 1, ..., n-1. */
  function Iota(n: nat): (r: seq<real>)
    ensures |r| == n
    ensures forall i :: 0 <= i < n ==> r[i] == i as real
  {
    seq(n, i => i as real)
  }

  /** `find_first_of('{') + 1`: just after the first brace, or 0 when there
      is none (the not-found position plus one wraps to 0). */
  function BraceStart(s: string): (r: nat)
    ensures r <= |s|
    ensures r > 0 ==> s[r - 1] == '{' && forall i :: 0 <= i < r - 1 ==> s[i] != '{'
    ensures r == 0 ==> forall i :: 0 <= i < |s| ==> s[i] != '{'
  {
    if s == [] then 0
    else if s[0] == '{' then 1
    else
      var r := BraceStart(s[1..]);
      if r == 0 then 0 else r + 1
  }

  /** Prefixes `a` to a scan result. */
  function Prepend<T>(a: seq<T>, r: Option<seq<T>>): Option<seq<T>>
  {
    match r
    case None => None
    case Some(ws) => Some(a + ws)
  }

  /** The captures taken so far, `acc`, followed by what the scan from `p`
      still yields, make up the scan of the whole text. */
  ghost predicate Tracks(s: string, p: nat, count: nat, acc: seq<string>, whole: Option<seq<string>>)
  {
    p <= |s| && whole == Prepend(acc, ScanNumbers(s, p, count))
  }

  /** One step of the scan: the first number, then the rest. */
  lemma ScanStep(s: string, p: nat, count: nat)
    requires p <= |s| && count > 0 && NumberStart(s, p) < |s|
    ensures ScanNumbers(s, p, count) ==
      Prepend([s[NumberStart(s, p)..NumberEnd(s, NumberStart(s, p))]],
              ScanNumbers(s, SeparatorEnd(s, NumberEnd(s, NumberStart(s, p))), count - 1))
  {
  }

  /** The loop's invariant after one more number is taken: the capture `m`
      between `st` and `e` joins the list, and the scan goes on at `next`. */
  lemma ScanAdvance(s: string, p: nat, count: nat, count': nat, acc: seq<string>, whole: Option<seq<string>>,
                    st: nat, e: nat, m: string, next: nat)
    requires p <= |s|
    requires count > 0
    requires st == NumberStart(s, p) && st < |s|
    requires e == NumberEnd(s, st) && next == SeparatorEnd(s, e)
    requires |m| == e - st && forall k :: 0 <= k < |m| ==> m[k] == s[st + k]
    requires Tracks(s, p, count, acc, whole)
    requires count' + 1 == count
    ensures Tracks(s, next, count', acc + [m], whole)
  {
    assert m == s[st..e];
    ScanStep(s, p, count);
    var rest := ScanNumbers(s, next, count - 1);
    if rest.Some? {
      assert acc + ([m] + rest.value) == (acc + [m]) + rest.value;
    }
  }

  /** getWavelengths: the first `bands` numbers after the first brace, or
      the standard values when the text is empty or runs out of numbers. */
  function Wavelengths(bands: nat, s: string): (r: seq<real>)
    ensures |r| == bands
    ensures s == [] ==> r == Iota(bands)
    ensures s != [] && ScanNumbers(s, BraceStart(s), bands).None? ==> r == Iota(bands)
    ensures s != [] && ScanNumbers(s, BraceStart(s), bands).Some? ==>
      r == Convert(ScanNumbers(s, BraceStart(s), bands).value)
  {
    if s == [] then Iota(bands)
    else
      match ScanNumbers(s, BraceStart(s), bands)
      case None => Iota(bands)
      case Some(cs) => Convert(cs)
  }

  /** Convert, one capture longer. */
  lemma ConvertSnoc(cs: seq<string>, m: string, r: seq<real>, r': seq<real>)
    requires r == Convert(cs) && r' == r + [Strtod(m)]
    ensures r' == Convert(cs + [m])
  {
    assert (cs + [m])[..|cs|] == cs;
  }

  /** The scan stops short when no number is left before the end. */
  lemma ScanStops(s: string, p: nat, count: nat, acc: seq<string>, whole: Option<seq<string>>)
    requires p <= |s| && count > 0 && NumberStart(s, p) == |s|
    requires Tracks(s, p, count, acc, whole)
    ensures whole.None?
  {
  }

  /** The scan has taken all the numbers it was asked for. */
  lemma ScanComplete(s: string, p: nat, acc: seq<string>, whole: Option<seq<string>>)
    requires Tracks(s, p, 0, acc, whole)
    ensures whole == Some(acc)
  {
    assert acc + [] == acc;
  }

  /** The standard values, one by one. */
  method StandardWavelengths(bands: nat) returns (r: seq<real>)
    ensures r == Iota(bands)
  {
    r := [];
    var i := 0;
    while i < bands
      invariant 0 <= i <= bands
      invariant r == Iota(i)
    {
      r := r + [i as real];
      i := i + 1;
    }
  }

  /** The scanning loop of getWavelengths: take `bands` numbers with an
      advancing cursor, starting just after the first brace; `complete` is
      false when the text runs out of numbers first. */
  method ScanWavelengths(bands: nat, wavelengthStr: string) returns (retWlens: seq<real>, complete: bool)
    ensures complete <==> ScanNumbers(wavelengthStr, BraceStart(wavelengthStr), bands).Some?
    ensures complete ==> retWlens == Convert(ScanNumbers(wavelengthStr, BraceStart(wavelengthStr), bands).value)
  {
    retWlens := [];
    complete := true;
    ghost var whole := ScanNumbers(wavelengthStr, BraceStart(wavelengthStr), bands);
    ghost var caps: seq<string> := [];
    ghost var left := bands;
    var currStart: nat := BraceStart(wavelengthStr);
    var i := 0;
    assert whole.Some? ==> [] + whole.value == whole.value;
    while i < bands
      invariant 0 <= i <= bands && currStart <= |wavelengthStr|
      invariant left == bands - i
      invariant Tracks(wavelengthStr, currStart, left, caps, whole)
      invariant retWlens == Convert(caps)
      invariant complete
    {
      var st := NumberStart(wavelengthStr, currStart);
      if st == |wavelengthStr| {
        ScanStops(wavelengthStr, currStart, left, caps, whole);
        complete := false;
        break;
      }
      var e := NumberEnd(wavelengthStr, st);
      var match_ := GetMatch(wavelengthStr, st, e);
      var next := SeparatorEnd(wavelengthStr, e);
      ghost var left' := left - 1;
      ScanAdvance(wavelengthStr, currStart, left, left', caps, whole, st, e, match_, next);
      left := left';
      ghost var prev := retWlens;
      retWlens := retWlens + [Strtod(match_)];
      ConvertSnoc(caps, match_, prev, retWlens);
      caps := caps + [match_];
      currStart := next;
      i := i + 1;
    }
    if complete {
      ScanComplete(wavelengthStr, currStart, caps, whole);
    }
  }

  /** getWavelengths: the scanning loop, and on the first failure (or on an
      empty text) the list cleared and filled with the standard values. */
  method GetWavelengths(bands: nat, wavelengthStr: string) returns (retWlens: seq<real>)
    ensures retWlens == Wavelengths(bands, wavelengthStr)
  {
    retWlens := [];
    var useStandardValues := false;
    if wavelengthStr != [] {
      var complete;
      retWlens, complete := ScanWavelengths(bands, wavelengthStr);
      useStandardValues := !complete;
    } else {
      useStandardValues := true;
    }
    if useStandardValues {
      retWlens := StandardWavelengths(bands);
    }
  }

  // ---------------------------------------------------------------------
  // Reading a header.

  /** hyperspectral_read_header: the descriptor of the cube stored as
      `filename`, read from the `.hdr` file beside it.  The file must exist,
      the six required properties must be found, and the interleave must be
      exactly `bil` or `bip`. */
  function ReadHeader(disk: Disk, filename: string): (r: Result<Header>)
    requires '.' in filename
    ensures r == Err(FileNotFound) <==> HdrName(filename) !in disk.texts
    ensures r == Err(HdrPropertyNotFound) <==>
      HdrName(filename) in disk.texts && !HasRequiredKeys(disk.texts[HdrName(filename)])
    ensures r == Err(InterleaveUnsupported) <==>
      HdrName(filename) in disk.texts && HasRequiredKeys(disk.texts[HdrName(filename)]) &&
      GetValue(disk.texts[HdrName(filename)], "interleave").value != "bil" &&
      GetValue(disk.texts[HdrName(filename)], "interleave").value != "bip"
    ensures r.Err? ==> r.error == FileNotFound || r.error == HdrPropertyNotFound || r.error == InterleaveUnsupported
    ensures r.Ok? ==>
      var text := disk.texts[HdrName(filename)];
      && HdrName(filename) in disk.texts && HasRequiredKeys(text)
      && (r.value.interleave == Bil <==> GetValue(text, "interleave") == Some("bil"))
      && (r.value.interleave == Bip <==> GetValue(text, "interleave") == Some("bip"))
      && r.value.samples == StrtoInt(GetValue(text, "samples").value)
      && r.value.lines == StrtoInt(GetValue(text, "lines").value)
      && r.value.bands == StrtoInt(GetValue(text, "bands").value)
      && r.value.offset == StrtoInt(GetValue(text, "header offset").value)
      && r.value.dataType == StrtoInt(GetValue(text, "data type").value)
      && |r.value.wlens| == r.value.bands
      && r.value.wlens == Wavelengths(r.value.bands,
           if GetValue(text, "wavelength").Some? then GetValue(text, "wavelength").value else "")
  {
    var hdrName := HdrName(filename);
    if hdrName !in disk.texts then Err(FileNotFound)
    else
      var text := disk.texts[hdrName];
      var samples := GetValue(text, "samples");
      var bands := GetValue(text, "bands");
      var lines := GetValue(text, "lines");
      var wavelengths := GetValue(text, "wavelength");
      var hdrOffset := GetValue(text, "header offset");
      var interleave := GetValue(text, "interleave");
      var dataType := GetValue(text, "data type");
      if samples.None? || bands.None? || lines.None? || hdrOffset.None? || interleave.None? || dataType.None? then
        Err(HdrPropertyNotFound)
      else
        var nb := StrtoInt(bands.value);
        var wl := Wavelengths(nb, if wavelengths.Some? then wavelengths.value else "");
        var h := Header(Bil, StrtoInt(samples.value), nb, StrtoInt(lines.value), StrtoInt(hdrOffset.value), wl, StrtoInt(dataType.value));
        if interleave.value == "bil" then Ok(h)
        else if interleave.value == "bip" then Ok(h.(interleave := Bip))
        else Err(InterleaveUnsupported)
  }

  // ---------------------------------------------------------------------
  // Writing a header.

  /** What `hdrOut << w << " "` emits for each wavelength in turn, where
      `fmt` is the stream's rendering of a float. */
  function WavelengthList(wlens: seq<real>, fmt: real -> string): string
  {
    if wlens == [] then "" else fmt(wlens[0]) + " " + WavelengthList(wlens[1..], fmt)
  }

  lemma {:induction false} WavelengthListSnoc(wlens: seq<real>, w: real, fmt: real -> string)
    ensures WavelengthList(wlens + [w], fmt) == WavelengthList(wlens, fmt) + fmt(w) + " "
  {
    if wlens != [] {
      assert (wlens + [w])[1..] == wlens[1..] + [w];
      WavelengthListSnoc(wlens[1..], w, fmt);
    } else {
      assert WavelengthList([w], fmt) == fmt(w) + " " + WavelengthList([], fmt);
    }
  }

  /** The descriptor text up to the wavelength list, line by line as the
      writer streams it. */
  function HeaderPrefix(bands: nat, samples: nat, lines: nat): string
  {
    "ENVI\n" + Line("samples", DecimalString(samples)) + Line("lines", DecimalString(lines)) +
    Line("bands", DecimalString(bands)) + Line("header offset", "0") + Line("file type", "ENVI Standard") +
    Line("data type", "4") + Line("interleave", "bil") + Line("default bands", "{55,41,12}") +
    Line("byte order", "0") + "wavelength = {"
  }

  /** The whole descriptor hyperspectral_write_header emits. */
  function HeaderText(bands: nat, samples: nat, lines: nat, wlens: seq<real>, fmt: real -> string): string
  {
    HeaderPrefix(bands, samples, lines) + WavelengthList(wlens, fmt) + "}\n"
  }

  /** The list grows by one printed number and its space. */
  lemma StreamStep(prefix: string, wlens: seq<real>, i: nat, fmt: real -> string, before: string, after: string)
    requires i < |wlens|
    requires before == prefix + WavelengthList(wlens[..i], fmt)
    requires after == before + fmt(wlens[i]) + " "
    ensures after == prefix + WavelengthList(wlens[..i + 1], fmt)
  {
    assert wlens[..i + 1] == wlens[..i] + [wlens[i]];
    WavelengthListSnoc(wlens[..i], wlens[i], fmt);
  }

  /** The writer's loop over the wavelengths: each printed, then a space. */
  method StreamWavelengths(prefix: string, wlens: seq<real>, fmt: real -> string) returns (out: string)
    ensures out == prefix + WavelengthList(wlens, fmt)
  {
    out := prefix;
    var i := 0;
    assert wlens[..0] == [];
    while i < |wlens|
      invariant 0 <= i <= |wlens|
      invariant out == prefix + WavelengthList(wlens[..i], fmt)
    {
      ghost var before := out;
      out := out + fmt(wlens[i]) + " ";
      StreamStep(prefix, wlens, i, fmt, before, out);
      i := i + 1;
    }
    assert wlens[..i] == wlens;
  }

  /** hyperspectral_write_header: writes `filename.hdr`; no other file changes. */
  method WriteHeader(disk: Disk, filename: string, numBands: nat, numPixels: nat, numLines: nat,
                     wlens: seq<real>, fmt: real -> string) returns (d: Disk)
    ensures d.rasters == disk.rasters
    ensures d.texts == disk.texts[filename + ".hdr" := HeaderText(numBands, numPixels, numLines, wlens, fmt)]
  {
    var hdrOut := "ENVI\n";
    hdrOut := hdrOut + Line("samples", DecimalString(numPixels));
    hdrOut := hdrOut + Line("lines", DecimalString(numLines));
    hdrOut := hdrOut + Line("bands", DecimalString(numBands));
    hdrOut := hdrOut + Line("header offset", "0");
    hdrOut := hdrOut + Line("file type", "ENVI Standard");
    hdrOut := hdrOut + Line("data type", "4");
    hdrOut := hdrOut + Line("interleave", "bil");
    hdrOut := hdrOut + Line("default bands", "{55,41,12}");
    hdrOut := hdrOut + Line("byte order", "0");
    hdrOut := hdrOut + "wavelength = {";
    assert hdrOut == HeaderPrefix(numBands, numPixels, numLines);
    hdrOut := StreamWavelengths(hdrOut, wlens, fmt);
    hdrOut := hdrOut + "}\n";
    d := disk.(texts := disk.texts[filename + ".hdr" := hdrOut]);
  }
}

/** Reading back the descriptor the writer emits: every property the reader
    needs is found on the line the writer put it on, because no earlier text
    contains the key. */
module HeaderRoundTrip {
  import opened Options
  import opened Envi
  import opened TextScan
  import opened HeaderCodec

  /** A property line whose key does not occur in the text before it is the
      one getValue finds. */
  lemma LineFound(t: string, pre: string, key: string, v: string, rest: string)
    requires |key| >= 3 && Clear(pre, key)
    requires |v| > 0 && !IsSpace(v[0]) && forall i :: 0 <= i < |v| ==> InClass(HeaderValue, v[i])
    requires t == pre + Line(key, v) + rest
    ensures GetValue(t, key) == Some(v)
  {
    assert t == pre + (key + " = " + v + ("\n" + rest));
    KeyLineFound(HeaderValue, pre, key, v, "\n" + rest);
  }

  lemma ClearLine(k: string, v: string, key: string)
    requires |key| >= 3 && key[0] != '\n'
    requires Clear(k + " = ", key) && Clear(v, key)
    ensures Clear(Line(k, v), key)
  {
    ClearConcat(k + " = ", v, key);
    assert Clear("\n", key);
    ClearConcat(k + " = " + v, "\n", key);
  }

  /** The text after the three count lines. */
  function Rest(wlens: seq<real>, fmt: real -> string): string
  {
    Line("header offset", "0") + Line("file type", "ENVI Standard") +
    Line("data type", "4") + Line("interleave", "bil") + Line("default bands", "{55,41,12}") +
    Line("byte order", "0") + "wavelength = {" + WavelengthList(wlens, fmt) + "}\n"
  }

  lemma Assoc(a: string, b: string, c: string)
    ensures a + (b + c) == a + b + c
  {
  }

  /** Regroupings of a descriptor cut after its prefix `p`. */
  lemma RestSplit(p: string, x1: string, x2: string, x3: string, x4: string, x5: string,
                  x6: string, x7: string, x8: string, x9: string)
    ensures p + (x1 + x2 + x3 + x4 + x5 + x6 + x7 + x8 + x9) ==
            p + x1 + x2 + x3 + x4 + x5 + x6 + x7 + x8 + x9
    ensures p + (x1 + x2 + x3 + x4 + x5 + x6 + x7 + x8 + x9) ==
            p + x1 + (x2 + x3 + x4 + x5 + x6 + x7 + x8 + x9)
    ensures p + (x1 + x2 + x3 + x4 + x5 + x6 + x7 + x8 + x9) ==
            p + x1 + x2 + x3 + (x4 + x5 + x6 + x7 + x8 + x9)
    ensures p + (x1 + x2 + x3 + x4 + x5 + x6 + x7 + x8 + x9) ==
            p + x1 + x2 + x3 + x4 + (x5 + x6 + x7 + x8 + x9)
    ensures p + (x1 + x2 + x3 + x4 + x5 + x6 + x7 + x8 + x9) ==
            p + x1 + x2 + x3 + x4 + x5 + x6 + (x7 + x8 + x9)
  {
    Assoc(p, x1 + x2 + x3 + x4 + x5 + x6 + x7 + x8, x9);
    Assoc(p, x1 + x2 + x3 + x4 + x5 + x6 + x7, x8);
    Assoc(p, x1 + x2 + x3 + x4 + x5 + x6, x7);
    Assoc(p, x1 + x2 + x3 + x4 + x5, x6);
    Assoc(p, x1 + x2 + x3 + x4, x5);
    Assoc(p, x1 + x2 + x3, x4);
    Assoc(p, x1 + x2, x3);
    Assoc(p, x1, x2);
    Assoc(p + x1, x2 + x3 + x4 + x5 + x6 + x7 + x8, x9);
    Assoc(p + x1, x2 + x3 + x4 + x5 + x6 + x7, x8);
    Assoc(p + x1, x2 + x3 + x4 + x5 + x6, x7);
    Assoc(p + x1, x2 + x3 + x4 + x5, x6);
    Assoc(p + x1, x2 + x3 + x4, x5);
    Assoc(p + x1, x2 + x3, x4);
    Assoc(p + x1, x2, x3);
    Assoc(p + x1 + x2 + x3, x4 + x5 + x6 + x7 + x8, x9);
    Assoc(p + x1 + x2 + x3, x4 + x5 + x6 + x7, x8);
    Assoc(p + x1 + x2 + x3, x4 + x5 + x6, x7);
    Assoc(p + x1 + x2 + x3, x4 + x5, x6);
    Assoc(p + x1 + x2 + x3, x4, x5);
    Assoc(p + x1 + x2 + x3 + x4, x5 + x6 + x7 + x8, x9);
    Assoc(p + x1 + x2 + x3 + x4, x5 + x6 + x7, x8);
    Assoc(p + x1 + x2 + x3 + x4, x5 + x6, x7);
    Assoc(p + x1 + x2 + x3 + x4, x5, x6);
    Assoc(p + x1 + x2 + x3 + x4 + x5 + x6, x7 + x8, x9);
    Assoc(p + x1 + x2 + x3 + x4 + x5 + x6, x7, x8);
  }

  lemma TextSplit(bands: nat, samples: nat, lines: nat, wlens: seq<real>, fmt: real -> string)
    ensures HeaderText(bands, samples, lines, wlens, fmt) ==
      "ENVI\n" + Line("samples", DecimalString(samples)) + Line("lines", DecimalString(lines)) +
      Line("bands", DecimalString(bands)) + Rest(wlens, fmt)
  {
    RestSplit("ENVI\n" + Line("samples", DecimalString(samples)) + Line("lines", DecimalString(lines)) +
      Line("bands", DecimalString(bands)), Line("header offset", "0"), Line("file type", "ENVI Standard"),
      Line("data type", "4"), Line("interleave", "bil"), Line("default bands", "{55,41,12}"),
      Line("byte order", "0"), "wavelength = {", WavelengthList(wlens, fmt), "}\n");
  }

  lemma Regroup(a: string, b: string, c: string, d: string, e: string)
    ensures a + b + c + d + e == a + b + (c + d + e)
    ensures a + b + c + d + e == a + b + c + (d + e)
  {
  }

  /** A printed count is a value getValue can capture whole. */
  lemma DecimalIsValue(n: nat)
    ensures |DecimalString(n)| > 0 && !IsSpace(DecimalString(n)[0])
    ensures forall i :: 0 <= i < |DecimalString(n)| ==> InClass(HeaderValue, DecimalString(n)[i])
  {
  }

  lemma SignatureClear()
    ensures Clear("ENVI\n", "samples")
  {
    forall p | 0 <= p < 5 ensures WindowDiffers("ENVI\n", "samples", p) {}
  }

  lemma SamplesFound(bands: nat, samples: nat, lines: nat, wlens: seq<real>, fmt: real -> string)
    ensures GetValue(HeaderText(bands, samples, lines, wlens, fmt), "samples") == Some(DecimalString(samples))
  {
    var ds, dl, db := DecimalString(samples), DecimalString(lines), DecimalString(bands);
    var t := HeaderText(bands, samples, lines, wlens, fmt);
    var r := Rest(wlens, fmt);
    TextSplit(bands, samples, lines, wlens, fmt);
    Regroup("ENVI\n", Line("samples", ds), Line("lines", dl), Line("bands", db), r);
    SignatureClear();
    DecimalIsValue(samples);
    LineFound(t, "ENVI\n", "samples", ds, Line("lines", dl) + Line("bands", db) + r);
  }
  lemma LinesFound(bands: nat, samples: nat, lines: nat, wlens: seq<real>, fmt: real -> string)
    ensures GetValue(HeaderText(bands, samples, lines, wlens, fmt), "lines") == Some(DecimalString(lines))
  {
    var ds, dl, db := DecimalString(samples), DecimalString(lines), DecimalString(bands);
    var t := HeaderText(bands, samples, lines, wlens, fmt);
    var r := Rest(wlens, fmt);
    TextSplit(bands, samples, lines, wlens, fmt);
    Regroup("ENVI\n", Line("samples", ds), Line("lines", dl), Line("bands", db), r);
    forall p | 0 <= p < 5 ensures WindowDiffers("ENVI\n", "lines", p) {}
    assert "samples" + " = " == "samples = ";
    forall p | 0 <= p < 10 ensures WindowDiffers("samples = ", "lines", p) {}
    ClearDigits(ds, "lines");
    ClearLine("samples", ds, "lines");
    ClearConcat("ENVI\n", Line("samples", ds), "lines");
    DecimalIsValue(lines);
    LineFound(t, "ENVI\n" + Line("samples", ds), "lines", dl, Line("bands", db) + r);
  }

  lemma BandsPrefixClear(samples: nat, lines: nat)
    ensures Clear("ENVI\n" + Line("samples", DecimalString(samples)) + Line("lines", DecimalString(lines)), "bands")
  {
    var ds, dl := DecimalString(samples), DecimalString(lines);
    forall p | 0 <= p < 5 ensures WindowDiffers("ENVI\n", "bands", p) {}
    assert "samples" + " = " == "samples = ";
    forall p | 0 <= p < 10 ensures WindowDiffers("samples = ", "bands", p) {}
    assert "lines" + " = " == "lines = ";
    forall p | 0 <= p < 8 ensures WindowDiffers("lines = ", "bands", p) {}
    ClearDigits(ds, "bands");
    ClearDigits(dl, "bands");
    ClearLine("samples", ds, "bands");
    ClearLine("lines", dl, "bands");
    ClearConcat("ENVI\n", Line("samples", ds), "bands");
    ClearConcat("ENVI\n" + Line("samples", ds), Line("lines", dl), "bands");
  }

  lemma BandsFound(bands: nat, samples: nat, lines: nat, wlens: seq<real>, fmt: real -> string)
    ensures GetValue(HeaderText(bands, samples, lines, wlens, fmt), "bands") == Some(DecimalString(bands))
  {
    var ds, dl, db := DecimalString(samples), DecimalString(lines), DecimalString(bands);
    var t := HeaderText(bands, samples, lines, wlens, fmt);
    TextSplit(bands, samples, lines, wlens, fmt);
    BandsPrefixClear(samples, lines);
    DecimalIsValue(bands);
    LineFound(t, "ENVI\n" + Line("samples", ds) + Line("lines", dl), "bands", db, Rest(wlens, fmt));
  }
  /** The signature and count lines do not contain `key` when their fixed
      parts do not. */
  lemma CountsClear(key: string, samples: nat, lines: nat, bands: nat)
    requires |key| >= 3 && key[0] != '\n' && !IsDigit(key[0])
    requires Clear("ENVI\n", key) && Clear("samples = ", key)
    requires Clear("lines = ", key) && Clear("bands = ", key)
    ensures Clear("ENVI\n" + Line("samples", DecimalString(samples)) + Line("lines", DecimalString(lines)) +
                  Line("bands", DecimalString(bands)), key)
  {
    var ds, dl, db := DecimalString(samples), DecimalString(lines), DecimalString(bands);
    assert "samples" + " = " == "samples = ";
    assert "lines" + " = " == "lines = ";
    assert "bands" + " = " == "bands = ";
    ClearDigits(ds, key);
    ClearDigits(dl, key);
    ClearDigits(db, key);
    ClearLine("samples", ds, key);
    ClearLine("lines", dl, key);
    ClearLine("bands", db, key);
    ClearConcat("ENVI\n", Line("samples", ds), key);
    ClearConcat("ENVI\n" + Line("samples", ds), Line("lines", dl), key);
    ClearConcat("ENVI\n" + Line("samples", ds) + Line("lines", dl), Line("bands", db), key);
  }

  /** The signature and count lines of a written descriptor. */
  function Counts(bands: nat, samples: nat, lines: nat): string
  {
    "ENVI\n" + Line("samples", DecimalString(samples)) + Line("lines", DecimalString(lines)) +
    Line("bands", DecimalString(bands))
  }

  lemma OffsetPrefixClear(bands: nat, samples: nat, lines: nat)
    ensures Clear(Counts(bands, samples, lines), "header offset")
  {
    forall p | 0 <= p < 5 ensures WindowDiffers("ENVI\n", "header offset", p) {}
    forall p | 0 <= p < 10 ensures WindowDiffers("samples = ", "header offset", p) {}
    forall p | 0 <= p < 8 ensures WindowDiffers("lines = ", "header offset", p) {}
    forall p | 0 <= p < 8 ensures WindowDiffers("bands = ", "header offset", p) {}
    CountsClear("header offset", samples, lines, bands);
  }

  lemma OffsetFound(bands: nat, samples: nat, lines: nat, wlens: seq<real>, fmt: real -> string)
    ensures GetValue(HeaderText(bands, samples, lines, wlens, fmt), "header offset") == Some("0")
  {
    var t := HeaderText(bands, samples, lines, wlens, fmt);
    var c := Counts(bands, samples, lines);
    TextSplit(bands, samples, lines, wlens, fmt);
    RestSplit(c, Line("header offset", "0"), Line("file type", "ENVI Standard"),
      Line("data type", "4"), Line("interleave", "bil"), Line("default bands", "{55,41,12}"),
      Line("byte order", "0"), "wavelength = {", WavelengthList(wlens, fmt), "}\n");
    OffsetPrefixClear(bands, samples, lines);
    LineFound(t, c, "header offset", "0", Line("file type", "ENVI Standard") +
      Line("data type", "4") + Line("interleave", "bil") + Line("default bands", "{55,41,12}") +
      Line("byte order", "0") + "wavelength = {" + WavelengthList(wlens, fmt) + "}\n");
  }
  /** The fixed lines between the counts and the data type. */
  lemma FixedLinesClear(key: string)
    requires key == "data type" || key == "interleave"
    ensures Clear(Line("header offset", "0"), key) && Clear(Line("file type", "ENVI Standard"), key)
  {
    OffsetLineClear(key);
    FileTypeLineClear(key);
  }

  lemma OffsetLineClear(key: string)
    requires key == "data type" || key == "interleave"
    ensures Clear(Line("header offset", "0"), key)
  {
    assert Line("header offset", "0") == "header offset = 0\n";
    if key == "data type" {
      forall p | 0 <= p < 18 ensures WindowDiffers("header offset = 0\n", "data type", p) {}
    } else {
      forall p | 0 <= p < 18 ensures WindowDiffers("header offset = 0\n", "interleave", p) {}
    }
  }

  lemma FileTypeLineClear(key: string)
    requires key == "data type" || key == "interleave"
    ensures Clear(Line("file type", "ENVI Standard"), key)
  {
    assert Line("file type", "ENVI Standard") == "file type = ENVI Standard\n";
    if key == "data type" {
      forall p | 0 <= p < 26 ensures WindowDiffers("file type = ENVI Standard\n", "data type", p) {}
    } else {
      forall p | 0 <= p < 26 ensures WindowDiffers("file type = ENVI Standard\n", "interleave", p) {}
    }
  }

  lemma DataTypePrefixClear(bands: nat, samples: nat, lines: nat)
    ensures Clear(Counts(bands, samples, lines) + Line("header offset", "0") + Line("file type", "ENVI Standard"), "data type")
  {
    forall p | 0 <= p < 5 ensures WindowDiffers("ENVI\n", "data type", p) {}
    forall p | 0 <= p < 10 ensures WindowDiffers("samples = ", "data type", p) {}
    forall p | 0 <= p < 8 ensures WindowDiffers("lines = ", "data type", p) {}
    forall p | 0 <= p < 8 ensures WindowDiffers("bands = ", "data type", p) {}
    CountsClear("data type", samples, lines, bands);
    FixedLinesClear("data type");
    ClearConcat(Counts(bands, samples, lines), Line("header offset", "0"), "data type");
    ClearConcat(Counts(bands, samples, lines) + Line("header offset", "0"), Line("file type", "ENVI Standard"), "data type");
  }

  lemma DataTypeFound(bands: nat, samples: nat, lines: nat, wlens: seq<real>, fmt: real -> string)
    ensures GetValue(HeaderText(bands, samples, lines, wlens, fmt), "data type") == Some("4")
  {
    var t := HeaderText(bands, samples, lines, wlens, fmt);
    var c := Counts(bands, samples, lines);
    TextSplit(bands, samples, lines, wlens, fmt);
    RestSplit(c, Line("header offset", "0"), Line("file type", "ENVI Standard"),
      Line("data type", "4"), Line("interleave", "bil"), Line("default bands", "{55,41,12}"),
      Line("byte order", "0"), "wavelength = {", WavelengthList(wlens, fmt), "}\n");
    DataTypePrefixClear(bands, samples, lines);
    LineFound(t, c + Line("header offset", "0") + Line("file type", "ENVI Standard"), "data type", "4",
      Line("interleave", "bil") + Line("default bands", "{55,41,12}") +
      Line("byte order", "0") + "wavelength = {" + WavelengthList(wlens, fmt) + "}\n");
  }

  lemma InterleavePrefixClear(bands: nat, samples: nat, lines: nat)
    ensures Clear(Counts(bands, samples, lines) + Line("header offset", "0") + Line("file type", "ENVI Standard") +
                  Line("data type", "4"), "interleave")
  {
    forall p | 0 <= p < 5 ensures WindowDiffers("ENVI\n", "interleave", p) {}
    forall p | 0 <= p < 10 ensures WindowDiffers("samples = ", "interleave", p) {}
    forall p | 0 <= p < 8 ensures WindowDiffers("lines = ", "interleave", p) {}
    forall p | 0 <= p < 8 ensures WindowDiffers("bands = ", "interleave", p) {}
    CountsClear("interleave", samples, lines, bands);
    FixedLinesClear("interleave");
    assert Line("data type", "4") == "data type = 4\n";
    forall p | 0 <= p < 14 ensures WindowDiffers("data type = 4\n", "interleave", p) {}
    var c := Counts(bands, samples, lines);
    ClearConcat(c, Line("header offset", "0"), "interleave");
    ClearConcat(c + Line("header offset", "0"), Line("file type", "ENVI Standard"), "interleave");
    ClearConcat(c + Line("header offset", "0") + Line("file type", "ENVI Standard"), Line("data type", "4"), "interleave");
  }

  lemma InterleaveFound(bands: nat, samples: nat, lines: nat, wlens: seq<real>, fmt: real -> string)
    ensures GetValue(HeaderText(bands, samples, lines, wlens, fmt), "interleave") == Some("bil")
  {
    var t := HeaderText(bands, samples, lines, wlens, fmt);
    var c := Counts(bands, samples, lines);
    TextSplit(bands, samples, lines, wlens, fmt);
    RestSplit(c, Line("header offset", "0"), Line("file type", "ENVI Standard"),
      Line("data type", "4"), Line("interleave", "bil"), Line("default bands", "{55,41,12}"),
      Line("byte order", "0"), "wavelength = {", WavelengthList(wlens, fmt), "}\n");
    InterleavePrefixClear(bands, samples, lines);
    LineFound(t, c + Line("header offset", "0") + Line("file type", "ENVI Standard") + Line("data type", "4"),
      "interleave", "bil",
      Line("default bands", "{55,41,12}") + Line("byte order", "0") + "wavelength = {" +
      WavelengthList(wlens, fmt) + "}\n");
  }
  /** A descriptor whose six required properties hold the printed counts,
      `0`, `4` and `bil` reads as a float32 band-interleaved-by-line cube of
      those counts. */
  lemma FieldsRead(disk: Disk, filename: string, t: string, bands: nat, samples: nat, lines: nat)
    requires '.' in filename && HdrName(filename) in disk.texts && disk.texts[HdrName(filename)] == t
    requires GetValue(t, "samples") == Some(DecimalString(samples))
    requires GetValue(t, "lines") == Some(DecimalString(lines))
    requires GetValue(t, "bands") == Some(DecimalString(bands))
    requires GetValue(t, "header offset") == Some("0")
    requires GetValue(t, "data type") == Some("4")
    requires GetValue(t, "interleave") == Some("bil")
    ensures var r := ReadHeader(disk, filename);
      && r.Ok? && r.value.interleave == Bil && r.value.dataType == 4 && r.value.offset == 0
      && r.value.samples == samples && r.value.lines == lines && r.value.bands == bands
      && |r.value.wlens| == bands
  {
    StrtoIntDecimal(samples);
    StrtoIntDecimal(lines);
    StrtoIntDecimal(bands);
    StrtoIntDecimal(0);
    StrtoIntDecimal(4);
    assert DecimalString(0) == "0";
    assert DecimalString(4) == "4";
  }

  /** The descriptor of the cube file `name.img` is `name.hdr`. */
  lemma ImgHdrName(name: string)
    ensures '.' in name + ".img" && HdrName(name + ".img") == name + ".hdr"
  {
    BasenameOfExtension(name, "img");
    assert name + "." + "img" == name + ".img";
  }

  /** A descriptor written under `name` reads back, through the cube file
      `name.img`, as a float32 band-interleaved-by-line cube of the written
      size, with no header offset and one wavelength per band. */
  lemma WrittenHeaderReadsBack(disk: Disk, name: string, bands: nat, samples: nat, lines: nat,
                               wlens: seq<real>, fmt: real -> string)
    ensures '.' in name + ".img"
    ensures var r := ReadHeader(disk.(texts := disk.texts[name + ".hdr" := HeaderText(bands, samples, lines, wlens, fmt)]),
                                name + ".img");
      && r.Ok? && r.value.interleave == Bil && r.value.dataType == 4 && r.value.offset == 0
      && r.value.samples == samples && r.value.lines == lines && r.value.bands == bands
      && |r.value.wlens| == bands
  {
    ImgHdrName(name);
    var t := HeaderText(bands, samples, lines, wlens, fmt);
    var d := disk.(texts := disk.texts[name + ".hdr" := t]);
    SamplesFound(bands, samples, lines, wlens, fmt);
    LinesFound(bands, samples, lines, wlens, fmt);
    BandsFound(bands, samples, lines, wlens, fmt);
    OffsetFound(bands, samples, lines, wlens, fmt);
    DataTypeFound(bands, samples, lines, wlens, fmt);
    InterleaveFound(bands, samples, lines, wlens, fmt);
    FieldsRead(d, name + ".img", t, bands, samples, lines);
  }

  // ---------------------------------------------------------------------
  // The wavelength list, when the stream prints each wavelength as a plain
  // decimal that `strtod` reads back exactly.

  /** `f` is made of digits and dots only. */
  predicate Plain(f: string)
  {
    f == [] || ((IsDigit(f[0]) || f[0] == '.') && Plain(f[1..]))
  }

  lemma {:induction false} PlainCharAt(f: string, j: nat)
    requires Plain(f) && j < |f|
    ensures IsDigit(f[j]) || f[j] == '.'
  {
    if j > 0 {
      PlainCharAt(f[1..], j - 1);
    }
  }

  /** The stream prints `w` as a nonempty run of digits and dots. */
  predicate PrintsPlain(fmt: real -> string, w: real)
  {
    |fmt(w)| > 0 && Plain(fmt(w))
  }

  /** Every wavelength of the list prints plainly. */
  predicate AllPrintPlain(fmt: real -> string, wlens: seq<real>)
  {
    wlens == [] || (PrintsPlain(fmt, wlens[0]) && AllPrintPlain(fmt, wlens[1..]))
  }

  /** `strtod` reads what the stream prints for each wavelength back as
      that wavelength. */
  predicate AllReadBack(fmt: real -> string, wlens: seq<real>)
  {
    forall k :: 0 <= k < |wlens| ==> Strtod(fmt(wlens[k])) == wlens[k]
  }

  lemma {:induction false} NumberEndAt(s: string, i: nat, n: nat)
    requires i + n <= |s|
    requires forall j :: i <= j < i + n ==> IsNumberChar(s[j])
    requires i + n == |s| || !IsNumberChar(s[i + n])
    ensures NumberEnd(s, i) == i + n
    decreases n
  {
    if n > 0 {
      NumberEndAt(s, i + 1, n - 1);
    }
  }

  lemma {:induction false} PlainChars(f: string)
    requires Plain(f)
    ensures forall j :: 0 <= j < |f| ==> IsDigit(f[j]) || f[j] == '.'
  {
    forall j | 0 <= j < |f| ensures IsDigit(f[j]) || f[j] == '.' {
      PlainCharAt(f, j);
    }
  }

  /** One number of digits and dots followed by a space is scanned as its value. */
  lemma {:induction false} ScanNumber(s: string, i: nat, f: string, count: nat)
    requires i + |f| < |s| && s[i..i + |f|] == f && s[i + |f|] == ' ' && count > 0
    requires |f| > 0 && forall j :: 0 <= j < |f| ==> IsDigit(f[j]) || f[j] == '.'
    ensures ScanNumbers(s, i, count) ==
      Prepend([f], ScanNumbers(s, SeparatorEnd(s, i + |f|), count - 1))
  {
    assert s[i] == f[0];
    assert NumberStart(s, i) == i;
    forall j | i <= j < i + |f| ensures IsNumberChar(s[j]) {
      assert s[j] == f[j - i];
    }
    NumberEndAt(s, i, |f|);
  }

  /** One printed number followed by a space is scanned as its value. */
  lemma {:induction false} ScanOne(s: string, i: nat, f: string, count: nat)
    requires i + |f| < |s| && s[i..i + |f|] == f && s[i + |f|] == ' ' && count > 0
    requires |f| > 0 && Plain(f)
    ensures ScanNumbers(s, i, count) ==
      Prepend([f], ScanNumbers(s, SeparatorEnd(s, i + |f|), count - 1))
  {
    PlainChars(f);
    ScanNumber(s, i, f, count);
  }

  /** After the space that follows a number, a next printed number stops the separator run. */
  lemma SeparatorBeforeNumber(s: string, i: nat)
    requires i + 1 < |s| && s[i] == ' ' && (IsDigit(s[i + 1]) || s[i + 1] == '.')
    ensures SeparatorEnd(s, i) == i + 1
  {
    assert SeparatorEnd(s, i + 1) == i + 1;
  }

  /** A nonempty printed list starts with the first character of a number. */
  lemma {:induction false} ListStartsWithNumber(ws: seq<real>, fmt: real -> string)
    requires ws != [] && AllPrintPlain(fmt, ws)
    ensures |WavelengthList(ws, fmt)| > 0
    ensures IsDigit(WavelengthList(ws, fmt)[0]) || WavelengthList(ws, fmt)[0] == '.'
  {
    assert ws[0] in ws;
    assert PrintsPlain(fmt, ws[0]);
    assert WavelengthList(ws, fmt)[0] == fmt(ws[0])[0];
  }

  lemma {:induction false} SeparatorBeforeList(s: string, j: nat, ws: seq<real>, fmt: real -> string)
    requires ws != [] && AllPrintPlain(fmt, ws)
    requires j + 1 + |WavelengthList(ws, fmt)| <= |s| && s[j] == ' '
    requires s[j + 1..j + 1 + |WavelengthList(ws, fmt)|] == WavelengthList(ws, fmt)
    ensures SeparatorEnd(s, j) == j + 1
  {
    var rest := WavelengthList(ws, fmt);
    ListStartsWithNumber(ws, fmt);
    assert s[j + 1] == s[j + 1..j + 1 + |rest|][0] == rest[0];
    SeparatorBeforeNumber(s, j);
  }

  /** A text holding `t` at `i` holds each slice of `t` at the matching
      offset. */
  lemma SubSlice(s: string, i: nat, t: string, k: nat, l: nat)
    requires i + |t| <= |s| && s[i..i + |t|] == t && k <= l <= |t|
    ensures s[i + k..i + l] == t[k..l]
  {
    forall n | 0 <= n < l - k
      ensures s[i + k..i + l][n] == t[k..l][n]
    {
      assert s[i + k + n] == s[i..i + |t|][k + n];
    }
  }

  /** A text holding `a + b + c` at `i` holds each part at its own offset. */
  lemma SliceParts(s: string, i: nat, a: string, b: string, c: string)
    requires i + |a + b + c| <= |s| && s[i..i + |a + b + c|] == a + b + c
    ensures s[i..i + |a|] == a
    ensures s[i + |a|..i + |a| + |b|] == b
    ensures s[i + |a| + |b|..i + |a| + |b| + |c|] == c
  {
    var t := a + b + c;
    SubSlice(s, i, t, 0, |a|);
    SubSlice(s, i, t, |a|, |a| + |b|);
    SubSlice(s, i, t, |a| + |b|, |t|);
    assert t[0..|a|] == a;
    assert t[|a|..|a| + |b|] == b;
    assert t[|a| + |b|..|t|] == c;
  }

  /** A printed list is its first number, a space, and the printed rest. */
  lemma {:induction false} ListSplit(s: string, i: nat, ws: seq<real>, fmt: real -> string)
    requires ws != []
    requires i + |WavelengthList(ws, fmt)| <= |s|
    requires s[i..i + |WavelengthList(ws, fmt)|] == WavelengthList(ws, fmt)
    ensures |WavelengthList(ws, fmt)| == |fmt(ws[0])| + 1 + |WavelengthList(ws[1..], fmt)|
    ensures s[i..i + |fmt(ws[0])|] == fmt(ws[0])
    ensures s[i + |fmt(ws[0])|] == ' '
    ensures s[i + |fmt(ws[0])| + 1..i + |fmt(ws[0])| + 1 + |WavelengthList(ws[1..], fmt)|] == WavelengthList(ws[1..], fmt)
  {
    var f := fmt(ws[0]);
    var rest := WavelengthList(ws[1..], fmt);
    assert WavelengthList(ws, fmt) == f + " " + rest;
    SliceParts(s, i, f, " ", rest);
    assert s[i + |f|] == s[i + |f|..i + |f| + 1][0];
  }

  /** Scanning resumes right after the space that follows a printed number. */
  lemma {:induction false} ResumeAfterSpace(s: string, i: nat, ws: seq<real>, fmt: real -> string)
    requires ws != [] && AllPrintPlain(fmt, ws[1..])
    requires i + |fmt(ws[0])| + 1 + |WavelengthList(ws[1..], fmt)| + 1 == |s|
    requires s[i + |fmt(ws[0])|] == ' '
    requires s[i + |fmt(ws[0])| + 1..i + |fmt(ws[0])| + 1 + |WavelengthList(ws[1..], fmt)|] == WavelengthList(ws[1..], fmt)
    ensures ScanNumbers(s, SeparatorEnd(s, i + |fmt(ws[0])|), |ws| - 1) ==
      ScanNumbers(s, i + |fmt(ws[0])| + 1, |ws| - 1)
  {
    if ws[1..] != [] {
      SeparatorBeforeList(s, i + |fmt(ws[0])|, ws[1..], fmt);
    }
  }

  /** The printed list's first number is scanned as the first wavelength,
      and scanning resumes at the next number. */
  lemma {:induction false} PrintedStep(s: string, i: nat, j: nat, ws: seq<real>, fmt: real -> string)
    requires ws != [] && AllPrintPlain(fmt, ws)
    requires i + |WavelengthList(ws, fmt)| + 1 == |s|
    requires s[i..i + |WavelengthList(ws, fmt)|] == WavelengthList(ws, fmt)
    requires j == i + |fmt(ws[0])| + 1
    ensures j + |WavelengthList(ws[1..], fmt)| + 1 == |s|
    ensures s[j..j + |WavelengthList(ws[1..], fmt)|] == WavelengthList(ws[1..], fmt)
    ensures ScanNumbers(s, i, |ws|) == Prepend([fmt(ws[0])], ScanNumbers(s, j, |ws[1..]|))
    ensures AllPrintPlain(fmt, ws[1..])
  {
    ListSplit(s, i, ws, fmt);
    ScanOne(s, i, fmt(ws[0]), |ws|);
    ResumeAfterSpace(s, i, ws, fmt);
    assert |ws[1..]| == |ws| - 1;
  }

  /** What the stream prints for each wavelength, in order. */
  function Printed(ws: seq<real>, fmt: real -> string): (r: seq<string>)
    ensures |r| == |ws|
  {
    if ws == [] then [] else [fmt(ws[0])] + Printed(ws[1..], fmt)
  }

  /** Scanning a printed list that ends the text with a closing brace gives
      back what was printed, number by number. */
  lemma {:induction false} ScanPrintedList(s: string, i: nat, ws: seq<real>, fmt: real -> string)
    requires AllPrintPlain(fmt, ws)
    requires i + |WavelengthList(ws, fmt)| + 1 == |s|
    requires s[i..i + |WavelengthList(ws, fmt)|] == WavelengthList(ws, fmt)
    ensures ScanNumbers(s, i, |ws|) == Some(Printed(ws, fmt))
    decreases |ws|
  {
    if ws != [] {
      var j := i + |fmt(ws[0])| + 1;
      PrintedStep(s, i, j, ws, fmt);
      ScanPrintedList(s, j, ws[1..], fmt);
    }
  }

  lemma {:induction false} PrintedAt(ws: seq<real>, fmt: real -> string, k: nat)
    requires k < |ws|
    ensures Printed(ws, fmt)[k] == fmt(ws[k])
  {
    if k > 0 {
      PrintedAt(ws[1..], fmt, k - 1);
    }
  }

  /** `strtod` of the printed numbers gives the wavelengths back when each
      one reads back exactly. */
  lemma ConvertPrinted(ws: seq<real>, fmt: real -> string)
    requires AllReadBack(fmt, ws)
    ensures Convert(Printed(ws, fmt)) == ws
  {
    var p := Printed(ws, fmt);
    forall k | 0 <= k < |ws| ensures Convert(p)[k] == ws[k] {
      ConvertAt(p, k);
      PrintedAt(ws, fmt, k);
    }
  }

  /** Every character of a plainly printed list is a digit, a dot or a space. */
  lemma {:induction false} ListCharAt(ws: seq<real>, fmt: real -> string, j: nat)
    requires AllPrintPlain(fmt, ws) && j < |WavelengthList(ws, fmt)|
    ensures IsDigit(WavelengthList(ws, fmt)[j]) || WavelengthList(ws, fmt)[j] == '.' ||
            WavelengthList(ws, fmt)[j] == ' '
    decreases |ws|
  {
    var f := fmt(ws[0]);
    var rest := WavelengthList(ws[1..], fmt);
    assert WavelengthList(ws, fmt) == f + " " + rest;
    if j < |f| {
      PlainCharAt(f, j);
    } else if j > |f| {
      ListCharAt(ws[1..], fmt, j - |f| - 1);
    }
  }

  /** The braced list is a value getValue can capture whole. */
  lemma BracedListIsValue(ws: seq<real>, fmt: real -> string)
    requires AllPrintPlain(fmt, ws)
    ensures var v := "{" + WavelengthList(ws, fmt) + "}";
      |v| > 0 && !IsSpace(v[0]) && forall i :: 0 <= i < |v| ==> InClass(HeaderValue, v[i])
  {
    var w := WavelengthList(ws, fmt);
    var v := "{" + w + "}";
    forall i | 0 <= i < |v| ensures InClass(HeaderValue, v[i]) {
      if 0 < i <= |w| {
        assert v[i] == w[i - 1];
        ListCharAt(ws, fmt, i - 1);
      }
    }
  }

  /** The fixed lines between the counts and the wavelength list. */
  lemma FixedLinesClearWavelength()
    ensures Clear(Line("header offset", "0"), "wavelength")
    ensures Clear(Line("file type", "ENVI Standard"), "wavelength")
  {
    assert Line("header offset", "0") == "header offset = 0\n";
    forall p | 0 <= p < 18 ensures WindowDiffers("header offset = 0\n", "wavelength", p) {}
    assert Line("file type", "ENVI Standard") == "file type = ENVI Standard\n";
    forall p | 0 <= p < 26 ensures WindowDiffers("file type = ENVI Standard\n", "wavelength", p) {}
  }

  lemma MiddleLinesClearWavelength()
    ensures Clear(Line("data type", "4"), "wavelength")
    ensures Clear(Line("interleave", "bil"), "wavelength")
  {
    assert Line("data type", "4") == "data type = 4\n";
    forall p | 0 <= p < 14 ensures WindowDiffers("data type = 4\n", "wavelength", p) {}
    assert Line("interleave", "bil") == "interleave = bil\n";
    forall p | 0 <= p < 17 ensures WindowDiffers("interleave = bil\n", "wavelength", p) {}
  }

  lemma LastFixedLinesClearWavelength()
    ensures Clear(Line("default bands", "{55,41,12}"), "wavelength")
    ensures Clear(Line("byte order", "0"), "wavelength")
  {
    assert Line("default bands", "{55,41,12}") == "default bands = {55,41,12}\n";
    forall p | 0 <= p < 27 ensures WindowDiffers("default bands = {55,41,12}\n", "wavelength", p) {}
    assert Line("byte order", "0") == "byte order = 0\n";
    forall p | 0 <= p < 15 ensures WindowDiffers("byte order = 0\n", "wavelength", p) {}
  }

  /** The descriptor before its wavelength line. */
  function BeforeList(bands: nat, samples: nat, lines: nat): string
  {
    Counts(bands, samples, lines) + Line("header offset", "0") + Line("file type", "ENVI Standard") +
    Line("data type", "4") + Line("interleave", "bil") + Line("default bands", "{55,41,12}") +
    Line("byte order", "0")
  }

  lemma WavelengthPrefixClear(bands: nat, samples: nat, lines: nat)
    ensures Clear(BeforeList(bands, samples, lines), "wavelength")
  {
    forall p | 0 <= p < 5 ensures WindowDiffers("ENVI\n", "wavelength", p) {}
    forall p | 0 <= p < 10 ensures WindowDiffers("samples = ", "wavelength", p) {}
    forall p | 0 <= p < 8 ensures WindowDiffers("lines = ", "wavelength", p) {}
    forall p | 0 <= p < 8 ensures WindowDiffers("bands = ", "wavelength", p) {}
    CountsClear("wavelength", samples, lines, bands);
    FixedLinesClearWavelength();
    MiddleLinesClearWavelength();
    LastFixedLinesClearWavelength();
    var c := Counts(bands, samples, lines);
    var l1, l2, l3 := Line("header offset", "0"), Line("file type", "ENVI Standard"), Line("data type", "4");
    var l4, l5, l6 := Line("interleave", "bil"), Line("default bands", "{55,41,12}"), Line("byte order", "0");
    ClearConcat(c, l1, "wavelength");
    ClearConcat(c + l1, l2, "wavelength");
    ClearConcat(c + l1 + l2, l3, "wavelength");
    ClearConcat(c + l1 + l2 + l3, l4, "wavelength");
    ClearConcat(c + l1 + l2 + l3 + l4, l5, "wavelength");
    ClearConcat(c + l1 + l2 + l3 + l4 + l5, l6, "wavelength");
  }

  /** The last line of a descriptor is the wavelength line with the braced list. */
  lemma LastLine(pre: string, w: string)
    ensures pre + "wavelength = {" + w + "}\n" == pre + Line("wavelength", "{" + w + "}") + ""
  {
    assert "wavelength = {" == "wavelength" + " = " + "{";
    assert "}\n" == "}" + "\n";
  }

  lemma WavelengthFound(bands: nat, samples: nat, lines: nat, wlens: seq<real>, fmt: real -> string)
    requires AllPrintPlain(fmt, wlens)
    ensures GetValue(HeaderText(bands, samples, lines, wlens, fmt), "wavelength") ==
      Some("{" + WavelengthList(wlens, fmt) + "}")
  {
    var t := HeaderText(bands, samples, lines, wlens, fmt);
    var pre := BeforeList(bands, samples, lines);
    var w := WavelengthList(wlens, fmt);
    LastLine(pre, w);
    WavelengthPrefixClear(bands, samples, lines);
    BracedListIsValue(wlens, fmt);
    LineFound(t, pre, "wavelength", "{" + w + "}", "");
  }

  /** A readable descriptor whose `bands` holds the printed count `n` gets
      its wavelengths from the value `wl` of `wavelength`. */
  lemma WavelengthsRead(disk: Disk, filename: string, t: string, n: nat, wl: string)
    requires '.' in filename && HdrName(filename) in disk.texts && disk.texts[HdrName(filename)] == t
    requires ReadHeader(disk, filename).Ok?
    requires GetValue(t, "bands") == Some(DecimalString(n))
    requires GetValue(t, "wavelength") == Some(wl)
    ensures ReadHeader(disk, filename).value.wlens == Wavelengths(n, wl)
  {
    StrtoIntDecimal(n);
  }

  /** A descriptor written with one wavelength per band, each printed as a
      plain decimal that `strtod` reads back exactly, gives the same
      wavelengths back. */
  lemma WrittenWavelengthsReadBack(disk: Disk, name: string, samples: nat, lines: nat,
                                   wlens: seq<real>, fmt: real -> string)
    requires AllPrintPlain(fmt, wlens) && AllReadBack(fmt, wlens)
    requires name + ".hdr" in disk.texts && disk.texts[name + ".hdr"] == HeaderText(|wlens|, samples, lines, wlens, fmt)
    ensures ReadHeader(disk, name + ".img").Ok? && ReadHeader(disk, name + ".img").value.wlens == wlens
  {
    var t := HeaderText(|wlens|, samples, lines, wlens, fmt);
    ImgHdrName(name);
    UpdateSame(disk.texts, name + ".hdr", t);
    WrittenHeaderReadsBack(disk, name, |wlens|, samples, lines, wlens, fmt);
    BandsFound(|wlens|, samples, lines, wlens, fmt);
    WavelengthFound(|wlens|, samples, lines, wlens, fmt);
    ListRead(disk, name + ".img", t, wlens, fmt);
  }

  /** Storing what a file already holds changes nothing. */
  lemma UpdateSame(texts: map<string, string>, key: string, t: string)
    requires key in texts && texts[key] == t
    ensures texts[key := t] == texts
  {
  }

  /** A readable descriptor holding the count and the printed list of `ws`
      gives `ws` back as its wavelengths. */
  lemma ListRead(disk: Disk, filename: string, t: string, ws: seq<real>, fmt: real -> string)
    requires '.' in filename && HdrName(filename) in disk.texts && disk.texts[HdrName(filename)] == t
    requires ReadHeader(disk, filename).Ok?
    requires GetValue(t, "bands") == Some(DecimalString(|ws|))
    requires GetValue(t, "wavelength") == Some("{" + WavelengthList(ws, fmt) + "}")
    requires AllPrintPlain(fmt, ws) && AllReadBack(fmt, ws)
    ensures ReadHeader(disk, filename).value.wlens == ws
  {
    WavelengthsRead(disk, filename, t, |ws|, "{" + WavelengthList(ws, fmt) + "}");
    BracedListReadsBack(ws, fmt);
  }

  /** A braced list printed plainly, where `strtod` reads each printed number
      back exactly, is parsed back into the list. */
  lemma BracedListReadsBack(ws: seq<real>, fmt: real -> string)
    requires AllPrintPlain(fmt, ws) && AllReadBack(fmt, ws)
    ensures Wavelengths(|ws|, "{" + WavelengthList(ws, fmt) + "}") == ws
  {
    var w := WavelengthList(ws, fmt);
    var s := "{" + w + "}";
    assert s[0] == '{';
    assert BraceStart(s) == 1;
    assert s[1..1 + |w|] == w;
    ScanPrintedList(s, 1, ws, fmt);
    ConvertPrinted(ws, fmt);
  }
}
