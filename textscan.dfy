/** The text scanners behind the header reader and the configuration reader.
    Both look a property up with the Perl-syntax pattern
    `property\s*=\s*([CLASS]+)` and keep the capture of the leftmost match;
    they differ only in CLASS.  Numbers are then converted the way `strtod`
    converts the unsigned decimals those classes can hold. */
module TextScan {
  import opened Options

  /** `\s` of the pattern syntax. */
  predicate IsSpace(c: char)
  {
    c == ' ' || c == '\t' || c == '\n' || c == '\r' || c == '\U{0B}' || c == '\U{0C}'
  }

  predicate IsDigit(c: char)
  {
    '0' <= c <= '9'
  }

  /** The two value classes: `[{|}|0-9|,| |.|a-z]` for header values and
      `[0-9|.|a-z|"|]` for configuration values (`|` is a literal inside a
      bracket expression). */
  datatype CharClass = HeaderValue | ConfigValue

  predicate InClass(cc: CharClass, c: char)
  {
    match cc
    case HeaderValue =>
      c == '{' || c == '|' || c == '}' || IsDigit(c) || c == ',' || c == ' ' || c == '.' || 'a' <= c <= 'z'
    case ConfigValue =>
      IsDigit(c) || c == '|' || c == '.' || 'a' <= c <= 'z' || c == '"'
  }

  /** The text between a capture group's start and end offsets. */
  function GetMatch(text: string, so: nat, eo: nat): (r: string)
    requires so <= eo <= |text|
    ensures |r| == eo - so
    ensures forall i :: 0 <= i < |r| ==> r[i] == text[so + i]
  {
    text[so..eo]
  }

  /** End of the maximal run of `\s` starting at `i`. */
  function SpaceEnd(t: string, i: nat): (e: nat)
    requires i <= |t|
    ensures i <= e <= |t|
    ensures forall m :: i <= m < e ==> IsSpace(t[m])
    ensures e == |t| || !IsSpace(t[e])
    decreases |t| - i
  {
    if i < |t| && IsSpace(t[i]) then SpaceEnd(t, i + 1) else i
  }

  /** End of the maximal run of class characters starting at `i`. */
  function ClassEnd(cc: CharClass, t: string, i: nat): (e: nat)
    requires i <= |t|
    ensures i <= e <= |t|
    ensures forall m :: i <= m < e ==> InClass(cc, t[m])
    ensures e == |t| || !InClass(cc, t[e])
    decreases |t| - i
  {
    if i < |t| && InClass(cc, t[i]) then ClassEnd(cc, t, i + 1) else i
  }

  /** Where the capture starts once `\s*` has swallowed t[q..k]: the greedy
      `\s*` gives characters back until a class character follows, so the
      capture starts at the last class character in t[q..k] (k included). */
  function CaptureStart(cc: CharClass, t: string, q: nat, k: nat): (r: Option<nat>)
    requires q <= k <= |t|
    ensures r.Some? ==> q <= r.value <= k && r.value < |t| && InClass(cc, t[r.value])
    ensures r.Some? ==> forall m :: r.value < m <= k && m < |t| ==> !InClass(cc, t[m])
    ensures r.None? ==> forall m :: q <= m <= k && m < |t| ==> !InClass(cc, t[m])
    decreases k - q
  {
    if k < |t| && InClass(cc, t[k]) then Some(k)
    else if k == q then None
    else CaptureStart(cc, t, q, k - 1)
  }

  /** The capture of a match of `key\s*=\s*([CLASS]+)` that starts at `p`, if any. */
  function MatchAt(cc: CharClass, t: string, key: string, p: nat): (r: Option<string>)
    requires p <= |t|
    ensures r.Some? ==> p + |key| <= |t| && t[p..p + |key|] == key
    ensures r.Some? ==> |r.value| > 0 && forall i :: 0 <= i < |r.value| ==> InClass(cc, r.value[i])
  {
    if p + |key| <= |t| && t[p..p + |key|] == key then
      var e := SpaceEnd(t, p + |key|);
      if e < |t| && t[e] == '=' then
        var w := SpaceEnd(t, e + 1);
        match CaptureStart(cc, t, e + 1, w)
        case Some(s) => Some(GetMatch(t, s, ClassEnd(cc, t, s)))
        case None => None
      else None
    else None
  }

  /** The capture of the leftmost match at or after `p`. */
  function FirstMatch(cc: CharClass, t: string, key: string, p: nat): (r: Option<string>)
    requires p <= |t|
    decreases |t| - p
  {
    match MatchAt(cc, t, key, p)
    case Some(v) => Some(v)
    case None => if p == |t| then None else FirstMatch(cc, t, key, p + 1)
  }

  /** One step of the search. */
  lemma FirstMatchStep(cc: CharClass, t: string, key: string, p: nat)
    requires p <= |t|
    ensures MatchAt(cc, t, key, p).Some? ==> FirstMatch(cc, t, key, p) == MatchAt(cc, t, key, p)
    ensures MatchAt(cc, t, key, p).None? && p == |t| ==> FirstMatch(cc, t, key, p).None?
    ensures MatchAt(cc, t, key, p).None? && p < |t| ==> FirstMatch(cc, t, key, p) == FirstMatch(cc, t, key, p + 1)
  {
  }

  /** A failed search means no position from `p` on matches. */
  lemma {:induction false} FirstMatchNone(cc: CharClass, t: string, key: string, p: nat)
    requires p <= |t| && FirstMatch(cc, t, key, p).None?
    ensures forall m :: p <= m <= |t| ==> MatchAt(cc, t, key, m).None?
    decreases |t| - p
  {
    FirstMatchStep(cc, t, key, p);
    if p < |t| {
      FirstMatchNone(cc, t, key, p + 1);
    }
  }

  /** A successful search comes from a position that matches, and what it
      finds is a non-empty run of the value class. */
  lemma {:induction false} FirstMatchFound(cc: CharClass, t: string, key: string, p: nat)
    requires p <= |t| && FirstMatch(cc, t, key, p).Some?
    ensures exists m :: p <= m <= |t| && MatchAt(cc, t, key, m).Some?
    ensures |FirstMatch(cc, t, key, p).value| > 0
    ensures forall i :: 0 <= i < |FirstMatch(cc, t, key, p).value| ==> InClass(cc, FirstMatch(cc, t, key, p).value[i])
    decreases |t| - p
  {
    FirstMatchStep(cc, t, key, p);
    if MatchAt(cc, t, key, p).None? {
      FirstMatchFound(cc, t, key, p + 1);
    }
  }

  /** The leftmost match wins: if nothing matches before `at` and a match
      starts at `at`, that match is the result. */
  lemma {:induction false} FirstMatchIs(cc: CharClass, t: string, key: string, p: nat, at: nat, v: string)
    requires p <= at <= |t|
    requires forall m :: p <= m < at ==> MatchAt(cc, t, key, m).None?
    requires MatchAt(cc, t, key, at) == Some(v)
    ensures FirstMatch(cc, t, key, p) == Some(v)
    decreases at - p
  {
    FirstMatchStep(cc, t, key, p);
    if p < at {
      assert MatchAt(cc, t, key, p).None?;
      FirstMatchIs(cc, t, key, p + 1, at, v);
    }
  }

  /** A match at `p` whose separator is exactly " = " and whose value `v` is
      a class run that does not start with a space captures `v`. */
  lemma MatchAtKey(cc: CharClass, t: string, key: string, p: nat, v: string)
    requires p + |key| + 3 + |v| <= |t|
    requires t[p..p + |key|] == key
    requires t[p + |key|] == ' ' && t[p + |key| + 1] == '=' && t[p + |key| + 2] == ' '
    requires |v| > 0 && !IsSpace(v[0])
    requires t[p + |key| + 3..p + |key| + 3 + |v|] == v
    requires forall i :: 0 <= i < |v| ==> InClass(cc, v[i])
    requires p + |key| + 3 + |v| == |t| || !InClass(cc, t[p + |key| + 3 + |v|])
    ensures MatchAt(cc, t, key, p) == Some(v)
  {
    var k := p + |key|;
    assert t[k + 3] == v[0];
    assert SpaceEnd(t, k + 1) == k + 1;
    assert SpaceEnd(t, k) == k + 1;
    assert SpaceEnd(t, k + 3) == k + 3;
    assert SpaceEnd(t, k + 2) == k + 3;
    assert CaptureStart(cc, t, k + 2, k + 3) == Some(k + 3);
    assert ClassEnd(cc, t, k + 3) == k + 3 + |v|;
  }

  /** One `key = value` line, as the descriptor writer streams it (`endl`
      ends it with a newline) and as a configuration file holds it. */
  function Line(key: string, value: string): string
  {
    key + " = " + value + "\n"
  }

  // ---------------------------------------------------------------------
  // Showing that a key does not occur before some point of a text.

  /** Within `t`, the first three characters of `key` are not all found at `p`. */
  predicate WindowDiffers(t: string, key: string, p: nat)
    requires |key| >= 3
  {
    p < |t| &&
    (t[p] != key[0] || (p + 1 < |t| && t[p + 1] != key[1]) || (p + 2 < |t| && t[p + 2] != key[2]))
  }

  ghost predicate Clear(t: string, key: string)
    requires |key| >= 3
  {
    forall p :: 0 <= p < |t| ==> WindowDiffers(t, key, p)
  }

  /** A run of digits never starts a key that starts with a non-digit. */
  lemma ClearDigits(d: string, key: string)
    requires |key| >= 3 && !IsDigit(key[0])
    requires forall i :: 0 <= i < |d| ==> IsDigit(d[i])
    ensures Clear(d, key)
  {
  }

  lemma ClearConcat(a: string, b: string, key: string)
    requires |key| >= 3 && Clear(a, key) && Clear(b, key)
    ensures Clear(a + b, key)
  {
    var t := a + b;
    forall p | 0 <= p < |t| ensures WindowDiffers(t, key, p) {
      if p < |a| {
        assert WindowDiffers(a, key, p);
      } else {
        assert WindowDiffers(b, key, p - |a|);
      }
    }
  }

  /** A key has no match anywhere in a clear prefix of the text. */
  lemma NoMatchInClearPrefix(cc: CharClass, a: string, rest: string, key: string)
    requires |key| >= 3 && Clear(a, key)
    ensures forall m :: 0 <= m < |a| ==> MatchAt(cc, a + rest, key, m).None?
  {
    var t := a + rest;
    forall m | 0 <= m < |a| ensures MatchAt(cc, t, key, m).None? {
      assert WindowDiffers(a, key, m);
    }
  }

  /** A `key = v` line whose key does not occur in the clear text before it
      is what the scanner finds. */
  lemma KeyLineFound(cc: CharClass, pre: string, key: string, v: string, rest: string)
    requires |key| >= 3 && Clear(pre, key)
    requires |v| > 0 && !IsSpace(v[0]) && forall i :: 0 <= i < |v| ==> InClass(cc, v[i])
    requires rest == [] || !InClass(cc, rest[0])
    ensures FirstMatch(cc, pre + (key + " = " + v + rest), key, 0) == Some(v)
  {
    var line := key + " = " + v + rest;
    var t := pre + line;
    var p := |pre|;
    var k := |key|;
    assert line[..k] == key;
    assert t[p..p + k] == line[..k];
    assert line[k + 3..k + 3 + |v|] == v;
    assert t[p + k + 3..p + k + 3 + |v|] == line[k + 3..k + 3 + |v|];
    assert p + k + 3 + |v| < |t| ==> t[p + k + 3 + |v|] == rest[0];
    MatchAtKey(cc, t, key, p, v);
    NoMatchInClearPrefix(cc, pre, line, key);
    FirstMatchIs(cc, t, key, 0, p, v);
  }

  // ---------------------------------------------------------------------
  // Numbers.

  /** End of the maximal run of decimal digits starting at `i`. */
  function DigitEnd(s: string, i: nat): (e: nat)
    requires i <= |s|
    ensures i <= e <= |s|
    ensures forall m :: i <= m < e ==> IsDigit(s[m])
    ensures e == |s| || !IsDigit(s[e])
    decreases |s| - i
  {
    if i < |s| && IsDigit(s[i]) then DigitEnd(s, i + 1) else i
  }

  function DigitValue(c: char): nat
    requires IsDigit(c)
  {
    (c as int - '0' as int) as nat
  }

  /** The value of a string of decimal digits, most significant first. */
  function DigitsValue(d: string): nat
    requires forall i :: 0 <= i < |d| ==> IsDigit(d[i])
  {
    if d == [] then 0 else DigitsValue(d[..|d| - 1]) * 10 + DigitValue(d[|d| - 1])
  }

  /** The value of the digits after a decimal point, most significant
      first: `0.d0d1...` is `(d0 + 0.d1...) / 10`. */
  function FractionValue(d: string): (r: real)
    requires forall i :: 0 <= i < |d| ==> IsDigit(d[i])
    ensures 0.0 <= r <= 1.0
  {
    if d == [] then 0.0 else (DigitValue(d[0]) as real + FractionValue(d[1..])) / 10.0
  }

  /** `strtod` on the strings the value classes admit: leading white space is
      skipped, then the longest prefix `digits [. digits]` is read as an exact
      decimal.  No sign can occur in either class. */
  function Strtod(s: string): (r: real)
    ensures r >= 0.0
  {
    var i := SpaceEnd(s, 0);
    var d := DigitEnd(s, i);
    var whole := DigitsValue(s[i..d]) as real;
    if d < |s| && s[d] == '.' then
      var f := DigitEnd(s, d + 1);
      whole + FractionValue(s[d + 1..f])
    else
      whole
  }

  /** `strtod` stored into an `int` field: the conversion truncates, which for
      these non-negative values is the floor. */
  function StrtoInt(s: string): (r: nat)
  {
    Strtod(s).Floor
  }

  /** The digits an output stream prints for a non-negative `int`. */
  function DecimalString(n: nat): (s: string)
    ensures |s| > 0
    ensures forall i :: 0 <= i < |s| ==> IsDigit(s[i])
  {
    if n < 10 then ['0' + n as char]
    else DecimalString(n / 10) + ['0' + (n % 10) as char]
  }

  lemma {:induction false} DigitsValueDecimal(n: nat)
    ensures DigitsValue(DecimalString(n)) == n
  {
    var s := DecimalString(n);
    if n >= 10 {
      DigitsValueDecimal(n / 10);
      assert s[..|s| - 1] == DecimalString(n / 10);
    }
  }

  /** Reading back a printed count gives the count. */
  lemma StrtoIntDecimal(n: nat)
    ensures Strtod(DecimalString(n)) == n as real
    ensures StrtoInt(DecimalString(n)) == n
  {
    var s := DecimalString(n);
    assert SpaceEnd(s, 0) == 0;
    assert DigitEnd(s, 0) == |s|;
    assert s[0..|s|] == s;
    DigitsValueDecimal(n);
  }

  // ---------------------------------------------------------------------
  // File names.

  function LastDot(f: string): (i: nat)
    requires '.' in f
    ensures i < |f| && f[i] == '.'
    ensures forall j :: i < j < |f| ==> f[j] != '.'
  {
    if f[|f| - 1] == '.' then |f| - 1
    else
      assert '.' in f[..|f| - 1] by {
        var j :| 0 <= j < |f| && f[j] == '.';
        assert f[..|f| - 1][j] == '.';
      }
      LastDot(f[..|f| - 1])
  }

  /** The capture of `(.*)[.].*$`: everything before the last dot. */
  function Basename(f: string): (b: string)
    requires '.' in f
    ensures |b| < |f| && f[|b|] == '.' && b == f[..|b|]
    ensures forall j :: |b| < j < |f| ==> f[j] != '.'
  {
    f[..LastDot(f)]
  }

  /** Stripping the extension that was appended gives the name back. */
  lemma BasenameOfExtension(name: string, ext: string)
    requires '.' !in ext
    ensures '.' in name + "." + ext
    ensures Basename(name + "." + ext) == name
  {
    var f := name + "." + ext;
    assert f[|name|] == '.';
    var b := Basename(f);
    assert |b| == |name|;
  }
}
