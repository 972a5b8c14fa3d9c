/** The registration parameters and their configuration file: each
    parameter is looked up as `key = value` in the text of `params.conf`,
    and a parameter whose value is missing, or every parameter when the file
    is missing, takes its default. */
module Config {
  import opened Options
  import opened TextScan

  /** The configuration reader's status codes. */
  datatype ConfErr = ConfNoErr | ConfFileNotFound | ConfFileReadingError

  /** getParam: the capture of the leftmost match of
      `property\s*=\s*([0-9|.|a-z|"|]+)` anywhere in the text, or the empty
      string when nothing matches. */
  function GetParam(confText: string, property: string): (r: string)
    ensures r == [] <==> forall m :: 0 <= m <= |confText| ==> MatchAt(ConfigValue, confText, property, m).None?
    ensures forall i :: 0 <= i < |r| ==> InClass(ConfigValue, r[i])
  {
    var found := FirstMatch(ConfigValue, confText, property, 0);
    if found.None? then
      FirstMatchNone(ConfigValue, confText, property, 0);
      ""
    else
      FirstMatchFound(ConfigValue, confText, property, 0);
      found.value
  }

  /** The leftmost match decides: when nothing matches before `at` and a
      match starts at `at`, its capture is the parameter's value. */
  lemma GetParamLeftmost(confText: string, property: string, at: nat, v: string)
    requires at <= |confText|
    requires forall m :: 0 <= m < at ==> MatchAt(ConfigValue, confText, property, m).None?
    requires MatchAt(ConfigValue, confText, property, at) == Some(v)
    ensures GetParam(confText, property) == v
  {
    FirstMatchIs(ConfigValue, confText, property, 0, at, v);
  }

  /** A `key = v` line, where the key does not occur earlier, sets the key
      to its value. */
  lemma KeyLineParam(pre: string, key: string, v: string, rest: string)
    requires |key| >= 3 && Clear(pre, key)
    requires |v| > 0 && !IsSpace(v[0]) && forall i :: 0 <= i < |v| ==> InClass(ConfigValue, v[i])
    requires rest == [] || !InClass(ConfigValue, rest[0])
    ensures GetParam(pre + (key + " = " + v + rest), key) == v
  {
    KeyLineFound(ConfigValue, pre, key, v, rest);
  }

  /** The pattern has no left boundary, so a key also matches at the end of
      a longer key: a file that only sets `tscale` sets `scale` to the same
      text (here `c` is the longer key's extra first character). */
  lemma {:induction false} SuffixKeyMatches(c: char, key: string, v: string)
    requires |key| >= 3 && c != key[0]
    requires |v| > 0 && !IsSpace(v[0]) && forall i :: 0 <= i < |v| ==> InClass(ConfigValue, v[i])
    ensures GetParam([c] + key + " = " + v + "\n", key) == v
    ensures GetParam([c] + key + " = " + v + "\n", [c] + key) == v
  {
    assert WindowDiffers([c], key, 0);
    KeyLineParam([c], key, v, "\n");
    assert [c] + (key + " = " + v + "\n") == [c] + key + " = " + v + "\n";
    KeyLineParam([], [c] + key, v, "\n");
    assert [] + ([c] + key + " = " + v + "\n") == [c] + key + " = " + v + "\n";
  }

  // ---------------------------------------------------------------------
  // One parameter.

  /** The text the parameters are looked up in: the file's contents, or
      nothing when there is no file. */
  function ConfText(conf: Option<string>): string
  {
    if conf.Some? then conf.value else ""
  }

  /** An integer parameter: `strtod` of its text stored into an `int`, or
      the default when the text is empty or there is no file. */
  function IntSetting(conf: Option<string>, key: string, default: int): int
  {
    var v := GetParam(ConfText(conf), key);
    if v == [] || conf.None? then default else StrtoInt(v)
  }

  /** A floating-point parameter: `strtod` of its text, or the default. */
  function RealSetting(conf: Option<string>, key: string, default: real): real
  {
    var v := GetParam(ConfText(conf), key);
    if v == [] || conf.None? then default else Strtod(v)
  }

  /** A name parameter: its text, or the default. */
  function NameSetting(conf: Option<string>, key: string, default: string): string
  {
    var v := GetParam(ConfText(conf), key);
    if v == [] || conf.None? then default else v
  }

  /** A key the file does not set takes its default; so does every key when
      there is no file. */
  lemma {:induction false} MissingKeyDefaults(conf: Option<string>, key: string, di: int, dr: real, dn: string)
    requires conf.None? || forall m :: 0 <= m <= |conf.value| ==> MatchAt(ConfigValue, conf.value, key, m).None?
    ensures IntSetting(conf, key, di) == di
    ensures RealSetting(conf, key, dr) == dr
    ensures NameSetting(conf, key, dn) == dn
  {
    if conf.Some? {
      assert GetParam(conf.value, key) == [];
    }
  }

  /** A file that sets `key = n` (printed as a decimal, and before any other
      match of the key) gives the integer parameter the value `n`. */
  lemma SettingReadsBack(pre: string, key: string, n: nat, rest: string, default: int)
    requires |key| >= 3 && Clear(pre, key)
    requires rest == [] || !InClass(ConfigValue, rest[0])
    ensures IntSetting(Some(pre + (key + " = " + DecimalString(n) + rest)), key, default) == n
  {
    var v := DecimalString(n);
    assert !IsSpace(v[0]);
    KeyLineParam(pre, key, v, rest);
    StrtoIntDecimal(n);
  }

  /** `metric` as params_read sets it: when the file has a `metric` value,
      the number is read from the `translation` text instead. */
  function MetricAsWritten(conf: Option<string>): int
  {
    var v := GetParam(ConfText(conf), "metric");
    if v == [] || conf.None? then 0 else StrtoInt(GetParam(ConfText(conf), "translation"))
  }

  /** A file of two `key = number` lines. */
  function TwoLines(k1: string, a: string, k2: string, b: string): string
  {
    Line(k1, a) + Line(k2, b)
  }

  /** In a file of two `key = number` lines, each key reads its own number,
      provided the second key's first character occurs nowhere in the first
      line. */
  lemma TwoLinesRead(k1: string, a: string, k2: string, b: string)
    requires |k1| >= 3 && |k2| >= 3
    requires k2[0] !in k1 && !IsDigit(k2[0]) && !IsSpace(k2[0]) && k2[0] != '='
    requires |a| > 0 && forall i :: 0 <= i < |a| ==> IsDigit(a[i])
    requires |b| > 0 && forall i :: 0 <= i < |b| ==> IsDigit(b[i])
    ensures GetParam(TwoLines(k1, a, k2, b), k1) == a
    ensures GetParam(TwoLines(k1, a, k2, b), k2) == b
  {
    FirstLineRead(k1, a, k2, b);
    SecondLineRead(k1, a, k2, b);
  }

  lemma FirstLineRead(k1: string, a: string, k2: string, b: string)
    requires |k1| >= 3
    requires |a| > 0 && forall i :: 0 <= i < |a| ==> IsDigit(a[i])
    ensures GetParam(TwoLines(k1, a, k2, b), k1) == a
  {
    var start := k1 + " = " + a;
    KeyLineParam([], k1, a, "\n" + Line(k2, b));
    assert [] + (start + ("\n" + Line(k2, b))) == (start + "\n") + Line(k2, b);
  }

  lemma SecondLineRead(k1: string, a: string, k2: string, b: string)
    requires |k1| >= 3 && |k2| >= 3
    requires k2[0] !in k1 && !IsDigit(k2[0]) && !IsSpace(k2[0]) && k2[0] != '='
    requires forall i :: 0 <= i < |a| ==> IsDigit(a[i])
    requires |b| > 0 && forall i :: 0 <= i < |b| ==> IsDigit(b[i])
    ensures GetParam(TwoLines(k1, a, k2, b), k2) == b
  {
    FirstLineClear(k1, a, k2);
    KeyLineParam(Line(k1, a), k2, b, "\n");
  }

  /** A key whose first character is neither in `k1`, nor a digit, nor a
      space nor `=` cannot start anywhere in the line `k1 = a`. */
  lemma FirstLineClear(k1: string, a: string, k2: string)
    requires |k2| >= 3
    requires k2[0] !in k1 && !IsDigit(k2[0]) && !IsSpace(k2[0]) && k2[0] != '='
    requires forall i :: 0 <= i < |a| ==> IsDigit(a[i])
    ensures Clear(Line(k1, a), k2)
  {
    var first := Line(k1, a);
    forall p | 0 <= p < |first| ensures WindowDiffers(first, k2, p) {
      if p < |k1| {
        assert first[p] == k1[p];
      } else if p < |k1| + 3 {
        assert first[p] == (k1 + " = ")[p];
      } else if p < |k1| + 3 + |a| {
        assert first[p] == a[p - |k1| - 3];
      } else {
        assert first[p] == '\n';
      }
    }
  }

  /** `metric` can follow a `translation` line without matching in it. */
  lemma MetricAfterTranslation()
    ensures |"translation"| >= 3 && |"metric"| >= 3
    ensures "metric"[0] !in "translation" && !IsDigit("metric"[0])
    ensures !IsSpace("metric"[0]) && "metric"[0] != '='
  {
  }

  /** The two disagree: a file setting `translation = t` and then
      `metric = m` gives `metric` the value `t`, where `m` is meant. */
  lemma MetricReadsTranslation(t: nat, m: nat)
    ensures var conf := Some(TwoLines("translation", DecimalString(t), "metric", DecimalString(m)));
      && MetricAsWritten(conf) == t
      && IntSetting(conf, "metric", 0) == m
  {
    MetricAfterTranslation();
    TwoLinesRead("translation", DecimalString(t), "metric", DecimalString(m));
    StrtoIntDecimal(t);
    StrtoIntDecimal(m);
  }

  /** No position of the file matches `key = value`. */
  predicate Unset(confText: string, key: string)
  {
    forall m :: 0 <= m <= |confText| ==> MatchAt(ConfigValue, confText, key, m).None?
  }

  /** A match of `key = value` starts at `at`, and none starts before it. */
  predicate LeftmostAt(confText: string, key: string, at: nat)
  {
    && at <= |confText| && MatchAt(ConfigValue, confText, key, at).Some?
    && forall m :: 0 <= m < at ==> MatchAt(ConfigValue, confText, key, m).None?
  }

  /** The leftmost match's capture is what getParam returns, and it is not
      empty, so the field is read from it. */
  lemma LeftmostValue(confText: string, key: string, at: nat)
    requires LeftmostAt(confText, key, at)
    ensures GetParam(confText, key) == MatchAt(ConfigValue, confText, key, at).value
    ensures GetParam(confText, key) != []
  {
    GetParamLeftmost(confText, key, at, MatchAt(ConfigValue, confText, key, at).value);
  }

  /** One integer field of params_read, as the source assigns it: look the
      key up, then convert its text with `strtod` (truncated into the `int`
      field) unless it is empty or there is no file. The field takes its
      default when there is no file or no position matches the key, and
      otherwise the value of the leftmost match's text. ReadInt, ReadReal
      and ReadName are the field-by-field steps of ParamsRead, which uses
      their agreement with IntSetting, RealSetting and NameSetting. */
  method ReadInt(conf: Option<string>, key: string, default: int) returns (v: int)
    ensures conf.None? || Unset(conf.value, key) ==> v == default
    ensures forall at: nat | conf.Some? && LeftmostAt(conf.value, key, at) ::
      v == StrtoInt(MatchAt(ConfigValue, conf.value, key, at).value)
    ensures v == IntSetting(conf, key, default)
  {
    var text := GetParam(ConfText(conf), key);
    if text == [] || conf.None? {
      v := default;
    } else {
      v := StrtoInt(text);
    }
    forall at: nat | conf.Some? && LeftmostAt(conf.value, key, at)
      ensures v == StrtoInt(MatchAt(ConfigValue, conf.value, key, at).value)
    {
      LeftmostValue(conf.value, key, at);
    }
  }

  /** One floating-point field of params_read: the default when there is
      no file or no position matches the key, otherwise `strtod` of the
      leftmost match's text. */
  method ReadReal(conf: Option<string>, key: string, default: real) returns (v: real)
    ensures conf.None? || Unset(conf.value, key) ==> v == default
    ensures forall at: nat | conf.Some? && LeftmostAt(conf.value, key, at) ::
      v == Strtod(MatchAt(ConfigValue, conf.value, key, at).value)
    ensures v == RealSetting(conf, key, default)
  {
    var text := GetParam(ConfText(conf), key);
    if text == [] || conf.None? {
      v := default;
    } else {
      v := Strtod(text);
    }
    forall at: nat | conf.Some? && LeftmostAt(conf.value, key, at)
      ensures v == Strtod(MatchAt(ConfigValue, conf.value, key, at).value)
    {
      LeftmostValue(conf.value, key, at);
    }
  }

  /** One name field of params_read: the default when there is no file or
      no position matches the key, otherwise the leftmost match's text
      itself. */
  method ReadName(conf: Option<string>, key: string, default: string) returns (v: string)
    ensures conf.None? || Unset(conf.value, key) ==> v == default
    ensures forall at: nat | conf.Some? && LeftmostAt(conf.value, key, at) ::
      v == MatchAt(ConfigValue, conf.value, key, at).value
    ensures v == NameSetting(conf, key, default)
  {
    var text := GetParam(ConfText(conf), key);
    if text == [] || conf.None? {
      v := default;
    } else {
      v := text;
    }
    forall at: nat | conf.Some? && LeftmostAt(conf.value, key, at)
      ensures v == MatchAt(ConfigValue, conf.value, key, at).value
    {
      LeftmostValue(conf.value, key, at);
    }
  }

  // ---------------------------------------------------------------------
  // The parameter record.

  /** reg_params: what the registration step is configured with. */
  datatype RegParams = RegParams(
    regmethod: int, regName: string, diffConf: int, diffName: string,
    median: int, radius: int, gradient: int, sigma: int,
    angle: real, scale: real, lrate: real, slength: real,
    niter: int, numberOfLevels: int, translationScale: real,
    translation: int, metric: int, output: int)

  /** The record when there is no configuration file. */
  function Defaults(): RegParams
  {
    RegParams(1, "out", 1, "diffout", 1, 1, 0, 1, 0.0, 1.0, 1.0, 0.0001, 300, 1, 0.001, 0, 0, 1)
  }

  /** The record params_read fills from a configuration file: each field
      from its key, or its default. */
  function Settings(conf: Option<string>): (p: RegParams)
    ensures conf.None? ==> p == Defaults()
  {
    RegParams(IntSetting(conf, "regmethod", 1), NameSetting(conf, "reg_name", "out"),
              IntSetting(conf, "diff_conf", 1), NameSetting(conf, "diff_name", "diffout"),
              IntSetting(conf, "median", 1), IntSetting(conf, "radius", 1),
              IntSetting(conf, "gradient", 0), IntSetting(conf, "sigma", 1),
              RealSetting(conf, "angle", 0.0), RealSetting(conf, "scale", 1.0),
              RealSetting(conf, "lrate", 1.0), RealSetting(conf, "slength", 0.0001),
              IntSetting(conf, "niter", 300), IntSetting(conf, "numoflev", 1),
              RealSetting(conf, "tscale", 0.001), IntSetting(conf, "translation", 0),
              IntSetting(conf, "metric", 0), IntSetting(conf, "output", 1))
  }

  /** params_read, given the text of `params.conf` (None when the file is
      missing): the fields assigned one by one, as the source does, and
      proved to give the record Settings specifies. The caller's record is
      returned, since every one of its fields is set: from its key, or to
      its default. The status is always success. */
  method ParamsRead(conf: Option<string>) returns (err: ConfErr, params: RegParams)
    ensures err == ConfNoErr
    ensures params == Settings(conf)
    ensures conf.None? ==> params == Defaults()
  {
    var regmethod := ReadInt(conf, "regmethod", 1);
    var regName := ReadName(conf, "reg_name", "out");
    var diffConf := ReadInt(conf, "diff_conf", 1);
    var diffName := ReadName(conf, "diff_name", "diffout");
    var median := ReadInt(conf, "median", 1);
    var radius := ReadInt(conf, "radius", 1);
    var gradient := ReadInt(conf, "gradient", 0);
    var sigma := ReadInt(conf, "sigma", 1);
    var angle := ReadReal(conf, "angle", 0.0);
    var scale := ReadReal(conf, "scale", 1.0);
    var lrate := ReadReal(conf, "lrate", 1.0);
    var slength := ReadReal(conf, "slength", 0.0001);
    var niter := ReadInt(conf, "niter", 300);
    var numberOfLevels := ReadInt(conf, "numoflev", 1);
    var translationScale := ReadReal(conf, "tscale", 0.001);
    var translation := ReadInt(conf, "translation", 0);
    var metric := ReadInt(conf, "metric", 0);
    var output := ReadInt(conf, "output", 1);
    params := RegParams(regmethod, regName, diffConf, diffName, median, radius, gradient, sigma,
                        angle, scale, lrate, slength, niter, numberOfLevels, translationScale,
                        translation, metric, output);
    err := ConfNoErr;
  }
}
