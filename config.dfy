/**
 * The output-line limit: `_parse_positive_int`, the config-file lookup and
 * the ordered fallback chain of `_resolve_max_output_lines`.
 */
module Config {
  import opened Wrappers

  const DefaultMaxLines: int := 1000

  // ---------------------------------------------------------------------
  // Integer text: str.strip() and int()
  // ---------------------------------------------------------------------

  /** The ASCII characters Python's `str.isspace` accepts. */
  predicate IsSpace(c: char)
  {
    c == ' ' || ('\t' <= c <= '\r') || ('\U{1C}' <= c <= '\U{1F}')
  }

  /** Leading white space removed: what remains is a suffix that does not start with white space. */
  function TrimStart(s: string): (r: string)
    ensures |r| <= |s| && r == s[|s| - |r|..]
    ensures r == [] || !IsSpace(r[0])
  {
    if s != [] && IsSpace(s[0]) then TrimStart(s[1..]) else s
  }

  /** Trailing white space removed: what remains is a prefix that does not end with white space. */
  function TrimEnd(s: string): (r: string)
    ensures |r| <= |s| && r == s[..|r|]
    ensures r == [] || !IsSpace(r[|r| - 1])
  {
    if s != [] && IsSpace(s[|s| - 1]) then TrimEnd(s[..|s| - 1]) else s
  }

  /** Only white space is removed at the start. */
  lemma {:induction false} TrimStartRemovesSpace(s: string)
    ensures forall k :: 0 <= k < |s| - |TrimStart(s)| ==> IsSpace(s[k])
  {
    if s != [] && IsSpace(s[0]) {
      TrimStartRemovesSpace(s[1..]);
      assert forall k :: 1 <= k < |s| ==> s[k] == s[1..][k - 1];
    }
  }

  /** Only white space is removed at the end. */
  lemma {:induction false} TrimEndRemovesSpace(s: string)
    ensures forall k :: |TrimEnd(s)| <= k < |s| ==> IsSpace(s[k])
  {
    if s != [] && IsSpace(s[|s| - 1]) {
      TrimEndRemovesSpace(s[..|s| - 1]);
    }
  }

  /** `s.strip()`. */
  function Strip(s: string): string
  {
    TrimEnd(TrimStart(s))
  }

  predicate IsDigit(c: char)
  {
    '0' <= c <= '9'
  }

  predicate AllDigits(s: string)
  {
    forall k :: 0 <= k < |s| ==> IsDigit(s[k])
  }

  /** The value of a string of decimal digits, most significant first. */
  function DigitsValue(s: string): nat
    requires AllDigits(s)
  {
    if s == [] then 0
    else DigitsValue(s[..|s| - 1]) * 10 + (s[|s| - 1] as int - '0' as int)
  }

  /** `int(t)` for stripped ASCII text: an optional sign, then one or more digits. */
  function ParseSigned(t: string): Option<int>
  {
    if |t| >= 1 && (t[0] == '+' || t[0] == '-') then
      var digits := t[1..];
      if digits != [] && AllDigits(digits) then
        var v: int := DigitsValue(digits);
        Some(if t[0] == '-' then -v else v)
      else None
    else if t != [] && AllDigits(t) then Some(DigitsValue(t))
    else None
  }

  /** `int(s)` for ASCII text: white space around is ignored. */
  function ParseInt(s: string): Option<int>
  {
    ParseSigned(Strip(s))
  }

  /** `_parse_positive_int` on text: the integer when it parses and is positive, otherwise nothing. */
  function ParsePositiveText(s: string): (r: Option<int>)
    ensures r.Some? ==> r.value > 0
    ensures r.Some? <==> ParseInt(s).Some? && ParseInt(s).value > 0
    ensures r.Some? ==> r == ParseInt(s)
  {
    match ParseInt(s)
    case Some(n) => if n > 0 then Some(n) else None
    case None => None
  }

  // ---------------------------------------------------------------------
  // str() of a JSON integer
  // ---------------------------------------------------------------------

  /** The decimal digits of `n`, as `str` writes them (no leading zeros). */
  function NatToDecimal(n: nat): (s: string)
    ensures |s| >= 1 && AllDigits(s)
    ensures |s| > 1 ==> s[0] != '0'
  {
    if n < 10 then [('0' as int + n) as char]
    else NatToDecimal(n / 10) + [('0' as int + n % 10) as char]
  }

  /** `str(i)` for a Python integer. */
  function IntToDecimal(i: int): string
  {
    if i < 0 then ['-'] + NatToDecimal(-i) else NatToDecimal(i)
  }

  lemma {:induction false} DecimalValue(n: nat)
    ensures DigitsValue(NatToDecimal(n)) == n
  {
    if n >= 10 {
      DecimalValue(n / 10);
      var s := NatToDecimal(n);
      assert s[..|s| - 1] == NatToDecimal(n / 10);
    }
  }

  /** Text that neither starts nor ends with white space is left as it is. */
  lemma EdgesUnstripped(s: string)
    requires s == [] || (!IsSpace(s[0]) && !IsSpace(s[|s| - 1]))
    ensures Strip(s) == s
  {
    assert TrimStart(s) == s;
  }

  /** Text made of digits alone parses as its value. */
  lemma ParseDigits(d: string)
    requires d != [] && AllDigits(d)
    ensures ParseInt(d) == Some(DigitsValue(d))
  {
    assert IsDigit(d[0]) && IsDigit(d[|d| - 1]);
    EdgesUnstripped(d);
  }

  lemma StripNegated(d: string)
    requires d != [] && AllDigits(d)
    ensures Strip(['-'] + d) == ['-'] + d
  {
    var t := ['-'] + d;
    assert t[|t| - 1] == d[|d| - 1] && IsDigit(d[|d| - 1]);
    EdgesUnstripped(t);
  }

  lemma ParseSignedNegated(d: string)
    requires d != [] && AllDigits(d)
    ensures ParseSigned(['-'] + d) == Some(-(DigitsValue(d) as int))
  {
    assert (['-'] + d)[1..] == d;
  }

  /** A minus sign before digits parses as the negated value. */
  lemma ParseNegatedDigits(d: string)
    requires d != [] && AllDigits(d)
    ensures ParseInt(['-'] + d) == Some(-(DigitsValue(d) as int))
  {
    StripNegated(d);
    ParseSignedNegated(d);
    assert ParseInt(['-'] + d) == ParseSigned(Strip(['-'] + d));
  }

  lemma StripPlus(d: string)
    requires d != [] && AllDigits(d)
    ensures Strip(['+'] + d) == ['+'] + d
  {
    var t := ['+'] + d;
    assert t[|t| - 1] == d[|d| - 1] && IsDigit(d[|d| - 1]);
    EdgesUnstripped(t);
  }

  lemma ParseSignedPlus(d: string)
    requires d != [] && AllDigits(d)
    ensures ParseSigned(['+'] + d) == Some(DigitsValue(d))
  {
    assert (['+'] + d)[1..] == d;
  }

  /** A plus sign before digits is accepted and leaves the value as it is. */
  lemma ParsePlusDigits(d: string)
    requires d != [] && AllDigits(d)
    ensures ParseInt(['+'] + d) == Some(DigitsValue(d))
  {
    StripPlus(d);
    ParseSignedPlus(d);
    assert ParseInt(['+'] + d) == ParseSigned(Strip(['+'] + d));
  }

  /** `strip` keeps a window of the text: `s[i..i + |Strip(s)|]` with `i` the leading white space. */
  lemma StripWindow(s: string)
    ensures var i := |s| - |TrimStart(s)|;
      i + |Strip(s)| <= |s| && Strip(s) == s[i..i + |Strip(s)|]
  {
    var t := TrimStart(s);
    var i := |s| - |t|;
    assert t == s[i..];
    assert Strip(s) == t[..|Strip(s)|];
  }

  /** Everything after the window `strip` keeps is white space. */
  lemma StripTrailing(s: string)
    ensures forall k :: |s| - |TrimStart(s)| + |Strip(s)| <= k < |s| ==> IsSpace(s[k])
  {
    var t := TrimStart(s);
    var i := |s| - |t|;
    TrimEndRemovesSpace(t);
    forall k | i + |Strip(s)| <= k < |s|
      ensures IsSpace(s[k])
    {
      assert s[k] == t[k - i];
    }
  }

  /** What `ParseSigned` accepts: a sign or digit first, digits after, and at least one digit. */
  lemma ParseSignedShape(u: string)
    requires ParseSigned(u).Some?
    ensures |u| >= 1 && (IsDigit(u[0]) || ((u[0] == '+' || u[0] == '-') && |u| >= 2))
    ensures forall k :: 1 <= k < |u| ==> IsDigit(u[k])
  {
    assert forall k :: 1 <= k < |u| ==> u[k] == u[1..][k - 1];
  }

  /**
   * The converse: text that parses is white space, then an optional sign,
   * then one or more digits, then white space, and nothing else. The sign or
   * first digit sits at `|s| - |TrimStart(s)|`, the trailing white space
   * starts at that index plus `|Strip(s)|`.
   */
  lemma ParseIntShape(s: string)
    requires ParseInt(s).Some?
    ensures var i := |s| - |TrimStart(s)|; var j := i + |Strip(s)|;
      i < j <= |s| && (IsDigit(s[i]) || ((s[i] == '+' || s[i] == '-') && i + 1 < j))
    ensures forall k :: 0 <= k < |s| - |TrimStart(s)| ==> IsSpace(s[k])
    ensures forall k :: |s| - |TrimStart(s)| + |Strip(s)| <= k < |s| ==> IsSpace(s[k])
    ensures var i := |s| - |TrimStart(s)|; var j := i + |Strip(s)|;
      forall k :: i < k < j ==> IsDigit(s[k])
  {
    var u := Strip(s);
    var i := |s| - |TrimStart(s)|;
    StripWindow(s);
    TrimStartRemovesSpace(s);
    StripTrailing(s);
    ParseSignedShape(u);
    assert forall k :: i <= k < i + |u| ==> s[k] == u[k - i];
  }

  /** A character that is neither white space, a digit nor a sign makes the text unparseable. */
  lemma ForeignCharRejected(s: string, k: int)
    requires 0 <= k < |s| && !IsDigit(s[k]) && !IsSpace(s[k]) && s[k] != '+' && s[k] != '-'
    ensures ParseInt(s) == None
  {
    if ParseInt(s).Some? {
      ParseIntShape(s);
    }
  }

  /** White space between two other characters makes the text unparseable (`int("5 5")` fails). */
  lemma InnerSpaceRejected(s: string, a: int, k: int, b: int)
    requires 0 <= a < k < b < |s| && !IsSpace(s[a]) && IsSpace(s[k]) && !IsSpace(s[b])
    ensures ParseInt(s) == None
  {
    if ParseInt(s).Some? {
      ParseIntShape(s);
    }
  }

  /** `int(str(i)) == i`: the written form of an integer parses back to it. */
  lemma ParseIntDecimal(i: int)
    ensures ParseInt(IntToDecimal(i)) == Some(i)
  {
    var n: nat := if i < 0 then -i else i;
    var d := NatToDecimal(n);
    DecimalValue(n);
    assert DigitsValue(d) == n;
    if i < 0 {
      ParseNegatedDigits(d);
      assert IntToDecimal(i) == ['-'] + d;
    } else {
      ParseDigits(d);
      assert IntToDecimal(i) == d;
    }
  }

  // ---------------------------------------------------------------------
  // Values found in the JSON config file
  // ---------------------------------------------------------------------

  /** What `json.load` can produce. Non-integral numbers are floats. */
  datatype Json =
    | JNull
    | JBool(b: bool)
    | JInt(i: int)
    | JFloat(f: real)
    | JString(s: string)
    | JArray(items: seq<Json>)
    | JObject(fields: map<string, Json>)

  /** `dict.get(key)`: a missing key reads as `None`. */
  function Get(fields: map<string, Json>, key: string): Json
  {
    if key in fields then fields[key] else JNull
  }

  /**
   * `_parse_positive_int(value)` on a JSON value, which goes through
   * `str(value)`. The text of `None`, a boolean, a float, a list or a dict
   * (`None`, `True`, `1.5`, `[...]`, `{...}`) never parses as an integer.
   */
  function ParsePositiveValue(v: Json): (r: Option<int>)
    ensures r.Some? ==> r.value > 0
  {
    match v
    case JString(s) => ParsePositiveText(s)
    case JInt(i) => ParsePositiveText(IntToDecimal(i))
    case _ => None
  }

  /** A JSON integer is taken as it is when positive and ignored otherwise. */
  lemma ParsePositiveInteger(i: int)
    ensures ParsePositiveValue(JInt(i)) == if i > 0 then Some(i) else None
  {
    ParseIntDecimal(i);
  }

  /** `run_command.max_lines`, considered only when both levels are objects. */
  function NestedMaxLines(cfg: Option<Json>): Option<int>
  {
    if cfg.Some? && cfg.value.JObject? then
      var rc := Get(cfg.value.fields, "run_command");
      if rc.JObject? then ParsePositiveValue(Get(rc.fields, "max_lines")) else None
    else None
  }

  /** Top-level `max_lines`, considered only when the file holds an object. */
  function TopLevelMaxLines(cfg: Option<Json>): Option<int>
  {
    if cfg.Some? && cfg.value.JObject? then ParsePositiveValue(Get(cfg.value.fields, "max_lines"))
    else None
  }

  /** The first present value of a list of candidates. */
  function FirstSome(candidates: seq<Option<int>>): (r: Option<int>)
    ensures r.None? <==> forall i :: 0 <= i < |candidates| ==> candidates[i].None?
    ensures r.Some? ==> r in candidates
  {
    if candidates == [] then None
    else if candidates[0].Some? then candidates[0]
    else FirstSome(candidates[1..])
  }

  /** The value chosen is the one at the first present position. */
  lemma {:induction false} FirstSomeIsFirst(candidates: seq<Option<int>>, i: nat)
    requires i < |candidates| && candidates[i].Some?
    requires forall j :: 0 <= j < i ==> candidates[j].None?
    ensures FirstSome(candidates) == candidates[i]
  {
    if i > 0 {
      FirstSomeIsFirst(candidates[1..], i - 1);
    }
  }

  /**
   * `_load_max_lines_from_config_file` once the file has been read: `cfg`
   * is the parsed file, or None when it is missing, unreadable or not JSON.
   */
  method LoadMaxLinesFromConfig(cfg: Option<Json>) returns (r: Option<int>)
    ensures r == FirstSome([NestedMaxLines(cfg), TopLevelMaxLines(cfg)])
    ensures r.Some? ==> r.value > 0
  {
    if cfg.Some? && cfg.value.JObject? {
      var fields := cfg.value.fields;
      var rc := Get(fields, "run_command");
      if rc.JObject? {
        var ml := ParsePositiveValue(Get(rc.fields, "max_lines"));
        if ml.Some? {
          return ml;
        }
      }
      var ml2 := ParsePositiveValue(Get(fields, "max_lines"));
      if ml2.Some? {
        return ml2;
      }
    }
    return None;
  }

  /** The environment variables consulted, in order of precedence. */
  const PrimaryEnv: string := "RUN_COMMAND_MAX_LINES"
  const FallbackEnv: string := "MAX_OUTPUT_LINES"
  const EnvNames: seq<string> := [PrimaryEnv, FallbackEnv]

  /** The value an environment variable contributes: unset, empty or malformed contributes nothing. */
  function EnvMaxLines(env: map<string, string>, name: string): Option<int>
  {
    if name in env then ParsePositiveText(env[name]) else None
  }

  /** Every source of the limit, highest precedence first. */
  function Sources(env: map<string, string>, cfg: Option<Json>): seq<Option<int>>
  {
    [EnvMaxLines(env, EnvNames[0]), EnvMaxLines(env, EnvNames[1]),
     NestedMaxLines(cfg), TopLevelMaxLines(cfg)]
  }

  /** The limit in effect: the first source that yields a value, else the default. */
  function MaxOutputLines(env: map<string, string>, cfg: Option<Json>): int
  {
    FirstSome(Sources(env, cfg)).GetOr(DefaultMaxLines)
  }

  /** `_resolve_max_output_lines`: the environment first, then the config file, then the default. */
  method ResolveMaxOutputLines(env: map<string, string>, cfg: Option<Json>) returns (n: int)
    ensures n == MaxOutputLines(env, cfg)
    ensures n >= 1
  {
    ghost var sources := Sources(env, cfg);
    for i := 0 to |EnvNames|
      invariant forall j :: 0 <= j < i ==> sources[j].None?
    {
      var name := EnvNames[i];
      var ml := if name in env then ParsePositiveText(env[name]) else None;
      if ml.Some? {
        FirstSomeIsFirst(sources, i);
        return ml.value;
      }
    }
    var mlCfg := LoadMaxLinesFromConfig(cfg);
    if mlCfg.Some? {
      if NestedMaxLines(cfg).Some? {
        FirstSomeIsFirst(sources, 2);
      } else {
        FirstSomeIsFirst(sources, 3);
      }
      return mlCfg.value;
    }
    return DefaultMaxLines;
  }

  /** The resolved limit is always positive. */
  lemma MaxOutputLinesPositive(env: map<string, string>, cfg: Option<Json>)
    ensures MaxOutputLines(env, cfg) >= 1
  {
    var r := FirstSome(Sources(env, cfg));
    if r.Some? {
      var i :| 0 <= i < 4 && Sources(env, cfg)[i] == r;
    }
  }

  /** The first present of four candidates, spelled out. */
  lemma FirstSomeOfFour(a: Option<int>, b: Option<int>, c: Option<int>, d: Option<int>)
    ensures FirstSome([a, b, c, d]) == if a.Some? then a else if b.Some? then b else if c.Some? then c else d
  {
    assert [d][1..] == [];
    assert FirstSome([d]) == d;
    assert [c, d][1..] == [d];
    assert FirstSome([c, d]) == if c.Some? then c else d;
    assert [b, c, d][1..] == [c, d];
    assert FirstSome([b, c, d]) == if b.Some? then b else FirstSome([c, d]);
    assert [a, b, c, d][1..] == [b, c, d];
  }

  /** The order of precedence, source by source. */
  lemma MaxOutputLinesOrder(env: map<string, string>, cfg: Option<Json>)
    ensures var a := EnvMaxLines(env, PrimaryEnv);
            a.Some? ==> MaxOutputLines(env, cfg) == a.value
    ensures var a, b := EnvMaxLines(env, PrimaryEnv), EnvMaxLines(env, FallbackEnv);
            a.None? && b.Some? ==> MaxOutputLines(env, cfg) == b.value
    ensures var a, b := EnvMaxLines(env, PrimaryEnv), EnvMaxLines(env, FallbackEnv);
            a.None? && b.None? && NestedMaxLines(cfg).Some? ==> MaxOutputLines(env, cfg) == NestedMaxLines(cfg).value
    ensures var a, b := EnvMaxLines(env, PrimaryEnv), EnvMaxLines(env, FallbackEnv);
            a.None? && b.None? && NestedMaxLines(cfg).None? && TopLevelMaxLines(cfg).Some? ==>
              MaxOutputLines(env, cfg) == TopLevelMaxLines(cfg).value
    ensures (forall i :: 0 <= i < 4 ==> Sources(env, cfg)[i].None?) ==> MaxOutputLines(env, cfg) == DefaultMaxLines
  {
    var s := Sources(env, cfg);
    FirstSomeOfFour(s[0], s[1], s[2], s[3]);
    assert s == [s[0], s[1], s[2], s[3]];
  }

  /** Empty text contributes nothing. */
  lemma EmptyTextRejected()
    ensures ParsePositiveText([]) == None
  {
    assert Strip([]) == [];
  }

  /** Zero, however many digits it is written with, contributes nothing. */
  lemma ZeroTextRejected(d: string)
    requires d != [] && AllDigits(d) && DigitsValue(d) == 0
    ensures ParsePositiveText(d) == None
  {
    ParseDigits(d);
  }

  /** A negative number contributes nothing. */
  lemma NegativeTextRejected(d: string)
    requires d != [] && AllDigits(d)
    ensures ParsePositiveText(['-'] + d) == None
  {
    ParseNegatedDigits(d);
  }

  /** White space, however much, around a positive number is ignored. */
  lemma PaddedTextAccepted(a: string, d: string, b: string)
    requires forall k :: 0 <= k < |a| ==> IsSpace(a[k])
    requires forall k :: 0 <= k < |b| ==> IsSpace(b[k])
    requires d != [] && AllDigits(d) && DigitsValue(d) > 0
    ensures ParsePositiveText(a + d + b) == Some(DigitsValue(d))
  {
    assert IsDigit(d[0]) && IsDigit(d[|d| - 1]);
    StripPadded(a, d, b);
    assert ParseInt(a + d + b) == ParseSigned(d);
  }

  /** `strip` removes exactly the white space around text whose ends are not white space. */
  lemma StripPadded(a: string, t: string, b: string)
    requires forall k :: 0 <= k < |a| ==> IsSpace(a[k])
    requires forall k :: 0 <= k < |b| ==> IsSpace(b[k])
    requires t != [] && !IsSpace(t[0]) && !IsSpace(t[|t| - 1])
    ensures Strip(a + t + b) == t
  {
    var tail := t + b;
    assert tail[0] == t[0];
    LeadingSpaceTrimmed(a, tail);
    assert a + t + b == a + tail;
    TrailingSpaceTrimmed(t, b);
  }

  /** `lstrip` drops a leading run of white space in front of a non-space character. */
  lemma {:induction false} LeadingSpaceTrimmed(a: string, t: string)
    requires forall k :: 0 <= k < |a| ==> IsSpace(a[k])
    requires t != [] && !IsSpace(t[0])
    ensures TrimStart(a + t) == t
  {
    if a != [] {
      assert (a + t)[1..] == a[1..] + t;
      LeadingSpaceTrimmed(a[1..], t);
    } else {
      assert a + t == t;
    }
  }

  /** `rstrip` drops a trailing run of white space after a non-space character. */
  lemma {:induction false} TrailingSpaceTrimmed(t: string, b: string)
    requires forall k :: 0 <= k < |b| ==> IsSpace(b[k])
    requires t != [] && !IsSpace(t[|t| - 1])
    ensures TrimEnd(t + b) == t
  {
    if b != [] {
      assert (t + b)[..|t + b| - 1] == t + b[..|b| - 1];
      TrailingSpaceTrimmed(t, b[..|b| - 1]);
    } else {
      assert t + b == t;
    }
  }
}
