/**
 * The pure helpers of the broker client that turn its loosely typed JSON
 * payloads into trade rows: side and truthiness normalisation, key
 * fallbacks, tolerant number and text conversion, timestamp-text
 * normalisation toward RFC 3339 (section 5.6) date-time syntax, the row
 * normalisation loop of a trade-history fetch and one polling batch of the
 * trade stream.
 */
module ProjectxClient {
  import opened Wrappers
  import opened Text
  import opened Sequences
  import opened Sorting

  /** A decoded JSON value as Python sees it; Python's `bool` is kept apart from `int`. */
  datatype PyValue =
    | PyNone
    | PyBool(b: bool)
    | PyInt(i: int)
    | PyFloat(f: real)
    | PyStr(s: string)
    | PyList(items: seq<PyValue>)
    | PyDict(fields: map<string, PyValue>)

  /**
   * The Python library conversions the helpers rely on and the model does
   * not define: `float(str)`, `str(float)`, `str()` of a list or dict, and
   * `_parse_datetime` (integer microseconds since the epoch, UTC).
   */
  datatype PyLib = PyLib(
    parseFloat: string -> Option<real>,
    floatText: real -> string,
    reprText: PyValue -> string,
    parseDatetime: PyValue -> Option<int>)

  /** `int(x)` of a float: truncation toward zero. */
  function Truncate(x: real): (r: int)
    ensures x >= 0.0 ==> 0 <= r && r as real <= x < r as real + 1.0
    ensures x < 0.0 ==> r <= 0 && r as real - 1.0 < x <= r as real
  {
    if x >= 0.0 then x.Floor else -((-x).Floor)
  }

  /** `int(x)` of a Python number; `True` and `False` are the integers 1 and 0. */
  function NumberToInt(value: PyValue): (r: Option<int>)
    ensures r.Some? <==> value.PyBool? || value.PyInt? || value.PyFloat?
  {
    match value
    case PyBool(b) => Some(if b then 1 else 0)
    case PyInt(i) => Some(i)
    case PyFloat(f) => Some(Truncate(f))
    case _ => None
  }

  const BUY_WORDS: set<string> := {"BUY", "LONG", "BID"}
  const SELL_WORDS: set<string> := {"SELL", "SHORT", "ASK"}

  /** The three answers of `_normalize_side`. */
  datatype Side = Buy | Sell | UnknownSide

  function SideText(side: Side): (r: string)
    ensures r in {"BUY", "SELL", "UNKNOWN"}
  {
    match side
    case Buy => "BUY"
    case Sell => "SELL"
    case UnknownSide => "UNKNOWN"
  }

  /** Distinct sides are written differently. */
  lemma SideTextInjective(a: Side, b: Side)
    ensures SideText(a) == SideText(b) ==> a == b
  {
  }

  /** How `_normalize_side` reads a stripped, uppercased side text. */
  function SideOfWord(text: string): (r: Side)
    ensures r == Buy <==> text in BUY_WORDS
    ensures r == Sell <==> text in SELL_WORDS
  {
    if text in BUY_WORDS then Buy
    else if text in SELL_WORDS then Sell
    else UnknownSide
  }

  /** How `_normalize_side` reads a number: 0 is BUY, 1 is SELL. */
  function SideOfCode(numeric: Option<int>): (r: Side)
    ensures r == Buy <==> numeric == Some(0)
    ensures r == Sell <==> numeric == Some(1)
  {
    if numeric == Some(0) then Buy
    else if numeric == Some(1) then Sell
    else UnknownSide
  }

  /**
   * `_normalize_side`: a text side is stripped and uppercased and read by
   * its synonyms; a number (a bool counts as one) is truncated, 0 meaning
   * BUY and 1 SELL; everything else is UNKNOWN.
   */
  function NormalizeSide(raw: PyValue): (r: Side)
    ensures raw.PyStr? ==> (r == Buy <==> Upper(PyStrip(raw.s)) in BUY_WORDS)
    ensures raw.PyStr? ==> (r == Sell <==> Upper(PyStrip(raw.s)) in SELL_WORDS)
    ensures !raw.PyStr? ==> (r == Buy <==> NumberToInt(raw) == Some(0))
    ensures !raw.PyStr? ==> (r == Sell <==> NumberToInt(raw) == Some(1))
  {
    if raw.PyStr? then SideOfWord(Upper(PyStrip(raw.s)))
    else SideOfCode(NumberToInt(raw))
  }

  /** A side that was already normalised reads back as itself. */
  lemma NormalizeSideOfText(side: Side)
    ensures NormalizeSide(PyStr(SideText(side))) == side
  {
    var t := SideText(side);
    assert SideOfWord(t) == side by {
      match side
      case Buy => assert t in BUY_WORDS;
      case Sell => assert t !in BUY_WORDS && t in SELL_WORDS;
      case UnknownSide => assert t !in BUY_WORDS && t !in SELL_WORDS;
    }
    assert Upper(PyStrip(t)) == t by {
      match side
      case Buy => NormalizedWordReadsBack("BUY");
      case Sell => NormalizedWordReadsBack("SELL");
      case UnknownSide => NormalizedWordReadsBack("UNKNOWN");
    }
  }

  /** Stripping and uppercasing leave an uppercase word without surrounding space as it is. */
  lemma NormalizedWordReadsBack(t: string)
    requires t != [] && !IsPySpace(t[0]) && !IsPySpace(t[|t| - 1]) && NoLowerAscii(t)
    ensures Upper(PyStrip(t)) == t
  {
    TrimFixedPoint(t, IsPySpace);
    UpperOfNoLower(t);
  }

  const TRUE_WORDS: set<string> := {"1", "true", "yes", "y", "on"}

  /** `_is_truthy`: booleans as they are, numbers when non-zero, text when it spells yes; nothing else. */
  predicate IsTruthy(value: PyValue)
  {
    match value
    case PyBool(b) => b
    case PyInt(i) => i != 0
    case PyFloat(f) => f != 0.0
    case PyStr(s) => Lower(PyStrip(s)) in TRUE_WORDS
    case _ => false
  }

  /** Truthiness is blind to surrounding space and letter case. */
  lemma IsTruthyNormalises(s: string)
    ensures IsTruthy(PyStr(s)) == IsTruthy(PyStr(Lower(PyStrip(s))))
  {
    PyStripLowerIdempotent(s);
  }

  /**
   * `_first_value`: the value under the first of `keys` the payload has,
   * even when that value is None; None when it has none of them.
   */
  function FirstValue(payload: map<string, PyValue>, keys: seq<string>): (r: PyValue)
    ensures (forall k :: 0 <= k < |keys| ==> keys[k] !in payload) ==> r == PyNone
    ensures (exists k :: 0 <= k < |keys| && keys[k] in payload) ==>
              exists k :: 0 <= k < |keys| && keys[k] in payload && r == payload[keys[k]]
                           && forall j :: 0 <= j < k ==> keys[j] !in payload
  {
    if keys == [] then PyNone
    else if keys[0] in payload then payload[keys[0]]
    else
      var r := FirstValue(payload, keys[1..]);
      assert forall k :: 1 <= k < |keys| ==> keys[k] == keys[1..][k - 1];
      r
  }

  /**
   * `_unwrap_list`: a list is returned as is; from a dict, the first value
   * under a preferred key that is a list; otherwise the empty list.
   */
  function UnwrapList(payload: PyValue, preferredKeys: seq<string>): (r: seq<PyValue>)
    ensures payload.PyList? ==> r == payload.items
    ensures !payload.PyList? && !payload.PyDict? ==> r == []
    ensures payload.PyDict? && r != [] ==>
              exists k :: 0 <= k < |preferredKeys| && preferredKeys[k] in payload.fields
                          && payload.fields[preferredKeys[k]] == PyList(r)
  {
    match payload
    case PyList(items) => items
    case PyDict(fields) => FirstList(fields, preferredKeys)
    case _ => []
  }

  /** The search over the preferred keys; `dict.get` reads a missing key as None, which is not a list. */
  function FirstList(fields: map<string, PyValue>, keys: seq<string>): (r: seq<PyValue>)
    ensures (forall k :: 0 <= k < |keys| ==> keys[k] !in fields || !fields[keys[k]].PyList?) ==> r == []
    ensures r != [] ==> exists k :: 0 <= k < |keys| && keys[k] in fields && fields[keys[k]] == PyList(r)
    ensures (exists k :: 0 <= k < |keys| && keys[k] in fields && fields[keys[k]].PyList?) ==>
              exists k :: 0 <= k < |keys| && keys[k] in fields && fields[keys[k]] == PyList(r)
                          && forall j :: 0 <= j < k ==> keys[j] !in fields || !fields[keys[j]].PyList?
  {
    if keys == [] then []
    else if keys[0] in fields && fields[keys[0]].PyList? then fields[keys[0]].items
    else
      var r := FirstList(fields, keys[1..]);
      assert forall k :: 1 <= k < |keys| ==> keys[k] == keys[1..][k - 1];
      r
  }

  /** `_safe_float`: None and values `float()` rejects give the default. */
  function SafeFloat(value: PyValue, default: real, lib: PyLib): (r: real)
    ensures value.PyNone? || value.PyList? || value.PyDict? ==> r == default
    ensures value.PyInt? ==> r == value.i as real
    ensures value.PyFloat? ==> r == value.f
    ensures value.PyStr? ==> r == lib.parseFloat(value.s).GetOr(default)
  {
    match value
    case PyNone => default
    case PyBool(b) => if b then 1.0 else 0.0
    case PyInt(i) => i as real
    case PyFloat(f) => f
    case PyStr(s) => lib.parseFloat(s).GetOr(default)
    case _ => default
  }

  /**
   * Decimal digits with single underscores between them: the digit part
   * `int()` accepts in base 10.
   */
  predicate IsUnderscoredDigits(s: string) {
    s != [] && IsDigit(s[0]) && IsDigit(s[|s| - 1])
    && (forall k :: 0 <= k < |s| ==> IsDigit(s[k]) || s[k] == '_')
    && (forall k :: 0 <= k < |s| - 1 ==> s[k] == '_' ==> s[k + 1] != '_')
  }

  /** The text with its underscores removed. */
  function DropUnderscores(s: string): (r: string)
    ensures (forall k :: 0 <= k < |s| ==> IsDigit(s[k]) || s[k] == '_') ==> AllDigits(r)
    ensures AllDigits(s) ==> r == s
  {
    if s == [] then [] else (if s[0] == '_' then [] else [s[0]]) + DropUnderscores(s[1..])
  }

  lemma {:induction false} DropUnderscoresConcat(a: string, b: string)
    ensures DropUnderscores(a + b) == DropUnderscores(a) + DropUnderscores(b)
    decreases |a|
  {
    if a == [] {
      assert a + b == b;
    } else {
      assert (a + b)[1..] == a[1..] + b;
      DropUnderscoresConcat(a[1..], b);
    }
  }

  /**
   * `int(text)`: surrounding space is ignored, then an optional sign and
   * decimal digits, single underscores allowed between digits, must make up
   * all of what is left.
   */
  function ParseIntText(text: string): (r: Option<int>)
    ensures r.Some? <==> PyStrip(text) != [] && IsUnderscoredDigits(UnsignedPart(PyStrip(text)))
    ensures r.Some? && PyStrip(text)[0] == '-' ==> r.value <= 0
    ensures r.Some? && PyStrip(text)[0] != '-' ==> r.value >= 0
  {
    var t := PyStrip(text);
    if t == [] then None
    else
      var digits := UnsignedPart(t);
      if IsUnderscoredDigits(digits) then
        var n: int := DigitsValue(DropUnderscores(digits));
        Some(if t[0] == '-' then -n else n)
      else None
  }

  /** What follows an optional leading sign. */
  function UnsignedPart(t: string): string
    requires t != []
  {
    if t[0] == '-' || t[0] == '+' then t[1..] else t
  }

  /** `int()` reads back what `str()` writes for any integer. */
  lemma ParseIntRoundTrip(i: int)
    ensures ParseIntText(IntToString(i)) == Some(i)
  {
    var s := IntToString(i);
    if i < 0 {
      var digits := NatToString(-i);
      assert s == "-" + digits;
      assert s[1..] == digits;
      assert !IsPySpace(s[|s| - 1]) by {
        assert s[|s| - 1] == digits[|digits| - 1];
      }
      TrimFixedPoint(s, IsPySpace);
      assert UnsignedPart(s) == digits;
    } else {
      assert IsDigit(s[0]) && IsDigit(s[|s| - 1]);
      TrimFixedPoint(s, IsPySpace);
      assert UnsignedPart(s) == s;
    }
  }

  lemma JoinedDigitsAreUnderscored(a: string, b: string)
    requires a != [] && b != [] && AllDigits(a) && AllDigits(b)
    ensures IsUnderscoredDigits(a + "_" + b)
  {
    var t := a + "_" + b;
    assert forall k :: 0 <= k < |t| ==> t[k] == (if k < |a| then a[k] else if k == |a| then '_' else b[k - |a| - 1]);
  }

  lemma DropSeparator(a: string, b: string)
    requires AllDigits(a) && AllDigits(b)
    ensures DropUnderscores(a + "_" + b) == a + b
  {
    var sep := DropUnderscores("_");
    assert sep == [];
    DropUnderscoresConcat(a, "_");
    var left := DropUnderscores(a + "_");
    assert left == a + sep == a;
    DropUnderscoresConcat(a + "_", b);
    assert DropUnderscores(a + "_" + b) == left + DropUnderscores(b);
  }

  /** Unsigned digit text is read as the number its digits spell. */
  lemma ParseUnsignedDigits(t: string)
    requires IsUnderscoredDigits(t)
    ensures ParseIntText(t) == Some(DigitsValue(DropUnderscores(t)))
  {
    TrimFixedPoint(t, IsPySpace);
    assert UnsignedPart(t) == t;
  }

  /** An underscore between two digit runs is only a separator: it does not change the value. */
  lemma UnderscoreSeparatesDigits(a: string, b: string)
    requires a != [] && b != [] && AllDigits(a) && AllDigits(b)
    ensures ParseIntText(a + "_" + b) == ParseIntText(a + b) == Some(DigitsValue(a + b))
  {
    var plain := a + b;
    assert plain[0] == a[0] && plain[|plain| - 1] == b[|b| - 1];
    assert AllDigits(plain);
    ParseUnsignedDigits(plain);
    JoinedDigitsAreUnderscored(a, b);
    DropSeparator(a, b);
    ParseUnsignedDigits(a + "_" + b);
  }

  /** Two underscores in a row are not a separator, so the text is rejected. */
  lemma DoubleUnderscoreRejected(a: string, b: string)
    requires a != [] && b != [] && AllDigits(a) && AllDigits(b)
    ensures ParseIntText(a + "__" + b) == None
  {
    var t := a + "__" + b;
    assert t[0] == a[0] && t[|t| - 1] == b[|b| - 1];
    TrimFixedPoint(t, IsPySpace);
    assert UnsignedPart(t) == t;
    assert t[|a|] == '_' && t[|a| + 1] == '_';
  }

  /** An underscore may not lead the digits. */
  lemma LeadingUnderscoreRejected(a: string)
    requires a != [] && AllDigits(a)
    ensures ParseIntText("_" + a) == None
  {
    var t := "_" + a;
    assert t[|t| - 1] == a[|a| - 1];
    TrimFixedPoint(t, IsPySpace);
    assert UnsignedPart(t) == t;
  }

  /** `_safe_int`: None, and anything `int()` rejects, is None. */
  function SafeInt(value: PyValue): (r: Option<int>)
    ensures value.PyNone? || value.PyList? || value.PyDict? ==> r == None
    ensures value.PyInt? ==> r == Some(value.i)
    ensures value.PyFloat? ==> r == Some(Truncate(value.f))
    ensures value.PyBool? ==> r == Some(if value.b then 1 else 0)
    ensures value.PyStr? ==> r == ParseIntText(value.s)
  {
    match value
    case PyStr(s) => ParseIntText(s)
    case _ => NumberToInt(value)
  }

  /** `str(value)` for the values the model spells out, the library for the rest. */
  function StrOf(value: PyValue, lib: PyLib): string
  {
    match value
    case PyNone => "None"
    case PyBool(b) => if b then "True" else "False"
    case PyInt(i) => IntToString(i)
    case PyFloat(f) => lib.floatText(f)
    case PyStr(s) => s
    case _ => lib.reprText(value)
  }

  /** `_string_or_none`: None and blank text are None; anything else is its stripped text. */
  function StringOrNone(value: PyValue, lib: PyLib): (r: Option<string>)
    ensures value.PyNone? ==> r == None
    ensures value.PyStr? ==> (r == None <==> PyStrip(value.s) == [])
    ensures r.Some? ==> r.value != [] && !IsPySpace(r.value[0]) && !IsPySpace(r.value[|r.value| - 1])
    ensures value.PyStr? && r.Some? ==> r.value == PyStrip(value.s)
    ensures !value.PyStr? && r.Some? ==> r.value == PyStrip(StrOf(value, lib))
  {
    if value.PyNone? then None
    else
      var text := PyStrip(if value.PyStr? then value.s else StrOf(value, lib));
      if text == [] then None else Some(text)
  }

  /**
   * Text of the shape `_string_or_none` produces (non-empty, no space at
   * either end) comes back unchanged: the normalisation is idempotent.
   */
  lemma StringOrNoneIdempotent(text: string, lib: PyLib)
    requires text != [] && !IsPySpace(text[0]) && !IsPySpace(text[|text| - 1])
    ensures StringOrNone(PyStr(text), lib) == Some(text)
  {
    TrimFixedPoint(text, IsPySpace);
  }

  /** Decimal text starts with a digit or a minus sign and ends with a digit. */
  lemma IntTextIsStripped(i: int)
    ensures PyStrip(IntToString(i)) == IntToString(i)
  {
    var s := IntToString(i);
    if i < 0 {
      var digits := NatToString(-i);
      assert s == "-" + digits;
      assert s[|s| - 1] == digits[|digits| - 1];
    } else {
      assert IsDigit(s[0]) && IsDigit(s[|s| - 1]);
    }
    TrimFixedPoint(s, IsPySpace);
  }

  /** An integer id's text is its decimal digits. */
  lemma StringOrNoneOfInt(i: int, lib: PyLib)
    ensures StringOrNone(PyInt(i), lib) == Some(IntToString(i))
  {
    IntTextIsStripped(i);
    assert StrOf(PyInt(i), lib) == IntToString(i);
  }

  /** `raw.replace("Z", "+00:00")`: every `Z` becomes the UTC offset. */
  function ReplaceZ(s: string): (r: string)
    ensures forall k :: 0 <= k < |r| ==> r[k] != 'Z'
    ensures (forall k :: 0 <= k < |s| ==> s[k] != 'Z') ==> r == s
  {
    if s == [] then []
    else if s[0] == 'Z' then "+00:00" + ReplaceZ(s[1..])
    else [s[0]] + ReplaceZ(s[1..])
  }

  /** `s` has the shape of `pattern`, where `d` stands for an ASCII digit and any other character for itself. */
  predicate MatchesPattern(s: string, pattern: string) {
    |s| == |pattern|
    && forall k :: 0 <= k < |s| ==> if pattern[k] == 'd' then IsDigit(s[k]) else s[k] == pattern[k]
  }

  /** The date and time of day up to whole seconds. */
  const ISO_PREFIX_PATTERN := "dddd-dd-ddTdd:dd:dd"

  predicate IsSign(c: char) { c == '+' || c == '-' }

  /** A UTC offset as the pattern admits it: `+HH:MM` or `+HHMM`, either sign. */
  predicate IsOffset(o: string) {
    |o| >= 1 && IsSign(o[0]) && (MatchesPattern(o[1..], "dd:dd") || MatchesPattern(o[1..], "dddd"))
  }

  /** What `$` accepts at the end: the end itself, or a single final newline. */
  predicate IsEnd(rest: string) { rest == "" || rest == "\n" }

  /** The three groups of the pattern. */
  datatype IsoParts = IsoParts(prefix: string, fraction: string, offset: string)

  predicate WellFormedParts(p: IsoParts) {
    MatchesPattern(p.prefix, ISO_PREFIX_PATTERN)
    && AllDigits(p.fraction)
    && (p.offset == "" || IsOffset(p.offset))
  }

  function FractionText(fraction: string): string {
    if fraction == "" then "" else "." + fraction
  }

  /** The text whose match gives `p`, followed by what `$` lets through. */
  function Compose(p: IsoParts, end: string): string {
    p.prefix + FractionText(p.fraction) + p.offset + end
  }

  /** The length of the run of ASCII digits that `s` starts with. */
  function LeadingDigits(s: string): (n: nat)
    ensures n <= |s| && AllDigits(s[..n])
    ensures n < |s| ==> !IsDigit(s[n])
  {
    if s != [] && IsDigit(s[0]) then
      var n := 1 + LeadingDigits(s[1..]);
      assert forall k :: 1 <= k < n ==> s[..n][k] == s[1..][..n - 1][k - 1];
      n
    else 0
  }

  /** The optional offset group and the end anchor, after the prefix and fraction. */
  function MatchOffset(prefix: string, fraction: string, rest: string): (r: Option<IsoParts>)
    ensures r.Some? ==> r.value.prefix == prefix && r.value.fraction == fraction
    ensures r.Some? ==> (r.value.offset == "" || IsOffset(r.value.offset))
    ensures r.Some? ==> rest == r.value.offset || rest == r.value.offset + "\n"
  {
    if IsEnd(rest) then Some(IsoParts(prefix, fraction, ""))
    else if |rest| >= 6 && IsOffset(rest[..6]) && IsEnd(rest[6..]) then
      Some(IsoParts(prefix, fraction, rest[..6]))
    else if |rest| >= 5 && IsOffset(rest[..5]) && IsEnd(rest[5..]) then
      Some(IsoParts(prefix, fraction, rest[..5]))
    else None
  }

  /**
   * `re.match` of the timestamp pattern: the whole-second prefix, an
   * optional `.` and digits taken greedily, an optional offset, and the end
   * (`$` also accepts a single final newline). The pattern cannot
   * backtrack into another match, so the match is a function of the text.
   */
  function MatchIso(text: string): Option<IsoParts>
  {
    if |text| < 19 || !MatchesPattern(text[..19], ISO_PREFIX_PATTERN) then None
    else
      var rest := text[19..];
      if rest != [] && rest[0] == '.' then
        var n := LeadingDigits(rest[1..]);
        if n == 0 then None
        else MatchOffset(text[..19], rest[1..1 + n], rest[1 + n..])
      else MatchOffset(text[..19], "", rest)
  }

  /** A match has well-formed groups, and the text is exactly those groups followed by what `$` accepts. */
  lemma MatchIsoSound(text: string)
    ensures MatchIso(text).Some? ==> WellFormedParts(MatchIso(text).value)
    ensures MatchIso(text).Some? ==>
              text == Compose(MatchIso(text).value, "") || text == Compose(MatchIso(text).value, "\n")
  {
    if |text| >= 19 && MatchesPattern(text[..19], ISO_PREFIX_PATTERN) {
      if |text| > 19 && text[19] == '.' {
        MatchIsoSoundFraction(text);
      } else {
        MatchIsoSoundPlain(text);
      }
    }
  }

  lemma MatchIsoSoundFraction(text: string)
    requires |text| > 19 && MatchesPattern(text[..19], ISO_PREFIX_PATTERN) && text[19] == '.'
    ensures MatchIso(text).Some? ==> WellFormedParts(MatchIso(text).value)
    ensures MatchIso(text).Some? ==>
              text == Compose(MatchIso(text).value, "") || text == Compose(MatchIso(text).value, "\n")
  {
    var prefix := text[..19];
    var n := LeadingDigits(text[20..]);
    if n > 0 {
      MatchIsoWithFraction(text, n);
      var fraction := text[20..20 + n];
      var r := MatchOffset(prefix, fraction, text[20 + n..]);
      if r.Some? {
        assert AllDigits(fraction) by {
          assert text[20..][..n] == fraction;
        }
        SplitAtFraction(text, n);
        ComposeOfRest(r.value, text[20 + n..], text);
      }
    }
  }

  lemma SplitAtFraction(text: string, n: nat)
    requires n > 0 && |text| >= 20 + n && text[19] == '.'
    ensures text == text[..19] + FractionText(text[20..20 + n]) + text[20 + n..]
  {
    assert text[..20 + n] == text[..19] + ("." + text[20..20 + n]);
    assert text == text[..20 + n] + text[20 + n..];
  }

  /** A text made of the groups of `p` and a rest that `$` accepts after the offset. */
  lemma ComposeOfRest(p: IsoParts, rest: string, text: string)
    requires text == p.prefix + FractionText(p.fraction) + rest
    requires rest == p.offset || rest == p.offset + "\n"
    ensures text == Compose(p, "") || text == Compose(p, "\n")
  {
    if rest != p.offset {
      assert Compose(p, "\n") == p.prefix + FractionText(p.fraction) + (p.offset + "\n");
    }
  }

  lemma MatchIsoSoundPlain(text: string)
    requires |text| >= 19 && MatchesPattern(text[..19], ISO_PREFIX_PATTERN)
    requires |text| == 19 || text[19] != '.'
    ensures MatchIso(text).Some? ==> WellFormedParts(MatchIso(text).value)
    ensures MatchIso(text).Some? ==>
              text == Compose(MatchIso(text).value, "") || text == Compose(MatchIso(text).value, "\n")
  {
    MatchIsoWithoutFraction(text);
    var r := MatchOffset(text[..19], "", text[19..]);
    if r.Some? {
      assert AllDigits(r.value.fraction);
      assert text == text[..19] + FractionText("") + text[19..];
      ComposeOfRest(r.value, text[19..], text);
    }
  }

  lemma {:induction false} LeadingDigitsOfConcat(a: string, b: string)
    requires AllDigits(a) && (b == [] || !IsDigit(b[0]))
    ensures LeadingDigits(a + b) == |a|
    decreases |a|
  {
    if a != [] {
      assert (a + b)[1..] == a[1..] + b;
      LeadingDigitsOfConcat(a[1..], b);
    } else {
      assert a + b == b;
    }
  }

  /** Every text of the pattern's shape matches, with exactly its own groups. */
  lemma MatchIsoComplete(p: IsoParts, end: string)
    requires WellFormedParts(p) && IsEnd(end)
    ensures MatchIso(Compose(p, end)) == Some(p)
  {
    var text := Compose(p, end);
    var tail := p.offset + end;
    assert text == p.prefix + (FractionText(p.fraction) + tail);
    assert tail == [] || !IsDigit(tail[0]) by {
      if p.offset == "" { assert tail == end; } else { assert tail[0] == p.offset[0]; }
    }
    MatchOffsetComplete(p.prefix, p.fraction, p.offset, end);
    if p.fraction != "" {
      MatchIsoCompleteFraction(text, p.prefix, p.fraction, tail);
    } else {
      assert text == p.prefix + tail;
      assert text[..19] == p.prefix && text[19..] == tail;
      MatchIsoWithoutFraction(text);
    }
  }

  lemma MatchIsoCompleteFraction(text: string, prefix: string, fraction: string, tail: string)
    requires text == prefix + ("." + fraction + tail)
    requires MatchesPattern(prefix, ISO_PREFIX_PATTERN)
    requires fraction != "" && AllDigits(fraction) && (tail == [] || !IsDigit(tail[0]))
    ensures MatchIso(text) == MatchOffset(prefix, fraction, tail)
  {
    var n := |fraction|;
    assert text[..19] == prefix;
    assert text[19] == '.';
    assert text[20..] == fraction + tail;
    LeadingDigitsOfConcat(fraction, tail);
    assert text[20..20 + n] == fraction && text[20 + n..] == tail;
    MatchIsoWithFraction(text, n);
  }

  lemma MatchIsoWithFraction(text: string, n: nat)
    requires |text| >= 19 && MatchesPattern(text[..19], ISO_PREFIX_PATTERN)
    requires |text| >= 20 + n && text[19] == '.' && 0 < LeadingDigits(text[20..]) == n
    ensures MatchIso(text) == MatchOffset(text[..19], text[20..20 + n], text[20 + n..])
  {
    var rest := text[19..];
    assert rest[1..] == text[20..];
    assert rest[1..1 + n] == text[20..20 + n];
    assert rest[1 + n..] == text[20 + n..];
  }

  lemma MatchIsoWithoutFraction(text: string)
    requires |text| >= 19 && MatchesPattern(text[..19], ISO_PREFIX_PATTERN)
    requires |text| == 19 || text[19] != '.'
    ensures MatchIso(text) == MatchOffset(text[..19], "", text[19..])
  {
  }

  lemma MatchOffsetComplete(prefix: string, fraction: string, offset: string, end: string)
    requires (offset == "" || IsOffset(offset)) && IsEnd(end)
    ensures MatchOffset(prefix, fraction, offset + end) == Some(IsoParts(prefix, fraction, offset))
  {
    var rest := offset + end;
    if offset == "" {
      assert rest == end;
    } else if MatchesPattern(offset[1..], "dd:dd") {
      assert !IsEnd(rest);
      assert rest[..6] == offset && rest[6..] == end;
    } else {
      assert !IsEnd(rest);
      assert |rest| >= 6 ==> rest[..6][1..][2] == offset[3];
      assert |rest| >= 6 ==> !IsOffset(rest[..6]);
      assert rest[..5] == offset && rest[5..] == end;
    }
  }

  /** `(fraction + "000000")[:6]`: cut or padded with zeros to microseconds. */
  function Microseconds(fraction: string): string
    requires |fraction| >= 1
  {
    (fraction + "000000")[..6]
  }

  /** The six digits keep the fraction's leading digits and pad the rest with zeros. */
  lemma MicrosecondsMeaning(fraction: string)
    requires |fraction| >= 1 && AllDigits(fraction)
    ensures |Microseconds(fraction)| == 6 && AllDigits(Microseconds(fraction))
    ensures forall k :: 0 <= k < 6 && k < |fraction| ==> Microseconds(fraction)[k] == fraction[k]
    ensures forall k :: |fraction| <= k < 6 ==> Microseconds(fraction)[k] == '0'
  {
    var padded := fraction + "000000";
    assert forall k :: 0 <= k < 6 ==> Microseconds(fraction)[k] == padded[k];
  }

  /** `+HHMM` gains its colon; `+HH:MM` (or no offset) stays. */
  function ColonOffset(offset: string): string {
    if |offset| == 5 then offset[..3] + ":" + offset[3..] else offset
  }

  /** The offset in colon form, with its sign and digits unchanged. */
  lemma ColonOffsetMeaning(offset: string)
    requires IsOffset(offset)
    ensures IsColonOffset(ColonOffset(offset))
    ensures ColonOffset(offset)[0] == offset[0]
    ensures |offset| == 5 ==> ColonOffset(offset)[1..3] == offset[1..3] && ColonOffset(offset)[4..] == offset[3..]
    ensures |offset| == 6 ==> ColonOffset(offset) == offset
  {
    var c := ColonOffset(offset);
    if |offset| == 5 {
      assert c[1..][0] == offset[1] && c[1..][1] == offset[2] && c[1..][2] == ':';
      assert c[1..][3] == offset[3] && c[1..][4] == offset[4];
    }
  }

  predicate IsColonOffset(o: string) {
    |o| >= 1 && IsSign(o[0]) && MatchesPattern(o[1..], "dd:dd")
  }

  function NormalizeParts(p: IsoParts): IsoParts
  {
    IsoParts(p.prefix, if p.fraction == "" then "" else Microseconds(p.fraction), ColonOffset(p.offset))
  }

  /** The groups of a normalised timestamp: six fraction digits or none, and a colon offset or none. */
  predicate CanonicalParts(p: IsoParts) {
    MatchesPattern(p.prefix, ISO_PREFIX_PATTERN)
    && (p.fraction == "" || (|p.fraction| == 6 && AllDigits(p.fraction)))
    && (p.offset == "" || IsColonOffset(p.offset))
  }

  /**
   * `_normalize_iso_datetime`: `Z` becomes `+00:00`; text of the pattern's
   * shape is rebuilt with microsecond precision and a colon offset; any
   * other text is returned with only the `Z` replaced.
   */
  function NormalizeIsoDatetime(raw: string): (r: string)
    ensures MatchIso(ReplaceZ(raw)).None? ==> r == ReplaceZ(raw)
    ensures MatchIso(ReplaceZ(raw)).Some? ==>
              var m := MatchIso(ReplaceZ(raw)).value;
              exists p :: CanonicalParts(p) && r == Compose(p, "")
                          && p.prefix == m.prefix
                          && p.fraction == (if m.fraction == "" then "" else Microseconds(m.fraction))
                          && p.offset == (if m.offset == "" then "" else ColonOffset(m.offset))
  {
    var text := ReplaceZ(raw);
    match MatchIso(text)
    case None => text
    case Some(p) =>
      MatchIsoSound(text);
      NormalizePartsCanonical(p);
      Compose(NormalizeParts(p), "")
  }

  lemma NormalizePartsCanonical(p: IsoParts)
    requires WellFormedParts(p)
    ensures CanonicalParts(NormalizeParts(p))
  {
    if p.fraction != "" {
      MicrosecondsMeaning(p.fraction);
    }
    if p.offset != "" {
      ColonOffsetMeaning(p.offset);
    }
  }

  /** A normalised timestamp's groups are kept when it is normalised again. */
  lemma NormalizePartsFixed(q: IsoParts)
    requires CanonicalParts(q)
    ensures WellFormedParts(q) && NormalizeParts(q) == q
  {
    if q.fraction != "" {
      assert (q.fraction + "000000")[..6] == q.fraction;
    }
  }

  /** Only the text after the `Z` replacement matters, so replacing first changes nothing. */
  lemma NormalizeAfterReplaceZ(raw: string)
    ensures NormalizeIsoDatetime(ReplaceZ(raw)) == NormalizeIsoDatetime(raw)
  {
    assert ReplaceZ(ReplaceZ(raw)) == ReplaceZ(raw);
  }

  /** The replacement works character by character. */
  lemma {:induction false} ReplaceZConcat(a: string, b: string)
    ensures ReplaceZ(a + b) == ReplaceZ(a) + ReplaceZ(b)
    decreases |a|
  {
    if a == [] {
      assert a + b == b;
    } else {
      assert (a + b)[1..] == a[1..] + b;
      ReplaceZConcat(a[1..], b);
    }
  }

  predicate NoZ(s: string) { forall k :: 0 <= k < |s| ==> s[k] != 'Z' }

  lemma NoZConcat(a: string, b: string)
    requires NoZ(a) && NoZ(b)
    ensures NoZ(a + b)
  {
    assert forall k :: |a| <= k < |a + b| ==> (a + b)[k] == b[k - |a|];
  }

  lemma PatternHasNoZ(s: string, pattern: string)
    requires MatchesPattern(s, pattern) && NoZ(pattern)
    ensures NoZ(s)
  {
  }

  /** No well-formed timestamp text contains a `Z`. */
  lemma WellFormedHasNoZ(q: IsoParts)
    requires WellFormedParts(q)
    ensures NoZ(Compose(q, ""))
  {
    PatternHasNoZ(q.prefix, ISO_PREFIX_PATTERN);
    assert NoZ(FractionText(q.fraction));
    if q.offset != "" {
      if MatchesPattern(q.offset[1..], "dd:dd") {
        PatternHasNoZ(q.offset[1..], "dd:dd");
      } else {
        PatternHasNoZ(q.offset[1..], "dddd");
      }
      assert q.offset == [q.offset[0]] + q.offset[1..];
      NoZConcat([q.offset[0]], q.offset[1..]);
    }
    NoZConcat(q.prefix, FractionText(q.fraction));
    NoZConcat(q.prefix + FractionText(q.fraction), q.offset);
    assert Compose(q, "") == q.prefix + FractionText(q.fraction) + q.offset;
  }

  /** Normalising a normalised timestamp text changes nothing. */
  lemma NormalizeIsoDatetimeIdempotent(raw: string)
    ensures NormalizeIsoDatetime(NormalizeIsoDatetime(raw)) == NormalizeIsoDatetime(raw)
  {
    var text := ReplaceZ(raw);
    var r := NormalizeIsoDatetime(raw);
    match MatchIso(text)
    case None =>
      assert r == text;
      assert ReplaceZ(r) == r;
    case Some(p) =>
      MatchIsoSound(text);
      NormalizePartsCanonical(p);
      var q := NormalizeParts(p);
      assert r == Compose(q, "");
      NormalizePartsFixed(q);
      WellFormedHasNoZ(q);
      assert ReplaceZ(r) == r;
      MatchIsoComplete(q, "");
  }

  // The row loop of a trade-history fetch.

  const TRADE_LIST_KEYS := ["trades", "data", "items"]
  const VOIDED_KEYS := ["voided", "isVoided", "is_voided"]
  const TIMESTAMP_KEYS := ["creationTimestamp", "timestamp", "createdAt", "updatedAt"]
  const ACCOUNT_KEYS := ["accountId", "account_id"]
  const CONTRACT_KEYS := ["contractId", "contract_id", "symbolId", "symbol"]
  const SYMBOL_KEYS := ["symbol", "symbolId", "contractSymbol", "contractId"]
  const ORDER_KEYS := ["orderId", "order_id"]
  const SOURCE_ID_KEYS := ["id", "tradeId", "executionId"]
  const PNL_KEYS := ["profitAndLoss", "pnl", "realizedPnl"]
  const SIDE_KEYS := ["side", "direction", "positionSide"]
  const SIZE_KEYS := ["size", "quantity", "qty"]
  const PRICE_KEYS := ["price", "fillPrice", "averagePrice"]
  const FEE_KEYS := ["fees", "commission", "totalFees"]
  const STATUS_KEYS := ["status", "tradeStatus", "state"]

  const UNKNOWN_CONTRACT := "UNKNOWN"

  /** One normalised execution; `timestamp` is in microseconds since the epoch, UTC. */
  datatype NormalizedTrade = NormalizedTrade(
    accountId: int,
    contractId: string,
    symbol: string,
    side: Side,
    size: real,
    price: real,
    timestamp: int,
    fees: real,
    pnl: Option<real>,
    orderId: string,
    sourceTradeId: Option<string>,
    status: Option<string>,
    rawPayload: map<string, PyValue>)

  /** Non-empty and without surrounding space: what the identity fields of a normalised row always are. */
  predicate IsIdText(s: string) {
    s != [] && !IsPySpace(s[0]) && !IsPySpace(s[|s| - 1])
  }

  /** `f"fallback-{int(timestamp.timestamp() * 1000)}"`: the execution's millisecond, truncated toward zero. */
  function FallbackOrderId(timestamp: int): (r: string)
    ensures IsIdText(r)
  {
    var text := "fallback-" + IntToString(Truncate(timestamp as real / 1000.0));
    assert text[0] == 'f';
    assert text[|text| - 1] == IntToString(Truncate(timestamp as real / 1000.0))[|text| - 10];
    IntToStringEndsInDigit(Truncate(timestamp as real / 1000.0));
    text
  }

  /** The decimal text of an integer starts with a digit or `-` and ends with a digit. */
  lemma IntToStringEndsInDigit(i: int)
    ensures IsDigit(IntToString(i)[|IntToString(i)| - 1])
  {
    var s := IntToString(i);
    if i < 0 {
      var digits := NatToString(-i);
      assert s == "-" + digits;
      assert s[|s| - 1] == digits[|digits| - 1];
    }
  }

  /** The order id a row is deduplicated by: its order id, else its trade id, else the fallback. */
  function OrderIdText(order: Option<string>, source: Option<string>, timestamp: int): (r: string)
    requires order.Some? ==> IsIdText(order.value)
    requires source.Some? ==> IsIdText(source.value)
    ensures IsIdText(r)
    ensures order.Some? ==> r == order.value
    ensures order.None? && source.Some? ==> r == source.value
    ensures order.None? && source.None? ==> r == FallbackOrderId(timestamp)
  {
    if order.Some? then order.value
    else if source.Some? then source.value
    else FallbackOrderId(timestamp)
  }

  /**
   * The body of the row loop: None for a skipped row (not a dict, voided,
   * or without a parseable timestamp), the normalised trade otherwise.
   */
  function NormalizeRow(row: PyValue, accountId: int, lib: PyLib): (r: Option<NormalizedTrade>)
    ensures r.None? <==>
              !row.PyDict? || IsTruthy(FirstValue(row.fields, VOIDED_KEYS))
              || lib.parseDatetime(FirstValue(row.fields, TIMESTAMP_KEYS)).None?
    ensures r.Some? ==> r.value.timestamp == lib.parseDatetime(FirstValue(row.fields, TIMESTAMP_KEYS)).value
    ensures r.Some? ==> IsIdText(r.value.orderId) && IsIdText(r.value.contractId) && IsIdText(r.value.symbol)
    ensures r.Some? ==> r.value.rawPayload == row.fields
  {
    if !row.PyDict? then None
    else if IsTruthy(FirstValue(row.fields, VOIDED_KEYS)) then None
    else
      match lib.parseDatetime(FirstValue(row.fields, TIMESTAMP_KEYS))
      case None => None
      case Some(timestamp) => Some(BuildTrade(row.fields, timestamp, accountId, lib))
  }

  /** The dict the row loop appends for a kept row with its parsed timestamp. */
  function BuildTrade(fields: map<string, PyValue>, timestamp: int, accountId: int, lib: PyLib): (t: NormalizedTrade)
    ensures t.timestamp == timestamp && t.rawPayload == fields
    ensures IsIdText(t.orderId) && IsIdText(t.contractId) && IsIdText(t.symbol)
  {
    var rowAccount := SafeInt(FirstValue(fields, ACCOUNT_KEYS));
    var pnlRaw := FirstValue(fields, PNL_KEYS);
    var sourceText := StringOrNone(FirstValue(fields, SOURCE_ID_KEYS), lib);
    var contractText := ContractText(fields, lib);
    NormalizedTrade(
      rowAccount.GetOr(accountId),
      contractText,
      SymbolText(fields, contractText, lib),
      NormalizeSide(FirstValue(fields, SIDE_KEYS)),
      SafeFloat(FirstValue(fields, SIZE_KEYS), 0.0, lib),
      SafeFloat(FirstValue(fields, PRICE_KEYS), 0.0, lib),
      timestamp,
      SafeFloat(FirstValue(fields, FEE_KEYS), 0.0, lib),
      if pnlRaw.PyNone? then None else Some(SafeFloat(pnlRaw, 0.0, lib)),
      OrderIdText(StringOrNone(FirstValue(fields, ORDER_KEYS), lib), sourceText, timestamp),
      sourceText,
      StringOrNone(FirstValue(fields, STATUS_KEYS), lib),
      fields)
  }

  /** The contract id of a row, `UNKNOWN` when it has none. */
  function ContractText(fields: map<string, PyValue>, lib: PyLib): (r: string)
    ensures IsIdText(r)
  {
    assert IsIdText(UNKNOWN_CONTRACT);
    StringOrNone(FirstValue(fields, CONTRACT_KEYS), lib).GetOr(UNKNOWN_CONTRACT)
  }

  /** The symbol of a row, its contract id when it has none. */
  function SymbolText(fields: map<string, PyValue>, contract: string, lib: PyLib): (r: string)
    requires IsIdText(contract)
    ensures IsIdText(r)
  {
    StringOrNone(FirstValue(fields, SYMBOL_KEYS), lib).GetOr(contract)
  }

  /** The fallbacks of the identity fields, as the row loop applies them. */
  lemma NormalizeRowFallbacks(row: PyValue, accountId: int, lib: PyLib)
    requires NormalizeRow(row, accountId, lib).Some?
    ensures var t := NormalizeRow(row, accountId, lib).value;
            var order := StringOrNone(FirstValue(row.fields, ORDER_KEYS), lib);
            var source := StringOrNone(FirstValue(row.fields, SOURCE_ID_KEYS), lib);
            var contract := StringOrNone(FirstValue(row.fields, CONTRACT_KEYS), lib);
            var symbol := StringOrNone(FirstValue(row.fields, SYMBOL_KEYS), lib);
            && (order.Some? ==> t.orderId == order.value)
            && (order.None? && source.Some? ==> t.orderId == source.value)
            && (order.None? && source.None? ==> t.orderId == FallbackOrderId(t.timestamp))
            && t.sourceTradeId == source
            && (contract.Some? ==> t.contractId == contract.value)
            && (contract.None? ==> t.contractId == UNKNOWN_CONTRACT)
            && (symbol.Some? ==> t.symbol == symbol.value)
            && (symbol.None? ==> t.symbol == t.contractId)
            && (SafeInt(FirstValue(row.fields, ACCOUNT_KEYS)).None? ==> t.accountId == accountId)
  {
  }

  function TimestampLe(a: NormalizedTrade, b: NormalizedTrade): bool {
    a.timestamp <= b.timestamp
  }

  lemma TimestampLeIsTotalPreorder()
    ensures IsTotalPreorder(TimestampLe)
  {
  }

  /** What the fetch returns for a decoded response: the kept rows, stably sorted by timestamp. */
  function TradeHistoryOf(data: PyValue, accountId: int, lib: PyLib): seq<NormalizedTrade>
  {
    SortBy(FilterMap(UnwrapList(data, TRADE_LIST_KEYS), row => NormalizeRow(row, accountId, lib)), TimestampLe)
  }

  /**
   * The row loop of `fetch_trade_history` and its final sort, on the
   * decoded response of the search request.
   */
  method FetchTradeHistoryRows(data: PyValue, accountId: int, lib: PyLib) returns (trades: seq<NormalizedTrade>)
    ensures trades == TradeHistoryOf(data, accountId, lib)
  {
    var rows := UnwrapList(data, TRADE_LIST_KEYS);
    var normalize := row => NormalizeRow(row, accountId, lib);
    var normalized: seq<NormalizedTrade> := [];
    for i := 0 to |rows|
      invariant normalized == FilterMap(rows[..i], normalize)
    {
      var trade := NormalizeRow(rows[i], accountId, lib);
      FilterMapConcat(rows[..i], [rows[i]], normalize);
      FilterMapSingle(rows[i], normalize);
      assert rows[..i + 1] == rows[..i] + [rows[i]];
      if trade.Some? {
        normalized := normalized + [trade.value];
      }
    }
    assert rows[..|rows|] == rows;
    trades := SortBy(normalized, TimestampLe);
  }

  /**
   * The fetched history is in timestamp order, holds exactly the rows the
   * loop keeps (as a multiset), and every row in it has its identity fields
   * set.
   */
  lemma TradeHistoryFacts(data: PyValue, accountId: int, lib: PyLib)
    ensures var kept := FilterMap(UnwrapList(data, TRADE_LIST_KEYS), row => NormalizeRow(row, accountId, lib));
            multiset(TradeHistoryOf(data, accountId, lib)) == multiset(kept)
    ensures SortedBy(TradeHistoryOf(data, accountId, lib), TimestampLe)
    ensures forall k :: 0 <= k < |TradeHistoryOf(data, accountId, lib)| ==>
              var t := TradeHistoryOf(data, accountId, lib)[k];
              IsIdText(t.orderId) && IsIdText(t.contractId) && IsIdText(t.symbol)
  {
    var normalize := row => NormalizeRow(row, accountId, lib);
    var kept := FilterMap(UnwrapList(data, TRADE_LIST_KEYS), normalize);
    TimestampLeIsTotalPreorder();
    SortBySorted(kept, TimestampLe);
    var p := (t: NormalizedTrade) => IsIdText(t.orderId) && IsIdText(t.contractId) && IsIdText(t.symbol);
    FilterMapEvery(UnwrapList(data, TRADE_LIST_KEYS), normalize, p);
    var history := TradeHistoryOf(data, accountId, lib);
    PermutationMembers(history, kept);
    forall k | 0 <= k < |history| ensures p(history[k]) {
      var j :| 0 <= j < |kept| && kept[j] == history[k];
    }
  }

  /** A row whose void flag is truthy never reaches the history. */
  lemma VoidedRowIsSkipped(row: PyValue, accountId: int, lib: PyLib)
    requires row.PyDict? && IsTruthy(FirstValue(row.fields, VOIDED_KEYS))
    ensures NormalizeRow(row, accountId, lib).None?
  {
  }

  // One polling batch of the trade stream.

  /** The stream's position: its watermark timestamp and the order ids already yielded at it. */
  datatype StreamState = StreamState(watermark: int, seen: set<string>)

  /** An event is yielded unless it is older than the watermark or already seen at it. */
  predicate Admits(state: StreamState, event: NormalizedTrade) {
    !(event.timestamp < state.watermark)
    && !(event.timestamp == state.watermark && event.orderId in state.seen)
  }

  /** After a yield: a later timestamp moves the watermark and restarts the seen set. */
  function Advance(state: StreamState, event: NormalizedTrade): (r: StreamState)
    requires Admits(state, event)
    ensures r.watermark == event.timestamp && event.orderId in r.seen
    ensures r.watermark >= state.watermark
  {
    if event.timestamp > state.watermark then StreamState(event.timestamp, {event.orderId})
    else StreamState(state.watermark, state.seen + {event.orderId})
  }

  datatype BatchResult = BatchResult(yielded: seq<NormalizedTrade>, state: StreamState)

  /** The events of one batch that the stream yields, in order, and the state it ends in. */
  function BatchRun(events: seq<NormalizedTrade>, state: StreamState): (r: BatchResult)
    ensures |r.yielded| <= |events|
    ensures forall k :: 0 <= k < |r.yielded| ==> r.yielded[k] in events
    ensures r.state.watermark >= state.watermark
    decreases |events|
  {
    if events == [] then BatchResult([], state)
    else
      var before := BatchRun(events[..|events| - 1], state);
      var event := events[|events| - 1];
      if Admits(before.state, event) then BatchResult(before.yielded + [event], Advance(before.state, event))
      else before
  }

  /** One pass of the `for event in events` loop of `stream_user_trades`. */
  method StreamBatch(events: seq<NormalizedTrade>, state: StreamState)
    returns (yielded: seq<NormalizedTrade>, next: StreamState)
    ensures BatchResult(yielded, next) == BatchRun(events, state)
  {
    yielded := [];
    next := state;
    for i := 0 to |events|
      invariant BatchResult(yielded, next) == BatchRun(events[..i], state)
    {
      assert events[..i + 1][..i] == events[..i];
      var event := events[i];
      if !(event.timestamp < next.watermark) && !(event.timestamp == next.watermark && event.orderId in next.seen) {
        yielded := yielded + [event];
        if event.timestamp > next.watermark {
          next := StreamState(event.timestamp, {event.orderId});
        } else {
          next := StreamState(next.watermark, next.seen + {event.orderId});
        }
      }
    }
    assert events[..|events|] == events;
  }

  /**
   * What one batch guarantees: the watermark never moves back; every
   * yielded event is at or after the starting watermark and not one already
   * seen there; yielded timestamps never decrease; no two yielded events
   * share their timestamp and order id; and the final state covers every
   * yielded event.
   */
  lemma {:induction false} BatchRunFacts(events: seq<NormalizedTrade>, state: StreamState)
    ensures var r := BatchRun(events, state);
            && r.state.watermark >= state.watermark
            && (forall k :: 0 <= k < |r.yielded| ==> Admits(state, r.yielded[k]))
            && (forall i, j :: 0 <= i < j < |r.yielded| ==> r.yielded[i].timestamp <= r.yielded[j].timestamp)
            && (forall i, j :: 0 <= i < j < |r.yielded| ==>
                  (r.yielded[i].timestamp, r.yielded[i].orderId) != (r.yielded[j].timestamp, r.yielded[j].orderId))
            && (forall k :: 0 <= k < |r.yielded| ==> r.yielded[k].timestamp <= r.state.watermark)
            && (forall k :: 0 <= k < |r.yielded| && r.yielded[k].timestamp == r.state.watermark ==>
                  r.yielded[k].orderId in r.state.seen)
            && (r.state.watermark == state.watermark ==> state.seen <= r.state.seen)
    decreases |events|
  {
    if events != [] {
      var prefix := events[..|events| - 1];
      BatchRunFacts(prefix, state);
      var before := BatchRun(prefix, state);
      var event := events[|events| - 1];
      if Admits(before.state, event) {
        var after := Advance(before.state, event);
        var ys := before.yielded + [event];
        assert forall k :: 0 <= k < |before.yielded| ==> ys[k] == before.yielded[k];
        assert Admits(state, event) by {
          if event.timestamp == state.watermark {
            assert before.state.watermark == state.watermark;
          }
        }
      }
    }
  }
}

module ProjectxClientExample {
  import opened Wrappers
  import opened Text
  import opened ProjectxClient

  const PREFIX := "2026-02-05T19:49:57"
  const PARTS_WITH_COLON := IsoParts(PREFIX, "22185", "+00:00")
  const NORMALIZED := "2026-02-05T19:49:57.221850+00:00"

  lemma PrefixIsWellFormed()
    ensures MatchesPattern(PREFIX, ISO_PREFIX_PATTERN)
  {
    assert forall k :: 0 <= k < 19 ==> if ISO_PREFIX_PATTERN[k] == 'd' then IsDigit(PREFIX[k]) else PREFIX[k] == ISO_PREFIX_PATTERN[k];
  }

  lemma FractionFacts()
    ensures AllDigits("22185") && Microseconds("22185") == "221850"
  {
    assert "22185" + "000000" == "22185000000";
  }

  lemma OffsetFacts()
    ensures IsOffset("+00:00") && IsOffset("+0000")
    ensures ColonOffset("+00:00") == "+00:00" && ColonOffset("+0000") == "+00:00"
  {
    assert "+00:00"[1..] == "00:00";
    assert "+0000"[1..] == "0000";
    assert "+0000"[..3] == "+00" && "+0000"[3..] == "00";
  }

  lemma ZuluText()
    ensures "2026-02-05T19:49:57.22185Z" == Compose(IsoParts(PREFIX, "22185", ""), "") + "Z"
    ensures Compose(IsoParts(PREFIX, "22185", ""), "") + "+00:00" == PREFIX + ".22185" + "+00:00"
  {
    assert FractionText("22185") == ".22185";
  }

  lemma NormalizedText()
    ensures Compose(IsoParts(PREFIX, "221850", "+00:00"), "") == NORMALIZED
  {
    assert FractionText("221850") == ".221850";
  }

  /** The fraction's precision may vary: five digits are padded to microseconds. */
  lemma VariableFractionExample()
    ensures NormalizeIsoDatetime("2026-02-05T19:49:57.22185+00:00") == NORMALIZED
  {
    ExampleNormalizes("2026-02-05T19:49:57.22185+00:00", "+00:00");
  }

  /** `Z` stands for the UTC offset. */
  lemma ZuluSuffixExample()
    ensures NormalizeIsoDatetime("2026-02-05T19:49:57.22185Z") == NORMALIZED
  {
    var raw := "2026-02-05T19:49:57.22185Z";
    var p := IsoParts(PREFIX, "22185", "");
    ZuluText();
    PrefixIsWellFormed();
    FractionFacts();
    WellFormedHasNoZ(p);
    ReplaceZConcat(Compose(p, ""), "Z");
    assert ReplaceZ("Z") == "+00:00" + ReplaceZ("");
    var c := Compose(p, "");
    assert ReplaceZ(c) == c;
    var t := PREFIX + ".22185" + "+00:00";
    assert ReplaceZ(raw) == t;
    NormalizeAfterReplaceZ(raw);
    ExampleNormalizes(t, "+00:00");
    assert NormalizeIsoDatetime(raw) == NormalizeIsoDatetime(t);
  }

  /** An offset written without its colon gains one. */
  lemma OffsetWithoutColonExample()
    ensures NormalizeIsoDatetime("2026-02-05T19:49:57.22185+0000") == NORMALIZED
  {
    ExampleNormalizes("2026-02-05T19:49:57.22185+0000", "+0000");
  }

  lemma ExampleNormalizes(raw: string, offset: string)
    requires offset == "+00:00" || offset == "+0000"
    requires raw == PREFIX + ".22185" + offset
    ensures NormalizeIsoDatetime(raw) == NORMALIZED
  {
    var p := IsoParts(PREFIX, "22185", offset);
    PrefixIsWellFormed();
    FractionFacts();
    OffsetFacts();
    assert raw == Compose(p, "");
    WellFormedHasNoZ(p);
    MatchIsoComplete(p, "");
    var q := IsoParts(PREFIX, "221850", "+00:00");
    assert NormalizeParts(p) == q;
    assert ReplaceZ(raw) == raw;
    assert NormalizeIsoDatetime(raw) == Compose(q, "");
    NormalizedText();
  }
}
