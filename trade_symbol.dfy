/**
 * Display symbols for futures contracts (`frontend/src/lib/tradeSymbol.ts`).
 * A contract id such as `CON.F.US.MES.H26` or a compact symbol such as `MESH6`
 * is reduced to its root (`MES`); anything else is shown upper-cased.
 */
module TradeSymbol {
  import opened Wrappers
  import opened Text
  import opened Sequences

  /** The contract-month letters; both patterns match them in either case. */
  predicate IsMonthLetter(c: char) {
    UpperChar(c) in {'F', 'G', 'H', 'J', 'K', 'M', 'N', 'Q', 'U', 'V', 'X', 'Z'}
  }

  /** `/^[FGHJKMNQUVXZ]\d{1,4}$/i`: a month letter followed by a one- to four-digit year. */
  predicate IsMonthCodeWithYear(s: string) {
    2 <= |s| <= 5 && IsMonthLetter(s[0]) && AllDigits(s[1..])
  }

  lemma TrimKeepsOut(s: string, x: char)
    requires x !in s
    ensures x !in JsTrim(s)
  {
  }

  function NonEmptyText(s: string): bool { s != "" }

  /** Trimming dot-free pieces leaves them dot-free. */
  lemma TrimmedPieces(pieces: seq<string>)
    requires forall k :: 0 <= k < |pieces| ==> '.' !in pieces[k]
    ensures forall k :: 0 <= k < |pieces| ==> '.' !in Map(pieces, JsTrim)[k]
  {
    forall k | 0 <= k < |pieces|
      ensures '.' !in Map(pieces, JsTrim)[k]
    {
      TrimKeepsOut(pieces[k], '.');
    }
  }

  /** `value.split(".").map(trim).filter(Boolean)`: the non-blank dot-separated pieces. */
  function DottedSegments(value: string): (r: seq<string>)
    ensures forall k :: 0 <= k < |r| ==> r[k] != "" && '.' !in r[k]
  {
    var trimmed := Map(Split(value, '.'), JsTrim);
    TrimmedPieces(Split(value, '.'));
    var segments := Filter(trimmed, NonEmptyText);
    assert forall k :: 0 <= k < |segments| ==> segments[k] in trimmed by {
      forall k | 0 <= k < |segments| ensures segments[k] in trimmed {
        FilterMember(trimmed, NonEmptyText, segments[k]);
      }
    }
    segments
  }

  /** `extractRootFromDottedContract`: the segment before a trailing month code, upper-cased. */
  function ExtractRootFromDottedContract(value: string): (r: Option<string>)
    ensures var segments := DottedSegments(value);
            r.Some? <==> |segments| >= 2 && IsMonthCodeWithYear(segments[|segments| - 1])
    ensures var segments := DottedSegments(value);
            r.Some? ==> r.value == Upper(segments[|segments| - 2])
    ensures r.Some? ==> RootShape(r.value)
  {
    RootOfSegments(DottedSegments(value))
  }

  /** The root in a list of non-blank, dot-free segments: the one before a trailing month code. */
  function RootOfSegments(segments: seq<string>): (r: Option<string>)
    requires forall k :: 0 <= k < |segments| ==> segments[k] != "" && '.' !in segments[k]
    ensures r.Some? <==> |segments| >= 2 && IsMonthCodeWithYear(segments[|segments| - 1])
    ensures r.Some? ==> r.value == Upper(segments[|segments| - 2]) && RootShape(r.value)
  {
    if |segments| < 2 then None
    else if !IsMonthCodeWithYear(segments[|segments| - 1]) then None
    else
      UpperRootShape(segments[|segments| - 2]);
      Some(Upper(segments[|segments| - 2]))
  }

  /** Upper-casing a non-blank dot-free segment gives a root. */
  lemma UpperRootShape(segment: string)
    requires segment != "" && '.' !in segment
    ensures RootShape(Upper(segment))
  {
    var u := Upper(segment);
    forall k | 0 <= k < |u| ensures u[k] != '.' {
      assert segment[k] != '.';
    }
  }

  /** What every parsed root looks like: non-blank, upper-case, without dots. */
  predicate RootShape(root: string) {
    root != "" && '.' !in root && NoLowerAscii(root)
  }

  /** The characters `/[\s._-]+/g` deletes. */
  predicate IsSeparator(c: char) {
    IsJsSpace(c) || c == '.' || c == '_' || c == '-'
  }

  function NotSeparator(c: char): bool { !IsSeparator(c) }

  /** `value.replace(/[\s._-]+/g, "").toUpperCase()` */
  function Compact(value: string): (r: string)
    ensures NoLowerAscii(r)
    ensures forall k :: 0 <= k < |r| ==> !IsSeparator(r[k])
  {
    Upper(Filter(value, NotSeparator))
  }

  /** `[A-Z0-9]` under the `i` flag. */
  predicate IsRootChar(c: char) {
    IsDigit(c) || IsUpperAscii(UpperChar(c))
  }

  /**
   * `/^([A-Z0-9]+?)[FGHJKMNQUVXZ]\d{1,4}$/i` matches `c` with the root `c[..p]`:
   * a non-empty alphanumeric root, a month letter, then one to four digits.
   */
  predicate SuffixSplitAt(c: string, p: int) {
    1 <= p < |c| && (forall k :: 0 <= k < p ==> IsRootChar(c[k]))
    && IsMonthLetter(c[p]) && 1 <= |c| - (p + 1) <= 4 && AllDigits(c[p + 1..])
  }

  /** The month letter cannot move: a digit is never a month letter. */
  lemma SuffixSplitUnique(c: string, p: int, q: int)
    requires SuffixSplitAt(c, p) && SuffixSplitAt(c, q)
    ensures p == q
  {
  }

  /** The lazy `+?`: the first split position from `p` on, if any. */
  function FirstSuffixSplit(c: string, p: nat): (r: Option<nat>)
    ensures r.Some? ==> p <= r.value && SuffixSplitAt(c, r.value)
                        && forall q :: p <= q < r.value ==> !SuffixSplitAt(c, q)
    ensures r.None? ==> forall q :: p <= q ==> !SuffixSplitAt(c, q)
    decreases |c| - p
  {
    if p >= |c| then None
    else if SuffixSplitAt(c, p) then Some(p)
    else FirstSuffixSplit(c, p + 1)
  }

  /** `extractRootFromContractSuffix`: the root before a month code, in the compacted text. */
  function ExtractRootFromContractSuffix(value: string): (r: Option<string>)
    ensures r.Some? <==> exists p :: SuffixSplitAt(Compact(value), p)
    ensures r.Some? ==> exists p :: SuffixSplitAt(Compact(value), p) && r.value == Compact(value)[..p]
    ensures r.Some? ==> RootShape(r.value)
  {
    var c := Compact(value);
    match FirstSuffixSplit(c, 1)
    case None =>
      assert forall p :: !SuffixSplitAt(c, p) by {
        forall p ensures !SuffixSplitAt(c, p) {
          if p < 1 {}
        }
      }
      None
    case Some(p) =>
      assert c[..p][0] == c[0] && c[..p][p - 1] == c[p - 1];
      Some(c[..p])
  }

  /** `value?.trim() ?? ""` */
  function TrimmedOrEmpty(value: Option<string>): (r: string)
    ensures value.None? ==> r == ""
  {
    if value.Some? then JsTrim(value.value) else ""
  }

  /**
   * The four parsers in the order `getDisplayTradeSymbol` tries them: dotted form of the
   * preferred text, dotted form of the contract id, suffix form of the preferred text, suffix
   * form of the contract id. The first that finds a root answers; none finding one gives None.
   */
  function ParsedRoot(preferred: string, contractId: string): (r: Option<string>)
    ensures r.Some? ==> RootShape(r.value)
    ensures ExtractRootFromDottedContract(preferred).Some? ==> r == ExtractRootFromDottedContract(preferred)
    ensures ExtractRootFromDottedContract(preferred).None? && ExtractRootFromDottedContract(contractId).Some?
            ==> r == ExtractRootFromDottedContract(contractId)
    ensures ExtractRootFromDottedContract(preferred).None? && ExtractRootFromDottedContract(contractId).None?
            && ExtractRootFromContractSuffix(preferred).Some?
            ==> r == ExtractRootFromContractSuffix(preferred)
    ensures ExtractRootFromDottedContract(preferred).None? && ExtractRootFromDottedContract(contractId).None?
            && ExtractRootFromContractSuffix(preferred).None?
            ==> r == ExtractRootFromContractSuffix(contractId)
    ensures r.None? <==> ExtractRootFromDottedContract(preferred).None? && ExtractRootFromDottedContract(contractId).None?
                         && ExtractRootFromContractSuffix(preferred).None? && ExtractRootFromContractSuffix(contractId).None?
  {
    var dottedPreferred := ExtractRootFromDottedContract(preferred);
    if dottedPreferred.Some? then dottedPreferred
    else
      var dottedContract := ExtractRootFromDottedContract(contractId);
      if dottedContract.Some? then dottedContract
      else
        var suffixPreferred := ExtractRootFromContractSuffix(preferred);
        if suffixPreferred.Some? then suffixPreferred
        else ExtractRootFromContractSuffix(contractId)
  }

  /**
   * `getDisplayTradeSymbol`: empty exactly when both inputs are blank; otherwise the first
   * root any parser finds, or the preferred text upper-cased. Never lower-case, never padded.
   */
  function GetDisplayTradeSymbol(symbol: Option<string>, contractId: Option<string>): (r: string)
    ensures r == "" <==> TrimmedOrEmpty(symbol) == "" && TrimmedOrEmpty(contractId) == ""
    ensures NoLowerAscii(r)
    ensures TrimmedOrEmpty(symbol) != "" ==> r == DisplayOfPreferred(TrimmedOrEmpty(symbol), TrimmedOrEmpty(contractId))
    ensures TrimmedOrEmpty(symbol) == "" && TrimmedOrEmpty(contractId) != ""
            ==> r == DisplayOfPreferred(TrimmedOrEmpty(contractId), TrimmedOrEmpty(contractId))
  {
    DisplayOf(TrimmedOrEmpty(symbol), TrimmedOrEmpty(contractId))
  }

  /** What is shown for a non-blank preferred text: the first parsed root, else the text upper-cased. */
  function DisplayOfPreferred(preferred: string, contractId: string): (r: string)
    requires preferred != ""
    ensures r != "" && NoLowerAscii(r)
    ensures ParsedRoot(preferred, contractId).Some? ==> r == ParsedRoot(preferred, contractId).value
    ensures ParsedRoot(preferred, contractId).None? ==> r == Upper(preferred)
  {
    var parsed := ParsedRoot(preferred, contractId);
    if parsed.Some? then parsed.value else Upper(preferred)
  }

  /** On trimmed inputs: the symbol is preferred over the contract id whenever it is non-blank. */
  function DisplayOf(normalizedSymbol: string, normalizedContractId: string): (r: string)
    ensures r == "" <==> normalizedSymbol == "" && normalizedContractId == ""
    ensures NoLowerAscii(r)
    ensures normalizedSymbol != "" ==> r == DisplayOfPreferred(normalizedSymbol, normalizedContractId)
    ensures normalizedSymbol == "" && normalizedContractId != ""
            ==> r == DisplayOfPreferred(normalizedContractId, normalizedContractId)
  {
    var preferred := if normalizedSymbol != "" then normalizedSymbol else normalizedContractId;
    if preferred == "" then "" else DisplayOfPreferred(preferred, normalizedContractId)
  }

  /** Text without a dot has at most one segment, so it has no dotted root. */
  lemma UndottedHasNoDottedRoot(value: string)
    requires '.' !in value
    ensures ExtractRootFromDottedContract(value).None?
  {
    SplitWithoutSeparator(value, '.');
    assert |Map(Split(value, '.'), JsTrim)| == 1;
  }

  /** Non-blank, trimmed, dot-free pieces joined with dots are exactly the segments found. */
  lemma SegmentsOfJoin(pieces: seq<string>)
    requires |pieces| >= 1
    requires forall k :: 0 <= k < |pieces| ==> pieces[k] != "" && '.' !in pieces[k] && JsTrim(pieces[k]) == pieces[k]
    ensures DottedSegments(Join(pieces, ".")) == pieces
  {
    SplitJoin(pieces, '.');
    assert Map(pieces, JsTrim) == pieces;
    FilterAll(pieces, NonEmptyText);
  }

  /** Segments ending in a month code yield the one before it, upper-cased. */
  lemma DottedRootOfSegments(value: string, segments: seq<string>)
    requires DottedSegments(value) == segments
    requires |segments| >= 2 && IsMonthCodeWithYear(segments[|segments| - 1])
    ensures ExtractRootFromDottedContract(value) == Some(Upper(segments[|segments| - 2]))
  {
  }

  /** The display symbol of a dotted contract id is its root, whatever comes first. */
  lemma DisplayOfDottedSymbol(symbol: string, contractId: Option<string>)
    requires ExtractRootFromDottedContract(JsTrim(symbol)).Some?
    ensures GetDisplayTradeSymbol(Some(symbol), contractId)
            == ExtractRootFromDottedContract(JsTrim(symbol)).value
  {
    assert JsTrim(symbol) != "";
  }

  /**
   * The dotted form of the contract id beats the suffix form of the symbol: when the symbol has
   * no dotted root, a contract id of dotted form is displayed as its root.
   */
  lemma DisplayOfDottedContract(symbol: string, contractId: string)
    requires JsTrim(symbol) != "" && ExtractRootFromDottedContract(JsTrim(symbol)).None?
    requires ExtractRootFromDottedContract(JsTrim(contractId)).Some?
    ensures GetDisplayTradeSymbol(Some(symbol), Some(contractId))
            == ExtractRootFromDottedContract(JsTrim(contractId)).value
  {
  }

  /** No ASCII capital letter anywhere in `s`. */
  predicate NoUpperAscii(s: string) {
    forall k :: 0 <= k < |s| ==> !IsUpperAscii(s[k])
  }

  /** `values.map((v) => v.trim().toLowerCase()).filter(Boolean)` */
  function SearchWords(values: seq<string>): (words: seq<string>)
    ensures forall k :: 0 <= k < |words| ==> words[k] != "" && NoUpperAscii(words[k])
  {
    if values == [] then []
    else
      var word := Lower(JsTrim(values[0]));
      (if word != "" then [word] else []) + SearchWords(values[1..])
  }

  /** A value that is not blank once trimmed. */
  predicate NotBlank(value: string) {
    JsTrim(value) != ""
  }

  /** The search word of one value: trimmed, then lower-cased. */
  function SearchWord(value: string): (word: string)
    ensures |word| == |JsTrim(value)|
  {
    Lower(JsTrim(value))
  }

  /** The search words are the trimmed, lower-cased non-blank values, in their order. */
  lemma {:induction false} SearchWordsAreNonBlankValues(values: seq<string>)
    ensures SearchWords(values) == Map(Filter(values, NotBlank), SearchWord)
  {
    if values != [] {
      SearchWordsAreNonBlankValues(values[1..]);
      var tail := Map(Filter(values[1..], NotBlank), SearchWord);
      if NotBlank(values[0]) {
        assert Filter(values, NotBlank) == [values[0]] + Filter(values[1..], NotBlank);
        assert Map(Filter(values, NotBlank), SearchWord) == [SearchWord(values[0])] + tail;
      } else {
        assert Filter(values, NotBlank) == Filter(values[1..], NotBlank);
      }
    }
  }

  /** Only values that are blank after trimming leave no search word at all. */
  lemma {:induction false} SearchWordsEmptyIff(values: seq<string>)
    ensures SearchWords(values) == [] <==> forall k :: 0 <= k < |values| ==> JsTrim(values[k]) == ""
  {
    if values != [] {
      SearchWordsEmptyIff(values[1..]);
      assert forall k :: 1 <= k < |values| ==> values[1..][k - 1] == values[k];
    }
  }

  /** A join of non-empty lower-case words with spaces is empty only without words, and lower-case. */
  lemma {:induction false} JoinWords(words: seq<string>)
    requires forall k :: 0 <= k < |words| ==> words[k] != "" && NoUpperAscii(words[k])
    ensures Join(words, " ") == "" <==> words == []
    ensures NoUpperAscii(Join(words, " "))
  {
    var r := Join(words, " ");
    if 2 <= |words| {
      assert r == words[0] + " " + Join(words[1..], " ");
    }
    forall k | 0 <= k < |r|
      ensures !IsUpperAscii(r[k])
    {
      JoinChars(words, " ", r[k]);
      if r[k] !in " " {
        var j :| 0 <= j < |words| && r[k] in words[j];
        var m :| 0 <= m < |words[j]| && words[j][m] == r[k];
      }
    }
  }

  /**
   * `buildTradeSymbolSearchText`: the raw symbol, the raw contract id and the display symbol,
   * each trimmed and lower-cased, blanks dropped, joined with single spaces.
   */
  function BuildTradeSymbolSearchText(symbol: Option<string>, contractId: Option<string>): (r: string)
    ensures r == Join(Map(Filter([symbol.GetOr(""), contractId.GetOr(""), GetDisplayTradeSymbol(symbol, contractId)],
                                 NotBlank), SearchWord), " ")
    ensures NoUpperAscii(r)
    ensures r == "" <==> TrimmedOrEmpty(symbol) == "" && TrimmedOrEmpty(contractId) == ""
  {
    var display := GetDisplayTradeSymbol(symbol, contractId);
    var values := [symbol.GetOr(""), contractId.GetOr(""), display];
    var words := SearchWords(values);
    SearchWordsAreNonBlankValues(values);
    JoinWords(words);
    SearchValuesBlank(symbol, contractId, display);
    Join(words, " ")
  }

  /** The three search values are all blank exactly when the symbol and the contract id are. */
  lemma SearchValuesBlank(symbol: Option<string>, contractId: Option<string>, display: string)
    requires TrimmedOrEmpty(symbol) == "" && TrimmedOrEmpty(contractId) == "" ==> display == ""
    ensures SearchWords([symbol.GetOr(""), contractId.GetOr(""), display]) == []
            <==> TrimmedOrEmpty(symbol) == "" && TrimmedOrEmpty(contractId) == ""
  {
    SearchWordsOfThree(symbol.GetOr(""), contractId.GetOr(""), display);
    assert JsTrim(symbol.GetOr("")) == TrimmedOrEmpty(symbol);
    assert JsTrim(contractId.GetOr("")) == TrimmedOrEmpty(contractId);
    assert display == "" ==> JsTrim(display) == "";
  }

  lemma SearchWordsOfThree(a: string, b: string, c: string)
    ensures SearchWords([a, b, c]) == [] <==> JsTrim(a) == "" && JsTrim(b) == "" && JsTrim(c) == ""
  {
    var wa, wb, wc := Lower(JsTrim(a)), Lower(JsTrim(b)), Lower(JsTrim(c));
    assert [a, b, c][1..] == [b, c] && [b, c][1..] == [c] && [c][1..] == [];
    assert SearchWords([c]) == (if wc != "" then [wc] else []);
    assert SearchWords([b, c]) == (if wb != "" then [wb] else []) + SearchWords([c]);
    assert SearchWords([a, b, c]) == (if wa != "" then [wa] else []) + SearchWords([b, c]);
    assert (wa == "") == (JsTrim(a) == "") && (wb == "") == (JsTrim(b) == "") && (wc == "") == (JsTrim(c) == "");
  }
}

/** The contract id the symbol helpers are written for. */
module TradeSymbolExample {
  import opened Wrappers
  import opened Text
  import opened Sequences
  import opened TradeSymbol

  lemma PiecesAreTrimmed(pieces: seq<string>)
    requires pieces == ["CON", "F", "US", "MES", "H26"]
    ensures forall k :: 0 <= k < |pieces| ==> pieces[k] != "" && '.' !in pieces[k] && JsTrim(pieces[k]) == pieces[k]
  {
    TrimFixedPoint(pieces[0], IsJsSpace);
    TrimFixedPoint(pieces[1], IsJsSpace);
    TrimFixedPoint(pieces[2], IsJsSpace);
    TrimFixedPoint(pieces[3], IsJsSpace);
    TrimFixedPoint(pieces[4], IsJsSpace);
  }

  lemma ExampleJoin(pieces: seq<string>, v: string)
    requires pieces == ["CON", "F", "US", "MES", "H26"] && v == "CON.F.US.MES.H26"
    ensures Join(pieces, ".") == v
  {
    assert Join(pieces[4..], ".") == "H26";
    assert Join(pieces[3..], ".") == "MES.H26";
    assert Join(pieces[2..], ".") == "US.MES.H26";
    assert Join(pieces[1..], ".") == "F.US.MES.H26";
  }

  lemma ExampleRoot(v: string, root: string)
    requires v == "CON.F.US.MES.H26" && root == "MES"
    ensures ExtractRootFromDottedContract(v) == Some(root)
  {
    var pieces := ["CON", "F", "US", "MES", "H26"];
    ExampleSegments(v, pieces);
    assert IsMonthCodeWithYear(pieces[4]);
    DottedRootOfSegments(v, pieces);
    assert pieces[3] == root;
    UpperOfNoLower(root);
  }

  lemma ExampleSegments(v: string, pieces: seq<string>)
    requires pieces == ["CON", "F", "US", "MES", "H26"] && v == "CON.F.US.MES.H26"
    ensures DottedSegments(v) == pieces
  {
    PiecesAreTrimmed(pieces);
    SegmentsOfJoin(pieces);
    ExampleJoin(pieces, v);
  }

  lemma ExampleIsTrimmed(v: string)
    requires v == "CON.F.US.MES.H26"
    ensures JsTrim(v) == v
  {
    TrimFixedPoint(v, IsJsSpace);
  }

  /** `CON.F.US.MES.H26` is shown as `MES`. */
  lemma MicroEminiRoot(v: string, root: string)
    requires v == "CON.F.US.MES.H26" && root == "MES"
    ensures GetDisplayTradeSymbol(Some(v), None) == root
  {
    ExampleIsTrimmed(v);
    ExampleRoot(v, root);
    DisplayOfDottedSymbol(v, None);
  }

  lemma CompactOfExample(v: string)
    requires v == "NQZ25"
    ensures Compact(v) == v
  {
    FilterAll(v, NotSeparator);
    UpperOfNoLower(v);
  }

  lemma SplitOfExample(v: string)
    requires v == "NQZ25"
    ensures SuffixSplitAt(v, 2)
  {
    assert v[3..] == "25";
  }

  /**
   * The dotted form of the contract id is tried before the suffix form of the symbol: `NQZ25`
   * alongside `CON.F.US.MES.H26` is shown as `MES`, not `NQ`.
   */
  lemma DottedContractBeforeSuffixSymbol(symbol: string, contractId: string, root: string)
    requires symbol == "NQZ25" && contractId == "CON.F.US.MES.H26" && root == "MES"
    ensures GetDisplayTradeSymbol(Some(symbol), Some(contractId)) == root
  {
    SuffixSymbolFacts(symbol);
    DottedContractFacts(contractId, root);
    DisplayOfDottedContract(symbol, contractId);
  }

  lemma SuffixSymbolFacts(symbol: string)
    requires symbol == "NQZ25"
    ensures JsTrim(symbol) == symbol && symbol != "" && ExtractRootFromDottedContract(symbol).None?
  {
    TrimFixedPoint(symbol, IsJsSpace);
    UndottedHasNoDottedRoot(symbol);
  }

  lemma DottedContractFacts(contractId: string, root: string)
    requires contractId == "CON.F.US.MES.H26" && root == "MES"
    ensures JsTrim(contractId) == contractId && ExtractRootFromDottedContract(contractId) == Some(root)
  {
    ExampleIsTrimmed(contractId);
    ExampleRoot(contractId, root);
  }

  /** `NQZ25` has the root `NQ`: the `Q` is a month letter, but digits must follow the last one. */
  lemma SuffixExample(v: string, root: string)
    requires v == "NQZ25" && root == "NQ"
    ensures ExtractRootFromContractSuffix(v) == Some(root)
  {
    CompactOfExample(v);
    SplitOfExample(v);
    var r := ExtractRootFromContractSuffix(v);
    var p :| SuffixSplitAt(v, p) && r.value == v[..p];
    SuffixSplitUnique(v, p, 2);
    assert v[..2] == root;
  }
}
