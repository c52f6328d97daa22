/**
 * `SmartJobParser.heuristic_extract` (app1_parser.py): a fixed rule set that pulls a salary
 * range, a location, a visa flag and a work mode out of cleaned text.
 */
module HeuristicExtractor {
  import opened Wrappers
  import opened PyText
  import opened Patterns
  import opened Json

  predicate IsDigitOrComma(c: char) { IsAsciiDigit(c) || c == ',' }

  /** The character classes the patterns repeat: `[0-9,]`, `\s` and `[a-z]`. */
  datatype CharClass = DigitsOrCommas | Spaces | LowerLetters

  predicate InClass(c: char, cls: CharClass) {
    match cls
    case DigitsOrCommas => IsDigitOrComma(c)
    case Spaces => IsSpace(c)
    case LowerLetters => IsAsciiLower(c)
  }

  /** Every character of `s[lo..hi]` is in `cls`. */
  ghost predicate AllIn(s: string, lo: nat, hi: nat, cls: CharClass) {
    lo <= hi <= |s| && forall k :: lo <= k < hi ==> InClass(s[k], cls)
  }

  /** Length of the longest run of characters of `cls` from `i`: what a greedy `[...]*` takes. */
  function RunLength(s: string, i: nat, cls: CharClass): (n: nat)
    ensures n == 0 || i + n <= |s|
    decreases |s| - i
  {
    if i < |s| && InClass(s[i], cls) then 1 + RunLength(s, i + 1, cls) else 0
  }

  /** The run `RunLength` measures is all in the class, and the character after it is not. */
  lemma {:induction false} RunLengthSpan(s: string, i: nat, cls: CharClass)
    ensures var n := RunLength(s, i, cls);
      (n == 0 || AllIn(s, i, i + n, cls)) && (i + n < |s| ==> !InClass(s[i + n], cls))
    decreases |s| - i
  {
    if i < |s| && InClass(s[i], cls) {
      RunLengthSpan(s, i + 1, cls);
    }
  }

  // ---------- r"\$([0-9,]+)\s*-\s*\$?([0-9,]+)" ----------

  /**
   * Positions of a salary match: `$` at `start`, group 1 is `s[start+1..lowEnd]`, the `-` is
   * at `dash`, the spaces after it end at `gap`, and group 2 is `s[highStart..highEnd]`.
   */
  datatype SalaryMatch = SalaryMatch(start: nat, lowEnd: nat, dash: nat, gap: nat, highStart: nat, highEnd: nat)

  /** `m` is a way for the salary pattern to match `s`. */
  ghost predicate SalaryShape(s: string, m: SalaryMatch) {
    && m.start < |s| && s[m.start] == '$'
    && m.start + 1 < m.lowEnd && AllIn(s, m.start + 1, m.lowEnd, DigitsOrCommas)
    && AllIn(s, m.lowEnd, m.dash, Spaces) && m.dash < |s| && s[m.dash] == '-'
    && AllIn(s, m.dash + 1, m.gap, Spaces)
    && (m.highStart == m.gap || (m.highStart == m.gap + 1 && m.gap < |s| && s[m.gap] == '$'))
    && m.highStart < m.highEnd && AllIn(s, m.highStart, m.highEnd, DigitsOrCommas)
  }

  /** The positions of a match are in order and inside `s`, so its groups can be sliced. */
  predicate SalaryBounded(s: string, m: SalaryMatch) {
    m.start + 1 < m.lowEnd <= m.dash < m.highStart < m.highEnd <= |s|
  }

  /** The salary pattern anchored at `i`, matched greedily as `re` does. */
  function SalaryAt(s: string, i: nat): (r: Option<SalaryMatch>)
    ensures r.Some? ==> r.value.start == i && SalaryBounded(s, r.value)
  {
    if i < |s| && s[i] == '$' then
      var a := i + 1 + RunLength(s, i + 1, DigitsOrCommas);
      if a == i + 1 then None
      else
        var b := a + RunLength(s, a, Spaces);
        if b < |s| && s[b] == '-' then SalaryAfterDash(s, i, a, b) else None
    else None
  }

  /** The part of the salary pattern after the `-`: `\s*\$?([0-9,]+)`. */
  function SalaryAfterDash(s: string, i: nat, a: nat, b: nat): (r: Option<SalaryMatch>)
    requires b < |s|
    requires i + 1 < a <= b
    ensures r.Some? ==> r.value.start == i && r.value.lowEnd == a && r.value.dash == b && SalaryBounded(s, r.value)
  {
    var c := b + 1 + RunLength(s, b + 1, Spaces);
    var d := if c < |s| && s[c] == '$' then c + 1 else c;
    var e := d + RunLength(s, d, DigitsOrCommas);
    if e == d then None else Some(SalaryMatch(i, a, b, c, d, e))
  }

  /** What `SalaryAt` finds is a match, and group 2 is as long as it can be. */
  lemma SalaryAtSound(s: string, i: nat)
    requires SalaryAt(s, i).Some?
    ensures SalaryShape(s, SalaryAt(s, i).value)
    ensures var m := SalaryAt(s, i).value; m.highEnd == |s| || !IsDigitOrComma(s[m.highEnd])
  {
    var m := SalaryAt(s, i).value;
    RunLengthSpan(s, i + 1, DigitsOrCommas);
    RunLengthSpan(s, m.lowEnd, Spaces);
    SalaryAfterDashSound(s, i, m.lowEnd, m.dash);
  }

  lemma SalaryAfterDashSound(s: string, i: nat, a: nat, b: nat)
    requires b < |s| && i + 1 < a <= b && SalaryAfterDash(s, i, a, b).Some?
    ensures var m := SalaryAfterDash(s, i, a, b).value;
      && AllIn(s, b + 1, m.gap, Spaces)
      && (m.highStart == m.gap || (m.highStart == m.gap + 1 && m.gap < |s| && s[m.gap] == '$'))
      && AllIn(s, m.highStart, m.highEnd, DigitsOrCommas)
      && (m.highEnd == |s| || !IsDigitOrComma(s[m.highEnd]))
  {
    var m := SalaryAfterDash(s, i, a, b).value;
    RunLengthSpan(s, b + 1, Spaces);
    RunLengthSpan(s, m.highStart, DigitsOrCommas);
  }

  /**
   * Every way the pattern can match at a position agrees with `SalaryAt` on both groups'
   * starts and on group 1, and takes no more of group 2: the match is forced but for
   * greediness, and `SalaryAt` finds one whenever one exists.
   */
  lemma SalaryShapeForced(s: string, m: SalaryMatch)
    requires SalaryShape(s, m)
    ensures SalaryAt(s, m.start).Some?
    ensures var r := SalaryAt(s, m.start).value;
      r.lowEnd == m.lowEnd && r.dash == m.dash && r.gap == m.gap && r.highStart == m.highStart && m.highEnd <= r.highEnd
  {
    SalaryRunsForced(s, m);
    SalaryAtDash(s, m.start, m.lowEnd, m.dash);
    SalaryAfterDashForced(s, m);
  }

  /** Once the first runs end at `a` and `b`, and `b` holds the dash, the rest is `SalaryAfterDash`. */
  lemma SalaryAtDash(s: string, i: nat, a: nat, b: nat)
    requires i < |s| && s[i] == '$' && i + 1 < a
    requires RunLength(s, i + 1, DigitsOrCommas) == a - i - 1 && RunLength(s, a, Spaces) == b - a
    requires b < |s| && s[b] == '-'
    ensures SalaryAt(s, i) == SalaryAfterDash(s, i, a, b)
  {
  }

  /** The part after the dash, for a match whose first runs are known to be forced. */
  lemma SalaryAfterDashForced(s: string, m: SalaryMatch)
    requires SalaryShape(s, m)
    requires RunLength(s, m.dash + 1, Spaces) == m.gap - m.dash - 1
    requires m.gap < |s| && (m.highStart == m.gap <==> s[m.gap] != '$')
    ensures SalaryAfterDash(s, m.start, m.lowEnd, m.dash).Some?
    ensures var r := SalaryAfterDash(s, m.start, m.lowEnd, m.dash).value;
      r.gap == m.gap && r.highStart == m.highStart && m.highEnd <= r.highEnd
  {
    RunCovers(s, m.highStart, m.highEnd, DigitsOrCommas);
  }

  lemma SpaceIsNotDigitOrComma(c: char)
    requires IsSpace(c)
    ensures !IsDigitOrComma(c) && c != '$' && c != '-'
  {
  }

  /** The runs of a salary match end exactly where `SalaryAt` ends them. */
  lemma SalaryRunsForced(s: string, m: SalaryMatch)
    requires SalaryShape(s, m)
    ensures RunLength(s, m.start + 1, DigitsOrCommas) == m.lowEnd - m.start - 1
    ensures RunLength(s, m.lowEnd, Spaces) == m.dash - m.lowEnd
    ensures RunLength(s, m.dash + 1, Spaces) == m.gap - m.dash - 1
    ensures m.gap < |s| && (m.highStart == m.gap <==> s[m.gap] != '$')
  {
    if m.lowEnd < m.dash {
      SpaceIsNotDigitOrComma(s[m.lowEnd]);
    }
    RunForced(s, m.start + 1, m.lowEnd, DigitsOrCommas);
    RunForced(s, m.lowEnd, m.dash, Spaces);
    if m.highStart == m.gap {
      assert IsDigitOrComma(s[m.gap]);
    }
    assert !IsSpace(s[m.gap]) by {
      if IsSpace(s[m.gap]) { SpaceIsNotDigitOrComma(s[m.gap]); }
    }
    RunForced(s, m.dash + 1, m.gap, Spaces);
  }

  /** A run that ends at the first character outside `cls` is what `RunLength` measures. */
  lemma {:induction false} RunForced(s: string, lo: nat, hi: nat, cls: CharClass)
    requires AllIn(s, lo, hi, cls) && (hi < |s| ==> !InClass(s[hi], cls))
    ensures RunLength(s, lo, cls) == hi - lo
    decreases hi - lo
  {
    if lo < hi {
      RunForced(s, lo + 1, hi, cls);
    }
  }

  /** A greedy run is at least as long as any run of `cls` from the same place. */
  lemma {:induction false} RunCovers(s: string, lo: nat, hi: nat, cls: CharClass)
    requires AllIn(s, lo, hi, cls)
    ensures hi - lo <= RunLength(s, lo, cls)
    decreases hi - lo
  {
    if lo < hi {
      RunCovers(s, lo + 1, hi, cls);
    }
  }

  /** `re.search` of the salary pattern from `from`: the leftmost position where it matches. */
  function FindSalary(s: string, from: nat): (r: Option<SalaryMatch>)
    ensures r.Some? ==> from <= r.value.start && SalaryAt(s, r.value.start) == r
    decreases |s| - from
  {
    if from >= |s| then None
    else if SalaryAt(s, from).Some? then SalaryAt(s, from)
    else FindSalary(s, from + 1)
  }

  /** `FindSalary` skips only positions where the pattern does not match. */
  lemma {:induction false} FindSalaryFirst(s: string, from: nat, j: nat)
    requires from <= j && SalaryAt(s, j).Some?
    ensures FindSalary(s, from).Some? && FindSalary(s, from).value.start <= j
    decreases j - from
  {
    if SalaryAt(s, from).None? {
      FindSalaryFirst(s, from + 1, j);
    }
  }

  /** No salary match starts before the one found, and one is found whenever the pattern matches somewhere. */
  lemma FindSalaryLeftmost(s: string, m: SalaryMatch)
    requires SalaryShape(s, m)
    ensures FindSalary(s, 0).Some? && FindSalary(s, 0).value.start <= m.start
  {
    SalaryShapeForced(s, m);
    FindSalaryFirst(s, 0, m.start);
  }

  // ---------- r"([A-Z][a-z]+,\s*[A-Z]{2})" ----------

  /** Positions of a location match: capital at `start`, comma at `comma`, the two capitals at `caps`. */
  datatype LocationMatch = LocationMatch(start: nat, comma: nat, caps: nat)

  ghost predicate LocationShape(s: string, m: LocationMatch) {
    && m.start < |s| && IsAsciiUpper(s[m.start])
    && m.start + 1 < m.comma && AllIn(s, m.start + 1, m.comma, LowerLetters)
    && m.comma < |s| && s[m.comma] == ','
    && AllIn(s, m.comma + 1, m.caps, Spaces)
    && m.caps + 1 < |s| && IsAsciiUpper(s[m.caps]) && IsAsciiUpper(s[m.caps + 1])
  }

  /** The location pattern anchored at `i`. */
  function LocationAt(s: string, i: nat): (r: Option<LocationMatch>)
    ensures r.Some? ==> r.value.start == i && i + 1 < r.value.comma < r.value.caps && r.value.caps + 2 <= |s|
  {
    if i < |s| && IsAsciiUpper(s[i]) then
      var a := i + 1 + RunLength(s, i + 1, LowerLetters);
      if a == i + 1 || a >= |s| || s[a] != ',' then None
      else
        var c := a + 1 + RunLength(s, a + 1, Spaces);
        if c + 1 < |s| && IsAsciiUpper(s[c]) && IsAsciiUpper(s[c + 1]) then Some(LocationMatch(i, a, c)) else None
    else None
  }

  /** What `LocationAt` finds is a match of the location pattern. */
  lemma LocationAtSound(s: string, i: nat)
    requires LocationAt(s, i).Some?
    ensures LocationShape(s, LocationAt(s, i).value)
  {
    var m := LocationAt(s, i).value;
    RunLengthSpan(s, i + 1, LowerLetters);
    RunLengthSpan(s, m.comma + 1, Spaces);
  }

  /** A location match is unique at its start, and `LocationAt` finds it. */
  lemma LocationShapeForced(s: string, m: LocationMatch)
    requires LocationShape(s, m)
    ensures LocationAt(s, m.start) == Some(m)
  {
    RunForced(s, m.start + 1, m.comma, LowerLetters);
    assert !IsSpace(s[m.caps]);
    RunForced(s, m.comma + 1, m.caps, Spaces);
  }

  /** `re.search` of the location pattern from `from`. */
  function FindLocation(s: string, from: nat): (r: Option<LocationMatch>)
    ensures r.Some? ==> from <= r.value.start && LocationAt(s, r.value.start) == r
    decreases |s| - from
  {
    if from >= |s| then None
    else if LocationAt(s, from).Some? then LocationAt(s, from)
    else FindLocation(s, from + 1)
  }

  /** `FindLocation` skips only positions where the pattern does not match. */
  lemma {:induction false} FindLocationSkips(s: string, from: nat, j: nat)
    requires from <= j && LocationAt(s, j).Some?
    ensures FindLocation(s, from).Some? && FindLocation(s, from).value.start <= j
    decreases j - from
  {
    if LocationAt(s, from).None? {
      FindLocationSkips(s, from + 1, j);
    }
  }

  /** The location key holds the first occurrence of the pattern. */
  lemma FindLocationFirst(s: string, m: LocationMatch)
    requires LocationShape(s, m)
    ensures FindLocation(s, 0).Some? && FindLocation(s, 0).value.start <= m.start
    ensures FindLocation(s, 0).value.start == m.start ==> FindLocation(s, 0) == Some(m)
  {
    LocationShapeForced(s, m);
    FindLocationSkips(s, 0, m.start);
  }

  // ---------- visa and work mode ----------

  /** The visa alternatives in lower case (the pattern is `(?i)`, so "OPT" is "opt"). */
  const VisaPhrases: seq<string> := ["no sponsorship", "not offer sponsorship", "opt", "cpt"]

  const WorkModes: seq<string> := ["remote", "hybrid", "on-site"]

  /** `str.lower()` of one character, for the characters a match of a lower-case ASCII pattern can hold. */
  function LowerChar(c: char): string {
    if IsAsciiUpper(c) then [(c as int + 32) as char]
    else if c == DottedCapitalI then ['i', '\U{0307}']
    else if c == KelvinSign then "k"
    else [c]
  }

  /** Title case of one such character, as `capitalize` applies it to the first one. */
  function TitleChar(c: char): char {
    if IsAsciiLower(c) then ToAsciiUpper(c)
    else if c == DotlessI then 'I'
    else if c == LongS then 'S'
    else c
  }

  /**
   * `lower()` of a character that matches lower-case ASCII letter `p` under `re.IGNORECASE`:
   * `p` itself, except that U+0130 lowers to "i" and a combining dot, and U+0131 and U+017F
   * stay as they are.
   */
  lemma LowerCharOfMatch(c: char, p: char)
    requires IsAsciiLower(p) && CharMatchesIgnoreCase(c, p)
    ensures c == DottedCapitalI ==> LowerChar(c) == ['i', '\U{0307}']
    ensures c == DotlessI || c == LongS ==> LowerChar(c) == [c]
    ensures c != DottedCapitalI && c != DotlessI && c != LongS ==> LowerChar(c) == [p]
  {
  }

  /**
   * Title case of such a character: the capital of `p`, except that U+0130 and the Kelvin
   * sign, already capitals, stay as they are.
   */
  lemma TitleCharOfMatch(c: char, p: char)
    requires IsAsciiLower(p) && CharMatchesIgnoreCase(c, p)
    ensures c == DottedCapitalI || c == KelvinSign ==> TitleChar(c) == c
    ensures c != DottedCapitalI && c != KelvinSign ==> TitleChar(c) == ToAsciiUpper(p)
  {
  }

  function LowerAll(s: string): string {
    if s == [] then [] else LowerChar(s[0]) + LowerAll(s[1..])
  }

  /** `str.capitalize()` on matched text: title-case the first character, lower-case the rest. */
  function Capitalize(s: string): string {
    if s == [] then [] else [TitleChar(s[0])] + LowerAll(s[1..])
  }

  /** Text that matches a lower-case ASCII word, written in ASCII, lower-cases to that word. */
  lemma {:induction false} LowerAllAscii(s: string, w: string)
    requires |s| == |w| && forall k :: 0 <= k < |w| ==> CharMatchesIgnoreCase(s[k], w[k])
    requires forall k :: 0 <= k < |s| ==> s[k] < '\U{0080}'
    requires forall k :: 0 <= k < |w| ==> w[k] < '\U{0080}' && !IsAsciiUpper(w[k])
    ensures LowerAll(s) == w
  {
    if s != [] {
      LowerAllAscii(s[1..], w[1..]);
      assert LowerChar(s[0]) == [w[0]];
      assert w == [w[0]] + w[1..];
    }
  }

  /** `capitalize` of ASCII text that matches a lower-case ASCII word. */
  lemma CapitalizeAscii(g: string, w: string)
    requires |g| == |w| > 0 && forall k :: 0 <= k < |w| ==> CharMatchesIgnoreCase(g[k], w[k])
    requires forall k :: 0 <= k < |g| ==> g[k] < '\U{0080}'
    requires forall k :: 0 <= k < |w| ==> w[k] < '\U{0080}' && !IsAsciiUpper(w[k])
    ensures Capitalize(g) == [ToAsciiUpper(w[0])] + w[1..]
  {
    LowerAllAscii(g[1..], w[1..]);
  }

  /** How Python capitalises each work mode. */
  const WorkModeDisplay: seq<string> := ["Remote", "Hybrid", "On-site"]

  lemma WorkModeDisplayed(a: nat)
    requires a < |WorkModes|
    ensures |WorkModes[a]| > 0 && [ToAsciiUpper(WorkModes[a][0])] + WorkModes[a][1..] == WorkModeDisplay[a]
    ensures forall k :: 0 <= k < |WorkModes[a]| ==> WorkModes[a][k] < '\U{0080}' && !IsAsciiUpper(WorkModes[a][k])
  {
    if a == 0 {
      assert WorkModes[0] == "remote";
    } else if a == 1 {
      assert WorkModes[1] == "hybrid";
    } else {
      assert WorkModes[2] == "on-site";
    }
  }

  lemma MatchedSlice(s: string, i: nat, w: string)
    requires MatchesAtIgnoreCase(s, i, w)
    ensures forall k :: 0 <= k < |w| ==> CharMatchesIgnoreCase(s[i..i + |w|][k], w[k])
  {
  }

  /**
   * The work mode read from ASCII text is the alternative with its first letter capitalised:
   * "Remote", "Hybrid" or "On-site", whatever the case of the text.
   */
  lemma CapitalizedWorkMode(s: string, h: Hit)
    requires SearchIgnoreCase(s, WorkModes, 0) == Some(h)
    requires forall k :: h.pos <= k < h.pos + |WorkModes[h.alt]| ==> s[k] < '\U{0080}'
    ensures Capitalize(s[h.pos..h.pos + |WorkModes[h.alt]|]) == WorkModeDisplay[h.alt]
  {
    CapitalizedAt(s, h.pos, h.alt);
  }

  /** A work mode matched at `pos` in ASCII text capitalises to its display form. */
  lemma CapitalizedAt(s: string, pos: nat, a: nat)
    requires a < |WorkModes| && MatchesAtIgnoreCase(s, pos, WorkModes[a])
    requires forall k :: pos <= k < pos + |WorkModes[a]| ==> s[k] < '\U{0080}'
    ensures Capitalize(s[pos..pos + |WorkModes[a]|]) == WorkModeDisplay[a]
  {
    var w := WorkModes[a];
    MatchedSlice(s, pos, w);
    var g := s[pos..pos + |w|];
    forall k | 0 <= k < |g|
      ensures g[k] < '\U{0080}'
    {
      assert g[k] == s[pos + k];
    }
    CapitalizedMatch(g, a);
  }

  /** ASCII text that matches a work mode ignoring case capitalises to that mode's display form. */
  lemma CapitalizedMatch(g: string, a: nat)
    requires a < |WorkModes| && |g| == |WorkModes[a]|
    requires forall k :: 0 <= k < |g| ==> CharMatchesIgnoreCase(g[k], WorkModes[a][k])
    requires forall k :: 0 <= k < |g| ==> g[k] < '\U{0080}'
    ensures Capitalize(g) == WorkModeDisplay[a]
  {
    WorkModeDisplayed(a);
    CapitalizeAscii(g, WorkModes[a]);
  }

  // ---------- heuristic_extract ----------

  /**
   * `int(ds)` where `ds` is a group of the salary pattern with its commas removed: a string
   * of ASCII digits is read in base 10. The empty string raises, and so does a string of more
   * digits than CPython converts by default.
   */
  function PyInt(ds: string): Result<int, PyError> {
    if ds != [] && AllDigits(ds) && |ds| <= IntMaxStrDigits then Success(DecimalValue(ds)) else Failure(ValueError)
  }

  /**
   * `sys.get_int_max_str_digits()` at its default: since CPython 3.11 (and 3.10.7, 3.9.14,
   * 3.8.14), `int()` of a decimal string with more digits raises `ValueError`.
   */
  const IntMaxStrDigits: nat := 4300

  /** `int()` reads back every number that `str()` writes within the digit limit. */
  lemma PyIntOfNatToString(n: nat)
    ensures PyInt(NatToString(n)).Success? <==> |NatToString(n)| <= IntMaxStrDigits
    ensures |NatToString(n)| <= IntMaxStrDigits ==> PyInt(NatToString(n)) == Success(n)
  {
    DecimalOfNatToString(n);
  }

  /** Group 1 of a salary match: the first amount. */
  function LowGroup(s: string, m: SalaryMatch): string
    requires SalaryBounded(s, m)
  {
    s[m.start + 1..m.lowEnd]
  }

  /** Group 2 of a salary match: the second amount. */
  function HighGroup(s: string, m: SalaryMatch): string
    requires SalaryBounded(s, m)
  {
    s[m.highStart..m.highEnd]
  }

  /** The location key's value: group 1 of the location match. */
  function LocationText(s: string, m: LocationMatch): string
    requires m.start <= m.caps + 2 <= |s|
  {
    s[m.start..m.caps + 2]
  }

  /** The text the work-mode alternation matched. */
  function MatchedText(s: string, h: Hit, alts: seq<string>): string
    requires h.alt < |alts| && MatchesAtIgnoreCase(s, h.pos, alts[h.alt])
  {
    s[h.pos..h.pos + |alts[h.alt]|]
  }

  /** The salary keys, or the `ValueError` of `int()` on an amount with no digits or too many. */
  function SalaryFields(s: string): Result<map<string, Json>, PyError> {
    match FindSalary(s, 0)
    case None => Success(map[])
    case Some(m) =>
      var lo := PyInt(RemoveChar(LowGroup(s, m), ','));
      var hi := PyInt(RemoveChar(HighGroup(s, m), ','));
      if lo.Failure? then Failure(lo.error)
      else if hi.Failure? then Failure(hi.error)
      else Success(map["salary_min" := JInt(lo.value), "salary_max" := JInt(hi.value), "currency" := JString("USD")])
  }

  function LocationField(s: string): map<string, Json> {
    match FindLocation(s, 0)
    case None => map[]
    case Some(m) => map["location" := JString(LocationText(s, m))]
  }

  function VisaField(s: string): map<string, Json> {
    map["visa_sponsorship" := JBool(SearchIgnoreCase(s, VisaPhrases, 0).None?)]
  }

  function RemoteField(s: string): map<string, Json> {
    match SearchIgnoreCase(s, WorkModes, 0)
    case None => map[]
    case Some(h) => map["remote_hybrid" := JString(Capitalize(MatchedText(s, h, WorkModes)))]
  }

  /** What `heuristic_extract` returns for `s`: one group of keys per pattern, or the exception it raises. */
  function Heuristics(s: string): Result<map<string, Json>, PyError> {
    match SalaryFields(s)
    case Failure(e) => Failure(e)
    case Success(salary) => Success(salary + LocationField(s) + VisaField(s) + RemoteField(s))
  }

  /** The six keys `heuristic_extract` can set. */
  const HeuristicKeys: set<string> :=
    {"salary_min", "salary_max", "currency", "location", "visa_sponsorship", "remote_hybrid"}

  lemma UpdateIsUnion(m: map<string, Json>, k: string, v: Json)
    ensures m[k := v] == m + map[k := v]
  {
  }

  /** The six keys are distinct strings. */
  lemma KeysDistinct()
    ensures |HeuristicKeys| == 6
    ensures "currency" != "location" && "salary_min" != "salary_max"
  {
    assert "currency"[0] != "location"[0];
    assert "salary_min"[8] != "salary_max"[8];
    assert HeuristicKeys == {"salary_min", "salary_max"} + {"currency", "location"} + {"visa_sponsorship", "remote_hybrid"};
  }

  /** `heuristic_extract`, filling the dict one pattern at a time. */
  method HeuristicExtract(text: string) returns (r: Result<map<string, Json>, PyError>)
    ensures r == Heuristics(text)
  {
    var info: map<string, Json> := map[];
    var salary := FindSalary(text, 0);
    if salary.Some? {
      var m := salary.value;
      var lo := PyInt(RemoveChar(LowGroup(text, m), ','));
      if lo.Failure? {
        return Failure(lo.error);
      }
      info := info["salary_min" := JInt(lo.value)];
      var hi := PyInt(RemoveChar(HighGroup(text, m), ','));
      if hi.Failure? {
        return Failure(hi.error);
      }
      info := info["salary_max" := JInt(hi.value)];
      info := info["currency" := JString("USD")];
    }
    assert SalaryFields(text) == Success(info);
    var loc := FindLocation(text, 0);
    if loc.Some? {
      UpdateIsUnion(info, "location", JString(LocationText(text, loc.value)));
      info := info["location" := JString(LocationText(text, loc.value))];
    }
    assert info == SalaryFields(text).value + LocationField(text);
    var visa := SearchIgnoreCase(text, VisaPhrases, 0);
    UpdateIsUnion(info, "visa_sponsorship", JBool(visa.None?));
    info := info["visa_sponsorship" := JBool(visa.None?)];
    assert info == SalaryFields(text).value + LocationField(text) + VisaField(text);
    var remote := SearchIgnoreCase(text, WorkModes, 0);
    if remote.Some? {
      UpdateIsUnion(info, "remote_hybrid", JString(Capitalize(MatchedText(text, remote.value, WorkModes))));
      info := info["remote_hybrid" := JString(Capitalize(MatchedText(text, remote.value, WorkModes)))];
    } else {
      assert info + RemoteField(text) == info;
    }
    return Success(info);
  }

  // ---------- properties of heuristic_extract ----------

  predicate OnlyCommas(g: string) {
    forall k :: 0 <= k < |g| ==> g[k] == ','
  }

  /** `int()` refuses a salary amount: it is only commas, or has more digits than the limit. */
  predicate AmountRejected(g: string) {
    OnlyCommas(g) || |RemoveChar(g, ',')| > IntMaxStrDigits
  }

  /** Removing the commas of a group of the salary pattern leaves digits, and nothing exactly when it was all commas. */
  lemma RemoveCommas(s: string, lo: nat, hi: nat)
    requires AllIn(s, lo, hi, DigitsOrCommas)
    ensures AllDigits(RemoveChar(s[lo..hi], ','))
    ensures RemoveChar(s[lo..hi], ',') == [] <==> OnlyCommas(s[lo..hi])
  {
    var g := s[lo..hi];
    var ds := RemoveChar(g, ',');
    forall k | 0 <= k < |ds| ensures IsAsciiDigit(ds[k]) {
      assert ds[k] in ds;
      var j :| 0 <= j < |g| && g[j] == ds[k];
      assert IsDigitOrComma(s[lo + j]);
    }
    if ds != [] {
      assert ds[0] in ds;
    }
    if !OnlyCommas(g) {
      var j :| 0 <= j < |g| && g[j] != ',';
      assert g[j] in g;
    }
  }

  /** The amounts of the salary match found, with commas removed, are digit strings. */
  lemma SalaryGroupsDigits(s: string, m: SalaryMatch)
    requires FindSalary(s, 0) == Some(m)
    ensures AllDigits(RemoveChar(LowGroup(s, m), ',')) && AllDigits(RemoveChar(HighGroup(s, m), ','))
    ensures RemoveChar(LowGroup(s, m), ',') == [] <==> OnlyCommas(LowGroup(s, m))
    ensures RemoveChar(HighGroup(s, m), ',') == [] <==> OnlyCommas(HighGroup(s, m))
  {
    SalaryAtSound(s, m.start);
    RemoveCommas(s, m.start + 1, m.lowEnd);
    RemoveCommas(s, m.highStart, m.highEnd);
  }

  /**
   * `heuristic_extract` raises exactly when the salary pattern matches and one of its amounts
   * is made only of commas or has more than 4300 digits, and what it raises is `ValueError`.
   */
  lemma HeuristicsFailure(s: string)
    ensures Heuristics(s).Failure? <==>
      FindSalary(s, 0).Some? && (AmountRejected(LowGroup(s, FindSalary(s, 0).value)) || AmountRejected(HighGroup(s, FindSalary(s, 0).value)))
    ensures Heuristics(s).Failure? ==> Heuristics(s).error == ValueError
  {
    if FindSalary(s, 0).Some? {
      SalaryGroupsDigits(s, FindSalary(s, 0).value);
    }
  }

  /** Only the salary pattern sets the salary keys. */
  lemma OthersLackSalaryKeys(s: string)
    ensures var others := LocationField(s) + VisaField(s) + RemoteField(s);
      "salary_min" !in others && "salary_max" !in others && "currency" !in others
  {
    KeysDistinct();
  }

  /** The salary keys the salary pattern yields. */
  lemma SalaryFieldsKeys(s: string)
    requires SalaryFields(s).Success?
    ensures var sal := SalaryFields(s).value;
      && ("salary_min" in sal <==> FindSalary(s, 0).Some?)
      && ("salary_max" in sal <==> FindSalary(s, 0).Some?)
      && ("currency" in sal <==> FindSalary(s, 0).Some?)
    ensures FindSalary(s, 0).Some? ==>
      var m := FindSalary(s, 0).value;
      AllDigits(RemoveChar(LowGroup(s, m), ',')) && AllDigits(RemoveChar(HighGroup(s, m), ','))
    ensures FindSalary(s, 0).Some? ==>
      var sal, m := SalaryFields(s).value, FindSalary(s, 0).value;
      && sal["salary_min"] == JInt(DecimalValue(RemoveChar(LowGroup(s, m), ',')))
      && sal["salary_max"] == JInt(DecimalValue(RemoveChar(HighGroup(s, m), ',')))
      && sal["currency"] == JString("USD")
  {
    if FindSalary(s, 0).Some? {
      SalaryGroupsDigits(s, FindSalary(s, 0).value);
    }
  }

  /**
   * The salary keys come together or not at all, exactly when the pattern matches; the bounds
   * are the amounts read without their commas and the currency is always "USD".
   */
  lemma SalaryKeys(s: string)
    requires Heuristics(s).Success?
    ensures var d := Heuristics(s).value;
      && ("salary_min" in d <==> FindSalary(s, 0).Some?)
      && ("salary_max" in d <==> FindSalary(s, 0).Some?)
      && ("currency" in d <==> FindSalary(s, 0).Some?)
    ensures FindSalary(s, 0).Some? ==>
      var m := FindSalary(s, 0).value;
      AllDigits(RemoveChar(LowGroup(s, m), ',')) && AllDigits(RemoveChar(HighGroup(s, m), ','))
    ensures FindSalary(s, 0).Some? ==>
      var d, m := Heuristics(s).value, FindSalary(s, 0).value;
      && d["salary_min"] == JInt(DecimalValue(RemoveChar(LowGroup(s, m), ',')))
      && d["salary_max"] == JInt(DecimalValue(RemoveChar(HighGroup(s, m), ',')))
      && d["currency"] == JString("USD")
  {
    var sal := SalaryFields(s).value;
    var others := LocationField(s) + VisaField(s) + RemoteField(s);
    UnionRegroup(sal, LocationField(s), VisaField(s), RemoteField(s));
    assert Heuristics(s).value == sal + others;
    OthersLackSalaryKeys(s);
    SalaryFieldsKeys(s);
  }

  lemma UnionRegroup(a: map<string, Json>, b: map<string, Json>, c: map<string, Json>, e: map<string, Json>)
    ensures a + b + c + e == a + (b + c + e)
  {
  }

  /** `location` is present exactly when the location pattern matches, and holds its first match. */
  lemma LocationKey(s: string)
    requires Heuristics(s).Success?
    ensures "location" in Heuristics(s).value <==> FindLocation(s, 0).Some?
    ensures FindLocation(s, 0).Some? ==>
      var m := FindLocation(s, 0).value;
      LocationShape(s, m) && Heuristics(s).value["location"] == JString(LocationText(s, m))
  {
    var sal := SalaryFields(s).value;
    var after := VisaField(s) + RemoteField(s);
    assert Heuristics(s).value == sal + LocationField(s) + after by {
      UnionRegroup3(sal + LocationField(s), VisaField(s), RemoteField(s));
    }
    KeysDistinct();
    assert "location" !in sal && "location" !in after;
    if FindLocation(s, 0).Some? {
      LocationAtSound(s, FindLocation(s, 0).value.start);
    }
  }

  lemma UnionRegroup3(a: map<string, Json>, b: map<string, Json>, c: map<string, Json>)
    ensures a + b + c == a + (b + c)
  {
  }

  /** The alternation finds nothing exactly when no branch occurs anywhere. */
  lemma SearchNoneIffAbsent(s: string, alts: seq<string>)
    ensures SearchIgnoreCase(s, alts, 0).None? <==> forall a :: 0 <= a < |alts| ==> !ContainsIgnoreCase(s, alts[a])
  {
    var r := SearchIgnoreCase(s, alts, 0);
    if r.Some? {
      assert ContainsIgnoreCase(s, alts[r.value.alt]);
    } else {
      forall a | 0 <= a < |alts| ensures !ContainsIgnoreCase(s, alts[a]) {
        if ContainsIgnoreCase(s, alts[a]) {
          var i :| 0 <= i && MatchesAtIgnoreCase(s, i, alts[a]);
          assert AnyMatchesAt(s, i, alts);
        }
      }
    }
  }

  /**
   * `visa_sponsorship` is always set, and is false exactly when one of the four phrases occurs
   * as a substring in any case.
   */
  lemma VisaKey(s: string)
    requires Heuristics(s).Success?
    ensures "visa_sponsorship" in Heuristics(s).value
    ensures Heuristics(s).value["visa_sponsorship"] == JBool(false) <==>
      exists a :: 0 <= a < |VisaPhrases| && ContainsIgnoreCase(s, VisaPhrases[a])
    ensures Heuristics(s).value["visa_sponsorship"] in {JBool(false), JBool(true)}
  {
    SearchNoneIffAbsent(s, VisaPhrases);
  }

  /** "opt" inside an ordinary word such as "option" already counts as a visa restriction. */
  lemma OptionDeniesSponsorship(s: string, i: nat)
    requires Heuristics(s).Success? && i + 6 <= |s| && s[i..i + 6] == "option"
    ensures Heuristics(s).value["visa_sponsorship"] == JBool(false)
  {
    assert VisaPhrases[2] == "opt";
    assert MatchesAtIgnoreCase(s, i, VisaPhrases[2]) by {
      assert s[i..i + 6][0] == 'o' && s[i..i + 6][1] == 'p' && s[i..i + 6][2] == 't';
    }
    VisaKey(s);
  }

  /** `remote_hybrid` is present exactly when a work mode occurs, and holds the first one, capitalised. */
  lemma RemoteKey(s: string)
    requires Heuristics(s).Success?
    ensures "remote_hybrid" in Heuristics(s).value <==> SearchIgnoreCase(s, WorkModes, 0).Some?
    ensures SearchIgnoreCase(s, WorkModes, 0).Some? ==>
      var h := SearchIgnoreCase(s, WorkModes, 0).value;
      Heuristics(s).value["remote_hybrid"] == JString(Capitalize(MatchedText(s, h, WorkModes)))
  {
    var before := SalaryFields(s).value + LocationField(s) + VisaField(s);
    assert Heuristics(s).value == before + RemoteField(s);
    assert "remote_hybrid" !in before by {
      assert "remote_hybrid" !in SalaryFields(s).value;
    }
  }

  /** Written in ASCII, the work mode reads "Remote", "Hybrid" or "On-site", whatever its case in the text. */
  lemma RemoteKeyAscii(s: string)
    requires Heuristics(s).Success? && SearchIgnoreCase(s, WorkModes, 0).Some?
    requires var h := SearchIgnoreCase(s, WorkModes, 0).value;
      forall k :: h.pos <= k < h.pos + |WorkModes[h.alt]| ==> s[k] < '\U{0080}'
    ensures Heuristics(s).value["remote_hybrid"] == JString(WorkModeDisplay[SearchIgnoreCase(s, WorkModes, 0).value.alt])
  {
    RemoteKey(s);
    CapitalizedWorkMode(s, SearchIgnoreCase(s, WorkModes, 0).value);
  }

  /** No key outside the six is ever set, and the visa flag always is. */
  lemma HeuristicsKeysBounded(s: string)
    requires Heuristics(s).Success?
    ensures Heuristics(s).value.Keys <= HeuristicKeys
    ensures "visa_sponsorship" in Heuristics(s).value
  {
  }

  // ---------- a worked salary ----------

  /** The salary line of the examples: a dollar range with thousands separators and spaces around the dash. */
  const SalaryExampleText: string := "$80,000 - $95,000"

  lemma SalaryExampleShape()
    ensures SalaryShape(SalaryExampleText, SalaryMatch(0, 7, 8, 10, 11, 17))
  {
    var s := SalaryExampleText;
    assert s[0] == '$' && s[7] == ' ' && s[8] == '-' && s[9] == ' ' && s[10] == '$';
    assert AllIn(s, 1, 7, DigitsOrCommas) by {
      assert s[1..7] == "80,000";
    }
    assert AllIn(s, 11, 17, DigitsOrCommas) by {
      assert s[11..17] == "95,000";
    }
  }
  /** A match that spans the whole text from its first character is what `re.search` finds. */
  lemma WholeMatchFound(s: string, m: SalaryMatch)
    requires SalaryShape(s, m) && m.start == 0 && m.highEnd == |s|
    ensures FindSalary(s, 0) == Some(m)
  {
    SalaryShapeForced(s, m);
  }
  lemma SalaryExampleFound()
    ensures FindSalary(SalaryExampleText, 0) == Some(SalaryMatch(0, 7, 8, 10, 11, 17))
  {
    SalaryExampleShape();
    WholeMatchFound(SalaryExampleText, SalaryMatch(0, 7, 8, 10, 11, 17));
  }
  lemma SalaryExampleGroups()
    ensures LowGroup(SalaryExampleText, SalaryMatch(0, 7, 8, 10, 11, 17)) == "80,000"
    ensures HighGroup(SalaryExampleText, SalaryMatch(0, 7, 8, 10, 11, 17)) == "95,000"
  {
    assert SalaryExampleText[1..7] == "80,000";
    assert SalaryExampleText[11..17] == "95,000";
  }
  lemma SalaryExampleNotCommas()
    ensures !OnlyCommas("80,000") && !OnlyCommas("95,000")
  {
    assert "80,000"[0] != ',' && "95,000"[0] != ',';
  }
  lemma SalaryExampleCommas()
    ensures RemoveChar("80,000", ',') == "80000" && RemoveChar("95,000", ',') == "95000"
  {
    CommaRemoved("80", "000");
    assert "80" + "," + "000" == "80,000" && "80" + "000" == "80000";
    CommaRemoved("95", "000");
    assert "95" + "," + "000" == "95,000" && "95" + "000" == "95000";
  }
  lemma SalaryExampleLow()
    ensures DecimalValue("80000") == 80000
  {
    assert DecimalValue("8") == 8;
    DecimalSnoc("8", '0');
    assert "8" + ['0'] == "80";
    DecimalSnoc("80", '0');
    assert "80" + ['0'] == "800";
    DecimalSnoc("800", '0');
    assert "800" + ['0'] == "8000";
    DecimalSnoc("8000", '0');
    assert "8000" + ['0'] == "80000";
  }
  lemma SalaryExampleHigh()
    ensures DecimalValue("95000") == 95000
  {
    assert DecimalValue("9") == 9;
    DecimalSnoc("9", '5');
    assert "9" + ['5'] == "95";
    DecimalSnoc("95", '0');
    assert "95" + ['0'] == "950";
    DecimalSnoc("950", '0');
    assert "950" + ['0'] == "9500";
    DecimalSnoc("9500", '0');
    assert "9500" + ['0'] == "95000";
  }
  /** The salary keys read from the match found, when `int()` accepts both amounts. */
  lemma SalaryFieldsOfGroups(s: string, m: SalaryMatch, lo: string, hi: string)
    requires FindSalary(s, 0) == Some(m) && LowGroup(s, m) == lo && HighGroup(s, m) == hi
    requires !AmountRejected(lo) && !AmountRejected(hi)
    ensures AllDigits(RemoveChar(lo, ',')) && AllDigits(RemoveChar(hi, ','))
    ensures SalaryFields(s) == Success(map["salary_min" := JInt(DecimalValue(RemoveChar(lo, ','))),
                                           "salary_max" := JInt(DecimalValue(RemoveChar(hi, ','))), "currency" := JString("USD")])
  {
    SalaryGroupsDigits(s, m);
  }
  /** "$80,000 - $95,000" gives the bounds 80000 and 95000 in US dollars. */
  lemma SalaryExample()
    ensures SalaryFields(SalaryExampleText) == Success(map["salary_min" := JInt(80000), "salary_max" := JInt(95000), "currency" := JString("USD")])
  {
    SalaryExampleFound();
    SalaryExampleGroups();
    SalaryExampleNotCommas();
    SalaryExampleCommas();
    SalaryFieldsOfGroups(SalaryExampleText, SalaryMatch(0, 7, 8, 10, 11, 17), "80,000", "95,000");
    SalaryExampleLow();
    SalaryExampleHigh();
  }

  // ---------- an amount over the digit limit ----------

  /** The text `"$" + ds + "-1"`: one salary range whose first amount is `ds`. */
  function DigitRange(ds: string): string {
    "$" + ds + "-1"
  }

  /** For an amount of plain digits, the salary pattern matches the whole of `"$" + ds + "-1"`. */
  lemma DigitRangeFound(ds: string)
    requires ds != [] && AllDigits(ds)
    ensures FindSalary(DigitRange(ds), 0) == Some(SalaryMatch(0, |ds| + 1, |ds| + 1, |ds| + 2, |ds| + 2, |ds| + 3))
  {
    var s := DigitRange(ds);
    var n := |ds|;
    var m := SalaryMatch(0, n + 1, n + 1, n + 2, n + 2, n + 3);
    assert s[0] == '$' && s[n + 1] == '-' && s[n + 2] == '1';
    forall k | 1 <= k < n + 1
      ensures InClass(s[k], DigitsOrCommas)
    {
      assert s[k] == ds[k - 1];
    }
    assert SalaryShape(s, m);
    WholeMatchFound(s, m);
  }

  /** With comma-free amounts, `SalaryFields` fails exactly when `int()` refuses the first one for its length. */
  lemma SalaryFieldsOfPlainGroups(s: string, m: SalaryMatch, lo: string, hi: string)
    requires FindSalary(s, 0) == Some(m) && LowGroup(s, m) == lo && HighGroup(s, m) == hi
    requires lo != [] && AllDigits(lo) && ',' !in lo
    requires hi != [] && AllDigits(hi) && ',' !in hi && |hi| <= IntMaxStrDigits
    ensures SalaryFields(s).Failure? <==> |lo| > IntMaxStrDigits
    ensures SalaryFields(s).Success? ==>
      SalaryFields(s).value == map["salary_min" := JInt(DecimalValue(lo)), "salary_max" := JInt(DecimalValue(hi)), "currency" := JString("USD")]
  {
    RemoveAbsentChar(lo, ',');
    RemoveAbsentChar(hi, ',');
  }

  /** A string of digits holds no comma. */
  lemma DigitsHaveNoComma(ds: string)
    requires AllDigits(ds)
    ensures ',' !in ds
  {
    forall k | 0 <= k < |ds|
      ensures ds[k] != ','
    {
      assert IsAsciiDigit(ds[k]);
    }
  }

  /** `heuristic_extract` of `"$" + ds + "-1"` raises exactly when `ds` has more than 4300 digits. */
  lemma DigitRangeHeuristics(ds: string)
    requires ds != [] && AllDigits(ds)
    ensures Heuristics(DigitRange(ds)).Failure? <==> |ds| > IntMaxStrDigits
  {
    var n := |ds|;
    var m := SalaryMatch(0, n + 1, n + 1, n + 2, n + 2, n + 3);
    DigitRangeFound(ds);
    DigitRangeGroups(ds);
    DigitsHaveNoComma(ds);
    PlainRangeHeuristics(DigitRange(ds), m, ds, "1");
  }

  /** With comma-free amounts, `heuristic_extract` raises exactly when the first is too long for `int()`. */
  lemma PlainRangeHeuristics(s: string, m: SalaryMatch, lo: string, hi: string)
    requires FindSalary(s, 0) == Some(m) && LowGroup(s, m) == lo && HighGroup(s, m) == hi
    requires lo != [] && AllDigits(lo) && ',' !in lo
    requires hi != [] && AllDigits(hi) && ',' !in hi && |hi| <= IntMaxStrDigits
    ensures Heuristics(s).Failure? <==> |lo| > IntMaxStrDigits
  {
    SalaryFieldsOfPlainGroups(s, m, lo, hi);
    HeuristicsFailsWithSalary(s);
  }

  /** The two amounts of `"$" + ds + "-1"` are `ds` and `"1"`. */
  lemma DigitRangeGroups(ds: string)
    requires ds != []
    ensures var n := |ds|; var m := SalaryMatch(0, n + 1, n + 1, n + 2, n + 2, n + 3);
      SalaryBounded(DigitRange(ds), m) && LowGroup(DigitRange(ds), m) == ds && HighGroup(DigitRange(ds), m) == "1"
  {
    var s := DigitRange(ds);
    var n := |ds|;
    assert s[1..n + 1] == ds;
    assert s[n + 2..n + 3] == "1";
  }

  /** `heuristic_extract` raises exactly when reading the salary amounts does. */
  lemma HeuristicsFailsWithSalary(s: string)
    ensures Heuristics(s).Failure? <==> SalaryFields(s).Failure?
  {
  }

  /** `"$" + "1" * 4301 + "-1"` makes `heuristic_extract` raise `ValueError`. */
  lemma OverlongAmountRaises()
    ensures Heuristics(DigitRange(seq(4301, k => '1'))) == Failure(ValueError)
  {
    var ds := seq(4301, k => '1');
    assert AllDigits(ds);
    DigitRangeHeuristics(ds);
    HeuristicsFailure(DigitRange(ds));
  }}
