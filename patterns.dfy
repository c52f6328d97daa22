/**
 * Hand-written matchers for the fixed regular expressions of app1_parser.py. Each pattern
 * has a scanner (a recursive search, as `re.search` runs it) whose contract relates it to
 * a direct statement of what the pattern matches.
 */
module Patterns {
  import opened Wrappers
  import opened PyText

  /** The lower-case literal `p` occurs in `s` at `i` under `re.IGNORECASE`. */
  predicate MatchesAtIgnoreCase(s: string, i: nat, p: string) {
    i + |p| <= |s| && forall k :: 0 <= k < |p| ==> CharMatchesIgnoreCase(s[i + k], p[k])
  }

  /** A match of `p` contains a match of each of its suffixes. */
  lemma MatchesAtSuffix(s: string, i: nat, p: string, d: nat)
    requires MatchesAtIgnoreCase(s, i, p) && d <= |p|
    ensures MatchesAtIgnoreCase(s, i + d, p[d..])
  {
    assert forall k :: 0 <= k < |p| - d ==> p[d..][k] == p[d + k];
  }

  /** `re.search(p, s, re.I)` succeeds, stated directly. */
  ghost predicate ContainsIgnoreCase(s: string, p: string) {
    exists i :: 0 <= i && MatchesAtIgnoreCase(s, i, p)
  }

  /** The position of the first case-insensitive occurrence of `p` at or after `from`. */
  function FindIgnoreCase(s: string, p: string, from: nat): (r: Option<nat>)
    ensures r.Some? ==> from <= r.value && MatchesAtIgnoreCase(s, r.value, p)
    ensures r.Some? ==> forall j :: from <= j < r.value ==> !MatchesAtIgnoreCase(s, j, p)
    ensures r.None? ==> forall j :: from <= j ==> !MatchesAtIgnoreCase(s, j, p)
    decreases |s| - from
  {
    if from + |p| > |s| then None
    else if MatchesAtIgnoreCase(s, from, p) then Some(from)
    else FindIgnoreCase(s, p, from + 1)
  }

  lemma FindIgnoreCaseFinds(s: string, p: string)
    ensures FindIgnoreCase(s, p, 0).Some? <==> ContainsIgnoreCase(s, p)
  {
    if ContainsIgnoreCase(s, p) {
      var i :| 0 <= i && MatchesAtIgnoreCase(s, i, p);
      assert !FindIgnoreCase(s, p, 0).None?;
    }
  }

  /** A match of the alternation `(alts[0]|alts[1]|...)`: where it starts and which branch won. */
  datatype Hit = Hit(pos: nat, alt: nat)

  /** Some branch of the alternation matches at `i`. */
  predicate AnyMatchesAt(s: string, i: nat, alts: seq<string>) {
    exists a :: 0 <= a < |alts| && MatchesAtIgnoreCase(s, i, alts[a])
  }

  /** The first branch, in pattern order, that matches at `i`. */
  function FirstBranch(s: string, i: nat, alts: seq<string>, a: nat): (r: Option<nat>)
    requires a <= |alts|
    ensures r.Some? ==> a <= r.value < |alts| && MatchesAtIgnoreCase(s, i, alts[r.value])
    ensures r.Some? ==> forall b :: a <= b < r.value ==> !MatchesAtIgnoreCase(s, i, alts[b])
    ensures r.None? ==> forall b :: a <= b < |alts| ==> !MatchesAtIgnoreCase(s, i, alts[b])
    decreases |alts| - a
  {
    if a == |alts| then None
    else if MatchesAtIgnoreCase(s, i, alts[a]) then Some(a)
    else FirstBranch(s, i, alts, a + 1)
  }

  /**
   * `re.search("(?i)(" + "|".join(alts) + ")", s[from:])` as CPython runs it: the leftmost
   * position where some branch matches, and there the first such branch.
   */
  function SearchIgnoreCase(s: string, alts: seq<string>, from: nat): (r: Option<Hit>)
    ensures r.Some? ==> from <= r.value.pos && r.value.alt < |alts|
    ensures r.Some? ==> MatchesAtIgnoreCase(s, r.value.pos, alts[r.value.alt])
    ensures r.Some? ==> forall b :: 0 <= b < r.value.alt ==> !MatchesAtIgnoreCase(s, r.value.pos, alts[b])
    ensures r.Some? ==> forall j :: from <= j < r.value.pos ==> !AnyMatchesAt(s, j, alts)
    ensures r.None? ==> forall j :: from <= j ==> !AnyMatchesAt(s, j, alts)
    decreases |s| - from
  {
    if from > |s| then
      assert forall j, a :: from <= j && 0 <= a < |alts| ==> !MatchesAtIgnoreCase(s, j, alts[a]);
      None
    else match FirstBranch(s, from, alts, 0)
      case Some(a) => Some(Hit(from, a))
      case None => SearchIgnoreCase(s, alts, from + 1)
  }

  /** No newline among `s[lo..hi]`: what `.` needs from every character it consumes. */
  ghost predicate NoNewline(s: string, lo: nat, hi: nat)
    requires hi <= |s|
  {
    forall m :: lo <= m < hi ==> s[m] != '\n'
  }

  // ---------- r"#+\s" ----------

  /** `#+\s` matches `s`, stated directly: a run of `#` ending right before a whitespace character. */
  ghost predicate HeadingMarkerIn(s: string) {
    exists i, j :: 0 <= i < j < |s| && HashRun(s, i, j) && IsSpace(s[j])
  }

  ghost predicate HashRun(s: string, i: nat, j: nat)
    requires j <= |s|
  {
    forall k :: i <= k < j ==> s[k] == '#'
  }

  /** Scan for a `#` followed by whitespace, at or after `i`. */
  function ScanHeadingMarker(s: string, i: nat): (r: bool)
    ensures r <==> exists m :: i <= m && m + 1 < |s| && s[m] == '#' && IsSpace(s[m + 1])
    decreases |s| - i
  {
    i + 1 < |s| && ((s[i] == '#' && IsSpace(s[i + 1])) || ScanHeadingMarker(s, i + 1))
  }

  lemma ScanHeadingMarkerCorrect(s: string)
    ensures ScanHeadingMarker(s, 0) <==> HeadingMarkerIn(s)
  {
    if HeadingMarkerIn(s) {
      var i, j :| 0 <= i < j < |s| && HashRun(s, i, j) && IsSpace(s[j]);
      assert s[j - 1] == '#';
    }
    if ScanHeadingMarker(s, 0) {
      var m :| 0 <= m && m + 1 < |s| && s[m] == '#' && IsSpace(s[m + 1]);
      assert HashRun(s, m, m + 1) && IsSpace(s[m + 1]);
    }
  }

  // ---------- r"\*\*.+\*\*" ----------

  predicate DoubleStarAt(s: string, j: nat) {
    j + 1 < |s| && s[j] == '*' && s[j + 1] == '*'
  }

  /** `\*\*.+\*\*` matches `s`, stated directly. */
  ghost predicate BoldIn(s: string) {
    exists i, j :: 0 <= i && i + 3 <= j && DoubleStarAt(s, i) && DoubleStarAt(s, j) && NoNewline(s, i + 2, j)
  }

  /** A closing `**` at some `j >= lo` with no newline in `s[k..j]`. */
  function ScanBoldClose(s: string, lo: nat, k: nat): (r: bool)
    ensures r <==> exists j :: lo <= j && k <= j && DoubleStarAt(s, j) && NoNewline(s, k, j)
    decreases |s| - k
  {
    k + 1 < |s| && s[k] != '\n' && ((lo <= k && DoubleStarAt(s, k)) || ScanBoldClose(s, lo, k + 1))
  }

  /** An opening `**` at or after `i` that a closing one completes. */
  function ScanBold(s: string, i: nat): (r: bool)
    ensures r <==> exists o, j :: i <= o && o + 3 <= j && DoubleStarAt(s, o) && DoubleStarAt(s, j) && NoNewline(s, o + 2, j)
    decreases |s| - i
  {
    i + 1 < |s| && ((DoubleStarAt(s, i) && ScanBoldClose(s, i + 3, i + 2)) || ScanBold(s, i + 1))
  }

  // ---------- r"\[.+\]\(.+\)" ----------

  /** `\[.+\]\(.+\)` matches `s`, stated directly. */
  ghost predicate LinkIn(s: string) {
    exists i, j, k :: 0 <= i && i + 2 <= j && j + 3 <= k && LinkShape(s, i, j, k)
  }

  /** `[` at `i`, `](` at `j`, `)` at `k`, and no newline in between. */
  ghost predicate LinkShape(s: string, i: nat, j: nat, k: nat) {
    i < j < k < |s| && s[i] == '[' && s[j] == ']' && s[j + 1] == '(' && s[k] == ')'
    && NoNewline(s, i + 1, j) && NoNewline(s, j + 2, k)
  }

  /** A `)` at some `k >= lo` with no newline in `s[m..k]`. */
  function ScanLinkClose(s: string, lo: nat, m: nat): (r: bool)
    ensures r <==> exists k :: lo <= k && m <= k < |s| && s[k] == ')' && NoNewline(s, m, k)
    decreases |s| - m
  {
    m < |s| && s[m] != '\n' && ((lo <= m && s[m] == ')') || ScanLinkClose(s, lo, m + 1))
  }

  /** `\]\(.+\)` matches at `j`. */
  predicate LinkMiddle(s: string, j: nat) {
    j + 1 < |s| && s[j] == ']' && s[j + 1] == '(' && ScanLinkClose(s, j + 3, j + 2)
  }

  /** A `](` at some `j >= lo`, no newline in `s[m..j]`, followed by a valid `.+\)`. */
  function ScanLinkMiddle(s: string, lo: nat, m: nat): (r: bool)
    ensures r <==> exists j :: lo <= j && m <= j && LinkMiddle(s, j) && NoNewline(s, m, j)
    decreases |s| - m
  {
    m + 1 < |s| && s[m] != '\n'
    && ((lo <= m && LinkMiddle(s, m)) || ScanLinkMiddle(s, lo, m + 1))
  }

  /** A `[` at or after `i` that the rest of the link pattern completes. */
  function ScanLink(s: string, i: nat): (r: bool)
    ensures r <==> exists o, j :: i <= o < |s| && o + 2 <= j && s[o] == '[' && LinkMiddle(s, j) && NoNewline(s, o + 1, j)
    decreases |s| - i
  {
    i < |s| && ((s[i] == '[' && ScanLinkMiddle(s, i + 2, i + 1)) || ScanLink(s, i + 1))
  }

  lemma ScanLinkCorrect(s: string)
    ensures ScanLink(s, 0) <==> LinkIn(s)
  {
    if LinkIn(s) {
      LinkInScanned(s);
    }
    if ScanLink(s, 0) {
      ScannedLinkIn(s);
    }
  }

  lemma LinkInScanned(s: string)
    requires LinkIn(s)
    ensures ScanLink(s, 0)
  {
    var i, j, k :| 0 <= i && i + 2 <= j && j + 3 <= k && LinkShape(s, i, j, k);
    assert ScanLinkClose(s, j + 3, j + 2);
    assert LinkMiddle(s, j);
  }

  lemma ScannedLinkIn(s: string)
    requires ScanLink(s, 0)
    ensures LinkIn(s)
  {
    var o, j :| 0 <= o < |s| && o + 2 <= j && s[o] == '[' && LinkMiddle(s, j) && NoNewline(s, o + 1, j);
    assert ScanLinkClose(s, j + 3, j + 2);
    var k :| j + 3 <= k && j + 2 <= k < |s| && s[k] == ')' && NoNewline(s, j + 2, k);
    assert LinkShape(s, o, j, k);
  }
}
