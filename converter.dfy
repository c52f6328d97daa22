/**
 * `SmartJobParser.detect_format` and `SmartJobParser.convert_to_markdown` (app1_parser.py):
 * format classification, then an ordered fold of ten keyword-to-heading substitutions.
 */
module MarkdownConverter {
  import opened Wrappers
  import opened PyText
  import opened Patterns

  datatype Format = Html | Markdown | Plain

  /** The `html_patterns` list; they are searched with `re.I`. */
  const HtmlPatterns: seq<string> := ["<div", "<p", "<ul", "<li", "<br"]

  /** Some html pattern occurs in `s`, ignoring case. */
  ghost predicate LooksLikeHtml(s: string) {
    exists p :: p in HtmlPatterns && ContainsIgnoreCase(s, p)
  }

  /** Some markdown pattern occurs in `s` (case-sensitive). */
  ghost predicate LooksLikeMarkdown(s: string) {
    HeadingMarkerIn(s) || BoldIn(s) || LinkIn(s)
  }

  function DetectFormat(s: string): (f: Format)
  {
    if exists p | p in HtmlPatterns :: FindIgnoreCase(s, p, 0).Some? then Html
    else if ScanHeadingMarker(s, 0) || ScanBold(s, 0) || ScanLink(s, 0) then Markdown
    else Plain
  }

  /** html wins whenever an html pattern occurs, markdown is only considered otherwise. */
  lemma DetectFormatClassifies(s: string)
    ensures DetectFormat(s) == Html <==> LooksLikeHtml(s)
    ensures DetectFormat(s) == Markdown <==> !LooksLikeHtml(s) && LooksLikeMarkdown(s)
    ensures DetectFormat(s) == Plain <==> !LooksLikeHtml(s) && !LooksLikeMarkdown(s)
  {
    forall p | p in HtmlPatterns
      ensures FindIgnoreCase(s, p, 0).Some? <==> ContainsIgnoreCase(s, p)
    {
      FindIgnoreCaseFinds(s, p);
    }
    ScanHeadingMarkerCorrect(s);
    ScanLinkCorrect(s);
  }

  // ---------- word-bounded substitution ----------

  /** A `(?i)\b(alt|...)\b` pattern and the heading that replaces each match. */
  datatype Rule = Rule(alts: seq<string>, heading: string)

  const JobDescriptionRule := Rule(["job description", "overview", "summary"], "## Job Description")
  const ResponsibilitiesRule := Rule(["responsibilities", "duties", "tasks"], ResponsibilitiesHeading)
  const ResponsibilitiesHeading := "## Responsibilities"
  const QualificationsRule := Rule(["qualifications", "required skills", "requirements"], "## Qualifications")
  const PreferredRule := Rule(["preferred", "nice to have"], "## Preferred Qualifications")
  const EducationRule := Rule(["education"], "## Education")
  const ExperienceRule := Rule(["experience"], "## Experience")
  const CompensationRule := Rule(["salary", "compensation", "pay"], "## Compensation")
  const LocationRule := Rule(["location", "work location"], "## Location")
  const AboutUsRule := Rule(["about us", "company overview"], "## About Us")
  const BenefitsRule := Rule(["benefits", "perks", "what we offer"], "## Benefits")

  /** The `mapping` dict of `convert_to_markdown`, in insertion order. */
  const Rules: seq<Rule> := [
    JobDescriptionRule, ResponsibilitiesRule, QualificationsRule, PreferredRule, EducationRule,
    ExperienceRule, CompensationRule, LocationRule, AboutUsRule, BenefitsRule
  ]

  /** No alternative is empty, so every match consumes text. */
  predicate WellFormed(r: Rule) {
    forall w :: w in r.alts ==> w != []
  }

  /** `\b` at position `x` of `s`. */
  predicate Boundary(s: string, x: nat) {
    x <= |s| && ((x > 0 && IsWordChar(s[x - 1])) != (x < |s| && IsWordChar(s[x])))
  }

  /** `\b` + `w` + `\b` matches at `i`, ignoring case. */
  predicate WordMatchAt(s: string, i: nat, w: string) {
    Boundary(s, i) && MatchesAtIgnoreCase(s, i, w) && Boundary(s, i + |w|)
  }

  /** At either end of the text, `\b` holds exactly when the text starts, or ends, with a word character. */
  lemma BoundaryAtEnds(s: string)
    ensures Boundary(s, 0) <==> |s| > 0 && IsWordChar(s[0])
    ensures Boundary(s, |s|) <==> |s| > 0 && IsWordChar(s[|s| - 1])
  {
  }

  /** The first alternative, in pattern order, whose bounded match succeeds at `i` (the regex backtracks into later ones). */
  function FirstWordMatch(s: string, i: nat, alts: seq<string>, a: nat): (r: Option<nat>)
    requires a <= |alts|
    ensures r.Some? ==> a <= r.value < |alts| && WordMatchAt(s, i, alts[r.value])
    ensures r.Some? ==> forall b :: a <= b < r.value ==> !WordMatchAt(s, i, alts[b])
    ensures r.None? ==> forall b :: a <= b < |alts| ==> !WordMatchAt(s, i, alts[b])
    decreases |alts| - a
  {
    if a == |alts| then None
    else if WordMatchAt(s, i, alts[a]) then Some(a)
    else FirstWordMatch(s, i, alts, a + 1)
  }

  /** `re.sub` of the rule over `s[i:]`, with `\b` judged on the whole of `s`. */
  function SubFrom(r: Rule, s: string, i: nat): string
    requires WellFormed(r)
    decreases |s| - i
  {
    if i >= |s| then []
    else match FirstWordMatch(s, i, r.alts, 0)
      case Some(a) =>
        assert r.alts[a] in r.alts;
        r.heading + SubFrom(r, s, i + |r.alts[a]|)
      case None => [s[i]] + SubFrom(r, s, i + 1)
  }

  /** Where an alternative matches, the scan emits the heading and resumes after the match. */
  lemma SubFromMatch(r: Rule, s: string, i: nat, a: nat)
    requires WellFormed(r) && i < |s| && FirstWordMatch(s, i, r.alts, 0) == Some(a)
    ensures SubFrom(r, s, i) == r.heading + SubFrom(r, s, i + |r.alts[a]|)
  {
  }

  /** Where nothing matches, the scan copies one character. */
  lemma SubFromCopy(r: Rule, s: string, i: nat)
    requires WellFormed(r) && i < |s| && FirstWordMatch(s, i, r.alts, 0).None?
    ensures SubFrom(r, s, i) == [s[i]] + SubFrom(r, s, i + 1)
  {
  }

  function ApplyRule(r: Rule, s: string): string
    requires WellFormed(r)
  {
    SubFrom(r, s, 0)
  }

  /** The substitutions, in order, each applied to the whole output of the previous one. */
  function ApplyRules(s: string, rules: seq<Rule>): string
    requires forall r :: r in rules ==> WellFormed(r)
    decreases rules
  {
    if rules == [] then s else ApplyRules(ApplyRule(rules[0], s), rules[1..])
  }

  lemma RulesWellFormed()
    ensures forall r :: r in Rules ==> WellFormed(r)
  {
  }

  /** The text the fold starts from: `markdownify` output for html, the text itself otherwise. */
  function Prepared(text: string, markdownify: string -> string): string {
    if DetectFormat(text) == Html then markdownify(text) else text
  }

  /** What `convert_to_markdown` returns. */
  function Converted(text: string, markdownify: string -> string): string {
    RulesWellFormed();
    Strip(ApplyRules(Prepared(text, markdownify), Rules))
  }

  /** `SmartJobParser.convert_to_markdown`, with `markdownify` as a parameter. */
  method ConvertToMarkdown(text: string, markdownify: string -> string) returns (r: string)
    ensures r == Converted(text, markdownify)
  {
    RulesWellFormed();
    var t := text;
    var fmt := DetectFormat(text);
    if fmt == Html {
      t := markdownify(text);
    }
    var i := 0;
    while i < |Rules|
      invariant 0 <= i <= |Rules|
      invariant ApplyRules(t, Rules[i..]) == ApplyRules(Prepared(text, markdownify), Rules)
    {
      assert Rules[i] in Rules;
      t := ApplyRule(Rules[i], t);
      assert Rules[i..][1..] == Rules[i + 1..];
      i := i + 1;
    }
    r := Strip(t);
  }

  /** `markdownify` is consulted only for text classified html. */
  lemma MarkdownifyOnlyForHtml(text: string, md1: string -> string, md2: string -> string)
    ensures DetectFormat(text) != Html ==> Converted(text, md1) == Converted(text, md2)
    ensures DetectFormat(text) == Html ==> Prepared(text, md1) == md1(text)
  {
  }

  // ---------- how the scan of `re.sub` proceeds ----------

  /** `s.endswith(suffix)` */
  predicate EndsWith(s: string, suffix: string) {
    |suffix| <= |s| && s[|s| - |suffix|..] == suffix
  }

  /** A match starting at `m` runs past position `j`, so the scan never stops at `j`. */
  predicate Straddles(r: Rule, s: string, m: nat, j: nat) {
    match FirstWordMatch(s, m, r.alts, 0)
    case Some(a) => m < j < m + |r.alts[a]|
    case None => false
  }

  /** If no match jumps over `j`, the scan from `i` reaches `j`: its output ends with the output from `j`. */
  lemma {:induction false} Reach(r: Rule, s: string, i: nat, j: nat)
    requires WellFormed(r) && i <= j <= |s|
    requires forall m :: i <= m < j ==> !Straddles(r, s, m, j)
    ensures EndsWith(SubFrom(r, s, i), SubFrom(r, s, j))
    decreases j - i
  {
    if i < j {
      match FirstWordMatch(s, i, r.alts, 0)
      case Some(a) =>
        var n := |r.alts[a]|;
        assert !Straddles(r, s, i, j);
        assert r.alts[a] in r.alts;
        Reach(r, s, i + n, j);
        SubFromMatch(r, s, i, a);
        EndsWithPrepend(r.heading, SubFrom(r, s, i + n), SubFrom(r, s, j));
      case None =>
        Reach(r, s, i + 1, j);
        SubFromCopy(r, s, i);
        EndsWithPrepend([s[i]], SubFrom(r, s, i + 1), SubFrom(r, s, j));
    }
  }

  /** Prepending text keeps a suffix. */
  lemma EndsWithPrepend(h: string, t: string, suffix: string)
    requires EndsWith(t, suffix)
    ensures EndsWith(h + t, suffix)
  {
    assert (h + t)[|h + t| - |suffix|..] == t[|t| - |suffix|..];
  }

  /** Where no match starts, `re.sub` copies the text unchanged. */
  lemma {:induction false} Verbatim(r: Rule, s: string, i: nat, j: nat)
    requires WellFormed(r) && i <= j <= |s|
    requires forall m :: i <= m < j ==> FirstWordMatch(s, m, r.alts, 0).None?
    ensures SubFrom(r, s, i) == s[i..j] + SubFrom(r, s, j)
    decreases j - i
  {
    if i < j {
      Verbatim(r, s, i + 1, j);
      assert s[i..j] == [s[i]] + s[i + 1..j];
    }
  }

  /** Every alternative is a single lower-case word. */
  predicate SingleWords(r: Rule) {
    forall w :: w in r.alts ==> LowerWord(w)
  }

  /** A non-empty word of lower-case ASCII letters. */
  predicate LowerWord(w: string) {
    w != [] && forall k :: 0 <= k < |w| ==> IsAsciiLower(w[k])
  }

  /** Lower-case ASCII letters and spaces, starting with a letter. */
  predicate LowerPhrase(w: string) {
    w != [] && IsAsciiLower(w[0]) && forall k :: 0 <= k < |w| ==> IsAsciiLower(w[k]) || w[k] == ' '
  }

  /**
   * For a rule of single words, every word-bounded occurrence of an alternative is a point
   * the scan reaches, and there the rule's heading is emitted.
   */
  lemma EveryOccurrenceReplaced(r: Rule, s: string, j: nat, w: string)
    requires SingleWords(r) && w in r.alts && WordMatchAt(s, j, w)
    ensures WellFormed(r)
    ensures FirstWordMatch(s, j, r.alts, 0).Some?
    ensures EndsWith(ApplyRule(r, s), r.heading + SubFrom(r, s, j + |r.alts[FirstWordMatch(s, j, r.alts, 0).value]|))
  {
    assert WellFormed(r) && j < |s| by {
      assert LowerWord(w);
    }
    assert FirstWordMatch(s, j, r.alts, 0).Some? by {
      var i :| 0 <= i < |r.alts| && r.alts[i] == w;
    }
    SingleWordsNotStraddled(r, s, j, w);
    Reach(r, s, 0, j);
    SubFromMatch(r, s, j, FirstWordMatch(s, j, r.alts, 0).value);
  }

  /** No match of a single word that starts before a word-bounded occurrence runs into it. */
  lemma SingleWordsNotStraddled(r: Rule, s: string, j: nat, w: string)
    requires SingleWords(r) && w in r.alts && WordMatchAt(s, j, w)
    ensures forall m :: 0 <= m < j ==> !Straddles(r, s, m, j)
  {
    forall m | 0 <= m < j
      ensures !Straddles(r, s, m, j)
    {
      SingleWordNotStraddled(r, s, j, w, m);
    }
  }

  /** A match of a single word that starts before a word-bounded occurrence ends before it. */
  lemma SingleWordNotStraddled(r: Rule, s: string, j: nat, w: string, m: nat)
    requires SingleWords(r) && w in r.alts && WordMatchAt(s, j, w) && m < j
    ensures !Straddles(r, s, m, j)
  {
    match FirstWordMatch(s, m, r.alts, 0)
    case Some(a) =>
      var u := r.alts[a];
      assert u in r.alts;
      assert LowerWord(u) && LowerWord(w);
      LetterMatchIsWordChar(s[j], w[0]);
      // the position of `u` that would sit just before the occurrence
      var k := if j < m + |u| then j - 1 - m else 0;
      LetterMatchIsWordChar(s[m + k], u[k]);
    case None =>
  }


  /**
   * Rule 2: each word-bounded, case-insensitive "responsibilities", "duties" or "tasks"
   * in the text it is applied to becomes "## Responsibilities".
   */
  lemma ResponsibilitiesReplaced(s: string, j: nat, w: string)
    requires w in ResponsibilitiesRule.alts && WordMatchAt(s, j, w)
    ensures WellFormed(ResponsibilitiesRule)
    ensures FirstWordMatch(s, j, ResponsibilitiesRule.alts, 0).Some?
    ensures ResponsibilitiesRule.alts[FirstWordMatch(s, j, ResponsibilitiesRule.alts, 0).value] == w
    ensures EndsWith(ApplyRule(ResponsibilitiesRule, s), "## Responsibilities" +
      SubFrom(ResponsibilitiesRule, s, j + |ResponsibilitiesRule.alts[FirstWordMatch(s, j, ResponsibilitiesRule.alts, 0).value]|))
    ensures Occurs(ApplyRule(ResponsibilitiesRule, s), ResponsibilitiesHeading)
  {
    ResponsibilitiesSingleWords();
    ResponsibilitiesFirstMatch(s, j, w);
    EveryOccurrenceReplaced(ResponsibilitiesRule, s, j, w);
    var a := FirstWordMatch(s, j, ResponsibilitiesRule.alts, 0).value;
    EndingOccurs(ApplyRule(ResponsibilitiesRule, s), ResponsibilitiesHeading, SubFrom(ResponsibilitiesRule, s, j + |ResponsibilitiesRule.alts[a]|));
  }

  /** The alternative of rule 2 that matches at `j` is the one that occurs there. */
  lemma ResponsibilitiesFirstMatch(s: string, j: nat, w: string)
    requires w in ResponsibilitiesRule.alts && WordMatchAt(s, j, w)
    ensures FirstWordMatch(s, j, ResponsibilitiesRule.alts, 0).Some?
    ensures ResponsibilitiesRule.alts[FirstWordMatch(s, j, ResponsibilitiesRule.alts, 0).value] == w
  {
    var r := ResponsibilitiesRule;
    ResponsibilitiesSingleWords();
    var i :| 0 <= i < |r.alts| && r.alts[i] == w;
    var u := r.alts[FirstWordMatch(s, j, r.alts, 0).value];
    assert u in r.alts && WordMatchAt(s, j, u);
    assert LowerWord(u) && LowerWord(w);
    CharMatchUnique(s[j], w[0], u[0]);
    ResponsibilitiesInitials();
  }

  /** The three alternatives of rule 2 start with different letters. */
  lemma ResponsibilitiesInitials()
    ensures forall w, u :: w in ResponsibilitiesRule.alts && u in ResponsibilitiesRule.alts && w[0] == u[0] ==> w == u
  {
    assert ResponsibilitiesRule.alts == ["responsibilities", "duties", "tasks"];
  }

  lemma ResponsibilitiesSingleWords()
    ensures SingleWords(ResponsibilitiesRule)
  {
    assert LowerWord("responsibilities") && LowerWord("duties") && LowerWord("tasks");
  }

  /** Every character of every alternative is a lower-case letter or a space, and each starts with a letter. */
  predicate LettersAndSpaces(r: Rule) {
    forall w :: w in r.alts ==> LowerPhrase(w)
  }

  lemma JobDescriptionShape()
    ensures LettersAndSpaces(JobDescriptionRule)
    ensures forall w :: w in JobDescriptionRule.alts ==> w[0] != 'c'
    ensures JobDescriptionRule.alts[0][0] == 'j' && JobDescriptionRule.alts[1] == "overview"
    ensures forall w, k :: w in JobDescriptionRule.alts && 0 <= k < |w| && w[k] == ' ' ==> w == "job description" && k == 3
  {
    assert JobDescriptionRule.alts == ["job description", "overview", "summary"];
    assert LowerPhrase("job description") && LowerPhrase("overview") && LowerPhrase("summary");
  }

  const CompanyOverview := "company overview"

  lemma CompanyOverviewChars()
    ensures |CompanyOverview| == 16 && CompanyOverview[0] == 'c' && CompanyOverview[7] == ' '
    ensures forall k :: 0 <= k < 7 ==> IsAsciiLower(CompanyOverview[k])
    ensures CompanyOverview[8..] == "overview"
  {
    assert LowerWord("company");
    assert CompanyOverview[..7] == "company";
  }

  /** Inside an alternative of rule 1, only the `d` of "description" follows a space. */
  lemma SpaceThenD(u: string, k: nat)
    requires u in JobDescriptionRule.alts && 0 < k < |u|
    ensures IsAsciiLower(u[k - 1]) || u[k - 1] == ' '
    ensures u[k - 1] == ' ' ==> u[k] == 'd'
  {
    assert JobDescriptionRule.alts == ["job description", "overview", "summary"];
  }

  /** A character matched by a letter or by a space that is followed by `d` cannot precede a `c` at a word boundary. */
  lemma NoBoundaryBeforeC(a: char, b: char, p: char, q: char)
    requires CharMatchesIgnoreCase(a, p) && CharMatchesIgnoreCase(b, q)
    requires IsAsciiLower(p) || p == ' '
    requires p == ' ' ==> q == 'd'
    ensures CharMatchesIgnoreCase(b, 'c') ==> IsWordChar(a)
  {
    if !IsWordChar(a) {
      NonWordMatchesItself(a, p);
      if p == ' ' && CharMatchesIgnoreCase(b, 'c') {
        CharMatchUnique(b, 'c', q);
      }
    }
  }

  /** An alternative of rule 1 matched at `m`, before the occurrence, cannot reach into it. */
  lemma CompanyOverviewNotReached(s: string, j: nat, m: nat, u: string)
    requires WordMatchAt(s, j, CompanyOverview) && m < j
    requires u in JobDescriptionRule.alts && MatchesAtIgnoreCase(s, m, u)
    ensures m + |u| <= j
  {
    CompanyOverviewChars();
    assert CharMatchesIgnoreCase(s[j], 'c');
    assert |u| > 1 by {
      assert JobDescriptionRule.alts == ["job description", "overview", "summary"];
    }
    // the position of `u` that would sit on the first letter of the occurrence
    var k := if j < m + |u| then j - m else 1;
    SpaceThenD(u, k);
    assert CharMatchesIgnoreCase(s[m + k], u[k]);
    assert CharMatchesIgnoreCase(s[m + k - 1], u[k - 1]);
    NoBoundaryBeforeC(s[m + k - 1], s[m + k], u[k - 1], u[k]);
  }



  /** A match of rule 1 that starts at `m`, before the occurrence, ends before it. */
  lemma CompanyOverviewNotStraddledAt(s: string, j: nat, m: nat)
    requires WordMatchAt(s, j, CompanyOverview) && m < j
    ensures !Straddles(JobDescriptionRule, s, m, j)
  {
    var r := JobDescriptionRule;
    match FirstWordMatch(s, m, r.alts, 0)
    case Some(a) =>
      assert r.alts[a] in r.alts;
      CompanyOverviewNotReached(s, j, m, r.alts[a]);
    case None =>
  }

  /** No match of rule 1 that starts before the occurrence runs into it. */
  lemma CompanyOverviewNotStraddled(s: string, j: nat)
    requires WordMatchAt(s, j, CompanyOverview)
    ensures WellFormed(JobDescriptionRule)
    ensures forall m :: 0 <= m < j ==> !Straddles(JobDescriptionRule, s, m, j)
  {
    JobDescriptionShape();
    forall m | 0 <= m < j
      ensures !Straddles(JobDescriptionRule, s, m, j)
    {
      CompanyOverviewNotStraddledAt(s, j, m);
    }
  }

  /** Rule 1 finds no match inside "company ". */
  lemma CompanyCopied(s: string, j: nat)
    requires WordMatchAt(s, j, CompanyOverview)
    ensures forall m :: j <= m < j + 8 ==> FirstWordMatch(s, m, JobDescriptionRule.alts, 0).None?
  {
    var r := JobDescriptionRule;
    JobDescriptionShape();
    CompanyOverviewChars();
    forall m | j <= m < j + 8
      ensures FirstWordMatch(s, m, r.alts, 0).None?
    {
      if FirstWordMatch(s, m, r.alts, 0).Some? {
        var u := r.alts[FirstWordMatch(s, m, r.alts, 0).value];
        assert u in r.alts;
        assert LowerPhrase(u);
        assert CharMatchesIgnoreCase(s[m], u[0]);
        if m == j {
          assert CharMatchesIgnoreCase(s[j], CompanyOverview[0]);
          CharMatchUnique(s[j], 'c', u[0]);
        } else if m < j + 7 {
          assert CharMatchesIgnoreCase(s[m - 1], CompanyOverview[m - 1 - j]);
          assert CharMatchesIgnoreCase(s[m], CompanyOverview[m - j]);
          LetterMatchIsWordChar(s[m - 1], CompanyOverview[m - 1 - j]);
          LetterMatchIsWordChar(s[m], CompanyOverview[m - j]);
        }
      }
    }
  }

  /** At "overview", rule 1 matches its second alternative. */
  lemma OverviewMatched(s: string, j: nat)
    requires WordMatchAt(s, j, CompanyOverview)
    ensures FirstWordMatch(s, j + 8, JobDescriptionRule.alts, 0) == Some(1)
  {
    var r := JobDescriptionRule;
    JobDescriptionShape();
    CompanyOverviewChars();
    assert CharMatchesIgnoreCase(s[j + 7], CompanyOverview[7]);
    MatchesAtSuffix(s, j, CompanyOverview, 8);
    assert "overview"[0] == 'o';
    assert CharMatchesIgnoreCase(s[j + 8], 'o');
    LetterMatchIsWordChar(s[j + 8], 'o');
    assert WordMatchAt(s, j + 8, "overview");
    var a := FirstWordMatch(s, j + 8, r.alts, 0).value;
    assert a <= 1;
    if a == 0 {
      CharMatchUnique(s[j + 8], 'o', r.alts[0][0]);
    }
  }

  /**
   * "company overview" never reaches rule 9: rule 1 replaces its "overview" with
   * "## Job Description" and leaves "company " as it was.
   */
  lemma CompanyOverviewPreempted(s: string, j: nat)
    requires WordMatchAt(s, j, CompanyOverview)
    ensures WellFormed(JobDescriptionRule)
    ensures EndsWith(ApplyRule(JobDescriptionRule, s), s[j..j + 8] + "## Job Description" + SubFrom(JobDescriptionRule, s, j + 16))
  {
    var r := JobDescriptionRule;
    CompanyOverviewNotStraddled(s, j);
    Reach(r, s, 0, j);
    CompanyCopied(s, j);
    Verbatim(r, s, j, j + 8);
    var rest := SubFrom(r, s, j + 16);
    assert SubFrom(r, s, j + 8) == "## Job Description" + rest by {
      OverviewMatched(s, j);
      CompanyOverviewChars();
      SubFromMatch(r, s, j + 8, 1);
      assert r.alts[1] == "overview" && r.heading == "## Job Description";
    }
    ConcatAssoc(s[j..j + 8], "## Job Description", rest);
  }

  // ---------- the heading of rule 2 survives rules 3 to 10 ----------

  const ResponsibilitiesWord := "responsibilities"

  /** `w` occurs in `t` at `p`. */
  predicate OccursAt(t: string, p: nat, w: string) {
    p + |w| <= |t| && t[p..p + |w|] == w
  }

  /** `w in t` */
  ghost predicate Occurs(t: string, w: string) {
    exists p: nat :: OccursAt(t, p, w)
  }

  /** `w` can not match where "responsibilities" is written: they differ within its first 16 letters. */
  ghost predicate DiffersFromResponsibilities(w: string) {
    exists k :: 0 <= k < |w| && k < |ResponsibilitiesWord| && w[k] != ResponsibilitiesWord[k]
  }

  lemma DiffersAt(w: string, k: nat)
    requires k < |w| && k < |ResponsibilitiesWord| && w[k] != ResponsibilitiesWord[k]
    ensures DiffersFromResponsibilities(w)
  {
  }

  /** No alternative of `r` can match any part of "## Responsibilities". */
  ghost predicate AvoidsResponsibilities(r: Rule) {
    WellFormed(r) && forall w :: w in r.alts ==> LowerPhrase(w) && DiffersFromResponsibilities(w)
  }

  lemma HeadingChars()
    ensures |ResponsibilitiesHeading| == 19 && |ResponsibilitiesWord| == 16
    ensures ResponsibilitiesHeading[0] == '#' && ResponsibilitiesHeading[1] == '#' && ResponsibilitiesHeading[2] == ' '
    ensures forall k :: 3 <= k < 19 ==> IsWordChar(ResponsibilitiesHeading[k])
    ensures forall k :: 3 <= k < 19 ==> CharMatchesIgnoreCase(ResponsibilitiesHeading[k], ResponsibilitiesWord[k - 3])
    ensures LowerWord(ResponsibilitiesWord)
  {
    assert ResponsibilitiesHeading[3..] == "Responsibilities";
    assert LowerWord(ResponsibilitiesWord);
  }

  /** The heading's characters, one by one. */
  lemma HeadingAt(t: string, p: nat)
    requires OccursAt(t, p, ResponsibilitiesHeading)
    ensures forall i :: p <= i < p + 19 ==> t[i] == ResponsibilitiesHeading[i - p]
  {
    forall i | p <= i < p + 19 ensures t[i] == ResponsibilitiesHeading[i - p] {
      assert t[p..p + 19][i - p] == t[i];
    }
  }

  /** No match of the rule that starts before the heading reaches into it. */
  lemma HeadingNotStraddled(r: Rule, t: string, p: nat)
    requires AvoidsResponsibilities(r) && OccursAt(t, p, ResponsibilitiesHeading)
    ensures forall m :: 0 <= m < p ==> !Straddles(r, t, m, p)
  {
    HeadingChars();
    HeadingAt(t, p);
    forall m | 0 <= m < p
      ensures !Straddles(r, t, m, p)
    {
      match FirstWordMatch(t, m, r.alts, 0)
      case Some(a) =>
        var u := r.alts[a];
        assert u in r.alts;
        assert LowerPhrase(u);
        // the position of `u` that would sit on the heading's first character
        var k := if p < m + |u| then p - m else 0;
        assert CharMatchesIgnoreCase(t[m + k], u[k]);
      case None =>
    }
  }

  /** No match of the rule starts inside the heading. */
  lemma HeadingNotMatched(r: Rule, t: string, p: nat)
    requires AvoidsResponsibilities(r) && OccursAt(t, p, ResponsibilitiesHeading)
    ensures forall m :: p <= m < p + 19 ==> FirstWordMatch(t, m, r.alts, 0).None?
  {
    var h := ResponsibilitiesHeading;
    HeadingChars();
    HeadingAt(t, p);
    forall m | p <= m < p + 19
      ensures FirstWordMatch(t, m, r.alts, 0).None?
    {
      if FirstWordMatch(t, m, r.alts, 0).Some? {
        var u := r.alts[FirstWordMatch(t, m, r.alts, 0).value];
        assert u in r.alts;
        assert LowerPhrase(u) && DiffersFromResponsibilities(u);
        if m < p + 3 {
          LetterMatchIsWordChar(t[m], u[0]);
        } else if m == p + 3 {
          var k :| 0 <= k < |u| && k < 16 && u[k] != ResponsibilitiesWord[k];
          assert CharMatchesIgnoreCase(t[m + k], u[k]);
          assert CharMatchesIgnoreCase(t[m + k], ResponsibilitiesWord[k]) by {
            assert t[m + k] == h[k + 3];
          }
          CharMatchUnique(t[m + k], u[k], ResponsibilitiesWord[k]);
        }
        // further in, the position lies inside a word, where `\b` fails
      }
    }
  }

  /** A rule that avoids the heading leaves each of its occurrences in place. */
  lemma HeadingSurvives(r: Rule, t: string, p: nat)
    requires AvoidsResponsibilities(r) && OccursAt(t, p, ResponsibilitiesHeading)
    ensures EndsWith(ApplyRule(r, t), ResponsibilitiesHeading + SubFrom(r, t, p + 19))
  {
    var h := ResponsibilitiesHeading;
    HeadingAt(t, p);
    HeadingNotStraddled(r, t, p);
    HeadingNotMatched(r, t, p);
    Reach(r, t, 0, p);
    Verbatim(r, t, p, p + 19);
    assert SubFrom(r, t, p) == h + SubFrom(r, t, p + 19);
  }

  lemma QualificationsAvoids()
    ensures AvoidsResponsibilities(QualificationsRule)
  {
    assert LowerPhrase("qualifications") && LowerPhrase("required skills") && LowerPhrase("requirements");
    DiffersAt("qualifications", 0);
    DiffersAt("required skills", 2);
    DiffersAt("requirements", 2);
  }

  lemma PreferredAvoids()
    ensures AvoidsResponsibilities(PreferredRule)
  {
    assert LowerPhrase("preferred") && LowerPhrase("nice to have");
    DiffersAt("preferred", 0);
    DiffersAt("nice to have", 0);
  }

  lemma EducationAndExperienceAvoid()
    ensures AvoidsResponsibilities(EducationRule) && AvoidsResponsibilities(ExperienceRule)
  {
    assert LowerPhrase("education") && LowerPhrase("experience");
    DiffersAt("education", 0);
    DiffersAt("experience", 0);
  }

  lemma CompensationAvoids()
    ensures AvoidsResponsibilities(CompensationRule)
  {
    assert LowerPhrase("salary") && LowerPhrase("compensation") && LowerPhrase("pay");
    DiffersAt("salary", 0);
    DiffersAt("compensation", 0);
    DiffersAt("pay", 0);
  }

  lemma LocationAvoids()
    ensures AvoidsResponsibilities(LocationRule)
  {
    assert LowerPhrase("location") && LowerPhrase("work location");
    DiffersAt("location", 0);
    DiffersAt("work location", 0);
  }

  lemma AboutUsAvoids()
    ensures AvoidsResponsibilities(AboutUsRule)
  {
    assert LowerPhrase("about us") && LowerPhrase("company overview");
    DiffersAt("about us", 0);
    DiffersAt("company overview", 0);
  }

  lemma BenefitsAvoids()
    ensures AvoidsResponsibilities(BenefitsRule)
  {
    assert LowerPhrase("benefits") && LowerPhrase("perks") && LowerPhrase("what we offer");
    DiffersAt("benefits", 0);
    DiffersAt("perks", 0);
    DiffersAt("what we offer", 0);
  }

  /** Every rule after the second avoids "## Responsibilities". */
  lemma LaterRulesAvoidResponsibilities()
    ensures forall r :: r in Rules[2..] ==> AvoidsResponsibilities(r)
  {
    QualificationsAvoids();
    PreferredAvoids();
    EducationAndExperienceAvoid();
    CompensationAvoids();
    LocationAvoids();
    AboutUsAvoids();
    BenefitsAvoids();
    assert Rules[2..] == [QualificationsRule, PreferredRule, EducationRule, ExperienceRule, CompensationRule,
      LocationRule, AboutUsRule, BenefitsRule];
  }

  /** The heading, once written, survives every later rule of a run that avoids it. */
  lemma {:induction false} ChainSurvives(t: string, rules: seq<Rule>)
    requires forall r :: r in rules ==> WellFormed(r) && AvoidsResponsibilities(r)
    requires Occurs(t, ResponsibilitiesHeading)
    ensures Occurs(ApplyRules(t, rules), ResponsibilitiesHeading)
    decreases rules
  {
    if rules != [] {
      var r := rules[0];
      assert r in rules;
      var p: nat :| OccursAt(t, p, ResponsibilitiesHeading);
      HeadingSurvives(r, t, p);
      var out := ApplyRule(r, t);
      var tail := ResponsibilitiesHeading + SubFrom(r, t, p + 19);
      assert OccursAt(out, |out| - |tail|, ResponsibilitiesHeading) by {
        assert out[|out| - |tail|..] == tail;
        assert tail[..19] == ResponsibilitiesHeading;
      }
      assert forall q :: q in rules[1..] ==> q in rules;
      ChainSurvives(out, rules[1..]);
    }
  }

  /** `strip()` keeps an occurrence of a text that neither starts nor ends with whitespace. */
  lemma StripKeepsOccurrence(t: string, w: string)
    requires w != [] && !IsSpace(w[0]) && !IsSpace(w[|w| - 1])
    requires Occurs(t, w)
    ensures Occurs(Strip(t), w)
  {
    var p: nat :| OccursAt(t, p, w);
    var lo, hi := LeadingSpaces(t), TrimmedEnd(t);
    assert lo <= p && p + |w| <= hi by {
      assert t[p] == w[0] by { assert t[p..p + |w|][0] == t[p]; }
      assert t[p + |w| - 1] == w[|w| - 1] by { assert t[p..p + |w|][|w| - 1] == t[p + |w| - 1]; }
      LeadingSpacesAreSpaces(t);
      TrimmedEndAreSpaces(t);
    }
    assert Strip(t) == t[lo..hi] by {
      assert !IsSpace(t[p]);
    }
    SliceKeepsOccurrence(t, lo, hi, p, w);
  }

  /** A slice that spans an occurrence keeps it, shifted by the slice's start. */
  lemma SliceKeepsOccurrence(t: string, lo: nat, hi: nat, p: nat, w: string)
    requires lo <= p && p + |w| <= hi <= |t|
    requires OccursAt(t, p, w)
    ensures OccursAt(t[lo..hi], p - lo, w)
  {
    var u := t[lo..hi];
    var a, b := u[p - lo..p - lo + |w|], t[p..p + |w|];
    forall i | 0 <= i < |w| ensures a[i] == b[i] {
      assert u[p - lo + i] == t[p + i];
    }
    assert a == b;
  }

  /** The text rule 2 is applied to. */
  function AfterFirstRule(text: string, markdownify: string -> string): string {
    RulesWellFormed();
    assert JobDescriptionRule in Rules;
    ApplyRule(JobDescriptionRule, Prepared(text, markdownify))
  }

  /** A text that ends with `w + rest` contains `w`. */
  lemma EndingOccurs(t: string, w: string, rest: string)
    requires EndsWith(t, w + rest)
    ensures Occurs(t, w)
  {
    var tail := w + rest;
    assert OccursAt(t, |t| - |tail|, w) by {
      assert t[|t| - |tail|..] == tail;
      assert t[|t| - |tail|..][..|w|] == tail[..|w|] == w;
    }
  }

  /** The rule chain is rule 1, then rule 2, then the remaining rules. */
  lemma RulesAfterSecond(text: string, markdownify: string -> string)
    ensures forall r :: r in Rules[2..] ==> WellFormed(r)
    ensures ApplyRules(Prepared(text, markdownify), Rules) ==
      ApplyRules(ApplyRule(ResponsibilitiesRule, AfterFirstRule(text, markdownify)), Rules[2..])
  {
    RulesWellFormed();
    assert forall r :: r in Rules[2..] ==> r in Rules;
    assert Rules[0] == JobDescriptionRule && Rules[1..][0] == ResponsibilitiesRule;
    assert Rules[1..][1..] == Rules[2..];
  }

  /**
   * Each word-bounded "responsibilities", "duties" or "tasks" that reaches rule 2 leaves a
   * "## Responsibilities" heading in what `convert_to_markdown` returns.
   */
  lemma ConvertedHasResponsibilities(text: string, markdownify: string -> string, j: nat, w: string)
    requires w in ResponsibilitiesRule.alts && WordMatchAt(AfterFirstRule(text, markdownify), j, w)
    ensures Occurs(Converted(text, markdownify), ResponsibilitiesHeading)
  {
    RulesWellFormed();
    var t1 := AfterFirstRule(text, markdownify);
    ResponsibilitiesReplaced(t1, j, w);
    var t2 := ApplyRule(ResponsibilitiesRule, t1);
    RulesAfterSecond(text, markdownify);
    var t3 := ApplyRules(t2, Rules[2..]);
    assert Occurs(t3, ResponsibilitiesHeading) by {
      LaterRulesAvoidResponsibilities();
      ChainSurvives(t2, Rules[2..]);
    }
    assert Converted(text, markdownify) == Strip(t3);
    assert Occurs(Strip(t3), ResponsibilitiesHeading) by {
      HeadingChars();
      StripKeepsOccurrence(t3, ResponsibilitiesHeading);
    }
  }

  // ---------- rule 1 leaves the words of rule 2 in place ----------

  /** No alternative of rule 1 starts with the letter of an alternative of rule 2, and only "duties" starts with `d`. */
  lemma RuleOneAndTwoInitials()
    ensures forall u, w :: u in JobDescriptionRule.alts && w in ResponsibilitiesRule.alts ==> u[0] != w[0]
    ensures forall w :: w in ResponsibilitiesRule.alts && w[0] == 'd' ==> w == "duties"
  {
    assert JobDescriptionRule.alts == ["job description", "overview", "summary"];
    assert ResponsibilitiesRule.alts == ["responsibilities", "duties", "tasks"];
  }

  /** The letters of a word-bounded occurrence of a rule-2 word are word characters, and the ones around it are not. */
  lemma RuleTwoWordEdges(s: string, j: nat, w: string)
    requires w in ResponsibilitiesRule.alts && WordMatchAt(s, j, w)
    ensures LowerWord(w)
    ensures forall k :: j <= k < j + |w| ==> IsWordChar(s[k])
    ensures j > 0 ==> !IsWordChar(s[j - 1])
    ensures j + |w| < |s| ==> !IsWordChar(s[j + |w|])
  {
    ResponsibilitiesSingleWords();
    forall k | j <= k < j + |w| ensures IsWordChar(s[k]) {
      assert CharMatchesIgnoreCase(s[j + (k - j)], w[k - j]);
      LetterMatchIsWordChar(s[k], w[k - j]);
    }
  }

  /** Rule 1 finds no match inside a word-bounded occurrence of a rule-2 word. */
  lemma RuleOneNotInside(s: string, j: nat, w: string)
    requires w in ResponsibilitiesRule.alts && WordMatchAt(s, j, w)
    ensures forall m :: j <= m < j + |w| ==> FirstWordMatch(s, m, JobDescriptionRule.alts, 0).None?
  {
    var r := JobDescriptionRule;
    JobDescriptionShape();
    RuleOneAndTwoInitials();
    RuleTwoWordEdges(s, j, w);
    forall m | j <= m < j + |w|
      ensures FirstWordMatch(s, m, r.alts, 0).None?
    {
      if FirstWordMatch(s, m, r.alts, 0).Some? {
        var u := r.alts[FirstWordMatch(s, m, r.alts, 0).value];
        assert u in r.alts && LowerPhrase(u);
        if m == j {
          assert CharMatchesIgnoreCase(s[j], w[0]) && CharMatchesIgnoreCase(s[j], u[0]);
          CharMatchUnique(s[j], w[0], u[0]);
        }
        // further in, both neighbours are word characters, so `\b` fails
      }
    }
  }

  /** A match of rule 1 that starts before a word-bounded rule-2 word ends before it, with a character to spare. */
  lemma RuleOneEndsBefore(s: string, j: nat, w: string, m: nat, u: string)
    requires w in ResponsibilitiesRule.alts && WordMatchAt(s, j, w) && m < j
    requires u in JobDescriptionRule.alts && MatchesAtIgnoreCase(s, m, u)
    ensures m + |u| < j
  {
    if j <= m + |u| {
      RuleOneOverlapAtSpace(s, j, w, m, u);
      // `u` goes on with "de" where the occurrence reads "du"
      RuleTwoWordEdges(s, j, w);
      assert CharMatchesIgnoreCase(s[j], u[4]) && CharMatchesIgnoreCase(s[j], w[0]);
      CharMatchUnique(s[j], w[0], u[4]);
      RuleOneAndTwoInitials();
      assert CharMatchesIgnoreCase(s[j + 1], u[5]) && CharMatchesIgnoreCase(s[j + 1], w[1]);
      CharMatchUnique(s[j + 1], w[1], u[5]);
    }
  }

  /** A match of rule 1 that reaches a word-bounded rule-2 word can only be "job description" with its space just before it. */
  lemma RuleOneOverlapAtSpace(s: string, j: nat, w: string, m: nat, u: string)
    requires w in ResponsibilitiesRule.alts && WordMatchAt(s, j, w) && m < j
    requires u in JobDescriptionRule.alts && MatchesAtIgnoreCase(s, m, u)
    requires j <= m + |u|
    ensures u == "job description" && j == m + 4
  {
    JobDescriptionShape();
    RuleTwoWordEdges(s, j, w);
    var k := j - 1 - m;
    assert CharMatchesIgnoreCase(s[m + k], u[k]);
    if u[k] != ' ' {
      LetterMatchIsWordChar(s[j - 1], u[k]);
    }
  }

  /** A match at `m` ends before `j`. */
  predicate EndsBefore(r: Rule, s: string, m: nat, j: nat) {
    match FirstWordMatch(s, m, r.alts, 0)
    case Some(a) => m + |r.alts[a]| < j
    case None => true
  }

  /** If every match before `j` ends before it, the scan copies the character before `j` and goes on from `j`. */
  lemma ReachByCopy(r: Rule, s: string, j: nat)
    requires WellFormed(r) && 0 < j <= |s|
    requires forall m :: 0 <= m < j ==> EndsBefore(r, s, m, j)
    ensures EndsWith(SubFrom(r, s, 0), [s[j - 1]] + SubFrom(r, s, j))
  {
    var i := j - 1;
    forall m | 0 <= m < i ensures !Straddles(r, s, m, i) {
      assert EndsBefore(r, s, m, j);
    }
    Reach(r, s, 0, i);
    assert FirstWordMatch(s, j - 1, r.alts, 0).None? by {
      assert EndsBefore(r, s, j - 1, j);
      if FirstWordMatch(s, j - 1, r.alts, 0).Some? {
        assert r.alts[FirstWordMatch(s, j - 1, r.alts, 0).value] in r.alts;
      }
    }
    SubFromCopy(r, s, j - 1);
  }

  /** The scan from `i` writes nothing exactly at the end, and otherwise starts with `s[i]` or with the heading. */
  lemma SubFromHead(r: Rule, s: string, i: nat)
    requires WellFormed(r) && r.heading != []
    ensures i >= |s| ==> SubFrom(r, s, i) == []
    ensures i < |s| ==> SubFrom(r, s, i) != [] && (SubFrom(r, s, i)[0] == s[i] || SubFrom(r, s, i)[0] == r.heading[0])
  {
  }

  /** Where `out` reads `s[j..j + |w|]` at `p`, with a non-word character or an edge on each side, `w` is matched at `p`. */
  lemma WordMatchCopied(s: string, j: nat, w: string, out: string, p: nat)
    requires w in ResponsibilitiesRule.alts && WordMatchAt(s, j, w)
    requires p + |w| <= |out| && out[p..p + |w|] == s[j..j + |w|]
    requires p > 0 ==> !IsWordChar(out[p - 1])
    requires p + |w| < |out| ==> !IsWordChar(out[p + |w|])
    ensures WordMatchAt(out, p, w)
  {
    RuleTwoWordEdges(s, j, w);
    forall k | 0 <= k < |w| ensures out[p + k] == s[j + k] && CharMatchesIgnoreCase(out[p + k], w[k]) {
      assert out[p..p + |w|][k] == s[j..j + |w|][k];
    }
    var last := |w| - 1;
    assert out[p] == s[j] && out[p + last] == s[j + last];
    assert IsWordChar(s[j]) && IsWordChar(s[j + last]);
    assert Boundary(out, p) && Boundary(out, p + |w|);
  }

  /** Every match of rule 1 before a word-bounded rule-2 word ends before the character that precedes it. */
  lemma RuleOneMatchesEndBefore(s: string, j: nat, w: string)
    requires w in ResponsibilitiesRule.alts && WordMatchAt(s, j, w)
    ensures forall m :: 0 <= m < j ==> EndsBefore(JobDescriptionRule, s, m, j)
  {
    var r := JobDescriptionRule;
    forall m | 0 <= m < j ensures EndsBefore(r, s, m, j) {
      if FirstWordMatch(s, m, r.alts, 0).Some? {
        var u := r.alts[FirstWordMatch(s, m, r.alts, 0).value];
        assert u in r.alts;
        RuleOneEndsBefore(s, j, w, m, u);
      }
    }
  }

  /** The character before position `j`, if any. */
  function Before(s: string, j: nat): string
    requires j <= |s|
  {
    if j == 0 then [] else [s[j - 1]]
  }

  /**
   * Rule 1's output ends with the character before the word, the word as written, and the
   * rule's output from after the word; from the start of the text, that is all of it.
   */
  lemma RuleOneOutputEnds(s: string, j: nat, w: string)
    requires w in ResponsibilitiesRule.alts && WordMatchAt(s, j, w)
    ensures WellFormed(JobDescriptionRule)
    ensures var tail := Before(s, j) + (s[j..j + |w|] + SubFrom(JobDescriptionRule, s, j + |w|));
      EndsWith(ApplyRule(JobDescriptionRule, s), tail) && (j == 0 ==> ApplyRule(JobDescriptionRule, s) == tail)
  {
    var r := JobDescriptionRule;
    JobDescriptionShape();
    RuleOneNotInside(s, j, w);
    Verbatim(r, s, j, j + |w|);
    var tail := Before(s, j) + (s[j..j + |w|] + SubFrom(r, s, j + |w|));
    if j == 0 {
      assert tail == SubFrom(r, s, 0);
    } else {
      assert tail == [s[j - 1]] + SubFrom(r, s, j);
      RuleOneMatchesEndBefore(s, j, w);
      ReachByCopy(r, s, j);
    }
  }

  /** A word-bounded "responsibilities", "duties" or "tasks" is still one, letter for letter, after rule 1. */
  lemma RuleOneKeepsWord(s: string, j: nat, w: string)
    requires w in ResponsibilitiesRule.alts && WordMatchAt(s, j, w)
    ensures WellFormed(JobDescriptionRule)
    ensures exists p :: WordMatchAt(ApplyRule(JobDescriptionRule, s), p, w)
  {
    var r := JobDescriptionRule;
    RuleOneOutputEnds(s, j, w);
    RuleTwoWordEdges(s, j, w);
    var seg, rest := s[j..j + |w|], SubFrom(r, s, j + |w|);
    SubFromHead(r, s, j + |w|);
    assert rest != [] ==> !IsWordChar(rest[0]) by {
      assert r.heading[0] == '#';
    }
    var out := ApplyRule(r, s);
    var tail := Before(s, j) + (seg + rest);
    var p := |out| - |tail| + |Before(s, j)|;
    assert out[|out| - |tail|..] == tail;
    assert out[p..] == seg + rest by {
      assert out[p..] == out[|out| - |tail|..][|Before(s, j)|..];
    }
    assert p > 0 ==> !IsWordChar(out[p - 1]) by {
      if p > 0 {
        assert j > 0;
        assert out[p - 1] == tail[0] == s[j - 1];
      }
    }
    assert out[p..p + |w|] == seg by {
      assert out[p..p + |w|] == out[p..][..|w|];
    }
    if p + |w| < |out| {
      assert out[p + |w|] == out[p..][|w|] == rest[0];
    }
    WordMatchCopied(s, j, w, out, p);
  }

  /**
   * Each word-bounded "responsibilities", "duties" or "tasks" in the text the substitutions
   * start from (the input itself, unless it is html) leaves a "## Responsibilities" heading in
   * what `convert_to_markdown` returns.
   */
  lemma InputResponsibilitiesConverted(text: string, markdownify: string -> string, j: nat, w: string)
    requires w in ResponsibilitiesRule.alts && WordMatchAt(Prepared(text, markdownify), j, w)
    ensures Occurs(Converted(text, markdownify), ResponsibilitiesHeading)
  {
    RuleOneKeepsWord(Prepared(text, markdownify), j, w);
    var p :| WordMatchAt(ApplyRule(JobDescriptionRule, Prepared(text, markdownify)), p, w);
    ConvertedHasResponsibilities(text, markdownify, p, w);
  }
}
