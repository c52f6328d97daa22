/**
 * Text normalisation of `SmartJobParser` (app1_parser.py): `clean_text` folds a fixed set
 * of punctuation characters and collapses whitespace.
 */
module TextNormalizer {
  import opened Wrappers
  import opened PyText

  /** One entry of the `replacements` dict: every `glyph` becomes `replacement`. */
  datatype Fold = Fold(glyph: char, replacement: string)

  /**
   * The dict literal of `clean_text` names seven pairs, but three of them repeat a key
   * (the glyph and its `\u` escape are the same character), so the dict holds four
   * entries, iterated in first-insertion order.
   */
  const Replacements: seq<Fold> :=
    [Fold(EnDash, "-"), Fold(EmDash, "-"), Fold(Bullet, [Bullet, ' ']), Fold(Nbsp, " ")]

  /** `s.replace(c, t)` for a one-character `c`: every occurrence of `c` becomes `t`. */
  function ReplaceChar(s: string, c: char, t: string): string
  {
    if s == [] then [] else (if s[0] == c then t else [s[0]]) + ReplaceChar(s[1..], c, t)
  }

  /** Replacing a character that does not occur changes nothing. */
  lemma {:induction false} ReplaceAbsent(s: string, c: char, t: string)
    requires c !in s
    ensures ReplaceChar(s, c, t) == s
  {
    if s != [] {
      assert forall x :: x in s[1..] ==> x in s;
      ReplaceAbsent(s[1..], c, t);
      assert [s[0]] + s[1..] == s;
    }
  }

  /** The characters of `s.replace(c, t)`: those of `t`, and those of `s` other than `c`. */
  lemma {:induction false} ReplaceCharChars(s: string, c: char, t: string)
    ensures forall x :: x in ReplaceChar(s, c, t) ==> x in t || (x in s && x != c)
    ensures forall x :: x in s && x != c ==> x in ReplaceChar(s, c, t)
  {
    if s != [] {
      ReplaceCharChars(s[1..], c, t);
      assert forall x :: x in s[1..] ==> x in s;
      assert forall x :: x in s ==> x == s[0] || x in s[1..];
    }
  }

  /** The `for old, new in replacements.items()` fold, in order. */
  function ApplyFolds(s: string, folds: seq<Fold>): string
    decreases folds
  {
    if folds == [] then s else ApplyFolds(ReplaceChar(s, folds[0].glyph, folds[0].replacement), folds[1..])
  }

  /** Every bullet is immediately followed by a whitespace character. */
  ghost predicate BulletsSpaced(s: string) {
    forall i :: 0 <= i < |s| && s[i] == Bullet ==> i + 1 < |s| && IsSpace(s[i + 1])
  }

  /** Every bullet is followed by a space, unless it is the last character. */
  ghost predicate BulletsSpacedOrLast(s: string) {
    forall i :: 0 <= i < |s| && s[i] == Bullet ==> i + 1 == |s| || s[i + 1] == ' '
  }

  /** No whitespace but `' '`, and never two spaces in a row. */
  ghost predicate SingleSpaced(s: string) {
    && (forall i :: 0 <= i < |s| && IsSpace(s[i]) ==> s[i] == ' ')
    && (forall i :: 0 <= i < |s| - 1 && s[i] == ' ' ==> s[i + 1] != ' ')
  }

  lemma {:induction false} BulletFoldSpaces(s: string)
    ensures BulletsSpaced(ReplaceChar(s, Bullet, [Bullet, ' ']))
  {
    if s != [] {
      BulletFoldSpaces(s[1..]);
      var head := if s[0] == Bullet then [Bullet, ' '] else [s[0]];
      var r := ReplaceChar(s, Bullet, [Bullet, ' ']);
      assert r == head + ReplaceChar(s[1..], Bullet, [Bullet, ' ']);
      forall i | 0 <= i < |r| && r[i] == Bullet ensures i + 1 < |r| && IsSpace(r[i + 1]) {
        if i >= |head| {
          assert r[i] == ReplaceChar(s[1..], Bullet, [Bullet, ' '])[i - |head|];
        }
      }
    }
  }

  lemma {:induction false} NbspFoldKeepsBulletsSpaced(s: string)
    requires BulletsSpaced(s)
    ensures BulletsSpaced(ReplaceChar(s, Nbsp, " "))
  {
    if s != [] {
      var tail := ReplaceChar(s[1..], Nbsp, " ");
      assert BulletsSpaced(s[1..]) by {
        forall i | 0 <= i < |s[1..]| && s[1..][i] == Bullet
          ensures i + 1 < |s[1..]| && IsSpace(s[1..][i + 1])
        {
          assert s[i + 1] == Bullet;
        }
      }
      NbspFoldKeepsBulletsSpaced(s[1..]);
      var head := if s[0] == Nbsp then " " else [s[0]];
      var r := ReplaceChar(s, Nbsp, " ");
      assert r == head + tail;
      if s[0] == Bullet {
        assert IsSpace(s[1]);
        assert s[1..] == [s[1]] + s[2..];
        assert tail == (if s[1] == Nbsp then " " else [s[1]]) + ReplaceChar(s[2..], Nbsp, " ");
      }
      forall i | 0 <= i < |r| && r[i] == Bullet ensures i + 1 < |r| && IsSpace(r[i + 1]) {
        if i >= |head| {
          assert r[i] == tail[i - |head|];
        }
      }
    }
  }

  /** After the folds, no dash or NBSP is left and every bullet is followed by whitespace. */
  lemma FoldOutcome(s: string)
    ensures var r := ApplyFolds(s, Replacements);
      EnDash !in r && EmDash !in r && Nbsp !in r && BulletsSpaced(r)
  {
    var r1 := ReplaceChar(s, EnDash, "-");
    var r2 := ReplaceChar(r1, EmDash, "-");
    var r3 := ReplaceChar(r2, Bullet, [Bullet, ' ']);
    var r4 := ReplaceChar(r3, Nbsp, " ");
    assert ApplyFolds(s, Replacements) == r4 by {
      assert ApplyFolds(s, Replacements) == ApplyFolds(r1, Replacements[1..]);
      assert ApplyFolds(r1, Replacements[1..]) == ApplyFolds(r2, Replacements[2..]);
      assert ApplyFolds(r2, Replacements[2..]) == ApplyFolds(r3, Replacements[3..]);
      assert ApplyFolds(r3, Replacements[3..]) == ApplyFolds(r4, []);
    }
    ReplaceCharChars(s, EnDash, "-");
    ReplaceCharChars(r1, EmDash, "-");
    ReplaceCharChars(r2, Bullet, [Bullet, ' ']);
    ReplaceCharChars(r3, Nbsp, " ");
    BulletFoldSpaces(r2);
    NbspFoldKeepsBulletsSpaced(r3);
  }

  /** `re.sub(r"\s+", " ", s)`: every maximal run of whitespace becomes one space. */
  function CollapseWhitespace(s: string): (r: string)
    ensures s == [] <==> r == []
    ensures s != [] ==> r[0] == if IsSpace(s[0]) then ' ' else s[0]
    decreases |s|
  {
    if s == [] then []
    else if IsSpace(s[0]) then " " + CollapseWhitespace(s[1..][LeadingSpaces(s[1..])..])
    else [s[0]] + CollapseWhitespace(s[1..])
  }

  /** Collapsing leaves only single spaces, and every other character comes from `s`. */
  lemma {:induction false} CollapseShape(s: string)
    ensures SingleSpaced(CollapseWhitespace(s))
    ensures forall x :: x in CollapseWhitespace(s) ==> x == ' ' || (x in s && !IsSpace(x))
    decreases |s|
  {
    if s != [] {
      var r := CollapseWhitespace(s);
      if IsSpace(s[0]) {
        var rest := s[1..][LeadingSpaces(s[1..])..];
        CollapseShape(rest);
        var tail := CollapseWhitespace(rest);
        assert r == " " + tail;
        assert tail != [] ==> tail[0] != ' ';
        assert forall x :: x in rest ==> x in s;
        forall i | 0 <= i < |r| - 1 && r[i] == ' ' ensures r[i + 1] != ' ' {
          if i > 0 { assert r[i] == tail[i - 1] && r[i + 1] == tail[i]; }
        }
        forall i | 0 <= i < |r| && IsSpace(r[i]) ensures r[i] == ' ' {
          if i > 0 { assert r[i] == tail[i - 1]; }
        }
      } else {
        CollapseShape(s[1..]);
        var tail := CollapseWhitespace(s[1..]);
        assert r == [s[0]] + tail;
        assert forall x :: x in s[1..] ==> x in s;
        forall i | 0 <= i < |r| - 1 && r[i] == ' ' ensures r[i + 1] != ' ' {
          assert i > 0;
          assert r[i] == tail[i - 1] && r[i + 1] == tail[i];
        }
        forall i | 0 <= i < |r| && IsSpace(r[i]) ensures r[i] == ' ' {
          if i > 0 { assert r[i] == tail[i - 1]; }
        }
      }
    }
  }

  lemma {:induction false} CollapseKeepsBulletsSpaced(s: string)
    requires BulletsSpaced(s)
    ensures BulletsSpaced(CollapseWhitespace(s))
    decreases |s|
  {
    if s != [] {
      var r := CollapseWhitespace(s);
      if IsSpace(s[0]) {
        var k := 1 + LeadingSpaces(s[1..]);
        var rest := s[k..];
        assert rest == s[1..][LeadingSpaces(s[1..])..];
        assert BulletsSpaced(rest) by {
          forall i | 0 <= i < |rest| && rest[i] == Bullet ensures i + 1 < |rest| && IsSpace(rest[i + 1]) {
            assert s[k + i] == Bullet;
          }
        }
        CollapseKeepsBulletsSpaced(rest);
        var tail := CollapseWhitespace(rest);
        assert r == " " + tail;
        forall i | 0 <= i < |r| && r[i] == Bullet ensures i + 1 < |r| && IsSpace(r[i + 1]) {
          assert i >= 1 && r[i] == tail[i - 1];
        }
      } else {
        assert BulletsSpaced(s[1..]) by {
          forall i | 0 <= i < |s[1..]| && s[1..][i] == Bullet
            ensures i + 1 < |s[1..]| && IsSpace(s[1..][i + 1])
          {
            assert s[i + 1] == Bullet;
          }
        }
        CollapseKeepsBulletsSpaced(s[1..]);
        var tail := CollapseWhitespace(s[1..]);
        assert r == [s[0]] + tail;
        if s[0] == Bullet {
          assert IsSpace(s[1]) && tail[0] == ' ';
        }
        forall i | 0 <= i < |r| && r[i] == Bullet ensures i + 1 < |r| && IsSpace(r[i + 1]) {
          if i >= 1 { assert r[i] == tail[i - 1]; }
        }
      }
    }
  }

  /** Length of the run of `'\n'` at the start of `s`. */
  function LeadingNewlines(s: string): (n: nat)
    ensures n <= |s|
    ensures forall k :: 0 <= k < n ==> s[k] == '\n'
  {
    if s == [] || s[0] != '\n' then 0 else 1 + LeadingNewlines(s[1..])
  }

  /** `re.sub(r"\n{2,}", "\n\n", s)`: every run of two or more newlines becomes exactly two. */
  function CollapseNewlines(s: string): (r: string)
    ensures '\n' !in s ==> r == s
    ensures forall x :: x in r ==> x in s
    decreases |s|
  {
    if s == [] then []
    else if |s| >= 2 && s[0] == '\n' && s[1] == '\n' then
      var n := LeadingNewlines(s);
      assert n >= 2 by { assert LeadingNewlines(s[1..]) >= 1; }
      var tail := CollapseNewlines(s[n..]);
      assert forall x :: x in s[n..] ==> x in s;
      "\n\n" + tail
    else
      [s[0]] + CollapseNewlines(s[1..])
  }

  /** What `clean_text` returns (`None` stands for Python's `None`). */
  function Cleaned(text: Option<string>): string
  {
    match text
    case None => ""
    case Some(t) =>
      if t == "" then "" else Strip(CollapseNewlines(CollapseWhitespace(ApplyFolds(t, Replacements))))
  }

  /** The shape of every `clean_text` result. */
  ghost predicate IsClean(s: string) {
    && SingleSpaced(s)
    && (s == [] || (s[0] != ' ' && s[|s| - 1] != ' '))
    && EnDash !in s && EmDash !in s && Nbsp !in s
    && BulletsSpacedOrLast(s)
  }

  /** Single spacing and the bullet rule survive `strip()`, and stripping leaves no space at either end. */
  lemma StripKeepsShape(s: string)
    requires SingleSpaced(s) && BulletsSpaced(s)
    ensures var r := Strip(s);
      && SingleSpaced(r) && BulletsSpacedOrLast(r)
      && (r == [] || (r[0] != ' ' && r[|r| - 1] != ' '))
      && forall x :: x in r ==> x in s
  {
    var r := Strip(s);
    if r != [] {
      var lo, hi := LeadingSpaces(s), TrimmedEnd(s);
      assert r == s[lo..hi];
      forall i | 0 <= i < |r| && r[i] == Bullet ensures i + 1 == |r| || r[i + 1] == ' ' {
        assert s[lo + i] == Bullet;
        assert IsSpace(s[lo + i + 1]);
        if i + 1 < |r| { assert r[i + 1] == s[lo + i + 1]; }
      }
      forall i | 0 <= i < |r| - 1 && r[i] == ' ' ensures r[i + 1] != ' ' {
        assert s[lo + i] == ' ';
      }
      forall i | 0 <= i < |r| && IsSpace(r[i]) ensures r[i] == ' ' {
        assert r[i] == s[lo + i];
      }
    }
  }

  lemma SingleSpacedHasNoNewline(s: string)
    requires SingleSpaced(s)
    ensures '\n' !in s
  {
    if '\n' in s {
      var i :| 0 <= i < |s| && s[i] == '\n';
      assert IsSpace(s[i]);
    }
  }

  /**
   * Every result of `clean_text` is stripped, single-spaced, free of newlines, dashes and
   * NBSPs, and has a space after each bullet but a final one. The newline rule applies to
   * a string that has no newline left, so it changes nothing.
   */
  lemma CleanedIsClean(text: Option<string>)
    ensures IsClean(Cleaned(text))
    ensures '\n' !in Cleaned(text)
  {
    if text.Some? && text.value != "" {
      var folded := ApplyFolds(text.value, Replacements);
      FoldOutcome(text.value);
      var collapsed := CollapseWhitespace(folded);
      CollapseShape(folded);
      CollapseKeepsBulletsSpaced(folded);
      SingleSpacedHasNoNewline(collapsed);
      assert CollapseNewlines(collapsed) == collapsed;
      StripKeepsShape(collapsed);
      SingleSpacedHasNoNewline(Strip(collapsed));
    }
  }

  /** The newline rule never fires: whitespace collapsing has already removed every newline. */
  lemma NewlineRuleIsNoOp(s: string)
    ensures '\n' !in CollapseWhitespace(s)
    ensures CollapseNewlines(CollapseWhitespace(s)) == CollapseWhitespace(s)
  {
    CollapseShape(s);
    SingleSpacedHasNoNewline(CollapseWhitespace(s));
  }

  /** Bullets followed by a space, unless last, appended with the space the bullet fold would add. */
  function BulletTrail(c: string): string {
    if c != [] && c[|c| - 1] == Bullet then " " else ""
  }

  /**
   * On single-spaced text whose bullets are already followed by a space, the bullet fold
   * doubles those spaces and whitespace collapsing undoes it; only a final bullet keeps
   * the space it gained.
   */
  lemma {:induction false} RefoldCollapses(c: string)
    requires SingleSpaced(c) && BulletsSpacedOrLast(c)
    ensures CollapseWhitespace(ReplaceChar(c, Bullet, [Bullet, ' '])) == c + BulletTrail(c)
    decreases |c|
  {
    var t := [Bullet, ' '];
    if c == [] {
    } else if c[0] == Bullet && |c| == 1 {
      assert ReplaceChar(c, Bullet, t) == [Bullet, ' '] + ReplaceChar(c[1..], Bullet, t);
      assert [Bullet, ' '][1..] == " ";
    } else {
      var k := if c[0] == Bullet then 2 else 1;
      assert c[0] == Bullet ==> c[1] == ' ';
      assert !IsSpace(c[0]) || c[0] == ' ';
      assert (c[0] == ' ' || c[0] == Bullet) && k < |c| ==> c[k - 1] == ' ' && !IsSpace(c[k]);
      SuffixShape(c, k);
      RefoldCollapses(c[k..]);
      RefoldStep(c, k);
    }
  }

  /** One step of the induction above, once the shape of `c` has been turned into plain facts. */
  lemma RefoldStep(c: string, k: nat)
    requires 1 <= k <= |c|
    requires k == if c[0] == Bullet then 2 else 1
    requires c[0] == Bullet ==> c[1] == ' '
    requires !IsSpace(c[0]) || c[0] == ' '
    requires (c[0] == ' ' || c[0] == Bullet) && k < |c| ==> !IsSpace(c[k])
    requires CollapseWhitespace(ReplaceChar(c[k..], Bullet, [Bullet, ' '])) == c[k..] + BulletTrail(c[k..])
    ensures CollapseWhitespace(ReplaceChar(c, Bullet, [Bullet, ' '])) == c + BulletTrail(c)
  {
    var x := ReplaceChar(c[k..], Bullet, [Bullet, ' ']);
    TrailOfSuffix(c, k);
    if c[0] == ' ' || c[0] == Bullet {
      ReplaceHead(c[k..]);
    }
    var whole := CollapseWhitespace(ReplaceChar(c, Bullet, [Bullet, ' ']));
    if c[0] == ' ' {
      OneSpaceRefold(c, x);
    } else if c[0] == Bullet {
      BulletRefold(c, x);
    } else {
      PlainRefold(c, x);
    }
    Reassemble(c, k, whole, CollapseWhitespace(x));
  }

  /** The final bullet of `c`, if any, is the final bullet of a non-empty suffix. */
  lemma TrailOfSuffix(c: string, k: nat)
    requires 1 <= k <= |c|
    requires k == if c[0] == Bullet then 2 else 1
    requires c[0] == Bullet ==> c[1] == ' '
    ensures BulletTrail(c[k..]) == BulletTrail(c)
  {
    if c[k..] == [] {
      assert c[|c| - 1] != Bullet;
    } else {
      assert c[k..][|c[k..]| - 1] == c[|c| - 1];
    }
  }

  /** The bullet fold keeps the first character and never starts with the space it adds. */
  lemma ReplaceHead(s: string)
    requires s != [] ==> !IsSpace(s[0])
    ensures var x := ReplaceChar(s, Bullet, [Bullet, ' ']); x != [] ==> !IsSpace(x[0])
  {
  }

  lemma Reassemble(c: string, k: nat, whole: string, part: string)
    requires k <= |c|
    requires whole == c[..k] + part
    requires part == c[k..] + BulletTrail(c)
    ensures whole == c + BulletTrail(c)
  {
    assert c[..k] + c[k..] == c;
  }

  /** A character other than whitespace passes through collapsing unchanged. */
  lemma CollapseCons(a: char, x: string)
    requires !IsSpace(a)
    ensures CollapseWhitespace([a] + x) == [a] + CollapseWhitespace(x)
  {
    assert ([a] + x)[1..] == x;
  }

  /** One or two spaces before text that starts with no whitespace collapse to one. */
  lemma CollapseLeadingSpace(x: string)
    requires x != [] ==> !IsSpace(x[0])
    ensures CollapseWhitespace(" " + x) == " " + CollapseWhitespace(x)
    ensures CollapseWhitespace(" " + (" " + x)) == " " + CollapseWhitespace(x)
  {
    var y := " " + x;
    assert y[1..] == x;
    assert LeadingSpaces(x) == 0;
    assert LeadingSpaces(y) == 1;
    assert (" " + y)[1..] == y;
    assert y[1..][LeadingSpaces(y[1..])..] == x;
    assert y[LeadingSpaces(y)..] == x;
  }

  lemma OneSpaceRefold(c: string, x: string)
    requires c != [] && c[0] == ' '
    requires x == ReplaceChar(c[1..], Bullet, [Bullet, ' '])
    requires x != [] ==> !IsSpace(x[0])
    ensures CollapseWhitespace(ReplaceChar(c, Bullet, [Bullet, ' '])) == c[..1] + CollapseWhitespace(x)
  {
    assert c[..1] == " ";
    assert ReplaceChar(c, Bullet, [Bullet, ' ']) == " " + x;
    CollapseLeadingSpace(x);
  }

  lemma BulletRefold(c: string, x: string)
    requires |c| >= 2 && c[0] == Bullet && c[1] == ' '
    requires x == ReplaceChar(c[2..], Bullet, [Bullet, ' '])
    requires x != [] ==> !IsSpace(x[0])
    ensures CollapseWhitespace(ReplaceChar(c, Bullet, [Bullet, ' '])) == c[..2] + CollapseWhitespace(x)
  {
    BulletFoldOfSpaced(c, x);
    BulletSpacesCollapse(x);
    assert c[..2] == [Bullet, ' '];
  }

  /** A bullet followed by two spaces and then text keeps the bullet and one space. */
  lemma BulletSpacesCollapse(x: string)
    requires x != [] ==> !IsSpace(x[0])
    ensures CollapseWhitespace([Bullet] + (" " + (" " + x))) == [Bullet, ' '] + CollapseWhitespace(x)
  {
    CollapseCons(Bullet, " " + (" " + x));
    CollapseLeadingSpace(x);
    var y := CollapseWhitespace(x);
    assert [Bullet] + (" " + y) == [Bullet, ' '] + y;
  }

  /** The bullet fold on a bullet and its space gives the bullet and two spaces. */
  lemma BulletFoldOfSpaced(c: string, x: string)
    requires |c| >= 2 && c[0] == Bullet && c[1] == ' '
    requires x == ReplaceChar(c[2..], Bullet, [Bullet, ' '])
    ensures ReplaceChar(c, Bullet, [Bullet, ' ']) == [Bullet] + (" " + (" " + x))
  {
    var t := [Bullet, ' '];
    assert c[1..][0] == ' ' && c[1..][1..] == c[2..];
    assert ReplaceChar(c[1..], Bullet, t) == " " + x;
    assert ReplaceChar(c, Bullet, t) == t + (" " + x);
  }

  lemma PlainRefold(c: string, x: string)
    requires c != [] && c[0] != Bullet && !IsSpace(c[0])
    requires x == ReplaceChar(c[1..], Bullet, [Bullet, ' '])
    ensures CollapseWhitespace(ReplaceChar(c, Bullet, [Bullet, ' '])) == c[..1] + CollapseWhitespace(x)
  {
    assert c[..1] == [c[0]];
    assert ReplaceChar(c, Bullet, [Bullet, ' ']) == [c[0]] + x;
    CollapseCons(c[0], x);
  }

  lemma SuffixShape(c: string, k: nat)
    requires k <= |c| && SingleSpaced(c) && BulletsSpacedOrLast(c)
    ensures SingleSpaced(c[k..]) && BulletsSpacedOrLast(c[k..])
  {
    var d := c[k..];
    forall i | 0 <= i < |d| && d[i] == Bullet ensures i + 1 == |d| || d[i + 1] == ' ' {
      assert c[k + i] == Bullet;
    }
    forall i | 0 <= i < |d| - 1 && d[i] == ' ' ensures d[i + 1] != ' ' {
      assert c[k + i] == ' ';
    }
    forall i | 0 <= i < |d| && IsSpace(d[i]) ensures d[i] == ' ' {
      assert d[i] == c[k + i];
    }
  }

  /** On clean text only the bullet fold changes anything. */
  lemma FoldsOfClean(c: string)
    requires IsClean(c)
    ensures ApplyFolds(c, Replacements) == ReplaceChar(c, Bullet, [Bullet, ' '])
  {
    var t := [Bullet, ' '];
    var r1 := ReplaceChar(c, EnDash, "-");
    var r2 := ReplaceChar(r1, EmDash, "-");
    var r3 := ReplaceChar(r2, Bullet, t);
    var r4 := ReplaceChar(r3, Nbsp, " ");
    ReplaceAbsent(c, EnDash, "-");
    ReplaceAbsent(r1, EmDash, "-");
    ReplaceCharChars(r2, Bullet, t);
    assert Nbsp !in r3;
    ReplaceAbsent(r3, Nbsp, " ");
    assert ApplyFolds(c, Replacements) == ApplyFolds(r1, Replacements[1..]);
    assert ApplyFolds(r1, Replacements[1..]) == ApplyFolds(r2, Replacements[2..]);
    assert ApplyFolds(r2, Replacements[2..]) == ApplyFolds(r3, Replacements[3..]);
    assert ApplyFolds(r3, Replacements[3..]) == ApplyFolds(r4, []);
  }

  /** A clean text with at most a trailing space added strips back to itself. */
  lemma StripBulletTrail(c: string)
    requires IsClean(c) && c != []
    ensures Strip(c + BulletTrail(c)) == c
  {
    var u := c + BulletTrail(c);
    assert LeadingSpaces(u) == 0;
    assert TrimmedEnd(u) == |c| by {
      if BulletTrail(c) != "" {
        assert u[..|u| - 1] == c;
      } else {
        assert u == c;
      }
    }
    assert u[0..|c|] == c;
  }

  /** Text that is already clean is a fixed point of `clean_text`. */
  lemma CleanOfClean(c: string)
    requires IsClean(c) && c != []
    ensures Cleaned(Some(c)) == c
  {
    var u := c + BulletTrail(c);
    assert CollapseWhitespace(ApplyFolds(c, Replacements)) == u by {
      FoldsOfClean(c);
      RefoldCollapses(c);
    }
    assert CollapseNewlines(u) == u by {
      SingleSpacedHasNoNewline(c);
      assert '\n' !in u;
    }
    StripBulletTrail(c);
  }

  /** Cleaning text that is already clean gives it back unchanged. */
  lemma CleanIdempotent(text: Option<string>)
    ensures Cleaned(Some(Cleaned(text))) == Cleaned(text)
  {
    CleanedIsClean(text);
    if Cleaned(text) != [] {
      CleanOfClean(Cleaned(text));
    }
  }

  /**
   * `SmartJobParser.clean_text`: folds the glyphs one dict entry at a time, then collapses
   * whitespace runs and newline runs and strips the ends.
   */
  method CleanText(text: Option<string>) returns (r: string)
    ensures r == Cleaned(text)
    ensures text == None || text == Some("") ==> r == ""
    ensures IsClean(r) && '\n' !in r
  {
    CleanedIsClean(text);
    if text == None || text == Some("") {
      return "";
    }
    var t := text.value;
    var i := 0;
    while i < |Replacements|
      invariant 0 <= i <= |Replacements|
      invariant ApplyFolds(t, Replacements[i..]) == ApplyFolds(text.value, Replacements)
    {
      t := ReplaceChar(t, Replacements[i].glyph, Replacements[i].replacement);
      assert Replacements[i..][1..] == Replacements[i + 1..];
      i := i + 1;
    }
    t := CollapseWhitespace(t);
    t := CollapseNewlines(t);
    r := Strip(t);
  }
}
