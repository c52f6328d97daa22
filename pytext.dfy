/** Character classes and the few `str` operations of CPython that the model relies on. */
module PyText {

  const EnDash: char := '\U{2013}'
  const EmDash: char := '\U{2014}'
  const Bullet: char := '\U{2022}'
  const Nbsp: char := '\U{00A0}'

  /** `str.isspace()`, which is also what `\s` matches in a `str` pattern (CPython's table). */
  predicate IsSpace(c: char) {
    || ('\U{0009}' <= c <= '\U{000D}')
    || ('\U{001C}' <= c <= '\U{001F}')
    || c == ' ' || c == '\U{0085}' || c == Nbsp || c == '\U{1680}'
    || ('\U{2000}' <= c <= '\U{200A}')
    || c == '\U{2028}' || c == '\U{2029}' || c == '\U{202F}' || c == '\U{205F}' || c == '\U{3000}'
  }

  predicate IsAsciiUpper(c: char) { 'A' <= c <= 'Z' }
  predicate IsAsciiLower(c: char) { 'a' <= c <= 'z' }
  predicate IsAsciiDigit(c: char) { '0' <= c <= '9' }

  function ToAsciiUpper(c: char): (u: char)
    ensures IsAsciiLower(c) ==> IsAsciiUpper(u)
    ensures !IsAsciiLower(c) ==> u == c
  {
    if IsAsciiLower(c) then (c as int - 32) as char else c
  }

  /** The four non-ASCII letters that `re.IGNORECASE` identifies with an ASCII letter. */
  const DottedCapitalI: char := '\U{0130}'
  const DotlessI: char := '\U{0131}'
  const LongS: char := '\U{017F}'
  const KelvinSign: char := '\U{212A}'

  /**
   * `\w` and the `\b` test: ASCII letters, digits and `_`, and the four letters above.
   * Other non-ASCII letters are not word characters in this model.
   */
  predicate IsWordChar(c: char) {
    IsAsciiUpper(c) || IsAsciiLower(c) || IsAsciiDigit(c) || c == '_'
    || c == DottedCapitalI || c == DotlessI || c == LongS || c == KelvinSign
  }

  /**
   * Whether text character `c` matches pattern character `p` under `re.IGNORECASE`.
   * Patterns are kept in lower case: CPython's sre compiles a literal to its lower-case
   * form and accepts every character whose simple lower case is that form, plus the
   * listed equivalents of `i` and `s`.
   */
  predicate CharMatchesIgnoreCase(c: char, p: char) {
    if IsAsciiLower(p) then
      || c == p || c == ToAsciiUpper(p)
      || (p == 'i' && (c == DottedCapitalI || c == DotlessI))
      || (p == 's' && c == LongS)
      || (p == 'k' && c == KelvinSign)
    else c == p
  }

  lemma LetterMatchIsWordChar(c: char, p: char)
    requires IsAsciiLower(p) && CharMatchesIgnoreCase(c, p)
    ensures IsWordChar(c)
  {
  }

  /** A character that is not a word character can only match itself. */
  lemma NonWordMatchesItself(c: char, p: char)
    requires CharMatchesIgnoreCase(c, p) && !IsWordChar(c)
    ensures p == c
  {
  }

  /** The three facts above, for every character at once. */
  lemma CharMatchFacts()
    ensures forall c, p :: CharMatchesIgnoreCase(c, p) && IsAsciiLower(p) ==> IsWordChar(c)
    ensures forall c, p :: CharMatchesIgnoreCase(c, p) && !IsWordChar(c) ==> p == c
    ensures forall c, p, q ::
      (CharMatchesIgnoreCase(c, p) && CharMatchesIgnoreCase(c, q) &&
       (IsAsciiLower(p) || p == ' ') && (IsAsciiLower(q) || q == ' ')) ==> p == q
  {
  }

  /** A text character matches at most one lower-case letter or space of a pattern. */
  lemma CharMatchUnique(c: char, p: char, q: char)
    requires IsAsciiLower(p) || p == ' '
    requires IsAsciiLower(q) || q == ' '
    requires CharMatchesIgnoreCase(c, p) && CharMatchesIgnoreCase(c, q)
    ensures p == q
  {
  }

  /** `s[:n]` */
  function Take(s: string, n: nat): (r: string)
    ensures |r| <= n && |r| <= |s|
    ensures r == s[..|r|]
    ensures |s| <= n ==> r == s
  {
    if |s| <= n then s else s[..n]
  }

  /** Concatenation is associative; stated once so that proofs need not rediscover it. */
  lemma ConcatAssoc(a: string, b: string, c: string)
    ensures a + (b + c) == (a + b) + c
  {
  }

  /** Number of leading whitespace characters of `s`. */
  function LeadingSpaces(s: string): (n: nat)
    ensures n <= |s|
    ensures n < |s| ==> !IsSpace(s[n])
  {
    if s == [] || !IsSpace(s[0]) then 0 else 1 + LeadingSpaces(s[1..])
  }

  /** Every character before `LeadingSpaces(s)` is whitespace. */
  lemma {:induction false} LeadingSpacesAreSpaces(s: string)
    ensures forall k :: 0 <= k < LeadingSpaces(s) ==> IsSpace(s[k])
  {
    if s != [] && IsSpace(s[0]) {
      LeadingSpacesAreSpaces(s[1..]);
      assert forall k :: 1 <= k < LeadingSpaces(s) ==> s[k] == s[1..][k - 1];
    }
  }

  /** Length of `s` once its trailing whitespace is removed. */
  function TrimmedEnd(s: string): (n: nat)
    ensures n <= |s|
    ensures n > 0 ==> !IsSpace(s[n - 1])
  {
    if s == [] || !IsSpace(s[|s| - 1]) then |s| else TrimmedEnd(s[..|s| - 1])
  }

  /** Every character from `TrimmedEnd(s)` on is whitespace. */
  lemma {:induction false} TrimmedEndAreSpaces(s: string)
    ensures forall k :: TrimmedEnd(s) <= k < |s| ==> IsSpace(s[k])
  {
    if s != [] && IsSpace(s[|s| - 1]) {
      TrimmedEndAreSpaces(s[..|s| - 1]);
      assert forall k :: TrimmedEnd(s) <= k < |s| - 1 ==> s[k] == s[..|s| - 1][k];
    }
  }

  /** `str.strip()` with no argument. */
  function Strip(s: string): (r: string)
    ensures r == [] || (!IsSpace(r[0]) && !IsSpace(r[|r| - 1]))
    ensures r == [] <==> forall k :: 0 <= k < |s| ==> IsSpace(s[k])
    ensures r != [] ==> LeadingSpaces(s) < TrimmedEnd(s) && r == s[LeadingSpaces(s)..TrimmedEnd(s)]
  {
    var lo, hi := LeadingSpaces(s), TrimmedEnd(s);
    LeadingSpacesAreSpaces(s);
    TrimmedEndAreSpaces(s);
    if lo >= hi then
      assert forall k :: 0 <= k < |s| ==> IsSpace(s[k]) by {
        forall k | 0 <= k < |s| ensures IsSpace(s[k]) {
          if k >= lo { assert k >= hi; }
        }
      }
      []
    else
      s[lo..hi]
  }

  /** `s` with no whitespace at either end is its own `strip()`. */
  lemma StripUnspaced(s: string)
    requires s == [] || (!IsSpace(s[0]) && !IsSpace(s[|s| - 1]))
    ensures Strip(s) == s
  {
  }

  /** `"sep".join(xs)` */
  function Join(sep: string, xs: seq<string>): (r: string)
    ensures xs == [] ==> r == []
    ensures |xs| == 1 ==> r == xs[0]
  {
    if xs == [] then [] else if |xs| == 1 then xs[0] else xs[0] + sep + Join(sep, xs[1..])
  }

  /** Each item preceded by `p`, all concatenated: the reference for what a join with a leading separator writes. */
  function EachPrefixed(p: string, xs: seq<string>): string {
    if xs == [] then [] else p + xs[0] + EachPrefixed(p, xs[1..])
  }

  /** A separator before a join of at least one item puts the separator before every item. */
  lemma {:induction false} JoinPrefixed(sep: string, xs: seq<string>)
    requires xs != []
    ensures sep + Join(sep, xs) == EachPrefixed(sep, xs)
  {
    if |xs| > 1 {
      JoinPrefixed(sep, xs[1..]);
      calc {
        sep + Join(sep, xs);
        sep + (xs[0] + sep + Join(sep, xs[1..]));
        { ConcatAssoc(sep, xs[0], sep + Join(sep, xs[1..])); }
        sep + xs[0] + (sep + Join(sep, xs[1..]));
        sep + xs[0] + EachPrefixed(sep, xs[1..]);
      }
    } else {
      assert EachPrefixed(sep, xs[1..]) == [];
    }
  }

  /** `s.replace(c, "")` */
  function RemoveChar(s: string, c: char): (r: string)
    ensures c !in r
    ensures forall x :: x in r <==> x in s && x != c
    ensures |r| <= |s|
  {
    if s == [] then [] else (if s[0] == c then [] else [s[0]]) + RemoveChar(s[1..], c)
  }

  /** Removing a character that does not occur changes nothing. */
  lemma {:induction false} RemoveAbsentChar(s: string, c: char)
    requires c !in s
    ensures RemoveChar(s, c) == s
  {
    if s != [] {
      RemoveAbsentChar(s[1..], c);
      assert s == [s[0]] + s[1..];
    }
  }
  /** Removing the one comma between two comma-free strings joins them. */
  lemma {:induction false} CommaRemoved(x: string, y: string)
    requires ',' !in x && ',' !in y
    ensures RemoveChar(x + "," + y, ',') == x + y
  {
    if x == [] {
      assert x + "," + y == "," + y;
      assert ("," + y)[1..] == y;
      RemoveAbsentChar(y, ',');
    } else {
      CommaRemoved(x[1..], y);
      assert (x + "," + y)[1..] == x[1..] + "," + y;
      assert x + y == [x[0]] + (x[1..] + y);
    }
  }

  predicate AllDigits(s: string) {
    forall k :: 0 <= k < |s| ==> IsAsciiDigit(s[k])
  }

  /** The value of a string of decimal digits, as `int()` reads it (leading zeros allowed). */
  function DecimalValue(ds: string): (n: nat)
    requires AllDigits(ds)
  {
    if ds == [] then 0 else DecimalValue(ds[..|ds| - 1]) * 10 + (ds[|ds| - 1] as int - '0' as int)
  }

  /** Appending a digit multiplies the value by ten and adds the digit. */
  lemma DecimalSnoc(ds: string, c: char)
    requires AllDigits(ds) && IsAsciiDigit(c)
    ensures AllDigits(ds + [c]) && DecimalValue(ds + [c]) == DecimalValue(ds) * 10 + (c as int - '0' as int)
  {
    assert (ds + [c])[..|ds|] == ds;
  }
  /** `str(n)` for a non-negative integer. */
  function NatToString(n: nat): (r: string)
    ensures r != [] && AllDigits(r)
  {
    if n < 10 then [('0' as int + n) as char] else NatToString(n / 10) + [('0' as int + n % 10) as char]
  }

  /** Reading back what `str` wrote gives the number. */
  lemma {:induction false} DecimalOfNatToString(n: nat)
    ensures DecimalValue(NatToString(n)) == n
  {
    if n >= 10 {
      DecimalOfNatToString(n / 10);
      var r := NatToString(n);
      assert r[..|r| - 1] == NatToString(n / 10);
    }
  }

  /** `str` is injective, so page numbers give distinct identifiers. */
  lemma NatToStringInjective(m: nat, n: nat)
    ensures NatToString(m) == NatToString(n) ==> m == n
  {
    DecimalOfNatToString(m);
    DecimalOfNatToString(n);
  }
}
