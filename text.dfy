/**
 * The string primitives the scrapers are built from: Python's `in`, `strip`,
 * `split`, `replace` and `float` on decimal text, the comparison `sorted` uses,
 * and the tag-stripping regular expression `<.*?>` shared by both extractors.
 * Strings are `seq<char>`; a page line from `readlines()` keeps its trailing
 * newline.
 */
module Text {

  datatype Option<T> = None | Some(value: T)

  // ---------------------------------------------------------------------------
  // Character classes
  // ---------------------------------------------------------------------------

  /** The ASCII characters Python's `str.strip()` and `str.split()` treat as whitespace. */
  predicate IsSpace(c: char)
  {
    c == ' ' || c == '\t' || c == '\n' || c == '\r' || c == '\U{B}' || c == '\U{C}'
  }

  predicate IsDigit(c: char)
  {
    '0' <= c <= '9'
  }

  /** The regular-expression class `[a-zA-Z]`. */
  predicate IsLetter(c: char)
  {
    ('a' <= c <= 'z') || ('A' <= c <= 'Z')
  }

  /** The regular-expression class `[A-Z0-9]`. */
  predicate IsUpperOrDigit(c: char)
  {
    ('A' <= c <= 'Z') || IsDigit(c)
  }

  // ---------------------------------------------------------------------------
  // Substring search: Python's `t in s`
  // ---------------------------------------------------------------------------

  predicate OccursAt(s: string, t: string, i: nat)
  {
    i + |t| <= |s| && s[i..i + |t|] == t
  }

  /** The first position at or after `i` where `t` occurs in `s`. */
  function IndexFrom(s: string, t: string, i: nat): (r: Option<nat>)
    decreases |s| - i
    ensures r.Some? ==> i <= r.value && OccursAt(s, t, r.value)
    ensures r.Some? ==> forall j :: i <= j < r.value ==> !OccursAt(s, t, j)
    ensures r.None? ==> forall j :: i <= j ==> !OccursAt(s, t, j)
  {
    if i + |t| > |s| then None
    else if OccursAt(s, t, i) then Some(i)
    else IndexFrom(s, t, i + 1)
  }

  /** Python's `t in s`. */
  predicate Contains(s: string, t: string)
  {
    IndexFrom(s, t, 0).Some?
  }

  lemma {:induction false} ContainsIff(s: string, t: string)
    ensures Contains(s, t) <==> exists i :: OccursAt(s, t, i)
  {
    if exists i :: OccursAt(s, t, i) {
      var i :| OccursAt(s, t, i);
      assert i >= 0;
    }
  }

  /** A string contains every string that occurs inside one of its parts. */
  lemma {:induction false} ContainsConcat(a: string, b: string, t: string)
    ensures Contains(a, t) ==> Contains(a + b, t)
    ensures Contains(b, t) ==> Contains(a + b, t)
  {
    if Contains(a, t) {
      var i := IndexFrom(a, t, 0).value;
      assert (a + b)[i..i + |t|] == a[i..i + |t|];
      assert OccursAt(a + b, t, i);
      ContainsIff(a + b, t);
    }
    if Contains(b, t) {
      var i := IndexFrom(b, t, 0).value;
      assert (a + b)[|a| + i..|a| + i + |t|] == b[i..i + |t|];
      assert OccursAt(a + b, t, |a| + i);
      ContainsIff(a + b, t);
    }
  }

  // ---------------------------------------------------------------------------
  // strip and split
  // ---------------------------------------------------------------------------

  /** Number of whitespace characters at the front of `s`. */
  function LeadingSpaces(s: string): (k: nat)
    ensures k <= |s|
    ensures forall j :: 0 <= j < k ==> IsSpace(s[j])
    ensures k < |s| ==> !IsSpace(s[k])
  {
    if s == [] || !IsSpace(s[0]) then 0 else 1 + LeadingSpaces(s[1..])
  }

  /** Number of whitespace characters at the end of `s`. */
  function TrailingSpaces(s: string): (k: nat)
    ensures k <= |s|
    ensures forall j :: |s| - k <= j < |s| ==> IsSpace(s[j])
    ensures k < |s| ==> !IsSpace(s[|s| - k - 1])
  {
    if s == [] || !IsSpace(s[|s| - 1]) then 0 else 1 + TrailingSpaces(s[..|s| - 1])
  }

  /** Python's `s.lstrip()`. */
  function StripLeft(s: string): string
  {
    if s != [] && IsSpace(s[0]) then StripLeft(s[1..]) else s
  }

  /** Python's `s.rstrip()`. */
  function StripRight(s: string): string
  {
    if s != [] && IsSpace(s[|s| - 1]) then StripRight(s[..|s| - 1]) else s
  }

  /** Python's `s.strip()`. */
  function Strip(s: string): string
  {
    StripRight(StripLeft(s))
  }

  lemma {:induction false} StripLeftCounts(s: string)
    ensures StripLeft(s) == s[LeadingSpaces(s)..]
  {
    if s != [] && IsSpace(s[0]) {
      StripLeftCounts(s[1..]);
      assert s[1..][LeadingSpaces(s[1..])..] == s[1 + LeadingSpaces(s[1..])..];
    }
  }

  lemma {:induction false} StripRightCounts(s: string)
    ensures StripRight(s) == s[..|s| - TrailingSpaces(s)]
  {
    if s != [] && IsSpace(s[|s| - 1]) {
      StripRightCounts(s[..|s| - 1]);
      assert s[..|s| - 1][..|s| - 1 - TrailingSpaces(s[..|s| - 1])] == s[..|s| - 1 - TrailingSpaces(s[..|s| - 1])];
    }
  }

  /** `Strip` removes exactly the surrounding whitespace: the result is the middle of `s`,
      everything cut away is whitespace, and the result neither starts nor ends with it. */
  lemma {:induction false} StripSpec(s: string)
    ensures exists i, j :: (0 <= i <= j <= |s| && Strip(s) == s[i..j]
      && (forall k :: 0 <= k < i ==> IsSpace(s[k])) && (forall k :: j <= k < |s| ==> IsSpace(s[k])))
    ensures Strip(s) != [] ==> !IsSpace(Strip(s)[0]) && !IsSpace(Strip(s)[|Strip(s)| - 1])
  {
    var i := LeadingSpaces(s);
    var t := s[i..];
    StripLeftCounts(s);
    StripRightCounts(t);
    var j := i + |t| - TrailingSpaces(t);
    assert Strip(s) == s[i..j];
    forall k | j <= k < |s| ensures IsSpace(s[k]) {
      assert s[k] == t[k - i];
    }
  }

  /** A string that has no surrounding whitespace is its own strip. */
  lemma {:induction false} StripNoSpace(s: string)
    requires s == [] || (!IsSpace(s[0]) && !IsSpace(s[|s| - 1]))
    ensures Strip(s) == s
  {
  }

  /** The maximal run of non-whitespace characters at the front of `s`. */
  function Word(s: string): (w: string)
    ensures w <= s
    ensures forall j :: 0 <= j < |w| ==> !IsSpace(w[j])
    ensures |w| < |s| ==> IsSpace(s[|w|])
    ensures s != [] && !IsSpace(s[0]) ==> |w| > 0
  {
    if s == [] || IsSpace(s[0]) then [] else [s[0]] + Word(s[1..])
  }

  /** The first word of `s`, after its leading whitespace. */
  function FirstWord(s: string): (w: string)
    ensures LeadingSpaces(s) + |w| <= |s|
    ensures LeadingSpaces(s) < |s| ==> |w| > 0
  {
    Word(s[LeadingSpaces(s)..])
  }

  /** What follows the first word of `s`. */
  function AfterFirstWord(s: string): (r: string)
    ensures |r| <= |s|
    ensures LeadingSpaces(s) < |s| ==> |r| < |s|
  {
    s[LeadingSpaces(s) + |FirstWord(s)|..]
  }

  /** Python's `s.split()`: the whitespace-separated words of `s`. */
  function Split(s: string): (r: seq<string>)
    decreases |s|
  {
    if LeadingSpaces(s) == |s| then []
    else [FirstWord(s)] + Split(AfterFirstWord(s))
  }

  predicate IsWord(w: string)
  {
    |w| > 0 && forall j :: 0 <= j < |w| ==> !IsSpace(w[j])
  }

  /** Every piece of a split is a nonempty run of non-whitespace. */
  lemma {:induction false} SplitWords(s: string)
    ensures forall w :: w in Split(s) ==> IsWord(w)
    decreases |s|
  {
    if LeadingSpaces(s) == |s| {
      SplitBlank(s);
    } else {
      SplitWords(AfterFirstWord(s));
    }
  }

  lemma {:induction false} WordOfWord(w: string, rest: string)
    requires IsWord(w)
    requires rest == [] || IsSpace(rest[0])
    ensures Word(w + rest) == w
  {
    if |w| == 1 {
      assert (w + rest)[1..] == rest;
    } else {
      assert (w + rest)[1..] == w[1..] + rest;
      WordOfWord(w[1..], rest);
    }
  }

  /** Splitting a single word gives back that word. */
  lemma {:induction false} SplitOneWord(w: string)
    requires IsWord(w)
    ensures Split(w) == [w]
  {
    WordOfWord(w, []);
    assert w + [] == w;
  }

  /** A word followed by whitespace (or nothing) is the first token of the split. */
  lemma {:induction false} SplitCons(w: string, rest: string)
    requires IsWord(w)
    requires rest == [] || IsSpace(rest[0])
    ensures Split(w + rest) == [w] + Split(rest)
  {
    WordOfWord(w, rest);
    var s := w + rest;
    assert LeadingSpaces(s) == 0;
    assert s[0..] == s;
    assert s[|w|..] == rest;
  }

  /** A string of whitespace only splits into no words. */
  lemma {:induction false} SplitBlank(s: string)
    requires LeadingSpaces(s) == |s|
    ensures Split(s) == []
  {
  }

  /** Dropping some of the leading whitespace does not change the split. */
  lemma {:induction false} SplitDrop(s: string, i: nat)
    requires i <= LeadingSpaces(s)
    ensures Split(s) == Split(s[i..])
  {
    var t := s[i..];
    var k := LeadingSpaces(s);
    LeadingSpacesDrop(s, i);
    if k < |s| {
      assert t[k - i..] == s[k..];
      var w := FirstWord(s);
      assert FirstWord(t) == w;
      assert t[k - i + |w|..] == s[k + |w|..];
      assert AfterFirstWord(t) == AfterFirstWord(s);
    }
  }

  lemma {:induction false} LeadingSpacesDrop(s: string, i: nat)
    requires i <= LeadingSpaces(s)
    ensures LeadingSpaces(s[i..]) == LeadingSpaces(s) - i
  {
    if i > 0 {
      assert s[1..][i - 1..] == s[i..];
      LeadingSpacesDrop(s[1..], i - 1);
    }
  }

  /** Leading whitespace does not change the split. */
  lemma {:induction false} SplitLeadingSpace(c: char, b: string)
    requires IsSpace(c)
    ensures Split([c] + b) == Split(b)
  {
    var s := [c] + b;
    assert s[1..] == b;
    SplitDrop(s, 1);
  }

  /** Splitting two words joined by one space gives back the two words. */
  lemma {:induction false} SplitTwoWords(a: string, b: string)
    requires IsWord(a) && IsWord(b)
    ensures Split(a + " " + b) == [a, b]
  {
    assert a + " " + b == a + (" " + b);
    SplitCons(a, " " + b);
    SplitLeadingSpace(' ', b);
    assert [' '] + b == " " + b;
    SplitOneWord(b);
  }

  // ---------------------------------------------------------------------------
  // replace
  // ---------------------------------------------------------------------------

  /** Python's `s.replace(pat, rep)`: every non-overlapping occurrence of `pat`,
      scanning left to right, is replaced by `rep`. */
  function Replace(s: string, pat: string, rep: string): (r: string)
    requires |pat| > 0
    decreases |s|
  {
    if |s| < |pat| then s
    else if s[..|pat|] == pat then rep + Replace(s[|pat|..], pat, rep)
    else [s[0]] + Replace(s[1..], pat, rep)
  }

  /** Replacing a pattern that does not occur leaves the string unchanged. */
  lemma {:induction false} ReplaceAbsent(s: string, pat: string, rep: string)
    requires |pat| > 0
    requires forall i: nat :: !OccursAt(s, pat, i)
    ensures Replace(s, pat, rep) == s
  {
    if |s| >= |pat| {
      assert !OccursAt(s, pat, 0);
      assert s[..|pat|] != pat;
      forall i: nat ensures !OccursAt(s[1..], pat, i) {
        assert !OccursAt(s, pat, i + 1);
        if i + |pat| <= |s[1..]| {
          assert s[1..][i..i + |pat|] == s[i + 1..i + 1 + |pat|];
        }
      }
      ReplaceAbsent(s[1..], pat, rep);
    }
  }

  /** Text before the first possible start of the pattern is copied unchanged. */
  lemma {:induction false} ReplaceSkip(a: string, b: string, pat: string, rep: string)
    requires |pat| > 0 && pat[0] !in a
    ensures Replace(a + b, pat, rep) == a + Replace(b, pat, rep)
  {
    if a != [] {
      var s := a + b;
      if |s| < |pat| {
        ReplaceShort(b, pat, rep);
      } else {
        assert s[0] == a[0];
        assert s[..|pat|] != pat by { assert s[..|pat|][0] != pat[0]; }
        assert s[1..] == a[1..] + b;
        ReplaceSkip(a[1..], b, pat, rep);
        assert Replace(s, pat, rep) == [a[0]] + (a[1..] + Replace(b, pat, rep));
        assert a == [a[0]] + a[1..];
      }
    } else {
      assert a + b == b;
    }
  }

  lemma {:induction false} ReplaceShort(s: string, pat: string, rep: string)
    requires |pat| > 0 && |s| < |pat|
    ensures Replace(s, pat, rep) == s
  {
  }

  /** A string that starts with the pattern has it replaced first. */
  lemma {:induction false} ReplaceHead(b: string, pat: string, rep: string)
    requires |pat| > 0
    ensures Replace(pat + b, pat, rep) == rep + Replace(b, pat, rep)
  {
    assert (pat + b)[..|pat|] == pat;
    assert (pat + b)[|pat|..] == b;
  }

  /** Once the pattern occurs, every character of its replacement appears in the result. */
  lemma {:induction false} ReplaceInserts(s: string, pat: string, rep: string, i: nat, c: char)
    requires |pat| > 0 && OccursAt(s, pat, i) && c in rep
    ensures c in Replace(s, pat, rep)
  {
    if s[..|pat|] != pat {
      assert i > 0;
      assert s[1..][i - 1..i - 1 + |pat|] == s[i..i + |pat|];
      ReplaceInserts(s[1..], pat, rep, i - 1, c);
    }
  }

  /** With a one-character pattern, replacing distributes over concatenation. */
  lemma {:induction false} ReplaceCharConcat(a: string, b: string, c: char, rep: string)
    ensures Replace(a + b, [c], rep) == Replace(a, [c], rep) + Replace(b, [c], rep)
  {
    if a == [] {
      assert a + b == b;
    } else {
      assert (a + b)[1..] == a[1..] + b;
      assert (a + b)[..1] == a[..1];
      ReplaceCharConcat(a[1..], b, c, rep);
    }
  }

  /** Deleting a character (`replace(c, '')`) leaves no occurrence of it and keeps every other character. */
  lemma {:induction false} DeleteChar(s: string, c: char)
    ensures c !in Replace(s, [c], "")
    ensures forall d :: d != c ==> (d in Replace(s, [c], "") <==> d in s)
    ensures |Replace(s, [c], "")| <= |s|
  {
    if |s| >= 1 {
      DeleteChar(s[1..], c);
      assert s == [s[0]] + s[1..];
      assert s[..1] == [s[0]];
    }
  }

  // ---------------------------------------------------------------------------
  // The regular expression <.*?> ('.' does not match a newline)
  // ---------------------------------------------------------------------------

  /** Position of the nearest '>' in `t`, provided no newline comes before it. */
  function TagEnd(t: string): (r: Option<nat>)
    ensures r.Some? ==> r.value < |t| && t[r.value] == '>'
    ensures r.Some? ==> forall j :: 0 <= j < r.value ==> t[j] != '>' && t[j] != '\n'
  {
    if t == [] then None
    else if t[0] == '>' then Some(0)
    else if t[0] == '\n' then None
    else match TagEnd(t[1..])
      case Some(j) => Some(j + 1)
      case None => None
  }

  /** `re.sub(r'<.*?>', '', s)`: each '<' with a '>' later on its line is deleted up to the
      nearest such '>'; a '<' without one is kept and the scan moves on by one character. */
  function StripHtml(s: string): (r: string)
    decreases |s|
    ensures |r| <= |s|
  {
    if s == [] then []
    else if s[0] == '<' && TagEnd(s[1..]).Some? then StripHtml(s[TagEnd(s[1..]).value + 2..])
    else [s[0]] + StripHtml(s[1..])
  }

  /** No tag span `<...>` without a newline inside is left in `r`. */
  predicate NoTagSpan(r: string)
  {
    forall i :: 0 <= i < |r| && r[i] == '<' ==> TagEnd(r[i + 1..]).None?
  }

  /** Text without '<' passes through tag stripping unchanged. */
  lemma {:induction false} StripHtmlNoAngle(s: string)
    requires '<' !in s
    ensures StripHtml(s) == s
  {
    if s != [] {
      StripHtmlNoAngle(s[1..]);
    }
  }

  lemma {:induction false} StripHtmlKeepsOpenTag(t: string)
    requires TagEnd(t).None?
    ensures TagEnd(StripHtml(t)).None?
  {
    if t != [] && t[0] != '\n' {
      assert t[0] != '>';
      assert TagEnd(t[1..]).None?;
      StripHtmlKeepsOpenTag(t[1..]);
      assert StripHtml(t) == [t[0]] + StripHtml(t[1..]);
      assert ([t[0]] + StripHtml(t[1..]))[1..] == StripHtml(t[1..]);
    }
  }

  /** After tag stripping no `<...>` span without a newline remains. */
  lemma {:induction false} StripHtmlClean(s: string)
    ensures NoTagSpan(StripHtml(s))
  {
    if s != [] {
      if s[0] == '<' && TagEnd(s[1..]).Some? {
        StripHtmlClean(s[TagEnd(s[1..]).value + 2..]);
      } else {
        StripHtmlClean(s[1..]);
        var r := StripHtml(s);
        var rest := StripHtml(s[1..]);
        assert r == [s[0]] + rest;
        forall i | 0 <= i < |r| && r[i] == '<' ensures TagEnd(r[i + 1..]).None? {
          if i == 0 {
            assert r[1..] == rest;
            StripHtmlKeepsOpenTag(s[1..]);
          } else {
            assert rest[i - 1] == '<';
            assert r[i + 1..] == rest[i..];
          }
        }
      }
    }
  }

  // ---------------------------------------------------------------------------
  // Decimal numbers: Python's float() on plain decimal text
  // ---------------------------------------------------------------------------

  function DigitValue(c: char): nat
    requires IsDigit(c)
  {
    (c as int - '0' as int) as nat
  }

  predicate AllDigits(s: string)
  {
    forall j :: 0 <= j < |s| ==> IsDigit(s[j])
  }

  /** The value of a run of decimal digits, most significant first. */
  function DigitsValue(s: string): nat
    requires AllDigits(s)
  {
    if s == [] then 0 else DigitsValue(s[..|s| - 1]) * 10 + DigitValue(s[|s| - 1])
  }

  /** The digits of `s` appended, most significant first, to the number `acc`. */
  function DigitsFold(s: string, acc: nat): nat
    requires AllDigits(s)
  {
    if s == [] then acc else DigitsFold(s[1..], acc * 10 + DigitValue(s[0]))
  }

  /** The integer part of an unsigned decimal: digits are accumulated in `acc`; `seen` says
      whether any digit came before. A '.' hands the rest to `FracPart`. */
  function IntPart(t: string, acc: nat, seen: bool): Option<real>
  {
    if t == [] then (if seen then Some(acc as real) else None)
    else if IsDigit(t[0]) then IntPart(t[1..], acc * 10 + DigitValue(t[0]), true)
    else if t[0] == '.' && (seen || |t| > 1) then
      match FracPart(t[1..])
      case Some(f) => Some(acc as real + f)
      case None => None
    else None
  }

  /** The value of the digits after a decimal point ("25" is 0.25); `None` on a non-digit. */
  function FracPart(t: string): Option<real>
  {
    if t == [] then Some(0.0)
    else if IsDigit(t[0]) then
      match FracPart(t[1..])
      case Some(f) => Some((DigitValue(t[0]) as real + f) / 10.0)
      case None => None
    else None
  }

  /** `digits`, `digits.`, `.digits` or `digits.digits`. */
  function ParseUnsigned(t: string): Option<real>
  {
    IntPart(t, 0, false)
  }

  /** Python's `float(s)` on decimal notation: surrounding whitespace is ignored, an optional
      sign is allowed; `None` stands for the ValueError. */
  function ParseNumber(s: string): Option<real>
  {
    var t := Strip(s);
    if |t| > 0 && (t[0] == '-' || t[0] == '+') then
      match ParseUnsigned(t[1..])
      case Some(x) => Some(if t[0] == '-' then -x else x)
      case None => None
    else ParseUnsigned(t)
  }

  function DigitChar(d: nat): (c: char)
    requires d < 10
    ensures IsDigit(c) && DigitValue(c) == d
  {
    ('0' as int + d) as char
  }

  /** Decimal notation of a natural number, without leading zeros. */
  function NatToString(n: nat): (s: string)
    ensures |s| > 0 && AllDigits(s)
  {
    if n < 10 then [DigitChar(n)] else NatToString(n / 10) + [DigitChar(n % 10)]
  }

  lemma {:induction false} DigitsOfNat(n: nat)
    ensures DigitsValue(NatToString(n)) == n
  {
    if n >= 10 {
      DigitsOfNat(n / 10);
      var s := NatToString(n);
      assert s[..|s| - 1] == NatToString(n / 10);
    }
  }

  /** Decimal notation is a word (no whitespace). */
  lemma {:induction false} NatToStringIsWord(n: nat)
    ensures IsWord(NatToString(n))
  {
    var s := NatToString(n);
    forall j | 0 <= j < |s| ensures !IsSpace(s[j]) {
      assert IsDigit(s[j]);
    }
  }

  lemma {:induction false} DigitsFoldSnoc(a: string, d: char, acc: nat)
    requires AllDigits(a) && IsDigit(d)
    ensures DigitsFold(a + [d], acc) == DigitsFold(a, acc) * 10 + DigitValue(d)
  {
    if a != [] {
      assert (a + [d])[1..] == a[1..] + [d];
      DigitsFoldSnoc(a[1..], d, acc * 10 + DigitValue(a[0]));
    }
  }

  lemma {:induction false} DigitsFoldValue(s: string)
    requires AllDigits(s)
    ensures DigitsFold(s, 0) == DigitsValue(s)
  {
    if s != [] {
      var a := s[..|s| - 1];
      DigitsFoldValue(a);
      assert s == a + [s[|s| - 1]];
      DigitsFoldSnoc(a, s[|s| - 1], 0);
    }
  }

  lemma {:induction false} IntPartDigits(s: string, acc: nat, seen: bool)
    requires AllDigits(s) && (seen || s != [])
    ensures IntPart(s, acc, seen) == Some(DigitsFold(s, acc) as real)
  {
    if s != [] {
      IntPartDigits(s[1..], acc * 10 + DigitValue(s[0]), true);
    }
  }

  /** Round trip: `float(str(n)) == n` for every natural number. */
  lemma {:induction false} ParseNatToString(n: nat)
    ensures ParseNumber(NatToString(n)) == Some(n as real)
  {
    var s := NatToString(n);
    NatToStringIsWord(n);
    StripNoSpace(s);
    assert s[0] != '-' && s[0] != '+' by { assert IsDigit(s[0]); }
    IntPartDigits(s, 0, false);
    DigitsFoldValue(s);
    DigitsOfNat(n);
  }

  // ---------------------------------------------------------------------------
  // Ordering of strings (Python compares strings code point by code point)
  // ---------------------------------------------------------------------------

  predicate StrLt(a: string, b: string)
  {
    if a == [] then b != []
    else if b == [] then false
    else if a[0] != b[0] then a[0] < b[0]
    else StrLt(a[1..], b[1..])
  }

  lemma {:induction false} StrLtIrreflexive(a: string)
    ensures !StrLt(a, a)
  {
    if a != [] { StrLtIrreflexive(a[1..]); }
  }

  lemma {:induction false} StrLtAsymmetric(a: string, b: string)
    ensures StrLt(a, b) ==> !StrLt(b, a)
  {
    if a != [] && b != [] && a[0] == b[0] { StrLtAsymmetric(a[1..], b[1..]); }
  }

  lemma {:induction false} StrLtTotal(a: string, b: string)
    ensures a == b || StrLt(a, b) || StrLt(b, a)
  {
    if a != [] && b != [] && a[0] == b[0] {
      StrLtTotal(a[1..], b[1..]);
      if a[1..] == b[1..] {
        assert a == [a[0]] + a[1..] && b == [b[0]] + b[1..];
      }
    }
  }

  lemma {:induction false} StrLtTransitive(a: string, b: string, c: string)
    requires StrLt(a, b) && StrLt(b, c)
    ensures StrLt(a, c)
  {
    if a != [] && a[0] == b[0] && b[0] == c[0] {
      StrLtTransitive(a[1..], b[1..], c[1..]);
    }
  }

  /** Python's `sorted([a, b])`. */
  function SortPair(a: string, b: string): (string, string)
  {
    if StrLt(b, a) then (b, a) else (a, b)
  }

  /** Sorting a pair does not depend on the order it came in, and gives the same two names. */
  lemma {:induction false} SortPairSymmetric(a: string, b: string)
    ensures SortPair(a, b) == SortPair(b, a)
    ensures multiset{SortPair(a, b).0, SortPair(a, b).1} == multiset{a, b}
    ensures !StrLt(SortPair(a, b).1, SortPair(a, b).0)
  {
    StrLtTotal(a, b);
    StrLtAsymmetric(a, b);
  }
}
