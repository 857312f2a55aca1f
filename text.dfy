/**
 * The string operations of Python that the extractor relies on, written out:
 * `str.isspace`, `str.strip`, `str.split` (as a word count), `sep.join`,
 * `in` on strings, `str.replace(old, "")`, `str(int)` and `int(str)`.
 */
module Text {

  import opened Seqs

  /** Python's `str.isspace`: the characters `strip()`, `split()` and `\s` treat as whitespace. */
  predicate IsSpace(c: char)
  {
    c == ' ' || '\t' <= c <= '\r' || '\U{1C}' <= c <= '\U{1F}' || c == '\U{85}' || c == '\U{A0}' ||
    c == '\U{1680}' || '\U{2000}' <= c <= '\U{200A}' || c == '\U{2028}' || c == '\U{2029}' ||
    c == '\U{202F}' || c == '\U{205F}' || c == '\U{3000}'
  }

  predicate IsDigit(c: char)
  {
    '0' <= c <= '9'
  }

  predicate IsLetter(c: char)
  {
    'a' <= c <= 'z' || 'A' <= c <= 'Z'
  }

  /** The characters of `\w`: a `\b` sits between one of these and anything else. */
  predicate IsWordChar(c: char)
  {
    IsLetter(c) || IsDigit(c) || c == '_'
  }

  function LowerChar(c: char): char
  {
    if 'A' <= c <= 'Z' then (c as int + 32) as char else c
  }

  function Lower(s: string): (r: string)
    ensures |r| == |s|
    ensures forall i :: 0 <= i < |s| ==> r[i] == LowerChar(s[i])
  {
    if s == [] then [] else [LowerChar(s[0])] + Lower(s[1..])
  }

  // ---------------------------------------------------------------------
  // strip / split / join
  // ---------------------------------------------------------------------

  function TrimStart(s: string): (r: string)
    ensures |r| <= |s| && r == s[|s| - |r|..]
    ensures r == [] || !IsSpace(r[0])
  {
    if s != [] && IsSpace(s[0]) then TrimStart(s[1..]) else s
  }

  function TrimEnd(s: string): (r: string)
    ensures |r| <= |s| && r == s[..|r|]
    ensures r == [] || !IsSpace(r[|r| - 1])
  {
    if s != [] && IsSpace(s[|s| - 1]) then TrimEnd(s[..|s| - 1]) else s
  }

  /** Python's `s.strip()`: drops leading and trailing whitespace. */
  function Strip(s: string): (r: string)
    ensures |r| <= |s|
    ensures r == [] || (!IsSpace(r[0]) && !IsSpace(r[|r| - 1]))
  {
    TrimEnd(TrimStart(s))
  }

  /** A string with no whitespace at either end is its own strip. */
  lemma StripUnchanged(s: string)
    requires s == [] || (!IsSpace(s[0]) && !IsSpace(s[|s| - 1]))
    ensures Strip(s) == s
  {
  }

  /** Python's `sep.join(parts)`. */
  function Join(parts: seq<string>, sep: string): string
  {
    if |parts| == 0 then ""
    else if |parts| == 1 then parts[0]
    else Join(parts[..|parts| - 1], sep) + sep + parts[|parts| - 1]
  }

  /** `len(s.split())`: the number of maximal runs of non-whitespace characters. */
  function WordCount(s: string): nat
  {
    if s == [] then 0
    else
      var n := |s| - 1;
      WordCount(s[..n]) + (if !IsSpace(s[n]) && (n == 0 || IsSpace(s[n - 1])) then 1 else 0)
  }

  /** The words of the parts, counted one part at a time. */
  function TotalWords(parts: seq<string>): nat
  {
    if parts == [] then 0 else TotalWords(parts[..|parts| - 1]) + WordCount(parts[|parts| - 1])
  }

  /** A space between two texts never merges or splits words. */
  lemma {:induction false} WordCountSpaceJoin(a: string, b: string)
    ensures WordCount(a + " " + b) == WordCount(a) + WordCount(b)
    decreases |b|
  {
    var s := a + " " + b;
    if b == [] {
      assert s[..|s| - 1] == a;
    } else {
      var n := |b| - 1;
      var init := b[..n];
      WordCountSpaceJoin(a, init);
      var last := if !IsSpace(b[n]) && (n == 0 || IsSpace(b[n - 1])) then 1 else 0;
      assert WordCount(b) == WordCount(init) + last;
      assert s[..|s| - 1] == a + " " + init;
      assert s[|s| - 1] == b[n];
      assert IsSpace(s[|s| - 2]) == (n == 0 || IsSpace(b[n - 1])) by {
        if n == 0 {
          assert s[|s| - 2] == ' ';
        } else {
          assert s[|s| - 2] == b[n - 1];
        }
      }
      assert WordCount(s) == WordCount(a + " " + init) + last;
    }
  }

  /** `" ".join(parts)` has exactly the words of its parts. */
  lemma {:induction false} JoinKeepsWords(parts: seq<string>)
    ensures WordCount(Join(parts, " ")) == TotalWords(parts)
  {
    if |parts| == 1 {
      assert parts[..0] == [];
    } else if |parts| > 1 {
      var init := parts[..|parts| - 1];
      JoinKeepsWords(init);
      WordCountSpaceJoin(Join(init, " "), parts[|parts| - 1]);
    }
  }

  /** Every part counts: the total is at least the words of any one part. */
  lemma {:induction false} TotalWordsCoversEachPart(parts: seq<string>, i: nat)
    requires i < |parts|
    ensures TotalWords(parts) >= WordCount(parts[i])
  {
    var n := |parts| - 1;
    if i < n {
      TotalWordsCoversEachPart(parts[..n], i);
    }
  }

  // ---------------------------------------------------------------------
  // Substrings
  // ---------------------------------------------------------------------

  predicate StartsWith(s: string, prefix: string)
  {
    |prefix| <= |s| && s[..|prefix|] == prefix
  }

  /** Python's `sub in s`. */
  predicate Contains(s: string, sub: string)
  {
    StartsWith(s, sub) || (s != [] && Contains(s[1..], sub))
  }

  /** A case-insensitive search, as `re.search(sub, s, re.I)` does for a literal `sub`. */
  predicate ContainsIgnoreCase(s: string, sub: string)
  {
    Contains(Lower(s), Lower(sub))
  }

  /** Python's `s.replace(pat, "")`: every non-overlapping occurrence, scanning left to right. */
  function RemoveAll(s: string, pat: string): (r: string)
    requires pat != []
    ensures |r| <= |s|
    ensures !Contains(s, pat) ==> r == s
    decreases |s|
  {
    if s == [] then []
    else if StartsWith(s, pat) then RemoveAll(s[|pat|..], pat)
    else [s[0]] + RemoveAll(s[1..], pat)
  }

  /** Text without the pattern's first character passes through the removal untouched. */
  lemma {:induction false} RemoveAllKeepsPrefix(a: string, t: string, pat: string)
    requires pat != []
    requires forall i :: 0 <= i < |a| ==> a[i] != pat[0]
    ensures RemoveAll(a + t, pat) == a + RemoveAll(t, pat)
    decreases |a|
  {
    if a != [] {
      var s := a + t;
      assert s[0] == a[0];
      assert !StartsWith(s, pat) by {
        if |pat| <= |s| {
          assert s[..|pat|][0] == s[0];
        }
      }
      assert s[1..] == a[1..] + t;
      RemoveAllKeepsPrefix(a[1..], t, pat);
    } else {
      assert a + t == t;
    }
  }

  /** A text that starts with the pattern loses that occurrence first. */
  lemma RemoveAllDropsLeading(pat: string, rest: string)
    requires pat != []
    ensures RemoveAll(pat + rest, pat) == RemoveAll(rest, pat)
  {
    var s := pat + rest;
    assert s[..|pat|] == pat;
    assert s[|pat|..] == rest;
  }

  /** Two texts without the pattern's first character, each behind one occurrence, come out run together. */
  lemma {:induction false} RemoveAllBetweenMarkers(pat: string, a: string, b: string)
    requires pat != []
    requires forall i :: 0 <= i < |a| ==> a[i] != pat[0]
    requires forall i :: 0 <= i < |b| ==> b[i] != pat[0]
    ensures RemoveAll(pat + a + pat + b, pat) == a + b
  {
    var tail := pat + b;
    var s := pat + (a + tail);
    assert pat + a + pat + b == s;
    RemoveAllDropsLeading(pat, a + tail);
    RemoveAllKeepsPrefix(a, tail, pat);
    RemoveAllDropsLeading(pat, b);
    RemoveAllKeepsPrefix(b, [], pat);
    assert b + [] == b;
    assert RemoveAll([], pat) == [];
  }

  // ---------------------------------------------------------------------
  // Integers and their decimal text
  // ---------------------------------------------------------------------

  function DigitChar(d: nat): char
    requires d < 10
  {
    ('0' as int + d) as char
  }

  function DigitOf(c: char): nat
    requires IsDigit(c)
  {
    c as int - '0' as int
  }

  /** The value of a run of digits; `_` separators are skipped. */
  function DigitsValue(s: string): nat
  {
    if s == [] then 0
    else if IsDigit(s[|s| - 1]) then DigitsValue(s[..|s| - 1]) * 10 + DigitOf(s[|s| - 1])
    else DigitsValue(s[..|s| - 1])
  }

  /** `str(n)` for a natural number. */
  function NatToString(n: nat): (r: string)
    ensures |r| > 0 && IsDigit(r[0])
    ensures forall i :: 0 <= i < |r| ==> IsDigit(r[i])
  {
    if n < 10 then [DigitChar(n)] else NatToString(n / 10) + [DigitChar(n % 10)]
  }

  /** `str(n)` for an integer. */
  function IntToString(n: int): string
  {
    if n < 0 then "-" + NatToString(-n) else NatToString(n)
  }

  /**
   * The digits of a base-10 `int()` literal: digits, with single underscores
   * allowed between two digits.
   */
  predicate IsDigitGroups(s: string)
  {
    |s| > 0 && IsDigit(s[0]) && IsDigit(s[|s| - 1]) &&
    forall i :: 0 <= i < |s| ==> IsDigit(s[i]) || (s[i] == '_' && i + 1 < |s| && IsDigit(s[i + 1]))
  }

  /**
   * Python's `int(s)` for a string: surrounding whitespace, an optional sign,
   * then digit groups; None where Python raises ValueError.
   */
  function ParseIntLiteral(s: string): Option<int>
  {
    var t := Strip(s);
    if t != [] && (t[0] == '-' || t[0] == '+') then
      if IsDigitGroups(t[1..]) then
        Some(if t[0] == '-' then -(DigitsValue(t[1..]) as int) else DigitsValue(t[1..]))
      else None
    else if IsDigitGroups(t) then Some(DigitsValue(t))
    else None
  }

  lemma {:induction false} NatToStringRoundTrip(n: nat)
    ensures DigitsValue(NatToString(n)) == n
  {
    if n >= 10 {
      NatToStringRoundTrip(n / 10);
      var s := NatToString(n);
      assert s[..|s| - 1] == NatToString(n / 10);
    }
  }

  lemma {:induction false} TrimStartSkipsSpaces(pre: string, rest: string)
    requires forall i :: 0 <= i < |pre| ==> IsSpace(pre[i])
    requires rest == [] || !IsSpace(rest[0])
    ensures TrimStart(pre + rest) == rest
  {
    if pre != [] {
      assert (pre + rest)[1..] == pre[1..] + rest;
      TrimStartSkipsSpaces(pre[1..], rest);
    }
  }

  lemma {:induction false} TrimEndSkipsSpaces(rest: string, post: string)
    requires forall i :: 0 <= i < |post| ==> IsSpace(post[i])
    requires rest == [] || !IsSpace(rest[|rest| - 1])
    ensures TrimEnd(rest + post) == rest
  {
    if post != [] {
      assert (rest + post)[..|rest + post| - 1] == rest + post[..|post| - 1];
      TrimEndSkipsSpaces(rest, post[..|post| - 1]);
    }
  }

  /** `strip` removes exactly the whitespace padding around a text with no whitespace at its ends. */
  lemma StripPadding(pre: string, t: string, post: string)
    requires forall i :: 0 <= i < |pre| ==> IsSpace(pre[i])
    requires forall i :: 0 <= i < |post| ==> IsSpace(post[i])
    requires t != [] && !IsSpace(t[0]) && !IsSpace(t[|t| - 1])
    ensures Strip(pre + t + post) == t
  {
    assert pre + t + post == pre + (t + post);
    TrimStartSkipsSpaces(pre, t + post);
    TrimEndSkipsSpaces(t, post);
  }

  /**
   * `int(str(n)) == n`, whatever whitespace surrounds the text: the decimal
   * text of an integer reads back as that integer.
   */
  lemma IntLiteralRoundTrip(n: int, pre: string, post: string)
    requires forall i :: 0 <= i < |pre| ==> IsSpace(pre[i])
    requires forall i :: 0 <= i < |post| ==> IsSpace(post[i])
    ensures ParseIntLiteral(pre + IntToString(n) + post) == Some(n)
  {
    if n < 0 {
      var digits := NatToString(-n);
      NatToStringRoundTrip(-n);
      DigitsAreGroups(digits);
      assert IntToString(n) == "-" + digits;
      DigitsArePadded(pre, "-" + digits, post);
      ParseSignedDigits(pre + IntToString(n) + post, digits);
    } else {
      var digits := NatToString(n);
      NatToStringRoundTrip(n);
      DigitsAreGroups(digits);
      assert IntToString(n) == digits;
      DigitsArePadded(pre, digits, post);
      ParseUnsignedDigits(pre + IntToString(n) + post, digits);
    }
  }

  /** A sign-and-digits text keeps its own length under `strip`. */
  lemma DigitsArePadded(pre: string, t: string, post: string)
    requires forall i :: 0 <= i < |pre| ==> IsSpace(pre[i])
    requires forall i :: 0 <= i < |post| ==> IsSpace(post[i])
    requires |t| > 0 && (t[0] == '-' || IsDigit(t[0])) && IsDigit(t[|t| - 1])
    ensures Strip(pre + t + post) == t
  {
    StripPadding(pre, t, post);
  }

  lemma ParseSignedDigits(s: string, digits: string)
    requires IsDigitGroups(digits) && Strip(s) == "-" + digits
    ensures ParseIntLiteral(s) == Some(-(DigitsValue(digits) as int))
  {
    assert Strip(s)[1..] == digits;
  }

  lemma ParseUnsignedDigits(s: string, digits: string)
    requires IsDigitGroups(digits) && Strip(s) == digits
    ensures ParseIntLiteral(s) == Some(DigitsValue(digits))
  {
    assert IsDigit(Strip(s)[0]);
  }

  lemma DigitsAreGroups(s: string)
    requires |s| > 0 && forall i :: 0 <= i < |s| ==> IsDigit(s[i])
    ensures IsDigitGroups(s)
  {
  }
}
