/**
 * The regular expressions of the extractor, each replaced by a named
 * predicate or function over the text it is searched in. Matching is
 * case-insensitive where the extractor passes `re.I`, and `\d`, `\w` and
 * case folding are taken over ASCII.
 */
module Patterns {

  import opened Seqs
  import opened Text

  /** `re.search("star rating", aria_label, re.I)`: the accessible label of a star-rating widget. */
  predicate MentionsStarRating(aria: string)
  {
    ContainsIgnoreCase(aria, "star rating")
  }

  /**
   * `re.search(r"Business Owner|Owner", text, re.I)`; since the first
   * alternative contains the second, this is a search for "owner".
   */
  predicate MentionsOwner(text: string)
  {
    ContainsIgnoreCase(text, "owner")
  }

  /** `re.search(r"\d+", s)`. */
  predicate HasDigit(s: string)
  {
    exists i :: 0 <= i < |s| && IsDigit(s[i])
  }

  /** `any(c.isalpha() for c in s)`. */
  predicate HasLetter(s: string)
  {
    exists i :: 0 <= i < |s| && IsLetter(s[i])
  }

  /** There is a `\b` at position `i` next to a word character on the other side. */
  predicate BoundaryBefore(s: string, i: nat)
    requires i <= |s|
  {
    i == 0 || !IsWordChar(s[i - 1])
  }

  predicate BoundaryAfter(s: string, i: nat)
    requires i <= |s|
  {
    i == |s| || !IsWordChar(s[i])
  }

  /**
   * `\bw\b` matches at `i` (case-insensitively), for a lower-case word `w`
   * that begins and ends with a letter.
   */
  predicate WordAt(s: string, i: nat, w: string)
  {
    i + |w| <= |s| && Lower(s[i..i + |w|]) == w && BoundaryBefore(s, i) && BoundaryAfter(s, i + |w|)
  }

  /** `re.search(r"\breviews?\b", s, re.I)`. */
  predicate MentionsReviews(s: string)
  {
    exists i :: 0 <= i < |s| && (WordAt(s, i, "review") || WordAt(s, i, "reviews"))
  }

  predicate MonthAt(s: string, i: nat)
  {
    WordAt(s, i, "jan") || WordAt(s, i, "feb") || WordAt(s, i, "mar") || WordAt(s, i, "apr") ||
    WordAt(s, i, "may") || WordAt(s, i, "jun") || WordAt(s, i, "jul") || WordAt(s, i, "aug") ||
    WordAt(s, i, "sep") || WordAt(s, i, "oct") || WordAt(s, i, "nov") || WordAt(s, i, "dec")
  }

  /** `re.search(r"\b(Jan|Feb|...|Dec)\b", s, re.I)`: an abbreviated month name as a whole word. */
  predicate MentionsMonth(s: string)
  {
    exists i :: 0 <= i < |s| && MonthAt(s, i)
  }

  predicate YearAt(s: string, i: nat)
  {
    i + 4 <= |s| && s[i] == '2' && s[i + 1] == '0' && IsDigit(s[i + 2]) && IsDigit(s[i + 3]) &&
    BoundaryBefore(s, i) && BoundaryAfter(s, i + 4)
  }

  /** `re.search(r"\b20\d{2}\b", s)`. */
  predicate MentionsYear(s: string)
  {
    exists i :: 0 <= i < |s| && YearAt(s, i)
  }

  /** A bare year such as "2019" passes the year rule, and no month name can be found in digits. */
  lemma BareYearIsNotAMonth(s: string)
    requires |s| == 4 && s[0] == '2' && s[1] == '0' && IsDigit(s[2]) && IsDigit(s[3])
    ensures MentionsYear(s)
    ensures !MentionsMonth(s)
  {
    assert YearAt(s, 0);
    forall i | 0 <= i < |s| ensures !MonthAt(s, i) {
      if i + 3 <= |s| {
        assert Lower(s[i..i + 3])[0] == s[i];
      }
    }
  }

  predicate AllDollars(s: string)
  {
    |s| > 0 && forall i :: 0 <= i < |s| ==> s[i] == '$'
  }

  /** `re.search(r"^\$+$", s)`: `$` also matches just before a final newline. */
  predicate IsPriceMarkup(s: string)
  {
    AllDollars(s) || (|s| > 0 && s[|s| - 1] == '\n' && AllDollars(s[..|s| - 1]))
  }

  // ---------------------------------------------------------------------
  // Number captures
  // ---------------------------------------------------------------------

  /** End of the maximal run of characters satisfying `p` that starts at `i`. */
  function RunEnd(s: string, i: nat, p: char -> bool): (j: nat)
    requires i <= |s|
    ensures i <= j <= |s|
    ensures forall k :: i <= k < j ==> p(s[k])
    ensures j == |s| || !p(s[j])
    decreases |s| - i
  {
    if i < |s| && p(s[i]) then RunEnd(s, i + 1, p) else i
  }

  predicate IsDigitOrDot(c: char)
  {
    IsDigit(c) || c == '.'
  }

  /** The first maximal run of characters satisfying `p` at or after `i`: `re.search(r"([...]+)")`. */
  function FirstRunFrom(s: string, i: nat, p: char -> bool): Option<string>
    decreases |s| - i
  {
    if i >= |s| then None
    else if p(s[i]) then Some(s[i..RunEnd(s, i, p)])
    else FirstRunFrom(s, i + 1, p)
  }

  /** `int(re.search(r"(\d+)", s).group(1))`, None when `s` has no digit. */
  function FirstNumber(s: string): Option<nat>
  {
    match FirstRunFrom(s, 0, IsDigit)
    case None => None
    case Some(digits) => Some(DigitsValue(digits))
  }

  /** `float()` accepts a run of digits and dots when it has a digit and at most one dot. */
  predicate IsFloatLiteral(s: string)
  {
    HasDigit(s) && forall i, j :: 0 <= i < j < |s| ==> !(s[i] == '.' && s[j] == '.')
  }

  /** The text of `re.search(r"([0-9.]+)", s).group(1)` when `float()` accepts it. */
  function FirstDecimal(s: string): Option<string>
  {
    match FirstRunFrom(s, 0, IsDigitOrDot)
    case Some(run) => if IsFloatLiteral(run) then Some(run) else None
    case None => None
  }

  /**
   * The number captured by `(\d+)\s+<word>` when the match starts at `i`; with
   * `plural` the pattern goes on with `s?\b`. Greedy runs cannot backtrack
   * usefully here, since the word starts with a letter.
   */
  function CountAt(s: string, i: nat, word: string, plural: bool): Option<nat>
    requires i <= |s|
  {
    var j := RunEnd(s, i, IsDigit);
    var k := RunEnd(s, j, IsSpace);
    var m := k + |word|;
    if j > i && k > j && m <= |s| && Lower(s[k..m]) == word &&
       (!plural || BoundaryAfter(s, m) || (m < |s| && LowerChar(s[m]) == 's' && BoundaryAfter(s, m + 1)))
    then Some(DigitsValue(s[i..j]))
    else None
  }

  /** `re.search(r"(\d+)\s+<word>", s, re.I)` from position `i` on: the leftmost match wins. */
  function SearchCount(s: string, word: string, plural: bool, i: nat): Option<nat>
    requires i <= |s|
    decreases |s| - i
  {
    if i == |s| then None
    else if CountAt(s, i, word, plural).Some? then CountAt(s, i, word, plural)
    else SearchCount(s, word, plural, i + 1)
  }

  /** The captured count, or 0 when the pattern does not occur. */
  function CountBefore(s: string, word: string, plural: bool): nat
  {
    match SearchCount(s, word, plural, 0)
    case Some(n) => n
    case None => 0
  }

  /** A text with no digit at all never yields a count other than the default 0. */
  lemma {:induction false} NoDigitNoCount(s: string, word: string, plural: bool, i: nat)
    requires i <= |s|
    requires forall k :: 0 <= k < |s| ==> !IsDigit(s[k])
    ensures SearchCount(s, word, plural, i).None?
    decreases |s| - i
  {
    if i < |s| {
      NoDigitNoCount(s, word, plural, i + 1);
    }
  }

  /**
   * The count reads back: in "<n> <word>" the pattern captures `n`, whatever
   * the case the word is written in, for a word that starts with a letter.
   */
  lemma CountReadsBack(n: nat, shown: string, word: string, plural: bool)
    requires |word| > 0 && IsLetter(word[0]) && Lower(shown) == word
    ensures CountBefore(NatToString(n) + " " + shown, word, plural) == n
  {
    var digits := NatToString(n);
    var s := digits + " " + shown;
    var j := |digits|;
    assert s[j] == ' ';
    assert RunEnd(s, 0, IsDigit) == j by {
      RunEndAt(s, 0, IsDigit, j);
    }
    assert LowerChar(shown[0]) == word[0];
    assert IsLetter(shown[0]);
    assert RunEnd(s, j, IsSpace) == j + 1 by {
      assert s[j + 1] == shown[0];
      RunEndAt(s, j, IsSpace, j + 1);
    }
    assert s[j + 1..] == shown;
    assert s[0..j] == digits;
    NatToStringRoundTrip(n);
  }

  /** A plural reads back too: "<n> <word>s" yields `n` for a pattern that allows the plural. */
  lemma PluralCountReadsBack(n: nat, shown: string, word: string, suffix: char)
    requires |word| > 0 && IsLetter(word[0]) && Lower(shown) == word && LowerChar(suffix) == 's'
    ensures CountBefore(NatToString(n) + " " + shown + [suffix], word, true) == n
  {
    var digits := NatToString(n);
    var s := digits + " " + shown + [suffix];
    var j := |digits|;
    assert s[j] == ' ';
    RunEndAt(s, 0, IsDigit, j);
    assert LowerChar(shown[0]) == word[0];
    assert s[j + 1] == shown[0];
    RunEndAt(s, j, IsSpace, j + 1);
    assert s[j + 1..j + 1 + |word|] == shown;
    assert s[j + 1 + |word|] == suffix;
    assert s[0..j] == digits;
    NatToStringRoundTrip(n);
  }

  /** A run is found exactly when some character from `i` on satisfies `p`. */
  lemma {:induction false} FirstRunFromFinds(s: string, i: nat, p: char -> bool)
    ensures FirstRunFrom(s, i, p).Some? <==> exists k :: i <= k < |s| && p(s[k])
    decreases |s| - i
  {
    if i < |s| && !p(s[i]) {
      FirstRunFromFinds(s, i + 1, p);
      assert (exists k :: i <= k < |s| && p(s[k])) ==> (exists k :: i + 1 <= k < |s| && p(s[k]));
    }
  }

  /** The first number of a text that starts with the digits of `n` is `n`. */
  lemma FirstNumberReadsBack(n: nat, rest: string)
    requires rest == [] || !IsDigit(rest[0])
    ensures FirstNumber(NatToString(n) + rest) == Some(n)
  {
    var digits := NatToString(n);
    var s := digits + rest;
    RunEndAt(s, 0, IsDigit, |digits|);
    assert s[0..|digits|] == digits;
    NatToStringRoundTrip(n);
  }

  /** A run that ends where the predicate first fails ends exactly there. */
  lemma {:induction false} RunEndAt(s: string, i: nat, p: char -> bool, j: nat)
    requires i <= j <= |s|
    requires forall k :: i <= k < j ==> p(s[k])
    requires j == |s| || !p(s[j])
    ensures RunEnd(s, i, p) == j
    decreases j - i
  {
    if i < j {
      RunEndAt(s, i + 1, p, j);
    }
  }
}
