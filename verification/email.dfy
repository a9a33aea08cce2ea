/** The e-mail address test `is_valid_email`, i.e. a `re.match` of
    `^[^@\s]+@[^@\s]+\.[^@\s]+$`.

    Two readings are given and proved equal: `FullMatch` follows the regular
    expression literally, `Shape` states the four conditions the pattern
    amounts to. */
module Email {
  import opened Text

  /** One character of the class `[^@\s]`. */
  predicate PatternChar(c: char)
  {
    c != '@' && !IsSpace(c)
  }

  /** The three `[^@\s]+` runs of the pattern cover all of `s` except the `@`
      at `at`; the literal `\.` sits at `dot`, with a non-empty run before and
      after it. */
  ghost predicate MatchesAt(s: string, at: int, dot: int)
  {
    && 0 < at && at + 1 < dot && dot + 1 < |s|
    && s[at] == '@' && s[dot] == '.'
    && forall i :: 0 <= i < |s| && i != at ==> PatternChar(s[i])
  }

  /** The anchored pattern matches the whole of `s`. */
  ghost predicate FullMatch(s: string)
  {
    exists at, dot :: MatchesAt(s, at, dot)
  }

  /** Python's `$` also matches just before a final newline, so `re.match`
      succeeds on `s` itself or on `s` minus one trailing `\n`. */
  ghost predicate RegexMatches(s: string)
  {
    FullMatch(s) || (|s| > 0 && s[|s| - 1] == '\n' && FullMatch(s[..|s| - 1]))
  }

  /** The part before the `@`. */
  function LocalPart(s: string): string
  {
    BeforeFirst(s, '@')
  }

  /** The part after the first `@` (empty when there is none). */
  function DomainPart(s: string): string
  {
    var at := IndexOf(s, '@');
    if at < |s| then s[at + 1..] else []
  }

  /** A `.` with at least one character on each side. */
  predicate HasInnerDot(d: string)
  {
    |d| >= 3 && '.' in d[1..|d| - 1]
  }

  /** Exactly one `@`, no whitespace, a non-empty local part and a dot inside
      the domain part. */
  predicate Shape(s: string)
  {
    && multiset(s)['@'] == 1
    && (forall i :: 0 <= i < |s| ==> !IsSpace(s[i]))
    && |LocalPart(s)| > 0
    && HasInnerDot(DomainPart(s))
  }

  /** `is_valid_email`. */
  predicate IsValidEmail(s: string)
  {
    Shape(s) || (|s| > 0 && s[|s| - 1] == '\n' && Shape(s[..|s| - 1]))
  }

  /** A string holding `c` at two distinct positions holds it twice. */
  lemma TwoOccurrences(s: string, c: char, i: int, j: int)
    requires 0 <= i < j < |s| && s[i] == c && s[j] == c
    ensures multiset(s)[c] >= 2
  {
    assert s == s[..i] + [s[i]] + s[i + 1..j] + [s[j]] + s[j + 1..];
  }

  /** With `@` absent on both sides of `at`, `s` holds exactly one `@`. */
  lemma OneOccurrence(s: string, at: int)
    requires 0 <= at < |s| && s[at] == '@'
    requires forall i :: 0 <= i < |s| && i != at ==> s[i] != '@'
    ensures multiset(s)['@'] == 1
  {
    assert s == s[..at] + [s[at]] + s[at + 1..];
    assert '@' !in s[..at];
    assert '@' !in s[at + 1..];
  }

  lemma ShapeMatches(s: string)
    requires Shape(s)
    ensures FullMatch(s)
  {
    var at := IndexOf(s, '@');
    assert '@' in multiset(s);
    var d := DomainPart(s);
    var j :| 1 <= j < |d| - 1 && d[j] == '.';
    var dot := at + 1 + j;
    forall i | 0 <= i < |s| && i != at
      ensures PatternChar(s[i])
    {
      if s[i] == '@' && i > at {
        TwoOccurrences(s, '@', at, i);
      }
    }
    assert MatchesAt(s, at, dot);
  }

  lemma MatchHasShape(s: string, at: int, dot: int)
    requires MatchesAt(s, at, dot)
    ensures Shape(s)
  {
    OneOccurrence(s, at);
    assert LocalPart(s) == s[..at];
    var d := DomainPart(s);
    assert d == s[at + 1..];
    assert d[1..|d| - 1][dot - at - 2] == '.';
  }

  /** The four conditions are exactly what the regular expression accepts. */
  lemma ShapeIsFullMatch(s: string)
    ensures Shape(s) <==> FullMatch(s)
  {
    if Shape(s) {
      ShapeMatches(s);
    }
    if FullMatch(s) {
      var at, dot :| MatchesAt(s, at, dot);
      MatchHasShape(s, at, dot);
    }
  }

  /** `is_valid_email` is exactly `re.match` of the pattern, `$` included. */
  lemma IsValidEmailIsRegexMatch(s: string)
    ensures IsValidEmail(s) <==> RegexMatches(s)
  {
    ShapeIsFullMatch(s);
    if |s| > 0 {
      ShapeIsFullMatch(s[..|s| - 1]);
    }
  }

  /** On a stripped string the trailing-newline allowance never applies, so the
      test is exactly the four conditions. */
  lemma ValidTrimmedIsShape(s: string)
    requires Trimmed(s)
    ensures IsValidEmail(s) <==> Shape(s)
  {
  }

  /** The newline allowance is real: `is_valid_email` accepts an address
      followed by a newline, although whitespace is otherwise refused. */
  lemma TrailingNewlineAccepted()
    ensures IsValidEmail("a@b.c\n")
    ensures !Shape("a@b.c\n")
  {
    var s := "a@b.c";
    assert MatchesAt(s, 1, 3);
    MatchHasShape(s, 1, 3);
    assert ("a@b.c\n")[..5] == s;
    assert IsSpace(("a@b.c\n")[5]);
  }
}
