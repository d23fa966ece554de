/**
 * The two field validators of the collector, written out by hand from the
 * regular expressions the collector compiles:
 *   email  ^[\w._%+-]+@[\w.-]+\.[a-zA-Z]{2,}$
 *   phone  ^\d{10}$
 * In Go's RE2 syntax \w is [0-9A-Za-z_] and \d is [0-9] (ASCII only).
 */
module Patterns {
  import opened Text

  predicate All(s: string, p: char -> bool) {
    forall i :: 0 <= i < |s| ==> p(s[i])
  }

  /** \w */
  predicate IsWordChar(c: char) {
    ('0' <= c <= '9') || ('A' <= c <= 'Z') || ('a' <= c <= 'z') || c == '_'
  }

  /** [\w._%+-], the characters of the part before the '@' */
  predicate IsLocalChar(c: char) {
    IsWordChar(c) || c == '.' || c == '_' || c == '%' || c == '+' || c == '-'
  }

  /** [\w.-], the characters of the domain before the final '.' */
  predicate IsDomainChar(c: char) {
    IsWordChar(c) || c == '.' || c == '-'
  }

  /** [a-zA-Z] */
  predicate IsAsciiLetter(c: char) {
    ('A' <= c <= 'Z') || ('a' <= c <= 'z')
  }

  /** \d */
  predicate IsDigit(c: char) {
    '0' <= c <= '9'
  }

  // ---------------------------------------------------------------------
  // The email pattern, as the regular expression reads: `s` splits at an
  // '@' at index i and a '.' at index j into a local part s[..i] of one or
  // more local characters, a domain s[i+1..j] of one or more domain
  // characters and a top-level label s[j+1..] of two or more letters.

  ghost predicate EmailShapeAt(s: string, i: int, j: int) {
    && 0 < i && i + 1 < j && j + 2 < |s|
    && s[i] == '@' && s[j] == '.'
    && All(s[..i], IsLocalChar)
    && All(s[i + 1..j], IsDomainChar)
    && All(s[j + 1..], IsAsciiLetter)
  }

  ghost predicate EmailPatternMatches(s: string) {
    exists i, j :: EmailShapeAt(s, i, j)
  }

  // ---------------------------------------------------------------------
  // A deterministic matcher for the same pattern.

  /** Index of the first `c` in `s`, or |s| when there is none. */
  function IndexOf(s: string, c: char): (k: nat)
    ensures k <= |s|
    ensures k < |s| ==> s[k] == c
    ensures forall i :: 0 <= i < k ==> s[i] != c
  {
    if s == [] then 0
    else if s[0] == c then 0
    else 1 + IndexOf(s[1..], c)
  }

  /** Index of the last `c` in `s`, or -1 when there is none. */
  function LastIndexOf(s: string, c: char): (k: int)
    ensures -1 <= k < |s|
    ensures 0 <= k ==> s[k] == c
    ensures forall i :: k < i < |s| ==> s[i] != c
  {
    if s == [] then -1
    else if s[|s| - 1] == c then |s| - 1
    else LastIndexOf(s[..|s| - 1], c)
  }

  /** The collector's email check: the local part ends at the first '@'
      (no local or domain character is an '@'), and the top-level label
      starts after the last '.' (letters are never a '.'). */
  predicate IsValidEmail(s: string) {
    var at := IndexOf(s, '@');
    at < |s| &&
    var rest := s[at + 1..];
    var dot := LastIndexOf(rest, '.');
    && 0 < at && All(s[..at], IsLocalChar)
    && 0 < dot && All(rest[..dot], IsDomainChar)
    && dot + 3 <= |rest| && All(rest[dot + 1..], IsAsciiLetter)
  }

  /** The matcher accepts exactly the strings the regular expression matches. */
  lemma EmailMatcherAgreesWithPattern(s: string)
    ensures IsValidEmail(s) <==> EmailPatternMatches(s)
  {
    if IsValidEmail(s) {
      var at := IndexOf(s, '@');
      var rest := s[at + 1..];
      var dot := LastIndexOf(rest, '.');
      var j := at + 1 + dot;
      assert s[at + 1..j] == rest[..dot];
      assert s[j + 1..] == rest[dot + 1..];
      assert EmailShapeAt(s, at, j);
    }
    if EmailPatternMatches(s) {
      var i, j :| EmailShapeAt(s, i, j);
      ShapeFixesSplit(s, i, j);
    }
  }

  /** In a string of the email shape, the '@' is the first one and the
      '.' before the label is the last one of what follows the '@'. */
  lemma ShapeFixesSplit(s: string, i: int, j: int)
    requires EmailShapeAt(s, i, j)
    ensures IndexOf(s, '@') == i
    ensures LastIndexOf(s[i + 1..], '.') == j - i - 1
    ensures IsValidEmail(s)
  {
    forall k | 0 <= k < i ensures s[k] != '@' {
      assert IsLocalChar(s[..i][k]);
    }
    var at := IndexOf(s, '@');
    assert at == i;
    var rest := s[i + 1..];
    forall k | j - i - 1 < k < |rest| ensures rest[k] != '.' {
      assert rest[k] == s[j + 1..][k - (j - i)];
      assert IsAsciiLetter(s[j + 1..][k - (j - i)]);
    }
    var dot := LastIndexOf(rest, '.');
    assert rest[j - i - 1] == '.';
    assert dot == j - i - 1;
    assert rest[..dot] == s[i + 1..j];
    assert rest[dot + 1..] == s[j + 1..];
  }

  /** Every accepted email holds exactly one '@', not at the start, and its
      last '.' is followed by two or more ASCII letters and nothing else. */
  lemma AcceptedEmailShape(s: string)
    requires IsValidEmail(s)
    ensures multiset(s)['@'] == 1
    ensures s[0] != '@'
    ensures var dot := LastIndexOf(s, '.');
      0 <= dot && dot + 3 <= |s| && All(s[dot + 1..], IsAsciiLetter)
  {
    OneAt(s);
    LabelAtEnd(s);
  }

  lemma OneAt(s: string)
    requires IsValidEmail(s)
    ensures multiset(s)['@'] == 1
  {
    var at := IndexOf(s, '@');
    var rest := s[at + 1..];
    var dot := LastIndexOf(rest, '.');
    assert '@' !in s[..at];
    forall k | 0 <= k < |rest| ensures rest[k] != '@' {
      if k < dot {
        assert IsDomainChar(rest[..dot][k]);
      } else if dot < k {
        assert IsAsciiLetter(rest[dot + 1..][k - dot - 1]);
      }
    }
    assert '@' !in rest;
    assert s == s[..at] + [s[at]] + rest;
    assert multiset(s) == multiset(s[..at]) + multiset([s[at]]) + multiset(rest);
  }

  lemma LabelAtEnd(s: string)
    requires IsValidEmail(s)
    ensures var dot := LastIndexOf(s, '.');
      0 <= dot && dot + 3 <= |s| && All(s[dot + 1..], IsAsciiLetter)
  {
    var at := IndexOf(s, '@');
    var rest := s[at + 1..];
    var dot := LastIndexOf(rest, '.');
    var tld := rest[dot + 1..];
    var last := at + 1 + dot;
    assert All(tld, IsAsciiLetter);
    assert tld == s[last + 1..];
    NoDotInLetters(tld);
    forall k | last < k < |s| ensures s[k] != '.' {
      assert s[k] == tld[k - last - 1];
    }
    LastIndexOfIs(s, '.', last);
  }

  lemma NoDotInLetters(t: string)
    requires All(t, IsAsciiLetter)
    ensures forall i :: 0 <= i < |t| ==> t[i] != '.'
  {
  }

  lemma LastIndexOfIs(s: string, c: char, k: int)
    requires 0 <= k < |s| && s[k] == c
    requires forall i :: k < i < |s| ==> s[i] != c
    ensures LastIndexOf(s, c) == k
  {
  }

  /** An accepted email has no surrounding white space, so the collector
      stores exactly the line it matched. */
  lemma AcceptedEmailIsTrimmed(s: string)
    requires IsValidEmail(s)
    ensures IsTrimmed(s) && TrimSpace(s) == s
  {
    var at := IndexOf(s, '@');
    var rest := s[at + 1..];
    assert IsLocalChar(s[..at][0]);
    assert IsAsciiLetter(rest[|rest| - 1]) by {
      var dot := LastIndexOf(rest, '.');
      assert rest[|rest| - 1] == rest[dot + 1..][|rest| - dot - 2];
    }
    assert s[|s| - 1] == rest[|rest| - 1];
    assert [] + s + [] == s;
    TrimSpaceUnique([], s, []);
  }

  /** An example the email prompt accepts: `a@b.co`. */
  lemma EmailExamples()
    ensures IsValidEmail("a@b.co")
  {
    var s := "a@b.co";
    assert IndexOf(s, '@') == 1;
    assert s[2..] == "b.co";
    assert LastIndexOf("b.co", '.') == 1;
    assert All(s[..1], IsLocalChar) && All("b.co"[..1], IsDomainChar);
    assert All("b.co"[2..], IsAsciiLetter);
  }

  /** Examples the email prompt rejects and asks again for: `abc` has no
      `@`, `a@b` no dot after it and `a@b.c` only one letter after the last
      dot. */
  lemma RejectedEmailExamples()
    ensures !IsValidEmail("abc")
    ensures !IsValidEmail("a@b")
    ensures !IsValidEmail("a@b.c")
  {
    assert IndexOf("abc", '@') == 3;
    assert IndexOf("a@b", '@') == 1;
    assert LastIndexOf("b", '.') == -1;
    assert IndexOf("a@b.c", '@') == 1;
    assert LastIndexOf("b.c", '.') == 1;
  }

  /** The empty line, which is what a read at the end of input yields, is
      never an email. */
  lemma EmptyIsNotEmail()
    ensures !IsValidEmail("")
  {
  }

  // ---------------------------------------------------------------------
  // The phone pattern ^\d{10}$.

  predicate IsValidPhone(s: string) {
    |s| == 10 && All(s, IsDigit)
  }

  /** An accepted phone number has no surrounding white space. */
  lemma AcceptedPhoneIsTrimmed(s: string)
    requires IsValidPhone(s)
    ensures IsTrimmed(s) && TrimSpace(s) == s
  {
    assert IsDigit(s[0]) && IsDigit(s[9]);
    assert [] + s + [] == s;
    TrimSpaceUnique([], s, []);
  }

  /** `1234567890` is accepted; `12345` (too short), `123456789a` (a
      non-digit), an eleven-digit number and the empty line are rejected. */
  lemma PhoneExamples()
    ensures IsValidPhone("1234567890")
    ensures !IsValidPhone("12345")
    ensures !IsValidPhone("123456789a")
    ensures !IsValidPhone("12345678901")
    ensures !IsValidPhone("")
  {
    assert !IsDigit("123456789a"[9]);
  }
}
