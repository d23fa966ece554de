/**
 * Whitespace trimming of input lines, as done by Go's strings.TrimSpace:
 * every line the collector reads is stripped of leading and trailing
 * white space (unicode.IsSpace) before it is used.
 */
module Text {

  /** Go's unicode.IsSpace: the ASCII controls \t \n \v \f \r, the space,
      U+0085 (NEL), U+00A0 (NBSP) and the other Unicode White_Space
      characters. */
  predicate IsSpace(c: char) {
    var n := c as int;
    (9 <= n <= 13) || n == 0x20 || n == 0x85 || n == 0xA0 || n == 0x1680
    || (0x2000 <= n <= 0x200A) || n == 0x2028 || n == 0x2029
    || n == 0x202F || n == 0x205F || n == 0x3000
  }

  predicate AllSpace(s: string) {
    forall i :: 0 <= i < |s| ==> IsSpace(s[i])
  }

  /** A string with no white space at either end. */
  predicate IsTrimmed(s: string) {
    s == [] || (!IsSpace(s[0]) && !IsSpace(s[|s| - 1]))
  }

  /** The number of white space characters `s` starts with. */
  function LeadingSpaces(s: string): (n: nat)
    ensures n <= |s|
    ensures forall i :: 0 <= i < n ==> IsSpace(s[i])
    ensures n < |s| ==> !IsSpace(s[n])
  {
    if s != [] && IsSpace(s[0]) then 1 + LeadingSpaces(s[1..]) else 0
  }

  /** The number of white space characters `s` ends with. */
  function TrailingSpaces(s: string): (n: nat)
    ensures n <= |s|
    ensures forall i :: |s| - n <= i < |s| ==> IsSpace(s[i])
    ensures n < |s| ==> !IsSpace(s[|s| - 1 - n])
  {
    if s != [] && IsSpace(s[|s| - 1]) then 1 + TrailingSpaces(s[..|s| - 1]) else 0
  }

  /** strings.TrimSpace: the part of `s` between its leading and its
      trailing white space. */
  function TrimSpace(s: string): string
  {
    var start := LeadingSpaces(s);
    if start == |s| then [] else s[start..|s| - TrailingSpaces(s)]
  }

  /** Trimming leaves no white space at either end. */
  lemma TrimSpaceIsTrimmed(s: string)
    ensures IsTrimmed(TrimSpace(s))
  {
    var start := LeadingSpaces(s);
    if start < |s| {
      var stop := |s| - TrailingSpaces(s);
      assert !IsSpace(s[start]) && !IsSpace(s[stop - 1]);
    }
  }

  lemma {:induction false} LeadingSpacesSkip(p: string, u: string)
    requires AllSpace(p)
    requires u == [] || !IsSpace(u[0])
    ensures LeadingSpaces(p + u) == |p|
    decreases |p|
  {
    if p != [] {
      assert (p + u)[1..] == p[1..] + u;
      LeadingSpacesSkip(p[1..], u);
    } else {
      assert p + u == u;
    }
  }

  lemma {:induction false} TrailingSpacesSkip(u: string, q: string)
    requires AllSpace(q)
    requires u == [] || !IsSpace(u[|u| - 1])
    ensures TrailingSpaces(u + q) == |q|
    decreases |q|
  {
    if q != [] {
      assert (u + q)[..|u + q| - 1] == u + q[..|q| - 1];
      TrailingSpacesSkip(u, q[..|q| - 1]);
    } else {
      assert u + q == u;
    }
  }

  /** TrimSpace is determined by its meaning: whatever white space surrounds
      a trimmed string, trimming gives back exactly that string. */
  lemma TrimSpaceUnique(p: string, t: string, q: string)
    requires AllSpace(p) && AllSpace(q) && IsTrimmed(t)
    ensures TrimSpace(p + t + q) == t
  {
    var s := p + t + q;
    if t == [] {
      assert AllSpace(s) by {
        forall i | 0 <= i < |s| ensures IsSpace(s[i]) {
          if i < |p| { assert s[i] == p[i]; } else { assert s[i] == q[i - |p|]; }
        }
      }
    } else {
      assert s == p + (t + q);
      LeadingSpacesSkip(p, t + q);
      assert s == (p + t) + q;
      assert (p + t)[|p + t| - 1] == t[|t| - 1];
      TrailingSpacesSkip(p + t, q);
      assert s[|p|..|s| - |q|] == t;
    }
  }

  /** Every string is its trimmed form surrounded by white space. */
  lemma TrimSpaceSplits(s: string) returns (p: string, q: string)
    ensures AllSpace(p)
    ensures AllSpace(q)
    ensures s == p + TrimSpace(s) + q
  {
    var start := LeadingSpaces(s);
    if start == |s| {
      p, q := s, [];
      assert s == p + [] + q;
    } else {
      var stop := |s| - TrailingSpaces(s);
      p, q := s[..start], s[stop..];
      assert s == p + s[start..stop] + q;
    }
  }

  /** A line trims to the empty string exactly when it is all white space. */
  lemma TrimSpaceEmpty(s: string)
    ensures TrimSpace(s) == [] <==> AllSpace(s)
  {
    var start := LeadingSpaces(s);
    if start < |s| {
      assert !IsSpace(s[start]);
      assert |s| - TrailingSpaces(s) > start;
    }
  }

  /** Trimming twice is trimming once. */
  lemma TrimSpaceIdempotent(s: string)
    ensures TrimSpace(TrimSpace(s)) == TrimSpace(s)
  {
    var t := TrimSpace(s);
    TrimSpaceIsTrimmed(s);
    assert [] + t + [] == t;
    TrimSpaceUnique([], t, []);
  }
}
