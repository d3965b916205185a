/**
 * Go's `strings.TrimSpace`: drop leading and trailing white space, where
 * white space is what `unicode.IsSpace` accepts.
 */
module Strings {
  /** `unicode.IsSpace`: the ASCII spaces, NEL, NBSP and the Unicode White_Space characters. */
  predicate IsSpace(c: char) {
    || c == ' '
    || '\t' <= c <= '\r'
    || c == '\U{0085}'
    || c == '\U{00A0}'
    || c == '\U{1680}'
    || '\U{2000}' <= c <= '\U{200A}'
    || c == '\U{2028}'
    || c == '\U{2029}'
    || c == '\U{202F}'
    || c == '\U{205F}'
    || c == '\U{3000}'
  }

  predicate AllSpace(s: string) {
    forall i :: 0 <= i < |s| ==> IsSpace(s[i])
  }

  /** How many white-space characters `s` starts with. */
  function LeadingSpaces(s: string): (k: nat)
    ensures k <= |s| && AllSpace(s[..k])
    ensures k < |s| ==> !IsSpace(s[k])
  {
    if s != [] && IsSpace(s[0]) then
      var k := 1 + LeadingSpaces(s[1..]);
      assert s[..k] == [s[0]] + s[1..][..k - 1];
      k
    else 0
  }

  /** How many white-space characters `s` ends with. */
  function TrailingSpaces(s: string): (k: nat)
    ensures k <= |s| && AllSpace(s[|s| - k..])
    ensures k < |s| ==> !IsSpace(s[|s| - 1 - k])
  {
    if s != [] && IsSpace(s[|s| - 1]) then
      var k := 1 + TrailingSpaces(s[..|s| - 1]);
      assert s[|s| - k..] == s[..|s| - 1][|s| - k..] + [s[|s| - 1]];
      k
    else 0
  }

  /** `strings.TrimSpace`: empty exactly for a string of white space only (see `TrimSpaceTrims` for the rest). */
  function TrimSpace(s: string): (r: string)
    ensures r == [] <==> AllSpace(s)
  {
    var lead := LeadingSpaces(s);
    var t := s[lead..];
    var trail := TrailingSpaces(t);
    var r := t[..|t| - trail];
    TrimSpaceParts(s, lead, t, trail, r);
    r
  }

  /** The trimmed part sits between two runs of white space. */
  lemma TrimSpaceParts(s: string, lead: nat, t: string, trail: nat, r: string)
    requires lead == LeadingSpaces(s) && t == s[lead..]
    requires trail == TrailingSpaces(t) && r == t[..|t| - trail]
    ensures lead + |r| <= |s| && s[lead..lead + |r|] == r
    ensures AllSpace(s[..lead]) && AllSpace(s[lead + |r|..])
    ensures r == [] <==> AllSpace(s)
    ensures r != [] ==> !IsSpace(r[0]) && !IsSpace(r[|r| - 1])
  {
    assert s[lead + |r|..] == t[|t| - trail..];
    TrimSpaceEmpty(s, lead, t, trail, r);
    if r != [] {
      assert r[0] == t[0] == s[lead];
      assert r[|r| - 1] == t[|t| - 1 - trail];
    }
  }

  /** Nothing is left exactly when `s` is all white space. */
  lemma TrimSpaceEmpty(s: string, lead: nat, t: string, trail: nat, r: string)
    requires lead == LeadingSpaces(s) && t == s[lead..]
    requires trail == TrailingSpaces(t) && r == t[..|t| - trail]
    ensures r == [] <==> AllSpace(s)
  {
    if lead == |s| {
      assert t == [];
      assert s == s[..lead];
    } else {
      assert t[0] == s[lead] && !IsSpace(t[0]);
      assert trail < |t|;
      assert |r| > 0;
    }
  }

  /**
   * The trimmed string is the part of `s` between its leading and its
   * trailing white space, and it neither starts nor ends with white space.
   */
  lemma TrimSpaceTrims(s: string)
    ensures |TrimSpace(s)| <= |s|
    ensures TrimSpace(s) != [] ==> !IsSpace(TrimSpace(s)[0]) && !IsSpace(TrimSpace(s)[|TrimSpace(s)| - 1])
    ensures LeadingSpaces(s) + |TrimSpace(s)| <= |s| && s[LeadingSpaces(s)..LeadingSpaces(s) + |TrimSpace(s)|] == TrimSpace(s)
    ensures AllSpace(s[..LeadingSpaces(s)]) && AllSpace(s[LeadingSpaces(s) + |TrimSpace(s)|..])
  {
    var lead := LeadingSpaces(s);
    var t := s[lead..];
    var trail := TrailingSpaces(t);
    var r := TrimSpace(s);
    assert r == t[..|t| - trail];
    TrimSpaceParts(s, lead, t, trail, r);
  }

  /** Trimming twice is trimming once. */
  lemma TrimSpaceIdempotent(s: string)
    ensures TrimSpace(TrimSpace(s)) == TrimSpace(s)
  {
    var r := TrimSpace(s);
    TrimSpaceTrims(s);
    if r != [] {
      assert LeadingSpaces(r) == 0;
      assert TrailingSpaces(r) == 0;
    }
  }
}
