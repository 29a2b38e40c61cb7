/** Go's `strings.TrimSpace`, which the IP resolver applies to the lookup service's
    response body before validating it. Like Go's implementation, it finds the
    first non-space index from the front and then the last from the back. */
module Strings {

  /** Go's `unicode.IsSpace`: the Latin-1 spaces plus the Unicode White_Space
      property. */
  predicate IsSpace(c: char) {
    || c == '\t' || c == '\n' || c == '\U{000B}' || c == '\U{000C}' || c == '\r' || c == ' '
    || c == '\U{0085}' || c == '\U{00A0}' || c == '\U{1680}'
    || ('\U{2000}' <= c <= '\U{200A}')
    || c == '\U{2028}' || c == '\U{2029}' || c == '\U{202F}' || c == '\U{205F}' || c == '\U{3000}'
  }

  predicate AllSpace(s: string) {
    forall i :: 0 <= i < |s| ==> IsSpace(s[i])
  }

  /** `s` neither starts nor ends with white space. */
  predicate Trimmed(s: string) {
    s == [] || (!IsSpace(s[0]) && !IsSpace(s[|s| - 1]))
  }

  /** The first index at or after `i` that does not hold a space (`|s|` if none). */
  function TrimStart(s: string, i: nat): (k: nat)
    requires i <= |s|
    ensures i <= k <= |s|
    ensures forall j :: i <= j < k ==> IsSpace(s[j])
    ensures k == |s| || !IsSpace(s[k])
    decreases |s| - i
  {
    if i < |s| && IsSpace(s[i]) then TrimStart(s, i + 1) else i
  }

  /** The end of `s[start..stop]` once its trailing spaces are cut off. */
  function TrimStop(s: string, start: nat, stop: nat): (k: nat)
    requires start <= stop <= |s|
    ensures start <= k <= stop
    ensures forall j :: k <= j < stop ==> IsSpace(s[j])
    ensures k == start || !IsSpace(s[k - 1])
    decreases stop
  {
    if start < stop && IsSpace(s[stop - 1]) then TrimStop(s, start, stop - 1) else stop
  }

  /** `strings.TrimSpace`: leading and trailing white space removed. The
      result neither starts nor ends with a space, and it is empty exactly
      when `s` is all white space. */
  function TrimSpace(s: string): (r: string)
    ensures |r| <= |s| && Trimmed(r)
    ensures r == [] <==> AllSpace(s)
  {
    var start := TrimStart(s, 0);
    s[start..TrimStop(s, start, |s|)]
  }

  /** TrimSpace returns the part of `s` between a leading and a trailing run of
      white space, and that part neither starts nor ends with a space. */
  lemma TrimSpaceIsCore(s: string)
    ensures var start := TrimStart(s, 0); var stop := TrimStop(s, start, |s|);
      && TrimSpace(s) == s[start..stop]
      && AllSpace(s[..start]) && AllSpace(s[stop..])
      && Trimmed(TrimSpace(s))
  {
    var start := TrimStart(s, 0);
    var stop := TrimStop(s, start, |s|);
    assert AllSpace(s[..start]) by {
      forall j | 0 <= j < start ensures IsSpace(s[..start][j]) {
        assert s[..start][j] == s[j];
      }
    }
    assert AllSpace(s[stop..]) by {
      forall j | 0 <= j < |s| - stop ensures IsSpace(s[stop..][j]) {
        assert s[stop..][j] == s[stop + j];
      }
    }
  }

  /** The converse: padding a string that neither starts nor ends with a space
      by white space on both sides is undone by TrimSpace. */
  lemma TrimSpaceOfPadded(pre: string, core: string, post: string)
    requires AllSpace(pre) && AllSpace(post) && Trimmed(core)
    ensures TrimSpace(pre + core + post) == core
  {
    var t := pre + core + post;
    forall j | 0 <= j < |pre| ensures IsSpace(t[j]) {
      assert t[j] == pre[j];
    }
    forall j | |pre| + |core| <= j < |t| ensures IsSpace(t[j]) {
      assert t[j] == post[j - |pre| - |core|];
    }
    if core == [] {
      assert TrimStart(t, 0) == |t|;
    } else {
      assert t[|pre|] == core[0];
      assert t[|pre| + |core| - 1] == core[|core| - 1];
      assert TrimStart(t, 0) == |pre|;
      assert TrimStop(t, |pre|, |t|) == |pre| + |core|;
      assert t[|pre|..|pre| + |core|] == core;
    }
  }

  /** Trimming twice is trimming once. */
  lemma TrimSpaceIdempotent(s: string)
    ensures TrimSpace(TrimSpace(s)) == TrimSpace(s)
  {
    var r := TrimSpace(s);
    TrimSpaceIsCore(s);
    TrimSpaceOfPadded([], r, []);
    assert [] + r + [] == r;
  }
}
