/**
 * The few Python `str` operations the tools rely on: `isspace`, `strip`,
 * `upper` and `startswith`.
 *
 * `strip()` uses Python's whitespace set exactly (every character for which
 * `str.isspace()` holds); `upper()` is modelled as ASCII case folding.
 */
module PyStr {

  /** `c.isspace()`: the ASCII controls \t..\r and \x1c..\x1f, the space, and
      the Unicode separators Python counts as whitespace. */
  predicate IsSpace(c: char) {
    || ('\t' <= c <= '\r')
    || ('\U{1C}' <= c <= ' ')
    || c == '\U{85}' || c == '\U{A0}' || c == '\U{1680}'
    || ('\U{2000}' <= c <= '\U{200A}')
    || c == '\U{2028}' || c == '\U{2029}' || c == '\U{202F}'
    || c == '\U{205F}' || c == '\U{3000}'
  }

  predicate AllSpace(s: string) {
    forall i :: 0 <= i < |s| ==> IsSpace(s[i])
  }

  /** Upper-case of one character (ASCII letters only). */
  function UpperChar(c: char): char {
    if 'a' <= c <= 'z' then (c as int - 32) as char else c
  }

  /** `s.upper()`: the same text up to letter case, with no lower-case
      letter left. */
  function Upper(s: string): (r: string)
    ensures CaseVariant(r, s)
    ensures forall i :: 0 <= i < |r| ==> !('a' <= r[i] <= 'z')
  {
    seq(|s|, i requires 0 <= i < |s| => UpperChar(s[i]))
  }

  /** `s.startswith(prefix)`: the first `|prefix|` characters of `s` are
      those of `prefix`. */
  function StartsWith(s: string, prefix: string): (b: bool)
    ensures b <==> |prefix| <= |s| && forall i :: 0 <= i < |prefix| ==> s[i] == prefix[i]
  {
    |prefix| <= |s| && s[..|prefix|] == prefix
  }

  /** `s.lstrip()`: drops the leading whitespace and nothing else. */
  function LStrip(s: string): (r: string)
    ensures |r| <= |s| && r == s[|s| - |r|..]
    ensures forall m :: 0 <= m < |s| - |r| ==> IsSpace(s[m])
    ensures r == [] || !IsSpace(r[0])
  {
    if s != [] && IsSpace(s[0]) then LStrip(s[1..]) else s
  }

  /** `s.rstrip()`: drops the trailing whitespace and nothing else. */
  function RStrip(s: string): (r: string)
    ensures |r| <= |s| && r == s[..|r|]
    ensures forall m :: |r| <= m < |s| ==> IsSpace(s[m])
    ensures r == [] || !IsSpace(r[|r| - 1])
    ensures r == [] <==> AllSpace(s)
  {
    if s != [] && IsSpace(s[|s| - 1]) then RStrip(s[..|s| - 1]) else s
  }

  /** `r` is the slice of `s` that starts at `i`, with only whitespace
      before it and after it. */
  predicate SpaceAround(s: string, i: int, r: string) {
    && 0 <= i <= |s| - |r| && r == s[i..i + |r|]
    && (forall m :: 0 <= m < i ==> IsSpace(s[m]))
    && (forall m :: i + |r| <= m < |s| ==> IsSpace(s[m]))
  }

  /** `s.strip()`: the slice of `s` left once a leading and a trailing run
      of whitespace are removed; it neither starts nor ends with whitespace,
      and it is empty exactly when `s` is all whitespace. */
  function Strip(s: string): (r: string)
    ensures exists i :: SpaceAround(s, i, r)
    ensures r == [] || (!IsSpace(r[0]) && !IsSpace(r[|r| - 1]))
    ensures r == [] <==> AllSpace(s)
  {
    var l := LStrip(s);
    var r := RStrip(l);
    TrimBothEnds(s, l, r);
    r
  }

  /** What `strip` promises, from what `lstrip` and `rstrip` promise. */
  lemma TrimBothEnds(s: string, l: string, r: string)
    requires |l| <= |s| && l == s[|s| - |l|..]
    requires forall m :: 0 <= m < |s| - |l| ==> IsSpace(s[m])
    requires l == [] || !IsSpace(l[0])
    requires |r| <= |l| && r == l[..|r|]
    requires forall m :: |r| <= m < |l| ==> IsSpace(l[m])
    requires r == [] || !IsSpace(r[|r| - 1])
    requires r == [] <==> AllSpace(l)
    ensures SpaceAround(s, |s| - |l|, r)
    ensures r == [] || (!IsSpace(r[0]) && !IsSpace(r[|r| - 1]))
    ensures r == [] <==> AllSpace(s)
  {
    var i := |s| - |l|;
    assert r == s[i..i + |r|] by {
      assert l[..|r|] == s[i..][..|r|];
    }
    forall m | i + |r| <= m < |s| ensures IsSpace(s[m]) {
      assert s[m] == l[m - i];
    }
    assert r == [] || r[0] == l[0];
    assert l == [] || !AllSpace(l);
    assert l == [] || l[0] == s[i];
    assert l == [] || !AllSpace(s);
    assert l == [] ==> AllSpace(s);
  }

  /** Whitespace at the front followed by a non-space character: `lstrip`
      removes exactly that whitespace. */
  lemma {:induction false} LStripSkips(s: string, k: nat)
    requires k < |s| && AllSpace(s[..k]) && !IsSpace(s[k])
    ensures LStrip(s) == s[k..]
  {
    if k > 0 {
      assert IsSpace(s[..k][0]);
      assert s[1..][..k - 1] == s[1..k];
      assert AllSpace(s[1..][..k - 1]);
      LStripSkips(s[1..], k - 1);
      assert s[1..][k - 1..] == s[k..];
    }
  }

  lemma UpperPrefix(s: string, n: nat)
    requires n <= |s|
    ensures Upper(s)[..n] == Upper(s[..n])
  {
  }

  /** Two strings that differ only in letter case. */
  predicate CaseVariant(a: string, b: string) {
    |a| == |b| && forall k :: 0 <= k < |a| ==> UpperChar(a[k]) == UpperChar(b[k])
  }

  lemma UpperOfCaseVariant(a: string, b: string)
    requires CaseVariant(a, b)
    ensures Upper(a) == Upper(b)
  {
  }

  /** For a text with no lower-case letter, upper-casing to it is being it
      up to letter case. */
  lemma UpperIsCaseVariant(v: string, w: string)
    requires forall i :: 0 <= i < |w| ==> !('a' <= w[i] <= 'z')
    ensures Upper(v) == w <==> CaseVariant(v, w)
  {
    assert Upper(w) == w;
    if CaseVariant(v, w) {
      UpperOfCaseVariant(v, w);
    }
  }
}
