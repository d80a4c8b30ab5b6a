/** The Python `str` behaviour the pipeline leans on: which characters are whitespace,
    `strip()`, and the code-point order in which strings compare and sort. */
module PyStrings {

  /** `str.isspace()`, which is also what `strip()` and the regex class `\s` use. */
  predicate IsSpace(c: char) {
    || ('\t' <= c <= '\r')
    || ('\U{1C}' <= c <= '\U{1F}')
    || c == ' '
    || c == '\U{85}'
    || c == '\U{A0}'
    || c == '\U{1680}'
    || ('\U{2000}' <= c <= '\U{200A}')
    || c == '\U{2028}'
    || c == '\U{2029}'
    || c == '\U{202F}'
    || c == '\U{205F}'
    || c == '\U{3000}'
  }

  /** `str.lstrip()`: the longest suffix of `s` that does not start with whitespace. */
  function LStrip(s: string): (r: string)
    ensures |r| <= |s| && r == s[|s| - |r|..]
    ensures r == [] || !IsSpace(r[0])
    ensures forall i :: 0 <= i < |s| - |r| ==> IsSpace(s[i])
  {
    if s == [] || !IsSpace(s[0]) then s else LStrip(s[1..])
  }

  /** `str.rstrip()`: the longest prefix of `s` that does not end with whitespace. */
  function RStrip(s: string): (r: string)
    ensures |r| <= |s| && r == s[..|r|]
    ensures r == [] || !IsSpace(r[|r| - 1])
    ensures forall i :: |r| <= i < |s| ==> IsSpace(s[i])
  {
    if s == [] || !IsSpace(s[|s| - 1]) then s else RStrip(s[..|s| - 1])
  }

  /** `str.strip()`: `s` with its leading and trailing whitespace removed, and nothing
      else. */
  function Strip(s: string): (r: string)
    ensures r == [] || (!IsSpace(r[0]) && !IsSpace(r[|r| - 1]))
    ensures exists i :: TrimmedAt(r, s, i)
  {
    StripTrims(s, LStrip(s), RStrip(LStrip(s)));
    RStrip(LStrip(s))
  }

  /** The pieces `lstrip` and `rstrip` leave, seen as one slice of `s`. */
  lemma StripTrims(s: string, l: string, r: string)
    requires |l| <= |s| && l == s[|s| - |l|..]
    requires forall k :: 0 <= k < |s| - |l| ==> IsSpace(s[k])
    requires |r| <= |l| && r == l[..|r|]
    requires forall k :: |r| <= k < |l| ==> IsSpace(l[k])
    ensures TrimmedAt(r, s, |s| - |l|)
  {
    var i := |s| - |l|;
    assert r == s[i..i + |r|];
    forall k | i + |r| <= k < |s|
      ensures IsSpace(s[k])
    {
      assert s[k] == l[k - i];
    }
  }

  /** `r` is the slice of `s` from `i` on, and only whitespace of `s` lies outside it. */
  predicate TrimmedAt(r: string, s: string, i: int) {
    && 0 <= i <= |s| - |r| && r == s[i..i + |r|]
    && (forall k :: 0 <= k < i ==> IsSpace(s[k]))
    && (forall k :: i + |r| <= k < |s| ==> IsSpace(s[k]))
  }

  /** A string with no whitespace at either end is left as it is by `strip()`. */
  lemma StripTrimmed(s: string)
    requires s == [] || (!IsSpace(s[0]) && !IsSpace(s[|s| - 1]))
    ensures Strip(s) == s
  {
  }

  /** `lstrip()` of a concatenation: once the first part has a non-space, the second
      part is kept whole. */
  lemma {:induction false} LStripAppend(z: string, t: string)
    ensures LStrip(z + t) == if LStrip(z) == [] then LStrip(t) else LStrip(z) + t
  {
    if z == [] {
      assert z + t == t;
    } else {
      assert (z + t)[0] == z[0] && (z + t)[1..] == z[1..] + t;
      if IsSpace(z[0]) {
        LStripAppend(z[1..], t);
      }
    }
  }

  /** A space in front makes no difference to `strip()`. */
  lemma StripConsSpace(z: string)
    ensures Strip(" " + z) == Strip(z)
  {
    assert (" " + z)[1..] == z;
  }

  /** A space at the end makes no difference to `strip()`. */
  lemma StripAppendSpace(z: string)
    ensures Strip(z + " ") == Strip(z)
  {
    LStripAppend(z, " ");
    if LStrip(z) == [] {
      assert LStrip(" ") == [];
    } else {
      RStripSpace(LStrip(z));
    }
  }

  lemma RStripSpace(l: string)
    ensures RStrip(l + " ") == RStrip(l)
  {
    assert (l + " ")[..|l|] == l;
  }

  /** `a < b` on Python strings: lexicographic by code point, a proper prefix first. */
  predicate StrLt(a: string, b: string) {
    if a == [] then b != []
    else if b == [] then false
    else a[0] < b[0] || (a[0] == b[0] && StrLt(a[1..], b[1..]))
  }

  /** `a <= b` on Python strings. */
  predicate StrLe(a: string, b: string) {
    a == b || StrLt(a, b)
  }

  lemma {:induction false} StrLtIrreflexive(a: string)
    ensures !StrLt(a, a)
  {
    if a != [] {
      StrLtIrreflexive(a[1..]);
    }
  }

  lemma {:induction false} StrLtTransitive(a: string, b: string, c: string)
    requires StrLt(a, b) && StrLt(b, c)
    ensures StrLt(a, c)
  {
    if a != [] && b != [] && c != [] && a[0] == b[0] && b[0] == c[0] {
      StrLtTransitive(a[1..], b[1..], c[1..]);
    }
  }

  /** Any two distinct strings are ordered one way or the other. */
  lemma {:induction false} StrLtTotal(a: string, b: string)
    requires a != b
    ensures StrLt(a, b) || StrLt(b, a)
  {
    if a != [] && b != [] && a[0] == b[0] {
      assert a == [a[0]] + a[1..] && b == [b[0]] + b[1..];
      StrLtTotal(a[1..], b[1..]);
    }
  }

  lemma {:induction false} StrLtAsymmetric(a: string, b: string)
    requires StrLt(a, b)
    ensures !StrLt(b, a)
  {
    if StrLt(b, a) {
      StrLtTransitive(a, b, a);
      StrLtIrreflexive(a);
    }
  }
}
