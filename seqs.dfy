/** Order-preserving selection and element-wise mapping over sequences: the shape of a
    boolean-mask selection `df[mask]` and of a column-wise `apply`. */
module Seqs {

  /** The elements of `s` that satisfy `p`, in their original order. */
  function Filter<T>(p: T -> bool, s: seq<T>): (r: seq<T>)
    ensures |r| <= |s|
    ensures forall x :: x in r ==> x in s && p(x)
    ensures forall i :: 0 <= i < |s| && p(s[i]) ==> s[i] in r
  {
    if s == [] then []
    else (if p(s[0]) then [s[0]] else []) + Filter(p, s[1..])
  }

  /** `f` applied to every element of `s`. */
  function Map<T, U>(f: T -> U, s: seq<T>): (r: seq<U>)
    ensures |r| == |s|
    ensures forall i :: 0 <= i < |s| ==> r[i] == f(s[i])
  {
    seq(|s|, i requires 0 <= i < |s| => f(s[i]))
  }

  /** Selecting from a concatenation selects from each part. */
  lemma {:induction false} FilterConcat<T>(p: T -> bool, a: seq<T>, b: seq<T>)
    ensures Filter(p, a + b) == Filter(p, a) + Filter(p, b)
  {
    if a == [] {
      assert a + b == b;
    } else {
      assert (a + b)[0] == a[0] && (a + b)[1..] == a[1..] + b;
      FilterConcat(p, a[1..], b);
      var h := if p(a[0]) then [a[0]] else [];
      assert Filter(p, a + b) == h + Filter(p, a[1..] + b);
      assert h + (Filter(p, a[1..]) + Filter(p, b)) == (h + Filter(p, a[1..])) + Filter(p, b);
    }
  }

  /** Selecting with a predicate that every element meets changes nothing. */
  lemma {:induction false} FilterKeepsAll<T>(p: T -> bool, s: seq<T>)
    requires forall i :: 0 <= i < |s| ==> p(s[i])
    ensures Filter(p, s) == s
  {
    if s != [] {
      FilterKeepsAll(p, s[1..]);
    }
  }

  /** A mask and its complement split `s` into two parts that together hold every
      element exactly as often as `s` does. */
  lemma {:induction false} FilterPartition<T>(p: T -> bool, q: T -> bool, s: seq<T>)
    requires forall x :: q(x) == !p(x)
    ensures multiset(Filter(p, s)) + multiset(Filter(q, s)) == multiset(s)
  {
    if s != [] {
      var t := s[1..];
      FilterPartition(p, q, t);
      FilterHead(p, s);
      FilterHead(q, s);
      MultisetCons(s);
      if p(s[0]) {
        assert !q(s[0]);
      } else {
        assert q(s[0]);
      }
    }
  }

  /** A mask and its complement together select as many elements as `s` has. */
  lemma FilterSizes<T>(p: T -> bool, q: T -> bool, s: seq<T>)
    requires forall x :: q(x) == !p(x)
    ensures |Filter(p, s)| + |Filter(q, s)| == |s|
  {
    FilterPartition(p, q, s);
    assert |multiset(Filter(p, s))| + |multiset(Filter(q, s))| == |multiset(s)|;
  }

  lemma MultisetCons<T>(s: seq<T>)
    requires s != []
    ensures multiset(s) == multiset{s[0]} + multiset(s[1..])
  {
    assert s == [s[0]] + s[1..];
  }

  /** What the first element contributes to a selection, counted as a multiset. */
  lemma FilterHead<T>(p: T -> bool, s: seq<T>)
    requires s != []
    ensures multiset(Filter(p, s))
         == (if p(s[0]) then multiset{s[0]} else multiset{}) + multiset(Filter(p, s[1..]))
  {
    var h := if p(s[0]) then [s[0]] else [];
    assert Filter(p, s) == h + Filter(p, s[1..]);
    assert multiset(h) == if p(s[0]) then multiset{s[0]} else multiset{};
  }

  /** When the complement selects nothing, the mask selects everything. */
  lemma FilterComplementEmpty<T>(p: T -> bool, q: T -> bool, s: seq<T>)
    requires forall x :: q(x) == !p(x)
    requires Filter(q, s) == []
    ensures Filter(p, s) == s
  {
    FilterKeepsAll(p, s);
  }

  /** Mapping a concatenation maps each part. */
  lemma MapConcat<T, U>(f: T -> U, a: seq<T>, b: seq<T>)
    ensures Map(f, a + b) == Map(f, a) + Map(f, b)
  {
  }

  /** Mapping with a function that fixes every element changes nothing. */
  lemma MapFixes<T>(f: T -> T, s: seq<T>)
    requires forall i :: 0 <= i < |s| ==> f(s[i]) == s[i]
    ensures Map(f, s) == s
  {
  }
}
