/** Sequence helpers shared by the replay engine: the row filters of its SQL queries,
    Python's `zip` and Python's `xs[:n]` slice. */
module Seqs {

  function Min(a: int, b: int): int { if a <= b then a else b }

  /** The elements of `s` that satisfy `f`, in their order in `s`. */
  function Filter<T>(s: seq<T>, f: T -> bool): (r: seq<T>)
    ensures |r| <= |s|
    decreases |s|
  {
    if |s| == 0 then []
    else if f(s[0]) then [s[0]] + Filter(s[1..], f)
    else Filter(s[1..], f)
  }

  /** `Filter` keeps exactly the elements of `s` that satisfy `f`. */
  lemma {:induction false} FilterMembers<T>(s: seq<T>, f: T -> bool)
    ensures forall i :: 0 <= i < |Filter(s, f)| ==> Filter(s, f)[i] in s && f(Filter(s, f)[i])
    ensures forall i :: 0 <= i < |s| && f(s[i]) ==> s[i] in Filter(s, f)
    decreases |s|
  {
    if |s| > 0 {
      FilterMembers(s[1..], f);
      var r, t := Filter(s, f), Filter(s[1..], f);
      forall i | 0 <= i < |s| && f(s[i]) ensures s[i] in r {
        if i > 0 { assert s[i] == s[1..][i - 1]; }
      }
      if f(s[0]) {
        assert forall i :: 0 < i < |r| ==> r[i] == t[i - 1];
      }
    }
  }

  /** The first element kept by `Filter` is the first element of `s` that satisfies `f`. */
  lemma {:induction false} FilterFirst<T>(s: seq<T>, f: T -> bool, k: nat)
    requires k < |s| && f(s[k])
    requires forall j :: 0 <= j < k ==> !f(s[j])
    ensures |Filter(s, f)| > 0 && Filter(s, f)[0] == s[k]
  {
    if k > 0 {
      assert !f(s[0]);
      forall j | 0 <= j < k - 1 ensures !f(s[1..][j]) {
        assert s[1..][j] == s[j + 1];
      }
      FilterFirst(s[1..], f, k - 1);
    }
  }

  /** Filtering by a weaker predicate keeps at least as many elements. */
  lemma {:induction false} FilterMonotonic<T>(s: seq<T>, f: T -> bool, g: T -> bool)
    requires forall y :: y in s && g(y) ==> f(y)
    ensures |Filter(s, g)| <= |Filter(s, f)|
    decreases |s|
  {
    if |s| > 0 {
      FilterMonotonic(s[1..], f, g);
    }
  }

  /** ... and strictly more when some element passes the weaker predicate only. */
  lemma {:induction false} FilterShrinks<T>(s: seq<T>, f: T -> bool, g: T -> bool, x: T)
    requires forall y :: y in s && g(y) ==> f(y)
    requires x in s && f(x) && !g(x)
    ensures |Filter(s, g)| < |Filter(s, f)|
    decreases |s|
  {
    if s[0] == x {
      FilterMonotonic(s[1..], f, g);
    } else {
      FilterShrinks(s[1..], f, g, x);
    }
  }

  lemma ConcatAssoc<T>(a: seq<T>, b: seq<T>, c: seq<T>)
    ensures a + (b + c) == (a + b) + c
  {
  }

  lemma ConcatEmpty<T>(s: seq<T>)
    ensures s + [] == s
  {
  }

  lemma HeadTail<T>(s: seq<T>)
    requires |s| > 0
    ensures [s[0]] + s[1..] == s
  {
  }

  lemma DropStep<T>(s: seq<T>, i: nat)
    requires i <= |s|
    ensures s[0..] == s
    ensures i < |s| ==> s[i..][0] == s[i] && s[i..][1..] == s[i + 1..]
  {
  }

  /** Python's `zip(a, b)`: pairs up to the shorter of the two. */
  function Zip<A, B>(a: seq<A>, b: seq<B>): (r: seq<(A, B)>)
    ensures |r| == Min(|a|, |b|)
    ensures forall i :: 0 <= i < |r| ==> r[i] == (a[i], b[i])
  {
    seq(Min(|a|, |b|), i requires 0 <= i < Min(|a|, |b|) => (a[i], b[i]))
  }

  /** Python's `s[:n]`: a negative `n` counts from the end. */
  function Take<T>(s: seq<T>, n: int): (r: seq<T>)
    ensures |r| == if n >= 0 then Min(n, |s|) else if |s| + n > 0 then |s| + n else 0
    ensures r == s[..|r|]
  {
    if n >= 0 then (if n < |s| then s[..n] else s)
    else if |s| + n > 0 then s[..|s| + n]
    else []
  }
}
