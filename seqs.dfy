/**
  Sequence operations that stand for the pandas idioms the recommendation
  step is built from: a boolean-mask selection `df[mask]` (Keep), `head(n)`
  (Take), and the "is an order-preserving selection of" relation (Subseq)
  that both of them keep.
 */
module Seqs {

  /** `a` is obtained from `b` by deleting elements, without reordering. */
  predicate Subseq<T(==)>(a: seq<T>, b: seq<T>)
    decreases |b|
  {
    a == [] ||
    (b != [] &&
     ((a[0] == b[0] && Subseq(a[1..], b[1..])) || Subseq(a, b[1..])))
  }

  /** Boolean-mask selection `s[p(s)]`: the elements satisfying `p`, in their original order. */
  function Keep<T(==,!new)>(s: seq<T>, p: T -> bool): (r: seq<T>)
    ensures |r| <= |s|
    ensures forall x :: x in r <==> x in s && p(x)
    ensures Subseq(r, s)
  {
    if s == [] then []
    else if p(s[0]) then [s[0]] + Keep(s[1..], p)
    else Keep(s[1..], p)
  }

  /** `head(n)`: the first `n` elements, or all of them when there are fewer. */
  function Take<T>(s: seq<T>, n: nat): (r: seq<T>)
    ensures |r| == if |s| <= n then |s| else n
    ensures r <= s
  {
    if |s| <= n then s else s[..n]
  }

  /**
    Reference definition of "the first `n` elements satisfying `p`": a single
    left-to-right scan that stops once `n` have been found.
   */
  function FirstQualifying<T>(s: seq<T>, p: T -> bool, n: nat): seq<T>
  {
    if s == [] || n == 0 then []
    else if p(s[0]) then [s[0]] + FirstQualifying(s[1..], p, n - 1)
    else FirstQualifying(s[1..], p, n)
  }

  /** A prefix is a subsequence. */
  lemma {:induction false} PrefixIsSubseq<T>(a: seq<T>, b: seq<T>)
    requires a <= b
    ensures Subseq(a, b)
    decreases |b|
  {
    if a != [] {
      assert a[0] == b[0];
      assert a[1..] <= b[1..];
      PrefixIsSubseq(a[1..], b[1..]);
    }
  }

  /** Selecting from a selection is a selection. */
  lemma {:induction false} SubseqTrans<T>(a: seq<T>, b: seq<T>, c: seq<T>)
    requires Subseq(a, b) && Subseq(b, c)
    ensures Subseq(a, c)
    decreases |c|
  {
    if a == [] {
    } else if b[0] == c[0] && Subseq(b[1..], c[1..]) {
      if a[0] == b[0] && Subseq(a[1..], b[1..]) {
        SubseqTrans(a[1..], b[1..], c[1..]);
      } else {
        SubseqTrans(a, b[1..], c[1..]);
      }
    } else {
      SubseqTrans(a, b, c[1..]);
    }
  }

  /** A mask distributes over concatenation. */
  lemma {:induction false} KeepAppend<T(!new)>(a: seq<T>, b: seq<T>, p: T -> bool)
    ensures Keep(a + b, p) == Keep(a, p) + Keep(b, p)
    decreases |a|
  {
    if a == [] {
      assert a + b == b;
    } else {
      assert (a + b)[0] == a[0];
      assert (a + b)[1..] == a[1..] + b;
      KeepAppend(a[1..], b, p);
    }
  }

  /** Two masks applied one after the other select what their conjunction selects. */
  lemma {:induction false} KeepKeep<T(!new)>(s: seq<T>, p: T -> bool, q: T -> bool, both: T -> bool)
    requires forall x :: both(x) == (p(x) && q(x))
    ensures Keep(Keep(s, p), q) == Keep(s, both)
    decreases |s|
  {
    if s != [] {
      KeepKeep(s[1..], p, q, both);
      if p(s[0]) {
        assert Keep(s, p) == [s[0]] + Keep(s[1..], p);
        assert Keep(s, p)[0] == s[0] && Keep(s, p)[1..] == Keep(s[1..], p);
      }
    }
  }

  /** `head(n)` after a mask is the scan that stops at the `n`-th qualifying element. */
  lemma {:induction false} TakeKeepIsFirstQualifying<T(!new)>(s: seq<T>, p: T -> bool, n: nat)
    ensures Take(Keep(s, p), n) == FirstQualifying(s, p, n)
    decreases |s|
  {
    if s == [] || n == 0 {
    } else if p(s[0]) {
      TakeKeepIsFirstQualifying(s[1..], p, n - 1);
      var rest := Keep(s[1..], p);
      assert Keep(s, p) == [s[0]] + rest;
      if |rest| + 1 <= n {
        assert Take([s[0]] + rest, n) == [s[0]] + Take(rest, n - 1);
      } else {
        assert ([s[0]] + rest)[..n] == [s[0]] + rest[..n - 1];
      }
    } else {
      TakeKeepIsFirstQualifying(s[1..], p, n);
    }
  }

  /**
    Completeness of `head(n)` after a mask: an element that satisfies `p` and
    has fewer than `n` qualifying elements before it is kept, at the position
    given by how many qualifying elements precede it.
   */
  lemma {:induction false} TakeKeepKeepsEarly<T(!new)>(s: seq<T>, p: T -> bool, n: nat, i: nat)
    requires i < |s| && p(s[i])
    requires |Keep(s[..i], p)| < n
    ensures |Keep(s[..i], p)| < |Take(Keep(s, p), n)|
    ensures Take(Keep(s, p), n)[|Keep(s[..i], p)|] == s[i]
  {
    var before := Keep(s[..i], p);
    assert s == s[..i] + s[i..];
    KeepAppend(s[..i], s[i..], p);
    assert s[i..] == [s[i]] + s[i + 1..];
    assert Keep(s[i..], p) == [s[i]] + Keep(s[i + 1..], p);
    assert Keep(s, p)[|before|] == s[i];
  }
}
