/** Stable filtering and mapping of sequences: the shape of every loop in the query code
    that copies the entries it keeps into a fresh dictionary, in iteration order. */
module Seqs {

  /** The entries of `s` that satisfy `keep`, in their original order. */
  function Filter<T>(s: seq<T>, keep: T -> bool): (r: seq<T>)
    ensures |r| <= |s|
    ensures forall i :: 0 <= i < |r| ==> keep(r[i])
    decreases |s|
  {
    if |s| == 0 then []
    else if keep(s[0]) then [s[0]] + Filter(s[1..], keep)
    else Filter(s[1..], keep)
  }

  function Map<T, U>(s: seq<T>, f: T -> U): (r: seq<U>)
    ensures |r| == |s|
    ensures forall i :: 0 <= i < |s| ==> r[i] == f(s[i])
  {
    seq(|s|, i requires 0 <= i < |s| => f(s[i]))
  }

  lemma MapCons<T, U>(x: T, s: seq<T>, f: T -> U)
    ensures Map([x] + s, f) == [f(x)] + Map(s, f)
  {
  }

  /** Filter then map, unrolled once. */
  lemma FilterMapHead<T, U>(s: seq<T>, keep: T -> bool, f: T -> U)
    requires |s| > 0
    ensures Map(Filter(s, keep), f) == (if keep(s[0]) then [f(s[0])] else []) + Map(Filter(s[1..], keep), f)
  {
    if keep(s[0]) {
      assert Filter(s, keep) == [s[0]] + Filter(s[1..], keep);
      MapCons(s[0], Filter(s[1..], keep), f);
    }
  }

  /** `a` can be obtained from `b` by deleting entries: `a` lists some of `b`'s entries,
      in `b`'s order. The search is greedy, which is complete for this relation. */
  predicate IsSubseq<T(==)>(a: seq<T>, b: seq<T>)
    decreases |b|
  {
    |a| == 0 || (|b| > 0 && if a[0] == b[0] then IsSubseq(a[1..], b[1..]) else IsSubseq(a, b[1..]))
  }

  lemma {:induction false} SubseqDropHead<T>(a: seq<T>, b: seq<T>)
    requires |a| > 0 && IsSubseq(a, b)
    ensures IsSubseq(a[1..], b)
    decreases |b|, 0
  {
    if a[0] == b[0] {
      SubseqCons(a[1..], b[1..], b[0]);
      assert [b[0]] + b[1..] == b;
    } else {
      SubseqDropHead(a, b[1..]);
      SubseqCons(a[1..], b[1..], b[0]);
      assert [b[0]] + b[1..] == b;
    }
  }

  /** Putting one more entry in front of the longer sequence keeps the relation. */
  lemma {:induction false} SubseqCons<T>(a: seq<T>, b: seq<T>, x: T)
    requires IsSubseq(a, b)
    ensures IsSubseq(a, [x] + b)
    decreases |b|, 1
  {
    if |a| > 0 && a[0] == x {
      assert ([x] + b)[1..] == b;
      SubseqDropHead(a, b);
    } else if |a| > 0 {
      assert ([x] + b)[1..] == b;
    }
  }

  /** Filtering deletes entries and never reorders the ones it keeps. */
  lemma {:induction false} FilterIsSubseq<T>(s: seq<T>, keep: T -> bool)
    ensures IsSubseq(Filter(s, keep), s)
    decreases |s|
  {
    if |s| > 0 {
      FilterIsSubseq(s[1..], keep);
      if keep(s[0]) {
        var r := Filter(s, keep);
        assert r[0] == s[0] && r[1..] == Filter(s[1..], keep);
      } else {
        SubseqCons(Filter(s[1..], keep), s[1..], s[0]);
        assert [s[0]] + s[1..] == s;
      }
    }
  }

  /** An entry survives the filter exactly when it was there and satisfies `keep`. */
  lemma {:induction false} FilterMembership<T>(s: seq<T>, keep: T -> bool, x: T)
    ensures x in Filter(s, keep) <==> x in s && keep(x)
    decreases |s|
  {
    if |s| > 0 {
      FilterMembership(s[1..], keep, x);
      assert s == [s[0]] + s[1..];
    }
  }

  /** A filter that every entry passes changes nothing. */
  lemma {:induction false} FilterKeepsAll<T>(s: seq<T>, keep: T -> bool)
    requires forall i :: 0 <= i < |s| ==> keep(s[i])
    ensures Filter(s, keep) == s
    decreases |s|
  {
    if |s| > 0 {
      FilterKeepsAll(s[1..], keep);
      assert [s[0]] + s[1..] == s;
    }
  }

  /** A filter that no entry passes leaves nothing. */
  lemma {:induction false} FilterKeepsNone<T>(s: seq<T>, keep: T -> bool)
    requires forall i :: 0 <= i < |s| ==> !keep(s[i])
    ensures Filter(s, keep) == []
    decreases |s|
  {
    if |s| > 0 {
      FilterKeepsNone(s[1..], keep);
    }
  }

  /** Two predicates that agree on every entry filter alike. */
  lemma {:induction false} FilterAgree<T>(s: seq<T>, p: T -> bool, q: T -> bool)
    requires forall i :: 0 <= i < |s| ==> p(s[i]) == q(s[i])
    ensures Filter(s, p) == Filter(s, q)
    decreases |s|
  {
    if |s| > 0 {
      FilterAgree(s[1..], p, q);
    }
  }

  /** Filtering twice is filtering once by the conjunction. */
  lemma {:induction false} FilterFilter<T>(s: seq<T>, p: T -> bool, q: T -> bool)
    ensures Filter(Filter(s, p), q) == Filter(s, x => p(x) && q(x))
    decreases |s|
  {
    if |s| > 0 {
      FilterFilter(s[1..], p, q);
      if p(s[0]) {
        assert Filter(s, p) == [s[0]] + Filter(s[1..], p);
        assert Filter(s, p)[1..] == Filter(s[1..], p);
      }
    }
  }

  /** Filtering is idempotent. */
  lemma FilterIdempotent<T>(s: seq<T>, keep: T -> bool)
    ensures Filter(Filter(s, keep), keep) == Filter(s, keep)
  {
    var r := Filter(s, keep);
    FilterKeepsAll(r, keep);
  }

  /** Filtering commutes with a map, the predicate read through the map. */
  lemma {:induction false} FilterMap<T, U>(s: seq<T>, f: T -> U, keep: U -> bool)
    ensures Filter(Map(s, f), keep) == Map(Filter(s, x => keep(f(x))), f)
    decreases |s|
  {
    if |s| > 0 {
      FilterMap(s[1..], f, keep);
      assert Map(s, f)[1..] == Map(s[1..], f);
      if keep(f(s[0])) {
        assert Map(Filter(s, x => keep(f(x))), f)
            == [f(s[0])] + Map(Filter(s[1..], x => keep(f(x))), f);
      }
    }
  }

  lemma MapIdentity<T>(s: seq<T>)
    ensures Map(s, x => x) == s
  {
  }

  /** Filter, map, filter again is one filter then the map, provided `w` is the
      conjunction of the first predicate and the second read through the map. */
  lemma FilterMapFilter<T, U>(s: seq<T>, p: T -> bool, f: T -> U, q: U -> bool, w: T -> bool)
    requires forall i :: 0 <= i < |s| ==> w(s[i]) == (p(s[i]) && q(f(s[i])))
    ensures Filter(Map(Filter(s, p), f), q) == Map(Filter(s, w), f)
  {
    var qf := x => q(f(x));
    FilterMap(Filter(s, p), f, q);
    FilterFilter(s, p, qf);
    FilterAgree(s, x => p(x) && qf(x), w);
  }
}
