/** The `filter_map` iterator idiom (keep what a step produces, in order), and regroupings
    of sequences shared by the proofs. */
module Seqs {
  import opened Wrappers

  /** What `f` produces for each element, in order, skipping the elements it rejects. */
  function FilterMap<R, T>(items: seq<R>, f: R -> Option<T>): (r: seq<T>)
    ensures |r| <= |items|
  {
    if items == [] then []
    else match f(items[0])
      case Some(t) => [t] + FilterMap(items[1..], f)
      case None => FilterMap(items[1..], f)
  }

  lemma {:induction false} FilterMapAppend<R, T>(a: seq<R>, b: seq<R>, f: R -> Option<T>)
    ensures FilterMap(a + b, f) == FilterMap(a, f) + FilterMap(b, f)
    decreases |a|
  {
    if a == [] {
      assert a + b == b;
    } else {
      assert (a + b)[0] == a[0] && (a + b)[1..] == a[1..] + b;
      FilterMapAppend(a[1..], b, f);
    }
  }

  /** An element that `f` rejects contributes nothing: dropping it changes no result. */
  lemma FilterMapSkip<R, T>(items: seq<R>, j: nat, f: R -> Option<T>)
    requires j < |items| && f(items[j]).None?
    ensures FilterMap(items, f) == FilterMap(items[..j] + items[j + 1..], f)
  {
    var a, x, b := items[..j], items[j], items[j + 1..];
    assert items == a + ([x] + b);
    FilterMapAppend(a, [x] + b, f);
    assert ([x] + b)[0] == x && ([x] + b)[1..] == b;
    FilterMapAppend(a, b, f);
  }

  /** When `f` accepts every element, there is one result per element, in order. */
  lemma {:induction false} FilterMapAll<R, T>(items: seq<R>, f: R -> Option<T>)
    requires forall i :: 0 <= i < |items| ==> f(items[i]).Some?
    ensures |FilterMap(items, f)| == |items|
    ensures forall i :: 0 <= i < |items| ==> FilterMap(items, f)[i] == f(items[i]).value
    decreases |items|
  {
    if items != [] {
      FilterMapAll(items[1..], f);
    }
  }

  // Regroupings, stated once so that proofs about text need not rediscover them.

  lemma Assoc4<X>(a: seq<X>, b: seq<X>, c: seq<X>, d: seq<X>)
    ensures a + b + c + d == a + (b + (c + d))
  {
  }

  lemma ConsAssoc<X>(x: X, a: seq<X>, b: seq<X>)
    ensures [x] + (a + b) == ([x] + a) + b
  {
  }

  lemma ConsTwo<X>(a: X, b: X, xs: seq<X>)
    ensures [a] + ([b] + xs) == [a, b] + xs
  {
  }

  lemma Regroup<X>(p: seq<X>, c: seq<X>, d: seq<X>, e: seq<X>, f: seq<X>)
    ensures p + c + d + e + f == p + (c + d) + e + f
  {
  }

  lemma Wrap<X>(x: X, a: seq<X>, b: seq<X>, c: seq<X>, d: seq<X>, e: seq<X>, y: X)
    ensures [x] + (a + b + c + d + e) + [y] == [x] + a + b + c + d + e + [y]
  {
  }

  lemma SliceSnoc<X>(s: seq<X>, i: nat)
    requires i < |s|
    ensures s[..i + 1] == s[..i] + [s[i]]
  {
  }

  lemma PrefixKept<X>(a: seq<X>, b: seq<X>, c: seq<X>)
    ensures (a + b)[..|a|] == a && (a + b + c)[..|a|] == a
  {
    assert a + b + c == a + (b + c);
  }

  lemma SliceOfSlice<X>(s: seq<X>, i: nat)
    requires i < |s|
    ensures s[..i + 1][..i] == s[..i]
  {
  }

  lemma SliceAll<X>(s: seq<X>)
    ensures s[..|s|] == s
  {
  }

  lemma SnocTwo<X>(xs: seq<X>, a: X, b: X)
    ensures xs + [a] + [b] == xs + [a, b]
  {
  }

  /** The last element of a concatenation with a non-empty tail is the tail's last. */
  lemma LastOfAppend<X>(a: seq<X>, b: seq<X>)
    requires |b| > 0
    ensures (a + b)[|a + b| - 1] == b[|b| - 1]
  {
  }
}
