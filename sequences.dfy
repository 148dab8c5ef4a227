/** Order-preserving sub-sequences, the shape every filter of the backend produces. */
module Sequences {

  /** `a` can be obtained from `b` by deleting elements, keeping the order of the rest. */
  predicate IsSubsequence<T(==)>(a: seq<T>, b: seq<T>)
    decreases |b|
  {
    if a == [] then true
    else if b == [] then false
    else (a[|a| - 1] == b[|b| - 1] && IsSubsequence(a[..|a| - 1], b[..|b| - 1]))
         || IsSubsequence(a, b[..|b| - 1])
  }

  /** Keeping the last element of `b` (or not) after a subsequence of its prefix stays a subsequence. */
  lemma {:induction false} SubsequenceExtend<T>(a: seq<T>, b: seq<T>, x: T, keep: bool)
    requires IsSubsequence(a, b)
    ensures IsSubsequence(if keep then a + [x] else a, b + [x])
  {
    var b' := b + [x];
    assert b'[..|b'| - 1] == b;
    if keep {
      var a' := a + [x];
      assert a'[..|a'| - 1] == a;
    }
  }

  /** Every element of a subsequence is an element of the whole. */
  lemma {:induction false} SubsequenceMembers<T>(a: seq<T>, b: seq<T>, x: T)
    requires IsSubsequence(a, b) && x in a
    ensures x in b
    decreases |b|
  {
    var a', b' := a[..|a| - 1], b[..|b| - 1];
    if a[|a| - 1] == b[|b| - 1] && IsSubsequence(a', b') {
      if x != a[|a| - 1] {
        assert a == a' + [a[|a| - 1]];
        SubsequenceMembers(a', b', x);
      }
    } else {
      SubsequenceMembers(a, b', x);
    }
  }

  /** A slice of `b` is a subsequence of it. */
  lemma {:induction false} SliceIsSubsequence<T>(b: seq<T>, i: nat, j: nat)
    requires i <= j <= |b|
    ensures IsSubsequence(b[i..j], b)
    decreases |b|
  {
    if i < j {
      var b' := b[..|b| - 1];
      if j == |b| {
        var a := b[i..j];
        assert a[..|a| - 1] == b'[i..j - 1];
        SliceIsSubsequence(b', i, j - 1);
      } else {
        assert b'[i..j] == b[i..j];
        SliceIsSubsequence(b', i, j);
      }
    }
  }

  lemma {:induction false} SubsequenceTrans<T>(a: seq<T>, b: seq<T>, c: seq<T>)
    requires IsSubsequence(a, b) && IsSubsequence(b, c)
    ensures IsSubsequence(a, c)
    decreases |c|
  {
    if a != [] {
      var a', b', c' := a[..|a| - 1], b[..|b| - 1], c[..|c| - 1];
      if b[|b| - 1] == c[|c| - 1] && IsSubsequence(b', c') {
        if a[|a| - 1] == b[|b| - 1] && IsSubsequence(a', b') {
          SubsequenceTrans(a', b', c');
        } else {
          SubsequenceTrans(a, b', c');
        }
      } else {
        SubsequenceTrans(a, b, c');
      }
    }
  }

  /** A prefix of a suffix is a slice, and what follows it is a suffix. */
  lemma SliceOfSuffix<T>(s: seq<T>, i: nat, n: nat)
    requires i + n <= |s|
    ensures s[i..][..n] == s[i..i + n] && s[i..][n..] == s[i + n..]
  {
  }

  /** The part after the first separator `c` of `a + [c] + w + [d] + b`, grouped as one. */
  lemma RegroupAfter<T>(a: seq<T>, c: T, w: seq<T>, d: T, b: seq<T>)
    ensures a + [c] + w + [d] + b == a + [c] + (w + [d] + b)
  {
  }

  /** Slicing `a + [c] + b` within `a`, or just past the separator `c`. */
  lemma AroundSeparator<T>(a: seq<T>, c: T, b: seq<T>, n: nat)
    requires n <= |a|
    ensures (a + [c] + b)[..n] == a[..n]
    ensures (a + [c] + b)[n..] == a[n..] + [c] + b
    ensures (a + [c] + b)[|a|] == c && (a + [c] + b)[|a| + 1..] == b
  {
    assert (a + [c] + b)[n..] == a[n..] + [c] + b;
    assert (a + [c] + b)[|a| + 1..] == b;
  }

  /** `[f(x) for x in xs]` */
  function Map<S, T>(f: S -> T, xs: seq<S>): (ys: seq<T>)
    ensures |ys| == |xs|
    ensures forall i :: 0 <= i < |xs| ==> ys[i] == f(xs[i])
    decreases |xs|
  {
    if xs == [] then [] else Map(f, xs[..|xs| - 1]) + [f(xs[|xs| - 1])]
  }

  lemma {:induction false} MapAppend<S, T>(f: S -> T, xs: seq<S>, ys: seq<S>)
    ensures Map(f, xs + ys) == Map(f, xs) + Map(f, ys)
    decreases |ys|
  {
    if ys == [] {
      assert xs + ys == xs;
    } else {
      var init := ys[..|ys| - 1];
      assert (xs + ys)[..|xs + ys| - 1] == xs + init;
      MapAppend(f, xs, init);
    }
  }

  /** `y` is among the images of the kept elements iff some kept element is mapped to it. */
  lemma MapFilterMembers<S, T>(f: S -> T, keep: S -> bool, xs: seq<S>, y: T)
    ensures y in Map(f, Filter(xs, keep)) <==> exists k :: 0 <= k < |xs| && keep(xs[k]) && f(xs[k]) == y
  {
    var ys := Filter(xs, keep);
    if y in Map(f, ys) {
      var j :| 0 <= j < |ys| && Map(f, ys)[j] == y;
      FilterMembers(xs, keep, ys[j]);
    }
    if k :| 0 <= k < |xs| && keep(xs[k]) && f(xs[k]) == y {
      FilterMembers(xs, keep, xs[k]);
      var j :| 0 <= j < |ys| && ys[j] == xs[k];
      assert Map(f, ys)[j] == y;
    }
  }

  /** The elements of the sequences of `xss`, one sequence after the other. */
  function Concat<T>(xss: seq<seq<T>>): (ys: seq<T>)
    decreases |xss|
  {
    if xss == [] then [] else xss[0] + Concat(xss[1..])
  }

  /** The elements of `xs` that satisfy `keep`, in order: what a `for` loop with a guarded `append` builds. */
  function Filter<T>(xs: seq<T>, keep: T -> bool): (ys: seq<T>)
    ensures |ys| <= |xs|
    ensures forall k :: 0 <= k < |ys| ==> keep(ys[k])
    decreases |xs|
  {
    if xs == [] then []
    else
      var last := xs[|xs| - 1];
      Filter(xs[..|xs| - 1], keep) + (if keep(last) then [last] else [])
  }

  /** One more loop iteration: the filter of a longer prefix. */
  lemma FilterStep<T>(xs: seq<T>, keep: T -> bool, i: nat)
    requires i < |xs|
    ensures Filter(xs[..i + 1], keep) == Filter(xs[..i], keep) + (if keep(xs[i]) then [xs[i]] else [])
  {
    assert xs[..i + 1][..i] == xs[..i];
  }

  lemma {:induction false} FilterMembers<T>(xs: seq<T>, keep: T -> bool, x: T)
    ensures x in Filter(xs, keep) <==> x in xs && keep(x)
    decreases |xs|
  {
    if xs != [] {
      var init := xs[..|xs| - 1];
      FilterMembers(init, keep, x);
      assert xs == init + [xs[|xs| - 1]];
    }
  }

  lemma {:induction false} FilterKeepsOrder<T>(xs: seq<T>, keep: T -> bool)
    ensures IsSubsequence(Filter(xs, keep), xs)
    decreases |xs|
  {
    if xs != [] {
      var init, last := xs[..|xs| - 1], xs[|xs| - 1];
      assert init + [last] == xs;
      FilterKeepsOrder(init, keep);
      var before := Filter(init, keep);
      if !keep(last) {
        assert Filter(xs, keep) == before + [] == before;
      }
      SubsequenceExtend(before, init, last, keep(last));
    }
  }

  /** Filtering a concatenation filters each part. */
  lemma {:induction false} FilterAppend<T>(xs: seq<T>, ys: seq<T>, keep: T -> bool)
    ensures Filter(xs + ys, keep) == Filter(xs, keep) + Filter(ys, keep)
    decreases |ys|
  {
    if ys != [] {
      var init := ys[..|ys| - 1];
      assert (xs + ys)[..|xs + ys| - 1] == xs + init;
      FilterAppend(xs, init, keep);
    } else {
      assert xs + ys == xs;
    }
  }

  /** With a predicate that holds nowhere, nothing is kept. */
  lemma FilterNone<T>(xs: seq<T>, keep: T -> bool)
    requires forall k :: 0 <= k < |xs| ==> !keep(xs[k])
    ensures Filter(xs, keep) == []
  {
    if Filter(xs, keep) != [] {
      var ys := Filter(xs, keep);
      FilterMembers(xs, keep, ys[0]);
    }
  }

  /** With a predicate that holds everywhere, everything is kept. */
  lemma {:induction false} FilterAll<T>(xs: seq<T>, keep: T -> bool)
    requires forall k :: 0 <= k < |xs| ==> keep(xs[k])
    ensures Filter(xs, keep) == xs
    decreases |xs|
  {
    if xs != [] {
      FilterAll(xs[..|xs| - 1], keep);
      assert xs[..|xs| - 1] + [xs[|xs| - 1]] == xs;
    }
  }

  /** The first non-empty element of `rs`, or `[]` when every element is empty. */
  function FirstNonEmpty<T>(rs: seq<seq<T>>): seq<T>
    decreases |rs|
  {
    if rs == [] then []
    else if rs[0] != [] then rs[0]
    else FirstNonEmpty(rs[1..])
  }

  /** Scanning `rs` from position `i`: stop at a non-empty element, else go on at `i + 1`. */
  lemma FirstNonEmptyStep<T>(rs: seq<seq<T>>, i: nat)
    requires i < |rs|
    ensures FirstNonEmpty(rs[i..]) == if rs[i] != [] then rs[i] else FirstNonEmpty(rs[i + 1..])
  {
    assert rs[i..][0] == rs[i];
    assert rs[i..][1..] == rs[i + 1..];
  }

  lemma {:induction false} FirstNonEmptyIsFirst<T>(rs: seq<seq<T>>)
    ensures FirstNonEmpty(rs) == [] <==> forall k :: 0 <= k < |rs| ==> rs[k] == []
    ensures FirstNonEmpty(rs) != [] ==>
              exists k :: 0 <= k < |rs| && FirstNonEmpty(rs) == rs[k] && forall j :: 0 <= j < k ==> rs[j] == []
    decreases |rs|
  {
    if rs != [] && rs[0] == [] {
      FirstNonEmptyIsFirst(rs[1..]);
      assert forall k :: 1 <= k < |rs| ==> rs[k] == rs[1..][k - 1];
      if FirstNonEmpty(rs) != [] {
        var k :| 0 <= k < |rs| - 1 && FirstNonEmpty(rs[1..]) == rs[1..][k] && forall j :: 0 <= j < k ==> rs[1..][j] == [];
        assert FirstNonEmpty(rs) == rs[k + 1];
        assert forall j :: 0 <= j < k + 1 ==> rs[j] == [] by {
          forall j | 0 <= j < k + 1 ensures rs[j] == [] {
            if j > 0 { assert rs[j] == rs[1..][j - 1]; }
          }
        }
      }
    }
  }
}
