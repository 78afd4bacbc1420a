/** Sequence identities stated once for any element type, so that proofs
    about sequences of strings need not rediscover them element by element;
    and numbered runs of values stored into a map. */
module Seqs {

  lemma AppendAssoc<T>(a: seq<T>, b: seq<T>, c: seq<T>)
    ensures (a + b) + c == a + (b + c)
  {
  }

  lemma AppendEmpty<T>(a: seq<T>, b: seq<T>)
    requires b == []
    ensures a + b == a
  {
  }

  /** Moving the first element of b to the end of a. */
  lemma ConsAppend<T>(a: seq<T>, b: seq<T>)
    requires b != []
    ensures a + b == (a + [b[0]]) + b[1..]
  {
    assert b == [b[0]] + b[1..];
  }

  lemma HeadTail<T>(s: seq<T>)
    requires s != []
    ensures [s[0]] + s[1..] == s
  {
  }

  /** Past the head, a cons is indexed as its tail. */
  lemma ConsAt<T>(x: T, rest: seq<T>, k: nat)
    requires 0 < k <= |rest|
    ensures ([x] + rest)[k] == rest[k - 1]
  {
  }

  /** Past the prefix, a concatenation is indexed as its second part. */
  lemma AppendAt<T>(a: seq<T>, b: seq<T>, k: nat)
    requires k < |b|
    ensures (a + b)[|a| + k] == b[k]
  {
  }

  lemma PrefixRest<T>(a: seq<T>, b: seq<T>, s: seq<T>)
    requires s == a + b
    ensures |a| <= |s| && s == a + s[|a|..]
  {
    assert s[|a|..] == b;
  }

  lemma DropAt<T>(s: seq<T>, k: nat)
    requires 0 < k < |s|
    ensures s[1..][k - 1] == s[k]
  {
  }

  lemma DropAppend<T>(a: seq<T>, b: seq<T>)
    requires a != []
    ensures (a + b)[1..] == a[1..] + b
  {
  }

  lemma Pointwise<T>(a: seq<T>, b: seq<T>)
    requires |a| == |b| && forall i :: 0 <= i < |a| ==> a[i] == b[i]
    ensures a == b
  {
  }

  lemma TakeSnoc<T>(s: seq<T>, x: T)
    ensures (s + [x])[..|s|] == s
    ensures (s + [x])[|s|] == x
  {
  }

  lemma TakeNext<T>(s: seq<T>, i: nat)
    requires i < |s|
    ensures s[..i + 1] == s[..i] + [s[i]]
  {
  }

  lemma TakeDrop<T>(s: seq<T>, i: nat)
    requires i < |s|
    ensures s == s[..i] + s[i..]
    ensures s[i..] != [] && s[i..][0] == s[i]
  {
  }

  lemma TakeTake<T>(s: seq<T>, n: nat, k: nat)
    requires k <= n <= |s|
    ensures s[..n][..k] == s[..k]
  {
  }

  lemma InitLast<T>(s: seq<T>)
    requires s != []
    ensures s[..|s| - 1] + [s[|s| - 1]] == s
  {
  }

  lemma TakeAll<T>(s: seq<T>)
    ensures s[..|s|] == s
  {
  }

  /** Splitting off the last element of b. */
  lemma SnocSplit<T>(a: seq<T>, b: seq<T>)
    requires b != []
    ensures a + b == (a + b[..|b| - 1]) + [b[|b| - 1]]
    ensures |a + b[..|b| - 1]| == |a| + |b| - 1
  {
    assert b == b[..|b| - 1] + [b[|b| - 1]];
  }

  /** m with vals[i] stored under the number base + i, one after another. */
  function Extend<V>(m: map<int, V>, base: int, vals: seq<V>): map<int, V>
    decreases |vals|
  {
    if vals == [] then m
    else Extend(m, base, vals[..|vals| - 1])[base + |vals| - 1 := vals[|vals| - 1]]
  }

  lemma ExtendSnoc<V>(m: map<int, V>, base: int, vals: seq<V>, v: V)
    ensures Extend(m, base, vals + [v]) == Extend(m, base, vals)[base + |vals| := v]
  {
    assert (vals + [v])[..|vals|] == vals;
  }

  /** Extending by xs + ys extends by xs, then by ys after them. */
  lemma {:induction false} ExtendAppend<V>(m: map<int, V>, base: int, xs: seq<V>, ys: seq<V>, next: int)
    requires next == base + |xs|
    ensures Extend(m, base, xs + ys) == Extend(Extend(m, base, xs), next, ys)
    decreases |ys|
  {
    if ys == [] {
      assert xs + ys == xs;
    } else {
      var n := |ys| - 1;
      assert (xs + ys)[..|xs + ys| - 1] == xs + ys[..n];
      ExtendAppend(m, base, xs, ys[..n], next);
    }
  }

  /** What Extend stores: the run under base, base + 1, ..., and m's other
      entries untouched. */
  lemma {:induction false} ExtendAt<V>(m: map<int, V>, base: int, vals: seq<V>)
    ensures forall k :: k in Extend(m, base, vals) <==> k in m || base <= k < base + |vals|
    ensures forall k :: base <= k < base + |vals| ==> Extend(m, base, vals)[k] == vals[k - base]
    ensures forall k :: k in m && !(base <= k < base + |vals|) ==> Extend(m, base, vals)[k] == m[k]
    decreases |vals|
  {
    if vals != [] {
      var n := |vals| - 1;
      ExtendAt(m, base, vals[..n]);
      assert forall i :: 0 <= i < n ==> vals[..n][i] == vals[i];
    }
  }

  /** f applied to each element of xs, built from the back. */
  function MapSeq<A, B>(f: A -> B, xs: seq<A>): (r: seq<B>)
    ensures |r| == |xs|
    decreases |xs|
  {
    if xs == [] then [] else MapSeq(f, xs[..|xs| - 1]) + [f(xs[|xs| - 1])]
  }

  lemma {:induction false} MapSeqAt<A, B>(f: A -> B, xs: seq<A>, k: nat)
    requires k < |xs|
    ensures MapSeq(f, xs)[k] == f(xs[k])
    decreases |xs|
  {
    var n := |xs| - 1;
    if k < n {
      assert xs[..n][k] == xs[k];
      MapSeqAt(f, xs[..n], k);
    }
  }

  lemma MapSeqPrefix<A, B>(f: A -> B, xs: seq<A>, q: nat)
    requires q <= |xs|
    ensures MapSeq(f, xs[..q]) == MapSeq(f, xs)[..q]
  {
    var a := MapSeq(f, xs[..q]);
    var b := MapSeq(f, xs)[..q];
    forall k | 0 <= k < q ensures a[k] == b[k] {
      MapSeqAt(f, xs[..q], k);
      MapSeqAt(f, xs, k);
    }
    Pointwise(a, b);
  }

  /** The members of s + [x] are those of s and x. */
  lemma SnocMembers<T>(s: seq<T>, x: T)
    ensures forall y :: y in s + [x] <==> y in s || y == x
  {
  }
}
