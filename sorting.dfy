/** The two uses of Python's sorted() in the reader: the distinct keys of a
    dict in ascending str order, and a stable sort by a numeric key. */
module Sorting {
  import opened PyText
  import opened Dicts

  predicate StrictlySorted(s: seq<string>)
  {
    forall i, j :: 0 <= i < j < |s| ==> StrLt(s[i], s[j])
  }

  lemma {:induction false} StrictlySortedDistinct(s: seq<string>)
    requires StrictlySorted(s)
    ensures Distinct(s)
  {
    forall i, j | 0 <= i < j < |s| ensures s[i] != s[j] {
      StrLtIrreflexive(s[i]);
    }
  }

  /** x put into its place in an ascending list of distinct keys. */
  function InsertKey(x: string, s: seq<string>): (r: seq<string>)
    requires StrictlySorted(s)
    ensures StrictlySorted(r)
    ensures forall y :: y in r <==> y == x || y in s
  {
    if s == [] then [x]
    else if x == s[0] then s
    else if StrLt(x, s[0]) then
      InsertKeyFront(x, s);
      [x] + s
    else
      StrLtTotal(x, s[0]);
      var t := InsertKey(x, s[1..]);
      InsertKeyBehind(x, s, t);
      [s[0]] + t
  }

  lemma InsertKeyFront(x: string, s: seq<string>)
    requires StrictlySorted(s) && s != [] && StrLt(x, s[0])
    ensures StrictlySorted([x] + s)
  {
    forall j | 0 < j < |s| ensures StrLt(x, s[j]) {
      StrLtTransitive(x, s[0], s[j]);
    }
  }

  lemma InsertKeyBehind(x: string, s: seq<string>, t: seq<string>)
    requires StrictlySorted(s) && s != [] && StrLt(s[0], x)
    requires StrictlySorted(t)
    requires forall y :: y in t <==> y == x || y in s[1..]
    ensures StrictlySorted([s[0]] + t)
  {
    forall j | 0 <= j < |t| ensures StrLt(s[0], t[j]) {
      assert t[j] in t;
    }
  }

  /** sorted(d.keys()) for a dict whose keys were inserted in the order of
      `keys`: every key once, in ascending str order. */
  function SortedKeys(keys: seq<string>): (r: seq<string>)
    ensures StrictlySorted(r)
    ensures forall y :: y in r <==> y in keys
  {
    if keys == [] then [] else InsertKey(keys[|keys| - 1], SortedKeys(keys[..|keys| - 1]))
  }

  /** Two ascending lists of distinct keys with the same members are equal, so
      the sorted keys depend only on which keys occur. */
  lemma {:induction false} StrictlySortedUnique(a: seq<string>, b: seq<string>)
    requires StrictlySorted(a) && StrictlySorted(b)
    requires forall y :: y in a <==> y in b
    ensures a == b
  {
    assert a != [] ==> a[0] in b;
    assert b != [] ==> b[0] in a;
    if a != [] && b != [] {
      if a[0] != b[0] {
        var i :| 0 <= i < |b| && b[i] == a[0];
        var j :| 0 <= j < |a| && a[j] == b[0];
        assert StrLt(b[0], a[0]) && StrLt(a[0], b[0]);
        StrLtAsymmetric(a[0], b[0]);
        assert false;
      }
      forall y ensures y in a[1..] <==> y in b[1..] {
        if y in a[1..] {
          var k :| 0 <= k < |a[1..]| && a[1..][k] == y;
          assert StrLt(a[0], a[k + 1]);
          StrLtIrreflexive(y);
          assert y in b;
          var m :| 0 <= m < |b| && b[m] == y;
          assert m != 0;
          assert b[1..][m - 1] == y;
        }
        if y in b[1..] {
          var k :| 0 <= k < |b[1..]| && b[1..][k] == y;
          assert StrLt(b[0], b[k + 1]);
          StrLtIrreflexive(y);
          assert y in a;
          var m :| 0 <= m < |a| && a[m] == y;
          assert m != 0;
          assert a[1..][m - 1] == y;
        }
      }
      StrictlySortedUnique(a[1..], b[1..]);
      assert a == [a[0]] + a[1..] && b == [b[0]] + b[1..];
    }
  }

  /** Python's sort order for key-sorted positions: by key, ties by position
      (sorted() is stable). */
  predicate Before(keys: seq<real>, a: nat, b: nat)
    requires a < |keys| && b < |keys|
  {
    keys[a] < keys[b] || (keys[a] == keys[b] && a < b)
  }

  predicate OrderedBy(keys: seq<real>, s: seq<nat>)
  {
    && (forall i :: 0 <= i < |s| ==> s[i] < |keys|)
    && (forall i, j :: 0 <= i < j < |s| ==> Before(keys, s[i], s[j]))
  }

  /** Position x, behind every position with a key not above its own. */
  function InsertPos(keys: seq<real>, s: seq<nat>, x: nat): (r: seq<nat>)
    requires x < |keys| && OrderedBy(keys, s)
    requires forall i :: 0 <= i < |s| ==> s[i] < x
    ensures |r| == |s| + 1 && OrderedBy(keys, r)
    ensures forall y :: y in r <==> y in s || y == x
    ensures Distinct(s) ==> Distinct(r)
  {
    if s == [] then [x]
    else if keys[x] < keys[s[0]] then
      [x] + s
    else
      var t := InsertPos(keys, s[1..], x);
      InsertPosBehind(keys, s, x, t);
      assert s == [s[0]] + s[1..];
      [s[0]] + t
  }

  lemma InsertPosBehind(keys: seq<real>, s: seq<nat>, x: nat, t: seq<nat>)
    requires x < |keys| && OrderedBy(keys, s) && s != []
    requires forall i :: 0 <= i < |s| ==> s[i] < x
    requires keys[s[0]] <= keys[x]
    requires OrderedBy(keys, t) && forall y :: y in t <==> y in s[1..] || y == x
    ensures OrderedBy(keys, [s[0]] + t)
  {
    forall j | 0 <= j < |t| ensures Before(keys, s[0], t[j]) {
      assert t[j] in t;
      if t[j] != x {
        var k :| 0 <= k < |s[1..]| && s[1..][k] == t[j];
        assert Before(keys, s[0], s[k + 1]);
      }
    }
  }

  /** Inserting adds x to the elements, once. */
  lemma {:induction false} InsertPosPermutes(keys: seq<real>, s: seq<nat>, x: nat)
    requires x < |keys| && OrderedBy(keys, s)
    requires forall i :: 0 <= i < |s| ==> s[i] < x
    ensures multiset(InsertPos(keys, s, x)) == multiset(s) + multiset{x}
    decreases |s|
  {
    if s != [] && keys[s[0]] <= keys[x] {
      InsertPosPermutes(keys, s[1..], x);
      assert s == [s[0]] + s[1..];
    }
  }

  function Range(n: nat): seq<nat>
  {
    if n == 0 then [] else Range(n - 1) + [n - 1]
  }

  /** The positions 0..n-1 in the order sorted(..., key = keys) visits them:
      non-decreasing in key, with equal keys in their original order, and
      each position exactly once. */
  function StableOrder(keys: seq<real>, n: nat): (r: seq<nat>)
    requires n <= |keys|
    ensures |r| == n && OrderedBy(keys, r)
    ensures forall i :: 0 <= i < |r| ==> r[i] < n
    ensures Distinct(r) && forall i: nat :: i in r <==> i < n
  {
    if n == 0 then []
    else
      var s := StableOrder(keys, n - 1);
      var r := InsertPos(keys, s, n - 1);
      assert forall i :: 0 <= i < |r| ==> r[i] in r;
      r
  }

  /** sorted() returns a permutation of the positions. */
  lemma {:induction false} StableOrderPermutes(keys: seq<real>, n: nat)
    requires n <= |keys|
    ensures multiset(StableOrder(keys, n)) == multiset(Range(n))
  {
    if n > 0 {
      StableOrderPermutes(keys, n - 1);
      InsertPosPermutes(keys, StableOrder(keys, n - 1), n - 1);
    }
  }
}
