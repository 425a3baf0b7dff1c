/**
 * Sequence operations that the application performs with the built-in
 * array methods `filter`, `slice(0, n)` and the "move to front, keep the
 * newest n" idiom shared by the recently-viewed list and the recent
 * searches.
 */
module Seqs {

  /** `s.filter(p)`: the elements of `s` that satisfy `p`, in their original order. */
  function Filter<T>(s: seq<T>, p: T -> bool): (r: seq<T>)
    ensures |r| <= |s|
    ensures forall i :: 0 <= i < |r| ==> r[i] in s && p(r[i])
    ensures forall i :: 0 <= i < |s| && p(s[i]) ==> s[i] in r
  {
    if s == [] then []
    else if p(s[0]) then [s[0]] + Filter(s[1..], p)
    else Filter(s[1..], p)
  }

  /** `s.slice(0, n)`: the first `n` elements, or all of them when there are fewer. */
  function Take<T>(s: seq<T>, n: int): (r: seq<T>)
    ensures |r| == if n <= 0 then 0 else if n < |s| then n else |s|
    ensures r == s[..|r|]
  {
    if n <= 0 then [] else if n < |s| then s[..n] else s
  }

  /** The identity, used as the key function of lists keyed by their own elements. */
  function Self<T>(x: T): T { x }

  /** The predicate "the key of an element differs from `k`". */
  function KeyIsNot<T, K(==)>(key: T -> K, k: K): T -> bool
  {
    y => key(y) != k
  }

  /** No two elements of `s` share a key. */
  ghost predicate UniqueBy<T, K>(s: seq<T>, key: T -> K)
  {
    forall i, j :: 0 <= i < j < |s| ==> key(s[i]) != key(s[j])
  }

  /**
   * `[x, ...s.filter(y => key(y) !== key(x))].slice(0, cap)`: put `x` first,
   * drop every older element with the same key and keep the newest `cap`.
   */
  function MoveToFront<T, K(==)>(s: seq<T>, x: T, key: T -> K, cap: nat): seq<T>
  {
    Take([x] + Filter(s, KeyIsNot(key, key(x))), cap)
  }

  /** Filtering distributes over concatenation: filtering keeps relative order. */
  lemma {:induction false} FilterAppend<T>(a: seq<T>, b: seq<T>, p: T -> bool)
    ensures Filter(a + b, p) == Filter(a, p) + Filter(b, p)
  {
    if a == [] {
      assert a + b == b;
    } else {
      assert (a + b)[0] == a[0];
      assert (a + b)[1..] == a[1..] + b;
      FilterAppend(a[1..], b, p);
    }
  }

  /** A filter that every element passes leaves the sequence as it was. */
  lemma {:induction false} FilterKeepsAll<T>(s: seq<T>, p: T -> bool)
    requires forall x :: x in s ==> p(x)
    ensures Filter(s, p) == s
  {
    if s != [] {
      assert s == [s[0]] + s[1..];
      FilterKeepsAll(s[1..], p);
    }
  }

  /** Filtering a sequence with unique keys leaves the keys unique. */
  lemma {:induction false} FilterKeepsUnique<T, K>(s: seq<T>, p: T -> bool, key: T -> K)
    requires UniqueBy(s, key)
    ensures UniqueBy(Filter(s, p), key)
  {
    if s != [] {
      var rest := Filter(s[1..], p);
      assert UniqueBy(s[1..], key) by {
        forall i, j | 0 <= i < j < |s[1..]| ensures key(s[1..][i]) != key(s[1..][j]) {
          assert s[1..][i] == s[i + 1] && s[1..][j] == s[j + 1];
        }
      }
      FilterKeepsUnique(s[1..], p, key);
      if p(s[0]) {
        var r := [s[0]] + rest;
        forall i, j | 0 <= i < j < |r| ensures key(r[i]) != key(r[j]) {
          if i == 0 {
            assert r[j] in s[1..];
            var k :| 0 <= k < |s[1..]| && s[1..][k] == r[j];
            assert s[k + 1] == r[j];
          } else {
            assert r[i] == rest[i - 1] && r[j] == rest[j - 1];
          }
        }
      }
    }
  }

  /** What `MoveToFront` produces: `x` at the head, then the older elements with other keys, in order, capped. */
  lemma MoveToFrontShape<T, K>(s: seq<T>, x: T, key: T -> K, cap: nat)
    requires cap >= 1
    ensures var r := MoveToFront(s, x, key, cap);
      && 1 <= |r| <= cap
      && r[0] == x
      && r[1..] == Take(Filter(s, KeyIsNot(key, key(x))), cap - 1)
      && (forall i :: 1 <= i < |r| ==> key(r[i]) != key(x))
  {
    var f := Filter(s, KeyIsNot(key, key(x)));
    var r := MoveToFront(s, x, key, cap);
    assert r == ([x] + f)[..|r|];
    assert r[1..] == f[..|r| - 1];
    forall i | 1 <= i < |r| ensures key(r[i]) != key(x) {
      assert r[i] == f[i - 1];
      assert f[i - 1] in f;
    }
  }

  /** `MoveToFront` keeps keys unique: `x`'s key occurs once, at the head. */
  lemma MoveToFrontUnique<T, K>(s: seq<T>, x: T, key: T -> K, cap: nat)
    requires UniqueBy(s, key)
    ensures UniqueBy(MoveToFront(s, x, key, cap), key)
  {
    var f := Filter(s, KeyIsNot(key, key(x)));
    FilterKeepsUnique(s, KeyIsNot(key, key(x)), key);
    var r := MoveToFront(s, x, key, cap);
    assert r == ([x] + f)[..|r|];
    forall i, j | 0 <= i < j < |r| ensures key(r[i]) != key(r[j]) {
      assert r[j] == f[j - 1];
      assert f[j - 1] in f;
      if i > 0 {
        assert r[i] == f[i - 1];
      }
    }
  }
}
