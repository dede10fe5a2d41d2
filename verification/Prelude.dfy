/** Sequence and option helpers shared by every component of the model. */
module Prelude {

  datatype Option<+T> = None | Some(value: T)

  predicate Distinct<T(==)>(s: seq<T>) {
    forall i, j | 0 <= i < j < |s| :: s[i] != s[j]
  }

  /** `Array.prototype.find`: the earliest element satisfying `p`. */
  function FirstWhere<T>(s: seq<T>, p: T -> bool): (r: Option<T>)
    ensures r.None? ==> forall x | x in s :: !p(x)
    ensures r.Some? ==> p(r.value) && r.value in s
    ensures r.Some? ==>
              exists i | 0 <= i < |s| :: s[i] == r.value && forall j | 0 <= j < i :: !p(s[j])
  {
    if s == [] then None
    else if p(s[0]) then Some(s[0])
    else
      var rest := FirstWhere(s[1..], p);
      assert rest.Some? ==>
          forall i | 0 <= i < |s| - 1 :: s[1..][i] == s[i + 1];
      rest
  }

  /** `Array.prototype.findLast`: the latest element satisfying `p`. */
  function LastWhere<T>(s: seq<T>, p: T -> bool): (r: Option<T>)
    ensures r.None? ==> forall x | x in s :: !p(x)
    ensures r.Some? ==> p(r.value) && r.value in s
    ensures r.Some? ==>
              exists i | 0 <= i < |s| :: s[i] == r.value && forall j | i < j < |s| :: !p(s[j])
  {
    if s == [] then None
    else if p(s[|s| - 1]) then Some(s[|s| - 1])
    else LastWhere(s[..|s| - 1], p)
  }

  function Map<T, U>(s: seq<T>, f: T -> U): (r: seq<U>)
    ensures |r| == |s|
    ensures forall i | 0 <= i < |s| :: r[i] == f(s[i])
  {
    seq(|s|, i requires 0 <= i < |s| => f(s[i]))
  }

  /** `Array.prototype.filter`: keeps exactly the elements satisfying `p`, in order. */
  function Filter<T>(s: seq<T>, p: T -> bool): (r: seq<T>)
    ensures forall x | x in r :: x in s && p(x)
    ensures forall x | x in s && p(x) :: x in r
  {
    if s == [] then []
    else if p(s[0]) then [s[0]] + Filter(s[1..], p)
    else Filter(s[1..], p)
  }

  lemma {:induction false} FilterAppend<T>(a: seq<T>, b: seq<T>, p: T -> bool)
    ensures Filter(a + b, p) == Filter(a, p) + Filter(b, p)
  {
    if a == [] {
      assert a + b == b;
    } else {
      assert (a + b)[1..] == a[1..] + b;
      FilterAppend(a[1..], b, p);
    }
  }

  lemma CountOne<T>(s: seq<T>, x: T)
    requires Distinct(s) && x in s
    ensures multiset(s)[x] == 1
  {
    var i :| 0 <= i < |s| && s[i] == x;
    assert s == s[..i] + [x] + s[i + 1..];
    assert x !in s[..i] && x !in s[i + 1..];
  }

  /** Distinctness depends on the elements alone, not on their order. */
  lemma DistinctByCount<T>(s: seq<T>)
    ensures Distinct(s) <==> forall x | x in s :: multiset(s)[x] == 1
  {
    if Distinct(s) {
      forall x | x in s ensures multiset(s)[x] == 1 {
        CountOne(s, x);
      }
    } else {
      var i, j :| 0 <= i < j < |s| && s[i] == s[j];
      assert s == s[..i] + [s[i]] + s[i + 1..j] + [s[j]] + s[j + 1..];
      assert multiset(s)[s[i]] >= 2;
    }
  }

  /** A permutation has the same length, the same members, and is distinct if the original is. */
  lemma Permuted<T>(a: seq<T>, b: seq<T>)
    requires multiset(a) == multiset(b)
    ensures |a| == |b|
    ensures forall x | x in a :: x in b
    ensures forall x | x in b :: x in a
    ensures Distinct(a) ==> Distinct(b)
  {
    assert |multiset(a)| == |a| && |multiset(b)| == |b|;
    forall x | x in a ensures x in b {
      assert x in multiset(b);
    }
    forall x | x in b ensures x in a {
      assert x in multiset(a);
    }
    DistinctByCount(a);
    DistinctByCount(b);
  }

  /** Where the first element of `a` sits in a permutation of it; without it the rest still permute. */
  lemma Without<T>(a: seq<T>, b: seq<T>) returns (j: nat)
    requires a != [] && multiset(a) == multiset(b)
    ensures j < |b| && b[j] == a[0] && b == b[..j] + [b[j]] + b[j + 1..]
    ensures multiset(a[1..]) == multiset(b[..j] + b[j + 1..])
  {
    assert a[0] in multiset(b);
    j :| 0 <= j < |b| && b[j] == a[0];
    RemoveAt(a, 0);
    RemoveAt(b, j);
    assert a[..0] + a[1..] == a[1..];
  }

  lemma RemoveAt<T>(s: seq<T>, j: nat)
    requires j < |s|
    ensures s == s[..j] + [s[j]] + s[j + 1..]
    ensures multiset(s[..j] + s[j + 1..]) == multiset(s) - multiset{s[j]}
  {
    assert s == s[..j] + [s[j]] + s[j + 1..];
    assert multiset(s) == multiset(s[..j]) + multiset{s[j]} + multiset(s[j + 1..]);
  }

  /** The state after the steps `ts` from `s`. */
  function Fold<S, T>(f: (S, T) -> S, s: S, ts: seq<T>): S {
    if ts == [] then s else f(Fold(f, s, ts[..|ts| - 1]), ts[|ts| - 1])
  }

  lemma {:induction false} FoldNext<S, T>(f: (S, T) -> S, s: S, ts: seq<T>, t: T)
    ensures Fold(f, s, ts + [t]) == f(Fold(f, s, ts), t)
  {
    assert (ts + [t])[..|ts|] == ts;
  }

  lemma {:induction false} FoldThree<S, T>(f: (S, T) -> S, s: S, ts: seq<T>, x: T, y: T, z: T)
    ensures Fold(f, s, ts + [x, y, z]) == f(f(f(Fold(f, s, ts), x), y), z)
  {
    var one := ts + [x];
    var two := one + [y];
    FoldNext(f, s, ts, x);
    FoldNext(f, s, one, y);
    FoldNext(f, s, two, z);
    assert two + [z] == ts + [x, y, z];
  }

  lemma {:induction false} FoldFour<S, T>(f: (S, T) -> S, s: S, ts: seq<T>, w: T, x: T, y: T, z: T)
    ensures Fold(f, s, ts + [w, x, y, z]) == f(f(f(f(Fold(f, s, ts), w), x), y), z)
  {
    FoldNext(f, s, ts, w);
    FoldThree(f, s, ts + [w], x, y, z);
    assert ts + [w] + [x, y, z] == ts + [w, x, y, z];
  }

  function Min(a: int, b: int): int { if a < b then a else b }

  /** The first `n` elements, or all of them when there are fewer. */
  function Take<T>(s: seq<T>, n: nat): seq<T> {
    s[..Min(n, |s|)]
  }
}
