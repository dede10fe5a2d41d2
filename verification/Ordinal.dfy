/** Strings as UTF-16 code units, their ordinal order, and stable sorting by that order. */
module Ordinal {
  import opened Prelude

  type CodeUnit = x: int | 0 <= x < 0x10000

  type Text = seq<CodeUnit>

  /** The lexicographic order of code units, a proper prefix coming first. */
  predicate Less(a: Text, b: Text) {
    && b != []
    && (a == [] || a[0] < b[0] || (a[0] == b[0] && Less(a[1..], b[1..])))
  }

  /** Compares code unit by code unit up to the shorter length, then by length. */
  method CompareOrdinal(left: Text, right: Text) returns (r: int)
    ensures r < 0 <==> Less(left, right)
    ensures r > 0 <==> Less(right, left)
    ensures r == 0 <==> left == right
  {
    var shared := Min(|left|, |right|);
    for i := 0 to shared
      invariant left[..i] == right[..i]
      invariant Less(left, right) == Less(left[i..], right[i..])
      invariant Less(right, left) == Less(right[i..], left[i..])
    {
      var difference := left[i] as int - right[i] as int;
      if difference != 0 {
        assert left[i..][0] == left[i] && right[i..][0] == right[i];
        return difference;
      }
      assert left[i..][1..] == left[i + 1..] && right[i..][1..] == right[i + 1..];
    }
    return |left| - |right|;
  }

  lemma {:induction false} LessTotal(a: Text, b: Text)
    ensures a == b || Less(a, b) || Less(b, a)
    ensures !(Less(a, b) && Less(b, a)) && !Less(a, a)
  {
    if a != [] {
      LessTotal(a[1..], a[1..]);
      if b != [] {
        LessTotal(a[1..], b[1..]);
        assert a == [a[0]] + a[1..] && b == [b[0]] + b[1..];
      }
    }
  }

  lemma {:induction false} LessTransitive(a: Text, b: Text, c: Text)
    requires Less(a, b) && Less(b, c)
    ensures Less(a, c)
  {
    if a != [] && a[0] == b[0] == c[0] {
      LessTransitive(a[1..], b[1..], c[1..]);
    }
  }

  // ---------------------------------------------------------------------------
  // Sorting
  // ---------------------------------------------------------------------------

  function InsertBy<T>(x: T, s: seq<T>, key: T -> Text): (r: seq<T>)
    ensures multiset(r) == multiset(s) + multiset{x}
  {
    if s == [] || !Less(key(s[0]), key(x)) then [x] + s
    else
      assert s == [s[0]] + s[1..];
      [s[0]] + InsertBy(x, s[1..], key)
  }

  /** A stable sort of `s` by the ordinal order of its keys. */
  function SortBy<T>(s: seq<T>, key: T -> Text): (r: seq<T>)
    ensures multiset(r) == multiset(s)
  {
    if s == [] then []
    else
      assert s == [s[0]] + s[1..];
      InsertBy(s[0], SortBy(s[1..], key), key)
  }

  predicate SortedBy<T>(s: seq<T>, key: T -> Text) {
    forall i, j | 0 <= i < j < |s| :: !Less(key(s[j]), key(s[i]))
  }

  predicate StrictlyBy<T>(s: seq<T>, key: T -> Text) {
    forall i, j | 0 <= i < j < |s| :: Less(key(s[i]), key(s[j]))
  }

  predicate DistinctBy<T>(s: seq<T>, key: T -> Text) {
    forall i, j | 0 <= i < j < |s| :: key(s[i]) != key(s[j])
  }

  function Itself(x: Text): Text { x }

  /** Each text comes before the next. */
  predicate SortedUnique(values: seq<Text>) {
    forall i | 0 < i < |values| :: Less(values[i - 1], values[i])
  }

  lemma SortedUniqueIsStrict(values: seq<Text>)
    ensures SortedUnique(values) <==> StrictlyBy(values, Itself)
  {
    if SortedUnique(values) {
      forall i, j | 0 <= i < j < |values| ensures Less(values[i], values[j]) {
        Climb(values, i, j);
      }
    }
    if StrictlyBy(values, Itself) {
      forall i | 0 < i < |values| ensures Less(values[i - 1], values[i]) {
        assert Less(Itself(values[i - 1]), Itself(values[i]));
      }
    }
  }

  lemma {:induction false} Climb(values: seq<Text>, i: nat, j: nat)
    requires SortedUnique(values) && i < j < |values|
    ensures Less(values[i], values[j])
    decreases j
  {
    if i + 1 < j {
      Climb(values, i, j - 1);
      LessTransitive(values[i], values[j - 1], values[j]);
    }
  }

  lemma {:induction false} InsertSorted<T>(x: T, s: seq<T>, key: T -> Text)
    requires SortedBy(s, key)
    ensures SortedBy(InsertBy(x, s, key), key)
  {
    var r := InsertBy(x, s, key);
    if s == [] {
    } else if !Less(key(s[0]), key(x)) {
      forall i, j | 0 <= i < j < |r| ensures !Less(key(r[j]), key(r[i])) {
        if i == 0 && j > 1 && Less(key(r[j]), key(x)) {
          NotLessTransitive(key(x), key(s[0]), key(s[j - 1]));
        }
      }
    } else {
      InsertSorted(x, s[1..], key);
      var rest := InsertBy(x, s[1..], key);
      forall y | y in rest ensures !Less(key(y), key(s[0])) {
        assert y in multiset(rest);
        LessTotal(key(x), key(s[0]));
        if y != x {
          assert y in multiset(s[1..]);
          var k :| 0 <= k < |s[1..]| && s[1..][k] == y;
          assert y == s[k + 1];
        }
      }
      forall i, j | 0 <= i < j < |r| ensures !Less(key(r[j]), key(r[i])) {
        if i == 0 {
          assert rest[j - 1] in rest;
        } else {
          assert r[i] == rest[i - 1] && r[j] == rest[j - 1];
        }
      }
    }
  }

  lemma NotLessTransitive(a: Text, b: Text, c: Text)
    requires !Less(b, a) && !Less(c, b)
    ensures !Less(c, a)
  {
    LessTotal(a, b);
    LessTotal(b, c);
    LessTotal(a, c);
    if Less(c, a) {
      if a != b { LessTransitive(c, a, b); }
    }
  }

  lemma {:induction false} SortBySorted<T>(s: seq<T>, key: T -> Text)
    ensures SortedBy(SortBy(s, key), key)
  {
    if s != [] {
      SortBySorted(s[1..], key);
      InsertSorted(s[0], SortBy(s[1..], key), key);
    }
  }

  lemma SortedDistinctIsStrict<T>(s: seq<T>, key: T -> Text)
    requires SortedBy(s, key)
    ensures StrictlyBy(s, key) <==> DistinctBy(s, key)
  {
    forall i, j | 0 <= i < j < |s|
      ensures Less(key(s[i]), key(s[j])) <==> key(s[i]) != key(s[j])
    {
      LessTotal(key(s[i]), key(s[j]));
    }
    if DistinctBy(s, key) {
      forall i, j | 0 <= i < j < |s| ensures Less(key(s[i]), key(s[j])) {
        assert key(s[i]) != key(s[j]);
      }
    }
  }

  /** A strictly increasing listing of given members is unique. */
  lemma {:induction false} StrictUnique<T>(a: seq<T>, b: seq<T>, key: T -> Text)
    requires StrictlyBy(a, key) && StrictlyBy(b, key)
    requires forall x | x in a :: x in b
    requires forall x | x in b :: x in a
    ensures a == b
    decreases |a|
  {
    NoMembers(a, b);
    NoMembers(b, a);
    if a != [] && b != [] {
      FirstIsLeast(a, key);
      FirstIsLeast(b, key);
      assert a[0] in a && b[0] in b;
      LessTotal(key(a[0]), key(b[0]));
      assert a[0] == b[0];
      TailMembers(a, b, key);
      TailMembers(b, a, key);
      StrictUnique(a[1..], b[1..], key);
      assert a == [a[0]] + a[1..] && b == [b[0]] + b[1..];
    }
  }

  lemma NoMembers<T>(a: seq<T>, b: seq<T>)
    requires forall x | x in a :: x in b
    ensures b == [] ==> a == []
  {
    if a != [] {
      assert a[0] in b;
    }
  }

  lemma FirstIsLeast<T>(a: seq<T>, key: T -> Text)
    requires StrictlyBy(a, key) && a != []
    ensures forall x | x in a :: x == a[0] || Less(key(a[0]), key(x))
    ensures StrictlyBy(a[1..], key) && a[0] !in a[1..]
  {
    LessTotal(key(a[0]), key(a[0]));
  }

  lemma TailMembers<T>(a: seq<T>, b: seq<T>, key: T -> Text)
    requires StrictlyBy(a, key) && a != [] && b != [] && a[0] == b[0]
    requires forall x | x in a :: x in b
    ensures forall x | x in a[1..] :: x in b[1..]
  {
    FirstIsLeast(a, key);
    forall x | x in a[1..] ensures x in b[1..] {
      assert x in a && x in b && x != b[0];
      assert b == [b[0]] + b[1..];
    }
  }

  lemma {:induction false} DistinctByOrderFree<T>(a: seq<T>, b: seq<T>, key: T -> Text)
    requires multiset(a) == multiset(b) && DistinctBy(a, key)
    ensures DistinctBy(b, key)
  {
    Permuted(a, b);
    forall i, j | 0 <= i < j < |a| ensures a[i] != a[j] {
      assert key(a[i]) != key(a[j]);
    }
    assert Distinct(a) && Distinct(b);
    forall i, j | 0 <= i < j < |b| ensures key(b[i]) != key(b[j]) {
      assert b[i] != b[j] && b[i] in a && b[j] in a;
      var k :| 0 <= k < |a| && a[k] == b[i];
      var l :| 0 <= l < |a| && a[l] == b[j];
      assert key(a[k]) != key(a[l]);
    }
  }

  /** Sorting forgets the original order: permutations sort alike, unless two keys collide. */
  lemma SortForgetsOrder<T>(a: seq<T>, b: seq<T>, key: T -> Text)
    requires multiset(a) == multiset(b) && DistinctBy(a, key)
    ensures SortBy(a, key) == SortBy(b, key)
  {
    SortBySorted(a, key);
    SortBySorted(b, key);
    DistinctByOrderFree(a, SortBy(a, key), key);
    DistinctByOrderFree(a, SortBy(b, key), key);
    SortedDistinctIsStrict(SortBy(a, key), key);
    SortedDistinctIsStrict(SortBy(b, key), key);
    Permuted(SortBy(a, key), SortBy(b, key));
    StrictUnique(SortBy(a, key), SortBy(b, key), key);
  }

  /** Sorting leaves a strictly increasing list alone. */
  lemma {:induction false} SortKeepsStrict<T>(s: seq<T>, key: T -> Text)
    requires StrictlyBy(s, key)
    ensures SortBy(s, key) == s
  {
    if s != [] {
      FirstIsLeast(s, key);
      SortKeepsStrict(s[1..], key);
      if |s| > 1 {
        assert s[1..][0] == s[1] && Less(key(s[0]), key(s[1]));
        LessTotal(key(s[0]), key(s[1]));
      }
      assert s == [s[0]] + s[1..];
    }
  }
}
