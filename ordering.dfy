/**
 * Python's ordering of strings and the stable descending sort the application
 * applies to campaigns (`list.sort(key=..., reverse=True)`) and to log records
 * (`sorted(..., key=..., reverse=True)`).
 */
module Ordering {

  /** `a <= b` on Python strings: lexicographic by code point, a proper prefix first. */
  predicate LexLe(a: string, b: string) {
    a == [] || (b != [] && (a[0] < b[0] || (a[0] == b[0] && LexLe(a[1..], b[1..]))))
  }

  lemma {:induction false} LexLeReflexive(a: string)
    ensures LexLe(a, a)
  {
    if a != [] {
      LexLeReflexive(a[1..]);
    }
  }

  lemma {:induction false} LexLeTotal(a: string, b: string)
    ensures LexLe(a, b) || LexLe(b, a)
  {
    if a != [] && b != [] && a[0] == b[0] {
      LexLeTotal(a[1..], b[1..]);
    }
  }

  lemma {:induction false} LexLeTransitive(a: string, b: string, c: string)
    requires LexLe(a, b) && LexLe(b, c)
    ensures LexLe(a, c)
  {
    if a != [] && a[0] == b[0] && b[0] == c[0] {
      LexLeTransitive(a[1..], b[1..], c[1..]);
    }
  }

  lemma {:induction false} LexLeAntisymmetric(a: string, b: string)
    requires LexLe(a, b) && LexLe(b, a)
    ensures a == b
  {
    if a != [] {
      LexLeAntisymmetric(a[1..], b[1..]);
    }
  }

  /** Every element's key is at least the key of every element after it. */
  ghost predicate SortedDesc<T>(s: seq<T>, key: T -> string) {
    forall i, j :: 0 <= i < j < |s| ==> LexLe(key(s[j]), key(s[i]))
  }

  /** The elements of `s` whose key is `k`, in their order in `s`. */
  function WithKey<T>(s: seq<T>, key: T -> string, k: string): seq<T> {
    if s == [] then []
    else (if key(s[0]) == k then [s[0]] else []) + WithKey(s[1..], key, k)
  }

  /** Places `x` before the first element whose key is not above its own. */
  function Insert<T>(x: T, s: seq<T>, key: T -> string): seq<T> {
    if s == [] then [x]
    else if LexLe(key(s[0]), key(x)) then [x] + s
    else [s[0]] + Insert(x, s[1..], key)
  }

  /** `sorted(xs, key=key, reverse=True)`: Python's sort is stable also when reversed,
      so elements with equal keys keep their order. */
  function SortDesc<T>(xs: seq<T>, key: T -> string): seq<T> {
    if xs == [] then [] else Insert(xs[0], SortDesc(xs[1..], key), key)
  }

  lemma {:induction false} InsertPermutation<T>(x: T, s: seq<T>, key: T -> string)
    ensures multiset(Insert(x, s, key)) == multiset(s) + multiset{x}
  {
    if s != [] && !LexLe(key(s[0]), key(x)) {
      InsertPermutation(x, s[1..], key);
      assert s == [s[0]] + s[1..];
    }
  }

  lemma {:induction false} InsertSorted<T>(x: T, s: seq<T>, key: T -> string)
    requires SortedDesc(s, key)
    ensures SortedDesc(Insert(x, s, key), key)
  {
    if s == [] {
    } else if LexLe(key(s[0]), key(x)) {
      var r := Insert(x, s, key);
      forall i, j | 0 <= i < j < |r| ensures LexLe(key(r[j]), key(r[i])) {
        if i == 0 && j > 1 {
          LexLeTransitive(key(s[j - 1]), key(s[0]), key(x));
        }
      }
    } else {
      var rest := Insert(x, s[1..], key);
      InsertSorted(x, s[1..], key);
      InsertPermutation(x, s[1..], key);
      LexLeTotal(key(s[0]), key(x));
      forall j | 0 <= j < |rest| ensures LexLe(key(rest[j]), key(s[0])) {
        assert rest[j] in multiset(rest);
        if rest[j] != x {
          assert rest[j] in multiset(s[1..]);
          var m :| 0 <= m < |s[1..]| && s[1..][m] == rest[j];
          assert s[m + 1] == rest[j];
        }
      }
      var r := [s[0]] + rest;
      forall i, j | 0 <= i < j < |r| ensures LexLe(key(r[j]), key(r[i])) {
        if i > 0 {
          assert r[i] == rest[i - 1] && r[j] == rest[j - 1];
        } else {
          assert r[j] == rest[j - 1];
        }
      }
    }
  }

  /** Filtering by key, one element at a time. */
  lemma WithKeyCons<T>(y: T, t: seq<T>, key: T -> string, k: string)
    ensures WithKey([y] + t, key, k) == (if key(y) == k then [y] else []) + WithKey(t, key, k)
  {
    assert ([y] + t)[1..] == t;
  }

  lemma {:induction false} InsertWithKey<T>(x: T, s: seq<T>, key: T -> string, k: string)
    ensures WithKey(Insert(x, s, key), key, k) == (if key(x) == k then [x] else []) + WithKey(s, key, k)
  {
    if s == [] {
      WithKeyCons(x, s, key, k);
    } else if LexLe(key(s[0]), key(x)) {
      WithKeyCons(x, s, key, k);
    } else {
      var rest := Insert(x, s[1..], key);
      assert Insert(x, s, key) == [s[0]] + rest;
      assert s == [s[0]] + s[1..];
      InsertWithKey(x, s[1..], key, k);
      WithKeyCons(s[0], rest, key, k);
      WithKeyCons(s[0], s[1..], key, k);
      if key(x) == k {
        LexLeReflexive(key(x));
        assert key(s[0]) != k;
      }
    }
  }

  /** The sort only reorders. */
  lemma {:induction false} SortDescPermutation<T>(xs: seq<T>, key: T -> string)
    ensures multiset(SortDesc(xs, key)) == multiset(xs)
  {
    if xs != [] {
      SortDescPermutation(xs[1..], key);
      InsertPermutation(xs[0], SortDesc(xs[1..], key), key);
      assert xs == [xs[0]] + xs[1..];
    }
  }

  /** The sort puts the greatest key first. */
  lemma {:induction false} SortDescSorted<T>(xs: seq<T>, key: T -> string)
    ensures SortedDesc(SortDesc(xs, key), key)
  {
    if xs != [] {
      SortDescSorted(xs[1..], key);
      InsertSorted(xs[0], SortDesc(xs[1..], key), key);
    }
  }

  /** The sort is stable: for every key, the elements carrying it keep their input order. */
  lemma {:induction false} SortDescStable<T>(xs: seq<T>, key: T -> string, k: string)
    ensures WithKey(SortDesc(xs, key), key, k) == WithKey(xs, key, k)
  {
    if xs != [] {
      SortDescStable(xs[1..], key, k);
      InsertWithKey(xs[0], SortDesc(xs[1..], key), key, k);
    }
  }
}
