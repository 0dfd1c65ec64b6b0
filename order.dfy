/** The ordering Rust's `Ord for String` uses, and the two sorts the report needs:
    `sort()` on a vector of distinct strings, and the stable `sort_by_key` over a
    string key. Rust compares strings byte by byte over their UTF-8 encoding;
    UTF-8 preserves the order of code points, so comparing character by character
    ranks strings the same way. */
module Order {

  /** `a < b` on strings: lexicographic, a proper prefix before its extensions. */
  predicate Less(a: string, b: string)
  {
    |b| > 0 && (|a| == 0 || a[0] < b[0] || (a[0] == b[0] && Less(a[1..], b[1..])))
  }

  lemma {:induction false} LessIrreflexive(a: string)
    ensures !Less(a, a)
  {
    if |a| > 0 {
      LessIrreflexive(a[1..]);
    }
  }

  lemma {:induction false} LessAsymmetric(a: string, b: string)
    requires Less(a, b)
    ensures !Less(b, a)
  {
    if |a| > 0 && a[0] == b[0] {
      LessAsymmetric(a[1..], b[1..]);
    }
  }

  lemma {:induction false} LessTransitive(a: string, b: string, c: string)
    requires Less(a, b) && Less(b, c)
    ensures Less(a, c)
  {
    if |a| > 0 && a[0] == b[0] && b[0] == c[0] {
      LessTransitive(a[1..], b[1..], c[1..]);
    }
  }

  lemma {:induction false} LessTotal(a: string, b: string)
    requires a != b
    ensures Less(a, b) || Less(b, a)
  {
    if |a| > 0 && |b| > 0 && a[0] == b[0] {
      assert a == [a[0]] + a[1..] && b == [b[0]] + b[1..];
      LessTotal(a[1..], b[1..]);
    }
  }

  /** Two strings that agree before position `k` and differ first at `k`. */
  lemma {:induction false} LessAt(a: string, b: string, k: nat)
    requires k < |a| && k < |b| && a[..k] == b[..k] && a[k] < b[k]
    ensures Less(a, b)
  {
    if k > 0 {
      assert a[0] == a[..k][0] && b[0] == b[..k][0];
      assert a[1..][..k - 1] == a[..k][1..] && b[1..][..k - 1] == b[..k][1..];
      LessAt(a[1..], b[1..], k - 1);
    }
  }

  /** `!(b < a)` is transitive, which is what a sort that keeps equal keys in place needs. */
  lemma NotLessTransitive(a: string, b: string, c: string)
    requires !Less(b, a) && !Less(c, b)
    ensures !Less(c, a)
  {
    if a != b {
      LessTotal(a, b);
    }
    if b != c {
      LessTotal(b, c);
    }
    if a != b && b != c {
      LessTransitive(a, b, c);
      LessAsymmetric(a, c);
    } else if a != b {
      LessAsymmetric(a, b);
    } else if b != c {
      LessAsymmetric(b, c);
    } else {
      LessIrreflexive(a);
    }
  }

  /** Ascending without repetitions. */
  predicate StrictlySorted(s: seq<string>)
  {
    forall i, j :: 0 <= i < j < |s| ==> Less(s[i], s[j])
  }

  /** Adds `x` to a strictly sorted sequence at its place, unless it is there already. */
  function InsertUnique(s: seq<string>, x: string): (r: seq<string>)
    requires StrictlySorted(s)
    ensures StrictlySorted(r)
    ensures forall y :: y in r <==> y in s || y == x
  {
    if |s| == 0 then [x]
    else if x == s[0] then s
    else if Less(x, s[0]) then
      assert forall j :: 0 <= j < |s| ==> Less(x, s[j]) by {
        forall j | 0 <= j < |s| ensures Less(x, s[j]) {
          if j > 0 { LessTransitive(x, s[0], s[j]); }
        }
      }
      [x] + s
    else
      LessTotal(x, s[0]);
      assert forall y :: y in s[1..] ==> Less(s[0], y);
      [s[0]] + InsertUnique(s[1..], x)
  }

  /** The distinct elements of `xs` in ascending order. */
  function SortUnique(xs: seq<string>): (r: seq<string>)
    ensures StrictlySorted(r)
    ensures forall y :: y in r <==> y in xs
  {
    if |xs| == 0 then []
    else
      assert xs == xs[..|xs| - 1] + [xs[|xs| - 1]];
      InsertUnique(SortUnique(xs[..|xs| - 1]), xs[|xs| - 1])
  }

  /** A strictly sorted sequence is determined by its elements. */
  lemma {:induction false} StrictlySortedUnique(a: seq<string>, b: seq<string>)
    requires StrictlySorted(a) && StrictlySorted(b)
    requires forall y :: y in a <==> y in b
    ensures a == b
  {
    if |a| > 0 { assert a[0] in a; }
    if |b| > 0 { assert b[0] in b; }
    if |a| > 0 {
      assert |b| > 0;
      if a[0] != b[0] {
        var k :| 0 <= k < |b| && b[k] == a[0];
        var m :| 0 <= m < |a| && a[m] == b[0];
        assert k > 0 && m > 0;
        LessAsymmetric(b[0], a[0]);
        assert false;
      }
      forall y ensures y in a[1..] <==> y in b[1..] {
        if y in a[1..] {
          var i :| 1 <= i < |a| && a[i] == y;
          LessIrreflexive(y);
          assert y != b[0];
          assert y in a && y in b;
          var k :| 0 <= k < |b| && b[k] == y;
          assert y == b[1..][k - 1];
        }
        if y in b[1..] {
          var i :| 1 <= i < |b| && b[i] == y;
          LessIrreflexive(y);
          assert y != a[0];
          assert y in b && y in a;
          var k :| 0 <= k < |a| && a[k] == y;
          assert y == a[1..][k - 1];
        }
      }
      StrictlySortedUnique(a[1..], b[1..]);
      assert a == [a[0]] + a[1..] && b == [b[0]] + b[1..];
    }
  }

  /** Non-decreasing by `key`. */
  predicate SortedBy<T>(s: seq<T>, key: T -> string)
  {
    forall i, j :: 0 <= i < j < |s| ==> !Less(key(s[j]), key(s[i]))
  }

  /** Puts `x` after the last element whose key is not greater than its own. */
  function InsertBy<T>(s: seq<T>, x: T, key: T -> string): (r: seq<T>)
    ensures multiset(r) == multiset(s) + multiset{x}
  {
    if |s| == 0 then [x]
    else if Less(key(x), key(s[|s| - 1])) then
      assert s == s[..|s| - 1] + [s[|s| - 1]];
      InsertBy(s[..|s| - 1], x, key) + [s[|s| - 1]]
    else s + [x]
  }

  lemma {:induction false} InsertBySorted<T>(s: seq<T>, x: T, key: T -> string)
    requires SortedBy(s, key)
    ensures SortedBy(InsertBy(s, x, key), key)
  {
    if |s| > 0 {
      var init, last := s[..|s| - 1], s[|s| - 1];
      if Less(key(x), key(last)) {
        var r' := InsertBy(init, x, key);
        InsertBySorted(init, x, key);
        forall y | y in r' ensures !Less(key(last), key(y)) {
          assert y in multiset(r');
          if y == x {
            LessAsymmetric(key(x), key(last));
          } else {
            assert y in init;
          }
        }
        var r := r' + [last];
        forall i, j | 0 <= i < j < |r| ensures !Less(key(r[j]), key(r[i])) {
          if j < |r'| {
            assert r[i] == r'[i] && r[j] == r'[j];
          } else {
            assert r[i] == r'[i] && r[i] in r';
          }
        }
      } else {
        var r := s + [x];
        forall i, j | 0 <= i < j < |r| ensures !Less(key(r[j]), key(r[i])) {
          if j < |s| {
            assert r[i] == s[i] && r[j] == s[j];
          } else if i < |s| - 1 {
            NotLessTransitive(key(s[i]), key(last), key(x));
          }
        }
      }
    }
  }

  /** `sort_by_key(key)`: a stable sort (see SortByStable). */
  function SortBy<T>(xs: seq<T>, key: T -> string): (r: seq<T>)
    ensures SortedBy(r, key)
    ensures multiset(r) == multiset(xs)
  {
    if |xs| == 0 then []
    else
      assert xs == xs[..|xs| - 1] + [xs[|xs| - 1]];
      var init := SortBy(xs[..|xs| - 1], key);
      InsertBySorted(init, xs[|xs| - 1], key);
      InsertBy(init, xs[|xs| - 1], key)
  }

  /** Sorting keeps the length and the elements. */
  lemma SortByElements<T>(xs: seq<T>, key: T -> string)
    ensures |SortBy(xs, key)| == |xs|
    ensures forall x :: x in SortBy(xs, key) <==> x in xs
  {
    var r := SortBy(xs, key);
    assert |multiset(r)| == |multiset(xs)|;
    forall x ensures x in r <==> x in xs {
      assert x in r <==> x in multiset(r);
      assert x in xs <==> x in multiset(xs);
    }
  }

  /** The elements of `s` whose key is `k`, in the order of `s`. */
  function WithKey<T>(s: seq<T>, key: T -> string, k: string): seq<T>
  {
    if |s| == 0 then []
    else WithKey(s[..|s| - 1], key, k) + (if key(s[|s| - 1]) == k then [s[|s| - 1]] else [])
  }

  lemma {:induction false} WithKeyAppend<T>(a: seq<T>, b: seq<T>, key: T -> string, k: string)
    ensures WithKey(a + b, key, k) == WithKey(a, key, k) + WithKey(b, key, k)
  {
    if |b| == 0 {
      assert a + b == a;
    } else {
      assert (a + b)[..|a + b| - 1] == a + b[..|b| - 1];
      WithKeyAppend(a, b[..|b| - 1], key, k);
    }
  }

  lemma WithKeySingle<T>(x: T, key: T -> string, k: string)
    ensures WithKey([x], key, k) == if key(x) == k then [x] else []
  {
    var tail: seq<T> := if key(x) == k then [x] else [];
    assert [x][..0] == [] && [x][0] == x;
    assert WithKey([x], key, k) == WithKey([], key, k) + tail;
    assert [] + tail == tail;
  }

  /** Inserting `x` adds it after the elements with its key that were there already. */
  lemma {:induction false} InsertByWithKey<T>(s: seq<T>, x: T, key: T -> string, k: string)
    ensures WithKey(InsertBy(s, x, key), key, k) == WithKey(s, key, k) + WithKey([x], key, k)
  {
    assert [x][..0] == [];
    if |s| > 0 {
      var init, last := s[..|s| - 1], s[|s| - 1];
      var wx, wl := WithKey([x], key, k), WithKey([last], key, k);
      assert [last][..0] == [];
      if Less(key(x), key(last)) {
        var r := InsertBy(init, x, key);
        assert wx + wl == wl + wx by {
          WithKeySingle(x, key, k);
          WithKeySingle(last, key, k);
          LessIrreflexive(key(x));
        }
        calc {
          WithKey(InsertBy(s, x, key), key, k);
          WithKey(r + [last], key, k);
          { WithKeyAppend(r, [last], key, k); }
          WithKey(r, key, k) + wl;
          { InsertByWithKey(init, x, key, k); }
          (WithKey(init, key, k) + wx) + wl;
          WithKey(init, key, k) + (wx + wl);
          WithKey(init, key, k) + (wl + wx);
          (WithKey(init, key, k) + wl) + wx;
          { WithKeyAppend(init, [last], key, k); assert init + [last] == s; }
          WithKey(s, key, k) + wx;
        }
      } else {
        WithKeyAppend(s, [x], key, k);
      }
    }
  }

  /** Stability: among equal keys the sort keeps the input order. Together with
      SortedBy and the multiset in SortBy's contract this pins the result down. */
  lemma {:induction false} SortByStable<T>(xs: seq<T>, key: T -> string, k: string)
    ensures WithKey(SortBy(xs, key), key, k) == WithKey(xs, key, k)
  {
    if |xs| > 0 {
      var init, last := xs[..|xs| - 1], xs[|xs| - 1];
      SortByStable(init, key, k);
      InsertByWithKey(SortBy(init, key), last, key, k);
      assert [last][..0] == [];
    }
  }
}
