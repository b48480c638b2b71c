/** The key order of ordered maps: enumerating a finite set of keys in ascending order. */
module Ordering {

  ghost predicate StrictTotal<K(!new)>(less: (K, K) -> bool) {
    && (forall a :: !less(a, a))
    && (forall a, b, c :: less(a, b) && less(b, c) ==> less(a, c))
    && (forall a, b :: a != b ==> less(a, b) || less(b, a))
  }

  ghost predicate IsLeast<K(!new)>(m: K, keys: set<K>, less: (K, K) -> bool) {
    m in keys && forall k :: k in keys && k != m ==> less(m, k)
  }

  lemma {:induction false} LeastExists<K(!new)>(keys: set<K>, less: (K, K) -> bool)
    requires StrictTotal(less) && keys != {}
    ensures exists m :: IsLeast(m, keys, less)
  {
    var x :| x in keys;
    if keys == {x} {
      assert IsLeast(x, keys, less);
    } else {
      var rest := keys - {x};
      assert rest != {} by {
        assert exists y :: y in keys && y != x;
      }
      LeastExists(rest, less);
      var m :| IsLeast(m, rest, less);
      if less(x, m) {
        forall k | k in keys && k != x
          ensures less(x, k)
        {
          assert k in rest && (k == m || less(m, k));
        }
        assert IsLeast(x, keys, less);
      } else {
        assert IsLeast(m, keys, less);
      }
    }
  }

  /** The keys in ascending order. */
  function Sorted<K(!new,==)>(keys: set<K>, less: (K, K) -> bool): (r: seq<K>)
    requires StrictTotal(less)
    ensures Ascending(r, less)
    ensures forall k :: k in r <==> k in keys
  {
    if keys == {} then []
    else
      LeastExists(keys, less);
      var m :| m in keys && forall k :: k in keys && k != m ==> less(m, k);
      [m] + Sorted(keys - {m}, less)
  }

  ghost predicate Ascending<K>(s: seq<K>, less: (K, K) -> bool) {
    forall i, j :: 0 <= i < j < |s| ==> less(s[i], s[j])
  }

  /** Ascending enumerations of the same keys are equal. */
  lemma {:induction false} AscendingIsUnique<K(!new)>(s: seq<K>, t: seq<K>, less: (K, K) -> bool)
    requires StrictTotal(less)
    requires Ascending(s, less) && Ascending(t, less)
    requires forall k :: k in s <==> k in t
    ensures s == t
  {
    assert |t| > 0 ==> t[0] in t;
    if s != [] {
      assert s[0] in s && s[0] in t;
      assert t[0] in t && t[0] in s;
      assert s[0] == t[0];
      forall k
        ensures k in s[1..] <==> k in t[1..]
      {
        assert s == [s[0]] + s[1..] && t == [t[0]] + t[1..];
        if k in s[1..] {
          var i :| 1 <= i < |s| && s[i] == k;
          assert less(s[0], k) && k != s[0];
          assert k in s;
        }
        if k in t[1..] {
          var i :| 1 <= i < |t| && t[i] == k;
          assert less(t[0], k) && k != t[0];
          assert k in t;
        }
      }
      AscendingIsUnique(s[1..], t[1..], less);
    }
  }

  // Strings and keys compare lexicographically

  predicate StringLess(a: string, b: string) {
    b != [] && (a == [] || a[0] < b[0] || (a[0] == b[0] && StringLess(a[1..], b[1..])))
  }

  lemma {:induction false} StringLessTransitive(a: string, b: string, c: string)
    requires StringLess(a, b) && StringLess(b, c)
    ensures StringLess(a, c)
  {
    if a != [] && a[0] == b[0] == c[0] {
      StringLessTransitive(a[1..], b[1..], c[1..]);
    }
  }

  lemma {:induction false} StringLessTotal(a: string, b: string)
    ensures a != b ==> StringLess(a, b) || StringLess(b, a)
    ensures !(StringLess(a, b) && StringLess(b, a))
  {
    if a != [] && b != [] && a[0] == b[0] {
      StringLessTotal(a[1..], b[1..]);
      assert a == [a[0]] + a[1..] && b == [b[0]] + b[1..];
    }
  }

  /** The order of texts: after a common beginning one ends, or its next character is smaller. */
  lemma {:induction false} StringLessIff(a: string, b: string)
    ensures StringLess(a, b)
            <==> exists n :: 0 <= n <= |a| && n < |b| && a[..n] == b[..n] && (n < |a| ==> a[n] < b[n])
  {
    if a == [] {
      assert b != [] ==> a[..0] == b[..0];
    } else if b == [] || a[0] != b[0] {
      assert b != [] && a[0] < b[0] ==> a[..0] == b[..0];
      forall n | 0 < n <= |a| && n < |b|
        ensures a[..n] != b[..n]
      {
        assert a[..n][0] == a[0] && b[..n][0] == b[0];
      }
    } else {
      StringLessIff(a[1..], b[1..]);
      if n :| 0 <= n <= |a[1..]| && n < |b[1..]| && a[1..][..n] == b[1..][..n] && (n < |a[1..]| ==> a[1..][n] < b[1..][n]) {
        assert a[..n + 1] == [a[0]] + a[1..][..n] && b[..n + 1] == [b[0]] + b[1..][..n];
      }
      if m :| 0 <= m <= |a| && m < |b| && a[..m] == b[..m] && (m < |a| ==> a[m] < b[m]) {
        assert m > 0;
        assert a[1..][..m - 1] == a[..m][1..] && b[1..][..m - 1] == b[..m][1..];
      }
    }
  }

  type Key = (string, string)

  predicate KeyLess(a: Key, b: Key) {
    StringLess(a.0, b.0) || (a.0 == b.0 && StringLess(a.1, b.1))
  }

  lemma KeyLessIsStrictTotal()
    ensures StrictTotal(KeyLess)
  {
    forall a: Key
      ensures !KeyLess(a, a)
    {
      StringLessTotal(a.0, a.0);
      StringLessTotal(a.1, a.1);
    }
    forall a: Key, b: Key, c: Key | KeyLess(a, b) && KeyLess(b, c)
      ensures KeyLess(a, c)
    {
      if StringLess(a.0, b.0) && StringLess(b.0, c.0) {
        StringLessTransitive(a.0, b.0, c.0);
      }
      if StringLess(a.1, b.1) && StringLess(b.1, c.1) {
        StringLessTransitive(a.1, b.1, c.1);
      }
    }
    forall a: Key, b: Key | a != b
      ensures KeyLess(a, b) || KeyLess(b, a)
    {
      StringLessTotal(a.0, b.0);
      StringLessTotal(a.1, b.1);
    }
  }

  function SortedKeys(keys: set<Key>): (r: seq<Key>)
    ensures Ascending(r, KeyLess)
    ensures forall k :: k in r <==> k in keys
  {
    KeyLessIsStrictTotal();
    Sorted(keys, KeyLess)
  }

  predicate IntLess(a: int, b: int) {
    a < b
  }

  function SortedInts(keys: set<int>): (r: seq<int>)
    ensures Ascending(r, IntLess)
    ensures forall k :: k in r <==> k in keys
  {
    Sorted(keys, IntLess)
  }
}
