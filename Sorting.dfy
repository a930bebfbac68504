/** `Array.prototype.sort` with a "newest first" comparator `(a, b) => key(b) - key(a)`.
    The engine's sort is stable, so the result is the unique arrangement that is
    non-increasing by key and keeps equal-key elements in their original order:
    exactly what inserting the elements one by one, each after every element
    whose key is at least its own, produces. */
module Sorting {
  import opened ListEdits

  predicate SortedDesc<T>(s: seq<T>, key: T -> int) {
    forall i, j :: 0 <= i < j < |s| ==> key(s[i]) >= key(s[j])
  }

  /** `x` placed after every leading element whose key is at least `key(x)`. */
  function InsertDesc<T>(x: T, s: seq<T>, key: T -> int): (r: seq<T>)
    ensures multiset(r) == multiset(s) + multiset{x}
    ensures |r| == |s| + 1
  {
    if s == [] then [x]
    else if key(s[0]) >= key(x) then
      assert s == [s[0]] + s[1..];
      [s[0]] + InsertDesc(x, s[1..], key)
    else [x] + s
  }

  /** Inserting into a sorted list keeps it sorted. */
  lemma {:induction false} InsertDescSorted<T>(x: T, s: seq<T>, key: T -> int)
    requires SortedDesc(s, key)
    ensures SortedDesc(InsertDesc(x, s, key), key)
  {
    if s != [] && key(s[0]) >= key(x) {
      var t := InsertDesc(x, s[1..], key);
      InsertDescSorted(x, s[1..], key);
      var r := [s[0]] + t;
      forall k | 0 <= k < |t| ensures key(s[0]) >= key(t[k]) {
        assert t[k] in multiset(t);
        if t[k] != x {
          assert t[k] in multiset(s[1..]);
          var m :| 0 <= m < |s[1..]| && s[1..][m] == t[k];
          assert s[m + 1] == t[k];
        }
      }
      forall i, j | 0 <= i < j < |r| ensures key(r[i]) >= key(r[j]) {
        assert r[j] == t[j - 1];
        if i > 0 {
          assert r[i] == t[i - 1];
        }
      }
    }
  }

  /** The stable descending sort of `s` by `key`. */
  function SortDesc<T>(s: seq<T>, key: T -> int): (r: seq<T>)
    ensures multiset(r) == multiset(s)
    ensures |r| == |s|
    ensures SortedDesc(r, key)
  {
    if s == [] then []
    else
      assert s == s[..|s| - 1] + [s[|s| - 1]];
      var t := SortDesc(s[..|s| - 1], key);
      InsertDescSorted(s[|s| - 1], t, key);
      InsertDesc(s[|s| - 1], t, key)
  }
  /** Two elements: the second goes first only when its key is strictly greater. */
  lemma SortPair<T>(a: T, b: T, key: T -> int)
    ensures SortDesc([a, b], key) == if key(a) >= key(b) then [a, b] else [b, a]
  {
    assert [a, b][..1] == [a] && [a][..0] == [];
    assert SortDesc([a], key) == [a];
  }


  /** The elements whose key is `k`. */
  function KeyIs<T>(key: T -> int, k: int): T -> bool {
    x => key(x) == k
  }

  /** Inserting `x` puts it after every element of the same key already there. */
  lemma {:induction false} InsertDescStable<T(!new)>(x: T, s: seq<T>, key: T -> int, k: int)
    requires SortedDesc(s, key)
    ensures Filter(InsertDesc(x, s, key), KeyIs(key, k)) == Filter(s, KeyIs(key, k)) + Filter([x], KeyIs(key, k))
  {
    if s == [] {
      assert Filter(s, KeyIs(key, k)) == [];
    } else if key(s[0]) >= key(x) {
      SortedDescTail(s, key);
      InsertDescStable(x, s[1..], key, k);
      InsertBehind(x, s, key, k);
    } else {
      InsertInFront(x, s, key, k);
    }
  }

  /** The step of InsertDescStable where `x` goes behind the first element. */
  lemma InsertBehind<T(!new)>(x: T, s: seq<T>, key: T -> int, k: int)
    requires s != [] && key(s[0]) >= key(x)
    requires Filter(InsertDesc(x, s[1..], key), KeyIs(key, k))
      == Filter(s[1..], KeyIs(key, k)) + Filter([x], KeyIs(key, k))
    ensures Filter(InsertDesc(x, s, key), KeyIs(key, k)) == Filter(s, KeyIs(key, k)) + Filter([x], KeyIs(key, k))
  {
    var same := KeyIs(key, k);
    var a, b, c := Filter([s[0]], same), Filter(s[1..], same), Filter([x], same);
    assert Filter(InsertDesc(x, s, key), same) == a + (b + c) by {
      InsertDescBehind(x, s, key);
      FilterConcat([s[0]], InsertDesc(x, s[1..], key), same);
    }
    assert Filter(s, same) == a + b by {
      HeadTail(s);
      FilterConcat([s[0]], s[1..], same);
    }
    Reassociate(Filter(InsertDesc(x, s, key), same), Filter(s, same), a, b, c);
  }

  lemma InsertDescBehind<T>(x: T, s: seq<T>, key: T -> int)
    requires s != [] && key(s[0]) >= key(x)
    ensures InsertDesc(x, s, key) == [s[0]] + InsertDesc(x, s[1..], key)
  {
  }

  lemma HeadTail<T>(s: seq<T>)
    requires s != []
    ensures s == [s[0]] + s[1..]
  {
  }

  lemma Reassociate<T>(u: seq<T>, v: seq<T>, a: seq<T>, b: seq<T>, c: seq<T>)
    requires u == a + (b + c) && v == a + b
    ensures u == v + c
  {
  }

  /** The step of InsertDescStable where `x` goes in front. */
  lemma InsertInFront<T(!new)>(x: T, s: seq<T>, key: T -> int, k: int)
    requires SortedDesc(s, key)
    requires s != [] && key(s[0]) < key(x)
    ensures Filter(InsertDesc(x, s, key), KeyIs(key, k)) == Filter(s, KeyIs(key, k)) + Filter([x], KeyIs(key, k))
  {
    var same := KeyIs(key, k);
    assert InsertDesc(x, s, key) == [x] + s;
    FilterConcat([x], s, same);
    FilterOne(x, same);
    if key(x) == k {
      NoneAbove(s, key, k);
    }
  }

  lemma SortedDescTail<T>(s: seq<T>, key: T -> int)
    requires SortedDesc(s, key) && s != []
    ensures SortedDesc(s[1..], key)
  {
    forall i, j | 0 <= i < j < |s[1..]| ensures key(s[1..][i]) >= key(s[1..][j]) {
      assert s[1..][i] == s[i + 1] && s[1..][j] == s[j + 1];
    }
  }

  /** A sorted list whose first key is below `k` has no element of key `k`. */
  lemma NoneAbove<T(!new)>(s: seq<T>, key: T -> int, k: int)
    requires SortedDesc(s, key)
    requires s != [] && key(s[0]) < k
    ensures Filter(s, KeyIs(key, k)) == []
  {
    forall i | 0 <= i < |s| ensures !KeyIs(key, k)(s[i]) {
      if i > 0 {
        assert key(s[0]) >= key(s[i]);
      }
    }
    FilterNone(s, KeyIs(key, k));
  }

  /** The sort is stable: the elements of any one key keep their input order. */
  lemma {:induction false} SortDescStable<T(!new)>(s: seq<T>, key: T -> int, k: int)
    ensures Filter(SortDesc(s, key), KeyIs(key, k)) == Filter(s, KeyIs(key, k))
  {
    if s != [] {
      var init, last := s[..|s| - 1], s[|s| - 1];
      assert s == init + [last];
      SortDescStable(init, key, k);
      InsertDescStable(last, SortDesc(init, key), key, k);
      FilterConcat(init, [last], KeyIs(key, k));
    }
  }

  /** Sorting keeps exactly the elements it was given. */
  lemma SortDescMembers<T>(s: seq<T>, key: T -> int)
    ensures forall x :: x in SortDesc(s, key) <==> x in s
  {
    var r := SortDesc(s, key);
    forall x ensures x in r <==> x in s {
      assert x in r <==> x in multiset(r);
      assert x in s <==> x in multiset(s);
    }
  }

  /** An element at two positions is counted at least twice. */
  lemma TwiceCounted<T>(s: seq<T>, i: int, j: int)
    requires 0 <= i < j < |s| && s[i] == s[j]
    ensures multiset(s)[s[i]] >= 2
  {
    assert s == s[..j] + [s[j]] + s[j + 1..];
    assert s[..j][i] == s[i];
    assert s[i] in multiset(s[..j]);
  }

  /** In a list with distinct keys, every element occurs once. */
  lemma {:induction false} DistinctCountedOnce<T>(a: seq<T>, id: T -> string, v: T)
    requires forall i, j :: 0 <= i < j < |a| ==> id(a[i]) != id(a[j])
    ensures multiset(a)[v] <= 1
  {
    if a != [] {
      var p := a[..|a| - 1];
      assert a == p + [a[|a| - 1]];
      DistinctCountedOnce(p, id, v);
    }
  }

  /** In a list with distinct keys, elements with equal keys are equal. */
  lemma DistinctInjective<T>(a: seq<T>, id: T -> string)
    requires forall i, j :: 0 <= i < j < |a| ==> id(a[i]) != id(a[j])
    ensures forall x, y :: x in a && y in a && id(x) == id(y) ==> x == y
  {
    forall x, y | x in a && y in a && id(x) == id(y) ensures x == y {
      var k :| 0 <= k < |a| && a[k] == x;
      var l :| 0 <= l < |a| && a[l] == y;
    }
  }

  /** A permutation of a list whose elements have distinct keys has distinct keys too. */
  lemma PermutationKeepsDistinct<T>(a: seq<T>, b: seq<T>, id: T -> string)
    requires multiset(a) == multiset(b)
    requires forall i, j :: 0 <= i < j < |a| ==> id(a[i]) != id(a[j])
    ensures forall i, j :: 0 <= i < j < |b| ==> id(b[i]) != id(b[j])
  {
    DistinctInjective(a, id);
    forall i, j | 0 <= i < j < |b| ensures id(b[i]) != id(b[j]) {
      assert b[i] in multiset(a) && b[j] in multiset(a);
      DistinctCountedOnce(a, id, b[i]);
      if b[i] == b[j] {
        TwiceCounted(b, i, j);
      }
    }
  }
}
