/** The list primitives the store is built from: `find`, `filter`, counting,
    and the stable `sort` of a JavaScript array, as functions on sequences. */
module Collections {

  datatype Option<+T> = None | Some(value: T)

  /** Index of the first element satisfying `p` (what `Array.prototype.find`
      locates), or None when no element does. */
  function FindIndex<T>(s: seq<T>, p: T -> bool): (r: Option<nat>)
    ensures r.None? <==> forall i :: 0 <= i < |s| ==> !p(s[i])
    ensures r.Some? ==> r.value < |s| && p(s[r.value])
    ensures r.Some? ==> forall i :: 0 <= i < r.value ==> !p(s[i])
  {
    if s == [] then None
    else if p(s[0]) then Some(0)
    else match FindIndex(s[1..], p)
      case None => None
      case Some(k) => Some(k + 1)
  }

  /** Searching two sequences whose elements agree position by position on
      the predicates finds the same index. */
  lemma {:induction false} FindIndexPointwise<T, U>(a: seq<T>, p: T -> bool, b: seq<U>, q: U -> bool)
    requires |a| == |b|
    requires forall i :: 0 <= i < |a| ==> p(a[i]) == q(b[i])
    ensures FindIndex(a, p) == FindIndex(b, q)
  {
    if a != [] && !p(a[0]) {
      forall i | 0 <= i < |a[1..]| ensures p(a[1..][i]) == q(b[1..][i]) {
        assert a[1..][i] == a[i + 1] && b[1..][i] == b[i + 1];
      }
      FindIndexPointwise(a[1..], p, b[1..], q);
    }
  }

  /** An element appended after a sequence with no match is the first match. */
  lemma FindIndexAppended<T>(a: seq<T>, x: T, p: T -> bool)
    requires FindIndex(a, p).None? && p(x)
    ensures FindIndex(a + [x], p) == Some(|a|)
  {
    assert forall i :: 0 <= i < |a| ==> (a + [x])[i] == a[i];
    assert (a + [x])[|a|] == x;
  }

  /** The elements of `s` satisfying `p`, in their order in `s`
      (`Array.prototype.filter`). */
  function Filter<T(!new)>(s: seq<T>, p: T -> bool): (r: seq<T>)
    ensures |r| <= |s|
    ensures forall x :: x in r <==> x in s && p(x)
    ensures forall x :: multiset(r)[x] == if p(x) then multiset(s)[x] else 0
  {
    if s == [] then []
    else if p(s[0]) then
      assert s == [s[0]] + s[1..];
      [s[0]] + Filter(s[1..], p)
    else
      assert s == [s[0]] + s[1..];
      Filter(s[1..], p)
  }

  /** Filtering out an element that is present shortens the sequence. */
  lemma {:induction false} FilterDrops<T(!new)>(s: seq<T>, p: T -> bool, x: T)
    requires x in s && !p(x)
    ensures |Filter(s, p)| < |s|
  {
    if s[0] != x {
      FilterDrops(s[1..], p, x);
    }
  }

  /** Number of elements of `s` satisfying `p`. */
  function Count<T(!new)>(s: seq<T>, p: T -> bool): nat
  {
    |Filter(s, p)|
  }

  lemma {:induction false} FilterConcat<T(!new)>(a: seq<T>, b: seq<T>, p: T -> bool)
    ensures Filter(a + b, p) == Filter(a, p) + Filter(b, p)
  {
    if a == [] {
      assert a + b == b;
    } else {
      assert (a + b)[1..] == a[1..] + b;
      FilterConcat(a[1..], b, p);
    }
  }

  lemma CountConcat<T(!new)>(a: seq<T>, b: seq<T>, p: T -> bool)
    ensures Count(a + b, p) == Count(a, p) + Count(b, p)
  {
    FilterConcat(a, b, p);
  }

  /** Filtering out an appended element that alone fails the predicate
      gives back the original sequence. */
  lemma FilterAppendedOut<T(!new)>(a: seq<T>, x: T, q: T -> bool)
    requires forall i :: 0 <= i < |a| ==> q(a[i])
    requires !q(x)
    ensures Filter(a + [x], q) == a
  {
    FilterConcat(a, [x], q);
    FilterAllKept(a, q);
  }

  /** Predicates that agree on every element of `s` filter it alike. */
  lemma {:induction false} FilterSame<T(!new)>(s: seq<T>, p: T -> bool, q: T -> bool)
    requires forall x :: x in s ==> p(x) == q(x)
    ensures Filter(s, p) == Filter(s, q)
  {
    if s != [] {
      assert forall x :: x in s[1..] ==> x in s;
      FilterSame(s[1..], p, q);
    }
  }

  /** Two sequences of equal length whose elements agree position by
      position on the predicates have the same counts. */
  lemma {:induction false} CountPointwise<T(!new), U(!new)>(a: seq<T>, p: T -> bool, b: seq<U>, q: U -> bool)
    requires |a| == |b|
    requires forall i :: 0 <= i < |a| ==> p(a[i]) == q(b[i])
    ensures Count(a, p) == Count(b, q)
  {
    if a != [] {
      forall i | 0 <= i < |a[1..]| ensures p(a[1..][i]) == q(b[1..][i]) {
        assert a[1..][i] == a[i + 1] && b[1..][i] == b[i + 1];
      }
      CountPointwise(a[1..], p, b[1..], q);
    }
  }

  /** Filtering with a predicate that rejects exactly one position `j`
      lowers every count by the contribution of the element at `j`. */
  lemma {:induction false} CountFilterOne<T(!new)>(s: seq<T>, q: T -> bool, j: nat, p: T -> bool)
    requires j < |s|
    requires forall i :: 0 <= i < |s| ==> (!q(s[i]) <==> i == j)
    ensures Count(Filter(s, q), p) == Count(s, p) - (if p(s[j]) then 1 else 0)
  {
    if j == 0 {
      CountFilterHead(s, q, p);
    } else {
      forall i | 0 <= i < |s[1..]| ensures !q(s[1..][i]) <==> i == j - 1 {
        assert s[1..][i] == s[i + 1];
      }
      CountFilterOne(s[1..], q, j - 1, p);
      assert s[1..][j - 1] == s[j];
    }
  }

  lemma CountFilterHead<T(!new)>(s: seq<T>, q: T -> bool, p: T -> bool)
    requires 0 < |s|
    requires forall i :: 0 <= i < |s| ==> (!q(s[i]) <==> i == 0)
    ensures Count(Filter(s, q), p) == Count(s, p) - (if p(s[0]) then 1 else 0)
  {
    assert forall i :: 0 <= i < |s[1..]| ==> q(s[1..][i]);
    FilterAllKept(s[1..], q);
  }

  lemma {:induction false} FilterAllKept<T(!new)>(s: seq<T>, q: T -> bool)
    requires forall i :: 0 <= i < |s| ==> q(s[i])
    ensures Filter(s, q) == s
  {
    if s != [] {
      assert forall i :: 0 <= i < |s[1..]| ==> q(s[1..][i]) by {
        forall i | 0 <= i < |s[1..]| ensures q(s[1..][i]) { assert s[1..][i] == s[i + 1]; }
      }
      FilterAllKept(s[1..], q);
    }
  }

  /** No two positions of `s` carry the same `key`. */
  predicate Distinct<T, K(==)>(s: seq<T>, key: T -> K)
  {
    forall i, j :: 0 <= i < j < |s| ==> key(s[i]) != key(s[j])
  }

  lemma {:induction false} FilterDistinct<T(!new), K>(s: seq<T>, p: T -> bool, key: T -> K)
    requires Distinct(s, key)
    ensures Distinct(Filter(s, p), key)
  {
    if s != [] {
      DistinctTail(s, key);
      FilterDistinct(s[1..], p, key);
      var t := Filter(s[1..], p);
      if p(s[0]) {
        HeadKeyFresh(s, key, t);
        DistinctCons(s[0], t, key);
        assert Filter(s, p) == [s[0]] + t;
      }
    }
  }

  lemma DistinctTail<T, K>(s: seq<T>, key: T -> K)
    requires s != [] && Distinct(s, key)
    ensures Distinct(s[1..], key)
  {
    forall i, j | 0 <= i < j < |s[1..]| ensures key(s[1..][i]) != key(s[1..][j]) {
      assert s[1..][i] == s[i + 1] && s[1..][j] == s[j + 1];
    }
  }

  /** The head of a sequence with distinct keys shares its key with nothing
      drawn from the tail. */
  lemma HeadKeyFresh<T, K>(s: seq<T>, key: T -> K, t: seq<T>)
    requires s != [] && Distinct(s, key)
    requires forall x :: x in t ==> x in s[1..]
    ensures forall j :: 0 <= j < |t| ==> key(s[0]) != key(t[j])
  {
    forall j | 0 <= j < |t| ensures key(s[0]) != key(t[j]) {
      assert t[j] in s[1..];
      var k :| 0 <= k < |s[1..]| && s[1..][k] == t[j];
      assert s[k + 1] == t[j];
    }
  }

  lemma DistinctCons<T, K>(x: T, t: seq<T>, key: T -> K)
    requires Distinct(t, key)
    requires forall j :: 0 <= j < |t| ==> key(x) != key(t[j])
    ensures Distinct([x] + t, key)
  {
    var u := [x] + t;
    forall i, j | 0 <= i < j < |u| ensures key(u[i]) != key(u[j]) {
      assert u[j] == t[j - 1];
      if i > 0 { assert u[i] == t[i - 1]; }
    }
  }

  lemma DistinctAppend<T, K>(s: seq<T>, x: T, key: T -> K)
    requires Distinct(s, key)
    requires forall i :: 0 <= i < |s| ==> key(s[i]) != key(x)
    ensures Distinct(s + [x], key)
  {
  }

  // ---------------------------------------------------------------------
  // Stable sorting by an integer key
  // ---------------------------------------------------------------------

  /** `s` is in ascending order of `key`. */
  predicate SortedBy<T>(s: seq<T>, key: T -> int)
  {
    forall i, j :: 0 <= i < j < |s| ==> key(s[i]) <= key(s[j])
  }

  /** The elements of `s` whose key is `k`, in their order in `s`. A sort is
      stable exactly when it leaves every such class as it was. */
  function KeyClass<T>(s: seq<T>, key: T -> int, k: int): seq<T>
  {
    if s == [] then []
    else (if key(s[0]) == k then [s[0]] else []) + KeyClass(s[1..], key, k)
  }

  /** Inserts `x` before the first element whose key is not smaller. */
  function InsertBy<T>(x: T, s: seq<T>, key: T -> int): (r: seq<T>)
    requires SortedBy(s, key)
    ensures SortedBy(r, key)
    ensures multiset(r) == multiset(s) + multiset{x}
  {
    if s == [] || key(x) <= key(s[0]) then
      [x] + s
    else
      var t := InsertBy(x, s[1..], key);
      InsertedAbove(x, s, key, t);
      [s[0]] + t
  }

  /** Every element of the insertion into the tail of `s` has a key no
      smaller than the head of `s`. */
  lemma InsertedAbove<T>(x: T, s: seq<T>, key: T -> int, t: seq<T>)
    requires SortedBy(s, key) && s != [] && key(s[0]) < key(x)
    requires SortedBy(t, key)
    requires multiset(t) == multiset(s[1..]) + multiset{x}
    ensures SortedBy([s[0]] + t, key)
    ensures multiset([s[0]] + t) == multiset(s) + multiset{x}
  {
    forall i | 0 <= i < |t| ensures key(s[0]) <= key(t[i]) {
      assert t[i] in multiset(t);
      if t[i] != x {
        assert t[i] in multiset(s[1..]);
        var k :| 0 <= k < |s[1..]| && s[1..][k] == t[i];
        assert s[k + 1] == t[i];
      }
    }
    assert s == [s[0]] + s[1..];
  }

  /** Ascending stable sort by `key`: insertion sort, the reference against
      which any stable sort is judged (see SortByUnique). */
  function SortBy<T>(s: seq<T>, key: T -> int): (r: seq<T>)
    ensures SortedBy(r, key)
    ensures multiset(r) == multiset(s)
  {
    if s == [] then []
    else
      assert s == [s[0]] + s[1..];
      InsertBy(s[0], SortBy(s[1..], key), key)
  }

  /** SortBy keeps exactly the elements of its input and their order
      within every key class. */
  lemma SortByKeeps<T>(s: seq<T>, key: T -> int)
    ensures forall x :: x in SortBy(s, key) <==> x in s
    ensures forall k :: KeyClass(SortBy(s, key), key, k) == KeyClass(s, key, k)
  {
    var r := SortBy(s, key);
    forall k ensures KeyClass(r, key, k) == KeyClass(s, key, k) {
      SortByStable(s, key, k);
    }
    forall x ensures x in r <==> x in s {
      assert x in r <==> x in multiset(r);
      assert x in s <==> x in multiset(s);
    }
  }

  lemma {:induction false} KeyClassInsert<T>(x: T, s: seq<T>, key: T -> int, k: int)
    requires SortedBy(s, key)
    ensures KeyClass(InsertBy(x, s, key), key, k)
         == (if key(x) == k then [x] else []) + KeyClass(s, key, k)
  {
    if s == [] || key(x) <= key(s[0]) {
      KeyClassCons(x, s, key, k);
    } else {
      var t := InsertBy(x, s[1..], key);
      var rest := KeyClass(s[1..], key, k);
      assert InsertBy(x, s, key) == [s[0]] + t;
      KeyClassCons(s[0], t, key, k);
      KeyClassInsert(x, s[1..], key, k);
      KeyClassCons(s[0], s[1..], key, k);
      assert [s[0]] + s[1..] == s;
      // x and s[0] have different keys, so at most one of them is in class k
      if key(x) == k {
        assert KeyClass(t, key, k) == [x] + rest;
        assert KeyClass([s[0]] + t, key, k) == [x] + rest;
        assert KeyClass(s, key, k) == rest;
      } else if key(s[0]) == k {
        assert KeyClass(t, key, k) == rest;
        assert KeyClass([s[0]] + t, key, k) == [s[0]] + rest;
        assert KeyClass(s, key, k) == [s[0]] + rest;
      } else {
        assert KeyClass(t, key, k) == rest;
        assert KeyClass([s[0]] + t, key, k) == rest;
        assert KeyClass(s, key, k) == rest;
      }
    }
  }

  lemma KeyClassCons<T>(y: T, u: seq<T>, key: T -> int, k: int)
    ensures KeyClass([y] + u, key, k) == (if key(y) == k then [y] else []) + KeyClass(u, key, k)
  {
    assert ([y] + u)[0] == y;
    assert ([y] + u)[1..] == u;
  }

  /** SortBy is stable: elements with equal keys keep their relative order. */
  lemma {:induction false} SortByStable<T>(s: seq<T>, key: T -> int, k: int)
    ensures KeyClass(SortBy(s, key), key, k) == KeyClass(s, key, k)
  {
    if s != [] {
      SortByStable(s[1..], key, k);
      KeyClassInsert(s[0], SortBy(s[1..], key), key, k);
    }
  }

  lemma KeyClassHead<T>(s: seq<T>, key: T -> int)
    requires s != []
    ensures KeyClass(s, key, key(s[0])) != []
  {
  }

  lemma {:induction false} KeyClassMember<T>(s: seq<T>, key: T -> int, x: T)
    ensures x in s <==> x in KeyClass(s, key, key(x))
  {
    if s != [] {
      KeyClassMember(s[1..], key, x);
      assert x in s <==> x == s[0] || x in s[1..];
    }
  }

  /** Any sorted sequence with the same key classes as `s` is SortBy(s): a
      stable sort is determined by its input, whatever algorithm computes it. */
  lemma {:induction false} SortByUnique<T>(s: seq<T>, t: seq<T>, key: T -> int)
    requires SortedBy(t, key)
    requires forall k :: KeyClass(t, key, k) == KeyClass(s, key, k)
    ensures t == SortBy(s, key)
  {
    var u := SortBy(s, key);
    forall k ensures KeyClass(t, key, k) == KeyClass(u, key, k) {
      SortByStable(s, key, k);
    }
    SortedSameClasses(t, u, key);
  }

  lemma {:induction false} SortedSameClasses<T>(t: seq<T>, u: seq<T>, key: T -> int)
    requires SortedBy(t, key) && SortedBy(u, key)
    requires forall k :: KeyClass(t, key, k) == KeyClass(u, key, k)
    ensures t == u
  {
    if t != [] && u == [] {
      KeyClassHead(t, key);
      assert false;
    } else if t == [] && u != [] {
      KeyClassHead(u, key);
      assert false;
    } else if t != [] {
      // the smallest key comes first in both
      KeyClassMember(t, key, u[0]);
      KeyClassMember(u, key, u[0]);
      KeyClassMember(t, key, t[0]);
      KeyClassMember(u, key, t[0]);
      assert key(t[0]) == key(u[0]);
      var m := key(t[0]);
      assert KeyClass(t, key, m) == [t[0]] + KeyClass(t[1..], key, m);
      assert KeyClass(u, key, m) == [u[0]] + KeyClass(u[1..], key, m);
      assert KeyClass(t, key, m)[0] == t[0] && KeyClass(u, key, m)[0] == u[0];
      assert t[0] == u[0];
      forall k ensures KeyClass(t[1..], key, k) == KeyClass(u[1..], key, k) {
        var head: seq<T> := if key(t[0]) == k then [t[0]] else [];
        assert KeyClass(t, key, k) == head + KeyClass(t[1..], key, k);
        assert KeyClass(u, key, k) == head + KeyClass(u[1..], key, k);
        assert (head + KeyClass(t[1..], key, k))[|head|..] == KeyClass(t[1..], key, k);
        assert (head + KeyClass(u[1..], key, k))[|head|..] == KeyClass(u[1..], key, k);
      }
      SortedSameClasses(t[1..], u[1..], key);
    }
  }
}
