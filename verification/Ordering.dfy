/** Python's sorted(): a stable sort by key, and the sorted list of a set. */
module Ordering {
  ghost predicate TotalOrder<K(!new)>(le: (K, K) -> bool) {
    && (forall a, b :: le(a, b) || le(b, a))
    && (forall a, b :: le(a, b) && le(b, a) ==> a == b)
    && (forall a, b, c :: le(a, b) && le(b, c) ==> le(a, c))
  }

  /** Strings compare by code point. */
  predicate StringLe(a: string, b: string) {
    a == [] || (b != [] && (a[0] < b[0] || (a[0] == b[0] && StringLe(a[1..], b[1..]))))
  }

  lemma {:induction false} StringLeTotal(a: string, b: string)
    ensures StringLe(a, b) || StringLe(b, a)
    ensures StringLe(a, b) && StringLe(b, a) ==> a == b
  {
    if a != [] && b != [] {
      StringLeTotal(a[1..], b[1..]);
      assert a == [a[0]] + a[1..] && b == [b[0]] + b[1..];
    }
  }

  lemma {:induction false} StringLeTransitive(a: string, b: string, c: string)
    requires StringLe(a, b) && StringLe(b, c)
    ensures StringLe(a, c)
  {
    if a != [] && a[0] == b[0] == c[0] {
      StringLeTransitive(a[1..], b[1..], c[1..]);
    }
  }

  lemma StringOrder()
    ensures TotalOrder(StringLe)
  {
    forall a, b ensures StringLe(a, b) || StringLe(b, a) { StringLeTotal(a, b); }
    forall a, b | StringLe(a, b) && StringLe(b, a) ensures a == b { StringLeTotal(a, b); }
    forall a, b, c | StringLe(a, b) && StringLe(b, c) ensures StringLe(a, c) { StringLeTransitive(a, b, c); }
  }

  predicate IntLe(a: int, b: int) { a <= b }

  /** Tuples of strings compare lexicographically. */
  predicate PairLe(a: (string, string), b: (string, string)) {
    if a.0 == b.0 then StringLe(a.1, b.1) else StringLe(a.0, b.0)
  }

  lemma PairOrder()
    ensures TotalOrder(PairLe)
  {
    StringOrder();
    forall a, b, c | PairLe(a, b) && PairLe(b, c) ensures PairLe(a, c) {
      assert StringLe(a.0, b.0) && StringLe(b.0, c.0) by {
        assert StringLe(a.0, a.0) && StringLe(b.0, b.0);
      }
    }
  }

  // ---------------- the sorted list of a set ----------------

  ghost predicate Ascending<K>(s: seq<K>, le: (K, K) -> bool) {
    forall i, j :: 0 <= i < j < |s| ==> le(s[i], s[j]) && s[i] != s[j]
  }

  lemma {:induction false} LeastExists<K(!new)>(s: set<K>, le: (K, K) -> bool)
    requires TotalOrder(le) && s != {}
    ensures exists x :: x in s && forall y :: y in s ==> le(x, y)
    decreases |s|
  {
    var x :| x in s;
    if s - {x} == {} {
      assert s == {x} && le(x, x);
    } else {
      LeastExists(s - {x}, le);
      var m :| m in s - {x} && forall y :: y in s - {x} ==> le(m, y);
      var least := if le(m, x) then m else x;
      forall y | y in s ensures le(least, y) {
        assert le(x, x) && (y != x ==> y in s - {x});
      }
    }
  }

  function SortedSet<K(==, !new)>(s: set<K>, le: (K, K) -> bool): (r: seq<K>)
    requires TotalOrder(le)
    ensures Ascending(r, le)
    ensures forall x :: x in r <==> x in s
    decreases |s|
  {
    if s == {} then []
    else
      LeastExists(s, le);
      var x :| x in s && forall y :: y in s ==> le(x, y);
      [x] + SortedSet(s - {x}, le)
  }

  function SortedNames(names: set<string>): (r: seq<string>)
    ensures Ascending(r, StringLe)
    ensures forall x :: x in r <==> x in names
  {
    StringOrder();
    SortedSet(names, StringLe)
  }

  // ---------------- the stable sort of a list ----------------

  ghost predicate SortedBy<T(!new), K>(s: seq<T>, key: T -> K, le: (K, K) -> bool) {
    s == [] || ((forall x :: x in s[1..] ==> le(key(s[0]), key(x))) && SortedBy(s[1..], key, le))
  }

  /** In front of the first element it does not exceed. */
  function InsertBy<T, K>(x: T, s: seq<T>, key: T -> K, le: (K, K) -> bool): (r: seq<T>)
    ensures multiset(r) == multiset{x} + multiset(s)
  {
    if s == [] || le(key(x), key(s[0])) then [x] + s
    else
      assert s == [s[0]] + s[1..];
      [s[0]] + InsertBy(x, s[1..], key, le)
  }

  /** Equal keys keep their order: an element goes in front of the later ones it ties with. */
  function SortBy<T, K>(s: seq<T>, key: T -> K, le: (K, K) -> bool): (r: seq<T>)
    ensures multiset(r) == multiset(s)
  {
    if s == [] then []
    else
      assert s == [s[0]] + s[1..];
      InsertBy(s[0], SortBy(s[1..], key, le), key, le)
  }

  lemma SameElements<T>(s: seq<T>, t: seq<T>)
    requires multiset(s) == multiset(t)
    ensures forall x :: x in s <==> x in t
    ensures |s| == |t|
  {
    assert forall x :: x in s <==> x in multiset(s);
    assert forall x :: x in t <==> x in multiset(t);
    assert |multiset(s)| == |s| && |multiset(t)| == |t|;
  }

  lemma {:induction false} InsertKeepsSorted<T(!new), K(!new)>(x: T, s: seq<T>, key: T -> K, le: (K, K) -> bool)
    requires TotalOrder(le) && SortedBy(s, key, le)
    ensures SortedBy(InsertBy(x, s, key, le), key, le)
  {
    if s != [] {
      if le(key(x), key(s[0])) {
        assert ([x] + s)[1..] == s;
        forall y | y in s ensures le(key(x), key(y)) {
          assert y == s[0] || y in s[1..];
        }
      } else {
        InsertKeepsSorted(x, s[1..], key, le);
        var rest := InsertBy(x, s[1..], key, le);
        SameElements(rest, [x] + s[1..]);
        assert ([s[0]] + rest)[1..] == rest;
      }
    }
  }

  lemma {:induction false} SortSorts<T(!new), K(!new)>(s: seq<T>, key: T -> K, le: (K, K) -> bool)
    requires TotalOrder(le)
    ensures SortedBy(SortBy(s, key, le), key, le)
  {
    if s != [] {
      SortSorts(s[1..], key, le);
      InsertKeepsSorted(s[0], SortBy(s[1..], key, le), key, le);
    }
  }

  lemma {:induction false} SortOfSorted<T(!new), K>(s: seq<T>, key: T -> K, le: (K, K) -> bool)
    requires SortedBy(s, key, le)
    ensures SortBy(s, key, le) == s
  {
    if s != [] {
      SortOfSorted(s[1..], key, le);
      assert s == [s[0]] + s[1..];
    }
  }

  /** The key tells the elements of the list apart. */
  ghost predicate KeysIdentify<T(!new), K>(s: seq<T>, key: T -> K) {
    forall x, y :: x in s && y in s && key(x) == key(y) ==> x == y
  }

  lemma SameHead<T(!new), K(!new)>(s: seq<T>, t: seq<T>, key: T -> K, le: (K, K) -> bool)
    requires TotalOrder(le) && SortedBy(s, key, le) && SortedBy(t, key, le) && s != [] && t != []
    requires s[0] in t && t[0] in s && KeysIdentify(s, key)
    ensures s[0] == t[0]
  {
    assert s == [s[0]] + s[1..] && t == [t[0]] + t[1..];
    assert le(key(s[0]), key(t[0])) by { assert le(key(s[0]), key(s[0])); }
    assert le(key(t[0]), key(s[0])) by { assert le(key(t[0]), key(t[0])); }
  }

  lemma TailElements<T>(s: seq<T>)
    requires s != []
    ensures multiset(s[1..]) == multiset(s) - multiset{s[0]}
  {
    assert s == [s[0]] + s[1..];
  }

  /** Two sorted lists with the same elements are the same list. */
  lemma {:induction false} SortedUnique<T(!new), K(!new)>(s: seq<T>, t: seq<T>, key: T -> K, le: (K, K) -> bool)
    requires TotalOrder(le) && SortedBy(s, key, le) && SortedBy(t, key, le)
    requires multiset(s) == multiset(t) && KeysIdentify(s, key)
    ensures s == t
  {
    SameElements(s, t);
    if s != [] {
      assert s[0] in t && t[0] in s;
      SameHead(s, t, key, le);
      TailElements(s);
      TailElements(t);
      SortedUnique(s[1..], t[1..], key, le);
      assert s == [s[0]] + s[1..] && t == [t[0]] + t[1..];
    }
  }

  /** Sorting forgets the order of the list when the key tells its elements apart. */
  lemma SortOfPermutation<T(!new), K(!new)>(s: seq<T>, t: seq<T>, key: T -> K, le: (K, K) -> bool)
    requires TotalOrder(le) && multiset(s) == multiset(t) && KeysIdentify(s, key)
    ensures SortBy(s, key, le) == SortBy(t, key, le)
  {
    SortSorts(s, key, le);
    SortSorts(t, key, le);
    SameElements(s, SortBy(s, key, le));
    SortedUnique(SortBy(s, key, le), SortBy(t, key, le), key, le);
  }

  /** The elements with key k, in list order. */
  function Having<T, K(==)>(s: seq<T>, key: T -> K, k: K): seq<T> {
    if s == [] then [] else (if key(s[0]) == k then [s[0]] else []) + Having(s[1..], key, k)
  }

  lemma {:induction false} InsertIsStable<T, K>(x: T, s: seq<T>, key: T -> K, le: (K, K) -> bool, k: K)
    requires le(key(x), key(x))
    ensures Having(InsertBy(x, s, key, le), key, k) == (if key(x) == k then [x] else []) + Having(s, key, k)
  {
    if s == [] || le(key(x), key(s[0])) {
      assert ([x] + s)[1..] == s;
    } else {
      InsertIsStable(x, s[1..], key, le, k);
      var rest := InsertBy(x, s[1..], key, le);
      assert ([s[0]] + rest)[1..] == rest;
      assert key(x) != key(s[0]);
      var later := Having(s[1..], key, k);
      if key(x) == k {
        assert [] + ([x] + later) == [x] + ([] + later);
      } else {
        assert [] + later == later;
      }
    }
  }

  /** Sorting is stable: elements with the same key keep their order. */
  lemma {:induction false} SortIsStable<T, K(!new)>(s: seq<T>, key: T -> K, le: (K, K) -> bool, k: K)
    requires TotalOrder(le)
    ensures Having(SortBy(s, key, le), key, k) == Having(s, key, k)
  {
    if s != [] {
      SortIsStable(s[1..], key, le, k);
      assert le(key(s[0]), key(s[0]));
      InsertIsStable(s[0], SortBy(s[1..], key, le), key, le, k);
    }
  }
}
