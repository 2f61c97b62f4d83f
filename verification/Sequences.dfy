/** Facts about joining and cutting sequences, each stated once so that other proofs need not search for
    it. */
module Sequences {
  lemma JoinAssociates<T>(a: seq<T>, b: seq<T>, c: seq<T>)
    ensures a + (b + c) == (a + b) + c
  {
  }

  lemma Uncons<T>(x: T, s: seq<T>)
    ensures ([x] + s)[0] == x && ([x] + s)[1..] == s
  {
  }

  lemma Regrouped<T>(a: seq<T>, b: seq<T>, n: nat)
    requires 0 < n <= |a|
    ensures a + b == [a[0]] + (a[1..n] + (a[n..] + b)) == a[..n] + (a[n..] + b)
    ensures a[..n][0] == a[0] && a[..n][1..] == a[1..n]
  {
  }

  lemma PrefixByLast<T>(a: seq<T>, b: seq<T>)
    requires a != [] && |a| <= |b| && a[..|a| - 1] == b[..|a| - 1] && a[|a| - 1] == b[|a| - 1]
    ensures a == b[..|a|]
  {
    assert a == a[..|a| - 1] + [a[|a| - 1]];
  }

  /** The pieces f gives for the elements of s, joined. */
  function Flat<A, B>(s: seq<A>, f: A -> seq<B>): seq<B> {
    if s == [] then [] else f(s[0]) + Flat(s[1..], f)
  }

  lemma {:induction false} FlatAppend<A, B>(a: seq<A>, b: seq<A>, f: A -> seq<B>)
    ensures Flat(a + b, f) == Flat(a, f) + Flat(b, f)
  {
    if a == [] {
      assert a + b == b;
      assert [] + Flat(b, f) == Flat(b, f);
    } else {
      FlatAppend(a[1..], b, f);
      assert (a + b)[0] == a[0] && (a + b)[1..] == a[1..] + b;
      JoinAssociates(f(a[0]), Flat(a[1..], f), Flat(b, f));
    }
  }
}
