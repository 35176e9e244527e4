/** Facts about sequences without duplicates, used for the ordered sets and maps of the source. */
module Seqs {

  predicate NoDup<T(==)>(s: seq<T>) {
    forall i, j :: 0 <= i < j < |s| ==> s[i] != s[j]
  }

  ghost function Elems<T>(s: seq<T>): set<T> {
    set x | x in s
  }

  /** `s` with every occurrence of `x` removed, the rest in order (a Map `delete` on the key order). */
  function Without<T(==)>(s: seq<T>, x: T): (r: seq<T>)
    ensures forall i :: 0 <= i < |r| ==> r[i] in s && r[i] != x
    ensures forall i :: 0 <= i < |s| && s[i] != x ==> s[i] in r
    ensures NoDup(s) ==> NoDup(r)
    ensures |r| <= |s|
  {
    if s == [] then []
    else if s[0] == x then Without(s[1..], x)
    else [s[0]] + Without(s[1..], x)
  }

  /** Membership after removal, as a set would have it. */
  lemma WithoutHas<T>(s: seq<T>, x: T, y: T)
    ensures y in Without(s, x) <==> y in s && y != x
  {
    if y in Without(s, x) {
      var i :| 0 <= i < |Without(s, x)| && Without(s, x)[i] == y;
    }
    if y in s && y != x {
      var i :| 0 <= i < |s| && s[i] == y;
    }
  }

  /** Removing a key from a duplicate-free key order that lists exactly `keys` lists exactly the rest. */
  lemma WithoutKeys<T>(s: seq<T>, keys: set<T>, x: T)
    requires NoDup(s)
    requires forall y :: y in s <==> y in keys
    ensures NoDup(Without(s, x))
    ensures forall y :: y in Without(s, x) <==> y in keys - {x}
  {
    forall y ensures y in Without(s, x) <==> y in keys - {x} {
      WithoutHas(s, x, y);
    }
  }

  /** A duplicate-free sequence has as many distinct elements as it is long. */
  lemma {:induction false} NoDupCard<T>(s: seq<T>)
    requires NoDup(s)
    ensures |Elems(s)| == |s|
  {
    if s != [] {
      var t := s[1..];
      NoDupCard(t);
      assert Elems(s) == {s[0]} + Elems(t);
    }
  }

  /** Appending keeps a sequence duplicate-free exactly when the new element is not in it yet. */
  lemma NoDupSnoc<T>(s: seq<T>, x: T)
    ensures NoDup(s + [x]) <==> NoDup(s) && x !in s
  {
    var t := s + [x];
    assert forall i :: 0 <= i < |s| ==> t[i] == s[i];
    if NoDup(t) {
      forall i | 0 <= i < |s| ensures s[i] != x {
        assert t[i] != t[|s|];
      }
    }
  }

  /** A subset is no larger, and equally large only when it is the whole set. */
  lemma SubsetCard<T>(a: set<T>, b: set<T>)
    requires a <= b
    ensures |a| <= |b|
    ensures |a| == |b| ==> a == b
  {
    assert b == a + (b - a);
  }
}
