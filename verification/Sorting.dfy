/** A stable sort by a real-valued key, standing for the library sort. */
module Sorting {

  function InsertBy<T>(x: T, s: seq<T>, key: T -> real): seq<T> {
    if s == [] || key(x) <= key(s[0]) then [x] + s else [s[0]] + InsertBy(x, s[1..], key)
  }

  function SortBy<T>(s: seq<T>, key: T -> real): seq<T> {
    if s == [] then [] else InsertBy(s[0], SortBy(s[1..], key), key)
  }

  ghost predicate Ascending<T>(s: seq<T>, key: T -> real) {
    forall i, j :: 0 <= i < j < |s| ==> key(s[i]) <= key(s[j])
  }

  /** Index i holds the earliest of the elements with the least key. */
  ghost predicate FirstMinimum<T>(s: seq<T>, key: T -> real, i: nat) {
    && i < |s|
    && (forall j :: 0 <= j < |s| ==> key(s[i]) <= key(s[j]))
    && (forall j :: 0 <= j < i ==> key(s[i]) < key(s[j]))
  }

  lemma {:induction false} InsertByElements<T>(x: T, s: seq<T>, key: T -> real)
    ensures multiset(InsertBy(x, s, key)) == multiset{x} + multiset(s)
  {
    if s != [] && key(x) > key(s[0]) {
      InsertByElements(x, s[1..], key);
      assert s == [s[0]] + s[1..];
    }
  }

  lemma {:induction false} InsertByFacts<T>(x: T, s: seq<T>, key: T -> real)
    requires Ascending(s, key)
    ensures Ascending(InsertBy(x, s, key), key)
    ensures multiset(InsertBy(x, s, key)) == multiset{x} + multiset(s)
  {
    InsertByElements(x, s, key);
    if s != [] && key(x) > key(s[0]) {
      InsertByFacts(x, s[1..], key);
      var rest := InsertBy(x, s[1..], key);
      forall j | 0 <= j < |rest| ensures key(s[0]) <= key(rest[j]) {
        assert rest[j] in multiset(rest);
        if rest[j] != x {
          assert rest[j] in multiset(s[1..]) && rest[j] in s[1..];
        }
      }
    }
  }

  /** The sort orders by key and only permutes. */
  lemma {:induction false} SortByFacts<T>(s: seq<T>, key: T -> real)
    ensures Ascending(SortBy(s, key), key)
    ensures multiset(SortBy(s, key)) == multiset(s)
    ensures |SortBy(s, key)| == |s|
  {
    if s != [] {
      SortByFacts(s[1..], key);
      InsertByFacts(s[0], SortBy(s[1..], key), key);
      assert s == [s[0]] + s[1..];
    }
    assert |multiset(SortBy(s, key))| == |multiset(s)|;
  }

  lemma SortByElements<T>(s: seq<T>, key: T -> real, x: T)
    ensures x in SortBy(s, key) <==> x in s
  {
    SortByFacts(s, key);
    assert x in SortBy(s, key) <==> x in multiset(SortBy(s, key));
    assert x in s <==> x in multiset(s);
  }

  /** Stability, seen at the head: the earliest least element comes first. */
  lemma {:induction false} SortByHead<T>(s: seq<T>, key: T -> real) returns (i: nat)
    requires s != []
    ensures FirstMinimum(s, key, i)
    ensures |SortBy(s, key)| == |s| && SortBy(s, key)[0] == s[i]
  {
    SortByFacts(s, key);
    if |s| == 1 {
      assert SortBy(s[1..], key) == [];
      return 0;
    }
    var k := SortByHead(s[1..], key);
    i := if key(s[0]) <= key(s[1..][k]) then 0 else k + 1;
    forall j | 0 <= j < |s| ensures key(s[i]) <= key(s[j]) {
      if j > 0 { assert s[j] == s[1..][j - 1]; }
    }
    forall j | 0 <= j < i ensures key(s[i]) < key(s[j]) {
      if j > 0 { assert s[j] == s[1..][j - 1]; }
    }
  }

  /** The elements with a given key, in order. */
  function WithKey<T>(s: seq<T>, key: T -> real, k: real): seq<T> {
    if s == [] then []
    else (if key(s[0]) == k then [s[0]] else []) + WithKey(s[1..], key, k)
  }

  lemma WithKeyFirst<T>(x: T, s: seq<T>, key: T -> real, k: real)
    ensures WithKey([x] + s, key, k) == (if key(x) == k then [x] else []) + WithKey(s, key, k)
  {
    assert ([x] + s)[1..] == s;
  }

  lemma {:induction false} InsertByStable<T>(x: T, s: seq<T>, key: T -> real, k: real)
    ensures WithKey(InsertBy(x, s, key), key, k) == WithKey([x] + s, key, k)
  {
    hide WithKey;
    if s != [] && key(x) > key(s[0]) {
      var rest := InsertBy(x, s[1..], key);
      InsertByStable(x, s[1..], key, k);
      assert InsertBy(x, s, key) == [s[0]] + rest && s == [s[0]] + s[1..];
      WithKeyFirst(s[0], s[1..], key, k);
      WithKeyFirst(s[0], rest, key, k);
      WithKeyFirst(x, s[1..], key, k);
      WithKeyFirst(x, s, key, k);
    }
  }

  /** Stability: elements with equal keys keep their order. */
  lemma {:induction false} SortByStable<T>(s: seq<T>, key: T -> real, k: real)
    ensures WithKey(SortBy(s, key), key, k) == WithKey(s, key, k)
  {
    if s != [] {
      SortByStable(s[1..], key, k);
      InsertByStable(s[0], SortBy(s[1..], key), key, k);
      WithKeyFirst(s[0], SortBy(s[1..], key), key, k);
    }
  }
}
