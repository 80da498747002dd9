/** Python's `sorted(s, key=...)`: a stable sort by a numeric key. */
module StableSort {

  function InsertBy<T>(x: T, s: seq<T>, key: T -> real): seq<T> {
    if s == [] || key(x) < key(s[0]) then [x] + s else [s[0]] + InsertBy(x, s[1..], key)
  }

  function SortBy<T>(s: seq<T>, key: T -> real): seq<T> {
    if s == [] then [] else InsertBy(s[|s| - 1], SortBy(s[..|s| - 1], key), key)
  }

  predicate OrderedBy<T>(s: seq<T>, key: T -> real) {
    forall i, j :: 0 <= i < j < |s| ==> key(s[i]) <= key(s[j])
  }

  /** The elements of one key, in their order. */
  function Rank<T>(s: seq<T>, key: T -> real, k: real): seq<T> {
    if s == [] then [] else (if key(s[0]) == k then [s[0]] else []) + Rank(s[1..], key, k)
  }

  lemma RankCons<T>(x: T, s: seq<T>, key: T -> real, k: real)
    ensures Rank([x] + s, key, k) == (if key(x) == k then [x] else []) + Rank(s, key, k)
  {
    assert ([x] + s)[1..] == s;
  }

  lemma {:induction false} RankSnoc<T>(s: seq<T>, x: T, key: T -> real, k: real)
    ensures Rank(s + [x], key, k) == Rank(s, key, k) + (if key(x) == k then [x] else [])
  {
    if s == [] {
      RankCons(x, [], key, k);
      assert s + [x] == [x] + [];
    } else {
      RankSnoc(s[1..], x, key, k);
      RankCons(s[0], s[1..] + [x], key, k);
      assert s + [x] == [s[0]] + (s[1..] + [x]);
    }
  }

  lemma {:induction false} InsertKeepsAll<T>(x: T, s: seq<T>, key: T -> real)
    ensures multiset(InsertBy(x, s, key)) == multiset(s) + multiset{x}
  {
    if s != [] && key(s[0]) <= key(x) {
      InsertKeepsAll(x, s[1..], key);
      assert s == [s[0]] + s[1..];
    }
  }

  lemma {:induction false} InsertKeepsOrder<T>(x: T, s: seq<T>, key: T -> real)
    requires OrderedBy(s, key)
    ensures OrderedBy(InsertBy(x, s, key), key)
    ensures forall i :: 0 <= i < |InsertBy(x, s, key)| ==>
      key(InsertBy(x, s, key)[i]) >= key(x) || (s != [] && key(InsertBy(x, s, key)[i]) >= key(s[0]))
  {
    if s != [] && key(s[0]) <= key(x) {
      InsertKeepsOrder(x, s[1..], key);
    }
  }

  lemma {:induction false} NoneInRank<T>(s: seq<T>, key: T -> real, k: real)
    requires forall i :: 0 <= i < |s| ==> k < key(s[i])
    ensures Rank(s, key, k) == []
  {
    if s != [] {
      NoneInRank(s[1..], key, k);
    }
  }

  lemma {:induction false} InsertGoesLastInRank<T>(x: T, s: seq<T>, key: T -> real, k: real)
    requires OrderedBy(s, key)
    ensures Rank(InsertBy(x, s, key), key, k) == Rank(s, key, k) + (if key(x) == k then [x] else [])
  {
    if s == [] || key(x) < key(s[0]) {
      RankCons(x, s, key, k);
      if key(x) == k {
        NoneInRank(s, key, k);
      }
    } else {
      InsertGoesLastInRank(x, s[1..], key, k);
      RankCons(s[0], InsertBy(x, s[1..], key), key, k);
    }
  }

  lemma {:induction false} SortOrders<T>(s: seq<T>, key: T -> real)
    ensures OrderedBy(SortBy(s, key), key)
    ensures multiset(SortBy(s, key)) == multiset(s)
  {
    if s != [] {
      var init, last := s[..|s| - 1], s[|s| - 1];
      assert s == init + [last];
      SortOrders(init, key);
      InsertKeepsOrder(last, SortBy(init, key), key);
      InsertKeepsAll(last, SortBy(init, key), key);
    }
  }

  /** Elements of one key keep the order they came in. */
  lemma {:induction false} SortIsStable<T>(s: seq<T>, key: T -> real, k: real)
    ensures Rank(SortBy(s, key), key, k) == Rank(s, key, k)
  {
    if s != [] {
      var init, last := s[..|s| - 1], s[|s| - 1];
      assert s == init + [last];
      SortIsStable(init, key, k);
      SortOrders(init, key);
      InsertGoesLastInRank(last, SortBy(init, key), key, k);
      RankSnoc(init, last, key, k);
    }
  }

  lemma SortSameSize<T>(s: seq<T>, key: T -> real)
    ensures |SortBy(s, key)| == |s|
    ensures forall x :: x in SortBy(s, key) <==> x in s
  {
    SortOrders(s, key);
    assert |SortBy(s, key)| == |multiset(SortBy(s, key))| == |multiset(s)|;
    assert forall x :: x in SortBy(s, key) <==> x in multiset(SortBy(s, key));
  }
}
