/** Stable insertion sort over any total order. */
module Sorting {
  ghost predicate TotalOrder<T(!new)>(le: (T, T) -> bool) {
    && (forall a, b :: le(a, b) || le(b, a))
    && (forall a, b, c :: le(a, b) && le(b, c) ==> le(a, c))
  }

  ghost predicate Ordered<T(!new)>(s: seq<T>, le: (T, T) -> bool) {
    forall i, j | 0 <= i < j < |s| :: le(s[i], s[j])
  }

  function Insert<T>(x: T, s: seq<T>, le: (T, T) -> bool): seq<T> {
    if s == [] then [x]
    else if le(x, s[0]) then [x] + s
    else [s[0]] + Insert(x, s[1..], le)
  }

  function Sort<T>(s: seq<T>, le: (T, T) -> bool): seq<T> {
    if s == [] then [] else Insert(s[0], Sort(s[1..], le), le)
  }

  lemma {:induction false} InsertKeeps<T>(x: T, s: seq<T>, le: (T, T) -> bool)
    ensures multiset(Insert(x, s, le)) == multiset{x} + multiset(s)
  {
    if s != [] {
      assert s == [s[0]] + s[1..];
      if !le(x, s[0]) {
        InsertKeeps(x, s[1..], le);
      }
    }
  }

  lemma {:induction false} InsertOrders<T(!new)>(x: T, s: seq<T>, le: (T, T) -> bool)
    requires TotalOrder(le) && Ordered(s, le)
    ensures Ordered(Insert(x, s, le), le)
  {
    if s != [] && !le(x, s[0]) {
      var rest := Insert(x, s[1..], le);
      InsertOrders(x, s[1..], le);
      InsertKeeps(x, s[1..], le);
      forall y | y in rest ensures le(s[0], y) {
        assert y in multiset(rest);
        assert y == x || y in s[1..];
      }
    }
  }

  lemma {:induction false} SortOrders<T(!new)>(s: seq<T>, le: (T, T) -> bool)
    requires TotalOrder(le)
    ensures Ordered(Sort(s, le), le)
  {
    if s != [] {
      SortOrders(s[1..], le);
      InsertOrders(s[0], Sort(s[1..], le), le);
    }
  }

  lemma {:induction false} SortPermutes<T>(s: seq<T>, le: (T, T) -> bool)
    ensures multiset(Sort(s, le)) == multiset(s)
    ensures |Sort(s, le)| == |s|
  {
    if s != [] {
      SortPermutes(s[1..], le);
      InsertKeeps(s[0], Sort(s[1..], le), le);
      assert s == [s[0]] + s[1..];
    }
    assert |Sort(s, le)| == |multiset(Sort(s, le))| == |s|;
  }

  /** Sorting neither adds nor drops elements. */
  lemma SortKeepsElements<T>(s: seq<T>, le: (T, T) -> bool)
    ensures forall x :: x in Sort(s, le) <==> x in s
  {
    SortPermutes(s, le);
    forall x ensures x in Sort(s, le) <==> x in s {
      assert x in Sort(s, le) <==> x in multiset(Sort(s, le));
      assert x in s <==> x in multiset(s);
    }
  }

  predicate Ties<T>(x: T, k: T, le: (T, T) -> bool) { le(x, k) && le(k, x) }

  /** The elements that tie with `k`, in their order. */
  function Tied<T>(s: seq<T>, k: T, le: (T, T) -> bool): seq<T> {
    if s == [] then []
    else if Ties(s[0], k, le) then [s[0]] + Tied(s[1..], k, le)
    else Tied(s[1..], k, le)
  }

  lemma TiedCons<T>(x: T, s: seq<T>, k: T, le: (T, T) -> bool)
    ensures Tied([x] + s, k, le) == (if Ties(x, k, le) then [x] else []) + Tied(s, k, le)
  {
    assert ([x] + s)[1..] == s;
  }

  lemma {:induction false} InsertBeforeTies<T(!new)>(x: T, s: seq<T>, le: (T, T) -> bool, k: T)
    requires TotalOrder(le) && Ordered(s, le)
    ensures Tied(Insert(x, s, le), k, le) == (if Ties(x, k, le) then [x] else []) + Tied(s, k, le)
  {
    if s == [] || le(x, s[0]) {
      assert [x] + s == Insert(x, s, le);
      TiedCons(x, s, k, le);
    } else {
      InsertBeforeTies(x, s[1..], le, k);
      TiedCons(s[0], Insert(x, s[1..], le), k, le);
      TiedCons(s[0], s[1..], k, le);
      assert s == [s[0]] + s[1..];
      assert Ties(x, k, le) ==> !Ties(s[0], k, le);
    }
  }

  /** The sort is stable: elements that tie keep their order. */
  lemma {:induction false} SortIsStable<T(!new)>(s: seq<T>, le: (T, T) -> bool, k: T)
    requires TotalOrder(le)
    ensures Tied(Sort(s, le), k, le) == Tied(s, k, le)
  {
    if s != [] {
      SortIsStable(s[1..], le, k);
      SortOrders(s[1..], le);
      InsertBeforeTies(s[0], Sort(s[1..], le), le, k);
    }
  }
}
