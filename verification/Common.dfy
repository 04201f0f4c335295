/** Small value types and counting facts shared by the models. */
module Common {
  datatype Option<+T> = None | Some(value: T)

  function Max(a: int, b: int): int { if a < b then b else a }

  function Min(a: int, b: int): int { if b < a then b else a }

  /** How many integers of [lo, hi) satisfy `p`. */
  ghost function Count(p: int -> bool, lo: int, hi: int): nat
    decreases hi - lo
  {
    if hi <= lo then 0 else Count(p, lo, hi - 1) + (if p(hi - 1) then 1 else 0)
  }

  lemma {:induction false} CountSplit(p: int -> bool, lo: int, mid: int, hi: int)
    requires lo <= mid <= hi
    ensures Count(p, lo, hi) == Count(p, lo, mid) + Count(p, mid, hi)
    decreases hi - mid
  {
    if mid < hi {
      CountSplit(p, lo, mid, hi - 1);
    }
  }

  lemma {:induction false} CountCongruence(p: int -> bool, q: int -> bool, lo: int, hi: int)
    requires forall t | lo <= t < hi :: p(t) == q(t)
    ensures Count(p, lo, hi) == Count(q, lo, hi)
    decreases hi - lo
  {
    if lo < hi {
      CountCongruence(p, q, lo, hi - 1);
    }
  }

  lemma {:induction false} CountInterval(p: int -> bool, lo: int, a: int, b: int, hi: int)
    requires lo <= a <= b <= hi
    requires forall t | lo <= t < hi :: p(t) <==> a <= t < b
    ensures Count(p, lo, hi) == b - a
    decreases hi - lo
  {
    if lo < hi {
      if b == hi {
        if a == hi {
          CountInterval(p, lo, a - 1, a - 1, hi - 1);
        } else {
          CountInterval(p, lo, a, b - 1, hi - 1);
        }
      } else {
        CountInterval(p, lo, a, b, hi - 1);
      }
    }
  }

  /** A finite set splits by any property into two disjoint parts. */
  lemma CardinalitySplit<T>(s: set<T>, a: set<T>, b: set<T>)
    requires s == a + b && a !! b
    ensures |s| == |a| + |b|
  {
    assert b == s - a;
  }

  lemma CardinalityMinus<T>(s: set<T>, removed: set<T>)
    ensures |s| == |s * removed| + |s - removed|
  {
    assert s == (s * removed) + (s - removed);
  }
}
