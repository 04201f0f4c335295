/** Maintenance windows and the SLA time they exclude (apps/heartbeat/models.py).
    Instants are integer seconds. */
module MaintenanceWindows {
  import opened Common
  import Sorting

  datatype Window = Window(monitorKey: string, start: int, end: int, excludeFromSla: bool)

  datatype Span = Span(start: int, end: int)

  /** Instant `t` lies in an SLA-excluded window of the monitor. */
  predicate Excluded(table: seq<Window>, key: string, t: int) {
    exists i | 0 <= i < |table| ::
      table[i].monitorKey == key && table[i].excludeFromSla && table[i].start <= t < table[i].end
  }

  // ----- the query: filter, then order by start -----

  predicate Selected(w: Window, lo: int, hi: int, key: string) {
    w.monitorKey == key && w.excludeFromSla && w.start < hi && w.end > lo
  }

  function Select(table: seq<Window>, lo: int, hi: int, key: string): seq<Window> {
    if table == [] then []
    else (if Selected(table[0], lo, hi, key) then [table[0]] else []) + Select(table[1..], lo, hi, key)
  }

  predicate NoLater(v: Window, w: Window) { v.start <= w.start }

  ghost predicate SortedByStart(rows: seq<Window>) {
    forall i, j | 0 <= i < j < |rows| :: rows[i].start <= rows[j].start
  }

  /** What `order_by("start")` may return: the selected windows in start order, those
      with equal starts in any order. */
  ghost predicate Lists(rows: seq<Window>, table: seq<Window>, lo: int, hi: int, key: string) {
    SortedByStart(rows) && multiset(rows) == multiset(Select(table, lo, hi, key))
  }

  /** One such listing, with equal starts in table order. */
  function QueryRows(table: seq<Window>, lo: int, hi: int, key: string): seq<Window> {
    Sorting.Sort(Select(table, lo, hi, key), NoLater)
  }

  lemma {:induction false} SelectMembers(table: seq<Window>, lo: int, hi: int, key: string)
    ensures forall w :: w in Select(table, lo, hi, key) <==> w in table && Selected(w, lo, hi, key)
  {
    if table != [] {
      SelectMembers(table[1..], lo, hi, key);
      assert table == [table[0]] + table[1..];
    }
  }

  lemma QueryRowsLists(table: seq<Window>, lo: int, hi: int, key: string)
    ensures Lists(QueryRows(table, lo, hi, key), table, lo, hi, key)
  {
    var rows := Select(table, lo, hi, key);
    assert Sorting.TotalOrder(NoLater);
    Sorting.SortOrders(rows, NoLater);
    Sorting.SortPermutes(rows, NoLater);
    var sorted := QueryRows(table, lo, hi, key);
    forall i, j | 0 <= i < j < |sorted| ensures sorted[i].start <= sorted[j].start {
      assert NoLater(sorted[i], sorted[j]);
    }
  }

  lemma ListedRows(rows: seq<Window>, table: seq<Window>, lo: int, hi: int, key: string)
    requires Lists(rows, table, lo, hi, key)
    ensures forall w :: w in rows <==> w in table && Selected(w, lo, hi, key)
  {
    SelectMembers(table, lo, hi, key);
    forall w ensures w in rows <==> w in Select(table, lo, hi, key) {
      assert w in rows <==> w in multiset(rows);
      assert w in Select(table, lo, hi, key) <==> w in multiset(Select(table, lo, hi, key));
    }
  }

  // ----- clipping and merging -----

  function Last<T>(s: seq<T>): T
    requires s != []
  {
    s[|s| - 1]
  }

  function ClipStart(w: Window, lo: int): int { Max(w.start, lo) }

  function ClipEnd(w: Window, hi: int): int { Min(w.end, hi) }

  function MergeStep(merged: seq<Span>, s: int, e: int): seq<Span> {
    if merged != [] && s <= Last(merged).end
    then merged[..|merged| - 1] + [Span(Last(merged).start, Max(Last(merged).end, e))]
    else merged + [Span(s, e)]
  }

  /** The merge of the rows, in the order the query returned them. */
  function Merge(rows: seq<Window>, lo: int, hi: int): seq<Span> {
    if rows == [] then []
    else MergeStep(Merge(rows[..|rows| - 1], lo, hi), ClipStart(Last(rows), lo), ClipEnd(Last(rows), hi))
  }

  function ExcludedRanges(table: seq<Window>, lo: int, hi: int, key: string): seq<Span> {
    Merge(QueryRows(table, lo, hi, key), lo, hi)
  }

  predicate InSpans(spans: seq<Span>, t: int) {
    exists i | 0 <= i < |spans| :: spans[i].start <= t < spans[i].end
  }

  ghost predicate SomeRowReaches(rows: seq<Window>, hi: int, s: int) {
    exists j | 0 <= j < |rows| :: s <= ClipEnd(rows[j], hi)
  }

  ghost predicate InRows(rows: seq<Window>, lo: int, hi: int, t: int) {
    exists j | 0 <= j < |rows| :: ClipStart(rows[j], lo) <= t < ClipEnd(rows[j], hi)
  }

  /** Sorted, strictly separated and inside the query range. */
  ghost predicate Separated(spans: seq<Span>, lo: int, hi: int) {
    && (forall i | 0 <= i < |spans| :: lo <= spans[i].start && spans[i].end <= hi)
    && (forall i, j | 0 <= i < j < |spans| :: spans[i].start <= spans[j].start && spans[i].end < spans[j].start)
  }

  /** What every pass of the merge loop keeps. */
  ghost predicate MergeInvariant(rows: seq<Window>, merged: seq<Span>, lo: int, hi: int) {
    && Separated(merged, lo, hi)
    && (rows == [] <==> merged == [])
    && (merged != [] ==> Last(merged).start <= ClipStart(Last(rows), lo))
    && (merged != [] ==> forall s | Last(merged).start <= s :: s <= Last(merged).end <==> SomeRowReaches(rows, hi, s))
    && (forall t :: InSpans(merged, t) <==> InRows(rows, lo, hi, t))
  }

  lemma MergeStepKeepsInvariant(rows: seq<Window>, w: Window, merged: seq<Span>, lo: int, hi: int)
    requires MergeInvariant(rows, merged, lo, hi)
    requires SortedByStart(rows + [w])
    ensures MergeInvariant(rows + [w], MergeStep(merged, ClipStart(w, lo), ClipEnd(w, hi)), lo, hi)
  {
    var s, e := ClipStart(w, lo), ClipEnd(w, hi);
    var all, next := rows + [w], MergeStep(merged, s, e);
    assert all[|rows|] == w;
    if merged != [] {
      assert Last(rows) == all[|rows| - 1];
      assert Last(merged).start <= s;
    }
    MergeStepSeparates(merged, s, e, lo, hi);
    forall x ensures SomeRowReaches(all, hi, x) <==> SomeRowReaches(rows, hi, x) || x <= e {
      ReachSnoc(rows, w, hi, x);
    }
    forall t ensures InSpans(next, t) <==> InRows(all, lo, hi, t) {
      InRowsSnoc(rows, w, lo, hi, t);
      MergeStepCovers(merged, s, e, t);
    }
  }

  lemma ReachSnoc(rows: seq<Window>, w: Window, hi: int, x: int)
    ensures SomeRowReaches(rows + [w], hi, x) <==> SomeRowReaches(rows, hi, x) || x <= ClipEnd(w, hi)
  {
    var all := rows + [w];
    assert all[|rows|] == w;
    if SomeRowReaches(rows, hi, x) {
      var j :| 0 <= j < |rows| && x <= ClipEnd(rows[j], hi);
      assert x <= ClipEnd(all[j], hi);
    }
  }

  lemma InRowsSnoc(rows: seq<Window>, w: Window, lo: int, hi: int, t: int)
    ensures InRows(rows + [w], lo, hi, t) <==> InRows(rows, lo, hi, t) || ClipStart(w, lo) <= t < ClipEnd(w, hi)
  {
    var all := rows + [w];
    assert all[|rows|] == w;
    if InRows(rows, lo, hi, t) {
      var j :| 0 <= j < |rows| && ClipStart(rows[j], lo) <= t < ClipEnd(rows[j], hi);
      assert ClipStart(all[j], lo) <= t < ClipEnd(all[j], hi);
    }
  }

  lemma MergeStepSeparates(merged: seq<Span>, s: int, e: int, lo: int, hi: int)
    requires Separated(merged, lo, hi) && lo <= s && e <= hi
    requires merged != [] ==> Last(merged).start <= s
    ensures Separated(MergeStep(merged, s, e), lo, hi)
  {
  }

  lemma MergeStepCovers(merged: seq<Span>, s: int, e: int, t: int)
    requires merged != [] ==> Last(merged).start <= s
    ensures InSpans(MergeStep(merged, s, e), t) <==> InSpans(merged, t) || s <= t < e
  {
    var next := MergeStep(merged, s, e);
    if InSpans(merged, t) {
      var i :| 0 <= i < |merged| && merged[i].start <= t < merged[i].end;
      assert next[i].start <= t < next[i].end;
    }
    if s <= t < e {
      assert Last(next).start <= t < Last(next).end;
    }
    if InSpans(next, t) {
      var i :| 0 <= i < |next| && next[i].start <= t < next[i].end;
      if i < |next| - 1 {
        assert merged[i] == next[i];
      } else if |next| == |merged| && t < Last(merged).end {
        assert Last(merged).start <= t < Last(merged).end;
      }
    }
  }

  lemma {:induction false} MergeHoldsInvariant(rows: seq<Window>, lo: int, hi: int)
    requires SortedByStart(rows)
    ensures MergeInvariant(rows, Merge(rows, lo, hi), lo, hi)
  {
    if rows != [] {
      var front := rows[..|rows| - 1];
      MergeHoldsInvariant(front, lo, hi);
      assert front + [Last(rows)] == rows;
      MergeStepKeepsInvariant(front, Last(rows), Merge(front, lo, hi), lo, hi);
    }
  }

  /** One more row is one more step. */
  lemma MergeNext(rows: seq<Window>, i: nat, lo: int, hi: int)
    requires i < |rows|
    ensures Merge(rows[..i + 1], lo, hi)
         == MergeStep(Merge(rows[..i], lo, hi), Max(rows[i].start, lo), Min(rows[i].end, hi))
  {
    assert rows[..i + 1][..i] == rows[..i];
  }

  /** The rows the query returned, merged in one pass that overwrites the last range. */
  method MergeRows(rows: seq<Window>, lo: int, hi: int) returns (merged: seq<Span>)
    ensures merged == Merge(rows, lo, hi)
  {
    merged := [];
    for i := 0 to |rows|
      invariant merged == Merge(rows[..i], lo, hi)
    {
      MergeNext(rows, i, lo, hi);
      var s := Max(rows[i].start, lo);
      var e := Min(rows[i].end, hi);
      if merged != [] && s <= merged[|merged| - 1].end {
        var last := merged[|merged| - 1];
        merged := merged[..|merged| - 1] + [Span(last.start, Max(last.end, e))];
      } else {
        merged := merged + [Span(s, e)];
      }
    }
    assert rows[..|rows|] == rows;
  }

  method GetExcludedRanges(table: seq<Window>, lo: int, hi: int, key: string) returns (merged: seq<Span>)
    ensures merged == ExcludedRanges(table, lo, hi, key)
    ensures Separated(merged, lo, hi)
    ensures forall t :: InSpans(merged, t) <==> lo <= t < hi && Excluded(table, key, t)
  {
    merged := MergeRows(QueryRows(table, lo, hi, key), lo, hi);
    ExcludedRangesCoverage(table, lo, hi, key);
  }

  /** In whatever order equal starts are returned, the merged ranges are sorted,
      strictly separated and clipped, and cover an instant exactly when some
      SLA-excluded window does. */
  lemma ListingCoverage(rows: seq<Window>, table: seq<Window>, lo: int, hi: int, key: string)
    requires Lists(rows, table, lo, hi, key)
    ensures Separated(Merge(rows, lo, hi), lo, hi)
    ensures forall t :: InSpans(Merge(rows, lo, hi), t) <==> lo <= t < hi && Excluded(table, key, t)
  {
    ListedRows(rows, table, lo, hi, key);
    MergeHoldsInvariant(rows, lo, hi);
    forall t ensures InRows(rows, lo, hi, t) <==> lo <= t < hi && Excluded(table, key, t) {
      RowsAreExcludingWindows(table, rows, lo, hi, key, t);
    }
  }

  lemma ExcludedRangesCoverage(table: seq<Window>, lo: int, hi: int, key: string)
    ensures Separated(ExcludedRanges(table, lo, hi, key), lo, hi)
    ensures forall t :: InSpans(ExcludedRanges(table, lo, hi, key), t) <==> lo <= t < hi && Excluded(table, key, t)
  {
    QueryRowsLists(table, lo, hi, key);
    ListingCoverage(QueryRows(table, lo, hi, key), table, lo, hi, key);
  }

  lemma RowsAreExcludingWindows(table: seq<Window>, rows: seq<Window>, lo: int, hi: int, key: string, t: int)
    requires forall w :: w in rows <==> w in table && Selected(w, lo, hi, key)
    ensures InRows(rows, lo, hi, t) <==> lo <= t < hi && Excluded(table, key, t)
  {
    if InRows(rows, lo, hi, t) {
      var j :| 0 <= j < |rows| && ClipStart(rows[j], lo) <= t < ClipEnd(rows[j], hi);
      assert rows[j] in rows;
    }
    if lo <= t < hi && Excluded(table, key, t) {
      var i :| 0 <= i < |table| && table[i].monitorKey == key && table[i].excludeFromSla && table[i].start <= t < table[i].end;
      assert table[i] in rows;
      var j :| 0 <= j < |rows| && rows[j] == table[i];
      assert ClipStart(rows[j], lo) <= t < ClipEnd(rows[j], hi);
    }
  }

  // ----- excluded seconds -----

  function SumSpans(spans: seq<Span>): int {
    if spans == [] then 0 else SumSpans(spans[..|spans| - 1]) + Last(spans).end - Last(spans).start
  }

  function ExcludedSeconds(table: seq<Window>, lo: int, hi: int, key: string): int {
    SumSpans(ExcludedRanges(table, lo, hi, key))
  }

  /** The size of the union of the SLA-excluded windows inside [lo, hi). */
  ghost function UnionSeconds(table: seq<Window>, lo: int, hi: int, key: string): nat {
    Count(t => Excluded(table, key, t), lo, hi)
  }

  ghost function Deficit(spans: seq<Span>): nat {
    if spans == [] then 0
    else Deficit(spans[..|spans| - 1]) + (if Last(spans).end < Last(spans).start then Last(spans).start - Last(spans).end else 0)
  }

  lemma LastSpanIsNew(spans: seq<Span>, lo: int, hi: int, t: int)
    requires spans != [] && Separated(spans, lo, hi)
    ensures InSpans(spans, t) <==> InSpans(spans[..|spans| - 1], t) || Last(spans).start <= t < Last(spans).end
    ensures Last(spans).start <= t ==> !InSpans(spans[..|spans| - 1], t)
  {
    var front := spans[..|spans| - 1];
    if InSpans(front, t) {
      var i :| 0 <= i < |front| && front[i].start <= t < front[i].end;
      assert spans[i] == front[i];
    }
    if InSpans(spans, t) && !(Last(spans).start <= t < Last(spans).end) {
      var i :| 0 <= i < |spans| && spans[i].start <= t < spans[i].end;
      assert front[i] == spans[i];
    }
  }

  /** Backwards spans cover nothing yet subtract their length from the sum. */
  lemma {:induction false} SumIsCountLessDeficit(spans: seq<Span>, lo: int, hi: int)
    requires Separated(spans, lo, hi) && lo <= hi
    ensures SumSpans(spans) == Count(t => InSpans(spans, t), lo, hi) - Deficit(spans)
  {
    var all := t => InSpans(spans, t);
    if spans == [] {
      CountInterval(all, lo, lo, lo, hi);
    } else {
      var front, last := spans[..|spans| - 1], Last(spans);
      var before := t => InSpans(front, t);
      SumIsCountLessDeficit(front, lo, hi);
      forall t
        ensures all(t) <==> before(t) || last.start <= t < last.end
        ensures last.start <= t ==> !before(t)
      {
        LastSpanIsNew(spans, lo, hi, t);
      }
      if last.end < last.start {
        CountCongruence(all, before, lo, hi);
      } else {
        CountAround(all, before, lo, last.start, last.end, hi);
      }
    }
  }

  /** Adding a span beyond everything counted so far adds its length. */
  lemma CountAround(all: int -> bool, before: int -> bool, lo: int, s: int, e: int, hi: int)
    requires lo <= s <= e <= hi
    requires forall t :: all(t) <==> before(t) || s <= t < e
    requires forall t | s <= t :: !before(t)
    ensures Count(all, lo, hi) == Count(before, lo, hi) + e - s
  {
    CountSplit(all, lo, s, hi);
    CountSplit(before, lo, s, hi);
    CountCongruence(all, before, lo, s);
    CountInterval(all, s, s, e, hi);
    CountInterval(before, s, s, s, hi);
  }

  /** Every window that ends before it starts begins no later than the end of
      a window the query returned before it. */
  ghost predicate BackwardsWindowsAbsorbed(rows: seq<Window>) {
    forall i | 0 <= i < |rows| && rows[i].end < rows[i].start :: AbsorbedBy(rows[..i], rows[i].start)
  }

  ghost predicate AbsorbedBy(earlier: seq<Window>, s: int) {
    exists j | 0 <= j < |earlier| :: s <= earlier[j].end
  }

  lemma DeficitStep(merged: seq<Span>, s: int, e: int)
    requires merged != [] ==> Last(merged).start <= s
    ensures Deficit(MergeStep(merged, s, e)) == Deficit(merged)
              + (if (merged == [] || Last(merged).end < s) && e < s then s - e else 0)
  {
    var next := MergeStep(merged, s, e);
    assert next[..|next| - 1] == if merged != [] && s <= Last(merged).end then merged[..|merged| - 1] else merged;
  }

  lemma AbsorbedSnoc(front: seq<Window>, w: Window)
    ensures BackwardsWindowsAbsorbed(front + [w])
            <==> BackwardsWindowsAbsorbed(front) && (w.end < w.start ==> AbsorbedBy(front, w.start))
  {
    var rows := front + [w];
    assert forall i | 0 <= i < |front| :: rows[i] == front[i] && rows[..i] == front[..i];
    assert rows[|front|] == w && rows[..|front|] == front;
  }

  lemma {:induction false} DeficitWhenNotAbsorbed(rows: seq<Window>, lo: int, hi: int)
    requires lo <= hi && SortedByStart(rows)
    requires forall w | w in rows :: w.start < hi && lo < w.end
    ensures Deficit(Merge(rows, lo, hi)) == 0 <==> BackwardsWindowsAbsorbed(rows)
  {
    if rows != [] {
      var front, w := rows[..|rows| - 1], Last(rows);
      assert rows == front + [w];
      DeficitWhenNotAbsorbed(front, lo, hi);
      LastRangeReaches(front, w, lo, hi);
      AbsorbedSnoc(front, w);
      DeficitStep(Merge(front, lo, hi), ClipStart(w, lo), ClipEnd(w, hi));
      if w.end < w.start {
        ReachingIsAbsorbing(front, hi, w.start);
      }
    }
  }

  lemma LastRangeReaches(front: seq<Window>, w: Window, lo: int, hi: int)
    requires SortedByStart(front + [w])
    ensures var merged, s := Merge(front, lo, hi), ClipStart(w, lo);
      if merged == [] then !SomeRowReaches(front, hi, s)
      else Last(merged).start <= s && (s <= Last(merged).end <==> SomeRowReaches(front, hi, s))
  {
    assert forall i | 0 <= i < |front| :: (front + [w])[i] == front[i];
    MergeHoldsInvariant(front, lo, hi);
    if front != [] {
      assert (front + [w])[|front| - 1] == Last(front) && (front + [w])[|front|] == w;
    }
  }

  lemma ReachingIsAbsorbing(rows: seq<Window>, hi: int, s: int)
    requires s <= hi
    ensures SomeRowReaches(rows, hi, s) <==> AbsorbedBy(rows, s)
  {
    if AbsorbedBy(rows, s) {
      var j :| 0 <= j < |rows| && s <= rows[j].end;
      assert s <= ClipEnd(rows[j], hi);
    }
  }

  /** For any listing the excluded seconds equal the size of the union exactly when
      every backwards window is absorbed by a row returned before it. */
  lemma ListingSecondsAreUnion(rows: seq<Window>, table: seq<Window>, lo: int, hi: int, key: string)
    requires lo <= hi && Lists(rows, table, lo, hi, key)
    ensures SumSpans(Merge(rows, lo, hi)) == UnionSeconds(table, lo, hi, key) <==> BackwardsWindowsAbsorbed(rows)
    ensures SumSpans(Merge(rows, lo, hi)) <= UnionSeconds(table, lo, hi, key) <= hi - lo
  {
    var spans := Merge(rows, lo, hi);
    ListedRows(rows, table, lo, hi, key);
    ListingCoverage(rows, table, lo, hi, key);
    SumIsCountLessDeficit(spans, lo, hi);
    CountCongruence(t => InSpans(spans, t), t => Excluded(table, key, t), lo, hi);
    CountAtMost(t => Excluded(table, key, t), lo, hi);
    DeficitWhenNotAbsorbed(rows, lo, hi);
  }

  lemma ExcludedSecondsAreUnion(table: seq<Window>, lo: int, hi: int, key: string)
    requires lo <= hi
    ensures ExcludedSeconds(table, lo, hi, key) == UnionSeconds(table, lo, hi, key)
            <==> BackwardsWindowsAbsorbed(QueryRows(table, lo, hi, key))
    ensures ExcludedSeconds(table, lo, hi, key) <= UnionSeconds(table, lo, hi, key) <= hi - lo
  {
    QueryRowsLists(table, lo, hi, key);
    ListingSecondsAreUnion(QueryRows(table, lo, hi, key), table, lo, hi, key);
  }

  /** A selected window that starts strictly before `w` reaches its start. */
  ghost predicate AbsorbedEarlier(selected: seq<Window>, w: Window) {
    exists v | v in selected :: v.start < w.start <= v.end
  }

  /** `w` before the other windows that start with it. */
  predicate FirstOfTies(w: Window, a: Window, b: Window) {
    a.start < b.start || (a.start == b.start && (a == w || b != w))
  }

  lemma FirstOfTiesIsTotal(w: Window, le: (Window, Window) -> bool)
    requires forall a, b :: le(a, b) <==> FirstOfTies(w, a, b)
    ensures Sorting.TotalOrder(le)
  {
  }

  /** Some listing returns `w` before its ties. */
  lemma ListingWithFirst(selected: seq<Window>, w: Window) returns (rows: seq<Window>, i: nat)
    requires w in selected
    ensures multiset(rows) == multiset(selected) && SortedByStart(rows)
    ensures i < |rows| && rows[i] == w && forall j | 0 <= j < i :: rows[j] == w || rows[j].start < w.start
  {
    var le := (a: Window, b: Window) => FirstOfTies(w, a, b);
    FirstOfTiesIsTotal(w, le);
    rows := Sorting.Sort(selected, le);
    Sorting.SortOrders(selected, le);
    Sorting.SortPermutes(selected, le);
    Sorting.SortKeepsElements(selected, le);
    i :| 0 <= i < |rows| && rows[i] == w;
    forall j, k | 0 <= j < k < |rows| ensures FirstOfTies(w, rows[j], rows[k]) {
      assert le(rows[j], rows[k]);
    }
  }

  /** Where that listing puts it, nothing absorbs it. */
  lemma UnabsorbedListing(table: seq<Window>, lo: int, hi: int, key: string, w: Window) returns (rows: seq<Window>)
    requires w in Select(table, lo, hi, key) && w.end < w.start && !AbsorbedEarlier(Select(table, lo, hi, key), w)
    ensures Lists(rows, table, lo, hi, key) && !BackwardsWindowsAbsorbed(rows)
  {
    var selected := Select(table, lo, hi, key);
    var i;
    rows, i := ListingWithFirst(selected, w);
    forall j | 0 <= j < i ensures rows[..i][j].end < w.start {
      assert rows[j] in multiset(selected);
      assert rows[j] in selected;
    }
  }

  /** Every order of ties gives the size of the union exactly when every backwards
      window is absorbed by a window that starts strictly earlier. */
  lemma EveryListingIsUnion(table: seq<Window>, lo: int, hi: int, key: string)
    requires lo <= hi
    ensures (forall rows | Lists(rows, table, lo, hi, key) ::
               SumSpans(Merge(rows, lo, hi)) == UnionSeconds(table, lo, hi, key))
            <==> (forall w | w in Select(table, lo, hi, key) && w.end < w.start ::
                    AbsorbedEarlier(Select(table, lo, hi, key), w))
  {
    var selected := Select(table, lo, hi, key);
    if w :| w in selected && w.end < w.start && !AbsorbedEarlier(selected, w) {
      var rows := UnabsorbedListing(table, lo, hi, key, w);
      ListingSecondsAreUnion(rows, table, lo, hi, key);
    } else {
      forall rows | Lists(rows, table, lo, hi, key)
        ensures SumSpans(Merge(rows, lo, hi)) == UnionSeconds(table, lo, hi, key)
      {
        EarlierStartsAbsorb(rows, table, lo, hi, key);
        ListingSecondsAreUnion(rows, table, lo, hi, key);
      }
    }
  }

  lemma EarlierStartsAbsorb(rows: seq<Window>, table: seq<Window>, lo: int, hi: int, key: string)
    requires Lists(rows, table, lo, hi, key)
    requires forall w | w in Select(table, lo, hi, key) && w.end < w.start :: AbsorbedEarlier(Select(table, lo, hi, key), w)
    ensures BackwardsWindowsAbsorbed(rows)
  {
    var selected := Select(table, lo, hi, key);
    ListedRows(rows, table, lo, hi, key);
    SelectMembers(table, lo, hi, key);
    forall i | 0 <= i < |rows| && rows[i].end < rows[i].start ensures AbsorbedBy(rows[..i], rows[i].start) {
      assert rows[i] in rows;
      assert rows[i] in selected;
      var v :| v in selected && v.start < rows[i].start <= v.end;
      var j :| 0 <= j < |rows| && rows[j] == v;
      assert j < i && rows[..i][j] == v;
    }
  }

  lemma BothListings(f: Window, b: Window, table: seq<Window>)
    requires f == Window("site", 50, 60, true) && b == Window("site", 50, 40, true) && table == [f, b]
    ensures Lists([f, b], table, 0, 100, "site") && Lists([b, f], table, 0, 100, "site")
  {
    assert table[1..] == [b] && [b][1..] == [];
    assert Select([b], 0, 100, "site") == [b];
    assert Select(table, 0, 100, "site") == [f, b];
    assert multiset([b, f]) == multiset([f, b]);
  }

  /** The order of ties matters: one listing of the same two windows counts their
      union, the other nothing. */
  lemma TieOrderMatters()
    ensures var forwards, backwards := Window("site", 50, 60, true), Window("site", 50, 40, true);
      var table := [forwards, backwards];
      && Lists([forwards, backwards], table, 0, 100, "site")
      && Lists([backwards, forwards], table, 0, 100, "site")
      && SumSpans(Merge([forwards, backwards], 0, 100)) == 10
      && SumSpans(Merge([backwards, forwards], 0, 100)) == 0
  {
    var f, b := Window("site", 50, 60, true), Window("site", 50, 40, true);
    BothListings(f, b, [f, b]);
    MergeOfTwo(f, b);
    MergeOfTwo(b, f);
    SumOfTwo([], Span(50, 60));
    SumOfTwo([], Span(50, 40));
    SumOfTwo([Span(50, 40)], Span(50, 60));
    assert [] + [Span(50, 60)] == [Span(50, 60)] && [] + [Span(50, 40)] == [Span(50, 40)];
    assert [Span(50, 40)] + [Span(50, 60)] == [Span(50, 40), Span(50, 60)];
  }

  lemma MergeOfTwo(v: Window, w: Window)
    ensures Merge([v, w], 0, 100)
         == MergeStep([Span(ClipStart(v, 0), ClipEnd(v, 100))], ClipStart(w, 0), ClipEnd(w, 100))
  {
    assert [v, w][..1] == [v] && [v][..0] == [];
    assert Merge([v][..0], 0, 100) == [];
  }

  lemma SumOfTwo(front: seq<Span>, last: Span)
    ensures SumSpans(front + [last]) == SumSpans(front) + last.end - last.start
  {
    assert (front + [last])[..|front|] == front;
  }

  lemma {:induction false} CountAtMost(p: int -> bool, lo: int, hi: int)
    requires lo <= hi
    ensures Count(p, lo, hi) <= hi - lo
    decreases hi - lo
  {
    if lo < hi {
      CountAtMost(p, lo, hi - 1);
    }
  }

  ghost predicate WellFormedWindows(table: seq<Window>) {
    forall w | w in table :: w.start <= w.end
  }

  /** Splitting a range at any point splits its excluded seconds. */
  lemma ExcludedSecondsAdditive(table: seq<Window>, lo: int, mid: int, hi: int, key: string)
    requires WellFormedWindows(table) && lo <= mid <= hi
    ensures ExcludedSeconds(table, lo, hi, key)
         == ExcludedSeconds(table, lo, mid, key) + ExcludedSeconds(table, mid, hi, key)
  {
    ProperWindowsNeedNoAbsorbing(table, lo, hi, key);
    ProperWindowsNeedNoAbsorbing(table, lo, mid, key);
    ProperWindowsNeedNoAbsorbing(table, mid, hi, key);
    ExcludedSecondsAreUnion(table, lo, hi, key);
    ExcludedSecondsAreUnion(table, lo, mid, key);
    ExcludedSecondsAreUnion(table, mid, hi, key);
    CountSplit(t => Excluded(table, key, t), lo, mid, hi);
  }

  lemma ProperWindowsNeedNoAbsorbing(table: seq<Window>, lo: int, hi: int, key: string)
    requires WellFormedWindows(table)
    ensures BackwardsWindowsAbsorbed(QueryRows(table, lo, hi, key))
  {
    var rows := QueryRows(table, lo, hi, key);
    QueryRowsLists(table, lo, hi, key);
    ListedRows(rows, table, lo, hi, key);
    forall i | 0 <= i < |rows| ensures rows[i].start <= rows[i].end {
      assert rows[i] in rows;
    }
  }

  /** A lone backwards window makes the excluded time negative. */
  lemma BackwardsWindowCountsNegative()
    ensures var table := [Window("site", 50, 40, true)];
      ExcludedSeconds(table, 0, 100, "site") == -10 && UnionSeconds(table, 0, 100, "site") == 0
  {
    var w := Window("site", 50, 40, true);
    var table := [w];
    assert Select(table[1..], 0, 100, "site") == [];
    assert Select(table, 0, 100, "site") == [w];
    assert Sorting.Sort([w][1..], NoLater) == [];
    assert QueryRows(table, 0, 100, "site") == [w];
    assert Merge([w][..0], 0, 100) == [];
    assert Merge([w], 0, 100) == [Span(50, 40)];
    assert SumSpans([Span(50, 40)][..0]) == 0;
    CountInterval(t => Excluded(table, "site", t), 0, 0, 0, 100);
  }
}
