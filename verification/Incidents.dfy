/** Collapsing failed beats into incidents for the status feed (apps/heartbeat/feeds.py). */
module Incidents {
  import opened Common
  import Sorting

  /** A gap longer than this ends one incident and starts the next, in seconds. */
  const GAP := 300

  /** A failed beat; monitors are numbered in the order of their keys. */
  datatype Fail = Fail(monitor: int, ts: int, note: string)

  /** The state of one incident record. */
  datatype Outage = Outage(monitor: int, started: int, ended: int, note: string, beats: nat)

  // ----- the query -----

  datatype Beat = Beat(monitor: int, ts: int, failed: bool, note: string)

  function FailsSince(beats: seq<Beat>, since: int): seq<Fail> {
    if beats == [] then []
    else
      var b := beats[0];
      (if b.failed && b.ts >= since then [Fail(b.monitor, b.ts, b.note)] else []) + FailsSince(beats[1..], since)
  }

  predicate InOrder(f: Fail, g: Fail) { f.monitor < g.monitor || (f.monitor == g.monitor && f.ts <= g.ts) }

  function Query(beats: seq<Beat>, since: int): seq<Fail> {
    Sorting.Sort(FailsSince(beats, since), InOrder)
  }

  // ----- one pass over the failures -----

  function Opening(f: Fail): Outage {
    Outage(f.monitor, f.ts, f.ts, if f.note == "" then "Check failed" else f.note, 1)
  }

  function Extend(o: Outage, f: Fail): Outage {
    o.(ended := f.ts, beats := o.beats + 1, note := if f.note == "" then o.note else f.note)
  }

  predicate Continues(outages: seq<Outage>, f: Fail) {
    outages != [] && f.monitor == outages[|outages| - 1].monitor && f.ts - outages[|outages| - 1].ended <= GAP
  }

  /** One more failure: it extends the newest outage or opens another. */
  function CollapseStep(before: seq<Outage>, f: Fail): seq<Outage> {
    if Continues(before, f) then before[|before| - 1 := Extend(before[|before| - 1], f)] else before + [Opening(f)]
  }

  function Collapse(fails: seq<Fail>): seq<Outage> {
    if fails == [] then [] else CollapseStep(Collapse(fails[..|fails| - 1]), fails[|fails| - 1])
  }

  predicate NewestFirst(a: Outage, b: Outage) { a.started >= b.started }

  function Recent(beats: seq<Beat>, since: int, limit: nat): seq<Outage> {
    var sorted := Sorting.Sort(Collapse(Query(beats, since)), NewestFirst);
    if limit <= |sorted| then sorted[..limit] else sorted
  }

  /** An incident under construction: changed in place while it is the newest. */
  class Incident {
    const monitor: int
    const started: int
    var ended: int
    var note: string
    var beats: nat

    constructor (f: Fail)
      ensures View() == Opening(f)
    {
      monitor, started, ended, beats := f.monitor, f.ts, f.ts, 1;
      note := if f.note == "" then "Check failed" else f.note;
    }

    method Absorb(f: Fail)
      modifies this
      ensures View() == Extend(old(View()), f)
    {
      ended := f.ts;
      beats := beats + 1;
      if f.note != "" {
        note := f.note;
      }
    }

    function View(): Outage
      reads this
    {
      Outage(monitor, started, ended, note, beats)
    }
  }

  function Views(incidents: seq<Incident>): seq<Outage>
    reads incidents
  {
    seq(|incidents|, i requires 0 <= i < |incidents| reads incidents => incidents[i].View())
  }

  predicate Distinct(incidents: seq<Incident>) {
    forall i, j | 0 <= i < j < |incidents| :: incidents[i] != incidents[j]
  }

  lemma CollapseNext(fails: seq<Fail>, n: nat)
    requires n < |fails|
    ensures Collapse(fails[..n + 1]) == CollapseStep(Collapse(fails[..n]), fails[n])
  {
    assert fails[..n + 1][..n] == fails[..n];
  }

  function Newest(incidents: seq<Incident>): Incident? {
    if incidents == [] then null else incidents[|incidents| - 1]
  }

  /** One pass: the failure goes into the newest incident or opens another. */
  method TakeFail(incidents: seq<Incident>, current: Incident?, f: Fail) returns (grown: seq<Incident>)
    requires Distinct(incidents) && current == Newest(incidents)
    modifies if current == null then {} else {current}
    ensures Distinct(grown) && forall x | x in grown :: x in incidents || fresh(x)
    ensures Views(grown) == CollapseStep(old(Views(incidents)), f)
  {
    grown := incidents;
    ghost var before := Views(incidents);
    if current != null && f.monitor == current.monitor && f.ts - current.ended <= GAP {
      current.Absorb(f);
      assert Views(grown) == before[|before| - 1 := Extend(before[|before| - 1], f)];
    } else {
      var another := new Incident(f);
      grown := incidents + [another];
      assert Views(grown) == before + [Opening(f)];
    }
  }

  method CollapseFails(fails: seq<Fail>) returns (incidents: seq<Incident>)
    ensures Distinct(incidents) && forall x | x in incidents :: fresh(x)
    ensures Views(incidents) == Collapse(fails)
  {
    incidents := [];
    for n := 0 to |fails|
      invariant Distinct(incidents) && forall x | x in incidents :: fresh(x)
      invariant Views(incidents) == Collapse(fails[..n])
    {
      CollapseNext(fails, n);
      var current := Newest(incidents);
      assert current != null ==> current in incidents;
      incidents := TakeFail(incidents, current, fails[n]);
    }
    assert fails[..|fails|] == fails;
  }

  method InsertByStart(x: Incident, sorted: seq<Incident>) returns (r: seq<Incident>)
    ensures Views(r) == Sorting.Insert(x.View(), Views(sorted), NewestFirst)
  {
    var k := 0;
    while k < |sorted| && x.started < sorted[k].started
      invariant 0 <= k <= |sorted|
      invariant forall j | 0 <= j < k :: x.started < sorted[j].started
      decreases |sorted| - k
    {
      k := k + 1;
    }
    r := sorted[..k] + [x] + sorted[k..];
    InsertPlace(x.View(), Views(sorted), k);
    assert Views(r) == Views(sorted)[..k] + [x.View()] + Views(sorted)[k..];
  }

  lemma {:induction false} InsertPlace(x: Outage, s: seq<Outage>, k: nat)
    requires k <= |s| && (forall j | 0 <= j < k :: !NewestFirst(x, s[j])) && (k < |s| ==> NewestFirst(x, s[k]))
    ensures Sorting.Insert(x, s, NewestFirst) == s[..k] + [x] + s[k..]
  {
    if k > 0 {
      InsertPlace(x, s[1..], k - 1);
      assert s[..k] == [s[0]] + s[1..][..k - 1];
      assert s[1..][k - 1..] == s[k..];
    }
  }

  method SortNewestFirst(incidents: seq<Incident>) returns (sorted: seq<Incident>)
    ensures Views(sorted) == Sorting.Sort(Views(incidents), NewestFirst)
  {
    ghost var views := Views(incidents);
    sorted := [];
    var n := |incidents|;
    while n > 0
      invariant 0 <= n <= |incidents|
      invariant Views(sorted) == Sorting.Sort(views[n..], NewestFirst)
    {
      n := n - 1;
      assert views[n..][0] == incidents[n].View() && views[n..][1..] == views[n + 1..];
      sorted := InsertByStart(incidents[n], sorted);
    }
    assert views[0..] == views;
  }

  method RecentIncidents(beats: seq<Beat>, since: int, limit: nat) returns (r: seq<Incident>)
    ensures Views(r) == Recent(beats, since, limit)
  {
    var incidents := CollapseFails(Query(beats, since));
    var sorted := SortNewestFirst(incidents);
    r := Firsts(sorted, limit);
  }

  method Firsts(sorted: seq<Incident>, limit: nat) returns (r: seq<Incident>)
    ensures Views(r) == if limit <= |Views(sorted)| then Views(sorted)[..limit] else Views(sorted)
  {
    r := if limit <= |sorted| then sorted[..limit] else sorted;
    assert |Views(sorted)| == |sorted|;
  }

  // ----- the unique decomposition into maximal runs -----

  /** `g` belongs to the same outage as its predecessor `f`. */
  predicate Joins(f: Fail, g: Fail) { f.monitor == g.monitor && g.ts - f.ts <= GAP }

  /** A run of failures in which each joins the one before. */
  predicate IsRun(run: seq<Fail>) {
    run != [] && forall i | 0 < i < |run| :: Joins(run[i - 1], run[i])
  }

  function Flatten(runs: seq<seq<Fail>>): seq<Fail> {
    if runs == [] then [] else Flatten(runs[..|runs| - 1]) + runs[|runs| - 1]
  }

  function Last(run: seq<Fail>): Fail
    requires run != []
  {
    run[|run| - 1]
  }

  /** Cutting `fails` into runs that cannot be made longer. */
  predicate MaximalRuns(runs: seq<seq<Fail>>, fails: seq<Fail>) {
    && Flatten(runs) == fails
    && (forall r | r in runs :: IsRun(r))
    && (forall i | 0 < i < |runs| && runs[i - 1] != [] && runs[i] != [] :: !Joins(Last(runs[i - 1]), runs[i][0]))
  }

  /** The last note given in a run, or the fallback. */
  function NoteOf(run: seq<Fail>): string {
    if run == [] then "Check failed"
    else if Last(run).note != "" then Last(run).note
    else NoteOf(run[..|run| - 1])
  }

  function Summary(run: seq<Fail>): Outage
    requires run != []
  {
    Outage(run[0].monitor, run[0].ts, Last(run).ts, NoteOf(run), |run|)
  }

  function Split(fails: seq<Fail>): seq<seq<Fail>> {
    if fails == [] then []
    else
      var runs, f := Split(fails[..|fails| - 1]), Last(fails);
      if runs != [] && runs[|runs| - 1] != [] && Joins(Last(runs[|runs| - 1]), f)
      then runs[|runs| - 1 := runs[|runs| - 1] + [f]]
      else runs + [[f]]
  }

  lemma FlattenExtend(runs: seq<seq<Fail>>, f: Fail)
    requires runs != []
    ensures Flatten(runs[|runs| - 1 := runs[|runs| - 1] + [f]]) == Flatten(runs) + [f]
  {
    var n := |runs| - 1;
    assert runs[n := runs[n] + [f]][..n] == runs[..n];
  }

  lemma ExtendMaximal(runs: seq<seq<Fail>>, fails: seq<Fail>, f: Fail)
    requires MaximalRuns(runs, fails) && runs != [] && runs[|runs| - 1] != [] && Joins(Last(runs[|runs| - 1]), f)
    ensures MaximalRuns(runs[|runs| - 1 := runs[|runs| - 1] + [f]], fails + [f])
  {
    var n := |runs| - 1;
    var longer := runs[n] + [f];
    var after := runs[n := longer];
    FlattenExtend(runs, f);
    assert runs[n] in runs;
    assert IsRun(longer);
    assert forall r | r in after :: r == longer || r in runs;
    assert longer[0] == runs[n][0];
  }

  lemma OpenMaximal(runs: seq<seq<Fail>>, fails: seq<Fail>, f: Fail)
    requires MaximalRuns(runs, fails)
    requires runs == [] || runs[|runs| - 1] == [] || !Joins(Last(runs[|runs| - 1]), f)
    ensures MaximalRuns(runs + [[f]], fails + [f])
  {
    var after := runs + [[f]];
    assert after[..|runs|] == runs;
    assert IsRun([f]);
    assert forall r | r in after :: r == [f] || r in runs;
  }

  lemma {:induction false} SplitIsMaximal(fails: seq<Fail>)
    ensures MaximalRuns(Split(fails), fails)
  {
    if fails != [] {
      var n := |fails| - 1;
      var runs, f := Split(fails[..n]), fails[n];
      SplitIsMaximal(fails[..n]);
      assert fails == fails[..n] + [f];
      if runs != [] && runs[|runs| - 1] != [] && Joins(Last(runs[|runs| - 1]), f) {
        ExtendMaximal(runs, fails[..n], f);
      } else {
        OpenMaximal(runs, fails[..n], f);
      }
    }
  }

  lemma RunsHoldFailures(runs: seq<seq<Fail>>)
    requires runs != [] && forall r | r in runs :: IsRun(r)
    ensures Flatten(runs) != []
  {
    assert runs[|runs| - 1] in runs;
  }

  /** There is only one way to cut failures into maximal runs. */
  lemma {:induction false} MaximalRunsAreUnique(a: seq<seq<Fail>>, b: seq<seq<Fail>>, fails: seq<Fail>)
    requires MaximalRuns(a, fails) && MaximalRuns(b, fails)
    ensures a == b
    decreases |a|
  {
    if a == [] {
      if b != [] { RunsHoldFailures(b); }
    } else {
      var n := |a| - 1;
      assert a[n] in a;
      assert b != [];
      var m := |b| - 1;
      assert b[m] in b;
      if |a[n]| < |b[m]| {
        LastRunNoShorter(a, b, fails);
      } else if |b[m]| < |a[n]| {
        LastRunNoShorter(b, a, fails);
      } else {
        var rest := |fails| - |a[n]|;
        assert a[n] == fails[rest..] == b[m];
        assert Flatten(a[..n]) == fails[..rest] == Flatten(b[..m]);
        MaximalRunsAreUnique(a[..n], b[..m], fails[..rest]);
      }
    }
  }

  lemma LastRunStartsFresh(a: seq<seq<Fail>>, fails: seq<Fail>)
    requires MaximalRuns(a, fails) && a != [] && |a[|a| - 1]| < |fails|
    ensures var cut := |fails| - |a[|a| - 1]|;
      0 < cut < |fails| && !Joins(fails[cut - 1], fails[cut])
  {
    var n := |a| - 1;
    assert a[n] in a;
    var cut := |fails| - |a[n]|;
    assert Flatten(a[..n]) == fails[..cut];
    assert n > 0;
    assert a[n - 1] in a && a[..n][n - 1] == a[n - 1];
    assert Last(a[n - 1]) == fails[..cut][cut - 1];
  }

  lemma LastRunNoShorter(a: seq<seq<Fail>>, b: seq<seq<Fail>>, fails: seq<Fail>)
    requires MaximalRuns(a, fails) && MaximalRuns(b, fails) && a != [] && b != []
    ensures |a[|a| - 1]| >= |b[|b| - 1]|
  {
    var run, other := a[|a| - 1], b[|b| - 1];
    assert run in a && other in b;
    var start := |fails| - |other|;
    var k := |other| - |run|;
    assert fails[start..] == other;
    assert 0 < k ==> fails[start..][k - 1] == fails[start + k - 1] && fails[start..][k] == fails[start + k];
    assert 0 < k ==> Joins(fails[start + k - 1], fails[start + k]);
    if |run| < |other| {
      LastRunStartsFresh(a, fails);
      assert false;
    }
  }

  predicate AreSummaries(outages: seq<Outage>, runs: seq<seq<Fail>>) {
    && |outages| == |runs|
    && forall i | 0 <= i < |runs| ::
         runs[i] != [] && Last(runs[i]).monitor == runs[i][0].monitor && outages[i] == Summary(runs[i])
  }

  lemma ExtendSummaries(outages: seq<Outage>, runs: seq<seq<Fail>>, f: Fail)
    requires AreSummaries(outages, runs) && Continues(outages, f)
    ensures var n := |runs| - 1;
      Joins(Last(runs[n]), f) && AreSummaries(outages[n := Extend(outages[n], f)], runs[n := runs[n] + [f]])
  {
    SummaryExtends(runs[|runs| - 1], f);
  }

  /** The pass over the failures computes exactly the summaries of the maximal runs. */
  lemma {:induction false} CollapseSummarisesRuns(fails: seq<Fail>)
    ensures AreSummaries(Collapse(fails), Split(fails))
  {
    if fails != [] {
      var n := |fails| - 1;
      CollapseSummarisesRuns(fails[..n]);
      var outages, runs, f := Collapse(fails[..n]), Split(fails[..n]), fails[n];
      if Continues(outages, f) {
        ExtendSummaries(outages, runs, f);
      }
      SummaryOpens(f);
    }
  }

  lemma SummaryExtends(run: seq<Fail>, f: Fail)
    requires run != []
    ensures Summary(run + [f]) == Extend(Summary(run), f)
  {
    assert (run + [f])[..|run|] == run;
  }

  lemma SummaryOpens(f: Fail)
    ensures Summary([f]) == Opening(f)
  {
    assert [f][..0] == [];
    assert NoteOf([]) == "Check failed";
  }

  function BeatSum(outages: seq<Outage>): nat {
    if outages == [] then 0 else BeatSum(outages[..|outages| - 1]) + outages[|outages| - 1].beats
  }

  /** Every failure is counted in exactly one incident. */
  lemma {:induction false} BeatsSumToFailures(fails: seq<Fail>)
    ensures BeatSum(Collapse(fails)) == |fails|
  {
    if fails != [] {
      var n := |fails| - 1;
      BeatsSumToFailures(fails[..n]);
      var before, after := Collapse(fails[..n]), Collapse(fails);
      assert after[..|after| - 1] == if Continues(before, fails[n]) then before[..|before| - 1] else before;
    }
  }

  // ----- the identity of an incident: its monitor and start -----

  predicate IsIdentity(outages: seq<Outage>, m: int, t: int) {
    exists o | o in outages :: o.monitor == m && o.started == t
  }

  predicate FailedAt(fails: seq<Fail>, m: int, t: int) {
    exists f | f in fails :: f.monitor == m && f.ts == t
  }

  /** A failure not preceded by another within the gap. */
  predicate Begins(fails: seq<Fail>, m: int, t: int) {
    FailedAt(fails, m, t) && forall f | f in fails :: f.monitor == m ==> !(t - GAP <= f.ts < t)
  }

  lemma NewestOutage(fails: seq<Fail>)
    requires fails != []
    ensures Collapse(fails) != []
    ensures var o := Collapse(fails)[|Collapse(fails)| - 1];
      o.monitor == Last(fails).monitor && o.ended == Last(fails).ts
  {
  }

  lemma IdentityStep(outages: seq<Outage>, f: Fail, m: int, t: int)
    ensures var after := if Continues(outages, f) then outages[|outages| - 1 := Extend(outages[|outages| - 1], f)]
                         else outages + [Opening(f)];
      IsIdentity(after, m, t) <==>
      IsIdentity(outages, m, t) || (!Continues(outages, f) && m == f.monitor && t == f.ts)
  {
    if Continues(outages, f) {
      var n := |outages| - 1;
      var after := outages[n := Extend(outages[n], f)];
      if o :| o in outages && o.monitor == m && o.started == t {
        var i :| 0 <= i < |outages| && outages[i] == o;
        assert after[i] in after && after[i].started == t;
      }
      if o :| o in after && o.monitor == m && o.started == t {
        var i :| 0 <= i < |after| && after[i] == o;
        assert outages[i] in outages;
      }
    } else {
      var after := outages + [Opening(f)];
      assert after[|outages|] in after;
      assert forall o | o in after :: o in outages || o == Opening(f);
    }
  }

  /** How one more failure, latest in the order, changes what begins. */
  lemma BeginsStep(front: seq<Fail>, f: Fail, m: int, t: int)
    requires Sorting.Ordered(front + [f], InOrder)
    ensures Begins(front + [f], m, t) <==>
      Begins(front, m, t) || (m == f.monitor && t == f.ts && forall g | g in front :: g.monitor == m ==> g.ts < t - GAP)
  {
    var all := front + [f];
    assert forall g | g in all :: g in front || g == f;
    assert all[|front|] in all;
    forall g | g in front ensures g in all && InOrder(g, f) {
      var i :| 0 <= i < |front| && front[i] == g;
      assert all[i] == g;
    }
  }

  lemma FrontIsOrdered(front: seq<Fail>, f: Fail)
    requires Sorting.Ordered(front + [f], InOrder)
    ensures Sorting.Ordered(front, InOrder)
    ensures forall g | g in front :: InOrder(g, Last(front))
  {
    var all := front + [f];
    assert forall i | 0 <= i < |front| :: all[i] == front[i];
  }

  /** The incidents of ordered failures start exactly where a failure has none before
      it within the gap. */
  lemma {:induction false} IncidentsBegin(fails: seq<Fail>, m: int, t: int)
    requires Sorting.Ordered(fails, InOrder)
    ensures IsIdentity(Collapse(fails), m, t) <==> Begins(fails, m, t)
  {
    if fails != [] {
      var front, f := fails[..|fails| - 1], Last(fails);
      assert fails == front + [f];
      FrontIsOrdered(front, f);
      IncidentsBegin(front, m, t);
      IdentityStep(Collapse(front), f, m, t);
      BeginsStep(front, f, m, t);
      if front != [] {
        NewestOutage(front);
        LatestDecides(front, f);
      }
    }
  }

  /** Whether a failure continues the newest outage is decided by the latest failure
      before it. */
  lemma LatestDecides(front: seq<Fail>, f: Fail)
    requires front != [] && Sorting.Ordered(front + [f], InOrder)
    ensures Joins(Last(front), f) <==> exists g | g in front :: g.monitor == f.monitor && g.ts >= f.ts - GAP
  {
    FrontIsOrdered(front, f);
    assert Last(front) in front;
    assert InOrder((front + [f])[|front| - 1], (front + [f])[|front|]);
  }

  // ----- over the table of beats -----

  predicate Failed(beats: seq<Beat>, since: int, m: int, t: int) {
    exists b | b in beats :: b.failed && b.monitor == m && b.ts == t && t >= since
  }

  lemma {:induction false} FailsSinceHolds(beats: seq<Beat>, since: int, m: int, t: int)
    ensures FailedAt(FailsSince(beats, since), m, t) <==> Failed(beats, since, m, t)
  {
    if beats != [] {
      FailsSinceHolds(beats[1..], since, m, t);
      var rest := FailsSince(beats[1..], since);
      assert forall b | b in beats :: b == beats[0] || b in beats[1..];
      assert forall b | b in beats[1..] :: b in beats;
      var all := FailsSince(beats, since);
      assert forall f | f in rest :: f in all;
      if beats[0].failed && beats[0].ts >= since {
        assert all[0] in all;
      }
    }
  }

  /** An incident with this monitor and start is in the feed's collapse. */
  predicate HasIncident(beats: seq<Beat>, since: int, m: int, t: int) {
    IsIdentity(Collapse(Query(beats, since)), m, t)
  }

  predicate Quiet(beats: seq<Beat>, since: int, m: int, lo: int, hi: int) {
    forall t | lo <= t < hi :: !Failed(beats, since, m, t)
  }

  lemma InOrderIsTotal()
    ensures Sorting.TotalOrder(InOrder)
  {
  }

  /** An incident starts at a failed beat with five quiet minutes before it. */
  lemma IncidentStarts(beats: seq<Beat>, since: int, m: int, t: int)
    ensures HasIncident(beats, since, m, t) <==> Failed(beats, since, m, t) && Quiet(beats, since, m, t - GAP, t)
  {
    var fails := FailsSince(beats, since);
    var sorted := Query(beats, since);
    InOrderIsTotal();
    Sorting.SortOrders(fails, InOrder);
    Sorting.SortKeepsElements(fails, InOrder);
    IncidentsBegin(sorted, m, t);
    FailsSinceHolds(beats, since, m, t);
    if Quiet(beats, since, m, t - GAP, t) {
      forall f | f in sorted && f.monitor == m ensures !(t - GAP <= f.ts < t) {
        FailsSinceHolds(beats, since, m, f.ts);
      }
    } else {
      var u :| t - GAP <= u < t && Failed(beats, since, m, u);
      FailsSinceHolds(beats, since, m, u);
    }
  }

  lemma FailedInEither(beats: seq<Beat>, newer: seq<Beat>, since: int, m: int, t: int)
    ensures Failed(beats + newer, since, m, t) <==> Failed(beats, since, m, t) || Failed(newer, since, m, t)
  {
    assert forall b :: b in beats + newer <==> b in beats || b in newer;
  }

  /** Recording failures no older than those known keeps every incident's identity and
      turns none of the known failures into a start. */
  lemma NewerKeepsIdentities(beats: seq<Beat>, newer: seq<Beat>, since: int, m: int, t: int)
    requires forall a, b | a in newer && b in beats && a.monitor == b.monitor && b.failed :: a.ts >= b.ts
    requires Failed(beats, since, m, t)
    ensures HasIncident(beats + newer, since, m, t) <==> HasIncident(beats, since, m, t)
  {
    IncidentStarts(beats, since, m, t);
    IncidentStarts(beats + newer, since, m, t);
    FailedInEither(beats, newer, since, m, t);
    forall u | t - GAP <= u < t
      ensures Failed(beats + newer, since, m, u) <==> Failed(beats, since, m, u)
    {
      FailedInEither(beats, newer, since, m, u);
    }
  }

  /** Moving the lookback forward keeps the incidents that start within it, and adds
      one exactly where it cuts an incident between two failures. */
  lemma LookbackCutsIncident(beats: seq<Beat>, since: int, later: int, m: int, t: int)
    requires since <= later <= t
    ensures HasIncident(beats, later, m, t) <==>
      HasIncident(beats, since, m, t)
      || (Failed(beats, since, m, t) && Quiet(beats, since, m, Max(later, t - GAP), t)
          && !Quiet(beats, since, m, t - GAP, later))
  {
    IncidentStarts(beats, since, m, t);
    IncidentStarts(beats, later, m, t);
    assert Failed(beats, since, m, t) <==> Failed(beats, later, m, t);
    forall u ensures Failed(beats, later, m, u) <==> Failed(beats, since, m, u) && u >= later {
    }
  }

  lemma NewestFirstIsTotal()
    ensures Sorting.TotalOrder(NewestFirst)
  {
  }

  /** The feed holds the newest incidents, newest first; those it drops are no newer. */
  lemma RecentKeepsNewest(beats: seq<Beat>, since: int, limit: nat) returns (dropped: seq<Outage>)
    ensures var all, kept := Collapse(Query(beats, since)), Recent(beats, since, limit);
      && |kept| == Min(limit, |all|)
      && multiset(all) == multiset(kept) + multiset(dropped)
      && Sorting.Ordered(kept + dropped, NewestFirst)
  {
    var all := Collapse(Query(beats, since));
    var sorted := Sorting.Sort(all, NewestFirst);
    NewestFirstIsTotal();
    Sorting.SortOrders(all, NewestFirst);
    Sorting.SortPermutes(all, NewestFirst);
    dropped := sorted[Min(limit, |sorted|)..];
    assert sorted == Recent(beats, since, limit) + dropped;
  }
}
