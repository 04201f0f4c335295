/** The daily uptime view and why pruning is invisible to it
    (apps/heartbeat/status.py). Percentages are exact, not rounded. */
module DailyUptime {
  import opened Common
  import opened MaintenanceWindows
  import opened Heartbeat
  import opened HeartbeatConservation

  /** Beats of `beats` outside every excluded range, as (ok, observed). */
  method GetNonMaintenanceCounts(cfg: Config, beats: map<BeatKey, Beat>, dk: DayKey) returns (ok: nat, observed: nat)
    ensures ok == Tally(cfg.windows, beats, dk, SlaOk)
    ensures observed == Tally(cfg.windows, beats, dk, SlaOk) + Tally(cfg.windows, beats, dk, SlaFail)
  {
    var batch := GroupBatch(beats, dk);
    var spans := GetExcludedRanges(cfg.windows, DayStart(dk.day), DayEnd(dk.day), dk.monitor);
    var qs := batch.Keys;
    for i := 0 to |spans|
      invariant qs == batch.Keys - SpanKeys(batch, spans[..i])
    {
      SpanKeysGrow(batch, spans, i, DayStart(dk.day), DayEnd(dk.day));
      qs := qs - KeysWithin(batch, spans[i]);
    }
    assert spans[..|spans|] == spans;
    ok, observed := |OkKeys(batch, qs)|, |qs|;
    BatchIsGroup(cfg, beats, dk);
    RemainingAreCounted(cfg, batch, dk, spans);
  }

  lemma RemainingAreCounted(cfg: Config, batch: map<BeatKey, Beat>, dk: DayKey, spans: seq<Span>)
    requires forall k | k in batch :: DayKeyOf(k) == dk
    requires spans == ExcludedRanges(cfg.windows, DayStart(dk.day), DayEnd(dk.day), dk.monitor)
    ensures var qs := batch.Keys - SpanKeys(batch, spans);
      && |OkKeys(batch, qs)| == Tally(cfg.windows, batch, dk, SlaOk)
      && |qs| == Tally(cfg.windows, batch, dk, SlaOk) + Tally(cfg.windows, batch, dk, SlaFail)
  {
    var qs := batch.Keys - SpanKeys(batch, spans);
    var ok, fail := ClassKeys(cfg.windows, batch, dk, SlaOk), ClassKeys(cfg.windows, batch, dk, SlaFail);
    RangeKeysAreClasses(cfg, batch, dk, spans);
    assert OkKeys(batch, qs) == ok;
    CardinalitySplit(qs, ok, fail);
  }

  /** A day's count in the summary and in the raw remainder together. */
  function Total(cfg: Config, s: Store, dk: DayKey, c: SlaClass): nat {
    Folded(Lookup(s.daily, dk), c) + Tally(cfg.windows, s.beats, dk, c)
  }

  predicate HasData(s: Store, dk: DayKey) {
    dk in s.daily || DayKeys(s.beats, dk) != {}
  }

  /** One day of the view: the summed counts, over the recorded beats for today
      and over the expected checks otherwise. */
  function DayUptime(cfg: Config, s: Store, monitor: string, day: int, now: int): Option<real> {
    var dk := DayKey(monitor, day);
    if !HasData(s, dk) then None
    else
      var ok, fail := Total(cfg, s, dk, SlaOk), Total(cfg, s, dk, SlaFail);
      UptimeOf(cfg, s.epochs, monitor, day, ok, ok + fail, now)
  }

  /** What a day is judged over: its recorded beats for today, and otherwise these or
      the expected checks, whichever are more. */
  function Denominator(cfg: Config, epochs: map<string, int>, monitor: string, day: int, observed: nat, now: int): nat {
    if day == DayOf(now) then observed
    else Max(observed, ExpectedIntervals(cfg, day, monitor, Lookup(epochs, monitor), now))
  }

  function UptimeOf(cfg: Config, epochs: map<string, int>, monitor: string, day: int, ok: nat, observed: nat, now: int): Option<real> {
    var denominator := Denominator(cfg, epochs, monitor, day, observed, now);
    if denominator == 0 then None else Some(Percent(ok, denominator))
  }

  method DailyUptimeMap(cfg: Config, s: Store, monitor: string, start: int, end: int, now: int)
    returns (result: map<int, Option<real>>)
    ensures forall d :: d in result <==> start <= d <= end
    ensures forall d | start <= d <= end :: result[d] == DayUptime(cfg, s, monitor, d, now)
  {
    result := map[];
    var day := start;
    while day <= end
      invariant start <= day <= Max(start, end + 1)
      invariant forall d :: d in result <==> start <= d < day
      invariant forall d | start <= d < day :: result[d] == DayUptime(cfg, s, monitor, d, now)
    {
      var uptime := OneDay(cfg, s, monitor, day, now);
      result := result[day := uptime];
      day := day + 1;
    }
  }

  method OneDay(cfg: Config, s: Store, monitor: string, day: int, now: int) returns (uptime: Option<real>)
    ensures uptime == DayUptime(cfg, s, monitor, day, now)
  {
    var dk := DayKey(monitor, day);
    var hasRaw := DayKeys(s.beats, dk) != {};
    uptime := None;
    if dk in s.daily || hasRaw {
      var ok, observed := SumSources(cfg, s, dk, hasRaw);
      uptime := UptimeOf(cfg, s.epochs, monitor, day, ok, observed, now);
    }
  }

  /** The summary's counts, plus the raw beats' counts when there are any. */
  method SumSources(cfg: Config, s: Store, dk: DayKey, hasRaw: bool) returns (ok: nat, observed: nat)
    requires hasRaw <==> DayKeys(s.beats, dk) != {}
    ensures ok == Total(cfg, s, dk, SlaOk)
    ensures observed == Total(cfg, s, dk, SlaOk) + Total(cfg, s, dk, SlaFail)
  {
    ok, observed := 0, 0;
    if dk in s.daily {
      ok, observed := s.daily[dk].okCount, s.daily[dk].okCount + s.daily[dk].failCount;
    }
    if hasRaw {
      var rawOk, rawObserved := GetNonMaintenanceCounts(cfg, s.beats, dk);
      ok, observed := ok + rawOk, observed + rawObserved;
    } else {
      NoBeatsNoTally(cfg.windows, s.beats, dk, SlaOk);
      NoBeatsNoTally(cfg.windows, s.beats, dk, SlaFail);
    }
  }

  lemma NoBeatsNoTally(windows: seq<Window>, beats: map<BeatKey, Beat>, dk: DayKey, c: SlaClass)
    requires DayKeys(beats, dk) == {}
    ensures Tally(windows, beats, dk, c) == 0
  {
    assert ClassKeys(windows, beats, dk, c) <= DayKeys(beats, dk);
  }

  /** The view depends only on the summed counts and on whether the day has data. */
  lemma SameTotalsSameView(cfg: Config, a: Store, b: Store, dk: DayKey, now: int)
    requires a.epochs == b.epochs && (HasData(a, dk) <==> HasData(b, dk))
    requires forall c :: Total(cfg, a, dk, c) == Total(cfg, b, dk, c)
    ensures DayUptime(cfg, a, dk.monitor, dk.day, now) == DayUptime(cfg, b, dk.monitor, dk.day, now)
  {
  }

  lemma PruneMovesTally(cfg: Config, s: Store, pruneAt: int, dk: DayKey, c: SlaClass)
    ensures Total(cfg, PruneStep(cfg, s, pruneAt), dk, c) == Total(cfg, s, dk, c)
  {
    var expired := OldBeats(s.beats, Cutoff(cfg, pruneAt));
    PruneRowCount(cfg, s, pruneAt, dk, c);
    assert s.beats == expired + (s.beats - expired.Keys);
    TallyUnion(cfg.windows, expired, s.beats - expired.Keys, s.beats, dk, c);
  }

  lemma PruneKeepsData(cfg: Config, s: Store, pruneAt: int, dk: DayKey)
    ensures HasData(PruneStep(cfg, s, pruneAt), dk) <==> HasData(s, dk)
  {
    var expired := OldBeats(s.beats, Cutoff(cfg, pruneAt));
    TouchedDays(expired, dk);
    assert DayKeys(s.beats, dk) == DayKeys(expired, dk) + DayKeys(s.beats - expired.Keys, dk);
  }

  /** A prune step at any time changes no day of the view that reads one snapshot, at
      any time. */
  lemma PruneIsInvisible(cfg: Config, s: Store, monitor: string, day: int, pruneAt: int, now: int)
    ensures DayUptime(cfg, PruneStep(cfg, s, pruneAt), monitor, day, now) == DayUptime(cfg, s, monitor, day, now)
  {
    var dk := DayKey(monitor, day);
    var next := PruneStep(cfg, s, pruneAt);
    forall c ensures Total(cfg, next, dk, c) == Total(cfg, s, dk, c) {
      PruneMovesTally(cfg, s, pruneAt, dk, c);
    }
    PruneKeepsData(cfg, s, pruneAt, dk);
    SameTotalsSameView(cfg, next, s, dk, now);
  }

  // ----- a prune between the view's own reads -----

  /** The view reads the summaries first and the beats afterwards; a prune that commits
      in between is seen by the second read only. */
  function TornRead(cfg: Config, s: Store, pruneAt: int): Store {
    Store(PruneStep(cfg, s, pruneAt).beats, s.daily, s.epochs)
  }

  /** Whether the day has raw beats is a read of its own, before that of their counts:
      `early` if the prune came between these two. */
  function TornUptime(cfg: Config, s: Store, monitor: string, day: int, pruneAt: int, early: bool, now: int): Option<real> {
    var dk, torn := DayKey(monitor, day), TornRead(cfg, s, pruneAt);
    if !HasData(if early then s else torn, dk) then None
    else
      var ok, fail := Total(cfg, torn, dk, SlaOk), Total(cfg, torn, dk, SlaFail);
      UptimeOf(cfg, s.epochs, monitor, day, ok, ok + fail, now)
  }

  /** Such a read misses the batch: it is neither in the old summary nor in the beats. */
  lemma TornTotal(cfg: Config, s: Store, dk: DayKey, pruneAt: int, c: SlaClass)
    ensures Total(cfg, TornRead(cfg, s, pruneAt), dk, c)
         == Total(cfg, s, dk, c) - Tally(cfg.windows, OldBeats(s.beats, Cutoff(cfg, pruneAt)), dk, c)
  {
    var expired := OldBeats(s.beats, Cutoff(cfg, pruneAt));
    assert s.beats == expired + (s.beats - expired.Keys);
    TallyUnion(cfg.windows, expired, s.beats - expired.Keys, s.beats, dk, c);
  }

  lemma TornData(cfg: Config, s: Store, dk: DayKey, pruneAt: int)
    ensures HasData(TornRead(cfg, s, pruneAt), dk) ==> HasData(s, dk)
  {
    assert DayKeys(TornRead(cfg, s, pruneAt).beats, dk) <= DayKeys(s.beats, dk);
  }

  lemma FractionBounds(n: nat, d: nat)
    requires n <= d && 0 < d
    ensures 0.0 <= Percent(n, d) <= 100.0
    ensures Percent(n, d) == n as real / d as real * 100.0
  {
    var f := n as real / d as real;
    assert f * d as real == n as real;
    assert 0.0 <= f <= 1.0;
  }

  /** Two fractions agree exactly when their cross products do. */
  lemma EqualByCrossProduct(n: nat, a: nat, m: nat, b: nat)
    requires n <= a && m <= b && 0 < a && 0 < b
    ensures Percent(n, a) == Percent(m, b) <==> n * b == m * a
  {
    FractionBounds(n, a);
    FractionBounds(m, b);
    QuotientsEqual(n as real, a as real, m as real, b as real);
    assert n as real * b as real == (n * b) as real && m as real * a as real == (m * a) as real;
  }

  lemma QuotientsEqual(n: real, a: real, m: real, b: real)
    requires 0.0 < a && 0.0 < b
    ensures n / a == m / b <==> n * b == m * a
  {
    var x, y := n / a, m / b;
    assert x * a == n && y * b == m;
    assert n * b == x * (a * b) && m * a == y * (a * b);
    assert 0.0 < a * b;
    if x != y {
      assert x * (a * b) - y * (a * b) == (x - y) * (a * b);
    }
  }

  /** Both denominators are empty, or neither is and the fractions are equal. */
  ghost predicate SameFraction(n: nat, a: nat, m: nat, b: nat) {
    if a == 0 then b == 0 else 0 < b && n * b == m * a
  }

  lemma UptimesAgree(cfg: Config, epochs: map<string, int>, monitor: string, day: int, now: int,
                     n: nat, observed: nat, m: nat, rest: nat)
    requires n <= observed && m <= rest
    ensures UptimeOf(cfg, epochs, monitor, day, n, observed, now) == UptimeOf(cfg, epochs, monitor, day, m, rest, now)
      <==> SameFraction(n, Denominator(cfg, epochs, monitor, day, observed, now), m, Denominator(cfg, epochs, monitor, day, rest, now))
  {
    var a, b := Denominator(cfg, epochs, monitor, day, observed, now), Denominator(cfg, epochs, monitor, day, rest, now);
    if 0 < a && 0 < b {
      EqualByCrossProduct(n, a, m, b);
    }
  }

  /** The batch leaves the day's value as it is: the counts without it make the same
      fraction of their own denominator. */
  ghost predicate BatchIsNeutral(cfg: Config, s: Store, monitor: string, day: int, pruneAt: int, now: int) {
    var dk, torn := DayKey(monitor, day), TornRead(cfg, s, pruneAt);
    var ok, fail := Total(cfg, s, dk, SlaOk), Total(cfg, s, dk, SlaFail);
    var okLeft, failLeft := Total(cfg, torn, dk, SlaOk), Total(cfg, torn, dk, SlaFail);
    SameFraction(ok, Denominator(cfg, s.epochs, monitor, day, ok + fail, now),
                 okLeft, Denominator(cfg, s.epochs, monitor, day, okLeft + failLeft, now))
  }

  /** What is seen of the day's data, in a view torn by a prune. */
  predicate SeesData(cfg: Config, s: Store, dk: DayKey, pruneAt: int, early: bool) {
    HasData(if early then s else TornRead(cfg, s, pruneAt), dk)
  }

  lemma SeenDay(cfg: Config, s: Store, dk: DayKey, now: int)
    requires HasData(s, dk)
    ensures DayUptime(cfg, s, dk.monitor, dk.day, now)
         == UptimeOf(cfg, s.epochs, dk.monitor, dk.day, Total(cfg, s, dk, SlaOk), Total(cfg, s, dk, SlaOk) + Total(cfg, s, dk, SlaFail), now)
  {
  }

  lemma SeenTornDay(cfg: Config, s: Store, dk: DayKey, pruneAt: int, early: bool, now: int)
    requires SeesData(cfg, s, dk, pruneAt, early)
    ensures var torn := TornRead(cfg, s, pruneAt);
      TornUptime(cfg, s, dk.monitor, dk.day, pruneAt, early, now)
      == UptimeOf(cfg, s.epochs, dk.monitor, dk.day, Total(cfg, torn, dk, SlaOk), Total(cfg, torn, dk, SlaOk) + Total(cfg, torn, dk, SlaFail), now)
  {
  }

  lemma SeenViewsAgree(cfg: Config, s: Store, dk: DayKey, pruneAt: int, early: bool, now: int)
    requires SeesData(cfg, s, dk, pruneAt, early) && HasData(s, dk)
    ensures TornUptime(cfg, s, dk.monitor, dk.day, pruneAt, early, now) == DayUptime(cfg, s, dk.monitor, dk.day, now)
      <==> BatchIsNeutral(cfg, s, dk.monitor, dk.day, pruneAt, now)
  {
    var torn := TornRead(cfg, s, pruneAt);
    SeenDay(cfg, s, dk, now);
    SeenTornDay(cfg, s, dk, pruneAt, early, now);
    var ok, okLeft := Total(cfg, s, dk, SlaOk), Total(cfg, torn, dk, SlaOk);
    UptimesAgree(cfg, s.epochs, dk.monitor, dk.day, now, ok, ok + Total(cfg, s, dk, SlaFail),
                 okLeft, okLeft + Total(cfg, torn, dk, SlaFail));
  }

  /** A view torn by a prune agrees with the view exactly when it sees data and the batch
      is neutral, or sees none and the view has no value either. */
  lemma TornViewIsViewExactly(cfg: Config, s: Store, monitor: string, day: int, pruneAt: int, early: bool, now: int)
    ensures TornUptime(cfg, s, monitor, day, pruneAt, early, now) == DayUptime(cfg, s, monitor, day, now)
      <==> if SeesData(cfg, s, DayKey(monitor, day), pruneAt, early)
           then BatchIsNeutral(cfg, s, monitor, day, pruneAt, now)
           else DayUptime(cfg, s, monitor, day, now).None?
  {
    var dk := DayKey(monitor, day);
    if SeesData(cfg, s, dk, pruneAt, early) {
      TornData(cfg, s, dk, pruneAt);
      SeenViewsAgree(cfg, s, dk, pruneAt, early, now);
    }
  }

  /** On a past day judged by its expectation the batch is neutral exactly when none of
      the day's ok beats is in it. */
  lemma NeutralOnPastDay(cfg: Config, s: Store, monitor: string, day: int, pruneAt: int, now: int)
    requires day != DayOf(now)
    requires var expected := ExpectedIntervals(cfg, day, monitor, Lookup(s.epochs, monitor), now);
      0 < expected && Total(cfg, s, DayKey(monitor, day), SlaOk) + Total(cfg, s, DayKey(monitor, day), SlaFail) <= expected
    ensures BatchIsNeutral(cfg, s, monitor, day, pruneAt, now)
      <==> Tally(cfg.windows, OldBeats(s.beats, Cutoff(cfg, pruneAt)), DayKey(monitor, day), SlaOk) == 0
  {
    var dk, torn := DayKey(monitor, day), TornRead(cfg, s, pruneAt);
    TornTotal(cfg, s, dk, pruneAt, SlaOk);
    TornTotal(cfg, s, dk, pruneAt, SlaFail);
    var expected := ExpectedIntervals(cfg, day, monitor, Lookup(s.epochs, monitor), now);
    FractionsOfOne(Total(cfg, s, dk, SlaOk), Total(cfg, torn, dk, SlaOk), expected);
  }

  lemma FractionsOfOne(n: nat, m: nat, d: nat)
    requires 0 < d
    ensures SameFraction(n, d, m, d) <==> n == m
  {
    assert n * d - m * d == (n - m) * d;
  }

  /** What the view would be had nothing ever been pruned. */
  ghost function UnprunedUptime(cfg: Config, w: World, monitor: string, day: int, now: int): Option<real> {
    DayUptime(cfg, Store(w.history, map[], w.store.epochs), monitor, day, now)
  }

  /** Over every run the blended view is the view of the never-pruned history. */
  lemma ViewIsUnprunedView(cfg: Config, evs: seq<Event>, monitor: string, day: int, now: int)
    requires 1 <= cfg.retentionDays && Monotone(evs)
    ensures DayUptime(cfg, Run(cfg, evs).store, monitor, day, now) == UnprunedUptime(cfg, Run(cfg, evs), monitor, day, now)
  {
    RunIsAccounted(cfg, evs);
    Conservation(cfg, evs);
    AccountedViewIsUnpruned(cfg, Run(cfg, evs), LastInstant(evs), DayKey(monitor, day), now);
  }

  lemma AccountedViewIsUnpruned(cfg: Config, w: World, t: int, dk: DayKey, now: int)
    requires Accounted(cfg, w, t) && Conserved(cfg, w)
    ensures DayUptime(cfg, w.store, dk.monitor, dk.day, now) == UnprunedUptime(cfg, w, dk.monitor, dk.day, now)
  {
    var unpruned := Store(w.history, map[], w.store.epochs);
    forall c ensures Total(cfg, w.store, dk, c) == Total(cfg, unpruned, dk, c) {
      assert Folded(Lookup(unpruned.daily, dk), c) == 0;
    }
    assert w.history == Pruned(w) + w.store.beats;
    assert DayKeys(w.history, dk) == DayKeys(Pruned(w), dk) + DayKeys(w.store.beats, dk);
    SameTotalsSameView(cfg, w.store, unpruned, dk, now);
  }

  /** A day has a value exactly when it has data and something to be judged over; the
      value is the day's ok beats over that denominator, which they never exceed: it
      lies in 0..100 and the cap never binds. */
  lemma UptimeInRange(cfg: Config, s: Store, monitor: string, day: int, now: int)
    ensures var dk, u := DayKey(monitor, day), DayUptime(cfg, s, monitor, day, now);
      var ok, observed := Total(cfg, s, dk, SlaOk), Total(cfg, s, dk, SlaOk) + Total(cfg, s, dk, SlaFail);
      var denominator := if day == DayOf(now) then observed
                         else Max(observed, ExpectedIntervals(cfg, day, monitor, Lookup(s.epochs, monitor), now));
      && (u.Some? <==> HasData(s, dk) && denominator > 0)
      && (u.Some? ==> ok <= denominator && u.value == ok as real / denominator as real * 100.0
                      && 0.0 <= u.value <= 100.0)
  {
    var dk := DayKey(monitor, day);
    var ok, observed := Total(cfg, s, dk, SlaOk), Total(cfg, s, dk, SlaOk) + Total(cfg, s, dk, SlaFail);
    var denominator := Denominator(cfg, s.epochs, monitor, day, observed, now);
    if denominator > 0 {
      FractionBounds(ok, denominator);
    }
  }

  // ----- the stored row against the view -----

  ghost predicate StoredRowIsView(cfg: Config, s: Store, dk: DayKey, now: int)
    requires dk in s.daily
  {
    var row := s.daily[dk];
    DayUptime(cfg, s, dk.monitor, dk.day, now)
    == if Max(row.okCount + row.failCount, row.expectedCount) == 0 then None else Some(row.uptimePct)
  }

  lemma FoldedTotals(cfg: Config, s: Store, dk: DayKey, c: SlaClass)
    requires dk in s.daily && DayKeys(s.beats, dk) == {}
    ensures Total(cfg, s, dk, c) == SummaryCount(s.daily[dk], c)
  {
    NoBeatsNoTally(cfg.windows, s.beats, dk, c);
  }

  lemma CompletedUptime(cfg: Config, epochs: map<string, int>, dk: DayKey, ok: nat, observed: nat, now: int)
    requires dk.day < DayOf(now)
    ensures var denominator := Max(observed, CompleteExpected(cfg, epochs, dk));
      UptimeOf(cfg, epochs, dk.monitor, dk.day, ok, observed, now)
      == if denominator == 0 then None else Some(Percent(ok, denominator))
  {
    assert DayEnd(dk.day) <= now;
    ExpectedOfCompletedDay(cfg, dk.day, dk.monitor, Lookup(epochs, dk.monitor), now);
  }

  /** Fractions of the same count over different denominators agree only at zero. */
  lemma EqualFractions(n: nat, a: nat, b: nat)
    requires n <= a && n <= b && 0 < a && 0 < b
    ensures Percent(n, a) == Percent(n, b) <==> n == 0 || a == b
  {
    EqualByCrossProduct(n, a, n, b);
    assert n * b - n * a == n * (b - a);
  }

  /** Once a completed day is fully folded, the stored percentage is the view exactly
      when the expectation stored with it leads to the denominator the epoch now gives,
      or none of its beats was ok and neither denominator is empty. This holds after
      every run, with any resets. */
  lemma FoldedDayIsStoredRow(cfg: Config, evs: seq<Event>, s: Store, dk: DayKey, now: int)
    requires s == Run(cfg, evs).store
    requires dk in s.daily && DayKeys(s.beats, dk) == {} && dk.day < DayOf(now)
    ensures var row := s.daily[dk];
      var observed := row.okCount + row.failCount;
      var stored, current := Max(observed, row.expectedCount), Max(observed, CompleteExpected(cfg, s.epochs, dk));
      StoredRowIsView(cfg, s, dk, now) <==> stored == current || (row.okCount == 0 && stored > 0 && current > 0)
  {
    var row := s.daily[dk];
    var observed := row.okCount + row.failCount;
    var stored, current := Max(observed, row.expectedCount), Max(observed, CompleteExpected(cfg, s.epochs, dk));
    var percent := BothFractions(cfg, evs, s, dk, now);
  }

  /** Both are one fraction function of the same count, and such fractions differ
      whenever their denominators do and the count is not zero. */
  lemma BothFractions(cfg: Config, evs: seq<Event>, s: Store, dk: DayKey, now: int) returns (percent: (nat, nat) -> real)
    requires s == Run(cfg, evs).store
    requires dk in s.daily && DayKeys(s.beats, dk) == {} && dk.day < DayOf(now)
    ensures forall n: nat, a: nat, b: nat | n <= a && n <= b && 0 < a && 0 < b :: percent(n, a) == percent(n, b) <==> n == 0 || a == b
    ensures var row := s.daily[dk];
      var observed := row.okCount + row.failCount;
      var current := Max(observed, CompleteExpected(cfg, s.epochs, dk));
      && row.uptimePct == percent(row.okCount, Max(observed, row.expectedCount))
      && DayUptime(cfg, s, dk.monitor, dk.day, now) == if current == 0 then None else Some(percent(row.okCount, current))
  {
    percent := Percent;
    forall n: nat, a: nat, b: nat | n <= a && n <= b && 0 < a && 0 < b
      ensures percent(n, a) == percent(n, b) <==> n == 0 || a == b
    {
      EqualFractions(n, a, b);
    }
    RunKeepsRowFractions(cfg, evs, dk);
    var view := ViewOfFoldedDay(cfg, s, dk, now);
  }

  lemma ViewOfFoldedDay(cfg: Config, s: Store, dk: DayKey, now: int) returns (view: Option<real>)
    requires dk in s.daily && DayKeys(s.beats, dk) == {} && dk.day < DayOf(now)
    ensures view == DayUptime(cfg, s, dk.monitor, dk.day, now)
    ensures var row := s.daily[dk];
      var current := Max(row.okCount + row.failCount, CompleteExpected(cfg, s.epochs, dk));
      view == if current == 0 then None else Some(Percent(row.okCount, current))
  {
    var row := s.daily[dk];
    FoldedTotals(cfg, s, dk, SlaOk);
    FoldedTotals(cfg, s, dk, SlaFail);
    CompletedUptime(cfg, s.epochs, dk, row.okCount, row.okCount + row.failCount, now);
    view := DayUptime(cfg, s, dk.monitor, dk.day, now);
  }

  /** In particular it is the view for a monitor whose epoch was never reset. */
  lemma NeverResetRowIsView(cfg: Config, evs: seq<Event>, s: Store, dk: DayKey, now: int)
    requires 1 <= cfg.retentionDays && Monotone(evs) && NeverReset(evs, dk.monitor)
    requires s == Run(cfg, evs).store
    requires dk in s.daily && DayKeys(s.beats, dk) == {} && dk.day < DayOf(now)
    ensures StoredRowIsView(cfg, s, dk, now)
  {
    RunKeepsRowsComplete(cfg, evs, dk.monitor);
    assert RowComplete(cfg, s.epochs, s.daily[dk], dk, LastInstant(evs));
    FoldedDayIsStoredRow(cfg, evs, s, dk, now);
  }

  // ----- a reset separates them -----

  /** One good beat, its day folded a week later, and then the epoch moved to two
      minutes before the end of that day. */
  ghost function ResetRun(): seq<Event> {
    [Record(50_000, "site", Answered(true, 1, "")), Prune(691_200), Reset(691_200, "site", 86_280)]
  }

  const MINUTELY := Config([], 60, 7)

  lemma ExpectedWithoutWindows(epochStart: int)
    requires 0 <= epochStart < DAY_SECONDS
    ensures forall now | DAY_SECONDS <= now ::
      ExpectedIntervals(MINUTELY, 0, "site", Some(epochStart), now) == (DAY_SECONDS - epochStart) / 60
  {
    assert Select([], epochStart, DAY_SECONDS, "site") == [];
    assert QueryRows([], epochStart, DAY_SECONDS, "site") == [];
    assert ExcludedSeconds([], epochStart, DAY_SECONDS, "site") == 0;
  }

  lemma OneGoodBeat(k: BeatKey, b: Beat)
    requires b.status.Ok? && DayOf(k.minute) == 0
    ensures Tally([], map[k := b], DayKey(k.monitor, 0), SlaOk) == 1
    ensures Tally([], map[k := b], DayKey(k.monitor, 0), SlaFail) == 0
  {
    assert ClassKeys([], map[k := b], DayKey(k.monitor, 0), SlaOk) == {k};
    assert ClassKeys([], map[k := b], DayKey(k.monitor, 0), SlaFail) == {};
  }

  lemma RecordedOnce() returns (k: BeatKey, b: Beat)
    ensures k == BeatKey("site", 49_980) && b.status.Ok?
    ensures Run(MINUTELY, ResetRun()[..1]).store == Store(map[k := b], map[], map["site" := 49_980])
  {
    var evs := ResetRun();
    k, b := BeatKey("site", 49_980), BeatFor(MINUTELY, BeatKey("site", 49_980), Answered(true, 1, ""));
    assert evs[..1][..0] == [];
    var s0 := Run(MINUTELY, []).store;
    assert s0 == Store(map[], map[], map[]);
    assert MinuteOf(50_000) == 49_980;
    RunStep(MINUTELY, evs[..1]);
    var beats := map[k := b];
    assert s0.beats[k := b] == beats;
    var epochs := EnsureEpoch(beats, map[], k);
    assert epochs["site"] == 49_980;
  }

  /** The first fold of a day whose only beat is a good one. */
  lemma FirstFold(s: Store, k: BeatKey, b: Beat, now: int) returns (after: Store)
    requires s.beats == map[k := b] && s.daily == map[] && b.status.Ok? && DayOf(k.minute) == 0
    requires k.minute < Cutoff(MINUTELY, now)
    ensures after == PruneStep(MINUTELY, s, now)
    ensures after.beats == map[] && after.epochs == s.epochs && DayKey(k.monitor, 0) in after.daily
    ensures var row := after.daily[DayKey(k.monitor, 0)];
      && row.okCount == 1 && row.failCount == 0
      && row.expectedCount == ExpectedIntervals(MINUTELY, 0, k.monitor, Lookup(s.epochs, k.monitor), now)
  {
    var dk := DayKey(k.monitor, 0);
    after := PruneStep(MINUTELY, s, now);
    assert OldBeats(s.beats, Cutoff(MINUTELY, now)) == map[k := b];
    assert DayKeyOf(k) == dk && dk in DaysTouched(map[k := b]);
    OneGoodBeat(k, b);
    PruneRowCount(MINUTELY, s, now, dk, SlaOk);
    PruneRowCount(MINUTELY, s, now, dk, SlaFail);
    PrunedRow(MINUTELY, s, now, dk);
  }

  lemma FoldedOnce() returns (s: Store)
    ensures s == Run(MINUTELY, ResetRun()[..2]).store
    ensures s.beats == map[] && s.epochs == map["site" := 49_980] && DayKey("site", 0) in s.daily
    ensures var row := s.daily[DayKey("site", 0)];
      row.okCount == 1 && row.failCount == 0 && row.expectedCount == 607
  {
    var evs := ResetRun();
    var k, b := RecordedOnce();
    assert evs[..2][..1] == evs[..1];
    RunStep(MINUTELY, evs[..2]);
    s := FirstFold(Run(MINUTELY, evs[..1]).store, k, b, 691_200);
    ExpectedWithoutWindows(49_980);
  }

  lemma FoldedThenReset()
    ensures var before, after := Run(MINUTELY, ResetRun()[..2]).store, Run(MINUTELY, ResetRun()).store;
      after == before.(epochs := before.epochs["site" := 86_280])
  {
    var evs := ResetRun();
    RunStep(MINUTELY, evs);
    assert evs[..|evs| - 1] == evs[..2];
    assert MinuteOf(86_280) == 86_280;
  }

  lemma ResetMovesExpectation()
    ensures var s, dk := Run(MINUTELY, ResetRun()).store, DayKey("site", 0);
      && dk in s.daily && DayKeys(s.beats, dk) == {}
      && s.daily[dk].okCount == 1 && s.daily[dk].failCount == 0 && s.daily[dk].expectedCount == 607
      && CompleteExpected(MINUTELY, s.epochs, dk) == 2
  {
    var folded := FoldedOnce();
    FoldedThenReset();
    ExpectedWithoutWindows(86_280);
  }

  /** After a reset the stored percentage and the view of a folded day can differ: the
      reset moves the view's denominator and leaves the stored row as it is. */
  lemma ResetSeparatesRowAndView()
    ensures var s, dk := Run(MINUTELY, ResetRun()).store, DayKey("site", 0);
      && Monotone(ResetRun())
      && dk in s.daily && DayKeys(s.beats, dk) == {}
      && !StoredRowIsView(MINUTELY, s, dk, 691_200)
  {
    ResetMovesExpectation();
    FoldedDayIsStoredRow(MINUTELY, ResetRun(), Run(MINUTELY, ResetRun()).store, DayKey("site", 0), 691_200);
  }
}
