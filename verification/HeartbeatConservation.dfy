/** Conservation of beats over every run of recording, pruning and epoch resets. */
module HeartbeatConservation {
  import opened Common
  import opened MaintenanceWindows
  import opened Heartbeat

  datatype Event =
    | Record(now: int, monitor: string, probe: Probe)
    | Prune(now: int)
    | Reset(now: int, monitor: string, startedAt: int)

  /** The live tables, beside every beat ever recorded had nothing been pruned. */
  datatype World = World(store: Store, history: map<BeatKey, Beat>)

  ghost function Step(cfg: Config, w: World, ev: Event): World {
    match ev
    case Record(now, monitor, probe) =>
      var k := BeatKey(monitor, MinuteOf(now));
      World(RecordStep(cfg, w.store, now, monitor, probe), w.history[k := BeatFor(cfg, k, probe)])
    case Prune(now) => World(PruneStep(cfg, w.store, now), w.history)
    case Reset(now, monitor, startedAt) => World(ResetEpochStep(w.store, monitor, startedAt), w.history)
  }

  ghost function Run(cfg: Config, evs: seq<Event>): World {
    if evs == [] then World(Store(map[], map[], map[]), map[])
    else Step(cfg, Run(cfg, evs[..|evs| - 1]), evs[|evs| - 1])
  }

  /** The clock never runs backwards. */
  ghost predicate Monotone(evs: seq<Event>) {
    forall i, j | 0 <= i < j < |evs| :: evs[i].now <= evs[j].now
  }

  ghost function Pruned(w: World): map<BeatKey, Beat> {
    w.history - w.store.beats.Keys
  }

  /** Nothing is lost and nothing is counted twice. */
  ghost predicate Conserved(cfg: Config, w: World) {
    forall dk, c :: Folded(Lookup(w.store.daily, dk), c) + Tally(cfg.windows, w.store.beats, dk, c)
                 == Tally(cfg.windows, w.history, dk, c)
  }

  /** What every event keeps; `t` bounds the events so far. */
  ghost predicate Accounted(cfg: Config, w: World, t: int) {
    && (forall k | k in w.store.beats :: k in w.history && w.history[k] == w.store.beats[k])
    && (forall k | k in Pruned(w) :: k.minute < Cutoff(cfg, t))
    && RowsMatchPruned(cfg, w)
  }

  ghost predicate RowsMatchPruned(cfg: Config, w: World) {
    && (forall dk, c :: Folded(Lookup(w.store.daily, dk), c) == Tally(cfg.windows, Pruned(w), dk, c))
    && (forall dk :: dk in w.store.daily <==> DayKeys(Pruned(w), dk) != {})
  }

  lemma TallyUnion(windows: seq<Window>, a: map<BeatKey, Beat>, b: map<BeatKey, Beat>, whole: map<BeatKey, Beat>,
                   dk: DayKey, c: SlaClass)
    requires a.Keys !! b.Keys && whole == a + b
    ensures Tally(windows, whole, dk, c) == Tally(windows, a, dk, c) + Tally(windows, b, dk, c)
  {
    CardinalitySplit(ClassKeys(windows, whole, dk, c), ClassKeys(windows, a, dk, c), ClassKeys(windows, b, dk, c));
  }

  lemma RecordKeepsPruned(cfg: Config, w: World, t: int, ev: Event)
    requires 1 <= cfg.retentionDays && Accounted(cfg, w, t)
    requires ev.Record? && t <= ev.now
    ensures Pruned(Step(cfg, w, ev)) == Pruned(w)
  {
    var k := BeatKey(ev.monitor, MinuteOf(ev.now));
    assert Cutoff(cfg, t) < k.minute;
    assert k !in Pruned(w);
  }

  lemma PruneExtendsPruned(cfg: Config, w: World, t: int, now: int)
    requires Accounted(cfg, w, t)
    ensures var expired := OldBeats(w.store.beats, Cutoff(cfg, now));
      expired.Keys !! Pruned(w).Keys && Pruned(Step(cfg, w, Prune(now))) == Pruned(w) + expired
  {
  }

  lemma PruneMatchesRows(cfg: Config, w: World, t: int, now: int)
    requires Accounted(cfg, w, t)
    ensures RowsMatchPruned(cfg, Step(cfg, w, Prune(now)))
  {
    var expired := OldBeats(w.store.beats, Cutoff(cfg, now));
    var next := Step(cfg, w, Prune(now));
    PruneExtendsPruned(cfg, w, t, now);
    forall dk, c ensures Folded(Lookup(next.store.daily, dk), c) == Tally(cfg.windows, Pruned(next), dk, c) {
      TallyUnion(cfg.windows, Pruned(w), expired, Pruned(next), dk, c);
      PruneRowCount(cfg, w.store, now, dk, c);
    }
    forall dk ensures dk in next.store.daily <==> DayKeys(Pruned(next), dk) != {} {
      TouchedDays(expired, dk);
      assert DayKeys(Pruned(next), dk) == DayKeys(Pruned(w), dk) + DayKeys(expired, dk);
    }
  }

  lemma TouchedDays(batch: map<BeatKey, Beat>, dk: DayKey)
    ensures dk in DaysTouched(batch) <==> DayKeys(batch, dk) != {}
  {
    if dk in DaysTouched(batch) {
      var k :| k in batch && DayKeyOf(k) == dk;
      assert k in DayKeys(batch, dk);
    }
  }

  /** One prune adds exactly its batch's tally to every row. */
  lemma PruneRowCount(cfg: Config, s: Store, now: int, dk: DayKey, c: SlaClass)
    ensures Folded(Lookup(PruneStep(cfg, s, now).daily, dk), c)
         == Folded(Lookup(s.daily, dk), c) + Tally(cfg.windows, OldBeats(s.beats, Cutoff(cfg, now)), dk, c)
  {
    var expired := OldBeats(s.beats, Cutoff(cfg, now));
    TouchedDays(expired, dk);
    if dk !in DaysTouched(expired) {
      assert ClassKeys(cfg.windows, expired, dk, c) == {};
    }
  }

  lemma StepKeepsAccount(cfg: Config, w: World, t: int, ev: Event)
    requires 1 <= cfg.retentionDays && Accounted(cfg, w, t) && t <= ev.now
    ensures Accounted(cfg, Step(cfg, w, ev), ev.now)
  {
    match ev
    case Record(now, monitor, probe) =>
      RecordKeepsPruned(cfg, w, t, ev);
      assert Step(cfg, w, ev).store.daily == w.store.daily;
    case Prune(now) =>
      PruneExtendsPruned(cfg, w, t, now);
      PruneMatchesRows(cfg, w, t, now);
    case Reset(now, monitor, startedAt) =>
      assert Pruned(Step(cfg, w, ev)) == Pruned(w);
  }

  ghost function LastInstant(evs: seq<Event>): int {
    if evs == [] then 0 else evs[|evs| - 1].now
  }

  lemma {:induction false} RunIsAccounted(cfg: Config, evs: seq<Event>)
    requires 1 <= cfg.retentionDays && Monotone(evs)
    ensures Accounted(cfg, Run(cfg, evs), LastInstant(evs))
  {
    if evs == [] {
      EmptyWorldAccounted(cfg);
    } else {
      var front, ev := evs[..|evs| - 1], evs[|evs| - 1];
      RunIsAccounted(cfg, front);
      if front == [] {
        EmptyWorldAccounted(cfg);
        StepKeepsAccount(cfg, Run(cfg, front), ev.now, ev);
      } else {
        assert LastInstant(front) == evs[|evs| - 2].now;
        StepKeepsAccount(cfg, Run(cfg, front), LastInstant(front), ev);
      }
    }
  }

  lemma EmptyWorldAccounted(cfg: Config)
    ensures forall t :: Accounted(cfg, Run(cfg, []), t)
  {
    var w := Run(cfg, []);
    forall dk, c ensures Tally(cfg.windows, Pruned(w), dk, c) == 0 && DayKeys(Pruned(w), dk) == {} {
      assert ClassKeys(cfg.windows, Pruned(w), dk, c) == {};
    }
  }

  /** Over every run, each monitor-day's summary counts plus the same counts over
      its remaining raw beats equal the counts over the never-pruned history. */
  lemma Conservation(cfg: Config, evs: seq<Event>)
    requires 1 <= cfg.retentionDays && Monotone(evs)
    ensures Conserved(cfg, Run(cfg, evs))
  {
    var w := Run(cfg, evs);
    RunIsAccounted(cfg, evs);
    forall dk, c
      ensures Folded(Lookup(w.store.daily, dk), c) + Tally(cfg.windows, w.store.beats, dk, c)
           == Tally(cfg.windows, w.history, dk, c)
    {
      assert w.history == Pruned(w) + w.store.beats;
      TallyUnion(cfg.windows, Pruned(w), w.store.beats, w.history, dk, c);
    }
  }

  /** With no retention a beat can be pruned and recorded again in its minute. */
  ghost function SameMinuteRun(): seq<Event> {
    [Record(100, "site", Answered(true, 1, "")), Prune(110), Record(115, "site", Answered(true, 1, ""))]
  }

  lemma SameMinuteCountedTwice(cfg: Config)
    requires cfg.retentionDays <= 0
    ensures Monotone(SameMinuteRun()) && !Conserved(cfg, Run(cfg, SameMinuteRun()))
  {
    var evs, k := SameMinuteRun(), BeatKey("site", 60);
    var b := BeatFor(cfg, k, Answered(true, 1, ""));
    var dk, c := DayKey("site", 0), Classify(cfg.windows, k, b);
    assert evs[..2][..1] == evs[..1] && evs[..1][..0] == [];
    var w1, w2, w3 := Run(cfg, evs[..1]), Run(cfg, evs[..2]), Run(cfg, evs);
    assert Run(cfg, []).history == map[];
    assert w1 == Step(cfg, Run(cfg, []), evs[0]) && w2 == Step(cfg, w1, evs[1]) && w3 == Step(cfg, w2, evs[2]);
    assert w1.store.beats == map[k := b] == w1.history && w1.store.daily == map[];
    assert OldBeats(w1.store.beats, Cutoff(cfg, 110)) == map[k := b];
    assert ClassKeys(cfg.windows, map[k := b], dk, c) == {k};
    PruneRowCount(cfg, w1.store, 110, dk, c);
    assert w3.store.daily == w2.store.daily && w3.store.beats == map[k := b] == w3.history;
  }

  /** Conservation holds of every run exactly when a day or more is retained. */
  lemma ConservationNeedsRetention(cfg: Config)
    ensures (forall evs | Monotone(evs) :: Conserved(cfg, Run(cfg, evs))) <==> 1 <= cfg.retentionDays
  {
    if 1 <= cfg.retentionDays {
      forall evs | Monotone(evs) ensures Conserved(cfg, Run(cfg, evs)) {
        Conservation(cfg, evs);
      }
    } else {
      SameMinuteCountedTwice(cfg);
    }
  }

  /** The counts do not depend on how the beats were split into batches. */
  lemma BatchIndependence(cfg: Config, one: seq<Event>, other: seq<Event>, dk: DayKey, c: SlaClass)
    requires 1 <= cfg.retentionDays && Monotone(one) && Monotone(other)
    requires Run(cfg, one).history == Run(cfg, other).history
    requires Run(cfg, one).store.beats == Run(cfg, other).store.beats
    ensures Folded(Lookup(Run(cfg, one).store.daily, dk), c) == Folded(Lookup(Run(cfg, other).store.daily, dk), c)
    ensures dk in Run(cfg, one).store.daily <==> dk in Run(cfg, other).store.daily
  {
    RunIsAccounted(cfg, one);
    RunIsAccounted(cfg, other);
  }

  // ----- settings and windows that change while the service runs -----

  /** A run whose events each meet the windows and settings of their moment. */
  ghost function ChangingRun(cfgs: seq<Config>, evs: seq<Event>): World
    requires |cfgs| == |evs|
  {
    if evs == [] then World(Store(map[], map[], map[]), map[])
    else Step(cfgs[|evs| - 1], ChangingRun(cfgs[..|evs| - 1], evs[..|evs| - 1]), evs[|evs| - 1])
  }

  /** A row's three counts together. */
  ghost function Recorded(row: Option<Summary>): nat {
    Folded(row, SlaOk) + Folded(row, SlaFail) + Folded(row, InMaintenance)
  }

  /** What every event keeps, whatever the windows: the rows together hold the pruned
      beats, and those lie more than a day back. */
  ghost predicate DaysAccounted(w: World, t: int) {
    && w.store.beats.Keys <= w.history.Keys
    && (forall k | k in Pruned(w) :: k.minute < t - DAY_SECONDS)
    && (forall dk :: Recorded(Lookup(w.store.daily, dk)) == |DayKeys(Pruned(w), dk)|)
  }

  /** Every beat of a monitor-day is in exactly one class, under any windows. */
  lemma ClassesPartitionDay(windows: seq<Window>, beats: map<BeatKey, Beat>, dk: DayKey)
    ensures Tally(windows, beats, dk, SlaOk) + Tally(windows, beats, dk, SlaFail) + Tally(windows, beats, dk, InMaintenance)
         == |DayKeys(beats, dk)|
  {
    var ok, fail := ClassKeys(windows, beats, dk, SlaOk), ClassKeys(windows, beats, dk, SlaFail);
    CardinalitySplit(ok + fail, ok, fail);
    CardinalitySplit(DayKeys(beats, dk), ok + fail, ClassKeys(windows, beats, dk, InMaintenance));
  }

  lemma PruneRecords(cfg: Config, s: Store, now: int, dk: DayKey)
    ensures Recorded(Lookup(PruneStep(cfg, s, now).daily, dk))
         == Recorded(Lookup(s.daily, dk)) + |DayKeys(OldBeats(s.beats, Cutoff(cfg, now)), dk)|
  {
    PruneRowCount(cfg, s, now, dk, SlaOk);
    PruneRowCount(cfg, s, now, dk, SlaFail);
    PruneRowCount(cfg, s, now, dk, InMaintenance);
    ClassesPartitionDay(cfg.windows, OldBeats(s.beats, Cutoff(cfg, now)), dk);
  }

  lemma PrunedGrows(cfg: Config, w: World, now: int)
    requires w.store.beats.Keys <= w.history.Keys
    ensures var expired, next := OldBeats(w.store.beats, Cutoff(cfg, now)), Step(cfg, w, Prune(now));
      && Pruned(next).Keys == Pruned(w).Keys + expired.Keys && Pruned(w).Keys !! expired.Keys
      && next.store.beats.Keys <= next.history.Keys
  {
  }

  lemma DisjointDayKeys(a: map<BeatKey, Beat>, b: map<BeatKey, Beat>, whole: map<BeatKey, Beat>, dk: DayKey)
    requires a.Keys !! b.Keys && whole.Keys == a.Keys + b.Keys
    ensures |DayKeys(whole, dk)| == |DayKeys(a, dk)| + |DayKeys(b, dk)|
  {
    CardinalitySplit(DayKeys(whole, dk), DayKeys(a, dk), DayKeys(b, dk));
  }

  lemma PruneKeepsDay(cfg: Config, w: World, t: int, now: int, dk: DayKey)
    requires DaysAccounted(w, t)
    ensures var next := Step(cfg, w, Prune(now));
      Recorded(Lookup(next.store.daily, dk)) == |DayKeys(Pruned(next), dk)|
  {
    PrunedGrows(cfg, w, now);
    PruneRecords(cfg, w.store, now, dk);
    DisjointDayKeys(Pruned(w), OldBeats(w.store.beats, Cutoff(cfg, now)), Pruned(Step(cfg, w, Prune(now))), dk);
  }

  lemma PruneKeepsDays(cfg: Config, w: World, t: int, now: int)
    requires 1 <= cfg.retentionDays && DaysAccounted(w, t) && t <= now
    ensures DaysAccounted(Step(cfg, w, Prune(now)), now)
  {
    var expired, next := OldBeats(w.store.beats, Cutoff(cfg, now)), Step(cfg, w, Prune(now));
    PrunedGrows(cfg, w, now);
    forall k | k in Pruned(next) ensures k.minute < now - DAY_SECONDS {
      assert k in Pruned(w) || k in expired;
      assert Cutoff(cfg, now) <= now - DAY_SECONDS;
    }
    forall dk ensures Recorded(Lookup(next.store.daily, dk)) == |DayKeys(Pruned(next), dk)| {
      PruneKeepsDay(cfg, w, t, now, dk);
    }
  }

  lemma StepKeepsDays(cfg: Config, w: World, t: int, ev: Event)
    requires 1 <= cfg.retentionDays && DaysAccounted(w, t) && t <= ev.now
    ensures DaysAccounted(Step(cfg, w, ev), ev.now)
  {
    match ev
    case Record(now, monitor, probe) =>
      var k := BeatKey(monitor, MinuteOf(now));
      assert k !in Pruned(w);
      assert Pruned(Step(cfg, w, ev)) == Pruned(w);
    case Prune(now) => PruneKeepsDays(cfg, w, t, now);
    case Reset(now, monitor, startedAt) => assert Pruned(Step(cfg, w, ev)) == Pruned(w);
  }

  lemma {:induction false} ChangingRunIsAccounted(cfgs: seq<Config>, evs: seq<Event>)
    requires |cfgs| == |evs| && Monotone(evs) && forall i | 0 <= i < |cfgs| :: 1 <= cfgs[i].retentionDays
    ensures forall t | evs == [] || LastInstant(evs) <= t :: DaysAccounted(ChangingRun(cfgs, evs), t)
  {
    if evs == [] {
      NothingRecorded();
    } else {
      var front, ev := evs[..|evs| - 1], evs[|evs| - 1];
      ChangingRunIsAccounted(cfgs[..|evs| - 1], front);
      assert front != [] ==> LastInstant(front) == evs[|evs| - 2].now;
      StepKeepsDays(cfgs[|evs| - 1], ChangingRun(cfgs[..|evs| - 1], front), ev.now, ev);
    }
  }

  lemma NothingRecorded()
    ensures forall t :: DaysAccounted(World(Store(map[], map[], map[]), map[]), t)
  {
    var w := World(Store(map[], map[], map[]), map[]);
    forall dk ensures Recorded(Lookup(w.store.daily, dk)) == |DayKeys(Pruned(w), dk)| {
      assert DayKeys(Pruned(w), dk) == {};
    }
  }

  /** However windows and settings change between events, as long as a day is retained,
      a monitor-day's three summary counts and its remaining beats together are its
      never-pruned beats. Only their division into classes follows the windows. */
  lemma DaysSurviveWindowChanges(cfgs: seq<Config>, evs: seq<Event>, dk: DayKey)
    requires |cfgs| == |evs| && Monotone(evs) && forall i | 0 <= i < |cfgs| :: 1 <= cfgs[i].retentionDays
    ensures var w := ChangingRun(cfgs, evs);
      Recorded(Lookup(w.store.daily, dk)) + |DayKeys(w.store.beats, dk)| == |DayKeys(w.history, dk)|
  {
    var w := ChangingRun(cfgs, evs);
    ChangingRunIsAccounted(cfgs, evs);
    assert DaysAccounted(w, LastInstant(evs));
    DisjointDayKeys(Pruned(w), w.store.beats, w.history, dk);
  }

  // ----- the stored row -----

  ghost function CompleteExpected(cfg: Config, epochs: map<string, int>, dk: DayKey): nat {
    ExpectedIntervals(cfg, dk.day, dk.monitor, Lookup(epochs, dk.monitor), DayEnd(dk.day))
  }

  lemma ExpectedOfCompletedDay(cfg: Config, day: int, key: string, epochStart: Option<int>, now: int)
    requires DayEnd(day) <= now
    ensures ExpectedIntervals(cfg, day, key, epochStart, now) == ExpectedIntervals(cfg, day, key, epochStart, DayEnd(day))
  {
  }

  lemma PrunedRow(cfg: Config, s: Store, now: int, dk: DayKey)
    requires dk in PruneStep(cfg, s, now).daily
    ensures var expired := OldBeats(s.beats, Cutoff(cfg, now));
      if dk in DaysTouched(expired)
      then PruneStep(cfg, s, now).daily[dk] == RowAfter(cfg, s.daily, s.epochs, expired, dk, now)
      else dk in s.daily && PruneStep(cfg, s, now).daily[dk] == s.daily[dk]
  {
  }

  /** The stored percentage is the fraction of the row's own counts over the larger of
      its beats and the expectation stored with it. */
  ghost predicate RowFraction(row: Summary) {
    row.uptimePct == Percent(row.okCount, Max(row.okCount + row.failCount, row.expectedCount))
  }

  lemma FoldedRowFraction(cfg: Config, table: map<DayKey, Summary>, epochs: map<string, int>,
                          batch: map<BeatKey, Beat>, dk: DayKey, now: int)
    ensures RowFraction(RowAfter(cfg, table, epochs, batch, dk, now))
  {
  }

  lemma OnlyPrunesWriteRows(cfg: Config, w: World, ev: Event)
    requires !ev.Prune?
    ensures Step(cfg, w, ev).store.daily == w.store.daily
  {
  }

  lemma RunStep(cfg: Config, evs: seq<Event>)
    requires evs != []
    ensures Run(cfg, evs) == Step(cfg, Run(cfg, evs[..|evs| - 1]), evs[|evs| - 1])
  {
  }

  /** In every row of every run, resets included. */
  lemma {:induction false} RunKeepsRowFractions(cfg: Config, evs: seq<Event>, dk: DayKey)
    requires dk in Run(cfg, evs).store.daily
    ensures RowFraction(Run(cfg, evs).store.daily[dk])
  {
    var front, ev := evs[..|evs| - 1], evs[|evs| - 1];
    var w := Run(cfg, front);
    RunStep(cfg, evs);
    if !ev.Prune? {
      OnlyPrunesWriteRows(cfg, w, ev);
      RunKeepsRowFractions(cfg, front, dk);
    } else {
      var expired := OldBeats(w.store.beats, Cutoff(cfg, ev.now));
      PrunedRow(cfg, w.store, ev.now, dk);
      if dk in DaysTouched(expired) {
        FoldedRowFraction(cfg, w.store.daily, w.store.epochs, expired, dk, ev.now);
      } else {
        RunKeepsRowFractions(cfg, front, dk);
      }
    }
  }

  // ----- rows of a monitor whose epoch is never reset -----

  ghost predicate NeverReset(evs: seq<Event>, monitor: string) {
    forall i | 0 <= i < |evs| :: evs[i].Reset? ==> evs[i].monitor != monitor
  }

  /** The row of a day that is over holds the expectation of the whole day. */
  ghost predicate RowComplete(cfg: Config, epochs: map<string, int>, row: Summary, dk: DayKey, t: int) {
    DayEnd(dk.day) <= t && dk.monitor in epochs && row.expectedCount == CompleteExpected(cfg, epochs, dk)
  }

  ghost predicate RowsComplete(cfg: Config, s: Store, monitor: string, t: int) {
    && (forall k | k in s.beats && k.monitor == monitor :: monitor in s.epochs)
    && (forall dk | dk in s.daily && dk.monitor == monitor :: RowComplete(cfg, s.epochs, s.daily[dk], dk, t))
  }

  lemma TouchedDayIsOver(cfg: Config, beats: map<BeatKey, Beat>, now: int, dk: DayKey)
    requires 1 <= cfg.retentionDays
    requires dk in DaysTouched(OldBeats(beats, Cutoff(cfg, now)))
    ensures DayEnd(dk.day) <= now
    ensures exists k :: k in beats && k.monitor == dk.monitor
  {
    var k :| k in beats && k.minute < Cutoff(cfg, now) && DayKeyOf(k) == dk;
    DayBoundsAreDay(k.minute, dk.day);
  }

  lemma FoldedRowIsComplete(cfg: Config, s: Store, batch: map<BeatKey, Beat>, now: int, dk: DayKey)
    requires DayEnd(dk.day) <= now && dk.monitor in s.epochs
    ensures RowComplete(cfg, s.epochs, RowAfter(cfg, s.daily, s.epochs, batch, dk, now), dk, now)
  {
    ExpectedOfCompletedDay(cfg, dk.day, dk.monitor, Lookup(s.epochs, dk.monitor), now);
  }

  lemma PruneKeepsRowComplete(cfg: Config, s: Store, t: int, now: int, dk: DayKey)
    requires 1 <= cfg.retentionDays && RowsComplete(cfg, s, dk.monitor, t) && t <= now
    requires dk in PruneStep(cfg, s, now).daily
    ensures RowComplete(cfg, s.epochs, PruneStep(cfg, s, now).daily[dk], dk, now)
  {
    var expired := OldBeats(s.beats, Cutoff(cfg, now));
    PrunedRow(cfg, s, now, dk);
    if dk in DaysTouched(expired) {
      TouchedDayIsOver(cfg, s.beats, now, dk);
      FoldedRowIsComplete(cfg, s, expired, now, dk);
    }
  }

  lemma StepKeepsRowsComplete(cfg: Config, w: World, monitor: string, t: int, ev: Event)
    requires 1 <= cfg.retentionDays && RowsComplete(cfg, w.store, monitor, t) && t <= ev.now
    requires ev.Reset? ==> ev.monitor != monitor
    ensures RowsComplete(cfg, Step(cfg, w, ev).store, monitor, ev.now)
  {
    var s, next := w.store, Step(cfg, w, ev).store;
    forall dk | dk in next.daily && dk.monitor == monitor
      ensures RowComplete(cfg, next.epochs, next.daily[dk], dk, ev.now)
    {
      if ev.Prune? {
        PruneKeepsRowComplete(cfg, s, t, ev.now, dk);
      } else {
        assert RowComplete(cfg, s.epochs, s.daily[dk], dk, t);
      }
    }
  }

  /** As long as a monitor's epoch is not reset, its rows hold the expectation the
      view computes anew. */
  lemma {:induction false} RunKeepsRowsComplete(cfg: Config, evs: seq<Event>, monitor: string)
    requires 1 <= cfg.retentionDays && Monotone(evs) && NeverReset(evs, monitor)
    ensures RowsComplete(cfg, Run(cfg, evs).store, monitor, LastInstant(evs))
  {
    if evs != [] {
      var front, ev := evs[..|evs| - 1], evs[|evs| - 1];
      RunKeepsRowsComplete(cfg, front, monitor);
      var t := if front == [] then ev.now else LastInstant(front);
      assert front != [] ==> LastInstant(front) == evs[|evs| - 2].now;
      assert RowsComplete(cfg, Run(cfg, front).store, monitor, t);
      StepKeepsRowsComplete(cfg, Run(cfg, front), monitor, t, ev);
    }
  }

  lemma SameCountsSameRow(a: Summary, b: Summary)
    requires RowFraction(a) && RowFraction(b) && a.expectedCount == b.expectedCount
    requires forall c :: SummaryCount(a, c) == SummaryCount(b, c)
    ensures a == b
  {
    assert SummaryCount(a, SlaOk) == SummaryCount(b, SlaOk);
    assert SummaryCount(a, SlaFail) == SummaryCount(b, SlaFail);
    assert SummaryCount(a, InMaintenance) == SummaryCount(b, InMaintenance);
  }

  lemma NeverResetRow(cfg: Config, evs: seq<Event>, dk: DayKey)
    requires 1 <= cfg.retentionDays && Monotone(evs) && NeverReset(evs, dk.monitor)
    requires dk in Run(cfg, evs).store.daily
    ensures Run(cfg, evs).store.daily[dk].expectedCount == CompleteExpected(cfg, Run(cfg, evs).store.epochs, dk)
  {
    RunKeepsRowsComplete(cfg, evs, dk.monitor);
    assert RowComplete(cfg, Run(cfg, evs).store.epochs, Run(cfg, evs).store.daily[dk], dk, LastInstant(evs));
  }

  /** Nor do the rows themselves, expectation and percentage included: the same beats
      under the same epoch give the same row, however they were split into batches. */
  lemma BatchIndependentRows(cfg: Config, one: seq<Event>, other: seq<Event>, dk: DayKey)
    requires 1 <= cfg.retentionDays && Monotone(one) && Monotone(other)
    requires NeverReset(one, dk.monitor) && NeverReset(other, dk.monitor)
    requires Run(cfg, one).history == Run(cfg, other).history
    requires Run(cfg, one).store.beats == Run(cfg, other).store.beats
    requires Lookup(Run(cfg, one).store.epochs, dk.monitor) == Lookup(Run(cfg, other).store.epochs, dk.monitor)
    ensures Lookup(Run(cfg, one).store.daily, dk) == Lookup(Run(cfg, other).store.daily, dk)
  {
    forall c
      ensures Folded(Lookup(Run(cfg, one).store.daily, dk), c) == Folded(Lookup(Run(cfg, other).store.daily, dk), c)
      ensures dk in Run(cfg, one).store.daily <==> dk in Run(cfg, other).store.daily
    {
      BatchIndependence(cfg, one, other, dk, c);
    }
    var a, b := Run(cfg, one).store.daily, Run(cfg, other).store.daily;
    BatchIndependence(cfg, one, other, dk, SlaOk);
    if dk in a {
      RunKeepsRowFractions(cfg, one, dk);
      RunKeepsRowFractions(cfg, other, dk);
      NeverResetRow(cfg, one, dk);
      NeverResetRow(cfg, other, dk);
      RowsWithSameCounts(a, b, dk);
    }
  }

  lemma RowsWithSameCounts(a: map<DayKey, Summary>, b: map<DayKey, Summary>, dk: DayKey)
    requires dk in a && dk in b && RowFraction(a[dk]) && RowFraction(b[dk])
    requires a[dk].expectedCount == b[dk].expectedCount
    requires forall c :: Folded(Lookup(a, dk), c) == Folded(Lookup(b, dk), c)
    ensures a[dk] == b[dk]
  {
    forall c ensures SummaryCount(a[dk], c) == SummaryCount(b[dk], c) {
      assert Folded(Lookup(a, dk), c) == Folded(Lookup(b, dk), c);
    }
    SameCountsSameRow(a[dk], b[dk]);
  }
}
