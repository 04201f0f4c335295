/** Beats, daily summaries and the pruner (apps/heartbeat/services.py).
    Instants are integer seconds; a day is 86400 of them. */
module Heartbeat {
  import opened Common
  import opened MaintenanceWindows

  const DAY_SECONDS := 86400
  const MINUTE_SECONDS := 60
  const NOTE_LIMIT := 255

  type Positive = i: int | 0 < i witness 1

  datatype Config = Config(windows: seq<Window>, interval: Positive, retentionDays: int)

  datatype Status = Ok | Fail

  datatype Beat = Beat(status: Status, responseMs: nat, note: string, maintenance: bool)

  /** One beat per monitor and minute: the table's unique constraint. */
  datatype BeatKey = BeatKey(monitor: string, minute: int)

  datatype DayKey = DayKey(monitor: string, day: int)

  datatype Summary = Summary(okCount: nat, failCount: nat, maintenanceCount: nat, expectedCount: nat, uptimePct: real)

  datatype Store = Store(beats: map<BeatKey, Beat>, daily: map<DayKey, Summary>, epochs: map<string, int>)

  /** What a probe did: it answered, or it raised. */
  datatype Probe = Answered(ok: bool, responseMs: nat, note: string) | Raised(message: string)

  // ----- classification and counting -----

  /** How a beat enters SLA accounting. */
  datatype SlaClass = SlaOk | SlaFail | InMaintenance

  function Classify(windows: seq<Window>, k: BeatKey, b: Beat): SlaClass {
    if Excluded(windows, k.monitor, k.minute) then InMaintenance
    else if b.status.Ok? then SlaOk
    else SlaFail
  }

  function DayOf(t: int): int { t / DAY_SECONDS }

  function DayStart(day: int): int { day * DAY_SECONDS }

  function DayEnd(day: int): int { DayStart(day) + DAY_SECONDS }

  function DayKeyOf(k: BeatKey): DayKey { DayKey(k.monitor, DayOf(k.minute)) }

  function DayKeys(beats: map<BeatKey, Beat>, dk: DayKey): set<BeatKey> {
    set k | k in beats && DayKeyOf(k) == dk
  }

  function ClassKeys(windows: seq<Window>, beats: map<BeatKey, Beat>, dk: DayKey, c: SlaClass): set<BeatKey> {
    set k | k in beats && DayKeyOf(k) == dk && Classify(windows, k, beats[k]) == c
  }

  /** The beats of one monitor-day in one SLA class. */
  function Tally(windows: seq<Window>, beats: map<BeatKey, Beat>, dk: DayKey, c: SlaClass): nat {
    |ClassKeys(windows, beats, dk, c)|
  }

  function SummaryCount(s: Summary, c: SlaClass): nat {
    match c
    case SlaOk => s.okCount
    case SlaFail => s.failCount
    case InMaintenance => s.maintenanceCount
  }

  function Lookup<K, V>(m: map<K, V>, k: K): Option<V> {
    if k in m then Some(m[k]) else None
  }

  /** A missing summary row counts as zero. */
  function Folded(row: Option<Summary>, c: SlaClass): nat {
    if row.Some? then SummaryCount(row.value, c) else 0
  }

  // ----- expected checks -----

  /** How many checks should have run on `day`: its span, cut to the epoch and
      to `now`, less the SLA-excluded time, in whole intervals. */
  function ExpectedIntervals(cfg: Config, day: int, key: string, epochStart: Option<int>, now: int): nat {
    var start := if epochStart.Some? then Max(DayStart(day), epochStart.value) else DayStart(day);
    var end := Min(DayEnd(day), now);
    if end <= start then 0
    else Max((end - start - ExcludedSeconds(cfg.windows, start, end, key)) / cfg.interval, 0)
  }

  /** `min(n / d * 100, 100)`, and 0 for an empty denominator. */
  function Percent(n: nat, d: nat): real {
    if d == 0 then 0.0
    else if n as real / d as real * 100.0 < 100.0 then n as real / d as real * 100.0
    else 100.0
  }

  // ----- what one prune does -----

  function Cutoff(cfg: Config, now: int): int { now - cfg.retentionDays * DAY_SECONDS }

  function OldBeats(beats: map<BeatKey, Beat>, cutoff: int): map<BeatKey, Beat> {
    map k | k in beats && k.minute < cutoff :: beats[k]
  }

  function DaysTouched(beats: map<BeatKey, Beat>): set<DayKey> {
    set k | k in beats :: DayKeyOf(k)
  }

  /** The summary row after one batch of the day's beats is folded into it. */
  function FoldDay(cfg: Config, prior: Option<Summary>, batch: map<BeatKey, Beat>, dk: DayKey, expected: nat): Summary {
    var ok := Folded(prior, SlaOk) + Tally(cfg.windows, batch, dk, SlaOk);
    var fail := Folded(prior, SlaFail) + Tally(cfg.windows, batch, dk, SlaFail);
    Summary(ok, fail,
            Folded(prior, InMaintenance) + Tally(cfg.windows, batch, dk, InMaintenance),
            expected,
            Percent(ok, Max(ok + fail, expected)))
  }

  function RowAfter(cfg: Config, table: map<DayKey, Summary>, epochs: map<string, int>, batch: map<BeatKey, Beat>, dk: DayKey, now: int): Summary {
    FoldDay(cfg, Lookup(table, dk), batch, dk,
            ExpectedIntervals(cfg, dk.day, dk.monitor, Lookup(epochs, dk.monitor), now))
  }

  function FoldAll(cfg: Config, table: map<DayKey, Summary>, epochs: map<string, int>, batch: map<BeatKey, Beat>, now: int): map<DayKey, Summary> {
    map dk | dk in table.Keys + DaysTouched(batch) ::
      if dk in DaysTouched(batch) then RowAfter(cfg, table, epochs, batch, dk, now) else table[dk]
  }

  function PruneStep(cfg: Config, s: Store, now: int): Store {
    var expired := OldBeats(s.beats, Cutoff(cfg, now));
    Store(s.beats - expired.Keys, FoldAll(cfg, s.daily, s.epochs, expired, now), s.epochs)
  }

  // ----- what recording a beat does -----

  function MinuteOf(now: int): int { now - now % MINUTE_SECONDS }

  ghost predicate IsOldest(beats: map<BeatKey, Beat>, monitor: string, t: int) {
    && BeatKey(monitor, t) in beats
    && forall k | k in beats && k.monitor == monitor :: t <= k.minute
  }

  lemma {:induction false} OldestExists(keys: set<BeatKey>, monitor: string) returns (t: int)
    requires keys != {} && forall k | k in keys :: k.monitor == monitor
    ensures BeatKey(monitor, t) in keys && forall k | k in keys :: t <= k.minute
    decreases |keys|
  {
    var k :| k in keys;
    var rest := keys - {k};
    if rest == {} {
      t := k.minute;
    } else {
      var u := OldestExists(rest, monitor);
      t := Min(u, k.minute);
    }
    assert keys == rest + {k};
  }

  lemma MonitorHasOldest(beats: map<BeatKey, Beat>, k: BeatKey)
    requires k in beats
    ensures exists t :: IsOldest(beats, k.monitor, t)
  {
    var keys := set j | j in beats && j.monitor == k.monitor;
    assert k in keys;
    var t := OldestExists(keys, k.monitor);
    assert IsOldest(beats, k.monitor, t);
  }

  ghost function EnsureEpoch(beats: map<BeatKey, Beat>, epochs: map<string, int>, k: BeatKey): map<string, int>
    requires k in beats
  {
    if k.monitor in epochs then epochs
    else
      MonitorHasOldest(beats, k);
      var t :| IsOldest(beats, k.monitor, t);
      epochs[k.monitor := t]
  }

  function BeatFor(cfg: Config, k: BeatKey, probe: Probe): Beat {
    var ok := probe.Answered? && probe.ok;
    var note := if probe.Answered? then Clip(probe.note) else Clip(probe.message);
    Beat(if ok then Ok else Fail,
         if probe.Answered? then probe.responseMs else 0,
         if ok then "" else note,
         InAnyWindow(cfg.windows, k.monitor, k.minute))
  }

  function Clip(note: string): string {
    if |note| <= NOTE_LIMIT then note else note[..NOTE_LIMIT]
  }

  predicate InAnyWindow(table: seq<Window>, key: string, t: int) {
    exists i | 0 <= i < |table| :: table[i].monitorKey == key && table[i].start <= t < table[i].end
  }

  ghost function RecordStep(cfg: Config, s: Store, now: int, monitor: string, probe: Probe): Store {
    var k := BeatKey(monitor, MinuteOf(now));
    var beats := s.beats[k := BeatFor(cfg, k, probe)];
    Store(beats, s.daily, EnsureEpoch(beats, s.epochs, k))
  }

  /** The epoch row is replaced; its start is cut to the minute. */
  function ResetEpochStep(s: Store, monitor: string, startedAt: int): Store {
    s.(epochs := s.epochs[monitor := MinuteOf(startedAt)])
  }

  // ----- SLA counts over merged ranges -----

  function SpanKeys(beats: map<BeatKey, Beat>, spans: seq<Span>): set<BeatKey> {
    set k | k in beats && InSpans(spans, k.minute)
  }

  function KeysWithin(beats: map<BeatKey, Beat>, span: Span): set<BeatKey> {
    set k | k in beats && span.start <= k.minute < span.end
  }

  function OkKeys(beats: map<BeatKey, Beat>, keys: set<BeatKey>): set<BeatKey>
    requires keys <= beats.Keys
  {
    set k | k in keys && beats[k].status.Ok?
  }

  lemma DayBoundsAreDay(t: int, day: int)
    ensures DayStart(day) <= t < DayEnd(day) <==> DayOf(t) == day
  {
  }

  lemma SpanKeysGrow(beats: map<BeatKey, Beat>, spans: seq<Span>, i: nat, lo: int, hi: int)
    requires i < |spans| && Separated(spans, lo, hi)
    ensures var here := KeysWithin(beats, spans[i]);
      SpanKeys(beats, spans[..i + 1]) == SpanKeys(beats, spans[..i]) + here && SpanKeys(beats, spans[..i]) !! here
  {
    var upTo := spans[..i + 1];
    assert upTo[..|upTo| - 1] == spans[..i];
    assert forall j | 0 <= j < |upTo| :: upTo[j] == spans[j];
    assert Separated(upTo, lo, hi);
    forall k | k in beats
      ensures InSpans(upTo, k.minute) <==> InSpans(spans[..i], k.minute) || spans[i].start <= k.minute < spans[i].end
      ensures spans[i].start <= k.minute ==> !InSpans(spans[..i], k.minute)
    {
      LastSpanIsNew(upTo, lo, hi, k.minute);
    }
  }

  lemma RangeKeysAreClasses(cfg: Config, batch: map<BeatKey, Beat>, dk: DayKey, spans: seq<Span>)
    requires forall k | k in batch :: DayKeyOf(k) == dk
    requires spans == ExcludedRanges(cfg.windows, DayStart(dk.day), DayEnd(dk.day), dk.monitor)
    ensures SpanKeys(batch, spans) == ClassKeys(cfg.windows, batch, dk, InMaintenance)
    ensures OkKeys(batch, batch.Keys) - SpanKeys(batch, spans) == ClassKeys(cfg.windows, batch, dk, SlaOk)
    ensures batch.Keys - OkKeys(batch, batch.Keys) - SpanKeys(batch, spans) == ClassKeys(cfg.windows, batch, dk, SlaFail)
  {
    ExcludedRangesCoverage(cfg.windows, DayStart(dk.day), DayEnd(dk.day), dk.monitor);
    forall k | k in batch
      ensures InSpans(spans, k.minute) <==> Classify(cfg.windows, k, batch[k]) == InMaintenance
    {
      DayBoundsAreDay(k.minute, dk.day);
    }
  }

  lemma TwoWayCounts<T>(all: set<T>, ok: set<T>, inside: set<T>)
    requires ok <= all && inside <= all
    ensures |ok - inside| == |ok| - |ok * inside|
    ensures |all - ok - inside| == |all| - |ok| - (|inside| - |ok * inside|)
  {
    CardinalityMinus(ok, inside);
    CardinalityMinus(inside, ok);
    assert inside * ok == ok * inside;
    CardinalityMinus(all, ok);
    assert all * ok == ok;
    OutsideBoth(all, ok, inside);
  }

  lemma OutsideBoth<T>(all: set<T>, ok: set<T>, inside: set<T>)
    requires inside <= all
    ensures |all - ok| == |inside - ok| + |all - ok - inside|
  {
    CardinalityMinus(all - ok, inside);
    assert (all - ok) * inside == inside - ok;
  }

  /** Counting inside the merged ranges is counting excluded beats. */
  lemma RangeCountsAreTallies(cfg: Config, batch: map<BeatKey, Beat>, dk: DayKey, spans: seq<Span>)
    requires forall k | k in batch :: DayKeyOf(k) == dk
    requires spans == ExcludedRanges(cfg.windows, DayStart(dk.day), DayEnd(dk.day), dk.monitor)
    ensures var oks, inside := OkKeys(batch, batch.Keys), SpanKeys(batch, spans);
      && |inside| == Tally(cfg.windows, batch, dk, InMaintenance)
      && |oks| - |OkKeys(batch, inside)| == Tally(cfg.windows, batch, dk, SlaOk)
      && |batch| - |oks| - (|inside| - |OkKeys(batch, inside)|) == Tally(cfg.windows, batch, dk, SlaFail)
  {
    var oks, inside := OkKeys(batch, batch.Keys), SpanKeys(batch, spans);
    RangeKeysAreClasses(cfg, batch, dk, spans);
    assert OkKeys(batch, inside) == oks * inside;
    TwoWayCounts(batch.Keys, oks, inside);
  }

  // ----- the service -----

  class HeartbeatService {
    const cfg: Config
    var beats: map<BeatKey, Beat>
    var daily: map<DayKey, Summary>
    var epochs: map<string, int>

    ghost function State(): Store
      reads this
    {
      Store(beats, daily, epochs)
    }

    constructor (cfg: Config)
      ensures this.cfg == cfg && State() == Store(map[], map[], map[])
    {
      this.cfg := cfg;
      beats, daily, epochs := map[], map[], map[];
    }

    /** Record one beat for the current minute; a second run in the same minute
        overwrites it. */
    method RunMonitorCheck(now: int, monitor: string, probe: Probe) returns (created: bool)
      modifies this
      ensures State() == RecordStep(cfg, old(State()), now, monitor, probe)
      ensures created <==> BeatKey(monitor, MinuteOf(now)) !in old(beats)
    {
      var minute := now - now % MINUTE_SECONDS;
      var k := BeatKey(monitor, minute);
      created := k !in beats;
      beats := beats[k := BeatFor(cfg, k, probe)];
      if monitor !in epochs {
        var oldest := OldestMinute(k);
        epochs := epochs[monitor := oldest];
      }
    }

    method OldestMinute(k: BeatKey) returns (t: int)
      requires k in beats
      ensures IsOldest(beats, k.monitor, t)
    {
      t := k.minute;
      var seen, todo := {k}, (set j | j in beats && j.monitor == k.monitor) - {k};
      while todo != {}
        invariant seen + todo == set j | j in beats && j.monitor == k.monitor
        invariant BeatKey(k.monitor, t) in beats
        invariant forall j | j in seen :: t <= j.minute
        decreases todo
      {
        var j :| j in todo;
        if j.minute < t {
          t := j.minute;
          assert BeatKey(k.monitor, t) == j;
        }
        seen, todo := seen + {j}, todo - {j};
      }
      assert forall j | j in beats && j.monitor == k.monitor :: j in seen + todo;
    }

    method ResetEpoch(monitor: string, startedAt: int)
      modifies this`epochs
      ensures State() == ResetEpochStep(old(State()), monitor, startedAt)
    {
      var ts := startedAt - startedAt % MINUTE_SECONDS;
      epochs := epochs - {monitor};
      epochs := epochs[monitor := ts];
    }

    /** Fold the expired beats into their daily rows, then delete them. */
    method PruneOldHeartbeats(now: int) returns (deleted: nat)
      modifies this`beats, this`daily
      ensures State() == PruneStep(cfg, old(State()), now)
      ensures deleted == |OldBeats(old(beats), Cutoff(cfg, now))|
    {
      var cutoff := now - cfg.retentionDays * DAY_SECONDS;
      var oldRecords := OldBeats(beats, cutoff);
      deleted := |oldRecords|;
      if |oldRecords| == 0 {
        PruningNothing(cfg, State(), now);
      } else {
        PruningSome(cfg, State(), now, oldRecords);
        FoldAndDelete(oldRecords, now);
      }
    }

    /** The transaction: aggregate, then delete what was aggregated. */
    method FoldAndDelete(oldRecords: map<BeatKey, Beat>, now: int)
      modifies this`beats, this`daily
      ensures daily == FoldAll(cfg, old(daily), epochs, oldRecords, now)
      ensures beats == old(beats) - oldRecords.Keys
    {
      WriteDailySummaries(oldRecords, now);
      beats := beats - oldRecords.Keys;
    }

    /** Fold a batch into the daily table, one (monitor, day) group at a time. */
    method WriteDailySummaries(queryset: map<BeatKey, Beat>, now: int)
      modifies this`daily
      ensures daily == FoldAll(cfg, old(daily), epochs, queryset, now)
    {
      ghost var table := daily;
      daily := FoldGroups(cfg, daily, epochs, queryset, DaysTouched(queryset), now);
      EveryGroupFolded(cfg, table, epochs, queryset, now, daily);
    }
  }

  method FoldGroups(cfg: Config, table: map<DayKey, Summary>, epochs: map<string, int>,
                    queryset: map<BeatKey, Beat>, groups: set<DayKey>, now: int)
    returns (daily: map<DayKey, Summary>)
    ensures daily.Keys == table.Keys + groups
    ensures forall dk | dk in groups :: daily[dk] == RowAfter(cfg, table, epochs, queryset, dk, now)
    ensures forall dk | dk in table && dk !in groups :: daily[dk] == table[dk]
  {
    daily := table;
    var todo := groups;
    while todo != {}
      invariant todo <= groups
      invariant forall dk :: dk in daily <==> dk in table || (dk in groups && dk !in todo)
      invariant forall dk | dk in groups && dk !in todo :: daily[dk] == RowAfter(cfg, table, epochs, queryset, dk, now)
      invariant forall dk | dk in table && (dk !in groups || dk in todo) :: daily[dk] == table[dk]
      decreases todo
    {
      var dk :| dk in todo;
      assert Lookup(daily, dk) == Lookup(table, dk);
      var expected := ExpectedIntervals(cfg, dk.day, dk.monitor, Lookup(epochs, dk.monitor), now);
      var row := FoldedRow(cfg, Lookup(daily, dk), queryset, dk, expected);
      daily := daily[dk := row];
      todo := todo - {dk};
    }
  }

  lemma EveryGroupFolded(cfg: Config, table: map<DayKey, Summary>, epochs: map<string, int>,
                         queryset: map<BeatKey, Beat>, now: int, daily: map<DayKey, Summary>)
    requires daily.Keys == table.Keys + DaysTouched(queryset)
    requires forall dk | dk in DaysTouched(queryset) :: daily[dk] == RowAfter(cfg, table, epochs, queryset, dk, now)
    requires forall dk | dk in table && dk !in DaysTouched(queryset) :: daily[dk] == table[dk]
    ensures daily == FoldAll(cfg, table, epochs, queryset, now)
  {
  }

  /** One group of the aggregation: split its batch at the merged excluded
      ranges and add the counts to the row. */
  method FoldedRow(cfg: Config, prior: Option<Summary>, queryset: map<BeatKey, Beat>, dk: DayKey, expected: nat) returns (row: Summary)
    ensures row == FoldDay(cfg, prior, queryset, dk, expected)
  {
    var batch := GroupBatch(queryset, dk);
    BatchIsGroup(cfg, queryset, dk);
    var slaOk, slaFail, excludedTotal := SplitBatch(cfg, batch, dk);
    row := if prior.Some? then prior.value else Summary(0, 0, 0, expected, 0.0);
    row := row.(okCount := row.okCount + slaOk, failCount := row.failCount + slaFail);
    row := row.(maintenanceCount := row.maintenanceCount + excludedTotal, expectedCount := expected);
    var denominator := Max(row.okCount + row.failCount, expected);
    row := row.(uptimePct := Percent(row.okCount, denominator));
  }

  method SplitBatch(cfg: Config, batch: map<BeatKey, Beat>, dk: DayKey) returns (slaOk: nat, slaFail: nat, excludedTotal: nat)
    requires forall k | k in batch :: DayKeyOf(k) == dk
    ensures slaOk == Tally(cfg.windows, batch, dk, SlaOk)
    ensures slaFail == Tally(cfg.windows, batch, dk, SlaFail)
    ensures excludedTotal == Tally(cfg.windows, batch, dk, InMaintenance)
  {
    var spans := GetExcludedRanges(cfg.windows, DayStart(dk.day), DayEnd(dk.day), dk.monitor);
    var excludedOk: nat;
    excludedOk, excludedTotal := CountExcluded(batch, spans, DayStart(dk.day), DayEnd(dk.day));
    RangeCountsAreTallies(cfg, batch, dk, spans);
    var okTotal := |OkKeys(batch, batch.Keys)|;
    var failTotal := |batch| - okTotal;
    slaOk := okTotal - excludedOk;
    slaFail := failTotal - (excludedTotal - excludedOk);
  }

  method CountExcluded(batch: map<BeatKey, Beat>, spans: seq<Span>, lo: int, hi: int)
    returns (excludedOk: nat, excludedTotal: nat)
    requires Separated(spans, lo, hi)
    ensures excludedTotal == |SpanKeys(batch, spans)|
    ensures excludedOk == |OkKeys(batch, SpanKeys(batch, spans))|
  {
    excludedOk, excludedTotal := 0, 0;
    for i := 0 to |spans|
      invariant excludedTotal == |SpanKeys(batch, spans[..i])|
      invariant excludedOk == |OkKeys(batch, SpanKeys(batch, spans[..i]))|
    {
      var here := KeysWithin(batch, spans[i]);
      SpanCountsGrow(batch, spans, i, lo, hi);
      excludedTotal := excludedTotal + |here|;
      excludedOk := excludedOk + |OkKeys(batch, here)|;
    }
    assert spans[..|spans|] == spans;
  }

  lemma SpanCountsGrow(batch: map<BeatKey, Beat>, spans: seq<Span>, i: nat, lo: int, hi: int)
    requires i < |spans| && Separated(spans, lo, hi)
    ensures var here := KeysWithin(batch, spans[i]);
      && |SpanKeys(batch, spans[..i + 1])| == |SpanKeys(batch, spans[..i])| + |here|
      && |OkKeys(batch, SpanKeys(batch, spans[..i + 1]))| == |OkKeys(batch, SpanKeys(batch, spans[..i]))| + |OkKeys(batch, here)|
  {
    SpanKeysGrow(batch, spans, i, lo, hi);
    OkKeysDistribute(batch, SpanKeys(batch, spans[..i]), KeysWithin(batch, spans[i]));
  }

  lemma OkKeysDistribute(batch: map<BeatKey, Beat>, a: set<BeatKey>, b: set<BeatKey>)
    requires a <= batch.Keys && b <= batch.Keys && a !! b
    ensures |a + b| == |a| + |b|
    ensures |OkKeys(batch, a + b)| == |OkKeys(batch, a)| + |OkKeys(batch, b)|
  {
    assert OkKeys(batch, a + b) == OkKeys(batch, a) + OkKeys(batch, b);
  }

  lemma PruningSome(cfg: Config, s: Store, now: int, batch: map<BeatKey, Beat>)
    requires batch == OldBeats(s.beats, Cutoff(cfg, now))
    ensures PruneStep(cfg, s, now) == Store(s.beats - batch.Keys, FoldAll(cfg, s.daily, s.epochs, batch, now), s.epochs)
  {
  }

  lemma PruningNothing(cfg: Config, s: Store, now: int)
    requires |OldBeats(s.beats, Cutoff(cfg, now))| == 0
    ensures PruneStep(cfg, s, now) == s
  {
    var batch := OldBeats(s.beats, Cutoff(cfg, now));
    assert DaysTouched(batch) == {};
    assert FoldAll(cfg, s.daily, s.epochs, batch, now) == s.daily;
    assert s.beats - batch.Keys == s.beats;
  }

  function GroupBatch(queryset: map<BeatKey, Beat>, dk: DayKey): map<BeatKey, Beat> {
    map k | k in queryset && k.monitor == dk.monitor && DayStart(dk.day) <= k.minute < DayEnd(dk.day) :: queryset[k]
  }

  lemma BatchIsGroup(cfg: Config, queryset: map<BeatKey, Beat>, dk: DayKey)
    ensures forall k | k in GroupBatch(queryset, dk) :: DayKeyOf(k) == dk
    ensures forall c :: Tally(cfg.windows, GroupBatch(queryset, dk), dk, c) == Tally(cfg.windows, queryset, dk, c)
  {
    var batch := GroupBatch(queryset, dk);
    forall k | k in queryset && k.monitor == dk.monitor
      ensures DayStart(dk.day) <= k.minute < DayEnd(dk.day) <==> DayKeyOf(k) == dk
    {
      DayBoundsAreDay(k.minute, dk.day);
    }
    forall c ensures Tally(cfg.windows, batch, dk, c) == Tally(cfg.windows, queryset, dk, c) {
      assert ClassKeys(cfg.windows, batch, dk, c) == ClassKeys(cfg.windows, queryset, dk, c);
    }
  }
}
