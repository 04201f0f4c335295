/** Seeking along a band (apps/cw/radiodaemon.py): peaks of a power sweep, snapped to
    the channel raster, and stepping from one station to the next. Frequencies in Hz. */
module RadioSeek {
  import opened Common
  import Sorting

  datatype Band = Fm | Air

  function Low(b: Band): int { if b.Fm? then 88_000_000 else 118_000_000 }
  function High(b: Band): int { if b.Fm? then 108_000_000 else 137_000_000 }
  /** The channel raster. */
  function Raster(b: Band): int { if b.Fm? then 100_000 else 25_000 }
  /** A peak nearer than this to a kept station belongs to that station. */
  function Separation(b: Band): int { if b.Fm? then 250_000 else 20_000 }
  /** A station nearer than this to the dial is the one being listened to. */
  function Guard(b: Band): int { if b.Fm? then 150_000 else 20_000 }

  datatype Bin = Bin(hz: real, db: real)

  datatype Peak = Peak(snr: real, hz: real)

  datatype Station = Station(hz: int, snr: real)

  function Abs(x: real): real { if x < 0.0 then -x else x }

  predicate InBand(bins: seq<Bin>, b: Band) {
    forall i | 0 <= i < |bins| :: Low(b) as real <= bins[i].hz <= High(b) as real
  }

  // ----- finding stations -----

  function Median(values: seq<real>): real
    requires values != []
  {
    var sorted := Sorting.Sort(values, (x: real, y: real) => x <= y);
    Sorting.SortPermutes(values, (x: real, y: real) => x <= y);
    var n := |values|;
    if n % 2 == 1 then sorted[n / 2] else (sorted[n / 2 - 1] + sorted[n / 2]) / 2.0
  }

  function Floor(bins: seq<Bin>): real
    requires bins != []
  {
    Median(seq(|bins|, i requires 0 <= i < |bins| => bins[i].db))
  }

  /** Bin `i` stands out of the noise and is no lower than its neighbours. */
  predicate IsPeak(bins: seq<Bin>, i: int, floor: real, threshold: real) {
    && 1 <= i < |bins| - 1
    && bins[i].db - floor >= threshold
    && bins[i].db >= bins[i - 1].db && bins[i].db >= bins[i + 1].db
  }

  function PeakAt(bins: seq<Bin>, i: int, floor: real): Peak
    requires 0 <= i < |bins|
  {
    Peak(bins[i].db - floor, bins[i].hz)
  }

  /** The peaks among the first `n` bins. */
  function Candidates(bins: seq<Bin>, n: nat, floor: real, threshold: real): seq<Peak>
    requires n <= |bins|
  {
    if n == 0 then []
    else
      var rest := Candidates(bins, n - 1, floor, threshold);
      if IsPeak(bins, n - 1, floor, threshold) then rest + [PeakAt(bins, n - 1, floor)] else rest
  }

  /** Strongest first, higher frequency first among equals. */
  predicate Stronger(p: Peak, q: Peak) { p.snr > q.snr || (p.snr == q.snr && p.hz >= q.hz) }

  predicate NotAbove(s: Station, t: Station) { s.hz < t.hz || (s.hz == t.hz && s.snr <= t.snr) }

  /** Python's `round` to the nearest integer, halves to the even one. */
  function RoundHalfEven(x: real): (n: int)
    ensures -0.5 <= x - n as real <= 0.5
  {
    var f := x.Floor;
    var part := x - f as real;
    if part < 0.5 then f else if part > 0.5 then f + 1 else if f % 2 == 0 then f else f + 1
  }

  function Snap(hz: real, b: Band): int {
    if b.Fm? then RoundHalfEven(hz / 100_000.0) * 100_000 else RoundHalfEven(hz / 25_000.0) * 25_000
  }

  predicate Suppressed(p: Peak, kept: seq<Station>, b: Band) {
    exists k | k in kept :: Abs(p.hz - k.hz as real) < Separation(b) as real
  }

  /** The stations kept of peaks taken in this order. */
  function Greedy(peaks: seq<Peak>, b: Band): seq<Station> {
    if peaks == [] then []
    else
      var p := peaks[|peaks| - 1];
      var kept := Greedy(peaks[..|peaks| - 1], b);
      if Suppressed(p, kept, b) then kept else kept + [Station(Snap(p.hz, b), p.snr)]
  }

  function StationsOf(bins: seq<Bin>, b: Band, threshold: real): seq<Station> {
    if |bins| < 8 then []
    else
      var peaks := Sorting.Sort(Candidates(bins, |bins|, Floor(bins), threshold), Stronger);
      Sorting.Sort(Greedy(peaks, b), NotAbove)
  }

  method FindStations(bins: seq<Bin>, b: Band, threshold: real) returns (stations: seq<Station>)
    ensures stations == StationsOf(bins, b, threshold)
  {
    if |bins| < 8 {
      return [];
    }
    var floor := Floor(bins);
    var candidates: seq<Peak> := [];
    for i := 1 to |bins| - 1
      invariant candidates == Candidates(bins, i, floor, threshold)
    {
      if bins[i].db - floor >= threshold && bins[i].db >= bins[i - 1].db && bins[i].db >= bins[i + 1].db {
        candidates := candidates + [PeakAt(bins, i, floor)];
      }
    }
    candidates := Sorting.Sort(candidates, Stronger);
    var kept: seq<Station> := [];
    for i := 0 to |candidates|
      invariant kept == Greedy(candidates[..i], b)
    {
      assert candidates[..i + 1][..i] == candidates[..i];
      if !Suppressed(candidates[i], kept, b) {
        kept := kept + [Station(Snap(candidates[i].hz, b), candidates[i].snr)];
      }
    }
    assert candidates[..|candidates|] == candidates;
    stations := Sorting.Sort(kept, NotAbove);
  }

  // ----- snapping -----

  lemma FmPlace(hz: real, n: int)
    requires -0.5 <= hz / 100_000.0 - n as real <= 0.5
    ensures Abs(hz - (n * 100_000) as real) <= 50_000.0 && (n * 100_000) % 100_000 == 0
  {
  }

  lemma AirPlace(hz: real, n: int)
    requires -0.5 <= hz / 25_000.0 - n as real <= 0.5
    ensures Abs(hz - (n * 25_000) as real) <= 12_500.0 && (n * 25_000) % 25_000 == 0
  {
  }

  lemma SnapIsNear(hz: real, b: Band)
    ensures Abs(hz - Snap(hz, b) as real) <= Raster(b) as real / 2.0
    ensures Snap(hz, b) % Raster(b) == 0
  {
    if b.Fm? {
      FmPlace(hz, RoundHalfEven(hz / 100_000.0));
    } else {
      AirPlace(hz, RoundHalfEven(hz / 25_000.0));
    }
  }

  /** The band edges lie on the raster, so snapping does not leave the band. */
  lemma SnapStaysInBand(hz: real, b: Band)
    requires Low(b) as real <= hz <= High(b) as real
    ensures Low(b) <= Snap(hz, b) <= High(b)
  {
    SnapIsNear(hz, b);
    OnRaster(Snap(hz, b), Low(b), b);
    OnRaster(Snap(hz, b), High(b), b);
  }

  /** Two raster frequencies less than a raster step apart are the same. */
  lemma OnRaster(x: int, y: int, b: Band)
    requires x % Raster(b) == 0 && y % Raster(b) == 0
    ensures x < y ==> x + Raster(b) <= y
    ensures y < x ==> y + Raster(b) <= x
  {
    if b.Fm? {
      HundredApart(x, y);
    } else {
      TwentyFiveApart(x, y);
    }
  }

  lemma HundredApart(x: int, y: int)
    requires x % 100_000 == 0 && y % 100_000 == 0
    ensures x < y ==> x + 100_000 <= y
    ensures y < x ==> y + 100_000 <= x
  {
    assert x == 100_000 * (x / 100_000) && y == 100_000 * (y / 100_000);
  }

  lemma TwentyFiveApart(x: int, y: int)
    requires x % 25_000 == 0 && y % 25_000 == 0
    ensures x < y ==> x + 25_000 <= y
    ensures y < x ==> y + 25_000 <= x
  {
    assert x == 25_000 * (x / 25_000) && y == 25_000 * (y / 25_000);
  }

  // ----- what the greedy selection keeps -----

  /** Stations lie apart by more than the guard, on the raster and in the band. */
  predicate Apart(s: Station, t: Station, b: Band) {
    s.hz + Guard(b) < t.hz || t.hz + Guard(b) < s.hz
  }

  predicate GoodStations(kept: seq<Station>, b: Band) {
    && (forall k | k in kept :: k.hz % Raster(b) == 0 && Low(b) <= k.hz <= High(b))
    && (forall i, j | 0 <= i < j < |kept| :: Apart(kept[i], kept[j], b))
  }

  /** The constants of both bands fit: a peak that is not suppressed snaps to a place
      farther than the guard from every kept station. */
  lemma SnapsApart(p: Peak, k: Station, b: Band)
    requires k.hz % Raster(b) == 0
    requires Abs(p.hz - k.hz as real) >= Separation(b) as real
    ensures Apart(Station(Snap(p.hz, b), p.snr), k, b)
  {
    SnapIsNear(p.hz, b);
    OnRaster(Snap(p.hz, b), k.hz, b);
  }

  predicate PeaksInBand(peaks: seq<Peak>, b: Band) {
    forall p | p in peaks :: Low(b) as real <= p.hz <= High(b) as real
  }

  lemma {:induction false} GreedyKeepsGood(peaks: seq<Peak>, b: Band)
    requires PeaksInBand(peaks, b)
    ensures GoodStations(Greedy(peaks, b), b)
  {
    if peaks != [] {
      var n := |peaks| - 1;
      var p, kept := peaks[n], Greedy(peaks[..n], b);
      GreedyKeepsGood(peaks[..n], b);
      if !Suppressed(p, kept, b) {
        assert p in peaks;
        SnapIsNear(p.hz, b);
        SnapStaysInBand(p.hz, b);
        forall i | 0 <= i < |kept| ensures Apart(kept[i], Station(Snap(p.hz, b), p.snr), b) {
          assert kept[i] in kept;
          SnapsApart(p, kept[i], b);
        }
      }
    }
  }

  /** A kept station within the separation of a peak, at least as strong. */
  predicate Covers(k: Station, p: Peak, b: Band) {
    Abs(p.hz - k.hz as real) < Separation(b) as real && k.snr >= p.snr
  }

  predicate StrongestFirst(peaks: seq<Peak>) {
    forall i, j | 0 <= i < j < |peaks| :: peaks[i].snr >= peaks[j].snr
  }

  lemma {:induction false} GreedyIsAsStrong(peaks: seq<Peak>, b: Band, p: Peak)
    requires StrongestFirst(peaks + [p])
    ensures forall k | k in Greedy(peaks, b) :: k.snr >= p.snr
  {
    if peaks != [] {
      var n := |peaks| - 1;
      var all := peaks + [p];
      assert peaks[n] == all[n] && p == all[n + 1];
      forall i, j | 0 <= i < j < |peaks[..n] + [p]| ensures (peaks[..n] + [p])[i].snr >= (peaks[..n] + [p])[j].snr {
        assert (peaks[..n] + [p])[i] == all[i];
        assert (peaks[..n] + [p])[j] == if j == n then all[n + 1] else all[j];
      }
      GreedyIsAsStrong(peaks[..n], b, p);
    }
  }

  lemma {:induction false} GreedyCovers(peaks: seq<Peak>, b: Band, p: Peak)
    requires StrongestFirst(peaks) && p in peaks
    ensures exists k :: k in Greedy(peaks, b) && Covers(k, p, b)
  {
    var n := |peaks| - 1;
    var front, last := peaks[..n], peaks[n];
    assert peaks == front + [last];
    var kept := Greedy(front, b);
    if p in front {
      GreedyCovers(front, b, p);
      var k :| k in kept && Covers(k, p, b);
      assert k in Greedy(peaks, b);
    } else {
      assert p == last;
      if Suppressed(p, kept, b) {
        var k :| k in kept && Abs(p.hz - k.hz as real) < Separation(b) as real;
        GreedyIsAsStrong(front, b, p);
        assert k in Greedy(peaks, b) && Covers(k, p, b);
      } else {
        var k := Station(Snap(p.hz, b), p.snr);
        SnapIsNear(p.hz, b);
        assert k == Greedy(peaks, b)[|kept|];
        assert Covers(k, p, b);
      }
    }
  }

  /** A kept station is a snapped peak. */
  lemma {:induction false} GreedyKeepsPeaks(peaks: seq<Peak>, b: Band, k: Station)
    requires k in Greedy(peaks, b)
    ensures exists p :: p in peaks && k == Station(Snap(p.hz, b), p.snr)
  {
    var n := |peaks| - 1;
    var kept := Greedy(peaks[..n], b);
    if k in kept {
      GreedyKeepsPeaks(peaks[..n], b, k);
      var p :| p in peaks[..n] && k == Station(Snap(p.hz, b), p.snr);
      assert p in peaks;
    } else {
      assert peaks[n] in peaks;
    }
  }

  lemma {:induction false} CandidatesAreThePeaks(bins: seq<Bin>, n: nat, floor: real, threshold: real, p: Peak)
    requires n <= |bins|
    ensures p in Candidates(bins, n, floor, threshold)
       <==> exists i :: 0 <= i < n && IsPeak(bins, i, floor, threshold) && p == PeakAt(bins, i, floor)
  {
    if n > 0 {
      CandidatesAreThePeaks(bins, n - 1, floor, threshold, p);
    }
  }

  lemma OrdersAreTotal()
    ensures Sorting.TotalOrder(Stronger) && Sorting.TotalOrder(NotAbove)
  {
  }

  lemma SortedPeaks(peaks: seq<Peak>)
    ensures StrongestFirst(Sorting.Sort(peaks, Stronger))
    ensures forall p :: p in Sorting.Sort(peaks, Stronger) <==> p in peaks
  {
    OrdersAreTotal();
    Sorting.SortOrders(peaks, Stronger);
    Sorting.SortKeepsElements(peaks, Stronger);
    var sorted := Sorting.Sort(peaks, Stronger);
    forall i, j | 0 <= i < j < |sorted| ensures sorted[i].snr >= sorted[j].snr {
      assert Stronger(sorted[i], sorted[j]);
    }
  }

  /** Strictly rising, each station farther than the guard from the next. */
  predicate Ladder(stations: seq<Station>, b: Band) {
    forall i, j | 0 <= i < j < |stations| :: stations[i].hz + Guard(b) < stations[j].hz
  }

  lemma {:induction false} SortedStations(kept: seq<Station>, b: Band)
    requires GoodStations(kept, b)
    ensures Ladder(Sorting.Sort(kept, NotAbove), b)
    ensures forall k :: k in Sorting.Sort(kept, NotAbove) <==> k in kept
  {
    OrdersAreTotal();
    Sorting.SortOrders(kept, NotAbove);
    Sorting.SortKeepsElements(kept, NotAbove);
    Sorting.SortPermutes(kept, NotAbove);
    var sorted := Sorting.Sort(kept, NotAbove);
    forall i, j | 0 <= i < j < |sorted| ensures sorted[i].hz + Guard(b) < sorted[j].hz {
      assert NotAbove(sorted[i], sorted[j]);
      StillApart(kept, sorted, i, j, b);
    }
  }

  lemma StillApart(kept: seq<Station>, sorted: seq<Station>, i: nat, j: nat, b: Band)
    requires multiset(sorted) == multiset(kept) && i < j < |sorted| && GoodStations(kept, b)
    ensures Apart(sorted[i], sorted[j], b)
  {
    var s, t := sorted[i], sorted[j];
    assert s in multiset(kept) && t in multiset(kept);
    var x :| 0 <= x < |kept| && kept[x] == s;
    var y :| 0 <= y < |kept| && kept[y] == t;
    if x == y {
      TwiceInSeq(sorted, i, j);
      OnceInSeq(kept, x, b);
      assert false;
    }
  }

  lemma TwiceInSeq(s: seq<Station>, i: nat, j: nat)
    requires i < j < |s| && s[i] == s[j]
    ensures multiset(s)[s[i]] >= 2
  {
    assert s == s[..j] + [s[j]] + s[j + 1..];
    assert s[..j][i] == s[i];
    assert s[i] in multiset(s[..j]);
  }

  lemma OnceInSeq(kept: seq<Station>, x: nat, b: Band)
    requires GoodStations(kept, b) && x < |kept|
    ensures multiset(kept)[kept[x]] == 1
  {
    var front, back := kept[..x], kept[x + 1..];
    assert kept == front + [kept[x]] + back;
    assert kept[x] !in front && kept[x] !in back;
    assert kept[x] !in multiset(front) && kept[x] !in multiset(back);
  }

  /** Station `k` is bin `i`'s peak, snapped. */
  predicate IsStationOf(k: Station, bins: seq<Bin>, i: int, floor: real, threshold: real, b: Band) {
    IsPeak(bins, i, floor, threshold) && k == Station(Snap(bins[i].hz, b), bins[i].db - floor)
  }

  lemma StationHasPeak(bins: seq<Bin>, peaks: seq<Peak>, b: Band, floor: real, threshold: real, k: Station)
    requires forall p :: p in peaks <==> p in Candidates(bins, |bins|, floor, threshold)
    requires k in Greedy(peaks, b)
    ensures exists i :: IsStationOf(k, bins, i, floor, threshold, b)
  {
    GreedyKeepsPeaks(peaks, b, k);
    var p :| p in peaks && k == Station(Snap(p.hz, b), p.snr);
    CandidatesAreThePeaks(bins, |bins|, floor, threshold, p);
    var i :| 0 <= i < |bins| && IsPeak(bins, i, floor, threshold) && p == PeakAt(bins, i, floor);
    assert IsStationOf(k, bins, i, floor, threshold, b);
  }

  lemma PeakIsCovered(bins: seq<Bin>, peaks: seq<Peak>, b: Band, floor: real, threshold: real, i: int)
    requires forall p :: p in peaks <==> p in Candidates(bins, |bins|, floor, threshold)
    requires StrongestFirst(peaks) && IsPeak(bins, i, floor, threshold)
    ensures exists k :: k in Greedy(peaks, b) && Covers(k, PeakAt(bins, i, floor), b)
  {
    CandidatesAreThePeaks(bins, |bins|, floor, threshold, PeakAt(bins, i, floor));
    GreedyCovers(peaks, b, PeakAt(bins, i, floor));
  }

  lemma CandidatesInBand(bins: seq<Bin>, peaks: seq<Peak>, b: Band, floor: real, threshold: real)
    requires forall p :: p in peaks <==> p in Candidates(bins, |bins|, floor, threshold)
    requires InBand(bins, b)
    ensures PeaksInBand(peaks, b)
  {
    forall p | p in peaks ensures Low(b) as real <= p.hz <= High(b) as real {
      CandidatesAreThePeaks(bins, |bins|, floor, threshold, p);
    }
  }

  /** What a sweep's stations are, for both bands: rising, on the raster, in the band,
      apart by more than the seek guard; each is a snapped peak of the sweep; and every
      peak above the threshold has a station within the separation at least as strong. */
  lemma StationsAreThePeaks(bins: seq<Bin>, b: Band, threshold: real)
    requires InBand(bins, b)
    ensures var stations := StationsOf(bins, b, threshold);
      && Ladder(stations, b)
      && (forall k | k in stations :: k.hz % Raster(b) == 0 && Low(b) <= k.hz <= High(b))
      && (|bins| < 8 ==> stations == [])
      && (|bins| >= 8 ==>
        && (forall k | k in stations :: exists i :: IsStationOf(k, bins, i, Floor(bins), threshold, b))
        && (forall i | IsPeak(bins, i, Floor(bins), threshold) ::
              exists k :: k in stations && Covers(k, PeakAt(bins, i, Floor(bins)), b)))
  {
    if |bins| >= 8 {
      var floor := Floor(bins);
      var candidates := Candidates(bins, |bins|, floor, threshold);
      var peaks := Sorting.Sort(candidates, Stronger);
      var kept, stations := Greedy(peaks, b), StationsOf(bins, b, threshold);
      SortedPeaks(candidates);
      CandidatesInBand(bins, peaks, b, floor, threshold);
      GreedyKeepsGood(peaks, b);
      SortedStations(kept, b);
      forall k | k in stations ensures exists i :: IsStationOf(k, bins, i, floor, threshold, b) {
        StationHasPeak(bins, peaks, b, floor, threshold, k);
      }
      forall i | IsPeak(bins, i, floor, threshold)
        ensures exists k :: k in stations && Covers(k, PeakAt(bins, i, floor), b)
      {
        PeakIsCovered(bins, peaks, b, floor, threshold, i);
      }
    }
  }

  // ----- any sweep -----

  predicate InsideBand(bin: Bin, b: Band) { Low(b) as real <= bin.hz <= High(b) as real }

  predicate LowerBin(a: Bin, c: Bin) { a.hz < c.hz || (a.hz == c.hz && a.db <= c.db) }

  function Clip(raw: seq<Bin>, b: Band): seq<Bin> {
    if raw == [] then []
    else (if InsideBand(raw[0], b) then [raw[0]] else []) + Clip(raw[1..], b)
  }

  /** The bins of a sweep: those inside the band, by frequency. */
  function SweepBins(raw: seq<Bin>, b: Band): seq<Bin> { Sorting.Sort(Clip(raw, b), LowerBin) }

  lemma {:induction false} ClipHolds(raw: seq<Bin>, b: Band, bin: Bin)
    ensures bin in Clip(raw, b) <==> bin in raw && InsideBand(bin, b)
  {
    if raw != [] {
      ClipHolds(raw[1..], b, bin);
      assert raw == [raw[0]] + raw[1..];
    }
  }

  /** Clipping keeps exactly the bins of the band, so the stations found are stations of
      the band whatever the dongle swept. */
  lemma SweepIsInBand(raw: seq<Bin>, b: Band)
    ensures InBand(SweepBins(raw, b), b)
    ensures forall bin :: bin in SweepBins(raw, b) <==> bin in raw && InsideBand(bin, b)
  {
    Sorting.SortKeepsElements(Clip(raw, b), LowerBin);
    forall bin ensures bin in SweepBins(raw, b) <==> bin in raw && InsideBand(bin, b) {
      ClipHolds(raw, b, bin);
    }
    forall i | 0 <= i < |SweepBins(raw, b)| ensures InsideBand(SweepBins(raw, b)[i], b) {
      assert SweepBins(raw, b)[i] in SweepBins(raw, b);
    }
  }

  // ----- stepping between stations -----

  function AbsInt(x: int): int { if x < 0 then -x else x }

  function Above(freqs: seq<int>, limit: int): seq<int> {
    if freqs == [] then []
    else (if freqs[0] > limit then [freqs[0]] else []) + Above(freqs[1..], limit)
  }

  function Below(freqs: seq<int>, limit: int): seq<int> {
    if freqs == [] then []
    else (if freqs[0] < limit then [freqs[0]] else []) + Below(freqs[1..], limit)
  }

  function Least(freqs: seq<int>): int
    requires freqs != []
  {
    if |freqs| == 1 then freqs[0] else Min(freqs[0], Least(freqs[1..]))
  }

  function Greatest(freqs: seq<int>): int
    requires freqs != []
  {
    if |freqs| == 1 then freqs[0] else Max(freqs[0], Greatest(freqs[1..]))
  }

  /** The nearest station beyond the dial, or else the one at the far end of the band. */
  function Target(freqs: seq<int>, current: int, up: bool, b: Band): int
    requires freqs != []
  {
    if up then
      var ahead := Above(freqs, current + Guard(b));
      if ahead != [] then Least(ahead) else Least(freqs)
    else
      var behind := Below(freqs, current - Guard(b));
      if behind != [] then Greatest(behind) else Greatest(freqs)
  }

  function NextStation(freqs: seq<int>, current: int, up: bool, b: Band): Option<int> {
    if freqs == [] then None
    else
      var target := Target(freqs, current, up, b);
      if AbsInt(target - current) <= Guard(b) then None else Some(target)
  }

  lemma {:induction false} AboveContains(freqs: seq<int>, limit: int, f: int)
    ensures f in Above(freqs, limit) <==> f in freqs && f > limit
  {
    if freqs != [] {
      AboveContains(freqs[1..], limit, f);
    }
  }

  lemma {:induction false} BelowContains(freqs: seq<int>, limit: int, f: int)
    ensures f in Below(freqs, limit) <==> f in freqs && f < limit
  {
    if freqs != [] {
      BelowContains(freqs[1..], limit, f);
    }
  }

  lemma {:induction false} LeastIsLeast(freqs: seq<int>)
    requires freqs != []
    ensures Least(freqs) in freqs && forall f | f in freqs :: Least(freqs) <= f
  {
    if |freqs| > 1 {
      LeastIsLeast(freqs[1..]);
      assert freqs == [freqs[0]] + freqs[1..];
    }
  }

  lemma {:induction false} GreatestIsGreatest(freqs: seq<int>)
    requires freqs != []
    ensures Greatest(freqs) in freqs && forall f | f in freqs :: f <= Greatest(freqs)
  {
    if |freqs| > 1 {
      GreatestIsGreatest(freqs[1..]);
      assert freqs == [freqs[0]] + freqs[1..];
    }
  }

  lemma LeastAbove(freqs: seq<int>, limit: int, f: int)
    requires f in freqs && f > limit && forall g | g in freqs :: g <= limit || f <= g
    ensures Above(freqs, limit) != [] && Least(Above(freqs, limit)) == f
  {
    AboveContains(freqs, limit, f);
    var least := Least(Above(freqs, limit));
    LeastIsLeast(Above(freqs, limit));
    AboveContains(freqs, limit, least);
  }

  lemma GreatestBelow(freqs: seq<int>, limit: int, f: int)
    requires f in freqs && f < limit && forall g | g in freqs :: g >= limit || g <= f
    ensures Below(freqs, limit) != [] && Greatest(Below(freqs, limit)) == f
  {
    BelowContains(freqs, limit, f);
    var greatest := Greatest(Below(freqs, limit));
    GreatestIsGreatest(Below(freqs, limit));
    BelowContains(freqs, limit, greatest);
  }

  lemma TargetAhead(freqs: seq<int>, current: int, b: Band, f: int)
    requires f in freqs && f > current + Guard(b)
    requires forall g | g in freqs :: g <= current + Guard(b) || f <= g
    ensures Target(freqs, current, true, b) == f
  {
    LeastAbove(freqs, current + Guard(b), f);
  }

  lemma TargetBehind(freqs: seq<int>, current: int, b: Band, f: int)
    requires f in freqs && f < current - Guard(b)
    requires forall g | g in freqs :: g >= current - Guard(b) || g <= f
    ensures Target(freqs, current, false, b) == f
  {
    GreatestBelow(freqs, current - Guard(b), f);
  }

  lemma TargetWrapsUp(freqs: seq<int>, current: int, b: Band)
    requires freqs != [] && forall g | g in freqs :: g <= current + Guard(b)
    ensures Target(freqs, current, true, b) == Least(freqs)
  {
    var ahead := Above(freqs, current + Guard(b));
    if ahead != [] {
      AboveContains(freqs, current + Guard(b), ahead[0]);
    }
  }

  lemma TargetWrapsDown(freqs: seq<int>, current: int, b: Band)
    requires freqs != [] && forall g | g in freqs :: g >= current - Guard(b)
    ensures Target(freqs, current, false, b) == Greatest(freqs)
  {
    var behind := Below(freqs, current - Guard(b));
    if behind != [] {
      BelowContains(freqs, current - Guard(b), behind[0]);
    }
  }

  predicate WithinGuard(f: int, current: int, b: Band) { AbsInt(f - current) <= Guard(b) }

  lemma NowhereUp(freqs: seq<int>, current: int, b: Band)
    requires freqs != []
    ensures NextStation(freqs, current, true, b).None? <==> forall f | f in freqs :: WithinGuard(f, current, b)
  {
    var limit := current + Guard(b);
    LeastIsLeast(freqs);
    if Above(freqs, limit) == [] {
      forall f | f in freqs ensures f <= limit { AboveContains(freqs, limit, f); }
    } else {
      var f := Least(Above(freqs, limit));
      LeastIsLeast(Above(freqs, limit));
      AboveContains(freqs, limit, f);
      assert !WithinGuard(f, current, b);
    }
  }

  lemma NowhereDown(freqs: seq<int>, current: int, b: Band)
    requires freqs != []
    ensures NextStation(freqs, current, false, b).None? <==> forall f | f in freqs :: WithinGuard(f, current, b)
  {
    var limit := current - Guard(b);
    GreatestIsGreatest(freqs);
    if Below(freqs, limit) == [] {
      forall f | f in freqs ensures f >= limit { BelowContains(freqs, limit, f); }
    } else {
      var f := Greatest(Below(freqs, limit));
      GreatestIsGreatest(Below(freqs, limit));
      BelowContains(freqs, limit, f);
      assert !WithinGuard(f, current, b);
    }
  }

  /** From any dial position there is nowhere to go exactly when there are no stations
      or all of them lie within the guard. */
  lemma NowhereToGo(freqs: seq<int>, current: int, up: bool, b: Band)
    ensures NextStation(freqs, current, up, b).None? <==> forall f | f in freqs :: WithinGuard(f, current, b)
  {
    if freqs != [] {
      NowhereUp(freqs, current, b);
      NowhereDown(freqs, current, b);
    }
  }

  function Freqs(stations: seq<Station>): seq<int> {
    seq(|stations|, i requires 0 <= i < |stations| => stations[i].hz)
  }

  /** Rising, each frequency farther than the guard from the next. */
  predicate Spaced(freqs: seq<int>, b: Band) {
    forall i, j | 0 <= i < j < |freqs| :: freqs[i] + Guard(b) < freqs[j]
  }

  function StepIndex(i: nat, up: bool, n: nat): (j: nat)
    requires i < n
    ensures j < n
  {
    if up then (if i + 1 == n then 0 else i + 1) else if i == 0 then n - 1 else i - 1
  }

  lemma TargetIsCyclic(freqs: seq<int>, i: nat, up: bool, b: Band)
    requires Spaced(freqs, b) && 2 <= |freqs| && i < |freqs|
    ensures Target(freqs, freqs[i], up, b) == freqs[StepIndex(i, up, |freqs|)]
  {
    var j := StepIndex(i, up, |freqs|);
    assert freqs[j] in freqs;
    if up && i == |freqs| - 1 {
      LeastIsLeast(freqs);
      TargetWrapsUp(freqs, freqs[i], b);
    } else if up {
      TargetAhead(freqs, freqs[i], b, freqs[j]);
    } else if i == 0 {
      GreatestIsGreatest(freqs);
      TargetWrapsDown(freqs, freqs[i], b);
    } else {
      TargetBehind(freqs, freqs[i], b, freqs[j]);
    }
  }

  /** On two or more stations a step from one leads to its neighbour in the cycle. */
  lemma StepIsCyclic(freqs: seq<int>, i: nat, up: bool, b: Band)
    requires Spaced(freqs, b) && 2 <= |freqs| && i < |freqs|
    ensures NextStation(freqs, freqs[i], up, b) == Some(freqs[StepIndex(i, up, |freqs|)])
  {
    TargetIsCyclic(freqs, i, up, b);
  }

  /** A seek back undoes a seek. */
  lemma StepBack(freqs: seq<int>, i: nat, up: bool, b: Band)
    requires Spaced(freqs, b) && 2 <= |freqs| && i < |freqs|
    ensures var next := NextStation(freqs, freqs[i], up, b);
      next.Some? && NextStation(freqs, next.value, !up, b) == Some(freqs[i])
  {
    var j := StepIndex(i, up, |freqs|);
    IndexBack(i, up, |freqs|);
    StepIsCyclic(freqs, i, up, b);
    StepIsCyclic(freqs, j, !up, b);
  }

  lemma IndexBack(i: nat, up: bool, n: nat)
    requires i < n
    ensures StepIndex(StepIndex(i, up, n), !up, n) == i
  {
  }

  /** Where the dial has been after `k` seeks from `f`; a seek that finds nothing leaves
      it where it is. */
  function Tour(seek: int -> Option<int>, f: int, k: nat): (t: seq<int>)
    ensures |t| == k + 1
  {
    if k == 0 then [f]
    else
      var t := Tour(seek, f, k - 1);
      var next := seek(t[k - 1]);
      t + [if next.None? then t[k - 1] else next.value]
  }

  function SeekUp(freqs: seq<int>, b: Band): int -> Option<int> {
    current => NextStation(freqs, current, true, b)
  }

  /** The place `k` steps after `i` in a cycle of `n`. */
  function Around(i: nat, k: nat, n: nat): (j: nat)
    requires i < n && k <= n
    ensures j < n
  {
    if i + k < n then i + k else i + k - n
  }

  /** The first places of the round trip from station `i`. */
  predicate IsRound(t: seq<int>, freqs: seq<int>, i: nat)
    requires i < |freqs| && |t| <= |freqs| + 1
  {
    forall j: nat | j < |t| :: t[j] == freqs[Around(i, j, |freqs|)]
  }

  /** Seeks from stations go round the cycle. */
  predicate GoesRound(seek: int -> Option<int>, freqs: seq<int>) {
    forall j: nat | j < |freqs| :: seek(freqs[j]) == Some(freqs[StepIndex(j, true, |freqs|)])
  }

  lemma {:induction false} TourIsRound(seek: int -> Option<int>, freqs: seq<int>, i: nat, k: nat)
    requires i < |freqs| && k <= |freqs| && GoesRound(seek, freqs)
    ensures IsRound(Tour(seek, freqs[i], k), freqs, i)
  {
    if k > 0 {
      TourIsRound(seek, freqs, i, k - 1);
      var before := Around(i, k - 1, |freqs|);
      assert Tour(seek, freqs[i], k - 1)[k - 1] == freqs[before];
    }
  }

  /** Seek is a cycle on the stations of any sweep: a step back undoes a step, and as
      many ups as there are stations pass every station exactly once, in order, and
      end where they began. */
  lemma SeekIsACycle(bins: seq<Bin>, b: Band, threshold: real, i: nat, up: bool)
    requires InBand(bins, b)
    requires 2 <= |StationsOf(bins, b, threshold)| && i < |StationsOf(bins, b, threshold)|
    ensures var freqs := Freqs(StationsOf(bins, b, threshold));
      var next := NextStation(freqs, freqs[i], up, b);
      && next == Some(freqs[StepIndex(i, up, |freqs|)])
      && NextStation(freqs, next.value, !up, b) == Some(freqs[i])
      && Tour(SeekUp(freqs, b), freqs[i], |freqs|) == freqs[i..] + freqs[..i + 1]
  {
    StationsAreThePeaks(bins, b, threshold);
    CycleOf(Freqs(StationsOf(bins, b, threshold)), i, up, b);
  }

  lemma CycleOf(freqs: seq<int>, i: nat, up: bool, b: Band)
    requires Spaced(freqs, b) && 2 <= |freqs| && i < |freqs|
    ensures NextStation(freqs, freqs[i], up, b) == Some(freqs[StepIndex(i, up, |freqs|)])
    ensures NextStation(freqs, freqs[StepIndex(i, up, |freqs|)], !up, b) == Some(freqs[i])
    ensures Tour(SeekUp(freqs, b), freqs[i], |freqs|) == freqs[i..] + freqs[..i + 1]
  {
    StepIsCyclic(freqs, i, up, b);
    StepBack(freqs, i, up, b);
    UpGoesRound(freqs, b);
    TourIsRound(SeekUp(freqs, b), freqs, i, |freqs|);
    RoundIsRotation(Tour(SeekUp(freqs, b), freqs[i], |freqs|), freqs, i);
  }

  lemma UpGoesRound(freqs: seq<int>, b: Band)
    requires Spaced(freqs, b) && 2 <= |freqs|
    ensures GoesRound(SeekUp(freqs, b), freqs)
  {
    forall j: nat | j < |freqs| ensures SeekUp(freqs, b)(freqs[j]) == Some(freqs[StepIndex(j, true, |freqs|)]) {
      StepIsCyclic(freqs, j, true, b);
    }
  }

  lemma RoundIsRotation(t: seq<int>, freqs: seq<int>, i: nat)
    requires i < |freqs| && |t| == |freqs| + 1 && IsRound(t, freqs, i)
    ensures t == freqs[i..] + freqs[..i + 1]
  {
  }
}
