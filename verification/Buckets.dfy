/** Bucketed rollups of a dataset column (apps/datasets/buckets.py, apps/datasets/core.py).
    Column values are numbered in the database's order; NULL is not modelled. */
module Buckets {
  import opened Common
  import Sorting

  /** A numeric band, one value, a group of values, or the remainder. A remainder may
      carry values of its own: it does not take them, but they count as named. */
  datatype Bucket =
    | Band(key: string, lo: int, hi: Option<int>)
    | One(key: string, value: int)
    | Group(key: string, values: seq<int>)
    | Other(key: string, named: seq<int>)

  // ----- which rows a bucket takes -----

  /** The values the bucket takes because it names them. */
  function Claimed(b: Bucket): seq<int> {
    match b
    case One(_, value) => [value]
    case Group(_, values) => values
    case _ => []
  }

  /** The values the bucket contributes to those named by the dimension. */
  function Contributed(b: Bucket): seq<int> { if b.Other? then b.named else Claimed(b) }

  function DimensionValues(buckets: seq<Bucket>): seq<int> {
    if buckets == [] then [] else DimensionValues(buckets[..|buckets| - 1]) + Contributed(buckets[|buckets| - 1])
  }

  method CollectDimensionValues(buckets: seq<Bucket>) returns (values: seq<int>)
    ensures values == DimensionValues(buckets)
  {
    values := [];
    for i := 0 to |buckets|
      invariant values == DimensionValues(buckets[..i])
    {
      assert buckets[..i + 1][..i] == buckets[..i];
      match buckets[i] {
        case One(_, value) => values := values + [value];
        case Group(_, more) => values := values + more;
        case Other(_, named) => values := values + named;
        case Band(_, _, _) => assert Contributed(buckets[i]) == [];
      }
    }
    assert buckets[..|buckets|] == buckets;
  }

  /** The row condition of one bucket, given every value its siblings name. */
  predicate Takes(b: Bucket, v: int, dimension: seq<int>) {
    match b
    case Other(_, _) => v !in dimension
    case One(_, value) => v == value
    case Group(_, values) => v in values
    case Band(_, lo, hi) => lo <= v && (hi.Some? ==> v < hi.value)
  }

  // ----- counting -----

  /** `Count("id", filter=...)` over the rows of a queryset, given by their values. */
  function CountTaken(rows: seq<int>, b: Bucket, dimension: seq<int>): nat {
    if rows == [] then 0
    else CountTaken(rows[1..], b, dimension) + (if Takes(b, rows[0], dimension) then 1 else 0)
  }

  function CountOf(rows: seq<int>, v: int): nat {
    if rows == [] then 0 else CountOf(rows[1..], v) + (if rows[0] == v then 1 else 0)
  }

  /** Each bucket's own count. */
  function SeriesOf(rows: seq<int>, buckets: seq<Bucket>, dimension: seq<int>): seq<nat> {
    seq(|buckets|, i requires 0 <= i < |buckets| => CountTaken(rows, buckets[i], dimension))
  }

  function Sum(xs: seq<nat>): nat {
    if xs == [] then 0 else Sum(xs[..|xs| - 1]) + xs[|xs| - 1]
  }

  /** How many buckets take a row with this value. */
  function Hits(buckets: seq<Bucket>, v: int, dimension: seq<int>): nat {
    if buckets == [] then 0
    else Hits(buckets[..|buckets| - 1], v, dimension) + (if Takes(buckets[|buckets| - 1], v, dimension) then 1 else 0)
  }

  lemma {:induction false} SumOfRow(rows: seq<int>, buckets: seq<Bucket>, dimension: seq<int>)
    requires rows != []
    ensures Sum(SeriesOf(rows, buckets, dimension))
         == Sum(SeriesOf(rows[1..], buckets, dimension)) + Hits(buckets, rows[0], dimension)
  {
    if buckets != [] {
      var n := |buckets| - 1;
      SumOfRow(rows, buckets[..n], dimension);
      assert SeriesOf(rows, buckets, dimension)[..n] == SeriesOf(rows, buckets[..n], dimension);
      assert SeriesOf(rows[1..], buckets, dimension)[..n] == SeriesOf(rows[1..], buckets[..n], dimension);
    }
  }

  lemma {:induction false} NoRowsNoSum(buckets: seq<Bucket>, dimension: seq<int>)
    ensures Sum(SeriesOf([], buckets, dimension)) == 0
  {
    if buckets != [] {
      var n := |buckets| - 1;
      NoRowsNoSum(buckets[..n], dimension);
      assert SeriesOf([], buckets, dimension)[..n] == SeriesOf([], buckets[..n], dimension);
    }
  }

  /** If every row falls in exactly one bucket, the counts sum to the rows. */
  lemma {:induction false} CountsSumToRows(rows: seq<int>, buckets: seq<Bucket>, dimension: seq<int>)
    requires forall v | v in rows :: Hits(buckets, v, dimension) == 1
    ensures Sum(SeriesOf(rows, buckets, dimension)) == |rows|
  {
    if rows == [] {
      NoRowsNoSum(buckets, dimension);
    } else {
      CountsSumToRows(rows[1..], buckets, dimension);
      SumOfRow(rows, buckets, dimension);
    }
  }

  // ----- the reported series -----

  /** `row[key]` of the aggregate: of buckets with one key the last one's count. */
  function AggregateOf(rows: seq<int>, buckets: seq<Bucket>, dimension: seq<int>): map<string, nat> {
    if buckets == [] then map[]
    else
      var last := buckets[|buckets| - 1];
      AggregateOf(rows, buckets[..|buckets| - 1], dimension)[last.key := CountTaken(rows, last, dimension)]
  }

  /** The last bucket with a key: the one whose count the aggregate keeps. */
  function LastByKey(buckets: seq<Bucket>, key: string): Option<Bucket> {
    if buckets == [] then None
    else if buckets[|buckets| - 1].key == key then Some(buckets[|buckets| - 1])
    else LastByKey(buckets[..|buckets| - 1], key)
  }

  lemma {:induction false} LastExists(buckets: seq<Bucket>, i: nat)
    requires i < |buckets|
    ensures LastByKey(buckets, buckets[i].key).Some?
    ensures exists j :: i <= j < |buckets| && LastByKey(buckets, buckets[i].key) == Some(buckets[j]) && buckets[j].key == buckets[i].key
  {
    var n := |buckets| - 1;
    if buckets[n].key != buckets[i].key {
      LastExists(buckets[..n], i);
      var j :| i <= j < n && LastByKey(buckets[..n], buckets[i].key) == Some(buckets[j]) && buckets[j].key == buckets[i].key;
    }
  }

  lemma {:induction false} AggregateHolds(rows: seq<int>, buckets: seq<Bucket>, dimension: seq<int>, key: string)
    ensures key in AggregateOf(rows, buckets, dimension) <==> LastByKey(buckets, key).Some?
    ensures LastByKey(buckets, key).Some? ==>
      AggregateOf(rows, buckets, dimension)[key] == CountTaken(rows, LastByKey(buckets, key).value, dimension)
  {
    if buckets != [] {
      AggregateHolds(rows, buckets[..|buckets| - 1], dimension, key);
    }
  }

  /** The buckets whose counts are reported: for each bucket the last one with its key. */
  function Reporting(buckets: seq<Bucket>): seq<Bucket> {
    seq(|buckets|, i requires 0 <= i < |buckets| => (LastExists(buckets, i); LastByKey(buckets, buckets[i].key).value))
  }

  /** The reported values: the aggregate, looked up by each bucket's key. */
  function Reported(rows: seq<int>, buckets: seq<Bucket>): (series: seq<nat>)
    ensures |series| == |buckets|
  {
    var dimension := DimensionValues(buckets);
    seq(|buckets|, i requires 0 <= i < |buckets| =>
      (LastExists(buckets, i); AggregateHolds(rows, buckets, dimension, buckets[i].key);
       AggregateOf(rows, buckets, dimension)[buckets[i].key]))
  }

  /** The reported series is the counts of the reporting buckets. */
  lemma ReportedIsReporting(rows: seq<int>, buckets: seq<Bucket>)
    ensures Reported(rows, buckets) == SeriesOf(rows, Reporting(buckets), DimensionValues(buckets))
  {
    forall i | 0 <= i < |buckets|
      ensures Reported(rows, buckets)[i] == SeriesOf(rows, Reporting(buckets), DimensionValues(buckets))[i]
    {
      LastExists(buckets, i);
      AggregateHolds(rows, buckets, DimensionValues(buckets), buckets[i].key);
    }
  }

  predicate DistinctKeys(buckets: seq<Bucket>) {
    forall i, j | 0 <= i < j < |buckets| :: buckets[i].key != buckets[j].key
  }

  /** With distinct keys every bucket reports itself. */
  lemma DistinctReportThemselves(buckets: seq<Bucket>)
    requires DistinctKeys(buckets)
    ensures Reporting(buckets) == buckets
  {
    forall i | 0 <= i < |buckets| ensures Reporting(buckets)[i] == buckets[i] {
      LastExists(buckets, i);
    }
  }

  method BucketedSeries(rows: seq<int>, buckets: seq<Bucket>) returns (series: seq<nat>)
    ensures series == Reported(rows, buckets)
  {
    var dimension := CollectDimensionValues(buckets);
    var row: map<string, nat> := map[];
    for i := 0 to |buckets|
      invariant row == AggregateOf(rows, buckets[..i], dimension)
    {
      assert buckets[..i + 1][..i] == buckets[..i];
      row := row[buckets[i].key := CountTaken(rows, buckets[i], dimension)];
    }
    assert buckets[..|buckets|] == buckets;
    series := [];
    for i := 0 to |buckets|
      invariant series == Reported(rows, buckets)[..i]
    {
      LastExists(buckets, i);
      AggregateHolds(rows, buckets, dimension, buckets[i].key);
      series := series + [row[buckets[i].key]];
    }
  }

  // ----- hand-written dimensions -----

  function Remainders(buckets: seq<Bucket>): nat {
    if buckets == [] then 0
    else Remainders(buckets[..|buckets| - 1]) + (if buckets[|buckets| - 1].Other? then 1 else 0)
  }

  /** How many buckets take the value because they name it. */
  function Claims(buckets: seq<Bucket>, v: int): nat {
    if buckets == [] then 0
    else Claims(buckets[..|buckets| - 1], v) + (if v in Claimed(buckets[|buckets| - 1]) then 1 else 0)
  }

  predicate InBand(b: Bucket, v: int) { b.Band? && b.lo <= v && (b.hi.Some? ==> v < b.hi.value) }

  /** How many bands hold the value. */
  function BandHits(buckets: seq<Bucket>, v: int): nat {
    if buckets == [] then 0
    else BandHits(buckets[..|buckets| - 1], v) + (if InBand(buckets[|buckets| - 1], v) then 1 else 0)
  }

  lemma {:induction false} HitsSplit(buckets: seq<Bucket>, v: int, dimension: seq<int>)
    ensures Hits(buckets, v, dimension)
         == BandHits(buckets, v) + Claims(buckets, v) + (if v in dimension then 0 else Remainders(buckets))
  {
    if buckets != [] {
      HitsSplit(buckets[..|buckets| - 1], v, dimension);
    }
  }

  lemma {:induction false} BandsHit(buckets: seq<Bucket>, v: int)
    ensures BandHits(buckets, v) > 0 <==> exists i :: 0 <= i < |buckets| && InBand(buckets[i], v)
  {
    if buckets != [] {
      var n := |buckets| - 1;
      BandsHit(buckets[..n], v);
      assert forall i | 0 <= i < n :: buckets[..n][i] == buckets[i];
    }
  }

  /** The remainder buckets name nothing themselves. */
  predicate PlainRemainders(buckets: seq<Bucket>) {
    forall i | 0 <= i < |buckets| :: buckets[i].Other? ==> buckets[i].named == []
  }

  lemma {:induction false} ClaimedIsNamed(buckets: seq<Bucket>, v: int)
    ensures Claims(buckets, v) > 0 ==> v in DimensionValues(buckets)
    ensures PlainRemainders(buckets) && v in DimensionValues(buckets) ==> Claims(buckets, v) > 0
  {
    if buckets != [] {
      ClaimedIsNamed(buckets[..|buckets| - 1], v);
    }
  }

  predicate Categorical(buckets: seq<Bucket>) {
    forall i | 0 <= i < |buckets| :: !buckets[i].Band?
  }

  lemma HitsOfCategorical(buckets: seq<Bucket>, v: int, dimension: seq<int>)
    requires Categorical(buckets)
    ensures Hits(buckets, v, dimension) == Claims(buckets, v) + (if v in dimension then 0 else Remainders(buckets))
  {
    HitsSplit(buckets, v, dimension);
    BandsHit(buckets, v);
  }

  /** A value below all of these and below every band. */
  lemma {:induction false} SomethingBelow(values: seq<int>, buckets: seq<Bucket>) returns (v: int)
    ensures forall x | x in values :: v < x
    ensures forall i | 0 <= i < |buckets| :: !InBand(buckets[i], v)
    decreases |values|, |buckets|
  {
    if values != [] {
      var w := SomethingBelow(values[1..], buckets);
      v := BelowStill(buckets, Min(w, values[0] - 1));
      assert values == [values[0]] + values[1..];
    } else {
      v := BelowStill(buckets, 0);
    }
  }

  lemma {:induction false} BelowStill(buckets: seq<Bucket>, start: int) returns (v: int)
    ensures v <= start && forall i | 0 <= i < |buckets| :: !InBand(buckets[i], v)
  {
    v := start;
    for n := 0 to |buckets|
      invariant v <= start && forall i | 0 <= i < n && buckets[i].Band? :: v < buckets[i].lo
    {
      if buckets[n].Band? {
        v := Min(v, buckets[n].lo - 1);
      }
    }
  }

  /** If every row falls in exactly one reporting bucket, the reported counts sum to
      the rows. */
  lemma ReportedSumsToRows(rows: seq<int>, buckets: seq<Bucket>)
    requires forall v | v in rows :: Hits(Reporting(buckets), v, DimensionValues(buckets)) == 1
    ensures Sum(Reported(rows, buckets)) == |rows|
  {
    ReportedIsReporting(rows, buckets);
    CountsSumToRows(rows, Reporting(buckets), DimensionValues(buckets));
  }

  lemma ReportedOfOne(buckets: seq<Bucket>, v: int)
    ensures Sum(Reported([v], buckets)) == Hits(Reporting(buckets), v, DimensionValues(buckets))
  {
    ReportedIsReporting([v], buckets);
    SumIsHits(Reporting(buckets), v, DimensionValues(buckets));
  }

  /** The reported series sums to the rows, whatever they are. */
  ghost predicate AlwaysSums(buckets: seq<Bucket>) {
    forall rows: seq<int> :: Sum(Reported(rows, buckets)) == |rows|
  }

  ghost predicate AlwaysOneHit(buckets: seq<Bucket>) {
    forall v :: Hits(Reporting(buckets), v, DimensionValues(buckets)) == 1
  }

  lemma SumsGiveOneHit(buckets: seq<Bucket>, v: int)
    requires AlwaysSums(buckets)
    ensures Hits(Reporting(buckets), v, DimensionValues(buckets)) == 1
  {
    ReportedOfOne(buckets, v);
    assert Sum(Reported([v], buckets)) == |[v]|;
  }

  lemma OneHitGivesSums(buckets: seq<Bucket>, rows: seq<int>)
    requires AlwaysOneHit(buckets)
    ensures Sum(Reported(rows, buckets)) == |rows|
  {
    ReportedSumsToRows(rows, buckets);
  }

  lemma AlwaysSumsMeansOneHit(buckets: seq<Bucket>)
    ensures AlwaysSums(buckets) <==> AlwaysOneHit(buckets)
  {
    if AlwaysSums(buckets) {
      forall v ensures Hits(Reporting(buckets), v, DimensionValues(buckets)) == 1 {
        SumsGiveOneHit(buckets, v);
      }
    } else if AlwaysOneHit(buckets) {
      forall rows: seq<int> ensures Sum(Reported(rows, buckets)) == |rows| {
        OneHitGivesSums(buckets, rows);
      }
    }
  }

  /** The band holds nothing but values the dimension names. */
  ghost predicate HoldsOnly(b: Bucket, dimension: seq<int>) {
    forall v | InBand(b, v) :: v in dimension
  }

  /** Among the buckets that are reported there is one remainder, every value the
      dimension names falls in one of the others, and their bands hold no other values. */
  ghost predicate TakesOnce(buckets: seq<Bucket>) {
    var reporting, dimension := Reporting(buckets), DimensionValues(buckets);
    && Remainders(reporting) == 1
    && (forall v | v in dimension :: BandHits(reporting, v) + Claims(reporting, v) == 1)
    && (forall i | 0 <= i < |reporting| :: HoldsOnly(reporting[i], dimension))
  }

  lemma HitsOfReporting(buckets: seq<Bucket>, v: int)
    ensures Hits(Reporting(buckets), v, DimensionValues(buckets))
         == BandHits(Reporting(buckets), v)
            + (if v in DimensionValues(buckets) then Claims(Reporting(buckets), v) else Remainders(Reporting(buckets)))
  {
    HitsSplit(Reporting(buckets), v, DimensionValues(buckets));
    if v !in DimensionValues(buckets) {
      UnnamedIsUnclaimed(buckets, v);
    }
  }

  lemma OneHitHasOneRemainder(buckets: seq<Bucket>)
    requires AlwaysOneHit(buckets)
    ensures Remainders(Reporting(buckets)) == 1
  {
    var reporting, dimension := Reporting(buckets), DimensionValues(buckets);
    var below := SomethingBelow(dimension, reporting);
    HitsOfReporting(buckets, below);
    BandsHit(reporting, below);
    assert Hits(reporting, below, dimension) == 1;
  }

  lemma OneHitTakesOnce(buckets: seq<Bucket>)
    requires AlwaysOneHit(buckets)
    ensures TakesOnce(buckets)
  {
    var reporting, dimension := Reporting(buckets), DimensionValues(buckets);
    OneHitHasOneRemainder(buckets);
    forall v ensures BandHits(reporting, v) + (if v in dimension then Claims(reporting, v) else 1) == 1 {
      HitsOfReporting(buckets, v);
      assert Hits(reporting, v, dimension) == 1;
    }
    forall i, v | 0 <= i < |reporting| && InBand(reporting[i], v) ensures v in dimension {
      BandsHit(reporting, v);
      assert BandHits(reporting, v) > 0;
    }
  }

  lemma TakingOnceHitsOnce(buckets: seq<Bucket>, v: int)
    requires TakesOnce(buckets)
    ensures Hits(Reporting(buckets), v, DimensionValues(buckets)) == 1
  {
    HitsOfReporting(buckets, v);
    BandsHit(Reporting(buckets), v);
  }

  /** The reported series sums to the rows, whatever they are and whatever the buckets,
      exactly when the reported buckets take every value once. */
  lemma SeriesSumsExactly(buckets: seq<Bucket>)
    ensures AlwaysSums(buckets) <==> TakesOnce(buckets)
  {
    AlwaysSumsMeansOneHit(buckets);
    if AlwaysOneHit(buckets) {
      OneHitTakesOnce(buckets);
    } else if TakesOnce(buckets) {
      forall v ensures Hits(Reporting(buckets), v, DimensionValues(buckets)) == 1 {
        TakingOnceHitsOnce(buckets, v);
      }
    }
  }

  lemma ReportingNames(buckets: seq<Bucket>, i: nat, v: int)
    requires i < |buckets| && v in Claimed(Reporting(buckets)[i])
    ensures v in DimensionValues(buckets)
  {
    LastExists(buckets, i);
    var j :| i <= j < |buckets| && LastByKey(buckets, buckets[i].key) == Some(buckets[j]) && buckets[j].key == buckets[i].key;
    NamedByBucket(buckets, j, v);
  }

  /** What the dimension does not name, no reporting bucket names. */
  lemma UnnamedIsUnclaimed(buckets: seq<Bucket>, v: int)
    requires v !in DimensionValues(buckets)
    ensures Claims(Reporting(buckets), v) == 0
  {
    forall i | 0 <= i < |buckets| ensures v !in Claimed(Reporting(buckets)[i]) {
      if v in Claimed(Reporting(buckets)[i]) {
        ReportingNames(buckets, i, v);
      }
    }
    NoneClaims(Reporting(buckets), v);
  }

  lemma {:induction false} NamedByBucket(buckets: seq<Bucket>, j: nat, v: int)
    requires j < |buckets| && v in Claimed(buckets[j])
    ensures v in DimensionValues(buckets)
  {
    if j < |buckets| - 1 {
      NamedByBucket(buckets[..|buckets| - 1], j, v);
    }
  }

  lemma {:induction false} NoneClaims(buckets: seq<Bucket>, v: int)
    requires forall i | 0 <= i < |buckets| :: v !in Claimed(buckets[i])
    ensures Claims(buckets, v) == 0
  {
    if buckets != [] {
      NoneClaims(buckets[..|buckets| - 1], v);
    }
  }

  /** One remainder bucket, and no value named by two buckets. */
  ghost predicate NoOverlap(buckets: seq<Bucket>) {
    Remainders(buckets) == 1 && forall v :: Claims(buckets, v) <= 1
  }

  predicate EmptyBand(b: Bucket) { b.Band? ==> b.hi.Some? && b.hi.value <= b.lo }

  ghost predicate NothingHeld(buckets: seq<Bucket>) {
    forall v :: BandHits(buckets, v) == 0
  }

  lemma EmptyBandsHoldNothing(buckets: seq<Bucket>)
    ensures (forall i | 0 <= i < |buckets| :: EmptyBand(buckets[i])) <==> NothingHeld(buckets)
  {
    if forall i | 0 <= i < |buckets| :: EmptyBand(buckets[i]) {
      forall v ensures BandHits(buckets, v) == 0 {
        BandsHit(buckets, v);
      }
    } else {
      var i :| 0 <= i < |buckets| && !EmptyBand(buckets[i]);
      BandsHit(buckets, buckets[i].lo);
      assert InBand(buckets[i], buckets[i].lo);
    }
  }

  lemma NamedIsClaimed(buckets: seq<Bucket>, v: int)
    requires PlainRemainders(buckets)
    ensures v in DimensionValues(buckets) <==> Claims(buckets, v) > 0
  {
    ClaimedIsNamed(buckets, v);
  }

  lemma HeldIsNamed(buckets: seq<Bucket>, v: int)
    requires Reporting(buckets) == buckets && TakesOnce(buckets) && BandHits(buckets, v) > 0
    ensures v in DimensionValues(buckets)
  {
    BandsHit(buckets, v);
    var i :| 0 <= i < |buckets| && InBand(buckets[i], v);
    assert HoldsOnly(Reporting(buckets)[i], DimensionValues(buckets));
  }

  lemma NamedOnce(buckets: seq<Bucket>, v: int)
    requires Reporting(buckets) == buckets && TakesOnce(buckets) && v in DimensionValues(buckets)
    ensures BandHits(buckets, v) + Claims(buckets, v) == 1
  {
    assert BandHits(Reporting(buckets), v) + Claims(Reporting(buckets), v) == 1;
  }

  /** A band can hold only named values, and a named value is claimed by its bucket. */
  lemma TakingOnceLeavesBandsEmpty(buckets: seq<Bucket>, v: int)
    requires Reporting(buckets) == buckets && PlainRemainders(buckets) && TakesOnce(buckets)
    ensures BandHits(buckets, v) == 0 && Claims(buckets, v) <= 1
  {
    NamedIsClaimed(buckets, v);
    if v in DimensionValues(buckets) {
      NamedOnce(buckets, v);
    } else if BandHits(buckets, v) > 0 {
      HeldIsNamed(buckets, v);
    }
  }

  lemma TakingOnceHasNoOverlap(buckets: seq<Bucket>)
    requires Reporting(buckets) == buckets && PlainRemainders(buckets) && TakesOnce(buckets)
    ensures NoOverlap(buckets) && NothingHeld(buckets)
  {
    forall v ensures BandHits(buckets, v) == 0 && Claims(buckets, v) <= 1 {
      TakingOnceLeavesBandsEmpty(buckets, v);
    }
    assert Remainders(Reporting(buckets)) == 1;
  }

  lemma NothingInBand(buckets: seq<Bucket>, i: nat, v: int)
    requires NothingHeld(buckets) && i < |buckets|
    ensures !InBand(buckets[i], v)
  {
    BandsHit(buckets, v);
    assert BandHits(buckets, v) == 0;
  }

  lemma NoOverlapTakesOnce(buckets: seq<Bucket>)
    requires Reporting(buckets) == buckets && PlainRemainders(buckets)
    requires NoOverlap(buckets) && NothingHeld(buckets)
    ensures TakesOnce(buckets)
  {
    forall v | v in DimensionValues(buckets) ensures BandHits(buckets, v) + Claims(buckets, v) == 1 {
      NamedIsClaimed(buckets, v);
    }
    forall i | 0 <= i < |buckets| ensures HoldsOnly(Reporting(buckets)[i], DimensionValues(buckets)) {
      forall v ensures !InBand(buckets[i], v) {
        NothingInBand(buckets, i, v);
      }
    }
  }

  /** With distinct keys, and remainders that name nothing, that is: one remainder, no
      value named by two buckets, and no band that can hold a value, for the remainder
      takes again every row a band does. */
  lemma DistinctSeriesSums(buckets: seq<Bucket>)
    requires DistinctKeys(buckets) && PlainRemainders(buckets)
    ensures AlwaysSums(buckets) <==> NoOverlap(buckets) && forall i | 0 <= i < |buckets| :: EmptyBand(buckets[i])
  {
    SeriesSumsExactly(buckets);
    DistinctReportThemselves(buckets);
    EmptyBandsHoldNothing(buckets);
    if TakesOnce(buckets) {
      TakingOnceHasNoOverlap(buckets);
    } else if NoOverlap(buckets) && NothingHeld(buckets) {
      NoOverlapTakesOnce(buckets);
    }
  }

  lemma Snoc(front: seq<Bucket>, b: Bucket, v: int, key: string)
    ensures var all := front + [b];
      && DimensionValues(all) == DimensionValues(front) + Contributed(b)
      && Claims(all, v) == Claims(front, v) + (if v in Claimed(b) then 1 else 0)
      && Remainders(all) == Remainders(front) + (if b.Other? then 1 else 0)
      && LastByKey(all, key) == if b.key == key then Some(b) else LastByKey(front, key)
  {
    assert (front + [b])[..|front|] == front;
  }

  lemma SnocHits(front: seq<Bucket>, b: Bucket, v: int, dimension: seq<int>)
    ensures Hits(front + [b], v, dimension) == Hits(front, v, dimension) + (if Takes(b, v, dimension) then 1 else 0)
  {
    assert (front + [b])[..|front|] == front;
  }

  /** Two buckets for two values under one key, and a remainder. */
  function Doubled(): seq<Bucket> { [] + [One("a", 1)] + [One("a", 2)] + [Other("other", [])] }

  lemma DoubledReporting()
    ensures DimensionValues(Doubled()) == [1, 2]
    ensures Reporting(Doubled()) == [] + [One("a", 2)] + [One("a", 2)] + [Other("other", [])]
    ensures Remainders(Doubled()) == 1
  {
    assert "other" != "a";
    DoubledKey("a");
    DoubledKey("other");
    assert Reporting(Doubled())[0] == One("a", 2) && Reporting(Doubled())[1] == One("a", 2);
    assert Reporting(Doubled())[2] == Other("other", []);
  }

  lemma DoubledKey(key: string)
    ensures DimensionValues(Doubled()) == [1, 2] && Remainders(Doubled()) == 1
    ensures LastByKey(Doubled(), key)
         == if key == "other" then Some(Other("other", [])) else if key == "a" then Some(One("a", 2)) else None
  {
    Snoc([], One("a", 1), 0, key);
    Snoc([] + [One("a", 1)], One("a", 2), 0, key);
    Snoc([] + [One("a", 1)] + [One("a", 2)], Other("other", []), 0, key);
  }

  /** A repeated key loses rows even when no value is named twice: both buckets report
      the second one's count. */
  lemma RepeatedKeyLosesRows()
    ensures NoOverlap(Doubled()) && Sum(Reported([1], Doubled())) == 0
  {
    DoubledReporting();
    forall v ensures Claims(Doubled(), v) <= 1 {
      Snoc([], One("a", 1), v, "");
      Snoc([] + [One("a", 1)], One("a", 2), v, "");
      Snoc([] + [One("a", 1)] + [One("a", 2)], Other("other", []), v, "");
    }
    ReportedOfOne(Doubled(), 1);
    SnocHits([], One("a", 2), 1, [1, 2]);
    SnocHits([] + [One("a", 2)], One("a", 2), 1, [1, 2]);
    SnocHits([] + [One("a", 2)] + [One("a", 2)], Other("other", []), 1, [1, 2]);
  }

  /** A band and a remainder. */
  function Mixed(): seq<Bucket> { [] + [Band("low", 0, Some(60))] + [Other("other", [])] }

  lemma MixedNames(v: int)
    ensures DimensionValues(Mixed()) == [] && Remainders(Mixed()) == 1 && Claims(Mixed(), v) == 0
  {
    Snoc([], Band("low", 0, Some(60)), v, "");
    Snoc([] + [Band("low", 0, Some(60))], Other("other", []), v, "");
  }

  lemma MixedHits()
    ensures Hits(Mixed(), 5, []) == 2
  {
    SnocHits([], Band("low", 0, Some(60)), 5, []);
    SnocHits([] + [Band("low", 0, Some(60))], Other("other", []), 5, []);
  }

  lemma MixedKeys()
    ensures DistinctKeys(Mixed())
  {
    assert "low"[0] != "other"[0];
  }

  /** A band beside a remainder counts its rows twice, though keys are distinct and no
      value is named twice. */
  lemma BandBesideRemainderCountsTwice()
    ensures DistinctKeys(Mixed()) && NoOverlap(Mixed()) && Sum(Reported([5], Mixed())) == 2
  {
    MixedKeys();
    DistinctReportThemselves(Mixed());
    forall v ensures DimensionValues(Mixed()) == [] && Remainders(Mixed()) == 1 && Claims(Mixed(), v) == 0 {
      MixedNames(v);
    }
    ReportedOfOne(Mixed(), 5);
    MixedHits();
  }

  // ----- numeric dimensions -----

  /** Bands that continue one another upwards, the last one open. */
  predicate Contiguous(buckets: seq<Bucket>) {
    && buckets != []
    && (forall i | 0 <= i < |buckets| :: buckets[i].Band? && (buckets[i].hi.None? <==> i == |buckets| - 1))
    && (forall i | 0 < i < |buckets| :: buckets[i - 1].hi == Some(buckets[i].lo) && buckets[i - 1].lo <= buckets[i].lo)
  }

  /** Below its first `n` bands' upper end a value falls in exactly one of them. */
  lemma {:induction false} BandsBelow(buckets: seq<Bucket>, n: nat, v: int, dimension: seq<int>)
    requires Contiguous(buckets) && n < |buckets|
    ensures Hits(buckets[..n], v, dimension) == if buckets[0].lo <= v < buckets[n].lo then 1 else 0
    ensures buckets[0].lo <= buckets[n].lo
  {
    if n > 0 {
      BandsBelow(buckets, n - 1, v, dimension);
      assert buckets[..n][..n - 1] == buckets[..n - 1];
    }
  }

  /** Contiguous bands with an open end count every row exactly once, and nothing
      below the first band. */
  lemma BandsCountOnce(buckets: seq<Bucket>, v: int, dimension: seq<int>)
    requires Contiguous(buckets)
    ensures Hits(buckets, v, dimension) == if buckets[0].lo <= v then 1 else 0
  {
    BandsBelow(buckets, |buckets| - 1, v, dimension);
  }

  lemma SumIsHits(buckets: seq<Bucket>, v: int, dimension: seq<int>)
    ensures Sum(SeriesOf([v], buckets, dimension)) == Hits(buckets, v, dimension)
  {
    SumOfRow([v], buckets, dimension);
    assert [v][1..] == [];
    NoRowsNoSum(buckets, dimension);
  }

  // ----- derived dimensions -----

  /** The default cap on derived buckets. */
  const AUTO_BUCKET_LIMIT := 12

  datatype Tally = Tally(value: int, n: nat)

  function Distinct(rows: seq<int>): seq<int> {
    if rows == [] then []
    else
      var rest := Distinct(rows[..|rows| - 1]);
      if rows[|rows| - 1] in rest then rest else rest + [rows[|rows| - 1]]
  }

  function Tallies(rows: seq<int>): seq<Tally> {
    var values := Distinct(rows);
    seq(|values|, i requires 0 <= i < |values| => Tally(values[i], CountOf(rows, values[i])))
  }

  /** Most rows first, then by value. */
  predicate Before(a: Tally, b: Tally) { a.n > b.n || (a.n == b.n && a.value <= b.value) }

  function Ranked(rows: seq<int>): seq<Tally> { Sorting.Sort(Tallies(rows), Before) }

  /** The cap in force: none and zero both mean the default. */
  function CapOf(limit: Option<int>): int {
    if limit.None? || limit.value == 0 then AUTO_BUCKET_LIMIT else limit.value
  }

  function Firsts(ranked: seq<Tally>, n: nat): seq<Tally> { if n <= |ranked| then ranked[..n] else ranked }

  function ValueBuckets(tallies: seq<Tally>, show: int -> string): (bs: seq<Bucket>)
    ensures |bs| == |tallies|
  {
    seq(|tallies|, i requires 0 <= i < |tallies| => One("v:" + show(tallies[i].value), tallies[i].value))
  }

  /** The buckets derived from the full scope, or None if the cap is one the database
      refuses. A cap of -1 is accepted and puts everything in the remainder. */
  function Derive(scope: seq<int>, limit: Option<int>, show: int -> string): Option<seq<Bucket>> {
    var cap := CapOf(limit);
    if cap < -1 then None
    else
      var ranked := Ranked(scope);
      Some(ValueBuckets(Firsts(ranked, Max(cap, 0)), show) + (if |ranked| > cap then [Other("other", [])] else []))
  }

  method DeriveBuckets(scope: seq<int>, limit: Option<int>, show: int -> string) returns (r: Option<seq<Bucket>>)
    ensures r == Derive(scope, limit, show)
  {
    var cap := CapOf(limit);
    if cap + 1 < 0 {
      return None;
    }
    var rows := Firsts(Ranked(scope), cap + 1);
    var overflow := |rows| > cap;
    var shown := Firsts(rows, Max(cap, 0));
    assert shown == Firsts(Ranked(scope), Max(cap, 0));
    var buckets: seq<Bucket> := [];
    for i := 0 to |shown|
      invariant buckets == ValueBuckets(shown[..i], show)
    {
      OneMoreBucket(shown, i, show);
      buckets := buckets + [One("v:" + show(shown[i].value), shown[i].value)];
    }
    assert shown[..|shown|] == shown;
    assert overflow <==> |Ranked(scope)| > cap;
    if overflow {
      buckets := buckets + [Other("other", [])];
    } else {
      assert buckets + [] == buckets;
    }
    r := Some(buckets);
  }

  lemma OneMoreBucket(tallies: seq<Tally>, i: nat, show: int -> string)
    requires i < |tallies|
    ensures ValueBuckets(tallies[..i + 1], show)
         == ValueBuckets(tallies[..i], show) + [One("v:" + show(tallies[i].value), tallies[i].value)]
  {
  }

  // ----- what derived buckets take -----

  lemma {:induction false} DistinctHolds(rows: seq<int>, v: int)
    ensures v in Distinct(rows) <==> v in rows
  {
    if rows != [] {
      DistinctHolds(rows[..|rows| - 1], v);
      assert rows == rows[..|rows| - 1] + [rows[|rows| - 1]];
    }
  }

  lemma {:induction false} DistinctIsDistinct(rows: seq<int>)
    ensures forall i, j | 0 <= i < j < |Distinct(rows)| :: Distinct(rows)[i] != Distinct(rows)[j]
  {
    if rows != [] {
      DistinctIsDistinct(rows[..|rows| - 1]);
    }
  }

  lemma BeforeIsTotal()
    ensures Sorting.TotalOrder(Before)
  {
  }

  /** One tally for each value of the scope, with its row count, in rank order. */
  lemma RankedIsRanking(rows: seq<int>)
    ensures var ranked := Ranked(rows);
      && Sorting.Ordered(ranked, Before)
      && (forall t :: t in ranked <==> t.value in rows && t.n == CountOf(rows, t.value))
      && (forall i, j | 0 <= i < j < |ranked| :: ranked[i].value != ranked[j].value)
  {
    var tallies, ranked := Tallies(rows), Ranked(rows);
    BeforeIsTotal();
    Sorting.SortOrders(tallies, Before);
    Sorting.SortKeepsElements(tallies, Before);
    Sorting.SortPermutes(tallies, Before);
    DistinctIsDistinct(rows);
    forall t ensures t in ranked <==> t.value in rows && t.n == CountOf(rows, t.value) {
      DistinctHolds(rows, t.value);
      if t.value in rows && t.n == CountOf(rows, t.value) {
        var i :| 0 <= i < |Distinct(rows)| && Distinct(rows)[i] == t.value;
        assert tallies[i] == t;
      }
    }
    forall i, j | 0 <= i < j < |ranked| ensures ranked[i].value != ranked[j].value {
      if ranked[i].value == ranked[j].value {
        assert ranked[i] in ranked && ranked[j] in ranked;
        OnceEach(tallies, ranked, i, j);
      }
    }
  }

  lemma OnceEach(tallies: seq<Tally>, ranked: seq<Tally>, i: nat, j: nat)
    requires multiset(ranked) == multiset(tallies) && i < j < |ranked|
    requires forall a, b | 0 <= a < b < |tallies| :: tallies[a] != tallies[b]
    ensures ranked[i] != ranked[j]
  {
    if ranked[i] == ranked[j] {
      var t := ranked[i];
      assert ranked == ranked[..j] + [t] + ranked[j + 1..] && ranked[..j][i] == t;
      assert t in multiset(ranked[..j]);
      assert multiset(tallies)[t] >= 2;
      OnlyOnce(tallies, t);
      assert false;
    }
  }

  lemma {:induction false} OnlyOnce(tallies: seq<Tally>, t: Tally)
    requires forall a, b | 0 <= a < b < |tallies| :: tallies[a] != tallies[b]
    ensures multiset(tallies)[t] <= 1
  {
    if tallies != [] {
      var n := |tallies| - 1;
      OnlyOnce(tallies[..n], t);
      assert tallies == tallies[..n] + [tallies[n]];
      if tallies[n] == t {
        assert t !in tallies[..n];
      }
    }
  }

  /** The derived buckets name each of their values once, in this order. */
  lemma {:induction false} ClaimsOfValueBuckets(tallies: seq<Tally>, show: int -> string, v: int)
    requires forall i, j | 0 <= i < j < |tallies| :: tallies[i].value != tallies[j].value
    ensures Claims(ValueBuckets(tallies, show), v) == if exists t :: t in tallies && t.value == v then 1 else 0
    ensures Remainders(ValueBuckets(tallies, show)) == 0
  {
    if tallies != [] {
      var n := |tallies| - 1;
      ClaimsOfValueBuckets(tallies[..n], show, v);
      assert ValueBuckets(tallies, show)[..n] == ValueBuckets(tallies[..n], show);
      assert tallies == tallies[..n] + [tallies[n]];
      if tallies[n].value == v {
        assert forall t | t in tallies[..n] :: t.value != v;
        assert tallies[n] in tallies;
      } else {
        assert forall t | t in tallies :: t.value == v ==> t in tallies[..n];
      }
    }
  }

  lemma AddRemainder(front: seq<Bucket>, tail: seq<Bucket>, v: int)
    requires Categorical(front) && (tail == [] || tail == [Other("other", [])])
    ensures Claims(front + tail, v) == Claims(front, v)
    ensures Remainders(front + tail) == Remainders(front) + |tail|
    ensures Categorical(front + tail)
  {
    if tail == [] {
      assert front + tail == front;
    } else {
      assert (front + tail)[..|front|] == front;
    }
  }

  predicate Named(tallies: seq<Tally>, v: int) {
    exists t | t in tallies :: t.value == v
  }

  /** What the derived buckets name, and when there is a remainder. */
  lemma DerivedClaims(scope: seq<int>, limit: Option<int>, show: int -> string, v: int)
    requires Derive(scope, limit, show).Some?
    ensures var cap, buckets := CapOf(limit), Derive(scope, limit, show).value;
      && Categorical(buckets)
      && Claims(buckets, v) == (if Named(Firsts(Ranked(scope), Max(cap, 0)), v) then 1 else 0)
      && Remainders(buckets) == (if |Ranked(scope)| > cap then 1 else 0)
  {
    var named := Firsts(Ranked(scope), Max(CapOf(limit), 0));
    var front := ValueBuckets(named, show);
    NamedAreDistinct(scope, Max(CapOf(limit), 0));
    ClaimsOfValueBuckets(named, show, v);
    AddRemainder(front, if |Ranked(scope)| > CapOf(limit) then [Other("other", [])] else [], v);
  }

  lemma NamedAreDistinct(scope: seq<int>, n: nat)
    ensures var named := Firsts(Ranked(scope), n);
      forall i, j | 0 <= i < j < |named| :: named[i].value != named[j].value
  {
    RankedIsRanking(scope);
  }

  /** A row of the scope falls in exactly one derived bucket. */
  lemma DerivedTakesOnce(scope: seq<int>, limit: Option<int>, show: int -> string, v: int)
    requires v in scope && Derive(scope, limit, show).Some?
    ensures var buckets := Derive(scope, limit, show).value;
      Hits(buckets, v, DimensionValues(buckets)) == 1
  {
    var cap, ranked, buckets := CapOf(limit), Ranked(scope), Derive(scope, limit, show).value;
    DerivedClaims(scope, limit, show, v);
    HitsOfCategorical(buckets, v, DimensionValues(buckets));
    ClaimedIsNamed(buckets, v);
    RankedIsRanking(scope);
    assert Tally(v, CountOf(scope, v)) in ranked;
    assert |ranked| <= cap ==> Firsts(ranked, Max(cap, 0)) == ranked;
  }

  /** A named value of a repeated key is lost: its bucket reports another one's count. */
  lemma RepeatedDerivedKeyLoses(scope: seq<int>, limit: Option<int>, show: int -> string, i: nat, j: nat)
    requires Derive(scope, limit, show).Some?
    requires var buckets := Derive(scope, limit, show).value;
      i < j < |buckets| && buckets[i].key == buckets[j].key
    ensures var buckets := Derive(scope, limit, show).value;
      buckets[i].One? && buckets[i].value in scope && Sum(Reported([buckets[i].value], buckets)) == 0
  {
    var buckets := Derive(scope, limit, show).value;
    var named := Firsts(Ranked(scope), Max(CapOf(limit), 0));
    RankedIsRanking(scope);
    DerivedShape(scope, limit, show);
    if j == |named| {
      KeysDiffer(show(named[i].value), "");
    }
    var v := named[i].value;
    assert Ranked(scope)[i] in Ranked(scope);
    forall k | 0 <= k < |buckets| ensures !Takes(Reporting(buckets)[k], v, DimensionValues(buckets)) {
      ReportsAnother(buckets, named, show, i, j, k);
    }
    NoneTakes(Reporting(buckets), v, DimensionValues(buckets));
    ReportedOfOne(buckets, v);
  }

  /** The derived buckets: one per named value, then perhaps the remainder. */
  lemma DerivedShape(scope: seq<int>, limit: Option<int>, show: int -> string)
    requires Derive(scope, limit, show).Some?
    ensures var buckets, named := Derive(scope, limit, show).value, Firsts(Ranked(scope), Max(CapOf(limit), 0));
      && |named| <= |buckets| <= |named| + 1
      && (forall i | 0 <= i < |named| :: buckets[i] == One("v:" + show(named[i].value), named[i].value))
      && (|buckets| > |named| ==> buckets[|named|] == Other("other", []))
  {
  }

  /** No bucket reports a count that includes the value of bucket `i`, whose key a later
      bucket shares. */
  lemma ReportsAnother(buckets: seq<Bucket>, named: seq<Tally>, show: int -> string, i: nat, j: nat, k: nat)
    requires |named| <= |buckets| <= |named| + 1 && i < j < |named| && k < |buckets|
    requires forall x | 0 <= x < |named| :: buckets[x] == One("v:" + show(named[x].value), named[x].value)
    requires |buckets| > |named| ==> buckets[|named|] == Other("other", [])
    requires forall x, y | 0 <= x < y < |named| :: named[x].value != named[y].value
    requires buckets[i].key == buckets[j].key
    ensures !Takes(Reporting(buckets)[k], named[i].value, DimensionValues(buckets))
  {
    var m := if buckets[k].key == buckets[i].key then j else k;
    LastExists(buckets, m);
    var l :| m <= l < |buckets| && LastByKey(buckets, buckets[m].key) == Some(buckets[l]) && buckets[l].key == buckets[m].key;
    assert Reporting(buckets)[k] == buckets[l] && l != i;
    if l == |named| {
      NamedByBucket(buckets, i, named[i].value);
    }
  }

  lemma {:induction false} NoneTakes(buckets: seq<Bucket>, v: int, dimension: seq<int>)
    requires forall i | 0 <= i < |buckets| :: !Takes(buckets[i], v, dimension)
    ensures Hits(buckets, v, dimension) == 0
  {
    if buckets != [] {
      NoneTakes(buckets[..|buckets| - 1], v, dimension);
    }
  }

  ghost predicate DrawnFrom(rows: seq<int>, scope: seq<int>) { forall v | v in rows :: v in scope }

  /** Derived from the full scope, the reported series sums to the total of every
      filtered subset exactly when the derived keys are distinct. */
  lemma DerivedSeriesSumsToTotal(scope: seq<int>, limit: Option<int>, show: int -> string)
    requires Derive(scope, limit, show).Some?
    ensures var buckets := Derive(scope, limit, show).value;
      (forall filtered: seq<int> | DrawnFrom(filtered, scope) :: Sum(Reported(filtered, buckets)) == |filtered|)
      <==> DistinctKeys(buckets)
  {
    var buckets := Derive(scope, limit, show).value;
    if DistinctKeys(buckets) {
      forall filtered: seq<int> | DrawnFrom(filtered, scope) ensures Sum(Reported(filtered, buckets)) == |filtered| {
        DistinctReportThemselves(buckets);
        forall v | v in filtered ensures Hits(buckets, v, DimensionValues(buckets)) == 1 {
          DerivedTakesOnce(scope, limit, show, v);
        }
        ReportedSumsToRows(filtered, buckets);
      }
    } else {
      var i, j :| 0 <= i < j < |buckets| && buckets[i].key == buckets[j].key;
      RepeatedDerivedKeyLoses(scope, limit, show, i, j);
      assert DrawnFrom([buckets[i].value], scope);
    }
  }

  /** The named values are the most frequent of the scope: none left to the remainder
      has more rows. */
  lemma NamedAreMostFrequent(scope: seq<int>, limit: Option<int>, show: int -> string, v: int, w: int)
    requires Derive(scope, limit, show).Some? && v in scope && w in scope
    requires var dimension := DimensionValues(Derive(scope, limit, show).value);
      v in dimension && w !in dimension
    ensures Before(Tally(v, CountOf(scope, v)), Tally(w, CountOf(scope, w)))
  {
    var ranked, buckets := Ranked(scope), Derive(scope, limit, show).value;
    var n := |Firsts(ranked, Max(CapOf(limit), 0))|;
    DerivedClaims(scope, limit, show, v);
    DerivedClaims(scope, limit, show, w);
    ClaimedIsNamed(buckets, v);
    ClaimedIsNamed(buckets, w);
    RankedIsRanking(scope);
    RankedAround(scope, n, v, w);
  }

  lemma RankedAround(scope: seq<int>, n: nat, v: int, w: int)
    requires n <= |Ranked(scope)| && w in scope
    requires Named(Ranked(scope)[..n], v) && !Named(Ranked(scope)[..n], w)
    ensures Before(Tally(v, CountOf(scope, v)), Tally(w, CountOf(scope, w)))
  {
    var ranked := Ranked(scope);
    RankedIsRanking(scope);
    var t :| t in ranked[..n] && t.value == v;
    var i :| 0 <= i < n && ranked[i] == t;
    assert ranked[i] in ranked;
    var u := Tally(w, CountOf(scope, w));
    assert u in ranked;
    var j :| 0 <= j < |ranked| && ranked[j] == u;
    OrderedAcross(ranked, n, i, j, w);
  }

  lemma OrderedAcross(ranked: seq<Tally>, n: nat, i: nat, j: nat, w: int)
    requires Sorting.Ordered(ranked, Before) && i < n <= |ranked| && j < |ranked|
    requires ranked[j].value == w && !Named(ranked[..n], w)
    ensures Before(ranked[i], ranked[j])
  {
    if j < n {
      FirstsAreNamed(ranked, n, j);
    }
  }

  lemma FirstsAreNamed(ranked: seq<Tally>, n: nat, j: nat)
    requires j < n <= |ranked|
    ensures Named(ranked[..n], ranked[j].value)
  {
    assert ranked[..n][j] == ranked[j];
  }

  // ----- the series and its drilldown -----

  /** The bucket a drilldown names: the first with the key. */
  function BucketByKey(buckets: seq<Bucket>, key: string): Option<Bucket> {
    if buckets == [] then None
    else if buckets[0].key == key then Some(buckets[0])
    else BucketByKey(buckets[1..], key)
  }

  /** `count(dimension, bucket=key)`; an unknown key is an error. */
  function DrilldownCount(rows: seq<int>, buckets: seq<Bucket>, key: string): Option<nat> {
    var b := BucketByKey(buckets, key);
    if b.None? then None else Some(CountTaken(rows, b.value, DimensionValues(buckets)))
  }

  lemma {:induction false} FirstWithKey(buckets: seq<Bucket>, i: nat)
    requires i < |buckets| && forall j | 0 <= j < i :: buckets[j].key != buckets[i].key
    ensures BucketByKey(buckets, buckets[i].key) == Some(buckets[i])
  {
    if i > 0 {
      FirstWithKey(buckets[1..], i - 1);
    }
  }

  lemma {:induction false} SameCondition(rows: seq<int>, b: Bucket, c: Bucket, dimension: seq<int>)
    requires forall v :: Takes(b, v, dimension) == Takes(c, v, dimension)
    ensures CountTaken(rows, b, dimension) == CountTaken(rows, c, dimension)
  {
    if rows != [] {
      SameCondition(rows[1..], b, c, dimension);
    }
  }

  /** A drilldown into the key of bucket `i` counts what the series reports for it. */
  ghost predicate DrilldownAgrees(buckets: seq<Bucket>, i: nat)
    requires i < |buckets|
  {
    forall rows: seq<int> :: DrilldownCount(rows, buckets, buckets[i].key) == Some(Reported(rows, buckets)[i])
  }

  lemma DrilldownAndSeries(rows: seq<int>, buckets: seq<Bucket>, i: nat)
    requires i < |buckets|
    ensures var dimension, key := DimensionValues(buckets), buckets[i].key;
      && BucketByKey(buckets, key).Some? && LastByKey(buckets, key).Some?
      && DrilldownCount(rows, buckets, key) == Some(CountTaken(rows, BucketByKey(buckets, key).value, dimension))
      && Reported(rows, buckets)[i] == CountTaken(rows, LastByKey(buckets, key).value, dimension)
  {
    FirstExists(buckets, i);
    LastExists(buckets, i);
    AggregateHolds(rows, buckets, DimensionValues(buckets), buckets[i].key);
  }

  /** They agree, for all rows, exactly when the first and the last bucket with that key
      take the same values. */
  lemma DrilldownMatchesSeries(buckets: seq<Bucket>, i: nat)
    requires i < |buckets|
    ensures var dimension, key := DimensionValues(buckets), buckets[i].key;
      && BucketByKey(buckets, key).Some? && LastByKey(buckets, key).Some?
      && (DrilldownAgrees(buckets, i)
          <==> forall v :: Takes(BucketByKey(buckets, key).value, v, dimension)
                        == Takes(LastByKey(buckets, key).value, v, dimension))
  {
    DrilldownAndSeries([], buckets, i);
    var dimension, key := DimensionValues(buckets), buckets[i].key;
    var first, last := BucketByKey(buckets, key).value, LastByKey(buckets, key).value;
    if DrilldownAgrees(buckets, i) {
      forall v ensures Takes(first, v, dimension) == Takes(last, v, dimension) {
        DrilldownAndSeries([v], buckets, i);
        CountOne(v, first, dimension);
        CountOne(v, last, dimension);
      }
    } else {
      var rows: seq<int> :| DrilldownCount(rows, buckets, key) != Some(Reported(rows, buckets)[i]);
      DrilldownAndSeries(rows, buckets, i);
      if forall v :: Takes(first, v, dimension) == Takes(last, v, dimension) {
        SameCondition(rows, first, last, dimension);
      }
    }
  }

  lemma CountOne(v: int, b: Bucket, dimension: seq<int>)
    ensures CountTaken([v], b, dimension) == if Takes(b, v, dimension) then 1 else 0
  {
    assert [v][1..] == [];
  }

  lemma {:induction false} FirstExists(buckets: seq<Bucket>, i: nat)
    requires i < |buckets|
    ensures BucketByKey(buckets, buckets[i].key).Some?
  {
    if buckets[0].key != buckets[i].key {
      FirstExists(buckets[1..], i - 1);
    }
  }

  /** In particular it does whenever keys are distinct. */
  lemma DistinctDrilldowns(rows: seq<int>, buckets: seq<Bucket>, i: nat)
    requires DistinctKeys(buckets) && i < |buckets|
    ensures DrilldownCount(rows, buckets, buckets[i].key) == Some(Reported(rows, buckets)[i])
  {
    FirstWithKey(buckets, i);
    LastExists(buckets, i);
    AggregateHolds(rows, buckets, DimensionValues(buckets), buckets[i].key);
  }

  lemma KeysDiffer(a: string, b: string)
    ensures "v:" + a == "v:" + b <==> a == b
    ensures "v:" + a != "other"
  {
    assert ("v:" + a)[2..] == a && ("v:" + b)[2..] == b;
    assert ("v:" + a)[0] == 'v' && "other"[0] == 'o';
  }

  /** Derived buckets have distinct keys exactly when the named values print differently. */
  lemma DerivedKeysAreDistinct(scope: seq<int>, limit: Option<int>, show: int -> string)
    requires Derive(scope, limit, show).Some?
    ensures var named := Firsts(Ranked(scope), Max(CapOf(limit), 0));
      DistinctKeys(Derive(scope, limit, show).value)
      <==> forall i, j | 0 <= i < j < |named| :: show(named[i].value) != show(named[j].value)
  {
    var named := Firsts(Ranked(scope), Max(CapOf(limit), 0));
    var buckets := Derive(scope, limit, show).value;
    forall i, j | 0 <= i < j < |named|
      ensures buckets[i].key == buckets[j].key <==> show(named[i].value) == show(named[j].value)
    {
      KeysDiffer(show(named[i].value), show(named[j].value));
    }
    forall i | 0 <= i < |named| ensures buckets[i].key != "other" {
      KeysDiffer(show(named[i].value), "");
    }
  }
}
