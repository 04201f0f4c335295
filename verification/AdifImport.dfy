/** Importing an ADIF log into the logbook (apps/cw/logbook.py). Contacts with the
    same call in the same UTC minute as one already logged are skipped. */
module AdifImport {
  import opened Common
  import opened PythonText
  import opened Adif

  // ----- UTC times -----

  datatype DateTime = DateTime(year: int, month: int, day: int, hour: int, minute: int, second: int, micro: int)

  predicate LeapYear(y: int) { y % 4 == 0 && (y % 100 != 0 || y % 400 == 0) }

  function DaysInMonth(y: int, m: int): int {
    if m == 2 then (if LeapYear(y) then 29 else 28)
    else if m in {4, 6, 9, 11} then 30
    else 31
  }

  function DaysBeforeMonth(y: int, m: int): int
    decreases m
  {
    if m <= 1 then 0 else DaysBeforeMonth(y, m - 1) + DaysInMonth(y, m - 1)
  }

  /** The ranges `datetime.datetime` accepts. */
  predicate IsDateTime(t: DateTime) {
    && 1 <= t.year <= 9999 && 1 <= t.month <= 12 && 1 <= t.day <= DaysInMonth(t.year, t.month)
    && 0 <= t.hour < 24 && 0 <= t.minute < 60 && 0 <= t.second < 60 && 0 <= t.micro < 1_000_000
  }

  function DaysBeforeYear(year: int): int {
    var y := year - 1;
    y * 365 + y / 4 - y / 100 + y / 400
  }

  function DayOf(t: DateTime): int { DaysBeforeYear(t.year) + DaysBeforeMonth(t.year, t.month) + t.day }

  /** Minutes of the proleptic Gregorian calendar up to the minute holding `t`. */
  function MinuteOf(t: DateTime): int { (DayOf(t) * 24 + t.hour) * 60 + t.minute }

  /** The instant in microseconds, the order in which times compare. */
  function Instant(t: DateTime): int { MinuteOf(t) * 60_000_000 + t.second * 1_000_000 + t.micro }

  /** Adding one minute here leaves the range of `datetime`. */
  predicate InLastMinute(t: DateTime) {
    t.year == 9999 && t.month == 12 && t.day == 31 && t.hour == 23 && t.minute == 59
  }

  /** A time lies within one minute of the whole minute `lo` exactly when it has
      the same minute. */
  lemma InMinute(t: DateTime, lo: DateTime)
    requires IsDateTime(t) && IsDateTime(lo) && lo.second == 0 && lo.micro == 0
    ensures Instant(lo) <= Instant(t) < Instant(lo) + 60_000_000 <==> MinuteOf(t) == MinuteOf(lo)
  {
  }

  lemma LeapQuotients(y: int)
    ensures y / 4 == (y - 1) / 4 + (if y % 4 == 0 then 1 else 0)
    ensures y / 100 == (y - 1) / 100 + (if y % 100 == 0 then 1 else 0)
    ensures y / 400 == (y - 1) / 400 + (if y % 400 == 0 then 1 else 0)
  {
  }

  lemma OneYear(y: int)
    ensures DaysBeforeYear(y + 1) == DaysBeforeYear(y) + 365 + (if LeapYear(y) then 1 else 0)
  {
    LeapQuotients(y);
    CenturiesAreFourths(y);
  }

  lemma CenturiesAreFourths(y: int)
    ensures y % 100 == 0 ==> y % 4 == 0
    ensures y % 400 == 0 ==> y % 100 == 0
  {
  }

  lemma {:induction false} YearsApart(y: int, z: int)
    requires y < z
    ensures DaysBeforeYear(y) + 365 + (if LeapYear(y) then 1 else 0) <= DaysBeforeYear(z)
    decreases z - y
  {
    OneYear(z - 1);
    if y + 1 < z {
      YearsApart(y, z - 1);
    }
  }

  lemma {:induction false} MonthsApart(y: int, m: int, n: int)
    requires 1 <= m < n
    ensures DaysBeforeMonth(y, m) + DaysInMonth(y, m) <= DaysBeforeMonth(y, n)
    decreases n
  {
    if m + 1 < n {
      MonthsApart(y, m, n - 1);
    }
  }

  lemma YearLength(y: int)
    ensures DaysBeforeMonth(y, 13) == 365 + (if LeapYear(y) then 1 else 0)
  {
    assert DaysBeforeMonth(y, 4) == DaysBeforeMonth(y, 3) + 31;
    assert DaysBeforeMonth(y, 7) == DaysBeforeMonth(y, 4) + 30 + 31 + 30;
    assert DaysBeforeMonth(y, 10) == DaysBeforeMonth(y, 7) + 31 + 31 + 30;
  }

  lemma DaysInOrder(a: DateTime, b: DateTime)
    requires IsDateTime(a) && IsDateTime(b)
    requires a.year < b.year || (a.year == b.year && a.month < b.month)
    ensures DayOf(a) < DayOf(b)
  {
    if a.year < b.year {
      YearsApart(a.year, b.year);
      YearLength(a.year);
      MonthsApart(a.year, a.month, 13);
      if b.month > 1 { MonthsApart(b.year, 1, b.month); }
    } else {
      MonthsApart(a.year, a.month, b.month);
    }
  }

  /** The minute number identifies the calendar minute. */
  lemma MinuteIdentifies(a: DateTime, b: DateTime)
    requires IsDateTime(a) && IsDateTime(b)
    ensures MinuteOf(a) == MinuteOf(b) <==> a.(second := 0, micro := 0) == b.(second := 0, micro := 0)
  {
    if a.year < b.year || (a.year == b.year && a.month < b.month) {
      DaysInOrder(a, b);
    } else if b.year < a.year || (b.year == a.year && b.month < a.month) {
      DaysInOrder(b, a);
    }
  }

  // ----- reading a record -----

  function Get(r: Record, key: string): string { if key in r then r[key] else "" }

  /** `int(text)` on short ASCII text: surrounding whitespace and one sign allowed. */
  function ReadInt(text: string): Option<int> {
    var t := Strip(text);
    var signed := t != "" && t[0] in {'+', '-'};
    var digits := if signed then t[1..] else t;
    if digits == "" || !AllDigits(digits) then None
    else
      var value: int := Value(digits);
      Some(if signed && t[0] == '-' then -value else value)
  }

  function ZeroFill(s: string, width: nat): (r: string)
    ensures |r| == Max(|s|, width)
    decreases width - |s|
  {
    if |s| >= width then s else ZeroFill(s + "0", width)
  }

  function ParseWhen(r: Record): Option<DateTime> {
    var date := Strip(Get(r, "qso_date"));
    var given := Strip(Get(r, "time_on"));
    var time := ZeroFill(if given == "" then "0000" else given, 6);
    if |date| != 8 || !AllDigits(date) then None
    else
      var hour, minute, second := ReadInt(time[..2]), ReadInt(time[2..4]), ReadInt(time[4..6]);
      if hour.None? || minute.None? || second.None? then None
      else
        var t := DateTime(Value(date[..4]), Value(date[4..6]), Value(date[6..8]),
                          hour.value, minute.value, second.value, 0);
        if IsDateTime(t) then Some(t) else None
  }

  function CallOf(r: Record): string { Upper(Strip(Get(r, "call"))) }

  /** One logged contact; frequency in units of 0.0001 MHz. */
  datatype Qso = Qso(call: string, when: DateTime, freq: Option<int>, band: string, mode: string,
                     rstSent: string, rstRcvd: string, name: string, qth: string, gridsquare: string,
                     country: string, comment: string)

  /** What is read from outside: a frequency's text, and the band table. */
  datatype Reading = Reading(freqOf: string -> Option<int>, bandOf: Option<int> -> string)

  function OrElse(s: string, otherwise: string): string { if s == "" then otherwise else s }

  function QsoOf(r: Record, when: DateTime, reading: Reading): Qso {
    var freq := if Get(r, "freq") == "" then None else reading.freqOf(Get(r, "freq"));
    Qso(CallOf(r), when, freq,
        OrElse(Lower(Get(r, "band")), reading.bandOf(freq)),
        OrElse(Take(Upper(if "mode" in r then r["mode"] else "CW"), 12), "CW"),
        Take(Get(r, "rst_sent"), 8), Take(Get(r, "rst_rcvd"), 8), Take(Get(r, "name"), 120),
        Take(Get(r, "qth"), 120), Take(Get(r, "gridsquare"), 8), Take(Get(r, "country"), 64),
        Get(r, "comment"))
  }

  /** The contact a record describes; None if it has no call or no valid time. */
  function ReadRecord(r: Record, reading: Reading): (q: Option<Qso>)
    ensures q.Some? ==> IsDateTime(q.value.when)
  {
    var when := ParseWhen(r);
    if CallOf(r) == "" || when.None? then None else Some(QsoOf(r, when.value, reading))
  }

  function ReadRecords(records: seq<Record>, reading: Reading): seq<Option<Qso>> {
    seq(|records|, i requires 0 <= i < |records| => ReadRecord(records[i], reading))
  }

  // ----- one record -----

  /** The test the import makes against the stored contacts. */
  predicate Exists(log: seq<Qso>, call: string, when: DateTime) {
    var lo := when.(second := 0, micro := 0);
    exists q | q in log :: q.call == call && Instant(lo) <= Instant(q.when) < Instant(lo) + 60_000_000
  }

  datatype Counts = Counts(created: nat, duplicates: nat, errors: nat)

  /** `raised` is set when a record's minute has no successor: asking for it raises,
      the records before stay imported and the counts are lost to the caller. */
  datatype Imported = Imported(log: seq<Qso>, counts: Counts, raised: bool)

  function Processed(i: Imported): nat { i.counts.created + i.counts.duplicates + i.counts.errors }

  predicate Overflows(q: Option<Qso>) { q.Some? && InLastMinute(q.value.when) }

  function Step(i: Imported, q: Option<Qso>): Imported {
    if i.raised then i
    else if q.None? then i.(counts := i.counts.(errors := i.counts.errors + 1))
    else if InLastMinute(q.value.when) then i.(raised := true)
    else if Exists(i.log, q.value.call, q.value.when) then
      i.(counts := i.counts.(duplicates := i.counts.duplicates + 1))
    else i.(log := i.log + [q.value], counts := i.counts.(created := i.counts.created + 1))
  }

  function Import(log: seq<Qso>, read: seq<Option<Qso>>): Imported {
    if read == [] then Imported(log, Counts(0, 0, 0), false)
    else Step(Import(log, read[..|read| - 1]), read[|read| - 1])
  }

  /** What importing a text does to a log. */
  function ImportText(log: seq<Qso>, text: string, reading: Reading): Imported {
    Import(log, ReadRecords(Parse(text), reading))
  }

  /** The operator's logbook table. */
  class Logbook {
    var qsos: seq<Qso>

    constructor ()
      ensures qsos == []
    {
      qsos := [];
    }

    method ImportRecord(record: Record, reading: Reading, before: Counts, ghost read: Option<Qso>)
      returns (counts: Counts, raised: bool)
      requires read == ReadRecord(record, reading)
      modifies this
      ensures Imported(qsos, counts, raised) == Step(Imported(old(qsos), before, false), read)
    {
      counts, raised := before, false;
      var call, when := CallOf(record), ParseWhen(record);
      if call == "" || when.None? {
        counts := counts.(errors := counts.errors + 1);
      } else if InLastMinute(when.value) {
        raised := true;
      } else if Exists(qsos, call, when.value) {
        counts := counts.(duplicates := counts.duplicates + 1);
      } else {
        qsos := qsos + [QsoOf(record, when.value, reading)];
        counts := counts.(created := counts.created + 1);
      }
    }

    method ImportAdif(text: string, reading: Reading) returns (counts: Counts, raised: bool)
      modifies this
      ensures Imported(qsos, counts, raised) == ImportText(old(qsos), text, reading)
    {
      var records := ParseAdif(text);
      counts, raised := ImportAll(records, reading, ReadRecords(records, reading));
    }

    method ImportAll(records: seq<Record>, reading: Reading, ghost read: seq<Option<Qso>>)
      returns (counts: Counts, raised: bool)
      requires read == ReadRecords(records, reading)
      modifies this
      ensures Imported(qsos, counts, raised) == Import(old(qsos), read)
    {
      counts, raised := Counts(0, 0, 0), false;
      var i := 0;
      while i < |records| && !raised
        invariant 0 <= i <= |records| == |read|
        invariant Imported(qsos, counts, raised) == Import(old(qsos), read[..i])
      {
        assert read[..i + 1][..i] == read[..i];
        counts, raised := ImportRecord(records[i], reading, counts, read[i]);
        i := i + 1;
      }
      RaisedStays(old(qsos), read, i);
    }
  }

  lemma {:induction false} RaisedStays(log: seq<Qso>, read: seq<Option<Qso>>, k: nat)
    requires k <= |read|
    requires k < |read| ==> Import(log, read[..k]).raised
    ensures Import(log, read) == Import(log, read[..k])
    decreases |read|
  {
    if k == |read| {
      assert read[..k] == read;
    } else {
      var front := read[..|read| - 1];
      assert front[..k] == read[..k];
      RaisedStays(log, front, k);
    }
  }

  // ----- what every import does -----

  predicate IsTimed(q: Option<Qso>) { q.Some? ==> IsDateTime(q.value.when) }

  /** The stored times are times. */
  predicate GoodLog(log: seq<Qso>) {
    forall q | q in log :: IsDateTime(q.when)
  }

  /** What identifies a contact for the duplicate test. */
  datatype Key = Key(call: string, minute: int)

  function KeyOf(q: Qso): Key { Key(q.call, MinuteOf(q.when)) }

  predicate HasKey(log: seq<Qso>, k: Key) {
    exists i | 0 <= i < |log| :: KeyOf(log[i]) == k
  }

  lemma ExistsIsHasKey(log: seq<Qso>, call: string, when: DateTime)
    requires GoodLog(log) && IsDateTime(when)
    ensures Exists(log, call, when) <==> HasKey(log, Key(call, MinuteOf(when)))
  {
    var lo := when.(second := 0, micro := 0);
    assert MinuteOf(lo) == MinuteOf(when);
    forall q | q in log
      ensures Instant(lo) <= Instant(q.when) < Instant(lo) + 60_000_000 <==> MinuteOf(q.when) == MinuteOf(when)
    {
      InMinute(q.when, lo);
    }
    if HasKey(log, Key(call, MinuteOf(when))) {
      var i :| 0 <= i < |log| && KeyOf(log[i]) == Key(call, MinuteOf(when));
      assert log[i] in log;
    }
    if Exists(log, call, when) {
      var q :| q in log && q.call == call && Instant(lo) <= Instant(q.when) < Instant(lo) + 60_000_000;
      var i :| 0 <= i < |log| && log[i] == q;
      assert KeyOf(log[i]) == Key(call, MinuteOf(when));
    }
  }

  /** Every contact after the first `n` has a key unlike all before it. */
  predicate FreshKeys(log: seq<Qso>, n: nat) {
    forall i, j | 0 <= i < j < |log| && n <= j :: KeyOf(log[i]) != KeyOf(log[j])
  }

  /** How many of the records could not be read. */
  function Unread(read: seq<Option<Qso>>): nat {
    if read == [] then 0 else Unread(read[..|read| - 1]) + (if read[|read| - 1].None? then 1 else 0)
  }

  /** The readable records among the first `n` all have their contact in the log. */
  predicate Covered(log: seq<Qso>, read: seq<Option<Qso>>, n: nat) {
    forall i | 0 <= i < |read| && i < n && read[i].Some? :: HasKey(log, KeyOf(read[i].value))
  }

  /** The accounting of one record. */
  lemma StepAccounts(before: Imported, q: Option<Qso>, n: nat)
    requires GoodLog(before.log) && IsTimed(q) && !before.raised
    requires n <= |before.log| && FreshKeys(before.log, n)
    ensures var after := Step(before, q);
      && GoodLog(after.log)
      && before.log <= after.log
      && |after.log| - |before.log| == after.counts.created - before.counts.created
      && after.raised == Overflows(q)
      && Processed(after) == Processed(before) + (if after.raised then 0 else 1)
      && after.counts.errors == before.counts.errors + (if q.None? then 1 else 0)
      && FreshKeys(after.log, n)
      && (q.Some? && !after.raised ==> HasKey(after.log, KeyOf(q.value)))
  {
    if q.Some? {
      ExistsIsHasKey(before.log, q.value.call, q.value.when);
      var after := Step(before, q);
      if |after.log| > |before.log| {
        assert after.log[|before.log|] == q.value;
      }
    }
  }

  lemma HasKeyGrows(log: seq<Qso>, more: seq<Qso>, k: Key)
    requires log <= more && HasKey(log, k)
    ensures HasKey(more, k)
  {
    var i :| 0 <= i < |log| && KeyOf(log[i]) == k;
    assert more[i] == log[i];
  }

  lemma CoveredStep(log: seq<Qso>, more: seq<Qso>, read: seq<Option<Qso>>, n: nat)
    requires read != [] && Covered(log, read[..|read| - 1], |read| - 1)
    requires log <= more && n <= |read|
    requires n == |read| && read[n - 1].Some? ==> HasKey(more, KeyOf(read[n - 1].value))
    ensures Covered(more, read, n)
  {
    forall i | 0 <= i < n && read[i].Some? ensures HasKey(more, KeyOf(read[i].value)) {
      if i < |read| - 1 {
        assert read[..|read| - 1][i] == read[i];
        HasKeyGrows(log, more, KeyOf(read[i].value));
      }
    }
  }

  predicate Accounted(log: seq<Qso>, read: seq<Option<Qso>>, done: Imported) {
    && GoodLog(done.log)
    && log <= done.log
    && |done.log| == |log| + done.counts.created
    && FreshKeys(done.log, |log|)
    && Processed(done) <= |read|
    && Covered(done.log, read, Processed(done))
    && (forall i | 0 <= i < Processed(done) :: !Overflows(read[i]))
    && (if done.raised then Processed(done) < |read| && Overflows(read[Processed(done)])
        else Processed(done) == |read| && done.counts.errors == Unread(read))
  }

  lemma AccountedStep(log: seq<Qso>, read: seq<Option<Qso>>, before: Imported)
    requires read != [] && Accounted(log, read[..|read| - 1], before) && IsTimed(read[|read| - 1])
    ensures Accounted(log, read, Step(before, read[|read| - 1]))
  {
    var n := |read| - 1;
    var front, after := read[..n], Step(before, read[n]);
    if before.raised {
      assert front[Processed(before)] == read[Processed(before)];
    } else {
      StepAccounts(before, read[n], |log|);
      CoveredStep(before.log, after.log, read, Processed(after));
    }
    forall i | 0 <= i < Processed(after) ensures !Overflows(read[i]) {
      if i < n { assert front[i] == read[i]; }
    }
    if before.raised {
      forall i | 0 <= i < Processed(after) && read[i].Some? ensures HasKey(after.log, KeyOf(read[i].value)) {
        assert front[i] == read[i];
      }
    }
  }

  lemma {:induction false} ImportIsAccounted(log: seq<Qso>, read: seq<Option<Qso>>)
    requires GoodLog(log) && forall q | q in read :: IsTimed(q)
    ensures Accounted(log, read, Import(log, read))
  {
    if read != [] {
      ImportIsAccounted(log, read[..|read| - 1]);
      AccountedStep(log, read, Import(log, read[..|read| - 1]));
    }
  }

  lemma ReadsAreTimed(records: seq<Record>, reading: Reading)
    ensures forall q | q in ReadRecords(records, reading) :: IsTimed(q)
  {
  }

  /** Every import of any text accounts for every record: the counts sum to the
      records handled, stored contacts keep their place and content, new ones have
      (call, minute) keys distinct from each other and from all stored ones, the
      errors are exactly the unreadable records, and it stops early exactly at the
      first record in the last minute of the calendar. */
  lemma ImportAccountsForEverything(log: seq<Qso>, text: string, reading: Reading)
    requires GoodLog(log)
    ensures var read, done := ReadRecords(Parse(text), reading), ImportText(log, text, reading);
      && |read| == |Parse(text)|
      && log <= done.log && |done.log| == |log| + done.counts.created
      && FreshKeys(done.log, |log|)
      && Covered(done.log, read, Processed(done))
      && (done.raised <==> exists i | 0 <= i < |read| :: Overflows(read[i]))
      && (!done.raised ==> Processed(done) == |Parse(text)| && done.counts.errors == Unread(read))
      && (done.raised ==> Processed(done) < |read| && Overflows(read[Processed(done)]))
      && (forall i | 0 <= i < Processed(done) :: !Overflows(read[i]))
  {
    ReadsAreTimed(Parse(text), reading);
    ImportIsAccounted(log, ReadRecords(Parse(text), reading));
  }

  // ----- importing again -----

  lemma KnownStepAddsNothing(before: Imported, q: Option<Qso>)
    requires GoodLog(before.log) && IsTimed(q) && (q.Some? ==> HasKey(before.log, KeyOf(q.value)))
    ensures Step(before, q).log == before.log && Step(before, q).counts.created == before.counts.created
  {
    if q.Some? {
      ExistsIsHasKey(before.log, q.value.call, q.value.when);
    }
  }

  /** On a log that covers the records it gets to, an import stores nothing. */
  lemma {:induction false} CoveredImportAddsNothing(log: seq<Qso>, read: seq<Option<Qso>>, n: nat)
    requires GoodLog(log) && forall q | q in read :: IsTimed(q)
    requires n <= |read| && Covered(log, read, n) && (n < |read| ==> Overflows(read[n]))
    ensures Import(log, read).log == log && Import(log, read).counts.created == 0
    ensures n < |read| ==> Import(log, read).raised
    decreases |read|
  {
    if read != [] {
      var last := |read| - 1;
      var front, q := read[..last], read[last];
      assert q in read;
      CoveredImportAddsNothing(log, front, Min(n, last));
      if n == |read| {
        KnownStepAddsNothing(Import(log, front), q);
      }
    }
  }

  /** How many records fail, and where an import stops, does not depend on the log. */
  lemma {:induction false} SameErrors(log: seq<Qso>, other: seq<Qso>, read: seq<Option<Qso>>)
    ensures var a, b := Import(log, read), Import(other, read);
      a.counts.errors == b.counts.errors && a.raised == b.raised && Processed(a) == Processed(b)
  {
    if read != [] {
      SameErrors(log, other, read[..|read| - 1]);
    }
  }

  /** Importing the same text a second time creates nothing and leaves the log as
      it is, even if the first import stopped at a record it could not handle. */
  lemma ImportIsIdempotent(log: seq<Qso>, text: string, reading: Reading)
    requires GoodLog(log)
    ensures var first := ImportText(log, text, reading);
      var second := ImportText(first.log, text, reading);
      && second.log == first.log
      && second.counts == Counts(0, first.counts.created + first.counts.duplicates, first.counts.errors)
      && second.raised == first.raised
  {
    var read := ReadRecords(Parse(text), reading);
    ReadsAreTimed(Parse(text), reading);
    ImportIsAccounted(log, read);
    var first := Import(log, read);
    CoveredImportAddsNothing(first.log, read, Processed(first));
    SameErrors(log, first.log, read);
  }
}
