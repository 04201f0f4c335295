/** Exporting and importing are inverse to each other, as far as the format allows. */
module AdifExportImport {
  import opened Common
  import opened PythonText
  import opened Adif
  import opened AdifRoundTrip
  import opened AdifImport
  import opened AdifExport

  // ----- names and shapes of the written fields -----

  /** Distinguishes the written names: length and two characters. */
  function Mark(name: string): (int, char, char)
    requires |name| >= 3
  {
    (|name|, name[0], if |name| == 8 then name[4] else name[2])
  }

  lemma SlotNames(q: Qso, station: string, k: nat)
    requires IsDateTime(q.when) && k < 14
    ensures forall i | 0 <= i < 14 && i != k :: Slots(q, station)[i].name != Slots(q, station)[k].name
  {
    var slots := Slots(q, station);
    forall i | 0 <= i < 14 && i != k ensures slots[i].name != slots[k].name {
      assert Mark(slots[i].name) != Mark(slots[k].name);
    }
  }

  lemma FieldReadsBack(q: Qso, station: string, k: nat)
    requires IsDateTime(q.when) && k < 14
    ensures var slot := Slots(q, station)[k];
      Get(RecordOf(q, station), slot.name) == slot.value
      && (slot.present ==> slot.name in RecordOf(q, station))
  {
    SlotNames(q, station, k);
    SlotReadsBack(Slots(q, station), k);
  }

  lemma ShortNamesAreWritable()
    ensures WritableName("call") && WritableName("mode") && WritableName("band") && WritableName("freq")
    ensures WritableName("name") && WritableName("qth")
  {
  }

  lemma LongNamesAreWritable()
    ensures WritableName("qso_date") && WritableName("time_on") && WritableName("rst_sent")
    ensures WritableName("rst_rcvd")
  {
  }

  lemma LongestNamesAreWritable()
    ensures WritableName("gridsquare") && WritableName("country")
    ensures WritableName("station_callsign") && WritableName("comment")
  {
  }

  lemma NameIsWritable(q: Qso, station: string, k: nat)
    requires IsDateTime(q.when) && k < 14
    ensures WritableName(Slots(q, station)[k].name)
  {
    ShortNamesAreWritable();
    LongNamesAreWritable();
    LongestNamesAreWritable();
  }

  lemma {:induction false} EmitIsWritable(slots: seq<Slot>)
    requires forall i | 0 <= i < |slots| :: WritableName(slots[i].name)
    ensures Writable(Emit(slots))
    ensures slots != [] && slots[0].present ==> Emit(slots) != []
  {
    if slots != [] {
      EmitIsWritable(slots[..|slots| - 1]);
    }
  }

  /** Parsing an export gives one record per contact, in order. */
  lemma ParseOfExport(log: seq<Qso>, station: string)
    requires GoodLog(log)
    ensures |Parse(ExportText(log, station))| == |log|
    ensures forall i | 0 <= i < |log| :: Parse(ExportText(log, station))[i] == RecordOf(log[i], station)
  {
    var fields := FieldsOf(log, station);
    forall r | r in fields ensures r != [] && Writable(r) {
      var i :| 0 <= i < |log| && r == Emit(Slots(log[i], station));
      forall k: nat | k < 14 ensures WritableName(Slots(log[i], station)[k].name) {
        NameIsWritable(log[i], station, k);
      }
      EmitIsWritable(Slots(log[i], station));
    }
    ParseOfLogText(fields);
  }

  // ----- times read back -----

  lemma {:induction false} FourDigits(n: nat)
    requires 1000 <= n <= 9999
    ensures |Decimal(n)| == 4
  {
    assert Decimal(n) == Decimal(n / 10) + [Digit(n % 10)];
    assert Decimal(n / 10) == Decimal(n / 10 / 10) + [Digit(n / 10 % 10)];
    assert Decimal(n / 10 / 10) == Decimal(n / 10 / 10 / 10) + [Digit(n / 10 / 10 % 10)];
  }

  lemma FewerDigits(n: nat)
    requires n < 1000
    ensures |Decimal(n)| < 4
  {
    assert n >= 10 ==> Decimal(n) == Decimal(n / 10) + [Digit(n % 10)];
    assert n >= 100 ==> Decimal(n / 10) == Decimal(n / 10 / 10) + [Digit(n / 10 % 10)];
  }

  lemma DigitsStandAlone(s: string)
    requires s != "" && AllDigits(s)
    ensures Strip(s) == s && ReadInt(s) == Some(Value(s))
  {
    assert IsDigit(s[0]) && IsDigit(s[|s| - 1]);
    assert StripLeft(s) == s && StripRight(s) == s;
  }

  lemma ThreeParts(s: string, a: string, b: string, c: string)
    requires s == a + (b + c) && AllDigits(a) && AllDigits(b) && AllDigits(c)
    requires a != "" && |b| == 2 && |c| == 2
    ensures |s| == |a| + 4 && AllDigits(s) && Strip(s) == s
    ensures s[..|a|] == a && s[|a|..|a| + 2] == b && s[|a| + 2..|a| + 4] == c
  {
    assert s[|a|..] == b + c;
    assert AllDigits(b + c);
    assert AllDigits(s);
    DigitsStandAlone(s);
  }

  lemma TwoDigits(n: nat)
    requires n < 100
    ensures |Padded(n, 2)| == 2 && AllDigits(Padded(n, 2)) && Value(Padded(n, 2)) == n
    ensures ReadInt(Padded(n, 2)) == Some(n)
  {
    PaddedReadsBack(n, 2);
    assert Power10(2) == 10 * Power10(1) == 100;
    DigitsStandAlone(Padded(n, 2));
  }

  lemma DateReadsBack(t: DateTime)
    requires IsDateTime(t)
    ensures var s := DateText(t);
      Strip(s) == s && AllDigits(s) && (|s| == 8 <==> t.year >= 1000)
      && (|s| == 8 ==> Value(s[..4]) == t.year && Value(s[4..6]) == t.month && Value(s[6..8]) == t.day)
  {
    var s, y, m, d := DateText(t), Decimal(t.year), Padded(t.month, 2), Padded(t.day, 2);
    DecimalReadsBack(t.year);
    TwoDigits(t.month);
    TwoDigits(t.day);
    ThreeParts(s, y, m, d);
    if t.year >= 1000 {
      FourDigits(t.year);
    } else {
      FewerDigits(t.year);
    }
  }

  lemma TimeReadsBack(t: DateTime)
    requires IsDateTime(t)
    ensures var s := TimeText(t);
      && Strip(s) == s && |s| == 6
      && ReadInt(s[..2]) == Some(t.hour) && ReadInt(s[2..4]) == Some(t.minute) && ReadInt(s[4..6]) == Some(t.second)
  {
    TwoDigits(t.hour);
    TwoDigits(t.minute);
    TwoDigits(t.second);
    ThreeParts(TimeText(t), Padded(t.hour, 2), Padded(t.minute, 2), Padded(t.second, 2));
  }

  /** A written time reads back to the second, unless its year has fewer than four
      digits: `%Y` does not pad it, and the import wants eight characters. */
  lemma WhenReadsBack(t: DateTime, r: Record)
    requires IsDateTime(t)
    requires Get(r, "qso_date") == DateText(t) && Get(r, "time_on") == TimeText(t)
    ensures ParseWhen(r) == if t.year >= 1000 then Some(t.(micro := 0)) else None
  {
    DateReadsBack(t);
    TimeReadsBack(t);
  }

  // ----- an export imported again -----

  predicate NormalCall(call: string) { Upper(Strip(call)) == call }

  /** What the importer makes of an exported contact. */
  lemma ExportedRecordReads(q: Qso, station: string, reading: Reading)
    requires IsDateTime(q.when)
    ensures var e := ReadRecord(RecordOf(q, station), reading);
      && (e.Some? <==> Upper(Strip(q.call)) != "" && q.when.year >= 1000)
      && (e.Some? ==> e.value.call == Upper(Strip(q.call)) && e.value.when == q.when.(micro := 0))
  {
    FieldReadsBack(q, station, 0);
    FieldReadsBack(q, station, 1);
    FieldReadsBack(q, station, 2);
    WhenReadsBack(q.when, RecordOf(q, station));
  }

  /** The importer can read the contact's exported record. */
  predicate Readable(q: Qso) { Upper(Strip(q.call)) != "" && q.when.year >= 1000 }

  /** The exported record stops the import. */
  predicate Stops(q: Qso) { Readable(q) && InLastMinute(q.when) }

  /** The contact's key as the importer computes it. */
  function ImportedKey(q: Qso): Key { Key(Upper(Strip(q.call)), MinuteOf(q.when)) }

  /** The import of the log's export gets past the contacts up to `i`. */
  predicate Reached(log: seq<Qso>, i: nat) {
    forall j | 0 <= j <= i && j < |log| :: !Stops(log[j])
  }

  lemma ExportedEntries(log: seq<Qso>, station: string, reading: Reading) returns (read: seq<Option<Qso>>)
    requires GoodLog(log)
    ensures read == ReadRecords(Parse(ExportText(log, station)), reading)
    ensures |read| == |log| && forall q | q in read :: IsTimed(q)
    ensures forall i | 0 <= i < |log| ::
      && (read[i].Some? <==> Readable(log[i]))
      && (read[i].Some? ==> KeyOf(read[i].value) == ImportedKey(log[i]))
      && (Overflows(read[i]) <==> Stops(log[i]))
  {
    var text := ExportText(log, station);
    ParseOfExport(log, station);
    read := ReadRecords(Parse(text), reading);
    forall i | 0 <= i < |log|
      ensures read[i].Some? <==> Readable(log[i])
      ensures read[i].Some? ==> KeyOf(read[i].value) == ImportedKey(log[i])
      ensures Overflows(read[i]) <==> Stops(log[i])
    {
      assert log[i] in log;
      ExportedRecordReads(log[i], station, reading);
      if read[i].Some? {
        MinuteIdentifies(log[i].when, read[i].value.when);
      }
    }
    ReadsAreTimed(Parse(text), reading);
  }

  /** An import that covers what it reaches is exactly one that changes nothing. */
  lemma UnchangedExactlyWhenCovered(log: seq<Qso>, read: seq<Option<Qso>>)
    requires GoodLog(log) && forall q | q in read :: IsTimed(q)
    ensures Import(log, read).log == log <==> Covered(log, read, Processed(Import(log, read)))
    ensures var n := Processed(Import(log, read));
      n <= |read| && (n < |read| ==> Overflows(read[n])) && forall i | 0 <= i < n :: !Overflows(read[i])
  {
    ImportIsAccounted(log, read);
    var done := Import(log, read);
    if Covered(log, read, Processed(done)) {
      CoveredImportAddsNothing(log, read, Processed(done));
    }
  }

  /** Importing a log's own export leaves the log as it is exactly when the normalised
      key of every readable contact it reaches is in the log: that is every contact
      before the first readable one in the last minute of the calendar. */
  lemma OwnExportChangesNothing(log: seq<Qso>, station: string, reading: Reading)
    requires GoodLog(log)
    ensures ImportText(log, ExportText(log, station), reading).log == log
       <==> forall i | 0 <= i < |log| && Readable(log[i]) && Reached(log, i) :: HasKey(log, ImportedKey(log[i]))
  {
    var read := ExportedEntries(log, station, reading);
    UnchangedExactlyWhenCovered(log, read);
    var n := Processed(Import(log, read));
    forall i: nat | i < |log| ensures i < n <==> Reached(log, i) {
      ReachedIsProcessed(log, read, n, i);
    }
  }

  lemma ReachedIsProcessed(log: seq<Qso>, read: seq<Option<Qso>>, n: nat, i: nat)
    requires |read| == |log| && i < |log| && n <= |log|
    requires forall j | 0 <= j < |log| :: Overflows(read[j]) <==> Stops(log[j])
    requires (n < |read| ==> Overflows(read[n])) && forall j | 0 <= j < n :: !Overflows(read[j])
    ensures i < n <==> Reached(log, i)
  {
    if n <= i {
      assert Stops(log[n]);
    }
  }

  /** In particular it does if every call is stored in the importer's form. */
  lemma NormalisedExportChangesNothing(log: seq<Qso>, station: string, reading: Reading)
    requires GoodLog(log) && forall q | q in log :: NormalCall(q.call)
    ensures ImportText(log, ExportText(log, station), reading).log == log
  {
    forall i | 0 <= i < |log| ensures HasKey(log, ImportedKey(log[i])) {
      assert log[i] in log;
      assert KeyOf(log[i]) == ImportedKey(log[i]);
    }
    OwnExportChangesNothing(log, station, reading);
  }

  /** An unnormalised call is imported again if it is alone. */
  lemma UnnormalisedAloneIsImported(q: Qso, station: string, reading: Reading)
    requires IsDateTime(q.when) && Readable(q) && !Stops(q) && !NormalCall(q.call)
    ensures ImportText([q], ExportText([q], station), reading).log != [q]
  {
    OwnExportChangesNothing([q], station, reading);
    assert Reached([q], 0);
    assert KeyOf([q][0]) != ImportedKey([q][0]);
  }

  /** Beside its normal twin in the same minute it is not. */
  lemma NormalTwinPreventsImport(q: Qso, twin: Qso, station: string, reading: Reading)
    requires IsDateTime(q.when) && IsDateTime(twin.when) && MinuteOf(twin.when) == MinuteOf(q.when)
    requires twin.call == Upper(Strip(q.call)) && NormalCall(twin.call)
    ensures ImportText([q, twin], ExportText([q, twin], station), reading).log == [q, twin]
  {
    var log := [q, twin];
    OwnExportChangesNothing(log, station, reading);
    assert KeyOf(log[1]) == ImportedKey(log[0]) == ImportedKey(log[1]);
  }

  /** A contact as the importer stores one: normalised text within the column
      widths, a time in whole seconds that has four-digit years and a next minute. */
  predicate Canonical(q: Qso, reading: Reading) {
    && q.call != "" && NormalCall(q.call)
    && IsDateTime(q.when) && q.when.micro == 0 && q.when.year >= 1000 && !InLastMinute(q.when)
    && CanonicalFields(q, reading)
  }

  predicate FieldsRead(q: Qso, r: Record) {
    && Get(r, "call") == q.call && "mode" in r && r["mode"] == q.mode
    && Get(r, "band") == q.band
    && Get(r, "freq") == (if q.freq == None || q.freq == Some(0) then "" else FreqText(q.freq.value))
    && Get(r, "rst_sent") == q.rstSent && Get(r, "rst_rcvd") == q.rstRcvd && Get(r, "name") == q.name
    && Get(r, "qth") == q.qth && Get(r, "gridsquare") == q.gridsquare && Get(r, "country") == q.country
    && Get(r, "comment") == (if q.comment == "" then "" else Collapse(q.comment))
  }

  lemma FirstFieldsRead(q: Qso, station: string)
    requires IsDateTime(q.when)
    ensures var r := RecordOf(q, station);
      && Get(r, "call") == q.call && "mode" in r && r["mode"] == q.mode && Get(r, "band") == q.band
      && Get(r, "freq") == (if q.freq == None || q.freq == Some(0) then "" else FreqText(q.freq.value))
  {
    var slots := Slots(q, station);
    assert slots[3].name == "mode" && slots[4].name == "band" && slots[5].name == "freq";
    FieldReadsBack(q, station, 0);
    FieldReadsBack(q, station, 3);
    FieldReadsBack(q, station, 4);
    FieldReadsBack(q, station, 5);
  }

  lemma ReportsRead(q: Qso, station: string)
    requires IsDateTime(q.when)
    ensures var r := RecordOf(q, station);
      Get(r, "rst_sent") == q.rstSent && Get(r, "rst_rcvd") == q.rstRcvd && Get(r, "name") == q.name
  {
    FieldReadsBack(q, station, 6);
    FieldReadsBack(q, station, 7);
    FieldReadsBack(q, station, 8);
  }

  lemma PlacesRead(q: Qso, station: string)
    requires IsDateTime(q.when)
    ensures var r := RecordOf(q, station);
      && Get(r, "qth") == q.qth && Get(r, "gridsquare") == q.gridsquare && Get(r, "country") == q.country
      && Get(r, "comment") == (if q.comment == "" then "" else Collapse(q.comment))
  {
    FieldReadsBack(q, station, 9);
    FieldReadsBack(q, station, 10);
    FieldReadsBack(q, station, 11);
    FieldReadsBack(q, station, 13);
  }

  /** Every written field reads back with the value it was written with. */
  lemma ExportedFieldsRead(q: Qso, station: string)
    requires IsDateTime(q.when)
    ensures FieldsRead(q, RecordOf(q, station))
  {
    FirstFieldsRead(q, station);
    ReportsRead(q, station);
    PlacesRead(q, station);
  }

  lemma {:induction false} UpperLength(s: string)
    ensures |Upper(s)| == |s|
  {
    if s != "" {
      UpperLength(s[1..]);
    }
  }

  /** The fields other than call and time, as canonical contacts hold them. */
  predicate CanonicalFields(q: Qso, reading: Reading) {
    && (q.freq.Some? ==> q.freq.value != 0 && reading.freqOf(FreqText(q.freq.value)) == q.freq)
    && q.band == OrElse(Lower(q.band), reading.bandOf(q.freq))
    && q.mode != "" && Upper(q.mode) == q.mode && |q.mode| <= 12
    && |q.rstSent| <= 8 && |q.rstRcvd| <= 8 && |q.name| <= 120 && |q.qth| <= 120
    && |q.gridsquare| <= 8 && |q.country| <= 64
    && Collapse(q.comment) == q.comment
  }

  lemma ModeReadsBack(mode: string)
    ensures OrElse(Take(Upper(mode), 12), "CW") == mode <==> mode != "" && Upper(mode) == mode && |mode| <= 12
  {
    UpperLength(mode);
    CutReadsBack(Upper(mode), mode);
  }

  lemma CutReadsBack(u: string, mode: string)
    requires |u| == |mode|
    ensures OrElse(Take(u, 12), "CW") == mode <==> mode != "" && u == mode && |mode| <= 12
  {
    if |mode| <= 12 {
      assert Take(u, 12) == u;
    } else {
      assert |Take(u, 12)| == 12;
    }
  }

  lemma TakeKeeps(s: string, n: nat)
    ensures Take(s, n) == s <==> |s| <= n
  {
  }

  lemma FreqReadsBack(q: Qso, r: Record, reading: Reading)
    requires FieldsRead(q, r)
    ensures QsoOf(r, q.when, reading).freq == q.freq
       <==> (q.freq.Some? ==> q.freq.value != 0 && reading.freqOf(FreqText(q.freq.value)) == q.freq)
  {
    if q.freq.Some? {
      assert FreqText(q.freq.value) != "";
    }
  }

  lemma FieldsReadBack(q: Qso, r: Record, reading: Reading)
    requires FieldsRead(q, r)
    ensures QsoOf(r, q.when, reading) == q.(call := CallOf(r)) <==> CanonicalFields(q, reading)
  {
    FreqReadsBack(q, r, reading);
    ModeReadsBack(q.mode);
    TakeKeeps(q.rstSent, 8);
    TakeKeeps(q.rstRcvd, 8);
    TakeKeeps(q.name, 120);
    TakeKeeps(q.qth, 120);
    TakeKeeps(q.gridsquare, 8);
    TakeKeeps(q.country, 64);
    assert Collapse("") == "";
    var back := QsoOf(r, q.when, reading);
    assert back.freq == q.freq ==> (back.band == q.band <==> q.band == OrElse(Lower(q.band), reading.bandOf(q.freq)));
  }

  /** An exported contact reads back as itself, and can be imported, exactly when it is
      canonical. */
  lemma ReadsBackExactly(q: Qso, station: string, reading: Reading)
    requires IsDateTime(q.when)
    ensures ReadRecord(RecordOf(q, station), reading) == Some(q) && !InLastMinute(q.when) <==> Canonical(q, reading)
  {
    var r := RecordOf(q, station);
    ExportedRecordReads(q, station, reading);
    ExportedFieldsRead(q, station);
    FieldsReadBack(q, r, reading);
    SameTimeSameContact(q, r, reading);
  }

  lemma SameTimeSameContact(q: Qso, r: Record, reading: Reading)
    ensures var e := ReadRecord(r, reading);
      e == Some(q) <==> e.Some? && e.value.when == q.when && CallOf(r) == q.call
                        && QsoOf(r, q.when, reading) == q.(call := CallOf(r))
  {
  }

  /** If every record is added, the new log is the records. */
  lemma {:induction false} AllCreated(read: seq<Option<Qso>>)
    requires forall q | q in read :: IsTimed(q)
    ensures var done := Import([], read);
      done.counts.created <= |read|
      && (done.counts.created == |read| ==>
            |done.log| == |read| && forall i | 0 <= i < |read| :: read[i] == Some(done.log[i]))
  {
    if read != [] {
      var front := read[..|read| - 1];
      assert forall q | q in front :: q in read;
      AllCreated(front);
    }
  }

  /** Importing its export into an empty log restores a log exactly, whatever text its
      fields hold, if and only if its contacts are canonical and have distinct keys. */
  lemma ExportRestoresLog(log: seq<Qso>, station: string, reading: Reading)
    requires GoodLog(log)
    ensures ImportText([], ExportText(log, station), reading) == Imported(log, Counts(|log|, 0, 0), false)
       <==> (forall q | q in log :: Canonical(q, reading)) && FreshKeys(log, 0)
  {
    ParseOfExport(log, station);
    var read := ReadRecords(Parse(ExportText(log, station)), reading);
    ReadsAreTimed(Parse(ExportText(log, station)), reading);
    forall i | 0 <= i < |log|
      ensures read[i] == Some(log[i]) && !InLastMinute(log[i].when) <==> Canonical(log[i], reading)
    {
      assert log[i] in log;
      ReadsBackExactly(log[i], station, reading);
    }
    RestoredExactly(log, read, reading);
  }

  lemma RestoredExactly(log: seq<Qso>, read: seq<Option<Qso>>, reading: Reading)
    requires GoodLog(log) && |read| == |log| && forall q | q in read :: IsTimed(q)
    requires forall i | 0 <= i < |log| ::
      read[i] == Some(log[i]) && !InLastMinute(log[i].when) <==> Canonical(log[i], reading)
    ensures Import([], read) == Imported(log, Counts(|log|, 0, 0), false)
       <==> (forall q | q in log :: Canonical(q, reading)) && FreshKeys(log, 0)
  {
    if Import([], read) == Imported(log, Counts(|log|, 0, 0), false) {
      ImportIsAccounted([], read);
      AllCreated(read);
      forall i | 0 <= i < |log| ensures Canonical(log[i], reading) {
        assert !Overflows(read[i]);
      }
    } else if (forall q | q in log :: Canonical(q, reading)) && FreshKeys(log, 0) {
      forall i | 0 <= i < |log| ensures read[i] == Some(log[i]) && !InLastMinute(log[i].when) {
        assert log[i] in log;
      }
      FreshImport(log, read, |log|);
    }
  }

  lemma {:induction false} FreshImport(log: seq<Qso>, read: seq<Option<Qso>>, n: nat)
    requires GoodLog(log) && FreshKeys(log, 0)
    requires n <= |log| == |read|
    requires forall i | 0 <= i < |log| :: read[i] == Some(log[i]) && !InLastMinute(log[i].when)
    ensures Import([], read[..n]) == Imported(log[..n], Counts(n, 0, 0), false)
    ensures n == |log| ==> Import([], read) == Imported(log, Counts(n, 0, 0), false)
  {
    if n > 0 {
      FreshImport(log, read, n - 1);
      assert read[..n][..n - 1] == read[..n - 1] && read[..n][n - 1] == read[n - 1];
      assert log[..n] == log[..n - 1] + [log[n - 1]];
      assert log[n - 1] in log;
      ExistsIsHasKey(log[..n - 1], log[n - 1].call, log[n - 1].when);
    }
    assert n == |log| ==> read[..n] == read && log[..n] == log;
  }
}
