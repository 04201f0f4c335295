/** Exporting the logbook (apps/cw/logbook.py) and reading the export back. */
module AdifExport {
  import opened Common
  import opened PythonText
  import opened Adif
  import opened AdifRoundTrip
  import opened AdifImport

  // ----- the exporter -----

  function DateText(t: DateTime): string
    requires IsDateTime(t)
  {
    Decimal(t.year) + (Padded(t.month, 2) + Padded(t.day, 2))
  }

  function TimeText(t: DateTime): string
    requires IsDateTime(t)
  {
    Padded(t.hour, 2) + (Padded(t.minute, 2) + Padded(t.second, 2))
  }

  /** The frequency in MHz with four decimals. */
  function FreqText(freq: int): string {
    var size := if freq < 0 then -freq else freq;
    (if freq < 0 then "-" else "") + Decimal(size / 10_000) + "." + Padded(size % 10_000, 4)
  }

  /** A field the export may write. */
  datatype Slot = Slot(name: string, value: string, present: bool)

  function Slots(q: Qso, station: string): (slots: seq<Slot>)
    requires IsDateTime(q.when)
  {
    var freq := if q.freq == None || q.freq == Some(0) then "" else FreqText(q.freq.value);
    [Slot("call", q.call, true),
     Slot("qso_date", DateText(q.when), true),
     Slot("time_on", TimeText(q.when), true),
     Slot("mode", q.mode, true),
     Slot("band", q.band, q.band != ""),
     Slot("freq", freq, freq != ""),
     Slot("rst_sent", q.rstSent, q.rstSent != ""),
     Slot("rst_rcvd", q.rstRcvd, q.rstRcvd != ""),
     Slot("name", q.name, q.name != ""),
     Slot("qth", q.qth, q.qth != ""),
     Slot("gridsquare", q.gridsquare, q.gridsquare != ""),
     Slot("country", q.country, q.country != ""),
     Slot("station_callsign", station, station != ""),
     Slot("comment", if q.comment == "" then "" else Collapse(q.comment), q.comment != "")]
  }

  function Emit(slots: seq<Slot>): seq<Field> {
    if slots == [] then []
    else
      var last := slots[|slots| - 1];
      Emit(slots[..|slots| - 1]) + (if last.present then [Field(last.name, last.value)] else [])
  }

  function FieldsOf(log: seq<Qso>, station: string): (fields: seq<seq<Field>>)
    requires GoodLog(log)
    ensures |fields| == |log|
  {
    seq(|log|, i requires 0 <= i < |log| => Emit(Slots(log[i], station)))
  }

  function ExportText(log: seq<Qso>, station: string): string
    requires GoodLog(log)
  {
    LogText(FieldsOf(log, station))
  }

  method FieldsToWrite(q: Qso, station: string) returns (fields: seq<Field>)
    requires IsDateTime(q.when)
    ensures fields == Emit(Slots(q, station))
  {
    var slots := Slots(q, station);
    fields := [];
    for i := 0 to |slots|
      invariant fields == Emit(slots[..i])
    {
      assert slots[..i + 1][..i] == slots[..i];
      if slots[i].present {
        fields := fields + [Field(slots[i].name, slots[i].value)];
      }
    }
    assert slots[..|slots|] == slots;
  }

  lemma OneMoreText(records: seq<seq<Field>>, i: nat)
    requires i < |records|
    ensures RecordTexts(records[..i + 1]) == RecordTexts(records[..i]) + [RecordText(records[i])]
  {
  }

  method AdifExport(log: seq<Qso>, station: string) returns (text: string)
    requires GoodLog(log)
    ensures text == ExportText(log, station)
  {
    var lines := HeaderLines();
    ghost var all := FieldsOf(log, station);
    for i := 0 to |log|
      invariant lines == HeaderLines() + RecordTexts(all[..i])
    {
      var fields := FieldsToWrite(log[i], station);
      lines := lines + [RecordText(fields)];
      OneMoreText(all, i);
    }
    assert all[..|log|] == all;
    text := Join("\n", lines) + "\n";
  }

  // ----- what a written record reads back as -----

  function RecordOf(q: Qso, station: string): Record
    requires IsDateTime(q.when)
  {
    Collect(map[], Emit(Slots(q, station)))
  }

  lemma {:induction false} CollectConcat(m: Record, a: seq<Field>, b: seq<Field>)
    ensures Collect(m, a + b) == Collect(Collect(m, a), b)
    decreases |a|
  {
    if a == [] {
      assert a + b == b;
    } else {
      assert (a + b)[1..] == a[1..] + b;
      CollectConcat(m[a[0].name := a[0].value], a[1..], b);
    }
  }

  lemma CollectLast(m: Record, fields: seq<Field>, f: Field)
    ensures Collect(m, fields + [f]) == Collect(m, fields)[f.name := f.value]
  {
    CollectConcat(m, fields, [f]);
    assert [f][1..] == [];
  }

  lemma EmitLast(slots: seq<Slot>)
    requires slots != []
    ensures var front, last := slots[..|slots| - 1], slots[|slots| - 1];
      Collect(map[], Emit(slots)) == (if last.present then Collect(map[], Emit(front))[last.name := last.value]
                                      else Collect(map[], Emit(front)))
  {
    var front, last := slots[..|slots| - 1], slots[|slots| - 1];
    if last.present {
      CollectLast(map[], Emit(front), Field(last.name, last.value));
    } else {
      assert Emit(slots) == Emit(front);
    }
  }

  lemma {:induction false} NeverWritten(slots: seq<Slot>, name: string)
    requires forall i | 0 <= i < |slots| :: slots[i].name != name
    ensures name !in Collect(map[], Emit(slots))
  {
    if slots != [] {
      NeverWritten(slots[..|slots| - 1], name);
      EmitLast(slots);
    }
  }

  /** A field keeps the value it was written with, and reads as empty if it was not. */
  lemma {:induction false} SlotReadsBack(slots: seq<Slot>, k: nat)
    requires k < |slots| && (!slots[k].present ==> slots[k].value == "")
    requires forall i | 0 <= i < |slots| && i != k :: slots[i].name != slots[k].name
    ensures Get(Collect(map[], Emit(slots)), slots[k].name) == slots[k].value
    ensures slots[k].present ==> slots[k].name in Collect(map[], Emit(slots))
  {
    EmitLast(slots);
    if k == |slots| - 1 {
      NeverWritten(slots[..k], slots[k].name);
    } else {
      SlotReadsBack(slots[..|slots| - 1], k);
    }
  }
}
