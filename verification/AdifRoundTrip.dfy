/** Parsing a written log gives back exactly the written records, whatever the
    values contain. */
module AdifRoundTrip {
  import opened Common
  import opened PythonText
  import opened Adif

  // ----- what the patterns match in written text -----

  predicate InClass(c: char, word: bool) {
    if word then IsWord(c) else IsDigit(c)
  }

  lemma {:induction false} RunStops(w: string, word: bool, rest: string)
    requires forall c | c in w :: InClass(c, word)
    requires rest != "" && !InClass(rest[0], word)
    ensures RunLength(w + rest, word) == |w|
  {
    if w == "" {
      assert w + rest == rest;
    } else {
      assert w[0] in w;
      assert (w + rest)[1..] == w[1..] + rest;
      RunStops(w[1..], word, rest);
    }
  }

  /** The tag of a written field, up to and including its closing bracket. */
  function TagText(f: Field): string {
    "<" + f.name + ":" + Decimal(|f.value|) + ">"
  }

  function TagOf(f: Field, at: nat): Tag {
    Tag(at, at + |TagText(f)|, f.name, |f.value|)
  }

  lemma Slices(a: string, b: string)
    ensures (a + b)[..|a|] == a && (a + b)[|a|..] == b
  {
  }

  lemma DigitsAreInClass(d: string)
    requires AllDigits(d)
    ensures forall c | c in d :: InClass(c, false)
  {
    forall c | c in d ensures InClass(c, false) {
      var i :| 0 <= i < |d| && d[i] == c;
    }
  }

  lemma MatchLengthParts(name: string, s: string, d: string, rest: string, at: nat, end: nat, n: nat)
    requires d != "" && AllDigits(d) && n == Value(d) && end == at + |d| + 2
    requires s != "" && s[0] == ':' && s[1..] == d + rest
    requires rest != "" && rest[0] == '>'
    ensures MatchLength(name, s, at) == Some(Tag(0, end, name, n))
  {
    DigitsAreInClass(d);
    RunStops(d, false, rest);
    Slices(d, rest);
    assert MatchLength(name, s, at) == MatchClose(name, Value(d), rest, at + 1 + |d|);
  }

  lemma MatchNameParts(s: string, name: string, rest: string, at: nat, t: Option<Tag>)
    requires s != "" && s[0] == '<' && s[1..] == name + rest && at == 1 + |name|
    requires WritableName(name) && rest != "" && rest[0] == ':' && MatchLength(name, rest, at) == t
    ensures MatchTag(s) == t
  {
    RunStops(name, true, rest);
    Slices(name, rest);
  }

  lemma TagShape(f: Field, tail: string) returns (rest: string, close: string)
    ensures rest != "" && rest[0] == ':' && rest[1..] == Decimal(|f.value|) + close
    ensures close != "" && close[0] == '>'
    ensures (TagText(f) + tail)[0] == '<' && (TagText(f) + tail)[1..] == f.name + rest
  {
    close := ">" + tail;
    rest := ":" + (Decimal(|f.value|) + close);
  }

  lemma TagLength(f: Field)
    ensures |TagText(f)| == |f.name| + |Decimal(|f.value|)| + 3
  {
  }

  lemma MatchWrittenTag(f: Field, tail: string)
    requires WritableName(f.name)
    ensures MatchTag(TagText(f) + tail) == Some(TagOf(f, 0))
  {
    var d, at := Decimal(|f.value|), 1 + |f.name|;
    DecimalReadsBack(|f.value|);
    TagLength(f);
    var rest, close := TagShape(f, tail);
    MatchLengthParts(f.name, rest, d, close, at, |TagText(f)|, |f.value|);
    MatchNameParts(TagText(f) + tail, f.name, rest, at, Some(TagOf(f, 0)));
  }

  /** Where a tag matches, no end-of-record marker does. */
  lemma TagIsNoMarker(s: string)
    requires MatchTag(s).Some?
    ensures !MarkerHere(s, EOR)
  {
    if MarkerHere(s, EOR) {
      MarkerChars(s);
      RunIsThree(s[1..]);
      assert false;
    }
  }

  lemma MarkerChars(s: string)
    requires MarkerHere(s, EOR)
    ensures 5 <= |s| && s[4] == '>'
    ensures IsWord(s[1]) && IsWord(s[2]) && IsWord(s[3])
  {
    assert MarkerHere(s[1..], EOR[1..]);
    assert MarkerHere(s[1..][1..], EOR[1..][1..]);
    assert MarkerHere(s[1..][1..][1..], EOR[1..][1..][1..]);
    assert MarkerHere(s[1..][1..][1..][1..], EOR[1..][1..][1..][1..]);
  }

  lemma RunIsThree(s: string)
    requires 4 <= |s| && s[3] == '>' && IsWord(s[0]) && IsWord(s[1]) && IsWord(s[2])
    ensures RunLength(s, true) == 3 && s[3..][0] == '>'
  {
    assert s == s[..3] + s[3..];
    RunStops(s[..3], true, s[3..]);
  }

  predicate Plain(s: string) {
    forall i | 0 <= i < |s| :: s[i] != '<'
  }

  function Shift(t: Option<Tag>, n: nat): Option<Tag> {
    if t.None? then None else Some(t.value.(start := t.value.start + n, end := t.value.end + n))
  }

  lemma {:induction false} PlainSkipsTag(sep: string, rest: string)
    requires Plain(sep)
    ensures FirstTag(sep + rest) == Shift(FirstTag(rest), |sep|)
  {
    if sep == "" {
      assert sep + rest == rest;
    } else {
      assert (sep + rest)[0] == sep[0] && (sep + rest)[1..] == sep[1..] + rest;
      PlainSkipsTag(sep[1..], rest);
    }
  }

  function ShiftNat(i: Option<nat>, n: nat): Option<nat> {
    if i.None? then None else Some(i.value + n)
  }

  lemma {:induction false} PlainSkipsMarker(sep: string, rest: string, marker: string)
    requires Plain(sep) && marker != "" && marker[0] == '<'
    ensures FirstMarker(sep + rest, marker) == ShiftNat(FirstMarker(rest, marker), |sep|)
  {
    if sep == "" {
      assert sep + rest == rest;
    } else {
      assert (sep + rest)[0] == sep[0] && (sep + rest)[1..] == sep[1..] + rest;
      PlainSkipsMarker(sep[1..], rest, marker);
    }
  }

  /** Before a written field the scanner takes the field, even if its value holds
      an end-of-record marker. */
  lemma FieldIsNext(sep: string, f: Field, tail: string)
    requires Plain(sep) && WritableName(f.name)
    ensures NextToken(sep + (TagText(f) + tail)) == FieldTag(TagOf(f, |sep|))
  {
    var s := TagText(f) + tail;
    MatchWrittenTag(f, tail);
    assert s != "";
    TagIsNoMarker(s);
    PlainSkipsTag(sep, s);
    PlainSkipsMarker(sep, s, EOR);
  }

  lemma MarkerIsNoTag(s: string, tail: string)
    requires s == "<EOR>" + tail
    ensures MatchTag(s).None?
  {
    assert s[1..] == "EOR" + (">" + tail);
    RunStops("EOR", true, ">" + tail);
    assert s[1 + 3..] == ">" + tail;
  }

  lemma MarkerIsNext(tail: string)
    ensures NextToken(" <EOR>" + tail) == RecordEnd(6)
  {
    var s := "<EOR>" + tail;
    assert " <EOR>" + tail == " " + s;
    PlainSkipsTag(" ", s);
    PlainSkipsMarker(" ", s, EOR);
    MarkerIsNoTag(s, tail);
    MarkerMatches(s);
    assert FirstMarker(s, EOR) == Some(0);
    assert FirstTag(s).Some? ==> 1 <= FirstTag(s).value.start;
  }

  lemma MarkerMatches(s: string)
    requires 5 <= |s| && s[..5] == "<EOR>"
    ensures MarkerHere(s, EOR)
  {
    var t := s[..5];
    assert s[0] == t[0] && s[1] == t[1] && s[2] == t[2] && s[3] == t[3] && s[4] == t[4];
    assert MarkerHere(s[1..][1..][1..][1..][1..], EOR[1..][1..][1..][1..][1..]);
    assert MarkerHere(s[1..][1..][1..][1..], EOR[1..][1..][1..][1..]);
    assert MarkerHere(s[1..][1..][1..], EOR[1..][1..][1..]);
    assert MarkerHere(s[1..][1..], EOR[1..][1..]);
    assert MarkerHere(s[1..], EOR[1..]);
  }

  // ----- one record -----

  lemma {:induction false} LowerOfLower(s: string)
    requires forall i | 0 <= i < |s| :: !IsUpper(s[i])
    ensures Lower(s) == s
  {
    if s != "" {
      LowerOfLower(s[1..]);
    }
  }

  lemma StepPastField(sep: string, f: Field, tail: string, current: Record)
    requires Plain(sep) && WritableName(f.name)
    ensures ParseRest(sep + (FieldText(f) + tail), current) == ParseRest(tail, current[f.name := f.value])
  {
    var s := sep + (FieldText(f) + tail);
    assert s == sep + (TagText(f) + (f.value + tail));
    FieldIsNext(sep, f, f.value + tail);
    var tag := TagOf(f, |sep|);
    assert s[tag.end..] == f.value + tail;
    assert Drop(f.value + tail, |f.value|) == tail && Take(f.value + tail, |f.value|) == f.value;
    LowerOfLower(f.name);
    ParseAtField(s, current, tag, tail, f.value);
  }

  lemma StepPastMarker(tail: string, current: Record)
    ensures ParseRest(" <EOR>" + tail, current) == Flush(current) + ParseRest(tail, map[])
  {
    MarkerIsNext(tail);
    assert (" <EOR>" + tail)[6..] == tail;
    ParseAtMarker(" <EOR>" + tail, current, 6, tail);
  }

  lemma FieldTextsCons(fields: seq<Field>)
    requires fields != []
    ensures FieldTexts(fields) == [FieldText(fields[0])] + FieldTexts(fields[1..])
  {
  }

  lemma {:induction false} ParseFields(sep: string, fields: seq<Field>, tail: string, current: Record)
    requires Plain(sep) && fields != [] && Writable(fields)
    ensures ParseRest(sep + (RecordText(fields) + tail), current)
         == Flush(Collect(current, fields)) + ParseRest(tail, map[])
    decreases |fields|
  {
    var f, rest := fields[0], fields[1..];
    var texts := FieldTexts(fields);
    FieldTextsCons(fields);
    var next := current[f.name := f.value];
    if rest == [] {
      assert texts == [FieldText(f)];
      assert sep + (RecordText(fields) + tail) == sep + (FieldText(f) + (" <EOR>" + tail));
      StepPastField(sep, f, " <EOR>" + tail, current);
      StepPastMarker(tail, next);
    } else {
      assert texts[1..] == FieldTexts(rest);
      assert Join(" ", texts) == FieldText(f) + " " + Join(" ", FieldTexts(rest));
      assert sep + (RecordText(fields) + tail) == sep + (FieldText(f) + (" " + (RecordText(rest) + tail)));
      StepPastField(sep, f, " " + (RecordText(rest) + tail), current);
      ParseFields(" ", rest, tail, next);
    }
  }

  lemma {:induction false} CollectIsNotEmpty(current: Record, fields: seq<Field>)
    requires fields != [] || current != map[]
    ensures Collect(current, fields) != map[]
    decreases |fields|
  {
    if fields != [] {
      assert fields[0].name in current[fields[0].name := fields[0].value];
      CollectIsNotEmpty(current[fields[0].name := fields[0].value], fields[1..]);
    }
  }

  // ----- the whole log -----

  function RecordTexts(records: seq<seq<Field>>): seq<string> {
    seq(|records|, i requires 0 <= i < |records| => RecordText(records[i]))
  }

  /** Everything after the first part of a join. */
  function JoinTail(sep: string, parts: seq<string>): string {
    if parts == [] then "" else sep + parts[0] + JoinTail(sep, parts[1..])
  }

  lemma {:induction false} JoinIsHeadAndTail(sep: string, parts: seq<string>)
    requires parts != []
    ensures Join(sep, parts) == parts[0] + JoinTail(sep, parts[1..])
    decreases |parts|
  {
    if |parts| == 1 {
      assert parts[1..] == [];
    } else {
      JoinIsHeadAndTail(sep, parts[1..]);
      Regroup(parts[0], sep, parts[1], JoinTail(sep, parts[1..][1..]));
    }
  }

  lemma Regroup(a: string, b: string, c: string, d: string)
    ensures a + b + (c + d) == a + (b + c + d)
  {
  }

  function Expected(records: seq<seq<Field>>): seq<Record> {
    seq(|records|, i requires 0 <= i < |records| => Collect(map[], records[i]))
  }

  function Lines(records: seq<seq<Field>>): string {
    JoinTail("\n", RecordTexts(records)) + "\n"
  }

  lemma LinesCons(sep: string, records: seq<seq<Field>>)
    requires records != []
    ensures sep + Lines(records) == (sep + "\n") + (RecordText(records[0]) + Lines(records[1..]))
  {
    var texts := RecordTexts(records);
    assert texts[1..] == RecordTexts(records[1..]);
  }

  lemma ExpectedCons(records: seq<seq<Field>>)
    requires records != []
    ensures Expected(records) == [Collect(map[], records[0])] + Expected(records[1..])
  {
  }

  lemma ParseOneRecord(sep: string, r: seq<Field>, tail: string)
    requires Plain(sep) && r != [] && Writable(r)
    ensures ParseRest(sep + (RecordText(r) + tail), map[]) == [Collect(map[], r)] + ParseRest(tail, map[])
  {
    ParseFields(sep, r, tail, map[]);
    CollectIsNotEmpty(map[], r);
  }

  lemma {:induction false} ParseLines(sep: string, records: seq<seq<Field>>)
    requires Plain(sep) && forall r | r in records :: r != [] && Writable(r)
    ensures ParseRest(sep + Lines(records), map[]) == Expected(records)
    decreases |records|
  {
    if records == [] {
      NothingLeft(sep + "\n");
      assert sep + Lines(records) == sep + "\n";
    } else {
      assert records[0] in records;
      LinesCons(sep, records);
      ParseOneRecord(sep + "\n", records[0], Lines(records[1..]));
      ParseLines("", records[1..]);
      assert "" + Lines(records[1..]) == Lines(records[1..]);
      ExpectedCons(records);
    }
  }

  lemma NothingLeft(s: string)
    requires Plain(s)
    ensures ParseRest(s, map[]) == []
  {
    assert s + "" == s;
    PlainSkipsTag(s, "");
    PlainSkipsMarker(s, "", EOR);
  }

  lemma PlainConcat(a: string, b: string)
    requires Plain(a) && Plain(b)
    ensures Plain(a + b)
  {
  }

  /** What stands between a field's opening bracket and the end of its value. */
  lemma InnerIsPlain(name: string, value: string) returns (inner: string)
    requires name != "" && Plain(name) && Plain(value)
    ensures FieldText(Field(name, value)) == "<" + inner && Plain(inner)
    ensures inner != "" && inner[0] == name[0]
  {
    var d := Decimal(|value|);
    DecimalReadsBack(|value|);
    assert Plain(d);
    PlainConcat(name, ":");
    PlainConcat(name + ":", d);
    PlainConcat(name + ":" + d, ">");
    PlainConcat(name + ":" + d + ">", value);
    inner := name + ":" + d + ">" + value;
  }

  lemma SkipBracket(s: string)
    requires s != "" && LowerChar(s[0]) != 'e'
    ensures FirstMarker("<" + s, EOH) == ShiftNat(FirstMarker(s, EOH), 1)
  {
    assert ("<" + s)[1..] == s;
    assert !MarkerHere(s, EOH[1..]);
  }

  lemma SkipTagged(inner: string, rest: string)
    requires inner != "" && LowerChar(inner[0]) != 'e' && Plain(inner)
    ensures FirstMarker("\n" + ("<" + inner) + rest, EOH) == ShiftNat(FirstMarker(rest, EOH), 2 + |inner|)
  {
    PlainSkipsMarker(inner, rest, EOH);
    SkipBracket(inner + rest);
    PlainSkipsMarker("\n", "<" + (inner + rest), EOH);
    assert "\n" + ("<" + inner) + rest == "\n" + ("<" + (inner + rest));
  }

  /** A bracket that does not open a header end is stepped over, and so is the
      plain text after it. */
  lemma SkipHeaderField(name: string, value: string, rest: string)
    requires name != "" && Plain(name) && LowerChar(name[0]) != 'e' && Plain(value)
    ensures FirstMarker("\n" + FieldText(Field(name, value)) + rest, EOH)
         == ShiftNat(FirstMarker(rest, EOH), 1 + |FieldText(Field(name, value))|)
  {
    var inner := InnerIsPlain(name, value);
    SkipTagged(inner, rest);
  }

  /** The second and third line of the header. */
  function VersionText(): string { FieldText(Field("adif_ver", "3.1.4")) }

  function ProgramText(): string { FieldText(Field("programid", "CW Station")) }

  /** The written header, followed by `rest`, line by line from its end. */
  lemma HeaderShape(title: string, rest: string)
    ensures title + JoinTail("\n", HeaderLines()[1..4]) + rest
         == title + ("\n" + VersionText() + ("\n" + ProgramText() + ("\n" + ("<EOH>" + rest))))
  {
    var h := HeaderLines()[1..4];
    assert h == [VersionText(), ProgramText(), "<EOH>"];
    assert h[1..] == [ProgramText(), "<EOH>"] && h[1..][1..] == ["<EOH>"] && h[1..][1..][1..] == [];
  }

  /** The header end is found behind the two fields. */
  lemma HeaderEnd(rest: string)
    ensures FirstMarker("\n" + VersionText() + ("\n" + ProgramText() + ("\n" + ("<EOH>" + rest))), EOH)
         == Some(3 + |VersionText()| + |ProgramText()|)
  {
    var end := "<EOH>" + rest;
    EohMatches(end);
    PlainSkipsMarker("\n", end, EOH);
    SkipHeaderField("programid", "CW Station", "\n" + end);
    SkipHeaderField("adif_ver", "3.1.4", "\n" + ProgramText() + ("\n" + end));
  }

  lemma SameHeader(title: string, v: string, g: string, rest: string) returns (front: string)
    ensures title + ("\n" + v + ("\n" + g + ("\n" + ("<EOH>" + rest)))) == front + rest
    ensures |front| == |title| + 3 + |v| + |g| + |EOH|
  {
    front := title + ("\n" + v + ("\n" + g + ("\n" + "<EOH>")));
  }

  lemma BodyAfter(title: string, first: string, front: string, rest: string, at: nat)
    requires Plain(title) && FirstMarker(first, EOH) == Some(at)
    requires title + first == front + rest && |front| == |title| + at + |EOH|
    ensures Body(title + first) == rest
  {
    PlainSkipsMarker(title, first, EOH);
  }

  lemma HeaderParts(title: string, rest: string) returns (first: string, front: string, at: nat)
    ensures title + JoinTail("\n", HeaderLines()[1..4]) + rest == title + first
    ensures FirstMarker(first, EOH) == Some(at)
    ensures title + first == front + rest && |front| == |title| + at + |EOH|
  {
    HeaderShape(title, rest);
    HeaderEnd(rest);
    var v, g := VersionText(), ProgramText();
    first := "\n" + v + ("\n" + g + ("\n" + ("<EOH>" + rest)));
    front := SameHeader(title, v, g, rest);
    at := 3 + |v| + |g|;
  }

  lemma HeaderIsSkipped(title: string, rest: string)
    requires Plain(title)
    ensures Body(title + JoinTail("\n", HeaderLines()[1..4]) + rest) == rest
  {
    var first, front, at := HeaderParts(title, rest);
    BodyAfter(title, first, front, rest, at);
  }

  lemma EohMatches(s: string)
    requires 5 <= |s| && s[..5] == "<EOH>"
    ensures FirstMarker(s, EOH) == Some(0)
  {
    var t := s[..5];
    assert s[0] == t[0] && s[1] == t[1] && s[2] == t[2] && s[3] == t[3] && s[4] == t[4];
    assert MarkerHere(s[1..][1..][1..][1..][1..], EOH[1..][1..][1..][1..][1..]);
    assert MarkerHere(s[1..][1..][1..][1..], EOH[1..][1..][1..][1..]);
    assert MarkerHere(s[1..][1..][1..], EOH[1..][1..][1..]);
    assert MarkerHere(s[1..][1..], EOH[1..][1..]);
    assert MarkerHere(s[1..], EOH[1..]);
  }

  lemma {:induction false} JoinTailConcat(sep: string, a: seq<string>, b: seq<string>)
    ensures JoinTail(sep, a + b) == JoinTail(sep, a) + JoinTail(sep, b)
    decreases |a|
  {
    if a == [] {
      assert a + b == b;
    } else {
      assert (a + b)[1..] == a[1..] + b;
      JoinTailConcat(sep, a[1..], b);
    }
  }

  lemma JoinAfterHeader(h: seq<string>, texts: seq<string>)
    requires |h| == 5 && h[4] == ""
    ensures Join("\n", h + texts) == h[0] + JoinTail("\n", h[1..4]) + ("\n" + JoinTail("\n", texts))
  {
    JoinIsHeadAndTail("\n", h + texts);
    assert (h + texts)[1..] == h[1..4] + ([""] + texts);
    JoinTailConcat("\n", h[1..4], [""] + texts);
    assert ([""] + texts)[1..] == texts;
  }

  lemma LogShape(records: seq<seq<Field>>) returns (title: string)
    ensures Plain(title)
    ensures LogText(records) == title + JoinTail("\n", HeaderLines()[1..4]) + ("\n" + Lines(records))
  {
    title := HeaderLines()[0];
    JoinAfterHeader(HeaderLines(), RecordTexts(records));
  }

  /** Parsing a written log yields exactly one record per written record, with
      exactly its fields and values. */
  lemma ParseOfLogText(records: seq<seq<Field>>)
    requires forall r | r in records :: r != [] && Writable(r)
    ensures Parse(LogText(records)) == Expected(records)
  {
    var title := LogShape(records);
    HeaderIsSkipped(title, "\n" + Lines(records));
    ParseLines("\n", records);
  }
}
