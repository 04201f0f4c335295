/** The ADI format of ADIF 3.1.4: length-prefixed fields `<name:length>value`,
    records ended by `<eor>`, a header ended by `<eoh>` (apps/cw/logbook.py). */
module Adif {
  import opened Common
  import opened PythonText

  type Record = map<string, string>

  const EOR := "<eor>"
  const EOH := "<eoh>"

  // ----- the regular expressions -----

  function RunLength(s: string, word: bool): (n: nat)
    ensures n <= |s|
  {
    if s != "" && (if word then IsWord(s[0]) else IsDigit(s[0])) then 1 + RunLength(s[1..], word) else 0
  }

  function IndexOf(s: string, c: char): Option<nat> {
    if s == "" then None
    else if s[0] == c then Some(0)
    else
      var rest := IndexOf(s[1..], c);
      if rest.None? then None else Some(1 + rest.value)
  }

  lemma {:induction false} RunIsDigits(s: string)
    ensures AllDigits(s[..RunLength(s, false)])
  {
    if s != "" && IsDigit(s[0]) {
      RunIsDigits(s[1..]);
      assert s[..RunLength(s, false)] == [s[0]] + s[1..][..RunLength(s[1..], false)];
    }
  }

  lemma {:induction false} IndexInRange(s: string, c: char)
    ensures IndexOf(s, c).Some? ==> IndexOf(s, c).value < |s|
  {
    if s != "" {
      IndexInRange(s[1..], c);
    }
  }

  /** A tag found at offset `start`; `end` is just past its closing bracket. */
  datatype Tag = Tag(start: nat, end: nat, name: string, length: nat)

  /** The end of a tag, `(?::[^>]*)?>`, after `at` characters of it. */
  function MatchClose(name: string, length: nat, s: string, at: nat): (t: Option<Tag>)
    ensures t.Some? ==> t.value.start == 0 && at < t.value.end <= at + |s|
  {
    if s == "" then None
    else if s[0] == '>' then Some(Tag(0, at + 1, name, length))
    else if s[0] != ':' then None
    else
      var close := IndexOf(s, '>');
      IndexInRange(s, '>');
      if close.None? then None else Some(Tag(0, at + close.value + 1, name, length))
  }

  /** The part `:(\d+)` of a tag and what follows it. */
  function MatchLength(name: string, s: string, at: nat): (t: Option<Tag>)
    ensures t.Some? ==> t.value.start == 0 && at + 2 < t.value.end <= at + |s|
  {
    if s == "" || s[0] != ':' then None
    else
      var d := RunLength(s[1..], false);
      RunIsDigits(s[1..]);
      if d == 0 then None else MatchClose(name, Value(s[1..][..d]), s[1..][d..], at + 1 + d)
  }

  /** The pattern `<(\w+):(\d+)(?::[^>]*)?>` matched at the start of `s`. */
  function MatchTag(s: string): (t: Option<Tag>)
    ensures t.Some? ==> t.value.start == 0 && 5 <= t.value.end <= |s|
  {
    if s == "" || s[0] != '<' then None
    else
      var n := RunLength(s[1..], true);
      if n == 0 then None else MatchLength(s[1..][..n], s[1..][n..], 1 + n)
  }

  /** `pattern.search` from the start of the remaining text: the leftmost tag. */
  function FirstTag(s: string): (t: Option<Tag>)
    ensures t.Some? ==> t.value.start < t.value.end <= |s|
  {
    if s == "" then None
    else if MatchTag(s).Some? then MatchTag(s)
    else
      var later := FirstTag(s[1..]);
      if later.None? then None
      else Some(later.value.(start := later.value.start + 1, end := later.value.end + 1))
  }

  predicate MarkerHere(s: string, marker: string)
    ensures MarkerHere(s, marker) ==> |marker| <= |s|
  {
    marker == "" || (s != "" && LowerChar(s[0]) == marker[0] && MarkerHere(s[1..], marker[1..]))
  }

  /** The leftmost `<eor>` or `<eoh>`, whatever its case. */
  function FirstMarker(s: string, marker: string): (i: Option<nat>)
    requires marker != ""
    ensures i.Some? ==> i.value + |marker| <= |s|
  {
    if s == "" then None
    else if MarkerHere(s, marker) then Some(0)
    else
      var later := FirstMarker(s[1..], marker);
      if later.None? then None else Some(later.value + 1)
  }

  // ----- the parser -----

  /** A record is kept only if it holds a field. */
  function Flush(current: Record): seq<Record> {
    if current == map[] then [] else [current]
  }

  /** What the scanner meets first in the remaining text. */
  datatype Token = EndOfText | RecordEnd(end: nat) | FieldTag(tag: Tag)

  function NextToken(rest: string): (t: Token)
    ensures t.RecordEnd? ==> |EOR| <= t.end <= |rest|
    ensures t.FieldTag? ==> t.tag.start < t.tag.end <= |rest|
  {
    var eor, tag := FirstMarker(rest, EOR), FirstTag(rest);
    if tag.None? && eor.None? then EndOfText
    else if tag.None? || (eor.Some? && eor.value < tag.value.start) then RecordEnd(eor.value + |EOR|)
    else FieldTag(tag.value)
  }

  /** The parse of the text that remains, with `current` already collected. */
  function ParseRest(rest: string, current: Record): seq<Record>
    decreases |rest|
  {
    match NextToken(rest)
    case EndOfText => Flush(current)
    case RecordEnd(end) => Flush(current) + ParseRest(rest[end..], map[])
    case FieldTag(tag) =>
      var after := rest[tag.end..];
      ParseRest(Drop(after, tag.length), current[Lower(tag.name) := Take(after, tag.length)])
  }

  function Body(text: string): string {
    var eoh := FirstMarker(text, EOH);
    if eoh.Some? then text[eoh.value + |EOH|..] else text
  }

  function Parse(text: string): seq<Record> {
    ParseRest(Body(text), map[])
  }

  method ParseAdif(text: string) returns (records: seq<Record>)
    ensures records == Parse(text)
  {
    var body := Body(text);
    records := ScanBody(body);
  }

  /** The scanning loop over a cursor; its distance to the end of the text is a
      strict termination measure on any input. */
  method ScanBody(body: string) returns (records: seq<Record>)
    ensures records == ParseRest(body, map[])
  {
    records := [];
    var current: Record := map[];
    var pos: nat := 0;
    var more := true;
    ghost var whole := ParseRest(body, map[]);
    ghost var toCome := whole;
    assert Drop(body, 0) == body;
    while more
      invariant records + toCome == whole
      invariant more ==> toCome == ParseRest(Drop(body, pos), current)
      invariant !more ==> toCome == []
      decreases more, |body| - pos
    {
      var done;
      ghost var next;
      done, current, pos, more, next := ScanToken(body, pos, current, toCome);
      assert records + (done + next) == (records + done) + next;
      records, toCome := records + done, next;
    }
  }

  /** One pass of the loop: search both patterns from the cursor, take whichever
      starts first, and step past it. */
  method ScanToken(body: string, pos: nat, current: Record, ghost toCome: seq<Record>)
    returns (done: seq<Record>, collected: Record, next: nat, more: bool, ghost left: seq<Record>)
    requires toCome == ParseRest(Drop(body, pos), current)
    ensures more ==> pos < next && pos < |body|
    ensures toCome == done + (if more then ParseRest(Drop(body, next), collected) else [])
    ensures left == if more then ParseRest(Drop(body, next), collected) else []
  {
    var token := NextToken(Drop(body, pos));
    TokenInside(body, pos, token);
    left := [];
    match token
    case EndOfText =>
      done, collected, next, more := Flush(current), map[], pos, false;
    case RecordEnd(end) =>
      done, collected, next, more := Flush(current), map[], pos + end, true;
      left := StepOverMarker(body, pos, current, token, next);
    case FieldTag(tag) =>
      done, more := [], true;
      collected, next, left := TakeField(body, pos, current, token, toCome);
  }

  /** Store the field's value, as many characters as there are, and step past it. */
  method TakeField(body: string, pos: nat, current: Record, token: Token, ghost toCome: seq<Record>)
    returns (collected: Record, next: nat, ghost left: seq<Record>)
    requires token == NextToken(Drop(body, pos)) && token.FieldTag?
    requires toCome == ParseRest(Drop(body, pos), current)
    ensures pos < next && left == toCome == ParseRest(Drop(body, next), collected)
  {
    var start := pos + token.tag.end;
    next := start + token.tag.length;
    collected := current[Lower(token.tag.name) := Take(Drop(body, start), token.tag.length)];
    left := StepOverField(body, pos, current, token, next, collected);
  }

  lemma ParseAtField(rest: string, current: Record, tag: Tag, next: string, value: string)
    requires NextToken(rest) == FieldTag(tag)
    requires next == Drop(rest[tag.end..], tag.length) && value == Take(rest[tag.end..], tag.length)
    ensures ParseRest(rest, current) == ParseRest(next, current[Lower(tag.name) := value])
  {
  }

  lemma ParseAtMarker(rest: string, current: Record, end: nat, next: string)
    requires NextToken(rest) == RecordEnd(end) && next == rest[end..]
    ensures ParseRest(rest, current) == Flush(current) + ParseRest(next, map[])
  {
  }

  lemma TokenInside(body: string, pos: nat, token: Token)
    requires token == NextToken(Drop(body, pos))
    ensures token.RecordEnd? ==> pos < pos + token.end <= |body|
    ensures token.FieldTag? ==> pos < pos + token.tag.end <= |body| && pos < pos + token.tag.end + token.tag.length
  {
    assert |Drop(body, pos)| == if pos <= |body| then |body| - pos else 0;
  }

  lemma StepOverMarker(body: string, pos: nat, current: Record, token: Token, next: nat) returns (after: seq<Record>)
    requires token == NextToken(Drop(body, pos)) && token.RecordEnd? && next == pos + token.end
    ensures after == ParseRest(Drop(body, next), map[])
    ensures ParseRest(Drop(body, pos), current) == Flush(current) + after
  {
    TokenInside(body, pos, token);
    DropMore(body, pos, token.end);
    ParseAtMarker(Drop(body, pos), current, token.end, Drop(body, next));
    after := ParseRest(Drop(body, next), map[]);
  }

  lemma StepOverField(body: string, pos: nat, current: Record, token: Token, next: nat, collected: Record) returns (after: seq<Record>)
    requires token == NextToken(Drop(body, pos)) && token.FieldTag? && next == pos + token.tag.end + token.tag.length
    requires collected == current[Lower(token.tag.name) := Take(Drop(body, pos + token.tag.end), token.tag.length)]
    ensures after == ParseRest(Drop(body, next), collected)
    ensures ParseRest(Drop(body, pos), current) == after
  {
    var tag := token.tag;
    var value := Take(Drop(body, pos + tag.end), tag.length);
    TokenInside(body, pos, token);
    FieldSlices(body, pos, tag.end, tag.length);
    ParseAtField(Drop(body, pos), current, tag, Drop(body, next), value);
    after := ParseRest(Drop(body, next), collected);
  }

  lemma FieldSlices(body: string, pos: nat, end: nat, length: nat)
    requires pos + end <= |body|
    ensures end <= |Drop(body, pos)| && Drop(body, pos)[end..] == Drop(body, pos + end)
    ensures Drop(Drop(body, pos + end), length) == Drop(body, pos + end + length)
  {
    DropMore(body, pos, end);
    DropMore(body, pos + end, length);
  }

  lemma DropMore(body: string, pos: nat, n: nat)
    ensures Drop(body, pos + n) == Drop(Drop(body, pos), n)
  {
  }

  // ----- the writer -----

  datatype Field = Field(name: string, value: string)

  function FieldText(f: Field): string {
    "<" + f.name + ":" + Decimal(|f.value|) + ">" + f.value
  }

  function FieldTexts(fields: seq<Field>): seq<string> {
    seq(|fields|, i requires 0 <= i < |fields| => FieldText(fields[i]))
  }

  function RecordText(fields: seq<Field>): string {
    Join(" ", FieldTexts(fields)) + " <EOR>"
  }

  function HeaderLines(): seq<string> {
    ["CW Station log export",
     FieldText(Field("adif_ver", "3.1.4")),
     FieldText(Field("programid", "CW Station")),
     "<EOH>",
     ""]
  }

  /** Header and record lines, joined by newlines and ended by one. */
  function LogText(records: seq<seq<Field>>): string {
    Join("\n", HeaderLines() + seq(|records|, i requires 0 <= i < |records| => RecordText(records[i]))) + "\n"
  }

  /** What a record of written fields should read back as. */
  function Collect(current: Record, fields: seq<Field>): Record
    decreases |fields|
  {
    if fields == [] then current else Collect(current[fields[0].name := fields[0].value], fields[1..])
  }

  predicate WritableName(name: string) {
    && name != ""
    && forall i | 0 <= i < |name| :: IsWord(name[i]) && !IsUpper(name[i])
  }

  predicate Writable(fields: seq<Field>) {
    forall i | 0 <= i < |fields| :: WritableName(fields[i].name)
  }
}
