/** The rigctld client (apps/cw/rigctl.py): lines cut out of a byte stream that arrives
    in arbitrary pieces. Bytes are characters up to 255. */
module Rigctl {
  import opened Common
  import opened PythonText

  /** Why a read or a request fails. */
  datatype RigError = ConnectionClosed | ReadFailed | WriteFailed | Unreachable | Rejected(code: string)

  datatype Result<T> = Ok(value: T) | Err(error: RigError)

  /** What one `recv` brings: bytes, the end of the stream, or an error such as a
      time-out. When the list of receives ends, the next one times out. */
  datatype Receive = Bytes(data: string) | Closed | Failed

  /** Received pieces are not empty: an empty one means the end of the stream. */
  predicate Pieces(incoming: seq<Receive>) {
    forall r | r in incoming :: r.Bytes? ==> r.data != ""
  }

  /** The bytes that arrive before the stream ends. */
  function Data(incoming: seq<Receive>): string {
    if incoming == [] || !incoming[0].Bytes? then "" else incoming[0].data + Data(incoming[1..])
  }

  /** What can still arrive after the bytes end: a time-out passes, a closed stream stays
      closed. */
  function AfterEnd(incoming: seq<Receive>): seq<Receive> {
    if incoming == [] then []
    else match incoming[0]
      case Bytes(_) => AfterEnd(incoming[1..])
      case Closed => incoming
      case Failed => incoming[1..]
  }

  /** How the bytes end. */
  function Ending(incoming: seq<Receive>): RigError {
    if incoming == [] then ReadFailed
    else match incoming[0]
      case Bytes(_) => Ending(incoming[1..])
      case Closed => ConnectionClosed
      case Failed => ReadFailed
  }

  // ----- lines of a stream -----

  /** `buf.split(b"\n", 1)`: the first line and what follows it. */
  function CutLine(s: string): Option<(string, string)> {
    if s == "" then None
    else if s[0] == '\n' then Some(("", s[1..]))
    else
      var rest := CutLine(s[1..]);
      if rest.None? then None else Some(([s[0]] + rest.value.0, rest.value.1))
  }

  predicate OneLine(s: string) { forall i | 0 <= i < |s| :: s[i] != '\n' }

  lemma {:induction false} CutLineCuts(s: string)
    ensures CutLine(s).None? <==> OneLine(s)
    ensures CutLine(s).Some? ==> OneLine(CutLine(s).value.0) && s == CutLine(s).value.0 + "\n" + CutLine(s).value.1
  {
    if s != "" && s[0] != '\n' {
      CutLineCuts(s[1..]);
      assert s == [s[0]] + s[1..];
    }
  }

  /** Where a line ends does not depend on what arrives later. */
  lemma {:induction false} CutLineOf(line: string, rest: string)
    requires OneLine(line)
    ensures CutLine(line + "\n" + rest) == Some((line, rest))
  {
    var s := line + "\n" + rest;
    if line != "" {
      assert s[0] == line[0] && s[1..] == line[1..] + "\n" + rest;
      CutLineOf(line[1..], rest);
      assert [line[0]] + line[1..] == line;
    } else {
      assert s == "\n" + rest;
    }
  }

  lemma CutLineExtends(s: string, more: string)
    requires CutLine(s).Some?
    ensures CutLine(s + more) == Some((CutLine(s).value.0, CutLine(s).value.1 + more))
  {
    CutLineCuts(s);
    var line, rest := CutLine(s).value.0, CutLine(s).value.1;
    assert s + more == line + "\n" + (rest + more);
    CutLineOf(line, rest + more);
  }

  function DecodeByte(c: char): char { if c < '\U{80}' then c else '\U{FFFD}' }

  function Decode(s: string): string {
    if s == "" then "" else [DecodeByte(s[0])] + Decode(s[1..])
  }

  /** The text of a raw line. */
  function TextOf(line: string): string { Strip(Decode(line)) }

  predicate IsReport(text: string) { |text| >= 4 && text[..4] == "RPRT" }

  /** The last word of a report line. */
  function CodeOf(text: string): string {
    var words := Words(text);
    if words == [] then "" else words[|words| - 1]
  }

  // ----- replies -----

  /** What a request gets from a stream, the bytes it leaves, and whether it ran into the
      end of the bytes. */
  datatype Outcome = Outcome(result: Result<seq<string>>, rest: string, ended: bool)

  /** Read up to `n` more lines; a report line ends the reply early. */
  function ReadReply(stream: string, end: RigError, n: nat, lines: seq<string>): Outcome
    decreases n
  {
    if n == 0 then Outcome(Ok(lines), stream, false)
    else
      var cut := CutLine(stream);
      if cut.None? then Outcome(Err(end), stream, true)
      else
        var text, rest := TextOf(cut.value.0), cut.value.1;
        if !IsReport(text) then ReadReply(rest, end, n - 1, lines + [text])
        else if CodeOf(text) != "0" then Outcome(Err(Rejected(CodeOf(text))), rest, false)
        else Outcome(Ok(lines), rest, false)
  }

  /** The client's side of one connection. */
  class RigctldClient {
    var connected: bool
    var buf: string
    var incoming: seq<Receive>
    var sent: seq<string>

    constructor ()
      ensures !connected && buf == "" && sent == []
    {
      connected, buf, incoming, sent := false, "", [], [];
    }

    /** Every byte received or to be received and not yet handed out. */
    function Pending(): string
      reads this
    {
      buf + Data(incoming)
    }

    /** A new connection brings a new stream; bytes left over stay in the buffer. */
    method Connect(stream: seq<Receive>, reachable: bool) returns (r: Result<()>)
      modifies this
      ensures buf == old(buf) && sent == old(sent)
      ensures if reachable then r == Ok(()) && connected && incoming == stream
              else r == Err(Unreachable) && connected == old(connected) && incoming == old(incoming)
    {
      if !reachable {
        return Err(Unreachable);
      }
      connected, incoming := true, stream;
      r := Ok(());
    }

    method Close()
      modifies this
      ensures !connected && buf == old(buf) && incoming == old(incoming) && sent == old(sent)
    {
      connected := false;
    }

    /** The bytes left and what is still to come are those of `out` on what was there. */
    ghost predicate Left(out: Outcome, before: seq<Receive>)
      reads this
    {
      if out.ended then buf == out.rest && incoming == AfterEnd(before)
      else Pending() == out.rest && Ending(incoming) == Ending(before) && AfterEnd(incoming) == AfterEnd(before)
    }

    /** The next line. What it returns, and what it leaves, depends only on the bytes
        pending and on how they end, not on the pieces they arrive in. */
    method ReadLine() returns (r: Result<string>)
      requires connected && Pieces(incoming)
      modifies this`buf, this`incoming
      ensures Pieces(incoming)
      ensures match CutLine(old(Pending()))
        case Some(cut) =>
          r == Ok(TextOf(cut.0)) && Pending() == cut.1
          && Ending(incoming) == old(Ending(incoming)) && AfterEnd(incoming) == old(AfterEnd(incoming))
        case None => r == Err(old(Ending(incoming))) && buf == old(Pending()) && incoming == old(AfterEnd(incoming))
    {
      ghost var end, after := Ending(incoming), AfterEnd(incoming);
      while CutLine(buf).None?
        invariant Pieces(incoming) && Ending(incoming) == end && AfterEnd(incoming) == after
        invariant Pending() == old(Pending())
        decreases |incoming|
      {
        if incoming == [] || !incoming[0].Bytes? {
          CutLineCuts(buf);
          assert Pending() == buf;
          r := Err(if incoming != [] && incoming[0].Closed? then ConnectionClosed else ReadFailed);
          if incoming != [] && incoming[0].Failed? {
            assert forall x | x in incoming[1..] :: x in incoming;
            incoming := incoming[1..];
          }
          return;
        }
        assert buf + (incoming[0].data + Data(incoming[1..])) == (buf + incoming[0].data) + Data(incoming[1..]);
        assert forall x | x in incoming[1..] :: x in incoming;
        buf, incoming := buf + incoming[0].data, incoming[1..];
      }
      CutLineExtends(buf, Data(incoming));
      var cut := CutLine(buf).value;
      buf := cut.1;
      r := Ok(TextOf(cut.0));
    }

    /** Send one command on the open connection and read its reply. */
    method Ask(command: string, replyLines: nat, sends: bool) returns (r: Result<seq<string>>)
      requires connected && Pieces(incoming)
      modifies this`buf, this`incoming, this`sent
      ensures Pieces(incoming)
      ensures !sends ==> r == Err(WriteFailed) && buf == old(buf) && incoming == old(incoming) && sent == old(sent)
      ensures sends ==> sent == old(sent) + [command + "\n"]
      ensures sends ==>
        var out := ReadReply(old(Pending()), old(Ending(incoming)), replyLines, []);
        r == out.result && Left(out, old(incoming))
    {
      if !sends {
        return Err(WriteFailed);
      }
      sent := sent + [command + "\n"];
      var lines: seq<string> := [];
      ghost var end, after := Ending(incoming), AfterEnd(incoming);
      for i := 0 to replyLines
        invariant Pieces(incoming) && Ending(incoming) == end && AfterEnd(incoming) == after
        invariant sent == old(sent) + [command + "\n"]
        invariant ReadReply(Pending(), end, replyLines - i, lines) == ReadReply(old(Pending()), end, replyLines, [])
      {
        var line := ReadLine();
        if line.Err? {
          return Err(line.error);
        }
        if IsReport(line.value) {
          var code := CodeOf(line.value);
          if code != "0" {
            return Err(Rejected(code));
          }
          return Ok(lines);
        }
        lines := lines + [line.value];
      }
      r := Ok(lines);
    }

    /** Send one command, connecting first if need be, and read its reply. */
    method Request(command: string, replyLines: nat, sends: bool, stream: seq<Receive>, reachable: bool)
      returns (r: Result<seq<string>>)
      requires Pieces(incoming) && Pieces(stream)
      modifies this
      ensures !old(connected) && !reachable ==>
        r == Err(Unreachable) && !connected && buf == old(buf) && incoming == old(incoming) && sent == old(sent)
      ensures (old(connected) || reachable) && !sends ==> r == Err(WriteFailed) && sent == old(sent)
      ensures (old(connected) || reachable) && sends ==>
        var source := if old(connected) then old(incoming) else stream;
        var out := ReadReply(old(buf) + Data(source), Ending(source), replyLines, []);
        sent == old(sent) + [command + "\n"] && r == out.result && Left(out, source)
    {
      if !connected {
        var c := Connect(stream, reachable);
        if c.Err? {
          return Err(c.error);
        }
      }
      r := Ask(command, replyLines, sends);
    }
  }

  // ----- a server that answers every command -----

  /** The bytes of some lines. */
  function Wire(lines: seq<string>): string {
    if lines == [] then "" else lines[0] + "\n" + Wire(lines[1..])
  }

  /** A reply to a command that expects `n` lines: just these, or fewer and a report. */
  predicate Answers(lines: seq<string>, n: nat)
    decreases |lines|
  {
    if n == 0 then lines == []
    else
      && lines != [] && OneLine(lines[0])
      && if IsReport(TextOf(lines[0])) then |lines| == 1 else Answers(lines[1..], n - 1)
  }

  /** What the reply means to the caller. */
  function Meaning(lines: seq<string>, before: seq<string>): Result<seq<string>>
    decreases |lines|
  {
    if lines == [] then Ok(before)
    else if !IsReport(TextOf(lines[0])) then Meaning(lines[1..], before + [TextOf(lines[0])])
    else if CodeOf(TextOf(lines[0])) != "0" then Err(Rejected(CodeOf(TextOf(lines[0]))))
    else Ok(before)
  }

  /** A request consumes exactly its own reply, also when the reply is an error. */
  lemma {:induction false} ReplyIsConsumed(lines: seq<string>, n: nat, later: string, end: RigError, before: seq<string>)
    requires Answers(lines, n)
    ensures ReadReply(Wire(lines) + later, end, n, before) == Outcome(Meaning(lines, before), later, false)
    decreases n
  {
    if n == 0 {
      assert "" + later == later;
    } else {
      var rest := Wire(lines[1..]) + later;
      assert Wire(lines) + later == lines[0] + "\n" + rest;
      CutLineOf(lines[0], rest);
      if IsReport(TextOf(lines[0])) {
        assert lines[1..] == [] && rest == later;
      } else {
        ReplyIsConsumed(lines[1..], n - 1, later, end, before + [TextOf(lines[0])]);
      }
    }
  }

  /** A command's expected line count and the reply the server sends. */
  datatype Exchange = Exchange(expects: nat, reply: seq<string>)

  function WireAll(session: seq<Exchange>): string {
    if session == [] then "" else Wire(session[0].reply) + WireAll(session[1..])
  }

  /** The results of successive requests on one stream. */
  function Results(stream: string, end: RigError, session: seq<Exchange>): seq<Result<seq<string>>>
    decreases |session|
  {
    if session == [] then []
    else
      var first := ReadReply(stream, end, session[0].expects, []);
      [first.result] + Results(first.rest, end, session[1..])
  }

  /** Over a whole session in which every reply arrives in time, each request gets the
      meaning of its own reply, whatever errors the replies before it reported. */
  lemma {:induction false} SessionStaysInStep(session: seq<Exchange>, later: string, end: RigError)
    requires forall x | x in session :: Answers(x.reply, x.expects)
    ensures |Results(WireAll(session) + later, end, session)| == |session|
    ensures forall i | 0 <= i < |session| ::
      Results(WireAll(session) + later, end, session)[i] == Meaning(session[i].reply, [])
    decreases |session|
  {
    if session != [] {
      var x := session[0];
      var rest := WireAll(session[1..]) + later;
      assert x in session;
      assert WireAll(session) + later == Wire(x.reply) + rest;
      ReplyIsConsumed(x.reply, x.expects, rest, end, []);
      SessionStaysInStep(session[1..], later, end);
    }
  }

  // ----- bytes left in the buffer -----

  /** A piece of one line without text. */
  predicate Harmless(left: string) { OneLine(left) && TextOf(left) == "" }

  lemma {:induction false} StrippedEndStays(s: string)
    requires s != "" && !IsSpace(s[0])
    ensures StripRight(s) != ""
  {
    if IsSpace(s[|s| - 1]) {
      assert s[..|s| - 1][0] == s[0];
      StrippedEndStays(s[..|s| - 1]);
    }
  }

  lemma {:induction false} StripLeftStops(s: string)
    ensures StripLeft(s) != "" ==> !IsSpace(StripLeft(s)[0])
  {
    if s != "" && IsSpace(s[0]) {
      StripLeftStops(s[1..]);
    }
  }

  lemma {:induction false} BlankPrefixStrips(blank: string, s: string)
    requires StripLeft(blank) == ""
    ensures StripLeft(blank + s) == StripLeft(s)
  {
    if blank == "" {
      assert blank + s == s;
    } else {
      assert (blank + s)[0] == blank[0] && (blank + s)[1..] == blank[1..] + s;
      BlankPrefixStrips(blank[1..], s);
    }
  }

  lemma {:induction false} DecodeConcat(a: string, b: string)
    ensures Decode(a + b) == Decode(a) + Decode(b)
  {
    if a == "" {
      assert a + b == b;
    } else {
      assert (a + b)[0] == a[0] && (a + b)[1..] == a[1..] + b;
      DecodeConcat(a[1..], b);
    }
  }

  /** Before a line such a piece makes no difference. */
  lemma HarmlessPrefix(left: string, line: string)
    requires Harmless(left)
    ensures TextOf(left + line) == TextOf(line)
  {
    DecodeConcat(left, line);
    var blank := Decode(left);
    StripLeftStops(blank);
    if StripLeft(blank) != "" {
      StrippedEndStays(StripLeft(blank));
    }
    BlankPrefixStrips(blank, Decode(line));
  }

  lemma OneLineConcat(a: string, b: string)
    requires OneLine(a) && OneLine(b)
    ensures OneLine(a + b)
  {
  }

  /** The request reads its own reply although these bytes were left before it. */
  ghost predicate ReadsOwn(left: string, lines: seq<string>, n: nat, later: string, end: RigError)
  {
    ReadReply(left + Wire(lines) + later, end, n, []) == Outcome(Meaning(lines, []), later, false)
  }

  lemma StreamSplits(left: string, lines: seq<string>, later: string)
    requires lines != []
    ensures left + Wire(lines) + later == (left + lines[0]) + "\n" + (Wire(lines[1..]) + later)
    ensures Wire(lines) + later == lines[0] + "\n" + (Wire(lines[1..]) + later)
  {
  }

  /** A reply depends on the text of its first line and on what follows that line. */
  lemma SameTextSameReply(one: string, other: string, a: string, b: string, rest: string, end: RigError, n: nat)
    requires n > 0 && CutLine(one) == Some((a, rest)) && CutLine(other) == Some((b, rest)) && TextOf(a) == TextOf(b)
    ensures ReadReply(one, end, n, []) == ReadReply(other, end, n, [])
  {
  }

  lemma HarmlessReadsOwn(left: string, lines: seq<string>, n: nat, later: string, end: RigError)
    requires Harmless(left) && n > 0 && Answers(lines, n)
    ensures ReadsOwn(left, lines, n, later, end)
  {
    var rest := Wire(lines[1..]) + later;
    StreamSplits(left, lines, later);
    OneLineConcat(left, lines[0]);
    CutLineOf(left + lines[0], rest);
    CutLineOf(lines[0], rest);
    HarmlessPrefix(left, lines[0]);
    SameTextSameReply(left + Wire(lines) + later, Wire(lines) + later, left + lines[0], lines[0], rest, end, n);
    ReplyIsConsumed(lines, n, later, end, []);
  }

  /** A request for one line. */
  lemma ReadOne(stream: string, end: RigError, line: string, rest: string)
    requires CutLine(stream) == Some((line, rest))
    ensures var text := TextOf(line);
      ReadReply(stream, end, 1, [])
      == if !IsReport(text) then Outcome(Ok([text]), rest, false)
         else if CodeOf(text) != "0" then Outcome(Err(Rejected(CodeOf(text))), rest, false)
         else Outcome(Ok([]), rest, false)
  {
    assert [] + [TextOf(line)] == [TextOf(line)];
  }

  lemma {:induction false} AsciiDecodes(s: string)
    requires forall i | 0 <= i < |s| :: s[i] < '\U{80}'
    ensures Decode(s) == s
  {
    if s != "" {
      AsciiDecodes(s[1..]);
      assert [s[0]] + s[1..] == s;
    }
  }

  /** A line of visible ASCII text is its own text. */
  lemma PlainLine(s: string)
    requires forall i | 0 <= i < |s| :: ' ' < s[i] < '\U{80}'
    ensures TextOf(s) == s && OneLine(s)
  {
    AsciiDecodes(s);
    if s != "" {
      assert !IsSpace(s[0]) && !IsSpace(s[|s| - 1]);
    }
  }

  lemma OneLineReply(line: string)
    requires OneLine(line) && TextOf(line) == line && !IsReport(line)
    ensures Answers([line], 1) && Meaning([line], []) == Ok([line]) && Wire([line]) == line + "\n"
  {
    assert [line][1..] == [];
    assert [] + [line] == [line];
  }

  /** A reply that is misread after these bytes. */
  lemma MisreadReply(left: string, end: RigError) returns (line: string)
    requires !Harmless(left)
    ensures Answers([line], 1) && !ReadsOwn(left, [line], 1, "", end)
  {
    var cut := CutLine(left);
    CutLineCuts(left);
    if cut.Some? {
      line := if TextOf(cut.value.0) == "0" then "1" else "0";
      PlainLine(line);
      OneLineReply(line);
      var stream := left + Wire([line]) + "";
      assert stream == left + Wire([line]);
      CutLineExtends(left, Wire([line]));
      ReadOne(stream, end, cut.value.0, cut.value.1 + Wire([line]));
    } else {
      line := "";
      PlainLine(line);
      OneLineReply(line);
      var stream := left + Wire([line]) + "";
      assert stream == left + "\n" + "";
      CutLineOf(left, "");
      ReadOne(stream, end, left, "");
    }
  }

  /** A request reads its own reply after bytes left in the buffer, for every reply and
      whatever follows it, exactly when these bytes are a piece of a line without text. */
  lemma LeftBytesAreHarmless(left: string, end: RigError)
    ensures (forall lines: seq<string>, n: nat, later: string | n > 0 && Answers(lines, n) :: ReadsOwn(left, lines, n, later, end))
       <==> Harmless(left)
  {
    if Harmless(left) {
      forall lines: seq<string>, n: nat, later: string | n > 0 && Answers(lines, n)
        ensures ReadsOwn(left, lines, n, later, end)
      {
        HarmlessReadsOwn(left, lines, n, later, end);
      }
    } else {
      var line := MisreadReply(left, end);
    }
  }

  /** A whole line that arrived too late is never harmless. */
  lemma LateLineIsHarmful(left: string, line: string, more: string)
    ensures !Harmless(left + (line + "\n" + more))
  {
    var all := left + (line + "\n" + more);
    assert all[|left| + |line|] == '\n';
  }

  // ----- how bytes come to be left -----

  lemma PieceEnds(piece: string, end: RigError)
    requires OneLine(piece)
    ensures ReadReply(piece, end, 1, []) == Outcome(Err(end), piece, true)
  {
    CutLineCuts(piece);
  }

  lemma NumberIsRead(number: string, rest: string, end: RigError)
    requires forall i | 0 <= i < |number| :: IsDigit(number[i])
    ensures ReadReply(number + "\n" + rest, end, 1, []) == Outcome(Ok([number]), rest, false)
  {
    PlainLine(number);
    CutLineOf(number, rest);
    assert |number| >= 4 ==> number[..4][0] == number[0];
    ReadOne(number + "\n" + rest, end, number, rest);
  }

  lemma DataOfPieces(piece: string, more: string)
    ensures Data([Bytes(piece), Closed]) == piece && Ending([Bytes(piece), Closed]) == ConnectionClosed
    ensures Data([Bytes(more)]) == more
  {
    assert [Bytes(piece), Closed][1..] == [Closed] && [Bytes(more)][1..] == [];
  }

  lemma GluedLine(piece: string, more: string)
    ensures piece + (more + "\n") == piece + more + "\n" + ""
  {
  }

  /** The server closes in the middle of a line; `close` and a new connection keep the
      piece, and the next reply is read with it in front. */
  method StaleBytesReachNextConnection(client: RigctldClient) returns (first: Result<seq<string>>, second: Result<seq<string>>)
    requires client.buf == ""
    modifies client
    ensures first == Err(ConnectionClosed) && second == Ok(["147000"])
  {
    var broken, next := [Bytes("14"), Closed], [Bytes("7000\n")];
    DataOfPieces("14", "7000\n");
    PieceEnds("14", ConnectionClosed);
    var _ := client.Connect(broken, true);
    assert client.Pending() == "14";
    first := client.Ask("f", 1, true);
    client.Close();
    var _ := client.Connect(next, true);
    GluedLine("14", "7000");
    assert client.Pending() == "147000" + "\n" + "";
    NumberIsRead("147000", "", Ending(next));
    second := client.Ask("f", 1, true);
  }

  /** A reply comes after its request has timed out; the connection stays open, and the
      next request reads it in place of its own. */
  method LateReplyAnswersNextRequest(client: RigctldClient) returns (first: Result<seq<string>>, second: Result<seq<string>>)
    requires client.buf == ""
    modifies client
    ensures first == Err(ReadFailed) && second == Ok(["7000"])
  {
    var late := [Failed, Bytes("7000\n1\n")];
    assert late[1..] == [Bytes("7000\n1\n")] && late[1..][1..] == [];
    assert Data(late) == "" && Ending(late) == ReadFailed && AfterEnd(late) == late[1..];
    assert Data(late[1..]) == "7000\n1\n";
    PieceEnds("", ReadFailed);
    var _ := client.Connect(late, true);
    assert client.Pending() == "";
    first := client.Ask("f", 1, true);
    assert client.Pending() == "7000" + "\n" + "1\n";
    NumberIsRead("7000", "1\n", Ending(late[1..]));
    second := client.Ask("t", 1, true);
  }
}
