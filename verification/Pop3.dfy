/** Reading multi-line POP3 responses (section 3 of RFC 1939) from a byte stream. */
module Pop3 {
  import opened Wrappers

  newtype Byte = x: int | 0 <= x < 256

  const CR: Byte := 13
  const LF: Byte := 10
  const DOT: Byte := 46
  const PLUS: Byte := 43
  const MAX_LINE_LENGTH := 1024 * 10 * 10

  type Line = seq<Byte>

  datatype Error = NotConnected | EndOfStream | LineTooLong | NotPositive(line: Line)

  // ---------- one line ----------

  /** Length of the stream up to and with the first LF; 0 when there is none. */
  function LineEnd(stream: seq<Byte>): (n: nat)
    ensures n <= |stream|
    ensures n > 0 ==> stream[n - 1] == LF && LF !in stream[..n - 1]
    ensures n == 0 ==> LF !in stream
  {
    if stream == [] then 0
    else if stream[0] == LF then 1
    else
      var n := LineEnd(stream[1..]);
      if n == 0 then 0
      else
        assert stream[..n] == [stream[0]] + stream[1..][..n - 1];
        n + 1
  }

  function TrimSuffix(line: Line, b: Byte): Line {
    if line != [] && line[|line| - 1] == b then line[..|line| - 1] else line
  }

  function TrimPrefix(line: Line, b: Byte): Line {
    if line != [] && line[0] == b then line[1..] else line
  }

  datatype Got = Got(line: Line, octets: nat)

  /** The first line and its length on the wire, or why there is none; and what is left of the stream. */
  function FirstLine(stream: seq<Byte>): (Result<Got, Error>, seq<Byte>) {
    var n := LineEnd(stream);
    if n == 0 then (Err(EndOfStream), [])
    else if n > MAX_LINE_LENGTH then (Err(LineTooLong), stream[n..])
    else (Ok(Got(TrimPrefix(TrimSuffix(TrimSuffix(stream[..n], LF), CR), CR), n)), stream[n..])
  }

  /** A stream without LF ends before a line does. */
  lemma NoLine(stream: seq<Byte>)
    requires 10 !in stream
    ensures FirstLine(stream) == (Err(EndOfStream), [])
  {
  }

  // ---------- a multi-line response ----------

  datatype Body = Body(lines: seq<Line>, octets: nat)

  /** The lines up to the lone dot. */
  function BodyOf(stream: seq<Byte>): (Result<Body, Error>, seq<Byte>)
    decreases |stream|
  {
    var (first, rest) := FirstLine(stream);
    match first
    case Err(e) => (Err(e), rest)
    case Ok(Got(line, n)) =>
      if line == [DOT] then (Ok(Body([], 0)), rest)
      else
        var stuffed := [DOT, DOT] <= line;
        var (later, left) := BodyOf(rest);
        match later
        case Err(e) => (Err(e), left)
        case Ok(Body(lines, octets)) =>
          (Ok(Body([if stuffed then line[1..] else line] + lines, (if stuffed then n - 1 else n) + octets)), left)
  }

  datatype Response = Response(status: Line, lines: seq<Line>, octets: nat)

  function ResponseOf(stream: seq<Byte>): (Result<Response, Error>, seq<Byte>) {
    var (first, rest) := FirstLine(stream);
    match first
    case Err(e) => (Err(e), rest)
    case Ok(Got(line, _)) =>
      if !([PLUS] <= line) then (Err(NotPositive(line)), rest)
      else
        var (body, left) := BodyOf(rest);
        match body
        case Err(e) => (Err(e), left)
        case Ok(Body(lines, octets)) => (Ok(Response(line, lines, octets)), left)
  }

  /** The client's reading side. */
  class Client {
    var connected: bool
    var stream: seq<Byte>

    constructor (stream: seq<Byte>)
      ensures connected && this.stream == stream
    {
      connected := true;
      this.stream := stream;
    }

    method GetLine() returns (r: Result<Got, Error>)
      modifies this`stream
      ensures if old(connected) then (r, stream) == FirstLine(old(stream))
              else r == Err(NotConnected) && stream == old(stream)
    {
      if !connected { return Err(NotConnected); }
      var n := LineEnd(stream);
      if n == 0 {
        stream := [];
        return Err(EndOfStream);
      }
      var line := stream[..n];
      stream := stream[n..];
      if |line| > MAX_LINE_LENGTH { return Err(LineTooLong); }
      var octets := |line|;
      line := TrimSuffix(line, LF);
      line := TrimSuffix(line, CR);
      line := TrimPrefix(line, CR);
      return Ok(Got(line, octets));
    }

    method GetResp() returns (r: Result<Line, Error>)
      modifies this`stream
      ensures !old(connected) ==> r == Err(NotConnected) && stream == old(stream)
      ensures old(connected) ==>
        var (first, rest) := FirstLine(old(stream));
        && stream == rest
        && r == (match first
                 case Err(e) => Err(e)
                 case Ok(got) => if [PLUS] <= got.line then Ok(got.line) else Err(NotPositive(got.line)))
    {
      var got := GetLine();
      if got.Err? { return Err(got.error); }
      if !([PLUS] <= got.value.line) { return Err(NotPositive(got.value.line)); }
      return Ok(got.value.line);
    }

    method GetLongResp() returns (r: Result<Response, Error>)
      modifies this`stream
      ensures if old(connected) then (r, stream) == ResponseOf(old(stream))
              else r == Err(NotConnected) && stream == old(stream)
    {
      hide FirstLine;
      var resp := GetResp();
      if resp.Err? { return Err(resp.error); }
      var lines: seq<Line> := [];
      var octets := 0;
      ghost var start := stream;
      PrependNone(BodyOf(stream));
      while true
        invariant connected
        invariant BodyOf(start) == Prepend(lines, octets, BodyOf(stream))
        decreases |stream|
      {
        ghost var before := stream;
        RestShrinks(stream);
        var got := GetLine();
        if got.Err? { return Err(got.error); }
        var line, n := got.value.line, got.value.octets;
        if line == [DOT] {
          assert lines + [] == lines;
          break;
        }
        if [DOT, DOT] <= line {
          line := line[1..];
          n := n - 1;
        }
        PrependOn(lines, octets, line, n, BodyOf(stream));
        octets := octets + n;
        lines := lines + [line];
      }
      return Ok(Response(resp.value, lines, octets));
    }
  }

  /** Lines already read, put before what the rest of the stream gives. */
  function Prepend(lines: seq<Line>, octets: nat, rest: (Result<Body, Error>, seq<Byte>)): (Result<Body, Error>, seq<Byte>) {
    match rest.0
    case Err(e) => rest
    case Ok(body) => (Ok(Body(lines + body.lines, octets + body.octets)), rest.1)
  }

  lemma PrependNone(rest: (Result<Body, Error>, seq<Byte>))
    ensures Prepend([], 0, rest) == rest
  {
    if rest.0.Ok? {
      assert [] + rest.0.value.lines == rest.0.value.lines;
    }
  }

  lemma PrependOn(lines: seq<Line>, octets: nat, line: Line, n: nat, rest: (Result<Body, Error>, seq<Byte>))
    ensures Prepend(lines, octets, Prepend([line], n, rest)) == Prepend(lines + [line], octets + n, rest)
  {
    if rest.0.Ok? {
      assert lines + ([line] + rest.0.value.lines) == lines + [line] + rest.0.value.lines;
    }
  }

  lemma RestShrinks(stream: seq<Byte>)
    ensures FirstLine(stream).0.Ok? ==> |FirstLine(stream).1| < |stream| && FirstLine(stream).0.value.octets > 0
  {
  }

  // ---------- the sender's side ----------

  /** A line on the wire: a line that begins with a dot gets a second one. */
  function Wire(line: Line): Line {
    (if line != [] && line[0] == DOT then [DOT] else []) + line + [CR, LF]
  }

  function Encode(lines: seq<Line>): seq<Byte> {
    if lines == [] then [DOT, CR, LF] else Wire(lines[0]) + Encode(lines[1..])
  }

  function Octets(lines: seq<Line>): nat {
    if lines == [] then 0 else |lines[0]| + 2 + Octets(lines[1..])
  }

  /** A line the reader gives back as it was sent. */
  predicate Transparent(line: Line) {
    LF !in line && (line == [] || line[0] != CR) && |Wire(line)| <= MAX_LINE_LENGTH
  }

  lemma LineEndOf(line: Line, tail: seq<Byte>)
    requires LF !in line
    ensures LineEnd(line + [LF] + tail) == |line| + 1
  {
    var stream := line + [LF] + tail;
    var n := LineEnd(stream);
    assert stream[|line|] == LF;
    assert forall i :: 0 <= i < |line| ==> stream[i] == line[i];
    if n > 0 {
      assert forall i :: 0 <= i < n - 1 ==> stream[i] == stream[..n - 1][i];
    }
  }

  /** Reading one LF-free line ended by CR LF. */
  lemma ReadsLine(sent: Line, tail: seq<Byte>)
    requires LF !in sent
    ensures FirstLine(sent + [CR, LF] + tail) ==
      if |sent| + 2 > MAX_LINE_LENGTH then (Err(LineTooLong), tail)
      else (Ok(Got(TrimPrefix(sent, CR), |sent| + 2)), tail)
  {
    var stream := sent + [CR, LF] + tail;
    assert stream == (sent + [CR]) + [LF] + tail;
    LineEndOf(sent + [CR], tail);
    assert stream[..|sent| + 2] == sent + [CR, LF];
    assert stream[|sent| + 2..] == tail;
    assert TrimSuffix(sent + [CR, LF], LF) == sent + [CR];
    assert TrimSuffix(sent + [CR], CR) == sent;
  }

  function Stuffed(line: Line): Line {
    (if line != [] && line[0] == DOT then [DOT] else []) + line
  }

  /** What the first line of an encoding reads as. */
  lemma ReadsFirst(lines: seq<Line>, tail: seq<Byte>)
    requires lines != [] && LF !in lines[0]
    ensures FirstLine(Encode(lines) + tail) ==
      if |Wire(lines[0])| > MAX_LINE_LENGTH then (Err(LineTooLong), Encode(lines[1..]) + tail)
      else (Ok(Got(TrimPrefix(Stuffed(lines[0]), CR), |Wire(lines[0])|)), Encode(lines[1..]) + tail)
  {
    var sent := Stuffed(lines[0]);
    assert forall b <- sent :: b == DOT || b in lines[0];
    assert Encode(lines) + tail == sent + [CR, LF] + (Encode(lines[1..]) + tail);
    ReadsLine(sent, Encode(lines[1..]) + tail);
  }

  lemma ReadsEnd(tail: seq<Byte>)
    ensures BodyOf(Encode([]) + tail) == (Ok(Body([], 0)), tail)
  {
    ReadsLine([DOT], tail);
    assert [DOT] + [CR, LF] + tail == Encode([]) + tail;
    hide FirstLine, Encode;
  }

  /** A transparent line reads back as itself, whatever follows. */
  lemma ReadsTransparent(lines: seq<Line>, tail: seq<Byte>)
    requires lines != [] && Transparent(lines[0])
    ensures BodyOf(Encode(lines) + tail) == Prepend([lines[0]], |lines[0]| + 2, BodyOf(Encode(lines[1..]) + tail))
  {
    hide FirstLine, Encode;
    ReadsFirst(lines, tail);
    var line := lines[0];
    if line != [] && line[0] == DOT {
      assert Stuffed(line)[1..] == line;
    } else {
      assert Stuffed(line) == line;
    }
  }

  /** Reading the encoding of transparent lines gives them back and stops just after the lone dot. */
  lemma {:induction false} DecodesTransparent(lines: seq<Line>, tail: seq<Byte>)
    requires forall line <- lines :: Transparent(line)
    ensures BodyOf(Encode(lines) + tail) == (Ok(Body(lines, Octets(lines))), tail)
  {
    hide BodyOf, Encode, Transparent, FirstLine;
    if lines == [] {
      ReadsEnd(tail);
    } else {
      ReadsTransparent(lines, tail);
      DecodesTransparent(lines[1..], tail);
      assert lines == [lines[0]] + lines[1..];
    }
  }

  ghost predicate GivesBack(lines: seq<Line>, tail: seq<Byte>) {
    var r := BodyOf(Encode(lines) + tail).0;
    r.Ok? && r.value.lines == lines
  }

  lemma {:induction false} LinesWithoutLF(stream: seq<Byte>)
    ensures BodyOf(stream).0.Ok? ==> forall line <- BodyOf(stream).0.value.lines :: LF !in line
    decreases |stream|
  {
    LineWithoutLF(stream);
    hide FirstLine;
    if FirstLine(stream).0.Ok? {
      LinesWithoutLF(FirstLine(stream).1);
    }
  }

  lemma LineWithoutLF(stream: seq<Byte>)
    ensures FirstLine(stream).0.Ok? ==> LF !in FirstLine(stream).0.value.line && |FirstLine(stream).1| < |stream|
  {
    var n := LineEnd(stream);
    if n > 0 {
      assert TrimSuffix(stream[..n], LF) == stream[..n - 1];
    }
  }

  /** A line that starts with CR is not given back: the reader drops that byte. */
  lemma LeadingCRLost(lines: seq<Line>, tail: seq<Byte>)
    requires lines != [] && LF !in lines[0] && lines[0] != [] && lines[0][0] == CR
    ensures !GivesBack(lines, tail)
  {
    hide FirstLine, Encode;
    ReadsFirst(lines, tail);
    assert Stuffed(lines[0]) == lines[0];
  }

  /** A line of CR and a dot even passes for the end of the response; the rest stays in the stream. */
  lemma CarriageReturnEnds(tail: seq<Byte>)
    ensures BodyOf(Encode([[CR, DOT]]) + tail) == (Ok(Body([], 0)), Encode([]) + tail)
    ensures !GivesBack([[CR, DOT]], tail)
  {
    var lines := [[CR, DOT]];
    assert lines[1..] == [];
    hide FirstLine, Encode;
    ReadsFirst(lines, tail);
    assert Wire([CR, DOT]) == [CR, DOT, CR, LF];
    assert TrimPrefix(Stuffed([CR, DOT]), CR) == [DOT];
  }

  /**
   The reader gives back what was sent exactly when every line is free of LF, does not start with
   CR, and fits the line limit on the wire.
   */
  lemma {:induction false} RoundTrip(lines: seq<Line>, tail: seq<Byte>)
    ensures GivesBack(lines, tail) <==> forall line <- lines :: Transparent(line)
  {
    assert lines == [] || lines == [lines[0]] + lines[1..];
    if forall line <- lines :: Transparent(line) {
      DecodesTransparent(lines, tail);
    } else if GivesBack(lines, tail) {
      LinesWithoutLF(Encode(lines) + tail);
      FirstTransparent(lines, tail);
      RoundTrip(lines[1..], tail);
    }
  }

  lemma FirstTransparent(lines: seq<Line>, tail: seq<Byte>)
    requires lines != [] && LF !in lines[0] && GivesBack(lines, tail)
    ensures Transparent(lines[0]) && GivesBack(lines[1..], tail)
  {
    hide FirstLine, Encode;
    ReadsFirst(lines, tail);
    assert lines[0] == [] || lines[0][0] != CR by {
      if lines[0] != [] && lines[0][0] == CR {
        LeadingCRLost(lines, tail);
      }
    }
    hide BodyOf;
    ReadsTransparent(lines, tail);
  }

  /** A whole response: the status line, the lines, their size, and the stream just after the lone dot. */
  lemma ResponseRoundTrip(status: Line, lines: seq<Line>, tail: seq<Byte>)
    requires [PLUS] <= status && LF !in status && |status| + 2 <= MAX_LINE_LENGTH
    requires forall line <- lines :: Transparent(line)
    ensures ResponseOf(status + [CR, LF] + (Encode(lines) + tail)) == (Ok(Response(status, lines, Octets(lines))), tail)
  {
    hide FirstLine, BodyOf, Encode;
    ReadsLine(status, Encode(lines) + tail);
    DecodesTransparent(lines, tail);
  }

  // ---------- the protocol's bytes ----------

  /** A line of 102400 bytes with its end is read, one byte more is too long. */
  lemma LineLimit(sent: Line, tail: seq<Byte>)
    requires 10 !in sent && 13 !in sent
    ensures FirstLine(sent + [13, 10] + tail) ==
      if |sent| <= 102398 then (Ok(Got(sent, |sent| + 2)), tail) else (Err(LineTooLong), tail)
  {
    assert [13, 10] == [CR, LF];
    ReadsLine(sent, tail);
  }

  /** A line may also end in LF alone; of what stands before it only a CR at either end is dropped. */
  lemma BareLineFeed(sent: Line, tail: seq<Byte>)
    requires 10 !in sent && 13 !in sent && |sent| < 102400
    ensures FirstLine(sent + [10] + tail) == (Ok(Got(sent, |sent| + 1)), tail)
  {
    var stream := sent + [LF] + tail;
    LineEndOf(sent, tail);
    assert stream[..|sent| + 1] == sent + [LF] && stream[|sent| + 1..] == tail;
    assert TrimSuffix(sent + [LF], LF) == sent;
    assert sent != [] ==> sent[0] in sent && sent[|sent| - 1] in sent;
  }

  /** "+OK" and a line ".." before the lone dot read as one line "."; "-ERR" is an error. */
  lemma ResponsesTold(tail: seq<Byte>)
    ensures ResponseOf([43, 79, 75, 13, 10] + ([46, 46, 13, 10] + [46, 13, 10] + tail))
         == (Ok(Response([43, 79, 75], [[46]], 3)), tail)
    ensures ResponseOf([45, 69, 82, 82, 13, 10] + tail) == (Err(NotPositive([45, 69, 82, 82])), tail)
  {
    assert [45, 69, 82, 82, 13, 10] + tail == [45, 69, 82, 82] + [CR, LF] + tail;
    ReadsLine([45, 69, 82, 82], tail);
    assert Encode([]) == [46, 13, 10];
    assert Wire([46]) == [46, 46, 13, 10];
    assert [[46 as Byte]][1..] == [];
    assert Encode([[46]]) == [46, 46, 13, 10] + [46, 13, 10];
    assert [43, 79, 75, 13, 10] + (Encode([[46]]) + tail) == [43, 79, 75] + [CR, LF] + (Encode([[46]]) + tail);
    assert Octets([[46]]) == 3;
    assert Transparent([46]);
    hide FirstLine, BodyOf, Encode, Octets;
    ResponseRoundTrip([43, 79, 75], [[46]], tail);
  }
}
