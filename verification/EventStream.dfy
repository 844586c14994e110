/** Reading a JSON-RPC response out of an event stream (internal/mcp/client.go; section 9.2.6 of
    the WHATWG HTML standard). */
module EventStream {
  import opened Prelude
  import opened Bytes

  const CAP := 0x200_0000

  const DATA: seq<Byte> := [100, 97, 116, 97, 58]  // data:

  /** A payload that unmarshals: its id, when it has an integer one, and the payload itself. */
  datatype Response = Response(id: Option<int>, payload: seq<Byte>)

  /** json.Unmarshal of a payload and of its id. */
  type Decoder = seq<Byte> -> Option<Response>

  // ---- Lines ------------------------------------------------------------------------

  /** bufio.ScanLines drops one trailing carriage return. */
  function DropCR(line: seq<Byte>): seq<Byte> {
    if line != [] && line[|line| - 1] == CR then line[..|line| - 1] else line
  }

  function DropAll(lines: seq<seq<Byte>>): (r: seq<seq<Byte>>)
    ensures |r| == |lines|
    ensures forall i | 0 <= i < |lines| :: r[i] == DropCR(lines[i])
  {
    if lines == [] then [] else [DropCR(lines[0])] + DropAll(lines[1..])
  }

  /** The tokens of a line scanner: an unfinished last line counts unless it is empty. */
  function ScanLines(body: seq<Byte>): seq<seq<Byte>> {
    DropAll(Lines(body) + if Rest(body) == [] then [] else [Rest(body)])
  }

  // ---- Decoding ---------------------------------------------------------------------

  function Join(data: seq<seq<Byte>>): seq<Byte>
    requires data != []
  {
    Unlines(data[..|data| - 1]) + data[|data| - 1]
  }

  predicate IsData(line: seq<Byte>) {
    HasPrefix(line, DATA)
  }

  /** The text of a data line: one leading space is dropped. */
  function Text(line: seq<Byte>): seq<Byte>
    requires IsData(line)
  {
    var rest := line[5..];
    if rest != [] && rest[0] == SPACE then rest[1..] else rest
  }

  function Wanted(dec: Decoder, id: int, payload: seq<Byte>): Option<Response> {
    match dec(payload)
    case None => None
    case Some(r) => if r.id == Some(id) then Some(r) else None
  }

  function Flush(dec: Decoder, id: int, data: seq<seq<Byte>>): Option<Response> {
    if data == [] then None else Wanted(dec, id, Join(data))
  }

  /** The data lines of the event being read, or the response already found. */
  datatype Progress = Collecting(data: seq<seq<Byte>>) | Found(response: Response)

  function TakeLine(dec: Decoder, id: int, p: Progress, line: seq<Byte>): Progress {
    if p.Found? then p
    else if line == [] then
      var r := Flush(dec, id, p.data);
      if r.Some? then Found(r.value) else Collecting([])
    else if IsData(line) then Collecting(p.data + [Text(line)])
    else p
  }

  function TakeAll(dec: Decoder, id: int, p: Progress, lines: seq<seq<Byte>>): Progress
    decreases |lines|
  {
    if lines == [] then p else TakeAll(dec, id, TakeLine(dec, id, p, lines[0]), lines[1..])
  }

  function Finish(dec: Decoder, id: int, p: Progress): Option<Response> {
    match p
    case Found(r) => Some(r)
    case Collecting(data) => Flush(dec, id, data)
  }

  /** The event-stream branch of decodeResponse.  A body that fills the scanner's buffer without
      a newline is an error. */
  function Decode(dec: Decoder, id: int, body: seq<Byte>): Option<Response> {
    var limited := body[..Min(|body|, CAP)];
    if |limited| == CAP && NL !in limited then None
      else Finish(dec, id, TakeAll(dec, id, Collecting([]), ScanLines(limited)))
  }

  lemma {:induction false} FoundStays(dec: Decoder, id: int, r: Response, lines: seq<seq<Byte>>)
    ensures TakeAll(dec, id, Found(r), lines) == Found(r)
    decreases |lines|
  {
    if lines != [] {
      FoundStays(dec, id, r, lines[1..]);
    }
  }

  lemma {:induction false} TakeAppend(dec: Decoder, id: int, p: Progress, lines: seq<seq<Byte>>, more: seq<seq<Byte>>)
    ensures TakeAll(dec, id, p, lines + more) == TakeAll(dec, id, TakeAll(dec, id, p, lines), more)
    decreases |lines|
  {
    if lines == [] {
      assert lines + more == more;
    } else {
      assert (lines + more)[1..] == lines[1..] + more;
      TakeAppend(dec, id, TakeLine(dec, id, p, lines[0]), lines[1..], more);
    }
  }

  method DecodeResponse(dec: Decoder, id: int, body: seq<Byte>) returns (r: Option<Response>)
    ensures r == Decode(dec, id, body)
  {
    var limited := body[..Min(|body|, CAP)];
    if |limited| == CAP && NL !in limited {
      return None;
    }
    var lines := ScanLines(limited);
    var data: seq<seq<Byte>> := [];
    var i := 0;
    while i < |lines|
      invariant 0 <= i <= |lines|
      invariant TakeAll(dec, id, Collecting([]), lines) == TakeAll(dec, id, Collecting(data), lines[i..])
    {
      var line := lines[i];
      assert lines[i..][1..] == lines[i + 1..];
      if line == [] {
        var found := Flush(dec, id, data);
        if found.Some? {
          FoundStays(dec, id, found.value, lines[i + 1..]);
          return found;
        }
        data := [];
      } else if IsData(line) {
        data := data + [Text(line)];
      }
      i := i + 1;
    }
    r := Flush(dec, id, data);
  }

  // ---- Printing ---------------------------------------------------------------------

  /** A line of an event: data, with a space after the colon or without, or any other non-empty
      field or comment. */
  datatype Field = Data(text: seq<Byte>, spaced: bool) | Other(line: seq<Byte>)

  type Event = seq<Field>

  function FieldLine(f: Field): seq<Byte> {
    match f
    case Data(text, spaced) => DATA + (if spaced then [SPACE] else []) + text
    case Other(line) => line
  }

  predicate PlainField(f: Field) {
    && NL !in FieldLine(f) && DropCR(FieldLine(f)) == FieldLine(f)
    && (f.Other? ==> f.line != [] && !IsData(f.line))
    && (f.Data? && !f.spaced ==> f.text == [] || f.text[0] != SPACE)
  }

  predicate PlainEvent(e: Event) {
    forall i | 0 <= i < |e| :: PlainField(e[i])
  }

  predicate Plain(events: seq<Event>) {
    forall i | 0 <= i < |events| :: PlainEvent(events[i])
  }

  function FieldLines(e: Event): (r: seq<seq<Byte>>)
    ensures |r| == |e| && forall i | 0 <= i < |e| :: r[i] == FieldLine(e[i])
  {
    if e == [] then [] else [FieldLine(e[0])] + FieldLines(e[1..])
  }

  /** The lines of a stream: a blank line after each event, the last one only if `closed`. */
  function StreamLines(events: seq<Event>, closed: bool): seq<seq<Byte>> {
    if events == [] then []
    else if |events| == 1 && !closed then FieldLines(events[0])
    else FieldLines(events[0]) + [[]] + StreamLines(events[1..], closed)
  }

  /** Lines written out, the last newline only if `ended`. */
  function Print(lines: seq<seq<Byte>>, ended: bool): seq<Byte> {
    if ended || lines == [] then Unlines(lines) else Unlines(lines[..|lines| - 1]) + lines[|lines| - 1]
  }

  function Texts(e: Event): seq<seq<Byte>> {
    if e == [] then [] else (if e[0].Data? then [e[0].text] else []) + Texts(e[1..])
  }

  /** The first payload with the wanted id, in order. */
  function FirstWanted(dec: Decoder, id: int, events: seq<Event>): Option<Response> {
    if events == [] then None
    else
      var r := Flush(dec, id, Texts(events[0]));
      if r.Some? then r else FirstWanted(dec, id, events[1..])
  }

  lemma TextOfPrinted(f: Field)
    requires PlainField(f) && f.Data?
    ensures FieldLine(f) != [] && IsData(FieldLine(f)) && Text(FieldLine(f)) == f.text
  {
    var line := FieldLine(f);
    assert line[..5] == DATA && line[5..] == (if f.spaced then [SPACE] else []) + f.text;
  }

  lemma TakeField(dec: Decoder, id: int, data: seq<seq<Byte>>, f: Field)
    requires PlainField(f)
    ensures TakeLine(dec, id, Collecting(data), FieldLine(f)) == Collecting(AddText(data, f))
  {
    if f.Data? {
      TextOfPrinted(f);
    }
  }

  function AddText(data: seq<seq<Byte>>, f: Field): seq<seq<Byte>> {
    if f.Data? then data + [f.text] else data
  }

  lemma Regroup<T>(a: seq<T>, b: seq<T>, c: seq<T>)
    ensures a + (b + c) == a + b + c && a + [] == a
  {
  }

  lemma TextsCons(data: seq<seq<Byte>>, e: Event)
    requires e != []
    ensures data + Texts(e) == AddText(data, e[0]) + Texts(e[1..])
  {
    Regroup(data, if e[0].Data? then [e[0].text] else [], Texts(e[1..]));
  }

  lemma FieldLinesCons(e: Event)
    requires e != []
    ensures FieldLines(e) != [] && FieldLines(e)[0] == FieldLine(e[0]) && FieldLines(e)[1..] == FieldLines(e[1..])
  {
  }

  /** Within an event, the decoder collects the data texts and passes over the rest. */
  lemma {:induction false} TakeEvent(dec: Decoder, id: int, data: seq<seq<Byte>>, e: Event)
    requires PlainEvent(e)
    ensures TakeAll(dec, id, Collecting(data), FieldLines(e)) == Collecting(data + Texts(e))
    decreases |e|
  {
    if e == [] {
      assert data + Texts(e) == data;
    } else {
      TakeField(dec, id, data, e[0]);
      FieldLinesCons(e);
      TakeEvent(dec, id, AddText(data, e[0]), e[1..]);
      TextsCons(data, e);
    }
  }

  /** An event and the blank line after it. */
  lemma TakeClosedEvent(dec: Decoder, id: int, e: Event, rest: seq<seq<Byte>>)
    requires PlainEvent(e)
    ensures TakeAll(dec, id, Collecting([]), FieldLines(e) + [[]] + rest) ==
            TakeAll(dec, id, TakeLine(dec, id, Collecting(Texts(e)), []), rest)
  {
    TakeEvent(dec, id, [], e);
    assert [] + Texts(e) == Texts(e);
    assert FieldLines(e) + [[]] + rest == FieldLines(e) + ([[]] + rest);
    TakeAppend(dec, id, Collecting([]), FieldLines(e), [[]] + rest);
    assert ([[]] + rest)[1..] == rest;
  }

  lemma {:induction false} DecodeStream(dec: Decoder, id: int, events: seq<Event>, closed: bool)
    requires Plain(events)
    ensures Finish(dec, id, TakeAll(dec, id, Collecting([]), StreamLines(events, closed)))
      == FirstWanted(dec, id, events)
    decreases |events|
  {
    if events != [] {
      var e := events[0];
      assert PlainEvent(e);
      if |events| == 1 && !closed {
        TakeEvent(dec, id, [], e);
        assert [] + Texts(e) == Texts(e);
        assert FirstWanted(dec, id, events[1..]) == None;
      } else {
        var rest := StreamLines(events[1..], closed);
        TakeClosedEvent(dec, id, e, rest);
        var r := Flush(dec, id, Texts(e));
        if r.Some? {
          FoundStays(dec, id, r.value, rest);
        } else {
          DecodeStream(dec, id, events[1..], closed);
        }
      }
    }
  }

  predicate Clean(l: seq<Byte>) {
    NL !in l && DropCR(l) == l
  }

  lemma {:induction false} StreamLinesPlain(events: seq<Event>, closed: bool)
    requires Plain(events)
    ensures forall i | 0 <= i < |StreamLines(events, closed)| :: Clean(StreamLines(events, closed)[i])
  {
    if events != [] {
      var lines := FieldLines(events[0]);
      assert PlainEvent(events[0]);
      assert forall i | 0 <= i < |lines| :: Clean(lines[i]);
      StreamLinesPlain(events[1..], closed);
    }
  }

  /** Scanning what was printed gives the lines back. */
  lemma ScanPrinted(lines: seq<seq<Byte>>, ended: bool)
    requires forall i | 0 <= i < |lines| :: Clean(lines[i])
    requires !ended && lines != [] ==> lines[|lines| - 1] != []
    ensures ScanLines(Print(lines, ended)) == lines
  {
    if ended || lines == [] {
      LinesOfUnlines(lines, []);
      assert Unlines(lines) + [] == Unlines(lines);
      assert lines + [] == lines;
    } else {
      var n := |lines| - 1;
      LinesOfUnlines(lines[..n], lines[n]);
      assert lines[..n] + [lines[n]] == lines;
    }
  }

  function WithCR(lines: seq<seq<Byte>>): (r: seq<seq<Byte>>)
    ensures |r| == |lines| && forall i | 0 <= i < |lines| :: r[i] == lines[i] + [CR]
  {
    if lines == [] then [] else [lines[0] + [CR]] + WithCR(lines[1..])
  }

  lemma {:induction false} DropEachCR(lines: seq<seq<Byte>>)
    ensures DropAll(WithCR(lines)) == lines
  {
    if lines != [] {
      DropEachCR(lines[1..]);
      assert WithCR(lines)[0] == lines[0] + [CR] && WithCR(lines)[1..] == WithCR(lines[1..]);
      assert (lines[0] + [CR])[..|lines[0]|] == lines[0];
    }
  }

  /** Lines ended by a carriage return and a newline are scanned back as well. */
  lemma ScanCRLF(lines: seq<seq<Byte>>)
    requires forall i | 0 <= i < |lines| :: NL !in lines[i]
    ensures ScanLines(Unlines(WithCR(lines))) == lines
  {
    var ended := WithCR(lines);
    forall l | l in ended ensures NL !in l {
      var i :| 0 <= i < |ended| && ended[i] == l;
      assert l == lines[i] + [CR];
    }
    LinesOfUnlines(ended, []);
    Regroup(Unlines(ended), [], []);
    Regroup(ended, [], []);
    DropEachCR(lines);
  }

  /** So a stream may use either line ending. */
  lemma DecodeCRLF(dec: Decoder, id: int, events: seq<Event>, closed: bool)
    requires Plain(events) && |Unlines(WithCR(StreamLines(events, closed)))| < CAP
    ensures Decode(dec, id, Unlines(WithCR(StreamLines(events, closed)))) == FirstWanted(dec, id, events)
  {
    var lines := StreamLines(events, closed);
    StreamLinesPlain(events, closed);
    assert forall i | 0 <= i < |lines| :: Clean(lines[i]);
    ScanCRLF(lines);
    DecodeWithinCap(dec, id, Unlines(WithCR(lines)));
    DecodeStream(dec, id, events, closed);
  }

  lemma DecodeWithinCap(dec: Decoder, id: int, body: seq<Byte>)
    requires |body| < CAP
    ensures Decode(dec, id, body) == Finish(dec, id, TakeAll(dec, id, Collecting([]), ScanLines(body)))
  {
    assert body[..|body|] == body;
  }

  /** Decoding inverts printing: whatever events are printed, with any other fields among the data
      lines, with or without the last blank line and the last newline, the decoder returns exactly
      the first payload with the wanted id, and fails if there is none. */
  lemma DecodeInvertsPrint(dec: Decoder, id: int, events: seq<Event>, closed: bool, ended: bool)
    requires Plain(events)
    requires var lines := StreamLines(events, closed);
      && |Print(lines, ended)| < CAP
      && (!ended && lines != [] ==> lines[|lines| - 1] != [])
    ensures Decode(dec, id, Print(StreamLines(events, closed), ended)) == FirstWanted(dec, id, events)
  {
    var lines := StreamLines(events, closed);
    StreamLinesPlain(events, closed);
    ScanPrinted(lines, ended);
    DecodeWithinCap(dec, id, Print(lines, ended));
    DecodeStream(dec, id, events, closed);
  }

  /** The event carries `r`: its data lines, joined by newlines, decode to it, and it has the id. */
  predicate Answers(dec: Decoder, id: int, e: Event, r: Response) {
    Texts(e) != [] && dec(Join(Texts(e))) == Some(r) && r.id == Some(id)
  }

  lemma {:induction false} FirstWantedMeaning(dec: Decoder, id: int, events: seq<Event>)
    ensures FirstWanted(dec, id, events).None? <==> forall k, r | 0 <= k < |events| :: !Answers(dec, id, events[k], r)
    ensures forall r :: FirstWanted(dec, id, events) == Some(r) ==>
      exists k | 0 <= k < |events| ::
        Answers(dec, id, events[k], r) && forall j, q | 0 <= j < k :: !Answers(dec, id, events[j], q)
  {
    if events != [] {
      var rest := events[1..];
      FirstWantedMeaning(dec, id, rest);
      assert forall k | 0 < k < |events| :: events[k] == rest[k - 1];
      var first := Flush(dec, id, Texts(events[0]));
      if first.Some? {
        assert Answers(dec, id, events[0], first.value);
      } else {
        assert forall r :: !Answers(dec, id, events[0], r);
        forall r | FirstWanted(dec, id, events) == Some(r)
          ensures exists k | 0 <= k < |events| ::
            Answers(dec, id, events[k], r) && forall j, q | 0 <= j < k :: !Answers(dec, id, events[j], q)
        {
          var k :| 0 <= k < |rest| && Answers(dec, id, rest[k], r)
                   && forall j, q | 0 <= j < k :: !Answers(dec, id, rest[j], q);
          assert Answers(dec, id, events[k + 1], r);
          forall j, q | 0 <= j < k + 1 ensures !Answers(dec, id, events[j], q) {
            if j > 0 {
              assert events[j] == rest[j - 1];
            }
          }
        }
      }
    }
  }

  /** Said by the events alone: reading a printed stream fails exactly when no event carries a response
      with the wanted id, and otherwise returns that of the first event which does. */
  lemma DecodeFindsFirst(dec: Decoder, id: int, events: seq<Event>, closed: bool, ended: bool)
    requires Plain(events)
    requires var lines := StreamLines(events, closed);
      && |Print(lines, ended)| < CAP
      && (!ended && lines != [] ==> lines[|lines| - 1] != [])
    ensures var result := Decode(dec, id, Print(StreamLines(events, closed), ended));
      if result.None? then forall k, r | 0 <= k < |events| :: !Answers(dec, id, events[k], r)
      else exists k | 0 <= k < |events| ::
             Answers(dec, id, events[k], result.value) && forall j, q | 0 <= j < k :: !Answers(dec, id, events[j], q)
  {
    DecodeInvertsPrint(dec, id, events, closed, ended);
    FirstWantedMeaning(dec, id, events);
  }

  /** Nothing past the first 32 MiB is read, and a first line that fills them is an error. */
  lemma DecodeReadsCap(dec: Decoder, id: int, body: seq<Byte>, more: seq<Byte>)
    requires |body| == CAP
    ensures Decode(dec, id, body + more) == Decode(dec, id, body)
    ensures Decode(dec, id, body) ==
      if NL in body then Finish(dec, id, TakeAll(dec, id, Collecting([]), ScanLines(body))) else None
  {
    assert (body + more)[..CAP] == body && body[..CAP] == body;
  }

  // ---- One payload over several data lines ------------------------------------------

  function DataFields(lines: seq<seq<Byte>>): (e: Event)
    ensures |e| == |lines| && forall i | 0 <= i < |e| :: e[i] == Data(lines[i], true)
  {
    if lines == [] then [] else [Data(lines[0], true)] + DataFields(lines[1..])
  }

  /** A payload printed as one data line per line of it. */
  function PayloadEvent(payload: seq<Byte>): Event {
    DataFields(Lines(payload) + [Rest(payload)])
  }

  lemma {:induction false} TextsOfData(lines: seq<seq<Byte>>)
    ensures Texts(DataFields(lines)) == lines
  {
    if lines != [] {
      TextsOfData(lines[1..]);
    }
  }

  /** The decoder puts the lines of a payload together again. */
  lemma PayloadRoundTrip(payload: seq<Byte>)
    ensures Texts(PayloadEvent(payload)) != [] && Join(Texts(PayloadEvent(payload))) == payload
  {
    var lines := Lines(payload) + [Rest(payload)];
    TextsOfData(lines);
    UnlinesOfLines(payload);
    assert lines[..|lines| - 1] == Lines(payload);
  }
}
