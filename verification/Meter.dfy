/** The incremental usage meter of a streamed response and the loop that forwards the stream
    (internal/gateway/usage.go, internal/gateway/handler.go). */
module Meter {
  import opened Prelude
  import opened Bytes

  const LIMIT := 0x10_0000

  const DATA: seq<Byte> := [100, 97, 116, 97, 58]  // data:
  const DONE: seq<Byte> := [91, 68, 79, 78, 69, 93]  // [DONE]

  /** The fields usage.json unmarshals; raw parts are empty when absent. */
  datatype Message = Message(kind: string, status: string, error: Option<string>,
                             usage: seq<Byte>, responseUsage: seq<Byte>, messageUsage: seq<Byte>)

  datatype Counts = Counts(prompt: Option<int>, completion: Option<int>, input: Option<int>, output: Option<int>)

  /** The library calls made on a line: TrimSpace and the two unmarshalings.  A raw error value
      is given as its text. */
  datatype Library = Library(
    trim: seq<Byte> -> seq<Byte>,
    message: seq<Byte> -> Option<Message>,
    counts: seq<Byte> -> Option<Counts>)

  /** The exported fields of `usage`. */
  datatype Totals = Totals(input: Option<int>, output: Option<int>, failed: bool, complete: bool)

  const ZERO := Totals(None, None, false, false)

  function Kept(was: Option<int>, preferred: Option<int>, other: Option<int>): Option<int> {
    var n := if preferred.Some? then preferred else other;
    if n.Some? && n.value >= 0 then n else was
  }

  predicate MessageFails(m: Message) {
    || (m.error.Some? && m.error.value != "" && m.error.value != "null")
    || m.kind == "error" || m.kind == "response.failed" || m.kind == "response.incomplete"
    || m.status == "failed" || m.status == "incomplete"
  }

  predicate MessageEnds(m: Message) {
    m.kind == "response.completed" || m.kind == "message_stop"
  }

  function UsageOf(m: Message): seq<Byte> {
    if m.usage != [] then m.usage else if m.responseUsage != [] then m.responseUsage else m.messageUsage
  }

  function Json(lib: Library, u: Totals, data: seq<Byte>): Totals {
    match lib.message(data)
    case None => u
    case Some(m) =>
      var flagged := u.(failed := u.failed || MessageFails(m), complete := u.complete || MessageEnds(m));
      match lib.counts(UsageOf(m))
      case None => flagged
      case Some(c) => flagged.(input := Kept(u.input, c.input, c.prompt),
        output := Kept(u.output, c.output, c.completion))
  }

  /** The payload of a data line. */
  function Payload(lib: Library, line: seq<Byte>): Option<seq<Byte>> {
    var trimmed := lib.trim(line);
    if HasPrefix(trimmed, DATA) then Some(lib.trim(trimmed[5..])) else None
  }

  function HandleLine(lib: Library, u: Totals, line: seq<Byte>): Totals {
    match Payload(lib, line)
    case None => u
    case Some(data) => if data == DONE then u.(complete := true) else Json(lib, u, data)
  }

  /** Fold the line handler over the lines that fit the limit. */
  function HandleAll(lib: Library, lines: seq<seq<Byte>>): Totals
    decreases |lines|
  {
    if lines == [] then ZERO
    else
      var u := HandleAll(lib, lines[..|lines| - 1]);
      if |lines[|lines| - 1]| <= LIMIT then HandleLine(lib, u, lines[|lines| - 1]) else u
  }

  const END_KINDS := {"response.completed", "message_stop"}
  const FAILED_KINDS := {"error", "response.failed", "response.incomplete"}
  const FAILED_STATUSES := {"failed", "incomplete"}

  /** The text of a data line: what follows the prefix, both ends trimmed. */
  ghost predicate DataLine(lib: Library, line: seq<Byte>, data: seq<Byte>) {
    lib.trim(line)[..Min(|lib.trim(line)|, 5)] == DATA && data == lib.trim(lib.trim(line)[5..])
  }

  /** A line after which the stream counts as ended. */
  ghost predicate Terminal(lib: Library, line: seq<Byte>) {
    exists data :: DataLine(lib, line, data)
                   && (data == DONE || (lib.message(data).Some? && lib.message(data).value.kind in END_KINDS))
  }

  /** A line that reports an error. */
  ghost predicate Failing(lib: Library, line: seq<Byte>) {
    exists data :: DataLine(lib, line, data) && data != DONE && lib.message(data).Some?
      && ReportsError(lib.message(data).value)
  }

  predicate ReportsError(m: Message) {
    m.kind in FAILED_KINDS || m.status in FAILED_STATUSES || (m.error.Some? && m.error.value !in {"", "null"})
  }

  lemma ReportsErrorExactly(m: Message)
    ensures ReportsError(m) <==> MessageFails(m)
    ensures m.kind in END_KINDS <==> MessageEnds(m)
  {
  }

  lemma LineFlags(lib: Library, u: Totals, line: seq<Byte>)
    ensures HandleLine(lib, u, line).complete <==> u.complete || Terminal(lib, line)
    ensures HandleLine(lib, u, line).failed <==> u.failed || Failing(lib, line)
  {
    var p := Payload(lib, line);
    forall data ensures DataLine(lib, line, data) <==> p == Some(data) {
    }
    if p.Some? && lib.message(p.value).Some? {
      ReportsErrorExactly(lib.message(p.value).value);
    }
  }

  /** All the fields of `usage`. */
  datatype State = State(totals: Totals, pending: seq<Byte>, skipping: bool)

  const START := State(ZERO, [], false)

  function Feed(lib: Library, s: State, b: Byte): State {
    if b == NL then State(if s.skipping then s.totals else HandleLine(lib, s.totals, s.pending), [], false)
    else if s.skipping then s
    else if |s.pending| >= LIMIT then State(s.totals, [], true)
    else s.(pending := s.pending + [b])
  }

  function FeedAll(lib: Library, s: State, p: seq<Byte>): State
    decreases |p|
  {
    if p == [] then s else Feed(lib, FeedAll(lib, s, p[..|p| - 1]), p[|p| - 1])
  }

  /** What the state is after a stream, said from its lines. */
  function Summary(lib: Library, stream: seq<Byte>): State {
    var rest := Rest(stream);
    State(HandleAll(lib, Lines(stream)), if |rest| <= LIMIT then rest else [], |rest| > LIMIT)
  }

  /** Feeding byte by byte is folding over the complete lines. */
  lemma {:induction false} FeedIsSummary(lib: Library, stream: seq<Byte>)
    ensures FeedAll(lib, START, stream) == Summary(lib, stream)
    decreases |stream|
  {
    if stream != [] {
      var n := |stream| - 1;
      FeedIsSummary(lib, stream[..n]);
      if stream[n] == NL {
        assert Lines(stream) == Lines(stream[..n]) + [Rest(stream[..n])];
        assert Lines(stream)[..|Lines(stream)| - 1] == Lines(stream[..n]);
      }
    }
  }

  lemma {:induction false} FeedAppend(lib: Library, s: State, p: seq<Byte>, q: seq<Byte>)
    ensures FeedAll(lib, s, p + q) == FeedAll(lib, FeedAll(lib, s, p), q)
    decreases |q|
  {
    if q == [] {
      assert p + q == p;
    } else {
      var n := |q| - 1;
      assert (p + q)[..|p + q| - 1] == p + q[..n];
      FeedAppend(lib, s, p, q[..n]);
    }
  }

  function Concat(chunks: seq<seq<Byte>>): seq<Byte>
    decreases |chunks|
  {
    if chunks == [] then [] else Concat(chunks[..|chunks| - 1]) + chunks[|chunks| - 1]
  }

  function WriteAll(lib: Library, s: State, chunks: seq<seq<Byte>>): State
    decreases |chunks|
  {
    if chunks == [] then s else FeedAll(lib, WriteAll(lib, s, chunks[..|chunks| - 1]), chunks[|chunks| - 1])
  }

  /** However a stream is cut into writes, the meter ends in the state its bytes determine, and
      never holds more than the limit. */
  lemma {:induction false} ChunksDoNotMatter(lib: Library, chunks: seq<seq<Byte>>)
    ensures WriteAll(lib, START, chunks) == Summary(lib, Concat(chunks))
    ensures |WriteAll(lib, START, chunks).pending| <= LIMIT
    decreases |chunks|
  {
    FeedIsSummary(lib, Concat(chunks));
    if chunks != [] {
      var n := |chunks| - 1;
      ChunksDoNotMatter(lib, chunks[..n]);
      FeedIsSummary(lib, Concat(chunks[..n]));
      FeedAppend(lib, START, Concat(chunks[..n]), chunks[n]);
    }
  }

  /** Complete and Failed say exactly whether a kept line was terminal, or failing. */
  lemma {:induction false} FlagsExactly(lib: Library, lines: seq<seq<Byte>>)
    ensures HandleAll(lib, lines).complete <==>
      exists i | 0 <= i < |lines| :: |lines[i]| <= LIMIT && Terminal(lib, lines[i])
    ensures HandleAll(lib, lines).failed <==>
      exists i | 0 <= i < |lines| :: |lines[i]| <= LIMIT && Failing(lib, lines[i])
    decreases |lines|
  {
    if lines != [] {
      var n := |lines| - 1;
      var init := lines[..n];
      FlagsExactly(lib, init);
      LineFlags(lib, HandleAll(lib, init), lines[n]);
      assert forall i | 0 <= i < n :: init[i] == lines[i];
    }
  }

  // ---- Token counts -----------------------------------------------------------------

  /** The counts a line reports, if it is a data line that unmarshals. */
  ghost function CountsIn(lib: Library, line: seq<Byte>): Option<Counts> {
    match Payload(lib, line)
    case None => None
    case Some(data) =>
      if data == DONE || lib.message(data).None? then None
      else lib.counts(FirstGiven(lib.message(data).value))
  }

  /** Usage of a chat completion, of a finished response, or of a started message. */
  function FirstGiven(m: Message): (raw: seq<Byte>)
    ensures m.usage != [] ==> raw == m.usage
    ensures m.usage == [] && m.responseUsage != [] ==> raw == m.responseUsage
    ensures m.usage == [] && m.responseUsage == [] ==> raw == m.messageUsage
  {
    UsageOf(m)
  }

  /** The first form if it is there, else the second, unless that is negative. */
  function Reported(preferred: Option<int>, other: Option<int>): Option<int> {
    var n := if preferred.Some? then preferred else other;
    if n.Some? && n.value < 0 then None else n
  }

  ghost function InputIn(lib: Library, line: seq<Byte>): Option<int> {
    match CountsIn(lib, line)
    case None => None
    case Some(c) => Reported(c.input, c.prompt)
  }

  ghost function OutputIn(lib: Library, line: seq<Byte>): Option<int> {
    match CountsIn(lib, line)
    case None => None
    case Some(c) => Reported(c.output, c.completion)
  }

  /** `total` is the last value the kept lines report, or None when they report none. */
  ghost predicate LastReported(lines: seq<seq<Byte>>, report: seq<Byte> -> Option<int>, total: Option<int>) {
    if total.None? then forall i | 0 <= i < |lines| && |lines[i]| <= LIMIT :: report(lines[i]) == None
    else exists i | 0 <= i < |lines| ::
           && |lines[i]| <= LIMIT && report(lines[i]) == total
           && forall j | i < j < |lines| && |lines[j]| <= LIMIT :: report(lines[j]) == None
  }

  lemma HandleLineCounts(lib: Library, u: Totals, line: seq<Byte>)
    ensures HandleLine(lib, u, line).input == if InputIn(lib, line).Some? then InputIn(lib, line) else u.input
    ensures HandleLine(lib, u, line).output == if OutputIn(lib, line).Some? then OutputIn(lib, line) else u.output
  {
  }

  lemma LastReportedNext(lines: seq<seq<Byte>>, line: seq<Byte>, report: seq<Byte> -> Option<int>, total: Option<int>)
    requires LastReported(lines, report, total)
    ensures LastReported(lines + [line], report, if |line| <= LIMIT && report(line).Some? then report(line) else total)
  {
    var all := lines + [line];
    assert all[|lines|] == line && forall i | 0 <= i < |lines| :: all[i] == lines[i];
    if !(|line| <= LIMIT && report(line).Some?) && total.Some? {
      var i :| 0 <= i < |lines| && |lines[i]| <= LIMIT && report(lines[i]) == total
               && forall j | i < j < |lines| && |lines[j]| <= LIMIT :: report(lines[j]) == None;
      assert all[i] == lines[i];
    }
  }

  /** Input and Output are the last counts reported by the kept lines; a negative one is passed over. */
  lemma {:induction false} CountsExactly(lib: Library, lines: seq<seq<Byte>>)
    ensures LastReported(lines, line => InputIn(lib, line), HandleAll(lib, lines).input)
    ensures LastReported(lines, line => OutputIn(lib, line), HandleAll(lib, lines).output)
    decreases |lines|
  {
    if lines != [] {
      var n := |lines| - 1;
      var u := HandleAll(lib, lines[..n]);
      CountsExactly(lib, lines[..n]);
      HandleLineCounts(lib, u, lines[n]);
      assert lines == lines[..n] + [lines[n]];
      LastReportedNext(lines[..n], lines[n], line => InputIn(lib, line), u.input);
      LastReportedNext(lines[..n], lines[n], line => OutputIn(lib, line), u.output);
    }
  }

  /** More input never takes Failed or Complete back. */
  lemma {:induction false} FlagsStay(lib: Library, s: State, more: seq<Byte>)
    ensures s.totals.failed ==> FeedAll(lib, s, more).totals.failed
    ensures s.totals.complete ==> FeedAll(lib, s, more).totals.complete
    decreases |more|
  {
    if more != [] {
      FlagsStay(lib, s, more[..|more| - 1]);
    }
  }

  /** Among the complete lines within the limit, one is terminal; one reports an error. */
  ghost predicate SawEnd(lib: Library, stream: seq<Byte>) {
    exists i | 0 <= i < |Lines(stream)| :: |Lines(stream)[i]| <= LIMIT && Terminal(lib, Lines(stream)[i])
  }

  ghost predicate SawError(lib: Library, stream: seq<Byte>) {
    exists i | 0 <= i < |Lines(stream)| :: |Lines(stream)[i]| <= LIMIT && Failing(lib, Lines(stream)[i])
  }

  lemma FlagsOfStream(lib: Library, stream: seq<Byte>)
    ensures FeedAll(lib, START, stream) == Summary(lib, stream)
    ensures FeedAll(lib, START, stream).totals.complete <==> SawEnd(lib, stream)
    ensures FeedAll(lib, START, stream).totals.failed <==> SawError(lib, stream)
  {
    FeedIsSummary(lib, stream);
    FlagsExactly(lib, Lines(stream));
  }

  // ---- The meter --------------------------------------------------------------------

  class Usage {
    const lib: Library
    var input: Option<int>
    var output: Option<int>
    var failed: bool
    var complete: bool
    var pending: seq<Byte>
    var skipping: bool

    ghost function Now(): State
      reads this
    {
      State(Totals(input, output, failed, complete), pending, skipping)
    }

    constructor (lib: Library)
      ensures this.lib == lib && Now() == START
    {
      this.lib := lib;
      input, output, failed, complete, pending, skipping := None, None, false, false, [], false;
    }

    /** usage.json */
    method Observe(data: seq<Byte>)
      modifies this
      ensures Now() == old(Now()).(totals := Json(lib, old(Now()).totals, data))
    {
      var parsed := lib.message(data);
      if parsed.None? {
        return;
      }
      var m := parsed.value;
      failed := failed || MessageFails(m);
      complete := complete || MessageEnds(m);
      var counts := lib.counts(UsageOf(m));
      if counts.Some? {
        input := Kept(input, counts.value.input, counts.value.prompt);
        output := Kept(output, counts.value.output, counts.value.completion);
      }
    }

    method Write(p: seq<Byte>)
      modifies this
      ensures Now() == FeedAll(lib, old(Now()), p)
    {
      var i := 0;
      while i < |p|
        invariant 0 <= i <= |p|
        invariant Now() == FeedAll(lib, old(Now()), p[..i])
      {
        var b := p[i];
        assert p[..i + 1][..i] == p[..i];
        if b == NL {
          if !skipping {
            var line := lib.trim(pending);
            if HasPrefix(line, DATA) {
              var data := lib.trim(line[5..]);
              if data == DONE {
                complete := true;
              } else {
                Observe(data);
              }
            }
          }
          pending := [];
          skipping := false;
        } else if !skipping {
          if |pending| >= LIMIT {
            pending := [];
            skipping := true;
          } else {
            pending := pending + [b];
          }
        }
        i := i + 1;
      }
      assert p[..i] == p;
    }
  }

  // ---- The forwarding loop ----------------------------------------------------------

  datatype ReadError = NoError | EndOfFile | Broken
  datatype Read = Read(bytes: seq<Byte>, error: ReadError)

  datatype Verdict = Allowed | ClientGone | Interrupted | EndedEarly

  /** The body of the response: reads without an error, then one with it. */
  predicate Body(parts: seq<Read>) {
    parts != [] && parts[|parts| - 1].error != NoError && forall i | 0 <= i < |parts| - 1 :: parts[i].error == NoError
  }

  /** The client takes every part that carries bytes. */
  ghost predicate Accepted(parts: seq<Read>, accepts: nat -> bool) {
    forall i | 0 <= i < |parts| && parts[i].bytes != [] :: accepts(i)
  }

  function BytesOf(parts: seq<Read>): seq<Byte>
    decreases |parts|
  {
    if parts == [] then [] else BytesOf(parts[..|parts| - 1]) + parts[|parts| - 1].bytes
  }

  lemma BytesOfNext(parts: seq<Read>, i: nat)
    requires i < |parts|
    ensures BytesOf(parts[..i + 1]) == BytesOf(parts[..i]) + parts[i].bytes
  {
    assert parts[..i + 1][..i] == parts[..i];
  }

  lemma {:induction false} BytesOfPrefix(parts: seq<Read>, k: nat)
    requires k <= |parts|
    ensures BytesOf(parts[..k]) <= BytesOf(parts)
    decreases |parts|
  {
    if k == |parts| {
      assert parts[..k] == parts;
    } else {
      assert parts[..|parts| - 1][..k] == parts[..k];
      BytesOfPrefix(parts[..|parts| - 1], k);
    }
  }

  /** The loop of infer over the upstream body.  `accepts(i)` says whether writing and flushing
      the i-th read to the client works.  None means the client went away. */
  method Pump(lib: Library, parts: seq<Read>, accepts: nat -> bool)
    returns (end: Option<ReadError>, sent: seq<Byte>, meter: Usage)
    requires Body(parts)
    ensures end.Some? <==> Accepted(parts, accepts)
    ensures end.Some? ==>
      end.value == parts[|parts| - 1].error && sent == BytesOf(parts) && meter.Now() == FeedAll(lib, START, sent)
    ensures sent <= BytesOf(parts)
  {
    meter := new Usage(lib);
    sent := [];
    var i := 0;
    while true
      invariant 0 <= i < |parts|
      invariant fresh(meter) && meter.lib == lib
      invariant sent == BytesOf(parts[..i])
      invariant meter.Now() == FeedAll(lib, START, sent)
      invariant forall j | 0 <= j < i && parts[j].bytes != [] :: accepts(j)
      decreases |parts| - i
    {
      var part := parts[i];
      BytesOfNext(parts, i);
      if part.bytes != [] {
        meter.Write(part.bytes);
        if !accepts(i) {
          BytesOfPrefix(parts, i);
          return None, sent, meter;
        }
        FeedAppend(lib, START, sent, part.bytes);
        sent := sent + part.bytes;
      }
      assert sent == BytesOf(parts[..i + 1]);
      if part.error != NoError {
        assert parts[..i + 1] == parts;
        return Some(part.error), sent, meter;
      }
      i := i + 1;
    }
  }

  /** What infer records for a streamed call.  It is allowed exactly when every byte up to the end
      of the upstream body was forwarded, in order, and among its complete lines within the
      limit one was terminal and none reported an error. */
  method Forward(lib: Library, parts: seq<Read>, accepts: nat -> bool) returns (verdict: Verdict, sent: seq<Byte>)
    requires Body(parts)
    ensures verdict == Allowed <==>
            && parts[|parts| - 1].error == EndOfFile
            && Accepted(parts, accepts)
            && SawEnd(lib, BytesOf(parts)) && !SawError(lib, BytesOf(parts))
    ensures verdict == ClientGone <==> !Accepted(parts, accepts)
    ensures verdict == Interrupted <==> Accepted(parts, accepts) && parts[|parts| - 1].error == Broken
    ensures verdict == EndedEarly <==>
            && Accepted(parts, accepts) && parts[|parts| - 1].error == EndOfFile
            && (!SawEnd(lib, BytesOf(parts)) || SawError(lib, BytesOf(parts)))
    ensures verdict != ClientGone ==> sent == BytesOf(parts)
    ensures sent <= BytesOf(parts)
  {
    var end, meter;
    end, sent, meter := Pump(lib, parts, accepts);
    FlagsOfStream(lib, sent);
    if end.None? {
      verdict := ClientGone;
    } else if end.value != EndOfFile {
      verdict := Interrupted;
    } else if meter.failed || !meter.complete {
      verdict := EndedEarly;
    } else {
      verdict := Allowed;
    }
  }
}
