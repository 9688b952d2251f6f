/**
  Pod logs on the wire: the hub prints server-sent events (sections 9.2.5 and 9.2.6 of the
  WHATWG HTML Standard), the hub client parses them back.
  Sources: internal/server/handlers_logs.go, internal/mcp/hubclient/client.go.
 */
module Sse {
  import opened Text

  /** sseMaxLineBytes: the scanner gives up on a line that fills this buffer. */
  const MAX_LINE: nat := 0x10_0000

  // ---------------------------------------------------------------- printer

  /** strings.ReplaceAll(line, "\r\n", "\n") */
  function NormalizeNewlines(line: string): string {
    if line == "" then ""
    else if |line| >= 2 && line[0] == '\r' && line[1] == '\n' then "\n" + NormalizeNewlines(line[2..])
    else [line[0]] + NormalizeNewlines(line[1..])
  }

  /** The `data` payloads of one log line. */
  function Parts(line: string): (parts: seq<string>)
    ensures |parts| >= 1
    ensures forall i :: 0 <= i < |parts| ==> '\n' !in parts[i]
  {
    Split(NormalizeNewlines(line), '\n')
  }

  /** A list of newline-free lines as text. */
  function Unlines(lines: seq<string>): string {
    if lines == [] then "" else lines[0] + "\n" + Unlines(lines[1..])
  }

  function Prefixed(parts: seq<string>): (fields: seq<string>)
    ensures |fields| == |parts|
  {
    if parts == [] then [] else ["data: " + parts[0]] + Prefixed(parts[1..])
  }

  lemma {:induction false} PrefixedAt(parts: seq<string>, i: nat)
    requires i < |parts|
    ensures Prefixed(parts)[i] == "data: " + parts[i]
  {
    if i > 0 { PrefixedAt(parts[1..], i - 1); }
  }

  /** What the relay loop writes between opening a stream and its terminal event. */
  datatype Chunk = LogLine(text: string) | KeepAlive

  function ChunkFields(chunk: Chunk): seq<string> {
    match chunk
    case LogLine(text) => Prefixed(Parts(text)) + [""]
    case KeepAlive => [": keep-alive", ""]
  }

  function Fields(chunks: seq<Chunk>): seq<string> {
    if chunks == [] then [] else ChunkFields(chunks[0]) + Fields(chunks[1..])
  }

  function EventFields(name: string, payload: string): seq<string> {
    ["event: " + name, "data: " + payload, ""]
  }

  function PrintChunk(chunk: Chunk): string { Unlines(ChunkFields(chunk)) }
  function PrintChunks(chunks: seq<Chunk>): string { Unlines(Fields(chunks)) }
  function PrintEvent(name: string, payload: string): string { Unlines(EventFields(name, payload)) }
  function PrintEnd(): string { PrintEvent("end", "{}") }

  /** writeSSEData: every part gets its own field, a blank line closes the event. */
  method WriteData(out: string, line: string) returns (written: string)
    ensures written == out + PrintChunk(LogLine(line))
  {
    var parts := Parts(line);
    written := out;
    for i := 0 to |parts|
      invariant written == out + Unlines(Prefixed(parts)[..i])
    {
      PrefixedAt(parts, i);
      UnlinesSnoc(Prefixed(parts), i);
      ConcatAssoc(out, Unlines(Prefixed(parts)[..i]), "data: " + parts[i] + "\n");
      written := written + ("data: " + parts[i] + "\n");
    }
    assert Prefixed(parts)[..|parts|] == Prefixed(parts);
    UnlinesAppend(Prefixed(parts), [""]);
    assert Unlines([""]) == "\n";
    ConcatAssoc(out, Unlines(Prefixed(parts)), "\n");
    written := written + "\n";
  }

  // ---------------------------------------------------------------- parser

  /** bufio.ScanLines drops one trailing carriage return. */
  function DropCr(line: string): string {
    if line != "" && line[|line| - 1] == '\r' then line[..|line| - 1] else line
  }

  /** The four variables of readLogEvents. */
  datatype Reader = Reader(event: string, data: seq<string>, hasData: bool, lines: seq<string>)

  datatype Outcome =
    | Complete(lines: seq<string>)     // the end event arrived
    | StreamFailed(message: string)    // a stream-error event arrived
    | ScanFailed                       // transport error or an over-long line
    | Unfinished                       // the text stopped before a terminal event

  datatype Progress = More(reader: Reader) | Done(outcome: Outcome)

  function Idle(lines: seq<string>): Reader { Reader("", [], false, lines) }

  /** One scanned line. */
  function Feed(r: Reader, field: string): Progress {
    if field == "" then
      if r.event == "" || r.event == "message" then
        More(Idle(if r.hasData then r.lines + [Join(r.data, "\n")] else r.lines))
      else if r.event == "end" then Done(Complete(r.lines))
      else if r.event == "stream-error" then Done(StreamFailed(Join(r.data, "\n")))
      else More(Idle(r.lines))
    else if field[0] == ':' then More(r)
    else
      var name, value := Cut(field, ':').0, TrimByte(Cut(field, ':').1, ' ');
      if name == "event" then More(r.(event := value))
      else if name == "data" then More(r.(data := r.data + [value], hasData := true))
      else More(r)
  }

  function Exhausted(readError: bool): Outcome {
    if readError then ScanFailed else Unfinished
  }

  /** The whole parser as a function of the text received and of whether reading it failed. */
  function Parse(r: Reader, text: string, readError: bool): Outcome
    decreases |text|
  {
    var i := IndexOf(text, '\n');
    if i >= MAX_LINE then ScanFailed
    else if i == |text| then
      if text == "" then Exhausted(readError)
      else match Feed(r, DropCr(text)) case Done(o) => o case More(_) => Exhausted(readError)
    else
      match Feed(r, DropCr(text[..i]))
      case Done(o) => o
      case More(r') => Parse(r', text[i + 1..], readError)
  }

  function ParseBody(text: string, readError: bool): Outcome { Parse(Idle([]), text, readError) }

  function Resume(p: Progress, rest: string, readError: bool): Outcome {
    if p.Done? then p.outcome else Parse(p.reader, rest, readError)
  }

  /** One turn of the scanning loop. */
  lemma ParseStep(r: Reader, text: string, readError: bool)
    requires text != "" && IndexOf(text, '\n') < MAX_LINE
    ensures Parse(r, text, readError) == Resume(Feed(r, DropCr(Cut(text, '\n').0)), Cut(text, '\n').1, readError)
  {
    var i := IndexOf(text, '\n');
    if i == |text| {
      assert text[..i] == text;
    }
  }

  /** readLogEvents */
  method ReadLogEvents(body: string, readError: bool) returns (outcome: Outcome)
    ensures outcome == ParseBody(body, readError)
  {
    var lines: seq<string> := [];
    var event := "";
    var data: seq<string> := [];
    var hasData := false;
    var rest := body;
    while rest != ""
      invariant ParseBody(body, readError) == Parse(Reader(event, data, hasData, lines), rest, readError)
      decreases |rest|
    {
      var i := IndexOf(rest, '\n');
      if i >= MAX_LINE { return ScanFailed; }
      ParseStep(Reader(event, data, hasData, lines), rest, readError);
      var field := DropCr(Cut(rest, '\n').0);
      rest := Cut(rest, '\n').1;
      if field == "" {
        if event == "" || event == "message" {
          if hasData { lines := lines + [Join(data, "\n")]; }
        } else if event == "end" {
          return Complete(lines);
        } else if event == "stream-error" {
          return StreamFailed(Join(data, "\n"));
        }
        event, data, hasData := "", [], false;
        continue;
      }
      if field[0] == ':' { continue; }
      var name, value := Cut(field, ':').0, TrimByte(Cut(field, ':').1, ' ');
      if name == "event" {
        event := value;
      } else if name == "data" {
        data := data + [value];
        hasData := true;
      }
    }
    outcome := Exhausted(readError);
  }

  // ---------------------------------------------------------------- lemmas on lines

  lemma {:induction false} UnlinesAppend(a: seq<string>, b: seq<string>)
    ensures Unlines(a + b) == Unlines(a) + Unlines(b)
  {
    if a == [] {
      assert a + b == b;
    } else {
      UnlinesAppend(a[1..], b);
      assert (a + b)[1..] == a[1..] + b;
    }
  }

  lemma UnlinesSnoc(lines: seq<string>, i: nat)
    requires i < |lines|
    ensures Unlines(lines[..i + 1]) == Unlines(lines[..i]) + (lines[i] + "\n")
  {
    assert lines[..i + 1] == lines[..i] + [lines[i]];
    UnlinesAppend(lines[..i], [lines[i]]);
    assert Unlines([lines[i]]) == lines[i] + "\n" + Unlines([]);
  }

  lemma {:induction false} FieldsAppend(a: seq<Chunk>, b: seq<Chunk>)
    ensures Fields(a + b) == Fields(a) + Fields(b)
  {
    if a == [] {
      assert a + b == b;
    } else {
      FieldsAppend(a[1..], b);
      assert (a + b)[1..] == a[1..] + b;
      ConcatAssoc(ChunkFields(a[0]), Fields(a[1..]), Fields(b));
    }
  }

  /** Appending a chunk appends its text. */
  lemma PrintAppend(chunks: seq<Chunk>, chunk: Chunk)
    ensures PrintChunks(chunks + [chunk]) == PrintChunks(chunks) + PrintChunk(chunk)
  {
    FieldsAppend(chunks, [chunk]);
    assert Fields([chunk]) == ChunkFields(chunk) + [] == ChunkFields(chunk);
    UnlinesAppend(Fields(chunks), ChunkFields(chunk));
  }

  ghost predicate Printable(fields: seq<string>) {
    forall i :: 0 <= i < |fields| ==> '\n' !in fields[i] && (fields[i] == "" || fields[i][0] in "d:e")
  }

  lemma ChunkPrintable(chunk: Chunk)
    ensures Printable(ChunkFields(chunk))
  {
    if chunk.LogLine? {
      var parts := Parts(chunk.text);
      forall i | 0 <= i < |parts|
        ensures Prefixed(parts)[i] == "data: " + parts[i]
      {
        PrefixedAt(parts, i);
      }
    }
  }

  lemma EventPrintable(name: string, payload: string)
    requires name == "end" || name == "stream-error"
    requires '\n' !in payload
    ensures Printable(EventFields(name, payload))
    ensures |payload| + 6 < MAX_LINE ==> Fit(EventFields(name, payload))
  {
    assert '\n' !in name;
  }

  lemma {:induction false} ChunksPrintable(chunks: seq<Chunk>)
    ensures Printable(Fields(chunks))
  {
    if chunks != [] {
      ChunksPrintable(chunks[1..]);
      ChunkPrintable(chunks[0]);
    }
  }

  /** Feeding a list of raw lines. */
  function FeedAll(r: Reader, fields: seq<string>): Progress
    decreases |fields|
  {
    if fields == [] then More(r)
    else match Feed(r, DropCr(fields[0]))
      case Done(o) => Done(o)
      case More(r') => FeedAll(r', fields[1..])
  }

  lemma {:induction false} FeedAllAppend(r: Reader, a: seq<string>, b: seq<string>)
    ensures FeedAll(r, a + b)
         == if FeedAll(r, a).Done? then FeedAll(r, a) else FeedAll(FeedAll(r, a).reader, b)
    decreases |a|
  {
    if a == [] {
      assert a + b == b;
    } else {
      assert (a + b)[1..] == a[1..] + b;
      match Feed(r, DropCr(a[0]))
      case Done(_) =>
      case More(r') => FeedAllAppend(r', a[1..], b);
    }
  }

  ghost predicate Fit(fields: seq<string>) {
    forall i :: 0 <= i < |fields| ==> |fields[i]| < MAX_LINE
  }

  lemma FirstNewline(line: string, rest: string)
    requires '\n' !in line
    ensures IndexOf(line + "\n" + rest, '\n') == |line|
    ensures (line + "\n" + rest)[..|line|] == line
    ensures (line + "\n" + rest)[|line| + 1..] == rest
  {
    var s := line + "\n" + rest;
    assert s[..|line|] == line;
    IndexOfFirst(s, '\n', |line|);
  }

  /** Lines that fit the scanner are consumed one by one. */
  lemma {:induction false} ParseLines(r: Reader, fields: seq<string>, tail: string, readError: bool)
    requires Printable(fields) && Fit(fields)
    ensures Parse(r, Unlines(fields) + tail, readError)
         == Resume(FeedAll(r, fields), tail, readError)
    decreases |fields|
  {
    if fields == [] {
      assert Unlines(fields) + tail == tail;
    } else {
      var rest := Unlines(fields[1..]) + tail;
      assert Unlines(fields) + tail == fields[0] + "\n" + rest;
      FirstNewline(fields[0], rest);
      match Feed(r, DropCr(fields[0]))
      case Done(_) =>
      case More(r') => ParseLines(r', fields[1..], tail, readError);
    }
  }

  /** An over-long line ends the scan unless a terminal event came first. */
  lemma FeedPrefixes(r: Reader, fields: seq<string>)
    requires |fields| > 1 && forall k :: 0 <= k < |fields| ==> FeedAll(r, fields[..k]).More?
    ensures Feed(r, DropCr(fields[0])).More?
    ensures forall k :: 0 <= k < |fields[1..]| ==> FeedAll(Feed(r, DropCr(fields[0])).reader, fields[1..][..k]).More?
  {
    assert fields[..1] == [fields[0]];
    assert FeedAll(r, fields[..1]) == Feed(r, DropCr(fields[0]));
    forall k | 0 <= k < |fields[1..]|
      ensures FeedAll(Feed(r, DropCr(fields[0])).reader, fields[1..][..k]).More?
    {
      assert fields[..k + 1][1..] == fields[1..][..k];
    }
  }

  lemma {:induction false} ParseOverlong(r: Reader, fields: seq<string>, tail: string, readError: bool)
    requires Printable(fields) && !Fit(fields)
    requires forall k :: 0 <= k < |fields| ==> FeedAll(r, fields[..k]).More?
    ensures Parse(r, Unlines(fields) + tail, readError) == ScanFailed
    decreases |fields|
  {
    var rest := Unlines(fields[1..]) + tail;
    assert Unlines(fields) + tail == fields[0] + "\n" + rest;
    FirstNewline(fields[0], rest);
    if |fields[0]| < MAX_LINE {
      assert fields[1..] != [];
      FeedPrefixes(r, fields);
      var r' := Feed(r, DropCr(fields[0])).reader;
      ParseOverlong(r', fields[1..], tail, readError);
    }
  }

  // ---------------------------------------------------------------- what the client sees of a line

  function DropEach(parts: seq<string>): (dropped: seq<string>)
    ensures |dropped| == |parts|
  {
    if parts == [] then [] else [DropCr(parts[0])] + DropEach(parts[1..])
  }

  lemma {:induction false} DropEachAt(parts: seq<string>, i: nat)
    requires i < |parts|
    ensures DropEach(parts)[i] == DropCr(parts[i])
  {
    if i > 0 { DropEachAt(parts[1..], i - 1); }
  }

  function Received(line: string): string { Join(DropEach(Parts(line)), "\n") }

  function ReceivedChunks(chunks: seq<Chunk>): seq<string> {
    if chunks == [] then []
    else (if chunks[0].LogLine? then [Received(chunks[0].text)] else []) + ReceivedChunks(chunks[1..])
  }

  lemma {:induction false} ReceivedAppend(a: seq<Chunk>, b: seq<Chunk>)
    ensures ReceivedChunks(a + b) == ReceivedChunks(a) + ReceivedChunks(b)
  {
    if a == [] {
      assert a + b == b;
    } else {
      ReceivedAppend(a[1..], b);
      assert (a + b)[1..] == a[1..] + b;
    }
  }

  lemma FeedData(r: Reader, part: string)
    ensures Feed(r, DropCr("data: " + part)) == More(r.(data := r.data + [DropCr(part)], hasData := true))
  {
    var value := DropCr(part);
    var field := "data: " + value;
    var raw := "data: " + part;
    if part != "" && part[|part| - 1] == '\r' {
      assert raw[..|raw| - 1] == field;
    } else {
      assert raw == field;
    }
    assert DropCr(raw) == field;
    assert field[..4] == "data";
    IndexOfFirst(field, ':', 4);
    assert field[5..] == " " + value;
    assert field[5..][1..] == value;
  }

  lemma {:induction false} FeedParts(r: Reader, parts: seq<string>)
    ensures FeedAll(r, Prefixed(parts))
         == More(r.(data := r.data + DropEach(parts), hasData := r.hasData || parts != []))
    decreases |parts|
  {
    if parts == [] {
      assert r.data + DropEach(parts) == r.data;
    } else {
      FeedData(r, parts[0]);
      var r' := r.(data := r.data + [DropCr(parts[0])], hasData := true);
      FeedParts(r', parts[1..]);
      ConcatAssoc(r.data, [DropCr(parts[0])], DropEach(parts[1..]));
    }
  }

  lemma FeedChunk(lines: seq<string>, chunk: Chunk)
    ensures FeedAll(Idle(lines), ChunkFields(chunk)) == More(Idle(lines + ReceivedChunks([chunk])))
  {
    match chunk
    case LogLine(text) =>
      var parts := Parts(text);
      FeedParts(Idle(lines), parts);
      FeedAllAppend(Idle(lines), Prefixed(parts), [""]);
      var r := Idle(lines).(data := [] + DropEach(parts), hasData := true);
      assert [] + DropEach(parts) == DropEach(parts);
      assert FeedAll(r, [""]) == FeedAll(Idle(lines + [Received(text)]), []);
      assert ReceivedChunks([chunk]) == [Received(text)] + ReceivedChunks([]);
    case KeepAlive =>
      var fields := ChunkFields(chunk);
      assert Feed(Idle(lines), DropCr(fields[0])) == More(Idle(lines));
      assert fields[1..] == [""];
      assert FeedAll(Idle(lines), [""]) == FeedAll(Idle(lines), []);
      assert ReceivedChunks([chunk]) == [] + ReceivedChunks([]);
      assert lines + [] == lines;
  }

  lemma {:induction false} FeedChunks(lines: seq<string>, chunks: seq<Chunk>)
    ensures FeedAll(Idle(lines), Fields(chunks)) == More(Idle(lines + ReceivedChunks(chunks)))
    decreases |chunks|
  {
    if chunks == [] {
      assert lines + ReceivedChunks(chunks) == lines;
    } else {
      FeedChunk(lines, chunks[0]);
      FeedAllAppend(Idle(lines), ChunkFields(chunks[0]), Fields(chunks[1..]));
      FeedChunks(lines + ReceivedChunks([chunks[0]]), chunks[1..]);
      assert [chunks[0]] + chunks[1..] == chunks;
      ReceivedAppend([chunks[0]], chunks[1..]);
      ConcatAssoc(lines, ReceivedChunks([chunks[0]]), ReceivedChunks(chunks[1..]));
    }
  }

  lemma FeedEvent(r: Reader, name: string)
    requires name == "" || name[|name| - 1] != '\r'
    ensures Feed(r, DropCr("event: " + name)) == More(r.(event := name))
  {
    var field := "event: " + name;
    assert DropCr(field) == field;
    assert field[..5] == "event";
    IndexOfFirst(field, ':', 5);
    assert field[6..] == " " + name;
    assert field[6..][1..] == name;
  }

  /** A terminal event: everything before its blank line leaves the reader waiting. */
  lemma FeedTerminal(lines: seq<string>, name: string, payload: string)
    requires name == "end" || name == "stream-error"
    ensures FeedAll(Idle(lines), EventFields(name, payload)[..1]) == More(Idle(lines).(event := name))
    ensures FeedAll(Idle(lines), EventFields(name, payload)[..2])
         == More(Reader(name, [DropCr(payload)], true, lines))
    ensures FeedAll(Idle(lines), EventFields(name, payload))
         == Done(if name == "end" then Complete(lines) else StreamFailed(DropCr(payload)))
  {
    var fields := EventFields(name, payload);
    FeedEvent(Idle(lines), name);
    var r1 := Idle(lines).(event := name);
    FeedData(r1, payload);
    var r2 := r1.(data := r1.data + [DropCr(payload)], hasData := true);
    assert [] + [DropCr(payload)] == [DropCr(payload)];
    FeedTwo(Idle(lines), fields, r1, r2);
  }

  lemma FeedOne(r: Reader, field: string)
    ensures FeedAll(r, [field]) == Feed(r, DropCr(field))
  {
    assert [field][1..] == [];
  }

  lemma FeedTwo(r: Reader, fields: seq<string>, r1: Reader, r2: Reader)
    requires |fields| == 3 && Feed(r, DropCr(fields[0])) == More(r1) && Feed(r1, DropCr(fields[1])) == More(r2)
    ensures FeedAll(r, fields[..1]) == More(r1) && FeedAll(r, fields[..2]) == More(r2)
    ensures FeedAll(r, fields) == Feed(r2, DropCr(fields[2]))
  {
    FeedOne(r, fields[0]);
    FeedOne(r1, fields[1]);
    FeedOne(r2, fields[2]);
    assert fields[..1] == [fields[0]];
    assert fields[..2] == [fields[0]] + [fields[1]] && fields == fields[..2] + [fields[2]];
    FeedAllAppend(r, [fields[0]], [fields[1]]);
    FeedAllAppend(r, fields[..2], [fields[2]]);
  }

  // ---------------------------------------------------------------- main results

  /** Every part of every line leaves room for "data: " and its newline in the scanner's buffer. */
  ghost predicate FitsScanner(chunks: seq<Chunk>) {
    forall i, j ::
      0 <= i < |chunks| && chunks[i].LogLine? && 0 <= j < |Parts(chunks[i].text)| ==>
        |Parts(chunks[i].text)[j]| + 6 < MAX_LINE
  }

  lemma {:induction false} SplitShort(s: string, c: char, j: nat)
    requires j < |Split(s, c)|
    ensures |Split(s, c)[j]| <= |s|
  {
    if s != "" {
      var rest := Split(s[1..], c);
      if s[0] == c {
        if j > 0 { SplitShort(s[1..], c, j - 1); }
      } else {
        SplitShort(s[1..], c, j);
      }
    }
  }

  lemma {:induction false} NormalizedShort(line: string)
    ensures |NormalizeNewlines(line)| <= |line|
  {
    if line != "" {
      NormalizedShort(line[1..]);
      if |line| >= 2 { NormalizedShort(line[2..]); }
    }
  }

  /** No part of a line is longer than the line. */
  lemma PartIsShort(line: string, j: nat)
    requires j < |Parts(line)|
    ensures |Parts(line)[j]| <= |line|
  {
    SplitShort(NormalizeNewlines(line), '\n', j);
    NormalizedShort(line);
  }

  lemma FitAppend(a: seq<string>, b: seq<string>)
    ensures Fit(a + b) <==> Fit(a) && Fit(b)
  {
    if Fit(a + b) {
      forall i | 0 <= i < |a| ensures |a[i]| < MAX_LINE { assert (a + b)[i] == a[i]; }
      forall i | 0 <= i < |b| ensures |b[i]| < MAX_LINE { assert (a + b)[|a| + i] == b[i]; }
    }
  }

  lemma FitsScannerCons(chunks: seq<Chunk>)
    requires chunks != []
    ensures FitsScanner(chunks) <==> FitsScanner([chunks[0]]) && FitsScanner(chunks[1..])
  {
    assert [chunks[0]][0] == chunks[0];
    if FitsScanner([chunks[0]]) && FitsScanner(chunks[1..]) {
      forall i, j | 0 <= i < |chunks| && chunks[i].LogLine? && 0 <= j < |Parts(chunks[i].text)|
        ensures |Parts(chunks[i].text)[j]| + 6 < MAX_LINE
      {
        if i == 0 { assert [chunks[0]][0].LogLine?; } else { assert chunks[1..][i - 1].LogLine?; }
      }
    }
    if FitsScanner(chunks) {
      forall i | 0 <= i < |chunks[1..]| ensures chunks[1..][i] == chunks[i + 1] {}
    }
  }

  lemma {:induction false} FitsScannerFields(chunks: seq<Chunk>)
    ensures FitsScanner(chunks) <==> Fit(Fields(chunks))
  {
    if chunks != [] {
      FitsScannerFields(chunks[1..]);
      FitAppend(ChunkFields(chunks[0]), Fields(chunks[1..]));
      FitsScannerChunk(chunks[0]);
      FitsScannerCons(chunks);
    }
  }

  lemma FitsScannerChunk(chunk: Chunk)
    ensures FitsScanner([chunk]) <==> Fit(ChunkFields(chunk))
  {
    if chunk.LogLine? {
      var parts := Parts(chunk.text);
      var fields := ChunkFields(chunk);
      forall j | 0 <= j < |parts| ensures |fields[j]| == |parts[j]| + 6 { PrefixedAt(parts, j); }
      assert fields[|parts|] == "";
      assert [chunk][0] == chunk;
    }
  }

  lemma ParseTerminal(lines: seq<string>, name: string, payload: string, after: string, readError: bool)
    requires name == "end" || name == "stream-error"
    requires '\n' !in payload && |payload| + 6 < MAX_LINE
    ensures Parse(Idle(lines), PrintEvent(name, payload) + after, readError)
         == if name == "end" then Complete(lines) else StreamFailed(DropCr(payload))
  {
    EventPrintable(name, payload);
    FeedTerminal(lines, name, payload);
    ParseLines(Idle(lines), EventFields(name, payload), after, readError);
  }

  /** Printed chunks that fit the scanner are read back line by line; one that does not ends the scan. */
  lemma ParseChunks(chunks: seq<Chunk>, tail: string, readError: bool)
    ensures ParseBody(PrintChunks(chunks) + tail, readError)
         == if FitsScanner(chunks) then Parse(Idle(ReceivedChunks(chunks)), tail, readError) else ScanFailed
  {
    ChunksPrintable(chunks);
    FitsScannerFields(chunks);
    if FitsScanner(chunks) {
      FeedChunks([], chunks);
      assert [] + ReceivedChunks(chunks) == ReceivedChunks(chunks);
      ParseLines(Idle([]), Fields(chunks), tail, readError);
    } else {
      ChunksNeverFinish(chunks);
      ParseOverlong(Idle([]), Fields(chunks), tail, readError);
    }
  }

  /**
    Round trip. Whatever keep-alives are interleaved and whatever follows the end event, the
    client gets one line per log line, and nothing but over-long parts can prevent that.
   */
  lemma RoundTrip(chunks: seq<Chunk>, after: string, readError: bool)
    ensures ParseBody(PrintChunks(chunks) + (PrintEnd() + after), readError)
         == if FitsScanner(chunks) then Complete(ReceivedChunks(chunks)) else ScanFailed
  {
    ParseChunks(chunks, PrintEnd() + after, readError);
    ParseTerminal(ReceivedChunks(chunks), "end", "{}", after, readError);
  }

  /** A stream closed by an error event tells the client its message. */
  lemma FailureArrives(chunks: seq<Chunk>, payload: string, after: string, readError: bool)
    requires '\n' !in payload && (payload != "" ==> payload[|payload| - 1] != '\r') && |payload| + 6 < MAX_LINE
    ensures ParseBody(PrintChunks(chunks) + (PrintEvent("stream-error", payload) + after), readError)
         == if FitsScanner(chunks) then StreamFailed(payload) else ScanFailed
  {
    ParseChunks(chunks, PrintEvent("stream-error", payload) + after, readError);
    ParseTerminal(ReceivedChunks(chunks), "stream-error", payload, after, readError);
    assert DropCr(payload) == payload;
  }

  /** Neither newline nor final carriage return, and short enough for the scanner. */
  predicate PlainValue(value: string) {
    '\n' !in value && (value != "" ==> value[|value| - 1] != '\r') && |value| + 7 < MAX_LINE
  }

  /** An event of another name is skipped with its data; one named "message" is a line like an unnamed one. */
  lemma NamedEvents(lines: seq<string>, name: string, payload: string, after: string, readError: bool)
    requires PlainValue(name) && PlainValue(payload) && name != "" && name != "end" && name != "stream-error"
    ensures Parse(Idle(lines), PrintEvent(name, payload) + after, readError)
         == Parse(Idle(if name == "message" then lines + [payload] else lines), after, readError)
  {
    FeedNamed(lines, name, payload);
    NamedFits(name, payload);
    ParseLines(Idle(lines), EventFields(name, payload), after, readError);
  }

  lemma NamedFits(name: string, payload: string)
    requires PlainValue(name) && PlainValue(payload)
    ensures Printable(EventFields(name, payload)) && Fit(EventFields(name, payload))
  {
  }

  lemma FeedNamed(lines: seq<string>, name: string, payload: string)
    requires PlainValue(name) && PlainValue(payload) && name != "" && name != "end" && name != "stream-error"
    ensures FeedAll(Idle(lines), EventFields(name, payload))
         == More(Idle(if name == "message" then lines + [payload] else lines))
  {
    FeedEvent(Idle(lines), name);
    FeedData(Idle(lines).(event := name), payload);
    assert DropCr(payload) == payload && [] + [payload] == [payload];
    FeedTwo(Idle(lines), EventFields(name, payload), Idle(lines).(event := name), Reader(name, [payload], true, lines));
    FeedBlank(lines, name, payload);
  }

  lemma FeedBlank(lines: seq<string>, name: string, payload: string)
    requires name != "" && name != "end" && name != "stream-error"
    ensures Feed(Reader(name, [payload], true, lines), "")
         == More(Idle(if name == "message" then lines + [payload] else lines))
  {
  }

  /** Comments, and fields that are neither data nor an event's name, change nothing. */
  lemma OtherFields(r: Reader, field: string)
    requires field != "" && (field[0] == ':' || (Cut(field, ':').0 != "data" && Cut(field, ':').0 != "event"))
    ensures Feed(r, field) == More(r)
  {
  }

  lemma ChunksNeverFinish(chunks: seq<Chunk>)
    ensures forall k :: 0 <= k <= |Fields(chunks)| ==> FeedAll(Idle([]), Fields(chunks)[..k]).More?
  {
    var fields := Fields(chunks);
    FeedChunks([], chunks);
    forall k | 0 <= k <= |fields| ensures FeedAll(Idle([]), fields[..k]).More? {
      assert fields == fields[..k] + fields[k..];
      FeedAllAppend(Idle([]), fields[..k], fields[k..]);
    }
  }

  lemma NoNewline(s: string)
    requires '\n' !in s
    ensures IndexOf(s, '\n') == |s|
  {
  }

  /** Text that stops inside a line, other than one that starts with a carriage return. */
  lemma CutInsideLine(r: Reader, piece: string, readError: bool)
    requires '\n' !in piece && (piece == "" || piece[0] != '\r')
    ensures Parse(r, piece, readError) in {ScanFailed, Unfinished}
  {
    NoNewline(piece);
    if piece != "" {
      assert DropCr(piece) != "";
    }
  }

  /** Text that stops after its first line is read from there on. */
  lemma CutAfterLine(r: Reader, line: string, rest: string, k: nat, readError: bool)
    requires Printable([line]) && Feed(r, DropCr(line)).More? && |line| < k <= |line + "\n" + rest|
    ensures Parse(r, (line + "\n" + rest)[..k], readError)
         == if |line| >= MAX_LINE then ScanFailed
            else Parse(Feed(r, DropCr(line)).reader, rest[..k - |line| - 1], readError)
  {
    var cut := rest[..k - |line| - 1];
    assert (line + "\n" + rest)[..k] == line + "\n" + cut;
    assert [line][0] == line;
    FirstNewline(line, cut);
  }

  lemma FeedAllButLast(r: Reader, fields: seq<string>)
    requires |fields| > 1 && FeedAll(r, fields[..|fields| - 1]).More?
    ensures Feed(r, DropCr(fields[0])).More?
    ensures FeedAll(Feed(r, DropCr(fields[0])).reader, fields[1..][..|fields[1..]| - 1]).More?
  {
    var init := fields[..|fields| - 1];
    assert init[0] == fields[0] && init[1..] == fields[1..][..|fields[1..]| - 1];
  }

  lemma CutFirst(r: Reader, fields: seq<string>, k: nat, readError: bool)
    requires Printable(fields) && fields != [] && k <= |fields[0]|
    ensures k < |Unlines(fields)| && Parse(r, Unlines(fields)[..k], readError) in {ScanFailed, Unfinished}
  {
    assert Unlines(fields) == fields[0] + "\n" + Unlines(fields[1..]);
    assert Unlines(fields)[..k] == fields[0][..k];
    CutInsideLine(r, fields[0][..k], readError);
  }

  lemma CutLater(r: Reader, fields: seq<string>, k: nat, readError: bool)
    requires Printable(fields) && fields != [] && FeedAll(r, fields[..|fields| - 1]).More?
    requires |fields[0]| < k < |Unlines(fields)|
    ensures |fields| > 1 && k - |fields[0]| - 1 < |Unlines(fields[1..])| && Feed(r, DropCr(fields[0])).More?
    ensures Parse(r, Unlines(fields)[..k], readError)
         == if |fields[0]| >= MAX_LINE then ScanFailed
            else Parse(Feed(r, DropCr(fields[0])).reader, Unlines(fields[1..])[..k - |fields[0]| - 1], readError)
  {
    assert Unlines(fields) == fields[0] + "\n" + Unlines(fields[1..]);
    assert |fields| > 1;
    FeedAllButLast(r, fields);
    CutAfterLine(r, fields[0], Unlines(fields[1..]), k, readError);
  }

  /** Cutting the text of some lines short of its last newline never reaches a terminal event. */
  lemma {:induction false} CutShort(r: Reader, fields: seq<string>, k: nat, readError: bool)
    requires Printable(fields) && fields != []
    requires FeedAll(r, fields[..|fields| - 1]).More?
    requires k < |Unlines(fields)|
    ensures Parse(r, Unlines(fields)[..k], readError) in {ScanFailed, Unfinished}
    decreases |fields|
  {
    if k <= |fields[0]| {
      CutFirst(r, fields, k, readError);
    } else {
      CutLater(r, fields, k, readError);
      assert Unlines(fields) == fields[0] + "\n" + Unlines(fields[1..]);
      if |fields[0]| < MAX_LINE {
        FeedAllButLast(r, fields);
        CutShort(Feed(r, DropCr(fields[0])).reader, fields[1..], k - |fields[0]| - 1, readError);
      }
    }
  }

  /** Prefix safety: a strict prefix of a finished stream is an error, never a shorter success. */
  lemma PrefixSafety(chunks: seq<Chunk>, k: nat, readError: bool)
    requires k < |PrintChunks(chunks) + PrintEnd()|
    ensures !ParseBody((PrintChunks(chunks) + PrintEnd())[..k], readError).Complete?
  {
    TerminatedPrefix(chunks, "end", "{}", k, readError);
  }

  lemma TerminatedPrefix(chunks: seq<Chunk>, name: string, payload: string, k: nat, readError: bool)
    requires name == "end" || name == "stream-error"
    requires '\n' !in payload
    requires k < |PrintChunks(chunks) + PrintEvent(name, payload)|
    ensures !ParseBody((PrintChunks(chunks) + PrintEvent(name, payload))[..k], readError).Complete?
  {
    var event := EventFields(name, payload);
    var fields := Fields(chunks) + event;
    ChunksPrintable(chunks);
    EventPrintable(name, payload);
    UnlinesAppend(Fields(chunks), event);
    assert fields[..|fields| - 1] == Fields(chunks) + event[..2];
    FeedChunks([], chunks);
    FeedAllAppend(Idle([]), Fields(chunks), event[..2]);
    FeedTerminal([] + ReceivedChunks(chunks), name, payload);
    CutShort(Idle([]), fields, k, readError);
  }

  /** A failed stream is reported as failed, whole or cut anywhere. */
  lemma FailureNeverCompletes(chunks: seq<Chunk>, payload: string, k: nat, readError: bool)
    requires '\n' !in payload
    requires k <= |PrintChunks(chunks) + PrintEvent("stream-error", payload)|
    ensures !ParseBody((PrintChunks(chunks) + PrintEvent("stream-error", payload))[..k], readError).Complete?
  {
    var event := PrintEvent("stream-error", payload);
    var text := PrintChunks(chunks) + event;
    if k < |text| {
      TerminatedPrefix(chunks, "stream-error", payload, k, readError);
    } else {
      assert text[..k] == text;
      ParseChunks(chunks, event, readError);
      if |payload| + 6 < MAX_LINE {
        ParseTerminal(ReceivedChunks(chunks), "stream-error", payload, "", readError);
        assert event + "" == event;
      } else {
        ParseOverlongFailure(ReceivedChunks(chunks), payload, readError);
      }
    }
  }

  lemma OverlongFirst(r: Reader, line: string, rest: string, readError: bool)
    requires '\n' !in line && |line| >= MAX_LINE
    ensures Parse(r, line + "\n" + rest, readError) == ScanFailed
  {
    FirstNewline(line, rest);
  }

  lemma ParseOverlongFailure(lines: seq<string>, payload: string, readError: bool)
    requires '\n' !in payload && |payload| + 6 >= MAX_LINE
    ensures Parse(Idle(lines), PrintEvent("stream-error", payload), readError) == ScanFailed
  {
    var fields := EventFields("stream-error", payload);
    EventPrintable("stream-error", payload);
    assert fields[..1] == [fields[0]] && fields == fields[..1] + fields[1..];
    UnlinesAppend(fields[..1], fields[1..]);
    FeedTerminal(lines, "stream-error", payload);
    ParseLines(Idle(lines), fields[..1], Unlines(fields[1..]), readError);
    OverlongFirst(Idle(lines).(event := "stream-error"), fields[1], Unlines(fields[2..]), readError);
  }

  /** A stream without terminal event is an error, whole or cut anywhere. */
  lemma OpenStreamNeverCompletes(chunks: seq<Chunk>, k: nat, readError: bool)
    requires k <= |PrintChunks(chunks)|
    ensures !ParseBody(PrintChunks(chunks)[..k], readError).Complete?
  {
    var text := PrintChunks(chunks) + PrintEnd();
    assert |PrintEnd()| > 0 by { assert PrintEnd() == "event: end" + "\n" + Unlines(["data: {}", ""]); }
    assert text[..k] == PrintChunks(chunks)[..k];
    PrefixSafety(chunks, k, readError);
  }

  // ---------------------------------------------------------------- carriage returns

  /** A carriage return that no line feed follows. */
  ghost predicate HasBareCr(line: string) {
    exists i :: 0 <= i < |line| && line[i] == '\r' && !(i + 1 < |line| && line[i + 1] == '\n')
  }

  ghost predicate SomePartEndsInCr(line: string) { SomeEndsInCr(Parts(line)) }

  /** The client gets the normalized line exactly when no part of it ends in a carriage return. */
  lemma ReceivedByParts(line: string)
    ensures Received(line) == NormalizeNewlines(line) <==> !SomePartEndsInCr(line)
  {
    var parts := Parts(line);
    JoinSplit(NormalizeNewlines(line), '\n');
    if !SomePartEndsInCr(line) {
      forall i | 0 <= i < |parts| ensures DropEach(parts)[i] == parts[i] { DropEachAt(parts, i); }
      assert DropEach(parts) == parts;
    } else if Received(line) == NormalizeNewlines(line) {
      var i :| 0 <= i < |parts| && parts[i] != DropCr(parts[i]);
      DropEachAt(parts, i);
      forall j | 0 <= j < |parts| ensures '\n' !in DropEach(parts)[j] { DropEachAt(parts, j); }
      JoinInjective(DropEach(parts), parts, '\n');
    }
  }

  /** The line ends in a carriage return, or has one in front of a CRLF. */
  ghost predicate LosesCr(line: string) {
    || (line != "" && line[|line| - 1] == '\r')
    || exists i :: 0 <= i < |line| - 2 && CrBeforeCrlf(line, i)
  }

  predicate CrBeforeCrlf(line: string, i: nat)
    requires i + 2 < |line|
  {
    line[i] == '\r' && line[i + 1] == '\r' && line[i + 2] == '\n'
  }

  /** The same, found from the front. */
  predicate LosesAhead(line: string) {
    line != "" && ((line[0] == '\r' && (|line| == 1 || (|line| > 2 && CrBeforeCrlf(line, 0)))) || LosesAhead(line[1..]))
  }

  lemma {:induction false} LosesCrAhead(line: string)
    ensures LosesCr(line) <==> LosesAhead(line)
  {
    if line != "" {
      LosesCrAhead(line[1..]);
      var rest := line[1..];
      if i :| 0 <= i < |rest| - 2 && CrBeforeCrlf(rest, i) { assert CrBeforeCrlf(line, i + 1); }
      if i :| 0 < i < |line| - 2 && CrBeforeCrlf(line, i) { assert CrBeforeCrlf(rest, i - 1); }
    }
  }

  /** Some line of a text ends in a carriage return. */
  predicate EndsLineInCr(text: string) {
    text != "" && ((text[0] == '\r' && (|text| == 1 || text[1] == '\n')) || EndsLineInCr(text[1..]))
  }

  ghost predicate SomeEndsInCr(parts: seq<string>) { exists i :: 0 <= i < |parts| && parts[i] != DropCr(parts[i]) }

  lemma EmptyPartFirst(rest: seq<string>)
    ensures SomeEndsInCr([""] + rest) <==> SomeEndsInCr(rest)
  {
    var parts := [""] + rest;
    if SomeEndsInCr(rest) { var i :| 0 <= i < |rest| && rest[i] != DropCr(rest[i]); assert parts[i + 1] == rest[i]; }
    if SomeEndsInCr(parts) {
      var i :| 0 <= i < |parts| && parts[i] != DropCr(parts[i]);
      assert parts[i] == rest[i - 1];
    }
  }

  lemma LongerFirst(c: char, rest: seq<string>)
    requires rest != []
    ensures SomeEndsInCr([[c] + rest[0]] + rest[1..]) <==> (rest[0] == "" && c == '\r') || SomeEndsInCr(rest)
  {
    var parts := [[c] + rest[0]] + rest[1..];
    var first := [c] + rest[0];
    assert first[|first| - 1] == if rest[0] == "" then c else rest[0][|rest[0]| - 1];
    if SomeEndsInCr(rest) {
      var i :| 0 <= i < |rest| && rest[i] != DropCr(rest[i]);
      assert parts[i] != DropCr(parts[i]);
    }
    if rest[0] == "" && c == '\r' { assert parts[0] != DropCr(parts[0]); }
    if SomeEndsInCr(parts) {
      var i :| 0 <= i < |parts| && parts[i] != DropCr(parts[i]);
      assert i > 0 ==> rest[i] == parts[i];
    }
  }

  lemma {:induction false} SplitEndsInCr(text: string)
    ensures SomeEndsInCr(Split(text, '\n')) <==> EndsLineInCr(text)
  {
    if text != "" {
      SplitEndsInCr(text[1..]);
      var rest := Split(text[1..], '\n');
      SplitFirst(text[1..]);
      if text[0] == '\n' { EmptyPartFirst(rest); } else { LongerFirst(text[0], rest); }
    }
  }

  lemma SplitFirst(text: string)
    ensures Split(text, '\n')[0] == "" <==> text == "" || text[0] == '\n'
  {
  }

  lemma {:induction false} NormalizedEndsInCr(line: string)
    ensures EndsLineInCr(NormalizeNewlines(line)) <==> LosesAhead(line)
  {
    if |line| >= 2 && line[0] == '\r' && line[1] == '\n' {
      NormalizedEndsInCr(line[2..]);
      assert line[1..][1..] == line[2..];
      assert ("\n" + NormalizeNewlines(line[2..]))[1..] == NormalizeNewlines(line[2..]);
    } else if line != "" {
      var rest := line[1..];
      NormalizedEndsInCr(rest);
      assert ([line[0]] + NormalizeNewlines(rest))[1..] == NormalizeNewlines(rest);
    }
  }

  /**
    The client gets the line with CRLF turned into LF if and only if the line neither ends in a
    carriage return nor has one in front of a CRLF.
   */
  lemma ReceivedExactly(line: string)
    ensures Received(line) == NormalizeNewlines(line) <==> !LosesCr(line)
  {
    ReceivedByParts(line);
    SplitEndsInCr(NormalizeNewlines(line));
    NormalizedEndsInCr(line);
    LosesCrAhead(line);
  }

  /** A line without bare carriage return is normalized to one without any. */
  lemma {:induction false} NoBareCr(line: string)
    requires !HasBareCr(line)
    ensures '\r' !in NormalizeNewlines(line)
  {
    if line != "" {
      NoBareCrTail(line);
      if |line| >= 2 && line[0] == '\r' && line[1] == '\n' {
        NoBareCrTail(line[1..]);
        NoBareCr(line[2..]);
        assert line[1..][1..] == line[2..];
      } else {
        NoBareCr(line[1..]);
      }
    }
  }

  lemma NoBareCrTail(line: string)
    requires line != "" && !HasBareCr(line)
    ensures !HasBareCr(line[1..])
  {
    forall i | 0 <= i < |line[1..]| && line[1..][i] == '\r'
      ensures i + 1 < |line[1..]| && line[1..][i + 1] == '\n'
    {
      assert line[i + 1] == '\r';
    }
  }

  lemma {:induction false} SplitWithin(s: string, c: char, i: nat, x: char)
    requires i < |Split(s, c)| && x in Split(s, c)[i]
    ensures x in s
  {
    if s != "" {
      var rest := Split(s[1..], c);
      if s[0] == c {
        if i > 0 { SplitWithin(s[1..], c, i - 1, x); }
      } else if i > 0 {
        SplitWithin(s[1..], c, i, x);
      } else if x != s[0] {
        assert x in rest[0];
        SplitWithin(s[1..], c, 0, x);
      }
    }
  }

  /** Lines free of bare carriage returns arrive with CRLF turned into LF and nothing else changed. */
  lemma CleanLineReceived(line: string)
    requires !HasBareCr(line)
    ensures Received(line) == NormalizeNewlines(line)
  {
    NoBareCr(line);
    var parts := Parts(line);
    forall i | 0 <= i < |parts| ensures parts[i] == DropCr(parts[i]) {
      if '\r' in parts[i] {
        SplitWithin(NormalizeNewlines(line), '\n', i, '\r');
      }
    }
    ReceivedByParts(line);
  }

  /** A line can lose a carriage return on the way: the bare one at its end. */
  lemma BareCrIsLost()
    ensures NormalizeNewlines("ok\r") == "ok\r"
    ensures Received("ok\r") == "ok"
  {
    assert NormalizeNewlines("ok\r") == "ok\r" by {
      assert "ok\r"[1..] == "k\r" && "k\r"[1..] == "\r" && "\r"[1..] == "";
    }
    assert Split("ok\r", '\n') == ["ok\r"] by {
      assert "ok\r"[1..] == "k\r" && "k\r"[1..] == "\r" && "\r"[1..] == "";
      assert Split("\r", '\n') == ["\r"];
      assert Split("k\r", '\n') == ["k\r"];
    }
    assert "ok\r"[..2] == "ok";
    assert DropEach(["ok\r"]) == ["ok"];
  }
}
