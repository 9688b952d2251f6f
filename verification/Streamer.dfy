/**
  The agent's log reader: which lines it emits and what it reports at the end.
  Source: internal/agent/logs/streamer.go.
 */
module Streamer {
  import opened Text

  const MAX_LINE: nat := 16384    // maxLineBytes
  const BUFFER: nat := 32768      // the size of the buffered reader

  // ---------------------------------------------------------------- the lines of a log

  /** Without the carriage return of a CRLF. */
  function StripCr(line: string): string {
    if line != "" && line[|line| - 1] == '\r' then line[..|line| - 1] else line
  }

  function Truncate(line: string): string { if |line| > MAX_LINE then line[..MAX_LINE] else line }

  /** The first line of a non-empty text; only a terminated line loses its carriage return. */
  function FirstLine(text: string): string {
    var i := IndexOf(text, '\n');
    if i < |text| then Truncate(StripCr(text[..i])) else Truncate(text)
  }

  function AfterLine(text: string): string {
    var i := IndexOf(text, '\n');
    if i < |text| then text[i + 1..] else ""
  }

  function Lines(text: string): seq<string>
    decreases |text|
  {
    if text == "" then [] else [FirstLine(text)] + Lines(AfterLine(text))
  }

  // ---------------------------------------------------------------- bufio.Reader.ReadLine

  datatype Chunk = Chunk(text: string, isPrefix: bool, atEnd: bool, rest: string)

  /** One call on a reader that will deliver `rest` and then keep failing with the same error. */
  function ReadChunk(rest: string): Chunk {
    var i := IndexOf(rest, '\n');
    if i < |rest| && i < BUFFER then Chunk(StripCr(rest[..i]), false, false, rest[i + 1..])
    else if |rest| >= BUFFER && rest[BUFFER - 1] == '\r' then Chunk(rest[..BUFFER - 1], true, false, rest[BUFFER - 1..])
    else if |rest| >= BUFFER then Chunk(rest[..BUFFER], true, false, rest[BUFFER..])
    else Chunk(rest, false, rest == "", "")
  }

  /** Cutting a line before its end moves neither its end nor what follows it. */
  lemma {:induction false} SkipPrefix(text: string, n: nat)
    requires n <= |text| && '\n' !in text[..n]
    ensures IndexOf(text, '\n') == n + IndexOf(text[n..], '\n')
    ensures AfterLine(text) == AfterLine(text[n..])
    decreases n
  {
    if n == 0 {
      assert text[0..] == text;
    } else {
      var tail := text[1..];
      assert text[0] == text[..n][0];
      assert tail[..n - 1] == text[..n][1..];
      SkipPrefix(tail, n - 1);
      assert tail[n - 1..] == text[n..];
      TailAfterLine(text);
    }
  }

  lemma TailAfterLine(text: string)
    requires text != "" && text[0] != '\n'
    ensures IndexOf(text, '\n') == 1 + IndexOf(text[1..], '\n') && AfterLine(text) == AfterLine(text[1..])
  {
    var i := IndexOf(text[1..], '\n');
    if i < |text[1..]| { assert text[1..][i + 1..] == text[i + 2..]; }
  }

  lemma LongPrefix(text: string)
    requires ReadChunk(text).isPrefix
    ensures var c := ReadChunk(text);
      && |c.text| > MAX_LINE && c.text == text[..|c.text|] && c.rest == text[|c.text|..]
      && |c.rest| < |text| && '\n' !in c.text && IndexOf(text, '\n') >= |c.text|
  {
    var i, n := IndexOf(text, '\n'), |ReadChunk(text).text|;
    assert n <= i;
    assert text[..n] == text[..i][..n];
  }

  /** Part of a line is in the builder: nothing yet, or as much as a line may have. */
  ghost predicate Partial(text: string, rest: string, builder: string) {
    && AfterLine(rest) == AfterLine(text)
    && (builder == "" ==> rest == text)
    && (builder != "" ==> IndexOf(text, '\n') > MAX_LINE && builder == text[..MAX_LINE])
  }

  function Extend(builder: string, chunk: string): string {
    if |chunk| > 0 && |builder| < MAX_LINE
    then builder + (if |chunk| > MAX_LINE - |builder| then chunk[..MAX_LINE - |builder|] else chunk) else builder
  }

  lemma PrefixStep(text: string, rest: string, builder: string)
    requires Partial(text, rest, builder) && ReadChunk(rest).isPrefix
    ensures Partial(text, ReadChunk(rest).rest, Extend(builder, ReadChunk(rest).text))
      && |ReadChunk(rest).rest| < |rest|
  {
    var n := |ReadChunk(rest).text|;
    LongPrefix(rest);
    assert '\n' !in rest[..n];
    SkipPrefix(rest, n);
    if builder == "" {
      assert ReadChunk(rest).text[..MAX_LINE] == text[..MAX_LINE];
    }
  }

  /** The last chunk of a line completes it, whatever chunks came before. */
  lemma LastStep(text: string, rest: string, builder: string)
    requires Partial(text, rest, builder) && !ReadChunk(rest).isPrefix
    ensures var c := ReadChunk(rest);
      && Extend(builder, c.text) == (if text == "" then "" else FirstLine(text))
      && c.rest == AfterLine(text) && (c.atEnd ==> rest == "") && (c.atEnd && text != "" ==> builder != "")
  {
    if builder != "" {
      LongLine(text, builder);
    }
  }

  lemma LongLine(text: string, builder: string)
    requires IndexOf(text, '\n') > MAX_LINE && builder == text[..MAX_LINE]
    ensures FirstLine(text) == builder
  {
    var i := IndexOf(text, '\n');
    assert text[..i][..MAX_LINE] == text[..MAX_LINE];
    assert text[..i - 1][..MAX_LINE] == text[..MAX_LINE];
    assert text[..i][..i - 1] == text[..i - 1];
  }

  /** readLine: the next line, what is left, and whether the reader's error came with it. */
  method ReadLine(text: string) returns (line: string, atEnd: bool, rest: string)
    ensures line == if text == "" then "" else FirstLine(text)
    ensures rest == AfterLine(text)
    ensures atEnd ==> rest == "" && (text != "" ==> line != "")
    ensures text == "" ==> atEnd
  {
    var builder := "";
    rest := text;
    while true
      invariant Partial(text, rest, builder)
      invariant text == "" ==> rest == ""
      decreases |rest|
    {
      var chunk := ReadChunk(rest);
      ghost var before, had := rest, builder;
      if |chunk.text| > 0 && |builder| < MAX_LINE {
        var remaining := MAX_LINE - |builder|;
        builder := builder + (if |chunk.text| > remaining then chunk.text[..remaining] else chunk.text);
      }
      rest := chunk.rest;
      if chunk.atEnd || !chunk.isPrefix {
        LastStep(text, before, had);
        return builder, chunk.atEnd, rest;
      }
      PrefixStep(text, before, had);
    }
  }

  // ---------------------------------------------------------------- Stream

  /** How the underlying reader ends once its text is delivered. */
  datatype Ending = Eof | Broken

  datatype Verdict = CleanEnd | Canceled | ReadFailed | EmitFailed

  predicate IsPrefix(a: seq<string>, b: seq<string>) { |a| <= |b| && a == b[..|a|] }

  ghost predicate AllAccepted(accepts: nat -> bool, n: nat) { forall i: nat :: i < n ==> accepts(i) }

  /** None of the first n looks, which are counted from one, finds the context cancelled. */
  ghost predicate NotCancelled(cancelled: nat -> bool, n: nat) { forall i: nat :: 1 <= i <= n ==> !cancelled(i) }

  /** The emitted lines were accepted, and no look after one of them found the context cancelled. */
  ghost predicate Going(emitted: seq<string>, accepts: nat -> bool, cancelled: nat -> bool) {
    AllAccepted(accepts, |emitted|) && NotCancelled(cancelled, |emitted|)
  }

  /**
    What Stream reports of a log with these lines: a clean end or a failed read only after every line,
    with no look finding the context cancelled; a cancellation at the first look that finds it so; and
    a failed emit at the first line that is not accepted. There is one look after each line, and one at
    the end.
   */
  ghost predicate Reports(lines: seq<string>, ending: Ending, accepts: nat -> bool, cancelled: nat -> bool,
                          emitted: seq<string>, verdict: Verdict, looks: nat) {
    && IsPrefix(emitted, lines) && AllAccepted(accepts, |emitted|)
    && |emitted| <= looks <= |emitted| + 1 && (looks > |emitted| ==> emitted == lines)
    && match verdict
       case CleanEnd => ending == Eof && emitted == lines && NotCancelled(cancelled, looks)
       case ReadFailed => ending == Broken && emitted == lines && NotCancelled(cancelled, looks)
       case Canceled => looks > 0 && cancelled(looks) && NotCancelled(cancelled, looks - 1)
       case EmitFailed => |emitted| < |lines| && !accepts(|emitted|) && NotCancelled(cancelled, looks)
  }

  lemma EmitFails(lines: seq<string>, left: seq<string>, ending: Ending, accepts: nat -> bool,
                  cancelled: nat -> bool, emitted: seq<string>)
    requires lines == emitted + left && left != [] && Going(emitted, accepts, cancelled) && !accepts(|emitted|)
    ensures Reports(lines, ending, accepts, cancelled, emitted, EmitFailed, |emitted|)
  {
  }

  /** One more line was emitted, but not looked after; or the log has ended. */
  ghost predicate Turned(emitted: seq<string>, left: seq<string>, accepts: nat -> bool, cancelled: nat -> bool,
                         look: nat) {
    && AllAccepted(accepts, |emitted|) && look > 0 && NotCancelled(cancelled, look - 1)
    && (look == |emitted| || (look == |emitted| + 1 && left == []))
  }

  lemma LineTurns(emitted: seq<string>, line: string, left: seq<string>, accepts: nat -> bool, cancelled: nat -> bool)
    requires Going(emitted, accepts, cancelled) && accepts(|emitted|)
    ensures Turned(emitted + [line], left, accepts, cancelled, |emitted| + 1)
    ensures emitted + ([line] + left) == (emitted + [line]) + left
  {
  }

  lemma TurnStops(lines: seq<string>, left: seq<string>, ending: Ending, accepts: nat -> bool,
                  cancelled: nat -> bool, emitted: seq<string>, look: nat)
    requires lines == emitted + left && Turned(emitted, left, accepts, cancelled, look)
    ensures cancelled(look) ==> Reports(lines, ending, accepts, cancelled, emitted, Canceled, look)
    ensures !cancelled(look) && left == [] ==>
      Reports(lines, ending, accepts, cancelled, emitted, if ending == Eof then CleanEnd else ReadFailed, look)
    ensures !cancelled(look) && look == |emitted| ==> Going(emitted, accepts, cancelled)
  {
  }

  lemma LinesStep(text: string)
    requires text != ""
    ensures Lines(text) == [FirstLine(text)] + Lines(AfterLine(text))
  {
  }

  /**
    Stream over a reader that delivers `text`. `accepts` says which lines emit takes, `cancelled` what
    ctx.Err() says at each look.
   */
  method Stream(text: string, ending: Ending, accepts: nat -> bool, cancelled: nat -> bool)
    returns (emitted: seq<string>, verdict: Verdict, ghost looks: nat)
    ensures Reports(Lines(text), ending, accepts, cancelled, emitted, verdict, looks)
    ensures (forall i: nat :: accepts(i)) && (forall look: nat :: !cancelled(look)) ==>
      verdict == if ending == Eof then CleanEnd else ReadFailed
  {
    emitted := [];
    var rest, look: nat := text, 0;
    ghost var lines, left := Lines(text), Lines(text);
    while true
      invariant left == Lines(rest) && lines == emitted + left
      invariant Going(emitted, accepts, cancelled) && look == |emitted|
      decreases |rest|
    {
      ghost var before := rest;
      var line, atEnd;
      line, atEnd, rest := ReadLine(rest);
      if !atEnd || line != "" {
        LinesStep(before);
        if !accepts(|emitted|) {
          EmitFails(lines, left, ending, accepts, cancelled, emitted);
          return emitted, EmitFailed, look;
        }
        LineTurns(emitted, line, Lines(rest), accepts, cancelled);
        emitted := emitted + [line];
      }
      left := Lines(rest);
      look := look + 1;
      TurnStops(lines, left, ending, accepts, cancelled, emitted, look);
      if cancelled(look) {
        return emitted, Canceled, look;
      }
      if atEnd {
        return emitted, if ending == Eof then CleanEnd else ReadFailed, look;
      }
    }
  }

  /** A line that fits is emitted whole whatever follows it, and an emitted line always fits. */
  lemma {:induction false} LinesFit(text: string, i: nat)
    requires i < |Lines(text)|
    ensures |Lines(text)[i]| <= MAX_LINE && '\n' !in Lines(text)[i]
    decreases |text|
  {
    if i > 0 { LinesFit(AfterLine(text), i - 1); }
  }

  lemma FirstPrinted(line: string, rest: string)
    requires |line| <= MAX_LINE && '\n' !in line && (line != "" ==> line[|line| - 1] != '\r')
    ensures FirstLine(line + "\n" + rest) == line && AfterLine(line + "\n" + rest) == rest
  {
    var text := line + "\n" + rest;
    assert text[..|line|] == line;
    IndexOfFirst(text, '\n', |line|);
    assert text[|line| + 1..] == rest;
  }

  /** Writing lines with newlines and reading them back gives the lines. */
  lemma {:induction false} LinesRoundTrip(lines: seq<string>)
    requires forall i :: 0 <= i < |lines| ==>
      |lines[i]| <= MAX_LINE && '\n' !in lines[i] && (lines[i] != "" ==> lines[i][|lines[i]| - 1] != '\r')
    ensures Lines(Printed(lines)) == lines
    decreases |lines|
  {
    if lines != [] {
      LinesRoundTrip(lines[1..]);
      FirstPrinted(lines[0], Printed(lines[1..]));
      assert lines == [lines[0]] + lines[1..];
    }
  }

  // ---------------------------------------------------------------- any log

  /** Lines with their terminators, a newline or a carriage return and a newline. */
  function Terminated(lines: seq<string>, crlf: seq<bool>): string
    requires |crlf| == |lines|
  {
    if lines == [] then ""
    else lines[0] + ((if crlf[0] then "\r\n" else "\n") + Terminated(lines[1..], crlf[1..]))
  }

  /** The first 16 KiB of each line. */
  function Cut16K(lines: seq<string>): seq<string> {
    if lines == [] then []
    else [if |lines[0]| <= 16384 then lines[0] else lines[0][..16384]] + Cut16K(lines[1..])
  }

  /** A line before a bare newline does not end in a carriage return. */
  predicate Splittable(line: string, crlf: bool) {
    '\n' !in line && (crlf || line == "" || line[|line| - 1] != '\r')
  }

  lemma FirstTerminated(line: string, crlf: bool, rest: string)
    requires Splittable(line, crlf)
    ensures var text := line + ((if crlf then "\r\n" else "\n") + rest);
      AfterLine(text) == rest && [FirstLine(text)] == Cut16K([line])
  {
    var content := if crlf then line + "\r" else line;
    assert line + ((if crlf then "\r\n" else "\n") + rest) == content + ("\n" + rest);
    FirstContent(content, rest);
    assert StripCr(content) == line;
    assert [line][1..] == [];
  }

  lemma FirstContent(content: string, rest: string)
    requires '\n' !in content
    ensures var text := content + ("\n" + rest);
      AfterLine(text) == rest && FirstLine(text) == Truncate(StripCr(content))
  {
    var text := content + ("\n" + rest);
    assert text[..|content|] == content;
    IndexOfFirst(text, '\n', |content|);
    assert text[|content| + 1..] == rest;
  }

  lemma LastUnterminated(last: string)
    requires last != "" && '\n' !in last
    ensures Lines(last) == Cut16K([last])
  {
    var i := IndexOf(last, '\n');
    assert i == |last|;
    assert Lines("") == [] && [last][1..] == [];
  }

  lemma TerminatedHead(lines: seq<string>, crlf: seq<bool>, last: string)
    requires |crlf| == |lines| && lines != []
    ensures Terminated(lines, crlf) + last
         == lines[0] + ((if crlf[0] then "\r\n" else "\n") + (Terminated(lines[1..], crlf[1..]) + last))
  {
    var end, rest := if crlf[0] then "\r\n" else "\n", Terminated(lines[1..], crlf[1..]);
    ConcatAssoc(lines[0], end + rest, last);
    ConcatAssoc(end, rest, last);
  }

  lemma LinesAhead(line: string, crlf: bool, rest: string)
    requires Splittable(line, crlf)
    ensures Lines(line + ((if crlf then "\r\n" else "\n") + rest)) == Cut16K([line]) + Lines(rest)
  {
    FirstTerminated(line, crlf, rest);
  }

  lemma CutHead(line: string, rest: seq<string>)
    ensures Cut16K([line] + rest) == Cut16K([line]) + Cut16K(rest)
  {
    assert ([line] + rest)[1..] == rest && [line][1..] == [];
  }

  lemma LinesCons(line: string, crlf: bool, text: string, rest: seq<string>)
    requires Splittable(line, crlf) && Lines(text) == Cut16K(rest)
    ensures Lines(line + ((if crlf then "\r\n" else "\n") + text)) == Cut16K([line] + rest)
  {
    LinesAhead(line, crlf, text);
    CutHead(line, rest);
  }

  lemma Regroup(lines: seq<string>, end: seq<string>)
    requires lines != []
    ensures lines + end == [lines[0]] + (lines[1..] + end)
  {
  }

  /**
    Any log is read line by line: each line without its newline or CRLF, and a last line without
    terminator as it is, each cut to its first 16 KiB.
   */
  lemma {:induction false} LinesExactly(lines: seq<string>, crlf: seq<bool>, last: string)
    requires |crlf| == |lines| && (forall i :: 0 <= i < |lines| ==> Splittable(lines[i], crlf[i])) && '\n' !in last
    ensures Lines(Terminated(lines, crlf) + last) == Cut16K(lines + if last == "" then [] else [last])
    decreases |lines|
  {
    var end := if last == "" then [] else [last];
    if lines == [] {
      assert Terminated(lines, crlf) + last == last && lines + end == end;
      if last != "" { LastUnterminated(last); }
    } else {
      LinesExactly(lines[1..], crlf[1..], last);
      TerminatedHead(lines, crlf, last);
      LinesCons(lines[0], crlf[0], Terminated(lines[1..], crlf[1..]) + last, lines[1..] + end);
      Regroup(lines, end);
    }
  }

  function Printed(lines: seq<string>): string {
    if lines == [] then "" else lines[0] + "\n" + Printed(lines[1..])
  }
}
