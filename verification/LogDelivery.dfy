/**
  What a client that parses the hub's response knows about the log it asked for.
  Sources: internal/server/handlers_logs.go, internal/mcp/hubclient/client.go, internal/agent/logs/client.go.
 */
module LogDelivery {
  import opened Text
  import opened LogRelay
  import opened LogChannel
  import opened LogChannelSafety
  import Sse
  import Streamer

  function ReceivedAll(lines: seq<string>): seq<string> {
    if lines == [] then [] else [Sse.Received(lines[0])] + ReceivedAll(lines[1..])
  }

  lemma {:induction false} ReceivedTexts(chunks: seq<Sse.Chunk>)
    ensures Sse.ReceivedChunks(chunks) == ReceivedAll(Texts(chunks))
  {
    if chunks != [] {
      ReceivedTexts(chunks[1..]);
      assert Texts(chunks)[if chunks[0].LogLine? then 1 else 0..] == Texts(chunks[1..]);
    }
  }

  lemma {:induction false} LinesOfData(id: StreamId, frames: seq<Frame>, lines: seq<string>)
    requires |frames| == |lines| && DataOf(id, frames, lines)
    ensures Lines(frames) == lines
    decreases |frames|
  {
    if frames != [] {
      assert DataOf(id, frames[1..], lines[1..]);
      LinesOfData(id, frames[1..], lines[1..]);
      assert lines == [lines[0]] + lines[1..];
    }
  }

  lemma EndIsLast(id: StreamId, w: Worker, i: nat)
    requires WorkerOk(id, w) && i < |w.sent| && w.sent[i].End?
    ensures w.state.Ended? && i == |w.read| && w.sent[i].error == w.state.error
  {
  }

  lemma LinesOfEnded(id: StreamId, w: Worker)
    requires WorkerOk(id, w) && w.state.Ended?
    ensures Lines(w.sent) == w.read
  {
    var body := w.sent[..|w.read|];
    assert w.sent == body + [End(id, w.state.error)];
    LinesSnoc(body, End(id, w.state.error));
    LinesOfData(id, body, w.read);
    assert Lines(body) + [] == Lines(body);
  }

  /** Stream returned without an error that runStream reports. */
  predicate EndedCleanly(stop: Option<Stopped>) { stop == Some(Eof) || stop == Some(Canceled) }

  /** A handler that took an end frame without error took every line its worker read before it. */
  lemma EndMeansAll(id: StreamId, w: Option<Worker>, taken: seq<Frame>)
    requires w.Some? ==> WorkerOk(id, w.value)
    requires taken <= SentBy(w)
    requires taken != [] && taken[|taken| - 1].End? && taken[|taken| - 1].error == ""
    ensures w.Some? && w.value.state == Ended("") && EndedCleanly(w.value.stop) && Lines(taken) == w.value.read
  {
    EndIsLast(id, w.value, |taken| - 1);
    assert taken == w.value.sent;
    LinesOfEnded(id, w.value);
  }

  lemma TakenIsSent(id: StreamId, taken: seq<Frame>, conn: Conn, link: Link, sent: seq<Frame>)
    requires PathOk(id, taken, conn, link, sent)
    ensures taken <= sent
  {
    assert taken <= taken + conn.queues[id].items <= Of(id, link.received);
    assert Of(id, link.received) <= Of(id, link.received) + Of(id, link.wire) <= sent;
  }

  lemma {:induction false} EscapeIsOneLine(s: string)
    ensures '\n' !in Escape(s)
  {
    if s != "" { EscapeIsOneLine(s[1..]); }
  }

  lemma PayloadIsOneLine(message: string)
    ensures '\n' !in ErrorPayload(message)
  {
    EscapeIsOneLine(message);
    assert '\n' !in "{\"message\":\"" && '\n' !in "\"}";
  }

  /** Of everything a handler can have printed, only the end event lets the parser succeed. */
  lemma OnlyEndCompletes(h: Handler, k: nat, readError: bool)
    requires HandlerOk(h) && k <= |h.out|
    requires Sse.ParseBody(h.out[..k], readError).Complete?
    ensures h.terminal == EndEvent && k == |h.out|
    ensures Sse.ParseBody(h.out[..k], readError) == Sse.Complete(Sse.ReceivedChunks(h.chunks))
  {
    match h.terminal
    case NoTerminal =>
      assert h.out == Sse.PrintChunks(h.chunks);
      Sse.OpenStreamNeverCompletes(h.chunks, k, readError);
    case ErrorEvent(message) =>
      PayloadIsOneLine(message);
      Sse.FailureNeverCompletes(h.chunks, ErrorPayload(message), k, readError);
    case EndEvent =>
      if k < |h.out| {
        Sse.PrefixSafety(h.chunks, k, readError);
      } else {
        assert h.out[..k] == Sse.PrintChunks(h.chunks) + (Sse.PrintEnd() + "");
        Sse.RoundTrip(h.chunks, "", readError);
      }
  }

  /** In every state with the invariant a successful parse holds all lines of a stream that ended without an error. */
  lemma CompleteMeansAll(s: Channel, id: StreamId, k: nat, readError: bool)
    requires Inv(s) && id in s.handlers && k <= |s.handlers[id].out|
    requires Sse.ParseBody(s.handlers[id].out[..k], readError).Complete?
    ensures id in s.workers && s.workers[id].state == Ended("") && EndedCleanly(s.workers[id].stop)
    ensures Sse.ParseBody(s.handlers[id].out[..k], readError) == Sse.Complete(ReceivedAll(s.workers[id].read))
  {
    assert StreamOk(s, id);
    var h := s.handlers[id];
    OnlyEndCompletes(h, k, readError);
    TakenIsSent(id, h.taken, s.relay.conns[h.conn], s.links[h.conn], SentBy(WorkerOf(s, id)));
    EndMeansAll(id, WorkerOf(s, id), h.taken);
    ReceivedTexts(h.chunks);
  }

  // ---------------------------------------------------------------- misreports

  /** The reader of a stream reports a context error although nobody cancelled the stream. */
  predicate Misreport(s: Channel, a: LogChannel.Action, id: StreamId) {
    a == StopReading(id, Canceled) && id in s.workers && s.workers[id].state.Running? && !s.workers[id].cancelled
  }

  ghost predicate Misreported(s: Channel, actions: seq<LogChannel.Action>, id: StreamId)
    requires LogChannel.Wf(s)
    decreases |actions|
  {
    actions != [] &&
    (Misreport(s, actions[0], id) || Misreported(LogChannel.Step(s, actions[0]), actions[1..], id))
  }

  predicate StoppedFalsely(s: Channel, id: StreamId) { id in s.workers && s.workers[id].stop == Some(Canceled) }

  /** A reader that has not stopped has reported nothing, and its connection is known. */
  predicate Unreported(s: Channel, id: StreamId) {
    id in s.workers ==> s.workers[id].conn in s.links && (s.workers[id].state.Running? ==> s.workers[id].stop.None?)
  }

  lemma OkIsUnreported(s: Channel, id: StreamId)
    requires StreamOk(s, id)
    ensures Unreported(s, id)
  {
  }

  lemma WorkerMisreports(s: Channel, a: LogChannel.Action, id: StreamId)
    requires Unreported(s, id) && ByWorker(a)
    ensures StoppedFalsely(WorkerStep(s, a), id) <==> StoppedFalsely(s, id) || Misreport(s, a, id)
  {
  }

  lemma LinkMisreports(s: Channel, a: LogChannel.Action, id: StreamId)
    requires LogChannel.Wf(s)
    requires ByLink(a)
    ensures StoppedFalsely(LinkStep(s, a), id) <==> StoppedFalsely(s, id)
  {
  }

  lemma RegistryLeavesWorkers(s: Channel, a: LogChannel.Action)
    requires LogChannel.Wf(s) && ByRegistry(a)
    ensures RegistryStep(s, a).workers == s.workers
  {
  }

  lemma HandlerMisreports(s: Channel, a: LogChannel.Action, id: StreamId)
    requires LogChannel.Wf(s) && ByHandler(a)
    ensures StoppedFalsely(LogChannel.Step(s, a), id) <==> StoppedFalsely(s, id)
  {
    assert LogChannel.Step(s, a) == HandlerStep(s, a);
  }

  lemma RegistryMisreports(s: Channel, a: LogChannel.Action, id: StreamId)
    requires LogChannel.Wf(s) && ByRegistry(a)
    ensures StoppedFalsely(LogChannel.Step(s, a), id) <==> StoppedFalsely(s, id)
  {
    RegistryLeavesWorkers(s, a);
    assert LogChannel.Step(s, a) == RegistryStep(s, a);
  }

  lemma WorkerStepMisreports(s: Channel, a: LogChannel.Action, id: StreamId)
    requires LogChannel.Wf(s) && StreamOk(s, id) && ByWorker(a)
    ensures StoppedFalsely(LogChannel.Step(s, a), id) <==> StoppedFalsely(s, id) || Misreport(s, a, id)
  {
    OkIsUnreported(s, id);
    WorkerMisreports(s, a, id);
    assert LogChannel.Step(s, a) == WorkerStep(s, a);
  }

  lemma LinkStepMisreports(s: Channel, a: LogChannel.Action, id: StreamId)
    requires LogChannel.Wf(s) && ByLink(a)
    ensures StoppedFalsely(LogChannel.Step(s, a), id) <==> StoppedFalsely(s, id)
  {
    LinkMisreports(s, a, id);
    assert LogChannel.Step(s, a) == LinkStep(s, a);
  }

  lemma OnlyWorkersMisreport(s: Channel, a: LogChannel.Action, id: StreamId)
    requires !ByWorker(a)
    ensures !Misreport(s, a, id)
  {
  }

  /** Exactly the reader's own report makes a stream stop falsely, and nothing undoes it. */
  lemma StepMisreports(s: Channel, a: LogChannel.Action, id: StreamId)
    requires LogChannel.Wf(s) && StreamOk(s, id)
    ensures StoppedFalsely(LogChannel.Step(s, a), id) <==> StoppedFalsely(s, id) || Misreport(s, a, id)
  {
    if ByWorker(a) {
      WorkerStepMisreports(s, a, id);
    } else {
      OnlyWorkersMisreport(s, a, id);
      if ByLink(a) {
        LinkStepMisreports(s, a, id);
      } else if ByRegistry(a) {
        RegistryMisreports(s, a, id);
      } else {
        HandlerMisreports(s, a, id);
      }
    }
  }

  lemma {:induction false} RunMisreports(s: Channel, actions: seq<LogChannel.Action>, id: StreamId)
    requires Inv(s)
    ensures StoppedFalsely(LogChannel.Run(s, actions), id) <==> StoppedFalsely(s, id) || Misreported(s, actions, id)
    decreases |actions|
  {
    if actions != [] {
      assert StreamOk(s, id);
      StepMisreports(s, actions[0], id);
      StepKeeps(s, actions[0]);
      RunMisreports(LogChannel.Step(s, actions[0]), actions[1..], id);
    }
  }

  // ---------------------------------------------------------------- end to end

  /**
    End-to-end completeness. In every interleaving, and whatever part of the hub's output reaches
    the client before the transport ends: if the client's parser succeeds, it holds every line that
    the stream's reader produced, in order, and the reader had reached the end of its log exactly
    when it never reported a context error that nobody caused. Other streams' readers do not matter.
   */
  lemma EndToEnd(actions: seq<LogChannel.Action>, id: StreamId, k: nat, readError: bool)
    requires id in LogChannel.Run(Start0, actions).handlers && k <= |LogChannel.Run(Start0, actions).handlers[id].out|
    requires Sse.ParseBody(LogChannel.Run(Start0, actions).handlers[id].out[..k], readError).Complete?
    ensures var s := LogChannel.Run(Start0, actions);
      && id in s.workers && s.workers[id].state == Ended("")
      && Sse.ParseBody(s.handlers[id].out[..k], readError) == Sse.Complete(ReceivedAll(s.workers[id].read))
      && (s.workers[id].stop == Some(Eof) <==> !Misreported(Start0, actions, id))
  {
    RunKeeps(Start0, actions);
    CompleteMeansAll(LogChannel.Run(Start0, actions), id, k, readError);
    RunMisreports(Start0, actions, id);
  }

  ghost predicate Clean(lines: seq<string>) {
    forall i :: 0 <= i < |lines| ==> !Sse.HasBareCr(lines[i])
  }

  function Normalized(lines: seq<string>): seq<string> {
    if lines == [] then [] else [Sse.NormalizeNewlines(lines[0])] + Normalized(lines[1..])
  }

  /** Lines without bare carriage returns arrive unchanged but for CRLF becoming LF. */
  lemma {:induction false} CleanLinesArrive(lines: seq<string>)
    requires Clean(lines)
    ensures ReceivedAll(lines) == Normalized(lines)
  {
    if lines != [] {
      Sse.CleanLineReceived(lines[0]);
      assert Clean(lines[1..]);
      CleanLinesArrive(lines[1..]);
    }
  }

  lemma EndedHolds(s: Channel, id: StreamId)
    requires Inv(s) && id in s.handlers && s.handlers[id].terminal == EndEvent
    ensures id in s.workers && EndedCleanly(s.workers[id].stop)
    ensures Texts(s.handlers[id].chunks) == s.workers[id].read
  {
    var h := s.handlers[id];
    assert StreamOk(s, id);
    TakenIsSent(id, h.taken, s.relay.conns[h.conn], s.links[h.conn], SentBy(WorkerOf(s, id)));
    EndMeansAll(id, WorkerOf(s, id), h.taken);
  }

  /** The converse: a whole stream with its end event parses, unless a part overflows the scanner. */
  lemma EndedStreamParses(actions: seq<LogChannel.Action>, id: StreamId, readError: bool)
    requires id in LogChannel.Run(Start0, actions).handlers
    requires LogChannel.Run(Start0, actions).handlers[id].terminal == EndEvent
    ensures var s := LogChannel.Run(Start0, actions);
      && id in s.workers
      && Sse.ParseBody(s.handlers[id].out, readError)
         == if Sse.FitsScanner(s.handlers[id].chunks) then Sse.Complete(ReceivedAll(s.workers[id].read))
            else Sse.ScanFailed
  {
    RunKeeps(Start0, actions);
    var s := LogChannel.Run(Start0, actions);
    EndedHolds(s, id);
    var h := s.handlers[id];
    ReceivedTexts(h.chunks);
    assert HandlerOk(h) by { PathOf(s, id); }
    assert h.out == Sse.PrintChunks(h.chunks) + (Sse.PrintEnd() + "");
    Sse.RoundTrip(h.chunks, "", readError);
  }

  // ---------------------------------------------------------------- from the pod's text to the client

  /** What Streamer.Stream promises of the lines it has emitted from a pod's text, and of its verdict. */
  ghost predicate Reads(w: Worker, text: string) {
    Streamer.IsPrefix(w.read, Streamer.Lines(text)) && (w.stop == Some(Eof) ==> w.read == Streamer.Lines(text))
  }

  lemma {:induction false} TextIsListed(chunks: seq<Sse.Chunk>, i: nat)
    requires i < |chunks| && chunks[i].LogLine?
    ensures chunks[i].text in Texts(chunks)
    decreases |chunks|
  {
    if i > 0 { TextIsListed(chunks[1..], i - 1); }
  }

  lemma ShortLinesFit(chunks: seq<Sse.Chunk>)
    requires forall line :: line in Texts(chunks) ==> |line| <= Streamer.MAX_LINE
    ensures Sse.FitsScanner(chunks)
  {
    forall i, j | 0 <= i < |chunks| && chunks[i].LogLine? && 0 <= j < |Sse.Parts(chunks[i].text)|
      ensures |Sse.Parts(chunks[i].text)[j]| + 6 < Sse.MAX_LINE
    {
      TextIsListed(chunks, i);
      Sse.PartIsShort(chunks[i].text, j);
    }
  }

  /** A whole ended stream of a worker that reads a pod's text parses to all lines of that text. */
  lemma WholeLogArrives(actions: seq<LogChannel.Action>, id: StreamId, text: string, readError: bool)
    requires var s := LogChannel.Run(Start0, actions);
      id in s.handlers && s.handlers[id].terminal == EndEvent && (id in s.workers ==> Reads(s.workers[id], text))
    requires !Misreported(Start0, actions, id)
    ensures Sse.ParseBody(LogChannel.Run(Start0, actions).handlers[id].out, readError)
         == Sse.Complete(ReceivedAll(Streamer.Lines(text)))
  {
    var s := LogChannel.Run(Start0, actions);
    RunKeeps(Start0, actions);
    RunMisreports(Start0, actions, id);
    EndedStreamParses(actions, id, readError);
    EndedHolds(s, id);
    forall line | line in Texts(s.handlers[id].chunks) ensures |line| <= Streamer.MAX_LINE {
      var i :| 0 <= i < |Streamer.Lines(text)| && Streamer.Lines(text)[i] == line;
      Streamer.LinesFit(text, i);
    }
    ShortLinesFit(s.handlers[id].chunks);
  }
}
