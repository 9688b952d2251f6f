/**
  The pod-log reverse channel end to end, as a state machine over its concurrent parts: agent
  workers, the shared outbound queue, the connection, the hub's relay, and the SSE handlers.
  Sources: internal/agent/logs/client.go, internal/server/logrelay.go, internal/server/handlers_logs.go.

  Every action is one atomic step of one goroutine, so a sequence of actions is one interleaving.
 */
module LogChannel {
  import opened Text
  import opened LogRelay
  import Sse

  const AGENT_QUEUE: nat := 256   // sendQueueSize

  // ---------------------------------------------------------------- the parts

  /** How a pod log stopped: at its end, on a read error, or with a context error. */
  datatype Stopped = Eof | Failed(reason: string) | Canceled

  datatype WorkerState = Running | Finishing(error: string) | Ended(error: string) | GaveUp

  /**
    runStream: the lines its reader produced, the frames it queued, and what Stream returned while
    nobody had cancelled it.
   */
  datatype Worker = Worker(conn: ConnId, read: seq<string>, sent: seq<Frame>, state: WorkerState,
                           cancelled: bool, stop: Option<Stopped>)

  /** One WebSocket connection. `received` is the history of frames the hub has read from it. */
  datatype Link = Link(control: seq<Frame>, controlWire: seq<Frame>,
                       outbound: seq<Frame>, wire: seq<Frame>, broken: bool, received: seq<Frame>)

  /**
    open and Close enqueue a request in two critical sections, the check of the closed flag and the
    send, and take the stream off the connection in a third: `Starting` and `Stopping` have passed the
    check, `Dropping` still owes the removal.
   */
  datatype Phase = Opening | Starting | Streaming | Finished | Stopping | Dropping | Released
  datatype Terminal = NoTerminal | EndEvent | ErrorEvent(message: string)

  /** handleClusterPodLogs: the messages it took and what it printed. */
  datatype Handler = Handler(conn: ConnId, phase: Phase, taken: seq<Frame>,
                             chunks: seq<Sse.Chunk>, terminal: Terminal, out: string)

  datatype Channel = Channel(relay: Relay, links: map<ConnId, Link>,
                             workers: map<StreamId, Worker>, handlers: map<StreamId, Handler>)

  datatype Action =
    | Connect(conn: ConnId, cluster: ClusterId)     // register, first half
    | Detach(conn: ConnId)                          // unregister, first half
    | CloseAllStreams(conn: ConnId)                 // the closeAll either of them owes
    | Open(conn: ConnId, id: StreamId)              // open: addStream
    | CheckStart(id: StreamId)                      // open: enqueue sees whether the connection is closed
    | SendStart(id: StreamId)                       // open: enqueue sends the start frame
    | WriteControl(conn: ConnId)                    // writeAgentLogFrames
    | ReadControl(conn: ConnId)                     // the agent's reader goroutine
    | CancelWorker(id: StreamId)                    // the agent's context ends
    | EmitLine(id: StreamId, line: string)          // sendFrame of one line
    | LoseLine(id: StreamId, line: string)          // sendFrame chose ctx.Done
    | StopReading(id: StreamId, how: Stopped)       // Stream returned
    | SendEnd(id: StreamId)
    | GiveUp(id: StreamId)
    | Write(conn: ConnId)                           // writeFrames
    | Break(conn: ConnId, kept: nat)                // the connection fails; part of the flight survives
    | Receive(conn: ConnId)                         // readAgentLogFrames
    | Tick(id: StreamId)                            // keep-alive
    | RelayOne(id: StreamId)                        // the handler takes a message or sees its queue closed
    | Abandon(id: StreamId)                         // the browser left or a write failed
    | CheckStop(id: StreamId)                       // logStream.Close: enqueue sees whether the connection is closed
    | SendStop(id: StreamId)                        // logStream.Close: enqueue sends the stop frame
    | Drop(id: StreamId)                            // removeStream, after a failed start or a stop

  /** Whose step an action is. */
  datatype Party = TheRegistry | TheLink | TheWorker | TheHandler

  function PartyOf(a: Action): Party {
    match a
    case Connect(_, _) => TheRegistry
    case Detach(_) => TheRegistry
    case CloseAllStreams(_) => TheRegistry
    case Open(_, _) => TheRegistry
    case WriteControl(_) => TheLink
    case ReadControl(_) => TheLink
    case Write(_) => TheLink
    case Break(_, _) => TheLink
    case Receive(_) => TheLink
    case CancelWorker(_) => TheWorker
    case EmitLine(_, _) => TheWorker
    case LoseLine(_, _) => TheWorker
    case StopReading(_, _) => TheWorker
    case SendEnd(_) => TheWorker
    case GiveUp(_) => TheWorker
    case _ => TheHandler
  }

  predicate ByRegistry(a: Action) { PartyOf(a) == TheRegistry }
  predicate ByLink(a: Action) { PartyOf(a) == TheLink }
  predicate ByWorker(a: Action) { PartyOf(a) == TheWorker }
  predicate ByHandler(a: Action) { PartyOf(a) == TheHandler }

  // ---------------------------------------------------------------- steps

  function OpenFailure(): string { "the agent log channel closed unexpectedly" }

  function Escape(s: string): string {
    if s == "" then ""
    else (if s[0] == '\n' then "\\n" else if s[0] == '\r' then "\\r"
          else if s[0] == '"' then "\\\"" else if s[0] == '\\' then "\\\\" else [s[0]]) + Escape(s[1..])
  }

  /** The JSON body of writeSSEError. */
  function ErrorPayload(message: string): string { "{\"message\":\"" + Escape(message) + "\"}" }

  function TerminalText(t: Terminal): string {
    match t
    case NoTerminal => ""
    case EndEvent => Sse.PrintEnd()
    case ErrorEvent(message) => Sse.PrintEvent("stream-error", ErrorPayload(message))
  }

  /** deliver is only called for data and end frames. */
  predicate FromAgent(f: Frame) { f.Data? || f.End? }

  function PrintLine(h: Handler, chunk: Sse.Chunk): Handler {
    h.(chunks := h.chunks + [chunk], out := h.out + Sse.PrintChunk(chunk))
  }

  function PrintTerminal(h: Handler, t: Terminal): Handler {
    h.(terminal := t, out := h.out + TerminalText(t), phase := Finished)
  }

  /** One turn of the relay loop on a received message. */
  function OnMessage(h: Handler, m: Frame): Handler {
    var h' := h.(taken := h.taken + [m]);
    match m
    case Data(_, line) => PrintLine(h', Sse.LogLine(line))
    case End(_, error) => PrintTerminal(h', if error != "" then ErrorEvent(error) else EndEvent)
    case _ => h'
  }

  function Append(link: Link, frame: Frame): Link { link.(outbound := link.outbound + [frame]) }

  function ErrorOf(how: Stopped): string {
    if how.Failed? then "read pod logs: " + how.reason else ""
  }

  function SetRelay(s: Channel, r: LogRelay.Relay): Channel { s.(relay := r) }
  function SetLink(s: Channel, c: ConnId, l: Link): Channel { s.(links := s.links[c := l]) }
  function SetWorker(s: Channel, id: StreamId, w: Worker): Channel { s.(workers := s.workers[id := w]) }
  function SetHandler(s: Channel, id: StreamId, h: Handler): Channel { s.(handlers := s.handlers[id := h]) }

  ghost predicate Wf(s: Channel) { LogRelay.Wf(s.relay) }

  ghost function HubStep(s: Channel, a: LogRelay.Action): (t: Channel)
    requires Wf(s)
    ensures Wf(t)
  {
    SetRelay(s, LogRelay.Step(s.relay, a))
  }

  /** The agent's reader goroutine on one control frame: startStream or a stop. */
  function OnControl(s: Channel, c: ConnId, frame: Frame): Channel {
    var id := frame.id;
    if frame.Start? then
      if id == "" || id in s.workers then s
      else SetWorker(s, id, Worker(c, [], [], Running, false, None))
    else if frame.Stop? && id in s.workers then SetWorker(s, id, s.workers[id].(cancelled := true))
    else s
  }

  /** A step of the agent's half of a stream. */
  function WorkerStep(s: Channel, a: Action): (t: Channel)
    ensures t.relay == s.relay
    requires ByWorker(a)
  {
    if a.id !in s.workers || s.workers[a.id].conn !in s.links then s
    else
      var id, w := a.id, s.workers[a.id];
      var link := s.links[w.conn];
      var room := |link.outbound| < AGENT_QUEUE;
      if a.CancelWorker? then SetWorker(s, id, w.(cancelled := true))
      else if a.EmitLine? then
        if !(w.state.Running? && room) then s
        else SetLink(SetWorker(s, id, w.(read := w.read + [a.line], sent := w.sent + [Data(id, a.line)])),
                     w.conn, Append(link, Data(id, a.line)))
      else if a.LoseLine? then
        if !(w.state.Running? && w.cancelled) then s
        else SetWorker(s, id, w.(read := w.read + [a.line], state := GaveUp))
      else if a.StopReading? then
        if !w.state.Running? then s
        else if w.cancelled then SetWorker(s, id, w.(state := GaveUp))
        else SetWorker(s, id, w.(state := Finishing(ErrorOf(a.how)), stop := Some(a.how)))
      else if a.SendEnd? then
        if !(w.state.Finishing? && room) then s
        else SetLink(SetWorker(s, id, w.(sent := w.sent + [End(id, w.state.error)], state := Ended(w.state.error))),
                     w.conn, Append(link, End(id, w.state.error)))
      else
        if !(w.cancelled && (w.state.Running? || w.state.Finishing?)) then s
        else SetWorker(s, id, w.(state := GaveUp))
  }

  /** A step of a connection. */
  ghost function LinkStep(s: Channel, a: Action): (t: Channel)
    requires Wf(s)
    ensures Wf(t)
    requires ByLink(a)
  {
    if a.conn !in s.links then s
    else
      var c, l := a.conn, s.links[a.conn];
      if a.WriteControl? then
        if l.control == [] then s
        else SetLink(s, c, l.(control := l.control[1..], controlWire := l.controlWire + [l.control[0]]))
      else if a.ReadControl? then
        if l.controlWire == [] then s
        else OnControl(SetLink(s, c, l.(controlWire := l.controlWire[1..])), c, l.controlWire[0])
      else if a.Write? then
        if l.broken || l.outbound == [] then s
        else SetLink(s, c, l.(outbound := l.outbound[1..], wire := l.wire + [l.outbound[0]]))
      else if a.Break? then
        SetLink(s, c, l.(broken := true, wire := if a.kept <= |l.wire| then l.wire[..a.kept] else l.wire))
      else
        if l.wire == [] then s
        else
          var s' := SetLink(s, c, l.(wire := l.wire[1..], received := l.received + [l.wire[0]]));
          if FromAgent(l.wire[0]) then HubStep(s', RunDeliver(c, l.wire[0])) else s'
  }

  ghost predicate Placed(s: Channel, id: StreamId) {
    id in s.handlers && s.handlers[id].conn in s.relay.conns && s.handlers[id].conn in s.links
  }

  /** open's enqueue of the start frame. */
  ghost function OpeningStep(s: Channel, a: Action): (t: Channel)
    requires ByHandler(a) && Wf(s) && Placed(s, a.id)
    ensures Wf(t) && t.workers == s.workers
  {
    var id, h := a.id, s.handlers[a.id];
    var conn, link := s.relay.conns[h.conn], s.links[h.conn];
    if a.CheckStart? && h.phase.Opening? then
      SetHandler(s, id, h.(phase := if conn.closed then Dropping else Starting))
    else if a.SendStart? && h.phase.Starting? && |link.control| < SEND_QUEUE then
      SetLink(SetHandler(s, id, h.(phase := Streaming)), h.conn, link.(control := link.control + [Start(id)]))
    else if a.SendStart? && h.phase.Starting? then SetHandler(s, id, h.(phase := Dropping))
    else s
  }

  /** The relay loop. */
  ghost function StreamingStep(s: Channel, a: Action): (t: Channel)
    requires ByHandler(a) && Wf(s) && Placed(s, a.id)
    ensures Wf(t) && t.workers == s.workers
  {
    var id, h := a.id, s.handlers[a.id];
    var conn := s.relay.conns[h.conn];
    if !h.phase.Streaming? then s
    else if a.Tick? then SetHandler(s, id, PrintLine(h, Sse.KeepAlive))
    else if a.Abandon? then SetHandler(s, id, h.(phase := Finished))
    else if !a.RelayOne? || id !in conn.queues then s
    else if conn.queues[id].items != [] then
      HubStep(SetHandler(s, id, OnMessage(h, conn.queues[id].items[0])), RunTake(h.conn, id))
    else if conn.queues[id].closed then SetHandler(s, id, PrintTerminal(h, ErrorEvent(OpenFailure())))
    else s
  }

  /** logStream.Close, and the removal that a failed open runs too. */
  ghost function ClosingStep(s: Channel, a: Action): (t: Channel)
    requires ByHandler(a) && Wf(s) && Placed(s, a.id)
    ensures Wf(t) && t.workers == s.workers
  {
    var id, h := a.id, s.handlers[a.id];
    var conn, link := s.relay.conns[h.conn], s.links[h.conn];
    if a.CheckStop? && h.phase.Finished? then
      SetHandler(s, id, h.(phase := if conn.closed then Dropping else Stopping))
    else if a.SendStop? && h.phase.Stopping? then
      SetLink(SetHandler(s, id, h.(phase := Dropping)), h.conn,
              if |link.control| < SEND_QUEUE then link.(control := link.control + [Stop(id)]) else link)
    else if a.Drop? && h.phase.Dropping? then
      HubStep(SetHandler(s, id, h.(phase := Released)), RunRemoveStream(h.conn, id))
    else s
  }

  /** A step of an SSE handler. */
  ghost function HandlerStep(s: Channel, a: Action): (t: Channel)
    requires Wf(s)
    ensures Wf(t) && t.workers == s.workers
    requires ByHandler(a)
  {
    if !Placed(s, a.id) then s
    else if a.CheckStart? || a.SendStart? then OpeningStep(s, a)
    else if a.Tick? || a.RelayOne? || a.Abandon? then StreamingStep(s, a)
    else ClosingStep(s, a)
  }

  /** A step of the hub's registry. */
  ghost function RegistryStep(s: Channel, a: Action): (t: Channel)
    requires Wf(s)
    requires ByRegistry(a)
    ensures Wf(t)
  {
    if a.Connect? then
      if a.conn in s.relay.conns || a.conn in s.links then s
      else SetLink(HubStep(s, RegisterSwap(a.conn, a.cluster)), a.conn, Link([], [], [], [], false, []))
    else if a.Detach? then HubStep(s, UnregisterDetach(a.conn))
    else if a.CloseAllStreams? then HubStep(s, RunCloseAll(a.conn))
    else
      if a.id == "" || a.conn !in s.relay.conns || UsedId(s.relay, a.id) || s.relay.conns[a.conn].closed then s
      else SetHandler(HubStep(s, RunAddStream(a.conn, a.id)), a.id, Handler(a.conn, Opening, [], [], NoTerminal, ""))
  }

  ghost function Step(s: Channel, a: Action): (t: Channel)
    requires Wf(s)
    ensures Wf(t)
  {
    if ByRegistry(a) then RegistryStep(s, a)
    else if ByLink(a) then LinkStep(s, a)
    else if ByHandler(a) then HandlerStep(s, a)
    else WorkerStep(s, a)
  }

  ghost function Run(s: Channel, actions: seq<Action>): (t: Channel)
    requires Wf(s)
    ensures Wf(t)
    decreases |actions|
  {
    if actions == [] then s else Run(Step(s, actions[0]), actions[1..])
  }

  const Start0: Channel := Channel(LogRelay.Empty, map[], map[], map[])

  // ---------------------------------------------------------------- invariant of one stream

  /** The frames of one stream among those of a connection. */
  function Of(id: StreamId, frames: seq<Frame>): seq<Frame> {
    if frames == [] then []
    else (if frames[0].id == id then [frames[0]] else []) + Of(id, frames[1..])
  }

  lemma {:induction false} OfAppend(id: StreamId, a: seq<Frame>, b: seq<Frame>)
    ensures Of(id, a + b) == Of(id, a) + Of(id, b)
  {
    if a == [] {
      assert a + b == b;
    } else {
      assert (a + b)[1..] == a[1..] + b;
      OfAppend(id, a[1..], b);
      ConcatAssoc(if a[0].id == id then [a[0]] else [], Of(id, a[1..]), Of(id, b));
    }
  }

  ghost predicate DataOf(id: StreamId, frames: seq<Frame>, lines: seq<string>) {
    forall i :: 0 <= i < |frames| && i < |lines| ==> frames[i] == Data(id, lines[i])
  }

  /** What a worker has queued, in terms of what its reader produced. */
  ghost predicate WorkerOk(id: StreamId, w: Worker) {
    match w.state
    case Running => |w.sent| == |w.read| && DataOf(id, w.sent, w.read) && w.stop.None?
    case Finishing(error) =>
      && |w.sent| == |w.read| && DataOf(id, w.sent, w.read)
      && w.stop.Some? && error == ErrorOf(w.stop.value)
    case Ended(error) =>
      && |w.sent| == |w.read| + 1
      && DataOf(id, w.sent, w.read)
      && w.sent[|w.read|] == End(id, error)
      && w.stop.Some? && error == ErrorOf(w.stop.value)
    case GaveUp => |w.sent| <= |w.read| && DataOf(id, w.sent, w.read)
  }

  function SentBy(w: Option<Worker>): seq<Frame> { if w.None? then [] else w.value.sent }

  function Lines(frames: seq<Frame>): seq<string> {
    if frames == [] then []
    else (if frames[0].Data? then [frames[0].line] else []) + Lines(frames[1..])
  }

  function Texts(chunks: seq<Sse.Chunk>): seq<string> {
    if chunks == [] then []
    else (if chunks[0].LogLine? then [chunks[0].text] else []) + Texts(chunks[1..])
  }

  /** What a handler has printed, in terms of what it took. */
  ghost predicate HandlerOk(h: Handler) {
    && h.out == Sse.PrintChunks(h.chunks) + TerminalText(h.terminal)
    && Texts(h.chunks) == Lines(h.taken)
    && (h.terminal != NoTerminal ==> h.phase.Finished? || h.phase.Stopping? || h.phase.Dropping? || h.phase.Released?)
    && (h.terminal == EndEvent ==>
          h.taken != [] && h.taken[|h.taken| - 1].End? && h.taken[|h.taken| - 1].error == "")
  }

  /**
    The whole path of a stream: what its handler took and still has queued is a prefix of what the
    hub received for it, which, with what is in flight, is a prefix of what its worker queued.
   */
  ghost predicate PathOk(id: StreamId, taken: seq<Frame>, conn: Conn, link: Link, sent: seq<Frame>) {
    && id in conn.queues
    && taken + conn.queues[id].items <= Of(id, link.received)
    && (id in conn.active ==> taken + conn.queues[id].items == Of(id, link.received))
    && Of(id, link.received) + Of(id, link.wire) <= sent
    && (!link.broken ==> Of(id, link.received) + Of(id, link.wire) + Of(id, link.outbound) == sent)
  }

  ghost function WorkerOf(s: Channel, id: StreamId): Option<Worker> {
    if id in s.workers then Some(s.workers[id]) else None
  }

  ghost predicate StreamOk(s: Channel, id: StreamId) {
    && (id in s.handlers ==>
          var h := s.handlers[id];
          && h.conn in s.relay.conns && h.conn in s.links
          && HandlerOk(h)
          && PathOk(id, h.taken, s.relay.conns[h.conn], s.links[h.conn], SentBy(WorkerOf(s, id))))
    && (id in s.workers ==>
          && id in s.handlers && s.workers[id].conn == s.handlers[id].conn
          && WorkerOk(id, s.workers[id]))
  }

  ghost predicate Traffic(s: Channel, c: ConnId, frames: seq<Frame>) {
    forall f :: f in frames ==> FromAgent(f) && f.id in s.workers && s.workers[f.id].conn == c
  }

  ghost predicate Requests(s: Channel, c: ConnId, frames: seq<Frame>) {
    forall f :: f in frames && f.Start? ==> f.id in s.handlers && s.handlers[f.id].conn == c
  }

  ghost predicate LinkOk(s: Channel, c: ConnId) {
    c in s.links ==>
      var l := s.links[c];
      && Traffic(s, c, l.received) && Traffic(s, c, l.wire) && Traffic(s, c, l.outbound)
      && Requests(s, c, l.control) && Requests(s, c, l.controlWire)
  }

  ghost predicate Base(s: Channel) {
    && Safe(s.relay)
    && s.links.Keys == s.relay.conns.Keys
    && (forall c :: c in s.relay.conns ==> Owned(s, c))
  }

  /** Every queue of a connection belongs to a handler that uses this connection. */
  ghost predicate Owned(s: Channel, c: ConnId)
    requires c in s.relay.conns
  {
    forall id :: id in s.relay.conns[c].queues ==> id in s.handlers && s.handlers[id].conn == c
  }

  ghost predicate Inv(s: Channel) {
    && Base(s)
    && (forall id :: StreamOk(s, id))
    && (forall c :: LinkOk(s, c))
  }

  // ---------------------------------------------------------------- one stream's path, step by step

  lemma PathDeliver(id: StreamId, taken: seq<Frame>, conn: Conn, link: Link, sent: seq<Frame>)
    requires conn.Safe() && PathOk(id, taken, conn, link, sent)
    requires link.wire != []
    ensures PathOk(id, taken, conn.Deliver(link.wire[0]),
                   link.(wire := link.wire[1..], received := link.received + [link.wire[0]]), sent)
  {
    var frame := link.wire[0];
    OfAppend(id, link.received, [frame]);
    assert Of(id, [frame]) == if frame.id == id then [frame] else [];
    ConcatAssoc(Of(id, link.received), Of(id, [frame]), Of(id, link.wire[1..]));
    if frame.id == id && id in conn.active {
      ConcatAssoc(taken, conn.queues[id].items, [frame]);
    }
  }

  lemma PathTake(id: StreamId, taken: seq<Frame>, conn: Conn, link: Link, sent: seq<Frame>)
    requires PathOk(id, taken, conn, link, sent)
    requires conn.queues[id].items != []
    ensures PathOk(id, taken + [conn.queues[id].items[0]], conn.Take(id), link, sent)
  {
    var items := conn.queues[id].items;
    assert taken + [items[0]] + items[1..] == taken + items;
  }

  /** Nothing on the path of `id` changes except that its queue may have been closed. */
  lemma PathClosed(id: StreamId, taken: seq<Frame>, conn: Conn, conn': Conn, link: Link, sent: seq<Frame>)
    requires PathOk(id, taken, conn, link, sent)
    requires id in conn'.queues && conn'.queues[id].items == conn.queues[id].items
    requires id in conn'.active ==> id in conn.active
    ensures PathOk(id, taken, conn', link, sent)
  {
  }

  lemma PathWrite(id: StreamId, taken: seq<Frame>, conn: Conn, link: Link, sent: seq<Frame>)
    requires PathOk(id, taken, conn, link, sent)
    requires !link.broken && link.outbound != []
    ensures PathOk(id, taken, conn, link.(outbound := link.outbound[1..], wire := link.wire + [link.outbound[0]]), sent)
  {
    var frame := link.outbound[0];
    OfAppend(id, link.wire, [frame]);
    var got, mine, rest := Of(id, link.received), Of(id, [frame]), Of(id, link.outbound[1..]);
    assert Of(id, link.outbound) == mine + rest;
    ConcatAssoc(got + Of(id, link.wire), mine, rest);
    ConcatAssoc(got, Of(id, link.wire), mine);
  }

  lemma PathBreak(id: StreamId, taken: seq<Frame>, conn: Conn, link: Link, sent: seq<Frame>, kept: nat)
    requires PathOk(id, taken, conn, link, sent)
    requires kept <= |link.wire|
    ensures PathOk(id, taken, conn, link.(broken := true, wire := link.wire[..kept]), sent)
  {
    assert link.wire == link.wire[..kept] + link.wire[kept..];
    OfAppend(id, link.wire[..kept], link.wire[kept..]);
    ConcatAssoc(Of(id, link.received), Of(id, link.wire[..kept]), Of(id, link.wire[kept..]));
  }

  lemma PathAppend(id: StreamId, taken: seq<Frame>, conn: Conn, link: Link, sent: seq<Frame>, more: seq<Frame>)
    requires PathOk(id, taken, conn, link, sent)
    ensures PathOk(id, taken, conn, link.(outbound := link.outbound + more), sent + Of(id, more))
  {
    OfAppend(id, link.outbound, more);
    ConcatAssoc(Of(id, link.received) + Of(id, link.wire), Of(id, link.outbound), Of(id, more));
  }

  lemma {:induction false} OfNothing(id: StreamId, frames: seq<Frame>)
    requires forall f :: f in frames ==> f.id != id
    ensures Of(id, frames) == []
  {
    if frames != [] { OfNothing(id, frames[1..]); }
  }

  lemma {:induction false} OfAll(id: StreamId, frames: seq<Frame>)
    requires forall f :: f in frames ==> f.id == id
    ensures Of(id, frames) == frames
  {
    if frames != [] { OfAll(id, frames[1..]); }
  }

  // ---------------------------------------------------------------- worker steps

  ghost predicate Move(s: Channel, id: StreamId, w: Worker, more: seq<Frame>) {
    && Inv(s) && id in s.workers
    && w.conn == s.workers[id].conn && w.sent == s.workers[id].sent + more && WorkerOk(id, w)
    && w.conn in s.links
    && forall f :: f in more ==> f.id == id && FromAgent(f)
  }

  /** A worker moves on, queueing zero or one frame. */
  ghost function Moved(s: Channel, id: StreamId, w: Worker, more: seq<Frame>): Channel
    requires w.conn in s.links
  {
    SetLink(SetWorker(s, id, w), w.conn, s.links[w.conn].(outbound := s.links[w.conn].outbound + more))
  }

  lemma MovedSelf(s: Channel, id: StreamId, w: Worker, more: seq<Frame>)
    requires Move(s, id, w, more)
    ensures StreamOk(Moved(s, id, w, more), id)
  {
    assert StreamOk(s, id);
    OfAll(id, more);
    PathAppend(id, s.handlers[id].taken, s.relay.conns[w.conn], s.links[w.conn], s.workers[id].sent, more);
  }

  lemma MovedOther(s: Channel, id: StreamId, w: Worker, more: seq<Frame>, j: StreamId)
    requires Move(s, id, w, more) && j != id
    ensures StreamOk(Moved(s, id, w, more), j)
  {
    assert StreamOk(s, j);
    if j in s.handlers && s.handlers[j].conn == w.conn {
      var sent := SentBy(WorkerOf(s, j));
      OfNothing(j, more);
      assert sent + [] == sent;
      PathAppend(j, s.handlers[j].taken, s.relay.conns[w.conn], s.links[w.conn], sent, more);
    }
  }

  lemma MovedLink(s: Channel, id: StreamId, w: Worker, more: seq<Frame>, d: ConnId)
    requires Move(s, id, w, more)
    ensures LinkOk(Moved(s, id, w, more), d)
  {
    assert LinkOk(s, d);
  }

  lemma WorkerMoves(s: Channel, id: StreamId, w: Worker, more: seq<Frame>)
    requires Move(s, id, w, more)
    ensures Inv(Moved(s, id, w, more))
  {
    forall j ensures StreamOk(Moved(s, id, w, more), j) {
      if j == id { MovedSelf(s, id, w, more); } else { MovedOther(s, id, w, more, j); }
    }
    forall d ensures LinkOk(Moved(s, id, w, more), d) { MovedLink(s, id, w, more, d); }
  }

  lemma SetSame(s: Channel, c: ConnId)
    requires c in s.links
    ensures SetLink(s, c, s.links[c].(outbound := s.links[c].outbound + [])) == s
  {
    assert s.links[c].outbound + [] == s.links[c].outbound;
    assert s.links[c := s.links[c]] == s.links;
  }

  /** A worker moves on without queueing anything. */
  lemma WorkerRests(s: Channel, id: StreamId, w: Worker)
    requires Inv(s) && id in s.workers
    requires w.conn == s.workers[id].conn && w.sent == s.workers[id].sent && WorkerOk(id, w)
    ensures Inv(SetWorker(s, id, w))
  {
    assert StreamOk(s, id);
    assert w.sent == s.workers[id].sent + [];
    WorkerMoves(s, id, w, []);
    SetSame(SetWorker(s, id, w), w.conn);
  }

  lemma EmitKeeps(s: Channel, id: StreamId, line: string)
    requires Inv(s)
    ensures Inv(WorkerStep(s, EmitLine(id, line)))
  {
    if id in s.workers && s.workers[id].conn in s.links {
      var w := s.workers[id];
      assert StreamOk(s, id);
      if w.state.Running? && |s.links[w.conn].outbound| < AGENT_QUEUE {
        WorkerMoves(s, id, w.(read := w.read + [line], sent := w.sent + [Data(id, line)]), [Data(id, line)]);
      }
    }
  }

  lemma SendEndKeeps(s: Channel, id: StreamId)
    requires Inv(s)
    ensures Inv(WorkerStep(s, SendEnd(id)))
  {
    if id in s.workers && s.workers[id].conn in s.links {
      var w := s.workers[id];
      assert StreamOk(s, id);
      if w.state.Finishing? && |s.links[w.conn].outbound| < AGENT_QUEUE {
        var end := End(id, w.state.error);
        WorkerMoves(s, id, w.(sent := w.sent + [end], state := Ended(w.state.error)), [end]);
      }
    }
  }

  lemma RestIs(s: Channel, a: Action)
    requires ByWorker(a) && !a.EmitLine? && !a.SendEnd? && WorkerStep(s, a) != s
    requires a.id in s.workers ==> WorkerOk(a.id, s.workers[a.id])
    ensures a.id in s.workers && a.id in WorkerStep(s, a).workers
    ensures var w, w' := s.workers[a.id], WorkerStep(s, a).workers[a.id];
      && WorkerStep(s, a) == SetWorker(s, a.id, w')
      && w'.conn == w.conn && w'.sent == w.sent && WorkerOk(a.id, w')
  {
  }

  /** The worker steps that send nothing. */
  lemma RestKeeps(s: Channel, a: Action)
    requires Inv(s)
    requires ByWorker(a) && !a.EmitLine? && !a.SendEnd?
    ensures Inv(WorkerStep(s, a))
  {
    assert StreamOk(s, a.id);
    if WorkerStep(s, a) != s {
      RestIs(s, a);
      WorkerRests(s, a.id, WorkerStep(s, a).workers[a.id]);
    }
  }

  lemma WorkerStepKeeps(s: Channel, a: Action)
    requires Inv(s)
    requires ByWorker(a)
    ensures Inv(WorkerStep(s, a))
  {
    if a.EmitLine? {
      EmitKeeps(s, a.id, a.line);
    } else if a.SendEnd? {
      SendEndKeeps(s, a.id);
    } else {
      RestKeeps(s, a);
    }
  }

  // ---------------------------------------------------------------- steps local to one connection

  /** Only the link and the connection `c`, and handlers that use it, differ. */
  ghost predicate LocalShape(s: Channel, t: Channel, c: ConnId) {
    && c in s.relay.conns && c in t.relay.conns && c in t.links
    && t.relay == WithConn(s.relay, c, t.relay.conns[c])
    && t.links == s.links[c := t.links[c]]
    && t.workers == s.workers
    && t.handlers.Keys == s.handlers.Keys
    && t.relay.conns[c].queues.Keys == s.relay.conns[c].queues.Keys
    && (forall j :: j in s.handlers ==> t.handlers[j].conn == s.handlers[j].conn)
    && (forall j :: j in s.handlers && s.handlers[j].conn != c ==> t.handlers[j] == s.handlers[j])
  }

  ghost predicate LocalPaths(s: Channel, t: Channel, c: ConnId)
    requires LocalShape(s, t, c)
  {
    forall j :: j in s.handlers && s.handlers[j].conn == c ==>
      && HandlerOk(t.handlers[j])
      && PathOk(j, t.handlers[j].taken, t.relay.conns[c], t.links[c], SentBy(WorkerOf(s, j)))
  }

  ghost predicate LocalTo(s: Channel, t: Channel, c: ConnId) { LocalShape(s, t, c) && LocalPaths(s, t, c) }

  ghost predicate ConnMayBecome(s: Channel, c: ConnId, conn: Conn) {
    && c in s.relay.conns && conn.Safe()
    && ClosedQueuesFrozen(s.relay.conns[c], conn)
    && conn.cluster == s.relay.conns[c].cluster
    && (conn.closed ==> c in s.relay.retired)
    && (s.relay.conns[c].closed ==> conn.closed)
  }

  lemma LocalStream(s: Channel, t: Channel, c: ConnId, j: StreamId)
    requires Inv(s) && LocalTo(s, t, c)
    ensures StreamOk(t, j)
  {
    assert StreamOk(s, j);
  }

  lemma LocalLink(s: Channel, t: Channel, c: ConnId, d: ConnId)
    requires Inv(s) && LocalTo(s, t, c)
    requires LinkOk(s, c) ==> LinkOk(t, c)
    ensures LinkOk(t, d)
  {
    assert LinkOk(s, d) && LinkOk(s, c);
  }

  lemma LocalOwned(s: Channel, t: Channel, c: ConnId, d: ConnId)
    requires Base(s) && LocalShape(s, t, c) && d in s.relay.conns
    ensures d in t.relay.conns && Owned(t, d)
  {
    assert Owned(s, d);
  }

  lemma LocalSafe(s: Channel, t: Channel, c: ConnId)
    requires Safe(s.relay) && LocalShape(s, t, c) && ConnMayBecome(s, c, t.relay.conns[c])
    ensures Safe(t.relay) && t.relay.conns.Keys == s.relay.conns.Keys
  {
    WithConnSafe(s.relay, c, t.relay.conns[c]);
  }

  lemma LocalBase(s: Channel, t: Channel, c: ConnId)
    requires Base(s) && LocalShape(s, t, c)
    requires ConnMayBecome(s, c, t.relay.conns[c])
    ensures Base(t)
  {
    LocalSafe(s, t, c);
    forall d | d in t.relay.conns ensures Owned(t, d) { LocalOwned(s, t, c, d); }
  }

  lemma LocalKeeps(s: Channel, t: Channel, c: ConnId)
    requires Inv(s) && LocalTo(s, t, c)
    requires ConnMayBecome(s, c, t.relay.conns[c])
    requires LinkOk(t, c)
    ensures Inv(t)
  {
    LocalBase(s, t, c);
    forall j ensures StreamOk(t, j) { LocalStream(s, t, c, j); }
    forall d ensures LinkOk(t, d) { LocalLink(s, t, c, d); }
  }

  lemma ConnStays(s: Channel, c: ConnId)
    requires Inv(s) && c in s.relay.conns
    ensures ConnMayBecome(s, c, s.relay.conns[c])
    ensures WithConn(s.relay, c, s.relay.conns[c]) == s.relay
  {
    FrozenRefl(s.relay.conns[c]);
    assert s.relay.conns[c := s.relay.conns[c]] == s.relay.conns;
  }

  /** The hub runs one of its critical sections on a connection. */
  lemma HubStepOn(s: Channel, a: LogRelay.Action)
    requires Base(s) && a.conn in s.relay.conns
    requires a.RunDeliver? || a.RunTake? || a.RunRemoveStream? || (a.RunCloseAll? && a.conn in s.relay.retired)
    ensures HubStep(s, a) == SetRelay(s, WithConn(s.relay, a.conn, ConnAfter(s.relay.conns[a.conn], a)))
    ensures ConnMayBecome(s, a.conn, ConnAfter(s.relay.conns[a.conn], a))
    ensures ConnAfter(s.relay.conns[a.conn], a).queues.Keys == s.relay.conns[a.conn].queues.Keys
  {
    ConnAfterSafe(s.relay.conns[a.conn], a);
    ConnAfterKeys(s.relay.conns[a.conn], a);
  }

  lemma ConnAfterKeys(conn: Conn, a: LogRelay.Action)
    requires conn.Wf() && !a.RunAddStream?
    ensures ConnAfter(conn, a).queues.Keys == conn.queues.Keys
  {
  }

  // ---------------------------------------------------------------- link steps

  /** Only the link of `c` changes. */
  lemma LinkMoves(s: Channel, c: ConnId, l: Link)
    requires Inv(s) && c in s.links
    requires LinkOk(SetLink(s, c, l), c)
    requires forall j :: j in s.handlers && s.handlers[j].conn == c ==>
      PathOk(j, s.handlers[j].taken, s.relay.conns[c], l, SentBy(WorkerOf(s, j)))
    ensures Inv(SetLink(s, c, l))
  {
    ConnStays(s, c);
    forall j | j in s.handlers && s.handlers[j].conn == c ensures HandlerOk(s.handlers[j]) {
      assert StreamOk(s, j);
    }
    LocalKeeps(s, SetLink(s, c, l), c);
  }

  lemma PathOf(s: Channel, j: StreamId)
    requires Inv(s) && j in s.handlers
    ensures var h := s.handlers[j];
      && h.conn in s.relay.conns && h.conn in s.links && HandlerOk(h)
      && PathOk(j, h.taken, s.relay.conns[h.conn], s.links[h.conn], SentBy(WorkerOf(s, j)))
  {
    assert StreamOk(s, j);
  }

  lemma ControlMoves(s: Channel, c: ConnId, l: Link)
    requires Inv(s) && c in s.links
    requires l.(control := s.links[c].control, controlWire := s.links[c].controlWire) == s.links[c]
    requires Requests(s, c, l.control) && Requests(s, c, l.controlWire)
    ensures Inv(SetLink(s, c, l))
  {
    assert LinkOk(s, c);
    forall j | j in s.handlers && s.handlers[j].conn == c
      ensures PathOk(j, s.handlers[j].taken, s.relay.conns[c], l, SentBy(WorkerOf(s, j)))
    {
      PathOf(s, j);
    }
    LinkMoves(s, c, l);
  }

  lemma WriteKeeps(s: Channel, c: ConnId)
    requires Inv(s) && c in s.links && !s.links[c].broken && s.links[c].outbound != []
    ensures var l := s.links[c];
      Inv(SetLink(s, c, l.(outbound := l.outbound[1..], wire := l.wire + [l.outbound[0]])))
  {
    var l := s.links[c];
    var l' := l.(outbound := l.outbound[1..], wire := l.wire + [l.outbound[0]]);
    assert LinkOk(s, c);
    forall j | j in s.handlers && s.handlers[j].conn == c
      ensures PathOk(j, s.handlers[j].taken, s.relay.conns[c], l', SentBy(WorkerOf(s, j)))
    {
      PathOf(s, j);
      PathWrite(j, s.handlers[j].taken, s.relay.conns[c], l, SentBy(WorkerOf(s, j)));
    }
    LinkMoves(s, c, l');
  }

  lemma BreakKeeps(s: Channel, c: ConnId, kept: nat)
    requires Inv(s) && c in s.links && kept <= |s.links[c].wire|
    ensures Inv(SetLink(s, c, s.links[c].(broken := true, wire := s.links[c].wire[..kept])))
  {
    var l := s.links[c];
    var l' := l.(broken := true, wire := l.wire[..kept]);
    assert LinkOk(s, c);
    forall j | j in s.handlers && s.handlers[j].conn == c
      ensures PathOk(j, s.handlers[j].taken, s.relay.conns[c], l', SentBy(WorkerOf(s, j)))
    {
      PathOf(s, j);
      PathBreak(j, s.handlers[j].taken, s.relay.conns[c], l, SentBy(WorkerOf(s, j)), kept);
    }
    LinkMoves(s, c, l');
  }

  lemma ReceiveKeeps(s: Channel, c: ConnId)
    requires Inv(s) && c in s.links && s.links[c].wire != []
    ensures FromAgent(s.links[c].wire[0])
    ensures var l := s.links[c];
      Inv(HubStep(SetLink(s, c, l.(wire := l.wire[1..], received := l.received + [l.wire[0]])),
                  RunDeliver(c, l.wire[0])))
  {
    var l := s.links[c];
    var frame := l.wire[0];
    assert LinkOk(s, c);
    var l' := l.(wire := l.wire[1..], received := l.received + [frame]);
    var s' := SetLink(s, c, l');
    HubStepOn(s', RunDeliver(c, frame));
    var conn := s.relay.conns[c];
    var t := SetRelay(s', WithConn(s.relay, c, conn.Deliver(frame)));
    forall j | j in s.handlers && s.handlers[j].conn == c
      ensures HandlerOk(s.handlers[j])
      ensures PathOk(j, s.handlers[j].taken, conn.Deliver(frame), l', SentBy(WorkerOf(s, j)))
    {
      PathOf(s, j);
      PathDeliver(j, s.handlers[j].taken, conn, l, SentBy(WorkerOf(s, j)));
    }
    LocalKeeps(s, t, c);
  }

  lemma StartKeeps(s: Channel, c: ConnId, id: StreamId)
    requires Inv(s) && id !in s.workers
    requires id in s.handlers && s.handlers[id].conn == c
    ensures Inv(SetWorker(s, id, Worker(c, [], [], Running, false, None)))
  {
    var t := SetWorker(s, id, Worker(c, [], [], Running, false, None));
    forall j ensures StreamOk(t, j) { assert StreamOk(s, j); }
    forall d ensures LinkOk(t, d) { assert LinkOk(s, d); }
  }

  lemma ControlKeeps(s: Channel, c: ConnId, frame: Frame)
    requires Inv(s) && c in s.links && Requests(s, c, [frame])
    ensures Inv(OnControl(s, c, frame))
  {
    assert frame in [frame];
    if frame.Start? && frame.id != "" && frame.id !in s.workers {
      StartKeeps(s, c, frame.id);
    } else if frame.Stop? && frame.id in s.workers {
      assert StreamOk(s, frame.id);
      WorkerRests(s, frame.id, s.workers[frame.id].(cancelled := true));
    }
  }

  lemma LinkStepKeeps(s: Channel, a: Action)
    requires Inv(s)
    requires ByLink(a)
    ensures Inv(LinkStep(s, a))
  {
    if a.conn in s.links {
      var c, l := a.conn, s.links[a.conn];
      assert LinkOk(s, c);
      if a.WriteControl? {
        if l.control != [] {
          ControlMoves(s, c, l.(control := l.control[1..], controlWire := l.controlWire + [l.control[0]]));
        }
      } else if a.ReadControl? {
        if l.controlWire != [] {
          var l' := l.(controlWire := l.controlWire[1..]);
          ControlMoves(s, c, l');
          assert l.controlWire[0] in l.controlWire;
          ControlKeeps(SetLink(s, c, l'), c, l.controlWire[0]);
        }
      } else if a.Write? {
        if !l.broken && l.outbound != [] { WriteKeeps(s, c); }
      } else if a.Break? {
        assert l.wire[..|l.wire|] == l.wire;
        BreakKeeps(s, c, if a.kept <= |l.wire| then a.kept else |l.wire|);
      } else if l.wire != [] {
        ReceiveKeeps(s, c);
      }
    }
  }
}
