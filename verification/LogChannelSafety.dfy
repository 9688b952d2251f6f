/**
  The handlers' and the registry's steps, and with them every step, keep the invariant of `LogChannel`.
  Sources: internal/server/logrelay.go, internal/server/handlers_logs.go.
 */
module LogChannelSafety {
  import opened Text
  import opened LogRelay
  import opened LogChannel
  import Sse

  // ---------------------------------------------------------------- handler steps

  /** The handler of `id` moves to `h`, its connection to `conn`, its link to `l`. */
  ghost function Handled(s: Channel, id: StreamId, h: Handler, conn: Conn, l: Link): Channel {
    SetRelay(SetLink(SetHandler(s, id, h), h.conn, l), WithConn(s.relay, h.conn, conn))
  }

  ghost predicate LinkMayBecome(s: Channel, c: ConnId, l: Link) {
    && c in s.links
    && l.(control := s.links[c].control) == s.links[c]
    && Requests(s, c, l.control)
  }

  /** Queues of `conn` other than that of `id` hold what they held. */
  ghost predicate OthersKeepTheirItems(before: Conn, after: Conn, id: StreamId) {
    && after.active <= before.active
    && after.queues.Keys == before.queues.Keys
    && forall j :: j in before.queues && j != id ==> after.queues[j].items == before.queues[j].items
  }

  ghost predicate HandlerMayBecome(s: Channel, id: StreamId, h: Handler, conn: Conn) {
    && id in s.handlers && h.conn == s.handlers[id].conn
    && h.conn in s.relay.conns && h.conn in s.links
    && OthersKeepTheirItems(s.relay.conns[h.conn], conn, id)
    && HandlerOk(h)
    && PathOk(id, h.taken, conn, s.links[h.conn], SentBy(WorkerOf(s, id)))
  }

  lemma HandledStream(s: Channel, id: StreamId, h: Handler, conn: Conn, l: Link, j: StreamId)
    requires Inv(s) && HandlerMayBecome(s, id, h, conn)
    requires l.(control := s.links[h.conn].control) == s.links[h.conn]
    requires j in s.handlers && s.handlers[j].conn == h.conn
    ensures HandlerOk(Handled(s, id, h, conn, l).handlers[j])
    ensures PathOk(j, Handled(s, id, h, conn, l).handlers[j].taken, conn, l, SentBy(WorkerOf(s, j)))
  {
    if j != id {
      PathOf(s, j);
      PathClosed(j, s.handlers[j].taken, s.relay.conns[h.conn], conn, s.links[h.conn], SentBy(WorkerOf(s, j)));
    }
  }

  lemma HandledShape(s: Channel, id: StreamId, h: Handler, conn: Conn, l: Link)
    requires HandlerMayBecome(s, id, h, conn)
    ensures LocalShape(s, Handled(s, id, h, conn, l), h.conn)
    ensures Handled(s, id, h, conn, l).relay.conns[h.conn] == conn && Handled(s, id, h, conn, l).links[h.conn] == l
  {
  }

  lemma HandledLocal(s: Channel, id: StreamId, h: Handler, conn: Conn, l: Link)
    requires Inv(s) && HandlerMayBecome(s, id, h, conn) && LinkMayBecome(s, h.conn, l)
    ensures LocalTo(s, Handled(s, id, h, conn, l), h.conn)
    ensures Handled(s, id, h, conn, l).relay.conns[h.conn] == conn
  {
    HandledShape(s, id, h, conn, l);
    var t := Handled(s, id, h, conn, l);
    forall j | j in s.handlers && s.handlers[j].conn == h.conn
      ensures HandlerOk(t.handlers[j]) && PathOk(j, t.handlers[j].taken, conn, l, SentBy(WorkerOf(s, j)))
    {
      HandledStream(s, id, h, conn, l, j);
    }
  }

  lemma HandledKeeps(s: Channel, id: StreamId, h: Handler, conn: Conn, l: Link)
    requires Inv(s) && HandlerMayBecome(s, id, h, conn)
    requires ConnMayBecome(s, h.conn, conn)
    requires LinkMayBecome(s, h.conn, l)
    ensures Inv(Handled(s, id, h, conn, l))
  {
    HandledLocal(s, id, h, conn, l);
    HandledLink(s, id, h, conn, l);
    LocalKeeps(s, Handled(s, id, h, conn, l), h.conn);
  }

  lemma HandledLink(s: Channel, id: StreamId, h: Handler, conn: Conn, l: Link)
    requires Inv(s) && HandlerMayBecome(s, id, h, conn) && LinkMayBecome(s, h.conn, l)
    ensures LinkOk(Handled(s, id, h, conn, l), h.conn)
  {
    assert LinkOk(s, h.conn);
  }

  lemma TextsSnoc(chunks: seq<Sse.Chunk>, chunk: Sse.Chunk)
    ensures Texts(chunks + [chunk]) == Texts(chunks) + (if chunk.LogLine? then [chunk.text] else [])
  {
    if chunks == [] {
      assert [] + [chunk] == [chunk];
    } else {
      assert (chunks + [chunk])[1..] == chunks[1..] + [chunk];
      TextsSnoc(chunks[1..], chunk);
    }
  }

  lemma LinesSnoc(frames: seq<Frame>, frame: Frame)
    ensures Lines(frames + [frame]) == Lines(frames) + (if frame.Data? then [frame.line] else [])
  {
    if frames == [] {
      assert [] + [frame] == [frame];
    } else {
      assert (frames + [frame])[1..] == frames[1..] + [frame];
      LinesSnoc(frames[1..], frame);
    }
  }

  /** Printing a chunk while the stream runs. */
  lemma PrintLineOk(h: Handler, chunk: Sse.Chunk, taken: seq<Frame>)
    requires HandlerOk(h) && h.phase.Streaming?
    requires Lines(taken) == Lines(h.taken) + (if chunk.LogLine? then [chunk.text] else [])
    ensures HandlerOk(PrintLine(h.(taken := taken), chunk))
  {
    TextsSnoc(h.chunks, chunk);
    Sse.PrintAppend(h.chunks, chunk);
    assert h.out == Sse.PrintChunks(h.chunks) + "" == Sse.PrintChunks(h.chunks);
    assert Sse.PrintChunks(h.chunks + [chunk]) + "" == Sse.PrintChunks(h.chunks + [chunk]);
  }

  lemma PrintTerminalOk(h: Handler, t: Terminal)
    requires HandlerOk(h) && h.phase.Streaming?
    requires t == EndEvent ==> h.taken != [] && h.taken[|h.taken| - 1].End? && h.taken[|h.taken| - 1].error == ""
    ensures HandlerOk(PrintTerminal(h, t))
  {
    assert h.out == Sse.PrintChunks(h.chunks) + "" == Sse.PrintChunks(h.chunks);
  }

  lemma OnMessageOk(h: Handler, m: Frame)
    requires HandlerOk(h) && h.phase.Streaming?
    ensures HandlerOk(OnMessage(h, m)) && OnMessage(h, m).taken == h.taken + [m]
    ensures OnMessage(h, m).conn == h.conn
  {
    LinesSnoc(h.taken, m);
    match m
    case Data(_, line) => PrintLineOk(h, Sse.LogLine(line), h.taken + [m]);
    case End(_, error) =>
      PrintTerminalOk(h.(taken := h.taken + [m]), if error != "" then ErrorEvent(error) else EndEvent);
    case _ =>
  }

  lemma TakeHandled(s: Channel, id: StreamId, h: Handler)
    requires Inv(s) && id in s.handlers && h.conn in s.relay.conns && h.conn in s.links
    ensures var conn := s.relay.conns[h.conn];
      && ConnMayBecome(s, h.conn, conn.Take(id))
      && OthersKeepTheirItems(conn, conn.Take(id), id)
      && HubStep(SetHandler(s, id, h), RunTake(h.conn, id)) == Handled(s, id, h, conn.Take(id), s.links[h.conn])
  {
    HubStepOn(s, RunTake(h.conn, id));
    LinkStays(s, h.conn);
  }

  lemma RelayMessageKeeps(s: Channel, id: StreamId)
    requires Inv(s) && id in s.handlers && s.handlers[id].phase.Streaming?
    requires s.handlers[id].conn in s.relay.conns
    requires var conn := s.relay.conns[s.handlers[id].conn]; id in conn.queues && conn.queues[id].items != []
    ensures var c := s.handlers[id].conn;
      Inv(HubStep(SetHandler(s, id, OnMessage(s.handlers[id], s.relay.conns[c].queues[id].items[0])), RunTake(c, id)))
  {
    var h := s.handlers[id];
    var c := h.conn;
    PathOf(s, id);
    var conn := s.relay.conns[c];
    var h' := OnMessage(h, conn.queues[id].items[0]);
    OnMessageOk(h, conn.queues[id].items[0]);
    PathTake(id, h.taken, conn, s.links[c], SentBy(WorkerOf(s, id)));
    LinkStays(s, c);
    TakeHandled(s, id, h');
    HandledKeeps(s, id, h', conn.Take(id), s.links[c]);
  }

  /** The handler alone moves on. */
  lemma HandlerMoves(s: Channel, id: StreamId, h: Handler, l: Link)
    requires Inv(s) && id in s.handlers
    requires h.conn == s.handlers[id].conn && h.taken == s.handlers[id].taken && HandlerOk(h)
    requires LinkMayBecome(s, h.conn, l)
    ensures Inv(SetLink(SetHandler(s, id, h), h.conn, l))
  {
    PathOf(s, id);
    ConnStays(s, h.conn);
    HandledKeeps(s, id, h, s.relay.conns[h.conn], l);
  }

  /** The handler moves on and takes its stream off the connection. */
  lemma HandlerDrops(s: Channel, id: StreamId, h: Handler, l: Link)
    requires Inv(s) && id in s.handlers
    requires h.conn == s.handlers[id].conn && h.taken == s.handlers[id].taken && HandlerOk(h)
    requires LinkMayBecome(s, h.conn, l)
    ensures Inv(HubStep(SetLink(SetHandler(s, id, h), h.conn, l), RunRemoveStream(h.conn, id)))
  {
    PathOf(s, id);
    var c := h.conn;
    var conn := s.relay.conns[c];
    DropHandled(s, id, h, l);
    PathClosed(id, h.taken, conn, conn.RemoveStream(id), s.links[c], SentBy(WorkerOf(s, id)));
    HandledKeeps(s, id, h, conn.RemoveStream(id), l);
  }

  lemma DropHandled(s: Channel, id: StreamId, h: Handler, l: Link)
    requires Base(s) && h.conn in s.relay.conns
    ensures var conn := s.relay.conns[h.conn];
      && ConnMayBecome(s, h.conn, conn.RemoveStream(id))
      && OthersKeepTheirItems(conn, conn.RemoveStream(id), id)
      && HubStep(SetLink(SetHandler(s, id, h), h.conn, l), RunRemoveStream(h.conn, id))
         == Handled(s, id, h, conn.RemoveStream(id), l)
  {
    HubStepOn(s, RunRemoveStream(h.conn, id));
  }

  lemma LinkStays(s: Channel, c: ConnId)
    requires Inv(s) && c in s.links
    ensures LinkMayBecome(s, c, s.links[c]) && s.links[c := s.links[c]] == s.links
  {
    assert LinkOk(s, c);
  }

  lemma RequestMayBeQueued(s: Channel, c: ConnId, frame: Frame)
    requires Inv(s) && c in s.links
    requires frame.Start? ==> frame.id in s.handlers && s.handlers[frame.id].conn == c
    ensures LinkMayBecome(s, c, s.links[c].(control := s.links[c].control + [frame]))
  {
    assert LinkOk(s, c);
  }

  /** A handler that only changes its phase, short of a terminal one it must not leave. */
  lemma PhaseOk(h: Handler, phase: Phase)
    requires HandlerOk(h) && (h.terminal == NoTerminal || phase.Stopping? || phase.Dropping? || phase.Released?)
    ensures HandlerOk(h.(phase := phase))
  {
  }

  /** A phase change with a request on the connection's control queue. */
  lemma RequestKeeps(s: Channel, id: StreamId, phase: Phase, frame: Frame)
    requires Inv(s) && id in s.handlers && s.handlers[id].conn in s.links
    requires s.handlers[id].terminal == NoTerminal || phase.Stopping? || phase.Dropping? || phase.Released?
    requires frame == Start(id) || frame == Stop(id)
    ensures var h := s.handlers[id]; var link := s.links[h.conn];
      Inv(SetLink(SetHandler(s, id, h.(phase := phase)), h.conn, link.(control := link.control + [frame])))
  {
    var h := s.handlers[id];
    PathOf(s, id);
    PhaseOk(h, phase);
    RequestMayBeQueued(s, h.conn, frame);
    HandlerMoves(s, id, h.(phase := phase), s.links[h.conn].(control := s.links[h.conn].control + [frame]));
  }

  lemma PhaseKeeps(s: Channel, id: StreamId, phase: Phase)
    requires Inv(s) && id in s.handlers
    requires s.handlers[id].terminal == NoTerminal || phase.Stopping? || phase.Dropping? || phase.Released?
    ensures Inv(SetHandler(s, id, s.handlers[id].(phase := phase)))
  {
    PathOf(s, id);
    PhaseOk(s.handlers[id], phase);
    HandlerAlone(s, id, s.handlers[id].(phase := phase));
  }

  lemma CheckStartKeeps(s: Channel, id: StreamId)
    requires Inv(s)
    ensures Inv(HandlerStep(s, CheckStart(id)))
  {
    if id in s.handlers && s.handlers[id].phase.Opening? {
      PathOf(s, id);
      PhaseKeeps(s, id, if s.relay.conns[s.handlers[id].conn].closed then Dropping else Starting);
    }
  }

  lemma SendStartKeeps(s: Channel, id: StreamId)
    requires Inv(s)
    ensures Inv(HandlerStep(s, SendStart(id)))
  {
    if id in s.handlers && s.handlers[id].phase.Starting? {
      PathOf(s, id);
      if |s.links[s.handlers[id].conn].control| < SEND_QUEUE {
        RequestKeeps(s, id, Streaming, Start(id));
      } else {
        PhaseKeeps(s, id, Dropping);
      }
    }
  }

  lemma CheckStopKeeps(s: Channel, id: StreamId)
    requires Inv(s)
    ensures Inv(HandlerStep(s, CheckStop(id)))
  {
    if id in s.handlers && s.handlers[id].phase.Finished? {
      PathOf(s, id);
      PhaseKeeps(s, id, if s.relay.conns[s.handlers[id].conn].closed then Dropping else Stopping);
    }
  }

  lemma SendStopIs(s: Channel, id: StreamId)
    requires LogChannel.Wf(s) && Placed(s, id) && s.handlers[id].phase.Stopping?
    ensures var h := s.handlers[id]; var link := s.links[h.conn];
      HandlerStep(s, SendStop(id))
      == if |link.control| < SEND_QUEUE
         then SetLink(SetHandler(s, id, h.(phase := Dropping)), h.conn, link.(control := link.control + [Stop(id)]))
         else SetHandler(s, id, h.(phase := Dropping))
  {
    assert s.links[s.handlers[id].conn := s.links[s.handlers[id].conn]] == s.links;
  }

  lemma SendStopKeeps(s: Channel, id: StreamId)
    requires Inv(s)
    ensures Inv(HandlerStep(s, SendStop(id)))
  {
    if id in s.handlers && s.handlers[id].phase.Stopping? {
      PathOf(s, id);
      SendStopIs(s, id);
      if |s.links[s.handlers[id].conn].control| < SEND_QUEUE {
        RequestKeeps(s, id, Dropping, Stop(id));
      } else {
        PhaseKeeps(s, id, Dropping);
      }
    }
  }

  lemma DropKeeps(s: Channel, id: StreamId)
    requires Inv(s)
    ensures Inv(HandlerStep(s, Drop(id)))
  {
    if id in s.handlers && s.handlers[id].phase.Dropping? {
      var h := s.handlers[id];
      PathOf(s, id);
      PhaseOk(h, Released);
      LinkStays(s, h.conn);
      HandlerDrops(s, id, h.(phase := Released), s.links[h.conn]);
      DropIs(s, id);
    }
  }

  lemma DropIs(s: Channel, id: StreamId)
    requires LogChannel.Wf(s) && id in s.handlers && s.handlers[id].phase.Dropping?
    requires s.handlers[id].conn in s.relay.conns && s.handlers[id].conn in s.links
    ensures var h := s.handlers[id];
      HandlerStep(s, Drop(id))
      == HubStep(SetLink(SetHandler(s, id, h.(phase := Released)), h.conn, s.links[h.conn]),
        RunRemoveStream(h.conn, id))
  {
    assert s.links[s.handlers[id].conn := s.links[s.handlers[id].conn]] == s.links;
  }

  lemma RelayIs(s: Channel, id: StreamId)
    requires LogChannel.Wf(s) && Placed(s, id) && s.handlers[id].phase.Streaming?
    requires id in s.relay.conns[s.handlers[id].conn].queues
    ensures var h := s.handlers[id]; var queue := s.relay.conns[h.conn].queues[id];
      HandlerStep(s, RelayOne(id))
      == if queue.items != [] then HubStep(SetHandler(s, id, OnMessage(h, queue.items[0])), RunTake(h.conn, id))
         else if queue.closed then SetHandler(s, id, PrintTerminal(h, ErrorEvent(OpenFailure())))
         else s
  {
  }

  lemma RelayKeeps(s: Channel, id: StreamId)
    requires Inv(s)
    ensures Inv(HandlerStep(s, RelayOne(id)))
  {
    if id in s.handlers && s.handlers[id].phase.Streaming? {
      var h := s.handlers[id];
      PathOf(s, id);
      RelayIs(s, id);
      if s.relay.conns[h.conn].queues[id].items != [] {
        RelayMessageKeeps(s, id);
      } else {
        PrintTerminalOk(h, ErrorEvent(OpenFailure()));
        HandlerAlone(s, id, PrintTerminal(h, ErrorEvent(OpenFailure())));
      }
    }
  }

  lemma HandlerAlone(s: Channel, id: StreamId, h: Handler)
    requires Inv(s) && id in s.handlers
    requires h.conn == s.handlers[id].conn && h.taken == s.handlers[id].taken && HandlerOk(h)
    ensures Inv(SetHandler(s, id, h))
  {
    PathOf(s, id);
    LinkStays(s, h.conn);
    HandlerMoves(s, id, h, s.links[h.conn]);
  }

  lemma TickKeeps(s: Channel, id: StreamId)
    requires Inv(s)
    ensures Inv(HandlerStep(s, Tick(id)))
  {
    if id in s.handlers && s.handlers[id].phase.Streaming? {
      var h := s.handlers[id];
      PathOf(s, id);
      assert Lines(h.taken) + [] == Lines(h.taken);
      PrintLineOk(h, Sse.KeepAlive, h.taken);
      HandlerAlone(s, id, PrintLine(h, Sse.KeepAlive));
    }
  }

  lemma AbandonKeeps(s: Channel, id: StreamId)
    requires Inv(s)
    ensures Inv(HandlerStep(s, Abandon(id)))
  {
    if id in s.handlers && s.handlers[id].phase.Streaming? {
      PathOf(s, id);
      PhaseKeeps(s, id, Finished);
    }
  }

  lemma HandlerStepKeeps(s: Channel, a: LogChannel.Action)
    requires Inv(s)
    requires ByHandler(a)
    ensures Inv(HandlerStep(s, a))
  {
    match a
    case CheckStart(id) => CheckStartKeeps(s, id);
    case SendStart(id) => SendStartKeeps(s, id);
    case RelayOne(id) => RelayKeeps(s, id);
    case CheckStop(id) => CheckStopKeeps(s, id);
    case SendStop(id) => SendStopKeeps(s, id);
    case Drop(id) => DropKeeps(s, id);
    case Tick(id) => TickKeeps(s, id);
    case Abandon(id) => AbandonKeeps(s, id);
    case _ =>
  }

  // ---------------------------------------------------------------- registry steps

  lemma RegistryMovesStream(s: Channel, t: Channel, j: StreamId)
    requires Inv(s)
    requires t.links == s.links && t.workers == s.workers && t.handlers == s.handlers
    requires t.relay.conns == s.relay.conns
    ensures StreamOk(t, j)
  {
    assert StreamOk(s, j);
  }

  /** Detaching leaves existing connections as they are. */
  lemma DetachShape(s: Channel, c: ConnId)
    requires LogChannel.Wf(s)
    ensures var t := HubStep(s, UnregisterDetach(c));
      t.links == s.links && t.workers == s.workers && t.handlers == s.handlers && t.relay.conns == s.relay.conns
  {
  }

  lemma DetachBase(s: Channel, c: ConnId)
    requires Base(s)
    ensures Base(HubStep(s, UnregisterDetach(c)))
  {
    var t := HubStep(s, UnregisterDetach(c));
    DetachSafe(s.relay, c);
    DetachShape(s, c);
    forall d | d in t.relay.conns ensures Owned(t, d) { assert Owned(s, d); }
  }

  lemma DetachKeeps(s: Channel, c: ConnId)
    requires Inv(s)
    ensures Inv(HubStep(s, UnregisterDetach(c)))
  {
    var t := HubStep(s, UnregisterDetach(c));
    DetachBase(s, c);
    DetachShape(s, c);
    forall j ensures StreamOk(t, j) { RegistryMovesStream(s, t, j); }
    forall d ensures LinkOk(t, d) { assert LinkOk(s, d); }
  }

  ghost function Connected(s: Channel, c: ConnId, cluster: ClusterId): Channel
    requires LogChannel.Wf(s)
  {
    SetLink(HubStep(s, RegisterSwap(c, cluster)), c, Link([], [], [], [], false, []))
  }

  lemma ConnectedStream(s: Channel, c: ConnId, cluster: ClusterId, j: StreamId)
    requires Inv(s) && c !in s.relay.conns
    ensures StreamOk(Connected(s, c, cluster), j)
  {
    assert StreamOk(s, j);
  }

  lemma ConnectedLink(s: Channel, c: ConnId, cluster: ClusterId, d: ConnId)
    requires Inv(s) && c !in s.relay.conns
    ensures LinkOk(Connected(s, c, cluster), d)
  {
    assert LinkOk(s, d);
  }

  lemma ConnectedShape(s: Channel, c: ConnId, cluster: ClusterId)
    requires LogChannel.Wf(s) && c !in s.relay.conns
    ensures var t := Connected(s, c, cluster);
      && t.relay == LogRelay.Step(s.relay, RegisterSwap(c, cluster)) && t.handlers == s.handlers
      && t.links.Keys == s.links.Keys + {c} && t.relay.conns.Keys == s.relay.conns.Keys + {c}
      && t.relay.conns[c].queues == map[]
      && forall d :: d in s.relay.conns ==> t.relay.conns[d] == s.relay.conns[d]
  {
  }

  lemma ConnectedBase(s: Channel, c: ConnId, cluster: ClusterId)
    requires Base(s) && c !in s.relay.conns
    ensures Base(Connected(s, c, cluster))
  {
    var t := Connected(s, c, cluster);
    ConnectedShape(s, c, cluster);
    RegisterSafe(s.relay, c, cluster);
    forall d | d in t.relay.conns ensures Owned(t, d) { if d != c { assert Owned(s, d); } }
  }

  lemma ConnectKeeps(s: Channel, c: ConnId, cluster: ClusterId)
    requires Inv(s) && c !in s.relay.conns
    ensures Inv(Connected(s, c, cluster))
  {
    var t := Connected(s, c, cluster);
    ConnectedBase(s, c, cluster);
    forall j ensures StreamOk(t, j) { ConnectedStream(s, c, cluster, j); }
    forall d ensures LinkOk(t, d) { ConnectedLink(s, c, cluster, d); }
  }

  lemma CloseAllKeeps(s: Channel, c: ConnId)
    requires Inv(s)
    ensures Inv(HubStep(s, RunCloseAll(c)))
  {
    if c in s.relay.conns && c in s.relay.retired {
      var conn := s.relay.conns[c];
      HubStepOn(s, RunCloseAll(c));
      LinkStays(s, c);
      var t := SetRelay(s, WithConn(s.relay, c, conn.CloseAll()));
      forall j | j in s.handlers && s.handlers[j].conn == c
        ensures HandlerOk(s.handlers[j])
        ensures PathOk(j, s.handlers[j].taken, conn.CloseAll(), s.links[c], SentBy(WorkerOf(s, j)))
      {
        PathOf(s, j);
        PathClosed(j, s.handlers[j].taken, conn, conn.CloseAll(), s.links[c], SentBy(WorkerOf(s, j)));
      }
      assert LinkOk(s, c);
      LocalKeeps(s, t, c);
    }
  }

  ghost function Opened(s: Channel, c: ConnId, id: StreamId): Channel
    requires c in s.relay.conns
  {
    SetHandler(SetRelay(s, WithConn(s.relay, c, s.relay.conns[c].AddStream(id).0)), id,
               Handler(c, Opening, [], [], NoTerminal, ""))
  }

  lemma OpenedStream(s: Channel, c: ConnId, id: StreamId, j: StreamId)
    requires Inv(s) && c in s.relay.conns && !s.relay.conns[c].closed && id !in s.handlers
    ensures StreamOk(Opened(s, c, id), j)
  {
    assert StreamOk(s, j) && StreamOk(s, id) && LinkOk(s, c);
    if j == id {
      var l := s.links[c];
      forall f | f in l.received ensures f.id != id { assert StreamOk(s, f.id); }
      forall f | f in l.wire ensures f.id != id { assert StreamOk(s, f.id); }
      forall f | f in l.outbound ensures f.id != id { assert StreamOk(s, f.id); }
      OfNothing(id, l.received);
      OfNothing(id, l.wire);
      OfNothing(id, l.outbound);
      assert Sse.PrintChunks([]) == "";
    }
  }

  lemma OpenedLink(s: Channel, c: ConnId, id: StreamId, d: ConnId)
    requires Inv(s) && c in s.relay.conns && id !in s.handlers
    ensures LinkOk(Opened(s, c, id), d)
  {
    assert LinkOk(s, d);
  }

  lemma OpenedShape(s: Channel, c: ConnId, id: StreamId)
    requires LogChannel.Wf(s) && c in s.relay.conns && !s.relay.conns[c].closed && !UsedId(s.relay, id)
    ensures HubStep(s, RunAddStream(c, id)) == SetRelay(s, Opened(s, c, id).relay)
  {
  }

  lemma OpenedSafe(s: Channel, c: ConnId, id: StreamId)
    requires Safe(s.relay) && c in s.relay.conns && !s.relay.conns[c].closed && !UsedId(s.relay, id)
    ensures Safe(Opened(s, c, id).relay)
  {
    ConnStepSafe(s.relay, RunAddStream(c, id));
    OpenedShape(s, c, id);
  }

  lemma OpenedOwned(s: Channel, c: ConnId, id: StreamId, d: ConnId)
    requires c in s.relay.conns && !s.relay.conns[c].closed && id !in s.handlers
    requires d in s.relay.conns && Owned(s, d)
    ensures Owned(Opened(s, c, id), d)
  {
  }

  lemma OpenedBase(s: Channel, c: ConnId, id: StreamId)
    requires Base(s) && c in s.relay.conns && !s.relay.conns[c].closed
    requires !UsedId(s.relay, id) && id !in s.handlers
    ensures Base(Opened(s, c, id))
  {
    var t := Opened(s, c, id);
    OpenedSafe(s, c, id);
    forall d | d in t.relay.conns ensures Owned(t, d) { OpenedOwned(s, c, id, d); }
  }

  lemma UnusedHasNoHandler(s: Channel, id: StreamId)
    requires Inv(s) && !UsedId(s.relay, id)
    ensures id !in s.handlers
  {
    if id in s.handlers { PathOf(s, id); }
  }

  lemma OpenKeeps(s: Channel, c: ConnId, id: StreamId)
    requires Inv(s) && c in s.relay.conns && !s.relay.conns[c].closed && !UsedId(s.relay, id)
    ensures Inv(Opened(s, c, id))
  {
    UnusedHasNoHandler(s, id);
    OpenedBase(s, c, id);
    forall j ensures StreamOk(Opened(s, c, id), j) { OpenedStream(s, c, id, j); }
    forall d ensures LinkOk(Opened(s, c, id), d) { OpenedLink(s, c, id, d); }
  }

  lemma RegistryIs(s: Channel, a: LogChannel.Action)
    requires LogChannel.Wf(s) && ByRegistry(a)
    ensures a.Connect? && a.conn !in s.relay.conns && a.conn !in s.links ==>
      RegistryStep(s, a) == Connected(s, a.conn, a.cluster)
    ensures a.Connect? && (a.conn in s.relay.conns || a.conn in s.links) ==> RegistryStep(s, a) == s
    ensures a.Detach? ==> RegistryStep(s, a) == HubStep(s, UnregisterDetach(a.conn))
    ensures a.CloseAllStreams? ==> RegistryStep(s, a) == HubStep(s, RunCloseAll(a.conn))
  {
  }

  lemma OpenIs(s: Channel, c: ConnId, id: StreamId)
    requires LogChannel.Wf(s)
    ensures RegistryStep(s, Open(c, id)) == s
         || (c in s.relay.conns && !s.relay.conns[c].closed && !UsedId(s.relay, id)
             && RegistryStep(s, Open(c, id)) == Opened(s, c, id))
  {
    if c in s.relay.conns && !s.relay.conns[c].closed && !UsedId(s.relay, id) { OpenedShape(s, c, id); }
  }

  lemma OpenStepKeeps(s: Channel, c: ConnId, id: StreamId)
    requires Inv(s)
    ensures Inv(RegistryStep(s, Open(c, id)))
  {
    OpenIs(s, c, id);
    if RegistryStep(s, Open(c, id)) != s { OpenKeeps(s, c, id); }
  }

  lemma ConnectStepKeeps(s: Channel, c: ConnId, cluster: ClusterId)
    requires Inv(s)
    ensures Inv(RegistryStep(s, Connect(c, cluster)))
  {
    RegistryIs(s, Connect(c, cluster));
    if c !in s.relay.conns { ConnectKeeps(s, c, cluster); }
  }

  lemma DetachStepKeeps(s: Channel, c: ConnId)
    requires Inv(s)
    ensures Inv(RegistryStep(s, Detach(c)))
  {
    RegistryIs(s, Detach(c));
    DetachKeeps(s, c);
  }

  lemma CloseAllStepKeeps(s: Channel, c: ConnId)
    requires Inv(s)
    ensures Inv(RegistryStep(s, CloseAllStreams(c)))
  {
    RegistryIs(s, CloseAllStreams(c));
    CloseAllKeeps(s, c);
  }

  lemma RegistryStepKeeps(s: Channel, a: LogChannel.Action)
    requires Inv(s) && ByRegistry(a)
    ensures Inv(RegistryStep(s, a))
  {
    if a.Connect? {
      assert a == Connect(a.conn, a.cluster);
      ConnectStepKeeps(s, a.conn, a.cluster);
    } else if a.Detach? {
      assert a == Detach(a.conn);
      DetachStepKeeps(s, a.conn);
    } else if a.CloseAllStreams? {
      assert a == CloseAllStreams(a.conn);
      CloseAllStepKeeps(s, a.conn);
    } else {
      assert a == Open(a.conn, a.id);
      OpenStepKeeps(s, a.conn, a.id);
    }
  }

  lemma StepKeeps(s: Channel, a: LogChannel.Action)
    requires Inv(s)
    ensures Inv(LogChannel.Step(s, a))
  {
    if ByRegistry(a) {
      RegistryStepKeeps(s, a);
    } else if ByLink(a) {
      LinkStepKeeps(s, a);
    } else if ByHandler(a) {
      HandlerStepKeeps(s, a);
    } else {
      WorkerStepKeeps(s, a);
    }
  }

  lemma {:induction false} RunKeeps(s: Channel, actions: seq<LogChannel.Action>)
    requires Inv(s)
    ensures Inv(LogChannel.Run(s, actions))
    decreases |actions|
  {
    if actions != [] {
      StepKeeps(s, actions[0]);
      RunKeeps(LogChannel.Step(s, actions[0]), actions[1..]);
    }
  }
}
