/**
  Every log can arrive: from any state of the channel, over any connection that works, a new stream
  can be opened and brings all lines and the end of any log to the client.
  Sources: internal/agent/logs/client.go, internal/server/logrelay.go, internal/server/handlers_logs.go.
 */
module LogArrival {
  import opened Text
  import opened LogRelay
  import opened LogChannel
  import opened LogChannelSafety
  import opened LogDelivery
  import Sse

  // ---------------------------------------------------------------- runs

  /** The calls lead from s to t, and s is a state with the invariant. */
  ghost predicate Leads(s: Channel, actions: seq<LogChannel.Action>, t: Channel) {
    Inv(s) && Inv(t) && t == LogChannel.Run(s, actions)
  }

  lemma {:induction false} RunSnoc(s: Channel, actions: seq<LogChannel.Action>, a: LogChannel.Action)
    requires LogChannel.Wf(s)
    ensures LogChannel.Run(s, actions + [a]) == LogChannel.Step(LogChannel.Run(s, actions), a)
    decreases |actions|
  {
    if actions == [] {
      assert [] + [a] == [a] && [a][1..] == [];
    } else {
      assert (actions + [a])[1..] == actions[1..] + [a];
      RunSnoc(LogChannel.Step(s, actions[0]), actions[1..], a);
    }
  }

  lemma LeadsOn(s: Channel, actions: seq<LogChannel.Action>, t: Channel, a: LogChannel.Action)
    requires Leads(s, actions, t)
    ensures Leads(s, actions + [a], LogChannel.Step(t, a))
  {
    RunSnoc(s, actions, a);
    StepKeeps(t, a);
  }

  // ---------------------------------------------------------------- a connection that works

  /** It is not closed and its link is not broken. */
  ghost predicate Works(s: Channel, c: ConnId) {
    c in s.relay.conns && !s.relay.conns[c].closed && c in s.links && !s.links[c].broken
  }

  ghost predicate ControlDone(s: Channel, c: ConnId) {
    c in s.links && s.links[c].control == [] && s.links[c].controlWire == []
  }

  ghost predicate OutputDone(s: Channel, c: ConnId) {
    c in s.links && s.links[c].outbound == [] && s.links[c].wire == []
  }

  lemma WriteControlIs(s: Channel, c: ConnId)
    requires LogChannel.Wf(s) && c in s.links && s.links[c].control != []
    ensures var l := s.links[c];
      LogChannel.Step(s, WriteControl(c))
      == SetLink(s, c, l.(control := l.control[1..], controlWire := l.controlWire + [l.control[0]]))
  {
  }

  lemma ReadControlIs(s: Channel, c: ConnId)
    requires LogChannel.Wf(s) && c in s.links && s.links[c].controlWire != []
    ensures var l := s.links[c];
      LogChannel.Step(s, ReadControl(c))
      == OnControl(SetLink(s, c, l.(controlWire := l.controlWire[1..])), c, l.controlWire[0])
  {
  }

  lemma OnControlIs(s: Channel, c: ConnId, frame: Frame)
    ensures var t := OnControl(s, c, frame);
      t.relay == s.relay && t.links == s.links && t.handlers == s.handlers
  {
  }

  lemma WriteIs(s: Channel, c: ConnId)
    requires LogChannel.Wf(s) && c in s.links && !s.links[c].broken && s.links[c].outbound != []
    ensures var l := s.links[c];
      LogChannel.Step(s, Write(c))
      == SetLink(s, c, l.(outbound := l.outbound[1..], wire := l.wire + [l.outbound[0]]))
  {
  }

  /** A received frame goes to its stream if it is data or an end; anything else is ignored. */
  lemma ReceiveIs(s: Channel, c: ConnId)
    requires LogChannel.Wf(s) && c in s.links && s.links[c].wire != []
    ensures var l, f := s.links[c], s.links[c].wire[0];
      var read := SetLink(s, c, l.(wire := l.wire[1..], received := l.received + [f]));
      LogChannel.Step(s, Receive(c)) == if f.Data? || f.End? then HubStep(read, RunDeliver(c, f)) else read
  {
  }

  // ---------------------------------------------------------------- working a connection off

  /** The connection works and the stream's id is new. */
  ghost predicate Fresh(s: Channel, c: ConnId, id: StreamId) { Works(s, c) && !UsedId(s.relay, id) && id != "" }

  function Remaining(l: Link): nat { 2 * |l.control| + |l.controlWire| }

  lemma ControlStep(s: Channel, c: ConnId, id: StreamId, a: LogChannel.Action)
    requires Inv(s) && Fresh(s, c, id)
    requires (a == WriteControl(c) && s.links[c].control != []) || (a == ReadControl(c) && s.links[c].controlWire != [])
    ensures Fresh(LogChannel.Step(s, a), c, id)
    ensures Remaining(LogChannel.Step(s, a).links[c]) < Remaining(s.links[c])
  {
    if a == WriteControl(c) {
      WriteControlIs(s, c);
    } else {
      ReadControlShape(s, c);
    }
    FreshStays(s, LogChannel.Step(s, a), c, id);
  }

  lemma FreshStays(s: Channel, t: Channel, c: ConnId, id: StreamId)
    requires Fresh(s, c, id) && t.relay == s.relay && c in t.links && t.links[c].broken == s.links[c].broken
    ensures Fresh(t, c, id)
  {
  }

  lemma ReadControlShape(s: Channel, c: ConnId)
    requires LogChannel.Wf(s) && c in s.links && s.links[c].controlWire != []
    ensures var t := LogChannel.Step(s, ReadControl(c));
      t.relay == s.relay && t.links == s.links[c := s.links[c].(controlWire := s.links[c].controlWire[1..])]
  {
    var l := s.links[c];
    ReadControlIs(s, c);
    OnControlIs(SetLink(s, c, l.(controlWire := l.controlWire[1..])), c, l.controlWire[0]);
  }

  /** All requests can be brought to the agent. */
  lemma {:induction false} ControlDrains(start: Channel, before: seq<LogChannel.Action>, s: Channel,
                                         c: ConnId, id: StreamId)
    returns (actions: seq<LogChannel.Action>, t: Channel)
    requires Leads(start, before, s) && Fresh(s, c, id)
    ensures Leads(start, actions, t) && Fresh(t, c, id) && ControlDone(t, c)
    decreases Remaining(s.links[c])
  {
    if ControlDone(s, c) {
      actions, t := before, s;
    } else {
      var a := if s.links[c].control != [] then WriteControl(c) else ReadControl(c);
      ControlStep(s, c, id, a);
      LeadsOn(start, before, s, a);
      actions, t := ControlDrains(start, before + [a], LogChannel.Step(s, a), c, id);
    }
  }

  function Unsent(l: Link): nat { 2 * |l.outbound| + |l.wire| }

  lemma OutputStep(s: Channel, c: ConnId, id: StreamId, a: LogChannel.Action)
    requires Inv(s) && Fresh(s, c, id) && ControlDone(s, c)
    requires (a == Write(c) && s.links[c].outbound != []) || (a == Receive(c) && s.links[c].wire != [])
    ensures Fresh(LogChannel.Step(s, a), c, id) && ControlDone(LogChannel.Step(s, a), c)
    ensures Unsent(LogChannel.Step(s, a).links[c]) < Unsent(s.links[c])
  {
    if a == Write(c) {
      WriteIs(s, c);
      FreshStays(s, LogChannel.Step(s, a), c, id);
    } else {
      ReceiveIs(s, c);
      ReceivedStays(s, c, id);
    }
  }

  lemma ReceivedStays(s: Channel, c: ConnId, id: StreamId)
    requires Inv(s) && Fresh(s, c, id) && s.links[c].wire != []
    ensures var t := LogChannel.Step(s, Receive(c));
      && Fresh(t, c, id)
      && t.links[c] == s.links[c].(wire := s.links[c].wire[1..], received := s.links[c].received + [s.links[c].wire[0]])
  {
    var l, f := s.links[c], s.links[c].wire[0];
    var read := SetLink(s, c, l.(wire := l.wire[1..], received := l.received + [f]));
    ReceiveIs(s, c);
    if f.Data? || f.End? { DeliversApart(read, c, f, id); }
  }

  lemma DeliversApart(s: Channel, c: ConnId, f: Frame, id: StreamId)
    requires Safe(s.relay) && c in s.relay.conns && !UsedId(s.relay, id)
    ensures var t := HubStep(s, RunDeliver(c, f));
      && t.links == s.links && c in t.relay.conns && t.relay.conns[c].closed == s.relay.conns[c].closed
      && !UsedId(t.relay, id)
  {
    ConnAfterKeys(s.relay.conns[c], RunDeliver(c, f));
  }

  /** All frames under way can be brought to the hub. */
  lemma {:induction false} OutputDrains(start: Channel, before: seq<LogChannel.Action>, s: Channel,
                                        c: ConnId, id: StreamId)
    returns (actions: seq<LogChannel.Action>, t: Channel)
    requires Leads(start, before, s) && Fresh(s, c, id) && ControlDone(s, c)
    ensures Leads(start, actions, t) && Fresh(t, c, id) && ControlDone(t, c) && OutputDone(t, c)
    decreases Unsent(s.links[c])
  {
    if OutputDone(s, c) {
      actions, t := before, s;
    } else {
      var a := if s.links[c].outbound != [] then Write(c) else Receive(c);
      OutputStep(s, c, id, a);
      LeadsOn(start, before, s, a);
      actions, t := OutputDrains(start, before + [a], LogChannel.Step(s, a), c, id);
    }
  }

  // ---------------------------------------------------------------- one stream on an idle connection

  /** Nothing but this stream's frames is under way, and its parts are these. */
  ghost predicate Track(s: Channel, c: ConnId, id: StreamId, w: Worker, h: Handler,
                        outbound: seq<Frame>, wire: seq<Frame>, queue: Queue) {
    && Works(s, c) && ControlDone(s, c) && s.links[c].outbound == outbound && s.links[c].wire == wire
    && id in s.workers && s.workers[id] == w && w.conn == c
    && id in s.handlers && s.handlers[id] == h && h.conn == c
    && id in s.relay.conns[c].queues && s.relay.conns[c].queues[id] == queue
  }

  lemma EmitIs(s: Channel, id: StreamId, line: string)
    requires LogChannel.Wf(s) && id in s.workers && s.workers[id].conn in s.links
    requires s.workers[id].state.Running? && |s.links[s.workers[id].conn].outbound| < 256
    ensures var w, f := s.workers[id], Data(id, line);
      var l := s.links[w.conn];
      LogChannel.Step(s, EmitLine(id, line))
      == SetLink(SetWorker(s, id, w.(read := w.read + [line], sent := w.sent + [f])), w.conn,
                 l.(outbound := l.outbound + [f]))
  {
  }

  lemma EmitTracks(s: Channel, c: ConnId, id: StreamId, w: Worker, h: Handler, line: string)
    requires LogChannel.Wf(s) && Track(s, c, id, w, h, [], [], Queue([], false)) && w.state.Running?
    ensures Track(LogChannel.Step(s, EmitLine(id, line)), c, id,
                  w.(read := w.read + [line], sent := w.sent + [Data(id, line)]), h,
                  [Data(id, line)], [], Queue([], false))
  {
    EmitIs(s, id, line);
  }

  lemma WriteTracks(s: Channel, c: ConnId, id: StreamId, w: Worker, h: Handler, f: Frame, queue: Queue)
    requires LogChannel.Wf(s) && Track(s, c, id, w, h, [f], [], queue)
    ensures Track(LogChannel.Step(s, Write(c)), c, id, w, h, [], [f], queue)
  {
    WriteIs(s, c);
  }

  /** A frame reaches the empty queue of its stream, and an end frame closes it. */
  lemma DeliverIs(conn: Conn, f: Frame)
    requires conn.Safe() && f.id in conn.queues && conn.queues[f.id] == Queue([], false)
    ensures var conn' := conn.Deliver(f); conn'.closed == conn.closed
    ensures f.Data? || f.End? ==> conn.Deliver(f).queues == conn.queues[f.id := Queue([f], f.End?)]
  {
    assert [] + [f] == [f] && f.id in conn.active;
    if f.End? {
      assert conn.Deliver(f).queues == conn.queues[f.id := Queue([f], true)];
    } else {
      assert conn.Deliver(f).queues == conn.queues[f.id := Queue([f], false)];
    }
  }

  lemma ReceiveTracks(s: Channel, c: ConnId, id: StreamId, w: Worker, h: Handler, f: Frame)
    requires Inv(s) && Track(s, c, id, w, h, [], [f], Queue([], false)) && f.id == id && (f.Data? || f.End?)
    ensures Track(LogChannel.Step(s, Receive(c)), c, id, w, h, [], [], Queue([f], f.End?))
  {
    assert s.relay.conns[c].Safe();
    ReceiveShape(s, c, f);
    DeliverIs(s.relay.conns[c], f);
  }

  /** What a received data or end frame changes. */
  lemma ReceiveShape(s: Channel, c: ConnId, f: Frame)
    requires LogChannel.Wf(s) && c in s.relay.conns && c in s.links && s.links[c].wire == [f] && (f.Data? || f.End?)
    ensures var t := LogChannel.Step(s, Receive(c));
      && t.workers == s.workers && t.handlers == s.handlers
      && t.links == s.links[c := s.links[c].(wire := [], received := s.links[c].received + [f])]
      && t.relay == WithConn(s.relay, c, s.relay.conns[c].Deliver(f))
  {
    ReceiveIs(s, c);
    assert s.links[c].wire[1..] == [];
  }

  lemma TakeIs(conn: Conn, id: StreamId)
    requires id in conn.queues && conn.queues[id].items != []
    ensures var conn' := conn.Take(id);
      && conn'.closed == conn.closed
      && conn'.queues == conn.queues[id := conn.queues[id].(items := conn.queues[id].items[1..])]
  {
  }

  lemma RelayTracks(s: Channel, c: ConnId, id: StreamId, w: Worker, h: Handler, f: Frame, closed: bool)
    requires Inv(s) && Track(s, c, id, w, h, [], [], Queue([f], closed)) && h.phase.Streaming?
    ensures Track(LogChannel.Step(s, RelayOne(id)), c, id, w, OnMessage(h, f), [], [], Queue([], closed))
  {
    var conn := s.relay.conns[c];
    RelayIs(s, id);
    TakeIs(conn, id);
    RelaysByHandler(s, id);
    TakeShape(SetHandler(s, id, OnMessage(h, f)), c, id);
  }

  lemma RelaysByHandler(s: Channel, id: StreamId)
    requires LogChannel.Wf(s)
    ensures LogChannel.Step(s, RelayOne(id)) == HandlerStep(s, RelayOne(id))
  {
  }

  lemma TakeShape(s: Channel, c: ConnId, id: StreamId)
    requires LogChannel.Wf(s) && c in s.relay.conns
    ensures var t := HubStep(s, RunTake(c, id));
      && t.links == s.links && t.workers == s.workers && t.handlers == s.handlers
      && t.relay == WithConn(s.relay, c, s.relay.conns[c].Take(id))
  {
  }

  /** The reader reaches the end of the log. */
  lemma StopTracks(s: Channel, c: ConnId, id: StreamId, w: Worker, h: Handler)
    requires LogChannel.Wf(s) && Track(s, c, id, w, h, [], [], Queue([], false)) && w.state.Running? && !w.cancelled
    ensures Track(LogChannel.Step(s, StopReading(id, Eof)), c, id,
                  w.(state := Finishing(""), stop := Some(Eof)), h, [], [], Queue([], false))
  {
  }

  lemma SendEndTracks(s: Channel, c: ConnId, id: StreamId, w: Worker, h: Handler)
    requires LogChannel.Wf(s) && Track(s, c, id, w, h, [], [], Queue([], false)) && w.state == Finishing("")
    ensures Track(LogChannel.Step(s, SendEnd(id)), c, id,
                  w.(sent := w.sent + [End(id, "")], state := Ended("")), h, [End(id, "")], [], Queue([], false))
  {
  }

  // ---------------------------------------------------------------- the whole stream

  /** The stream is open, its worker has read these lines, and its handler has taken all of them. */
  ghost predicate Flowing(s: Channel, c: ConnId, id: StreamId, read: seq<string>) {
    && id in s.workers && id in s.handlers
    && Track(s, c, id, s.workers[id], s.handlers[id], [], [], Queue([], false))
    && s.workers[id].state.Running? && !s.workers[id].cancelled && s.workers[id].read == read
    && s.handlers[id].phase.Streaming?
  }

  /** The frame under way on the link is brought to the handler. */
  lemma OneFrame(start: Channel, before: seq<LogChannel.Action>, s: Channel, c: ConnId, id: StreamId,
                 w: Worker, h: Handler, f: Frame)
    returns (actions: seq<LogChannel.Action>, t: Channel)
    requires Leads(start, before, s) && Track(s, c, id, w, h, [f], [], Queue([], false))
    requires f.id == id && (f.Data? || f.End?) && h.phase.Streaming?
    ensures Leads(start, actions, t) && Track(t, c, id, w, OnMessage(h, f), [], [], Queue([], f.End?))
  {
    var a1, s1 := WriteLeads(start, before, s, c, id, w, h, f);
    var a2, s2 := ReceiveLeads(start, a1, s1, c, id, w, h, f);
    actions, t := RelayLeads(start, a2, s2, c, id, w, h, f);
  }

  lemma WriteLeads(start: Channel, before: seq<LogChannel.Action>, s: Channel, c: ConnId, id: StreamId,
                   w: Worker, h: Handler, f: Frame)
    returns (actions: seq<LogChannel.Action>, t: Channel)
    requires Leads(start, before, s) && Track(s, c, id, w, h, [f], [], Queue([], false))
    ensures Leads(start, actions, t) && Track(t, c, id, w, h, [], [f], Queue([], false))
  {
    WriteTracks(s, c, id, w, h, f, Queue([], false));
    LeadsOn(start, before, s, Write(c));
    actions, t := before + [Write(c)], LogChannel.Step(s, Write(c));
  }

  lemma ReceiveLeads(start: Channel, before: seq<LogChannel.Action>, s: Channel, c: ConnId, id: StreamId,
                     w: Worker, h: Handler, f: Frame)
    returns (actions: seq<LogChannel.Action>, t: Channel)
    requires Leads(start, before, s) && Track(s, c, id, w, h, [], [f], Queue([], false))
    requires f.id == id && (f.Data? || f.End?)
    ensures Leads(start, actions, t) && Track(t, c, id, w, h, [], [], Queue([f], f.End?))
  {
    ReceiveTracks(s, c, id, w, h, f);
    LeadsOn(start, before, s, Receive(c));
    actions, t := before + [Receive(c)], LogChannel.Step(s, Receive(c));
  }

  lemma RelayLeads(start: Channel, before: seq<LogChannel.Action>, s: Channel, c: ConnId, id: StreamId,
                   w: Worker, h: Handler, f: Frame)
    returns (actions: seq<LogChannel.Action>, t: Channel)
    requires Leads(start, before, s) && Track(s, c, id, w, h, [], [], Queue([f], f.End?)) && h.phase.Streaming?
    ensures Leads(start, actions, t) && Track(t, c, id, w, OnMessage(h, f), [], [], Queue([], f.End?))
  {
    RelayTracks(s, c, id, w, h, f, f.End?);
    LeadsOn(start, before, s, RelayOne(id));
    actions, t := before + [RelayOne(id)], LogChannel.Step(s, RelayOne(id));
  }

  lemma EmitLeads(start: Channel, before: seq<LogChannel.Action>, s: Channel, c: ConnId, id: StreamId,
                  w: Worker, h: Handler, line: string)
    returns (actions: seq<LogChannel.Action>, t: Channel)
    requires Leads(start, before, s) && Track(s, c, id, w, h, [], [], Queue([], false)) && w.state.Running?
    ensures Leads(start, actions, t)
    ensures Track(t, c, id, w.(read := w.read + [line], sent := w.sent + [Data(id, line)]), h,
                  [Data(id, line)], [], Queue([], false))
  {
    EmitTracks(s, c, id, w, h, line);
    LeadsOn(start, before, s, EmitLine(id, line));
    actions, t := before + [EmitLine(id, line)], LogChannel.Step(s, EmitLine(id, line));
  }

  /** One more line goes all the way. */
  lemma OneLine(start: Channel, before: seq<LogChannel.Action>, s: Channel, c: ConnId, id: StreamId,
                read: seq<string>, line: string)
    returns (actions: seq<LogChannel.Action>, t: Channel)
    requires Leads(start, before, s) && Flowing(s, c, id, read)
    ensures Leads(start, actions, t) && Flowing(t, c, id, read + [line])
  {
    var w, h, f := s.workers[id], s.handlers[id], Data(id, line);
    var a1, s1 := EmitLeads(start, before, s, c, id, w, h, line);
    actions, t := LineFlows(start, a1, s1, c, id, w.(read := w.read + [line], sent := w.sent + [f]), h, line);
  }

  lemma LineFlows(start: Channel, before: seq<LogChannel.Action>, s: Channel, c: ConnId, id: StreamId,
                  w: Worker, h: Handler, line: string)
    returns (actions: seq<LogChannel.Action>, t: Channel)
    requires Leads(start, before, s) && Track(s, c, id, w, h, [Data(id, line)], [], Queue([], false))
    requires h.phase.Streaming? && w.state.Running? && !w.cancelled
    ensures Leads(start, actions, t) && Flowing(t, c, id, w.read)
  {
    actions, t := OneFrame(start, before, s, c, id, w, h, Data(id, line));
    LineStreams(h, id, line);
  }

  lemma LineStreams(h: Handler, id: StreamId, line: string)
    ensures OnMessage(h, Data(id, line)).phase == h.phase
  {
  }

  lemma {:induction false} AllLines(start: Channel, before: seq<LogChannel.Action>, s: Channel, c: ConnId, id: StreamId,
                                    read: seq<string>, lines: seq<string>)
    returns (actions: seq<LogChannel.Action>, t: Channel)
    requires Leads(start, before, s) && Flowing(s, c, id, read)
    ensures Leads(start, actions, t) && Flowing(t, c, id, read + lines)
    decreases |lines|
  {
    if lines == [] {
      actions, t := before, s;
      assert read + lines == read;
    } else {
      var a1, t1 := OneLine(start, before, s, c, id, read, lines[0]);
      actions, t := AllLines(start, a1, t1, c, id, read + [lines[0]], lines[1..]);
      FirstThenRest(read, lines);
    }
  }

  lemma FirstThenRest(a: seq<string>, b: seq<string>)
    requires b != []
    ensures (a + [b[0]]) + b[1..] == a + b
  {
  }

  /** Then its end does. */
  lemma TheEnd(start: Channel, before: seq<LogChannel.Action>, s: Channel, c: ConnId, id: StreamId, read: seq<string>)
    returns (actions: seq<LogChannel.Action>, t: Channel)
    requires Leads(start, before, s) && Flowing(s, c, id, read)
    ensures Leads(start, actions, t) && id in t.workers && t.workers[id].read == read
    ensures id in t.handlers && t.handlers[id].terminal == EndEvent
  {
    var a1, s1, w := EndIsSent(start, before, s, c, id, s.workers[id], s.handlers[id]);
    actions, t := EndArrives(start, a1, s1, c, id, w, s.handlers[id]);
  }

  lemma EndIsSent(start: Channel, before: seq<LogChannel.Action>, s: Channel, c: ConnId, id: StreamId,
                  w: Worker, h: Handler)
    returns (actions: seq<LogChannel.Action>, t: Channel, w': Worker)
    requires Leads(start, before, s) && Track(s, c, id, w, h, [], [], Queue([], false))
    requires w.state.Running? && !w.cancelled
    ensures Leads(start, actions, t) && w'.read == w.read
    ensures Track(t, c, id, w', h, [End(id, "")], [], Queue([], false))
  {
    var a1, s1 := StopLeads(start, before, s, c, id, w, h);
    actions, t := SendEndLeads(start, a1, s1, c, id, w.(state := Finishing(""), stop := Some(Eof)), h);
    w' := t.workers[id];
  }

  lemma EndArrives(start: Channel, before: seq<LogChannel.Action>, s: Channel, c: ConnId, id: StreamId,
                   w: Worker, h: Handler)
    returns (actions: seq<LogChannel.Action>, t: Channel)
    requires Leads(start, before, s) && Track(s, c, id, w, h, [End(id, "")], [], Queue([], false))
    requires h.phase.Streaming?
    ensures Leads(start, actions, t) && id in t.workers && t.workers[id] == w
    ensures id in t.handlers && t.handlers[id].terminal == EndEvent
  {
    actions, t := OneFrame(start, before, s, c, id, w, h, End(id, ""));
  }

  lemma StopLeads(start: Channel, before: seq<LogChannel.Action>, s: Channel, c: ConnId, id: StreamId,
                  w: Worker, h: Handler)
    returns (actions: seq<LogChannel.Action>, t: Channel)
    requires Leads(start, before, s) && Track(s, c, id, w, h, [], [], Queue([], false))
    requires w.state.Running? && !w.cancelled
    ensures Leads(start, actions, t)
    ensures Track(t, c, id, w.(state := Finishing(""), stop := Some(Eof)), h, [], [], Queue([], false))
  {
    StopTracks(s, c, id, w, h);
    LeadsOn(start, before, s, StopReading(id, Eof));
    actions, t := before + [StopReading(id, Eof)], LogChannel.Step(s, StopReading(id, Eof));
  }

  lemma SendEndLeads(start: Channel, before: seq<LogChannel.Action>, s: Channel, c: ConnId, id: StreamId,
                     w: Worker, h: Handler)
    returns (actions: seq<LogChannel.Action>, t: Channel)
    requires Leads(start, before, s) && Track(s, c, id, w, h, [], [], Queue([], false)) && w.state == Finishing("")
    ensures Leads(start, actions, t)
    ensures Track(t, c, id, w.(sent := w.sent + [End(id, "")], state := Ended("")), h,
                  [End(id, "")], [], Queue([], false))
  {
    SendEndTracks(s, c, id, w, h);
    LeadsOn(start, before, s, SendEnd(id));
    actions, t := before + [SendEnd(id)], LogChannel.Step(s, SendEnd(id));
  }

  // ---------------------------------------------------------------- opening it

  /** The handler of a stream that was just added to a connection, with nothing under way. */
  ghost predicate Begun(s: Channel, c: ConnId, id: StreamId, phase: Phase, control: seq<Frame>, wire: seq<Frame>) {
    && Works(s, c) && OutputDone(s, c) && s.links[c].control == control && s.links[c].controlWire == wire
    && id in s.handlers && s.handlers[id] == Handler(c, phase, [], [], NoTerminal, "")
    && id in s.relay.conns[c].queues && s.relay.conns[c].queues[id] == Queue([], false) && id != ""
  }

  lemma OpenBegins(s: Channel, c: ConnId, id: StreamId)
    requires Inv(s) && Fresh(s, c, id) && ControlDone(s, c) && OutputDone(s, c)
    ensures Begun(LogChannel.Step(s, Open(c, id)), c, id, Opening, [], [])
    ensures id !in LogChannel.Step(s, Open(c, id)).workers
  {
    UnusedHasNoHandler(s, id);
    assert StreamOk(s, id);
    OpenedShape(s, c, id);
    OpenIsOpened(s, c, id);
  }

  lemma OpenIsOpened(s: Channel, c: ConnId, id: StreamId)
    requires LogChannel.Wf(s) && Fresh(s, c, id)
    ensures LogChannel.Step(s, Open(c, id)) == Opened(s, c, id)
  {
    OpenedShape(s, c, id);
  }

  lemma CheckBegins(s: Channel, c: ConnId, id: StreamId)
    requires LogChannel.Wf(s) && Begun(s, c, id, Opening, [], []) && id !in s.workers
    ensures Begun(LogChannel.Step(s, CheckStart(id)), c, id, Starting, [], [])
    ensures id !in LogChannel.Step(s, CheckStart(id)).workers
  {
  }

  lemma SendBegins(s: Channel, c: ConnId, id: StreamId)
    requires LogChannel.Wf(s) && Begun(s, c, id, Starting, [], []) && id !in s.workers
    ensures Begun(LogChannel.Step(s, SendStart(id)), c, id, Streaming, [Start(id)], [])
    ensures id !in LogChannel.Step(s, SendStart(id)).workers
  {
  }

  lemma WriteBegins(s: Channel, c: ConnId, id: StreamId)
    requires LogChannel.Wf(s) && Begun(s, c, id, Streaming, [Start(id)], []) && id !in s.workers
    ensures Begun(LogChannel.Step(s, WriteControl(c)), c, id, Streaming, [], [Start(id)])
    ensures id !in LogChannel.Step(s, WriteControl(c)).workers
  {
    WriteControlIs(s, c);
  }

  lemma ReadBegins(s: Channel, c: ConnId, id: StreamId)
    requires LogChannel.Wf(s) && Begun(s, c, id, Streaming, [], [Start(id)]) && id !in s.workers
    ensures Flowing(LogChannel.Step(s, ReadControl(c)), c, id, [])
  {
    ReadControlIs(s, c);
  }

  /** A new stream can be opened and its worker started. */
  lemma TheBeginning(start: Channel, before: seq<LogChannel.Action>, s: Channel, c: ConnId, id: StreamId)
    returns (actions: seq<LogChannel.Action>, t: Channel)
    requires Leads(start, before, s) && Fresh(s, c, id) && ControlDone(s, c) && OutputDone(s, c)
    ensures Leads(start, actions, t) && Flowing(t, c, id, [])
  {
    OpenBegins(s, c, id);
    LeadsOn(start, before, s, Open(c, id));
    var s1, a1 := LogChannel.Step(s, Open(c, id)), before + [Open(c, id)];
    CheckBegins(s1, c, id);
    LeadsOn(start, a1, s1, CheckStart(id));
    var s2, a2 := LogChannel.Step(s1, CheckStart(id)), a1 + [CheckStart(id)];
    SendBegins(s2, c, id);
    LeadsOn(start, a2, s2, SendStart(id));
    var s3, a3 := LogChannel.Step(s2, SendStart(id)), a2 + [SendStart(id)];
    WriteBegins(s3, c, id);
    LeadsOn(start, a3, s3, WriteControl(c));
    var s4, a4 := LogChannel.Step(s3, WriteControl(c)), a3 + [WriteControl(c)];
    ReadBegins(s4, c, id);
    LeadsOn(start, a4, s4, ReadControl(c));
    actions, t := a4 + [ReadControl(c)], LogChannel.Step(s4, ReadControl(c));
  }

  lemma {:induction false} RunJoins(s: Channel, a: seq<LogChannel.Action>, b: seq<LogChannel.Action>)
    requires LogChannel.Wf(s)
    ensures LogChannel.Run(s, a + b) == LogChannel.Run(LogChannel.Run(s, a), b)
    decreases |b|
  {
    if b == [] {
      assert a + b == a;
    } else {
      var n := |b| - 1;
      assert (a + b[..n]) + [b[n]] == a + b && b[..n] + [b[n]] == b;
      RunJoins(s, a, b[..n]);
      RunSnoc(s, a + b[..n], b[n]);
      RunSnoc(LogChannel.Run(s, a), b[..n], b[n]);
    }
  }

  /** A new stream can bring all lines and the end. */
  lemma LogEnds(s: Channel, c: ConnId, id: StreamId, lines: seq<string>)
    returns (actions: seq<LogChannel.Action>, t: Channel)
    requires Inv(s) && Fresh(s, c, id)
    ensures Leads(s, actions, t) && id in t.workers && t.workers[id].read == lines
    ensures id in t.handlers && t.handlers[id].terminal == EndEvent
  {
    var a1, s1 := StreamOpens(s, c, id);
    var a2, s2 := AllLines(s, a1, s1, c, id, [], lines);
    assert [] + lines == lines;
    actions, t := TheEnd(s, a2, s2, c, id, lines);
  }

  lemma StreamOpens(s: Channel, c: ConnId, id: StreamId) returns (actions: seq<LogChannel.Action>, t: Channel)
    requires Inv(s) && Fresh(s, c, id)
    ensures Leads(s, actions, t) && Flowing(t, c, id, [])
  {
    var a1, s1 := ControlDrains(s, [], s, c, id);
    var a2, s2 := OutputDrains(s, a1, s1, c, id);
    actions, t := TheBeginning(s, a2, s2, c, id);
  }

  /**
    From every reachable state, over every connection that is neither closed nor broken, and whatever
    other streams are under way: a new stream can bring any log to its end, and the client then parses
    all its lines, unless a part of one is too long for the scanner.
   */
  lemma AnyLogCanArrive(before: seq<LogChannel.Action>, c: ConnId, id: StreamId, lines: seq<string>, readError: bool)
    returns (more: seq<LogChannel.Action>)
    requires Fresh(LogChannel.Run(Start0, before), c, id)
    ensures var t := LogChannel.Run(Start0, before + more);
      && id in t.handlers && t.handlers[id].terminal == EndEvent
      && Sse.ParseBody(t.handlers[id].out, readError)
         == if Sse.FitsScanner(t.handlers[id].chunks) then Sse.Complete(ReceivedAll(lines)) else Sse.ScanFailed
  {
    var t;
    RunKeeps(Start0, before);
    more, t := LogEnds(LogChannel.Run(Start0, before), c, id, lines);
    RunJoins(Start0, before, more);
    EndedStreamParses(before + more, id, readError);
  }
}
