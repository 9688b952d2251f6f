/**
  Why a log stream fails: a client is only told so when the stream's reader failed, when its connection
  was closed, or when a frame found its queue full.
  Sources: internal/server/logrelay.go, internal/server/handlers_logs.go, internal/agent/logs/client.go.
 */
module LogFailure {
  import opened Text
  import opened LogRelay
  import opened LogChannel
  import opened LogChannelSafety
  import opened LogDelivery
  import opened LogArrival

  /** The stream's connection is closed, or a frame for the stream finds 512 others waiting. */
  ghost predicate Cuts(s: Channel, a: LogChannel.Action, id: StreamId) {
    id in s.handlers &&
    var c := s.handlers[id].conn;
    || (a == CloseAllStreams(c) && c in s.relay.retired)
    || (a == Receive(c) && c in s.links && s.links[c].wire != [] && s.links[c].wire[0].id == id
        && c in s.relay.conns && id in s.relay.conns[c].queues && |s.relay.conns[c].queues[id].items| >= 512)
  }

  predicate IsOpen(phase: Phase) { phase.Opening? || phase.Starting? || phase.Streaming? }

  predicate EndsInEnd(frames: seq<Frame>) { frames != [] && frames[|frames| - 1].End? }

  /** While it is open, a stream is in the map unless it was cut or its end waits to be taken. */
  ghost predicate OpenOk(h: Handler, active: bool, items: seq<Frame>, cut: bool) {
    IsOpen(h.phase) ==> (forall f :: f in h.taken ==> !f.End?) && (active || cut || EndsInEnd(items))
  }

  /** A printed failure is that of a cut stream, or the error of its end frame. */
  ghost predicate FailureOk(h: Handler, cut: bool) {
    h.terminal.ErrorEvent? ==>
      || (h.terminal.message == OpenFailure() && cut)
      || (EndsInEnd(h.taken) && h.taken[|h.taken| - 1].error == h.terminal.message != "")
  }

  ghost predicate Explained(s: Channel, id: StreamId, cut: bool) {
    id in s.handlers ==>
      var h := s.handlers[id];
      && h.conn in s.relay.conns && id in s.relay.conns[h.conn].queues
      && OpenOk(h, id in s.relay.conns[h.conn].active, s.relay.conns[h.conn].queues[id].items, cut)
      && FailureOk(h, cut)
  }

  // ---------------------------------------------------------------- what each step does to the stream

  /** Nothing of the stream changes. */
  ghost predicate Untouched(s: Channel, t: Channel, id: StreamId) {
    id in s.handlers ==>
      var c := s.handlers[id].conn;
      && id in t.handlers && t.handlers[id] == s.handlers[id]
      && c in s.relay.conns && c in t.relay.conns
      && (id in t.relay.conns[c].active <==> id in s.relay.conns[c].active)
      && id in s.relay.conns[c].queues && id in t.relay.conns[c].queues
      && t.relay.conns[c].queues[id] == s.relay.conns[c].queues[id]
  }

  lemma UntouchedKeeps(s: Channel, t: Channel, id: StreamId, cut: bool, more: bool)
    requires Explained(s, id, cut) && Untouched(s, t, id) && (id in t.handlers ==> id in s.handlers)
    ensures Explained(t, id, cut || more)
  {
  }

  lemma WorkerExplains(s: Channel, a: LogChannel.Action, id: StreamId, cut: bool)
    requires Inv(s) && Explained(s, id, cut) && ByWorker(a)
    ensures Explained(LogChannel.Step(s, a), id, cut)
  {
    var t := WorkerStep(s, a);
    assert LogChannel.Step(s, a) == t;
    WorkerLeaves(s, a);
    UntouchedKeeps(s, t, id, cut, false);
  }

  lemma WorkerLeaves(s: Channel, a: LogChannel.Action)
    requires ByWorker(a)
    ensures WorkerStep(s, a).relay == s.relay && WorkerStep(s, a).handlers == s.handlers
  {
  }

  // ---------------------------------------------------------------- the link

  /** A frame for the stream joins its queue, closes it, or finds it closed. */
  lemma DeliverExplains(s: Channel, c: ConnId, f: Frame, id: StreamId, cut: bool)
    requires Safe(s.relay) && Explained(s, id, cut) && c in s.relay.conns && (f.Data? || f.End?)
    ensures Explained(HubStep(s, RunDeliver(c, f)), id,
      cut || (f.id == id && id in s.handlers && s.handlers[id].conn == c && id in s.relay.conns[c].queues
              && |s.relay.conns[c].queues[id].items| >= 512))
  {
    var conn := s.relay.conns[c];
    DeliverShape(s, c, f);
    if id in s.handlers && s.handlers[id].conn == c && f.id == id {
      DeliverQueue(conn, f);
    } else if f.id != id {
      DeliverOther(conn, f, id);
    }
  }

  lemma DeliverShape(s: Channel, c: ConnId, f: Frame)
    requires LogChannel.Wf(s) && c in s.relay.conns
    ensures var t := HubStep(s, RunDeliver(c, f));
      && t.links == s.links && t.workers == s.workers && t.handlers == s.handlers
      && t.relay == WithConn(s.relay, c, s.relay.conns[c].Deliver(f))
  {
  }

  lemma DeliverQueue(conn: Conn, f: Frame)
    requires conn.Safe() && f.id in conn.queues
    ensures var q, conn' := conn.queues[f.id], conn.Deliver(f);
      && f.id in conn'.queues
      && (f.id !in conn.active ==> conn' == conn)
      && (f.id in conn.active && |q.items| < 512 ==>
            conn'.queues[f.id] == Queue(q.items + [f], f.End?) && (f.id in conn'.active <==> !f.End?))
      && (f.id in conn.active && |q.items| >= 512 ==>
            conn'.queues[f.id] == Queue(q.items, true) && f.id !in conn'.active)
  {
  }

  lemma DeliverOther(conn: Conn, f: Frame, id: StreamId)
    requires conn.Safe() && f.id != id
    ensures var conn' := conn.Deliver(f);
      && (id in conn'.active <==> id in conn.active) && (id in conn'.queues <==> id in conn.queues)
      && (id in conn.queues ==> conn'.queues[id] == conn.queues[id])
  {
  }

  /** The steps of a link other than a receive. */
  lemma LinkLeaves(s: Channel, a: LogChannel.Action)
    requires LogChannel.Wf(s) && ByLink(a) && !a.Receive?
    ensures LinkStep(s, a).relay == s.relay && LinkStep(s, a).handlers == s.handlers
  {
  }

  lemma ReceiveExplains(s: Channel, c: ConnId, id: StreamId, cut: bool)
    requires Inv(s) && Explained(s, id, cut)
    ensures Explained(LogChannel.Step(s, Receive(c)), id, cut || Cuts(s, Receive(c), id))
  {
    if c in s.links && s.links[c].wire != [] {
      var l, f := s.links[c], s.links[c].wire[0];
      var read := SetLink(s, c, l.(wire := l.wire[1..], received := l.received + [f]));
      ReceiveIs(s, c);
      if f.Data? || f.End? { ReadExplains(s, read, c, f, id, cut); }
    } else {
      NothingReceived(s, c);
    }
  }

  lemma NothingReceived(s: Channel, c: ConnId)
    requires LogChannel.Wf(s) && (c !in s.links || s.links[c].wire == [])
    ensures LogChannel.Step(s, Receive(c)) == s
  {
  }

  lemma ReadExplains(s: Channel, read: Channel, c: ConnId, f: Frame, id: StreamId, cut: bool)
    requires Inv(s) && Explained(s, id, cut) && c in s.relay.conns && (f.Data? || f.End?)
    requires c in s.links && s.links[c].wire != [] && s.links[c].wire[0] == f
    requires read.relay == s.relay && read.handlers == s.handlers
    ensures Explained(HubStep(read, RunDeliver(c, f)), id, cut || Cuts(s, Receive(c), id))
  {
    DeliverExplains(read, c, f, id, cut);
  }

  lemma LinkExplains(s: Channel, a: LogChannel.Action, id: StreamId, cut: bool)
    requires Inv(s) && Explained(s, id, cut) && ByLink(a)
    ensures Explained(LogChannel.Step(s, a), id, cut || Cuts(s, a, id))
  {
    if a.Receive? {
      ReceiveExplains(s, a.conn, id, cut);
    } else {
      LinkLeaves(s, a);
      assert LogChannel.Step(s, a) == LinkStep(s, a);
      UntouchedKeeps(s, LinkStep(s, a), id, cut, false);
    }
  }

  // ---------------------------------------------------------------- the registry

  lemma CloseAllExplains(s: Channel, c: ConnId, id: StreamId, cut: bool)
    requires Inv(s) && Explained(s, id, cut)
    ensures Explained(HubStep(s, RunCloseAll(c)), id, cut || Cuts(s, CloseAllStreams(c), id))
  {
    var t := HubStep(s, RunCloseAll(c));
    if c in s.relay.conns && c in s.relay.retired {
      CloseAllShape(s, c);
    } else {
      assert t.relay == s.relay;
    }
  }

  lemma CloseAllShape(s: Channel, c: ConnId)
    requires LogChannel.Wf(s) && c in s.relay.conns && c in s.relay.retired
    ensures var t := HubStep(s, RunCloseAll(c));
      && t.handlers == s.handlers && t.relay == WithConn(s.relay, c, s.relay.conns[c].CloseAll())
      && t.relay.conns[c].queues.Keys == s.relay.conns[c].queues.Keys
      && forall k :: k in s.relay.conns[c].queues ==>
           t.relay.conns[c].queues[k].items == s.relay.conns[c].queues[k].items
  {
  }

  lemma OpenedExplains(s: Channel, c: ConnId, id: StreamId, other: StreamId, cut: bool)
    requires Inv(s) && Explained(s, id, cut) && c in s.relay.conns && !s.relay.conns[c].closed
    requires !UsedId(s.relay, other)
    ensures Explained(Opened(s, c, other), id, cut)
  {
    if id in s.handlers { assert id in s.relay.conns[s.handlers[id].conn].queues; }
  }

  lemma ConnectExplains(s: Channel, c: ConnId, cluster: ClusterId, id: StreamId, cut: bool)
    requires Inv(s) && Explained(s, id, cut) && c !in s.relay.conns
    ensures Explained(Connected(s, c, cluster), id, cut)
  {
    ConnectedShape(s, c, cluster);
    ConnectedConns(s, c, cluster);
  }

  lemma ConnectedConns(s: Channel, c: ConnId, cluster: ClusterId)
    requires LogChannel.Wf(s) && c !in s.relay.conns
    ensures var t := Connected(s, c, cluster);
      t.handlers == s.handlers && t.relay.conns == s.relay.conns[c := Conn(cluster, false, {}, map[], false)]
  {
  }

  lemma RegistryExplains(s: Channel, a: LogChannel.Action, id: StreamId, cut: bool)
    requires Inv(s) && Explained(s, id, cut) && ByRegistry(a)
    ensures Explained(LogChannel.Step(s, a), id, cut || Cuts(s, a, id))
  {
    ByTheRegistry(s, a);
    RegistryIs(s, a);
    if a.Connect? {
      if a.conn !in s.relay.conns { ConnectExplains(s, a.conn, a.cluster, id, cut); }
    } else if a.Detach? {
      DetachExplains(s, a.conn, id, cut);
    } else if a.CloseAllStreams? {
      CloseAllExplains(s, a.conn, id, cut);
      assert a == CloseAllStreams(a.conn);
    } else {
      assert a == Open(a.conn, a.id);
      OpenExplains(s, a.conn, a.id, id, cut);
    }
  }

  lemma DetachExplains(s: Channel, c: ConnId, id: StreamId, cut: bool)
    requires LogChannel.Wf(s) && Explained(s, id, cut)
    ensures Explained(HubStep(s, UnregisterDetach(c)), id, cut)
  {
    DetachShape(s, c);
  }

  lemma OpenExplains(s: Channel, c: ConnId, other: StreamId, id: StreamId, cut: bool)
    requires Inv(s) && Explained(s, id, cut)
    ensures Explained(RegistryStep(s, Open(c, other)), id, cut)
  {
    OpenIs(s, c, other);
    if RegistryStep(s, Open(c, other)) != s { OpenedExplains(s, c, id, other, cut); }
  }

  lemma ByTheRegistry(s: Channel, a: LogChannel.Action)
    requires LogChannel.Wf(s) && ByRegistry(a)
    ensures LogChannel.Step(s, a) == RegistryStep(s, a)
  {
  }

  // ---------------------------------------------------------------- the handlers

  /** The stream's handler moves on without taking a message or printing its end. */
  ghost predicate Carries(h: Handler, h': Handler) {
    h'.conn == h.conn && h'.taken == h.taken && h'.terminal == h.terminal && (IsOpen(h'.phase) ==> IsOpen(h.phase))
  }

  /** Another handler's steps do not concern the stream; its own that take no message carry on. */
  ghost predicate OnlyCarries(s: Channel, t: Channel, id: StreamId) {
    id in s.handlers ==>
      var c := s.handlers[id].conn;
      && id in t.handlers && Carries(s.handlers[id], t.handlers[id])
      && c in s.relay.conns && c in t.relay.conns
      && id in s.relay.conns[c].queues && id in t.relay.conns[c].queues
      && (IsOpen(t.handlers[id].phase) ==>
            && (id in t.relay.conns[c].active <==> id in s.relay.conns[c].active)
            && t.relay.conns[c].queues[id] == s.relay.conns[c].queues[id])
  }

  lemma CarriesKeeps(s: Channel, t: Channel, id: StreamId, cut: bool)
    requires Explained(s, id, cut) && OnlyCarries(s, t, id) && (id in t.handlers ==> id in s.handlers)
    ensures Explained(t, id, cut)
  {
  }

  /** Every step of a handler but relaying and the removal. */
  lemma HandlerLeaves(s: Channel, a: LogChannel.Action)
    requires LogChannel.Wf(s) && ByHandler(a) && !a.RelayOne? && !a.Drop?
    ensures HandlerStep(s, a).relay == s.relay && HandlerStep(s, a).handlers.Keys == s.handlers.Keys
    ensures forall id :: id in s.handlers ==> Carries(s.handlers[id], HandlerStep(s, a).handlers[id])
  {
  }

  lemma DropCarries(s: Channel, a: StreamId, id: StreamId, cut: bool)
    requires Inv(s) && Explained(s, id, cut)
    ensures Explained(HandlerStep(s, Drop(a)), id, cut)
  {
    if a in s.handlers && s.handlers[a].phase.Dropping? {
      PathOf(s, a);
      var h := s.handlers[a];
      var released := SetLink(SetHandler(s, a, h.(phase := Released)), h.conn, s.links[h.conn]);
      DropIs(s, a);
      RemoveLeaves(s.relay.conns[h.conn], a, id);
      RemoveShape(released, h.conn, a);
      RemovedExplains(s, HubStep(released, RunRemoveStream(h.conn, a)), a, id, cut);
    } else {
      NothingDropped(s, a);
    }
  }

  lemma RemovedExplains(s: Channel, t: Channel, a: StreamId, id: StreamId, cut: bool)
    requires LogChannel.Wf(s) && Explained(s, id, cut)
    requires a in s.handlers && s.handlers[a].conn in s.relay.conns
    requires t.handlers == s.handlers[a := s.handlers[a].(phase := Released)]
    requires t.relay == WithConn(s.relay, s.handlers[a].conn, s.relay.conns[s.handlers[a].conn].RemoveStream(a))
    requires var conn := s.relay.conns[s.handlers[a].conn];
      var conn' := conn.RemoveStream(a);
      && conn'.queues.Keys == conn.queues.Keys
      && (id != a ==> (id in conn'.active <==> id in conn.active))
      && (id != a && id in conn.queues ==> conn'.queues[id] == conn.queues[id])
    ensures Explained(t, id, cut)
  {
  }

  lemma NothingDropped(s: Channel, a: StreamId)
    requires LogChannel.Wf(s) && !(a in s.handlers && s.handlers[a].phase.Dropping?)
    ensures HandlerStep(s, Drop(a)) == s
  {
  }

  lemma RemoveShape(s: Channel, c: ConnId, a: StreamId)
    requires LogChannel.Wf(s) && c in s.relay.conns
    ensures var t := HubStep(s, RunRemoveStream(c, a));
      t.handlers == s.handlers && t.relay == WithConn(s.relay, c, s.relay.conns[c].RemoveStream(a))
  {
  }

  lemma RemoveLeaves(conn: Conn, a: StreamId, id: StreamId)
    requires conn.Safe()
    ensures var conn' := conn.RemoveStream(a);
      && conn'.queues.Keys == conn.queues.Keys
      && (id != a ==> (id in conn'.active <==> id in conn.active))
      && (id != a && id in conn.queues ==> conn'.queues[id] == conn.queues[id])
  {
  }

  lemma TakeLeaves(conn: Conn, a: StreamId, id: StreamId)
    ensures var conn' := conn.Take(a);
      && conn'.active == conn.active && conn'.queues.Keys == conn.queues.Keys
      && (id != a && id in conn.queues ==> conn'.queues[id] == conn.queues[id])
      && (id == a && id in conn.queues && conn.queues[id].items != [] ==>
            conn'.queues[id].items == conn.queues[id].items[1..])
  {
  }

  /** The handler takes a message: an end finishes it, with the error the message carries. */
  lemma MessageOk(h: Handler, items: seq<Frame>, active: bool, cut: bool)
    requires OpenOk(h, active, items, cut) && FailureOk(h, cut) && h.phase.Streaming? && items != []
    requires h.terminal == NoTerminal
    ensures OpenOk(OnMessage(h, items[0]), active, items[1..], cut) && FailureOk(OnMessage(h, items[0]), cut)
  {
    var m, h' := items[0], OnMessage(h, items[0]);
    assert h'.taken == h.taken + [m];
    if m.End? {
      assert !IsOpen(h'.phase) && EndsInEnd(h'.taken);
    } else if EndsInEnd(items) {
      assert EndsInEnd(items[1..]);
    }
  }

  lemma MessageExplains(s: Channel, id: StreamId, cut: bool)
    requires Inv(s) && Explained(s, id, cut) && Placed(s, id) && s.handlers[id].phase.Streaming?
    requires s.relay.conns[s.handlers[id].conn].queues[id].items != []
    ensures Explained(HandlerStep(s, RelayOne(id)), id, cut)
  {
    var h := s.handlers[id];
    var conn := s.relay.conns[h.conn];
    var f := conn.queues[id].items[0];
    PathOf(s, id);
    RelayIs(s, id);
    MessageOk(h, conn.queues[id].items, id in conn.active, cut);
    TakeShape(SetHandler(s, id, OnMessage(h, f)), h.conn, id);
    TakeLeaves(conn, id, id);
    OnMessageConn(h, f);
  }

  lemma OnMessageConn(h: Handler, f: Frame)
    ensures OnMessage(h, f).conn == h.conn
  {
  }

  /** An open stream whose queue is closed and empty was cut. */
  lemma ClosedExplains(s: Channel, id: StreamId, cut: bool)
    requires Inv(s) && Explained(s, id, cut) && Placed(s, id) && s.handlers[id].phase.Streaming?
    requires s.relay.conns[s.handlers[id].conn].queues[id] == Queue([], true)
    ensures cut && Explained(HandlerStep(s, RelayOne(id)), id, cut)
  {
    var h := s.handlers[id];
    assert s.relay.conns[h.conn].Safe();
    RelayIs(s, id);
    assert h.taken == PrintTerminal(h, ErrorEvent(OpenFailure())).taken;
  }

  lemma OtherRelays(s: Channel, a: StreamId, id: StreamId, cut: bool)
    requires Inv(s) && Explained(s, id, cut) && a != id
    ensures Explained(HandlerStep(s, RelayOne(a)), id, cut)
  {
    if a in s.handlers && s.handlers[a].phase.Streaming? {
      var h := s.handlers[a];
      PathOf(s, a);
      RelayIs(s, a);
      if s.relay.conns[h.conn].queues[a].items != [] {
        var taken := SetHandler(s, a, OnMessage(h, s.relay.conns[h.conn].queues[a].items[0]));
        TakeShape(taken, h.conn, a);
        TakenExplains(s, HubStep(taken, RunTake(h.conn, a)), h.conn, a, id, cut);
      }
    } else {
      NothingRelayed(s, a);
    }
  }

  lemma TakenExplains(s: Channel, t: Channel, c: ConnId, a: StreamId, id: StreamId, cut: bool)
    requires Explained(s, id, cut) && a != id && c in s.relay.conns
    requires t.relay == WithConn(s.relay, c, s.relay.conns[c].Take(a))
    requires (id in t.handlers <==> id in s.handlers) && (id in s.handlers ==> t.handlers[id] == s.handlers[id])
    ensures Explained(t, id, cut)
  {
    TakeLeaves(s.relay.conns[c], a, id);
  }

  lemma NothingRelayed(s: Channel, a: StreamId)
    requires LogChannel.Wf(s) && !(a in s.handlers && s.handlers[a].phase.Streaming?)
    ensures HandlerStep(s, RelayOne(a)) == s
  {
  }

  lemma RelayExplains(s: Channel, a: StreamId, id: StreamId, cut: bool)
    requires Inv(s) && Explained(s, id, cut)
    ensures Explained(HandlerStep(s, RelayOne(a)), id, cut)
  {
    if a != id {
      OtherRelays(s, a, id, cut);
    } else if id in s.handlers && s.handlers[id].phase.Streaming? {
      PathOf(s, id);
      var queue := s.relay.conns[s.handlers[id].conn].queues[id];
      if queue.items != [] {
        MessageExplains(s, id, cut);
      } else if queue.closed {
        ClosedExplains(s, id, cut);
      } else {
        RelayIs(s, id);
      }
    } else {
      NothingRelayed(s, a);
    }
  }

  lemma HandlerExplains(s: Channel, a: LogChannel.Action, id: StreamId, cut: bool)
    requires Inv(s) && Explained(s, id, cut) && ByHandler(a)
    ensures Explained(LogChannel.Step(s, a), id, cut)
  {
    ByTheHandler(s, a);
    if a.RelayOne? {
      assert a == RelayOne(a.id);
      RelayExplains(s, a.id, id, cut);
    } else if a.Drop? {
      assert a == Drop(a.id);
      DropCarries(s, a.id, id, cut);
    } else {
      HandlerLeaves(s, a);
      CarriesKeeps(s, HandlerStep(s, a), id, cut);
    }
  }

  lemma ByTheHandler(s: Channel, a: LogChannel.Action)
    requires LogChannel.Wf(s) && ByHandler(a)
    ensures LogChannel.Step(s, a) == HandlerStep(s, a)
  {
  }

  lemma StepExplains(s: Channel, a: LogChannel.Action, id: StreamId, cut: bool)
    requires Inv(s) && Explained(s, id, cut)
    ensures Explained(LogChannel.Step(s, a), id, cut || Cuts(s, a, id))
  {
    if ByRegistry(a) {
      RegistryExplains(s, a, id, cut);
    } else if ByLink(a) {
      LinkExplains(s, a, id, cut);
    } else if ByHandler(a) {
      HandlerExplains(s, a, id, cut);
      CutMore(LogChannel.Step(s, a), id, cut, Cuts(s, a, id));
    } else {
      WorkerExplains(s, a, id, cut);
      CutMore(LogChannel.Step(s, a), id, cut, Cuts(s, a, id));
    }
  }

  lemma CutMore(s: Channel, id: StreamId, cut: bool, more: bool)
    requires Explained(s, id, cut)
    ensures Explained(s, id, cut || more)
  {
  }

  // ---------------------------------------------------------------- whole runs

  ghost function At(start: Channel, actions: seq<LogChannel.Action>, n: nat): Channel
    requires LogChannel.Wf(start) && n <= |actions|
  {
    LogChannel.Run(start, actions[..n])
  }

  ghost predicate CutAt(start: Channel, actions: seq<LogChannel.Action>, n: nat, id: StreamId)
    requires LogChannel.Wf(start) && n < |actions|
  {
    Cuts(At(start, actions, n), actions[n], id)
  }

  /** One of the first n steps cut the stream. */
  ghost predicate CutBefore(start: Channel, actions: seq<LogChannel.Action>, n: nat, id: StreamId)
    requires LogChannel.Wf(start) && n <= |actions|
  {
    exists i: nat :: i < n && CutAt(start, actions, i, id)
  }

  lemma AtStep(start: Channel, actions: seq<LogChannel.Action>, n: nat)
    requires Inv(start) && n < |actions|
    ensures Inv(At(start, actions, n))
    ensures At(start, actions, n + 1) == LogChannel.Step(At(start, actions, n), actions[n])
  {
    assert actions[..n + 1] == actions[..n] + [actions[n]];
    RunSnoc(start, actions[..n], actions[n]);
    RunKeeps(start, actions[..n]);
  }

  lemma StepExplainsAt(start: Channel, actions: seq<LogChannel.Action>, n: nat, id: StreamId, cut: bool)
    requires Inv(start) && n < |actions| && Explained(At(start, actions, n), id, cut)
    ensures Explained(At(start, actions, n + 1), id, cut || CutAt(start, actions, n, id))
  {
    AtStep(start, actions, n);
    StepExplains(At(start, actions, n), actions[n], id, cut);
  }

  lemma CutBeforeStep(start: Channel, actions: seq<LogChannel.Action>, n: nat, id: StreamId)
    requires LogChannel.Wf(start) && n < |actions|
    ensures CutBefore(start, actions, n + 1, id)
       <==> CutBefore(start, actions, n, id) || CutAt(start, actions, n, id)
  {
  }

  lemma AtFirst(start: Channel, actions: seq<LogChannel.Action>)
    requires LogChannel.Wf(start)
    ensures At(start, actions, 0) == start
  {
    assert actions[..0] == [];
  }

  lemma {:induction false} ExplainedUpTo(start: Channel, actions: seq<LogChannel.Action>, n: nat, id: StreamId)
    requires Inv(start) && Explained(start, id, false) && n <= |actions|
    ensures Explained(At(start, actions, n), id, CutBefore(start, actions, n, id))
    decreases n
  {
    if n == 0 {
      AtFirst(start, actions);
      CutMore(start, id, false, CutBefore(start, actions, 0, id));
    } else {
      ExplainedUpTo(start, actions, n - 1, id);
      StepExplainsAt(start, actions, n - 1, id, CutBefore(start, actions, n - 1, id));
      CutBeforeStep(start, actions, n - 1, id);
    }
  }

  lemma RunExplained(start: Channel, actions: seq<LogChannel.Action>, id: StreamId)
    requires Inv(start) && Explained(start, id, false)
    ensures var s := LogChannel.Run(start, actions);
      Inv(s) && Explained(s, id, CutBefore(start, actions, |actions|, id))
  {
    assert actions[..|actions|] == actions;
    ExplainedUpTo(start, actions, |actions|, id);
    RunKeeps(start, actions);
  }

  lemma EndErrorIs(id: StreamId, w: Option<Worker>, taken: seq<Frame>)
    requires w.Some? ==> WorkerOk(id, w.value)
    requires taken <= SentBy(w) && EndsInEnd(taken) && taken[|taken| - 1].error != ""
    ensures w.Some? && w.value.stop.Some? && w.value.stop.value.Failed?
    ensures taken[|taken| - 1].error == "read pod logs: " + w.value.stop.value.reason
  {
    EndIsLast(id, w.value, |taken| - 1);
  }

  /** The stream's reader failed, and this is its error. */
  predicate ReaderError(s: Channel, id: StreamId, message: string) {
    && id in s.workers && s.workers[id].stop.Some? && s.workers[id].stop.value.Failed?
    && message == "read pod logs: " + s.workers[id].stop.value.reason
  }

  /** The handler has told the client that the stream failed. */
  predicate Told(s: Channel, id: StreamId, message: string) {
    id in s.handlers && s.handlers[id].terminal == ErrorEvent(message)
  }

  lemma FailureIs(s: Channel, id: StreamId, cut: bool, message: string)
    requires Inv(s) && Explained(s, id, cut) && Told(s, id, message)
    ensures (message == "the agent log channel closed unexpectedly" && cut) || ReaderError(s, id, message)
  {
    if !(message == OpenFailure() && cut) { ReaderFailed(s, id); }
  }

  /** One of the steps cut the stream, and the client is told that its channel closed. */
  ghost predicate WasCut(start: Channel, actions: seq<LogChannel.Action>, id: StreamId, message: string)
    requires LogChannel.Wf(start)
  {
    message == "the agent log channel closed unexpectedly" && CutBefore(start, actions, |actions|, id)
  }

  /**
    Over every interleaving, from any state in which the stream is not open yet, such as the empty one:
    a client is told that the stream failed only if its reader failed, and then with the reader's
    error, or if its connection was closed or one of its frames found 512 others waiting.
   */
  lemma FailsOnlyFor(start: Channel, actions: seq<LogChannel.Action>, id: StreamId, message: string)
    requires Inv(start) && id !in start.handlers
    requires Told(LogChannel.Run(start, actions), id, message)
    ensures WasCut(start, actions, id, message) || ReaderError(LogChannel.Run(start, actions), id, message)
  {
    RunExplained(start, actions, id);
    FailureIs(LogChannel.Run(start, actions), id, CutBefore(start, actions, |actions|, id), message);
  }

  lemma TheEmptyStart(id: StreamId)
    ensures Inv(Start0) && id !in Start0.handlers
  {
  }

  lemma ReaderFailed(s: Channel, id: StreamId)
    requires Inv(s) && id in s.handlers && s.handlers[id].terminal.ErrorEvent?
    requires EndsInEnd(s.handlers[id].taken)
    requires s.handlers[id].taken[|s.handlers[id].taken| - 1].error == s.handlers[id].terminal.message != ""
    ensures id in s.workers && s.workers[id].stop.Some? && s.workers[id].stop.value.Failed?
    ensures s.handlers[id].terminal.message == "read pod logs: " + s.workers[id].stop.value.reason
  {
    var h := s.handlers[id];
    assert StreamOk(s, id);
    TakenIsSent(id, h.taken, s.relay.conns[h.conn], s.links[h.conn], SentBy(WorkerOf(s, id)));
    EndErrorIs(id, WorkerOf(s, id), h.taken);
  }
}
