/**
  What the agent's workers, the requests to them and the handlers' keep-alives do, step by step and over
  whole runs. Sources: internal/agent/logs/client.go, internal/server/handlers_logs.go.
 */
module LogWorkers {
  import opened Text
  import opened Runs
  import opened LogRelay
  import opened LogChannel
  import opened LogChannelSafety
  import opened LogArrival
  import Sse

  ghost function At(start: Channel, actions: seq<LogChannel.Action>, n: nat): Channel
    requires LogChannel.Wf(start)
  {
    LogChannel.Run(start, if n <= |actions| then actions[..n] else actions)
  }

  lemma AtStep(start: Channel, actions: seq<LogChannel.Action>, n: nat)
    requires Inv(start) && n < |actions|
    ensures Inv(At(start, actions, n))
    ensures At(start, actions, n + 1) == LogChannel.Step(At(start, actions, n), actions[n])
  {
    assert actions[..n + 1] == actions[..n] + [actions[n]];
    RunSnoc(start, actions[..n], actions[n]);
    RunKeeps(start, actions[..n]);
  }

  // ---------------------------------------------------------------- one step of a worker

  /** The request that the agent's reader is about to handle. */
  ghost predicate Reads(s: Channel, a: LogChannel.Action, frame: Frame) {
    a.ReadControl? && a.conn in s.links && s.links[a.conn].controlWire != [] && s.links[a.conn].controlWire[0] == frame
  }

  /** A request starts the worker of a stream that has none. */
  ghost predicate Starts(s: Channel, a: LogChannel.Action, id: StreamId) {
    Reads(s, a, Start(id)) && id != "" && id !in s.workers
  }

  /** Its context ends, or the hub asks it to stop. */
  ghost predicate Cancels(s: Channel, a: LogChannel.Action, id: StreamId) {
    id in s.workers && (a == CancelWorker(id) || Reads(s, a, Stop(id)))
  }

  /** What becomes of a worker in one step, with `room` saying whether its frame fits the outbound queue. */
  function WorkerAfter(w: Worker, a: LogChannel.Action, id: StreamId, room: bool): Worker
    requires ByWorker(a) && a.id == id
  {
    match a
    case CancelWorker(_) => w.(cancelled := true)
    case EmitLine(_, line) =>
      if w.state == Running && room then w.(read := w.read + [line], sent := w.sent + [Data(id, line)]) else w
    case LoseLine(_, line) =>
      if w.state == Running && w.cancelled then w.(read := w.read + [line], state := GaveUp) else w
    case StopReading(_, how) =>
      if w.state != Running then w
      else if w.cancelled then w.(state := GaveUp)
      else w.(state := Finishing(if how.Failed? then "read pod logs: " + how.reason else ""), stop := Some(how))
    case SendEnd(_) =>
      if w.state.Finishing? && room
      then w.(sent := w.sent + [End(id, w.state.error)], state := Ended(w.state.error)) else w
    case GiveUp(_) =>
      if w.cancelled && (w.state == Running || w.state.Finishing?) then w.(state := GaveUp) else w
  }

  /** Fewer than 256 frames wait to be written. */
  ghost predicate HasRoom(s: Channel, id: StreamId) {
    id in s.workers && s.workers[id].conn in s.links && |s.links[s.workers[id].conn].outbound| < 256
  }

  /** What a worker queues is put at the end of its connection's outbound queue. */
  lemma WorkerSteps(s: Channel, a: LogChannel.Action)
    requires ByWorker(a) && a.id in s.workers && s.workers[a.id].conn in s.links
    ensures var t, w, c := WorkerStep(s, a), s.workers[a.id], s.workers[a.id].conn;
      var w' := WorkerAfter(w, a, a.id, HasRoom(s, a.id));
      && t.workers == s.workers[a.id := w'] && c in t.links && |w'.sent| >= |w.sent|
      && t.links[c].outbound == s.links[c].outbound + w'.sent[|w.sent|..]
      && t.relay == s.relay && t.handlers == s.handlers
  {
    assert s.workers[a.id := s.workers[a.id]] == s.workers;
    assert s.links[s.workers[a.id].conn].outbound + [] == s.links[s.workers[a.id].conn].outbound;
  }

  lemma ByTheWorker(s: Channel, a: LogChannel.Action)
    requires LogChannel.Wf(s) && ByWorker(a)
    ensures LogChannel.Step(s, a) == WorkerStep(s, a)
  {
  }

  lemma WorkerElsewhere(s: Channel, a: LogChannel.Action, id: StreamId)
    requires ByWorker(a) && (a.id != id || id !in s.workers || s.workers[id].conn !in s.links)
    ensures id in WorkerStep(s, a).workers <==> id in s.workers
    ensures id in s.workers ==> WorkerStep(s, a).workers[id] == s.workers[id]
  {
  }

  /** Requests start and cancel workers; nothing else of a link's steps concerns one. */
  lemma LinkWorkers(s: Channel, a: LogChannel.Action, id: StreamId)
    requires LogChannel.Wf(s) && ByLink(a)
    ensures var t := LogChannel.Step(s, a);
      && (id in t.workers <==> id in s.workers || Starts(s, a, id))
      && (id in t.workers && id !in s.workers ==> t.workers[id] == Worker(a.conn, [], [], Running, false, None))
      && (id in s.workers ==>
            t.workers[id] == s.workers[id].(cancelled := s.workers[id].cancelled || Cancels(s, a, id)))
  {
    if a.ReadControl? && a.conn in s.links && s.links[a.conn].controlWire != [] {
      ReadControlIs(s, a.conn);
      assert a == ReadControl(a.conn);
    } else {
      LinkWithoutControl(s, a);
    }
  }

  lemma LinkWithoutControl(s: Channel, a: LogChannel.Action)
    requires LogChannel.Wf(s) && ByLink(a)
    requires !(a.ReadControl? && a.conn in s.links && s.links[a.conn].controlWire != [])
    ensures LogChannel.Step(s, a).workers == s.workers
  {
    ByTheLink(s, a);
    LinkLeavesWorkers(s, a);
  }

  lemma ByTheLink(s: Channel, a: LogChannel.Action)
    requires LogChannel.Wf(s) && ByLink(a)
    ensures LogChannel.Step(s, a) == LinkStep(s, a)
  {
  }

  lemma LinkLeavesWorkers(s: Channel, a: LogChannel.Action)
    requires LogChannel.Wf(s) && ByLink(a)
    requires !(a.ReadControl? && a.conn in s.links && s.links[a.conn].controlWire != [])
    ensures LinkStep(s, a).workers == s.workers
  {
  }

  lemma HubLeavesWorkers(s: Channel, a: LogChannel.Action)
    requires LogChannel.Wf(s) && (ByRegistry(a) || ByHandler(a))
    ensures LogChannel.Step(s, a).workers == s.workers
  {
    if ByHandler(a) {
      assert LogChannel.Step(s, a) == HandlerStep(s, a);
    } else {
      RegistryLeaves(s, a);
    }
  }

  lemma RegistryLeaves(s: Channel, a: LogChannel.Action)
    requires LogChannel.Wf(s) && ByRegistry(a)
    ensures LogChannel.Step(s, a).workers == s.workers
  {
  }

  // ---------------------------------------------------------------- whole runs

  ghost predicate IsCancelled(s: Channel, id: StreamId) { id in s.workers && s.workers[id].cancelled }

  /** A worker that gave up was cancelled. */
  ghost predicate GivesUpRightly(s: Channel, id: StreamId) {
    id in s.workers && s.workers[id].state == GaveUp ==> s.workers[id].cancelled
  }

  lemma CancelStep(s: Channel, a: LogChannel.Action, id: StreamId)
    requires Inv(s) && GivesUpRightly(s, id)
    ensures GivesUpRightly(LogChannel.Step(s, a), id)
    ensures IsCancelled(LogChannel.Step(s, a), id) <==> Cancels(s, a, id) || IsCancelled(s, id)
  {
    if ByWorker(a) {
      ByTheWorker(s, a);
      WorkerCancels(s, a, id);
    } else if ByLink(a) {
      LinkCancels(s, a, id);
    } else {
      HubCancels(s, a, id);
    }
  }

  lemma LinkCancels(s: Channel, a: LogChannel.Action, id: StreamId)
    requires LogChannel.Wf(s) && GivesUpRightly(s, id) && ByLink(a)
    ensures GivesUpRightly(LogChannel.Step(s, a), id)
    ensures IsCancelled(LogChannel.Step(s, a), id) <==> Cancels(s, a, id) || IsCancelled(s, id)
  {
    LinkWorkers(s, a, id);
  }

  lemma HubCancels(s: Channel, a: LogChannel.Action, id: StreamId)
    requires LogChannel.Wf(s) && GivesUpRightly(s, id) && (ByRegistry(a) || ByHandler(a))
    ensures GivesUpRightly(LogChannel.Step(s, a), id)
    ensures IsCancelled(LogChannel.Step(s, a), id) <==> Cancels(s, a, id) || IsCancelled(s, id)
  {
    HubLeavesWorkers(s, a);
  }

  lemma WorkerCancels(s: Channel, a: LogChannel.Action, id: StreamId)
    requires Inv(s) && GivesUpRightly(s, id) && ByWorker(a)
    ensures GivesUpRightly(WorkerStep(s, a), id)
    ensures IsCancelled(WorkerStep(s, a), id) <==> (a == CancelWorker(id) && id in s.workers) || IsCancelled(s, id)
  {
    if a.id == id && id in s.workers {
      WorkerIsPlaced(s, id);
      WorkerSteps(s, a);
      AfterCancels(s.workers[id], a, id, HasRoom(s, id));
    } else {
      WorkerElsewhere(s, a, id);
    }
  }

  lemma AfterCancels(w: Worker, a: LogChannel.Action, id: StreamId, room: bool)
    requires ByWorker(a) && a.id == id
    ensures var w' := WorkerAfter(w, a, id, room);
      && w'.cancelled == (w.cancelled || a == CancelWorker(id))
      && (w'.state == GaveUp ==> w.state == GaveUp || w.cancelled)
  {
  }

  lemma WorkerIsPlaced(s: Channel, id: StreamId)
    requires Inv(s) && id in s.workers
    ensures s.workers[id].conn in s.links
  {
    assert StreamOk(s, id);
  }

  ghost function Cancelling(start: Channel, actions: seq<LogChannel.Action>, id: StreamId): nat -> bool
    requires LogChannel.Wf(start)
  {
    (k: nat) => k < |actions| && Cancels(At(start, actions, k), actions[k], id)
  }

  ghost function Never(): nat -> bool { (k: nat) => false }

  lemma CancelAt(start: Channel, actions: seq<LogChannel.Action>, id: StreamId, k: nat)
    requires Inv(start) && k < |actions| && GivesUpRightly(At(start, actions, k), id)
    ensures GivesUpRightly(At(start, actions, k + 1), id)
    ensures IsCancelled(At(start, actions, k + 1), id)
       <==> Cancelling(start, actions, id)(k) || IsCancelled(At(start, actions, k), id)
  {
    AtStep(start, actions, k);
    CancelStep(At(start, actions, k), actions[k], id);
  }

  lemma AtFirst(start: Channel, actions: seq<LogChannel.Action>)
    requires LogChannel.Wf(start)
    ensures At(start, actions, 0) == start
  {
    assert actions[..0] == [];
  }

  lemma {:induction false} CancelledUpTo(start: Channel, actions: seq<LogChannel.Action>, id: StreamId, k: nat)
    requires Inv(start) && id !in start.workers && k <= |actions|
    ensures GivesUpRightly(At(start, actions, k), id)
    ensures IsCancelled(At(start, actions, k), id) <==> Since(Cancelling(start, actions, id), Never(), k)
    decreases k
  {
    if k == 0 {
      AtFirst(start, actions);
    } else {
      CancelledUpTo(start, actions, id, k - 1);
      CancelAt(start, actions, id, k - 1);
      SinceStep(Cancelling(start, actions, id), Never(), k - 1);
    }
  }

  /**
    Over every interleaving, from any state without the stream's worker: the worker is cancelled
    exactly if its context ended or the agent read the hub's request to stop it, and it gives up,
    leaving lines unsent, only then.
   */
  lemma CancelledExactly(start: Channel, actions: seq<LogChannel.Action>, id: StreamId)
    requires Inv(start) && id !in start.workers
    ensures var s := LogChannel.Run(start, actions);
      && (IsCancelled(s, id) <==> Since(Cancelling(start, actions, id), Never(), |actions|))
      && (id in s.workers && s.workers[id].state == GaveUp ==> s.workers[id].cancelled)
  {
    assert actions[..|actions|] == actions;
    CancelledUpTo(start, actions, id, |actions|);
  }

  /** A connection that fails writes no more, and the hub still reads a beginning of what was on its way. */
  lemma BreakSteps(s: Channel, c: ConnId, kept: nat)
    requires LogChannel.Wf(s) && c in s.links
    ensures var l, t := s.links[c], LogChannel.Step(s, Break(c, kept));
      && t == s.(links := s.links[c := l.(broken := true, wire := if kept < |l.wire| then l.wire[..kept] else l.wire)])
      && LogChannel.Step(t, Write(c)) == t
  {
    ByTheLink(s, Break(c, kept));
    BrokenWrites(LogChannel.Step(s, Break(c, kept)), c);
    assert s.links[c].wire[..|s.links[c].wire|] == s.links[c].wire;
  }

  lemma BrokenWrites(s: Channel, c: ConnId)
    requires LogChannel.Wf(s) && c in s.links && s.links[c].broken
    ensures LogChannel.Step(s, Write(c)) == s
  {
    ByTheLink(s, Write(c));
  }

  // ---------------------------------------------------------------- the handler's own steps

  lemma ByTheHandler(s: Channel, a: LogChannel.Action)
    requires LogChannel.Wf(s) && ByHandler(a)
    ensures LogChannel.Step(s, a) == HandlerStep(s, a)
  {
  }

  /** A keep-alive is a comment that is printed at once. */
  lemma KeepAliveIsPrinted(s: Channel, id: StreamId)
    requires LogChannel.Wf(s) && Placed(s, id) && s.handlers[id].phase == Streaming
    ensures var h, t := s.handlers[id], LogChannel.Step(s, Tick(id));
      var h' := h.(chunks := h.chunks + [Sse.KeepAlive], out := h.out + Sse.PrintChunk(Sse.KeepAlive));
      t == s.(handlers := s.handlers[id := h'])
  {
    ByTheHandler(s, Tick(id));
  }

  /** A browser that leaves ends its stream. */
  lemma AbandonEnds(s: Channel, id: StreamId)
    requires LogChannel.Wf(s) && Placed(s, id) && s.handlers[id].phase == Streaming
    ensures LogChannel.Step(s, Abandon(id)) == s.(handlers := s.handlers[id := s.handlers[id].(phase := Finished)])
  {
    ByTheHandler(s, Abandon(id));
  }

  /** Before it asks for the start of a stream, a handler sees whether the connection is closed. */
  lemma StartIsChecked(s: Channel, id: StreamId)
    requires LogChannel.Wf(s) && Placed(s, id) && s.handlers[id].phase == Opening
    ensures var h := s.handlers[id];
      LogChannel.Step(s, CheckStart(id)) == s.(handlers :=
        s.handlers[id := h.(phase := if s.relay.conns[h.conn].closed then Dropping else Starting)])
  {
    ByTheHandler(s, CheckStart(id));
  }

  /** And so before it asks for the stop. */
  lemma StopIsChecked(s: Channel, id: StreamId)
    requires LogChannel.Wf(s) && Placed(s, id) && s.handlers[id].phase == Finished
    ensures var h := s.handlers[id];
      LogChannel.Step(s, CheckStop(id)) == s.(handlers :=
        s.handlers[id := h.(phase := if s.relay.conns[h.conn].closed then Dropping else Stopping)])
  {
    ByTheHandler(s, CheckStop(id));
  }

  /** The request to start is queued, and the stream goes on, if fewer than 64 requests wait. */
  lemma StartIsSent(s: Channel, id: StreamId)
    requires LogChannel.Wf(s) && Placed(s, id) && s.handlers[id].phase == Starting
    ensures var h, l, t := s.handlers[id], s.links[s.handlers[id].conn], LogChannel.Step(s, SendStart(id));
      && (|l.control| < 64 ==> t == s.(handlers := s.handlers[id := h.(phase := Streaming)],
                                       links := s.links[h.conn := l.(control := l.control + [Start(id)])]))
      && (|l.control| >= 64 ==> t == s.(handlers := s.handlers[id := h.(phase := Dropping)]))
  {
    ByTheHandler(s, SendStart(id));
  }

  /** The request to stop is queued if fewer than 64 requests wait, and the stream is dropped either way. */
  lemma StopIsSent(s: Channel, id: StreamId)
    requires LogChannel.Wf(s) && Placed(s, id) && s.handlers[id].phase == Stopping
    ensures var h, l, t := s.handlers[id], s.links[s.handlers[id].conn], LogChannel.Step(s, SendStop(id));
      && (|l.control| < 64 ==> t == s.(handlers := s.handlers[id := h.(phase := Dropping)],
                                       links := s.links[h.conn := l.(control := l.control + [Stop(id)])]))
      && (|l.control| >= 64 ==> t == s.(handlers := s.handlers[id := h.(phase := Dropping)]))
  {
    ByTheHandler(s, SendStop(id));
    SendStopIs(s, id);
  }
}
