/**
  A run in which one reader's false context error reaches the client as a complete log.
  Sources: internal/agent/logs/client.go, internal/server/handlers_logs.go.
 */
module LogFalseEnd {
  import opened Text
  import opened LogRelay
  import opened LogChannel
  import opened LogChannelSafety
  import opened LogDelivery
  import Sse
  import Streamer

  // ---------------------------------------------------------------- the run

  /** One stream from connection to response whose reader fails with a context error after its first line. */
  const FALSE_END: seq<LogChannel.Action> :=
    [Connect(0, "c"), Open(0, "s"), CheckStart("s"), SendStart("s"), WriteControl(0), ReadControl(0),
     EmitLine("s", "a"), Write(0), Receive(0), RelayOne("s"),
     StopReading("s", Canceled), SendEnd("s"), Write(0), Receive(0), RelayOne("s")]

  const LINE: Frame := Data("s", "a")
  const FALSE: Frame := End("s", "")

  /** The channel of one connection and one stream. */
  function Single(queue: Queue, link: Link, workers: map<StreamId, Worker>, handler: Handler): Channel {
    Channel(Relay(map["c" := 0],
                  map[0 := Conn("c", false, if queue.closed then {} else {"s"}, map["s" := queue], false)], {}),
            map[0 := link], workers, map["s" := handler])
  }

  const HANDLER: Handler := Handler(0, Streaming, [], [], NoTerminal, "")
  const WORKER: Worker := Worker(0, [], [], Running, false, None)
  const AFTER_LINE: Handler := OnMessage(HANDLER, LINE)
  const ONE_LINE: Worker := Worker(0, ["a"], [LINE], Running, false, None)
  const MISLED: Worker := Worker(0, ["a"], [LINE, FALSE], Ended(""), false, Some(Canceled))

  lemma Follows(k: nat, s: Channel, t: Channel)
    requires LogChannel.Wf(s) && k < |FALSE_END| && LogChannel.Step(s, FALSE_END[k]) == t
    ensures LogChannel.Run(s, FALSE_END[k..]) == LogChannel.Run(t, FALSE_END[k + 1..])
  {
    assert FALSE_END[k..][0] == FALSE_END[k] && FALSE_END[k..][1..] == FALSE_END[k + 1..];
  }

  const IDLE: Link := Link([], [], [], [], false, [])
  const OPEN: Conn := Conn("c", false, {}, map[], false)
  const S1: Channel := Channel(Relay(map["c" := 0], map[0 := OPEN], {}), map[0 := IDLE], map[], map[])
  const S2: Channel := Single(Queue([], false), IDLE, map[], HANDLER.(phase := Opening))

  lemma Connects()
    ensures LogChannel.Step(Start0, FALSE_END[0]) == S1
  {
  }

  lemma AddsStream()
    ensures LogChannel.Wf(S1) && !UsedId(S1.relay, "s")
    ensures LogRelay.Step(S1.relay, RunAddStream(0, "s")) == S2.relay
  {
    var r := LogRelay.Step(S1.relay, RunAddStream(0, "s"));
    assert r == WithConn(S1.relay, 0, OPEN.AddStream("s").0);
    assert OPEN.AddStream("s").0 == S2.relay.conns[0];
    assert r.conns == S2.relay.conns;
  }

  lemma Opens()
    ensures LogChannel.Wf(S1) && LogChannel.Step(S1, FALSE_END[1]) == S2
  {
    AddsStream();
    assert LogChannel.Step(S1, FALSE_END[1]).handlers == S2.handlers;
  }

  const RECEIVED: Link := IDLE.(received := [LINE])
  const STOPPED: Worker := Worker(0, ["a"], [LINE], Finishing(""), false, Some(Canceled))

  const S3: Channel := Single(Queue([], false), IDLE, map[], HANDLER.(phase := Starting))
  const S4: Channel := Single(Queue([], false), IDLE.(control := [Start("s")]), map[], HANDLER)
  const S5: Channel := Single(Queue([], false), IDLE.(controlWire := [Start("s")]), map[], HANDLER)
  const S6: Channel := Single(Queue([], false), IDLE, map["s" := WORKER], HANDLER)
  const S7: Channel := Single(Queue([], false), IDLE.(outbound := [LINE]), map["s" := ONE_LINE], HANDLER)
  const S8: Channel := Single(Queue([], false), IDLE.(wire := [LINE]), map["s" := ONE_LINE], HANDLER)
  const S9: Channel := Single(Queue([LINE], false), RECEIVED, map["s" := ONE_LINE], HANDLER)
  const S10: Channel := Single(Queue([], false), RECEIVED, map["s" := ONE_LINE], AFTER_LINE)
  const S11: Channel := Single(Queue([], false), RECEIVED, map["s" := STOPPED], AFTER_LINE)
  const S12: Channel := Single(Queue([], false), RECEIVED.(outbound := [FALSE]), map["s" := MISLED], AFTER_LINE)
  const S13: Channel := Single(Queue([], false), RECEIVED.(wire := [FALSE]), map["s" := MISLED], AFTER_LINE)
  const S14: Channel := Single(Queue([FALSE], true), RECEIVED.(received := [LINE, FALSE]), map["s" := MISLED],
    AFTER_LINE)
  const S15: Channel := Single(Queue([], true), RECEIVED.(received := [LINE, FALSE]), map["s" := MISLED],
    OnMessage(AFTER_LINE, FALSE))

  lemma OnLink(q: Queue, l: Link, l': Link, ws: map<StreamId, Worker>, h: Handler)
    ensures SetLink(Single(q, l, ws, h), 0, l') == Single(q, l', ws, h)
  {
    assert map[0 := l][0 := l'] == map[0 := l'];
  }

  lemma OnHandler(q: Queue, l: Link, ws: map<StreamId, Worker>, h: Handler, h': Handler)
    ensures SetHandler(Single(q, l, ws, h), "s", h') == Single(q, l, ws, h')
  {
    assert map["s" := h]["s" := h'] == map["s" := h'];
  }

  lemma OnWorker(q: Queue, l: Link, w: Worker, w': Worker, h: Handler)
    ensures SetWorker(Single(q, l, map["s" := w], h), "s", w') == Single(q, l, map["s" := w'], h)
  {
    assert map["s" := w]["s" := w'] == map["s" := w'];
  }

  lemma OnConn(q: Queue, q': Queue, l: Link, ws: map<StreamId, Worker>, h: Handler)
    ensures var s, t := Single(q, l, ws, h), Single(q', l, ws, h);
      SetRelay(s, WithConn(s.relay, 0, t.relay.conns[0])) == t
  {
    var s, t := Single(q, l, ws, h), Single(q', l, ws, h);
    assert s.relay.conns[0 := t.relay.conns[0]] == t.relay.conns;
  }

  lemma One<T>(x: T, y: T)
    ensures [] + [x] == [x] && [x][1..] == [] && [x] + [y] == [x, y] && [x, y][1..] == [y]
  {
  }

  /** A data or an end frame reaches the empty queue of the stream. */
  lemma Delivers(l: Link, ws: map<StreamId, Worker>, h: Handler, f: Frame)
    requires f.id == "s" && (f.Data? || f.End?)
    ensures var s := Single(Queue([], false), l, ws, h);
      LogChannel.Wf(s) && HubStep(s, RunDeliver(0, f)) == Single(Queue([f], f.End?), l, ws, h)
  {
    var s, t := Single(Queue([], false), l, ws, h), Single(Queue([f], f.End?), l, ws, h);
    One(f, f);
    var conn := s.relay.conns[0];
    assert conn.Accept(f).queues == map["s" := Queue([f], false)];
    assert conn.Deliver(f).queues == t.relay.conns[0].queues;
    assert conn.Deliver(f).active == t.relay.conns[0].active;
    assert conn.Deliver(f) == t.relay.conns[0];
    OnConn(Queue([], false), Queue([f], f.End?), l, ws, h);
  }

  /** The handler takes the only frame of its queue. */
  lemma Takes(l: Link, ws: map<StreamId, Worker>, h: Handler, f: Frame, closed: bool)
    ensures var s := Single(Queue([f], closed), l, ws, h);
      LogChannel.Wf(s) && HubStep(s, RunTake(0, "s")) == Single(Queue([], closed), l, ws, h)
  {
    var s, t := Single(Queue([f], closed), l, ws, h), Single(Queue([], closed), l, ws, h);
    One(f, f);
    assert s.relay.conns[0].Take("s").queues == t.relay.conns[0].queues;
    OnConn(Queue([f], closed), Queue([], closed), l, ws, h);
  }

  // ---------------------------------------------------------------- its steps

  lemma WritesFrame(q: Queue, l: Link, ws: map<StreamId, Worker>, h: Handler, f: Frame)
    requires !l.broken && l.wire == [] && l.outbound == []
    ensures LogChannel.Step(Single(q, l.(outbound := [f]), ws, h), Write(0)) == Single(q, l.(wire := [f]), ws, h)
  {
    One(f, f);
    OnLink(q, l.(outbound := [f]), l.(wire := [f]), ws, h);
  }

  lemma ReceivesByLink(s: Channel, l: Link, f: Frame)
    requires LogChannel.Wf(s) && 0 in s.links && s.links[0].wire == [f] && FromAgent(f)
    requires l == s.links[0].(wire := [], received := s.links[0].received + [f])
    ensures LogChannel.Step(s, Receive(0)) == HubStep(SetLink(s, 0, l), RunDeliver(0, f))
  {
    One(f, f);
  }

  lemma ReceivesFrame(l: Link, ws: map<StreamId, Worker>, h: Handler, f: Frame)
    requires l.wire == [] && f.id == "s" && (f.Data? || f.End?)
    ensures LogChannel.Step(Single(Queue([], false), l.(wire := [f]), ws, h), Receive(0))
         == Single(Queue([f], f.End?), l.(received := l.received + [f]), ws, h)
  {
    One(f, f);
    var s := Single(Queue([], false), l.(wire := [f]), ws, h);
    ReceivesByLink(s, l.(received := l.received + [f]), f);
    OnLink(Queue([], false), l.(wire := [f]), l.(received := l.received + [f]), ws, h);
    Delivers(l.(received := l.received + [f]), ws, h, f);
  }

  lemma RelaysByHandler(s: Channel)
    requires LogChannel.Wf(s)
    ensures LogChannel.Step(s, RelayOne("s")) == HandlerStep(s, RelayOne("s"))
  {
  }

  lemma RelaysFrame(l: Link, ws: map<StreamId, Worker>, h: Handler, f: Frame, closed: bool)
    requires h.conn == 0 && h.phase.Streaming?
    ensures LogChannel.Step(Single(Queue([f], closed), l, ws, h), RelayOne("s"))
         == Single(Queue([], closed), l, ws, OnMessage(h, f))
  {
    var s := Single(Queue([f], closed), l, ws, h);
    RelaysByHandler(s);
    RelayIs(s, "s");
    OnHandler(Queue([f], closed), l, ws, h, OnMessage(h, f));
    Takes(l, ws, OnMessage(h, f), f, closed);
  }

  lemma Checks()
    ensures LogChannel.Step(S2, CheckStart("s")) == S3
  {
    OnHandler(Queue([], false), IDLE, map[], HANDLER.(phase := Opening), HANDLER.(phase := Starting));
  }

  lemma Requests()
    ensures LogChannel.Step(S3, SendStart("s")) == S4
  {
    One(Start("s"), Start("s"));
    OnHandler(Queue([], false), IDLE, map[], HANDLER.(phase := Starting), HANDLER);
    OnLink(Queue([], false), IDLE, IDLE.(control := [Start("s")]), map[], HANDLER);
  }

  lemma WritesRequest()
    ensures LogChannel.Step(S4, WriteControl(0)) == S5
  {
    One(Start("s"), Start("s"));
    OnLink(Queue([], false), IDLE.(control := [Start("s")]), IDLE.(controlWire := [Start("s")]), map[], HANDLER);
  }

  lemma StartsWorker()
    ensures LogChannel.Step(S5, ReadControl(0)) == S6
  {
    One(Start("s"), Start("s"));
    OnLink(Queue([], false), IDLE.(controlWire := [Start("s")]), IDLE, map[], HANDLER);
    assert map[]["s" := WORKER] == map["s" := WORKER];
  }

  lemma Emits()
    ensures LogChannel.Step(S6, EmitLine("s", "a")) == S7
  {
    One(LINE, LINE);
    One("a", "a");
    OnWorker(Queue([], false), IDLE, WORKER, ONE_LINE, HANDLER);
    OnLink(Queue([], false), IDLE, IDLE.(outbound := [LINE]), map["s" := ONE_LINE], HANDLER);
  }

  lemma StopsFalsely()
    ensures LogChannel.Step(S10, StopReading("s", Canceled)) == S11
  {
    OnWorker(Queue([], false), RECEIVED, ONE_LINE, STOPPED, AFTER_LINE);
  }

  lemma SendsEndFrame(q: Queue, l: Link, w: Worker, h: Handler)
    requires w.conn == 0 && w.state.Finishing? && l.outbound == []
    ensures var end := End("s", w.state.error);
      LogChannel.Step(Single(q, l, map["s" := w], h), SendEnd("s"))
      == Single(q, l.(outbound := [end]), map["s" := w.(sent := w.sent + [end], state := Ended(w.state.error))], h)
  {
    var end := End("s", w.state.error);
    One(end, end);
    OnWorker(q, l, w, w.(sent := w.sent + [end], state := Ended(w.state.error)), h);
    OnLink(q, l, l.(outbound := [end]), map["s" := w.(sent := w.sent + [end], state := Ended(w.state.error))], h);
  }

  lemma SendsEnd()
    ensures LogChannel.Step(S11, SendEnd("s")) == S12
  {
    One(LINE, FALSE);
    assert STOPPED.(sent := STOPPED.sent + [FALSE], state := Ended("")) == MISLED;
    SendsEndFrame(Queue([], false), RECEIVED, STOPPED, AFTER_LINE);
  }

  lemma WritesLine()
    ensures LogChannel.Step(S7, Write(0)) == S8
  {
    WritesFrame(Queue([], false), IDLE, map["s" := ONE_LINE], HANDLER, LINE);
  }

  lemma ReceivesLine()
    ensures LogChannel.Step(S8, Receive(0)) == S9
  {
    One(LINE, LINE);
    assert IDLE.(received := IDLE.received + [LINE]) == RECEIVED;
    ReceivesFrame(IDLE, map["s" := ONE_LINE], HANDLER, LINE);
  }

  lemma RelaysLine()
    ensures LogChannel.Step(S9, RelayOne("s")) == S10
  {
    RelaysFrame(RECEIVED, map["s" := ONE_LINE], HANDLER, LINE, false);
  }

  lemma WritesEnd()
    ensures LogChannel.Step(S12, Write(0)) == S13
  {
    WritesFrame(Queue([], false), RECEIVED, map["s" := MISLED], AFTER_LINE, FALSE);
  }

  lemma ReceivesEnd()
    ensures LogChannel.Step(S13, Receive(0)) == S14
  {
    One(LINE, FALSE);
    assert RECEIVED.(received := RECEIVED.received + [FALSE]) == RECEIVED.(received := [LINE, FALSE]);
    ReceivesFrame(RECEIVED, map["s" := MISLED], AFTER_LINE, FALSE);
  }

  lemma RelaysEnd()
    ensures LogChannel.Step(S14, RelayOne("s")) == S15
  {
    RelaysFrame(RECEIVED.(received := [LINE, FALSE]), map["s" := MISLED], AFTER_LINE, FALSE, true);
  }

  // ---------------------------------------------------------------- one after the other

  lemma Follows0()
    ensures LogChannel.Run(Start0, FALSE_END[0..]) == LogChannel.Run(S1, FALSE_END[1..])
  {
    Connects();
    Follows(0, Start0, S1);
  }

  lemma Follows1()
    ensures LogChannel.Run(S1, FALSE_END[1..]) == LogChannel.Run(S2, FALSE_END[2..])
  {
    Opens();
    Follows(1, S1, S2);
  }

  lemma Follows2()
    ensures LogChannel.Run(S2, FALSE_END[2..]) == LogChannel.Run(S3, FALSE_END[3..])
  {
    Checks();
    Follows(2, S2, S3);
  }

  lemma Follows3()
    ensures LogChannel.Run(S3, FALSE_END[3..]) == LogChannel.Run(S4, FALSE_END[4..])
  {
    Requests();
    Follows(3, S3, S4);
  }

  lemma Follows4()
    ensures LogChannel.Run(S4, FALSE_END[4..]) == LogChannel.Run(S5, FALSE_END[5..])
  {
    WritesRequest();
    Follows(4, S4, S5);
  }

  lemma Follows5()
    ensures LogChannel.Run(S5, FALSE_END[5..]) == LogChannel.Run(S6, FALSE_END[6..])
  {
    StartsWorker();
    Follows(5, S5, S6);
  }

  lemma Follows6()
    ensures LogChannel.Run(S6, FALSE_END[6..]) == LogChannel.Run(S7, FALSE_END[7..])
  {
    Emits();
    Follows(6, S6, S7);
  }

  lemma Follows7()
    ensures LogChannel.Run(S7, FALSE_END[7..]) == LogChannel.Run(S8, FALSE_END[8..])
  {
    WritesLine();
    Follows(7, S7, S8);
  }

  lemma Follows8()
    ensures LogChannel.Run(S8, FALSE_END[8..]) == LogChannel.Run(S9, FALSE_END[9..])
  {
    ReceivesLine();
    Follows(8, S8, S9);
  }

  lemma Follows9()
    ensures LogChannel.Run(S9, FALSE_END[9..]) == LogChannel.Run(S10, FALSE_END[10..])
  {
    RelaysLine();
    Follows(9, S9, S10);
  }

  lemma Follows10()
    ensures LogChannel.Run(S10, FALSE_END[10..]) == LogChannel.Run(S11, FALSE_END[11..])
  {
    StopsFalsely();
    Follows(10, S10, S11);
  }

  lemma Follows11()
    ensures LogChannel.Run(S11, FALSE_END[11..]) == LogChannel.Run(S12, FALSE_END[12..])
  {
    SendsEnd();
    Follows(11, S11, S12);
  }

  lemma Follows12()
    ensures LogChannel.Run(S12, FALSE_END[12..]) == LogChannel.Run(S13, FALSE_END[13..])
  {
    WritesEnd();
    Follows(12, S12, S13);
  }

  lemma Follows13()
    ensures LogChannel.Run(S13, FALSE_END[13..]) == LogChannel.Run(S14, FALSE_END[14..])
  {
    ReceivesEnd();
    Follows(13, S13, S14);
  }

  lemma Follows14()
    ensures LogChannel.Run(S14, FALSE_END[14..]) == LogChannel.Run(S15, FALSE_END[15..])
  {
    RelaysEnd();
    Follows(14, S14, S15);
  }

  lemma WholeRun()
    ensures LogChannel.Run(Start0, FALSE_END) == S15
  {
    assert FALSE_END[0..] == FALSE_END && FALSE_END[15..] == [];
    Follows0(); Follows1(); Follows2(); Follows3(); Follows4(); Follows5(); Follows6(); Follows7();
    Follows8(); Follows9(); Follows10(); Follows11(); Follows12(); Follows13(); Follows14();
  }

  /** Any run that ends with one line read and the end event printed. */
  lemma OneLineParses(actions: seq<LogChannel.Action>, s: Channel, readError: bool)
    requires s == LogChannel.Run(Start0, actions)
    requires "s" in s.handlers && s.handlers["s"].terminal == EndEvent
    requires "s" in s.workers && s.workers["s"].read == ["a"]
    ensures Sse.ParseBody(s.handlers["s"].out, readError) == Sse.Complete(ReceivedAll(["a"]))
  {
    RunKeeps(Start0, actions);
    EndedStreamParses(actions, "s", readError);
    EndedHolds(s, "s");
    ShortLinesFit(s.handlers["s"].chunks);
  }

  lemma EndIsPrinted()
    ensures "s" in S15.handlers && S15.handlers["s"].terminal == EndEvent
    ensures "s" in S15.workers && S15.workers["s"].read == ["a"]
  {
  }

  lemma TwoLines()
    ensures Streamer.Lines("a\nb\n") == ["a", "b"]
  {
    assert Streamer.Printed(["a", "b"]) == "a\nb\n" by {
      assert ["a", "b"][1..] == ["b"] && ["b"][1..] == [];
    }
    Streamer.LinesRoundTrip(["a", "b"]);
  }

  lemma StillReads()
    ensures Reads(MISLED, "a\nb\n")
  {
    TwoLines();
  }

  lemma FinalParse(readError: bool)
    ensures "s" in S15.handlers && Sse.ParseBody(S15.handlers["s"].out, readError) == Sse.Complete(ReceivedAll(["a"]))
  {
    WholeRun();
    EndIsPrinted();
    OneLineParses(FALSE_END, S15, readError);
  }

  lemma FinalWorker()
    ensures "s" in LogChannel.Run(Start0, FALSE_END).workers && LogChannel.Run(Start0, FALSE_END).workers["s"] == MISLED
  {
    WholeRun();
  }

  /**
    A reader that reports a context error nobody caused hands the client a shortened log as a
    complete one: here the pod's text has two lines and the client's parser succeeds with one.
   */
  lemma ContextErrorLooksComplete(readError: bool)
    ensures var s, text := LogChannel.Run(Start0, FALSE_END), "a\nb\n";
      && "s" in s.workers && "s" in s.handlers
      && Misreported(Start0, FALSE_END, "s")
      && Reads(s.workers["s"], text) && Streamer.Lines(text) == ["a", "b"]
      && Sse.ParseBody(s.handlers["s"].out, readError) == Sse.Complete(ReceivedAll(["a"]))
  {
    WholeRun();
    FinalWorker();
    FalseStop();
    FinalParse(readError);
    TwoLines();
    StillReads();
  }

  lemma FalseStop()
    ensures Misreported(Start0, FALSE_END, "s")
  {
    WholeRun();
    StartIsFine();
    RunMisreports(Start0, FALSE_END, "s");
  }

  lemma StartIsFine()
    ensures Inv(Start0)
  {
  }
}
