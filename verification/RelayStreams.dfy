/**
  What a stream of the relay goes through in a whole run: what opens it, what takes it off its
  connection, which connection a cluster has, and what its consumer receives.
  Source: internal/server/logrelay.go.
 */
module RelayStreams {
  import opened Runs
  import opened LogRelay

  ghost function At(actions: seq<Action>, n: nat): Relay {
    Run(Empty, if n <= |actions| then actions[..n] else actions)
  }

  lemma {:induction false} RunSnoc(s: Relay, actions: seq<Action>, a: Action)
    requires Wf(s)
    ensures Run(s, actions + [a]) == Step(Run(s, actions), a)
    decreases |actions|
  {
    if actions == [] {
      assert [] + [a] == [a] && [a][1..] == [];
    } else {
      assert (actions + [a])[1..] == actions[1..] + [a];
      RunSnoc(Step(s, actions[0]), actions[1..], a);
    }
  }

  lemma AtStep(actions: seq<Action>, n: nat)
    requires n < |actions|
    ensures Safe(At(actions, n)) && At(actions, n + 1) == Step(At(actions, n), actions[n])
  {
    assert actions[..n + 1] == actions[..n] + [actions[n]];
    RunSnoc(Empty, actions[..n], actions[n]);
    RelaySafety(actions[..n]);
  }

  lemma NothingYet(actions: seq<Action>)
    ensures At(actions, 0).conns == map[] && At(actions, 0).agents == map[]
  {
    assert actions[..0] == [];
  }

  // ---------------------------------------------------------------- in the map of a connection

  ghost predicate Streaming(s: Relay, c: ConnId, id: StreamId) { c in s.conns && id in s.conns[c].active }

  /** addStream on an open connection, with an id that was never used. */
  ghost predicate Opens(s: Relay, a: Action, c: ConnId, id: StreamId) {
    && a == RunAddStream(c, id) && c in s.conns && !s.conns[c].closed
    && forall d :: d in s.conns ==> id !in s.conns[d].queues
  }

  /** An end frame, a frame that finds 512 waiting, the closeAll of a connection out of play, or removeStream. */
  ghost predicate Ends(s: Relay, a: Action, c: ConnId, id: StreamId) {
    || a == RunRemoveStream(c, id)
    || (a == RunCloseAll(c) && c in s.retired)
    || (a.RunDeliver? && a.conn == c && a.frame.id == id
        && (a.frame.End? || (c in s.conns && id in s.conns[c].queues && |s.conns[c].queues[id].items| >= 512)))
  }

  lemma StreamStep(s: Relay, a: Action, c: ConnId, id: StreamId)
    requires Safe(s)
    ensures Streaming(Step(s, a), c, id) <==> Opens(s, a, c, id) || (Streaming(s, c, id) && !Ends(s, a, c, id))
  {
    if a == RunAddStream(c, id) && c in s.conns && Streaming(s, c, id) { assert id in s.conns[c].queues; }
  }

  ghost function Opening(actions: seq<Action>, c: ConnId, id: StreamId): nat -> bool {
    (n: nat) => n < |actions| && Opens(At(actions, n), actions[n], c, id)
  }

  ghost function Ending(actions: seq<Action>, c: ConnId, id: StreamId): nat -> bool {
    (n: nat) => n < |actions| && Ends(At(actions, n), actions[n], c, id)
  }

  ghost function InMap(actions: seq<Action>, c: ConnId, id: StreamId): nat -> bool {
    (n: nat) => Streaming(At(actions, n), c, id)
  }

  lemma InMapStep(actions: seq<Action>, c: ConnId, id: StreamId, k: nat)
    requires k < |actions|
    ensures InMap(actions, c, id)(k + 1)
       <==> Opening(actions, c, id)(k) || (InMap(actions, c, id)(k) && !Ending(actions, c, id)(k))
  {
    AtStep(actions, k);
    StreamStep(At(actions, k), actions[k], c, id);
  }

  lemma {:induction false} StreamingUpTo(actions: seq<Action>, c: ConnId, id: StreamId, n: nat)
    requires n <= |actions|
    ensures InMap(actions, c, id)(n) <==> Since(Opening(actions, c, id), Ending(actions, c, id), n)
    decreases n
  {
    if n == 0 {
      NothingYet(actions);
    } else {
      StreamingUpTo(actions, c, id, n - 1);
      StreamingNext(actions, c, id, n - 1);
    }
  }

  lemma StreamingNext(actions: seq<Action>, c: ConnId, id: StreamId, n: nat)
    requires n < |actions|
    requires InMap(actions, c, id)(n) <==> Since(Opening(actions, c, id), Ending(actions, c, id), n)
    ensures InMap(actions, c, id)(n + 1) <==> Since(Opening(actions, c, id), Ending(actions, c, id), n + 1)
  {
    InMapStep(actions, c, id, n);
    SinceStep(Opening(actions, c, id), Ending(actions, c, id), n);
  }

  /**
    Over every interleaving: a stream is in its connection's map exactly if it was opened there and
    since then no end frame came, no frame found 512 others waiting, and neither closeAll nor
    removeStream ran.
   */
  lemma StreamingExactly(actions: seq<Action>, c: ConnId, id: StreamId)
    ensures Streaming(Run(Empty, actions), c, id)
       <==> Since(Opening(actions, c, id), Ending(actions, c, id), |actions|)
  {
    StreamingUpTo(actions, c, id, |actions|);
    assert actions[..|actions|] == actions;
  }

  // ---------------------------------------------------------------- the connection of a cluster

  ghost predicate ConnectedTo(s: Relay, cluster: ClusterId, c: ConnId) {
    cluster in s.agents && s.agents[cluster] == c
  }

  ghost predicate Registers(s: Relay, a: Action, cluster: ClusterId, c: ConnId) {
    a == RegisterSwap(c, cluster) && c !in s.conns
  }

  /** A newer connection registered, or this one unregistered. */
  ghost predicate Replaces(s: Relay, a: Action, cluster: ClusterId, c: ConnId) {
    (a.RegisterSwap? && a.cluster == cluster && a.conn !in s.conns) || a == UnregisterDetach(c)
  }

  lemma ConnectedStep(s: Relay, a: Action, cluster: ClusterId, c: ConnId)
    requires Safe(s)
    ensures ConnectedTo(Step(s, a), cluster, c)
       <==> Registers(s, a, cluster, c) || (ConnectedTo(s, cluster, c) && !Replaces(s, a, cluster, c))
  {
  }

  ghost function Registering(actions: seq<Action>, cluster: ClusterId, c: ConnId): nat -> bool {
    (n: nat) => n < |actions| && Registers(At(actions, n), actions[n], cluster, c)
  }

  ghost function Replacing(actions: seq<Action>, cluster: ClusterId, c: ConnId): nat -> bool {
    (n: nat) => n < |actions| && Replaces(At(actions, n), actions[n], cluster, c)
  }

  ghost function Serving(actions: seq<Action>, cluster: ClusterId, c: ConnId): nat -> bool {
    (n: nat) => ConnectedTo(At(actions, n), cluster, c)
  }

  lemma ServingStep(actions: seq<Action>, cluster: ClusterId, c: ConnId, k: nat)
    requires k < |actions|
    ensures Serving(actions, cluster, c)(k + 1)
       <==> Registering(actions, cluster, c)(k)
            || (Serving(actions, cluster, c)(k) && !Replacing(actions, cluster, c)(k))
  {
    AtStep(actions, k);
    ConnectedStep(At(actions, k), actions[k], cluster, c);
  }

  lemma {:induction false} ConnectedUpTo(actions: seq<Action>, cluster: ClusterId, c: ConnId, n: nat)
    requires n <= |actions|
    ensures Serving(actions, cluster, c)(n)
       <==> Since(Registering(actions, cluster, c), Replacing(actions, cluster, c), n)
    decreases n
  {
    if n == 0 {
      NothingYet(actions);
    } else {
      ConnectedUpTo(actions, cluster, c, n - 1);
      ServingStep(actions, cluster, c, n - 1);
      SinceStep(Registering(actions, cluster, c), Replacing(actions, cluster, c), n - 1);
    }
  }

  /** The connection a cluster is served by is the last one registered for it, unless that one unregistered. */
  lemma ConnectedExactly(actions: seq<Action>, cluster: ClusterId, c: ConnId)
    ensures ConnectedTo(Run(Empty, actions), cluster, c)
       <==> Since(Registering(actions, cluster, c), Replacing(actions, cluster, c), |actions|)
  {
    ConnectedUpTo(actions, cluster, c, |actions|);
    assert actions[..|actions|] == actions;
  }

  // ---------------------------------------------------------------- what its consumer gets

  ghost function Waiting(s: Relay, c: ConnId, id: StreamId): seq<Frame> {
    if c in s.conns && id in s.conns[c].queues then s.conns[c].queues[id].items else []
  }

  function ArrivedNow(a: Action, c: ConnId, id: StreamId): seq<Frame> {
    if a.RunDeliver? && a.conn == c && a.frame.id == id then [a.frame] else []
  }

  ghost function ReceivedNow(s: Relay, a: Action, c: ConnId, id: StreamId): seq<Frame> {
    if a == RunTake(c, id) && Waiting(s, c, id) != [] then [Waiting(s, c, id)[0]] else []
  }

  /** The frames that arrive for a stream on its connection, in order. */
  function Arrived(actions: seq<Action>, c: ConnId, id: StreamId): seq<Frame> {
    if actions == [] then [] else ArrivedNow(actions[0], c, id) + Arrived(actions[1..], c, id)
  }

  /** What the consumer's receives return, in order. */
  ghost function Received(s: Relay, actions: seq<Action>, c: ConnId, id: StreamId): seq<Frame>
    requires Wf(s)
    decreases |actions|
  {
    if actions == [] then []
    else ReceivedNow(s, actions[0], c, id) + Received(Step(s, actions[0]), actions[1..], c, id)
  }

  lemma QueueStep(s: Relay, a: Action, c: ConnId, id: StreamId)
    requires Safe(s) && Streaming(s, c, id) && Streaming(Step(s, a), c, id)
    ensures Waiting(s, c, id) + ArrivedNow(a, c, id) == ReceivedNow(s, a, c, id) + Waiting(Step(s, a), c, id)
  {
    StreamStep(s, a, c, id);
    assert id in s.conns[c].queues && id in Step(s, a).conns[c].queues;
  }

  /** A queue that left the map is closed, and would still be at the end. */
  lemma StaysClosed(s: Relay, actions: seq<Action>, c: ConnId, id: StreamId)
    requires Safe(s) && Streaming(s, c, id) && actions != [] && Streaming(Run(s, actions), c, id)
    ensures Streaming(Step(s, actions[0]), c, id)
  {
    var t := Step(s, actions[0]);
    StepSafe(s, actions[0]);
    KeepsQueue(s, actions[0], c, id);
    RunSafe(t, actions[1..]);
    if t.conns[c].queues[id].closed { ClosedQueueStaysClosed(t, actions[1..], c, id); }
  }

  lemma KeepsQueue(s: Relay, a: Action, c: ConnId, id: StreamId)
    requires Safe(s) && c in s.conns && id in s.conns[c].queues
    ensures var t := Step(s, a); c in t.conns && id in t.conns[c].queues
  {
  }

  /**
    While a stream is in its connection's map nothing is lost, doubled or reordered: what waited and
    what arrived is what its consumer received and what is still waiting.
   */
  lemma {:induction false} QueueExactly(s: Relay, actions: seq<Action>, c: ConnId, id: StreamId)
    requires Safe(s) && Streaming(s, c, id) && Streaming(Run(s, actions), c, id)
    ensures Waiting(s, c, id) + Arrived(actions, c, id)
         == Received(s, actions, c, id) + Waiting(Run(s, actions), c, id)
    decreases |actions|
  {
    if actions != [] {
      var t := Step(s, actions[0]);
      StaysClosed(s, actions, c, id);
      StepSafe(s, actions[0]);
      QueueStep(s, actions[0], c, id);
      QueueExactly(t, actions[1..], c, id);
      Splice(Waiting(s, c, id), ArrivedNow(actions[0], c, id), ReceivedNow(s, actions[0], c, id), Waiting(t, c, id),
             Arrived(actions[1..], c, id), Received(t, actions[1..], c, id), Waiting(Run(s, actions), c, id));
    }
  }

  lemma Splice(a: seq<Frame>, b: seq<Frame>, c: seq<Frame>, d: seq<Frame>, e: seq<Frame>, f: seq<Frame>, g: seq<Frame>)
    requires a + b == c + d && d + e == f + g
    ensures a + (b + e) == (c + f) + g
  {
    assert a + (b + e) == (a + b) + e;
    assert (c + d) + e == c + (d + e);
    assert c + (f + g) == (c + f) + g;
  }
}
