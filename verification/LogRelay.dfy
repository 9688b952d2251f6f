/**
  The hub's log relay: agent connections, the bounded queue of each browser stream, and the
  registry that connections replace each other in. Source: internal/server/logrelay.go.

  A Go channel panics when it is closed twice or sent to after being closed; the model carries
  that as `panicked` in the state machine and as preconditions of the channel class.
 */
module LogRelay {

  type ClusterId = string
  type StreamId = string
  type ConnId = nat

  datatype Frame =
    | Start(id: StreamId)
    | Stop(id: StreamId)
    | Data(id: StreamId, line: string)
    | End(id: StreamId, error: string)

  const STREAM_QUEUE: nat := 512   // logStreamQueueSize
  const SEND_QUEUE: nat := 64      // agentSendQueueSize

  // ---------------------------------------------------------------- one connection, as a value

  datatype Queue = Queue(items: seq<Frame>, closed: bool)

  /** `active` is the key set of agentLogConn.streams, `queues` every channel the connection ever made. */
  datatype Conn = Conn(cluster: ClusterId, closed: bool, active: set<StreamId>,
                       queues: map<StreamId, Queue>, panicked: bool)
  {
    ghost predicate Wf() { active <= queues.Keys }

    /** close(queue) after delete(c.streams, id) */
    function CloseStream(id: StreamId): Conn
      requires id in queues
    {
      this.(active := active - {id},
            queues := queues[id := queues[id].(closed := true)],
            panicked := panicked || queues[id].closed)
    }

    /** queue <- message */
    function Accept(frame: Frame): Conn
      requires frame.id in queues
    {
      var queue := queues[frame.id];
      this.(queues := queues[frame.id := queue.(items := queue.items + [frame])],
            panicked := panicked || queue.closed)
    }

    /** deliver */
    function Deliver(frame: Frame): Conn
      requires Wf()
    {
      var id := frame.id;
      if id !in active then this
      else if |queues[id].items| < STREAM_QUEUE then
        if frame.End? then Accept(frame).CloseStream(id) else Accept(frame)
      else CloseStream(id)
    }

    /** closeAll */
    function CloseAll(): Conn
      requires Wf()
    {
      if closed then this
      else this.(closed := true, active := {},
                 queues := map id | id in queues ::
                   if id in active then queues[id].(closed := true) else queues[id],
                 panicked := panicked || exists id :: id in active && queues[id].closed)
    }

    /** addStream; the second component is its boolean result */
    function AddStream(id: StreamId): (Conn, bool) {
      if closed then (this, false)
      else (this.(active := active + {id}, queues := queues[id := Queue([], false)]), true)
    }

    /** removeStream */
    function RemoveStream(id: StreamId): Conn
      requires Wf()
    {
      if id in active then CloseStream(id) else this
    }

    /** The consumer's receive. */
    function Take(id: StreamId): Conn {
      if id in queues && queues[id].items != []
      then this.(queues := queues[id := queues[id].(items := queues[id].items[1..])])
      else this
    }

    /** Safety of one connection: a queue is open exactly while it is in the map. */
    ghost predicate Safe() {
      && Wf()
      && !panicked
      && (closed ==> active == {})
      && (forall id :: id in queues ==> (!queues[id].closed <==> id in active))
      && (forall id :: id in queues ==> |queues[id].items| <= STREAM_QUEUE)
    }
  }

  /** From `a` to `b`, a queue that was closed stays closed and only loses frames at its front. */
  ghost predicate ClosedQueuesFrozen(a: Conn, b: Conn) {
    forall id :: id in a.queues && a.queues[id].closed ==>
      && id in b.queues && b.queues[id].closed
      && |b.queues[id].items| <= |a.queues[id].items|
      && b.queues[id].items == a.queues[id].items[|a.queues[id].items| - |b.queues[id].items|..]
  }

  lemma FrozenRefl(c: Conn)
    ensures ClosedQueuesFrozen(c, c)
  {
  }

  lemma DeliverSafe(c: Conn, frame: Frame)
    requires c.Safe()
    ensures c.Deliver(frame).Safe() && ClosedQueuesFrozen(c, c.Deliver(frame))
  {
  }

  lemma CloseAllSafe(c: Conn)
    requires c.Safe()
    ensures c.CloseAll().Safe() && ClosedQueuesFrozen(c, c.CloseAll())
    ensures c.CloseAll().closed && forall id :: id in c.queues ==> c.CloseAll().queues[id].closed
  {
  }

  /** Afterwards every queue the connection ever made is closed, with what it holds. */
  lemma CloseAllIs(c: Conn)
    requires c.Safe() && !c.closed
    ensures c.CloseAll() == Conn(c.cluster, true, {}, map id | id in c.queues :: Queue(c.queues[id].items, true), false)
  {
    assert c.CloseAll().queues == map id | id in c.queues :: Queue(c.queues[id].items, true);
  }

  lemma AddStreamSafe(c: Conn, id: StreamId)
    requires c.Safe() && id !in c.queues
    ensures c.AddStream(id).0.Safe() && ClosedQueuesFrozen(c, c.AddStream(id).0)
  {
  }

  lemma RemoveStreamSafe(c: Conn, id: StreamId)
    requires c.Safe()
    ensures c.RemoveStream(id).Safe() && ClosedQueuesFrozen(c, c.RemoveStream(id))
  {
  }

  lemma TakeSafe(c: Conn, id: StreamId)
    requires c.Safe()
    ensures c.Take(id).Safe() && ClosedQueuesFrozen(c, c.Take(id))
  {
  }

  // ---------------------------------------------------------------- the registry under interleaving

  /**
    `retired` holds the connections that a register or an unregister has taken out of play and
    owes a closeAll: the call happens after the registry lock is released, at any later time.
   */
  datatype Relay = Relay(agents: map<ClusterId, ConnId>, conns: map<ConnId, Conn>, retired: set<ConnId>)

  datatype Action =
    | RegisterSwap(conn: ConnId, cluster: ClusterId)   // register up to r.mu.Unlock
    | UnregisterDetach(conn: ConnId)                   // unregister up to r.mu.Unlock
    | RunCloseAll(conn: ConnId)                        // the closeAll either of them still owes
    | RunAddStream(conn: ConnId, id: StreamId)         // open, after its lookup; the id is fresh
    | RunRemoveStream(conn: ConnId, id: StreamId)
    | RunDeliver(conn: ConnId, frame: Frame)
    | RunTake(conn: ConnId, id: StreamId)

  const Empty: Relay := Relay(map[], map[], {})

  ghost predicate Wf(s: Relay) { forall c :: c in s.conns ==> s.conns[c].Wf() }

  predicate UsedId(s: Relay, id: StreamId) { exists c :: c in s.conns && id in s.conns[c].queues }

  function WithConn(s: Relay, c: ConnId, conn: Conn): Relay { s.(conns := s.conns[c := conn]) }

  /** The new value of the connection that an enabled action works on. */
  ghost function ConnAfter(conn: Conn, a: Action): (conn': Conn)
    requires conn.Wf()
  {
    match a
    case RegisterSwap(_, _) => conn
    case UnregisterDetach(_) => conn
    case RunCloseAll(_) => conn.CloseAll()
    case RunAddStream(_, id) => conn.AddStream(id).0
    case RunRemoveStream(_, id) => conn.RemoveStream(id)
    case RunDeliver(_, frame) => conn.Deliver(frame)
    case RunTake(_, id) => conn.Take(id)
  }

  ghost predicate Enabled(s: Relay, a: Action) {
    && a.conn in s.conns
    && (a.RunCloseAll? ==> a.conn in s.retired)
    && (a.RunAddStream? ==> !UsedId(s, a.id))
  }

  /** One critical section. An action that the code cannot take in `s` leaves it unchanged. */
  ghost function Step(s: Relay, a: Action): (t: Relay)
    requires Wf(s)
    ensures Wf(t)
  {
    match a
    case RegisterSwap(c, cluster) =>
      if c in s.conns then s
      else Relay(s.agents[cluster := c],
                 s.conns[c := Conn(cluster, false, {}, map[], false)],
                 if cluster in s.agents then s.retired + {s.agents[cluster]} else s.retired)
    case UnregisterDetach(c) =>
      if c !in s.conns then s
      else
        var cluster := s.conns[c].cluster;
        s.(agents := if cluster in s.agents && s.agents[cluster] == c then s.agents - {cluster} else s.agents,
           retired := s.retired + {c})
    case _ => if Enabled(s, a) then WithConn(s, a.conn, ConnAfter(s.conns[a.conn], a)) else s
  }

  ghost function Run(s: Relay, actions: seq<Action>): (t: Relay)
    requires Wf(s)
    ensures Wf(t)
    decreases |actions|
  {
    if actions == [] then s else Run(Step(s, actions[0]), actions[1..])
  }

  ghost predicate Safe(s: Relay) {
    && (forall c :: c in s.conns ==> s.conns[c].Safe())
    && s.retired <= s.conns.Keys
    && (forall c :: c in s.conns && s.conns[c].closed ==> c in s.retired)
    && (forall cluster :: cluster in s.agents ==>
          && s.agents[cluster] in s.conns
          && s.conns[s.agents[cluster]].cluster == cluster
          && s.agents[cluster] !in s.retired)
  }

  /** From `s` to `t` no connection disappears or reopens, and closed queues are frozen. */
  ghost predicate Advances(s: Relay, t: Relay) {
    forall c :: c in s.conns ==>
      && c in t.conns
      && (s.conns[c].closed ==> t.conns[c].closed)
      && ClosedQueuesFrozen(s.conns[c], t.conns[c])
  }

  /** Changing one connection safely keeps the whole registry safe. */
  lemma WithConnSafe(s: Relay, c: ConnId, conn: Conn)
    requires Safe(s) && c in s.conns
    requires conn.Safe() && ClosedQueuesFrozen(s.conns[c], conn)
    requires conn.cluster == s.conns[c].cluster
    requires conn.closed ==> c in s.retired
    requires s.conns[c].closed ==> conn.closed
    ensures Safe(WithConn(s, c, conn)) && Advances(s, WithConn(s, c, conn))
  {
    forall d | d in s.conns ensures ClosedQueuesFrozen(s.conns[d], WithConn(s, c, conn).conns[d]) {
      FrozenRefl(s.conns[d]);
    }
  }

  lemma Unchanged(s: Relay)
    ensures Advances(s, s)
  {
    forall d | d in s.conns ensures ClosedQueuesFrozen(s.conns[d], s.conns[d]) { FrozenRefl(s.conns[d]); }
  }

  lemma RegisterSafe(s: Relay, c: ConnId, cluster: ClusterId)
    requires Safe(s)
    ensures var t := Step(s, RegisterSwap(c, cluster)); Safe(t) && Advances(s, t)
  {
    Unchanged(s);
  }

  lemma DetachSafe(s: Relay, c: ConnId)
    requires Safe(s)
    ensures var t := Step(s, UnregisterDetach(c)); Safe(t) && Advances(s, t)
  {
    Unchanged(s);
  }

  lemma StepSafe(s: Relay, a: Action)
    requires Safe(s)
    ensures Safe(Step(s, a)) && Advances(s, Step(s, a))
  {
    match a
    case RegisterSwap(c, cluster) => RegisterSafe(s, c, cluster);
    case UnregisterDetach(c) => DetachSafe(s, c);
    case _ => ConnStepSafe(s, a);
  }

  lemma ConnAfterSafe(conn: Conn, a: Action)
    requires conn.Safe()
    requires a.RunAddStream? ==> a.id !in conn.queues
    ensures ConnAfter(conn, a).Safe() && ClosedQueuesFrozen(conn, ConnAfter(conn, a))
    ensures ConnAfter(conn, a).cluster == conn.cluster
    ensures ConnAfter(conn, a).closed == (conn.closed || a.RunCloseAll?)
  {
    match a
    case RegisterSwap(_, _) => FrozenRefl(conn);
    case UnregisterDetach(_) => FrozenRefl(conn);
    case RunCloseAll(_) => CloseAllSafe(conn);
    case RunAddStream(_, id) => AddStreamSafe(conn, id);
    case RunRemoveStream(_, id) => RemoveStreamSafe(conn, id);
    case RunDeliver(_, frame) => DeliverSafe(conn, frame);
    case RunTake(_, id) => TakeSafe(conn, id);
  }

  lemma ConnStepSafe(s: Relay, a: Action)
    requires Safe(s) && !a.RegisterSwap? && !a.UnregisterDetach?
    ensures Safe(Step(s, a)) && Advances(s, Step(s, a))
  {
    if Enabled(s, a) {
      ConnAfterSafe(s.conns[a.conn], a);
      WithConnSafe(s, a.conn, ConnAfter(s.conns[a.conn], a));
    } else {
      Unchanged(s);
    }
  }

  /** Relay safety in every reachable state, over every interleaving of the critical sections. */
  lemma {:induction false} RelaySafety(actions: seq<Action>)
    ensures Safe(Run(Empty, actions))
  {
    RunSafe(Empty, actions);
  }

  lemma {:induction false} RunSafe(s: Relay, actions: seq<Action>)
    requires Safe(s)
    ensures Safe(Run(s, actions))
    decreases |actions|
  {
    if actions != [] {
      StepSafe(s, actions[0]);
      RunSafe(Step(s, actions[0]), actions[1..]);
    }
  }

  /** What Safe says about a registered connection, spelled out. */
  lemma RegisteredIsOpen(actions: seq<Action>, cluster: ClusterId)
    requires cluster in Run(Empty, actions).agents
    ensures var s := Run(Empty, actions);
            && s.agents[cluster] in s.conns
            && !s.conns[s.agents[cluster]].closed
            && s.conns[s.agents[cluster]].cluster == cluster
  {
    RelaySafety(actions);
  }

  lemma SuffixOfSuffix<T>(a: seq<T>, b: seq<T>, c: seq<T>)
    requires IsSuffix(b, a) && IsSuffix(c, b)
    ensures IsSuffix(c, a)
  {
  }

  predicate IsSuffix<T(==)>(b: seq<T>, a: seq<T>) { |b| <= |a| && b == a[|a| - |b|..] }

  ghost predicate ClosedQueue(s: Relay, c: ConnId, id: StreamId) {
    c in s.conns && id in s.conns[c].queues && s.conns[c].queues[id].closed
  }

  lemma ClosedQueueStep(s: Relay, a: Action, c: ConnId, id: StreamId)
    requires Safe(s) && ClosedQueue(s, c, id)
    ensures var t := Step(s, a);
      Safe(t) && ClosedQueue(t, c, id) && IsSuffix(t.conns[c].queues[id].items, s.conns[c].queues[id].items)
  {
    StepSafe(s, a);
    assert ClosedQueuesFrozen(s.conns[c], Step(s, a).conns[c]);
  }

  /** A queue is closed once and for all, and never receives a frame afterwards: it only loses frames at its front. */
  lemma {:induction false} ClosedQueueStaysClosed(s: Relay, actions: seq<Action>, c: ConnId, id: StreamId)
    requires Safe(s) && ClosedQueue(s, c, id)
    ensures var t := Run(s, actions);
      ClosedQueue(t, c, id) && IsSuffix(t.conns[c].queues[id].items, s.conns[c].queues[id].items)
    decreases |actions|
  {
    if actions != [] {
      var t := Step(s, actions[0]);
      ClosedQueueStep(s, actions[0], c, id);
      ClosedQueueStaysClosed(t, actions[1..], c, id);
      SuffixOfSuffix(s.conns[c].queues[id].items, t.conns[c].queues[id].items,
        Run(s, actions).conns[c].queues[id].items);
    }
  }

  /** Neither a new registration for the cluster nor the end of connection `c` itself. */
  ghost predicate LeavesAlone(a: Action, cluster: ClusterId, c: ConnId) {
    !(a.RegisterSwap? && a.cluster == cluster) && a != UnregisterDetach(c)
  }

  lemma StepLeavesAlone(s: Relay, a: Action, cluster: ClusterId, c: ConnId)
    requires Safe(s) && cluster in s.agents && s.agents[cluster] == c
    requires LeavesAlone(a, cluster, c)
    ensures cluster in Step(s, a).agents && Step(s, a).agents[cluster] == c
  {
  }

  /**
    However late the unregister of an old connection runs, and whatever else happens, a
    replacement stays registered until it is replaced or unregistered itself.
   */
  lemma {:induction false} ReplacementIsNeverEvicted(s: Relay, actions: seq<Action>, cluster: ClusterId, c: ConnId)
    requires Safe(s)
    requires cluster in s.agents && s.agents[cluster] == c
    requires forall i :: 0 <= i < |actions| ==> LeavesAlone(actions[i], cluster, c)
    ensures cluster in Run(s, actions).agents && Run(s, actions).agents[cluster] == c
    decreases |actions|
  {
    if actions != [] {
      StepSafe(s, actions[0]);
      StepLeavesAlone(s, actions[0], cluster, c);
      ReplacementIsNeverEvicted(Step(s, actions[0]), actions[1..], cluster, c);
    }
  }

  /** Once a retired connection has run its closeAll it can never serve a stream again. */
  lemma {:induction false} ClosedConnStaysEmpty(s: Relay, actions: seq<Action>, c: ConnId)
    requires Safe(s) && c in s.conns && s.conns[c].closed
    ensures c in Run(s, actions).conns && Run(s, actions).conns[c].closed && Run(s, actions).conns[c].active == {}
    decreases |actions|
  {
    if actions != [] {
      StepSafe(s, actions[0]);
      ClosedConnStaysEmpty(Step(s, actions[0]), actions[1..], c);
    }
  }

  // ---------------------------------------------------------------- the code itself

  /** A bounded Go channel. */
  class Chan {
    const id: StreamId   // the stream it was made for
    var items: seq<Frame>
    var closed: bool

    ghost function View(): Queue reads this { Queue(items, closed) }

    constructor (id: StreamId)
      ensures View() == Queue([], false) && this.id == id
    {
      this.id, items, closed := id, [], false;
    }

    /** select { case ch <- frame: ... default: ... } */
    method TrySend(frame: Frame) returns (sent: bool)
      requires !closed
      modifies this
      ensures sent <==> |old(items)| < STREAM_QUEUE
      ensures View() == Queue(if sent then old(items) + [frame] else old(items), false)
    {
      sent := |items| < STREAM_QUEUE;
      if sent { items := items + [frame]; }
    }

    method Close()
      requires !closed
      modifies this
      ensures View() == Queue(old(items), true)
    {
      closed := true;
    }
  }

  class AgentLogConn {
    const cluster: ClusterId
    ghost const serial: ConnId   // the name the state machine gives it
    var streams: map<StreamId, Chan>
    var closed: bool
    ghost var made: map<StreamId, Chan>

    ghost predicate Valid()
      reads this, made.Values
    {
      Matched() && (closed ==> streams == map[])
    }

    /** A queue is open exactly while it is in the map. */
    ghost predicate Matched()
      reads this, made.Values
    {
      && streams.Keys <= made.Keys
      && (forall id :: id in streams ==> streams[id] == made[id])
      && (forall id :: id in made ==> made[id].id == id)
      && (forall id :: id in made ==> (made[id].closed <==> id !in streams))
      && (forall id :: id in made ==> |made[id].items| <= STREAM_QUEUE)
    }

    ghost function Queues(): map<StreamId, Queue>
      reads this, made.Values
    {
      map id | id in made :: made[id].View()
    }

    ghost function View(): Conn
      reads this, made.Values
    {
      Conn(cluster, closed, streams.Keys, Queues(), false)
    }

    lemma ValidIsSafe()
      requires Valid()
      ensures View().Safe()
    {
    }

    constructor (cluster: ClusterId, ghost serial: ConnId)
      ensures Valid() && made == map[] && this.cluster == cluster && this.serial == serial
      ensures View() == Conn(cluster, false, {}, map[], false)
    {
      this.cluster, this.serial := cluster, serial;
      streams, closed, made := map[], false, map[];
    }

    /** delete(c.streams, id) followed by close(queue) */
    method Detach(id: StreamId)
      requires Valid() && id in streams
      modifies this`streams, made.Values
      ensures Valid() && made == old(made)
      ensures View() == old(View()).CloseStream(id)
      ensures streams == old(streams) - {id} && made[id].View() == Queue(old(made[id].items), true)
      ensures forall k :: k in made && k != id ==> made[k].View() == old(made[k].View())
    {
      var queue := streams[id];
      streams := streams - {id};
      queue.Close();
      assert Queues() == old(View()).CloseStream(id).queues;
    }

    /** The non-blocking send into the queue of a stream in the map. */
    method Push(frame: Frame) returns (sent: bool)
      requires Valid() && frame.id in streams
      modifies made.Values
      ensures Valid()
      ensures sent <==> |old(streams[frame.id].items)| < STREAM_QUEUE
      ensures View() == if sent then old(View()).Accept(frame) else old(View())
      ensures made[frame.id].items == old(made[frame.id].items) + (if sent then [frame] else [])
      ensures !made[frame.id].closed
      ensures forall k :: k in made && k != frame.id ==> made[k].View() == old(made[k].View())
    {
      sent := streams[frame.id].TrySend(frame);
      assert Queues() == if sent then old(View()).Accept(frame).queues else old(Queues());
    }

    method Deliver(frame: Frame)
      requires Valid()
      modifies this`streams, made.Values
      ensures Valid() && made == old(made)
      ensures View() == old(View()).Deliver(frame)
      ensures frame.id in old(streams) && |old(made[frame.id].items)| < 512 ==>
        && made[frame.id].View() == Queue(old(made[frame.id].items) + [frame], frame.End?)
        && streams == if frame.End? then old(streams) - {frame.id} else old(streams)
      ensures frame.id in old(streams) && |old(made[frame.id].items)| >= 512 ==>
        && made[frame.id].View() == Queue(old(made[frame.id].items), true)
        && streams == old(streams) - {frame.id}
      ensures frame.id !in old(streams) ==> streams == old(streams)
      ensures forall id :: id in made && (id != frame.id || id !in old(streams)) ==>
        made[id].View() == old(made[id].View())
    {
      if frame.id in streams {
        var sent := Push(frame);
        if !sent || frame.End? {
          Detach(frame.id);
        }
      }
    }

    /** for id, queue := range c.streams { delete; close } */
    method CloseQueues()
      requires Matched()
      modifies this`streams, made.Values
      ensures Matched() && streams == map[]
      ensures forall id :: id in made ==> made[id].closed && made[id].items == old(made[id].items)
    {
      while streams != map[]
        invariant Matched()
        invariant forall id :: id in made ==> made[id].items == old(made[id].items)
        decreases streams.Keys
      {
        var id :| id in streams;
        CloseOne(id);
      }
    }

    method CloseOne(id: StreamId)
      requires Matched() && id in streams
      modifies this`streams, made.Values
      ensures Matched() && streams == old(streams) - {id}
      ensures forall j :: j in made ==> made[j].items == old(made[j].items)
    {
      var queue := streams[id];
      streams := streams - {id};
      queue.Close();
    }

    method CloseAll()
      requires Valid()
      modifies this`streams, this`closed, made.Values
      ensures Valid() && made == old(made)
      ensures View() == old(View()).CloseAll()
      ensures closed && streams == map[]
      ensures forall id :: id in made ==> made[id].closed && made[id].items == old(made[id].items)
    {
      if closed { return; }
      ghost var before := View();
      ValidIsSafe();
      CloseAllIs(before);
      closed := true;
      CloseQueues();
      forall id | id in made ensures made[id].View() == Queue(before.queues[id].items, true) {}
      assert Queues() == map id | id in before.queues :: Queue(before.queues[id].items, true);
    }

    method AddStream(id: StreamId) returns (ok: bool, queue: Chan?)
      requires Valid() && id !in made
      modifies this`streams, this`made
      ensures Valid()
      ensures (View(), ok) == old(View()).AddStream(id)
      ensures ok ==> queue != null && fresh(queue) && made == old(made)[id := queue]
      ensures !ok ==> queue == null && made == old(made)
      ensures ok <==> !closed
      ensures ok ==> streams == old(streams)[id := queue] && queue.items == [] && !queue.closed
      ensures !ok ==> streams == old(streams)
    {
      if closed { return false, null; }
      var q := new Chan(id);
      streams := streams[id := q];
      made := made[id := q];
      ghost var after := old(View()).AddStream(id).0;
      assert Queues() == after.queues;
      assert streams.Keys == after.active;
      ok, queue := true, q;
    }

    method RemoveStream(id: StreamId)
      requires Valid()
      modifies this`streams, made.Values
      ensures Valid() && made == old(made)
      ensures View() == old(View()).RemoveStream(id)
      ensures streams == old(streams) - {id} && (id in made ==> made[id].View() == Queue(old(made[id].items), true))
      ensures forall k :: k in made && k != id ==> made[k].View() == old(made[k].View())
    {
      if id in streams { Detach(id); }
    }
  }

  lemma SwapIs(s: Relay, c: ConnId, cluster: ClusterId)
    requires Wf(s) && c !in s.conns
    ensures Step(s, RegisterSwap(c, cluster))
         == Relay(s.agents[cluster := c], s.conns[c := Conn(cluster, false, {}, map[], false)],
                  if cluster in s.agents then s.retired + {s.agents[cluster]} else s.retired)
  {
  }

  /**
    The registry's map, and the parts of register and unregister that run under its lock; each caller
    then runs CloseAll on the connection it is left with. `retired` is the history of those.
   */
  class Registry {
    var agents: map<ClusterId, AgentLogConn>
    ghost var retired: set<ConnId>

    ghost predicate Valid() reads this {
      && (forall c :: c in agents ==> agents[c].cluster == c)
      && (forall c, d :: c in agents && d in agents && agents[c].serial == agents[d].serial ==> agents[c] == agents[d])
    }

    /** The map with the state machine's names for the connections. */
    ghost function Names(): map<ClusterId, ConnId> reads this { map c | c in agents :: agents[c].serial }

    /** The state machine's view, given what the connections hold. */
    ghost function View(conns: map<ConnId, Conn>): Relay reads this { Relay(Names(), conns, retired) }

    constructor ()
      ensures Valid() && View(map[]) == Empty
    {
      agents, retired := map[], {};
    }

    /** register up to the unlock: `previous` is the replaced connection, which is owed a closeAll. */
    method Swap(conn: AgentLogConn) returns (previous: AgentLogConn?)
      requires Valid() && forall c :: c in agents ==> agents[c].serial != conn.serial
      modifies this
      ensures Valid()
      ensures forall conns: map<ConnId, Conn> :: conn.serial !in conns && Wf(old(View(conns))) ==>
        View(conns[conn.serial := Conn(conn.cluster, false, {}, map[], false)])
        == Step(old(View(conns)), RegisterSwap(conn.serial, conn.cluster))
      ensures agents == old(agents)[conn.cluster := conn]
      ensures previous == if conn.cluster in old(agents) then old(agents)[conn.cluster] else null
      ensures previous != null ==> previous.serial in retired
    {
      ghost var names, owed := Names(), retired;
      previous := null;
      if conn.cluster in agents && agents[conn.cluster] != conn {
        previous := agents[conn.cluster];
        retired := retired + {previous.serial};
      }
      agents := agents[conn.cluster := conn];
      assert Names() == names[conn.cluster := conn.serial];
      forall conns: map<ConnId, Conn> | conn.serial !in conns && Wf(Relay(names, conns, owed))
        ensures View(conns[conn.serial := Conn(conn.cluster, false, {}, map[], false)])
             == Step(Relay(names, conns, owed), RegisterSwap(conn.serial, conn.cluster))
      {
        SwapIs(Relay(names, conns, owed), conn.serial, conn.cluster);
      }
    }

    /** unregister up to the unlock: a connection that was replaced leaves its replacement alone. */
    method Drop(conn: AgentLogConn)
      requires Valid()
      requires forall c :: c in agents && agents[c].serial == conn.serial ==> agents[c] == conn
      modifies this
      ensures Valid() && conn.serial in retired
      ensures forall conns: map<ConnId, Conn> ::
        Wf(old(View(conns))) && conn.serial in conns && conns[conn.serial].cluster == conn.cluster ==>
        View(conns) == Step(old(View(conns)), UnregisterDetach(conn.serial))
      ensures agents == if conn.cluster in old(agents) && old(agents)[conn.cluster] == conn
                        then old(agents) - {conn.cluster} else old(agents)
    {
      retired := retired + {conn.serial};
      if conn.cluster in agents && agents[conn.cluster] == conn {
        agents := agents - {conn.cluster};
      }
    }

    method Connection(cluster: ClusterId) returns (conn: AgentLogConn?)
      ensures conn == if cluster in agents then agents[cluster] else null
    {
      if cluster in agents { conn := agents[cluster]; } else { conn := null; }
    }
  }
}
