/**
  The body of the broadcast loop, event by event, proved against the steps of `Broadcast`.
  Source: internal/server/hub.go.
 */
module BroadcastLoop {
  import opened Fleet
  import opened Broadcast

  /** Several clients read, one after the other. */
  function ReadAll(s: Hub, cs: seq<ClientId>): Hub {
    if cs == [] then s else Step(ReadAll(s, cs[..|cs| - 1]), Read(cs[|cs| - 1]))
  }

  /** Visiting clients one after the other; `readers(i)` are the clients that read before visit i. */
  function Visits(s: Hub, cs: seq<ClientId>, readers: nat -> seq<ClientId>): Hub {
    if cs == [] then s
    else var n := |cs| - 1; Visit(ReadAll(Visits(s, cs[..n], readers), readers(n)), cs[n])
  }

  lemma VisitsSnoc(s: Hub, cs: seq<ClientId>, c: ClientId, readers: nat -> seq<ClientId>)
    ensures Visits(s, cs + [c], readers) == Visit(ReadAll(Visits(s, cs, readers), readers(|cs|)), c)
  {
    assert (cs + [c])[..|cs|] == cs;
  }

  /** What the loop's code relies on; every reachable state has it. */
  ghost predicate Sound(s: Hub) {
    && s.count == |s.live| && s.todo <= s.live && !s.fault
    && forall c :: c in s.live ==> c in s.clients && s.clients[c].closes == 0
  }

  lemma ReachableIsSound(actions: seq<Action>)
    requires RegistersOnce(actions)
    ensures Sound(Run(Start, actions))
  {
    RunKeeps(actions);
    var s := Run(Start, actions);
    forall c | c in s.live ensures c in s.clients && s.clients[c].closes == 0 {
      assert ClientOk(s.clients[c], c in s.live, c in s.todo, s.taken);
    }
  }

  /** Some live clients removed. */
  function Without(s: Hub, gone: set<ClientId>): Hub {
    s.(live := s.live - gone, count := s.count - |gone|, todo := s.todo - gone,
       clients := map c | c in s.clients ::
         if c in gone then s.clients[c].(closes := s.clients[c].closes + 1) else s.clients[c])
  }

  lemma WithoutOne(s: Hub, gone: set<ClientId>, c: ClientId)
    requires Sound(s) && gone <= s.live && c in s.live && c !in gone
    ensures Remove(Without(s, gone), c) == Without(s, gone + {c})
  {
    assert Remove(Without(s, gone), c).clients == Without(s, gone + {c}).clients;
  }

  lemma WithoutNext(s: Hub, rest: set<ClientId>, c: ClientId)
    requires Sound(s) && rest <= s.live && c in rest
    ensures Remove(Without(s, s.live - rest), c) == Without(s, s.live - (rest - {c}))
  {
    WithoutOne(s, s.live - rest, c);
    assert s.live - (rest - {c}) == (s.live - rest) + {c};
  }

  lemma WithoutNone(s: Hub)
    ensures Without(s, s.live - s.live) == s
  {
    assert Without(s, s.live - s.live).clients == s.clients;
  }

  lemma WithoutAll(s: Hub)
    requires Sound(s) && Idle(s)
    ensures Without(s, s.live).(running := false) == Step(s, Cancel)
  {
    assert s.live - s.live == {} && s.todo - s.live == {};
    assert Without(s, s.live).clients == Step(s, Cancel).clients;
  }

  /** Part of an iteration over the clients live when it began: each one is visited once or still to visit. */
  ghost predicate Visiting(begun: Hub, visits: seq<ClientId>, readers: nat -> seq<ClientId>, s: Hub) {
    && s == Visits(begun, visits, readers) && s.taken == begun.taken && s.todo <= begun.todo
    && (forall i, j :: 0 <= i < j < |visits| ==> visits[i] != visits[j])
    && forall c :: c in visits <==> c in begun.todo && c !in s.todo
  }

  lemma VisitingOne(begun: Hub, visits: seq<ClientId>, readers: nat -> seq<ClientId>, s: Hub, c: ClientId, t: Hub)
    requires Visiting(begun, visits, readers, s) && c in s.todo
    requires t == Visit(ReadAll(s, readers(|visits|)), c) && t.todo == s.todo - {c} && t.taken == s.taken
    ensures Visiting(begun, visits + [c], readers, t)
  {
    VisitsSnoc(begun, visits, c, readers);
  }

  class BroadcastHub {
    var live: set<ClientId>
    var clientCount: int
    var clients: map<ClientId, Client>
    var queue: seq<Update>
    var unregister: seq<ClientId>
    var running: bool
    // the history of the run, which only the specification reads
    ghost var accepted: seq<Update>
    var taken: seq<Update>
    ghost var todo: set<ClientId>

    ghost predicate Valid() reads this { Sound(State()) }

    ghost function State(): Hub reads this {
      Hub(live, clientCount, clients, queue, unregister, running, accepted, taken, todo, false)
    }

    constructor ()
      ensures State() == Start && Valid()
    {
      live, clientCount, clients, queue, unregister, running := {}, 0, map[], [], [], true;
      accepted, taken, todo := [], [], {};
    }

    /** ClientCount, readable outside the loop. */
    method ClientCount() returns (n: int)
      requires Valid()
      ensures n == |live|
    {
      n := clientCount;
    }

    method AddClient(c: ClientId)
      requires Valid() && Idle(State()) && c in clients && c !in live
      requires clients[c].readied == 0 && clients[c].closes == 0
      modifies this
      ensures State() == Step(old(State()), Register(c)) && Valid()
    {
      live := live + {c};
      clientCount := clientCount + 1;
      clients := clients[c := clients[c].(readied := clients[c].readied + 1, since := |taken|)];
    }

    method RemoveClient(c: ClientId)
      requires Valid()
      modifies this`live, this`clientCount, this`clients, this`todo
      ensures State() == Remove(old(State()), c) && Valid()
    {
      if c !in live { return; }
      live := live - {c};
      clientCount := clientCount - 1;
      clients := clients[c := clients[c].(closes := clients[c].closes + 1)];
      todo := todo - {c};
    }

    method HandleUnregister()
      requires Valid() && Idle(State()) && unregister != []
      modifies this
      ensures State() == Step(old(State()), Unregister) && Valid()
    {
      var c := unregister[0];
      unregister := unregister[1..];
      RemoveClient(c);
    }

    /** Broadcast; publishers never wait. */
    method Publish(u: Update) returns (queued: bool)
      requires Valid()
      modifies this`queue, this`accepted
      ensures State() == Step(old(State()), Action.Publish(u)) && Valid()
      ensures queued <==> |old(queue)| < BROADCAST_QUEUE
    {
      queued := |queue| < BROADCAST_QUEUE;
      if queued {
        queue := queue + [u];
        accepted := accepted + [u];
      }
    }

    method VisitClient(c: ClientId, u: Update)
      requires Valid() && c in todo && taken != [] && u == taken[|taken| - 1]
      modifies this`live, this`clientCount, this`clients, this`todo
      ensures State() == Visit(old(State()), c) && Valid() && todo == old(todo) - {c} && live >= old(live) - {c}
    {
      var k := clients[c];
      if NormalizeTenant(u.tenant) != NormalizeTenant(k.tenant) {
        todo := todo - {c};
      } else if |k.queue| < CLIENT_QUEUE {
        clients := clients[c := k.(queue := k.queue + [u])];
        todo := todo - {c};
      } else {
        RemoveClient(c);
      }
    }

    /** A client's own receive. */
    method ReadClient(c: ClientId)
      requires Valid()
      modifies this`clients
      ensures State() == Step(old(State()), Read(c)) && Valid()
    {
      if c in clients && |clients[c].queue| > 0 {
        var k := clients[c];
        clients := clients[c := k.(queue := k.queue[1..], received := k.received + [k.queue[0]])];
      }
    }

    method ReadClients(cs: seq<ClientId>)
      requires Valid()
      modifies this`clients
      ensures State() == ReadAll(old(State()), cs) && Valid()
    {
      for i := 0 to |cs|
        invariant State() == ReadAll(old(State()), cs[..i]) && Valid()
      {
        assert cs[..i + 1][..i] == cs[..i];
        ReadClient(cs[i]);
      }
      assert cs[..|cs|] == cs;
    }

    /** One turn of the iteration, after some reads. */
    method Turn(cs: seq<ClientId>, c: ClientId, u: Update)
      requires Valid() && c in todo && taken != [] && u == taken[|taken| - 1]
      modifies this`live, this`clientCount, this`clients, this`todo
      ensures State() == Visit(ReadAll(old(State()), cs), c) && Valid() && todo == old(todo) - {c}
    {
      ReadClients(cs);
      VisitClient(c, u);
    }

    /** The iteration over the live clients, in any order; `readers(i)` read before visit i. */
    method VisitAll(u: Update, readers: nat -> seq<ClientId>) returns (ghost visits: seq<ClientId>)
      requires Valid() && todo == live && taken != [] && u == taken[|taken| - 1]
      modifies this`live, this`clientCount, this`clients, this`todo
      ensures Visiting(old(State()), visits, readers, State()) && todo == {} && Valid()
    {
      ghost var begun := State();
      visits := [];
      var rest, turn: nat := live, 0;
      while rest != {}
        invariant Valid() && rest == todo && turn == |visits|
        invariant Visiting(begun, visits, readers, State())
        decreases rest
      {
        var c :| c in rest;
        ghost var before := State();
        Turn(readers(turn), c, u);
        VisitingOne(begun, visits, readers, before, c, State());
        visits := visits + [c];
        rest, turn := rest - {c}, turn + 1;
      }
    }

    /**
      One update for all clients; `visits` is the order in which the map iteration yields them and
      `readers` the clients that read from their queues before each visit.
     */
    method HandleUpdate(readers: nat -> seq<ClientId>) returns (ghost visits: seq<ClientId>)
      requires Valid() && Idle(State()) && queue != []
      modifies this
      ensures State() == Visits(Step(old(State()), TakeUp), visits, readers) && todo == {} && Valid()
      ensures forall i, j :: 0 <= i < j < |visits| ==> visits[i] != visits[j]
      ensures forall c :: c in visits <==> c in old(live)
    {
      var u := queue[0];
      queue := queue[1..];
      taken, todo := taken + [u], live;
      visits := VisitAll(u, readers);
    }

    method RemoveAll()
      requires Valid()
      modifies this`live, this`clientCount, this`clients, this`todo
      ensures State() == Without(old(State()), old(live)) && Valid()
    {
      ghost var before := State();
      var rest := live;
      WithoutNone(before);
      while rest != {}
        invariant rest == live && rest <= before.live && Valid()
        invariant State() == Without(before, before.live - rest)
        decreases rest
      {
        var c :| c in rest;
        WithoutNext(before, rest, c);
        RemoveClient(c);
        rest := rest - {c};
      }
      assert before.live - rest == before.live;
    }

    /** The loop's end: every client is removed. */
    method HandleCancel()
      requires Valid() && Idle(State())
      modifies this
      ensures State() == Step(old(State()), Cancel) && Valid()
    {
      ghost var before := State();
      RemoveAll();
      WithoutAll(before);
      running := false;
    }
  }
}
