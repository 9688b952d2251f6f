/**
  The WebSocket broadcast loop and its clients, as a state machine over the loop's steps, the
  publishers' steps and the clients' own reads. Source: internal/server/hub.go.
 */
module Broadcast {
  import opened Fleet

  const BROADCAST_QUEUE: nat := 64
  const CLIENT_QUEUE: nat := 16

  type ClientId = nat

  datatype Update = Update(kind: string, tenant: TenantId, cluster: ClusterId, health: Health)

  /**
    A client's channels: `queue` is what is buffered in `send` and `received` what was read from it.
    The counters say how often `registered` was closed, and `send` together with `closed`.
    `since` is the number of updates the loop had taken up when the client was registered.
   */
  datatype Client = Client(tenant: TenantId, queue: seq<Update>, received: seq<Update>, since: nat,
                           readied: nat, closes: nat)

  /**
    `live` and `count` are the loop's client map and its mirror. `accepted` and `taken` are all
    updates that Broadcast queued and that the loop took up; `todo` holds the clients that the
    iteration over the last taken update has yet to visit. `fault` records a closed channel closed
    again or sent to.
   */
  datatype Hub = Hub(live: set<ClientId>, count: int, clients: map<ClientId, Client>,
                     queue: seq<Update>, unregister: seq<ClientId>, running: bool,
                     accepted: seq<Update>, taken: seq<Update>, todo: set<ClientId>, fault: bool)

  const Start: Hub := Hub({}, 0, map[], [], [], true, [], [], {}, false)

  datatype Action =
    | Connect(c: ClientId, tenant: TenantId)
    | Register(c: ClientId)
    | AskUnregister(c: ClientId)
    | Unregister
    | Publish(u: Update)
    | TakeUp
    | Deliver(c: ClientId)
    | Read(c: ClientId)
    | Cancel

  predicate Idle(s: Hub) { s.running && s.todo == {} }

  predicate ForTenant(u: Update, tenant: TenantId) { NormalizeTenant(u.tenant) == NormalizeTenant(tenant) }

  /** removeClient */
  function Remove(s: Hub, c: ClientId): Hub {
    if c !in s.live || c !in s.clients then s
    else
      var k := s.clients[c];
      s.(live := s.live - {c}, count := s.count - 1, clients := s.clients[c := k.(closes := k.closes + 1)],
         todo := s.todo - {c}, fault := s.fault || k.closes > 0)
  }

  /** One turn of the loop over the clients, with the update taken up last. */
  function Visit(s: Hub, c: ClientId): Hub {
    if c !in s.todo || c !in s.clients || s.taken == [] then s
    else
      var k, u := s.clients[c], s.taken[|s.taken| - 1];
      if !ForTenant(u, k.tenant) then s.(todo := s.todo - {c})
      else if |k.queue| < CLIENT_QUEUE
      then s.(clients := s.clients[c := k.(queue := k.queue + [u])], todo := s.todo - {c},
              fault := s.fault || k.closes > 0)
      else Remove(s, c)
  }

  /** Steps that are not enabled, such as the loop's own steps while it is busy or over, change nothing. */
  function Step(s: Hub, a: Action): Hub {
    match a
    case Connect(c, tenant) => if c in s.clients then s
      else s.(clients := s.clients[c := Client(tenant, [], [], 0, 0, 0)])
    case Register(c) =>
      if !Idle(s) || c !in s.clients then s
      else
        var k := s.clients[c];
        s.(live := s.live + {c}, count := s.count + 1, fault := s.fault || k.readied > 0,
           clients := s.clients[c := k.(readied := k.readied + 1, since := |s.taken|)])
    case AskUnregister(c) =>
      if s.running && |s.unregister| < BROADCAST_QUEUE then s.(unregister := s.unregister + [c]) else s
    case Unregister =>
      if !Idle(s) || s.unregister == [] then s else Remove(s.(unregister := s.unregister[1..]), s.unregister[0])
    case Publish(u) =>
      if |s.queue| < BROADCAST_QUEUE then s.(queue := s.queue + [u], accepted := s.accepted + [u]) else s
    case TakeUp =>
      if !Idle(s) || s.queue == [] then s
      else s.(queue := s.queue[1..], taken := s.taken + [s.queue[0]], todo := s.live)
    case Deliver(c) => Visit(s, c)
    case Read(c) =>
      if c !in s.clients || s.clients[c].queue == [] then s
      else var k := s.clients[c];
        s.(clients := s.clients[c := k.(queue := k.queue[1..], received := k.received + [k.queue[0]])])
    case Cancel =>
      if !Idle(s) then s
      else s.(live := {}, count := s.count - |s.live|, running := false,
              clients := map c | c in s.clients ::
                if c in s.live then s.clients[c].(closes := s.clients[c].closes + 1) else s.clients[c],
              fault := s.fault || exists c :: c in s.live && c in s.clients && s.clients[c].closes > 0)
  }

  function Run(s: Hub, actions: seq<Action>): Hub {
    if actions == [] then s else Step(Run(s, actions[..|actions| - 1]), actions[|actions| - 1])
  }

  /** Every client is registered at most once. */
  ghost predicate RegistersOnce(actions: seq<Action>) {
    forall i, j :: 0 <= i < j < |actions| && actions[i].Register? ==> actions[i] != actions[j]
  }

  // ---------------------------------------------------------------- what a client is owed

  /** The updates of one tenant, in order. */
  function Matching(us: seq<Update>, tenant: TenantId): seq<Update> {
    if us == [] then []
    else
      var n := |us| - 1;
      if ForTenant(us[n], tenant) then Matching(us[..n], tenant) + [us[n]] else Matching(us[..n], tenant)
  }

  predicate IsPrefix<T(==)>(a: seq<T>, b: seq<T>) { |a| <= |b| && a == b[..|a|] }

  lemma MatchingSnoc(us: seq<Update>, u: Update, tenant: TenantId)
    ensures Matching(us + [u], tenant) == if ForTenant(u, tenant) then Matching(us, tenant) + [u]
      else Matching(us, tenant)
  {
    assert (us + [u])[..|us|] == us;
  }

  /** What was placed for a client: read by it or still buffered. */
  function Placed(k: Client): seq<Update> { k.received + k.queue }

  /** The client's share of the updates visited for it since its registration. */
  function Owed(k: Client, visiting: bool, taken: seq<Update>): seq<Update>
    requires k.since <= |taken| && (visiting ==> k.since < |taken|)
  {
    Matching(taken[k.since..if visiting then |taken| - 1 else |taken|], k.tenant)
  }

  /** A live client has got all it is owed of the updates already visited; a removed one the first of them. */
  ghost predicate ClientOk(k: Client, live: bool, visiting: bool, taken: seq<Update>) {
    && k.since <= |taken| && |k.queue| <= CLIENT_QUEUE
    && k.readied <= 1 && k.closes == (if k.readied == 1 && !live then 1 else 0)
    && (live ==> k.readied == 1)
    && (k.readied == 0 ==> Placed(k) == [])
    && (visiting ==> live && k.since < |taken|)
    && (live ==> Placed(k) == Owed(k, visiting, taken))
    && (k.readied == 1 && !live ==> IsPrefix(Placed(k), Owed(k, false, taken)))
  }

  ghost predicate Books(s: Hub) {
    && !s.fault
    && s.count == |s.live|
    && s.live <= s.clients.Keys
    && s.todo <= s.live
    && (!s.running ==> s.live == {})
    && s.accepted == s.taken + s.queue
  }

  ghost predicate Inv(s: Hub) { Books(s) && AllOk(s) }

  ghost predicate AllOk(s: Hub) {
    forall c :: c in s.clients ==> ClientOk(s.clients[c], c in s.live, c in s.todo, s.taken)
  }

  // ---------------------------------------------------------------- one client, one step

  lemma OwedStep(k: Client, taken: seq<Update>)
    requires k.since < |taken|
    ensures var u := taken[|taken| - 1];
      Owed(k, false, taken) == Owed(k, true, taken) + if ForTenant(u, k.tenant) then [u] else []
  {
    var n := |taken| - 1;
    assert taken[k.since..n + 1] == taken[k.since..n] + [taken[n]];
    MatchingSnoc(taken[k.since..n], taken[n], k.tenant);
  }

  lemma SkipClient(k: Client, taken: seq<Update>)
    requires ClientOk(k, true, true, taken) && !ForTenant(taken[|taken| - 1], k.tenant)
    ensures ClientOk(k, true, false, taken)
  {
    OwedStep(k, taken);
  }

  lemma SendClient(k: Client, taken: seq<Update>)
    requires ClientOk(k, true, true, taken) && ForTenant(taken[|taken| - 1], k.tenant) && |k.queue| < CLIENT_QUEUE
    ensures ClientOk(k.(queue := k.queue + [taken[|taken| - 1]]), true, false, taken)
  {
    var u := taken[|taken| - 1];
    OwedStep(k, taken);
    assert k.received + (k.queue + [u]) == Placed(k) + [u];
  }

  /** A visit leaves a client that keeps up with all it is owed. */
  lemma VisitStays(k: Client, taken: seq<Update>)
    requires ClientOk(k, true, true, taken)
    ensures var u := taken[|taken| - 1];
      && (!ForTenant(u, k.tenant) ==> ClientOk(k, true, false, taken))
      && (ForTenant(u, k.tenant) && |k.queue| < CLIENT_QUEUE
        ==> ClientOk(k.(queue := k.queue + [u]), true, false, taken))
  {
    if !ForTenant(taken[|taken| - 1], k.tenant) {
      SkipClient(k, taken);
    } else if |k.queue| < CLIENT_QUEUE {
      SendClient(k, taken);
    }
  }

  lemma DropClient(k: Client, taken: seq<Update>)
    requires ClientOk(k, true, true, taken)
    ensures ClientOk(k.(closes := k.closes + 1), false, false, taken)
  {
    OwedStep(k, taken);
  }

  lemma RemoveClient(k: Client, taken: seq<Update>)
    requires ClientOk(k, true, false, taken)
    ensures ClientOk(k.(closes := k.closes + 1), false, false, taken)
  {
  }

  /** A new update is still owed to the live clients and makes no difference to the others. */
  lemma TakeUpClient(k: Client, live: bool, taken: seq<Update>, u: Update)
    requires ClientOk(k, live, false, taken)
    ensures ClientOk(k, live, live, taken + [u])
  {
    var more := taken + [u];
    assert more[k.since..|taken|] == taken[k.since..|taken|];
    OwedStep(k, more);
  }

  lemma ReadClient(k: Client, live: bool, visiting: bool, taken: seq<Update>)
    requires ClientOk(k, live, visiting, taken) && k.queue != []
    ensures ClientOk(k.(queue := k.queue[1..], received := k.received + [k.queue[0]]), live, visiting, taken)
  {
    assert k.received + [k.queue[0]] + k.queue[1..] == Placed(k);
  }

  lemma RegisterClient(k: Client, taken: seq<Update>)
    requires ClientOk(k, false, false, taken) && k.readied == 0
    ensures ClientOk(k.(readied := 1, since := |taken|), true, false, taken)
  {
  }

  // ---------------------------------------------------------------- every step keeps the invariant

  /** A step that concerns one client leaves the others as they were. */
  lemma OneClient(s: Hub, t: Hub, c: ClientId, k: Client, live: bool, visiting: bool)
    requires AllOk(s) && t.taken == s.taken && t.clients.Keys == s.clients.Keys + {c}
    requires t.clients[c] == k && live == (c in t.live) && visiting == (c in t.todo)
    requires forall d :: d in s.clients && d != c ==>
      t.clients[d] == s.clients[d] && (d in t.live <==> d in s.live) && (d in t.todo <==> d in s.todo)
    requires ClientOk(k, live, visiting, s.taken)
    ensures AllOk(t)
  {
  }

  lemma RemoveOne(s: Hub, c: ClientId)
    requires AllOk(s) && c in s.live && c in s.clients
    requires ClientOk(s.clients[c].(closes := s.clients[c].closes + 1), false, false, s.taken)
    ensures AllOk(Remove(s, c))
  {
    OneClient(s, Remove(s, c), c, s.clients[c].(closes := s.clients[c].closes + 1), false, false);
  }

  lemma RemoveKeeps(s: Hub, c: ClientId)
    requires Inv(s) && c in s.live && c !in s.todo
    ensures Inv(Remove(s, c))
  {
    RemoveClient(s.clients[c], s.taken);
    RemoveOne(s, c);
  }

  lemma SkipKeeps(s: Hub, c: ClientId)
    requires AllOk(s) && c in s.live && c in s.clients && ClientKept(s, c, s.clients[c])
    ensures AllOk(s.(todo := s.todo - {c}))
  {
    OneClient(s, s.(todo := s.todo - {c}), c, s.clients[c], true, false);
  }

  lemma SendKeeps(s: Hub, c: ClientId, k: Client)
    requires AllOk(s) && c in s.live && ClientKept(s, c, k)
    ensures AllOk(s.(clients := s.clients[c := k], todo := s.todo - {c}))
  {
    OneClient(s, s.(clients := s.clients[c := k], todo := s.todo - {c}), c, k, true, false);
  }

  /** After its visit a client that stays may be in state k. */
  ghost predicate ClientKept(s: Hub, c: ClientId, k: Client) { c in s.clients && ClientOk(k, true, false, s.taken) }

  lemma DropKeeps(s: Hub, c: ClientId)
    requires AllOk(s) && c in s.clients && ClientOk(s.clients[c], true, true, s.taken) && c in s.live
    ensures AllOk(Remove(s, c))
  {
    DropClient(s.clients[c], s.taken);
    RemoveOne(s, c);
  }

  lemma VisitIs(s: Hub, c: ClientId)
    requires c in s.todo && c in s.clients && s.taken != []
    ensures var k, u := s.clients[c], s.taken[|s.taken| - 1];
      && (!ForTenant(u, k.tenant) ==> Visit(s, c) == s.(todo := s.todo - {c}))
      && (ForTenant(u, k.tenant) && |k.queue| < CLIENT_QUEUE && k.closes == 0 ==>
            Visit(s, c) == s.(clients := s.clients[c := k.(queue := k.queue + [u])], todo := s.todo - {c}))
      && (ForTenant(u, k.tenant) && |k.queue| >= CLIENT_QUEUE ==> Visit(s, c) == Remove(s, c))
  {
  }

  lemma VisitBooks(s: Hub, c: ClientId)
    requires Inv(s) && c in s.todo
    ensures Books(Visit(s, c))
  {
    assert ClientOk(s.clients[c], true, true, s.taken);
  }

  lemma VisitKeeps(s: Hub, c: ClientId)
    requires Inv(s) && c in s.todo
    ensures Inv(Visit(s, c))
  {
    VisitBooks(s, c);
    VisitAllOk(s, c);
  }

  lemma VisitAllOk(s: Hub, c: ClientId)
    requires AllOk(s) && c in s.todo && c in s.live && c in s.clients
    ensures AllOk(Visit(s, c))
  {
    var k := s.clients[c];
    assert ClientOk(k, true, true, s.taken);
    var u := s.taken[|s.taken| - 1];
    VisitIs(s, c);
    VisitStays(k, s.taken);
    if ForTenant(u, k.tenant) && |k.queue| >= CLIENT_QUEUE {
      DropKeeps(s, c);
    } else if ForTenant(u, k.tenant) {
      SendKeeps(s, c, k.(queue := k.queue + [u]));
    } else {
      SkipKeeps(s, c);
    }
  }

  lemma RegisterKeeps(s: Hub, c: ClientId)
    requires Inv(s) && Idle(s) && c in s.clients && s.clients[c].readied == 0
    ensures Inv(Step(s, Register(c)))
  {
    assert ClientOk(s.clients[c], c in s.live, false, s.taken);
    var k := s.clients[c];
    RegisterClient(k, s.taken);
    OneClient(s, Step(s, Register(c)), c, k.(readied := 1, since := |s.taken|), true, false);
  }

  lemma ConnectKeeps(s: Hub, c: ClientId, tenant: TenantId)
    requires Inv(s) && c !in s.clients
    ensures Inv(Step(s, Connect(c, tenant)))
  {
    OneClient(s, Step(s, Connect(c, tenant)), c, Client(tenant, [], [], 0, 0, 0), false, false);
  }

  lemma ReadKeeps(s: Hub, c: ClientId)
    requires Inv(s) && c in s.clients && s.clients[c].queue != []
    ensures Inv(Step(s, Read(c)))
  {
    var k := s.clients[c];
    ReadClient(k, c in s.live, c in s.todo, s.taken);
    OneClient(s, Step(s, Read(c)), c, k.(queue := k.queue[1..], received := k.received + [k.queue[0]]), c in s.live,
      c in s.todo);
  }

  lemma TakeUpKeeps(s: Hub)
    requires Inv(s) && Idle(s) && s.queue != []
    ensures Inv(Step(s, TakeUp))
  {
    var t := Step(s, TakeUp);
    assert s.queue == [s.queue[0]] + s.queue[1..];
    forall c | c in s.clients ensures ClientOk(t.clients[c], c in t.live, c in t.todo, t.taken) {
      TakeUpClient(s.clients[c], c in s.live, s.taken, s.queue[0]);
    }
  }

  lemma CancelKeeps(s: Hub)
    requires Inv(s) && Idle(s)
    ensures Inv(Step(s, Cancel))
  {
    var t := Step(s, Cancel);
    forall c | c in s.clients ensures ClientOk(t.clients[c], false, false, t.taken) {
      if c in s.live { RemoveClient(s.clients[c], s.taken); }
    }
  }

  lemma StepKeeps(s: Hub, a: Action)
    requires Inv(s)
    requires a.Register? && a.c in s.clients ==> s.clients[a.c].readied == 0
    ensures Inv(Step(s, a))
  {
    match a
    case Connect(c, tenant) => if c !in s.clients { ConnectKeeps(s, c, tenant); }
    case Register(c) => if Idle(s) && c in s.clients { RegisterKeeps(s, c); }
    case AskUnregister(c) =>
    case Unregister =>
      if Idle(s) && s.unregister != [] && s.unregister[0] in s.live {
        var t := s.(unregister := s.unregister[1..]);
        assert AllOk(t);
        RemoveKeeps(t, s.unregister[0]);
      }
    case Publish(u) =>
    case TakeUp => if Idle(s) && s.queue != [] { TakeUpKeeps(s); }
    case Deliver(c) => if c in s.todo { VisitKeeps(s, c); }
    case Read(c) => if c in s.clients && s.clients[c].queue != [] { ReadKeeps(s, c); }
    case Cancel => if Idle(s) { CancelKeeps(s); }
  }

  lemma ReadiedByRegister(s: Hub, a: Action, c: ClientId)
    requires c in Step(s, a).clients && Step(s, a).clients[c].readied > 0
    ensures a == Register(c) || (c in s.clients && s.clients[c].readied > 0)
  {
  }

  lemma {:induction false} ReadiedWasRegistered(actions: seq<Action>, c: ClientId)
    requires c in Run(Start, actions).clients && Run(Start, actions).clients[c].readied > 0
    ensures Register(c) in actions
    decreases |actions|
  {
    if actions != [] {
      var n := |actions| - 1;
      var s := Run(Start, actions[..n]);
      ReadiedByRegister(s, actions[n], c);
      if c in s.clients && s.clients[c].readied > 0 { ReadiedWasRegistered(actions[..n], c); }
    }
  }

  /**
    Over every run in which each client is registered once: the count mirrors the client set, no
    closed channel is closed again or sent to, a client's channels are closed exactly when it has been
    registered and is no longer live, and every live client has been given exactly its tenant's
    updates since its registration, in order and without gaps.
   */
  lemma {:induction false} RunKeeps(actions: seq<Action>)
    requires RegistersOnce(actions)
    ensures Inv(Run(Start, actions))
    decreases |actions|
  {
    if actions != [] {
      var n := |actions| - 1;
      var s, a := Run(Start, actions[..n]), actions[n];
      RunKeeps(actions[..n]);
      if a.Register? && a.c in s.clients && s.clients[a.c].readied > 0 {
        ReadiedWasRegistered(actions[..n], a.c);
        assert false;
      }
      StepKeeps(s, a);
    }
  }

  /** Between two updates, what was placed for a live client is its tenant's share of what was taken up since. */
  lemma LiveClientsMissNothing(actions: seq<Action>, c: ClientId)
    requires RegistersOnce(actions)
    ensures var s := Run(Start, actions);
      c in s.live && s.todo == {} ==>
        c in s.clients && s.clients[c].since <= |s.taken| &&
        Placed(s.clients[c]) == Matching(s.taken[s.clients[c].since..], s.clients[c].tenant)
  {
    RunKeeps(actions);
    var s := Run(Start, actions);
    if c in s.live && s.todo == {} {
      assert s.taken[s.clients[c].since..] == s.taken[s.clients[c].since..|s.taken|];
    }
  }

  /**
    A live client that has read everything, with nothing left to take up, has read all accepted
    updates of its tenant.
   */
  lemma DrainedClientHasAll(actions: seq<Action>, c: ClientId)
    requires RegistersOnce(actions)
    ensures var s := Run(Start, actions);
      c in s.live && s.todo == {} && s.queue == [] && c in s.clients && s.clients[c].queue == [] ==>
        s.clients[c].since <= |s.accepted| &&
        s.clients[c].received == Matching(s.accepted[s.clients[c].since..], s.clients[c].tenant)
  {
    RunKeeps(actions);
    var s := Run(Start, actions);
    assert s.taken + [] == s.taken;
    if c in s.live && c in s.clients && s.clients[c].queue == [] {
      assert s.clients[c].received + [] == s.clients[c].received;
      assert s.taken[s.clients[c].since..] == s.taken[s.clients[c].since..|s.taken|];
    }
  }

  lemma {:induction false} MatchingIsOwn(us: seq<Update>, tenant: TenantId, i: nat)
    requires i < |Matching(us, tenant)|
    ensures ForTenant(Matching(us, tenant)[i], tenant) && Matching(us, tenant)[i] in us
    decreases |us|
  {
    if i < |Matching(us[..|us| - 1], tenant)| { MatchingIsOwn(us[..|us| - 1], tenant, i); }
  }

  lemma OwnUpdates(k: Client, live: bool, visiting: bool, taken: seq<Update>, i: nat)
    requires ClientOk(k, live, visiting, taken) && i < |Placed(k)|
    ensures ForTenant(Placed(k)[i], k.tenant)
  {
    MatchingIsOwn(taken[k.since..if visiting then |taken| - 1 else |taken|], k.tenant, i);
  }

  /** A client is never given an update of another tenant. */
  lemma TenantIsolation(actions: seq<Action>, c: ClientId, i: nat)
    requires RegistersOnce(actions) && c in Run(Start, actions).clients
    requires i < |Placed(Run(Start, actions).clients[c])|
    ensures var k := Run(Start, actions).clients[c]; ForTenant(Placed(k)[i], k.tenant)
  {
    RunKeeps(actions);
    var s := Run(Start, actions);
    OwnUpdates(s.clients[c], c in s.live, c in s.todo, s.taken, i);
  }
}
