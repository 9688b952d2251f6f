/**
  Who hears the broadcast loop over a whole run, in terms of what happened: which clients are live,
  which updates are accepted, and that the loop can always work its queue off.
  Source: internal/server/hub.go.
 */
module Audience {
  import opened Fleet
  import opened Runs
  import opened Lists
  import opened Broadcast

  ghost function At(actions: seq<Action>, n: nat): Hub { Run(Start, if n <= |actions| then actions[..n] else actions) }

  lemma AtStep(actions: seq<Action>, n: nat)
    requires n < |actions|
    ensures At(actions, n + 1) == Step(At(actions, n), actions[n])
  {
    assert actions[..n + 1][..n] == actions[..n];
  }

  ghost predicate Listed(s: Hub) { s.todo <= s.live <= s.clients.Keys && (s.todo != {} ==> s.taken != []) }

  lemma StepListed(s: Hub, a: Action)
    requires Listed(s)
    ensures Listed(Step(s, a))
  {
  }

  lemma {:induction false} AtListed(actions: seq<Action>, n: nat)
    requires n <= |actions|
    ensures Listed(At(actions, n))
    decreases n
  {
    if n == 0 {
      assert actions[..0] == [];
    } else {
      AtListed(actions, n - 1);
      AtStep(actions, n - 1);
      StepListed(At(actions, n - 1), actions[n - 1]);
    }
  }

  // ---------------------------------------------------------------- tenants

  /** An empty tenant is the default one. */
  predicate SameTenant(a: TenantId, b: TenantId) { a == b || (a in {"", "default"} && b in {"", "default"}) }

  function ShareOf(tenant: TenantId): Update -> bool { (u: Update) => SameTenant(u.tenant, tenant) }

  lemma {:induction false} MatchingIsShare(us: seq<Update>, tenant: TenantId)
    ensures Matching(us, tenant) == Filter(us, ShareOf(tenant))
    decreases |us|
  {
    if us != [] { MatchingIsShare(us[..|us| - 1], tenant); }
  }

  /**
    Between two updates a live client has been given exactly those taken up since its registration
    whose tenant is its own, in order.
   */
  lemma LiveClientsGetTheirShare(actions: seq<Action>, c: ClientId)
    requires RegistersOnce(actions) && c in Run(Start, actions).live && Run(Start, actions).todo == {}
    ensures var s := Run(Start, actions);
      && c in s.clients && s.clients[c].since <= |s.taken|
      && s.clients[c].received + s.clients[c].queue
         == Filter(s.taken[s.clients[c].since..], ShareOf(s.clients[c].tenant))
  {
    var s := Run(Start, actions);
    LiveClientsMissNothing(actions, c);
    MatchingIsShare(s.taken[s.clients[c].since..], s.clients[c].tenant);
  }

  // ---------------------------------------------------------------- which clients are live

  ghost predicate Joins(s: Hub, a: Action, c: ClientId) {
    a == Register(c) && s.running && s.todo == {} && c in s.clients
  }

  /** Its own request, the end of the loop, or an update of its tenant that finds 16 others unread. */
  ghost predicate Leaves(s: Hub, a: Action, c: ClientId) {
    || (a == Unregister && s.running && s.todo == {} && s.unregister != [] && s.unregister[0] == c)
    || (a == Cancel && s.running && s.todo == {})
    || (a == Action.Deliver(c) && c in s.todo && c in s.clients && s.taken != []
        && SameTenant(s.taken[|s.taken| - 1].tenant, s.clients[c].tenant) && |s.clients[c].queue| >= 16)
  }

  lemma LiveStep(s: Hub, a: Action, c: ClientId)
    requires Listed(s)
    ensures c in Step(s, a).live <==> Joins(s, a, c) || (c in s.live && !Leaves(s, a, c))
  {
  }

  ghost function Joining(actions: seq<Action>, c: ClientId): nat -> bool {
    (k: nat) => k < |actions| && Joins(At(actions, k), actions[k], c)
  }

  ghost function Leaving(actions: seq<Action>, c: ClientId): nat -> bool {
    (k: nat) => k < |actions| && Leaves(At(actions, k), actions[k], c)
  }

  lemma {:induction false} LiveUpTo(actions: seq<Action>, c: ClientId, k: nat)
    requires k <= |actions|
    ensures c in At(actions, k).live <==> Since(Joining(actions, c), Leaving(actions, c), k)
    decreases k
  {
    if k == 0 {
      assert actions[..0] == [];
    } else {
      LiveUpTo(actions, c, k - 1);
      AtListed(actions, k - 1);
      AtStep(actions, k - 1);
      LiveStep(At(actions, k - 1), actions[k - 1], c);
      SinceStep(Joining(actions, c), Leaving(actions, c), k - 1);
    }
  }

  /**
    Over every run: a client is live exactly if it registered and since then neither asked to leave,
    nor was the loop ended, nor did an update of its tenant find 16 others that it had not read.
   */
  lemma LiveExactly(actions: seq<Action>, c: ClientId)
    ensures c in Run(Start, actions).live <==> Since(Joining(actions, c), Leaving(actions, c), |actions|)
  {
    LiveUpTo(actions, c, |actions|);
    assert actions[..|actions|] == actions;
  }

  // ---------------------------------------------------------------- which updates are accepted

  /** The updates published while fewer than 64 were waiting. */
  ghost function AcceptedIn(actions: seq<Action>, n: nat): seq<Update>
    requires n <= |actions|
  {
    if n == 0 then []
    else if actions[n - 1].Publish? && |At(actions, n - 1).queue| < 64
    then AcceptedIn(actions, n - 1) + [actions[n - 1].u]
    else AcceptedIn(actions, n - 1)
  }

  /** The loop takes the accepted updates up in order; those it has not are waiting. */
  lemma {:induction false} AcceptedExactly(actions: seq<Action>, n: nat)
    requires n <= |actions|
    ensures At(actions, n).accepted == AcceptedIn(actions, n) == At(actions, n).taken + At(actions, n).queue
    decreases n
  {
    if n == 0 {
      assert actions[..0] == [];
    } else {
      AcceptedExactly(actions, n - 1);
      QueueAt(actions, n - 1);
    }
  }

  lemma QueueAt(actions: seq<Action>, n: nat)
    requires n < |actions| && At(actions, n).accepted == At(actions, n).taken + At(actions, n).queue
    ensures var s, t, a := At(actions, n), At(actions, n + 1), actions[n];
      && t.accepted == t.taken + t.queue
      && t.accepted == if a.Publish? && |s.queue| < 64 then s.accepted + [a.u] else s.accepted
  {
    AtStep(actions, n);
    QueueStep(At(actions, n), actions[n]);
  }

  lemma QueueStep(s: Hub, a: Action)
    requires s.accepted == s.taken + s.queue
    ensures var t := Step(s, a);
      && t.accepted == t.taken + t.queue
      && t.accepted == if a.Publish? && |s.queue| < 64 then s.accepted + [a.u] else s.accepted
  {
    if a.TakeUp? && s.queue != [] { assert s.queue == [s.queue[0]] + s.queue[1..]; }
  }

  // ---------------------------------------------------------------- who is known and who asks to leave

  /** A request to leave waits if the loop runs and fewer than 64 are waiting, and is taken in its turn. */
  lemma RequestsExactly(s: Hub, a: Action)
    ensures Step(s, a).unregister
         == if a.AskUnregister? && s.running && |s.unregister| < 64 then s.unregister + [a.c]
            else if a == Unregister && s.running && s.todo == {} && s.unregister != [] then s.unregister[1..]
            else s.unregister
  {
  }

  /**
    A client connects once, for one tenant, with nothing buffered; the loop ends only when it is told
    to between updates.
   */
  lemma ConnectsExactly(s: Hub, a: Action, c: ClientId)
    ensures c in Step(s, a).clients <==> c in s.clients || (a.Connect? && a.c == c)
    ensures c !in s.clients && a.Connect? && a.c == c ==>
      && Step(s, a).clients[c].tenant == a.tenant
      && Step(s, a).clients[c].queue == [] && Step(s, a).clients[c].received == []
    ensures Step(s, a).running <==> s.running && !(a == Cancel && s.todo == {})
  {
  }

  // ---------------------------------------------------------------- what a client reads

  /** A receive takes the oldest unread update, and nothing else takes one. */
  lemma ReadExactly(s: Hub, a: Action, c: ClientId)
    requires c in s.clients
    ensures var k, t := s.clients[c], Step(s, a);
      && c in t.clients && t.clients[c].tenant == k.tenant
      && t.clients[c].received
         == (if a == Read(c) && k.queue != [] then k.received + [k.queue[0]] else k.received)
      && (a == Read(c) && k.queue != [] ==> t.clients[c].queue == k.queue[1..])
      && (a != Read(c) ==> |k.queue| <= |t.clients[c].queue| && t.clients[c].queue[..|k.queue|] == k.queue)
  {
  }

  // ---------------------------------------------------------------- the loop makes progress

  predicate LoopStep(a: Action) { a.TakeUp? || a.Deliver? }

  /** The loop's own steps lead from s to t. */
  ghost predicate Leads(s: Hub, actions: seq<Action>, t: Hub) {
    t == Run(s, actions) && forall i :: 0 <= i < |actions| ==> LoopStep(actions[i])
  }

  lemma LeadsNowhere(s: Hub)
    ensures Leads(s, [], s)
  {
  }

  lemma LeadsOn(s: Hub, actions: seq<Action>, t: Hub, a: Action)
    requires Leads(s, actions, t) && LoopStep(a)
    ensures Leads(s, actions + [a], Step(t, a))
  {
    assert (actions + [a])[..|actions|] == actions;
  }

  lemma VisitLeaves(s: Hub, c: ClientId)
    requires Listed(s) && s.running && c in s.todo
    ensures var t := Step(s, Action.Deliver(c));
      Listed(t) && t.running && t.todo == s.todo - {c} && t.queue == s.queue && t.taken == s.taken
  {
    StepListed(s, Action.Deliver(c));
  }

  /** The clients still to visit can be visited. */
  lemma {:induction false} VisitsEnd(start: Hub, before: seq<Action>, s: Hub) returns (actions: seq<Action>, t: Hub)
    requires Leads(start, before, s) && Listed(s) && s.running
    ensures Leads(start, actions, t)
    ensures Listed(t) && t.running && t.todo == {} && t.queue == s.queue && t.taken == s.taken
    decreases s.todo
  {
    if s.todo == {} {
      actions, t := before, s;
    } else {
      var c :| c in s.todo;
      VisitLeaves(s, c);
      LeadsOn(start, before, s, Action.Deliver(c));
      actions, t := VisitsEnd(start, before + [Action.Deliver(c)], Step(s, Action.Deliver(c)));
    }
  }

  lemma TakesUp(s: Hub)
    requires Listed(s) && Idle(s) && s.queue != []
    ensures var t := Step(s, TakeUp);
      && Listed(t) && t.running && t.todo == s.live && t.queue == s.queue[1..]
      && t.taken + t.queue == s.taken + s.queue
  {
    assert s.queue == [s.queue[0]] + s.queue[1..];
  }

  lemma {:induction false} Drains(start: Hub, before: seq<Action>, s: Hub) returns (actions: seq<Action>, t: Hub)
    requires Leads(start, before, s) && Listed(s) && s.running
    ensures Leads(start, actions, t)
    ensures Listed(t) && Idle(t) && t.queue == [] && t.taken == s.taken + s.queue
    decreases |s.queue|
  {
    actions, t := VisitsEnd(start, before, s);
    if t.queue != [] {
      TakesUp(t);
      LeadsOn(start, actions, t, TakeUp);
      actions, t := Drains(start, actions + [TakeUp], Step(t, TakeUp));
    }
  }

  /**
    From every state of the running loop its own steps alone lead to one in which every update
    waiting has been taken up, in order, and no client is still to be visited.
   */
  lemma LoopDrains(actions: seq<Action>) returns (more: seq<Action>, t: Hub)
    requires Run(Start, actions).running
    ensures var s := Run(Start, actions); Leads(s, more, t) && Idle(t) && t.queue == [] && t.taken == s.accepted
  {
    var s := Run(Start, actions);
    assert actions[..|actions|] == actions;
    AtListed(actions, |actions|);
    AcceptedExactly(actions, |actions|);
    LeadsNowhere(s);
    more, t := Drains(s, [], s);
  }
}
