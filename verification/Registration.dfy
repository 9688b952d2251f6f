/**
  Agent registration, token rotation and approval, between the agents and the hub.
  Sources: internal/agent/registrar/registrar.go, internal/server/handlers_agents.go, internal/store/sqlite.go.
 */
module Registration {
  import opened Text

  type Name = string

  /**
    The credential shared by all agents, or the agent token generated as the serial-th. Generated
    tokens never repeat, and a token stands for its hash as well.
   */
  datatype Token = Shared | Minted(serial: nat)

  /** A registered cluster with its row in the agents table. */
  datatype Row = Row(token: Token, approved: bool)

  datatype Hub = Hub(rows: map<Name, Row>, minted: nat)

  /** The registrar's fields that change. */
  datatype Agent = Agent(token: Token, approved: bool)

  const NewAgent: Agent := Agent(Shared, false)

  // ---------------------------------------------------------------- the hub

  /** ValidateAgentToken: None when no row matches, else whether the agent is approved. */
  function Validate(hub: Hub, name: Name, token: Token): Option<bool> {
    if name in hub.rows && hub.rows[name].token == token then Some(hub.rows[name].approved) else None
  }

  /** IssueAgentToken for an existing cluster: a new row is unapproved, an old one keeps its approval. */
  function Issue(hub: Hub, name: Name): Hub {
    Hub(hub.rows[name := Row(Minted(hub.minted), name in hub.rows && hub.rows[name].approved)], hub.minted + 1)
  }

  datatype Reply = Registered(token: Token, approved: bool) | Refused

  /** handleAgentRegister after the registration credential was accepted. */
  function HandleRegister(hub: Hub, name: Name, existing: Option<Token>): (Hub, Reply) {
    if name in hub.rows && (existing.None? || Validate(hub, name, existing.value).None?) then (hub, Refused)
    else
      var issued := Issue(hub, name);
      (issued, Registered(issued.rows[name].token, issued.rows[name].approved))
  }

  // ---------------------------------------------------------------- the agent

  function Existing(agent: Agent): Option<Token> { if agent.token == Shared then None else Some(agent.token) }

  function Learn(agent: Agent, reply: Reply): Agent {
    if reply.Refused? then agent else Agent(reply.token, reply.approved)
  }

  /** A heartbeat's effect on the agent, and whether it asks for a new registration. */
  function Beat(agent: Agent, answer: Option<bool>): (Agent, bool) {
    if answer == Some(true) then (agent.(approved := true), !agent.approved) else (agent, false)
  }

  // ---------------------------------------------------------------- the protocol

  /** One agent process for each cluster name. */
  datatype State = State(hub: Hub, agents: map<Name, Agent>)

  datatype Action =
    | Register(name: Name)
    | RegisterUnheard(name: Name)   // the hub answers, the answer is lost
    | Heartbeat(name: Name)
    | Approve(name: Name)
    | Delete(name: Name)
    | Restart(name: Name)           // the agent's memory is lost

  const Start: State := State(Hub(map[], 0), map[])

  function AgentOf(s: State, name: Name): Agent { if name in s.agents then s.agents[name] else NewAgent }

  function Step(s: State, a: Action): State {
    match a
    case Register(n) =>
      var (hub, reply) := HandleRegister(s.hub, n, Existing(AgentOf(s, n)));
      State(hub, s.agents[n := Learn(AgentOf(s, n), reply)])
    case RegisterUnheard(n) => s.(hub := HandleRegister(s.hub, n, Existing(AgentOf(s, n))).0)
    case Heartbeat(n) =>
      s.(agents := s.agents[n := Beat(AgentOf(s, n), Validate(s.hub, n, AgentOf(s, n).token)).0])
    case Approve(n) =>
      if n in s.hub.rows then s.(hub := s.hub.(rows := s.hub.rows[n := s.hub.rows[n].(approved := true)])) else s
    case Delete(n) => s.(hub := s.hub.(rows := s.hub.rows - {n}))
    case Restart(n) => s.(agents := s.agents[n := NewAgent])
  }

  function Run(s: State, actions: seq<Action>): State
    decreases |actions|
  {
    if actions == [] then s else Run(Step(s, actions[0]), actions[1..])
  }

  /** No answer and no memory is lost. */
  predicate Heard(a: Action) { !a.RegisterUnheard? && !a.Restart? }

  predicate AllHeard(actions: seq<Action>) { forall i :: 0 <= i < |actions| ==> Heard(actions[i]) }

  // ---------------------------------------------------------------- exactness of one registration

  predicate Accepted(s: State, n: Name) { HandleRegister(s.hub, n, Existing(AgentOf(s, n))).1.Registered? }

  predicate TokensMinted(s: State) {
    && (forall n :: n in s.hub.rows ==> s.hub.rows[n].token.Minted? && s.hub.rows[n].token.serial < s.hub.minted)
    && (forall m, n :: m in s.hub.rows && n in s.hub.rows && m != n ==> s.hub.rows[m].token != s.hub.rows[n].token)
    && (forall n :: n in s.agents && s.agents[n].token.Minted? ==> s.agents[n].token.serial < s.hub.minted)
  }

  lemma StepKeepsTokens(s: State, a: Action)
    requires TokensMinted(s)
    ensures TokensMinted(Step(s, a)) && Step(s, a).hub.minted >= s.hub.minted
  {
  }

  lemma {:induction false} RunKeepsTokens(s: State, actions: seq<Action>)
    requires TokensMinted(s)
    ensures TokensMinted(Run(s, actions))
    decreases |actions|
  {
    if actions != [] {
      StepKeepsTokens(s, actions[0]);
      RunKeepsTokens(Step(s, actions[0]), actions[1..]);
    }
  }

  /**
    In every reachable state a registration is accepted exactly when the name is free or the agent
    holds the name's current token; a refusal changes nothing on the hub.
   */
  lemma AcceptedExactly(actions: seq<Action>, n: Name)
    ensures var s := Run(Start, actions);
      && (Accepted(s, n) <==> n !in s.hub.rows || AgentOf(s, n).token == s.hub.rows[n].token)
      && (!Accepted(s, n) ==> Step(s, Register(n)).hub == s.hub && AgentOf(Step(s, Register(n)), n) == AgentOf(s, n))
  {
    RunKeepsTokens(Start, actions);
  }

  // ---------------------------------------------------------------- agreement

  /** Whoever is registered holds the token the hub validates, and believes in no approval the hub did not give. */
  ghost predicate Agree(s: State) {
    && TokensMinted(s)
    && forall n :: n in s.hub.rows ==>
         AgentOf(s, n).token == s.hub.rows[n].token && (AgentOf(s, n).approved ==> s.hub.rows[n].approved)
  }

  lemma StepKeepsAgreement(s: State, a: Action)
    requires Agree(s) && Heard(a)
    ensures Agree(Step(s, a))
    ensures a.Register? ==> Accepted(s, a.name)
  {
    StepKeepsTokens(s, a);
  }

  lemma {:induction false} RunKeepsAgreement(s: State, actions: seq<Action>)
    requires Agree(s) && AllHeard(actions)
    ensures Agree(Run(s, actions))
    decreases |actions|
  {
    if actions != [] {
      StepKeepsAgreement(s, actions[0]);
      RunKeepsAgreement(Step(s, actions[0]), actions[1..]);
    }
  }

  /**
    While nothing is lost, no registration is ever refused, and after it the agent holds the one
    token that the hub validates for its name, with the approval that the hub reports.
   */
  lemma RegistrationAgrees(actions: seq<Action>, n: Name)
    requires AllHeard(actions)
    ensures var s := Run(Start, actions);
      var t := Step(s, Register(n));
      && Accepted(s, n)
      && (forall token :: Validate(t.hub, n, token).Some? <==> token == AgentOf(t, n).token)
      && Validate(t.hub, n, AgentOf(t, n).token) == Some(AgentOf(t, n).approved)
  {
    RunKeepsAgreement(Start, actions);
    StepKeepsAgreement(Run(Start, actions), Register(n));
  }

  /** A token that a name no longer carries never validates for it again, whatever happens. */
  lemma {:induction false} SupersededStaysDead(s: State, actions: seq<Action>, n: Name, token: Token)
    requires TokensMinted(s) && Validate(s.hub, n, token).None?
    requires token.Shared? || token.serial < s.hub.minted
    ensures Validate(Run(s, actions).hub, n, token).None?
    decreases |actions|
  {
    if actions != [] {
      StepKeepsTokens(s, actions[0]);
      SupersededStaysDead(Step(s, actions[0]), actions[1..], n, token);
    }
  }

  /** An accepted registration supersedes the token it was proved with. */
  lemma RotationSupersedes(actions: seq<Action>, n: Name, later: seq<Action>)
    requires n in Run(Start, actions).hub.rows && Accepted(Run(Start, actions), n)
    ensures var s := Run(Start, actions);
      Validate(Run(Step(s, Register(n)), later).hub, n, s.hub.rows[n].token).None?
  {
    var s := Run(Start, actions);
    RunKeepsTokens(Start, actions);
    StepKeepsTokens(s, Register(n));
    SupersededStaysDead(Step(s, Register(n)), later, n, s.hub.rows[n].token);
  }

  /** Approval survives every rotation until the cluster is deleted. */
  lemma {:induction false} ApprovalSurvives(s: State, actions: seq<Action>, n: Name)
    requires n in s.hub.rows && s.hub.rows[n].approved
    requires forall i :: 0 <= i < |actions| ==> actions[i] != Delete(n)
    ensures n in Run(s, actions).hub.rows && Run(s, actions).hub.rows[n].approved
    decreases |actions|
  {
    if actions != [] { ApprovalSurvives(Step(s, actions[0]), actions[1..], n); }
  }

  // ---------------------------------------------------------------- requests to register again

  predicate Signals(s: State, a: Action, n: Name) {
    a == Heartbeat(n) && Beat(AgentOf(s, n), Validate(s.hub, n, AgentOf(s, n).token)).1
  }

  /** How often the heartbeats of an agent ask for a new registration. */
  function SignalCount(s: State, actions: seq<Action>, n: Name): nat
    decreases |actions|
  {
    if actions == [] then 0
    else (if Signals(s, actions[0], n) then 1 else 0) + SignalCount(Step(s, actions[0]), actions[1..], n)
  }

  function Count(actions: seq<Action>, a: Action): nat {
    if actions == [] then 0 else (if actions[0] == a then 1 else 0) + Count(actions[1..], a)
  }

  /** Between two registrations of an agent process at most one heartbeat asks for a new one. */
  lemma {:induction false} OneSignalPerRegistration(s: State, actions: seq<Action>, n: Name)
    requires forall i :: 0 <= i < |actions| ==> actions[i] != Register(n) && actions[i] != Restart(n)
    ensures SignalCount(s, actions, n) <= if AgentOf(s, n).approved then 0 else 1
    decreases |actions|
  {
    if actions != [] {
      assert forall i :: 0 <= i < |actions[1..]| ==> actions[1..][i] == actions[i + 1];
      OneSignalPerRegistration(Step(s, actions[0]), actions[1..], n);
    }
  }

  /** Over a whole run in which nothing is lost there is at most one such request for each creation of the cluster. */
  lemma {:induction false} OneSignalPerCluster(s: State, actions: seq<Action>, n: Name)
    requires Agree(s) && AllHeard(actions)
    ensures SignalCount(s, actions, n)
         <= Count(actions, Delete(n)) + if n in s.hub.rows && AgentOf(s, n).approved then 0 else 1
    decreases |actions|
  {
    if actions != [] {
      StepKeepsAgreement(s, actions[0]);
      OneSignalPerCluster(Step(s, actions[0]), actions[1..], n);
    }
  }

  // ---------------------------------------------------------------- what losing something does

  /**
    Exactly when the hub knows the name under a token that the agent does not hold, the agent is
    stranded: every later registration is refused until the cluster is deleted.
   */
  ghost predicate Stranded(s: State, n: Name) { n in s.hub.rows && AgentOf(s, n).token != s.hub.rows[n].token }

  /** No step but the deletion of its cluster helps a stranded agent. */
  lemma StepStrands(s: State, a: Action, n: Name)
    requires TokensMinted(s) && Stranded(s, n) && a != Delete(n)
    ensures Stranded(Step(s, a), n)
  {
    if a.Register? || a.RegisterUnheard? {
      if a.name == n { assert HandleRegister(s.hub, n, Existing(AgentOf(s, n))).1.Refused?; }
    }
  }

  lemma StrandedIsRefused(s: State, n: Name)
    requires TokensMinted(s) && Stranded(s, n)
    ensures !Accepted(s, n)
  {
  }

  lemma {:induction false} StrandedUntilDeleted(s: State, actions: seq<Action>, n: Name)
    requires TokensMinted(s) && Stranded(s, n)
    requires forall i :: 0 <= i < |actions| ==> actions[i] != Delete(n)
    ensures Stranded(Run(s, actions), n) && !Accepted(Run(s, actions), n)
    decreases |actions|
  {
    if actions == [] {
      StrandedIsRefused(s, n);
    } else {
      StepKeepsTokens(s, actions[0]);
      StepStrands(s, actions[0], n);
      forall i | 0 <= i < |actions[1..]| ensures actions[1..][i] != Delete(n) { assert actions[i + 1] != Delete(n); }
      StrandedUntilDeleted(Step(s, actions[0]), actions[1..], n);
    }
  }

  /**
    An agent that was in agreement is stranded by a lost answer always, and by a restart exactly
    when it is registered.
   */
  lemma WhatStrands(s: State, n: Name)
    requires Agree(s)
    ensures Stranded(Step(s, RegisterUnheard(n)), n)
    ensures Stranded(Step(s, Restart(n)), n) <==> n in s.hub.rows
    ensures !Stranded(Step(s, Delete(n)), n)
  {
  }
}
