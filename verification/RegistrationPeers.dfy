/**
  The hub's registration handlers and the agent's registrar, proved against the steps of `Registration`.
  Sources: internal/agent/registrar/registrar.go, internal/server/handlers_agents.go, internal/store/sqlite.go.
 */
module RegistrationPeers {
  import opened Text
  import opened Registration

  class HubServer {
    var clusters: set<Name>
    var agents: map<Name, Row>
    var minted: nat

    /** Between requests every cluster has its agents row. */
    ghost predicate Valid() reads this { clusters == agents.Keys }

    ghost function State(): Hub reads this { Hub(agents, minted) }

    constructor ()
      ensures Valid() && State() == Start.hub
    {
      clusters, agents, minted := {}, map[], 0;
    }

    /** INSERT ... SELECT FROM clusters ... ON CONFLICT DO UPDATE */
    method IssueAgentToken(name: Name, token: Token) returns (found: bool)
      modifies this`agents
      ensures found <==> name in clusters
      ensures agents == if name in clusters
                        then old(agents)[name := Row(token, name in old(agents) && old(agents)[name].approved)]
                        else old(agents)
    {
      if name !in clusters { return false; }
      if name in agents {
        agents := agents[name := agents[name].(token := token)];
      } else {
        agents := agents[name := Row(token, false)];
      }
      return true;
    }

    method ValidateAgentToken(name: Name, token: Token) returns (approved: Option<bool>)
      ensures approved == Validate(State(), name, token)
      ensures approved.Some? <==> name in agents && agents[name].token == token
      ensures approved.Some? ==> approved.value == agents[name].approved
    {
      if name in agents && agents[name].token == token { return Some(agents[name].approved); }
      return None;
    }

    method ApproveAgent(name: Name) returns (found: bool)
      requires Valid()
      modifies this`agents
      ensures Valid() && found == (name in old(agents))
      ensures forall s: State :: s.hub == old(State()) ==> State() == Step(s, Approve(name)).hub
      ensures found ==> agents == old(agents)[name := Row(old(agents)[name].token, true)]
      ensures !found ==> agents == old(agents)
    {
      found := name in agents;
      if found { agents := agents[name := agents[name].(approved := true)]; }
    }

    method DeleteCluster(name: Name) returns (found: bool)
      requires Valid()
      modifies this`clusters, this`agents
      ensures Valid() && found == (name in old(clusters))
      ensures forall s: State :: s.hub == old(State()) ==> State() == Step(s, Delete(name)).hub
      ensures clusters == old(clusters) - {name} && agents == old(agents) - {name}
    {
      found := name in clusters;
      clusters := clusters - {name};
      agents := agents - {name};
    }

    method ValidExistingAgentToken(name: Name, existing: Option<Token>) returns (valid: bool)
      ensures valid <==> existing.Some? && Validate(State(), name, existing.value).Some?
      ensures valid <==> existing.Some? && name in agents && agents[name].token == existing.value
    {
      if existing.None? { return false; }
      var approved := ValidateAgentToken(name, existing.value);
      valid := approved.Some?;
    }

    method HandleAgentRegister(name: Name, existing: Option<Token>) returns (reply: Reply)
      requires Valid()
      modifies this
      ensures Valid()
      ensures (State(), reply) == HandleRegister(old(State()), name, existing)
      ensures reply.Refused? <==> name in old(agents) && existing != Some(old(agents)[name].token)
      ensures reply.Refused? ==> agents == old(agents)
      ensures reply.Registered? ==>
        && agents == old(agents)[name := Row(reply.token, reply.approved)] && reply.token == Minted(old(minted))
        && reply.approved == (name in old(agents) && old(agents)[name].approved)
    {
      if name !in clusters {
        clusters := clusters + {name};
      } else {
        var valid := ValidExistingAgentToken(name, existing);
        if !valid { return Refused; }
      }
      var token := Minted(minted);
      minted := minted + 1;
      var _ := IssueAgentToken(name, token);
      var approved := ValidateAgentToken(name, token);
      reply := Registered(token, approved == Some(true));
    }
  }

  class Registrar {
    const name: Name
    const registrationToken: Token
    var token: Token
    var approved: bool

    ghost function Self(): Agent reads this { Agent(token, approved) }

    constructor (name: Name)
      ensures this.name == name && registrationToken == Shared && Self() == NewAgent
    {
      this.name := name;
      registrationToken := Shared;
      token := Shared;
      approved := false;
    }

    /** Register; `heard` says whether the answer reaches the agent. */
    method Register(hub: HubServer, heard: bool) returns (registered: bool)
      requires hub.Valid() && registrationToken == Shared
      modifies this, hub
      ensures hub.Valid()
      ensures forall s: State :: s.hub == old(hub.State()) && AgentOf(s, name) == old(Self()) ==>
        var t := Step(s, if heard then Action.Register(name) else RegisterUnheard(name));
        hub.State() == t.hub && Self() == AgentOf(t, name) && registered == (heard && Accepted(s, name))
      ensures registered ==> name in hub.agents && hub.agents[name] == Row(token, approved)
      ensures !registered ==> token == old(token) && approved == old(approved)
    {
      var existing: Option<Token> := None;
      if token != registrationToken { existing := Some(token); }
      var reply := hub.HandleAgentRegister(name, existing);
      registered := heard && reply.Registered?;
      if registered {
        token := reply.token;
        approved := reply.approved;
      }
    }

    method Heartbeat(hub: HubServer) returns (reregister: bool)
      modifies this
      ensures forall s: State :: s.hub == hub.State() && AgentOf(s, name) == old(Self()) ==>
        Self() == AgentOf(Step(s, Action.Heartbeat(name)), name)
          && reregister == Signals(s, Action.Heartbeat(name), name)
      ensures var told := name in hub.agents && hub.agents[name] == Row(old(token), true);
        token == old(token) && approved == (old(approved) || told) && reregister == (told && !old(approved))
    {
      var answer := hub.ValidateAgentToken(name, token);
      if answer.None? { return false; }
      reregister := answer.value && !approved;
      if answer.value { approved := true; }
    }
  }
}
