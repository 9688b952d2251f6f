/**
  What the registration protocol comes to over whole runs, in terms of what happened: who is
  registered, who is approved, what an agent knows, and when it asks to register again.
  Sources: internal/server/handlers_agents.go, internal/store/sqlite.go, internal/agent/registrar/registrar.go.
 */
module Approval {
  import opened Text
  import opened Runs
  import opened Registration

  function At(actions: seq<Action>, n: nat): State { Run(Start, if n <= |actions| then actions[..n] else actions) }

  lemma {:induction false} RunSnoc(s: State, actions: seq<Action>, a: Action)
    ensures Run(s, actions + [a]) == Step(Run(s, actions), a)
    decreases |actions|
  {
    if actions == [] {
      assert [] + [a] == [a] && [a][1..] == [];
    } else {
      assert (actions + [a])[1..] == actions[1..] + [a];
      RunSnoc(Step(s, actions[0]), actions[1..], a);
    }
  }

  lemma AtStep(actions: seq<Action>, n: nat)
    requires n < |actions|
    ensures TokensMinted(At(actions, n)) && At(actions, n + 1) == Step(At(actions, n), actions[n])
  {
    assert actions[..n + 1] == actions[..n] + [actions[n]];
    RunSnoc(Start, actions[..n], actions[n]);
    RunKeepsTokens(Start, actions[..n]);
  }

  // ---------------------------------------------------------------- who is registered

  function Known(actions: seq<Action>, n: Name): nat -> bool { (k: nat) => n in At(actions, k).hub.rows }

  /** Registering, heard or not. */
  function Asking(actions: seq<Action>, n: Name): nat -> bool {
    (k: nat) => k < |actions| && (actions[k] == Register(n) || actions[k] == RegisterUnheard(n))
  }

  function Deleting(actions: seq<Action>, n: Name): nat -> bool { (k: nat) => k < |actions| && actions[k] == Delete(n) }

  lemma KnownStep(s: State, a: Action, n: Name)
    ensures n in Step(s, a).hub.rows
       <==> a == Register(n) || a == RegisterUnheard(n) || (n in s.hub.rows && a != Delete(n))
  {
  }

  lemma {:induction false} KnownUpTo(actions: seq<Action>, n: Name, k: nat)
    requires k <= |actions|
    ensures Known(actions, n)(k) <==> Since(Asking(actions, n), Deleting(actions, n), k)
    decreases k
  {
    if k == 0 {
      assert actions[..0] == [];
    } else {
      KnownUpTo(actions, n, k - 1);
      AtStep(actions, k - 1);
      KnownStep(At(actions, k - 1), actions[k - 1], n);
      SinceStep(Asking(actions, n), Deleting(actions, n), k - 1);
    }
  }

  /** A name is registered exactly if somebody asked for it since it was last deleted. */
  lemma RegisteredExactly(actions: seq<Action>, n: Name)
    ensures n in Run(Start, actions).hub.rows <==> Since(Asking(actions, n), Deleting(actions, n), |actions|)
  {
    KnownUpTo(actions, n, |actions|);
    assert actions[..|actions|] == actions;
  }

  // ---------------------------------------------------------------- who is approved

  ghost predicate IsApproved(s: State, n: Name) { n in s.hub.rows && s.hub.rows[n].approved }

  ghost function Approved(actions: seq<Action>, n: Name): nat -> bool { (k: nat) => IsApproved(At(actions, k), n) }

  /** The operator approves a name that is registered at that time. */
  ghost function Approving(actions: seq<Action>, n: Name): nat -> bool {
    (k: nat) => k < |actions| && actions[k] == Approve(n)
                && Since(Asking(actions, n), Deleting(actions, n), k)
  }

  /** Some token of the name answers that it is approved. */
  ghost predicate ValidatesApproved(hub: Hub, n: Name) { exists token :: Validate(hub, n, token) == Some(true) }

  lemma ApprovedStep(s: State, a: Action, n: Name)
    ensures IsApproved(Step(s, a), n)
       <==> (a == Approve(n) && n in s.hub.rows) || (IsApproved(s, n) && a != Delete(n))
  {
  }

  lemma {:induction false} ApprovedUpTo(actions: seq<Action>, n: Name, k: nat)
    requires k <= |actions|
    ensures Approved(actions, n)(k) <==> Since(Approving(actions, n), Deleting(actions, n), k)
    decreases k
  {
    if k == 0 {
      assert actions[..0] == [];
    } else {
      ApprovedUpTo(actions, n, k - 1);
      AtStep(actions, k - 1);
      ApprovedStep(At(actions, k - 1), actions[k - 1], n);
      KnownUpTo(actions, n, k - 1);
      SinceStep(Approving(actions, n), Deleting(actions, n), k - 1);
    }
  }

  /**
    Over every run: the current token of a name validates as approved exactly if the operator approved
    the name while it was registered and it was not deleted since; so a new name starts unapproved.
   */
  lemma ApprovedExactly(actions: seq<Action>, n: Name)
    ensures ValidatesApproved(Run(Start, actions).hub, n)
       <==> Since(Approving(actions, n), Deleting(actions, n), |actions|)
  {
    ApprovedUpTo(actions, n, |actions|);
    assert actions[..|actions|] == actions;
    ApprovedValidates(Run(Start, actions), n);
  }

  lemma ApprovedValidates(s: State, n: Name)
    ensures ValidatesApproved(s.hub, n) <==> IsApproved(s, n)
  {
    if IsApproved(s, n) { assert Validate(s.hub, n, s.hub.rows[n].token) == Some(true); }
  }

  /** An approval makes the name's token validate as approved, and changes no other answer. */
  lemma ApprovalAnswers(s: State, n: Name)
    requires n in s.hub.rows
    ensures var t := Step(s, Approve(n));
      && (forall token :: Validate(s.hub, n, token).Some? ==> Validate(t.hub, n, token) == Some(true))
      && (forall m, token :: m != n || Validate(s.hub, m, token).None? ==>
            Validate(t.hub, m, token) == Validate(s.hub, m, token))
      && t.agents == s.agents
  {
  }

  // ---------------------------------------------------------------- what an agent knows

  ghost predicate KnowsApproval(s: State, n: Name) { AgentOf(s, n).approved }

  /** The hub tells an agent that holds its name's token, in answer to a heartbeat or a registration. */
  ghost predicate Tells(s: State, a: Action, n: Name) {
    && (a == Heartbeat(n) || a == Register(n))
    && IsApproved(s, n) && AgentOf(s, n).token == s.hub.rows[n].token
  }

  /** A restart, or a registration that the hub accepts without approval. */
  ghost predicate Forgets(s: State, a: Action, n: Name) {
    || a == Restart(n)
    || (a == Register(n) && (n !in s.hub.rows || AgentOf(s, n).token == s.hub.rows[n].token) && !IsApproved(s, n))
  }

  lemma KnowsStep(s: State, a: Action, n: Name)
    requires TokensMinted(s)
    ensures KnowsApproval(Step(s, a), n) <==> Tells(s, a, n) || (KnowsApproval(s, n) && !Forgets(s, a, n))
  {
  }

  ghost function Knows(actions: seq<Action>, n: Name): nat -> bool { (k: nat) => KnowsApproval(At(actions, k), n) }

  ghost function Telling(actions: seq<Action>, n: Name): nat -> bool {
    (k: nat) => k < |actions| && Tells(At(actions, k), actions[k], n)
  }

  ghost function Forgetting(actions: seq<Action>, n: Name): nat -> bool {
    (k: nat) => k < |actions| && Forgets(At(actions, k), actions[k], n)
  }

  lemma {:induction false} KnowsUpTo(actions: seq<Action>, n: Name, k: nat)
    requires k <= |actions|
    ensures Knows(actions, n)(k) <==> Since(Telling(actions, n), Forgetting(actions, n), k)
    decreases k
  {
    if k == 0 {
      assert actions[..0] == [];
    } else {
      KnowsUpTo(actions, n, k - 1);
      AtStep(actions, k - 1);
      KnowsStep(At(actions, k - 1), actions[k - 1], n);
      SinceStep(Telling(actions, n), Forgetting(actions, n), k - 1);
    }
  }

  /** An agent takes itself for approved exactly if the hub told it so since it last had to forget it. */
  lemma KnowsExactly(actions: seq<Action>, n: Name)
    ensures AgentOf(Run(Start, actions), n).approved
       <==> Since(Telling(actions, n), Forgetting(actions, n), |actions|)
  {
    KnowsUpTo(actions, n, |actions|);
    assert actions[..|actions|] == actions;
  }

  // ---------------------------------------------------------------- asking to register again

  /**
    A heartbeat asks for a new registration exactly when the agent holds its name's current token,
    the operator has approved the name, and the agent has not been told.
   */
  lemma SignalsExactly(actions: seq<Action>, n: Name)
    ensures var s := Run(Start, actions);
      Signals(s, Heartbeat(n), n)
      <==> && n in s.hub.rows && AgentOf(s, n).token == s.hub.rows[n].token
           && Since(Approving(actions, n), Deleting(actions, n), |actions|)
           && !Since(Telling(actions, n), Forgetting(actions, n), |actions|)
  {
    ApprovedUpTo(actions, n, |actions|);
    KnowsExactly(actions, n);
    assert actions[..|actions|] == actions;
  }
}
