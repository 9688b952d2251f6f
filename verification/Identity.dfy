/**
  Users and sessions: the last-admin guard, password resets and session expiry.
  Source: internal/store/sqlite.go.
 */
module Identity {
  import opened Text
  import opened Fleet
  import opened Pruning

  type UserId = string
  type TokenHash = string

  /** `Other` is any text that the CHECK on the role column refuses. */
  datatype Role = Admin | Operator | ReadOnly | Other(text: string)

  datatype User = User(username: string, email: string, password: string, role: Role, disabled: bool)

  datatype Session = Session(user: UserId, expiresAt: Time)

  type Users = map<UserId, User>
  type Sessions = map<TokenHash, Session>

  datatype State = State(users: Users, sessions: Sessions)

  datatype Outcome = Done | Conflict | NotFound | LastAdmin | Failed

  predicate IsEnabledAdmin(u: User) { u.role == Admin && !u.disabled }

  function EnabledAdmins(users: Users): set<UserId> { set id | id in users && IsEnabledAdmin(users[id]) }

  // ---------------------------------------------------------------- the store's operations

  predicate Taken(users: Users, id: UserId, u: User) {
    || id in users
    || exists other :: other in users && (users[other].username == u.username || users[other].email == u.email)
  }

  function CreateUser(s: State, id: UserId, u: User): (State, Outcome) {
    if u.role.Other? then (s, Failed)
    else if Taken(s.users, id, u) then (s, Conflict)
    else (s.(users := s.users[id := u]), Done)
  }

  /** withLastAdminGuard's decision; Done lets the mutation run. */
  function Guard(users: Users, id: UserId, staysEnabledAdmin: bool): Outcome {
    if id !in users then NotFound
    else if IsEnabledAdmin(users[id]) && !staysEnabledAdmin && |EnabledAdmins(users)| <= 1 then LastAdmin
    else Done
  }

  function UpdateUser(s: State, id: UserId, role: Role, disabled: bool): (State, Outcome) {
    var decision := Guard(s.users, id, role == Admin && !disabled);
    if decision != Done then (s, decision)
    else if role.Other? then (s, Failed)
    else (s.(users := s.users[id := s.users[id].(role := role, disabled := disabled)]), Done)
  }

  function WithoutUser(sessions: Sessions, id: UserId): Sessions {
    map t | t in sessions && sessions[t].user != id :: sessions[t]
  }

  /** Deleting a user cascades to the user's sessions. */
  function DeleteUser(s: State, id: UserId): (State, Outcome) {
    var decision := Guard(s.users, id, false);
    if decision != Done then (s, decision)
    else (State(s.users - {id}, WithoutUser(s.sessions, id)), Done)
  }

  function ResetUserPassword(s: State, id: UserId, hash: string): (State, Outcome) {
    if id !in s.users then (s, NotFound)
    else (State(s.users[id := s.users[id].(password := hash)], WithoutUser(s.sessions, id)), Done)
  }

  function CreateSession(s: State, token: TokenHash, user: UserId, expiresAt: Time): (State, Outcome) {
    if token in s.sessions || user !in s.users then (s, Failed)
    else (s.(sessions := s.sessions[token := Session(user, expiresAt)]), Done)
  }

  function GetSessionUser(s: State, token: TokenHash, now: Time): Option<UserId> {
    if token in s.sessions && s.sessions[token].user in s.users && s.sessions[token].expiresAt > now
    then Some(s.sessions[token].user) else None
  }

  function ExpiredAt(now: Time): Session -> bool { (s: Session) => s.expiresAt <= now }

  function Live(sessions: Sessions, now: Time): Sessions { Kept(sessions, ExpiredAt(now)) }

  datatype Action =
    | DoCreateUser(id: UserId, user: User)
    | DoUpdateUser(id: UserId, role: Role, disabled: bool)
    | DoDeleteUser(id: UserId)
    | DoResetPassword(id: UserId, hash: string)
    | DoCreateSession(token: TokenHash, owner: UserId, expiresAt: Time)
    | DoDeleteSession(token: TokenHash)
    | DoPruneSessions(now: Time)
    | DoPruneBatch(now: Time, batch: set<TokenHash>)   // one statement of the pruning loop

  ghost function Step(s: State, a: Action): (State, Outcome) {
    match a
    case DoCreateUser(id, user) => CreateUser(s, id, user)
    case DoUpdateUser(id, role, disabled) => UpdateUser(s, id, role, disabled)
    case DoDeleteUser(id) => DeleteUser(s, id)
    case DoResetPassword(id, hash) => ResetUserPassword(s, id, hash)
    case DoCreateSession(token, owner, expiresAt) => CreateSession(s, token, owner, expiresAt)
    case DoDeleteSession(token) => (s.(sessions := s.sessions - {token}), Done)
    case DoPruneSessions(now) => (s.(sessions := Live(s.sessions, now)), Done)
    case DoPruneBatch(now, batch) =>
      if IsBatch(s.sessions, ExpiredAt(now), batch) then (s.(sessions := s.sessions - batch), Done) else (s, Failed)
  }

  ghost function Run(s: State, actions: seq<Action>): State
    decreases |actions|
  {
    if actions == [] then s else Run(Step(s, actions[0]).0, actions[1..])
  }

  // ---------------------------------------------------------------- what every run keeps

  ghost predicate WellFormed(s: State) {
    && (forall id :: id in s.users ==> !s.users[id].role.Other?)
    && (forall i, j :: i in s.users && j in s.users && i != j ==>
          s.users[i].username != s.users[j].username && s.users[i].email != s.users[j].email)
    && (forall t :: t in s.sessions ==> s.sessions[t].user in s.users)
  }

  lemma OnlyAdmin(users: Users, id: UserId)
    requires id in EnabledAdmins(users)
    ensures |EnabledAdmins(users)| <= 1 <==> EnabledAdmins(users) == {id}
  {
    var others := EnabledAdmins(users) - {id};
    assert EnabledAdmins(users) == others + {id};
    assert |EnabledAdmins(users)| == |others| + 1;
    if |others| == 0 { assert others == {}; }
  }

  /** An update is refused for the last admin exactly when it would leave no enabled admin. */
  lemma UpdateGuardIsExact(s: State, id: UserId, role: Role, disabled: bool)
    requires EnabledAdmins(s.users) != {} && id in s.users
    ensures UpdateUser(s, id, role, disabled).1 == LastAdmin
       <==> EnabledAdmins(s.users[id := s.users[id].(role := role, disabled := disabled)]) == {}
  {
    var users := s.users[id := s.users[id].(role := role, disabled := disabled)];
    if id in EnabledAdmins(s.users) { OnlyAdmin(s.users, id); }
    if role == Admin && !disabled {
      assert id in EnabledAdmins(users);
    } else {
      assert EnabledAdmins(users) == EnabledAdmins(s.users) - {id};
    }
  }

  /** A deletion is refused for the last admin exactly when it would leave no enabled admin. */
  lemma DeleteGuardIsExact(s: State, id: UserId)
    requires EnabledAdmins(s.users) != {} && id in s.users
    ensures DeleteUser(s, id).1 == LastAdmin <==> EnabledAdmins(s.users - {id}) == {}
  {
    if id in EnabledAdmins(s.users) { OnlyAdmin(s.users, id); }
    assert EnabledAdmins(s.users - {id}) == EnabledAdmins(s.users) - {id};
  }

  lemma StepKeepsAdmin(s: State, a: Action)
    requires EnabledAdmins(s.users) != {}
    ensures EnabledAdmins(Step(s, a).0.users) != {}
  {
    var admin :| admin in EnabledAdmins(s.users);
    if a.DoUpdateUser? && a.id in s.users {
      UpdateGuardIsExact(s, a.id, a.role, a.disabled);
    } else if a.DoDeleteUser? && a.id in s.users {
      DeleteGuardIsExact(s, a.id);
    } else {
      assert admin in EnabledAdmins(Step(s, a).0.users);
    }
  }

  lemma StepKeepsWellFormed(s: State, a: Action)
    requires WellFormed(s)
    ensures WellFormed(Step(s, a).0)
  {
  }

  /**
    From any state with an enabled admin, every sequence of operations keeps one, and every session
    keeps referring to an existing user.
   */
  lemma {:induction false} RunKeeps(s: State, actions: seq<Action>)
    requires WellFormed(s) && EnabledAdmins(s.users) != {}
    ensures WellFormed(Run(s, actions)) && EnabledAdmins(Run(s, actions).users) != {}
    decreases |actions|
  {
    if actions != [] {
      StepKeepsAdmin(s, actions[0]);
      StepKeepsWellFormed(s, actions[0]);
      RunKeeps(Step(s, actions[0]).0, actions[1..]);
    }
  }

  // ---------------------------------------------------------------- resets revoke

  /** A token that names no session names none until a session is created for it. */
  lemma {:induction false} RevokedStaysRevoked(s: State, actions: seq<Action>, token: TokenHash)
    requires token !in s.sessions
    requires forall i :: 0 <= i < |actions| && actions[i].DoCreateSession? ==> actions[i].token != token
    ensures token !in Run(s, actions).sessions
    decreases |actions|
  {
    if actions != [] {
      assert forall i :: 0 <= i < |actions[1..]| ==> actions[1..][i] == actions[i + 1];
      RevokedStaysRevoked(Step(s, actions[0]).0, actions[1..], token);
    }
  }

  /**
    Once a password reset succeeds, no session opened for that user before it answers at any time,
    whatever runs afterwards; the sessions of everyone else answer as before.
   */
  lemma ResetRevokes(s: State, id: UserId, hash: string, token: TokenHash, actions: seq<Action>, now: Time)
    requires WellFormed(s) && token in s.sessions
    requires forall i :: 0 <= i < |actions| && actions[i].DoCreateSession? ==> actions[i].token != token
    ensures var (t, outcome) := ResetUserPassword(s, id, hash);
      && (outcome == Done <==> id in s.users)
      && (outcome != Done ==> t == s)
      && (outcome == Done && s.sessions[token].user == id ==> GetSessionUser(Run(t, actions), token, now) == None)
      && (s.sessions[token].user != id ==> GetSessionUser(t, token, now) == GetSessionUser(s, token, now))
  {
    var t := ResetUserPassword(s, id, hash).0;
    if id in s.users && s.sessions[token].user == id {
      RevokedStaysRevoked(t, actions, token);
    }
  }

  // ---------------------------------------------------------------- expiry

  /**
    Pruning at `now`, as a whole or one batch of it, changes the answer for a token at time `at`
    exactly when it deletes a session that was still alive at `at`; so it changes no answer for any
    time from `now` on.
   */
  lemma PruningIsInvisible(s: State, token: TokenHash, a: Action, at: Time)
    requires WellFormed(s) && (a.DoPruneSessions? || a.DoPruneBatch?)
    ensures GetSessionUser(Step(s, a).0, token, at) == GetSessionUser(s, token, at)
       <==> !(token in s.sessions && token !in Step(s, a).0.sessions && at < s.sessions[token].expiresAt)
    ensures token in s.sessions && token !in Step(s, a).0.sessions ==> s.sessions[token].expiresAt <= a.now
    ensures a.now <= at ==> GetSessionUser(Step(s, a).0, token, at) == GetSessionUser(s, token, at)
  {
  }

  // ---------------------------------------------------------------- the store

  class UserStore {
    var users: Users
    var sessions: Sessions

    ghost function Rows(): State reads this { State(users, sessions) }

    constructor ()
      ensures Rows() == State(map[], map[])
    {
      users, sessions := map[], map[];
    }

    method InsertUser(id: UserId, user: User) returns (outcome: Outcome)
      modifies this
      ensures (Rows(), outcome) == CreateUser(old(Rows()), id, user)
    {
      if user.role.Other? { return Failed; }
      if Taken(users, id, user) { return Conflict; }
      users := users[id := user];
      return Done;
    }

    /** SELECT COUNT(*) FROM users WHERE role = 'admin' AND disabled = 0 */
    method CountEnabledAdmins() returns (n: nat)
      ensures n == |EnabledAdmins(users)|
    {
      n := 0;
      var rest := users.Keys;
      ghost var seen: Users := map[];
      while rest != {}
        invariant rest <= users.Keys
        invariant seen == users - rest
        invariant n == |EnabledAdmins(seen)|
        decreases rest
      {
        var id :| id in rest;
        rest := rest - {id};
        if IsEnabledAdmin(users[id]) {
          assert EnabledAdmins(seen[id := users[id]]) == EnabledAdmins(seen) + {id};
          n := n + 1;
        } else {
          assert EnabledAdmins(seen[id := users[id]]) == EnabledAdmins(seen);
        }
        seen := seen[id := users[id]];
      }
      assert seen == users;
    }

    method WithLastAdminGuard(id: UserId, newRole: Option<Role>, newDisabled: bool) returns (outcome: Outcome)
      ensures outcome == Guard(users, id, newRole == Some(Admin) && !newDisabled)
    {
      if id !in users { return NotFound; }
      var wasEnabledAdmin := users[id].role == Admin && !users[id].disabled;
      var staysEnabledAdmin := newRole == Some(Admin) && !newDisabled;
      if wasEnabledAdmin && !staysEnabledAdmin {
        var enabledAdmins := CountEnabledAdmins();
        if enabledAdmins <= 1 { return LastAdmin; }
      }
      return Done;
    }

    method ChangeUser(id: UserId, role: Role, disabled: bool) returns (outcome: Outcome)
      modifies this
      ensures (Rows(), outcome) == UpdateUser(old(Rows()), id, role, disabled)
    {
      outcome := WithLastAdminGuard(id, Some(role), disabled);
      if outcome == Done {
        if role.Other? { return Failed; }
        users := users[id := users[id].(role := role, disabled := disabled)];
      }
    }

    method RemoveUser(id: UserId) returns (outcome: Outcome)
      modifies this
      ensures (Rows(), outcome) == DeleteUser(old(Rows()), id)
    {
      outcome := WithLastAdminGuard(id, None, true);
      if outcome == Done {
        users := users - {id};
        sessions := WithoutUser(sessions, id);
      }
    }

    method ResetPassword(id: UserId, hash: string) returns (outcome: Outcome)
      modifies this
      ensures (Rows(), outcome) == ResetUserPassword(old(Rows()), id, hash)
    {
      if id !in users { return NotFound; }
      users := users[id := users[id].(password := hash)];
      sessions := WithoutUser(sessions, id);
      return Done;
    }

    /** DeleteExpiredSessions; `fails` says which statements the database refuses. */
    method DeleteExpiredSessions(now: Time, fails: nat -> bool) returns (ok: bool)
      modifies this`sessions
      ensures PartlyPruned(old(sessions), sessions, ExpiredAt(now))
      ensures ok ==> Rows() == Step(old(Rows()), DoPruneSessions(now)).0
      ensures (forall n: nat :: !fails(n)) ==> ok
      ensures fails(0) ==> !ok && sessions == old(sessions)
    {
      var removed;
      sessions, removed, ok := Prune(sessions, ExpiredAt(now), fails);
    }
  }
}
