/**
  Who has access after a whole run of the user store, in terms of what happened: which tokens answer,
  which password and which role a user has. Source: internal/store/sqlite.go.
 */
module Access {
  import opened Text
  import opened Fleet
  import opened Runs
  import opened Pruning
  import opened Identity

  const Nobody: State := State(map[], map[])

  ghost function At(actions: seq<Action>, n: nat): State {
    Run(Nobody, if n <= |actions| then actions[..n] else actions)
  }

  lemma {:induction false} RunSnoc(s: State, actions: seq<Action>, a: Action)
    ensures Run(s, actions + [a]) == Step(Run(s, actions), a).0
    decreases |actions|
  {
    if actions == [] {
      assert [] + [a] == [a] && [a][1..] == [];
    } else {
      assert (actions + [a])[1..] == actions[1..] + [a];
      RunSnoc(Step(s, actions[0]).0, actions[1..], a);
    }
  }

  lemma AtStep(actions: seq<Action>, n: nat)
    requires n < |actions|
    ensures At(actions, n + 1) == Step(At(actions, n), actions[n]).0
  {
    assert actions[..n + 1] == actions[..n] + [actions[n]];
    RunSnoc(Nobody, actions[..n], actions[n]);
  }

  // ---------------------------------------------------------------- which calls succeed

  ghost predicate CreateOk(s: State, id: UserId, u: User) {
    && !u.role.Other? && id !in s.users
    && forall other :: other in s.users ==> s.users[other].username != u.username && s.users[other].email != u.email
  }

  /** Somebody else is an admin whose account is not disabled. */
  ghost predicate OtherAdmin(s: State, id: UserId) {
    exists other :: other in s.users && other != id && s.users[other].role == Admin && !s.users[other].disabled
  }

  /** Unless it is the last enabled admin. */
  ghost predicate MayStepDown(s: State, id: UserId) {
    id in s.users && (s.users[id].role != Admin || s.users[id].disabled || OtherAdmin(s, id))
  }

  ghost predicate UpdateOk(s: State, id: UserId, role: Role, disabled: bool) {
    id in s.users && !role.Other? && (MayStepDown(s, id) || (role == Admin && !disabled))
  }

  lemma GuardIs(s: State, id: UserId)
    requires id in s.users && s.users[id].role == Admin && !s.users[id].disabled
    ensures |EnabledAdmins(s.users)| <= 1 <==> !OtherAdmin(s, id)
  {
    OnlyAdmin(s.users, id);
    if !OtherAdmin(s, id) {
      assert EnabledAdmins(s.users) == {id};
    } else {
      var other :| other in s.users && other != id && s.users[other].role == Admin && !s.users[other].disabled;
      assert other in EnabledAdmins(s.users);
    }
  }

  /** What the calls on users answer, and what they do to the table. */
  lemma UserCalls(s: State, id: UserId, u: User, role: Role, disabled: bool)
    ensures var (t, outcome) := CreateUser(s, id, u);
      && (outcome == Done <==> CreateOk(s, id, u)) && (outcome != Done ==> t == s)
      && (outcome == Done ==> t == State(s.users[id := u], s.sessions))
    ensures var (t, outcome) := UpdateUser(s, id, role, disabled);
      && (outcome == Done <==> UpdateOk(s, id, role, disabled)) && (outcome != Done ==> t == s)
      && (outcome == Done ==>
            t == State(s.users[id := s.users[id].(role := role, disabled := disabled)], s.sessions))
      && (outcome == LastAdmin <==> id in s.users && !MayStepDown(s, id) && !(role == Admin && !disabled))
    ensures var (t, outcome) := DeleteUser(s, id);
      && (outcome == Done <==> MayStepDown(s, id)) && (outcome != Done ==> t == s)
      && (outcome == Done ==> t.users == s.users - {id})
      && (outcome == LastAdmin <==> id in s.users && !MayStepDown(s, id))
  {
    if id in s.users && s.users[id].role == Admin && !s.users[id].disabled { GuardIs(s, id); }
  }

  /** Over every run there is an admin whose account is not disabled, once there was one. */
  lemma AlwaysAnAdmin(s: State, actions: seq<Action>, admin: UserId)
    requires WellFormed(s) && admin in s.users && s.users[admin].role == Admin && !s.users[admin].disabled
    ensures var t := Run(s, actions); exists id :: id in t.users && t.users[id].role == Admin && !t.users[id].disabled
  {
    assert admin in EnabledAdmins(s.users);
    RunKeeps(s, actions);
    var id :| id in EnabledAdmins(Run(s, actions).users);
  }

  // ---------------------------------------------------------------- which tokens answer

  ghost predicate Holds(s: State, token: TokenHash, session: Session) {
    token in s.sessions && s.sessions[token] == session
  }

  ghost predicate Grants(s: State, a: Action, token: TokenHash, session: Session) {
    a == DoCreateSession(token, session.user, session.expiresAt) && token !in s.sessions && session.user in s.users
  }

  /** Logout, deletion or a password reset of its user, or a prune at or after its expiry. */
  ghost predicate Revokes(s: State, a: Action, token: TokenHash, session: Session) {
    match a
    case DoDeleteSession(t) => t == token
    case DoDeleteUser(id) => id == session.user && MayStepDown(s, id)
    case DoResetPassword(id, _) => id == session.user && id in s.users
    case DoPruneSessions(now) => session.expiresAt <= now
    case DoPruneBatch(now, batch) => token in batch && IsBatch(s.sessions, ExpiredAt(now), batch)
    case _ => false
  }

  lemma SessionStep(s: State, a: Action, token: TokenHash, session: Session)
    ensures Holds(Step(s, a).0, token, session)
       <==> Grants(s, a, token, session) || (Holds(s, token, session) && !Revokes(s, a, token, session))
  {
    if a.DoDeleteUser? { UserCalls(s, a.id, User("", "", "", Admin, false), Admin, false); }
  }

  ghost function Granting(actions: seq<Action>, token: TokenHash, session: Session): nat -> bool {
    (k: nat) => k < |actions| && Grants(At(actions, k), actions[k], token, session)
  }

  ghost function Revoking(actions: seq<Action>, token: TokenHash, session: Session): nat -> bool {
    (k: nat) => k < |actions| && Revokes(At(actions, k), actions[k], token, session)
  }

  lemma {:induction false} SessionUpTo(actions: seq<Action>, token: TokenHash, session: Session, k: nat)
    requires k <= |actions|
    ensures Holds(At(actions, k), token, session)
       <==> Since(Granting(actions, token, session), Revoking(actions, token, session), k)
    decreases k
  {
    if k == 0 {
      assert actions[..0] == [];
    } else {
      SessionUpTo(actions, token, session, k - 1);
      AtStep(actions, k - 1);
      SessionStep(At(actions, k - 1), actions[k - 1], token, session);
      SinceStep(Granting(actions, token, session), Revoking(actions, token, session), k - 1);
    }
  }

  lemma {:induction false} RunWellFormed(s: State, actions: seq<Action>)
    requires WellFormed(s)
    ensures WellFormed(Run(s, actions))
    decreases |actions|
  {
    if actions != [] {
      StepKeepsWellFormed(s, actions[0]);
      RunWellFormed(Step(s, actions[0]).0, actions[1..]);
    }
  }

  /**
    Over every run: a token answers with a user at a time exactly if a session of that user which
    expires later was created for it, and it has not been logged out, pruned after its expiry, or
    ended by a deletion or a password reset of its user since.
   */
  lemma AnswersExactly(actions: seq<Action>, token: TokenHash, user: UserId, now: Time)
    ensures GetSessionUser(Run(Nobody, actions), token, now) == Some(user)
       <==> exists expiry: Time :: now < expiry && HasSession(actions, token, Session(user, expiry))
  {
    var s := Run(Nobody, actions);
    assert actions[..|actions|] == actions;
    RunWellFormed(Nobody, actions);
    forall expiry: Time
      ensures HasSession(actions, token, Session(user, expiry)) <==> Holds(s, token, Session(user, expiry))
    {
      SessionUpTo(actions, token, Session(user, expiry), |actions|);
    }
    if token in s.sessions {
      assert HasSession(actions, token, Session(user, s.sessions[token].expiresAt))
          == Holds(s, token, Session(user, s.sessions[token].expiresAt));
    }
  }

  ghost predicate HasSession(actions: seq<Action>, token: TokenHash, session: Session) {
    Since(Granting(actions, token, session), Revoking(actions, token, session), |actions|)
  }

  // ---------------------------------------------------------------- which password and role a user has

  ghost predicate HasPassword(s: State, id: UserId, hash: string) { id in s.users && s.users[id].password == hash }

  ghost predicate SetsPassword(s: State, a: Action, id: UserId, hash: string) {
    || (a == DoResetPassword(id, hash) && id in s.users)
    || (a.DoCreateUser? && a.id == id && a.user.password == hash && CreateOk(s, id, a.user))
  }

  ghost predicate DropsPassword(s: State, a: Action, id: UserId) {
    (a.DoResetPassword? && a.id == id) || (a == DoDeleteUser(id) && MayStepDown(s, id))
  }

  lemma PasswordStep(s: State, a: Action, id: UserId, hash: string)
    ensures HasPassword(Step(s, a).0, id, hash)
       <==> SetsPassword(s, a, id, hash) || (HasPassword(s, id, hash) && !DropsPassword(s, a, id))
  {
    match a
    case DoCreateUser(i, u) => UserCalls(s, i, u, Admin, false);
    case DoUpdateUser(i, role, disabled) => UserCalls(s, i, User("", "", "", Admin, false), role, disabled);
    case DoDeleteUser(i) => UserCalls(s, i, User("", "", "", Admin, false), Admin, false);
    case _ =>
  }

  ghost function SettingPassword(actions: seq<Action>, id: UserId, hash: string): nat -> bool {
    (k: nat) => k < |actions| && SetsPassword(At(actions, k), actions[k], id, hash)
  }

  ghost function DroppingPassword(actions: seq<Action>, id: UserId): nat -> bool {
    (k: nat) => k < |actions| && DropsPassword(At(actions, k), actions[k], id)
  }

  lemma {:induction false} PasswordUpTo(actions: seq<Action>, id: UserId, hash: string, k: nat)
    requires k <= |actions|
    ensures HasPassword(At(actions, k), id, hash)
       <==> Since(SettingPassword(actions, id, hash), DroppingPassword(actions, id), k)
    decreases k
  {
    if k == 0 {
      assert actions[..0] == [];
    } else {
      PasswordUpTo(actions, id, hash, k - 1);
      AtStep(actions, k - 1);
      PasswordStep(At(actions, k - 1), actions[k - 1], id, hash);
      SinceStep(SettingPassword(actions, id, hash), DroppingPassword(actions, id), k - 1);
    }
  }

  /** A user's password is the one of the creation or of the last reset since. */
  lemma PasswordExactly(actions: seq<Action>, id: UserId, hash: string)
    ensures HasPassword(Run(Nobody, actions), id, hash)
       <==> Since(SettingPassword(actions, id, hash), DroppingPassword(actions, id), |actions|)
  {
    PasswordUpTo(actions, id, hash, |actions|);
    assert actions[..|actions|] == actions;
  }

  ghost predicate HasRole(s: State, id: UserId, role: Role, disabled: bool) {
    id in s.users && s.users[id].role == role && s.users[id].disabled == disabled
  }

  ghost predicate SetsRole(s: State, a: Action, id: UserId, role: Role, disabled: bool) {
    || (a == DoUpdateUser(id, role, disabled) && UpdateOk(s, id, role, disabled))
    || (a.DoCreateUser? && a.id == id && a.user.role == role && a.user.disabled == disabled && CreateOk(s, id, a.user))
  }

  ghost predicate DropsRole(s: State, a: Action, id: UserId) {
    || (a.DoUpdateUser? && a.id == id && UpdateOk(s, id, a.role, a.disabled))
    || (a == DoDeleteUser(id) && MayStepDown(s, id))
  }

  lemma RoleStep(s: State, a: Action, id: UserId, role: Role, disabled: bool)
    ensures HasRole(Step(s, a).0, id, role, disabled)
       <==> SetsRole(s, a, id, role, disabled) || (HasRole(s, id, role, disabled) && !DropsRole(s, a, id))
  {
    match a
    case DoCreateUser(i, u) => UserCalls(s, i, u, Admin, false);
    case DoUpdateUser(i, r, d) => UserCalls(s, i, User("", "", "", Admin, false), r, d);
    case DoDeleteUser(i) => UserCalls(s, i, User("", "", "", Admin, false), Admin, false);
    case _ =>
  }

  ghost function SettingRole(actions: seq<Action>, id: UserId, role: Role, disabled: bool): nat -> bool {
    (k: nat) => k < |actions| && SetsRole(At(actions, k), actions[k], id, role, disabled)
  }

  ghost function DroppingRole(actions: seq<Action>, id: UserId): nat -> bool {
    (k: nat) => k < |actions| && DropsRole(At(actions, k), actions[k], id)
  }

  lemma {:induction false} RoleUpTo(actions: seq<Action>, id: UserId, role: Role, disabled: bool, k: nat)
    requires k <= |actions|
    ensures HasRole(At(actions, k), id, role, disabled)
       <==> Since(SettingRole(actions, id, role, disabled), DroppingRole(actions, id), k)
    decreases k
  {
    if k == 0 {
      assert actions[..0] == [];
    } else {
      RoleUpTo(actions, id, role, disabled, k - 1);
      AtStep(actions, k - 1);
      RoleStep(At(actions, k - 1), actions[k - 1], id, role, disabled);
      SinceStep(SettingRole(actions, id, role, disabled), DroppingRole(actions, id), k - 1);
    }
  }

  /** A user's role and disabled flag are those of the creation or of the last accepted update since. */
  lemma RoleExactly(actions: seq<Action>, id: UserId, role: Role, disabled: bool)
    ensures HasRole(Run(Nobody, actions), id, role, disabled)
       <==> Since(SettingRole(actions, id, role, disabled), DroppingRole(actions, id), |actions|)
  {
    RoleUpTo(actions, id, role, disabled, |actions|);
    assert actions[..|actions|] == actions;
  }
}
