/** Properties that relate the views to one another: the block/unblock state
    machine, the blocked-user listing after a transition, the login gate over
    a store-backed `authenticate`, and the undoing of a signup by a delete. */
module Properties {
  import opened Accounts
  import opened Views

  // ---------------------------------------------------------------------
  // The block flag as a two-state machine
  // ---------------------------------------------------------------------

  /** Flipping a block flag keeps the table's unique constraints and does not
      change which user an email lookup finds. */
  lemma FindByEmailIgnoresFlags(t: Table, id: UserId, flag: bool, email: string)
    requires WellFormed(t) && id in t
    ensures WellFormed(SetBlocked(t, id, flag))
    ensures FindByEmail(SetBlocked(t, id, flag), email) == FindByEmail(t, email)
  {
    var t' := SetBlocked(t, id, flag);
    assert forall k :: k in t' ==> k in t && t'[k].email == t[k].email && t'[k].username == t[k].username;
    var found := FindByEmail(t, email);
    if found.Some? {
      assert t'[found.value].email == email;
    } else {
      assert !EmailRegistered(t', email);
    }
  }

  /** Unblock after block on an active user gives back the original table,
      and block after unblock on a blocked one does too. */
  lemma UnblockUndoesBlock(t: Table, id: UserId)
    requires id in t
    ensures !t[id].isBlocked ==> SetBlocked(SetBlocked(t, id, true), id, false) == t
    ensures t[id].isBlocked ==> SetBlocked(SetBlocked(t, id, false), id, true) == t
  {
  }

  /** Blocking an active user adds exactly that user to the blocked set;
      unblocking a blocked one removes exactly that user. */
  lemma BlockedIdsAfterTransition(t: Table, id: UserId)
    requires id in t
    ensures !t[id].isBlocked ==>
      BlockedIds(SetBlocked(t, id, true)) == BlockedIds(t) + {id}
      && |BlockedIds(SetBlocked(t, id, true))| == |BlockedIds(t)| + 1
    ensures t[id].isBlocked ==>
      BlockedIds(SetBlocked(t, id, false)) == BlockedIds(t) - {id}
      && |BlockedIds(SetBlocked(t, id, false))| == |BlockedIds(t)| - 1
  {
    if !t[id].isBlocked {
      var after := BlockedIds(SetBlocked(t, id, true));
      assert after == BlockedIds(t) + {id};
      assert id !in BlockedIds(t);
    } else {
      var after := BlockedIds(SetBlocked(t, id, false));
      assert after == BlockedIds(t) - {id};
      assert id in BlockedIds(t);
    }
  }

  /** After a successful block the listing answers 302 and contains the user. */
  lemma ListBlockedAfterBlock(t: Table, id: UserId)
    requires id in t && !t[id].isBlocked
    ensures ListBlocked(SetBlocked(t, id, true)).Status() == 302
    ensures id in ListBlocked(SetBlocked(t, id, true)).data
    ensures ListBlocked(SetBlocked(t, id, true)).data[id] == UserSummary(t[id].email, t[id].username)
  {
    BlockedIdsAfterTransition(t, id);
  }

  /** Unblocking the only blocked user turns the listing into the explicit
      empty-result answer. */
  lemma ListBlockedAfterLastUnblock(t: Table, id: UserId)
    requires id in t && BlockedIds(t) == {id}
    ensures ListBlocked(SetBlocked(t, id, false)) == NoBlockedUsers(NoBlockedUsersMessage)
    ensures ListBlocked(SetBlocked(t, id, false)).Status() == 204
  {
    BlockedIdsAfterTransition(t, id);
  }

  /** Block then unblock through the views on the same email: if the block
      succeeds the unblock succeeds too and the table is as before. */
  method BlockThenUnblock(store: UserStore, email: string) returns (blocked: FlagOutcome, unblocked: FlagOutcome)
    requires store.Valid()
    modifies store
    ensures store.Valid()
    ensures blocked.FlagChanged? ==> unblocked == FlagChanged(UnblockedMessage) && store.users == old(store.users)
  {
    ghost var before := store.users;
    blocked := store.Block(Accepted(email));
    if blocked.FlagChanged? {
      var id := FindByEmail(before, email).value;
      FindByEmailIgnoresFlags(before, id, true, email);
      UnblockUndoesBlock(before, id);
    }
    unblocked := store.Unblock(Accepted(email));
  }

  // ---------------------------------------------------------------------
  // Login over a store-backed authenticate
  // ---------------------------------------------------------------------

  /** The model backend's `authenticate` over a table: the user with the
      given username, provided `verify` accepts the password against the
      stored credential. */
  ghost function BackendAuthenticate(t: Table, verify: (string, Credential) -> bool,
                                     username: Option<string>, password: Option<string>): AuthOutcome
  {
    if username.Some? && password.Some? && UsernameTaken(t, username.value) then
      var id :| id in t && t[id].username == username.value;
      if verify(password.value, t[id].credential) then Authenticated(id, t[id]) else NoUser
    else
      NoUser
  }

  ghost function Backend(t: Table, verify: (string, Credential) -> bool): (Option<string>, Option<string>) -> AuthOutcome
  {
    (username, password) => BackendAuthenticate(t, verify, username, password)
  }

  /** With unique usernames the backend authenticates exactly the owner of
      the username, and only when the password verifies. */
  lemma BackendFindsOwner(t: Table, verify: (string, Credential) -> bool, id: UserId, password: string)
    requires UniqueUsernames(t) && id in t
    ensures BackendAuthenticate(t, verify, Some(t[id].username), Some(password))
      == if verify(password, t[id].credential) then Authenticated(id, t[id]) else NoUser
  {
    assert UsernameTaken(t, t[id].username);
  }

  /** Blocking a user turns that user's correct-credential login into 403,
      and unblocking turns it back into 200 with a token for that user that
      is accepted for one minute. */
  lemma LoginFollowsBlockFlag(t: Table, verify: (string, Credential) -> bool,
                                                 id: UserId, password: string, now: int)
    requires UniqueUsernames(t) && id in t && verify(password, t[id].credential)
    ensures Login(Backend(SetBlocked(t, id, true), verify), Some(t[id].username), Some(password), now)
      == LoginForbidden(BlockedLoginMessage)
    ensures Login(Backend(SetBlocked(t, id, false), verify), Some(t[id].username), Some(password), now)
      == LoginIssued(Token(id, AccessKind, now + TokenExpireMinutes * SecondsPerMinute))
    ensures AcceptedAsBearer(SetBlocked(t, id, false), Token(id, AccessKind, now + TokenExpireMinutes * SecondsPerMinute),
                             now + TokenExpireMinutes * SecondsPerMinute - 1)
    ensures !AcceptedAsBearer(SetBlocked(t, id, false), Token(id, AccessKind, now + TokenExpireMinutes * SecondsPerMinute),
                              now + TokenExpireMinutes * SecondsPerMinute)
  {
    BackendFindsOwner(SetBlocked(t, id, true), verify, id, password);
    BackendFindsOwner(SetBlocked(t, id, false), verify, id, password);
  }

  /** Login never discloses a block flag to a caller without the right
      credentials: flipping any user's flag leaves every failed login
      failing with the same answer, and keeps every successful
      authentication successful. */
  lemma FailedLoginIgnoresBlockFlags(t: Table, verify: (string, Credential) -> bool,
                                                        id: UserId, flag: bool,
                                                        username: Option<string>, password: Option<string>, now: int)
    requires UniqueUsernames(t) && id in t
    ensures Login(Backend(t, verify), username, password, now).LoginInvalid?
      <==> Login(Backend(SetBlocked(t, id, flag), verify), username, password, now).LoginInvalid?
    ensures Login(Backend(t, verify), username, password, now).LoginInvalid? ==>
      Login(Backend(SetBlocked(t, id, flag), verify), username, password, now) == LoginInvalid(InvalidCredentialsMessage)
  {
    var t' := SetBlocked(t, id, flag);
    assert forall k :: k in t' ==> k in t && t'[k].username == t[k].username && t'[k].credential == t[k].credential;
    if username.Some? && password.Some? && UsernameTaken(t, username.value) {
      var owner :| owner in t && t[owner].username == username.value;
      BackendFindsOwner(t, verify, owner, password.value);
      assert UniqueUsernames(t');
      BackendFindsOwner(t', verify, owner, password.value);
    } else {
      assert !(username.Some? && password.Some? && UsernameTaken(t', username.value));
    }
  }

  /** After a user is deleted, a login with that user's username fails as
      invalid credentials whatever the password, and no token issued for
      that user is accepted any more. */
  lemma LoginAfterDeleteIsInvalid(t: Table, verify: (string, Credential) -> bool,
                                                     id: UserId, password: Option<string>, now: int)
    requires UniqueUsernames(t) && id in t
    ensures Login(Backend(t - {id}, verify), Some(t[id].username), password, now) == LoginInvalid(InvalidCredentialsMessage)
    ensures forall tok: Token, later :: tok.subject == id ==> !AcceptedAsBearer(t - {id}, tok, later)
  {
    assert !UsernameTaken(t - {id}, t[id].username);
  }

  // ---------------------------------------------------------------------
  // Signup
  // ---------------------------------------------------------------------

  /** A rejected insertion is attributed to the username when the username
      is taken, else to the email, and never gets the generic message. */
  lemma SignupConflictAttribution(t: Table, username: string, email: string)
    requires StoreViolation(t, username, email).Some?
    ensures var message := ConflictMessage(StoreViolation(t, username, email).value);
      && (message == UsernameExistsMessage <==> UsernameTaken(t, username))
      && (message == EmailExistsMessage <==> !UsernameTaken(t, username) && EmailRegistered(t, email))
      && message != RegistrationFailedMessage
  {
  }

  /** Deleting the record a signup inserted gives back the table before the
      signup. */
  lemma DeleteUndoesSignup(t: Table, id: UserId, req: SignupRequest, manager: UserManager)
    requires id !in t
    ensures t[id := NewUser(req, manager)] - {id} == t
  {
  }

  /** A user who has just signed up can log in with the same password and
      the username as stored: the login issues a token for the new primary
      key. */
  lemma LoginAfterSignup(t: Table, id: UserId, req: SignupRequest, manager: UserManager,
                         verify: (string, Credential) -> bool, now: int)
    requires UniqueUsernames(t) && id !in t
    requires StoreViolation(t, NewUser(req, manager).username, NewUser(req, manager).email).None?
    requires verify(req.password, PasswordHash(manager.hash(req.password)))
    ensures Login(Backend(t[id := NewUser(req, manager)], verify), Some(NewUser(req, manager).username), Some(req.password), now)
      == LoginIssued(Token(id, AccessKind, now + TokenExpireMinutes * SecondsPerMinute))
  {
    var t' := t[id := NewUser(req, manager)];
    assert UniqueUsernames(t');
    BackendFindsOwner(t', verify, id, req.password);
  }

  /** The login credential as written is a refresh token, which the bearer
      check never accepts; the corrected login's credential is accepted
      until it expires while its user exists. */
  lemma LoginCredentialKinds(t: Table, authenticate: (Option<string>, Option<string>) -> AuthOutcome,
                             username: Option<string>, password: Option<string>, now: int)
    requires authenticate(username, password).Authenticated?
    requires authenticate(username, password).id in t
    requires !authenticate(username, password).user.isBlocked
    ensures LoginAsWritten(authenticate, username, password, now).LoginIssued?
    ensures !AcceptedAsBearer(t, LoginAsWritten(authenticate, username, password, now).access, now)
    ensures AcceptedAsBearer(t, Login(authenticate, username, password, now).access, now)
  {
  }

  /** Signup then delete of the new key through the views: if the signup
      succeeds the delete answers 204 and the table is as before. */
  method SignupThenDelete(store: UserStore, req: SignupRequest, manager: UserManager, now: int, accessLifetime: nat)
    returns (signup: SignupOutcome, delete: DeleteOutcome)
    requires store.Valid()
    modifies store
    ensures store.Valid()
    ensures signup.SignupCreated? ==> delete.Status() == 204 && store.users == old(store.users)
  {
    ghost var before := store.users;
    signup := store.Signup(Accepted(req), manager, now, accessLifetime);
    if signup.SignupCreated? {
      DeleteUndoesSignup(before, signup.access.subject, req, manager);
      delete := store.Delete(signup.access.subject);
    } else {
      delete := UserNotFound(UserNotFoundMessage);
    }
  }

  /** The walk-through of signing up, logging in, being blocked and logging
      in again: 201, 200, 200, then 403. Login uses the username as stored
      and block the email as stored. */
  method SignupLoginBlockLogin(store: UserStore, req: SignupRequest, manager: UserManager,
                               verify: (string, Credential) -> bool, now: int, accessLifetime: nat)
    returns (signup: SignupOutcome, ghost firstLogin: LoginOutcome, block: FlagOutcome, ghost secondLogin: LoginOutcome)
    requires store.Valid()
    requires !UsernameTaken(store.users, NewUser(req, manager).username)
    requires !EmailRegistered(store.users, NewUser(req, manager).email)
    requires verify(req.password, PasswordHash(manager.hash(req.password)))
    modifies store
    ensures store.Valid()
    ensures signup.Status() == 201 && firstLogin.Status() == 200
    ensures block.Status() == 200 && secondLogin.Status() == 403
  {
    ghost var before := store.users;
    var u := NewUser(req, manager);
    signup := store.Signup(Accepted(req), manager, now, accessLifetime);
    var id := signup.access.subject;
    LoginAfterSignup(before, id, req, manager, verify, now);
    firstLogin := Login(Backend(store.users, verify), Some(u.username), Some(req.password), now);
    ghost var mid := store.users;
    assert mid[id].email == u.email;
    block := store.Block(Accepted(u.email));
    LoginFollowsBlockFlag(mid, verify, id, req.password, now);
    secondLogin := Login(Backend(store.users, verify), Some(u.username), Some(req.password), now);
  }
}
