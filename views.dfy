/** The account views: signup, login, delete, block, unblock and the listing
    of blocked users, over a user table that the mutating views update in
    place. */
module Views {
  import opened Accounts

  /** Lifetime of the credential issued at login, in minutes. */
  const TokenExpireMinutes: nat := 1
  const SecondsPerMinute: nat := 60

  const UsernameExistsMessage := "Username already exists. Choose a different username."
  const EmailExistsMessage := "Email already exists. Use a different email address."
  const RegistrationFailedMessage := "An error occurred during registration. Please try again later."
  const InvalidCredentialsMessage := "Invalid Credentials"
  const BlockedLoginMessage := "User is blocked. Please contact support."
  const UserNotFoundMessage := "User not found"
  const UserDeletedMessage := "User deleted successfully"
  const NoSuchEmailMessage := "User with this email does not exist."
  const AlreadyBlockedMessage := "User with this email is already blocked."
  const NotBlockedMessage := "User with this email is not blocked."
  const BlockedMessage := "User blocked successfully."
  const UnblockedMessage := "User unblocked successfully."
  const NoBlockedUsersMessage := "There are no blocked users"

  /** The fields a signup request carries. */
  datatype SignupRequest = SignupRequest(username: string, email: string, password: string)

  /** A unique-constraint failure of the store, reduced to whether its text
      names the username column and whether it names the email column. */
  datatype IntegrityError = IntegrityError(mentionsUsername: bool, mentionsEmail: bool)

  datatype SignupOutcome =
    | SignupCreated(access: Token)
    | SignupInvalid(errors: seq<FieldError>)
    | SignupConflict(error: string)
  {
    function Status(): int
    {
      if SignupCreated? then 201 else 400
    }
  }

  /** What `authenticate` does: yields a user (the record it loaded from the
      store), yields nothing, or raises. */
  datatype AuthOutcome = Authenticated(id: UserId, user: User) | NoUser | Raised

  datatype LoginOutcome =
    | LoginIssued(access: Token)
    | LoginInvalid(error: string)
    | LoginForbidden(error: string)
  {
    function Status(): int
    {
      match this
      case LoginIssued(_) => 200
      case LoginInvalid(_) => 400
      case LoginForbidden(_) => 403
    }
  }

  datatype DeleteOutcome = UserDeleted(message: string) | UserNotFound(error: string)
  {
    function Status(): int
    {
      if UserDeleted? then 204 else 404
    }
  }

  /** Outcome of block and unblock: the flag flipped, the serializer
      rejected the request, or the view raised a validation error. */
  datatype FlagOutcome =
    | FlagChanged(message: string)
    | FlagRejected(errors: seq<FieldError>)
    | FlagRefused(error: string)
  {
    function Status(): int
    {
      if FlagChanged? then 200 else 400
    }
  }

  /** The fields the user serializer outputs (the password is write-only). */
  datatype UserSummary = UserSummary(email: string, username: string)

  datatype BlockedListing =
    | BlockedFound(data: map<UserId, UserSummary>)
    | NoBlockedUsers(message: string)
  {
    function Status(): int
    {
      if BlockedFound? then 302 else 204
    }
  }

  /** What `create_user` relies on: the user manager's normalization of
      usernames and of emails, and the password hasher. */
  datatype UserManager = UserManager(normalizeUsername: string -> string,
                                     normalizeEmail: string -> string,
                                     hash: string -> string)

  /** The record `create_user` stores: username and email normalized, the
      password hashed, and the block flag at its default, false. */
  function NewUser(req: SignupRequest, manager: UserManager): (u: User)
    ensures u.username == manager.normalizeUsername(req.username)
    ensures u.email == manager.normalizeEmail(req.email)
    ensures u.credential == PasswordHash(manager.hash(req.password))
    ensures !u.isBlocked
  {
    User(manager.normalizeUsername(req.username), manager.normalizeEmail(req.email),
         PasswordHash(manager.hash(req.password)), false)
  }

  /** The unique-constraint failure inserting a user with these fields would
      raise; of two violated constraints the username one is reported. */
  function StoreViolation(t: Table, username: string, email: string): (r: Option<IntegrityError>)
    ensures r.None? <==> !UsernameTaken(t, username) && !EmailRegistered(t, email)
    ensures r.Some? ==> r.value.mentionsUsername == UsernameTaken(t, username)
    ensures r.Some? ==> r.value.mentionsEmail != r.value.mentionsUsername
  {
    if UsernameTaken(t, username) then Some(IntegrityError(true, false))
    else if EmailRegistered(t, email) then Some(IntegrityError(false, true))
    else None
  }

  /** The message the signup view picks for an integrity error: the
      username message if the error text names the username, else the email
      message if it names the email, else the generic one. */
  function ConflictMessage(e: IntegrityError): (message: string)
    ensures message == UsernameExistsMessage <==> e.mentionsUsername
    ensures message == EmailExistsMessage <==> !e.mentionsUsername && e.mentionsEmail
    ensures message == RegistrationFailedMessage <==> !e.mentionsUsername && !e.mentionsEmail
  {
    if e.mentionsUsername then UsernameExistsMessage
    else if e.mentionsEmail then EmailExistsMessage
    else RegistrationFailedMessage
  }

  /** The user table shared by all requests. */
  class UserStore {
    var users: Table
    /** The next primary key the store hands out. */
    var nextId: UserId

    ghost predicate Valid()
      reads this
    {
      WellFormed(users) && 0 < nextId && forall id :: id in users ==> 0 < id < nextId
    }

    constructor ()
      ensures Valid() && users == map[] && nextId == 1
    {
      users := map[];
      nextId := 1;
    }

    /** `SignupAPIView.post`: validate, insert the record `create_user`
        builds, and answer with an access token for the new user; a rejected
        request or a unique-constraint failure on the normalized username or
        email inserts nothing. */
    method Signup(verdict: Validated<SignupRequest>, manager: UserManager, now: int, accessLifetime: nat)
      returns (r: SignupOutcome)
      requires Valid()
      modifies this
      ensures Valid()
      ensures verdict.Rejected? ==> r == SignupInvalid(verdict.errors)
      ensures verdict.Accepted? ==>
        var u := NewUser(verdict.data, manager);
        var violation := StoreViolation(old(users), u.username, u.email);
        violation.Some? ==> r == SignupConflict(ConflictMessage(violation.value))
      ensures r.SignupCreated? <==>
        && verdict.Accepted?
        && StoreViolation(old(users), NewUser(verdict.data, manager).username, NewUser(verdict.data, manager).email).None?
      ensures !r.SignupCreated? ==> users == old(users) && nextId == old(nextId)
      ensures r.SignupCreated? ==>
        && old(nextId) !in old(users)
        && users == old(users)[old(nextId) := NewUser(verdict.data, manager)]
        && |users| == |old(users)| + 1
        && nextId == old(nextId) + 1
        && r.access == Token(old(nextId), AccessKind, now + accessLifetime)
    {
      match verdict
      case Rejected(errors) =>
        r := SignupInvalid(errors);
      case Accepted(req) =>
        var u := NewUser(req, manager);
        var violation := StoreViolation(users, u.username, u.email);
        if violation.Some? {
          r := SignupConflict(ConflictMessage(violation.value));
        } else {
          var id := nextId;
          users := users[id := u];
          nextId := nextId + 1;
          r := SignupCreated(Token(id, AccessKind, now + accessLifetime));
        }
    }

    /** `DeleteUserView.delete`: remove the user with this primary key. */
    method Delete(userId: UserId) returns (r: DeleteOutcome)
      requires Valid()
      modifies this`users
      ensures Valid()
      ensures userId !in old(users) ==> r == UserNotFound(UserNotFoundMessage) && users == old(users)
      ensures userId in old(users) ==> r == UserDeleted(UserDeletedMessage) && users == old(users) - {userId}
    {
      if userId !in users {
        r := UserNotFound(UserNotFoundMessage);
      } else {
        users := users - {userId};
        r := UserDeleted(UserDeletedMessage);
      }
    }

    /** `BlockUserView.post`: the active-to-blocked transition of the user
        with the validated email. */
    method Block(verdict: Validated<string>) returns (r: FlagOutcome)
      requires Valid()
      modifies this`users
      ensures Valid()
      ensures verdict.Rejected? ==> r == FlagRejected(verdict.errors) && users == old(users)
      ensures verdict.Accepted? && FindByEmail(old(users), verdict.data).None? ==>
        r == FlagRefused(NoSuchEmailMessage) && users == old(users)
      ensures verdict.Accepted? && FindByEmail(old(users), verdict.data).Some? ==>
        var id := FindByEmail(old(users), verdict.data).value;
        if old(users)[id].isBlocked then
          r == FlagRefused(AlreadyBlockedMessage) && users == old(users)
        else
          r == FlagChanged(BlockedMessage) && users == SetBlocked(old(users), id, true)
    {
      match verdict
      case Rejected(errors) =>
        r := FlagRejected(errors);
      case Accepted(email) =>
        var found := FindByEmail(users, email);
        if found.None? {
          r := FlagRefused(NoSuchEmailMessage);
        } else if users[found.value].isBlocked {
          r := FlagRefused(AlreadyBlockedMessage);
        } else {
          users := SetBlocked(users, found.value, true);
          r := FlagChanged(BlockedMessage);
        }
    }

    /** `UnblockUserView.post`: the blocked-to-active transition of the
        user with the validated email. */
    method Unblock(verdict: Validated<string>) returns (r: FlagOutcome)
      requires Valid()
      modifies this`users
      ensures Valid()
      ensures verdict.Rejected? ==> r == FlagRejected(verdict.errors) && users == old(users)
      ensures verdict.Accepted? && FindByEmail(old(users), verdict.data).None? ==>
        r == FlagRefused(NoSuchEmailMessage) && users == old(users)
      ensures verdict.Accepted? && FindByEmail(old(users), verdict.data).Some? ==>
        var id := FindByEmail(old(users), verdict.data).value;
        if !old(users)[id].isBlocked then
          r == FlagRefused(NotBlockedMessage) && users == old(users)
        else
          r == FlagChanged(UnblockedMessage) && users == SetBlocked(old(users), id, false)
    {
      match verdict
      case Rejected(errors) =>
        r := FlagRejected(errors);
      case Accepted(email) =>
        var found := FindByEmail(users, email);
        if found.None? {
          r := FlagRefused(NoSuchEmailMessage);
        } else if !users[found.value].isBlocked {
          r := FlagRefused(NotBlockedMessage);
        } else {
          users := SetBlocked(users, found.value, false);
          r := FlagChanged(UnblockedMessage);
        }
    }
  }

  /** The response of the login view to what `authenticate` yielded, with the
      credential it issues of type `kind`. */
  function LoginResponse(auth: AuthOutcome, kind: TokenKind, now: int): LoginOutcome
  {
    match auth
    case Authenticated(id, user) =>
      if user.isBlocked then LoginForbidden(BlockedLoginMessage)
      else LoginIssued(Token(id, kind, now + TokenExpireMinutes * SecondsPerMinute))
    case _ => LoginInvalid(InvalidCredentialsMessage)
  }

  /** `LoginAPIView.post`, issuing the access token its response promises
      (see `LoginAsWritten` for the token type the code actually issues). */
  function Login(authenticate: (Option<string>, Option<string>) -> AuthOutcome,
                 username: Option<string>, password: Option<string>, now: int): (r: LoginOutcome)
    ensures r.LoginInvalid? <==> !authenticate(username, password).Authenticated?
    ensures r.LoginInvalid? ==> r.error == InvalidCredentialsMessage
    ensures r.LoginForbidden? <==>
      authenticate(username, password).Authenticated? && authenticate(username, password).user.isBlocked
    ensures r.LoginForbidden? ==> r.error == BlockedLoginMessage
    ensures r.LoginIssued? ==>
      && r.access.subject == authenticate(username, password).id
      && forall t: Table, later :: now <= later && r.access.subject in t ==>
           (AcceptedAsBearer(t, r.access, later) <==> later < now + TokenExpireMinutes * SecondsPerMinute)
  {
    LoginResponse(authenticate(username, password), AccessKind, now)
  }

  /** `LoginAPIView.post` as written: the credential answered under the key
      'access' is a refresh token whose lifetime was shortened. */
  function LoginAsWritten(authenticate: (Option<string>, Option<string>) -> AuthOutcome,
                          username: Option<string>, password: Option<string>, now: int): (r: LoginOutcome)
    ensures r.LoginIssued? ==>
      && r.access.kind == RefreshKind
      && forall t: Table, later :: !AcceptedAsBearer(t, r.access, later)
  {
    LoginResponse(authenticate(username, password), RefreshKind, now)
  }

  /** `ListBlockedUsersAPIView.get`: the blocked users as the user serializer
      renders them, or the empty-result message. */
  function ListBlocked(t: Table): (r: BlockedListing)
    ensures r.NoBlockedUsers? <==> BlockedIds(t) == {}
    ensures r.NoBlockedUsers? ==> r.message == NoBlockedUsersMessage
    ensures r.BlockedFound? ==>
      && r.data.Keys == BlockedIds(t)
      && forall id :: id in r.data ==> r.data[id] == UserSummary(t[id].email, t[id].username)
  {
    var found := map id | id in t && t[id].isBlocked :: UserSummary(t[id].email, t[id].username);
    if found != map[] then BlockedFound(found) else NoBlockedUsers(NoBlockedUsersMessage)
  }
}
