/** The user table that the authentication views read and update: the user
    record, the uniqueness the store enforces on usernames and emails, the
    lookup by email, and the signed credential reduced to its subject, its
    kind and its expiry. */
module Accounts {

  datatype Option<T> = None | Some(value: T)

  /** Primary key the store assigns to a user. */
  type UserId = int

  /** The salted password hash as stored; hashing and verifying are foreign. */
  datatype Credential = PasswordHash(digest: string)

  datatype User = User(username: string, email: string, credential: Credential, isBlocked: bool)

  /** The user table, keyed by primary key. */
  type Table = map<UserId, User>

  /** One entry of a serializer's error report. */
  datatype FieldError = FieldError(field: string, message: string)

  /** What a serializer's `is_valid()` decides: the validated data, or the errors. */
  datatype Validated<T> = Accepted(data: T) | Rejected(errors: seq<FieldError>)

  /** A JWT reduced to what the views decide: the user it is bound to, its
      token type claim and its `exp` claim (section 4.1.4 of RFC 7519), in
      seconds. */
  datatype TokenKind = AccessKind | RefreshKind
  datatype Token = Token(subject: UserId, kind: TokenKind, exp: int)

  /** The bearer check of the JWT authentication class under its default
      settings: only access-type tokens are accepted, only strictly before
      their expiry, and only while the user they name is still in the table.
      The check's refusal of inactive users is not modelled. */
  predicate AcceptedAsBearer(t: Table, tok: Token, now: int)
  {
    tok.kind == AccessKind && now < tok.exp && tok.subject in t
  }

  ghost predicate UniqueUsernames(t: Table)
  {
    forall i, j :: i in t && j in t && t[i].username == t[j].username ==> i == j
  }

  ghost predicate UniqueEmails(t: Table)
  {
    forall i, j :: i in t && j in t && t[i].email == t[j].email ==> i == j
  }

  /** The unique constraints of the user table. */
  ghost predicate WellFormed(t: Table)
  {
    UniqueUsernames(t) && UniqueEmails(t)
  }

  predicate UsernameTaken(t: Table, username: string)
  {
    exists id :: id in t && t[id].username == username
  }

  predicate EmailRegistered(t: Table, email: string)
  {
    exists id :: id in t && t[id].email == email
  }

  /** `User.objects.get(email=...)`: the one user with this email, or None
      where the store raises `DoesNotExist`. The unique constraint on emails
      rules out the multiple-results case. */
  function FindByEmail(t: Table, email: string): (r: Option<UserId>)
    requires UniqueEmails(t)
    ensures r.None? <==> !EmailRegistered(t, email)
    ensures forall id :: id in t && t[id].email == email ==> r == Some(id)
    ensures r.Some? ==> r.value in t && t[r.value].email == email
  {
    if EmailRegistered(t, email) then
      var id :| id in t && t[id].email == email;
      Some(id)
    else
      None
  }

  /** The table after the block flag of user `id` is set to `flag` and
      saved: the same keys, that user's flag equal to `flag`, every other
      field of that user and every other record as before. */
  function SetBlocked(t: Table, id: UserId, flag: bool): (r: Table)
    requires id in t
    ensures r.Keys == t.Keys
    ensures r[id].isBlocked == flag
    ensures r[id].(isBlocked := t[id].isBlocked) == t[id]
    ensures r[id] != t[id] <==> t[id].isBlocked != flag
    ensures forall other :: other in t && other != id ==> r[other] == t[other]
  {
    t[id := t[id].(isBlocked := flag)]
  }

  /** The primary keys of the users whose block flag is set. */
  function BlockedIds(t: Table): set<UserId>
  {
    set id | id in t && t[id].isBlocked
  }
}
