# Account gating of the django_auth API, modelled in Dafny

The django_auth API (`Section-2-project/django_auth/api/views.py`) is a small
user-account service: signup, login with a short-lived JWT, deletion by primary
key, admin-style blocking and unblocking by email, and a listing of blocked users.
This project models the decisions those views make over the user table and proves
what they promise.

- `accounts.dfy` (module `Accounts`): the user record (username, email, stored
  password hash, `isBlocked`), the table as a `map` from primary key to record, the
  unique constraints on usernames and emails, the lookup by email
  (`User.objects.get(email=...)`), the block-flag update, and the JWT reduced to its
  subject, token type and `exp` claim (section 4.1.4 of RFC 7519), with the bearer
  check the JWT authentication class applies under its default settings: an
  access-type token, not yet expired, whose user is still in the table.
- `views.dfy` (module `Views`): class `UserStore` holds the table and the next
  primary key. Its methods `Signup`, `Delete`, `Block` and `Unblock` update the table
  in place, as the views do with `serializer.save()`, `user.delete()` and
  `is_blocked = ...; save()`. `Login` and `ListBlocked` are functions because those
  views only read. Every response is a datatype with a `Status()` giving its HTTP
  code and carrying the view's exact message text.
- `properties.dfy` (module `Properties`): lemmas that relate the operations. They
  cover the block/unblock round trip and what a transition changes. They cover the
  listing after a transition, and login after signup, block, unblock and delete. A
  store-backed `authenticate` is used for those, and three client methods call the
  views in sequence.

Collaborators are parameters:
- The serializer's `is_valid()` is a `Validated<T>` argument: the validated data, or
  the error list.
- `authenticate` is an arrow `(Option<string>, Option<string>) -> AuthOutcome`: a
  user, no user, or an exception.
- `create_user`'s collaborators form a `UserManager` value: the manager's
  username normalization, its email normalization and the password hasher, each an
  arrow `string -> string`. The unique constraints and later lookups see the
  normalized strings.
- The current time `now` is a parameter, in seconds.
- The access-token lifetime used at signup comes from settings that are not part of
  this model, so it is the parameter `accessLifetime`.

The default of `is_blocked` for a new user is taken to be false. The uniqueness of
emails is assumed, as the signup view's email branch expects. The models file is
not part of this model.

## Model

| member | source | states |
|---|---|---|
| `Accounts.FindByEmail` | Section-2-project/django_auth/api/views.py:139-146 | Finds nothing exactly when no user has the email (the `DoesNotExist` path); otherwise it returns the one user whose email it is. |
| `Accounts.SetBlocked` | Section-2-project/django_auth/api/views.py:142-143 | The saved flag update keeps the same keys and sets the target's flag. Every other field of the target and every other record stay as they were. The record changes exactly when the flag had the other value. |
| `Views.NewUser` | Section-2-project/django_auth/api/serializers.py:18-24 | `create_user` stores the normalized username and email and the hashed password, and the new user is not blocked. |
| `Views.ConflictMessage` | Section-2-project/django_auth/api/views.py:56-61 | The username message is chosen exactly when the error names the username. The email message is chosen exactly when it names the email and not the username, and the generic message exactly when it names neither. |
| `Views.StoreViolation` | Section-2-project/django_auth/api/views.py:50-54 | The store rejects an insertion exactly when the username or the email is already taken. The error names the username when the username is taken, and names exactly one column. |
| `Views.UserStore.Signup` | Section-2-project/django_auth/api/views.py:45-65 | An invalid request returns the serializer errors (400) and inserts nothing. A constraint failure returns the message chosen from the error (400) and inserts nothing. Otherwise exactly one record is inserted under a fresh key: the record `create_user` builds, with normalized username and email, hashed password, not blocked. Constraint checks use the normalized strings. The answer is 201 with an access token for that key. The unique constraints are kept. |
| `Views.UserStore.Delete` | Section-2-project/django_auth/api/views.py:121-128 | An absent key gives 404 "User not found" and leaves the table unchanged. A present key gives 204 and removes exactly that key. |
| `Views.UserStore.Block` | Section-2-project/django_auth/api/views.py:131-146 | Serializer errors give 400. An unknown email gives "does not exist" and an already-blocked user gives "already blocked"; both leave the table unchanged. Otherwise only that user's flag is set to true, with "User blocked successfully.". |
| `Views.UserStore.Unblock` | Section-2-project/django_auth/api/views.py:148-163 | Serializer errors give 400. An unknown email gives "does not exist" and an active user gives "not blocked"; both leave the table unchanged. Otherwise only that user's flag is cleared, with "User unblocked successfully.". |
| `Views.Login` | Section-2-project/django_auth/api/views.py:83-107 | Gives 400 "Invalid Credentials" exactly when authentication yields no user or raises, whatever any flag says. Gives 403 "User is blocked. Please contact support." exactly when the authenticated user is blocked. Otherwise gives 200 with a token for that user. While the user stays in the table, the token is accepted from now until `token_expire_minutes` = 1 minute later. |
| `Views.LoginAsWritten` | Section-2-project/django_auth/api/views.py:101-106 | The credential the code issues is a refresh-type token, and the bearer check never accepts it (see Findings). |
| `Views.ListBlocked` | Section-2-project/django_auth/api/views.py:166-177 | Gives 302 with exactly the blocked users, each rendered as email and username, when there are any. Otherwise gives 204 with "There are no blocked users". |
| `Properties.FindByEmailIgnoresFlags` | Section-2-project/django_auth/api/views.py:139-144 | A flag change keeps the unique constraints and does not change which user an email lookup finds. |
| `Properties.UnblockUndoesBlock` | Section-2-project/django_auth/api/views.py:155-161 | Unblock after block on an active user restores the table. Block after unblock on a blocked user does too. |
| `Properties.BlockedIdsAfterTransition` | Section-2-project/django_auth/api/views.py:140-160 | Block adds exactly the target to the blocked set, which grows by one. Unblock removes exactly the target, and the set shrinks by one. |
| `Properties.ListBlockedAfterBlock` | Section-2-project/django_auth/api/views.py:172-176 | After a successful block the listing answers 302 and shows the user. |
| `Properties.ListBlockedAfterLastUnblock` | Section-2-project/django_auth/api/views.py:172-177 | Unblocking the only blocked user turns the listing into the 204 empty-result answer. |
| `Properties.BlockThenUnblock` | Section-2-project/django_auth/api/views.py:131-163 | Calls `Block` and then `Unblock` on the store. If the block succeeds, the unblock of the same email succeeds and the table is as before. |
| `Properties.BackendFindsOwner` | Section-2-project/django_auth/api/views.py:92 | Usernames are unique, so the store-backed `authenticate` yields the owner of the username when the password verifies, and nothing otherwise. |
| `Properties.LoginFollowsBlockFlag` | Section-2-project/django_auth/api/views.py:96-106 | With correct credentials, login is 403 once the user is blocked. After unblock it is 200 with a token for that user. The token is accepted one second before its minute is up and refused when it is up. |
| `Properties.FailedLoginIgnoresBlockFlags` | Section-2-project/django_auth/api/views.py:91-107 | Flipping any user's block flag does not change whether a login is 400. A failed login stays "Invalid Credentials", so flags are revealed only to correct credentials. |
| `Properties.LoginAfterDeleteIsInvalid` | Section-2-project/django_auth/api/views.py:122-127 | After a user is deleted, a login with that username is "Invalid Credentials" whatever the password, and no token for that user is accepted any more. |
| `Properties.SignupConflictAttribution` | Section-2-project/django_auth/api/views.py:54-62 | A store rejection gets the username message exactly when the username is taken. It gets the email message exactly when only the email is taken, and never the generic message. |
| `Properties.DeleteUndoesSignup` | Section-2-project/django_auth/api/views.py:127 | Deleting the record a signup inserted gives back the table before the signup. |
| `Properties.LoginAfterSignup` | Section-2-project/django_auth/api/views.py:49-53 | After a successful signup, login with the stored username and the same password issues a token for the new key. |
| `Properties.SignupThenDelete` | Section-2-project/django_auth/api/views.py:45-128 | Calls `Signup` and then `Delete` of the new key on the store. If the signup succeeds, the delete answers 204 and the table is as before. |
| `Properties.LoginCredentialKinds` | Section-2-project/django_auth/api/views.py:102-103 | For an authenticated active user who is in the table, the login credential as written is refused by the bearer check. The corrected one is accepted. |
| `Properties.SignupLoginBlockLogin` | Section-2-project/django_auth/api/views.py:45-146 | A fresh signup answers 201. Login with the stored username then answers 200, block by the stored email answers 200, and login again answers 403. |

## Findings

| source | as written | input that shows it | evidently intended | confidence | as-written member | corrected member |
|---|---|---|---|---|---|---|
| Section-2-project/django_auth/api/views.py:102-106 | The login view builds `RefreshToken.for_user(user)`, shortens its expiry to one minute and returns it under the key `'access'`. | Any login of an authenticated user who is not blocked. The returned token's type claim is "refresh". The JWT authentication class accepts only access-type tokens by default, so `LoginCredentialKinds` shows the credential is refused at every time. | An access token for the user with a one-minute lifetime, as the variable name, the response key and the comment say, and as signup issues at lines 52-53. | medium: depends on the JWT library's default token classes, whose settings are not part of this model; not executed | `Views.LoginAsWritten` | `Views.Login` |

The lemmas and client methods use the corrected `Login`.

## Left out

- Persistence is an in-memory map. The ORM, `save()` and transactions are left out. Concurrent requests racing on the unique constraints are left out too.
- `authenticate`, password hashing and verification, and `validate_password` are parameters. `BackendAuthenticate` is a store-backed instance used only by the lemmas. It ignores the `is_active` check of the model backend.
- Serializer validation, including email format, required fields and the uniqueness validators a model serializer may derive, is the `Validated` argument.
- Accounts.AcceptedAsBearer: the bearer check's refusal of inactive users is not modelled, because the table has no `is_active` field.
- Username and email normalization are parameters of `UserManager`. Their definitions (NFKC, lower-casing the email domain) are not modelled.
- JWT construction, signing and serialisation are left out. A token is its subject, type and `exp`; `iat`, `jti` and the refresh token of signup are not modelled.
- Views.UserStore.Signup: the branch at lines 63-64 (a `ValidationError` raised by `save()`) is not modelled. The user serializer's `create` runs no validators, so the store here raises only integrity errors.
- Views.UserStore.Signup: the generic registration message is reachable only from integrity errors that name neither column. The in-memory store raises none of those. `ConflictMessage` still chooses it, and `SignupConflictAttribution` states when it is not chosen.
- Views.StoreViolation: when username and email both collide, which constraint a database reports first is the database's choice. The model reports the username constraint.
- Views.ListBlocked: the listing is a map from primary key to the serializer's fields, so the order of the queryset is not modelled. The empty-result body is a one-element set in the code, and the model keeps it as its message.
- Views.UserStore.Signup: a failed insertion does not consume a primary key in the model. Whether it does in a database depends on that database.
- Email lookups compare exactly. Case rules of a database collation are not modelled.
- The token-authentication signup and login views inside string literals at lines 24-42 and 68-80 are dead code and are left out. `UserListView`, `RootView`, routing, logging and response marshalling beyond status and message are left out too.
