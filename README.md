# Account verification and login of the koala-Mine user service

This project models, in Dafny, the account lifecycle of a small Django user
service: registration with a password confirmation, a four-digit one-time
code that is mailed to the user and expires after five minutes, email
verification with that code, re-sending the code, and login that hands out a
token only to verified accounts and reuses the same token on later logins.

The state is the three tables the services touch and the outgoing mail:

- `Store.Database` holds the user table (`users`, rows of `Accounts.User`, in
  insertion order, with the unique username and the auto-incremented key),
  the profile table (`profiles`, rows of `ProfileModel.ProfileRow`, whose
  primary key is their position) and the token table (`tokens`, a user's key
  to its token).
- `ProfileModel.Profile` is the model instance the services work on, as the
  ORM hands it out: `Database.CreateProfile` and `Database.Load` return a new
  instance holding a row's fields, the services update the instance's fields
  in place, and `Database.Save` (`profile.save()`) writes them back over the
  row.
- `Store.Mailer` records every verification mail as `Email(to, code)`.
- `Database.Valid()` is the invariant every service keeps, stated on the
  tables as a value (`Store.TablesValid`): unique usernames, user keys 1, 2,
  ... in insertion order (the auto-incremented key of a table nothing deletes
  from, so no two users share a key: `Store.KeysUnique`), each profile
  points at an existing user and holds a four-digit code with an expiry, no
  user has two profiles, and a token exists only for a user whose profile is
  verified. The lemmas `InsertUserKeepsValid`,
  `AddProfileKeepsValid`, `UpdateProfileKeepsValid` and `AddTokenKeepsValid`
  say which changes keep it; the services use them.

Modules follow the source files: `AuthSelectors` and `ProfileSelectors` are
the two selector files (pure lookups returning a `Result`), `ProfileModel` the
profile model, `ProfileServices` and `AuthServices` the two service files.
`Verification` holds code generation and the specification of one profile's
state machine (`Issue`, `Submit`, `Run`). `CodeService` holds
`setVerificationCode` of the authentication services; it is a module of its
own because the two service files import each other, which Dafny modules
cannot. `Accounts` stands for the web framework's user table, password hasher
and `authenticate`. `Scenarios` is a client that runs whole lifecycles from
the contracts alone (register twice, log in before and after verifying,
re-send and let a code expire).

Outside inputs are parameters: the clock is `now` (microseconds), the four
`random.randint(0, 9)` results are `draws`, and the new token key is
`freshKey`.

The model follows the code as written:

- every failure the services raise themselves is a REST framework
  `ValidationError` with the code's own field and message: a taken username
  gives "user with this username already exits", and an unverified login
  gives "please verify your profile";
- two other errors can come out of the lookups uncaught: the ORM's
  `MultipleObjectsReturned` from `GetUserProfile` when a user has two
  profiles, and a `TypeError` from `Submit` when a null expiry is compared
  with the current time. The services require and keep `Database.Valid()`,
  which holds from the empty database on, and under it no user has two
  profiles and every profile has an expiry, so the services never meet
  either error: a second profile arises only from a second call of
  `createUserProfile` for the same user, and a null expiry only inside
  registration, between the profile insert and the code's save;
- registration is not atomic;
- the profile's user is a foreign key, so nothing in the schema stops a
  second profile for a user;
- a password of exactly eight characters is accepted, although the message
  says "greater than 8";
- re-sending issues a new code even to a verified account.

## Model

| member | source | states |
|---|---|---|
| `Accounts.MakePassword` | authentication/services.py:32 | the stored password is an encoding of the plaintext, never the plaintext itself |
| `Accounts.MakePasswordInjective` | authentication/services.py:32 | two passwords with the same encoding are equal, so the encoding identifies the password |
| `Accounts.FindByUsername` | authentication/selectors.py:6 | finds a row exactly when some row has that username, and the row found has it |
| `Accounts.Authenticate` | authentication/services.py:79 | under the unique username constraint, credentials are accepted exactly when a row has that username and its stored password encodes the given one; the user returned is that row |
| `AuthSelectors.GetUserByUsername` | authentication/selectors.py:4-9 | returns a row with that username exactly when one exists, otherwise fails with "user with this username does not exit"; reads nothing else |
| `AuthSelectors.GetUserByEmail` | authentication/selectors.py:11-16 | matches the username column, not the email column: succeeds exactly when a row's username equals the email, otherwise fails with "user with this email does not exit" |
| `AuthSelectors.RegisteredUserFoundByEmail` | authentication/selectors.py:13 | a user whose username was set to its email is the user the email lookup returns |
| `ProfileModel.Profile.constructor` | userProfile/models.py:5-10 | an instance holds exactly the user and the fields of the row it stands for, under that row's key |
| `ProfileSelectors.ProfilesOf` | userProfile/selectors.py:6 | the keys of one user's rows: each names a row of that user and every row of that user is listed; empty exactly when the user has no profile, two or more exactly when two rows belong to the user |
| `ProfileSelectors.GetUserProfile` | userProfile/selectors.py:3-8 | looks up by the user's key only; succeeds exactly when exactly one profile belongs to the user and returns that row's key; fails with "profile does not exit" when none does and with the ORM's error when several do |
| `ProfileSelectors.OneProfileNeverShared` | userProfile/models.py:7 | while each user has at most one profile the lookup never reports several and succeeds exactly when the user has a profile |
| `ProfileSelectors.SecondProfileShared` | userProfile/models.py:7 | the foreign key does not stop a second profile for a user, and once there is one the lookup reports several |
| `ProfileSelectors.FirstProfileFound` | userProfile/selectors.py:6 | after the first profile of a user is inserted the lookup returns exactly that row |
| `ProfileSelectors.LookupIgnoresFields` | userProfile/selectors.py:6 | the lookup reads only the user column: two tables whose rows belong to the same users give the same result, so saving a profile never changes a lookup |
| `Verification.CodeOf` | authentication/services.py:42 | the code has one character per draw and its i-th character is the decimal digit of the i-th draw |
| `Verification.DigitsOfCodeOf` | authentication/services.py:42 | reading the digits of a generated code gives back the draws, so different draws give different codes |
| `Verification.CodeOfDigitsOf` | authentication/services.py:42 | every string of decimal digits is the code of some draws, so every four-digit code can be issued |
| `Verification.GenerateCode` | authentication/services.py:42 | the joining loop yields the code of the draws, four decimal digits that fit the six-character column |
| `Verification.Submit` | authentication/services.py:66-73 | a code is accepted exactly when it equals the stored code and the expiry is strictly after now; acceptance sets verified and changes nothing else; a wrong or expired code fails with "Invalid or expired verification code", a null expiry fails the comparison |
| `Verification.CodeLivesFiveMinutes` | authentication/services.py:44 | a code issued at t is accepted at every instant before t plus five minutes and at none from then on |
| `Verification.ReissueInvalidatesOldCode` | authentication/services.py:43 | after a new code is issued a different earlier code fails, expired or not |
| `Verification.ResubmitSucceeds` | authentication/services.py:68-71 | submitting the same valid code to an already verified profile succeeds again and leaves it as it was |
| `Verification.VerifiedExactlyWhenAccepted` | authentication/services.py:63-73 | over any sequence of issued and submitted codes, the verified flag never goes back to false and becomes true exactly when some submitted code is accepted |
| `Store.InsertUserKeepsValid` | authentication/services.py:31 | inserting a user under a free username with the next key keeps the tables valid, and no profile points at the new key |
| `Store.KeysUnique` | authentication/services.py:31 | in valid tables no two users share a key and every key is below the next one the insert will use |
| `Store.AddProfileKeepsValid` | userProfile/services.py:7-8 | adding a profile that holds an issued code for an existing user keeps the tables well formed, and valid when the user had no profile |
| `Store.UpdateProfileKeepsValid` | authentication/services.py:43-45 | changing one profile's fields keeps the tables valid as long as it still holds an issued code and a verified profile stays verified |
| `Store.AddTokenKeepsValid` | authentication/services.py:82-83 | giving a token to the user of a verified profile keeps the tables valid |
| `Store.Database.InsertUser` | authentication/services.py:31 | inserting a user under a free username gives it the next key, appends exactly that row and keeps the tables valid; no profile points at the new key |
| `Store.Database.CreateProfile` | userProfile/services.py:7 | appends exactly one row for the user holding the column defaults and returns a new instance of it under its key |
| `Store.Database.Load` | userProfile/selectors.py:6 | returns a new instance holding the fields of the row with the given key |
| `Store.Database.Save` | authentication/services.py:45 | writes the instance's fields over its own row and changes no other row |
| `CodeService.SetVerificationCode` | authentication/services.py:41-46 | stores the generated code and an expiry five minutes after now on the instance and its row, keeps the verified flag, changes no other row, and returns the stored code |
| `ProfileServices.CreateUserProfile` | userProfile/services.py:6-9 | appends exactly one profile row for the user, unverified, with the issued code and an expiry five minutes after now, and returns its instance; no other row and no other table changes; a user without a profile can then look it up, while a user that already had one now has two and its lookup reports several |
| `AuthServices.CheckPasswords` | authentication/services.py:21-24 | the password passes exactly when the confirmation is present and equal and it has at least eight characters; a mismatch is reported before the length; exactly eight characters pass |
| `AuthServices.ValidateData` | authentication/services.py:17-25 | the username is overwritten with the email whatever the outcome; on success the same record is returned, otherwise the error of the password rules |
| `AuthServices.SendVerificationEmail` | authentication/services.py:48-54 | exactly one mail with the code goes to the address |
| `AuthServices.CreateUser` | authentication/services.py:27-39 | a taken username fails with "user with this username already exits" and stores and sends nothing; otherwise the user row is appended with the encoded password, one unverified profile row with a fresh code is appended for it and is what its lookup returns, that code is mailed to the user's email and the user is returned; the password is removed from the record either way; the tables stay valid |
| `AuthServices.ReSendVerification` | authentication/services.py:56-60 | an unknown email or a missing profile fails with nothing changed; otherwise exactly the user's profile row gets a new code and expiry, the new code is mailed to the user's email, and no verified flag changes |
| `AuthServices.VerifyEmail` | authentication/services.py:63-73 | the user's profile is checked as `Submit` says: an accepted code marks its row verified and returns the saved instance, any failure leaves every row unchanged; no verified flag goes back to false |
| `AuthServices.LogInUser` | authentication/services.py:75-89 | bad credentials give no token and no error; a valid but unverified user is refused with "please verify your profile" and gets no token; a verified user gets its existing token, or a new one with the fresh key on the first login, so every later login returns the same key |
| `Scenarios.Register` | authentication/tests.py:12-26 | registering through validation and creation leaves a user whose username is the email, with a profile holding the mailed code |

## Left out

- The HTTP views, URL routing and serializer field declarations (field presence checks, `max_length=200`, whitespace trimming): request handling, not part of this model.
- Mail delivery: `send_mail`, the subject, message and sender address; a send is recorded as `Email(to, code)`, and a failing send is not modelled.
- `Accounts.MakePassword`: the hasher is a fixed injective encoding, not the salted, iterated hash of the framework; only "never the plaintext" and "identifies the password" are used.
- `Accounts.Authenticate`: the framework's other checks (inactive users, other backends) are not modelled.
- Randomness, the clock and token key generation are parameters; a token key that collides with an existing one is not modelled.
- `ProfileServices.CreateUserProfile`: the row is stated once the code is issued; the row with the column defaults that exists between the insert and `setVerificationCode`'s save is not visible in the contract.
- `AuthServices.CreateUser`: only the final state is stated; the intermediate row with an empty password before `user.save()` and the partial state left when profile creation or mailing fails after the insert are not modelled, nor is any database transaction.
- Concurrent requests (a resend racing a verify, two logins racing on the token) are not modelled; each service runs alone.
- Deleting a user and the cascade to its profile: nothing in the services deletes.
- The debug print of the token at authentication/services.py:84.
- `AuthServices.VerifyEmail`: the submitted code is a string; a request carrying a number, which never equals the stored string, is not modelled separately.
