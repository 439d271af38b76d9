# Dojo membership core, modelled in Dafny

This project models the membership and identity core of a small multi-tenant backend. The core has
three tables. `users` holds accounts. `dojos` holds organisations, each with a `master` user.
`user_dojos` joins the two and gives each membership a `student` or `teacher` role. The core also has:

- the user service: `signUp`, `login` and `getUserProfile`, over a bcrypt hash and compare;
- the dojo service: `create`, `hasRole` and `addUsers`;
- the password-strength rule of the sign-up procedure.

The store is modelled in memory by the class `Store.Database`. It holds one `seq` per table and the
two serial sequences. Its statement methods enforce the constraints the schema declares:

- the primary keys;
- the unique index `email_unique_index` on `lower(email)`;
- the foreign key from `dojos.master` to `users.id`;
- the composite primary key `user_dojos_pk`.

A failed statement returns a structured `StoreError` that names the constraint it broke, and it leaves
every table unchanged. A transaction (`DojoService.Create`) takes a `Tables` snapshot and rolls back to
it on any failure. The serial sequences are not rolled back, as in Postgres. A statement that reached
the table has drawn an id even if a constraint then rejected the row.

Any other storage failure is an input to the model. Each insert, and the select behind each read-only
query, takes a `fault: Option<string>`. When a fault is present, the statement fails with
`Fault(detail)` before it reaches the table, and the service passes it on unchanged. Randomness is
an input too: `signUp` receives the bcrypt salt as a parameter. Read-only queries (`Login`,
`GetUserProfile`, `HasRole`) are functions of the table contents, so they cannot change the store.

The password rule is stated on UTF-16 code units, because that is what JavaScript's `length`,
`charAt` and regular expressions work on. `UserRouter.Utf16` converts a Dafny string to code units.
The character test `!isNaN(+ch)` is modelled by `UserRouter.ToNumber`. It accepts the ten ASCII digits
and also every single white-space or line-terminator code unit, which converts to 0. So a space counts
as a "number".

Two behaviours of the code are worth stating:

- `errors/user.ts` defines `UserHasNoPassword`, but `login` never throws it. On a row without a
  password, bcrypt.compare receives a null hash and rejects. The model reports this as the foreign
  failure `HashCompareFailure`.
- When no membership exists, `hasRole` fails through `assert.ok`, not through a domain error. The model
  reports this as `AssertionFailed`.

Two consequences of the schema as declared, both visible in the contracts:

- `user_dojos.user_id` and `user_dojos.dojo_id` reference no table. So `addUsers` succeeds for ids
  that name no user or no dojo. For the same reason, its success condition mentions only the
  membership table.
- Because of that, `create` can fail on its second statement. This happens when a stale membership
  already names the id the dojo sequence hands out next. The rollback path is therefore reachable.

## Model

| member | source | states |
|---|---|---|
| `Text.LowerEqualIffCaseVariants` | backend/src/utils/db.ts:4-6 | two emails collide under lower() exactly when they have equal length and each pair of characters folds to the same character |
| `Text.LowerCharEqual` | backend/src/utils/db.ts:4-6 | two characters fold alike exactly when equal or the two cases of one ASCII letter |
| `Passwords.HashPassword` | backend/src/services/user.ts:16-24 | the hash made from a plaintext is accepted by comparePassword for exactly that plaintext |
| `Passwords.CompareRoundTrip` | backend/src/services/user.ts:26-27 | comparePassword(q, hashPassword(p, salt)) holds exactly when q = p, for every salt (so a case-changed plaintext fails) |
| `Users.AppendValid` | backend/src/schema/users.ts:7-19 | a row with the sequence's next id and an email no row holds up to case is fresh in id and keeps the primary key, the id bound and the lower(email) index |
| `Users.EmailMatchIsUnique` | backend/src/schema/users.ts:15-17 | under the index, an exact email match is the only row colliding with that email up to case |
| `Users.DistinctEmailsCoexist` | backend/src/schema/users.ts:15-17 | an email that differs from every stored one in length or at a position whose characters fold apart can be added keeping all constraints |
| `Users.CaseVariantsCollide` | backend/src/schema/users.ts:15-17 | `test@test.e2e` and `TesT@teSt.e2E` collide on the index |
| `Dojos.AppendValid` | backend/src/schema/dojos.ts:4-10 | a dojo with the next id and an existing master keeps id uniqueness and the foreign key, whatever its name |
| `Dojos.UsersGrow` | backend/src/schema/dojos.ts:7-9 | adding users never breaks the master foreign key |
| `Dojos.SharedNameAllowed` | backend/src/schema/dojos.ts:6 | two dojos may share a name |
| `UserDojos.AppendKeysUnique` | backend/src/schema/user_dojos.ts:16-19 | after a batch insert the composite key holds exactly when no row of the batch repeats a stored key and no two batch rows share a key |
| `UserDojos.SingleRowViolatesKey` | backend/src/schema/user_dojos.ts:16-19 | a one-row insert breaks the key exactly when the key is stored |
| `UserDojos.FindMembership` | backend/src/services/dojo.ts:31-34 | the lookup by (user_id, dojo_id) finds nothing exactly when no row has that key, and otherwise returns a stored row with that key |
| `UserDojos.FindUniqueMembership` | backend/src/schema/user_dojos.ts:16-19 | with the key in force, the lookup returns the one row with that key |
| `UserDojos.CompositeKeyAllowsSharing` | backend/src/schema/user_dojos.ts:18 | one user may belong to two dojos and one dojo may have two members |
| `Store.ConstraintName` | backend/src/schema/user_dojos.ts:4 | the constraint names `email_unique_index` and `user_dojos_pk` identify exactly their constraints |
| `Store.Database.constructor` | backend/src/schema/users.ts:10 | an empty store with both serial sequences at 1 satisfies every constraint |
| `Store.Database.InsertUser` | backend/src/schema/users.ts:7-19 | a fault changes nothing; an email taken up to case fails with `email_unique_index`, leaves the tables unchanged, and consumes a sequence value; otherwise exactly one row with a fresh id is appended |
| `Store.Database.InsertDojo` | backend/src/schema/dojos.ts:4-10 | a fault changes nothing; a master that is no user id fails with the foreign-key violation and leaves the tables unchanged; otherwise exactly one dojo with a fresh id is appended |
| `Store.Database.InsertUserDojos` | backend/src/schema/user_dojos.ts:8-21 | the whole batch is appended, or (on a fault or a `user_dojos_pk` violation) the table is unchanged |
| `Store.Database.Rollback` | backend/src/services/dojo.ts:17-27 | the tables return to the snapshot; the sequences keep their values |
| `UserService.FindByEmail` | backend/src/services/user.ts:54 | finds nothing exactly when no row has that exact email, else a stored row with it |
| `UserService.FindById` | backend/src/services/user.ts:64-67 | finds nothing exactly when no row has the id, else a stored row with it |
| `UserService.SignUpError` | backend/src/services/user.ts:41-49 | EmailTaken exactly for a violation of `email_unique_index`; every other storage error is re-thrown unchanged |
| `UserService.SignUp` | backend/src/services/user.ts:29-51 | succeeds exactly when there is no fault and no case-insensitive email match; the users sequence advances unless the insert faults and the dojos sequence never does; on success it appends exactly one row (fresh id, the email, the password's hash), returns its `{id, email}`, and login and getUserProfile succeed for it; else EmailTaken or the fault, and `users` is unchanged |
| `UserService.Login` | backend/src/services/user.ts:53-61 | a fault of the select is re-thrown unchanged; otherwise UserNotExists exactly when no row has the exact email (whatever the password); success only if a matching row's hash accepts the password; IncorrectPassword only if it rejects it; no other error than those and the null-hash failure |
| `UserService.LoginWithUniqueRow` | backend/src/services/user.ts:53-61 | under the index, login is decided by the one row with the email: IncorrectPassword when compare fails, success when it holds |
| `UserService.WrongPasswordRejected` | backend/src/services/user.ts:58-60 | a password other than the signed-up one fails with IncorrectPassword |
| `UserService.LoginAfterSignUp` | backend/src/services/user.ts:29-61 | login with the credentials just signed up succeeds |
| `UserService.GetUserProfile` | backend/src/services/user.ts:63-72 | a fault of the select is re-thrown unchanged; otherwise UserNotExists exactly when no row has the id, and it is the only other error; on success `{id, email}` of a row with that id |
| `UserService.ProfileWithUniqueRow` | backend/src/services/user.ts:63-72 | under the primary key, the profile is the one row's `{id, email}` |
| `DojoService.Create` | backend/src/services/dojo.ts:16-28 | succeeds exactly when neither statement faults, the master is a user and the membership key is free; then it appends exactly the dojo `{next id, name, master}` and the membership `(master, id, teacher)`, returns the dojo, and hasRole(id, master, teacher) is true; on any failure (which error is stated per case) dojos and memberships are unchanged |
| `DojoService.HasRole` | backend/src/services/dojo.ts:30-37 | a fault of the select is re-thrown unchanged; otherwise it fails with the assertion exactly when no membership has the key; true only if such a membership has the role, false only if one has another role |
| `DojoService.HasRoleOfUniqueMembership` | backend/src/services/dojo.ts:30-37 | under the composite key, hasRole is whether the one membership's role equals the queried role |
| `DojoService.TeacherAfterCreate` | backend/src/services/dojo.ts:23-25 | after the teacher row of a new key is added, hasRole answers true for teacher and false for student |
| `DojoService.AddUsersConflictCases` | backend/src/services/dojo.ts:43-60 | the batch breaks `user_dojos_pk` exactly when an entry's user is already a member of the dojo or two entries share a user id |
| `DojoService.AddUsersError` | backend/src/services/dojo.ts:53-62 | AlreadyAddedToDojo exactly for a violation of `user_dojos_pk`; every other storage error is re-thrown unchanged |
| `DojoService.AddUsers` | backend/src/services/dojo.ts:39-63 | succeeds exactly when there is no fault and no conflict; then it appends one membership per entry, in order, and nothing else, and each entry's user holds its role; otherwise AlreadyAddedToDojo or the fault, and the table is unchanged |
| `DojoService.AddedMembersHaveRoles` | backend/src/services/dojo.ts:44-52 | after a successful batch, hasRole(dojo, entry.userId, entry.role) is true for every entry |
| `DojoService.RepeatedAddUsersConflicts` | backend/src/services/dojo.ts:39-63 | repeating a successful call conflicts, so it fails with AlreadyAddedToDojo and leaves the first membership in place |
| `UserRouter.ToNumber` | backend/src/router/user.ts:26 | `+ch` is a number exactly for an ASCII digit or a JavaScript white-space or line-terminator code unit; a digit converts to its value and white space to 0 |
| `UserRouter.SpaceCountsAsNumber` | backend/src/router/user.ts:26 | a space converts to 0, so `aA ` is accepted |
| `UserRouter.TallyBounded` | backend/src/router/user.ts:24-30 | each character adds to at most one counter: the three counts sum to at most the length |
| `UserRouter.TallyPositive` | backend/src/router/user.ts:24-30 | each count is positive exactly when some character is in its class |
| `UserRouter.SuperRefine` | backend/src/router/user.ts:15-44 | no issue exactly when the password has a number, an upper-case and a lower-case character; otherwise the single custom issue with the source's message |
| `UserRouter.ValidatePassword` | backend/src/router/user.ts:12-44 | no issues exactly when the length is at least 2 and all three classes occur; the min-length issue exactly when shorter than 2; the custom issue exactly when a class is missing; at most two issues |
| `UserRouter.TestIsRejected` | backend/src/router/user.e2e.ts:25-40 | `test` is rejected, having no upper-case letter and no number |
| `UserRouter.SmallestAcceptable` | backend/src/router/user.ts:14-36 | `aA1` is accepted |
| `UserRouter.OneCharacterRejected` | backend/src/router/user.ts:14 | no one-character password is accepted |

## Left out

- `userService.getUserByEmail`: the e2e tests call it, but backend/src/services/user.ts does not define or export it.
- `UserHasNoPassword` (backend/src/errors/user.ts:19): no code throws it, so it is not a constructor of `Errors.ServiceError`.
- UserService.Login: on a row without a password, the outcome is a single opaque `HashCompareFailure`. The model leaves the foreign error's contents unspecified.
- Passwords.HashPassword: bcrypt is an injective stand-in. The model does not capture one-wayness, salt generation, the 72-byte input limit of real bcrypt (two passwords sharing their first 72 bytes compare equal) or a failing `bcrypt.hash`.
- Postgres `lower()` follows the database's locale. The model folds ASCII letters only.
- The int4 width of `users.id`, `dojos.id`, `dojos.master`, `user_dojos.user_id` and `user_dojos.dojo_id`: ids are unbounded integers. An out-of-range id (which Postgres rejects with numeric_value_out_of_range) and the exhaustion of a serial sequence at 2^31 - 1 are not modelled.
- Concurrency and transaction isolation: each statement and transaction runs atomically, on one thread.
- Store.Database.InsertUser and Store.Database.InsertDojo: a fault is raised before the statement reaches the table. Whether a real failure of that kind has already drawn a sequence value is not modelled.
- Violations that cannot arise from the core's statements are not modelled: NOT NULL columns (the types exclude null) and the serial primary keys (ids come from the sequence).
- `user_dojos.role` is nullable in the schema. Every insert in the core supplies a role, so the model's role is never null.
- `addUsers` with an empty list: Drizzle refuses an empty `values` call, so a non-empty list is a precondition.
- `z.string().email()`, Zod's error objects and message formatting: library behaviour. The model reports issues as a list of `TooSmall(2)` and `Custom(message)`.
- The tRPC router and the session middleware (`authed`, `unAuthed`) that call the services: framework code with no logic of its own.
- The Drizzle ORM, the Postgres driver, the connection and configuration: the store is modelled in memory.
- The error classes' message strings: each error is a constructor.
