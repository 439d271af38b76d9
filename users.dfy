/**
 * The `users` table (backend/src/schema/users.ts): a serial primary key `id`, a
 * required `email`, a nullable `password` (a bcrypt hash), and the unique index
 * `email_unique_index` on lower(email).
 */
module Users {
  import opened Wrappers
  import opened Text
  import opened Passwords

  /** One row. The email column is NOT NULL, so every row has one; the password may be absent. */
  datatype User = User(id: int, email: string, password: Option<PasswordHash>)

  /** Some row already holds this email up to letter case: the unique index would reject it. */
  predicate EmailInUse(users: seq<User>, email: string)
  {
    exists i :: 0 <= i < |users| && Lower(users[i].email) == Lower(email)
  }

  predicate HasId(users: seq<User>, id: int)
  {
    exists i :: 0 <= i < |users| && users[i].id == id
  }

  /** Every id came from the serial sequence before its current value `next`. */
  ghost predicate IdsBelow(users: seq<User>, next: int)
  {
    forall i :: 0 <= i < |users| ==> 1 <= users[i].id < next
  }

  /** The primary key. */
  ghost predicate IdsUnique(users: seq<User>)
  {
    forall i, j :: 0 <= i < j < |users| ==> users[i].id != users[j].id
  }

  /** The unique index on lower(email). */
  ghost predicate EmailsUnique(users: seq<User>)
  {
    forall i, j :: 0 <= i < j < |users| ==> Lower(users[i].email) != Lower(users[j].email)
  }

  /** Everything the table's declaration guarantees, given the sequence's next value. */
  ghost predicate Valid(users: seq<User>, next: int)
  {
    1 <= next && IdsBelow(users, next) && IdsUnique(users) && EmailsUnique(users)
  }

  /** Appending a row that takes the sequence's next value and an email no row holds
      up to case keeps every constraint, with the sequence one further on. */
  lemma AppendValid(users: seq<User>, next: int, email: string, password: Option<PasswordHash>)
    requires Valid(users, next) && !EmailInUse(users, email)
    ensures !HasId(users, next)
    ensures Valid(users + [User(next, email, password)], next + 1)
  {
  }

  /** A sequence that moved on keeps bounding the ids. */
  lemma ValidLater(users: seq<User>, next: int, later: int)
    requires Valid(users, next) && next <= later
    ensures Valid(users, later)
  {
  }

  /** In a valid table an exact email match is the only row whose email collides with
      that email up to case. */
  lemma EmailMatchIsUnique(users: seq<User>, i: int, j: int, email: string)
    requires EmailsUnique(users)
    requires 0 <= i < |users| && 0 <= j < |users|
    requires users[i].email == email && Lower(users[j].email) == Lower(email)
    ensures i == j
  {
  }

  /** Emails that differ in more than letter case can live side by side. */
  lemma DistinctEmailsCoexist(users: seq<User>, next: int, email: string, password: Option<PasswordHash>)
    requires Valid(users, next)
    requires forall i :: 0 <= i < |users| ==> DiffersBeyondCase(users[i].email, email)
    ensures Valid(users + [User(next, email, password)], next + 1)
  {
    forall i | 0 <= i < |users| ensures Lower(users[i].email) != Lower(email) {
      LowerEqualIffCaseVariants(users[i].email, email);
    }
    AppendValid(users, next, email, password);
  }

  /** The two spellings used against the index collide. */
  lemma CaseVariantsCollide()
    ensures EmailInUse([User(1, "test@test.e2e", None)], "TesT@teSt.e2E")
  {
    var users := [User(1, "test@test.e2e", None)];
    assert Lower(users[0].email) == Lower("TesT@teSt.e2E");
  }
}
