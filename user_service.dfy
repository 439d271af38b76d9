/**
 * The user service (backend/src/services/user.ts): sign-up inserts a row into
 * `users` and translates the email index's violation; login and the profile
 * lookup are read-only queries, modelled as functions of the `users` table.
 */
module UserService {
  import opened Wrappers
  import opened Passwords
  import opened Users
  import opened Store
  import opened Errors

  /** The `{id, email}` projection the service returns. */
  datatype Profile = Profile(id: int, email: string)

  /** `select * from users where email = $1`, keeping the first row: an exact match, not
      a case-insensitive one. */
  function FindByEmail(users: seq<User>, email: string): (r: Option<User>)
    ensures r.None? <==> forall i :: 0 <= i < |users| ==> users[i].email != email
    ensures r.Some? ==> r.value in users && r.value.email == email
  {
    if |users| == 0 then None
    else if users[0].email == email then Some(users[0])
    else
      var r := FindByEmail(users[1..], email);
      assert forall i :: 1 <= i < |users| ==> users[i] == users[1..][i - 1];
      r
  }

  /** `select id, email from users where id = $1`, keeping the first row. */
  function FindById(users: seq<User>, id: int): (r: Option<User>)
    ensures r.None? <==> !HasId(users, id)
    ensures r.Some? ==> r.value in users && r.value.id == id
  {
    if |users| == 0 then None
    else if users[0].id == id then Some(users[0])
    else
      var r := FindById(users[1..], id);
      assert forall i :: 1 <= i < |users| ==> users[i] == users[1..][i - 1];
      assert HasId(users[1..], id) ==> HasId(users, id) by {
        if HasId(users[1..], id) {
          var k :| 0 <= k < |users[1..]| && users[1..][k].id == id;
          assert users[k + 1].id == id;
        }
      }
      r
  }

  /** The catch block of signUp: a violation of `email_unique_index`, and nothing else,
      becomes EmailTaken; every other storage failure is re-thrown unchanged. */
  function SignUpError(e: StoreError): (r: ServiceError)
    ensures r == EmailTaken <==> e == UniqueViolation(EmailUniqueIndex)
    ensures r != EmailTaken ==> r == Storage(e)
  {
    if e.UniqueViolation? && ConstraintName(e.constraint) == "email_unique_index" then EmailTaken
    else Storage(e)
  }

  /** Hash the password, insert the row, return its `{id, email}`. */
  method SignUp(db: Database, email: string, password: string, salt: nat, fault: Option<string>)
    returns (r: Result<Profile, ServiceError>)
    requires db.Valid()
    modifies db
    ensures db.Valid()
    ensures db.dojos == old(db.dojos) && db.userDojos == old(db.userDojos)
    ensures db.dojosIdSeq == old(db.dojosIdSeq)
    ensures db.usersIdSeq == old(db.usersIdSeq) + (if fault.None? then 1 else 0)
    ensures r.Ok? <==> fault.None? && !EmailInUse(old(db.users), email)
    ensures r.Ok? ==> r.value == Profile(old(db.usersIdSeq), email) && !HasId(old(db.users), r.value.id)
    ensures r.Ok? ==> db.users == old(db.users) + [User(r.value.id, email, Some(HashPassword(password, salt)))]
    ensures r.Ok? ==>
              Login(db.users, email, password, None) == Ok(()) && GetUserProfile(db.users, r.value.id, None) == Ok(r.value)
    ensures r.Err? ==> db.users == old(db.users)
    ensures fault.None? && EmailInUse(old(db.users), email) ==> r == Err(EmailTaken)
    ensures fault.Some? ==> r == Err(Storage(Fault(fault.value)))
  {
    var hash := HashPassword(password, salt);
    var inserted := db.InsertUser(email, Some(hash), fault);
    match inserted
    case Err(e) =>
      r := Err(SignUpError(e));
    case Ok(user) =>
      r := Ok(Profile(user.id, user.email));
      LoginWithUniqueRow(db.users, |db.users| - 1, password);
      ProfileWithUniqueRow(db.users, |db.users| - 1);
  }

  /** Look the email up exactly, then compare the password with the stored hash. A
      failure of the select (`fault`) propagates unchanged. */
  function Login(users: seq<User>, email: string, password: string, fault: Option<string>): (r: Result<(), ServiceError>)
    ensures fault.Some? ==> r == Err(Storage(Fault(fault.value)))
    ensures fault.None? ==> (r == Err(UserNotExists) <==> forall i :: 0 <= i < |users| ==> users[i].email != email)
    ensures r.Ok? ==>
              exists i :: 0 <= i < |users| && users[i].email == email &&
                users[i].password.Some? && ComparePassword(password, users[i].password.value)
    ensures r == Err(IncorrectPassword) ==>
              exists i :: 0 <= i < |users| && users[i].email == email &&
                users[i].password.Some? && !ComparePassword(password, users[i].password.value)
    ensures r == Err(HashCompareFailure) ==>
              exists i :: 0 <= i < |users| && users[i].email == email && users[i].password.None?
    ensures fault.None? && r.Err? ==> r.error in {UserNotExists, IncorrectPassword, HashCompareFailure}
  {
    if fault.Some? then Err(Storage(Fault(fault.value)))
    else match FindByEmail(users, email)
    case None => Err(UserNotExists)
    case Some(user) =>
      match user.password
      case None => Err(HashCompareFailure)
      case Some(hash) =>
        if ComparePassword(password, hash) then Ok(()) else Err(IncorrectPassword)
  }

  /** Look the id up; absent is UserNotExists. A failure of the select (`fault`)
      propagates unchanged. */
  function GetUserProfile(users: seq<User>, id: int, fault: Option<string>): (r: Result<Profile, ServiceError>)
    ensures fault.Some? ==> r == Err(Storage(Fault(fault.value)))
    ensures fault.None? ==> (r == Err(UserNotExists) <==> !HasId(users, id))
    ensures r.Ok? ==> exists i :: 0 <= i < |users| && users[i].id == id && r.value == Profile(id, users[i].email)
    ensures fault.None? && r.Err? ==> r.error == UserNotExists
  {
    if fault.Some? then Err(Storage(Fault(fault.value)))
    else match FindById(users, id)
    case None => Err(UserNotExists)
    case Some(user) => Ok(Profile(user.id, user.email))
  }

  /** With the email index in force, login is decided by the one row holding the email. */
  lemma LoginWithUniqueRow(users: seq<User>, i: int, password: string)
    requires EmailsUnique(users) && 0 <= i < |users|
    ensures Login(users, users[i].email, password, None) ==
              if users[i].password.None? then Err(HashCompareFailure)
              else if ComparePassword(password, users[i].password.value) then Ok(())
              else Err(IncorrectPassword)
  {
  }

  /** With the primary key in force, the profile is the one row with the id. */
  lemma ProfileWithUniqueRow(users: seq<User>, i: int)
    requires IdsUnique(users) && 0 <= i < |users|
    ensures GetUserProfile(users, users[i].id, None) == Ok(Profile(users[i].id, users[i].email))
  {
  }

  /** Signing up and then logging in with the same credentials succeeds. */
  lemma LoginAfterSignUp(users: seq<User>, next: int, email: string, password: string, salt: nat)
    requires Valid(users, next) && !EmailInUse(users, email)
    ensures Login(users + [User(next, email, Some(HashPassword(password, salt)))], email, password, None) == Ok(())
  {
    AppendValid(users, next, email, Some(HashPassword(password, salt)));
    var users' := users + [User(next, email, Some(HashPassword(password, salt)))];
    LoginWithUniqueRow(users', |users|, password);
  }

  /** Login with a wrong password fails with IncorrectPassword, a case-changed one included. */
  lemma WrongPasswordRejected(users: seq<User>, i: int, right: string, wrong: string, salt: nat)
    requires EmailsUnique(users) && 0 <= i < |users|
    requires users[i].password == Some(HashPassword(right, salt)) && wrong != right
    ensures Login(users, users[i].email, wrong, None) == Err(IncorrectPassword)
  {
  }
}
