/**
 * The relational store the services run against, reduced to the three tables
 * with the constraints their declarations impose and the two serial sequences.
 *
 * A statement either applies completely or changes no table. When it breaks a
 * constraint it fails with a structured conflict that names the constraint; any
 * other failure of the real store (a lost connection, a timeout, ...) is supplied
 * by the caller as a `fault` and makes the statement fail before it reaches the
 * table. A statement that reaches a table with a serial column draws the
 * sequence's next value even when a constraint then rejects the row: Postgres
 * sequences are not rolled back.
 */
module Store {
  import opened Wrappers
  import opened Passwords
  import Users
  import Dojos
  import UserDojos

  /** The constraints a statement of the core can break. */
  datatype Constraint = EmailUniqueIndex | DojosMasterFk | UserDojosPk

  /** The constraint's name as the store reports it. The first and last are named in
      the schema; the foreign key takes the name drizzle-kit generates for dojos.master. */
  function ConstraintName(c: Constraint): (name: string)
    ensures c == EmailUniqueIndex <==> name == "email_unique_index"
    ensures c == UserDojosPk <==> name == "user_dojos_pk"
  {
    match c
    case EmailUniqueIndex => "email_unique_index"
    case DojosMasterFk => "dojos_master_users_id_fk"
    case UserDojosPk => "user_dojos_pk"
  }

  datatype StoreError =
    | UniqueViolation(constraint: Constraint)
    | ForeignKeyViolation(constraint: Constraint)
    | Fault(detail: string)

  /** The contents of the three tables, as a transaction sees them when it begins. */
  datatype Tables = Tables(users: seq<Users.User>, dojos: seq<Dojos.Dojo>, userDojos: seq<UserDojos.UserDojo>)

  /** Every declared constraint, given the two sequences' next values. */
  ghost predicate TablesValid(t: Tables, usersNext: int, dojosNext: int)
  {
    Users.Valid(t.users, usersNext) && Dojos.Valid(t.dojos, dojosNext, t.users) && UserDojos.KeysUnique(t.userDojos)
  }

  class Database {
    var users: seq<Users.User>
    var dojos: seq<Dojos.Dojo>
    var userDojos: seq<UserDojos.UserDojo>
    /** The next value of the serial sequence behind users.id. */
    var usersIdSeq: int
    /** The next value of the serial sequence behind dojos.id. */
    var dojosIdSeq: int

    function Snapshot(): Tables
      reads this
    {
      Tables(users, dojos, userDojos)
    }

    ghost predicate Valid()
      reads this
    {
      TablesValid(Snapshot(), usersIdSeq, dojosIdSeq)
    }

    /** An empty database whose sequences start at 1. */
    constructor ()
      ensures Valid()
      ensures users == [] && dojos == [] && userDojos == []
      ensures usersIdSeq == 1 && dojosIdSeq == 1
    {
      users, dojos, userDojos := [], [], [];
      usersIdSeq, dojosIdSeq := 1, 1;
    }

    /** `insert into users (email, password) values (...) returning *`. */
    method InsertUser(email: string, password: Option<PasswordHash>, fault: Option<string>)
      returns (r: Result<Users.User, StoreError>)
      requires Valid()
      modifies this
      ensures Valid()
      ensures dojos == old(dojos) && userDojos == old(userDojos) && dojosIdSeq == old(dojosIdSeq)
      ensures fault.Some? ==> r == Err(Fault(fault.value)) && users == old(users) && usersIdSeq == old(usersIdSeq)
      ensures fault.None? ==> usersIdSeq == old(usersIdSeq) + 1
      ensures fault.None? && Users.EmailInUse(old(users), email) ==>
                r == Err(UniqueViolation(EmailUniqueIndex)) && users == old(users)
      ensures fault.None? && !Users.EmailInUse(old(users), email) ==>
                r == Ok(Users.User(old(usersIdSeq), email, password)) && users == old(users) + [r.value]
      ensures r.Ok? ==> !Users.HasId(old(users), r.value.id)
    {
      if fault.Some? {
        return Err(Fault(fault.value));
      }
      var id := usersIdSeq;
      usersIdSeq := usersIdSeq + 1;
      if Users.EmailInUse(users, email) {
        Users.ValidLater(users, id, usersIdSeq);
        return Err(UniqueViolation(EmailUniqueIndex));
      }
      Users.AppendValid(users, id, email, password);
      var row := Users.User(id, email, password);
      Dojos.UsersGrow(dojos, dojosIdSeq, users, [row]);
      users := users + [row];
      r := Ok(row);
    }

    /** `insert into dojos (name, master) values (...) returning *`. */
    method InsertDojo(name: string, master: int, fault: Option<string>)
      returns (r: Result<Dojos.Dojo, StoreError>)
      requires Valid()
      modifies this
      ensures Valid()
      ensures users == old(users) && userDojos == old(userDojos) && usersIdSeq == old(usersIdSeq)
      ensures fault.Some? ==> r == Err(Fault(fault.value)) && dojos == old(dojos) && dojosIdSeq == old(dojosIdSeq)
      ensures fault.None? ==> dojosIdSeq == old(dojosIdSeq) + 1
      ensures fault.None? && !Users.HasId(users, master) ==>
                r == Err(ForeignKeyViolation(DojosMasterFk)) && dojos == old(dojos)
      ensures fault.None? && Users.HasId(users, master) ==>
                r == Ok(Dojos.Dojo(old(dojosIdSeq), name, master)) && dojos == old(dojos) + [r.value]
      ensures r.Ok? ==> !Dojos.HasId(old(dojos), r.value.id)
    {
      if fault.Some? {
        return Err(Fault(fault.value));
      }
      var id := dojosIdSeq;
      dojosIdSeq := dojosIdSeq + 1;
      if !Users.HasId(users, master) {
        Dojos.ValidLater(dojos, id, users, dojosIdSeq);
        return Err(ForeignKeyViolation(DojosMasterFk));
      }
      Dojos.AppendValid(dojos, id, users, name, master);
      var row := Dojos.Dojo(id, name, master);
      dojos := dojos + [row];
      r := Ok(row);
    }

    /** `insert into user_dojos values (...), (...), ...` in one statement. */
    method InsertUserDojos(rows: seq<UserDojos.UserDojo>, fault: Option<string>)
      returns (r: Result<(), StoreError>)
      requires Valid()
      modifies this`userDojos
      ensures Valid()
      ensures fault.Some? ==> r == Err(Fault(fault.value)) && userDojos == old(userDojos)
      ensures fault.None? && UserDojos.BatchViolatesKey(old(userDojos), rows) ==>
                r == Err(UniqueViolation(UserDojosPk)) && userDojos == old(userDojos)
      ensures fault.None? && !UserDojos.BatchViolatesKey(old(userDojos), rows) ==>
                r == Ok(()) && userDojos == old(userDojos) + rows
    {
      if fault.Some? {
        return Err(Fault(fault.value));
      }
      UserDojos.AppendKeysUnique(userDojos, rows);
      if UserDojos.BatchViolatesKey(userDojos, rows) {
        return Err(UniqueViolation(UserDojosPk));
      }
      userDojos := userDojos + rows;
      r := Ok(());
    }

    /** Undo every table change made since `saved` was taken; the sequences keep the
        values they have reached. */
    method Rollback(saved: Tables)
      requires Valid()
      requires TablesValid(saved, usersIdSeq, dojosIdSeq)
      modifies this`users, this`dojos, this`userDojos
      ensures Valid()
      ensures Snapshot() == saved
    {
      users, dojos, userDojos := saved.users, saved.dojos, saved.userDojos;
    }
  }

  /** Tables that satisfied their constraints still do once the sequences have moved on. */
  lemma TablesValidLater(t: Tables, usersNext: int, dojosNext: int, usersLater: int, dojosLater: int)
    requires TablesValid(t, usersNext, dojosNext)
    requires usersNext <= usersLater && dojosNext <= dojosLater
    ensures TablesValid(t, usersLater, dojosLater)
  {
  }
}
