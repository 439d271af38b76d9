/**
 * The `dojos` table (backend/src/schema/dojos.ts): a serial primary key `id`, a
 * required `name`, and a required `master` that references `users.id`.
 */
module Dojos {
  import Users
  import opened Wrappers

  /** One row; name and master are NOT NULL. Name is not a key. */
  datatype Dojo = Dojo(id: int, name: string, master: int)

  predicate HasId(dojos: seq<Dojo>, id: int)
  {
    exists i :: 0 <= i < |dojos| && dojos[i].id == id
  }

  ghost predicate IdsBelow(dojos: seq<Dojo>, next: int)
  {
    forall i :: 0 <= i < |dojos| ==> 1 <= dojos[i].id < next
  }

  ghost predicate IdsUnique(dojos: seq<Dojo>)
  {
    forall i, j :: 0 <= i < j < |dojos| ==> dojos[i].id != dojos[j].id
  }

  /** The foreign key: every master is the id of a row of `users`. */
  ghost predicate MastersExist(dojos: seq<Dojo>, users: seq<Users.User>)
  {
    forall i :: 0 <= i < |dojos| ==> Users.HasId(users, dojos[i].master)
  }

  ghost predicate Valid(dojos: seq<Dojo>, next: int, users: seq<Users.User>)
  {
    1 <= next && IdsBelow(dojos, next) && IdsUnique(dojos) && MastersExist(dojos, users)
  }

  /** Appending a dojo with the sequence's next id and an existing master keeps every
      constraint, whatever its name, including a name another dojo already has. */
  lemma AppendValid(dojos: seq<Dojo>, next: int, users: seq<Users.User>, name: string, master: int)
    requires Valid(dojos, next, users) && Users.HasId(users, master)
    ensures !HasId(dojos, next)
    ensures Valid(dojos + [Dojo(next, name, master)], next + 1, users)
  {
  }

  /** Adding user rows never breaks the foreign key (the core never deletes a user). */
  lemma UsersGrow(dojos: seq<Dojo>, next: int, users: seq<Users.User>, more: seq<Users.User>)
    requires Valid(dojos, next, users)
    ensures Valid(dojos, next, users + more)
  {
    forall i | 0 <= i < |dojos| ensures Users.HasId(users + more, dojos[i].master) {
      var k :| 0 <= k < |users| && users[k].id == dojos[i].master;
      assert (users + more)[k] == users[k];
    }
  }

  lemma ValidLater(dojos: seq<Dojo>, next: int, users: seq<Users.User>, later: int)
    requires Valid(dojos, next, users) && next <= later
    ensures Valid(dojos, later, users)
  {
  }

  /** Two dojos may share a name. */
  lemma SharedNameAllowed()
    ensures Valid([Dojo(1, "My Dojo", 1), Dojo(2, "My Dojo", 1)], 3, [Users.User(1, "master@test.e2e", None)])
  {
    assert Users.HasId([Users.User(1, "master@test.e2e", None)], 1) by {
      assert [Users.User(1, "master@test.e2e", None)][0].id == 1;
    }
  }
}
