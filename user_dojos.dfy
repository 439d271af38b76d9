/**
 * The `user_dojos` join table (backend/src/schema/user_dojos.ts): columns user_id,
 * dojo_id and role, with the composite primary key `user_dojos_pk` on
 * (user_id, dojo_id). Neither id column references another table.
 */
module UserDojos {
  import opened Wrappers

  /** The enum `user_dojo_role`. */
  datatype Role = Student | Teacher

  datatype UserDojo = UserDojo(userId: int, dojoId: int, role: Role)

  predicate HasKey(rows: seq<UserDojo>, userId: int, dojoId: int)
  {
    exists i :: 0 <= i < |rows| && rows[i].userId == userId && rows[i].dojoId == dojoId
  }

  /** The primary key: at most one row per (user_id, dojo_id). */
  ghost predicate KeysUnique(rows: seq<UserDojo>)
  {
    forall i, j :: 0 <= i < j < |rows| ==> !(rows[i].userId == rows[j].userId && rows[i].dojoId == rows[j].dojoId)
  }

  /** A multi-row insert of `batch` breaks the primary key: one of its rows repeats a
      stored key, or two of its rows share a key. */
  predicate BatchViolatesKey(existing: seq<UserDojo>, batch: seq<UserDojo>)
  {
    (exists i :: 0 <= i < |batch| && HasKey(existing, batch[i].userId, batch[i].dojoId)) ||
    (exists i, j :: 0 <= i < j < |batch| && batch[i].userId == batch[j].userId && batch[i].dojoId == batch[j].dojoId)
  }

  /** The key check the store applies is exact: the table after the insert keeps its
      primary key precisely when the batch does not violate it. */
  lemma AppendKeysUnique(existing: seq<UserDojo>, batch: seq<UserDojo>)
    requires KeysUnique(existing)
    ensures KeysUnique(existing + batch) <==> !BatchViolatesKey(existing, batch)
  {
    var all := existing + batch;
    if BatchViolatesKey(existing, batch) {
      if i :| 0 <= i < |batch| && HasKey(existing, batch[i].userId, batch[i].dojoId) {
        var k :| 0 <= k < |existing| && existing[k].userId == batch[i].userId && existing[k].dojoId == batch[i].dojoId;
        assert all[k] == existing[k] && all[|existing| + i] == batch[i];
      } else {
        var i, j :| 0 <= i < j < |batch| && batch[i].userId == batch[j].userId && batch[i].dojoId == batch[j].dojoId;
        assert all[|existing| + i] == batch[i] && all[|existing| + j] == batch[j];
      }
    } else {
      forall i, j | 0 <= i < j < |all|
        ensures !(all[i].userId == all[j].userId && all[i].dojoId == all[j].dojoId)
      {
        if j >= |existing| {
          assert all[j] == batch[j - |existing|];
          if i >= |existing| {
            assert all[i] == batch[i - |existing|];
          } else {
            var b := j - |existing|;
            assert all[i] == existing[i];
            assert !HasKey(existing, batch[b].userId, batch[b].dojoId);
          }
        } else {
          assert all[i] == existing[i] && all[j] == existing[j];
        }
      }
    }
  }

  /** A one-row insert breaks the key exactly when the key is already stored. */
  lemma SingleRowViolatesKey(existing: seq<UserDojo>, row: UserDojo)
    ensures BatchViolatesKey(existing, [row]) <==> HasKey(existing, row.userId, row.dojoId)
  {
    assert [row][0] == row;
  }

  /** The first row with the key (user_id, dojo_id), as a `select ... where` destructured
      into `[row]` yields it. */
  function FindMembership(rows: seq<UserDojo>, userId: int, dojoId: int): (r: Option<UserDojo>)
    ensures r.None? <==> !HasKey(rows, userId, dojoId)
    ensures r.Some? ==> r.value in rows && r.value.userId == userId && r.value.dojoId == dojoId
  {
    if |rows| == 0 then None
    else if rows[0].userId == userId && rows[0].dojoId == dojoId then Some(rows[0])
    else
      var r := FindMembership(rows[1..], userId, dojoId);
      assert HasKey(rows, userId, dojoId) ==> HasKey(rows[1..], userId, dojoId) by {
        if HasKey(rows, userId, dojoId) {
          var k :| 0 <= k < |rows| && rows[k].userId == userId && rows[k].dojoId == dojoId;
          assert k > 0 && rows[1..][k - 1] == rows[k];
        }
      }
      assert HasKey(rows[1..], userId, dojoId) ==> HasKey(rows, userId, dojoId) by {
        if HasKey(rows[1..], userId, dojoId) {
          var k :| 0 <= k < |rows[1..]| && rows[1..][k].userId == userId && rows[1..][k].dojoId == dojoId;
          assert rows[k + 1] == rows[1..][k];
        }
      }
      r
  }

  /** With the primary key in force, the row found is the one row with that key. */
  lemma {:induction false} FindUniqueMembership(rows: seq<UserDojo>, i: int)
    requires KeysUnique(rows) && 0 <= i < |rows|
    ensures FindMembership(rows, rows[i].userId, rows[i].dojoId) == Some(rows[i])
  {
  }

  /** The key is composite: one user in two dojos and two users in one dojo are allowed. */
  lemma CompositeKeyAllowsSharing()
    ensures KeysUnique([UserDojo(1, 10, Teacher), UserDojo(1, 20, Student), UserDojo(2, 10, Student)])
  {
  }
}
