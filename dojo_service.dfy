/**
 * The dojo service (backend/src/services/dojo.ts): creating a dojo together with
 * its creator's teacher membership in one transaction, the role query, and the
 * batch insert of memberships with its error translation.
 */
module DojoService {
  import opened Wrappers
  import Users
  import opened Dojos
  import opened UserDojos
  import opened Store
  import opened Errors

  /** One element of addUsers' argument list. */
  datatype Entry = Entry(userId: int, role: Role)

  /** The transaction of `create`: insert the dojo, then the teacher membership of its
      master; a failure of either statement rolls both back and propagates unchanged. */
  method Create(db: Database, name: string, userId: int, dojoFault: Option<string>, memberFault: Option<string>)
    returns (r: Result<Dojo, ServiceError>)
    requires db.Valid()
    modifies db
    ensures db.Valid()
    ensures db.users == old(db.users) && db.usersIdSeq == old(db.usersIdSeq)
    ensures db.dojosIdSeq == old(db.dojosIdSeq) + (if dojoFault.None? then 1 else 0)
    ensures r.Ok? <==>
              dojoFault.None? && Users.HasId(old(db.users), userId) &&
              memberFault.None? && !HasKey(old(db.userDojos), userId, old(db.dojosIdSeq))
    ensures r.Ok? ==> r.value == Dojo(old(db.dojosIdSeq), name, userId) && !Dojos.HasId(old(db.dojos), r.value.id)
    ensures r.Ok? ==> db.dojos == old(db.dojos) + [r.value]
    ensures r.Ok? ==> db.userDojos == old(db.userDojos) + [UserDojo(userId, r.value.id, Teacher)]
    ensures r.Ok? ==> HasRole(db.userDojos, r.value.id, userId, Teacher, None) == Ok(true)
    ensures r.Err? ==> db.dojos == old(db.dojos) && db.userDojos == old(db.userDojos)
    ensures dojoFault.Some? ==> r == Err(Storage(Fault(dojoFault.value)))
    ensures dojoFault.None? && !Users.HasId(old(db.users), userId) ==>
              r == Err(Storage(ForeignKeyViolation(DojosMasterFk)))
    ensures dojoFault.None? && Users.HasId(old(db.users), userId) && memberFault.Some? ==>
              r == Err(Storage(Fault(memberFault.value)))
    ensures dojoFault.None? && Users.HasId(old(db.users), userId) && memberFault.None? &&
            HasKey(old(db.userDojos), userId, old(db.dojosIdSeq)) ==>
              r == Err(Storage(UniqueViolation(UserDojosPk)))
  {
    var saved := db.Snapshot();
    var inserted := db.InsertDojo(name, userId, dojoFault);
    if inserted.Err? {
      TablesValidLater(saved, old(db.usersIdSeq), old(db.dojosIdSeq), db.usersIdSeq, db.dojosIdSeq);
      db.Rollback(saved);
      return Err(Storage(inserted.error));
    }
    var dojo := inserted.value;
    var teacher := UserDojo(userId, dojo.id, Teacher);
    SingleRowViolatesKey(db.userDojos, teacher);
    var member := db.InsertUserDojos([teacher], memberFault);
    if member.Err? {
      TablesValidLater(saved, old(db.usersIdSeq), old(db.dojosIdSeq), db.usersIdSeq, db.dojosIdSeq);
      db.Rollback(saved);
      return Err(Storage(member.error));
    }
    TeacherAfterCreate(saved.userDojos, dojo.id, userId);
    r := Ok(dojo);
  }

  /** `select role from user_dojos where dojo_id = $1 and user_id = $2`, then
      `assert.ok` on the first row and a comparison of its role. A failure of the
      select (`fault`) propagates unchanged. */
  function HasRole(rows: seq<UserDojo>, dojoId: int, userId: int, role: Role, fault: Option<string>)
    : (r: Result<bool, ServiceError>)
    ensures fault.Some? ==> r == Err(Storage(Fault(fault.value)))
    ensures fault.None? ==> (r.Err? <==> !HasKey(rows, userId, dojoId))
    ensures fault.None? && r.Err? ==> r.error == AssertionFailed
    ensures r == Ok(true) ==>
              exists i :: 0 <= i < |rows| && rows[i].userId == userId && rows[i].dojoId == dojoId && rows[i].role == role
    ensures r == Ok(false) ==>
              exists i :: 0 <= i < |rows| && rows[i].userId == userId && rows[i].dojoId == dojoId && rows[i].role != role
  {
    if fault.Some? then Err(Storage(Fault(fault.value)))
    else match FindMembership(rows, userId, dojoId)
    case None => Err(AssertionFailed)
    case Some(membership) => Ok(membership.role == role)
  }

  /** With the primary key in force, hasRole answers whether the one membership with
      the key carries the queried role. */
  lemma HasRoleOfUniqueMembership(rows: seq<UserDojo>, i: int, role: Role)
    requires KeysUnique(rows) && 0 <= i < |rows|
    ensures HasRole(rows, rows[i].dojoId, rows[i].userId, role, None) == Ok(rows[i].role == role)
  {
  }

  /** The rows `usersToAdd.map(...)` builds: one per entry, in order, all in the dojo. */
  function MembershipRows(dojoId: int, entries: seq<Entry>): seq<UserDojo>
  {
    seq(|entries|, i requires 0 <= i < |entries| => UserDojo(entries[i].userId, dojoId, entries[i].role))
  }

  /** The two ways a batch for one dojo conflicts: an entry's user is already a member,
      or two entries name the same user. */
  predicate AddUsersConflicts(rows: seq<UserDojo>, dojoId: int, entries: seq<Entry>)
  {
    (exists i :: 0 <= i < |entries| && HasKey(rows, entries[i].userId, dojoId)) ||
    (exists i, j :: 0 <= i < j < |entries| && entries[i].userId == entries[j].userId)
  }

  /** The store's key check on the mapped batch fires exactly in those two cases. */
  lemma AddUsersConflictCases(rows: seq<UserDojo>, dojoId: int, entries: seq<Entry>)
    ensures BatchViolatesKey(rows, MembershipRows(dojoId, entries)) <==> AddUsersConflicts(rows, dojoId, entries)
  {
    var batch := MembershipRows(dojoId, entries);
    if BatchViolatesKey(rows, batch) {
      if i :| 0 <= i < |batch| && HasKey(rows, batch[i].userId, batch[i].dojoId) {
        assert HasKey(rows, entries[i].userId, dojoId);
      } else {
        var i, j :| 0 <= i < j < |batch| && batch[i].userId == batch[j].userId && batch[i].dojoId == batch[j].dojoId;
        assert entries[i].userId == entries[j].userId;
      }
    }
    if AddUsersConflicts(rows, dojoId, entries) {
      if i :| 0 <= i < |entries| && HasKey(rows, entries[i].userId, dojoId) {
        assert batch[i].userId == entries[i].userId && batch[i].dojoId == dojoId;
      } else {
        var i, j :| 0 <= i < j < |entries| && entries[i].userId == entries[j].userId;
        assert batch[i].userId == batch[j].userId && batch[i].dojoId == batch[j].dojoId;
      }
    }
  }

  /** The catch block of addUsers: a violation of `user_dojos_pk`, and nothing else,
      becomes AlreadyAddedToDojo; every other storage failure is re-thrown unchanged. */
  function AddUsersError(e: StoreError): (r: ServiceError)
    ensures r == AlreadyAddedToDojo <==> e == UniqueViolation(UserDojosPk)
    ensures r != AlreadyAddedToDojo ==> r == Storage(e)
  {
    if e.UniqueViolation? && ConstraintName(e.constraint) == "user_dojos_pk" then AlreadyAddedToDojo
    else Storage(e)
  }

  /** Insert one membership per entry in a single statement, all or nothing. Drizzle
      refuses an empty values list, so the list is non-empty. */
  method AddUsers(db: Database, dojoId: int, entries: seq<Entry>, fault: Option<string>)
    returns (r: Result<(), ServiceError>)
    requires db.Valid()
    requires |entries| > 0
    modifies db`userDojos
    ensures db.Valid()
    ensures r.Ok? <==> fault.None? && !AddUsersConflicts(old(db.userDojos), dojoId, entries)
    ensures r.Ok? ==> db.userDojos == old(db.userDojos) + MembershipRows(dojoId, entries)
    ensures r.Ok? ==>
              forall i :: 0 <= i < |entries| ==>
                HasRole(db.userDojos, dojoId, entries[i].userId, entries[i].role, None) == Ok(true)
    ensures r.Err? ==> db.userDojos == old(db.userDojos)
    ensures fault.None? && AddUsersConflicts(old(db.userDojos), dojoId, entries) ==> r == Err(AlreadyAddedToDojo)
    ensures fault.Some? ==> r == Err(Storage(Fault(fault.value)))
  {
    var rows := MembershipRows(dojoId, entries);
    AddUsersConflictCases(db.userDojos, dojoId, entries);
    var inserted := db.InsertUserDojos(rows, fault);
    if inserted.Err? {
      return Err(AddUsersError(inserted.error));
    }
    AddedMembersHaveRoles(old(db.userDojos), dojoId, entries);
    r := Ok(());
  }

  /** After a successful batch every entry's user holds the entry's role in the dojo. */
  lemma AddedMembersHaveRoles(rows: seq<UserDojo>, dojoId: int, entries: seq<Entry>)
    requires KeysUnique(rows + MembershipRows(dojoId, entries))
    ensures forall i :: 0 <= i < |entries| ==>
              HasRole(rows + MembershipRows(dojoId, entries), dojoId, entries[i].userId, entries[i].role, None) == Ok(true)
  {
    var all := rows + MembershipRows(dojoId, entries);
    forall i | 0 <= i < |entries|
      ensures HasRole(all, dojoId, entries[i].userId, entries[i].role, None) == Ok(true)
    {
      assert all[|rows| + i] == UserDojo(entries[i].userId, dojoId, entries[i].role);
      HasRoleOfUniqueMembership(all, |rows| + i, entries[i].role);
    }
  }

  /** Repeating a successful call conflicts: its first entry is now a member. */
  lemma RepeatedAddUsersConflicts(rows: seq<UserDojo>, dojoId: int, entries: seq<Entry>)
    requires |entries| > 0
    ensures AddUsersConflicts(rows + MembershipRows(dojoId, entries), dojoId, entries)
  {
    var all := rows + MembershipRows(dojoId, entries);
    assert all[|rows|].userId == entries[0].userId && all[|rows|].dojoId == dojoId;
  }

  /** A member of a fresh dojo is its creator, as a teacher. */
  lemma TeacherAfterCreate(rows: seq<UserDojo>, dojoId: int, userId: int)
    requires KeysUnique(rows) && !HasKey(rows, userId, dojoId)
    ensures HasRole(rows + [UserDojo(userId, dojoId, Teacher)], dojoId, userId, Teacher, None) == Ok(true)
    ensures HasRole(rows + [UserDojo(userId, dojoId, Teacher)], dojoId, userId, Student, None) == Ok(false)
  {
    SingleRowViolatesKey(rows, UserDojo(userId, dojoId, Teacher));
    AppendKeysUnique(rows, [UserDojo(userId, dojoId, Teacher)]);
    var all := rows + [UserDojo(userId, dojoId, Teacher)];
    HasRoleOfUniqueMembership(all, |rows|, Teacher);
    HasRoleOfUniqueMembership(all, |rows|, Student);
  }
}
