/**
 * The post-insert, post-update and post-delete hooks of the role-permission
 * junction table.  Each works out the roles the changed rows name, asks the
 * store which users hold those roles, flushes those users' entries, and
 * flushes every role-set entry registered under those roles.
 */
module RolePermissionIntCustomizer {
  import opened Wrappers
  import opened Assignments
  import opened PermissionCache

  /**
   * A role-permission record as a hook receives it.  A field the record does
   * not carry (an update sends only the primary key and the changed fields)
   * is None.
   */
  datatype RolePermissionRecord = RolePermissionRecord(id: Option<int32>, roleId: Option<int32>, permissionId: Option<int32>)

  /** The store could not answer the query for the holders of these roles. */
  datatype HookFailure = HoldersNotFound(roleIds: set<int32>)

  /**
   * The old records by primary key.  A record without an id is left out, and
   * a later record with the same id replaces an earlier one.
   */
  function OldRecordsById(oldRecords: seq<RolePermissionRecord>): (r: map<int32, RolePermissionRecord>)
    ensures forall k :: k in r ==> r[k] in oldRecords && r[k].id == Some(k)
    ensures forall rec :: rec in oldRecords && rec.id.Some? ==> rec.id.value in r
  {
    if oldRecords == [] then map[]
    else
      var earlier := oldRecords[..|oldRecords| - 1];
      var last := oldRecords[|oldRecords| - 1];
      assert forall rec :: rec in oldRecords ==> rec in earlier || rec == last;
      if last.id.Some? then OldRecordsById(earlier)[last.id.value := last] else OldRecordsById(earlier)
  }

  /**
   * The role a record names: its own role id when it carries one, otherwise
   * the role id of the old record with the same primary key, if there is one.
   */
  function RoleIdOf(rec: RolePermissionRecord, oldById: Option<map<int32, RolePermissionRecord>>): Option<int32>
  {
    if rec.roleId.Some? then rec.roleId
    else if oldById.Some? && rec.id.Some? && rec.id.value in oldById.value then oldById.value[rec.id.value].roleId
    else None
  }

  /** The role ids the records name, reading through to the old records where a record does not carry one. */
  function RoleIdsOf(records: Option<seq<RolePermissionRecord>>, oldById: Option<map<int32, RolePermissionRecord>>): (r: set<int32>)
    ensures records.None? ==> r == {}
    ensures forall rec :: rec in NonNullList(records) && rec.roleId.Some? ==> rec.roleId.value in r
    ensures oldById.None? ==> forall x :: x in r ==> exists rec :: rec in NonNullList(records) && rec.roleId == Some(x)
  {
    var r := set rec | rec in NonNullList(records) && RoleIdOf(rec, oldById).Some? :: RoleIdOf(rec, oldById).value;
    assert forall rec :: rec in NonNullList(records) && rec.roleId.Some? ==> rec.roleId.value in r by {
      forall rec | rec in NonNullList(records) && rec.roleId.Some? ensures rec.roleId.value in r {
        assert RoleIdOf(rec, oldById) == rec.roleId;
      }
    }
    r
  }

  /** The users of the user-role rows whose role is one of `roleIds`. */
  function HoldersOf(db: Store, roleIds: set<int32>): (r: set<int32>)
    ensures forall u :: u in r <==> HeldRoles(db, u) * roleIds != {}
  {
    var r := set ur | ur in db.userRoles && ur.roleId in roleIds :: ur.userId;
    assert forall u :: u in r ==> HeldRoles(db, u) * roleIds != {} by {
      forall u | u in r ensures HeldRoles(db, u) * roleIds != {} {
        var ur :| ur in db.userRoles && ur.roleId in roleIds && ur.userId == u;
        assert ur.roleId in HeldRoles(db, u) * roleIds;
      }
    }
    assert forall u :: HeldRoles(db, u) * roleIds != {} ==> u in r by {
      forall u | HeldRoles(db, u) * roleIds != {} ensures u in r {
        assert |HeldRoles(db, u) * roleIds| != 0;
        var x :| x in HeldRoles(db, u) * roleIds;
        var ur :| ur in db.userRoles && ur.userId == u && ur.roleId == x;
      }
    }
    r
  }

  /** The query of the users that hold the records' roles; it fails when the store does. */
  function UserIdsForRecords(records: Option<seq<RolePermissionRecord>>, oldById: Option<map<int32, RolePermissionRecord>>,
                             db: Store, queryOk: bool): (r: Result<set<int32>, HookFailure>)
    ensures r.Success? <==> queryOk
    ensures r.Success? ==> forall u :: u in r.value <==> HeldRoles(db, u) * RoleIdsOf(records, oldById) != {}
  {
    if queryOk then Success(HoldersOf(db, RoleIdsOf(records, oldById)))
    else Failure(HoldersNotFound(RoleIdsOf(records, oldById)))
  }

  /** The role ids an update flushes: those of the records and, when given, those of the old records. */
  function UpdatedRoleIds(records: Option<seq<RolePermissionRecord>>, oldRecordList: Option<seq<RolePermissionRecord>>): (r: set<int32>)
    ensures RoleIdsOf(records, None) <= r
    ensures oldRecordList.Some? ==> RoleIdsOf(Some(oldRecordList.value), None) <= r
    ensures oldRecordList.None? ==> r <= RoleIdsOf(records, None)
  {
    assert forall x :: x in RoleIdsOf(records, None) ==>
      forall oldById :: x in RoleIdsOf(records, oldById) by {
      forall x, oldById | x in RoleIdsOf(records, None) ensures x in RoleIdsOf(records, oldById) {
        var rec :| rec in NonNullList(records) && rec.roleId == Some(x);
      }
    }
    if oldRecordList.Some? then
      RoleIdsOf(records, Some(OldRecordsById(oldRecordList.value))) + RoleIdsOf(Some(oldRecordList.value), None)
    else RoleIdsOf(records, None)
  }

  /** The role ids the records carry themselves. */
  function CarriedRoleIds(records: seq<RolePermissionRecord>): set<int32>
  {
    set rec | rec in records && rec.roleId.Some? :: rec.roleId.value
  }

  /**
   * The roles an update flushes are the roles the sent records carry and,
   * when the old records are given, the roles of the old records: reading
   * through to an old record never adds a role that the old records do not
   * already contribute, and without old records nothing is read through.
   */
  lemma {:induction false} UpdatedRoleIdsAreCarriedOrOld(records: Option<seq<RolePermissionRecord>>,
                                                       oldRecordList: Option<seq<RolePermissionRecord>>)
    ensures UpdatedRoleIds(records, oldRecordList)
            == CarriedRoleIds(NonNullList(records)) + (if oldRecordList.Some? then CarriedRoleIds(oldRecordList.value) else {})
  {
    var sent := NonNullList(records);
    if oldRecordList.Some? {
      var olds := oldRecordList.value;
      var oldById := Some(OldRecordsById(olds));
      forall x | x in RoleIdsOf(records, oldById)
        ensures x in CarriedRoleIds(sent) + CarriedRoleIds(olds)
      {
        var rec :| rec in sent && RoleIdOf(rec, oldById).Some? && RoleIdOf(rec, oldById).value == x;
        if rec.roleId.None? {
          var o := oldById.value[rec.id.value];
          assert o in olds && o.roleId == Some(x);
        }
      }
      forall x | x in CarriedRoleIds(sent)
        ensures x in RoleIdsOf(records, oldById)
      {
        var rec :| rec in sent && rec.roleId == Some(x);
        assert RoleIdOf(rec, oldById) == Some(x);
      }
      forall x | x in CarriedRoleIds(olds)
        ensures x in RoleIdsOf(Some(olds), None)
      {
        var rec :| rec in olds && rec.roleId == Some(x);
        assert RoleIdOf(rec, None) == Some(x);
      }
      forall x | x in RoleIdsOf(Some(olds), None)
        ensures x in CarriedRoleIds(olds)
      {
        var rec :| rec in olds && RoleIdOf(rec, None).Some? && RoleIdOf(rec, None).value == x;
      }
    } else {
      forall x | x in CarriedRoleIds(sent)
        ensures x in RoleIdsOf(records, None)
      {
        var rec :| rec in sent && rec.roleId == Some(x);
        assert RoleIdOf(rec, None) == Some(x);
      }
    }
  }

  /** Holders of a union of roles are the holders of either part. */
  lemma HoldersOfUnion(db: Store, a: set<int32>, b: set<int32>)
    ensures HoldersOf(db, a + b) == HoldersOf(db, a) + HoldersOf(db, b)
  {
  }

  method PostInsert(pm: PermissionManager, records: Option<seq<RolePermissionRecord>>, db: Store, queryOk: bool)
    returns (r: Result<Option<seq<RolePermissionRecord>>, HookFailure>)
    requires pm.Valid()
    modifies pm`userCache, pm`roleSetCache
    ensures pm.Valid() && pm.roleIdToRoleSetIds == old(pm.roleIdToRoleSetIds)
    ensures !queryOk ==> r.Failure? && pm.userCache == old(pm.userCache) && pm.roleSetCache == old(pm.roleSetCache)
    ensures queryOk ==>
      var roleIds := RoleIdsOf(records, None);
      && r == Success(records)
      && pm.userCache == old(pm.userCache) - HoldersOf(db, roleIds)
      && pm.roleSetCache == old(pm.roleSetCache) - SetsIndexedUnder(pm.roleIdToRoleSetIds, roleIds)
  {
    var users := UserIdsForRecords(records, None, db, queryOk);
    if users.Failure? {
      return Failure(users.error);
    }
    pm.FlushCacheForUpdatedUserIds(Some(users.value));
    var roleIds := RoleIdsOf(records, None);
    pm.FlushCacheForUpdatedRoleIds(Some(roleIds));
    r := Success(records);
  }

  method PostUpdate(pm: PermissionManager, records: Option<seq<RolePermissionRecord>>,
                    oldRecordList: Option<seq<RolePermissionRecord>>, db: Store, queryOk: bool)
    returns (r: Result<Option<seq<RolePermissionRecord>>, HookFailure>)
    requires pm.Valid()
    modifies pm`userCache, pm`roleSetCache
    ensures pm.Valid() && pm.roleIdToRoleSetIds == old(pm.roleIdToRoleSetIds)
    ensures !queryOk ==> r.Failure? && pm.userCache == old(pm.userCache) && pm.roleSetCache == old(pm.roleSetCache)
    ensures queryOk ==>
      var roleIds := UpdatedRoleIds(records, oldRecordList);
      && r == Success(records)
      && pm.userCache == old(pm.userCache) - HoldersOf(db, roleIds)
      && pm.roleSetCache == old(pm.roleSetCache) - SetsIndexedUnder(pm.roleIdToRoleSetIds, roleIds)
  {
    var oldById := if oldRecordList.Some? then Some(OldRecordsById(oldRecordList.value)) else None;
    var users := UserIdsForRecords(records, oldById, db, queryOk);
    if users.Failure? {
      return Failure(users.error);
    }
    var userIds := users.value;
    var roleIds := RoleIdsOf(records, oldById);
    if oldRecordList.Some? {
      // `queryOk` covers both queries of this hook: the first one answered, so this one does too
      var oldUsers := UserIdsForRecords(Some(oldRecordList.value), None, db, queryOk);
      HoldersOfUnion(db, roleIds, RoleIdsOf(Some(oldRecordList.value), None));
      userIds := userIds + oldUsers.value;
      roleIds := roleIds + RoleIdsOf(Some(oldRecordList.value), None);
    }
    pm.FlushCacheForUpdatedUserIds(Some(userIds));
    pm.FlushCacheForUpdatedRoleIds(Some(roleIds));
    r := Success(records);
  }

  method PostDelete(pm: PermissionManager, records: Option<seq<RolePermissionRecord>>, db: Store, queryOk: bool)
    returns (r: Result<Option<seq<RolePermissionRecord>>, HookFailure>)
    requires pm.Valid()
    modifies pm`userCache, pm`roleSetCache
    ensures pm.Valid() && pm.roleIdToRoleSetIds == old(pm.roleIdToRoleSetIds)
    ensures !queryOk ==> r.Failure? && pm.userCache == old(pm.userCache) && pm.roleSetCache == old(pm.roleSetCache)
    ensures queryOk ==>
      var roleIds := RoleIdsOf(records, None);
      && r == Success(records)
      && pm.userCache == old(pm.userCache) - HoldersOf(db, roleIds)
      && pm.roleSetCache == old(pm.roleSetCache) - SetsIndexedUnder(pm.roleIdToRoleSetIds, roleIds)
  {
    var users := UserIdsForRecords(records, None, db, queryOk);
    if users.Failure? {
      return Failure(users.error);
    }
    pm.FlushCacheForUpdatedUserIds(Some(users.value));
    var roleIds := RoleIdsOf(records, None);
    pm.FlushCacheForUpdatedRoleIds(Some(roleIds));
    r := Success(records);
  }

  /**
   * A record that does not carry its role id takes it from the old record
   * with its primary key.
   */
  lemma RoleIdFallsBackToOldRecord(rec: RolePermissionRecord, oldRecords: seq<RolePermissionRecord>, before: RolePermissionRecord)
    requires rec.roleId.None? && rec.id.Some?
    requires before in oldRecords && before.id == rec.id
    requires forall o :: o in oldRecords && o.id == rec.id ==> o == before
    ensures RoleIdOf(rec, Some(OldRecordsById(oldRecords))) == before.roleId
  {
  }

  /**
   * Against the old-record list: the role a record names is the one it
   * carries, or else the role of some old record with the record's primary
   * key; without old records, only a carried role counts.
   */
  lemma RoleIdComesFromRecordOrOldRecord(rec: RolePermissionRecord, oldRecordList: Option<seq<RolePermissionRecord>>)
    ensures var oldById := if oldRecordList.Some? then Some(OldRecordsById(oldRecordList.value)) else None;
            var r := RoleIdOf(rec, oldById);
            && (rec.roleId.Some? ==> r == rec.roleId)
            && (oldRecordList.None? ==> r == rec.roleId)
            && (r.Some? && rec.roleId.None? ==>
                  rec.id.Some? && exists o :: o in oldRecordList.value && o.id == rec.id && o.roleId == r)
  {
    if oldRecordList.Some? && rec.roleId.None? && rec.id.Some? {
      var byId := OldRecordsById(oldRecordList.value);
      if rec.id.value in byId {
        var o := byId[rec.id.value];
        assert o in oldRecordList.value && o.id == rec.id;
      }
    }
  }

  /**
   * Coherence after a change to role grants: when only role-permission rows
   * changed and every changed row names a role of `roleIds`, flushing the
   * holders of those roles and every role set indexed under them leaves each
   * remaining entry equal to a fresh resolution.
   */
  lemma RoleGrantFlushKeepsCoherence(userCache: map<int32, Entry>, roleSetCache: map<set<int32>, Entry>,
                                     index: map<int32, set<set<int32>>>, db: Store, db': Store, roleIds: set<int32>)
    requires UsersCoherent(userCache, db) && RoleSetsCoherent(roleSetCache, db) && Indexed(roleSetCache, index)
    requires db'.userPermissions == db.userPermissions && db'.userRoles == db.userRoles
    requires db'.permissionNames == db.permissionNames
    requires forall rp: RolePermissionRow :: rp.roleId !in roleIds ==> (rp in db.rolePermissions <==> rp in db'.rolePermissions)
    ensures UsersCoherent(userCache - HoldersOf(db', roleIds), db')
    ensures RoleSetsCoherent(roleSetCache - SetsIndexedUnder(index, roleIds), db')
  {
    var users := userCache - HoldersOf(db', roleIds);
    forall u | u in users
      ensures users[u].value == EffectivePermissionsForUser(db', u)
    {
      assert HeldRoles(db, u) * roleIds == {};
      UserResolutionFrame(db, db', u);
    }
    var roleSets := roleSetCache - SetsIndexedUnder(index, roleIds);
    forall rs | rs in roleSets
      ensures roleSets[rs].value == EffectivePermissionsForRoles(db', rs)
    {
      if rs * roleIds != {} {
        FlushByRolesReachesEveryDependent(roleSetCache, index, roleIds, rs);
        assert false;
      }
      RoleSetResolutionFrame(db, db', rs);
    }
  }
}
