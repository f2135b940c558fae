/**
 * The post-insert, post-update and post-delete hooks of the user-permission
 * junction table.  Each flushes the user entries of every user a changed row
 * names; none of them touches the role-set table or the index.
 */
module UserPermissionIntCustomizer {
  import opened Wrappers
  import opened Assignments
  import opened PermissionCache

  /**
   * A user-permission record as a hook receives it.  A field the record does
   * not carry (an update sends only the primary key and the changed fields)
   * is None.
   */
  datatype UserPermissionRecord = UserPermissionRecord(id: Option<int32>, userId: Option<int32>, permissionId: Option<int32>)

  /** The user ids the records carry. */
  function UserIdsOf(records: seq<UserPermissionRecord>): set<int32>
  {
    set rec | rec in records && rec.userId.Some? :: rec.userId.value
  }

  /** Flushes the users of the inserted rows; a null list flushes nothing. */
  method PostInsert(pm: PermissionManager, records: Option<seq<UserPermissionRecord>>)
    returns (out: Option<seq<UserPermissionRecord>>)
    requires pm.Valid()
    modifies pm`userCache
    ensures pm.Valid()
    ensures out == records
    ensures pm.userCache == old(pm.userCache) - UserIdsOf(NonNullList(records))
    ensures pm.roleSetCache == old(pm.roleSetCache) && pm.roleIdToRoleSetIds == old(pm.roleIdToRoleSetIds)
  {
    var userIds := UserIdsOf(NonNullList(records));
    pm.FlushCacheForUpdatedUserIds(Some(userIds));
    out := records;
  }

  /**
   * Flushes the users the updated records carry and, when the old records
   * are given, the users of the old records as well.
   */
  method PostUpdate(pm: PermissionManager, records: Option<seq<UserPermissionRecord>>,
                    oldRecordList: Option<seq<UserPermissionRecord>>)
    returns (out: Option<seq<UserPermissionRecord>>)
    requires pm.Valid()
    modifies pm`userCache
    ensures pm.Valid()
    ensures out == records
    ensures oldRecordList.None? ==> pm.userCache == old(pm.userCache) - UserIdsOf(NonNullList(records))
    ensures oldRecordList.Some? ==>
      pm.userCache == old(pm.userCache) - (UserIdsOf(NonNullList(records)) + UserIdsOf(oldRecordList.value))
    ensures pm.roleSetCache == old(pm.roleSetCache) && pm.roleIdToRoleSetIds == old(pm.roleIdToRoleSetIds)
  {
    var userIds := UserIdsOf(NonNullList(records));
    if oldRecordList.Some? {
      userIds := userIds + UserIdsOf(oldRecordList.value);
    }
    pm.FlushCacheForUpdatedUserIds(Some(userIds));
    out := records;
  }

  /** Flushes the users of the deleted rows; a null list flushes nothing. */
  method PostDelete(pm: PermissionManager, records: Option<seq<UserPermissionRecord>>)
    returns (out: Option<seq<UserPermissionRecord>>)
    requires pm.Valid()
    modifies pm`userCache
    ensures pm.Valid()
    ensures out == records
    ensures pm.userCache == old(pm.userCache) - UserIdsOf(NonNullList(records))
    ensures pm.roleSetCache == old(pm.roleSetCache) && pm.roleIdToRoleSetIds == old(pm.roleIdToRoleSetIds)
  {
    var userIds := UserIdsOf(NonNullList(records));
    pm.FlushCacheForUpdatedUserIds(Some(userIds));
    out := records;
  }

  /**
   * Coherence after a change to direct grants: when only user-permission rows
   * changed, flushing every user that a changed row names leaves each
   * remaining entry, of both tables, equal to a fresh resolution.
   */
  lemma DirectGrantFlushKeepsCoherence(userCache: map<int32, Entry>, roleSetCache: map<set<int32>, Entry>,
                                       db: Store, db': Store, flushed: set<int32>)
    requires UsersCoherent(userCache, db) && RoleSetsCoherent(roleSetCache, db)
    requires db'.userRoles == db.userRoles && db'.rolePermissions == db.rolePermissions
    requires db'.permissionNames == db.permissionNames
    requires forall up: UserPermissionRow :: up.userId !in flushed ==> (up in db.userPermissions <==> up in db'.userPermissions)
    ensures UsersCoherent(userCache - flushed, db') && RoleSetsCoherent(roleSetCache, db')
  {
    forall u | u in userCache - flushed
      ensures (userCache - flushed)[u].value == EffectivePermissionsForUser(db', u)
    {
      UserResolutionFrame(db, db', u);
    }
    forall rs | rs in roleSetCache
      ensures roleSetCache[rs].value == EffectivePermissionsForRoles(db', rs)
    {
      RoleSetResolutionFrame(db, db', rs);
    }
  }
}
