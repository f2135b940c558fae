/**
 * The framework's mutation pipeline, reduced to what the cache depends on: a
 * batch of junction rows is committed to the store, and then the table's
 * post-insert, post-update or post-delete hook runs on the rows, with the old
 * rows on an update.  Each operation here proves the coherence theorem for
 * its kind of change: if every cache entry equalled a fresh resolution before
 * the change, every entry still does after the hook has run.
 */
module MutationPipeline {
  import opened Wrappers
  import opened Assignments
  import opened PermissionCache
  import UP = UserPermissionIntCustomizer
  import RP = RolePermissionIntCustomizer

  /** One updated row: as it was, as it is now, and the record the update sent for it. */
  datatype RowUpdate<Row, Rec> = RowUpdate(before: Row, after: Row, sent: Rec)

  function Befores<Row, Rec>(updates: seq<RowUpdate<Row, Rec>>): seq<Row>
  {
    seq(|updates|, k requires 0 <= k < |updates| => updates[k].before)
  }

  function Sent<Row, Rec>(updates: seq<RowUpdate<Row, Rec>>): seq<Rec>
  {
    seq(|updates|, k requires 0 <= k < |updates| => updates[k].sent)
  }

  /** The rows an update batch replaces, and the rows it puts in their place. */
  function RowsBefore<Row(==), Rec(==)>(updates: seq<RowUpdate<Row, Rec>>): set<Row>
  {
    set u | u in updates :: u.before
  }

  function RowsAfter<Row(==), Rec(==)>(updates: seq<RowUpdate<Row, Rec>>): set<Row>
  {
    set u | u in updates :: u.after
  }

  // ---------------------------------------------------------------------------
  // Direct grants: the user-permission table
  // ---------------------------------------------------------------------------

  /** A stored row as a record carrying every field. */
  function UserPermissionRecordOf(row: UserPermissionRow): UP.UserPermissionRecord
  {
    UP.UserPermissionRecord(Some(row.id), Some(row.userId), Some(row.permissionId))
  }

  function UserPermissionRecords(rows: seq<UserPermissionRow>): seq<UP.UserPermissionRecord>
  {
    seq(|rows|, k requires 0 <= k < |rows| => UserPermissionRecordOf(rows[k]))
  }

  /**
   * The record an update sends for a row: the row's primary key, and each
   * field either with its new value or left out because it did not change.
   */
  ghost predicate SentForUserPermission(sent: UP.UserPermissionRecord, before: UserPermissionRow, after: UserPermissionRow)
  {
    && before.id == after.id && sent.id == Some(after.id)
    && (sent.userId == Some(after.userId) || (sent.userId.None? && after.userId == before.userId))
    && (sent.permissionId == Some(after.permissionId) || (sent.permissionId.None? && after.permissionId == before.permissionId))
  }

  /** The user ids of full records are exactly the user ids of their rows. */
  lemma UserIdsOfFullRecords(rows: seq<UserPermissionRow>)
    ensures UP.UserIdsOf(UserPermissionRecords(rows)) == set row | row in rows :: row.userId
  {
    var records := UserPermissionRecords(rows);
    forall u | u in UP.UserIdsOf(records) ensures u in set row | row in rows :: row.userId {
      var rec :| rec in records && rec.userId == Some(u);
      var k :| 0 <= k < |records| && records[k] == rec;
      assert rows[k] in rows;
    }
    forall row | row in rows ensures row.userId in UP.UserIdsOf(records) {
      var k :| 0 <= k < |rows| && rows[k] == row;
      assert records[k] in records;
    }
  }

  /**
   * The users an update hook flushes include the user of every row before
   * and after the update: the old records give the former, and the sent
   * record gives the latter unless the user did not change.
   */
  lemma UpdateFlushCoversDirectGrants(updates: seq<RowUpdate<UserPermissionRow, UP.UserPermissionRecord>>)
    requires forall u :: u in updates ==> SentForUserPermission(u.sent, u.before, u.after)
    ensures var flushed := UP.UserIdsOf(Sent(updates)) + UP.UserIdsOf(UserPermissionRecords(Befores(updates)));
            forall u :: u in updates ==> u.before.userId in flushed && u.after.userId in flushed
  {
    var olds := UserPermissionRecords(Befores(updates));
    forall u | u in updates
      ensures u.before.userId in UP.UserIdsOf(olds)
      ensures u.after.userId in UP.UserIdsOf(Sent(updates)) + UP.UserIdsOf(olds)
    {
      var k :| 0 <= k < |updates| && updates[k] == u;
      assert olds[k] in olds;
      assert Sent(updates)[k] in Sent(updates);
    }
  }

  method InsertUserPermissions(pm: PermissionManager, db: Store, rows: seq<UserPermissionRow>) returns (db': Store)
    requires pm.CoherentWith(db)
    modifies pm`userCache
    ensures db' == db.(userPermissions := db.userPermissions + set row | row in rows)
    ensures pm.CoherentWith(db')
  {
    db' := db.(userPermissions := db.userPermissions + set row | row in rows);
    ghost var cached := pm.userCache;
    var records := UserPermissionRecords(rows);
    var out := UP.PostInsert(pm, Some(records));
    UserIdsOfFullRecords(rows);
    UP.DirectGrantFlushKeepsCoherence(cached, pm.roleSetCache, db, db', UP.UserIdsOf(records));
  }

  method UpdateUserPermissions(pm: PermissionManager, db: Store,
                               updates: seq<RowUpdate<UserPermissionRow, UP.UserPermissionRecord>>) returns (db': Store)
    requires pm.CoherentWith(db)
    requires forall u :: u in updates ==> SentForUserPermission(u.sent, u.before, u.after)
    modifies pm`userCache
    ensures db' == db.(userPermissions := db.userPermissions - RowsBefore(updates) + RowsAfter(updates))
    ensures pm.CoherentWith(db')
  {
    db' := db.(userPermissions := db.userPermissions - RowsBefore(updates) + RowsAfter(updates));
    ghost var cached := pm.userCache;
    var oldRecords := UserPermissionRecords(Befores(updates));
    var out := UP.PostUpdate(pm, Some(Sent(updates)), Some(oldRecords));
    UpdateFlushCoversDirectGrants(updates);
    UP.DirectGrantFlushKeepsCoherence(cached, pm.roleSetCache, db, db',
                                      UP.UserIdsOf(Sent(updates)) + UP.UserIdsOf(oldRecords));
  }

  method DeleteUserPermissions(pm: PermissionManager, db: Store, rows: seq<UserPermissionRow>) returns (db': Store)
    requires pm.CoherentWith(db)
    modifies pm`userCache
    ensures db' == db.(userPermissions := db.userPermissions - set row | row in rows)
    ensures pm.CoherentWith(db')
  {
    db' := db.(userPermissions := db.userPermissions - set row | row in rows);
    ghost var cached := pm.userCache;
    var records := UserPermissionRecords(rows);
    var out := UP.PostDelete(pm, Some(records));
    UserIdsOfFullRecords(rows);
    UP.DirectGrantFlushKeepsCoherence(cached, pm.roleSetCache, db, db', UP.UserIdsOf(records));
  }

  // ---------------------------------------------------------------------------
  // Role grants: the role-permission table
  // ---------------------------------------------------------------------------

  function RolePermissionRecordOf(row: RolePermissionRow): RP.RolePermissionRecord
  {
    RP.RolePermissionRecord(Some(row.id), Some(row.roleId), Some(row.permissionId))
  }

  function RolePermissionRecords(rows: seq<RolePermissionRow>): seq<RP.RolePermissionRecord>
  {
    seq(|rows|, k requires 0 <= k < |rows| => RolePermissionRecordOf(rows[k]))
  }

  ghost predicate SentForRolePermission(sent: RP.RolePermissionRecord, before: RolePermissionRow, after: RolePermissionRow)
  {
    && before.id == after.id && sent.id == Some(after.id)
    && (sent.roleId == Some(after.roleId) || (sent.roleId.None? && after.roleId == before.roleId))
    && (sent.permissionId == Some(after.permissionId) || (sent.permissionId.None? && after.permissionId == before.permissionId))
  }

  /** The role ids of full records are exactly the role ids of their rows. */
  lemma RoleIdsOfFullRecords(rows: seq<RolePermissionRow>)
    ensures RP.RoleIdsOf(Some(RolePermissionRecords(rows)), None) == set row | row in rows :: row.roleId
  {
    var records := RolePermissionRecords(rows);
    forall x | x in RP.RoleIdsOf(Some(records), None) ensures x in set row | row in rows :: row.roleId {
      var rec :| rec in records && RP.RoleIdOf(rec, None) == Some(x);
      var k :| 0 <= k < |records| && records[k] == rec;
      assert rows[k] in rows;
    }
    forall row | row in rows ensures row.roleId in RP.RoleIdsOf(Some(records), None) {
      var k :| 0 <= k < |rows| && rows[k] == row;
      assert records[k] in NonNullList(Some(records)) && RP.RoleIdOf(records[k], None) == Some(row.roleId);
    }
  }

  /**
   * The roles a role-permission update flushes include the role of every row
   * before and after the update.
   */
  lemma UpdateFlushCoversRoleGrants(updates: seq<RowUpdate<RolePermissionRow, RP.RolePermissionRecord>>)
    requires forall u :: u in updates ==> SentForRolePermission(u.sent, u.before, u.after)
    ensures var flushed := RP.UpdatedRoleIds(Some(Sent(updates)), Some(RolePermissionRecords(Befores(updates))));
            forall u :: u in updates ==> u.before.roleId in flushed && u.after.roleId in flushed
  {
    var olds := RolePermissionRecords(Befores(updates));
    var oldById := Some(RP.OldRecordsById(olds));
    forall u | u in updates
      ensures u.before.roleId in RP.RoleIdsOf(Some(olds), None)
      ensures u.after.roleId in RP.RoleIdsOf(Some(Sent(updates)), oldById) + RP.RoleIdsOf(Some(olds), None)
    {
      var k :| 0 <= k < |updates| && updates[k] == u;
      assert olds[k] in olds && RP.RoleIdOf(olds[k], None) == Some(u.before.roleId);
      var sent := Sent(updates)[k];
      assert sent in Sent(updates);
      if sent.roleId.Some? {
        assert RP.RoleIdOf(sent, oldById) == Some(u.after.roleId);
      }
    }
  }

  method InsertRolePermissions(pm: PermissionManager, db: Store, rows: seq<RolePermissionRow>, queryOk: bool)
    returns (db': Store, r: Result<Option<seq<RP.RolePermissionRecord>>, RP.HookFailure>)
    requires pm.CoherentWith(db)
    modifies pm`userCache, pm`roleSetCache
    ensures db' == db.(rolePermissions := db.rolePermissions + set row | row in rows)
    ensures r.Success? <==> queryOk
    ensures r.Success? ==> pm.CoherentWith(db')
    ensures r.Failure? ==> pm.userCache == old(pm.userCache) && pm.roleSetCache == old(pm.roleSetCache)
  {
    db' := db.(rolePermissions := db.rolePermissions + set row | row in rows);
    ghost var users, roleSets, index := pm.userCache, pm.roleSetCache, pm.roleIdToRoleSetIds;
    var records := RolePermissionRecords(rows);
    r := RP.PostInsert(pm, Some(records), db', queryOk);
    if r.Success? {
      RoleIdsOfFullRecords(rows);
      RP.RoleGrantFlushKeepsCoherence(users, roleSets, index, db, db', RP.RoleIdsOf(Some(records), None));
    }
  }

  method UpdateRolePermissions(pm: PermissionManager, db: Store,
                               updates: seq<RowUpdate<RolePermissionRow, RP.RolePermissionRecord>>, queryOk: bool)
    returns (db': Store, r: Result<Option<seq<RP.RolePermissionRecord>>, RP.HookFailure>)
    requires pm.CoherentWith(db)
    requires forall u :: u in updates ==> SentForRolePermission(u.sent, u.before, u.after)
    modifies pm`userCache, pm`roleSetCache
    ensures db' == db.(rolePermissions := db.rolePermissions - RowsBefore(updates) + RowsAfter(updates))
    ensures r.Success? <==> queryOk
    ensures r.Success? ==> pm.CoherentWith(db')
    ensures r.Failure? ==> pm.userCache == old(pm.userCache) && pm.roleSetCache == old(pm.roleSetCache)
  {
    db' := db.(rolePermissions := db.rolePermissions - RowsBefore(updates) + RowsAfter(updates));
    ghost var users, roleSets, index := pm.userCache, pm.roleSetCache, pm.roleIdToRoleSetIds;
    var oldRecords := RolePermissionRecords(Befores(updates));
    r := RP.PostUpdate(pm, Some(Sent(updates)), Some(oldRecords), db', queryOk);
    if r.Success? {
      UpdateFlushCoversRoleGrants(updates);
      RP.RoleGrantFlushKeepsCoherence(users, roleSets, index, db, db',
                                      RP.UpdatedRoleIds(Some(Sent(updates)), Some(oldRecords)));
    }
  }

  method DeleteRolePermissions(pm: PermissionManager, db: Store, rows: seq<RolePermissionRow>, queryOk: bool)
    returns (db': Store, r: Result<Option<seq<RP.RolePermissionRecord>>, RP.HookFailure>)
    requires pm.CoherentWith(db)
    modifies pm`userCache, pm`roleSetCache
    ensures db' == db.(rolePermissions := db.rolePermissions - set row | row in rows)
    ensures r.Success? <==> queryOk
    ensures r.Success? ==> pm.CoherentWith(db')
    ensures r.Failure? ==> pm.userCache == old(pm.userCache) && pm.roleSetCache == old(pm.roleSetCache)
  {
    db' := db.(rolePermissions := db.rolePermissions - set row | row in rows);
    ghost var users, roleSets, index := pm.userCache, pm.roleSetCache, pm.roleIdToRoleSetIds;
    var records := RolePermissionRecords(rows);
    r := RP.PostDelete(pm, Some(records), db', queryOk);
    if r.Success? {
      RoleIdsOfFullRecords(rows);
      RP.RoleGrantFlushKeepsCoherence(users, roleSets, index, db, db', RP.RoleIdsOf(Some(records), None));
    }
  }

  // ---------------------------------------------------------------------------
  // Role membership: the user-role table, whose hook is outside this model
  // ---------------------------------------------------------------------------

  /**
   * Coherence after a change to role memberships: flushing every user that a
   * changed user-role row names keeps every remaining entry coherent, and the
   * role-set table needs no flush at all.
   */
  lemma MembershipFlushKeepsCoherence(userCache: map<int32, Entry>, roleSetCache: map<set<int32>, Entry>,
                                      db: Store, db': Store, flushed: set<int32>)
    requires UsersCoherent(userCache, db) && RoleSetsCoherent(roleSetCache, db)
    requires db'.userPermissions == db.userPermissions && db'.rolePermissions == db.rolePermissions
    requires db'.permissionNames == db.permissionNames
    requires forall ur: UserRoleRow :: ur.userId !in flushed ==> (ur in db.userRoles <==> ur in db'.userRoles)
    ensures UsersCoherent(userCache - flushed, db') && RoleSetsCoherent(roleSetCache, db')
  {
    forall u | u in userCache - flushed
      ensures (userCache - flushed)[u].value == EffectivePermissionsForUser(db', u)
    {
      UserResolutionFrame(db, db', u);
    }
    forall rs | rs in roleSetCache
      ensures roleSetCache[rs].value == EffectivePermissionsForRoles(db', rs)
    {
      RoleSetResolutionFrame(db, db', rs);
    }
  }

  /**
   * A change to role memberships: `removed` rows leave the store and `added`
   * rows enter it (an insert, a delete, or an update as both).  The user-role
   * hook is taken to flush the user of every row before and after.
   */
  method ChangeUserRoles(pm: PermissionManager, db: Store, removed: set<UserRoleRow>, added: set<UserRoleRow>)
    returns (db': Store)
    requires pm.CoherentWith(db)
    modifies pm`userCache
    ensures db' == db.(userRoles := db.userRoles - removed + added)
    ensures pm.CoherentWith(db')
  {
    db' := db.(userRoles := db.userRoles - removed + added);
    ghost var cached := pm.userCache;
    var userIds := (set ur | ur in removed :: ur.userId) + (set ur | ur in added :: ur.userId);
    pm.FlushCacheForUpdatedUserIds(Some(userIds));
    MembershipFlushKeepsCoherence(cached, pm.roleSetCache, db, db', userIds);
  }
}
