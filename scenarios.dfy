/**
 * Concrete runs of the cache against small stores: a fresh manager, a store
 * with permissions "a", "b" and "c", and the lookups a caller makes between
 * mutations.  Each run states what every lookup returns.
 */
module Scenarios {
  import opened Wrappers
  import opened Assignments
  import opened PermissionCache
  import opened MutationPipeline
  import UP = UserPermissionIntCustomizer
  import RP = RolePermissionIntCustomizer

  /** Permissions a, b and c, and nothing assigned. */
  function EmptyStore(): Store
  {
    Store({}, {}, {}, map[1 := "a", 2 := "b", 3 := "c"])
  }

  /** In a store whose only assignment is one direct grant, only its user holds its permission. */
  lemma OneDirectGrant(db: Store, row: UserPermissionRow, u: int32)
    requires db.userRoles == {} && db.userPermissions == {row} && row.permissionId in db.permissionNames
    ensures EffectivePermissionsForUser(db, u) == if row.userId == u then {db.permissionNames[row.permissionId]} else {}
  {
    assert NamesViaRoles(db, u) == {};
    if row.userId == u {
      assert db.permissionNames[row.permissionId] in DirectNames(db, u);
    }
  }

  /** A one-row update replaces exactly its row. */
  lemma OneRowUpdate<Row, Rec>(update: RowUpdate<Row, Rec>)
    ensures RowsBefore([update]) == {update.before} && RowsAfter([update]) == {update.after}
  {
    assert update in [update];
  }

  /** The store whose only assignment is `row`. */
  function DirectGrantStore(row: UserPermissionRow): Store
  {
    EmptyStore().(userPermissions := {row})
  }

  /** Two users look up their permissions in an empty store, then user 1 is granted "a" and looks again. */
  method GrantA() returns (pm: PermissionManager, seen: seq<set<string>>)
    ensures fresh(pm) && pm.CoherentWith(DirectGrantStore(UserPermissionRow(10, 1, 1)))
    ensures seen == [{}, {}, {"a"}]
  {
    pm := new PermissionManager();
    var db := EmptyStore();
    var r1 := pm.GetEffectivePermissionsForUser(Some(1), db, 0, true);
    var r2 := pm.GetEffectivePermissionsForUser(Some(2), db, 0, true);
    NoAssignmentsNoPermissions(db, 1);
    NoAssignmentsNoPermissions(db, 2);
    var granted := UserPermissionRow(10, 1, 1);
    db := InsertUserPermissions(pm, db, [granted]);
    assert db == DirectGrantStore(granted);
    var r3 := pm.GetEffectivePermissionsForUser(Some(1), db, 0, true);
    OneDirectGrant(db, granted, 1);
    seen := [r1.value, r2.value, r3.value];
  }

  /**
   * Sends `sent` as an update of the only row, `before`, to `after`, and then
   * both users look up their permissions.
   */
  method UpdateOnlyGrant(pm: PermissionManager, before: UserPermissionRow, after: UserPermissionRow,
                         sent: UP.UserPermissionRecord) returns (seen: seq<set<string>>)
    requires pm.CoherentWith(DirectGrantStore(before))
    requires SentForUserPermission(sent, before, after)
    requires after.permissionId in EmptyStore().permissionNames
    modifies pm`userCache
    ensures pm.CoherentWith(DirectGrantStore(after))
    ensures var name := EmptyStore().permissionNames[after.permissionId];
            seen == [if after.userId == 1 then {name} else {}, if after.userId == 2 then {name} else {}]
  {
    var update := RowUpdate(before, after, sent);
    var db := UpdateUserPermissions(pm, DirectGrantStore(before), [update]);
    OneRowUpdate(update);
    assert db == DirectGrantStore(after);
    var r1 := pm.GetEffectivePermissionsForUser(Some(1), db, 0, true);
    var r2 := pm.GetEffectivePermissionsForUser(Some(2), db, 0, true);
    OneDirectGrant(db, after, 1);
    OneDirectGrant(db, after, 2);
    seen := [r1.value, r2.value];
  }

  /** The only grant, `row`, is deleted, and its user looks up their permissions. */
  method RevokeOnlyGrant(pm: PermissionManager, row: UserPermissionRow) returns (seen: set<string>)
    requires pm.CoherentWith(DirectGrantStore(row))
    modifies pm`userCache
    ensures pm.CoherentWith(EmptyStore())
    ensures seen == {}
  {
    var db := DeleteUserPermissions(pm, DirectGrantStore(row), [row]);
    assert db == EmptyStore();
    var r := pm.GetEffectivePermissionsForUser(Some(row.userId), db, 0, true);
    NoAssignmentsNoPermissions(db, row.userId);
    seen := r.value;
  }

  /** User 1 is granted a, b and c directly, one insert at a time, and looks up their permissions. */
  method GrantAll(pm: PermissionManager) returns (seen: set<string>)
    requires pm.CoherentWith(EmptyStore())
    modifies pm`userCache
    ensures seen == {"a", "b", "c"}
  {
    var rowA, rowB, rowC := UserPermissionRow(11, 1, 1), UserPermissionRow(12, 1, 2), UserPermissionRow(13, 1, 3);
    var db := InsertUserPermissions(pm, EmptyStore(), [rowA]);
    db := InsertUserPermissions(pm, db, [rowB]);
    db := InsertUserPermissions(pm, db, [rowC]);
    var r := pm.GetEffectivePermissionsForUser(Some(1), db, 0, true);
    assert rowA in db.userPermissions && rowB in db.userPermissions && rowC in db.userPermissions;
    assert "a" in DirectNames(db, 1) && "b" in DirectNames(db, 1) && "c" in DirectNames(db, 1);
    assert db.permissionNames.Values == {"a", "b", "c"} by {
      assert db.permissionNames[1] == "a" && db.permissionNames[2] == "b" && db.permissionNames[3] == "c";
    }
    seen := r.value;
  }

  /**
   * A direct grant is made, changed to another permission, moved to another
   * user and moved back, each update sending only the field it changes; it is
   * then revoked, and three grants are made one after another.  Every
   * lookup sees the store as it is.
   */
  method DirectGrantMoves() returns (seen: seq<set<string>>)
    ensures seen == [{}, {}, {"a"}, {"b"}, {}, {}, {"b"}, {"b"}, {}, {}, {"a", "b", "c"}]
  {
    var pm, granted := GrantA();
    var changed := UpdateOnlyGrant(pm, UserPermissionRow(10, 1, 1), UserPermissionRow(10, 1, 2),
                                   UP.UserPermissionRecord(Some(10), None, Some(2)));
    var moved := UpdateOnlyGrant(pm, UserPermissionRow(10, 1, 2), UserPermissionRow(10, 2, 2),
                                 UP.UserPermissionRecord(Some(10), Some(2), None));
    var back := UpdateOnlyGrant(pm, UserPermissionRow(10, 2, 2), UserPermissionRow(10, 1, 2),
                                UP.UserPermissionRecord(Some(10), Some(1), None));
    var revoked := RevokeOnlyGrant(pm, UserPermissionRow(10, 1, 2));
    var all := GrantAll(pm);
    seen := granted + changed + moved + back + [revoked, all];
  }

  /** User 1 holds role 100 and user 2 holds role 200; `grant` is the only grant of a permission to a role. */
  function RoleGrantStore(grant: RolePermissionRow): Store
  {
    EmptyStore().(userRoles := {UserRoleRow(20, 1, 100), UserRoleRow(21, 2, 200)}, rolePermissions := {grant})
  }

  /** In a role-grant store, a user has the granted permission exactly when the user holds the granted role. */
  lemma OneRoleGrant(grant: RolePermissionRow, u: int32)
    requires grant.permissionId in EmptyStore().permissionNames
    ensures var holds := (u == 1 && grant.roleId == 100) || (u == 2 && grant.roleId == 200);
            EffectivePermissionsForUser(RoleGrantStore(grant), u)
            == if holds then {EmptyStore().permissionNames[grant.permissionId]} else {}
  {
    var db := RoleGrantStore(grant);
    assert DirectNames(db, u) == {};
    if (u == 1 && grant.roleId == 100) {
      assert EmptyStore().permissionNames[grant.permissionId] in NamesViaRoles(db, u) by {
        assert UserRoleRow(20, 1, 100) in db.userRoles && grant in db.rolePermissions;
      }
    } else if (u == 2 && grant.roleId == 200) {
      assert EmptyStore().permissionNames[grant.permissionId] in NamesViaRoles(db, u) by {
        assert UserRoleRow(21, 2, 200) in db.userRoles && grant in db.rolePermissions;
      }
    }
  }

  /**
   * Two users with no roles look up their permissions; they are given roles
   * 100 and 200, role 100 is granted "a", and both look again.
   */
  method GrantRoleA() returns (pm: PermissionManager, seen: seq<set<string>>)
    ensures fresh(pm) && pm.CoherentWith(RoleGrantStore(RolePermissionRow(30, 100, 1)))
    ensures seen == [{}, {}, {"a"}, {}]
  {
    pm := new PermissionManager();
    var db := EmptyStore();
    var r1 := pm.GetEffectivePermissionsForUser(Some(1), db, 0, true);
    var r2 := pm.GetEffectivePermissionsForUser(Some(2), db, 0, true);
    NoAssignmentsNoPermissions(db, 1);
    NoAssignmentsNoPermissions(db, 2);
    db := ChangeUserRoles(pm, db, {}, {UserRoleRow(20, 1, 100), UserRoleRow(21, 2, 200)});
    var grant := RolePermissionRow(30, 100, 1);
    var r;
    db, r := InsertRolePermissions(pm, db, [grant], true);
    assert db == RoleGrantStore(grant);
    var r3 := pm.GetEffectivePermissionsForUser(Some(1), db, 0, true);
    var r4 := pm.GetEffectivePermissionsForUser(Some(2), db, 0, true);
    OneRoleGrant(grant, 1);
    OneRoleGrant(grant, 2);
    seen := [r1.value, r2.value, r3.value, r4.value];
  }

  /**
   * Sends `sent` as an update of the only role grant, `before`, to `after`,
   * and then both users look up their permissions.
   */
  method UpdateOnlyRoleGrant(pm: PermissionManager, before: RolePermissionRow, after: RolePermissionRow,
                             sent: RP.RolePermissionRecord) returns (seen: seq<set<string>>)
    requires pm.CoherentWith(RoleGrantStore(before))
    requires SentForRolePermission(sent, before, after)
    requires after.permissionId in EmptyStore().permissionNames
    modifies pm`userCache, pm`roleSetCache
    ensures pm.CoherentWith(RoleGrantStore(after))
    ensures var name := EmptyStore().permissionNames[after.permissionId];
            seen == [if after.roleId == 100 then {name} else {}, if after.roleId == 200 then {name} else {}]
  {
    var update := RowUpdate(before, after, sent);
    var db, r := UpdateRolePermissions(pm, RoleGrantStore(before), [update], true);
    OneRowUpdate(update);
    assert db == RoleGrantStore(after);
    var r1 := pm.GetEffectivePermissionsForUser(Some(1), db, 0, true);
    var r2 := pm.GetEffectivePermissionsForUser(Some(2), db, 0, true);
    OneRoleGrant(after, 1);
    OneRoleGrant(after, 2);
    seen := [r1.value, r2.value];
  }

  /** The only role grant, `grant`, is deleted, and both users look up their permissions. */
  method RevokeOnlyRoleGrant(pm: PermissionManager, grant: RolePermissionRow) returns (seen: seq<set<string>>)
    requires pm.CoherentWith(RoleGrantStore(grant))
    modifies pm`userCache, pm`roleSetCache
    ensures seen == [{}, {}]
  {
    var db, r := DeleteRolePermissions(pm, RoleGrantStore(grant), [grant], true);
    assert db.rolePermissions == {} && db.userPermissions == {};
    var r1 := pm.GetEffectivePermissionsForUser(Some(1), db, 0, true);
    var r2 := pm.GetEffectivePermissionsForUser(Some(2), db, 0, true);
    assert EffectivePermissionsForUser(db, 1) == {} && EffectivePermissionsForUser(db, 2) == {};
    seen := [r1.value, r2.value];
  }

  /**
   * A role grant is switched to another permission and then moved to
   * another role, each update sending only the field it changes: the user
   * holding the old role loses the permission and the user holding the new
   * role gains it.  When the grant is deleted, its holder loses it.
   */
  method RoleGrantMoves() returns (seen: seq<set<string>>)
    ensures seen == [{}, {}, {"a"}, {}, {"b"}, {}, {}, {"b"}, {}, {}]
  {
    var pm, granted := GrantRoleA();
    var switched := UpdateOnlyRoleGrant(pm, RolePermissionRow(30, 100, 1), RolePermissionRow(30, 100, 2),
                                        RP.RolePermissionRecord(Some(30), None, Some(2)));
    var moved := UpdateOnlyRoleGrant(pm, RolePermissionRow(30, 100, 2), RolePermissionRow(30, 200, 2),
                                     RP.RolePermissionRecord(Some(30), Some(200), None));
    var revoked := RevokeOnlyRoleGrant(pm, RolePermissionRow(30, 200, 2));
    seen := granted + switched + moved + revoked;
  }

  /**
   * An entry is served from the cache until it expires: a grant committed
   * without running its hook is invisible to a lookup one millisecond before
   * the timeout and visible to a lookup at the timeout.
   */
  method EntryExpires() returns (seen: seq<set<string>>)
    ensures seen == [{}, {}, {"a"}]
  {
    var pm := new PermissionManager();
    var db := EmptyStore();
    var r1 := pm.GetEffectivePermissionsForUser(Some(1), db, 0, true);
    NoAssignmentsNoPermissions(db, 1);
    var grant := UserPermissionRow(10, 1, 1);
    db := DirectGrantStore(grant);
    var r2 := pm.GetEffectivePermissionsForUser(Some(1), db, TimeoutMillis - 1, true);
    var r3 := pm.GetEffectivePermissionsForUser(Some(1), db, TimeoutMillis, true);
    OneDirectGrant(db, grant, 1);
    seen := [r1.value, r2.value, r3.value];
  }
}
