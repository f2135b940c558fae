/**
 * The assignment store the permission resolver reads, and the two resolutions
 * it computes from it.  A store is a snapshot of the three junction tables and
 * of the permission table (permission id to name).  A junction row that names
 * a permission id missing from the permission table is dropped by the join, as
 * an inner join would drop it.
 */
module Assignments {
  import opened Wrappers

  /** A direct grant of a permission to a user. */
  datatype UserPermissionRow = UserPermissionRow(id: int32, userId: int32, permissionId: int32)

  /** Membership of a user in a role. */
  datatype UserRoleRow = UserRoleRow(id: int32, userId: int32, roleId: int32)

  /** A grant of a permission to a role. */
  datatype RolePermissionRow = RolePermissionRow(id: int32, roleId: int32, permissionId: int32)

  datatype Store = Store(
    userPermissions: set<UserPermissionRow>,
    userRoles: set<UserRoleRow>,
    rolePermissions: set<RolePermissionRow>,
    permissionNames: map<int32, string>)

  /** Names reached along user -> user-role row -> role-permission row -> permission. */
  function NamesViaRoles(db: Store, userId: int32): (r: set<string>)
    ensures r <= db.permissionNames.Values
  {
    set ur, rp | ur in db.userRoles && rp in db.rolePermissions
                 && ur.userId == userId && rp.roleId == ur.roleId
                 && rp.permissionId in db.permissionNames
      :: db.permissionNames[rp.permissionId]
  }

  /** Names reached along user -> user-permission row -> permission. */
  function DirectNames(db: Store, userId: int32): (r: set<string>)
    ensures r <= db.permissionNames.Values
  {
    set up | up in db.userPermissions && up.userId == userId
             && up.permissionId in db.permissionNames
      :: db.permissionNames[up.permissionId]
  }

  /**
   * A user's effective permissions, as the uncached resolver computes them:
   * the names from the role join united with the names from direct grants.
   */
  function EffectivePermissionsForUser(db: Store, userId: int32): (r: set<string>)
    ensures r <= db.permissionNames.Values
    ensures DirectNames(db, userId) <= r
  {
    NamesViaRoles(db, userId) + DirectNames(db, userId)
  }

  /** The permissions granted to some role of `roleIds`, as the uncached resolver computes them. */
  function EffectivePermissionsForRoles(db: Store, roleIds: set<int32>): (r: set<string>)
    ensures r <= db.permissionNames.Values
    ensures roleIds == {} ==> r == {}
  {
    set rp | rp in db.rolePermissions && rp.roleId in roleIds
             && rp.permissionId in db.permissionNames
      :: db.permissionNames[rp.permissionId]
  }

  /** The roles a user holds. */
  function HeldRoles(db: Store, userId: int32): set<int32>
  {
    set ur | ur in db.userRoles && ur.userId == userId :: ur.roleId
  }

  /** The two resolvers agree: a user's permissions are those of the role set the user holds, plus direct grants. */
  lemma UserResolutionThroughHeldRoles(db: Store, userId: int32)
    ensures EffectivePermissionsForUser(db, userId)
            == EffectivePermissionsForRoles(db, HeldRoles(db, userId)) + DirectNames(db, userId)
  {
    var viaRoles := NamesViaRoles(db, userId);
    var ofHeld := EffectivePermissionsForRoles(db, HeldRoles(db, userId));
    forall n | n in viaRoles ensures n in ofHeld {
      var ur, rp :| ur in db.userRoles && rp in db.rolePermissions
                    && ur.userId == userId && rp.roleId == ur.roleId
                    && rp.permissionId in db.permissionNames
                    && n == db.permissionNames[rp.permissionId];
      assert rp.roleId in HeldRoles(db, userId);
    }
    forall n | n in ofHeld ensures n in viaRoles {
      var rp :| rp in db.rolePermissions && rp.roleId in HeldRoles(db, userId)
                && rp.permissionId in db.permissionNames
                && n == db.permissionNames[rp.permissionId];
      var ur :| ur in db.userRoles && ur.userId == userId && ur.roleId == rp.roleId;
    }
  }

  /** A user with no direct grants and no role memberships has no permissions. */
  lemma NoAssignmentsNoPermissions(db: Store, userId: int32)
    requires forall up :: up in db.userPermissions ==> up.userId != userId
    requires forall ur :: ur in db.userRoles ==> ur.userId != userId
    ensures EffectivePermissionsForUser(db, userId) == {}
  {
  }

  /**
   * What a user resolves to depends only on that user's own rows, and on the
   * role grants of the roles that user holds.
   */
  lemma UserResolutionFrame(db: Store, db': Store, userId: int32)
    requires db'.permissionNames == db.permissionNames
    requires forall up: UserPermissionRow :: up.userId == userId ==> (up in db.userPermissions <==> up in db'.userPermissions)
    requires forall ur: UserRoleRow :: ur.userId == userId ==> (ur in db.userRoles <==> ur in db'.userRoles)
    requires forall rp: RolePermissionRow :: rp.roleId in HeldRoles(db, userId) ==> (rp in db.rolePermissions <==> rp in db'.rolePermissions)
    ensures EffectivePermissionsForUser(db', userId) == EffectivePermissionsForUser(db, userId)
  {
    assert HeldRoles(db', userId) == HeldRoles(db, userId);
    RoleSetResolutionFrame(db, db', HeldRoles(db, userId));
    UserResolutionThroughHeldRoles(db, userId);
    UserResolutionThroughHeldRoles(db', userId);
    assert DirectNames(db', userId) == DirectNames(db, userId);
  }

  /** What a role set resolves to depends only on the grants of its own roles. */
  lemma RoleSetResolutionFrame(db: Store, db': Store, roleIds: set<int32>)
    requires db'.permissionNames == db.permissionNames
    requires forall rp: RolePermissionRow :: rp.roleId in roleIds ==> (rp in db.rolePermissions <==> rp in db'.rolePermissions)
    ensures EffectivePermissionsForRoles(db', roleIds) == EffectivePermissionsForRoles(db, roleIds)
  {
  }
}
