# User/role permission cache, modelled in Dafny

This project models the permission-resolution cache of the user/role/permission
module (`PermissionManager` and the two junction-table customizers). It also
proves the property the cache exists for: after a change to an assignment
table and the table's post-insert/update/delete hook, every cached entry
equals what a fresh resolution against the store returns.

- `wrappers.dfy`: `Option`, `Result`, the 32-bit id type, and the null-safe list helper.
- `assignments.dfy`: the store is the three junction tables plus the permission
  table. It also defines the two uncached resolvers: effective permissions of a
  user, and of a set of roles.
- `permission_cache.dfy`: `PermissionManager` as a class.
  - Fields: the user memo table, the role-set memo table (entries carry their
    creation time; the timeout is five minutes), and the reverse index
    `roleIdToRoleSetIds`.
  - Methods: the three flushes, the two cached getters, and role-set
    registration.
  - Predicates: the index invariants (`Valid`) and coherence with a store
    (`CoherentWith`).
- `user_permission_int_customizer.dfy` and `role_permission_int_customizer.dfy`:
  the hooks and their id collection, including the old-record fallback for
  partial updates and the lookup of the users who hold a role. Each file has a
  lemma saying the hook's flush restores coherence for its kind of change.
- `mutation_pipeline.dfy`: the framework's commit-then-hook sequence for each
  table and each of insert, update and delete. Each operation
  `requires pm.CoherentWith(db)`. The direct-grant and membership operations
  `ensure pm.CoherentWith(db')` unconditionally. The role-grant operations
  ensure it only when the hook succeeds. When the hook's holder query fails,
  the store change is already committed and nothing is flushed. Stale entries
  are then served until they time out.
- `permission_object_type.dfy`: the `PermissionObjectType` enumeration and its
  lookup by id.
- `scenarios.dfy`: concrete runs from a fresh manager, proving what every lookup returns.

The store query that can fail is an explicit `queryOk` flag, and the clock is
an explicit `now` in milliseconds. An entry is served while
`now - createdAt < 300000`.

## Model

| member | source | states |
|---|---|---|
| Assignments.EffectivePermissionsForUser | src/main/java/com/kingsrook/qbits/userrolepermissions/utils/PermissionManager.java:168-206 | a user's permissions are names of existing permissions and include every direct grant |
| Assignments.EffectivePermissionsForRoles | src/main/java/com/kingsrook/qbits/userrolepermissions/utils/PermissionManager.java:230-257 | a role set's permissions are names of existing permissions; the empty role set has none |
| Assignments.UserResolutionThroughHeldRoles | src/main/java/com/kingsrook/qbits/userrolepermissions/utils/PermissionManager.java:175-205 | the user join equals the role-set resolution of the roles the user holds, united with the direct grants |
| Assignments.NoAssignmentsNoPermissions | src/test/java/com/kingsrook/qbits/userrolepermissions/utils/PermissionManagerTest.java:79-80 | a user with no direct grant and no role has no permissions |
| Assignments.UserResolutionFrame | src/main/java/com/kingsrook/qbits/userrolepermissions/utils/PermissionManager.java:168-206 | a user's permissions depend only on that user's rows, the role grants of the roles they hold, and permission names |
| Assignments.RoleSetResolutionFrame | src/main/java/com/kingsrook/qbits/userrolepermissions/utils/PermissionManager.java:230-257 | a role set's permissions depend only on the grants to its roles and permission names, never on users' direct grants or memberships |
| PermissionCache.RegisterUnderOnlyAdds | src/main/java/com/kingsrook/qbits/userrolepermissions/utils/PermissionManager.java:232-236 | registration puts the key under every member, keeps every existing entry, and touches no other role |
| PermissionCache.RegisterKeepsValid | src/main/java/com/kingsrook/qbits/userrolepermissions/utils/PermissionManager.java:232-236 | registering a role set under its members keeps every cached role set indexed under each of its members |
| PermissionCache.FlushByRolesReachesEveryDependent | src/main/java/com/kingsrook/qbits/userrolepermissions/utils/PermissionManager.java:113-133 | with the index invariant, every cached role set that shares a role with the flushed roles is among the sets the flush clears |
| PermissionCache.FlushByRolesReachesOnlyDependents | src/main/java/com/kingsrook/qbits/userrolepermissions/utils/PermissionManager.java:113-133 | with the index sound, every role set the flush clears contains one of the flushed roles |
| PermissionCache.PermissionManager.constructor | src/main/java/com/kingsrook/qbits/userrolepermissions/utils/PermissionManager.java:64-79 | a new manager has empty tables and index and is coherent with every store |
| PermissionCache.PermissionManager.FlushCacheForUpdatedUserIds | src/main/java/com/kingsrook/qbits/userrolepermissions/utils/PermissionManager.java:100-106 | removes exactly the listed user keys (none for null) and leaves the role-set table and the index unchanged |
| PermissionCache.PermissionManager.FlushCacheForUpdatedRoleIds | src/main/java/com/kingsrook/qbits/userrolepermissions/utils/PermissionManager.java:113-133 | removes exactly the role sets indexed under any given role (none for null or empty) and leaves the user table and the index unchanged |
| PermissionCache.PermissionManager.FlushAllCache | src/main/java/com/kingsrook/qbits/userrolepermissions/utils/PermissionManager.java:140-144 | empties both tables, keeps the index, and leaves the manager coherent with every store |
| PermissionCache.PermissionManager.GetEffectivePermissionsForUser | src/main/java/com/kingsrook/qbits/userrolepermissions/utils/PermissionManager.java:151-161 | null gives the empty set and changes nothing; a live entry is returned without reading the store; otherwise the fresh resolution is stored with time `now`, or failure is reported and nothing is stored; coherence is kept, and a coherent manager answers with the fresh resolution |
| PermissionCache.PermissionManager.GetEffectivePermissionsForRoles | src/main/java/com/kingsrook/qbits/userrolepermissions/utils/PermissionManager.java:213-223 | null or empty gives the empty set and changes nothing; a live entry is returned as is; on a miss the set is registered in the index (even when the query fails) and the fresh resolution is stored; coherence is kept |
| PermissionCache.PermissionManager.DoGetEffectivePermissionsForRoles | src/main/java/com/kingsrook/qbits/userrolepermissions/utils/PermissionManager.java:230-257 | registers the set under each member before querying and returns exactly the names granted to some role in the set |
| PermissionCache.PermissionManager.RegisterRoleSet | src/main/java/com/kingsrook/qbits/userrolepermissions/utils/PermissionManager.java:232-236 | after the loop, the index is the old index with the set added under each of its members |
| UserPermissionIntCustomizer.PostInsert | src/main/java/com/kingsrook/qbits/userrolepermissions/customizers/UserPermissionIntCustomizer.java:50-55 | flushes exactly the user ids the inserted records carry (none for null), touches neither the role-set table nor the index, and returns its input |
| UserPermissionIntCustomizer.PostUpdate | src/main/java/com/kingsrook/qbits/userrolepermissions/customizers/UserPermissionIntCustomizer.java:63-73 | flushes the updated records' user ids, together with the old records' when those are given; role-set table and index unchanged; returns its input |
| UserPermissionIntCustomizer.PostDelete | src/main/java/com/kingsrook/qbits/userrolepermissions/customizers/UserPermissionIntCustomizer.java:81-86 | flushes exactly the deleted records' user ids, touches neither the role-set table nor the index, and returns its input |
| UserPermissionIntCustomizer.DirectGrantFlushKeepsCoherence | src/main/java/com/kingsrook/qbits/userrolepermissions/customizers/UserPermissionIntCustomizer.java:50-86 | when only direct grants changed, flushing every user a changed row names leaves both tables coherent with the new store |
| RolePermissionIntCustomizer.RoleIdComesFromRecordOrOldRecord | src/main/java/com/kingsrook/qbits/userrolepermissions/customizers/RolePermissionIntCustomizer.java:101 | the role-id lookup `RoleIdOf` gives the role a record carries; otherwise the role of some old record with the record's primary key; without old records, only a carried role |
| RolePermissionIntCustomizer.RoleIdsOf | src/main/java/com/kingsrook/qbits/userrolepermissions/customizers/RolePermissionIntCustomizer.java:98-105 | a null list gives no roles; every carried role id is included; without old records, every role id comes from some record |
| RolePermissionIntCustomizer.UserIdsForRecords | src/main/java/com/kingsrook/qbits/userrolepermissions/customizers/RolePermissionIntCustomizer.java:78-89 | the holder query succeeds exactly when the store answers; on success a user is in the result if and only if the user holds one of the records' roles |
| RolePermissionIntCustomizer.UpdatedRoleIds | src/main/java/com/kingsrook/qbits/userrolepermissions/customizers/RolePermissionIntCustomizer.java:117-126 | an update's roles always include the new-state records' carried roles and, when old records are given, the old records' roles; without old records they are exactly the carried roles |
| RolePermissionIntCustomizer.OldRecordsById | src/main/java/com/kingsrook/qbits/userrolepermissions/customizers/RolePermissionIntCustomizer.java:115 | every old record with an id is reachable under it, and each value is an old record carrying that id |
| RolePermissionIntCustomizer.HoldersOf | src/main/java/com/kingsrook/qbits/userrolepermissions/customizers/RolePermissionIntCustomizer.java:78-89 | a user is affected if and only if the user holds one of the roles |
| RolePermissionIntCustomizer.HoldersOfUnion | src/main/java/com/kingsrook/qbits/userrolepermissions/customizers/RolePermissionIntCustomizer.java:117-126 | the holders of the union of the new and the old roles are the holders of each, united |
| RolePermissionIntCustomizer.RoleIdFallsBackToOldRecord | src/main/java/com/kingsrook/qbits/userrolepermissions/customizers/RolePermissionIntCustomizer.java:98-105 | a record that does not carry its role id takes the role id of the old record with its primary key |
| RolePermissionIntCustomizer.UpdatedRoleIdsAreCarriedOrOld | src/main/java/com/kingsrook/qbits/userrolepermissions/customizers/RolePermissionIntCustomizer.java:113-127 | an update flushes the roles the sent records carry, together with the old records' roles when those are given; without old records, only the carried roles |
| RolePermissionIntCustomizer.PostInsert | src/main/java/com/kingsrook/qbits/userrolepermissions/customizers/RolePermissionIntCustomizer.java:59-68 | on a failed holder query nothing is flushed; otherwise flushes every holder of the rows' roles and every role set indexed under them, keeps the index, and returns its input |
| RolePermissionIntCustomizer.PostUpdate | src/main/java/com/kingsrook/qbits/userrolepermissions/customizers/RolePermissionIntCustomizer.java:113-133 | as insert, over the new-state roles (with the old-record fallback) united with the old records' roles when given |
| RolePermissionIntCustomizer.PostDelete | src/main/java/com/kingsrook/qbits/userrolepermissions/customizers/RolePermissionIntCustomizer.java:141-150 | as insert, over the deleted rows' roles |
| RolePermissionIntCustomizer.RoleGrantFlushKeepsCoherence | src/main/java/com/kingsrook/qbits/userrolepermissions/customizers/RolePermissionIntCustomizer.java:59-150 | when only the grants of some roles changed, flushing their holders and the role sets indexed under them leaves both tables coherent with the new store |
| MutationPipeline.UserIdsOfFullRecords | src/main/java/com/kingsrook/qbits/userrolepermissions/customizers/UserPermissionIntCustomizer.java:52 | the user-id collection `UserIdsOf` of the hooks, applied to full records, gives exactly the rows' user ids |
| MutationPipeline.UpdateFlushCoversDirectGrants | src/main/java/com/kingsrook/qbits/userrolepermissions/customizers/UserPermissionIntCustomizer.java:63-73 | a partial update with old records flushes the user of each row before and after the update |
| MutationPipeline.InsertUserPermissions | src/main/java/com/kingsrook/qbits/userrolepermissions/customizers/UserPermissionIntCustomizer.java:50-55 | committing direct grants and running the insert hook keeps the manager coherent |
| MutationPipeline.UpdateUserPermissions | src/main/java/com/kingsrook/qbits/userrolepermissions/customizers/UserPermissionIntCustomizer.java:63-73 | committing partial updates of direct grants, including a move between users, and running the update hook keeps the manager coherent |
| MutationPipeline.DeleteUserPermissions | src/main/java/com/kingsrook/qbits/userrolepermissions/customizers/UserPermissionIntCustomizer.java:81-86 | deleting direct grants and running the delete hook keeps the manager coherent |
| MutationPipeline.RoleIdsOfFullRecords | src/main/java/com/kingsrook/qbits/userrolepermissions/customizers/RolePermissionIntCustomizer.java:98-105 | the role ids collected from full records are exactly the rows' role ids |
| MutationPipeline.UpdateFlushCoversRoleGrants | src/main/java/com/kingsrook/qbits/userrolepermissions/customizers/RolePermissionIntCustomizer.java:113-127 | a partial update with old records flushes the role of each row before and after the update |
| MutationPipeline.InsertRolePermissions | src/main/java/com/kingsrook/qbits/userrolepermissions/customizers/RolePermissionIntCustomizer.java:59-68 | the hook succeeds exactly when its query does; on success the manager is coherent with the new store, on failure its tables are unchanged |
| MutationPipeline.UpdateRolePermissions | src/main/java/com/kingsrook/qbits/userrolepermissions/customizers/RolePermissionIntCustomizer.java:113-133 | the same for partial updates, including moving a grant from one role to another |
| MutationPipeline.DeleteRolePermissions | src/main/java/com/kingsrook/qbits/userrolepermissions/customizers/RolePermissionIntCustomizer.java:141-150 | the same for deleting role grants |
| MutationPipeline.MembershipFlushKeepsCoherence | src/test/java/com/kingsrook/qbits/userrolepermissions/utils/PermissionManagerTest.java:138-192 | when only memberships changed, flushing every user a changed membership row names keeps the user table coherent, and the role-set table needs no flush |
| MutationPipeline.ChangeUserRoles | src/test/java/com/kingsrook/qbits/userrolepermissions/utils/PermissionManagerTest.java:161-192 | committing membership changes and flushing the users of the old and new rows keeps the manager coherent |
| PermissionObjectTypes.PermissionObjectType.PossibleValueId | src/main/java/com/kingsrook/qbits/userrolepermissions/model/PermissionObjectType.java:110-113 | the possible-value id is the constant's label too, and looking it up finds this constant |
| PermissionObjectTypes.PermissionObjectType.PossibleValueLabel | src/main/java/com/kingsrook/qbits/userrolepermissions/model/PermissionObjectType.java:121-124 | the possible-value label is the same string as the possible-value id |
| PermissionObjectTypes.FirstWithId | src/main/java/com/kingsrook/qbits/userrolepermissions/model/PermissionObjectType.java:71-79 | a found constant is listed and has the id; nothing is found if and only if no listed constant has the id |
| PermissionObjectTypes.GetById | src/main/java/com/kingsrook/qbits/userrolepermissions/model/PermissionObjectType.java:64-80 | null gives nothing; otherwise the loop returns the first constant in declaration order with the id, or nothing |
| PermissionObjectTypes.IdsAreDistinct | src/main/java/com/kingsrook/qbits/userrolepermissions/model/PermissionObjectType.java:36-40 | no two constants share an id |
| PermissionObjectTypes.IdIsLabel | src/main/java/com/kingsrook/qbits/userrolepermissions/model/PermissionObjectType.java:36-40 | every constant's id equals its label, and is one of Table, Process, App, Widget, Special |
| PermissionObjectTypes.EveryConstantListed | src/main/java/com/kingsrook/qbits/userrolepermissions/model/PermissionObjectType.java:36-40 | every constant is among the values the lookup searches |
| PermissionObjectTypes.GetByIdRoundTrip | src/main/java/com/kingsrook/qbits/userrolepermissions/model/PermissionObjectType.java:64-80 | looking a constant up by its own id finds that constant |
| Scenarios.OneDirectGrant | src/main/java/com/kingsrook/qbits/userrolepermissions/utils/PermissionManager.java:196-205 | with one direct grant and no roles, only its user has its permission |
| Scenarios.OneRoleGrant | src/main/java/com/kingsrook/qbits/userrolepermissions/utils/PermissionManager.java:175-191 | with one role grant, a user has its permission exactly when the user holds the role |
| Scenarios.GrantA | src/test/java/com/kingsrook/qbits/userrolepermissions/utils/PermissionManagerTest.java:75-84 | two users with nothing see nothing; after a grant of a, its user sees exactly a |
| Scenarios.UpdateOnlyGrant | src/test/java/com/kingsrook/qbits/userrolepermissions/utils/PermissionManagerTest.java:86-98 | after a partial update of the only direct grant, the grant's new user sees it and the other user does not |
| Scenarios.RevokeOnlyGrant | src/test/java/com/kingsrook/qbits/userrolepermissions/utils/PermissionManagerTest.java:100-101 | after the only grant is deleted, its user sees nothing |
| Scenarios.GrantAll | src/test/java/com/kingsrook/qbits/userrolepermissions/utils/PermissionManagerTest.java:103-106 | after three separate inserts granting a, b and c directly, each with its hook, the user sees exactly a, b and c |
| Scenarios.DirectGrantMoves | src/test/java/com/kingsrook/qbits/userrolepermissions/utils/PermissionManagerTest.java:73-107 | the whole direct-grant run: every lookup returns the permissions the store holds at that point |
| Scenarios.GrantRoleA | src/test/java/com/kingsrook/qbits/userrolepermissions/utils/PermissionManagerTest.java:200-214 | after memberships and a role grant of a, the role's holder sees a and the other user nothing |
| Scenarios.UpdateOnlyRoleGrant | src/test/java/com/kingsrook/qbits/userrolepermissions/utils/PermissionManagerTest.java:216-231 | after a partial update of the only role grant, exactly the holder of its new role sees it |
| Scenarios.RevokeOnlyRoleGrant | src/test/java/com/kingsrook/qbits/userrolepermissions/utils/PermissionManagerTest.java:124-129 | after the only role grant is deleted, no holder sees it |
| Scenarios.RoleGrantMoves | src/test/java/com/kingsrook/qbits/userrolepermissions/utils/PermissionManagerTest.java:200-232 | the whole role-grant run: a switch of permission and a move between roles are seen at once by the holders |
| Scenarios.EntryExpires | src/main/java/com/kingsrook/qbits/userrolepermissions/utils/PermissionManager.java:64-65 | an entry is served until five minutes after it was made, even if the store changed without a hook; at five minutes it is resolved again |

## Left out

- Concurrency: the singleton accessor (PermissionManager.java:86-93) and the synchronized index map are left out. The model is one manager used by one caller at a time.
- The memo tables are plain maps from key to value and creation time. This model has no size bound, eviction or other memo-library internals. The library is not part of this model. The rule that an entry is served while `now - createdAt` is below the timeout is a modelling choice.
- PermissionCache.PermissionManager.GetEffectivePermissionsForUser, PermissionCache.PermissionManager.GetEffectivePermissionsForRoles and PermissionCache.PermissionManager.RegisterRoleSet: the Java code hands callers the memoized mutable set itself and keeps the caller's role-id set object as the memo key and index entry (PermissionManager.java:158-159, 220-221, 235). A caller that mutated either would corrupt the cache. The model uses values, so it cannot show this aliasing and assumes callers never mutate returned sets or the keys they pass.
- Exceptions from the store or the memo library are the single `queryOk` flag. A failed lookup stores nothing and reports the failure. For `RolePermissionIntCustomizer.PostUpdate`, one flag covers both of its holder queries. The exact error message strings are not modelled.
- Store queries are pure functions of a store snapshot. The permission join drops grants whose permission id has no permission row. The join through the role table assumes every referenced role exists. The direct-grant query (PermissionManager.java:196-197) is read as a join through the user-permission table.
- Holder query with an empty role list: it is taken to return no rows. The Java code hands the framework an empty `IN` list there.
- Null ids: a null id in a record (user, role or primary key) contributes nothing to the flushed sets. Flushing a null key in the Java code clears nothing either. For the role-set table this also assumes that role-id sets passed to the resolver never contain null: the Java index would accept a null role id as a key, and the model's sets of 32-bit ids cannot hold one.
- Ids are 32-bit integers, matching Java's `Integer`. No arithmetic is done on them.
- Old-record lookup: the framework's `oldRecordListToMap` is taken to map by primary key, with a later record replacing an earlier one. `getValueFromRecordOrOldRecord` is taken to use the record's own value when it carries one, else the old record's. Neither helper's source is part of this model.
- The mutation pipeline always hands the update hooks the old records. The hooks themselves also handle their absence.
- UserRoleIntCustomizer is not part of this model. `MutationPipeline.ChangeUserRoles` assumes that hook flushes the user ids of the old and new membership rows and nothing else.
- Renaming or deleting permissions: the permission table has no hook, so the coherence theorems assume permission names do not change.
- Entity classes, framework wiring and test setup (database priming, context) are left out.
