/**
 * The permission manager: two memo tables with a five-minute timeout, and the
 * reverse index from a role id to the role-id sets whose resolution was
 * computed.  The clock is the explicit `now` parameter (milliseconds) and the
 * query collaborator is a store snapshot `db` plus `queryOk`, which says
 * whether the collaborator answers or reports a failure.
 */
module PermissionCache {
  import opened Wrappers
  import opened Assignments

  /** The memo tables' timeout: five minutes, in milliseconds. */
  const TimeoutMillis: int := 5 * 60 * 1000

  /** A memoized value and the time it was computed. */
  datatype Entry = Entry(value: set<string>, createdAt: int)

  /** An entry is served, instead of being recomputed, until its timeout has passed. */
  predicate Live(e: Entry, now: int)
  {
    now - e.createdAt < TimeoutMillis
  }

  /** A failed resolution, carrying the key it was asked for. */
  datatype ResolutionError = UserNotResolved(userId: int32) | RolesNotResolved(roleIds: set<int32>)

  /** Every user entry holds what a fresh resolution would return. */
  ghost predicate UsersCoherent(userCache: map<int32, Entry>, db: Store)
  {
    forall u :: u in userCache ==> userCache[u].value == EffectivePermissionsForUser(db, u)
  }

  /** Every role-set entry holds what a fresh resolution would return. */
  ghost predicate RoleSetsCoherent(roleSetCache: map<set<int32>, Entry>, db: Store)
  {
    forall rs :: rs in roleSetCache ==> roleSetCache[rs].value == EffectivePermissionsForRoles(db, rs)
  }

  /** Every key of the role-set table is registered in the index under each of its members. */
  ghost predicate Indexed(roleSetCache: map<set<int32>, Entry>, index: map<int32, set<set<int32>>>)
  {
    forall rs, r :: rs in roleSetCache && r in rs ==> r in index && rs in index[r]
  }

  /** The index registers a role-id set only under roles it contains. */
  ghost predicate IndexSound(index: map<int32, set<set<int32>>>)
  {
    forall r, rs :: r in index && rs in index[r] ==> r in rs
  }

  /** The index after `key` is registered under each role of `members`. */
  function RegisterUnder(index: map<int32, set<set<int32>>>, key: set<int32>, members: set<int32>): map<int32, set<set<int32>>>
  {
    map x | x in index.Keys + members ::
      (if x in index then index[x] else {}) + (if x in members then {key} else {})
  }

  /**
   * Registration only adds: every earlier registration stays, `key` is
   * registered under every member, and nothing else is added.
   */
  lemma RegisterUnderOnlyAdds(index: map<int32, set<set<int32>>>, key: set<int32>, members: set<int32>)
    ensures var r := RegisterUnder(index, key, members);
            && (forall x :: x in index ==> x in r && index[x] <= r[x])
            && (forall x :: x in members ==> x in r && key in r[x])
            && (forall x, k :: x in r && k in r[x] ==> (x in index && k in index[x]) || (x in members && k == key))
  {
  }

  /** Registering under no member leaves the index as it is. */
  lemma RegisterUnderNothing(index: map<int32, set<set<int32>>>, key: set<int32>)
    ensures RegisterUnder(index, key, {}) == index
  {
    var r := RegisterUnder(index, key, {});
    assert r.Keys == index.Keys;
    forall y | y in r ensures r[y] == index[y] {
    }
  }

  /** Registering under one more member updates that member's entry alone. */
  lemma RegisterUnderOneMore(index: map<int32, set<set<int32>>>, key: set<int32>, members: set<int32>, x: int32)
    requires x !in members
    ensures var current := RegisterUnder(index, key, members);
            RegisterUnder(index, key, members + {x})
            == current[x := (if x in current then current[x] else {}) + {key}]
  {
    var current := RegisterUnder(index, key, members);
    var next := current[x := (if x in current then current[x] else {}) + {key}];
    var grown := RegisterUnder(index, key, members + {x});
    assert grown.Keys == next.Keys;
    forall y | y in grown ensures grown[y] == next[y] {
    }
  }

  /** One turn of the registration loop: registering `x`, still pending, extends what is done by `x`. */
  lemma RegisterStep(before: map<int32, set<set<int32>>>, rs: set<int32>, rest: set<int32>, x: int32)
    requires rest <= rs && x in rest
    ensures var current := RegisterUnder(before, rs, rs - rest);
            current[x := (if x in current then current[x] else {}) + {rs}]
            == RegisterUnder(before, rs, rs - (rest - {x}))
  {
    assert (rs - rest) + {x} == rs - (rest - {x});
    RegisterUnderOneMore(before, rs, rs - rest, x);
  }

  /** Registration keeps both index invariants. */
  lemma RegisterKeepsValid(roleSetCache: map<set<int32>, Entry>, index: map<int32, set<set<int32>>>, rs: set<int32>)
    requires Indexed(roleSetCache, index) && IndexSound(index)
    ensures Indexed(roleSetCache, RegisterUnder(index, rs, rs)) && IndexSound(RegisterUnder(index, rs, rs))
  {
    RegisterUnderOnlyAdds(index, rs, rs);
  }

  /** The role-id sets the index holds under any of `roleIds`. */
  function SetsIndexedUnder(index: map<int32, set<set<int32>>>, roleIds: set<int32>): set<set<int32>>
  {
    set x, k | x in roleIds && x in index && k in index[x] :: k
  }

  /**
   * Under the index invariant, flushing by role ids reaches every cached
   * role-id set that contains one of them.
   */
  lemma FlushByRolesReachesEveryDependent(roleSetCache: map<set<int32>, Entry>, index: map<int32, set<set<int32>>>,
                                          roleIds: set<int32>, rs: set<int32>)
    requires Indexed(roleSetCache, index)
    requires rs in roleSetCache && rs * roleIds != {}
    ensures rs in SetsIndexedUnder(index, roleIds)
  {
    assert |rs * roleIds| != 0;
    var x :| x in rs * roleIds;
    assert rs in index[x];
  }

  /**
   * Under the index invariant, flushing by role ids reaches only role-id
   * sets that contain one of them.
   */
  lemma FlushByRolesReachesOnlyDependents(index: map<int32, set<set<int32>>>, roleIds: set<int32>, rs: set<int32>)
    requires IndexSound(index)
    requires rs in SetsIndexedUnder(index, roleIds)
    ensures rs * roleIds != {}
  {
    var x, k :| x in roleIds && x in index && k in index[x] && k == rs;
    assert x in rs * roleIds;
  }

  class PermissionManager {
    /** getEffectivePermissionsForUserMemoization: user id to memoized names. */
    var userCache: map<int32, Entry>
    /** getEffectivePermissionsForRolesMemoization: role-id set to memoized names. */
    var roleSetCache: map<set<int32>, Entry>
    /** roleIdToRoleSetIds: role id to the role-id sets registered under it. */
    var roleIdToRoleSetIds: map<int32, set<set<int32>>>

    ghost predicate Valid()
      reads this
    {
      Indexed(roleSetCache, roleIdToRoleSetIds) && IndexSound(roleIdToRoleSetIds)
    }

    /** The cache invariant against store `db`: every entry, live or expired, equals a fresh resolution. */
    ghost predicate CoherentWith(db: Store)
      reads this
    {
      Valid() && UsersCoherent(userCache, db) && RoleSetsCoherent(roleSetCache, db)
    }

    constructor ()
      ensures userCache == map[] && roleSetCache == map[] && roleIdToRoleSetIds == map[]
      ensures Valid()
      ensures forall db :: CoherentWith(db)
    {
      userCache := map[];
      roleSetCache := map[];
      roleIdToRoleSetIds := map[];
    }

    /** Removes the listed users' entries; a null collection removes nothing. */
    method FlushCacheForUpdatedUserIds(userIds: Option<set<int32>>)
      requires Valid()
      modifies this`userCache
      ensures Valid()
      ensures userIds.None? ==> userCache == old(userCache)
      ensures userIds.Some? ==> userCache == old(userCache) - userIds.value
      ensures roleSetCache == old(roleSetCache) && roleIdToRoleSetIds == old(roleIdToRoleSetIds)
    {
      var rest := if userIds.Some? then userIds.value else {};
      ghost var all := rest;
      while |rest| != 0
        invariant rest <= all
        invariant userCache == old(userCache) - (all - rest)
        decreases rest
      {
        var u :| u in rest;
        userCache := userCache - {u};
        rest := rest - {u};
      }
      assert all - rest == all;
    }

    /**
     * Removes every role-set entry registered in the index under one of the
     * given role ids; a null or empty collection removes nothing.  The index
     * itself is left as it is.
     */
    method FlushCacheForUpdatedRoleIds(roleIds: Option<set<int32>>)
      requires Valid()
      modifies this`roleSetCache
      ensures Valid()
      ensures roleIds.None? ==> roleSetCache == old(roleSetCache)
      ensures roleIds.Some? ==> roleSetCache == old(roleSetCache) - SetsIndexedUnder(roleIdToRoleSetIds, roleIds.value)
      ensures userCache == old(userCache) && roleIdToRoleSetIds == old(roleIdToRoleSetIds)
    {
      if roleIds.None? || roleIds.value == {} {
        assert roleIds.Some? ==> SetsIndexedUnder(roleIdToRoleSetIds, roleIds.value) == {};
        return;
      }
      var toClear: set<set<int32>> := {};
      var rest := roleIds.value;
      while |rest| != 0
        invariant rest <= roleIds.value
        invariant toClear == SetsIndexedUnder(roleIdToRoleSetIds, roleIds.value - rest)
        decreases rest
      {
        var r :| r in rest;
        if r in roleIdToRoleSetIds {
          toClear := toClear + roleIdToRoleSetIds[r];
        }
        rest := rest - {r};
      }
      var pending := toClear;
      while |pending| != 0
        invariant pending <= toClear
        invariant roleSetCache == old(roleSetCache) - (toClear - pending)
        decreases pending
      {
        var k :| k in pending;
        roleSetCache := roleSetCache - {k};
        pending := pending - {k};
      }
      assert toClear - pending == toClear;
    }

    /** Empties both memo tables; the index is kept. */
    method FlushAllCache()
      requires Valid()
      modifies this`userCache, this`roleSetCache
      ensures userCache == map[] && roleSetCache == map[]
      ensures roleIdToRoleSetIds == old(roleIdToRoleSetIds)
      ensures Valid()
      ensures forall db :: CoherentWith(db)
    {
      userCache := map[];
      roleSetCache := map[];
    }

    /**
     * A user's effective permissions.  A null user id gives the empty set and
     * touches nothing.  A live entry is returned as stored, without asking the
     * store.  Otherwise the store is asked: its answer is stored with time
     * `now`, and its failure is reported and stores nothing.
     */
    method GetEffectivePermissionsForUser(userId: Option<int32>, db: Store, now: int, queryOk: bool)
      returns (r: Result<set<string>, ResolutionError>)
      requires Valid()
      modifies this`userCache
      ensures Valid()
      ensures roleSetCache == old(roleSetCache) && roleIdToRoleSetIds == old(roleIdToRoleSetIds)
      ensures userId.None? ==> r == Success({}) && userCache == old(userCache)
      ensures userId.Some? ==>
        var u := userId.value;
        if u in old(userCache) && Live(old(userCache)[u], now) then
          r == Success(old(userCache)[u].value) && userCache == old(userCache)
        else if queryOk then
          r == Success(EffectivePermissionsForUser(db, u))
          && userCache == old(userCache)[u := Entry(EffectivePermissionsForUser(db, u), now)]
        else
          r == Failure(UserNotResolved(u)) && userCache == old(userCache)
      ensures old(CoherentWith(db)) ==> CoherentWith(db)
      ensures old(CoherentWith(db)) && r.Success? && userId.Some? ==>
        r.value == EffectivePermissionsForUser(db, userId.value)
    {
      if userId.None? {
        return Success({});
      }
      var u := userId.value;
      if u in userCache && Live(userCache[u], now) {
        return Success(userCache[u].value);
      }
      if !queryOk {
        return Failure(UserNotResolved(u));
      }
      var names := EffectivePermissionsForUser(db, u);
      userCache := userCache[u := Entry(names, now)];
      r := Success(names);
    }

    /**
     * The permissions of a set of roles.  A null or empty set gives the empty
     * set and touches nothing.  A live entry is returned as stored.  On a miss
     * the set is first registered in the index under each of its roles, and
     * then the store is asked; a failure is reported and stores nothing, but
     * the registration stays.
     */
    method GetEffectivePermissionsForRoles(roleIds: Option<set<int32>>, db: Store, now: int, queryOk: bool)
      returns (r: Result<set<string>, ResolutionError>)
      requires Valid()
      modifies this`roleSetCache, this`roleIdToRoleSetIds
      ensures Valid()
      ensures userCache == old(userCache)
      ensures roleIds.None? || roleIds.value == {} ==>
        r == Success({}) && roleSetCache == old(roleSetCache) && roleIdToRoleSetIds == old(roleIdToRoleSetIds)
      ensures roleIds.Some? && roleIds.value != {} ==>
        var rs := roleIds.value;
        if rs in old(roleSetCache) && Live(old(roleSetCache)[rs], now) then
          r == Success(old(roleSetCache)[rs].value)
          && roleSetCache == old(roleSetCache) && roleIdToRoleSetIds == old(roleIdToRoleSetIds)
        else
          roleIdToRoleSetIds == RegisterUnder(old(roleIdToRoleSetIds), rs, rs)
          && if queryOk then
               r == Success(EffectivePermissionsForRoles(db, rs))
               && roleSetCache == old(roleSetCache)[rs := Entry(EffectivePermissionsForRoles(db, rs), now)]
             else
               r == Failure(RolesNotResolved(rs)) && roleSetCache == old(roleSetCache)
      ensures old(CoherentWith(db)) ==> CoherentWith(db)
      ensures old(CoherentWith(db)) && r.Success? && roleIds.Some? ==>
        r.value == EffectivePermissionsForRoles(db, roleIds.value)
    {
      if roleIds.None? || roleIds.value == {} {
        return Success({});
      }
      var rs := roleIds.value;
      if rs in roleSetCache && Live(roleSetCache[rs], now) {
        return Success(roleSetCache[rs].value);
      }
      r := DoGetEffectivePermissionsForRoles(rs, db, queryOk);
      if r.Success? {
        roleSetCache := roleSetCache[rs := Entry(r.value, now)];
      }
    }

    /** Registers `rs` under each of its roles, then asks the store. */
    method DoGetEffectivePermissionsForRoles(rs: set<int32>, db: Store, queryOk: bool)
      returns (r: Result<set<string>, ResolutionError>)
      requires Valid()
      modifies this`roleIdToRoleSetIds
      ensures Valid()
      ensures roleIdToRoleSetIds == RegisterUnder(old(roleIdToRoleSetIds), rs, rs)
      ensures r == if queryOk then Success(EffectivePermissionsForRoles(db, rs)) else Failure(RolesNotResolved(rs))
    {
      RegisterRoleSet(rs);
      RegisterKeepsValid(roleSetCache, old(roleIdToRoleSetIds), rs);
      if !queryOk {
        return Failure(RolesNotResolved(rs));
      }
      r := Success(EffectivePermissionsForRoles(db, rs));
    }

    /** The registration loop: `rs` is added under each of its member role ids. */
    method RegisterRoleSet(rs: set<int32>)
      modifies this`roleIdToRoleSetIds
      ensures roleIdToRoleSetIds == RegisterUnder(old(roleIdToRoleSetIds), rs, rs)
    {
      ghost var before := roleIdToRoleSetIds;
      var rest := rs;
      RegisterUnderNothing(before, rs);
      assert rs - rest == {};
      while rest != {}
        invariant rest <= rs
        invariant roleIdToRoleSetIds == RegisterUnder(before, rs, rs - rest)
        decreases |rest|
      {
        var x :| x in rest;
        RegisterStep(before, rs, rest, x);
        var registered := if x in roleIdToRoleSetIds then roleIdToRoleSetIds[x] else {};
        roleIdToRoleSetIds := roleIdToRoleSetIds[x := registered + {rs}];
        rest := rest - {x};
      }
      assert rs - rest == rs;
    }
  }
}
