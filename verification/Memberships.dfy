/**
 The membership table and the two member operations that may be refused.

 The schema's unique constraint on (userId, tenantId) is the key of the map; the membership
 id is a column, handed out fresh and never used again.
 */
module Memberships {
  import opened FiniteSets
  import opened Options

  type UserId = nat
  type TenantId = nat
  type MemberId = nat

  datatype Role = OWNER | ADMIN | MANAGER | MEMBER
  datatype Key = Key(user: UserId, tenant: TenantId)
  datatype Member = Member(id: MemberId, role: Role)
  type Table = map<Key, Member>

  ghost predicate IdsDistinct(t: Table) {
    forall a, b :: a in t && b in t && t[a].id == t[b].id ==> a == b
  }

  /** The rows a count with `where: { tenantId }` sees. */
  function InTenant(t: Table, tenant: TenantId): set<Key> {
    set k | k in t && k.tenant == tenant
  }

  /** The rows a count with `where: { tenantId, role: OWNER }` sees. */
  function Owners(t: Table, tenant: TenantId): set<Key> {
    set k | k in t && k.tenant == tenant && t[k].role == OWNER
  }

  /** Lookup by the id column. */
  ghost function KeyOf(t: Table, id: MemberId): (key: Option<Key>)
    ensures key.Some? ==> key.value in t && t[key.value].id == id
    ensures key.None? ==> forall k :: k in t ==> t[k].id != id
  {
    if exists k :: k in t && t[k].id == id then
      var k :| k in t && t[k].id == id;
      Some(k)
    else
      None
  }

  datatype Verdict = NotFound | OwnerOnly | LastOwner | Unchanged | Granted(key: Key)

  /** Whether `remove` deletes the row named by `id`, and if not, why. */
  ghost function JudgeRemoval(t: Table, tenant: TenantId, actor: Role, id: MemberId): Verdict {
    match KeyOf(t, id)
    case None => NotFound
    case Some(k) =>
      if k.tenant != tenant then NotFound
      else if t[k].role == OWNER && actor != OWNER then OwnerOnly
      else if t[k].role == OWNER && |Owners(t, tenant)| <= 1 then LastOwner
      else Granted(k)
  }

  ghost function Removed(t: Table, tenant: TenantId, actor: Role, id: MemberId): Table {
    var verdict := JudgeRemoval(t, tenant, actor, id);
    if verdict.Granted? then t - {verdict.key} else t
  }

  /** Whether `changeRole` rewrites the role of the row named by `id`, and if not, why. */
  ghost function JudgeRoleChange(t: Table, tenant: TenantId, actor: Role, id: MemberId, role: Role): Verdict {
    match KeyOf(t, id)
    case None => NotFound
    case Some(k) =>
      if k.tenant != tenant then NotFound
      else if t[k].role == OWNER && actor != OWNER then OwnerOnly
      else if t[k].role == role then Unchanged
      else if t[k].role == OWNER && |Owners(t, tenant)| <= 1 then LastOwner
      else Granted(k)
  }

  ghost function RoleChanged(t: Table, tenant: TenantId, actor: Role, id: MemberId, role: Role): (t': Table)
    ensures t'.Keys == t.Keys
    ensures forall k :: k in t ==> t'[k].id == t[k].id
  {
    var verdict := JudgeRoleChange(t, tenant, actor, id, role);
    if verdict.Granted? && verdict.key in t then t[verdict.key := t[verdict.key].(role := role)] else t
  }

  /** A membership row is created only when the pair has none yet. */
  function Admitted(t: Table, key: Key, id: MemberId, role: Role): Table {
    if key in t then t else t[key := Member(id, role)]
  }

  /** Another OWNER of the tenant than `k`. */
  predicate HasOtherOwner(t: Table, k: Key) {
    exists o :: o in t && o != k && o.tenant == k.tenant && t[o].role == OWNER
  }

  lemma OtherOwnerCounts(t: Table, k: Key)
    requires k in t && t[k].role == OWNER
    ensures |Owners(t, k.tenant)| > 1 <==> HasOtherOwner(t, k)
  {
    assert k in Owners(t, k.tenant);
    if |Owners(t, k.tenant)| > 1 {
      var o := AnotherOne(Owners(t, k.tenant), k);
    } else if o :| o in t && o != k && o.tenant == k.tenant && t[o].role == OWNER {
      SubsetSize({o, k}, Owners(t, k.tenant));
    }
  }

  /** Which memberships a removal deletes: the one named, if it is of the actor's tenant and no OWNER, or an
      OWNER beside another, removed by an OWNER. The others stay as they are. */
  lemma RemovalExactly(t: Table, at: TenantId, actor: Role, id: MemberId)
    requires IdsDistinct(t)
    ensures forall k :: k in t && t[k].id == id && k.tenant == at
                        && (t[k].role == OWNER ==> actor == OWNER && HasOtherOwner(t, k)) ==>
              Removed(t, at, actor, id) == t - {k}
    ensures (forall k :: k in t && t[k].id == id && k.tenant == at ==>
               t[k].role == OWNER && !(actor == OWNER && HasOtherOwner(t, k))) ==> Removed(t, at, actor, id) == t
  {
    var found := KeyOf(t, id);
    if found.Some? && t[found.value].role == OWNER {
      OtherOwnerCounts(t, found.value);
    }
  }

  /** Which roles a role change rewrites, in the same words; every other membership keeps its role. */
  lemma RoleChangeExactly(t: Table, at: TenantId, actor: Role, id: MemberId, role: Role, k: Key)
    requires IdsDistinct(t) && k in t
    ensures var named := t[k].id == id && k.tenant == at;
            var allowed := t[k].role == OWNER ==> actor == OWNER && (role == OWNER || HasOtherOwner(t, k));
            RoleChanged(t, at, actor, id, role)[k] == t[k].(role := if named && allowed then role else t[k].role)
  {
    var found := KeyOf(t, id);
    if found.Some? && t[found.value].role == OWNER {
      OtherOwnerCounts(t, found.value);
    }
  }

  /** Neither operation takes the last OWNER from a tenant that has one. */
  lemma OwnerStays(t: Table, tenant: TenantId, at: TenantId, actor: Role, id: MemberId, role: Role)
    requires Owners(t, tenant) != {}
    ensures Owners(Removed(t, at, actor, id), tenant) != {}
    ensures Owners(RoleChanged(t, at, actor, id, role), tenant) != {}
  {
    var removal := JudgeRemoval(t, at, actor, id);
    if removal.Granted? {
      var o := Survivor(t, tenant, removal.key);
      assert o in Owners(Removed(t, at, actor, id), tenant);
    }
    var change := JudgeRoleChange(t, at, actor, id, role);
    if change.Granted? {
      var o := Survivor(t, tenant, change.key);
      assert o in Owners(RoleChanged(t, at, actor, id, role), tenant);
    }
  }

  /** An OWNER of `tenant` other than `key`, when `key` is not its only one. */
  lemma Survivor(t: Table, tenant: TenantId, key: Key) returns (o: Key)
    requires Owners(t, tenant) != {}
    requires key in Owners(t, tenant) ==> |Owners(t, tenant)| > 1
    ensures o in Owners(t, tenant) && o != key
  {
    if key in Owners(t, tenant) {
      o := AnotherOne(Owners(t, tenant), key);
    } else {
      o :| o in Owners(t, tenant);
    }
  }
}
