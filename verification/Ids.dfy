/** Record ids: tenant (48 bits), shard (12), struct (20) and creation tick (48) in one number. */
module Ids {
  type Id = nat

  const TENANTS: nat := 0x1_0000_0000_0000
  const SHARDS: nat := 0x1000
  const STRUCTS: nat := 0x10_0000
  const TICKS: nat := 0x1_0000_0000_0000

  /** Each part is masked to its width. */
  function Pack(tenant: nat, shard: nat, structId: nat, created: nat): (id: Id)
    ensures Tenant(id) == tenant % TENANTS && Shard(id) == shard % SHARDS
    ensures StructId(id) == structId % STRUCTS && Created(id) == created % TICKS
  {
    (((tenant % TENANTS) * SHARDS + shard % SHARDS) * STRUCTS + structId % STRUCTS) * TICKS + created % TICKS
  }

  function Created(id: Id): nat { id % TICKS }

  function StructId(id: Id): nat { id / TICKS % STRUCTS }

  function Shard(id: Id): nat { id / TICKS / STRUCTS % SHARDS }

  function Tenant(id: Id): nat { id / TICKS / STRUCTS / SHARDS % TENANTS }

  /** The four parts are all there is to an id of 128 bits. */
  lemma {:induction false} PartsDetermine(a: Id, b: Id)
    requires a < TENANTS * SHARDS * STRUCTS * TICKS && b < TENANTS * SHARDS * STRUCTS * TICKS
    requires Tenant(a) == Tenant(b) && Shard(a) == Shard(b) && StructId(a) == StructId(b) && Created(a) == Created(b)
    ensures a == b
  {
    UnPack(a);
    UnPack(b);
  }

  lemma {:induction false} UnPack(a: Id)
    requires a < TENANTS * SHARDS * STRUCTS * TICKS
    ensures a == Pack(Tenant(a), Shard(a), StructId(a), Created(a))
  {
    assert a / TICKS / STRUCTS / SHARDS < TENANTS;
  }

  /** The order in which a rebuilt list stands: by creation tick, then by id. */
  predicate Before(a: Id, b: Id) {
    Created(a) < Created(b) || (Created(a) == Created(b) && a < b)
  }
}
