/** Dummy addresses stay unique over every run of tenant and service allocation. */
module AddressPlan {
  import opened Records
  import opened Keys
  import opened Storage
  import opened Commands
  import opened DummyIp

  // ----- what a table of allocations satisfies -----

  predicate BlockRow(prefix: nat, k: string, v: Value)
    requires ValidPrefix(prefix)
  {
    && v.BlockV? && k == BlockKey(v.block.tenantId) && ':' !in v.block.tenantId
    && v.block.prefix == prefix && IsBase(prefix, v.block.base) && v.block.nextOffset <= MaxHosts(prefix)
  }

  /** An address lies in its own tenant's block, below the next free offset. */
  predicate AddressRow(t: Table, k: string, v: Value) {
    && v.AddressV? && k == AddressKey(v.address.tenantId, v.address.service, v.address.role)
    && ':' !in v.address.tenantId && ':' !in v.address.service
    && BlockKey(v.address.tenantId) in t && t[BlockKey(v.address.tenantId)].BlockV?
    && (var b := t[BlockKey(v.address.tenantId)].block;
        b.base <= v.address.address < b.base + b.nextOffset)
  }

  ghost predicate RowsValid(prefix: nat, t: Table)
    requires ValidPrefix(prefix)
  {
    forall k :: k in t ==> BlockRow(prefix, k, t[k]) || AddressRow(t, k, t[k])
  }

  ghost predicate BasesDistinct(t: Table) {
    forall k, l :: k in t && l in t && k != l && t[k].BlockV? && t[l].BlockV? ==> t[k].block.base != t[l].block.base
  }

  ghost predicate AddressesDistinct(t: Table) {
    forall k, l :: k in t && l in t && k != l && t[k].AddressV? && t[l].AddressV?
                   ==> t[k].address.address != t[l].address.address
  }

  ghost predicate Plan(prefix: nat, t: Table)
    requires ValidPrefix(prefix)
  {
    RowsValid(prefix, t) && BasesDistinct(t) && AddressesDistinct(t)
  }

  // ----- what the invariant means -----

  /** Tenants' blocks are pairwise disjoint and inside 240.0.0.0/4. */
  lemma BlocksPairwiseDisjoint(prefix: nat, t: Table, k: string, l: string)
    requires ValidPrefix(prefix) && Plan(prefix, t)
    requires k in t && l in t && k != l && t[k].BlockV? && t[l].BlockV?
    ensures var a, b := t[k].block.base, t[l].block.base;
            && (a + MaxHosts(prefix) <= b || b + MaxHosts(prefix) <= a)
            && SPACE_BASE <= a && a + MaxHosts(prefix) <= U32
  {
    BlocksDisjoint(prefix, t[k].block.base, t[l].block.base);
    BaseInRange(prefix, BlockIndex(prefix, t[k].block.base));
  }

  /** Distinct (tenant, service, role) triples never share an address, and every address is a u32 in
  240.0.0.0/4 inside its tenant's block. */
  lemma TriplesHaveOwnAddress(prefix: nat, t: Table, a: ServiceAddress, b: ServiceAddress)
    requires ValidPrefix(prefix) && Plan(prefix, t)
    requires ':' !in a.tenantId && ':' !in a.service && ':' !in b.tenantId && ':' !in b.service
    requires AddressKey(a.tenantId, a.service, a.role) in t
             && t[AddressKey(a.tenantId, a.service, a.role)] == AddressV(a)
    requires AddressKey(b.tenantId, b.service, b.role) in t
             && t[AddressKey(b.tenantId, b.service, b.role)] == AddressV(b)
    ensures SPACE_BASE <= a.address < U32
    ensures (a.tenantId, a.service, a.role) != (b.tenantId, b.service, b.role) ==> a.address != b.address
  {
    var k, l := AddressKey(a.tenantId, a.service, a.role), AddressKey(b.tenantId, b.service, b.role);
    if k == l {
      AddressKeyInjective(a.tenantId, a.service, a.role, b.tenantId, b.service, b.role);
    }
    assert AddressRow(t, k, t[k]);
    var home := BlockKey(a.tenantId);
    assert BlockRow(prefix, home, t[home]);
    BaseInRange(prefix, BlockIndex(prefix, t[home].block.base));
  }

  // ----- one allocation -----

  lemma TenantKeyRows(prefix: nat, t: Table, k: string)
    requires ValidPrefix(prefix) && RowsValid(prefix, t) && k in t
    ensures "tenant:" <= k <==> t[k].BlockV?
  {
    if t[k].BlockV? {
      BlockKeyIsNotAddressKey(t[k].block.tenantId, "", "", "");
    } else {
      assert AddressRow(t, k, t[k]);
      BlockKeyIsNotAddressKey("", t[k].address.tenantId, t[k].address.service, t[k].address.role);
    }
  }

  /** A new block's base differs from every stored base. */
  lemma NewBaseIsFree(prefix: nat, t: Table, tenant: string, k: string)
    requires ValidPrefix(prefix) && Plan(prefix, t)
    requires TenantBlockFor(prefix, t, tenant).Allocated? && k in t && t[k].BlockV?
    ensures t[k].block.base != TenantBlockFor(prefix, t, tenant).value.base
  {
    var i := FirstFree(UsedIndices(prefix, t), 0, MaxBlocks(prefix));
    TenantKeyRows(prefix, t, k);
    assert BlockIndex(prefix, t[k].block.base) in UsedIndices(prefix, t);
    IndexRecovers(prefix, i);
  }

  /** Storing a freshly computed block keeps the plan. */
  lemma TenantAllocationKeepsPlan(prefix: nat, t: Table, tenant: string)
    requires ValidPrefix(prefix) && Plan(prefix, t) && ':' !in tenant
    requires TenantBlockFor(prefix, t, tenant).Allocated?
    ensures Plan(prefix, t[BlockKey(tenant) := BlockV(TenantBlockFor(prefix, t, tenant).value)])
  {
    var b := TenantBlockFor(prefix, t, tenant).value;
    var key := BlockKey(tenant);
    var t' := t[key := BlockV(b)];
    BaseIsBase(prefix, FirstFree(UsedIndices(prefix, t), 0, MaxBlocks(prefix)));
    assert key !in t;
    forall k | k in t'
      ensures BlockRow(prefix, k, t'[k]) || AddressRow(t', k, t'[k])
    {
      if k != key && t[k].AddressV? {
        assert AddressRow(t, k, t[k]);
        assert BlockKey(t[k].address.tenantId) != key;
      }
    }
    forall k | k in t && t[k].BlockV?
      ensures t[k].block.base != b.base
    {
      NewBaseIsFree(prefix, t, tenant, k);
    }
  }

  /** A new address differs from every stored address. */
  lemma NewAddressIsFree(prefix: nat, t: Table, b: TenantBlock, k: string)
    requires ValidPrefix(prefix) && Plan(prefix, t)
    requires BlockKey(b.tenantId) in t && t[BlockKey(b.tenantId)] == BlockV(b) && b.nextOffset < MaxHosts(prefix)
    requires k in t && t[k].AddressV?
    ensures t[k].address.address != b.base + b.nextOffset
  {
    assert AddressRow(t, k, t[k]);
    var home := BlockKey(t[k].address.tenantId);
    assert BlockRow(prefix, home, t[home]);
    if home != BlockKey(b.tenantId) {
      BlocksPairwiseDisjoint(prefix, t, home, BlockKey(b.tenantId));
    }
  }

  lemma BumpedRowsValid(prefix: nat, t: Table, b: TenantBlock, a: ServiceAddress)
    requires ValidPrefix(prefix) && RowsValid(prefix, t)
    requires BlockKey(b.tenantId) in t && t[BlockKey(b.tenantId)] == BlockV(b) && b.nextOffset < MaxHosts(prefix)
    requires a.tenantId == b.tenantId && ':' !in a.tenantId && ':' !in a.service && a.address == b.base + b.nextOffset
    ensures RowsValid(prefix, t[BlockKey(b.tenantId) := BlockV(b.(nextOffset := b.nextOffset + 1))]
                               [AddressKey(a.tenantId, a.service, a.role) := AddressV(a)])
  {
    var home, key := BlockKey(b.tenantId), AddressKey(a.tenantId, a.service, a.role);
    var t' := t[home := BlockV(b.(nextOffset := b.nextOffset + 1))][key := AddressV(a)];
    BlockKeyIsNotAddressKey(b.tenantId, a.tenantId, a.service, a.role);
    assert BlockRow(prefix, home, t[home]) by {
      assert !AddressRow(t, home, t[home]);
    }
    forall k | k in t'
      ensures BlockRow(prefix, k, t'[k]) || AddressRow(t', k, t'[k])
    {
      if k != home && k != key && t[k].AddressV? {
        assert AddressRow(t, k, t[k]);
        BlockKeyIsNotAddressKey(t[k].address.tenantId, a.tenantId, a.service, a.role);
      }
    }
  }

  lemma StoredTenant(prefix: nat, t: Table, tenant: string)
    requires ValidPrefix(prefix) && RowsValid(prefix, t) && BlockKey(tenant) in t
    ensures t[BlockKey(tenant)].BlockV? && t[BlockKey(tenant)].block.tenantId == tenant && ':' !in tenant
    ensures t[BlockKey(tenant)].block.prefix == prefix
  {
    var k := BlockKey(tenant);
    if AddressRow(t, k, t[k]) {
      BlockKeyIsNotAddressKey(tenant, t[k].address.tenantId, t[k].address.service, t[k].address.role);
    }
    BlockKeyInjective(tenant, t[k].block.tenantId);
  }

  /** The table after an address allocation is committed. */
  function Granted(t: Table, b: TenantBlock, a: ServiceAddress): Table {
    t[BlockKey(b.tenantId) := BlockV(b)][AddressKey(a.tenantId, a.service, a.role) := AddressV(a)]
  }

  /** Storing a freshly computed address keeps the plan. */
  lemma AddressAllocationKeepsPlan(prefix: nat, t: Table, tenant: string, service: string, role: string)
    requires ValidPrefix(prefix) && Plan(prefix, t) && ':' !in service
    requires AddressKey(tenant, service, role) !in t
    requires ServiceAddressFor(t, tenant, service, role).Allocated?
    ensures var (b, a) := ServiceAddressFor(t, tenant, service, role).value; Plan(prefix, Granted(t, b, a))
  {
    StoredTenant(prefix, t, tenant);
    var was := t[BlockKey(tenant)].block;
    var (b, a) := ServiceAddressFor(t, tenant, service, role).value;
    BumpedRowsValid(prefix, t, was, a);
    var t' := Granted(t, b, a);
    BlockKeyIsNotAddressKey(tenant, a.tenantId, a.service, a.role);
    forall k | k in t && t[k].AddressV?
      ensures t[k].address.address != a.address
    {
      NewAddressIsFree(prefix, t, was, k);
    }
    GrantedDistinct(t, was, b, a);
  }

  lemma GrantedDistinct(t: Table, was: TenantBlock, b: TenantBlock, a: ServiceAddress)
    requires BasesDistinct(t) && AddressesDistinct(t)
    requires BlockKey(b.tenantId) in t && t[BlockKey(b.tenantId)] == BlockV(was) && b.base == was.base
    requires BlockKey(b.tenantId) != AddressKey(a.tenantId, a.service, a.role)
    requires AddressKey(a.tenantId, a.service, a.role) !in t
    requires forall k :: k in t && t[k].AddressV? ==> t[k].address.address != a.address
    ensures BasesDistinct(Granted(t, b, a)) && AddressesDistinct(Granted(t, b, a))
  {
  }

  // ----- every run -----

  /** The actions that touch the plan, each computed from the state it is applied to, and any command
  that does not write the plan's table. */
  datatype Action =
    | MakeTenant(tenant: string, createdAt: int)
    | DropTenant(tenant: string)
    | MakeBlock(tenant: string)
    | AllocateAddress(tenant: string, service: string, role: string)
    | Other(cmd: Command)

  /** Service names carry no colon: workload identifiers are validated and cron run identifiers append
  a number to one. Manifests never target the plan's table. */
  ghost predicate Admissible(a: Action) {
    match a
    case MakeTenant(_, _) => true
    case DropTenant(_) => true
    case MakeBlock(tenant) => ':' !in tenant
    case AllocateAddress(_, service, _) => ':' !in service
    case Other(ApplyManifests(updates)) => forall u :: u in updates ==> u.target != ToDummyIps
    case Other(cmd) => !MayWrite(cmd, DummyIps)
  }

  /** `create_tenant`: validate, refuse an existing tenant, compute a block, commit both. */
  ghost function Create(spiffe: string -> bool, prefix: nat, s: Store, tenant: string, createdAt: int): Store
    requires ValidPrefix(prefix)
  {
    if !ValidIdentifier(tenant) || tenant in s.At(Tenants) then s
    else match TenantBlockFor(prefix, s.At(DummyIps), tenant)
      case Failed(_) => s
      case Allocated(b) => Try(spiffe, s, CreateTenant(TenantRecord(tenant, createdAt, ""), b))
  }

  /** A block allocated on its own, computed like the block of a new tenant. */
  ghost function Block(spiffe: string -> bool, prefix: nat, s: Store, tenant: string): Store
    requires ValidPrefix(prefix)
  {
    match TenantBlockFor(prefix, s.At(DummyIps), tenant)
    case Failed(_) => s
    case Allocated(b) => Try(spiffe, s, AllocateTenantBlock(b))
  }

  /** `allocate_service_addresses` for one role: nothing when an address exists. */
  function Allocate(spiffe: string -> bool, s: Store, tenant: string, service: string, role: string): Store {
    if AddressKey(tenant, service, role) in s.At(DummyIps) then s
    else match ServiceAddressFor(s.At(DummyIps), tenant, service, role)
      case Failed(_) => s
      case Allocated((b, a)) => Try(spiffe, s, AllocateServiceAddress(b, a))
  }

  function Try(spiffe: string -> bool, s: Store, cmd: Command): Store {
    match Step(spiffe, s, cmd)
    case Ok(next) => next
    case Err => s
  }

  ghost function Act(spiffe: string -> bool, prefix: nat, s: Store, a: Action): Store
    requires ValidPrefix(prefix)
  {
    match a
    case MakeTenant(tenant, createdAt) => Create(spiffe, prefix, s, tenant, createdAt)
    case DropTenant(tenant) => Try(spiffe, s, DeleteTenant(tenant))
    case MakeBlock(tenant) => Block(spiffe, prefix, s, tenant)
    case AllocateAddress(tenant, service, role) => Allocate(spiffe, s, tenant, service, role)
    case Other(cmd) => Try(spiffe, s, cmd)
  }

  ghost function Acts(spiffe: string -> bool, prefix: nat, s: Store, actions: seq<Action>): Store
    requires ValidPrefix(prefix)
    decreases |actions|
  {
    if actions == [] then s else Acts(spiffe, prefix, Act(spiffe, prefix, s, actions[0]), actions[1..])
  }

  /** Allocations are permanent: every key stays, addresses and bases never change. */
  ghost predicate Preserves(t: Table, t': Table) {
    forall k :: k in t ==>
      && k in t'
      && (t[k].AddressV? ==> t'[k] == t[k])
      && (t[k].BlockV? ==> t'[k].BlockV? && t'[k].block.base == t[k].block.base)
  }

  lemma CreateKeepsPlan(spiffe: string -> bool, prefix: nat, s: Store, tenant: string, createdAt: int)
    requires ValidPrefix(prefix) && Plan(prefix, s.At(DummyIps))
    ensures Plan(prefix, Create(spiffe, prefix, s, tenant, createdAt).At(DummyIps))
    ensures Preserves(s.At(DummyIps), Create(spiffe, prefix, s, tenant, createdAt).At(DummyIps))
  {
    hide Plan, Preserves, TenantBlockFor, Commit, Try;
    var t := s.At(DummyIps);
    if ValidIdentifier(tenant) && tenant !in s.At(Tenants) && TenantBlockFor(prefix, t, tenant).Allocated? {
      var b := TenantBlockFor(prefix, t, tenant).value;
      var record := TenantRecord(tenant, createdAt, "");
      IdentifierHasNoColon(tenant);
      TenantAllocationKeepsPlan(prefix, t, tenant);
      TenantAllocationPreserves(prefix, t, tenant);
      CreateCommits(spiffe, s, record, b);
    } else {
      PreservesReflexive(t);
    }
  }

  lemma BlockKeepsPlan(spiffe: string -> bool, prefix: nat, s: Store, tenant: string)
    requires ValidPrefix(prefix) && Plan(prefix, s.At(DummyIps)) && ':' !in tenant
    ensures Plan(prefix, Block(spiffe, prefix, s, tenant).At(DummyIps))
    ensures Preserves(s.At(DummyIps), Block(spiffe, prefix, s, tenant).At(DummyIps))
  {
    hide Plan, Preserves, TenantBlockFor, Commit, Try;
    var t := s.At(DummyIps);
    if TenantBlockFor(prefix, t, tenant).Allocated? {
      TenantAllocationKeepsPlan(prefix, t, tenant);
      TenantAllocationPreserves(prefix, t, tenant);
      BlockCommits(spiffe, s, TenantBlockFor(prefix, t, tenant).value);
    } else {
      PreservesReflexive(t);
    }
  }

  lemma BlockCommits(spiffe: string -> bool, s: Store, b: TenantBlock)
    ensures Try(spiffe, s, AllocateTenantBlock(b)).At(DummyIps) == s.At(DummyIps)[BlockKey(b.tenantId) := BlockV(b)]
  {
    hide BlockKey, Commit;
    var x := Put(DummyIps, BlockKey(b.tenantId), BlockV(b));
    CommitOne(s, x);
    assert Try(spiffe, s, AllocateTenantBlock(b)) == Commit(s, [x]);
  }

  lemma TenantAllocationPreserves(prefix: nat, t: Table, tenant: string)
    requires ValidPrefix(prefix) && TenantBlockFor(prefix, t, tenant).Allocated?
    ensures TenantBlockFor(prefix, t, tenant).value.tenantId == tenant
    ensures Preserves(t, t[BlockKey(tenant) := BlockV(TenantBlockFor(prefix, t, tenant).value)])
  {
  }

  lemma CreateCommits(spiffe: string -> bool, s: Store, record: TenantRecord, b: TenantBlock)
    requires b.tenantId == record.tenantId
    ensures Try(spiffe, s, CreateTenant(record, b)).At(Tenants) == s.At(Tenants)[record.tenantId := TenantV(record)]
    ensures Try(spiffe, s, CreateTenant(record, b)).At(DummyIps) == s.At(DummyIps)[BlockKey(b.tenantId) := BlockV(b)]
  {
    hide BlockKey, Commit;
    var x, y := Put(Tenants, record.tenantId, TenantV(record)), Put(DummyIps, BlockKey(record.tenantId), BlockV(b));
    CommitPair(s, x, y);
    ExecOther(s, x, DummyIps);
    ExecOther(Exec(s, x), y, Tenants);
    assert Try(spiffe, s, CreateTenant(record, b)) == Commit(s, [x, y]);
  }

  lemma AllocateKeepsPlan(spiffe: string -> bool, prefix: nat, s: Store, tenant: string, service: string, role: string)
    requires ValidPrefix(prefix) && Plan(prefix, s.At(DummyIps)) && ':' !in service
    ensures Plan(prefix, Allocate(spiffe, s, tenant, service, role).At(DummyIps))
    ensures Preserves(s.At(DummyIps), Allocate(spiffe, s, tenant, service, role).At(DummyIps))
  {
    hide Plan, Preserves, ServiceAddressFor, Granted, Commit, Try;
    var t := s.At(DummyIps);
    var r := ServiceAddressFor(t, tenant, service, role);
    if AddressKey(tenant, service, role) !in t && r.Allocated? {
      var (b, a) := r.value;
      AddressAllocationKeepsPlan(prefix, t, tenant, service, role);
      AddressAllocationPreserves(prefix, t, tenant, service, role);
      GrantCommits(spiffe, s, b, a);
    } else {
      PreservesReflexive(t);
    }
  }

  lemma PreservesReflexive(t: Table)
    ensures Preserves(t, t)
  {
  }

  lemma AddressAllocationPreserves(prefix: nat, t: Table, tenant: string, service: string, role: string)
    requires ValidPrefix(prefix) && Plan(prefix, t)
    requires AddressKey(tenant, service, role) !in t && ServiceAddressFor(t, tenant, service, role).Allocated?
    ensures var (b, a) := ServiceAddressFor(t, tenant, service, role).value; Preserves(t, Granted(t, b, a))
  {
    var (b, a) := ServiceAddressFor(t, tenant, service, role).value;
    StoredTenant(prefix, t, tenant);
    BlockKeyIsNotAddressKey(b.tenantId, a.tenantId, a.service, a.role);
  }

  lemma GrantCommits(spiffe: string -> bool, s: Store, b: TenantBlock, a: ServiceAddress)
    ensures Try(spiffe, s, AllocateServiceAddress(b, a)).At(DummyIps) == Granted(s.At(DummyIps), b, a)
  {
    var x := Put(DummyIps, BlockKey(b.tenantId), BlockV(b));
    var y := Put(DummyIps, AddressKey(a.tenantId, a.service, a.role), AddressV(a));
    CommitPair(s, x, y);
    assert Try(spiffe, s, AllocateServiceAddress(b, a)) == Commit(s, [x, y]);
  }

  // ----- what one allocation does -----

  /** No stored block starts where the `i`-th block of the space does. */
  ghost predicate FreeBlock(prefix: nat, t: Table, i: nat)
    requires ValidPrefix(prefix)
  {
    forall k :: k in t && t[k].BlockV? ==> t[k].block.base != SPACE_BASE + i * MaxHosts(prefix)
  }

  ghost predicate LowestFree(prefix: nat, t: Table, i: nat)
    requires ValidPrefix(prefix)
  {
    i < MaxBlocks(prefix) && FreeBlock(prefix, t, i) && forall j: nat :: j < i ==> !FreeBlock(prefix, t, j)
  }

  lemma FreeIff(prefix: nat, t: Table, i: nat)
    requires ValidPrefix(prefix) && Plan(prefix, t) && i < MaxBlocks(prefix)
    ensures FreeBlock(prefix, t, i) <==> i !in UsedIndices(prefix, t)
  {
    hide MaxHosts, MaxBlocks, BlockIndex, BlockBase;
    BaseInRange(prefix, i);
    IndexRecovers(prefix, i);
    forall k | k in t && t[k].BlockV?
      ensures "tenant:" <= k
      ensures t[k].block.base == SPACE_BASE + i * MaxHosts(prefix) <==> BlockIndex(prefix, t[k].block.base) == i
    {
      TenantKeyRows(prefix, t, k);
      assert BlockRow(prefix, k, t[k]);
    }
  }

  /** A block is computed for a tenant without one exactly when one is free, and it is then the lowest free one, with no
  address given out. */
  lemma TenantBlockMeans(prefix: nat, t: Table, tenant: string)
    requires ValidPrefix(prefix) && Plan(prefix, t) && BlockKey(tenant) !in t
    ensures TenantBlockFor(prefix, t, tenant).Allocated? <==>
              exists i: nat :: i < MaxBlocks(prefix) && FreeBlock(prefix, t, i)
    ensures TenantBlockFor(prefix, t, tenant).Allocated? ==>
              exists i: nat :: LowestFree(prefix, t, i)
                && TenantBlockFor(prefix, t, tenant).value
                   == TenantBlock(tenant, SPACE_BASE + i * MaxHosts(prefix), prefix, 0)
  {
    hide MaxHosts, MaxBlocks, UsedIndices, Plan, FreeBlock, BlockBase;
    var i := FirstFree(UsedIndices(prefix, t), 0, MaxBlocks(prefix));
    forall j: nat | j < MaxBlocks(prefix)
      ensures FreeBlock(prefix, t, j) <==> j !in UsedIndices(prefix, t)
    {
      FreeIff(prefix, t, j);
    }
    if i < MaxBlocks(prefix) {
      BaseInRange(prefix, i);
      assert LowestFree(prefix, t, i);
    }
  }

  /** A tenant is created exactly when its name is an identifier no tenant has, it has never been given a block and a
  block is free; it then gets the lowest free one. Otherwise nothing changes. */
  lemma CreateMeans(spiffe: string -> bool, prefix: nat, s: Store, tenant: string, createdAt: int)
    requires ValidPrefix(prefix) && Plan(prefix, s.At(DummyIps))
    ensures var t, end := s.At(DummyIps), Create(spiffe, prefix, s, tenant, createdAt);
            if && ValidIdentifier(tenant) && tenant !in s.At(Tenants) && BlockKey(tenant) !in t
               && exists i: nat :: i < MaxBlocks(prefix) && FreeBlock(prefix, t, i)
            then && end.At(Tenants) == s.At(Tenants)[tenant := TenantV(TenantRecord(tenant, createdAt, ""))]
                 && exists i: nat :: LowestFree(prefix, t, i)
                      && end.At(DummyIps) == t[BlockKey(tenant) := BlockV(TenantBlock(
                                                 tenant, SPACE_BASE + i * MaxHosts(prefix), prefix, 0))]
            else end == s
  {
    hide Plan, FreeBlock, LowestFree, MaxHosts, MaxBlocks, Commit, BlockKey, UsedIndices, FirstFree, Try;
    var t := s.At(DummyIps);
    if ValidIdentifier(tenant) && tenant !in s.At(Tenants) && BlockKey(tenant) !in t {
      TenantBlockMeans(prefix, t, tenant);
      if TenantBlockFor(prefix, t, tenant).Allocated? {
        var b := TenantBlockFor(prefix, t, tenant).value;
        CreateCommits(spiffe, s, TenantRecord(tenant, createdAt, ""), b);
      }
    }
  }

  /** An address is given out exactly when the role has none, the tenant has a block and the block has an offset left;
  it is the block's next one, which moves on by one. Otherwise nothing changes. */
  lemma AllocateMeans(spiffe: string -> bool, prefix: nat, s: Store, tenant: string, service: string, role: string)
    requires ValidPrefix(prefix) && Plan(prefix, s.At(DummyIps))
    ensures var t, end := s.At(DummyIps), Allocate(spiffe, s, tenant, service, role);
            var key, home := AddressKey(tenant, service, role), BlockKey(tenant);
            if key !in t && home in t && t[home].BlockV? && t[home].block.nextOffset < MaxHosts(prefix)
            then var b := t[home].block;
                 end.At(DummyIps) == t[home := BlockV(b.(nextOffset := b.nextOffset + 1))]
                                      [key := AddressV(ServiceAddress(tenant, service, role, b.base + b.nextOffset))]
            else end == s
  {
    hide Plan, Commit, Try, BlockKey, AddressKey;
    var t := s.At(DummyIps);
    if BlockKey(tenant) in t {
      StoredTenantBlock(prefix, t, tenant);
    }
    var r := ServiceAddressFor(t, tenant, service, role);
    if AddressKey(tenant, service, role) !in t && r.Allocated? {
      GrantCommits(spiffe, s, r.value.0, r.value.1);
    }
  }

  lemma StoredTenantBlock(prefix: nat, t: Table, tenant: string)
    requires ValidPrefix(prefix) && Plan(prefix, t) && BlockKey(tenant) in t
    ensures t[BlockKey(tenant)].BlockV? && t[BlockKey(tenant)].block.tenantId == tenant
    ensures t[BlockKey(tenant)].block.prefix == prefix && Hosts(t[BlockKey(tenant)].block) == MaxHosts(prefix)
  {
    StoredTenant(prefix, t, tenant);
  }

  lemma OtherKeepsTable(spiffe: string -> bool, s: Store, cmd: Command)
    requires Admissible(Other(cmd))
    ensures Try(spiffe, s, cmd).At(DummyIps) == s.At(DummyIps)
  {
    if cmd.ApplyManifests? {
      ManifestsSpare(cmd.updates, DummyIps);
      CommitFrame(s, ManifestOps(cmd.updates), DummyIps);
    } else if Step(spiffe, s, cmd).Ok? {
      StepFrame(spiffe, s, cmd, DummyIps);
    }
  }

  lemma ActKeepsPlan(spiffe: string -> bool, prefix: nat, s: Store, a: Action)
    requires ValidPrefix(prefix) && Admissible(a) && Plan(prefix, s.At(DummyIps))
    ensures Plan(prefix, Act(spiffe, prefix, s, a).At(DummyIps))
    ensures Preserves(s.At(DummyIps), Act(spiffe, prefix, s, a).At(DummyIps))
  {
    match a
    case MakeTenant(tenant, createdAt) => CreateKeepsPlan(spiffe, prefix, s, tenant, createdAt);
    case DropTenant(tenant) => OtherKeepsTable(spiffe, s, DeleteTenant(tenant));
    case MakeBlock(tenant) => BlockKeepsPlan(spiffe, prefix, s, tenant);
    case AllocateAddress(tenant, service, role) => AllocateKeepsPlan(spiffe, prefix, s, tenant, service, role);
    case Other(cmd) => OtherKeepsTable(spiffe, s, cmd);
  }

  /** Over every run, blocks stay disjoint, addresses stay unique and inside their tenant's block, and
  what was allocated stays allocated, whether or not the tenant is deleted. */
  lemma {:induction false} PlanHoldsForever(spiffe: string -> bool, prefix: nat, s: Store, actions: seq<Action>)
    requires ValidPrefix(prefix) && Plan(prefix, s.At(DummyIps))
    requires forall i :: 0 <= i < |actions| ==> Admissible(actions[i])
    ensures Plan(prefix, Acts(spiffe, prefix, s, actions).At(DummyIps))
    ensures Preserves(s.At(DummyIps), Acts(spiffe, prefix, s, actions).At(DummyIps))
    decreases |actions|
  {
    if actions != [] {
      ActKeepsPlan(spiffe, prefix, s, actions[0]);
      var next := Act(spiffe, prefix, s, actions[0]);
      PlanHoldsForever(spiffe, prefix, next, actions[1..]);
      PreservesTransitive(s.At(DummyIps), next.At(DummyIps), Acts(spiffe, prefix, s, actions).At(DummyIps));
    }
  }

  lemma PreservesTransitive(a: Table, b: Table, c: Table)
    requires Preserves(a, b) && Preserves(b, c)
    ensures Preserves(a, c)
  {
  }

  // ----- blocks are never freed -----

  lemma PlanWritersOnlyPut(spiffe: string -> bool, v: View, cmd: Command)
    requires MayWrite(cmd, DummyIps)
    ensures Batch(spiffe, v, cmd).Ok? && OnlyPuts(Batch(spiffe, v, cmd).value, DummyIps)
  {
    hide ManifestOps, BlockKey, AddressKey;
    match cmd {
      case ApplyManifests(updates) => ManifestOpsPut(updates, DummyIps);
      case CreateTenant(_, _) =>
      case AllocateTenantBlock(_) =>
      case AllocateServiceAddress(_, _) =>
    }
  }

  /** No command frees a block or an address. */
  lemma StepKeepsAllocations(spiffe: string -> bool, s: Store, cmd: Command)
    requires Step(spiffe, s, cmd).Ok?
    ensures s.At(DummyIps).Keys <= Step(spiffe, s, cmd).value.At(DummyIps).Keys
  {
    hide MayWrite, Batch, Commit, OnlyPuts;
    if MayWrite(cmd, DummyIps) {
      PlanWritersOnlyPut(spiffe, Reads(s), cmd);
      PutsKeepKeys(s, Batch(spiffe, Reads(s), cmd).value, DummyIps);
    } else {
      StepFrame(spiffe, s, cmd, DummyIps);
    }
  }

  lemma {:induction false} RunKeepsAllocations(spiffe: string -> bool, s: Store, cmds: seq<Command>)
    requires Steps(spiffe, s, cmds).Ok?
    ensures s.At(DummyIps).Keys <= Steps(spiffe, s, cmds).value.At(DummyIps).Keys
    decreases |cmds|
  {
    hide Step;
    if cmds != [] {
      StepKeepsAllocations(spiffe, s, cmds[0]);
      RunKeepsAllocations(spiffe, Step(spiffe, s, cmds[0]).value, cmds[1..]);
    }
  }

  /** A tenant that ever had a block is refused a second one after every run of commands, whatever they are: deleting
  a tenant does not free its block, so it cannot be created again. The refusal is that it has one, unless what is
  stored no longer decodes. */
  lemma DeletedTenantStaysAllocated(spiffe: string -> bool, prefix: nat, s: Store, tenant: string, cmds: seq<Command>,
                                    end: Store)
    requires ValidPrefix(prefix) && BlockKey(tenant) in s.At(DummyIps) && Steps(spiffe, s, cmds) == Ok(end)
    ensures BlockKey(tenant) in end.At(DummyIps) && TenantBlockFor(prefix, end.At(DummyIps), tenant).Failed?
    ensures TenantBlockFor(prefix, end.At(DummyIps), tenant) == Failed(TenantAlreadyAllocated)
            <==> end.At(DummyIps)[BlockKey(tenant)].BlockV?
  {
    hide Steps;
    RunKeepsAllocations(spiffe, s, cmds);
  }
}
