/** Two-level allocation of dummy addresses from 240.0.0.0/4, the Class E space of section 4 of
RFC 1112: a block per tenant, an address per (tenant, service, role). */
module DummyIp {
  import opened Arithmetic
  import opened Decimal
  import opened Records
  import opened Keys
  import opened Storage

  const SPACE_BASE: nat := 0xF000_0000
  const SPACE_PREFIX: nat := 4
  const U32: nat := 0x1_0000_0000

  datatype Error =
    | InvalidPrefixLength
    | TenantAlreadyAllocated
    | TenantSpaceExhausted
    | TenantNotFound
    | ServiceSpaceExhausted
    | Undecodable

  datatype Allocation<+T> = Allocated(value: T) | Failed(error: Error)

  /** `1u32 << n`. */
  function Pow2(n: nat): (p: nat)
    ensures p >= 1
  {
    if n == 0 then 1 else 2 * Pow2(n - 1)
  }

  /** `i << n`, before truncation. */
  function Shl(i: nat, n: nat): nat {
    if n == 0 then i else 2 * Shl(i, n - 1)
  }

  /** `i >> n`. */
  function Shr(i: nat, n: nat): nat {
    if n == 0 then i else Shr(i / 2, n - 1)
  }

  /** The prefixes `DummyIpAllocator::new` accepts. */
  predicate ValidPrefix(prefix: nat) {
    SPACE_PREFIX < prefix <= 32
  }

  /** Number of addresses in a block. */
  function MaxHosts(prefix: nat): (n: nat)
    requires ValidPrefix(prefix)
    ensures n >= 1
  {
    Pow2(32 - prefix)
  }

  /** Number of blocks in the space. */
  function MaxBlocks(prefix: nat): (n: nat)
    requires ValidPrefix(prefix)
    ensures n >= 1
  {
    Pow2(prefix - SPACE_PREFIX)
  }

  /** `block_base`: the shift drops bits past the 32nd and the addition wraps. */
  function BlockBase(prefix: nat, index: nat): nat
    requires ValidPrefix(prefix)
  {
    (SPACE_BASE + Shl(index, 32 - prefix) % U32) % U32
  }

  /** Recovering the index of a stored base. */
  function BlockIndex(prefix: nat, base: nat): nat
    requires ValidPrefix(prefix)
  {
    if base < SPACE_BASE then 0 else Shr(base - SPACE_BASE, 32 - prefix)
  }

  // ----- arithmetic -----

  lemma {:induction false} Pow2Add(a: nat, b: nat)
    ensures Pow2(a + b) == Pow2(a) * Pow2(b)
  {
    if a > 0 {
      Pow2Add(a - 1, b);
      DoubleProduct(Pow2(a - 1), Pow2(b));
    }
  }

  lemma Pow2TwentyEight()
    ensures Pow2(28) == 0x1000_0000
  {
    assert Pow2(7) == 128;
    Pow2Add(7, 7);
    Pow2Add(14, 14);
  }

  /** As many blocks as fit the space. */
  lemma BlocksFill(prefix: nat)
    requires ValidPrefix(prefix)
    ensures MaxBlocks(prefix) * MaxHosts(prefix) == 0x1000_0000
  {
    Pow2Add(prefix - SPACE_PREFIX, 32 - prefix);
    Pow2TwentyEight();
  }

  lemma {:induction false} ShlIsMul(i: nat, n: nat)
    ensures Shl(i, n) == i * Pow2(n)
  {
    if n > 0 {
      ShlIsMul(i, n - 1);
    }
  }

  lemma {:induction false} ShrUndoesShl(i: nat, n: nat)
    ensures Shr(Shl(i, n), n) == i
  {
    if n > 0 {
      assert Shl(i, n) / 2 == Shl(i, n - 1);
      ShrUndoesShl(i, n - 1);
    }
  }

  lemma OffsetInRange(prefix: nat, index: nat)
    requires ValidPrefix(prefix) && index < MaxBlocks(prefix)
    ensures Shl(index, 32 - prefix) == index * MaxHosts(prefix)
    ensures Shl(index, 32 - prefix) + MaxHosts(prefix) <= 0x1000_0000
  {
    ShlIsMul(index, 32 - prefix);
    BlocksFill(prefix);
    MulOrder(index, MaxBlocks(prefix), MaxHosts(prefix));
  }

  lemma NoWrap(offset: nat)
    requires offset < 0x1000_0000
    ensures (SPACE_BASE + offset % U32) % U32 == SPACE_BASE + offset
  {
  }

  /** No step of `block_base` overflows for an index in range. */
  lemma BaseInRange(prefix: nat, index: nat)
    requires ValidPrefix(prefix) && index < MaxBlocks(prefix)
    ensures BlockBase(prefix, index) == SPACE_BASE + index * MaxHosts(prefix)
    ensures SPACE_BASE <= BlockBase(prefix, index)
    ensures BlockBase(prefix, index) + MaxHosts(prefix) <= U32
  {
    OffsetInRange(prefix, index);
    NoWrap(Shl(index, 32 - prefix));
  }

  /** The index recovered from a base is the one it was built from. */
  lemma IndexRecovers(prefix: nat, index: nat)
    requires ValidPrefix(prefix) && index < MaxBlocks(prefix)
    ensures BlockIndex(prefix, BlockBase(prefix, index)) == index
  {
    BaseInRange(prefix, index);
    ShlIsMul(index, 32 - prefix);
    ShrUndoesShl(index, 32 - prefix);
  }

  /** A base of the tiling. */
  predicate IsBase(prefix: nat, base: nat)
    requires ValidPrefix(prefix)
  {
    BlockIndex(prefix, base) < MaxBlocks(prefix) && base == BlockBase(prefix, BlockIndex(prefix, base))
  }

  lemma BaseIsBase(prefix: nat, index: nat)
    requires ValidPrefix(prefix) && index < MaxBlocks(prefix)
    ensures IsBase(prefix, BlockBase(prefix, index))
  {
    IndexRecovers(prefix, index);
  }

  /** Distinct bases bound disjoint blocks, all inside 240.0.0.0/4. */
  lemma BlocksDisjoint(prefix: nat, a: nat, b: nat)
    requires ValidPrefix(prefix) && IsBase(prefix, a) && IsBase(prefix, b) && a != b
    ensures a + MaxHosts(prefix) <= b || b + MaxHosts(prefix) <= a
  {
    var i, j := BlockIndex(prefix, a), BlockIndex(prefix, b);
    BaseInRange(prefix, i);
    BaseInRange(prefix, j);
    if i < j {
      MulOrder(i, j, MaxHosts(prefix));
    } else {
      MulOrder(j, i, MaxHosts(prefix));
    }
  }

  predicate InBlock(prefix: nat, index: nat, address: nat)
    requires ValidPrefix(prefix)
  {
    BlockBase(prefix, index) <= address < BlockBase(prefix, index) + MaxHosts(prefix)
  }

  /** The blocks tile the space: every address of 240.0.0.0/4 lies in exactly one of them. */
  lemma BlocksTile(prefix: nat, address: nat)
    requires ValidPrefix(prefix) && SPACE_BASE <= address < U32
    ensures (address - SPACE_BASE) / MaxHosts(prefix) < MaxBlocks(prefix)
    ensures forall i: nat :: i < MaxBlocks(prefix) ==>
              (InBlock(prefix, i, address) <==> i == (address - SPACE_BASE) / MaxHosts(prefix))
  {
    hide InBlock, MaxHosts, MaxBlocks;
    BlocksFill(prefix);
    QuotientBelow(address - SPACE_BASE, MaxBlocks(prefix), MaxHosts(prefix));
    forall i: nat | i < MaxBlocks(prefix)
      ensures InBlock(prefix, i, address) <==> i == (address - SPACE_BASE) / MaxHosts(prefix)
    {
      OneBlockEach(prefix, i, address);
    }
  }

  lemma OneBlockEach(prefix: nat, i: nat, address: nat)
    requires ValidPrefix(prefix) && i < MaxBlocks(prefix) && SPACE_BASE <= address < U32
    ensures InBlock(prefix, i, address) <==> i == (address - SPACE_BASE) / MaxHosts(prefix)
  {
    hide BlockBase, MaxHosts, MaxBlocks;
    BaseInRange(prefix, i);
    BlocksFill(prefix);
    var x, hosts := address - SPACE_BASE, MaxHosts(prefix);
    QuotientBelow(x, MaxBlocks(prefix), hosts);
    MulOrder(i, x / hosts, hosts);
    MulOrder(x / hosts, i, hosts);
  }

  // ----- the allocator -----

  /** `get_tenant_block`. */
  function GetBlock(t: Table, tenant: string): Allocation<Option<TenantBlock>> {
    if BlockKey(tenant) !in t then Allocated(None)
    else match t[BlockKey(tenant)]
      case BlockV(b) => Allocated(Some(b))
      case _ => Failed(Undecodable)
  }

  /** The indices of the blocks stored under tenant keys. */
  ghost function UsedIndices(prefix: nat, t: Table): set<nat>
    requires ValidPrefix(prefix)
  {
    set k | k in t && "tenant:" <= k && t[k].BlockV? :: BlockIndex(prefix, t[k].block.base)
  }

  /** `used_block_indices`. */
  method UsedBlockIndices(prefix: nat, t: Table) returns (used: set<nat>)
    requires ValidPrefix(prefix)
    ensures used == UsedIndices(prefix, t)
  {
    var keys := PrefixKeys(t, "tenant:");
    PrefixKeysMembers(t, "tenant:");
    used := {};
    for i := 0 to |keys|
      invariant forall x :: x in used <==> SeenBefore(prefix, t, keys, i, x)
    {
      assert keys[i] in keys;
      match t[keys[i]] {
        case BlockV(b) => used := used + {BlockIndex(prefix, b.base)};
        case _ =>
      }
    }
    assert used == UsedIndices(prefix, t) by {
      forall x
        ensures x in used <==> x in UsedIndices(prefix, t)
      {
        if x in UsedIndices(prefix, t) {
          var k :| k in t && "tenant:" <= k && t[k].BlockV? && x == BlockIndex(prefix, t[k].block.base);
          assert k in keys;
          var j :| 0 <= j < |keys| && keys[j] == k;
          assert SeenBefore(prefix, t, keys, |keys|, x);
        }
      }
    }
  }

  ghost predicate SeenBefore(prefix: nat, t: Table, keys: seq<string>, n: nat, x: nat)
    requires ValidPrefix(prefix)
  {
    exists j :: 0 <= j < n && j < |keys| && keys[j] in t && "tenant:" <= keys[j] && t[keys[j]].BlockV?
                && x == BlockIndex(prefix, t[keys[j]].block.base)
  }

  /** The first free index, or the bound when every index below it is used. */
  ghost function FirstFree(used: set<nat>, from: nat, bound: nat): (i: nat)
    requires from <= bound
    ensures from <= i <= bound
    ensures i < bound ==> i !in used
    ensures forall j :: from <= j < i ==> j in used
    decreases bound - from
  {
    if from == bound || from !in used then from else FirstFree(used, from + 1, bound)
  }

  ghost function TenantBlockFor(prefix: nat, t: Table, tenant: string): Allocation<TenantBlock>
    requires ValidPrefix(prefix)
  {
    match GetBlock(t, tenant)
    case Failed(e) => Failed(e)
    case Allocated(Some(_)) => Failed(TenantAlreadyAllocated)
    case Allocated(None) =>
      var i := FirstFree(UsedIndices(prefix, t), 0, MaxBlocks(prefix));
      if i == MaxBlocks(prefix) then Failed(TenantSpaceExhausted)
      else Allocated(TenantBlock(tenant, BlockBase(prefix, i), prefix, 0))
  }

  /** `compute_tenant_block_allocation`: exhaustion is reported exactly when every index is used. */
  method ComputeTenantBlock(prefix: nat, t: Table, tenant: string) returns (r: Allocation<TenantBlock>)
    requires ValidPrefix(prefix)
    ensures r == TenantBlockFor(prefix, t, tenant)
    ensures r == Failed(TenantSpaceExhausted) <==>
              BlockKey(tenant) !in t && forall i :: 0 <= i < MaxBlocks(prefix) ==> i in UsedIndices(prefix, t)
  {
    match GetBlock(t, tenant) {
      case Failed(e) => return Failed(e);
      case Allocated(Some(_)) => return Failed(TenantAlreadyAllocated);
      case Allocated(None) =>
    }
    var used := UsedBlockIndices(prefix, t);
    var i := 0;
    while i < MaxBlocks(prefix) && i in used
      invariant 0 <= i <= MaxBlocks(prefix)
      invariant FirstFree(used, 0, MaxBlocks(prefix)) == FirstFree(used, i, MaxBlocks(prefix))
    {
      i := i + 1;
    }
    if i == MaxBlocks(prefix) {
      return Failed(TenantSpaceExhausted);
    }
    r := Allocated(TenantBlock(tenant, BlockBase(prefix, i), prefix, 0));
  }

  /** `TenantBlock::max_hosts`: a block's own prefix bounds its hosts. */
  function Hosts(b: TenantBlock): nat {
    if b.prefix <= 32 then Pow2(32 - b.prefix) else 0
  }

  /** `compute_service_address_allocation`. */
  function ServiceAddressFor(t: Table, tenant: string, service: string, role: string)
    : Allocation<(TenantBlock, ServiceAddress)>
  {
    var key := AddressKey(tenant, service, role);
    if key in t then
      if !t[key].AddressV? then Failed(Undecodable)
      else match GetBlock(t, tenant)
        case Allocated(Some(b)) => Allocated((b, t[key].address))
        case Allocated(None) => Failed(TenantNotFound)
        case Failed(e) => Failed(e)
    else match GetBlock(t, tenant)
      case Failed(e) => Failed(e)
      case Allocated(None) => Failed(TenantNotFound)
      case Allocated(Some(b)) =>
        if b.nextOffset >= Hosts(b) then Failed(ServiceSpaceExhausted)
        else Allocated((b.(nextOffset := b.nextOffset + 1),
                        ServiceAddress(tenant, service, role, b.base + b.nextOffset)))
  }

  /** An address is computed exactly for a tenant that has a block: the stored one where there is one, and else the next
  of the block, until all 2^(32 - prefix) are given out. */
  lemma ServiceAddressMeans(t: Table, tenant: string, service: string, role: string)
    requires AddressKey(tenant, service, role) in t ==> t[AddressKey(tenant, service, role)].AddressV?
    requires BlockKey(tenant) in t ==> t[BlockKey(tenant)].BlockV?
    ensures var key, r := AddressKey(tenant, service, role), ServiceAddressFor(t, tenant, service, role);
            && (r == Failed(TenantNotFound) <==> BlockKey(tenant) !in t)
            && (BlockKey(tenant) in t ==>
                  var b := t[BlockKey(tenant)].block;
                  && (r == Failed(ServiceSpaceExhausted)
                      <==> key !in t && (b.prefix > 32 || b.nextOffset >= Pow2(32 - b.prefix)))
                  && (key in t ==> r == Allocated((b, t[key].address)))
                  && (key !in t && r.Allocated? ==>
                        && r.value.1 == ServiceAddress(tenant, service, role, b.base + b.nextOffset)
                        && r.value.0 == b.(nextOffset := b.nextOffset + 1)))
  {
    hide AddressKey, BlockKey, Pow2;
  }
}
