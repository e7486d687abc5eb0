/**
 The two id allocators of the host: peer kernel ids (int_allocator.go) and pod addresses
 (ip_allocator.go).  Both hand out a range in order and recycle released members last-in first-out.
*/
module Allocators {
  import opened Basics

  /**
   The bookkeeping both share: the range `lo..hi`, the next never-issued member, the free stack, the
   members in use.
  */
  datatype Pool = Pool(lo: int, hi: int, next: int, free: seq<int>, used: set<int>)

  function Fresh(lo: int, hi: int): (p: Pool) {
    Pool(lo, hi, lo, [], {})
  }

  function Take(p: Pool): (r: (Option<int>, Pool)) {
    if |p.free| > 0 then
      var id := p.free[|p.free| - 1];
      (Some(id), p.(free := p.free[..|p.free| - 1], used := p.used + {id}))
    else if p.next > p.hi then (None, p)
    else (Some(p.next), p.(next := p.next + 1, used := p.used + {p.next}))
  }

  /** Releasing anything that is not in use, in range or not, changes nothing. */
  function Give(p: Pool, id: int): (r: Pool) {
    if id < p.lo || id > p.hi || id !in p.used then p
    else p.(used := p.used - {id}, free := p.free + [id])
  }

  /** Used members, free members and the never-issued rest partition the range; no member is listed twice. */
  ghost predicate Partitioned(p: Pool) {
    && p.lo <= p.next && (p.next <= p.hi + 1 || p.next == p.lo)
    && (forall x :: x in p.used ==> p.lo <= x < p.next)
    && (forall x :: x in p.free ==> p.lo <= x < p.next)
    && (forall x :: p.lo <= x < p.next ==> (x in p.used <==> x !in p.free))
    && (forall i, j :: 0 <= i < j < |p.free| ==> p.free[i] != p.free[j])
  }

  /** Every member of the range is in use. */
  ghost predicate Full(p: Pool) {
    forall x :: p.lo <= x <= p.hi ==> x in p.used
  }

  /**
   Taking fails exactly when every member is in use; otherwise a member not in use is marked, and
   nothing else changes.
  */
  lemma TakeExact(p: Pool)
    requires Partitioned(p)
    ensures var id, p' := Take(p).0, Take(p).1;
      && Partitioned(p')
      && (id.None? <==> Full(p))
      && (id.None? ==> p' == p)
      && (id.Some? ==>
            p.lo <= id.value <= p.hi && id.value !in p.used && p'.used == p.used + {id.value})
      && p'.lo == p.lo && p'.hi == p.hi
  {
    if |p.free| > 0 {
      var n := |p.free| - 1;
      var id := p.free[n];
      assert id in p.free;
      assert forall x :: x in p.free <==> x in p.free[..n] || x == id by {
        assert p.free == p.free[..n] + [id];
      }
    } else if p.next <= p.hi {
      assert p.next !in p.used;
    }
  }

  lemma GiveExact(p: Pool, id: int)
    requires Partitioned(p)
    ensures var p' := Give(p, id);
      && Partitioned(p') && p'.used == p.used - {id}
      && p'.lo == p.lo && p'.hi == p.hi && p'.next == p.next
      && (id !in p.used ==> p' == p)
      && (id in p.used ==> p'.free == p.free + [id])
  {
    var p' := Give(p, id);
    if p' != p {
      assert forall x :: x in p'.free <==> x in p.free || x == id;
    }
  }

  datatype PoolOp = OpTake | OpGive(id: int)

  function PoolStep(p: Pool, op: PoolOp): (r: Pool) {
    match op
    case OpTake => Take(p).1
    case OpGive(id) => Give(p, id)
  }

  function PoolRun(p: Pool, ops: seq<PoolOp>): (r: Pool)
    decreases |ops|
  {
    if ops == [] then p else PoolRun(PoolStep(p, ops[0]), ops[1..])
  }

  /** The partition survives any sequence of takes and of releases of anything, repeated or bogus. */
  lemma {:induction false} PartitionedAlways(p: Pool, ops: seq<PoolOp>)
    requires Partitioned(p)
    ensures Partitioned(PoolRun(p, ops))
    ensures PoolRun(p, ops).lo == p.lo && PoolRun(p, ops).hi == p.hi
    decreases |ops|
  {
    hide Partitioned;
    if ops != [] {
      TakeExact(p);
      if ops[0].OpGive? { GiveExact(p, ops[0].id); }
      hide Take, Give;
      PartitionedAlways(PoolStep(p, ops[0]), ops[1..]);
    }
  }

  /** Released members are reissued last-in first-out, before any member never issued. */
  lemma ReissuesLast(p: Pool, id: int)
    requires Partitioned(p) && id in p.used
    ensures Take(Give(p, id)).0 == Some(id)
    ensures Take(Give(p, id)).1 == p
  {
    var g := Give(p, id);
    assert g.free[..|p.free|] == p.free;
    assert p.used - {id} + {id} == p.used;
  }

  // Peer kernel ids.

  class IntAllocator {
    const min: int
    const max: int
    var next: int
    var free: seq<int>
    var used: set<int>

    function View(): Pool
      reads this
    {
      Pool(min, max, next, free, used)
    }

    constructor (min: int, max: int)
      requires 0 <= min <= max
      ensures View() == Fresh(min, max) && Partitioned(View())
    {
      this.min, this.max, next := min, max, min;
      free, used := [], {};
    }

    method Allocate() returns (r: Option<int>)
      requires Partitioned(View())
      modifies this
      ensures (r, View()) == Take(old(View()))
      ensures Partitioned(View())
      ensures r.None? <==> old(Full(View()))
      ensures r.Some? ==> min <= r.value <= max && r.value !in old(used) && used == old(used) + {r.value}
    {
      TakeExact(View());
      var n := |free|;
      if n > 0 {
        var id := free[n - 1];
        free := free[..n - 1];
        used := used + {id};
        return Some(id);
      }
      if next > max {
        return None;
      }
      var id := next;
      next := next + 1;
      used := used + {id};
      return Some(id);
    }

    method Release(id: int)
      requires Partitioned(View())
      modifies this
      ensures View() == Give(old(View()), id)
      ensures Partitioned(View()) && used == old(used) - {id}
    {
      GiveExact(View(), id);
      if id < min || id > max {
        return;
      }
      if id !in used {
        return;
      }
      used := used - {id};
      free := free + [id];
    }
  }

  /** NewIntAllocator: null stands for the error on a negative or empty range. */
  method NewIntAllocator(min: int, max: int) returns (a: IntAllocator?)
    ensures a == null <==> min < 0 || max < min
    ensures a != null ==> fresh(a) && a.View() == Fresh(min, max) && Partitioned(a.View())
  {
    if min < 0 || max < min {
      return null;
    }
    a := new IntAllocator(min, max);
  }

  // Pod addresses.

  const U32: nat := 0x1_0000_0000

  function Pow2(k: nat): (r: nat)
    ensures r > 0
  {
    if k == 0 then 1 else 2 * Pow2(k - 1)
  }

  lemma {:induction false} Pow2Adds(a: nat, b: nat)
    ensures Pow2(a + b) == Pow2(a) * Pow2(b)
    decreases a
  {
    if a > 0 { Pow2Adds(a - 1, b); }
  }

  lemma Pow2Of32()
    ensures Pow2(32) == U32
  {
    assert Pow2(8) == 256;
    Pow2Adds(8, 8);
    Pow2Adds(16, 16);
  }

  lemma {:induction false} Pow2Grows(a: nat, b: nat)
    requires a < b
    ensures 2 * Pow2(a) <= Pow2(b)
    decreases b
  {
    if a < b - 1 { Pow2Grows(a, b - 1); }
  }

  /** An IPv4 network: its address, aligned to the number of host bits. */
  datatype Network = Network(base: nat, hostBits: nat)

  predicate ValidNetwork(n: Network) {
    n.hostBits <= 32 && n.base < U32 && n.base % Pow2(n.hostBits) == 0
  }

  /** uint32(1 << hostBits): a shift by 32 leaves nothing. */
  function MaxHosts(n: Network): (r: nat) {
    Pow2(n.hostBits) % U32
  }

  lemma AlignedBelow(base: nat, size: nat, k: nat)
    requires size > 0 && base % size == 0 && base < size * k
    ensures base + size <= size * k
  {
    var q := base / size;
    assert base == q * size;
    var d := k - q;
    assert d * size == size * k - base;
    assert d * size > 0;
    SmallMultiple(size, d);
  }

  lemma SizeFits(hostBits: nat)
    requires hostBits <= 32
    ensures Pow2(hostBits) <= U32 && (Pow2(hostBits) == U32 <==> hostBits == 32)
  {
    Pow2Of32();
    hide Pow2;
    if hostBits < 32 { Pow2Grows(hostBits, 32); }
  }

  lemma LastOffset(size: nat)
    requires 0 < size <= U32
    ensures (size % U32 - 1) % U32 == size - 1
  {
  }

  /** The last address still fits 32 bits, so adding an offset to the base never wraps. */
  lemma NetworkFits(n: Network)
    requires ValidNetwork(n)
    ensures n.base + Pow2(n.hostBits) <= U32
    ensures (MaxHosts(n) - 1) % U32 == Pow2(n.hostBits) - 1
  {
    Pow2Of32();
    hide Pow2;
    Pow2Adds(n.hostBits, 32 - n.hostBits);
    AlignedBelow(n.base, Pow2(n.hostBits), Pow2(32 - n.hostBits));
    SizeFits(n.hostBits);
    LastOffset(Pow2(n.hostBits));
  }

  /** Offsets 2 up to the one before the broadcast address. */
  function HostPool(n: Network): (p: Pool) {
    Fresh(2, Pow2(n.hostBits) - 2)
  }

  /** net.IPNet.Contains: equal after masking off the host bits. */
  predicate Contains(n: Network, ip: nat) {
    ip / Pow2(n.hostBits) == n.base / Pow2(n.hostBits)
  }

  /** Strictly between the gateway and the broadcast address of the network. */
  predicate InsideHosts(n: Network, ip: int) {
    n.base + 1 < ip < n.base + Pow2(n.hostBits) - 1 < U32
  }

  lemma SameQuotient(base: nat, ip: nat, size: nat)
    requires size > 0 && base % size == 0
    ensures base / size == ip / size <==> base <= ip < base + size
  {
    var q, q' := base / size, ip / size;
    assert base == q * size;
    assert ip == q' * size + ip % size;
    assert (q' - q) * size == q' * size - q * size;
    SmallMultiple(size, q' - q);
  }

  lemma InsideOffset(n: Network, ip: nat)
    requires ValidNetwork(n) && Contains(n, ip)
    ensures n.base <= ip < n.base + Pow2(n.hostBits)
  {
    SameQuotient(n.base, ip, Pow2(n.hostBits));
  }

  lemma OutsideIsBogus(n: Network, ip: nat)
    requires ValidNetwork(n) && !Contains(n, ip)
    ensures ip < n.base || ip >= n.base + Pow2(n.hostBits)
  {
    SameQuotient(n.base, ip, Pow2(n.hostBits));
  }

  class IPAllocator {
    const network: Network
    var next: nat
    var free: seq<int>
    var used: set<int>

    function View(): Pool
      reads this
    {
      Pool(2, Pow2(network.hostBits) - 2, next, free, used)
    }

    ghost predicate Valid()
      reads this
    {
      ValidNetwork(network) && Partitioned(View())
    }

    constructor (network: Network)
      requires ValidNetwork(network)
      ensures this.network == network && Valid() && View() == HostPool(network)
    {
      this.network := network;
      next, free, used := 2, [], {};
    }

    /** The address of an offset: a 32-bit sum. */
    function Address(offset: int): int {
      (network.base + offset) % U32
    }

    /** The 32-bit maxHosts - 1 that offsets are compared with. */
    function Limit(): int {
      (MaxHosts(network) - 1) % U32
    }

    function Next32(offset: nat): nat {
      (offset + 1) % U32
    }

    /** The offset of an address: a 32-bit difference. */
    function Offset(ip: nat): (r: int)
      ensures network.base <= ip < U32 ==> r == ip - network.base
    {
      (ip - network.base) % U32
    }

    lemma LimitExact()
      requires ValidNetwork(network)
      ensures Limit() == Pow2(network.hostBits) - 1
    {
      hide Pow2, ValidNetwork, MaxHosts;
      NetworkFits(network);
    }

    /** An offset between the gateway and the broadcast address gives a host address; nothing wraps. */
    lemma NoWrap(offset: nat)
      requires ValidNetwork(network) && 2 <= offset < Pow2(network.hostBits) - 1
      ensures Address(offset) == network.base + offset && InsideHosts(network, Address(offset))
      ensures Next32(offset) == offset + 1
    {
      hide Pow2, ValidNetwork, MaxHosts;
      NetworkFits(network);
      assert network.base + offset < U32 && offset + 1 < U32;
    }

    method Allocate() returns (r: Option<int>)
      requires Valid()
      modifies this
      ensures Valid()
      ensures View() == Take(old(View())).1
      ensures r.None? <==> old(Full(View()))
      ensures r.Some? ==> Take(old(View())).0 == Some(r.value - network.base)
      ensures r.Some? ==> InsideHosts(network, r.value)
    {
      hide Pow2, ValidNetwork, MaxHosts, Address, Limit, Next32, InsideHosts;
      TakeExact(View());
      LimitExact();
      var n := |free|;
      if n > 0 {
        var offset := free[n - 1];
        assert offset in free;
        NoWrap(offset);
        free := free[..n - 1];
        used := used + {offset};
        return Some(Address(offset));
      }
      if next >= Limit() {
        return None;
      }
      NoWrap(next);
      var ip := Address(next);
      used := used + {next as int};
      next := Next32(next);
      return Some(ip);
    }

    /** `ip` is what net.ParseIP and To4 made of the string, if anything. */
    method Release(ip: Option<nat>)
      requires Valid() && (ip.Some? ==> ip.value < U32)
      modifies this
      ensures Valid()
      ensures View() == if ip.Some? then Give(old(View()), ip.value - network.base) else old(View())
    {
      hide Pow2, ValidNetwork, MaxHosts, Contains, Limit;
      if ip.None? {
        return;
      }
      GiveExact(View(), ip.value - network.base);
      if !Contains(network, ip.value) {
        OutsideIsBogus(network, ip.value);
        return;
      }
      InsideOffset(network, ip.value);
      LimitExact();
      var offset := Offset(ip.value);
      if offset < 2 || offset >= Limit() {
        return;
      }
      if offset !in used {
        return;
      }
      used := used - {offset};
      free := free + [offset];
    }
  }

  lemma Masked(ip: nat, size: nat)
    requires size > 0
    ensures 0 <= ip - ip % size <= ip && (ip - ip % size) % size == 0 && (ip - ip % size) / size == ip / size
  {
    assert ip == (ip / size) * size + ip % size;
    QuotientUnique(size, ip / size, 0, ip - ip % size);
  }

  /** The network of an address: its host bits cleared. */
  function NetworkOf(ip: nat, hostBits: nat): (n: Network)
    requires ip < U32 && hostBits <= 32
    ensures n.hostBits == hostBits && ValidNetwork(n) && Contains(n, ip)
  {
    Masked(ip, Pow2(hostBits));
    Network(ip - ip % Pow2(hostBits), hostBits)
  }

  /** NewIPAllocator on a parsed IPv4 base address; null stands for the error on an unparsable address or prefix. */
  method NewIPAllocator(ip: Option<nat>, mask: int) returns (a: IPAllocator?)
    requires ip.Some? ==> ip.value < U32
    ensures a == null <==> ip.None? || !(0 <= mask <= 32)
    ensures a != null ==>
      && fresh(a) && a.Valid() && a.View() == HostPool(a.network)
      && a.network.hostBits == 32 - mask && Contains(a.network, ip.value)
  {
    hide Pow2, ValidNetwork, Contains, NetworkOf;
    if ip.None? || mask < 0 || mask > 32 {
      return null;
    }
    a := new IPAllocator(NetworkOf(ip.value, 32 - mask));
  }

  /** No address issued is the network, the gateway or the broadcast address, and it lies in the network. */
  lemma IssuedIsHost(n: Network, ip: int)
    requires ValidNetwork(n) && InsideHosts(n, ip)
    ensures ip >= 0 && Contains(n, ip)
    ensures ip != n.base && ip != n.base + 1 && ip != n.base + Pow2(n.hostBits) - 1
  {
    SameQuotient(n.base, ip, Pow2(n.hostBits));
  }
}
