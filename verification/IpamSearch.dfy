/**
 Auto-allocation never refuses its own proposal: the first free address of the searched pools is
 accepted by the allocation and tagged with the very pool it was found in.
 */
module IpamSearch {
  import opened Wrappers
  import opened IpamModel

  lemma {:induction false} LowestPool(pools: set<Pool>)
    requires pools != {}
    ensures exists p :: p in pools && forall q :: q in pools ==> p.id <= q.id
  {
    var p :| p in pools;
    var rest := pools - {p};
    if rest == {} {
      assert pools == {p};
    } else {
      LowestPool(rest);
      var l :| l in rest && forall q :: q in rest ==> l.id <= q.id;
      var least := if p.id <= l.id then p else l;
      assert least in pools && forall q :: q in pools ==> q == p || q in rest;
    }
  }

  // With disjoint pools the detection has no choice, whatever order the rows come in.
  lemma PoolForIs(db: Db, networkId: nat, ip: Ip, p: Pool)
    requires PoolsDisjoint(db) && Taggable(db, networkId, ip, p)
    ensures PoolFor(db, networkId, ip) == Some(p.id)
  {
  }

  // Sizes only matter through their sign, so a range inside a CIDR stays inside it.
  lemma RangeInNetwork(db: Db, n: Network, p: Pool, ip: Ip)
    requires Valid(db) && n in db.networks && p in db.pools && p.networkId == n.id && InRange(p, ip)
    ensures InNetwork(n, ip)
  {
  }

  // The proposal of the pool search, requested with the same pool argument, is accepted and tagged.
  lemma FirstFreeIsAccepted(db: Db, n: Network, p: Pool, req: Request)
    requires Valid(db) && n in db.networks && req.networkId == n.id
    requires FirstFree(db, n, req.poolId, p, req.ip)
    ensures Refusal(db, req) == None
    ensures NewRow(db, req).poolId == Some(p.id)
    ensures NewRow(db, req) in Allocate(db, req).allocations
  {
    RangeInNetwork(db, n, p, req.ip);
    assert FindNetwork(db, req.networkId) == Some(n);
    PoolForIs(db, n.id, req.ip, p);
  }

  lemma {:induction false} Pow2Sum(m: nat, n: nat)
    ensures Pow2(m + n) == Pow2(m) * Pow2(n)
  {
    if m > 0 {
      Pow2Sum(m - 1, n);
      assert Pow2(m + n) == 2 * Pow2(m - 1 + n);
    }
  }

  lemma AllAddresses()
    ensures Pow2(32) == 0x1_0000_0000
  {
    Pow2Sum(16, 16);
    Pow2Sum(8, 8);
    assert Pow2(8) == 256;
  }

  lemma Scaled(size: int, low: int, high: int)
    requires size >= 0 && low <= high
    ensures size * low <= size * high
  {
  }

  lemma AlignedBound(address: int, size: int, blocks: int)
    requires 0 <= address < size * blocks && size >= 1
    ensures 0 <= address - address % size
    ensures address - address % size + size <= size * blocks
  {
    var q := address / size;
    assert address == size * q + address % size;
    assert !(q >= blocks) by {
      if q >= blocks {
        Scaled(size, blocks, q);
        assert false;
      }
    }
    Scaled(size, q + 1, blocks);
  }

  // No CIDR reaches past the last address.
  lemma NetworkBounds(n: Network)
    ensures 0 <= First(n) && First(n) + Size(n.prefix) <= 0x1_0000_0000
  {
    Pow2Sum(32 - n.prefix, n.prefix);
    AllAddresses();
    AlignedBound(n.address, Size(n.prefix), Pow2(n.prefix));
  }

  // So is the proposal of the network scan, which also avoids guests and servers known elsewhere.
  lemma FirstFreeHostIsAccepted(db: Db, n: Network, req: Request)
    requires Valid(db) && n in db.networks && req.networkId == n.id
    requires FirstFreeHost(db, n, req.ip)
    ensures Refusal(db, req) == None
    ensures forall g :: g in db.guests ==> db.guests[g] != Some(req.ip)
    ensures forall s :: s in db.servers ==> db.servers[s] != Some(req.ip)
  {
  }

  // Whatever the search proposes for an extra address is accepted.
  lemma NextFreeIsAccepted(db: Db, req: Request)
    requires Valid(db) && NextFree(db, req.networkId, req.poolId, true, Some(req.ip))
    ensures Refusal(db, req) == None
  {
    var n :| n in db.networks && n.id == req.networkId && n.active &&
      ((exists p :: FirstFree(db, n, req.poolId, p, req.ip)) ||
       (!Truthy(req.poolId) && PoolsFull(db, n, req.poolId) && FirstFreeHost(db, n, req.ip)));
    if p :| FirstFree(db, n, req.poolId, p, req.ip) {
      FirstFreeIsAccepted(db, n, p, req);
    } else {
      FirstFreeHostIsAccepted(db, n, req);
    }
  }

  lemma NothingIsNotFree(db: Db, networkId: nat, poolId: Option<nat>, scan: bool, ip: Ip)
    requires IdsUnique(db) && NextFree(db, networkId, poolId, scan, Some(ip))
    ensures !NextFree(db, networkId, poolId, scan, None)
  {
  }

  // The answer of the search is determined: no two addresses are both first.
  lemma FirstFreeUnique(db: Db, n: Network, poolId: Option<nat>, p: Pool, q: Pool, x: Ip, y: Ip)
    requires IdsUnique(db)
    requires FirstFree(db, n, poolId, p, x) && FirstFree(db, n, poolId, q, y)
    ensures p == q && x == y
  {
  }
}
