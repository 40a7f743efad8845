/**
 What the operations do to the rows and the log, told from the fields of the rows before and after.
 */
module IpamEffects {
  import opened Wrappers
  import opened IpamModel
  import opened IpamLedger
  import opened IpamSearch

  // ---------- addresses and CIDRs ----------

  // An address belongs to a network when both lie in the same block of the network's size.
  lemma InNetworkIs(n: Network, ip: Ip)
    ensures InNetwork(n, ip) <==> ip / Size(n.prefix) == n.address / Size(n.prefix)
  {
    SameBlock(n.address, ip, Size(n.prefix));
  }

  lemma SameBlock(a: int, b: int, size: int)
    requires size >= 1
    ensures a - a % size <= b < a - a % size + size <==> b / size == a / size
  {
    var q, r := a / size, b / size;
    assert a == size * q + a % size && b == size * r + b % size;
    if r < q {
      Scaled(size, r + 1, q);
    } else if r > q {
      Scaled(size, q + 1, r);
    }
  }

  // The whole address space is one /0 block, a /32 block is a single address, and each bit halves a block.
  lemma BlockSizes(prefix: Prefix)
    ensures Size(0) == 0x1_0000_0000 && Size(32) == 1
    ensures prefix < 32 ==> Size(prefix) == 2 * Size(prefix + 1)
  {
    AllAddresses();
  }

  // ---------- allocation ----------

  // The guest has no primary address.
  ghost predicate NoPrimary(db: Db, server: Option<nat>, vmid: Option<nat>) {
    forall a :: a in db.allocations && a.primary ==> a.server != server || a.vmid != vmid
  }

  ghost predicate Free(db: Db, networkId: nat, ip: Ip) {
    && (forall a :: a in db.allocations ==> a.ip != ip)
    && exists n :: n in db.networks && n.id == networkId && n.gateway != Some(ip) && ip / Size(n.prefix) == n.address / Size(n.prefix)
  }

  // The rows of `after` are those of `before` and `row`.
  predicate OneMore(before: set<Allocation>, after: set<Allocation>, row: Allocation) {
    row !in before && after == before + {row}
  }

  // An address is given out exactly when no row has it and its network contains it, other than as the
  // gateway. The new row carries what was asked for; it is the guest's primary address when that was
  // demanded, or when its kind says so and the guest has none.
  lemma AllocationIs(db: Db, req: Request)
    requires IdsUnique(db) && IdsFresh(db)
    ensures Refusal(db, req).None? <==> Free(db, req.networkId, req.ip)
    ensures Refusal(db, req).Some? ==> Allocate(db, req) == db
    ensures Refusal(db, req).None? ==>
              var row := NewRow(db, req);
              && OneMore(db.allocations, Allocate(db, req).allocations, row)
              && row.ip == req.ip && row.networkId == req.networkId && row.server == req.server && row.vmid == req.vmid
              && row.resourceId == req.resourceId && row.status == req.status && row.kind == req.kind
              && (forall flag :: req.primary == Some(flag) ==> row.primary == flag)
              && (req.primary.None? ==> (row.primary <==> req.kind == "primary" && req.vmid.Some? && NoPrimary(db, req.server, req.vmid)))
  {
    forall n | n in db.networks ensures InNetwork(n, req.ip) <==> req.ip / Size(n.prefix) == n.address / Size(n.prefix) {
      InNetworkIs(n, req.ip);
    }
    if n :| n in db.networks && n.id == req.networkId {
      assert FindNetwork(db, req.networkId) == Some(n);
    }
  }

  // A refusal names the first thing that is wrong.
  lemma RefusalNames(db: Db, req: Request, n: Network)
    requires IdsUnique(db)
    ensures Refusal(db, req) == Some(AlreadyAllocated) <==> exists a :: a in db.allocations && a.ip == req.ip
    ensures Refusal(db, req) == Some(NetworkNotFound) <==>
              (forall a :: a in db.allocations ==> a.ip != req.ip) && forall m :: m in db.networks ==> m.id != req.networkId
    ensures n in db.networks && n.id == req.networkId && (forall a :: a in db.allocations ==> a.ip != req.ip) ==>
              && (Refusal(db, req) == Some(OutsideNetwork) <==> req.ip / Size(n.prefix) != n.address / Size(n.prefix))
              && (Refusal(db, req) == Some(IsGateway) <==>
                    req.ip / Size(n.prefix) == n.address / Size(n.prefix) && n.gateway == Some(req.ip))
  {
    InNetworkIs(n, req.ip);
    if n in db.networks && n.id == req.networkId {
      assert FindNetwork(db, req.networkId) == Some(n);
    }
  }

  // ---------- discovery ----------

  predicate Holds(a: Allocation, g: Guest) {
    a.server == Some(g.server) && a.vmid == Some(g.vmid)
  }

  ghost predicate HasPrimaryRow(db: Db, g: Guest) {
    exists a :: a in db.allocations && Holds(a, g) && a.primary
  }

  // The row belongs to a guest that is still there.
  predicate OfLiveGuest(db: Db, a: Allocation) {
    a.server.Some? && a.vmid.Some? && Guest(a.server.value, a.vmid.value) in db.guests
  }

  // A discovered address that nobody has becomes a row of the guest: its primary address when it has
  // none, and an address of the given kind otherwise.
  lemma SyncOfNewAddress(db: Db, networkId: nat, g: Guest, ip: Ip, kind: string) returns (row: Allocation)
    requires IdsUnique(db) && IdsFresh(db) && forall a :: a in db.allocations ==> a.ip != ip
    ensures var after := Sync(db, networkId, g, ip, kind);
            if Free(db, networkId, ip) then
              && OneMore(db.allocations, after.allocations, row)
              && row.ip == ip && row.networkId == networkId && Holds(row, g) && row.status == "allocated"
              && row.primary == !HasPrimaryRow(db, g)
              && row.kind == (if HasPrimaryRow(db, g) then kind else "primary")
            else after == db
  {
    var req := SyncRequest(db, networkId, g, ip, kind);
    AllocationIs(db, req);
    row := NewRow(db, req);
  }

  // One that another live guest has stays where it is, and so does one the guest has itself; the row of
  // a guest that is gone is moved, and nothing of it changes but the guest.
  lemma SyncOfKnownAddress(db: Db, networkId: nat, g: Guest, kind: string, a: Allocation)
    requires AddressesUnique(db) && a in db.allocations
    ensures var after := Sync(db, networkId, g, a.ip, kind);
            if Holds(a, g) || OfLiveGuest(db, a) then after == db
            else
              && after.allocations == db.allocations - {a} + {a.(server := Some(g.server), vmid := Some(g.vmid))}
              && after == db.(allocations := after.allocations, history := db.history + [Entry(a.ip, a.networkId, Modified)])
  {
    FoundRow(db, a);
  }

  // ---------- changing a row ----------

  // A field that was sent has the value sent, the others stay, and no other row changes.
  lemma UpdateIs(db: Db, patch: Patch, a: Allocation) returns (b: Allocation)
    requires AddressesUnique(db) && a in db.allocations
    ensures Update(db, a.ip, patch).allocations == db.allocations - {a} + {b}
    ensures b.id == a.id && b.ip == a.ip && b.networkId == a.networkId && b.primary == a.primary && b.kind == a.kind
    ensures if patch.poolId.Some? then b.poolId == patch.poolId.value else b.poolId == a.poolId
    ensures if patch.resourceId.Some? then b.resourceId == patch.resourceId.value else b.resourceId == a.resourceId
    ensures if patch.server.Some? then b.server == patch.server.value else b.server == a.server
    ensures if patch.vmid.Some? then b.vmid == patch.vmid.value else b.vmid == a.vmid
    ensures if patch.status.Some? then b.status == patch.status.value else b.status == a.status
    ensures Update(db, a.ip, patch).history ==
            db.history + if a == b && !patch.others then [] else [Entry(a.ip, a.networkId, Modified)]
  {
    FoundRow(db, a);
    b := Patched(a, patch);
  }

  // ---------- the log ----------

  ghost predicate HasRow(db: Db, ip: Ip) {
    exists a :: a in db.allocations && a.ip == ip
  }

  // The tables differ in the row of one address only, and in primary flags.
  ghost predicate SameElsewhere(before: Db, after: Db, ip: Ip) {
    && (forall a :: a in before.allocations && a.ip != ip ==>
          a.(primary := true) in after.allocations || a.(primary := false) in after.allocations)
    && (forall a :: a in after.allocations && a.ip != ip ==>
          a.(primary := true) in before.allocations || a.(primary := false) in before.allocations)
  }

  ghost predicate Tells(before: Db, after: Db, e: Entry) {
    && after.history == before.history + [e]
    && SameElsewhere(before, after, e.ip)
    && (match e.action
        case Allocated => !HasRow(before, e.ip) && HasRow(after, e.ip)
        case Released => HasRow(before, e.ip) && !HasRow(after, e.ip)
        case Modified => HasRow(before, e.ip) && HasRow(after, e.ip))
  }

  predicate ChangesOneRow(s: Step) {
    s.AddressAllocated? || s.AddressReleased? || s.AddressUpdated? || s.PrimarySet? || s.Synced?
  }

  // A step on one address writes one entry that tells what happened to it; without an entry nothing happened.
  lemma LogTellsEveryChange(db: Db, s: Step)
    requires Valid(db) && ChangesOneRow(s) && Enabled(db, s)
    ensures Next(db, s).history == db.history ==> Next(db, s) == db
    ensures Next(db, s).history != db.history ==> exists e :: Tells(db, Next(db, s), e)
  {
    match s
    case AddressAllocated(req) => AllocationTells(db, req);
    case AddressReleased(ip) => ReleaseTells(db, ip);
    case AddressUpdated(ip, patch) => UpdateTells(db, ip, patch);
    case PrimarySet(g, id) => PrimaryTells(db, g, id);
    case Synced(networkId, g, ip, kind) =>
      if a :| a in db.allocations && a.ip == ip {
        FoundRow(db, a);
        UpdateTells(db, ip, Rebinding(g));
      } else {
        AllocationTells(db, SyncRequest(db, networkId, g, ip, kind));
      }
    case _ =>
  }

  ghost predicate Told(before: Db, after: Db) {
    after == before || exists e :: Tells(before, after, e)
  }

  lemma AllocationTells(db: Db, req: Request)
    requires Valid(db)
    ensures Told(db, Allocate(db, req))
  {
    AllocationIs(db, req);
    if Refusal(db, req).None? {
      var after, row := Allocate(db, req), NewRow(db, req);
      assert row in after.allocations && row.ip == req.ip;
      SameRowsElsewhere(db, after, req.ip);
      assert Tells(db, after, Entry(req.ip, req.networkId, Allocated));
    }
  }

  lemma SameRowsElsewhere(before: Db, after: Db, ip: Ip)
    requires forall a: Allocation :: a.ip != ip ==> (a in before.allocations <==> a in after.allocations)
    ensures SameElsewhere(before, after, ip)
  {
    forall a: Allocation ensures a.primary ==> a == a.(primary := true) {
    }
    forall a: Allocation ensures !a.primary ==> a == a.(primary := false) {
    }
  }

  lemma ReleaseTells(db: Db, ip: Ip)
    requires Valid(db)
    ensures Told(db, Release(db, ip))
  {
    if FindRow(db, ip).Some? {
      var a := FindRow(db, ip).value;
      SameRowsElsewhere(db, Release(db, ip), ip);
      assert Tells(db, Release(db, ip), Entry(ip, a.networkId, Released));
    }
  }

  lemma UpdateTells(db: Db, ip: Ip, patch: Patch)
    requires Valid(db)
    ensures Told(db, Update(db, ip, patch))
  {
    if FindRow(db, ip).Some? {
      var a := FindRow(db, ip).value;
      var b := UpdateIs(db, patch, a);
      var after := Update(db, ip, patch);
      assert b in after.allocations;
      if after != db {
        SameRowsElsewhere(db, after, ip);
        assert Tells(db, after, Entry(ip, a.networkId, Modified));
      }
    }
  }

  lemma PrimaryTells(db: Db, g: Guest, id: nat)
    requires Valid(db)
    ensures Told(db, SetPrimary(db, g, id))
  {
    if target :| IsTarget(db, g, id, target) {
      var after := SetPrimary(db, g, id);
      SetPrimaryIs(db, g, id, target);
      forall a | a in db.allocations ensures Marked(a, g, id) in after.allocations {
      }
      assert SameElsewhere(db, after, target.ip);
      assert Tells(db, after, Entry(target.ip, target.networkId, Modified));
    }
  }

  // ---------- releases ----------

  // Removing a server releases all its active rows, and only those.
  lemma ServerReleaseIsExact(db: Db, server: nat, order: seq<Allocation>)
    requires Lists(order, ActiveOnServer(db, server))
    ensures var after := ReleaseEach(db, order);
            forall a :: a in after.allocations <==>
              a in db.allocations && !(a.server == Some(server) && (a.status == "allocated" || a.status == "reserved"))
  {
    ReleaseEachEffect(db, order);
    assert Elements(order) == ActiveOnServer(db, server);
  }

  // Removing a guest that has no active row releases the old active rows that carry its number and no server.
  lemma LegacyReleaseIsExact(db: Db, g: Guest, order: seq<Allocation>)
    requires Lists(order, ReleasedWith(db, g))
    ensures forall a :: a in db.allocations && a !in ReleaseEach(db, order).allocations ==>
              || Holds(a, g)
              || (a.server == None && a.resourceId == Some(g.vmid) && forall b :: b in ActiveOf(db, g) ==> !Holds(b, g))
    ensures ActiveOf(db, g) == {} ==>
              forall a :: a in db.allocations && a.server == None && a.resourceId == Some(g.vmid) && a.status == "allocated" ==>
                a !in ReleaseEach(db, order).allocations
  {
    ReleaseEachEffect(db, order);
    assert Elements(order) == ReleasedWith(db, g);
  }

  // After a cleanup every active row that names a server names one that exists, and every one that
  // names a guest names one that exists.
  lemma CleanupLeavesNoStray(db: Db, order: seq<Allocation>, a: Allocation)
    requires Lists(order, Orphans(db))
    requires a in ReleaseEach(db, order).allocations && a.server.Some?
    requires a.status == "allocated" || a.status == "reserved"
    ensures a.server.value in db.servers && (a.vmid.Some? ==> Guest(a.server.value, a.vmid.value) in db.guests)
  {
    ReleaseEachEffect(db, order);
    assert Elements(order) == Orphans(db);
  }

  // ---------- the cached address ----------

  // The instance list shows the active primary address of a guest if it has one, and otherwise the
  // active address with the smallest id; without an active address it shows what it did.
  lemma CacheShows(db: Db, g: Guest, a: Allocation)
    requires IdsUnique(db) && a in db.allocations && Holds(a, g) && (a.status == "allocated" || a.status == "reserved")
    requires forall b :: b in db.allocations && Holds(b, g) && Active(b) && b != a ==>
               (a.primary && !b.primary) || (a.primary == b.primary && a.id < b.id)
    ensures Refreshed(db, g) == db.(guests := db.guests[g := Some(a.ip)])
  {
    assert IsFirstAddress(db, g, a);
    forall b | IsFirstAddress(db, g, b) ensures b == a {
      assert a in ActiveOf(db, g) && b in ActiveOf(db, g);
    }
  }

  lemma CacheStays(db: Db, g: Guest)
    requires forall b :: b in db.allocations && Holds(b, g) ==> b.status != "allocated" && b.status != "reserved"
    ensures Refreshed(db, g) == db
  {
  }

  // Marking an address primary changes no row of another guest.
  lemma OtherGuestsKeepTheirs(db: Db, g: Guest, id: nat, a: Allocation)
    requires !Holds(a, g)
    ensures a in SetPrimary(db, g, id).allocations <==> a in db.allocations
  {
    if a in db.allocations {
      assert Marked(a, g, id) == a;
    }
  }

  // ---------- proposals ----------

  predicate Assignable(db: Db, networkId: nat, poolId: Option<nat>, ip: Ip, p: Pool) {
    && p in db.pools && p.networkId == networkId && p.active && p.autoAssign && p.start <= ip <= p.end
    && (poolId.Some? && poolId.value != 0 ==> p.id == poolId.value)
  }

  predicate Known(db: Db, ip: Ip) {
    (exists g :: g in db.guests && db.guests[g] == Some(ip)) || (exists s :: s in db.servers && db.servers[s] == Some(ip))
  }

  // What is proposed is free. It lies in an active pool of the network that assigns by itself, the one
  // asked for if any; only a scan that was asked for may go beyond the pools, and it avoids every known address.
  lemma ProposalIsFree(db: Db, networkId: nat, poolId: Option<nat>, scan: bool, ip: Ip)
    requires Valid(db) && NextFree(db, networkId, poolId, scan, Some(ip))
    ensures Free(db, networkId, ip)
    ensures (exists p :: Assignable(db, networkId, poolId, ip, p)) || (scan && !Truthy(poolId) && !Known(db, ip))
  {
    var req := Request(ip, networkId, poolId, None, None, None, "allocated", None, "alias");
    NextFreeIsAccepted(db, req);
    AllocationIs(db, req);
    var n :| n in db.networks && n.id == networkId && n.active &&
      ((exists p :: FirstFree(db, n, poolId, p, ip)) ||
       (scan && !Truthy(poolId) && PoolsFull(db, n, poolId) && FirstFreeHost(db, n, ip)));
    if p :| FirstFree(db, n, poolId, p, ip) {
      assert Assignable(db, networkId, poolId, ip, p);
    }
  }

  // The smallest one: nothing below it in its pool is free, nor anything in a pool with a smaller id.
  lemma ProposalIsLeast(db: Db, networkId: nat, poolId: Option<nat>, scan: bool, ip: Ip, p: Pool, other: Ip, q: Pool)
    requires Valid(db) && NextFree(db, networkId, poolId, scan, Some(ip)) && Assignable(db, networkId, poolId, ip, p)
    requires Assignable(db, networkId, poolId, other, q) && (q.id < p.id || (q == p && other < ip))
    ensures !Free(db, networkId, other)
  {
    var n :| n in db.networks && n.id == networkId && n.active &&
      ((exists r :: FirstFree(db, n, poolId, r, ip)) ||
       (scan && !Truthy(poolId) && PoolsFull(db, n, poolId) && FirstFreeHost(db, n, ip)));
    assert Searched(db, n.id, poolId, p) && Searched(db, n.id, poolId, q);
    if r :| FirstFree(db, n, poolId, r, ip) {
      assert Overlap(p.start, p.end, r);
      assert r == p;
    }
    assert Occupied(db, n, other);
  }

  // And when nothing is proposed in an active network, nothing that could be assigned is free.
  lemma NothingIsLeft(db: Db, networkId: nat, poolId: Option<nat>, scan: bool, ip: Ip, p: Pool)
    requires Valid(db) && NextFree(db, networkId, poolId, scan, None)
    requires forall n :: n in db.networks && n.id == networkId ==> n.active
    requires Assignable(db, networkId, poolId, ip, p)
    ensures !Free(db, networkId, ip)
  {
    if n :| n in db.networks && n.id == networkId && n.gateway != Some(ip) {
      assert Searched(db, n.id, poolId, p) && InRange(p, ip);
      assert Occupied(db, n, ip);
    }
  }

  // ---------- networks and pools ----------

  // A range is accepted exactly when it is not inverted, both ends lie in the network, and no address of
  // it is in another pool of the network.
  lemma RangeAcceptedIff(db: Db, n: Network, start: Ip, end: Ip, exclude: Option<nat>)
    requires Valid(db) && n in db.networks && Truthy(exclude) == exclude.Some?
    ensures RangeAccepted(db, n.id, start, end, exclude) <==>
              && start <= end
              && start / Size(n.prefix) == n.address / Size(n.prefix) == end / Size(n.prefix)
              && forall p, x: Ip :: p in db.pools && p.networkId == n.id && Some(p.id) != exclude && start <= x <= end ==> !InRange(p, x)
  {
    assert FindNetwork(db, n.id) == Some(n);
    InNetworkIs(n, start);
    InNetworkIs(n, end);
    if start <= end {
      forall p | p in db.pools && p.networkId == n.id
        ensures Overlap(start, end, p) <==> exists x: Ip :: start <= x <= end && InRange(p, x)
      {
        var first := if start <= p.start then p.start else start;
        if Overlap(start, end, p) {
          assert start <= first <= end && InRange(p, first);
        }
      }
    }
  }

  // A new default network takes the flag from the networks of its workspace, and from no others.
  function Yielding(k: Network, n: Network): Network {
    if n.isDefault && n.workspace.Some? && k.workspace == n.workspace && k.id != n.id then k.(isDefault := false) else k
  }

  ghost predicate DefaultSettled(before: set<Network>, after: set<Network>, n: Network) {
    n in before && n in after && after == set k | k in before :: Yielding(k, n)
  }

  lemma CreatedNetworkIs(db: Db, draft: Network)
    requires forall n :: n in db.networks ==> n.address != draft.address || n.prefix != draft.prefix
    ensures var n := draft.(id := db.nextId); DefaultSettled(db.networks + {n}, CreateNetwork(db, draft).networks, n)
  {
    SettledDefault(db.networks + {draft.(id := db.nextId)}, draft.(id := db.nextId));
  }

  // Fields that were sent have the values sent, and the CIDR is none of them.
  lemma UpdatedNetworkIs(db: Db, n: Network, patch: NetworkPatch) returns (m: Network)
    requires IdsUnique(db) && n in db.networks
    ensures DefaultSettled(db.networks - {n} + {m}, UpdateNetwork(db, n.id, patch).networks, m)
    ensures m.id == n.id && m.address == n.address && m.prefix == n.prefix
    ensures if patch.gateway.Some? then m.gateway == patch.gateway.value else m.gateway == n.gateway
    ensures if patch.active.Some? then m.active == patch.active.value else m.active == n.active
    ensures if patch.workspace.Some? then m.workspace == patch.workspace.value else m.workspace == n.workspace
    ensures if patch.isDefault.Some? then m.isDefault == patch.isDefault.value else m.isDefault == n.isDefault
  {
    assert FindNetwork(db, n.id) == Some(n);
    m := NetworkPatched(n, patch);
    SettledDefault(db.networks - {n} + {m}, m);
  }

  lemma SettledDefault(ns: set<Network>, n: Network)
    requires n in ns
    ensures DefaultSettled(ns, EnforceSingleDefault(ns, n), n)
  {
    assert forall k :: k in ns && n.isDefault && n.workspace.Some? ==> Sibling(k, n) == Yielding(k, n);
    assert Yielding(n, n) == n;
  }

  // Of a pool, likewise; a moved range that is not accepted changes nothing.
  lemma UpdatedPoolIs(db: Db, p: Pool, patch: PoolPatch) returns (q: Pool)
    requires IdsUnique(db) && p in db.pools
    ensures q.id == p.id && q.networkId == p.networkId
    ensures if patch.start.Some? then q.start == patch.start.value else q.start == p.start
    ensures if patch.end.Some? then q.end == patch.end.value else q.end == p.end
    ensures if patch.autoAssign.Some? then q.autoAssign == patch.autoAssign.value else q.autoAssign == p.autoAssign
    ensures if patch.active.Some? then q.active == patch.active.value else q.active == p.active
    ensures UpdatePool(db, p.id, patch) ==
            if (patch.start.Some? || patch.end.Some?) && !RangeAccepted(db, p.networkId, q.start, q.end, Some(p.id)) then db
            else db.(pools := db.pools - {p} + {q})
  {
    assert FindPool(db, p.id) == Some(p);
    q := PoolPatched(p, patch);
  }

  // A deletion goes through exactly for a network without rows, or by force, and takes what belongs to
  // that network and nothing else.
  lemma DeletionIs(db: Db, n: Network, force: bool)
    requires IdsUnique(db) && n in db.networks
    ensures var after := DeleteNetwork(db, n.id, force);
            if force || forall a :: a in db.allocations ==> a.networkId != n.id then
              && after.networks == db.networks - {n}
              && (forall a :: a in after.allocations <==> a in db.allocations && a.networkId != n.id)
              && (forall p :: p in after.pools <==> p in db.pools && p.networkId != n.id)
              && (forall e :: e in after.history <==> e in db.history && e.networkId != n.id)
            else after == db
  {
    assert FindNetwork(db, n.id) == Some(n);
    LogWithout(db.history, n.id);
    assert (set m | m in db.networks && m.id != n.id) == db.networks - {n};
  }

  lemma {:induction false} LogWithout(h: seq<Entry>, gone: nat)
    ensures forall e :: e in WithoutNetwork(h, gone) <==> e in h && e.networkId != gone
  {
    if h != [] {
      LogWithout(h[..|h| - 1], gone);
      assert h == h[..|h| - 1] + [h[|h| - 1]];
    }
  }

  // Deleting a pool takes its tag from the rows and changes nothing else of them.
  lemma PoolDeletionIs(db: Db, p: Pool)
    requires IdsUnique(db) && p in db.pools
    ensures var after := DeletePool(db, p.id);
            && after == db.(pools := db.pools - {p}, allocations := after.allocations)
            && (forall a :: a in after.allocations ==> a.poolId != Some(p.id))
            && (forall a :: a in db.allocations ==> a in after.allocations || (a.poolId == Some(p.id) && a.(poolId := None) in after.allocations))
            && (forall b :: b in after.allocations ==> b in db.allocations || b.(poolId := Some(p.id)) in db.allocations)
  {
    assert FindPool(db, p.id) == Some(p);
    forall a | a in db.allocations ensures Untagged(a, p.id) in DeletePool(db, p.id).allocations {
    }
  }
}
