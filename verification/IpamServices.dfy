/** The address service: the operations as they run, step by step, against their effect on the tables. */
module IpamServices {
  import opened Wrappers
  import opened IpamModel
  import opened SetFacts
  import IpamDiscovery
  import IpamEndpoints
  import IpamLedger
  import IpamSearch

  lemma {:induction false} FirstRow(rows: set<Allocation>)
    requires rows != {}
    requires forall a, b :: a in rows && b in rows && a.id == b.id ==> a == b
    ensures exists a :: a in rows && forall b :: b in rows && a != b ==> Before(a, b)
  {
    var a :| a in rows;
    var rest := rows - {a};
    if rest == {} {
      assert rows == {a};
    } else {
      FirstRow(rest);
      var l :| l in rest && forall b :: b in rest && l != b ==> Before(l, b);
      var first := if Before(a, l) then a else l;
      forall b | b in rows && first != b ensures Before(first, b) {
        assert b == a || b in rest;
      }
    }
  }

  lemma ListsExtend(order: seq<Allocation>, done: set<Allocation>, a: Allocation)
    requires Lists(order, done) && a !in done
    ensures Lists(order + [a], done + {a})
  {
  }

  lemma {:induction false} ListsCount(order: seq<Allocation>, rows: set<Allocation>)
    requires Lists(order, rows)
    ensures |order| == |rows|
  {
    if order == [] {
      assert rows == {};
    } else {
      var front, last := order[..|order| - 1], order[|order| - 1];
      assert forall a :: a in rows - {last} ==> a in front;
      ListsCount(front, rows - {last});
    }
  }

  // `now` is `before` with the rows in `done` released in that order.
  ghost predicate ReleasedRows(before: Db, now: Db, order: seq<Allocation>, done: set<Allocation>) {
    Lists(order, done) && now == ReleaseEach(before, order) && now.allocations == before.allocations - done
  }

  lemma ReleasedExtend(before: Db, now: Db, order: seq<Allocation>, done: set<Allocation>, a: Allocation)
    requires ReleasedRows(before, now, order, done) && a !in done
    ensures ReleasedRows(before, ReleaseRow(now, a), order + [a], done + {a})
  {
  }

  ghost predicate InOrder(rows: seq<Allocation>) {
    forall i, j :: 0 <= i < j < |rows| ==> Before(rows[i], rows[j])
  }

  ghost predicate AllBefore(rows: seq<Allocation>, todo: set<Allocation>) {
    forall i, b :: 0 <= i < |rows| && b in todo ==> Before(rows[i], b)
  }

  lemma InOrderExtend(rows: seq<Allocation>, todo: set<Allocation>, a: Allocation)
    requires InOrder(rows) && AllBefore(rows, todo)
    requires a in todo && forall b :: b in todo && a != b ==> Before(a, b)
    ensures InOrder(rows + [a]) && AllBefore(rows + [a], todo - {a})
  {
  }

  // The rows with the primary one first, then by id.
  method Sorted(rows: set<Allocation>) returns (sorted: seq<Allocation>)
    requires forall a, b :: a in rows && b in rows && a.id == b.id ==> a == b
    ensures Lists(sorted, rows)
    ensures InOrder(sorted)
  {
    var todo := rows;
    sorted := [];
    while todo != {}
      invariant todo <= rows && Lists(sorted, rows - todo)
      invariant InOrder(sorted) && AllBefore(sorted, todo)
      decreases todo
    {
      FirstRow(todo);
      var a :| a in todo && forall b :: b in todo && a != b ==> Before(a, b);
      ListsExtend(sorted, rows - todo, a);
      InOrderExtend(sorted, todo, a);
      assert rows - (todo - {a}) == rows - todo + {a};
      todo, sorted := todo - {a}, sorted + [a];
    }
    assert rows - todo == rows;
  }

  class IpamService {
    var db: Db

    constructor ()
      ensures db == EMPTY
    {
      db := EMPTY;
    }

    // ---------- finding and allocating ----------

    method GetNextAvailableIp(networkId: nat, poolId: Option<nat>, scan: bool) returns (found: Option<Ip>)
      requires IdsUnique(db)
      ensures NextFree(db, networkId, poolId, scan, found)
    {
      if network :| network in db.networks && network.id == networkId && network.active {
        var pools := set p | p in db.pools && p.networkId == networkId && p.active && p.autoAssign &&
                             (Truthy(poolId) ==> p.id == poolId.value);
        if pools == {} && !scan {
          assert forall p :: Searched(db, networkId, poolId, p) ==> p in pools;
          return None;
        }
        var occupied := set a | a in db.allocations :: a.ip;
        if network.gateway.Some? {
          occupied := occupied + {network.gateway.value};
        }
        assert forall ip: Ip :: ip in occupied <==> Occupied(db, network, ip);
        found := SearchPools(network, poolId, pools, occupied);
        if found.None? && scan && !Truthy(poolId) {
          found := ScanNetwork(network, occupied);
        }
      } else {
        found := None;
      }
    }

    method SearchPools(network: Network, poolId: Option<nat>, pools: set<Pool>, occupied: set<Ip>) returns (found: Option<Ip>)
      requires forall p :: p in pools <==> Searched(db, network.id, poolId, p)
      requires forall ip: Ip :: ip in occupied <==> Occupied(db, network, ip)
      ensures found.Some? ==> exists p :: FirstFree(db, network, poolId, p, found.value)
      ensures found.None? ==> PoolsFull(db, network, poolId)
    {
      var todo := pools;
      while todo != {}
        invariant todo <= pools
        invariant forall p :: p in pools && p !in todo ==> PoolFull(db, network, p)
        decreases todo
      {
        IpamSearch.LowestPool(todo);
        var pool :| pool in todo && forall q :: q in todo ==> pool.id <= q.id;
        var ip := pool.start as int;
        while ip <= pool.end
          invariant pool.start <= ip
          invariant forall x: Ip :: pool.start <= x < ip && x <= pool.end ==> x in occupied
        {
          if ip !in occupied {
            assert FirstFree(db, network, poolId, pool, ip);
            return Some(ip);
          }
          ip := ip + 1;
        }
        todo := todo - {pool};
      }
      found := None;
    }

    method ScanNetwork(network: Network, occupied: set<Ip>) returns (found: Option<Ip>)
      requires forall ip: Ip :: ip in occupied <==> Occupied(db, network, ip)
      ensures found.Some? ==> FirstFreeHost(db, network, found.value)
      ensures found.None? ==> NoFreeHost(db, network)
    {
      IpamSearch.NetworkBounds(network);
      var ip := HostsFrom(network);
      while ip < HostsTo(network)
        invariant HostsFrom(network) <= ip
        invariant forall x: Ip :: HostsFrom(network) <= x < ip && x < HostsTo(network) ==>
                    Occupied(db, network, x) || KnownElsewhere(db, x)
      {
        if ip !in occupied &&
           (forall g :: g in db.guests ==> db.guests[g] != Some(ip)) &&
           (forall s :: s in db.servers ==> db.servers[s] != Some(ip))
        {
          return Some(ip);
        }
        ip := ip + 1;
      }
      found := None;
    }

    method AllocateIp(req: Request) returns (r: Result<Allocation, IpamError>)
      requires IdsUnique(db) && PoolsDisjoint(db)
      modifies this
      ensures db == Allocate(old(db), req)
      ensures r == match Refusal(old(db), req)
                   case Some(e) => Failure(e)
                   case None => Success(NewRow(old(db), req))
    {
      if a :| a in db.allocations && a.ip == req.ip {
        return Failure(AlreadyAllocated);
      }
      if n :| n in db.networks && n.id == req.networkId {
        assert FindNetwork(db, req.networkId) == Some(n);
        if !InNetwork(n, req.ip) {
          return Failure(OutsideNetwork);
        }
        if n.gateway == Some(req.ip) {
          return Failure(IsGateway);
        }
      } else {
        return Failure(NetworkNotFound);
      }
      assert Refusal(db, req) == None;

      var poolId := req.poolId;
      if !Truthy(poolId) {
        var todo := set p | p in db.pools && p.networkId == req.networkId && p.active;
        while todo != {}
          invariant poolId == req.poolId
          invariant forall p :: Taggable(db, req.networkId, req.ip, p) ==> p in todo
          invariant forall p :: p in todo ==> p in db.pools && p.networkId == req.networkId && p.active
          decreases todo
        {
          var pool :| pool in todo;
          if pool.start <= req.ip <= pool.end {
            IpamSearch.PoolForIs(db, req.networkId, req.ip, pool);
            poolId := Some(pool.id);
            break;
          }
          todo := todo - {pool};
        }
      }
      assert NewRow(db, req).poolId == poolId;

      var primary := false;
      if req.primary.Some? {
        primary := req.primary.value;
      } else {
        primary := req.kind == "primary" && req.vmid.Some? &&
                   !(exists a :: a in db.allocations && HeldBy(a, req.server, req.vmid) && a.primary);
      }
      var row := Allocation(db.nextId, req.networkId, poolId, req.ip, req.resourceId, req.server, req.vmid,
                            req.status, primary, req.kind);
      assert row == NewRow(db, req);
      db := db.(allocations := db.allocations + {row},
                history := db.history + [Entry(req.ip, req.networkId, Allocated)],
                nextId := db.nextId + 1);
      r := Success(row);
    }

    // `req.ip` and `req.primary` are not part of the caller's request; both are overwritten.
    method AutoAllocateIp(req: Request) returns (r: Result<Allocation, IpamError>)
      requires Valid(db)
      modifies this
      ensures r.Failure? ==> db == old(db) && r.error == NothingAvailable &&
                             NextFree(db, req.networkId, req.poolId, false, None)
      ensures r.Success? ==>
                && NextFree(old(db), req.networkId, req.poolId, false, Some(r.value.ip))
                && (exists p :: p in old(db).pools && InRange(p, r.value.ip) && r.value.poolId == Some(p.id))
                && db == Allocate(old(db), req.(ip := r.value.ip, primary := None))
                && r.value in db.allocations
    {
      var found := GetNextAvailableIp(req.networkId, req.poolId, false);
      if found.None? {
        return Failure(NothingAvailable);
      }
      var full := req.(ip := found.value, primary := None);
      ghost var n, p :| n in db.networks && n.id == req.networkId && FirstFree(db, n, req.poolId, p, found.value);
      IpamSearch.FirstFreeIsAccepted(db, n, p, full);
      r := AllocateIp(full);
    }

    // ---------- releasing ----------

    method ReleaseIp(ip: Ip) returns (r: Result<Allocation, IpamError>)
      requires AddressesUnique(db)
      modifies this
      ensures db == Release(old(db), ip)
      ensures r == match FindRow(old(db), ip)
                   case Some(a) => Success(a)
                   case None => Failure(NotAllocated)
    {
      if a :| a in db.allocations && a.ip == ip {
        IpamLedger.FoundRow(db, a);
        db := db.(history := db.history + [Entry(ip, a.networkId, Released)]);
        db := db.(allocations := db.allocations - {a});
        r := Success(a);
      } else {
        r := Failure(NotAllocated);
      }
    }

    // Releases the rows of a query result one by one, in whatever order they come.
    method ReleaseRows(rows: set<Allocation>) returns (count: nat, ghost order: seq<Allocation>)
      requires AddressesUnique(db) && rows <= db.allocations
      modifies this
      ensures ReleasedRows(old(db), db, order, rows) && count == |rows|
    {
      var todo := rows;
      count, order := 0, [];
      while todo != {}
        invariant todo <= rows && count == |order|
        invariant ReleasedRows(old(db), db, order, rows - todo)
        decreases todo
      {
        var a :| a in todo;
        IpamLedger.FoundRow(db, a);
        ReleasedExtend(old(db), db, order, rows - todo, a);
        var r := ReleaseIp(a.ip);
        assert rows - (todo - {a}) == rows - todo + {a};
        todo, order, count := todo - {a}, order + [a], count + 1;
      }
      assert rows - todo == rows;
      ListsCount(order, rows);
    }

    // Every active address of the guest; failing that, rows of the time before servers were recorded.
    method ReleaseIpByVmid(g: Guest) returns (count: nat, ghost order: seq<Allocation>)
      requires AddressesUnique(db)
      modifies this
      ensures ReleasedRows(old(db), db, order, ReleasedWith(old(db), g)) && count == |ReleasedWith(old(db), g)|
    {
      var rows := set a | a in db.allocations && HeldBy(a, Some(g.server), Some(g.vmid)) && Active(a);
      if rows == {} {
        rows := set a | a in db.allocations && a.resourceId == Some(g.vmid) && a.server == None && Active(a);
      }
      count, order := ReleaseRows(rows);
    }

    method ReleaseAllByServer(server: nat) returns (count: nat, ghost order: seq<Allocation>)
      modifies this
      ensures ReleasedRows(old(db), db, order, ActiveOnServer(old(db), server)) && count == |ActiveOnServer(old(db), server)|
    {
      count, order := DeleteRows(set a | a in db.allocations && a.server == Some(server) && Active(a));
    }

    method DeleteRow(a: Allocation)
      modifies this
      ensures db == ReleaseRow(old(db), a)
    {
      db := db.(history := db.history + [Entry(a.ip, a.networkId, Released)]);
      db := db.(allocations := db.allocations - {a});
    }

    method DeleteRows(rows: set<Allocation>) returns (count: nat, ghost order: seq<Allocation>)
      requires rows <= db.allocations
      modifies this
      ensures ReleasedRows(old(db), db, order, rows) && count == |rows|
    {
      var todo := rows;
      count, order := 0, [];
      while todo != {}
        invariant todo <= rows && count == |order|
        invariant ReleasedRows(old(db), db, order, rows - todo)
        decreases todo
      {
        var a :| a in todo;
        ReleasedExtend(old(db), db, order, rows - todo, a);
        DeleteRow(a);
        assert rows - (todo - {a}) == rows - todo + {a};
        todo, order, count := todo - {a}, order + [a], count + 1;
      }
      assert rows - todo == rows;
      ListsCount(order, rows);
    }

    // ---------- changing rows ----------

    method UpdateAllocation(ip: Ip, patch: Patch) returns (r: Result<Allocation, IpamError>)
      requires AddressesUnique(db)
      modifies this
      ensures db == Update(old(db), ip, patch)
      ensures r == match FindRow(old(db), ip)
                   case Some(a) => Success(Patched(a, patch))
                   case None => Failure(NotAllocated)
    {
      if a :| a in db.allocations && a.ip == ip {
        IpamLedger.FoundRow(db, a);
        var b := Patched(a, patch);
        if b != a || patch.others {
          db := db.(allocations := db.allocations - {a} + {b}, history := db.history + [Entry(ip, a.networkId, Modified)]);
        }
        r := Success(b);
      } else {
        r := Failure(NotAllocated);
      }
    }

    method FindAllocationsByResource(g: Guest) returns (rows: seq<Allocation>)
      requires IdsUnique(db)
      ensures Lists(rows, ActiveOf(db, g))
      ensures InOrder(rows)
    {
      rows := Sorted(set a | a in db.allocations && HeldBy(a, Some(g.server), Some(g.vmid)) && Active(a));
    }

    // Raises the flag on the row with the id and lowers it on the guest's other rows.
    method MarkRows(rows: set<Allocation>, g: Guest, id: nat)
      requires OneRowPerId(db.allocations)
      requires rows == set a | a in db.allocations && HeldBy(a, Some(g.server), Some(g.vmid))
      modifies this
      ensures db == old(db).(allocations := (set a | a in old(db).allocations :: Marked(a, g, id)))
    {
      var todo := rows;
      MarkedNone(db.allocations, rows, g, id);
      while todo != {}
        invariant todo <= rows
        invariant db == old(db).(allocations := MarkedBut(old(db).allocations, todo, g, id))
        decreases todo
      {
        var row := SetFacts.Pick(todo);
        RowMarked(old(db).allocations, todo, g, id, row);
        db := db.(allocations := db.allocations - {row} + {row.(primary := row.id == id)});
        todo := todo - {row};
      }
      MarkedAll(old(db).allocations, g, id);
    }

    method SetPrimaryAddress(g: Guest, id: nat) returns (r: Result<Allocation, IpamError>)
      requires IdsUnique(db)
      modifies this
      ensures db == SetPrimary(old(db), g, id)
      ensures r.Success? <==> exists a :: IsTarget(old(db), g, id, a)
      ensures r.Success? ==> IsTarget(db, g, id, r.value) && r.value.primary
      ensures r.Failure? ==> r.error == NotThisGuest
    {
      var rows := set a | a in db.allocations && HeldBy(a, Some(g.server), Some(g.vmid));
      if target :| target in rows && target.id == id {
        assert IsTarget(db, g, id, target);
        IpamLedger.SetPrimaryIs(db, g, id, target);
        MarkRows(rows, g, id);
        db := db.(history := db.history + [Entry(target.ip, target.networkId, Modified)]);
        r := Success(Marked(target, g, id));
      } else {
        r := Failure(NotThisGuest);
      }
    }

    // ---------- discovery ----------

    method SyncFromProxmoxVm(networkId: nat, g: Guest, ip: Ip, kind: string) returns (r: Result<Allocation, IpamError>)
      requires IdsUnique(db) && PoolsDisjoint(db) && AddressesUnique(db)
      modifies this
      ensures db == Sync(old(db), networkId, g, ip, kind)
      ensures r.Success? ==> r.value in db.allocations && r.value.ip == ip && HeldBy(r.value, Some(g.server), Some(g.vmid))
      ensures r.Failure? <==> IpamDiscovery.SyncRefused(old(db), g, IpamDiscovery.Found(ip, networkId))
      ensures r.Failure? ==> db == old(db)
    {
      if a :| a in db.allocations && a.ip == ip {
        IpamLedger.FoundRow(db, a);
        var belongsToOther := a.vmid.Some? && !HeldBy(a, Some(g.server), Some(g.vmid));
        if belongsToOther && GuestExists(db, a.server, a.vmid) {
          return Failure(DuplicateAddress);
        }
        if a.vmid != Some(g.vmid) || a.server != Some(g.server) {
          r := UpdateAllocation(ip, Rebinding(g));
        } else {
          r := Success(a);
        }
      } else {
        var has := exists a :: a in db.allocations && HeldBy(a, Some(g.server), Some(g.vmid)) && a.primary;
        r := AllocateIp(Request(ip, networkId, None, None, Some(g.server), Some(g.vmid), "allocated", Some(!has),
                                if has then kind else "primary"));
      }
    }

    // The addresses found on one guest, those it already holds being passed over.
    method LinkGuest(g: Guest, found: seq<IpamDiscovery.Found>) returns (linked: seq<Ip>)
      requires Valid(db) && g in db.guests
      modifies this
      ensures Valid(db)
      ensures db == IpamDiscovery.LinkEach(IpamDiscovery.Start(old(db), g), g, found).db
      ensures forall ip :: ip in linked ==> IpamDiscovery.BoundTo(db, ip, g)
    {
      var rows := FindAllocationsByResource(g);
      var already := set a | a in rows :: a.ip;
      ghost var start := IpamDiscovery.Start(db, g);
      assert already == start.linked by {
        assert forall a :: a in ActiveOf(db, g) <==> a in rows;
      }
      IpamDiscovery.StartIsSound(db, g);
      linked := [];
      for i := 0 to |found|
        invariant IpamDiscovery.LinkEach(start, g, found[..i]) == IpamDiscovery.Progress(db, already)
        invariant IpamDiscovery.Sound(IpamDiscovery.Progress(db, already), g)
        invariant forall ip :: ip in linked ==> ip in already
      {
        assert found[..i + 1][..i] == found[..i];
        IpamDiscovery.LinkOneSettles(IpamDiscovery.Progress(db, already), g, found[i]);
        var now := LinkFound(g, found[i], already);
        if now != already {
          linked := linked + [found[i].ip];
        }
        already := now;
      }
      assert found[..|found|] == found;
    }

    method LinkFound(g: Guest, f: IpamDiscovery.Found, already: set<Ip>) returns (linked: set<Ip>)
      requires IdsUnique(db) && PoolsDisjoint(db) && AddressesUnique(db) && g in db.guests
      modifies this
      ensures IpamDiscovery.Progress(db, linked) == IpamDiscovery.LinkOne(IpamDiscovery.Progress(old(db), already), g, f)
    {
      linked := already;
      if f.ip in already {
        return;
      }
      var r := SyncFromProxmoxVm(f.networkId, g, f.ip, "alias");
      if r.Success? {
        linked := already + {f.ip};
        if r.value.primary {
          db := db.(guests := db.guests[g := Some(f.ip)]);
        }
      }
    }

    // ---------- addresses of one guest ----------

    method RefreshPrimaryCache(g: Guest)
      requires IdsUnique(db) && g in db.guests
      modifies this
      ensures db == Refreshed(old(db), g)
    {
      var rows := FindAllocationsByResource(g);
      if rows != [] {
        IpamEndpoints.RefreshedIs(db, g, rows[0]);
        db := db.(guests := db.guests[g := Some(rows[0].ip)]);
      } else {
        assert forall a :: a in ActiveOf(db, g) ==> a in rows;
      }
    }

    method SetGuestPrimaryAddress(g: Guest, id: nat) returns (r: Result<Allocation, IpamError>)
      requires Valid(db) && g in db.guests
      modifies this
      ensures Valid(db) && db.guests.Keys == old(db).guests.Keys
      ensures r.Success? <==> exists a :: IsTarget(old(db), g, id, a)
      ensures r.Failure? ==> db == old(db)
      ensures r.Success? ==> db == IpamLedger.After(old(db), IpamEndpoints.PrimarySteps(old(db), g, id))
      ensures r.Success? ==> IsTarget(db, g, id, r.value) && r.value.primary
      ensures r.Success? && Active(r.value) ==> db.guests[g] == Some(r.value.ip)
    {
      IpamEndpoints.PrimaryEffect(db, g, id);
      r := SetPrimaryAddress(g, id);
      if r.Success? {
        IpamEndpoints.PrimaryIsCached(old(db), g, id, r.value);
        RefreshPrimaryCache(g);
      }
    }

    method ProposeAddress(networkId: nat, poolId: Option<nat>, given: Option<Ip>) returns (wanted: Option<Ip>)
      requires IdsUnique(db)
      ensures given.Some? ==> wanted == given
      ensures given.None? ==> NextFree(db, networkId, poolId, true, wanted)
    {
      wanted := given;
      if wanted.None? {
        wanted := GetNextAvailableIp(networkId, poolId, true);
      }
    }

    method PlaceAddress(g: Guest, req: Request, makePrimary: bool) returns (r: Result<Allocation, IpamError>)
      requires Valid(db) && g in db.guests && req.server == Some(g.server) && req.vmid == Some(g.vmid)
      modifies this
      ensures Valid(db) && db.guests.Keys == old(db).guests.Keys
      ensures r.Failure? <==> Refusal(old(db), req).Some?
      ensures r.Failure? ==> db == old(db)
      ensures r.Success? ==> r.value == NewRow(old(db), req)
      ensures r.Success? ==> db == IpamLedger.After(old(db), IpamEndpoints.AddSteps(old(db), g, req, makePrimary))
      ensures r.Success? && makePrimary && Active(r.value) ==> db.guests[g] == Some(req.ip)
    {
      IpamEndpoints.AddEffect(db, g, req, makePrimary);
      r := AllocateIp(req);
      if r.Success? {
        IpamEndpoints.PlacedIsTarget(old(db), g, req);
        if makePrimary {
          var marked := SetPrimaryAddress(g, r.value.id);
          IpamEndpoints.PlacedIsCached(old(db), g, req);
        }
        RefreshPrimaryCache(g);
      }
    }

    // An extra address, given or searched for, that becomes the primary one on request.
    method AddGuestAddress(g: Guest, networkId: nat, poolId: Option<nat>, ip: Option<Ip>, makePrimary: bool)
      returns (r: Result<Allocation, IpamError>)
      requires Valid(db) && g in db.guests
      modifies this
      ensures Valid(db) && db.guests.Keys == old(db).guests.Keys
      ensures r.Failure? ==> db == old(db)
      ensures r.Success? ==>
                var req := IpamEndpoints.AliasRequest(g, networkId, poolId, r.value.ip);
                && r.value == NewRow(old(db), req) && Refusal(old(db), req).None?
                && db == IpamLedger.After(old(db), IpamEndpoints.AddSteps(old(db), g, req, makePrimary))
      ensures r.Success? && makePrimary ==> db.guests[g] == Some(r.value.ip)
      ensures r.Success? && ip.Some? ==> r.value.ip == ip.value
      ensures r.Success? && ip.None? ==> NextFree(old(db), networkId, poolId, true, Some(r.value.ip))
      ensures ip.Some? ==> (r.Failure? <==> Refusal(old(db), IpamEndpoints.AliasRequest(g, networkId, poolId, ip.value)).Some?)
      // A search fails only when nothing is free: its proposal is never refused.
      ensures r.Failure? && ip.None? ==> NextFree(old(db), networkId, poolId, true, None)
    {
      if !exists n :: n in db.networks && n.id == networkId {
        return Failure(NetworkNotFound);
      }
      var wanted := ProposeAddress(networkId, poolId, ip);
      if wanted.None? {
        return Failure(NothingAvailable);
      }
      var req := IpamEndpoints.AliasRequest(g, networkId, poolId, wanted.value);
      if ip.None? {
        IpamSearch.NextFreeIsAccepted(db, req);
      }
      r := PlaceAddress(g, req, makePrimary);
    }

    // Only aliases can be taken off; the primary address comes from the guest's NIC configuration.
    method RemoveGuestAddress(g: Guest, id: nat) returns (r: Result<Ip, IpamError>)
      requires Valid(db) && g in db.guests
      modifies this
      ensures Valid(db) && db.guests.Keys == old(db).guests.Keys
      ensures r.Success? <==> exists a :: IsTarget(old(db), g, id, a) && a.kind == "alias"
      ensures r.Success? ==> exists a :: IsTarget(old(db), g, id, a) && a.ip == r.value
      ensures r.Success? ==> db == IpamLedger.After(old(db), IpamEndpoints.RemoveSteps(old(db), g, r.value))
      ensures r.Failure? ==> db == old(db)
    {
      if a :| a in db.allocations && a.id == id && HeldBy(a, Some(g.server), Some(g.vmid)) {
        assert IsTarget(db, g, id, a);
        if a.kind != "alias" {
          return Failure(NotThisGuest);
        }
        IpamEndpoints.RemoveEffect(db, g, a.ip);
        var released := ReleaseIp(a.ip);
        RefreshPrimaryCache(g);
        r := Success(a.ip);
      } else {
        r := Failure(NotThisGuest);
      }
    }

    // ---------- maintenance ----------

    method GetOrphanAllocations() returns (orphans: set<Allocation>)
      ensures orphans == Orphans(db)
    {
      var guestGone := WithoutGuest(set a | a in db.allocations && a.vmid.Some? && a.server.Some? && Active(a));
      var serverGone := WithoutServer((set a | a in db.allocations && a.server.Some? && Active(a)), guestGone);
      orphans := guestGone + serverGone;
    }

    method WithoutGuest(rows: set<Allocation>) returns (orphans: set<Allocation>)
      ensures orphans == set a | a in rows && !GuestExists(db, a.server, a.vmid)
    {
      orphans := {};
      var todo := rows;
      while todo != {}
        invariant todo <= rows
        invariant orphans == set a | a in rows - todo && !GuestExists(db, a.server, a.vmid)
        decreases todo
      {
        var a :| a in todo;
        if !GuestExists(db, a.server, a.vmid) {
          orphans := orphans + {a};
        }
        todo := todo - {a};
      }
      assert rows - todo == rows;
    }

    method WithoutServer(rows: set<Allocation>, known: set<Allocation>) returns (orphans: set<Allocation>)
      requires forall a :: a in rows ==> a.server.Some?
      ensures orphans == set a | a in rows && a.server.value !in db.servers && a !in known
    {
      orphans := {};
      var todo := rows;
      while todo != {}
        invariant todo <= rows
        invariant orphans == set a | a in rows - todo && a.server.value !in db.servers && a !in known
        decreases todo
      {
        var a :| a in todo;
        if a.server.value !in db.servers && a !in known {
          orphans := orphans + {a};
        }
        todo := todo - {a};
      }
      assert rows - todo == rows;
    }

    method CleanupOrphanAllocations() returns (count: nat, ghost order: seq<Allocation>)
      requires AddressesUnique(db)
      modifies this
      ensures ReleasedRows(old(db), db, order, Orphans(old(db))) && count == |Orphans(old(db))|
      ensures Orphans(db) == {}
    {
      var orphans := GetOrphanAllocations();
      count, order := ReleaseRows(orphans);
      IpamLedger.ReleaseEachEffect(old(db), order);
    }

    // Of one network when an id other than 0 is given.
    method DetectConflicts(networkId: Option<nat>) returns (conflicts: map<Ip, set<Allocation>>)
      ensures var rows := RowsOf(db, networkId);
              && (forall ip: Ip :: ip in conflicts <==> exists a, b :: a in rows && b in rows && a != b && a.ip == ip && b.ip == ip)
              && (forall ip :: ip in conflicts ==> conflicts[ip] == set a | a in rows && a.ip == ip)
      ensures AddressesUnique(db) ==> conflicts == map[]
    {
      var rows := RowsOf(db, networkId);
      var groups := GroupByIp(rows);
      conflicts := map ip | ip in groups && |groups[ip]| > 1 :: groups[ip];
      forall ip: Ip
        ensures ip in conflicts <==> exists a, b :: a in rows && b in rows && a != b && a.ip == ip && b.ip == ip
      {
        TwoRows(rows, ip);
      }
    }

    // ---------- pools ----------

    method ValidatePoolRange(networkId: nat, start: Ip, end: Ip, exclude: Option<nat>) returns (r: Result<(), IpamError>)
      requires IdsUnique(db)
      ensures r.Success? <==> RangeAccepted(db, networkId, start, end, exclude)
    {
      if n :| n in db.networks && n.id == networkId {
        assert FindNetwork(db, networkId) == Some(n);
        if !InNetwork(n, start) || !InNetwork(n, end) {
          return Failure(OutsideNetwork);
        }
        if start > end {
          return Failure(InvertedRange);
        }
        var todo := set p | p in db.pools && p.networkId == networkId && (Truthy(exclude) ==> p.id != exclude.value);
        ghost var existing := todo;
        while todo != {}
          invariant todo <= existing
          invariant forall p :: p in existing && p !in todo ==> !Overlap(start, end, p)
          decreases todo
        {
          var pool :| pool in todo;
          if !(end < pool.start || start > pool.end) {
            assert Overlap(start, end, pool);
            return Failure(PoolOverlap);
          }
          todo := todo - {pool};
        }
        r := Success(());
      } else {
        r := Failure(NetworkNotFound);
      }
    }

    method AddPool(draft: Pool) returns (r: Result<Pool, IpamError>)
      requires IdsUnique(db)
      modifies this
      ensures db == CreatePool(old(db), draft)
      ensures r.Success? <==> RangeAccepted(old(db), draft.networkId, draft.start, draft.end, None)
      ensures r.Success? ==> r.value in db.pools && r.value == draft.(id := old(db).nextId)
    {
      if !exists n :: n in db.networks && n.id == draft.networkId {
        return Failure(NetworkNotFound);
      }
      var valid := ValidatePoolRange(draft.networkId, draft.start, draft.end, None);
      if valid.Failure? {
        return Failure(valid.error);
      }
      var pool := draft.(id := db.nextId);
      db := db.(pools := db.pools + {pool}, nextId := db.nextId + 1);
      r := Success(pool);
    }

    method ChangePool(id: nat, patch: PoolPatch) returns (r: Result<Pool, IpamError>)
      requires IdsUnique(db)
      modifies this
      ensures db == UpdatePool(old(db), id, patch)
      ensures r.Success? ==> r.value in db.pools && FindPool(old(db), id).Some? && r.value == PoolPatched(FindPool(old(db), id).value, patch)
      ensures r.Failure? ==> db == old(db)
    {
      if pool :| pool in db.pools && pool.id == id {
        assert FindPool(db, id) == Some(pool);
        var changed := PoolPatched(pool, patch);
        if patch.start.Some? || patch.end.Some? {
          var valid := ValidatePoolRange(pool.networkId, changed.start, changed.end, Some(id));
          if valid.Failure? {
            return Failure(valid.error);
          }
        }
        db := db.(pools := db.pools - {pool} + {changed});
        r := Success(changed);
      } else {
        r := Failure(PoolNotFound);
      }
    }

    method RemovePool(id: nat) returns (r: Result<Pool, IpamError>)
      requires IdsUnique(db)
      modifies this
      ensures db == DeletePool(old(db), id)
      ensures r.Success? ==> forall a :: a in db.allocations ==> a.poolId != Some(id)
    {
      if pool :| pool in db.pools && pool.id == id {
        assert FindPool(db, id) == Some(pool);
        db := db.(allocations := (set a | a in db.allocations :: Untagged(a, id)));
        db := db.(pools := db.pools - {pool});
        r := Success(pool);
      } else {
        r := Failure(PoolNotFound);
      }
    }

    // ---------- networks ----------

    method EnforceDefault(network: Network)
      requires network in db.networks
      modifies this
      ensures db == old(db).(networks := EnforceSingleDefault(old(db).networks, network))
    {
      if !network.isDefault || network.workspace.None? {
        return;
      }
      db := db.(networks := (set m | m in db.networks :: Sibling(m, network)));
    }

    method AddNetwork(draft: Network) returns (r: Result<Network, IpamError>)
      modifies this
      ensures db == CreateNetwork(old(db), draft)
      ensures r.Success? <==> forall n :: n in old(db).networks ==> n.address != draft.address || n.prefix != draft.prefix
      ensures r.Success? ==> r.value == draft.(id := old(db).nextId) && r.value in db.networks
      ensures r.Failure? ==> db == old(db) && r.error == NetworkInUse
    {
      if exists n :: n in db.networks && n.address == draft.address && n.prefix == draft.prefix {
        return Failure(NetworkInUse);
      }
      var network := draft.(id := db.nextId);
      db := db.(networks := db.networks + {network}, nextId := db.nextId + 1);
      EnforceDefault(network);
      r := Success(network);
    }

    method ChangeNetwork(id: nat, patch: NetworkPatch) returns (r: Result<Network, IpamError>)
      requires IdsUnique(db)
      modifies this
      ensures db == UpdateNetwork(old(db), id, patch)
      ensures r.Failure? ==> db == old(db)
      ensures r.Success? ==> exists n :: n in old(db).networks && n.id == id && r.value == NetworkPatched(n, patch)
    {
      if network :| network in db.networks && network.id == id {
        assert FindNetwork(db, id) == Some(network);
        var changed := NetworkPatched(network, patch);
        db := db.(networks := db.networks - {network} + {changed});
        EnforceDefault(changed);
        r := Success(changed);
      } else {
        r := Failure(NetworkNotFound);
      }
    }

    method RemoveNetwork(id: nat, force: bool) returns (r: Result<Network, IpamError>)
      requires IdsUnique(db)
      modifies this
      ensures db == DeleteNetwork(old(db), id, force)
      ensures r.Failure? ==> db == old(db)
      ensures r.Success? ==> forall ip: Ip :: !Live(db, ip, id) && Replay(db.history, ip, id) == 0
    {
      if n :| n in db.networks && n.id == id {
        assert FindNetwork(db, id) == Some(n);
        var inside := set a | a in db.allocations && a.networkId == id;
        if |inside| > 0 && !force {
          ghost var some :| some in inside;
          assert some in db.allocations && some.networkId == id;
          return Failure(NetworkInUse);
        }
        assert force || forall a :: a in db.allocations ==> a !in inside;
        var kept: seq<Entry> := [];
        for i := 0 to |db.history|
          invariant db == old(db) && kept == WithoutNetwork(db.history[..i], id)
        {
          assert db.history[..i + 1][..i] == db.history[..i];
          if db.history[i].networkId != id {
            kept := kept + [db.history[i]];
          }
        }
        assert db.history[..|db.history|] == db.history;
        db := db.(allocations := (set a | a in db.allocations && a.networkId != id));
        db := db.(pools := (set p | p in db.pools && p.networkId != id));
        db := db.(history := kept);
        db := db.(networks := db.networks - {n});
        assert db.networks == set m | m in old(db).networks && m.id != id;
        forall ip: Ip ensures !Live(db, ip, id) && Replay(db.history, ip, id) == 0 {
          IpamLedger.ReplayWithout(old(db).history, id, ip, id);
        }
        r := Success(n);
      } else {
        r := Failure(NetworkNotFound);
      }
    }
  }

  // The rows of `table` with those outside `todo` marked.
  ghost function MarkedBut(table: set<Allocation>, todo: set<Allocation>, g: Guest, id: nat): set<Allocation> {
    set a | a in table :: if a in todo then a else Marked(a, g, id)
  }

  lemma MarkedAll(table: set<Allocation>, g: Guest, id: nat)
    ensures MarkedBut(table, {}, g, id) == set a | a in table :: Marked(a, g, id)
  {
  }

  lemma MarkedNone(table: set<Allocation>, todo: set<Allocation>, g: Guest, id: nat)
    requires forall a :: a in table && HeldBy(a, Some(g.server), Some(g.vmid)) ==> a in todo
    ensures MarkedBut(table, todo, g, id) == table
  {
  }

  ghost predicate OneRowPerId(table: set<Allocation>) {
    forall a, b :: a in table && b in table && a.id == b.id ==> a == b
  }

  lemma RowMarked(table: set<Allocation>, todo: set<Allocation>, g: Guest, id: nat, row: Allocation)
    requires row in todo && todo <= table && HeldBy(row, Some(g.server), Some(g.vmid))
    requires OneRowPerId(table)
    ensures MarkedBut(table, todo, g, id) - {row} + {row.(primary := row.id == id)} == MarkedBut(table, todo - {row}, g, id)
  {
  }

  function RowsOf(db: Db, networkId: Option<nat>): set<Allocation> {
    if Truthy(networkId) then set a | a in db.allocations && a.networkId == networkId.value else db.allocations
  }

  method GroupByIp(rows: set<Allocation>) returns (groups: map<Ip, set<Allocation>>)
    ensures forall ip: Ip :: ip in groups <==> exists a :: a in rows && a.ip == ip
    ensures forall ip :: ip in groups ==> groups[ip] == set a | a in rows && a.ip == ip
  {
    groups := map[];
    var todo := rows;
    while todo != {}
      invariant todo <= rows
      invariant forall ip: Ip :: ip in groups <==> exists a :: a in rows - todo && a.ip == ip
      invariant forall ip :: ip in groups ==> groups[ip] == set a | a in rows - todo && a.ip == ip
      decreases todo
    {
      var a :| a in todo;
      groups := groups[a.ip := (if a.ip in groups then groups[a.ip] else {}) + {a}];
      todo := todo - {a};
    }
    assert rows - todo == rows;
  }

  lemma TwoRows(rows: set<Allocation>, ip: Ip)
    ensures |set a | a in rows && a.ip == ip| > 1 <==> exists a, b :: a in rows && b in rows && a != b && a.ip == ip && b.ip == ip
  {
    var group := set a | a in rows && a.ip == ip;
    TwoElements(group);
    if |group| > 1 {
      var a, b :| a in group && b in group && a != b;
      assert a in rows && b in rows && a != b && a.ip == ip && b.ip == ip;
    }
    assert forall a :: a in rows && a.ip == ip ==> a in group;
  }

  lemma TwoElements(s: set<Allocation>)
    ensures |s| > 1 <==> exists a, b :: a in s && b in s && a != b
  {
    if |s| > 1 {
      var a :| a in s;
      assert |s - {a}| > 0;
      var b :| b in s - {a};
    } else if a, b :| a in s && b in s && a != b {
      assert |{a, b}| <= |s| by { Contained({a, b}, s); }
    }
  }
}
