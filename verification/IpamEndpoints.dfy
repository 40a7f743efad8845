/** What the endpoints for the addresses of one guest do, as steps of a run. */
module IpamEndpoints {
  import opened Wrappers
  import opened IpamModel
  import opened IpamLedger
  import IpamDiscovery

  // The cache is refreshed by one change of the inventory.
  ghost function CacheStep(db: Db, g: Guest): Step {
    InventoryChanged(Refreshed(db, g).guests, db.servers)
  }

  ghost function PrimarySteps(db: Db, g: Guest, id: nat): seq<Step> {
    [PrimarySet(g, id), CacheStep(SetPrimary(db, g, id), g)]
  }

  function AliasRequest(g: Guest, networkId: nat, poolId: Option<nat>, ip: Ip): Request {
    Request(ip, networkId, poolId, None, Some(g.server), Some(g.vmid), "allocated", None, "alias")
  }

  // The new row gets the next id, by which it is marked when it is to be the primary address.
  ghost function AddSteps(db: Db, g: Guest, req: Request, makePrimary: bool): seq<Step> {
    var placed := Allocate(db, req);
    if makePrimary then [AddressAllocated(req), PrimarySet(g, db.nextId), CacheStep(SetPrimary(placed, g, db.nextId), g)]
    else [AddressAllocated(req), CacheStep(placed, g)]
  }

  ghost function RemoveSteps(db: Db, g: Guest, ip: Ip): seq<Step> {
    [AddressReleased(ip), CacheStep(Release(db, ip), g)]
  }

  // Ids are unique, so a guest has at most one first address.
  lemma FirstIsUnique(db: Db, g: Guest, a: Allocation, b: Allocation)
    requires IdsUnique(db) && IsFirstAddress(db, g, a) && IsFirstAddress(db, g, b)
    ensures a == b
  {
    assert a in ActiveOf(db, g) && b in ActiveOf(db, g);
    assert a == b || a.id != b.id;
  }

  lemma RefreshedIs(db: Db, g: Guest, first: Allocation)
    requires IdsUnique(db) && IsFirstAddress(db, g, first)
    ensures Refreshed(db, g) == db.(guests := db.guests[g := Some(first.ip)])
  {
    forall a | IsFirstAddress(db, g, a) ensures a == first {
      FirstIsUnique(db, g, a, first);
    }
  }

  // Only the cache changes, and no guest comes or goes.
  lemma RefreshedKeeps(db: Db, g: Guest)
    requires g in db.guests
    ensures Refreshed(db, g) == db.(guests := Refreshed(db, g).guests) && Refreshed(db, g).guests.Keys == db.guests.Keys
  {
  }

  lemma TwoSteps(db: Db, first: Step, g: Guest)
    requires Enabled(db, first)
    ensures var steps := [first, CacheStep(Next(db, first), g)];
            Possible(db, steps) && After(db, steps) == Refreshed(Next(db, first), g)
  {
    var mid := Next(db, first);
    var steps := [first, CacheStep(mid, g)];
    assert steps[1..] == [CacheStep(mid, g)] && steps[1..][1..] == [];
    assert After(mid, steps[1..]) == Next(mid, CacheStep(mid, g));
  }

  lemma ThreeSteps(db: Db, first: Step, second: Step, g: Guest)
    requires Enabled(db, first) && Enabled(Next(db, first), second)
    ensures var mid := Next(Next(db, first), second);
            var steps := [first, second, CacheStep(mid, g)];
            Possible(db, steps) && After(db, steps) == Refreshed(mid, g)
  {
    var mid := Next(Next(db, first), second);
    var steps := [first, second, CacheStep(mid, g)];
    assert steps[1..] == [second, CacheStep(mid, g)];
    TwoSteps(Next(db, first), second, g);
  }

  lemma PrimaryEffect(db: Db, g: Guest, id: nat)
    requires Valid(db) && g in db.guests
    ensures After(db, PrimarySteps(db, g, id)).guests.Keys == db.guests.Keys
    ensures Valid(After(db, PrimarySteps(db, g, id))) && IdsUnique(SetPrimary(db, g, id))
    ensures After(db, PrimarySteps(db, g, id)) == Refreshed(SetPrimary(db, g, id), g)
  {
    TwoSteps(db, PrimarySet(g, id), g);
    AfterKeeps(db, PrimarySteps(db, g, id));
    SetPrimaryKeeps(db, g, id);
    RefreshedKeeps(SetPrimary(db, g, id), g);
  }

  lemma AddEffect(db: Db, g: Guest, req: Request, makePrimary: bool)
    requires Valid(db) && g in db.guests
    ensures After(db, AddSteps(db, g, req, makePrimary)).guests.Keys == db.guests.Keys
    ensures Valid(After(db, AddSteps(db, g, req, makePrimary))) && Valid(Allocate(db, req))
    ensures IdsUnique(SetPrimary(Allocate(db, req), g, db.nextId))
    ensures var placed := Allocate(db, req);
            After(db, AddSteps(db, g, req, makePrimary)) ==
            Refreshed(if makePrimary then SetPrimary(placed, g, db.nextId) else placed, g)
  {
    AllocateKeeps(db, req);
    SetPrimaryKeeps(Allocate(db, req), g, db.nextId);
    if makePrimary {
      ThreeSteps(db, AddressAllocated(req), PrimarySet(g, db.nextId), g);
    } else {
      TwoSteps(db, AddressAllocated(req), g);
    }
    AfterKeeps(db, AddSteps(db, g, req, makePrimary));
    RefreshedKeeps(if makePrimary then SetPrimary(Allocate(db, req), g, db.nextId) else Allocate(db, req), g);
  }

  lemma RemoveEffect(db: Db, g: Guest, ip: Ip)
    requires Valid(db) && g in db.guests
    ensures After(db, RemoveSteps(db, g, ip)).guests.Keys == db.guests.Keys
    ensures Valid(After(db, RemoveSteps(db, g, ip))) && IdsUnique(Release(db, ip))
    ensures After(db, RemoveSteps(db, g, ip)) == Refreshed(Release(db, ip), g)
  {
    TwoSteps(db, AddressReleased(ip), g);
    AfterKeeps(db, RemoveSteps(db, g, ip));
    StepKeeps(db, AddressReleased(ip));
    RefreshedKeeps(Release(db, ip), g);
  }

  // The endpoints are possible in every state, so every run goes on with them.
  lemma EndpointsArePossible(db: Db, g: Guest, req: Request, makePrimary: bool, id: nat, ip: Ip)
    ensures Possible(db, PrimarySteps(db, g, id)) && Possible(db, AddSteps(db, g, req, makePrimary)) && Possible(db, RemoveSteps(db, g, ip))
  {
    TwoSteps(db, PrimarySet(g, id), g);
    TwoSteps(db, AddressReleased(ip), g);
    TwoSteps(db, AddressAllocated(req), g);
    ThreeSteps(db, AddressAllocated(req), PrimarySet(g, db.nextId), g);
  }

  // An active primary address is the one cached.
  lemma PrimaryIsCached(db: Db, g: Guest, id: nat, marked: Allocation)
    requires Valid(db) && g in db.guests && (exists a :: IsTarget(db, g, id, a))
    requires IsTarget(SetPrimary(db, g, id), g, id, marked) && marked.primary
    ensures var after := Refreshed(SetPrimary(db, g, id), g);
            && IsTarget(after, g, id, marked)
            && (Active(marked) ==> g in after.guests && after.guests[g] == Some(marked.ip))
  {
    var set_ := SetPrimary(db, g, id);
    SetPrimaryKeeps(db, g, id);
    if Active(marked) {
      assert forall b :: b in ActiveOf(set_, g) && b != marked ==> !b.primary;
      assert IsFirstAddress(set_, g, marked);
      RefreshedIs(set_, g, marked);
    }
  }

  lemma PlacedIsTarget(db: Db, g: Guest, req: Request)
    requires Refusal(db, req).None? && req.server == Some(g.server) && req.vmid == Some(g.vmid)
    ensures IsTarget(Allocate(db, req), g, db.nextId, NewRow(db, req))
    ensures Allocate(db, req).guests == db.guests
  {
  }

  lemma PlacedIsCached(db: Db, g: Guest, req: Request)
    requires Valid(db) && g in db.guests && Refusal(db, req).None? && req.server == Some(g.server) && req.vmid == Some(g.vmid)
    ensures Active(NewRow(db, req)) ==>
              var after := Refreshed(SetPrimary(Allocate(db, req), g, db.nextId), g);
              g in after.guests && after.guests[g] == Some(req.ip)
  {
    var placed, row := Allocate(db, req), NewRow(db, req);
    AllocateKeeps(db, req);
    PlacedIsTarget(db, g, req);
    var marked := Marked(row, g, db.nextId);
    SetPrimaryIs(placed, g, db.nextId, row);
    assert IsTarget(SetPrimary(placed, g, db.nextId), g, db.nextId, marked);
    PrimaryIsCached(placed, g, db.nextId, marked);
  }

  // An address added to a guest is an allocated alias of it, and its primary address only on request.
  lemma AddedAddressIs(db: Db, g: Guest, networkId: nat, poolId: Option<nat>, ip: Ip, makePrimary: bool) returns (row: Allocation)
    requires Valid(db) && g in db.guests && Refusal(db, AliasRequest(g, networkId, poolId, ip)).None?
    ensures row in After(db, AddSteps(db, g, AliasRequest(g, networkId, poolId, ip), makePrimary)).allocations
    ensures row.ip == ip && row.networkId == networkId && row.server == Some(g.server) && row.vmid == Some(g.vmid)
    ensures row.kind == "alias" && row.status == "allocated" && row.primary == makePrimary
  {
    var req := AliasRequest(g, networkId, poolId, ip);
    var placed := Allocate(db, req);
    AddEffect(db, g, req, makePrimary);
    PlacedIsTarget(db, g, req);
    row := NewRow(db, req);
    if makePrimary {
      SetPrimaryIs(placed, g, db.nextId, row);
      row := Marked(row, g, db.nextId);
    }
  }

  // ---------- linking ----------

  // One discovery is synchronised and, when it becomes the primary address, cached.
  ghost function LinkSteps(s: IpamDiscovery.Progress, g: Guest, f: IpamDiscovery.Found): seq<Step> {
    var after := IpamDiscovery.LinkOne(s, g, f);
    if f.ip in s.linked then []
    else [Synced(f.networkId, g, f.ip, "alias"), InventoryChanged(after.db.guests, after.db.servers)]
  }

  lemma LinkOneIsSteps(s: IpamDiscovery.Progress, g: Guest, f: IpamDiscovery.Found)
    ensures Possible(s.db, LinkSteps(s, g, f)) && After(s.db, LinkSteps(s, g, f)) == IpamDiscovery.LinkOne(s, g, f).db
  {
    if f.ip !in s.linked {
      var after := IpamDiscovery.LinkOne(s, g, f).db;
      var synced := Sync(s.db, f.networkId, g, f.ip, "alias");
      var cached := InventoryChanged(after.guests, after.servers);
      var steps := [Synced(f.networkId, g, f.ip, "alias"), cached];
      IpamDiscovery.SyncFrame(s.db, f.networkId, g, f.ip, "alias");
      assert steps[1..] == [cached] && [cached][1..] == [];
      assert After(synced, [cached]) == Next(synced, cached);
    }
  }

  // The linking loop is a sequence of such steps.
  lemma {:induction false} LinkEachIsSteps(s: IpamDiscovery.Progress, g: Guest, found: seq<IpamDiscovery.Found>) returns (steps: seq<Step>)
    ensures Possible(s.db, steps) && After(s.db, steps) == IpamDiscovery.LinkEach(s, g, found).db
    decreases |found|
  {
    if found == [] {
      steps := [];
    } else {
      var n := |found| - 1;
      var before := LinkEachIsSteps(s, g, found[..n]);
      var mid := IpamDiscovery.LinkEach(s, g, found[..n]);
      LinkOneIsSteps(mid, g, found[n]);
      AfterAppend(s.db, before, LinkSteps(mid, g, found[n]));
      steps := before + LinkSteps(mid, g, found[n]);
    }
  }
}
