/**
 The tables of the address manager and the effect of every operation on them.

 A table is the set of its rows: no query of the service orders rows except where it says so,
 and every loop over a query result is proved for whatever order the database picks.
 */
module IpamModel {
  import opened Wrappers

  type Ip = i: int | 0 <= i < 0x1_0000_0000
  type Prefix = p: int | 0 <= p <= 32

  datatype Network = Network(id: nat, address: Ip, prefix: Prefix, gateway: Option<Ip>, active: bool,
                             workspace: Option<nat>, isDefault: bool)

  datatype Pool = Pool(id: nat, networkId: nat, start: Ip, end: Ip, autoAssign: bool, active: bool)

  // `server` and `vmid` name the guest that holds the address; `kind` is "primary" or "alias".
  datatype Allocation = Allocation(id: nat, networkId: nat, poolId: Option<nat>, ip: Ip, resourceId: Option<int>,
                                   server: Option<nat>, vmid: Option<nat>, status: string,
                                   primary: bool, kind: string)

  datatype Action = Allocated | Released | Modified

  datatype Entry = Entry(ip: Ip, networkId: nat, action: Action)

  datatype Guest = Guest(server: nat, vmid: nat)

  // `guests` are the instances that are not deleted, with the address cached for each;
  // `servers` are the hypervisors with their own address; `nextId` is above every id handed out.
  datatype Db = Db(networks: set<Network>, pools: set<Pool>, allocations: set<Allocation>, history: seq<Entry>,
                   guests: map<Guest, Option<Ip>>, servers: map<nat, Option<Ip>>, nextId: nat)

  const EMPTY := Db({}, {}, {}, [], map[], map[], 1)

  datatype IpamError = AlreadyAllocated | NetworkNotFound | OutsideNetwork | IsGateway | NotAllocated
                     | NothingAvailable | DuplicateAddress | NotThisGuest | InvertedRange | PoolOverlap
                     | PoolNotFound | NetworkInUse

  // ---------- address arithmetic ----------

  function Pow2(n: nat): (r: int)
    ensures r >= 1
  {
    if n == 0 then 1 else 2 * Pow2(n - 1)
  }

  function Size(prefix: Prefix): (r: int)
    ensures r >= 1
  {
    Pow2(32 - prefix)
  }

  // Host bits of the configured address are dropped, as for a CIDR parsed with strict=False.
  function First(n: Network): int {
    n.address - n.address % Size(n.prefix)
  }

  predicate InNetwork(n: Network, ip: Ip) {
    First(n) <= ip < First(n) + Size(n.prefix)
  }

  // The addresses a host may use: all but the first and last, except in /31 and /32 networks.
  function HostsFrom(n: Network): int {
    if n.prefix < 31 then First(n) + 1 else First(n)
  }

  function HostsTo(n: Network): int {
    if n.prefix < 31 then First(n) + Size(n.prefix) - 1 else First(n) + Size(n.prefix)
  }

  // ---------- rows ----------

  predicate Truthy(id: Option<nat>) {
    id.Some? && id.value != 0
  }

  predicate Active(a: Allocation) {
    a.status == "allocated" || a.status == "reserved"
  }

  predicate HeldBy(a: Allocation, server: Option<nat>, vmid: Option<nat>) {
    a.server == server && a.vmid == vmid
  }

  predicate InRange(p: Pool, ip: Ip) {
    p.start <= ip <= p.end
  }

  predicate Overlap(start: Ip, end: Ip, p: Pool) {
    !(end < p.start || start > p.end)
  }

  ghost function FindNetwork(db: Db, id: nat): (r: Option<Network>)
    ensures r.Some? ==> r.value in db.networks && r.value.id == id
    ensures r.None? ==> forall n :: n in db.networks ==> n.id != id
  {
    if exists n :: n in db.networks && n.id == id then
      var n :| n in db.networks && n.id == id;
      Some(n)
    else None
  }

  ghost function FindPool(db: Db, id: nat): (r: Option<Pool>)
    ensures r.Some? ==> r.value in db.pools && r.value.id == id
    ensures r.None? ==> forall p :: p in db.pools ==> p.id != id
  {
    if exists p :: p in db.pools && p.id == id then
      var p :| p in db.pools && p.id == id;
      Some(p)
    else None
  }

  ghost function FindRow(db: Db, ip: Ip): (r: Option<Allocation>)
    ensures r.Some? ==> r.value in db.allocations && r.value.ip == ip
    ensures r.None? ==> forall a :: a in db.allocations ==> a.ip != ip
  {
    if exists a :: a in db.allocations && a.ip == ip then
      var a :| a in db.allocations && a.ip == ip;
      Some(a)
    else None
  }

  ghost predicate HasPrimary(db: Db, server: Option<nat>, vmid: Option<nat>) {
    vmid.Some? && exists a :: a in db.allocations && HeldBy(a, server, vmid) && a.primary
  }

  predicate GuestExists(db: Db, server: Option<nat>, vmid: Option<nat>) {
    server.Some? && vmid.Some? && Guest(server.value, vmid.value) in db.guests
  }

  // ---------- history ----------

  // Replays the log for one address of one network: 0 free, 1 in use, -1 when an entry cannot follow.
  function Replay(h: seq<Entry>, ip: Ip, networkId: nat): int {
    if h == [] then 0 else
      var before := Replay(h[..|h| - 1], ip, networkId);
      var e := h[|h| - 1];
      if e.ip != ip || e.networkId != networkId then before
      else match e.action
        case Allocated => if before == 0 then 1 else -1
        case Released => if before == 1 then 0 else -1
        case Modified => if before == 1 then 1 else -1
  }

  function CountOf(h: seq<Entry>, ip: Ip, networkId: nat, action: Action): nat {
    if h == [] then 0 else
      CountOf(h[..|h| - 1], ip, networkId, action) +
      (if h[|h| - 1] == Entry(ip, networkId, action) then 1 else 0)
  }

  function WithoutNetwork(h: seq<Entry>, networkId: nat): seq<Entry> {
    if h == [] then [] else
      var rest := WithoutNetwork(h[..|h| - 1], networkId);
      if h[|h| - 1].networkId == networkId then rest else rest + [h[|h| - 1]]
  }

  // ---------- the invariant of every reachable state ----------

  ghost predicate IdsFresh(db: Db) {
    && 0 < db.nextId
    && (forall n :: n in db.networks ==> 0 < n.id < db.nextId)
    && (forall p :: p in db.pools ==> 0 < p.id < db.nextId)
    && (forall a :: a in db.allocations ==> 0 < a.id < db.nextId)
  }

  ghost predicate IdsUnique(db: Db) {
    && (forall n, m :: n in db.networks && m in db.networks && n.id == m.id ==> n == m)
    && (forall p, q :: p in db.pools && q in db.pools && p.id == q.id ==> p == q)
    && (forall a, b :: a in db.allocations && b in db.allocations && a.id == b.id ==> a == b)
  }

  ghost predicate AddressesUnique(db: Db) {
    forall a, b :: a in db.allocations && b in db.allocations && a.ip == b.ip ==> a == b
  }

  ghost predicate RowHasNetwork(db: Db, a: Allocation) {
    exists n :: n in db.networks && n.id == a.networkId && InNetwork(n, a.ip)
  }

  ghost predicate RowsInNetworks(db: Db) {
    forall a :: a in db.allocations ==> RowHasNetwork(db, a)
  }

  ghost predicate PoolHasNetwork(db: Db, p: Pool) {
    exists n :: n in db.networks && n.id == p.networkId && InNetwork(n, p.start) && InNetwork(n, p.end)
  }

  ghost predicate PoolsDisjoint(db: Db) {
    && (forall p :: p in db.pools ==> p.start <= p.end && PoolHasNetwork(db, p))
    && (forall p, q :: p in db.pools && q in db.pools && p.networkId == q.networkId && Overlap(p.start, p.end, q) ==>
          p == q)
  }

  ghost predicate Live(db: Db, ip: Ip, networkId: nat) {
    exists a :: a in db.allocations && a.ip == ip && a.networkId == networkId
  }

  ghost predicate Ledger(db: Db) {
    forall ip: Ip, networkId: nat :: Replay(db.history, ip, networkId) == if Live(db, ip, networkId) then 1 else 0
  }

  ghost predicate OneDefaultPerWorkspace(ns: set<Network>) {
    forall n, m :: n in ns && m in ns && n.isDefault && m.isDefault && n.workspace.Some? ==>
      n.workspace == m.workspace ==> n == m
  }

  ghost predicate Valid(db: Db) {
    && IdsFresh(db) && IdsUnique(db) && AddressesUnique(db) && RowsInNetworks(db)
    && PoolsDisjoint(db) && Ledger(db) && OneDefaultPerWorkspace(db.networks)
  }

  // ---------- addresses ----------

  datatype Request = Request(ip: Ip, networkId: nat, poolId: Option<nat>, resourceId: Option<int>,
                             server: Option<nat>, vmid: Option<nat>, status: string,
                             primary: Option<bool>, kind: string)

  ghost predicate Taggable(db: Db, networkId: nat, ip: Ip, p: Pool) {
    p in db.pools && p.networkId == networkId && p.active && InRange(p, ip)
  }

  ghost function PoolFor(db: Db, networkId: nat, ip: Ip): (r: Option<nat>)
    ensures r.None? ==> forall p :: !Taggable(db, networkId, ip, p)
    ensures r.Some? ==> exists p :: Taggable(db, networkId, ip, p) && p.id == r.value
  {
    if exists p :: Taggable(db, networkId, ip, p) then
      var p :| Taggable(db, networkId, ip, p);
      Some(p.id)
    else None
  }

  ghost function PrimaryFlag(db: Db, req: Request): bool {
    match req.primary
    case Some(flag) => flag
    case None => req.kind == "primary" && req.vmid.Some? && !HasPrimary(db, req.server, req.vmid)
  }

  ghost function NewRow(db: Db, req: Request): Allocation {
    Allocation(db.nextId, req.networkId,
               // a falsy id that was given is passed over by the detection and kept when nothing is found
               if Truthy(req.poolId) then req.poolId
               else if PoolFor(db, req.networkId, req.ip).Some? then PoolFor(db, req.networkId, req.ip)
               else req.poolId,
               req.ip, req.resourceId, req.server, req.vmid, req.status, PrimaryFlag(db, req), req.kind)
  }

  ghost function Refusal(db: Db, req: Request): Option<IpamError> {
    if FindRow(db, req.ip).Some? then Some(AlreadyAllocated) else
    match FindNetwork(db, req.networkId)
    case None => Some(NetworkNotFound)
    case Some(n) =>
      if !InNetwork(n, req.ip) then Some(OutsideNetwork)
      else if n.gateway == Some(req.ip) then Some(IsGateway)
      else None
  }

  ghost function Allocate(db: Db, req: Request): Db {
    if Refusal(db, req).Some? then db
    else db.(allocations := db.allocations + {NewRow(db, req)},
             history := db.history + [Entry(req.ip, req.networkId, Allocated)],
             nextId := db.nextId + 1)
  }

  ghost function ReleaseRow(db: Db, a: Allocation): Db {
    db.(allocations := db.allocations - {a},
        history := db.history + [Entry(a.ip, a.networkId, Released)])
  }

  ghost function Release(db: Db, ip: Ip): Db {
    match FindRow(db, ip)
    case None => db
    case Some(a) => ReleaseRow(db, a)
  }

  ghost function ReleaseEach(db: Db, rows: seq<Allocation>): Db {
    if rows == [] then db
    else ReleaseRow(ReleaseEach(db, rows[..|rows| - 1]), rows[|rows| - 1])
  }

  // A query result in the order the database happened to return it.
  ghost predicate Lists(rows: seq<Allocation>, table: set<Allocation>) {
    && (forall i :: 0 <= i < |rows| ==> rows[i] in table)
    && (forall a :: a in table ==> a in rows)
    && (forall i, j :: 0 <= i < j < |rows| ==> rows[i] != rows[j])
  }

  // Fields of an update request: outer None is a field that was not sent. `others` tells whether
  // a field outside this model (name, MAC, notes, last_seen, ...) gets a new value.
  datatype Patch = Patch(poolId: Option<Option<nat>>, resourceId: Option<Option<int>>, server: Option<Option<nat>>,
                         vmid: Option<Option<nat>>, status: Option<string>, others: bool)

  function Or<T>(given: Option<T>, kept: T): T {
    match given case Some(v) => v case None => kept
  }

  function Patched(a: Allocation, patch: Patch): Allocation {
    a.(poolId := Or(patch.poolId, a.poolId), resourceId := Or(patch.resourceId, a.resourceId),
       server := Or(patch.server, a.server), vmid := Or(patch.vmid, a.vmid), status := Or(patch.status, a.status))
  }

  ghost function Replace(db: Db, a: Allocation, b: Allocation): Db {
    db.(allocations := db.allocations - {a} + {b})
  }

  ghost function Update(db: Db, ip: Ip, patch: Patch): Db {
    match FindRow(db, ip)
    case None => db
    case Some(a) =>
      var b := Patched(a, patch);
      if b == a && !patch.others then db
      else Replace(db, a, b).(history := db.history + [Entry(ip, a.networkId, Modified)])
  }

  function Marked(a: Allocation, g: Guest, id: nat): Allocation {
    if HeldBy(a, Some(g.server), Some(g.vmid)) then a.(primary := a.id == id) else a
  }

  ghost predicate IsTarget(db: Db, g: Guest, id: nat, a: Allocation) {
    a in db.allocations && a.id == id && HeldBy(a, Some(g.server), Some(g.vmid))
  }

  ghost function SetPrimary(db: Db, g: Guest, id: nat): Db {
    if exists a :: IsTarget(db, g, id, a) then
      var target :| IsTarget(db, g, id, target);
      db.(allocations := (set a | a in db.allocations :: Marked(a, g, id)),
          history := db.history + [Entry(target.ip, target.networkId, Modified)])
    else db
  }

  // ---------- discovery ----------

  predicate BelongsToOther(a: Allocation, g: Guest) {
    a.vmid.Some? && !HeldBy(a, Some(g.server), Some(g.vmid))
  }

  function Rebinding(g: Guest): Patch {
    Patch(None, None, Some(Some(g.server)), Some(Some(g.vmid)), None, true)
  }

  ghost function SyncRequest(db: Db, networkId: nat, g: Guest, ip: Ip, kind: string): Request {
    var has := HasPrimary(db, Some(g.server), Some(g.vmid));
    Request(ip, networkId, None, None, Some(g.server), Some(g.vmid), "allocated",
            Some(!has), if has then kind else "primary")
  }

  ghost function Sync(db: Db, networkId: nat, g: Guest, ip: Ip, kind: string): Db {
    match FindRow(db, ip)
    case Some(a) =>
      if BelongsToOther(a, g) && GuestExists(db, a.server, a.vmid) then db
      else if !HeldBy(a, Some(g.server), Some(g.vmid)) then Update(db, ip, Rebinding(g))
      else db
    case None => Allocate(db, SyncRequest(db, networkId, g, ip, kind))
  }

  // ---------- selections that are released together ----------

  ghost function ActiveOf(db: Db, g: Guest): set<Allocation> {
    set a | a in db.allocations && HeldBy(a, Some(g.server), Some(g.vmid)) && Active(a)
  }

  // Order of a guest's addresses: the primary one first, then by id.
  predicate Before(a: Allocation, b: Allocation) {
    if a.primary == b.primary then a.id < b.id else a.primary
  }

  ghost predicate IsFirstAddress(db: Db, g: Guest, a: Allocation) {
    a in ActiveOf(db, g) && forall b :: b in ActiveOf(db, g) && b != a ==> Before(a, b)
  }

  // The instance list shows the guest's first address; the cache stays when there is none.
  ghost function Refreshed(db: Db, g: Guest): Db {
    if exists a :: IsFirstAddress(db, g, a) then
      var a :| IsFirstAddress(db, g, a);
      db.(guests := db.guests[g := Some(a.ip)])
    else db
  }

  ghost function LegacyOf(db: Db, vmid: nat): set<Allocation> {
    set a | a in db.allocations && a.resourceId == Some(vmid) && a.server == None && Active(a)
  }

  ghost function ReleasedWith(db: Db, g: Guest): set<Allocation> {
    if ActiveOf(db, g) != {} then ActiveOf(db, g) else LegacyOf(db, g.vmid)
  }

  ghost function ActiveOnServer(db: Db, server: nat): set<Allocation> {
    set a | a in db.allocations && a.server == Some(server) && Active(a)
  }

  predicate Orphaned(db: Db, a: Allocation) {
    Active(a) && a.server.Some? &&
    ((a.vmid.Some? && !GuestExists(db, a.server, a.vmid)) || a.server.value !in db.servers)
  }

  ghost function Orphans(db: Db): set<Allocation> {
    set a | a in db.allocations && Orphaned(db, a)
  }

  // ---------- networks and pools ----------

  function Sibling(m: Network, n: Network): Network {
    if m.workspace == n.workspace && m.id != n.id && m.isDefault then m.(isDefault := false) else m
  }

  ghost function EnforceSingleDefault(ns: set<Network>, n: Network): set<Network> {
    if !n.isDefault || n.workspace.None? then ns else set m | m in ns :: Sibling(m, n)
  }

  // The CIDR text is compared, so only the same address with the same prefix is refused.
  ghost function CreateNetwork(db: Db, draft: Network): Db {
    if exists n :: n in db.networks && n.address == draft.address && n.prefix == draft.prefix then db
    else
      var n := draft.(id := db.nextId);
      db.(networks := EnforceSingleDefault(db.networks + {n}, n), nextId := db.nextId + 1)
  }

  datatype NetworkPatch = NetworkPatch(gateway: Option<Option<Ip>>, active: Option<bool>,
                                       workspace: Option<Option<nat>>, isDefault: Option<bool>)

  function NetworkPatched(n: Network, patch: NetworkPatch): Network {
    n.(gateway := Or(patch.gateway, n.gateway), active := Or(patch.active, n.active),
       workspace := Or(patch.workspace, n.workspace), isDefault := Or(patch.isDefault, n.isDefault))
  }

  ghost function UpdateNetwork(db: Db, id: nat, patch: NetworkPatch): Db {
    match FindNetwork(db, id)
    case None => db
    case Some(n) =>
      var m := NetworkPatched(n, patch);
      db.(networks := EnforceSingleDefault(db.networks - {n} + {m}, m))
  }

  ghost function DeleteNetwork(db: Db, id: nat, force: bool): Db {
    if FindNetwork(db, id).None? then db
    else if !force && (exists a :: a in db.allocations && a.networkId == id) then db
    else db.(networks := (set n | n in db.networks && n.id != id),
             pools := (set p | p in db.pools && p.networkId != id),
             allocations := (set a | a in db.allocations && a.networkId != id),
             history := WithoutNetwork(db.history, id))
  }

  ghost predicate RangeAccepted(db: Db, networkId: nat, start: Ip, end: Ip, exclude: Option<nat>) {
    && FindNetwork(db, networkId).Some?
    && InNetwork(FindNetwork(db, networkId).value, start)
    && InNetwork(FindNetwork(db, networkId).value, end)
    && start <= end
    && forall p :: p in db.pools && p.networkId == networkId && (Truthy(exclude) ==> p.id != exclude.value) ==>
                     !Overlap(start, end, p)
  }

  ghost function CreatePool(db: Db, draft: Pool): Db {
    if !RangeAccepted(db, draft.networkId, draft.start, draft.end, None) then db
    else db.(pools := db.pools + {draft.(id := db.nextId)}, nextId := db.nextId + 1)
  }

  datatype PoolPatch = PoolPatch(start: Option<Ip>, end: Option<Ip>, autoAssign: Option<bool>, active: Option<bool>)

  function PoolPatched(p: Pool, patch: PoolPatch): Pool {
    p.(start := Or(patch.start, p.start), end := Or(patch.end, p.end),
       autoAssign := Or(patch.autoAssign, p.autoAssign), active := Or(patch.active, p.active))
  }

  ghost function UpdatePool(db: Db, id: nat, patch: PoolPatch): Db {
    match FindPool(db, id)
    case None => db
    case Some(p) =>
      var q := PoolPatched(p, patch);
      if (patch.start.Some? || patch.end.Some?) && !RangeAccepted(db, p.networkId, q.start, q.end, Some(id)) then db
      else db.(pools := db.pools - {p} + {q})
  }

  function Untagged(a: Allocation, poolId: nat): Allocation {
    if a.poolId == Some(poolId) then a.(poolId := None) else a
  }

  ghost function DeletePool(db: Db, id: nat): Db {
    match FindPool(db, id)
    case None => db
    case Some(p) =>
      db.(pools := db.pools - {p}, allocations := set a | a in db.allocations :: Untagged(a, id))
  }

  // ---------- finding a free address ----------

  ghost predicate Occupied(db: Db, n: Network, ip: Ip) {
    n.gateway == Some(ip) || exists a :: a in db.allocations && a.ip == ip
  }

  ghost predicate Searched(db: Db, networkId: nat, poolId: Option<nat>, p: Pool) {
    && p in db.pools && p.networkId == networkId && p.active && p.autoAssign
    && (Truthy(poolId) ==> p.id == poolId.value)
  }

  ghost predicate PoolFull(db: Db, n: Network, p: Pool) {
    forall ip: Ip :: InRange(p, ip) ==> Occupied(db, n, ip)
  }

  ghost predicate PoolsFull(db: Db, n: Network, poolId: Option<nat>) {
    forall p :: Searched(db, n.id, poolId, p) ==> PoolFull(db, n, p)
  }

  // `ip` is the first free address in (pool id, address) order of the pools that are searched.
  ghost predicate FirstFree(db: Db, n: Network, poolId: Option<nat>, p: Pool, ip: Ip) {
    && Searched(db, n.id, poolId, p) && InRange(p, ip) && !Occupied(db, n, ip)
    && (forall q :: Searched(db, n.id, poolId, q) && q.id < p.id ==> PoolFull(db, n, q))
    && (forall x: Ip :: p.start <= x < ip ==> Occupied(db, n, x))
  }

  ghost predicate KnownElsewhere(db: Db, ip: Ip) {
    (exists g :: g in db.guests && db.guests[g] == Some(ip)) || (exists s :: s in db.servers && db.servers[s] == Some(ip))
  }

  ghost predicate FirstFreeHost(db: Db, n: Network, ip: Ip) {
    && HostsFrom(n) <= ip < HostsTo(n) && !Occupied(db, n, ip) && !KnownElsewhere(db, ip)
    && forall x: Ip :: HostsFrom(n) <= x < ip ==> Occupied(db, n, x) || KnownElsewhere(db, x)
  }

  ghost predicate NoFreeHost(db: Db, n: Network) {
    forall x: Ip :: HostsFrom(n) <= x < HostsTo(n) ==> Occupied(db, n, x) || KnownElsewhere(db, x)
  }

  // What the search for a free address has to answer.
  ghost predicate NextFree(db: Db, networkId: nat, poolId: Option<nat>, scan: bool, r: Option<Ip>) {
    match r
    case Some(ip) =>
      exists n :: n in db.networks && n.id == networkId && n.active &&
        ((exists p :: FirstFree(db, n, poolId, p, ip)) ||
         (scan && !Truthy(poolId) && PoolsFull(db, n, poolId) && FirstFreeHost(db, n, ip)))
    case None =>
      forall n :: n in db.networks && n.id == networkId && n.active ==>
        PoolsFull(db, n, poolId) && (scan && !Truthy(poolId) ==> NoFreeHost(db, n))
  }
}
