/**
 Every operation keeps the invariant of the address tables, so every run of the service does:
 addresses stay unique, pools stay disjoint, and the history accounts for every row.
 */
module IpamLedger {
  import opened Wrappers
  import opened IpamModel

  // ---------- the log ----------

  lemma {:induction false} ReplayAppend(h: seq<Entry>, e: Entry, ip: Ip, networkId: nat)
    ensures Replay(h + [e], ip, networkId) ==
            if e.ip != ip || e.networkId != networkId then Replay(h, ip, networkId)
            else match e.action
              case Allocated => if Replay(h, ip, networkId) == 0 then 1 else -1
              case Released => if Replay(h, ip, networkId) == 1 then 0 else -1
              case Modified => if Replay(h, ip, networkId) == 1 then 1 else -1
  {
  }

  // A log that replays has released each address as often as it allocated it, or once less.
  lemma {:induction false} ReplayCounts(h: seq<Entry>, ip: Ip, networkId: nat)
    requires Replay(h, ip, networkId) >= 0
    ensures CountOf(h, ip, networkId, Allocated) - CountOf(h, ip, networkId, Released) == Replay(h, ip, networkId)
  {
    if h != [] {
      ReplayCounts(h[..|h| - 1], ip, networkId);
    }
  }

  lemma {:induction false} ReplayWithout(h: seq<Entry>, gone: nat, ip: Ip, networkId: nat)
    ensures Replay(WithoutNetwork(h, gone), ip, networkId) == if networkId == gone then 0 else Replay(h, ip, networkId)
  {
    if h != [] {
      var front, e := h[..|h| - 1], h[|h| - 1];
      ReplayWithout(front, gone, ip, networkId);
      if e.networkId != gone {
        ReplayAppend(WithoutNetwork(front, gone), e, ip, networkId);
      }
    }
  }

  // ---------- single rows ----------

  lemma FoundRow(db: Db, a: Allocation)
    requires AddressesUnique(db) && a in db.allocations
    ensures FindRow(db, a.ip) == Some(a)
  {
  }

  lemma AllocateKeeps(db: Db, req: Request)
    requires Valid(db)
    ensures Valid(Allocate(db, req))
  {
    if Refusal(db, req).None? {
      var after, row := Allocate(db, req), NewRow(db, req);
      var n := FindNetwork(db, req.networkId).value;
      assert RowHasNetwork(after, row);
      forall a | a in after.allocations && a != row ensures RowHasNetwork(after, a) {
        assert RowHasNetwork(db, a);
      }
      forall p | p in after.pools ensures PoolHasNetwork(after, p) {
        assert PoolHasNetwork(db, p);
      }
      forall ip: Ip, networkId: nat
        ensures Replay(after.history, ip, networkId) == if Live(after, ip, networkId) then 1 else 0
      {
        ReplayAppend(db.history, Entry(req.ip, req.networkId, Allocated), ip, networkId);
        assert row in after.allocations;
        assert Live(after, ip, networkId) <==> Live(db, ip, networkId) || (ip == req.ip && networkId == req.networkId);
      }
    }
  }

  lemma ReleaseRowKeeps(db: Db, a: Allocation)
    requires Valid(db) && a in db.allocations
    ensures Valid(ReleaseRow(db, a))
  {
    var after := ReleaseRow(db, a);
    forall b | b in after.allocations ensures RowHasNetwork(after, b) {
      assert RowHasNetwork(db, b);
    }
    forall p | p in after.pools ensures PoolHasNetwork(after, p) {
      assert PoolHasNetwork(db, p);
    }
    forall ip: Ip, networkId: nat
      ensures Replay(after.history, ip, networkId) == if Live(after, ip, networkId) then 1 else 0
    {
      ReplayAppend(db.history, Entry(a.ip, a.networkId, Released), ip, networkId);
      if Live(db, ip, networkId) && !(ip == a.ip && networkId == a.networkId) {
        var b :| b in db.allocations && b.ip == ip && b.networkId == networkId;
        assert b in after.allocations;
      }
    }
  }

  // What an operation that only rewrites a row leaves alone.
  function Key(a: Allocation): (nat, Ip, nat) {
    (a.id, a.ip, a.networkId)
  }

  ghost function Keys(rows: set<Allocation>): set<(nat, Ip, nat)> {
    set a | a in rows :: Key(a)
  }

  // `rows` are the rows of `table` with other fields changed.
  ghost predicate Rewrites(table: set<Allocation>, rows: set<Allocation>) {
    Keys(rows) == Keys(table) && forall b, c :: b in rows && c in rows && b.id == c.id ==> b == c
  }

  lemma KeyFound(rows: set<Allocation>, table: set<Allocation>, b: Allocation) returns (a: Allocation)
    requires Keys(rows) == Keys(table) && b in rows
    ensures a in table && Key(a) == Key(b)
  {
    assert Key(b) in Keys(table);
    a :| a in table && Key(a) == Key(b);
  }

  // Rows may change in place as long as id, address and network stay, and the log only gains
  // "modified" entries for addresses in use.
  lemma RewriteKeeps(db: Db, rows: set<Allocation>, log: seq<Entry>)
    requires Valid(db) && Rewrites(db.allocations, rows)
    requires |log| <= 1 && forall e :: e in log ==> e.action == Modified && Live(db, e.ip, e.networkId)
    ensures Valid(db.(allocations := rows, history := db.history + log))
  {
    var after := db.(allocations := rows, history := db.history + log);
    forall b | b in rows ensures RowHasNetwork(after, b) && 0 < b.id < after.nextId {
      var a := KeyFound(rows, db.allocations, b);
      assert RowHasNetwork(db, a);
    }
    forall p | p in after.pools ensures PoolHasNetwork(after, p) {
      assert PoolHasNetwork(db, p);
    }
    forall b, c | b in rows && c in rows && b.ip == c.ip ensures b == c {
      var _ := KeyFound(rows, db.allocations, b);
      var _ := KeyFound(rows, db.allocations, c);
    }
    RewriteKeepsLedger(db, rows, log);
  }

  lemma RewriteKeepsLedger(db: Db, rows: set<Allocation>, log: seq<Entry>)
    requires Ledger(db) && Rewrites(db.allocations, rows)
    requires |log| <= 1 && forall e :: e in log ==> e.action == Modified && Live(db, e.ip, e.networkId)
    ensures Ledger(db.(allocations := rows, history := db.history + log))
  {
    var after := db.(allocations := rows, history := db.history + log);
    forall ip: Ip, networkId: nat
      ensures Replay(after.history, ip, networkId) == if Live(after, ip, networkId) then 1 else 0
    {
      if Live(db, ip, networkId) {
        var a :| a in db.allocations && a.ip == ip && a.networkId == networkId;
        var _ := KeyFound(db.allocations, rows, a);
      }
      if Live(after, ip, networkId) {
        var b :| b in rows && b.ip == ip && b.networkId == networkId;
        var _ := KeyFound(rows, db.allocations, b);
      }
      if log == [] {
        assert after.history == db.history;
      } else {
        assert log == [log[0]];
        ReplayAppend(db.history, log[0], ip, networkId);
      }
    }
  }

  lemma ReplacedRewrites(table: set<Allocation>, a: Allocation, b: Allocation)
    requires a in table && Key(a) == Key(b)
    requires forall x, y :: x in table && y in table && x.id == y.id ==> x == y
    ensures Rewrites(table, table - {a} + {b})
  {
  }

  lemma UpdateKeeps(db: Db, ip: Ip, patch: Patch)
    requires Valid(db)
    ensures Valid(Update(db, ip, patch))
  {
    if FindRow(db, ip).Some? {
      var a := FindRow(db, ip).value;
      ReplacedRewrites(db.allocations, a, Patched(a, patch));
      RewriteKeeps(db, db.allocations - {a} + {Patched(a, patch)}, [Entry(ip, a.networkId, Modified)]);
    }
  }

  lemma MarkedRewrites(table: set<Allocation>, g: Guest, id: nat)
    requires forall x, y :: x in table && y in table && x.id == y.id ==> x == y
    ensures Rewrites(table, set a | a in table :: Marked(a, g, id))
  {
    var rows := set a | a in table :: Marked(a, g, id);
    forall k | k in Keys(table) ensures k in Keys(rows) {
      var a :| a in table && Key(a) == k;
      assert Marked(a, g, id) in rows && Key(Marked(a, g, id)) == k;
    }
  }

  lemma SetPrimaryKeeps(db: Db, g: Guest, id: nat)
    requires Valid(db)
    ensures Valid(SetPrimary(db, g, id))
  {
    if exists a :: IsTarget(db, g, id, a) {
      var target :| IsTarget(db, g, id, target);
      MarkedRewrites(db.allocations, g, id);
      RewriteKeeps(db, set a | a in db.allocations :: Marked(a, g, id), [Entry(target.ip, target.networkId, Modified)]);
      SetPrimaryIs(db, g, id, target);
    }
  }

  // Ids are unique, so the choice of the target row is no choice.
  lemma SetPrimaryIs(db: Db, g: Guest, id: nat, target: Allocation)
    requires IdsUnique(db) && IsTarget(db, g, id, target)
    ensures SetPrimary(db, g, id) ==
            db.(allocations := (set a | a in db.allocations :: Marked(a, g, id)),
                history := db.history + [Entry(target.ip, target.networkId, Modified)])
  {
  }

  lemma SyncKeeps(db: Db, networkId: nat, g: Guest, ip: Ip, kind: string)
    requires Valid(db)
    ensures Valid(Sync(db, networkId, g, ip, kind))
  {
    UpdateKeeps(db, ip, Rebinding(g));
    AllocateKeeps(db, SyncRequest(db, networkId, g, ip, kind));
  }

  // ---------- groups of rows ----------

  function Elements(rows: seq<Allocation>): set<Allocation> {
    set a | a in rows
  }

  lemma {:induction false} ReleaseEachEffect(db: Db, rows: seq<Allocation>)
    ensures ReleaseEach(db, rows) ==
            db.(allocations := db.allocations - Elements(rows), history := ReleaseEach(db, rows).history)
  {
    if rows == [] {
      assert Elements(rows) == {};
    } else {
      var front, last := rows[..|rows| - 1], rows[|rows| - 1];
      ReleaseEachEffect(db, front);
      assert Elements(rows) == Elements(front) + {last};
    }
  }

  lemma {:induction false} ReleaseEachKeeps(db: Db, rows: seq<Allocation>)
    requires Valid(db)
    requires forall i :: 0 <= i < |rows| ==> rows[i] in db.allocations
    requires forall i, j :: 0 <= i < j < |rows| ==> rows[i] != rows[j]
    ensures Valid(ReleaseEach(db, rows))
  {
    if rows != [] {
      var front, last := rows[..|rows| - 1], rows[|rows| - 1];
      ReleaseEachKeeps(db, front);
      ReleaseEachEffect(db, front);
      assert last !in front;
      ReleaseRowKeeps(ReleaseEach(db, front), last);
    }
  }

  // Deleting a guest takes all its active rows and, when it has none, old rows that carry its number
  // but no server; a row of another server never goes.
  lemma GuestReleaseIsExact(db: Db, g: Guest, order: seq<Allocation>)
    requires Lists(order, ReleasedWith(db, g))
    ensures var after := ReleaseEach(db, order);
            && after.allocations == db.allocations - ReleasedWith(db, g)
            && ActiveOf(after, g) == {}
            && (forall a :: a in db.allocations && a.server.Some? && a !in after.allocations ==>
                  HeldBy(a, Some(g.server), Some(g.vmid)) && Active(a))
  {
    ReleaseEachEffect(db, order);
    assert Elements(order) == ReleasedWith(db, g);
    assert forall a :: a in ActiveOf(ReleaseEach(db, order), g) ==> a in ActiveOf(db, g);
  }

  // Orphan cleanup takes precisely the orphans, and a second scan finds none.
  lemma CleanupIsExact(db: Db, order: seq<Allocation>)
    requires Lists(order, Orphans(db))
    ensures ReleaseEach(db, order).allocations == db.allocations - Orphans(db)
    ensures Orphans(ReleaseEach(db, order)) == {}
  {
    ReleaseEachEffect(db, order);
    assert Elements(order) == Orphans(db);
    assert forall a :: a in Orphans(ReleaseEach(db, order)) ==> a in Orphans(db);
  }

  // ---------- networks ----------

  // A rewritten network table that keeps ids and CIDRs keeps everything that depends on them.
  lemma NetworkRewriteKeeps(db: Db, ns: set<Network>, nextId: nat)
    requires Valid(db)
    requires db.nextId <= nextId
    requires Cidrs(db.networks) <= Cidrs(ns)
    requires forall n, m :: n in ns && m in ns && n.id == m.id ==> n == m
    requires forall n :: n in ns ==> 0 < n.id < nextId
    requires OneDefaultPerWorkspace(ns)
    ensures Valid(db.(networks := ns, nextId := nextId))
  {
    var after := db.(networks := ns, nextId := nextId);
    forall a | a in after.allocations ensures RowHasNetwork(after, a) {
      assert RowHasNetwork(db, a);
      var n :| n in db.networks && n.id == a.networkId && InNetwork(n, a.ip);
      var m := CidrFound(db.networks, ns, n);
      assert InNetwork(m, a.ip);
    }
    forall p | p in after.pools ensures PoolHasNetwork(after, p) {
      assert PoolHasNetwork(db, p);
      var n :| n in db.networks && n.id == p.networkId && InNetwork(n, p.start) && InNetwork(n, p.end);
      var m := CidrFound(db.networks, ns, n);
      assert InNetwork(m, p.start) && InNetwork(m, p.end);
    }
    assert Ledger(after) by {
      forall ip: Ip, networkId: nat
        ensures Replay(after.history, ip, networkId) == if Live(after, ip, networkId) then 1 else 0
      {
        assert Live(after, ip, networkId) <==> Live(db, ip, networkId);
      }
    }
  }

  function Cidr(n: Network): (nat, Ip, Prefix) {
    (n.id, n.address, n.prefix)
  }

  ghost function Cidrs(ns: set<Network>): set<(nat, Ip, Prefix)> {
    set n | n in ns :: Cidr(n)
  }

  lemma CidrFound(ns: set<Network>, ms: set<Network>, n: Network) returns (m: Network)
    requires Cidrs(ns) <= Cidrs(ms) && n in ns
    ensures m in ms && Cidr(m) == Cidr(n)
    ensures forall ip :: InNetwork(m, ip) <==> InNetwork(n, ip)
  {
    assert Cidr(n) in Cidrs(ms);
    m :| m in ms && Cidr(m) == Cidr(n);
  }

  // After the siblings are cleared `n` is the only default of its workspace.
  lemma SingleDefault(ns: set<Network>, n: Network)
    requires n in ns && OneDefaultPerWorkspace(ns - {n})
    requires forall a, b :: a in ns && b in ns && a.id == b.id ==> a == b
    ensures OneDefaultPerWorkspace(EnforceSingleDefault(ns, n))
  {
  }

  lemma EnforceKeepsCidrs(ns: set<Network>, n: Network)
    requires forall a, b :: a in ns && b in ns && a.id == b.id ==> a == b
    ensures Cidrs(EnforceSingleDefault(ns, n)) == Cidrs(ns)
    ensures var out := EnforceSingleDefault(ns, n); forall a, b :: a in out && b in out && a.id == b.id ==> a == b
  {
    var out := EnforceSingleDefault(ns, n);
    forall k | k in Cidrs(ns) ensures k in Cidrs(out) {
      var a :| a in ns && Cidr(a) == k;
      if n.isDefault && n.workspace.Some? {
        assert Sibling(a, n) in out && Cidr(Sibling(a, n)) == k;
      }
    }
  }

  lemma CreateNetworkKeeps(db: Db, draft: Network)
    requires Valid(db)
    ensures Valid(CreateNetwork(db, draft))
  {
    if !exists n :: n in db.networks && n.address == draft.address && n.prefix == draft.prefix {
      var n := draft.(id := db.nextId);
      var ns := db.networks + {n};
      assert ns - {n} == db.networks;
      SingleDefault(ns, n);
      EnforceKeepsCidrs(ns, n);
      IdsOfCidrs(EnforceSingleDefault(ns, n), ns, db.nextId + 1);
      assert Cidrs(db.networks) <= Cidrs(ns);
      NetworkRewriteKeeps(db, EnforceSingleDefault(ns, n), db.nextId + 1);
    }
  }

  lemma IdsOfCidrs(ns: set<Network>, ms: set<Network>, bound: nat)
    requires Cidrs(ns) == Cidrs(ms) && forall m :: m in ms ==> 0 < m.id < bound
    ensures forall n :: n in ns ==> 0 < n.id < bound
  {
    forall n | n in ns ensures 0 < n.id < bound {
      var _ := CidrFound(ns, ms, n);
    }
  }

  lemma UpdateNetworkKeeps(db: Db, id: nat, patch: NetworkPatch)
    requires Valid(db)
    ensures Valid(UpdateNetwork(db, id, patch))
  {
    if FindNetwork(db, id).Some? {
      var n := FindNetwork(db, id).value;
      var m := NetworkPatched(n, patch);
      var ns := db.networks - {n} + {m};
      assert ns - {m} <= db.networks;
      SingleDefault(ns, m);
      EnforceKeepsCidrs(ns, m);
      IdsOfCidrs(EnforceSingleDefault(ns, m), ns, db.nextId);
      forall k | k in Cidrs(db.networks) ensures k in Cidrs(ns) {
        var a :| a in db.networks && Cidr(a) == k;
        assert (if a == n then m else a) in ns;
      }
      NetworkRewriteKeeps(db, EnforceSingleDefault(ns, m), db.nextId);
    }
  }

  // Rows, pools and log of the network go together, so the ledger balances on both sides.
  lemma DeleteNetworkKeeps(db: Db, id: nat, force: bool)
    requires Valid(db)
    ensures Valid(DeleteNetwork(db, id, force))
  {
    var after := DeleteNetwork(db, id, force);
    if after != db {
      forall a | a in after.allocations ensures RowHasNetwork(after, a) {
        assert RowHasNetwork(db, a);
        var n :| n in db.networks && n.id == a.networkId && InNetwork(n, a.ip);
        assert n in after.networks;
      }
      forall p | p in after.pools ensures PoolHasNetwork(after, p) {
        assert PoolHasNetwork(db, p);
        var n :| n in db.networks && n.id == p.networkId && InNetwork(n, p.start) && InNetwork(n, p.end);
        assert n in after.networks;
      }
      forall ip: Ip, networkId: nat
        ensures Replay(after.history, ip, networkId) == if Live(after, ip, networkId) then 1 else 0
      {
        ReplayWithout(db.history, id, ip, networkId);
        if Live(db, ip, networkId) && networkId != id {
          var a :| a in db.allocations && a.ip == ip && a.networkId == networkId;
          assert a in after.allocations;
        }
      }
    }
  }

  // ---------- pools ----------

  lemma PoolTableKeeps(db: Db, after: Db)
    requires Valid(db)
    requires after == db.(pools := after.pools, nextId := after.nextId) && db.nextId <= after.nextId
    requires forall p :: p in after.pools ==> 0 < p.id < after.nextId
    requires forall p, q :: p in after.pools && q in after.pools && p.id == q.id ==> p == q
    requires PoolsDisjoint(after)
    ensures Valid(after)
  {
  }

  lemma CreatePoolKeeps(db: Db, draft: Pool)
    requires Valid(db)
    ensures Valid(CreatePool(db, draft))
  {
    var after := CreatePool(db, draft);
    if RangeAccepted(db, draft.networkId, draft.start, draft.end, None) {
      forall p | p in after.pools ensures p.start <= p.end && PoolHasNetwork(after, p) {
        if p in db.pools {
          assert PoolHasNetwork(db, p);
        } else {
          assert FindNetwork(db, draft.networkId).value in after.networks;
        }
      }
      PoolTableKeeps(db, after);
    }
  }

  lemma UpdatePoolKeeps(db: Db, id: nat, patch: PoolPatch)
    requires Valid(db)
    ensures Valid(UpdatePool(db, id, patch))
  {
    var after := UpdatePool(db, id, patch);
    if FindPool(db, id).Some? && after != db {
      var p := FindPool(db, id).value;
      var q := PoolPatched(p, patch);
      forall x | x in after.pools ensures x.start <= x.end && PoolHasNetwork(after, x) {
        if x in db.pools {
          assert PoolHasNetwork(db, x);
        } else if patch.start.Some? || patch.end.Some? {
          assert FindNetwork(db, p.networkId).value in after.networks;
        } else {
          assert PoolHasNetwork(db, p);
        }
      }
      forall x, y | x in after.pools && y in after.pools && x.networkId == y.networkId && Overlap(x.start, x.end, y)
        ensures x == y
      {
        assert Overlap(y.start, y.end, x);
      }
      PoolTableKeeps(db, after);
    }
  }

  lemma UntaggedRewrites(table: set<Allocation>, poolId: nat)
    requires forall x, y :: x in table && y in table && x.id == y.id ==> x == y
    ensures Rewrites(table, set a | a in table :: Untagged(a, poolId))
  {
    var rows := set a | a in table :: Untagged(a, poolId);
    forall k | k in Keys(table) ensures k in Keys(rows) {
      var a :| a in table && Key(a) == k;
      assert Untagged(a, poolId) in rows && Key(Untagged(a, poolId)) == k;
    }
  }

  lemma DeletePoolKeeps(db: Db, id: nat)
    requires Valid(db)
    ensures Valid(DeletePool(db, id))
  {
    if FindPool(db, id).Some? {
      var rows := set a | a in db.allocations :: Untagged(a, id);
      UntaggedRewrites(db.allocations, id);
      RewriteKeeps(db, rows, []);
      var mid := db.(allocations := rows, history := db.history + []);
      assert db.history + [] == db.history;
      var after := DeletePool(db, id);
      assert after == mid.(pools := after.pools);
      forall p | p in after.pools ensures PoolHasNetwork(after, p) {
        assert PoolHasNetwork(mid, p);
      }
      PoolTableKeeps(mid, after);
    }
  }

  // ---------- runs ----------

  datatype Step =
    | NetworkCreated(draft: Network)
    | NetworkUpdated(networkId: nat, networkPatch: NetworkPatch)
    | NetworkDeleted(networkId: nat, force: bool)
    | PoolCreated(pool: Pool)
    | PoolUpdated(poolId: nat, poolPatch: PoolPatch)
    | PoolDeleted(poolId: nat)
    | AddressAllocated(req: Request)
    | AddressReleased(ip: Ip)
    | AddressUpdated(ip: Ip, patch: Patch)
    | PrimarySet(guest: Guest, allocationId: nat)
    | Synced(networkId: nat, guest: Guest, ip: Ip, kind: string)
    | GuestReleased(guest: Guest, order: seq<Allocation>)
    | ServerReleased(server: nat, order: seq<Allocation>)
    | OrphansCleaned(order: seq<Allocation>)
    | InventoryChanged(guests: map<Guest, Option<Ip>>, servers: map<nat, Option<Ip>>)

  // A step that releases a query result names the order in which the rows came back.
  ghost predicate Enabled(db: Db, s: Step) {
    match s
    case GuestReleased(g, order) => Lists(order, ReleasedWith(db, g))
    case ServerReleased(server, order) => Lists(order, ActiveOnServer(db, server))
    case OrphansCleaned(order) => Lists(order, Orphans(db))
    case _ => true
  }

  ghost function Next(db: Db, s: Step): Db
    requires Enabled(db, s)
  {
    match s
    case NetworkCreated(draft) => CreateNetwork(db, draft)
    case NetworkUpdated(id, patch) => UpdateNetwork(db, id, patch)
    case NetworkDeleted(id, force) => DeleteNetwork(db, id, force)
    case PoolCreated(pool) => CreatePool(db, pool)
    case PoolUpdated(id, patch) => UpdatePool(db, id, patch)
    case PoolDeleted(id) => DeletePool(db, id)
    case AddressAllocated(req) => Allocate(db, req)
    case AddressReleased(ip) => Release(db, ip)
    case AddressUpdated(ip, patch) => Update(db, ip, patch)
    case PrimarySet(g, id) => SetPrimary(db, g, id)
    case Synced(networkId, g, ip, kind) => Sync(db, networkId, g, ip, kind)
    case GuestReleased(_, order) => ReleaseEach(db, order)
    case ServerReleased(_, order) => ReleaseEach(db, order)
    case OrphansCleaned(order) => ReleaseEach(db, order)
    case InventoryChanged(guests, servers) => db.(guests := guests, servers := servers)
  }

  ghost predicate IsRun(states: seq<Db>, steps: seq<Step>) {
    && |states| == |steps| + 1
    && states[0] == EMPTY
    && forall i :: 0 <= i < |steps| ==> Enabled(states[i], steps[i]) && states[i + 1] == Next(states[i], steps[i])
  }

  lemma InventoryKeeps(db: Db, guests: map<Guest, Option<Ip>>, servers: map<nat, Option<Ip>>)
    requires Valid(db)
    ensures Valid(db.(guests := guests, servers := servers))
  {
  }

  lemma StepKeeps(db: Db, s: Step)
    requires Valid(db) && Enabled(db, s)
    ensures Valid(Next(db, s))
  {
    match s
    case NetworkCreated(draft) => CreateNetworkKeeps(db, draft);
    case NetworkUpdated(id, patch) => UpdateNetworkKeeps(db, id, patch);
    case NetworkDeleted(id, force) => DeleteNetworkKeeps(db, id, force);
    case PoolCreated(pool) => CreatePoolKeeps(db, pool);
    case PoolUpdated(id, patch) => UpdatePoolKeeps(db, id, patch);
    case PoolDeleted(id) => DeletePoolKeeps(db, id);
    case AddressAllocated(req) => AllocateKeeps(db, req);
    case AddressReleased(ip) => if FindRow(db, ip).Some? { ReleaseRowKeeps(db, FindRow(db, ip).value); }
    case AddressUpdated(ip, patch) => UpdateKeeps(db, ip, patch);
    case PrimarySet(g, id) => SetPrimaryKeeps(db, g, id);
    case Synced(networkId, g, ip, kind) => SyncKeeps(db, networkId, g, ip, kind);
    case GuestReleased(_, order) => ReleaseEachKeeps(db, order);
    case ServerReleased(_, order) => ReleaseEachKeeps(db, order);
    case OrphansCleaned(order) => ReleaseEachKeeps(db, order);
    case InventoryChanged(guests, servers) => InventoryKeeps(db, guests, servers);
  }

  // The invariant holds in every state of every run.
  lemma {:induction false} RunKeeps(states: seq<Db>, steps: seq<Step>, i: nat)
    requires IsRun(states, steps) && i < |states|
    ensures Valid(states[i])
  {
    if i == 0 {
      assert forall ip: Ip, networkId: nat :: !Live(EMPTY, ip, networkId);
    } else {
      RunKeeps(states, steps, i - 1);
      StepKeeps(states[i - 1], steps[i - 1]);
    }
  }

  // ---------- several steps in a row ----------

  ghost predicate Possible(db: Db, steps: seq<Step>)
    decreases |steps|
  {
    steps == [] || (Enabled(db, steps[0]) && Possible(Next(db, steps[0]), steps[1..]))
  }

  // The state that steps lead to.
  ghost function After(db: Db, steps: seq<Step>): Db
    decreases |steps|
  {
    if steps == [] || !Enabled(db, steps[0]) then db else After(Next(db, steps[0]), steps[1..])
  }

  lemma {:induction false} AfterKeeps(db: Db, steps: seq<Step>)
    requires Valid(db) && Possible(db, steps)
    ensures Valid(After(db, steps))
    decreases |steps|
  {
    if steps != [] {
      StepKeeps(db, steps[0]);
      AfterKeeps(Next(db, steps[0]), steps[1..]);
    }
  }

  lemma {:induction false} AfterAppend(db: Db, steps: seq<Step>, more: seq<Step>)
    requires Possible(db, steps) && Possible(After(db, steps), more)
    ensures Possible(db, steps + more) && After(db, steps + more) == After(After(db, steps), more)
    decreases |steps|
  {
    if steps == [] {
      assert steps + more == more;
    } else {
      AfterAppend(Next(db, steps[0]), steps[1..], more);
      assert (steps + more)[1..] == steps[1..] + more;
    }
  }

  lemma EmptyRun()
    ensures IsRun([EMPTY], [])
  {
  }

  // A run goes on with any steps that are possible where it stands.
  lemma {:induction false} RunGoesOn(states: seq<Db>, steps: seq<Step>, more: seq<Step>) returns (longer: seq<Db>)
    requires IsRun(states, steps) && Possible(states[|steps|], more)
    ensures IsRun(longer, steps + more) && longer[|steps + more|] == After(states[|steps|], more)
    decreases |more|
  {
    if more == [] {
      assert steps + more == steps;
      longer := states;
    } else {
      var next := Next(states[|steps|], more[0]);
      RunGoesOnOnce(states, steps, more[0]);
      longer := RunGoesOn(states + [next], steps + [more[0]], more[1..]);
      assert steps + [more[0]] + more[1..] == steps + more;
    }
  }

  lemma RunGoesOnOnce(states: seq<Db>, steps: seq<Step>, step: Step)
    requires IsRun(states, steps) && Enabled(states[|steps|], step)
    ensures IsRun(states + [Next(states[|steps|], step)], steps + [step])
  {
    var longer, all := states + [Next(states[|steps|], step)], steps + [step];
    assert forall i :: 0 <= i < |states| ==> longer[i] == states[i];
    assert forall i :: 0 <= i < |steps| ==> all[i] == steps[i];
  }

  // The first network of empty tables.
  lemma FirstNetwork(draft: Network)
    requires !draft.isDefault
    ensures CreateNetwork(EMPTY, draft) == EMPTY.(networks := {draft.(id := 1)}, nextId := 2)
  {
    assert EMPTY.networks + {draft.(id := 1)} == {draft.(id := 1)};
  }

  // Allocation where there is one network and no pool.
  lemma AllocatedWithoutPools(db: Db, n: Network, req: Request)
    requires db.networks == {n} && db.pools == {} && req.networkId == n.id && InNetwork(n, req.ip) && n.gateway == None
    requires (forall a :: a in db.allocations ==> a.ip != req.ip) && req.poolId == None
    ensures Allocate(db, req) ==
            db.(allocations := db.allocations + {Allocation(db.nextId, n.id, None, req.ip, req.resourceId, req.server, req.vmid,
                                                            req.status, PrimaryFlag(db, req), req.kind)},
                history := db.history + [Entry(req.ip, n.id, Allocated)], nextId := db.nextId + 1)
  {
    assert FindNetwork(db, n.id) == Some(n);
    assert PoolFor(db, req.networkId, req.ip) == None;
  }

  // In every reachable state, for every address of every network: "allocated" minus "released"
  // entries is the number of rows, which is 0 or 1.
  lemma HistoryAccountsForRows(states: seq<Db>, steps: seq<Step>, i: nat, ip: Ip, networkId: nat)
    requires IsRun(states, steps) && i < |states|
    ensures var h := states[i].history;
            CountOf(h, ip, networkId, Allocated) - CountOf(h, ip, networkId, Released) ==
            |set a | a in states[i].allocations && a.ip == ip && a.networkId == networkId|
    ensures |set a | a in states[i].allocations && a.ip == ip| <= 1
  {
    RunKeeps(states, steps, i);
    var db := states[i];
    ReplayCounts(db.history, ip, networkId);
    var here := set a | a in db.allocations && a.ip == ip && a.networkId == networkId;
    var all := set a | a in db.allocations && a.ip == ip;
    if Live(db, ip, networkId) {
      var a :| a in db.allocations && a.ip == ip && a.networkId == networkId;
      assert here == {a};
    } else {
      assert here == {};
    }
    if a :| a in all {
      assert all == {a};
    }
  }

  // In every reachable state two pools of a network share no address and each lies in its CIDR.
  lemma PoolsOfRunsAreDisjoint(states: seq<Db>, steps: seq<Step>, i: nat, p: Pool, q: Pool, n: Network, ip: Ip)
    requires IsRun(states, steps) && i < |states|
    requires p in states[i].pools && q in states[i].pools && p.networkId == q.networkId && p != q
    requires n in states[i].networks && n.id == p.networkId
    ensures p.start <= p.end
    ensures InRange(p, ip) ==> InNetwork(n, ip) && !InRange(q, ip)
  {
    RunKeeps(states, steps, i);
    assert PoolHasNetwork(states[i], p);
  }
}
