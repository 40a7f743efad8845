/**
 Linking discovered addresses to guests: discovery never takes an address from a live guest, and
 linking the same discoveries again changes nothing.
 */
module IpamDiscovery {
  import opened Wrappers
  import opened IpamModel
  import opened IpamLedger

  datatype Found = Found(ip: Ip, networkId: nat)

  predicate IsLoopback(ip: Ip) {
    ip / 0x100_0000 == 127
  }

  predicate IsLinkLocal(ip: Ip) {
    ip / 0x1_0000 == 169 * 256 + 254
  }

  // The address a.b.c.d.
  function Dotted(a: nat, b: nat, c: nat, d: nat): Ip
    requires a < 256 && b < 256 && c < 256 && d < 256
  {
    ((a * 256 + b) * 256 + c) * 256 + d
  }

  // The addresses passed over are 127.*.*.* and 169.254.*.*.
  lemma PassedOver(a: nat, b: nat, c: nat, d: nat)
    requires a < 256 && b < 256 && c < 256 && d < 256
    ensures IsLoopback(Dotted(a, b, c, d)) <==> a == 127
    ensures IsLinkLocal(Dotted(a, b, c, d)) <==> a == 169 && b == 254
  {
  }

  ghost predicate FirstMatch(networks: seq<Network>, ip: Ip, networkId: nat) {
    exists k :: 0 <= k < |networks| && InNetwork(networks[k], ip) && networks[k].id == networkId &&
                forall m :: 0 <= m < k ==> !InNetwork(networks[m], ip)
  }

  predicate Usable(networks: seq<Network>, ip: Ip) {
    !IsLoopback(ip) && !IsLinkLocal(ip) && exists k :: 0 <= k < |networks| && InNetwork(networks[k], ip)
  }

  // Which addresses of the report are listed before position (i, j). An address is absent for IPv6
  // and for text that is no address.
  ghost predicate ReportedBefore(interfaces: seq<seq<Option<Ip>>>, i: int, j: int, ip: Ip) {
    exists a, b :: 0 <= a < |interfaces| && 0 <= b < |interfaces[a]| && (a < i || (a == i && b < j)) &&
                   interfaces[a][b] == Some(ip)
  }

  ghost predicate Collected(found: seq<Found>, interfaces: seq<seq<Option<Ip>>>, networks: seq<Network>, i: int, j: int) {
    && (forall k :: 0 <= k < |found| ==> ReportedBefore(interfaces, i, j, found[k].ip) && Usable(networks, found[k].ip) &&
                                         FirstMatch(networks, found[k].ip, found[k].networkId))
    && (forall k, m :: 0 <= k < m < |found| ==> found[k].ip != found[m].ip)
    && (forall ip: Ip :: ReportedBefore(interfaces, i, j, ip) && Usable(networks, ip) ==>
          Listed(found, ip))
  }

  method MatchNetwork(networks: seq<Network>, ip: Ip) returns (networkId: Option<nat>)
    ensures networkId.Some? ==> FirstMatch(networks, ip, networkId.value)
    ensures networkId.None? <==> forall k :: 0 <= k < |networks| ==> !InNetwork(networks[k], ip)
  {
    for k := 0 to |networks|
      invariant forall m :: 0 <= m < k ==> !InNetwork(networks[m], ip)
    {
      if InNetwork(networks[k], ip) {
        return Some(networks[k].id);
      }
    }
    networkId := None;
  }

  // The report gets to `x` before it gets to `y`.
  ghost predicate MentionedFirst(interfaces: seq<seq<Option<Ip>>>, x: Ip, y: Ip) {
    exists i, j :: ReportedBefore(interfaces, i, j, x) && !ReportedBefore(interfaces, i, j, y)
  }

  ghost predicate InMentionOrder(found: seq<Found>, interfaces: seq<seq<Option<Ip>>>) {
    forall k, m :: 0 <= k < m < |found| ==> MentionedFirst(interfaces, found[k].ip, found[m].ip)
  }

  // Every usable address of the report once, in the order of first mention, with the first network
  // that contains it.
  method ExtractIpv4s(interfaces: seq<seq<Option<Ip>>>, networks: seq<Network>) returns (found: seq<Found>)
    ensures Collected(found, interfaces, networks, |interfaces|, 0)
    ensures InMentionOrder(found, interfaces)
  {
    var seen: set<Ip> := {};
    found := [];
    for i := 0 to |interfaces|
      invariant Collected(found, interfaces, networks, i, 0) && Seen(seen, found) && InMentionOrder(found, interfaces)
    {
      for j := 0 to |interfaces[i]|
        invariant Collected(found, interfaces, networks, i, j) && Seen(seen, found) && InMentionOrder(found, interfaces)
      {
        ghost var before := found;
        seen, found := Consider(interfaces[i][j], networks, seen, found);
        OrderExtend(before, found, interfaces, networks, i, j);
        CollectedExtend(before, found, interfaces, networks, i, j);
      }
      NextInterface(found, interfaces, networks, i);
    }
  }

  ghost predicate Listed(found: seq<Found>, ip: Ip) {
    exists k :: 0 <= k < |found| && found[k].ip == ip
  }

  ghost predicate Seen(seen: set<Ip>, found: seq<Found>) {
    forall ip: Ip :: ip in seen <==> Listed(found, ip)
  }

  lemma NextInterface(found: seq<Found>, interfaces: seq<seq<Option<Ip>>>, networks: seq<Network>, i: int)
    requires 0 <= i < |interfaces| && Collected(found, interfaces, networks, i, |interfaces[i]|)
    ensures Collected(found, interfaces, networks, i + 1, 0)
  {
  }

  // The list after one more address, taken up or passed over.
  ghost predicate Considered(info: Option<Ip>, networks: seq<Network>, before: seq<Found>, after: seq<Found>) {
    if info.None? || Listed(before, info.value) || !Usable(networks, info.value) then after == before
    else |after| == |before| + 1 && after[..|before|] == before && after[|before|].ip == info.value &&
         FirstMatch(networks, info.value, after[|before|].networkId)
  }

  method Consider(info: Option<Ip>, networks: seq<Network>, seen: set<Ip>, found: seq<Found>)
    returns (seen': set<Ip>, found': seq<Found>)
    requires Seen(seen, found)
    ensures Considered(info, networks, found, found') && Seen(seen', found')
  {
    seen', found' := seen, found;
    if info.None? || info.value in seen || IsLoopback(info.value) || IsLinkLocal(info.value) {
      return;
    }
    var networkId := MatchNetwork(networks, info.value);
    if networkId.Some? {
      seen' := seen + {info.value};
      found' := found + [Found(info.value, networkId.value)];
      assert found'[|found|].ip == info.value;
      assert forall k :: 0 <= k < |found| ==> found'[k] == found[k];
    }
  }

  lemma CollectedExtend(before: seq<Found>, found: seq<Found>, interfaces: seq<seq<Option<Ip>>>, networks: seq<Network>, i: int, j: int)
    requires 0 <= i < |interfaces| && 0 <= j < |interfaces[i]|
    requires Collected(before, interfaces, networks, i, j)
    requires Considered(interfaces[i][j], networks, before, found)
    ensures Collected(found, interfaces, networks, i, j + 1)
  {
    forall ip: Ip
      ensures ReportedBefore(interfaces, i, j + 1, ip) <==> ReportedBefore(interfaces, i, j, ip) || interfaces[i][j] == Some(ip)
    {
    }
    assert forall k :: 0 <= k < |before| ==> found[k] == before[k];
    forall ip | Listed(before, ip) ensures Listed(found, ip) {
      var k :| 0 <= k < |before| && before[k].ip == ip;
      assert found[k].ip == ip;
    }
  }

  // A new address was not mentioned before, while all those listed were.
  lemma OrderExtend(before: seq<Found>, found: seq<Found>, interfaces: seq<seq<Option<Ip>>>, networks: seq<Network>, i: int, j: int)
    requires 0 <= i < |interfaces| && 0 <= j < |interfaces[i]|
    requires Collected(before, interfaces, networks, i, j) && InMentionOrder(before, interfaces)
    requires Considered(interfaces[i][j], networks, before, found)
    ensures InMentionOrder(found, interfaces)
  {
    forall k, m | 0 <= k < m < |found| ensures MentionedFirst(interfaces, found[k].ip, found[m].ip) {
      assert found[k] == before[k];
      if m < |before| {
        assert found[m] == before[m];
      } else {
        assert ReportedBefore(interfaces, i, j, found[k].ip) && !ReportedBefore(interfaces, i, j, found[m].ip);
      }
    }
  }

  // ---------- one synchronisation ----------

  // A row bound to a guest that exists stays bound to it, whoever reports the address.
  lemma SyncSparesLive(db: Db, networkId: nat, g: Guest, ip: Ip, kind: string, a: Allocation)
    requires AddressesUnique(db) && a in db.allocations && GuestExists(db, a.server, a.vmid)
    ensures a in Sync(db, networkId, g, ip, kind).allocations
  {
  }

  datatype Call = Call(networkId: nat, guest: Guest, ip: Ip, kind: string)

  ghost function SyncEach(db: Db, calls: seq<Call>): Db {
    if calls == [] then db
    else
      var c := calls[|calls| - 1];
      Sync(SyncEach(db, calls[..|calls| - 1]), c.networkId, c.guest, c.ip, c.kind)
  }

  lemma SyncFrame(db: Db, networkId: nat, g: Guest, ip: Ip, kind: string)
    ensures var after := Sync(db, networkId, g, ip, kind);
            after.guests == db.guests && after.networks == db.networks && after.servers == db.servers && after.pools == db.pools
  {
  }

  // Over any sequence of discoveries a live guest keeps every address it holds.
  lemma {:induction false} SyncsSpareLive(db: Db, calls: seq<Call>, a: Allocation)
    requires Valid(db) && a in db.allocations && GuestExists(db, a.server, a.vmid)
    ensures Valid(SyncEach(db, calls)) && SyncEach(db, calls).guests == db.guests
    ensures a in SyncEach(db, calls).allocations
  {
    if calls != [] {
      var before, c := SyncEach(db, calls[..|calls| - 1]), calls[|calls| - 1];
      SyncsSpareLive(db, calls[..|calls| - 1], a);
      SyncSparesLive(before, c.networkId, c.guest, c.ip, c.kind, a);
      SyncKeeps(before, c.networkId, c.guest, c.ip, c.kind);
      SyncFrame(before, c.networkId, c.guest, c.ip, c.kind);
    }
  }

  // ---------- the linking loop ----------

  ghost predicate BoundTo(db: Db, ip: Ip, g: Guest) {
    exists a :: a in db.allocations && a.ip == ip && HeldBy(a, Some(g.server), Some(g.vmid))
  }

  ghost predicate BoundToLive(db: Db, ip: Ip) {
    exists a :: a in db.allocations && a.ip == ip && GuestExists(db, a.server, a.vmid)
  }

  ghost predicate NetworkRefuses(db: Db, f: Found) {
    match FindNetwork(db, f.networkId)
    case None => true
    case Some(n) => !InNetwork(n, f.ip) || n.gateway == Some(f.ip)
  }

  // Nothing is left to do for the discovery: a live guest has the address, or no row can be made.
  ghost predicate Settled(db: Db, f: Found) {
    BoundToLive(db, f.ip) || (FindRow(db, f.ip).None? && NetworkRefuses(db, f))
  }

  ghost predicate SyncRefused(db: Db, g: Guest, f: Found) {
    match FindRow(db, f.ip)
    case Some(a) => BelongsToOther(a, g) && GuestExists(db, a.server, a.vmid)
    case None => NetworkRefuses(db, f)
  }

  datatype Progress = Progress(db: Db, linked: set<Ip>)

  ghost function LinkOne(s: Progress, g: Guest, f: Found): Progress {
    if f.ip in s.linked || SyncRefused(s.db, g, f) then s
    else
      var after := Sync(s.db, f.networkId, g, f.ip, "alias");
      var row := FindRow(after, f.ip);
      Progress(if row.Some? && row.value.primary then after.(guests := after.guests[g := Some(f.ip)]) else after,
               s.linked + {f.ip})
  }

  ghost function LinkEach(s: Progress, g: Guest, found: seq<Found>): Progress {
    if found == [] then s
    else LinkOne(LinkEach(s, g, found[..|found| - 1]), g, found[|found| - 1])
  }

  ghost function Start(db: Db, g: Guest): Progress {
    Progress(db, set a | a in ActiveOf(db, g) :: a.ip)
  }

  datatype Work = Work(guest: Guest, found: seq<Found>)

  ghost function LinkAll(db: Db, work: seq<Work>): Db {
    if work == [] then db
    else
      var before, w := LinkAll(db, work[..|work| - 1]), work[|work| - 1];
      LinkEach(Start(before, w.guest), w.guest, w.found).db
  }

  // ---------- what one link settles ----------

  ghost predicate Sound(s: Progress, g: Guest) {
    Valid(s.db) && g in s.db.guests && forall ip :: ip in s.linked ==> BoundTo(s.db, ip, g)
  }

  ghost predicate Onwards(before: Db, after: Db) {
    && after.guests.Keys == before.guests.Keys
    && forall f :: Settled(before, f) ==> Settled(after, f)
  }

  lemma SyncNoop(db: Db, g: Guest, f: Found, kind: string)
    requires AddressesUnique(db) && Settled(db, f)
    ensures Sync(db, f.networkId, g, f.ip, kind) == db
  {
  }

  lemma SyncSettles(db: Db, g: Guest, f: Found, kind: string)
    requires Valid(db) && g in db.guests
    ensures Settled(Sync(db, f.networkId, g, f.ip, kind), f)
    ensures !SyncRefused(db, g, f) ==> BoundTo(Sync(db, f.networkId, g, f.ip, kind), f.ip, g)
  {
    var after := Sync(db, f.networkId, g, f.ip, kind);
    match FindRow(db, f.ip)
    case Some(a) =>
      if BelongsToOther(a, g) && GuestExists(db, a.server, a.vmid) {
        assert BoundToLive(after, f.ip);
      } else {
        var b := if HeldBy(a, Some(g.server), Some(g.vmid)) then a else Patched(a, Rebinding(g));
        assert b in after.allocations && b.ip == f.ip && GuestExists(after, b.server, b.vmid);
      }
    case None =>
      var req := SyncRequest(db, f.networkId, g, f.ip, kind);
      if Refusal(db, req).None? {
        var row := NewRow(db, req);
        assert row in after.allocations && row.ip == f.ip && GuestExists(after, row.server, row.vmid);
      }
  }

  lemma SyncOnwards(db: Db, g: Guest, f: Found, kind: string)
    requires Valid(db) && g in db.guests
    ensures Onwards(db, Sync(db, f.networkId, g, f.ip, kind))
    ensures forall ip :: BoundTo(db, ip, g) ==> BoundTo(Sync(db, f.networkId, g, f.ip, kind), ip, g)
  {
    var after := Sync(db, f.networkId, g, f.ip, kind);
    forall e | Settled(db, e) ensures Settled(after, e) {
      SyncSettlesOther(db, g, f, kind, e);
    }
    forall ip | BoundTo(db, ip, g) ensures BoundTo(after, ip, g) {
      var a :| a in db.allocations && a.ip == ip && HeldBy(a, Some(g.server), Some(g.vmid));
      SyncSparesLive(db, f.networkId, g, f.ip, kind, a);
    }
  }

  lemma SyncSettlesOther(db: Db, g: Guest, f: Found, kind: string, e: Found)
    requires Valid(db) && g in db.guests && Settled(db, e)
    ensures Settled(Sync(db, f.networkId, g, f.ip, kind), e)
  {
    var after := Sync(db, f.networkId, g, f.ip, kind);
    if BoundToLive(db, e.ip) {
      var a :| a in db.allocations && a.ip == e.ip && GuestExists(db, a.server, a.vmid);
      SyncSparesLive(db, f.networkId, g, f.ip, kind, a);
      assert GuestExists(after, a.server, a.vmid);
    } else if f.ip == e.ip {
      SyncSettles(db, g, f, kind);
    } else {
      assert forall a :: a in after.allocations ==> a.ip != e.ip;
      assert NetworkRefuses(after, e);
    }
  }

  lemma CacheOnwards(db: Db, g: Guest, ip: Ip)
    requires Valid(db) && g in db.guests
    ensures var after := db.(guests := db.guests[g := Some(ip)]);
            Valid(after) && Onwards(db, after) && forall x :: BoundTo(db, x, g) ==> BoundTo(after, x, g)
  {
    var after := db.(guests := db.guests[g := Some(ip)]);
    InventoryKeeps(db, after.guests, db.servers);
    forall f | Settled(db, f) ensures Settled(after, f) {
      if BoundToLive(db, f.ip) {
        var a :| a in db.allocations && a.ip == f.ip && GuestExists(db, a.server, a.vmid);
        assert GuestExists(after, a.server, a.vmid);
      } else {
        assert NetworkRefuses(after, f);
      }
    }
  }

  ghost predicate Progresses(before: Db, after: Db, g: Guest) {
    Valid(after) && Onwards(before, after) && forall ip :: BoundTo(before, ip, g) ==> BoundTo(after, ip, g)
  }

  lemma SyncProgresses(db: Db, g: Guest, f: Found)
    requires Valid(db) && g in db.guests
    ensures Progresses(db, Sync(db, f.networkId, g, f.ip, "alias"), g)
  {
    SyncOnwards(db, g, f, "alias");
    SyncKeeps(db, f.networkId, g, f.ip, "alias");
  }

  lemma SyncAndCacheProgress(db: Db, g: Guest, f: Found, cached: bool)
    requires Valid(db) && g in db.guests
    ensures var after := Sync(db, f.networkId, g, f.ip, "alias");
            Progresses(db, if cached then after.(guests := after.guests[g := Some(f.ip)]) else after, g)
  {
    SyncProgresses(db, g, f);
    CacheOnwards(Sync(db, f.networkId, g, f.ip, "alias"), g, f.ip);
  }

  lemma LinkOneProgresses(s: Progress, g: Guest, f: Found)
    requires Sound(s, g)
    ensures var t := LinkOne(s, g, f); Progresses(s.db, t.db, g)
    ensures var t := LinkOne(s, g, f); t != s ==> t.linked == s.linked + {f.ip}
  {
    if f.ip !in s.linked && !SyncRefused(s.db, g, f) {
      var after := Sync(s.db, f.networkId, g, f.ip, "alias");
      var row := FindRow(after, f.ip);
      SyncAndCacheProgress(s.db, g, f, row.Some? && row.value.primary);
    }
  }

  lemma LinkOneBinds(s: Progress, g: Guest, f: Found)
    requires Sound(s, g)
    ensures var t := LinkOne(s, g, f); Settled(t.db, f) && (t != s ==> BoundTo(t.db, f.ip, g))
  {
    if f.ip in s.linked {
      assert BoundTo(s.db, f.ip, g);
    } else {
      SyncSettles(s.db, g, f, "alias");
      if !SyncRefused(s.db, g, f) {
        var after := Sync(s.db, f.networkId, g, f.ip, "alias");
        SyncKeeps(s.db, f.networkId, g, f.ip, "alias");
        CacheOnwards(after, g, f.ip);
      } else if FindRow(s.db, f.ip).None? {
        assert NetworkRefuses(s.db, f);
      }
    }
  }

  lemma LinkOneSettles(s: Progress, g: Guest, f: Found)
    requires Sound(s, g)
    ensures var t := LinkOne(s, g, f); Sound(t, g) && Onwards(s.db, t.db) && Settled(t.db, f)
  {
    LinkOneProgresses(s, g, f);
    LinkOneBinds(s, g, f);
  }

  ghost predicate FoundSettled(db: Db, found: seq<Found>) {
    forall i :: 0 <= i < |found| ==> Settled(db, found[i])
  }

  lemma SettledOnwards(before: Db, after: Db, front: seq<Found>, f: Found)
    requires Onwards(before, after) && FoundSettled(before, front) && Settled(after, f)
    ensures FoundSettled(after, front + [f])
  {
  }

  lemma {:induction false} LinkEachSettles(s: Progress, g: Guest, found: seq<Found>)
    requires Sound(s, g)
    ensures var t := LinkEach(s, g, found); Sound(t, g) && Onwards(s.db, t.db) && FoundSettled(t.db, found)
  {
    if found != [] {
      var front, f := found[..|found| - 1], found[|found| - 1];
      LinkEachSettles(s, g, front);
      LinkOneSettles(LinkEach(s, g, front), g, f);
      SettledOnwards(LinkEach(s, g, front).db, LinkEach(s, g, found).db, front, f);
      assert front + [f] == found;
    }
  }

  lemma StartIsSound(db: Db, g: Guest)
    requires Valid(db) && g in db.guests
    ensures Sound(Start(db, g), g)
  {
  }

  ghost predicate LiveWork(db: Db, work: seq<Work>) {
    forall i :: 0 <= i < |work| ==> work[i].guest in db.guests
  }

  ghost predicate AllSettled(db: Db, work: seq<Work>) {
    forall i, j :: 0 <= i < |work| && 0 <= j < |work[i].found| ==> Settled(db, work[i].found[j])
  }

  lemma AllSettledSnoc(before: Db, after: Db, front: seq<Work>, w: Work)
    requires AllSettled(before, front) && Onwards(before, after) && FoundSettled(after, w.found)
    ensures AllSettled(after, front + [w])
  {
  }

  lemma {:induction false} LinkAllSettles(db: Db, work: seq<Work>)
    requires Valid(db) && LiveWork(db, work)
    ensures var after := LinkAll(db, work); Valid(after) && Onwards(db, after) && AllSettled(after, work)
  {
    if work != [] {
      var front, w := work[..|work| - 1], work[|work| - 1];
      LinkAllSettles(db, front);
      var before := LinkAll(db, front);
      StartIsSound(before, w.guest);
      LinkEachSettles(Start(before, w.guest), w.guest, w.found);
      AllSettledSnoc(before, LinkAll(db, work), front, w);
      assert work == front + [w];
    }
  }

  ghost predicate SameRows(a: Db, b: Db) {
    a == b.(guests := a.guests) && a.guests.Keys == b.guests.Keys
  }

  lemma SameRowsSettled(a: Db, b: Db, f: Found)
    requires IdsUnique(a) && SameRows(a, b) && Settled(a, f)
    ensures Settled(b, f)
  {
  }

  lemma {:induction false} LinkEachNoop(s: Progress, g: Guest, found: seq<Found>)
    requires AddressesUnique(s.db) && IdsUnique(s.db) && g in s.db.guests && forall i :: 0 <= i < |found| ==> Settled(s.db, found[i])
    ensures SameRows(s.db, LinkEach(s, g, found).db)
  {
    if found != [] {
      var front, f := found[..|found| - 1], found[|found| - 1];
      LinkEachNoop(s, g, front);
      var t := LinkEach(s, g, front);
      SameRowsSettled(s.db, t.db, f);
      SyncNoop(t.db, g, f, "alias");
    }
  }

  lemma {:induction false} LinkAllNoop(db: Db, work: seq<Work>)
    requires Valid(db) && LiveWork(db, work) && AllSettled(db, work)
    ensures SameRows(db, LinkAll(db, work))
  {
    if work != [] {
      var front, w := work[..|work| - 1], work[|work| - 1];
      LinkAllNoop(db, front);
      var before := LinkAll(db, front);
      forall i | 0 <= i < |w.found| ensures Settled(before, w.found[i]) {
        SameRowsSettled(db, before, w.found[i]);
      }
      LinkEachNoop(Start(before, w.guest), w.guest, w.found);
    }
  }

  ghost predicate Mentions(work: seq<Work>, f: Found) {
    exists k, m :: 0 <= k < |work| && 0 <= m < |work[k].found| && work[k].found[m] == f
  }

  // Linking is idempotent: repeating it, in any order and for any part of the same discoveries,
  // leaves rows and history as they are.
  lemma LinkingTwiceIsLinkingOnce(db: Db, work: seq<Work>, again: seq<Work>)
    requires Valid(db) && LiveWork(db, work)
    requires forall i, j :: 0 <= i < |again| && 0 <= j < |again[i].found| ==> Mentions(work, again[i].found[j])
    requires LiveWork(db, again)
    ensures SameRows(LinkAll(db, work), LinkAll(LinkAll(db, work), again))
  {
    LinkAllSettles(db, work);
    var once := LinkAll(db, work);
    forall i, j | 0 <= i < |again| && 0 <= j < |again[i].found| ensures Settled(once, again[i].found[j]) {
      assert Mentions(work, again[i].found[j]);
      var k, m :| 0 <= k < |work| && 0 <= m < |work[k].found| && work[k].found[m] == again[i].found[j];
      assert Settled(once, work[k].found[m]);
    }
    LinkAllNoop(once, again);
  }
}
