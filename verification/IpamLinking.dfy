/**
 Which address the instance list shows after the addresses found on a new guest are linked to it.
 It is meant to be the first one linked; a row taken over from a guest that is gone can displace it.
 */
module IpamLinking {
  import opened Wrappers
  import opened IpamModel
  import opened IpamLedger
  import opened IpamEffects
  import opened IpamDiscovery
  import IpamPrimary

  // Nobody has the address, and the network found for it takes it.
  ghost predicate IsNew(db: Db, f: Found) {
    Free(db, f.networkId, f.ip)
  }

  // The address is held by a guest that is gone, or by none, with or without the primary flag.
  ghost predicate IsStale(db: Db, f: Found, primary: bool) {
    exists a :: a in db.allocations && a.ip == f.ip && !OfLiveGuest(db, a) && a.primary == primary
  }

  // The discovery leads to a row of the guest.
  ghost predicate IsAccepted(db: Db, f: Found) {
    IsNew(db, f) || IsStale(db, f, true) || IsStale(db, f, false)
  }

  // What a link leaves alone: networks, and the rows of other addresses.
  ghost predicate SameOutside(before: Db, after: Db, ips: set<Ip>) {
    && after.networks == before.networks && after.guests.Keys == before.guests.Keys
    && forall a: Allocation :: a.ip !in ips ==> (a in after.allocations <==> a in before.allocations)
  }

  lemma SameKind(before: Db, after: Db, ips: set<Ip>, f: Found)
    requires SameOutside(before, after, ips) && f.ip !in ips
    ensures IsNew(after, f) <==> IsNew(before, f)
    ensures forall primary :: IsStale(after, f, primary) <==> IsStale(before, f, primary)
  {
  }

  ghost predicate NoRows(db: Db, g: Guest) {
    forall a :: a in db.allocations ==> !Holds(a, g)
  }

  // One discovery of an address the guest does not hold.
  lemma LinkOneIs(s: Progress, g: Guest, f: Found)
    requires Valid(s.db) && g in s.db.guests && f.ip !in s.linked
    requires forall a :: a in s.db.allocations && a.ip == f.ip ==> !Holds(a, g)
    ensures var t := LinkOne(s, g, f);
            && SameOutside(s.db, t.db, {f.ip})
            && (t.linked == s.linked || t.linked == s.linked + {f.ip})
            && (HasPrimaryRow(t.db, g) <==> HasPrimaryRow(s.db, g) || IsNew(s.db, f) || IsStale(s.db, f, true))
            && t.db.guests == if IsStale(s.db, f, true) || (IsNew(s.db, f) && !HasPrimaryRow(s.db, g))
                              then s.db.guests[g := Some(f.ip)] else s.db.guests
  {
    if a :| a in s.db.allocations && a.ip == f.ip {
      LinkKnown(s, g, f, a);
    } else {
      LinkNew(s, g, f);
    }
  }

  lemma LinkKnown(s: Progress, g: Guest, f: Found, a: Allocation)
    requires Valid(s.db) && g in s.db.guests && f.ip !in s.linked
    requires a in s.db.allocations && a.ip == f.ip && !Holds(a, g)
    ensures var t := LinkOne(s, g, f);
            && SameOutside(s.db, t.db, {f.ip})
            && (t.linked == s.linked || t.linked == s.linked + {f.ip})
            && (HasPrimaryRow(t.db, g) <==> HasPrimaryRow(s.db, g) || (a.primary && !OfLiveGuest(s.db, a)))
            && t.db.guests == if a.primary && !OfLiveGuest(s.db, a) then s.db.guests[g := Some(f.ip)] else s.db.guests
  {
    FoundRow(s.db, a);
    SyncOfKnownAddress(s.db, f.networkId, g, "alias", a);
    if !OfLiveGuest(s.db, a) {
      var after := Sync(s.db, f.networkId, g, f.ip, "alias");
      var moved := a.(server := Some(g.server), vmid := Some(g.vmid));
      assert moved in after.allocations && Holds(moved, g);
      assert FindRow(after, f.ip) == Some(moved);
      assert forall b :: b in after.allocations && b != moved ==> b in s.db.allocations;
      assert forall b :: b in s.db.allocations && Holds(b, g) ==> b in after.allocations;
    }
  }

  lemma LinkNew(s: Progress, g: Guest, f: Found)
    requires Valid(s.db) && g in s.db.guests && f.ip !in s.linked
    requires forall a :: a in s.db.allocations ==> a.ip != f.ip
    ensures var t := LinkOne(s, g, f);
            && SameOutside(s.db, t.db, {f.ip})
            && (t.linked == s.linked || t.linked == s.linked + {f.ip})
            && (HasPrimaryRow(t.db, g) <==> HasPrimaryRow(s.db, g) || IsNew(s.db, f))
            && t.db.guests == if IsNew(s.db, f) && !HasPrimaryRow(s.db, g) then s.db.guests[g := Some(f.ip)] else s.db.guests
  {
    var row := SyncOfNewAddress(s.db, f.networkId, g, f.ip, "alias");
    RefusedIsNotFree(s.db, g, f);
    if IsNew(s.db, f) {
      var after := Sync(s.db, f.networkId, g, f.ip, "alias");
      assert FindRow(after, f.ip) == Some(row);
      assert row in after.allocations;
      assert forall b :: b in s.db.allocations ==> b in after.allocations;
    }
  }

  lemma RefusedIsNotFree(db: Db, g: Guest, f: Found)
    requires IdsUnique(db) && forall a :: a in db.allocations ==> a.ip != f.ip
    ensures SyncRefused(db, g, f) <==> !Free(db, f.networkId, f.ip)
  {
    forall n | n in db.networks ensures InNetwork(n, f.ip) <==> f.ip / Size(n.prefix) == n.address / Size(n.prefix) {
      InNetworkIs(n, f.ip);
    }
    if n :| n in db.networks && n.id == f.networkId {
      assert FindNetwork(db, f.networkId) == Some(n);
    }
  }

  // ---------- the whole list ----------

  predicate DistinctAddresses(found: seq<Found>) {
    forall i, j :: 0 <= i < j < |found| ==> found[i].ip != found[j].ip
  }

  function AddressesOf(found: seq<Found>): set<Ip> {
    set i | 0 <= i < |found| :: found[i].ip
  }

  // The last discovery that takes over a primary row of a guest that is gone.
  ghost predicate LastStale(db: Db, found: seq<Found>, k: nat) {
    k < |found| && IsStale(db, found[k], true) && forall m :: k < m < |found| ==> !IsStale(db, found[m], true)
  }

  ghost predicate NoneStale(db: Db, found: seq<Found>) {
    forall m :: 0 <= m < |found| ==> !IsStale(db, found[m], true)
  }

  // The first discovery of an address that nobody has.
  ghost predicate FirstNew(db: Db, found: seq<Found>, k: nat) {
    k < |found| && IsNew(db, found[k]) && forall m :: 0 <= m < k ==> !IsNew(db, found[m])
  }

  ghost predicate MakesPrimary(db: Db, f: Found) {
    IsNew(db, f) || IsStale(db, f, true)
  }

  ghost predicate SomePrimary(db: Db, found: seq<Found>) {
    exists k :: 0 <= k < |found| && MakesPrimary(db, found[k])
  }

  // What the list shows: the last primary row taken over, failing that the first new address, failing
  // that what it showed before.
  ghost predicate Shows(db: Db, g: Guest, found: seq<Found>, shown: Option<Ip>)
    requires g in db.guests
  {
    && (forall k: nat :: LastStale(db, found, k) ==> shown == Some(found[k].ip))
    && (NoneStale(db, found) ==> forall k: nat :: FirstNew(db, found, k) ==> shown == Some(found[k].ip))
    && (!SomePrimary(db, found) ==> shown == db.guests[g])
  }

  ghost predicate LinkedUpTo(db: Db, g: Guest, found: seq<Found>, t: Progress)
    requires g in db.guests
  {
    && SameOutside(db, t.db, AddressesOf(found)) && t.linked <= AddressesOf(found)
    && (HasPrimaryRow(t.db, g) <==> SomePrimary(db, found))
    && g in t.db.guests && t.db.guests == db.guests[g := t.db.guests[g]]
    && Shows(db, g, found, t.db.guests[g])
  }

  lemma {:induction false} LinkEachShows(db: Db, g: Guest, found: seq<Found>)
    requires Valid(db) && g in db.guests && NoRows(db, g) && DistinctAddresses(found)
    ensures LinkedUpTo(db, g, found, LinkEach(Start(db, g), g, found))
  {
    if found == [] {
      assert AddressesOf(found) == {};
    } else {
      var n := |found| - 1;
      var front, f := found[..n], found[n];
      var t := LinkEach(Start(db, g), g, front);
      LinkEachShows(db, g, front);
      StartIsSound(db, g);
      LinkEachSettles(Start(db, g), g, front);
      assert f.ip !in AddressesOf(front);
      LinkNext(db, g, front, f, t);
      OneMoreLinked(db, g, front, f, t, LinkOne(t, g, f));
      assert found == front + [f];
    }
  }

  // What a link of `f` does, by what `f` is in the tables before any link.
  ghost predicate LinksOne(db: Db, g: Guest, f: Found, s: Progress, t: Progress)
    requires g in s.db.guests
  {
    && SameOutside(s.db, t.db, {f.ip})
    && t.linked <= s.linked + {f.ip}
    && (HasPrimaryRow(t.db, g) <==> HasPrimaryRow(s.db, g) || MakesPrimary(db, f))
    && t.db.guests == if IsStale(db, f, true) || (IsNew(db, f) && !HasPrimaryRow(s.db, g))
                      then s.db.guests[g := Some(f.ip)] else s.db.guests
  }

  lemma LinkNext(db: Db, g: Guest, front: seq<Found>, f: Found, t: Progress)
    requires g in db.guests && NoRows(db, g) && LinkedUpTo(db, g, front, t) && Valid(t.db) && f.ip !in AddressesOf(front)
    ensures LinksOne(db, g, f, t, LinkOne(t, g, f))
  {
    SameKind(db, t.db, AddressesOf(front), f);
    LinkOneIs(t, g, f);
  }

  lemma OneMoreLinked(db: Db, g: Guest, front: seq<Found>, f: Found, s: Progress, t: Progress)
    requires g in db.guests && LinkedUpTo(db, g, front, s) && LinksOne(db, g, f, s, t)
    ensures LinkedUpTo(db, g, front + [f], t)
  {
    var found := front + [f];
    assert AddressesOf(found) == AddressesOf(front) + {f.ip} by {
      assert found[|front|] == f && forall i :: 0 <= i < |front| ==> found[i] == front[i];
    }
    SomePrimarySnoc(db, front, f);
    ShowsSnoc(db, g, front, f, s.db.guests[g]);
  }

  lemma SomePrimarySnoc(db: Db, front: seq<Found>, f: Found)
    ensures SomePrimary(db, front + [f]) <==> SomePrimary(db, front) || MakesPrimary(db, f)
  {
    var found := front + [f];
    assert found[|front|] == f && forall i :: 0 <= i < |front| ==> found[i] == front[i];
  }

  lemma ShowsSnoc(db: Db, g: Guest, front: seq<Found>, f: Found, shown: Option<Ip>)
    requires g in db.guests && Shows(db, g, front, shown)
    ensures Shows(db, g, front + [f],
                  if IsStale(db, f, true) || (IsNew(db, f) && !SomePrimary(db, front)) then Some(f.ip) else shown)
  {
    var found := front + [f];
    var n := |front|;
    assert found[n] == f && forall i :: 0 <= i < n ==> found[i] == front[i];
    SomePrimarySnoc(db, front, f);
    forall k: nat | LastStale(db, found, k) ensures k == n || LastStale(db, front, k) {
    }
    forall k: nat | NoneStale(db, found) && FirstNew(db, found, k)
      ensures NoneStale(db, front) && (if k == n then !SomePrimary(db, front) else FirstNew(db, front, k))
    {
    }
    if IsNew(db, f) && !SomePrimary(db, front) {
      forall k: nat | FirstNew(db, found, k) ensures k == n {
        if k < n {
          assert MakesPrimary(db, front[k]);
        }
      }
    }
  }

  // Linking the addresses found on a guest without rows changes nothing else of the cache.
  lemma LinkingShows(db: Db, g: Guest, found: seq<Found>)
    requires Valid(db) && g in db.guests && NoRows(db, g) && DistinctAddresses(found)
    ensures var after := LinkEach(Start(db, g), g, found).db.guests;
            g in after && after == db.guests[g := after[g]] && Shows(db, g, found, after[g])
  {
    LinkEachShows(db, g, found);
  }

  // A new guest's list entry is the first address accepted when nobody has the addresses found.
  lemma FirstNewIsShown(db: Db, g: Guest, found: seq<Found>, k: nat)
    requires Valid(db) && g in db.guests && NoRows(db, g) && DistinctAddresses(found)
    requires forall a :: a in db.allocations ==> a.ip !in AddressesOf(found)
    requires FirstNew(db, found, k)
    ensures LinkEach(Start(db, g), g, found).db.guests == db.guests[g := Some(found[k].ip)]
  {
    LinkingShows(db, g, found);
    assert forall m :: 0 <= m < |found| ==> found[m].ip in AddressesOf(found);
  }

  ghost predicate FirstAccepted(db: Db, found: seq<Found>, k: nat) {
    k < |found| && IsAccepted(db, found[k]) && forall m :: 0 <= m < k ==> !IsAccepted(db, found[m])
  }

  // The condition under which the first accepted address is the one shown.
  ghost predicate FirstWins(db: Db, g: Guest, found: seq<Found>, k: nat)
    requires g in db.guests && k < |found|
  {
    if !NoneStale(db, found) then LastStale(db, found, k)
    else if SomePrimary(db, found) then IsNew(db, found[k])
    else db.guests[g] == Some(found[k].ip)
  }

  // In general it is shown exactly when it is the last primary row taken over, or no such row is taken
  // over and it is new; or nothing becomes primary and it was shown already.
  lemma FirstAcceptedIsShownIff(db: Db, g: Guest, found: seq<Found>, k: nat)
    requires Valid(db) && g in db.guests && NoRows(db, g) && DistinctAddresses(found) && FirstAccepted(db, found, k)
    ensures LinkEach(Start(db, g), g, found).db.guests == db.guests[g := Some(found[k].ip)] <==> FirstWins(db, g, found, k)
  {
    LinkingShows(db, g, found);
    if !NoneStale(db, found) {
      var m := LastOf(db, found);
      assert LastStale(db, found, m);
    } else if SomePrimary(db, found) {
      var m := FirstOf(db, found);
      assert FirstNew(db, found, m);
    }
  }

  lemma {:induction false} LastOf(db: Db, found: seq<Found>) returns (m: nat)
    requires !NoneStale(db, found)
    ensures LastStale(db, found, m)
  {
    var n := |found| - 1;
    if IsStale(db, found[n], true) {
      m := n;
    } else {
      var front := found[..n];
      var i :| 0 <= i < |found| && IsStale(db, found[i], true);
      assert front[i] == found[i];
      m := LastOf(db, front);
      assert forall j :: m < j < n ==> found[j] == front[j];
    }
  }

  lemma {:induction false} FirstOf(db: Db, found: seq<Found>) returns (m: nat)
    requires exists k :: 0 <= k < |found| && IsNew(db, found[k])
    ensures FirstNew(db, found, m)
  {
    var n := |found| - 1;
    var front := found[..n];
    if k :| 0 <= k < n && IsNew(db, front[k]) {
      m := FirstOf(db, front);
      assert forall j :: 0 <= j <= m ==> found[j] == front[j];
    } else {
      m := n;
      assert forall j :: 0 <= j < n ==> found[j] == front[j];
    }
  }

  // A guest that is gone had the address 5 as its primary one. A new guest without rows reports the
  // address 6, which nobody has, and then 5.
  function TakeoverSteps(): seq<Step> {
    IpamPrimary.RebindingRun()[..2] + [InventoryChanged(map[NEWCOMER := None], map[])]
  }

  const NEWCOMER := Guest(1, 101)
  const REPORT := [Found(6, 1), Found(5, 1)]

  function Takeover(): Db {
    IpamPrimary.AfterOne().(guests := map[NEWCOMER := None])
  }

  lemma TakeoverIsRun() returns (states: seq<Db>)
    ensures IsRun(states, TakeoverSteps()) && states[3] == Takeover()
  {
    var steps := IpamPrimary.RebindingRun();
    FirstNetwork(steps[0].draft);
    IpamPrimary.FirstAllocation();
    EmptyRun();
    RunGoesOnOnce([EMPTY], [], steps[0]);
    states := [EMPTY] + [IpamPrimary.AfterNetwork()];
    RunGoesOnOnce(states, [] + [steps[0]], steps[1]);
    states := states + [IpamPrimary.AfterOne()];
    var last := InventoryChanged(map[NEWCOMER := None], map[]);
    RunGoesOnOnce(states, [] + [steps[0]] + [steps[1]], last);
    states := states + [Takeover()];
    assert [] + [steps[0]] + [steps[1]] + [last] == TakeoverSteps();
  }

  lemma TakeoverReport()
    ensures FirstAccepted(Takeover(), REPORT, 0) && LastStale(Takeover(), REPORT, 1)
  {
    assert Size(24) == 256 by { assert Pow2(4) == 16; assert Pow2(8) == 256; }
    var db := Takeover();
    assert IpamPrimary.NETWORK in db.networks && IpamPrimary.STALE in db.allocations;
    assert IsNew(db, REPORT[0]);
    assert IsStale(db, REPORT[1], true);
  }

  lemma SecondIsShown(db: Db)
    requires db == Takeover() && Valid(db)
    ensures NoRows(db, NEWCOMER)
    ensures LinkEach(Start(db, NEWCOMER), NEWCOMER, REPORT).db.guests == map[NEWCOMER := Some(5)]
  {
    TakeoverReport();
    assert REPORT[1].ip == 5;
    LinkingShows(db, NEWCOMER, REPORT);
    assert db.guests[NEWCOMER := Some(5)] == map[NEWCOMER := Some(5)];
  }

  // So it can happen, after a run, that another address than the first one accepted is shown.
  lemma TakeoverDisplacesTheFirst()
    ensures exists states: seq<Db> ::
              && IsRun(states, TakeoverSteps()) && NoRows(states[3], NEWCOMER) && FirstAccepted(states[3], REPORT, 0)
              && LinkEach(Start(states[3], NEWCOMER), NEWCOMER, REPORT).db.guests == map[NEWCOMER := Some(5)]
  {
    var states := TakeoverIsRun();
    RunKeeps(states, TakeoverSteps(), 3);
    TakeoverReport();
    SecondIsShown(states[3]);
  }
}
