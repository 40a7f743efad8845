/**
 At most one primary address per guest: which operations keep it, and exactly when the others do.
 Rebinding a row to another guest keeps its flag, so it is the step that can break the rule.
 */
module IpamPrimary {
  import opened Wrappers
  import opened IpamModel
  import opened IpamLedger

  ghost predicate OnePrimary(db: Db) {
    forall a, b :: a in db.allocations && b in db.allocations && a.primary && b.primary && a.vmid.Some? ==>
      HeldBy(b, a.server, a.vmid) ==> a == b
  }

  // Some row other than `kept` is a primary address of the guest.
  ghost predicate PrimaryElsewhere(db: Db, kept: Allocation, server: Option<nat>, vmid: Option<nat>) {
    vmid.Some? && exists c :: c in db.allocations && c != kept && c.primary && HeldBy(c, server, vmid)
  }

  // The update moves a primary row to a guest that has another primary row.
  ghost predicate SecondPrimary(db: Db, ip: Ip, patch: Patch) {
    var found := FindRow(db, ip);
    found.Some? && found.value.primary &&
    PrimaryElsewhere(db, found.value, Patched(found.value, patch).server, Patched(found.value, patch).vmid)
  }

  lemma SubsetKeepsOne(db: Db, after: Db)
    requires OnePrimary(db) && after.allocations <= db.allocations
    ensures OnePrimary(after)
  {
  }

  lemma AllocateKeepsOne(db: Db, req: Request)
    requires IdsFresh(db) && OnePrimary(db)
    ensures OnePrimary(Allocate(db, req)) <==>
            !(Refusal(db, req).None? && PrimaryFlag(db, req) && HasPrimary(db, req.server, req.vmid))
  {
  }

  // An update keeps the rule exactly when it does not move a primary row to a guest that has one.
  lemma UpdateKeepsOne(db: Db, ip: Ip, patch: Patch)
    requires AddressesUnique(db) && OnePrimary(db)
    ensures OnePrimary(Update(db, ip, patch)) <==> !SecondPrimary(db, ip, patch)
  {
  }

  // Marking an address primary repairs its guest and leaves exactly one.
  lemma SetPrimaryKeepsOne(db: Db, g: Guest, id: nat)
    requires IdsUnique(db) && OnePrimary(db)
    ensures OnePrimary(SetPrimary(db, g, id))
  {
  }

  lemma SetPrimaryLeavesOne(db: Db, g: Guest, id: nat, target: Allocation)
    requires IdsUnique(db) && IsTarget(db, g, id, target)
    ensures (set a | a in SetPrimary(db, g, id).allocations && HeldBy(a, Some(g.server), Some(g.vmid)) && a.primary) ==
            {target.(primary := true)}
  {
  }

  lemma SyncKeepsOne(db: Db, networkId: nat, g: Guest, ip: Ip, kind: string)
    requires IdsFresh(db) && AddressesUnique(db) && OnePrimary(db)
    ensures OnePrimary(Sync(db, networkId, g, ip, kind)) <==> !SyncMovesSecond(db, g, ip)
  {
    UpdateKeepsOne(db, ip, Rebinding(g));
    AllocateKeepsOne(db, SyncRequest(db, networkId, g, ip, kind));
  }

  // Discovery rebinds the row and thereby moves its primary flag to a guest that has one.
  ghost predicate SyncMovesSecond(db: Db, g: Guest, ip: Ip) {
    var found := FindRow(db, ip);
    found.Some? && !HeldBy(found.value, Some(g.server), Some(g.vmid)) &&
    !(BelongsToOther(found.value, g) && GuestExists(db, found.value.server, found.value.vmid)) &&
    SecondPrimary(db, ip, Rebinding(g))
  }

  // The only steps that can give a guest a second primary address.
  ghost predicate AddsSecond(db: Db, s: Step) {
    match s
    case AddressAllocated(req) => Refusal(db, req).None? && req.primary == Some(true) && HasPrimary(db, req.server, req.vmid)
    case AddressUpdated(ip, patch) => SecondPrimary(db, ip, patch)
    case Synced(_, g, ip, _) => SyncMovesSecond(db, g, ip)
    case _ => false
  }

  lemma DeletePoolKeepsOne(db: Db, id: nat)
    requires OnePrimary(db) && IdsUnique(db)
    ensures OnePrimary(DeletePool(db, id))
  {
  }

  // Every step keeps the rule if and only if it is not one of those.
  lemma StepKeepsOne(db: Db, s: Step)
    requires IdsFresh(db) && IdsUnique(db) && AddressesUnique(db) && OnePrimary(db) && Enabled(db, s)
    ensures OnePrimary(Next(db, s)) <==> !AddsSecond(db, s)
  {
    match s
    case AddressAllocated(req) => AllocateKeepsOne(db, req);
    case AddressUpdated(ip, patch) => UpdateKeepsOne(db, ip, patch);
    case Synced(networkId, g, ip, kind) => SyncKeepsOne(db, networkId, g, ip, kind);
    case PrimarySet(g, id) => SetPrimaryKeepsOne(db, g, id);
    case PoolDeleted(id) => DeletePoolKeepsOne(db, id);
    case GuestReleased(_, order) => ReleaseEachEffect(db, order); SubsetKeepsOne(db, Next(db, s));
    case ServerReleased(_, order) => ReleaseEachEffect(db, order); SubsetKeepsOne(db, Next(db, s));
    case OrphansCleaned(order) => ReleaseEachEffect(db, order); SubsetKeepsOne(db, Next(db, s));
    case _ => SubsetKeepsOne(db, Next(db, s));
  }

  // A run has at most one primary address per guest as long as no step adds a second one.
  lemma {:induction false} RunHasOnePrimary(states: seq<Db>, steps: seq<Step>, i: nat)
    requires IsRun(states, steps) && i < |states|
    requires forall k :: 0 <= k < i ==> !AddsSecond(states[k], steps[k])
    ensures OnePrimary(states[i])
  {
    if i > 0 {
      RunHasOnePrimary(states, steps, i - 1);
      RunKeeps(states, steps, i - 1);
      StepKeepsOne(states[i - 1], steps[i - 1]);
    }
  }

  // The primary address of a guest that is gone, rediscovered on a guest that has its own.
  function RebindingRun(): seq<Step> {
    var request := Request(5, 1, None, None, Some(1), Some(100), "allocated", None, "primary");
    [NetworkCreated(Network(0, 0, 24, None, true, None, false)),
     AddressAllocated(request),
     AddressAllocated(request.(ip := 6, vmid := Some(101))),
     InventoryChanged(map[Guest(1, 101) := None], map[]),
     Synced(1, Guest(1, 101), 5, "alias")]
  }

  const NETWORK := Network(1, 0, 24, None, true, None, false)
  const STALE := Allocation(2, 1, None, 5, None, Some(1), Some(100), "allocated", true, "primary")
  const OWN := Allocation(3, 1, None, 6, None, Some(1), Some(101), "allocated", true, "primary")

  // The states of that run before the last step.
  function AfterNetwork(): Db { EMPTY.(networks := {NETWORK}, nextId := 2) }

  function AfterOne(): Db { AfterNetwork().(allocations := {STALE}, history := [Entry(5, 1, Allocated)], nextId := 3) }

  function AfterTwo(): Db {
    AfterOne().(allocations := {STALE, OWN}, history := [Entry(5, 1, Allocated), Entry(6, 1, Allocated)], nextId := 4)
  }

  function AfterDeletion(): Db { AfterTwo().(guests := map[Guest(1, 101) := None]) }

  lemma FirstAllocation()
    ensures AfterOne() == Next(AfterNetwork(), RebindingRun()[1])
  {
    assert Size(24) == 256 by { assert Pow2(4) == 16; assert Pow2(8) == 256; }
    AllocatedWithoutPools(AfterNetwork(), NETWORK, RebindingRun()[1].req);
    assert AfterNetwork().allocations + {STALE} == {STALE};
  }

  lemma SecondAllocation()
    ensures AfterTwo() == Next(AfterOne(), RebindingRun()[2])
  {
    assert Size(24) == 256 by { assert Pow2(4) == 16; assert Pow2(8) == 256; }
    AllocatedWithoutPools(AfterOne(), NETWORK, RebindingRun()[2].req);
    assert AfterOne().allocations + {OWN} == {STALE, OWN};
  }

  lemma Rediscovery()
    ensures !OnePrimary(Next(AfterDeletion(), RebindingRun()[4]))
  {
    var db := AfterDeletion();
    assert FindRow(db, 5) == Some(STALE);
    var moved := Patched(STALE, Rebinding(Guest(1, 101)));
    var after := Sync(db, 1, Guest(1, 101), 5, "alias");
    assert moved in after.allocations && OWN in after.allocations && moved != OWN;
  }

  lemma RunToDeletion() returns (states: seq<Db>)
    ensures IsRun(states, RebindingRun()[..4]) && states[4] == AfterDeletion()
  {
    var steps := RebindingRun();
    FirstNetwork(steps[0].draft);
    FirstAllocation();
    SecondAllocation();
    EmptyRun();
    states := [EMPTY];
    RunGoesOnOnce(states, [], steps[0]);
    states := states + [AfterNetwork()];
    RunGoesOnOnce(states, [steps[0]], steps[1]);
    states := states + [AfterOne()];
    RunGoesOnOnce(states, [steps[0]] + [steps[1]], steps[2]);
    states := states + [AfterTwo()];
    RunGoesOnOnce(states, [steps[0]] + [steps[1]] + [steps[2]], steps[3]);
    states := states + [AfterDeletion()];
    assert [] + [steps[0]] == [steps[0]];
    assert [steps[0]] + [steps[1]] + [steps[2]] + [steps[3]] == steps[..4];
  }

  // Five steps from empty tables after which a guest has two primary addresses.
  lemma RebindingCanBreakTheRule()
    ensures exists states: seq<Db> :: IsRun(states, RebindingRun()) && !OnePrimary(states[|RebindingRun()|])
  {
    var steps := RebindingRun();
    var front := RunToDeletion();
    RunGoesOnOnce(front, steps[..4], steps[4]);
    Rediscovery();
    var states := front + [Next(AfterDeletion(), steps[4])];
    assert steps[..4] + [steps[4]] == steps;
    assert IsRun(states, steps) && !OnePrimary(states[5]);
  }
}
