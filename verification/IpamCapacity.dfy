/**
 The usage figures of a network. The total is the number of addresses a host may use, and what is
 left is exactly the hosts without a counted row, less the counted rows that sit on the network or
 broadcast address.
 */
module IpamCapacity {
  import opened Wrappers
  import opened SetFacts
  import opened IpamLedger
  import opened IpamModel

  datatype Stats = Stats(total: int, allocatedIps: int, reservedIps: int, available: int)

  function StatsOf(n: Network, rows: set<Allocation>): Stats {
    var size := Size(n.prefix);
    var total := if size > 2 then size - 2 else size;
    var allocatedIps := |set a | a in rows && a.networkId == n.id && a.status == "allocated"|;
    var reservedIps := |set a | a in rows && a.networkId == n.id && a.status == "reserved"|;
    Stats(total, allocatedIps, reservedIps, total - allocatedIps - reservedIps)
  }

  function Range(lo: int, hi: int): (r: set<int>)
    requires lo <= hi
    ensures forall x :: x in r <==> lo <= x < hi
    ensures |r| == hi - lo
    decreases hi - lo
  {
    if lo == hi then {} else Range(lo, hi - 1) + {hi - 1}
  }

  lemma {:induction false} Pow2Bounds(n: nat)
    ensures n <= 1 ==> Pow2(n) <= 2
    ensures n >= 2 ==> Pow2(n) >= 4
  {
  }

  // A network of up to two addresses has no address to spare, larger ones lose two.
  function Hosts(n: Network): set<int> {
    Pow2Bounds(32 - n.prefix);
    Range(HostsFrom(n), HostsTo(n))
  }

  // For every prefix length the total is the number of usable hosts.
  lemma TotalCountsHosts(n: Network, rows: set<Allocation>)
    ensures StatsOf(n, rows).total == |Hosts(n)|
  {
    Pow2Bounds(32 - n.prefix);
  }

  ghost function CountedRows(n: Network, rows: set<Allocation>): set<Allocation> {
    set a | a in rows && a.networkId == n.id && Active(a)
  }

  ghost function CountedIps(n: Network, rows: set<Allocation>): set<int> {
    set a | a in CountedRows(n, rows) :: a.ip as int
  }

  lemma {:induction false} DistinctIps(rows: set<Allocation>)
    requires forall a, b :: a in rows && b in rows && a.ip == b.ip ==> a == b
    ensures |set a | a in rows :: a.ip as int| == |rows|
  {
    var ips := set a | a in rows :: a.ip as int;
    if a :| a in rows {
      var rest := rows - {a};
      DistinctIps(rest);
      assert ips == (set b | b in rest :: b.ip as int) + {a.ip as int};
      assert a.ip as int !in set b | b in rest :: b.ip as int;
      assert rows == rest + {a};
    } else {
      assert ips == {};
    }
  }

  lemma StatusesSplit(n: Network, rows: set<Allocation>)
    ensures StatsOf(n, rows).allocatedIps + StatsOf(n, rows).reservedIps == |CountedRows(n, rows)|
  {
    var allocatedIps := set a | a in rows && a.networkId == n.id && a.status == "allocated";
    var reservedIps := set a | a in rows && a.networkId == n.id && a.status == "reserved";
    assert CountedRows(n, rows) == allocatedIps + reservedIps;
    assert allocatedIps !! reservedIps;
  }

  // Every address of the network that is no host is its first or its last one.
  lemma NonHosts(n: Network, ip: Ip)
    requires InNetwork(n, ip) && ip !in Hosts(n)
    ensures n.prefix < 31 && (ip == First(n) || ip == First(n) + Size(n.prefix) - 1)
  {
  }

  lemma TakenIsInNetwork(db: Db, n: Network)
    requires IdsUnique(db) && RowsInNetworks(db) && n in db.networks
    ensures var edges := CountedIps(n, db.allocations) - Hosts(n);
            |edges| <= 2 && forall ip :: ip in edges ==> ip == First(n) || ip == First(n) + Size(n.prefix) - 1
  {
    var edges := CountedIps(n, db.allocations) - Hosts(n);
    forall ip | ip in edges ensures ip == First(n) || ip == First(n) + Size(n.prefix) - 1 {
      var a :| a in CountedRows(n, db.allocations) && a.ip as int == ip;
      assert RowHasNetwork(db, a);
      NonHosts(n, a.ip);
    }
    Contained(edges, {First(n), First(n) + Size(n.prefix) - 1});
  }

  // Conservation, as an equation: nothing is lost between hosts, counted rows and the remainder.
  lemma CapacityIsExact(db: Db, n: Network)
    requires IdsUnique(db) && AddressesUnique(db) && RowsInNetworks(db) && n in db.networks
    ensures var s := StatsOf(n, db.allocations);
            var taken := CountedIps(n, db.allocations);
            && s.total == s.available + s.allocatedIps + s.reservedIps
            && s.available == |Hosts(n) - taken| - |taken - Hosts(n)|
            && |taken - Hosts(n)| <= 2
            && (forall ip :: ip in taken - Hosts(n) ==> ip == First(n) || ip == First(n) + Size(n.prefix) - 1)
  {
    TotalCountsHosts(n, db.allocations);
    StatusesSplit(n, db.allocations);
    DistinctIps(CountedRows(n, db.allocations));
    SplitCount(Hosts(n), CountedIps(n, db.allocations));
    TakenIsInNetwork(db, n);
  }

  // The figure never drops below -2, and not below 0 while no counted row sits on the network or
  // broadcast address.
  lemma AvailableIsBounded(db: Db, n: Network)
    requires Valid(db) && n in db.networks
    ensures StatsOf(n, db.allocations).available >= -2
    ensures CountedIps(n, db.allocations) <= Hosts(n) ==> StatsOf(n, db.allocations).available >= 0
  {
    CapacityIsExact(db, n);
    if CountedIps(n, db.allocations) <= Hosts(n) {
      assert CountedIps(n, db.allocations) - Hosts(n) == {};
    }
  }

  function FillRequest(ip: Ip): Request {
    Request(ip, 1, None, None, None, None, "allocated", None, "alias")
  }

  // A /30 created and its first n addresses allocated.
  function FillSteps(n: nat): seq<Step>
    requires n <= 4
  {
    if n == 0 then [NetworkCreated(SMALL.(id := 0))] else FillSteps(n - 1) + [AddressAllocated(FillRequest(n - 1))]
  }

  const SMALL := Network(1, 0, 30, None, true, None, false)

  // The row of an address; ids start after that of the network.
  function Row(ip: Ip): Allocation {
    Allocation(ip + 2, 1, None, ip, None, None, None, "allocated", false, "alias")
  }

  function FirstRows(n: nat): set<Allocation>
    requires n <= 4
  {
    if n == 0 then {} else FirstRows(n - 1) + {Row(n - 1)}
  }

  function FirstEntries(n: nat): seq<Entry>
    requires n <= 4
  {
    if n == 0 then [] else FirstEntries(n - 1) + [Entry(n - 1, 1, Allocated)]
  }

  // The state after n allocations.
  function Filled(n: nat): Db
    requires n <= 4
  {
    EMPTY.(networks := {SMALL}, allocations := FirstRows(n), history := FirstEntries(n), nextId := n + 2)
  }

  lemma {:induction false} FirstRowsAre(n: nat)
    requires n <= 4
    ensures forall a :: a in FirstRows(n) ==> a.ip < n && a == Row(a.ip)
    ensures |FirstRows(n)| == n
  {
    if n > 0 {
      FirstRowsAre(n - 1);
      assert Row(n - 1).ip == n - 1 && Row(n - 1) !in FirstRows(n - 1);
    }
  }

  lemma FillOne(n: nat)
    requires n < 4
    ensures Filled(n + 1) == Allocate(Filled(n), FillRequest(n))
  {
    assert Size(30) == 4;
    FirstRowsAre(n);
    AllocatedWithoutPools(Filled(n), SMALL, FillRequest(n));
  }

  lemma {:induction false} FillRun(n: nat) returns (states: seq<Db>)
    requires n <= 4
    ensures IsRun(states, FillSteps(n)) && states[|FillSteps(n)|] == Filled(n)
  {
    if n == 0 {
      EmptyRun();
      FirstNetwork(SMALL.(id := 0));
      RunGoesOnOnce([EMPTY], [], FillSteps(0)[0]);
      assert [] + [FillSteps(0)[0]] == FillSteps(0);
      states := [EMPTY] + [Filled(0)];
    } else {
      var front := FillRun(n - 1);
      FillOne(n - 1);
      RunGoesOnOnce(front, FillSteps(n - 1), AddressAllocated(FillRequest(n - 1)));
      states := front + [Filled(n)];
    }
  }

  lemma FullFigure()
    ensures StatsOf(SMALL, FirstRows(4)).available == -2
  {
    var rows := FirstRows(4);
    FirstRowsAre(4);
    assert Size(30) == 4;
    assert (set r | r in rows && r.networkId == SMALL.id && r.status == "allocated") == rows;
    assert (set r | r in rows && r.networkId == SMALL.id && r.status == "reserved") == {};
  }

  // With all four addresses allocated the network reports two less than none.
  lemma AvailableCanBeNegative()
    ensures exists states: seq<Db>, n: Network :: IsRun(states, FillSteps(4)) &&
              n in states[|FillSteps(4)|].networks && StatsOf(n, states[|FillSteps(4)|].allocations).available == -2
  {
    var states := FillRun(4);
    FullFigure();
    assert SMALL in states[|FillSteps(4)|].networks;
  }
}
