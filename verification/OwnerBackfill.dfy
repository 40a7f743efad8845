/** Recovering who created an ownerless instance, from deploy tasks and from the audit log. */
module OwnerBackfill {
  import opened Wrappers
  import opened PyText
  import SetFacts

  datatype Instance = Instance(server: int, vmid: int, owner: Option<int>, deleted: bool)
  datatype Deploy = Deploy(user: int, server: Option<int>, vmid: Option<int>)
  datatype LogEntry = LogEntry(action: string, username: Option<string>, server: Option<int>, resource: Option<string>, success: bool)

  // One piece of evidence; without a server it counts for any.
  datatype Evidence = Evidence(server: Option<int>, vmid: int, user: int)

  const CREATE_ACTIONS := {"vm_create", "ct_create", "lxc_create", "container_create"}

  // ---------- the evidence ----------

  function DeployEvidence(d: Deploy, users: map<int, string>): Option<Evidence> {
    if d.vmid.Some? && d.user in users then Some(Evidence(d.server, d.vmid.value, d.user)) else None
  }

  // The accounts by name; names are unique, and an empty one does not count.
  ghost predicate IsByName(users: map<int, string>, byName: map<string, int>) {
    && (forall n :: n in byName ==> n != "" && byName[n] in users && users[byName[n]] == n)
    && (forall u :: u in users && users[u] != "" ==> users[u] in byName)
  }

  function LogEvidence(e: LogEntry, byName: map<string, int>): Option<Evidence> {
    if e.action !in CREATE_ACTIONS || e.username.None? || e.resource.None? || !e.success || e.username.value !in byName then None
    else match ParseInt(e.resource.value)
      case Some(vmid) => Some(Evidence(e.server, vmid, byName[e.username.value]))
      case None => None
  }

  method ByName(users: map<int, string>) returns (byName: map<string, int>)
    ensures IsByName(users, byName)
  {
    byName := map[];
    var todo := users.Keys;
    while todo != {}
      invariant todo <= users.Keys
      invariant forall n :: n in byName ==> n != "" && byName[n] in users && users[byName[n]] == n
      invariant forall u :: u in users && u !in todo && users[u] != "" ==> users[u] in byName
      decreases todo
    {
      var u := SetFacts.Pick(todo);
      if users[u] != "" {
        byName := byName[users[u] := u];
      }
      todo := todo - {u};
    }
  }

  // What a list of deploys says, in no order.
  function FromDeploys(deploys: seq<Deploy>, users: map<int, string>): set<Evidence> {
    set i | 0 <= i < |deploys| && DeployEvidence(deploys[i], users).Some? :: DeployEvidence(deploys[i], users).value
  }

  function FromLogs(logs: seq<LogEntry>, byName: map<string, int>): set<Evidence> {
    set i | 0 <= i < |logs| && LogEvidence(logs[i], byName).Some? :: LogEvidence(logs[i], byName).value
  }

  // Evidence indexed by VMID: the servers and users named for it.
  type Index = map<int, seq<(Option<int>, int)>>

  function Pieces(index: Index): set<Evidence> {
    set v, i | v in index && 0 <= i < |index[v]| :: Evidence(index[v][i].0, v, index[v][i].1)
  }

  function Added(index: Index, e: Evidence): Index {
    index[e.vmid := (if e.vmid in index then index[e.vmid] else []) + [(e.server, e.user)]]
  }

  lemma AddedIs(index: Index, e: Evidence)
    ensures Pieces(Added(index, e)) == Pieces(index) + {e}
  {
    var after := Added(index, e);
    forall x | x in Pieces(index) + {e} ensures x in Pieces(after) {
      if x in Pieces(index) {
        var v, i :| v in index && 0 <= i < |index[v]| && x == Evidence(index[v][i].0, v, index[v][i].1);
        assert after[v][i] == index[v][i];
      } else {
        var last := |after[e.vmid]| - 1;
        assert after[e.vmid][last] == (e.server, e.user);
      }
    }
  }

  lemma FromDeploysSnoc(deploys: seq<Deploy>, last: Deploy, users: map<int, string>)
    ensures FromDeploys(deploys + [last], users) == FromDeploys(deploys, users) +
            match DeployEvidence(last, users) case Some(e) => {e} case None => {}
  {
    var more := deploys + [last];
    assert more[|deploys|] == last;
    assert forall i :: 0 <= i < |deploys| ==> more[i] == deploys[i];
  }

  lemma FromLogsSnoc(logs: seq<LogEntry>, last: LogEntry, byName: map<string, int>)
    ensures FromLogs(logs + [last], byName) == FromLogs(logs, byName) +
            match LogEvidence(last, byName) case Some(e) => {e} case None => {}
  {
    var more := logs + [last];
    assert more[|logs|] == last;
    assert forall i :: 0 <= i < |logs| ==> more[i] == logs[i];
  }

  method CollectDeploys(deploys: seq<Deploy>, users: map<int, string>) returns (found: Index)
    ensures Pieces(found) == FromDeploys(deploys, users)
  {
    found := map[];
    for i := 0 to |deploys|
      invariant Pieces(found) == FromDeploys(deploys[..i], users)
    {
      var piece := DeployEvidence(deploys[i], users);
      FromDeploysSnoc(deploys[..i], deploys[i], users);
      assert deploys[..i + 1] == deploys[..i] + [deploys[i]];
      if piece.Some? {
        AddedIs(found, piece.value);
        found := Added(found, piece.value);
      }
    }
    assert deploys[..|deploys|] == deploys;
  }

  method CollectLogs(logs: seq<LogEntry>, byName: map<string, int>) returns (found: Index)
    ensures Pieces(found) == FromLogs(logs, byName)
  {
    found := map[];
    for i := 0 to |logs|
      invariant Pieces(found) == FromLogs(logs[..i], byName)
    {
      var piece := LogEvidence(logs[i], byName);
      FromLogsSnoc(logs[..i], logs[i], byName);
      assert logs[..i + 1] == logs[..i] + [logs[i]];
      if piece.Some? {
        AddedIs(found, piece.value);
        found := Added(found, piece.value);
      }
    }
    assert logs[..|logs|] == logs;
  }

  // The order in which tasks and entries are read does not matter.
  lemma OrderDoesNotMatter(deploys: seq<Deploy>, deploys2: seq<Deploy>, logs: seq<LogEntry>, logs2: seq<LogEntry>,
                           users: map<int, string>, byName: map<string, int>)
    requires multiset(deploys) == multiset(deploys2) && multiset(logs) == multiset(logs2)
    ensures FromDeploys(deploys, users) == FromDeploys(deploys2, users)
    ensures FromLogs(logs, byName) == FromLogs(logs2, byName)
  {
    assert forall d :: d in deploys <==> d in multiset(deploys);
    assert forall d :: d in deploys2 <==> d in multiset(deploys2);
    assert forall e :: e in logs <==> e in multiset(logs);
    assert forall e :: e in logs2 <==> e in multiset(logs2);
    assert FromDeploys(deploys, users) == set d | d in deploys && DeployEvidence(d, users).Some? :: DeployEvidence(d, users).value;
    assert FromDeploys(deploys2, users) == set d | d in deploys2 && DeployEvidence(d, users).Some? :: DeployEvidence(d, users).value;
    assert FromLogs(logs, byName) == set e | e in logs && LogEvidence(e, byName).Some? :: LogEvidence(e, byName).value;
    assert FromLogs(logs2, byName) == set e | e in logs2 && LogEvidence(e, byName).Some? :: LogEvidence(e, byName).value;
  }

  // ---------- one instance ----------

  // The users a source names for an instance.
  function Named(source: set<Evidence>, inst: Instance): set<int> {
    set e | e in source && e.vmid == inst.vmid && (e.server.None? || e.server.value == inst.server) :: e.user
  }

  function UsersOf(candidates: seq<(Option<int>, Option<int>)>): set<int> {
    set i | 0 <= i < |candidates| && candidates[i].1.Some? :: candidates[i].1.value
  }

  // The only member of a set, if there is exactly one.
  ghost function Only(users: set<int>): (r: Option<int>)
    ensures forall u :: r == Some(u) <==> users == {u}
  {
    if u :| users == {u} then Some(u) else None
  }

  // The one user all candidates name, if they name anybody and agree.
  method PickBackfillOwner(candidates: seq<(Option<int>, Option<int>)>) returns (owner: Option<int>)
    ensures owner == Only(UsersOf(candidates))
  {
    var users := UsersOf(candidates);
    if |users| == 1 {
      OneElement(users);
      var u :| u in users;
      owner := Some(u);
    } else {
      assert forall u :: users == {u} ==> |users| == 1;
      owner := None;
    }
  }

  datatype Verdict = Assigned(user: int) | Ambiguous | Unmatched

  datatype Kind = Given | Disputed | Unknown

  function KindOf(v: Verdict): Kind {
    match v case Assigned(_) => Given case Ambiguous => Disputed case Unmatched => Unknown
  }

  // Sources come strongest first.
  ghost function Judge(sources: seq<set<Evidence>>, inst: Instance): Verdict {
    if sources == [] then Unmatched
    else
      var users := Named(sources[0], inst);
      var rest := Judge(sources[1..], inst);
      if Only(users).Some? then Assigned(Only(users).value)
      else if users != {} && rest.Unmatched? then Ambiguous
      else rest
  }

  // Source `k` names only `u`, and no stronger source names exactly one user.
  predicate Decides(sources: seq<set<Evidence>>, inst: Instance, k: nat, u: int) {
    && k < |sources|
    && Named(sources[k], inst) == {u}
    && forall j :: 0 <= j < k ==> |Named(sources[j], inst)| != 1
  }

  // The strongest source that is unanimous decides, and no other.
  lemma {:induction false} StrongestUnanimousDecides(sources: seq<set<Evidence>>, inst: Instance, u: int)
    ensures Judge(sources, inst) == Assigned(u) <==> exists k: nat :: Decides(sources, inst, k, u)
  {
    if sources != [] {
      var rest := sources[1..];
      StrongestUnanimousDecides(rest, inst, u);
      OnlyIsOne(Named(sources[0], inst));
      if Only(Named(sources[0], inst)).None? {
        forall k: nat ensures Decides(rest, inst, k, u) <==> Decides(sources, inst, k + 1, u) {
          DecidesLater(sources, inst, k, u);
        }
        if k: nat :| Decides(sources, inst, k, u) {
          assert k != 0;
          assert Decides(rest, inst, k - 1, u);
        }
      } else {
        if Judge(sources, inst) == Assigned(u) {
          assert Decides(sources, inst, 0, u);
        }
      }
    }
  }

  lemma DecidesLater(sources: seq<set<Evidence>>, inst: Instance, k: nat, u: int)
    requires sources != [] && |Named(sources[0], inst)| != 1
    ensures Decides(sources[1..], inst, k, u) <==> Decides(sources, inst, k + 1, u)
  {
  }

  // No evidence at all is told apart from evidence that names several users.
  lemma {:induction false} UnmatchedIffNoEvidence(sources: seq<set<Evidence>>, inst: Instance)
    ensures Judge(sources, inst).Unmatched? <==> forall k :: 0 <= k < |sources| ==> Named(sources[k], inst) == {}
  {
    if sources != [] {
      UnmatchedIffNoEvidence(sources[1..], inst);
      assert forall k :: 0 <= k < |sources| - 1 ==> sources[1..][k] == sources[k + 1];
      assert Named(sources[0], inst) == {} ==> Only(Named(sources[0], inst)).None?;
    }
  }

  lemma OneElement(users: set<int>)
    requires |users| == 1
    ensures exists u :: users == {u}
  {
    assert users != {};
    var u := SetFacts.Member(users);
    assert |users - {u}| == 0;
    assert users == {u};
  }

  lemma OnlyIsOne(users: set<int>)
    ensures Only(users).Some? <==> |users| == 1
  {
    if |users| == 1 {
      OneElement(users);
    }
  }

  // ---------- the table ----------

  predicate Orphan(inst: Instance) {
    inst.owner.None? && !inst.deleted
  }

  ghost function Owned(inst: Instance, sources: seq<set<Evidence>>): Instance {
    if Orphan(inst) && Judge(sources, inst).Assigned? then inst.(owner := Some(Judge(sources, inst).user)) else inst
  }

  ghost function AllOwned(rows: map<int, Instance>, sources: seq<set<Evidence>>): map<int, Instance> {
    map id | id in rows :: Owned(rows[id], sources)
  }

  function Orphans(rows: map<int, Instance>): set<int> {
    set id | id in rows && Orphan(rows[id])
  }

  ghost function Judged(rows: map<int, Instance>, sources: seq<set<Evidence>>, kind: Kind): set<int> {
    set id | id in rows && Orphan(rows[id]) && KindOf(Judge(sources, rows[id])) == kind
  }

  class InstanceTable {
    var rows: map<int, Instance>

    // The owner the evidence gives one instance.
    method JudgeOne(inst: Instance, fromDeploys: Index, fromLogs: Index) returns (verdict: Verdict)
      ensures verdict == Judge([Pieces(fromDeploys), Pieces(fromLogs)], inst)
    {
      var first, firstNamed := Consult(fromDeploys, inst);
      var second, secondNamed := Consult(fromLogs, inst);
      JudgeTwo(Pieces(fromDeploys), Pieces(fromLogs), inst);
      if first.Some? {
        return Assigned(first.value);
      }
      if second.Some? {
        return Assigned(second.value);
      }
      return if firstNamed || secondNamed then Ambiguous else Unmatched;
    }

    // One source: the applicable pairs of the VMID, and whom they agree on.
    method Consult(source: Index, inst: Instance) returns (owner: Option<int>, hadEvidence: bool)
      ensures owner == Only(Named(Pieces(source), inst))
      ensures hadEvidence <==> Named(Pieces(source), inst) != {}
    {
      var listed := if inst.vmid in source then source[inst.vmid] else [];
      var applicable: seq<(Option<int>, Option<int>)> := [];
      for i := 0 to |listed|
        invariant forall c :: c in applicable ==> c.1.Some?
        invariant UsersOf(applicable) == UsersApplying(listed[..i], inst)
        invariant applicable == [] <==> UsersOf(applicable) == {}
      {
        ApplyingSnoc(listed[..i], listed[i], inst);
        assert listed[..i + 1] == listed[..i] + [listed[i]];
        if listed[i].0.None? || listed[i].0.value == inst.server {
          UsersOfSnoc(applicable, (listed[i].0, Some(listed[i].1)));
          applicable := applicable + [(listed[i].0, Some(listed[i].1))];
        }
      }
      assert listed[..|listed|] == listed;
      NamedIsApplying(source, inst);
      owner := PickBackfillOwner(applicable);
      hadEvidence := applicable != [];
    }

    method BackfillInstanceOwner(deploys: seq<Deploy>, logs: seq<LogEntry>, users: map<int, string>)
      returns (matched: nat, ambiguous: nat, unmatched: nat, ghost byName: map<string, int>)
      modifies this
      ensures IsByName(users, byName)
      ensures var sources := [FromDeploys(deploys, users), FromLogs(logs, byName)];
              && rows == AllOwned(old(rows), sources)
              && matched == |Judged(old(rows), sources, Kind.Given)|
              && ambiguous == |Judged(old(rows), sources, Kind.Disputed)|
              && unmatched == |Judged(old(rows), sources, Kind.Unknown)|
    {
      var names := ByName(users);
      byName := names;
      var fromDeploys := CollectDeploys(deploys, users);
      var fromLogs := CollectLogs(logs, names);
      matched, ambiguous, unmatched := AssignOrphans(fromDeploys, fromLogs);
    }

    method AssignOrphans(fromDeploys: Index, fromLogs: Index) returns (matched: nat, ambiguous: nat, unmatched: nat)
      modifies this
      ensures var sources := [Pieces(fromDeploys), Pieces(fromLogs)];
              && rows == AllOwned(old(rows), sources)
              && matched == |Judged(old(rows), sources, Kind.Given)|
              && ambiguous == |Judged(old(rows), sources, Kind.Disputed)|
              && unmatched == |Judged(old(rows), sources, Kind.Unknown)|
    {
      ghost var sources := [Pieces(fromDeploys), Pieces(fromLogs)];
      ghost var before := rows;
      matched, ambiguous, unmatched := 0, 0, 0;
      var todo := Orphans(rows);
      NothingDone(before, sources);
      while todo != {}
        invariant todo <= Orphans(before)
        invariant rows == PartlyOwned(before, sources, todo)
        invariant matched == Count(before, sources, Kind.Given, todo)
        invariant ambiguous == Count(before, sources, Kind.Disputed, todo)
        invariant unmatched == Count(before, sources, Kind.Unknown, todo)
        decreases todo
      {
        var id := SetFacts.Pick(todo);
        var verdict := JudgeOne(rows[id], fromDeploys, fromLogs);
        OwnOne(before, sources, todo, id);
        CountOne(before, sources, Kind.Given, todo, id);
        CountOne(before, sources, Kind.Disputed, todo, id);
        CountOne(before, sources, Kind.Unknown, todo, id);
        match verdict {
          case Assigned(u) =>
            rows := rows[id := rows[id].(owner := Some(u))];
            matched := matched + 1;
          case Ambiguous => ambiguous := ambiguous + 1;
          case Unmatched => unmatched := unmatched + 1;
        }
        todo := todo - {id};
      }
      AllDone(before, sources);
    }
  }

  // The table while the instances in `todo` still wait.
  ghost function PartlyOwned(rows: map<int, Instance>, sources: seq<set<Evidence>>, todo: set<int>): map<int, Instance> {
    map id | id in rows :: if id in todo then rows[id] else Owned(rows[id], sources)
  }

  ghost function Count(rows: map<int, Instance>, sources: seq<set<Evidence>>, kind: Kind, todo: set<int>): nat {
    |Judged(rows, sources, kind) - todo|
  }

  lemma NothingDone(rows: map<int, Instance>, sources: seq<set<Evidence>>)
    ensures PartlyOwned(rows, sources, Orphans(rows)) == rows
    ensures forall kind :: Count(rows, sources, kind, Orphans(rows)) == 0
  {
    assert forall id :: id in rows && id !in Orphans(rows) ==> Owned(rows[id], sources) == rows[id];
    forall kind ensures Judged(rows, sources, kind) - Orphans(rows) == {} {
    }
  }

  lemma AllDone(rows: map<int, Instance>, sources: seq<set<Evidence>>)
    ensures PartlyOwned(rows, sources, {}) == AllOwned(rows, sources)
    ensures forall kind :: Count(rows, sources, kind, {}) == |Judged(rows, sources, kind)|
  {
  }

  lemma OwnOne(rows: map<int, Instance>, sources: seq<set<Evidence>>, todo: set<int>, id: int)
    requires id in todo && id in Orphans(rows)
    ensures id in PartlyOwned(rows, sources, todo) && PartlyOwned(rows, sources, todo)[id] == rows[id]
    ensures PartlyOwned(rows, sources, todo - {id}) ==
            match Judge(sources, rows[id])
            case Assigned(u) => PartlyOwned(rows, sources, todo)[id := rows[id].(owner := Some(u))]
            case _ => PartlyOwned(rows, sources, todo)
  {
  }

  lemma CountOne(rows: map<int, Instance>, sources: seq<set<Evidence>>, kind: Kind, todo: set<int>, id: int)
    requires id in todo && id in Orphans(rows)
    ensures Count(rows, sources, kind, todo - {id}) ==
            Count(rows, sources, kind, todo) + if KindOf(Judge(sources, rows[id])) == kind then 1 else 0
  {
    DoneWithOne(Judged(rows, sources, kind), todo, id);
  }

  lemma DoneWithOne(judged: set<int>, todo: set<int>, id: int)
    requires id in todo
    ensures |judged - (todo - {id})| == |judged - todo| + if id in judged then 1 else 0
  {
    assert judged - (todo - {id}) == (judged - todo) + if id in judged then {id} else {};
  }

  function UsersApplying(listed: seq<(Option<int>, int)>, inst: Instance): set<int> {
    set i | 0 <= i < |listed| && (listed[i].0.None? || listed[i].0.value == inst.server) :: listed[i].1
  }

  lemma ApplyingSnoc(listed: seq<(Option<int>, int)>, last: (Option<int>, int), inst: Instance)
    ensures UsersApplying(listed + [last], inst) ==
            UsersApplying(listed, inst) + if last.0.None? || last.0.value == inst.server then {last.1} else {}
  {
    var more := listed + [last];
    assert more[|listed|] == last;
    assert forall i :: 0 <= i < |listed| ==> more[i] == listed[i];
  }

  lemma UsersOfSnoc(candidates: seq<(Option<int>, Option<int>)>, last: (Option<int>, Option<int>))
    requires last.1.Some?
    ensures UsersOf(candidates + [last]) == UsersOf(candidates) + {last.1.value}
  {
    var more := candidates + [last];
    assert more[|candidates|] == last;
    assert forall i :: 0 <= i < |candidates| ==> more[i] == candidates[i];
  }

  lemma NamedIsApplying(source: Index, inst: Instance)
    ensures Named(Pieces(source), inst) == UsersApplying(if inst.vmid in source then source[inst.vmid] else [], inst)
  {
    var listed := if inst.vmid in source then source[inst.vmid] else [];
    forall u | u in UsersApplying(listed, inst) ensures u in Named(Pieces(source), inst) {
      var i :| 0 <= i < |listed| && (listed[i].0.None? || listed[i].0.value == inst.server) && listed[i].1 == u;
      assert Evidence(source[inst.vmid][i].0, inst.vmid, source[inst.vmid][i].1) in Pieces(source);
    }
  }

  lemma JudgeTwo(first: set<Evidence>, second: set<Evidence>, inst: Instance)
    ensures Judge([first, second], inst) ==
            if Only(Named(first, inst)).Some? then Assigned(Only(Named(first, inst)).value)
            else if Only(Named(second, inst)).Some? then Assigned(Only(Named(second, inst)).value)
            else if Named(first, inst) != {} || Named(second, inst) != {} then Ambiguous
            else Unmatched
  {
    var none: seq<set<Evidence>> := [];
    assert [first, second][1..] == [second] && [second][1..] == none;
    assert Judge(none, inst) == Unmatched;
    assert Judge([first, second], inst) == if Only(Named(first, inst)).Some? then Assigned(Only(Named(first, inst)).value)
      else if Named(first, inst) != {} && Judge([second], inst).Unmatched? then Ambiguous else Judge([second], inst);
  }

  // ---------- what the backfill promises ----------

  // Every orphan is counted once.
  lemma CountsAddUp(rows: map<int, Instance>, sources: seq<set<Evidence>>)
    ensures |Judged(rows, sources, Kind.Given)| + |Judged(rows, sources, Kind.Disputed)| +
            |Judged(rows, sources, Kind.Unknown)| == |Orphans(rows)|
  {
    var a, b, c := Judged(rows, sources, Kind.Given), Judged(rows, sources, Kind.Disputed), Judged(rows, sources, Kind.Unknown);
    forall id ensures id in Orphans(rows) <==> id in a || id in b || id in c {
      if id in Orphans(rows) {
        var kind := KindOf(Judge(sources, rows[id]));
        assert id in Judged(rows, sources, kind);
      }
    }
    assert a !! b && (a + b) !! c && a + b + c == Orphans(rows);
  }

  // A second run assigns nothing, and the table stays as the first one left it.
  lemma SecondRunAssignsNothing(rows: map<int, Instance>, sources: seq<set<Evidence>>)
    ensures Judged(AllOwned(rows, sources), sources, Kind.Given) == {}
    ensures AllOwned(AllOwned(rows, sources), sources) == AllOwned(rows, sources)
  {
    var after := AllOwned(rows, sources);
    forall id | id in after
      ensures Owned(after[id], sources) == after[id]
      ensures Orphan(after[id]) ==> KindOf(Judge(sources, after[id])) != Kind.Given
    {
      assert after[id] == Owned(rows[id], sources);
    }
  }

  // Owned and deleted instances are left alone, and nothing but the owner of an orphan changes.
  lemma OwnedRowsStay(rows: map<int, Instance>, sources: seq<set<Evidence>>, id: int)
    requires id in rows
    ensures rows[id].owner.Some? || rows[id].deleted ==> AllOwned(rows, sources)[id] == rows[id]
    ensures AllOwned(rows, sources)[id].(owner := rows[id].owner) == rows[id]
    ensures rows[id].owner == None && !rows[id].deleted ==>
              forall u :: AllOwned(rows, sources)[id].owner == Some(u) <==> exists k: nat :: Decides(sources, rows[id], k, u)
  {
    assert AllOwned(rows, sources)[id] == Owned(rows[id], sources);
    forall u | Orphan(rows[id])
      ensures AllOwned(rows, sources)[id].owner == Some(u) <==> exists k: nat :: Decides(sources, rows[id], k, u)
    {
      StrongestUnanimousDecides(sources, rows[id], u);
    }
  }

  // Only accounts that exist become owners.
  lemma OwnersExist(rows: map<int, Instance>, deploys: seq<Deploy>, logs: seq<LogEntry>, users: map<int, string>, byName: map<string, int>, id: int)
    requires IsByName(users, byName) && id in rows && Orphan(rows[id])
    ensures var after := AllOwned(rows, [FromDeploys(deploys, users), FromLogs(logs, byName)])[id];
            after.owner.Some? ==> after.owner.value in users
  {
    var sources := [FromDeploys(deploys, users), FromLogs(logs, byName)];
    if Judge(sources, rows[id]).Assigned? {
      var u := Judge(sources, rows[id]).user;
      StrongestUnanimousDecides(sources, rows[id], u);
      var k: nat :| Decides(sources, rows[id], k, u);
      assert u in Named(sources[k], rows[id]);
      var e: Evidence :| e in sources[k] && e.user == u;
      assert e.user in users;
    }
  }
}
