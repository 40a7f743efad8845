/** Who becomes the owner of an instance, told from the deploy tasks and log entries themselves. */
module OwnerEvidence {
  import opened Wrappers
  import opened PyText
  import opened OwnerBackfill

  // The record names no server, or the instance's own.
  predicate Applies(server: Option<int>, inst: Instance) {
    server == None || server == Some(inst.server)
  }

  // A deploy task of a known user for the instance.
  predicate DeployBacks(d: Deploy, users: map<int, string>, inst: Instance, user: int) {
    d.user == user && user in users && d.vmid == Some(inst.vmid) && Applies(d.server, inst)
  }

  // A successful log entry in which the user, by name, created a guest with the instance's VMID.
  predicate LogBacks(e: LogEntry, users: map<int, string>, inst: Instance, user: int) {
    && (e.action == "vm_create" || e.action == "ct_create" || e.action == "lxc_create" || e.action == "container_create")
    && e.success
    && user in users && users[user] != "" && e.username == Some(users[user])
    && e.resource.Some? && ParseInt(e.resource.value) == Some(inst.vmid)
    && Applies(e.server, inst)
  }

  predicate ByDeploy(deploys: seq<Deploy>, users: map<int, string>, inst: Instance, user: int) {
    exists i :: 0 <= i < |deploys| && DeployBacks(deploys[i], users, inst, user)
  }

  predicate ByLog(logs: seq<LogEntry>, users: map<int, string>, inst: Instance, user: int) {
    exists i :: 0 <= i < |logs| && LogBacks(logs[i], users, inst, user)
  }

  // Account names are unique.
  predicate UniqueNames(users: map<int, string>) {
    forall u, v :: u in users && v in users && users[u] == users[v] ==> u == v
  }

  lemma DeploysName(deploys: seq<Deploy>, users: map<int, string>, inst: Instance, user: int)
    ensures user in Named(FromDeploys(deploys, users), inst) <==> ByDeploy(deploys, users, inst, user)
  {
    if user in Named(FromDeploys(deploys, users), inst) {
      var e :| e in FromDeploys(deploys, users) && e.vmid == inst.vmid && (e.server.None? || e.server.value == inst.server) && e.user == user;
      var i :| 0 <= i < |deploys| && DeployEvidence(deploys[i], users) == Some(e);
      assert DeployBacks(deploys[i], users, inst, user);
    }
    if i :| 0 <= i < |deploys| && DeployBacks(deploys[i], users, inst, user) {
      var e := DeployEvidence(deploys[i], users).value;
      assert e in FromDeploys(deploys, users);
    }
  }

  lemma NameIsOf(users: map<int, string>, byName: map<string, int>, name: string, user: int)
    requires UniqueNames(users) && IsByName(users, byName)
    ensures name in byName && byName[name] == user <==> user in users && users[user] == name && name != ""
  {
  }

  lemma EntryNames(e: LogEntry, users: map<int, string>, byName: map<string, int>, inst: Instance, user: int)
    requires UniqueNames(users) && IsByName(users, byName)
    ensures LogBacks(e, users, inst, user) <==>
            var piece := LogEvidence(e, byName);
            piece.Some? && piece.value.vmid == inst.vmid && Applies(piece.value.server, inst) && piece.value.user == user
  {
    if e.username.Some? {
      NameIsOf(users, byName, e.username.value, user);
    }
  }

  lemma LogsName(logs: seq<LogEntry>, users: map<int, string>, byName: map<string, int>, inst: Instance, user: int)
    requires UniqueNames(users) && IsByName(users, byName)
    ensures user in Named(FromLogs(logs, byName), inst) <==> ByLog(logs, users, inst, user)
  {
    if user in Named(FromLogs(logs, byName), inst) {
      var e :| e in FromLogs(logs, byName) && e.vmid == inst.vmid && (e.server.None? || e.server.value == inst.server) && e.user == user;
      var i :| 0 <= i < |logs| && LogEvidence(logs[i], byName) == Some(e);
      EntryNames(logs[i], users, byName, inst, user);
    }
    if i :| 0 <= i < |logs| && LogBacks(logs[i], users, inst, user) {
      EntryNames(logs[i], users, byName, inst, user);
      var e := LogEvidence(logs[i], byName).value;
      assert e in FromLogs(logs, byName);
    }
  }

  // All deploy tasks that apply are the user's, and there is one.
  ghost predicate OnlyByDeploy(deploys: seq<Deploy>, users: map<int, string>, inst: Instance, user: int) {
    forall v :: ByDeploy(deploys, users, inst, v) <==> v == user
  }

  ghost predicate OnlyByLog(logs: seq<LogEntry>, users: map<int, string>, inst: Instance, user: int) {
    forall v :: ByLog(logs, users, inst, v) <==> v == user
  }

  // The owner of an orphan after the backfill is the one user whom all its deploy tasks name or, when
  // there is no such user, the one user whom all its log entries name; nobody else.
  lemma OwnerIsBacked(rows: map<int, Instance>, deploys: seq<Deploy>, logs: seq<LogEntry>, users: map<int, string>,
                      byName: map<string, int>, id: int, user: int)
    requires UniqueNames(users) && IsByName(users, byName) && id in rows && rows[id].owner == None && !rows[id].deleted
    ensures AllOwned(rows, [FromDeploys(deploys, users), FromLogs(logs, byName)])[id].owner == Some(user) <==>
            || OnlyByDeploy(deploys, users, rows[id], user)
            || ((forall v :: !OnlyByDeploy(deploys, users, rows[id], v)) && OnlyByLog(logs, users, rows[id], user))
  {
    var inst, first, second := rows[id], FromDeploys(deploys, users), FromLogs(logs, byName);
    forall v ensures Named(first, inst) == {v} <==> OnlyByDeploy(deploys, users, inst, v) {
      forall w ensures w in Named(first, inst) <==> ByDeploy(deploys, users, inst, w) {
        DeploysName(deploys, users, inst, w);
      }
      SameAsSingleton(Named(first, inst), v);
    }
    forall w ensures w in Named(second, inst) <==> ByLog(logs, users, inst, w) {
      LogsName(logs, users, byName, inst, w);
    }
    SameAsSingleton(Named(second, inst), user);
    JudgeTwo(first, second, inst);
  }

  lemma SameAsSingleton(s: set<int>, v: int)
    ensures s == {v} <==> forall w :: w in s <==> w == v
  {
    if forall w :: w in s <==> w == v {
      assert forall w :: w in s <==> w in {v};
    }
  }

  // An owner is always backed by a record about this very instance.
  lemma NobodyOwnsUnbacked(rows: map<int, Instance>, deploys: seq<Deploy>, logs: seq<LogEntry>, users: map<int, string>,
                           byName: map<string, int>, id: int, user: int)
    requires UniqueNames(users) && IsByName(users, byName) && id in rows && rows[id].owner == None && !rows[id].deleted
    requires AllOwned(rows, [FromDeploys(deploys, users), FromLogs(logs, byName)])[id].owner == Some(user)
    ensures ByDeploy(deploys, users, rows[id], user) || ByLog(logs, users, rows[id], user)
  {
    OwnerIsBacked(rows, deploys, logs, users, byName, id, user);
  }

  // An orphan that no record names is left without owner, however many records name its VMID on other servers.
  lemma OtherServersDoNotCount(rows: map<int, Instance>, deploys: seq<Deploy>, logs: seq<LogEntry>, users: map<int, string>,
                               byName: map<string, int>, id: int)
    requires UniqueNames(users) && IsByName(users, byName) && id in rows && rows[id].owner == None && !rows[id].deleted
    requires forall i :: 0 <= i < |deploys| && deploys[i].vmid == Some(rows[id].vmid) ==>
               deploys[i].server.Some? && deploys[i].server.value != rows[id].server
    requires forall i :: 0 <= i < |logs| && logs[i].resource.Some? && ParseInt(logs[i].resource.value) == Some(rows[id].vmid) ==>
               logs[i].server.Some? && logs[i].server.value != rows[id].server
    ensures AllOwned(rows, [FromDeploys(deploys, users), FromLogs(logs, byName)])[id] == rows[id]
  {
    var after := AllOwned(rows, [FromDeploys(deploys, users), FromLogs(logs, byName)])[id];
    OwnedRowsStay(rows, [FromDeploys(deploys, users), FromLogs(logs, byName)], id);
    if after.owner.Some? {
      NobodyOwnsUnbacked(rows, deploys, logs, users, byName, id, after.owner.value);
    }
  }
}
