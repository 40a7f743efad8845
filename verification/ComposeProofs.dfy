/** What a normalised compose file guarantees, whatever the file was. */
module ComposeProofs {
  import opened Wrappers
  import opened YamlTree
  import opened PyText
  import opened Compose
  import Decimal
  import EnvSubst

  function Tree(doc: Entries, out: Outcome): Entries {
    match out case Unchanged(_) => doc case Rewritten(after, _) => after
  }

  // The file has services and nothing aborts the normalisation.
  predicate Proceeds(doc: Entries, source: Source, hostPort: Option<int>) {
    match Get(doc, "services")
    case Some(Dict(services)) => PlanFor(services, source, hostPort).Some?
    case _ => false
  }

  function RemovedFrom(doc: Entries, source: Source): set<string> {
    if source == Umbrel then Infra(ServicesOf(doc)) else {}
  }

  // ---------- what the services become ----------

  lemma PublishKeepsFields(fields: Entries, internal: Option<int>, hostPort: Option<int>, explicit: bool)
    ensures forall k :: k != "ports" ==> Get(PublishPort(fields, internal, hostPort, explicit).0, k) == Get(fields, k)
  {
    if internal.Some? && internal.value != 0 && !TruthyAt(fields, "ports") {
      PutGet(fields, "ports", List([PortEntry(ChosenPort(hostPort, explicit, internal.value), internal.value)]));
    }
  }

  // Two services that agree outside `ports`, and everywhere unless it is the main one.
  ghost predicate AgreesButPorts(before: Yaml, after: Yaml, isMain: bool) {
    if before.Dict? && isMain then after.Dict? && forall k :: k != "ports" ==> Get(after.entries, k) == Get(before.entries, k)
    else after == before
  }

  lemma WithPortAgrees(plan: Plan, hostPort: Option<int>, explicit: bool)
    ensures var after := WithPort(plan, hostPort, explicit).0;
            && KeysOf(after) == KeysOf(plan.services)
            && (forall n :: HasKey(after, n) <==> HasKey(plan.services, n))
            && (forall n :: HasKey(after, n) ==>
                  AgreesButPorts(Get(plan.services, n).value, Get(after, n).value, plan.main == Some(n)))
            && (DistinctKeys(plan.services) ==> DistinctKeys(after))
  {
    if plan.main.Some? {
      match Get(plan.services, plan.main.value)
      case Some(Dict(fields)) =>
        var (after, published) := PublishPort(fields, plan.internal, hostPort, explicit);
        PublishKeepsFields(fields, plan.internal, hostPort, explicit);
        PutGet(plan.services, plan.main.value, Dict(after));
        PutKeepsKeys(plan.services, plan.main.value, Dict(after));
      case _ =>
    }
  }

  lemma {:induction false} KeepEntriesGet(d: Entries, removed: set<string>)
    ensures forall k :: Get(KeepEntries(d, removed), k) == if k in removed then None else Get(d, k)
    ensures DistinctKeys(d) ==> DistinctKeys(KeepEntries(d, removed))
    ensures forall i :: 0 <= i < |KeepEntries(d, removed)| ==> KeepEntries(d, removed)[i].0 !in removed
  {
    if d != [] {
      KeepEntriesGet(d[1..], removed);
      if d[0].0 !in removed {
        assert KeepEntries(d, removed)[1..] == KeepEntries(d[1..], removed);
      }
    }
  }

  lemma {:induction false} KeepItemsDrops(items: seq<Yaml>, removed: set<string>)
    ensures forall i :: 0 <= i < |KeepItems(items, removed)| ==> !NamesOne(KeepItems(items, removed)[i], removed)
    ensures forall x :: multiset(KeepItems(items, removed))[x] == if NamesOne(x, removed) then 0 else multiset(items)[x]
  {
    if items != [] {
      KeepItemsDrops(items[1..], removed);
      assert items == [items[0]] + items[1..];
    }
  }

  // Dependencies after the removal: the others in their order, or no entry when none is left.
  predicate DependsStripped(before: Option<Yaml>, after: Option<Yaml>, removed: set<string>) {
    match before
    case Some(List(items)) => after == if KeepItems(items, removed) == [] then None else Some(List(KeepItems(items, removed)))
    case Some(Dict(deps)) => after == if KeepEntries(deps, removed) == [] then None else Some(Dict(KeepEntries(deps, removed)))
    case _ => after == before
  }

  ghost predicate AgreesButDepends(before: Yaml, after: Yaml, removed: set<string>) {
    if before.Dict? then
      after.Dict? && (forall k :: k != "depends_on" ==> Get(after.entries, k) == Get(before.entries, k)) &&
      (DistinctKeys(before.entries) ==>
         DependsStripped(Get(before.entries, "depends_on"), Get(after.entries, "depends_on"), removed))
    else after == before
  }

  lemma StripDependsAgrees(service: Yaml, removed: set<string>)
    ensures StripDepends(service, removed).Some? ==> AgreesButDepends(service, StripDepends(service, removed).value, removed)
  {
    if service.Dict? {
      var fields := service.entries;
      DropGet(fields, "depends_on");
      match Get(fields, "depends_on")
      case Some(List(items)) => PutGet(fields, "depends_on", List(KeepItems(items, removed)));
      case Some(Dict(deps)) => PutGet(fields, "depends_on", Dict(KeepEntries(deps, removed)));
      case _ =>
    }
  }

  lemma {:induction false} StripAllKeys(services: Entries, removed: set<string>)
    requires StripAll(services, removed).Some?
    ensures KeysOf(StripAll(services, removed).value) == KeysOf(services)
  {
    if services != [] {
      StripAllKeys(services[1..], removed);
      var after := StripAll(services, removed).value;
      assert after[1..] == StripAll(services[1..], removed).value;
      assert KeysOf(after) == [services[0].0] + KeysOf(after[1..]);
      assert KeysOf(services) == [services[0].0] + KeysOf(services[1..]);
    }
  }

  lemma {:induction false} StripAllGet(services: Entries, removed: set<string>, n: string)
    requires StripAll(services, removed).Some?
    ensures HasKey(StripAll(services, removed).value, n) <==> HasKey(services, n)
    ensures HasKey(services, n) ==>
              AgreesButDepends(Get(services, n).value, Get(StripAll(services, removed).value, n).value, removed)
  {
    if services != [] {
      StripAllGet(services[1..], removed, n);
      StripDependsAgrees(services[0].1, removed);
      assert StripAll(services, removed).value[1..] == StripAll(services[1..], removed).value;
    }
  }

  lemma {:induction false} SameKeysStayDistinct(a: Entries, b: Entries)
    requires KeysOf(a) == KeysOf(b) && DistinctKeys(a)
    ensures DistinctKeys(b)
  {
    if b != [] {
      assert KeysOf(a)[0] == a[0].0 && KeysOf(b)[0] == b[0].0;
      assert KeysOf(a[1..]) == KeysOf(a)[1..] && KeysOf(b[1..]) == KeysOf(b)[1..];
      SameKeysStayDistinct(a[1..], b[1..]);
      if HasKey(b[1..], b[0].0) {
        HasEntry(b[1..], b[0].0);
        var i :| 0 <= i < |b| - 1 && b[1..][i].0 == b[0].0;
        assert KeysOf(b[1..])[i] == KeysOf(a[1..])[i];
        GetEntry(a[1..], i);
      }
    }
  }

  lemma StripAllAgrees(services: Entries, removed: set<string>)
    requires StripAll(services, removed).Some?
    ensures var after := StripAll(services, removed).value;
            && KeysOf(after) == KeysOf(services)
            && (forall n :: HasKey(after, n) <==> HasKey(services, n))
            && (forall n :: HasKey(after, n) ==> AgreesButDepends(Get(services, n).value, Get(after, n).value, removed))
            && (DistinctKeys(services) ==> DistinctKeys(after))
  {
    var after := StripAll(services, removed).value;
    StripAllKeys(services, removed);
    if DistinctKeys(services) {
      SameKeysStayDistinct(services, after);
    }
    forall n
      ensures HasKey(after, n) <==> HasKey(services, n)
      ensures HasKey(services, n) ==> AgreesButDepends(Get(services, n).value, Get(after, n).value, removed)
    {
      StripAllGet(services, removed, n);
    }
  }

  lemma InfraIs(services: Entries)
    ensures forall n :: n in Infra(services) <==> HasKey(services, n) && IsInfra(n)
  {
    forall n | n in Infra(services) ensures HasKey(services, n) && IsInfra(n) {
      var i :| 0 <= i < |services| && IsInfra(services[i].0) && services[i].0 == n;
      GetEntry(services, i);
    }
    forall n | HasKey(services, n) && IsInfra(n) ensures n in Infra(services) {
      HasEntry(services, n);
    }
  }

  lemma {:induction false} HasEntry(d: Entries, key: string)
    requires HasKey(d, key)
    ensures exists i :: 0 <= i < |d| && d[i].0 == key && Get(d, key) == Some(d[i].1)
  {
    if d[0].0 != key {
      HasEntry(d[1..], key);
      var i :| 0 <= i < |d| - 1 && d[1..][i].0 == key && Get(d[1..], key) == Some(d[1..][i].1);
      assert d[i + 1] == d[1..][i];
    }
  }

  // The services left by either source, before the port is published.
  lemma PlanAgrees(services: Entries, source: Source, hostPort: Option<int>)
    requires PlanFor(services, source, hostPort).Some?
    ensures var left := PlanFor(services, source, hostPort).value.services;
            var removed := if source == Umbrel then Infra(services) else {};
            && (forall n :: HasKey(left, n) <==> HasKey(services, n) && n !in removed)
            && (removed == {} ==> left == services)
            && KeysOf(left) == KeysOf(KeepEntries(services, removed))
            && (forall n :: HasKey(left, n) && removed != {} ==> AgreesButDepends(Get(services, n).value, Get(left, n).value, removed))
            && (DistinctKeys(services) ==> DistinctKeys(left))
  {
    var removed := if source == Umbrel then Infra(services) else {};
    KeepEntriesGet(services, removed);
    KeepNothing(services);
    if removed != {} {
      StripAllAgrees(KeepEntries(services, removed), removed);
    }
  }

  lemma {:induction false} KeepNothing(d: Entries)
    ensures KeepEntries(d, {}) == d
  {
    if d != [] {
      KeepNothing(d[1..]);
    }
  }

  // ---------- the tree as a whole ----------

  // How an outcome is put together from the services and networks it ends with.
  ghost predicate Assembled(doc: Entries, out: Outcome, after: Entries, names: set<string>, top: Entries) {
    var tree := Tree(doc, out);
    && Get(tree, "services") == Some(Dict(after))
    && (if names == {} then Get(tree, "networks") == Get(doc, "networks") else Declared(tree) == top)
    && (forall k :: k != "services" && k != "networks" ==> Get(tree, k) == Get(doc, k))
    && (out.Unchanged? <==> tree == doc)
  }

  lemma RebuiltIsAssembled(doc: Entries, services: Entries, after: Entries, names: set<string>, top: Entries, published: Option<int>)
    requires Get(doc, "services") == Some(Dict(services))
    requires names != {} && top == [] ==> false
    ensures Assembled(doc, Rebuilt(doc, services, after, names, top, published), after, names, top)
  {
    var mid := Put(doc, "services", Dict(after));
    PutGet(doc, "services", Dict(after));
    PutGet(mid, "networks", Dict(top));
    if after == services {
      PutSame(doc, "services", Dict(after));
    }
  }

  // The pieces of an outcome that the statements below are about.
  lemma OutcomeShape(doc: Entries, source: Source, hostPort: Option<int>, explicit: bool, out: Outcome) returns (plan: Plan, top: Entries)
    requires Normalises(doc, source, hostPort, explicit, out) && Proceeds(doc, source, hostPort)
    ensures PlanFor(ServicesOf(doc), source, hostPort) == Some(plan)
    ensures out.published == WithPort(plan, hostPort, explicit).1
    ensures Declares(Declared(doc), Referenced(plan.services), top)
    ensures Assembled(doc, out, WithPort(plan, hostPort, explicit).0, Referenced(plan.services), top)
    ensures out == Rebuilt(doc, ServicesOf(doc), WithPort(plan, hostPort, explicit).0, Referenced(plan.services), top, out.published)
  {
    var services := ServicesOf(doc);
    plan := PlanFor(services, source, hostPort).value;
    var (after, published) := WithPort(plan, hostPort, explicit);
    var names := Referenced(plan.services);
    top :| Declares(Declared(doc), names, top) && out == Rebuilt(doc, services, after, names, top, published);
    if n :| n in names {
      assert HasKey(top, n);
    }
    RebuiltIsAssembled(doc, services, after, names, top, published);
  }

  lemma {:induction false} ReferencedCovers(services: Entries, name: string)
    requires HasKey(services, name)
    ensures NamedNetworks(Get(services, name).value) <= Referenced(services)
  {
    if services[0].0 != name {
      ReferencedCovers(services[1..], name);
    }
  }

  // Every network that a remaining service names is declared.
  lemma NetworksAreDeclared(doc: Entries, source: Source, hostPort: Option<int>, explicit: bool, out: Outcome,
                            service: string, network: string)
    requires Normalises(doc, source, hostPort, explicit, out) && Proceeds(doc, source, hostPort)
    requires HasKey(ServicesOf(Tree(doc, out)), service)
    requires network in NamedNetworks(Get(ServicesOf(Tree(doc, out)), service).value)
    ensures HasKey(Declared(Tree(doc, out)), network)
  {
    var plan, top := OutcomeShape(doc, source, hostPort, explicit, out);
    PortKeepsNetworks(plan, hostPort, explicit, service);
    ReferencedCovers(plan.services, service);
  }

  lemma PortKeepsNetworks(plan: Plan, hostPort: Option<int>, explicit: bool, service: string)
    requires HasKey(WithPort(plan, hostPort, explicit).0, service)
    ensures HasKey(plan.services, service)
    ensures NamedNetworks(Get(WithPort(plan, hostPort, explicit).0, service).value) == NamedNetworks(Get(plan.services, service).value)
  {
    WithPortAgrees(plan, hostPort, explicit);
    var before, after := Get(plan.services, service).value, Get(WithPort(plan, hostPort, explicit).0, service).value;
    assert AgreesButPorts(before, after, plan.main == Some(service));
    assert Field(after, "networks") == Field(before, "networks");
  }

  // Declared networks stay as they were; what is added is external and was named but undeclared.
  lemma DeclarationsAreKept(doc: Entries, source: Source, hostPort: Option<int>, explicit: bool, out: Outcome, n: string)
    requires Normalises(doc, source, hostPort, explicit, out) && Proceeds(doc, source, hostPort)
    ensures HasKey(Declared(doc), n) ==> Get(Declared(Tree(doc, out)), n) == Get(Declared(doc), n)
    ensures HasKey(Declared(Tree(doc, out)), n) && !HasKey(Declared(doc), n) ==>
              && Get(Declared(Tree(doc, out)), n) == Some(Dict([("external", Bool(true))]))
              && n in Referenced(PlanFor(ServicesOf(doc), source, hostPort).value.services)
  {
    var plan, top := OutcomeShape(doc, source, hostPort, explicit, out);
    if Referenced(plan.services) != {} && HasKey(top, n) && !HasKey(Declared(doc), n) {
      AddedNetwork(Declared(doc), Referenced(plan.services), top, n);
    }
  }

  lemma AddedNetwork(top: Entries, names: set<string>, after: Entries, n: string)
    requires Declares(top, names, after) && HasKey(after, n) && !HasKey(top, n)
    ensures Get(after, n) == Some(EXTERNAL) && n in names
  {
    HasEntry(after, n);
    var i :| 0 <= i < |after| && after[i].0 == n && Get(after, n) == Some(after[i].1);
    if i < |top| {
      GetEntry(top, i);
    }
  }

  predicate NamesNone(depends: Option<Yaml>, removed: set<string>) {
    match depends
    case Some(List(items)) => forall i :: 0 <= i < |items| && items[i].Str? ==> items[i].s !in removed
    case Some(Dict(deps)) => forall i :: 0 <= i < |deps| ==> deps[i].0 !in removed
    case _ => true
  }

  lemma StrippedNamesNone(before: Option<Yaml>, after: Option<Yaml>, removed: set<string>)
    requires DependsStripped(before, after, removed)
    ensures NamesNone(after, removed)
  {
    match before
    case Some(List(items)) => KeepItemsDrops(items, removed);
    case Some(Dict(deps)) => KeepEntriesGet(deps, removed);
    case _ =>
  }

  // No service of the Umbrel runtime is left.
  lemma UmbrelRuntimeIsGone(doc: Entries, hostPort: Option<int>, explicit: bool, out: Outcome, name: string)
    requires Normalises(doc, Umbrel, hostPort, explicit, out) && Proceeds(doc, Umbrel, hostPort)
    ensures HasKey(ServicesOf(Tree(doc, out)), name) <==> HasKey(ServicesOf(doc), name) && !IsInfra(name)
  {
    var plan, _ := OutcomeShape(doc, Umbrel, hostPort, explicit, out);
    WithPortAgrees(plan, hostPort, explicit);
    PlanAgrees(ServicesOf(doc), Umbrel, hostPort);
    InfraIs(ServicesOf(doc));
  }

  // No dependency of a remaining service names a service that was removed; the other dependencies
  // stay in their order.
  lemma NoDanglingDepends(doc: Entries, hostPort: Option<int>, explicit: bool, out: Outcome, name: string)
    requires Normalises(doc, Umbrel, hostPort, explicit, out) && Proceeds(doc, Umbrel, hostPort)
    requires HasKey(ServicesOf(Tree(doc, out)), name) && HasKey(ServicesOf(doc), name)
    requires var before := Get(ServicesOf(doc), name).value; before.Dict? ==> DistinctKeys(before.entries)
    ensures NamesNone(Field(Get(ServicesOf(Tree(doc, out)), name).value, "depends_on"), Infra(ServicesOf(doc)))
    ensures Infra(ServicesOf(doc)) != {} ==>
              DependsStripped(Field(Get(ServicesOf(doc), name).value, "depends_on"),
                              Field(Get(ServicesOf(Tree(doc, out)), name).value, "depends_on"), Infra(ServicesOf(doc)))
  {
    var plan, _ := OutcomeShape(doc, Umbrel, hostPort, explicit, out);
    PortKeepsDepends(plan, hostPort, explicit, name);
    LeftNamesNone(ServicesOf(doc), hostPort, name);
  }

  lemma PortKeepsDepends(plan: Plan, hostPort: Option<int>, explicit: bool, service: string)
    requires HasKey(WithPort(plan, hostPort, explicit).0, service)
    ensures HasKey(plan.services, service)
    ensures Field(Get(WithPort(plan, hostPort, explicit).0, service).value, "depends_on") ==
            Field(Get(plan.services, service).value, "depends_on")
  {
    WithPortAgrees(plan, hostPort, explicit);
    assert AgreesButPorts(Get(plan.services, service).value, Get(WithPort(plan, hostPort, explicit).0, service).value,
                          plan.main == Some(service));
  }

  lemma LeftNamesNone(services: Entries, hostPort: Option<int>, name: string)
    requires PlanFor(services, Umbrel, hostPort).Some?
    requires HasKey(PlanFor(services, Umbrel, hostPort).value.services, name) && HasKey(services, name)
    requires var before := Get(services, name).value; before.Dict? ==> DistinctKeys(before.entries)
    ensures NamesNone(Field(Get(PlanFor(services, Umbrel, hostPort).value.services, name).value, "depends_on"), Infra(services))
    ensures Infra(services) != {} ==>
              DependsStripped(Field(Get(services, name).value, "depends_on"),
                              Field(Get(PlanFor(services, Umbrel, hostPort).value.services, name).value, "depends_on"), Infra(services))
  {
    PlanAgrees(services, Umbrel, hostPort);
    var before, left := Get(services, name).value, Get(PlanFor(services, Umbrel, hostPort).value.services, name).value;
    if Infra(services) != {} && before.Dict? {
      assert AgreesButDepends(before, left, Infra(services));
      StrippedNamesNone(Get(before.entries, "depends_on"), Get(left.entries, "depends_on"), Infra(services));
    }
  }

  // The field of a remaining service may only change where the normalisation is meant to change it.
  ghost predicate FieldsFaithful(before: Yaml, after: Yaml, removed: set<string>, isMain: bool) {
    if before.Dict? then
      after.Dict? &&
      forall k :: (k == "depends_on" ==> removed == {}) && (k == "ports" ==> !isMain) ==>
        Get(after.entries, k) == Get(before.entries, k)
    else after == before
  }

  // Nothing else changes: the remaining services keep their order, every field but the stripped
  // dependencies and the main service's ports keeps its value, and so does the rest of the file.
  lemma RestIsFaithful(doc: Entries, source: Source, hostPort: Option<int>, explicit: bool, out: Outcome)
    requires Normalises(doc, source, hostPort, explicit, out) && Proceeds(doc, source, hostPort)
    ensures var after, removed := ServicesOf(Tree(doc, out)), RemovedFrom(doc, source);
            && KeysOf(after) == KeysOf(KeepEntries(ServicesOf(doc), removed))
            && (forall n :: HasKey(after, n) <==> HasKey(ServicesOf(doc), n) && n !in removed)
            && (forall n :: HasKey(after, n) ==>
                  FieldsFaithful(Get(ServicesOf(doc), n).value, Get(after, n).value, removed,
                                 PlanFor(ServicesOf(doc), source, hostPort).value.main == Some(n)))
    ensures forall k :: k != "services" && k != "networks" ==> Get(Tree(doc, out), k) == Get(doc, k)
  {
    var plan, _ := OutcomeShape(doc, source, hostPort, explicit, out);
    WithPortAgrees(plan, hostPort, explicit);
    PlanAgrees(ServicesOf(doc), source, hostPort);
  }

  // The original text is handed back exactly when the tree is the same.
  lemma TextIsKeptIffTreeIs(doc: Entries, source: Source, hostPort: Option<int>, explicit: bool, out: Outcome)
    requires Normalises(doc, source, hostPort, explicit, out) && Proceeds(doc, source, hostPort)
    ensures out.Unchanged? <==> Tree(doc, out) == doc
  {
    var _, _ := OutcomeShape(doc, source, hostPort, explicit, out);
  }

  // ---------- Runtipi twice ----------

  lemma NoColonNoDollar(i: int)
    ensures ':' !in Decimal.PrintInt(i) && '$' !in Decimal.PrintInt(i)
  {
  }

  lemma PrintedPortReads(pub: int)
    ensures DigitsToInt(Decimal.PrintInt(pub)) == if pub >= 0 then Some(pub) else None
  {
    if pub >= 0 {
      PrintedIsRead(pub);
    } else {
      var t := Decimal.PrintInt(pub);
      assert t[0] == '-' && Decimal.IsDigit(t[|t| - 1]);
      TrimmedIsKept(t);
    }
  }

  lemma HostPartIsSplitOff(host: string, container: string)
    requires ':' !in host && ':' !in container
    ensures LastTwo(host + ":" + container) == Some(host)
  {
    SplitPart(host, ':', container);
    SplitWhole(container, ':');
    assert host + ":" + container == host + [':'] + container;
  }

  // The generated entry is read back as the port it publishes, unless that is negative.
  lemma PortEntryReadsBack(pub: int, internal: int, hostPort: Option<int>)
    ensures PublishedHostPort(PortEntry(pub, internal), hostPort) == if pub >= 0 then Some(pub) else None
  {
    var host, container := Decimal.PrintInt(pub), Decimal.PrintInt(internal);
    NoColonNoDollar(pub);
    NoColonNoDollar(internal);
    EnvSubst.NoDollarNoChange(host + ":" + container, PortEnv(hostPort));
    HostPartIsSplitOff(host, container);
    PrintedPortReads(pub);
  }

  // Publishing a port neither moves the main service nor changes what it declares.
  lemma {:induction false} PutKeepsFirstMain(services: Entries, name: string, v: Yaml)
    requires HasKey(services, name) && Field(v, "x-runtipi") == Field(Get(services, name).value, "x-runtipi")
    ensures FirstDeclaredMain(Put(services, name, v)) == FirstDeclaredMain(services)
    ensures |Put(services, name, v)| == |services|
  {
    if services[0].0 != name {
      PutKeepsFirstMain(services[1..], name, v);
      assert Put(services, name, v)[1..] == Put(services[1..], name, v);
    } else {
      assert Put(services, name, v)[1..] == services[1..];
    }
  }

  lemma {:induction false} PutKeepsReferenced(services: Entries, name: string, v: Yaml)
    requires HasKey(services, name) && NamedNetworks(v) == NamedNetworks(Get(services, name).value)
    ensures Referenced(Put(services, name, v)) == Referenced(services)
  {
    if services[0].0 != name {
      PutKeepsReferenced(services[1..], name, v);
      assert Put(services, name, v)[1..] == Put(services[1..], name, v);
    } else {
      assert Put(services, name, v)[1..] == services[1..];
    }
  }

  // A generated entry is read back, and the port reported again, unless the chosen port is negative
  // and differs from the internal one.
  predicate ReadsBack(fields: Entries, internal: Option<int>, hostPort: Option<int>, explicit: bool) {
    internal.Some? && internal.value != 0 && !TruthyAt(fields, "ports") ==>
      var pub := ChosenPort(hostPort, explicit, internal.value);
      pub >= 0 || pub == internal.value
  }

  predicate ReportsBack(plan: Plan, hostPort: Option<int>, explicit: bool) {
    plan.main.Some? ==>
      match Get(plan.services, plan.main.value)
      case Some(Dict(fields)) => ReadsBack(fields, plan.internal, hostPort, explicit)
      case _ => true
  }

  lemma PublishTwice(fields: Entries, internal: Option<int>, hostPort: Option<int>, explicit: bool)
    ensures var (once, reported) := PublishPort(fields, internal, hostPort, explicit);
            var (twice, again) := PublishPort(once, internal, hostPort, explicit);
            && twice == once
            && (again == reported <==> ReadsBack(fields, internal, hostPort, explicit))
  {
    if internal.Some? && internal.value != 0 && !TruthyAt(fields, "ports") {
      var pub := ChosenPort(hostPort, explicit, internal.value);
      PutGet(fields, "ports", List([PortEntry(pub, internal.value)]));
      PortEntryReadsBack(pub, internal.value, hostPort);
    }
  }

  lemma MainStays(services: Entries, main: string, fields: Entries, after: Entries)
    requires RuntipiMain(services) == Some(main) && Get(services, main) == Some(Dict(fields))
    requires Get(after, "x-runtipi") == Get(fields, "x-runtipi") && Get(after, "networks") == Get(fields, "networks")
    ensures var once := Put(services, main, Dict(after));
            && RuntipiMain(once) == Some(main) && Get(once, main) == Some(Dict(after))
            && RuntipiPort(once) == RuntipiPort(services)
            && Referenced(once) == Referenced(services)
  {
    var once := Put(services, main, Dict(after));
    PutGet(services, main, Dict(after));
    PutKeepsFirstMain(services, main, Dict(after));
    PutKeepsReferenced(services, main, Dict(after));
    PutKeepsKeys(services, main, Dict(after));
    if FirstDeclaredMain(services).None? {
      assert KeysOf(once)[0] == once[0].0 && KeysOf(services)[0] == services[0].0;
    }
  }

  // The plan for services whose port is published is the plan they had before.
  lemma PlanStays(services: Entries, hostPort: Option<int>, explicit: bool)
    ensures var plan := PlanFor(services, Runtipi, hostPort).value;
            var once := WithPort(plan, hostPort, explicit).0;
            && PlanFor(once, Runtipi, hostPort).value == plan.(services := once)
            && Referenced(once) == Referenced(services)
  {
    var plan := PlanFor(services, Runtipi, hostPort).value;
    if plan.main.Some? {
      match Get(services, plan.main.value)
      case Some(Dict(fields)) =>
        PublishKeepsFields(fields, plan.internal, hostPort, explicit);
        MainStays(services, plan.main.value, fields, PublishPort(fields, plan.internal, hostPort, explicit).0);
      case _ =>
    }
  }

  lemma WithPortTwice(plan: Plan, hostPort: Option<int>, explicit: bool)
    ensures var (once, reported) := WithPort(plan, hostPort, explicit);
            var (twice, again) := WithPort(plan.(services := once), hostPort, explicit);
            && twice == once
            && (again == reported <==> ReportsBack(plan, hostPort, explicit))
  {
    if plan.main.Some? {
      match Get(plan.services, plan.main.value)
      case Some(Dict(fields)) =>
        var after := Dict(PublishPort(fields, plan.internal, hostPort, explicit).0);
        PutGet(plan.services, plan.main.value, after);
        PublishTwice(fields, plan.internal, hostPort, explicit);
        PutSame(Put(plan.services, plan.main.value, after), plan.main.value, after);
      case _ =>
    }
  }

  // Normalising the result again changes nothing, and reports the same port exactly when it reads back.
  lemma RuntipiIsIdempotent(doc: Entries, hostPort: Option<int>, explicit: bool, out: Outcome, again: Outcome)
    requires Normalises(doc, Runtipi, hostPort, explicit, out) && Proceeds(doc, Runtipi, hostPort)
    requires Normalises(Tree(doc, out), Runtipi, hostPort, explicit, again)
    ensures again.Unchanged?
    ensures again.published == out.published <==> ReportsBack(PlanFor(ServicesOf(doc), Runtipi, hostPort).value, hostPort, explicit)
  {
    var plan, top := OutcomeShape(doc, Runtipi, hostPort, explicit, out);
    var tree := Tree(doc, out);
    PlanStays(plan.services, hostPort, explicit);
    WithPortTwice(plan, hostPort, explicit);
    var plan2, top2 := OutcomeShape(tree, Runtipi, hostPort, explicit, again);
    if Referenced(plan.services) != {} {
      NothingToDeclare(top, Referenced(plan.services), top2);
    }
  }

  lemma FirstAddition(top: Entries, names: set<string>, after: Entries)
    requires Declares(top, names, after) && |after| > |top|
    ensures after[|top|].0 in names && !HasKey(top, after[|top|].0)
  {
  }

  lemma NothingToDeclare(top: Entries, names: set<string>, after: Entries)
    requires Declares(top, names, after) && forall n :: n in names ==> HasKey(top, n)
    ensures after == top
  {
    if |after| > |top| {
      FirstAddition(top, names, after);
      assert false;
    }
  }
}
