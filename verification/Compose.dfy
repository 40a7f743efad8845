/**
 Making a compose file self-contained: undeclared networks are declared, the services of the Umbrel
 runtime are taken out, and the main service's port is published.
 */
module Compose {
  import opened Wrappers
  import opened YamlTree
  import opened PyText
  import EnvSubst
  import Decimal

  const EXTERNAL := Dict([("external", Bool(true))])

  // The text a value converts to. Nested lists and dictionaries are only marked as such.
  function Text(v: Yaml): string {
    match v
    case Null => "None"
    case Bool(b) => if b then "True" else "False"
    case Int(i) => Decimal.PrintInt(i)
    case Str(s) => s
    case Other(t) => t
    case List(_) => "[]"
    case Dict(_) => "{}"
  }

  function ToInt(v: Yaml): Option<int> {
    match v
    case Int(i) => Some(i)
    case Str(s) => DigitsToInt(s)
    case _ => None
  }

  // ---------- the Umbrel runtime ----------

  predicate IsInfra(name: string) {
    var low := Lower(name);
    low == "app_proxy" || low == "tor" || EndsWith(low, "_tor") || EndsWith(low, "-tor")
  }

  function EnvItem(items: seq<Yaml>, key: string): Option<string> {
    if items == [] then None
    else if key + "=" <= Text(items[0]) then Some(Text(items[0])[|key| + 1..])
    else EnvItem(items[1..], key)
  }

  function EnvGet(env: Option<Yaml>, key: string): Option<string> {
    match env
    case Some(Dict(entries)) =>
      (match Get(entries, key) case Some(v) => if v.Null? then None else Some(Text(v)) case None => None)
    case Some(List(items)) => EnvItem(items, key)
    case _ => None
  }

  // Lists and dictionaries cannot be looked up in a set; the attempt aborts the normalisation.
  predicate Hashable(v: Yaml) {
    !v.List? && !v.Dict?
  }

  predicate NamesOne(v: Yaml, removed: set<string>) {
    v.Str? && v.s in removed
  }

  function KeepItems(items: seq<Yaml>, removed: set<string>): seq<Yaml> {
    if items == [] then []
    else if NamesOne(items[0], removed) then KeepItems(items[1..], removed)
    else [items[0]] + KeepItems(items[1..], removed)
  }

  function KeepEntries(d: Entries, removed: set<string>): Entries {
    if d == [] then []
    else if d[0].0 in removed then KeepEntries(d[1..], removed)
    else [d[0]] + KeepEntries(d[1..], removed)
  }

  function StripDepends(service: Yaml, removed: set<string>): Option<Yaml> {
    match service
    case Dict(fields) =>
      (match Get(fields, "depends_on")
       case Some(List(items)) =>
         if exists i :: 0 <= i < |items| && !Hashable(items[i]) then None
         else
           var kept := KeepItems(items, removed);
           Some(Dict(if kept == [] then Drop(fields, "depends_on") else Put(fields, "depends_on", List(kept))))
       case Some(Dict(deps)) =>
         var kept := KeepEntries(deps, removed);
         Some(Dict(if kept == [] then Drop(fields, "depends_on") else Put(fields, "depends_on", Dict(kept))))
       case _ => Some(service))
    case _ => Some(service)
  }

  function StripAll(services: Entries, removed: set<string>): Option<Entries> {
    if services == [] then Some([])
    else match (StripDepends(services[0].1, removed), StripAll(services[1..], removed))
      case (Some(v), Some(rest)) => Some([(services[0].0, v)] + rest)
      case _ => None
  }

  function Infra(services: Entries): set<string> {
    set i | 0 <= i < |services| && IsInfra(services[i].0) :: services[i].0
  }

  // The services that are left, without dangling dependencies.
  function Remaining(services: Entries): Option<Entries> {
    var removed := Infra(services);
    if removed == {} then Some(services) else StripAll(KeepEntries(services, removed), removed)
  }

  function FirstNamedIn(services: Entries, host: string): Option<string> {
    if services == [] then None
    else if Contains(host, services[0].0) then Some(services[0].0)
    else FirstNamedIn(services[1..], host)
  }

  function FirstWithImage(services: Entries): Option<string> {
    if services == [] then None
    else if services[0].1.Dict? && TruthyAt(services[0].1.entries, "image") then Some(services[0].0)
    else FirstWithImage(services[1..])
  }

  function UmbrelMain(services: Entries, host: Option<string>): Option<string> {
    if services == [] then None
    else if host.Some? && host.value != "" && FirstNamedIn(services, host.value).Some? then FirstNamedIn(services, host.value)
    else if |services| == 1 then Some(services[0].0)
    else if FirstWithImage(services).Some? then FirstWithImage(services)
    else Some(services[0].0)
  }

  // ---------- Runtipi ----------

  function Field(v: Yaml, key: string): Option<Yaml> {
    if v.Dict? then Get(v.entries, key) else None
  }

  predicate DeclaredMain(service: Yaml) {
    var rt := Field(service, "x-runtipi");
    rt.Some? && rt.value.Dict? && TruthyAt(rt.value.entries, "is_main")
  }

  function FirstDeclaredMain(services: Entries): Option<string> {
    if services == [] then None
    else if DeclaredMain(services[0].1) then Some(services[0].0)
    else FirstDeclaredMain(services[1..])
  }

  function RuntipiMain(services: Entries): Option<string> {
    if FirstDeclaredMain(services).Some? then FirstDeclaredMain(services)
    else if |services| == 1 then Some(services[0].0)
    else None
  }

  function RuntipiPort(services: Entries): Option<int> {
    match RuntipiMain(services)
    case None => None
    case Some(main) =>
      match Get(services, main)
      case None => None
      case Some(service) =>
        match Field(service, "x-runtipi")
        case Some(Dict(rt)) => (match Get(rt, "internal_port") case Some(v) => ToInt(v) case None => None)
        case _ => None
  }

  // ---------- networks ----------

  function NamedNetworks(service: Yaml): set<string> {
    match Field(service, "networks")
    case Some(List(items)) => set i | 0 <= i < |items| :: Text(items[i])
    case Some(Dict(entries)) => set i | 0 <= i < |entries| :: entries[i].0
    case _ => {}
  }

  function Referenced(services: Entries): set<string> {
    if services == [] then {} else NamedNetworks(services[0].1) + Referenced(services[1..])
  }

  function Declared(doc: Entries): Entries {
    match Get(doc, "networks") case Some(Dict(top)) => top case _ => []
  }

  // `after` is `top` with each missing name added once; the order of the additions is not determined.
  ghost predicate Declares(top: Entries, names: set<string>, after: Entries) {
    && top <= after
    && (DistinctKeys(top) ==> DistinctKeys(after))
    && (forall i :: |top| <= i < |after| ==> after[i].1 == EXTERNAL && after[i].0 in names && !HasKey(top, after[i].0))
    && (forall n :: n in names ==> HasKey(after, n))
    && (forall k :: HasKey(top, k) ==> Get(after, k) == Get(top, k))
  }

  // ---------- ports ----------

  function LastTwo(s: string): Option<string> {
    var parts := Split(s, ':');
    if |parts| >= 2 then Some(parts[|parts| - 2]) else None
  }

  function PortEnv(hostPort: Option<int>): EnvSubst.Env {
    if hostPort.Some? && hostPort.value != 0 then map["APP_PORT" := Decimal.PrintInt(hostPort.value)] else map[]
  }

  // The host side of an entry of `ports`, in short or long syntax.
  function PublishedHostPort(entry: Yaml, hostPort: Option<int>): Option<int> {
    match entry
    case Dict(fields) =>
      (match Get(fields, "published")
       case Some(pub) => if pub.Null? then None else DigitsToInt(EnvSubst.Subst(Text(pub), PortEnv(hostPort)))
       case None => None)
    case _ =>
      match LastTwo(EnvSubst.Subst(Text(entry), PortEnv(hostPort)))
      case Some(part) => DigitsToInt(part)
      case None => None
  }

  // The catalogue's 0 and 80 mean that no port was chosen; a port the user chose is respected.
  function ChosenPort(hostPort: Option<int>, explicit: bool, internal: int): int {
    if hostPort.Some? && hostPort.value != 0 && (explicit || hostPort.value != 80) then hostPort.value else internal
  }

  function PortEntry(pub: int, internal: int): Yaml {
    Str(Decimal.PrintInt(pub) + ":" + Decimal.PrintInt(internal))
  }

  function OrElse(a: Option<int>, b: int): int {
    if a.Some? && a.value != 0 then a.value else b
  }

  // The main service with its port published, and the port to reach it at.
  function PublishPort(fields: Entries, internal: Option<int>, hostPort: Option<int>, explicit: bool): (Entries, Option<int>) {
    var known := internal.Some? && internal.value != 0;
    if known && !TruthyAt(fields, "ports") then
      var pub := ChosenPort(hostPort, explicit, internal.value);
      (Put(fields, "ports", List([PortEntry(pub, internal.value)])), Some(pub))
    else match Get(fields, "ports")
      case Some(List(items)) =>
        if items == [] then (fields, None)
        else if known then (fields, Some(OrElse(PublishedHostPort(items[0], hostPort), internal.value)))
        else (fields, PublishedHostPort(items[0], hostPort))
      case _ => (fields, None)
  }

  // ---------- the whole normalisation ----------

  datatype Source = Runtipi | Umbrel

  // `Unchanged` hands back the original text, `Rewritten` the text of another tree.
  datatype Outcome = Unchanged(published: Option<int>) | Rewritten(doc: Entries, published: Option<int>)

  datatype Plan = Plan(services: Entries, main: Option<string>, internal: Option<int>)

  function PlanFor(services: Entries, source: Source, hostPort: Option<int>): Option<Plan> {
    match source
    case Runtipi => Some(Plan(services, RuntipiMain(services), RuntipiPort(services)))
    case Umbrel =>
      var env := match Get(services, "app_proxy") case Some(ap) => Field(ap, "environment") case None => None;
      var port := match EnvGet(env, "APP_PORT") case Some(s) => DigitsToInt(s) case None => None;
      match Remaining(services)
      case None => None
      case Some(left) =>
        Some(Plan(left, UmbrelMain(left, EnvGet(env, "APP_HOST")),
                  if port.None? && hostPort.Some? && hostPort.value != 0 then hostPort else port))
  }

  function WithPort(plan: Plan, hostPort: Option<int>, explicit: bool): (Entries, Option<int>) {
    if plan.main.None? then (plan.services, None)
    else match Get(plan.services, plan.main.value)
      case Some(Dict(fields)) =>
        var (after, published) := PublishPort(fields, plan.internal, hostPort, explicit);
        (Put(plan.services, plan.main.value, Dict(after)), published)
      case _ => (plan.services, None)
  }

  // The outcome for services that become `after` and networks that become `top`.
  function Rebuilt(doc: Entries, services: Entries, after: Entries, names: set<string>, top: Entries, published: Option<int>): Outcome {
    if after == services && (names == {} || top == Declared(doc)) then Unchanged(published)
    else if names == {} then Rewritten(Put(doc, "services", Dict(after)), published)
    else Rewritten(Put(Put(doc, "services", Dict(after)), "networks", Dict(top)), published)
  }

  // What the normalisation may return for a document.
  ghost predicate Normalises(doc: Entries, source: Source, hostPort: Option<int>, explicit: bool, out: Outcome) {
    match Get(doc, "services")
    case Some(Dict(services)) =>
      (match PlanFor(services, source, hostPort)
       case None => out == Unchanged(None)
       case Some(plan) =>
         var (after, published) := WithPort(plan, hostPort, explicit);
         var names := Referenced(plan.services);
         exists top :: Declares(Declared(doc), names, top) && out == Rebuilt(doc, services, after, names, top, published))
    case _ => out == Unchanged(None)
  }
}
