/** The normalisation as the service carries it out: dictionaries changed step by step, and a flag for "changed". */
module ComposeSteps {
  import opened Wrappers
  import opened YamlTree
  import opened PyText
  import opened Compose
  import opened ComposeProofs
  import Decimal

  // What the parser guarantees of the dictionaries involved: no key twice.
  predicate Parsed(services: Entries) {
    DistinctKeys(services) &&
    forall i :: 0 <= i < |services| ==> ParsedService(services[i].1)
  }

  predicate ParsedService(service: Yaml) {
    service.Dict? ==>
      DistinctKeys(service.entries) &&
      match Get(service.entries, "depends_on") case Some(Dict(deps)) => DistinctKeys(deps) case _ => true
  }

  lemma {:induction false} DropIsKeep(d: Entries, key: string)
    requires DistinctKeys(d)
    ensures Drop(d, key) == KeepEntries(d, {key})
  {
    if d != [] {
      if d[0].0 == key {
        KeepAbsent(d[1..], key);
      } else {
        DropIsKeep(d[1..], key);
      }
    }
  }

  lemma {:induction false} KeepAbsent(d: Entries, key: string)
    requires !HasKey(d, key)
    ensures KeepEntries(d, {key}) == d
  {
    if d != [] {
      KeepAbsent(d[1..], key);
    }
  }

  lemma {:induction false} KeepTwice(d: Entries, a: set<string>, b: set<string>)
    ensures KeepEntries(KeepEntries(d, a), b) == KeepEntries(d, a + b)
  {
    if d != [] {
      KeepTwice(d[1..], a, b);
      if d[0].0 !in a {
        assert KeepEntries(d, a)[1..] == KeepEntries(d[1..], a);
      }
    }
  }

  // Taking keys out one at a time, in any order, leaves the other entries in theirs.
  method PopAll(d: Entries, keys: set<string>) returns (left: Entries)
    requires DistinctKeys(d)
    ensures left == KeepEntries(d, keys)
  {
    left := d;
    var todo := keys;
    KeepNothing(d);
    assert keys - todo == {};
    while todo != {}
      invariant todo <= keys
      invariant left == KeepEntries(d, keys - todo)
      invariant DistinctKeys(left)
      decreases todo
    {
      var key :| key in todo;
      DropIsKeep(left, key);
      KeepTwice(d, keys - todo, {key});
      assert keys - todo + {key} == keys - (todo - {key});
      DropGet(left, key);
      left := Drop(left, key);
      todo := todo - {key};
    }
    assert keys - todo == keys;
  }

  lemma {:induction false} KeepItemsSnoc(items: seq<Yaml>, last: Yaml, removed: set<string>)
    ensures KeepItems(items + [last], removed) ==
            KeepItems(items, removed) + if NamesOne(last, removed) then [] else [last]
  {
    if items == [] {
      assert items + [last] == [last] && [last][1..] == [];
    } else {
      KeepItemsSnoc(items[1..], last, removed);
      assert (items + [last])[0] == items[0] && (items + [last])[1..] == items[1..] + [last];
    }
  }

  method FilterDepends(items: seq<Yaml>, removed: set<string>) returns (kept: Option<seq<Yaml>>)
    ensures kept == if exists i :: 0 <= i < |items| && !Hashable(items[i]) then None else Some(KeepItems(items, removed))
  {
    var new_: seq<Yaml> := [];
    for i := 0 to |items|
      invariant forall j :: 0 <= j < i ==> Hashable(items[j])
      invariant new_ == KeepItems(items[..i], removed)
    {
      if !Hashable(items[i]) {
        return None;
      }
      KeepItemsSnoc(items[..i], items[i], removed);
      assert items[..i + 1] == items[..i] + [items[i]];
      if !NamesOne(items[i], removed) {
        new_ := new_ + [items[i]];
      }
    }
    assert items[..|items|] == items;
    return Some(new_);
  }

  method StripService(service: Yaml, removed: set<string>) returns (after: Option<Yaml>)
    requires ParsedService(service)
    ensures after == StripDepends(service, removed)
  {
    if !service.Dict? {
      return Some(service);
    }
    var fields := service.entries;
    match Get(fields, "depends_on")
    case Some(List(items)) =>
      var kept := FilterDepends(items, removed);
      if kept.None? {
        return None;
      }
      fields := if kept.value != [] then Put(fields, "depends_on", List(kept.value)) else Drop(fields, "depends_on");
      return Some(Dict(fields));
    case Some(Dict(deps)) =>
      var kept := PopAll(deps, removed);
      fields := if kept == [] then Drop(fields, "depends_on") else Put(fields, "depends_on", Dict(kept));
      return Some(Dict(fields));
    case _ =>
      return Some(service);
  }

  // Appending one stripped service to those already done.
  lemma {:induction false} StripAllSnoc(done: Entries, last: (string, Yaml), removed: set<string>)
    ensures StripAll(done + [last], removed) ==
            match (StripAll(done, removed), StripDepends(last.1, removed))
            case (Some(before), Some(v)) => Some(before + [(last.0, v)])
            case _ => None
  {
    if done == [] {
      assert done + [last] == [last] && [last][1..] == [];
      match StripDepends(last.1, removed)
      case Some(v) =>
        var one := [(last.0, v)];
        assert one + [] == one && [] + one == one;
      case None =>
    } else {
      StripAllSnoc(done[1..], last, removed);
      assert (done + [last])[1..] == done[1..] + [last];
      match (StripDepends(done[0].1, removed), StripAll(done[1..], removed), StripDepends(last.1, removed))
      case (Some(first), Some(middle), Some(v)) =>
        assert [(done[0].0, first)] + (middle + [(last.0, v)]) == [(done[0].0, first)] + middle + [(last.0, v)];
      case _ =>
    }
  }

  lemma {:induction false} StripAllFails(done: Entries, rest: Entries, removed: set<string>)
    requires StripAll(done, removed).None?
    ensures StripAll(done + rest, removed).None?
  {
    assert (done + rest)[1..] == done[1..] + rest;
    if StripDepends(done[0].1, removed).Some? {
      StripAllFails(done[1..], rest, removed);
    }
  }

  // Dependencies on removed services go; `None` when a dependency cannot be looked up.
  method StripDanglingDepends(services: Entries, removed: set<string>) returns (after: Option<Entries>)
    requires Parsed(services)
    ensures after == StripAll(services, removed)
  {
    var done: Entries := [];
    for i := 0 to |services|
      invariant StripAll(services[..i], removed) == Some(done)
    {
      var stripped := StripService(services[i].1, removed);
      StripAllSnoc(services[..i], services[i], removed);
      assert services[..i + 1] == services[..i] + [services[i]];
      if stripped.None? {
        StripAllFails(services[..i + 1], services[i + 1..], removed);
        assert services[..i + 1] + services[i + 1..] == services;
        return None;
      }
      done := done + [(services[i].0, stripped.value)];
    }
    assert services[..|services|] == services;
    return Some(done);
  }

  lemma {:induction false} KeepIsParsed(services: Entries, removed: set<string>)
    requires Parsed(services)
    ensures Parsed(KeepEntries(services, removed))
  {
    KeepEntriesGet(services, removed);
    if services != [] {
      KeepIsParsed(services[1..], removed);
    }
  }

  lemma {:induction false} KeepIsShorter(services: Entries, removed: set<string>)
    ensures |KeepEntries(services, removed)| <= |services|
    ensures (exists i :: 0 <= i < |services| && services[i].0 in removed) ==> |KeepEntries(services, removed)| < |services|
  {
    if services != [] {
      KeepIsShorter(services[1..], removed);
      if i :| 0 <= i < |services| && services[i].0 in removed {
        assert i > 0 ==> services[1..][i - 1].0 in removed;
      }
    }
  }

  // The services of the Umbrel runtime taken out, and the dependencies on them.
  method CutUmbrelRuntime(services: Entries) returns (left: Option<Entries>, changed: bool)
    requires Parsed(services)
    ensures left == Remaining(services)
    ensures changed <==> Infra(services) != {}
    ensures left.Some? && changed ==> left.value != services
  {
    var removed := Infra(services);
    if removed == {} {
      return Some(services), false;
    }
    var kept := PopAll(services, removed);
    KeepIsParsed(services, removed);
    left := StripDanglingDepends(kept, removed);
    changed := true;
    if left.Some? {
      StripAllKeys(kept, removed);
      KeepIsShorter(services, removed);
    }
  }

  lemma {:induction false} ReferencedSnoc(done: Entries, last: (string, Yaml))
    ensures Referenced(done + [last]) == Referenced(done) + NamedNetworks(last.1)
  {
    if done == [] {
      assert Referenced([last]) == NamedNetworks(last.1) + Referenced([last][1..]);
    } else {
      ReferencedSnoc(done[1..], last);
      assert (done + [last])[1..] == done[1..] + [last];
    }
  }

  method CollectNetworks(services: Entries) returns (referenced: set<string>)
    ensures referenced == Referenced(services)
  {
    referenced := {};
    for i := 0 to |services|
      invariant referenced == Referenced(services[..i])
    {
      ReferencedSnoc(services[..i], services[i]);
      assert services[..i + 1] == services[..i] + [services[i]];
      referenced := referenced + NamedNetworks(services[i].1);
    }
    assert services[..|services|] == services;
  }

  lemma {:induction false} PutNew(d: Entries, key: string, v: Yaml)
    requires !HasKey(d, key)
    ensures Put(d, key, v) == d + [(key, v)]
  {
    if d != [] {
      PutNew(d[1..], key, v);
    }
  }

  lemma DeclaredStays(top: Entries, names: set<string>, after: Entries, n: string)
    requires Declares(top, names, after) && HasKey(top, n)
    ensures HasKey(after, n)
  {
  }

  lemma DeclareOne(top: Entries, names: set<string>, after: Entries, net: string)
    requires Declares(top, names, after)
    ensures Declares(top, names + {net}, if HasKey(after, net) then after else Put(after, net, EXTERNAL))
  {
    if !HasKey(after, net) {
      var more := Put(after, net, EXTERNAL);
      PutNew(after, net, EXTERNAL);
      PutGet(after, net, EXTERNAL);
      assert forall n :: n in names ==> HasKey(after, n) && Get(more, n) == Get(after, n);
      if HasKey(top, net) {
        DeclaredStays(top, names, after, net);
        assert false;
      }
      assert forall k :: HasKey(top, k) ==> Get(after, k) == Get(top, k) && Get(more, k) == Get(after, k);
    }
  }

  // Every name not declared yet becomes an external network; the names come in any order.
  method DeclareNetworks(top: Entries, referenced: set<string>) returns (after: Entries, changed: bool)
    ensures Declares(top, referenced, after)
    ensures changed <==> after != top
  {
    after, changed := top, false;
    var todo := referenced;
    while todo != {}
      invariant todo <= referenced
      invariant Declares(top, referenced - todo, after)
      invariant changed <==> after != top
      decreases todo
    {
      var net :| net in todo;
      DeclareOne(top, referenced - todo, after, net);
      assert referenced - todo + {net} == referenced - (todo - {net});
      if !HasKey(after, net) {
        PutNew(after, net, EXTERNAL);
        after := Put(after, net, EXTERNAL);
        changed := true;
      }
      todo := todo - {net};
    }
    assert referenced - todo == referenced;
  }

  // The port of the main service: declared ones are read, and one is added when there is none.
  method PublishMain(services: Entries, main: Option<string>, internal: Option<int>, hostPort: Option<int>, explicit: bool)
    returns (after: Entries, published: Option<int>, changed: bool)
    ensures (after, published) == WithPort(Plan(services, main, internal), hostPort, explicit)
    ensures changed <==> after != services
  {
    after, published, changed := services, None, false;
    if main.None? || !HasKey(services, main.value) || !Get(services, main.value).value.Dict? {
      return;
    }
    var fields := Get(services, main.value).value.entries;
    PutSame(services, main.value, Dict(fields));
    if internal.Some? && internal.value != 0 {
      if !TruthyAt(fields, "ports") {
        var pub := if hostPort.Some? && hostPort.value != 0 && (explicit || hostPort.value != 80) then hostPort.value else internal.value;
        var ports := List([Str(Decimal.PrintInt(pub) + ":" + Decimal.PrintInt(internal.value))]);
        PutGet(fields, "ports", ports);
        PutGet(services, main.value, Dict(Put(fields, "ports", ports)));
        after := Put(services, main.value, Dict(Put(fields, "ports", ports)));
        published, changed := Some(pub), true;
      } else {
        var ports := Get(fields, "ports").value;
        if ports.List? && ports.items != [] {
          var read := PublishedHostPort(ports.items[0], hostPort);
          published := if read.Some? && read.value != 0 then read else internal;
        }
      }
    } else if TruthyAt(fields, "ports") {
      var ports := Get(fields, "ports").value;
      if ports.List? && ports.items != [] {
        published := PublishedHostPort(ports.items[0], hostPort);
      }
    }
  }

  lemma {:induction false} PutsCommute(d: Entries, a: string, x: Yaml, b: string, y: Yaml)
    requires HasKey(d, a) && a != b
    ensures Put(Put(d, a, x), b, y) == Put(Put(d, b, y), a, x)
  {
    if d[0].0 == a {
      assert Put(d, a, x)[1..] == d[1..] && Put(d, b, y)[1..] == Put(d[1..], b, y);
    } else if d[0].0 == b {
      assert Put(d, b, y)[1..] == d[1..] && Put(d, a, x)[1..] == Put(d[1..], a, x);
    } else {
      PutsCommute(d[1..], a, x, b, y);
      assert Put(d, b, y)[1..] == Put(d[1..], b, y) && Put(d, a, x)[1..] == Put(d[1..], a, x);
    }
  }

  // Declarations put first and services after, as the service does it, give the specified tree.
  lemma TreeIsRebuilt(doc: Entries, given: Entries, after: Entries, names: set<string>, top: Entries,
                      published: Option<int>, early: bool, late: bool)
    requires Get(doc, "services") == Some(Dict(given))
    requires Declares(Declared(doc), names, top)
    requires top != Declared(doc) && names != {} ==> early
    requires early || late <==> after != given || (names != {} && top != Declared(doc))
    ensures var tree := if names != {} && early then Put(doc, "networks", Dict(top)) else doc;
            Rebuilt(doc, given, after, names, top, published) ==
            if early || late then Rewritten(Put(tree, "services", Dict(after)), published) else Unchanged(published)
  {
    if names != {} {
      PutsCommute(doc, "services", Dict(after), "networks", Dict(top));
      if !early {
        var n :| n in names;
        assert HasKey(top, n);
        PutGet(doc, "services", Dict(after));
        PutSame(Put(doc, "services", Dict(after)), "networks", Dict(top));
      }
    }
  }

  lemma FewerServices(given: Entries, left: Entries, after: Entries)
    requires Infra(given) != {} && Remaining(given) == Some(left) && KeysOf(after) == KeysOf(left)
    ensures after != given
  {
    StripAllKeys(KeepEntries(given, Infra(given)), Infra(given));
    KeepIsShorter(given, Infra(given));
    var n :| n in Infra(given);
  }

  // What the service reads off the document before it looks at networks and ports.
  method PrepareSource(given: Entries, source: Source) returns (left: Option<Plan>, changed: bool)
    requires Parsed(given)
    ensures left.None? <==> PlanFor(given, source, None).None?
    ensures left.Some? ==> PlanFor(given, source, None) == left
    ensures changed <==> source == Umbrel && Infra(given) != {}
    ensures left.Some? && changed ==> left.value.services != given
    ensures left.Some? && !changed ==> left.value.services == given
  {
    if source == Runtipi {
      return Some(Plan(given, RuntipiMain(given), RuntipiPort(given))), false;
    }
    var env := match Get(given, "app_proxy") case Some(ap) => Field(ap, "environment") case None => None;
    var internal := match EnvGet(env, "APP_PORT") case Some(s) => DigitsToInt(s) case None => None;
    var services, cut := CutUmbrelRuntime(given);
    changed := cut;
    left := match services
      case None => None
      case Some(kept) => Some(Plan(kept, UmbrelMain(kept, EnvGet(env, "APP_HOST")), internal));
  }

  // The original text is kept when nothing was flagged, and the result is one the specification allows.
  method NormalizeCompose(doc: Entries, source: Source, hostPort: Option<int>, explicit: bool) returns (out: Outcome)
    requires Parsed(ServicesOf(doc))
    ensures Normalises(doc, source, hostPort, explicit, out)
  {
    if !HasKey(doc, "services") || !Get(doc, "services").value.Dict? {
      return Unchanged(None);
    }
    var given := Get(doc, "services").value.entries;
    var plan, changed := PrepareSource(given, source);
    if plan.None? {
      return Unchanged(None);
    }
    var Plan(services, main, internal) := plan.value;
    var referenced := CollectNetworks(services);
    var tree, top := doc, Declared(doc);
    if referenced != {} {
      var added;
      top, added := DeclareNetworks(top, referenced);
      changed := changed || added;
      if changed {
        tree := Put(tree, "networks", Dict(top));
      }
    } else {
      assert Declares(top, referenced, top);
    }
    if source == Umbrel && internal.None? && hostPort.Some? && hostPort.value != 0 {
      internal := hostPort;
    }
    assert PlanFor(given, source, hostPort) == Some(Plan(services, main, internal));
    var after, published, portAdded := PublishMain(services, main, internal, hostPort, explicit);
    tree := Put(tree, "services", Dict(after));
    if source == Umbrel && Infra(given) != {} {
      WithPortAgrees(Plan(services, main, internal), hostPort, explicit);
      FewerServices(given, services, after);
    }
    TreeIsRebuilt(doc, given, after, referenced, top, published, changed, portAdded);
    out := if changed || portAdded then Rewritten(tree, published) else Unchanged(published);
  }
}
