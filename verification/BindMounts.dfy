/** The host paths that the volumes of a compose file bind: which they are, and in which order. */
module BindMounts {
  import opened Wrappers
  import opened EnvSubst
  import opened YamlTree
  import opened PyText

  // ---------- one volume ----------

  // Strips a set of characters, not a prefix.
  function StripDotsAndSlashes(s: string): (r: string)
    ensures |r| <= |s|
  {
    if s != "" && (s[0] == '.' || s[0] == '/') then StripDotsAndSlashes(s[1..]) else s
  }

  function BeforeColon(s: string): string {
    match IndexOf(s, ':') case Some(i) => s[..i] case None => s
  }

  // What the volume text `v` names, once it is evaluated.
  function SourceOf(v: string, env: Env): string {
    BeforeColon(Subst(v, env))
  }

  function Located(appDir: string, source: string): string
    requires source != ""
  {
    if source[0] == '/' then source else appDir + "/" + StripDotsAndSlashes(source)
  }

  // A source that names a managed volume starts with none of these.
  predicate IsPath(v: string) {
    v != "" && (v[0] == '/' || v[0] == '.' || v[0] == '~' || v[0] == '$')
  }

  function HostPath(v: string, appDir: string, env: Env): Option<string> {
    if ':' !in v || !IsPath(v) then None
    else
      var source := SourceOf(v, env);
      if source == "" then None else Some(Located(appDir, source))
  }

  // ---------- all volumes ----------

  function HostPaths(vols: seq<Yaml>, appDir: string, env: Env): seq<string> {
    if vols == [] then [] else
      var rest := HostPaths(vols[..|vols| - 1], appDir, env);
      match vols[|vols| - 1]
      case Str(v) => (match HostPath(v, appDir, env) case Some(h) => rest + [h] case None => rest)
      case _ => rest
  }

  function VolumesOf(service: Yaml): seq<Yaml> {
    match service
    case Dict(entries) =>
      (match Get(entries, "volumes") case Some(List(items)) => items case _ => [])
    case _ => []
  }

  function AllHostPaths(services: Entries, appDir: string, env: Env): seq<string> {
    if services == [] then [] else
      AllHostPaths(services[..|services| - 1], appDir, env) + HostPaths(VolumesOf(services[|services| - 1].1), appDir, env)
  }

  // Later repetitions are dropped.
  function Distinct(s: seq<string>): seq<string> {
    if s == [] then [] else
      var front := Distinct(s[..|s| - 1]);
      if s[|s| - 1] in front then front else front + [s[|s| - 1]]
  }

  function Services(doc: Yaml): Entries {
    if doc.Dict? then ServicesOf(doc.entries) else []
  }

  method BindMountHosts(doc: Yaml, appDir: string, env: Env) returns (hosts: seq<string>)
    ensures hosts == Distinct(AllHostPaths(Services(doc), appDir, env))
  {
    if !doc.Dict? {
      return [];
    }
    var found := Get(doc.entries, "services");
    if found.None? || !found.value.Dict? {
      return [];
    }
    var all := CollectHosts(found.value.entries, appDir, env);
    hosts := Unique(all);
  }

  method CollectHosts(services: Entries, appDir: string, env: Env) returns (all: seq<string>)
    ensures all == AllHostPaths(services, appDir, env)
  {
    all := [];
    for i := 0 to |services|
      invariant all == AllHostPaths(services[..i], appDir, env)
    {
      assert services[..i + 1][..i] == services[..i];
      var hosts := ServiceHosts(VolumesOf(services[i].1), appDir, env);
      all := all + hosts;
    }
    assert services[..|services|] == services;
  }

  method ServiceHosts(vols: seq<Yaml>, appDir: string, env: Env) returns (hosts: seq<string>)
    ensures hosts == HostPaths(vols, appDir, env)
  {
    hosts := [];
    for j := 0 to |vols|
      invariant hosts == HostPaths(vols[..j], appDir, env)
    {
      assert vols[..j + 1][..j] == vols[..j];
      if vols[j].Str? {
        var v := vols[j].s;
        if ':' in v && IsPath(v) {
          var source := SourceOf(v, env);
          if source != "" {
            hosts := hosts + [Located(appDir, source)];
          }
        }
      }
    }
    assert vols[..|vols|] == vols;
  }

  method Unique(all: seq<string>) returns (hosts: seq<string>)
    ensures hosts == Distinct(all)
  {
    hosts := [];
    for i := 0 to |all|
      invariant hosts == Distinct(all[..i])
    {
      assert all[..i + 1][..i] == all[..i];
      if all[i] !in hosts {
        hosts := hosts + [all[i]];
      }
    }
    assert all[..|all|] == all;
  }

  // ---------- the result ----------

  // The position of the first occurrence.
  function FirstAt(s: seq<string>, x: string): (i: nat)
    requires x in s
    ensures i < |s| && s[i] == x && forall k :: 0 <= k < i ==> s[k] != x
  {
    if s[0] == x then 0 else 1 + FirstAt(s[1..], x)
  }

  lemma FirstAtPrefix(s: seq<string>, x: string, n: nat)
    requires n <= |s| && x in s[..n]
    ensures x in s && FirstAt(s, x) == FirstAt(s[..n], x)
  {
  }

  // Each path once, and in the order of first mention.
  lemma {:induction false} DistinctKeepsOrder(s: seq<string>)
    ensures forall x :: x in Distinct(s) <==> x in s
    ensures forall i, j :: 0 <= i < j < |Distinct(s)| ==>
              Distinct(s)[i] != Distinct(s)[j] && FirstAt(s, Distinct(s)[i]) < FirstAt(s, Distinct(s)[j])
  {
    if s != [] {
      var front, x := s[..|s| - 1], s[|s| - 1];
      var d := Distinct(front);
      DistinctKeepsOrder(front);
      assert forall y :: y in s <==> y in front || y == x;
      forall i, j | 0 <= i < j < |Distinct(s)|
        ensures Distinct(s)[i] != Distinct(s)[j] && FirstAt(s, Distinct(s)[i]) < FirstAt(s, Distinct(s)[j])
      {
        FirstAtPrefix(s, d[i], |s| - 1);
        if j < |d| {
          FirstAtPrefix(s, d[j], |s| - 1);
        }
      }
    }
  }

  lemma {:induction false} StripKeeps(s: string)
    ensures StripDotsAndSlashes(s) == s <==> s == "" || (s[0] != '.' && s[0] != '/')
  {
  }

  lemma BeforeColonIs(s: string, rest: string)
    ensures BeforeColon(s + ":" + rest) == s <==> ':' !in s
  {
    var t := s + ":" + rest;
    assert t[|s|] == ':';
    var i := IndexOf(t, ':').value;
    if ':' !in s {
      assert forall k :: 0 <= k < |s| ==> t[k] == s[k];
      assert forall k :: 0 <= k < i ==> t[..i][k] == t[k];
      assert i == |s|;
      assert t[..|s|] == s;
    } else {
      assert ':' !in t[..i];
    }
  }

  // A volume binds a path of the host when it has a target and starts like a path, or with a variable,
  // and its source is not empty once it is evaluated. Anything else is a volume that Docker manages.
  lemma BindsWhen(v: string, appDir: string, env: Env)
    ensures HostPath(v, appDir, env).Some? <==>
            ':' in v && (v[0] == '/' || v[0] == '.' || v[0] == '~' || v[0] == '$') && SourceOf(v, env) != ""
    ensures HostPath(v, appDir, env).Some? && SourceOf(v, env)[0] == '/' ==> HostPath(v, appDir, env) == Some(SourceOf(v, env))
  {
  }

  predicate Binds(volume: Yaml, appDir: string, env: Env, h: string) {
    volume.Str? && HostPath(volume.s, appDir, env) == Some(h)
  }

  predicate SomeBinds(volumes: seq<Yaml>, appDir: string, env: Env, h: string) {
    exists j :: 0 <= j < |volumes| && Binds(volumes[j], appDir, env, h)
  }

  // One of the volumes that the service lists binds the path.
  predicate ServiceBinds(service: Yaml, appDir: string, env: Env, h: string) {
    service.Dict? && HasKey(service.entries, "volumes") && Get(service.entries, "volumes").value.List? &&
    SomeBinds(Get(service.entries, "volumes").value.items, appDir, env, h)
  }

  predicate SomeServiceBinds(services: Entries, appDir: string, env: Env, h: string) {
    exists i :: 0 <= i < |services| && ServiceBinds(services[i].1, appDir, env, h)
  }

  lemma SomeBindsSnoc(front: seq<Yaml>, last: Yaml, appDir: string, env: Env, h: string)
    ensures SomeBinds(front + [last], appDir, env, h) <==> SomeBinds(front, appDir, env, h) || Binds(last, appDir, env, h)
  {
    var all := front + [last];
    assert all[|front|] == last;
    assert forall j :: 0 <= j < |front| ==> all[j] == front[j];
  }

  lemma AnyLast<T>(s: seq<T>, p: T -> bool)
    requires s != []
    ensures Any(s, p) <==> Any(s[..|s| - 1], p) || p(s[|s| - 1])
  {
    var front := s[..|s| - 1];
    assert forall i :: 0 <= i < |front| ==> s[i] == front[i];
    if p(s[|s| - 1]) {
      assert p(s[|s| - 1]) && 0 <= |s| - 1 < |s|;
    }
  }

  predicate Any<T>(s: seq<T>, p: T -> bool) {
    exists i :: 0 <= i < |s| && p(s[i])
  }

  lemma SomeServiceLast(services: Entries, appDir: string, env: Env, h: string)
    requires services != []
    ensures SomeServiceBinds(services, appDir, env, h) <==>
            SomeServiceBinds(services[..|services| - 1], appDir, env, h) || ServiceBinds(services[|services| - 1].1, appDir, env, h)
  {
    var p := (e: (string, Yaml)) => ServiceBinds(e.1, appDir, env, h);
    AnyLast(services, p);
    assert SomeServiceBinds(services, appDir, env, h) <==> Any(services, p);
    assert SomeServiceBinds(services[..|services| - 1], appDir, env, h) <==> Any(services[..|services| - 1], p);
  }

  lemma {:induction false} HostPathsAre(vols: seq<Yaml>, appDir: string, env: Env, h: string)
    ensures h in HostPaths(vols, appDir, env) <==> SomeBinds(vols, appDir, env, h)
  {
    if vols != [] {
      var front, last := vols[..|vols| - 1], vols[|vols| - 1];
      HostPathsAre(front, appDir, env, h);
      HostPathsLast(vols, appDir, env, h);
      SomeBindsSnoc(front, last, appDir, env, h);
      assert vols == front + [last];
    }
  }

  lemma HostPathsLast(vols: seq<Yaml>, appDir: string, env: Env, h: string)
    requires vols != []
    ensures h in HostPaths(vols, appDir, env) <==>
            h in HostPaths(vols[..|vols| - 1], appDir, env) || Binds(vols[|vols| - 1], appDir, env, h)
  {
  }

  lemma ServiceBindsIs(service: Yaml, appDir: string, env: Env, h: string)
    ensures h in HostPaths(VolumesOf(service), appDir, env) <==> ServiceBinds(service, appDir, env, h)
  {
    HostPathsAre(VolumesOf(service), appDir, env, h);
    assert !SomeBinds([], appDir, env, h);
  }

  lemma AllHostPathsLast(services: Entries, appDir: string, env: Env, h: string)
    requires services != []
    ensures h in AllHostPaths(services, appDir, env) <==>
            h in AllHostPaths(services[..|services| - 1], appDir, env) ||
            h in HostPaths(VolumesOf(services[|services| - 1].1), appDir, env)
  {
  }

  lemma {:induction false} CollectedAre(services: Entries, appDir: string, env: Env, h: string)
    ensures h in AllHostPaths(services, appDir, env) <==> SomeServiceBinds(services, appDir, env, h)
  {
    if services != [] {
      CollectedAre(services[..|services| - 1], appDir, env, h);
      AllHostPathsLast(services, appDir, env, h);
      ServiceBindsIs(services[|services| - 1].1, appDir, env, h);
      SomeServiceLast(services, appDir, env, h);
    }
  }

  // The paths collected are exactly those that some volume of some service binds.
  lemma HostsAreThoseBound(services: Entries, appDir: string, env: Env, h: string)
    ensures h in Distinct(AllHostPaths(services, appDir, env)) <==> SomeServiceBinds(services, appDir, env, h)
  {
    DistinctKeepsOrder(AllHostPaths(services, appDir, env));
    CollectedAre(services, appDir, env, h);
  }

  // For a volume written as a template, the path bound is the evaluated source exactly when the
  // source evaluates to text without a colon; colons inside defaults do no harm.
  lemma VolumeSourceIsEvaluated(ps: seq<Piece>, target: string, appDir: string, env: Env)
    requires TemplateOk(ps) && IsPath(PrintAll(ps))
    requires EvalAll(ps, env) != ""
    ensures ':' !in EvalAll(ps, env) ==>
              HostPath(PrintAll(ps) + ":" + target, appDir, env) == Some(Located(appDir, EvalAll(ps, env)))
    ensures SourceOf(PrintAll(ps) + ":" + target, env) == EvalAll(ps, env) <==> ':' !in EvalAll(ps, env)
  {
    var v := PrintAll(ps) + ":" + target;
    var rest := ":" + target;
    assert v == PrintAll(ps) + rest && v[|PrintAll(ps)|] == ':';
    SubstEvaluatesThen(ps, rest, env);
    LiteralIsKept(":", target, env);
    assert Subst(v, env) == EvalAll(ps, env) + ":" + Subst(target, env);
    BeforeColonIs(EvalAll(ps, env), Subst(target, env));
  }

  // ---------- paths relative to the application directory ----------

  // The names on a path: "a//./b" and "a/b" have the same; ".." is a name.
  function Names(path: string): seq<string> {
    Named(Split(path, '/'))
  }

  function Named(parts: seq<string>): (names: seq<string>)
    ensures forall i :: 0 <= i < |names| ==> names[i] != ""
  {
    if parts == [] then []
    else if parts[0] == "" || parts[0] == "." then Named(parts[1..])
    else [parts[0]] + Named(parts[1..])
  }

  lemma NamedTail(parts: seq<string>)
    requires parts != []
    ensures Named(parts) == (if parts[0] == "" || parts[0] == "." then [] else [parts[0]]) + Named(parts[1..])
  {
  }

  lemma {:induction false} NamedBoth(a: seq<string>, b: seq<string>)
    ensures Named(a + b) == Named(a) + Named(b)
  {
    if a == [] {
      assert a + b == b;
    } else {
      NamedBoth(a[1..], b);
      assert (a + b)[1..] == a[1..] + b && (a + b)[0] == a[0];
      NamedTail(a);
      NamedTail(a + b);
    }
  }

  lemma NamesBelow(dir: string, path: string)
    ensures Names(dir + "/" + path) == Names(dir) + Names(path)
  {
    SplitBoth(dir, '/', path);
    NamedBoth(Split(dir, '/'), Split(path, '/'));
  }

  // The first name on the path starts with a dot: a hidden file, or "..".
  predicate StartsHidden(path: string) {
    Names(path) != [] && Names(path)[0][0] == '.'
  }

  predicate Plain(path: string) {
    path == "" || (path[0] != '.' && path[0] != '/')
  }

  lemma {:induction false} StripIsPlain(s: string)
    ensures Plain(StripDotsAndSlashes(s))
  {
    if s != "" && (s[0] == '.' || s[0] == '/') {
      StripIsPlain(s[1..]);
    }
  }

  lemma PlainIsNotHidden(path: string)
    requires Plain(path)
    ensures !StartsHidden(path)
  {
    if path != "" {
      var parts := Split(path, '/');
      assert parts[0][0] == path[0];
      assert Named(parts)[0] == parts[0];
    } else {
      assert Split(path, '/') == [""];
    }
  }

  lemma {:induction false} StrippedNames(s: string)
    ensures Names(StripDotsAndSlashes(s)) == Names(s) <==> !StartsHidden(s)
  {
    if Plain(s) {
      PlainIsNotHidden(s);
    } else if s[0] == '/' || Split(s[1..], '/')[0] == "" {
      StrippedNames(s[1..]);
    } else {
      StripIsPlain(s);
      PlainIsNotHidden(StripDotsAndSlashes(s));
    }
  }

  // A source that is not absolute is found below the application directory exactly when its first
  // name does not start with a dot.
  lemma RelativeSource(v: string, appDir: string, env: Env)
    requires ':' in v && IsPath(v) && SourceOf(v, env) != "" && SourceOf(v, env)[0] != '/'
    ensures HostPath(v, appDir, env).Some?
    ensures Names(HostPath(v, appDir, env).value) == Names(appDir) + Names(SourceOf(v, env)) <==>
            !StartsHidden(SourceOf(v, env))
  {
    var source := SourceOf(v, env);
    var kept := StripDotsAndSlashes(source);
    NamesBelow(appDir, kept);
    StrippedNames(source);
    var n := |Names(appDir)|;
    assert (Names(appDir) + Names(kept))[n..] == Names(kept) && (Names(appDir) + Names(source))[n..] == Names(source);
  }

  // Its text is kept exactly when what follows an optional "./" starts with neither a dot nor a slash.
  lemma RelativeText(v: string, appDir: string, env: Env)
    requires ':' in v && IsPath(v) && SourceOf(v, env) != "" && SourceOf(v, env)[0] != '/'
    ensures HostPath(v, appDir, env) == Some(appDir + "/" + WithoutDot(SourceOf(v, env))) <==> Plain(WithoutDot(SourceOf(v, env)))
  {
    var source := SourceOf(v, env);
    StripsTheDot(source);
    StripKeeps(WithoutDot(source));
    SameBelow(appDir, StripDotsAndSlashes(source), WithoutDot(source));
  }

  lemma StripsTheDot(source: string)
    ensures StripDotsAndSlashes(WithoutDot(source)) == StripDotsAndSlashes(source)
  {
    if "./" <= source {
      assert source[1..][0] == '/' && source[1..][1..] == source[2..];
    }
  }

  lemma SameBelow(dir: string, a: string, b: string)
    ensures dir + "/" + a == dir + "/" + b <==> a == b
  {
    assert (dir + "/" + a)[|dir| + 1..] == a && (dir + "/" + b)[|dir| + 1..] == b;
  }

  function WithoutDot(source: string): string {
    if "./" <= source then source[2..] else source
  }

  // The hidden file of the application directory is looked for under another name.
  lemma HiddenFileIsRenamed(target: string, appDir: string, env: Env)
    ensures HostPath("./.env" + ":" + target, appDir, env) == Some(appDir + "/" + "env")
    ensures HostPath(".env" + ":" + target, appDir, env) == Some(appDir + "/" + "env")
  {
    LiteralSourceIs("./.env", target, appDir, env);
    LiteralSourceIs(".env", target, appDir, env);
    assert "env" == ".env"[1..] && "/.env" == "./.env"[1..] && ".env" == "/.env"[1..];
    assert StripDotsAndSlashes("env") == "env";
    assert StripDotsAndSlashes(".env") == "env" && StripDotsAndSlashes("/.env") == "env";
  }

  lemma LiteralSourceIs(source: string, target: string, appDir: string, env: Env)
    requires IsPath(source) && '$' !in source && ':' !in source
    ensures HostPath(source + ":" + target, appDir, env) == Some(Located(appDir, source))
  {
    var v := source + ":" + target;
    assert v[|source|] == ':' && v[0] == source[0];
    LiteralIsKept(source + ":", target, env);
    BeforeColonIs(source, Subst(target, env));
  }
}
