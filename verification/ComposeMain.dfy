/**
 Which service of a compose file gets its port published, and as what, told from the file itself: its
 services in their order, what the proxy's environment says, and what the services declare.
 */
module ComposeMain {
  import opened Wrappers
  import opened YamlTree
  import opened PyText
  import opened Compose
  import opened ComposeProofs
  import Decimal
  import EnvSubst

  // ---------- what the file says ----------

  // A service that is not of the Umbrel runtime.
  predicate Kept(services: Entries, source: Source, i: nat) {
    i < |services| && (source == Umbrel ==> !IsInfra(services[i].0))
  }

  // The variable has this text in an environment, given as a dictionary or as a list of assignments.
  predicate EnvHas(env: Yaml, key: string, text: string) {
    match env
    case Dict(entries) => Get(entries, key).Some? && Get(entries, key).value != Null && Text(Get(entries, key).value) == text
    case List(items) => exists i :: 0 <= i < |items| && AssignedAt(items, key, text, i)
    case _ => false
  }

  // The first assignment to the key.
  predicate AssignedAt(items: seq<Yaml>, key: string, text: string, i: nat) {
    i < |items| && Text(items[i]) == key + "=" + text && forall j :: 0 <= j < i ==> !(key + "=" <= Text(items[j]))
  }

  predicate ProxyHas(services: Entries, key: string, text: string) {
    HasKey(services, "app_proxy") && Field(Get(services, "app_proxy").value, "environment").Some? &&
    EnvHas(Field(Get(services, "app_proxy").value, "environment").value, key, text)
  }

  predicate OccursAt(part: string, s: string, i: nat) {
    i + |part| <= |s| && s[i..i + |part|] == part
  }

  predicate Occurs(part: string, s: string) {
    exists i :: 0 <= i <= |s| && OccursAt(part, s, i)
  }

  // The proxy's APP_HOST contains the name of the service.
  ghost predicate Pointed(services: Entries, i: nat)
    requires i < |services|
  {
    exists host: string :: host != "" && ProxyHas(services, "APP_HOST", host) && Occurs(services[i].0, host)
  }

  predicate HasImage(services: Entries, i: nat)
    requires i < |services|
  {
    services[i].1.Dict? && TruthyAt(services[i].1.entries, "image")
  }

  predicate DeclaresItself(services: Entries, i: nat)
    requires i < |services|
  {
    Field(services[i].1, "x-runtipi").Some? && Field(services[i].1, "x-runtipi").value.Dict? &&
    TruthyAt(Field(services[i].1, "x-runtipi").value.entries, "is_main")
  }

  ghost predicate OnlyOne(services: Entries, source: Source, i: nat) {
    forall k: nat :: Kept(services, source, k) <==> k == i
  }

  // The main service of an Umbrel file is the first one left that APP_HOST points to; when it points to
  // none, the only one left, or the first with an image, or the first.
  ghost predicate IsUmbrelMain(services: Entries, i: nat) {
    && Kept(services, Umbrel, i)
    && if exists k: nat :: Kept(services, Umbrel, k) && Pointed(services, k) then
         Pointed(services, i) && forall k: nat :: k < i && Kept(services, Umbrel, k) ==> !Pointed(services, k)
       else if OnlyOne(services, Umbrel, i) then true
       else if exists k: nat :: Kept(services, Umbrel, k) && HasImage(services, k) then
         HasImage(services, i) && forall k: nat :: k < i && Kept(services, Umbrel, k) ==> !HasImage(services, k)
       else forall k: nat :: k < i ==> !Kept(services, Umbrel, k)
  }

  // That of a Runtipi file is the first one declared so, or else the only one.
  ghost predicate IsRuntipiMain(services: Entries, i: nat) {
    && i < |services|
    && if exists k: nat :: k < |services| && DeclaresItself(services, k) then
         DeclaresItself(services, i) && forall k: nat :: k < i ==> !DeclaresItself(services, k)
       else |services| == 1
  }

  ghost predicate IsMain(services: Entries, source: Source, i: nat) {
    if source == Umbrel then IsUmbrelMain(services, i) else IsRuntipiMain(services, i)
  }

  // ---------- the main service of an Umbrel file ----------

  lemma {:induction false} ContainsIs(s: string, part: string)
    ensures Contains(s, part) <==> Occurs(part, s)
  {
    assert OccursAt(part, s, 0) <==> part <= s;
    if s != "" {
      ContainsIs(s[1..], part);
      if i :| 0 <= i <= |s[1..]| && OccursAt(part, s[1..], i) {
        OccursLater(part, s, i);
      }
      if i :| 0 <= i <= |s| && OccursAt(part, s, i) {
        if i > 0 {
          OccursLater(part, s, i - 1);
        }
      }
    }
  }

  lemma OccursLater(part: string, s: string, i: nat)
    requires i < |s|
    ensures OccursAt(part, s, i + 1) <==> OccursAt(part, s[1..], i)
  {
    if i + 1 + |part| <= |s| {
      assert s[1..][i..i + |part|] == s[i + 1..i + 1 + |part|];
    }
  }

  lemma {:induction false} EnvItemIs(items: seq<Yaml>, key: string, text: string)
    ensures EnvItem(items, key) == Some(text) <==> EnvHas(List(items), key, text)
  {
    if items != [] {
      var rest := items[1..];
      EnvItemIs(rest, key, text);
      if key + "=" <= Text(items[0]) {
        var first := Text(items[0]);
        assert first == key + "=" + first[|key| + 1..];
        assert AssignedAt(items, key, text, 0) <==> first == key + "=" + text;
        assert (key + "=" + text)[|key| + 1..] == text;
      } else {
        EnvHasLater(items, key, text);
      }
    }
  }

  lemma EnvHasLater(items: seq<Yaml>, key: string, text: string)
    requires items != [] && !(key + "=" <= Text(items[0]))
    ensures EnvHas(List(items), key, text) <==> EnvHas(List(items[1..]), key, text)
  {
    if i :| 0 <= i < |items| && AssignedAt(items, key, text, i) {
      assert i > 0;
      AssignedLater(items, key, text, i - 1);
    }
    if i :| 0 <= i < |items[1..]| && AssignedAt(items[1..], key, text, i) {
      AssignedLater(items, key, text, i);
    }
  }

  lemma AssignedLater(items: seq<Yaml>, key: string, text: string, i: nat)
    requires items != [] && !(key + "=" <= Text(items[0]))
    ensures AssignedAt(items, key, text, i + 1) <==> AssignedAt(items[1..], key, text, i)
  {
    assert forall j :: 0 <= j < |items| - 1 ==> items[1..][j] == items[j + 1];
    if AssignedAt(items[1..], key, text, i) {
      forall j | 0 <= j < i + 1 ensures !(key + "=" <= Text(items[j])) {
        assert j > 0 ==> items[j] == items[1..][j - 1];
      }
    }
  }

  function ProxyEnv(services: Entries): Option<Yaml> {
    match Get(services, "app_proxy") case Some(ap) => Field(ap, "environment") case None => None
  }

  lemma ProxyEnvIs(services: Entries, key: string, text: string)
    ensures EnvGet(ProxyEnv(services), key) == Some(text) <==> ProxyHas(services, key, text)
  {
    match ProxyEnv(services)
    case Some(List(items)) => EnvItemIs(items, key, text);
    case _ =>
  }

  // ---------- from the services left to those of the file ----------

  // An entry that stays, and what is in front of it.
  lemma {:induction false} KeptAt(d: Entries, removed: set<string>, i: nat) returns (p: nat)
    requires i < |d| && d[i].0 !in removed
    ensures var kept := KeepEntries(d, removed);
            && p < |kept| && kept[p] == d[i]
            && forall q :: 0 <= q < p ==> ComesFrom(d, removed, kept[q], i)
  {
    var rest := KeepEntries(d[1..], removed);
    if i == 0 {
      p := 0;
    } else {
      var before := KeptAt(d[1..], removed, i - 1);
      forall q | 0 <= q < before ensures ComesFrom(d, removed, rest[q], i) {
        var j :| 0 <= j < i - 1 && d[1..][j] == rest[q] && d[1..][j].0 !in removed;
        assert d[j + 1] == rest[q];
      }
      p := if d[0].0 in removed then before else before + 1;
      assert d[0].0 !in removed ==> ComesFrom(d, removed, d[0], i);
    }
  }

  // The entry is one of the first `i` and stays.
  predicate ComesFrom(d: Entries, removed: set<string>, entry: (string, Yaml), i: int) {
    exists j :: 0 <= j < i && j < |d| && d[j] == entry && d[j].0 !in removed
  }

  lemma {:induction false} KeptComeFrom(d: Entries, removed: set<string>, q: nat)
    requires q < |KeepEntries(d, removed)|
    ensures ComesFrom(d, removed, KeepEntries(d, removed)[q], |d|)
  {
    var rest := KeepEntries(d[1..], removed);
    if d[0].0 in removed {
      KeptComeFrom(d[1..], removed, q);
      var j :| 0 <= j < |d| - 1 && d[1..][j] == rest[q] && d[1..][j].0 !in removed;
      assert d[j + 1] == rest[q];
    } else if q > 0 {
      KeptComeFrom(d[1..], removed, q - 1);
      var j :| 0 <= j < |d| - 1 && d[1..][j] == rest[q - 1] && d[1..][j].0 !in removed;
      assert d[j + 1] == rest[q - 1];
    }
  }

  // ---------- the choice among the services left ----------

  lemma {:induction false} FirstNamedIs(left: Entries, host: string, p: nat)
    requires p < |left| && Contains(host, left[p].0)
    requires forall q :: 0 <= q < p ==> !Contains(host, left[q].0)
    ensures FirstNamedIn(left, host) == Some(left[p].0)
  {
    if p > 0 {
      FirstNamedIs(left[1..], host, p - 1);
    }
  }

  lemma {:induction false} NoneNamedIs(left: Entries, host: string)
    requires forall q :: 0 <= q < |left| ==> !Contains(host, left[q].0)
    ensures FirstNamedIn(left, host) == None
  {
    if left != [] {
      NoneNamedIs(left[1..], host);
    }
  }

  lemma {:induction false} FirstWithImageIs(left: Entries, p: nat)
    requires p < |left| && HasImage(left, p) && forall q: nat :: q < p ==> !HasImage(left, q)
    ensures FirstWithImage(left) == Some(left[p].0)
  {
    if p > 0 {
      assert !HasImage(left, 0) && HasImage(left[1..], p - 1);
      forall q: nat | q < p - 1 ensures !HasImage(left[1..], q) {
        assert !HasImage(left, q + 1);
      }
      FirstWithImageIs(left[1..], p - 1);
    } else {
      assert HasImage(left, 0);
    }
  }

  lemma {:induction false} NoneWithImageIs(left: Entries)
    requires forall q: nat :: q < |left| ==> !HasImage(left, q)
    ensures FirstWithImage(left) == None
  {
    if left != [] {
      assert !HasImage(left, 0);
      forall q: nat | q < |left| - 1 ensures !HasImage(left[1..], q) {
        assert !HasImage(left, q + 1);
      }
      NoneWithImageIs(left[1..]);
    }
  }

  lemma {:induction false} StripAllAt(services: Entries, removed: set<string>, q: nat)
    requires StripAll(services, removed).Some? && q < |services|
    ensures var after := StripAll(services, removed).value;
            |after| == |services| && after[q].0 == services[q].0 && AgreesButDepends(services[q].1, after[q].1, removed)
  {
    StripAllKeys(services, removed);
    assert |KeysOf(StripAll(services, removed).value)| == |KeysOf(services)|;
    if q == 0 {
      StripDependsAgrees(services[0].1, removed);
    } else {
      StripAllAt(services[1..], removed, q - 1);
    }
  }

  // The services left are those kept, in their order, and none gains or loses its image.
  lemma LeftIs(services: Entries, left: Entries)
    requires Remaining(services) == Some(left)
    ensures var kept := KeepEntries(services, Infra(services));
            |left| == |kept| && forall q: nat :: q < |kept| ==> left[q].0 == kept[q].0 && (HasImage(left, q) <==> HasImage(kept, q))
  {
    var kept := KeepEntries(services, Infra(services));
    KeepNothing(services);
    if Infra(services) != {} {
      StripAllKeys(kept, Infra(services));
      assert |KeysOf(left)| == |KeysOf(kept)|;
      forall q: nat | q < |kept| ensures left[q].0 == kept[q].0 && (HasImage(left, q) <==> HasImage(kept, q)) {
        StripAllAt(kept, Infra(services), q);
      }
    }
  }

  lemma KeptIsNotInfra(services: Entries, j: nat)
    requires j < |services|
    ensures Kept(services, Umbrel, j) <==> services[j].0 !in Infra(services)
  {
  }

  lemma PointedIs(services: Entries, j: nat)
    requires j < |services|
    ensures var host := EnvGet(ProxyEnv(services), "APP_HOST");
            Pointed(services, j) <==> host.Some? && host.value != "" && Contains(host.value, services[j].0)
  {
    var host := EnvGet(ProxyEnv(services), "APP_HOST");
    if host.Some? {
      ProxyEnvIs(services, "APP_HOST", host.value);
      ContainsIs(host.value, services[j].0);
    }
    forall text: string | ProxyHas(services, "APP_HOST", text) ensures host == Some(text) {
      ProxyEnvIs(services, "APP_HOST", text);
    }
  }

  // No entry comes twice, so neither does one that stays.
  lemma OnlyOneIsLeft(services: Entries, i: nat, p: nat)
    requires DistinctKeys(services) && Kept(services, Umbrel, i)
    requires var kept := KeepEntries(services, Infra(services)); p < |kept| && kept[p] == services[i]
    ensures OnlyOne(services, Umbrel, i) <==> |KeepEntries(services, Infra(services))| == 1
  {
    var removed := Infra(services);
    var kept := KeepEntries(services, removed);
    KeepEntriesGet(services, removed);
    if OnlyOne(services, Umbrel, i) && |kept| > 1 {
      var q := if p == 0 then 1 else 0;
      KeptComeFrom(services, removed, q);
      var j :| 0 <= j < |services| && services[j] == kept[q] && services[j].0 !in removed;
      KeptIsNotInfra(services, j);
      assert j == i;
      SameKeySamePlace(kept, p, q);
      assert false;
    }
    if |kept| == 1 {
      forall k: nat | Kept(services, Umbrel, k) ensures k == i {
        KeptIsNotInfra(services, k);
        var q := KeptAt(services, removed, k);
        SameKeySamePlace(services, k, i);
      }
    }
  }

  lemma {:induction false} SameKeySamePlace(d: Entries, i: nat, j: nat)
    requires DistinctKeys(d) && i < |d| && j < |d|
    ensures d[i].0 == d[j].0 ==> i == j
  {
    if i == 0 && j > 0 {
      GetEntry(d[1..], j - 1);
    } else if j == 0 && i > 0 {
      GetEntry(d[1..], i - 1);
    } else if i > 0 {
      SameKeySamePlace(d[1..], i - 1, j - 1);
    }
  }

  // `services[i]` is at `p` among the services left, behind others that are in front of it in the file.
  ghost predicate Placed(services: Entries, left: Entries, i: nat, p: nat) {
    var kept := KeepEntries(services, Infra(services));
    && Remaining(services) == Some(left) && DistinctKeys(services) && Kept(services, Umbrel, i)
    && p < |kept| && kept[p] == services[i]
    && forall q :: 0 <= q < p ==> ComesFrom(services, Infra(services), kept[q], i)
  }

  lemma PlacedBehind(services: Entries, left: Entries, i: nat, p: nat, q: nat) returns (j: nat)
    requires Placed(services, left, i, p) && q < p
    ensures j < i && Kept(services, Umbrel, j) && q < |left| && left[q].0 == services[j].0
    ensures HasImage(left, q) <==> HasImage(services, j)
  {
    var kept := KeepEntries(services, Infra(services));
    LeftIs(services, left);
    j :| 0 <= j < i && j < |services| && services[j] == kept[q] && services[j].0 !in Infra(services);
    KeptIsNotInfra(services, j);
    assert HasImage(left, q) <==> HasImage(kept, q);
  }

  lemma SomeServiceKept(services: Entries, left: Entries, q: nat) returns (j: nat)
    requires Remaining(services) == Some(left) && q < |left|
    ensures j < |services| && Kept(services, Umbrel, j) && left[q].0 == services[j].0
    ensures HasImage(left, q) <==> HasImage(services, j)
  {
    var kept := KeepEntries(services, Infra(services));
    LeftIs(services, left);
    KeptComeFrom(services, Infra(services), q);
    j :| 0 <= j < |services| && services[j] == kept[q] && services[j].0 !in Infra(services);
    KeptIsNotInfra(services, j);
    assert HasImage(left, q) <==> HasImage(kept, q);
  }

  lemma PlacedIs(services: Entries, left: Entries, i: nat, p: nat)
    requires Placed(services, left, i, p)
    ensures p < |left| && left[p].0 == services[i].0 && (HasImage(left, p) <==> HasImage(services, i))
  {
    LeftIs(services, left);
    assert HasImage(left, p) <==> HasImage(KeepEntries(services, Infra(services)), p);
  }

  lemma MainByHost(services: Entries, left: Entries, i: nat, p: nat)
    requires Placed(services, left, i, p) && Pointed(services, i)
    requires forall k: nat :: k < i && Kept(services, Umbrel, k) ==> !Pointed(services, k)
    ensures UmbrelMain(left, EnvGet(ProxyEnv(services), "APP_HOST")) == Some(services[i].0)
  {
    var host := EnvGet(ProxyEnv(services), "APP_HOST");
    PlacedIs(services, left, i, p);
    PointedIs(services, i);
    forall q | 0 <= q < p ensures !Contains(host.value, left[q].0) {
      var j := PlacedBehind(services, left, i, p, q);
      PointedIs(services, j);
    }
    FirstNamedIs(left, host.value, p);
  }

  lemma NoneByHost(services: Entries, left: Entries)
    requires Remaining(services) == Some(left)
    requires forall k: nat :: Kept(services, Umbrel, k) ==> !Pointed(services, k)
    ensures var host := EnvGet(ProxyEnv(services), "APP_HOST");
            host.Some? && host.value != "" ==> FirstNamedIn(left, host.value) == None
  {
    var host := EnvGet(ProxyEnv(services), "APP_HOST");
    if host.Some? && host.value != "" {
      forall q | 0 <= q < |left| ensures !Contains(host.value, left[q].0) {
        var j := SomeServiceKept(services, left, q);
        PointedIs(services, j);
      }
      NoneNamedIs(left, host.value);
    }
  }

  lemma MainByImage(services: Entries, left: Entries, i: nat, p: nat)
    requires Placed(services, left, i, p) && HasImage(services, i)
    requires forall k: nat :: k < i && Kept(services, Umbrel, k) ==> !HasImage(services, k)
    ensures FirstWithImage(left) == Some(services[i].0)
  {
    PlacedIs(services, left, i, p);
    forall q: nat | q < p ensures !HasImage(left, q) {
      var j := PlacedBehind(services, left, i, p, q);
    }
    FirstWithImageIs(left, p);
  }

  lemma NoneByImage(services: Entries, left: Entries)
    requires Remaining(services) == Some(left)
    requires forall k: nat :: Kept(services, Umbrel, k) ==> !HasImage(services, k)
    ensures FirstWithImage(left) == None
  {
    forall q: nat | q < |left| ensures !HasImage(left, q) {
      var j := SomeServiceKept(services, left, q);
    }
    NoneWithImageIs(left);
  }

  lemma UmbrelMainIs(services: Entries, left: Entries, i: nat)
    requires Remaining(services) == Some(left) && DistinctKeys(services) && IsUmbrelMain(services, i)
    ensures UmbrelMain(left, EnvGet(ProxyEnv(services), "APP_HOST")) == Some(services[i].0)
  {
    KeptIsNotInfra(services, i);
    var p := KeptAt(services, Infra(services), i);
    PlacedIs(services, left, i, p);
    LeftIs(services, left);
    if exists k: nat :: Kept(services, Umbrel, k) && Pointed(services, k) {
      MainByHost(services, left, i, p);
    } else {
      NoneByHost(services, left);
      OnlyOneIsLeft(services, i, p);
      if OnlyOne(services, Umbrel, i) {
        assert p == 0;
      } else if exists k: nat :: Kept(services, Umbrel, k) && HasImage(services, k) {
        MainByImage(services, left, i, p);
      } else {
        NoneByImage(services, left);
        if p > 0 {
          var j := PlacedBehind(services, left, i, p, 0);
          assert false;
        }
      }
    }
  }

  lemma {:induction false} Least(s: set<nat>) returns (least: nat)
    requires s != {}
    ensures least in s && forall k :: k in s ==> least <= k
  {
    var x :| x in s;
    var rest := s - {x};
    if rest == {} {
      assert s == {x};
      least := x;
    } else {
      var low := Least(rest);
      least := if x < low then x else low;
      assert forall k :: k in s ==> k == x || k in rest;
    }
  }

  lemma LeastAmong(s: set<nat>) returns (least: nat)
    requires s != {}
    ensures least in s && forall k: nat :: k < least ==> k !in s
  {
    least := Least(s);
  }

  lemma MainOfUnpointed(services: Entries, some: nat) returns (i: nat)
    requires Kept(services, Umbrel, some)
    requires forall k: nat :: Kept(services, Umbrel, k) ==> !Pointed(services, k)
    ensures IsUmbrelMain(services, i)
  {
    var kept := set k: nat | k < |services| && Kept(services, Umbrel, k);
    var imaged := set k: nat | k in kept && HasImage(services, k);
    if k: nat :| OnlyOne(services, Umbrel, k) {
      i := k;
      assert Kept(services, Umbrel, k);
    } else if k: nat :| Kept(services, Umbrel, k) && HasImage(services, k) {
      assert k in imaged;
      i := LeastAmong(imaged);
      forall j: nat | j < i && Kept(services, Umbrel, j) ensures !HasImage(services, j) {
        assert j !in imaged;
      }
    } else {
      assert some in kept;
      i := LeastAmong(kept);
      forall j: nat | j < i ensures !Kept(services, Umbrel, j) {
        assert j !in kept;
      }
    }
  }

  // Unless nothing is left, an Umbrel file has a main service.
  lemma UmbrelMainExists(services: Entries, some: nat) returns (i: nat)
    requires Kept(services, Umbrel, some)
    ensures IsUmbrelMain(services, i)
  {
    var pointed := set k: nat | k < |services| && Kept(services, Umbrel, k) && Pointed(services, k);
    if k: nat :| Kept(services, Umbrel, k) && Pointed(services, k) {
      assert k in pointed;
      i := LeastAmong(pointed);
      forall j: nat | j < i && Kept(services, Umbrel, j) ensures !Pointed(services, j) {
        assert j !in pointed;
      }
    } else {
      i := MainOfUnpointed(services, some);
    }
  }

  // ---------- the main service of a Runtipi file ----------

  lemma {:induction false} FirstDeclaredIs(services: Entries, i: nat)
    requires i < |services| && DeclaresItself(services, i) && forall k: nat :: k < i ==> !DeclaresItself(services, k)
    ensures FirstDeclaredMain(services) == Some(services[i].0)
  {
    assert DeclaresItself(services, 0) <==> DeclaredMain(services[0].1);
    if i > 0 {
      assert DeclaresItself(services[1..], i - 1);
      forall k: nat | k < i - 1 ensures !DeclaresItself(services[1..], k) {
        assert !DeclaresItself(services, k + 1);
      }
      FirstDeclaredIs(services[1..], i - 1);
    }
  }

  lemma {:induction false} NoneDeclaredIs(services: Entries)
    requires forall k: nat :: k < |services| ==> !DeclaresItself(services, k)
    ensures FirstDeclaredMain(services) == None
  {
    if services != [] {
      assert !DeclaresItself(services, 0);
      forall k: nat | k < |services| - 1 ensures !DeclaresItself(services[1..], k) {
        assert !DeclaresItself(services, k + 1);
      }
      NoneDeclaredIs(services[1..]);
    }
  }

  lemma RuntipiMainIs(services: Entries, i: nat)
    requires IsRuntipiMain(services, i)
    ensures RuntipiMain(services) == Some(services[i].0)
  {
    if exists k: nat :: k < |services| && DeclaresItself(services, k) {
      FirstDeclaredIs(services, i);
    } else {
      NoneDeclaredIs(services);
    }
  }

  lemma MainIs(services: Entries, source: Source, hostPort: Option<int>, i: nat)
    requires PlanFor(services, source, hostPort).Some? && DistinctKeys(services) && IsMain(services, source, i)
    ensures PlanFor(services, source, hostPort).value.main == Some(services[i].0)
  {
    if source == Umbrel {
      UmbrelMainIs(services, Remaining(services).value, i);
    } else {
      RuntipiMainIs(services, i);
    }
  }

  // ---------- files that are normalised at all ----------

  predicate HashableDepends(service: Yaml) {
    match Field(service, "depends_on")
    case Some(List(items)) => forall i :: 0 <= i < |items| ==> !items[i].List? && !items[i].Dict?
    case _ => true
  }

  // The file has a dictionary of services; and where Umbrel services are cut out, no list of
  // dependencies that is searched for them holds a list or a dictionary.
  ghost predicate Regular(doc: Entries, source: Source) {
    && Get(doc, "services").Some? && Get(doc, "services").value.Dict?
    && var services := Get(doc, "services").value.entries;
       source == Umbrel && (exists k: nat :: k < |services| && !Kept(services, Umbrel, k)) ==>
         forall k: nat :: Kept(services, Umbrel, k) ==> HashableDepends(services[k].1)
  }

  predicate AllHashable(services: Entries) {
    forall q :: 0 <= q < |services| ==> HashableDepends(services[q].1)
  }

  lemma {:induction false} StripAllIff(services: Entries, removed: set<string>)
    ensures StripAll(services, removed).Some? <==> AllHashable(services)
  {
    if services != [] {
      StripAllIff(services[1..], removed);
      assert StripDepends(services[0].1, removed).Some? <==> HashableDepends(services[0].1);
      assert forall q :: 0 <= q < |services| - 1 ==> services[1..][q] == services[q + 1];
      if AllHashable(services[1..]) {
        forall q | 1 <= q < |services| ensures HashableDepends(services[q].1) {
          assert services[q] == services[1..][q - 1];
        }
      }
    }
  }

  lemma HashableLeft(services: Entries)
    ensures var kept := KeepEntries(services, Infra(services));
            AllHashable(kept) <==> forall k: nat :: Kept(services, Umbrel, k) ==> HashableDepends(services[k].1)
  {
    var removed := Infra(services);
    var kept := KeepEntries(services, removed);
    if AllHashable(kept) {
      forall k: nat | Kept(services, Umbrel, k) ensures HashableDepends(services[k].1) {
        KeptIsNotInfra(services, k);
        var q := KeptAt(services, removed, k);
        assert HashableDepends(kept[q].1);
      }
    }
    if forall k: nat :: Kept(services, Umbrel, k) ==> HashableDepends(services[k].1) {
      forall q | 0 <= q < |kept| ensures HashableDepends(kept[q].1) {
        KeptComeFrom(services, removed, q);
        var j :| 0 <= j < |services| && services[j] == kept[q] && services[j].0 !in removed;
        KeptIsNotInfra(services, j);
      }
    }
  }

  lemma SomeRuntime(services: Entries)
    ensures Infra(services) != {} <==> exists k: nat :: k < |services| && !Kept(services, Umbrel, k)
  {
    if n :| n in Infra(services) {
      var k :| 0 <= k < |services| && IsInfra(services[k].0) && services[k].0 == n;
      assert !Kept(services, Umbrel, k);
    }
    if k: nat :| k < |services| && !Kept(services, Umbrel, k) {
      KeptIsNotInfra(services, k);
    }
  }

  lemma RemainingIff(services: Entries)
    ensures Remaining(services).Some? <==>
            ((exists k: nat :: k < |services| && !Kept(services, Umbrel, k)) ==>
               forall k: nat :: Kept(services, Umbrel, k) ==> HashableDepends(services[k].1))
  {
    SomeRuntime(services);
    StripAllIff(KeepEntries(services, Infra(services)), Infra(services));
    HashableLeft(services);
  }

  // The normalisation goes ahead exactly for such a file.
  lemma ProceedsIff(doc: Entries, source: Source, hostPort: Option<int>)
    ensures Proceeds(doc, source, hostPort) <==> Regular(doc, source)
  {
    RemainingIff(ServicesOf(doc));
  }

  // ---------- the port ----------

  // A number, or text that is one.
  function Number(v: Option<Yaml>): Option<int> {
    match v
    case Some(Int(i)) => Some(i)
    case Some(Str(s)) => DigitsToInt(s)
    case _ => None
  }

  // The port the main service listens on: for Umbrel what the proxy's APP_PORT says, failing that the
  // catalogue's; for Runtipi what the service declares.
  ghost predicate ListensOn(services: Entries, source: Source, hostPort: Option<int>, i: nat, port: Option<int>)
    requires i < |services|
  {
    if source == Umbrel then
      || (port.Some? && exists text: string :: ProxyHas(services, "APP_PORT", text) && DigitsToInt(text) == port)
      || ((forall text: string :: ProxyHas(services, "APP_PORT", text) ==> DigitsToInt(text) == None) &&
          port == if hostPort == Some(0) then None else hostPort)
    else
      match Field(services[i].1, "x-runtipi")
      case Some(Dict(rt)) => port == Number(Get(rt, "internal_port"))
      case _ => port == None
  }

  lemma PlannedPortIs(services: Entries, source: Source, hostPort: Option<int>, i: nat)
    requires PlanFor(services, source, hostPort).Some? && DistinctKeys(services) && IsMain(services, source, i)
    ensures ListensOn(services, source, hostPort, i, PlanFor(services, source, hostPort).value.internal)
  {
    if source == Umbrel {
      var port := EnvGet(ProxyEnv(services), "APP_PORT");
      if port.Some? {
        ProxyEnvIs(services, "APP_PORT", port.value);
      }
      forall text: string | ProxyHas(services, "APP_PORT", text) ensures port == Some(text) {
        ProxyEnvIs(services, "APP_PORT", text);
      }
    } else {
      RuntipiMainIs(services, i);
      GetEntry(services, i);
    }
  }

  // The port it gets on the host: the one chosen, unless that is 0 or an 80 nobody asked for; then its own.
  predicate PublicPort(pub: int, hostPort: Option<int>, explicit: bool, p: int) {
    || (hostPort == Some(pub) && pub != 0 && (pub != 80 || explicit))
    || (pub == p && (hostPort == None || hostPort == Some(0) || (hostPort == Some(80) && !explicit)))
  }

  lemma OnlyMainChanges(plan: Plan, hostPort: Option<int>, explicit: bool, main: string)
    requires plan.main == Some(main) && HasKey(plan.services, main)
    ensures var (after, published) := WithPort(plan, hostPort, explicit);
            && (forall n :: HasKey(after, n) <==> HasKey(plan.services, n))
            && (forall n :: HasKey(after, n) && n != main ==> Get(after, n) == Get(plan.services, n))
            && (match Get(plan.services, main).value
                case Dict(fields) =>
                  var (changed, reported) := PublishPort(fields, plan.internal, hostPort, explicit);
                  Get(after, main) == Some(Dict(changed)) && published == reported
                case other => Get(after, main) == Some(other) && published == None)
  {
    match Get(plan.services, main).value
    case Dict(fields) => PutGet(plan.services, main, Dict(PublishPort(fields, plan.internal, hostPort, explicit).0));
    case _ =>
  }

  // The services left keep their ports.
  lemma LeftKeepsPorts(services: Entries, source: Source, hostPort: Option<int>, n: string)
    requires PlanFor(services, source, hostPort).Some?
    requires HasKey(PlanFor(services, source, hostPort).value.services, n)
    ensures HasKey(services, n)
    ensures var before, left := Get(services, n).value, Get(PlanFor(services, source, hostPort).value.services, n).value;
            && (before.Dict? <==> left.Dict?)
            && Field(left, "ports") == Field(before, "ports")
  {
    PlanAgrees(services, source, hostPort);
  }

  lemma PublishedPort(fields: Entries, internal: Option<int>, hostPort: Option<int>, explicit: bool)
    ensures var (after, published) := PublishPort(fields, internal, hostPort, explicit);
            if internal.Some? && internal.value != 0 && !TruthyAt(fields, "ports") then
              exists pub :: PublicPort(pub, hostPort, explicit, internal.value) && published == Some(pub) &&
                            Get(after, "ports") == Some(List([Str(Decimal.PrintInt(pub) + ":" + Decimal.PrintInt(internal.value))]))
            else after == fields && published == DeclaredPort(Dict(fields), internal, hostPort)
  {
    if internal.Some? && internal.value != 0 && !TruthyAt(fields, "ports") {
      var pub := ChosenPort(hostPort, explicit, internal.value);
      PutGet(fields, "ports", List([PortEntry(pub, internal.value)]));
      assert PublicPort(pub, hostPort, explicit, internal.value);
    }
  }

  // What becomes of the ports of the main service, and what is reported.
  ghost predicate Published(service: Yaml, port: Option<int>, hostPort: Option<int>, explicit: bool, after: Yaml, reported: Option<int>) {
    var declared := service.Dict? && TruthyAt(service.entries, "ports");
    if service.Dict? && !declared && port.Some? && port.value != 0 then
      exists pub :: PublicPort(pub, hostPort, explicit, port.value) && reported == Some(pub) &&
                    Field(after, "ports") == Some(List([Str(Decimal.PrintInt(pub) + ":" + Decimal.PrintInt(port.value))]))
    else Field(after, "ports") == Field(service, "ports") && reported == DeclaredPort(service, port, hostPort)
  }

  // The port of the first entry a service declares, or the one it listens on when that cannot be read.
  function DeclaredPort(service: Yaml, port: Option<int>, hostPort: Option<int>): Option<int> {
    match Field(service, "ports")
    case Some(List(items)) =>
      if items == [] then None
      else
        var read := PublishedHostPort(items[0], hostPort);
        if (read == None || read == Some(0)) && port.Some? && port.value != 0 then port else read
    case _ => None
  }

  lemma MainIsPublished(plan: Plan, service: Yaml, hostPort: Option<int>, explicit: bool, main: string)
    requires plan.main == Some(main) && HasKey(plan.services, main)
    requires var left := Get(plan.services, main).value; (service.Dict? <==> left.Dict?) && Field(left, "ports") == Field(service, "ports")
    ensures var (after, published) := WithPort(plan, hostPort, explicit);
            HasKey(after, main) && Published(service, plan.internal, hostPort, explicit, Get(after, main).value, published)
  {
    OnlyMainChanges(plan, hostPort, explicit, main);
    var left := Get(plan.services, main).value;
    if left.Dict? {
      assert TruthyAt(left.entries, "ports") == TruthyAt(service.entries, "ports");
      PublishedPort(left.entries, plan.internal, hostPort, explicit);
    }
  }

  lemma MainIsLeft(services: Entries, source: Source, hostPort: Option<int>, i: nat)
    requires PlanFor(services, source, hostPort).Some? && DistinctKeys(services) && IsMain(services, source, i)
    ensures HasKey(PlanFor(services, source, hostPort).value.services, services[i].0)
    ensures Get(services, services[i].0) == Some(services[i].1)
  {
    GetEntry(services, i);
    PlanAgrees(services, source, hostPort);
    InfraIs(services);
  }

  ghost predicate OthersKeepPorts(before: Entries, after: Entries, main: Option<string>) {
    forall n :: HasKey(after, n) && main != Some(n) ==>
      HasKey(before, n) && Field(Get(after, n).value, "ports") == Field(Get(before, n).value, "ports")
  }

  lemma OthersAreKept(services: Entries, source: Source, hostPort: Option<int>, explicit: bool, plan: Plan)
    requires PlanFor(services, source, hostPort) == Some(plan)
    ensures OthersKeepPorts(services, WithPort(plan, hostPort, explicit).0, plan.main)
  {
    WithPortAgrees(plan, hostPort, explicit);
    var after := WithPort(plan, hostPort, explicit).0;
    forall n | HasKey(after, n) && plan.main != Some(n)
      ensures HasKey(services, n) && Field(Get(after, n).value, "ports") == Field(Get(services, n).value, "ports")
    {
      LeftKeepsPorts(services, source, hostPort, n);
      assert Get(after, n).value == Get(plan.services, n).value;
    }
  }

  // Only the main service's ports change. They are published when the port it listens on is known and
  // it publishes none itself.
  lemma PortsGoToMain(doc: Entries, source: Source, hostPort: Option<int>, explicit: bool, out: Outcome, i: nat) returns (port: Option<int>)
    requires Normalises(doc, source, hostPort, explicit, out) && Regular(doc, source)
    requires DistinctKeys(ServicesOf(doc)) && IsMain(ServicesOf(doc), source, i)
    ensures ListensOn(ServicesOf(doc), source, hostPort, i, port)
    ensures OnlyMainPublished(ServicesOf(doc), ServicesOf(Tree(doc, out)), i, port, hostPort, explicit, out.published)
  {
    ProceedsIff(doc, source, hostPort);
    var plan, _ := OutcomeShape(doc, source, hostPort, explicit, out);
    port := plan.internal;
    PlannedPortIs(ServicesOf(doc), source, hostPort, i);
    MainIs(ServicesOf(doc), source, hostPort, i);
    MainIsLeft(ServicesOf(doc), source, hostPort, i);
    PlanPublishesMain(ServicesOf(doc), source, hostPort, explicit, i, plan);
  }

  ghost predicate OnlyMainPublished(before: Entries, after: Entries, i: nat, port: Option<int>, hostPort: Option<int>, explicit: bool,
                                    reported: Option<int>)
    requires i < |before|
  {
    && HasKey(after, before[i].0)
    && OthersKeepPorts(before, after, Some(before[i].0))
    && Published(before[i].1, port, hostPort, explicit, Get(after, before[i].0).value, reported)
  }

  lemma PlanPublishesMain(services: Entries, source: Source, hostPort: Option<int>, explicit: bool, i: nat, plan: Plan)
    requires PlanFor(services, source, hostPort) == Some(plan) && i < |services| && plan.main == Some(services[i].0)
    requires HasKey(plan.services, services[i].0) && Get(services, services[i].0) == Some(services[i].1)
    ensures var (after, reported) := WithPort(plan, hostPort, explicit);
            OnlyMainPublished(services, after, i, plan.internal, hostPort, explicit, reported)
  {
    var name, service := services[i].0, services[i].1;
    var (after, reported) := WithPort(plan, hostPort, explicit);
    LeftKeepsPorts(services, source, hostPort, name);
    OthersAreKept(services, source, hostPort, explicit, plan);
    assert HasKey(after, name) && Published(service, plan.internal, hostPort, explicit, Get(after, name).value, reported) by {
      MainIsPublished(plan, service, hostPort, explicit, name);
    }
  }

  // In a Runtipi file of several services none of which is declared the main one, no ports change.
  lemma NoMainNoPorts(doc: Entries, hostPort: Option<int>, explicit: bool, out: Outcome)
    requires Normalises(doc, Runtipi, hostPort, explicit, out) && Regular(doc, Runtipi)
    requires |ServicesOf(doc)| != 1 && forall k: nat :: k < |ServicesOf(doc)| ==> !DeclaresItself(ServicesOf(doc), k)
    ensures OthersKeepPorts(ServicesOf(doc), ServicesOf(Tree(doc, out)), None) && out.published == None
  {
    ProceedsIff(doc, Runtipi, hostPort);
    NoneDeclaredIs(ServicesOf(doc));
    var plan, _ := OutcomeShape(doc, Runtipi, hostPort, explicit, out);
    OthersAreKept(ServicesOf(doc), Runtipi, hostPort, explicit, plan);
  }

  // ---------- networks and runtime services ----------

  // A network that a service lists, or has as a key.
  predicate NamesNetwork(service: Yaml, network: string) {
    match Field(service, "networks")
    case Some(List(items)) => exists i :: 0 <= i < |items| && Text(items[i]) == network
    case Some(Dict(entries)) => HasKey(entries, network)
    case _ => false
  }

  // Whatever network a service of the result names is declared in it, and a network is declared only if
  // it was declared or a service names it.
  lemma NetworksMatch(doc: Entries, source: Source, hostPort: Option<int>, explicit: bool, out: Outcome, network: string)
    requires Normalises(doc, source, hostPort, explicit, out) && Regular(doc, source)
    ensures var tree := Tree(doc, out);
            HasKey(Declared(tree), network) <==>
            HasKey(Declared(doc), network) || exists i :: 0 <= i < |ServicesOf(tree)| && NamesNetwork(ServicesOf(tree)[i].1, network)
  {
    ProceedsIff(doc, source, hostPort);
    var plan, top := OutcomeShape(doc, source, hostPort, explicit, out);
    var after := ServicesOf(Tree(doc, out));
    WithPortReferences(plan, hostPort, explicit);
    ReferencedIs(after, network);
    if Referenced(plan.services) != {} && HasKey(top, network) && !HasKey(Declared(doc), network) {
      AddedNetwork(Declared(doc), Referenced(plan.services), top, network);
    }
  }

  lemma NamedIs(service: Yaml, network: string)
    ensures network in NamedNetworks(service) <==> NamesNetwork(service, network)
  {
    match Field(service, "networks")
    case Some(Dict(entries)) =>
      if i :| 0 <= i < |entries| && entries[i].0 == network {
        GetEntry(entries, i);
      }
      if HasKey(entries, network) {
        HasEntry(entries, network);
      }
    case _ =>
  }

  lemma {:induction false} ReferencedIs(services: Entries, network: string)
    ensures network in Referenced(services) <==> exists i :: 0 <= i < |services| && NamesNetwork(services[i].1, network)
  {
    if services != [] {
      NamedIs(services[0].1, network);
      ReferencedIs(services[1..], network);
      if i :| 0 <= i < |services[1..]| && NamesNetwork(services[1..][i].1, network) {
        assert services[i + 1] == services[1..][i];
      }
      if i :| 0 <= i < |services| && NamesNetwork(services[i].1, network) {
        assert i > 0 ==> services[1..][i - 1] == services[i];
      }
    }
  }

  lemma WithPortReferences(plan: Plan, hostPort: Option<int>, explicit: bool)
    ensures Referenced(WithPort(plan, hostPort, explicit).0) == Referenced(plan.services)
  {
    if plan.main.Some? {
      match Get(plan.services, plan.main.value)
      case Some(Dict(fields)) =>
        PublishKeepsFields(fields, plan.internal, hostPort, explicit);
        var after := Dict(PublishPort(fields, plan.internal, hostPort, explicit).0);
        assert Field(after, "networks") == Field(Dict(fields), "networks");
        PutKeepsReferenced(plan.services, plan.main.value, after);
      case _ =>
    }
  }

  // The services of the Umbrel runtime: the app proxy, Tor, and the Tor proxies of apps, in any case.
  lemma RuntimeIs(name: string)
    ensures IsInfra(name) <==>
            || Lower(name) == "app_proxy" || Lower(name) == "tor"
            || exists app :: Lower(name) == app + "_tor" || Lower(name) == app + "-tor"
  {
    var low := Lower(name);
    forall app | low == app + "_tor" || low == app + "-tor" ensures EndsWith(low, "_tor") || EndsWith(low, "-tor") {
      assert (app + "_tor")[|app|..] == "_tor" && (app + "-tor")[|app|..] == "-tor";
    }
    if EndsWith(low, "_tor") || EndsWith(low, "-tor") {
      var app := low[..|low| - 4];
      assert low == app + low[|low| - 4..];
    }
  }

  // ---------- reading a port entry ----------

  // In the long form the published port is read, given as a number or as text.
  lemma LongPortIsRead(fields: Entries, port: nat, hostPort: Option<int>)
    requires Get(fields, "published") == Some(Int(port)) || Get(fields, "published") == Some(Str(Decimal.Print(port)))
    ensures PublishedHostPort(Dict(fields), hostPort) == Some(port)
  {
    NoColonNoDollar(port);
    EnvSubst.NoDollarNoChange(Decimal.Print(port), PortEnv(hostPort));
    PrintedIsRead(port);
  }

  // With an address in front, the middle part is read.
  lemma AddressedPortIsRead(ip: string, host: string, container: string, hostPort: Option<int>)
    requires ':' !in ip && ':' !in host && ':' !in container && '$' !in ip && '$' !in host && '$' !in container
    ensures PublishedHostPort(Str(ip + [':'] + (host + [':'] + container)), hostPort) == DigitsToInt(host)
  {
    var text := ip + [':'] + (host + [':'] + container);
    EnvSubst.NoDollarNoChange(text, PortEnv(hostPort));
    SplitPart(ip, ':', host + [':'] + container);
    SplitPart(host, ':', container);
    SplitWhole(container, ':');
  }

  // `${APP_PORT:-3001}:3001` is read as the port chosen, or as its own default.
  lemma AppPortIsRead(default: string, container: string, hostPort: Option<int>)
    requires '}' !in default && ':' !in default && ':' !in container && '$' !in container
    requires hostPort.Some? ==> hostPort.value >= 0
    ensures PublishedHostPort(Str("${" + APP_PORT + ":-" + default + "}" + ([':'] + container)), hostPort) ==
            if hostPort.Some? && hostPort.value != 0 then hostPort else DigitsToInt(default)
  {
    var env := PortEnv(hostPort);
    var chosen := if hostPort.Some? && hostPort.value != 0 then Decimal.PrintInt(hostPort.value) else default;
    AppPortIsName();
    OneVariable(APP_PORT, default, [':'] + container, env);
    EnvSubst.NoDollarNoChange([':'] + container, env);
    if hostPort.Some? {
      NoColonNoDollar(hostPort.value);
      PrintedPortReads(hostPort.value);
    }
    HostPartIsRead(chosen, container);
  }

  const APP_PORT := "APP_PORT"

  lemma AppPortIsName()
    ensures EnvSubst.IsName(APP_PORT)
  {
  }

  lemma HostPartIsRead(host: string, container: string)
    requires ':' !in host && ':' !in container
    ensures LastTwo(host + ([':'] + container)) == Some(host)
  {
    SplitPart(host, ':', container);
    SplitWhole(container, ':');
    assert host + ([':'] + container) == host + [':'] + container;
  }

  lemma OneVariable(name: string, default: string, rest: string, env: EnvSubst.Env)
    requires EnvSubst.IsName(name) && '}' !in default && (rest == "" || !EnvSubst.NameChar(rest[0]))
    ensures EnvSubst.Subst("${" + name + ":-" + default + "}" + rest, env) ==
            (if name in env && env[name] != "" then env[name] else default) + EnvSubst.Subst(rest, env)
  {
    var ps := [EnvSubst.VarOrEmpty(name, default)];
    var none: seq<EnvSubst.Piece> := [];
    assert ps[1..] == none && EnvSubst.PrintAll(none) == "" && EnvSubst.EvalAll(none, env) == "";
    assert EnvSubst.PrintAll(ps) == "${" + name + ":-" + default + "}";
    EnvSubst.SubstEvaluatesThen(ps, rest, env);
  }
}
