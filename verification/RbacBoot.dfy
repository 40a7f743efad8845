/** What every start of the panel does to the role table, one role at a time. */
module RbacBoot {
  import opened RbacTables
  import opened RbacConversion

  const ADMIN := "admin"
  const USER := "user"
  const CLUSTER_MANAGE := "cluster:manage"
  const OLD_CLUSTER_MANAGE := "proxmox.cluster.manage"
  const DASHBOARD_VIEW := "dashboard:view"
  const OLD_DASHBOARD_VIEW := "dashboard.view"
  const SETTING_VIEW := "setting:view"
  const SETTING_UPDATE := "setting:update"
  const SETTING_MANAGE := "setting:manage"

  datatype Tables = Tables(legacy: map<string, string>, seeds: map<string, Perms>, defaults: map<string, Perms>,
                           own: Perms, granular: map<string, set<string>>, coolify: map<string, set<string>>)

  // The roles, and whether each of the two one-time steps has been done.
  datatype State = State(roles: map<string, Perms>, viewSplit: bool, coolifyGranted: bool)

  predicate Truthy(p: Perms, key: string) {
    key in p && p[key]
  }

  predicate HasDotted(p: Perms) {
    exists k :: k in p && Dotted(k)
  }

  // ---------- the steps, for one role ----------

  ghost predicate Migrated(t: Tables, p: Perms, after: Perms) {
    if HasDotted(p) then Converts(t.legacy, p, after) else after == p
  }

  function WithDefaults(t: Tables, role: string, p: Perms): Perms
    requires role in t.defaults
  {
    if p == map[] then t.defaults[role] else t.defaults[role] + p
  }

  ghost predicate Ensured(t: Tables, role: string, p: Perms, after: Perms) {
    if role in t.defaults then exists q :: Migrated(t, p, q) && after == WithDefaults(t, role, q) else after == p
  }

  function WithOwn(t: Tables, role: string, p: Perms): Perms {
    if role == USER then t.own + p else p
  }

  function WithCluster(role: string, p: Perms): Perms {
    if role != ADMIN then p
    else
      var q := p - {OLD_CLUSTER_MANAGE};
      if Truthy(q, CLUSTER_MANAGE) then q else q[CLUSTER_MANAGE := true]
  }

  function WithoutDashboard(role: string, p: Perms): Perms {
    if role == USER then (p - {OLD_DASHBOARD_VIEW})[DASHBOARD_VIEW := false] else p
  }

  function Implied(t: Tables, p: Perms): set<string> {
    set u, k | u in t.granular && Truthy(p, u) && k in t.granular[u] :: k
  }

  function GrantAll(keys: set<string>): Perms {
    map k | k in keys :: true
  }

  function Backfilled(t: Tables, p: Perms): Perms {
    GrantAll(Implied(t, p)) + p
  }

  function ViewSplit(p: Perms): Perms {
    if Truthy(p, SETTING_VIEW) && !Truthy(p, SETTING_UPDATE) && !Truthy(p, SETTING_MANAGE) then p - {SETTING_VIEW} else p
  }

  function WithCoolify(t: Tables, role: string, p: Perms): Perms {
    if role in t.coolify then GrantAll(t.coolify[role]) + p else p
  }

  function Middle(t: Tables, role: string, p: Perms): Perms {
    Backfilled(t, WithoutDashboard(role, WithCluster(role, WithOwn(t, role, p))))
  }

  function Late(t: Tables, viewSplit: bool, coolifyGranted: bool, role: string, p: Perms): Perms {
    var q := if viewSplit then p else ViewSplit(p);
    if coolifyGranted then q else WithCoolify(t, role, q)
  }

  // A role under the new names and with its defaults.
  ghost predicate RoleMerged(t: Tables, role: string, p: Perms, after: Perms) {
    exists a :: Migrated(t, p, a) && Ensured(t, role, a, after)
  }

  // A role before the one-time steps.
  ghost predicate RolePrepared(t: Tables, role: string, p: Perms, after: Perms) {
    exists b :: RoleMerged(t, role, p, b) && Ensured(t, role, Middle(t, role, b), after)
  }

  // The whole start, for one role.
  ghost predicate RoleBoot(t: Tables, s: State, role: string, p: Perms, after: Perms) {
    exists c :: RolePrepared(t, role, p, c) && after == Late(t, s.viewSplit, s.coolifyGranted, role, c)
  }

  // What a role starts from: a missing one is inserted.
  function Start(t: Tables, s: State, role: string): Perms {
    if role in s.roles then s.roles[role] else if role in t.seeds then t.seeds[role] else map[]
  }

  ghost predicate Boot(t: Tables, s: State, after: State) {
    && after.viewSplit && after.coolifyGranted
    && after.roles.Keys == s.roles.Keys + t.seeds.Keys + t.defaults.Keys
    && forall r :: r in after.roles ==> RoleBoot(t, s, r, Start(t, s, r), after.roles[r])
  }

  // ---------- what is needed of the tables ----------

  predicate AllColon(keys: set<string>) {
    forall k :: k in keys ==> Colon(k)
  }

  const SETTINGS := {SETTING_VIEW, SETTING_UPDATE, SETTING_MANAGE}

  predicate SoundDefault(d: Perms) {
    AllColon(d.Keys) && exists k :: k in d && k != SETTING_VIEW
  }

  predicate SoundDefaults(defaults: map<string, Perms>) {
    forall r :: r in defaults ==> SoundDefault(defaults[r])
  }

  // A permission that was split off is none that others were split off from, and no setting.
  predicate Part(umbrellas: set<string>, key: string) {
    Colon(key) && key !in umbrellas && key !in SETTINGS && key != DASHBOARD_VIEW && key != CLUSTER_MANAGE
  }

  predicate SoundGranular(granular: map<string, set<string>>) {
    && AllColon(granular.Keys) && SETTINGS !! granular.Keys
    && forall u, k :: u in granular && k in granular[u] ==> Part(granular.Keys, k)
  }

  predicate SoundCoolify(coolify: map<string, set<string>>, defaults: map<string, Perms>) {
    forall r :: r in coolify ==> r in defaults && coolify[r] <= defaults[r].Keys - {SETTING_VIEW}
  }

  predicate SoundOwn(own: set<string>, umbrellas: set<string>) {
    AllColon(own) && own !! SETTINGS + {DASHBOARD_VIEW} + umbrellas
  }

  predicate Sound(t: Tables) {
    && IsLegacyTable(t.legacy)
    && SoundDefaults(t.defaults)
    && SoundOwn(t.own.Keys, t.granular.Keys)
    && SoundGranular(t.granular)
    && SoundCoolify(t.coolify, t.defaults)
  }

  // ---------- a role no later start changes ----------

  predicate Clean(t: Tables, p: Perms) {
    HasDotted(p) ==> Normal(t.legacy, p)
  }

  predicate Settled(t: Tables, role: string, p: Perms, without: set<string>) {
    && Clean(t, p)
    && Implied(t, p) <= p.Keys
    && (role in t.defaults ==> t.defaults[role].Keys - without <= p.Keys)
    && (role == USER ==> t.own.Keys <= p.Keys && OLD_DASHBOARD_VIEW !in p && DASHBOARD_VIEW in p && !p[DASHBOARD_VIEW])
    && (role == ADMIN ==> OLD_CLUSTER_MANAGE !in p && Truthy(p, CLUSTER_MANAGE))
  }

  lemma MigratedIsClean(t: Tables, p: Perms, after: Perms)
    requires Sound(t) && Migrated(t, p, after)
    ensures Clean(t, after)
    ensures Clean(t, p) ==> after == p
  {
    if HasDotted(p) {
      ConvertedIsNormal(t.legacy, p, after);
      if Normal(t.legacy, p) {
        NormalIsKept(t.legacy, p, after);
      }
    }
  }

  // Nothing but new names added, and old ones taken away, leaves a map clean.
  lemma CleanStays(t: Tables, p: Perms, after: Perms)
    requires Clean(t, p) && forall k :: k in after && !Colon(k) ==> k in p && after[k] == p[k]
    ensures Clean(t, after)
  {
  }

  // A role with the defaults it misses.
  function Merged(t: Tables, role: string, p: Perms): Perms {
    if role in t.defaults then t.defaults[role] + p else p
  }

  lemma MergedIs(t: Tables, role: string, p: Perms)
    requires Sound(t)
    ensures forall k :: k in p ==> k in Merged(t, role, p) && Merged(t, role, p)[k] == p[k]
    ensures forall k :: k in Merged(t, role, p) && !Colon(k) ==> k in p
    ensures role in t.defaults ==> t.defaults[role].Keys <= Merged(t, role, p).Keys
    ensures (role in t.defaults ==> t.defaults[role].Keys <= p.Keys) ==> Merged(t, role, p) == p
    ensures Clean(t, p) ==> Clean(t, Merged(t, role, p))
  {
  }

  lemma WithDefaultsIsMerged(t: Tables, role: string, p: Perms)
    requires role in t.defaults
    ensures WithDefaults(t, role, p) == Merged(t, role, p)
  {
  }

  lemma EnsuredClean(t: Tables, role: string, p: Perms, after: Perms)
    requires Sound(t) && Clean(t, p) && Ensured(t, role, p, after)
    ensures after == Merged(t, role, p) && Clean(t, after)
  {
    MergedIs(t, role, p);
    if role in t.defaults {
      var q :| Migrated(t, p, q) && after == WithDefaults(t, role, q);
      MigratedIsClean(t, p, q);
      WithDefaultsIsMerged(t, role, p);
    }
  }

  lemma OldNamesAreNotNew()
    ensures !Colon(OLD_CLUSTER_MANAGE) && !Colon(OLD_DASHBOARD_VIEW)
    ensures Colon(CLUSTER_MANAGE) && Colon(DASHBOARD_VIEW) && Colon(SETTING_VIEW)
  {
  }

  // The role before the granular permissions are filled in.
  function Trimmed(t: Tables, role: string, p: Perms): Perms {
    WithoutDashboard(role, WithCluster(role, WithOwn(t, role, p)))
  }

  lemma TrimmedKeeps(t: Tables, role: string, p: Perms)
    requires Sound(t)
    ensures var x := Trimmed(t, role, p);
            && (forall k :: k in p && Colon(k) ==> k in x)
            && (forall k :: k in x && !Colon(k) ==> k in p && x[k] == p[k])
            && (role == USER ==> t.own.Keys <= x.Keys && OLD_DASHBOARD_VIEW !in x && DASHBOARD_VIEW in x && !x[DASHBOARD_VIEW])
            && (role == ADMIN ==> OLD_CLUSTER_MANAGE !in x && Truthy(x, CLUSTER_MANAGE))
  {
    OldNamesAreNotNew();
  }

  lemma ImpliedIsGranular(t: Tables, p: Perms, k: string)
    requires Sound(t) && k in Implied(t, p)
    ensures Colon(k) && k !in t.granular && k !in SETTINGS && k != DASHBOARD_VIEW && k != CLUSTER_MANAGE
  {
    var u :| u in t.granular && Truthy(p, u) && k in t.granular[u];
    assert Part(t.granular.Keys, k);
  }

  lemma SameUmbrellasImplySame(t: Tables, p: Perms, q: Perms)
    requires forall u :: u in t.granular ==> (Truthy(p, u) <==> Truthy(q, u))
    ensures Implied(t, p) == Implied(t, q)
  {
  }

  lemma BackfillCloses(t: Tables, p: Perms)
    requires Sound(t)
    ensures Implied(t, Backfilled(t, p)) == Implied(t, p) <= Backfilled(t, p).Keys
    ensures Clean(t, p) ==> Clean(t, Backfilled(t, p))
  {
    var m := Backfilled(t, p);
    forall k | k in Implied(t, p) ensures Colon(k) && k !in t.granular {
      ImpliedIsGranular(t, p, k);
    }
    assert forall u :: u in t.granular ==> (u in m <==> u in p);
    assert forall u :: u in t.granular ==> (Truthy(p, u) <==> Truthy(m, u));
    SameUmbrellasImplySame(t, p, m);
    if Clean(t, p) {
      CleanStays(t, p, m);
    }
  }

  lemma MiddleKeeps(t: Tables, role: string, p: Perms)
    requires Sound(t) && Clean(t, p)
    ensures Settled(t, role, Middle(t, role, p), if role in t.defaults then t.defaults[role].Keys else {})
    ensures forall k :: k in p && Colon(k) ==> k in Middle(t, role, p)
  {
    var x := Trimmed(t, role, p);
    TrimmedKeeps(t, role, p);
    CleanStays(t, p, x);
    BackfillCloses(t, x);
    OldNamesAreNotNew();
    if OLD_DASHBOARD_VIEW in Implied(t, x) {
      ImpliedIsGranular(t, x, OLD_DASHBOARD_VIEW);
      assert false;
    }
    if OLD_CLUSTER_MANAGE in Implied(t, x) {
      ImpliedIsGranular(t, x, OLD_CLUSTER_MANAGE);
      assert false;
    }
  }

  // Taking `setting:view` away keeps a role settled but for that one key.
  lemma ViewSplitKeeps(t: Tables, role: string, p: Perms)
    requires Sound(t) && Settled(t, role, p, {})
    ensures Settled(t, role, ViewSplit(p), {SETTING_VIEW})
  {
    var q := ViewSplit(p);
    CleanStays(t, p, q);
    SameUmbrellasImplySame(t, p, q);
    forall k | k in Implied(t, p) ensures k in q {
      ImpliedIsGranular(t, p, k);
    }
  }

  // The one-time grant of the Coolify permissions finds them all granted by the defaults.
  lemma CoolifyStepIsVacuous(t: Tables, role: string, p: Perms)
    requires Sound(t) && Settled(t, role, p, {SETTING_VIEW})
    ensures WithCoolify(t, role, p) == p
  {
  }

  // The second look at the defaults, after the granular permissions, finds nothing missing.
  lemma DefaultsAreIn(t: Tables, role: string, a: Perms)
    requires Sound(t) && Clean(t, a)
    ensures var m := Middle(t, role, Merged(t, role, a)); Merged(t, role, m) == m && Settled(t, role, m, {})
  {
    var b := Merged(t, role, a);
    MergedIs(t, role, a);
    MiddleKeeps(t, role, b);
    MergedIs(t, role, Middle(t, role, b));
    if role in t.defaults {
      assert AllColon(t.defaults[role].Keys);
    }
  }

  // How a role is prepared, from what its conversion gives.
  lemma PreparedIs(t: Tables, role: string, p: Perms, c: Perms) returns (a: Perms)
    requires Sound(t) && RolePrepared(t, role, p, c)
    ensures Migrated(t, p, a) && Clean(t, a) && c == Middle(t, role, Merged(t, role, a)) && Settled(t, role, c, {})
  {
    var b :| RoleMerged(t, role, p, b) && Ensured(t, role, Middle(t, role, b), c);
    a :| Migrated(t, p, a) && Ensured(t, role, a, b);
    MigratedIsClean(t, p, a);
    EnsuredClean(t, role, a, b);
    DefaultsAreIn(t, role, a);
    EnsuredClean(t, role, Middle(t, role, b), c);
  }

  lemma LateIs(t: Tables, viewSplit: bool, coolifyGranted: bool, role: string, c: Perms)
    requires Sound(t) && Settled(t, role, c, {})
    ensures Late(t, viewSplit, coolifyGranted, role, c) == if viewSplit then c else ViewSplit(c)
    ensures Settled(t, role, if viewSplit then c else ViewSplit(c), if viewSplit then {} else {SETTING_VIEW})
  {
    ViewSplitKeeps(t, role, c);
    CoolifyStepIsVacuous(t, role, c);
    CoolifyStepIsVacuous(t, role, ViewSplit(c));
  }

  // What one start leaves is settled, but for `setting:view` when that was taken away in it.
  lemma BootSettles(t: Tables, s: State, role: string, p: Perms, after: Perms)
    requires Sound(t) && RoleBoot(t, s, role, p, after)
    ensures Settled(t, role, after, if s.viewSplit then {} else {SETTING_VIEW})
  {
    var c :| RolePrepared(t, role, p, c) && after == Late(t, s.viewSplit, s.coolifyGranted, role, c);
    var _ := PreparedIs(t, role, p, c);
    LateIs(t, s.viewSplit, s.coolifyGranted, role, c);
  }

  // `setting:view` comes back to a default role whose defaults grant it.
  function Readded(t: Tables, role: string, p: Perms): Perms {
    if role in t.defaults && SETTING_VIEW in t.defaults[role] && SETTING_VIEW !in p
    then p[SETTING_VIEW := t.defaults[role][SETTING_VIEW]]
    else p
  }

  lemma ReaddedSettles(t: Tables, role: string, p: Perms)
    requires Sound(t) && Settled(t, role, p, {SETTING_VIEW})
    ensures Settled(t, role, Readded(t, role, p), {})
    ensures Merged(t, role, p) == Readded(t, role, p)
  {
    var q := Readded(t, role, p);
    OldNamesAreNotNew();
    CleanStays(t, p, q);
    SameUmbrellasImplySame(t, p, q);
  }

  lemma MiddleIsIdle(t: Tables, role: string, p: Perms)
    requires Settled(t, role, p, {})
    ensures Middle(t, role, p) == p
  {
    assert WithOwn(t, role, p) == p;
    assert WithCluster(role, p) == p;
    assert WithoutDashboard(role, p) == p;
    assert Backfilled(t, p) == p;
  }

  // A later start changes a settled role by no more than that.
  lemma LaterBootOnlyReadds(t: Tables, s: State, role: string, p: Perms, after: Perms)
    requires Sound(t) && s.viewSplit && s.coolifyGranted
    requires Settled(t, role, p, {SETTING_VIEW}) && RoleBoot(t, s, role, p, after)
    ensures after == Readded(t, role, p)
  {
    var c :| RolePrepared(t, role, p, c) && after == Late(t, s.viewSplit, s.coolifyGranted, role, c);
    var a := PreparedIs(t, role, p, c);
    MigratedIsClean(t, p, a);
    ReaddedSettles(t, role, p);
    MiddleIsIdle(t, role, Readded(t, role, p));
  }

  lemma ReaddedOnce(t: Tables, role: string, p: Perms)
    requires Settled(t, role, p, {})
    ensures Readded(t, role, p) == p
  {
  }

  // From any role table, a third start changes nothing any more. The second one only gives back
  // `setting:view`, to default roles whose defaults have it and which lack it.
  lemma StartsConverge(t: Tables, s0: State, s1: State, s2: State, s3: State)
    requires Sound(t) && Boot(t, s0, s1) && Boot(t, s1, s2) && Boot(t, s2, s3)
    ensures s2.roles == map r | r in s1.roles :: Readded(t, r, s1.roles[r])
    ensures s3 == s2
    ensures s0.viewSplit ==> s2 == s1
  {
    RolesStay(t, s0, s1, s2);
    RolesStay(t, s1, s2, s3);
    forall r | r in s1.roles
      ensures Converged(t, s0, s1, s2, s3, r)
    {
      RoleConverges(t, s0, s1, s2, r, Start(t, s0, r), s1.roles[r], s2.roles[r], s3.roles[r]);
    }
    AllConverged(t, s0, s1, s2, s3);
  }

  lemma AllConverged(t: Tables, s0: State, s1: State, s2: State, s3: State)
    requires s1.roles.Keys == s2.roles.Keys == s3.roles.Keys
    requires s1.viewSplit == s2.viewSplit == s3.viewSplit && s1.coolifyGranted == s2.coolifyGranted == s3.coolifyGranted
    requires forall r :: r in s1.roles ==> Converged(t, s0, s1, s2, s3, r)
    ensures s2.roles == map r | r in s1.roles :: Readded(t, r, s1.roles[r])
    ensures s3 == s2
    ensures s0.viewSplit ==> s2 == s1
  {
  }

  predicate Converged(t: Tables, s0: State, s1: State, s2: State, s3: State, r: string)
    requires r in s1.roles && r in s2.roles && r in s3.roles
  {
    && s2.roles[r] == Readded(t, r, s1.roles[r])
    && s3.roles[r] == s2.roles[r]
    && (s0.viewSplit ==> s2.roles[r] == s1.roles[r])
  }

  lemma RolesStay(t: Tables, s0: State, s1: State, s2: State)
    requires Boot(t, s0, s1) && Boot(t, s1, s2)
    ensures s2.roles.Keys == s1.roles.Keys
    ensures s1.viewSplit == s2.viewSplit && s1.coolifyGranted == s2.coolifyGranted
  {
  }

  // The same for one role, through three starts of which the later two skip the one-time steps.
  lemma RoleConverges(t: Tables, s0: State, s1: State, s2: State, role: string, p0: Perms, p1: Perms, p2: Perms, p3: Perms)
    requires Sound(t) && s1.viewSplit && s1.coolifyGranted && s2.viewSplit && s2.coolifyGranted
    requires RoleBoot(t, s0, role, p0, p1) && RoleBoot(t, s1, role, p1, p2) && RoleBoot(t, s2, role, p2, p3)
    ensures p2 == Readded(t, role, p1) && p3 == p2
    ensures s0.viewSplit ==> p2 == p1
  {
    BootSettles(t, s0, role, p0, p1);
    LaterBootOnlyReadds(t, s1, role, p1, p2);
    ReaddedSettles(t, role, p1);
    if s0.viewSplit {
      ReaddedOnce(t, role, p1);
    }
    LaterBootOnlyReadds(t, s2, role, p2, p3);
    ReaddedOnce(t, role, p2);
  }

  // ---------- values set by hand ----------

  // The two values every start dictates.
  predicate Dictated(role: string, key: string) {
    (role == ADMIN && key == CLUSTER_MANAGE) || (role == USER && key == DASHBOARD_VIEW)
  }

  // What the one-time step takes away: `setting:view` from a role that administers nothing, `b` being
  // the role's permissions under the new names and with the defaults it missed.
  predicate TakenAway(s: State, b: Perms, key: string) {
    key == SETTING_VIEW && !s.viewSplit && Truthy(b, key) && !Truthy(b, SETTING_UPDATE) && !Truthy(b, SETTING_MANAGE)
  }

  lemma TrimmedValue(t: Tables, role: string, p: Perms, key: string)
    requires Sound(t) && Colon(key)
    ensures key in p ==> key in Trimmed(t, role, p)
    ensures key in p ==> Trimmed(t, role, p)[key] == if Dictated(role, key) then role == ADMIN else p[key]
    ensures key in SETTINGS ==> (key in Trimmed(t, role, p) <==> key in p)
  {
    OldNamesAreNotNew();
  }

  lemma MiddleValue(t: Tables, role: string, p: Perms, key: string)
    requires Sound(t) && Colon(key)
    ensures key in p ==> key in Middle(t, role, p)
    ensures key in p ==> Middle(t, role, p)[key] == if Dictated(role, key) then role == ADMIN else p[key]
    ensures key in SETTINGS ==> (key in Middle(t, role, p) <==> key in p)
  {
    var x := Trimmed(t, role, p);
    TrimmedValue(t, role, p, key);
    if key in Implied(t, x) {
      ImpliedIsGranular(t, x, key);
    }
  }

  // What a start makes of a role, from what its conversion gives.
  lemma ConvertedMiddle(t: Tables, s: State, role: string, p: Perms, after: Perms) returns (a: Perms)
    requires Sound(t) && RoleBoot(t, s, role, p, after)
    ensures Migrated(t, p, a)
    ensures var c := Middle(t, role, Merged(t, role, a));
            after == if s.viewSplit then c else ViewSplit(c)
  {
    var c :| RolePrepared(t, role, p, c) && after == Late(t, s.viewSplit, s.coolifyGranted, role, c);
    a := PreparedIs(t, role, p, c);
    LateIs(t, s.viewSplit, s.coolifyGranted, role, c);
  }

  lemma SplitKeeps(t: Tables, s: State, role: string, b: Perms)
    requires Sound(t)
    ensures var c := Middle(t, role, b);
            SETTING_VIEW in (if s.viewSplit then c else ViewSplit(c)) <==> SETTING_VIEW in b && !TakenAway(s, b, SETTING_VIEW)
  {
    SettingsAreColon();
    MiddleValue(t, role, b, SETTING_VIEW);
    MiddleValue(t, role, b, SETTING_UPDATE);
    MiddleValue(t, role, b, SETTING_MANAGE);
  }

  // Whether a value of the converted map is still there after the start, and what it is.
  predicate ValueStays(t: Tables, s: State, role: string, a: Perms, after: Perms, key: string)
    requires key in a
  {
    && (key in after <==> !TakenAway(s, Merged(t, role, a), key))
    && (key in after ==> after[key] == if Dictated(role, key) then role == ADMIN else a[key])
  }

  // In any role, a start keeps every value that the conversion gives under a new name, but for the two
  // it dictates and the one the one-time step takes away.
  lemma ConvertedValuesStay(t: Tables, s: State, role: string, p: Perms, after: Perms) returns (a: Perms)
    requires Sound(t) && RoleBoot(t, s, role, p, after)
    ensures Migrated(t, p, a)
    ensures forall key :: key in a && Colon(key) ==> ValueStays(t, s, role, a, after, key)
  {
    a := ConvertedMiddle(t, s, role, p, after);
    MergedIs(t, role, a);
    forall key | key in a && Colon(key) ensures ValueStays(t, s, role, a, after, key) {
      MergedValueStays(t, s, role, Merged(t, role, a), key);
    }
  }

  lemma MergedValueStays(t: Tables, s: State, role: string, b: Perms, key: string)
    requires Sound(t) && Colon(key) && key in b
    ensures var c := Middle(t, role, b);
            var after := if s.viewSplit then c else ViewSplit(c);
            && (key in after <==> !TakenAway(s, b, key))
            && (key in after ==> after[key] == if Dictated(role, key) then role == ADMIN else b[key])
  {
    MiddleValue(t, role, b, key);
    SplitKeeps(t, s, role, b);
  }

  // `setting:view` is there after a start exactly when the role had it, or missed it as a default, and
  // it was not taken away.
  lemma ViewAfterStart(t: Tables, s: State, role: string, p: Perms, after: Perms) returns (a: Perms)
    requires Sound(t) && RoleBoot(t, s, role, p, after)
    ensures Migrated(t, p, a)
    ensures SETTING_VIEW in after <==> SETTING_VIEW in Merged(t, role, a) && !TakenAway(s, Merged(t, role, a), SETTING_VIEW)
  {
    a := ConvertedMiddle(t, s, role, p, after);
    SplitKeeps(t, s, role, Merged(t, role, a));
  }

  // In a role without old names these are the values themselves.
  lemma ExplicitValuesStay(t: Tables, s: State, role: string, p: Perms, after: Perms, key: string)
    requires Sound(t) && RoleBoot(t, s, role, p, after) && !HasDotted(p)
    requires Colon(key) && key in p
    ensures key in after <==> !TakenAway(s, Merged(t, role, p), key)
    ensures key in after ==> after[key] == if Dictated(role, key) then role == ADMIN else p[key]
  {
    var a := ConvertedValuesStay(t, s, role, p, after);
    assert ValueStays(t, s, role, a, after, key);
  }

  lemma SettingsAreColon()
    ensures Colon(SETTING_VIEW) && Colon(SETTING_UPDATE) && Colon(SETTING_MANAGE)
  {
  }

  // A role that a start leaves without `setting:view` has it after the next one if and only if the
  // role's defaults contain it.
  lemma TakenAwayIsGivenBack(t: Tables, s0: State, s1: State, role: string, p0: Perms, p1: Perms, p2: Perms)
    requires Sound(t) && s1.viewSplit && s1.coolifyGranted
    requires RoleBoot(t, s0, role, p0, p1) && RoleBoot(t, s1, role, p1, p2)
    requires SETTING_VIEW !in p1
    ensures SETTING_VIEW in p2 <==> role in t.defaults && SETTING_VIEW in t.defaults[role]
  {
    BootSettles(t, s0, role, p0, p1);
    LaterBootOnlyReadds(t, s1, role, p1, p2);
  }

  // A role that is to see the settings by default, and gets none of the two permissions to change them
  // from its old names or its defaults.
  predicate OnlyViews(t: Tables, role: string, p: Perms) {
    && role in t.defaults && Truthy(t.defaults[role], SETTING_VIEW)
    && SETTING_UPDATE !in t.defaults[role] && SETTING_MANAGE !in t.defaults[role]
    && SETTINGS !! p.Keys
    && !Renamed(t.legacy, p, SETTING_UPDATE) && !Renamed(t.legacy, p, SETTING_MANAGE)
  }

  lemma OnlyViewsConverts(t: Tables, role: string, p: Perms, a: Perms)
    requires OnlyViews(t, role, p) && Migrated(t, p, a)
    ensures SETTING_VIEW in a ==> a[SETTING_VIEW]
    ensures SETTING_UPDATE !in a && SETTING_MANAGE !in a
  {
    if HasDotted(p) {
      assert ConvertsAt(t.legacy, p, a, SETTING_VIEW);
      assert ConvertsAt(t.legacy, p, a, SETTING_UPDATE);
      assert ConvertsAt(t.legacy, p, a, SETTING_MANAGE);
    }
  }

  lemma OnlyViewsIsTaken(t: Tables, s: State, role: string, p: Perms, a: Perms)
    requires OnlyViews(t, role, p) && Migrated(t, p, a) && !s.viewSplit
    ensures TakenAway(s, Merged(t, role, a), SETTING_VIEW)
  {
    OnlyViewsConverts(t, role, p, a);
  }

  // Its first start leaves it without `setting:view`, and the second gives that back.
  lemma OnlyViewsLosesAndRegains(t: Tables, s0: State, s1: State, role: string, p0: Perms, p1: Perms, p2: Perms)
    requires Sound(t) && !s0.viewSplit && s1.viewSplit && s1.coolifyGranted
    requires RoleBoot(t, s0, role, p0, p1) && RoleBoot(t, s1, role, p1, p2)
    requires OnlyViews(t, role, p0)
    ensures SETTING_VIEW !in p1 && SETTING_VIEW in p2
  {
    var a := ViewAfterStart(t, s0, role, p0, p1);
    OnlyViewsIsTaken(t, s0, role, p0, a);
    TakenAwayIsGivenBack(t, s0, s1, role, p0, p1, p2);
  }
}
