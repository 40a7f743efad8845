/** The start-up chain with the panel's own tables: they have what convergence needs. */
module RbacPanel {
  import opened RbacTables
  import opened RbacConversion
  import opened RbacBoot
  import opened RbacOutcome
  import opened RbacEngine
  import opened Wrappers

  const TABLES := Tables(LEGACY, SEED_ROLES, DEFAULT_ROLES, OWN_GUESTS, GRANULAR, COOLIFY)

  lemma ServerNamesAreDotted()
    ensures forall p :: p in LEGACY_SERVERS ==> Dotted(p)
  {
  }

  lemma GuestNamesAreDotted()
    ensures forall p :: p in LEGACY_GUESTS ==> Dotted(p)
  {
  }

  lemma PanelNamesAreDotted()
    ensures forall p :: p in LEGACY_PANEL ==> Dotted(p)
  {
  }

  lemma AccountNamesAreDotted()
    ensures forall p :: p in LEGACY_ACCOUNTS ==> Dotted(p)
  {
  }

  lemma LegacyTargetsAreNew()
    ensures forall p :: p in LEGACY_SERVERS ==> Colon(LEGACY_SERVERS[p])
    ensures forall p :: p in LEGACY_GUESTS ==> Colon(LEGACY_GUESTS[p])
  {
  }

  lemma MoreLegacyTargetsAreNew()
    ensures forall p :: p in LEGACY_PANEL ==> Colon(LEGACY_PANEL[p])
    ensures forall p :: p in LEGACY_ACCOUNTS ==> Colon(LEGACY_ACCOUNTS[p])
  {
  }

  lemma GroupsAreLegacyTables()
    ensures IsLegacyTable(LEGACY_SERVERS) && IsLegacyTable(LEGACY_GUESTS)
    ensures IsLegacyTable(LEGACY_PANEL) && IsLegacyTable(LEGACY_ACCOUNTS)
  {
    ServerNamesAreDotted();
    GuestNamesAreDotted();
    PanelNamesAreDotted();
    AccountNamesAreDotted();
    LegacyTargetsAreNew();
    MoreLegacyTargetsAreNew();
  }

  lemma UnionIsLegacyTable(a: map<string, string>, b: map<string, string>)
    requires IsLegacyTable(a) && IsLegacyTable(b)
    ensures IsLegacyTable(a + b)
  {
  }

  lemma LegacyIsLegacyTable()
    ensures IsLegacyTable(LEGACY)
  {
    GroupsAreLegacyTables();
    UnionIsLegacyTable(LEGACY_SERVERS, LEGACY_GUESTS);
    UnionIsLegacyTable(LEGACY_SERVERS + LEGACY_GUESTS, LEGACY_PANEL);
    UnionIsLegacyTable(LEGACY_SERVERS + LEGACY_GUESTS + LEGACY_PANEL, LEGACY_ACCOUNTS);
  }

  lemma AdminVmsAreNew()
    ensures AllColon(ADMIN_VMS.Keys)
  {
  }

  lemma AdminContainersAreNew()
    ensures AllColon(ADMIN_CONTAINERS.Keys)
  {
  }

  lemma AdminNodesAreNew()
    ensures AllColon(ADMIN_NODES.Keys)
  {
  }

  lemma AdminResourcesAreNew()
    ensures AllColon(ADMIN_RESOURCES.Keys)
  {
  }

  lemma AdminAccountsAreNew()
    ensures AllColon(ADMIN_ACCOUNTS.Keys)
  {
  }

  lemma AdminPanelIsNew()
    ensures AllColon(ADMIN_PANEL.Keys)
  {
  }

  lemma ModeratorGuestsAreNew()
    ensures AllColon(MODERATOR_GUESTS.Keys)
  {
  }

  lemma ModeratorPanelIsNew()
    ensures AllColon(MODERATOR_PANEL.Keys)
  {
  }

  lemma UserGuestsAreNew()
    ensures AllColon(USER_GUESTS.Keys)
  {
  }

  lemma UserPanelIsNew()
    ensures AllColon(USER_PANEL.Keys)
  {
  }

  lemma AdminDefaultsAreSound()
    ensures SoundDefault(ADMIN_DEFAULTS)
  {
    AdminVmsAreNew();
    AdminContainersAreNew();
    AdminNodesAreNew();
    AdminResourcesAreNew();
    AdminAccountsAreNew();
    AdminPanelIsNew();
    assert SETTING_UPDATE in ADMIN_PANEL;
  }

  lemma ModeratorDefaultsAreSound()
    ensures SoundDefault(MODERATOR_DEFAULTS)
  {
    ModeratorGuestsAreNew();
    ModeratorPanelIsNew();
    assert DASHBOARD_VIEW in MODERATOR_PANEL;
  }

  lemma UserDefaultsAreSound()
    ensures SoundDefault(USER_DEFAULTS)
  {
    UserGuestsAreNew();
    UserPanelIsNew();
    assert DASHBOARD_VIEW in USER_PANEL;
  }

  lemma DemoDefaultsAreSound()
    ensures SoundDefault(DEMO_DEFAULTS)
  {
    assert DASHBOARD_VIEW in DEMO_DEFAULTS;
  }

  lemma FourAreSound(admin: Perms, moderator: Perms, user: Perms, demo: Perms)
    requires SoundDefault(admin) && SoundDefault(moderator) && SoundDefault(user) && SoundDefault(demo)
    ensures SoundDefaults(map["admin" := admin, "moderator" := moderator, "user" := user, "demo" := demo])
  {
  }

  lemma DefaultsAreSound()
    ensures SoundDefaults(DEFAULT_ROLES)
  {
    AdminDefaultsAreSound();
    ModeratorDefaultsAreSound();
    UserDefaultsAreSound();
    DemoDefaultsAreSound();
    FourAreSound(ADMIN_DEFAULTS, MODERATOR_DEFAULTS, USER_DEFAULTS, DEMO_DEFAULTS);
  }

  const UMBRELLAS := {"server:view", "vm:view", "server:manage", "user:manage"}

  lemma SmallPartsAreParts()
    ensures forall k :: k in SERVER_VIEW_PARTS + VM_VIEW_PARTS + USER_MANAGE_PARTS ==> Part(UMBRELLAS, k)
  {
  }

  lemma ServerManagePartsAreParts()
    ensures forall k :: k in SERVER_MANAGE_PARTS ==> Part(UMBRELLAS, k)
  {
  }

  lemma FourPartsAreSound(a: set<string>, b: set<string>, c: set<string>, d: set<string>)
    requires forall k :: k in a + b + c + d ==> Part(UMBRELLAS, k)
    ensures SoundGranular(map["server:view" := a, "vm:view" := b, "server:manage" := c, "user:manage" := d])
  {
    FourUmbrellas(a, b, c, d);
  }

  lemma GranularIsSound()
    ensures SoundGranular(GRANULAR)
  {
    SmallPartsAreParts();
    ServerManagePartsAreParts();
    FourPartsAreSound(SERVER_VIEW_PARTS, VM_VIEW_PARTS, SERVER_MANAGE_PARTS, USER_MANAGE_PARTS);
  }

  lemma CoolifyIsGrantedByDefault()
    ensures COOLIFY_ADMIN <= ADMIN_PANEL.Keys - {SETTING_VIEW}
    ensures COOLIFY_OTHERS <= MODERATOR_PANEL.Keys - {SETTING_VIEW}
    ensures COOLIFY_OTHERS <= USER_PANEL.Keys - {SETTING_VIEW}
  {
  }

  lemma ThreeAreGranted(a: set<string>, b: set<string>, admin: Perms, moderator: Perms, user: Perms, demo: Perms)
    requires a <= admin.Keys - {SETTING_VIEW} && b <= moderator.Keys - {SETTING_VIEW} && b <= user.Keys - {SETTING_VIEW}
    ensures SoundCoolify(map["admin" := a, "moderator" := b, "user" := b],
                         map["admin" := admin, "moderator" := moderator, "user" := user, "demo" := demo])
  {
  }

  lemma PanelsAreDefaults(a: set<string>, guests: Perms, panel: Perms)
    requires a <= panel.Keys - {SETTING_VIEW}
    ensures a <= (guests + panel).Keys - {SETTING_VIEW}
  {
  }

  lemma CoolifyIsSound()
    ensures SoundCoolify(COOLIFY, DEFAULT_ROLES)
  {
    CoolifyIsGrantedByDefault();
    PanelsAreDefaults(COOLIFY_ADMIN, ADMIN_VMS + ADMIN_CONTAINERS + ADMIN_NODES + ADMIN_RESOURCES + ADMIN_ACCOUNTS, ADMIN_PANEL);
    PanelsAreDefaults(COOLIFY_OTHERS, MODERATOR_GUESTS, MODERATOR_PANEL);
    PanelsAreDefaults(COOLIFY_OTHERS, USER_GUESTS, USER_PANEL);
    ThreeAreGranted(COOLIFY_ADMIN, COOLIFY_OTHERS, ADMIN_DEFAULTS, MODERATOR_DEFAULTS, USER_DEFAULTS, DEMO_DEFAULTS);
  }

  lemma OwnAreNew()
    ensures AllColon(OWN_GUESTS.Keys)
  {
  }

  lemma OwnAreSeparate()
    ensures OWN_GUESTS.Keys !! SETTINGS + {DASHBOARD_VIEW} + UMBRELLAS
  {
  }

  lemma FourUmbrellas(a: set<string>, b: set<string>, c: set<string>, d: set<string>)
    ensures map["server:view" := a, "vm:view" := b, "server:manage" := c, "user:manage" := d].Keys == UMBRELLAS
  {
  }

  lemma OwnIsSound()
    ensures SoundOwn(OWN_GUESTS.Keys, GRANULAR.Keys)
  {
    OwnAreNew();
    OwnAreSeparate();
    FourUmbrellas(SERVER_VIEW_PARTS, VM_VIEW_PARTS, SERVER_MANAGE_PARTS, USER_MANAGE_PARTS);
  }

  lemma PanelTablesAreSound()
    ensures Sound(TABLES)
  {
    LegacyIsLegacyTable();
    DefaultsAreSound();
    OwnIsSound();
    GranularIsSound();
    CoolifyIsSound();
  }

  lemma UserAndDemoLackSettings()
    ensures SETTING_VIEW !in USER_GUESTS && SETTING_VIEW !in USER_PANEL && SETTING_VIEW !in DEMO_DEFAULTS
  {
  }

  lemma AdminAndModeratorHaveSettings()
    ensures Truthy(ADMIN_PANEL, SETTING_VIEW) && Truthy(MODERATOR_PANEL, SETTING_VIEW)
  {
  }

  // `setting:view` for administrators and moderators that lack it.
  function GivenBack(role: string, p: Perms): Perms {
    if (role == "admin" || role == "moderator") && SETTING_VIEW !in p then p[SETTING_VIEW := true] else p
  }

  lemma ReaddedAmongFour(p: Perms, role: string, admin: Perms, moderator: Perms, user: Perms, demo: Perms, t: Tables)
    requires t.defaults == map["admin" := admin, "moderator" := moderator, "user" := user, "demo" := demo]
    requires Truthy(admin, SETTING_VIEW) && Truthy(moderator, SETTING_VIEW)
    requires SETTING_VIEW !in user && SETTING_VIEW !in demo
    ensures Readded(t, role, p) == GivenBack(role, p)
  {
  }

  // With the panel's tables only administrators and moderators get `setting:view` back.
  lemma PanelReadds(role: string, p: Perms)
    ensures Readded(TABLES, role, p) == GivenBack(role, p)
  {
    UserAndDemoLackSettings();
    AdminAndModeratorHaveSettings();
    ReaddedAmongFour(p, role, ADMIN_DEFAULTS, MODERATOR_DEFAULTS, USER_DEFAULTS, DEMO_DEFAULTS, TABLES);
  }

  ghost predicate FourStarts(t: Tables, s0: State, s1: State, s2: State, s3: State) {
    Boot(t, s0, s1) && Boot(t, s1, s2) && Boot(t, s2, s3)
  }

  // With the panel's own tables the third start is idle, and the second gives back what `Readded` says.
  lemma PanelStartsConverge(s0: State, s1: State, s2: State, s3: State)
    requires FourStarts(TABLES, s0, s1, s2, s3)
    ensures s3 == s2
    ensures s2.roles == map r | r in s1.roles :: Readded(TABLES, r, s1.roles[r])
  {
    PanelTablesAreSound();
    SoundStartsConverge(TABLES, s0, s1, s2, s3);
  }

  lemma SoundStartsConverge(t: Tables, s0: State, s1: State, s2: State, s3: State)
    ensures Sound(t) && FourStarts(t, s0, s1, s2, s3) ==> s3 == s2 && s2.roles == map r | r in s1.roles :: Readded(t, r, s1.roles[r])
  {
    if Sound(t) && FourStarts(t, s0, s1, s2, s3) {
      StartsConverge(t, s0, s1, s2, s3);
    }
  }

  // ---------- a fresh installation ----------

  const FRESH := State(map[], false, false)

  lemma SeedLacksThePanelSetting()
    ensures !Truthy(MODERATOR_SEED, "settings.panel")
  {
  }

  lemma SeedLacksTheSecuritySetting()
    ensures !Truthy(MODERATOR_SEED, "settings.security")
  {
  }

  lemma SeedLacksTheManageSetting()
    ensures !Truthy(MODERATOR_SEED, "settings.manage")
  {
  }

  lemma SeedHasNoSettings()
    ensures SETTINGS !! MODERATOR_SEED.Keys
  {
  }

  lemma ModeratorDefaultsChangeNothing()
    ensures SETTING_UPDATE !in MODERATOR_DEFAULTS && SETTING_MANAGE !in MODERATOR_DEFAULTS
  {
  }

  const CHANGES := {SETTING_UPDATE, SETTING_MANAGE}

  lemma OldNamesOfChanges()
    ensures forall p :: p in LEGACY_PANEL && LEGACY_PANEL[p] in CHANGES ==>
              p == "settings.panel" || p == "settings.security" || p == "settings.manage"
  {
  }

  lemma ServersChangeNothing()
    ensures forall p :: p in LEGACY_SERVERS ==> LEGACY_SERVERS[p] !in CHANGES
  {
  }

  lemma GuestsChangeNothing()
    ensures forall p :: p in LEGACY_GUESTS ==> LEGACY_GUESTS[p] !in CHANGES
  {
  }

  lemma AccountsChangeNothing()
    ensures forall p :: p in LEGACY_ACCOUNTS ==> LEGACY_ACCOUNTS[p] !in CHANGES
  {
  }

  lemma UnionChangesNothing(a: map<string, string>, b: map<string, string>, seed: Perms)
    requires forall p :: p in a && a[p] in CHANGES ==> !Truthy(seed, p)
    requires forall p :: p in b && b[p] in CHANGES ==> !Truthy(seed, p)
    ensures forall p :: p in a + b && (a + b)[p] in CHANGES ==> !Truthy(seed, p)
  {
  }

  lemma SeedChangesNothing(seed: Perms)
    requires seed == MODERATOR_SEED
    ensures forall p :: p in LEGACY && LEGACY[p] in CHANGES ==> !Truthy(seed, p)
  {
    SeedLacksThePanelSetting();
    SeedLacksTheSecuritySetting();
    SeedLacksTheManageSetting();
    OldNamesOfChanges();
    ServersChangeNothing();
    GuestsChangeNothing();
    AccountsChangeNothing();
    UnionChangesNothing(LEGACY_SERVERS, LEGACY_GUESTS, seed);
    UnionChangesNothing(LEGACY_SERVERS + LEGACY_GUESTS, LEGACY_PANEL, seed);
    UnionChangesNothing(LEGACY_SERVERS + LEGACY_GUESTS + LEGACY_PANEL, LEGACY_ACCOUNTS, seed);
  }

  const MODERATOR := "moderator"

  lemma SecondOfFour(roles: map<string, Perms>, admin: Perms, moderator: Perms, user: Perms, demo: Perms)
    requires roles == map["admin" := admin, "moderator" := moderator, "user" := user, "demo" := demo]
    ensures MODERATOR in roles && roles[MODERATOR] == moderator
  {
  }

  lemma SeedOfModerator()
    ensures MODERATOR in SEED_ROLES && SEED_ROLES[MODERATOR] == MODERATOR_SEED
  {
    SecondOfFour(SEED_ROLES, ADMIN_SEED, MODERATOR_SEED, USER_SEED, DEMO_SEED);
  }

  lemma DefaultsOfModerator()
    ensures MODERATOR in DEFAULT_ROLES && DEFAULT_ROLES[MODERATOR] == MODERATOR_DEFAULTS
  {
    SecondOfFour(DEFAULT_ROLES, ADMIN_DEFAULTS, MODERATOR_DEFAULTS, USER_DEFAULTS, DEMO_DEFAULTS);
  }

  // A moderator as the panel's tables have it.
  predicate SeedsViewer(t: Tables) {
    MODERATOR in t.seeds && OnlyViews(t, MODERATOR, t.seeds[MODERATOR])
  }

  lemma ViewerIs(t: Tables, seed: Perms, moderator: Perms)
    ensures && MODERATOR in t.seeds && t.seeds[MODERATOR] == seed
            && MODERATOR in t.defaults && t.defaults[MODERATOR] == moderator
            && (forall p :: p in t.legacy && t.legacy[p] in CHANGES ==> !Truthy(seed, p))
            && Truthy(moderator, SETTING_VIEW) && SETTING_UPDATE !in moderator && SETTING_MANAGE !in moderator
            && SETTINGS !! seed.Keys ==>
            SeedsViewer(t)
  {
  }

  lemma PanelSeedsViewer()
    ensures SeedsViewer(TABLES)
  {
    SeedOfModerator();
    DefaultsOfModerator();
    AdminAndModeratorHaveSettings();
    ModeratorDefaultsChangeNothing();
    SeedChangesNothing(MODERATOR_SEED);
    SeedHasNoSettings();
    ViewerIs(TABLES, MODERATOR_SEED, MODERATOR_DEFAULTS);
  }

  lemma ViewerLosesAndRegains(t: Tables, s1: State, s2: State)
    ensures Sound(t) && SeedsViewer(t) && Boot(t, FRESH, s1) && Boot(t, s1, s2) ==>
            && MODERATOR in s1.roles && MODERATOR in s2.roles
            && SETTING_VIEW !in s1.roles[MODERATOR] && SETTING_VIEW in s2.roles[MODERATOR]
  {
    if Sound(t) && SeedsViewer(t) && Boot(t, FRESH, s1) && Boot(t, s1, s2) {
      OnlyViewsLosesAndRegains(t, FRESH, s1, MODERATOR, t.seeds[MODERATOR], s1.roles[MODERATOR], s2.roles[MODERATOR]);
    }
  }

  // In a fresh installation the moderator has lost `setting:view` after the first start, and has it
  // again after the second.
  lemma FreshModeratorLosesAndRegains(s1: State, s2: State)
    requires Boot(TABLES, FRESH, s1) && Boot(TABLES, s1, s2)
    ensures MODERATOR in s1.roles && MODERATOR in s2.roles
    ensures SETTING_VIEW !in s1.roles[MODERATOR] && SETTING_VIEW in s2.roles[MODERATOR]
  {
    PanelTablesAreSound();
    PanelSeedsViewer();
    ViewerLosesAndRegains(TABLES, s1, s2);
  }

  // ---------- a role of one's own ----------

  const SERVER_VIEW := "server:view"

  lemma FirstOfFour(granular: map<string, set<string>>, a: set<string>, b: set<string>, c: set<string>, d: set<string>)
    requires granular == map["server:view" := a, "vm:view" := b, "server:manage" := c, "user:manage" := d]
    ensures SERVER_VIEW in granular && granular[SERVER_VIEW] == a
  {
  }

  predicate SplitOffServerView(t: Tables, part: string) {
    SERVER_VIEW in t.granular && part in t.granular[SERVER_VIEW]
  }

  lemma PartsAreSplitOff(part: string)
    requires part in SERVER_VIEW_PARTS
    ensures SplitOffServerView(TABLES, part)
  {
    FirstOfFour(GRANULAR, SERVER_VIEW_PARTS, VM_VIEW_PARTS, SERVER_MANAGE_PARTS, USER_MANAGE_PARTS);
  }

  predicate IsOwnRole(t: Tables, role: string) {
    role !in t.defaults && role != ADMIN && role != USER
  }

  lemma ViewsServers(t: Tables, s: State, role: string, after: Perms, part: string)
    ensures Sound(t) && RoleBoot(t, s, role, map[SERVER_VIEW := true], after)
            && IsOwnRole(t, role) && SplitOffServerView(t, part) ==>
            HasPermission(User(false, Some(after)), {}, part)
  {
    if Sound(t) && RoleBoot(t, s, role, map[SERVER_VIEW := true], after) && IsOwnRole(t, role) && SplitOffServerView(t, part) {
      var p: Perms := map[SERVER_VIEW := true];
      assert Colon(SERVER_VIEW) && !HasDotted(p);
      var a := EveryValueIsExplained(t, s, role, p, after);
      assert Explained(t, s, role, a, after, SERVER_VIEW);
      assert Part(t.granular.Keys, part);
      var _ := PartsAreThere(t, s, role, p, after, SERVER_VIEW, part);
      assert part in Granted(after);
    }
  }

  lemma OwnAmongFour(t: Tables, roles: map<string, Perms>, role: string, admin: Perms, moderator: Perms, user: Perms, demo: Perms)
    requires t.defaults == roles && roles == map["admin" := admin, "moderator" := moderator, "user" := user, "demo" := demo]
    ensures role !in roles ==> IsOwnRole(t, role)
  {
  }

  lemma OwnRole(role: string)
    ensures role !in DEFAULT_ROLES ==> IsOwnRole(TABLES, role)
  {
    OwnAmongFour(TABLES, DEFAULT_ROLES, role, ADMIN_DEFAULTS, MODERATOR_DEFAULTS, USER_DEFAULTS, DEMO_DEFAULTS);
  }

  // With the panel's tables a role of one's own that may see servers may, after any start, also see
  // storages, nodes and firewalls.
  lemma ServerViewersSeeStorages(s: State, role: string, after: Perms, part: string)
    requires role !in DEFAULT_ROLES && RoleBoot(TABLES, s, role, map[SERVER_VIEW := true], after)
    requires part in SERVER_VIEW_PARTS
    ensures HasPermission(User(false, Some(after)), {}, part)
  {
    PanelTablesAreSound();
    OwnRole(role);
    PartsAreSplitOff(part);
    ViewsServers(TABLES, s, role, after, part);
  }

  lemma StorageViewIsPart()
    ensures "storage:view" in SERVER_VIEW_PARTS && "node:view" in SERVER_VIEW_PARTS && "firewall:view" in SERVER_VIEW_PARTS
  {
  }

  // Storages, nodes and firewalls, by name.
  lemma ServerViewersSeeThree(s: State, role: string, after: Perms)
    requires role !in DEFAULT_ROLES && RoleBoot(TABLES, s, role, map[SERVER_VIEW := true], after)
    ensures HasPermission(User(false, Some(after)), {}, "storage:view")
    ensures HasPermission(User(false, Some(after)), {}, "node:view")
    ensures HasPermission(User(false, Some(after)), {}, "firewall:view")
  {
    StorageViewIsPart();
    ServerViewersSeeStorages(s, role, after, "storage:view");
    ServerViewersSeeStorages(s, role, after, "node:view");
    ServerViewersSeeStorages(s, role, after, "firewall:view");
  }

  // Where only one umbrella is held, only its parts follow.
  lemma OnlyItsParts(t: Tables, s: State, role: string, after: Perms, k: string)
    ensures Sound(t) && RoleBoot(t, s, role, map[SERVER_VIEW := true], after)
            && IsOwnRole(t, role) ==>
            (k in after <==> k == SERVER_VIEW || SplitOffServerView(t, k))
  {
    if Sound(t) && RoleBoot(t, s, role, map[SERVER_VIEW := true], after) && IsOwnRole(t, role) {
      var p: Perms := map[SERVER_VIEW := true];
      assert Colon(SERVER_VIEW) && !HasDotted(p);
      var a := EveryValueIsExplained(t, s, role, p, after);
      assert Explained(t, s, role, a, after, SERVER_VIEW) && Explained(t, s, role, a, after, k);
      forall u | u in t.granular && Truthy(after, u) ensures u == SERVER_VIEW {
        assert Explained(t, s, role, a, after, u);
        WhatFollowsIsPart(t, after, u);
      }
    }
  }

  lemma SplitOffAre(k: string)
    ensures SplitOffServerView(TABLES, k) <==> k in SERVER_VIEW_PARTS
  {
    FirstOfFour(GRANULAR, SERVER_VIEW_PARTS, VM_VIEW_PARTS, SERVER_MANAGE_PARTS, USER_MANAGE_PARTS);
  }

  lemma KeyOfServerViewer(s: State, role: string, after: Perms, k: string)
    ensures role !in DEFAULT_ROLES && RoleBoot(TABLES, s, role, map[SERVER_VIEW := true], after) ==>
            (k in after <==> k == SERVER_VIEW || SplitOffServerView(TABLES, k))
  {
    PanelTablesAreSound();
    OwnRole(role);
    OnlyItsParts(TABLES, s, role, after, k);
  }

  // It sees nothing else: in particular not the network configuration.
  lemma ServerViewersSeeNoMore(s: State, role: string, after: Perms)
    requires role !in DEFAULT_ROLES && RoleBoot(TABLES, s, role, map[SERVER_VIEW := true], after)
    ensures forall k :: k in after <==> k == SERVER_VIEW || k in SERVER_VIEW_PARTS
    ensures "network:view" !in after && "network:manage" !in after
  {
    forall k ensures k in after <==> k == SERVER_VIEW || k in SERVER_VIEW_PARTS {
      KeyOfServerViewer(s, role, after, k);
      SplitOffAre(k);
    }
    NetworksAreNoParts();
  }

  lemma NetworksAreNoParts()
    ensures "network:view" !in SERVER_VIEW_PARTS && "network:manage" !in SERVER_VIEW_PARTS
    ensures "network:view" != SERVER_VIEW && "network:manage" != SERVER_VIEW
  {
  }
}
