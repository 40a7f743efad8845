/** The permission tables against the registry of permissions: which names the panel knows. */
module RbacRegistry {
  import opened RbacTables

  const VM_CODES := {
    "vm:view", "vm:create", "vm:update", "vm:delete", "vm:start", "vm:stop", "vm:restart", "vm:console", "vm:migrate",
    "vm:remote_migrate", "vm:execute", "vm:manage"
  }

  const CONTAINER_CODES := {
    "lxc:view", "lxc:create", "lxc:update", "lxc:delete", "lxc:start", "lxc:stop", "lxc:restart", "lxc:console",
    "lxc:migrate", "lxc:remote_migrate", "template:view", "template:create", "template:update", "template:delete",
    "template:manage"
  }

  const NODE_CODES := {
    "dashboard:view", "server:view", "server:create", "server:update", "server:delete", "server:manage",
    "cluster:manage", "node:view", "node:manage", "node:upgrade", "node:power", "pool:view", "pool:manage"
  }

  const RESOURCE_CODES := {
    "storage:view", "storage:manage", "backup:view", "backup:create", "backup:restore", "backup:delete",
    "backup:manage", "ipam:view", "ipam:manage", "firewall:view", "firewall:manage", "network:view", "network:manage"
  }

  const ACCOUNT_CODES := {
    "user:view", "user:create", "user:update", "user:delete", "user:manage", "quota:view", "quota:manage",
    "role:view", "role:create", "role:update", "role:delete", "role:manage", "access:view", "access:manage"
  }

  const PANEL_CODES := {
    "log:view", "log:export", "log:delete", "setting:view", "setting:update", "setting:manage",
    "notification:view", "notification:manage", "coolify:view", "coolify:control", "coolify:deploy", "coolify:manage"
  }

  // Registered and in no table.
  const OTHER_CODES := {"app:view", "app:install", "app:manage", "script:view", "script:execute", "script:manage"}

  const REGISTERED := VM_CODES + CONTAINER_CODES + NODE_CODES + RESOURCE_CODES + ACCOUNT_CODES + PANEL_CODES + OTHER_CODES

  // ---------- old names ----------

  lemma ServerTargets()
    ensures forall p :: p in LEGACY_SERVERS ==> LEGACY_SERVERS[p] in NODE_CODES + VM_CODES
  {
  }

  lemma GuestTargets()
    ensures forall p :: p in LEGACY_GUESTS ==> LEGACY_GUESTS[p] in VM_CODES + CONTAINER_CODES + RESOURCE_CODES
  {
  }

  lemma PanelTargets()
    ensures forall p :: p in LEGACY_PANEL ==> LEGACY_PANEL[p] in PANEL_CODES
  {
  }

  lemma AccountTargets()
    ensures forall p :: p in LEGACY_ACCOUNTS ==> LEGACY_ACCOUNTS[p] in ACCOUNT_CODES
  {
  }

  lemma TargetsOfUnion(a: map<string, string>, b: map<string, string>, codes: set<string>)
    requires (forall p :: p in a ==> a[p] in codes) && (forall p :: p in b ==> b[p] in codes)
    ensures forall p :: p in a + b ==> (a + b)[p] in codes
  {
  }

  // Whatever an old name is turned into is registered, so no conversion makes a permission nobody checks.
  lemma OldNamesLeadToRegistered()
    ensures forall p :: p in LEGACY ==> LEGACY[p] in REGISTERED
  {
    ServerTargets();
    GuestTargets();
    PanelTargets();
    AccountTargets();
    TargetsOfUnion(LEGACY_SERVERS, LEGACY_GUESTS, REGISTERED);
    TargetsOfUnion(LEGACY_SERVERS + LEGACY_GUESTS, LEGACY_PANEL, REGISTERED);
    TargetsOfUnion(LEGACY_SERVERS + LEGACY_GUESTS + LEGACY_PANEL, LEGACY_ACCOUNTS, REGISTERED);
  }

  // ---------- the administrator ----------

  lemma AdminVms()
    ensures ADMIN_VMS.Keys == VM_CODES
  {
  }

  lemma AdminContainers()
    ensures ADMIN_CONTAINERS.Keys == CONTAINER_CODES
  {
  }

  lemma AdminNodes()
    ensures ADMIN_NODES.Keys == NODE_CODES
  {
  }

  lemma AdminResources()
    ensures ADMIN_RESOURCES.Keys == RESOURCE_CODES
  {
  }

  lemma AdminAccounts()
    ensures ADMIN_ACCOUNTS.Keys == ACCOUNT_CODES
  {
  }

  lemma AdminPanel()
    ensures ADMIN_PANEL.Keys == PANEL_CODES
  {
  }

  lemma KeysOfUnion(a: Perms, b: Perms)
    ensures (a + b).Keys == a.Keys + b.Keys
  {
  }

  // The administrator has every registered permission by default, but for those on apps and scripts.
  lemma AdministratorHasAll()
    ensures ADMIN_DEFAULTS.Keys + OTHER_CODES == REGISTERED
  {
    AdminVms();
    AdminContainers();
    AdminNodes();
    AdminResources();
    AdminAccounts();
    AdminPanel();
    KeysOfUnion(ADMIN_VMS, ADMIN_CONTAINERS);
    KeysOfUnion(ADMIN_VMS + ADMIN_CONTAINERS, ADMIN_NODES);
    KeysOfUnion(ADMIN_VMS + ADMIN_CONTAINERS + ADMIN_NODES, ADMIN_RESOURCES);
    KeysOfUnion(ADMIN_VMS + ADMIN_CONTAINERS + ADMIN_NODES + ADMIN_RESOURCES, ADMIN_ACCOUNTS);
    KeysOfUnion(ADMIN_VMS + ADMIN_CONTAINERS + ADMIN_NODES + ADMIN_RESOURCES + ADMIN_ACCOUNTS, ADMIN_PANEL);
  }

  // ---------- the other roles ----------

  lemma ModeratorGuests()
    ensures MODERATOR_GUESTS.Keys <= VM_CODES + CONTAINER_CODES
  {
  }

  lemma ModeratorPanel()
    ensures MODERATOR_PANEL.Keys <= NODE_CODES + RESOURCE_CODES + ACCOUNT_CODES + PANEL_CODES
  {
  }

  lemma UserGuests()
    ensures USER_GUESTS.Keys <= VM_CODES + CONTAINER_CODES
  {
  }

  lemma UserPanel()
    ensures USER_PANEL.Keys <= NODE_CODES + RESOURCE_CODES + PANEL_CODES
  {
  }

  lemma Demo()
    ensures DEMO_DEFAULTS.Keys <= VM_CODES + CONTAINER_CODES + NODE_CODES + RESOURCE_CODES
  {
  }

  lemma PartsAreRegistered()
    ensures SERVER_VIEW_PARTS + VM_VIEW_PARTS + SERVER_MANAGE_PARTS <= NODE_CODES + RESOURCE_CODES
    ensures USER_MANAGE_PARTS <= ACCOUNT_CODES
  {
  }

  // So are the defaults of the other roles.
  lemma DefaultsAreRegistered()
    ensures MODERATOR_DEFAULTS.Keys <= REGISTERED && USER_DEFAULTS.Keys <= REGISTERED && DEMO_DEFAULTS.Keys <= REGISTERED
  {
    ModeratorGuests();
    ModeratorPanel();
    UserGuests();
    UserPanel();
    Demo();
    KeysOfUnion(MODERATOR_GUESTS, MODERATOR_PANEL);
    KeysOfUnion(USER_GUESTS, USER_PANEL);
  }

  // ---------- values ----------

  predicate Grants(perms: Perms) {
    forall k :: k in perms ==> perms[k]
  }

  lemma GuestGrants()
    ensures Grants(ADMIN_VMS) && Grants(ADMIN_CONTAINERS) && Grants(MODERATOR_GUESTS) && Grants(USER_GUESTS)
  {
  }

  lemma NodeGrants()
    ensures Grants(ADMIN_NODES) && Grants(ADMIN_RESOURCES)
  {
  }

  lemma PanelGrants()
    ensures Grants(ADMIN_ACCOUNTS) && Grants(ADMIN_PANEL) && Grants(MODERATOR_PANEL)
  {
  }

  lemma LesserGrants()
    ensures Grants(DEMO_DEFAULTS) && Grants(OWN_GUESTS) && Grants(USER_PANEL - {DASHBOARD}) && DASHBOARD in USER_PANEL && !USER_PANEL[DASHBOARD]
  {
  }

  const DASHBOARD := "dashboard:view"

  lemma UnionGrants(a: Perms, b: Perms)
    requires Grants(a) && Grants(b)
    ensures Grants(a + b)
  {
  }

  lemma AdministratorGrants()
    ensures Grants(ADMIN_DEFAULTS)
  {
    GuestGrants();
    NodeGrants();
    PanelGrants();
    UnionGrants(ADMIN_VMS, ADMIN_CONTAINERS);
    UnionGrants(ADMIN_VMS + ADMIN_CONTAINERS, ADMIN_NODES);
    UnionGrants(ADMIN_VMS + ADMIN_CONTAINERS + ADMIN_NODES, ADMIN_RESOURCES);
    UnionGrants(ADMIN_VMS + ADMIN_CONTAINERS + ADMIN_NODES + ADMIN_RESOURCES, ADMIN_ACCOUNTS);
    UnionGrants(ADMIN_VMS + ADMIN_CONTAINERS + ADMIN_NODES + ADMIN_RESOURCES + ADMIN_ACCOUNTS, ADMIN_PANEL);
  }

  // Whatever a default names it grants, but for the dashboard, which plain users do not see.
  lemma DefaultsGrant()
    ensures Grants(ADMIN_DEFAULTS) && Grants(MODERATOR_DEFAULTS) && Grants(DEMO_DEFAULTS) && Grants(OWN_GUESTS)
    ensures forall k :: k in USER_DEFAULTS ==> (USER_DEFAULTS[k] <==> k != DASHBOARD)
  {
    AdministratorGrants();
    GuestGrants();
    PanelGrants();
    LesserGrants();
    UnionGrants(MODERATOR_GUESTS, MODERATOR_PANEL);
    DashboardIsOfThePanel();
    UserGrants(USER_GUESTS, USER_PANEL);
  }

  lemma DashboardIsOfThePanel()
    ensures DASHBOARD !in USER_GUESTS
  {
  }

  lemma UserGrants(guests: Perms, panel: Perms)
    requires Grants(guests) && Grants(panel - {DASHBOARD}) && DASHBOARD in panel && !panel[DASHBOARD] && DASHBOARD !in guests
    ensures forall k :: k in guests + panel ==> ((guests + panel)[k] <==> k != DASHBOARD)
  {
    forall k | k in guests + panel ensures (guests + panel)[k] <==> k != DASHBOARD {
      assert k in panel && k != DASHBOARD ==> k in panel - {DASHBOARD};
    }
  }

  // ---------- names that are not registered ----------

  // What plain users get for their own guests is under names that are not registered.
  lemma OwnGuestsAreNotRegistered(code: string)
    requires code in OWN_GUESTS
    ensures code !in REGISTERED
  {
    OwnEndInN();
    GuestsDoNotEndInN();
    NodesDoNotEndInN();
    AccountsDoNotEndInN();
    PanelDoesNotEndInN();
  }

  predicate EndsInN(code: string) {
    code != "" && code[|code| - 1] == 'n'
  }

  lemma OwnEndInN()
    ensures forall k :: k in OWN_GUESTS ==> EndsInN(k)
  {
  }

  lemma GuestsDoNotEndInN()
    ensures forall k :: k in VM_CODES + CONTAINER_CODES ==> !EndsInN(k)
  {
  }

  lemma NodesDoNotEndInN()
    ensures forall k :: k in NODE_CODES + RESOURCE_CODES ==> !EndsInN(k)
  {
  }

  lemma AccountsDoNotEndInN()
    ensures forall k :: k in ACCOUNT_CODES ==> !EndsInN(k)
  {
  }

  lemma PanelDoesNotEndInN()
    ensures forall k :: k in PANEL_CODES + OTHER_CODES ==> !EndsInN(k)
  {
  }
}
