/** The permission tables of the start-up migrations. */
module RbacTables {
  type Perms = map<string, bool>

  // Old permission names and what they are called now; two of them share `setting:manage`.
  const LEGACY_SERVERS: map<string, string> := map[
    "dashboard.view" := "dashboard:view", "proxmox.view" := "server:view", "proxmox.manage" := "server:manage",
    "proxmox.servers.add" := "server:create", "proxmox.servers.edit" := "server:update",
    "proxmox.servers.delete" := "server:delete", "proxmox.cluster.manage" := "cluster:manage",
    "proxmox.vm.manage" := "vm:manage"
  ]

  const LEGACY_GUESTS: map<string, string> := map[
    "vms.view" := "vm:view", "vms.create" := "vm:create", "vms.start" := "vm:start", "vms.stop" := "vm:stop",
    "vms.restart" := "vm:restart", "vms.delete" := "vm:delete", "vms.console" := "vm:console",
    "vms.migrate" := "vm:migrate", "templates.view" := "template:view", "templates.manage" := "template:manage",
    "ipam.view" := "ipam:view", "ipam.manage" := "ipam:manage"
  ]

  const LEGACY_PANEL: map<string, string> := map[
    "logs.view" := "log:view", "logs.export" := "log:export", "logs.delete" := "log:delete",
    "settings.view" := "setting:view", "settings.panel" := "setting:update",
    "settings.security" := "setting:manage", "settings.manage" := "setting:manage",
    "notifications.manage" := "notification:manage"
  ]

  const LEGACY_ACCOUNTS: map<string, string> := map[
    "users.view" := "user:view", "users.create" := "user:create", "users.edit" := "user:update",
    "users.delete" := "user:delete", "users.manage" := "user:manage", "roles.view" := "role:view",
    "roles.manage" := "role:manage"
  ]

  const LEGACY: map<string, string> := LEGACY_SERVERS + LEGACY_GUESTS + LEGACY_PANEL + LEGACY_ACCOUNTS

  const ADMIN_VMS: Perms := map[
    "vm:view" := true, "vm:create" := true, "vm:update" := true, "vm:delete" := true, "vm:start" := true,
    "vm:stop" := true, "vm:restart" := true, "vm:console" := true, "vm:migrate" := true,
    "vm:remote_migrate" := true, "vm:execute" := true, "vm:manage" := true
  ]

  const ADMIN_CONTAINERS: Perms := map[
    "lxc:view" := true, "lxc:create" := true, "lxc:update" := true, "lxc:delete" := true, "lxc:start" := true,
    "lxc:stop" := true, "lxc:restart" := true, "lxc:console" := true, "lxc:migrate" := true,
    "lxc:remote_migrate" := true, "template:view" := true, "template:create" := true, "template:update" := true,
    "template:delete" := true, "template:manage" := true
  ]

  const ADMIN_NODES: Perms := map[
    "dashboard:view" := true, "server:view" := true, "server:create" := true, "server:update" := true,
    "server:delete" := true, "server:manage" := true, "cluster:manage" := true, "node:view" := true,
    "node:manage" := true, "node:upgrade" := true, "node:power" := true, "pool:view" := true, "pool:manage" := true
  ]

  const ADMIN_RESOURCES: Perms := map[
    "storage:view" := true, "storage:manage" := true, "firewall:view" := true, "firewall:manage" := true,
    "network:view" := true, "network:manage" := true, "backup:view" := true, "backup:create" := true,
    "backup:restore" := true, "backup:delete" := true, "backup:manage" := true, "ipam:view" := true,
    "ipam:manage" := true
  ]

  const ADMIN_ACCOUNTS: Perms := map[
    "access:view" := true, "access:manage" := true, "user:view" := true, "user:create" := true,
    "user:update" := true, "user:delete" := true, "user:manage" := true, "quota:view" := true,
    "quota:manage" := true, "role:view" := true, "role:create" := true, "role:update" := true,
    "role:delete" := true, "role:manage" := true
  ]

  const ADMIN_PANEL: Perms := map[
    "log:view" := true, "log:export" := true, "log:delete" := true, "setting:view" := true,
    "setting:update" := true, "setting:manage" := true, "notification:view" := true, "notification:manage" := true,
    "coolify:view" := true, "coolify:control" := true, "coolify:deploy" := true, "coolify:manage" := true
  ]

  const ADMIN_DEFAULTS: Perms := ADMIN_VMS + ADMIN_CONTAINERS + ADMIN_NODES + ADMIN_RESOURCES +
    ADMIN_ACCOUNTS + ADMIN_PANEL

  const MODERATOR_GUESTS: Perms := map[
    "vm:view" := true, "vm:create" := true, "vm:start" := true, "vm:stop" := true, "vm:restart" := true,
    "vm:console" := true, "lxc:view" := true, "lxc:create" := true, "lxc:start" := true, "lxc:stop" := true,
    "lxc:restart" := true, "lxc:console" := true, "template:view" := true
  ]

  const MODERATOR_PANEL: Perms := map[
    "dashboard:view" := true, "server:view" := true, "storage:view" := true, "firewall:view" := true,
    "node:view" := true, "pool:view" := true, "backup:view" := true, "backup:create" := true, "user:view" := true,
    "log:view" := true, "log:export" := true, "setting:view" := true, "notification:view" := true,
    "notification:manage" := true, "coolify:view" := true, "coolify:control" := true, "coolify:deploy" := true
  ]

  const MODERATOR_DEFAULTS: Perms := MODERATOR_GUESTS + MODERATOR_PANEL

  const USER_GUESTS: Perms := map[
    "vm:view" := true, "vm:start" := true, "vm:stop" := true, "vm:restart" := true, "vm:console" := true,
    "lxc:view" := true, "lxc:start" := true, "lxc:stop" := true, "lxc:restart" := true, "lxc:console" := true,
    "template:view" := true
  ]

  const USER_PANEL: Perms := map[
    "dashboard:view" := false, "server:view" := true, "coolify:view" := true, "coolify:control" := true,
    "coolify:deploy" := true, "storage:view" := true, "firewall:view" := true, "node:view" := true,
    "pool:view" := true, "notification:view" := true, "notification:manage" := true
  ]

  const USER_DEFAULTS: Perms := USER_GUESTS + USER_PANEL

  const DEMO_DEFAULTS: Perms := map[
    "dashboard:view" := true, "server:view" := true, "vm:view" := true, "lxc:view" := true,
    "template:view" := true, "storage:view" := true, "firewall:view" := true, "node:view" := true,
    "pool:view" := true
  ]

  const DEFAULT_ROLES: map<string, Perms> := map[
    "admin" := ADMIN_DEFAULTS, "moderator" := MODERATOR_DEFAULTS, "user" := USER_DEFAULTS, "demo" := DEMO_DEFAULTS
  ]

  // The roles of a new installation, still under the old names.
  const ADMIN_SEED: Perms := map[
    "dashboard.view" := true, "proxmox.view" := true, "proxmox.manage" := true, "proxmox.servers.add" := true,
    "proxmox.servers.edit" := true, "proxmox.servers.delete" := true, "vms.view" := true, "vms.create" := true,
    "vms.start" := true, "vms.stop" := true, "vms.restart" := true, "vms.delete" := true, "vms.console" := true,
    "vms.migrate" := true, "templates.view" := true, "templates.manage" := true, "ipam.view" := true,
    "ipam.manage" := true, "logs.view" := true, "logs.export" := true, "logs.delete" := true,
    "settings.view" := true, "settings.panel" := true, "settings.security" := true, "users.view" := true,
    "users.create" := true, "users.edit" := true, "users.delete" := true, "quota:view" := true,
    "quota:manage" := true, "roles.view" := true, "roles.manage" := true, "notifications.manage" := true,
    "backup:view" := true, "backup:create" := true, "backup:restore" := true, "backup:delete" := true,
    "backup:manage" := true
  ]

  const MODERATOR_SEED: Perms := map[
    "dashboard.view" := true, "proxmox.view" := true, "proxmox.manage" := false, "proxmox.servers.add" := false,
    "proxmox.servers.edit" := false, "proxmox.servers.delete" := false, "vms.view" := true, "vms.create" := true,
    "vms.start" := true, "vms.stop" := true, "vms.restart" := true, "vms.delete" := false, "vms.console" := true,
    "vms.migrate" := false, "templates.view" := true, "templates.manage" := false, "ipam.view" := true,
    "ipam.manage" := false, "logs.view" := true, "logs.export" := true, "logs.delete" := false,
    "settings.view" := true, "settings.panel" := false, "settings.security" := false, "users.view" := true,
    "users.create" := false, "users.edit" := false, "users.delete" := false, "roles.view" := false,
    "roles.manage" := false, "notifications.manage" := true, "backup:view" := true, "backup:create" := true,
    "backup:restore" := true, "backup:delete" := false, "backup:manage" := false
  ]

  const USER_SEED: Perms := map[
    "dashboard.view" := false, "proxmox.view" := true, "proxmox.manage" := false, "proxmox.servers.add" := false,
    "proxmox.servers.edit" := false, "proxmox.servers.delete" := false, "vms.view" := false,
    "vms:view:own" := true, "vms.create" := false, "vms.start" := true, "vms:start:own" := true,
    "vms.stop" := true, "vms:stop:own" := true, "vms.restart" := true, "vms:restart:own" := true,
    "vms.delete" := false, "vms.console" := true, "vms:console:own" := true, "vms:snapshots:own" := true,
    "vms.migrate" := false, "templates.view" := true, "templates.manage" := false, "ipam.view" := false,
    "ipam.manage" := false, "logs.view" := false, "logs.export" := false, "logs.delete" := false,
    "settings.view" := true, "settings.panel" := false, "settings.security" := false, "users.view" := false,
    "users.create" := false, "users.edit" := false, "users.delete" := false, "roles.view" := false,
    "roles.manage" := false, "notifications.manage" := true
  ]

  const DEMO_SEED: Perms := map[
    "dashboard.view" := true, "proxmox.view" := true, "proxmox.manage" := false, "proxmox.servers.add" := false,
    "proxmox.servers.edit" := false, "proxmox.servers.delete" := false, "vms.view" := true, "vms.create" := false,
    "vms.start" := false, "vms.stop" := false, "vms.restart" := false, "vms.delete" := false,
    "vms.console" := false, "vms.migrate" := false, "templates.view" := true, "templates.manage" := false,
    "ipam.view" := true, "ipam.manage" := false, "logs.view" := false, "logs.export" := false,
    "logs.delete" := false, "settings.view" := false, "settings.panel" := false, "settings.security" := false,
    "users.view" := false, "users.create" := false, "users.edit" := false, "users.delete" := false,
    "roles.view" := false, "roles.manage" := false, "notifications.manage" := false
  ]

  const SEED_ROLES: map<string, Perms> := map[
    "admin" := ADMIN_SEED, "moderator" := MODERATOR_SEED, "user" := USER_SEED, "demo" := DEMO_SEED
  ]

  // What a plain user may do with guests of their own.
  const OWN_GUESTS: Perms := map[
    "vms:view:own" := true, "vms:start:own" := true, "vms:stop:own" := true, "vms:restart:own" := true,
    "vms:console:own" := true, "vms:snapshots:own" := true
  ]

  // Permissions that were split off from a broader one, by that broader one.
  const SERVER_VIEW_PARTS := {"firewall:view", "node:view", "storage:view"}
  const VM_VIEW_PARTS := {"pool:view", "firewall:view"}
  const SERVER_MANAGE_PARTS := {
    "firewall:view", "firewall:manage", "network:view", "network:manage", "node:view", "node:manage",
    "node:upgrade", "node:power", "storage:view", "storage:manage", "pool:view", "pool:manage"
  }
  const USER_MANAGE_PARTS := {"access:view", "access:manage"}

  const GRANULAR: map<string, set<string>> := map[
    "server:view" := SERVER_VIEW_PARTS, "vm:view" := VM_VIEW_PARTS,
    "server:manage" := SERVER_MANAGE_PARTS, "user:manage" := USER_MANAGE_PARTS
  ]

  const COOLIFY_ADMIN := {"coolify:view", "coolify:control", "coolify:deploy", "coolify:manage"}
  const COOLIFY_OTHERS := {"coolify:view", "coolify:control", "coolify:deploy"}

  const COOLIFY: map<string, set<string>> := map[
    "admin" := COOLIFY_ADMIN, "moderator" := COOLIFY_OTHERS, "user" := COOLIFY_OTHERS
  ]
}
