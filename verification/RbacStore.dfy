/** The role table as the start-up migrations update it, row by row. */
module RbacStore {
  import opened RbacTables
  import opened RbacConversion
  import opened RbacBoot

  // The entries of `wanted` that a role lacks.
  function Missing(wanted: Perms, perms: Perms): (missing: Perms)
    ensures perms + missing == wanted + perms
    ensures missing == map[] ==> wanted + perms == perms
  {
    var missing := map k | k in wanted && k !in perms :: wanted[k];
    assert missing == map[] ==> forall k :: k in wanted && k !in perms ==> k in missing;
    missing
  }

  // What each step makes of the role that another step left.
  lemma MiddleOfAll(t: Tables, b: map<string, Perms>, own: map<string, Perms>, cluster: map<string, Perms>,
                    dashboard: map<string, Perms>, m: map<string, Perms>)
    requires own == map r | r in b :: WithOwn(t, r, b[r])
    requires cluster == map r | r in own :: WithCluster(r, own[r])
    requires dashboard == map r | r in cluster :: WithoutDashboard(r, cluster[r])
    requires m == map r | r in dashboard :: Backfilled(t, dashboard[r])
    ensures m == map r | r in b :: Middle(t, r, b[r])
  {
  }

  function At(roles: map<string, Perms>, role: string): Perms {
    if role in roles then roles[role] else map[]
  }

  lemma MergedOfAll(t: Tables, s: State, a: map<string, Perms>, b: map<string, Perms>)
    requires a.Keys == t.seeds.Keys + s.roles.Keys
    requires forall r :: r in a ==> Migrated(t, Start(t, s, r), a[r])
    requires forall r :: r in b ==> Ensured(t, r, At(a, r), b[r])
    ensures forall r :: r in b ==> RoleMerged(t, r, Start(t, s, r), b[r])
  {
  }

  lemma BootOfAll(t: Tables, s: State, c: map<string, Perms>, after: State)
    requires c.Keys == s.roles.Keys + t.seeds.Keys + t.defaults.Keys
    requires forall r :: r in c ==> RolePrepared(t, r, Start(t, s, r), c[r])
    requires after == State(map r | r in c :: Late(t, s.viewSplit, s.coolifyGranted, r, c[r]), true, true)
    ensures Boot(t, s, after)
  {
    assert after.roles.Keys == c.Keys;
    forall r | r in after.roles ensures RoleBoot(t, s, r, Start(t, s, r), after.roles[r]) {
      assert RolePrepared(t, r, Start(t, s, r), c[r]);
    }
  }

  class RoleStore {
    var roles: map<string, Perms>
    var viewSplit: bool
    var coolifyGranted: bool

    constructor (roles: map<string, Perms>, viewSplit: bool, coolifyGranted: bool)
      ensures Contents() == State(roles, viewSplit, coolifyGranted)
    {
      this.roles, this.viewSplit, this.coolifyGranted := roles, viewSplit, coolifyGranted;
    }

    ghost function Contents(): State
      reads this
    {
      State(roles, viewSplit, coolifyGranted)
    }

    method InsertMissingRoles(t: Tables)
      modifies this`roles
      ensures roles == t.seeds + old(roles)
    {
      var todo := t.seeds.Keys;
      while todo != {}
        invariant todo <= t.seeds.Keys
        invariant roles == (t.seeds - todo) + old(roles)
        decreases todo
      {
        var role :| role in todo;
        if role !in roles {
          roles := roles[role := t.seeds[role]];
        }
        todo := todo - {role};
      }
      assert t.seeds - todo == t.seeds;
    }

    // The entries of a role, in the order in which the database keeps them, whatever that is.
    method ReadRole(perms: Perms) returns (items: seq<Entry>)
      ensures Distinct(items) && AsMap(items) == perms
    {
      items := [];
      var todo := perms.Keys;
      while todo != {}
        invariant todo <= perms.Keys
        invariant Distinct(items) && AsMap(items) == perms - todo
        decreases todo
      {
        var key :| key in todo;
        WithLast(items, Entry(key, perms[key]));
        assert perms - (todo - {key}) == (perms - todo)[key := perms[key]];
        items := items + [Entry(key, perms[key])];
        todo := todo - {key};
      }
      assert perms - todo == perms;
    }

    // One role under the new names, when it has any old one.
    method MigrateRole(t: Tables, perms: Perms) returns (after: Perms, migrated: bool)
      requires IsLegacyTable(t.legacy)
      ensures Migrated(t, perms, after)
      ensures migrated <==> HasDotted(perms)
    {
      migrated := HasDotted(perms);
      after := perms;
      if migrated {
        var items := ReadRole(perms);
        after := ConvertPermissionsToNewFormat(t.legacy, items);
      }
    }

    method MigrateAllRoles(t: Tables) returns (migrated: nat)
      requires IsLegacyTable(t.legacy)
      modifies this`roles
      ensures roles.Keys == old(roles.Keys)
      ensures forall r :: r in roles ==> Migrated(t, old(roles)[r], roles[r])
      ensures migrated == |set r | r in old(roles) && HasDotted(old(roles)[r])|
    {
      migrated := 0;
      var todo := roles.Keys;
      ghost var done: set<string> := {};
      while todo != {}
        invariant roles.Keys == old(roles.Keys) && todo <= roles.Keys
        invariant forall r :: r in todo ==> roles[r] == old(roles)[r]
        invariant forall r :: r in roles && r !in todo ==> Migrated(t, old(roles)[r], roles[r])
        invariant done == set r | r in old(roles) && r !in todo && HasDotted(old(roles)[r])
        invariant migrated == |done|
        decreases todo
      {
        var role :| role in todo;
        var after, changed := MigrateRole(t, roles[role]);
        if changed {
          roles := roles[role := after];
          migrated := migrated + 1;
          done := done + {role};
        }
        todo := todo - {role};
      }
      assert done == set r | r in old(roles) && HasDotted(old(roles)[r]);
    }

    // Default roles get what they miss; nothing they have is overwritten.
    method EnsureDefaultRoles(t: Tables)
      requires IsLegacyTable(t.legacy)
      modifies this`roles
      ensures roles.Keys == old(roles.Keys) + t.defaults.Keys
      ensures forall r :: r in roles ==> Ensured(t, r, At(old(roles), r), roles[r])
    {
      var todo := t.defaults.Keys;
      while todo != {}
        invariant todo <= t.defaults.Keys
        invariant roles.Keys == old(roles.Keys) + (t.defaults.Keys - todo)
        invariant forall r :: r in old(roles) && (r in todo || r !in t.defaults) ==> roles[r] == old(roles)[r]
        invariant forall r :: r in t.defaults && r !in todo ==>
                    Ensured(t, r, At(old(roles), r), roles[r])
        decreases todo
      {
        var role :| role in todo;
        var after := EnsureRole(t, role, role in roles, At(roles, role));
        roles := roles[role := after];
        todo := todo - {role};
      }
    }

    method EnsureRole(t: Tables, role: string, exists_: bool, perms: Perms) returns (after: Perms)
      requires IsLegacyTable(t.legacy) && role in t.defaults
      requires !exists_ ==> perms == map[]
      ensures Ensured(t, role, perms, after)
    {
      var defaults := t.defaults[role];
      if !exists_ {
        assert Migrated(t, map[], map[]);
        return defaults;
      }
      var current, converted := MigrateRole(t, perms);
      if current == map[] {
        return defaults;
      }
      var missing := Missing(defaults, current);
      after := if missing != map[] || converted then current + missing else perms;
    }

    method GrantOwnGuests(t: Tables)
      modifies this`roles
      ensures roles == map r | r in old(roles) :: WithOwn(t, r, old(roles)[r])
    {
      if USER in roles {
        var perms := roles[USER];
        var missing := Missing(t.own, perms);
        if missing != map[] {
          roles := roles[USER := perms + missing];
        }
      }
    }

    method AdoptClusterManage()
      modifies this`roles
      ensures roles == map r | r in old(roles) :: WithCluster(r, old(roles)[r])
    {
      if ADMIN in roles {
        var perms := roles[ADMIN];
        if OLD_CLUSTER_MANAGE in perms {
          perms := perms - {OLD_CLUSTER_MANAGE};
        }
        if !Truthy(perms, CLUSTER_MANAGE) {
          perms := perms[CLUSTER_MANAGE := true];
        }
        roles := roles[ADMIN := perms];
        assert perms == WithCluster(ADMIN, old(roles)[ADMIN]);
      }
    }

    method HideDashboardFromUsers()
      modifies this`roles
      ensures roles == map r | r in old(roles) :: WithoutDashboard(r, old(roles)[r])
    {
      if USER in roles {
        var perms := roles[USER];
        if OLD_DASHBOARD_VIEW in perms {
          perms := perms - {OLD_DASHBOARD_VIEW};
        }
        if !(DASHBOARD_VIEW in perms && !perms[DASHBOARD_VIEW]) {
          perms := perms[DASHBOARD_VIEW := false];
        }
        roles := roles[USER := perms];
        assert perms == WithoutDashboard(USER, old(roles)[USER]);
      }
    }

    // What one role gets for the broader permissions it holds.
    method BackfillRole(t: Tables, perms: Perms) returns (after: Perms)
      ensures after == Backfilled(t, perms)
    {
      if perms == map[] {
        assert GrantAll(Implied(t, perms)) + perms == perms;
        return perms;
      }
      var additions: set<string> := {};
      var todo := t.granular.Keys;
      while todo != {}
        invariant todo <= t.granular.Keys
        invariant additions == set u, k | u in t.granular && u !in todo && Truthy(perms, u) && k in t.granular[u] && k !in perms :: k
        decreases todo
      {
        var umbrella :| umbrella in todo;
        if Truthy(perms, umbrella) {
          additions := additions + (set k | k in t.granular[umbrella] && k !in perms);
        }
        todo := todo - {umbrella};
      }
      after := perms + GrantAll(additions);
      assert additions == Implied(t, perms) - perms.Keys;
      assert after == GrantAll(Implied(t, perms)) + perms;
    }

    method BackfillGranularPermissions(t: Tables)
      modifies this`roles
      ensures roles == map r | r in old(roles) :: Backfilled(t, old(roles)[r])
    {
      var todo := roles.Keys;
      while todo != {}
        invariant roles.Keys == old(roles.Keys) && todo <= roles.Keys
        invariant forall r :: r in todo ==> roles[r] == old(roles)[r]
        invariant forall r :: r in roles && r !in todo ==> roles[r] == Backfilled(t, old(roles)[r])
        decreases todo
      {
        var role :| role in todo;
        var after := BackfillRole(t, roles[role]);
        roles := roles[role := after];
        todo := todo - {role};
      }
    }

    // Once: `setting:view` is taken from roles that administer nothing.
    method SplitSettingView()
      modifies this`roles, this`viewSplit
      ensures viewSplit
      ensures roles == map r | r in old(roles) :: if old(viewSplit) then old(roles)[r] else ViewSplit(old(roles)[r])
    {
      if viewSplit {
        return;
      }
      var todo := roles.Keys;
      while todo != {}
        invariant roles.Keys == old(roles.Keys) && todo <= roles.Keys
        invariant forall r :: r in todo ==> roles[r] == old(roles)[r]
        invariant forall r :: r in roles && r !in todo ==> roles[r] == ViewSplit(old(roles)[r])
        decreases todo
      {
        var role :| role in todo;
        var perms := roles[role];
        if Truthy(perms, SETTING_VIEW) && !(Truthy(perms, SETTING_UPDATE) || Truthy(perms, SETTING_MANAGE)) {
          roles := roles[role := perms - {SETTING_VIEW}];
        }
        todo := todo - {role};
      }
      viewSplit := true;
    }

    // Once: the built-in roles get the Coolify permissions.
    method GrantCoolify(t: Tables)
      modifies this`roles, this`coolifyGranted
      ensures coolifyGranted
      ensures roles == map r | r in old(roles) :: if old(coolifyGranted) then old(roles)[r] else WithCoolify(t, r, old(roles)[r])
    {
      if coolifyGranted {
        return;
      }
      var todo := roles.Keys;
      while todo != {}
        invariant roles.Keys == old(roles.Keys) && todo <= roles.Keys
        invariant forall r :: r in todo ==> roles[r] == old(roles)[r]
        invariant forall r :: r in roles && r !in todo ==> roles[r] == WithCoolify(t, r, old(roles)[r])
        decreases todo
      {
        var role :| role in todo;
        if role in t.coolify {
          var perms := roles[role];
          var missing := t.coolify[role] - perms.Keys;
          assert perms + GrantAll(missing) == GrantAll(t.coolify[role]) + perms;
          roles := roles[role := perms + GrantAll(missing)];
        }
        todo := todo - {role};
      }
      coolifyGranted := true;
    }

    // The steps between the two looks at the defaults.
    method AdjustRoles(t: Tables)
      modifies this`roles
      ensures roles == map r | r in old(roles) :: Middle(t, r, old(roles)[r])
    {
      ghost var b := roles;
      GrantOwnGuests(t);
      ghost var own := roles;
      AdoptClusterManage();
      ghost var cluster := roles;
      HideDashboardFromUsers();
      ghost var dashboard := roles;
      BackfillGranularPermissions(t);
      MiddleOfAll(t, b, own, cluster, dashboard, roles);
    }

    method RunOneTimeSteps(t: Tables)
      modifies this
      ensures viewSplit && coolifyGranted
      ensures roles == map r | r in old(roles) :: Late(t, old(viewSplit), old(coolifyGranted), r, old(roles)[r])
    {
      SplitSettingView();
      GrantCoolify(t);
    }

    // Missing roles inserted, old names converted, defaults filled in.
    method MergeRoles(t: Tables)
      requires IsLegacyTable(t.legacy)
      modifies this`roles
      ensures roles.Keys == old(roles.Keys) + t.seeds.Keys + t.defaults.Keys
      ensures forall r :: r in roles ==> RoleMerged(t, r, RbacBoot.Start(t, old(Contents()), r), roles[r])
    {
      ghost var s := Contents();
      InsertMissingRoles(t);
      assert forall r :: r in roles ==> roles[r] == RbacBoot.Start(t, s, r);
      var _ := MigrateAllRoles(t);
      ghost var a := roles;
      EnsureDefaultRoles(t);
      MergedOfAll(t, s, a, roles);
    }

    method PrepareRoles(t: Tables)
      requires IsLegacyTable(t.legacy)
      modifies this`roles
      ensures roles.Keys == old(roles.Keys) + t.seeds.Keys + t.defaults.Keys
      ensures forall r :: r in roles ==> RolePrepared(t, r, RbacBoot.Start(t, old(Contents()), r), roles[r])
    {
      ghost var s := Contents();
      MergeRoles(t);
      ghost var b := roles;
      AdjustRoles(t);
      ghost var m := roles;
      assert m.Keys == b.Keys;
      EnsureDefaultRoles(t);
      forall r | r in roles ensures RolePrepared(t, r, RbacBoot.Start(t, s, r), roles[r]) {
        assert RoleMerged(t, r, RbacBoot.Start(t, s, r), b[r]) && Ensured(t, r, At(m, r), roles[r]);
      }
    }

    // The steps of a start that touch roles, in their order.
    method Start(t: Tables)
      requires IsLegacyTable(t.legacy)
      modifies this
      ensures Boot(t, old(Contents()), Contents())
    {
      ghost var s := Contents();
      PrepareRoles(t);
      ghost var c := roles;
      RunOneTimeSteps(t);
      BootOfAll(t, s, c, Contents());
    }
  }
}
