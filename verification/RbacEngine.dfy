/** Who may do what: the permission check that conversions must not change. */
module RbacEngine {
  import opened Wrappers
  import opened PyText
  import opened RbacTables
  import opened RbacConversion

  datatype User = User(isAdmin: bool, role: Option<Perms>)

  const IMPLIED_BY_MANAGE := {"view", "list", "update", "start", "stop", "restart"}

  // The codes a user holds; `all` are the registered ones.
  function UserPermissions(user: User, all: set<string>): set<string> {
    if user.isAdmin then all
    else match user.role case Some(perms) => Granted(perms) case None => {}
  }

  method GetUserPermissions(user: User, all: set<string>) returns (permissions: set<string>)
    ensures permissions == UserPermissions(user, all)
  {
    if user.isAdmin {
      return all;
    }
    permissions := {};
    if user.role.Some? {
      var perms := user.role.value;
      var todo := perms.Keys;
      while todo != {}
        invariant todo <= perms.Keys
        invariant permissions == Granted(perms - todo)
        decreases todo
      {
        var code :| code in todo;
        assert (perms - (todo - {code})) == (perms - todo)[code := perms[code]];
        if perms[code] {
          permissions := permissions + {code};
        }
        todo := todo - {code};
      }
      assert perms - todo == perms;
    }
  }

  // Held itself, through a wildcard, or through `manage` for the actions that implies.
  predicate Allows(held: set<string>, permission: string) {
    var parts := Split(permission, ':');
    || permission in held
    || parts[0] + ":*" in held
    || (parts[0] + ":manage" in held && |parts| > 1 && parts[1] in IMPLIED_BY_MANAGE)
  }

  predicate HasPermission(user: User, all: set<string>, permission: string) {
    user.isAdmin || Allows(UserPermissions(user, all), permission)
  }

  // For a plain `resource:action` code, the three ways in which it can be held.
  lemma AllowsPlainCode(held: set<string>, resource: string, action: string)
    requires ':' !in resource && ':' !in action
    ensures Allows(held, resource + [':'] + action) <==>
            || resource + [':'] + action in held
            || resource + ":*" in held
            || (resource + ":manage" in held && action in IMPLIED_BY_MANAGE)
  {
    SplitPart(resource, ':', action);
    SplitWhole(action, ':');
  }

  lemma SamePrefix(p: string, a: string, b: string)
    ensures p + a == p + b <==> a == b
  {
    assert (p + a)[|p|..] == a && (p + b)[|p|..] == b;
  }

  lemma CodesOf(resource: string)
    ensures resource + ":manage" == resource + [':'] + "manage" && resource + ":*" == resource + [':'] + "*"
  {
  }

  // `manage` alone allows exactly seven actions of its resource: not to create, not to delete.
  lemma ManageAloneAllows(resource: string, action: string)
    requires ':' !in resource && ':' !in action
    ensures Allows({resource + ":manage"}, resource + [':'] + action) <==>
            action in {"manage", "view", "list", "update", "start", "stop", "restart"}
  {
    AllowsPlainCode({resource + ":manage"}, resource, action);
    CodesOf(resource);
    SamePrefix(resource + [':'], action, "manage");
    SamePrefix(resource + [':'], "*", "manage");
  }

  lemma OtherCode(resource: string, a: string, other: string, b: string)
    requires ':' !in resource && ':' !in other && other != resource
    ensures resource + [':'] + a != other + [':'] + b
  {
    SplitPart(resource, ':', a);
    SplitPart(other, ':', b);
    assert Split(resource + [':'] + a, ':')[0] != Split(other + [':'] + b, ':')[0];
  }

  // It allows nothing of another resource.
  lemma ManageOfOtherAllowsNothing(resource: string, other: string, action: string)
    requires ':' !in resource && ':' !in other && ':' !in action && other != resource
    ensures !Allows({resource + ":manage"}, other + [':'] + action)
  {
    AllowsPlainCode({resource + ":manage"}, other, action);
    CodesOf(resource);
    CodesOf(other);
    OtherCode(resource, "manage", other, action);
    OtherCode(resource, "manage", other, "*");
    OtherCode(resource, "manage", other, "manage");
  }

  // An administrator may do everything, registered or not; an account without a role may do nothing.
  lemma WithoutRole(user: User, all: set<string>, permission: string)
    requires user.isAdmin || user.role.None?
    ensures HasPermission(user, all, permission) <==> user.isAdmin
    ensures UserPermissions(user, all) == if user.isAdmin then all else {}
  {
  }

  // A corollary of `MeaningIsKept`: when no old name is granted next to its denied new name, a user may do after
  // the conversion exactly what the old names, read as new ones, allow.
  lemma DecisionsAreKept(legacy: map<string, string>, old_: Perms, new_: Perms, permission: string)
    requires IsLegacyTable(legacy) && Converts(legacy, old_, new_) && !Conflicted(legacy, old_)
    ensures HasPermission(User(false, Some(new_)), {}, permission) <==> Allows(Resolved(legacy, old_), permission)
  {
    MeaningIsKept(legacy, old_, new_);
  }

  // In any case, conversion lets nobody do more.
  lemma NoDecisionIsGained(legacy: map<string, string>, old_: Perms, new_: Perms, permission: string)
    requires IsLegacyTable(legacy) && Converts(legacy, old_, new_)
    ensures HasPermission(User(false, Some(new_)), {}, permission) ==> Allows(Resolved(legacy, old_), permission)
  {
    NothingIsGained(legacy, old_, new_);
  }

  // What stays granted in every outcome of a conversion: what no entry denies under its new name.
  function Undisputed(legacy: map<string, string>, old_: Perms): set<string> {
    set q | q in Resolved(legacy, old_) && !(q in old_ && !old_[q])
  }

  lemma UndisputedIs(legacy: map<string, string>, old_: Perms)
    requires IsLegacyTable(legacy)
    ensures Undisputed(legacy, old_) == Granted(NewNamesWin(legacy, old_))
  {
    forall q ensures q in Undisputed(legacy, old_) <==> q in Granted(NewNamesWin(legacy, old_)) {
      ResolvedIs(legacy, old_, q);
    }
  }

  lemma UndisputedStays(legacy: map<string, string>, old_: Perms, new_: Perms)
    requires IsLegacyTable(legacy) && Converts(legacy, old_, new_)
    ensures Undisputed(legacy, old_) <= Granted(new_)
  {
    forall q | q in Undisputed(legacy, old_) ensures q in Granted(new_) {
      assert ConvertsAt(legacy, old_, new_, q);
      ResolvedIs(legacy, old_, q);
    }
  }

  lemma MoreAllowsMore(few: set<string>, many: set<string>, permission: string)
    requires few <= many
    ensures Allows(few, permission) ==> Allows(many, permission)
  {
  }

  // Every conversion leaves the decision as it was.
  ghost predicate DecisionIsKept(legacy: map<string, string>, old_: Perms, permission: string) {
    forall new_ :: Converts(legacy, old_, new_) ==>
      (HasPermission(User(false, Some(new_)), {}, permission) <==> Allows(Resolved(legacy, old_), permission))
  }

  // Conflicts or not: a decision survives conversion, in whatever order the dictionary is read, exactly
  // when it does not hang on a disputed grant.
  lemma DecisionIsKeptIff(legacy: map<string, string>, old_: Perms, permission: string)
    requires IsLegacyTable(legacy)
    ensures DecisionIsKept(legacy, old_, permission) <==>
            (Allows(Resolved(legacy, old_), permission) ==> Allows(Undisputed(legacy, old_), permission))
  {
    BothOrdersHappen(legacy, old_);
    UndisputedIs(legacy, old_);
    forall new_ | Converts(legacy, old_, new_)
      ensures Allows(Granted(new_), permission) ==> Allows(Resolved(legacy, old_), permission)
      ensures Allows(Undisputed(legacy, old_), permission) ==> Allows(Granted(new_), permission)
    {
      NothingIsGained(legacy, old_, new_);
      UndisputedStays(legacy, old_, new_);
      MoreAllowsMore(Granted(new_), Resolved(legacy, old_), permission);
      MoreAllowsMore(Undisputed(legacy, old_), Granted(new_), permission);
    }
    assert UserPermissions(User(false, Some(NewNamesWin(legacy, old_))), {}) == Undisputed(legacy, old_);
  }
}
