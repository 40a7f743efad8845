/** The value of every permission after a start, in any role: where it comes from, and what it is. */
module RbacOutcome {
  import opened RbacTables
  import opened RbacConversion
  import opened RbacBoot

  // What a role has before anything is derived: the conversion's result, then the defaults, then the
  // permissions of plain users on their own guests.
  predicate Has(t: Tables, role: string, a: Perms, k: string) {
    k in a || (role in t.defaults && k in t.defaults[role]) || (role == USER && k in t.own)
  }

  function ValueOf(t: Tables, role: string, a: Perms, k: string): bool
    requires Has(t, role, a, k)
  {
    if k in a then a[k] else if role in t.defaults && k in t.defaults[role] then t.defaults[role][k] else t.own[k]
  }

  // An old name that every start takes from a role.
  predicate Retired(role: string, k: string) {
    (role == ADMIN && k == OLD_CLUSTER_MANAGE) || (role == USER && k == OLD_DASHBOARD_VIEW)
  }

  // `k` was split off from a permission that the role holds.
  predicate FollowsFrom(t: Tables, p: Perms, k: string) {
    exists u :: u in t.granular && k in t.granular[u] && Truthy(p, u)
  }

  predicate Explained(t: Tables, s: State, role: string, a: Perms, after: Perms, k: string) {
    if Retired(role, k) then k !in after
    else if Dictated(role, k) then k in after && after[k] == (role == ADMIN)
    else if TakenAway(s, Merged(t, role, a), k) then k !in after
    else if Has(t, role, a, k) then k in after && after[k] == ValueOf(t, role, a, k)
    else (k in after <==> FollowsFrom(t, after, k)) && (k in after ==> after[k])
  }

  lemma TrimmedAt(t: Tables, role: string, a: Perms, k: string)
    requires Sound(t)
    ensures var x := Trimmed(t, role, Merged(t, role, a));
            if Retired(role, k) then k !in x
            else if Dictated(role, k) then k in x && x[k] == (role == ADMIN)
            else if Has(t, role, a, k) then k in x && x[k] == ValueOf(t, role, a, k)
            else k !in x
  {
    OldNamesAreNotNew();
  }

  lemma MiddleAt(t: Tables, x: Perms, k: string)
    requires Sound(t)
    ensures k in x ==> k in Backfilled(t, x) && Backfilled(t, x)[k] == x[k]
    ensures k !in x ==> (k in Backfilled(t, x) <==> FollowsFrom(t, x, k)) && (k in Backfilled(t, x) ==> Backfilled(t, x)[k])
    ensures FollowsFrom(t, Backfilled(t, x), k) <==> FollowsFrom(t, x, k)
  {
    forall u | u in t.granular ensures Truthy(Backfilled(t, x), u) <==> Truthy(x, u) {
      if u in Implied(t, x) {
        ImpliedIsGranular(t, x, u);
      }
    }
    assert k in Implied(t, x) <==> FollowsFrom(t, x, k);
  }

  lemma SplitAt(t: Tables, c: Perms, k: string)
    requires Sound(t)
    ensures k != SETTING_VIEW ==> (k in ViewSplit(c) <==> k in c) && (k in c ==> ViewSplit(c)[k] == c[k])
    ensures SETTING_VIEW in ViewSplit(c) ==> c[SETTING_VIEW] == ViewSplit(c)[SETTING_VIEW]
    ensures FollowsFrom(t, ViewSplit(c), k) <==> FollowsFrom(t, c, k)
  {
    assert forall u :: u in t.granular ==> (Truthy(ViewSplit(c), u) <==> Truthy(c, u));
  }

  lemma WhatFollowsIsPart(t: Tables, p: Perms, k: string)
    requires Sound(t)
    ensures FollowsFrom(t, p, k) ==> Part(t.granular.Keys, k)
  {
  }

  // Neither `setting:view` nor an old name was split off from anything.
  lemma ViewFollowsFromNothing(t: Tables, p: Perms)
    requires Sound(t)
    ensures !FollowsFrom(t, p, SETTING_VIEW)
  {
    WhatFollowsIsPart(t, p, SETTING_VIEW);
  }

  lemma RetiredFollowsFromNothing(t: Tables, role: string, p: Perms, k: string)
    requires Sound(t)
    ensures Retired(role, k) ==> !FollowsFrom(t, p, k)
  {
    OldNamesAreNotNew();
    WhatFollowsIsPart(t, p, k);
  }

  // Every value after a start is accounted for.
  lemma EveryValueIsExplained(t: Tables, s: State, role: string, p: Perms, after: Perms) returns (a: Perms)
    requires Sound(t) && RoleBoot(t, s, role, p, after)
    ensures Migrated(t, p, a)
    ensures forall k :: Explained(t, s, role, a, after, k)
  {
    a := ConvertedMiddle(t, s, role, p, after);
    SplitKeeps(t, s, role, Merged(t, role, a));
    forall k ensures Explained(t, s, role, a, after, k) {
      var x := Trimmed(t, role, Merged(t, role, a));
      TrimmedAt(t, role, a, k);
      MiddleAt(t, x, k);
      SplitAt(t, Backfilled(t, x), k);
      ViewFollowsFromNothing(t, after);
      RetiredFollowsFromNothing(t, role, x, k);
    }
  }

  // A part of a permission that the role holds afterwards is there too: with the value the role had
  // for it or missed as a default, and granted when it had none.
  lemma PartsAreThere(t: Tables, s: State, role: string, p: Perms, after: Perms, u: string, k: string) returns (a: Perms)
    requires Sound(t) && RoleBoot(t, s, role, p, after)
    requires u in t.granular && k in t.granular[u] && Truthy(after, u)
    ensures Migrated(t, p, a)
    ensures k in after && after[k] == if Has(t, role, a, k) then ValueOf(t, role, a, k) else true
  {
    a := EveryValueIsExplained(t, s, role, p, after);
    assert Part(t.granular.Keys, k) && Explained(t, s, role, a, after, k);
    OldNamesAreNotNew();
    assert FollowsFrom(t, after, k);
  }

  // No name from the table of old names is left in any role.
  lemma NoOldNameIsLeft(t: Tables, s: State, role: string, p: Perms, after: Perms, old_: string)
    requires Sound(t) && RoleBoot(t, s, role, p, after) && old_ in t.legacy
    ensures old_ !in after
  {
    var a := EveryValueIsExplained(t, s, role, p, after);
    assert Explained(t, s, role, a, after, old_) && Dotted(old_);
    MigratedIsClean(t, p, a);
    CleanHasNoOldName(t, a, old_);
    WhatFollowsIsPart(t, after, old_);
  }

  lemma CleanHasNoOldName(t: Tables, p: Perms, old_: string)
    requires Clean(t, p) && old_ in t.legacy && Dotted(old_)
    ensures old_ !in p
  {
  }

  // The one-time grant, on tables of any kind: what the role lacks is granted, what it has stays.
  lemma OneTimeGrantIs(t: Tables, role: string, p: Perms, k: string)
    ensures k in p ==> k in WithCoolify(t, role, p) && WithCoolify(t, role, p)[k] == p[k]
    ensures k !in p ==> (k in WithCoolify(t, role, p) <==> role in t.coolify && k in t.coolify[role])
    ensures k !in p && k in WithCoolify(t, role, p) ==> WithCoolify(t, role, p)[k]
  {
  }
}
