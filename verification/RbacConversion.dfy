/** Permissions under their old dotted names and under `resource:action` names, and the conversions between them. */
module RbacConversion {
  import opened RbacTables

  predicate Colon(key: string) {
    ':' in key
  }

  predicate Dotted(key: string) {
    '.' in key && ':' !in key
  }

  // What the tables of old names are: dotted names for `resource:action` names.
  predicate IsLegacyTable(legacy: map<string, string>) {
    forall p :: p in legacy ==> Dotted(p) && Colon(legacy[p])
  }

  function Resolve(legacy: map<string, string>, key: string): string {
    if key in legacy then legacy[key] else key
  }

  function Granted(perms: Perms): set<string> {
    set k | k in perms && perms[k]
  }

  // ---------- to the new names ----------

  // A key that is carried over under its own name.
  predicate Carried(legacy: map<string, string>, old_: Perms, key: string) {
    key in old_ && (Colon(key) || (key !in legacy && old_[key]))
  }

  // A key that a granted old name turns into.
  predicate Renamed(legacy: map<string, string>, old_: Perms, key: string) {
    exists p :: p in old_ && p in legacy && old_[p] && legacy[p] == key
  }

  // What converting `old_` may give. The dictionary is read in some order, and a key that is both
  // carried over and renamed to keeps the value that comes last.
  ghost predicate Converts(legacy: map<string, string>, old_: Perms, new_: Perms) {
    forall q :: ConvertsAt(legacy, old_, new_, q)
  }

  ghost predicate ConvertsAt(legacy: map<string, string>, old_: Perms, new_: Perms, q: string) {
    && (q in new_ <==> Carried(legacy, old_, q) || Renamed(legacy, old_, q))
    && (q in new_ ==> if new_[q] then Renamed(legacy, old_, q) || (Carried(legacy, old_, q) && old_[q])
                      else Carried(legacy, old_, q) && !old_[q])
  }

  // An old name that is granted next to its own new name that is denied.
  predicate Conflicted(legacy: map<string, string>, old_: Perms) {
    exists p :: p in old_ && p in legacy && old_[p] && legacy[p] in old_ && !old_[legacy[p]]
  }

  lemma RenamedWithOne(legacy: map<string, string>, seen: Perms, perm: string, value: bool, q: string)
    requires perm !in seen
    ensures Renamed(legacy, seen[perm := value], q) <==>
            Renamed(legacy, seen, q) || (value && perm in legacy && legacy[perm] == q)
  {
  }

  // What is true of `new_` when the entry for `perm` is read after those in `seen`.
  lemma ReadOne(legacy: map<string, string>, seen: Perms, new_: Perms, perm: string, value: bool)
    requires IsLegacyTable(legacy) && Converts(legacy, seen, new_) && perm !in seen
    ensures Converts(legacy, seen[perm := value],
                     if Colon(perm) then new_[perm := value]
                     else if !value then new_
                     else new_[Resolve(legacy, perm) := value])
  {
    var more := seen[perm := value];
    var next := if Colon(perm) then new_[perm := value] else if !value then new_ else new_[Resolve(legacy, perm) := value];
    forall q ensures ConvertsAt(legacy, more, next, q) {
      assert ConvertsAt(legacy, seen, new_, q);
      RenamedWithOne(legacy, seen, perm, value, q);
    }
  }

  // A dictionary in the order in which it lists its entries.
  datatype Entry = Entry(key: string, value: bool)

  predicate Distinct(items: seq<Entry>) {
    forall i, j :: 0 <= i < j < |items| ==> items[i].key != items[j].key
  }

  function AsMap(items: seq<Entry>): Perms {
    if items == [] then map[]
    else var last := items[|items| - 1]; AsMap(items[..|items| - 1])[last.key := last.value]
  }

  function WithEntry(legacy: map<string, string>, new_: Perms, entry: Entry): Perms {
    if Colon(entry.key) then new_[entry.key := entry.value]
    else if !entry.value then new_
    else new_[Resolve(legacy, entry.key) := entry.value]
  }

  // What converting gives when the entries are read in this order.
  function InOrder(legacy: map<string, string>, items: seq<Entry>): Perms {
    if items == [] then map[]
    else WithEntry(legacy, InOrder(legacy, items[..|items| - 1]), items[|items| - 1])
  }

  lemma {:induction false} AsMapHas(items: seq<Entry>)
    requires Distinct(items)
    ensures forall i :: 0 <= i < |items| ==> items[i].key in AsMap(items) && AsMap(items)[items[i].key] == items[i].value
    ensures forall k :: k in AsMap(items) ==> exists i :: 0 <= i < |items| && items[i].key == k
  {
    if items != [] {
      var front := items[..|items| - 1];
      AsMapHas(front);
      forall k | k in AsMap(items) ensures exists i :: 0 <= i < |items| && items[i].key == k {
        if k in AsMap(front) {
          var i :| 0 <= i < |front| && front[i].key == k;
          assert items[i].key == k;
        } else {
          assert items[|items| - 1].key == k;
        }
      }
    }
  }

  // Every order gives an outcome of the relation.
  lemma {:induction false} InOrderConverts(legacy: map<string, string>, items: seq<Entry>)
    requires IsLegacyTable(legacy) && Distinct(items)
    ensures Converts(legacy, AsMap(items), InOrder(legacy, items))
  {
    if items != [] {
      var front, last := items[..|items| - 1], items[|items| - 1];
      InOrderConverts(legacy, front);
      AsMapHas(front);
      ReadOne(legacy, AsMap(front), InOrder(legacy, front), last.key, last.value);
    }
  }

  // The loop of the conversion.
  method ConvertPermissionsToNewFormat(legacy: map<string, string>, items: seq<Entry>) returns (new_: Perms)
    requires IsLegacyTable(legacy)
    ensures new_ == InOrder(legacy, items)
    ensures Distinct(items) ==> Converts(legacy, AsMap(items), new_)
  {
    new_ := map[];
    for i := 0 to |items|
      invariant new_ == InOrder(legacy, items[..i])
    {
      var perm, value := items[i].key, items[i].value;
      assert items[..i + 1][..i] == items[..i];
      if Colon(perm) {
        new_ := new_[perm := value];
      } else if perm in legacy {
        if value {
          new_ := new_[legacy[perm] := value];
        }
      } else if value {
        new_ := new_[perm := value];
      }
    }
    assert items[..|items|] == items;
    if Distinct(items) {
      InOrderConverts(legacy, items);
    }
  }

  // ---------- the order of the entries ----------

  // An entry that grants `q` by its old name.
  predicate GrantsAs(legacy: map<string, string>, entry: Entry, q: string) {
    entry.value && entry.key in legacy && legacy[entry.key] == q
  }

  // `q` is denied under its own name at `j`, and no later entry grants it by an old name.
  predicate DeniedAt(legacy: map<string, string>, items: seq<Entry>, q: string, j: nat) {
    && j < |items| && items[j] == Entry(q, false) && Colon(q)
    && forall k :: j < k < |items| ==> !GrantsAs(legacy, items[k], q)
  }

  predicate Denied(legacy: map<string, string>, items: seq<Entry>, q: string) {
    exists j :: 0 <= j < |items| && DeniedAt(legacy, items, q, j)
  }

  lemma {:induction false} DeniedIs(legacy: map<string, string>, items: seq<Entry>, q: string)
    requires IsLegacyTable(legacy) && Distinct(items)
    ensures (q in InOrder(legacy, items) && !InOrder(legacy, items)[q]) <==> Denied(legacy, items, q)
  {
    if items != [] {
      var n := |items| - 1;
      var front, last := items[..n], items[n];
      DeniedIs(legacy, front, q);
      if last.key == q && Colon(q) {
        assert !last.value ==> DeniedAt(legacy, items, q, n);
      } else if !GrantsAs(legacy, last, q) {
        assert forall j :: 0 <= j < n ==> (DeniedAt(legacy, items, q, j) <==> DeniedAt(legacy, front, q, j));
      }
    }
  }

  // ---------- properties of every order ----------

  // No old name is left, and nothing denied but under a new name.
  predicate Normal(legacy: map<string, string>, perms: Perms) {
    forall k :: k in perms ==> Carried(legacy, perms, k)
  }

  lemma ConvertedIsNormal(legacy: map<string, string>, old_: Perms, new_: Perms)
    requires IsLegacyTable(legacy) && Converts(legacy, old_, new_)
    ensures Normal(legacy, new_)
  {
    forall k | k in new_ ensures Carried(legacy, new_, k) {
      assert ConvertsAt(legacy, old_, new_, k);
      if Renamed(legacy, old_, k) {
        var p :| p in old_ && p in legacy && old_[p] && legacy[p] == k;
        assert Colon(legacy[p]);
      }
    }
  }

  // A map without old names converts to itself only.
  lemma NormalIsKept(legacy: map<string, string>, perms: Perms, new_: Perms)
    requires IsLegacyTable(legacy) && Normal(legacy, perms) && Converts(legacy, perms, new_)
    ensures new_ == perms
  {
    assert forall p :: p in perms ==> Carried(legacy, perms, p) && p !in legacy;
    assert forall q :: !Renamed(legacy, perms, q);
    forall q ensures (q in new_ <==> q in perms) && (q in new_ ==> new_[q] == perms[q]) {
      assert ConvertsAt(legacy, perms, new_, q);
    }
  }

  // Converting again changes nothing.
  lemma ConvertingTwiceIsConvertingOnce(legacy: map<string, string>, old_: Perms, new_: Perms, again: Perms)
    requires IsLegacyTable(legacy) && Converts(legacy, old_, new_) && Converts(legacy, new_, again)
    ensures again == new_
  {
    ConvertedIsNormal(legacy, old_, new_);
    NormalIsKept(legacy, new_, again);
  }

  // ---------- what is granted ----------

  // The granted permissions under their new names.
  function Resolved(legacy: map<string, string>, perms: Perms): set<string> {
    set k | k in Granted(perms) :: Resolve(legacy, k)
  }

  lemma ResolvedIs(legacy: map<string, string>, old_: Perms, q: string)
    requires IsLegacyTable(legacy)
    ensures q in Resolved(legacy, old_) <==> Renamed(legacy, old_, q) || (Carried(legacy, old_, q) && old_[q])
  {
    if q in Resolved(legacy, old_) {
      var k :| k in Granted(old_) && Resolve(legacy, k) == q;
      assert k in old_ && old_[k];
    }
    if Renamed(legacy, old_, q) {
      var p :| p in old_ && p in legacy && old_[p] && legacy[p] == q;
      assert p in Granted(old_);
    }
    if Carried(legacy, old_, q) && old_[q] {
      assert q in Granted(old_) && (q in legacy ==> Dotted(q));
    }
  }

  // Conversion never grants anything new.
  lemma NothingIsGained(legacy: map<string, string>, old_: Perms, new_: Perms)
    requires IsLegacyTable(legacy) && Converts(legacy, old_, new_)
    ensures Granted(new_) <= Resolved(legacy, old_)
  {
    forall q | q in Granted(new_) ensures q in Resolved(legacy, old_) {
      assert ConvertsAt(legacy, old_, new_, q);
      ResolvedIs(legacy, old_, q);
    }
  }

  // The outcome when the dictionary lists the old names first.
  function NewNamesWin(legacy: map<string, string>, old_: Perms): Perms {
    map q | q in old_.Keys + Resolved(legacy, old_) && (Carried(legacy, old_, q) || q in Resolved(legacy, old_)) ::
      if Carried(legacy, old_, q) then old_[q] else true
  }

  // The outcome when it lists them last.
  function OldNamesWin(legacy: map<string, string>, old_: Perms): Perms {
    map q | q in old_.Keys + Resolved(legacy, old_) && (Carried(legacy, old_, q) || q in Resolved(legacy, old_)) ::
      q in Resolved(legacy, old_)
  }

  lemma BothOrdersHappen(legacy: map<string, string>, old_: Perms)
    requires IsLegacyTable(legacy)
    ensures Converts(legacy, old_, NewNamesWin(legacy, old_)) && Converts(legacy, old_, OldNamesWin(legacy, old_))
  {
    forall q ensures q in Resolved(legacy, old_) <==> Renamed(legacy, old_, q) || (Carried(legacy, old_, q) && old_[q]) {
      ResolvedIs(legacy, old_, q);
    }
  }

  lemma RenamedAndDenied(legacy: map<string, string>, old_: Perms, q: string)
    ensures Renamed(legacy, old_, q) && q in old_ && !old_[q] ==> Conflicted(legacy, old_)
  {
  }

  // Without a conflict exactly what was granted stays granted, in whatever order the dictionary is read.
  lemma MeaningIsKept(legacy: map<string, string>, old_: Perms, new_: Perms)
    requires IsLegacyTable(legacy) && Converts(legacy, old_, new_) && !Conflicted(legacy, old_)
    ensures Granted(new_) == Resolved(legacy, old_)
  {
    NothingIsGained(legacy, old_, new_);
    forall q | q in Resolved(legacy, old_) ensures q in Granted(new_) {
      assert ConvertsAt(legacy, old_, new_, q);
      ResolvedIs(legacy, old_, q);
      RenamedAndDenied(legacy, old_, q);
    }
  }

  lemma ConflictLosesMeaning(legacy: map<string, string>, old_: Perms)
    requires IsLegacyTable(legacy) && Conflicted(legacy, old_)
    ensures Granted(NewNamesWin(legacy, old_)) != Resolved(legacy, old_)
    ensures NewNamesWin(legacy, old_) != OldNamesWin(legacy, old_)
  {
    var p :| p in old_ && p in legacy && old_[p] && legacy[p] in old_ && !old_[legacy[p]];
    var q := legacy[p];
    assert Renamed(legacy, old_, q);
    ResolvedIs(legacy, old_, q);
    assert Carried(legacy, old_, q);
    assert q !in Granted(NewNamesWin(legacy, old_));
  }

  ghost predicate AlwaysKeepsMeaning(legacy: map<string, string>, old_: Perms) {
    forall new_ :: Converts(legacy, old_, new_) ==> Granted(new_) == Resolved(legacy, old_)
  }

  ghost predicate OrderMatters(legacy: map<string, string>, old_: Perms) {
    exists a, b :: Converts(legacy, old_, a) && Converts(legacy, old_, b) && a != b
  }

  // The conversion keeps its meaning, and does not depend on the order, exactly when there is no conflict.
  lemma MeaningIsKeptIffNoConflict(legacy: map<string, string>, old_: Perms)
    requires IsLegacyTable(legacy)
    ensures AlwaysKeepsMeaning(legacy, old_) <==> !Conflicted(legacy, old_)
    ensures OrderMatters(legacy, old_) <==> Conflicted(legacy, old_)
  {
    BothOrdersHappen(legacy, old_);
    if Conflicted(legacy, old_) {
      ConflictLosesMeaning(legacy, old_);
    } else {
      forall new_ | Converts(legacy, old_, new_) ensures new_ == OldNamesWin(legacy, old_) {
        MeaningIsKept(legacy, old_, new_);
        SameKeysAndGrants(legacy, old_, new_);
      }
      MeaningIsKept(legacy, old_, OldNamesWin(legacy, old_));
    }
  }

  lemma SameKeysAndGrants(legacy: map<string, string>, old_: Perms, new_: Perms)
    requires IsLegacyTable(legacy) && Converts(legacy, old_, new_) && Granted(new_) == Resolved(legacy, old_)
    ensures new_ == OldNamesWin(legacy, old_)
  {
    BothOrdersHappen(legacy, old_);
    forall q ensures (q in new_ <==> q in OldNamesWin(legacy, old_)) && (q in new_ ==> (new_[q] <==> q in Granted(new_))) {
      assert ConvertsAt(legacy, old_, new_, q) && ConvertsAt(legacy, old_, OldNamesWin(legacy, old_), q);
    }
  }

  // ---------- one order ----------

  // Read in a given order, exactly what was granted stays granted, less what is denied last.
  lemma GrantedInOrder(legacy: map<string, string>, items: seq<Entry>)
    requires IsLegacyTable(legacy) && Distinct(items)
    ensures Granted(InOrder(legacy, items)) == set q | q in Resolved(legacy, AsMap(items)) && !Denied(legacy, items, q)
  {
    InOrderConverts(legacy, items);
    NothingIsGained(legacy, AsMap(items), InOrder(legacy, items));
    forall q | q in Resolved(legacy, AsMap(items))
      ensures q in Granted(InOrder(legacy, items)) <==> !Denied(legacy, items, q)
    {
      assert ConvertsAt(legacy, AsMap(items), InOrder(legacy, items), q);
      ResolvedIs(legacy, AsMap(items), q);
      DeniedIs(legacy, items, q);
    }
    forall q | q in Granted(InOrder(legacy, items)) ensures !Denied(legacy, items, q) {
      DeniedIs(legacy, items, q);
    }
  }

  // A granted old name, later its new name denied, and no granted old name of it after that.
  predicate OverwrittenBy(legacy: map<string, string>, items: seq<Entry>, i: nat, j: nat) {
    i < j < |items| && GrantsAs(legacy, items[i], items[j].key) && DeniedAt(legacy, items, items[j].key, j)
  }

  predicate Overwritten(legacy: map<string, string>, items: seq<Entry>) {
    exists i, j :: 0 <= i < j < |items| && OverwrittenBy(legacy, items, i, j)
  }

  // Read in a given order, the conversion keeps its meaning exactly when nothing is overwritten.
  lemma OrderKeepsMeaningIff(legacy: map<string, string>, items: seq<Entry>)
    requires IsLegacyTable(legacy) && Distinct(items)
    ensures Granted(InOrder(legacy, items)) == Resolved(legacy, AsMap(items)) <==> !Overwritten(legacy, items)
  {
    GrantedInOrder(legacy, items);
    AsMapHas(items);
    if Overwritten(legacy, items) {
      var i, j :| 0 <= i < j < |items| && OverwrittenBy(legacy, items, i, j);
      assert items[i].key in Granted(AsMap(items));
      assert items[j].key in Resolved(legacy, AsMap(items)) && Denied(legacy, items, items[j].key);
    }
    forall q | q in Resolved(legacy, AsMap(items)) && Denied(legacy, items, q) ensures Overwritten(legacy, items) {
      DeniedIsOverwritten(legacy, items, q);
    }
  }

  lemma DeniedIsOverwritten(legacy: map<string, string>, items: seq<Entry>, q: string)
    requires IsLegacyTable(legacy) && Distinct(items)
    requires q in Resolved(legacy, AsMap(items)) && Denied(legacy, items, q)
    ensures Overwritten(legacy, items)
  {
    var j :| 0 <= j < |items| && DeniedAt(legacy, items, q, j);
    AsMapHas(items);
    assert !AsMap(items)[items[j].key];
    ResolvedIs(legacy, AsMap(items), q);
    var p :| p in AsMap(items) && p in legacy && AsMap(items)[p] && legacy[p] == q;
    var i :| 0 <= i < |items| && items[i].key == p;
    assert GrantsAs(legacy, items[i], q) && i != j;
    assert OverwrittenBy(legacy, items, i, j);
  }

  // ---------- the relation is exact ----------

  lemma WithLast(front: seq<Entry>, last: Entry)
    requires Distinct(front) && last.key !in AsMap(front)
    ensures Distinct(front + [last]) && AsMap(front + [last]) == AsMap(front)[last.key := last.value]
  {
    AsMapHas(front);
    assert (front + [last])[..|front|] == front;
  }

  lemma {:induction false} InSomeOrder(perms: Perms) returns (items: seq<Entry>)
    ensures Distinct(items) && AsMap(items) == perms
    decreases |perms|
  {
    items := [];
    if perms != map[] {
      var k :| k in perms;
      assert (perms - {k}).Keys == perms.Keys - {k};
      var front := InSomeOrder(perms - {k});
      WithLast(front, Entry(k, perms[k]));
      items := front + [Entry(k, perms[k])];
    }
  }

  lemma {:induction false} AsMapAppend(a: seq<Entry>, b: seq<Entry>)
    ensures AsMap(a + b) == AsMap(a) + AsMap(b)
  {
    if b == [] {
      assert a + b == a;
    } else {
      AsMapAppend(a, b[..|b| - 1]);
      assert (a + b)[..|a + b| - 1] == a + b[..|b| - 1];
    }
  }

  lemma DistinctAppend(a: seq<Entry>, b: seq<Entry>)
    requires Distinct(a) && Distinct(b) && AsMap(a).Keys !! AsMap(b).Keys
    ensures Distinct(a + b)
  {
    AsMapHas(a);
    AsMapHas(b);
    forall i, j | 0 <= i < j < |a + b| ensures (a + b)[i].key != (a + b)[j].key {
      if i < |a| <= j {
        assert a[i].key in AsMap(a) && b[j - |a|].key in AsMap(b);
      }
    }
  }

  function Among(perms: Perms, keys: set<string>): Perms {
    map k | k in perms && k in keys :: perms[k]
  }

  // Old names whose new name ends up denied.
  function Losers(legacy: map<string, string>, old_: Perms, new_: Perms): set<string> {
    set p | p in old_ && p in legacy && legacy[p] in new_ && !new_[legacy[p]] :: p
  }

  // An order for an outcome: first the old names that lose, then the new names, then the others.
  predicate Grouped(losers: set<string>, items: seq<Entry>, m: nat, n: nat) {
    && m <= n <= |items|
    && (forall i :: 0 <= i < m ==> items[i].key in losers)
    && (forall i :: m <= i < n ==> Colon(items[i].key))
    && (forall i :: n <= i < |items| ==> !Colon(items[i].key) && items[i].key !in losers)
  }

  lemma GroupedAppend(losers: set<string>, a: seq<Entry>, b: seq<Entry>, c: seq<Entry>)
    requires Distinct(a) && AsMap(a).Keys <= losers
    requires Distinct(b) && AllNew(AsMap(b))
    requires Distinct(c) && NoneNew(AsMap(c)) && AsMap(c).Keys !! losers
    ensures Grouped(losers, a + b + c, |a|, |a + b|)
  {
    AsMapHas(a);
    AsMapHas(b);
    AsMapHas(c);
  }

  predicate AllNew(perms: Perms) {
    forall k :: k in perms ==> Colon(k)
  }

  predicate NoneNew(perms: Perms) {
    forall k :: k in perms ==> !Colon(k)
  }

  lemma OrderFor(losers: set<string>, old_: Perms) returns (items: seq<Entry>, m: nat, n: nat)
    requires losers <= old_.Keys && forall k :: k in losers ==> !Colon(k)
    ensures Distinct(items) && AsMap(items) == old_
    ensures Grouped(losers, items, m, n)
  {
    var news := set k | k in old_ && Colon(k);
    var first, second, third := Among(old_, losers), Among(old_, news), Among(old_, old_.Keys - losers - news);
    var a := InSomeOrder(first);
    var b := InSomeOrder(second);
    var c := InSomeOrder(third);
    AsMapAppend(a, b);
    DistinctAppend(a, b);
    AsMapAppend(a + b, c);
    DistinctAppend(a + b, c);
    assert first + second + third == old_;
    GroupedAppend(losers, a, b, c);
    items, m, n := a + b + c, |a|, |a + b|;
  }

  lemma DeniedInGroups(legacy: map<string, string>, losers: set<string>, items: seq<Entry>, m: nat, n: nat, q: string)
    requires IsLegacyTable(legacy) && Distinct(items) && Grouped(losers, items, m, n)
    requires forall k :: k in losers ==> !Colon(k)
    requires forall i, j :: 0 <= i < |items| && 0 <= j < |items| && GrantsAs(legacy, items[i], q) && GrantsAs(legacy, items[j], q) ==>
               (items[i].key in losers <==> items[j].key in losers)
    ensures Denied(legacy, items, q) <==>
            && Colon(q) && Entry(q, false) in items
            && forall i :: 0 <= i < |items| && GrantsAs(legacy, items[i], q) ==> items[i].key in losers
  {
    if Colon(q) && Entry(q, false) in items {
      var j :| 0 <= j < |items| && items[j] == Entry(q, false);
      assert m <= j < n;
      forall i | 0 <= i < |items| && GrantsAs(legacy, items[i], q)
        ensures items[i].key in losers <==> i < j
      {
      }
      if forall i :: 0 <= i < |items| && GrantsAs(legacy, items[i], q) ==> items[i].key in losers {
        assert DeniedAt(legacy, items, q, j);
      }
    }
  }

  lemma OutcomeOfOrder(legacy: map<string, string>, old_: Perms, new_: Perms, items: seq<Entry>, m: nat, n: nat, q: string)
    requires IsLegacyTable(legacy) && Converts(legacy, old_, new_)
    requires Distinct(items) && AsMap(items) == old_
    requires Grouped(Losers(legacy, old_, new_), items, m, n)
    ensures q in new_ <==> q in InOrder(legacy, items)
    ensures q in new_ ==> new_[q] == InOrder(legacy, items)[q]
  {
    InOrderConverts(legacy, items);
    assert ConvertsAt(legacy, old_, new_, q) && ConvertsAt(legacy, old_, InOrder(legacy, items), q);
    if q in new_ {
      AsMapHas(items);
      DeniedInGroups(legacy, Losers(legacy, old_, new_), items, m, n, q);
      DeniedIs(legacy, items, q);
      RenamedIsGranted(legacy, items, q);
    }
  }

  lemma RenamedIsGranted(legacy: map<string, string>, items: seq<Entry>, q: string)
    requires Distinct(items)
    ensures Renamed(legacy, AsMap(items), q) <==> exists i :: 0 <= i < |items| && GrantsAs(legacy, items[i], q)
  {
    AsMapHas(items);
    if Renamed(legacy, AsMap(items), q) {
      var p :| p in AsMap(items) && p in legacy && AsMap(items)[p] && legacy[p] == q;
      var i :| 0 <= i < |items| && items[i].key == p;
      assert GrantsAs(legacy, items[i], q);
    }
  }

  // The outcomes of the relation are those that some order of the entries gives.
  lemma ConvertsIffSomeOrder(legacy: map<string, string>, old_: Perms, new_: Perms)
    requires IsLegacyTable(legacy)
    ensures Converts(legacy, old_, new_) <==>
            exists items :: Distinct(items) && AsMap(items) == old_ && InOrder(legacy, items) == new_
  {
    forall items | Distinct(items) && AsMap(items) == old_ && InOrder(legacy, items) == new_
      ensures Converts(legacy, old_, new_)
    {
      InOrderConverts(legacy, items);
    }
    if Converts(legacy, old_, new_) {
      var items, m, n := OrderFor(Losers(legacy, old_, new_), old_);
      forall q ensures (q in new_ <==> q in InOrder(legacy, items)) && (q in new_ ==> new_[q] == InOrder(legacy, items)[q]) {
        OutcomeOfOrder(legacy, old_, new_, items, m, n, q);
      }
      assert InOrder(legacy, items) == new_;
    }
  }

  // ---------- and back ----------

  // A reverse table: one old name for each new name that has any.
  ghost predicate IsReverse(legacy: map<string, string>, reverse: map<string, string>) {
    && (forall q :: q in reverse ==> reverse[q] in legacy && legacy[reverse[q]] == q)
    && (forall p :: p in legacy ==> legacy[p] in reverse)
  }

  // Of old names that share a new name, the last one read is kept.
  method ReverseMap(legacy: map<string, string>) returns (reverse: map<string, string>)
    ensures IsReverse(legacy, reverse)
  {
    reverse := map[];
    var todo := legacy.Keys;
    while todo != {}
      invariant todo <= legacy.Keys
      invariant forall q :: q in reverse ==> reverse[q] in legacy && legacy[reverse[q]] == q
      invariant forall p :: p in legacy && p !in todo ==> legacy[p] in reverse
      decreases todo
    {
      var p :| p in todo;
      reverse := reverse[legacy[p] := p];
      todo := todo - {p};
    }
  }

  function OldName(reverse: map<string, string>, key: string): string {
    if Colon(key) && key in reverse then reverse[key] else key
  }

  // Only what is granted is listed under the old names.
  ghost predicate IsLegacyForm(reverse: map<string, string>, new_: Perms, old_: Perms) {
    && (forall k :: k in old_ ==> old_[k])
    && (forall k :: k in old_ <==> exists q :: q in Granted(new_) && OldName(reverse, q) == k)
  }

  method ConvertPermissionsToLegacyFormat(legacy: map<string, string>, new_: Perms) returns (old_: Perms)
    ensures exists reverse :: IsReverse(legacy, reverse) && IsLegacyForm(reverse, new_, old_)
  {
    var reverse := ReverseMap(legacy);
    old_ := map[];
    var todo := new_.Keys;
    while todo != {}
      invariant todo <= new_.Keys
      invariant forall k :: k in old_ ==> old_[k]
      invariant forall k :: k in old_ ==> exists q :: q in Granted(new_) && q !in todo && OldName(reverse, q) == k
      invariant forall q :: q in Granted(new_) && q !in todo ==> OldName(reverse, q) in old_
      decreases todo
    {
      var perm :| perm in todo;
      ghost var before := todo;
      todo := todo - {perm};
      if new_[perm] {
        assert perm in Granted(new_);
        old_ := old_[(if Colon(perm) && perm in reverse then reverse[perm] else perm) := true];
      }
      forall k | k in old_ ensures exists q :: q in Granted(new_) && q !in todo && OldName(reverse, q) == k {
        if !(exists q :: q in Granted(new_) && q !in before && OldName(reverse, q) == k) {
          assert perm in Granted(new_) && perm !in todo && OldName(reverse, perm) == k;
        }
      }
    }
  }

  // Going to the old names and back grants exactly what was granted, under the new names.
  lemma BackAndForthKeepsMeaning(legacy: map<string, string>, reverse: map<string, string>, start: Perms, old_: Perms, back: Perms)
    requires IsLegacyTable(legacy) && IsReverse(legacy, reverse)
    requires IsLegacyForm(reverse, start, old_) && Converts(legacy, old_, back)
    ensures Granted(back) == Resolved(legacy, start)
    ensures (forall k :: k in start ==> Colon(k)) ==> Granted(back) == Granted(start)
  {
    MeaningIsKept(legacy, old_, back);
    forall q ensures q in Resolved(legacy, old_) <==> q in Resolved(legacy, start) {
      OldNamesResolveBack(legacy, reverse, start, old_, q);
    }
    if forall k :: k in start ==> Colon(k) {
      assert forall k :: k in start ==> Resolve(legacy, k) == k;
      assert Resolved(legacy, start) == Granted(start);
    }
  }

  lemma OldNamesResolveBack(legacy: map<string, string>, reverse: map<string, string>, start: Perms, old_: Perms, q: string)
    requires IsLegacyTable(legacy) && IsReverse(legacy, reverse) && IsLegacyForm(reverse, start, old_)
    ensures q in Resolved(legacy, old_) <==> q in Resolved(legacy, start)
  {
    assert forall g :: g in Granted(start) ==> Resolve(legacy, OldName(reverse, g)) == Resolve(legacy, g);
    if q in Resolved(legacy, old_) {
      var k :| k in Granted(old_) && Resolve(legacy, k) == q;
      var g :| g in Granted(start) && OldName(reverse, g) == k;
      assert Resolve(legacy, g) == q;
    }
    if q in Resolved(legacy, start) {
      var g :| g in Granted(start) && Resolve(legacy, g) == q;
      var k := OldName(reverse, g);
      assert k in old_ && k in Granted(old_);
    }
  }
}
