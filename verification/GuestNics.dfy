/** The network cards of a whole guest configuration, ordered by interface index. */
module GuestNics {
  import opened Wrappers
  import opened NetParser
  import opened PyText
  import Decimal

  datatype ConfigValue = Words(s: string) | OtherValue

  // A configuration keeps its entries in the order they were given.
  type Config = seq<(string, ConfigValue)>

  predicate IsCard(entry: (string, ConfigValue)) {
    NetIndex(entry.0).Some? && entry.1.Words?
  }

  // The cards, in the order of the configuration.
  function Listed(config: Config): seq<Nic> {
    if config == [] then []
    else
      var n := |config| - 1;
      Listed(config[..n]) + if IsCard(config[n]) then [ParsedNic(config[n].0, config[n].1.s)] else []
  }

  predicate Ordered(nics: seq<Nic>) {
    forall i, j :: 0 <= i < j < |nics| ==> nics[i].index <= nics[j].index
  }

  // The cards with one index, in their order.
  function WithIndex(nics: seq<Nic>, index: nat): seq<Nic> {
    if nics == [] then [] else (if nics[0].index == index then [nics[0]] else []) + WithIndex(nics[1..], index)
  }

  // Before the first card with a larger index.
  function Insert(nics: seq<Nic>, nic: Nic): seq<Nic> {
    if nics == [] then [nic]
    else if nic.index < nics[0].index then [nic] + nics
    else [nics[0]] + Insert(nics[1..], nic)
  }

  function SortByIndex(nics: seq<Nic>): seq<Nic> {
    if nics == [] then [] else Insert(SortByIndex(nics[..|nics| - 1]), nics[|nics| - 1])
  }

  lemma {:induction false} InsertAdds(nics: seq<Nic>, nic: Nic)
    ensures multiset(Insert(nics, nic)) == multiset(nics) + multiset{nic}
  {
    if nics != [] && nic.index >= nics[0].index {
      InsertAdds(nics[1..], nic);
      MultisetOfCons(nics[0], nics[1..]);
      MultisetOfCons(nics[0], Insert(nics[1..], nic));
      assert nics == [nics[0]] + nics[1..];
    } else {
      MultisetOfCons(nic, nics);
      assert [nic] + nics == Insert(nics, nic);
    }
  }

  lemma MultisetOfCons(x: Nic, rest: seq<Nic>)
    ensures multiset([x] + rest) == multiset{x} + multiset(rest)
  {
  }

  predicate AllFrom(nics: seq<Nic>, index: nat) {
    forall i :: 0 <= i < |nics| ==> index <= nics[i].index
  }

  lemma {:induction false} InsertStaysFrom(nics: seq<Nic>, nic: Nic, index: nat)
    requires AllFrom(nics, index) && index <= nic.index
    ensures AllFrom(Insert(nics, nic), index)
  {
    if nics != [] && nic.index >= nics[0].index {
      InsertStaysFrom(nics[1..], nic, index);
    }
  }

  lemma {:induction false} InsertKeepsOrder(nics: seq<Nic>, nic: Nic)
    requires Ordered(nics)
    ensures Ordered(Insert(nics, nic))
  {
    if nics != [] && nic.index >= nics[0].index {
      InsertKeepsOrder(nics[1..], nic);
      InsertStaysFrom(nics[1..], nic, nics[0].index);
    }
  }

  lemma WithIndexCons(first: Nic, rest: seq<Nic>, index: nat)
    ensures WithIndex([first] + rest, index) == (if first.index == index then [first] else []) + WithIndex(rest, index)
  {
  }

  lemma {:induction false} InsertIsStable(nics: seq<Nic>, nic: Nic, index: nat)
    requires Ordered(nics)
    ensures WithIndex(Insert(nics, nic), index) == WithIndex(nics, index) + if nic.index == index then [nic] else []
  {
    if nics == [] {
      WithIndexCons(nic, [], index);
    } else if nic.index < nics[0].index {
      WithIndexCons(nic, nics, index);
      if nic.index == index {
        NoneWithSmallerIndex(nics, index);
      }
    } else {
      WithIndexCons(nics[0], Insert(nics[1..], nic), index);
      InsertIsStable(nics[1..], nic, index);
    }
  }

  lemma {:induction false} NoneWithSmallerIndex(nics: seq<Nic>, index: nat)
    requires forall i :: 0 <= i < |nics| ==> index < nics[i].index
    ensures WithIndex(nics, index) == []
  {
    if nics != [] {
      NoneWithSmallerIndex(nics[1..], index);
    }
  }

  lemma {:induction false} WithIndexSnoc(nics: seq<Nic>, nic: Nic, index: nat)
    ensures WithIndex(nics + [nic], index) == WithIndex(nics, index) + if nic.index == index then [nic] else []
  {
    if nics == [] {
      assert nics + [nic] == [nic] && [nic][1..] == [];
    } else {
      assert (nics + [nic])[1..] == nics[1..] + [nic];
      WithIndexSnoc(nics[1..], nic, index);
    }
  }

  // Sorting orders the cards, loses none, and keeps cards of one index in their order.
  lemma {:induction false} SortIsStable(nics: seq<Nic>)
    ensures Ordered(SortByIndex(nics))
    ensures multiset(SortByIndex(nics)) == multiset(nics)
    ensures forall index :: WithIndex(SortByIndex(nics), index) == WithIndex(nics, index)
  {
    if nics != [] {
      var front, last := nics[..|nics| - 1], nics[|nics| - 1];
      SortIsStable(front);
      InsertKeepsOrder(SortByIndex(front), last);
      InsertAdds(SortByIndex(front), last);
      assert nics == front + [last];
      forall index: nat ensures WithIndex(SortByIndex(nics), index) == WithIndex(nics, index) {
        InsertIsStable(SortByIndex(front), last, index);
        WithIndexSnoc(front, last, index);
      }
    }
  }

  method ParseGuestNics(config: Option<Config>) returns (nics: seq<Nic>)
    ensures var listed := Listed(if config.Some? then config.value else []);
            && Ordered(nics)
            && multiset(nics) == multiset(listed)
            && forall index :: WithIndex(nics, index) == WithIndex(listed, index)
  {
    var entries := if config.Some? then config.value else [];
    nics := [];
    for i := 0 to |entries|
      invariant nics == Listed(entries[..i])
    {
      assert entries[..i + 1][..i] == entries[..i];
      if NetIndex(entries[i].0).Some? && entries[i].1.Words? {
        var nic := ParseNetString(entries[i].0, entries[i].1.s);
        nics := nics + [nic];
      }
    }
    assert entries[..|entries|] == entries;
    SortIsStable(nics);
    nics := SortByIndex(nics);
  }

  predicate Yields(config: Config, i: int, nic: Nic) {
    0 <= i < |config| && IsCard(config[i]) && nic == ParsedNic(config[i].0, config[i].1.s)
  }

  // Every card is one `netN` entry read, and every such entry gives a card.
  lemma {:induction false} ListedIs(config: Config, nic: Nic)
    ensures nic in Listed(config) <==> exists i :: Yields(config, i, nic)
  {
    if config != [] {
      var n := |config| - 1;
      var front := config[..n];
      ListedIs(front, nic);
      assert forall i :: i != n ==> (Yields(front, i, nic) <==> Yields(config, i, nic));
      if nic in Listed(config) && nic !in Listed(front) {
        assert Yields(config, n, nic);
      }
    }
  }

  // The keys of cards are `net` and a number, alone on the line.
  lemma CardKeys(key: string)
    ensures NetIndex(key).Some? <==> exists digits :: IsCardKey(key, digits)
    ensures forall digits :: IsCardKey(key, digits) ==> NetIndex(key) == Some(Decimal.Value(digits))
  {
    forall digits | IsCardKey(key, digits) ensures NetIndex(key) == Some(Decimal.Value(digits)) {
      var k := "net" + digits;
      assert k[3..] == digits && k[..3] == "net";
      assert (k + "\n")[..|k|] == k;
      assert digits[|digits| - 1] == k[|k| - 1];
    }
    if NetIndex(key).Some? {
      var k := if key != "" && key[|key| - 1] == '\n' then key[..|key| - 1] else key;
      assert k == k[..3] + k[3..];
      assert key != k ==> key == k + "\n";
      assert IsCardKey(key, k[3..]);
    }
  }

  predicate IsCardKey(key: string, digits: string) {
    digits != "" && Decimal.AllDigits(digits) && (key == "net" + digits || key == "net" + digits + "\n")
  }

  lemma CardNumbers(n: nat)
    ensures NetIndex("net" + Decimal.Print(n)) == Some(n)
  {
    CardKeys("net" + Decimal.Print(n));
    assert IsCardKey("net" + Decimal.Print(n), Decimal.Print(n));
    Decimal.ReadsBack(n);
  }
}
