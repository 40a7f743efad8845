/** Parsed YAML documents. A dictionary keeps its entries in order, and keys are text. */
module YamlTree {
  import opened Wrappers

  // `Other` is a scalar of another type (a float, a date) with the text it converts to.
  datatype Yaml = Null | Bool(b: bool) | Int(i: int) | Str(s: string) | List(items: seq<Yaml>)
                | Dict(entries: seq<(string, Yaml)>) | Other(text: string)

  type Entries = seq<(string, Yaml)>

  function Get(d: Entries, key: string): Option<Yaml> {
    if d == [] then None
    else if d[0].0 == key then Some(d[0].1)
    else Get(d[1..], key)
  }

  function ServicesOf(doc: Entries): Entries {
    match Get(doc, "services") case Some(Dict(services)) => services case _ => []
  }

  predicate HasKey(d: Entries, key: string) {
    Get(d, key).Some?
  }

  // A dictionary never holds a key twice.
  predicate DistinctKeys(d: Entries) {
    d == [] || (!HasKey(d[1..], d[0].0) && DistinctKeys(d[1..]))
  }

  // Assignment to a key: in place when present, at the end when not.
  function Put(d: Entries, key: string, v: Yaml): (r: Entries) {
    if d == [] then [(key, v)]
    else if d[0].0 == key then [(key, v)] + d[1..]
    else [d[0]] + Put(d[1..], key, v)
  }

  function Drop(d: Entries, key: string): (r: Entries) {
    if d == [] then []
    else if d[0].0 == key then d[1..]
    else [d[0]] + Drop(d[1..], key)
  }

  predicate Truthy(v: Yaml) {
    match v
    case Null => false
    case Bool(b) => b
    case Int(i) => i != 0
    case Str(s) => s != ""
    case List(items) => items != []
    case Dict(entries) => entries != []
    case Other(_) => true
  }

  function TruthyAt(d: Entries, key: string): bool {
    match Get(d, key) case Some(v) => Truthy(v) case None => false
  }

  lemma {:induction false} PutGet(d: Entries, key: string, v: Yaml)
    ensures Get(Put(d, key, v), key) == Some(v)
    ensures forall k :: k != key ==> Get(Put(d, key, v), k) == Get(d, k)
    ensures DistinctKeys(d) ==> DistinctKeys(Put(d, key, v))
  {
    if d != [] && d[0].0 != key {
      PutGet(d[1..], key, v);
      assert Put(d, key, v)[1..] == Put(d[1..], key, v);
    } else if d != [] {
      assert Put(d, key, v)[1..] == d[1..];
    }
  }

  lemma {:induction false} PutSame(d: Entries, key: string, v: Yaml)
    requires Get(d, key) == Some(v)
    ensures Put(d, key, v) == d
  {
    if d[0].0 != key {
      PutSame(d[1..], key, v);
    }
  }

  lemma {:induction false} DropGet(d: Entries, key: string)
    ensures DistinctKeys(d) ==> Get(Drop(d, key), key) == None
    ensures forall k :: k != key ==> Get(Drop(d, key), k) == Get(d, k)
    ensures DistinctKeys(d) ==> DistinctKeys(Drop(d, key))
  {
    if d != [] && d[0].0 != key {
      DropGet(d[1..], key);
      assert Drop(d, key)[1..] == Drop(d[1..], key);
    }
  }

  function KeysOf(d: Entries): (ks: seq<string>)
    ensures |ks| == |d| && forall i :: 0 <= i < |d| ==> ks[i] == d[i].0
  {
    seq(|d|, i requires 0 <= i < |d| => d[i].0)
  }

  lemma KeysOfCons(first: (string, Yaml), rest: Entries)
    ensures KeysOf([first] + rest) == [first.0] + KeysOf(rest)
  {
  }

  lemma {:induction false} PutKeepsKeys(d: Entries, key: string, v: Yaml)
    requires HasKey(d, key)
    ensures KeysOf(Put(d, key, v)) == KeysOf(d)
  {
    assert d == [d[0]] + d[1..];
    KeysOfCons(d[0], d[1..]);
    if d[0].0 != key {
      PutKeepsKeys(d[1..], key, v);
      KeysOfCons(d[0], Put(d[1..], key, v));
    } else {
      KeysOfCons((key, v), d[1..]);
    }
  }

  lemma {:induction false} GetEntry(d: Entries, i: nat)
    requires i < |d|
    ensures HasKey(d, d[i].0)
    ensures DistinctKeys(d) ==> Get(d, d[i].0) == Some(d[i].1)
  {
    if i > 0 {
      GetEntry(d[1..], i - 1);
      assert d[1..][i - 1] == d[i];
    }
  }
}
