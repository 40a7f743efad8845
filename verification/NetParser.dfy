/** Reading the `netN` strings in which guest configurations describe network cards. */
module NetParser {
  import opened Wrappers
  import opened PyText
  import Decimal

  datatype Nic = Nic(key: string, index: nat, model: Option<string>, mac: Option<string>, bridge: Option<string>,
                     vlanTag: Option<int>, trunks: seq<int>, firewall: bool, linkDown: bool, name: Option<string>,
                     ip: Option<string>, ip6: Option<string>, gw: Option<string>, gw6: Option<string>,
                     mtu: Option<int>, queues: Option<int>, raw: string)

  // Card models of the QEMU dialect; the model is the key that carries the MAC address.
  const QEMU_MODELS := {
    "virtio", "e1000", "e1000e", "e1000-82540em", "e1000-82544gc", "e1000-82545em", "rtl8139", "vmxnet3",
    "ne2k_pci", "ne2k_isa", "pcnet", "i82551", "i82557b", "i82559er"
  }

  const YES := {"1", "true", "yes", "on"}

  function AsBool(value: string): bool {
    Lower(Strip(value)) in YES
  }

  function OrNone(s: string): Option<string> {
    if s == "" then None else Some(s)
  }

  function Ints(parts: seq<string>): seq<int> {
    if parts == [] then []
    else (match ParseInt(parts[0]) case Some(i) => [i] case None => []) + Ints(parts[1..])
  }

  // ---------- one option ----------

  // The fields an option can set. `Rate` and unknown options set none of those modelled.
  datatype Slot = Mac(model: Option<string>) | Bridge | Tag | Trunks | Firewall | LinkDown | Name | Ip | Ip6 | Gw | Gw6
                | Mtu | Queues | Nothing

  function SlotOf(opt: string): Slot {
    if opt in QEMU_MODELS then Mac(Some(opt))
    else if opt == "hwaddr" then Mac(None)
    else if opt == "bridge" then Bridge
    else if opt == "tag" then Tag
    else if opt == "trunks" then Trunks
    else if opt == "firewall" then Firewall
    else if opt == "link_down" then LinkDown
    else if opt == "name" then Name
    else if opt == "ip" then Ip
    else if opt == "ip6" then Ip6
    else if opt == "gw" then Gw
    else if opt == "gw6" then Gw6
    else if opt == "mtu" then Mtu
    else if opt == "queues" then Queues
    else Nothing
  }

  datatype Content = Text(text: Option<string>) | Number(number: Option<int>) | Numbers(numbers: seq<int>) | Flag(flag: bool)

  // What an option's value is read as.
  function Read(slot: Slot, val: string): Content {
    match slot
    case Mac(_) => Text(OrNone(Upper(val)))
    case Tag => Number(ParseInt(val))
    case Mtu => Number(ParseInt(val))
    case Queues => Number(ParseInt(val))
    case Trunks => Numbers(Ints(Split(val, ';')))
    case Firewall => Flag(AsBool(val))
    case LinkDown => Flag(AsBool(val))
    case _ => Text(OrNone(val))
  }

  function Store(nic: Nic, slot: Slot, c: Content): Nic {
    match (slot, c)
    case (Mac(Some(model)), Text(mac)) => nic.(model := Some(model), mac := mac)
    case (Mac(None), Text(mac)) => nic.(mac := mac)
    case (Bridge, Text(bridge)) => nic.(bridge := bridge)
    case (Tag, Number(tag)) => nic.(vlanTag := tag)
    case (Trunks, Numbers(trunks)) => nic.(trunks := trunks)
    case (Firewall, Flag(on)) => nic.(firewall := on)
    case (LinkDown, Flag(on)) => nic.(linkDown := on)
    case (Name, Text(name)) => nic.(name := name)
    case (Ip, Text(ip)) => nic.(ip := ip)
    case (Ip6, Text(ip)) => nic.(ip6 := ip)
    case (Gw, Text(gw)) => nic.(gw := gw)
    case (Gw6, Text(gw)) => nic.(gw6 := gw)
    case (Mtu, Number(mtu)) => nic.(mtu := mtu)
    case (Queues, Number(queues)) => nic.(queues := queues)
    case _ => nic
  }

  function Fill(nic: Nic, slot: Slot, val: string): Nic {
    Store(nic, slot, Read(slot, val))
  }

  // ---------- one token ----------

  function UpTo(s: string, c: char): (n: nat)
    ensures n <= |s|
    ensures forall i :: 0 <= i < n ==> s[i] != c
    ensures n < |s| ==> s[n] == c
  {
    if s == "" || s[0] == c then 0 else 1 + UpTo(s[1..], c)
  }

  // The option and its value, both trimmed; bare tokens have none.
  function Option_(token: string): Option<(string, string)> {
    var t := Strip(token);
    var n := UpTo(t, '=');
    if n == |t| then None else Some((Lower(Strip(t[..n])), Strip(t[n + 1..])))
  }

  function Apply(nic: Nic, token: string): Nic {
    match Option_(token)
    case Some((opt, val)) => Fill(nic, SlotOf(opt), val)
    case None => nic
  }

  function ApplyAll(nic: Nic, tokens: seq<string>): Nic
    decreases |tokens|
  {
    if tokens == [] then nic else ApplyAll(Apply(nic, tokens[0]), tokens[1..])
  }

  // ---------- the whole string ----------

  // The number after `net`; a final line break does not disturb the match.
  function NetIndex(key: string): Option<nat> {
    var k := if key != "" && key[|key| - 1] == '\n' then key[..|key| - 1] else key;
    if |k| > 3 && k[..3] == "net" && Decimal.AllDigits(k[3..]) then Some(Decimal.Value(k[3..])) else None
  }

  function Blank(key: string, raw: string): Nic {
    Nic(key, if NetIndex(key).Some? then NetIndex(key).value else 0, None, None, None, None, [], false, false, None,
        None, None, None, None, None, None, raw)
  }

  function ParsedNic(key: string, value: string): Nic {
    ApplyAll(Blank(key, value), Split(value, ','))
  }

  lemma {:induction false} ApplyAllAppend(nic: Nic, a: seq<string>, b: seq<string>)
    ensures ApplyAll(nic, a + b) == ApplyAll(ApplyAll(nic, a), b)
    decreases |a|
  {
    if a == [] {
      assert a + b == b;
    } else {
      assert (a + b)[1..] == a[1..] + b;
      ApplyAllAppend(Apply(nic, a[0]), a[1..], b);
    }
  }

  method ParseNetString(key: string, value: string) returns (nic: Nic)
    ensures nic == ParsedNic(key, value)
  {
    var index := NetIndex(key);
    nic := Blank(key, value);
    ghost var start := nic;
    var tokens := Split(value, ',');
    for i := 0 to |tokens|
      invariant nic == ApplyAll(start, tokens[..i])
    {
      ApplyAllAppend(start, tokens[..i], [tokens[i]]);
      assert tokens[..i + 1] == tokens[..i] + [tokens[i]];
      assert [tokens[i]][1..] == [];
      var token := Strip(tokens[i]);
      var eq := UpTo(token, '=');
      if eq < |token| {
        var opt, val := Lower(Strip(token[..eq])), Strip(token[eq + 1..]);
        nic := Fill(nic, SlotOf(opt), val);
      }
    }
    assert tokens[..|tokens|] == tokens;
  }

  // ---------- the order of tokens ----------

  predicate Separate(a: Slot, b: Slot) {
    a == Nothing || b == Nothing || (a != b && !(a.Mac? && b.Mac?))
  }

  // Two tokens that name different options, at most one of which carries the MAC address.
  predicate Independent(x: string, y: string) {
    match (Option_(x), Option_(y))
    case (Some(a), Some(b)) => Separate(SlotOf(a.0), SlotOf(b.0))
    case _ => true
  }

  lemma SeparateFillsCommute(nic: Nic, a: Slot, v: string, b: Slot, w: string)
    requires Separate(a, b)
    ensures Fill(Fill(nic, a, v), b, w) == Fill(Fill(nic, b, w), a, v)
  {
    SeparateStoresCommute(nic, a, Read(a, v), b, Read(b, w));
  }

  // The fields of a card, to reason about one at a time.
  datatype Field = OfModel | OfMac | OfBridge | OfTag | OfTrunks | OfFirewall | OfLinkDown | OfName | OfIp | OfIp6 | OfGw
                 | OfGw6 | OfMtu | OfQueues | OfNothing

  function Get(nic: Nic, f: Field): Content {
    match f
    case OfModel => Text(nic.model)
    case OfMac => Text(nic.mac)
    case OfBridge => Text(nic.bridge)
    case OfTag => Number(nic.vlanTag)
    case OfTrunks => Numbers(nic.trunks)
    case OfFirewall => Flag(nic.firewall)
    case OfLinkDown => Flag(nic.linkDown)
    case OfName => Text(nic.name)
    case OfIp => Text(nic.ip)
    case OfIp6 => Text(nic.ip6)
    case OfGw => Text(nic.gw)
    case OfGw6 => Text(nic.gw6)
    case OfMtu => Number(nic.mtu)
    case OfQueues => Number(nic.queues)
    case OfNothing => Flag(false)
  }

  function MainField(slot: Slot): Field {
    match slot
    case Mac(_) => OfMac
    case Bridge => OfBridge
    case Tag => OfTag
    case Trunks => OfTrunks
    case Firewall => OfFirewall
    case LinkDown => OfLinkDown
    case Name => OfName
    case Ip => OfIp
    case Ip6 => OfIp6
    case Gw => OfGw
    case Gw6 => OfGw6
    case Mtu => OfMtu
    case Queues => OfQueues
    case Nothing => OfNothing
  }

  predicate SameKind(c: Content, d: Content) {
    (c.Text? <==> d.Text?) && (c.Number? <==> d.Number?) && (c.Numbers? <==> d.Numbers?)
  }

  // What storing under a slot makes of a field.
  function Stored(slot: Slot, c: Content, f: Field, old_: Content): Content {
    if slot == Nothing then old_
    else if f == MainField(slot) && SameKind(c, old_) then c
    else if f == OfModel && slot.Mac? && slot.model.Some? && c.Text? then Text(slot.model)
    else old_
  }

  lemma StoreGetMac(nic: Nic, slot: Slot, c: Content, f: Field)
    requires slot.Mac?
    ensures Get(Store(nic, slot, c), f) == Stored(slot, c, f, Get(nic, f))
  {
  }

  lemma StoreGetLink(nic: Nic, slot: Slot, c: Content, f: Field)
    requires slot.Bridge? || slot.Tag? || slot.Trunks? || slot.Firewall? || slot.LinkDown?
    ensures Get(Store(nic, slot, c), f) == Stored(slot, c, f, Get(nic, f))
  {
  }

  lemma StoreGetAddress(nic: Nic, slot: Slot, c: Content, f: Field)
    requires slot.Name? || slot.Ip? || slot.Ip6? || slot.Gw? || slot.Gw6?
    ensures Get(Store(nic, slot, c), f) == Stored(slot, c, f, Get(nic, f))
  {
  }

  lemma StoreGetRest(nic: Nic, slot: Slot, c: Content, f: Field)
    requires slot.Mtu? || slot.Queues? || slot.Nothing?
    ensures Get(Store(nic, slot, c), f) == Stored(slot, c, f, Get(nic, f))
  {
  }

  lemma StoreGet(nic: Nic, slot: Slot, c: Content, f: Field)
    ensures Get(Store(nic, slot, c), f) == Stored(slot, c, f, Get(nic, f))
  {
    if slot.Mac? {
      StoreGetMac(nic, slot, c, f);
    } else if slot.Bridge? || slot.Tag? || slot.Trunks? || slot.Firewall? || slot.LinkDown? {
      StoreGetLink(nic, slot, c, f);
    } else if slot.Name? || slot.Ip? || slot.Ip6? || slot.Gw? || slot.Gw6? {
      StoreGetAddress(nic, slot, c, f);
    } else {
      StoreGetRest(nic, slot, c, f);
    }
  }

  lemma SeparateStoredCommute(a: Slot, c: Content, b: Slot, d: Content, f: Field, old_: Content)
    requires Separate(a, b)
    ensures Stored(b, d, f, Stored(a, c, f, old_)) == Stored(a, c, f, Stored(b, d, f, old_))
  {
  }

  lemma SameFieldsSameNic(x: Nic, y: Nic)
    requires x.key == y.key && x.index == y.index && x.raw == y.raw
    requires forall f :: Get(x, f) == Get(y, f)
    ensures x == y
  {
    assert Get(x, OfModel) == Get(y, OfModel) && Get(x, OfMac) == Get(y, OfMac) && Get(x, OfBridge) == Get(y, OfBridge);
    assert Get(x, OfTag) == Get(y, OfTag) && Get(x, OfTrunks) == Get(y, OfTrunks) && Get(x, OfFirewall) == Get(y, OfFirewall);
    assert Get(x, OfLinkDown) == Get(y, OfLinkDown) && Get(x, OfName) == Get(y, OfName) && Get(x, OfIp) == Get(y, OfIp);
    assert Get(x, OfIp6) == Get(y, OfIp6) && Get(x, OfGw) == Get(y, OfGw) && Get(x, OfGw6) == Get(y, OfGw6);
    assert Get(x, OfMtu) == Get(y, OfMtu) && Get(x, OfQueues) == Get(y, OfQueues);
  }

  lemma StoreKeepsKey(nic: Nic, slot: Slot, c: Content)
    ensures var after := Store(nic, slot, c); after.key == nic.key && after.index == nic.index && after.raw == nic.raw
  {
  }

  lemma SeparateStoresCommute(nic: Nic, a: Slot, c: Content, b: Slot, d: Content)
    requires Separate(a, b)
    ensures Store(Store(nic, a, c), b, d) == Store(Store(nic, b, d), a, c)
  {
    var x, y := Store(nic, a, c), Store(nic, b, d);
    StoreKeepsKey(nic, a, c);
    StoreKeepsKey(nic, b, d);
    StoreKeepsKey(x, b, d);
    StoreKeepsKey(y, a, c);
    forall f ensures Get(Store(x, b, d), f) == Get(Store(y, a, c), f) {
      StoreGet(nic, a, c, f);
      StoreGet(x, b, d, f);
      StoreGet(nic, b, d, f);
      StoreGet(y, a, c, f);
      SeparateStoredCommute(a, c, b, d, f, Get(nic, f));
    }
    SameFieldsSameNic(Store(x, b, d), Store(y, a, c));
  }

  // Of two tokens for one option, other than the MAC address, the later one counts.
  lemma LaterTokenCounts(nic: Nic, slot: Slot, first: string, second: string)
    requires !slot.Mac?
    ensures Fill(Fill(nic, slot, first), slot, second) == Fill(nic, slot, second)
  {
  }

  lemma IndependentTokensCommute(nic: Nic, x: string, y: string)
    requires x == y || Independent(x, y)
    ensures Apply(Apply(nic, x), y) == Apply(Apply(nic, y), x)
  {
    match (Option_(x), Option_(y))
    case (Some(a), Some(b)) =>
      if x != y {
        SeparateFillsCommute(nic, SlotOf(a.0), a.1, SlotOf(b.0), b.1);
      }
    case _ =>
  }

  predicate AllIndependent(tokens: seq<string>) {
    forall i, j :: 0 <= i < j < |tokens| ==> tokens[i] == tokens[j] || (Independent(tokens[i], tokens[j]) && Independent(tokens[j], tokens[i]))
  }

  lemma {:induction false} MoveToFront(nic: Nic, before: seq<string>, x: string)
    requires forall i :: 0 <= i < |before| ==> before[i] == x || Independent(before[i], x)
    ensures ApplyAll(nic, before + [x]) == ApplyAll(Apply(nic, x), before)
    decreases |before|
  {
    if before == [] {
      assert before + [x] == [x] && [x][1..] == [];
    } else {
      assert (before + [x])[1..] == before[1..] + [x];
      MoveToFront(Apply(nic, before[0]), before[1..], x);
      IndependentTokensCommute(nic, before[0], x);
    }
  }

  lemma TakeOut(b: seq<string>, k: nat)
    requires k < |b|
    ensures multiset(b[..k] + b[k + 1..]) == multiset(b) - multiset{b[k]}
  {
    assert b == b[..k] + [b[k]] + b[k + 1..];
  }

  lemma TakeOutKeepsIndependence(b: seq<string>, k: nat)
    requires k < |b| && AllIndependent(b)
    ensures AllIndependent(b[..k] + b[k + 1..])
  {
    var rest := b[..k] + b[k + 1..];
    assert forall i :: 0 <= i < |rest| ==> rest[i] == b[if i < k then i else i + 1];
  }

  lemma PullForward(nic: Nic, b: seq<string>, k: nat)
    requires k < |b| && AllIndependent(b)
    ensures ApplyAll(nic, b) == ApplyAll(Apply(nic, b[k]), b[..k] + b[k + 1..])
  {
    assert b == b[..k] + [b[k]] + b[k + 1..];
    ApplyAllAppend(nic, b[..k] + [b[k]], b[k + 1..]);
    MoveToFront(nic, b[..k], b[k]);
    ApplyAllAppend(Apply(nic, b[k]), b[..k], b[k + 1..]);
  }

  // The order of independent tokens does not matter.
  lemma {:induction false} OrderOfTokensDoesNotMatter(nic: Nic, a: seq<string>, b: seq<string>)
    requires multiset(a) == multiset(b) && AllIndependent(b)
    ensures ApplyAll(nic, a) == ApplyAll(nic, b)
    decreases |a|
  {
    if a == [] {
      assert |b| == |multiset(b)|;
    } else {
      assert a == [a[0]] + a[1..];
      assert a[0] in multiset(b);
      var k :| 0 <= k < |b| && b[k] == a[0];
      TakeOut(b, k);
      TakeOutKeepsIndependence(b, k);
      PullForward(nic, b, k);
      OrderOfTokensDoesNotMatter(Apply(nic, a[0]), a[1..], b[..k] + b[k + 1..]);
    }
  }

  lemma TokensMayBeReordered(key: string, value: string, other: string)
    requires multiset(Split(value, ',')) == multiset(Split(other, ',')) && AllIndependent(Split(value, ','))
    ensures ParsedNic(key, other) == ParsedNic(key, value).(raw := other)
  {
    OrderOfTokensDoesNotMatter(Blank(key, other), Split(other, ','), Split(value, ','));
    RawIsKept(Blank(key, value), Split(value, ','), other);
  }

  lemma StoreKeepsRaw(nic: Nic, slot: Slot, c: Content, raw: string)
    ensures Store(nic.(raw := raw), slot, c) == Store(nic, slot, c).(raw := raw)
  {
    var x, y := Store(nic.(raw := raw), slot, c), Store(nic, slot, c).(raw := raw);
    StoreKeepsKey(nic, slot, c);
    StoreKeepsKey(nic.(raw := raw), slot, c);
    forall f ensures Get(x, f) == Get(y, f) {
      StoreGet(nic, slot, c, f);
      StoreGet(nic.(raw := raw), slot, c, f);
    }
    SameFieldsSameNic(x, y);
  }

  lemma {:induction false} RawIsKept(nic: Nic, tokens: seq<string>, raw: string)
    ensures ApplyAll(nic.(raw := raw), tokens) == ApplyAll(nic, tokens).(raw := raw)
    decreases |tokens|
  {
    if tokens != [] {
      RawIsKept(Apply(nic, tokens[0]), tokens[1..], raw);
      match Option_(tokens[0])
      case Some((opt, val)) => StoreKeepsRaw(nic, SlotOf(opt), Read(SlotOf(opt), val), raw);
      case None =>
    }
  }

  // ---------- printing ----------

  // A value that survives: trimmed, and without the separator.
  predicate Plain(s: string) {
    Trimmed(s) && ',' !in s
  }

  function Token(pair: (string, string)): string {
    pair.0 + "=" + pair.1
  }

  function Tokens(pairs: seq<(string, string)>): (tokens: seq<string>)
    ensures |tokens| == |pairs| && forall i :: 0 <= i < |pairs| ==> tokens[i] == Token(pairs[i])
  {
    seq(|pairs|, i requires 0 <= i < |pairs| => Token(pairs[i]))
  }

  predicate IsKey(opt: string) {
    opt != "" && Plain(opt) && '=' !in opt && Lower(opt) == opt
  }

  lemma {:induction false} UpToAfter(s: string, c: char, rest: string)
    requires c !in s
    ensures UpTo(s + [c] + rest, c) == |s|
  {
    if s == "" {
    } else {
      assert (s + [c] + rest)[1..] == s[1..] + [c] + rest;
      UpToAfter(s[1..], c, rest);
    }
  }

  // The name of an option may be in any case.
  lemma AnyCaseIsRead(opt: string, val: string)
    requires opt != "" && Plain(opt) && '=' !in opt && Plain(val)
    ensures Option_(Token((opt, val))) == Some((Lower(opt), val))
  {
    var t := Token((opt, val));
    assert t == opt + ['='] + val;
    assert t[0] == opt[0] && t[|t| - 1] == if val == "" then '=' else val[|val| - 1];
    TrimmedIsKept(t);
    TrimmedIsKept(opt);
    TrimmedIsKept(val);
    UpToAfter(opt, '=', val);
    assert t[..|opt|] == opt && t[|opt| + 1..] == val;
  }

  lemma TokenIsRead(opt: string, val: string)
    requires IsKey(opt) && Plain(val)
    ensures Option_(Token((opt, val))) == Some((opt, val))
  {
    AnyCaseIsRead(opt, val);
  }

  // A MAC address is kept in upper case, whichever option carries it.
  lemma MacIsUpper(nic: Nic, opt: string, val: string)
    requires IsKey(opt) && Plain(val) && val != "" && (opt in QEMU_MODELS || opt == "hwaddr")
    ensures Apply(nic, Token((opt, val))).mac == Some(Upper(val))
    ensures Apply(nic, Token((opt, val))).model == if opt in QEMU_MODELS then Some(opt) else nic.model
  {
    TokenIsRead(opt, val);
  }

  function FillAll(nic: Nic, pairs: seq<(string, string)>): Nic
    decreases |pairs|
  {
    if pairs == [] then nic else FillAll(Fill(nic, SlotOf(pairs[0].0), pairs[0].1), pairs[1..])
  }

  predicate Printable(pairs: seq<(string, string)>) {
    forall i :: 0 <= i < |pairs| ==> IsKey(pairs[i].0) && Plain(pairs[i].1)
  }

  lemma {:induction false} TokensAreRead(nic: Nic, pairs: seq<(string, string)>)
    requires Printable(pairs)
    ensures ApplyAll(nic, Tokens(pairs)) == FillAll(nic, pairs)
    decreases |pairs|
  {
    if pairs != [] {
      TokenIsRead(pairs[0].0, pairs[0].1);
      assert Tokens(pairs)[1..] == Tokens(pairs[1..]);
      TokensAreRead(Fill(nic, SlotOf(pairs[0].0), pairs[0].1), pairs[1..]);
    }
  }

  function Printed(pairs: seq<(string, string)>): string {
    Join(Tokens(pairs), ',')
  }

  // A printed list of options is read option by option.
  lemma PrintedIsFilled(key: string, pairs: seq<(string, string)>)
    requires Printable(pairs)
    ensures ParsedNic(key, Printed(pairs)) == FillAll(Blank(key, Printed(pairs)), pairs)
  {
    var raw := Printed(pairs);
    if pairs == [] {
      assert raw == "" && Split(raw, ',') == [""];
      assert [""][1..] == [] && Strip("") == "";
    } else {
      forall i | 0 <= i < |pairs| ensures ',' !in Tokens(pairs)[i] {
        assert ',' !in pairs[i].0 && ',' !in pairs[i].1;
      }
      SplitJoin(Tokens(pairs), ',');
      TokensAreRead(Blank(key, raw), pairs);
    }
  }
}
