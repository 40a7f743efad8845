/** Printing a network card and reading it back. */
module NetPrinting {
  import opened Wrappers
  import opened PyText
  import opened NetParser
  import Decimal

  // ---------- printing ----------

  function Maybe(opt: string, v: Option<string>): seq<(string, string)> {
    match v case Some(s) => [(opt, s)] case None => []
  }

  function MaybeInt(opt: string, v: Option<int>): seq<(string, string)> {
    match v case Some(i) => [(opt, Decimal.PrintInt(i))] case None => []
  }

  function Switch(opt: string, on: bool): seq<(string, string)> {
    if on then [(opt, "1")] else []
  }

  function PrintInts(list: seq<int>): (r: seq<string>)
    ensures |r| == |list| && forall i :: 0 <= i < |list| ==> r[i] == Decimal.PrintInt(list[i])
  {
    seq(|list|, i requires 0 <= i < |list| => Decimal.PrintInt(list[i]))
  }

  function Identity(nic: Nic): seq<(string, string)> {
    (match nic.model
     case Some(model) => [(model, match nic.mac case Some(mac) => mac case None => "")]
     case None => Maybe("hwaddr", nic.mac))
    + Maybe("name", nic.name)
  }

  function Attachment(nic: Nic): seq<(string, string)> {
    Maybe("bridge", nic.bridge) + MaybeInt("tag", nic.vlanTag)
    + if nic.trunks == [] then [] else [("trunks", Join(PrintInts(nic.trunks), ';'))]
  }

  function Switches(nic: Nic): seq<(string, string)> {
    Switch("firewall", nic.firewall) + Switch("link_down", nic.linkDown)
  }

  function Addresses(nic: Nic): seq<(string, string)> {
    (Maybe("ip", nic.ip) + Maybe("ip6", nic.ip6)) + (Maybe("gw", nic.gw) + Maybe("gw6", nic.gw6))
  }

  function Tuning(nic: Nic): seq<(string, string)> {
    MaybeInt("mtu", nic.mtu) + MaybeInt("queues", nic.queues)
  }

  function PairsOf(nic: Nic): seq<(string, string)> {
    Identity(nic) + (Attachment(nic) + (Switches(nic) + (Addresses(nic) + Tuning(nic))))
  }

  predicate PlainText(v: Option<string>) {
    v.Some? ==> v.value != "" && Plain(v.value)
  }

  // A card that can be written down: its index is that of its key, and its texts survive trimming and splitting.
  predicate WellFormed(nic: Nic) {
    && nic.index == Blank(nic.key, "").index
    && (nic.model.Some? ==> nic.model.value in QEMU_MODELS)
    && PlainText(nic.mac) && (nic.mac.Some? ==> Upper(nic.mac.value) == nic.mac.value)
    && PlainText(nic.bridge) && PlainText(nic.name)
    && PlainText(nic.ip) && PlainText(nic.ip6) && PlainText(nic.gw) && PlainText(nic.gw6)
  }

  // ---------- the option names ----------

  predicate SimpleChar(c: char) {
    'a' <= c <= 'z' || '0' <= c <= '9' || c == '-' || c == '_'
  }

  predicate Simple(s: string) {
    s != "" && forall i :: 0 <= i < |s| ==> SimpleChar(s[i])
  }

  lemma SimpleIsKey(s: string)
    requires Simple(s)
    ensures IsKey(s)
  {
  }

  lemma ModelsAreSimple()
    ensures forall m :: m in QEMU_MODELS ==> Simple(m)
  {
  }

  lemma NamesAreSimple()
    ensures Simple("hwaddr") && Simple("name") && Simple("bridge") && Simple("tag") && Simple("trunks")
    ensures Simple("firewall") && Simple("link_down")
    ensures Simple("ip") && Simple("ip6") && Simple("gw") && Simple("gw6") && Simple("mtu") && Simple("queues")
  {
  }

  lemma SlotsOfIdentity()
    ensures SlotOf("hwaddr") == Mac(None) && SlotOf("name") == Name
    ensures SlotOf("mtu") == Mtu && SlotOf("queues") == Queues
  {
  }

  lemma SlotsOfAttachment()
    ensures SlotOf("bridge") == Bridge && SlotOf("tag") == Tag && SlotOf("trunks") == Trunks
    ensures SlotOf("firewall") == Firewall && SlotOf("link_down") == LinkDown
  {
  }

  lemma SlotsOfAddresses()
    ensures SlotOf("ip") == Ip && SlotOf("ip6") == Ip6 && SlotOf("gw") == Gw && SlotOf("gw6") == Gw6
  {
  }

  // ---------- reading what was printed ----------

  lemma {:induction false} FillAllAppend(nic: Nic, a: seq<(string, string)>, b: seq<(string, string)>)
    ensures FillAll(nic, a + b) == FillAll(FillAll(nic, a), b)
    decreases |a|
  {
    if a == [] {
      assert a + b == b;
    } else {
      assert (a + b)[1..] == a[1..] + b;
      FillAllAppend(Fill(nic, SlotOf(a[0].0), a[0].1), a[1..], b);
    }
  }

  lemma FillOne(nic: Nic, opt: string, val: string)
    ensures FillAll(nic, [(opt, val)]) == Fill(nic, SlotOf(opt), val)
  {
  }

  predicate TextSlot(slot: Slot) {
    slot.Bridge? || slot.Name? || slot.Ip? || slot.Ip6? || slot.Gw? || slot.Gw6?
  }

  lemma FillText(nic: Nic, opt: string, v: Option<string>)
    requires PlainText(v) && TextSlot(SlotOf(opt))
    ensures FillAll(nic, Maybe(opt, v)) == if v.Some? then Store(nic, SlotOf(opt), Text(v)) else nic
  {
  }

  lemma FillInt(nic: Nic, opt: string, v: Option<int>)
    requires SlotOf(opt).Tag? || SlotOf(opt).Mtu? || SlotOf(opt).Queues?
    ensures FillAll(nic, MaybeInt(opt, v)) == if v.Some? then Store(nic, SlotOf(opt), Number(v)) else nic
  {
    if v.Some? {
      PrintedIntIsParsed(v.value);
      FillParsed(nic, opt, Decimal.PrintInt(v.value), v.value);
    }
  }

  lemma FillParsed(nic: Nic, opt: string, val: string, i: int)
    requires SlotOf(opt).Tag? || SlotOf(opt).Mtu? || SlotOf(opt).Queues?
    requires ParseInt(val) == Some(i)
    ensures FillAll(nic, [(opt, val)]) == Store(nic, SlotOf(opt), Number(Some(i)))
  {
    FillOne(nic, opt, val);
  }

  lemma OneIsYes()
    ensures AsBool("1")
  {
    TrimmedIsKept("1");
    assert Lower("1") == "1";
  }

  // The spellings of a flag that is set.
  lemma FlagSpellings(value: string)
    requires Trimmed(value)
    ensures AsBool(value) <==> Lower(value) == "1" || Lower(value) == "true" || Lower(value) == "yes" || Lower(value) == "on"
  {
    TrimmedIsKept(value);
  }

  lemma FillSwitch(nic: Nic, opt: string, on: bool)
    requires SlotOf(opt).Firewall? || SlotOf(opt).LinkDown?
    ensures FillAll(nic, Switch(opt, on)) == if on then Store(nic, SlotOf(opt), Flag(true)) else nic
  {
    if on {
      FillOne(nic, opt, "1");
      OneIsYes();
    }
  }

  lemma {:induction false} IntsAreRead(list: seq<int>)
    ensures Ints(PrintInts(list)) == list
  {
    if list != [] {
      PrintedIntIsParsed(list[0]);
      assert PrintInts(list)[1..] == PrintInts(list[1..]);
      IntsAreRead(list[1..]);
    }
  }

  predicate NumberChar(c: char) {
    Decimal.IsDigit(c) || c == '-'
  }

  predicate OnlyNumberChars(s: string) {
    forall i :: 0 <= i < |s| ==> NumberChar(s[i])
  }

  lemma IntChars(i: int)
    ensures Decimal.PrintInt(i) != "" && OnlyNumberChars(Decimal.PrintInt(i)) && ';' !in Decimal.PrintInt(i)
  {
  }

  predicate OnlyListChars(s: string) {
    forall i :: 0 <= i < |s| ==> NumberChar(s[i]) || s[i] == ';'
  }

  lemma ListCharsArePlain(s: string)
    requires OnlyListChars(s)
    ensures Plain(s)
  {
  }

  lemma {:induction false} JoinedChars(parts: seq<string>)
    requires forall i :: 0 <= i < |parts| ==> OnlyNumberChars(parts[i])
    ensures OnlyListChars(Join(parts, ';'))
  {
    if |parts| > 1 {
      JoinedChars(parts[1..]);
      assert OnlyNumberChars(parts[0]);
    } else if |parts| == 1 {
      assert OnlyNumberChars(parts[0]);
    }
  }

  lemma TrunksAreRead(list: seq<int>)
    requires list != []
    ensures Ints(Split(Join(PrintInts(list), ';'), ';')) == list
    ensures Plain(Join(PrintInts(list), ';'))
  {
    var parts := PrintInts(list);
    forall i | 0 <= i < |parts| ensures OnlyNumberChars(parts[i]) && ';' !in parts[i] {
      IntChars(list[i]);
    }
    JoinedChars(parts);
    ListCharsArePlain(Join(parts, ';'));
    SplitJoin(parts, ';');
    IntsAreRead(list);
  }

  lemma IdentityIsRead(nic: Nic, start: Nic)
    requires WellFormed(nic) && start.model.None? && start.mac.None? && start.name.None?
    ensures FillAll(start, Identity(nic)) == start.(model := nic.model, mac := nic.mac, name := nic.name)
  {
    SlotsOfIdentity();
    var first := match nic.model
      case Some(model) => [(model, match nic.mac case Some(mac) => mac case None => "")]
      case None => Maybe("hwaddr", nic.mac);
    FillAllAppend(start, first, Maybe("name", nic.name));
    MacIsRead(nic, start, first);
    FillText(FillAll(start, first), "name", nic.name);
  }

  lemma MacIsRead(nic: Nic, start: Nic, first: seq<(string, string)>)
    requires WellFormed(nic) && start.model.None? && start.mac.None?
    requires first == match nic.model
                      case Some(model) => [(model, match nic.mac case Some(mac) => mac case None => "")]
                      case None => Maybe("hwaddr", nic.mac)
    ensures FillAll(start, first) == start.(model := nic.model, mac := nic.mac)
  {
    SlotsOfIdentity();
    if nic.model.Some? {
      FillOne(start, nic.model.value, first[0].1);
      assert Upper("") == "";
    } else if nic.mac.Some? {
      FillOne(start, "hwaddr", nic.mac.value);
    }
  }

  lemma AttachmentIsRead(nic: Nic, start: Nic)
    requires WellFormed(nic) && start.bridge.None? && start.vlanTag.None? && start.trunks == []
    ensures FillAll(start, Attachment(nic)) == start.(bridge := nic.bridge, vlanTag := nic.vlanTag, trunks := nic.trunks)
  {
    SlotsOfAttachment();
    var a, b := Maybe("bridge", nic.bridge), MaybeInt("tag", nic.vlanTag);
    var c: seq<(string, string)> := if nic.trunks == [] then [] else [("trunks", Join(PrintInts(nic.trunks), ';'))];
    FillAllAppend(start, a + b, c);
    FillAllAppend(start, a, b);
    FillText(start, "bridge", nic.bridge);
    var n1 := start.(bridge := nic.bridge);
    FillInt(n1, "tag", nic.vlanTag);
    var n2 := n1.(vlanTag := nic.vlanTag);
    assert FillAll(n1, b) == n2;
    FillTrunks(n2, nic.trunks);
  }

  lemma SwitchesAreRead(nic: Nic, start: Nic)
    requires !start.firewall && !start.linkDown
    ensures FillAll(start, Switches(nic)) == start.(firewall := nic.firewall, linkDown := nic.linkDown)
  {
    SlotsOfAttachment();
    FillAllAppend(start, Switch("firewall", nic.firewall), Switch("link_down", nic.linkDown));
    FillSwitch(start, "firewall", nic.firewall);
    FillSwitch(start.(firewall := nic.firewall), "link_down", nic.linkDown);
  }

  lemma FillTrunks(nic: Nic, list: seq<int>)
    requires nic.trunks == []
    ensures FillAll(nic, if list == [] then [] else [("trunks", Join(PrintInts(list), ';'))]) == nic.(trunks := list)
  {
    SlotsOfAttachment();
    if list != [] {
      FillOne(nic, "trunks", Join(PrintInts(list), ';'));
      TrunksAreRead(list);
    }
  }

  lemma IpsAreRead(nic: Nic, start: Nic)
    requires WellFormed(nic) && start.ip.None? && start.ip6.None?
    ensures FillAll(start, Maybe("ip", nic.ip) + Maybe("ip6", nic.ip6)) == start.(ip := nic.ip, ip6 := nic.ip6)
  {
    SlotsOfAddresses();
    FillAllAppend(start, Maybe("ip", nic.ip), Maybe("ip6", nic.ip6));
    FillText(start, "ip", nic.ip);
    FillText(start.(ip := nic.ip), "ip6", nic.ip6);
  }

  lemma GatewaysAreRead(nic: Nic, start: Nic)
    requires WellFormed(nic) && start.gw.None? && start.gw6.None?
    ensures FillAll(start, Maybe("gw", nic.gw) + Maybe("gw6", nic.gw6)) == start.(gw := nic.gw, gw6 := nic.gw6)
  {
    SlotsOfAddresses();
    FillAllAppend(start, Maybe("gw", nic.gw), Maybe("gw6", nic.gw6));
    FillText(start, "gw", nic.gw);
    FillText(start.(gw := nic.gw), "gw6", nic.gw6);
  }

  lemma AddressesAreRead(nic: Nic, start: Nic)
    requires WellFormed(nic) && start.ip.None? && start.ip6.None? && start.gw.None? && start.gw6.None?
    ensures FillAll(start, Addresses(nic)) == start.(ip := nic.ip, ip6 := nic.ip6, gw := nic.gw, gw6 := nic.gw6)
  {
    FillAllAppend(start, Maybe("ip", nic.ip) + Maybe("ip6", nic.ip6), Maybe("gw", nic.gw) + Maybe("gw6", nic.gw6));
    IpsAreRead(nic, start);
    GatewaysAreRead(nic, start.(ip := nic.ip, ip6 := nic.ip6));
  }

  lemma TuningIsRead(nic: Nic, start: Nic)
    requires start.mtu.None? && start.queues.None?
    ensures FillAll(start, Tuning(nic)) == start.(mtu := nic.mtu, queues := nic.queues)
  {
    SlotsOfIdentity();
    FillAllAppend(start, MaybeInt("mtu", nic.mtu), MaybeInt("queues", nic.queues));
    FillInt(start, "mtu", nic.mtu);
    FillInt(start.(mtu := nic.mtu), "queues", nic.queues);
  }

  lemma PrintableAppend(a: seq<(string, string)>, b: seq<(string, string)>)
    requires Printable(a) && Printable(b)
    ensures Printable(a + b)
  {
  }

  lemma MaybeIsPrintable(opt: string, v: Option<string>, n: Option<int>, on: bool)
    requires Simple(opt) && PlainText(v)
    ensures Printable(Maybe(opt, v)) && Printable(MaybeInt(opt, n)) && Printable(Switch(opt, on))
  {
    SimpleIsKey(opt);
    if n.Some? {
      IntChars(n.value);
      assert OnlyListChars(Decimal.PrintInt(n.value));
      ListCharsArePlain(Decimal.PrintInt(n.value));
    }
  }

  lemma IdentityIsPrintable(nic: Nic)
    requires WellFormed(nic)
    ensures Printable(Identity(nic))
  {
    NamesAreSimple();
    MaybeIsPrintable("hwaddr", nic.mac, None, false);
    MaybeIsPrintable("name", nic.name, None, false);
    if nic.model.Some? {
      ModelsAreSimple();
      SimpleIsKey(nic.model.value);
    }
  }

  lemma AttachmentIsPrintable(nic: Nic)
    requires WellFormed(nic)
    ensures Printable(Attachment(nic))
  {
    NamesAreSimple();
    MaybeIsPrintable("bridge", nic.bridge, None, false);
    MaybeIsPrintable("tag", None, nic.vlanTag, false);
    if nic.trunks != [] {
      TrunksAreRead(nic.trunks);
      SimpleIsKey("trunks");
    }
  }

  lemma SwitchesArePrintable(nic: Nic)
    ensures Printable(Switches(nic))
  {
    NamesAreSimple();
    MaybeIsPrintable("firewall", None, None, nic.firewall);
    MaybeIsPrintable("link_down", None, None, nic.linkDown);
    PrintableAppend(Switch("firewall", nic.firewall), Switch("link_down", nic.linkDown));
  }

  lemma AddressesArePrintable(nic: Nic)
    requires WellFormed(nic)
    ensures Printable(Addresses(nic))
  {
    NamesAreSimple();
    MaybeIsPrintable("ip", nic.ip, None, false);
    MaybeIsPrintable("ip6", nic.ip6, None, false);
    MaybeIsPrintable("gw", nic.gw, None, false);
    MaybeIsPrintable("gw6", nic.gw6, None, false);
    PrintableAppend(Maybe("ip", nic.ip), Maybe("ip6", nic.ip6));
    PrintableAppend(Maybe("gw", nic.gw), Maybe("gw6", nic.gw6));
    PrintableAppend(Maybe("ip", nic.ip) + Maybe("ip6", nic.ip6), Maybe("gw", nic.gw) + Maybe("gw6", nic.gw6));
  }

  lemma TuningIsPrintable(nic: Nic)
    ensures Printable(Tuning(nic))
  {
    NamesAreSimple();
    MaybeIsPrintable("mtu", None, nic.mtu, false);
    MaybeIsPrintable("queues", None, nic.queues, false);
    PrintableAppend(MaybeInt("mtu", nic.mtu), MaybeInt("queues", nic.queues));
  }

  lemma AllPairsAreRead(nic: Nic, start: Nic)
    requires WellFormed(nic) && start == Blank(nic.key, start.raw)
    ensures FillAll(start, PairsOf(nic)) == nic.(raw := start.raw)
  {
    FillAllAppend(start, Identity(nic), Attachment(nic) + (Switches(nic) + (Addresses(nic) + Tuning(nic))));
    IdentityIsRead(nic, start);
    var n1 := start.(model := nic.model, mac := nic.mac, name := nic.name);
    FillAllAppend(n1, Attachment(nic), Switches(nic) + (Addresses(nic) + Tuning(nic)));
    AttachmentIsRead(nic, n1);
    RestIsRead(nic, n1.(bridge := nic.bridge, vlanTag := nic.vlanTag, trunks := nic.trunks));
  }

  lemma RestIsRead(nic: Nic, start: Nic)
    requires WellFormed(nic) && !start.firewall && !start.linkDown
    requires start.ip.None? && start.ip6.None? && start.gw.None? && start.gw6.None? && start.mtu.None? && start.queues.None?
    ensures FillAll(start, Switches(nic) + (Addresses(nic) + Tuning(nic))) ==
            start.(firewall := nic.firewall, linkDown := nic.linkDown, ip := nic.ip, ip6 := nic.ip6, gw := nic.gw, gw6 := nic.gw6,
                   mtu := nic.mtu, queues := nic.queues)
  {
    FillAllAppend(start, Switches(nic), Addresses(nic) + Tuning(nic));
    SwitchesAreRead(nic, start);
    var n1 := start.(firewall := nic.firewall, linkDown := nic.linkDown);
    FillAllAppend(n1, Addresses(nic), Tuning(nic));
    AddressesAreRead(nic, n1);
    TuningIsRead(nic, n1.(ip := nic.ip, ip6 := nic.ip6, gw := nic.gw, gw6 := nic.gw6));
  }

  // Parsing undoes printing, in either dialect.
  lemma ParsingUndoesPrinting(nic: Nic)
    requires WellFormed(nic)
    ensures ParsedNic(nic.key, Printed(PairsOf(nic))) == nic.(raw := Printed(PairsOf(nic)))
  {
    AllIsPrintable(nic);
    PrintedIsFilled(nic.key, PairsOf(nic));
    AllPairsAreRead(nic, Blank(nic.key, Printed(PairsOf(nic))));
  }

  lemma AllIsPrintable(nic: Nic)
    requires WellFormed(nic)
    ensures Printable(PairsOf(nic))
  {
    IdentityIsPrintable(nic);
    AttachmentIsPrintable(nic);
    SwitchesArePrintable(nic);
    AddressesArePrintable(nic);
    TuningIsPrintable(nic);
    PrintableAppend(Addresses(nic), Tuning(nic));
    PrintableAppend(Switches(nic), Addresses(nic) + Tuning(nic));
    PrintableAppend(Attachment(nic), Switches(nic) + (Addresses(nic) + Tuning(nic)));
    PrintableAppend(Identity(nic), Attachment(nic) + (Switches(nic) + (Addresses(nic) + Tuning(nic))));
  }

  // ---------- the string the installer builds ----------

  // `address` is what follows `ip=`; a gateway may follow.
  function InstallerNet0(bridge: string, address: string, gw: Option<string>): string {
    "name=eth0,bridge=" + bridge + "," + ("ip=" + address + match gw case Some(g) => ",gw=" + g case None => "") + ",firewall=1"
  }

  // What the installer asks for is what is read back from the guest.
  lemma InstallerStringIsRead(key: string, bridge: string, address: string, gw: Option<string>)
    requires bridge != "" && Plain(bridge) && address != "" && Plain(address) && PlainText(gw)
    ensures var raw := InstallerNet0(bridge, address, gw);
            ParsedNic(key, raw) == Blank(key, raw).(name := Some("eth0"), bridge := Some(bridge), ip := Some(address), gw := gw, firewall := true)
  {
    var raw := InstallerNet0(bridge, address, gw);
    var head := [("name", "eth0"), ("bridge", bridge), ("ip", address)];
    var pairs := head + Maybe("gw", gw) + [("firewall", "1")];
    InstallerTextIsPrinted(bridge, address, gw);
    InstallerIsPrintable(bridge, address, gw);
    PrintedIsFilled(key, pairs);
    InstallerPairsAreRead(Blank(key, raw), bridge, address, gw);
  }

  lemma InstallerPairsAreRead(start: Nic, bridge: string, address: string, gw: Option<string>)
    requires bridge != "" && address != "" && PlainText(gw) && start.gw.None?
    ensures FillAll(start, [("name", "eth0"), ("bridge", bridge), ("ip", address)] + Maybe("gw", gw) + [("firewall", "1")]) ==
            start.(name := Some("eth0"), bridge := Some(bridge), ip := Some(address), gw := gw, firewall := true)
  {
    var head, on := [("name", "eth0"), ("bridge", bridge), ("ip", address)], Switch("firewall", true);
    SlotsOfAddresses();
    SlotsOfAttachment();
    FillAllAppend(start, head + Maybe("gw", gw), on);
    FillAllAppend(start, head, Maybe("gw", gw));
    HeadIsRead(start, bridge, address);
    var n1 := start.(name := Some("eth0"), bridge := Some(bridge), ip := Some(address));
    FillText(n1, "gw", gw);
    FillSwitch(n1.(gw := gw), "firewall", true);
  }

  lemma HeadIsRead(start: Nic, bridge: string, address: string)
    requires bridge != "" && address != ""
    ensures FillAll(start, [("name", "eth0"), ("bridge", bridge), ("ip", address)]) ==
            start.(name := Some("eth0"), bridge := Some(bridge), ip := Some(address))
  {
    SlotsOfIdentity();
    SlotsOfAttachment();
    SlotsOfAddresses();
    var pairs := [("name", "eth0"), ("bridge", bridge), ("ip", address)];
    assert pairs == [pairs[0]] + ([pairs[1]] + [pairs[2]]);
    FillAllAppend(start, [pairs[0]], [pairs[1]] + [pairs[2]]);
    FillAllAppend(FillAll(start, [pairs[0]]), [pairs[1]], [pairs[2]]);
    FillOne(start, "name", "eth0");
    FillOne(FillAll(start, [pairs[0]]), "bridge", bridge);
    FillOne(FillAll(FillAll(start, [pairs[0]]), [pairs[1]]), "ip", address);
  }

  lemma InstallerIsPrintable(bridge: string, address: string, gw: Option<string>)
    requires Plain(bridge) && Plain(address) && PlainText(gw)
    ensures Printable([("name", "eth0"), ("bridge", bridge), ("ip", address)] + Maybe("gw", gw) + [("firewall", "1")])
  {
    NamesAreSimple();
    SimpleIsKey("name");
    SimpleIsKey("bridge");
    SimpleIsKey("ip");
    MaybeIsPrintable("gw", gw, None, false);
    MaybeIsPrintable("firewall", None, None, true);
    assert Plain("eth0");
  }

  lemma InstallerTextIsPrinted(bridge: string, address: string, gw: Option<string>)
    ensures InstallerNet0(bridge, address, gw) ==
            Printed([("name", "eth0"), ("bridge", bridge), ("ip", address)] + Maybe("gw", gw) + [("firewall", "1")])
  {
    var name, b, ip, on := Token(("name", "eth0")), Token(("bridge", bridge)), Token(("ip", address)), Token(("firewall", "1"));
    var pairs := [("name", "eth0"), ("bridge", bridge), ("ip", address)] + Maybe("gw", gw) + [("firewall", "1")];
    FixedParts(bridge, address);
    match gw
    case Some(g) =>
      var gate := Token(("gw", g));
      GatewayPart(g);
      assert Tokens(pairs) == [name, b, ip, gate, on];
      JoinFive(name, b, ip, gate, on);
      Regroup(name + "," + b, ip, "," + gate, "," + on);
      assert name + "," + b + "," + ip + "," + gate + "," + on == name + "," + b + "," + ip + ("," + gate) + ("," + on);
    case None =>
      assert Tokens(pairs) == [name, b, ip, on];
      JoinFour(name, b, ip, on);
      Regroup(name + "," + b, ip, "", "," + on);
      assert name + "," + b + "," + ip + "," + on == name + "," + b + "," + ip + "" + ("," + on);
  }

  lemma Regroup(head: string, ip: string, gate: string, tail: string)
    ensures head + "," + (ip + gate) + tail == head + "," + ip + gate + tail
  {
  }

  lemma FixedParts(bridge: string, address: string)
    ensures "name=eth0,bridge=" + bridge == Token(("name", "eth0")) + "," + Token(("bridge", bridge))
    ensures "ip=" + address == Token(("ip", address))
    ensures ",firewall=1" == "," + Token(("firewall", "1"))
  {
  }

  lemma GatewayPart(g: string)
    ensures ",gw=" + g == "," + Token(("gw", g))
  {
  }

  lemma JoinFour(a: string, b: string, c: string, d: string)
    ensures Join([a, b, c, d], ',') == a + "," + b + "," + c + "," + d
  {
    assert [a, b, c, d][1..] == [b, c, d] && [b, c, d][1..] == [c, d] && [c, d][1..] == [d];
    assert Join([c, d], ',') == c + "," + d;
  }

  lemma JoinFive(a: string, b: string, c: string, d: string, e: string)
    ensures Join([a, b, c, d, e], ',') == a + "," + b + "," + c + "," + d + "," + e
  {
    assert [a, b, c, d, e][1..] == [b, c, d, e];
    JoinFour(b, c, d, e);
  }
}
