/** The renderer and the parser against each other: the round trip and exactly when it holds,
    the normal form, and what a rewrite preserves. */
module RoundTrip {
  import opened Wrappers
  import opened InventoryModel
  import opened Renderer
  import opened Parser
  import opened Sequences

  // ---- what a rendered host says ----

  /** The extra variables are a dictionary of names no one else writes. */
  ghost predicate CleanExtra(node: NodeConfig) {
    Unique(node.extra) && forall k :: Has(node.extra, k) ==> SiteOwned(k)
  }

  function FixedPlace(k: Name): nat {
    match k
    case Hostname => 0 case IpAddr => 1 case ApplyNetworkConfig => 2 case AnsibleConnection => 3
    case AnsiblePython => 4 case AnsibleRemoteTmp => 5 case AnsibleUser => 6
    case _ => 7
  }

  lemma FixedPlaces()
    ensures |FIXED| == 7 && forall i :: 0 <= i < |FIXED| ==> FixedPlace(FIXED[i].0) == i && Fixed(FIXED[i].0)
    ensures forall k :: Fixed(k) ==> FixedPlace(k) < 7 && FIXED[FixedPlace(k)].0 == k
  {}

  lemma FixedNames(k: Name)
    ensures Unique(FIXED)
    ensures Has(FIXED, k) <==> Fixed(k)
  {
    hide Has, Fixed, FixedPlace;
    FixedPlaces();
    HasIsMember(FIXED, k);
  }

  lemma SlotNames(node: NodeConfig, k: Name)
    ensures Has(Present(Slots(node)), k) ==> (Modelled(k) || Alias(k)) && !k.Isolcpus?
    ensures UniqueSlots(Slots(node))
    ensures forall i :: 0 <= i < |Slots(node)| ==> Get(Present(Slots(node)), Slots(node)[i].0) == Slots(node)[i].1
  {
    hide Get, Present;
    SlotsUnique(node);
    PresentHas(Slots(node), k);
  }

  /** With clean extra variables the three layers do not meet. */
  lemma LayersApart(node: NodeConfig)
    requires CleanExtra(node)
    ensures HostVarsOf(node) == Present(Slots(node)) + node.extra + FIXED
    ensures Only(HostVarsOf(node), SiteOwned) == node.extra
  {
    hide Present, Slots, Get, Only, Overlay, Modelled, Fixed, Alias, SiteOwned;
    var known := Present(Slots(node));
    forall k ensures Has(known, k) ==> !SiteOwned(k) && !Fixed(k) {
      SlotNames(node, k);
      ReservedApart(k);
    }
    forall k ensures Has(FIXED, k) <==> Fixed(k) {
      FixedNames(k);
    }
    forall k ensures Fixed(k) ==> !SiteOwned(k) {
      ReservedApart(k);
    }
    FixedNames(All);
    OverlayFresh(known, node.extra);
    forall k ensures Has(known + node.extra, k) ==> !Has(FIXED, k) {
      GetConcat(known, node.extra, k);
    }
    OverlayFresh(known + node.extra, FIXED);
    OnlyConcat(known + node.extra, FIXED, SiteOwned);
    OnlyConcat(known, node.extra, SiteOwned);
    OnlyNone(known, SiteOwned);
    OnlyNone(FIXED, SiteOwned);
    OnlyAll(node.extra, SiteOwned);
  }

  lemma ReservedApart(k: Name)
    ensures Modelled(k) || Alias(k) ==> !SiteOwned(k) && !Fixed(k)
    ensures Fixed(k) ==> !SiteOwned(k)
  {}

  /** A rendered host says for a modelled variable what its slot says, for a site's variable
      what the extra says, and the fixed value for a fixed one. */
  lemma HostVarsSay(node: NodeConfig, k: Name)
    requires CleanExtra(node)
    ensures Get(HostVarsOf(node), k) ==
              if Fixed(k) then Get(FIXED, k)
              else if SiteOwned(k) then Get(node.extra, k)
              else Get(Present(Slots(node)), k)
  {
    hide Present, Slots, Get, Only, Overlay, Modelled, Fixed, Alias, SiteOwned;
    LayersApart(node);
    var known := Present(Slots(node));
    GetConcat(known + node.extra, FIXED, k);
    GetConcat(known, node.extra, k);
    SlotNames(node, k);
    FixedNames(k);
    ReservedApart(k);
  }

  lemma SlotSays(node: NodeConfig, i: nat)
    requires CleanExtra(node) && i < |Slots(node)|
    ensures Get(HostVarsOf(node), Slots(node)[i].0) == Slots(node)[i].1
  {
    hide Present, Get, HostVarsOf;
    var k := Slots(node)[i].0;
    HostVarsSay(node, k);
    SlotNames(node, k);
    assert !Fixed(k) && !SiteOwned(k);
  }

  // ---- the whole text of a host ----

  function Line(k: Name, v: Option<Value>): Dict<Value> {
    if v.Some? then [(k, v.value)] else []
  }

  function TextLine(k: Name, text: Option<string>): Dict<Value> {
    if text.None? || text.value == "" then [] else [(k, Str(text.value))]
  }

  function ListLine(k: Name, items: seq<string>): Dict<Value> {
    if items == [] then [] else [(k, List(seq(|items|, i requires 0 <= i < |items| => Str(items[i]))))]
  }

  function DomainLines(domain: Option<PtpDomain>): Dict<Value> {
    if domain.None? then []
    else [(PtpDomainNumber, Int(domain.value)),
          (TimemasterPtpDomain, Str("{{ ptp_domain_number }}")),
          (PtpStatusVsockDomain, Str("{{ ptp_domain_number }}"))]
  }

  lemma {:induction false} PresentCons(head: (Name, Option<Value>), rest: seq<(Name, Option<Value>)>)
    ensures Present([head] + rest) == Line(head.0, head.1) + Present(rest)
  {
    var slots := [head] + rest;
    if rest == [] {
      assert slots[..0] == [] && Present(slots[..0]) == [];
    } else {
      PresentCons(head, rest[..|rest| - 1]);
      assert slots[..|slots| - 1] == [head] + rest[..|rest| - 1];
    }
  }

  lemma SlotLine(node: NodeConfig, i: nat)
    requires i < |Slots(node)|
    ensures Present(Slots(node)[i..]) == Line(Slots(node)[i].0, Slots(node)[i].1) + Present(Slots(node)[i + 1..])
  {
    hide Present, Slots, Line;
    var s := Slots(node);
    PresentCons(s[i], s[i + 1..]);
    assert s[i..] == [s[i]] + s[i + 1..];
  }

  lemma TextIsLine(k: Name, text: Option<string>)
    ensures TextLine(k, text) == Line(k, Written(text))
  {}

  lemma ListIsLine(k: Name, items: seq<string>)
    ensures ListLine(k, items) == Line(k, if items == [] then None else Some(Texts(items)))
  {}

  lemma FirstLines(node: NodeConfig)
    ensures Present(Slots(node)) ==
              [(AnsibleHost, Str(node.ansibleHost)), (NetworkInterface, Str(node.networkInterface)),
               (Subnet, Int(node.subnet))] + Present(Slots(node)[3..])
  {
    hide Present;
    SlotLine(node, 0);
    SlotLine(node, 1);
    SlotLine(node, 2);
    assert Slots(node)[0..] == Slots(node);
  }

  lemma NetworkLines(node: NodeConfig)
    ensures Present(Slots(node)[3..]) ==
              TextLine(GatewayAddr, node.gatewayAddr) + ListLine(DnsServers, node.dnsServers) +
              TextLine(PtpInterface, node.ptpInterface) + Present(Slots(node)[6..])
  {
    hide Present, Line, TextLine, ListLine, Written, Texts;
    SlotLine(node, 3);
    SlotLine(node, 4);
    SlotLine(node, 5);
    TextIsLine(GatewayAddr, node.gatewayAddr);
    ListIsLine(DnsServers, node.dnsServers);
    TextIsLine(PtpInterface, node.ptpInterface);
  }

  lemma TimeLines(node: NodeConfig)
    ensures Present(Slots(node)[6..]) ==
              DomainLines(node.ptpDomainNumber) + ListLine(NtpServers, node.ntpServers) + Present(Slots(node)[10..])
  {
    hide Present, ListLine, Written, Texts;
    SlotLine(node, 6);
    SlotLine(node, 7);
    SlotLine(node, 8);
    SlotLine(node, 9);
    ListIsLine(NtpServers, node.ntpServers);
  }

  lemma AccountLines(node: NodeConfig)
    ensures Present(Slots(node)[10..]) ==
              TextLine(AdminUser, node.adminUser) + TextLine(GrubPassword, node.grubPassword)
  {
    hide Line, TextLine, Written;
    SlotLine(node, 10);
    SlotLine(node, 11);
    TextIsLine(AdminUser, node.adminUser);
    TextIsLine(GrubPassword, node.grubPassword);
    assert Slots(node)[12..] == [] && Present([]) == [];
  }

  /** A rendered host, line by line: what every host says of itself, what is set and not empty,
      the site's own variables as they are, and the variables that are the same for every host. */
  lemma HostWritesInOrder(node: NodeConfig)
    requires CleanExtra(node)
    ensures HostVarsOf(node) ==
              [(AnsibleHost, Str(node.ansibleHost)), (NetworkInterface, Str(node.networkInterface)),
               (Subnet, Int(node.subnet))] +
              (TextLine(GatewayAddr, node.gatewayAddr) + ListLine(DnsServers, node.dnsServers) +
               TextLine(PtpInterface, node.ptpInterface) +
               (DomainLines(node.ptpDomainNumber) + ListLine(NtpServers, node.ntpServers) +
                (TextLine(AdminUser, node.adminUser) + TextLine(GrubPassword, node.grubPassword)))) +
              node.extra +
              [(Hostname, Str("{{ inventory_hostname }}")), (IpAddr, Str("{{ ansible_host }}")),
               (ApplyNetworkConfig, Bool(true)), (AnsibleConnection, Str("ssh")),
               (AnsiblePython, Str("/usr/bin/python3")), (AnsibleRemoteTmp, Str("/tmp/.ansible/tmp")),
               (AnsibleUser, Str("ansible"))]
  {
    hide HostVarsOf, Present, Slots, TextLine, ListLine, DomainLines, CleanExtra;
    LayersApart(node);
    FirstLines(node);
    NetworkLines(node);
    TimeLines(node);
    AccountLines(node);
  }

  // ---- reading it back ----

  /** What is left of an optional string once it was written. */
  function Trimmed(value: Option<string>): Option<string> {
    if Filled(value) then value else None
  }

  /** The node that is read back, in a fleet with this common isolated set. */
  function NormalNode(node: NodeConfig, common: Option<string>): NodeConfig {
    node.(role := Hypervisor, gatewayAddr := Trimmed(node.gatewayAddr), ptpInterface := Trimmed(node.ptpInterface),
          adminUser := Trimmed(node.adminUser), grubPassword := Trimmed(node.grubPassword), isolcpus := common)
  }

  function CommonValue(common: Option<string>): Value {
    if common.Some? then Str(common.value) else Null
  }

  lemma TextsRead(items: seq<string>, py: Python)
    ensures AsTexts(Texts(items), py) == Some(items)
  {
    var read := AsTexts(Texts(items), py).value;
    forall i | 0 <= i < |items| ensures read[i] == items[i] {
      assert Texts(items).items[i] == Str(items[i]);
    }
    assert read == items;
  }

  lemma WrittenReads(value: Option<string>, py: Python)
    ensures OptionalText(if Written(value).Some? then Written(value).value else Null, py) == Trimmed(value)
  {}

  lemma RenderedNetwork(node: NodeConfig)
    requires CleanExtra(node)
    ensures var vars := HostVarsOf(node);
      && Get(vars, AnsibleHost) == Some(Str(node.ansibleHost))
      && Get(vars, NetworkInterface) == Some(Str(node.networkInterface))
      && Get(vars, Subnet) == Some(Int(node.subnet))
      && Get(vars, GatewayAddr) == Written(node.gatewayAddr)
      && Get(vars, DnsServers) == (if node.dnsServers == [] then None else Some(Texts(node.dnsServers)))
  {
    hide Get, HostVarsOf, Texts, Written, CleanExtra, Present;
    SlotSays(node, 0);
    SlotSays(node, 1);
    SlotSays(node, 2);
    SlotSays(node, 3);
    SlotSays(node, 4);
  }

  lemma RenderedTime(node: NodeConfig)
    requires CleanExtra(node)
    ensures var vars := HostVarsOf(node);
      && Get(vars, PtpInterface) == Written(node.ptpInterface)
      && Get(vars, PtpDomainNumber) ==
           (if node.ptpDomainNumber.Some? then Some(Int(node.ptpDomainNumber.value)) else None)
      && Get(vars, NtpServers) == (if node.ntpServers == [] then None else Some(Texts(node.ntpServers)))
      && Get(vars, AdminUser) == Written(node.adminUser)
      && Get(vars, GrubPassword) == Written(node.grubPassword)
      && Get(vars, Isolcpus) == None
  {
    hide Get, HostVarsOf, Texts, Written, CleanExtra, Present;
    SlotSays(node, 5);
    SlotSays(node, 6);
    SlotSays(node, 9);
    SlotSays(node, 10);
    SlotSays(node, 11);
    HostVarsSay(node, Isolcpus);
    SlotNames(node, Isolcpus);
  }

  lemma ValuesRead(node: NodeConfig, py: Python)
    requires CleanExtra(node)
    ensures var vars := HostVarsOf(node);
      && TextOf(Lookup(vars, AnsibleHost), py) == node.ansibleHost
      && (Truthy(Lookup(vars, AnsibleHost)) <==> node.ansibleHost != "")
      && TextOf(Lookup(vars, NetworkInterface), py) == node.networkInterface
      && (Truthy(Lookup(vars, NetworkInterface)) <==> node.networkInterface != "")
      && SubnetOf(Lookup(vars, Subnet), py) == Number(node.subnet)
      && IntOf(Lookup(vars, PtpDomainNumber), py) ==
           (if node.ptpDomainNumber.Some? then Number(node.ptpDomainNumber.value) else NoNumber)
      && AsTexts(Lookup(vars, DnsServers), py) == Some(node.dnsServers)
      && AsTexts(Lookup(vars, NtpServers), py) == Some(node.ntpServers)
      && OptionalText(Lookup(vars, GatewayAddr), py) == Trimmed(node.gatewayAddr)
      && OptionalText(Lookup(vars, PtpInterface), py) == Trimmed(node.ptpInterface)
      && OptionalText(Lookup(vars, AdminUser), py) == Trimmed(node.adminUser)
      && OptionalText(Lookup(vars, GrubPassword), py) == Trimmed(node.grubPassword)
      && Get(vars, Isolcpus) == None
  {
    hide HostVarsOf, Texts, Written, CleanExtra, Trimmed, OptionalText, Get;
    RenderedNetwork(node);
    RenderedTime(node);
    TextsRead(node.dnsServers, py);
    TextsRead(node.ntpServers, py);
    WrittenReads(node.gatewayAddr, py);
    WrittenReads(node.ptpInterface, py);
    WrittenReads(node.adminUser, py);
    WrittenReads(node.grubPassword, py);
  }

  lemma NodeReads(name: Name, node: NodeConfig, common: Option<string>, py: Python)
    requires CleanExtra(node)
    ensures HostOf(name, Mapping(HostVarsOf(node)), [], CommonValue(common), py) == Some(NormalNode(node, common))
  {
    hide HostVarsOf, CleanExtra, Trimmed, AsTexts, IntOf, SubnetOf, Lookup, Truthy, Only;
    ValuesRead(node, py);
    LayersApart(node);
    var nothing: Dict<Value> := [];
    GetNothing(nothing, name);
    hide Get;
  }

  function NormalHosts(hosts: Dict<NodeConfig>, common: Option<string>): (normal: Dict<NodeConfig>)
    ensures |normal| == |hosts|
    ensures forall i :: 0 <= i < |hosts| ==> normal[i] == (hosts[i].0, NormalNode(hosts[i].1, common))
  {
    seq(|hosts|, i requires 0 <= i < |hosts| => (hosts[i].0, NormalNode(hosts[i].1, common)))
  }

  ghost function NormalForm(inventory: Inventory): Inventory {
    Inventory(Standalone, NormalHosts(inventory.hosts, Common(inventory.hosts)))
  }

  ghost predicate AllClean(inventory: Inventory) {
    forall i :: 0 <= i < |inventory.hosts| ==> CleanExtra(inventory.hosts[i].1)
  }

  lemma StandaloneGroup(hosts: Dict<Value>, all: seq<Name>, group: Value)
    ensures var doc := Document(Mapping(hosts), all, group);
      && doc.Mapping?
      && GroupHosts(doc.entries, StandaloneMachine) == HostSet(all)
      && GroupPart(Lookup(doc.entries, StandaloneMachine), Vars) == []
      && GroupPart(Lookup(doc.entries, All), Vars) == []
  {
    hide HostSet, Get;
    var machines, every := (Hosts, Mapping(HostSet(all))), (Hosts, Mapping(hosts));
    DocumentGets(Mapping([every]), Mapping([machines]), group);
    OneEntry(Hosts, machines.1);
    GetOther(machines, Vars);
    GetOther(every, Vars);
  }

  lemma GetOther(entry: (Name, Value), k: Name)
    requires entry.0 != k
    ensures Get([entry], k) == None
  {}

  lemma DocumentParts(hosts: Dict<Value>, all: seq<Name>, names: seq<Name>, common: Option<string>)
    ensures var doc := Document(Mapping(hosts), all, GroupOf(names, common));
      && doc.Mapping?
      && GroupHosts(doc.entries, All) == hosts
      && GroupHosts(doc.entries, Observers) == []
      && GroupHosts(doc.entries, ClusterMachines) == []
      && GroupHosts(doc.entries, Hypervisors) == HostSet(names)
      && GroupIsolcpus(doc.entries) == CommonValue(common)
  {
    hide HostSet, Get;
    var group := GroupOf(names, common);
    var doc := Document(Mapping(hosts), all, group).entries;
    var machines := Mapping([(Hosts, Mapping(HostSet(all)))]);
    DocumentGets(Mapping([(Hosts, Mapping(hosts))]), machines, group);
    OneEntry(Hosts, Mapping(hosts));
    var head := (Hosts, Mapping(HostSet(names)));
    var rest: Dict<Value> := if common.Some? then [(Vars, Mapping([(Isolcpus, Str(common.value))]))] else [];
    GetCons(head, rest, Hosts);
    GetCons(head, rest, Vars);
    if common.Some? {
      OneEntry(Vars, Mapping([(Isolcpus, Str(common.value))]));
      OneEntry(Isolcpus, Str(common.value));
    } else {
      GetNothing(rest, Vars);
    }
    var nothing: Dict<Value> := [];
    GetNothing(nothing, Isolcpus);
  }

  lemma OneEntry(name: Name, v: Value)
    ensures Get([(name, v)], name) == Some(v)
  {}

  lemma DocumentGets(all: Value, machines: Value, group: Value)
    ensures var doc := [(All, all), (StandaloneMachine, machines), (Hypervisors, group), (ClusterMachines, Null),
                        (Observers, Null)];
      && Get(doc, All) == Some(all) && Get(doc, Hypervisors) == Some(group)
      && Get(doc, StandaloneMachine) == Some(machines)
      && Get(doc, ClusterMachines) == Some(Null) && Get(doc, Observers) == Some(Null)
  {
    var d0 := [(Observers, Null)];
    var d1 := [(ClusterMachines, Null)] + d0;
    var d2 := [(Hypervisors, group)] + d1;
    var d3 := [(StandaloneMachine, machines)] + d2;
    var doc := [(All, all)] + d3;
    assert doc == [(All, all), (StandaloneMachine, machines), (Hypervisors, group), (ClusterMachines, Null),
                   (Observers, Null)];
    forall k
      ensures Get(doc, k) == if k == All then Some(all) else if k == StandaloneMachine then Some(machines)
                             else if k == Hypervisors then Some(group) else if k == ClusterMachines then Some(Null)
                             else Get(d0, k)
    {
      GetCons((ClusterMachines, Null), d0, k);
      GetCons((Hypervisors, group), d1, k);
      GetCons((StandaloneMachine, machines), d2, k);
      GetCons((All, all), d3, k);
    }
    OneEntry(Observers, Null);
  }

  // ---- the groups of a rendered file ----

  /** The places of the hosts with a role, in order. */
  ghost predicate ArePlaces(hosts: Dict<NodeConfig>, role: Role, places: seq<nat>) {
    && (forall i, j :: 0 <= i < j < |places| ==> places[i] < places[j])
    && (forall i: nat :: i in places <==> i < |hosts| && hosts[i].1.role == role)
  }

  ghost predicate NamedAt(hosts: Dict<NodeConfig>, places: seq<nat>, names: seq<Name>) {
    && |names| == |places|
    && forall i :: 0 <= i < |places| ==> places[i] < |hosts| && names[i] == hosts[places[i]].0
  }

  lemma {:induction false} WithRoleConcat(a: Dict<NodeConfig>, b: Dict<NodeConfig>, role: Role)
    ensures WithRole(a + b, role) == WithRole(a, role) + WithRole(b, role)
  {
    if a == [] {
      Associates(a, a, b);
    } else {
      WithRoleConcat(a[1..], b, role);
      TailOfConcat(a, b);
      Associates(if a[0].1.role == role then [a[0].0] else [], WithRole(a[1..], role), WithRole(b, role));
    }
  }

  lemma WithRoleOfOne(host: (Name, NodeConfig), role: Role)
    ensures WithRole([host], role) == if host.1.role == role then [host.0] else []
  {}

  lemma {:induction false} WithRoleInOrder(hosts: Dict<NodeConfig>, role: Role) returns (places: seq<nat>)
    ensures ArePlaces(hosts, role, places) && NamedAt(hosts, places, WithRole(hosts, role))
  {
    if hosts == [] {
      places := [];
    } else {
      var init, last := hosts[..|hosts| - 1], hosts[|hosts| - 1];
      var before := WithRoleInOrder(init, role);
      WithRoleConcat(init, [last], role);
      WithRoleOfOne(last, role);
      assert init + [last] == hosts;
      places := before + if last.1.role == role then [|init|] else [];
      OneMorePlace(init, last, role, before);
    }
  }

  lemma OneMorePlace(init: Dict<NodeConfig>, last: (Name, NodeConfig), role: Role, before: seq<nat>)
    requires ArePlaces(init, role, before)
    ensures ArePlaces(init + [last], role, before + if last.1.role == role then [|init|] else [])
  {
    var hosts := init + [last];
    assert forall i :: 0 <= i < |init| ==> hosts[i] == init[i];
    assert forall i :: 0 <= i < |before| ==> before[i] in before;
  }

  /** Every host of a group, with nothing beside its name. */
  ghost predicate ListsExactly(group: Dict<Value>, names: seq<Name>) {
    Keys(group) == names && forall i :: 0 <= i < |group| ==> group[i].1 == Null
  }

  lemma HostSetLists(names: seq<Name>)
    ensures ListsExactly(HostSet(names), names)
  {}

  /** A standalone file lists every host, in order, under `all` and under `standalone_machine`,
      which the playbooks target; its `hypervisors` are exactly the hypervisors, in order, or
      every host when there is none; no cluster machine, no observer; and only the hypervisors
      may carry group variables. */
  lemma RenderedGroups(inventory: Inventory)
    returns (places: seq<nat>)
    requires inventory.mode.Standalone?
    ensures ArePlaces(inventory.hosts, Hypervisor, places)
    ensures Rendered(inventory).Some? && Rendered(inventory).value.Mapping?
    ensures var doc := Rendered(inventory).value.entries;
      && Keys(GroupHosts(doc, All)) == HostNames(inventory)
      && ListsExactly(GroupHosts(doc, StandaloneMachine), HostNames(inventory))
      && (places == [] ==> ListsExactly(GroupHosts(doc, Hypervisors), HostNames(inventory)))
      && (places != [] ==> exists names ::
            NamedAt(inventory.hosts, places, names) && ListsExactly(GroupHosts(doc, Hypervisors), names))
      && GroupHosts(doc, ClusterMachines) == [] && GroupHosts(doc, Observers) == []
      && GroupPart(Lookup(doc, All), Vars) == [] && GroupPart(Lookup(doc, StandaloneMachine), Vars) == []
  {
    hide HostVarsOf, Document, GroupOf, HostSet, GroupHosts, GroupPart, GroupIsolcpus, Common, IsCommon, WithRole,
      Lookup, ListsExactly;
    places := WithRoleInOrder(inventory.hosts, Hypervisor);
    var entries, names, common := HostEntries(inventory.hosts), GroupNames(inventory), Common(inventory.hosts);
    DocumentParts(entries, HostNames(inventory), names, common);
    StandaloneGroup(entries, HostNames(inventory), GroupOf(names, common));
    HostSetLists(HostNames(inventory));
    HostSetLists(names);
    assert Keys(entries) == HostNames(inventory);
  }

  /** Reading a rendered inventory whose extra variables are clean gives its normal form. */
  lemma ParseOfRender(inventory: Inventory, py: Python)
    requires inventory.mode.Standalone? && inventory.hosts != [] && AllClean(inventory)
    ensures Rendered(inventory).Some?
    ensures ParseOf(Rendered(inventory).value, py) == Accepted(NormalForm(inventory))
  {
    hide HostOf, HostVarsOf, CleanExtra, NormalNode, Document, GroupOf, HostSet, GroupNames, GroupHosts, GroupIsolcpus;
    var hosts, common := inventory.hosts, Common(inventory.hosts);
    var entries := HostEntries(hosts);
    DocumentParts(entries, HostNames(inventory), GroupNames(inventory), common);
    forall i | 0 <= i < |entries|
      ensures HostOf(entries[i].0, entries[i].1, [], CommonValue(common), py) == Some(NormalNode(hosts[i].1, common))
    {
      NodeReads(hosts[i].0, hosts[i].1, common, py);
    }
    var parsed := HostsOf(entries, [], CommonValue(common), py).value;
    forall i | 0 <= i < |entries| ensures parsed[i] == NormalHosts(hosts, common)[i] {
      assert parsed[i].0 == entries[i].0 && Some(parsed[i].1) == Some(NormalNode(hosts[i].1, common));
    }
    assert parsed == NormalHosts(hosts, common);
  }
}
