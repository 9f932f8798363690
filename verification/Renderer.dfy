/** The model written as a YAML tree. */
module Renderer {
  import opened Wrappers
  import opened InventoryModel

  /** Written for every host, on every render. */
  const FIXED: Dict<Value> := [
    (Hostname, Str("{{ inventory_hostname }}")),
    (IpAddr, Str("{{ ansible_host }}")),
    (ApplyNetworkConfig, Bool(true)),
    (AnsibleConnection, Str("ssh")),
    (AnsiblePython, Str("/usr/bin/python3")),
    (AnsibleRemoteTmp, Str("/tmp/.ansible/tmp")),
    (AnsibleUser, Str("ansible"))]

  const PTP_DOMAIN_REFERENCE: Value := Str("{{ ptp_domain_number }}")

  function Texts(items: seq<string>): Value {
    List(seq(|items|, i requires 0 <= i < |items| => Str(items[i])))
  }

  // ---- one host ----

  /** The variables the model owns, in the order they are written; `None` is left out. */
  function Slots(node: NodeConfig): seq<(Name, Option<Value>)> {
    [(AnsibleHost, Some(Str(node.ansibleHost))),
     (NetworkInterface, Some(Str(node.networkInterface))),
     (Subnet, Some(Int(node.subnet))),
     (GatewayAddr, Written(node.gatewayAddr)),
     (DnsServers, if node.dnsServers == [] then None else Some(Texts(node.dnsServers))),
     (PtpInterface, Written(node.ptpInterface)),
     (PtpDomainNumber, if node.ptpDomainNumber.Some? then Some(Int(node.ptpDomainNumber.value)) else None),
     (TimemasterPtpDomain, if node.ptpDomainNumber.Some? then Some(PTP_DOMAIN_REFERENCE) else None),
     (PtpStatusVsockDomain, if node.ptpDomainNumber.Some? then Some(PTP_DOMAIN_REFERENCE) else None),
     (NtpServers, if node.ntpServers == [] then None else Some(Texts(node.ntpServers))),
     (AdminUser, Written(node.adminUser)),
     (GrubPassword, Written(node.grubPassword))]
  }

  function Written(value: Option<string>): Option<Value> {
    if Filled(value) then Some(Str(value.value)) else None
  }

  function Present(slots: seq<(Name, Option<Value>)>): Dict<Value> {
    if slots == [] then []
    else
      var last := slots[|slots| - 1];
      Present(slots[..|slots| - 1]) + if last.1.Some? then [(last.0, last.1.value)] else []
  }

  /** The modelled variables, overridden by the site's, overridden by the fixed ones. */
  function HostVarsOf(node: NodeConfig): Dict<Value> {
    Overlay(Overlay(Present(Slots(node)), node.extra), FIXED)
  }

  ghost predicate UniqueSlots(slots: seq<(Name, Option<Value>)>) {
    forall i, j :: 0 <= i < j < |slots| ==> slots[i].0 != slots[j].0
  }

  /** A place in the order of the slots, so that no two slots share a name. */
  function Place(k: Name): nat {
    match k
    case AnsibleHost => 0 case NetworkInterface => 1 case Subnet => 2 case GatewayAddr => 3
    case DnsServers => 4 case PtpInterface => 5 case PtpDomainNumber => 6
    case TimemasterPtpDomain => 7 case PtpStatusVsockDomain => 8 case NtpServers => 9
    case AdminUser => 10 case GrubPassword => 11
    case _ => 12
  }

  lemma SlotsUnique(node: NodeConfig)
    ensures UniqueSlots(Slots(node))
  {
    var slots := Slots(node);
    assert forall i :: 0 <= i < |slots| ==> Place(slots[i].0) == i;
  }

  lemma {:induction false} PresentHas(slots: seq<(Name, Option<Value>)>, k: Name)
    requires UniqueSlots(slots)
    ensures Has(Present(slots), k) ==> exists i :: 0 <= i < |slots| && slots[i].0 == k
    ensures forall i :: 0 <= i < |slots| ==> Get(Present(slots), slots[i].0) == slots[i].1
  {
    hide Get;
    if slots == [] {
      GetNothing(Present(slots), k);
    } else {
      var init, last := slots[..|slots| - 1], slots[|slots| - 1];
      PresentHas(init, k);
      PresentHas(init, last.0);
      var added := if last.1.Some? then [(last.0, last.1.value)] else [];
      AddedOne(last.0, last.1, k);
      GetConcat(Present(init), added, k);
      forall i | 0 <= i < |slots| ensures Get(Present(slots), slots[i].0) == slots[i].1 {
        GetConcat(Present(init), added, slots[i].0);
        AddedOne(last.0, last.1, slots[i].0);
        if i < |init| {
          assert init[i] == slots[i];
        } else {
          assert !Has(Present(init), last.0);
        }
      }
    }
  }

  lemma AddedOne(name: Name, value: Option<Value>, k: Name)
    ensures Get(if value.Some? then [(name, value.value)] else [], k) == if k == name then value else None
  {
    if value.Some? {
      GetCons((name, value.value), [], k);
      assert [(name, value.value)] + [] == [(name, value.value)];
    }
  }

  lemma PresentStep(slots: seq<(Name, Option<Value>)>, i: nat)
    requires UniqueSlots(slots) && i < |slots|
    ensures Present(slots[..i + 1]) ==
              if slots[i].1.Some? then Put(Present(slots[..i]), slots[i].0, slots[i].1.value) else Present(slots[..i])
  {
    hide Get, Put;
    assert slots[..i + 1][..i] == slots[..i];
    PresentHas(slots[..i], slots[i].0);
    assert !Has(Present(slots[..i]), slots[i].0);
    if slots[i].1.Some? {
      PutFresh(Present(slots[..i]), slots[i].0, slots[i].1.value);
    }
  }

  method WriteText(variables: Dict<Value>, k: Name, value: Option<string>) returns (updated: Dict<Value>)
    ensures updated == if Written(value).Some? then Put(variables, k, Written(value).value) else variables
  {
    updated := variables;
    if Filled(value) {
      updated := Put(updated, k, Str(value.value));
    }
  }

  method WriteTexts(variables: Dict<Value>, k: Name, values: seq<string>) returns (updated: Dict<Value>)
    ensures updated == if values == [] then variables else Put(variables, k, Texts(values))
  {
    updated := variables;
    if values != [] {
      updated := Put(updated, k, Texts(values));
    }
  }

  method HostVars(node: NodeConfig) returns (variables: Dict<Value>)
    ensures variables == HostVarsOf(node)
  {
    hide Put, Present, Texts, Overlay, Written, Place, UniqueSlots;
    ghost var slots := Slots(node);
    SlotsUnique(node);
    FirstSlots(node);
    variables := [(AnsibleHost, Str(node.ansibleHost)), (NetworkInterface, Str(node.networkInterface)),
                  (Subnet, Int(node.subnet))];
    PresentStep(slots, 3);
    variables := WriteText(variables, GatewayAddr, node.gatewayAddr);
    PresentStep(slots, 4);
    variables := WriteTexts(variables, DnsServers, node.dnsServers);
    PresentStep(slots, 5);
    variables := WriteText(variables, PtpInterface, node.ptpInterface);
    assert variables == Present(slots[..6]);
    PresentStep(slots, 6);
    PresentStep(slots, 7);
    PresentStep(slots, 8);
    if node.ptpDomainNumber.Some? {
      variables := Put(variables, PtpDomainNumber, Int(node.ptpDomainNumber.value));
      variables := Put(variables, TimemasterPtpDomain, PTP_DOMAIN_REFERENCE);
      variables := Put(variables, PtpStatusVsockDomain, PTP_DOMAIN_REFERENCE);
    }
    assert variables == Present(slots[..9]);
    PresentStep(slots, 9);
    variables := WriteTexts(variables, NtpServers, node.ntpServers);
    PresentStep(slots, 10);
    variables := WriteText(variables, AdminUser, node.adminUser);
    PresentStep(slots, 11);
    variables := WriteText(variables, GrubPassword, node.grubPassword);
    assert slots[..12] == slots;
    variables := Update(variables, node.extra);
    variables := Update(variables, FIXED);
  }

  lemma FirstSlots(node: NodeConfig)
    ensures Present(Slots(node)[..3]) ==
              [(AnsibleHost, Str(node.ansibleHost)), (NetworkInterface, Str(node.networkInterface)),
               (Subnet, Int(node.subnet))]
  {
    var slots := Slots(node);
    assert slots[..0] == [];
    assert slots[..1][..0] == slots[..0] && slots[..2][..1] == slots[..1] && slots[..3][..2] == slots[..2];
    assert Present(slots[..1]) == [(AnsibleHost, Str(node.ansibleHost))];
    assert Present(slots[..2]) ==
           [(AnsibleHost, Str(node.ansibleHost)), (NetworkInterface, Str(node.networkInterface))];
  }

  /** `dict.update`. */
  method Update(d: Dict<Value>, e: Dict<Value>) returns (updated: Dict<Value>)
    ensures updated == Overlay(d, e)
  {
    updated := d;
    for i := 0 to |e|
      invariant Overlay(updated, e[i..]) == Overlay(d, e)
    {
      assert e[i..][0] == e[i] && e[i..][1..] == e[i + 1..];
      updated := Put(updated, e[i].0, e[i].1);
    }
    assert e[|e|..] == [];
  }

  // ---- the groups ----

  function HostSet(names: seq<Name>): (d: Dict<Value>)
    ensures |d| == |names|
  {
    seq(|names|, i requires 0 <= i < |names| => (names[i], Null))
  }

  function HostEntries(hosts: Dict<NodeConfig>): (d: Dict<Value>)
    ensures |d| == |hosts|
  {
    seq(|hosts|, i requires 0 <= i < |hosts| => (hosts[i].0, Mapping(HostVarsOf(hosts[i].1))))
  }

  function IsolatedSets(hosts: Dict<NodeConfig>): set<string> {
    set i | 0 <= i < |hosts| && Filled(hosts[i].1.isolcpus) :: hosts[i].1.isolcpus.value
  }

  /** The isolated set the whole fleet shares, if its hosts name exactly one. */
  ghost predicate IsCommon(hosts: Dict<NodeConfig>, common: Option<string>) {
    match common
    case Some(text) => IsolatedSets(hosts) == {text}
    case None => |IsolatedSets(hosts)| != 1
  }

  ghost function Common(hosts: Dict<NodeConfig>): (common: Option<string>)
    ensures IsCommon(hosts, common)
  {
    if |IsolatedSets(hosts)| == 1 then
      OneMember(IsolatedSets(hosts));
      var text :| IsolatedSets(hosts) == {text};
      Some(text)
    else None
  }

  lemma OneMember(s: set<string>)
    requires |s| == 1
    ensures exists text :: s == {text}
  {
    var text :| text in s;
    assert |s - {text}| == 0;
    assert s == {text};
  }

  function GroupOf(names: seq<Name>, common: Option<string>): Value {
    Mapping([(Hosts, Mapping(HostSet(names)))] +
            if common.Some? then [(Vars, Mapping([(Isolcpus, Str(common.value))]))] else [])
  }

  function GroupNames(inventory: Inventory): seq<Name> {
    var hypervisors := WithRole(inventory.hosts, Hypervisor);
    if hypervisors == [] then HostNames(inventory) else hypervisors
  }

  function Document(hosts: Value, all: seq<Name>, group: Value): Value {
    Mapping([(All, Mapping([(Hosts, hosts)])),
             (StandaloneMachine, Mapping([(Hosts, Mapping(HostSet(all)))])),
             (Hypervisors, group),
             (ClusterMachines, Null),
             (Observers, Null)])
  }

  /** The tree of a standalone inventory; a cluster raises NotImplementedError. */
  ghost function Rendered(inventory: Inventory): Option<Value> {
    if inventory.mode.Cluster? then None
    else Some(Document(Mapping(HostEntries(inventory.hosts)), HostNames(inventory),
                       GroupOf(GroupNames(inventory), Common(inventory.hosts))))
  }

  method Render(inventory: Inventory) returns (document: Option<Value>)
    ensures document == Rendered(inventory)
  {
    hide HostVarsOf, HostSet;
    var hosts: Dict<Value> := [];
    for i := 0 to |inventory.hosts|
      invariant hosts == HostEntries(inventory.hosts[..i])
    {
      var variables := HostVars(inventory.hosts[i].1);
      hosts := hosts + [(inventory.hosts[i].0, Mapping(variables))];
    }
    assert inventory.hosts[..|inventory.hosts|] == inventory.hosts;
    if inventory.mode.Cluster? {
      return None;
    }
    var group := GroupWithIsolcpus(inventory);
    document := Some(Document(Mapping(hosts), HostNames(inventory), group));
  }

  method GroupWithIsolcpus(inventory: Inventory) returns (group: Value)
    ensures group == GroupOf(GroupNames(inventory), Common(inventory.hosts))
  {
    var isolated: set<string> := {};
    for i := 0 to |inventory.hosts|
      invariant isolated == IsolatedSets(inventory.hosts[..i])
    {
      var value := inventory.hosts[i].1.isolcpus;
      IsolatedAppend(inventory.hosts[..i], inventory.hosts[i]);
      assert inventory.hosts[..i] + [inventory.hosts[i]] == inventory.hosts[..i + 1];
      if Filled(value) {
        isolated := isolated + {value.value};
      }
    }
    assert inventory.hosts[..|inventory.hosts|] == inventory.hosts;
    if |isolated| == 1 {
      OneMember(isolated);
      var text :| text in isolated;
      group := GroupOf(GroupNames(inventory), Some(text));
    } else {
      group := GroupOf(GroupNames(inventory), None);
    }
  }

  lemma IsolatedAppend(hosts: Dict<NodeConfig>, host: (Name, NodeConfig))
    ensures IsolatedSets(hosts + [host]) ==
              IsolatedSets(hosts) + if Filled(host.1.isolcpus) then {host.1.isolcpus.value} else {}
  {
    var all := hosts + [host];
    assert all[|hosts|] == host && forall i :: 0 <= i < |hosts| ==> all[i] == hosts[i];
  }
}
