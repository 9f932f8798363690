/** The rules a candidate inventory must satisfy before it becomes a commit. */
module Validation {
  import opened Wrappers
  import opened InventoryModel
  import opened Parser
  import CpuList
  import Text

  // ---- addresses ----

  datatype Version = V4 | V6 {
    function Width(): nat {
      if V4? then 32 else 128
    }
  }

  datatype RawAddress = Address(version: Version, bits: seq<bool>, isLoopback: bool)

  /** An address as the `ipaddress` library gives it: its bits, most significant first. */
  type Address = a: RawAddress | |a.bits| == a.version.Width() witness Address(V4, seq(32, _ => false), false)

  /** What `ipaddress.ip_address` makes of a text; `None` stands for ValueError. */
  type Library = string -> Option<Address>

  function Netmask(width: nat, prefix: nat): (mask: seq<bool>)
    ensures |mask| == width
  {
    seq(width, i => i < prefix)
  }

  function Masked(bits: seq<bool>, mask: seq<bool>): (r: seq<bool>)
    requires |bits| == |mask|
    ensures |r| == |bits|
  {
    seq(|bits|, i requires 0 <= i < |bits| => bits[i] && mask[i])
  }

  /** `gateway in ip_network(f"{address}/{prefix}", strict=False)`. */
  predicate InNetwork(gateway: Address, address: Address, prefix: PrefixLength) {
    && gateway.version == address.version
    && var mask := Netmask(address.version.Width(), prefix);
       Masked(gateway.bits, mask) == Masked(address.bits, mask)
  }

  /** A gateway is reachable exactly when both addresses agree on the first `prefix` bits:
      section 3.1 of RFC 4632. */
  lemma NetworkIsPrefix(gateway: Address, address: Address, prefix: PrefixLength)
    ensures InNetwork(gateway, address, prefix)
       <==> gateway.version == address.version && gateway.bits[..prefix] == address.bits[..prefix]
  {
    if gateway.version == address.version {
      var mask := Netmask(address.version.Width(), prefix);
      var g, a := Masked(gateway.bits, mask), Masked(address.bits, mask);
      if g == a {
        forall i | 0 <= i < prefix ensures gateway.bits[i] == address.bits[i] {
          assert g[i] == a[i];
        }
      }
      if gateway.bits[..prefix] == address.bits[..prefix] {
        forall i | 0 <= i < |g| ensures g[i] == a[i] {
          if i < prefix {
            assert gateway.bits[..prefix][i] == address.bits[..prefix][i];
          }
        }
      }
    }
  }

  // ---- host names ----

  /** `[a-z0-9]` ignoring case: Unicode case folding adds four letters to ASCII's. */
  predicate IsAlphanumeric(c: char) {
    || '0' <= c <= '9' || 'a' <= c <= 'z' || 'A' <= c <= 'Z'
    || c == '\U{130}' || c == '\U{131}' || c == '\U{17F}' || c == '\U{212A}'
  }

  predicate IsLabel(s: string) {
    && 1 <= |s| <= 63
    && IsAlphanumeric(s[0]) && IsAlphanumeric(s[|s| - 1])
    && forall i :: 0 <= i < |s| ==> IsAlphanumeric(s[i]) || s[i] == '-'
  }

  /** The pattern's `$` also matches before one newline at the end. */
  predicate IsHostname(s: string) {
    IsLabel(s) || (s != "" && s[|s| - 1] == '\n' && IsLabel(s[..|s| - 1]))
  }

  // ---- findings ----

  datatype Level = Error | Warning

  datatype Rule =
    | AtLeastOneHost | StandaloneIsOneMachine | HostKeyIsAHostname
    | AddressIsAnAddress | AddressIsNotLoopback | InterfaceIsNamed
    | GatewayIsAnAddress | GatewayIsReachable | DnsServersAreAddresses
    | ObserverHasNoPtp | HypervisorHasPtp | PtpIsNotTheAdministrationInterface | NtpFallbackExists
    | GrubPasswordIsAHash | IsolationIsConfigured | IsolcpusIsACpuList | CpuZeroStaysHousekeeping
    | AddressesAreUnique

  datatype Finding = Finding(level: Level, rule: Rule, host: Option<Name>)

  predicate IsError(finding: Finding) {
    finding.level.Error?
  }

  /** `ValidationResult.valid`. */
  predicate Valid(findings: seq<Finding>) {
    forall i :: 0 <= i < |findings| ==> !IsError(findings[i])
  }

  lemma ValidConcat(a: seq<Finding>, b: seq<Finding>)
    ensures Valid(a + b) <==> Valid(a) && Valid(b)
  {
    assert forall i :: 0 <= i < |a| ==> (a + b)[i] == a[i];
    assert forall i :: 0 <= i < |b| ==> (a + b)[|a| + i] == b[i];
  }

  function If(condition: bool, level: Level, rule: Rule, name: Name): seq<Finding> {
    if condition then [Finding(level, rule, Some(name))] else []
  }

  // ---- one host ----

  const GRUB_HASH_PREFIX: string := "grub.pbkdf2."

  function AddressFindings(name: Name, address: Option<Address>): seq<Finding> {
    if address.None? then [Finding(Error, AddressIsAnAddress, Some(name))]
    else If(address.value.isLoopback, Error, AddressIsNotLoopback, name)
  }

  function GatewayFindings(name: Name, node: NodeConfig, address: Option<Address>, ip: Library): seq<Finding> {
    if !Filled(node.gatewayAddr) then []
    else
      var gateway := ip(node.gatewayAddr.value);
      if gateway.None? then [Finding(Error, GatewayIsAnAddress, Some(name))]
      else If(address.Some? && !InNetwork(gateway.value, address.value, node.subnet), Error, GatewayIsReachable, name)
  }

  function DnsFindings(name: Name, servers: seq<string>, ip: Library): seq<Finding> {
    if servers == [] then []
    else
      DnsFindings(name, servers[..|servers| - 1], ip) +
      If(ip(servers[|servers| - 1]).None?, Error, DnsServersAreAddresses, name)
  }

  function PtpFindings(name: Name, node: NodeConfig): seq<Finding> {
    If(node.role.Observer? && Filled(node.ptpInterface), Warning, ObserverHasNoPtp, name) +
    If(node.role.Hypervisor? && !Filled(node.ptpInterface), Warning, HypervisorHasPtp, name) +
    If(Filled(node.ptpInterface) && node.ptpInterface.value == node.networkInterface,
       Warning, PtpIsNotTheAdministrationInterface, name)
  }

  function IsolcpusFindings(name: Name, isolcpus: Option<string>): seq<Finding> {
    if !Filled(isolcpus) then [Finding(Warning, IsolationIsConfigured, Some(name))]
    else
      var isolated := CpuList.Parse(isolcpus.value);
      if isolated == [] then [Finding(Error, IsolcpusIsACpuList, Some(name))]
      else If(0 in isolated, Error, CpuZeroStaysHousekeeping, name)
  }

  function NetworkFindings(name: Name, node: NodeConfig, ip: Library): seq<Finding> {
    var address := ip(node.ansibleHost);
    If(!IsHostname(KeyText(name)), Error, HostKeyIsAHostname, name) +
    AddressFindings(name, address) +
    If(node.networkInterface == "", Error, InterfaceIsNamed, name) +
    GatewayFindings(name, node, address, ip) +
    DnsFindings(name, node.dnsServers, ip)
  }

  predicate Unhashed(node: NodeConfig) {
    Filled(node.grubPassword) && !Text.StartsWith(node.grubPassword.value, GRUB_HASH_PREFIX)
  }

  function HostFindings(name: Name, node: NodeConfig, ip: Library): seq<Finding> {
    NetworkFindings(name, node, ip) +
    PtpFindings(name, node) +
    If(node.ntpServers == [], Warning, NtpFallbackExists, name) +
    If(Unhashed(node), Error, GrubPasswordIsAHash, name) +
    IsolcpusFindings(name, node.isolcpus)
  }

  /** Append a finding when its rule is broken. */
  method Check(findings: seq<Finding>, broken: bool, level: Level, rule: Rule, name: Name)
    returns (updated: seq<Finding>)
    ensures updated == findings + If(broken, level, rule, name)
  {
    updated := findings;
    if broken {
      updated := updated + [Finding(level, rule, Some(name))];
    }
  }

  method ValidateNetwork(name: Name, node: NodeConfig, ip: Library) returns (findings: seq<Finding>)
    ensures findings == NetworkFindings(name, node, ip)
  {
    hide IsHostname, KeyText, If, AddressFindings, GatewayFindings, DnsFindings;
    findings := Check([], !IsHostname(KeyText(name)), Error, HostKeyIsAHostname, name);
    assert findings == If(!IsHostname(KeyText(name)), Error, HostKeyIsAHostname, name);
    var address := ip(node.ansibleHost);
    findings := findings + AddressFindings(name, address);
    findings := Check(findings, node.networkInterface == "", Error, InterfaceIsNamed, name);
    findings := findings + GatewayFindings(name, node, address, ip);
    var dns := CheckServers(name, node.dnsServers, ip);
    findings := findings + dns;
  }

  method ValidateHost(name: Name, node: NodeConfig, ip: Library) returns (findings: seq<Finding>)
    ensures findings == HostFindings(name, node, ip)
  {
    hide If, NetworkFindings, PtpFindings, IsolcpusFindings, Unhashed;
    findings := ValidateNetwork(name, node, ip);
    findings := findings + PtpFindings(name, node);
    findings := Check(findings, node.ntpServers == [], Warning, NtpFallbackExists, name);
    findings := Check(findings, Unhashed(node), Error, GrubPasswordIsAHash, name);
    findings := findings + IsolcpusFindings(name, node.isolcpus);
  }

  method CheckServers(name: Name, servers: seq<string>, ip: Library) returns (findings: seq<Finding>)
    ensures findings == DnsFindings(name, servers, ip)
  {
    hide If;
    findings := [];
    for i := 0 to |servers|
      invariant findings == DnsFindings(name, servers[..i], ip)
    {
      assert servers[..i + 1][..i] == servers[..i];
      findings := Check(findings, ip(servers[i]).None?, Error, DnsServersAreAddresses, name);
    }
    assert servers[..|servers|] == servers;
  }

  // ---- across hosts ----

  function AcrossFindings(hosts: Dict<NodeConfig>): seq<Finding> {
    if hosts == [] then []
    else
      var init, last := hosts[..|hosts| - 1], hosts[|hosts| - 1];
      AcrossFindings(init) + If(last.1.ansibleHost in AddressesOf(init), Error, AddressesAreUnique, last.0)
  }

  function AddressesOf(hosts: Dict<NodeConfig>): set<string> {
    set i | 0 <= i < |hosts| :: hosts[i].1.ansibleHost
  }

  method ValidateAcrossHosts(hosts: Dict<NodeConfig>) returns (findings: seq<Finding>)
    ensures findings == AcrossFindings(hosts)
  {
    findings := [];
    var seen: map<string, Name> := map[];
    for i := 0 to |hosts|
      invariant findings == AcrossFindings(hosts[..i])
      invariant seen.Keys == AddressesOf(hosts[..i])
    {
      assert hosts[..i + 1][..i] == hosts[..i];
      AddressesAppend(hosts[..i], hosts[i]);
      assert hosts[..i] + [hosts[i]] == hosts[..i + 1];
      if hosts[i].1.ansibleHost in seen {
        findings := findings + [Finding(Error, AddressesAreUnique, Some(hosts[i].0))];
      }
      seen := seen[hosts[i].1.ansibleHost := hosts[i].0];
    }
    assert hosts[..|hosts|] == hosts;
  }

  lemma AddressesAppend(hosts: Dict<NodeConfig>, host: (Name, NodeConfig))
    ensures AddressesOf(hosts + [host]) == AddressesOf(hosts) + {host.1.ansibleHost}
  {
    var all := hosts + [host];
    assert all[|hosts|] == host && forall i :: 0 <= i < |hosts| ==> all[i] == hosts[i];
  }

  /** The duplicate findings number the hosts minus the distinct addresses. */
  lemma {:induction false} DuplicatesCount(hosts: Dict<NodeConfig>)
    ensures |AcrossFindings(hosts)| + |AddressesOf(hosts)| == |hosts|
  {
    if hosts == [] {
      assert AddressesOf(hosts) == {};
    } else {
      var init, last := hosts[..|hosts| - 1], hosts[|hosts| - 1];
      DuplicatesCount(init);
      AddressesAppend(init, last);
      assert init + [last] == hosts;
      if last.1.ansibleHost in AddressesOf(init) {
        assert AddressesOf(hosts) == AddressesOf(init);
      }
    }
  }

  ghost predicate DistinctAddresses(hosts: Dict<NodeConfig>) {
    forall i, j :: 0 <= i < j < |hosts| ==> hosts[i].1.ansibleHost != hosts[j].1.ansibleHost
  }

  lemma {:induction false} AcrossIsDistinct(hosts: Dict<NodeConfig>)
    ensures Valid(AcrossFindings(hosts)) <==> DistinctAddresses(hosts)
  {
    if hosts != [] {
      var init, last := hosts[..|hosts| - 1], hosts[|hosts| - 1];
      AcrossIsDistinct(init);
      assert forall i :: 0 <= i < |init| ==> init[i] == hosts[i];
      var added := If(last.1.ansibleHost in AddressesOf(init), Error, AddressesAreUnique, last.0);
      ValidConcat(AcrossFindings(init), added);
      assert Valid(added) <==> last.1.ansibleHost !in AddressesOf(init) by {
        if last.1.ansibleHost in AddressesOf(init) {
          assert IsError(added[0]);
        }
      }
      assert DistinctAddresses(hosts) <==> DistinctAddresses(init) && last.1.ansibleHost !in AddressesOf(init);
    }
  }

  // ---- the whole inventory ----

  function ShapeFindings(inventory: Inventory): seq<Finding> {
    (if inventory.hosts == [] then [Finding(Error, AtLeastOneHost, None)] else []) +
    (if inventory.mode.Standalone? && |inventory.hosts| > 1 then [Finding(Error, StandaloneIsOneMachine, None)] else [])
  }

  function EachFindings(hosts: Dict<NodeConfig>, ip: Library): seq<Finding> {
    if hosts == [] then []
    else
      EachFindings(hosts[..|hosts| - 1], ip) + HostFindings(hosts[|hosts| - 1].0, hosts[|hosts| - 1].1, ip)
  }

  function Findings(inventory: Inventory, ip: Library): seq<Finding> {
    ShapeFindings(inventory) + EachFindings(inventory.hosts, ip) + AcrossFindings(inventory.hosts)
  }

  method Validate(inventory: Inventory, ip: Library) returns (findings: seq<Finding>)
    ensures findings == Findings(inventory, ip)
  {
    hide HostFindings;
    findings := [];
    if inventory.hosts == [] {
      findings := findings + [Finding(Error, AtLeastOneHost, None)];
    }
    if inventory.mode.Standalone? && |inventory.hosts| > 1 {
      findings := findings + [Finding(Error, StandaloneIsOneMachine, None)];
    }
    var hosts := inventory.hosts;
    for i := 0 to |hosts|
      invariant findings == ShapeFindings(inventory) + EachFindings(hosts[..i], ip)
    {
      assert hosts[..i + 1][..i] == hosts[..i];
      var host := ValidateHost(hosts[i].0, hosts[i].1, ip);
      findings := findings + host;
    }
    assert hosts[..|hosts|] == hosts;
    var across := ValidateAcrossHosts(hosts);
    findings := findings + across;
  }

  // ---- one declarative predicate ----

  ghost predicate AcceptableIsolcpus(isolcpus: Option<string>) {
    Filled(isolcpus) ==>
      (exists cpu :: CpuList.Denotes(isolcpus.value, cpu)) && !CpuList.Denotes(isolcpus.value, 0)
  }

  ghost predicate AcceptableHost(name: Name, node: NodeConfig, ip: Library) {
    var address := ip(node.ansibleHost);
    && IsHostname(KeyText(name))
    && address.Some? && !address.value.isLoopback
    && node.networkInterface != ""
    && (Filled(node.gatewayAddr) ==>
          var gateway := ip(node.gatewayAddr.value);
          && gateway.Some? && gateway.value.version == address.value.version
          && gateway.value.bits[..node.subnet] == address.value.bits[..node.subnet])
    && (forall server :: server in node.dnsServers ==> ip(server).Some?)
    && (Filled(node.grubPassword) ==> GRUB_HASH_PREFIX <= node.grubPassword.value)
    && AcceptableIsolcpus(node.isolcpus)
  }

  ghost predicate Acceptable(inventory: Inventory, ip: Library) {
    && inventory.hosts != []
    && (inventory.mode.Standalone? ==> |inventory.hosts| == 1)
    && (forall i :: 0 <= i < |inventory.hosts| ==> AcceptableHost(inventory.hosts[i].0, inventory.hosts[i].1, ip))
    && DistinctAddresses(inventory.hosts)
  }

  lemma ValidIf(condition: bool, rule: Rule, name: Name)
    ensures Valid(If(condition, Error, rule, name)) <==> !condition
    ensures Valid(If(condition, Warning, rule, name))
  {
    if condition {
      assert IsError(If(condition, Error, rule, name)[0]);
    }
  }

  lemma ValidOne(level: Level, rule: Rule, name: Option<Name>)
    ensures Valid([Finding(level, rule, name)]) <==> level.Warning?
  {
    assert [Finding(level, rule, name)][0] == Finding(level, rule, name);
  }

  lemma ValidIsolcpus(name: Name, isolcpus: Option<string>)
    ensures Valid(IsolcpusFindings(name, isolcpus)) <==> AcceptableIsolcpus(isolcpus)
  {
    hide CpuList.Parse, CpuList.Denotes, Valid;
    ValidOne(Warning, IsolationIsConfigured, Some(name));
    ValidOne(Error, IsolcpusIsACpuList, Some(name));
    if Filled(isolcpus) {
      var isolated := CpuList.Parse(isolcpus.value);
      CpuList.ParseMeaning(isolcpus.value);
      ValidIf(0 in isolated, CpuZeroStaysHousekeeping, name);
      if isolated != [] {
        assert isolated[0] in isolated;
      }
    }
  }

  lemma {:induction false} ValidDns(name: Name, servers: seq<string>, ip: Library)
    ensures Valid(DnsFindings(name, servers, ip)) <==> forall server :: server in servers ==> ip(server).Some?
  {
    hide Valid;
    if servers == [] {
      ValidNothing();
    } else {
      var init, last := servers[..|servers| - 1], servers[|servers| - 1];
      ValidDns(name, init, ip);
      ValidIf(ip(last).None?, DnsServersAreAddresses, name);
      ValidConcat(DnsFindings(name, init, ip), If(ip(last).None?, Error, DnsServersAreAddresses, name));
      assert servers == init + [last];
    }
  }

  lemma ValidNothing()
    ensures Valid([])
  {}

  lemma ValidGateway(name: Name, node: NodeConfig, address: Address, ip: Library)
    ensures Valid(GatewayFindings(name, node, Some(address), ip)) <==>
              (Filled(node.gatewayAddr) ==>
                 && ip(node.gatewayAddr.value).Some?
                 && ip(node.gatewayAddr.value).value.version == address.version
                 && ip(node.gatewayAddr.value).value.bits[..node.subnet] == address.bits[..node.subnet])
  {
    hide Valid, InNetwork;
    ValidNothing();
    if Filled(node.gatewayAddr) {
      var gateway := ip(node.gatewayAddr.value);
      ValidOne(Error, GatewayIsAnAddress, Some(name));
      if gateway.Some? {
        NetworkIsPrefix(gateway.value, address, node.subnet);
        ValidIf(!InNetwork(gateway.value, address, node.subnet), GatewayIsReachable, name);
      }
    }
  }

  lemma ValidFive(a: seq<Finding>, b: seq<Finding>, c: seq<Finding>, d: seq<Finding>, e: seq<Finding>)
    ensures Valid(a + b + c + d + e) <==> Valid(a) && Valid(b) && Valid(c) && Valid(d) && Valid(e)
  {
    hide Valid;
    ValidConcat(a, b);
    ValidConcat(a + b, c);
    ValidConcat(a + b + c, d);
    ValidConcat(a + b + c + d, e);
  }

  lemma ValidAddressing(name: Name, node: NodeConfig, ip: Library)
    ensures var address := ip(node.ansibleHost);
      Valid(AddressFindings(name, address)) && Valid(GatewayFindings(name, node, address, ip)) <==>
        && address.Some? && !address.value.isLoopback
        && (Filled(node.gatewayAddr) ==>
              var gateway := ip(node.gatewayAddr.value);
              && gateway.Some? && gateway.value.version == address.value.version
              && gateway.value.bits[..node.subnet] == address.value.bits[..node.subnet])
  {
    hide Valid, GatewayFindings;
    var address := ip(node.ansibleHost);
    ValidOne(Error, AddressIsAnAddress, Some(name));
    if address.Some? {
      ValidIf(address.value.isLoopback, AddressIsNotLoopback, name);
      ValidGateway(name, node, address.value, ip);
    }
  }

  lemma ValidHost(name: Name, node: NodeConfig, ip: Library)
    ensures Valid(HostFindings(name, node, ip)) <==> AcceptableHost(name, node, ip)
  {
    hide Valid, If, IsHostname, KeyText, AddressFindings, GatewayFindings, DnsFindings, PtpFindings,
      IsolcpusFindings, AcceptableIsolcpus;
    var address, badName, noInterface := ip(node.ansibleHost), !IsHostname(KeyText(name)), node.networkInterface == "";
    ValidFive(If(badName, Error, HostKeyIsAHostname, name), AddressFindings(name, address),
              If(noInterface, Error, InterfaceIsNamed, name),
              GatewayFindings(name, node, address, ip), DnsFindings(name, node.dnsServers, ip));
    ValidIf(badName, HostKeyIsAHostname, name);
    ValidAddressing(name, node, ip);
    ValidIf(noInterface, InterfaceIsNamed, name);
    ValidDns(name, node.dnsServers, ip);
    ValidFive(NetworkFindings(name, node, ip), PtpFindings(name, node),
              If(node.ntpServers == [], Warning, NtpFallbackExists, name),
              If(Unhashed(node), Error, GrubPasswordIsAHash, name), IsolcpusFindings(name, node.isolcpus));
    ValidPtp(name, node);
    ValidIf(node.ntpServers == [], NtpFallbackExists, name);
    ValidIf(Unhashed(node), GrubPasswordIsAHash, name);
    ValidIsolcpus(name, node.isolcpus);
  }

  lemma ValidPtp(name: Name, node: NodeConfig)
    ensures Valid(PtpFindings(name, node))
  {
    hide Valid;
    var f1 := If(node.role.Observer? && Filled(node.ptpInterface), Warning, ObserverHasNoPtp, name);
    var f2 := If(node.role.Hypervisor? && !Filled(node.ptpInterface), Warning, HypervisorHasPtp, name);
    var same := Filled(node.ptpInterface) && node.ptpInterface.value == node.networkInterface;
    var f3 := If(same, Warning, PtpIsNotTheAdministrationInterface, name);
    ValidIf(node.role.Observer? && Filled(node.ptpInterface), ObserverHasNoPtp, name);
    ValidIf(node.role.Hypervisor? && !Filled(node.ptpInterface), HypervisorHasPtp, name);
    ValidIf(same, PtpIsNotTheAdministrationInterface, name);
    ValidConcat(f1, f2);
    ValidConcat(f1 + f2, f3);
  }

  lemma {:induction false} ValidEach(hosts: Dict<NodeConfig>, ip: Library)
    ensures Valid(EachFindings(hosts, ip)) <==>
              forall i :: 0 <= i < |hosts| ==> AcceptableHost(hosts[i].0, hosts[i].1, ip)
  {
    hide Valid, HostFindings, AcceptableHost;
    if hosts == [] {
      ValidNothing();
    } else {
      var init, last := hosts[..|hosts| - 1], hosts[|hosts| - 1];
      ValidEach(init, ip);
      ValidHost(last.0, last.1, ip);
      ValidConcat(EachFindings(init, ip), HostFindings(last.0, last.1, ip));
      assert forall i :: 0 <= i < |init| ==> init[i] == hosts[i];
    }
  }

  /** An inventory is valid exactly when it satisfies one declarative predicate over all its hosts. */
  lemma ValidExactly(inventory: Inventory, ip: Library)
    ensures Valid(Findings(inventory, ip)) <==> Acceptable(inventory, ip)
  {
    hide Valid, EachFindings, AcceptableHost, AcrossFindings, DistinctAddresses;
    var a := if inventory.hosts == [] then [Finding(Error, AtLeastOneHost, None)] else [];
    var b := if inventory.mode.Standalone? && |inventory.hosts| > 1 then [Finding(Error, StandaloneIsOneMachine, None)]
             else [];
    ValidNothing();
    ValidOne(Error, AtLeastOneHost, None);
    ValidOne(Error, StandaloneIsOneMachine, None);
    ValidConcat(a, b);
    ValidEach(inventory.hosts, ip);
    AcrossIsDistinct(inventory.hosts);
    ValidConcat(a + b, EachFindings(inventory.hosts, ip));
    ValidConcat(a + b + EachFindings(inventory.hosts, ip), AcrossFindings(inventory.hosts));
  }
}
