/** Every rule of the validator, one by one: the findings of an inventory are exactly those of
    the rules it breaks, each under its own name, level and host. */
module ValidationRules {
  import opened Wrappers
  import opened InventoryModel
  import opened Validation
  import CpuList
  import Parser

  // ---- the host name pattern ----

  /** `[a-z0-9]([a-z0-9-]{0,61}[a-z0-9])?`: one character, or a first, a last, and up to 61
      letters, digits and hyphens between them. */
  ghost predicate MatchesLine(t: string) {
    || (|t| == 1 && IsAlphanumeric(t[0]))
    || exists first, middle, last :: t == [first] + middle + [last] && MatchesParts(first, middle, last)
  }

  predicate MatchesParts(first: char, middle: string, last: char) {
    && IsAlphanumeric(first) && IsAlphanumeric(last) && |middle| <= 61
    && forall i :: 0 <= i < |middle| ==> IsAlphanumeric(middle[i]) || middle[i] == '-'
  }

  /** Whole, or before one newline at the end, as `$` has it. */
  ghost predicate MatchesPattern(s: string) {
    MatchesLine(s) || exists t :: s == t + "\n" && MatchesLine(t)
  }

  lemma LabelMatches(t: string)
    ensures IsLabel(t) <==> MatchesLine(t)
  {
    hide IsAlphanumeric;
    if IsLabel(t) && |t| > 1 {
      var first, middle, last := t[0], t[1..|t| - 1], t[|t| - 1];
      assert t == [first] + middle + [last];
      assert MatchesParts(first, middle, last);
    }
    if |t| != 1 && MatchesLine(t) {
      var first, middle, last :| t == [first] + middle + [last] && MatchesParts(first, middle, last);
      forall i | 0 <= i < |t| ensures IsAlphanumeric(t[i]) || t[i] == '-' {
        assert 0 < i < |t| - 1 ==> t[i] == middle[i - 1];
      }
    }
  }

  lemma HostnameMatches(s: string)
    ensures IsHostname(s) <==> MatchesPattern(s)
  {
    hide IsLabel, MatchesLine;
    LabelMatches(s);
    if s != "" {
      var t := s[..|s| - 1];
      LabelMatches(t);
      assert s[|s| - 1] == '\n' ==> s == t + "\n";
      if u :| s == u + "\n" && MatchesLine(u) {
        assert u == t;
      }
    }
  }

  // ---- one host ----

  /** Optional and empty, or absent. */
  predicate Unset(value: Option<string>) {
    value.None? || value.value == ""
  }

  function LevelOf(rule: Rule): Level {
    match rule
    case ObserverHasNoPtp | HypervisorHasPtp | PtpIsNotTheAdministrationInterface => Warning
    case NtpFallbackExists | IsolationIsConfigured => Warning
    case _ => Error
  }

  ghost predicate Reachable(gateway: Address, address: Address, prefix: PrefixLength) {
    gateway.version == address.version && gateway.bits[..prefix] == address.bits[..prefix]
  }

  /** When a host breaks a rule. */
  ghost predicate Breaks(rule: Rule, name: Name, node: NodeConfig, ip: Library) {
    var address, gateway := ip(node.ansibleHost), if node.gatewayAddr.Some? then ip(node.gatewayAddr.value) else None;
    match rule
    case HostKeyIsAHostname => !MatchesPattern(Parser.KeyText(name))
    case AddressIsAnAddress => address.None?
    case AddressIsNotLoopback => address.Some? && address.value.isLoopback
    case InterfaceIsNamed => node.networkInterface == ""
    case GatewayIsAnAddress => !Unset(node.gatewayAddr) && gateway.None?
    case GatewayIsReachable =>
      && !Unset(node.gatewayAddr) && gateway.Some? && address.Some?
      && !Reachable(gateway.value, address.value, node.subnet)
    case DnsServersAreAddresses => exists server :: server in node.dnsServers && ip(server).None?
    case ObserverHasNoPtp => node.role.Observer? && !Unset(node.ptpInterface)
    case HypervisorHasPtp => node.role.Hypervisor? && Unset(node.ptpInterface)
    case PtpIsNotTheAdministrationInterface =>
      !Unset(node.ptpInterface) && node.ptpInterface == Some(node.networkInterface)
    case NtpFallbackExists => node.ntpServers == []
    case GrubPasswordIsAHash => !Unset(node.grubPassword) && !("grub.pbkdf2." <= node.grubPassword.value)
    case IsolationIsConfigured => Unset(node.isolcpus)
    case IsolcpusIsACpuList => !Unset(node.isolcpus) && forall cpu :: !CpuList.Denotes(node.isolcpus.value, cpu)
    case CpuZeroStaysHousekeeping => !Unset(node.isolcpus) && CpuList.Denotes(node.isolcpus.value, 0)
    case AtLeastOneHost | StandaloneIsOneMachine | AddressesAreUnique => false
  }

  function Named(rule: Rule, name: Name): Finding {
    Finding(LevelOf(rule), rule, Some(name))
  }

  lemma InIf(condition: bool, rule: Rule, name: Name, f: Finding)
    ensures f in If(condition, LevelOf(rule), rule, name) <==> condition && f == Named(rule, name)
  {}

  /** Where the servers are that are no address. */
  function BadPlaces(servers: seq<string>, ip: Library): set<nat> {
    set i: nat | i < |servers| && ip(servers[i]).None?
  }

  lemma {:induction false} InDns(name: Name, servers: seq<string>, ip: Library, f: Finding)
    ensures f in DnsFindings(name, servers, ip) <==>
              f == Named(DnsServersAreAddresses, name) && exists server :: server in servers && ip(server).None?
  {
    if servers != [] {
      var init, last := servers[..|servers| - 1], servers[|servers| - 1];
      InDns(name, init, ip, f);
      assert servers == init + [last];
    }
  }

  lemma BadAppend(servers: seq<string>, last: string, ip: Library)
    ensures |BadPlaces(servers + [last], ip)| == |BadPlaces(servers, ip)| + if ip(last).None? then 1 else 0
  {
    var all := servers + [last];
    assert BadPlaces(all, ip) == BadPlaces(servers, ip) + if ip(last).None? then {|servers|} else {};
  }

  /** One finding for each server that is no address. */
  lemma {:induction false} DnsFindingsCount(name: Name, servers: seq<string>, ip: Library)
    ensures |DnsFindings(name, servers, ip)| == |BadPlaces(servers, ip)|
  {
    if servers == [] {
      assert BadPlaces(servers, ip) == {};
    } else {
      hide BadPlaces;
      var init, last := servers[..|servers| - 1], servers[|servers| - 1];
      DnsFindingsCount(name, init, ip);
      BadAppend(init, last, ip);
      assert servers == init + [last];
    }
  }

  lemma InAddress(name: Name, node: NodeConfig, ip: Library, f: Finding)
    ensures f in AddressFindings(name, ip(node.ansibleHost)) <==>
              f.rule in {AddressIsAnAddress, AddressIsNotLoopback} && f == Named(f.rule, name)
              && Breaks(f.rule, name, node, ip)
  {
    hide MatchesPattern, CpuList.Denotes;
  }

  lemma InGateway(name: Name, node: NodeConfig, ip: Library, f: Finding)
    ensures f in GatewayFindings(name, node, ip(node.ansibleHost), ip) <==>
              f.rule in {GatewayIsAnAddress, GatewayIsReachable} && f == Named(f.rule, name)
              && Breaks(f.rule, name, node, ip)
  {
    hide MatchesPattern, CpuList.Denotes, InNetwork;
    var address := ip(node.ansibleHost);
    if !Unset(node.gatewayAddr) && ip(node.gatewayAddr.value).Some? && address.Some? {
      NetworkIsPrefix(ip(node.gatewayAddr.value).value, address.value, node.subnet);
    }
  }

  lemma InNetworkRules(name: Name, node: NodeConfig, ip: Library, f: Finding)
    ensures f in NetworkFindings(name, node, ip) <==>
              f.rule in {HostKeyIsAHostname, AddressIsAnAddress, AddressIsNotLoopback, InterfaceIsNamed,
                         GatewayIsAnAddress, GatewayIsReachable, DnsServersAreAddresses}
              && f == Named(f.rule, name) && Breaks(f.rule, name, node, ip)
  {
    hide MatchesPattern, CpuList.Denotes, IsHostname, If, AddressFindings, GatewayFindings, DnsFindings, Parser.KeyText;
    HostnameMatches(Parser.KeyText(name));
    InIf(!IsHostname(Parser.KeyText(name)), HostKeyIsAHostname, name, f);
    InAddress(name, node, ip, f);
    InIf(node.networkInterface == "", InterfaceIsNamed, name, f);
    InGateway(name, node, ip, f);
    InDns(name, node.dnsServers, ip, f);
  }

  lemma InPtp(name: Name, node: NodeConfig, ip: Library, f: Finding)
    ensures f in PtpFindings(name, node) <==>
              f.rule in {ObserverHasNoPtp, HypervisorHasPtp, PtpIsNotTheAdministrationInterface}
              && f == Named(f.rule, name) && Breaks(f.rule, name, node, ip)
  {
    hide MatchesPattern, CpuList.Denotes, If;
    assert Filled(node.ptpInterface) <==> !Unset(node.ptpInterface);
    InIf(node.role.Observer? && Filled(node.ptpInterface), ObserverHasNoPtp, name, f);
    InIf(node.role.Hypervisor? && !Filled(node.ptpInterface), HypervisorHasPtp, name, f);
    InIf(Filled(node.ptpInterface) && node.ptpInterface.value == node.networkInterface,
         PtpIsNotTheAdministrationInterface, name, f);
  }

  lemma InIsolcpus(name: Name, node: NodeConfig, ip: Library, f: Finding)
    ensures f in IsolcpusFindings(name, node.isolcpus) <==>
              f.rule in {IsolationIsConfigured, IsolcpusIsACpuList, CpuZeroStaysHousekeeping}
              && f == Named(f.rule, name) && Breaks(f.rule, name, node, ip)
  {
    hide MatchesPattern, CpuList.Denotes, CpuList.Parse, If;
    if !Unset(node.isolcpus) {
      var isolated := CpuList.Parse(node.isolcpus.value);
      CpuList.ParseMeaning(node.isolcpus.value);
      InIf(0 in isolated, CpuZeroStaysHousekeeping, name, f);
      assert isolated != [] ==> isolated[0] in isolated;
    }
  }

  /** The findings of a host are exactly those of the rules it breaks: an error or a warning as
      the rule has it, under the rule's name, about that host. */
  lemma HostFindingsExactly(name: Name, node: NodeConfig, ip: Library, f: Finding)
    ensures f in HostFindings(name, node, ip) <==> f == Named(f.rule, name) && Breaks(f.rule, name, node, ip)
  {
    hide MatchesPattern, CpuList.Denotes, If, NetworkFindings, PtpFindings, IsolcpusFindings, Unhashed;
    InNetworkRules(name, node, ip, f);
    InPtp(name, node, ip, f);
    InIf(node.ntpServers == [], NtpFallbackExists, name, f);
    UnhashedBreaks(name, node, ip);
    InIf(Unhashed(node), GrubPasswordIsAHash, name, f);
    InIsolcpus(name, node, ip, f);
  }

  lemma UnhashedBreaks(name: Name, node: NodeConfig, ip: Library)
    ensures Unhashed(node) <==> Breaks(GrubPasswordIsAHash, name, node, ip)
  {}

  // ---- the whole inventory ----

  ghost predicate Repeats(hosts: Dict<NodeConfig>, j: nat) {
    j < |hosts| && exists i :: 0 <= i < j && hosts[i].1.ansibleHost == hosts[j].1.ansibleHost
  }

  lemma {:induction false} InAcross(hosts: Dict<NodeConfig>, f: Finding)
    ensures f in AcrossFindings(hosts) <==>
              exists j: nat :: Repeats(hosts, j) && f == Named(AddressesAreUnique, hosts[j].0)
  {
    if hosts != [] {
      var init, last := hosts[..|hosts| - 1], hosts[|hosts| - 1];
      InAcross(init, f);
      forall j: nat | j < |init| ensures Repeats(hosts, j) <==> Repeats(init, j) {
        assert forall i :: 0 <= i < |init| ==> init[i] == hosts[i];
      }
      LastRepeats(init, last);
      assert init + [last] == hosts;
      InIf(last.1.ansibleHost in AddressesOf(init), AddressesAreUnique, last.0, f);
      assert Repeats(hosts, |init|) <==> last.1.ansibleHost in AddressesOf(init);
    }
  }

  lemma LastRepeats(init: Dict<NodeConfig>, last: (Name, NodeConfig))
    ensures Repeats(init + [last], |init|) <==> last.1.ansibleHost in AddressesOf(init)
  {
    var hosts := init + [last];
    assert forall i :: 0 <= i < |init| ==> hosts[i] == init[i];
  }

  lemma {:induction false} InEach(hosts: Dict<NodeConfig>, ip: Library, f: Finding)
    ensures f in EachFindings(hosts, ip) <==>
              exists i :: 0 <= i < |hosts| && f == Named(f.rule, hosts[i].0)
                       && Breaks(f.rule, hosts[i].0, hosts[i].1, ip)
  {
    hide HostFindings, Breaks;
    if hosts != [] {
      var init, last := hosts[..|hosts| - 1], hosts[|hosts| - 1];
      InEach(init, ip, f);
      HostFindingsExactly(last.0, last.1, ip, f);
      assert forall i :: 0 <= i < |init| ==> init[i] == hosts[i];
    }
  }

  /** The findings of an inventory: none at all, more than one machine where it is standalone, the
      rules each host breaks, and each host whose address an earlier one has. Nothing else. */
  lemma FindingsExactly(inventory: Inventory, ip: Library, f: Finding)
    ensures var hosts := inventory.hosts;
      f in Findings(inventory, ip) <==>
        || (f == Finding(Error, AtLeastOneHost, None) && hosts == [])
        || (f == Finding(Error, StandaloneIsOneMachine, None) && inventory.mode.Standalone? && |hosts| > 1)
        || (exists i :: 0 <= i < |hosts| && f == Named(f.rule, hosts[i].0)
                     && Breaks(f.rule, hosts[i].0, hosts[i].1, ip))
        || (exists j: nat :: Repeats(hosts, j) && f == Named(AddressesAreUnique, hosts[j].0))
  {
    hide EachFindings, AcrossFindings, Breaks, Repeats;
    InEach(inventory.hosts, ip, f);
    InAcross(inventory.hosts, f);
  }
}
