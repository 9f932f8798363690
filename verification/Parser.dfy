/** The YAML tree read back into the model. */
module Parser {
  import opened Wrappers
  import opened InventoryModel
  import Text

  /** What `int` makes of a value: a number, a TypeError or ValueError, or the OverflowError of
      an infinite float. */
  datatype Conversion = Number(n: int) | NoNumber | Overflow

  /** Python's `str` and `int` on the values this model does not look into: collections and
      other scalars. */
  datatype Python = Python(text: Value -> string, integer: Value -> Conversion)

  predicate Truthy(v: Value) {
    match v
    case Null => false
    case Bool(b) => b
    case Int(n) => n != 0
    case Str(s) => s != ""
    case List(items) => items != []
    case Mapping(entries) => entries != []
    case Other(_, nonZero) => nonZero
  }

  function TextOf(v: Value, py: Python): string {
    match v
    case Null => "None"
    case Bool(b) => if b then "True" else "False"
    case Int(n) => Text.IntText(n)
    case Str(s) => s
    case _ => py.text(v)
  }

  /** `int(value)`. */
  function IntOf(v: Value, py: Python): Conversion {
    match v
    case Bool(b) => Number(if b then 1 else 0)
    case Int(n) => Number(n)
    case Str(s) => (match Text.ParseInt(s) case Some(n) => Number(n) case None => NoNumber)
    case Other(_, _) => py.integer(v)
    case _ => NoNumber
  }

  function Lookup(d: Dict<Value>, k: Name): Value {
    var found := Get(d, k);
    if found.Some? then found.value else Null
  }

  function OptionalText(v: Value, py: Python): Option<string> {
    if v.Null? then None else Some(TextOf(v, py))
  }

  /** The key's own spelling. */
  function KeyText(k: Name): string {
    match k
    case Site(text) => text
    case All => "all" case StandaloneMachine => "standalone_machine" case Hypervisors => "hypervisors"
    case ClusterMachines => "cluster_machines" case Observers => "observers" case Hosts => "hosts" case Vars => "vars"
    case AnsibleHost => "ansible_host" case NetworkInterface => "network_interface" case Subnet => "subnet"
    case GatewayAddr => "gateway_addr" case DnsServers => "dns_servers" case PtpInterface => "ptp_interface"
    case PtpDomainNumber => "ptp_domain_number" case NtpServers => "ntp_servers" case AdminUser => "admin_user"
    case GrubPassword => "grub_password" case Isolcpus => "isolcpus"
    case TimemasterPtpDomain => "timemaster_ptp_domain_number"
    case PtpStatusVsockDomain => "ptp_status_vsock_domain_number"
    case Hostname => "hostname" case IpAddr => "ip_addr" case ApplyNetworkConfig => "apply_network_config"
    case AnsibleConnection => "ansible_connection" case AnsiblePython => "ansible_python_interpreter"
    case AnsibleRemoteTmp => "ansible_remote_tmp" case AnsibleUser => "ansible_user"
  }

  /** A list of strings; `None` stands for the TypeError of a value that is no collection. */
  function AsTexts(v: Value, py: Python): Option<seq<string>> {
    match v
    case Null => Some([])
    case Str(s) => Some([s])
    case List(items) => Some(seq(|items|, i requires 0 <= i < |items| => TextOf(items[i], py)))
    case Mapping(entries) => Some(seq(|entries|, i requires 0 <= i < |entries| => KeyText(entries[i].0)))
    case _ => None
  }

  // ---- groups ----

  function GroupPart(group: Value, part: Name): Dict<Value> {
    if group.Mapping? && Lookup(group.entries, part).Mapping? then Lookup(group.entries, part).entries else []
  }

  function GroupHosts(doc: Dict<Value>, group: Name): Dict<Value> {
    GroupPart(Lookup(doc, group), Hosts)
  }

  // ---- one host ----

  function SubnetOf(v: Value, py: Python): Conversion {
    IntOf(if Truthy(v) then v else Int(24), py)
  }

  predicate InRange(c: Conversion, low: int, high: int) {
    c.Number? && low <= c.n <= high
  }

  /** What is no number counts as absent; an overflow or a domain out of range is a failure. */
  predicate DomainReads(c: Conversion) {
    c.NoNumber? || InRange(c, 0, 255)
  }

  /** `None` stands for an exception the parser does not catch: a subnet that is no number, a
      domain that overflows, a number out of the model's range, a list that is none. */
  function NodeOf(name: Name, variables: Dict<Value>, observers: Dict<Value>, groupIsolcpus: Value, py: Python)
    : Option<NodeConfig>
  {
    var host, interface := Lookup(variables, AnsibleHost), Lookup(variables, NetworkInterface);
    var subnet := SubnetOf(Lookup(variables, Subnet), py);
    var domain := IntOf(Lookup(variables, PtpDomainNumber), py);
    var dns, ntp := AsTexts(Lookup(variables, DnsServers), py), AsTexts(Lookup(variables, NtpServers), py);
    var isolcpus := Get(variables, Isolcpus);
    if !InRange(subnet, 1, 32) || !DomainReads(domain) || dns.None? || ntp.None? then None
    else Some(NodeConfig(
      if Has(observers, name) then Observer else Hypervisor,
      if Truthy(host) then TextOf(host, py) else "",
      if Truthy(interface) then TextOf(interface, py) else "",
      subnet.n,
      OptionalText(Lookup(variables, GatewayAddr), py),
      dns.value,
      OptionalText(Lookup(variables, PtpInterface), py),
      if domain.Number? then Some(domain.n) else None,
      ntp.value,
      OptionalText(Lookup(variables, AdminUser), py),
      OptionalText(Lookup(variables, GrubPassword), py),
      OptionalText(if isolcpus.Some? then isolcpus.value else groupIsolcpus, py),
      Only(variables, SiteOwned)))
  }

  /** A host's own variables: nothing for a host written empty; `None` when they are no mapping. */
  function OwnVariables(raw: Value): Option<Dict<Value>> {
    if raw.Mapping? then Some(raw.entries)
    else if !Truthy(raw) then Some([])
    else None
  }

  function HostOf(name: Name, raw: Value, observers: Dict<Value>, groupIsolcpus: Value, py: Python)
    : Option<NodeConfig>
  {
    var variables := OwnVariables(raw);
    if variables.None? then None else NodeOf(name, variables.value, observers, groupIsolcpus, py)
  }

  function HostsOf(hosts: Dict<Value>, observers: Dict<Value>, groupIsolcpus: Value, py: Python)
    : (parsed: Option<Dict<NodeConfig>>)
    ensures parsed.Some? ==> |parsed.value| == |hosts|
    ensures parsed.Some? ==> forall i :: 0 <= i < |hosts| ==>
              && parsed.value[i].0 == hosts[i].0
              && Some(parsed.value[i].1) == HostOf(hosts[i].0, hosts[i].1, observers, groupIsolcpus, py)
    ensures (forall i :: 0 <= i < |hosts| ==> HostOf(hosts[i].0, hosts[i].1, observers, groupIsolcpus, py).Some?) ==>
              parsed.Some?
  {
    if hosts == [] then Some([])
    else
      var init, last := hosts[..|hosts| - 1], hosts[|hosts| - 1];
      var before := HostsOf(init, observers, groupIsolcpus, py);
      var node := HostOf(last.0, last.1, observers, groupIsolcpus, py);
      assert forall i :: 0 <= i < |init| ==> init[i] == hosts[i];
      if before.Some? && node.Some? then Some(before.value + [(last.0, node.value)]) else None
  }

  // ---- the document ----

  datatype Parsed = Accepted(inventory: Inventory) | Invalid | Crashed

  function GroupIsolcpus(doc: Dict<Value>): Value {
    Lookup(GroupPart(Lookup(doc, Hypervisors), Vars), Isolcpus)
  }

  function ParsedEntries(doc: Dict<Value>, py: Python): Parsed {
    var hosts := GroupHosts(doc, All);
    if hosts == [] then Invalid
    else
      var parsed := HostsOf(hosts, GroupHosts(doc, Observers), GroupIsolcpus(doc), py);
      if parsed.None? then Crashed
      else Accepted(Inventory(if GroupHosts(doc, ClusterMachines) == [] then Standalone else Cluster, parsed.value))
  }

  function ParseOf(doc: Value, py: Python): Parsed {
    if doc.Mapping? then ParsedEntries(doc.entries, py) else Invalid
  }

  method Parse(doc: Value, py: Python) returns (parsed: Parsed)
    ensures parsed == ParseOf(doc, py)
  {
    hide HostOf, GroupPart, Get;
    var loaded := if Truthy(doc) then doc else Mapping([]);
    if !loaded.Mapping? {
      return Invalid;
    }
    EmptyDocument(py);
    var hosts := GroupHosts(loaded.entries, All);
    if hosts == [] {
      return Invalid;
    }
    var members, observers := GroupHosts(loaded.entries, ClusterMachines), GroupHosts(loaded.entries, Observers);
    var isolcpus := GroupIsolcpus(loaded.entries);
    var nodes: Dict<NodeConfig> := [];
    for i := 0 to |hosts|
      invariant HostsOf(hosts[..i], observers, isolcpus, py) == Some(nodes)
    {
      assert hosts[..i + 1][..i] == hosts[..i];
      var node := HostOf(hosts[i].0, hosts[i].1, observers, isolcpus, py);
      if node.None? {
        StaysCrashed(hosts, i + 1, observers, isolcpus, py);
        return Crashed;
      }
      nodes := nodes + [(hosts[i].0, node.value)];
    }
    assert hosts[..|hosts|] == hosts;
    parsed := Accepted(Inventory(if members == [] then Standalone else Cluster, nodes));
  }

  lemma EmptyDocument(py: Python)
    ensures ParsedEntries([], py) == Invalid
  {}

  lemma {:induction false} StaysCrashed(hosts: Dict<Value>, n: nat, observers: Dict<Value>, isolcpus: Value, py: Python)
    requires n <= |hosts| && HostsOf(hosts[..n], observers, isolcpus, py).None?
    ensures HostsOf(hosts, observers, isolcpus, py).None?
    decreases |hosts| - n
  {
    hide HostOf;
    if n < |hosts| {
      assert hosts[..n + 1][..n] == hosts[..n];
      StaysCrashed(hosts, n + 1, observers, isolcpus, py);
    } else {
      assert hosts[..n] == hosts;
    }
  }
}
