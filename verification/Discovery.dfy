/** The isolated set a node proposes about itself. */
module Discovery {
  import opened Wrappers
  import opened InventoryModel
  import CpuList
  import NormalForm
  import Parser
  import Renderer
  import Text
  import Validation

  const HOUSEKEEPING_CPUS := 4

  /** The observed set, or one from the topology: everything but the first physical core. */
  function ProposeIsolation(isolatedNow: seq<int>, online: Option<int>): Option<string> {
    if isolatedNow != [] then Some(CpuList.Print(isolatedNow))
    else if online.None? || online.value == 0 || online.value <= HOUSEKEEPING_CPUS then None
    else Some(Text.IntText(HOUSEKEEPING_CPUS) + "-" + Text.IntText(online.value - 1))
  }

  lemma PrintedProposal(cpus: seq<int>, name: Name)
    requires cpus != [] && CpuList.IsCpuSet(cpus)
    ensures Validation.Valid(Validation.IsolcpusFindings(name, Some(CpuList.Print(cpus)))) <==> 0 !in cpus
    ensures CpuList.Print(cpus) != "" && CpuList.Parse(CpuList.Print(cpus)) == cpus
  {
    hide CpuList.Parse, CpuList.Print;
    CpuList.RoundTrip(cpus);
    CpuList.ParseOfNothing();
    Validation.ValidIf(0 in cpus, Validation.CpuZeroStaysHousekeeping, name);
  }

  lemma TopologyProposal(hi: nat, name: Name)
    requires hi >= HOUSEKEEPING_CPUS
    ensures var text := Text.IntText(HOUSEKEEPING_CPUS) + "-" + Text.IntText(hi);
            Validation.Valid(Validation.IsolcpusFindings(name, Some(text)))
  {
    hide Validation.Valid, Validation.IsolcpusFindings, CpuList.Denotes, Text.IntText;
    var text := Text.IntText(HOUSEKEEPING_CPUS) + "-" + Text.IntText(hi);
    CpuList.DashedDenotes(HOUSEKEEPING_CPUS, hi, HOUSEKEEPING_CPUS);
    CpuList.DashedDenotes(HOUSEKEEPING_CPUS, hi, 0);
    Validation.ValidIsolcpus(name, Some(text));
  }

  /** A node proposes an isolated set the validator refuses exactly when the observed set
      contains CPU 0; what it proposes from the topology is never refused. */
  lemma ProposalIsRefusedExactly(isolatedNow: seq<int>, online: Option<int>, name: Name)
    requires CpuList.IsCpuSet(isolatedNow)
    ensures Validation.Valid(Validation.IsolcpusFindings(name, ProposeIsolation(isolatedNow, online))) <==>
              0 !in isolatedNow
  {
    hide CpuList.Parse, CpuList.Print, Validation.Valid, Validation.IsolcpusFindings, Text.IntText;
    if isolatedNow != [] {
      PrintedProposal(isolatedNow, name);
    } else if ProposeIsolation(isolatedNow, online).None? {
      Validation.ValidOne(Validation.Warning, Validation.IsolationIsConfigured, Some(name));
      NoProposal(name);
    } else {
      TopologyProposal(online.value - 1, name);
    }
  }

  lemma NoProposal(name: Name)
    ensures Validation.IsolcpusFindings(name, None) ==
              [Validation.Finding(Validation.Warning, Validation.IsolationIsConfigured, Some(name))]
  {}

  /** A proposal denotes exactly the CPUs observed as isolated, or where there is none, all but
      the first four of those online; there is none exactly where neither says anything. */
  lemma ProposalDenotes(isolatedNow: seq<int>, online: Option<int>, cpu: int)
    requires CpuList.IsCpuSet(isolatedNow) && (online.Some? ==> online.value >= 0)
    ensures ProposeIsolation(isolatedNow, online).None? <==> isolatedNow == [] && (online.None? || online.value <= 4)
    ensures ProposeIsolation(isolatedNow, online).Some? ==>
              (CpuList.Denotes(ProposeIsolation(isolatedNow, online).value, cpu) <==>
                if isolatedNow != [] then cpu in isolatedNow else 4 <= cpu <= online.value - 1)
  {
    hide CpuList.Denotes, CpuList.Print, Text.IntText;
    if isolatedNow != [] {
      CpuList.PrintDenotes(isolatedNow, cpu);
    } else if online.Some? && online.value > 4 {
      CpuList.DashedDenotes(4, online.value - 1, cpu);
    }
  }

  // ---- the inventory a node writes about itself ----

  /** What a node observes of the interface that carries its default route. */
  datatype Administration = Administration(address: string, prefix: Option<PrefixLength>, name: string)

  /** The node a machine proposes for itself; none without an administration interface. */
  function Proposed(admin: Option<Administration>, gateway: Option<string>, isolatedNow: seq<int>, online: Option<int>)
    : Option<NodeConfig>
  {
    if admin.None? then None
    else
      var a := admin.value;
      Some(NodeConfig(
        Hypervisor, a.address, a.name, if a.prefix.Some? then a.prefix.value else 24, gateway,
        [], None, None, [], None, None, ProposeIsolation(isolatedNow, online), []))
  }

  function SeedInventory(hostname: Name, proposed: Option<NodeConfig>): Option<Inventory> {
    if proposed.None? then None else Some(Inventory(Standalone, [(hostname, proposed.value)]))
  }

  /** The seed a node writes about itself is read back identical: it describes one standalone
      hypervisor, with the observed address, and no variable it did not observe. */
  lemma SeedIsReadBack(hostname: Name, admin: Administration, gateway: Option<string>, isolatedNow: seq<int>,
                       online: Option<int>, py: Parser.Python)
    requires CpuList.IsCpuSet(isolatedNow) && gateway != Some("")
    ensures var seed := SeedInventory(hostname, Proposed(Some(admin), gateway, isolatedNow, online));
      && seed.Some? && Renderer.Rendered(seed.value).Some?
      && Parser.ParseOf(Renderer.Rendered(seed.value).value, py) == Parser.Accepted(seed.value)
      && seed.value.mode.Standalone? && HostNames(seed.value) == [hostname]
      && var node := seed.value.hosts[0].1;
      && node.role.Hypervisor? && node.ansibleHost == admin.address && node.networkInterface == admin.name
      && node.subnet == (if admin.prefix.Some? then admin.prefix.value else 24) && node.gatewayAddr == gateway
      && node.dnsServers == node.ntpServers == [] && node.ptpInterface == None && node.extra == []
  {
    hide Renderer.Rendered, Parser.ParseOf, CpuList.Print, CpuList.IsCpuSet, Text.IntText;
    var seed := SeedInventory(hostname, Proposed(Some(admin), gateway, isolatedNow, online)).value;
    ProposalIsNotEmpty(isolatedNow, online);
    var nothing: Dict<Value> := [];
    forall k ensures !Has(nothing, k) {
      GetNothing(nothing, k);
    }
    NormalForm.CanonicalReadsBack(seed, py);
  }

  lemma ProposalIsNotEmpty(isolatedNow: seq<int>, online: Option<int>)
    requires CpuList.IsCpuSet(isolatedNow)
    ensures ProposeIsolation(isolatedNow, online) != Some("")
  {
    hide CpuList.Print, Text.IntText;
    if isolatedNow != [] {
      PrintedProposal(isolatedNow, All);
    }
  }
}
