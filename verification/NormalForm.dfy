/** When an inventory reads back as itself, when a rewritten file is stable, and what a
    rewrite keeps. */
module NormalForm {
  import opened Wrappers
  import opened InventoryModel
  import opened Renderer
  import opened Parser
  import opened RoundTrip

  // ---- reading back what was written ----

  /** Python's equality of two nodes: dictionaries compare without order. */
  ghost predicate SameNode(a: NodeConfig, b: NodeConfig) {
    a.(extra := []) == b.(extra := []) && forall k :: Get(a.extra, k) == Get(b.extra, k)
  }

  ghost predicate SameInventory(a: Inventory, b: Inventory) {
    && a.mode == b.mode
    && (forall k :: Has(a.hosts, k) <==> Has(b.hosts, k))
    && (forall k :: Has(a.hosts, k) && Has(b.hosts, k) ==> SameNode(Get(a.hosts, k).value, Get(b.hosts, k).value))
  }

  /** Its dictionaries have no duplicate key. */
  ghost predicate IsInventory(inventory: Inventory) {
    Unique(inventory.hosts) && forall i :: 0 <= i < |inventory.hosts| ==> Unique(inventory.hosts[i].1.extra)
  }

  /** Absent or not empty. */
  predicate Proper(value: Option<string>) {
    value != Some("")
  }

  ghost predicate CanonicalNode(node: NodeConfig) {
    && node.role.Hypervisor?
    && Proper(node.gatewayAddr) && Proper(node.ptpInterface) && Proper(node.adminUser) && Proper(node.grubPassword)
    && forall k :: Has(node.extra, k) ==> SiteOwned(k)
  }

  /** All hosts share one isolated set, or none has any. */
  ghost predicate SharedIsolcpus(hosts: Dict<NodeConfig>) {
    && (forall i, j :: 0 <= i < j < |hosts| ==> hosts[i].1.isolcpus == hosts[j].1.isolcpus)
    && (forall i :: 0 <= i < |hosts| ==> Proper(hosts[i].1.isolcpus))
  }

  ghost predicate Canonical(inventory: Inventory) {
    && inventory.mode.Standalone? && inventory.hosts != []
    && (forall i :: 0 <= i < |inventory.hosts| ==> CanonicalNode(inventory.hosts[i].1))
    && SharedIsolcpus(inventory.hosts)
  }

  ghost predicate ReadsBack(inventory: Inventory, py: Python) {
    var document := Rendered(inventory);
    && document.Some?
    && ParseOf(document.value, py).Accepted?
    && SameInventory(ParseOf(document.value, py).inventory, inventory)
  }

  lemma CommonOfShared(hosts: Dict<NodeConfig>, i: nat)
    requires SharedIsolcpus(hosts) && i < |hosts|
    ensures hosts[i].1.isolcpus == Common(hosts)
  {
    var value := hosts[i].1.isolcpus;
    assert forall j :: 0 <= j < |hosts| ==> hosts[j].1.isolcpus == value;
    if value.Some? {
      assert IsolatedSets(hosts) == {value.value} by {
        assert value.value in IsolatedSets(hosts);
      }
    } else {
      assert IsolatedSets(hosts) == {};
    }
  }

  lemma NormalOfCanonical(inventory: Inventory)
    requires Canonical(inventory)
    ensures NormalForm(inventory) == inventory
  {
    hide Common;
    var hosts := inventory.hosts;
    forall i | 0 <= i < |hosts| ensures NormalHosts(hosts, Common(hosts))[i] == hosts[i] {
      CommonOfShared(hosts, i);
    }
    assert NormalHosts(hosts, Common(hosts)) == hosts;
  }

  /** A canonical inventory is read back exactly, order included. */
  lemma CanonicalReadsBack(inventory: Inventory, py: Python)
    requires IsInventory(inventory) && Canonical(inventory)
    ensures Rendered(inventory).Some? && ParseOf(Rendered(inventory).value, py) == Accepted(inventory)
  {
    hide Rendered, ParseOf, RoundTrip.NormalForm, SharedIsolcpus;
    ParseOfRender(inventory, py);
    NormalOfCanonical(inventory);
  }

  lemma {:induction false} GetAt<V>(d: Dict<V>, i: nat)
    requires Unique(d) && i < |d|
    ensures Get(d, d[i].0) == Some(d[i].1)
  {
    if i > 0 {
      GetAt(d[1..], i - 1);
    }
  }

  lemma ParsedHost(inventory: Inventory, py: Python, i: nat)
    requires IsInventory(inventory) && i < |inventory.hosts| && inventory.mode.Standalone?
    requires ParseOf(Rendered(inventory).value, py).Accepted?
    ensures var parsed := ParseOf(Rendered(inventory).value, py).inventory;
      && |parsed.hosts| == |inventory.hosts|
      && parsed.hosts[i].0 == inventory.hosts[i].0
      && parsed.hosts[i].1.extra == Only(HostVarsOf(inventory.hosts[i].1), SiteOwned)
  {
    hide GroupOf, HostSet, Document, HostVarsOf, GroupNames, GroupHosts, GroupIsolcpus, Only, Common, IsCommon;
    var entries, common := HostEntries(inventory.hosts), Common(inventory.hosts);
    DocumentParts(entries, HostNames(inventory), GroupNames(inventory), common);
    ExtraOf(entries[i].0, HostVarsOf(inventory.hosts[i].1), [], CommonValue(common), py);
  }

  lemma ExtraOf(name: Name, variables: Dict<Value>, observers: Dict<Value>, isolcpus: Value, py: Python)
    ensures var node := HostOf(name, Mapping(variables), observers, isolcpus, py);
            node.Some? ==> node.value.extra == Only(variables, SiteOwned)
  {
    hide SubnetOf, IntOf, AsTexts, Lookup, Only;
  }

  lemma {:induction false} OnlyKeeps<V>(d: Dict<V>, keep: Name -> bool, k: Name)
    ensures Has(Only(d, keep), k) ==> keep(k)
  {
    if d != [] {
      OnlyKeeps(d[1..], keep, k);
      GetConcat(if keep(d[0].0) then [d[0]] else [], Only(d[1..], keep), k);
      GetCons(d[0], [], k);
      assert [d[0]] + [] == [d[0]];
    }
  }

  lemma ReadBackHostIsClean(inventory: Inventory, py: Python, i: nat)
    requires IsInventory(inventory) && ReadsBack(inventory, py) && i < |inventory.hosts|
    ensures CleanExtra(inventory.hosts[i].1)
  {
    hide ParseOf, Get, Only, HostVarsOf, SiteOwned;
    var parsed := ParseOf(Rendered(inventory).value, py).inventory;
    var node := inventory.hosts[i].1;
    ParsedHost(inventory, py, i);
    forall j | 0 <= j < |parsed.hosts| ensures parsed.hosts[j].0 == inventory.hosts[j].0 {
      ParsedHost(inventory, py, j);
    }
    assert Unique(parsed.hosts);
    GetAt(parsed.hosts, i);
    GetAt(inventory.hosts, i);
    forall k | Has(node.extra, k) ensures SiteOwned(k) {
      assert Get(parsed.hosts[i].1.extra, k) == Get(node.extra, k);
      OnlyKeeps(HostVarsOf(node), SiteOwned, k);
    }
  }

  lemma RenderedAccepts(inventory: Inventory, py: Python)
    requires inventory.mode.Standalone? && ParseOf(Rendered(inventory).value, py).Accepted?
    ensures inventory.hosts != []
  {
    hide GroupOf, HostSet, Document, HostVarsOf, GroupNames, GroupHosts, GroupIsolcpus, Common, IsCommon;
    DocumentParts(HostEntries(inventory.hosts), HostNames(inventory), GroupNames(inventory), Common(inventory.hosts));
  }

  lemma CommonIsProper(hosts: Dict<NodeConfig>)
    ensures Proper(Common(hosts))
  {
    if Common(hosts).Some? {
      assert Common(hosts).value in IsolatedSets(hosts);
    }
  }

  /** `parse(render(x)) == x` exactly for canonical inventories: standalone, at least one
      host, all of them hypervisors, one shared isolated set or none, optional strings absent
      or not empty, and no extra variable under a modelled, fixed or alias name. */
  lemma RoundTripExactly(inventory: Inventory, py: Python)
    requires IsInventory(inventory)
    ensures ReadsBack(inventory, py) <==> Canonical(inventory)
  {
    hide ParseOf, Get, SiteOwned;
    if Canonical(inventory) {
      CanonicalReadsBack(inventory, py);
    }
    if ReadsBack(inventory, py) {
      var hosts := inventory.hosts;
      RenderedAccepts(inventory, py);
      forall i | 0 <= i < |hosts| ensures CleanExtra(hosts[i].1) {
        ReadBackHostIsClean(inventory, py, i);
      }
      ParseOfRender(inventory, py);
      CommonIsProper(hosts);
      forall i | 0 <= i < |hosts| ensures CanonicalNode(hosts[i].1) && hosts[i].1.isolcpus == Common(hosts) {
        SameAsNormal(inventory, i);
      }
    }
  }

  lemma SameAsNormal(inventory: Inventory, i: nat)
    requires IsInventory(inventory) && i < |inventory.hosts|
    requires SameInventory(NormalForm(inventory), inventory)
    requires CleanExtra(inventory.hosts[i].1)
    ensures CanonicalNode(inventory.hosts[i].1) && inventory.hosts[i].1.isolcpus == Common(inventory.hosts)
  {
    hide Get, SiteOwned, Common;
    var normal := NormalForm(inventory);
    assert Unique(normal.hosts);
    GetAt(normal.hosts, i);
    GetAt(inventory.hosts, i);
    assert SameNode(normal.hosts[i].1, inventory.hosts[i].1);
  }

  // ---- rewriting a file ----

  /** No dictionary of the document's hosts has a duplicate key, as YAML loads them. */
  ghost predicate IsDocument(doc: Value) {
    doc.Mapping? ==>
      var hosts := GroupHosts(doc.entries, All);
      forall i :: 0 <= i < |hosts| && hosts[i].1.Mapping? ==> Unique(hosts[i].1.entries)
  }

  lemma AcceptedHost(doc: Value, py: Python, i: nat)
    requires IsDocument(doc) && ParseOf(doc, py).Accepted?
    ensures var hosts, inventory := GroupHosts(doc.entries, All), ParseOf(doc, py).inventory;
      && |inventory.hosts| == |hosts| && hosts != []
      && (i < |hosts| ==>
            && inventory.hosts[i].0 == hosts[i].0
            && OwnVariables(hosts[i].1).Some?
            && CleanExtra(inventory.hosts[i].1)
            && forall k :: SiteOwned(k) ==>
                 Get(inventory.hosts[i].1.extra, k) == Get(OwnVariables(hosts[i].1).value, k))
  {
    hide NodeOf, Only, Get, SiteOwned;
    var hosts := GroupHosts(doc.entries, All);
    if i < |hosts| {
      var own := OwnVariables(hosts[i].1).value;
      NodeExtra(hosts[i].0, own, GroupHosts(doc.entries, Observers), GroupIsolcpus(doc.entries), py);
      OnlyUnique(own, SiteOwned);
    }
  }

  lemma NodeExtra(name: Name, variables: Dict<Value>, observers: Dict<Value>, isolcpus: Value, py: Python)
    ensures var node := NodeOf(name, variables, observers, isolcpus, py);
            node.Some? ==> node.value.extra == Only(variables, SiteOwned)
  {
    hide SubnetOf, IntOf, AsTexts, Lookup, Only, Get;
  }

  ghost predicate UniformRoles(inventory: Inventory) {
    (forall i :: 0 <= i < |inventory.hosts| ==> inventory.hosts[i].1.role.Hypervisor?)
    || (forall i :: 0 <= i < |inventory.hosts| ==> inventory.hosts[i].1.role.Observer?)
  }

  lemma {:induction false} WithRoleCounts(hosts: Dict<NodeConfig>, role: Role)
    ensures |WithRole(hosts, role)| <= |hosts|
    ensures |WithRole(hosts, role)| == |hosts| <==> forall i :: 0 <= i < |hosts| ==> hosts[i].1.role == role
    ensures |WithRole(hosts, role)| == |hosts| ==> WithRole(hosts, role) == Keys(hosts)
    ensures WithRole(hosts, role) == [] <==> forall i :: 0 <= i < |hosts| ==> hosts[i].1.role != role
  {
    if hosts != [] {
      var rest := hosts[1..];
      WithRoleCounts(rest, role);
      assert forall i :: 0 <= i < |rest| ==> rest[i] == hosts[i + 1];
      assert forall i :: 0 < i < |hosts| ==> hosts[i] == rest[i - 1];
      assert Keys(hosts) == [hosts[0].0] + Keys(rest);
    }
  }

  lemma RolesOfGroup(inventory: Inventory)
    requires inventory.hosts != []
    ensures GroupNames(inventory) == HostNames(inventory) <==> UniformRoles(inventory)
  {
    hide WithRole;
    WithRoleCounts(inventory.hosts, Hypervisor);
    assert |HostNames(inventory)| == |inventory.hosts|;
    assert inventory.hosts[0].1.role.Hypervisor? || inventory.hosts[0].1.role.Observer?;
  }

  lemma NormalHostVars(node: NodeConfig, common: Option<string>)
    ensures HostVarsOf(NormalNode(node, common)) == HostVarsOf(node)
  {
    hide Present, Overlay;
    assert Slots(NormalNode(node, common)) == Slots(node);
  }

  lemma NormalEntries(hosts: Dict<NodeConfig>, common: Option<string>)
    ensures HostEntries(NormalHosts(hosts, common)) == HostEntries(hosts)
    ensures Keys(NormalHosts(hosts, common)) == Keys(hosts)
  {
    hide HostVarsOf;
    forall i | 0 <= i < |hosts| ensures HostEntries(NormalHosts(hosts, common))[i] == HostEntries(hosts)[i] {
      NormalHostVars(hosts[i].1, common);
    }
  }

  lemma NormalCommon(hosts: Dict<NodeConfig>)
    requires hosts != []
    ensures Common(NormalHosts(hosts, Common(hosts))) == Common(hosts)
  {
    hide Common;
    CommonIsProper(hosts);
    var normal := NormalHosts(hosts, Common(hosts));
    assert SharedIsolcpus(normal);
    CommonOfShared(normal, 0);
  }

  lemma HostSetsDiffer(a: seq<Name>, b: seq<Name>)
    ensures HostSet(a) == HostSet(b) <==> a == b
  {
    if HostSet(a) == HostSet(b) {
      assert |a| == |b|;
      forall i | 0 <= i < |a| ensures a[i] == b[i] {
        assert HostSet(a)[i] == HostSet(b)[i];
      }
    }
  }

  lemma GroupsDiffer(a: seq<Name>, b: seq<Name>, common: Option<string>)
    ensures GroupOf(a, common) == GroupOf(b, common) <==> a == b
  {
    hide HostSet;
    HostSetsDiffer(a, b);
    if GroupOf(a, common) == GroupOf(b, common) {
      assert GroupOf(a, common).entries[0] == GroupOf(b, common).entries[0];
    }
  }

  lemma DocumentsDiffer(hosts: Value, all: seq<Name>, a: Value, b: Value)
    ensures Document(hosts, all, a) == Document(hosts, all, b) <==> a == b
  {
    hide HostSet;
    if Document(hosts, all, a) == Document(hosts, all, b) {
      assert Document(hosts, all, a).entries[2] == Document(hosts, all, b).entries[2];
    }
  }

  /** Rendering the normal form again writes the same file exactly when the roles are uniform. */
  lemma NormalFormRenders(inventory: Inventory)
    requires inventory.mode.Standalone? && inventory.hosts != []
    ensures Rendered(NormalForm(inventory)) == Rendered(inventory) <==> UniformRoles(inventory)
  {
    hide Common, Document, GroupOf, GroupNames, HostVarsOf;
    var normal := NormalForm(inventory);
    NormalEntries(inventory.hosts, Common(inventory.hosts));
    NormalCommon(inventory.hosts);
    RolesOfGroup(inventory);
    RolesOfGroup(normal);
    assert UniformRoles(normal);
    GroupsDiffer(GroupNames(inventory), HostNames(inventory), Common(inventory.hosts));
    DocumentsDiffer(Mapping(HostEntries(inventory.hosts)), HostNames(inventory),
                    GroupOf(GroupNames(inventory), Common(inventory.hosts)),
                    GroupOf(HostNames(inventory), Common(inventory.hosts)));
  }

  /** For an accepted standalone document, a second parse and render changes nothing exactly
      when its roles are uniform. */
  lemma RewriteIsStable(doc: Value, py: Python)
    requires IsDocument(doc) && ParseOf(doc, py).Accepted? && ParseOf(doc, py).inventory.mode.Standalone?
    ensures var first := Rendered(ParseOf(doc, py).inventory);
      && first.Some?
      && ParseOf(first.value, py).Accepted?
      && (Rendered(ParseOf(first.value, py).inventory) == first <==> UniformRoles(ParseOf(doc, py).inventory))
  {
    hide ParseOf, Rendered, UniformRoles, RoundTrip.NormalForm;
    var inventory := ParseOf(doc, py).inventory;
    forall i | 0 <= i < |inventory.hosts| ensures CleanExtra(inventory.hosts[i].1) {
      AcceptedHost(doc, py, i);
    }
    AcceptedHost(doc, py, 0);
    ParseOfRender(inventory, py);
    NormalFormRenders(inventory);
  }

  lemma RenderedHost(inventory: Inventory, i: nat)
    requires inventory.mode.Standalone? && i < |inventory.hosts|
    ensures Rendered(inventory).Some? && Rendered(inventory).value.Mapping?
    ensures var hosts := GroupHosts(Rendered(inventory).value.entries, All);
      |hosts| == |inventory.hosts| && hosts[i] == (inventory.hosts[i].0, Mapping(HostVarsOf(inventory.hosts[i].1)))
  {
    hide GroupOf, HostSet, Document, HostVarsOf, GroupNames, GroupHosts, GroupIsolcpus, Common, IsCommon;
    DocumentParts(HostEntries(inventory.hosts), HostNames(inventory), GroupNames(inventory), Common(inventory.hosts));
  }

  /** A rewrite keeps the hosts and their order; a variable this service does not model keeps
      its value, or stays absent; a fixed one has the fixed value. */
  lemma RewritePreserves(doc: Value, py: Python, i: nat, k: Name)
    requires IsDocument(doc) && ParseOf(doc, py).Accepted? && ParseOf(doc, py).inventory.mode.Standalone?
    requires i < |GroupHosts(doc.entries, All)|
    ensures var before := GroupHosts(doc.entries, All);
            var rendered := Rendered(ParseOf(doc, py).inventory);
            rendered.Some? && rendered.value.Mapping? &&
            var after := GroupHosts(rendered.value.entries, All);
      && |after| == |before| && after[i].0 == before[i].0
      && OwnVariables(before[i].1).Some? && after[i].1.Mapping?
      && (SiteOwned(k) ==> Get(after[i].1.entries, k) == Get(OwnVariables(before[i].1).value, k))
      && (Fixed(k) ==> Get(after[i].1.entries, k) == Get(FIXED, k))
  {
    hide ParseOf, Rendered, Get, HostVarsOf, GroupHosts, CleanExtra;
    var inventory := ParseOf(doc, py).inventory;
    AcceptedHost(doc, py, i);
    RenderedHost(inventory, i);
    HostVarsSay(inventory.hosts[i].1, k);
  }

  /** What a rewrite makes of a variable the model owns, from the host's own variables. */
  function RewrittenTo(variables: Dict<Value>, k: Name, py: Python): Option<Value> {
    var v := Lookup(variables, k);
    match k
    case AnsibleHost | NetworkInterface => Some(Str(if Truthy(v) then TextOf(v, py) else ""))
    case Subnet => AsInt(SubnetOf(v, py))
    case GatewayAddr | PtpInterface | AdminUser | GrubPassword => Written(OptionalText(v, py))
    case DnsServers | NtpServers =>
      var items := AsTexts(v, py);
      if items in {None, Some([])} then None else Some(Texts(items.value))
    case PtpDomainNumber => AsInt(IntOf(v, py))
    case TimemasterPtpDomain | PtpStatusVsockDomain =>
      if IntOf(Lookup(variables, PtpDomainNumber), py).Number? then Some(PTP_DOMAIN_REFERENCE) else None
    case _ => None
  }

  function AsInt(c: Conversion): Option<Value> {
    if c.Number? then Some(Int(c.n)) else None
  }

  lemma RenderedAliases(node: NodeConfig)
    requires CleanExtra(node)
    ensures var vars := HostVarsOf(node);
            var alias := if node.ptpDomainNumber.Some? then Some(PTP_DOMAIN_REFERENCE) else None;
            Get(vars, TimemasterPtpDomain) == alias && Get(vars, PtpStatusVsockDomain) == alias
  {
    hide Get, HostVarsOf, Texts, Written, CleanExtra, Present;
    SlotSays(node, 7);
    SlotSays(node, 8);
  }

  /** The slots of an accepted host, in terms of its own variables. */
  lemma ParsedNetwork(name: Name, vars: Dict<Value>, observers: Dict<Value>, isolcpus: Value, py: Python)
    requires NodeOf(name, vars, observers, isolcpus, py).Some?
    ensures var node := NodeOf(name, vars, observers, isolcpus, py).value;
      && RewrittenTo(vars, AnsibleHost, py) == Some(Str(node.ansibleHost))
      && RewrittenTo(vars, NetworkInterface, py) == Some(Str(node.networkInterface))
      && RewrittenTo(vars, Subnet, py) == Some(Int(node.subnet))
      && RewrittenTo(vars, GatewayAddr, py) == Written(node.gatewayAddr)
      && RewrittenTo(vars, DnsServers, py) == (if node.dnsServers == [] then None else Some(Texts(node.dnsServers)))
  {
    hide Get, Has, Only, Texts, TextOf, Truthy, Written, AsTexts, IntOf, OptionalText, Lookup, SubnetOf;
  }

  lemma ParsedTime(name: Name, vars: Dict<Value>, observers: Dict<Value>, isolcpus: Value, py: Python)
    requires NodeOf(name, vars, observers, isolcpus, py).Some?
    ensures var node := NodeOf(name, vars, observers, isolcpus, py).value;
            var domain := node.ptpDomainNumber;
            var alias := if domain.Some? then Some(PTP_DOMAIN_REFERENCE) else None;
      && RewrittenTo(vars, PtpInterface, py) == Written(node.ptpInterface)
      && RewrittenTo(vars, PtpDomainNumber, py) == (if domain.Some? then Some(Int(domain.value)) else None)
      && RewrittenTo(vars, TimemasterPtpDomain, py) == RewrittenTo(vars, PtpStatusVsockDomain, py) == alias
      && RewrittenTo(vars, NtpServers, py) == (if node.ntpServers == [] then None else Some(Texts(node.ntpServers)))
      && RewrittenTo(vars, AdminUser, py) == Written(node.adminUser)
      && RewrittenTo(vars, GrubPassword, py) == Written(node.grubPassword)
  {
    hide Get, Has, Only, Texts, TextOf, Truthy, Written, AsTexts, IntOf, OptionalText, Lookup, SubnetOf;
  }

  /** A rewrite writes each variable the model owns as the text, number or list the parser read:
      an empty one is dropped, the subnet always has a value, both aliases refer to the PTP
      domain when there is one, and `isolcpus` leaves the host. */
  lemma RewriteOwns(doc: Value, py: Python, i: nat, k: Name)
    requires IsDocument(doc) && ParseOf(doc, py).Accepted? && ParseOf(doc, py).inventory.mode.Standalone?
    requires i < |GroupHosts(doc.entries, All)| && (Modelled(k) || Alias(k))
    ensures var before := GroupHosts(doc.entries, All);
            var rendered := Rendered(ParseOf(doc, py).inventory);
            rendered.Some? && rendered.value.Mapping? &&
            var after := GroupHosts(rendered.value.entries, All);
      && |after| == |before| && after[i].1.Mapping? && OwnVariables(before[i].1).Some?
      && Get(after[i].1.entries, k) == RewrittenTo(OwnVariables(before[i].1).value, k, py)
  {
    hide Rendered, Get, HostVarsOf, GroupHosts, CleanExtra, Texts, Written, RewrittenTo, NodeOf, GroupIsolcpus;
    var inventory, host := ParseOf(doc, py).inventory, GroupHosts(doc.entries, All)[i];
    AcceptedHost(doc, py, i);
    RenderedHost(inventory, i);
    var node, own := inventory.hosts[i].1, OwnVariables(host.1).value;
    RenderedNetwork(node);
    RenderedTime(node);
    RenderedAliases(node);
    ParsedNetwork(host.0, own, GroupHosts(doc.entries, Observers), GroupIsolcpus(doc.entries), py);
    ParsedTime(host.0, own, GroupHosts(doc.entries, Observers), GroupIsolcpus(doc.entries), py);
    NoHostIsolcpus(own, py);
  }

  lemma NoHostIsolcpus(variables: Dict<Value>, py: Python)
    ensures RewrittenTo(variables, Isolcpus, py) == None
  {}

  // ---- the effective isolated set ----

  /** What Ansible makes of `isolcpus` for a host: its own variable, or its group's. */
  function EffectiveIsolcpus(doc: Dict<Value>, host: (Name, Value)): Value {
    var own := OwnVariables(host.1);
    if own.Some? && Has(own.value, Isolcpus) then Lookup(own.value, Isolcpus)
    else if Has(GroupHosts(doc, Hypervisors), host.0) then GroupIsolcpus(doc)
    else Null
  }

  /** For a document of one hypervisor host, a rewrite keeps the effective isolated set as a
      string; an empty one is dropped. */
  lemma RewriteKeepsIsolcpus(doc: Value, py: Python)
    requires IsDocument(doc) && ParseOf(doc, py).Accepted? && ParseOf(doc, py).inventory.mode.Standalone?
    requires |GroupHosts(doc.entries, All)| == 1
    requires Has(GroupHosts(doc.entries, Hypervisors), GroupHosts(doc.entries, All)[0].0)
    ensures var before := EffectiveIsolcpus(doc.entries, GroupHosts(doc.entries, All)[0]);
            var rendered := Rendered(ParseOf(doc, py).inventory);
            rendered.Some? && rendered.value.Mapping? && |GroupHosts(rendered.value.entries, All)| == 1 &&
            EffectiveIsolcpus(rendered.value.entries, GroupHosts(rendered.value.entries, All)[0]) ==
              if before.Null? || TextOf(before, py) == "" then Null else Str(TextOf(before, py))
  {
    hide ParseOf, Get, HostVarsOf, GroupHosts, CleanExtra, GroupIsolcpus, Document, GroupOf, Common, HostSet;
    var inventory := ParseOf(doc, py).inventory;
    AcceptedHost(doc, py, 0);
    RenderedHost(inventory, 0);
    RenderedTime(inventory.hosts[0].1);
    DocumentParts(HostEntries(inventory.hosts), HostNames(inventory), GroupNames(inventory), Common(inventory.hosts));
    OneHostGroup(inventory);
    OneHostCommon(inventory.hosts);
    ParsedIsolcpus(doc, py);
  }

  lemma ParsedIsolcpus(doc: Value, py: Python)
    requires ParseOf(doc, py).Accepted? && |GroupHosts(doc.entries, All)| == 1
    requires Has(GroupHosts(doc.entries, Hypervisors), GroupHosts(doc.entries, All)[0].0)
    ensures |ParseOf(doc, py).inventory.hosts| == 1
    ensures ParseOf(doc, py).inventory.hosts[0].1.isolcpus ==
              OptionalText(EffectiveIsolcpus(doc.entries, GroupHosts(doc.entries, All)[0]), py)
  {
    hide Get, SubnetOf, IntOf, AsTexts, GroupHosts, GroupIsolcpus, Only;
  }

  lemma OneHostGroup(inventory: Inventory)
    requires |inventory.hosts| == 1
    ensures GroupNames(inventory) == [inventory.hosts[0].0]
    ensures Has(HostSet(GroupNames(inventory)), inventory.hosts[0].0)
  {
    WithRoleCounts(inventory.hosts, Hypervisor);
    assert Keys(inventory.hosts) == [inventory.hosts[0].0];
    assert HostSet([inventory.hosts[0].0])[0].0 == inventory.hosts[0].0;
  }

  lemma OneHostCommon(hosts: Dict<NodeConfig>)
    requires |hosts| == 1
    ensures Common(hosts) == Trimmed(hosts[0].1.isolcpus)
  {
    var value := hosts[0].1.isolcpus;
    if Filled(value) {
      assert value.value in IsolatedSets(hosts);
      assert IsolatedSets(hosts) == {value.value};
    } else {
      assert IsolatedSets(hosts) == {};
    }
  }

  // ---- the isolated sets of a fleet ----

  /** The isolated set in effect on a host; an empty one counts as none. */
  function Effective(doc: Dict<Value>, host: (Name, Value), py: Python): Option<string> {
    Trimmed(OptionalText(EffectiveIsolcpus(doc, host), py))
  }

  /** What the parser reads for a host: it lends the group's set to hosts outside the group too. */
  function Lent(doc: Dict<Value>, host: (Name, Value), py: Python): Option<string> {
    var own := OwnVariables(host.1);
    Trimmed(OptionalText(if own.Some? && Has(own.value, Isolcpus) then Lookup(own.value, Isolcpus)
                         else GroupIsolcpus(doc), py))
  }

  predicate Observing(doc: Dict<Value>, host: (Name, Value)) {
    Has(GroupHosts(doc, Observers), host.0)
  }

  /** The host is written into the hypervisors group: no observer, or all of them are. */
  ghost predicate Grouped(doc: Dict<Value>, host: (Name, Value)) {
    var hosts := GroupHosts(doc, All);
    !Observing(doc, host) || forall j :: 0 <= j < |hosts| ==> Observing(doc, hosts[j])
  }

  /** The hosts of the group to be have this one set, or all none; the others have none in
      effect; and no host is lent another. */
  ghost predicate Agree(doc: Dict<Value>, py: Python, shared: Option<string>) {
    var hosts := GroupHosts(doc, All);
    forall i :: 0 <= i < |hosts| ==>
      && Effective(doc, hosts[i], py) == (if Grouped(doc, hosts[i]) then shared else None)
      && Lent(doc, hosts[i], py) in {None, shared}
  }

  lemma ParsedNode(name: Name, variables: Dict<Value>, observers: Dict<Value>, isolcpus: Value, py: Python)
    ensures var node := NodeOf(name, variables, observers, isolcpus, py);
            node.Some? ==>
              && node.value.role == (if Has(observers, name) then Observer else Hypervisor)
              && node.value.isolcpus ==
                   OptionalText(if Has(variables, Isolcpus) then Lookup(variables, Isolcpus) else isolcpus, py)
  {
    hide SubnetOf, IntOf, AsTexts, Only, Get, TextOf;
  }

  lemma AcceptedIsMapping(doc: Value, py: Python)
    requires ParseOf(doc, py).Accepted?
    ensures doc.Mapping?
  {}

  lemma ParsedAs(doc: Value, py: Python, i: nat)
    requires ParseOf(doc, py).Accepted? && i < |GroupHosts(doc.entries, All)|
    ensures var hosts, host := ParseOf(doc, py).inventory.hosts, GroupHosts(doc.entries, All)[i];
      && |hosts| == |GroupHosts(doc.entries, All)| && hosts[i].0 == host.0
      && hosts[i].1.role == (if Observing(doc.entries, host) then Observer else Hypervisor)
      && Trimmed(hosts[i].1.isolcpus) == Lent(doc.entries, host, py)
  {
    hide NodeOf, Get, GroupHosts, GroupIsolcpus, Lookup, OptionalText, Trimmed;
    var host := GroupHosts(doc.entries, All)[i];
    var own := OwnVariables(host.1).value;
    ParsedNode(host.0, own, GroupHosts(doc.entries, Observers), GroupIsolcpus(doc.entries), py);
  }

  lemma {:induction false} WithRoleMembers(hosts: Dict<NodeConfig>, role: Role, k: Name)
    ensures k in WithRole(hosts, role) <==> exists i :: 0 <= i < |hosts| && hosts[i].0 == k && hosts[i].1.role == role
  {
    if hosts != [] {
      var rest := hosts[1..];
      WithRoleMembers(rest, role, k);
      assert forall i :: 0 <= i < |rest| ==> rest[i] == hosts[i + 1];
      if i :| 0 <= i < |hosts| && hosts[i].0 == k && hosts[i].1.role == role {
        assert i > 0 ==> rest[i - 1] == hosts[i];
      }
    }
  }

  lemma HostSetMembers(names: seq<Name>, k: Name)
    ensures Has(HostSet(names), k) <==> k in names
  {
    hide Has;
    var d := HostSet(names);
    HasIsMember(d, k);
    assert forall i :: 0 <= i < |d| ==> d[i].0 == names[i];
    if i :| 0 <= i < |names| && names[i] == k {
      assert d[i].0 == k;
    }
  }

  lemma GroupedExactly(doc: Value, py: Python, i: nat)
    requires ParseOf(doc, py).Accepted? && i < |GroupHosts(doc.entries, All)|
    ensures var host := GroupHosts(doc.entries, All)[i];
            host.0 in GroupNames(ParseOf(doc, py).inventory) <==> Grouped(doc.entries, host)
  {
    hide ParseOf, Get, GroupHosts, Lent, WithRole;
    AcceptedIsMapping(doc, py);
    var hosts, parsed := GroupHosts(doc.entries, All), ParseOf(doc, py).inventory.hosts;
    forall j | 0 <= j < |hosts|
      ensures |parsed| == |hosts| && parsed[j].0 == hosts[j].0
      ensures parsed[j].1.role == (if Observing(doc.entries, hosts[j]) then Observer else Hypervisor)
    {
      ParsedAs(doc, py, j);
    }
    WithRoleMembers(parsed, Hypervisor, hosts[i].0);
    WithRoleCounts(parsed, Hypervisor);
    assert Keys(parsed)[i] == hosts[i].0;
  }

  /** After a rewrite the hosts of the group have the fleet's common set, the others none. */
  lemma RewrittenEffective(doc: Value, py: Python, i: nat)
    requires IsDocument(doc) && ParseOf(doc, py).Accepted? && ParseOf(doc, py).inventory.mode.Standalone?
    requires i < |GroupHosts(doc.entries, All)|
    ensures var before, inventory := GroupHosts(doc.entries, All), ParseOf(doc, py).inventory;
            var rendered := Rendered(inventory);
            rendered.Some? && rendered.value.Mapping? &&
            var after := GroupHosts(rendered.value.entries, All);
      && |after| == |before|
      && Effective(rendered.value.entries, after[i], py) ==
           if Grouped(doc.entries, before[i]) then Common(inventory.hosts) else None
  {
    hide ParseOf, Get, HostVarsOf, GroupHosts, CleanExtra, GroupIsolcpus, Document, GroupOf, Common, HostSet, Grouped,
      GroupNames;
    var inventory := ParseOf(doc, py).inventory;
    AcceptedHost(doc, py, i);
    RenderedHost(inventory, i);
    RenderedTime(inventory.hosts[i].1);
    DocumentParts(HostEntries(inventory.hosts), HostNames(inventory), GroupNames(inventory), Common(inventory.hosts));
    GroupedExactly(doc, py, i);
    HostSetMembers(GroupNames(inventory), inventory.hosts[i].0);
    CommonIsProper(inventory.hosts);
  }

  /** Hosts that name one set, or nothing, have it in common. */
  lemma CommonOf(hosts: Dict<NodeConfig>, shared: Option<string>)
    requires forall i :: 0 <= i < |hosts| ==> Trimmed(hosts[i].1.isolcpus) in {None, shared}
    requires shared.Some? ==> exists i :: 0 <= i < |hosts| && Trimmed(hosts[i].1.isolcpus) == shared
    ensures Common(hosts) == shared
  {
    match shared
    case None => assert IsolatedSets(hosts) == {};
    case Some(text) =>
      var i :| 0 <= i < |hosts| && Trimmed(hosts[i].1.isolcpus) == shared;
      assert text in IsolatedSets(hosts);
      assert IsolatedSets(hosts) == {text};
  }

  lemma CommonNames(hosts: Dict<NodeConfig>, i: nat)
    requires i < |hosts| && Common(hosts).Some?
    ensures Trimmed(hosts[i].1.isolcpus) in {None, Common(hosts)}
  {
    assert Filled(hosts[i].1.isolcpus) ==> hosts[i].1.isolcpus.value in IsolatedSets(hosts);
  }

  /** A host's set in effect is the one the parser reads, or none where the group's was lent. */
  lemma EffectiveOrLent(doc: Dict<Value>, host: (Name, Value), py: Python)
    ensures Effective(doc, host, py) == Lent(doc, host, py) ||
            (Effective(doc, host, py) == None && Lent(doc, host, py) == Trimmed(OptionalText(GroupIsolcpus(doc), py)))
  {
    hide Get, GroupHosts, GroupIsolcpus, TextOf;
  }

  lemma SomeHostIsGrouped(doc: Dict<Value>) returns (i: nat)
    requires GroupHosts(doc, All) != []
    ensures i < |GroupHosts(doc, All)| && Grouped(doc, GroupHosts(doc, All)[i])
  {
    hide Has, GroupHosts;
    var hosts := GroupHosts(doc, All);
    if j :| 0 <= j < |hosts| && !Observing(doc, hosts[j]) {
      i := j;
    } else {
      i := 0;
    }
  }

  lemma AgreedIsCommon(doc: Value, py: Python, shared: Option<string>)
    requires IsDocument(doc) && ParseOf(doc, py).Accepted? && Agree(doc.entries, py, shared)
    ensures Common(ParseOf(doc, py).inventory.hosts) == shared
  {
    hide ParseOf, Get, GroupHosts, Lent, Effective, Common, Grouped, Trimmed, Observing;
    AcceptedIsMapping(doc, py);
    var hosts, parsed := GroupHosts(doc.entries, All), ParseOf(doc, py).inventory.hosts;
    AcceptedHost(doc, py, 0);
    forall j | 0 <= j < |hosts|
      ensures |parsed| == |hosts| && Trimmed(parsed[j].1.isolcpus) == Lent(doc.entries, hosts[j], py)
    {
      ParsedAs(doc, py, j);
    }
    var i := SomeHostIsGrouped(doc.entries);
    EffectiveOrLent(doc.entries, hosts[i], py);
    CommonOf(parsed, shared);
  }

  lemma KeptAgrees(doc: Value, py: Python)
    requires IsDocument(doc) && ParseOf(doc, py).Accepted?
    requires forall i :: 0 <= i < |GroupHosts(doc.entries, All)| ==>
               Effective(doc.entries, GroupHosts(doc.entries, All)[i], py) ==
                 if Grouped(doc.entries, GroupHosts(doc.entries, All)[i]) then Common(ParseOf(doc, py).inventory.hosts)
                 else None
    ensures Agree(doc.entries, py, Common(ParseOf(doc, py).inventory.hosts))
  {
    hide ParseOf, Get, GroupHosts, Lent, Effective, Common, IsCommon, Grouped, Trimmed, Observing, GroupIsolcpus;
    AcceptedIsMapping(doc, py);
    var hosts, parsed := GroupHosts(doc.entries, All), ParseOf(doc, py).inventory.hosts;
    var group := Trimmed(OptionalText(GroupIsolcpus(doc.entries), py));
    forall j | 0 <= j < |hosts|
      ensures |parsed| == |hosts| && Trimmed(parsed[j].1.isolcpus) == Lent(doc.entries, hosts[j], py)
      ensures Lent(doc.entries, hosts[j], py) in {Effective(doc.entries, hosts[j], py), group}
    {
      ParsedAs(doc, py, j);
      EffectiveOrLent(doc.entries, hosts[j], py);
    }
    forall i | 0 <= i < |hosts| ensures Lent(doc.entries, hosts[i], py) in {None, Common(parsed)} {
      ParsedAs(doc, py, i);
      if Common(parsed).Some? {
        CommonNames(parsed, i);
      } else if Lent(doc.entries, hosts[i], py).Some? {
        CommonOf(parsed, group);
      }
    }
  }

  /** For any number of hosts, a rewrite keeps every host's isolated set exactly when the hosts
      agree: one set for the hypervisors, none for the others, none lent to a host outside. */
  lemma RewriteKeepsIsolcpusExactly(doc: Value, py: Python)
    requires IsDocument(doc) && ParseOf(doc, py).Accepted? && ParseOf(doc, py).inventory.mode.Standalone?
    ensures var before, rendered := GroupHosts(doc.entries, All), Rendered(ParseOf(doc, py).inventory);
            rendered.Some? && rendered.value.Mapping? &&
            var after := GroupHosts(rendered.value.entries, All);
            |after| == |before| &&
            ((forall i :: 0 <= i < |before| ==>
                Effective(rendered.value.entries, after[i], py) == Effective(doc.entries, before[i], py)) <==>
             exists shared :: Agree(doc.entries, py, shared))
  {
    hide ParseOf, Rendered, Get, GroupHosts, Effective, Common, IsCommon, Grouped, Lent;
    AcceptedIsMapping(doc, py);
    var before := GroupHosts(doc.entries, All);
    AcceptedHost(doc, py, 0);
    forall i | 0 <= i < |before| {
      RewrittenEffective(doc, py, i);
    }
    RewrittenEffective(doc, py, 0);
    var after := GroupHosts(Rendered(ParseOf(doc, py).inventory).value.entries, All);
    var entries := Rendered(ParseOf(doc, py).inventory).value.entries;
    if shared :| Agree(doc.entries, py, shared) {
      AgreedIsCommon(doc, py, shared);
    }
    if forall i :: 0 <= i < |before| ==> Effective(entries, after[i], py) == Effective(doc.entries, before[i], py) {
      forall i | 0 <= i < |before|
        ensures Effective(doc.entries, before[i], py) ==
                  if Grouped(doc.entries, before[i]) then Common(ParseOf(doc, py).inventory.hosts) else None
      {
        assert Effective(entries, after[i], py) == Effective(doc.entries, before[i], py);
      }
      KeptAgrees(doc, py);
    }
  }
}
