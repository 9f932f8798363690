/** What a document means to the parser, read off the document itself: which answer it gives,
    in which mode, with which roles, and how Python's conversions read a value. */
module ParserMeaning {
  import opened Wrappers
  import opened InventoryModel
  import opened Parser
  import Renderer
  import Text

  /** The document holds a mapping with these entries under a group's `hosts` or `vars`. */
  ghost predicate Holds(doc: Dict<Value>, group: Name, part: Name, entries: Dict<Value>) {
    exists g: Dict<Value> :: Get(doc, group) == Some(Mapping(g)) && Get(g, part) == Some(Mapping(entries))
  }

  /** The group lists at least one host. */
  ghost predicate Lists(doc: Dict<Value>, group: Name) {
    exists hosts: Dict<Value> :: hosts != [] && Holds(doc, group, Hosts, hosts)
  }

  lemma PartHolds(doc: Dict<Value>, group: Name, part: Name)
    ensures var entries := GroupPart(Lookup(doc, group), part);
            entries != [] ==> Holds(doc, group, part, entries)
    ensures forall entries :: Holds(doc, group, part, entries) ==> GroupPart(Lookup(doc, group), part) == entries
  {
    hide Get;
  }

  lemma ListsExactly(doc: Dict<Value>, group: Name)
    ensures GroupHosts(doc, group) != [] <==> Lists(doc, group)
  {
    hide Holds, GroupPart;
    PartHolds(doc, group, Hosts);
    if GroupHosts(doc, group) != [] {
      assert Holds(doc, group, Hosts, GroupHosts(doc, group));
    }
  }

  /** A document is refused exactly when it lists no host under `all`. An accepted one is a
      cluster exactly when it lists a host under `cluster_machines`, and has the hosts under
      `all`, in order, an observer exactly where the name is listed under `observers`. */
  lemma ParseAnswers(doc: Value, py: Python)
    ensures ParseOf(doc, py).Invalid? <==> !(doc.Mapping? && Lists(doc.entries, All))
    ensures ParseOf(doc, py).Accepted? ==>
              var inventory := ParseOf(doc, py).inventory;
              && (inventory.mode.Cluster? <==> Lists(doc.entries, ClusterMachines))
              && Holds(doc.entries, All, Hosts, GroupHosts(doc.entries, All))
              && HostNames(inventory) == Keys(GroupHosts(doc.entries, All))
              && forall i :: 0 <= i < |inventory.hosts| ==>
                   (inventory.hosts[i].1.role.Observer? <==>
                     ListedUnder(doc.entries, Observers, inventory.hosts[i].0))
  {
    hide Holds, Lists, GroupPart, HostOf, ListedUnder;
    if doc.Mapping? {
      ListsExactly(doc.entries, All);
      ListsExactly(doc.entries, ClusterMachines);
      PartHolds(doc.entries, All, Hosts);
      if ParseOf(doc, py).Accepted? {
        var hosts := ParseOf(doc, py).inventory.hosts;
        forall i | 0 <= i < |hosts|
          ensures hosts[i].1.role.Observer? <==> ListedUnder(doc.entries, Observers, hosts[i].0)
        {
          RoleIs(doc.entries, i, py);
        }
        assert Keys(hosts) == Keys(GroupHosts(doc.entries, All));
      }
    }
  }

  ghost predicate ListedUnder(doc: Dict<Value>, group: Name, name: Name) {
    exists hosts: Dict<Value> :: Holds(doc, group, Hosts, hosts) && Has(hosts, name)
  }

  lemma ListedIs(doc: Dict<Value>, group: Name, name: Name)
    ensures ListedUnder(doc, group, name) <==> Has(GroupHosts(doc, group), name)
  {
    hide Holds, GroupPart;
    PartHolds(doc, group, Hosts);
    if Has(GroupHosts(doc, group), name) {
      assert GroupHosts(doc, group) != [];
      assert Holds(doc, group, Hosts, GroupHosts(doc, group));
    }
  }

  lemma RoleIs(doc: Dict<Value>, i: nat, py: Python)
    requires ParsedEntries(doc, py).Accepted? && i < |GroupHosts(doc, All)|
    ensures var inventory := ParsedEntries(doc, py).inventory;
      && |inventory.hosts| == |GroupHosts(doc, All)|
      && (inventory.hosts[i].1.role.Observer? <==> ListedUnder(doc, Observers, inventory.hosts[i].0))
  {
    hide GroupHosts, GroupIsolcpus, ListedUnder, Has, Only, Lookup, SubnetOf, IntOf, AsTexts, OptionalText, TextOf;
    ListedIs(doc, Observers, GroupHosts(doc, All)[i].0);
  }

  /** A document with a cluster machine has no rendering: the file is not rewritten from it. */
  lemma ClusterHasNoRendering(doc: Value, py: Python)
    requires ParseOf(doc, py).Accepted?
    ensures doc.Mapping?
    ensures Renderer.Rendered(ParseOf(doc, py).inventory).None? <==> Lists(doc.entries, ClusterMachines)
  {
    hide Lists, Renderer.HostVarsOf;
    ParseAnswers(doc, py);
  }

  // ---- Python's conversions ----

  /** `int` reads back what `str` writes of a number, and what counts as empty is exactly
      `None`, `False`, zero, and the empty string and collections. */
  lemma ConversionsAgree(n: int, b: bool, s: string, py: Python)
    ensures TextOf(Int(n), py) == Text.IntText(n)
    ensures IntOf(Str(TextOf(Int(n), py)), py) == IntOf(Int(n), py) == Number(n)
    ensures TextOf(Bool(true), py) == "True" && TextOf(Bool(false), py) == "False" && TextOf(Str(s), py) == s
    ensures IntOf(Bool(true), py) == Number(1) && IntOf(Bool(false), py) == Number(0)
    ensures IntOf(Str(s), py).NoNumber? <==> Text.ParseInt(s).None?
    ensures forall v: Value :: IntOf(v, py).Overflow? ==> v.Other?
    ensures forall v: Value :: v.Null? || v.List? || v.Mapping? ==> IntOf(v, py).NoNumber?
    ensures forall v: Value :: v in [Null, Bool(false), Int(0), Str(""), List([]), Mapping([])] ==> !Truthy(v)
    ensures forall v: Value :: !Truthy(v) ==>
              v in [Null, Bool(false), Int(0), Str(""), List([]), Mapping([])] || (v.Other? && !v.nonZero)
  {
    hide Text.ParseInt, Text.IntText;
    Text.ParseIntOfIntText(n);
  }

  /** A subnet that says nothing is 24; one that says something is read as a number. */
  lemma SubnetReads(v: Value, py: Python)
    ensures SubnetOf(v, py) == if Truthy(v) then IntOf(v, py) else Number(24)
  {}

  /** A list of servers may be absent, one text, or a list, whose items are written as text; a
      mapping is read as its keys; a number or a truth value fails. */
  lemma ListsOfTexts(items: seq<Value>, s: string, py: Python)
    ensures AsTexts(Null, py) == Some([]) && AsTexts(Str(s), py) == Some([s])
    ensures AsTexts(List(items), py).Some? && |AsTexts(List(items), py).value| == |items|
    ensures forall i :: 0 <= i < |items| ==> AsTexts(List(items), py).value[i] == TextOf(items[i], py)
    ensures forall entries :: AsTexts(Mapping(entries), py).Some? && |AsTexts(Mapping(entries), py).value| == |entries|
    ensures forall entries: Dict<Value>, i :: 0 <= i < |entries| ==>
              AsTexts(Mapping(entries), py).value[i] == KeyText(entries[i].0)
    ensures KeyText(Site(s)) == s
    ensures forall v: Value :: AsTexts(v, py).None? <==> v.Int? || v.Bool? || v.Other?
  {}

  /** When the variables of a host cannot be read. */
  ghost predicate Unreadable(variables: Dict<Value>, py: Python) {
    var subnet, domain := Lookup(variables, Subnet), IntOf(Lookup(variables, PtpDomainNumber), py);
    || (Truthy(subnet) && !InRange(IntOf(subnet, py), 1, 32))
    || domain.Overflow? || (domain.Number? && (domain.n < 0 || domain.n > 255))
    || AsTexts(Lookup(variables, DnsServers), py).None?
    || AsTexts(Lookup(variables, NtpServers), py).None?
  }

  lemma NodeFailsExactly(name: Name, variables: Dict<Value>, observers: Dict<Value>, isolcpus: Value, py: Python)
    ensures NodeOf(name, variables, observers, isolcpus, py).None? <==> Unreadable(variables, py)
  {
    hide Has, Only, Get, Lookup, TextOf, OptionalText, IntOf, AsTexts, SubnetOf, Truthy;
    SubnetReads(Lookup(variables, Subnet), py);
  }

  /** Exactly which hosts the parser fails on: one that is neither empty nor a mapping; a subnet
      that is no number from 1 to 32 where it says something; a PTP domain that overflows or is
      a number outside 0 to 255; servers that are no collection. */
  lemma HostFailsExactly(name: Name, raw: Value, observers: Dict<Value>, isolcpus: Value, py: Python)
    ensures HostOf(name, raw, observers, isolcpus, py).None? <==>
              if raw.Mapping? then Unreadable(raw.entries, py) else Truthy(raw)
  {
    hide NodeOf, Unreadable;
    if raw.Mapping? {
      NodeFailsExactly(name, raw.entries, observers, isolcpus, py);
    } else {
      EmptyHostReads(name, observers, isolcpus, py);
    }
  }

  lemma EmptyHostReads(name: Name, observers: Dict<Value>, isolcpus: Value, py: Python)
    ensures NodeOf(name, [], observers, isolcpus, py).Some?
  {
    hide Has, Only, TextOf, OptionalText;
    var nothing: Dict<Value> := [];
    GetNothing(nothing, Subnet);
    GetNothing(nothing, PtpDomainNumber);
    GetNothing(nothing, DnsServers);
    GetNothing(nothing, NtpServers);
  }
}
