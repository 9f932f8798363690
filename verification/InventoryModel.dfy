/** The typed inventory, and the YAML value tree it is written to: dictionaries keep the
    order of their entries, as Python's and the file's do. */
module InventoryModel {
  import opened Wrappers

  /** The words the renderer and the parser know, and any other key. The encoding is canonical:
      a key that is one of those words is always written with its own constructor, and `Site`
      holds a text that is none of them. */
  datatype Name =
    | All | StandaloneMachine | Hypervisors | ClusterMachines | Observers | Hosts | Vars
    | AnsibleHost | NetworkInterface | Subnet | GatewayAddr | DnsServers | PtpInterface | PtpDomainNumber
    | NtpServers | AdminUser | GrubPassword | Isolcpus
    | TimemasterPtpDomain | PtpStatusVsockDomain
    | Hostname | IpAddr | ApplyNetworkConfig | AnsibleConnection | AnsiblePython | AnsibleRemoteTmp | AnsibleUser
    | Site(text: string)

  /** `Other` stands for a scalar of another type: a float, a date. */
  datatype Value =
    | Null | Bool(b: bool) | Int(n: int) | Str(s: string)
    | List(items: seq<Value>) | Mapping(entries: seq<(Name, Value)>)
    | Other(tag: nat, nonZero: bool)

  // ---- dictionaries ----

  type Dict<V> = seq<(Name, V)>

  ghost predicate Unique<V>(d: Dict<V>) {
    forall i, j :: 0 <= i < j < |d| ==> d[i].0 != d[j].0
  }

  function Get<V>(d: Dict<V>, k: Name): Option<V> {
    if d == [] then None
    else if d[0].0 == k then Some(d[0].1)
    else Get(d[1..], k)
  }

  predicate Has<V>(d: Dict<V>, k: Name) {
    Get(d, k).Some?
  }

  function Keys<V>(d: Dict<V>): seq<Name> {
    seq(|d|, i requires 0 <= i < |d| => d[i].0)
  }

  /** Assignment: a known key keeps its place, a new one goes last. */
  function Put<V>(d: Dict<V>, k: Name, v: V): Dict<V> {
    if d == [] then [(k, v)]
    else if d[0].0 == k then [(k, v)] + d[1..]
    else [d[0]] + Put(d[1..], k, v)
  }

  /** `d.update(e)`. */
  function Overlay<V>(d: Dict<V>, e: Dict<V>): Dict<V>
    decreases |e|
  {
    if e == [] then d else Overlay(Put(d, e[0].0, e[0].1), e[1..])
  }

  function Only<V>(d: Dict<V>, keep: Name -> bool): Dict<V> {
    if d == [] then []
    else (if keep(d[0].0) then [d[0]] else []) + Only(d[1..], keep)
  }

  lemma GetCons<V>(head: (Name, V), rest: Dict<V>, k: Name)
    ensures Get([head] + rest, k) == if head.0 == k then Some(head.1) else Get(rest, k)
  {
    assert ([head] + rest)[1..] == rest;
  }

  lemma {:induction false} HasIsMember<V>(d: Dict<V>, k: Name)
    ensures Has(d, k) <==> exists i :: 0 <= i < |d| && d[i].0 == k
  {
    if d != [] && d[0].0 != k {
      HasIsMember(d[1..], k);
      if i :| 0 <= i < |d| && d[i].0 == k {
        assert d[1..][i - 1].0 == k;
      }
    }
  }

  lemma {:induction false} GetConcat<V>(a: Dict<V>, b: Dict<V>, k: Name)
    ensures Get(a + b, k) == if Has(a, k) then Get(a, k) else Get(b, k)
  {
    if a == [] {
      assert a + b == b;
    } else {
      GetConcat(a[1..], b, k);
      assert (a + b)[1..] == a[1..] + b;
    }
  }

  lemma {:induction false} GetPut<V>(d: Dict<V>, k: Name, v: V, other: Name)
    ensures Get(Put(d, k, v), other) == if other == k then Some(v) else Get(d, other)
  {
    hide Get;
    if d == [] {
      GetCons((k, v), [], other);
      assert [(k, v)] + [] == [(k, v)];
    } else {
      GetCons(d[0], d[1..], other);
      assert d == [d[0]] + d[1..];
      if d[0].0 == k {
        GetCons((k, v), d[1..], other);
      } else {
        GetPut(d[1..], k, v, other);
        GetCons(d[0], Put(d[1..], k, v), other);
      }
    }
  }

  lemma {:induction false} GetOverlay<V>(d: Dict<V>, e: Dict<V>, k: Name)
    requires Unique(e)
    ensures Get(Overlay(d, e), k) == if Has(e, k) then Get(e, k) else Get(d, k)
    decreases |e|
  {
    if e != [] {
      var rest := e[1..];
      assert Unique(rest);
      GetOverlay(Put(d, e[0].0, e[0].1), rest, k);
      GetPut(d, e[0].0, e[0].1, k);
      HasIsMember(rest, k);
    }
  }

  lemma {:induction false} PutFresh<V>(d: Dict<V>, k: Name, v: V)
    requires !Has(d, k)
    ensures Put(d, k, v) == d + [(k, v)]
  {
    if d != [] {
      PutFresh(d[1..], k, v);
    }
  }

  /** Updating with keys that are new appends them. */
  lemma {:induction false} OverlayFresh<V>(d: Dict<V>, e: Dict<V>)
    requires Unique(e) && forall k :: Has(e, k) ==> !Has(d, k)
    ensures Overlay(d, e) == d + e
    decreases |e|
  {
    if e == [] {
      assert d + e == d;
    } else {
      var head, rest := e[0], e[1..];
      assert Unique(rest);
      assert Has(e, head.0);
      PutFresh(d, head.0, head.1);
      forall k | Has(rest, k) ensures !Has(d + [head], k) {
        HasIsMember(rest, k);
        HasIsMember(e, k);
        GetConcat(d, [head], k);
        var i :| 0 <= i < |rest| && rest[i].0 == k;
        assert e[i + 1].0 == k;
      }
      OverlayFresh(d + [head], rest);
      assert d + [head] + rest == d + e;
    }
  }

  lemma OnlyCons<V>(head: (Name, V), rest: Dict<V>, keep: Name -> bool)
    ensures Only([head] + rest, keep) == (if keep(head.0) then [head] else []) + Only(rest, keep)
  {
    assert ([head] + rest)[1..] == rest;
  }

  lemma {:induction false} OnlyConcat<V>(a: Dict<V>, b: Dict<V>, keep: Name -> bool)
    ensures Only(a + b, keep) == Only(a, keep) + Only(b, keep)
  {
    if a == [] {
      assert a + b == b;
    } else {
      var head, rest := a[0], a[1..];
      OnlyConcat(rest, b, keep);
      OnlyCons(head, rest, keep);
      OnlyCons(head, rest + b, keep);
      hide Only;
      assert a == [head] + rest && a + b == [head] + (rest + b);
    }
  }

  lemma {:induction false} OnlyAll<V>(d: Dict<V>, keep: Name -> bool)
    requires forall k :: Has(d, k) ==> keep(k)
    ensures Only(d, keep) == d
  {
    if d != [] {
      assert Has(d, d[0].0);
      forall k | Has(d[1..], k) ensures Has(d, k) {
      }
      OnlyAll(d[1..], keep);
    }
  }

  lemma {:induction false} OnlyNone<V>(d: Dict<V>, keep: Name -> bool)
    requires forall k :: Has(d, k) ==> !keep(k)
    ensures Only(d, keep) == []
  {
    if d != [] {
      assert Has(d, d[0].0);
      forall k | Has(d[1..], k) ensures Has(d, k) {
      }
      OnlyNone(d[1..], keep);
    }
  }

  lemma {:induction false} OnlyUnique<V>(d: Dict<V>, keep: Name -> bool)
    requires Unique(d)
    ensures Unique(Only(d, keep))
    ensures forall k :: Get(Only(d, keep), k) == if keep(k) then Get(d, k) else None
  {
    hide Get;
    if d == [] {
      assert forall k :: Get(d, k) == None by {
        forall k ensures Get(d, k) == None {
          GetNothing(d, k);
        }
      }
    } else {
      var head, rest := d[0], d[1..];
      assert Unique(rest) && d == [head] + rest;
      OnlyUnique(rest, keep);
      var kept := Only(rest, keep);
      HasIsMember(rest, head.0);
      HasIsMember(kept, head.0);
      assert forall i :: 0 <= i < |rest| ==> d[i + 1] == rest[i];
      assert !Has(rest, head.0) && !Has(kept, head.0);
      UniqueCons(head, kept);
      forall k ensures Get(Only(d, keep), k) == if keep(k) then Get(d, k) else None {
        GetCons(head, rest, k);
        GetCons(head, kept, k);
        assert [] + kept == kept;
      }
    }
  }

  lemma GetNothing<V>(d: Dict<V>, k: Name)
    requires d == []
    ensures Get(d, k) == None
  {}

  lemma UniqueCons<V>(head: (Name, V), rest: Dict<V>)
    requires Unique(rest) && forall i :: 0 <= i < |rest| ==> rest[i].0 != head.0
    ensures Unique([head] + rest)
  {}

  // ---- the model ----

  datatype Mode = Standalone | Cluster

  datatype Role = Hypervisor | Observer

  type PrefixLength = n: int | 1 <= n <= 32 witness 24
  type PtpDomain = n: int | 0 <= n <= 255

  datatype NodeConfig = NodeConfig(
    role: Role,
    ansibleHost: string,
    networkInterface: string,
    subnet: PrefixLength,
    gatewayAddr: Option<string>,
    dnsServers: seq<string>,
    ptpInterface: Option<string>,
    ptpDomainNumber: Option<PtpDomain>,
    ntpServers: seq<string>,
    adminUser: Option<string>,
    grubPassword: Option<string>,
    isolcpus: Option<string>,
    extra: Dict<Value>)

  datatype Inventory = Inventory(mode: Mode, hosts: Dict<NodeConfig>)

  /** `bool(value)` of an optional string. */
  predicate Filled(value: Option<string>) {
    value.Some? && value.value != ""
  }

  function HostNames(inventory: Inventory): seq<Name> {
    Keys(inventory.hosts)
  }

  function WithRole(hosts: Dict<NodeConfig>, role: Role): seq<Name> {
    if hosts == [] then []
    else (if hosts[0].1.role == role then [hosts[0].0] else []) + WithRole(hosts[1..], role)
  }

  // ---- which variables belong to whom ----

  predicate Modelled(k: Name) {
    k.AnsibleHost? || k.NetworkInterface? || k.Subnet? || k.GatewayAddr? || k.DnsServers? || k.PtpInterface?
    || k.PtpDomainNumber? || k.NtpServers? || k.AdminUser? || k.GrubPassword? || k.Isolcpus?
  }

  predicate Fixed(k: Name) {
    k.Hostname? || k.IpAddr? || k.ApplyNetworkConfig? || k.AnsibleConnection? || k.AnsiblePython?
    || k.AnsibleRemoteTmp? || k.AnsibleUser?
  }

  predicate Alias(k: Name) {
    k.TimemasterPtpDomain? || k.PtpStatusVsockDomain?
  }

  /** A variable this service does not model: it belongs to the site. */
  predicate SiteOwned(k: Name) {
    !Modelled(k) && !Fixed(k) && !Alias(k)
  }
}
