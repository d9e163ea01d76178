/**
 * The workload side: servers in an active state grouped by the candidate
 * host they run on, the vCPUs their flavors use, and the network port each
 * of them is attached through.
 */
module Workload {
  import opened Domain
  import opened Collectors

  /** Only servers in an active state are looked at, and for those the host
    * is read from the extended attributes. */
  predicate IsActiveVm(vm: Server)
  {
    vm.status in ActiveVmStatuses
  }

  /** An active server whose extended attributes are absent: reading its host fails. */
  predicate LacksHost(vm: Server)
  {
    IsActiveVm(vm) && vm.extendedAttributes.None?
  }

  /** `vm` is workload placed on `host`, and `host` is one of the candidate hosts. */
  predicate RunsOn(vm: Server, hosts: set<string>, host: string)
  {
    IsActiveVm(vm) && vm.extendedAttributes == Some(ExtendedAttributes(Some(host))) && host in hosts
  }

  /** The servers placed on one candidate host, in listing order. */
  function ServersOn(servers: seq<Server>, hosts: set<string>, host: string): (r: seq<Server>)
    ensures |r| <= |servers|
  {
    if servers == [] then []
    else
      var vm := servers[|servers| - 1];
      ServersOn(servers[..|servers| - 1], hosts, host) + (if RunsOn(vm, hosts, host) then [vm] else [])
  }

  /** Each server occurs in its host's list as often as it is listed, and in no other list. */
  lemma {:induction false} ServersOnCount(servers: seq<Server>, hosts: set<string>, host: string, vm: Server)
    ensures multiset(ServersOn(servers, hosts, host))[vm] == if RunsOn(vm, hosts, host) then multiset(servers)[vm] else 0
  {
    if servers != [] {
      var init := servers[..|servers| - 1];
      var last := servers[|servers| - 1];
      assert servers == init + [last];
      ServersOnCount(init, hosts, host, vm);
    }
  }

  /** Filtering by host distributes over concatenation, so listing order is kept. */
  lemma {:induction false} ServersOnAppend(a: seq<Server>, b: seq<Server>, hosts: set<string>, host: string)
    ensures ServersOn(a + b, hosts, host) == ServersOn(a, hosts, host) + ServersOn(b, hosts, host)
    decreases |b|
  {
    if b == [] {
      assert a + b == a;
    } else {
      var init := b[..|b| - 1];
      assert (a + b)[..|a + b| - 1] == a + init;
      ServersOnAppend(a, init, hosts, host);
    }
  }

  /** `groupingBy(host)` over the active servers on candidate hosts. A server
    * that is active but has no extended attributes aborts the collection at
    * the first such server in listing order. */
  function GroupByHost(servers: seq<Server>, hosts: set<string>): (r: Result<map<string, seq<Server>>>)
    ensures r.Err? <==> exists i :: 0 <= i < |servers| && LacksHost(servers[i])
    ensures r.Err? ==> r.error.MissingExtendedAttributes?
    ensures r.Err? ==> exists i :: 0 <= i < |servers| && LacksHost(servers[i]) && servers[i].id == r.error.serverId &&
                                   forall j :: 0 <= j < i ==> !LacksHost(servers[j])
    ensures r.Ok? ==> forall host :: host in r.value <==> ServersOn(servers, hosts, host) != []
    ensures r.Ok? ==> forall host :: host in r.value ==> r.value[host] == ServersOn(servers, hosts, host)
  {
    if servers == [] then Ok(map[])
    else
      var init := servers[..|servers| - 1];
      var vm := servers[|servers| - 1];
      assert servers == init + [vm];
      assert forall i :: 0 <= i < |init| ==> init[i] == servers[i];
      match GroupByHost(init, hosts)
      case Err(e) => Err(e)
      case Ok(groups) =>
        if LacksHost(vm) then
          Err(MissingExtendedAttributes(vm.id))
        else
          PlaceKeepsGroups(init, vm, hosts, groups);
          Ok(Place(groups, vm, hosts))
  }

  /** Adds one server to the end of its host's group when it is active and its
    * host is a candidate; otherwise leaves the groups as they are. */
  function Place(groups: map<string, seq<Server>>, vm: Server, hosts: set<string>): map<string, seq<Server>>
  {
    match vm.extendedAttributes
    case Some(ExtendedAttributes(Some(host))) =>
      if IsActiveVm(vm) && host in hosts then
        groups[host := (if host in groups then groups[host] else []) + [vm]]
      else
        groups
    case _ => groups
  }

  lemma PlaceKeepsGroups(init: seq<Server>, vm: Server, hosts: set<string>, groups: map<string, seq<Server>>)
    requires forall host :: host in groups <==> ServersOn(init, hosts, host) != []
    requires forall host :: host in groups ==> groups[host] == ServersOn(init, hosts, host)
    ensures forall host :: host in Place(groups, vm, hosts) <==> ServersOn(init + [vm], hosts, host) != []
    ensures forall host :: host in Place(groups, vm, hosts) ==> Place(groups, vm, hosts)[host] == ServersOn(init + [vm], hosts, host)
  {
    var all := init + [vm];
    assert all[..|all| - 1] == init;
    var placed := Place(groups, vm, hosts);
    forall host
      ensures host in placed <==> ServersOn(all, hosts, host) != []
      ensures host in placed ==> placed[host] == ServersOn(all, hosts, host)
    {
      assert ServersOn(all, hosts, host) == ServersOn(init, hosts, host) + (if RunsOn(vm, hosts, host) then [vm] else []);
      if RunsOn(vm, hosts, host) {
        assert placed == groups[host := (if host in groups then groups[host] else []) + [vm]];
      } else if vm.extendedAttributes.Some? && vm.extendedAttributes.value.hostName.Some? &&
                IsActiveVm(vm) && vm.extendedAttributes.value.hostName.value in hosts {
        var other := vm.extendedAttributes.value.hostName.value;
        assert other != host;
        assert placed == groups[other := (if other in groups then groups[other] else []) + [vm]];
        assert ServersOn(all, hosts, host) == ServersOn(init, hosts, host);
      } else {
        assert placed == groups;
        assert ServersOn(all, hosts, host) == ServersOn(init, hosts, host);
      }
    }
  }

  /** Each group holds exactly the active servers on its host, once per listing. */
  lemma GroupedServers(servers: seq<Server>, hosts: set<string>, host: string, vm: Server)
    requires GroupByHost(servers, hosts).Ok?
    requires host in GroupByHost(servers, hosts).value
    ensures host in hosts
    ensures vm in GroupByHost(servers, hosts).value[host] <==> vm in servers && RunsOn(vm, hosts, host)
    ensures multiset(GroupByHost(servers, hosts).value[host])[vm] ==
              if RunsOn(vm, hosts, host) then multiset(servers)[vm] else 0
  {
    var group := GroupByHost(servers, hosts).value[host];
    assert group == ServersOn(servers, hosts, host);
    ServersOnCount(servers, hosts, host, vm);
    ServersOnCount(servers, hosts, host, group[0]);
    assert group[0] in multiset(group);
  }

  /** Only candidate hosts get a group. */
  lemma GroupedHostsAreCandidates(servers: seq<Server>, hosts: set<string>)
    requires GroupByHost(servers, hosts).Ok?
    ensures GroupByHost(servers, hosts).value.Keys <= hosts
  {
  }

  /** The (id, vcpus) entries the flavor map is collected from. */
  function FlavorEntries(flavors: seq<Flavor>): (r: seq<(string, int)>)
    ensures |r| == |flavors|
    ensures forall i :: 0 <= i < |r| ==> r[i] == (flavors[i].id, flavors[i].vcpus)
  {
    seq(|flavors|, i requires 0 <= i < |flavors| => (flavors[i].id, flavors[i].vcpus))
  }

  lemma FlavorEntriesDistinct(flavors: seq<Flavor>)
    ensures DistinctKeys(FlavorEntries(flavors)) <==> forall i, j :: 0 <= i < j < |flavors| ==> flavors[i].id != flavors[j].id
  {
  }

  lemma FlavorEntriesKeys(flavors: seq<Flavor>)
    ensures (set e | e in FlavorEntries(flavors) :: e.0) == (set f | f in flavors :: f.id)
  {
    var entries := FlavorEntries(flavors);
    forall f | f in flavors ensures f.id in (set e | e in entries :: e.0) {
      var i :| 0 <= i < |flavors| && flavors[i] == f;
      assert entries[i] in entries;
    }
  }

  /** Flavor id to vCPU count; a repeated flavor id aborts the collection. */
  function FlavorVcpus(flavors: seq<Flavor>): (r: Result<map<string, int>>)
    ensures r.Ok? <==> forall i, j :: 0 <= i < j < |flavors| ==> flavors[i].id != flavors[j].id
    ensures r.Err? ==> r.error.DuplicateKey?
    ensures r.Ok? ==> r.value.Keys == (set f | f in flavors :: f.id)
    ensures r.Ok? ==> forall f :: f in flavors ==> r.value[f.id] == f.vcpus
  {
    var entries := FlavorEntries(flavors);
    FlavorEntriesDistinct(flavors);
    FlavorEntriesKeys(flavors);
    var r := ToMap(entries);
    assert r.Ok? ==> forall f :: f in flavors ==> r.value[f.id] == f.vcpus by {
      if r.Ok? {
        forall f | f in flavors ensures r.value[f.id] == f.vcpus {
          var i :| 0 <= i < |flavors| && flavors[i] == f;
          assert entries[i] == (f.id, f.vcpus);
        }
      }
    }
    r
  }

  /** What one server adds to its host's vCPU usage: its flavor's vCPUs, or
    * nothing when its flavor id is not among the listed flavors. */
  function VcpusOf(vm: Server, flavorVcpus: map<string, int>): int
  {
    if vm.flavorId in flavorVcpus then flavorVcpus[vm.flavorId] else 0
  }

  /** Sum of the vCPUs of the servers' flavors, left to right. */
  function UsedVcpus(vms: seq<Server>, flavorVcpus: map<string, int>): (r: int)
    ensures (forall i :: 0 <= i < |vms| ==> vms[i].flavorId !in flavorVcpus) ==> r == 0
    ensures (forall id :: id in flavorVcpus ==> flavorVcpus[id] >= 0) ==> r >= 0
  {
    if vms == [] then 0
    else UsedVcpus(vms[..|vms| - 1], flavorVcpus) + VcpusOf(vms[|vms| - 1], flavorVcpus)
  }

  lemma {:induction false} UsedVcpusAppend(a: seq<Server>, b: seq<Server>, flavorVcpus: map<string, int>)
    ensures UsedVcpus(a + b, flavorVcpus) == UsedVcpus(a, flavorVcpus) + UsedVcpus(b, flavorVcpus)
    decreases |b|
  {
    if b == [] {
      assert a + b == a;
    } else {
      var init := b[..|b| - 1];
      assert (a + b)[..|a + b| - 1] == a + init;
      UsedVcpusAppend(a, init, flavorVcpus);
    }
  }

  /** The servers whose flavor id is listed, in order. */
  function WithKnownFlavor(vms: seq<Server>, flavorVcpus: map<string, int>): seq<Server>
  {
    if vms == [] then []
    else
      var vm := vms[|vms| - 1];
      WithKnownFlavor(vms[..|vms| - 1], flavorVcpus) + (if vm.flavorId in flavorVcpus then [vm] else [])
  }

  /** Servers with an unknown flavor contribute nothing: the usage equals the
    * sum over the servers whose flavor resolves. */
  lemma {:induction false} UnknownFlavorsAddNothing(vms: seq<Server>, flavorVcpus: map<string, int>)
    ensures UsedVcpus(vms, flavorVcpus) == UsedVcpus(WithKnownFlavor(vms, flavorVcpus), flavorVcpus)
  {
    if vms != [] {
      var init := vms[..|vms| - 1];
      var vm := vms[|vms| - 1];
      UnknownFlavorsAddNothing(init, flavorVcpus);
      var known := WithKnownFlavor(init, flavorVcpus);
      if vm.flavorId in flavorVcpus {
        assert WithKnownFlavor(vms, flavorVcpus) == known + [vm];
        UsedVcpusAppend(known, [vm], flavorVcpus);
        assert [vm][..0] == [];
        assert UsedVcpus([vm], flavorVcpus) == VcpusOf(vm, flavorVcpus);
      } else {
        assert WithKnownFlavor(vms, flavorVcpus) == known + [];
        assert known + [] == known;
      }
    }
  }

  /** With vCPU counts between 0 and `most`, usage is between 0 and `most` per server. */
  lemma {:induction false} UsedVcpusBounds(vms: seq<Server>, flavorVcpus: map<string, int>, most: int)
    requires 0 <= most
    requires forall id :: id in flavorVcpus ==> 0 <= flavorVcpus[id] <= most
    ensures 0 <= UsedVcpus(vms, flavorVcpus) <= |vms| * most
  {
    if vms != [] {
      var init := vms[..|vms| - 1];
      UsedVcpusBounds(init, flavorVcpus, most);
      assert 0 <= VcpusOf(vms[|vms| - 1], flavorVcpus) <= most;
      assert (|init| + 1) * most == |init| * most + most;
    }
  }

  /** As long as the true sum fits in an `int`, the recorded usage is the exact sum. */
  lemma RecordedUsageIsExact(vms: seq<Server>, flavorVcpus: map<string, int>, most: int)
    requires 0 <= most
    requires forall id :: id in flavorVcpus ==> 0 <= flavorVcpus[id] <= most
    requires |vms| * most < 0x8000_0000
    ensures ToInt32(UsedVcpus(vms, flavorVcpus)) == UsedVcpus(vms, flavorVcpus)
  {
    UsedVcpusBounds(vms, flavorVcpus, most);
    ToInt32InRange(UsedVcpus(vms, flavorVcpus));
  }

  /** The per-host usage the pipeline computes: the sum truncated to Java `int`. */
  function VcpuUsage(groups: map<string, seq<Server>>, flavorVcpus: map<string, int>): (r: map<string, int>)
    ensures r.Keys == groups.Keys
    ensures forall host :: host in r ==> -0x8000_0000 <= r[host] < 0x8000_0000
    ensures forall host :: host in r ==> (r[host] - UsedVcpus(groups[host], flavorVcpus)) % Int32Modulus == 0
  {
    map host | host in groups :: ToInt32(UsedVcpus(groups[host], flavorVcpus))
  }

  /** Does the port hang off the server with this id? A port with no device matches nothing. */
  predicate AttachedTo(p: Port, vmId: string)
  {
    p.deviceId == Some(vmId)
  }

  /** `findFirst` of the ports attached to the server with this id. */
  function FirstPort(ports: seq<Port>, vmId: string): (r: Option<Port>)
    ensures r.None? <==> forall i :: 0 <= i < |ports| ==> !AttachedTo(ports[i], vmId)
    ensures r.Some? ==> exists i :: 0 <= i < |ports| && ports[i] == r.value && AttachedTo(r.value, vmId) &&
                                    forall j :: 0 <= j < i ==> !AttachedTo(ports[j], vmId)
  {
    if ports == [] then None
    else if AttachedTo(ports[0], vmId) then Some(ports[0])
    else
      var r := FirstPort(ports[1..], vmId);
      assert forall i :: 1 <= i < |ports| ==> ports[i] == ports[1..][i - 1];
      if r.Some? then
        var k :| 0 <= k < |ports[1..]| && ports[1..][k] == r.value && AttachedTo(r.value, vmId) &&
                 forall j :: 0 <= j < k ==> !AttachedTo(ports[1..][j], vmId);
        assert ports[k + 1] == r.value;
        r
      else
        r
  }

  /** The first attached port of each server, in server order, skipping
    * servers with no port. */
  function PortsOf(vms: seq<Server>, ports: seq<Port>): (r: seq<Port>)
    ensures |r| <= |vms|
  {
    if vms == [] then []
    else
      var vm := vms[|vms| - 1];
      match FirstPort(ports, vm.id)
      case None => PortsOf(vms[..|vms| - 1], ports)
      case Some(p) => PortsOf(vms[..|vms| - 1], ports) + [p]
  }

  /** Every port in the list is the first port of one of the servers. */
  lemma {:induction false} PortsOfFirstMatches(vms: seq<Server>, ports: seq<Port>, p: Port)
    requires p in PortsOf(vms, ports)
    ensures exists vm :: vm in vms && FirstPort(ports, vm.id) == Some(p)
  {
    var init := vms[..|vms| - 1];
    var vm := vms[|vms| - 1];
    if p in PortsOf(init, ports) {
      PortsOfFirstMatches(init, ports, p);
      var w :| w in init && FirstPort(ports, w.id) == Some(p);
      assert w in vms;
    } else {
      assert FirstPort(ports, vm.id) == Some(p);
    }
  }

  lemma {:induction false} PortsOfAppend(a: seq<Server>, b: seq<Server>, ports: seq<Port>)
    ensures PortsOf(a + b, ports) == PortsOf(a, ports) + PortsOf(b, ports)
    decreases |b|
  {
    if b == [] {
      assert a + b == a;
    } else {
      var init := b[..|b| - 1];
      assert (a + b)[..|a + b| - 1] == a + init;
      PortsOfAppend(a, init, ports);
    }
  }

  /** When every server has a port, the list pairs up with the servers one to one. */
  lemma {:induction false} PortsOfAllAttached(vms: seq<Server>, ports: seq<Port>)
    requires forall i :: 0 <= i < |vms| ==> FirstPort(ports, vms[i].id).Some?
    ensures |PortsOf(vms, ports)| == |vms|
    ensures forall i :: 0 <= i < |vms| ==> Some(PortsOf(vms, ports)[i]) == FirstPort(ports, vms[i].id)
  {
    if vms != [] {
      var init := vms[..|vms| - 1];
      var vm := vms[|vms| - 1];
      assert forall i :: 0 <= i < |init| ==> init[i] == vms[i];
      PortsOfAllAttached(init, ports);
      var p := FirstPort(ports, vm.id).value;
      assert PortsOf(vms, ports) == PortsOf(init, ports) + [p];
      forall i | 0 <= i < |vms| ensures Some(PortsOf(vms, ports)[i]) == FirstPort(ports, vms[i].id) {
        if i < |init| {
          assert PortsOf(vms, ports)[i] == PortsOf(init, ports)[i];
        }
      }
    }
  }

  /** When no port hangs off any of the servers, the list is empty. */
  lemma {:induction false} PortsOfNoneAttached(vms: seq<Server>, ports: seq<Port>)
    requires forall vm, p :: vm in vms && p in ports ==> !AttachedTo(p, vm.id)
    ensures PortsOf(vms, ports) == []
  {
    if vms != [] {
      var init := vms[..|vms| - 1];
      var vm := vms[|vms| - 1];
      assert forall v :: v in init ==> v in vms;
      PortsOfNoneAttached(init, ports);
      assert forall i :: 0 <= i < |ports| ==> ports[i] in ports;
    }
  }

  /** Ports per host: the same hosts as the grouping, at most one port per server. */
  function PortJoin(groups: map<string, seq<Server>>, ports: seq<Port>): (r: map<string, seq<Port>>)
    ensures r.Keys == groups.Keys
    ensures forall host :: host in r ==> |r[host]| <= |groups[host]|
  {
    map host | host in groups :: PortsOf(groups[host], ports)
  }
}
