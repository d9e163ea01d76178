/**
 * Choosing where workload may go: the availability zones of interest, the
 * hosts in them whose compute service is up, the hypervisors of those hosts
 * keyed by name, and the hosts whose hypervisor has room by the fixed
 * disk and RAM thresholds.
 */
module Selection {
  import opened Domain
  import opened Collectors

  /** A zone is of interest when it is named in the allow-list and available. */
  predicate IsSelectedZone(z: Zone)
  {
    z.name in AvailabilityZoneNames && z.available
  }

  /** The zones of interest, in listing order. */
  function SelectZones(zones: seq<Zone>): (r: seq<Zone>)
    ensures |r| <= |zones|
    ensures forall z :: multiset(r)[z] == if IsSelectedZone(z) then multiset(zones)[z] else 0
  {
    if zones == [] then []
    else
      assert zones == [zones[0]] + zones[1..];
      (if IsSelectedZone(zones[0]) then [zones[0]] else []) + SelectZones(zones[1..])
  }

  /** Selecting from a concatenation selects from each part, keeping order. */
  lemma {:induction false} SelectZonesAppend(a: seq<Zone>, b: seq<Zone>)
    ensures SelectZones(a + b) == SelectZones(a) + SelectZones(b)
  {
    if a == [] {
      assert a + b == b;
    } else {
      assert (a + b)[1..] == a[1..] + b;
      SelectZonesAppend(a[1..], b);
    }
  }

  /** A zone lists `host` with an active compute service. A host without a
    * compute-service entry does not qualify (it is not an error). */
  predicate RunsActiveCompute(z: Zone, host: string)
  {
    host in z.hosts && ComputeService in z.hosts[host] && z.hosts[host][ComputeService]
  }

  function ActiveHostsOf(z: Zone): set<string>
  {
    set host | host in z.hosts && RunsActiveCompute(z, host)
  }

  /** The union, over the given zones, of their hosts with an active compute service. */
  function ActiveComputeHosts(zones: seq<Zone>): (r: set<string>)
    ensures forall host :: host in r <==> exists i :: 0 <= i < |zones| && RunsActiveCompute(zones[i], host)
  {
    if zones == [] then {}
    else
      var rest := ActiveComputeHosts(zones[1..]);
      assert forall host :: host in rest <==> exists i :: 1 <= i < |zones| && RunsActiveCompute(zones[i], host) by {
        forall host | host in rest ensures exists i :: 1 <= i < |zones| && RunsActiveCompute(zones[i], host) {
          var k :| 0 <= k < |zones[1..]| && RunsActiveCompute(zones[1..][k], host);
          assert RunsActiveCompute(zones[k + 1], host);
        }
        forall host, i | 1 <= i < |zones| && RunsActiveCompute(zones[i], host) ensures host in rest {
          assert zones[1..][i - 1] == zones[i];
        }
      }
      ActiveHostsOf(zones[0]) + rest
  }

  /** The hypervisors running on the given hosts, in listing order. */
  function HypervisorsOn(hypervisors: seq<Hypervisor>, hosts: set<string>): (r: seq<Hypervisor>)
    ensures forall hv :: hv in r <==> hv in hypervisors && hv.name in hosts
    ensures forall hv :: multiset(r)[hv] == if hv.name in hosts then multiset(hypervisors)[hv] else 0
  {
    if hypervisors == [] then []
    else
      assert hypervisors == [hypervisors[0]] + hypervisors[1..];
      (if hypervisors[0].name in hosts then [hypervisors[0]] else []) + HypervisorsOn(hypervisors[1..], hosts)
  }

  /** No two hypervisors share a name. */
  ghost predicate DistinctNames(hypervisors: seq<Hypervisor>)
  {
    forall i, j :: 0 <= i < j < |hypervisors| ==> hypervisors[i].name != hypervisors[j].name
  }

  /** No two listed hypervisors on the given hosts share a name, whether or
    * not they are the same record. */
  ghost predicate DistinctNamesOn(hypervisors: seq<Hypervisor>, hosts: set<string>)
  {
    forall i, j :: 0 <= i < j < |hypervisors| && hypervisors[i].name in hosts && hypervisors[j].name in hosts ==>
      hypervisors[i].name != hypervisors[j].name
  }

  lemma DistinctNamesOnCons(hypervisors: seq<Hypervisor>, hosts: set<string>)
    requires hypervisors != []
    ensures DistinctNamesOn(hypervisors, hosts) <==>
              && DistinctNamesOn(hypervisors[1..], hosts)
              && (hypervisors[0].name in hosts ==>
                    forall hv :: hv in hypervisors[1..] && hv.name in hosts ==> hv.name != hypervisors[0].name)
  {
    var first := hypervisors[0];
    var rest := hypervisors[1..];
    assert forall i :: 1 <= i < |hypervisors| ==> hypervisors[i] == rest[i - 1];
    if DistinctNamesOn(rest, hosts) &&
       (first.name in hosts ==> forall hv :: hv in rest && hv.name in hosts ==> hv.name != first.name) {
      forall i, j | 0 <= i < j < |hypervisors| && hypervisors[i].name in hosts && hypervisors[j].name in hosts
        ensures hypervisors[i].name != hypervisors[j].name
      {
        if i > 0 {
          assert rest[i - 1].name != rest[j - 1].name;
        } else {
          assert rest[j - 1] in rest;
        }
      }
    }
    if DistinctNamesOn(hypervisors, hosts) {
      forall hv | first.name in hosts && hv in rest && hv.name in hosts ensures hv.name != first.name {
        var k :| 0 <= k < |rest| && rest[k] == hv;
        assert hypervisors[k + 1] == hv;
      }
    }
  }

  lemma DistinctNamesCons(first: Hypervisor, tail: seq<Hypervisor>)
    ensures DistinctNames([first] + tail) <==> DistinctNames(tail) && forall hv :: hv in tail ==> hv.name != first.name
  {
    var all := [first] + tail;
    assert forall i :: 1 <= i < |all| ==> all[i] == tail[i - 1];
    assert all[0] == first;
    if DistinctNames(all) {
      forall hv | hv in tail ensures hv.name != first.name {
        var k :| 0 <= k < |tail| && tail[k] == hv;
        assert all[0].name != all[k + 1].name;
      }
      forall i, j | 0 <= i < j < |tail| ensures tail[i].name != tail[j].name {
        assert all[i + 1].name != all[j + 1].name;
      }
    }
    if DistinctNames(tail) && forall hv :: hv in tail ==> hv.name != first.name {
      forall i, j | 0 <= i < j < |all| ensures all[i].name != all[j].name {
        assert all[j] == tail[j - 1];
        if i == 0 {
          assert tail[j - 1] in tail;
        } else {
          assert all[i] == tail[i - 1];
        }
      }
    }
  }

  /** The kept hypervisors have distinct names exactly when the listed ones on
    * those hosts do. */
  lemma {:induction false} HypervisorsOnDistinct(hypervisors: seq<Hypervisor>, hosts: set<string>)
    ensures DistinctNames(HypervisorsOn(hypervisors, hosts)) <==> DistinctNamesOn(hypervisors, hosts)
  {
    if hypervisors != [] {
      var first := hypervisors[0];
      var rest := hypervisors[1..];
      HypervisorsOnDistinct(rest, hosts);
      DistinctNamesOnCons(hypervisors, hosts);
      var tail := HypervisorsOn(rest, hosts);
      if first.name in hosts {
        assert HypervisorsOn(hypervisors, hosts) == [first] + tail;
        DistinctNamesCons(first, tail);
      } else {
        assert HypervisorsOn(hypervisors, hosts) == tail;
      }
    }
  }

  /** The (name, record) entries the hypervisor map is collected from. */
  function NameEntries(hypervisors: seq<Hypervisor>): (r: seq<(string, Hypervisor)>)
    ensures |r| == |hypervisors|
    ensures forall i :: 0 <= i < |r| ==> r[i] == (hypervisors[i].name, hypervisors[i])
  {
    seq(|hypervisors|, i requires 0 <= i < |hypervisors| => (hypervisors[i].name, hypervisors[i]))
  }

  lemma NameEntriesDistinct(hypervisors: seq<Hypervisor>)
    ensures DistinctKeys(NameEntries(hypervisors)) <==> DistinctNames(hypervisors)
  {
  }

  lemma NameEntriesKeys(hypervisors: seq<Hypervisor>)
    ensures (set e | e in NameEntries(hypervisors) :: e.0) == (set hv | hv in hypervisors :: hv.name)
    ensures forall e :: e in NameEntries(hypervisors) ==> e.1 in hypervisors && e.0 == e.1.name
  {
    var entries := NameEntries(hypervisors);
    forall e | e in entries ensures e.1 in hypervisors && e.0 == e.1.name {
      var i :| 0 <= i < |entries| && entries[i] == e;
    }
    forall hv | hv in hypervisors ensures hv.name in (set e | e in entries :: e.0) {
      var i :| 0 <= i < |hypervisors| && hypervisors[i] == hv;
      assert entries[i] in entries;
    }
  }

  /** `toMap` keyed by name over hypervisors already filtered. */
  function CollectByName(kept: seq<Hypervisor>): (r: Result<map<string, Hypervisor>>)
    ensures r.Ok? <==> DistinctNames(kept)
    ensures r.Err? ==> r.error.DuplicateKey? && exists hv :: hv in kept && hv.name == r.error.key
    ensures r.Ok? ==> r.value.Keys == (set hv | hv in kept :: hv.name)
    ensures r.Ok? ==> forall name :: name in r.value ==> r.value[name] in kept && r.value[name].name == name
  {
    var entries := NameEntries(kept);
    NameEntriesDistinct(kept);
    NameEntriesKeys(kept);
    var r := ToMap(entries);
    if r.Ok? then
      assert forall name :: name in r.value ==> r.value[name] in kept && r.value[name].name == name by {
        forall name | name in r.value ensures r.value[name] in kept && r.value[name].name == name {
          var i :| 0 <= i < |entries| && entries[i].0 == name;
        }
      }
      r
    else
      assert entries[0] in entries;
      r
  }

  /** The hypervisors on the active hosts keyed by name; a name met twice
    * aborts the collection. */
  function HypervisorMap(hypervisors: seq<Hypervisor>, hosts: set<string>): (r: Result<map<string, Hypervisor>>)
    ensures r.Ok? <==> DistinctNamesOn(hypervisors, hosts)
    ensures r.Err? ==> r.error.DuplicateKey? && r.error.key in hosts
    ensures r.Ok? ==> r.value.Keys == (set hv | hv in hypervisors && hv.name in hosts :: hv.name)
    ensures r.Ok? ==> forall name :: name in r.value ==> r.value[name] in hypervisors && r.value[name].name == name
  {
    var kept := HypervisorsOn(hypervisors, hosts);
    HypervisorsOnDistinct(hypervisors, hosts);
    assert (set hv | hv in kept :: hv.name) == (set hv | hv in hypervisors && hv.name in hosts :: hv.name);
    CollectByName(kept)
  }

  lemma HypervisorMapOkWhenNamesUnique(hypervisors: seq<Hypervisor>, hosts: set<string>)
    requires DistinctNames(hypervisors)
    ensures HypervisorMap(hypervisors, hosts).Ok?
  {
  }

  /** The same record listed twice on an active host is a repeated name too. */
  lemma IdenticalDuplicateFails(hypervisors: seq<Hypervisor>, hosts: set<string>, i: nat, j: nat)
    requires i < j < |hypervisors|
    requires hypervisors[i] == hypervisors[j] && hypervisors[i].name in hosts
    ensures HypervisorMap(hypervisors, hosts).Err?
  {
  }

  /** Two hypervisors named alike on an active host make the collection fail on that name. */
  lemma DuplicateHypervisorExample()
    ensures HypervisorMap([Hypervisor("c1", 20, 2048), Hypervisor("c1", 30, 4096)], {"c1"}) == Err(DuplicateKey("c1"))
  {
  }

  /** The fixed capacity test: both bounds inclusive. */
  predicate HasRoom(freeDisk: int, freeRam: int)
  {
    freeDisk >= InputDiskGb && freeRam >= InputRamMb
  }

  /** The hosts whose hypervisor has room, stated on the hypervisor records. */
  function SuitableHosts(hypervisors: map<string, Hypervisor>): (r: set<string>)
    ensures r <= hypervisors.Keys
  {
    set host | host in hypervisors && HasRoom(hypervisors[host].diskAvailableLeast, hypervisors[host].freeRamMb)
  }

  /** Both thresholds are inclusive, and failing either one excludes the host. */
  lemma ThresholdBounds(disk: int, ram: int)
    ensures HasRoom(disk, ram) <==> disk >= 10 && ram >= 1024
  {
  }

  /** Two hosts with 2048 MB free: one with 20 GB of disk stays, one with 5 GB does not. */
  lemma SuitableHostsExample()
    ensures SuitableHosts(map["c1" := Hypervisor("c1", 20, 2048), "c2" := Hypervisor("c2", 5, 2048)]) == {"c1"}
  {
  }
}
