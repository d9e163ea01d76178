# osapitest: the jclouds capacity correlation pipeline, in Dafny

The jclouds client of osapitest lists the inventory of an OpenStack cloud and
correlates it in memory. It keeps the availability zones named `nova` that are
available. It collects the hosts in those zones whose `nova-compute` service is
active. It keys the hypervisors of those hosts by name and turns each one into
a `ComputeResource` with free disk and free RAM. It keeps the hosts with at
least 10 GB of disk and 1024 MB of RAM free. It groups the ACTIVE and BUILD
servers on those hosts by host. It sums each host's vCPU usage through the
flavor list and writes it into the shared `ComputeResource` objects. Finally,
for each server, it joins the first network port whose device id is that
server's id.

This project models that pipeline and proves what each step promises.

- `domain.dfy` (`Domain`): the inventory records (zones, hypervisors, servers,
  flavors, ports) and the fixed inputs: the zone allow-list, the active server
  states and the two thresholds.
- `collectors.dfy` (`Collectors`): the Java semantics the pipeline relies on.
  `Collectors.toMap` fails on a repeated key, reporting the first key seen
  twice. `IntStream.sum` adds 32-bit `int`s with wrap-around.
- `selection.dfy` (`Selection`): the zone filter, the active-host set, the
  hypervisor map and the threshold test on hypervisor values.
- `workload.dfy` (`Workload`): `groupingBy` of active servers by host, the
  flavor map, the vCPU sum and the port join.
- `resources.dfy` (`Resources`): the mutable `ComputeResource` class and the
  steps that act on it. Projection creates one fresh object per hypervisor.
  The threshold filter keeps references to the same objects. The vCPU fill
  writes only the `usedVcpus` field of those objects, through a
  ``modifies filtered.Values`usedVcpus`` frame. `Correlate` runs the whole
  pipeline imperatively. It is proved against `Correlation`, the same pipeline
  computed on values, through the predicate `Realizes`.

Failures are values: `Result<T>` is either `Ok(value)` or `Err(error)`.
`DuplicateKey` stands for the `IllegalStateException` that `toMap` throws.
`MissingExtendedAttributes` stands for the exception that `get` throws on the
absent (Guava) `Optional` of a server's extended attributes. Each step stops at the first failure in listing order, as a
sequential stream does.

Not every missing lookup is skipped silently. An ACTIVE or BUILD server
without extended attributes aborts the grouping. A repeated hypervisor name or
flavor id aborts the `toMap` collection. These are skipped without a failure:
a host of an active zone that has no `nova-compute` entry; an ACTIVE or BUILD
server whose extended attributes carry no host name; a flavor id that does
not resolve; and a server without a port.

## Model

| member | source | states |
|---|---|---|
| `Selection.SelectZones` | jclouds/src/main/java/org/github/hnyp/osapitest/jclouds/Main.java:57-60 | every zone named in the allow-list and available is kept as often as it is listed; no other zone is kept; the result is no longer than the input |
| `Selection.SelectZonesAppend` | jclouds/src/main/java/org/github/hnyp/osapitest/jclouds/Main.java:57-60 | selecting from a concatenation is the concatenation of the selections, so listing order is kept |
| `Selection.ActiveComputeHosts` | jclouds/src/main/java/org/github/hnyp/osapitest/jclouds/Main.java:70-81 | a host is in the set iff some given zone lists it with a `nova-compute` entry that is active; a host without that entry is left out, not an error |
| `Collectors.ToMap` | jclouds/src/main/java/org/github/hnyp/osapitest/jclouds/Main.java:93 | succeeds iff no key repeats; then the keys are the entries' keys and each key maps to its entry's value; otherwise it fails with the first key met a second time |
| `Selection.HypervisorsOn` | jclouds/src/main/java/org/github/hnyp/osapitest/jclouds/Main.java:92 | keeps exactly the listed hypervisors whose name is an active host, each as often as it is listed, and drops the others |
| `Selection.HypervisorsOnDistinct` | jclouds/src/main/java/org/github/hnyp/osapitest/jclouds/Main.java:90-93 | the kept hypervisors have pairwise distinct names iff no two listings, at different positions, of hypervisors on active hosts share a name |
| `Selection.CollectByName` | jclouds/src/main/java/org/github/hnyp/osapitest/jclouds/Main.java:93 | keying the kept hypervisors by name succeeds iff their names are pairwise distinct; then the keys are their names and each name maps to a kept hypervisor of that name; a failure names a kept hypervisor |
| `Selection.HypervisorMap` | jclouds/src/main/java/org/github/hnyp/osapitest/jclouds/Main.java:90-93 | succeeds iff no two listings, at different positions, of hypervisors on active hosts share a name, identical records included; the keys are exactly their names; each name maps to a listed hypervisor of that name; a failure names an active host |
| `Selection.IdenticalDuplicateFails` | jclouds/src/main/java/org/github/hnyp/osapitest/jclouds/Main.java:90-93 | the same hypervisor record listed twice on an active host makes the collection fail, since `toMap` compares keys, not values |
| `Selection.HypervisorMapOkWhenNamesUnique` | jclouds/src/main/java/org/github/hnyp/osapitest/jclouds/Main.java:90-93 | when no two listed hypervisors share a name, the hypervisor map is always built |
| `Selection.DuplicateHypervisorExample` | jclouds/src/main/java/org/github/hnyp/osapitest/jclouds/Main.java:90-93 | two hypervisors named `c1` on an active host make the collection fail with the key `c1` |
| `Resources.ComputeResource.constructor` | jclouds/src/main/java/org/github/hnyp/osapitest/jclouds/Main.java:107-110 | a new resource holds the given free disk and free RAM, with `usedVcpus` unset |
| `Resources.ProjectResources` | jclouds/src/main/java/org/github/hnyp/osapitest/jclouds/Main.java:105-111 | one fresh, unshared resource object per hypervisor, under the same host name, holding its least available disk and free RAM, with `usedVcpus` unset |
| `Resources.ThresholdFilter` | jclouds/src/main/java/org/github/hnyp/osapitest/jclouds/Main.java:116-121 | a host is kept iff its free disk is at least 10 and its free RAM at least 1024; kept hosts map to the same objects; no host is added |
| `Resources.ThresholdFilterKeys` | jclouds/src/main/java/org/github/hnyp/osapitest/jclouds/Main.java:105-121 | filtering the objects projected from the hypervisors keeps exactly the hosts whose hypervisor record has room |
| `Selection.ThresholdBounds` | jclouds/src/main/java/org/github/hnyp/osapitest/jclouds/Main.java:41-42 | both bounds are inclusive, and failing either one excludes the host |
| `Selection.SuitableHosts` | jclouds/src/main/java/org/github/hnyp/osapitest/jclouds/Main.java:116-121 | the hosts with room are a subset of the hypervisor map's hosts |
| `Selection.SuitableHostsExample` | jclouds/src/main/java/org/github/hnyp/osapitest/jclouds/Main.java:116-121 | c1 with (20 GB, 2048 MB) is kept and c2 with (5 GB, 2048 MB) is dropped |
| `Workload.GroupByHost` | jclouds/src/main/java/org/github/hnyp/osapitest/jclouds/Main.java:125-131 | fails iff some ACTIVE or BUILD server lacks extended attributes, and then names the first such server; otherwise a host has a group iff some active server runs on it and the host passed the filter, and its group is exactly those servers in listing order, so no group is empty |
| `Workload.ServersOnCount` | jclouds/src/main/java/org/github/hnyp/osapitest/jclouds/Main.java:127-131 | an active server on a candidate host appears in that host's list exactly as often as it is listed; any other server does not appear |
| `Workload.ServersOnAppend` | jclouds/src/main/java/org/github/hnyp/osapitest/jclouds/Main.java:125-131 | the per-host list of a concatenation is the concatenation of the lists, so listing order is kept |
| `Workload.GroupedServers` | jclouds/src/main/java/org/github/hnyp/osapitest/jclouds/Main.java:125-131 | a grouped host passed the filter; a server is in its group iff it is listed, has status ACTIVE or BUILD and runs on that host; it occurs there as often as it is listed |
| `Workload.GroupedHostsAreCandidates` | jclouds/src/main/java/org/github/hnyp/osapitest/jclouds/Main.java:128-130 | every host that has a group is one of the hosts that passed the threshold filter |
| `Workload.FlavorVcpus` | jclouds/src/main/java/org/github/hnyp/osapitest/jclouds/Main.java:151-152 | succeeds iff flavor ids are distinct; then its keys are the flavor ids and each id maps to its flavor's vCPUs; otherwise it fails with a duplicate key |
| `Workload.UsedVcpus` | jclouds/src/main/java/org/github/hnyp/osapitest/jclouds/Main.java:158-162 | the unwrapped sum is 0 when no server's flavor id resolves, and is non-negative when every flavor's vCPU count is |
| `Workload.VcpuUsage` | jclouds/src/main/java/org/github/hnyp/osapitest/jclouds/Main.java:156-163 | one entry per grouped host; each entry lies in the `int` range and is congruent modulo 2^32 to the true vCPU sum of that host's servers |
| `Workload.UsedVcpusAppend` | jclouds/src/main/java/org/github/hnyp/osapitest/jclouds/Main.java:158-162 | the vCPU sum over a concatenation is the sum of the two parts' sums |
| `Workload.UnknownFlavorsAddNothing` | jclouds/src/main/java/org/github/hnyp/osapitest/jclouds/Main.java:159-160 | the sum equals the sum over only those servers whose flavor id resolves, so unresolvable ids contribute 0 |
| `Workload.UsedVcpusBounds` | jclouds/src/main/java/org/github/hnyp/osapitest/jclouds/Main.java:158-162 | with every flavor between 0 and `most` vCPUs, the sum is between 0 and `most` per server |
| `Collectors.ToInt32` | jclouds/src/main/java/org/github/hnyp/osapitest/jclouds/Main.java:161-162 | the result lies in the `int` range and is congruent to the true sum modulo 2^32 |
| `Collectors.ToInt32InRange` | jclouds/src/main/java/org/github/hnyp/osapitest/jclouds/Main.java:161-162 | a value already in the `int` range is unchanged |
| `Workload.RecordedUsageIsExact` | jclouds/src/main/java/org/github/hnyp/osapitest/jclouds/Main.java:156-163 | when the true sum cannot reach 2^31, the recorded usage is the exact sum |
| `Resources.FillUsedVcpus` | jclouds/src/main/java/org/github/hnyp/osapitest/jclouds/Main.java:164-167 | each filtered host with a usage entry gets that usage; any other filtered host keeps its old value; only the `usedVcpus` field of the filtered objects may change, so free disk and RAM are unchanged |
| `Workload.FirstPort` | jclouds/src/main/java/org/github/hnyp/osapitest/jclouds/Main.java:196-197 | none iff no port's device id is the server id; otherwise a port at some index whose device id matches, with no earlier match |
| `Workload.PortsOf` | jclouds/src/main/java/org/github/hnyp/osapitest/jclouds/Main.java:195-199 | at most one port per server |
| `Workload.PortsOfFirstMatches` | jclouds/src/main/java/org/github/hnyp/osapitest/jclouds/Main.java:195-199 | every port in a host's list is the first matching port of one of that host's servers |
| `Workload.PortsOfAppend` | jclouds/src/main/java/org/github/hnyp/osapitest/jclouds/Main.java:195-199 | the port list of a concatenation is the concatenation of the lists, so server order is kept |
| `Workload.PortsOfAllAttached` | jclouds/src/main/java/org/github/hnyp/osapitest/jclouds/Main.java:195-199 | when every server has a port, the list has one entry per server, and entry i is server i's first port |
| `Workload.PortsOfNoneAttached` | jclouds/src/main/java/org/github/hnyp/osapitest/jclouds/Main.java:196-198 | servers with no attached port are skipped: if no port matches any server, the list is empty |
| `Workload.PortJoin` | jclouds/src/main/java/org/github/hnyp/osapitest/jclouds/Main.java:193-201 | the hosts are exactly the grouping's hosts, and each host's list has no more entries than its servers |
| `Resources.Correlation` | jclouds/src/main/java/org/github/hnyp/osapitest/jclouds/Main.java:57-201 | hypervisor hosts are active compute hosts; hosts with room are hypervisor hosts; grouped hosts are hosts with room; usage and port maps have the grouped hosts as keys |
| `Resources.Correlate` | jclouds/src/main/java/org/github/hnyp/osapitest/jclouds/Main.java:46-201 | fails exactly when, and with the same failure as, `Correlation`. Otherwise it yields `Correlation`'s collections. Every hypervisor gets a fresh object holding its free disk and RAM. The filtered map holds the hosts with room and shares their objects. `usedVcpus` is set to the wrapped flavor sum exactly for the hosts with grouped servers and is unset for every other host |

## Left out

- Authentication, region discovery, the compute and network list calls and
  `close` go through the jclouds SDK over the network. Their results are
  parameters of `Correlate`, passed as sequences in listing order.
- The console reporting (`System.out.println`) is output only.
- The CEPH disk step and the port/network/CPU-zone correlation are left
  unwritten in the source as TODO comments. The list of networks is fetched
  only to be printed. The constants `INPUT_CPUS` and `INPUT_VPORTS_COUNT` are
  never read. None of these is modelled.
- Java `null`: the model gives every record field a value, except a server's
  extended attributes, its host name and a port's device id, which are
  optional as in the API. A zone with a null name, or a server with a null
  status, would be dropped silently, since the Guava-built `HashSet` answers
  `contains(null)` with false; the model has no such records. A zone with a
  null state, or a server with a null flavor, and a hypervisor with null free
  disk or free RAM, would make the source throw; these failures are not
  modelled.
- `Resources.FillUsedVcpus` visits the usage entries in any order, as a
  `HashMap` does. Since the objects are unshared, the result is the same for
  every order. Printing order is not modelled.
- Free disk and free RAM are unbounded integers. The source only compares
  them, so 32-bit width plays no part there. The vCPU sum is the one place
  where arithmetic happens, and there the wrap-around is modelled.
- The openstack4j and openstack-java-sdk clients, and the credential loader,
  only authenticate, make SDK calls and read a properties file. They are not
  part of this model.
