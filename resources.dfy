/**
 * The compute-host side of the pipeline, which works on shared mutable
 * objects: one `ComputeResource` per hypervisor, the threshold filter that
 * keeps references to the same objects, and the step that writes each
 * host's vCPU usage into them. `Correlate` runs the whole pipeline and is
 * proved against `Correlation`, the same pipeline computed on values.
 */
module Resources {
  import opened Domain
  import opened Collectors
  import opened Selection
  import opened Workload

  /** Free disk (GB) and free RAM (MB) of one compute host, and the vCPUs
    * its active servers use once they have been summed. */
  class ComputeResource {
    var freeDiskSpace: int
    var freeRam: int
    var usedVcpus: Option<int>

    constructor (freeDiskSpace: int, freeRam: int)
      ensures this.freeDiskSpace == freeDiskSpace && this.freeRam == freeRam && usedVcpus == None
    {
      this.freeDiskSpace := freeDiskSpace;
      this.freeRam := freeRam;
      usedVcpus := None;
    }
  }

  /** No two hosts share one resource object. */
  ghost predicate Unshared(resources: map<string, ComputeResource>)
  {
    forall h1, h2 :: h1 in resources && h2 in resources && h1 != h2 ==> resources[h1] != resources[h2]
  }

  /** One new resource object per hypervisor, keyed by the hypervisor's name,
    * holding its least available disk and its free RAM. The hypervisor map is
    * keyed by name, so no key can repeat here. */
  method ProjectResources(hypervisors: map<string, Hypervisor>) returns (resources: map<string, ComputeResource>)
    requires forall name :: name in hypervisors ==> hypervisors[name].name == name
    ensures resources.Keys == hypervisors.Keys
    ensures Unshared(resources)
    ensures forall name :: name in resources ==> fresh(resources[name])
    ensures forall name :: name in resources ==>
              && resources[name].freeDiskSpace == hypervisors[name].diskAvailableLeast
              && resources[name].freeRam == hypervisors[name].freeRamMb
              && resources[name].usedVcpus == None
  {
    resources := map[];
    var todo := hypervisors.Keys;
    while todo != {}
      invariant todo <= hypervisors.Keys
      invariant resources.Keys == hypervisors.Keys - todo
      invariant Unshared(resources)
      invariant forall name :: name in resources ==> fresh(resources[name])
      invariant forall name :: name in resources ==>
                  && resources[name].freeDiskSpace == hypervisors[name].diskAvailableLeast
                  && resources[name].freeRam == hypervisors[name].freeRamMb
                  && resources[name].usedVcpus == None
      decreases todo
    {
      var name :| name in todo;
      var hv := hypervisors[name];
      var resource := new ComputeResource(hv.diskAvailableLeast, hv.freeRamMb);
      resources := resources[hv.name := resource];
      todo := todo - {name};
    }
  }

  /** The hosts with at least `InputDiskGb` free disk and `InputRamMb` free
    * RAM, mapped to the very objects of the input map. */
  function ThresholdFilter(resources: map<string, ComputeResource>): (filtered: map<string, ComputeResource>)
    reads resources.Values
    ensures forall host :: host in filtered <==>
              host in resources && resources[host].freeDiskSpace >= InputDiskGb && resources[host].freeRam >= InputRamMb
    ensures forall host :: host in filtered ==> filtered[host] == resources[host]
  {
    map host | host in resources && HasRoom(resources[host].freeDiskSpace, resources[host].freeRam) :: resources[host]
  }

  /** Filtering the projected objects keeps the same hosts as the threshold
    * test stated on the hypervisor records. */
  lemma ThresholdFilterKeys(resources: map<string, ComputeResource>, hypervisors: map<string, Hypervisor>)
    requires resources.Keys == hypervisors.Keys
    requires forall host :: host in resources ==>
               && resources[host].freeDiskSpace == hypervisors[host].diskAvailableLeast
               && resources[host].freeRam == hypervisors[host].freeRamMb
    ensures ThresholdFilter(resources).Keys == SuitableHosts(hypervisors)
  {
  }

  /** `computeIfPresent` for every (host, vCPUs) pair of `usage`: a host that
    * is in `filtered` gets its usage recorded; hosts not in `usage` keep what
    * they had, and nothing else about the objects changes. */
  method FillUsedVcpus(filtered: map<string, ComputeResource>, usage: map<string, int>)
    requires Unshared(filtered)
    modifies filtered.Values`usedVcpus
    ensures forall host :: host in filtered ==>
              filtered[host].usedVcpus == if host in usage then Some(usage[host]) else old(filtered[host].usedVcpus)
    ensures forall host :: host in filtered ==>
              filtered[host].freeDiskSpace == old(filtered[host].freeDiskSpace) &&
              filtered[host].freeRam == old(filtered[host].freeRam)
  {
    var todo := usage.Keys;
    while todo != {}
      invariant todo <= usage.Keys
      invariant forall host :: host in filtered ==>
                  filtered[host].usedVcpus == if host in usage && host !in todo then Some(usage[host]) else old(filtered[host].usedVcpus)
      decreases todo
    {
      var host :| host in todo;
      if host in filtered {
        filtered[host].usedVcpus := Some(usage[host]);
      }
      todo := todo - {host};
    }
  }

  /** Every intermediate collection of the pipeline, as values. */
  datatype Plan = Plan(
    activeZones: seq<Zone>,
    activeComputeHosts: set<string>,
    hypervisorsByName: map<string, Hypervisor>,
    suitableHosts: set<string>,
    serversByHost: map<string, seq<Server>>,
    flavorVcpus: map<string, int>,
    vcpuUsage: map<string, int>,
    portsByHost: map<string, seq<Port>>)

  /** The pipeline on values: each step's result, or the first failure. */
  function Correlation(zones: seq<Zone>, hypervisors: seq<Hypervisor>, servers: seq<Server>,
                       flavors: seq<Flavor>, ports: seq<Port>): (r: Result<Plan>)
    ensures r.Ok? ==> r.value.hypervisorsByName.Keys <= r.value.activeComputeHosts
    ensures r.Ok? ==> r.value.suitableHosts <= r.value.hypervisorsByName.Keys
    ensures r.Ok? ==> r.value.serversByHost.Keys <= r.value.suitableHosts
    ensures r.Ok? ==> r.value.vcpuUsage.Keys == r.value.serversByHost.Keys
    ensures r.Ok? ==> r.value.portsByHost.Keys == r.value.serversByHost.Keys
  {
    var activeZones := SelectZones(zones);
    var activeHosts := ActiveComputeHosts(activeZones);
    match HypervisorMap(hypervisors, activeHosts)
    case Err(e) => Err(e)
    case Ok(byName) =>
      var suitable := SuitableHosts(byName);
      match GroupByHost(servers, suitable)
      case Err(e) => Err(e)
      case Ok(groups) =>
        GroupedHostsAreCandidates(servers, suitable);
        match FlavorVcpus(flavors)
        case Err(e) => Err(e)
        case Ok(flavorVcpus) =>
          Ok(Plan(activeZones, activeHosts, byName, suitable, groups, flavorVcpus,
                  VcpuUsage(groups, flavorVcpus), PortJoin(groups, ports)))
  }

  /** What the pipeline leaves behind. */
  datatype Report = Report(
    activeZones: seq<Zone>,
    activeComputeHosts: set<string>,
    hypervisorsByName: map<string, Hypervisor>,
    computeHostResources: map<string, ComputeResource>,
    filteredComputeHostResources: map<string, ComputeResource>,
    activeServersPerComputeHost: map<string, seq<Server>>,
    flavorToVcpus: map<string, int>,
    portsByComputeHost: map<string, seq<Port>>)

  /** The report's collections are the plan's, the resource objects hold the
    * hypervisors' free disk and RAM, the filtered map shares its objects with
    * the full one, and exactly the hosts with grouped servers have their vCPU
    * usage set. */
  ghost predicate Realizes(report: Report, plan: Plan)
    reads report.computeHostResources.Values
  {
    && report.activeZones == plan.activeZones
    && report.activeComputeHosts == plan.activeComputeHosts
    && report.hypervisorsByName == plan.hypervisorsByName
    && report.activeServersPerComputeHost == plan.serversByHost
    && report.flavorToVcpus == plan.flavorVcpus
    && report.portsByComputeHost == plan.portsByHost
    && report.computeHostResources.Keys == plan.hypervisorsByName.Keys
    && report.filteredComputeHostResources.Keys == plan.suitableHosts
    && (forall host :: host in report.filteredComputeHostResources ==>
          host in report.computeHostResources &&
          report.filteredComputeHostResources[host] == report.computeHostResources[host])
    && (forall host :: host in report.computeHostResources ==>
          && report.computeHostResources[host].freeDiskSpace == plan.hypervisorsByName[host].diskAvailableLeast
          && report.computeHostResources[host].freeRam == plan.hypervisorsByName[host].freeRamMb
          && report.computeHostResources[host].usedVcpus ==
               if host in plan.vcpuUsage then Some(plan.vcpuUsage[host]) else None)
  }

  /** The whole correlation: zones, active hosts, hypervisors, resources,
    * threshold filter, grouping, vCPU fill and port join, stopping at the
    * first failure exactly where `Correlation` does. */
  method Correlate(zones: seq<Zone>, hypervisors: seq<Hypervisor>, servers: seq<Server>,
                   flavors: seq<Flavor>, ports: seq<Port>) returns (r: Result<Report>)
    ensures r.Err? <==> Correlation(zones, hypervisors, servers, flavors, ports).Err?
    ensures r.Err? ==> r.error == Correlation(zones, hypervisors, servers, flavors, ports).error
    ensures r.Ok? ==> Realizes(r.value, Correlation(zones, hypervisors, servers, flavors, ports).value)
    ensures r.Ok? ==> forall host :: host in r.value.computeHostResources ==> fresh(r.value.computeHostResources[host])
  {
    var activeZones := SelectZones(zones);
    var activeHosts := ActiveComputeHosts(activeZones);
    var byName := HypervisorMap(hypervisors, activeHosts);
    if byName.Err? {
      return Err(byName.error);
    }
    var hvs := byName.value;
    var resources := ProjectResources(hvs);
    var filtered := ThresholdFilter(resources);
    ThresholdFilterKeys(resources, hvs);
    var grouped := GroupByHost(servers, filtered.Keys);
    if grouped.Err? {
      return Err(grouped.error);
    }
    var groups := grouped.value;
    GroupedHostsAreCandidates(servers, filtered.Keys);
    var flavorMap := FlavorVcpus(flavors);
    if flavorMap.Err? {
      return Err(flavorMap.error);
    }
    var usage := VcpuUsage(groups, flavorMap.value);
    assert Unshared(filtered);
    assert forall host :: host in resources && host !in filtered ==> resources[host] !in filtered.Values;
    FillUsedVcpus(filtered, usage);
    var portsByHost := PortJoin(groups, ports);
    r := Ok(Report(activeZones, activeHosts, hvs, resources, filtered, groups, flavorMap.value, portsByHost));
  }
}
