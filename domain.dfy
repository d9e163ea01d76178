/**
 * The inventory records the correlation pipeline works on, as they come back
 * from the compute and network list calls, and the pipeline's fixed inputs.
 */
module Domain {

  datatype Option<T> = None | Some(value: T)

  /** The two ways the pipeline aborts: a collector meeting a repeated key,
    * and an `Optional.get` on a server without extended attributes. */
  datatype Failure =
    | DuplicateKey(key: string)
    | MissingExtendedAttributes(serverId: string)

  datatype Result<T> = Ok(value: T) | Err(error: Failure)

  /** An availability zone in detail: its name, whether its state is
    * available, and for each host the services it runs, each with its
    * "active" flag. */
  datatype Zone = Zone(name: string, available: bool, hosts: map<string, map<string, bool>>)

  datatype Hypervisor = Hypervisor(name: string, diskAvailableLeast: int, freeRamMb: int)

  /** Server states known to the compute API. */
  datatype Status =
    | Active | Build | Rebuild | Suspended | Paused | Resize | VerifyResize
    | RevertResize | Password | Reboot | HardReboot | Deleted | Unknown
    | Error | Stopped | Shutoff | Shelved | ShelvedOffloaded | Migrating
    | SoftDeleted | Unrecognized

  /** The OS-EXT-SRV-ATTR extension of a server; the host may be absent. */
  datatype ExtendedAttributes = ExtendedAttributes(hostName: Option<string>)

  datatype Server = Server(
    id: string,
    status: Status,
    extendedAttributes: Option<ExtendedAttributes>,
    flavorId: string)

  datatype Flavor = Flavor(id: string, vcpus: int)

  /** A network port; a port attached to nothing has no device id. */
  datatype Port = Port(id: string, deviceId: Option<string>, networkId: string)

  /** Availability zones the pipeline considers. */
  const AvailabilityZoneNames: set<string> := {"nova"}

  /** Server states that count as workload on a host. */
  const ActiveVmStatuses: set<Status> := {Active, Build}

  /** Free RAM (MB) and free disk (GB) a host needs to be a candidate. */
  const InputRamMb: int := 1024
  const InputDiskGb: int := 10

  /** The service whose activity makes a host a compute host. */
  const ComputeService: string := "nova-compute"
}
