/** The machine reconciler: what each operation does to the cloud, call by call. */
module Reconciler {
  import opened Cloud
  import opened Errors
  import opened Names
  import opened Wrappers
  import ResourceId

  /** The parts of a machine's spec and labels that steer the reconciler. Empty strings are unset fields. */
  datatype Config = Config(
    vnet: string,
    subnet: string,
    publicIp: bool,
    acceleratedNetworking: bool,
    explicitSet: string,
    machineSet: Option<string>,
    clusterLabel: string,
    spot: bool,
    sshKeyDecodes: bool,
    diagnosticsError: Option<Error>,
    capacityGroup: string,
    userDataSecret: bool
  )

  /** A machine: its cluster, its name and its configuration. */
  datatype Machine = Machine(cluster: string, name: string, config: Config) {

    function Disk(): Resource { OSDisk(OSDiskName(name)) }

    function Interface(): Resource { Nic(NicName(name)) }

    /** The public IP's resource, when its name is short enough. */
    function Ip(): Option<Resource> {
      var ip := MachinePublicIpName(cluster, name);
      if ip.Some? then Some(PublicIp(ip.value)) else None
    }

    function GeneratedSet(): string {
      AvailabilitySetName(if config.machineSet.Some? then config.machineSet.value else "", config.clusterLabel)
    }
  }

  /** The resources of a machine as Azure shows them, and the inputs of its generated availability set. */
  lemma ResourcesAre(m: Machine)
    ensures m.Disk() == OSDisk(m.name + "_OSDisk") && m.Interface() == Nic(m.name + "-nic")
    ensures m.Ip() == if |m.cluster| + 1 + |m.name| > 63 then None else Some(PublicIp(m.cluster + "-" + m.name))
    ensures var machineSet := if m.config.machineSet.Some? then m.config.machineSet.value else "";
            var full := if m.config.clusterLabel <= machineSet then machineSet else m.config.clusterLabel + "_" + machineSet;
            |full| <= 77 ==> m.GeneratedSet() == full + "-as"
  {
    NamesAre(m.cluster, m.name, "");
    AvailabilitySetNameFits(if m.config.machineSet.Some? then m.config.machineSet.value else "", m.config.clusterLabel);
  }

  datatype SetOut = SetOut(w: World, err: Option<Error>, name: string)

  datatype Existence = Exists | Missing | Failed(err: Error) | Crash

  datatype ExistsOut = ExistsOut(w: World, answer: Existence)

  /** Reconciler.Delete. */
  function Delete(o: Oracle, w: World, m: Machine): Out {
    var vm := DropVm(o, w, m.name);
    if vm.err.Some? then Out(vm.w, Some(Wrapped(vm.err.value))) else
    var disk := Drop(o, vm.w, m.Disk());
    if disk.err.Some? then Out(disk.w, Some(Wrapped(disk.err.value))) else
    if m.config.vnet == "" then Out(disk.w, Some(Plain)) else
    var nic := Drop(o, disk.w, m.Interface());
    if nic.err.Some? then Out(nic.w, Some(Wrapped(nic.err.value))) else
    if m.config.publicIp && m.Ip().None? then Out(nic.w, None) else
    var ip := if m.config.publicIp then Drop(o, nic.w, m.Ip().value) else Out(nic.w, None);
    if ip.err.Some? then Out(ip.w, Some(Wrapped(ip.err.value))) else
    var aset := DeleteAvailabilitySet(o, ip.w, m.GeneratedSet());
    Out(aset.w, if aset.err.Some? then Some(Wrapped(aset.err.value)) else None)
  }

  /** createNetworkInterface. */
  function CreateNetworkInterface(o: Oracle, w: World, m: Machine): Out {
    var c := m.config;
    if c.vnet == "" then Out(w, Some(MachineError)) else
    var sku := if c.acceleratedNetworking then Probe(o, w, Accelerates) else ProbeOut(w, None, true);
    if sku.err.Some? then
      Out(sku.w, Some(if Is(sku.err.value, SkuNotFound) then MachineError else Wrapped(sku.err.value)))
    else if !sku.yes then Out(sku.w, Some(MachineError))
    else if c.subnet == "" then Out(sku.w, Some(MachineError))
    else if c.publicIp && m.Ip().None? then Out(sku.w, Some(MachineError))
    else
      var ip := if c.publicIp then Upsert(o, sku.w, m.Ip().value) else Out(sku.w, None);
      if ip.err.Some? then Out(ip.w, Some(Wrapped(ip.err.value))) else
      var nic := Upsert(o, ip.w, m.Interface());
      Out(nic.w, if nic.err.Some? then Some(Wrapped(nic.err.value)) else None)
  }

  /** getOrCreateAvailabilitySet. The probe asks whether the location is without zones for the machine's size. */
  function GetOrCreateAvailabilitySet(o: Oracle, w: World, m: Machine): SetOut {
    var c := m.config;
    if c.explicitSet != "" then SetOut(w, None, c.explicitSet) else
    var zones := Probe(o, w, Zoneless);
    if zones.err.Some? then SetOut(zones.w, zones.err, "")
    else if !zones.yes || c.machineSet.None? || c.spot then SetOut(zones.w, None, "")
    else
      var aset := Upsert(o, zones.w, AvailabilitySet(m.GeneratedSet()));
      SetOut(aset.w, aset.err, if aset.err.Some? then "" else m.GeneratedSet())
  }

  /** The branch of createVirtualMachine that has found no virtual machine. */
  function RequestVirtualMachine(o: Oracle, w: World, m: Machine, aset: string): Out {
    var c := m.config;
    if c.diagnosticsError.Some? then Out(w, Some(Wrapped(c.diagnosticsError.value)))
    else if c.clusterLabel == "" then Out(w, Some(Plain))
    else if c.capacityGroup != "" && ResourceId.Validate(c.capacityGroup).Some? then Out(w, Some(Wrapped(Plain)))
    else
      var secret := if c.userDataSecret then Probe(o, w, HasUserData) else ProbeOut(w, None, true);
      if secret.err.Some? then Out(secret.w, Some(Wrapped(Wrapped(secret.err.value))))
      else if !secret.yes then Out(secret.w, Some(Wrapped(Plain)))
      else
        var vm := CreateVm(o, secret.w, m.name, m.Disk(), aset);
        Out(vm.w, if vm.err.Some? then VmRequestFailure(vm.err.value) else None)
  }

  /** createVirtualMachine. */
  function CreateVirtualMachine(o: Oracle, w: World, m: Machine, aset: string): Out {
    if !m.config.sshKeyDecodes then Out(w, Some(Wrapped(Plain))) else
    var got := GetVm(o, w, m.name);
    match got.reply
    case Absent(_) => RequestVirtualMachine(o, got.w, m, aset)
    case Unreachable(err) => Out(got.w, Some(Wrapped(err)))
    case Found(vm) =>
      if vm.state == Some("Failed") then
        var deleted := Delete(o, got.w, m);
        Out(deleted.w, Some(if deleted.err.Some? then Wrapped(deleted.err.value) else Plain))
      else if vm.state == Some("Succeeded") then Out(got.w, None)
      else Out(got.w, Some(Plain))
  }

  /** `n` lookups whose failures the caller only logs. */
  function Lookups(o: Oracle, w: World, n: nat): World
    decreases n
  {
    if n == 0 then w else Lookups(o, Tick(o, w), n - 1)
  }

  /** Reconciler.Update: reads only. `lookups` is the number of interfaces, public IPs and load balancers it looks at. */
  function Update(o: Oracle, w: World, m: Machine, lookups: nat): Out {
    var got := GetVm(o, w, m.name);
    if !got.reply.Found? then Out(got.w, Some(Plain))
    else if m.config.vnet == "" then Out(got.w, Some(Plain))
    else Out(Lookups(o, got.w, lookups), None)
  }

  /** CreateMachine. */
  function CreateMachine(o: Oracle, w: World, m: Machine, lookups: nat): Out {
    var nic := CreateNetworkInterface(o, w, m);
    if nic.err.Some? then Out(nic.w, Some(Wrapped(nic.err.value))) else
    var aset := GetOrCreateAvailabilitySet(o, nic.w, m);
    if aset.err.Some? then Out(aset.w, Some(Wrapped(aset.err.value))) else
    var vm := CreateVirtualMachine(o, aset.w, m, aset.name);
    if vm.err.Some? then Out(vm.w, Some(Wrapped(vm.err.value))) else
    var updated := Update(o, vm.w, m, lookups);
    Out(updated.w, if updated.err.Some? then Some(Wrapped(updated.err.value)) else None)
  }

  /** Reconciler.Exists as Actuator.Exists reports it: a Failed machine is reported missing, without an error.
      A virtual machine without a provisioning state is a nil dereference. */
  function CheckExists(o: Oracle, w: World, m: Machine): ExistsOut {
    var got := GetVm(o, w, m.name);
    ExistsOut(got.w,
              match got.reply
              case Absent(_) => Missing
              case Unreachable(err) => Failed(Wrapped(err))
              case Found(vm) =>
                if vm.state.None? then Crash
                else if vm.state.value == "Deleting" then Failed(Plain)
                else if vm.state.value == "Failed" then Missing
                else Exists)
  }
}
