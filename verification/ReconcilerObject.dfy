/** The reconciler as the object that performs its operations on a cloud, in place. */
module ReconcilerObject {
  import opened Cloud
  import opened Errors
  import opened Reconciler
  import opened Services
  import opened Wrappers
  import ResourceId

  class MachineReconciler {
    const machine: Machine
    const cloud: AzureCloud

    constructor (machine: Machine, cloud: AzureCloud)
      ensures this.machine == machine && this.cloud == cloud
    {
      this.machine, this.cloud := machine, cloud;
    }

    method Delete() returns (err: Option<Error>)
      modifies cloud
      ensures Out(cloud.Now(), err) == Reconciler.Delete(cloud.oracle, old(cloud.Now()), machine)
    {
      err := cloud.DropVm(machine.name);
      if err.Some? { return Some(Wrapped(err.value)); }
      err := cloud.Drop(machine.Disk());
      if err.Some? { return Some(Wrapped(err.value)); }
      if machine.config.vnet == "" { return Some(Plain); }
      err := cloud.Drop(machine.Interface());
      if err.Some? { return Some(Wrapped(err.value)); }
      if machine.config.publicIp {
        if machine.Ip().None? { return None; }
        err := cloud.Drop(machine.Ip().value);
        if err.Some? { return Some(Wrapped(err.value)); }
      }
      err := cloud.DeleteAvailabilitySet(machine.GeneratedSet());
      if err.Some? { err := Some(Wrapped(err.value)); }
    }

    method CreateNetworkInterface() returns (err: Option<Error>)
      modifies cloud
      ensures Out(cloud.Now(), err) == Reconciler.CreateNetworkInterface(cloud.oracle, old(cloud.Now()), machine)
    {
      var c := machine.config;
      if c.vnet == "" { return Some(MachineError); }
      if c.acceleratedNetworking {
        var supported;
        err, supported := cloud.Probe(Accelerates);
        if err.Some? { return Some(if Is(err.value, SkuNotFound) then MachineError else Wrapped(err.value)); }
        if !supported { return Some(MachineError); }
      }
      if c.subnet == "" { return Some(MachineError); }
      if c.publicIp {
        if machine.Ip().None? { return Some(MachineError); }
        err := cloud.Upsert(machine.Ip().value);
        if err.Some? { return Some(Wrapped(err.value)); }
      }
      err := cloud.Upsert(machine.Interface());
      if err.Some? { err := Some(Wrapped(err.value)); }
    }

    method GetOrCreateAvailabilitySet() returns (name: string, err: Option<Error>)
      modifies cloud
      ensures SetOut(cloud.Now(), err, name) ==
              Reconciler.GetOrCreateAvailabilitySet(cloud.oracle, old(cloud.Now()), machine)
    {
      var c := machine.config;
      if c.explicitSet != "" { return c.explicitSet, None; }
      var zoneless;
      err, zoneless := cloud.Probe(Zoneless);
      if err.Some? || !zoneless || c.machineSet.None? || c.spot { return "", err; }
      err := cloud.Upsert(AvailabilitySet(machine.GeneratedSet()));
      name := if err.Some? then "" else machine.GeneratedSet();
    }

    method CreateVirtualMachine(aset: string) returns (err: Option<Error>)
      modifies cloud
      ensures Out(cloud.Now(), err) == Reconciler.CreateVirtualMachine(cloud.oracle, old(cloud.Now()), machine, aset)
    {
      var c := machine.config;
      if !c.sshKeyDecodes { return Some(Wrapped(Plain)); }
      var reply := cloud.GetVm(machine.name);
      match reply {
        case Absent(_) =>
          if c.diagnosticsError.Some? { return Some(Wrapped(c.diagnosticsError.value)); }
          if c.clusterLabel == "" { return Some(Plain); }
          if c.capacityGroup != "" && ResourceId.Validate(c.capacityGroup).Some? { return Some(Wrapped(Plain)); }
          if c.userDataSecret {
            var present;
            err, present := cloud.Probe(HasUserData);
            if err.Some? { return Some(Wrapped(Wrapped(err.value))); }
            if !present { return Some(Wrapped(Plain)); }
          }
          err := cloud.CreateVm(machine.name, machine.Disk(), aset);
          if err.Some? { err := VmRequestFailure(err.value); }
        case Unreachable(e) =>
          err := Some(Wrapped(e));
        case Found(vm) =>
          if vm.state == Some("Failed") {
            err := Delete();
            return Some(if err.Some? then Wrapped(err.value) else Plain);
          }
          err := if vm.state == Some("Succeeded") then None else Some(Plain);
      }
    }

    /** The lookups of Update, whose failures are only logged. */
    method LookUp(lookups: nat)
      modifies cloud
      ensures cloud.Now() == Lookups(cloud.oracle, old(cloud.Now()), lookups)
    {
      hide Tick;
      for i := 0 to lookups
        invariant Lookups(cloud.oracle, old(cloud.Now()), lookups) == Lookups(cloud.oracle, cloud.Now(), lookups - i)
      {
        var _ := cloud.Settle();
      }
    }

    method Update(lookups: nat) returns (err: Option<Error>)
      modifies cloud
      ensures Out(cloud.Now(), err) == Reconciler.Update(cloud.oracle, old(cloud.Now()), machine, lookups)
    {
      hide GetVm, Lookups;
      var reply := cloud.GetVm(machine.name);
      if !reply.Found? || machine.config.vnet == "" { return Some(Plain); }
      LookUp(lookups);
      err := None;
    }

    method CreateMachine(lookups: nat) returns (err: Option<Error>)
      modifies cloud
      ensures Out(cloud.Now(), err) == Reconciler.CreateMachine(cloud.oracle, old(cloud.Now()), machine, lookups)
    {
      err := CreateNetworkInterface();
      if err.Some? { return Some(Wrapped(err.value)); }
      var aset;
      aset, err := GetOrCreateAvailabilitySet();
      if err.Some? { return Some(Wrapped(err.value)); }
      err := CreateVirtualMachine(aset);
      if err.Some? { return Some(Wrapped(err.value)); }
      err := Update(lookups);
      if err.Some? { err := Some(Wrapped(err.value)); }
    }

    method CheckExists() returns (answer: Existence)
      modifies cloud
      ensures ExistsOut(cloud.Now(), answer) == Reconciler.CheckExists(cloud.oracle, old(cloud.Now()), machine)
    {
      var reply := cloud.GetVm(machine.name);
      match reply {
        case Absent(_) => answer := Missing;
        case Unreachable(e) => answer := Failed(Wrapped(e));
        case Found(vm) =>
          if vm.state.None? {
            answer := Crash;
          } else if vm.state.value == "Deleting" {
            answer := Failed(Plain);
          } else {
            answer := if vm.state.value == "Failed" then Missing else Exists;
          }
      }
    }
  }
}
