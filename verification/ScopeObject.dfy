/** The scope of a machine as the object whose fields the operations write in place. */
module ScopeObject {
  import opened Addresses
  import opened Conditions
  import opened Scope
  import opened Wrappers
  import ResourceId

  class MachineScope {
    const setup: Setup
    var conditions: seq<Condition>
    var vmId: Option<string>
    var vmState: Option<string>
    var annotations: map<Key, string>
    var labels: map<Key, string>
    var specLabels: map<Key, string>
    var addresses: seq<Address>
    var providerId: Option<string>
    var internalBalancer: string

    ghost function Now(): State
      reads this
    {
      State(conditions, vmId, vmState, annotations, labels, specLabels, addresses, providerId, internalBalancer)
    }

    constructor (setup: Setup, st: State)
      ensures this.setup == setup && Now() == st
    {
      this.setup := setup;
      conditions, vmId, vmState := st.conditions, st.vmId, st.vmState;
      annotations, labels, specLabels := st.annotations, st.labels, st.specLabels;
      addresses, providerId, internalBalancer := st.addresses, st.providerId, st.internalBalancer;
    }

    /** setMachineCloudProviderSpecifics. */
    method SetSpecifics(vm: VmView)
      modifies this`annotations, this`labels, this`specLabels
      ensures annotations == old(annotations)[InstanceState := VmState(vm)]
      ensures labels == Relabeled(old(labels), setup, vm)
      ensures specLabels == if setup.spot then old(specLabels)[Interruptible := ""] else old(specLabels)
      ensures SameOwnLabels(labels, old(labels))
    {
      var state := GetVmState(vm);
      annotations := annotations[InstanceState := state];
      if vm.size.Some? { labels := labels[InstanceType := vm.size.value]; }
      if vm.location.Some? { labels := labels[Region := vm.location.value]; }
      if vm.zones.Some? { labels := labels[Zone := Join(vm.zones.value)]; }
      if setup.spot {
        labels := labels[Interruptible := ""];
        specLabels := specLabels[Interruptible := ""];
      }
    }

    method NoteVm(vm: VmView)
      modifies this`vmId, this`vmState, this`annotations, this`labels, this`specLabels
      ensures Now() == Noted(old(Now()), setup, vm)
    {
      hide VmState, Relabeled;
      var state := GetVmState(vm);
      vmId, vmState := vm.id, Some(state);
      SetSpecifics(vm);
    }

    method Locate(vm: VmView, now: nat)
      modifies this`conditions, this`addresses, this`providerId, this`internalBalancer
      ensures Now() == Located(old(Now()), setup, vm, now)
    {
      hide AddressList, LastInternal, Found, Put;
      addresses := ListAddresses(vm.computerName, if vm.interfaces.Some? then vm.interfaces.value else []);
      if vm.interfaces.Some? && Role in labels && labels[Role] == "master" && internalBalancer == "" {
        internalBalancer := FindInternalBalancer("", vm.balancers);
      }
      providerId :=
        if vm.computerName.Some?
        then Some(ResourceId.GenerateMachineProviderID(setup.subscription, setup.resourceGroup, vm.computerName.value))
        else None;
      conditions := SetCondition(conditions, SUCCEEDED, now);
    }

    method Update(answer: Option<VmView>, now: nat) returns (ok: bool)
      modifies this
      ensures ok == Updates(setup, answer)
      ensures Now() == Scope.Update(old(Now()), setup, answer, now)
    {
      if answer.None? { return false; }
      if answer.value.interfaces.Some? && setup.vnet == "" { return false; }
      Locate(answer.value, now);
      hide Located, Noted;
      NoteVm(answer.value);
      ok := true;
    }

    method BeginDelete()
      modifies this`annotations, this`vmState
      ensures Now() == Scope.BeginDelete(old(Now())) && StateAgrees(Now())
    {
      annotations := annotations[InstanceState := "Deleting"];
      vmState := Some("Deleting");
    }

    method CreateMachine(c: Creation, now: nat) returns (ok: bool)
      modifies this
      ensures ok == Creates(setup, c)
      ensures ok ==> Now() == Scope.Create(old(Now()), setup, c, now)
      ensures !ok ==> Now().(conditions := Put(conditions, FailedReport(c.message), now)) == Scope.Create(old(Now()), setup, c, now)
    {
      match c.progress {
        case Refused => return false;
        case Requested =>
        case Seen(vm) =>
          if vm.provisioning.None? { return false; }
          NoteVm(vm);
          if vm.provisioning.value == "Failed" {
            BeginDelete();
            return false;
          }
          if vm.provisioning.value != "Succeeded" { return false; }
      }
      ok := Update(c.answer, now);
    }

    method Create(c: Creation, now: nat) returns (ok: bool)
      modifies this
      ensures ok == Creates(setup, c)
      ensures Now() == Scope.Create(old(Now()), setup, c, now)
    {
      ok := CreateMachine(c, now);
      if !ok { conditions := SetCondition(conditions, FailedReport(c.message), now); }
    }
  }
}
