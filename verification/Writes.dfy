/** What the operations leave in the machine object, read off value by value. */
module Writes {
  import opened Addresses
  import opened Conditions
  import opened Scope
  import opened Text
  import opened Wrappers
  import ResourceId

  function At(m: map<Key, string>, key: Key): Option<string> {
    if key in m then Some(m[key]) else None
  }

  // ------------------------------------------------------------ the state of a virtual machine

  /** The status codes of a virtual machine and what they are called; nil codes and the one that only says that provisioning
      has succeeded are passed over, and of the others the first one counts. */
  lemma PowerStateReads(code: string, rest: seq<Option<string>>)
    ensures PowerState([]) == "" && PowerState([None] + rest) == PowerState(rest)
    ensures PowerState([Some("ProvisioningState/succeeded")] + rest) == PowerState(rest)
    ensures code != "ProvisioningState/succeeded" ==> PowerState([Some(code)] + rest) == PowerStateName(code)
  {
    assert ([None] + rest)[1..] == rest;
    assert ([Some("ProvisioningState/succeeded")] + rest)[1..] == rest;
  }

  lemma PowerStateNames(code: string)
    ensures PowerStateName("PowerState/starting") == "Starting" && PowerStateName("PowerState/running") == "Running"
    ensures PowerStateName("PowerState/stopping") == "Stopping" && PowerStateName("PowerState/stopped") == "Stopped"
    ensures PowerStateName("PowerState/deallocating") == "Deallocating"
    ensures PowerStateName("PowerState/deallocated") == "Deallocated"
    ensures PowerStateName(code) == "Unknown" ||
            code in {"PowerState/starting", "PowerState/running", "PowerState/stopping", "PowerState/stopped",
                     "PowerState/deallocating", "PowerState/deallocated"}
  {
  }

  /** An unfinished machine is in its provisioning state, a finished one in its power state. */
  lemma VmStateReads(vm: VmView)
    ensures vm.provisioning.None? ==> VmState(vm) == ""
    ensures vm.provisioning.Some? && vm.provisioning.value != "Succeeded" ==> VmState(vm) == vm.provisioning.value
    ensures vm.provisioning == Some("Succeeded") ==>
              VmState(vm) == if vm.statuses.Some? then PowerState(vm.statuses.value) else ""
  {
  }

  /** Zones go into the label in order, with commas between them. */
  lemma JoinReads(x: string, y: string, rest: seq<string>)
    ensures Join([]) == "" && Join([x]) == x && Join([x, y] + rest) == x + "," + Join([y] + rest)
  {
    assert ([x, y] + rest)[1..] == [y] + rest;
  }

  // ------------------------------------------------------------ one operation

  /** What a successful Update leaves, and that one that fails leaves everything. */
  lemma UpdateWrites(st: State, s: Setup, answer: Option<VmView>, now: nat)
    ensures var u := Update(st, s, answer, now);
            if answer.None? || (answer.value.interfaces.Some? && s.vnet == "") then u == st
            else
              var vm := answer.value;
              && u.vmId == vm.id && u.vmState == Some(VmState(vm))
              && u.addresses == AddressList(vm.computerName, if vm.interfaces.Some? then vm.interfaces.value else [])
              && (vm.computerName.None? ==> u.providerId == None)
              && (vm.computerName.Some? ==>
                    u.providerId == Some("azure:///subscriptions/" + Lower(s.subscription) + "/resourceGroups/"
                                         + Lower(s.resourceGroup) + "/providers/Microsoft.Compute/virtualMachines/"
                                         + vm.computerName.value))
              && (forall key :: At(u.annotations, key) == if key == InstanceState then Some(VmState(vm)) else At(st.annotations, key))
  {
    if answer.Some? && answer.value.computerName.Some? {
      ResourceId.ProviderIDReads(s.subscription, s.resourceGroup, answer.value.computerName.value);
    }
    hide AddressList, LastInternal, Found, VmState, Put, Relabeled, ResourceId.GenerateMachineProviderID;
  }

  lemma UpdateLabels(st: State, s: Setup, vm: VmView, now: nat)
    requires Updates(s, Some(vm))
    ensures var u := Update(st, s, Some(vm), now);
            && (forall key :: At(u.labels, key) ==
                  if key == InstanceType && vm.size.Some? then vm.size
                  else if key == Region && vm.location.Some? then vm.location
                  else if key == Zone && vm.zones.Some? then Some(Join(vm.zones.value))
                  else if key == Interruptible && s.spot then Some("")
                  else At(st.labels, key))
            && (forall key :: At(u.specLabels, key) == if key == Interruptible && s.spot then Some("") else At(st.specLabels, key))
  {
    hide AddressList, LastInternal, Found, VmState, Put, IsMaster, ProviderId, Join;
  }

  /** A master without an internal load balancer gets the last one found; otherwise it is kept. */
  lemma UpdateBalancer(st: State, s: Setup, vm: VmView, now: nat)
    requires Updates(s, Some(vm))
    ensures var u := Update(st, s, Some(vm), now);
            if vm.interfaces.Some? && At(st.labels, Role) == Some("master") && st.internalBalancer == ""
            then IsLastInternal(u.internalBalancer, "", Found(vm.balancers))
            else u.internalBalancer == st.internalBalancer
  {
    hide AddressList, Found, VmState, Put, Relabeled, ProviderId;
  }

  /** A Create that fails: only a machine that was seen in a provisioning state is noted, and a Failed one as being deleted;
      addresses, provider ID and load balancer stay. */
  lemma FailedCreateWrites(st: State, s: Setup, c: Creation, now: nat)
    requires !Creates(s, c)
    ensures var u := Create(st, s, c, now);
            && u.addresses == st.addresses && u.providerId == st.providerId && u.internalBalancer == st.internalBalancer
            && u.conditions == Put(st.conditions, FailedReport(c.message), now)
            && (if c.progress.Seen? && c.progress.vm.provisioning.Some? then
                  && u.vmId == c.progress.vm.id
                  && u.vmState == Some(if c.progress.vm.provisioning == Some("Failed") then "Deleting" else VmState(c.progress.vm))
                else u.vmId == st.vmId && u.vmState == st.vmState && u.labels == st.labels)
  {
    hide VmState, Put, Relabeled;
  }

  /** A Create that succeeds leaves what its Update leaves, after noting a machine that was there already. */
  lemma CreateWrites(st: State, s: Setup, c: Creation, now: nat)
    requires Creates(s, c)
    ensures c.answer.Some?
    ensures c.progress.Requested? ==> Create(st, s, c, now) == Update(st, s, c.answer, now)
    ensures c.progress.Seen? ==> Create(st, s, c, now) == Update(Noted(st, s, c.progress.vm), s, c.answer, now)
  {
    hide Scope.Update, Noted;
  }

  /** Before its first call Delete notes the machine as being deleted, and nothing else. */
  lemma DeleteWrites(st: State)
    ensures var u := BeginDelete(st);
            && u.vmState == Some("Deleting")
            && (forall key :: At(u.annotations, key) == if key == InstanceState then Some("Deleting") else At(st.annotations, key))
            && u == st.(vmState := u.vmState, annotations := u.annotations)
  {
  }

  // ------------------------------------------------------------ any sequence of operations

  /** What the last successful Update, on its own or within a Create, got to see. */
  function LastView(s: Setup, ops: seq<Op>): Option<VmView> {
    if ops == [] then None
    else
      match ops[|ops| - 1]
      case CreateOp(c, _) => if Creates(s, c) then c.answer else LastView(s, ops[..|ops| - 1])
      case UpdateOp(answer, _) => if Updates(s, answer) then answer else LastView(s, ops[..|ops| - 1])
      case DeleteOp => LastView(s, ops[..|ops| - 1])
  }

  /** Over any sequence of operations, the provider ID and the addresses are those of the last successful Update. */
  lemma {:induction false} AddressesFollowLastUpdate(st: State, s: Setup, ops: seq<Op>)
    ensures var u, last := Scope.Run(st, s, ops), LastView(s, ops);
            if last.None? then u.addresses == st.addresses && u.providerId == st.providerId
            else
              var vm := last.value;
              && u.addresses == AddressList(vm.computerName, if vm.interfaces.Some? then vm.interfaces.value else [])
              && u.providerId == ProviderId(s, vm)
  {
    hide AddressList, LastInternal, Found, VmState, Put, Relabeled, ProviderId, IsMaster;
    if ops != [] { AddressesFollowLastUpdate(st, s, ops[..|ops| - 1]); }
  }

  /** MachineCreated gives one of two reasons, by its status. */
  lemma ReasonFollowsStatus(st: State, s: Setup, ops: seq<Op>)
    requires History(s, ops) != []
    ensures var created := Lookup(Scope.Run(st, s, ops).conditions, "MachineCreated");
            && created.Some?
            && (if created.value.status == "True"
                then created.value.reason == "MachineCreationSucceeded" && created.value.message == "machine successfully created"
                else created.value.status == "False" && created.value.reason == "MachineCreationFailed")
  {
    MachineCreatedFollowsLastReport(st, s, ops);
    LastReportIsOneOfTwo(s, ops);
    hide Scope.Run, History, Lookup;
  }

  lemma {:induction false} LastReportIsOneOfTwo(s: Setup, ops: seq<Op>)
    ensures forall e :: e in History(s, ops) ==>
              || e.report == SUCCEEDED
              || exists message :: e.report == FailedReport(message)
  {
    if ops != [] { LastReportIsOneOfTwo(s, ops[..|ops| - 1]); }
  }
}
