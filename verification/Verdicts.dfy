/** How the reconciler's failures come out of the actuator. */
module Verdicts {
  import opened Cloud
  import opened Errors
  import opened Lifecycle
  import opened Names
  import opened Reconciler
  import opened Wrappers
  import ResourceId

  /** A create request is sent only when the lookup just before it found no virtual machine: never after a transient
      lookup failure, and never for a machine that exists in whatever provisioning state. */
  lemma RequestsFollowAbsence(o: Oracle, w: World, m: Machine, aset: string)
    ensures var v := CreateVirtualMachine(o, w, m, aset);
            var reply := GetVm(o, w, m.name).reply;
            && (reply.Absent? || v.w.requests == w.requests)
            && w.requests <= v.w.requests <= w.requests + multiset{m.name}
            && (reply.Unreachable? ==> v.err.Some? && v.w.live == w.live)
  {
    hide Delete;
    hide RequestVirtualMachine;
    hide Tick;
    TickMoves(o, w);
    var got := GetVm(o, w, m.name);
    if got.reply.Absent? {
      RequestVirtualMachineMoves(o, got.w, m, aset);
    } else if got.reply.Found? {
      DeleteMoves(o, got.w, m);
    }
  }

  /** The part of CreateMachine that ends with the virtual machine in place. */
  function Boot(o: Oracle, w: World, m: Machine): Out {
    var nic := CreateNetworkInterface(o, w, m);
    if nic.err.Some? then nic else
    var aset := GetOrCreateAvailabilitySet(o, nic.w, m);
    if aset.err.Some? then Out(aset.w, aset.err) else CreateVirtualMachine(o, aset.w, m, aset.name)
  }

  /** A Create that fails although its virtual machine is in place has failed in the Update that follows, and is always
      retried, because Update's errors do not wrap; a failure before that gets the verdict of its own error. */
  lemma UpdateFailureIsRetried(o: Oracle, w: World, m: Machine, lookups: nat, persisted: bool)
    ensures var c, boot := CreateMachine(o, w, m, lookups), Boot(o, w, m);
            && (c.err.Some? && boot.err.None? ==> CreateVerdict(c.err, persisted) == Requeue)
            && (boot.err.Some? ==> c.w == boot.w && CreateVerdict(c.err, persisted) == CreateVerdict(boot.err, persisted))
  {
    hide GetVm, CreateNetworkInterface, GetOrCreateAvailabilitySet, CreateVirtualMachine, Lookups;
    var boot := Boot(o, w, m);
    if boot.err.Some? {
      WrappingKeepsVerdict(boot.err.value, 1, persisted);
      assert WrapTimes(boot.err.value, 1) == Wrapped(boot.err.value);
    }
  }

  /** A Failed virtual machine that could be deleted leads to a retry, not to a terminal failure;
      if it could not, the verdict is that of the failed Delete. */
  lemma FailedMachineVerdict(o: Oracle, w: World, m: Machine, aset: string, persisted: bool)
    requires m.config.sshKeyDecodes
    requires var got := GetVm(o, w, m.name); got.reply.Found? && got.reply.vm.state == Some("Failed")
    ensures var v := CreateVirtualMachine(o, w, m, aset);
            var d := Delete(o, GetVm(o, w, m.name).w, m);
            && v.err.Some? && v.w == d.w
            && CreateVerdict(Some(Wrapped(v.err.value)), persisted) ==
               (if d.err.Some? then CreateVerdict(d.err, persisted) else Requeue)
  {
    hide GetVm;
    hide Delete;
    var d := Delete(o, GetVm(o, w, m.name).w, m);
    if d.err.Some? {
      WrappingKeepsVerdict(d.err.value, 2, persisted);
      assert WrapTimes(d.err.value, 2) == Wrapped(WrapTimes(d.err.value, 1)) == Wrapped(Wrapped(d.err.value));
    }
  }

  /** A configuration that Create refuses never creates anything, and is a terminal failure; only when the lookup of the
      machine size fails first, with anything but not-found, does that failure decide. */
  lemma RefusedCreatesNothing(o: Oracle, w: World, m: Machine, lookups: nat, persisted: bool)
    requires Refused(m)
    ensures var c, sku := CreateMachine(o, w, m, lookups), Probe(o, w, Accelerates);
            && c.err.Some? && c.w.live == w.live && c.w.requests == w.requests && c.w.vms.Keys <= w.vms.Keys
            && (m.config.vnet == "" ==> c.w == w)
            && CreateVerdict(c.err, persisted) ==
               if m.config.vnet != "" && m.config.acceleratedNetworking && sku.err.Some? && !Is(sku.err.value, SkuNotFound)
               then CreateVerdict(sku.err, persisted) else Terminal
  {
    hide Probe, Upsert, GetOrCreateAvailabilitySet, CreateVirtualMachine, Update;
    CreateNetworkInterfaceMoves(o, w, m);
    assert HasMachineError(Wrapped(MachineError)) && AsDetailed(Wrapped(MachineError)).None?;
    var sku := Probe(o, w, Accelerates);
    if sku.err.Some? {
      WrappingKeepsVerdict(sku.err.value, 2, persisted);
      assert WrapTimes(sku.err.value, 2) == Wrapped(WrapTimes(sku.err.value, 1)) == Wrapped(Wrapped(sku.err.value));
    }
  }

  // ------------------------------------------------------------ what each operation answers, call by call

  /** What Exists answers, from its one call and the cloud that call finds. */
  lemma ExistsAnswers(o: Oracle, w: World, m: Machine)
    ensures var x, found, failed := CheckExists(o, w, m), Tick(o, w).vms, o(w.clock).fault.Some?;
            && x.w == Tick(o, w)
            && (x.answer == Missing <==> !failed && (m.name in found ==> found[m.name].state == Some("Failed")))
            && (x.answer == Exists <==>
                  !failed && m.name in found && found[m.name].state.Some? && found[m.name].state.value !in ["Failed", "Deleting"])
            && (x.answer.Failed? <==> failed || (m.name in found && found[m.name].state == Some("Deleting")))
            && (x.answer == Crash <==> !failed && m.name in found && found[m.name].state.None?)
  {
    hide Tick;
  }

  // An operation's error is that of the call at which it stopped, with wrapping around it.

  /** The error has the fault inside, and leads to the verdict of the fault itself. */
  ghost predicate Carries(e: Error, fault: Error) {
    && fault in Chain(e)
    && CreateVerdict(Some(e), true) == CreateVerdict(Some(fault), true)
    && CreateVerdict(Some(e), false) == CreateVerdict(Some(fault), false)
  }

  /** The last call made before `w` failed, and this is its error. */
  ghost predicate IsLastFault(o: Oracle, w: World, e: Error) {
    w.clock > 0 && o(w.clock - 1).fault.Some? && Carries(e, o(w.clock - 1).fault.value)
  }

  lemma FaultCarriesItself(e: Error)
    ensures Carries(e, e) && Carries(NotPlain404(e), e)
  {
    if ResourceNotFound(e) { WrappingCarries(e, e); }
  }

  lemma WrappingCarries(e: Error, fault: Error)
    requires Carries(e, fault)
    ensures Carries(Wrapped(e), fault)
  {
    WrappingKeepsVerdict(e, 1, true);
    WrappingKeepsVerdict(e, 1, false);
    assert WrapTimes(e, 1) == Wrapped(e);
  }

  lemma DropVmFault(o: Oracle, w: World, name: string)
    ensures var d := DropVm(o, w, name); d.err.Some? ==> IsLastFault(o, d.w, d.err.value)
  {
    if o(w.clock).fault.Some? { FaultCarriesItself(o(w.clock).fault.value); }
    hide Carries;
  }

  lemma DropFault(o: Oracle, w: World, r: Resource)
    ensures var d := Drop(o, w, r); d.err.Some? ==> IsLastFault(o, d.w, d.err.value)
  {
    if o(w.clock).fault.Some? { FaultCarriesItself(o(w.clock).fault.value); }
    hide Carries;
  }

  lemma UpsertFault(o: Oracle, w: World, r: Resource)
    ensures var d := Upsert(o, w, r);
            && d.w.clock == w.clock + 1 && (d.err.Some? <==> o(w.clock).fault.Some?)
            && (d.err.Some? ==> IsLastFault(o, d.w, d.err.value))
  {
    if o(w.clock).fault.Some? { FaultCarriesItself(o(w.clock).fault.value); }
    hide Carries;
  }

  lemma DeleteAvailabilitySetFault(o: Oracle, w: World, name: string)
    ensures var d := DeleteAvailabilitySet(o, w, name); d.err.Some? ==> IsLastFault(o, d.w, d.err.value)
  {
    var a, b := o(w.clock).fault, o(w.clock + 1).fault;
    if a.Some? { FaultCarriesItself(a.value); WrappingCarries(NotPlain404(a.value), a.value); }
    if b.Some? { FaultCarriesItself(b.value); WrappingCarries(NotPlain404(b.value), b.value); }
    hide Carries, NotPlain404, Occupied;
  }

  lemma WrappedIsLastFault(o: Oracle, w: World, e: Error)
    requires IsLastFault(o, w, e)
    ensures IsLastFault(o, w, Wrapped(e))
  {
    WrappingCarries(e, o(w.clock - 1).fault.value);
  }

  lemma DeleteSteps(o: Oracle, w: World, m: Machine)
    ensures var d := Delete(o, w, m);
            d.err.Some? ==> IsLastFault(o, d.w, d.err.value) || (m.config.vnet == "" && d.err == Some(Plain))
  {
    hide DropVm, Drop, DeleteAvailabilitySet, IsLastFault, Machine.Ip;
    hide OSDiskName, NicName, PublicIpName, AvailabilitySetName;
    var vm := DropVm(o, w, m.name);
    DropVmFault(o, w, m.name);
    if vm.err.Some? { WrappedIsLastFault(o, vm.w, vm.err.value); return; }
    var disk := Drop(o, vm.w, m.Disk());
    DropFault(o, vm.w, m.Disk());
    if disk.err.Some? { WrappedIsLastFault(o, disk.w, disk.err.value); return; }
    if m.config.vnet == "" { return; }
    var nic := Drop(o, disk.w, m.Interface());
    DropFault(o, disk.w, m.Interface());
    if nic.err.Some? { WrappedIsLastFault(o, nic.w, nic.err.value); return; }
    if m.config.publicIp && m.Ip().None? { return; }
    var ip := if m.config.publicIp then Drop(o, nic.w, m.Ip().value) else Out(nic.w, None);
    if m.config.publicIp { DropFault(o, nic.w, m.Ip().value); }
    if ip.err.Some? { WrappedIsLastFault(o, ip.w, ip.err.value); return; }
    var aset := DeleteAvailabilitySet(o, ip.w, m.GeneratedSet());
    DeleteAvailabilitySetFault(o, ip.w, m.GeneratedSet());
    if aset.err.Some? { WrappedIsLastFault(o, aset.w, aset.err.value); }
  }

  /** Delete's error is that of its last call, which decides the verdict; only without a virtual network there is one
      of its own, and it leads to a retry. */
  lemma FailedDeleteVerdict(o: Oracle, w: World, m: Machine, persisted: bool)
    ensures var d := Delete(o, w, m);
            && (d.err.Some? ==>
                  || (d.w.clock > 0 && o(d.w.clock - 1).fault.Some?
                      && CreateVerdict(d.err, persisted) == CreateVerdict(o(d.w.clock - 1).fault, persisted)
                      && o(d.w.clock - 1).fault.value in Chain(d.err.value))
                  || (m.config.vnet == "" && CreateVerdict(d.err, persisted) == Requeue))
  {
    hide Delete;
    DeleteSteps(o, w, m);
  }

  /** The number of the call that makes the public IP, or else the interface. */
  function AfterProbe(w: World, m: Machine): nat {
    w.clock + if m.config.acceleratedNetworking then 1 else 0
  }

  /** When createNetworkInterface succeeds, and what its error is: the machine's own fault for a configuration that is
      refused, a size that is not known or does not support what is asked of it; otherwise that of the call that failed. */
  lemma NetworkOutcome(o: Oracle, w: World, m: Machine)
    ensures var d, c := CreateNetworkInterface(o, w, m), m.config;
            var size, next := o(w.clock), AfterProbe(w, m);
            var unsupported := c.acceleratedNetworking && size.fault.None? && Accelerates !in size.yes;
            var unknown := c.acceleratedNetworking && size.fault.Some? && SkuNotFound in Chain(size.fault.value);
            && (d.err.None? <==>
                  && !Refused(m) && (c.acceleratedNetworking ==> size.fault.None? && Accelerates in size.yes)
                  && o(next).fault.None? && (c.publicIp ==> o(next + 1).fault.None?))
            && (c.vnet != "" && (unsupported || unknown) ==> d.err == Some(MachineError) && d.w == Tick(o, w))
            && (d.err.Some? && !Refused(m) && !unsupported && !unknown ==> IsLastFault(o, d.w, d.err.value))
            && (d.err.Some? && Refused(m) && (c.vnet == "" || !c.acceleratedNetworking) ==> d.err == Some(MachineError))
  {
    hide Tick, Upsert, IsLastFault, NicName, PublicIpName;
    var size := o(w.clock).fault;
    if size.Some? { IsSearchesChain(size.value, SkuNotFound); }
    ProbeFault(o, w);
    var sku := if m.config.acceleratedNetworking then Probe(o, w, Accelerates) else ProbeOut(w, None, true);
    if Refused(m) || sku.err.Some? || !sku.yes { return; }
    var ip := if m.config.publicIp then Upsert(o, sku.w, m.Ip().value) else Out(sku.w, None);
    if m.config.publicIp { UpsertFault(o, sku.w, m.Ip().value); }
    if ip.err.Some? { WrappedIsLastFault(o, ip.w, ip.err.value); return; }
    var nic := Upsert(o, ip.w, m.Interface());
    UpsertFault(o, ip.w, m.Interface());
    if nic.err.Some? { WrappedIsLastFault(o, nic.w, nic.err.value); }
  }

  /** A question whose call fails: its error, wrapped or not, is that of the call. */
  lemma ProbeFault(o: Oracle, w: World)
    ensures Tick(o, w).clock == w.clock + 1
    ensures o(w.clock).fault.Some? ==>
              var f := o(w.clock).fault.value;
              IsLastFault(o, Tick(o, w), f) && IsLastFault(o, Tick(o, w), Wrapped(f))
              && IsLastFault(o, Tick(o, w), Wrapped(Wrapped(f)))
              && IsLastFault(o, Tick(o, w), NotPlain404(f)) && IsLastFault(o, Tick(o, w), Wrapped(NotPlain404(f)))
  {
    if o(w.clock).fault.Some? {
      var f := o(w.clock).fault.value;
      FaultCarriesItself(f);
      WrappingCarries(f, f);
      WrappingCarries(Wrapped(f), f);
      WrappingCarries(NotPlain404(f), f);
    }
    hide Carries;
  }

  /** When getOrCreateAvailabilitySet succeeds, and that its error is that of the call that failed. */
  lemma SetOutcome(o: Oracle, w: World, m: Machine)
    ensures var d, c := GetOrCreateAvailabilitySet(o, w, m), m.config;
            && (d.err.None? <==>
                  || c.explicitSet != ""
                  || (o(w.clock).fault.None? &&
                      (Zoneless in o(w.clock).yes && c.machineSet.Some? && !c.spot ==> o(w.clock + 1).fault.None?)))
            && (d.err.Some? ==> IsLastFault(o, d.w, d.err.value))
  {
    hide Tick, Upsert, IsLastFault, AvailabilitySetName;
    ProbeFault(o, w);
    UpsertFault(o, Tick(o, w), AvailabilitySet(m.GeneratedSet()));
  }

  /** Everything createVirtualMachine needs of the configuration to send its request. */
  predicate CanRequest(m: Machine) {
    && m.config.diagnosticsError.None? && m.config.clusterLabel != ""
    && (m.config.capacityGroup == "" || ResourceId.Validate(m.config.capacityGroup).None?)
  }

  /** The branch without a virtual machine: the request is sent exactly if the configuration allows it and the secret, if one
      is named, is read and holds user data; what the errors lead to; and that a request succeeds exactly if its call does
      or is reported as still under way. */
  lemma RequestOutcome(o: Oracle, w: World, m: Machine, aset: string, persisted: bool)
    ensures var d, c := RequestVirtualMachine(o, w, m, aset), m.config;
            var secret := o(w.clock);
            var readable := c.userDataSecret ==> secret.fault.None? && HasUserData in secret.yes;
            var call := o(w.clock + if c.userDataSecret then 1 else 0).fault;
            && (d.w.requests == w.requests + multiset{m.name} <==> CanRequest(m) && readable)
            && (d.w.requests == w.requests <==> !(CanRequest(m) && readable))
            && (CanRequest(m) && readable ==>
                  && (d.err.None? <==>
                        (call.None? || AsyncIncomplete("compute.VirtualMachinesCreateOrUpdateFuture") in Chain(call.value)))
                  && (d.err.Some? ==> d.err == VmRequestFailure(call.value)))
            && (!CanRequest(m) ==>
                  && d.w == w
                  && CreateVerdict(d.err, persisted) ==
                     if c.diagnosticsError.Some? then CreateVerdict(c.diagnosticsError, persisted) else Requeue)
            && (CanRequest(m) && !readable ==>
                  && d.w == Tick(o, w) && d.err.Some?
                  && (secret.fault.None? ==> CreateVerdict(d.err, persisted) == Requeue)
                  && (secret.fault.Some? ==> IsLastFault(o, d.w, d.err.value)))
  {
    RequestNotAllowed(o, w, m, aset, persisted);
    RequestAllowed(o, w, m, aset, persisted);
    RequestsCounted(w, m);
    hide RequestVirtualMachine, CanRequest, VmRequestFailure, CreateVerdict, IsLastFault;
  }

  lemma RequestsCounted(w: World, m: Machine)
    ensures w.requests != w.requests + multiset{m.name}
  {
    assert (w.requests + multiset{m.name})[m.name] == w.requests[m.name] + 1;
  }

  lemma RequestNotAllowed(o: Oracle, w: World, m: Machine, aset: string, persisted: bool)
    ensures !CanRequest(m) ==>
            var d, c := RequestVirtualMachine(o, w, m, aset), m.config;
            && d.w == w && d.err.Some?
            && CreateVerdict(d.err, persisted) ==
               if c.diagnosticsError.Some? then CreateVerdict(c.diagnosticsError, persisted) else Requeue
  {
    if m.config.diagnosticsError.Some? {
      var e := m.config.diagnosticsError.value;
      WrappingKeepsVerdict(e, 1, persisted);
      assert WrapTimes(e, 1) == Wrapped(e);
    }
    hide ResourceId.Validate;
  }

  lemma RequestAllowed(o: Oracle, w: World, m: Machine, aset: string, persisted: bool)
    ensures CanRequest(m) ==>
            var d, c := RequestVirtualMachine(o, w, m, aset), m.config;
            var secret := o(w.clock);
            var readable := c.userDataSecret ==> secret.fault.None? && HasUserData in secret.yes;
            var call := o(w.clock + if c.userDataSecret then 1 else 0).fault;
            && (readable ==>
                  && d.w.requests == w.requests + multiset{m.name}
                  && (d.err.None? <==>
                        (call.None? || AsyncIncomplete("compute.VirtualMachinesCreateOrUpdateFuture") in Chain(call.value)))
                  && (d.err.Some? ==> d.err == VmRequestFailure(call.value)))
            && (!readable ==>
                  && d.w == Tick(o, w) && d.w.requests == w.requests && d.err.Some?
                  && (secret.fault.None? ==> CreateVerdict(d.err, persisted) == Requeue)
                  && (secret.fault.Some? ==> IsLastFault(o, d.w, d.err.value)))
  {
    ProbeFault(o, w);
    var call := o(w.clock + if m.config.userDataSecret then 1 else 0).fault;
    if call.Some? { RequestFailureIs(call.value); }
    TickMoves(o, w);
    TickMoves(o, Tick(o, w));
    hide IsLastFault, ResourceId.Validate, OSDiskName, VmRequestFailure, Tick;
  }

  /** What createVirtualMachine does, from its first call and the cloud that call finds: without a readable key nothing; a
      machine that has succeeded is left alone; one on its way is waited for; a failed lookup decides by its own error. */
  lemma BootOutcome(o: Oracle, w: World, m: Machine, aset: string, persisted: bool)
    ensures var d, found, a := CreateVirtualMachine(o, w, m, aset), Tick(o, w), o(w.clock);
            && (!m.config.sshKeyDecodes ==> d.w == w && CreateVerdict(d.err, persisted) == Requeue)
            && (m.config.sshKeyDecodes && a.fault.Some? ==> d.w == found && d.err.Some? && IsLastFault(o, d.w, d.err.value))
            && (m.config.sshKeyDecodes && a.fault.None? ==>
                  if m.name !in found.vms then d == RequestVirtualMachine(o, found, m, aset)
                  else match found.vms[m.name].state
                       case Some("Succeeded") => d == Out(found, None)
                       case Some("Failed") => d.w == Delete(o, found, m).w && d.err.Some?
                       case _ => d.w == found && CreateVerdict(d.err, persisted) == Requeue)
  {
    ProbeFault(o, w);
    hide IsLastFault, RequestVirtualMachine, Delete, Tick;
  }
}
