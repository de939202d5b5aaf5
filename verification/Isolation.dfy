/** Machines do not get in each other's way: what an operation leaves of a virtual machine that is not its own. */
module Isolation {
  import opened Cloud
  import opened Errors
  import opened Names
  import opened Reconciler
  import opened Wrappers
  import ResourceId

  /** Azure leaves the virtual machine alone at the calls numbered `from` up to `to`. */
  ghost predicate AzureSpares(o: Oracle, x: string, from: nat, to: nat) {
    forall t: nat :: from <= t < to ==> x !in o(t).drift
  }

  ghost predicate SameVm(w: World, v: World, x: string) {
    (x in w.vms <==> x in v.vms) && (x in w.vms ==> w.vms[x] == v.vms[x])
  }

  /** Between two states of the cloud nothing but Azure has touched the virtual machine. */
  ghost predicate Spares(o: Oracle, w: World, v: World, x: string) {
    w.clock <= v.clock && (AzureSpares(o, x, w.clock, v.clock) ==> SameVm(w, v, x))
  }

  lemma SparesTwice(o: Oracle, a: World, b: World, c: World, x: string)
    requires Spares(o, a, b, x) && Spares(o, b, c, x)
    ensures Spares(o, a, c, x)
  {
  }

  // ------------------------------------------------------------ one service call

  lemma TickSpares(o: Oracle, w: World, x: string)
    ensures Spares(o, w, Tick(o, w), x) && Tick(o, w).clock == w.clock + 1
  {
    if AzureSpares(o, x, w.clock, w.clock + 1) { assert x !in o(w.clock).drift; }
  }

  lemma DropVmSpares(o: Oracle, w: World, m: string, x: string)
    requires x != m
    ensures Spares(o, w, DropVm(o, w, m).w, x)
  {
    hide Tick;
    TickSpares(o, w, x);
  }

  lemma DropSpares(o: Oracle, w: World, r: Resource, x: string)
    ensures Spares(o, w, Drop(o, w, r).w, x)
  {
    hide Tick;
    TickSpares(o, w, x);
  }

  lemma UpsertSpares(o: Oracle, w: World, r: Resource, x: string)
    ensures Spares(o, w, Upsert(o, w, r).w, x)
  {
    hide Tick;
    TickSpares(o, w, x);
  }

  lemma CreateVmSpares(o: Oracle, w: World, m: string, disk: Resource, aset: string, x: string)
    requires x != m
    ensures Spares(o, w, CreateVm(o, w, m, disk, aset).w, x)
  {
    hide Tick;
    TickSpares(o, w, x);
  }

  lemma DeleteAvailabilitySetSpares(o: Oracle, w: World, name: string, x: string)
    ensures Spares(o, w, DeleteAvailabilitySet(o, w, name).w, x)
  {
    hide Tick, Drop, Occupied, Spares;
    var t := Tick(o, w);
    TickSpares(o, w, x);
    DropSpares(o, t, AvailabilitySet(name), x);
    SparesTwice(o, w, t, Drop(o, t, AvailabilitySet(name)).w, x);
  }

  // ------------------------------------------------------------ one operation

  lemma DeleteSpares(o: Oracle, w: World, m: Machine, x: string)
    requires x != m.name
    ensures Spares(o, w, Delete(o, w, m).w, x)
  {
    hide DropVm, Drop, DeleteAvailabilitySet, Spares;
    hide OSDiskName, NicName, PublicIpName, AvailabilitySetName;
    var vm := DropVm(o, w, m.name);
    DropVmSpares(o, w, m.name, x);
    var disk := Drop(o, vm.w, m.Disk());
    DropSpares(o, vm.w, m.Disk(), x);
    SparesTwice(o, w, vm.w, disk.w, x);
    var nic := Drop(o, disk.w, m.Interface());
    DropSpares(o, disk.w, m.Interface(), x);
    SparesTwice(o, w, disk.w, nic.w, x);
    var ip := if m.config.publicIp && m.Ip().Some? then Drop(o, nic.w, m.Ip().value) else Out(nic.w, None);
    if m.config.publicIp && m.Ip().Some? {
      DropSpares(o, nic.w, m.Ip().value, x);
      SparesTwice(o, w, nic.w, ip.w, x);
    }
    var aset := DeleteAvailabilitySet(o, ip.w, m.GeneratedSet());
    DeleteAvailabilitySetSpares(o, ip.w, m.GeneratedSet(), x);
    SparesTwice(o, w, ip.w, aset.w, x);
  }

  lemma NothingSpares(o: Oracle, w: World, x: string)
    ensures Spares(o, w, w, x)
  {
  }

  lemma CreateNetworkInterfaceSpares(o: Oracle, w: World, m: Machine, x: string)
    ensures Spares(o, w, CreateNetworkInterface(o, w, m).w, x)
  {
    hide Tick, Upsert, Spares, NicName, PublicIpName;
    NothingSpares(o, w, x);
    TickSpares(o, w, x);
    var sku := if m.config.acceleratedNetworking then Probe(o, w, Accelerates) else ProbeOut(w, None, true);
    var ip := if m.config.publicIp && m.Ip().Some? then Upsert(o, sku.w, m.Ip().value) else Out(sku.w, None);
    if m.config.publicIp && m.Ip().Some? {
      UpsertSpares(o, sku.w, m.Ip().value, x);
      SparesTwice(o, w, sku.w, ip.w, x);
    }
    UpsertSpares(o, ip.w, m.Interface(), x);
    SparesTwice(o, w, ip.w, Upsert(o, ip.w, m.Interface()).w, x);
  }

  lemma GetOrCreateAvailabilitySetSpares(o: Oracle, w: World, m: Machine, x: string)
    ensures Spares(o, w, GetOrCreateAvailabilitySet(o, w, m).w, x)
  {
    hide Tick, Upsert, Spares, AvailabilitySetName;
    NothingSpares(o, w, x);
    TickSpares(o, w, x);
    var aset := AvailabilitySet(m.GeneratedSet());
    UpsertSpares(o, Tick(o, w), aset, x);
    SparesTwice(o, w, Tick(o, w), Upsert(o, Tick(o, w), aset).w, x);
  }

  lemma RequestVirtualMachineSpares(o: Oracle, w: World, m: Machine, aset: string, x: string)
    requires x != m.name
    ensures Spares(o, w, RequestVirtualMachine(o, w, m, aset).w, x)
  {
    hide Tick, CreateVm, Spares, OSDiskName, ResourceId.Validate, VmRequestFailure;
    NothingSpares(o, w, x);
    TickSpares(o, w, x);
    var secret := if m.config.userDataSecret then Probe(o, w, HasUserData) else ProbeOut(w, None, true);
    CreateVmSpares(o, secret.w, m.name, m.Disk(), aset, x);
    SparesTwice(o, w, secret.w, CreateVm(o, secret.w, m.name, m.Disk(), aset).w, x);
  }

  lemma CreateVirtualMachineSpares(o: Oracle, w: World, m: Machine, aset: string, x: string)
    requires x != m.name
    ensures Spares(o, w, CreateVirtualMachine(o, w, m, aset).w, x)
  {
    hide Tick, RequestVirtualMachine, Delete, Spares;
    NothingSpares(o, w, x);
    TickSpares(o, w, x);
    var got := GetVm(o, w, m.name);
    RequestVirtualMachineSpares(o, got.w, m, aset, x);
    SparesTwice(o, w, got.w, RequestVirtualMachine(o, got.w, m, aset).w, x);
    DeleteSpares(o, got.w, m, x);
    SparesTwice(o, w, got.w, Delete(o, got.w, m).w, x);
  }

  lemma {:induction false} LookupsSpare(o: Oracle, w: World, n: nat, x: string)
    ensures Spares(o, w, Lookups(o, w, n), x)
    decreases n
  {
    hide Tick, Spares;
    NothingSpares(o, w, x);
    if n > 0 {
      TickSpares(o, w, x);
      LookupsSpare(o, Tick(o, w), n - 1, x);
      SparesTwice(o, w, Tick(o, w), Lookups(o, w, n), x);
    }
  }

  /** Update reads only: it spares every machine, its own too. */
  lemma UpdateSpares(o: Oracle, w: World, m: Machine, lookups: nat, x: string)
    ensures Spares(o, w, Update(o, w, m, lookups).w, x)
  {
    hide Tick, Lookups, Spares;
    var got := GetVm(o, w, m.name);
    TickSpares(o, w, x);
    LookupsSpare(o, got.w, lookups, x);
    SparesTwice(o, w, got.w, Lookups(o, got.w, lookups), x);
  }

  lemma CheckExistsSpares(o: Oracle, w: World, m: Machine, x: string)
    ensures Spares(o, w, CheckExists(o, w, m).w, x)
  {
    TickSpares(o, w, x);
    hide Tick, Spares;
  }

  /** Create, with the Delete nested in it, spares every virtual machine but its own. */
  lemma CreateSpares(o: Oracle, w: World, m: Machine, lookups: nat, x: string)
    requires x != m.name
    ensures Spares(o, w, CreateMachine(o, w, m, lookups).w, x)
  {
    hide CreateNetworkInterface, GetOrCreateAvailabilitySet, CreateVirtualMachine, Update, Spares;
    var nic := CreateNetworkInterface(o, w, m);
    CreateNetworkInterfaceSpares(o, w, m, x);
    var aset := GetOrCreateAvailabilitySet(o, nic.w, m);
    GetOrCreateAvailabilitySetSpares(o, nic.w, m, x);
    SparesTwice(o, w, nic.w, aset.w, x);
    var vm := CreateVirtualMachine(o, aset.w, m, aset.name);
    CreateVirtualMachineSpares(o, aset.w, m, aset.name, x);
    SparesTwice(o, w, aset.w, vm.w, x);
    UpdateSpares(o, vm.w, m, lookups, x);
    SparesTwice(o, w, vm.w, Update(o, vm.w, m, lookups).w, x);
  }
}
