/** What one reconciler operation may do to the cloud, whatever the adversary answers. */
module Lifecycle {
  import opened Cloud
  import opened Errors
  import opened Isolation
  import opened Names
  import opened Reconciler
  import opened Wrappers
  import ResourceId

  // ------------------------------------------------------------ what is claimed of one machine

  function IpOf(m: Machine): Resource {
    PublicIp(PublicIpName(m.cluster, m.name))
  }

  function SetOf(m: Machine): Resource {
    AvailabilitySet(m.GeneratedSet())
  }

  /** A configuration that createNetworkInterface refuses. */
  predicate Refused(m: Machine) {
    m.config.vnet == "" || m.config.subnet == "" || (m.config.publicIp && m.Ip().None?)
  }

  /** The dependency order: a virtual machine has its disk, a disk needs the interface, and the interface of a machine
      with a public IP needs that IP. Nothing exists for a machine whose configuration Create rejects. */
  ghost predicate Ordered(w: World, m: Machine) {
    && (m.name in w.vms ==> m.Disk() in w.live)
    && (m.Disk() in w.live ==> m.Interface() in w.live)
    && (m.Interface() in w.live ==> !Refused(m) && (m.config.publicIp ==> IpOf(m) in w.live))
    && (IpOf(m) in w.live ==> m.config.publicIp && m.Ip().Some?)
  }

  ghost predicate Clean(w: World, m: Machine) {
    m.name !in w.vms && m.Disk() !in w.live && m.Interface() !in w.live && IpOf(m) !in w.live
  }

  /** The controller may generate an availability set for this machine. */
  predicate Generates(m: Machine) {
    m.config.explicitSet == "" && m.config.machineSet.Some? && !m.config.spot && !Refused(m)
  }

  /** createVirtualMachine reaches its create request for this configuration. */
  predicate CanBoot(m: Machine) {
    && !Refused(m) && m.config.sshKeyDecodes && m.config.diagnosticsError.None? && m.config.clusterLabel != ""
    && (m.config.capacityGroup == "" || ResourceId.Validate(m.config.capacityGroup).None?)
  }

  /** Delete gets as far as asking for the availability set of the machine's generated name. */
  predicate Claims(m: Machine) {
    m.config.vnet != "" && !(m.config.publicIp && m.Ip().None?)
  }

  lemma GeneratedSetIsNamed(m: Machine)
    ensures m.GeneratedSet() != ""
  {
  }

  /** The availability set name is one that Create may hand to this machine's virtual machine. */
  ghost predicate Choosable(w: World, m: Machine, aset: string) {
    if m.config.explicitSet != "" then aset == m.config.explicitSet
    else aset == "" || (aset == m.GeneratedSet() && SetOf(m) in w.live && Generates(m))
  }

  /** A machine that exists can boot; one that lets the controller pick its availability set is in none, or in an
      existing set of the generated name. */
  ghost predicate Placed(w: World, m: Machine) {
    m.name in w.vms ==> CanBoot(m) && Choosable(w, m, w.vms[m.name].aset)
  }

  /** No create request ever met an existing machine; a machine's appearances outnumber its disappearances
      by its presence, and never outnumber the requests. */
  ghost predicate Tallied(w: World, name: string) {
    && w.overwrites == 0
    && w.appeared[name] == w.vanished[name] + Present(w, name)
    && w.appeared[name] <= w.requests[name]
  }

  ghost predicate Good(w: World, m: Machine) {
    Ordered(w, m) && Placed(w, m) && Tallied(w, m.name)
  }

  ghost function Present(w: World, name: string): nat {
    if name in w.vms then 1 else 0
  }

  /** Two machines of one cluster: different names, or the same machine. */
  ghost predicate Siblings(m: Machine, x: Machine) {
    m.cluster == x.cluster && (m.name == x.name ==> m == x)
  }

  lemma SiblingsShareNothing(m: Machine, x: Machine)
    requires m.cluster == x.cluster && m.name != x.name
    ensures m.Disk() != x.Disk() && m.Interface() != x.Interface() && IpOf(m) != IpOf(x)
  {
    NamesAreInjective(m.cluster);
  }

  // ------------------------------------------------------------ one service call

  /** No create request was sent, virtual machines at most disappeared and were counted,
      and of the other resources at most `lost` were lost and `gained` gained. */
  ghost predicate Moved(w: World, v: World, lost: set<Resource>, gained: set<Resource>) {
    && v.vms.Keys <= w.vms.Keys && (forall k :: k in v.vms ==> v.vms[k].aset == w.vms[k].aset)
    && w.live - lost <= v.live <= w.live + gained
    && v.requests == w.requests && v.appeared == w.appeared && v.overwrites == w.overwrites
    && forall k :: v.vanished[k] + Present(v, k) == w.vanished[k] + Present(w, k)
  }

  /** Nothing was gained, and of the other resources at most `lost` were lost. */
  ghost predicate OnlyLost(w: World, v: World, lost: set<Resource>) {
    v.vms.Keys <= w.vms.Keys && w.live - lost <= v.live <= w.live
  }

  lemma MovedTwice(a: World, b: World, c: World, lost: set<Resource>, more: set<Resource>)
    requires Moved(a, b, lost, {}) && Moved(b, c, more, {})
    ensures Moved(a, c, lost + more, {}) && OnlyLost(b, c, more)
  {
  }

  lemma GainedTwice(a: World, b: World, c: World, gained: set<Resource>, more: set<Resource>, all: set<Resource>)
    requires Moved(a, b, {}, gained) && Moved(b, c, {}, more) && gained + more <= all
    ensures Moved(a, c, {}, all) && Moved(a, b, {}, all)
    ensures a.live <= b.live <= c.live && b.live <= a.live + gained && c.live <= b.live + more
  {
  }

  lemma MovedNowhere(w: World, gained: set<Resource>)
    ensures Moved(w, w, {}, gained)
  {
  }

  lemma MovedWithin(w: World, v: World, lost: set<Resource>, all: set<Resource>)
    requires Moved(w, v, lost, {}) && lost <= all
    ensures Moved(w, v, all, {}) && OnlyLost(w, v, lost)
  {
  }

  lemma TickMoves(o: Oracle, w: World)
    ensures Moved(w, Tick(o, w), {}, {}) && Tick(o, w).clock == w.clock + 1
  {
  }

  lemma DropVmMoves(o: Oracle, w: World, m: string)
    ensures var d := DropVm(o, w, m);
            && Moved(w, d.w, {}, {}) && OnlyLost(w, d.w, {})
            && (d.err.None? ==> m !in d.w.vms)
  {
    hide Tick;
    TickMoves(o, w);
  }

  lemma DropMoves(o: Oracle, w: World, r: Resource)
    ensures var d := Drop(o, w, r);
            && Moved(w, d.w, {r}, {})
            && (d.err.None? ==> r !in d.w.live)
  {
    hide Tick;
    TickMoves(o, w);
  }

  lemma UpsertMoves(o: Oracle, w: World, r: Resource)
    ensures var d := Upsert(o, w, r);
            && Moved(w, d.w, {}, {r})
            && (d.err.None? ==> r in d.w.live)
  {
    hide Tick;
    TickMoves(o, w);
  }

  /** The set is taken away only when no virtual machine is in it, and a nil result means it is gone or occupied. */
  lemma DeleteAvailabilitySetMoves(o: Oracle, w: World, name: string)
    ensures var d := DeleteAvailabilitySet(o, w, name);
            && Moved(w, d.w, {AvailabilitySet(name)}, {})
            && (Occupied(d.w, name) && AvailabilitySet(name) in w.live ==> AvailabilitySet(name) in d.w.live)
            && (d.err.None? ==> AvailabilitySet(name) !in d.w.live || Occupied(d.w, name))
  {
    hide Tick;
    hide Drop;
    TickMoves(o, w);
    DropMoves(o, Tick(o, w), AvailabilitySet(name));
  }

  // ------------------------------------------------------------ Delete

  ghost function OwnedBy(m: Machine): set<Resource> {
    {m.Disk(), m.Interface(), IpOf(m), SetOf(m)}
  }

  /** Delete only takes away, from its own machine, in dependency order; nil means that everything is gone. */
  lemma DeleteMoves(o: Oracle, w: World, m: Machine)
    ensures var d := Delete(o, w, m);
            var lost := w.live - d.w.live;
            && Moved(w, d.w, OwnedBy(m), {})
            && (m.Disk() in lost ==> m.name !in d.w.vms)
            && (m.Interface() in lost ==> m.name !in d.w.vms && m.Disk() !in d.w.live && m.config.vnet != "")
            && (IpOf(m) in lost ==> m.name !in d.w.vms && m.Disk() !in d.w.live && m.Interface() !in d.w.live)
            && (SetOf(m) in lost ==> !Occupied(d.w, m.GeneratedSet()) && Claims(m))
            && (d.err.None? ==>
                  && m.name !in d.w.vms && m.Disk() !in d.w.live && m.Interface() !in d.w.live && m.config.vnet != ""
                  && (m.config.publicIp && m.Ip().Some? ==> IpOf(m) !in d.w.live)
                  && (Claims(m) ==> SetOf(m) !in d.w.live || Occupied(d.w, m.GeneratedSet())))
  {
    hide Drop;
    hide DropVm;
    hide DeleteAvailabilitySet;
    hide Moved;
    hide Occupied;
    hide OSDiskName;
    hide NicName;
    hide PublicIpName;
    hide AvailabilitySetName;
    var vm := DropVm(o, w, m.name);
    DropVmMoves(o, w, m.name);
    if vm.err.Some? { MovedWithin(w, vm.w, {}, OwnedBy(m)); return; }
    var disk := Drop(o, vm.w, m.Disk());
    DropMoves(o, vm.w, m.Disk());
    MovedTwice(w, vm.w, disk.w, {}, {m.Disk()});
    if disk.err.Some? || m.config.vnet == "" { MovedWithin(w, disk.w, {m.Disk()}, OwnedBy(m)); return; }
    var nic := Drop(o, disk.w, m.Interface());
    DropMoves(o, disk.w, m.Interface());
    MovedTwice(w, disk.w, nic.w, {m.Disk()}, {m.Interface()});
    if nic.err.Some? || (m.config.publicIp && m.Ip().None?) {
      MovedWithin(w, nic.w, {m.Disk(), m.Interface()}, OwnedBy(m));
      return;
    }
    var ip := if m.config.publicIp then Drop(o, nic.w, IpOf(m)) else Out(nic.w, None);
    var two := {m.Disk(), m.Interface()};
    if m.config.publicIp {
      DropMoves(o, nic.w, IpOf(m));
      MovedTwice(w, nic.w, ip.w, two, {IpOf(m)});
    } else {
      MovedWithin(w, nic.w, two, two + {IpOf(m)});
    }
    if ip.err.Some? { MovedWithin(w, ip.w, two + {IpOf(m)}, OwnedBy(m)); return; }
    DeleteAvailabilitySetMoves(o, ip.w, m.GeneratedSet());
    MovedTwice(w, ip.w, Delete(o, w, m).w, two + {IpOf(m)}, {SetOf(m)});
    assert two + {IpOf(m)} + {SetOf(m)} == OwnedBy(m);
  }

  lemma DeleteKeepsGood(o: Oracle, w: World, m: Machine, x: Machine)
    requires Siblings(m, x) && Good(w, x)
    ensures Good(Delete(o, w, m).w, x)
  {
    hide Delete;
    hide OSDiskName;
    hide NicName;
    hide PublicIpName;
    hide AvailabilitySetName;
    DeleteMoves(o, w, m);
    if m.name != x.name { SiblingsShareNothing(m, x); }
  }

  /** When Delete returns nil nothing of the machine is left; the early return on an over-long public IP name
      leaves nothing behind because such a name was never used. */
  lemma DeleteCleans(o: Oracle, w: World, m: Machine)
    requires Ordered(w, m) && Delete(o, w, m).err.None?
    ensures Clean(Delete(o, w, m).w, m)
  {
    hide Delete;
    DeleteMoves(o, w, m);
  }

  // ------------------------------------------------------------ Create

  lemma ProbeMoves(o: Oracle, w: World, q: Question)
    ensures Moved(w, Probe(o, w, q).w, {}, {})
  {
    hide Tick;
    TickMoves(o, w);
  }

  lemma CreateNetworkInterfaceMoves(o: Oracle, w: World, m: Machine)
    ensures var d := CreateNetworkInterface(o, w, m);
            && Moved(w, d.w, {}, {IpOf(m), m.Interface()})
            && (Refused(m) ==> d.err.Some? && d.w.live == w.live)
            && (IpOf(m) in d.w.live - w.live ==> m.config.publicIp)
            && (m.Interface() in d.w.live - w.live && m.config.publicIp ==> IpOf(m) in d.w.live)
            && (d.err.None? ==> m.Interface() in d.w.live)
  {
    hide Probe;
    hide Upsert;
    hide Moved;
    hide OSDiskName;
    hide NicName;
    hide PublicIpName;
    var c, both := m.config, {IpOf(m), m.Interface()};
    MovedNowhere(w, {});
    MovedNowhere(w, both);
    var sku := if c.acceleratedNetworking then Probe(o, w, Accelerates) else ProbeOut(w, None, true);
    if c.acceleratedNetworking { ProbeMoves(o, w, Accelerates); }
    var ip := if c.publicIp then Upsert(o, sku.w, IpOf(m)) else Out(sku.w, None);
    UpsertMoves(o, sku.w, IpOf(m));
    MovedNowhere(sku.w, {IpOf(m)});
    GainedTwice(w, sku.w, ip.w, {}, {IpOf(m)}, both);
    UpsertMoves(o, ip.w, m.Interface());
    GainedTwice(w, ip.w, Upsert(o, ip.w, m.Interface()).w, {IpOf(m)}, {m.Interface()}, both);
  }

  /** The set name handed to the virtual machine is the user's, or empty, or the generated name of an existing set:
      the name Delete will ask for. */
  lemma GetOrCreateAvailabilitySetMoves(o: Oracle, w: World, m: Machine)
    ensures var d := GetOrCreateAvailabilitySet(o, w, m);
            && Moved(w, d.w, {}, {SetOf(m)})
            && (SetOf(m) in d.w.live - w.live && !Refused(m) ==> Generates(m))
            && (d.err.None? && m.config.explicitSet != "" ==> d.name == m.config.explicitSet)
            && (d.err.None? && m.config.explicitSet == "" ==>
                  d.name == "" || (d.name == m.GeneratedSet() && SetOf(m) in d.w.live && (Refused(m) || Generates(m))))
  {
    hide Probe;
    hide Upsert;
    hide Moved;
    hide AvailabilitySetName;
    var zones := Probe(o, w, Zoneless);
    MovedNowhere(w, {SetOf(m)});
    ProbeMoves(o, w, Zoneless);
    UpsertMoves(o, zones.w, SetOf(m));
    GainedTwice(w, zones.w, Upsert(o, zones.w, SetOf(m)).w, {}, {SetOf(m)}, {SetOf(m)});
  }

  /** Appearances, disappearances and presence of every virtual machine balance. */
  ghost predicate Conserved(w: World, v: World) {
    forall k :: v.appeared[k] + w.vanished[k] + Present(w, k) == w.appeared[k] + v.vanished[k] + Present(v, k)
  }

  /** At most one create request was sent, for a machine that did not exist; at most that machine and its disk appeared. */
  ghost predicate Requested(w: World, v: World, m: Machine, aset: string) {
    && v.vms.Keys <= w.vms.Keys + {m.name}
    && (forall k :: k in v.vms ==> v.vms[k].aset == if k in w.vms then w.vms[k].aset else aset)
    && w.live <= v.live <= w.live + {m.Disk()}
    && (m.name in v.vms ==> m.Disk() in v.live)
    && Conserved(w, v) && v.overwrites == w.overwrites
    && w.requests <= v.requests <= w.requests + multiset{m.name}
    && forall k :: v.appeared[k] + w.requests[k] <= w.appeared[k] + v.requests[k]
  }

  lemma CreateVmMoves(o: Oracle, w: World, m: Machine, aset: string)
    requires m.name !in w.vms
    ensures Requested(w, CreateVm(o, w, m.name, m.Disk(), aset).w, m, aset)
  {
    hide Tick;
    hide OSDiskName;
    TickMoves(o, w);
  }

  lemma MovedThenRequested(a: World, b: World, c: World, m: Machine, aset: string)
    requires Moved(a, b, {}, {}) && Requested(b, c, m, aset) && m.name !in a.vms
    ensures Requested(a, c, m, aset) && Requested(a, b, m, aset)
  {
  }

  lemma RequestVirtualMachineMoves(o: Oracle, w: World, m: Machine, aset: string)
    requires m.name !in w.vms
    ensures Requested(w, RequestVirtualMachine(o, w, m, aset).w, m, aset)
    ensures m.name in RequestVirtualMachine(o, w, m, aset).w.vms && !Refused(m) && m.config.sshKeyDecodes ==> CanBoot(m)
  {
    hide Probe;
    hide CreateVm;
    hide ResourceId.Validate;
    hide VmRequestFailure;
    hide Moved;
    hide OSDiskName;
    var secret := if m.config.userDataSecret then Probe(o, w, HasUserData) else ProbeOut(w, None, true);
    MovedNowhere(w, {});
    ProbeMoves(o, w, HasUserData);
    assert m.name !in secret.w.vms by { MovedWithin(w, secret.w, {}, {}); }
    CreateVmMoves(o, w, m, aset);
    CreateVmMoves(o, secret.w, m, aset);
    MovedThenRequested(w, w, CreateVm(o, w, m.name, m.Disk(), aset).w, m, aset);
    MovedThenRequested(w, secret.w, CreateVm(o, secret.w, m.name, m.Disk(), aset).w, m, aset);
  }

  /** An availability set with a virtual machine in it has not been taken away. */
  ghost predicate KeepsSets(w: World, v: World) {
    forall n :: AvailabilitySet(n) in w.live && Occupied(v, n) ==> AvailabilitySet(n) in v.live
  }

  /** The three ways createVirtualMachine can leave the cloud: no virtual machine was found and it may have been requested;
      a Failed one was found and deleted with its resources; or nothing was changed. */
  lemma CreateVirtualMachineCases(o: Oracle, w: World, m: Machine, aset: string)
    ensures var v := CreateVirtualMachine(o, w, m, aset).w;
            var got := GetVm(o, w, m.name);
            || Moved(w, v, {}, {})
            || (got.reply.Absent? && m.name !in got.w.vms && Moved(w, got.w, {}, {}) && Requested(got.w, v, m, aset)
                && (m.name in v.vms && !Refused(m) ==> CanBoot(m)))
            || (got.reply.Found? && got.reply.vm.state == Some("Failed") && Moved(w, got.w, {}, {}) && v == Delete(o, got.w, m).w)
  {
    hide Tick;
    hide Delete;
    hide RequestVirtualMachine;
    hide Requested;
    hide Moved;
    TickMoves(o, w);
    MovedNowhere(w, {});
    var got := GetVm(o, w, m.name);
    if got.reply.Absent? { RequestVirtualMachineMoves(o, got.w, m, aset); }
  }

  lemma MovedKeepsGood(w: World, v: World, x: Machine, gained: set<Resource>)
    requires Good(w, x) && Moved(w, v, {}, gained)
    requires gained !! {x.Disk(), x.Interface(), IpOf(x)}
    ensures Good(v, x)
  {
  }

  lemma RequestedKeepsGood(w: World, v: World, m: Machine, x: Machine, aset: string)
    requires Siblings(m, x) && Good(w, x) && m.name !in w.vms && Requested(w, v, m, aset)
    requires m.Interface() in w.live && Choosable(w, m, aset)
    requires m.name in v.vms ==> CanBoot(m)
    ensures Good(v, x) && KeepsSets(w, v)
  {
    hide OSDiskName;
    hide NicName;
    hide PublicIpName;
    hide AvailabilitySetName;
    if m.name != x.name { SiblingsShareNothing(m, x); }
  }

  lemma CreateVirtualMachineKeepsGood(o: Oracle, w: World, m: Machine, x: Machine, aset: string)
    requires Siblings(m, x) && Good(w, x)
    requires m.Interface() in w.live && Choosable(w, m, aset) && !Refused(m)
    ensures var v := CreateVirtualMachine(o, w, m, aset).w;
            Good(v, x) && KeepsSets(w, v)
  {
    hide CreateVirtualMachine;
    hide GetVm;
    hide Delete;
    hide Good;
    hide Requested;
    hide OSDiskName;
    hide NicName;
    hide PublicIpName;
    hide AvailabilitySetName;
    CreateVirtualMachineCases(o, w, m, aset);
    var v := CreateVirtualMachine(o, w, m, aset).w;
    var got := GetVm(o, w, m.name);
    if Moved(w, v, {}, {}) {
      MovedKeepsGood(w, v, x, {});
    } else {
      MovedKeepsGood(w, got.w, x, {});
      if got.reply.Absent? {
        RequestedKeepsGood(got.w, v, m, x, aset);
      } else {
        DeleteKeepsGood(o, got.w, m, x);
        DeleteMoves(o, got.w, m);
      }
    }
  }

  lemma {:induction false} LookupsMove(o: Oracle, w: World, n: nat)
    ensures Moved(w, Lookups(o, w, n), {}, {})
    decreases n
  {
    hide Tick;
    if n > 0 {
      TickMoves(o, w);
      LookupsMove(o, Tick(o, w), n - 1);
    }
  }

  lemma GetVmMoves(o: Oracle, w: World, name: string)
    ensures Moved(w, GetVm(o, w, name).w, {}, {})
  {
    hide Tick;
    TickMoves(o, w);
  }

  /** Update reads only. */
  lemma UpdateMoves(o: Oracle, w: World, m: Machine, lookups: nat)
    ensures Moved(w, Update(o, w, m, lookups).w, {}, {})
  {
    hide Moved;
    hide GetVm;
    var got := GetVm(o, w, m.name);
    GetVmMoves(o, w, m.name);
    LookupsMove(o, got.w, lookups);
    GainedTwice(w, got.w, Lookups(o, got.w, lookups), {}, {}, {});
  }

  lemma CreateNetworkInterfaceKeepsGood(o: Oracle, w: World, m: Machine, x: Machine)
    requires Siblings(m, x) && Good(w, x)
    ensures Good(CreateNetworkInterface(o, w, m).w, x)
  {
    hide CreateNetworkInterface;
    hide OSDiskName;
    hide NicName;
    hide PublicIpName;
    hide AvailabilitySetName;
    CreateNetworkInterfaceMoves(o, w, m);
    if m.name != x.name { SiblingsShareNothing(m, x); }
  }

  /** An operation on one machine lets no other virtual machine appear, touches that machine's resources only, generates an
      availability set only where the configuration allows, and takes no occupied set away. */
  ghost predicate Confined(w: World, v: World, m: Machine) {
    && v.vms.Keys <= w.vms.Keys + {m.name}
    && w.live - OwnedBy(m) <= v.live <= w.live + OwnedBy(m)
    && (SetOf(m) in v.live - w.live ==> Generates(m))
    && (SetOf(m) in w.live - v.live ==> Claims(m))
    && KeepsSets(w, v)
  }

  lemma CreateVirtualMachineConfined(o: Oracle, w: World, m: Machine, aset: string)
    ensures var v := CreateVirtualMachine(o, w, m, aset).w;
            && v.vms.Keys <= w.vms.Keys + {m.name}
            && w.live - OwnedBy(m) <= v.live <= w.live + {m.Disk()}
            && (SetOf(m) in w.live - v.live ==> Claims(m))
            && KeepsSets(w, v)
  {
    hide CreateVirtualMachine;
    hide GetVm;
    hide Delete;
    hide OSDiskName;
    hide NicName;
    hide PublicIpName;
    hide AvailabilitySetName;
    CreateVirtualMachineCases(o, w, m, aset);
    var got := GetVm(o, w, m.name);
    DeleteMoves(o, got.w, m);
  }

  /** Create keeps every machine of the cluster in order. */
  lemma CreateKeepsGood(o: Oracle, w: World, m: Machine, x: Machine, lookups: nat)
    requires Siblings(m, x) && Good(w, x)
    ensures Good(CreateMachine(o, w, m, lookups).w, x)
  {
    hide CreateNetworkInterface;
    hide GetOrCreateAvailabilitySet;
    hide CreateVirtualMachine;
    hide Update;
    hide Good;
    hide OSDiskName;
    hide NicName;
    hide PublicIpName;
    hide AvailabilitySetName;
    var nic := CreateNetworkInterface(o, w, m);
    CreateNetworkInterfaceKeepsGood(o, w, m, x);
    CreateNetworkInterfaceMoves(o, w, m);
    if nic.err.Some? { return; }
    var aset := GetOrCreateAvailabilitySet(o, nic.w, m);
    GetOrCreateAvailabilitySetMoves(o, nic.w, m);
    MovedKeepsGood(nic.w, aset.w, x, {SetOf(m)});
    if aset.err.Some? { return; }
    var vm := CreateVirtualMachine(o, aset.w, m, aset.name);
    CreateVirtualMachineKeepsGood(o, aset.w, m, x, aset.name);
    UpdateMoves(o, vm.w, m, lookups);
    MovedKeepsGood(vm.w, Update(o, vm.w, m, lookups).w, x, {});
  }

  /** Create touches only its own machine and its generated availability set; other virtual machines are Azure's alone. */
  lemma CreateIsConfined(o: Oracle, w: World, m: Machine, lookups: nat)
    ensures Confined(w, CreateMachine(o, w, m, lookups).w, m)
    ensures forall x :: x != m.name ==> Spares(o, w, CreateMachine(o, w, m, lookups).w, x)
  {
    CreateResourcesConfined(o, w, m, lookups);
    hide CreateMachine, Confined, Spares;
    forall x | x != m.name ensures Spares(o, w, CreateMachine(o, w, m, lookups).w, x) { CreateSpares(o, w, m, lookups, x); }
  }

  lemma CreateResourcesConfined(o: Oracle, w: World, m: Machine, lookups: nat)
    ensures Confined(w, CreateMachine(o, w, m, lookups).w, m)
  {
    hide CreateNetworkInterface;
    hide GetOrCreateAvailabilitySet;
    hide CreateVirtualMachine;
    hide Update;
    hide OSDiskName;
    hide NicName;
    hide PublicIpName;
    hide AvailabilitySetName;
    var nic := CreateNetworkInterface(o, w, m);
    CreateNetworkInterfaceMoves(o, w, m);
    var aset := GetOrCreateAvailabilitySet(o, nic.w, m);
    GetOrCreateAvailabilitySetMoves(o, nic.w, m);
    var vm := CreateVirtualMachine(o, aset.w, m, aset.name);
    CreateVirtualMachineConfined(o, aset.w, m, aset.name);
    UpdateMoves(o, vm.w, m, lookups);
  }

  /** So does Delete. */
  lemma DeleteIsConfined(o: Oracle, w: World, m: Machine)
    ensures Confined(w, Delete(o, w, m).w, m)
    ensures forall x :: x != m.name ==> Spares(o, w, Delete(o, w, m).w, x)
  {
    forall x | x != m.name ensures Spares(o, w, Delete(o, w, m).w, x) { DeleteSpares(o, w, m, x); }
    hide Spares;
    hide Delete;
    hide AvailabilitySetName;
    DeleteMoves(o, w, m);
  }
}
