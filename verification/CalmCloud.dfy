/** What the reconciler does when nothing gets in its way: no call fails and Azure leaves virtual machines alone. */
module CalmCloud {
  import opened Cloud
  import opened Errors
  import opened Lifecycle
  import opened Names
  import opened Reconciler
  import opened Wrappers
  import ResourceId

  ghost predicate Calm(o: Oracle) {
    forall t: nat :: o(t).fault.None? && o(t).drift == map[]
  }

  /** The machine size supports what the machine asks for, and the secret it names holds user data. */
  ghost predicate Obliging(o: Oracle) {
    forall t: nat :: Accelerates in o(t).yes && HasUserData in o(t).yes
  }

  lemma CalmTick(o: Oracle, w: World)
    requires Calm(o)
    ensures Tick(o, w) == w.(clock := w.clock + 1) && o(w.clock).fault.None?
  {
    assert o(w.clock).drift == map[];
    assert Gone(w.vms, map[]) == {};
    assert w.vanished + multiset({}) == w.vanished;
    assert Tick(o, w).vms == w.vms;
  }

  lemma CalmDropVm(o: Oracle, w: World, m: string)
    requires Calm(o)
    ensures var d := DropVm(o, w, m); d.err.None? && d.w.vms == w.vms - {m}
  {
    hide Tick;
    CalmTick(o, w);
  }

  lemma CalmDrop(o: Oracle, w: World, r: Resource)
    requires Calm(o)
    ensures var d := Drop(o, w, r); d.err.None? && d.w.vms == w.vms
  {
    hide Tick;
    CalmTick(o, w);
  }

  lemma CalmDeleteAvailabilitySet(o: Oracle, w: World, name: string)
    requires Calm(o)
    ensures var d := DeleteAvailabilitySet(o, w, name); d.err.None? && d.w.vms == w.vms
  {
    hide Tick;
    hide Drop;
    hide Occupied;
    CalmTick(o, w);
    CalmDrop(o, Tick(o, w), AvailabilitySet(name));
  }

  lemma CalmUpsert(o: Oracle, w: World, r: Resource)
    requires Calm(o)
    ensures var d := Upsert(o, w, r); d.err.None? && d.w.vms == w.vms && d.w.live == w.live + {r}
  {
    hide Tick;
    CalmTick(o, w);
  }

  lemma CalmProbe(o: Oracle, w: World, q: Question)
    requires Calm(o)
    ensures var d := Probe(o, w, q); d.err.None? && d.yes == (q in o(w.clock).yes) && d.w.vms == w.vms && d.w.live == w.live
  {
    hide Tick;
    CalmTick(o, w);
  }

  lemma CalmGetVm(o: Oracle, w: World, m: string)
    requires Calm(o)
    ensures var d := GetVm(o, w, m);
            d.w.vms == w.vms && d.w.live == w.live && (if m in w.vms then d.reply.Found? else d.reply.Absent?)
  {
    hide Tick;
    CalmTick(o, w);
  }

  lemma CalmCreateVm(o: Oracle, w: World, m: Machine, aset: string)
    requires Calm(o)
    ensures var d := CreateVm(o, w, m.name, m.Disk(), aset);
            d.err.None? && d.w.vms == w.vms[m.name := Vm(Some("Creating"), aset)] && w.live <= d.w.live
  {
    hide Tick;
    hide OSDiskName;
    CalmTick(o, w);
  }

  /** Undisturbed, Delete returns nil, and of the virtual machines takes away its own only. */
  lemma CalmDelete(o: Oracle, w: World, m: Machine)
    requires Calm(o)
    requires m.config.vnet != ""
    ensures var d := Reconciler.Delete(o, w, m); d.err.None? && d.w.vms == w.vms - {m.name}
  {
    hide DropVm;
    hide Drop;
    hide DeleteAvailabilitySet;
    hide AvailabilitySetName;
    var vm := DropVm(o, w, m.name);
    CalmDropVm(o, w, m.name);
    var disk := Drop(o, vm.w, m.Disk());
    CalmDrop(o, vm.w, m.Disk());
    var nic := Drop(o, disk.w, m.Interface());
    CalmDrop(o, disk.w, m.Interface());
    var ip := if m.config.publicIp && m.Ip().Some? then Drop(o, nic.w, m.Ip().value) else Out(nic.w, None);
    if m.Ip().Some? { CalmDrop(o, nic.w, m.Ip().value); }
    CalmDeleteAvailabilitySet(o, ip.w, m.GeneratedSet());
  }

  lemma CalmNetwork(o: Oracle, w: World, m: Machine)
    requires Calm(o) && Obliging(o) && !Refused(m)
    ensures var d := CreateNetworkInterface(o, w, m);
            && d.err.None? && d.w.vms == w.vms
            && d.w.live == w.live + {m.Interface()} + if m.config.publicIp then {IpOf(m)} else {}
  {
    hide Probe;
    hide Upsert;
    var sku := if m.config.acceleratedNetworking then Probe(o, w, Accelerates) else ProbeOut(w, None, true);
    CalmProbe(o, w, Accelerates);
    var ip := if m.config.publicIp then Upsert(o, sku.w, m.Ip().value) else Out(sku.w, None);
    if m.config.publicIp { CalmUpsert(o, sku.w, m.Ip().value); }
    CalmUpsert(o, ip.w, m.Interface());
  }

  /** The set an undisturbed getOrCreateAvailabilitySet settles on. */
  function SettledSet(o: Oracle, w: World, m: Machine): string {
    if m.config.explicitSet != "" then m.config.explicitSet
    else if Zoneless in o(w.clock).yes && Generates(m) then m.GeneratedSet()
    else ""
  }

  lemma CalmSet(o: Oracle, w: World, m: Machine)
    requires Calm(o)
    ensures var d := GetOrCreateAvailabilitySet(o, w, m);
            && d.err.None? && d.w.vms == w.vms
            && (!Refused(m) ==>
                  && d.name == SettledSet(o, w, m)
                  && d.w.live == w.live + if m.config.explicitSet == "" && d.name != "" then {SetOf(m)} else {})
  {
    hide Probe;
    hide Upsert;
    hide AvailabilitySetName;
    GeneratedSetIsNamed(m);
    CalmProbe(o, w, Zoneless);
    CalmUpsert(o, Probe(o, w, Zoneless).w, SetOf(m));
  }

  /** Undisturbed, createVirtualMachine for a machine that does not exist takes nothing away, and boots it if it can. */
  lemma CalmBoot(o: Oracle, w: World, m: Machine, aset: string)
    requires Calm(o) && Obliging(o) && m.name !in w.vms
    ensures var d := CreateVirtualMachine(o, w, m, aset);
            && w.live <= d.w.live
            && (CanBoot(m) ==> d.err.None? && d.w.vms == w.vms[m.name := Vm(Some("Creating"), aset)])
  {
    hide Probe;
    hide GetVm;
    hide CreateVm;
    hide Reconciler.Delete;
    hide ResourceId.Validate;
    hide OSDiskName;
    var got := GetVm(o, w, m.name);
    CalmGetVm(o, w, m.name);
    var secret := if m.config.userDataSecret then Probe(o, got.w, HasUserData) else ProbeOut(got.w, None, true);
    CalmProbe(o, got.w, HasUserData);
    CalmCreateVm(o, secret.w, m, aset);
  }

  lemma {:induction false} CalmLookups(o: Oracle, w: World, n: nat)
    requires Calm(o)
    ensures Lookups(o, w, n).vms == w.vms && Lookups(o, w, n).live == w.live
    decreases n
  {
    hide Tick;
    if n > 0 {
      CalmTick(o, w);
      CalmLookups(o, Tick(o, w), n - 1);
    }
  }

  lemma CalmUpdate(o: Oracle, w: World, m: Machine, lookups: nat)
    requires Calm(o)
    ensures var d := Reconciler.Update(o, w, m, lookups);
            && d.w.vms == w.vms && d.w.live == w.live
            && (m.name in w.vms && m.config.vnet != "" ==> d.err.None?)
  {
    hide GetVm;
    CalmGetVm(o, w, m.name);
    CalmLookups(o, GetVm(o, w, m.name).w, lookups);
  }

  /** The availability set an undisturbed Create chooses for its virtual machine. */
  function ChosenSet(o: Oracle, w: World, m: Machine): string {
    SettledSet(o, CreateNetworkInterface(o, w, m).w, m)
  }

  /** Undisturbed, Create of a new machine makes its availability set where it is asked for, and boots the machine,
      in the set it chose, where it can. */
  lemma CalmCreate(o: Oracle, w: World, m: Machine, lookups: nat)
    requires Calm(o) && Obliging(o) && m.name !in w.vms && !Refused(m)
    ensures var c := CreateMachine(o, w, m, lookups);
            && (m.config.explicitSet == "" && ChosenSet(o, w, m) != "" ==> SetOf(m) in c.w.live)
            && (CanBoot(m) ==> c.err.None? && c.w.vms == w.vms[m.name := Vm(Some("Creating"), ChosenSet(o, w, m))])
  {
    hide CreateNetworkInterface, GetOrCreateAvailabilitySet, CreateVirtualMachine, Reconciler.Update;
    hide AvailabilitySetName, Calm, Obliging, SettledSet;
    var nic := CreateNetworkInterface(o, w, m);
    CalmNetwork(o, w, m);
    var aset := GetOrCreateAvailabilitySet(o, nic.w, m);
    CalmSet(o, nic.w, m);
    CalmBoot(o, aset.w, m, aset.name);
    CalmUpdate(o, CreateVirtualMachine(o, aset.w, m, aset.name).w, m, lookups);
  }
}
