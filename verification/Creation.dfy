/** Creation does its work: what a nil result of Create means, and that attempts reach it. */
module Creation {
  import opened Cloud
  import opened Errors
  import opened Isolation
  import opened Lifecycle
  import opened Names
  import opened Reconciler
  import opened Verdicts
  import opened Wrappers
  import ResourceId
  import Runs
  import Teardown

  // ------------------------------------------------------------ what nil means

  ghost predicate Complete(w: World, m: Machine) {
    && m.name in w.vms && m.Disk() in w.live && m.Interface() in w.live
    && (m.config.publicIp ==> IpOf(m) in w.live)
  }

  /** The network interface is there, and the availability set, if there is to be one. */
  function Prepared(o: Oracle, w: World, m: Machine): SetOut {
    GetOrCreateAvailabilitySet(o, CreateNetworkInterface(o, w, m).w, m)
  }

  /** The cloud as the Update at the end of Create finds it. */
  function AtUpdate(o: Oracle, w: World, m: Machine): World {
    var aset := Prepared(o, w, m);
    GetVm(o, CreateVirtualMachine(o, aset.w, m, aset.name).w, m.name).w
  }

  /** When Create returns nil, against any adversary, the machine was complete, in order and rightly placed when the Update
      that ends it looked at it, and nothing but what Azure did to virtual machines has happened since. */
  lemma NilMeansComplete(o: Oracle, w: World, m: Machine, lookups: nat)
    requires Good(w, m) && CreateMachine(o, w, m, lookups).err.None?
    ensures var u := AtUpdate(o, w, m);
            Complete(u, m) && Good(u, m) && Moved(u, CreateMachine(o, w, m, lookups).w, {}, {})
  {
    hide CreateNetworkInterface, GetOrCreateAvailabilitySet, CreateVirtualMachine, GetVm;
    hide Good, Moved, OSDiskName, NicName, PublicIpName, AvailabilitySetName;
    var nic := CreateNetworkInterface(o, w, m);
    CreateNetworkInterfaceKeepsGood(o, w, m, m);
    CreateNetworkInterfaceMoves(o, w, m);
    var aset := GetOrCreateAvailabilitySet(o, nic.w, m);
    GetOrCreateAvailabilitySetMoves(o, nic.w, m);
    MovedKeepsGood(nic.w, aset.w, m, {SetOf(m)});
    var vm := CreateVirtualMachine(o, aset.w, m, aset.name);
    assert m.Interface() in aset.w.live by { GainedNothingLost(nic.w, aset.w, {SetOf(m)}); }
    CreateVirtualMachineKeepsGood(o, aset.w, m, m, aset.name);
    var got := GetVm(o, vm.w, m.name);
    GetVmMoves(o, vm.w, m.name);
    MovedKeepsGood(vm.w, got.w, m, {});
    LookupsMove(o, got.w, lookups);
    FoundIsThere(o, vm.w, m.name);
    GoodIsComplete(got.w, m);
  }

  lemma GainedNothingLost(w: World, v: World, gained: set<Resource>)
    requires Moved(w, v, {}, gained)
    ensures w.live <= v.live
  {
  }

  lemma FoundIsThere(o: Oracle, w: World, name: string)
    ensures GetVm(o, w, name).reply.Found? ==> name in GetVm(o, w, name).w.vms
  {
  }

  lemma GoodIsComplete(w: World, m: Machine)
    requires Good(w, m) && m.name in w.vms
    ensures Complete(w, m)
  {
  }

  // ------------------------------------------------------------ calls that go well

  /** A Create as its calls are numbered: where it starts, and which call is its create request, if it gets that far. */
  datatype Visit = Visit(start: nat, request: Option<nat>)

  /** The number of the create request that createVirtualMachine sends when it finds no virtual machine. */
  function RequestCall(o: Oracle, w: World, m: Machine): Option<nat> {
    var got := GetVm(o, w, m.name);
    if got.reply.Absent? then Some(got.w.clock + if m.config.userDataSecret then 1 else 0) else None
  }

  predicate IsReady(o: Oracle, w: World, m: Machine) {
    CreateNetworkInterface(o, w, m).err.None? && Prepared(o, w, m).err.None?
  }

  function VisitOf(o: Oracle, w: World, m: Machine): Visit {
    Visit(w.clock, if IsReady(o, w, m) then RequestCall(o, Prepared(o, w, m).w, m) else None)
  }

  /** A create request was accepted, and the creation is still under way: reported as an error, and no failure. */
  ghost predicate Accepted(a: Answer) {
    && a.landed && a.fault.Some?
    && AsyncIncomplete("compute.VirtualMachinesCreateOrUpdateFuture") in Chain(a.fault.value)
  }

  /** Call `t` goes well for the machine: it succeeds, or is the create request and is accepted; a question the configuration
      asks is answered with yes; and Azure leaves the machine's virtual machine alone or finishes it. */
  ghost predicate Serves(o: Oracle, m: Machine, v: Visit, t: nat) {
    && (o(t).fault.None? || (v.request == Some(t) && Accepted(o(t))))
    && (m.config.acceleratedNetworking && t == v.start ==> Accelerates in o(t).yes)
    && (m.config.userDataSecret && v.request == Some(t + 1) ==> HasUserData in o(t).yes)
    && (m.name in o(t).drift ==> o(t).drift[m.name] == Some(Some("Succeeded")))
  }

  /** How many of the calls numbered `from` up to `to` do not go well for the machine. */
  ghost function Setbacks(o: Oracle, m: Machine, v: Visit, from: nat, to: nat): nat
    decreases if from < to then to - from else 0
  {
    if from >= to then 0 else (if Serves(o, m, v, from) then 0 else 1) + Setbacks(o, m, v, from + 1, to)
  }

  ghost predicate Served(o: Oracle, m: Machine, v: Visit, from: nat, to: nat) {
    forall t: nat :: from <= t < to ==> Serves(o, m, v, t)
  }

  lemma {:induction false} NoSetbackMeansServed(o: Oracle, m: Machine, v: Visit, from: nat, to: nat)
    ensures Setbacks(o, m, v, from, to) == 0 ==> Served(o, m, v, from, to)
    decreases if from < to then to - from else 0
  {
    if from < to { NoSetbackMeansServed(o, m, v, from + 1, to); }
  }

  /** The calls of a Create that count: all but the lookups at its end, whose failures are only logged. */
  function CountedUntil(o: Oracle, w: World, m: Machine): nat {
    CreateMachine(o, w, m, 0).w.clock
  }

  ghost predicate GoesWell(o: Oracle, w: World, m: Machine) {
    Served(o, m, VisitOf(o, w, m), w.clock, CountedUntil(o, w, m))
  }

  /** Create looks at the machine and finds it there, but not provisioned: still on its way, or Failed. */
  predicate FindsUnfinished(o: Oracle, w: World, m: Machine) {
    IsReady(o, w, m) &&
    var reply := GetVm(o, Prepared(o, w, m).w, m.name).reply;
    reply.Found? && reply.vm.state != Some("Succeeded")
  }

  /** One of the calls that go well: the virtual machine stays where it is. */
  lemma ServedCall(o: Oracle, w: World, m: Machine, v: Visit, from: nat, to: nat)
    requires from <= w.clock
    ensures var a, t := o(w.clock), Tick(o, w);
            && t.clock == w.clock + 1
            && (Served(o, m, v, from, to) && w.clock < to ==>
                  && (a.fault.None? || (v.request == Some(w.clock) && Accepted(a)))
                  && (m.config.acceleratedNetworking && w.clock == v.start ==> Accelerates in a.yes)
                  && (m.config.userDataSecret && v.request == Some(w.clock + 1) ==> HasUserData in a.yes)
                  && (m.name in t.vms <==> m.name in w.vms))
  {
    if Served(o, m, v, from, to) && w.clock < to { assert Serves(o, m, v, w.clock); }
  }

  ghost predicate RequestsFrom(v: Visit, clock: nat) {
    v.request.Some? ==> clock <= v.request.value
  }

  lemma ServedNetwork(o: Oracle, w: World, m: Machine, v: Visit)
    requires !Refused(m) && v.start == w.clock
    ensures var d := CreateNetworkInterface(o, w, m);
            && w.clock <= d.w.clock
            && (Served(o, m, v, w.clock, d.w.clock) && RequestsFrom(v, d.w.clock) ==>
                  d.err.None? && (m.name in d.w.vms <==> m.name in w.vms))
  {
    hide Tick, Served, Accepted, NicName, PublicIpName;
    var to := CreateNetworkInterface(o, w, m).w.clock;
    var sku := if m.config.acceleratedNetworking then Probe(o, w, Accelerates) else ProbeOut(w, None, true);
    ServedCall(o, w, m, v, w.clock, to);
    var ip := if m.config.publicIp then Upsert(o, sku.w, m.Ip().value) else Out(sku.w, None);
    ServedCall(o, sku.w, m, v, w.clock, to);
    ServedCall(o, ip.w, m, v, w.clock, to);
  }

  lemma ServedSet(o: Oracle, w: World, m: Machine, v: Visit)
    ensures var d := GetOrCreateAvailabilitySet(o, w, m);
            && w.clock <= d.w.clock
            && (Served(o, m, v, w.clock, d.w.clock) && RequestsFrom(v, d.w.clock) ==>
                  d.err.None? && (m.name in d.w.vms <==> m.name in w.vms))
  {
    hide Tick, Served, Accepted, AvailabilitySetName;
    var to := GetOrCreateAvailabilitySet(o, w, m).w.clock;
    ServedCall(o, w, m, v, w.clock, to);
    ServedCall(o, Tick(o, w), m, v, w.clock, to);
  }

  lemma ServedRequest(o: Oracle, w: World, m: Machine, aset: string, v: Visit, from: nat)
    requires CanBoot(m) && from <= w.clock && v.request == Some(w.clock + if m.config.userDataSecret then 1 else 0)
    ensures var d := RequestVirtualMachine(o, w, m, aset);
            && v.request.value <= d.w.clock && w.clock <= d.w.clock
            && (Served(o, m, v, from, d.w.clock) ==>
                  && d.err.None? && v.request.value < d.w.clock
                  && m.name in d.w.vms && d.w.vms[m.name] == Vm(Some("Creating"), aset))
  {
    hide Tick, Served, OSDiskName, ResourceId.Validate, VmRequestFailure;
    var to := RequestVirtualMachine(o, w, m, aset).w.clock;
    var secret := if m.config.userDataSecret then Probe(o, w, HasUserData) else ProbeOut(w, None, true);
    ServedCall(o, w, m, v, from, to);
    ServedCall(o, secret.w, m, v, from, to);
    if Accepted(o(v.request.value)) { RequestFailureIs(o(v.request.value).fault.value); }
  }

  lemma {:induction false} ServedMeansFaultless(o: Oracle, m: Machine, v: Visit, from: nat, to: nat)
    requires v.request.None? && Served(o, m, v, from, to)
    ensures Teardown.Faults(o, from, to) == 0
    decreases if from < to then to - from else 0
  {
    if from < to {
      assert Serves(o, m, v, from);
      ServedMeansFaultless(o, m, v, from + 1, to);
    }
  }

  /** createVirtualMachine when all goes well: a machine that is not there boots in the set it is given, one that has
      succeeded is left alone, and a Failed one is deleted. */
  lemma ServedBoot(o: Oracle, w: World, m: Machine, aset: string, v: Visit)
    requires CanBoot(m) && v.request == RequestCall(o, w, m)
    ensures var d, got := CreateVirtualMachine(o, w, m, aset), GetVm(o, w, m.name);
            && w.clock < d.w.clock && got.w.clock == w.clock + 1
            && (Served(o, m, v, w.clock, d.w.clock) ==>
                  && !got.reply.Unreachable?
                  && (v.request.Some? ==> v.request.value < d.w.clock)
                  && (got.reply.Absent? ==> d.err.None? && m.name in d.w.vms && d.w.vms[m.name] == Vm(Some("Creating"), aset))
                  && (got.reply.Found? ==> (d.err.None? <==> got.reply.vm.state == Some("Succeeded")))
                  && (got.reply.Found? && d.err.None? ==> m.name in got.w.vms && d.w == got.w)
                  && (got.reply.Found? && got.reply.vm.state == Some("Failed") ==> m.name !in d.w.vms))
  {
    hide Tick, RequestVirtualMachine, Reconciler.Delete, Accepted;
    var got, d := GetVm(o, w, m.name), CreateVirtualMachine(o, w, m, aset);
    ServedCall(o, w, m, v, w.clock, d.w.clock);
    if got.reply.Absent? {
      ServedRequest(o, got.w, m, aset, v, w.clock);
    } else if got.reply.Found? && got.reply.vm.state == Some("Failed") {
      Teardown.DeleteFaults(o, got.w, m);
      DeleteMoves(o, got.w, m);
      if Served(o, m, v, w.clock, d.w.clock) { ServedMeansFaultless(o, m, v, got.w.clock, d.w.clock); }
    }
    hide Served;
  }

  lemma {:induction false} LookupsTakeTime(o: Oracle, w: World, n: nat)
    ensures Lookups(o, w, n).clock == w.clock + n
    decreases n
  {
    if n > 0 { LookupsTakeTime(o, Tick(o, w), n - 1); }
  }

  lemma ServedUpdate(o: Oracle, w: World, m: Machine, lookups: nat, v: Visit)
    requires m.config.vnet != ""
    ensures var d, short := Reconciler.Update(o, w, m, lookups), Reconciler.Update(o, w, m, 0);
            && w.clock < short.w.clock <= d.w.clock && d.err == short.err
            && (Served(o, m, v, w.clock, short.w.clock) && m.name in w.vms && (v.request.Some? ==> v.request.value < w.clock) ==>
                  d.err.None?)
  {
    hide Tick, Served, Lookups;
    ServedCall(o, w, m, v, w.clock, Reconciler.Update(o, w, m, 0).w.clock);
    LookupsTakeTime(o, GetVm(o, w, m.name).w, lookups);
    LookupsTakeTime(o, GetVm(o, w, m.name).w, 0);
  }

  lemma ServedWithin(o: Oracle, m: Machine, v: Visit, from: nat, to: nat, a: nat, b: nat)
    requires Served(o, m, v, from, to) && from <= a && b <= to
    ensures Served(o, m, v, a, b)
  {
  }

  /** A Create whose calls go well gets its interface and its set. */
  lemma ServedPreparation(o: Oracle, w: World, m: Machine)
    requires CanBoot(m)
    ensures var nic, aset := CreateNetworkInterface(o, w, m), Prepared(o, w, m);
            && w.clock <= nic.w.clock <= aset.w.clock
            && w.clock <= CountedUntil(o, w, m)
            && (GoesWell(o, w, m) ==>
                  && IsReady(o, w, m) && (m.name in aset.w.vms <==> m.name in w.vms)
                  && Served(o, m, VisitOf(o, w, m), aset.w.clock, CountedUntil(o, w, m)))
  {
    hide CreateNetworkInterface, GetOrCreateAvailabilitySet, CreateVirtualMachine, Reconciler.Update, Served, RequestCall;
    var nic, aset, v := CreateNetworkInterface(o, w, m), Prepared(o, w, m), VisitOf(o, w, m);
    var to := CountedUntil(o, w, m);
    ServedNetwork(o, w, m, v);
    ServedSet(o, nic.w, m, v);
    if IsReady(o, w, m) {
      ServedBoot(o, aset.w, m, aset.name, v);
      ServedUpdate(o, CreateVirtualMachine(o, aset.w, m, aset.name).w, m, 0, v);
      assert v.request.Some? ==> aset.w.clock <= v.request.value by { RequestComesLater(o, aset.w, m); }
    }
    if GoesWell(o, w, m) {
      ServedWithin(o, m, v, w.clock, to, w.clock, nic.w.clock);
      if nic.err.None? { ServedWithin(o, m, v, w.clock, to, nic.w.clock, aset.w.clock); }
      ServedWithin(o, m, v, w.clock, to, aset.w.clock, to);
    }
  }

  lemma RequestComesLater(o: Oracle, w: World, m: Machine)
    ensures RequestCall(o, w, m).Some? ==> w.clock < RequestCall(o, w, m).value
  {
  }

  /** Against any adversary and from any state, a Create of a bootable machine fails only if one of its calls
      does not go well, or the machine is found unfinished. */
  lemma FailedCreateHadSetback(o: Oracle, w: World, m: Machine, lookups: nat)
    requires CanBoot(m)
    ensures var c := CreateMachine(o, w, m, lookups);
            && (GoesWell(o, w, m) ==> (c.err.None? <==> !FindsUnfinished(o, w, m)))
            && (c.err.Some? ==>
                  Setbacks(o, m, VisitOf(o, w, m), w.clock, CountedUntil(o, w, m)) > 0 || FindsUnfinished(o, w, m))
  {
    hide CreateNetworkInterface, GetOrCreateAvailabilitySet, CreateVirtualMachine, Reconciler.Update, Served, RequestCall, GetVm;
    var aset, v, to := Prepared(o, w, m), VisitOf(o, w, m), CountedUntil(o, w, m);
    NoSetbackMeansServed(o, m, v, w.clock, to);
    ServedPreparation(o, w, m);
    if GoesWell(o, w, m) {
      var vm := CreateVirtualMachine(o, aset.w, m, aset.name);
      ServedBoot(o, aset.w, m, aset.name, v);
      ServedUpdate(o, vm.w, m, lookups, v);
      ServedUpdate(o, vm.w, m, 0, v);
      ServedWithin(o, m, v, aset.w.clock, to, aset.w.clock, vm.w.clock);
      if vm.err.None? { ServedWithin(o, m, v, aset.w.clock, to, vm.w.clock, to); }
    }
  }

  // ------------------------------------------------------------ undisturbed attempts

  /** Azure keeps still at the calls numbered `from` up to `to`. */
  ghost predicate Still(o: Oracle, from: nat, to: nat) {
    forall t: nat :: from <= t < to ==> o(t).drift == map[]
  }

  lemma StillSpares(o: Oracle, w: World, v: World, from: nat, to: nat, x: string)
    requires Still(o, from, to) && from <= w.clock && v.clock <= to && Spares(o, w, v, x)
    ensures SameVm(w, v, x)
  {
    assert AzureSpares(o, x, w.clock, v.clock);
  }

  /** When all calls go well and Azure keeps still, whatever the answer about zones: a Create of a bootable machine that is
      not there boots it in the set it chose, a Create of a machine that has succeeded changes no virtual machine, and a
      Create of a Failed machine deletes it and fails. */
  lemma UndisturbedCreate(o: Oracle, w: World, m: Machine, lookups: nat)
    requires CanBoot(m) && GoesWell(o, w, m) && Still(o, w.clock, CreateMachine(o, w, m, lookups).w.clock)
    ensures var c := CreateMachine(o, w, m, lookups);
            && (m.name !in w.vms ==>
                  c.err.None? && c.w.vms == w.vms[m.name := Vm(Some("Creating"), Prepared(o, w, m).name)])
            && (m.name in w.vms && w.vms[m.name].state == Some("Succeeded") ==> c.err.None? && c.w.vms == w.vms)
            && (m.name in w.vms && w.vms[m.name].state == Some("Failed") ==> c.err.Some? && c.w.vms == w.vms - {m.name})
  {
    assert m.config.vnet != "";
    hide CreateNetworkInterface, GetOrCreateAvailabilitySet, CreateVirtualMachine, Reconciler.Update;
    hide Served, RequestCall, Still, Spares, GetVm, CanBoot;
    var aset, v, to := Prepared(o, w, m), VisitOf(o, w, m), CountedUntil(o, w, m);
    var vm, c := CreateVirtualMachine(o, aset.w, m, aset.name), CreateMachine(o, w, m, lookups);
    ServedPreparation(o, w, m);
    ServedBoot(o, aset.w, m, aset.name, v);
    ServedUpdate(o, vm.w, m, lookups, v);
    ServedUpdate(o, vm.w, m, 0, v);
    ServedWithin(o, m, v, aset.w.clock, to, aset.w.clock, vm.w.clock);
    FailedCreateHadSetback(o, w, m, lookups);
    GetVmTells(o, aset.w, m.name);
    StillUntilBoot(o, w, m, c.w.clock);
    if vm.err.None? {
      UpdateSpares(o, vm.w, m, lookups, m.name);
      StillSpares(o, vm.w, c.w, w.clock, c.w.clock, m.name);
    }
    forall x | x != m.name ensures SameVm(w, c.w, x) {
      CreateSpares(o, w, m, lookups, x);
      StillSpares(o, w, c.w, w.clock, c.w.clock, x);
    }
    SameVms(w, c.w, m);
  }

  /** The machine is as before when createVirtualMachine looks at it. */
  lemma StillUntilBoot(o: Oracle, w: World, m: Machine, to: nat)
    requires Still(o, w.clock, to) && GetVm(o, Prepared(o, w, m).w, m.name).w.clock <= to
    ensures SameVm(w, GetVm(o, Prepared(o, w, m).w, m.name).w, m.name)
  {
    hide CreateNetworkInterface, GetOrCreateAvailabilitySet, Still, Spares, Tick;
    var nic, aset := CreateNetworkInterface(o, w, m), Prepared(o, w, m);
    CreateNetworkInterfaceSpares(o, w, m, m.name);
    GetOrCreateAvailabilitySetSpares(o, nic.w, m, m.name);
    SparesTwice(o, w, nic.w, aset.w, m.name);
    TickSpares(o, aset.w, m.name);
    SparesTwice(o, w, aset.w, Tick(o, aset.w), m.name);
    StillSpares(o, w, Tick(o, aset.w), w.clock, to, m.name);
  }

  lemma GetVmTells(o: Oracle, w: World, name: string)
    ensures var got := GetVm(o, w, name);
            && (got.reply.Found? ==> name in got.w.vms && got.reply.vm == got.w.vms[name])
            && (got.reply.Absent? ==> name !in got.w.vms)
  {
    hide Tick;
  }

  /** Other machines as before make the virtual machines as before, but for the machine's own. */
  lemma SameVms(w: World, v: World, m: Machine)
    requires forall x :: x != m.name ==> SameVm(w, v, x)
    ensures m.name !in v.vms ==> v.vms == w.vms - {m.name}
    ensures m.name in v.vms ==> v.vms == w.vms[m.name := v.vms[m.name]]
  {
    assert forall x :: x in v.vms && x != m.name ==> SameVm(w, v, x);
    assert forall x :: x in w.vms && x != m.name ==> SameVm(w, v, x);
  }

  /** A Failed machine takes two undisturbed Creates: the first one deletes it, the second one boots it anew. */
  lemma FailedMachineIsRecreated(o: Oracle, w: World, m: Machine, lookups: nat)
    requires CanBoot(m) && m.name in w.vms && w.vms[m.name].state == Some("Failed")
    requires GoesWell(o, w, m) && Still(o, w.clock, CreateMachine(o, w, m, lookups).w.clock)
    requires var u := CreateMachine(o, w, m, lookups).w;
             GoesWell(o, u, m) && Still(o, u.clock, CreateMachine(o, u, m, lookups).w.clock)
    ensures var u := CreateMachine(o, w, m, lookups).w;
            var c := CreateMachine(o, u, m, lookups);
            c.err.None? && c.w.vms == w.vms[m.name := Vm(Some("Creating"), Prepared(o, u, m).name)]
  {
    hide CreateMachine, GoesWell, Still, CanBoot, Prepared;
    UndisturbedCreate(o, w, m, lookups);
    var u := CreateMachine(o, w, m, lookups).w;
    UndisturbedCreate(o, u, m, lookups);
    var vm := Vm(Some("Creating"), Prepared(o, u, m).name);
    assert (w.vms - {m.name})[m.name := vm] == w.vms[m.name := vm];
  }

  /** Whatever the adversary, the set that Create hands on is the user's, or none, or the generated one, which then exists;
      and when the call that asks for zones is answered, the answer and the configuration decide. */
  lemma ChosenSetIs(o: Oracle, w: World, m: Machine)
    requires IsReady(o, w, m) && !Refused(m)
    ensures var zones := CreateNetworkInterface(o, w, m).w.clock;
            Prepared(o, w, m).name ==
            if m.config.explicitSet != "" then m.config.explicitSet
            else if Zoneless in o(zones).yes && Generates(m) then m.GeneratedSet()
            else ""
    ensures Prepared(o, w, m).w.live == CreateNetworkInterface(o, w, m).w.live +
            if m.config.explicitSet == "" && Prepared(o, w, m).name != "" then {SetOf(m)} else {}
  {
    GeneratedSetIsNamed(m);
    TickMoves(o, CreateNetworkInterface(o, w, m).w);
    TickMoves(o, Tick(o, CreateNetworkInterface(o, w, m).w));
    hide CreateNetworkInterface, AvailabilitySetName, Tick;
  }

  // ------------------------------------------------------------ attempts against any adversary

  /** The Creates of one machine in a run: how many there were, how many returned nil, how many of their counted calls did
      not go well, and how many found the machine unfinished. */
  datatype CreateTally = CreateTally(attempts: nat, nils: nat, setbacks: nat, unfinished: nat)

  ghost function Creates(o: Oracle, cl: Runs.Cluster, p: Runs.Progress, ops: seq<Runs.Op>, name: string): CreateTally
    requires Runs.Feasible(cl, ops)
    decreases |ops|
  {
    if ops == [] then CreateTally(0, 0, 0, 0)
    else
      assert ops[0] in ops;
      var rest := Creates(o, cl, Runs.Step(o, cl, p, ops[0]), ops[1..], name);
      if !ops[0].Create? || ops[0].machine != name then rest
      else
        var m := cl.At(name);
        CreateTally(
          rest.attempts + 1,
          rest.nils + (if CreateMachine(o, p.w, m, ops[0].lookups).err.None? then 1 else 0),
          rest.setbacks + Setbacks(o, m, VisitOf(o, p.w, m), p.w.clock, CountedUntil(o, p.w, m)),
          rest.unfinished + if FindsUnfinished(o, p.w, m) then 1 else 0)
  }

  /** In any run, whatever other operations stand in between, the Creates of a bootable machine fail at most as often as
      their calls do not go well or they find the machine unfinished: with at most `F` of both, one of `F + 1` Creates
      returns nil. */
  lemma {:induction false} CreatesConverge(o: Oracle, cl: Runs.Cluster, p: Runs.Progress, ops: seq<Runs.Op>, name: string)
    requires Runs.Feasible(cl, ops) && name in cl.configs && CanBoot(cl.At(name))
    ensures var t := Creates(o, cl, p, ops, name);
            && t.attempts == |CreatesOf(ops, name)|
            && t.attempts <= t.nils + t.setbacks + t.unfinished
            && (t.attempts > t.setbacks + t.unfinished ==> t.nils > 0)
    decreases |ops|
  {
    hide CreateMachine, Runs.Step, FindsUnfinished, VisitOf, CountedUntil, GoesWell;
    if ops != [] {
      assert ops[0] in ops;
      CreatesConverge(o, cl, Runs.Step(o, cl, p, ops[0]), ops[1..], name);
      if ops[0].Create? && ops[0].machine == name {
        FailedCreateHadSetback(o, p.w, cl.At(name), ops[0].lookups);
      }
    }
  }

  /** The Creates of a machine among operations. */
  function CreatesOf(ops: seq<Runs.Op>, name: string): seq<Runs.Op> {
    if ops == [] then []
    else (if ops[0].Create? && ops[0].machine == name then [ops[0]] else []) + CreatesOf(ops[1..], name)
  }

  // ------------------------------------------------------------ what Exists says afterwards

  lemma BootLeaves(o: Oracle, w: World, m: Machine, aset: string)
    ensures var d, got := CreateVirtualMachine(o, w, m, aset), GetVm(o, w, m.name);
            d.err.None? && m.name in d.w.vms ==>
              if got.reply.Absent? then d.w.vms[m.name].state == Some("Creating")
              else d.w.vms[m.name].state == Some("Succeeded")
  {
    hide Tick, Delete, ResourceId.Validate, VmRequestFailure;
    var t := Tick(o, w);
    TickMoves(o, t);
    TickMoves(o, Tick(o, t));
  }

  /** When Create has returned nil and Azure leaves the machine alone, Exists reports it, unless its own call fails. */
  lemma NilCreateIsReported(o: Oracle, w: World, m: Machine, lookups: nat)
    requires var c := CreateMachine(o, w, m, lookups);
             c.err.None? && AzureSpares(o, m.name, w.clock, c.w.clock + 1) && o(c.w.clock).fault.None?
    ensures CheckExists(o, CreateMachine(o, w, m, lookups).w, m).answer == Exists
  {
    hide CreateNetworkInterface, GetOrCreateAvailabilitySet, CreateVirtualMachine, GetVm, Tick, CheckExists, Lookups;
    hide AzureSpares;
    var c := CreateMachine(o, w, m, lookups);
    var nic, aset := CreateNetworkInterface(o, w, m), Prepared(o, w, m);
    var vm := CreateVirtualMachine(o, aset.w, m, aset.name);
    CreateNetworkInterfaceSpares(o, w, m, m.name);
    GetOrCreateAvailabilitySetSpares(o, nic.w, m, m.name);
    BootTakesTime(o, aset.w, m, aset.name);
    BootLeaves(o, aset.w, m, aset.name);
    FoundIsThere(o, vm.w, m.name);
    GetVmSpares(o, vm.w, m.name, m.name);
    var got := GetVm(o, vm.w, m.name);
    LookupsSpare(o, got.w, lookups, m.name);
    SparedWithin(o, vm.w, got.w, m.name, w.clock, c.w.clock + 1);
    SparedWithin(o, got.w, c.w, m.name, w.clock, c.w.clock + 1);
    TickSpares(o, c.w, m.name);
    SparedWithin(o, c.w, Tick(o, c.w), m.name, w.clock, c.w.clock + 1);
    ExistsAnswers(o, c.w, m);
  }

  lemma GetVmSpares(o: Oracle, w: World, name: string, x: string)
    ensures Spares(o, w, GetVm(o, w, name).w, x)
  {
    TickSpares(o, w, x);
    hide Tick, Spares;
  }

  lemma BootTakesTime(o: Oracle, w: World, m: Machine, aset: string)
    ensures w.clock <= CreateVirtualMachine(o, w, m, aset).w.clock
  {
    hide Delete, ResourceId.Validate, VmRequestFailure;
    Teardown.DeleteFaults(o, Tick(o, w), m);
  }

  lemma SparedWithin(o: Oracle, a: World, b: World, x: string, from: nat, to: nat)
    requires Spares(o, a, b, x) && AzureSpares(o, x, from, to) && from <= a.clock && b.clock <= to
    ensures SameVm(a, b, x)
  {
  }
}
