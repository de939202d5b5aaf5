/** Teardown converges: Delete fails only when a call fails, and as often as calls fail. */
module Teardown {
  import opened Cloud
  import opened Errors
  import opened Lifecycle
  import opened Names
  import opened Reconciler
  import opened Wrappers
  import Runs

  /** How many of the calls numbered `from` up to `to` report a fault. */
  function Faults(o: Oracle, from: nat, to: nat): nat
    decreases to - from
  {
    if from >= to then 0 else (if o(from).fault.Some? then 1 else 0) + Faults(o, from + 1, to)
  }

  lemma {:induction false} FaultsSplit(o: Oracle, a: nat, b: nat, c: nat)
    requires a <= b <= c
    ensures Faults(o, a, c) == Faults(o, a, b) + Faults(o, b, c)
    decreases b - a
  {
    if a < b { FaultsSplit(o, a + 1, b, c); }
  }

  function Count(err: Option<Error>): nat {
    if err.Some? then 1 else 0
  }

  lemma DeleteAvailabilitySetFaults(o: Oracle, w: World, name: string)
    ensures var d := DeleteAvailabilitySet(o, w, name);
            && w.clock < d.w.clock && Faults(o, w.clock, d.w.clock) == Count(d.err)
            && (d.err.Some? ==> o(d.w.clock - 1).fault.Some?)
  {
    hide Occupied;
    var t := Tick(o, w);
    assert Faults(o, w.clock, w.clock + 1) == Count(o(w.clock).fault);
    FaultsSplit(o, w.clock, w.clock + 1, w.clock + 2);
  }

  lemma DropFaults(o: Oracle, w: World, r: Resource, start: nat)
    requires start <= w.clock
    ensures Drop(o, w, r).w.clock == w.clock + 1
    ensures Faults(o, start, w.clock + 1) == Faults(o, start, w.clock) + Count(Drop(o, w, r).err)
    ensures Drop(o, w, r).err.Some? ==> o(w.clock).fault.Some?
  {
    FaultsSplit(o, start, w.clock, w.clock + 1);
  }

  /** Delete returns nil exactly when no call failed, and otherwise exactly one call failed, the last one it made: it stops
      at the first failing call. Without a virtual network it never returns nil. */
  lemma DeleteFaults(o: Oracle, w: World, m: Machine)
    ensures var d := Delete(o, w, m);
            && w.clock < d.w.clock
            && (m.config.vnet != "" ==> Faults(o, w.clock, d.w.clock) == Count(d.err))
            && (m.config.vnet != "" && d.err.Some? ==> o(d.w.clock - 1).fault.Some?)
            && (m.config.vnet == "" ==> d.err.Some?)
  {
    hide Drop;
    hide DeleteAvailabilitySet;
    hide Tick;
    hide OSDiskName;
    hide NicName;
    hide PublicIpName;
    hide AvailabilitySetName;
    TickMoves(o, w);
    var vm := DropVm(o, w, m.name);
    assert vm.w.clock == w.clock + 1;
    assert Faults(o, w.clock, w.clock + 1) == Count(vm.err);
    hide Faults, DropVm, Machine.Ip;
    if vm.err.Some? { return; }
    var disk := Drop(o, vm.w, m.Disk());
    DropFaults(o, vm.w, m.Disk(), w.clock);
    if disk.err.Some? || m.config.vnet == "" { return; }
    var nic := Drop(o, disk.w, m.Interface());
    DropFaults(o, disk.w, m.Interface(), w.clock);
    if nic.err.Some? || (m.config.publicIp && m.Ip().None?) { return; }
    var ip := if m.config.publicIp then Drop(o, nic.w, m.Ip().value) else Out(nic.w, None);
    if m.config.publicIp { DropFaults(o, nic.w, m.Ip().value, w.clock); }
    if ip.err.Some? { return; }
    var aset := DeleteAvailabilitySet(o, ip.w, m.GeneratedSet());
    DeleteAvailabilitySetFaults(o, ip.w, m.GeneratedSet());
    FaultsSplit(o, w.clock, ip.w.clock, aset.w.clock);
  }

  /** Delete called again until it returns nil, at most `attempts` times. */
  function Retry(o: Oracle, w: World, m: Machine, attempts: nat): Out
    requires attempts > 0
    decreases attempts
  {
    var d := Delete(o, w, m);
    if d.err.None? || attempts == 1 then d else Retry(o, d.w, m, attempts - 1)
  }

  /** Within `F + 1` attempts Delete returns nil if at most `F` calls fail: `attempts` failures in a row
      cost exactly that many failing calls, and fewer failing calls mean success. */
  lemma {:induction false} TeardownConverges(o: Oracle, w: World, m: Machine, attempts: nat)
    requires attempts > 0 && m.config.vnet != ""
    ensures var r := Retry(o, w, m, attempts);
            && w.clock < r.w.clock
            && (r.err.None? <==> Faults(o, w.clock, r.w.clock) < attempts)
            && Faults(o, w.clock, r.w.clock) <= attempts
    decreases attempts
  {
    hide Delete;
    var d := Delete(o, w, m);
    DeleteFaults(o, w, m);
    if d.err.Some? && attempts > 1 {
      TeardownConverges(o, d.w, m, attempts - 1);
      FaultsSplit(o, w.clock, d.w.clock, Retry(o, d.w, m, attempts - 1).w.clock);
    }
  }

  /** The Deletes of one machine in a run: how many there were, how many returned nil, and how many of their calls failed. */
  datatype DeleteTally = DeleteTally(attempts: nat, nils: nat, faults: nat)

  ghost function Deletes(o: Oracle, cl: Runs.Cluster, p: Runs.Progress, ops: seq<Runs.Op>, name: string): DeleteTally
    requires Runs.Feasible(cl, ops)
    decreases |ops|
  {
    if ops == [] then DeleteTally(0, 0, 0)
    else
      assert ops[0] in ops;
      var rest := Deletes(o, cl, Runs.Step(o, cl, p, ops[0]), ops[1..], name);
      if ops[0] != Runs.Op.Delete(name) then rest
      else
        var d := Delete(o, p.w, cl.At(name));
        DeleteTally(rest.attempts + 1, rest.nils + (if d.err.None? then 1 else 0), rest.faults + Faults(o, p.w.clock, d.w.clock))
  }

  /** In any run, whatever other operations on whatever machines stand in between, every Delete of the machine returns nil
      or has exactly one failing call: if at most `F` calls of its Deletes fail, one of `F + 1` returns nil. */
  lemma {:induction false} DeletesConverge(o: Oracle, cl: Runs.Cluster, p: Runs.Progress, ops: seq<Runs.Op>, name: string)
    requires Runs.Feasible(cl, ops) && name in cl.configs && cl.configs[name].vnet != ""
    ensures var t := Deletes(o, cl, p, ops, name);
            && t.attempts == multiset(ops)[Runs.Op.Delete(name)]
            && t.attempts == t.nils + t.faults
            && (t.attempts > t.faults ==> t.nils > 0)
    decreases |ops|
  {
    hide Delete, Runs.Step;
    if ops != [] {
      assert ops[0] in ops && ops == [ops[0]] + ops[1..];
      DeletesConverge(o, cl, Runs.Step(o, cl, p, ops[0]), ops[1..], name);
      DeleteFaults(o, p.w, cl.At(name));
    }
  }

  /** Without a virtual network no number of attempts is enough, and none is needed: nothing was ever created. */
  lemma {:induction false} WithoutVnetNeverDone(o: Oracle, w: World, m: Machine, attempts: nat)
    requires attempts > 0 && m.config.vnet == "" && Ordered(w, m)
    ensures Retry(o, w, m, attempts).err.Some?
    ensures m.name !in w.vms && m.Disk() !in w.live && m.Interface() !in w.live
    decreases attempts
  {
    hide Delete;
    var d := Delete(o, w, m);
    DeleteFaults(o, w, m);
    if attempts > 1 {
      DeleteMoves(o, w, m);
      WithoutVnetNeverDone(o, d.w, m, attempts - 1);
    }
  }

  /** Once nothing of the machine is left, a further Delete leaves every resource but an unused availability set as it was. */
  lemma DeleteAgain(o: Oracle, w: World, m: Machine)
    requires Clean(w, m)
    ensures var d := Delete(o, w, m).w;
            && Clean(d, m)
            && (d.live == w.live || (d.live == w.live - {SetOf(m)} && !Occupied(d, m.GeneratedSet())))
  {
    hide Delete;
    hide OSDiskName;
    hide NicName;
    hide PublicIpName;
    hide AvailabilitySetName;
    DeleteMoves(o, w, m);
  }

  /** Every attempt takes away a prefix of: virtual machine, disk, interface, public IP. */
  lemma DeleteFollowsOrder(o: Oracle, w: World, m: Machine)
    ensures var v := Delete(o, w, m).w;
            && v.live <= w.live && v.vms.Keys <= w.vms.Keys
            && (m.Disk() in w.live && m.Disk() !in v.live ==> m.name !in v.vms)
            && (m.Interface() in w.live && m.Interface() !in v.live ==> m.name !in v.vms && m.Disk() !in v.live)
            && (IpOf(m) in w.live && IpOf(m) !in v.live ==>
                  m.name !in v.vms && m.Disk() !in v.live && m.Interface() !in v.live)
  {
    hide Delete;
    DeleteMoves(o, w, m);
  }
}
