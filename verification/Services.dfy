/** The service clients as an object whose methods change the remote state in place. */
module Services {
  import opened Cloud
  import opened Errors
  import opened Wrappers

  /** The cloud behind the service clients. Each method is one service call. */
  class AzureCloud {
    const oracle: Oracle
    var vms: map<string, Vm>
    var live: set<Resource>
    var clock: nat
    var requests: multiset<string>
    var appeared: multiset<string>
    var vanished: multiset<string>
    var overwrites: nat

    function Now(): World
      reads this
    {
      World(vms, live, clock, requests, appeared, vanished, overwrites)
    }

    constructor (oracle: Oracle, userSets: set<string>)
      ensures Now() == World(map[], set n | n in userSets :: AvailabilitySet(n), 0, multiset{}, multiset{}, multiset{}, 0)
      ensures this.oracle == oracle
    {
      this.oracle := oracle;
      vms, live, clock := map[], set n | n in userSets :: AvailabilitySet(n), 0;
      requests, appeared, vanished, overwrites := multiset{}, multiset{}, multiset{}, 0;
    }

    method Settle() returns (a: Answer)
      modifies this
      ensures Now() == Tick(oracle, old(Now())) && a == oracle(old(clock))
    {
      a := oracle(clock);
      var gone := Gone(vms, a.drift);
      vms := map m | m in vms && m !in gone :: if m in a.drift && a.drift[m].Some? then Vm(a.drift[m].value, vms[m].aset) else vms[m];
      vanished := vanished + multiset(gone);
      clock := clock + 1;
    }

    method Probe(q: Question) returns (err: Option<Error>, yes: bool)
      modifies this
      ensures ProbeOut(Now(), err, yes) == Cloud.Probe(oracle, old(Now()), q)
    {
      var a := Settle();
      err, yes := a.fault, q in a.yes;
    }

    method Upsert(r: Resource) returns (err: Option<Error>)
      modifies this
      ensures Out(Now(), err) == Cloud.Upsert(oracle, old(Now()), r)
    {
      var a := Settle();
      err := a.fault;
      if err.None? || a.landed { live := live + {r}; }
    }

    method Drop(r: Resource) returns (err: Option<Error>)
      modifies this
      ensures Out(Now(), err) == Cloud.Drop(oracle, old(Now()), r)
    {
      var a := Settle();
      err := a.fault;
      if err.None? || a.landed { live := live - {r}; }
    }

    method GetVm(m: string) returns (reply: VmReply)
      modifies this
      ensures VmOut(Now(), reply) == Cloud.GetVm(oracle, old(Now()), m)
    {
      var a := Settle();
      if a.fault.Some? { return Unreachable(NotPlain404(a.fault.value)); }
      if m in vms { return Found(vms[m]); }
      reply := Absent(NOT_FOUND);
    }

    method DropVm(m: string) returns (err: Option<Error>)
      modifies this
      ensures Out(Now(), err) == Cloud.DropVm(oracle, old(Now()), m)
    {
      var a := Settle();
      err := a.fault;
      if err.None? || a.landed {
        if m in vms { vanished := vanished + multiset{m}; }
        vms := vms - {m};
      }
    }

    method CreateVm(m: string, disk: Resource, aset: string) returns (err: Option<Error>)
      modifies this
      ensures Out(Now(), err) == Cloud.CreateVm(oracle, old(Now()), m, disk, aset)
    {
      var a := Settle();
      err := a.fault;
      requests := requests + multiset{m};
      overwrites := overwrites + if m in vms then 1 else 0;
      assert Now() == Asked(Tick(oracle, old(Now())), m);
      if err.None? || a.landed {
        appeared := if m in vms then appeared else appeared + multiset{m};
        vms := vms[m := Vm(Some("Creating"), aset)];
        live := live + {disk};
      } else if a.diskLanded {
        live := live + {disk};
      }
    }

    method DeleteAvailabilitySet(name: string) returns (err: Option<Error>)
      modifies this
      ensures Out(Now(), err) == Cloud.DeleteAvailabilitySet(oracle, old(Now()), name)
    {
      var a := Settle();
      if a.fault.Some? { return Some(Wrapped(NotPlain404(a.fault.value))); }
      if AvailabilitySet(name) !in live || Occupied(Now(), name) { return None; }
      err := Drop(AvailabilitySet(name));
      if err.Some? { err := Some(Wrapped(NotPlain404(err.value))); }
    }
  }
}
