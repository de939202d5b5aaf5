/** Whole runs: any sequence of operations on any machines of a cluster, one at a time, against any adversary. */
module Runs {
  import opened Cloud
  import opened Errors
  import opened Isolation
  import opened Lifecycle
  import opened Names
  import opened Reconciler
  import opened Verdicts
  import opened Wrappers

  /** A cluster with the fixed configurations of its machines, and the availability sets its users created. */
  datatype Cluster = Cluster(name: string, configs: map<string, Config>, userSets: set<string>) {

    function At(name: string): Machine
      requires name in configs
    {
      Machine(this.name, name, configs[name])
    }
  }

  datatype Op =
    | Create(machine: string, lookups: nat)
    | Update(machine: string, lookups: nat)
    | Delete(machine: string)
    | Check(machine: string)

  /** The cloud, and the machines on which Create was called since Delete last returned nil. */
  datatype Progress = Progress(w: World, dirty: set<string>)

  function Step(o: Oracle, cl: Cluster, p: Progress, op: Op): Progress
    requires op.machine in cl.configs
  {
    var m := cl.At(op.machine);
    match op
    case Create(name, lookups) => Progress(CreateMachine(o, p.w, m, lookups).w, p.dirty + {name})
    case Update(_, lookups) => Progress(Reconciler.Update(o, p.w, m, lookups).w, p.dirty)
    case Delete(name) =>
      var d := Reconciler.Delete(o, p.w, m);
      Progress(d.w, if d.err.None? then p.dirty - {name} else p.dirty)
    case Check(_) => Progress(CheckExists(o, p.w, m).w, p.dirty)
  }

  ghost predicate Feasible(cl: Cluster, ops: seq<Op>) {
    forall op :: op in ops ==> op.machine in cl.configs
  }

  function Run(o: Oracle, cl: Cluster, p: Progress, ops: seq<Op>): Progress
    requires Feasible(cl, ops)
    decreases |ops|
  {
    if ops == [] then p
    else
      assert ops[0] in ops;
      Run(o, cl, Step(o, cl, p, ops[0]), ops[1..])
  }

  /** Nothing exists but what the users created. */
  function Start(cl: Cluster): Progress {
    Progress(World(map[], set n | n in cl.userSets :: AvailabilitySet(n), 0, multiset{}, multiset{}, multiset{}, 0), {})
  }

  /** No machine that can boot is told to use a set the controller generates for others and no user made,
      unless that is also the name generated for itself. */
  ghost predicate SetsApart(cl: Cluster) {
    forall a, b :: a in cl.configs && b in cl.configs ==> !Borrows(cl, cl.At(a), cl.At(b))
  }

  predicate Borrows(cl: Cluster, a: Machine, b: Machine) {
    && CanBoot(a) && Generates(b) && b.GeneratedSet() !in cl.userSets
    && a.config.explicitSet == b.GeneratedSet() && a.GeneratedSet() != a.config.explicitSet
  }

  /** The machine may use the availability set, and will ask for it when it is deleted. */
  ghost predicate Holds(m: Machine, n: string) {
    Claims(m) && m.GeneratedSet() == n && (Generates(m) || m.config.explicitSet == n)
  }

  /** Some machine with unfinished business will ask for the availability set. */
  ghost predicate Accounted(cl: Cluster, dirty: set<string>, n: string) {
    exists k :: k in dirty && k in cl.configs && Holds(cl.At(k), n)
  }

  ghost predicate SomeGenerate(cl: Cluster, n: string) {
    exists k :: k in cl.configs && Generates(cl.At(k)) && cl.At(k).GeneratedSet() == n
  }

  ghost predicate NeverClaimed(cl: Cluster, n: string) {
    forall k :: k in cl.configs && Claims(cl.At(k)) ==> cl.At(k).GeneratedSet() != n
  }

  /** What every reachable state satisfies. */
  ghost predicate Inv(cl: Cluster, p: Progress) {
    && p.w.vms.Keys <= cl.configs.Keys
    && (forall k :: k in cl.configs ==> Good(p.w, cl.At(k)))
    && (forall k :: k in cl.configs && k !in p.dirty ==> Clean(p.w, cl.At(k)))
    && (forall n :: AvailabilitySet(n) in p.w.live && n !in cl.userSets ==>
          SomeGenerate(cl, n) && (SetsApart(cl) ==> Accounted(cl, p.dirty, n)))
    && (forall n :: n in cl.userSets && NeverClaimed(cl, n) ==> AvailabilitySet(n) in p.w.live)
  }

  lemma StartIsGood(cl: Cluster)
    ensures Inv(cl, Start(cl))
  {
  }

  lemma ConfinedKeepsOthersClean(w: World, v: World, m: Machine, x: Machine)
    requires Confined(w, v, m) && m.cluster == x.cluster && m.name != x.name && Clean(w, x)
    ensures Clean(v, x)
  {
    SiblingsShareNothing(m, x);
  }

  lemma CreateKeepsInv(o: Oracle, cl: Cluster, p: Progress, name: string, lookups: nat)
    requires name in cl.configs && Inv(cl, p)
    ensures Inv(cl, Step(o, cl, p, Create(name, lookups)))
  {
    hide CreateMachine;
    hide Good;
    hide Clean;
    hide Machine.GeneratedSet;
    hide Occupied;
    var m := cl.At(name);
    var q := Step(o, cl, p, Create(name, lookups));
    CreateIsConfined(o, p.w, m, lookups);
    forall k | k in cl.configs ensures Good(q.w, cl.At(k)) { CreateKeepsGood(o, p.w, m, cl.At(k), lookups); }
    forall k | k in cl.configs && k !in q.dirty ensures Clean(q.w, cl.At(k)) {
      ConfinedKeepsOthersClean(p.w, q.w, m, cl.At(k));
    }
    forall n | AvailabilitySet(n) in q.w.live && n !in cl.userSets
      ensures SomeGenerate(cl, n) && (SetsApart(cl) ==> Accounted(cl, q.dirty, n))
    {
      if AvailabilitySet(n) in p.w.live {
        assert Accounted(cl, p.dirty, n) ==> Accounted(cl, q.dirty, n);
      } else {
        assert Generates(m) && Holds(m, n) && name in q.dirty;
      }
    }
  }

  lemma BootableClaims(m: Machine)
    ensures CanBoot(m) || Generates(m) ==> Claims(m)
  {
  }

  /** When Delete returns nil, an availability set this machine accounted for is gone, or accounted for by another. */
  lemma DeleteHandsOver(o: Oracle, cl: Cluster, p: Progress, name: string, n: string)
    requires name in cl.configs && Inv(cl, p) && SetsApart(cl)
    requires var d := Reconciler.Delete(o, p.w, cl.At(name)); d.err.None? && AvailabilitySet(n) in d.w.live
    requires n !in cl.userSets
    ensures Accounted(cl, p.dirty - {name}, n)
  {
    hide Reconciler.Delete;
    hide Machine.GeneratedSet;
    hide OSDiskName;
    hide NicName;
    hide PublicIpName;
    hide CanBoot;
    hide Generates;
    hide Claims;
    hide Ordered;
    hide Tallied;
    var m := cl.At(name);
    var d := Reconciler.Delete(o, p.w, m);
    DeleteMoves(o, p.w, m);
    assert Accounted(cl, p.dirty, n);
    var k :| k in p.dirty && k in cl.configs && Holds(cl.At(k), n);
    if k == name {
      var v :| v in d.w.vms && d.w.vms[v].aset == n;
      DeleteKeepsGood(o, p.w, m, cl.At(v));
      GeneratedSetIsNamed(m);
      BootableClaims(cl.At(v));
      assert v in p.dirty - {name} && Placed(d.w, cl.At(v));
      var b :| b in cl.configs && Generates(cl.At(b)) && cl.At(b).GeneratedSet() == n;
      assert !Borrows(cl, cl.At(v), cl.At(b));
      assert Holds(cl.At(v), n);
    }
  }

  lemma DeleteKeepsInv(o: Oracle, cl: Cluster, p: Progress, name: string)
    requires name in cl.configs && Inv(cl, p)
    ensures Inv(cl, Step(o, cl, p, Delete(name)))
  {
    hide Reconciler.Delete;
    hide Good;
    hide Machine.GeneratedSet;
    hide Occupied;
    hide OSDiskName;
    hide NicName;
    hide PublicIpName;
    var m := cl.At(name);
    var q := Step(o, cl, p, Delete(name));
    DeleteMoves(o, p.w, m);
    forall k | k in cl.configs ensures Good(q.w, cl.At(k)) { DeleteKeepsGood(o, p.w, m, cl.At(k)); }
    forall k | k in cl.configs && k !in q.dirty ensures Clean(q.w, cl.At(k)) {
      if k in p.dirty { GoodIsOrdered(p.w, m); DeleteCleans(o, p.w, m); }
    }
    if SetsApart(cl) && Reconciler.Delete(o, p.w, m).err.None? {
      forall n | AvailabilitySet(n) in q.w.live && n !in cl.userSets ensures Accounted(cl, q.dirty, n) {
        DeleteHandsOver(o, cl, p, name, n);
      }
    }
  }

  lemma GoodIsOrdered(w: World, m: Machine)
    requires Good(w, m)
    ensures Ordered(w, m)
  {
  }

  /** Update and Exists change nothing but what Azure changes meanwhile. */
  lemma ReadsKeepInv(o: Oracle, cl: Cluster, p: Progress, op: Op)
    requires op.machine in cl.configs && Inv(cl, p) && (op.Update? || op.Check?)
    ensures Inv(cl, Step(o, cl, p, op))
  {
    hide Reconciler.Update;
    hide GetVm;
    hide Good;
    hide Machine.GeneratedSet;
    hide OSDiskName;
    hide NicName;
    hide PublicIpName;
    var m := cl.At(op.machine);
    var q := Step(o, cl, p, op);
    if op.Update? { UpdateMoves(o, p.w, m, op.lookups); } else { GetVmMoves(o, p.w, m.name); }
    forall k | k in cl.configs ensures Good(q.w, cl.At(k)) { MovedKeepsGood(p.w, q.w, cl.At(k), {}); }
  }

  lemma StepKeepsInv(o: Oracle, cl: Cluster, p: Progress, op: Op)
    requires op.machine in cl.configs && Inv(cl, p)
    ensures Inv(cl, Step(o, cl, p, op))
  {
    hide Step, Inv;
    match op {
      case Create(name, lookups) => CreateKeepsInv(o, cl, p, name, lookups);
      case Delete(name) => DeleteKeepsInv(o, cl, p, name);
      case _ => ReadsKeepInv(o, cl, p, op);
    }
  }

  /** The invariant holds after every run from any state that satisfies it, against every adversary. */
  lemma {:induction false} RunKeepsInv(o: Oracle, cl: Cluster, p: Progress, ops: seq<Op>)
    requires Feasible(cl, ops) && Inv(cl, p)
    ensures Inv(cl, Run(o, cl, p, ops))
    decreases |ops|
  {
    hide Step;
    hide Inv;
    if ops != [] {
      assert ops[0] in ops;
      StepKeepsInv(o, cl, p, ops[0]);
      RunKeepsInv(o, cl, Step(o, cl, p, ops[0]), ops[1..]);
    }
  }

  // ------------------------------------------------------------ what follows for runs from the start

  ghost predicate Reachable(o: Oracle, cl: Cluster, p: Progress) {
    exists ops :: Feasible(cl, ops) && p == Run(o, cl, Start(cl), ops)
  }

  lemma ReachableIsGood(o: Oracle, cl: Cluster, p: Progress)
    requires Reachable(o, cl, p)
    ensures Inv(cl, p)
  {
    hide Inv;
    var ops :| Feasible(cl, ops) && p == Run(o, cl, Start(cl), ops);
    StartIsGood(cl);
    RunKeepsInv(o, cl, Start(cl), ops);
  }

  /** Dependency order: in every reachable state a virtual machine has its disk, a disk its interface, and the interface of
      a machine with a public IP has that IP. */
  lemma DependencyOrder(o: Oracle, cl: Cluster, p: Progress, name: string)
    requires Reachable(o, cl, p) && name in cl.configs
    ensures Ordered(p.w, cl.At(name))
  {
    ReachableIsGood(o, cl, p);
    assert Good(p.w, cl.At(name));
  }

  /** No leak: in every reachable state, nothing is left of a machine on which Create was not called since Delete
      last returned nil. */
  lemma NoLeak(o: Oracle, cl: Cluster, p: Progress, name: string)
    requires Reachable(o, cl, p) && name in cl.configs && name !in p.dirty
    ensures Clean(p.w, cl.At(name))
  {
    hide Good, Clean;
    ReachableIsGood(o, cl, p);
  }

  /** From the moment Delete returns nil, nothing is left of the machine until the next Create, whatever happens to others. */
  lemma DeletedStaysDeleted(o: Oracle, cl: Cluster, p: Progress, name: string, ops: seq<Op>)
    requires Reachable(o, cl, p) && name in cl.configs && Feasible(cl, ops)
    requires Reconciler.Delete(o, p.w, cl.At(name)).err.None?
    requires forall op :: op in ops && op.Create? ==> op.machine != name
    ensures Clean(Run(o, cl, Step(o, cl, p, Delete(name)), ops).w, cl.At(name))
  {
    hide Inv;
    hide Clean;
    hide Reconciler.Delete;
    ReachableIsGood(o, cl, p);
    DeleteKeepsInv(o, cl, p, name);
    var q := Step(o, cl, p, Delete(name));
    assert name !in q.dirty;
    RunKeepsInv(o, cl, q, ops);
    StaysOffTheBooks(o, cl, q, ops, name);
    InvGivesClean(cl, Run(o, cl, q, ops), name);
  }

  /** In every reachable state, Exists reports a machine missing, or its lookup failed, when Create was not called since
      Delete last returned nil. */
  lemma DeletedIsReportedMissing(o: Oracle, cl: Cluster, p: Progress, name: string)
    requires Reachable(o, cl, p) && name in cl.configs && name !in p.dirty
    ensures var x := CheckExists(o, p.w, cl.At(name));
            if o(p.w.clock).fault.None? then x.answer == Missing else x.answer.Failed?
  {
    NoLeak(o, cl, p, name);
    ExistsAnswers(o, p.w, cl.At(name));
    TickMoves(o, p.w);
    hide Tick, CheckExists, Reachable;
  }

  lemma InvGivesClean(cl: Cluster, p: Progress, name: string)
    requires Inv(cl, p) && name in cl.configs && name !in p.dirty
    ensures Clean(p.w, cl.At(name))
  {
  }

  lemma {:induction false} StaysOffTheBooks(o: Oracle, cl: Cluster, p: Progress, ops: seq<Op>, name: string)
    requires Feasible(cl, ops) && name !in p.dirty
    requires forall op :: op in ops && op.Create? ==> op.machine != name
    ensures name !in Run(o, cl, p, ops).dirty
    decreases |ops|
  {
    hide CreateMachine;
    hide Reconciler.Delete;
    hide Reconciler.Update;
    hide CheckExists;
    if ops != [] {
      assert ops[0] in ops;
      StaysOffTheBooks(o, cl, Step(o, cl, p, ops[0]), ops[1..], name);
    }
  }

  /** No overwriting: a create request never meets an existing virtual machine, and over any run a machine comes into
      being at most once more than it disappears. */
  lemma CreatesAreBounded(o: Oracle, cl: Cluster, p: Progress, name: string)
    requires Reachable(o, cl, p) && name in cl.configs
    ensures p.w.overwrites == 0
    ensures p.w.appeared[name] <= 1 + p.w.vanished[name]
    ensures p.w.appeared[name] == 1 + p.w.vanished[name] <==> name in p.w.vms
    ensures p.w.appeared[name] <= p.w.requests[name]
  {
    ReachableIsGood(o, cl, p);
    assert Good(p.w, cl.At(name));
  }

  /** A virtual machine that was placed in a generated availability set is in an existing set. */
  lemma GeneratedSetsExist(o: Oracle, cl: Cluster, p: Progress, name: string)
    requires Reachable(o, cl, p) && name in p.w.vms
    ensures name in cl.configs
    ensures cl.configs[name].explicitSet == "" && p.w.vms[name].aset != "" ==>
              && p.w.vms[name].aset == cl.At(name).GeneratedSet()
              && AvailabilitySet(p.w.vms[name].aset) in p.w.live
  {
    ReachableIsGood(o, cl, p);
    assert Good(p.w, cl.At(name));
  }

  /** No operation, on any machine, takes away an availability set that has a virtual machine in it. */
  lemma OccupiedSetsStay(o: Oracle, cl: Cluster, p: Progress, op: Op)
    requires op.machine in cl.configs
    ensures KeepsSets(p.w, Step(o, cl, p, op).w)
  {
    hide CreateMachine;
    hide Reconciler.Delete;
    hide Reconciler.Update;
    hide GetVm;
    hide OwnedBy;
    var m := cl.At(op.machine);
    match op
    case Create(_, lookups) => CreateIsConfined(o, p.w, m, lookups);
    case Delete(_) => DeleteIsConfined(o, p.w, m);
    case Update(_, lookups) => UpdateMoves(o, p.w, m, lookups);
    case Check(_) => GetVmMoves(o, p.w, m.name);
  }

  /** No operation on other machines touches what belongs to `name`: its virtual machine is as before unless Azure
      changed it, and its disk, interface and public IP are there exactly if they were. */
  ghost predicate LeftAlone(o: Oracle, w: World, v: World, m: Machine) {
    && Spares(o, w, v, m.name)
    && forall r :: r in {m.Disk(), m.Interface(), IpOf(m)} ==> (r in w.live <==> r in v.live)
  }

  lemma StepLeavesAlone(o: Oracle, cl: Cluster, p: Progress, op: Op, name: string)
    requires op.machine in cl.configs && name in cl.configs && op.machine != name
    ensures LeftAlone(o, p.w, Step(o, cl, p, op).w, cl.At(name))
  {
    hide CreateMachine, Reconciler.Delete, Reconciler.Update, CheckExists, Spares;
    hide OSDiskName, NicName, PublicIpName, AvailabilitySetName;
    var m := cl.At(op.machine);
    SiblingsShareNothing(m, cl.At(name));
    match op
    case Create(_, lookups) => CreateIsConfined(o, p.w, m, lookups);
    case Delete(_) => DeleteIsConfined(o, p.w, m);
    case Update(_, lookups) =>
      UpdateMoves(o, p.w, m, lookups);
      UpdateSpares(o, p.w, m, lookups, name);
    case Check(_) =>
      CheckMoves(o, p.w, m);
      CheckExistsSpares(o, p.w, m, name);
  }

  lemma CheckMoves(o: Oracle, w: World, m: Machine)
    ensures Moved(w, CheckExists(o, w, m).w, {}, {})
  {
    hide GetVm, Moved;
    GetVmMoves(o, w, m.name);
  }

  lemma LeftAloneTwice(o: Oracle, a: World, b: World, c: World, m: Machine)
    requires LeftAlone(o, a, b, m) && LeftAlone(o, b, c, m)
    ensures LeftAlone(o, a, c, m)
  {
    SparesTwice(o, a, b, c, m.name);
    hide Spares;
  }

  /** Isolation: a run of operations on other machines leaves a machine alone, from any state and whatever fails. */
  lemma {:induction false} BystandersAreLeftAlone(o: Oracle, cl: Cluster, p: Progress, ops: seq<Op>, name: string)
    requires Feasible(cl, ops) && name in cl.configs
    requires forall op :: op in ops ==> op.machine != name
    ensures LeftAlone(o, p.w, Run(o, cl, p, ops).w, cl.At(name))
    decreases |ops|
  {
    if ops == [] {
      NothingSpares(o, p.w, name);
    } else {
      hide Step, LeftAlone;
      assert ops[0] in ops;
      var q := Step(o, cl, p, ops[0]);
      StepLeavesAlone(o, cl, p, ops[0], name);
      BystandersAreLeftAlone(o, cl, q, ops[1..], name);
      LeftAloneTwice(o, p.w, q.w, Run(o, cl, p, ops).w, cl.At(name));
    }
  }

  /** Once Delete has returned nil for every machine, only the users' availability sets are left,
      provided no machine borrows another's generated set. */
  lemma NoSetLeak(o: Oracle, cl: Cluster, p: Progress)
    requires Reachable(o, cl, p) && p.dirty == {} && SetsApart(cl)
    ensures forall n :: AvailabilitySet(n) in p.w.live ==> n in cl.userSets
  {
    hide Good;
    ReachableIsGood(o, cl, p);
  }

  /** A user's availability set survives every run unless its name is one the controller generates. */
  lemma UserSetsSurvive(o: Oracle, cl: Cluster, p: Progress, n: string)
    requires Reachable(o, cl, p) && n in cl.userSets && NeverClaimed(cl, n)
    ensures AvailabilitySet(n) in p.w.live
  {
    hide Good;
    ReachableIsGood(o, cl, p);
  }
}
