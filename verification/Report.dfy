/** What the machine object says and what the cloud holds: one run of the reconciler seen from both sides. */
module Report {
  import opened Cloud
  import opened Conditions
  import opened Creation
  import opened Lifecycle
  import opened Reconciler
  import opened Wrappers
  import Addresses
  import Runs
  import Scope

  /** An operation on the machine, with what the API tells beyond what steers the reconciler, or any operation on
      another machine, or a check for existence. */
  datatype Op =
    | Create(first: Scope.VmView, final: Scope.VmView, message: string, lookups: nat, at: nat)
    | Update(final: Scope.VmView, lookups: nat, at: nat)
    | Delete
    | Other(op: Runs.Op)

  datatype Both = Both(p: Runs.Progress, st: Scope.State)

  /** The machine under view, in its cluster. */
  datatype Subject = Subject(cl: Runs.Cluster, name: string, setup: Scope.Setup) {

    ghost predicate Valid() {
      name in cl.configs && setup.vnet == cl.configs[name].vnet
    }

    function Machine(): Machine
      requires name in cl.configs
    {
      cl.At(name)
    }

    ghost predicate Allows(op: Op) {
      op.Other? ==> op.op.machine in cl.configs && (op.op.machine != name || op.op.Check?)
    }
  }

  // ------------------------------------------------------------ one operation, on both sides

  /** The view of a virtual machine with this state. Every virtual machine has a network profile. */
  function Told(vm: Vm, v: Scope.VmView): Scope.VmView {
    v.(provisioning := vm.state, interfaces := if v.interfaces.Some? then v.interfaces else Some([]))
  }

  function Answered(o: Oracle, w: World, m: Machine, v: Scope.VmView): Option<Scope.VmView> {
    var reply := GetVm(o, w, m.name).reply;
    if reply.Found? then Some(Told(reply.vm, v)) else None
  }

  /** What the machine object gets to see of a Create. */
  function CreationSeen(o: Oracle, w: World, m: Machine, first: Scope.VmView, final: Scope.VmView, message: string): Scope.Creation {
    var aset := Prepared(o, w, m);
    var vm, reply := CreateVirtualMachine(o, aset.w, m, aset.name), GetVm(o, aset.w, m.name).reply;
    Scope.Creation(
      if !IsReady(o, w, m) || !m.config.sshKeyDecodes || reply.Unreachable? then Scope.Refused
      else if reply.Found? then Scope.Seen(Told(reply.vm, first))
      else if vm.err.None? then Scope.Requested else Scope.Refused,
      Answered(o, vm.w, m, final), message)
  }

  function CloudOp(op: Op, name: string): Runs.Op {
    match op
    case Create(_, _, _, lookups, _) => Runs.Create(name, lookups)
    case Update(_, lookups, _) => Runs.Update(name, lookups)
    case Delete => Runs.Delete(name)
    case Other(other) => other
  }

  function ScopeStep(o: Oracle, w: World, s: Subject, st: Scope.State, op: Op): Scope.State
    requires s.name in s.cl.configs
  {
    match op
    case Create(first, final, message, _, at) => Scope.Create(st, s.setup, CreationSeen(o, w, s.Machine(), first, final, message), at)
    case Update(final, _, at) => Scope.Update(st, s.setup, Answered(o, w, s.Machine(), final), at)
    case Delete => Scope.BeginDelete(st)
    case Other(_) => st
  }

  ghost function Step(o: Oracle, s: Subject, b: Both, op: Op): Both
    requires s.Valid() && s.Allows(op)
  {
    Both(Runs.Step(o, s.cl, b.p, CloudOp(op, s.name)), ScopeStep(o, b.p.w, s, b.st, op))
  }

  /** The operation ends well, as the reconciler reports it. */
  predicate Succeeds(o: Oracle, w: World, m: Machine, op: Op) {
    match op
    case Create(_, _, _, lookups, _) => CreateMachine(o, w, m, lookups).err.None?
    case Update(_, lookups, _) => Reconciler.Update(o, w, m, lookups).err.None?
    case _ => false
  }

  /** Both sides agree on whether a Create succeeds. */
  lemma CreatesAgree(o: Oracle, w: World, s: Subject, op: Op)
    requires s.Valid() && op.Create?
    ensures var seen := CreationSeen(o, w, s.Machine(), op.first, op.final, op.message);
            Scope.Creates(s.setup, seen) <==> Succeeds(o, w, s.Machine(), op)
  {
    hide CreateNetworkInterface, GetOrCreateAvailabilitySet, RequestVirtualMachine, Reconciler.Delete, GetVm;
  }

  lemma UpdatesAgree(o: Oracle, w: World, s: Subject, op: Op)
    requires s.Valid() && op.Update?
    ensures Scope.Updates(s.setup, Answered(o, w, s.Machine(), op.final)) <==> Succeeds(o, w, s.Machine(), op)
  {
    hide GetVm;
  }

  // ------------------------------------------------------------ runs

  ghost predicate Feasible(s: Subject, ops: seq<Op>) {
    forall op :: op in ops ==> s.Allows(op)
  }

  lemma FrontIsFeasible(s: Subject, ops: seq<Op>)
    requires Feasible(s, ops) && ops != []
    ensures Feasible(s, ops[..|ops| - 1]) && s.Allows(ops[|ops| - 1])
  {
  }

  ghost function Run(o: Oracle, s: Subject, st: Scope.State, ops: seq<Op>): Both
    requires s.Valid() && Feasible(s, ops)
  {
    if ops == [] then Both(Runs.Start(s.cl), st)
    else
      FrontIsFeasible(s, ops);
      Step(o, s, Run(o, s, st, ops[..|ops| - 1]), ops[|ops| - 1])
  }

  lemma {:induction false} RunIsGood(o: Oracle, s: Subject, st: Scope.State, ops: seq<Op>)
    requires s.Valid() && Feasible(s, ops)
    ensures Runs.Inv(s.cl, Run(o, s, st, ops).p)
  {
    hide Runs.Inv, Runs.Step, ScopeStep;
    if ops == [] {
      Runs.StartIsGood(s.cl);
    } else {
      var init, op := ops[..|ops| - 1], ops[|ops| - 1];
      FrontIsFeasible(s, ops);
      RunIsGood(o, s, st, init);
      Runs.StepKeepsInv(o, s.cl, Run(o, s, st, init).p, CloudOp(op, s.name));
    }
  }

  /** The operation reports: every Create does, an Update when it succeeds. */
  predicate Reports(o: Oracle, w: World, m: Machine, op: Op) {
    op.Create? || Succeeds(o, w, m, op)
  }

  /** The cloud as the last Get of the operation finds it. */
  function LastSeen(o: Oracle, w: World, m: Machine, op: Op): World {
    if op.Create? then AtUpdate(o, w, m) else GetVm(o, w, m.name).w
  }

  /** Operation `i` is the last one that reports, and the status is its outcome; with success it found the machine complete,
      in order and rightly placed. */
  ghost predicate Explains(o: Oracle, s: Subject, st: Scope.State, ops: seq<Op>, i: nat, status: string)
    requires s.Valid() && Feasible(s, ops)
  {
    i < |ops| && Feasible(s, ops[..i]) &&
    var w, m := Run(o, s, st, ops[..i]).p.w, s.Machine();
    && Reports(o, w, m, ops[i])
    && (forall j :: i < j < |ops| && Feasible(s, ops[..j]) ==> !Reports(o, Run(o, s, st, ops[..j]).p.w, m, ops[j]))
    && status == (if Succeeds(o, w, m, ops[i]) then "True" else "False")
    && (Succeeds(o, w, m, ops[i]) ==> Complete(LastSeen(o, w, m, ops[i]), m) && Good(LastSeen(o, w, m, ops[i]), m))
  }

  lemma SuccessIsComplete(o: Oracle, w: World, m: Machine, op: Op)
    requires Good(w, m) && Succeeds(o, w, m, op)
    ensures Complete(LastSeen(o, w, m, op), m) && Good(LastSeen(o, w, m, op), m)
  {
    hide CreateMachine, Good, GetVm, Complete, AtUpdate;
    if op.Create? {
      NilMeansComplete(o, w, m, op.lookups);
    } else {
      GetVmMoves(o, w, m.name);
      MovedKeepsGood(w, GetVm(o, w, m.name).w, m, {});
      FoundIsThere(o, w, m.name);
      GoodIsComplete(GetVm(o, w, m.name).w, m);
    }
  }

  /** One operation leaves the condition alone, or sets it to its outcome. */
  lemma StepReports(o: Oracle, w: World, s: Subject, st: Scope.State, op: Op)
    requires s.Valid()
    ensures var before, after := Lookup(st.conditions, Scope.MACHINE_CREATED),
                                 Lookup(ScopeStep(o, w, s, st, op).conditions, Scope.MACHINE_CREATED);
            if Reports(o, w, s.Machine(), op)
            then after.Some? && after.value.status == if Succeeds(o, w, s.Machine(), op) then "True" else "False"
            else after == before
  {
    hide Put, Lookup, Scope.VmState, Scope.IsMaster, Scope.Relabeled, Addresses.AddressList, Addresses.LastInternal;
    hide CreateMachine, Reconciler.Update, CreationSeen, Answered;
    match op {
      case Create(first, final, message, _, at) =>
        CreatesAgree(o, w, s, op);
        PutChangesOne(st.conditions, Scope.SUCCEEDED, at);
        PutChangesOne(st.conditions, Scope.FailedReport(CreationSeen(o, w, s.Machine(), first, final, message).message), at);
      case Update(_, _, at) =>
        UpdatesAgree(o, w, s, op);
        PutChangesOne(st.conditions, Scope.SUCCEEDED, at);
      case _ =>
    }
  }

  lemma LastOpExplains(o: Oracle, s: Subject, st: Scope.State, ops: seq<Op>)
    requires s.Valid() && Feasible(s, ops) && ops != [] && Feasible(s, ops[..|ops| - 1])
    requires Reports(o, Run(o, s, st, ops[..|ops| - 1]).p.w, s.Machine(), ops[|ops| - 1])
    ensures var w, m, op := Run(o, s, st, ops[..|ops| - 1]).p.w, s.Machine(), ops[|ops| - 1];
            Explains(o, s, st, ops, |ops| - 1, if Succeeds(o, w, m, op) then "True" else "False")
  {
    var n := |ops| - 1;
    RunIsGood(o, s, st, ops[..n]);
    var w, m := Run(o, s, st, ops[..n]).p.w, s.Machine();
    assert Good(w, m);
    if Succeeds(o, w, m, ops[n]) { SuccessIsComplete(o, w, m, ops[n]); }
  }

  lemma SilentOpExplains(o: Oracle, s: Subject, st: Scope.State, ops: seq<Op>, i: nat, status: string)
    requires s.Valid() && Feasible(s, ops) && ops != [] && Feasible(s, ops[..|ops| - 1])
    requires !Reports(o, Run(o, s, st, ops[..|ops| - 1]).p.w, s.Machine(), ops[|ops| - 1])
    requires Explains(o, s, st, ops[..|ops| - 1], i, status)
    ensures Explains(o, s, st, ops, i, status)
  {
    hide Run, Reports, Succeeds, Complete, Good, LastSeen;
    var init := ops[..|ops| - 1];
    assert forall j :: 0 <= j <= |init| ==> init[..j] == ops[..j];
  }

  /** After any run of a new machine in its cluster, against any adversary, the condition MachineCreated is the outcome of
      the last operation that reports; it is True only if that operation found the machine complete in the cloud. */
  lemma {:induction false} ConditionTellsTheCloud(o: Oracle, s: Subject, st: Scope.State, ops: seq<Op>)
    requires s.Valid() && Feasible(s, ops) && Lookup(st.conditions, Scope.MACHINE_CREATED).None?
    ensures var created := Lookup(Run(o, s, st, ops).st.conditions, Scope.MACHINE_CREATED);
            created.Some? ==> exists i: nat :: Explains(o, s, st, ops, i, created.value.status)
  {
    hide Lookup, ScopeStep, Runs.Step, Explains, Reports, Succeeds, Feasible;
    if ops != [] {
      var init, op := ops[..|ops| - 1], ops[|ops| - 1];
      FrontIsFeasible(s, ops);
      ConditionTellsTheCloud(o, s, st, init);
      var b := Run(o, s, st, init);
      StepReports(o, b.p.w, s, b.st, op);
      var created := Lookup(Run(o, s, st, ops).st.conditions, Scope.MACHINE_CREATED);
      if Reports(o, b.p.w, s.Machine(), op) {
        LastOpExplains(o, s, st, ops);
      } else if created.Some? {
        var i: nat :| Explains(o, s, st, init, i, created.value.status);
        SilentOpExplains(o, s, st, ops, i, created.value.status);
      }
    }
  }
}
