/** What the operations write to the machine object: conditions, state, labels, addresses, provider ID. */
module Scope {
  import opened Addresses
  import opened Conditions
  import opened Wrappers
  import Names
  import ResourceId

  /** The keys of labels and annotations that the code names, and all others. */
  datatype Key = InstanceState | InstanceType | Region | Zone | Interruptible | ClusterId | MachineSet | Role | Other(name: string)

  const MACHINE_CREATED := "MachineCreated"
  const SUCCEEDED := Report(MACHINE_CREATED, "True", "MachineCreationSucceeded", "machine successfully created")

  function FailedReport(message: string): Report {
    Report(MACHINE_CREATED, "False", "MachineCreationFailed", message)
  }

  /** A virtual machine as the API reports it, with the answers to the lookups of its interfaces. */
  datatype VmView = VmView(
    id: Option<string>,
    computerName: Option<string>,
    interfaces: Option<Interfaces>,
    balancers: Balancers,
    provisioning: Option<string>,
    statuses: Option<seq<Option<string>>>,
    size: Option<string>,
    location: Option<string>,
    zones: Option<seq<string>>
  )

  /** The parts of the configuration that no operation changes. */
  datatype Setup = Setup(subscription: string, resourceGroup: string, vnet: string, spot: bool)

  /** What the operations write. A nil map reads as an empty one. */
  datatype State = State(
    conditions: seq<Condition>,
    vmId: Option<string>,
    vmState: Option<string>,
    annotations: map<Key, string>,
    labels: map<Key, string>,
    specLabels: map<Key, string>,
    addresses: seq<Address>,
    providerId: Option<string>,
    internalBalancer: string
  )

  // ------------------------------------------------------------ the state of a virtual machine

  /** A status code that ends the search. */
  predicate Telling(code: Option<string>) {
    code.Some? && code.value != "ProvisioningState/succeeded"
  }

  function PowerStateName(code: string): string {
    match code
    case "PowerState/starting" => "Starting"
    case "PowerState/running" => "Running"
    case "PowerState/stopping" => "Stopping"
    case "PowerState/stopped" => "Stopped"
    case "PowerState/deallocating" => "Deallocating"
    case "PowerState/deallocated" => "Deallocated"
    case _ => "Unknown"
  }

  /** The name of the first telling code. */
  function PowerState(codes: seq<Option<string>>): string {
    if codes == [] then "" else if Telling(codes[0]) then PowerStateName(codes[0].value) else PowerState(codes[1..])
  }

  function VmState(vm: VmView): string {
    if vm.provisioning.None? then ""
    else if vm.provisioning.value != "Succeeded" then vm.provisioning.value
    else if vm.statuses.None? then ""
    else PowerState(vm.statuses.value)
  }

  /** getVMState. */
  method GetVmState(vm: VmView) returns (state: string)
    ensures state == VmState(vm)
  {
    if vm.provisioning.None? { return ""; }
    if vm.provisioning.value != "Succeeded" { return vm.provisioning.value; }
    if vm.statuses.None? { return ""; }
    var codes := vm.statuses.value;
    for i := 0 to |codes|
      invariant PowerState(codes) == PowerState(codes[i..])
    {
      if Telling(codes[i]) { return PowerStateName(codes[i].value); }
    }
    state := "";
  }

  // ------------------------------------------------------------ the operations as functions

  function Join(parts: seq<string>): string {
    if parts == [] then "" else if |parts| == 1 then parts[0] else parts[0] + "," + Join(parts[1..])
  }

  /** The labels with those the virtual machine tells. */
  function Relabeled(labels: map<Key, string>, s: Setup, vm: VmView): map<Key, string> {
    var a := if vm.size.Some? then labels[InstanceType := vm.size.value] else labels;
    var b := if vm.location.Some? then a[Region := vm.location.value] else a;
    var c := if vm.zones.Some? then b[Zone := Join(vm.zones.value)] else b;
    if s.spot then c[Interruptible := ""] else c
  }

  /** What is noted of a virtual machine that was found: its ID and state, and setMachineCloudProviderSpecifics. */
  function Noted(st: State, s: Setup, vm: VmView): State {
    st.(vmId := vm.id, vmState := Some(VmState(vm)),
        annotations := st.annotations[InstanceState := VmState(vm)],
        labels := Relabeled(st.labels, s, vm),
        specLabels := if s.spot then st.specLabels[Interruptible := ""] else st.specLabels)
  }

  predicate IsMaster(st: State) {
    Role in st.labels && st.labels[Role] == "master"
  }

  /** Whether Update succeeds, when getting the virtual machine answers `vm`. */
  predicate Updates(s: Setup, vm: Option<VmView>) {
    vm.Some? && (vm.value.interfaces.Some? ==> s.vnet != "")
  }

  function ProviderId(s: Setup, vm: VmView): Option<string> {
    if vm.computerName.None? then None
    else Some(ResourceId.GenerateMachineProviderID(s.subscription, s.resourceGroup, vm.computerName.value))
  }

  /** What Update writes before it notes the virtual machine. */
  function Located(st: State, s: Setup, vm: VmView, now: nat): State {
    st.(conditions := Put(st.conditions, SUCCEEDED, now),
        addresses := AddressList(vm.computerName, if vm.interfaces.Some? then vm.interfaces.value else []),
        internalBalancer :=
          if vm.interfaces.Some? && IsMaster(st) && st.internalBalancer == "" then LastInternal("", Found(vm.balancers))
          else st.internalBalancer,
        providerId := ProviderId(s, vm))
  }

  /** Update. On an error nothing changes. */
  function Update(st: State, s: Setup, answer: Option<VmView>, now: nat): State {
    if Updates(s, answer) then Noted(Located(st, s, answer.value, now), s, answer.value) else st
  }

  /** What Delete writes before its first call. */
  function BeginDelete(st: State): State {
    st.(vmState := Some("Deleting"), annotations := st.annotations[InstanceState := "Deleting"])
  }

  /** How far a creation got: an error before the virtual machine was looked at or while it was requested, a request
      that went through, or a virtual machine that was there already. */
  datatype Progress = Refused | Requested | Seen(vm: VmView)

  /** A creation: its progress, the answer to the Get of the Update that follows, the text of the error if there is one. */
  datatype Creation = Creation(progress: Progress, answer: Option<VmView>, message: string)

  predicate Creates(s: Setup, c: Creation) {
    && (c.progress.Seen? ==> c.progress.vm.provisioning == Some("Succeeded"))
    && !c.progress.Refused? && Updates(s, c.answer)
  }

  /** Create. */
  function Create(st: State, s: Setup, c: Creation, now: nat): State {
    var seen := if c.progress.Seen? && c.progress.vm.provisioning.Some? then Noted(st, s, c.progress.vm) else st;
    if Creates(s, c) then Update(seen, s, c.answer, now)
    else
      var left := if c.progress.Seen? && c.progress.vm.provisioning == Some("Failed") then BeginDelete(seen) else seen;
      left.(conditions := Put(left.conditions, FailedReport(c.message), now))
  }

  // ------------------------------------------------------------ over any sequence of operations

  datatype Op = CreateOp(creation: Creation, at: nat) | UpdateOp(answer: Option<VmView>, at: nat) | DeleteOp

  function Step(st: State, s: Setup, op: Op): State {
    match op
    case CreateOp(c, at) => Create(st, s, c, at)
    case UpdateOp(answer, at) => Update(st, s, answer, at)
    case DeleteOp => BeginDelete(st)
  }

  function Run(st: State, s: Setup, ops: seq<Op>): State {
    if ops == [] then st else Step(Run(st, s, ops[..|ops| - 1]), s, ops[|ops| - 1])
  }

  /** The condition an operation reports: every Create reports one, an Update when it succeeds, a Delete none. */
  function Reported(s: Setup, op: Op): seq<Event> {
    match op
    case CreateOp(c, at) => [Event(if Creates(s, c) then SUCCEEDED else FailedReport(c.message), at)]
    case UpdateOp(answer, at) => if Updates(s, answer) then [Event(SUCCEEDED, at)] else []
    case DeleteOp => []
  }

  function History(s: Setup, ops: seq<Op>): seq<Event> {
    if ops == [] then [] else History(s, ops[..|ops| - 1]) + Reported(s, ops[|ops| - 1])
  }

  lemma StepReports(st: State, s: Setup, op: Op)
    ensures Step(st, s, op).conditions == Conditions.Run(st.conditions, Reported(s, op))
    ensures forall e :: e in Reported(s, op) ==> e.report.kind == MACHINE_CREATED
  {
    hide AddressList, LastInternal, Relabeled, VmState, IsMaster, Put;
    if |Reported(s, op)| == 1 {
      var e := Reported(s, op)[0];
      assert Conditions.Run(st.conditions, [e]) == Put(st.conditions, e.report, e.at) by {
        assert [e][..0] == [];
      }
    }
  }

  /** The conditions are those that the reports leave, whatever else the operations do. */
  lemma {:induction false} ConditionsFollowReports(st: State, s: Setup, ops: seq<Op>)
    ensures Run(st, s, ops).conditions == Conditions.Run(st.conditions, History(s, ops))
    ensures forall e :: e in History(s, ops) ==> e.report.kind == MACHINE_CREATED
  {
    if ops != [] {
      var init, op := ops[..|ops| - 1], ops[|ops| - 1];
      ConditionsFollowReports(st, s, init);
      StepReports(Run(st, s, init), s, op);
      var h, more := History(s, init), Reported(s, op);
      assert |more| <= 1;
      hide Step, Put, Reported;
      if |more| == 1 {
        assert (h + more)[..|h|] == h && more[..0] == [] && more == [more[0]];
      } else {
        assert h + more == h;
      }
    }
  }

  /** Over any sequence of operations, kinds stay unique, conditions of other kinds stay untouched, and
      the condition MachineCreated shows the last Create or successful Update, since the last change of its status. */
  lemma MachineCreatedFollowsLastReport(st: State, s: Setup, ops: seq<Op>)
    ensures var before, after := st.conditions, Run(st, s, ops).conditions;
            var h, created := History(s, ops), Lookup(after, MACHINE_CREATED);
            && (UniqueKinds(before) ==> UniqueKinds(after))
            && Others(after, MACHINE_CREATED) == Others(before, MACHINE_CREATED)
            && (h == [] ==> created == Lookup(before, MACHINE_CREATED))
            && (h != [] ==> created.Some? && created.value == Fresh(h[|h| - 1].report, created.value.since)
                            && IsLastFlip(Lookup(before, MACHINE_CREATED), h, MACHINE_CREATED, created.value.since))
  {
    var h := History(s, ops);
    ConditionsFollowReports(st, s, ops);
    HistoryKeepsOthers(st.conditions, h, MACHINE_CREATED);
    if h != [] {
      assert h[|h| - 1] in h;
      ShowsLastReport(st.conditions, h, MACHINE_CREATED, |h| - 1);
      HistoryOfKind(st.conditions, h, MACHINE_CREATED);
    }
  }

  /** The state in the provider status is the one in the annotation. */
  predicate StateAgrees(st: State) {
    st.vmState == if InstanceState in st.annotations then Some(st.annotations[InstanceState]) else None
  }

  lemma {:induction false} StateFollowsAnnotation(st: State, s: Setup, ops: seq<Op>)
    requires StateAgrees(st)
    ensures StateAgrees(Run(st, s, ops))
  {
    hide AddressList, LastInternal, Relabeled, Put, VmState, IsMaster;
    if ops != [] { StateFollowsAnnotation(st, s, ops[..|ops| - 1]); }
  }

  function Label(labels: map<Key, string>, key: Key): string {
    if key in labels then labels[key] else ""
  }

  predicate IsOwn(key: Key) {
    key == ClusterId || key == MachineSet || key == Role
  }

  /** The labels that name the cluster, the machine set and the role are the same. */
  ghost predicate SameOwnLabels(a: map<Key, string>, b: map<Key, string>) {
    forall key :: IsOwn(key) ==> (key in a <==> key in b) && (key in a ==> a[key] == b[key])
  }

  lemma StepKeepsOwnLabels(st: State, s: Setup, op: Op)
    ensures SameOwnLabels(Step(st, s, op).labels, st.labels)
  {
    hide AddressList, LastInternal, VmState, IsMaster, Put;
    assert forall labels, vm :: SameOwnLabels(Relabeled(labels, s, vm), labels);
  }

  /** No operation writes the labels that name the cluster, the machine set and the role, so Delete asks for the
      availability set that Create named, and a machine keeps its role. */
  lemma {:induction false} OwnLabelsAreKept(st: State, s: Setup, ops: seq<Op>)
    ensures var now := Run(st, s, ops).labels;
            && SameOwnLabels(now, st.labels)
            && Names.AvailabilitySetName(Label(now, MachineSet), Label(now, ClusterId))
               == Names.AvailabilitySetName(Label(st.labels, MachineSet), Label(st.labels, ClusterId))
  {
    if ops != [] {
      OwnLabelsAreKept(st, s, ops[..|ops| - 1]);
      StepKeepsOwnLabels(Run(st, s, ops[..|ops| - 1]), s, ops[|ops| - 1]);
      hide Step, Names.AvailabilitySetName;
    }
    assert IsOwn(MachineSet) && IsOwn(ClusterId);
  }

  lemma StepKeepsBalancer(st: State, s: Setup, op: Op)
    ensures Step(st, s, op).internalBalancer == st.internalBalancer || (IsMaster(st) && st.internalBalancer == "")
  {
    hide AddressList, LastInternal, VmState, Put;
  }

  /** An internal load balancer that is known is never replaced, and only a master gets one. */
  lemma {:induction false} BalancerIsSetOnce(st: State, s: Setup, ops: seq<Op>)
    ensures Run(st, s, ops).internalBalancer == st.internalBalancer || (IsMaster(st) && st.internalBalancer == "")
  {
    if ops != [] {
      var init := ops[..|ops| - 1];
      BalancerIsSetOnce(st, s, init);
      OwnLabelsAreKept(st, s, init);
      StepKeepsBalancer(Run(st, s, init), s, ops[|ops| - 1]);
      assert IsOwn(Role);
      hide Step;
    }
  }

  lemma NotedTwice(st: State, s: Setup, vm: VmView)
    ensures Noted(Noted(st, s, vm), s, vm) == Noted(st, s, vm)
  {
  }

  /** A second Update with the same answers changes nothing, whenever it comes. */
  lemma UpdateIsIdempotent(st: State, s: Setup, answer: Option<VmView>, now: nat, later: nat)
    ensures Update(Update(st, s, answer, now), s, answer, later) == Update(st, s, answer, now)
  {
    if Updates(s, answer) {
      PutTwice(st.conditions, SUCCEEDED, now, later);
      var once := Update(st, s, answer, now);
      NotedTwice(st, s, answer.value);
      assert IsMaster(once) == IsMaster(st);
      hide AddressList, LastInternal, VmState, Put, Relabeled, Found;
      assert once.annotations[InstanceState := VmState(answer.value)] == once.annotations;
    }
  }
}
