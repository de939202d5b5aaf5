/** The Azure cloud as the reconciler sees it: remote resources, changed by service calls that may fail
    at any point with or without having taken effect, and changed by Azure itself between calls. */
module Cloud {
  import opened Errors
  import opened Wrappers

  /** A virtual machine: its provisioning state (possibly not reported) and its availability set ("" for none). */
  datatype Vm = Vm(state: Option<string>, aset: string)

  /** Resources without a life of their own. */
  datatype Resource =
    | OSDisk(name: string)
    | Nic(name: string)
    | PublicIp(name: string)
    | AvailabilitySet(name: string)

  /** What Azure may do to a virtual machine between two calls: move it to another provisioning state
      (`Some`), or make it disappear (`None`), as a late delete or a spot eviction does. */
  type Drift = map<string, Option<Option<string>>>

  /** What the reconciler asks about things outside the model: whether the machine size supports accelerated networking,
      whether its location is without zones for it, and whether the user-data secret holds user data. */
  datatype Question = Accelerates | Zoneless | HasUserData

  /** The adversary's answer to one call.
      - `fault`: the error the caller gets, if any;
      - `landed`, `diskLanded`: whether a call that reported a fault took effect all the same;
      - `yes`: the questions that are answered with yes. */
  datatype Answer = Answer(fault: Option<Error>, landed: bool, diskLanded: bool, yes: set<Question>, drift: Drift)

  /** All answers of the adversary, by call number. */
  type Oracle = nat -> Answer

  /** The state of the cloud, with tallies of what has happened to each virtual machine. */
  datatype World = World(
    vms: map<string, Vm>,
    live: set<Resource>,
    clock: nat,
    requests: multiset<string>,
    appeared: multiset<string>,
    vanished: multiset<string>,
    overwrites: nat
  )

  datatype Out = Out(w: World, err: Option<Error>)
  datatype VmReply = Absent(err: Error) | Unreachable(err: Error) | Found(vm: Vm)
  datatype VmOut = VmOut(w: World, reply: VmReply)
  datatype ProbeOut = ProbeOut(w: World, err: Option<Error>, yes: bool)

  /** A client that takes a plain 404 for an answer about existence gets one only when it is true. As a fault the
      adversary can give it a 404 only with something around it; every other call can fail with a plain 404 as well. */
  function NotPlain404(e: Error): (f: Error)
    ensures !ResourceNotFound(f)
  {
    if ResourceNotFound(e) then Wrapped(e) else e
  }

  function Gone(vms: map<string, Vm>, drift: Drift): set<string> {
    set m | m in vms && m in drift && drift[m].None?
  }

  /** Azure acts, and one call is counted. */
  function Tick(o: Oracle, w: World): World {
    var drift := o(w.clock).drift;
    var gone := Gone(w.vms, drift);
    w.(
      vms := map m | m in w.vms && m !in gone :: if m in drift && drift[m].Some? then Vm(drift[m].value, w.vms[m].aset) else w.vms[m],
      vanished := w.vanished + multiset(gone),
      clock := w.clock + 1
    )
  }

  // ------------------------------------------------------------ service calls

  /** A call that changes nothing and answers a question. */
  function Probe(o: Oracle, w: World, q: Question): ProbeOut {
    ProbeOut(Tick(o, w), o(w.clock).fault, q in o(w.clock).yes)
  }

  /** CreateOrUpdate of anything but a virtual machine. */
  function Upsert(o: Oracle, w: World, r: Resource): Out {
    var a, t := o(w.clock), Tick(o, w);
    Out(if a.fault.Some? && !a.landed then t else t.(live := t.live + {r}), a.fault)
  }

  /** Delete of anything but a virtual machine; deleting what is not there succeeds. A 404 from the result of a request
      that was accepted is an error like any other. */
  function Drop(o: Oracle, w: World, r: Resource): Out {
    var a, t := o(w.clock), Tick(o, w);
    Out(if a.fault.Some? && !a.landed then t else t.(live := t.live - {r}), a.fault)
  }

  function GetVm(o: Oracle, w: World, m: string): VmOut {
    var a, t := o(w.clock), Tick(o, w);
    VmOut(t,
          if a.fault.Some? then Unreachable(NotPlain404(a.fault.value))
          else if m in t.vms then Found(t.vms[m])
          else Absent(NOT_FOUND))
  }

  function DropVm(o: Oracle, w: World, m: string): Out {
    var a, t := o(w.clock), Tick(o, w);
    Out(if a.fault.Some? && !a.landed then t
        else t.(vms := t.vms - {m}, vanished := if m in t.vms then t.vanished + multiset{m} else t.vanished),
        a.fault)
  }

  /** A create request arrives. */
  function Asked(t: World, m: string): World {
    t.(requests := t.requests + multiset{m}, overwrites := t.overwrites + if m in t.vms then 1 else 0)
  }

  /** The requested virtual machine and its OS disk come into being, in place of whatever was there. */
  function Created(t: World, m: string, disk: Resource, aset: string): World {
    t.(vms := t.vms[m := Vm(Some("Creating"), aset)],
       live := t.live + {disk},
       appeared := if m in t.vms then t.appeared else t.appeared + multiset{m})
  }

  /** A virtual machine create request. A failed request may leave the machine with its disk behind, or the disk alone. */
  function CreateVm(o: Oracle, w: World, m: string, disk: Resource, aset: string): Out {
    var a, asked := o(w.clock), Asked(Tick(o, w), m);
    Out(if a.fault.None? || a.landed then Created(asked, m, disk, aset)
        else if a.diskLanded then asked.(live := asked.live + {disk})
        else asked,
        a.fault)
  }

  /** Some virtual machine is placed in the availability set. */
  predicate Occupied(w: World, aset: string) {
    exists m :: m in w.vms && w.vms[m].aset == aset
  }

  /** availabilitysets.Delete: look first, and delete only an existing set without virtual machines. */
  function DeleteAvailabilitySet(o: Oracle, w: World, name: string): Out {
    var a, t := o(w.clock), Tick(o, w);
    if a.fault.Some? then Out(t, Some(Wrapped(NotPlain404(a.fault.value))))
    else if AvailabilitySet(name) !in t.live then Out(t, None)
    else if Occupied(t, name) then Out(t, None)
    else
      var d := Drop(o, t, AvailabilitySet(name));
      Out(d.w, if d.err.Some? then Some(Wrapped(NotPlain404(d.err.value))) else None)
  }
}
