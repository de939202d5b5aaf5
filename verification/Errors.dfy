/** Go error chains, the two predicates of errors.go, and what the actuator does with a failed Create. */
module Errors {
  import opened Wrappers

  /** `DetailedError.StatusCode` is an `interface{}`: an int, or anything else. */
  datatype Status = Code(code: int) | NotAnInt

  /** An error value with the errors it wraps.
      `Plain` is an error that wraps nothing (`errors.New`, `fmt.Errorf` with `%v`);
      `Wrapped` is a `fmt.Errorf` with `%w`. */
  datatype Error =
    | Plain
    | Wrapped(inner: Error)
    | Detailed(status: Status, message: string, original: Option<Error>)
    | MachineError
    | AsyncIncomplete(future: string)
    | SkuNotFound

  const VM_CREATE_FUTURE := "compute.VirtualMachinesCreateOrUpdateFuture"
  const SENDING_FAILURE := "Failure sending request"

  /** The 404 a client returns for something that does not exist. */
  const NOT_FOUND := Detailed(Code(404), "", None)

  /** What `Unwrap` visits, outermost first. */
  function Chain(e: Error): (chain: seq<Error>)
    ensures chain != [] && chain[0] == e
  {
    match e
    case Wrapped(inner) => [e] + Chain(inner)
    case Detailed(_, _, Some(original)) => [e] + Chain(original)
    case _ => [e]
  }

  /** `errors.As` with a `DetailedError` target. */
  function AsDetailed(e: Error): Option<Error> {
    match e
    case Detailed(_, _, _) => Some(e)
    case Wrapped(inner) => AsDetailed(inner)
    case _ => None
  }

  /** `errors.As` with a `*MachineError` target. */
  predicate HasMachineError(e: Error) {
    match e
    case MachineError => true
    case Wrapped(inner) => HasMachineError(inner)
    case Detailed(_, _, Some(original)) => HasMachineError(original)
    case _ => false
  }

  /** `errors.Is`. */
  predicate Is(e: Error, target: Error) {
    e == target ||
    match e
    case Wrapped(inner) => Is(inner, target)
    case Detailed(_, _, Some(original)) => Is(original, target)
    case _ => false
  }

  /** Looks at the outermost error only: a type assertion, not `errors.As`. */
  predicate ResourceNotFound(e: Error) {
    e.Detailed? && e.status == Code(404)
  }

  predicate InvalidCredentials(e: Error) {
    var d := AsDetailed(e);
    d.Some? && d.value.Detailed? && d.value.status == Code(401)
  }

  datatype Verdict = Created | Terminal | Requeue | PersistFailed

  /** How `Actuator.Create` ends, given what the reconciler returned. */
  function CreateVerdict(err: Option<Error>, persisted: bool): Verdict {
    if err.None? then
      if persisted then Created else PersistFailed
    else
      var d := AsDetailed(err.value);
      if && d.Some? && d.value.Detailed? && d.value.status.Code?
         && 400 <= d.value.status.code < 500 && !InvalidCredentials(err.value)
      then Terminal
      else if HasMachineError(err.value) then Terminal
      else Requeue
  }

  /** What createVirtualMachine makes of a failed create request; `None` means the request is accepted. */
  function VmRequestFailure(e: Error): Option<Error> {
    if Is(e, AsyncIncomplete(VM_CREATE_FUTURE)) then None
    else
      var d := AsDetailed(e);
      if d.Some? && d.value.Detailed? && d.value.message == SENDING_FAILURE then Some(MachineError)
      else Some(Wrapped(e))
  }

  /** Index `i` holds the first DetailedError of the chain. */
  ghost predicate FirstDetailed(chain: seq<Error>, i: nat) {
    i < |chain| && chain[i].Detailed? && forall j :: 0 <= j < i ==> !chain[j].Detailed?
  }

  ghost predicate ClientFault(status: Status) {
    status.Code? && 400 <= status.code <= 499 && status.code != 401
  }

  /** The reference condition for a terminal failure, stated on the flattened chain. */
  ghost predicate TerminalChain(chain: seq<Error>) {
    || (exists i: nat :: FirstDetailed(chain, i) && ClientFault(chain[i].status))
    || MachineError in chain
  }

  lemma {:induction false} AsDetailedFindsFirst(e: Error)
    ensures AsDetailed(e).Some? ==> exists i: nat :: FirstDetailed(Chain(e), i) && Chain(e)[i] == AsDetailed(e).value
    ensures AsDetailed(e).None? ==> forall i :: 0 <= i < |Chain(e)| ==> !Chain(e)[i].Detailed?
  {
    match e
    case Wrapped(inner) =>
      AsDetailedFindsFirst(inner);
      if AsDetailed(inner).Some? {
        var i: nat :| FirstDetailed(Chain(inner), i) && Chain(inner)[i] == AsDetailed(inner).value;
        assert FirstDetailed(Chain(e), i + 1);
      }
    case Detailed(_, _, _) =>
      assert FirstDetailed(Chain(e), 0);
    case _ =>
  }

  lemma {:induction false} IsSearchesChain(e: Error, target: Error)
    ensures Is(e, target) <==> target in Chain(e)
  {
    match e
    case Wrapped(inner) => IsSearchesChain(inner, target);
    case Detailed(_, _, Some(original)) => IsSearchesChain(original, target);
    case _ =>
  }

  lemma {:induction false} HasMachineErrorSearchesChain(e: Error)
    ensures HasMachineError(e) <==> MachineError in Chain(e)
  {
    match e
    case Wrapped(inner) => HasMachineErrorSearchesChain(inner);
    case Detailed(_, _, Some(original)) => HasMachineErrorSearchesChain(original);
    case _ =>
  }

  /** A failed Create is given up exactly when the chain says so, and retried otherwise,
      whether or not the status could be persisted. */
  lemma CreateIsTerminalIff(e: Error, persisted: bool)
    ensures CreateVerdict(Some(e), persisted) == Terminal <==> TerminalChain(Chain(e))
    ensures CreateVerdict(Some(e), persisted) == Requeue <==> !TerminalChain(Chain(e))
    ensures CreateVerdict(None, persisted) == Created <==> persisted
    ensures CreateVerdict(None, persisted) == PersistFailed <==> !persisted
  {
    AsDetailedFindsFirst(e);
    HasMachineErrorSearchesChain(e);
  }

  function WrapTimes(e: Error, n: nat): Error {
    if n == 0 then e else Wrapped(WrapTimes(e, n - 1))
  }

  /** `%w` layers never change the verdict, but they do hide a 404 from ResourceNotFound. */
  lemma {:induction false} WrappingKeepsVerdict(e: Error, n: nat, persisted: bool)
    ensures CreateVerdict(Some(WrapTimes(e, n)), persisted) == CreateVerdict(Some(e), persisted)
    ensures VmRequestFailure(WrapTimes(e, n)).None? <==> VmRequestFailure(e).None?
    ensures n > 0 ==> !ResourceNotFound(WrapTimes(e, n))
  {
    if n > 0 { WrappingKeepsVerdict(e, n - 1, persisted); }
  }

  /** Only the top of the chain makes an error a not-found. */
  lemma NotFoundIsTopOnly(e: Error)
    ensures ResourceNotFound(e) <==> FirstDetailed(Chain(e), 0) && Chain(e)[0].status == Code(404)
  {
  }

  /** A create request counts as accepted exactly if its error says somewhere that the creation is still under way;
      otherwise the first DetailedError decides whether the configuration is blamed, and the error is kept if not. */
  lemma RequestFailureIs(e: Error)
    ensures VmRequestFailure(e).None? <==> AsyncIncomplete("compute.VirtualMachinesCreateOrUpdateFuture") in Chain(e)
    ensures VmRequestFailure(e).Some? ==>
              if exists i: nat :: FirstDetailed(Chain(e), i) && Chain(e)[i].message == "Failure sending request"
              then VmRequestFailure(e).value == MachineError
              else VmRequestFailure(e).value == Wrapped(e)
  {
    IsSearchesChain(e, AsyncIncomplete("compute.VirtualMachinesCreateOrUpdateFuture"));
    AsDetailedFindsFirst(e);
  }

  /** A rejected VM create request ends in a terminal failure exactly when its first DetailedError says
      "Failure sending request", whatever the status code, or when its chain is terminal anyway. */
  lemma RejectedRequestVerdict(e: Error, persisted: bool)
    requires !Is(e, AsyncIncomplete(VM_CREATE_FUTURE))
    ensures VmRequestFailure(e).Some?
    ensures CreateVerdict(Some(Wrapped(VmRequestFailure(e).value)), persisted) == Terminal <==>
              || (exists i: nat :: FirstDetailed(Chain(e), i) && Chain(e)[i].message == SENDING_FAILURE)
              || TerminalChain(Chain(e))
  {
    AsDetailedFindsFirst(e);
    CreateIsTerminalIff(e, persisted);
    WrappingKeepsVerdict(e, 1, persisted);
    WrappingKeepsVerdict(e, 2, persisted);
    assert WrapTimes(e, 2) == Wrapped(WrapTimes(e, 1)) == Wrapped(Wrapped(e));
  }

  /** A server error that says "Failure sending request" is terminal after a create request, and would be retried
      by its status alone. */
  lemma ServerFaultOnSendingIsTerminal(persisted: bool)
    ensures var e := Detailed(Code(500), SENDING_FAILURE, None);
            && VmRequestFailure(e).Some?
            && CreateVerdict(Some(Wrapped(VmRequestFailure(e).value)), persisted) == Terminal
            && CreateVerdict(Some(Wrapped(Wrapped(e))), persisted) == Requeue
  {
  }
}
