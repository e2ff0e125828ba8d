/**
 The fields of the daemon's `StartedService` that the service lifecycle shares between threads, and what each
 section guarded by `serviceAccess` does to them.
 */
module ServiceState {
  import opened Prelude

  datatype Status = Idle | Starting | Started | Stopping | Fatal

  /** `instance` holds the number of an instance, `startedAt` says whether the start time is set. */
  datatype Fields = Fields(
    instance: Option<nat>,
    status: Status,
    startInterrupted: bool,
    closed: bool,
    startedAt: bool)

  const INITIAL := Fields(None, Idle, false, false, false)

  predicate Interruptible(f: Fields) {
    f.status == Starting && f.instance.Some?
  }

  function Interrupted(f: Fields): Fields {
    if Interruptible(f) then f.(startInterrupted := true) else f
  }

  /** What the first section of a start finds: the service is closed, a running instance, or neither. */
  datatype TakeResult = Refused | Old(i: nat) | Fresh

  function TakeOutcome(f: Fields): TakeResult {
    if f.closed then Refused else if f.instance.Some? then Old(f.instance.value) else Fresh
  }

  function Taken(f: Fields): Fields {
    if TakeOutcome(f).Old? then f.(instance := None, status := Stopping) else f
  }

  function Begun(f: Fields): Fields {
    f.(startInterrupted := false, status := Starting)
  }

  /** How a start ends after the instance's own start returned. */
  datatype Decision = Abandon | Fail | Succeed

  function DecisionOf(f: Fields, ok: bool): Decision {
    if f.startInterrupted then Abandon else if ok then Succeed else Fail
  }

  function Decided(f: Fields, ok: bool): Fields {
    match DecisionOf(f, ok)
    case Abandon => f.(startInterrupted := false, instance := None)
    case Fail => f.(instance := None, status := Fatal)
    case Succeed => f.(startedAt := true, status := Started)
  }

  /** A stop has nothing to do when there is no instance and no start has left its mark. */
  predicate NothingToStop(f: Fields) {
    f.instance.None? && f.status != Starting && f.status != Started
  }

  function StopTaken(f: Fields): Fields {
    if NothingToStop(f) then f else f.(instance := None, status := Stopping)
  }

  function StopEnded(f: Fields): Fields {
    f.(startedAt := false, status := Idle)
  }
}
