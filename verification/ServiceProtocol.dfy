/**
 The service lifecycle as a transition system.  Any number of threads run the daemon's entry points; a state is the
 shared fields, the owners of the three locks, the program counter of every thread and a history of every instance.
 A thread takes a step at a time: it acquires a lock, runs a whole section of `serviceAccess` and releases it, or a
 slow call (creating, starting or closing an instance, none of which runs under `serviceAccess`) returns.
 */
module ServiceProtocol {
  import opened Prelude
  import opened ServiceState

  datatype Op = StartOp | StopOp

  /** The sections that hold `serviceAccess` for writing. */
  datatype Section =
    | Interrupt(op: Op)
    | Take
    | Begin(reload: bool)
    | CreateError
    | Publish(i: nat)
    | Decide(i: nat, ok: bool)
    | StopTake
    | StopEnd
    | SetFatal
    | SetClosed

  datatype AfterClose = ThenBegin | ThenReturn | ThenStopEnd

  /** The sections that hold `logAccess`; the first one runs inside a section of `serviceAccess`. */
  datatype LogSection = ResetInStart | WriteLog | ClearLog

  datatype Pc =
    | AwaitService(sec: Section)
    | InService(sec: Section)
    | AwaitLifecycle(op: Op)
    | AwaitLog(log: LogSection)
    | InLog(log: LogSection)
    | AwaitRead
    | InRead
    | CallNew
    | CallStart(i: nat)
    | CallClose(target: Option<nat>, next: AfterClose)
    | ReleaseLifecycle(op: Op)
    | Done

  /** The entry points.  `Follow` stands for every reader that looks at status and instance in one read section. */
  datatype Call = StartOrReloadService | CloseService | SetError | Close | Follow | WriteMessage | ClearLogs

  function Entry(call: Call): Pc {
    match call
    case StartOrReloadService => AwaitService(Interrupt(StartOp))
    case CloseService => AwaitService(Interrupt(StopOp))
    case SetError => AwaitService(SetFatal)
    case Close => AwaitService(SetClosed)
    case Follow => AwaitRead
    case WriteMessage => AwaitLog(WriteLog)
    case ClearLogs => AwaitLog(ClearLog)
  }

  /** What has happened to an instance: who created it, whether an interrupt cancelled it, whether the service
      became started with it, and the threads that have closed it. */
  datatype Record = Record(creator: nat, cancelled: bool, started: bool, closers: seq<nat>)

  datatype State = State(
    f: Fields,
    lifecycle: Option<nat>,
    writer: Option<nat>,
    readers: set<nat>,
    logger: Option<nat>,
    pcs: seq<Pc>,
    instances: seq<Record>)

  const START := State(INITIAL, None, None, {}, None, [], [])

  // ----- Locks -----

  predicate OwnedSection(sec: Section) {
    !(sec.Interrupt? || sec.SetFatal? || sec.SetClosed?)
  }

  /** The points of a program at which its thread holds `lifecycleAccess`. */
  predicate HoldsLifecycle(pc: Pc) {
    match pc
    case AwaitService(sec) => OwnedSection(sec)
    case InService(sec) => OwnedSection(sec)
    case AwaitLog(log) => log.ResetInStart?
    case InLog(log) => log.ResetInStart?
    case CallNew => true
    case CallStart(_) => true
    case CallClose(_, _) => true
    case ReleaseLifecycle(_) => true
    case _ => false
  }

  /** The points at which it holds `serviceAccess` for writing: never at a slow call. */
  predicate HoldsService(pc: Pc) {
    pc.InService? || (pc.AwaitLog? && pc.log.ResetInStart?) || (pc.InLog? && pc.log.ResetInStart?)
  }

  predicate HoldsLog(pc: Pc) {
    pc.InLog?
  }

  function Owner(owner: Option<nat>, t: nat, held: bool): Option<nat> {
    if held then Some(t) else if owner == Some(t) then None else owner
  }

  /** A thread can take its next step: it has not finished, and the lock it waits for is free. */
  predicate Enabled(s: State, t: nat) {
    t < |s.pcs| &&
    match s.pcs[t]
    case AwaitService(_) => s.writer.None? && s.readers == {}
    case AwaitRead => s.writer.None?
    case AwaitLifecycle(_) => s.lifecycle.None?
    case AwaitLog(_) => s.logger.None?
    case Done => false
    case _ => true
  }

  // ----- Steps -----

  function AfterSection(f: Fields, sec: Section): Pc {
    match sec
    case Interrupt(op) => AwaitLifecycle(op)
    case Take =>
      (match TakeOutcome(f)
       case Refused => ReleaseLifecycle(StartOp)
       case Old(i) => CallClose(Some(i), ThenBegin)
       case Fresh => InService(Begin(false)))
    case Begin(reload) => if reload then CallNew else AwaitLog(ResetInStart)
    case CreateError => ReleaseLifecycle(StartOp)
    case Publish(i) => CallStart(i)
    case Decide(i, ok) =>
      if DecisionOf(f, ok).Succeed? then ReleaseLifecycle(StartOp) else CallClose(Some(i), ThenReturn)
    case StopTake => if NothingToStop(f) then ReleaseLifecycle(StopOp) else CallClose(f.instance, ThenStopEnd)
    case StopEnd => ReleaseLifecycle(StopOp)
    case SetFatal => AwaitLog(WriteLog)
    case SetClosed => Done
  }

  function AfterClosing(next: AfterClose): Pc {
    match next
    case ThenBegin => AwaitService(Begin(true))
    case ThenReturn => ReleaseLifecycle(StartOp)
    case ThenStopEnd => AwaitService(StopEnd)
  }

  /** Where a thread goes next; `ok` is the outcome of a slow call that can fail, `created` numbers a new instance. */
  function NextPc(f: Fields, pc: Pc, ok: bool, created: nat): Pc {
    match pc
    case AwaitService(sec) => InService(sec)
    case InService(sec) => AfterSection(f, sec)
    case AwaitLifecycle(op) => AwaitService(if op.StartOp? then Take else StopTake)
    case AwaitLog(log) => InLog(log)
    case InLog(log) => if log.ResetInStart? then CallNew else Done
    case AwaitRead => InRead
    case InRead => Done
    case CallNew => AwaitService(if ok then Publish(created) else CreateError)
    case CallStart(i) => AwaitService(Decide(i, ok))
    case CallClose(_, next) => AfterClosing(next)
    case ReleaseLifecycle(_) => Done
    case Done => Done
  }

  function NextFields(f: Fields, pc: Pc): Fields {
    if !pc.InService? then f else
    match pc.sec
    case Interrupt(_) => Interrupted(f)
    case Take => Taken(f)
    case Begin(_) => Begun(f)
    case CreateError => f.(status := Fatal)
    case Publish(i) => f.(instance := Some(i))
    case Decide(_, ok) => Decided(f, ok)
    case StopTake => StopTaken(f)
    case StopEnd => StopEnded(f)
    case SetFatal => f.(status := Fatal)
    case SetClosed => f.(closed := true)
  }

  /** The instance that a step of a thread at `pc` cancels, has started or closes, if any. */
  function Cancels(f: Fields, pc: Pc): Option<nat> {
    if pc.InService? && pc.sec.Interrupt? && Interruptible(f) then f.instance else None
  }

  function Starts(f: Fields, pc: Pc): Option<nat> {
    if pc.InService? && pc.sec.Decide? && DecisionOf(f, pc.sec.ok).Succeed? then Some(pc.sec.i) else None
  }

  function Closes(pc: Pc): Option<nat> {
    if pc.CallClose? then pc.target else None
  }

  function NextRecord(f: Fields, pc: Pc, t: nat, i: nat, r: Record): Record {
    Record(
      r.creator,
      r.cancelled || Cancels(f, pc) == Some(i),
      r.started || Starts(f, pc) == Some(i),
      if Closes(pc) == Some(i) then r.closers + [t] else r.closers)
  }

  function NextInstances(s: State, t: nat, ok: bool): seq<Record>
    requires t < |s.pcs|
  {
    var pc := s.pcs[t];
    seq(|s.instances|, i requires 0 <= i < |s.instances| => NextRecord(s.f, pc, t, i, s.instances[i])) +
    if pc.CallNew? && ok then [Record(t, false, false, [])] else []
  }

  /** One step of thread `t`. */
  function Exec(s: State, t: nat, ok: bool): State
    requires Enabled(s, t)
  {
    var pc := s.pcs[t];
    var pc' := NextPc(s.f, pc, ok, |s.instances|);
    State(
      NextFields(s.f, pc),
      Owner(s.lifecycle, t, HoldsLifecycle(pc')),
      Owner(s.writer, t, HoldsService(pc')),
      if pc'.InRead? then s.readers + {t} else s.readers - {t},
      Owner(s.logger, t, HoldsLog(pc')),
      s.pcs[t := pc'],
      NextInstances(s, t, ok))
  }

  /** A run is a list of actions: a new thread enters the service, or a thread takes a step. */
  datatype Action = Spawn(call: Call) | Step(t: nat, ok: bool)

  predicate CanAct(s: State, a: Action) {
    a.Step? ==> Enabled(s, a.t)
  }

  function Act(s: State, a: Action): State
    requires CanAct(s, a)
  {
    match a
    case Spawn(call) => s.(pcs := s.pcs + [Entry(call)])
    case Step(t, ok) => Exec(s, t, ok)
  }

  /** `run` is possible from `s`. */
  predicate Possible(s: State, run: seq<Action>)
    decreases |run|
  {
    run == [] || (CanAct(s, run[0]) && Possible(Act(s, run[0]), run[1..]))
  }

  function After(s: State, run: seq<Action>): State
    requires Possible(s, run)
    decreases |run|
  {
    if run == [] then s else After(Act(s, run[0]), run[1..])
  }

  ghost predicate Reachable(s: State) {
    exists run :: Possible(START, run) && After(START, run) == s
  }
}
