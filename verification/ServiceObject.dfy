/**
 The `StartedService` object itself.  Its methods are the sections that run with `serviceAccess` held, each against what
 the invariant says at that point of the lifecycle, and the two long calls `StartOrReloadService` and `CloseService`
 made of them.  Whoever owns the lifecycle lock is disturbed only by interrupts, errors and closes, in the gaps in which
 it has released `serviceAccess`.
 */
module ServiceObject {
  import opened Prelude
  import opened ServiceState
  import opened ServiceProtocol
  import opened ServiceInvariant

  /** What other threads do to the fields while the lifecycle lock is taken. */
  datatype Disturbance = Interruption | Error | Closing

  function Disturbed(f: Fields, events: seq<Disturbance>): Fields
    decreases |events|
  {
    if events == [] then f
    else
      match events[0]
      case Interruption => Disturbed(Interrupted(f), events[1..])
      case Error => Disturbed(f.(status := Fatal), events[1..])
      case Closing => Disturbed(f.(closed := true), events[1..])
  }

  /** An interrupt comes, and no error before it. */
  predicate InterruptFirst(events: seq<Disturbance>) {
    events != [] && (events[0].Interruption? || (!events[0].Error? && InterruptFirst(events[1..])))
  }

  /** What disturbances do to a start: the flag goes up exactly if an interrupt comes while the instance is published
      and no error has come before; the status stays at starting exactly if no error comes. */
  lemma {:induction false} DisturbedStart(f: Fields, events: seq<Disturbance>)
    ensures var g := Disturbed(f, events);
            && g.instance == f.instance && g.startedAt == f.startedAt
            && g.status == (if Error in events then Fatal else f.status)
            && (g.closed <==> f.closed || Closing in events)
            && (g.startInterrupted <==> f.startInterrupted || (Interruptible(f) && InterruptFirst(events)))
    decreases |events|
  {
    if events == [] {
    } else {
      match events[0]
      case Interruption => DisturbedStart(Interrupted(f), events[1..]);
      case Error => DisturbedStart(f.(status := Fatal), events[1..]);
      case Closing => DisturbedStart(f.(closed := true), events[1..]);
    }
  }

  datatype StartResult = Refusal | CreateFailed | Abandoned | StartFailed | Running

  function AsList(i: Option<nat>): seq<nat> {
    if i.Some? then [i.value] else []
  }

  class StartedService {
    var instance: Option<nat>
    var status: Status
    var startInterrupted: bool
    var closed: bool
    var startedAt: bool

    function Value(): Fields
      reads this
    {
      Fields(instance, status, startInterrupted, closed, startedAt)
    }

    constructor ()
      ensures Resting(Value()) && Value() == INITIAL
    {
      instance, status, startInterrupted, closed, startedAt := None, Idle, false, false, false;
    }

    // ----- Sections of other threads, while the lifecycle's owner is at `owner` -----

    /** Returns the instance whose context the caller must cancel: the one that is being started, unless an error has
        changed the status. */
    method InterruptStart(ghost owner: Pc) returns (cancelled: Option<nat>)
      requires PhaseFields(Value(), owner) && (HoldsLifecycle(owner) || owner.Done?)
      modifies this
      ensures PhaseFields(Value(), owner) && Value() == Interrupted(old(Value()))
      ensures cancelled == if old(status) == Starting then BeingStarted(owner) else None
      ensures cancelled == if old(status) == Starting then old(instance) else None
      ensures Value() == if cancelled.Some? then old(Value()).(startInterrupted := true) else old(Value())
    {
      cancelled := None;
      if status == Starting && instance != None {
        startInterrupted := true;
        cancelled := instance;
      }
    }

    /** An error is shown at once and disturbs nobody. */
    method SetFatal(ghost owner: Pc)
      requires PhaseFields(Value(), owner) && (HoldsLifecycle(owner) || owner.Done?)
      modifies this
      ensures PhaseFields(Value(), owner) && Value() == old(Value()).(status := Fatal)
    {
      status := Fatal;
    }

    method SetClosed(ghost owner: Pc)
      requires PhaseFields(Value(), owner)
      modifies this
      ensures PhaseFields(Value(), owner) && Value() == old(Value()).(closed := true)
    {
      closed := true;
    }

    /** A follower is handed the instance exactly while the service is started; there always is one then. */
    method Follow(ghost owner: Pc) returns (current: Option<nat>)
      requires PhaseFields(Value(), owner) && (HoldsLifecycle(owner) || owner.Done?)
      ensures current.Some? <==> status == Started
      ensures current.Some? ==> current == instance
    {
      current := instance;
      if status != Started {
        current := None;
      }
    }

    // ----- Sections of the lifecycle's owner -----

    /** Takes a running instance out, so that nobody can see it any more. */
    method Take() returns (result: TakeResult)
      requires Resting(Value())
      modifies this
      ensures PhaseFields(Value(), AfterSection(old(Value()), ServiceProtocol.Take))
      ensures Value() == NextFields(old(Value()), InService(ServiceProtocol.Take))
      ensures result.Refused? <==> old(closed)
      ensures !result.Refused? ==> Cleared(Value()) && (if result.Old? then [result.i] else []) == AsList(old(instance))
      ensures Value() == if result.Old? then old(Value()).(instance := None, status := Stopping) else old(Value())
    {
      if closed {
        return Refused;
      }
      match instance
      case None => result := Fresh;
      case Some(i) =>
        instance := None;
        status := Stopping;
        result := Old(i);
    }

    method Begin(ghost reload: bool)
      requires PhaseFields(Value(), InService(ServiceProtocol.Begin(reload)))
      modifies this
      ensures PhaseFields(Value(), CallNew)
      ensures Value() == NextFields(old(Value()), InService(ServiceProtocol.Begin(reload)))
      ensures Value() == old(Value()).(startInterrupted := false, status := Starting)
    {
      startInterrupted := false;
      status := Starting;
    }

    method CreateError()
      requires PhaseFields(Value(), InService(ServiceProtocol.CreateError))
      modifies this
      ensures Resting(Value()) && Value() == NextFields(old(Value()), InService(ServiceProtocol.CreateError))
      ensures Value() == old(Value()).(status := Fatal)
    {
      status := Fatal;
    }

    method Publish(i: nat)
      requires PhaseFields(Value(), InService(ServiceProtocol.Publish(i)))
      modifies this
      ensures PhaseFields(Value(), CallStart(i))
      ensures Value() == NextFields(old(Value()), InService(ServiceProtocol.Publish(i)))
      ensures Value() == old(Value()).(instance := Some(i))
    {
      instance := Some(i);
    }

    /** Ends the start of `i`: what is not running afterwards has been taken out and is to be closed by the caller. */
    method Decide(ghost i: nat, ok: bool) returns (decision: Decision)
      requires PhaseFields(Value(), InService(ServiceProtocol.Decide(i, ok)))
      modifies this
      ensures PhaseFields(Value(), AfterSection(old(Value()), ServiceProtocol.Decide(i, ok)))
      ensures Value() == NextFields(old(Value()), InService(ServiceProtocol.Decide(i, ok)))
      ensures decision.Abandon? <==> old(startInterrupted)
      ensures decision.Succeed? <==> ok && !old(startInterrupted)
      ensures decision.Abandon? ==> Value() == old(Value()).(startInterrupted := false, instance := None)
      ensures decision.Fail? ==> Value() == old(Value()).(instance := None, status := Fatal)
      ensures decision.Succeed? ==> Value() == old(Value()).(startedAt := true, status := Started)
      ensures decision.Succeed? ==> instance == Some(i)
      ensures !decision.Succeed? <==> Cleared(Value())
    {
      if startInterrupted {
        startInterrupted := false;
        instance := None;
        return Abandon;
      }
      if !ok {
        instance := None;
        status := Fatal;
        return Fail;
      }
      startedAt := true;
      status := Started;
      decision := Succeed;
    }

    /** Takes the instance out; there is nothing to do only if no instance and no unfinished start is there. */
    method StopTake() returns (proceed: bool, taken: Option<nat>)
      requires Resting(Value())
      modifies this
      ensures PhaseFields(Value(), AfterSection(old(Value()), ServiceProtocol.StopTake))
      ensures Value() == NextFields(old(Value()), InService(ServiceProtocol.StopTake))
      ensures taken == old(instance) && Cleared(Value())
      ensures proceed <==> old(instance).Some? || old(status) == Starting || old(status) == Started
      ensures Value() == if proceed then old(Value()).(instance := None, status := Stopping) else old(Value())
    {
      taken := instance;
      if taken == None && status != Starting && status != Started {
        return false, taken;
      }
      instance := None;
      status := Stopping;
      proceed := true;
    }

    method StopEnd()
      requires PhaseFields(Value(), InService(ServiceProtocol.StopEnd))
      modifies this
      ensures PhaseFields(Value(), ReleaseLifecycle(StopOp))
      ensures Value() == NextFields(old(Value()), InService(ServiceProtocol.StopEnd))
      ensures Value() == old(Value()).(startedAt := false, status := Idle)
    {
      startedAt := false;
      status := Idle;
    }

    // ----- Whole calls, with the lifecycle lock taken -----

    /** Other threads come in while the owner is at `owner`. */
    method Gap(events: seq<Disturbance>, ghost owner: Pc)
      requires PhaseFields(Value(), owner) && HoldsLifecycle(owner)
      modifies this
      ensures PhaseFields(Value(), owner) && Value() == Disturbed(old(Value()), events)
    {
      var k := 0;
      assert events[0..] == events;
      while k < |events|
        invariant 0 <= k <= |events| && PhaseFields(Value(), owner)
        invariant Disturbed(Value(), events[k..]) == Disturbed(old(Value()), events)
      {
        assert events[k..][1..] == events[k + 1..];
        match events[k] {
          case Interruption => var _ := InterruptStart(owner);
          case Error => SetFatal(owner);
          case Closing => SetClosed(owner);
        }
        k := k + 1;
      }
    }

    /** The first part of a start: stops what is running.  `closing` comes in while the old instance is closed. */
    method MakeRoom(closing: seq<Disturbance>) returns (refused: bool, closes: seq<nat>)
      requires Resting(Value())
      modifies this
      ensures refused <==> old(closed)
      ensures refused ==> closes == [] && Value() == old(Value())
      ensures !refused ==> closes == AsList(old(instance)) && PhaseFields(Value(), CallNew) && status == Starting
      ensures startedAt == old(startedAt)
      ensures closed <==> old(closed) || (old(instance).Some? && Closing in closing)
    {
      closes := [];
      var taken := Take();
      if taken.Refused? {
        return true, closes;
      }
      if taken.Old? {
        DisturbedStart(Value(), closing);
        Gap(closing, CallClose(Some(taken.i), ThenBegin));
        closes := [taken.i];
      }
      Begin(taken.Old?);
      refused := false;
    }

    /** The second part: the new instance is published and started.  `starting` comes in meanwhile. */
    method Launch(created: nat, startOk: bool, starting: seq<Disturbance>) returns (decision: Decision)
      requires Cleared(Value()) && OneOf(Value(), Starting)
      modifies this
      ensures decision.Abandon? <==> old(status) == Starting && InterruptFirst(starting)
      ensures decision.Succeed? <==> startOk && !decision.Abandon?
      ensures decision.Succeed? ==> Resting(Value()) && instance == Some(created) && status == Started && startedAt
      ensures !decision.Succeed? ==> PhaseFields(Value(), CallClose(Some(created), ThenReturn))
      ensures decision.Fail? ==> status == Fatal
      ensures decision.Abandon? ==> status == if Error in starting then Fatal else Starting
      ensures startedAt <==> decision.Succeed? || old(startedAt)
      ensures closed <==> old(closed) || Closing in starting
    {
      Publish(created);
      DisturbedStart(Value(), starting);
      Gap(starting, CallStart(created));
      decision := Decide(created, startOk);
    }

    /** Stops what is running and then starts the instance numbered `created`.  `closing`, `creating`, `starting` and
        `leaving` are what comes in while the old instance is closed, the new one is created, started, and closed again
        after a start that did not succeed. */
    method StartOrReloadService(created: nat, newOk: bool, startOk: bool, closing: seq<Disturbance>,
                                creating: seq<Disturbance>, starting: seq<Disturbance>, leaving: seq<Disturbance>)
      returns (result: StartResult, closes: seq<nat>)
      requires Resting(Value())
      modifies this
      ensures Resting(Value())
      ensures result.Refusal? <==> old(closed)
      ensures result.CreateFailed? <==> !old(closed) && !newOk
      ensures result.Abandoned? <==> !old(closed) && newOk && Error !in creating && InterruptFirst(starting)
      ensures result.Running? <==> !old(closed) && newOk && startOk && !result.Abandoned?
      ensures result.Refusal? ==> closes == [] && Value() == old(Value())
      ensures !result.Refusal? ==>
                closes == AsList(old(instance)) + if result.Abandoned? || result.StartFailed? then [created] else []
      ensures result.Running? ==> instance == Some(created) && status == Started && startedAt
      ensures !result.Refusal? && !result.Running? ==> instance.None?
      ensures result.CreateFailed? || result.StartFailed? ==> status == Fatal
      ensures result.Abandoned? ==> status == if Error in starting || Error in leaving then Fatal else Starting
      ensures startedAt <==> result.Running? || old(startedAt)
      ensures closed <==> old(closed) || (old(instance).Some? && Closing in closing) || Closing in creating ||
                          (newOk && Closing in starting) ||
                          ((result.Abandoned? || result.StartFailed?) && Closing in leaving)
    {
      var refused;
      refused, closes := MakeRoom(closing);
      if refused {
        return Refusal, closes;
      }
      DisturbedStart(Value(), creating);
      Gap(creating, CallNew);
      if !newOk {
        CreateError();
        return CreateFailed, closes;
      }
      var decision := Launch(created, startOk, starting);
      if decision.Succeed? {
        return Running, closes;
      }
      DisturbedStart(Value(), leaving);
      Gap(leaving, CallClose(Some(created), ThenReturn));
      closes := closes + [created];
      result := if decision.Abandon? then Abandoned else StartFailed;
    }

    /** Stops what is running, if anything is; errors that come in `meanwhile` are overwritten. */
    method CloseService(meanwhile: seq<Disturbance>) returns (closes: seq<nat>)
      requires Resting(Value())
      modifies this
      ensures Resting(Value()) && instance.None? && (status == Idle || status == Fatal)
      ensures closes == AsList(old(instance))
      ensures if old(instance).None? && old(status) != Starting && old(status) != Started then Value() == old(Value())
              else status == Idle && !startedAt && (closed <==> old(closed) || Closing in meanwhile)
    {
      var proceed, taken := StopTake();
      if !proceed {
        return [];
      }
      DisturbedStart(Value(), meanwhile);
      Gap(meanwhile, CallClose(taken, ThenStopEnd));
      StopEnd();
      closes := if taken.Some? then [taken.value] else [];
    }
  }
}
