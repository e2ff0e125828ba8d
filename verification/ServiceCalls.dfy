/** What each call of the service does, from its first step to its return, over whole runs. */
module ServiceCalls {
  import opened Prelude
  import opened ServiceState
  import opened ServiceProtocol
  import opened ServiceInvariant
  import opened ServiceTheorems

  /** The calls of a run in the order in which they were made; thread `t` runs call number `t`. */
  function CallsOf(run: seq<Action>): seq<Call> {
    if run == [] then [] else (if run[0].Spawn? then [run[0].call] else []) + CallsOf(run[1..])
  }

  /** Something a thread has done: the point it was at, and how the slow call there ended. */
  datatype Deed = Did(pc: Pc, ok: bool)

  function Ran(sec: Section): Deed {
    Did(InService(sec), true)
  }

  /** Waiting for a lock is no deed; only creating and starting an instance can fail. */
  function DeedOf(pc: Pc, ok: bool): seq<Deed> {
    if pc.AwaitService? || pc.AwaitLifecycle? || pc.AwaitLog? || pc.AwaitRead? || pc.Done? then []
    else [Did(pc, ok || !(pc.CallNew? || pc.CallStart?))]
  }

  /** What thread `t` does in a run. */
  function Deeds(s: State, run: seq<Action>, t: nat): seq<Deed>
    requires Possible(s, run)
    decreases |run|
  {
    if run == [] then [] else Mine(s, run[0], t) + Deeds(Act(s, run[0]), run[1..], t)
  }

  /** The part of thread `t` in an action. */
  function Mine(s: State, a: Action, t: nat): seq<Deed> {
    if a.Step? && a.t == t < |s.pcs| then DeedOf(s.pcs[t], a.ok) else []
  }

  // ----- How far a call has come -----

  /** The way of a start up to the creation of its instance: on a service without one the log is reset, as a reload the
      old instance is closed. */
  predicate WayIn(ds: seq<Deed>) {
    && |ds| == 4 && ds[..2] == [Ran(Interrupt(StartOp)), Ran(Take)]
    && (|| ds[2..] == [Ran(Begin(false)), Did(InLog(ResetInStart), true)]
        || (ds[2].pc.CallClose? && ds[2].pc.target.Some? && ds[2].pc.next == ThenBegin && ds[2].ok &&
            ds[3] == Ran(Begin(true))))
  }

  /** The deeds of a start that has not returned, by the point it is at. */
  predicate StartStory(ds: seq<Deed>, pc: Pc) {
    match pc
    case AwaitService(sec) => StartSection(ds, sec)
    case InService(sec) => StartSection(ds, sec)
    case AwaitLifecycle(op) => op.StartOp? && ds == [Ran(Interrupt(StartOp))]
    case AwaitLog(log) => log.ResetInStart? && ds == [Ran(Interrupt(StartOp)), Ran(Take), Ran(Begin(false))]
    case InLog(log) => log.ResetInStart? && ds == [Ran(Interrupt(StartOp)), Ran(Take), Ran(Begin(false))]
    case CallNew => WayIn(ds)
    case CallStart(i) => |ds| == 6 && WayIn(ds[..4]) && ds[4..] == [Did(CallNew, true), Ran(Publish(i))]
    case CallClose(target, next) =>
      && target.Some?
      && (if next.ThenBegin? then ds == [Ran(Interrupt(StartOp)), Ran(Take)]
          else next.ThenReturn? && |ds| == 8 && Decided8(ds, target.value, ds[6].ok))
    case ReleaseLifecycle(op) =>
      && op.StartOp?
      && (|| ds == [Ran(Interrupt(StartOp)), Ran(Take)]
          || (|ds| == 6 && WayIn(ds[..4]) && ds[4..] == [Did(CallNew, false), Ran(CreateError)])
          || (|ds| == 8 && ds[7].pc.InService? && ds[7].pc.sec.Decide? && Decided8(ds, ds[7].pc.sec.i, true))
          || (|ds| == 9 && ds[7].pc.InService? && ds[7].pc.sec.Decide? &&
              Decided8(ds[..8], ds[7].pc.sec.i, ds[6].ok) &&
              ds[8] == Did(CallClose(Some(ds[7].pc.sec.i), ThenReturn), true)))
    case _ => false
  }

  /** Instance `i` has been created, published and started, with outcome `ok`, and the start has been decided. */
  predicate Decided8(ds: seq<Deed>, i: nat, ok: bool)
    requires |ds| == 8
  {
    WayIn(ds[..4]) &&
    ds[4..] == [Did(CallNew, true), Ran(Publish(i)), Did(CallStart(i), ok), Ran(Decide(i, ok))]
  }

  predicate StartSection(ds: seq<Deed>, sec: Section) {
    match sec
    case Interrupt(op) => op.StartOp? && ds == []
    case Take => ds == [Ran(Interrupt(StartOp))]
    case Begin(reload) =>
      if reload then |ds| == 3 && WayIn(ds + [Ran(Begin(true))]) else ds == [Ran(Interrupt(StartOp)), Ran(Take)]
    case CreateError => |ds| == 5 && WayIn(ds[..4]) && ds[4] == Did(CallNew, false)
    case Publish(i) => |ds| == 5 && WayIn(ds[..4]) && ds[4] == Did(CallNew, true)
    case Decide(i, ok) =>
      |ds| == 7 && WayIn(ds[..4]) && ds[4..] == [Did(CallNew, true), Ran(Publish(i)), Did(CallStart(i), ok)]
    case _ => false
  }

  /** The same for a stop. */
  predicate StopStory(ds: seq<Deed>, pc: Pc) {
    var taken := [Ran(Interrupt(StopOp)), Ran(StopTake)];
    match pc
    case AwaitService(sec) => StopSection(ds, sec)
    case InService(sec) => StopSection(ds, sec)
    case AwaitLifecycle(op) => op.StopOp? && ds == [Ran(Interrupt(StopOp))]
    case CallClose(_, next) => next.ThenStopEnd? && ds == taken
    case ReleaseLifecycle(op) =>
      && op.StopOp?
      && (ds == taken || (|ds| == 4 && StopSection(ds[..3], StopEnd) && ds[3] == Ran(StopEnd)))
    case _ => false
  }

  predicate StopSection(ds: seq<Deed>, sec: Section) {
    match sec
    case Interrupt(op) => op.StopOp? && ds == []
    case StopTake => ds == [Ran(Interrupt(StopOp))]
    case StopEnd =>
      && |ds| == 3 && ds[..2] == [Ran(Interrupt(StopOp)), Ran(StopTake)]
      && ds[2].pc.CallClose? && ds[2].pc.next.ThenStopEnd? && ds[2].ok
    case _ => false
  }

  /** And for the short calls. */
  predicate ShortStory(call: Call, ds: seq<Deed>, pc: Pc) {
    match call
    case SetError =>
      || (ds == [] && (pc == AwaitService(SetFatal) || pc == InService(SetFatal)))
      || (ds == [Ran(SetFatal)] && (pc == AwaitLog(WriteLog) || pc == InLog(WriteLog)))
    case Close => ds == [] && (pc == AwaitService(SetClosed) || pc == InService(SetClosed))
    case Follow => ds == [] && (pc == AwaitRead || pc == InRead)
    case WriteMessage => ds == [] && (pc == AwaitLog(WriteLog) || pc == InLog(WriteLog))
    case ClearLogs => ds == [] && (pc == AwaitLog(ClearLog) || pc == InLog(ClearLog))
    case _ => false
  }

  predicate Story(call: Call, ds: seq<Deed>, pc: Pc) {
    match call
    case StartOrReloadService => StartStory(ds, pc)
    case CloseService => StopStory(ds, pc)
    case _ => ShortStory(call, ds, pc)
  }

  /** The point a call returns from. */
  predicate IsLast(call: Call, pc: Pc) {
    match call
    case StartOrReloadService => pc.ReleaseLifecycle?
    case CloseService => pc.ReleaseLifecycle?
    case Close => pc == InService(SetClosed)
    case Follow => pc.InRead?
    case _ => pc.InLog?
  }

  predicate Over(call: Call, ds: seq<Deed>) {
    ds != [] && IsLast(call, ds[|ds| - 1].pc) && Story(call, ds[..|ds| - 1], ds[|ds| - 1].pc) && ds[|ds| - 1].ok
  }

  predicate Told(call: Call, ds: seq<Deed>, pc: Pc) {
    if pc.Done? then Over(call, ds) else Story(call, ds, pc)
  }

  // ----- Every step goes on with the story -----

  lemma SectionGoesOn(f: Fields, ds: seq<Deed>, sec: Section)
    requires StartSection(ds, sec)
    ensures StartStory(ds + [Ran(sec)], AfterSection(f, sec))
  {
    var ds' := ds + [Ran(sec)];
    assert ds'[..|ds|] == ds && ds'[|ds|] == Ran(sec);
    if |ds| >= 4 {
      assert ds'[..4] == ds[..4];
    }
  }

  lemma StartGoesOn(f: Fields, ds: seq<Deed>, pc: Pc, ok: bool, created: nat)
    requires StartStory(ds, pc)
    ensures Told(StartOrReloadService, ds + DeedOf(pc, ok), NextPc(f, pc, ok, created))
  {
    if pc.InService? {
      SectionGoesOn(f, ds, pc.sec);
      assert !AfterSection(f, pc.sec).Done?;
    } else {
      var ds' := ds + DeedOf(pc, ok);
      assert DeedOf(pc, ok) == [] ==> ds' == ds;
      assert |ds'| > |ds| ==> ds'[..|ds|] == ds && ds'[|ds|] == DeedOf(pc, ok)[0];
      if |ds| >= 4 {
        assert ds'[..4] == ds[..4];
      }
    }
  }

  lemma StopSectionGoesOn(f: Fields, ds: seq<Deed>, sec: Section)
    requires StopSection(ds, sec)
    ensures StopStory(ds + [Ran(sec)], AfterSection(f, sec))
  {
    var ds' := ds + [Ran(sec)];
    assert ds'[..|ds|] == ds && ds'[|ds|] == Ran(sec);
  }

  lemma StopGoesOn(f: Fields, ds: seq<Deed>, pc: Pc, ok: bool, created: nat)
    requires StopStory(ds, pc)
    ensures Told(CloseService, ds + DeedOf(pc, ok), NextPc(f, pc, ok, created))
  {
    var ds' := ds + DeedOf(pc, ok);
    if pc.InService? {
      StopSectionGoesOn(f, ds, pc.sec);
    } else if DeedOf(pc, ok) == [] {
      assert ds' == ds;
    } else {
      assert ds' == ds + [Did(pc, true)];
      assert ds'[..|ds|] == ds && ds'[|ds|] == Did(pc, true);
      if pc.CallClose? {
        assert ds'[..2] == ds;
      }
    }
  }

  lemma ShortGoesOn(call: Call, f: Fields, ds: seq<Deed>, pc: Pc, ok: bool, created: nat)
    requires ShortStory(call, ds, pc) && !call.StartOrReloadService? && !call.CloseService?
    ensures Told(call, ds + DeedOf(pc, ok), NextPc(f, pc, ok, created))
  {
    var deed, next := DeedOf(pc, ok), NextPc(f, pc, ok, created);
    if deed == [] {
      assert ds + deed == ds;
    } else {
      assert deed == [Did(pc, true)];
      assert (ds + deed)[..|ds|] == ds && (ds + deed)[|ds|] == Did(pc, true);
      if ds == [] {
        assert ds + deed == deed;
      }
    }
  }

  lemma GoesOn(call: Call, f: Fields, ds: seq<Deed>, pc: Pc, ok: bool, created: nat)
    requires Told(call, ds, pc) && !pc.Done?
    ensures Told(call, ds + DeedOf(pc, ok), NextPc(f, pc, ok, created))
  {
    match call
    case StartOrReloadService => StartGoesOn(f, ds, pc, ok, created);
    case CloseService => StopGoesOn(f, ds, pc, ok, created);
    case _ => ShortGoesOn(call, f, ds, pc, ok, created);
  }

  lemma Regroup(a: seq<Deed>, b: seq<Deed>, c: seq<Deed>)
    ensures a + b + c == a + (b + c)
  {
  }

  lemma TellsOne(s: State, a: Action, t: nat, call: Call, ds: seq<Deed>)
    requires CanAct(s, a) && t < |s.pcs| && Told(call, ds, s.pcs[t])
    ensures t < |Act(s, a).pcs| && Told(call, ds + Mine(s, a, t), Act(s, a).pcs[t])
  {
    if a.Step? && a.t == t {
      GoesOn(call, s.f, ds, s.pcs[t], a.ok, |s.instances|);
    } else {
      assert ds + [] == ds;
    }
  }

  lemma {:induction false} RunTold(s: State, run: seq<Action>, t: nat, call: Call, ds: seq<Deed>)
    requires Possible(s, run) && t < |s.pcs| && Told(call, ds, s.pcs[t])
    ensures t < |After(s, run).pcs| && Told(call, ds + Deeds(s, run, t), After(s, run).pcs[t])
    decreases |run|
  {
    if run == [] {
      assert ds + [] == ds;
    } else {
      TellsOne(s, run[0], t, call, ds);
      RunTold(Act(s, run[0]), run[1..], t, call, ds + Mine(s, run[0], t));
      Regroup(ds, Mine(s, run[0], t), Deeds(Act(s, run[0]), run[1..], t));
    }
  }

  lemma EntryTold(call: Call)
    ensures Told(call, [], Entry(call))
  {
  }

  lemma {:induction false} AsManyThreads(s: State, run: seq<Action>)
    requires Possible(s, run)
    ensures |After(s, run).pcs| == |s.pcs| + |CallsOf(run)|
    decreases |run|
  {
    if run == [] {
    } else {
      AsManyThreads(Act(s, run[0]), run[1..]);
    }
  }

  lemma {:induction false} Prefix(s: State, run: seq<Action>, k: nat)
    requires Possible(s, run) && k <= |run|
    ensures Possible(s, run[..k]) && Possible(After(s, run[..k]), run[k..])
    ensures After(After(s, run[..k]), run[k..]) == After(s, run)
    decreases |run|
  {
    if k == 0 {
      assert run[..0] == [] && run[0..] == run;
    } else {
      assert run[..k][0] == run[0] && run[..k][1..] == run[1..][..k - 1] && run[k..] == run[1..][k - 1..];
      Prefix(Act(s, run[0]), run[1..], k - 1);
    }
  }

  lemma {:induction false} NextMoment(s: State, run: seq<Action>, k: nat)
    requires Possible(s, run) && k < |run|
    ensures Possible(s, run[..k]) && CanAct(After(s, run[..k]), run[k]) && Possible(s, run[..k + 1])
    ensures After(s, run[..k + 1]) == Act(After(s, run[..k]), run[k])
    decreases |run|
  {
    if k == 0 {
      assert run[..0] == [] && run[..1] == [run[0]] && run[..1][1..] == [];
    } else {
      assert run[..k][0] == run[..k + 1][0] == run[0];
      assert run[..k][1..] == run[1..][..k - 1] && run[..k + 1][1..] == run[1..][..k];
      NextMoment(Act(s, run[0]), run[1..], k - 1);
    }
  }

  lemma CallsTail(run: seq<Action>, n: nat)
    requires run != [] && n < |CallsOf(run)| && !(run[0].Spawn? && n == 0)
    ensures var n' := if run[0].Spawn? then n - 1 else n;
            n' < |CallsOf(run[1..])| && CallsOf(run)[n] == CallsOf(run[1..])[n']
  {
  }

  /** A call that is yet to come has no part in the first action. */
  lemma NotYet(s: State, run: seq<Action>, t: nat)
    requires run != [] && Possible(s, run) && |s.pcs| <= t
    ensures Deeds(s, run, t) == Deeds(Act(s, run[0]), run[1..], t)
  {
    assert Mine(s, run[0], t) == [];
    assert [] + Deeds(Act(s, run[0]), run[1..], t) == Deeds(Act(s, run[0]), run[1..], t);
  }

  lemma {:induction false} CallsTell(s: State, run: seq<Action>, t: nat)
    requires Possible(s, run) && |s.pcs| <= t < |s.pcs| + |CallsOf(run)|
    ensures t < |After(s, run).pcs| && Told(CallsOf(run)[t - |s.pcs|], Deeds(s, run, t), After(s, run).pcs[t])
    decreases |run|
  {
    if run[0].Spawn? && t == |s.pcs| {
      FromTheCall(s, run, t);
      assert CallsOf(run)[0] == run[0].call;
    } else {
      CallsTail(run, t - |s.pcs|);
      NotYet(s, run, t);
      CallsTell(Act(s, run[0]), run[1..], t);
    }
  }

  lemma RunTells(run: seq<Action>, t: nat)
    requires Possible(START, run) && t < |CallsOf(run)|
    ensures t < |After(START, run).pcs| && Told(CallsOf(run)[t], Deeds(START, run, t), After(START, run).pcs[t])
  {
    CallsTell(START, run, t);
  }

  lemma FromTheCall(s: State, run: seq<Action>, t: nat)
    requires run != [] && Possible(s, run) && run[0].Spawn? && t == |s.pcs|
    ensures t < |After(s, run).pcs| && Told(run[0].call, Deeds(s, run, t), After(s, run).pcs[t])
  {
    var s' := Act(s, run[0]);
    EntryTold(run[0].call);
    RunTold(s', run[1..], t, run[0].call, []);
    assert [] + Deeds(s', run[1..], t) == Deeds(s, run, t);
  }

  // ----- What a finished call has done -----

  /** A stop interrupts, takes the instance out under the lifecycle lock, and if there was something to stop closes it
      and ends. */
  lemma StopDeeds(run: seq<Action>, t: nat)
    requires Possible(START, run) && t < |CallsOf(run)| && CallsOf(run)[t] == CloseService
    ensures t < |After(START, run).pcs|
    ensures After(START, run).pcs[t].Done? ==>
              var ds := Deeds(START, run, t);
              || ds == [Did(InService(Interrupt(StopOp)), true), Did(InService(StopTake), true),
                        Did(ReleaseLifecycle(StopOp), true)]
              || exists target ::
                   ds == [Did(InService(Interrupt(StopOp)), true), Did(InService(StopTake), true),
                          Did(CallClose(target, ThenStopEnd), true), Did(InService(StopEnd), true),
                          Did(ReleaseLifecycle(StopOp), true)]
  {
    RunTells(run, t);
    if After(START, run).pcs[t].Done? {
      StopShapes(Deeds(START, run, t));
    }
  }

  lemma StopShapes(ds: seq<Deed>)
    requires Over(CloseService, ds)
    ensures || ds == [Ran(Interrupt(StopOp)), Ran(StopTake), Did(ReleaseLifecycle(StopOp), true)]
            || exists target ::
                 ds == [Ran(Interrupt(StopOp)), Ran(StopTake), Did(CallClose(target, ThenStopEnd), true), Ran(StopEnd),
                        Did(ReleaseLifecycle(StopOp), true)]
  {
    var n := |ds| - 1;
    var before, last := ds[..n], Did(ReleaseLifecycle(StopOp), true);
    assert ds[n] == last && ds == before + [last];
    if n == 4 {
      var target := before[2].pc.target;
      assert before == before[..3] + [before[3]] && before[..3] == before[..3][..2] + [before[2]];
      assert ds == [Ran(Interrupt(StopOp)), Ran(StopTake), Did(CallClose(target, ThenStopEnd), true), Ran(StopEnd),
                    last];
    }
  }

  /** A start that was not refused comes to the creation of its instance as `WayIn` says. */
  lemma StartDeeds(run: seq<Action>, t: nat)
    requires Possible(START, run) && t < |CallsOf(run)| && CallsOf(run)[t] == StartOrReloadService
    ensures t < |After(START, run).pcs|
    ensures After(START, run).pcs[t].Done? ==>
              var ds := Deeds(START, run, t);
              || ds == [Did(InService(Interrupt(StartOp)), true), Did(InService(Take), true),
                        Did(ReleaseLifecycle(StartOp), true)]
              || (|ds| > 4 && WayIn(ds[..4]) &&
                  (|| ds[4..] == [Did(CallNew, false), Did(InService(CreateError), true),
                                  Did(ReleaseLifecycle(StartOp), true)]
                   || (exists i ::
                         ds[4..] == [Did(CallNew, true), Did(InService(Publish(i)), true), Did(CallStart(i), true),
                                     Did(InService(Decide(i, true)), true), Did(ReleaseLifecycle(StartOp), true)])
                   || exists i, ok ::
                        ds[4..] == [Did(CallNew, true), Did(InService(Publish(i)), true), Did(CallStart(i), ok),
                                    Did(InService(Decide(i, ok)), true), Did(CallClose(Some(i), ThenReturn), true),
                                    Did(ReleaseLifecycle(StartOp), true)]))
  {
    RunTells(run, t);
    if After(START, run).pcs[t].Done? {
      StartShapes(Deeds(START, run, t));
    }
  }

  lemma StartShapes(ds: seq<Deed>)
    requires Over(StartOrReloadService, ds)
    ensures || ds == [Ran(Interrupt(StartOp)), Ran(Take), Did(ReleaseLifecycle(StartOp), true)]
            || (|ds| > 4 && WayIn(ds[..4]) &&
                (|| ds[4..] == [Did(CallNew, false), Ran(CreateError), Did(ReleaseLifecycle(StartOp), true)]
                 || (exists i ::
                       ds[4..] == [Did(CallNew, true), Ran(Publish(i)), Did(CallStart(i), true), Ran(Decide(i, true)),
                                   Did(ReleaseLifecycle(StartOp), true)])
                 || exists i, ok ::
                      ds[4..] == [Did(CallNew, true), Ran(Publish(i)), Did(CallStart(i), ok), Ran(Decide(i, ok)),
                                  Did(CallClose(Some(i), ThenReturn), true), Did(ReleaseLifecycle(StartOp), true)]))
  {
    var n := |ds| - 1;
    var before, last := ds[..n], Did(ReleaseLifecycle(StartOp), true);
    assert ds[n] == last && ds == before + [last];
    if n >= 4 {
      assert ds[..4] == before[..4] && ds[4..] == before[4..] + [last];
    }
    if n == 8 {
      var i := before[7].pc.sec.i;
      assert ds[4..] == [Did(CallNew, true), Ran(Publish(i)), Did(CallStart(i), true), Ran(Decide(i, true)), last];
    } else if n == 9 {
      var i, ok := before[7].pc.sec.i, before[6].ok;
      assert before[..8][..4] == before[..4] && before == before[..8] + [before[8]];
      assert before[4..] == before[..8][4..] + [before[8]];
      assert before[..8][6] == before[6];
      assert ds[4..] == [Did(CallNew, true), Ran(Publish(i)), Did(CallStart(i), ok), Ran(Decide(i, ok)),
                         Did(CallClose(Some(i), ThenReturn), true), last];
    }
  }

  /** The short calls. */
  lemma ShortDeeds(run: seq<Action>, t: nat)
    requires Possible(START, run) && t < |CallsOf(run)|
    ensures t < |After(START, run).pcs|
    ensures After(START, run).pcs[t].Done? ==>
              var ds := Deeds(START, run, t);
              && (CallsOf(run)[t] == SetError ==> ds == [Did(InService(SetFatal), true), Did(InLog(WriteLog), true)])
              && (CallsOf(run)[t] == Close ==> ds == [Did(InService(SetClosed), true)])
              && (CallsOf(run)[t] == Follow ==> ds == [Did(InRead, true)])
              && (CallsOf(run)[t] == WriteMessage ==> ds == [Did(InLog(WriteLog), true)])
              && (CallsOf(run)[t] == ClearLogs ==> ds == [Did(InLog(ClearLog), true)])
  {
    RunTells(run, t);
    if After(START, run).pcs[t].Done? {
      ShortShapes(CallsOf(run)[t], Deeds(START, run, t));
    }
  }

  lemma ShortShapes(call: Call, ds: seq<Deed>)
    requires Over(call, ds)
    ensures call == SetError ==> ds == [Did(InService(SetFatal), true), Did(InLog(WriteLog), true)]
    ensures call == Close ==> ds == [Did(InService(SetClosed), true)]
    ensures call == Follow ==> ds == [Did(InRead, true)]
    ensures call == WriteMessage ==> ds == [Did(InLog(WriteLog), true)]
    ensures call == ClearLogs ==> ds == [Did(InLog(ClearLog), true)]
  {
    if !call.StartOrReloadService? && !call.CloseService? {
      ShortEnds(call, ds[..|ds| - 1], ds[|ds| - 1]);
      assert ds == ds[..|ds| - 1] + [ds[|ds| - 1]];
    }
  }

  lemma ShortEnds(call: Call, ds: seq<Deed>, last: Deed)
    requires ShortStory(call, ds, last.pc) && IsLast(call, last.pc) && last.ok
    requires !call.StartOrReloadService? && !call.CloseService?
    ensures call == SetError ==> ds + [last] == [Did(InService(SetFatal), true), Did(InLog(WriteLog), true)]
    ensures call == Close ==> ds + [last] == [Did(InService(SetClosed), true)]
    ensures call == Follow ==> ds + [last] == [Did(InRead, true)]
    ensures call == WriteMessage ==> ds + [last] == [Did(InLog(WriteLog), true)]
    ensures call == ClearLogs ==> ds + [last] == [Did(InLog(ClearLog), true)]
  {
  }

  predicate AtPublish(pc: Pc) {
    AtSection(pc) && pc.sec.Publish?
  }

  lemma StoryPoints(call: Call, ds: seq<Deed>, pc: Pc)
    requires Told(call, ds, pc) && !call.StartOrReloadService?
    ensures !pc.CallNew? && !pc.CallStart? && !AtPublish(pc)
    ensures !call.CloseService? ==> !pc.CallClose? && !pc.ReleaseLifecycle?
  {
  }

  /** A stop never creates, publishes or starts anything, and a short call touches no instance. */
  lemma OnlyStartsStart(run: seq<Action>, t: nat)
    requires Possible(START, run) && t < |CallsOf(run)| && CallsOf(run)[t] != StartOrReloadService
    ensures t < |After(START, run).pcs|
    ensures var pc := After(START, run).pcs[t];
            && !pc.CallNew? && !pc.CallStart? && !(AtSection(pc) && pc.sec.Publish?)
            && (CallsOf(run)[t] != CloseService ==> !pc.CallClose? && !pc.ReleaseLifecycle?)
  {
    RunTells(run, t);
    StoryPoints(CallsOf(run)[t], Deeds(START, run, t), After(START, run).pcs[t]);
  }

  // ----- What a finished call has achieved -----

  /** The moment of a deed: after `k` actions the thread is at that point, and the next action is its step. */
  ghost predicate Moment(s: State, run: seq<Action>, t: nat, d: Deed, k: nat)
    requires Possible(s, run)
  {
    && k < |run| && Possible(s, run[..k]) && run[k].Step? && run[k].t == t
    && t < |After(s, run[..k]).pcs| && d in DeedOf(After(s, run[..k]).pcs[t], run[k].ok)
  }

  lemma {:induction false} DeedHasMoment(s: State, run: seq<Action>, t: nat, d: Deed) returns (k: nat)
    requires Possible(s, run) && d in Deeds(s, run, t)
    ensures Moment(s, run, t, d, k)
    decreases |run|
  {
    if run[0].Step? && run[0].t == t && d in DeedOf(s.pcs[t], run[0].ok) {
      k := 0;
      assert run[..0] == [];
    } else {
      var rest := DeedHasMoment(Act(s, run[0]), run[1..], t, d);
      k := rest + 1;
      assert run[..k][0] == run[0] && run[..k][1..] == run[1..][..rest];
    }
  }

  lemma StateAt(run: seq<Action>, k: nat)
    requires Possible(START, run) && k <= |run|
    ensures Possible(START, run[..k]) && Reachable(After(START, run[..k]))
  {
    Prefix(START, run, k);
  }

  /** When a call of `CloseService` has returned, there was a moment, just before it did, with no instance, an idle or
      fatal status, and every instance that had been created closed exactly once. */
  lemma StopHasStopped(run: seq<Action>, t: nat)
    requires Possible(START, run) && t < |CallsOf(run)| && CallsOf(run)[t] == CloseService
    requires t < |After(START, run).pcs| && After(START, run).pcs[t].Done?
    ensures exists k :: 0 <= k <= |run| && Possible(START, run[..k]) &&
              var s := After(START, run[..k]);
              && t < |s.pcs| && s.pcs[t] == ReleaseLifecycle(StopOp)
              && s.f.instance.None? && (s.f.status == Idle || s.f.status == Fatal)
              && forall i :: 0 <= i < |s.instances| ==> |s.instances[i].closers| == 1
  {
    StopDeeds(run, t);
    var d := Did(ReleaseLifecycle(StopOp), true);
    var ds := Deeds(START, run, t);
    assert ds[|ds| - 1] == d;
    var k := DeedHasMoment(START, run, t, d);
    StateAt(run, k);
    StopLeavesNothing(After(START, run[..k]), t);
  }

  /** When a call of `SetError` has returned, there was a moment with a fatal status, before it wrote to the log. */
  lemma ErrorWasShown(run: seq<Action>, t: nat)
    requires Possible(START, run) && t < |CallsOf(run)| && CallsOf(run)[t] == SetError
    requires t < |After(START, run).pcs| && After(START, run).pcs[t].Done?
    ensures exists k :: 0 <= k <= |run| && Possible(START, run[..k]) &&
              var s := After(START, run[..k]); t < |s.pcs| && s.pcs[t] == AwaitLog(WriteLog) && s.f.status == Fatal
  {
    ShortDeeds(run, t);
    assert Deeds(START, run, t)[0] == Ran(SetFatal);
    var k := DeedHasMoment(START, run, t, Ran(SetFatal));
    NextMoment(START, run, k);
  }

  lemma {:induction false} ClosedForGood(s: State, run: seq<Action>)
    requires Possible(s, run) && s.f.closed
    ensures After(s, run).f.closed
    decreases |run|
  {
    if run == [] {
    } else {
      ClosedForGood(Act(s, run[0]), run[1..]);
    }
  }

  /** From the moment of the deed on. */
  lemma ClosedSince(run: seq<Action>, t: nat, k: nat)
    requires Possible(START, run) && Moment(START, run, t, Ran(SetClosed), k)
    ensures After(START, run).f.closed
  {
    NextMoment(START, run, k);
    Prefix(START, run, k + 1);
    ClosedForGood(After(START, run[..k + 1]), run[k + 1..]);
  }

  /** Once a call of `Close` has returned, the service is closed, for good. */
  lemma CloseHasClosed(run: seq<Action>, t: nat)
    requires Possible(START, run) && t < |CallsOf(run)| && CallsOf(run)[t] == Close
    requires t < |After(START, run).pcs| && After(START, run).pcs[t].Done?
    ensures After(START, run).f.closed
  {
    ShortDeeds(run, t);
    assert Deeds(START, run, t)[0] == Ran(SetClosed);
    var k := DeedHasMoment(START, run, t, Ran(SetClosed));
    ClosedSince(run, t, k);
  }

  // ----- What comes of a start -----

  /** The outcome of the start of thread `t`: its own instance runs, or it has closed its own instance itself. */
  ghost predicate OwnOutcome(f: Fields, instances: seq<Record>, t: nat) {
    exists i :: 0 <= i < |instances| && Outcome(f, instances[i], i, t)
  }

  ghost predicate ReleaseInv(s: State) {
    s.lifecycle.Some? && OwnerPc(s) == ReleaseLifecycle(StartOp) ==>
      s.f.closed || s.f.status == Fatal || OwnOutcome(s.f, s.instances, s.lifecycle.value)
  }

  /** The owner of the lifecycle lock comes to the end of its start. */
  lemma OwnerReleases(s: State, t: nat, ok: bool)
    requires Inv(s) && Enabled(s, t) && s.lifecycle == Some(t)
    requires NextPc(s.f, s.pcs[t], ok, |s.instances|) == ReleaseLifecycle(StartOp)
    ensures var s' := Exec(s, t, ok); s'.f.closed || s'.f.status == Fatal || OwnOutcome(s'.f, s'.instances, t)
  {
    var pc, s' := s.pcs[t], Exec(s, t, ok);
    if pc.CallClose? || (pc.InService? && pc.sec.Decide?) {
      var i := if pc.CallClose? then pc.target.value else pc.sec.i;
      assert LiveOf(s.f, pc) == Some(i);
      assert Known(s.f, s.lifecycle, OwnerPc(s), i, s.instances[i]);
      assert s'.instances[i] == NextRecord(s.f, pc, t, i, s.instances[i]);
    }
  }

  predicate Outcome(f: Fields, r: Record, i: nat, t: nat) {
    r.creator == t &&
    if f.instance == Some(i) then r.started && r.closers == [] else r.closers == [t] && !r.started
  }

  /** A step of another thread does not touch it. */
  lemma OutcomeKept(f: Fields, r: Record, i: nat, owner: nat, t: nat, pc: Pc, ok: bool)
    requires Outcome(f, r, i, owner) && !HoldsLifecycle(pc) && Resting(f)
    ensures Outcome(NextFields(f, pc), NextRecord(f, pc, t, i, r), i, owner)
  {
  }

  lemma OutcomeStays(s: State, t: nat, ok: bool, owner: nat)
    requires Inv(s) && Enabled(s, t) && s.lifecycle == Some(owner) && owner != t
    requires OwnerPc(s) == ReleaseLifecycle(StartOp) && OwnOutcome(s.f, s.instances, owner)
    ensures OwnOutcome(Exec(s, t, ok).f, Exec(s, t, ok).instances, owner)
  {
    var i :| 0 <= i < |s.instances| && Outcome(s.f, s.instances[i], i, owner);
    OutcomeKept(s.f, s.instances[i], i, owner, t, s.pcs[t], ok);
    assert Exec(s, t, ok).instances[i] == NextRecord(s.f, s.pcs[t], t, i, s.instances[i]);
  }

  lemma StepKeepsRelease(s: State, t: nat, ok: bool)
    requires Inv(s) && ReleaseInv(s) && Enabled(s, t)
    ensures ReleaseInv(Exec(s, t, ok))
  {
    OwnerAfter(s, t, ok);
    var s' := Exec(s, t, ok);
    if s'.lifecycle.Some? && OwnerPc(s') == ReleaseLifecycle(StartOp) {
      if s.lifecycle == Some(t) {
        OwnerReleases(s, t, ok);
      } else if !s.f.closed && s.f.status != Fatal {
        OutcomeStays(s, t, ok, s.lifecycle.value);
      }
    }
  }

  lemma {:induction false} RunKeepsRelease(s: State, run: seq<Action>)
    requires Inv(s) && ReleaseInv(s) && Possible(s, run)
    ensures Inv(After(s, run)) && ReleaseInv(After(s, run))
    decreases |run|
  {
    if run == [] {
    } else {
      ActKeepsInv(s, run[0]);
      if run[0].Step? {
        StepKeepsRelease(s, run[0].t, run[0].ok);
      }
      RunKeepsRelease(Act(s, run[0]), run[1..]);
    }
  }

  /** When a call of `StartOrReloadService` has returned, there was a moment, just before it did, at which the service
      was closed or showed an error, or the instance created by this very call was the running one, or this call had
      closed it. */
  lemma StartHasEnded(run: seq<Action>, t: nat)
    requires Possible(START, run) && t < |CallsOf(run)| && CallsOf(run)[t] == StartOrReloadService
    requires t < |After(START, run).pcs| && After(START, run).pcs[t].Done?
    ensures exists k :: 0 <= k <= |run| && Possible(START, run[..k]) &&
              var s := After(START, run[..k]);
              && t < |s.pcs| && s.pcs[t] == ReleaseLifecycle(StartOp)
              && (s.f.closed || s.f.status == Fatal || OwnOutcome(s.f, s.instances, t))
  {
    StartDeeds(run, t);
    var d := Did(ReleaseLifecycle(StartOp), true);
    var ds := Deeds(START, run, t);
    LastIsRelease(ds);
    var k := DeedHasMoment(START, run, t, d);
    StateAt(run, k);
    RunKeepsRelease(START, run[..k]);
    var s := After(START, run[..k]);
    assert HoldsLifecycle(s.pcs[t]);
  }

  lemma LastIsRelease(ds: seq<Deed>)
    requires ds != []
    requires var d := Did(ReleaseLifecycle(StartOp), true);
             ds[|ds| - 1] == d || (|ds| > 4 && ds[4..][|ds[4..]| - 1] == d)
    ensures Did(ReleaseLifecycle(StartOp), true) in ds
  {
  }

  // ----- Exclusion and branches -----

  /** The slow calls of two threads never overlap, nor do two sections of `serviceAccess`, nor a section and a reader,
      nor two sections of the log. */
  lemma OneAtATime(s: State, t: nat, u: nat)
    requires Reachable(s) && t < |s.pcs| && u < |s.pcs| && t != u
    ensures (s.pcs[t].CallNew? || s.pcs[t].CallStart? || s.pcs[t].CallClose?) ==>
              !(s.pcs[u].CallNew? || s.pcs[u].CallStart? || s.pcs[u].CallClose?)
    ensures s.pcs[t].InService? ==> !s.pcs[u].InService? && !s.pcs[u].InRead?
    ensures s.pcs[t].InLog? ==> !s.pcs[u].InLog?
  {
    ReachableInv(s);
  }

  /** Where the sections with a choice lead. */
  lemma Branches(s: State, t: nat, ok: bool)
    requires Reachable(s) && Enabled(s, t)
    ensures var pc, next := s.pcs[t], Exec(s, t, ok).pcs[t];
            && (pc == InService(Take) ==>
                  next == if s.f.closed then ReleaseLifecycle(StartOp)
                          else if s.f.instance.Some? then CallClose(s.f.instance, ThenBegin)
                          else InService(Begin(false)))
            && (pc == CallNew ==> next == AwaitService(if ok then Publish(|s.instances|) else CreateError))
            && (pc.CallStart? ==> next == AwaitService(Decide(pc.i, ok)))
            && (pc.InService? && pc.sec.Decide? ==>
                  (next == ReleaseLifecycle(StartOp) <==> pc.sec.ok && !s.f.startInterrupted))
            && (pc == InService(StopTake) ==>
                  (next == ReleaseLifecycle(StopOp) <==>
                     s.f.instance.None? && s.f.status != Starting && s.f.status != Started))
            && (pc == InService(StopTake) && next.CallClose? ==> next.target == s.f.instance)
  {
  }
}
