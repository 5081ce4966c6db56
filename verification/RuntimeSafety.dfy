/** What every run of the runtime controller keeps. */
module RuntimeSafety {
  import opened RuntimeModel

  /** No transitional state is left behind by a call. */
  ghost predicate Settled(r: Runtimes) {
    && (r.state.Stopped? || r.state.Running? || r.state.Failed?)
    && !r.host.CoreStarting? && !r.host.CoreStopping?
    && !r.tun.Starting? && !r.tun.Recovering?
  }

  /** A running runtime is the one the active mode names. */
  ghost predicate ModeAgrees(r: Runtimes) {
    && (r.mode.TunSingBox? <==> r.tun.Running?)
    && (r.host.CoreRunning? ==> r.mode.SystemProxyXray?)
  }

  ghost predicate RuntimesOk(r: Runtimes) {
    Settled(r) && ModeAgrees(r) && (r.lease ==> !r.host.CoreStopped?)
  }

  /** Callbacks fired, still owed by a shot, and still owed by the timer never exceed the waits. */
  ghost predicate WithinBudget(y: Readiness) {
    y.callbacks + y.pending + (if y.armed then 1 else 0) <= y.waits
  }

  ghost predicate Inv(s: Controller) {
    RuntimesOk(s.rt) && WithinBudget(s.ready)
  }

  // ---------- one lemma per call ----------

  /** Stopping always leaves nothing running; its result says whether the runtime agreed to stop. */
  lemma StopVerdict(r: Runtimes, i: StopInputs)
    requires RuntimesOk(r)
    ensures var (t, stopped) := StopStep(r, i);
      && RuntimesOk(t)
      && !IsCoreRunning(t) && t.mode.SystemProxyXray?
      && (stopped <==> (r.host.CoreRunning? ==> i.hostStops) && (r.tun.Running? ==> i.tunStops))
      && (t.state.Failed? <==> r.host.CoreRunning? && !i.hostStops) && (!t.state.Failed? ==> t.state.Stopped?)
      && t.host == (if !r.host.CoreRunning? then r.host else if i.hostStops then CoreStopped else CoreFailed)
      && (r.host.CoreFailed? ==> t.host.CoreFailed?)
  {
  }

  /** Without anything running, a stop settles the state and touches no runtime; a second stop changes nothing. */
  lemma StopTwice(r: Runtimes, i: StopInputs, j: StopInputs)
    requires RuntimesOk(r)
    ensures !IsCoreRunning(r) ==> StopStep(r, i) == (r.(state := Stopped), true)
    ensures var t := StopStep(r, i).0; StopStep(t, j) == (t.(state := Stopped), true)
  {
    StopVerdict(r, i);
  }

  /** Everything around the embedded core lets it start. */
  predicate XrayStarts(i: StartInputs) {
    i.xrayReady && i.hostAvailable && i.configValid && i.hostStart.Starts?
  }

  predicate TunStarts(i: StartInputs) {
    i.tunReady && i.tunSupported && i.helperStarts
  }

  /** The start is allowed, and whatever runs is stopped for it. */
  predicate WayIsClear(r: Runtimes, i: StartInputs) {
    && i.enabled && i.coreIsXray
    && (IsCoreRunning(r) ==>
          i.hasDialog && i.confirmed && (r.host.CoreRunning? ==> i.stop.hostStops)
          && (r.tun.Running? ==> i.stop.tunStops))
  }

  /** A launch succeeds exactly when its surroundings work and, for Xray, the embedded core has not failed. */
  lemma LaunchVerdict(r: Runtimes, i: StartInputs)
    requires RuntimesOk(r) && !IsCoreRunning(r)
    ensures var (t, started) := LaunchStep(r, i);
      && RuntimesOk(t)
      && (started <==> if i.tunMode then TunStarts(i) else XrayStarts(i) && !r.host.CoreFailed?)
      && (started <==> IsCoreRunning(t))
      && (started ==> t.state.Running? && (t.tun.Running? <==> i.tunMode) && (t.host.CoreRunning? <==> !i.tunMode))
      && (r.host.CoreFailed? ==> t.host.CoreFailed?)
  {
  }

  /**
   A start succeeds exactly when the way is clear, the surroundings of the requested runtime work and, for Xray, the
   embedded core has not failed; then the requested runtime, and only it, runs afterwards. A start that fails never
   leaves a runtime running that was not running before.
   */
  lemma StartVerdict(r: Runtimes, i: StartInputs)
    requires RuntimesOk(r)
    ensures var (t, started) := StartStep(r, i);
      && RuntimesOk(t)
      && (started <==> WayIsClear(r, i) && if i.tunMode then TunStarts(i) else XrayStarts(i) && !r.host.CoreFailed?)
      && (started ==> t.state.Running? && t.mode == (if i.tunMode then TunSingBox else SystemProxyXray))
      && (started ==> (t.tun.Running? <==> i.tunMode) && (t.host.CoreRunning? <==> !i.tunMode))
      && (!started && IsCoreRunning(t) ==> t == r)
      && (r.host.CoreFailed? ==> t.host.CoreFailed?)
  {
    StopVerdict(r, i.stop);
    if IsCoreRunning(r) {
      LaunchVerdict(StopStep(r, i.stop).0, i);
    } else {
      LaunchVerdict(r, i);
    }
  }

  /**
   What a launch that fails leaves: nothing is touched before the library or the helper is asked to start; after that
   the state is Failed, and so is the runtime that was asked, unless the library refused the request as such.
   */
  lemma LaunchFailure(r: Runtimes, i: StartInputs)
    requires RuntimesOk(r) && !IsCoreRunning(r) && !LaunchStep(r, i).1
    ensures var t := LaunchStep(r, i).0;
      var asked := if i.tunMode then i.tunReady && i.tunSupported
                   else i.xrayReady && i.hostAvailable && i.configValid && !r.host.CoreFailed?;
      && (!asked ==> t == r)
      && (asked ==> t.state.Failed? && t.mode == r.mode && t.tunnelUp == r.tunnelUp)
      && (asked && i.tunMode ==> t.tun.Failed? && t.host == r.host)
      && (asked && !i.tunMode ==> t.tun == r.tun && t.host == if i.hostStart.StartFails? then CoreFailed else r.host)
  {
  }

  /**
   A start that is not allowed or not confirmed touches nothing; one whose stop is refused ends there; any other is
   the launch after the stop.
   */
  lemma StartBranches(r: Runtimes, i: StartInputs)
    requires RuntimesOk(r)
    ensures !i.enabled || !i.coreIsXray || (IsCoreRunning(r) && (!i.hasDialog || !i.confirmed)) ==>
      StartStep(r, i) == (r, false)
    ensures i.enabled && i.coreIsXray && !IsCoreRunning(r) ==> StartStep(r, i) == LaunchStep(r, i)
    ensures i.enabled && i.coreIsXray && IsCoreRunning(r) && i.hasDialog && i.confirmed ==>
      var (t, stopped) := StopStep(r, i.stop); StartStep(r, i) == if stopped then LaunchStep(t, i) else (t, false)
  {
  }

  /** A shot or tick fires the callback at most once, and only while Xray itself runs and its port answered. */
  lemma CheckVerdict(r: Runtimes, y: Readiness, p: Probe)
    requires RuntimesOk(r) && WithinBudget(y)
    ensures forall d | d == ShotStep(r, y, p) || d == TickStep(r, y, p) ::
      && RuntimesOk(d.0) && WithinBudget(d.1)
      && y.callbacks <= d.1.callbacks <= y.callbacks + 1
      && (d.1.callbacks > y.callbacks ==>
          p.connected && r.host.CoreRunning? && r.mode.SystemProxyXray? && !r.tun.Running? && !d.1.armed)
      && (r.host.CoreFailed? ==> d.0.host.CoreFailed?)
  {
  }

  /** One readiness check, whether a shot or a tick brought it, while the embedded core runs. */
  ghost predicate Checked(r: Runtimes, y: Readiness, p: Probe, r': Runtimes, y': Readiness) {
    && y'.waits == y.waits
    && y'.callbacks == y.callbacks + (if p.connected && p.hasCallback then 1 else 0)
    && (y'.armed <==> !p.connected && !p.timedOut)
    && (p.connected || !p.timedOut ==> r' == r)
    && (!p.connected && p.timedOut ==>
          && r'.state.Failed? && !IsCoreRunning(r') && r'.mode == r.mode
          && r'.host == (if p.hostStops then CoreStopped else CoreFailed))
  }

  /**
   While the embedded core runs, a pending shot or an armed tick whose port answers fires the callback, if there is
   one, exactly once and disarms the timer; one that can still wait keeps the timer armed; one that has waited too
   long stops the core and fails. A shot uses up one pending shot, a tick none.
   */
  lemma ReadyVerdict(r: Runtimes, y: Readiness, p: Probe)
    requires RuntimesOk(r) && r.host.CoreRunning?
    ensures y.pending > 0 ==>
      var (r', y') := ShotStep(r, y, p); Checked(r, y, p, r', y') && y'.pending == y.pending - 1
    ensures y.armed ==>
      var (r', y') := TickStep(r, y, p); Checked(r, y, p, r', y') && y'.pending == y.pending
  {
  }

  /** While it does not run, a shot is only used up, and a tick does nothing; neither does what is not due. */
  lemma IdleVerdict(r: Runtimes, y: Readiness, p: Probe)
    requires RuntimesOk(r)
    ensures !r.host.CoreRunning? && y.pending > 0 ==> ShotStep(r, y, p) == (r, y.(pending := y.pending - 1))
    ensures !r.host.CoreRunning? ==> TickStep(r, y, p) == (r, y)
    ensures y.pending == 0 ==> ShotStep(r, y, p) == (r, y)
    ensures !y.armed ==> TickStep(r, y, p) == (r, y)
  {
  }

  /** A successful Xray start owes exactly one new shot and disarms the timer; any other start owes nothing. */
  lemma StartOwes(s: Controller, i: StartInputs)
    requires Inv(s)
    ensures var t := Step(s, Start(i));
      var owes := StartStep(s.rt, i).1 && !i.tunMode;
      && t.ready.pending == s.ready.pending + (if owes then 1 else 0)
      && t.ready.waits == s.ready.waits + (if owes then 1 else 0)
      && t.ready.callbacks == s.ready.callbacks
      && (t.ready.armed <==> s.ready.armed && !owes)
  {
  }

  /** So a start in system-proxy mode whose port answers at the first shot reaches its callback. */
  lemma StartThenFires(s: Controller, i: StartInputs, p: Probe)
    requires Inv(s) && !i.tunMode && StartStep(s.rt, i).1 && p.connected && p.hasCallback
    ensures Step(Step(s, Start(i)), Shot(p)).ready.callbacks == s.ready.callbacks + 1
    ensures Step(Step(s, Start(i)), Shot(p)).rt == Step(s, Start(i)).rt
  {
    StartVerdict(s.rt, i);
    StartOwes(s, i);
    ReadyVerdict(Step(s, Start(i)).rt, Step(s, Start(i)).ready, p);
  }

  lemma ShutdownVerdict(r: Runtimes, stopRuntime: bool, i: ShutdownInputs)
    requires RuntimesOk(r)
    ensures var t := ShutdownRuntimes(r, stopRuntime, i);
      && RuntimesOk(t)
      && (stopRuntime ==> !IsCoreRunning(t))
      && (!stopRuntime ==> t == r)
      && (r.host.CoreFailed? ==> t.host.CoreFailed?)
  {
    StopVerdict(r, i.stop);
  }

  lemma {:induction false} AskKeeps(r: Runtimes, t: Tally, restoreOnExit: bool, answers: seq<Answer>)
    requires RuntimesOk(r)
    ensures RuntimesOk(AskStep(r, t, restoreOnExit, answers).0)
    ensures r.host.CoreFailed? ==> AskStep(r, t, restoreOnExit, answers).0.host.CoreFailed?
    decreases |answers|
  {
    if answers != [] {
      match answers[0]
      case Cancel =>
      case Unrecognised => AskKeeps(r, t, restoreOnExit, answers[1..]);
      case ExitAnyway(i) => ShutdownVerdict(r, true, i);
      case Retry(restored, i) =>
        ShutdownVerdict(r, true, i);
        AskKeeps(r, RestoreStep(t, restoreOnExit, restored).0, restoreOnExit, answers[1..]);
    }
  }

  lemma QuitKeeps(r: Runtimes, t: Tally, q: QuitInputs)
    requires RuntimesOk(r)
    ensures RuntimesOk(QuitStep(r, t, q).0)
    ensures r.host.CoreFailed? ==> QuitStep(r, t, q).0.host.CoreFailed?
  {
    var shown := ConfirmShown(r, q);
    ShutdownVerdict(r, !shown || q.stopRuntime, q.first);
    var r' := ShutdownRuntimes(r, !shown || q.stopRuntime, q.first);
    AskKeeps(r', ShutdownRestore(r', t, false, !shown || q.restoreProxy, q.restoreOnExit, q.first).0,
             q.restoreOnExit, q.answers);
  }

  lemma StepKeeps(s: Controller, e: Event)
    requires Inv(s)
    ensures Inv(Step(s, e))
    ensures s.rt.host.CoreFailed? ==> Step(s, e).rt.host.CoreFailed?
  {
    match e
    case Start(i) => StartVerdict(s.rt, i);
    case Stop(i) => StopVerdict(s.rt, i);
    case Restart(i, j) =>
      StopVerdict(s.rt, i);
      StartVerdict(StopStep(s.rt, i).0, j);
    case Shot(p) => CheckVerdict(s.rt, s.ready, p);
    case Tick(p) => CheckVerdict(s.rt, s.ready, p);
    case Quit(q) => QuitKeeps(s.rt, s.tally, q);
    case QuitForUpdate(_, i) => ShutdownVerdict(s.rt, true, i);
    case _ =>
  }

  // ---------- every run ----------

  lemma {:induction false} RunKeeps(s: Controller, events: seq<Event>)
    requires Inv(s)
    ensures Inv(Run(s, events))
    decreases |events|
  {
    if events != [] {
      StepKeeps(s, events[0]);
      RunKeeps(Step(s, events[0]), events[1..]);
    }
  }

  /**
   In every reachable state at most one runtime runs by the controller's own test, the mode names
   it, no transitional state is left over, and the callback budget holds.
   */
  lemma ReachableStatesAreSafe(events: seq<Event>)
    ensures var s := Run(INITIAL, events);
      && !(HostBusy(s.rt.host) && s.rt.tun.Running?)
      && (HostBusy(s.rt.host) ==> s.rt.mode.SystemProxyXray?)
      && (s.rt.tun.Running? <==> s.rt.mode.TunSingBox?)
      && (s.rt.state.Stopped? || s.rt.state.Running? || s.rt.state.Failed?)
      && s.ready.callbacks + s.ready.pending + (if s.ready.armed then 1 else 0) <= s.ready.waits
  {
    RunKeeps(INITIAL, events);
  }

  /** This event is a check that is due, with Xray running, its port answering, and someone to call back. */
  ghost predicate Fires(s: Controller, e: Event) {
    && s.rt.host.CoreRunning?
    && ((e.Shot? && s.ready.pending > 0 && e.shot.connected && e.shot.hasCallback)
        || (e.Tick? && s.ready.armed && e.tick.connected && e.tick.hasCallback))
  }

  /** In every run the callback fires in exactly the checks that are due, once each, and only in system-proxy mode. */
  lemma CallbackGuard(events: seq<Event>, e: Event)
    ensures var s := Run(INITIAL, events);
      var t := Step(s, e);
      && t.ready.callbacks == s.ready.callbacks + (if Fires(s, e) then 1 else 0)
      && (Fires(s, e) ==> s.rt.mode.SystemProxyXray? && !s.rt.tun.Running? && !t.ready.armed && t.rt == s.rt)
  {
    var s := Run(INITIAL, events);
    RunKeeps(INITIAL, events);
    match e {
      case Shot(p) => DueCheck(s, e, p);
      case Tick(p) => DueCheck(s, e, p);
      case _ =>
    }
  }

  lemma DueCheck(s: Controller, e: Event, p: Probe)
    requires Inv(s) && (e == Shot(p) || e == Tick(p))
    ensures Step(s, e).ready.callbacks == s.ready.callbacks + (if Fires(s, e) then 1 else 0)
    ensures Fires(s, e) ==> !Step(s, e).ready.armed && Step(s, e).rt == s.rt
  {
    IdleVerdict(s.rt, s.ready, p);
    if s.rt.host.CoreRunning? {
      ReadyVerdict(s.rt, s.ready, p);
    }
  }

  /** Once the Xray library reports Failed (a failed start, a failed stop or a crash), no event ever resets it. */
  lemma {:induction false} FailedCoreStaysFailed(s: Controller, events: seq<Event>)
    requires Inv(s) && s.rt.host.CoreFailed?
    ensures Run(s, events).rt.host.CoreFailed?
    decreases |events|
  {
    if events != [] {
      StepKeeps(s, events[0]);
      FailedCoreStaysFailed(Step(s, events[0]), events[1..]);
    }
  }

  /**
   After any run, a start whose way is clear and whose surroundings work succeeds in system-proxy mode if and only
   if the embedded core has not failed, and in TUN mode always.
   */
  lemma StartAfterRun(events: seq<Event>, i: StartInputs)
    ensures var r := Run(INITIAL, events).rt;
      StartStep(r, i).1 <==>
      WayIsClear(r, i) && if i.tunMode then TunStarts(i) else XrayStarts(i) && !r.host.CoreFailed?
  {
    RunKeeps(INITIAL, events);
    StartVerdict(Run(INITIAL, events).rt, i);
  }

  lemma {:induction false} RunSplits(s: Controller, a: seq<Event>, b: seq<Event>)
    ensures Run(s, a + b) == Run(Run(s, a), b)
    decreases |a|
  {
    if a == [] {
      assert a + b == b;
    } else {
      assert (a + b)[1..] == a[1..] + b;
      RunSplits(Step(s, a[0]), a[1..], b);
    }
  }

  /** So once the core failed in a run, every later start in system-proxy mode of that run is refused. */
  lemma RefusedForGood(events: seq<Event>, more: seq<Event>, i: StartInputs)
    requires Run(INITIAL, events).rt.host.CoreFailed? && !i.tunMode
    ensures !StartStep(Run(INITIAL, events + more).rt, i).1
  {
    RunKeeps(INITIAL, events);
    RunSplits(INITIAL, events, more);
    FailedCoreStaysFailed(Run(INITIAL, events), more);
    StartAfterRun(events + more, i);
  }

  /** A start in which everything works but the library's own start. */
  const FAILING_START := StartInputs(true, true, true, true, StopInputs(true, true, false), false, true, true, true,
                                     StartFails, true, true, true)

  /** One failing start is enough, and the same start would have worked before it had the library started. */
  lemma FailureHappens()
    ensures Run(INITIAL, [Start(FAILING_START)]).rt.host.CoreFailed?
    ensures var again := FAILING_START.(hostStart := Starts);
      && StartStep(INITIAL.rt, again).1
      && !StartStep(Run(INITIAL, [Start(FAILING_START)]).rt, again).1
  {
    var s := Step(INITIAL, Start(FAILING_START));
    assert Run(INITIAL, [Start(FAILING_START)]) == Run(s, [Start(FAILING_START)][1..]);
  }

  // ---------- the helper's tunnel ----------

  /** The helper still has a tunnel although the backend no longer calls itself running. */
  ghost predicate Abandoned(r: Runtimes) {
    r.tunnelUp && !r.tun.Running?
  }

  predicate LosesTunnel(i: StopInputs) {
    !i.tunStops && i.tunnelSurvives
  }

  predicate AnswerLosesTunnel(a: Answer) {
    match a
    case Retry(_, i) => LosesTunnel(i.stop)
    case ExitAnyway(i) => LosesTunnel(i.stop)
    case _ => false
  }

  predicate EventLosesTunnel(e: Event) {
    match e
    case Start(i) => LosesTunnel(i.stop)
    case Stop(i) => LosesTunnel(i)
    case Restart(i, j) => LosesTunnel(i) || LosesTunnel(j.stop)
    case Quit(q) => LosesTunnel(q.first.stop) || exists k | 0 <= k < |q.answers| :: AnswerLosesTunnel(q.answers[k])
    case QuitForUpdate(_, i) => LosesTunnel(i.stop)
    case _ => false
  }

  /** A stop abandons a tunnel exactly when the helper refuses it and the tunnel survives. */
  lemma StopAbandons(r: Runtimes, i: StopInputs)
    requires RuntimesOk(r) && !Abandoned(r)
    ensures Abandoned(StopStep(r, i).0) <==> r.tunnelUp && LosesTunnel(i)
  {
  }

  lemma LaunchAbandons(r: Runtimes, i: StartInputs)
    requires RuntimesOk(r) && !IsCoreRunning(r)
    ensures Abandoned(LaunchStep(r, i).0) <==> Abandoned(r) && !(i.tunMode && LaunchStep(r, i).1)
  {
  }

  lemma StartAbandons(r: Runtimes, i: StartInputs)
    requires RuntimesOk(r) && !Abandoned(r) && !LosesTunnel(i.stop)
    ensures !Abandoned(StartStep(r, i).0)
  {
    StopVerdict(r, i.stop);
    StopAbandons(r, i.stop);
    if IsCoreRunning(r) {
      LaunchAbandons(StopStep(r, i.stop).0, i);
    } else {
      LaunchAbandons(r, i);
    }
  }

  lemma {:induction false} AskAbandons(r: Runtimes, t: Tally, restoreOnExit: bool, answers: seq<Answer>)
    requires RuntimesOk(r) && !Abandoned(r)
    requires forall k | 0 <= k < |answers| :: !AnswerLosesTunnel(answers[k])
    ensures !Abandoned(AskStep(r, t, restoreOnExit, answers).0)
    decreases |answers|
  {
    if answers != [] {
      assert !AnswerLosesTunnel(answers[0]);
      match answers[0]
      case Cancel =>
      case Unrecognised => AskAbandons(r, t, restoreOnExit, answers[1..]);
      case ExitAnyway(i) => StopAbandons(r, i.stop);
      case Retry(restored, i) =>
        StopAbandons(r, i.stop);
        AskAbandons(r, RestoreStep(t, restoreOnExit, restored).0, restoreOnExit, answers[1..]);
    }
  }

  lemma StepAbandons(s: Controller, e: Event)
    requires Inv(s) && !Abandoned(s.rt) && !EventLosesTunnel(e)
    ensures !Abandoned(Step(s, e).rt)
  {
    match e
    case Start(i) => StartAbandons(s.rt, i);
    case Stop(i) => StopAbandons(s.rt, i);
    case Restart(i, j) =>
      StopVerdict(s.rt, i);
      StopAbandons(s.rt, i);
      StartAbandons(StopStep(s.rt, i).0, j);
    case Quit(q) =>
      var shown := ConfirmShown(s.rt, q);
      ShutdownVerdict(s.rt, !shown || q.stopRuntime, q.first);
      StopAbandons(s.rt, q.first.stop);
      var r' := ShutdownRuntimes(s.rt, !shown || q.stopRuntime, q.first);
      AskAbandons(r', ShutdownRestore(r', s.tally, false, !shown || q.restoreProxy, q.restoreOnExit, q.first).0,
                  q.restoreOnExit, q.answers);
    case QuitForUpdate(_, i) => StopAbandons(s.rt, i.stop);
    case _ =>
  }

  /** The real runtimes exclude each other in every run without a refused stop whose tunnel survives. */
  lemma {:induction false} TunnelsExclude(s: Controller, events: seq<Event>)
    requires Inv(s) && !Abandoned(s.rt)
    requires forall k | 0 <= k < |events| :: !EventLosesTunnel(events[k])
    ensures !Abandoned(Run(s, events).rt)
    ensures !(Run(s, events).rt.tunnelUp && Run(s, events).rt.host.CoreRunning?)
    decreases |events|
  {
    if events != [] {
      StepKeeps(s, events[0]);
      StepAbandons(s, events[0]);
      TunnelsExclude(Step(s, events[0]), events[1..]);
    }
  }

  /** A successful Xray start leaves both really up exactly when it began over an abandoned tunnel. */
  lemma XrayOverTunnel(r: Runtimes, i: StartInputs)
    requires RuntimesOk(r) && !i.tunMode && StartStep(r, i).1
    ensures StartStep(r, i).0.tunnelUp && StartStep(r, i).0.host.CoreRunning? <==> Abandoned(r)
  {
    StopVerdict(r, i.stop);
    if IsCoreRunning(r) {
      LaunchVerdict(StopStep(r, i.stop).0, i);
    }
  }

  /** Such a run exists: start TUN, have the helper refuse the stop, start Xray. */
  lemma BothCanBeUp() returns (events: seq<Event>)
    ensures Run(INITIAL, events).rt.tunnelUp && Run(INITIAL, events).rt.host.CoreRunning?
  {
    var refused := StopInputs(true, false, true);
    var tun := StartInputs(true, true, true, true, refused, true, true, true, true, Starts, true, true, true);
    var xray := tun.(tunMode := false);
    events := [Start(tun), Stop(refused), Start(xray)];
    var s1 := Step(INITIAL, Start(tun));
    var s2 := Step(s1, Stop(refused));
    assert events[1..] == [Stop(refused), Start(xray)];
    assert events[1..][1..] == [Start(xray)];
    assert Run(INITIAL, events) == Run(s1, events[1..]) == Run(s2, [Start(xray)]);
    assert Run(s2, [Start(xray)]) == Run(Step(s2, Start(xray)), [Start(xray)][1..]);
  }
}
