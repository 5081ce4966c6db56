/** The controller and its two runtimes as objects; every method is proved against its step in RuntimeModel. */
module AppController {
  import opened RuntimeModel

  class EmbeddedXrayHost {
    var state: CoreState
    var lease: bool

    constructor ()
      ensures state == CoreStopped && !lease
    {
      state, lease := CoreStopped, false;
    }

    /** The library validates only while it is stopped. */
    method Validate(configValid: bool) returns (ok: bool)
      ensures ok <==> state.CoreStopped? && configValid
    {
      if !state.CoreStopped? {
        return false;
      }
      return configValid;
    }

    method Start(outcome: HostStart) returns (ok: bool)
      modifies this
      ensures ok <==> !old(lease) && outcome.Starts?
      ensures lease == (old(lease) || outcome.Starts?)
      ensures state == if old(lease) then old(state)
                       else match outcome case Starts => CoreRunning case Rejects => old(state)
                               case StartFails => CoreFailed
    {
      if lease {
        return false;
      }
      lease := true;
      match outcome {
        case Starts => state := CoreRunning;
        case Rejects =>
        case StartFails => state := CoreFailed;
      }
      ok := outcome.Starts?;
      if !ok {
        lease := false;
      }
    }

    method Stop(stops: bool) returns (ok: bool)
      modifies this
      ensures !lease
      ensures ok <==> old(state).CoreStopped? || stops
      ensures state == if old(state).CoreStopped? || stops then CoreStopped else CoreFailed
    {
      lease := false;
      if state.CoreStopped? {
        return true;
      }
      state := if stops then CoreStopped else CoreFailed;
      ok := stops;
    }
  }

  class TunBackend {
    var state: RuntimeState
    var tunnelUp: bool

    constructor ()
      ensures state == Stopped && !tunnelUp
    {
      state, tunnelUp := Stopped, false;
    }

    predicate IsRunning()
      reads this
    {
      state.Running?
    }

    /** The signals are the `stateChanged` values in the order they are emitted. */
    method Start(supported: bool, helperStarts: bool) returns (ok: bool, signals: seq<RuntimeState>)
      modifies this
      ensures ok <==> !old(state).Running? && supported && helperStarts
      ensures signals == if old(state).Running? || !supported then [] else [Starting, if ok then Running else Failed]
      ensures state == if signals == [] then old(state) else signals[|signals| - 1]
      ensures tunnelUp == (old(tunnelUp) || ok)
    {
      ok, signals := false, [];
      if IsRunning() || !supported {
        return;
      }
      state := Starting;
      signals := signals + [state];
      if !helperStarts {
        state := Failed;
        signals := signals + [state];
        return;
      }
      tunnelUp := true;
      state := Running;
      signals := signals + [state];
      ok := true;
    }

    method Stop(i: StopInputs) returns (ok: bool, signals: seq<RuntimeState>)
      modifies this
      ensures ok <==> !old(state).Running? || i.tunStops
      ensures signals == if !old(state).Running? then [Stopped] else if ok then [Stopping, Stopped] else [Stopping]
      ensures state == signals[|signals| - 1]
      ensures tunnelUp == (old(tunnelUp) && (old(state).Running? ==> !i.tunStops && i.tunnelSurvives))
    {
      signals := [];
      if !IsRunning() {
        state := Stopped;
        return true, [state];
      }
      state := Stopping;
      signals := signals + [state];
      if !i.tunStops {
        tunnelUp := tunnelUp && i.tunnelSurvives;
        return false, signals;
      }
      tunnelUp := false;
      state := Stopped;
      signals := signals + [state];
      ok := true;
    }
  }

  class AppController {
    const host: EmbeddedXrayHost
    const tun: TunBackend
    const hasDialog: bool
    var runtimeState: RuntimeState
    var activeMode: RuntimeMode
    var pendingShots: nat
    var timerArmed: bool
    var waits: nat
    var callbacks: nat
    var restores: nat
    var quitApproved: int
    var quitBlocked: int

    constructor (hasDialog: bool)
      ensures fresh(host) && fresh(tun) && this.hasDialog == hasDialog
      ensures State() == INITIAL
    {
      host := new EmbeddedXrayHost();
      tun := new TunBackend();
      this.hasDialog := hasDialog;
      runtimeState, activeMode := Stopped, SystemProxyXray;
      pendingShots, timerArmed, waits, callbacks := 0, false, 0, 0;
      restores, quitApproved, quitBlocked := 0, 0, 0;
    }

    ghost function Rt(): Runtimes
      reads this, host, tun
    {
      Runtimes(runtimeState, activeMode, host.state, host.lease, tun.state, tun.tunnelUp)
    }

    ghost function Ready(): Readiness
      reads this
    {
      Readiness(pendingShots, timerArmed, waits, callbacks)
    }

    ghost function Signals(): Tally
      reads this
    {
      Tally(restores, quitApproved, quitBlocked)
    }

    ghost function State(): Controller
      reads this, host, tun
    {
      Controller(Rt(), Ready(), Signals())
    }

    method CoreRunning() returns (running: bool)
      ensures running <==> IsCoreRunning(Rt())
    {
      if host.state.CoreStarting? || host.state.CoreRunning? || host.state.CoreStopping? {
        return true;
      }
      return tun.IsRunning();
    }

    /** The slot on the backend's `stateChanged` signal, run once per signal. */
    method OnTunSignals(signals: seq<RuntimeState>)
      modifies `runtimeState
      ensures runtimeState == if signals == [] then old(runtimeState) else signals[|signals| - 1]
    {
      for i := 0 to |signals|
        invariant runtimeState == if i == 0 then old(runtimeState) else signals[i - 1]
      {
        runtimeState := signals[i];
      }
    }

    method WaitForSystemProxyReady()
      modifies `timerArmed, `pendingShots, `waits
      ensures Ready() == WaitStep(old(Ready()))
    {
      timerArmed := false;
      pendingShots := pendingShots + 1;
      waits := waits + 1;
    }

    method CheckSystemProxyReady(p: Probe)
      modifies this, host
      ensures (Rt(), Ready()) == CheckStep(old(Rt()), old(Ready()), p) && Signals() == old(Signals())
    {
      var running := CoreRunning();
      if !running || activeMode != SystemProxyXray {
        return;
      }
      if p.connected {
        timerArmed := false;
        if p.hasCallback {
          callbacks := callbacks + 1;
        }
        return;
      }
      if p.timedOut {
        timerArmed := false;
        if host.state != CoreStopped {
          var _ := host.Stop(p.hostStops);
        }
        runtimeState := Failed;
        return;
      }
      timerArmed := true;
    }

    method DeliverShot(p: Probe)
      modifies this, host
      ensures (Rt(), Ready()) == ShotStep(old(Rt()), old(Ready()), p) && Signals() == old(Signals())
    {
      if pendingShots > 0 {
        pendingShots := pendingShots - 1;
        CheckSystemProxyReady(p);
      }
    }

    method TimerTick(p: Probe)
      modifies this, host
      ensures (Rt(), Ready()) == TickStep(old(Rt()), old(Ready()), p) && Signals() == old(Signals())
    {
      if timerArmed {
        CheckSystemProxyReady(p);
      }
    }

    method RecoverPreviousSession(applied: bool) returns (ok: bool)
      modifies this
      ensures ok == applied
      ensures State() == Step(old(State()), Recover)
    {
      runtimeState := Recovering;
      ok := applied;
      runtimeState := Stopped;
    }

    method StopCurrentProfile(i: StopInputs) returns (ok: bool)
      modifies this, host, tun
      ensures (Rt(), ok) == StopStep(old(Rt()), i)
      ensures Ready() == old(Ready()) && Signals() == old(Signals())
    {
      var running := CoreRunning();
      if !running {
        runtimeState := Stopped;
        return true;
      }
      if runtimeState == Stopping {
        return false;
      }
      runtimeState := Stopping;
      if activeMode == TunSingBox {
        var stopped, signals := tun.Stop(i);
        OnTunSignals(signals);
        activeMode := SystemProxyXray;
        runtimeState := Stopped;
        return stopped;
      }
      if host.state != CoreStopped {
        var stopped := host.Stop(i.hostStops);
        if !stopped {
          runtimeState := Failed;
          return false;
        }
      }
      activeMode := SystemProxyXray;
      runtimeState := Stopped;
      return true;
    }

    method StartProfileTunSingBox(i: StartInputs) returns (started: bool)
      modifies this, tun
      ensures (Rt(), started) == StartTunStep(old(Rt()), i)
      ensures Ready() == old(Ready()) && Signals() == old(Signals())
    {
      if !i.tunReady {
        return false;
      }
      var signals;
      started, signals := tun.Start(i.tunSupported, i.helperStarts);
      OnTunSignals(signals);
      if started {
        activeMode := TunSingBox;
      }
    }

    method StartProfileSystemProxyXray(i: StartInputs) returns (started: bool)
      modifies this, host
      ensures (Rt(), started) == StartXrayStep(old(Rt()), i)
      ensures Ready() == (if started then WaitStep(old(Ready())) else old(Ready())) && Signals() == old(Signals())
    {
      if !i.xrayReady || !i.hostAvailable {
        return false;
      }
      var valid := host.Validate(i.configValid);
      if !valid {
        return false;
      }
      runtimeState := Starting;
      started := host.Start(i.hostStart);
      if !started {
        runtimeState := Failed;
        return;
      }
      runtimeState := Running;
      activeMode := SystemProxyXray;
      WaitForSystemProxyReady();
    }

    method StartProfile(i: StartInputs) returns (started: bool)
      requires i.hasDialog == hasDialog
      modifies this, host, tun
      ensures (Rt(), started) == StartStep(old(Rt()), i)
      ensures Ready() == AfterStart(old(Ready()), i, started) && Signals() == old(Signals())
    {
      if !i.enabled || !i.coreIsXray {
        return false;
      }
      if runtimeState == Starting || runtimeState == Stopping || runtimeState == Recovering {
        return false;
      }
      var running := CoreRunning();
      if running {
        if !hasDialog || !i.confirmed {
          return false;
        }
        var stopped := StopCurrentProfile(i.stop);
        if !stopped {
          return false;
        }
      }
      if i.tunMode {
        started := StartProfileTunSingBox(i);
      } else {
        started := StartProfileSystemProxyXray(i);
      }
    }

    method RestartRuntime(i: StopInputs, j: StartInputs) returns (started: bool)
      requires j.hasDialog == hasDialog
      modifies this, host, tun
      ensures State() == Step(old(State()), Restart(i, j))
      ensures var (r, stopped) := StopStep(old(Rt()), i);
        started <==> stopped && StartStep(r, j).1
    {
      var stopped := StopCurrentProfile(i);
      if !stopped {
        return false;
      }
      started := StartProfile(j);
    }

    method AttemptProxyRestore(restoreOnExit: bool, restored: bool) returns (ok: bool)
      modifies `restores
      ensures (Signals(), ok) == RestoreStep(old(Signals()), restoreOnExit, restored)
    {
      if !restoreOnExit {
        return true;
      }
      if restored {
        restores := restores + 1;
      }
      return restored;
    }

    method SafeShutdownWithOptions(exitAnyway: bool, stopRuntime: bool, restoreProxy: bool, restoreOnExit: bool,
                                   i: ShutdownInputs) returns (ok: bool)
      modifies this, host, tun
      ensures Rt() == ShutdownRuntimes(old(Rt()), stopRuntime, i)
      ensures (Signals(), ok) == ShutdownRestore(Rt(), old(Signals()), exitAnyway, restoreProxy, restoreOnExit, i)
      ensures Ready() == old(Ready())
      ensures exitAnyway ==> ok
    {
      var running := CoreRunning();
      if stopRuntime && running {
        var _ := StopCurrentProfile(i.stop);
      }
      if restoreProxy && activeMode != TunSingBox {
        var restored := AttemptProxyRestore(restoreOnExit, i.restored);
        if !restored && !exitAnyway {
          return false;
        }
      }
      return true;
    }

    /** Emits `quitApproved` or `quitBlocked`. */
    method EmitQuit(approved: bool)
      modifies `quitApproved, `quitBlocked
      ensures Signals() == if approved then Approve(old(Signals())) else Block(old(Signals()))
    {
      if approved {
        quitApproved := quitApproved + 1;
      } else {
        quitBlocked := quitBlocked + 1;
      }
    }

    method RequestQuitForUpdate(restoreOnExit: bool, i: ShutdownInputs)
      modifies this, host, tun
      ensures State() == Step(old(State()), QuitForUpdate(restoreOnExit, i))
    {
      var done := SafeShutdownWithOptions(true, true, true, restoreOnExit, i);
      EmitQuit(done);
    }

    /** `returned` is false when the given answers run out while the dialogue still asks. */
    method AskAfterFailedRestore(restoreOnExit: bool, answers: seq<Answer>) returns (returned: bool)
      modifies this, host, tun
      ensures (Rt(), Signals(), returned) == AskStep(old(Rt()), old(Signals()), restoreOnExit, answers)
      ensures Ready() == old(Ready())
    {
      var rest := answers;
      while rest != []
        invariant AskStep(Rt(), Signals(), restoreOnExit, rest) == old(AskStep(Rt(), Signals(), restoreOnExit, answers))
        invariant Ready() == old(Ready())
        decreases |rest|
      {
        var answer := rest[0];
        rest := rest[1..];
        match answer {
          case Cancel =>
            EmitQuit(false);
            return true;
          case ExitAnyway(i) =>
            var done := SafeShutdownWithOptions(true, true, false, restoreOnExit, i);
            EmitQuit(done);
            return true;
          case Retry(restored, i) =>
            var ok := AttemptProxyRestore(restoreOnExit, restored);
            if ok {
              ok := SafeShutdownWithOptions(true, true, true, restoreOnExit, i);
              if ok {
                EmitQuit(true);
                return true;
              }
            }
          case Unrecognised =>
        }
      }
      returned := false;
    }

    method RequestQuit(q: QuitInputs) returns (returned: bool)
      requires q.hasDialog == hasDialog
      modifies this, host, tun
      ensures (Rt(), Signals(), returned) == QuitStep(old(Rt()), old(Signals()), q)
      ensures Ready() == old(Ready())
    {
      var stopRuntime, restoreProxy := true, true;
      var running := CoreRunning();
      if q.confirmExit && running && hasDialog {
        if !q.accepted {
          EmitQuit(false);
          return true;
        }
        stopRuntime, restoreProxy := q.stopRuntime, q.restoreProxy;
      }
      var done := SafeShutdownWithOptions(false, stopRuntime, restoreProxy, q.restoreOnExit, q.first);
      if done {
        EmitQuit(true);
        return true;
      }
      if !hasDialog {
        EmitQuit(false);
        return true;
      }
      returned := AskAfterFailedRestore(q.restoreOnExit, q.answers);
    }
  }
}
