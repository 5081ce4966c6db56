/**
 The runtime controller as a state machine over values: one function for each public call,
 zero-delay shot and timer tick. Everything outside the program (the Xray library, the helper
 process, the proxy settings, the user's answers) arrives as an input of the step.
 */
module RuntimeModel {

  datatype RuntimeState = Stopped | Starting | Running | Stopping | Failed | Recovering

  datatype RuntimeMode = SystemProxyXray | TunSingBox

  datatype CoreState = CoreStopped | CoreStarting | CoreRunning | CoreStopping | CoreFailed

  /**
   `host` is what the Xray library reports, `lease` the coordinator's slot, `tun` the state kept by
   the TUN backend, and `tunnelUp` whether the helper really has a tunnel.
   */
  datatype Runtimes = Runtimes(
    state: RuntimeState,
    mode: RuntimeMode,
    host: CoreState,
    lease: bool,
    tun: RuntimeState,
    tunnelUp: bool)

  /** Zero-delay shots not yet delivered, the 100 ms timer, and how often each was asked for and fired. */
  datatype Readiness = Readiness(pending: nat, armed: bool, waits: nat, callbacks: nat)

  /** Restores that worked during a shutdown, and the two quit signals. */
  datatype Tally = Tally(restores: nat, approved: int, blocked: int)

  datatype Controller = Controller(rt: Runtimes, ready: Readiness, tally: Tally)

  const INITIAL := Controller(
    Runtimes(Stopped, SystemProxyXray, CoreStopped, false, Stopped, false),
    Readiness(0, false, 0, 0),
    Tally(0, 0, 0))

  // ---------- inputs ----------

  datatype HostStart = Starts | Rejects | StartFails

  datatype StopInputs = StopInputs(hostStops: bool, tunStops: bool, tunnelSurvives: bool)

  /** `xrayReady` and `tunReady`: every check, dialogue and config generation before the start passed. */
  datatype StartInputs = StartInputs(
    enabled: bool,
    coreIsXray: bool,
    hasDialog: bool,
    confirmed: bool,
    stop: StopInputs,
    tunMode: bool,
    xrayReady: bool,
    hostAvailable: bool,
    configValid: bool,
    hostStart: HostStart,
    tunReady: bool,
    tunSupported: bool,
    helperStarts: bool)

  datatype Probe = Probe(connected: bool, timedOut: bool, hostStops: bool, hasCallback: bool)

  /** `restored` is the outcome of the attempt to restore the system proxy, if one is made. */
  datatype ShutdownInputs = ShutdownInputs(stop: StopInputs, restored: bool)

  datatype Answer =
    | Cancel
    | Retry(restored: bool, again: ShutdownInputs)
    | ExitAnyway(exit: ShutdownInputs)
    | Unrecognised

  /** `restoreOnExit` is one setting, read several times within the call. */
  datatype QuitInputs = QuitInputs(
    hasDialog: bool,
    confirmExit: bool,
    accepted: bool,
    stopRuntime: bool,
    restoreProxy: bool,
    restoreOnExit: bool,
    first: ShutdownInputs,
    answers: seq<Answer>)

  // ---------- the embedded Xray host ----------

  predicate HostBusy(state: CoreState) {
    state.CoreStarting? || state.CoreRunning? || state.CoreStopping?
  }

  function HostStopStep(r: Runtimes, stops: bool): Runtimes {
    if r.host.CoreStopped? then r.(lease := false)
    else r.(lease := false, host := if stops then CoreStopped else CoreFailed)
  }

  function HostStartStep(r: Runtimes, outcome: HostStart): (Runtimes, bool) {
    if r.lease then (r, false)
    else match outcome
      case Starts => (r.(lease := true, host := CoreRunning), true)
      case Rejects => (r, false)
      case StartFails => (r.(host := CoreFailed), false)
  }

  // ---------- the sing-box TUN backend ----------

  /** Every `stateChanged` signal of the backend is copied into the controller's runtime state. */
  function TunStartStep(r: Runtimes, supported: bool, helperStarts: bool): (Runtimes, bool) {
    if r.tun.Running? || !supported then (r, false)
    else if helperStarts then (r.(tun := Running, tunnelUp := true, state := Running), true)
    else (r.(tun := Failed, state := Failed), false)
  }

  function TunStopStep(r: Runtimes, i: StopInputs): (Runtimes, bool) {
    if !r.tun.Running? then (r.(tun := Stopped, state := Stopped), true)
    else if i.tunStops then (r.(tun := Stopped, tunnelUp := false, state := Stopped), true)
    else (r.(tun := Stopping, tunnelUp := r.tunnelUp && i.tunnelSurvives, state := Stopping), false)
  }

  // ---------- waiting for the local port ----------

  predicate IsCoreRunning(r: Runtimes) {
    HostBusy(r.host) || r.tun.Running?
  }

  function WaitStep(y: Readiness): Readiness {
    y.(armed := false, pending := y.pending + 1, waits := y.waits + 1)
  }

  function CheckStep(r: Runtimes, y: Readiness, p: Probe): (Runtimes, Readiness) {
    if !IsCoreRunning(r) || !r.mode.SystemProxyXray? then (r, y)
    else if p.connected then
      (r, y.(armed := false, callbacks := y.callbacks + if p.hasCallback then 1 else 0))
    else if p.timedOut then
      ((if r.host.CoreStopped? then r else HostStopStep(r, p.hostStops)).(state := Failed), y.(armed := false))
    else (r, y.(armed := true))
  }

  function ShotStep(r: Runtimes, y: Readiness, p: Probe): (Runtimes, Readiness) {
    if y.pending == 0 then (r, y) else CheckStep(r, y.(pending := y.pending - 1), p)
  }

  function TickStep(r: Runtimes, y: Readiness, p: Probe): (Runtimes, Readiness) {
    if y.armed then CheckStep(r, y, p) else (r, y)
  }

  // ---------- stopping and starting ----------

  function StopStep(r: Runtimes, i: StopInputs): (Runtimes, bool) {
    if !IsCoreRunning(r) then (r.(state := Stopped), true)
    else if r.state.Stopping? then (r, false)
    else if r.mode.TunSingBox? then
      var (t, stopped) := TunStopStep(r.(state := Stopping), i);
      (t.(mode := SystemProxyXray, state := Stopped), stopped)
    else if r.host.CoreStopped? then (r.(mode := SystemProxyXray, state := Stopped), true)
    else
      var t := HostStopStep(r, i.hostStops);
      if i.hostStops then (t.(mode := SystemProxyXray, state := Stopped), true)
      else (t.(state := Failed), false)
  }

  function StartTunStep(r: Runtimes, i: StartInputs): (Runtimes, bool) {
    if !i.tunReady then (r, false)
    else
      var (t, started) := TunStartStep(r, i.tunSupported, i.helperStarts);
      (if started then t.(mode := TunSingBox) else t, started)
  }

  /** Validation by the host needs the library to report Stopped. */
  function StartXrayStep(r: Runtimes, i: StartInputs): (Runtimes, bool) {
    if !i.xrayReady || !i.hostAvailable || !r.host.CoreStopped? || !i.configValid then (r, false)
    else
      var (t, started) := HostStartStep(r.(state := Starting), i.hostStart);
      if started then (t.(state := Running, mode := SystemProxyXray), true)
      else (t.(state := Failed), false)
  }

  function LaunchStep(r: Runtimes, i: StartInputs): (Runtimes, bool) {
    if i.tunMode then StartTunStep(r, i) else StartXrayStep(r, i)
  }

  function StartStep(r: Runtimes, i: StartInputs): (Runtimes, bool) {
    if !i.enabled || !i.coreIsXray then (r, false)
    else if r.state.Starting? || r.state.Stopping? || r.state.Recovering? then (r, false)
    else if IsCoreRunning(r) then
      if !i.hasDialog || !i.confirmed then (r, false)
      else
        var (t, stopped) := StopStep(r, i.stop);
        if stopped then LaunchStep(t, i) else (t, false)
    else LaunchStep(r, i)
  }

  /** A successful Xray start begins a wait for the local port. */
  function AfterStart(y: Readiness, i: StartInputs, started: bool): Readiness {
    if started && !i.tunMode then WaitStep(y) else y
  }

  // ---------- shutdown and quit ----------

  function RestoreStep(t: Tally, restoreOnExit: bool, restored: bool): (Tally, bool) {
    if !restoreOnExit then (t, true)
    else (t.(restores := t.restores + if restored then 1 else 0), restored)
  }

  function ShutdownRuntimes(r: Runtimes, stopRuntime: bool, i: ShutdownInputs): Runtimes {
    if stopRuntime && IsCoreRunning(r) then StopStep(r, i.stop).0 else r
  }

  /** `r` are the runtimes after the optional stop. */
  function ShutdownRestore(r: Runtimes, t: Tally, exitAnyway: bool, restoreProxy: bool, restoreOnExit: bool,
                           i: ShutdownInputs): (Tally, bool) {
    if !restoreProxy || r.mode.TunSingBox? then (t, true)
    else
      var (u, restored) := RestoreStep(t, restoreOnExit, i.restored);
      (u, restored || exitAnyway)
  }

  function Approve(t: Tally): Tally {
    t.(approved := t.approved + 1)
  }

  function Block(t: Tally): Tally {
    t.(blocked := t.blocked + 1)
  }

  /** The dialogue after a failed restore; the last result is false while it is still waiting. */
  function AskStep(r: Runtimes, t: Tally, restoreOnExit: bool, answers: seq<Answer>): (Runtimes, Tally, bool)
    decreases |answers|
  {
    if answers == [] then (r, t, false)
    else match answers[0]
      case Cancel => (r, Block(t), true)
      case Unrecognised => AskStep(r, t, restoreOnExit, answers[1..])
      case ExitAnyway(i) => (ShutdownRuntimes(r, true, i), Approve(t), true)
      case Retry(restored, i) =>
        var (u, ok) := RestoreStep(t, restoreOnExit, restored);
        if !ok then AskStep(r, u, restoreOnExit, answers[1..])
        else
          var r' := ShutdownRuntimes(r, true, i);
          (r', Approve(ShutdownRestore(r', u, true, true, restoreOnExit, i).0), true)
  }

  predicate ConfirmShown(r: Runtimes, q: QuitInputs) {
    q.confirmExit && IsCoreRunning(r) && q.hasDialog
  }

  function QuitStep(r: Runtimes, t: Tally, q: QuitInputs): (Runtimes, Tally, bool) {
    var shown := ConfirmShown(r, q);
    if shown && !q.accepted then (r, Block(t), true)
    else
      var r' := ShutdownRuntimes(r, !shown || q.stopRuntime, q.first);
      var (u, done) := ShutdownRestore(r', t, false, !shown || q.restoreProxy, q.restoreOnExit, q.first);
      if done then (r', Approve(u), true)
      else if !q.hasDialog then (r', Block(u), true)
      else AskStep(r', u, q.restoreOnExit, q.answers)
  }

  function QuitForUpdateStep(r: Runtimes, t: Tally, restoreOnExit: bool, i: ShutdownInputs): (Runtimes, Tally) {
    var r' := ShutdownRuntimes(r, true, i);
    (r', Approve(ShutdownRestore(r', t, true, true, restoreOnExit, i).0))
  }

  // ---------- runs ----------

  /** `HostCrash` and `TunnelExit` happen outside the program, at any time. */
  datatype Event =
    | Start(start: StartInputs)
    | Stop(stop: StopInputs)
    | Restart(before: StopInputs, after: StartInputs)
    | Recover
    | Shot(shot: Probe)
    | Tick(tick: Probe)
    | Quit(quit: QuitInputs)
    | QuitForUpdate(restoreOnExit: bool, shutdown: ShutdownInputs)
    | HostCrash
    | TunnelExit

  function RuntimesAfter(r: Runtimes, y: Readiness, t: Tally, e: Event): Runtimes {
    match e
    case Start(i) => StartStep(r, i).0
    case Stop(i) => StopStep(r, i).0
    case Restart(i, j) => var (u, stopped) := StopStep(r, i); if stopped then StartStep(u, j).0 else u
    case Recover => r.(state := Stopped)
    case Shot(p) => ShotStep(r, y, p).0
    case Tick(p) => TickStep(r, y, p).0
    case Quit(q) => QuitStep(r, t, q).0
    case QuitForUpdate(on, i) => QuitForUpdateStep(r, t, on, i).0
    case HostCrash => if r.host.CoreRunning? then r.(host := CoreFailed) else r
    case TunnelExit => r.(tunnelUp := false)
  }

  function ReadinessAfter(r: Runtimes, y: Readiness, e: Event): Readiness {
    match e
    case Start(i) => AfterStart(y, i, StartStep(r, i).1)
    case Restart(i, j) =>
      var (u, stopped) := StopStep(r, i);
      if stopped then AfterStart(y, j, StartStep(u, j).1) else y
    case Shot(p) => ShotStep(r, y, p).1
    case Tick(p) => TickStep(r, y, p).1
    case _ => y
  }

  function TallyAfter(r: Runtimes, t: Tally, e: Event): Tally {
    match e
    case Quit(q) => QuitStep(r, t, q).1
    case QuitForUpdate(on, i) => QuitForUpdateStep(r, t, on, i).1
    case _ => t
  }

  function Step(s: Controller, e: Event): Controller {
    Controller(RuntimesAfter(s.rt, s.ready, s.tally, e), ReadinessAfter(s.rt, s.ready, e), TallyAfter(s.rt, s.tally, e))
  }

  function Run(s: Controller, events: seq<Event>): Controller
    decreases |events|
  {
    if events == [] then s else Run(Step(s, events[0]), events[1..])
  }
}
