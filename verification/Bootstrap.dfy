/** The control flow of the startup page over the gate (`src/pages/bootstrap.tsx`). What the host,
    the store and the user answer is left open: each question is put to a `world` that may answer
    it differently every time. */
module Bootstrap {
  import opened Wrappers
  import opened StartupGate
  import opened RepairLedger

  /** How a write to the store ended: it can fail and still have landed. */
  datatype WriteAnswer = Written | Lost | WrittenUnnoticed

  /** What follows a setup that succeeded: the dashboard, an update that cannot be installed, or
      something that throws. */
  datatype AfterSetup = GoesOn | UpdateFails | Throws

  /** Everything one question could be answered with. `None` is a call that throws. */
  datatype Answer = Answer(
    permissionsBlocked: bool,
    report: Option<Report>,
    dontShowAgain: Option<bool>,
    readable: bool,
    write: WriteAnswer,
    done: Option<bool>,
    relaunchTried: bool,
    needsRestart: bool,
    afterSetup: AfterSetup)

  /** What the page is waiting for. */
  datatype Stage =
    | Starting
    | PermissionGate
    | BusyDialog
    | CompatDialog(blocking: bool)
    | RestartDialog(tryInstall: bool)
    | SetupFailed
    | UpdateFailed
    | Relaunching
    | Started
    | Ended

  /** The stored record, the refs of the running page, and what it has done so far. */
  datatype Page = Page(
    record: DriverRepair,
    bootId: string,
    loaded: bool,
    healthCleared: bool,
    stage: Stage,
    clock: nat,
    trace: seq<Event>)

  type World = nat -> Answer

  function Ask(p: Page, world: World): Answer { world(p.clock) }

  function Tick(p: Page): Page { p.(clock := p.clock + 1) }

  function Log(p: Page, e: Event): Page { p.(trace := p.trace + [e]) }

  /** `spendRepair`: take one attempt out of the budget, or refuse. The record is written before
      the attempt is made. */
  function SpendRepair(p: Page, world: World, what: RepairKind): (r: (Page, bool))
    ensures p.trace <= r.0.trace
  {
    var answer := Ask(p, world);
    var next := Tick(p);
    var repair := RepairForBoot(Some(p.record), p.bootId);
    if !answer.readable || !MayAttempt(repair, what) || answer.write == Lost then (next, false)
    else (Log(next.(record := RecordAttempt(repair, what)), Spent(what, p.bootId)), answer.write == Written)
  }

  /** `remediate`; false when this launch is over. */
  function RemediateRows(p: Page, world: World, rows: seq<Row>): (r: (Page, bool))
    ensures p.trace <= r.0.trace
  {
    match DriverRemediation(rows)
    case None => (p, true)
    case Some(action) =>
      var (spent, may) := SpendRepair(p, world, action);
      if !may then (spent, true)
      else if action == Reinstall then
        var removed := Tick(Log(spent, RemoveDrivers));
        if Ask(spent, world).done.None? then (removed, true)
        else InstallAndMaybeRelaunch(removed, world, action)
      else InstallAndMaybeRelaunch(spent, world, action)
  }

  function InstallAndMaybeRelaunch(p: Page, world: World, action: RepairKind): (r: (Page, bool))
    ensures p.trace <= r.0.trace
  {
    var installed := Tick(Log(p, InstallDrivers));
    if Ask(p, world).done != Some(false) || action != Reinstall then (installed, true)
    else if Ask(installed, world).relaunchTried then (Tick(installed), true)
    else
      var (spent, may) := SpendRepair(Tick(installed), world, Relaunch);
      if !may then (spent, true) else (Tick(Log(spent, RelaunchApp)), Ask(spent, world).done.None?)
  }

  /** `driverHealthBlocks`. */
  function HealthGate(p: Page, world: World, tryInstall: bool): (Page, bool) {
    if p.loaded || p.healthCleared then (p, false)
    else if Ask(p, world).needsRestart then (Tick(p).(stage := RestartDialog(tryInstall)), true)
    else (Tick(p).(healthCleared := true), false)
  }

  function StageAfter(after: AfterSetup): Stage {
    match after case GoesOn => Started case UpdateFails => UpdateFailed case Throws => SetupFailed
  }

  /** `runSetup`. */
  function RunSetup(p: Page, world: World, tryInstall: bool): (q: Page)
    ensures p.trace <= q.trace
    decreases tryInstall, 1
  {
    var (checked, stopped) := HealthGate(p, world, tryInstall);
    if stopped then checked
    else
      var tried := if checked.loaded then checked else Tick(Log(checked, Setup));
      var success := if checked.loaded then Some(true) else Ask(checked, world).done;
      if success.None? then tried.(stage := SetupFailed)
      else if success.value then
        Tick(tried).(loaded := true, stage := StageAfter(Ask(tried, world).afterSetup))
      else
        HelpSetup(tried.(loaded := false), world, tryInstall)
  }

  /** What `runSetup` does about a setup that failed: an install, where it may, and once more. */
  function HelpSetup(p: Page, world: World, tryInstall: bool): (q: Page)
    ensures p.trace <= q.trace
    decreases tryInstall, 0
  {
    if !tryInstall then p.(stage := SetupFailed)
    else
      var (spent, may) := SpendRepair(p, world, Install);
      if !may then spent.(stage := SetupFailed)
      else
        var installed := Tick(Log(spent, InstallDrivers));
        if Ask(spent, world).done.None? then installed.(stage := SetupFailed)
        else RunSetup(installed, world, false)
  }

  /** `proceed`. It ends: a remediated report is never one to remediate. */
  function Proceed(p: Page, world: World, remediated: bool): (q: Page)
    ensures p.trace <= q.trace
    decreases !remediated, 1
  {
    var allowed := Tick(p);
    if Ask(p, world).permissionsBlocked then allowed.(stage := PermissionGate)
    else
      var probed := Tick(allowed);
      match Ask(allowed, world).report
      case None => RunSetup(Log(probed, Probed(None)), world, true)
      case Some(report) =>
        var known := Log(Tick(probed.(bootId := report.bootId)), Probed(Some(report)));
        match Ask(probed, world).dontShowAgain
        case None => known.(stage := SetupFailed)
        case Some(dontShowAgain) => PassGate(known, world, ClassifyCompat(report, remediated, dontShowAgain), remediated)
  }

  /** What `proceed` does about the gate. */
  function PassGate(p: Page, world: World, gate: Gate, remediated: bool): (q: Page)
    requires remediated ==> !gate.Remediate?
    ensures p.trace <= q.trace
    decreases !remediated, 0
  {
    match gate
    case Busy(_) => p.(stage := BusyDialog)
    case Remediate(rows) =>
      var (after, carryOn) := RemediateRows(p, world, rows);
      if carryOn then Proceed(after, world, true) else after.(stage := Relaunching)
    case Blocked(_) => p.(stage := CompatDialog(true))
    case Warn(_) => p.(stage := CompatDialog(false))
    case Clear => RunSetup(p, world, true)
  }

  /** What can happen to the page from outside: a launch, the buttons of the dialog that is open, and
      the end of the process, at any moment of whatever it was doing. */
  datatype Input =
    | Launch
    | Retry
    | ContinueAnyway
    | RestartDriver(worked: bool)
    | RetrySetup
    | Killed(doing: Input, events: nat)

  /** The dialogs with a button that leads back into `proceed`. */
  predicate OffersRetry(stage: Stage) {
    stage.PermissionGate? || stage.BusyDialog? || stage.UpdateFailed? || stage == CompatDialog(true)
  }

  function Launched(p: Page): Page { p.(bootId := "", loaded := false, healthCleared := false, stage := Starting) }

  function React(p: Page, world: World, input: Input): (q: Page)
    ensures p.trace <= q.trace
    decreases input
  {
    match input
    case Launch => Proceed(Launched(p), world, false)
    case Retry => if OffersRetry(p.stage) then Proceed(p, world, false) else p
    case ContinueAnyway => if p.stage == CompatDialog(false) then RunSetup(p, world, true) else p
    case RestartDriver(worked) =>
      if p.stage.RestartDialog? && worked then RunSetup(p.(healthCleared := true), world, p.stage.tryInstall) else p
    case RetrySetup => if p.stage.SetupFailed? then RunSetup(p, world, false) else p
    case Killed(doing, events) => CutShort(p, React(p, world, doing), events)
  }

  /** The process ended when it had got this far from `p` towards `q`: what is left is the record as it
      was then. */
  function CutShort(p: Page, q: Page, events: nat): (cut: Page)
    requires p.trace <= q.trace
    ensures p.trace <= cut.trace <= q.trace
  {
    var n := Min(|p.trace| + events, |q.trace|);
    q.(trace := q.trace[..n], record := RecordAfter(p.record, q.trace[|p.trace|..n]), stage := Ended)
  }

  /** A page with nothing done yet, whatever the store says. */
  function Fresh(record: DriverRepair, clock: nat): Page {
    Page(record, "", false, false, Starting, clock, [])
  }

  function Session(p: Page, world: World, inputs: seq<Input>): Page {
    if inputs == [] then p
    else
      var last := |inputs| - 1;
      React(Session(p, world, inputs[..last]), world, inputs[last])
  }
}
