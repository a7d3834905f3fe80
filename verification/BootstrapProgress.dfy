/** What the startup page does for each answer it can get, event by event and dialog by dialog
    (`src/pages/bootstrap.tsx`). The n-th question is answered by `world(n)`. */
module BootstrapProgress {
  import opened Wrappers
  import opened StartupGate
  import opened RepairLedger
  import opened Bootstrap
  import Selection

  /** The store can be read and written and has no attempt of this kind for this boot. */
  predicate Granted(p: Page, a: Answer, what: RepairKind) {
    a.readable && a.write == Written && (p.record.boot == p.bootId ==> p.record.Count(what) < 1)
  }

  lemma SpendDoes(p: Page, world: World, what: RepairKind)
    ensures var (q, may) := SpendRepair(p, world, what);
            && (may <==> Granted(p, world(p.clock), what))
            && (may ==> q.trace == p.trace + [Spent(what, p.bootId)])
            && (!may ==> q.trace == p.trace || q.trace == p.trace + [Spent(what, p.bootId)])
            && q.clock == p.clock + 1 && q == p.(record := q.record, clock := q.clock, trace := q.trace)
            && (may ==> q.record.boot == p.bootId
                        && forall other | other != what ::
                             q.record.Count(other) == if p.record.boot == p.bootId then p.record.Count(other) else 0)
  {
  }

  // Remediation

  /** Nothing is known about the rows that an install could help with: nothing is done. */
  lemma NothingToRemediate(p: Page, world: World, rows: seq<Row>)
    requires forall r | r in rows :: r.key != "display-driver" && r.key != "display-driver-unresponsive"
    ensures RemediateRows(p, world, rows) == (p, true)
  {
  }

  /** Without an attempt left, or a store to record it in, nothing is done either. */
  lemma RefusedRemediation(p: Page, world: World, rows: seq<Row>)
    requires DriverRemediation(rows).Some? && !Granted(p, world(p.clock), DriverRemediation(rows).value)
    ensures var (q, carryOn) := RemediateRows(p, world, rows);
            && carryOn
            && (q.trace == p.trace || q.trace == p.trace + [Spent(DriverRemediation(rows).value, p.bootId)])
  {
    hide DriverRemediation, SpendRepair, Granted;
    SpendDoes(p, world, DriverRemediation(rows).value);
  }

  /** A missing driver is installed, once. */
  lemma MissingDriverIsInstalled(p: Page, world: World, rows: seq<Row>)
    requires exists r | r in rows :: r.key == "display-driver"
    requires forall r | r in rows :: r.key != "display-driver-unresponsive"
    requires Granted(p, world(p.clock), Install)
    ensures var (q, carryOn) := RemediateRows(p, world, rows);
            carryOn && q.trace == p.trace + [Spent(Install, p.bootId), InstallDrivers]
  {
    RemediationIff(rows);
    hide DriverRemediation, SpendRepair, Granted;
    SpendDoes(p, world, Install);
    assert p.trace + [Spent(Install, p.bootId)] + [InstallDrivers] == p.trace + [Spent(Install, p.bootId), InstallDrivers];
  }

  /** A driver that does not answer is removed; unless that throws it is installed again; and if that
      fails, and no relaunch was tried lately, the app is relaunched when that is granted. */
  lemma SilentDriverIsReinstalled(p: Page, world: World, rows: seq<Row>)
    requires exists r | r in rows :: r.key == "display-driver-unresponsive"
    requires Granted(p, world(p.clock), Reinstall)
    ensures var (q, carryOn) := RemediateRows(p, world, rows);
            var removed, installed, memo, asked, relaunched :=
              world(p.clock + 1), world(p.clock + 2), world(p.clock + 3), world(p.clock + 4), world(p.clock + 5);
            var reinstall := p.trace + [Spent(Reinstall, p.bootId), RemoveDrivers, InstallDrivers];
            if removed.done.None? then
              carryOn && q.trace == p.trace + [Spent(Reinstall, p.bootId), RemoveDrivers]
            else if installed.done != Some(false) || memo.relaunchTried then
              carryOn && q.trace == reinstall
            else if Granted(p, asked, Relaunch) then
              q.trace == reinstall + [Spent(Relaunch, p.bootId), RelaunchApp] && (carryOn <==> relaunched.done.None?)
            else
              carryOn && (q.trace == reinstall || q.trace == reinstall + [Spent(Relaunch, p.bootId)])
  {
    RemediationIff(rows);
    hide DriverRemediation, SpendRepair, Granted;
    SpendDoes(p, world, Reinstall);
    var spent := SpendRepair(p, world, Reinstall).0;
    var id := p.bootId;
    assert p.trace + [Spent(Reinstall, id)] + [RemoveDrivers] == p.trace + [Spent(Reinstall, id), RemoveDrivers];
    ReinstallDoes(Tick(Log(spent, RemoveDrivers)), world);
    assert p.trace + [Spent(Reinstall, id), RemoveDrivers] + [InstallDrivers] == p.trace + [Spent(Reinstall, id), RemoveDrivers, InstallDrivers];
    SameGrant(p, Tick(Log(spent, RemoveDrivers)), world(p.clock + 4));
  }

  lemma SameGrant(p: Page, spent: Page, a: Answer)
    requires spent.bootId == p.bootId && spent.record.boot == p.bootId
    requires spent.record.Count(Relaunch) == if p.record.boot == p.bootId then p.record.Count(Relaunch) else 0
    ensures Granted(spent, a, Relaunch) <==> Granted(p, a, Relaunch)
  {
  }

  lemma ReinstallDoes(p: Page, world: World)
    ensures var (q, carryOn) := InstallAndMaybeRelaunch(p, world, Reinstall);
            var installed, memo, asked, relaunched := world(p.clock), world(p.clock + 1), world(p.clock + 2), world(p.clock + 3);
            var done := p.trace + [InstallDrivers];
            if installed.done != Some(false) || memo.relaunchTried then carryOn && q.trace == done
            else if Granted(p, asked, Relaunch) then
              q.trace == done + [Spent(Relaunch, p.bootId), RelaunchApp] && (carryOn <==> relaunched.done.None?)
            else
              carryOn && (q.trace == done || q.trace == done + [Spent(Relaunch, p.bootId)])
  {
    hide SpendRepair;
    var next := Tick(Tick(Log(p, InstallDrivers)));
    SpendDoes(next, world, Relaunch);
    var done, spent := p.trace + [InstallDrivers], Spent(Relaunch, p.bootId);
    assert done + [spent] + [RelaunchApp] == done + [spent, RelaunchApp];
  }

  // Setup

  function Later(p: Page): nat { if p.loaded || p.healthCleared then p.clock else p.clock + 1 }

  predicate AsksForRestart(p: Page, world: World) { !p.loaded && !p.healthCleared && world(p.clock).needsRestart }

  /** A leaking driver stops the setup before it does anything. */
  lemma RestartComesFirst(p: Page, world: World, tryInstall: bool)
    requires AsksForRestart(p, world)
    ensures var q := RunSetup(p, world, tryInstall);
            q.stage == RestartDialog(tryInstall) && q.trace == p.trace && !q.loaded && !q.healthCleared
  {
  }

  /** A setup that answers: what follows it, or the failure dialog when it threw, or when it failed and
      there is no leave to install. A setup that succeeded before is not run again. */
  lemma SetupDoes(p: Page, world: World, tryInstall: bool)
    requires !AsksForRestart(p, world)
    ensures var q := RunSetup(p, world, tryInstall);
            var answer, after := world(Later(p)), world(Later(p) + 1);
            && (p.loaded ==> q.trace == p.trace && q.loaded && q.stage == StageAfter(answer.afterSetup))
            && (!p.loaded && answer.done == Some(true) ==> q.trace == p.trace + [Setup] && q.loaded && q.stage == StageAfter(after.afterSetup))
            && (!p.loaded && answer.done == None ==> q.trace == p.trace + [Setup] && q.stage == SetupFailed)
            && (!p.loaded && answer.done == Some(false) && !tryInstall ==> q.trace == p.trace + [Setup] && q.stage == SetupFailed)
  {
  }

  /** A setup that failed, with leave to install: when that is granted the driver is installed and, unless
      that throws, the setup is run once more, and that is all. */
  lemma FailedSetupInstalls(p: Page, world: World)
    requires !AsksForRestart(p, world) && !p.loaded && world(Later(p)).done == Some(false)
    ensures var q := RunSetup(p, world, true);
            var t := Later(p);
            var install := p.trace + [Setup, Spent(Install, p.bootId), InstallDrivers];
            if !Granted(p, world(t + 1), Install) then
              q.stage == SetupFailed && (q.trace == p.trace + [Setup] || q.trace == p.trace + [Setup, Spent(Install, p.bootId)])
            else if world(t + 2).done.None? then q.stage == SetupFailed && q.trace == install
            else
              && q.trace == install + [Setup]
              && q.stage == if world(t + 3).done == Some(true) then StageAfter(world(t + 4).afterSetup) else SetupFailed
  {
    hide SpendRepair, Granted, HelpSetup, RunSetup;
    var tried := Tried(p);
    SetupFails(p, world);
    HelpDoes(tried, world);
    SameAttempt(p, tried, world(Later(p) + 1));
    var id := p.bootId;
    assert p.trace + [Setup] + [Spent(Install, id)] == p.trace + [Setup, Spent(Install, id)];
    assert p.trace + [Setup] + [Spent(Install, id), InstallDrivers] == p.trace + [Setup, Spent(Install, id), InstallDrivers];
  }

  function Tried(p: Page): Page {
    p.(healthCleared := true, loaded := false, clock := Later(p) + 1, trace := p.trace + [Setup])
  }

  lemma SetupFails(p: Page, world: World)
    requires !AsksForRestart(p, world) && !p.loaded && world(Later(p)).done == Some(false)
    ensures RunSetup(p, world, true) == HelpSetup(Tried(p), world, true)
  {
    hide HelpSetup, StageAfter;
    var checked := HealthGate(p, world, true).0;
    var tried := Tick(Log(checked, Setup));
    assert checked == p.(healthCleared := true, clock := Later(p)) by { hide RunSetup; }
    assert Ask(checked, world).done == Some(false) by { hide RunSetup; }
    assert tried.(loaded := false) == Tried(p) by { hide RunSetup; }
    hide HealthGate, Tick, Log, Ask, Tried, AsksForRestart;
    assert RunSetup(p, world, true) == HelpSetup(tried.(loaded := false), world, true);
  }

  lemma HelpDoes(p: Page, world: World)
    requires !p.loaded && p.healthCleared
    ensures var q := HelpSetup(p, world, true);
            var t := p.clock;
            var install := p.trace + [Spent(Install, p.bootId), InstallDrivers];
            if !Granted(p, world(t), Install) then
              q.stage == SetupFailed && (q.trace == p.trace || q.trace == p.trace + [Spent(Install, p.bootId)])
            else if world(t + 1).done.None? then q.stage == SetupFailed && q.trace == install
            else
              && q.trace == install + [Setup]
              && q.stage == if world(t + 2).done == Some(true) then StageAfter(world(t + 3).afterSetup) else SetupFailed
  {
    hide SpendRepair, Granted, RunSetup;
    SpendDoes(p, world, Install);
    var spent := SpendRepair(p, world, Install).0;
    assert p.trace + [Spent(Install, p.bootId)] + [InstallDrivers] == p.trace + [Spent(Install, p.bootId), InstallDrivers];
    var installed := Tick(Log(spent, InstallDrivers));
    assert Later(installed) == p.clock + 2 && !installed.loaded;
    SetupDoes(installed, world, false);
    if Granted(p, world(p.clock), Install) && world(p.clock + 1).done.Some? {
      assert HelpSetup(p, world, true) == RunSetup(installed, world, false);
      assert installed.trace == p.trace + [Spent(Install, p.bootId), InstallDrivers];
      match world(p.clock + 2).done {
        case None =>
        case Some(worked) => assert worked || !worked;
      }
    }
  }

  lemma SameAttempt(p: Page, q: Page, a: Answer)
    requires q.record == p.record && q.bootId == p.bootId
    ensures Granted(q, a, Install) <==> Granted(p, a, Install)
  {
  }

  // The gate

  /** A repair that has not ended the launch is followed by another look at the report. */
  function AfterRepair(repaired: (Page, bool), world: World): Page {
    if repaired.1 then Proceed(repaired.0, world, true) else repaired.0.(stage := Relaunching)
  }

  /** The rows a repair is for: the installable ones, in the report's order. */
  ghost predicate ToInstall(rows: seq<Row>, report: Report) {
    Selection.Picks(rows, report.rows, (r: Row) => r.severity == "installable", (r: Row) => r)
  }

  /** What every report, or none, leads to. Only a clear one, or a probe that threw, reaches the setup;
      only an installable one a repair; a busy or hopeless one stops, and a doubtful one asks. */
  lemma ProceedDoes(p: Page, world: World, remediated: bool)
    ensures var q := Proceed(p, world, remediated);
            var answer := world(p.clock + 1);
            if world(p.clock).permissionsBlocked then q.stage == PermissionGate && q.trace == p.trace
            else if answer.report.None? then
              q == RunSetup(p.(clock := p.clock + 2, trace := p.trace + [Probed(None)]), world, true)
            else
              var report, config := answer.report.value, world(p.clock + 2);
              var known := p.(clock := p.clock + 3, bootId := report.bootId, trace := p.trace + [Probed(Some(report))]);
              if config.dontShowAgain.None? then q == known.(stage := SetupFailed)
              else if HeldElsewhere(report) then q == known.(stage := BusyDialog)
              else if Installable(report, remediated) then
                exists rows :: ToInstall(rows, report) && q == AfterRepair(RemediateRows(known, world, rows), world)
              else if CannotStream(report) then q == known.(stage := CompatDialog(true))
              else if report.rows != [] && !config.dontShowAgain.value then q == known.(stage := CompatDialog(false))
              else q == RunSetup(known, world, true)
  {
    hide ClassifyCompat, RunSetup, RemediateRows, HeldElsewhere, Installable, CannotStream;
    if !world(p.clock).permissionsBlocked && world(p.clock + 1).report.Some? && world(p.clock + 2).dontShowAgain.Some? {
      var report, dontShowAgain := world(p.clock + 1).report.value, world(p.clock + 2).dontShowAgain.value;
      var gate := ClassifyCompat(report, remediated, dontShowAgain);
      GateIff(report, remediated, dontShowAgain);
      GateRows(report, remediated, dontShowAgain);
      if gate.Remediate? {
        assert ToInstall(gate.rows, report);
      }
    }
  }

  // The buttons

  /** A launch begins from nothing but the stored record. */
  lemma LaunchDoes(p: Page, world: World)
    ensures React(p, world, Launch) == Proceed(Page(p.record, "", false, false, Starting, p.clock, p.trace), world, false)
  {
    hide Proceed;
  }

  /** What each dialog's button leads to; a button of a dialog that is not open does nothing. */
  lemma RetryDoes(p: Page, world: World)
    ensures React(p, world, Retry)
         == if p.stage in [PermissionGate, BusyDialog, UpdateFailed, CompatDialog(true)] then Proceed(p, world, false) else p
  {
    hide Proceed, RunSetup, CutShort;
  }

  lemma ContinueDoes(p: Page, world: World)
    ensures React(p, world, ContinueAnyway) == if p.stage == CompatDialog(false) then RunSetup(p, world, true) else p
    ensures React(p, world, RetrySetup) == if p.stage == SetupFailed then RunSetup(p, world, false) else p
  {
    hide Proceed, RunSetup, CutShort;
  }

  lemma RestartDoes(p: Page, world: World, worked: bool)
    ensures React(p, world, RestartDriver(worked))
         == if worked && p.stage.RestartDialog? then RunSetup(p.(healthCleared := true), world, p.stage.tryInstall) else p
  {
    hide Proceed, RunSetup, CutShort;
  }
}
