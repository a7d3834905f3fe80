/** The startup page as it runs: refs, the stored record and the dialogs, updated step by step
    (`src/pages/bootstrap.tsx`). Each method takes the steps of the function of the same name in
    `Bootstrap`, and keeps the page's events lawful. */
module BootstrapPage {
  import opened Wrappers
  import opened StartupGate
  import opened RepairLedger
  import B = Bootstrap
  import opened BootstrapSafety

  class StartupPage {
    const world: B.World
    var record: DriverRepair
    var bootId: string
    var loaded: bool
    var healthCleared: bool
    var stage: B.Stage
    var clock: nat
    /** The record this process began with, the boot id the host keeps to, if it does, and what has
        been done since. */
    ghost const base: DriverRepair
    ghost const boot: Option<string>
    ghost var trace: seq<Event>

    ghost function View(): B.Page
      reads this
    {
      B.Page(record, bootId, loaded, healthCleared, stage, clock, trace)
    }

    /** Everything done was recorded first and within the budget of its id, none of it while the
        driver was busy; the store holds the record; an open dialog can be answered. */
    ghost predicate Valid()
      reads this
    {
      WorldFits(world, boot) && Sound(View(), base, boot)
    }

    /** `Valid` but for the dialog, which the next step replaces. */
    ghost predicate Ready()
      reads this
    {
      WorldFits(world, boot) && Kept(View(), base, boot, 0, 0, 0) && IdHeld(boot, bootId)
    }

    /** In the middle of a step that may repair. */
    ghost predicate Repairing()
      reads this
    {
      Kept(View(), base, boot, 0, 0, 0) && MayRepair(View(), boot)
    }

    /** A page of a new process over whatever the store holds. */
    constructor (world: B.World, record: DriverRepair, clock: nat, ghost boot: Option<string>)
      requires WorldFits(world, boot)
      ensures Valid()
      ensures this.world == world && this.base == record && this.boot == boot && View() == B.Fresh(record, clock)
    {
      this.world := world;
      this.record, bootId, loaded, healthCleared := record, "", false, false;
      stage, this.clock, trace := B.Starting, clock, [];
      this.base, this.boot := record, boot;
      new;
      FreshSound(record, clock, boot);
    }

    /** Put one question to the host, the store or the user. */
    method Ask() returns (answer: B.Answer)
      modifies this`clock
      ensures answer == B.Ask(old(View()), world) && View() == B.Tick(old(View()))
    {
      answer := world(clock);
      clock := clock + 1;
    }

    /** An attempt that is granted is on record before it is made, and is not granted again to the
        same boot; whether it is granted or not, at most that one record is written. */
    method SpendRepair(what: RepairKind) returns (may: bool)
      requires Repairing()
      modifies this`clock, this`record, this`trace
      ensures (View(), may) == B.SpendRepair(old(View()), world, what)
      ensures Repairing()
      ensures trace == old(trace) || trace == old(trace) + [Spent(what, bootId)]
      ensures may ==>
        && RepairForBoot(Some(old(record)), bootId).Count(what) < 1
        && Kept(View(), base, boot, if what == Reinstall then 1 else 0, if what == Relaunch then 0 else 1, if what == Relaunch then 1 else 0)
        && (RepairForBoot(Some(old(record)), bootId).Count(what) == 0 ==> !MayAttempt(RepairForBoot(Some(record), bootId), what))
    {
      hide Balanced, LastReport;
      SpendKept(View(), world, what, base, boot);
      var answer := Ask();
      if !answer.readable {
        return false;
      }
      var repair := RepairForBoot(Some(record), bootId);
      if !MayAttempt(repair, what) || answer.write == B.Lost {
        return false;
      }
      record := RecordAttempt(repair, what);
      trace := trace + [Spent(what, bootId)];
      return answer.write == B.Written;
    }

    /** The launch is over only when it has started a relaunch; otherwise the caller carries on with a
        page that may still repair, whatever failed. */
    method Remediate(rows: seq<Row>) returns (carryOn: bool)
      requires Repairing()
      modifies this`clock, this`record, this`trace
      ensures (View(), carryOn) == B.RemediateRows(old(View()), world, rows)
      ensures Repairing()
      ensures !carryOn ==> |old(trace)| < |trace| && trace[|trace| - 1] == RelaunchApp
    {
      hide DriverRemediation, B.SpendRepair, B.InstallAndMaybeRelaunch, Balanced, LastReport, MayAttempt;
      var action := DriverRemediation(rows);
      if action.None? {
        return true;
      }
      var may := SpendRepair(action.value);
      if !may {
        return true;
      }
      if action.value == Reinstall {
        ActKept(View(), RemoveDrivers, base, boot, 0, 1, 0);
        trace := trace + [RemoveDrivers];
        KeptWithLess(View(), base, boot, 0, 1, 0);
        var removed := Ask();
        if removed.done.None? {
          return true;
        }
      }
      carryOn := InstallAndMaybeRelaunch(action.value);
    }

    method InstallAndMaybeRelaunch(action: RepairKind) returns (carryOn: bool)
      requires Kept(View(), base, boot, 0, 1, 0) && MayRepair(View(), boot)
      modifies this`clock, this`record, this`trace
      ensures (View(), carryOn) == B.InstallAndMaybeRelaunch(old(View()), world, action)
      ensures Repairing()
      ensures |old(trace)| < |trace| && trace[|old(trace)|] == InstallDrivers
      ensures !carryOn ==> trace[|trace| - 1] == RelaunchApp
    {
      hide B.SpendRepair, Balanced, LastReport, MayAttempt;
      ActKept(View(), InstallDrivers, base, boot, 0, 0, 0);
      trace := trace + [InstallDrivers];
      var installed := Ask();
      if installed.done != Some(false) || action != Reinstall {
        return true;
      }
      var memo := Ask();
      if memo.relaunchTried {
        return true;
      }
      var may := SpendRepair(Relaunch);
      if !may {
        return true;
      }
      ActKept(View(), RelaunchApp, base, boot, 0, 0, 0);
      trace := trace + [RelaunchApp];
      var relaunched := Ask();
      return relaunched.done.None?;
    }

    /** The page stops here exactly when it opens the restart dialog, and remembers the setup it
        interrupted; otherwise the driver's health is settled, and no later setup asks again. */
    method DriverHealthBlocks(tryInstall: bool) returns (blocks: bool)
      modifies this`clock, this`stage, this`healthCleared
      ensures (View(), blocks) == B.HealthGate(old(View()), world, tryInstall)
      ensures blocks ==> !loaded && !healthCleared && stage == B.RestartDialog(tryInstall)
      ensures !blocks ==> (loaded || healthCleared) && stage == old(stage)
      ensures old(loaded || healthCleared) ==> !blocks && clock == old(clock)
    {
      if loaded || healthCleared {
        return false;
      }
      var answer := Ask();
      if answer.needsRestart {
        stage := B.RestartDialog(tryInstall);
        return true;
      }
      healthCleared := true;
      return false;
    }

    /** The setup, once more after an install at most. However it goes the page has settled, and without
        leave to install it has not repaired anything. */
    method RunSetup(tryInstall: bool)
      requires Ready() && (tryInstall ==> MayRepair(View(), boot))
      modifies this
      ensures View() == B.RunSetup(old(View()), world, tryInstall)
      ensures Settled(old(View()), View(), base, boot)
      ensures !tryInstall ==> NoRepairBetween(old(View()), View())
      decreases tryInstall, 1
    {
      hide Balanced, SaysBusy, B.HelpSetup, WorldFits, Settled, NoRepairBetween;
      SetupSettled(View(), world, tryInstall, base, boot);
      var blocked := DriverHealthBlocks(tryInstall);
      if blocked {
        return;
      }
      var success := true;
      if !loaded {
        ActKept(View(), Setup, base, boot, 0, 0, 0);
        trace := trace + [Setup];
        var answer := Ask();
        if answer.done.None? {
          stage := B.SetupFailed;
          return;
        }
        success := answer.done.value;
        loaded := success;
      }
      if success {
        var rest := Ask();
        stage := B.StageAfter(rest.afterSetup);
        return;
      }
      HelpSetup(tryInstall);
    }

    /** What `RunSetup` does about a setup that failed. */
    method HelpSetup(tryInstall: bool)
      requires Ready() && (tryInstall ==> MayRepair(View(), boot))
      modifies this
      ensures View() == B.HelpSetup(old(View()), world, tryInstall)
      decreases tryInstall, 0
    {
      hide Balanced, SaysBusy, B.SpendRepair, B.RunSetup, WorldFits, Settled, NoRepairBetween;
      if !tryInstall {
        stage := B.SetupFailed;
        return;
      }
      var may := SpendRepair(Install);
      if !may {
        stage := B.SetupFailed;
        return;
      }
      ActKept(View(), InstallDrivers, base, boot, 0, 0, 0);
      trace := trace + [InstallDrivers];
      var installed := Ask();
      if installed.done.None? {
        stage := B.SetupFailed;
        return;
      }
      RunSetup(false);
    }

    /** From a launch, or a dialog's button, to the next dialog or the dashboard: the page has settled,
        whatever was answered on the way. */
    method Proceed(remediated: bool)
      requires Ready()
      modifies this
      ensures View() == B.Proceed(old(View()), world, remediated)
      ensures Settled(old(View()), View(), base, boot)
      decreases !remediated, 1
    {
      hide Balanced, SaysBusy, B.RunSetup, B.PassGate, ClassifyCompat, WorldFits, Settled, NoRepairBetween;
      ProceedSettled(View(), world, remediated, base, boot);
      var permissions := Ask();
      if permissions.permissionsBlocked {
        stage := B.PermissionGate;
        return;
      }
      ReportFits(world, boot, clock);
      var probe := Ask();
      if probe.report.None? {
        ProbeKept(View(), None, base, boot);
        trace := trace + [Probed(None)];
        RunSetup(true);
        return;
      }
      var report := probe.report.value;
      bootId := report.bootId;
      ProbeKept(View(), Some(report), base, boot);
      trace := trace + [Probed(Some(report))];
      var config := Ask();
      if config.dontShowAgain.None? {
        stage := B.SetupFailed;
        return;
      }
      var gate := ClassifyCompat(report, remediated, config.dontShowAgain.value);
      GateIff(report, remediated, config.dontShowAgain.value);
      PassGate(gate, remediated);
    }

    /** What `Proceed` does about the gate. */
    method PassGate(gate: Gate, remediated: bool)
      requires Ready() && IdFits(boot, bootId)
      requires SaysBusy(trace) == gate.Busy? && (remediated ==> !gate.Remediate?)
      modifies this
      ensures View() == B.PassGate(old(View()), world, gate, remediated)
      decreases !remediated, 0
    {
      hide Balanced, SaysBusy, B.RunSetup, B.RemediateRows, B.Proceed, WorldFits, Settled, NoRepairBetween;
      match gate
      case Busy(_) => stage := B.BusyDialog;
      case Remediate(rows) =>
        var carryOn := Remediate(rows);
        if carryOn {
          Proceed(true);
        } else {
          stage := B.Relaunching;
        }
      case Blocked(_) => stage := B.CompatDialog(true);
      case Warn(_) => stage := B.CompatDialog(false);
      case Clear => RunSetup(true);
    }

    /** The buttons of the dialog that is open: from one valid page to the next. */
    method Press(button: B.Input)
      requires Valid() && !button.Launch? && !button.Killed?
      modifies this
      ensures View() == B.React(old(View()), world, button)
      ensures Valid() && Settled(old(View()), View(), base, boot)
    {
      hide Balanced, SaysBusy, B.RunSetup, B.Proceed, WorldFits, WithinBudget;
      SoundSettled(View(), View(), base, boot);
      match button
      case Retry => if B.OffersRetry(stage) { Proceed(false); }
      case ContinueAnyway => if stage == B.CompatDialog(false) { RunSetup(true); }
      case RestartDriver(worked) =>
        if stage.RestartDialog? && worked {
          healthCleared := true;
          RunSetup(stage.tryInstall);
        }
      case RetrySetup => if stage.SetupFailed? { RunSetup(false); }
      case _ =>
    }
  }
}
