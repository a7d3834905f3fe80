/** What every run of the startup page keeps: its events stay lawful, and the record in the store is
    the one they lead to (`src/pages/bootstrap.tsx`). */
module BootstrapSafety {
  import opened Wrappers
  import opened StartupGate
  import opened RepairLedger
  import opened Bootstrap

  /** Every report carries this boot id, and the probe only throws where it is the empty one. */
  ghost predicate OneId(world: World, boot: string) {
    forall t: nat :: match world(t).report case Some(r) => r.bootId == boot case None => boot == ""
  }

  ghost predicate WorldFits(world: World, boot: Option<string>) {
    boot.Some? ==> OneId(world, boot.value)
  }

  /** The page's own id is the boot's, or there has been no report yet. */
  predicate IdHeld(boot: Option<string>, id: string) { boot.Some? ==> id == "" || id == boot.value }

  /** The events are lawful from `base` on, the store holds the record they lead to, and there is
      credit for this much that was recorded and not done. */
  ghost predicate Balanced(record: DriverRepair, trace: seq<Event>, base: DriverRepair, boot: Option<string>,
                           removals: nat, installs: nat, relaunches: nat) {
    Lawful(base, boot, trace) && record == RecordAfter(base, trace) && Affords(trace, removals, installs, relaunches)
  }

  ghost predicate Kept(p: Page, base: DriverRepair, boot: Option<string>, removals: nat, installs: nat, relaunches: nat) {
    Balanced(p.record, p.trace, base, boot, removals, installs, relaunches)
  }

  /** What an attempt may be recorded from. */
  ghost predicate MayRepair(p: Page, boot: Option<string>) {
    !SaysBusy(p.trace) && IdFits(boot, p.bootId)
  }

  /** Between two inputs, besides: the busy dialog was opened by a busy answer, and a dialog that leads
      straight to an install by one that was not and that named the boot. */
  ghost predicate Sound(p: Page, base: DriverRepair, boot: Option<string>) {
    && Kept(p, base, boot, 0, 0, 0)
    && IdHeld(boot, p.bootId)
    && (p.stage.BusyDialog? ==> SaysBusy(p.trace))
    && (p.stage.CompatDialog? || p.stage == RestartDialog(true) ==> MayRepair(p, boot))
  }

  lemma KeptWithLess(p: Page, base: DriverRepair, boot: Option<string>, removals: nat, installs: nat, relaunches: nat)
    requires Kept(p, base, boot, removals, installs, relaunches)
    ensures Kept(p, base, boot, 0, 0, 0)
  {
  }

  lemma SpendKept(p: Page, world: World, what: RepairKind, base: DriverRepair, boot: Option<string>)
    requires Kept(p, base, boot, 0, 0, 0) && MayRepair(p, boot)
    ensures var (next, may) := SpendRepair(p, world, what);
            && Kept(next, base, boot, 0, 0, 0) && MayRepair(next, boot) && next.bootId == p.bootId
            && (may ==> Kept(next, base, boot,
                             if what == Reinstall then 1 else 0,
                             if what == Relaunch then 0 else 1,
                             if what == Relaunch then 1 else 0))
  {
    hide Lawful, Count, Spends, RecordAfter, LastReport, RepairForBoot, RecordAttempt;
    var e := Spent(what, p.bootId);
    LogTotals(p.trace, e);
    if MayAttempt(RepairForBoot(Some(p.record), p.bootId), what) {
      LawfulLog(base, boot, p.trace, e);
    }
  }

  /** Doing one thing that was recorded. */
  lemma ActKept(p: Page, e: Event, base: DriverRepair, boot: Option<string>, removals: nat, installs: nat, relaunches: nat)
    requires e.RemoveDrivers? || e.InstallDrivers? || e.RelaunchApp? || e.Setup?
    requires !e.Setup? ==> !SaysBusy(p.trace)
    requires Kept(p, base, boot,
                  removals + (if e.RemoveDrivers? then 1 else 0),
                  installs + (if e.InstallDrivers? then 1 else 0),
                  relaunches + (if e.RelaunchApp? then 1 else 0))
    ensures Kept(Log(p, e), base, boot, removals, installs, relaunches)
    ensures SaysBusy(Log(p, e).trace) == SaysBusy(p.trace)
  {
    hide Lawful, Count, Spends, RecordAfter, LastReport;
    LogTotals(p.trace, e);
    LawfulLog(base, boot, p.trace, e);
  }

  lemma ProbeKept(p: Page, report: Option<Report>, base: DriverRepair, boot: Option<string>)
    requires Kept(p, base, boot, 0, 0, 0)
    ensures Kept(Log(p, Probed(report)), base, boot, 0, 0, 0)
    ensures SaysBusy(Log(p, Probed(report)).trace) == (report.Some? && HeldElsewhere(report.value))
  {
    hide Lawful, Count, Spends, RecordAfter, LastReport;
    LogTotals(p.trace, Probed(report));
    LawfulLog(base, boot, p.trace, Probed(report));
  }

  lemma InstallKept(p: Page, world: World, action: RepairKind, base: DriverRepair, boot: Option<string>)
    requires Kept(p, base, boot, 0, 1, 0) && MayRepair(p, boot)
    ensures var next := InstallAndMaybeRelaunch(p, world, action).0;
            Kept(next, base, boot, 0, 0, 0) && next.bootId == p.bootId && MayRepair(next, boot)
  {
    hide Balanced, SaysBusy, SpendRepair;
    ActKept(p, InstallDrivers, base, boot, 0, 0, 0);
    var installed := Tick(Log(p, InstallDrivers));
    SpendKept(Tick(installed), world, Relaunch, base, boot);
    var (spent, may) := SpendRepair(Tick(installed), world, Relaunch);
    if may {
      ActKept(spent, RelaunchApp, base, boot, 0, 0, 0);
    }
  }

  lemma RemediateKept(p: Page, world: World, rows: seq<Row>, base: DriverRepair, boot: Option<string>)
    requires Kept(p, base, boot, 0, 0, 0) && MayRepair(p, boot)
    ensures var next := RemediateRows(p, world, rows).0;
            Kept(next, base, boot, 0, 0, 0) && next.bootId == p.bootId && MayRepair(next, boot)
  {
    hide Balanced, SaysBusy, SpendRepair, InstallAndMaybeRelaunch, DriverRemediation;
    if DriverRemediation(rows).Some? {
      var action := DriverRemediation(rows).value;
      SpendKept(p, world, action, base, boot);
      var (spent, may) := SpendRepair(p, world, action);
      if may && action == Reinstall {
        ActKept(spent, RemoveDrivers, base, boot, 0, 1, 0);
        KeptWithLess(Log(spent, RemoveDrivers), base, boot, 0, 1, 0);
        InstallKept(Tick(Log(spent, RemoveDrivers)), world, action, base, boot);
      } else if may {
        InstallKept(spent, world, action, base, boot);
      }
    }
  }

  lemma {:induction false} SetupKept(p: Page, world: World, tryInstall: bool, base: DriverRepair, boot: Option<string>)
    requires Kept(p, base, boot, 0, 0, 0) && IdHeld(boot, p.bootId) && (tryInstall ==> MayRepair(p, boot))
    ensures Sound(RunSetup(p, world, tryInstall), base, boot)
    decreases tryInstall, 1
  {
    hide Balanced, SaysBusy, HelpSetup;
    var (checked, stopped) := HealthGate(p, world, tryInstall);
    var tried := if checked.loaded then checked else Tick(Log(checked, Setup));
    ActKept(checked, Setup, base, boot, 0, 0, 0);
    HelpKept(tried.(loaded := false), world, tryInstall, base, boot);
  }

  lemma {:induction false} HelpKept(p: Page, world: World, tryInstall: bool, base: DriverRepair, boot: Option<string>)
    requires Kept(p, base, boot, 0, 0, 0) && IdHeld(boot, p.bootId) && (tryInstall ==> MayRepair(p, boot))
    ensures Sound(HelpSetup(p, world, tryInstall), base, boot)
    decreases tryInstall, 0
  {
    hide Balanced, SaysBusy, SpendRepair, RunSetup;
    if tryInstall {
      SpendKept(p, world, Install, base, boot);
      var (spent, may) := SpendRepair(p, world, Install);
      if may {
        ActKept(spent, InstallDrivers, base, boot, 0, 0, 0);
        SetupKept(Tick(Log(spent, InstallDrivers)), world, false, base, boot);
      }
    }
  }

  lemma ReportFits(world: World, boot: Option<string>, t: nat)
    requires WorldFits(world, boot)
    ensures match world(t).report case Some(r) => IdFits(boot, r.bootId) case None => IdFits(boot, "")
  {
  }

  lemma {:induction false} ProceedKept(p: Page, world: World, remediated: bool, base: DriverRepair, boot: Option<string>)
    requires WorldFits(world, boot) && Kept(p, base, boot, 0, 0, 0) && IdHeld(boot, p.bootId)
    ensures Sound(Proceed(p, world, remediated), base, boot)
    decreases !remediated, 1
  {
    hide Balanced, SaysBusy, RunSetup, ClassifyCompat, PassGate, WorldFits, HeldElsewhere;
    var allowed := Tick(p);
    var probed := Tick(allowed);
    ReportFits(world, boot, allowed.clock);
    match Ask(allowed, world).report
    case None =>
      ProbeKept(probed, None, base, boot);
      SetupKept(Log(probed, Probed(None)), world, true, base, boot);
    case Some(report) =>
      var known := Tick(probed.(bootId := report.bootId));
      ProbeKept(known, Some(report), base, boot);
      if Ask(probed, world).dontShowAgain.Some? {
        var dontShowAgain := Ask(probed, world).dontShowAgain.value;
        GateIff(report, remediated, dontShowAgain);
        GateKept(Log(known, Probed(Some(report))), world, ClassifyCompat(report, remediated, dontShowAgain), remediated, base, boot);
      }
  }

  lemma {:induction false} GateKept(p: Page, world: World, gate: Gate, remediated: bool, base: DriverRepair, boot: Option<string>)
    requires WorldFits(world, boot) && Kept(p, base, boot, 0, 0, 0) && IdFits(boot, p.bootId)
    requires SaysBusy(p.trace) == gate.Busy? && (remediated ==> !gate.Remediate?)
    ensures Sound(PassGate(p, world, gate, remediated), base, boot)
    decreases !remediated, 0
  {
    hide Balanced, SaysBusy, RemediateRows, RunSetup, Proceed, WorldFits;
    match gate
    case Remediate(rows) =>
      RemediateKept(p, world, rows, base, boot);
      var (after, carryOn) := RemediateRows(p, world, rows);
      if carryOn { ProceedKept(after, world, true, base, boot); }
    case Clear => SetupKept(p, world, true, base, boot);
    case _ =>
  }

  lemma CutShortKept(p: Page, q: Page, events: nat, base: DriverRepair, boot: Option<string>)
    requires p.trace <= q.trace && Sound(p, base, boot) && Sound(q, base, boot)
    ensures Sound(CutShort(p, q, events), base, boot)
  {
    hide Lawful, Affords, RecordAfter;
    var n := Min(|p.trace| + events, |q.trace|);
    LawfulPrefix(base, boot, q.trace, n);
    LawfulAffords(base, boot, q.trace[..n]);
    RecordAfterJoin(base, p.trace, q.trace[|p.trace|..n]);
    assert p.trace + q.trace[|p.trace|..n] == q.trace[..n];
  }

  lemma {:induction false} ReactKept(p: Page, world: World, input: Input, base: DriverRepair, boot: Option<string>)
    requires WorldFits(world, boot) && Sound(p, base, boot)
    ensures Sound(React(p, world, input), base, boot)
    decreases input
  {
    hide Balanced, SaysBusy, Proceed, RunSetup, OneId;
    match input
    case Launch => ProceedKept(Launched(p), world, false, base, boot);
    case Retry => ProceedKept(p, world, false, base, boot);
    case ContinueAnyway => if p.stage == CompatDialog(false) { SetupKept(p, world, true, base, boot); }
    case RestartDriver(_) =>
      if p.stage.RestartDialog? { SetupKept(p.(healthCleared := true), world, p.stage.tryInstall, base, boot); }
    case RetrySetup => SetupKept(p, world, false, base, boot);
    case Killed(doing, events) =>
      ReactKept(p, world, doing, base, boot);
      CutShortKept(p, React(p, world, doing), events, base, boot);
  }

  lemma {:induction false} SessionKept(p: Page, world: World, inputs: seq<Input>, base: DriverRepair, boot: Option<string>)
    requires WorldFits(world, boot) && Sound(p, base, boot)
    ensures Sound(Session(p, world, inputs), base, boot)
  {
    hide Sound, React, WorldFits;
    if inputs != [] {
      var last := |inputs| - 1;
      SessionKept(p, world, inputs[..last], base, boot);
      ReactKept(Session(p, world, inputs[..last]), world, inputs[last], base, boot);
    }
  }

  lemma FreshSound(record: DriverRepair, clock: nat, boot: Option<string>)
    ensures Sound(Fresh(record, clock), record, boot)
  {
    NothingYet();
  }

  lemma SoundWithinBudget(p: Page, base: DriverRepair, boot: string)
    requires Sound(p, base, Some(boot))
    ensures WithinBudget(base, boot, p.trace)
  {
    hide Lawful, WithinBudget, Affords, RecordAfter;
    LawfulUnderOneId(base, boot, p.trace);
    OneIdWithinBudget(base, boot, p.trace);
  }

  ghost predicate NoRepairBetween(p: Page, q: Page) {
    p.trace <= q.trace && forall k | |p.trace| <= k < |q.trace| :: !IsRepair(q.trace[k])
  }

  /** What a caller gets of a page that has gone from `p` to `q`: nothing taken back, all of it lawful,
      within the budget where the host keeps to one boot, and the busy dialog only on a busy answer. */
  ghost predicate Settled(p: Page, q: Page, base: DriverRepair, boot: Option<string>) {
    && p.trace <= q.trace
    && Sound(q, base, boot)
    && (boot.Some? ==> WithinBudget(base, boot.value, q.trace))
    && (q.stage.BusyDialog? ==> SaysBusy(q.trace))
  }

  lemma SoundSettled(p: Page, q: Page, base: DriverRepair, boot: Option<string>)
    requires p.trace <= q.trace && Sound(q, base, boot)
    ensures Settled(p, q, base, boot)
  {
    hide Balanced, WithinBudget, SaysBusy;
    if boot.Some? {
      SoundWithinBudget(q, base, boot.value);
    }
  }

  lemma SetupSettled(p: Page, world: World, tryInstall: bool, base: DriverRepair, boot: Option<string>)
    requires Kept(p, base, boot, 0, 0, 0) && IdHeld(boot, p.bootId) && (tryInstall ==> MayRepair(p, boot))
    ensures Settled(p, RunSetup(p, world, tryInstall), base, boot)
    ensures !tryInstall ==> NoRepairBetween(p, RunSetup(p, world, tryInstall))
  {
    hide Settled, Sound, Kept;
    SetupKept(p, world, tryInstall, base, boot);
    SoundSettled(p, RunSetup(p, world, tryInstall), base, boot);
  }

  lemma ProceedSettled(p: Page, world: World, remediated: bool, base: DriverRepair, boot: Option<string>)
    requires WorldFits(world, boot) && Kept(p, base, boot, 0, 0, 0) && IdHeld(boot, p.bootId)
    ensures Settled(p, Proceed(p, world, remediated), base, boot)
  {
    hide Settled, Sound, Kept, Proceed;
    ProceedKept(p, world, remediated, base, boot);
    SoundSettled(p, Proceed(p, world, remediated), base, boot);
  }

  // What this means for whole runs

  /** Any launches, retries and kills; any answers of the host, the store and the user. */
  function Done(record: DriverRepair, clock: nat, world: World, inputs: seq<Input>): seq<Event> {
    Session(Fresh(record, clock), world, inputs).trace
  }

  lemma DoneIsLawful(record: DriverRepair, clock: nat, world: World, inputs: seq<Input>, boot: Option<string>)
    requires WorldFits(world, boot)
    ensures Lawful(record, boot, Done(record, clock, world, inputs))
  {
    FreshSound(record, clock, boot);
    SessionKept(Fresh(record, clock), world, inputs, record, boot);
  }

  /** The budget over all runs: while the host reports one boot id, any number of launches, retries and
      killed processes sees at most one automatic removal, two automatic installs and one repair
      relaunch, less what its record already had spent. A count below zero in the file, which no
      repair corrects, allows that many more. */
  lemma RepairBudget(record: DriverRepair, clock: nat, world: World, inputs: seq<Input>, boot: string)
    requires OneId(world, boot)
    ensures WithinBudget(record, boot, Done(record, clock, world, inputs))
  {
    hide Sound, OneId;
    FreshSound(record, clock, Some(boot));
    SessionKept(Fresh(record, clock), world, inputs, record, Some(boot));
    SoundWithinBudget(Session(Fresh(record, clock), world, inputs), record, boot);
  }

  /** Whatever ids the host reports, the same is the bound for each stretch of attempts under one. */
  lemma RepairBudgetPerStretch(record: DriverRepair, clock: nat, world: World, inputs: seq<Input>)
    ensures var trace := Done(record, clock, world, inputs);
            var n := Stretches(trace);
            && Count(trace, RemoveDrivers) <= n + Max(0, -record.reinstall)
            && Count(trace, InstallDrivers) <= 2 * n + Max(0, -record.install) + Max(0, -record.reinstall)
            && Count(trace, RelaunchApp) <= n + Max(0, -record.relaunch)
  {
    hide Lawful, Done, Count, Stretches;
    DoneIsLawful(record, clock, world, inputs, None);
    BudgetPerStretch(record, Done(record, clock, world, inputs));
  }

  /** Recorded before it is done: at every moment of every run, under whatever ids, no more has been
      removed, installed or relaunched than attempts were recorded for it. */
  lemma RecordedBeforeDone(record: DriverRepair, clock: nat, world: World, inputs: seq<Input>, k: nat)
    requires k <= |Done(record, clock, world, inputs)|
    ensures Affords(Done(record, clock, world, inputs)[..k], 0, 0, 0)
  {
    hide Lawful, Done, Affords;
    DoneIsLawful(record, clock, world, inputs, None);
    LawfulPrefix(record, None, Done(record, clock, world, inputs), k);
    LawfulAffords(record, None, Done(record, clock, world, inputs)[..k]);
  }

  /** Once a report said, on a supported system, that another instance holds the driver, nothing is
      removed, installed, relaunched or even recorded before the next report. */
  lemma NoRepairWhileBusy(record: DriverRepair, clock: nat, world: World, inputs: seq<Input>, at: nat, k: nat, report: Report, row: Row)
    requires at < k < |Done(record, clock, world, inputs)|
    requires Done(record, clock, world, inputs)[at] == Probed(Some(report))
    requires forall j | at < j < k :: !Done(record, clock, world, inputs)[j].Probed?
    requires report.osSupported && row in report.rows && row.key == "display-driver-busy"
    ensures !IsRepair(Done(record, clock, world, inputs)[k])
  {
    hide Done, Affords, RecordAfter, LastReport;
    DoneIsLawful(record, clock, world, inputs, None);
    assert MayFollow(record, None, Done(record, clock, world, inputs)[..k], Done(record, clock, world, inputs)[k]);
    LastReportAt(Done(record, clock, world, inputs), at, k);
  }

  lemma {:induction false} LastReportAt(trace: seq<Event>, at: nat, k: nat)
    requires at < k <= |trace| && trace[at].Probed? && forall j | at < j < k :: !trace[j].Probed?
    ensures LastReport(trace[..k]) == trace[at].report
  {
    assert trace[..k][..k - 1] == trace[..k - 1];
    if at < k - 1 {
      LastReportAt(trace, at, k - 1);
    }
  }
}
