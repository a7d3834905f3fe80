/** Why the repair budget needs one boot id: launches whose compatibility probe throws spend under the
    empty id, and give the reported id its budget back (`src/pages/bootstrap.tsx`). */
module BootstrapTwoIds {
  import opened Wrappers
  import opened StartupGate
  import opened RepairLedger
  import opened Bootstrap

  const BROKEN: Report := Report(true, [Row(DRIVER_KEY, SEVERITY_INSTALLABLE)], "boot-1")

  /** The ordinary answers of a host whose driver cannot be installed. */
  const USUAL: Answer := Answer(false, Some(BROKEN), Some(false), true, Written, Some(false), true, false, GoesOn)

  /** Every second launch its compatibility probe throws, so that launch spends under the empty id;
      the other launches report the real one. No install ever helps. */
  function FlakyProbe(): World {
    (t: nat) => if t % 15 == 1 then USUAL.(report := None) else USUAL
  }

  ghost predicate UsualFor(world: World, from: nat, count: nat) {
    forall t: nat | from <= t < from + count :: world(t) == USUAL
  }

  lemma FilterOne(p: Row -> bool, r: Row)
    ensures Filter(p, [r]) == if p(r) then [r] else []
  {
    assert [r][1..] == [] && Filter(p, []) == [];
  }

  lemma BrokenIsRemediated()
    ensures ClassifyCompat(BROKEN, false, false) == Remediate(BROKEN.rows)
    ensures ClassifyCompat(BROKEN, true, false) == Blocked(BROKEN.rows)
    ensures DriverRemediation(BROKEN.rows) == Some(Install)
  {
    var row := Row(DRIVER_KEY, SEVERITY_INSTALLABLE);
    assert DRIVER_KEY != DRIVER_UNRESPONSIVE_KEY && DRIVER_KEY != DRIVER_BUSY_KEY;
    FilterOne((r: Row) => r.key == DRIVER_BUSY_KEY, row);
    FilterOne((r: Row) => r.severity == SEVERITY_INSTALLABLE, row);
    assert BusyRows(BROKEN) == [] && InstallableRows(BROKEN) == BROKEN.rows;
    assert row in BROKEN.rows;
  }

  function BlindTrace(): seq<Event> { [Probed(None), Setup, Spent(Install, ""), InstallDrivers, Setup] }

  function SightedTrace(): seq<Event> {
    [Probed(Some(BROKEN)), Spent(Install, "boot-1"), InstallDrivers, Probed(Some(BROKEN))]
  }

  /** A launch whose probe throws installs once, under the empty id. */
  lemma BlindLaunch(p: Page, world: World)
    requires world(p.clock) == USUAL && world(p.clock + 1) == USUAL.(report := None) && UsualFor(world, p.clock + 2, 5)
    requires RepairForBoot(Some(p.record), "").install == 0
    ensures var q := React(p, world, Launch);
            q.clock == p.clock + 7 && q.record.boot == "" && q.trace == p.trace + BlindTrace()
  {
    hide RunSetup, ClassifyCompat, RemediateRows, RepairForBoot;
    var probed := Log(Tick(Tick(Launched(p))), Probed(None));
    assert Proceed(Launched(p), world, false) == RunSetup(probed, world, true);
    BlindSetup(probed, world);
    assert p.trace + [Probed(None)] + [Setup, Spent(Install, ""), InstallDrivers, Setup] == p.trace + BlindTrace();
  }

  lemma BlindSetup(p: Page, world: World)
    requires UsualFor(world, p.clock, 5) && RepairForBoot(Some(p.record), "").install == 0
    requires p.bootId == "" && !p.loaded && !p.healthCleared
    ensures var q := RunSetup(p, world, true);
            && q.clock == p.clock + 5 && q.record.boot == ""
            && q.trace == p.trace + [Setup, Spent(Install, ""), InstallDrivers, Setup]
  {
    var tried := Tick(Log(Tick(p).(healthCleared := true), Setup));
    var (spent, may) := SpendRepair(tried, world, Install);
    var installed := Tick(Log(spent, InstallDrivers));
    assert RunSetup(installed, world, false) == Tick(Log(installed, Setup)).(stage := SetupFailed);
    assert RunSetup(p, world, true) == RunSetup(installed, world, false);
    assert p.trace + [Setup] + [Spent(Install, "")] + [InstallDrivers] + [Setup]
        == p.trace + [Setup, Spent(Install, ""), InstallDrivers, Setup];
  }

  function Reported(p: Page): Page {
    Log(Tick(Tick(Tick(p))).(bootId := "boot-1"), Probed(Some(BROKEN)))
  }

  lemma SightedReport(p: Page, world: World, remediated: bool, gate: Gate)
    requires UsualFor(world, p.clock, 3) && ClassifyCompat(BROKEN, remediated, false) == gate
    ensures Proceed(p, world, remediated) == PassGate(Reported(p), world, gate, remediated)
  {
    hide ClassifyCompat, PassGate;
  }

  /** A launch that gets its report installs once more, under the reported id. */
  lemma SightedLaunch(p: Page, world: World)
    requires UsualFor(world, p.clock, 8) && p.record.boot == ""
    ensures var q := React(p, world, Launch);
            && q.clock == p.clock + 8 && RepairForBoot(Some(q.record), "").install == 0
            && q.trace == p.trace + SightedTrace()
  {
    BrokenIsRemediated();
    hide ClassifyCompat, RemediateRows, Proceed;
    SightedReport(Launched(p), world, false, Remediate(BROKEN.rows));
    var gated := Reported(Launched(p));
    SightedRemediation(gated, world);
    var (installed, carryOn) := RemediateRows(gated, world, BROKEN.rows);
    SightedReport(installed, world, true, Blocked(BROKEN.rows));
    var a := Probed(Some(BROKEN));
    assert p.trace + [a] + [Spent(Install, "boot-1"), InstallDrivers] + [a] == p.trace + SightedTrace();
  }

  lemma SightedRemediation(p: Page, world: World)
    requires UsualFor(world, p.clock, 2) && p.bootId == "boot-1" && p.record.boot == ""
    ensures var (q, carryOn) := RemediateRows(p, world, BROKEN.rows);
            && carryOn && q.clock == p.clock + 2 && q.record.boot == "boot-1"
            && q.trace == p.trace + [Spent(Install, "boot-1"), InstallDrivers]
  {
    BrokenIsRemediated();
    hide DriverRemediation, ClassifyCompat;
    assert "boot-1" != "";
    var (spent, may) := SpendRepair(p, world, Install);
    assert p.trace + [Spent(Install, "boot-1")] + [InstallDrivers] == p.trace + [Spent(Install, "boot-1"), InstallDrivers];
  }

  lemma CountInstalls(trace: seq<Event>, more: seq<Event>)
    ensures Count(trace + more, InstallDrivers) == Count(trace, InstallDrivers) + Count(more, InstallDrivers)
  {
    if more == [] {
      assert trace + more == trace;
    } else {
      var last := |more| - 1;
      assert (trace + more)[..|trace + more| - 1] == trace + more[..last];
      CountInstalls(trace, more[..last]);
    }
  }

  function Launches(n: nat): seq<Input> { seq(n, _ => Launch) }

  lemma LaunchOnce(p: Page, world: World, n: nat)
    ensures Session(p, world, Launches(n + 1)) == React(Session(p, world, Launches(n)), world, Launch)
  {
    assert Launches(n + 1)[..n] == Launches(n);
  }

  lemma FlakyAnswers(n: nat)
    ensures var t := 15 * n;
            && FlakyProbe()(t) == USUAL && FlakyProbe()(t + 1) == USUAL.(report := None)
            && UsualFor(FlakyProbe(), t + 2, 5) && UsualFor(FlakyProbe(), t + 7, 8)
  {
  }

  lemma TwoLaunches(p: Page, world: World)
    requires world(p.clock) == USUAL && world(p.clock + 1) == USUAL.(report := None)
    requires UsualFor(world, p.clock + 2, 5) && UsualFor(world, p.clock + 7, 8)
    requires RepairForBoot(Some(p.record), "").install == 0
    ensures var q := React(React(p, world, Launch), world, Launch);
            && q.clock == p.clock + 15 && RepairForBoot(Some(q.record), "").install == 0
            && Count(q.trace, InstallDrivers) == Count(p.trace, InstallDrivers) + 2
  {
    hide React, Count, RepairForBoot, BlindTrace, SightedTrace;
    BlindLaunch(p, world);
    var q := React(p, world, Launch);
    SightedLaunch(q, world);
    CountInstalls(p.trace, BlindTrace());
    CountInstalls(q.trace, SightedTrace());
    OneInstallEach();
  }

  /** Without one id for the whole boot there is no bound: two launches, one of them without a
      report, restore each other's budget, and every pair of them installs twice. */
  lemma {:induction false} TwoIdsHaveNoBudget(pairs: nat)
    ensures var p := Session(Fresh(NO_REPAIRS, 0), FlakyProbe(), Launches(2 * pairs));
            && Count(p.trace, InstallDrivers) == 2 * pairs
            && p.clock == 15 * pairs && RepairForBoot(Some(p.record), "").install == 0
  {
    if pairs > 0 {
      hide *;
      TwoIdsHaveNoBudget(pairs - 1);
      TwoMoreLaunches(2 * (pairs - 1));
      TwoMoreInstalls(Session(Fresh(NO_REPAIRS, 0), FlakyProbe(), Launches(2 * (pairs - 1))), pairs - 1);
    } else {
      NoLaunches();
    }
  }

  lemma TwoMoreLaunches(n: nat)
    ensures var p := Fresh(NO_REPAIRS, 0);
            Session(p, FlakyProbe(), Launches(n + 2))
              == React(React(Session(p, FlakyProbe(), Launches(n)), FlakyProbe(), Launch), FlakyProbe(), Launch)
  {
    hide Launches, React, Session, FlakyProbe;
    LaunchOnce(Fresh(NO_REPAIRS, 0), FlakyProbe(), n);
    LaunchOnce(Fresh(NO_REPAIRS, 0), FlakyProbe(), n + 1);
  }

  lemma TwoMoreInstalls(p: Page, n: nat)
    requires p.clock == 15 * n && RepairForBoot(Some(p.record), "").install == 0
    ensures var q := React(React(p, FlakyProbe(), Launch), FlakyProbe(), Launch);
            && q.clock == 15 * n + 15 && RepairForBoot(Some(q.record), "").install == 0
            && Count(q.trace, InstallDrivers) == Count(p.trace, InstallDrivers) + 2
  {
    hide React, Count, RepairForBoot, FlakyProbe, UsualFor;
    FlakyAnswers(n);
    TwoLaunches(p, FlakyProbe());
  }

  lemma NoLaunches()
    ensures var p := Session(Fresh(NO_REPAIRS, 0), FlakyProbe(), Launches(0));
            Count(p.trace, InstallDrivers) == 0 && p.clock == 0 && RepairForBoot(Some(p.record), "").install == 0
  {
    assert Launches(0) == [];
  }

  lemma OneInstallEach()
    ensures Count(BlindTrace(), InstallDrivers) == 1 && Count(SightedTrace(), InstallDrivers) == 1
  {
    CountInstalls([Probed(None), Setup, Spent(Install, "")], [InstallDrivers, Setup]);
    assert [Probed(None), Setup, Spent(Install, "")] + [InstallDrivers, Setup] == BlindTrace();
    var a := Probed(Some(BROKEN));
    CountInstalls([a, Spent(Install, "boot-1")], [InstallDrivers, a]);
    assert [a, Spent(Install, "boot-1")] + [InstallDrivers, a] == SightedTrace();
  }
}
