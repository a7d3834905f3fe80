/** What the compatibility report means for whether the app may start, and the record of what has
    been tried about the display driver (`src/lib/startup-gate.ts`). */
module StartupGate {
  import opened Wrappers
  import opened Selection

  const SEVERITY_BLOCKING := "blocking"
  const SEVERITY_INSTALLABLE := "installable"
  const DRIVER_KEY := "display-driver"
  const DRIVER_UNRESPONSIVE_KEY := "display-driver-unresponsive"
  const DRIVER_BUSY_KEY := "display-driver-busy"

  datatype Row = Row(key: string, severity: string)

  datatype Report = Report(osSupported: bool, rows: seq<Row>, bootId: string)

  datatype Gate =
    | Clear
    | Busy(rows: seq<Row>)
    | Remediate(rows: seq<Row>)
    | Blocked(rows: seq<Row>)
    | Warn(rows: seq<Row>)

  function Filter(p: Row -> bool, rows: seq<Row>): (kept: seq<Row>)
    ensures forall r :: r in kept <==> r in rows && p(r)
  {
    if rows == [] then []
    else if p(rows[0]) then [rows[0]] + Filter(p, rows[1..])
    else Filter(p, rows[1..])
  }

  function BusyRows(report: Report): seq<Row> { Filter((r: Row) => r.key == DRIVER_BUSY_KEY, report.rows) }

  function InstallableRows(report: Report): seq<Row> { Filter((r: Row) => r.severity == SEVERITY_INSTALLABLE, report.rows) }

  function Visible(report: Report, remediated: bool): seq<Row> {
    if remediated then report.rows else Filter((r: Row) => r.severity != SEVERITY_INSTALLABLE, report.rows)
  }

  function ClassifyCompat(report: Report, remediated: bool, dontShowAgain: bool): (gate: Gate)
    ensures remediated ==> !gate.Remediate?
  {
    var busy := BusyRows(report);
    var installable := InstallableRows(report);
    var visible := Visible(report, remediated);
    if busy != [] && report.osSupported then Busy(busy)
    else if installable != [] && !remediated then Remediate(installable)
    else if !report.osSupported || (exists r | r in visible :: r.severity == SEVERITY_BLOCKING) || installable != [] then Blocked(visible)
    else if visible != [] && !dontShowAgain then Warn(visible)
    else Clear
  }

  // What each answer means, over the report's own rows

  ghost predicate HasKey(report: Report, key: string) { exists r | r in report.rows :: r.key == key }

  ghost predicate HasSeverity(report: Report, severity: string) { exists r | r in report.rows :: r.severity == severity }

  /** Another instance of ours holds the driver, on a system that is supported. */
  ghost predicate HeldElsewhere(report: Report) { report.osSupported && HasKey(report, DRIVER_BUSY_KEY) }

  /** There is something an install can still be tried for. */
  ghost predicate Installable(report: Report, remediated: bool) { HasSeverity(report, SEVERITY_INSTALLABLE) && !remediated }

  /** Streaming cannot work here: nothing can be done, or what could be done has been. */
  ghost predicate CannotStream(report: Report) {
    !report.osSupported || HasSeverity(report, SEVERITY_BLOCKING) || HasSeverity(report, SEVERITY_INSTALLABLE)
  }

  /** Which gate a report gets, in every case. */
  lemma GateIff(report: Report, remediated: bool, dontShowAgain: bool)
    ensures var gate := ClassifyCompat(report, remediated, dontShowAgain);
            && (gate.Busy? <==> HeldElsewhere(report))
            && (gate.Remediate? <==> !HeldElsewhere(report) && Installable(report, remediated))
            && (gate.Blocked? <==> !HeldElsewhere(report) && !Installable(report, remediated) && CannotStream(report))
            && (gate.Warn? <==> !HeldElsewhere(report) && !CannotStream(report) && report.rows != [] && !dontShowAgain)
            && (gate.Clear? <==> !HeldElsewhere(report) && !CannotStream(report) && (report.rows == [] || dontShowAgain))
  {
    Witness(BusyRows(report));
    Witness(InstallableRows(report));
    Witness(Visible(report, remediated));
    Witness(report.rows);
    assert SEVERITY_BLOCKING != SEVERITY_INSTALLABLE;
    forall r | r in report.rows && r.severity == SEVERITY_BLOCKING ensures r in Visible(report, remediated) {
    }
  }

  /** Which rows it carries: the busy ones, the installable ones, or what there is to show, in the
      report's order; installable rows are shown once their remediation has been tried. */
  lemma GateRows(report: Report, remediated: bool, dontShowAgain: bool)
    ensures var gate := ClassifyCompat(report, remediated, dontShowAgain);
            var same := (r: Row) => r;
            && (gate.Busy? ==> Picks(gate.rows, report.rows, (r: Row) => r.key == DRIVER_BUSY_KEY, same))
            && (gate.Remediate? ==> Picks(gate.rows, report.rows, (r: Row) => r.severity == SEVERITY_INSTALLABLE, same))
            && (gate.Blocked? || gate.Warn? ==>
                  if remediated then gate.rows == report.rows
                  else Picks(gate.rows, report.rows, (r: Row) => r.severity != SEVERITY_INSTALLABLE, same))
  {
    FilterPicks((r: Row) => r.key == DRIVER_BUSY_KEY, report.rows);
    FilterPicks((r: Row) => r.severity == SEVERITY_INSTALLABLE, report.rows);
    FilterPicks((r: Row) => r.severity != SEVERITY_INSTALLABLE, report.rows);
  }

  lemma {:induction false} FilterPicks(p: Row -> bool, rows: seq<Row>)
    ensures Picks(Filter(p, rows), rows, p, (r: Row) => r)
  {
    var same := (r: Row) => r;
    if rows == [] {
      PicksNothing(p, same);
    } else {
      FilterPicks(p, rows[1..]);
      PicksCons(Filter(p, rows[1..]), rows[0], rows[1..], p, same);
      assert [rows[0]] + rows[1..] == rows;
      assert [] + Filter(p, rows[1..]) == Filter(p, rows[1..]);
    }
  }

  lemma Witness(rows: seq<Row>)
    ensures rows != [] <==> exists r :: r in rows
  {
    if rows != [] { assert rows[0] in rows; }
  }

  datatype RepairKind = Install | Reinstall | Relaunch

  /** What to do about the rows. A driver that is installed but silent is removed first; a busy one
      is nobody's business here. */
  function DriverRemediation(rows: seq<Row>): (action: Option<RepairKind>)
    ensures action != Some(Relaunch)
  {
    if exists r | r in rows :: r.key == DRIVER_UNRESPONSIVE_KEY then Some(Reinstall)
    else if exists r | r in rows :: r.key == DRIVER_KEY then Some(Install)
    else None
  }

  /** An installed driver that does not answer is to be removed and installed, whatever else there is;
      a missing one installed; and nothing is done about anything else. */
  lemma RemediationIff(rows: seq<Row>)
    ensures DriverRemediation(rows) == Some(Reinstall) <==> exists r | r in rows :: r.key == "display-driver-unresponsive"
    ensures DriverRemediation(rows) == Some(Install)
      <==> (exists r | r in rows :: r.key == "display-driver") && forall r | r in rows :: r.key != "display-driver-unresponsive"
  {
  }

  /** The counts belong to one boot. */
  datatype DriverRepair = DriverRepair(boot: string, install: int, reinstall: int, relaunch: int) {
    function Count(what: RepairKind): int {
      match what case Install => install case Reinstall => reinstall case Relaunch => relaunch
    }
  }

  const NO_REPAIRS: DriverRepair := DriverRepair("", 0, 0, 0)

  function RepairForBoot(saved: Option<DriverRepair>, boot: string): DriverRepair {
    match saved
    case None => NO_REPAIRS.(boot := boot)
    case Some(r) => if r.boot != boot then NO_REPAIRS.(boot := boot) else r
  }

  predicate MayAttempt(repair: DriverRepair, what: RepairKind) {
    repair.Count(what) < 1
  }

  function RecordAttempt(repair: DriverRepair, what: RepairKind): DriverRepair {
    match what
    case Install => repair.(install := repair.install + 1)
    case Reinstall => repair.(reinstall := repair.reinstall + 1)
    case Relaunch => repair.(relaunch := repair.relaunch + 1)
  }
}
