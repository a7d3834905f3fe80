/** What the startup page has done so far, as a list of events, and what the list alone says: an
    attempt is recorded before it is made, none is recorded twice under one boot id, and nothing is
    repaired while the driver is busy (`src/pages/bootstrap.tsx`, `src/lib/startup-gate.ts`). */
module RepairLedger {
  import opened Wrappers
  import opened StartupGate

  datatype Event =
    | Probed(report: Option<Report>)
    | Spent(what: RepairKind, boot: string)
    | RemoveDrivers
    | InstallDrivers
    | RelaunchApp
    | Setup

  function Count(trace: seq<Event>, e: Event): nat {
    if trace == [] then 0
    else
      var last := |trace| - 1;
      Count(trace[..last], e) + (if trace[last] == e then 1 else 0)
  }

  /** How often an attempt of this kind was recorded, under whatever id. */
  function Spends(trace: seq<Event>, what: RepairKind): nat {
    if trace == [] then 0
    else
      var last := |trace| - 1;
      Spends(trace[..last], what) + (if trace[last].Spent? && trace[last].what == what then 1 else 0)
  }

  /** The stored record after these events. */
  function RecordAfter(record: DriverRepair, trace: seq<Event>): DriverRepair {
    if trace == [] then record
    else
      var last, before := trace[|trace| - 1], RecordAfter(record, trace[..|trace| - 1]);
      if last.Spent? then RecordAttempt(RepairForBoot(Some(before), last.boot), last.what) else before
  }

  /** The latest compatibility report, where the probe did not throw. */
  function LastReport(trace: seq<Event>): Option<Report> {
    if trace == [] then None
    else
      var last := |trace| - 1;
      if trace[last].Probed? then trace[last].report else LastReport(trace[..last])
  }

  /** The latest compatibility report said that another instance holds the driver. */
  ghost predicate SaysBusy(trace: seq<Event>) {
    LastReport(trace).Some? && HeldElsewhere(LastReport(trace).value)
  }

  predicate IsRepair(e: Event) { e.RemoveDrivers? || e.InstallDrivers? || e.RelaunchApp? || e.Spent? }

  /** What was done, with this much still to do, is no more than what was recorded. */
  ghost predicate Affords(trace: seq<Event>, removals: nat, installs: nat, relaunches: nat) {
    && Count(trace, RemoveDrivers) + removals <= Spends(trace, Reinstall)
    && Count(trace, InstallDrivers) + installs <= Spends(trace, Install) + Spends(trace, Reinstall)
    && Count(trace, RelaunchApp) + relaunches <= Spends(trace, Relaunch)
  }

  /** The id an attempt may be recorded under, where only one is. */
  predicate IdFits(boot: Option<string>, id: string) { boot.Some? ==> id == boot.value }

  /** The event may follow these: no repair while the driver is busy, no attempt beyond the budget of
      its id, nothing done that was not recorded. `base` is the record to begin with. */
  ghost predicate MayFollow(base: DriverRepair, boot: Option<string>, trace: seq<Event>, e: Event) {
    && (IsRepair(e) ==> !SaysBusy(trace))
    && match e
       case Spent(what, id) => MayAttempt(RepairForBoot(Some(RecordAfter(base, trace)), id), what) && IdFits(boot, id)
       case RemoveDrivers => Affords(trace, 1, 0, 0)
       case InstallDrivers => Affords(trace, 0, 1, 0)
       case RelaunchApp => Affords(trace, 0, 0, 1)
       case _ => true
  }

  ghost predicate Lawful(base: DriverRepair, boot: Option<string>, trace: seq<Event>) {
    forall k | 0 <= k < |trace| :: MayFollow(base, boot, trace[..k], trace[k])
  }

  // Adding an event

  lemma LogTotals(trace: seq<Event>, e: Event)
    ensures forall f :: Count(trace + [e], f) == Count(trace, f) + (if e == f then 1 else 0)
    ensures forall what :: Spends(trace + [e], what) == Spends(trace, what) + (if e.Spent? && e.what == what then 1 else 0)
    ensures LastReport(trace + [e]) == if e.Probed? then e.report else LastReport(trace)
    ensures forall r: DriverRepair :: RecordAfter(r, trace + [e])
              == if e.Spent? then RecordAttempt(RepairForBoot(Some(RecordAfter(r, trace)), e.boot), e.what) else RecordAfter(r, trace)
  {
    assert (trace + [e])[..|trace|] == trace;
  }

  lemma LawfulLog(base: DriverRepair, boot: Option<string>, trace: seq<Event>, e: Event)
    requires Lawful(base, boot, trace) && MayFollow(base, boot, trace, e)
    ensures Lawful(base, boot, trace + [e])
  {
    hide MayFollow;
    var all := trace + [e];
    forall k | 0 <= k < |all| ensures MayFollow(base, boot, all[..k], all[k]) {
      if k < |trace| {
        assert all[..k] == trace[..k];
      } else {
        assert all[..k] == trace;
      }
    }
  }

  lemma LawfulPrefix(base: DriverRepair, boot: Option<string>, trace: seq<Event>, n: nat)
    requires Lawful(base, boot, trace) && n <= |trace|
    ensures Lawful(base, boot, trace[..n])
  {
    hide MayFollow;
    forall k | 0 <= k < n ensures MayFollow(base, boot, trace[..n][..k], trace[..n][k]) {
      assert trace[..n][..k] == trace[..k];
    }
  }

  lemma {:induction false} RecordAfterJoin(base: DriverRepair, a: seq<Event>, b: seq<Event>)
    ensures RecordAfter(base, a + b) == RecordAfter(RecordAfter(base, a), b)
  {
    if b == [] {
      assert a + b == a;
    } else {
      var last := |b| - 1;
      assert (a + b)[..|a + b| - 1] == a + b[..last];
      RecordAfterJoin(base, a, b[..last]);
    }
  }

  /** A lawful list is paid for, at its end and so at each of its moments. */
  lemma {:induction false} LawfulAffords(base: DriverRepair, boot: Option<string>, trace: seq<Event>)
    requires Lawful(base, boot, trace)
    ensures Affords(trace, 0, 0, 0)
  {
    hide Count, Spends, RecordAfter, LastReport;
    if trace == [] {
      NothingYet();
    } else {
      var last := |trace| - 1;
      LawfulPrefix(base, boot, trace, last);
      LawfulAffords(base, boot, trace[..last]);
      assert MayFollow(base, boot, trace[..last], trace[last]);
      LogTotals(trace[..last], trace[last]);
      assert trace[..last] + [trace[last]] == trace;
    }
  }

  lemma NothingYet()
    ensures Affords([], 0, 0, 0) && !SaysBusy([])
    ensures forall r: DriverRepair :: RecordAfter(r, []) == r
  {
  }

  // The budget of one id

  function Max(a: int, b: int): int { if a < b then b else a }

  function Min(a: int, b: int): int { if a < b then a else b }

  ghost predicate SpentUnder(trace: seq<Event>, boot: string) {
    forall k | 0 <= k < |trace| && trace[k].Spent? :: trace[k].boot == boot
  }

  /** Of what one boot may do itself: one removal, two installs and one relaunch, less what its record
      had spent before. */
  ghost predicate WithinBudget(base: DriverRepair, boot: string, trace: seq<Event>) {
    var spent := RepairForBoot(Some(base), boot);
    && Count(trace, RemoveDrivers) <= Max(0, 1 - spent.reinstall)
    && Count(trace, InstallDrivers) <= Max(0, 1 - spent.install) + Max(0, 1 - spent.reinstall)
    && Count(trace, RelaunchApp) <= Max(0, 1 - spent.relaunch)
  }

  lemma {:induction false} SpendsOfOneId(base: DriverRepair, boot: string, trace: seq<Event>, what: RepairKind)
    requires Lawful(base, None, trace) && SpentUnder(trace, boot)
    ensures var was, now := RepairForBoot(Some(base), boot).Count(what), RepairForBoot(Some(RecordAfter(base, trace)), boot).Count(what);
            now == was + Spends(trace, what) && now <= Max(1, was)
  {
    hide Affords, SaysBusy;
    if trace != [] {
      var last := |trace| - 1;
      var e := trace[last];
      LawfulPrefix(base, None, trace, last);
      assert forall k | 0 <= k < last :: trace[..last][k] == trace[k];
      SpendsOfOneId(base, boot, trace[..last], what);
      assert MayFollow(base, None, trace[..last], e);
    }
  }

  /** Whatever is in the record to begin with, events recorded under one id keep its budget. */
  lemma OneIdWithinBudget(base: DriverRepair, boot: string, trace: seq<Event>)
    requires Lawful(base, None, trace) && SpentUnder(trace, boot)
    ensures WithinBudget(base, boot, trace)
  {
    hide Count, Spends, RecordAfter, RepairForBoot, Lawful, SpentUnder;
    LawfulAffords(base, None, trace);
    SpendsOfOneId(base, boot, trace, Install);
    SpendsOfOneId(base, boot, trace, Reinstall);
    SpendsOfOneId(base, boot, trace, Relaunch);
  }

  lemma LawfulUnderOneId(base: DriverRepair, boot: string, trace: seq<Event>)
    requires Lawful(base, Some(boot), trace)
    ensures SpentUnder(trace, boot) && Lawful(base, None, trace)
  {
    hide Affords, SaysBusy, RecordAfter;
    forall k | 0 <= k < |trace| ensures MayFollow(base, None, trace[..k], trace[k]) && (trace[k].Spent? ==> trace[k].boot == boot) {
      assert MayFollow(base, Some(boot), trace[..k], trace[k]);
    }
  }

  // The budget of any number of ids

  /** The id the latest attempt was recorded under. */
  function LastId(trace: seq<Event>): Option<string> {
    if trace == [] then None
    else
      var last := trace[|trace| - 1];
      if last.Spent? then Some(last.boot) else LastId(trace[..|trace| - 1])
  }

  /** How many stretches of attempts under one id there are. */
  function Stretches(trace: seq<Event>): nat {
    if trace == [] then 0
    else
      var last, before := trace[|trace| - 1], trace[..|trace| - 1];
      Stretches(before) + (if last.Spent? && LastId(before) != Some(last.boot) then 1 else 0)
  }

  lemma {:induction false} SpendsPerStretch(base: DriverRepair, trace: seq<Event>, what: RepairKind)
    requires Lawful(base, None, trace)
    ensures var now, extra := RecordAfter(base, trace), Max(0, -base.Count(what));
            && (LastId(trace).None? ==> Stretches(trace) == 0 && Spends(trace, what) == 0 && now == base)
            && (LastId(trace).Some? ==>
                  LastId(trace) == Some(now.boot) && Spends(trace, what) <= Stretches(trace) - 1 + Min(1, now.Count(what)) + extra)
  {
    hide Affords, SaysBusy;
    if trace != [] {
      var last := |trace| - 1;
      LawfulPrefix(base, None, trace, last);
      SpendsPerStretch(base, trace[..last], what);
      assert MayFollow(base, None, trace[..last], trace[last]);
    }
  }

  /** Under any ids: one removal, two installs and one relaunch for each stretch of attempts under one
      id, and any count below zero in the file on top. */
  lemma BudgetPerStretch(base: DriverRepair, trace: seq<Event>)
    requires Lawful(base, None, trace)
    ensures var n := Stretches(trace);
            && Count(trace, RemoveDrivers) <= n + Max(0, -base.reinstall)
            && Count(trace, InstallDrivers) <= 2 * n + Max(0, -base.install) + Max(0, -base.reinstall)
            && Count(trace, RelaunchApp) <= n + Max(0, -base.relaunch)
  {
    hide Count, Spends, RecordAfter, Lawful, Stretches, LastId;
    LawfulAffords(base, None, trace);
    SpendsPerStretch(base, trace, Install);
    SpendsPerStretch(base, trace, Reinstall);
    SpendsPerStretch(base, trace, Relaunch);
  }
}
