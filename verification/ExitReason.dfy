/** Why the host process ended, written down before it does (`src-tauri/src/exit_reason.rs`). */
module ExitReason {
  import opened Wrappers
  import opened Text

  datatype Breadcrumb = Breadcrumb(unixSecs: nat, pid: nat, reason: string)

  predicate LineBreak(c: char) { c == '\n' || c == '\r' }

  /** The reason on one line. */
  function Flatten(reason: string): (r: string)
    ensures |r| == |reason|
    ensures forall i | 0 <= i < |r| :: r[i] == if LineBreak(reason[i]) then ' ' else reason[i]
  {
    seq(|reason|, i requires 0 <= i < |reason| => if LineBreak(reason[i]) then ' ' else reason[i])
  }

  /** `breadcrumb_line`. */
  function BreadcrumbLine(now: nat, pid: nat, reason: string): string {
    Decimal(now) + " " + Decimal(pid) + " " + Flatten(reason) + "\n"
  }

  /** `str::lines().next()`. */
  function FirstLine(contents: string): Option<string> {
    if contents == "" then None
    else
      match SplitOnce(contents, '\n')
      case None => Some(contents)
      case Some(p) => Some(if p.0 != "" && p.0[|p.0| - 1] == '\r' then p.0[..|p.0| - 1] else p.0)
  }

  /** The three parts of `splitn(3, ' ')`, when there are three. */
  function ThreeParts(line: string): Option<(string, string, string)> {
    match SplitOnce(line, ' ')
    case None => None
    case Some(p) =>
      match SplitOnce(p.1, ' ')
      case None => None
      case Some(q) => Some((p.0, q.0, q.1))
  }

  /** `parse`. */
  function Parse(contents: string): Option<Breadcrumb> {
    match FirstLine(contents) case None => None case Some(line) => ParseLine(Trim(line))
  }

  function ParseLine(line: string): Option<Breadcrumb> {
    match ThreeParts(line)
    case None => None
    case Some((secs, pid, rest)) =>
      match (ParseUnsigned(secs, U64_BOUND), ParseUnsigned(pid, U32_BOUND))
      case (Some(secs), Some(pid)) => if Trim(rest) == "" then None else Some(Breadcrumb(secs, pid, Trim(rest)))
      case _ => None
  }

  // Lines

  lemma TrimAfterTrimEnd(s: string)
    ensures Trim(TrimEnd(s)) == Trim(s)
  {
    hide IsWhitespace, TrimStart, TrimEnd, Trim;
    if Blank(s) {
      assert Blank(TrimEnd(s));
    } else {
      var before, rest := SplitAtStart(s);
      TrimEndKeeps(before, rest);
      assert TrimEnd(s) == before + Trim(s) + [];
      TrimIs(TrimEnd(s), before, Trim(s), []);
    }
  }

  lemma DigitsAreNotBlank(s: string)
    requires AllDigits(s)
    ensures ' ' !in s && '\n' !in s && forall i | 0 <= i < |s| :: !IsWhitespace(s[i])
  {
  }

  lemma FlattenKeepsBlank(reason: string)
    ensures Blank(Flatten(reason)) <==> Blank(reason)
    ensures '\n' !in Flatten(reason) && '\r' !in Flatten(reason)
  {
    var flat := Flatten(reason);
    assert forall c | LineBreak(c) :: IsWhitespace(c);
    assert forall i | 0 <= i < |flat| :: IsWhitespace(flat[i]) <==> IsWhitespace(reason[i]);
  }

  /** The first line of what was written is all of it but its line feed. */
  lemma WrittenLine(now: nat, pid: nat, reason: string)
    ensures FirstLine(BreadcrumbLine(now, pid, reason)) == Some(Decimal(now) + " " + Decimal(pid) + " " + Flatten(reason))
  {
    hide IsWhitespace, Decimal, SplitOnce, Flatten;
    var line := Decimal(now) + " " + Decimal(pid) + " " + Flatten(reason);
    DigitsAreNotBlank(Decimal(now));
    DigitsAreNotBlank(Decimal(pid));
    FlattenKeepsBlank(reason);
    assert '\n' !in line;
    assert BreadcrumbLine(now, pid, reason) == line + ['\n'] + "";
    SplitOnceAt(line, '\n', "");
    var last := line[|line| - 1];
    assert last == ' ' || last in Flatten(reason);
  }

  lemma TrimmedStart(s: string)
    requires s != [] && !IsWhitespace(s[0])
    ensures Trim(s) == TrimEnd(s)
  {
  }

  lemma TrimmedLine(secs: string, pid: string, flat: string)
    requires secs != "" && pid != "" && AllDigits(secs) && AllDigits(pid)
    ensures Trim(secs + " " + pid + " " + flat)
         == if Blank(flat) then secs + " " + pid else secs + " " + pid + " " + TrimEnd(flat)
  {
    hide IsWhitespace, Trim, TrimStart, TrimEnd, IsDigit, AllDigits;
    var line := secs + " " + pid + " " + flat;
    DigitsAreNotBlank(secs);
    DigitsAreNotBlank(pid);
    assert line[0] == secs[0];
    TrimmedStart(line);
    var core := secs + " " + pid;
    if Blank(flat) {
      assert line == core + (" " + flat);
      assert core[|core| - 1] == pid[|pid| - 1];
      SpaceBefore(flat);
      TrimEndSkips(core, " " + flat);
    } else {
      TrimEndKeeps(core + " ", flat);
    }
  }

  lemma SpaceBefore(s: string)
    requires Blank(s)
    ensures Blank(" " + s)
  {
  }

  // Any file

  /** The text up to the first line feed, or all of it. */
  ghost predicate IsFirstLine(contents: string, line: string) {
    '\n' !in line && (contents == line || line + "\n" <= contents)
  }

  lemma TrimWithoutReturn(line: string)
    requires line != "" && line[|line| - 1] == '\r'
    ensures Trim(line[..|line| - 1]) == Trim(line)
  {
    hide *;
    var short := line[..|line| - 1];
    var a, c, z := TrimParts(short);
    MoreBlank(z);
    assert line == short + "\r" == a + c + z + "\r" == a + c + (z + "\r");
    TrimIs(line, a, c, z + "\r");
  }

  lemma MoreBlank(s: string)
    requires Blank(s)
    ensures Blank(s + "\r")
  {
  }

  lemma FirstLineTrims(contents: string, line: string)
    requires IsFirstLine(contents, line)
    ensures match FirstLine(contents) case None => line == "" case Some(l) => Trim(l) == Trim(line)
  {
    hide Trim, SplitOnce;
    if contents != line {
      assert contents == line + ['\n'] + contents[|line| + 1..];
      SplitOnceAt(line, '\n', contents[|line| + 1..]);
      if line != "" && line[|line| - 1] == '\r' { TrimWithoutReturn(line); }
    }
  }

  /** The line is a time, a process and a reason, with blanks around it and around the reason. */
  ghost predicate Says(line: string, secs: string, pid: string, rest: string, crumb: Breadcrumb) {
    && Trim(line) == secs + " " + pid + " " + rest && ' ' !in secs && ' ' !in pid
    && ParseUnsigned(secs, U64_BOUND) == Some(crumb.unixSecs) && ParseUnsigned(pid, U32_BOUND) == Some(crumb.pid)
    && crumb.reason == Trim(rest) && crumb.reason != ""
  }

  /** What is read from any file at all: what its first line says, and nothing when it says no such thing. */
  lemma ParsesIff(contents: string, line: string, crumb: Breadcrumb)
    requires IsFirstLine(contents, line)
    ensures Parse(contents) == Some(crumb) <==> exists secs, pid, rest :: Says(line, secs, pid, rest, crumb)
  {
    hide *;
    if Parse(contents) == Some(crumb) {
      var secs, pid, rest := ParsedSays(contents, line, crumb);
    }
    forall secs: string, pid: string, rest: string | Says(line, secs, pid, rest, crumb) ensures Parse(contents) == Some(crumb) {
      SaidParses(contents, line, secs, pid, rest, crumb);
    }
  }

  lemma ParsedSays(contents: string, line: string, crumb: Breadcrumb) returns (secs: string, pid: string, rest: string)
    requires IsFirstLine(contents, line) && Parse(contents) == Some(crumb)
    ensures Says(line, secs, pid, rest, crumb)
  {
    FirstLineTrims(contents, line);
    hide Trim, SplitOnce, ParseUnsigned, FirstLine, IsFirstLine, ThreeParts;
    ThreePartsJoin(Trim(line));
    secs, pid, rest := ThreeParts(Trim(line)).value.0, ThreeParts(Trim(line)).value.1, ThreeParts(Trim(line)).value.2;
  }

  lemma SaidParses(contents: string, line: string, secs: string, pid: string, rest: string, crumb: Breadcrumb)
    requires IsFirstLine(contents, line) && Says(line, secs, pid, rest, crumb)
    ensures Parse(contents) == Some(crumb)
  {
    FirstLineTrims(contents, line);
    NothingSaid();
    ThreePartsAt(secs, pid, rest);
    hide Trim, SplitOnce, ParseUnsigned, FirstLine, IsFirstLine, ThreeParts;
    assert ParseLine(Trim(line)) == Some(crumb);
    hide ParseLine;
    assert |Trim(line)| > 0;
  }

  lemma NothingSaid()
    ensures Trim("") == ""
  {
  }

  lemma ThreePartsJoin(line: string)
    ensures ThreeParts(line).Some? ==>
            var (secs, pid, rest) := ThreeParts(line).value;
            line == secs + " " + pid + " " + rest && ' ' !in secs && ' ' !in pid
  {
    hide SplitOnce;
    if ThreeParts(line).Some? {
      var p := SplitOnce(line, ' ').value;
      var q := SplitOnce(p.1, ' ').value;
      assert line == p.0 + [' '] + (q.0 + [' '] + q.1);
    }
  }

  lemma ThreePartsAt(secs: string, pid: string, rest: string)
    requires ' ' !in secs && ' ' !in pid
    ensures ThreeParts(secs + " " + pid + " " + rest) == Some((secs, pid, rest))
  {
    hide SplitOnce;
    var line := secs + " " + pid + " " + rest;
    assert line == secs + [' '] + (pid + " " + rest);
    SplitOnceAt(secs, ' ', pid + " " + rest);
    SplitOnceAt(pid, ' ', rest);
  }

  // The round trip of what the process writes

  /** What is written is read back: the same time, the same process, the reason flattened to one
      line and trimmed, and nothing exactly when the reason is blank. */
  lemma RoundTrip(now: nat, pid: nat, reason: string)
    requires now < U64_BOUND && pid < U32_BOUND
    ensures Parse(BreadcrumbLine(now, pid, reason))
         == if Blank(reason) then None else Some(Breadcrumb(now, pid, Trim(Flatten(reason))))
  {
    hide IsWhitespace, Trim, TrimEnd, Decimal, SplitOnce, ParseUnsigned, Flatten, FirstLine, BreadcrumbLine;
    var flat := Flatten(reason);
    var secs, id := Decimal(now), Decimal(pid);
    WrittenLine(now, pid, reason);
    FlattenKeepsBlank(reason);
    TrimmedLine(secs, id, flat);
    DigitsAreNotBlank(secs);
    DigitsAreNotBlank(id);
    DecimalParses(now, U64_BOUND);
    DecimalParses(pid, U32_BOUND);
    var tail := if Blank(flat) then id else id + " " + TrimEnd(flat);
    assert Trim(secs + " " + id + " " + flat) == secs + [' '] + tail;
    SplitOnceAt(secs, ' ', tail);
    if !Blank(flat) {
      assert tail == id + [' '] + TrimEnd(flat);
      SplitOnceAt(id, ' ', TrimEnd(flat));
      TrimAfterTrimEnd(flat);
    }
  }

  // The process state

  /** The statics `REASON` and `DIR`, and the breadcrumb file of each directory. */
  datatype State = State(reason: Option<string>, dir: Option<string>, files: map<string, string>)

  /** One call during the life of the process. `ok` says whether the file could be written. */
  datatype Event =
    | SetDir(path: string)
    | Record(why: string, now: nat, ok: bool)

  function Apply(s: State, e: Event, pid: nat): State {
    match e
    case SetDir(path) => s.(dir := Some(path))
    case Record(why, now, ok) =>
      if s.reason.Some? then s
      else
        s.(reason := Some(why),
           files := if s.dir.Some? && ok then s.files[s.dir.value := BreadcrumbLine(now, pid, why)] else s.files)
  }

  function ApplyAll(s: State, events: seq<Event>, pid: nat): State
    decreases |events|
  {
    if events == [] then s else ApplyAll(Apply(s, events[0], pid), events[1..], pid)
  }

  /** The process, as the source holds it: two statics, and the files it can reach. */
  class Process {
    const pid: nat
    var reason: Option<string>
    var dir: Option<string>
    var files: map<string, string>

    constructor (pid: nat, files: map<string, string>)
      ensures this.pid == pid && View() == State(None, None, files)
    {
      this.pid := pid;
      this.files := files;
      reason := None;
      dir := None;
    }

    ghost function View(): State
      reads this
    {
      State(reason, dir, files)
    }

    method SetDir(path: string)
      modifies this`dir
      ensures View() == Apply(old(View()), Event.SetDir(path), pid)
    {
      dir := Some(path);
    }

    /** The first reason wins, in memory and in the file: once there is one, nothing changes any more,
        and the first one is what any other process will read in the directory set by then. */
    method Record(why: string, now: nat, ok: bool)
      requires pid < U32_BOUND && now < U64_BOUND
      modifies this`reason, this`files
      ensures View() == Apply(old(View()), Event.Record(why, now, ok), pid)
      ensures old(reason).Some? ==> reason == old(reason) && files == old(files)
      ensures old(reason).None? ==> reason == Some(why) && SameElsewhere(old(files), files, dir)
      ensures old(reason).None? && dir.Some? && ok ==>
        forall next: nat | next != pid ::
          Previous(files, dir.value, next) == if Blank(why) then None else Some(Breadcrumb(now, pid, Trim(Flatten(why))))
    {
      hide BreadcrumbLine, Parse, Blank, Flatten, Trim;
      RoundTrip(now, pid, why);
      if reason.Some? {
        return;
      }
      reason := Some(why);
      if dir.Some? {
        if ok {
          files := files[dir.value := BreadcrumbLine(now, pid, why)];
        }
      }
    }

    /** Report what the previous process left, then clear it: from here on a breadcrumb there can only
        be of a process that ran since, and no other file is touched. */
    method ReportPrevious(path: string) returns (left: Option<Breadcrumb>)
      modifies this`files
      ensures left == Previous(old(files), path, pid)
      ensures left.Some? ==> left.value.pid != pid && path in old(files) && Parse(old(files)[path]) == left
      ensures forall next: nat :: Previous(files, path, next) == None
      ensures SameElsewhere(old(files), files, Some(path))
    {
      left := Previous(files, path, pid);
      files := files - {path};
    }
  }

  /** The breadcrumbs of all other directories are the same. */
  ghost predicate SameElsewhere(before: map<string, string>, after: map<string, string>, dir: Option<string>) {
    forall path: string | dir != Some(path) ::
      (path in before <==> path in after) && (path in before ==> before[path] == after[path])
  }

  /** `previous`: a breadcrumb of this very process is not one. */
  function Previous(files: map<string, string>, path: string, pid: nat): Option<Breadcrumb> {
    if path !in files then None
    else
      match Parse(files[path])
      case None => None
      case Some(b) => if b.pid == pid then None else Some(b)
  }

  function NoRecord(events: seq<Event>): bool {
    forall e | e in events :: e.SetDir?
  }

  lemma {:induction false} ApplyJoin(s: State, a: seq<Event>, b: seq<Event>, pid: nat)
    ensures ApplyAll(s, a + b, pid) == ApplyAll(ApplyAll(s, a, pid), b, pid)
    decreases |a|
  {
    if a == [] {
      assert a + b == b;
    } else {
      assert (a + b)[1..] == a[1..] + b;
      ApplyJoin(Apply(s, a[0], pid), a[1..], b, pid);
    }
  }

  lemma {:induction false} RecordedStays(s: State, events: seq<Event>, pid: nat)
    requires s.reason.Some?
    ensures ApplyAll(s, events, pid).reason == s.reason && ApplyAll(s, events, pid).files == s.files
    decreases |events|
  {
    if events != [] {
      RecordedStays(Apply(s, events[0], pid), events[1..], pid);
    }
  }

  lemma {:induction false} NothingRecorded(s: State, events: seq<Event>, pid: nat)
    requires NoRecord(events)
    ensures var t := ApplyAll(s, events, pid); t.reason == s.reason && t.files == s.files
    ensures events != [] ==> ApplyAll(s, events, pid).dir == Some(events[|events| - 1].path)
    decreases |events|
  {
    if events != [] {
      assert events[0].SetDir?;
      assert NoRecord(events[1..]) by {
        forall e | e in events[1..] ensures e.SetDir? {
          assert e in events;
        }
      }
      NothingRecorded(Apply(s, events[0], pid), events[1..], pid);
    }
  }

  /** Over a whole life: whatever is recorded after the first reason, the next process reads that
      first reason in the directory set last before it, unless it was blank, could not be written,
      or the new process has the same id. */
  lemma NextProcessReadsTheFirstReason(
      files: map<string, string>, before: seq<Event>, first: Event, after: seq<Event>, pid: nat, next: nat)
    requires NoRecord(before) && before != [] && first.Record? && first.ok
    requires first.now < U64_BOUND && pid < U32_BOUND
    ensures var end := ApplyAll(State(None, None, files), before + [first] + after, pid);
            && end.reason == Some(first.why)
            && Previous(end.files, before[|before| - 1].path, next)
                 == if Blank(first.why) || next == pid then None
                    else Some(Breadcrumb(first.now, pid, Trim(Flatten(first.why))))
  {
    hide Parse, BreadcrumbLine, Blank, Flatten, Trim;
    var start := State(None, None, files);
    var mid := ApplyAll(start, before, pid);
    NothingRecorded(start, before, pid);
    ApplyJoin(start, before + [first], after, pid);
    ApplyJoin(start, before, [first], pid);
    assert [first][1..] == [];
    RecordedStays(Apply(mid, first, pid), after, pid);
    RoundTrip(first.now, pid, first.why);
  }
}
