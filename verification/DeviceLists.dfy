/** The two device lists of `src/components/config-provider.tsx`: the devices that have ever joined,
    and the saved display settings. Each is a list that has to behave as a map. */
module DeviceLists {
  import opened Wrappers
  import opened Json

  /** A device is its token. One without a token is its address. */
  datatype Identity = Token(token: string) | Address(ip: string)

  function IdentityOf(token: string, ip: string): Identity {
    if token != "" then Token(token) else Address(ip)
  }

  // The devices that have joined

  datatype KnownDevice = KnownDevice(
    token: string, ip: string, name: string, os: string, screenSize: string, lastSeen: int, banned: bool)

  datatype Joined = Joined(token: string, ip: string, name: string, os: string, screenSize: string)

  function KnownId(d: KnownDevice): Identity { IdentityOf(d.token, d.ip) }

  predicate SameDevice(d: KnownDevice, token: string, ip: string) {
    if token != "" then d.token == token else d.token == "" && d.ip == ip
  }

  /** White space and line terminators as section 22.1.3.32 of ECMAScript 2024 trims them. */
  predicate TrimmedAway(c: char) {
    || '\U{09}' <= c <= '\U{0D}'
    || c in [' ', '\U{A0}', '\U{1680}', '\U{2028}', '\U{2029}', '\U{202F}', '\U{205F}', '\U{3000}', '\U{FEFF}']
    || '\U{2000}' <= c <= '\U{200A}'
  }

  function TrimText(s: string): string
    decreases |s|
  {
    if s == [] then []
    else if TrimmedAway(s[0]) then TrimText(s[1..])
    else if TrimmedAway(s[|s| - 1]) then TrimText(s[..|s| - 1])
    else s
  }

  function Or(text: string, otherwise: string): string { if text != "" then text else otherwise }

  function FindKnown(rows: seq<KnownDevice>, token: string, ip: string): (r: Option<KnownDevice>)
    ensures r.Some? ==> r.value in rows && SameDevice(r.value, token, ip)
    ensures r.None? ==> forall d | d in rows :: !SameDevice(d, token, ip)
  {
    if rows == [] then None
    else if SameDevice(rows[0], token, ip) then Some(rows[0])
    else FindKnown(rows[1..], token, ip)
  }

  function WithoutKnown(rows: seq<KnownDevice>, token: string, ip: string): seq<KnownDevice> {
    if rows == [] then []
    else (if SameDevice(rows[0], token, ip) then [] else [rows[0]]) + WithoutKnown(rows[1..], token, ip)
  }

  function WithBanned(rows: seq<KnownDevice>, token: string, ip: string, banned: bool): seq<KnownDevice> {
    seq(|rows|, i requires 0 <= i < |rows| =>
      if SameDevice(rows[i], token, ip) then rows[i].(banned := banned) else rows[i])
  }

  function Merged(prev: Option<KnownDevice>, info: Joined, now: int): KnownDevice {
    var known := if prev.Some? then prev.value else KnownDevice("", "", "", "", "", 0, false);
    KnownDevice(
      Or(info.token, known.token), Or(info.ip, known.ip), Or(TrimText(info.name), known.name),
      Or(TrimText(info.os), known.os), Or(TrimText(info.screenSize), known.screenSize), now, known.banned)
  }

  /** `recordKnownDevice`. */
  function RecordKnown(rows: seq<KnownDevice>, info: Joined, now: int): seq<KnownDevice> {
    WithoutKnown(rows, info.token, info.ip) + [Merged(FindKnown(rows, info.token, info.ip), info, now)]
  }

  /** `setKnownDeviceBanned`: lifting a ban nobody set does nothing. */
  function SetKnownBanned(rows: seq<KnownDevice>, token: string, ip: string, banned: bool, now: int): seq<KnownDevice> {
    if FindKnown(rows, token, ip).Some? then WithBanned(rows, token, ip, banned)
    else if banned then rows + [KnownDevice(token, ip, "", "", "", now, true)]
    else rows
  }

  datatype KnownOp =
    | Recorded(info: Joined, now: int)
    | Banned(who: (string, string), banned: bool, at: int)
    | Removed(whom: (string, string))

  function ApplyKnown(rows: seq<KnownDevice>, op: KnownOp): seq<KnownDevice> {
    match op
    case Recorded(info, now) => RecordKnown(rows, info, now)
    case Banned(who, banned, at) => SetKnownBanned(rows, who.0, who.1, banned, at)
    case Removed(whom) => WithoutKnown(rows, whom.0, whom.1)
  }

  /** The list a history leaves, from the empty one. */
  function KnownAfter(ops: seq<KnownOp>): seq<KnownDevice> {
    if ops == [] then [] else ApplyKnown(KnownAfter(ops[..|ops| - 1]), ops[|ops| - 1])
  }

  // What the history itself says of one device

  function OpId(op: KnownOp): Identity {
    match op
    case Recorded(info, _) => IdentityOf(info.token, info.ip)
    case Banned(who, _, _) => IdentityOf(who.0, who.1)
    case Removed(whom) => IdentityOf(whom.0, whom.1)
  }

  /** The operations on one device since it was last removed. */
  function Since(ops: seq<KnownOp>, id: Identity): (r: seq<KnownOp>)
    ensures forall op | op in r :: op in ops && OpId(op) == id && !op.Removed?
  {
    if ops == [] then []
    else
      var last := ops[|ops| - 1];
      if OpId(last) != id then Since(ops[..|ops| - 1], id)
      else if last.Removed? then []
      else Since(ops[..|ops| - 1], id) + [last]
  }

  /** A device is listed once it joined or was banned. */
  predicate Listed(since: seq<KnownOp>) {
    exists i | 0 <= i < |since| :: since[i].Recorded? || (since[i].Banned? && since[i].banned)
  }

  /** What the last ban or unban said. */
  function LastBan(since: seq<KnownOp>): bool {
    if since == [] then false
    else
      var last := since[|since| - 1];
      if last.Banned? then last.banned else LastBan(since[..|since| - 1])
  }

  /** The last text that was not blank, of those the device joined with. */
  function LastText(since: seq<KnownOp>, text: Joined -> string): string {
    if since == [] then ""
    else
      var last := since[|since| - 1];
      var before := LastText(since[..|since| - 1], text);
      if last.Recorded? then Or(TrimText(text(last.info)), before) else before
  }

  /** When it was last seen: its last join, or the ban that listed it when it never joined. */
  function LastSeen(since: seq<KnownOp>): int {
    if since == [] then 0
    else
      var last, before := since[|since| - 1], since[..|since| - 1];
      match last
      case Recorded(_, now) => now
      case Banned(_, banned, at) => if banned && !Listed(before) then at else LastSeen(before)
      case Removed(_) => LastSeen(before)
  }

  /** The last address it joined from, or the one it was banned by before it ever joined. */
  function LastAddress(since: seq<KnownOp>): string {
    if since == [] then ""
    else
      var last, before := since[|since| - 1], since[..|since| - 1];
      match last
      case Recorded(info, _) => Or(info.ip, LastAddress(before))
      case Banned(who, banned, _) => if banned && !Listed(before) then who.1 else LastAddress(before)
      case Removed(_) => LastAddress(before)
  }

  const NAME: Joined -> string := (j: Joined) => j.name
  const OS: Joined -> string := (j: Joined) => j.os
  const SCREEN: Joined -> string := (j: Joined) => j.screenSize

  ghost predicate UniqueKnown(rows: seq<KnownDevice>) {
    forall i, j | 0 <= i < j < |rows| :: KnownId(rows[i]) != KnownId(rows[j])
  }

  lemma SameDeviceIsIdentity(d: KnownDevice, token: string, ip: string)
    ensures SameDevice(d, token, ip) <==> KnownId(d) == IdentityOf(token, ip)
  {
  }

  lemma {:induction false} WithoutIsFilter(rows: seq<KnownDevice>, token: string, ip: string)
    requires UniqueKnown(rows)
    ensures var r := WithoutKnown(rows, token, ip);
            && UniqueKnown(r) && (forall d :: d in r <==> d in rows && KnownId(d) != IdentityOf(token, ip))
  {
    hide KnownId, SameDevice;
    if rows != [] {
      SameDeviceIsIdentity(rows[0], token, ip);
      WithoutIsFilter(rows[1..], token, ip);
      var rest := WithoutKnown(rows[1..], token, ip);
      assert forall d :: d in rows <==> d == rows[0] || d in rows[1..];
      assert forall d | d in rest :: KnownId(d) != KnownId(rows[0]);
    }
  }

  lemma {:induction false} BannedRows(rows: seq<KnownDevice>, token: string, ip: string, banned: bool)
    requires UniqueKnown(rows)
    ensures var r := WithBanned(rows, token, ip, banned);
            && |r| == |rows| && UniqueKnown(r)
            && (forall i | 0 <= i < |r| :: r[i] == if KnownId(rows[i]) == IdentityOf(token, ip) then rows[i].(banned := banned) else rows[i])
  {
    var r := WithBanned(rows, token, ip, banned);
    forall i | 0 <= i < |rows|
      ensures r[i] == if KnownId(rows[i]) == IdentityOf(token, ip) then rows[i].(banned := banned) else rows[i]
      ensures KnownId(r[i]) == KnownId(rows[i])
    {
      SameDeviceIsIdentity(rows[i], token, ip);
    }
  }

  /** The one row of an identity, if there is one. */
  ghost predicate RowIs(rows: seq<KnownDevice>, id: Identity, row: Option<KnownDevice>) {
    match row
    case None => forall d | d in rows :: KnownId(d) != id
    case Some(r) => r in rows && forall d | d in rows :: KnownId(d) == id <==> d == r
  }

  /** What one operation makes of the row of the device it is about. */
  function AppliedRow(row: Option<KnownDevice>, op: KnownOp): Option<KnownDevice> {
    match op
    case Recorded(info, now) => Some(Merged(row, info, now))
    case Banned(who, banned, at) =>
      (match row
       case Some(d) => Some(d.(banned := banned))
       case None => if banned then Some(KnownDevice(who.0, who.1, "", "", "", at, true)) else None)
    case Removed(_) => None
  }

  lemma FindIsRow(rows: seq<KnownDevice>, token: string, ip: string, row: Option<KnownDevice>)
    requires RowIs(rows, IdentityOf(token, ip), row)
    ensures FindKnown(rows, token, ip) == row
  {
    hide KnownId, SameDevice;
    forall d: KnownDevice ensures SameDevice(d, token, ip) <==> KnownId(d) == IdentityOf(token, ip) {
      SameDeviceIsIdentity(d, token, ip);
    }
  }

  lemma AppendRow(rows: seq<KnownDevice>, d: KnownDevice)
    requires UniqueKnown(rows) && forall r | r in rows :: KnownId(r) != KnownId(d)
    ensures UniqueKnown(rows + [d])
    ensures RowIs(rows + [d], KnownId(d), Some(d))
  {
    hide KnownId;
    assert forall r :: r in rows + [d] <==> r in rows || r == d;
  }

  /** Each operation does what it says to the row of its own device and nothing to any other row. */
  lemma OperationIsOnOneRow(rows: seq<KnownDevice>, op: KnownOp, id: Identity, row: Option<KnownDevice>)
    requires UniqueKnown(rows) && RowIs(rows, id, row)
    ensures UniqueKnown(ApplyKnown(rows, op))
    ensures RowIs(ApplyKnown(rows, op), id, if OpId(op) == id then AppliedRow(row, op) else row)
  {
    hide KnownId, SameDevice, WithoutKnown, WithBanned, FindKnown, Merged;
    match op {
      case Recorded(info, now) => RecordedRow(rows, info, now, id, row);
      case Banned(who, banned, at) => BannedRow(rows, who, banned, at, id, row);
      case Removed(whom) => WithoutIsFilter(rows, whom.0, whom.1);
    }
  }

  lemma RecordedRow(rows: seq<KnownDevice>, info: Joined, now: int, id: Identity, row: Option<KnownDevice>)
    requires UniqueKnown(rows) && RowIs(rows, id, row)
    ensures var op := Recorded(info, now);
            && UniqueKnown(ApplyKnown(rows, op))
            && RowIs(ApplyKnown(rows, op), id, if OpId(op) == id then AppliedRow(row, op) else row)
  {
    hide KnownId, SameDevice, WithoutKnown, FindKnown, Merged, IdentityOf;
    WithoutIsFilter(rows, info.token, info.ip);
    var kept := WithoutKnown(rows, info.token, info.ip);
    var found := FindKnown(rows, info.token, info.ip);
    var merged := Merged(found, info, now);
    MergedId(found, info, now);
    AppendRow(kept, merged);
    if id == IdentityOf(info.token, info.ip) {
      FindIsRow(rows, info.token, info.ip, row);
    } else {
      assert forall d :: d in kept + [merged] <==> d in kept || d == merged;
    }
  }

  lemma MergedId(prev: Option<KnownDevice>, info: Joined, now: int)
    requires prev.Some? ==> SameDevice(prev.value, info.token, info.ip)
    ensures KnownId(Merged(prev, info, now)) == IdentityOf(info.token, info.ip)
  {
  }

  lemma BannedRow(rows: seq<KnownDevice>, who: (string, string), banned: bool, at: int, id: Identity, row: Option<KnownDevice>)
    requires UniqueKnown(rows) && RowIs(rows, id, row)
    ensures var op := Banned(who, banned, at);
            && UniqueKnown(ApplyKnown(rows, op))
            && RowIs(ApplyKnown(rows, op), id, if OpId(op) == id then AppliedRow(row, op) else row)
  {
    hide SameDevice, WithBanned, FindKnown, IdentityOf, KnownId;
    var its := IdentityOf(who.0, who.1);
    forall d: KnownDevice ensures SameDevice(d, who.0, who.1) <==> KnownId(d) == its {
      SameDeviceIsIdentity(d, who.0, who.1);
    }
    if FindKnown(rows, who.0, who.1).Some? {
      BanListed(rows, who, banned, id, row);
    } else if banned {
      var added := KnownDevice(who.0, who.1, "", "", "", at, true);
      assert KnownId(added) == its by { KnownIdOf(added); }
      AppendRow(rows, added);
      assert forall d :: d in rows + [added] <==> d in rows || d == added;
    }
  }

  lemma KnownIdOf(d: KnownDevice)
    ensures KnownId(d) == IdentityOf(d.token, d.ip)
    ensures forall b :: KnownId(d.(banned := b)) == KnownId(d)
  {
  }

  lemma BanListed(rows: seq<KnownDevice>, who: (string, string), banned: bool, id: Identity, row: Option<KnownDevice>)
    requires UniqueKnown(rows) && RowIs(rows, id, row)
    ensures var r := WithBanned(rows, who.0, who.1, banned);
            && UniqueKnown(r)
            && RowIs(r, id, if row.Some? && IdentityOf(who.0, who.1) == id then Some(row.value.(banned := banned)) else row)
  {
    hide WithBanned, IdentityOf, KnownId;
    BannedRows(rows, who.0, who.1, banned);
    var r := WithBanned(rows, who.0, who.1, banned);
    forall d: KnownDevice ensures KnownId(d.(banned := banned)) == KnownId(d) {
      KnownIdOf(d);
    }
    forall i | 0 <= i < |r| ensures r[i] in r && rows[i] in rows && KnownId(r[i]) == KnownId(rows[i]) {
    }
  }

  /** Over any history from the empty list there is at most one row per device, a device is listed
      exactly when it joined or was banned since it was last removed, and its row carries the last
      ban or unban, the last sight and address and the last non-blank texts since then, however often
      it came back. */
  lemma {:induction false} KnownListIsItsHistory(ops: seq<KnownOp>, id: Identity) returns (row: Option<KnownDevice>)
    ensures UniqueKnown(KnownAfter(ops)) && RowIs(KnownAfter(ops), id, row)
    ensures var since := Since(ops, id);
            && (row.Some? <==> Listed(since))
            && LastBan(since) == (row.Some? && row.value.banned)
            && LastSeen(since) == (if row.Some? then row.value.lastSeen else 0)
            && LastAddress(since) == (if row.Some? then row.value.ip else "")
            && LastText(since, NAME) == (if row.Some? then row.value.name else "")
            && LastText(since, OS) == (if row.Some? then row.value.os else "")
            && LastText(since, SCREEN) == (if row.Some? then row.value.screenSize else "")
    decreases |ops|
  {
    if ops == [] {
      row := None;
    } else {
      var before, last := ops[..|ops| - 1], ops[|ops| - 1];
      var was := KnownListIsItsHistory(before, id);
      OperationIsOnOneRow(KnownAfter(before), last, id, was);
      row := if OpId(last) == id then AppliedRow(was, last) else was;
      if OpId(last) == id && !last.Removed? {
        SinceGrows(Since(before, id), last, was, row);
      }
    }
  }

  lemma SinceGrows(since: seq<KnownOp>, op: KnownOp, was: Option<KnownDevice>, row: Option<KnownDevice>)
    requires !op.Removed? && row == AppliedRow(was, op)
    requires was.Some? <==> Listed(since)
    requires LastBan(since) == (was.Some? && was.value.banned)
    requires LastSeen(since) == (if was.Some? then was.value.lastSeen else 0)
    requires LastAddress(since) == (if was.Some? then was.value.ip else "")
    ensures var grown := since + [op];
            && (row.Some? <==> Listed(grown))
            && LastBan(grown) == (row.Some? && row.value.banned)
            && LastSeen(grown) == (if row.Some? then row.value.lastSeen else 0)
            && LastAddress(grown) == (if row.Some? then row.value.ip else "")
    ensures forall text :: LastText(since + [op], text)
              == if op.Recorded? then Or(TrimText(text(op.info)), LastText(since, text)) else LastText(since, text)
  {
    var grown := since + [op];
    assert grown[..|grown| - 1] == since && grown[|since|] == op;
    assert Listed(since) ==> Listed(grown) by {
      forall i | 0 <= i < |since| ensures grown[i] == since[i] { }
    }
  }

  // The saved display settings

  /** A saved row; `settings` is all that is not looked at here. */
  datatype Device = Device(token: string, ip: string, name: string, settings: map<string, Value>)

  function SavedId(d: Device): Identity { IdentityOf(d.token, d.ip) }

  /** `sameSavedDevice`: a row without a token is matched by its address. */
  predicate SameSaved(d: Device, token: string, ip: string) {
    if token != "" && d.token != "" then d.token == token
    else d.token == "" && ip != "" && d.ip == ip
  }

  /** Names no device: no token and no address. */
  predicate Blank(d: Device) { d.token == "" && d.ip == "" }

  function WithoutSaved(rows: seq<Device>, token: string, ip: string): (r: seq<Device>)
    ensures forall d :: d in r <==> d in rows && !SameSaved(d, token, ip)
  {
    if rows == [] then []
    else (if SameSaved(rows[0], token, ip) then [] else [rows[0]]) + WithoutSaved(rows[1..], token, ip)
  }

  /** `saveDeviceSettings`. */
  function Save(rows: seq<Device>, d: Device): seq<Device> {
    WithoutSaved(rows, d.token, d.ip) + [d.(name := "")]
  }

  /** `findSavedDevice`. */
  function FindSaved(rows: seq<Device>, token: string, ip: string): (r: Option<Device>)
    ensures r.Some? ==> r.value in rows && SameSaved(r.value, token, ip)
    ensures r.None? ==> forall d | d in rows :: !SameSaved(d, token, ip)
  {
    if rows == [] then None
    else if SameSaved(rows[0], token, ip) then Some(rows[0])
    else FindSaved(rows[1..], token, ip)
  }

  datatype SavedOp = Saved(device: Device) | Forgotten(whom: (string, string))

  function ApplySaved(rows: seq<Device>, op: SavedOp): seq<Device> {
    match op
    case Saved(d) => Save(rows, d)
    case Forgotten(whom) => WithoutSaved(rows, whom.0, whom.1)
  }

  function SavedAfter(ops: seq<SavedOp>): seq<Device> {
    if ops == [] then [] else ApplySaved(SavedAfter(ops[..|ops| - 1]), ops[|ops| - 1])
  }

  /** How often a history saved a row that names no device. */
  function BlankSaves(ops: seq<SavedOp>): nat {
    if ops == [] then 0
    else
      var last := ops[|ops| - 1];
      BlankSaves(ops[..|ops| - 1]) + if last.Saved? && Blank(last.device) then 1 else 0
  }

  function BlankRows(rows: seq<Device>): nat {
    if rows == [] then 0 else (if Blank(rows[0]) then 1 else 0) + BlankRows(rows[1..])
  }

  predicate Repeats(rows: seq<Device>, i: nat)
    requires i < |rows|
  {
    exists j | 0 <= j < i :: SavedId(rows[j]) == SavedId(rows[i])
  }

  predicate Distinct(rows: seq<Device>) {
    forall i | 0 <= i < |rows| :: !Repeats(rows, i)
  }

  /** The duplicate check of `validateConfig`: the rows it puts an error on are those whose device
      an earlier row already names. */
  method CheckDuplicates(rows: seq<Device>) returns (flagged: seq<nat>)
    ensures forall i :: i in flagged <==> 0 <= i < |rows| && Repeats(rows, i)
    ensures flagged == [] <==> Distinct(rows)
  {
    flagged := [];
    var seen: set<Identity> := {};
    for i := 0 to |rows|
      invariant forall id :: id in seen <==> exists j | 0 <= j < i :: SavedId(rows[j]) == id
      invariant forall k :: k in flagged <==> 0 <= k < i && Repeats(rows, k)
    {
      var id := SavedId(rows[i]);
      if id in seen {
        flagged := flagged + [i];
      }
      seen := seen + {id};
    }
    if flagged != [] {
      assert flagged[0] in flagged;
    }
  }

  /** No two rows that name a device name the same one. */
  ghost predicate DistinctNamed(rows: seq<Device>) {
    forall i, j | 0 <= i < j < |rows| :: !Blank(rows[i]) ==> SavedId(rows[i]) != SavedId(rows[j])
  }

  lemma {:induction false} BlankRowsAt(rows: seq<Device>)
    ensures BlankRows(rows) == 0 <==> forall i | 0 <= i < |rows| :: !Blank(rows[i])
    ensures BlankRows(rows) <= 1 <==> forall i, j | 0 <= i < j < |rows| :: !(Blank(rows[i]) && Blank(rows[j]))
  {
    hide Blank;
    if rows != [] {
      var rest := rows[1..];
      BlankRowsAt(rest);
      assert forall i | 0 <= i < |rest| :: rest[i] == rows[i + 1];
      if BlankRows(rows) <= 1 {
        forall i, j | 0 <= i < j < |rows| ensures !(Blank(rows[i]) && Blank(rows[j])) {
          if i > 0 {
            assert rest[i - 1] == rows[i];
          }
          assert rest[j - 1] == rows[j];
        }
      } else if Blank(rows[0]) {
        var k :| 0 <= k < |rest| && Blank(rest[k]);
        assert Blank(rows[0]) && Blank(rows[k + 1]);
      } else {
        var i, j :| 0 <= i < j < |rest| && Blank(rest[i]) && Blank(rest[j]);
        assert Blank(rows[i + 1]) && Blank(rows[j + 1]);
      }
    }
  }

  lemma DistinctExactly(rows: seq<Device>)
    requires DistinctNamed(rows)
    ensures Distinct(rows) <==> BlankRows(rows) <= 1
  {
    BlankRowsAt(rows);
    if BlankRows(rows) <= 1 {
      forall i | 0 <= i < |rows| ensures !Repeats(rows, i) {
        forall j | 0 <= j < i ensures SavedId(rows[j]) != SavedId(rows[i]) {
          assert !(Blank(rows[j]) && Blank(rows[i]));
        }
      }
    } else {
      var i, j :| 0 <= i < j < |rows| && Blank(rows[i]) && Blank(rows[j]);
      assert SavedId(rows[i]) == SavedId(rows[j]);
      assert Repeats(rows, j);
    }
  }

  /** A row that names no device is never matched, so nothing ever takes it out. */
  lemma BlankIsNeverMatched(d: Device, token: string, ip: string)
    requires Blank(d)
    ensures !SameSaved(d, token, ip)
  {
  }

  lemma BlankRowsCons(d: Device, rows: seq<Device>)
    ensures BlankRows([d] + rows) == (if Blank(d) then 1 else 0) + BlankRows(rows)
  {
    assert ([d] + rows)[1..] == rows;
  }

  lemma {:induction false} BlankRowsStay(rows: seq<Device>, token: string, ip: string)
    ensures BlankRows(WithoutSaved(rows, token, ip)) == BlankRows(rows)
  {
    hide Blank, SameSaved, BlankRows;
    if rows == [] {
      assert WithoutSaved(rows, token, ip) == rows;
    } else {
      BlankRowsStay(rows[1..], token, ip);
      var kept := WithoutSaved(rows[1..], token, ip);
      assert rows == [rows[0]] + rows[1..];
      BlankRowsCons(rows[0], rows[1..]);
      if Blank(rows[0]) {
        BlankIsNeverMatched(rows[0], token, ip);
      }
      if SameSaved(rows[0], token, ip) {
        assert WithoutSaved(rows, token, ip) == kept;
      } else {
        BlankRowsCons(rows[0], kept);
      }
    }
  }

  lemma {:induction false} DistinctNamedStays(rows: seq<Device>, token: string, ip: string)
    requires DistinctNamed(rows)
    ensures DistinctNamed(WithoutSaved(rows, token, ip))
  {
    hide SavedId, Blank, SameSaved;
    if rows != [] {
      var rest := rows[1..];
      assert forall i | 0 <= i < |rest| :: rest[i] == rows[i + 1];
      DistinctNamedStays(rest, token, ip);
      var kept := WithoutSaved(rest, token, ip);
      forall j | 0 <= j < |kept| ensures !Blank(rows[0]) ==> SavedId(rows[0]) != SavedId(kept[j]) {
        assert kept[j] in rest;
      }
    }
  }

  lemma WithoutSavedKeeps(rows: seq<Device>, token: string, ip: string)
    requires DistinctNamed(rows)
    ensures var r := WithoutSaved(rows, token, ip); DistinctNamed(r) && BlankRows(r) == BlankRows(rows)
  {
    DistinctNamedStays(rows, token, ip);
    BlankRowsStay(rows, token, ip);
  }

  lemma {:induction false} BlankRowsAppend(rows: seq<Device>, d: Device)
    ensures BlankRows(rows + [d]) == BlankRows(rows) + if Blank(d) then 1 else 0
  {
    if rows == [] {
      assert rows + [d] == [d] && [d][1..] == [];
    } else {
      assert (rows + [d])[1..] == rows[1..] + [d];
      BlankRowsAppend(rows[1..], d);
    }
  }

  lemma SaveKeeps(rows: seq<Device>, d: Device)
    requires DistinctNamed(rows)
    ensures DistinctNamed(Save(rows, d))
    ensures BlankRows(Save(rows, d)) == BlankRows(rows) + if Blank(d) then 1 else 0
  {
    hide BlankRows, WithoutSaved;
    WithoutSavedKeeps(rows, d.token, d.ip);
    var kept, saved := WithoutSaved(rows, d.token, d.ip), d.(name := "");
    BlankRowsAppend(kept, saved);
    forall i | 0 <= i < |kept| ensures !Blank(kept[i]) ==> SavedId(kept[i]) != SavedId(saved) {
      assert kept[i] in kept;
    }
  }

  lemma {:induction false} SavedListKeeps(ops: seq<SavedOp>)
    ensures DistinctNamed(SavedAfter(ops)) && BlankRows(SavedAfter(ops)) == BlankSaves(ops)
  {
    if ops != [] {
      var before, last := ops[..|ops| - 1], ops[|ops| - 1];
      SavedListKeeps(before);
      match last {
        case Saved(d) => SaveKeeps(SavedAfter(before), d);
        case Forgotten(whom) => WithoutSavedKeeps(SavedAfter(before), whom.0, whom.1);
      }
    }
  }

  /** Over any history of saves and removals the duplicate check stays silent exactly when a row that
      names no device was saved at most once: such a row is never replaced or removed. */
  lemma SavedListHasNoDuplicates(ops: seq<SavedOp>)
    ensures Distinct(SavedAfter(ops)) <==> BlankSaves(ops) <= 1
  {
    SavedListKeeps(ops);
    DistinctExactly(SavedAfter(ops));
  }

  lemma {:induction false} FindSavedAppend(rows: seq<Device>, d: Device, token: string, ip: string)
    ensures FindSaved(rows + [d], token, ip)
         == if FindSaved(rows, token, ip).Some? then FindSaved(rows, token, ip)
            else if SameSaved(d, token, ip) then Some(d) else None
  {
    if rows == [] {
      assert rows + [d] == [d];
    } else {
      assert (rows + [d])[1..] == rows[1..] + [d];
      FindSavedAppend(rows[1..], d, token, ip);
    }
  }

  /** What was saved is what is found, whatever row at the same address it replaced; a row that names
      no device is never found. */
  lemma SaveThenFind(rows: seq<Device>, d: Device)
    ensures FindSaved(Save(rows, d), d.token, d.ip) == if Blank(d) then None else Some(d.(name := ""))
  {
    var kept := WithoutSaved(rows, d.token, d.ip);
    FindSavedAppend(kept, d.(name := ""), d.token, d.ip);
  }

  lemma {:induction false} FindSavedWithout(rows: seq<Device>, token: string, ip: string, t: string, i: string)
    requires var found := FindSaved(rows, t, i); found.Some? ==> !SameSaved(found.value, token, ip)
    ensures FindSaved(WithoutSaved(rows, token, ip), t, i) == FindSaved(rows, t, i)
  {
    hide SameSaved, FindSaved, WithoutSaved;
    if rows == [] {
      NothingToTakeOut(token, ip);
    } else {
      var first, rest := rows[0], rows[1..];
      assert rows == [first] + rest;
      WithoutSavedCons(first, rest, token, ip);
      FindSavedCons(first, rest, t, i);
      FindSavedCons(first, WithoutSaved(rest, token, ip), t, i);
      if !SameSaved(first, t, i) {
        FindSavedWithout(rest, token, ip, t, i);
      }
    }
  }

  lemma NothingToTakeOut(token: string, ip: string)
    ensures WithoutSaved([], token, ip) == []
  {
  }

  lemma WithoutSavedCons(d: Device, rows: seq<Device>, token: string, ip: string)
    ensures WithoutSaved([d] + rows, token, ip)
         == if SameSaved(d, token, ip) then WithoutSaved(rows, token, ip) else [d] + WithoutSaved(rows, token, ip)
  {
    assert ([d] + rows)[1..] == rows;
  }

  lemma FindSavedCons(d: Device, rows: seq<Device>, token: string, ip: string)
    ensures FindSaved([d] + rows, token, ip) == if SameSaved(d, token, ip) then Some(d) else FindSaved(rows, token, ip)
  {
    assert ([d] + rows)[1..] == rows;
  }

  /** A save changes what is found for another device only by taking its row, and what is found for
      a device that had none only by being it. */
  lemma SaveElsewhere(rows: seq<Device>, d: Device, token: string, ip: string)
    requires var found := FindSaved(rows, token, ip);
             if found.Some? then !SameSaved(found.value, d.token, d.ip) else !SameSaved(d, token, ip)
    ensures FindSaved(Save(rows, d), token, ip) == FindSaved(rows, token, ip)
  {
    FindSavedWithout(rows, d.token, d.ip, token, ip);
    FindSavedAppend(WithoutSaved(rows, d.token, d.ip), d.(name := ""), token, ip);
  }

  // What one operation means for every device

  ghost predicate ListedIn(rows: seq<KnownDevice>, id: Identity) { exists d | d in rows :: KnownId(d) == id }

  ghost predicate BannedIn(rows: seq<KnownDevice>, id: Identity) { exists d | d in rows :: KnownId(d) == id && d.banned }

  /** The rows of all other devices are the same. */
  ghost predicate SameElsewhere(before: seq<KnownDevice>, after: seq<KnownDevice>, id: Identity) {
    forall d: KnownDevice | KnownId(d) != id :: d in before <==> d in after
  }

  lemma RowOf(rows: seq<KnownDevice>, id: Identity) returns (row: Option<KnownDevice>)
    requires UniqueKnown(rows)
    ensures RowIs(rows, id, row)
    ensures row.Some? <==> ListedIn(rows, id)
    ensures BannedIn(rows, id) <==> row.Some? && row.value.banned
  {
    hide KnownId;
    if i :| 0 <= i < |rows| && KnownId(rows[i]) == id {
      row := Some(rows[i]);
    } else {
      row := None;
    }
  }

  lemma RowIsListed(rows: seq<KnownDevice>, id: Identity, row: Option<KnownDevice>)
    requires RowIs(rows, id, row)
    ensures row.Some? <==> ListedIn(rows, id)
    ensures BannedIn(rows, id) <==> row.Some? && row.value.banned
  {
  }

  /** An operation is about one device; its row is what the operation makes of it. */
  lemma OperationOnItsDevice(rows: seq<KnownDevice>, op: KnownOp) returns (was: Option<KnownDevice>)
    requires UniqueKnown(rows)
    ensures UniqueKnown(ApplyKnown(rows, op)) && SameElsewhere(rows, ApplyKnown(rows, op), OpId(op))
    ensures RowIs(rows, OpId(op), was) && RowIs(ApplyKnown(rows, op), OpId(op), AppliedRow(was, op))
    ensures was.Some? <==> ListedIn(rows, OpId(op))
    ensures BannedIn(rows, OpId(op)) <==> was.Some? && was.value.banned
  {
    hide KnownId, ApplyKnown, AppliedRow, ListedIn, BannedIn;
    was := RowOf(rows, OpId(op));
    OperationIsOnOneRow(rows, op, OpId(op), was);
    forall d: KnownDevice | KnownId(d) != OpId(op) ensures d in rows <==> d in ApplyKnown(rows, op) {
      var row := RowOf(rows, KnownId(d));
      OperationIsOnOneRow(rows, op, KnownId(d), row);
    }
  }

  // The operations

  /** The part of the configuration the operations rewrite. Each runs alone. */
  class DeviceStore {
    var devices: seq<Device>
    var knownDevices: seq<KnownDevice>

    /** No device has two rows in either list. */
    ghost predicate Valid()
      reads this
    {
      UniqueKnown(knownDevices) && DistinctNamed(devices)
    }

    constructor ()
      ensures Valid() && devices == [] && knownDevices == []
    {
      devices := [];
      knownDevices := [];
    }

    /** A device that joins is listed, seen now, and banned exactly if it was; nobody else is touched. */
    method RecordKnownDevice(info: Joined, now: int)
      requires Valid()
      modifies this`knownDevices
      ensures Valid() && knownDevices == ApplyKnown(old(knownDevices), Recorded(info, now))
      ensures var id := IdentityOf(info.token, info.ip);
              && (exists d | d in knownDevices :: KnownId(d) == id && d.lastSeen == now)
              && (BannedIn(knownDevices, id) <==> BannedIn(old(knownDevices), id))
              && SameElsewhere(old(knownDevices), knownDevices, id)
    {
      hide KnownId, WithoutKnown, FindKnown, IdentityOf, ListedIn, BannedIn, SameElsewhere, UniqueKnown;
      ghost var op := Recorded(info, now);
      ghost var was := OperationOnItsDevice(knownDevices, op);
      RowIsListed(ApplyKnown(knownDevices, op), OpId(op), AppliedRow(was, op));
      var existing := knownDevices;
      var prev := FindKnown(existing, info.token, info.ip);
      knownDevices := WithoutKnown(existing, info.token, info.ip) + [Merged(prev, info, now)];
      assert AppliedRow(was, op).value in knownDevices;
    }

    /** Afterwards the device is banned exactly as asked; a ban lists it if nothing had, and lifting a
        ban lists nobody. */
    method SetKnownDeviceBanned(token: string, ip: string, banned: bool, now: int)
      requires Valid()
      modifies this`knownDevices
      ensures Valid() && knownDevices == ApplyKnown(old(knownDevices), Banned((token, ip), banned, now))
      ensures var id := IdentityOf(token, ip);
              && (BannedIn(knownDevices, id) <==> banned)
              && (ListedIn(knownDevices, id) <==> banned || ListedIn(old(knownDevices), id))
              && SameElsewhere(old(knownDevices), knownDevices, id)
    {
      hide KnownId, WithBanned, FindKnown, IdentityOf, ListedIn, BannedIn, SameElsewhere, UniqueKnown;
      ghost var op := Banned((token, ip), banned, now);
      ghost var was := OperationOnItsDevice(knownDevices, op);
      RowIsListed(ApplyKnown(knownDevices, op), OpId(op), AppliedRow(was, op));
      var existing := knownDevices;
      if FindKnown(existing, token, ip).Some? {
        knownDevices := WithBanned(existing, token, ip, banned);
      } else if banned {
        knownDevices := existing + [KnownDevice(token, ip, "", "", "", now, true)];
      } else {
        return;
      }
    }

    /** Afterwards the device is not listed, and so not banned. */
    method RemoveKnownDevice(token: string, ip: string)
      requires Valid()
      modifies this`knownDevices
      ensures Valid() && knownDevices == ApplyKnown(old(knownDevices), Removed((token, ip)))
      ensures var id := IdentityOf(token, ip);
              && !ListedIn(knownDevices, id)
              && SameElsewhere(old(knownDevices), knownDevices, id)
    {
      hide KnownId, WithoutKnown, IdentityOf, ListedIn, BannedIn, SameElsewhere, UniqueKnown;
      ghost var op := Removed((token, ip));
      ghost var was := OperationOnItsDevice(knownDevices, op);
      RowIsListed(ApplyKnown(knownDevices, op), OpId(op), AppliedRow(was, op));
      knownDevices := WithoutKnown(knownDevices, token, ip);
    }

    /** The saved row is what is found, and the only row that is new; what it does not match stays. */
    method SaveDeviceSettings(device: Device)
      requires Valid()
      modifies this`devices
      ensures Valid() && devices == ApplySaved(old(devices), Saved(device))
      ensures FindSaved(devices, device.token, device.ip) == if Blank(device) then None else Some(device.(name := ""))
      ensures forall d: Device :: d in devices <==>
                d == device.(name := "") || (d in old(devices) && !SameSaved(d, device.token, device.ip))
    {
      hide BlankRows, FindSaved, SameSaved, Blank, DistinctNamed;
      SaveThenFind(devices, device);
      SaveKeeps(devices, device);
      devices := WithoutSaved(devices, device.token, device.ip) + [device.(name := "")];
    }

    method RemoveSavedDevice(token: string, ip: string)
      requires Valid()
      modifies this`devices
      ensures Valid() && devices == ApplySaved(old(devices), Forgotten((token, ip)))
      ensures FindSaved(devices, token, ip) == None
      ensures forall d: Device :: d in devices <==> d in old(devices) && !SameSaved(d, token, ip)
    {
      hide SameSaved, Blank, BlankRows, DistinctNamed;
      WithoutSavedKeeps(devices, token, ip);
      devices := WithoutSaved(devices, token, ip);
    }
  }
}
