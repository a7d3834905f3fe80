/** A ban set in the web view, and what the host replays of it at its next start. */
module TrustReplay {
  import opened Wrappers
  import opened Json
  import opened ConfigReaders
  import opened ConfigReadback
  import L = DeviceLists
  import Text

  /** A row of `knownDevices` as the store holds it. */
  function KnownRow(d: L.KnownDevice): Value {
    Obj(map[
      "token" := Str(d.token), "ip" := Str(d.ip), "name" := Str(d.name), "os" := Str(d.os),
      "screenSize" := Str(d.screenSize), "lastSeen" := Num(Int(d.lastSeen)), "banned" := Bool(d.banned)])
  }

  function KnownRows(rows: seq<L.KnownDevice>): seq<Value> {
    seq(|rows|, i requires 0 <= i < |rows| => KnownRow(rows[i]))
  }

  lemma RowIsTrust(d: L.KnownDevice)
    ensures ReadTrust(KnownRow(d))
         == if Text.Trim(d.token) == "" && Text.Trim(d.ip) == "" then None
            else Some(SavedTrust(Text.Trim(d.token), Text.Trim(d.ip), d.banned))
  {
    hide Text.Trim;
    var row := KnownRow(d).fields;
    TextReadsBack(row, "token", Some(d.token));
    TextReadsBack(row, "ip", Some(d.ip));
    SwitchReadsBack(row, "banned", d.banned);
  }

  lemma {:induction false} FilterMapKeeps<T>(f: Value -> Option<T>, rows: seq<Value>, i: nat, t: T)
    requires i < |rows| && f(rows[i]) == Some(t)
    ensures t in FilterMap(f, rows)
  {
    var last := |rows| - 1;
    if i < last {
      FilterMapKeeps(f, rows[..last], i, t);
    }
  }

  lemma {:induction false} FilterMapOnly<T>(f: Value -> Option<T>, rows: seq<Value>, t: T) returns (i: nat)
    requires t in FilterMap(f, rows)
    ensures i < |rows| && f(rows[i]) == Some(t)
  {
    var last := |rows| - 1;
    if f(rows[last]) == Some(t) {
      i := last;
    } else {
      i := FilterMapOnly(f, rows[..last], t);
    }
  }

  /** Whatever happened to the list, a listed device whose token is not blank is replayed with the
      last ban or unban since it was last removed. */
  lemma LastBanIsReplayed(ops: seq<L.KnownOp>, token: string)
    ensures var since := L.Since(ops, L.Token(token));
            Text.Trim(token) != "" && L.Listed(since) ==>
              exists d | d in L.KnownAfter(ops) ::
                && d.token == token
                && SavedTrust(Text.Trim(token), Text.Trim(d.ip), L.LastBan(since)) in ParseSavedTrust(KnownRows(L.KnownAfter(ops)))
  {
    hide Text.Trim, L.Since, L.Listed, L.LastBan, L.LastText, L.LastSeen, L.LastAddress, L.KnownAfter, ReadTrust, FilterMap, KnownRow;
    var row := L.KnownListIsItsHistory(ops, L.Token(token));
    if Text.Trim(token) != "" && row.Some? {
      var d, rows := row.value, L.KnownAfter(ops);
      var i :| 0 <= i < |rows| && rows[i] == d;
      RowIsTrust(d);
      FilterMapKeeps(ReadTrust, KnownRows(rows), i, SavedTrust(Text.Trim(token), Text.Trim(d.ip), d.banned));
    }
  }

  /** And nothing is replayed that the history does not say of some device. */
  lemma ReplayIsHistory(ops: seq<L.KnownOp>)
    ensures forall trust | trust in ParseSavedTrust(KnownRows(L.KnownAfter(ops))) ::
              exists d | d in L.KnownAfter(ops) ::
                && trust == SavedTrust(Text.Trim(d.token), Text.Trim(d.ip), L.LastBan(L.Since(ops, L.KnownId(d))))
                && L.Listed(L.Since(ops, L.KnownId(d)))
  {
    hide Text.Trim, L.Since, L.Listed, L.LastBan, L.LastText, L.LastSeen, L.LastAddress, L.KnownAfter, ReadTrust, FilterMap, KnownRow;
    var rows := L.KnownAfter(ops);
    forall trust | trust in ParseSavedTrust(KnownRows(rows))
      ensures exists d | d in rows ::
                && trust == SavedTrust(Text.Trim(d.token), Text.Trim(d.ip), L.LastBan(L.Since(ops, L.KnownId(d))))
                && L.Listed(L.Since(ops, L.KnownId(d)))
    {
      var i := FilterMapOnly(ReadTrust, KnownRows(rows), trust);
      RowIsTrust(rows[i]);
      var row := L.KnownListIsItsHistory(ops, L.KnownId(rows[i]));
      assert rows[i] in rows;
    }
  }

  // What is in force once every entry has been applied

  /** The host's sets of banned and approved devices. */
  datatype HostTrust = HostTrust(banned: set<string>, approved: set<string>)

  /** 128 bits as lower-case hexadecimal digits. */
  predicate IsDeviceToken(s: string) {
    |s| == 32 && forall i | 0 <= i < |s| :: '0' <= s[i] <= '9' || 'a' <= s[i] <= 'f'
  }

  /** Which device is connected from an address, when the entry at this place is applied. */
  type Lookup = (nat, string) -> Option<string>

  /** `resolve_device`, as `set_device_banned` calls it: the token, or the address when it is blank. */
  function HostKey(e: SavedTrust, at: nat, lookup: Lookup): Option<string> {
    var key := Text.Trim(if Text.Trim(e.token) == "" then e.ip else e.token);
    if key == "" then None else if IsDeviceToken(key) then Some(key) else lookup(at, key)
  }

  function ApplyEntry(host: HostTrust, e: SavedTrust, at: nat, lookup: Lookup): HostTrust {
    HostTrust(
      match HostKey(e, at, lookup)
      case None => host.banned
      case Some(key) => if e.banned then host.banned + {key} else host.banned - {key},
      if Text.Trim(e.token) == "" then host.approved
      else if e.banned then host.approved - {e.token}
      else host.approved + {e.token})
  }

  /** `apply_saved_trust`: the entries in the order of the list. */
  function ApplyTrust(host: HostTrust, entries: seq<SavedTrust>, lookup: Lookup): HostTrust {
    if entries == [] then host
    else
      var last := |entries| - 1;
      ApplyEntry(ApplyTrust(host, entries[..last], lookup), entries[last], last, lookup)
  }

  lemma ApplyTrustStep(host: HostTrust, entries: seq<SavedTrust>, i: nat, lookup: Lookup)
    requires i < |entries|
    ensures ApplyTrust(host, entries[..i + 1], lookup) == ApplyEntry(ApplyTrust(host, entries[..i], lookup), entries[i], i, lookup)
  {
    hide ApplyEntry;
    assert entries[..i + 1][..i] == entries[..i];
  }

  lemma ApplyNothing(host: HostTrust, lookup: Lookup)
    ensures ApplyTrust(host, [], lookup) == host
  {
  }

  /** One entry decides about the device it names and about no other. */
  lemma EntryDecides(host: HostTrust, e: SavedTrust, at: nat, lookup: Lookup, token: string)
    ensures (token in ApplyEntry(host, e, at, lookup).banned) == if HostKey(e, at, lookup) == Some(token) then e.banned else token in host.banned
  {
    hide HostKey, Text.Trim;
  }

  method ApplyTrustLoop(host: HostTrust, entries: seq<SavedTrust>, lookup: Lookup) returns (after: HostTrust)
    ensures after == ApplyTrust(host, entries, lookup)
  {
    hide ApplyTrust, ApplyEntry;
    ApplyNothing(host, lookup);
    assert entries[..0] == [];
    after := host;
    for i := 0 to |entries|
      invariant after == ApplyTrust(host, entries[..i], lookup)
    {
      ApplyTrustStep(host, entries, i, lookup);
      after := ApplyEntry(after, entries[i], i, lookup);
    }
    assert entries[..|entries|] == entries;
  }

  predicate Names(entries: seq<SavedTrust>, i: nat, token: string, lookup: Lookup)
    requires i < |entries|
  {
    HostKey(entries[i], i, lookup) == Some(token)
  }

  /** A device is banned in the end exactly when the last entry that names it bans it, and, if none
      names it, when it was before. */
  lemma {:induction false} LastNamingDecides(host: HostTrust, entries: seq<SavedTrust>, lookup: Lookup, token: string)
      returns (i: int)
    ensures -1 <= i < |entries|
    ensures i >= 0 ==> Names(entries, i, token, lookup)
    ensures forall j | i < j < |entries| :: !Names(entries, j, token, lookup)
    ensures token in ApplyTrust(host, entries, lookup).banned <==> if i >= 0 then entries[i].banned else token in host.banned
  {
    hide HostKey, ApplyTrust, ApplyEntry;
    if entries == [] {
      ApplyNothing(host, lookup);
      i := -1;
    } else {
      var last := |entries| - 1;
      ApplyTrustStep(host, entries, last, lookup);
      assert entries[..last + 1] == entries;
      EntryDecides(ApplyTrust(host, entries[..last], lookup), entries[last], last, lookup, token);
      if Names(entries, last, token, lookup) {
        i := last;
      } else {
        i := LastNamingDecides(host, entries[..last], lookup, token);
        assert forall j | 0 <= j < last :: Names(entries[..last], j, token, lookup) == Names(entries, j, token, lookup);
      }
    }
  }

  /** What a row would have the host look for. */
  function HostName(d: L.KnownDevice): string {
    if Text.Trim(d.token) == "" then Text.Trim(d.ip) else Text.Trim(d.token)
  }

  lemma EntryNames(d: L.KnownDevice, at: nat, lookup: Lookup, token: string)
    requires IsDeviceToken(token) && lookup.requires(at, HostName(d)) && lookup(at, HostName(d)) != Some(token)
    requires Text.Trim(d.token) != "" || Text.Trim(d.ip) != ""
    ensures HostKey(SavedTrust(Text.Trim(d.token), Text.Trim(d.ip), d.banned), at, lookup) == Some(token) <==> HostName(d) == token
  {
    hide IsDeviceToken, Text.Trim, Text.Trimmed;
    TrimTwice(d.token);
    TrimTwice(d.ip);
  }

  lemma TrimTwice(s: string)
    ensures Text.Trim(Text.Trim(s)) == Text.Trim(s)
  {
    TrimShortens(Text.Trim(s));
  }

  lemma DeviceTokensAreTrimmed(token: string)
    requires IsDeviceToken(token)
    ensures Text.Trim(token) == token && token != ""
  {
    TrimShortens(token);
  }

  /** The last ban is in force: once a start of the host has applied the whole list, a device is banned
      exactly as the last ban or unban of it says, or as it was when it is not listed. For this no other
      row may stand for the same device, with blanks around its token or by an address the host
      resolves to it. */
  lemma LastBanIsInForce(ops: seq<L.KnownOp>, host: HostTrust, lookup: Lookup, token: string)
    requires IsDeviceToken(token) && forall at, s :: lookup(at, s) != Some(token)
    requires forall d | d in L.KnownAfter(ops) && HostName(d) == token :: d.token == token
    ensures var since := L.Since(ops, L.Token(token));
            (token in ApplyTrust(host, ParseSavedTrust(KnownRows(L.KnownAfter(ops))), lookup).banned)
              == if L.Listed(since) then L.LastBan(since) else token in host.banned
  {
    hide Text.Trim, L.Since, L.Listed, L.LastBan, L.LastText, L.LastSeen, L.LastAddress, L.KnownAfter, ReadTrust, FilterMap,
      KnownRow, IsDeviceToken, HostKey, ApplyTrust, HostName;
    var rows, entries := L.KnownAfter(ops), ParseSavedTrust(KnownRows(L.KnownAfter(ops)));
    DeviceTokensAreTrimmed(token);
    var i := LastNamingDecides(host, entries, lookup, token);
    if i >= 0 {
      NamedByItsRow(ops, lookup, token, i);
    } else if L.Listed(L.Since(ops, L.Token(token))) {
      var at := ListedIsNamed(ops, lookup, token);
    }
  }

  /** The entry that names a device comes from its own row. */
  lemma NamedByItsRow(ops: seq<L.KnownOp>, lookup: Lookup, token: string, i: nat)
    requires IsDeviceToken(token) && forall at, s :: lookup(at, s) != Some(token)
    requires forall d | d in L.KnownAfter(ops) && HostName(d) == token :: d.token == token
    requires i < |ParseSavedTrust(KnownRows(L.KnownAfter(ops)))|
    requires Names(ParseSavedTrust(KnownRows(L.KnownAfter(ops))), i, token, lookup)
    ensures var since := L.Since(ops, L.Token(token));
            L.Listed(since) && ParseSavedTrust(KnownRows(L.KnownAfter(ops)))[i].banned == L.LastBan(since)
  {
    hide Text.Trim, L.Since, L.Listed, L.LastBan, L.LastText, L.LastSeen, L.LastAddress, L.KnownAfter, ReadTrust, FilterMap,
      KnownRow, IsDeviceToken, HostKey, HostName;
    var rows, entries := L.KnownAfter(ops), ParseSavedTrust(KnownRows(L.KnownAfter(ops)));
    var k := FilterMapOnly(ReadTrust, KnownRows(rows), entries[i]);
    RowIsTrust(rows[k]);
    EntryNames(rows[k], i, lookup, token);
    DeviceTokensAreTrimmed(token);
    assert rows[k] in rows && rows[k].token == token;
    var row := L.KnownListIsItsHistory(ops, L.Token(token));
  }

  /** A listed device is named by some entry. */
  lemma ListedIsNamed(ops: seq<L.KnownOp>, lookup: Lookup, token: string) returns (i: nat)
    requires IsDeviceToken(token) && forall at, s :: lookup(at, s) != Some(token)
    requires L.Listed(L.Since(ops, L.Token(token)))
    ensures i < |ParseSavedTrust(KnownRows(L.KnownAfter(ops)))|
    ensures Names(ParseSavedTrust(KnownRows(L.KnownAfter(ops))), i, token, lookup)
    ensures ParseSavedTrust(KnownRows(L.KnownAfter(ops)))[i].token == token
  {
    hide Text.Trim, L.Since, L.Listed, L.LastBan, L.LastText, L.LastSeen, L.LastAddress, L.KnownAfter, ReadTrust, FilterMap,
      KnownRow, IsDeviceToken, HostKey;
    var rows, entries := L.KnownAfter(ops), ParseSavedTrust(KnownRows(L.KnownAfter(ops)));
    DeviceTokensAreTrimmed(token);
    var row := L.KnownListIsItsHistory(ops, L.Token(token));
    var d := row.value;
    var k :| 0 <= k < |rows| && rows[k] == d;
    RowIsTrust(d);
    FilterMapKeeps(ReadTrust, KnownRows(rows), k, SavedTrust(token, Text.Trim(d.ip), d.banned));
    i :| 0 <= i < |entries| && entries[i] == SavedTrust(token, Text.Trim(d.ip), d.banned);
    EntryNames(d, i, lookup, token);
  }

  /** A device is approved in the end exactly when the last entry with its token does not ban it, and, if
      none has it, when it was before. */
  lemma {:induction false} LastApprovalDecides(host: HostTrust, entries: seq<SavedTrust>, lookup: Lookup, token: string)
      returns (i: int)
    requires Text.Trim(token) != ""
    ensures -1 <= i < |entries|
    ensures i >= 0 ==> entries[i].token == token
    ensures forall j | i < j < |entries| :: entries[j].token != token
    ensures token in ApplyTrust(host, entries, lookup).approved <==> if i >= 0 then !entries[i].banned else token in host.approved
  {
    hide HostKey, Text.Trim;
    if entries == [] {
      i := -1;
    } else {
      var last := |entries| - 1;
      if entries[last].token == token {
        i := last;
      } else {
        i := LastApprovalDecides(host, entries[..last], lookup, token);
      }
    }
  }

  /** So a start of the host approves a listed device exactly when its last ban or unban does not ban it:
      one that was never banned joins by itself, a banned one is never also approved. */
  lemma LastBanDecidesApproval(ops: seq<L.KnownOp>, host: HostTrust, lookup: Lookup, token: string)
    requires IsDeviceToken(token) && forall at, s :: lookup(at, s) != Some(token)
    requires forall d | d in L.KnownAfter(ops) && HostName(d) == token :: d.token == token
    ensures var since := L.Since(ops, L.Token(token));
            (token in ApplyTrust(host, ParseSavedTrust(KnownRows(L.KnownAfter(ops))), lookup).approved)
              == if L.Listed(since) then !L.LastBan(since) else token in host.approved
  {
    hide Text.Trim, L.Since, L.Listed, L.LastBan, L.LastText, L.LastSeen, L.LastAddress, L.KnownAfter, ReadTrust, FilterMap,
      KnownRow, IsDeviceToken, HostKey, ApplyTrust, HostName;
    var rows, entries := L.KnownAfter(ops), ParseSavedTrust(KnownRows(L.KnownAfter(ops)));
    DeviceTokensAreTrimmed(token);
    var i := LastApprovalDecides(host, entries, lookup, token);
    if i >= 0 {
      ApprovedByItsRow(ops, token, i);
    } else if L.Listed(L.Since(ops, L.Token(token))) {
      var at := ListedIsNamed(ops, lookup, token);
    }
  }

  lemma ApprovedByItsRow(ops: seq<L.KnownOp>, token: string, i: nat)
    requires IsDeviceToken(token)
    requires forall d | d in L.KnownAfter(ops) && HostName(d) == token :: d.token == token
    requires i < |ParseSavedTrust(KnownRows(L.KnownAfter(ops)))|
    requires ParseSavedTrust(KnownRows(L.KnownAfter(ops)))[i].token == token
    ensures var since := L.Since(ops, L.Token(token));
            L.Listed(since) && ParseSavedTrust(KnownRows(L.KnownAfter(ops)))[i].banned == L.LastBan(since)
  {
    hide Text.Trim, L.Since, L.Listed, L.LastBan, L.LastText, L.LastSeen, L.LastAddress, L.KnownAfter, ReadTrust, FilterMap,
      KnownRow, IsDeviceToken;
    var rows, entries := L.KnownAfter(ops), ParseSavedTrust(KnownRows(L.KnownAfter(ops)));
    var k := FilterMapOnly(ReadTrust, KnownRows(rows), entries[i]);
    RowIsTrust(rows[k]);
    DeviceTokensAreTrimmed(token);
    assert rows[k] in rows && rows[k].token == token;
    var row := L.KnownListIsItsHistory(ops, L.Token(token));
  }

  /** An entry without a token is about whoever is connected from its address when it is applied, and
      about nobody when no one is; it approves nobody. */
  lemma AddressEntry(host: HostTrust, e: SavedTrust, at: nat, lookup: Lookup)
    requires Text.Trim(e.token) == "" && Text.Trim(e.ip) != "" && !IsDeviceToken(Text.Trim(e.ip))
    ensures var after, found := ApplyEntry(host, e, at, lookup), lookup(at, Text.Trim(e.ip));
            && after.approved == host.approved
            && forall token :: token in after.banned <==> if found == Some(token) then e.banned else token in host.banned
  {
    hide Text.Trim, IsDeviceToken;
  }

  /** A banned device is never also approved, as long as entries name devices by their tokens. */
  lemma {:induction false} BannedIsNeverApproved(host: HostTrust, entries: seq<SavedTrust>, lookup: Lookup)
    requires host.banned !! host.approved && forall key | key in host.banned :: IsDeviceToken(key)
    requires forall at, s :: lookup(at, s) == None
    requires forall e | e in entries :: Text.Trim(e.token) == e.token && (e.token == "" ==> !IsDeviceToken(Text.Trim(e.ip)))
    ensures var after := ApplyTrust(host, entries, lookup);
            after.banned !! after.approved && forall key | key in after.banned :: IsDeviceToken(key)
  {
    hide Text.Trim, IsDeviceToken;
    if entries != [] {
      var last := |entries| - 1;
      BannedIsNeverApproved(host, entries[..last], lookup);
      assert entries[last] in entries;
      assert Text.Trim("") == "" by { TrimTwice(""); EmptyTrims(); }
    }
  }

  lemma EmptyTrims()
    ensures Text.Trim("") == ""
  {
  }
}
