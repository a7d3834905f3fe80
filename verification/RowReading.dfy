/** What the host makes of any stored setting or device row, right or wrong (`src-tauri/src/cli.rs`). */
module RowReading {
  import opened Wrappers
  import opened Json
  import opened ConfigPath
  import opened ConfigReaders
  import opened ConfigReadback
  import opened Selection
  import Text

  // One key of a row

  /** A text under the key, or what is read when there is none. */
  predicate TextIs(row: Value, key: string, default: string, text: string) {
    if row.Obj? && key in row.fields && row.fields[key].Str? then text == row.fields[key].s else text == default
  }

  predicate SwitchIs(row: Value, key: string, default: bool, on: bool) {
    if row.Obj? && key in row.fields && row.fields[key].Bool? then on == row.fields[key].b else on == default
  }

  /** A number that `serde_json` holds as an unsigned one, cut to 32 bits. */
  predicate NumberIs(row: Value, key: string, default: nat, n: nat) {
    if row.Obj? && key in row.fields && row.fields[key].Num? && row.fields[key].n.Int? && 0 <= row.fields[key].n.i < Text.U64_BOUND
    then n == row.fields[key].n.i % 0x1_0000_0000
    else n == default
  }

  predicate RatioIs(row: Value, key: string, default: real, r: real) {
    if row.Obj? && key in row.fields && row.fields[key].Num? then r == row.fields[key].n.AsReal() else r == default
  }

  predicate HasText(row: Value, key: string) { row.Obj? && key in row.fields && row.fields[key].Str? }

  /** Nothing but blanks is there under the key, if anything. */
  predicate NoText(row: Value, key: string) { !HasText(row, key) || Text.Blank(row.fields[key].s) }

  /** The text between the blanks. */
  predicate TrimmedIs(row: Value, key: string, text: string) {
    if HasText(row, key) then text == Text.Trim(row.fields[key].s) else text == ""
  }

  lemma TextRead(row: Value, key: string, default: string)
    ensures TextIs(row, key, default, Or(StrOf(row, key), default))
    ensures StrOf(row, key) == if HasText(row, key) then Some(row.fields[key].s) else None
  {
  }

  lemma SwitchRead(row: Value, key: string, default: bool)
    ensures SwitchIs(row, key, default, Or(BoolOf(row, key), default))
  {
  }

  lemma NumberRead(row: Value, key: string, default: nat)
    ensures NumberIs(row, key, default, NumOf(row, key, default))
  {
  }

  lemma RatioRead(row: Value, key: string, default: real)
    ensures RatioIs(row, key, default, Or(F64Of(row, key), default))
  {
  }

  lemma TrimOf(s: string)
    ensures Text.Trim(s) == "" <==> Text.Blank(s)
    ensures Text.Trim("") == ""
  {
    assert Text.Blank("");
    hide Text.Trim, Text.Blank;
  }

  lemma TrimmedRead(row: Value, key: string)
    ensures TrimmedIs(row, key, Text.Trim(Or(StrOf(row, key), "")))
    ensures Text.Trim(Or(StrOf(row, key), "")) == "" <==> NoText(row, key)
  {
    hide Text.Trim, Text.Blank;
    TrimOf(Or(StrOf(row, key), ""));
  }

  lemma TokenRead(row: Value)
    ensures TokenOf(row) == if NoText(row, "token") then None else Some(Text.Trim(row.fields["token"].s))
  {
    hide Text.Trim, Text.Blank;
    if HasText(row, "token") { TrimOf(row.fields["token"].s); }
  }

  // Whole rows

  /** Every stored row of `devices`: one that names no device is passed over; of every other each setting
      is what is stored under its own key, or its default where that is absent or of another type. */
  lemma EveryRowIsRead(row: Value)
    ensures match ReadDevice(row)
            case None => NoText(row, "token") && TextIs(row, "ip", "", "")
            case Some(d) =>
              && !(NoText(row, "token") && TextIs(row, "ip", "", ""))
              && (if NoText(row, "token") then d.token == None else d.token.Some? && TrimmedIs(row, "token", d.token.value))
              && TextIs(row, "ip", "", d.ip)
              && NumberIs(row, "scale", 100, d.scale)
              && TextIs(row, "orientation", "Landscape", d.orientation)
              && NumberIs(row, "refreshRate", 60, d.refreshRate)
              && NumberIs(row, "videoScale", 100, d.videoScale)
              && NumberIs(row, "videoQuality", 15, d.videoQuality)
              && SwitchIs(row, "remoteControl", true, d.control)
              && RatioIs(row, "dpr", 1.0, d.dpr)
              && SwitchIs(row, "systemAudio", false, d.audio)
              && TextIs(row, "pointerScope", "all", d.pointerScope)
              && SwitchIs(row, "autoFrameRate", false, d.autoFrameRate)
              && SwitchIs(row, "adaptiveQuality", false, d.adaptiveQuality)
              && SwitchIs(row, "nativeDpr", true, d.nativeDpr)
              && SwitchIs(row, "autoOrientation", true, d.autoOrientation)
              && (if HasText(row, "audioOutputDeviceId") then d.audioOutput == Some(row.fields["audioOutputDeviceId"].s) else d.audioOutput == None)
  {
    hide StrOf, BoolOf, NumOf, F64Of, TokenOf, Text.Trim, Text.Blank, NumberIs, SwitchIs, RatioIs;
    TokenRead(row);
    TextRead(row, "ip", "");
    TextRead(row, "orientation", "Landscape");
    TextRead(row, "pointerScope", "all");
    TextRead(row, "audioOutputDeviceId", "");
    hide TextIs;
    NumberRead(row, "scale", 100);
    NumberRead(row, "refreshRate", 60);
    NumberRead(row, "videoScale", 100);
    NumberRead(row, "videoQuality", 15);
    RatioRead(row, "dpr", 1.0);
    SwitchRead(row, "remoteControl", true);
    SwitchRead(row, "systemAudio", false);
    SwitchRead(row, "autoFrameRate", false);
    SwitchRead(row, "adaptiveQuality", false);
    SwitchRead(row, "nativeDpr", true);
    SwitchRead(row, "autoOrientation", true);
    NoIp(row);
  }

  lemma NoIp(row: Value)
    ensures TextIs(row, "ip", "", "") <==> Or(StrOf(row, "ip"), "") == ""
  {
  }

  /** Every stored row of `knownDevices`, likewise. */
  lemma EveryTrustRowIsRead(row: Value)
    ensures match ReadTrust(row)
            case None => NoText(row, "token") && NoText(row, "ip")
            case Some(e) =>
              && !(NoText(row, "token") && NoText(row, "ip"))
              && TrimmedIs(row, "token", e.token) && TrimmedIs(row, "ip", e.ip) && SwitchIs(row, "banned", false, e.banned)
  {
    hide StrOf, BoolOf, Text.Trim, Text.Blank, SwitchIs, TrimmedIs, NoText;
    TrimmedRead(row, "token");
    TrimmedRead(row, "ip");
    SwitchRead(row, "banned", false);
  }

  /** `out` is what the rows at these places are read as, and the others are not read. */
  ghost predicate ReadAt<T>(f: Value -> Option<T>, rows: seq<Value>, at: seq<nat>, out: seq<T>) {
    && |at| == |out| && (forall j, k | 0 <= j < k < |at| :: at[j] < at[k])
    && (forall j | 0 <= j < |at| :: at[j] < |rows| && f(rows[at[j]]) == Some(out[j]))
    && forall i: nat | i < |rows| :: i in at <==> f(rows[i]).Some?
  }

  lemma ReadMore<T>(f: Value -> Option<T>, rows: seq<Value>, at: seq<nat>, out: seq<T>, row: Value)
    requires ReadAt(f, rows, at, out)
    ensures f(row).None? ==> ReadAt(f, rows + [row], at, out)
    ensures f(row).Some? ==> ReadAt(f, rows + [row], at + [|rows|], out + [f(row).value])
  {
    assert |rows| !in at;
    var all := rows + [row];
    assert forall i: nat | i < |rows| :: all[i] == rows[i];
    if f(row).Some? {
      var more := at + [|rows|];
      assert forall i: nat :: i in more <==> i in at || i == |rows|;
    }
  }

  /** The rows of a list that are read, all of them and no others, in the order of the list. */
  lemma {:induction false} RowsAreReadInOrder<T>(f: Value -> Option<T>, rows: seq<Value>) returns (at: seq<nat>)
    ensures ReadAt(f, rows, at, FilterMap(f, rows))
  {
    hide ReadAt;
    if rows == [] {
      at := [];
      NothingRead(f);
    } else {
      var last := |rows| - 1;
      at := RowsAreReadInOrder(f, rows[..last]);
      assert rows[..last] + [rows[last]] == rows;
      var before := FilterMap(f, rows[..last]);
      assert before + [] == before;
      ReadMore(f, rows[..last], at, before, rows[last]);
      if f(rows[last]).Some? { at := at + [last]; }
    }
  }

  lemma NothingRead<T>(f: Value -> Option<T>)
    ensures ReadAt(f, [], [], [])
  {
  }

  // The other settings

  lemma {:induction false} NoSeparatorInside(s: string, c: char)
    ensures forall piece | piece in Pieces(s, c) :: c !in piece
    decreases |s|
  {
    match SplitAt(s, c)
    case None =>
    case Some(p) => NoSeparatorInside(p.1, c);
  }

  /** The pieces of a text are the only ones without a separator inside that join to it. */
  lemma PiecesAre(s: string, c: char)
    ensures Join(Pieces(s, c), c) == s && forall piece | piece in Pieces(s, c) :: c !in piece
  {
    JoinPieces(s, c);
    NoSeparatorInside(s, c);
  }

  lemma FirstPiece(pieces: seq<string>)
    requires pieces != []
    ensures var rest := TrimmedPieces(pieces[1..]);
            TrimmedPieces(pieces) == if !Text.Blank(pieces[0]) then [Text.Trim(pieces[0])] + rest else rest
  {
    TrimOf(pieces[0]);
    hide Text.Trim, Text.Blank;
    assert [] + TrimmedPieces(pieces[1..]) == TrimmedPieces(pieces[1..]);
  }

  lemma {:induction false} PiecesArePicked(pieces: seq<string>)
    ensures Picks(TrimmedPieces(pieces), pieces, (s: string) => !Text.Blank(s), (s: string) => Text.Trim(s))
  {
    hide Text.Trim, Text.Blank, Picks;
    var counts, trim := (s: string) => !Text.Blank(s), (s: string) => Text.Trim(s);
    if pieces == [] {
      PicksNothing(counts, trim);
    } else {
      PiecesArePicked(pieces[1..]);
      FirstPiece(pieces);
      hide TrimmedPieces;
      PicksCons(TrimmedPieces(pieces[1..]), pieces[0], pieces[1..], counts, trim);
      assert [pieces[0]] + pieces[1..] == pieces;
    }
  }

  /** The text found under a key of the store, or none. */
  function TextUnder(saved: map<string, Value>, group: string, key: string): string {
    if group in saved && HasText(saved[group], key) then saved[group].fields[key].s else ""
  }

  lemma TextUnderIs(saved: map<string, Value>, key: string)
    requires ParseIndex(key).None?
    ensures Or(SavedStr(saved, ["turnConfig", key]), "") == TextUnder(saved, "turnConfig", key)
  {
    hide ParseIndex, Text.ParseUnsigned;
    var parts := ["turnConfig", key];
    assert parts[1..] == [key];
    if "turnConfig" in saved {
      var group := saved["turnConfig"];
      assert DigFrom(Obj(saved), parts) == DigFrom(group, [key]);
      NamedChild(group, key);
    } else {
      assert DigFrom(Obj(saved), parts) == None;
    }
  }

  /** A name that is no number is looked up in an object and nowhere else. */
  lemma NamedChild(v: Value, key: string)
    requires ParseIndex(key).None?
    ensures DigFrom(v, [key]) == v.Get(key)
  {
    hide ParseIndex;
    assert [key][1..] == [];
  }

  lemma TurnKeysAreNames()
    ensures ParseIndex("urls").None? && ParseIndex("username").None? && ParseIndex("credential").None?
  {
    assert !Text.IsDigit("urls"[0]) && !Text.IsDigit("username"[0]) && !Text.IsDigit("credential"[0]);
  }

  /** What every store is served as: the addresses between the commas that are not blank, in their order
      and without blanks around them, and texts without blanks around them. */
  lemma TurnIsServed(saved: map<string, Value>)
    ensures Picks(Replay(saved).turnUrls, Pieces(TextUnder(saved, "turnConfig", "urls"), ','),
                  (s: string) => !Text.Blank(s), (s: string) => Text.Trim(s))
    ensures Replay(saved).turnUsername == Text.Trim(TextUnder(saved, "turnConfig", "username"))
    ensures Replay(saved).turnCredential == Text.Trim(TextUnder(saved, "turnConfig", "credential"))
  {
    hide Text.Trim, Text.Blank, Pieces, TrimmedPieces, ParseIndex, TextUnder, SavedStr, Picks;
    TurnKeysAreNames();
    TextUnderIs(saved, "urls");
    TextUnderIs(saved, "username");
    TextUnderIs(saved, "credential");
    PiecesArePicked(Pieces(TextUnder(saved, "turnConfig", "urls"), ','));
  }

  /** A grace period that is held as an unsigned number cut to 32 bits and to 600, or 10 seconds; and the
      switch that is there, or off. */
  lemma GraceAndSwitchAreServed(saved: map<string, Value>) returns (n: nat)
    ensures NumberIs(Obj(saved), "disconnectGraceSecs", 10, n)
    ensures Replay(saved).graceSecs == if n > 600 then 600 else n
    ensures SwitchIs(Obj(saved), "legacyVolumeKeyProxy", false, Replay(saved).legacyVolumeKeyProxy)
  {
    hide Text.Trim, Pieces, TrimmedPieces, SavedStr, DigFrom;
    DigOne(saved, "disconnectGraceSecs");
    DigOne(saved, "legacyVolumeKeyProxy");
    NumberRead(Obj(saved), "disconnectGraceSecs", 10);
    SwitchRead(Obj(saved), "legacyVolumeKeyProxy", false);
    n := NumOf(Obj(saved), "disconnectGraceSecs", 10);
    hide NumberIs, SwitchIs;
  }
}
