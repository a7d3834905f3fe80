/** What the host's readers give back of what was written (`src-tauri/src/cli.rs`). */
module ConfigReadback {
  import opened Wrappers
  import opened Json
  import opened Shape
  import opened ConfigPath
  import opened ConfigTable
  import opened ConfigReaders
  import Text

  // What the replay hands on

  const MAX_DISCONNECT_GRACE_SECS: nat := 600

  /** `str::split` at a character: one piece more than there are separators. */
  function Pieces(s: string, c: char): (pieces: seq<string>)
    ensures pieces != []
    decreases |s|
  {
    match SplitAt(s, c)
    case None => [s]
    case Some(p) => [p.0] + Pieces(p.1, c)
  }

  function SplitAt(s: string, c: char): (r: Option<(string, string)>)
    ensures r.Some? ==> s == r.value.0 + [c] + r.value.1
  {
    Text.SplitOnce(s, c)
  }

  /** Each piece trimmed, empty ones dropped. */
  function TrimmedPieces(pieces: seq<string>): seq<string> {
    if pieces == [] then []
    else (if Text.Trim(pieces[0]) == "" then [] else [Text.Trim(pieces[0])]) + TrimmedPieces(pieces[1..])
  }

  /** What the running host serves with, of the settings that are not device rows. */
  datatype Replayed = Replayed(
    turnUrls: seq<string>,
    turnUsername: string,
    turnCredential: string,
    graceSecs: nat,
    legacyVolumeKeyProxy: bool)

  /** `set_turn_config` splits and trims, the grace period is cut to 32 bits and then clamped. */
  function Apply(globals: SavedGlobals): Replayed {
    Replayed(
      TrimmedPieces(Pieces(globals.turnUrls, ',')),
      Text.Trim(globals.turnUsername),
      Text.Trim(globals.turnCredential),
      Clamp(globals.graceSecs % Text.U32_BOUND, MAX_DISCONNECT_GRACE_SECS),
      globals.legacyVolumeKeyProxy)
  }

  function Clamp(n: nat, most: nat): nat { if n > most then most else n }

  /** The part of `apply_saved_config` that is not about devices. */
  function Replay(saved: map<string, Value>): Replayed { Apply(ReadGlobals(saved)) }

  // Settings that are not device rows

  datatype Setting = TurnUrls | TurnUsername | TurnCredential | Grace | KeyProxy

  /** The key `config set` takes for it. */
  function KeyOf(setting: Setting): seq<string> {
    match setting
    case TurnUrls => ["turnConfig", "urls"]
    case TurnUsername => ["turnConfig", "username"]
    case TurnCredential => ["turnConfig", "credential"]
    case Grace => ["disconnectGraceSecs"]
    case KeyProxy => ["legacyVolumeKeyProxy"]
  }

  /** The same settings with one of them changed to what a value says. */
  function Changed(globals: SavedGlobals, setting: Setting, value: Value): SavedGlobals {
    match setting
    case TurnUrls => globals.(turnUrls := Or(value.AsStr(), ""))
    case TurnUsername => globals.(turnUsername := Or(value.AsStr(), ""))
    case TurnCredential => globals.(turnCredential := Or(value.AsStr(), ""))
    case Grace => globals.(graceSecs := Or(value.AsU64(), DEFAULT_DISCONNECT_GRACE_SECS))
    case KeyProxy => globals.(legacyVolumeKeyProxy := Or(value.AsBool(), false))
  }

  lemma KeysDiffer(a: Setting, b: Setting)
    requires a != b
    ensures KeyOf(a)[0] != KeyOf(b)[0]
         || (|KeyOf(a)| == 2 && |KeyOf(b)| == 2 && KeyOf(a)[0] == "turnConfig" == KeyOf(b)[0] && KeyOf(a)[1] != KeyOf(b)[1])
  {
    assert "turnConfig"[0] == 't' && "disconnectGraceSecs"[0] == 'd' && "legacyVolumeKeyProxy"[0] == 'l';
    assert "urls"[1] == 'r' && "username"[1] == 's' && "credential"[1] == 'r' && "credential"[0] == 'c';
  }

  lemma KeyIsDeclared(setting: Setting)
    ensures KeyOf(setting) != [] && forall i | 0 <= i < |KeyOf(setting)| :: KeyOf(setting)[i] != ""
    ensures |KeyOf(setting)| == 2 ==> KeyOf(setting)[0] == "turnConfig"
    ensures |KeyOf(setting)| <= 2
  {
  }

  lemma TurnConfigIsObject()
    ensures FieldOf(CONFIG_FIELDS, "turnConfig") == Some(ObjectShape(TURN_CONFIG_FIELDS))
  {
    hide FieldOf;
    ConfigWellNamed();
    assert CONFIG_FIELDS[13] == Field("turnConfig", ObjectShape(TURN_CONFIG_FIELDS));
    UniqueField(CONFIG_FIELDS, 13);
  }

  /** After a write to the group, the group is an object. */
  lemma GroupStaysObject(saved: map<string, Value>, inner: string, value: Value)
    requires SetNested(CONFIG_FIELDS, saved, ["turnConfig", inner], value).Ok?
    ensures var after := SetNested(CONFIG_FIELDS, saved, ["turnConfig", inner], value).value;
            "turnConfig" in after && after["turnConfig"].Obj?
  {
    hide FieldOf, CONFIG_FIELDS, TURN_CONFIG_FIELDS;
    TurnConfigIsObject();
    assert ["turnConfig", inner][1..] == [inner];
    var container, step, child :=
      PlaceStep(Obj(saved).Get("turnConfig"), Some(ObjectShape(TURN_CONFIG_FIELDS)), [inner], value);
  }

  lemma SettingsApart(after: map<string, Value>, a: Setting, b: Setting)
    requires a != b && KeyOf(a)[0] in after
    requires |KeyOf(a)| == 2 ==> after[KeyOf(a)[0]].Obj?
    ensures Apart(Obj(after), KeyOf(a), KeyOf(b))
  {
    KeysDiffer(a, b);
    hide KeyOf;
    var p, q := KeyOf(a), KeyOf(b);
    if p[0] == q[0] {
      assert p[1..][0] == p[1] && q[1..][0] == q[1];
      assert Apart(after[p[0]], p[1..], q[1..]);
    }
  }

  /** What is found under every setting's key after a write to one of them. */
  lemma SettingAfterWrite(saved: map<string, Value>, setting: Setting, value: Value, other: Setting)
    requires SetNested(CONFIG_FIELDS, saved, KeyOf(setting), value).Ok?
    ensures var after := SetNested(CONFIG_FIELDS, saved, KeyOf(setting), value).value;
            DigFrom(Obj(after), KeyOf(other)) == if other == setting then Some(value) else DigFrom(Obj(saved), KeyOf(other))
  {
    hide Apart, DigFrom, Place, CONFIG_FIELDS;
    KeyIsDeclared(setting);
    var parts := KeyOf(setting);
    var after := SetNested(CONFIG_FIELDS, saved, parts, value).value;
    SetNestedIsPlace(CONFIG_FIELDS, saved, parts, value);
    var shape := Some(ObjectShape(CONFIG_FIELDS));
    if other == setting {
      PutGet(Some(Obj(saved)), shape, parts, value);
    } else {
      if |parts| == 2 {
        GroupStaysObject(saved, parts[1], value);
      }
      SettingsApart(after, setting, other);
      PutElsewhere(Some(Obj(saved)), shape, parts, KeyOf(other), value);
    }
  }

  /** A setting written through `config set` is what the host then serves with, as far as it can serve
      with it, and no other setting it serves with moves. */
  lemma WrittenSettingIsReplayed(saved: map<string, Value>, setting: Setting, value: Value)
    requires SetNested(CONFIG_FIELDS, saved, KeyOf(setting), value).Ok?
    ensures var after := SetNested(CONFIG_FIELDS, saved, KeyOf(setting), value).value;
            Replay(after) == Apply(Changed(ReadGlobals(saved), setting, value))
  {
    hide SetNested, DigFrom, CONFIG_FIELDS, Apply;
    SettingAfterWrite(saved, setting, value, TurnUrls);
    SettingAfterWrite(saved, setting, value, TurnUsername);
    SettingAfterWrite(saved, setting, value, TurnCredential);
    SettingAfterWrite(saved, setting, value, Grace);
    SettingAfterWrite(saved, setting, value, KeyProxy);
  }

  // Which of them are served as written

  function Join(pieces: seq<string>, c: char): string {
    if pieces == [] then ""
    else if |pieces| == 1 then pieces[0]
    else pieces[0] + [c] + Join(pieces[1..], c)
  }

  /** The host serves with the very value. */
  predicate ServedAs(r: Replayed, setting: Setting, value: Value) {
    match setting
    case TurnUrls => value == Str(Join(r.turnUrls, ','))
    case TurnUsername => value == Str(r.turnUsername)
    case TurnCredential => value == Str(r.turnCredential)
    case Grace => value.Num? && value.n.AsReal() == r.graceSecs as real
    case KeyProxy => value == Bool(r.legacyVolumeKeyProxy)
  }

  predicate Neat(piece: string) { piece != "" && Text.Trimmed(piece) }

  /** What a value has to be for that. The default grace period is served whatever is written. */
  ghost predicate Servable(setting: Setting, value: Value) {
    match setting
    case TurnUrls => value.Str? && (value.s == "" || forall piece | piece in Pieces(value.s, ',') :: Neat(piece))
    case TurnUsername => value.Str? && Text.Trimmed(value.s)
    case TurnCredential => value.Str? && Text.Trimmed(value.s)
    case Grace =>
      value.Num? && ((value.n.Int? && 0 <= value.n.i <= MAX_DISCONNECT_GRACE_SECS)
                     || value.n.AsReal() == DEFAULT_DISCONNECT_GRACE_SECS as real)
    case KeyProxy => value.Bool?
  }

  lemma TrimShortens(s: string)
    ensures |Text.Trim(s)| <= |s|
    ensures |Text.Trim(s)| == |s| ==> Text.Trim(s) == s
    ensures Text.Trim(s) == s <==> Text.Trimmed(s)
  {
    if Text.Trimmed(s) {
      assert s == [] + s + [];
      Text.TrimIs(s, [], s, []);
    }
  }

  lemma {:induction false} JoinPieces(s: string, c: char)
    ensures Join(Pieces(s, c), c) == s
    decreases |s|
  {
    match SplitAt(s, c)
    case None =>
    case Some(p) =>
      JoinPieces(p.1, c);
      assert Pieces(s, c)[1..] == Pieces(p.1, c);
  }

  /** The characters of the pieces and one more for each. */
  function Weight(pieces: seq<string>): nat {
    if pieces == [] then 0 else |pieces[0]| + 1 + Weight(pieces[1..])
  }

  lemma {:induction false} JoinWeight(pieces: seq<string>, c: char)
    ensures pieces != [] ==> |Join(pieces, c)| == Weight(pieces) - 1
  {
    if |pieces| > 1 {
      JoinWeight(pieces[1..], c);
    } else if pieces != [] {
      assert pieces[1..] == [];
    }
  }

  lemma {:induction false} TrimmedWeight(pieces: seq<string>)
    ensures Weight(TrimmedPieces(pieces)) <= Weight(pieces)
    ensures Weight(TrimmedPieces(pieces)) == Weight(pieces) <==> forall piece | piece in pieces :: Neat(piece)
    ensures (forall piece | piece in pieces :: Neat(piece)) ==> TrimmedPieces(pieces) == pieces
  {
    hide Text.Trim, Text.Trimmed;
    if pieces != [] {
      var rest := pieces[1..];
      TrimmedWeight(rest);
      TrimShortens(pieces[0]);
      assert forall piece :: piece in pieces <==> piece == pieces[0] || piece in rest;
      if Text.Trim(pieces[0]) == "" {
        assert TrimmedPieces(pieces) == TrimmedPieces(rest);
      } else {
        assert TrimmedPieces(pieces)[1..] == TrimmedPieces(rest);
      }
      if Neat(pieces[0]) {
        assert [pieces[0]] + rest == pieces;
      }
    }
  }

  lemma UrlsServedIff(s: string)
    ensures Join(TrimmedPieces(Pieces(s, ',')), ',') == s <==> s == "" || forall piece | piece in Pieces(s, ',') :: Neat(piece)
  {
    hide Text.Trim, Text.Trimmed, Neat, Weight, Join, Pieces;
    var pieces := Pieces(s, ',');
    var kept := TrimmedPieces(pieces);
    JoinPieces(s, ',');
    JoinWeight(pieces, ',');
    JoinWeight(kept, ',');
    TrimmedWeight(pieces);
    EmptyHasNoUrls();
    if kept == [] {
      JoinOfNone();
    }
  }

  lemma JoinOfNone()
    ensures Join([], ',') == ""
  {
  }

  lemma EmptyHasNoUrls()
    ensures Join(TrimmedPieces(Pieces("", ',')), ',') == ""
  {
    assert Pieces("", ',') == [""];
    assert Text.Trim("") == "";
  }

  /** An accepted write has the declared type of the setting. */
  lemma AcceptedType(saved: map<string, Value>, setting: Setting, value: Value)
    requires SetNested(CONFIG_FIELDS, saved, KeyOf(setting), value).Ok?
    ensures match setting
            case Grace => value.Num?
            case KeyProxy => value.Bool?
            case _ => value.Str?
  {
    hide FieldOf, CONFIG_FIELDS, TURN_CONFIG_FIELDS;
    SettingShapes();
    if |KeyOf(setting)| == 2 {
      var inner := KeyOf(setting)[1];
      assert KeyOf(setting)[1..] == [inner];
      var container, step, child :=
        PlaceStep(Obj(saved).Get("turnConfig"), Some(ObjectShape(TURN_CONFIG_FIELDS)), [inner], value);
    }
  }

  lemma SettingShapes()
    ensures FieldOf(CONFIG_FIELDS, "turnConfig") == Some(ObjectShape(TURN_CONFIG_FIELDS))
    ensures FieldOf(CONFIG_FIELDS, "disconnectGraceSecs") == Some(IntShape)
    ensures FieldOf(CONFIG_FIELDS, "legacyVolumeKeyProxy") == Some(BoolShape)
    ensures FieldOf(TURN_CONFIG_FIELDS, "urls") == Some(StrShape)
    ensures FieldOf(TURN_CONFIG_FIELDS, "username") == Some(StrShape)
    ensures FieldOf(TURN_CONFIG_FIELDS, "credential") == Some(StrShape)
  {
    hide FieldOf;
    ConfigWellNamed();
    GroupsWellNamed();
    TurnConfigIsObject();
    assert CONFIG_FIELDS[10] == Field("disconnectGraceSecs", IntShape);
    assert CONFIG_FIELDS[8] == Field("legacyVolumeKeyProxy", BoolShape);
    UniqueField(CONFIG_FIELDS, 10);
    UniqueField(CONFIG_FIELDS, 8);
    UniqueField(TURN_CONFIG_FIELDS, 0);
    UniqueField(TURN_CONFIG_FIELDS, 1);
    UniqueField(TURN_CONFIG_FIELDS, 2);
  }

  /** An accepted write is served as written exactly when the value is one the host can serve with: a
      grace period stored as a whole number from 0 to 600, texts without blanks around them. */
  lemma ServedAsWrittenIff(saved: map<string, Value>, setting: Setting, value: Value)
    requires SetNested(CONFIG_FIELDS, saved, KeyOf(setting), value).Ok?
    ensures var after := SetNested(CONFIG_FIELDS, saved, KeyOf(setting), value).value;
            ServedAs(Replay(after), setting, value) <==> Servable(setting, value)
  {
    hide SetNested, CONFIG_FIELDS, ReadGlobals, Text.Trim, Text.Trimmed, Pieces, Join, TrimmedPieces;
    AcceptedType(saved, setting, value);
    WrittenSettingIsReplayed(saved, setting, value);
    if value.Str? {
      TrimShortens(value.s);
      UrlsServedIff(value.s);
    }
  }

  // Whole numbers

  /** What is served of a grace period that is in the store. */
  lemma GraceOf(saved: map<string, Value>)
    requires "disconnectGraceSecs" in saved
    ensures Replay(saved).graceSecs
         == Clamp(Or(saved["disconnectGraceSecs"].AsU64(), DEFAULT_DISCONNECT_GRACE_SECS) % Text.U32_BOUND, MAX_DISCONNECT_GRACE_SECS)
  {
    hide Pieces, TrimmedPieces, Text.Trim, SavedStr;
    DigOne(saved, "disconnectGraceSecs");
  }

  /** Whatever number a store has for the grace period, it is the one served exactly when it is stored
      without a fraction part and is from 0 to 600, or happens to be the default. `30.0` is accepted by
      the shape and read as absent, 700 is served as 600, and 2^32 + 5 as 5. */
  lemma GraceIsReplayedExactlyWhen(saved: map<string, Value>, n: Number)
    requires "disconnectGraceSecs" in saved && saved["disconnectGraceSecs"] == Num(n)
    ensures Replay(saved).graceSecs as real == n.AsReal()
      <==> (n.Int? && 0 <= n.i <= MAX_DISCONNECT_GRACE_SECS) || n.AsReal() == DEFAULT_DISCONNECT_GRACE_SECS as real
  {
    hide Replay;
    GraceOf(saved);
  }

  /** The declared type, no fault reported, and yet the default. */
  lemma WholeFloatIsNotRead()
    ensures var saved := map["disconnectGraceSecs" := Num(Float(30.0))];
            Faults(CONFIG, Obj(saved), []) == [] && Replay(saved).graceSecs == DEFAULT_DISCONNECT_GRACE_SECS
  {
    hide Replay;
    var saved := map["disconnectGraceSecs" := Num(Float(30.0))];
    GraceOf(saved);
    NoFaultsIsConforms(CONFIG, Obj(saved), []);
    forall i | 0 <= i < |CONFIG_FIELDS| && CONFIG_FIELDS[i].name in saved ensures CONFIG_FIELDS[i].shape == IntShape {
    }
  }

  /** No fault, stored without a fraction part, and cut or clamped on the way. */
  lemma LargeGraceIsNotServed()
    ensures var cut := map["disconnectGraceSecs" := Num(Int(4294967301))];
            Replay(cut).graceSecs == 5
    ensures var clamped := map["disconnectGraceSecs" := Num(Int(700))];
            Replay(clamped).graceSecs == 600
  {
    hide Replay;
    GraceOf(map["disconnectGraceSecs" := Num(Int(4294967301))]);
    GraceOf(map["disconnectGraceSecs" := Num(Int(700))]);
  }

  /** The same for a number of a device row, which is cut to 32 bits and nothing else on the way out of
      the store. */
  lemma RowNumberIsReadExactlyWhen(row: map<string, Value>, key: string, n: Number, default: nat)
    requires key in row && row[key] == Num(n) && default < Text.U32_BOUND
    ensures NumOf(Obj(row), key, default) as real == n.AsReal()
      <==> (n.Int? && 0 <= n.i < Text.U32_BOUND) || n.AsReal() == default as real
  {
  }

  // Device rows

  predicate Says(row: map<string, Value>, key: string, value: Value) { key in row && row[key] == value }

  predicate SaysText(row: map<string, Value>, key: string, text: Option<string>) {
    match text case Some(t) => Says(row, key, Str(t)) case None => key !in row
  }

  /** The row of `devices` gives everything a replay uses, each thing under its own key. */
  predicate SpellsOut(row: map<string, Value>, d: SavedDevice) {
    && Says(row, "ip", Str(d.ip))
    && SaysText(row, "token", d.token)
    && Says(row, "scale", Num(Int(d.scale)))
    && Says(row, "refreshRate", Num(Int(d.refreshRate)))
    && Says(row, "videoScale", Num(Int(d.videoScale)))
    && Says(row, "videoQuality", Num(Int(d.videoQuality)))
    && Says(row, "orientation", Str(d.orientation))
    && Says(row, "pointerScope", Str(d.pointerScope))
    && SaysText(row, "audioOutputDeviceId", d.audioOutput)
    && (Says(row, "dpr", Num(Float(d.dpr))) || (d.dpr.Floor as real == d.dpr && Says(row, "dpr", Num(Int(d.dpr.Floor)))))
    && Says(row, "remoteControl", Bool(d.control))
    && Says(row, "systemAudio", Bool(d.audio))
    && Says(row, "autoFrameRate", Bool(d.autoFrameRate))
    && Says(row, "adaptiveQuality", Bool(d.adaptiveQuality))
    && Says(row, "nativeDpr", Bool(d.nativeDpr))
    && Says(row, "autoOrientation", Bool(d.autoOrientation))
  }

  lemma TextReadsBack(row: map<string, Value>, key: string, text: Option<string>)
    requires SaysText(row, key, text)
    ensures StrOf(Obj(row), key) == text
  {
  }

  lemma NumberReadsBack(row: map<string, Value>, key: string, n: nat, default: nat)
    requires Says(row, key, Num(Int(n))) && n < Text.U32_BOUND
    ensures NumOf(Obj(row), key, default) == n
  {
  }

  lemma SwitchReadsBack(row: map<string, Value>, key: string, on: bool)
    requires Says(row, key, Bool(on))
    ensures BoolOf(Obj(row), key) == Some(on)
  {
  }

  lemma TokenReadsBack(row: map<string, Value>, token: Option<string>)
    requires SaysText(row, "token", token) && (token.Some? ==> token.value != "" && Text.Trimmed(token.value))
    ensures TokenOf(Obj(row)) == token
  {
    TextReadsBack(row, "token", token);
    if token.Some? {
      assert token.value == [] + token.value + [];
      Text.TrimIs(token.value, [], token.value, []);
    }
  }

  /** A row that spells a device out is read as that device, whatever else the row holds. */
  lemma RowReadsBack(d: SavedDevice, row: map<string, Value>)
    requires SpellsOut(row, d)
    requires d.token.Some? ==> d.token.value != "" && Text.Trimmed(d.token.value)
    requires d.token.Some? || d.ip != ""
    requires d.scale < Text.U32_BOUND && d.refreshRate < Text.U32_BOUND
    requires d.videoScale < Text.U32_BOUND && d.videoQuality < Text.U32_BOUND
    ensures ReadDevice(Obj(row)) == Some(d)
  {
    assert F64Of(Obj(row), "dpr") == Some(d.dpr);
    assert SaysText(row, "ip", Some(d.ip)) && SaysText(row, "orientation", Some(d.orientation))
        && SaysText(row, "pointerScope", Some(d.pointerScope));
    hide Says, SaysText, StrOf, NumOf, BoolOf, F64Of, TokenOf;
    TokenReadsBack(row, d.token);
    TextReadsBack(row, "ip", Some(d.ip));
    TextReadsBack(row, "orientation", Some(d.orientation));
    TextReadsBack(row, "pointerScope", Some(d.pointerScope));
    TextReadsBack(row, "audioOutputDeviceId", d.audioOutput);
    NumberReadsBack(row, "scale", d.scale, 100);
    NumberReadsBack(row, "refreshRate", d.refreshRate, 60);
    NumberReadsBack(row, "videoScale", d.videoScale, 100);
    NumberReadsBack(row, "videoQuality", d.videoQuality, 15);
    SwitchReadsBack(row, "remoteControl", d.control);
    SwitchReadsBack(row, "systemAudio", d.audio);
    SwitchReadsBack(row, "autoFrameRate", d.autoFrameRate);
    SwitchReadsBack(row, "adaptiveQuality", d.adaptiveQuality);
    SwitchReadsBack(row, "nativeDpr", d.nativeDpr);
    SwitchReadsBack(row, "autoOrientation", d.autoOrientation);
  }
}
