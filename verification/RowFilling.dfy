/** What the web view's repair of a saved device row changes about what the host reads of it: the two
    do not take the same defaults (`src/lib/config-schema.ts` and `src/lib/apply-config.ts` against
    `src-tauri/src/cli.rs`). */
module RowFilling {
  import opened Wrappers
  import opened Json
  import opened ConfigReaders
  import opened RowReading
  import Text
  import Schema
  import N = Normalize
  import L = NormalizeLocal
  import P = ConfigProvider
  import T = ConfigSchemaTable

  /** The row once the web view has filled in every key of its schema. */
  function Filled(row: map<string, Value>): Value { N.Coerce(T.DEVICE, Obj(row), [], None).value }

  /** A plain setting of a sound row: kept when it is there, the schema's default when it is not. */
  lemma FilledField(properties: seq<Schema.Property>, row: map<string, Value>, i: nat)
    requires Schema.DistinctNames(properties) && i < |properties|
    requires !properties[i].schema.ArrayS? && !properties[i].schema.ObjectS?
    requires properties[i].name in row ==> N.Sound(properties[i].schema, row[properties[i].name])
    ensures var key, out := properties[i].name, N.CoerceFields(properties, row, [], None).value.fields;
            key in out && out[key] == if key in row then row[key] else N.DefaultFor(properties[i].schema, None)
  {
    var key := properties[i].name;
    P.PropertyFound(properties, i);
    L.FieldCoerced(properties, row, [], None, key);
    hide N.CoerceFields, N.DefaultFor, Schema.PropertyOf;
  }

  /** The setting reads as stored, or as this default. */
  predicate FilledAt(row: map<string, Value>, key: string, default: Value) {
    Filled(row).Obj? && key in Filled(row).fields && Filled(row).fields[key] == if key in row then row[key] else default
  }

  lemma FilledAtIndex(row: map<string, Value>, i: nat, key: string, default: Value)
    requires N.Sound(T.DEVICE, Obj(row))
    requires i < |T.DEVICE_PROPERTIES| && T.DEVICE_PROPERTIES[i].name == key
    requires !T.DEVICE_PROPERTIES[i].schema.ArrayS? && !T.DEVICE_PROPERTIES[i].schema.ObjectS?
    requires N.DefaultFor(T.DEVICE_PROPERTIES[i].schema, None) == default
    ensures FilledAt(row, key, default)
  {
    DeviceNames();
    hide T.DEVICE_PROPERTIES, Schema.DistinctNames, N.DefaultFor, N.CoerceFields;
    FilledField(T.DEVICE_PROPERTIES, row, i);
  }

  lemma DeviceNames()
    ensures Schema.DistinctNames(T.DEVICE_PROPERTIES)
  {
    hide T.DEVICE_PROPERTIES, Schema.DistinctNames;
    T.RowsWellFormed();
  }

  lemma FilledTexts(row: map<string, Value>)
    requires N.Sound(T.DEVICE, Obj(row))
    ensures FilledAt(row, "ip", Str("")) && FilledAt(row, "token", Str("")) && FilledAt(row, "orientation", Str("Landscape"))
    ensures FilledAt(row, "pointerScope", Str("all")) && FilledAt(row, "audioOutputDeviceId", Str(""))
  {
    hide FilledAt, N.Sound;
    FilledAtIndex(row, 0, "ip", Str(""));
    FilledAtIndex(row, 1, "token", Str(""));
    FilledAtIndex(row, 4, "orientation", Str("Landscape"));
    FilledAtIndex(row, 9, "pointerScope", Str("all"));
    FilledAtIndex(row, 15, "audioOutputDeviceId", Str(""));
  }

  lemma FilledNumbers(row: map<string, Value>)
    requires N.Sound(T.DEVICE, Obj(row))
    ensures FilledAt(row, "scale", Num(Int(100))) && FilledAt(row, "refreshRate", Num(Int(60)))
    ensures FilledAt(row, "videoScale", Num(Int(100))) && FilledAt(row, "videoQuality", Num(Int(23)))
    ensures FilledAt(row, "dpr", Num(Int(1)))
  {
    hide FilledAt, N.Sound;
    FilledAtIndex(row, 3, "scale", Num(Int(100)));
    FilledAtIndex(row, 5, "refreshRate", Num(Int(60)));
    FilledAtIndex(row, 6, "videoScale", Num(Int(100)));
    FilledAtIndex(row, 7, "videoQuality", Num(Int(23)));
    FilledAtIndex(row, 19, "dpr", Num(Int(1)));
  }

  lemma FilledSwitches(row: map<string, Value>)
    requires N.Sound(T.DEVICE, Obj(row))
    ensures FilledAt(row, "remoteControl", Bool(false)) && FilledAt(row, "systemAudio", Bool(false))
    ensures FilledAt(row, "autoFrameRate", Bool(false)) && FilledAt(row, "adaptiveQuality", Bool(false))
    ensures FilledAt(row, "nativeDpr", Bool(true)) && FilledAt(row, "autoOrientation", Bool(true))
  {
    hide FilledAt, N.Sound;
    FilledAtIndex(row, 8, "remoteControl", Bool(false));
    FilledAtIndex(row, 10, "autoFrameRate", Bool(false));
    FilledAtIndex(row, 11, "adaptiveQuality", Bool(false));
    FilledAtIndex(row, 12, "nativeDpr", Bool(true));
    FilledAtIndex(row, 13, "autoOrientation", Bool(true));
    FilledAtIndex(row, 14, "systemAudio", Bool(false));
  }

  lemma TextReadSame(row: map<string, Value>, key: string, default: string)
    requires FilledAt(row, key, Str(default))
    ensures StrOf(Filled(row), key) == if key in row then StrOf(Obj(row), key) else Some(default)
  {
    hide Filled;
  }

  lemma SwitchReadSame(row: map<string, Value>, key: string, default: bool)
    requires FilledAt(row, key, Bool(default))
    ensures BoolOf(Filled(row), key) == if key in row then BoolOf(Obj(row), key) else Some(default)
  {
    hide Filled;
  }

  lemma NumberReadSame(row: map<string, Value>, key: string, written: nat, default: nat)
    requires FilledAt(row, key, Num(Int(written))) && written < Text.U32_BOUND
    ensures NumOf(Filled(row), key, default) == if key in row then NumOf(Obj(row), key, default) else written
  {
    hide Filled;
  }

  lemma RatioReadSame(row: map<string, Value>, key: string)
    requires FilledAt(row, key, Num(Int(1)))
    ensures F64Of(Filled(row), key) == if key in row then F64Of(Obj(row), key) else Some(1.0)
  {
    hide Filled;
  }

  lemma AbsentReads(row: map<string, Value>, key: string)
    requires key !in row
    ensures StrOf(Obj(row), key) == None && BoolOf(Obj(row), key) == None && F64Of(Obj(row), key) == None
    ensures forall default :: NumOf(Obj(row), key, default) == default
  {
  }

  /** The host takes another default than the web view for the quality, for the leave to control the host,
      and for an output nobody chose. A row with nothing wrong in it reads the same once the web view has
      filled it in but for those of the three it lacks. */
  lemma FilledRowIsRead(row: map<string, Value>)
    requires N.Sound(T.DEVICE, Obj(row))
    ensures ReadDevice(Filled(row))
         == match ReadDevice(Obj(row))
            case None => None
            case Some(d) => Some(d.(
              videoQuality := if "videoQuality" in row then d.videoQuality else 23,
              control := if "remoteControl" in row then d.control else false,
              audioOutput := if "audioOutputDeviceId" in row then d.audioOutput else Some("")))
  {
    hide StrOf, BoolOf, NumOf, F64Of, Filled, FilledAt, N.Sound, TokenOf;
    FilledTexts(row);
    FilledNumbers(row);
    FilledSwitches(row);
    TokenReadSame(row);
    TextsReadSame(row);
    NumbersReadSame(row);
    SwitchesReadSame(row);
  }

  lemma TokenReadSame(row: map<string, Value>)
    requires FilledAt(row, "token", Str(""))
    ensures TokenOf(Filled(row)) == TokenOf(Obj(row))
  {
    TextReadSame(row, "token", "");
    TrimOf("");
    hide Filled, FilledAt, Text.Trim;
  }

  lemma TextsReadSame(row: map<string, Value>)
    requires FilledAt(row, "ip", Str("")) && FilledAt(row, "orientation", Str("Landscape")) && FilledAt(row, "pointerScope", Str("all"))
    requires FilledAt(row, "audioOutputDeviceId", Str(""))
    ensures Or(StrOf(Filled(row), "ip"), "") == Or(StrOf(Obj(row), "ip"), "")
    ensures Or(StrOf(Filled(row), "orientation"), "Landscape") == Or(StrOf(Obj(row), "orientation"), "Landscape")
    ensures Or(StrOf(Filled(row), "pointerScope"), "all") == Or(StrOf(Obj(row), "pointerScope"), "all")
    ensures StrOf(Filled(row), "audioOutputDeviceId")
         == if "audioOutputDeviceId" in row then StrOf(Obj(row), "audioOutputDeviceId") else Some("")
  {
    TextReadSame(row, "ip", "");
    TextReadSame(row, "orientation", "Landscape");
    TextReadSame(row, "pointerScope", "all");
    TextReadSame(row, "audioOutputDeviceId", "");
    hide Filled, FilledAt;
  }

  lemma NumbersReadSame(row: map<string, Value>)
    requires FilledAt(row, "scale", Num(Int(100))) && FilledAt(row, "refreshRate", Num(Int(60)))
    requires FilledAt(row, "videoScale", Num(Int(100))) && FilledAt(row, "videoQuality", Num(Int(23))) && FilledAt(row, "dpr", Num(Int(1)))
    ensures NumOf(Filled(row), "scale", 100) == NumOf(Obj(row), "scale", 100)
    ensures NumOf(Filled(row), "refreshRate", 60) == NumOf(Obj(row), "refreshRate", 60)
    ensures NumOf(Filled(row), "videoScale", 100) == NumOf(Obj(row), "videoScale", 100)
    ensures NumOf(Filled(row), "videoQuality", 15) == if "videoQuality" in row then NumOf(Obj(row), "videoQuality", 15) else 23
    ensures Or(F64Of(Filled(row), "dpr"), 1.0) == Or(F64Of(Obj(row), "dpr"), 1.0)
  {
    NumberReadSame(row, "scale", 100, 100);
    NumberReadSame(row, "refreshRate", 60, 60);
    NumberReadSame(row, "videoScale", 100, 100);
    NumberReadSame(row, "videoQuality", 23, 15);
    RatioReadSame(row, "dpr");
    hide Filled, FilledAt;
  }

  lemma SwitchesReadSame(row: map<string, Value>)
    requires FilledAt(row, "remoteControl", Bool(false)) && FilledAt(row, "systemAudio", Bool(false))
    requires FilledAt(row, "autoFrameRate", Bool(false)) && FilledAt(row, "adaptiveQuality", Bool(false))
    requires FilledAt(row, "nativeDpr", Bool(true)) && FilledAt(row, "autoOrientation", Bool(true))
    ensures Or(BoolOf(Filled(row), "remoteControl"), true) == if "remoteControl" in row then Or(BoolOf(Obj(row), "remoteControl"), true) else false
    ensures Or(BoolOf(Filled(row), "systemAudio"), false) == Or(BoolOf(Obj(row), "systemAudio"), false)
    ensures Or(BoolOf(Filled(row), "autoFrameRate"), false) == Or(BoolOf(Obj(row), "autoFrameRate"), false)
    ensures Or(BoolOf(Filled(row), "adaptiveQuality"), false) == Or(BoolOf(Obj(row), "adaptiveQuality"), false)
    ensures Or(BoolOf(Filled(row), "nativeDpr"), true) == Or(BoolOf(Obj(row), "nativeDpr"), true)
    ensures Or(BoolOf(Filled(row), "autoOrientation"), true) == Or(BoolOf(Obj(row), "autoOrientation"), true)
  {
    SwitchReadSame(row, "remoteControl", false);
    SwitchReadSame(row, "systemAudio", false);
    SwitchReadSame(row, "autoFrameRate", false);
    SwitchReadSame(row, "adaptiveQuality", false);
    SwitchReadSame(row, "nativeDpr", true);
    SwitchReadSame(row, "autoOrientation", true);
    hide Filled, FilledAt;
  }

  /** So the repair of a file changes nothing for the host about such a row exactly when the row names no
      device or gives all three. */
  lemma RepairKeepsReadingIff(row: map<string, Value>)
    requires N.Sound(T.DEVICE, Obj(row))
    ensures ReadDevice(Filled(row)) == ReadDevice(Obj(row))
      <==> (ReadDevice(Obj(row)).None? || ("videoQuality" in row && "remoteControl" in row && "audioOutputDeviceId" in row))
  {
    FilledRowIsRead(row);
    if ReadDevice(Obj(row)).Some? { ThreeDefaults(row); }
    hide ReadDevice, Filled, N.Sound;
  }

  /** What the host reads of each of the three when it is not there. */
  lemma ThreeDefaults(row: map<string, Value>)
    requires ReadDevice(Obj(row)).Some?
    ensures var d := ReadDevice(Obj(row)).value;
            && ("videoQuality" !in row ==> d.videoQuality == 15)
            && ("remoteControl" !in row ==> d.control)
            && ("audioOutputDeviceId" !in row ==> d.audioOutput == None)
  {
    if "videoQuality" !in row { AbsentReads(row, "videoQuality"); }
    if "remoteControl" !in row { AbsentReads(row, "remoteControl"); }
    if "audioOutputDeviceId" !in row { AbsentReads(row, "audioOutputDeviceId"); }
    hide StrOf, BoolOf, NumOf, F64Of, TokenOf;
  }
}
