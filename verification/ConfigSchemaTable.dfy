/** `configJsonSchema` (`src/lib/config-schema.ts`) and `defaultConfig`
    (`src/lib/config-defaults.ts`), with the descriptions left out. */
module ConfigSchemaTable {
  import opened Wrappers
  import opened Json
  import opened Schema
  import opened Normalize
  import opened ConfigTable
  import S = Shape

  const STR: Schema := StringS(None, None, None, None, None)

  function ShortStr(maxLength: nat, pattern: Option<Pattern>): Schema {
    StringS(None, None, Some(maxLength), pattern, None)
  }

  function PatternStr(pattern: Pattern): Schema {
    StringS(None, None, None, Some(pattern), None)
  }

  function OneOf(choices: seq<string>, default: string): Schema {
    StringS(Some(choices), None, None, None, Some(Str(default)))
  }

  function Switch(default: bool): Schema { BooleanS(Some(Bool(default))) }

  function Whole(minimum: int, maximum: int, default: int): Schema {
    IntegerS(Some(minimum as real), Some(maximum as real), Some(Num(Int(default))))
  }

  function Ratio(minimum: real, maximum: real): Schema {
    NumberS(Some(minimum), Some(maximum), Some(Num(Int(1))))
  }

  const DEVICE_PROPERTIES: seq<Property> := [
    Property("ip", STR),
    Property("token", STR),
    Property("name", STR),
    Property("scale", Whole(25, 200, 100)),
    Property("orientation", OneOf(["Portrait", "Landscape"], "Landscape")),
    Property("refreshRate", Whole(15, 550, 60)),
    Property("videoScale", Whole(10, 100, 100)),
    Property("videoQuality", Whole(1, 51, 23)),
    Property("remoteControl", Switch(false)),
    Property("pointerScope", OneOf(["display", "all"], "all")),
    Property("autoFrameRate", Switch(false)),
    Property("adaptiveQuality", Switch(false)),
    Property("nativeDpr", Switch(true)),
    Property("autoOrientation", Switch(true)),
    Property("systemAudio", Switch(false)),
    Property("audioOutputDeviceId", STR),
    Property("audioOutputDeviceLabel", STR),
    Property("os", STR),
    Property("screenSize", STR),
    Property("dpr", Ratio(1.0, 4.0)),
    Property("maxDpr", Ratio(1.0, 4.0))
  ]

  const KNOWN_DEVICE_PROPERTIES: seq<Property> := [
    Property("token", STR),
    Property("ip", STR),
    Property("name", STR),
    Property("os", STR),
    Property("screenSize", STR),
    Property("lastSeen", IntegerS(Some(0.0), None, Some(Num(Int(0))))),
    Property("banned", Switch(false))
  ]

  const SERVER_PORTS_PROPERTIES: seq<Property> :=
    [Property("http", Whole(1, 65535, 8080)), Property("https", Whole(1, 65535, 8443))]

  const HOSTED_NETWORK_PROPERTIES: seq<Property> := [
    Property("name", ShortStr(32, Some(Pattern(false, ["ScreenExtend"])))),
    Property("password", ShortStr(63, None))
  ]

  const TURN_CONFIG_PROPERTIES: seq<Property> := [
    Property("urls", PatternStr(Pattern(true, ["turn:", "turns:"]))),
    Property("username", STR),
    Property("credential", STR)
  ]

  const DONT_SHOW_AGAIN_PROPERTIES: seq<Property> := [
    Property("editDevice", Switch(false)),
    Property("editNetwork", Switch(false)),
    Property("compatibility", Switch(false)),
    Property("configEditor", Switch(false))
  ]

  const DRIVER_REPAIR_PROPERTIES: seq<Property> := [
    Property("boot", STR),
    Property("install", Whole(0, 99, 0)),
    Property("reinstall", Whole(0, 99, 0)),
    Property("relaunch", Whole(0, 99, 0))
  ]

  const DEVICE: Schema := ObjectS(DEVICE_PROPERTIES, ["ip"], true, None)
  const KNOWN_DEVICE: Schema := ObjectS(KNOWN_DEVICE_PROPERTIES, ["ip"], true, None)
  const SERVER_PORTS: Schema := ObjectS(SERVER_PORTS_PROPERTIES, ["http", "https"], true, None)
  const HOSTED_NETWORK: Schema := ObjectS(HOSTED_NETWORK_PROPERTIES, ["name", "password"], true, None)
  const TURN_CONFIG: Schema := ObjectS(TURN_CONFIG_PROPERTIES, ["urls", "username", "credential"], true, None)
  const DONT_SHOW_AGAIN: Schema := ObjectS(DONT_SHOW_AGAIN_PROPERTIES, ["editDevice", "editNetwork", "compatibility"], true, None)
  const DRIVER_REPAIR: Schema := ObjectS(DRIVER_REPAIR_PROPERTIES, ["boot", "install", "reinstall", "relaunch"], true, None)

  const PROPERTIES: seq<Property> := [
    Property("name", STR),
    Property("theme", OneOf(["system", "light", "dark"], "system")),
    Property("devices", ArrayS(DEVICE, Some(Arr([])))),
    Property("knownDevices", ArrayS(KNOWN_DEVICE, Some(Arr([])))),
    Property("sessionPassword", STR),
    Property("publicSessionsEnabled", Switch(true)),
    Property("zoomFactor", Ratio(0.5, 2.0)),
    Property("disableGpuEncode", Switch(false)),
    Property("legacyVolumeKeyProxy", Switch(false)),
    Property("walkthroughCompleted", Switch(false)),
    Property("disconnectGraceSecs", Whole(0, 600, 10)),
    Property("serverPorts", SERVER_PORTS),
    Property("hostedNetworkCredentials", HOSTED_NETWORK),
    Property("turnConfig", TURN_CONFIG),
    Property("stunUrls", PatternStr(Pattern(true, ["stun:", "stuns:"]))),
    Property("dontShowAgain", DONT_SHOW_AGAIN),
    Property("driverRepair", DRIVER_REPAIR)
  ]

  const REQUIRED: seq<string> := [
    "name", "theme", "devices", "knownDevices", "sessionPassword", "publicSessionsEnabled", "zoomFactor",
    "disableGpuEncode", "legacyVolumeKeyProxy", "walkthroughCompleted", "disconnectGraceSecs", "serverPorts",
    "hostedNetworkCredentials", "turnConfig", "stunUrls", "dontShowAgain", "driverRepair"
  ]

  const CONFIG_SCHEMA: Schema := ObjectS(PROPERTIES, REQUIRED, true, None)

  /** `defaultConfig`, key by key in its order. */
  const DEFAULTS: seq<(string, Value)> := [
    ("name", Str("")),
    ("theme", Str("system")),
    ("devices", Arr([])),
    ("knownDevices", Arr([])),
    ("sessionPassword", Str("")),
    ("publicSessionsEnabled", Bool(true)),
    ("zoomFactor", Num(Int(1))),
    ("disableGpuEncode", Bool(false)),
    ("legacyVolumeKeyProxy", Bool(false)),
    ("walkthroughCompleted", Bool(false)),
    ("disconnectGraceSecs", Num(Int(10))),
    ("serverPorts", Obj(map["http" := Num(Int(8080)), "https" := Num(Int(8443))])),
    ("hostedNetworkCredentials", Obj(map["name" := Str(""), "password" := Str("")])),
    ("turnConfig", Obj(map["urls" := Str(""), "username" := Str(""), "credential" := Str("")])),
    ("stunUrls", Str("stun:stun.l.google.com:19302")),
    ("dontShowAgain", Obj(map[
      "editDevice" := Bool(false), "editNetwork" := Bool(false),
      "compatibility" := Bool(false), "configEditor" := Bool(false)])),
    ("driverRepair", Obj(map[
      "boot" := Str(""), "install" := Num(Int(0)), "reinstall" := Num(Int(0)), "relaunch" := Num(Int(0))]))
  ]

  // The two tables agree

  /** A property list and a field list declare the same thing. */
  ghost predicate SameTable(properties: seq<Property>, fields: seq<S.Field>) {
    && |properties| == |fields|
    && forall i | 0 <= i < |properties| :: properties[i].name == fields[i].name && Erase(properties[i].schema) == fields[i].shape
  }

  lemma ErasedTable(properties: seq<Property>, required: seq<string>, closed: bool, default: Option<Value>, fields: seq<S.Field>)
    requires SameTable(properties, fields)
    ensures Erase(ObjectS(properties, required, closed, default)) == S.ObjectShape(fields)
  {
    assert Erase(ObjectS(properties, required, closed, default)).fields == fields;
  }

  lemma DeviceNamesMatch()
    ensures |DEVICE_PROPERTIES| == |DEVICE_FIELDS|
    ensures forall i | 0 <= i < |DEVICE_PROPERTIES| :: DEVICE_PROPERTIES[i].name == DEVICE_FIELDS[i].name
  {
  }

  lemma DeviceTablesMatch()
    ensures SameTable(DEVICE_PROPERTIES, DEVICE_FIELDS)
  {
    DeviceNamesMatch();
  }

  lemma KnownDeviceTablesMatch()
    ensures SameTable(KNOWN_DEVICE_PROPERTIES, KNOWN_DEVICE_FIELDS)
  {
  }

  lemma NetworkTablesMatch()
    ensures SameTable(SERVER_PORTS_PROPERTIES, SERVER_PORTS_FIELDS)
    ensures SameTable(HOSTED_NETWORK_PROPERTIES, HOSTED_NETWORK_FIELDS)
    ensures SameTable(TURN_CONFIG_PROPERTIES, TURN_CONFIG_FIELDS)
  {
  }

  lemma CounterTablesMatch()
    ensures SameTable(DONT_SHOW_AGAIN_PROPERTIES, DONT_SHOW_AGAIN_FIELDS)
    ensures SameTable(DRIVER_REPAIR_PROPERTIES, DRIVER_REPAIR_FIELDS)
  {
  }

  lemma TablesErase()
    ensures Erase(DEVICE) == S.ObjectShape(DEVICE_FIELDS)
    ensures Erase(KNOWN_DEVICE) == S.ObjectShape(KNOWN_DEVICE_FIELDS)
    ensures Erase(SERVER_PORTS) == S.ObjectShape(SERVER_PORTS_FIELDS)
    ensures Erase(HOSTED_NETWORK) == S.ObjectShape(HOSTED_NETWORK_FIELDS)
    ensures Erase(TURN_CONFIG) == S.ObjectShape(TURN_CONFIG_FIELDS)
    ensures Erase(DONT_SHOW_AGAIN) == S.ObjectShape(DONT_SHOW_AGAIN_FIELDS)
    ensures Erase(DRIVER_REPAIR) == S.ObjectShape(DRIVER_REPAIR_FIELDS)
  {
    hide Erase, SameTable, DEVICE_PROPERTIES, DEVICE_FIELDS, KNOWN_DEVICE_PROPERTIES, KNOWN_DEVICE_FIELDS,
      SERVER_PORTS_PROPERTIES, SERVER_PORTS_FIELDS, HOSTED_NETWORK_PROPERTIES, HOSTED_NETWORK_FIELDS,
      TURN_CONFIG_PROPERTIES, TURN_CONFIG_FIELDS, DONT_SHOW_AGAIN_PROPERTIES, DONT_SHOW_AGAIN_FIELDS,
      DRIVER_REPAIR_PROPERTIES, DRIVER_REPAIR_FIELDS;
    DeviceTablesMatch();
    KnownDeviceTablesMatch();
    NetworkTablesMatch();
    CounterTablesMatch();
    ErasedTable(DEVICE_PROPERTIES, DEVICE.required, true, None, DEVICE_FIELDS);
    ErasedTable(KNOWN_DEVICE_PROPERTIES, KNOWN_DEVICE.required, true, None, KNOWN_DEVICE_FIELDS);
    ErasedTable(SERVER_PORTS_PROPERTIES, SERVER_PORTS.required, true, None, SERVER_PORTS_FIELDS);
    ErasedTable(HOSTED_NETWORK_PROPERTIES, HOSTED_NETWORK.required, true, None, HOSTED_NETWORK_FIELDS);
    ErasedTable(TURN_CONFIG_PROPERTIES, TURN_CONFIG.required, true, None, TURN_CONFIG_FIELDS);
    ErasedTable(DONT_SHOW_AGAIN_PROPERTIES, DONT_SHOW_AGAIN.required, true, None, DONT_SHOW_AGAIN_FIELDS);
    ErasedTable(DRIVER_REPAIR_PROPERTIES, DRIVER_REPAIR.required, true, None, DRIVER_REPAIR_FIELDS);
  }

  lemma ConfigTablesMatch()
    ensures SameTable(PROPERTIES, CONFIG_FIELDS)
  {
    hide DEVICE, KNOWN_DEVICE, SERVER_PORTS, HOSTED_NETWORK, TURN_CONFIG, DONT_SHOW_AGAIN, DRIVER_REPAIR, DEVICE_FIELDS,
      KNOWN_DEVICE_FIELDS, SERVER_PORTS_FIELDS, HOSTED_NETWORK_FIELDS, TURN_CONFIG_FIELDS, DONT_SHOW_AGAIN_FIELDS,
      DRIVER_REPAIR_FIELDS;
    TablesErase();
  }

  /** The host's shape table is the editor's schema with ranges, enums and defaults erased. */
  lemma ShapeIsErasedSchema()
    ensures Erase(CONFIG_SCHEMA) == CONFIG
  {
    ConfigTablesMatch();
    ErasedTable(PROPERTIES, REQUIRED, true, None, CONFIG_FIELDS);
  }

  // The schema is well formed

  lemma TableWellFormed(properties: seq<Property>, required: seq<string>, fields: seq<S.Field>)
    requires SameTable(properties, fields) && S.WellNamed(S.ObjectShape(fields))
    requires forall key | key in required :: exists i :: 0 <= i < |properties| && properties[i].name == key
    requires forall i | 0 <= i < |properties| :: WellFormed(properties[i].schema)
    ensures WellFormed(ObjectS(properties, required, true, None))
  {
    forall i, j | 0 <= i < j < |properties| ensures properties[i].name != properties[j].name {
      assert fields[i].name != fields[j].name;
    }
    forall key | key in required ensures PropertyOf(properties, key).Some? {
      var i :| 0 <= i < |properties| && properties[i].name == key;
    }
  }

  lemma DevicePropertiesWellFormed()
    ensures forall i | 0 <= i < |DEVICE_PROPERTIES| :: WellFormed(DEVICE_PROPERTIES[i].schema)
    ensures |DEVICE_PROPERTIES| > 0 && DEVICE_PROPERTIES[0].name == "ip"
  {
    hide PropertyOf;
  }

  lemma KnownDevicePropertiesWellFormed()
    ensures forall i | 0 <= i < |KNOWN_DEVICE_PROPERTIES| :: WellFormed(KNOWN_DEVICE_PROPERTIES[i].schema)
    ensures |KNOWN_DEVICE_PROPERTIES| > 1 && KNOWN_DEVICE_PROPERTIES[1].name == "ip"
  {
    hide PropertyOf;
  }

  lemma RowsWellFormed()
    ensures WellFormed(DEVICE) && WellFormed(KNOWN_DEVICE)
  {
    hide WellFormed, SameTable, S.WellNamed, DEVICE_PROPERTIES, DEVICE_FIELDS, KNOWN_DEVICE_PROPERTIES, KNOWN_DEVICE_FIELDS;
    DeviceTablesMatch();
    KnownDeviceTablesMatch();
    DeviceWellNamed();
    KnownDeviceWellNamed();
    DevicePropertiesWellFormed();
    KnownDevicePropertiesWellFormed();
    TableWellFormed(DEVICE_PROPERTIES, ["ip"], DEVICE_FIELDS);
    TableWellFormed(KNOWN_DEVICE_PROPERTIES, ["ip"], KNOWN_DEVICE_FIELDS);
  }

  /** A prefix of the property names is a fair `required` list. */
  lemma PrefixWellFormed(properties: seq<Property>, required: seq<string>, fields: seq<S.Field>)
    requires SameTable(properties, fields) && S.WellNamed(S.ObjectShape(fields))
    requires NamesPrefix(required, properties)
    requires forall i | 0 <= i < |properties| :: WellFormed(properties[i].schema)
    ensures WellFormed(ObjectS(properties, required, true, None))
  {
    forall key | key in required ensures exists i :: 0 <= i < |properties| && properties[i].name == key {
      var i :| 0 <= i < |required| && required[i] == key;
      assert properties[i].name == key;
    }
    TableWellFormed(properties, required, fields);
  }

  lemma NetworkPropertiesWellFormed()
    ensures forall i | 0 <= i < |SERVER_PORTS_PROPERTIES| :: WellFormed(SERVER_PORTS_PROPERTIES[i].schema)
    ensures forall i | 0 <= i < |HOSTED_NETWORK_PROPERTIES| :: WellFormed(HOSTED_NETWORK_PROPERTIES[i].schema)
    ensures forall i | 0 <= i < |TURN_CONFIG_PROPERTIES| :: WellFormed(TURN_CONFIG_PROPERTIES[i].schema)
  {
    hide PropertyOf;
  }

  lemma CounterPropertiesWellFormed()
    ensures forall i | 0 <= i < |DONT_SHOW_AGAIN_PROPERTIES| :: WellFormed(DONT_SHOW_AGAIN_PROPERTIES[i].schema)
    ensures forall i | 0 <= i < |DRIVER_REPAIR_PROPERTIES| :: WellFormed(DRIVER_REPAIR_PROPERTIES[i].schema)
  {
    hide PropertyOf;
  }

  /** The required names of a group are the first of its properties. */
  ghost predicate NamesPrefix(required: seq<string>, properties: seq<Property>) {
    |required| <= |properties| && forall i | 0 <= i < |required| :: required[i] == properties[i].name
  }

  lemma RequiredArePrefixes()
    ensures NamesPrefix(SERVER_PORTS.required, SERVER_PORTS_PROPERTIES)
    ensures NamesPrefix(HOSTED_NETWORK.required, HOSTED_NETWORK_PROPERTIES)
    ensures NamesPrefix(TURN_CONFIG.required, TURN_CONFIG_PROPERTIES)
    ensures NamesPrefix(DONT_SHOW_AGAIN.required, DONT_SHOW_AGAIN_PROPERTIES)
    ensures NamesPrefix(DRIVER_REPAIR.required, DRIVER_REPAIR_PROPERTIES)
  {
  }

  lemma NetworkGroupsWellFormed()
    ensures WellFormed(SERVER_PORTS) && WellFormed(HOSTED_NETWORK) && WellFormed(TURN_CONFIG)
  {
    hide WellFormed, SameTable, S.WellNamed, SERVER_PORTS_PROPERTIES, SERVER_PORTS_FIELDS, HOSTED_NETWORK_PROPERTIES,
      HOSTED_NETWORK_FIELDS, TURN_CONFIG_PROPERTIES, TURN_CONFIG_FIELDS;
    NetworkTablesMatch();
    GroupsWellNamed();
    NetworkPropertiesWellFormed();
    RequiredArePrefixes();
    PrefixWellFormed(SERVER_PORTS_PROPERTIES, SERVER_PORTS.required, SERVER_PORTS_FIELDS);
    PrefixWellFormed(HOSTED_NETWORK_PROPERTIES, HOSTED_NETWORK.required, HOSTED_NETWORK_FIELDS);
    PrefixWellFormed(TURN_CONFIG_PROPERTIES, TURN_CONFIG.required, TURN_CONFIG_FIELDS);
  }

  lemma CounterGroupsWellFormed()
    ensures WellFormed(DONT_SHOW_AGAIN) && WellFormed(DRIVER_REPAIR)
  {
    hide WellFormed, SameTable, S.WellNamed, DONT_SHOW_AGAIN_PROPERTIES, DONT_SHOW_AGAIN_FIELDS, DRIVER_REPAIR_PROPERTIES,
      DRIVER_REPAIR_FIELDS;
    CounterTablesMatch();
    GroupsWellNamed();
    CounterPropertiesWellFormed();
    RequiredArePrefixes();
    PrefixWellFormed(DONT_SHOW_AGAIN_PROPERTIES, DONT_SHOW_AGAIN.required, DONT_SHOW_AGAIN_FIELDS);
    PrefixWellFormed(DRIVER_REPAIR_PROPERTIES, DRIVER_REPAIR.required, DRIVER_REPAIR_FIELDS);
  }

  predicate IsGroup(i: int) { i == 2 || i == 3 || 11 <= i <= 13 || i == 15 || i == 16 }

  lemma ScalarsWellFormed()
    ensures forall i | 0 <= i < |PROPERTIES| && !IsGroup(i) :: WellFormed(PROPERTIES[i].schema)
  {
  }

  lemma ListWellFormed(items: Schema)
    requires WellFormed(items)
    ensures WellFormed(ArrayS(items, Some(Arr([]))))
  {
  }

  lemma GroupsWellFormed()
    ensures forall i | 0 <= i < |PROPERTIES| && IsGroup(i) :: WellFormed(PROPERTIES[i].schema)
  {
    hide WellFormed, DEVICE, KNOWN_DEVICE, SERVER_PORTS, HOSTED_NETWORK, TURN_CONFIG, DONT_SHOW_AGAIN, DRIVER_REPAIR;
    RowsWellFormed();
    NetworkGroupsWellFormed();
    CounterGroupsWellFormed();
    ListWellFormed(DEVICE);
    ListWellFormed(KNOWN_DEVICE);
  }

  lemma PropertiesWellFormed()
    ensures forall i | 0 <= i < |PROPERTIES| :: WellFormed(PROPERTIES[i].schema)
  {
    ScalarsWellFormed();
    GroupsWellFormed();
  }

  lemma SchemaWellFormed()
    ensures WellFormed(CONFIG_SCHEMA)
  {
    hide WellFormed, SameTable, NamesPrefix, S.WellNamed, PROPERTIES, REQUIRED, CONFIG_FIELDS;
    PropertiesWellFormed();
    ConfigWellNamed();
    ConfigTablesMatch();
    RequiredIsEveryProperty();
    PrefixWellFormed(PROPERTIES, REQUIRED, CONFIG_FIELDS);
  }

  lemma RequiredIsEveryProperty()
    ensures NamesPrefix(REQUIRED, PROPERTIES) && |REQUIRED| == |PROPERTIES|
  {
  }

  // The runtime defaults have the declared shape

  lemma DefaultsNamed()
    ensures |DEFAULTS| == |PROPERTIES| && forall i | 0 <= i < |DEFAULTS| :: DEFAULTS[i].0 == PROPERTIES[i].name
  {
  }

  lemma GroupDefaultsFull()
    ensures Full(SERVER_PORTS, DEFAULTS[11].1) && Full(HOSTED_NETWORK, DEFAULTS[12].1)
    ensures Full(TURN_CONFIG, DEFAULTS[13].1)
  {
  }

  lemma CounterDefaultsFull()
    ensures Full(DONT_SHOW_AGAIN, DEFAULTS[15].1) && Full(DRIVER_REPAIR, DEFAULTS[16].1)
  {
  }

  lemma DefaultsFull()
    ensures forall i | 0 <= i < |DEFAULTS| :: Full(PROPERTIES[i].schema, DEFAULTS[i].1)
  {
    GroupDefaultsFull();
    CounterDefaultsFull();
    DefaultsNamed();
  }
}
