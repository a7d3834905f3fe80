/** The tables of `src-tauri/src/cli.rs` that declare the shape of `config.json`. */
module ConfigTable {
  import opened Shape

  const DEVICE_FIELDS: seq<Field> := [
    Field("ip", StrShape),
    Field("token", StrShape),
    Field("name", StrShape),
    Field("scale", IntShape),
    Field("orientation", StrShape),
    Field("refreshRate", IntShape),
    Field("videoScale", IntShape),
    Field("videoQuality", IntShape),
    Field("remoteControl", BoolShape),
    Field("pointerScope", StrShape),
    Field("autoFrameRate", BoolShape),
    Field("adaptiveQuality", BoolShape),
    Field("nativeDpr", BoolShape),
    Field("autoOrientation", BoolShape),
    Field("systemAudio", BoolShape),
    Field("audioOutputDeviceId", StrShape),
    Field("audioOutputDeviceLabel", StrShape),
    Field("os", StrShape),
    Field("screenSize", StrShape),
    Field("dpr", NumShape),
    Field("maxDpr", NumShape)
  ]

  const KNOWN_DEVICE_FIELDS: seq<Field> := [
    Field("token", StrShape),
    Field("ip", StrShape),
    Field("name", StrShape),
    Field("os", StrShape),
    Field("screenSize", StrShape),
    Field("lastSeen", IntShape),
    Field("banned", BoolShape)
  ]

  const SERVER_PORTS_FIELDS: seq<Field> := [Field("http", IntShape), Field("https", IntShape)]

  const HOSTED_NETWORK_FIELDS: seq<Field> := [Field("name", StrShape), Field("password", StrShape)]

  const TURN_CONFIG_FIELDS: seq<Field> :=
    [Field("urls", StrShape), Field("username", StrShape), Field("credential", StrShape)]

  const DONT_SHOW_AGAIN_FIELDS: seq<Field> := [
    Field("editDevice", BoolShape),
    Field("editNetwork", BoolShape),
    Field("compatibility", BoolShape),
    Field("configEditor", BoolShape)
  ]

  const DRIVER_REPAIR_FIELDS: seq<Field> := [
    Field("boot", StrShape),
    Field("install", IntShape),
    Field("reinstall", IntShape),
    Field("relaunch", IntShape)
  ]

  const CONFIG_FIELDS: seq<Field> := [
    Field("name", StrShape),
    Field("theme", StrShape),
    Field("devices", ArrayShape(ObjectShape(DEVICE_FIELDS))),
    Field("knownDevices", ArrayShape(ObjectShape(KNOWN_DEVICE_FIELDS))),
    Field("sessionPassword", StrShape),
    Field("publicSessionsEnabled", BoolShape),
    Field("zoomFactor", NumShape),
    Field("disableGpuEncode", BoolShape),
    Field("legacyVolumeKeyProxy", BoolShape),
    Field("walkthroughCompleted", BoolShape),
    Field("disconnectGraceSecs", IntShape),
    Field("serverPorts", ObjectShape(SERVER_PORTS_FIELDS)),
    Field("hostedNetworkCredentials", ObjectShape(HOSTED_NETWORK_FIELDS)),
    Field("turnConfig", ObjectShape(TURN_CONFIG_FIELDS)),
    Field("stunUrls", StrShape),
    Field("dontShowAgain", ObjectShape(DONT_SHOW_AGAIN_FIELDS)),
    Field("driverRepair", ObjectShape(DRIVER_REPAIR_FIELDS))
  ]

  const CONFIG: Shape := ObjectShape(CONFIG_FIELDS)

  lemma DeviceNamesDistinct()
    ensures forall i, j | 0 <= i < 5 && i < j < |DEVICE_FIELDS| :: DEVICE_FIELDS[i].name != DEVICE_FIELDS[j].name
  {
  }

  lemma DeviceNamesDistinctMiddle()
    ensures forall i, j | 5 <= i < 12 && i < j < |DEVICE_FIELDS| :: DEVICE_FIELDS[i].name != DEVICE_FIELDS[j].name
  {
  }

  lemma DeviceNamesDistinctEnd()
    ensures forall i, j | 12 <= i < j < |DEVICE_FIELDS| :: DEVICE_FIELDS[i].name != DEVICE_FIELDS[j].name
  {
  }

  lemma DeviceFieldsAreScalars()
    ensures forall i | 0 <= i < |DEVICE_FIELDS| :: !DEVICE_FIELDS[i].shape.ArrayShape? && !DEVICE_FIELDS[i].shape.ObjectShape?
  {
  }

  lemma DeviceWellNamed()
    ensures WellNamed(ObjectShape(DEVICE_FIELDS))
  {
    hide DEVICE_FIELDS;
    DeviceNamesDistinct();
    DeviceNamesDistinctMiddle();
    DeviceNamesDistinctEnd();
    DeviceFieldsAreScalars();
  }

  lemma KnownDeviceWellNamed()
    ensures WellNamed(ObjectShape(KNOWN_DEVICE_FIELDS))
  {
  }

  lemma GroupsWellNamed()
    ensures WellNamed(ObjectShape(SERVER_PORTS_FIELDS))
    ensures WellNamed(ObjectShape(HOSTED_NETWORK_FIELDS))
    ensures WellNamed(ObjectShape(TURN_CONFIG_FIELDS))
    ensures WellNamed(ObjectShape(DONT_SHOW_AGAIN_FIELDS))
    ensures WellNamed(ObjectShape(DRIVER_REPAIR_FIELDS))
  {
    CounterGroupsWellNamed();
  }

  lemma CounterGroupsWellNamed()
    ensures WellNamed(ObjectShape(DONT_SHOW_AGAIN_FIELDS))
    ensures WellNamed(ObjectShape(DRIVER_REPAIR_FIELDS))
  {
  }

  lemma ConfigNamesDistinct()
    ensures forall i, j | 0 <= i < j < |CONFIG_FIELDS| :: CONFIG_FIELDS[i].name != CONFIG_FIELDS[j].name
  {
  }

  /** No key of `config.json` is declared twice, at any depth. */
  lemma ConfigWellNamed()
    ensures WellNamed(CONFIG)
  {
    DeviceWellNamed();
    KnownDeviceWellNamed();
    GroupsWellNamed();
    ConfigNamesDistinct();
    forall i | 0 <= i < |CONFIG_FIELDS| ensures WellNamed(CONFIG_FIELDS[i].shape) {
      assert CONFIG_FIELDS[2].shape == ArrayShape(ObjectShape(DEVICE_FIELDS));
    }
  }
}
