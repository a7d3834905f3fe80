/** The host's readers of a saved config (`src-tauri/src/cli.rs`), and what deleting every value
    it complains about does to them: nothing. */
module ConfigReaders {
  import opened Wrappers
  import opened Json
  import opened Shape
  import opened ConfigPath
  import opened ConfigTable
  import Text

  const DEFAULT_DISCONNECT_GRACE_SECS: nat := 10

  /** `config_faults`: the store's keys in whatever order it holds them, undeclared ones skipped. */
  method ConfigFaults(saved: map<string, Value>) returns (out: seq<Path>)
    ensures forall p: Path :: p in out <==> p in Faults(CONFIG, Obj(saved), [])
  {
    ConfigWellNamed();
    out := [];
    var keys := saved.Keys;
    while keys != {}
      invariant keys <= saved.Keys
      invariant forall p: Path ::
        p in out <==> (p != [] && p[0].Key? && p[0].name in saved.Keys - keys && FaultAt(CONFIG, Obj(saved), p))
    {
      var key :| key in keys;
      var declared := FieldOf(CONFIG_FIELDS, key);
      ghost var before := out;
      if declared.Some? {
        assert WellNamed(declared.value);
        out := PushFaults(declared.value, saved[key], [Key(key)], out);
        forall p: Path ensures p in out <==> p in before || ([Key(key)] <= p && FaultAt(CONFIG, Obj(saved), p)) {
          FaultsExact(declared.value, saved[key], [Key(key)], p);
        }
      }
      keys := keys - {key};
    }
    forall p: Path ensures p in out <==> p in Faults(CONFIG, Obj(saved), []) {
      FaultsExact(CONFIG, Obj(saved), [], p);
      assert p[0..] == p;
    }
  }

  // The readers

  function StrOf(v: Value, key: string): Option<string> {
    match v.Get(key) case Some(x) => x.AsStr() case None => None
  }

  function U64Of(v: Value, key: string): Option<nat> {
    match v.Get(key) case Some(x) => x.AsU64() case None => None
  }

  function BoolOf(v: Value, key: string): Option<bool> {
    match v.Get(key) case Some(x) => x.AsBool() case None => None
  }

  function F64Of(v: Value, key: string): Option<real> {
    match v.Get(key) case Some(x) => x.AsF64() case None => None
  }

  function Or<T>(o: Option<T>, default: T): T {
    match o case Some(x) => x case None => default
  }

  datatype SavedGlobals = SavedGlobals(
    turnUrls: string,
    turnUsername: string,
    turnCredential: string,
    graceSecs: nat,
    legacyVolumeKeyProxy: bool)

  /** `saved_str`. */
  function SavedStr(saved: map<string, Value>, parts: seq<string>): Option<string> {
    match DigFrom(Obj(saved), parts) case Some(v) => v.AsStr() case None => None
  }

  function ReadGlobals(saved: map<string, Value>): SavedGlobals {
    SavedGlobals(
      Or(SavedStr(saved, ["turnConfig", "urls"]), ""),
      Or(SavedStr(saved, ["turnConfig", "username"]), ""),
      Or(SavedStr(saved, ["turnConfig", "credential"]), ""),
      Or(match DigFrom(Obj(saved), ["disconnectGraceSecs"]) case Some(v) => v.AsU64() case None => None,
         DEFAULT_DISCONNECT_GRACE_SECS),
      Or(match DigFrom(Obj(saved), ["legacyVolumeKeyProxy"]) case Some(v) => v.AsBool() case None => None, false))
  }

  /** `saved_rows`: the rows of an array-valued key, or none. */
  function SavedRows(saved: map<string, Value>, key: string): seq<Value> {
    if key in saved && saved[key].Arr? then saved[key].items else []
  }

  function FilterMap<T>(f: Value -> Option<T>, rows: seq<Value>): seq<T> {
    if rows == [] then []
    else
      var last := |rows| - 1;
      FilterMap(f, rows[..last]) + (match f(rows[last]) case Some(t) => [t] case None => [])
  }

  datatype SavedTrust = SavedTrust(token: string, ip: string, banned: bool)

  function ReadTrust(device: Value): Option<SavedTrust> {
    var token := Text.Trim(Or(StrOf(device, "token"), ""));
    var ip := Text.Trim(Or(StrOf(device, "ip"), ""));
    if token == "" && ip == "" then None
    else Some(SavedTrust(token, ip, Or(BoolOf(device, "banned"), false)))
  }

  datatype SavedDevice = SavedDevice(
    token: Option<string>,
    ip: string,
    scale: nat,
    orientation: string,
    refreshRate: nat,
    videoScale: nat,
    videoQuality: nat,
    control: bool,
    dpr: real,
    audio: bool,
    pointerScope: string,
    autoFrameRate: bool,
    adaptiveQuality: bool,
    nativeDpr: bool,
    autoOrientation: bool,
    audioOutput: Option<string>)

  /** `n as u32` keeps the low 32 bits. */
  function NumOf(device: Value, key: string, default: nat): nat {
    match U64Of(device, key) case Some(n) => n % Text.U32_BOUND case None => default
  }

  function TokenOf(device: Value): Option<string> {
    match StrOf(device, "token")
    case None => None
    case Some(t) => if Text.Trim(t) == "" then None else Some(Text.Trim(t))
  }

  function ReadDevice(device: Value): Option<SavedDevice> {
    var ip := Or(StrOf(device, "ip"), "");
    var token := TokenOf(device);
    if token.None? && ip == "" then None
    else Some(SavedDevice(
      token,
      ip,
      NumOf(device, "scale", 100),
      Or(StrOf(device, "orientation"), "Landscape"),
      NumOf(device, "refreshRate", 60),
      NumOf(device, "videoScale", 100),
      NumOf(device, "videoQuality", 15),
      Or(BoolOf(device, "remoteControl"), true),
      Or(F64Of(device, "dpr"), 1.0),
      Or(BoolOf(device, "systemAudio"), false),
      Or(StrOf(device, "pointerScope"), "all"),
      Or(BoolOf(device, "autoFrameRate"), false),
      Or(BoolOf(device, "adaptiveQuality"), false),
      Or(BoolOf(device, "nativeDpr"), true),
      Or(BoolOf(device, "autoOrientation"), true),
      StrOf(device, "audioOutputDeviceId")))
  }

  function ParseSavedTrust(known: seq<Value>): seq<SavedTrust> { FilterMap(ReadTrust, known) }

  function ParseSavedDevices(devices: seq<Value>): seq<SavedDevice> { FilterMap(ReadDevice, devices) }

  // Deleting the faults

  /** The document with every value at one of the `gone` positions deleted: fields leave the
      object they are in, rows leave their array and the later rows move up. */
  function Without(v: Value, at: Path, gone: set<Path>): Value {
    match v
    case Obj(fields) => Obj(map k | k in fields && at + [Key(k)] !in gone :: Without(fields[k], at + [Key(k)], gone))
    case Arr(items) => Arr(RowsWithout(items, at, gone))
    case _ => v
  }

  function RowsWithout(rows: seq<Value>, at: Path, gone: set<Path>): seq<Value> {
    if rows == [] then []
    else
      var last := |rows| - 1;
      RowsWithout(rows[..last], at, gone)
      + (if at + [Index(last)] in gone then [] else [Without(rows[last], at + [Index(last)], gone)])
  }

  function FaultSet(saved: map<string, Value>): set<Path> {
    set p | p in Faults(CONFIG, Obj(saved), [])
  }

  function Cleaned(saved: map<string, Value>): map<string, Value> {
    Without(Obj(saved), [], FaultSet(saved)).fields
  }

  /** `gone` deletes exactly the faults of this part of the document. */
  ghost predicate Deletes(gone: set<Path>, at: Path, shape: Shape, v: Value) {
    forall rel: Path :: at + rel in gone <==> FaultAt(shape, v, rel)
  }

  lemma DeletesWhole(saved: map<string, Value>)
    ensures Deletes(FaultSet(saved), [], CONFIG, Obj(saved))
  {
    ConfigWellNamed();
    forall rel: Path ensures [] + rel in FaultSet(saved) <==> FaultAt(CONFIG, Obj(saved), rel) {
      FaultsExact(CONFIG, Obj(saved), [], [] + rel);
      assert ([] + rel)[0..] == rel;
    }
  }

  lemma DeletesBelow(gone: set<Path>, at: Path, shape: Shape, v: Value, step: Step)
    requires Deletes(gone, at, shape, v) && Accepts(shape, v)
    requires Below(shape, step).Some? && Child(v, step).Some?
    ensures Deletes(gone, at + [step], Below(shape, step).value, Child(v, step).value)
    ensures at + [step] in gone <==> !Accepts(Below(shape, step).value, Child(v, step).value)
  {
    forall rel: Path
      ensures at + [step] + rel in gone <==> FaultAt(Below(shape, step).value, Child(v, step).value, rel)
    {
      assert at + [step] + rel == at + ([step] + rel);
      assert ([step] + rel)[1..] == rel;
    }
    assert at + [step] + [] == at + [step];
  }

  /** A declared field of an accepted object, after the deletion: there exactly when its value is
      of the declared kind. */
  lemma FieldWithout(gone: set<Path>, at: Path, fields: seq<Field>, v: Value, i: nat)
    requires WellNamed(ObjectShape(fields)) && i < |fields| && v.Obj?
    requires Deletes(gone, at, ObjectShape(fields), v)
    ensures var name, shape, after := fields[i].name, fields[i].shape, Without(v, at, gone);
            && after.Obj?
            && (after.Get(name).Some? <==> v.Get(name).Some? && Accepts(shape, v.Get(name).value))
            && (after.Get(name).Some? ==>
                  && after.Get(name).value == Without(v.Get(name).value, at + [Key(name)], gone)
                  && Deletes(gone, at + [Key(name)], shape, v.Get(name).value))
  {
    UniqueField(fields, i);
    if v.Get(fields[i].name).Some? {
      DeletesBelow(gone, at, ObjectShape(fields), v, Key(fields[i].name));
    }
  }

  /** Two values give the same answer to the typed read of a declared scalar field. */
  predicate SameRead(f: Field, a: Value, b: Value) {
    match f.shape
    case StrShape => StrOf(a, f.name) == StrOf(b, f.name)
    case IntShape => U64Of(a, f.name) == U64Of(b, f.name)
    case BoolShape => BoolOf(a, f.name) == BoolOf(b, f.name)
    case NumShape => F64Of(a, f.name) == F64Of(b, f.name)
    case _ => true
  }

  /** All the scalar fields of a table read the same. */
  predicate SameReads(fields: seq<Field>, a: Value, b: Value) {
    forall i | 0 <= i < |fields| :: SameRead(fields[i], a, b)
  }

  lemma ScalarWithout(gone: set<Path>, at: Path, fields: seq<Field>, v: Value, i: nat)
    requires WellNamed(ObjectShape(fields)) && i < |fields| && v.Obj?
    requires Deletes(gone, at, ObjectShape(fields), v)
    ensures SameRead(fields[i], Without(v, at, gone), v)
  {
    FieldWithout(gone, at, fields, v, i);
  }

  lemma ScalarsWithout(gone: set<Path>, at: Path, fields: seq<Field>, v: Value)
    requires WellNamed(ObjectShape(fields)) && v.Obj?
    requires Deletes(gone, at, ObjectShape(fields), v)
    ensures SameReads(fields, Without(v, at, gone), v)
  {
    forall i | 0 <= i < |fields| ensures SameRead(fields[i], Without(v, at, gone), v) {
      ScalarWithout(gone, at, fields, v, i);
    }
  }

  /** The readers look at nothing but declared scalar fields. */
  lemma TrustField(i: nat, f: Field, a: Value, b: Value)
    requires i < |KNOWN_DEVICE_FIELDS| && KNOWN_DEVICE_FIELDS[i] == f
    requires SameReads(KNOWN_DEVICE_FIELDS, a, b)
    ensures SameRead(f, a, b)
  {
  }

  lemma TrustReadsFields(a: Value, b: Value)
    requires SameReads(KNOWN_DEVICE_FIELDS, a, b)
    ensures ReadTrust(a) == ReadTrust(b)
  {
    hide SameReads, StrOf, BoolOf;
    TrustField(0, Field("token", StrShape), a, b);
    TrustField(1, Field("ip", StrShape), a, b);
    TrustField(6, Field("banned", BoolShape), a, b);
  }

  // The typed reads `ReadDevice` makes, by name

  predicate SameIdentityReads(a: Value, b: Value) {
    && StrOf(a, "ip") == StrOf(b, "ip")
    && StrOf(a, "token") == StrOf(b, "token")
  }

  predicate SameNumberReads(a: Value, b: Value) {
    && U64Of(a, "scale") == U64Of(b, "scale")
    && U64Of(a, "refreshRate") == U64Of(b, "refreshRate")
    && U64Of(a, "videoScale") == U64Of(b, "videoScale")
    && U64Of(a, "videoQuality") == U64Of(b, "videoQuality")
    && F64Of(a, "dpr") == F64Of(b, "dpr")
  }

  predicate SameTextReads(a: Value, b: Value) {
    && StrOf(a, "orientation") == StrOf(b, "orientation")
    && StrOf(a, "pointerScope") == StrOf(b, "pointerScope")
    && StrOf(a, "audioOutputDeviceId") == StrOf(b, "audioOutputDeviceId")
  }

  predicate SameSwitchReads(a: Value, b: Value) {
    && BoolOf(a, "remoteControl") == BoolOf(b, "remoteControl")
    && BoolOf(a, "autoFrameRate") == BoolOf(b, "autoFrameRate")
    && BoolOf(a, "adaptiveQuality") == BoolOf(b, "adaptiveQuality")
    && BoolOf(a, "nativeDpr") == BoolOf(b, "nativeDpr")
    && BoolOf(a, "autoOrientation") == BoolOf(b, "autoOrientation")
    && BoolOf(a, "systemAudio") == BoolOf(b, "systemAudio")
  }

  lemma DeviceField(i: nat, f: Field, a: Value, b: Value)
    requires i < |DEVICE_FIELDS| && DEVICE_FIELDS[i] == f
    requires SameReads(DEVICE_FIELDS, a, b)
    ensures SameRead(f, a, b)
  {
  }

  lemma SameIdentityReadsHold(a: Value, b: Value)
    requires SameReads(DEVICE_FIELDS, a, b)
    ensures SameIdentityReads(a, b)
  {
    hide SameReads, StrOf, U64Of, BoolOf, F64Of;
    DeviceField(0, Field("ip", StrShape), a, b);
    DeviceField(1, Field("token", StrShape), a, b);
  }

  lemma SameNumberReadsHold(a: Value, b: Value)
    requires SameReads(DEVICE_FIELDS, a, b)
    ensures SameNumberReads(a, b)
  {
    hide SameReads, StrOf, U64Of, BoolOf, F64Of;
    DeviceField(3, Field("scale", IntShape), a, b);
    DeviceField(5, Field("refreshRate", IntShape), a, b);
    DeviceField(6, Field("videoScale", IntShape), a, b);
    DeviceField(7, Field("videoQuality", IntShape), a, b);
    DeviceField(19, Field("dpr", NumShape), a, b);
  }

  lemma SameTextReadsHold(a: Value, b: Value)
    requires SameReads(DEVICE_FIELDS, a, b)
    ensures SameTextReads(a, b)
  {
    hide SameReads, StrOf, U64Of, BoolOf, F64Of;
    DeviceField(4, Field("orientation", StrShape), a, b);
    DeviceField(9, Field("pointerScope", StrShape), a, b);
    DeviceField(15, Field("audioOutputDeviceId", StrShape), a, b);
  }

  lemma SameSwitchReadsHold(a: Value, b: Value)
    requires SameReads(DEVICE_FIELDS, a, b)
    ensures SameSwitchReads(a, b)
  {
    hide SameReads, StrOf, U64Of, BoolOf, F64Of;
    DeviceField(8, Field("remoteControl", BoolShape), a, b);
    DeviceField(10, Field("autoFrameRate", BoolShape), a, b);
    DeviceField(11, Field("adaptiveQuality", BoolShape), a, b);
    DeviceField(12, Field("nativeDpr", BoolShape), a, b);
    DeviceField(13, Field("autoOrientation", BoolShape), a, b);
    DeviceField(14, Field("systemAudio", BoolShape), a, b);
  }

  lemma ReadDeviceFromReads(a: Value, b: Value)
    requires SameIdentityReads(a, b) && SameNumberReads(a, b) && SameTextReads(a, b) && SameSwitchReads(a, b)
    ensures ReadDevice(a) == ReadDevice(b)
  {
    hide StrOf, U64Of, BoolOf, F64Of;
  }

  lemma TrustWithout(gone: set<Path>, at: Path, row: Value)
    requires row.Obj? && Deletes(gone, at, ObjectShape(KNOWN_DEVICE_FIELDS), row)
    ensures ReadTrust(Without(row, at, gone)) == ReadTrust(row)
  {
    KnownDeviceWellNamed();
    ScalarsWithout(gone, at, KNOWN_DEVICE_FIELDS, row);
    TrustReadsFields(Without(row, at, gone), row);
  }

  lemma DeviceWithout(gone: set<Path>, at: Path, row: Value)
    requires row.Obj? && Deletes(gone, at, ObjectShape(DEVICE_FIELDS), row)
    ensures ReadDevice(Without(row, at, gone)) == ReadDevice(row)
  {
    DeviceWellNamed();
    ScalarsWithout(gone, at, DEVICE_FIELDS, row);
    var after := Without(row, at, gone);
    SameIdentityReadsHold(after, row);
    SameNumberReadsHold(after, row);
    SameTextReadsHold(after, row);
    SameSwitchReadsHold(after, row);
    ReadDeviceFromReads(after, row);
  }

  /** A reader of one row that skips what is not an object and reads the rest the same with and
      without its faults. */
  ghost predicate RowReader<T(!new)>(f: Value -> Option<T>, item: Shape) {
    && item.ObjectShape?
    && (forall v: Value | !v.Obj? :: f(v).None?)
    && (forall gone, at, v: Value | v.Obj? && Deletes(gone, at, item, v) :: f(Without(v, at, gone)) == f(v))
  }

  lemma RowReadsTheSame<T(!new)>(f: Value -> Option<T>, item: Shape, gone: set<Path>, at: Path, all: seq<Value>, n: nat)
    requires RowReader(f, item) && n < |all|
    requires Deletes(gone, at, ArrayShape(item), Arr(all))
    ensures at + [Index(n)] in gone ==> f(all[n]).None?
    ensures at + [Index(n)] !in gone ==> f(Without(all[n], at + [Index(n)], gone)) == f(all[n])
  {
    DeletesBelow(gone, at, ArrayShape(item), Arr(all), Index(n));
  }

  lemma FilterMapAppend<T>(f: Value -> Option<T>, rows: seq<Value>, row: Value)
    ensures FilterMap(f, rows + [row]) == FilterMap(f, rows) + (match f(row) case Some(t) => [t] case None => [])
  {
    assert (rows + [row])[..|rows|] == rows;
  }

  lemma {:induction false} RowsReadTheSame<T(!new)>(f: Value -> Option<T>, item: Shape, gone: set<Path>, at: Path, all: seq<Value>, n: nat)
    requires RowReader(f, item) && n <= |all|
    requires Deletes(gone, at, ArrayShape(item), Arr(all))
    ensures FilterMap(f, RowsWithout(all[..n], at, gone)) == FilterMap(f, all[..n])
  {
    if n > 0 {
      var last := n - 1;
      assert all[..n] == all[..last] + [all[last]] && all[..n][..last] == all[..last];
      RowsReadTheSame(f, item, gone, at, all, last);
      RowReadsTheSame(f, item, gone, at, all, last);
      FilterMapAppend(f, all[..last], all[last]);
      var kept := RowsWithout(all[..last], at, gone);
      if at + [Index(last)] !in gone {
        FilterMapAppend(f, kept, Without(all[last], at + [Index(last)], gone));
      } else {
        assert kept + [] == kept;
      }
    }
  }

  lemma RowsUnder<T(!new)>(f: Value -> Option<T>, saved: map<string, Value>, i: nat)
    requires i < |CONFIG_FIELDS| && CONFIG_FIELDS[i].shape.ArrayShape?
    requires RowReader(f, CONFIG_FIELDS[i].shape.item)
    ensures FilterMap(f, SavedRows(Cleaned(saved), CONFIG_FIELDS[i].name)) == FilterMap(f, SavedRows(saved, CONFIG_FIELDS[i].name))
  {
    var gone, key := FaultSet(saved), CONFIG_FIELDS[i].name;
    ConfigWellNamed();
    DeletesWhole(saved);
    FieldWithout(gone, [], CONFIG_FIELDS, Obj(saved), i);
    if key in saved && saved[key].Arr? {
      var rows := saved[key].items;
      RowsReadTheSame(f, CONFIG_FIELDS[i].shape.item, gone, [] + [Key(key)], rows, |rows|);
      assert rows[..|rows|] == rows;
    }
  }

  /** The saved devices read the same with every faulted value deleted. */
  lemma DevicesIgnoreFaults(saved: map<string, Value>)
    ensures ParseSavedDevices(SavedRows(Cleaned(saved), "devices")) == ParseSavedDevices(SavedRows(saved, "devices"))
  {
    forall gone, at, v: Value | v.Obj? && Deletes(gone, at, ObjectShape(DEVICE_FIELDS), v)
      ensures ReadDevice(Without(v, at, gone)) == ReadDevice(v)
    {
      DeviceWithout(gone, at, v);
    }
    assert CONFIG_FIELDS[2].name == "devices";
    RowsUnder(ReadDevice, saved, 2);
  }

  /** So do the bans and approvals. */
  lemma TrustIgnoresFaults(saved: map<string, Value>)
    ensures ParseSavedTrust(SavedRows(Cleaned(saved), "knownDevices")) == ParseSavedTrust(SavedRows(saved, "knownDevices"))
  {
    forall gone, at, v: Value | v.Obj? && Deletes(gone, at, ObjectShape(KNOWN_DEVICE_FIELDS), v)
      ensures ReadTrust(Without(v, at, gone)) == ReadTrust(v)
    {
      TrustWithout(gone, at, v);
    }
    assert CONFIG_FIELDS[3].name == "knownDevices";
    RowsUnder(ReadTrust, saved, 3);
  }

  lemma DigTwo(saved: map<string, Value>, outer: string, inner: string)
    requires ParseIndex(inner).None?
    ensures DigFrom(Obj(saved), [outer, inner]) == if outer in saved then saved[outer].Get(inner) else None
  {
    assert [outer, inner][1..] == [inner] && [inner][1..] == [];
    if outer in saved {
      var node := saved[outer];
      assert DigFrom(node, [inner]) == node.Get(inner);
    }
  }

  lemma TurnReadsTheSame(saved: map<string, Value>, j: nat)
    requires j < |TURN_CONFIG_FIELDS|
    ensures SavedStr(Cleaned(saved), ["turnConfig", TURN_CONFIG_FIELDS[j].name])
         == SavedStr(saved, ["turnConfig", TURN_CONFIG_FIELDS[j].name])
  {
    var gone, inner := FaultSet(saved), TURN_CONFIG_FIELDS[j].name;
    ConfigWellNamed();
    GroupsWellNamed();
    DeletesWhole(saved);
    assert CONFIG_FIELDS[13] == Field("turnConfig", ObjectShape(TURN_CONFIG_FIELDS));
    FieldWithout(gone, [], CONFIG_FIELDS, Obj(saved), 13);
    assert !Text.IsDigit(inner[0]);
    DigTwo(saved, "turnConfig", inner);
    DigTwo(Cleaned(saved), "turnConfig", inner);
    if "turnConfig" in saved && saved["turnConfig"].Obj? {
      ScalarWithout(gone, [] + [Key("turnConfig")], TURN_CONFIG_FIELDS, saved["turnConfig"], j);
    }
  }

  lemma TopReadsTheSame(saved: map<string, Value>, i: nat, f: Field)
    requires i < |CONFIG_FIELDS| && CONFIG_FIELDS[i] == f
    ensures SameRead(f, Obj(Cleaned(saved)), Obj(saved))
  {
    ConfigWellNamed();
    DeletesWhole(saved);
    ScalarWithout(FaultSet(saved), [], CONFIG_FIELDS, Obj(saved), i);
  }

  lemma DigOne(saved: map<string, Value>, key: string)
    ensures DigFrom(Obj(saved), [key]) == Obj(saved).Get(key)
  {
    assert [key][1..] == [];
  }

  lemma SwitchesReadTheSame(saved: map<string, Value>)
    ensures ReadGlobals(Cleaned(saved)).graceSecs == ReadGlobals(saved).graceSecs
    ensures ReadGlobals(Cleaned(saved)).legacyVolumeKeyProxy == ReadGlobals(saved).legacyVolumeKeyProxy
  {
    TopReadsTheSame(saved, 8, Field("legacyVolumeKeyProxy", BoolShape));
    TopReadsTheSame(saved, 10, Field("disconnectGraceSecs", IntShape));
    DigOne(saved, "legacyVolumeKeyProxy");
    DigOne(Cleaned(saved), "legacyVolumeKeyProxy");
    DigOne(saved, "disconnectGraceSecs");
    DigOne(Cleaned(saved), "disconnectGraceSecs");
  }

  lemma TurnNames()
    ensures TURN_CONFIG_FIELDS[0].name == "urls"
    ensures TURN_CONFIG_FIELDS[1].name == "username"
    ensures TURN_CONFIG_FIELDS[2].name == "credential"
  {
  }

  /** And so does everything that is not a device row. */
  lemma GlobalsIgnoreFaults(saved: map<string, Value>)
    ensures ReadGlobals(Cleaned(saved)) == ReadGlobals(saved)
  {
    TurnNames();
    TurnReadsTheSame(saved, 0);
    TurnReadsTheSame(saved, 1);
    TurnReadsTheSame(saved, 2);
    SwitchesReadTheSame(saved);
  }
}
