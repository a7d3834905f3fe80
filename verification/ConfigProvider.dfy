/** Reading the whole store as a config (`normalizeConfig` in `src/lib/config-normalize.ts`) and
    putting the corrected values back (`readStore` and `rewriteRepaired` in
    `src/components/config-provider.tsx`). */
module ConfigProvider {
  import opened Wrappers
  import opened Json
  import opened Schema
  import opened Normalize
  import T = ConfigSchemaTable
  import ConfigTable
  import S = Shape

  datatype Normalized = Normalized(config: map<string, Value>, notes: seq<Note>, repaired: seq<string>)

  /** One key of the config: the default when the store has nothing, the stored value when nothing
      is declared, the coerced value otherwise. */
  function NormalizeKey(properties: seq<Property>, key: string, default: Value, raw: map<string, Value>): Coerced {
    if key !in raw then Coerced(default, false, [])
    else
      match PropertyOf(properties, key)
      case None => Coerced(raw[key], false, [])
      case Some(schema) => Coerce(schema, raw[key], [Key(key)], Some(default))
  }

  function NormalizeConfig(properties: seq<Property>, defaults: seq<(string, Value)>, raw: map<string, Value>): Normalized {
    if defaults == [] then Normalized(map[], [], [])
    else
      var last := |defaults| - 1;
      var (key, default) := defaults[last];
      var before := NormalizeConfig(properties, defaults[..last], raw);
      var out := NormalizeKey(properties, key, default, raw);
      Normalized(
        before.config[key := out.value],
        before.notes + out.notes,
        before.repaired + (if out.changed then [key] else []))
  }

  /** The loop of `normalizeConfig` over the keys of the default config. */
  method NormalizeLoop(properties: seq<Property>, defaults: seq<(string, Value)>, raw: map<string, Value>)
    returns (result: Normalized)
    ensures result == NormalizeConfig(properties, defaults, raw)
  {
    var config, notes, repaired := map[], [], [];
    for i := 0 to |defaults|
      invariant Normalized(config, notes, repaired) == NormalizeConfig(properties, defaults[..i], raw)
    {
      assert defaults[..i + 1][..i] == defaults[..i];
      var (key, default) := defaults[i];
      if key !in raw {
        config := config[key := default];
      } else if PropertyOf(properties, key).None? {
        config := config[key := raw[key]];
      } else {
        var value, changed;
        value, changed, notes := CoerceInto(PropertyOf(properties, key).value, raw[key], [Key(key)], Some(default), notes);
        config := config[key := value];
        if changed {
          repaired := repaired + [key];
        }
      }
    }
    assert defaults[..|defaults|] == defaults;
    return Normalized(config, notes, repaired);
  }

  /** The defaults and the schema describe the same keys, once each, and the defaults have their
      declared shape. */
  ghost predicate Matched(properties: seq<Property>, defaults: seq<(string, Value)>) {
    && |defaults| == |properties|
    && DistinctNames(properties)
    && forall i | 0 <= i < |properties| ::
         && properties[i].name == defaults[i].0
         && WellFormed(properties[i].schema)
         && Full(properties[i].schema, defaults[i].1)
  }

  lemma {:induction false} PropertyFound(properties: seq<Property>, i: nat)
    requires DistinctNames(properties) && i < |properties|
    ensures PropertyOf(properties, properties[i].name) == Some(properties[i].schema)
  {
  }

  ghost predicate DistinctKeys(defaults: seq<(string, Value)>) {
    forall i, j | 0 <= i < j < |defaults| :: defaults[i].0 != defaults[j].0
  }

  /** The keys of the result. */
  lemma {:induction false} ConfigKeys(properties: seq<Property>, defaults: seq<(string, Value)>, raw: map<string, Value>)
    ensures NormalizeConfig(properties, defaults, raw).config.Keys == set i | 0 <= i < |defaults| :: defaults[i].0
  {
    if defaults != [] {
      var last := |defaults| - 1;
      ConfigKeys(properties, defaults[..last], raw);
      assert (set i | 0 <= i < |defaults| :: defaults[i].0) == (set i | 0 <= i < last :: defaults[..last][i].0) + {defaults[last].0};
    }
  }

  lemma {:induction false} RepairedAreKeys(properties: seq<Property>, defaults: seq<(string, Value)>, raw: map<string, Value>)
    ensures forall key | key in NormalizeConfig(properties, defaults, raw).repaired :: key in raw && exists i :: 0 <= i < |defaults| && defaults[i].0 == key
  {
    if defaults != [] {
      var last := |defaults| - 1;
      RepairedAreKeys(properties, defaults[..last], raw);
      assert forall i | 0 <= i < last :: defaults[..last][i] == defaults[i];
    }
  }

  /** What stands under a key, and whether it is reported. */
  lemma {:induction false} ConfigAt(properties: seq<Property>, defaults: seq<(string, Value)>, raw: map<string, Value>, i: nat)
    requires DistinctKeys(defaults) && i < |defaults|
    ensures var key, result := defaults[i].0, NormalizeConfig(properties, defaults, raw);
            var out := NormalizeKey(properties, key, defaults[i].1, raw);
            && key in result.config && result.config[key] == out.value
            && (key in result.repaired <==> out.changed)
  {
    var last := |defaults| - 1;
    RepairedAreKeys(properties, defaults[..last], raw);
    if i < last {
      ConfigAt(properties, defaults[..last], raw, i);
      assert defaults[i].0 != defaults[last].0;
    }
  }

  /** Whatever the store holds, the config has the whole declared shape and no key beyond it. */
  lemma ConfigIsFull(properties: seq<Property>, defaults: seq<(string, Value)>, raw: map<string, Value>)
    requires Matched(properties, defaults)
    ensures FullFields(properties, NormalizeConfig(properties, defaults, raw).config)
    ensures NormalizeConfig(properties, defaults, raw).config.Keys == set i | 0 <= i < |properties| :: properties[i].name
  {
    ConfigKeys(properties, defaults, raw);
    var config := NormalizeConfig(properties, defaults, raw).config;
    forall i | 0 <= i < |properties|
      ensures properties[i].name in config && Full(properties[i].schema, config[properties[i].name])
    {
      MatchedKeys(properties, defaults);
      ConfigAt(properties, defaults, raw, i);
      PropertyFound(properties, i);
      if defaults[i].0 in raw {
        CoercedIsFull(properties[i].schema, raw[defaults[i].0], [Key(defaults[i].0)], Some(defaults[i].1));
      }
    }
  }

  lemma MatchedKeys(properties: seq<Property>, defaults: seq<(string, Value)>)
    requires Matched(properties, defaults)
    ensures DistinctKeys(defaults)
  {
    forall i, j | 0 <= i < j < |defaults| ensures defaults[i].0 != defaults[j].0 {
      assert properties[i].name != properties[j].name;
    }
  }

  /** There are notes exactly when some key needs repair. */
  lemma {:induction false} NotesIffRepaired(properties: seq<Property>, defaults: seq<(string, Value)>, raw: map<string, Value>)
    ensures var result := NormalizeConfig(properties, defaults, raw); result.notes == [] <==> result.repaired == []
  {
    if defaults != [] {
      var last := |defaults| - 1;
      var key := defaults[last].0;
      NotesIffRepaired(properties, defaults[..last], raw);
      if key in raw && PropertyOf(properties, key).Some? {
        ReportedIffUnsound(PropertyOf(properties, key).value, raw[key], [Key(key)], Some(defaults[last].1));
      }
    }
  }

  /** A declared key that is stored sound is not repaired and only ever filled in; an unsound one
      is always repaired. */
  lemma RepairedIffUnsound(properties: seq<Property>, defaults: seq<(string, Value)>, raw: map<string, Value>, i: nat)
    requires Matched(properties, defaults) && i < |properties| && properties[i].name in raw
    ensures var key, result := properties[i].name, NormalizeConfig(properties, defaults, raw);
            && (key in result.repaired <==> !Sound(properties[i].schema, raw[key]))
            && key in result.config
            && (key !in result.repaired ==> FilledFrom(raw[key], result.config[key]))
  {
    MatchedKeys(properties, defaults);
    ConfigAt(properties, defaults, raw, i);
    PropertyFound(properties, i);
    assert properties[i].name == defaults[i].0;
    ReportedIffUnsound(properties[i].schema, raw[properties[i].name], [Key(properties[i].name)], Some(defaults[i].1));
  }

  /** The store after writing the corrected value of each of the `landed` keys over it. */
  function Rewritten(raw: map<string, Value>, config: map<string, Value>, landed: set<string>): map<string, Value>
    requires landed <= config.Keys
  {
    raw + map key | key in landed :: config[key]
  }

  function Kept(keys: seq<string>, gone: set<string>): seq<string> {
    if keys == [] then []
    else
      var last := |keys| - 1;
      Kept(keys[..last], gone) + (if keys[last] in gone then [] else [keys[last]])
  }

  lemma KeptAppend(keys: seq<string>, key: string, gone: set<string>)
    ensures Kept(keys + [key], gone) == Kept(keys, gone) + (if key in gone then [] else [key])
  {
    assert (keys + [key])[..|keys|] == keys;
  }

  /** A key reads the same after its corrected value is written, and is not called malformed any
      more; a key that was not written reads exactly as before. */
  ghost predicate KeyStable(properties: seq<Property>, default: (string, Value), raw: map<string, Value>, after: map<string, Value>, landed: set<string>) {
    var was := NormalizeKey(properties, default.0, default.1, raw);
    NormalizeKey(properties, default.0, default.1, after)
      == if default.0 in landed then Coerced(was.value, false, []) else was
  }

  lemma KeyAfterRewrite(properties: seq<Property>, defaults: seq<(string, Value)>, raw: map<string, Value>, landed: set<string>, i: nat)
    requires Matched(properties, defaults) && i < |properties|
    requires landed <= NormalizeConfig(properties, defaults, raw).config.Keys
    ensures KeyStable(properties, defaults[i], raw, Rewritten(raw, NormalizeConfig(properties, defaults, raw).config, landed), landed)
  {
    var key := defaults[i].0;
    MatchedKeys(properties, defaults);
    ConfigAt(properties, defaults, raw, i);
    PropertyFound(properties, i);
    if key in landed {
      ConfigIsFull(properties, defaults, raw);
      var config := NormalizeConfig(properties, defaults, raw).config;
      assert properties[i].name == key;
      FullIsKept(properties[i].schema, config[key], [Key(key)], Some(defaults[i].1));
    }
  }

  lemma {:induction false} StableKeysSameConfig(properties: seq<Property>, defaults: seq<(string, Value)>, raw: map<string, Value>, after: map<string, Value>, landed: set<string>)
    requires forall i | 0 <= i < |defaults| :: KeyStable(properties, defaults[i], raw, after, landed)
    ensures NormalizeConfig(properties, defaults, after).config == NormalizeConfig(properties, defaults, raw).config
  {
    if defaults != [] {
      var last := |defaults| - 1;
      assert forall i | 0 <= i < last :: defaults[..last][i] == defaults[i];
      StableKeysSameConfig(properties, defaults[..last], raw, after, landed);
      assert KeyStable(properties, defaults[last], raw, after, landed);
    }
  }

  lemma {:induction false} StableKeysSameReport(properties: seq<Property>, defaults: seq<(string, Value)>, raw: map<string, Value>, after: map<string, Value>, landed: set<string>)
    requires forall i | 0 <= i < |defaults| :: KeyStable(properties, defaults[i], raw, after, landed)
    ensures NormalizeConfig(properties, defaults, after).repaired == Kept(NormalizeConfig(properties, defaults, raw).repaired, landed)
  {
    if defaults != [] {
      var last := |defaults| - 1;
      assert forall i | 0 <= i < last :: defaults[..last][i] == defaults[i];
      StableKeysSameReport(properties, defaults[..last], raw, after, landed);
      assert KeyStable(properties, defaults[last], raw, after, landed);
      var was := NormalizeConfig(properties, defaults[..last], raw).repaired;
      KeptAppend(was, defaults[last].0, landed);
      assert was + [] == was && Kept(was, landed) + [] == Kept(was, landed);
    }
  }

  /** Whichever of the corrected values reach the file, the next read gives the same config and
      complains about exactly the keys that did not. */
  lemma RereadAfterRewrite(properties: seq<Property>, defaults: seq<(string, Value)>, raw: map<string, Value>, landed: set<string>)
    requires Matched(properties, defaults)
    requires landed <= NormalizeConfig(properties, defaults, raw).config.Keys
    ensures var was := NormalizeConfig(properties, defaults, raw);
            var now := NormalizeConfig(properties, defaults, Rewritten(raw, was.config, landed));
            now.config == was.config && now.repaired == Kept(was.repaired, landed)
  {
    var after := Rewritten(raw, NormalizeConfig(properties, defaults, raw).config, landed);
    forall i | 0 <= i < |defaults| ensures KeyStable(properties, defaults[i], raw, after, landed) {
      KeyAfterRewrite(properties, defaults, raw, landed, i);
    }
    StableKeysSameConfig(properties, defaults, raw, after, landed);
    StableKeysSameReport(properties, defaults, raw, after, landed);
  }

  lemma {:induction false} NoneKept(keys: seq<string>, gone: set<string>)
    requires forall key | key in keys :: key in gone
    ensures Kept(keys, gone) == []
  {
    if keys != [] {
      NoneKept(keys[..|keys| - 1], gone);
    }
  }

  /** Repair stabilises in one pass: once the repaired keys are written back, the next read gives
      the same config with nothing to say and nothing to repair. */
  lemma RepairStabilises(properties: seq<Property>, defaults: seq<(string, Value)>, raw: map<string, Value>)
    requires Matched(properties, defaults)
    ensures var was := NormalizeConfig(properties, defaults, raw);
            var landed := set key | key in was.repaired;
            && landed <= was.config.Keys
            && NormalizeConfig(properties, defaults, Rewritten(raw, was.config, landed)) == Normalized(was.config, [], [])
  {
    var was := NormalizeConfig(properties, defaults, raw);
    var landed := set key | key in was.repaired;
    ConfigKeys(properties, defaults, raw);
    RepairedAreKeys(properties, defaults, raw);
    RereadAfterRewrite(properties, defaults, raw, landed);
    NoneKept(was.repaired, landed);
    NotesIffRepaired(properties, defaults, Rewritten(raw, was.config, landed));
  }

  /** The store and the snapshot of the web view. Writes to the store can fail one by one. */
  class Provider {
    const properties: seq<Property>
    const defaults: seq<(string, Value)>
    var store: map<string, Value>
    var snapshot: Option<map<string, Value>>

    constructor (properties: seq<Property>, defaults: seq<(string, Value)>, store: map<string, Value>)
      ensures this.properties == properties && this.defaults == defaults
      ensures this.store == store && snapshot.None?
    {
      this.properties := properties;
      this.defaults := defaults;
      this.store := store;
      snapshot := None;
    }

    /** `rewriteRepaired`. `reaches` says which writes get through to the file. */
    method RewriteRepaired(config: map<string, Value>, keys: seq<string>, reaches: set<string>)
      requires forall key | key in keys :: key in config
      modifies this`store
      ensures store == Rewritten(old(store), config, Landed(keys, reaches))
    {
      for i := 0 to |keys|
        invariant store == Rewritten(old(store), config, Landed(keys[..i], reaches))
      {
        LandedNext(keys, i, reaches);
        if keys[i] in reaches {
          RewrittenNext(old(store), config, Landed(keys[..i], reaches), keys[i]);
          store := store[keys[i] := config[keys[i]]];
        }
      }
      assert keys[..|keys|] == keys;
    }

    /** `readStore`. */
    method ReadStore(reaches: set<string>) returns (result: Option<map<string, Value>>)
      modifies this
      ensures result == snapshot
      ensures old(store) == map[] ==> result.None? && store == old(store)
      ensures old(store) != map[] ==>
        var read := NormalizeConfig(properties, defaults, old(store));
        && result == Some(read.config)
        && Landed(read.repaired, reaches) <= read.config.Keys
        && store == Rewritten(old(store), read.config, Landed(read.repaired, reaches))
    {
      if store == map[] {
        snapshot := None;
        return None;
      }
      var read := NormalizeLoop(properties, defaults, store);
      ConfigKeys(properties, defaults, store);
      RepairedAreKeys(properties, defaults, store);
      RewriteRepaired(read.config, read.repaired, reaches);
      snapshot := Some(read.config);
      return snapshot;
    }
  }

  function Landed(keys: seq<string>, reaches: set<string>): set<string> {
    set key | key in keys && key in reaches
  }

  lemma LandedNext(keys: seq<string>, i: nat, reaches: set<string>)
    requires i < |keys|
    ensures Landed(keys[..i + 1], reaches) == Landed(keys[..i], reaches) + (if keys[i] in reaches then {keys[i]} else {})
  {
    assert keys[..i + 1] == keys[..i] + [keys[i]];
  }

  /** What a rewrite touches: the given keys whose write gets through, and nothing else. */
  lemma RewrittenAt(raw: map<string, Value>, config: map<string, Value>, keys: seq<string>, reaches: set<string>)
    requires forall key | key in keys :: key in config
    ensures var after := Rewritten(raw, config, Landed(keys, reaches));
            && (forall key :: key in after <==> key in raw || (key in keys && key in reaches))
            && forall key | key in after :: after[key] == if key in keys && key in reaches then config[key] else raw[key]
  {
  }

  lemma RewrittenNext(raw: map<string, Value>, config: map<string, Value>, landed: set<string>, key: string)
    requires landed <= config.Keys && key in config
    ensures Rewritten(raw, config, landed)[key := config[key]] == Rewritten(raw, config, landed + {key})
  {
  }

  // The real tables

  lemma ConfigTablesMatched()
    ensures Matched(T.PROPERTIES, T.DEFAULTS)
  {
    T.SchemaWellFormed();
    T.DefaultsNamed();
    T.DefaultsFull();
  }

  /** Nothing `walk` reports about the value is a wrong type, a wrong choice or a missing key. */
  ghost predicate OnlySoftProblems(schema: Schema, value: Value) {
    forall rel: Path, kind: Kind | Flagged(schema, value, rel, kind) :: kind.Soft()
  }

  /** `normalizeConfig` satisfies both languages on every store: the host finds no fault in the
      result, and the editor finds nothing but ranges, lengths, patterns and undeclared keys. */
  lemma NormalizedSatisfiesBothLanguages(raw: map<string, Value>)
    ensures var config := Obj(NormalizeConfig(T.PROPERTIES, T.DEFAULTS, raw).config);
            && S.Faults(ConfigTable.CONFIG, config, []) == []
            && OnlySoftProblems(T.CONFIG_SCHEMA, config)
  {
    ConfigTablesMatched();
    ConfigIsFull(T.PROPERTIES, T.DEFAULTS, raw);
    var config := Obj(NormalizeConfig(T.PROPERTIES, T.DEFAULTS, raw).config);
    assert Full(T.CONFIG_SCHEMA, config);
    T.ShapeIsErasedSchema();
    FullConforms(T.CONFIG_SCHEMA, config);
    S.NoFaultsIsConforms(ConfigTable.CONFIG, config, []);
    T.SchemaWellFormed();
    forall rel: Path, kind: Kind | Flagged(T.CONFIG_SCHEMA, config, rel, kind) ensures kind.Soft() {
      FullHasOnlySoftProblems(T.CONFIG_SCHEMA, config, rel, kind);
    }
  }
}
