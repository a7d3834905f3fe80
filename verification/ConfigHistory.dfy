/** The store over its life: repaired by the web view, written through the host's command line. */
module ConfigHistory {
  import opened Wrappers
  import opened Json
  import opened Schema
  import opened Normalize
  import opened ConfigTable
  import S = Shape
  import T = ConfigSchemaTable
  import Provider = ConfigProvider
  import Path = ConfigPath
  import Safety = ConfigSafety

  /** What the web view leaves alone, the host has no complaint about. */
  lemma {:induction false} SoundConforms(schema: Schema, value: Value)
    requires Sound(schema, value)
    ensures S.Conforms(Erase(schema), value)
  {
    match schema
    case ArrayS(items, _) =>
      forall i | 0 <= i < |value.items| ensures S.Conforms(Erase(items), value.items[i]) {
        SoundConforms(items, value.items[i]);
      }
    case ObjectS(properties, _, _, _) =>
      forall i | 0 <= i < |properties| && properties[i].name in value.fields
        ensures S.Conforms(Erase(properties[i].schema), value.fields[properties[i].name])
      {
        SoundConforms(properties[i].schema, value.fields[properties[i].name]);
      }
    case _ =>
  }

  lemma {:induction false} ErasedField(properties: seq<Property>, fields: seq<S.Field>, name: string)
    requires DistinctNames(properties) && |fields| == |properties|
    requires forall i | 0 <= i < |fields| :: fields[i] == S.Field(properties[i].name, Erase(properties[i].schema))
    ensures S.FieldOf(fields, name)
         == match PropertyOf(properties, name) case None => None case Some(child) => Some(Erase(child))
  {
    hide Erase, S.FieldOf, PropertyOf;
    var host, view := S.FieldOf(fields, name), PropertyOf(properties, name);
    if host.Some? && view.Some? {
      var i :| 0 <= i < |fields| && fields[i].name == name && fields[i].shape == host.value;
      var j :| 0 <= j < |properties| && properties[j] == Property(name, view.value);
      assert i == j;
    }
  }

  lemma TypesAgree(schema: Schema, value: Value)
    ensures Matches(schema, value) <==> S.Accepts(Erase(schema), value)
  {
  }

  /** The two languages agree on every file: the host reports a fault at a position exactly when the
      editor reports a wrong type there. */
  lemma {:induction false} FaultsAreTypeProblems(schema: Schema, value: Value, rel: seq<Step>)
    requires WellFormed(schema)
    ensures S.FaultAt(Erase(schema), value, rel) <==> Flagged(schema, value, rel, WrongType)
    decreases rel
  {
    TypesAgree(schema, value);
    if rel != [] && Matches(schema, value) {
      match (schema, rel[0])
      case (ArrayS(items, _), Index(i)) =>
        if i < |value.items| { FaultsAreTypeProblems(items, value.items[i], rel[1..]); }
      case (ObjectS(properties, _, _, _), Key(name)) =>
        ErasedField(properties, Erase(schema).fields, name);
        if name in value.fields && PropertyOf(properties, name).Some? {
          FaultsAreTypeProblems(PropertyOf(properties, name).value, value.fields[name], rel[1..]);
        }
      case _ =>
    }
  }

  /** A store in which the web view finds nothing to repair has no fault for the host either. */
  lemma NothingToRepairNothingFaulty(raw: map<string, Value>)
    requires Provider.NormalizeConfig(T.PROPERTIES, T.DEFAULTS, raw).repaired == []
    ensures S.Faults(CONFIG, Obj(raw), []) == []
  {
    hide *;
    Provider.ConfigTablesMatched();
    T.ConfigTablesMatch();
    SoundTableConforms(T.PROPERTIES, T.DEFAULTS, CONFIG_FIELDS, raw);
    ConfigIsTable();
    S.NoFaultsIsConforms(CONFIG, Obj(raw), []);
  }

  lemma ConfigIsTable()
    ensures CONFIG == S.ObjectShape(CONFIG_FIELDS)
  {
  }

  lemma SoundTableConforms(properties: seq<Property>, defaults: seq<(string, Value)>, fields: seq<S.Field>, raw: map<string, Value>)
    requires Provider.Matched(properties, defaults) && T.SameTable(properties, fields)
    requires Provider.NormalizeConfig(properties, defaults, raw).repaired == []
    ensures S.Conforms(S.ObjectShape(fields), Obj(raw))
  {
    hide Provider.NormalizeConfig, Provider.Matched;
    forall i | 0 <= i < |fields| && fields[i].name in raw ensures S.Conforms(fields[i].shape, raw[fields[i].name]) {
      assert properties[i].name == fields[i].name;
      Provider.RepairedIffUnsound(properties, defaults, raw, i);
      SoundConforms(properties[i].schema, raw[fields[i].name]);
    }
  }

  /** The store once the web view has read it and its corrections have landed. */
  function Repaired(raw: map<string, Value>): map<string, Value> {
    var read := Provider.NormalizeConfig(T.PROPERTIES, T.DEFAULTS, raw);
    Provider.ConfigKeys(T.PROPERTIES, T.DEFAULTS, raw);
    Provider.RepairedAreKeys(T.PROPERTIES, T.DEFAULTS, raw);
    Provider.Rewritten(raw, read.config, set key | key in read.repaired)
  }

  /** Whatever a file held to begin with, after one repair the host finds no fault in it, and still
      finds none after any run of `config set` commands whose values have the declared shape. */
  lemma RepairedStoreStaysFaultFree(raw: map<string, Value>, writes: seq<Safety.Write>)
    requires forall w | w in writes :: w.parts != [] && Safety.FitsAt(CONFIG, w.parts, w.value)
    ensures S.Faults(CONFIG, Obj(Safety.WriteAll(CONFIG_FIELDS, Repaired(raw), writes)), []) == []
  {
    hide *;
    Provider.ConfigTablesMatched();
    Provider.RepairStabilises(T.PROPERTIES, T.DEFAULTS, raw);
    RepairedIsRewritten(raw);
    NothingToRepairNothingFaulty(Repaired(raw));
    ConfigIsTable();
    ConfigWellNamed();
    Safety.WritesKeepStoreFaultFree(CONFIG_FIELDS, Repaired(raw), writes);
  }

  lemma RepairedIsRewritten(raw: map<string, Value>)
    ensures var read := Provider.NormalizeConfig(T.PROPERTIES, T.DEFAULTS, raw);
            var landed := set key | key in read.repaired;
            landed <= read.config.Keys ==> Repaired(raw) == Provider.Rewritten(raw, read.config, landed)
  {
    hide Provider.NormalizeConfig;
  }
}
