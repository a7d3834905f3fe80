/** Damage in a stored config stays where it is (`src/lib/config-normalize.ts`, lines 163-221): what
    becomes of a value is said here position by position, from the value and the schema alone. */
module NormalizeLocal {
  import opened Wrappers
  import opened Json
  import opened Schema
  import opened Normalize
  import opened ConfigProvider

  // Positions

  /** The schema declared for the child a step names. */
  function Declared(schema: Schema, step: Step): Option<Schema> {
    match (schema, step)
    case (ArrayS(items, _), Index(_)) => Some(items)
    case (ObjectS(properties, _, _, _), Key(name)) => PropertyOf(properties, name)
    case _ => None
  }

  /** The value is of its type and in its enum. */
  predicate Usable(schema: Schema, value: Value) { Matches(schema, value) && Allowed(schema, value) }

  /** The step leads to a declared child of a usable container, and not to a row of the wrong kind. */
  predicate Enters(schema: Schema, value: Value, step: Step) {
    && Usable(schema, value) && Declared(schema, step).Some? && Child(value, step).Some?
    && (step.Index? ==> Matches(Declared(schema, step).value, Child(value, step).value))
  }

  /** Everything on the way to the position is usable, and there is something there. */
  predicate Reaches(schema: Schema, value: Value, rel: Path)
    decreases rel
  {
    rel == []
    || (Enters(schema, value, rel[0]) && Reaches(Declared(schema, rel[0]).value, Child(value, rel[0]).value, rel[1..]))
  }

  /** What is declared at the position, and what is there. */
  function SchemaAt(schema: Schema, value: Value, rel: Path): Schema
    requires Reaches(schema, value, rel)
    decreases rel
  {
    if rel == [] then schema else SchemaAt(Declared(schema, rel[0]).value, Child(value, rel[0]).value, rel[1..])
  }

  function ValueAt(value: Value, rel: Path): Option<Value>
    decreases rel
  {
    if rel == [] then Some(value)
    else match Child(value, rel[0]) case None => None case Some(child) => ValueAt(child, rel[1..])
  }

  /** The runtime default there is for the position: none inside a list. */
  function FallbackAt(fallback: Option<Value>, rel: Path): Option<Value>
    decreases rel
  {
    if rel == [] then fallback
    else match rel[0] case Key(name) => FallbackAt(FallbackField(fallback, name), rel[1..]) case Index(_) => FallbackAt(None, rel[1..])
  }

  /** How many rows are of the declared kind. */
  function Matching(items: Schema, rows: seq<Value>): (n: nat)
    ensures n <= |rows|
  {
    if rows == [] then 0
    else
      var last := |rows| - 1;
      Matching(items, rows[..last]) + (if Matches(items, rows[last]) then 1 else 0)
  }

  /** Where a child ends up: a row moves up past the rows of the wrong kind before it. */
  function MovedStep(schema: Schema, value: Value, step: Step): Step
    requires Enters(schema, value, step)
  {
    match step case Key(_) => step case Index(i) => Index(Matching(schema.items, value.items[..i]))
  }

  function Moved(schema: Schema, value: Value, rel: Path): Path
    requires Reaches(schema, value, rel)
    decreases rel
  {
    if rel == [] then []
    else [MovedStep(schema, value, rel[0])] + Moved(Declared(schema, rel[0]).value, Child(value, rel[0]).value, rel[1..])
  }

  /** What stands in for a value that is missing or unusable. */
  ghost predicate IsDefault(schema: Schema, fallback: Option<Value>, w: Value)
    decreases schema
  {
    if fallback.Some? then w == fallback.value
    else if schema.default.Some? then w == schema.default.value
    else match schema
      case StringS(_, _, _, _, _) => w == Str("")
      case IntegerS(_, _, _) => w == Num(Int(0))
      case NumberS(_, _, _) => w == Num(Int(0))
      case BooleanS(_) => w == Bool(false)
      case ArrayS(_, _) => w == Arr([])
      case ObjectS(properties, _, _, _) =>
        && w.Obj? && w.fields.Keys == Names(properties)
        && forall i | 0 <= i < |properties| :: IsDefault(properties[i].schema, None, w.fields[properties[i].name])
  }

  ghost function Names(properties: seq<Property>): set<string> {
    set i | 0 <= i < |properties| :: properties[i].name
  }

  lemma NamesAreDeclared(properties: seq<Property>, key: string)
    ensures key in Names(properties) <==> PropertyOf(properties, key).Some?
  {
  }

  // One level of coercion

  lemma {:induction false} DefaultForIsDefault(schema: Schema, fallback: Option<Value>)
    requires WellFormed(schema)
    ensures IsDefault(schema, fallback, DefaultFor(schema, fallback))
    decreases schema
  {
    if schema.ObjectS? {
      var properties := schema.properties;
      assert forall i | 0 <= i < |properties| :: WellFormed(properties[i].schema);
      var fields := DefaultFields(properties);
      hide WellFormed, DefaultFields, PropertyOf, Names;
      forall key ensures key in fields <==> key in Names(properties) {
        DefaultFieldAt(properties, key);
        NamesAreDeclared(properties, key);
      }
      forall i | 0 <= i < |properties|
        ensures properties[i].name in fields && IsDefault(properties[i].schema, None, fields[properties[i].name])
      {
        PropertyFound(properties, i);
        DefaultFieldAt(properties, properties[i].name);
        DefaultForIsDefault(properties[i].schema, None);
      }
    }
  }

  lemma {:induction false} DefaultFieldAt(properties: seq<Property>, key: string)
    ensures match PropertyOf(properties, key)
            case None => key !in DefaultFields(properties)
            case Some(child) => key in DefaultFields(properties) && DefaultFields(properties)[key] == DefaultFor(child, None)
    decreases |properties|
  {
    if properties != [] {
      hide DefaultFor;
      DefaultFieldAt(properties[..|properties| - 1], key);
    }
  }

  /** What becomes of each key of a record. */
  lemma {:induction false} FieldCoerced(properties: seq<Property>, held: map<string, Value>, at: Path, fallback: Option<Value>, key: string)
    ensures var out := CoerceFields(properties, held, at, fallback).value.fields;
            match PropertyOf(properties, key)
            case None => (key in out <==> key in held) && (key in held ==> out[key] == held[key])
            case Some(child) =>
              && key in out
              && out[key] == if key in held then Coerce(child, held[key], at + [Key(key)], FallbackField(fallback, key)).value
                             else DefaultFor(child, FallbackField(fallback, key))
    decreases |properties|
  {
    if properties != [] {
      hide Coerce, DefaultFor, FallbackField;
      FieldCoerced(properties[..|properties| - 1], held, at, fallback, key);
    }
  }

  /** What becomes of each row of a list. */
  lemma {:induction false} RowCoerced(items: Schema, rows: seq<Value>, at: Path, i: nat)
    requires i < |rows|
    ensures var out := CoerceRows(items, rows, at).value.items;
            && |out| == Matching(items, rows)
            && (Matches(items, rows[i]) ==>
                  && Matching(items, rows[..i]) < |out|
                  && out[Matching(items, rows[..i])] == Coerce(items, rows[i], at + [Index(i)], None).value)
    decreases |rows|
  {
    hide Coerce, Matches;
    var last := |rows| - 1;
    RowsKept(items, rows[..last], at);
    if i < last {
      RowCoerced(items, rows[..last], at, i);
      assert rows[..last][..i] == rows[..i] && rows[..last][i] == rows[i];
    }
  }

  lemma {:induction false} RowsKept(items: Schema, rows: seq<Value>, at: Path)
    ensures |CoerceRows(items, rows, at).value.items| == Matching(items, rows)
    decreases |rows|
  {
    hide Coerce, Matches;
    if rows != [] {
      RowsKept(items, rows[..|rows| - 1], at);
    }
  }

  /** A child of a usable container is coerced by itself, wherever the damage around it is. */
  lemma ChildCoerced(schema: Schema, value: Value, at: Path, fallback: Option<Value>, step: Step)
    requires Enters(schema, value, step)
    ensures Child(Coerce(schema, value, at, fallback).value, MovedStep(schema, value, step))
         == Some(Coerce(Declared(schema, step).value, Child(value, step).value, at + [step], FallbackAt(fallback, [step])).value)
  {
    match schema
    case ArrayS(items, _) => RowCoerced(items, value.items, at, step.i);
    case ObjectS(properties, _, _, _) => FieldCoerced(properties, value.fields, at, fallback, step.name);
    case _ =>
  }

  lemma {:induction false} CoercedThere(schema: Schema, value: Value, at: Path, fallback: Option<Value>, rel: Path)
    requires Reaches(schema, value, rel)
    ensures ValueAt(value, rel).Some?
    ensures ValueAt(Coerce(schema, value, at, fallback).value, Moved(schema, value, rel))
         == Some(Coerce(SchemaAt(schema, value, rel), ValueAt(value, rel).value, at + rel, FallbackAt(fallback, rel)).value)
    decreases rel
  {
    hide Coerce, Enters, MovedStep;
    if rel == [] {
      assert at + [] == at;
    } else {
      ChildCoerced(schema, value, at, fallback, rel[0]);
      EntersMeans(schema, value, rel[0]);
      CoercedThere(Declared(schema, rel[0]).value, Child(value, rel[0]).value, at + [rel[0]], FallbackAt(fallback, [rel[0]]), rel[1..]);
      assert at + [rel[0]] + rel[1..] == at + rel;
      assert [rel[0]][1..] == [];
    }
  }

  lemma EntersMeans(schema: Schema, value: Value, step: Step)
    requires Enters(schema, value, step)
    ensures Declared(schema, step).Some? && Child(value, step).Some?
  {
  }

  // Damage is local

  /** What becomes of a value that is reached: it stays, only filled in, if there is nothing wrong in
      it; a default takes its place if it is itself of the wrong type or outside its enum; a list keeps
      its rows of the right kind; a record keeps its keys, those nobody declared as they are, and gets
      a default for every declared key it lacks. */
  ghost predicate BecomesLocally(schema: Schema, fallback: Option<Value>, v: Value, w: Value) {
    && (Sound(schema, v) ==> FilledFrom(v, w))
    && (!Usable(schema, v) ==> IsDefault(schema, fallback, w))
    && (Usable(schema, v) && schema.ArrayS? ==> w.Arr? && |w.items| == Matching(schema.items, v.items))
    && (Usable(schema, v) && schema.ObjectS? ==>
          && w.Obj? && w.fields.Keys == v.fields.Keys + Names(schema.properties)
          && (forall key | key in v.fields && PropertyOf(schema.properties, key).None? :: w.fields[key] == v.fields[key])
          && forall i | 0 <= i < |schema.properties| && schema.properties[i].name !in v.fields ::
               IsDefault(schema.properties[i].schema, FallbackField(fallback, schema.properties[i].name), w.fields[schema.properties[i].name]))
  }

  /** Every value in `value` that is reached becomes what it becomes by itself, in its own place, with
      rows moved up past the dropped ones. */
  ghost predicate Local(schema: Schema, fallback: Option<Value>, value: Value, out: Value) {
    forall rel: Path | Reaches(schema, value, rel) :: LocalAt(schema, fallback, value, out, rel)
  }

  ghost predicate LocalAt(schema: Schema, fallback: Option<Value>, value: Value, out: Value, rel: Path)
    requires Reaches(schema, value, rel)
  {
    var v, w := ValueAt(value, rel), ValueAt(out, Moved(schema, value, rel));
    v.Some? && w.Some? && BecomesLocally(SchemaAt(schema, value, rel), FallbackAt(fallback, rel), v.value, w.value)
  }

  lemma {:induction false} SchemaAtWellFormed(schema: Schema, value: Value, rel: Path)
    requires WellFormed(schema) && Reaches(schema, value, rel)
    ensures WellFormed(SchemaAt(schema, value, rel))
    decreases rel
  {
    if rel != [] {
      DeclaredWellFormed(schema, value, rel[0]);
      SchemaAtWellFormed(Declared(schema, rel[0]).value, Child(value, rel[0]).value, rel[1..]);
    }
  }

  lemma DeclaredWellFormed(schema: Schema, value: Value, step: Step)
    requires WellFormed(schema) && Enters(schema, value, step)
    ensures WellFormed(Declared(schema, step).value)
  {
    hide Full;
  }

  lemma RecordBecomes(schema: Schema, v: Value, at: Path, fallback: Option<Value>)
    requires WellFormed(schema) && schema.ObjectS? && Usable(schema, v)
    ensures var fields := CoerceFields(schema.properties, v.fields, at, fallback).value.fields;
            && fields.Keys == v.fields.Keys + Names(schema.properties)
            && (forall key | key in v.fields && PropertyOf(schema.properties, key).None? :: fields[key] == v.fields[key])
            && forall i | 0 <= i < |schema.properties| && schema.properties[i].name !in v.fields ::
                 IsDefault(schema.properties[i].schema, FallbackField(fallback, schema.properties[i].name), fields[schema.properties[i].name])
  {
    var properties, fields := schema.properties, CoerceFields(schema.properties, v.fields, at, fallback).value.fields;
    assert forall i | 0 <= i < |properties| :: WellFormed(properties[i].schema);
    hide CoerceFields, IsDefault, FallbackField, WellFormed, DefaultFor, Coerce, PropertyOf, Usable, Names;
    forall key ensures key in fields <==> key in v.fields || key in Names(properties) {
      FieldCoerced(properties, v.fields, at, fallback, key);
      NamesAreDeclared(properties, key);
    }
    forall key | key in v.fields && PropertyOf(properties, key).None? ensures fields[key] == v.fields[key] {
      FieldCoerced(properties, v.fields, at, fallback, key);
    }
    forall i | 0 <= i < |properties| && properties[i].name !in v.fields
      ensures properties[i].name in fields
        && IsDefault(properties[i].schema, FallbackField(fallback, properties[i].name), fields[properties[i].name])
    {
      PropertyFound(properties, i);
      FieldCoerced(properties, v.fields, at, fallback, properties[i].name);
      DefaultForIsDefault(properties[i].schema, FallbackField(fallback, properties[i].name));
    }
  }

  lemma CoercedBecomes(schema: Schema, v: Value, at: Path, fallback: Option<Value>)
    requires WellFormed(schema)
    ensures BecomesLocally(schema, fallback, v, Coerce(schema, v, at, fallback).value)
  {
    ReportedIffUnsound(schema, v, at, fallback);
    if !Usable(schema, v) {
      DefaultForIsDefault(schema, fallback);
      hide WellFormed, IsDefault, DefaultFor, Sound;
      assert !Sound(schema, v) by { UnusableIsUnsound(schema, v); }
    } else {
      hide WellFormed, IsDefault, Sound, FilledFrom, CoerceFields, CoerceRows, Names;
      match schema
      case ArrayS(items, _) => RowsKept(items, v.items, at);
      case ObjectS(_, _, _, _) => RecordBecomes(schema, v, at, fallback);
      case _ =>
    }
  }

  lemma UnusableIsUnsound(schema: Schema, v: Value)
    requires !Usable(schema, v)
    ensures !Sound(schema, v)
  {
  }

  /** Whatever is stored, coercing it does nothing to a value because of what is wrong elsewhere. */
  lemma DamageIsLocal(schema: Schema, value: Value, at: Path, fallback: Option<Value>)
    requires WellFormed(schema)
    ensures Local(schema, fallback, value, Coerce(schema, value, at, fallback).value)
  {
    hide WellFormed, Coerce, BecomesLocally, Reaches, SchemaAt, ValueAt, FallbackAt, Moved;
    forall rel: Path | Reaches(schema, value, rel)
      ensures LocalAt(schema, fallback, value, Coerce(schema, value, at, fallback).value, rel)
    {
      CoercedThere(schema, value, at, fallback, rel);
      SchemaAtWellFormed(schema, value, rel);
      CoercedBecomes(SchemaAt(schema, value, rel), ValueAt(value, rel).value, at + rel, FallbackAt(fallback, rel));
    }
  }

  /** The whole store: a key it lacks has its runtime default, and damage under a key stays under it
      and local. */
  lemma StoreDamageIsLocal(properties: seq<Property>, defaults: seq<(string, Value)>, raw: map<string, Value>, i: nat)
    requires Matched(properties, defaults) && i < |properties|
    ensures var key, config := properties[i].name, NormalizeConfig(properties, defaults, raw).config;
            && key in config
            && (key !in raw ==> config[key] == defaults[i].1)
            && (key in raw ==> Local(properties[i].schema, Some(defaults[i].1), raw[key], config[key]))
  {
    MatchedKeys(properties, defaults);
    ConfigAt(properties, defaults, raw, i);
    PropertyFound(properties, i);
    assert properties[i].name == defaults[i].0 && WellFormed(properties[i].schema);
    if defaults[i].0 in raw {
      hide Local, Coerce, WellFormed;
      DamageIsLocal(properties[i].schema, raw[defaults[i].0], [Key(defaults[i].0)], Some(defaults[i].1));
    }
  }

  // What is said about it

  /** The path ends in a row, and is not `at` itself. */
  predicate EndsInRow(at: Path, p: Path) { |at| < |p| && p[|p| - 1].Index? }

  /** The notes are the web view's own type and enum findings, each at its place: a row of the wrong
      type is dropped, anything else of the wrong type or outside its enum is ignored. */
  ghost predicate NotesAre(notes: seq<Note>, schema: Schema, value: Value, at: Path, p: Path) {
    && (Note(p, IgnoredChoice) in notes <==> at <= p && Flagged(schema, value, p[|at|..], NotAllowed))
    && (Note(p, IgnoredType) in notes <==> at <= p && !EndsInRow(at, p) && Flagged(schema, value, p[|at|..], WrongType))
    && (Note(p, DroppedRow) in notes <==> at <= p && EndsInRow(at, p) && Flagged(schema, value, p[|at|..], WrongType))
  }

  lemma {:induction false} NotesExact(schema: Schema, value: Value, at: Path, fallback: Option<Value>, p: Path)
    requires WellFormed(schema)
    ensures NotesAre(Coerce(schema, value, at, fallback).notes, schema, value, at, p)
    decreases schema, 1
  {
    hide CoerceRows, CoerceFields, DefaultFor, EndsInRow, RowFlagged, FieldFlagged;
    if Usable(schema, value) && schema.ArrayS? {
      FlaggedInRow(schema, value, at, p);
      RowNotes(schema.items, value.items, at, p);
      hide Flagged, WellFormed;
    } else if Usable(schema, value) && schema.ObjectS? {
      FlaggedInField(schema, value, at, p);
      FieldNotes(schema.properties, value.fields, at, fallback, p);
      hide Flagged, WellFormed;
    } else {
      OneNote(schema, value, at, fallback, p);
    }
  }

  /** A value that is not a usable container is flagged for itself, or not at all. */
  lemma OneNote(schema: Schema, value: Value, at: Path, fallback: Option<Value>, p: Path)
    requires !Usable(schema, value) || (!schema.ArrayS? && !schema.ObjectS?)
    ensures NotesAre(Coerce(schema, value, at, fallback).notes, schema, value, at, p)
  {
    hide DefaultFor;
    if at <= p { assert p[|at|..] == [] <==> p == at; }
  }

  lemma FlaggedInRow(schema: Schema, value: Value, at: Path, p: Path)
    requires Usable(schema, value) && schema.ArrayS?
    ensures forall kind | kind == WrongType || kind == NotAllowed ::
              at <= p && Flagged(schema, value, p[|at|..], kind) <==> RowFlagged(schema.items, value.items, at, p, kind)
  {
    if at < p { assert p[|at|..][0] == p[|at|] && p[|at|..][1..] == p[|at| + 1..]; }
  }

  lemma FlaggedInField(schema: Schema, value: Value, at: Path, p: Path)
    requires Usable(schema, value) && schema.ObjectS?
    ensures forall kind | kind == WrongType || kind == NotAllowed ::
              at <= p && Flagged(schema, value, p[|at|..], kind) <==> FieldFlagged(schema.properties, value.fields, at, p, kind)
  {
    if at < p { assert p[|at|..][0] == p[|at|] && p[|at|..][1..] == p[|at| + 1..]; }
  }

  /** The same for the notes of the rows, and of the fields, below `at`. */
  ghost predicate NotedBelow(notes: seq<Note>, at: Path, p: Path, choice: bool, kind: bool) {
    && (Note(p, IgnoredChoice) in notes <==> choice)
    && (Note(p, IgnoredType) in notes <==> kind && !EndsInRow(at, p))
    && (Note(p, DroppedRow) in notes <==> kind && EndsInRow(at, p))
  }

  predicate RowFlagged(items: Schema, rows: seq<Value>, at: Path, p: Path, kind: Kind) {
    at < p && p[|at|].Index? && p[|at|].i < |rows| && Flagged(items, rows[p[|at|].i], p[|at| + 1..], kind)
  }

  lemma {:induction false} RowNotes(items: Schema, rows: seq<Value>, at: Path, p: Path)
    requires WellFormed(items)
    ensures NotedBelow(CoerceRows(items, rows, at).notes, at, p,
                  RowFlagged(items, rows, at, p, NotAllowed), RowFlagged(items, rows, at, p, WrongType))
    decreases items, 2, |rows|
  {
    hide Coerce, Matches, Flagged, WellFormed;
    if rows != [] {
      var last := |rows| - 1;
      RowNotes(items, rows[..last], at, p);
      NotesExact(items, rows[last], at + [Index(last)], None, p);
      UnmatchedFlagged(items, rows[last]);
      RowsStep(items, rows, last, at);
      assert rows[..last + 1] == rows;
      hide CoerceRows;
      if at + [Index(last)] <= p {
        assert p[|at| + 1..] == [] ==> p == at + [Index(last)];
      }
    }
  }

  lemma UnmatchedFlagged(schema: Schema, value: Value)
    ensures !Matches(schema, value) ==> forall rel, kind :: Flagged(schema, value, rel, kind) <==> rel == [] && kind == WrongType
    ensures Matches(schema, value) ==> !Flagged(schema, value, [], WrongType)
  {
  }

  predicate FieldFlagged(properties: seq<Property>, held: map<string, Value>, at: Path, p: Path, kind: Kind) {
    && at < p && p[|at|].Key? && p[|at|].name in held && PropertyOf(properties, p[|at|].name).Some?
    && Flagged(PropertyOf(properties, p[|at|].name).value, held[p[|at|].name], p[|at| + 1..], kind)
  }

  lemma {:induction false} FieldNotes(properties: seq<Property>, held: map<string, Value>, at: Path, fallback: Option<Value>, p: Path)
    requires DistinctNames(properties) && forall i | 0 <= i < |properties| :: WellFormed(properties[i].schema)
    ensures NotedBelow(CoerceFields(properties, held, at, fallback).notes, at, p,
                  FieldFlagged(properties, held, at, p, NotAllowed), FieldFlagged(properties, held, at, p, WrongType))
    decreases properties, 0
  {
    hide Coerce, Matches, Flagged, DefaultFor, FallbackField, WellFormed;
    if properties != [] {
      var last := |properties| - 1;
      var name, child := properties[last].name, properties[last].schema;
      assert forall i | 0 <= i < last :: properties[..last][i] == properties[i];
      FieldNotes(properties[..last], held, at, fallback, p);
      assert PropertyOf(properties[..last], name).None?;
      if name in held {
        NotesExact(child, held[name], at + [Key(name)], FallbackField(fallback, name), p);
      }
    }
  }
}
