/** Turning a raw store into a config of the declared shape (`src/lib/config-normalize.ts`). */
module Normalize {
  import opened Wrappers
  import opened Json
  import opened Schema
  import S = Shape

  datatype NoteKind = IgnoredType | IgnoredChoice | DroppedRow

  datatype Note = Note(at: Path, kind: NoteKind)

  datatype Coerced = Coerced(value: Value, changed: bool, notes: seq<Note>)

  /** A stand-in of the declared shape: the runtime default, else the schema's own, else the empty
      value of its type. */
  function DefaultFor(schema: Schema, fallback: Option<Value>): Value
    decreases schema, 1
  {
    if fallback.Some? then fallback.value
    else if schema.default.Some? then schema.default.value
    else match schema
      case StringS(_, _, _, _, _) => Str("")
      case IntegerS(_, _, _) => Num(Int(0))
      case NumberS(_, _, _) => Num(Int(0))
      case BooleanS(_) => Bool(false)
      case ArrayS(_, _) => Arr([])
      case ObjectS(properties, _, _, _) => Obj(DefaultFields(properties))
  }

  function DefaultFields(properties: seq<Property>): map<string, Value>
    decreases properties, 0
  {
    if properties == [] then map[]
    else
      var last := |properties| - 1;
      DefaultFields(properties[..last])[properties[last].name := DefaultFor(properties[last].schema, None)]
  }

  function FallbackField(fallback: Option<Value>, key: string): Option<Value> {
    match fallback case None => None case Some(v) => v.Get(key)
  }

  function Coerce(schema: Schema, value: Value, at: Path, fallback: Option<Value>): Coerced
    decreases schema, 1
  {
    if !Matches(schema, value) then Coerced(DefaultFor(schema, fallback), true, [Note(at, IgnoredType)])
    else if !Allowed(schema, value) then Coerced(DefaultFor(schema, fallback), true, [Note(at, IgnoredChoice)])
    else match schema
      case ArrayS(items, _) => CoerceRows(items, value.items, at)
      case ObjectS(properties, _, _, _) => CoerceFields(properties, value.fields, at, fallback)
      case _ => Coerced(value, false, [])
  }

  /** Rows of the wrong kind are dropped; the others are coerced one by one. */
  function CoerceRows(items: Schema, rows: seq<Value>, at: Path): (c: Coerced)
    ensures c.value.Arr?
    decreases items, 2, |rows|
  {
    if rows == [] then Coerced(Arr([]), false, [])
    else
      var last := |rows| - 1;
      var before := CoerceRows(items, rows[..last], at);
      if !Matches(items, rows[last]) then
        Coerced(before.value, true, before.notes + [Note(at + [Index(last)], DroppedRow)])
      else
        var row := Coerce(items, rows[last], at + [Index(last)], None);
        Coerced(Arr(before.value.items + [row.value]), before.changed || row.changed, before.notes + row.notes)
  }

  /** A declared key that is there is coerced, one that is absent is filled in; the rest of the
      record is carried through. */
  function CoerceFields(properties: seq<Property>, held: map<string, Value>, at: Path, fallback: Option<Value>): (c: Coerced)
    ensures c.value.Obj?
    decreases properties, 0
  {
    if properties == [] then Coerced(Obj(held), false, [])
    else
      var last := |properties| - 1;
      var name, child := properties[last].name, properties[last].schema;
      var before := CoerceFields(properties[..last], held, at, fallback);
      var inner := FallbackField(fallback, name);
      if name !in held then
        Coerced(Obj(before.value.fields[name := DefaultFor(child, inner)]), before.changed, before.notes)
      else
        var field := Coerce(child, held[name], at + [Key(name)], inner);
        Coerced(Obj(before.value.fields[name := field.value]), before.changed || field.changed, before.notes + field.notes)
  }

  /** The same, with notes already on the list. */
  function After(notes: seq<Note>, c: Coerced): Coerced { c.(notes := notes + c.notes) }

  lemma RowsStep(items: Schema, rows: seq<Value>, i: nat, at: Path)
    requires i < |rows|
    ensures var before := CoerceRows(items, rows[..i], at);
            var row := Coerce(items, rows[i], at + [Index(i)], None);
            CoerceRows(items, rows[..i + 1], at)
              == if !Matches(items, rows[i]) then Coerced(before.value, true, before.notes + [Note(at + [Index(i)], DroppedRow)])
                 else Coerced(Arr(before.value.items + [row.value]), before.changed || row.changed, before.notes + row.notes)
  {
    hide Matches, Coerce;
    assert rows[..i + 1][..i] == rows[..i];
  }

  lemma NoRows(items: Schema, at: Path)
    ensures CoerceRows(items, [], at) == Coerced(Arr([]), false, [])
  {
  }

  lemma FieldsStep(properties: seq<Property>, i: nat, held: map<string, Value>, at: Path, fallback: Option<Value>)
    requires i < |properties|
    ensures var name, child := properties[i].name, properties[i].schema;
            var before := CoerceFields(properties[..i], held, at, fallback);
            CoerceFields(properties[..i + 1], held, at, fallback)
              == if name !in held then
                   Coerced(Obj(before.value.fields[name := DefaultFor(child, FallbackField(fallback, name))]), before.changed, before.notes)
                 else
                   var field := Coerce(child, held[name], at + [Key(name)], FallbackField(fallback, name));
                   Coerced(Obj(before.value.fields[name := field.value]), before.changed || field.changed, before.notes + field.notes)
  {
    hide Coerce, DefaultFor, FallbackField;
    assert properties[..i + 1][..i] == properties[..i];
  }

  /** The loop over the rows of a list. */
  method CoerceRowsInto(items: Schema, rows: seq<Value>, at: Path, notes: seq<Note>)
    returns (out: Value, changed: bool, all: seq<Note>)
    ensures Coerced(out, changed, all) == After(notes, CoerceRows(items, rows, at))
    decreases items, 2
  {
    hide Matches, Coerce, CoerceRows;
    NoRows(items, at);
    assert rows[..0] == [];
    var kept := [];
    all, changed := notes, false;
    for i := 0 to |rows|
      invariant Coerced(Arr(kept), changed, all) == After(notes, CoerceRows(items, rows[..i], at))
    {
      RowsStep(items, rows, i, at);
      ghost var before := CoerceRows(items, rows[..i], at).notes;
      if !Matches(items, rows[i]) {
        all := all + [Note(at + [Index(i)], DroppedRow)];
        changed := true;
      } else {
        var row, altered;
        row, altered, all := CoerceInto(items, rows[i], at + [Index(i)], None, all);
        ghost var more := Coerce(items, rows[i], at + [Index(i)], None).notes;
        assert notes + before + more == notes + (before + more);
        changed := changed || altered;
        kept := kept + [row];
      }
    }
    assert rows[..|rows|] == rows;
    out := Arr(kept);
  }

  /** The loop over the declared keys of an object. */
  method CoerceFieldsInto(properties: seq<Property>, held: map<string, Value>, at: Path, fallback: Option<Value>, notes: seq<Note>)
    returns (out: Value, changed: bool, all: seq<Note>)
    ensures Coerced(out, changed, all) == After(notes, CoerceFields(properties, held, at, fallback))
    decreases properties, 0
  {
    hide Coerce, DefaultFor, FallbackField;
    var fields := held;
    all, changed := notes, false;
    for i := 0 to |properties|
      invariant Coerced(Obj(fields), changed, all) == After(notes, CoerceFields(properties[..i], held, at, fallback))
    {
      FieldsStep(properties, i, held, at, fallback);
      var name, child := properties[i].name, properties[i].schema;
      if name !in held {
        fields := fields[name := DefaultFor(child, FallbackField(fallback, name))];
      } else {
        var field, altered;
        field, altered, all := CoerceInto(child, held[name], at + [Key(name)], FallbackField(fallback, name), all);
        fields := fields[name := field];
        changed := changed || altered;
      }
    }
    assert properties[..|properties|] == properties;
    out := Obj(fields);
  }

  /** `coerce`, with the notes pushed onto the caller's list. */
  method CoerceInto(schema: Schema, value: Value, at: Path, fallback: Option<Value>, notes: seq<Note>)
    returns (out: Value, changed: bool, all: seq<Note>)
    ensures Coerced(out, changed, all) == After(notes, Coerce(schema, value, at, fallback))
    decreases schema, 1
  {
    hide Allowed, DefaultFor;
    if !Matches(schema, value) {
      return DefaultFor(schema, fallback), true, notes + [Note(at, IgnoredType)];
    }
    if !Allowed(schema, value) {
      return DefaultFor(schema, fallback), true, notes + [Note(at, IgnoredChoice)];
    }
    match schema {
      case ArrayS(items, _) =>
        out, changed, all := CoerceRowsInto(items, value.items, at, notes);
      case ObjectS(properties, _, _, _) =>
        out, changed, all := CoerceFieldsInto(properties, value.fields, at, fallback, notes);
      case _ =>
        return value, false, notes;
    }
  }

  // What a value of the declared shape is

  /** The whole declared shape, present and right: types, enums and every declared key. */
  ghost predicate Full(schema: Schema, value: Value) {
    && Matches(schema, value)
    && Allowed(schema, value)
    && match schema
       case ArrayS(items, _) => FullRows(items, value.items)
       case ObjectS(properties, _, _, _) => FullFields(properties, value.fields)
       case _ => true
  }

  ghost predicate FullRows(items: Schema, rows: seq<Value>) {
    forall i | 0 <= i < |rows| :: Full(items, rows[i])
  }

  ghost predicate FullFields(properties: seq<Property>, held: map<string, Value>) {
    forall i | 0 <= i < |properties| ::
      && properties[i].name in held
      && Full(properties[i].schema, held[properties[i].name])
  }

  /** A schema whose own defaults have its shape, whose enums have a default in them, and which
      requires only keys it declares, once each. */
  ghost predicate WellFormed(schema: Schema) {
    && (schema.default.Some? ==> Full(schema, schema.default.value))
    && match schema
       case StringS(choices, _, _, _, default) => choices.Some? ==> default.Some?
       case ArrayS(items, _) => WellFormed(items)
       case ObjectS(properties, required, _, _) =>
         && DistinctNames(properties)
         && (forall key | key in required :: PropertyOf(properties, key).Some?)
         && (forall i | 0 <= i < |properties| :: WellFormed(properties[i].schema))
       case _ => true
  }

  ghost predicate GoodFallback(schema: Schema, fallback: Option<Value>) {
    fallback.Some? ==> Full(schema, fallback.value)
  }

  // Coercion yields the declared shape

  lemma {:induction false} DefaultIsFull(schema: Schema, fallback: Option<Value>)
    requires WellFormed(schema) && GoodFallback(schema, fallback)
    ensures Full(schema, DefaultFor(schema, fallback))
    decreases schema, 1
  {
    if schema.ObjectS? {
      DefaultFieldsAreFull(schema.properties);
    }
  }

  lemma {:induction false} DefaultFieldsAreFull(properties: seq<Property>)
    requires DistinctNames(properties) && forall i | 0 <= i < |properties| :: WellFormed(properties[i].schema)
    ensures FullFields(properties, DefaultFields(properties))
    decreases properties, 0
  {
    if properties != [] {
      var last := |properties| - 1;
      DefaultFieldsAreFull(properties[..last]);
      DefaultIsFull(properties[last].schema, None);
      assert forall i | 0 <= i < last :: properties[..last][i] == properties[i];
    }
  }

  /** Whatever is stored, the coerced value has the whole declared shape. */
  lemma {:induction false} CoercedIsFull(schema: Schema, value: Value, at: Path, fallback: Option<Value>)
    requires WellFormed(schema) && GoodFallback(schema, fallback)
    ensures Full(schema, Coerce(schema, value, at, fallback).value)
    decreases schema, 1
  {
    if !Matches(schema, value) || !Allowed(schema, value) {
      DefaultIsFull(schema, fallback);
    } else {
      match schema
      case ArrayS(items, _) => CoercedRowsAreFull(items, value.items, at);
      case ObjectS(properties, _, _, _) => CoercedFieldsAreFull(properties, value.fields, at, fallback);
      case _ =>
    }
  }

  lemma {:induction false} CoercedRowsAreFull(items: Schema, rows: seq<Value>, at: Path)
    requires WellFormed(items)
    ensures FullRows(items, CoerceRows(items, rows, at).value.items)
    decreases items, 2, |rows|
  {
    if rows != [] {
      var last := |rows| - 1;
      CoercedRowsAreFull(items, rows[..last], at);
      CoercedIsFull(items, rows[last], at + [Index(last)], None);
    }
  }

  lemma {:induction false} CoercedFieldsAreFull(properties: seq<Property>, held: map<string, Value>, at: Path, fallback: Option<Value>)
    requires DistinctNames(properties) && forall i | 0 <= i < |properties| :: WellFormed(properties[i].schema)
    requires fallback.Some? ==> fallback.value.Obj? && FullFields(properties, fallback.value.fields)
    ensures FullFields(properties, CoerceFields(properties, held, at, fallback).value.fields)
    decreases properties, 0
  {
    if properties != [] {
      var last := |properties| - 1;
      var name, child := properties[last].name, properties[last].schema;
      assert forall i | 0 <= i < last :: properties[..last][i] == properties[i];
      CoercedFieldsAreFull(properties[..last], held, at, fallback);
      var inner := FallbackField(fallback, name);
      if name in held {
        CoercedIsFull(child, held[name], at + [Key(name)], inner);
      } else {
        DefaultIsFull(child, inner);
      }
    }
  }

  // A value of the declared shape is left exactly as it is

  lemma {:induction false} FullIsKept(schema: Schema, value: Value, at: Path, fallback: Option<Value>)
    requires Full(schema, value)
    ensures Coerce(schema, value, at, fallback) == Coerced(value, false, [])
    decreases schema, 1
  {
    match schema
    case ArrayS(items, _) => FullRowsAreKept(items, value.items, at);
    case ObjectS(properties, _, _, _) => FullFieldsAreKept(properties, value.fields, at, fallback);
    case _ =>
  }

  lemma {:induction false} FullRowsAreKept(items: Schema, rows: seq<Value>, at: Path)
    requires FullRows(items, rows)
    ensures CoerceRows(items, rows, at) == Coerced(Arr(rows), false, [])
    decreases items, 2, |rows|
  {
    hide Coerce, CoerceRows;
    if rows == [] {
      NoRows(items, at);
    } else {
      var last := |rows| - 1;
      FullRowsAreKept(items, rows[..last], at);
      FullIsKept(items, rows[last], at + [Index(last)], None);
      RowsStep(items, rows, last, at);
      FullMatches(items, rows[last]);
      assert rows[..last] + [rows[last]] == rows == rows[..last + 1];
    }
  }

  lemma FullMatches(schema: Schema, value: Value)
    requires Full(schema, value)
    ensures Matches(schema, value)
  {
  }

  lemma {:induction false} FullFieldsAreKept(properties: seq<Property>, held: map<string, Value>, at: Path, fallback: Option<Value>)
    requires FullFields(properties, held)
    ensures CoerceFields(properties, held, at, fallback) == Coerced(Obj(held), false, [])
    decreases properties, 0
  {
    if properties != [] {
      var last := |properties| - 1;
      var name, child := properties[last].name, properties[last].schema;
      assert forall i | 0 <= i < last :: properties[..last][i] == properties[i];
      FullFieldsAreKept(properties[..last], held, at, fallback);
      FullIsKept(child, held[name], at + [Key(name)], FallbackField(fallback, name));
      assert held[name := held[name]] == held;
    }
  }

  // What is reported

  /** Everything that is present is of the declared type and in its enum; keys may be missing. */
  ghost predicate Sound(schema: Schema, value: Value) {
    && Matches(schema, value)
    && Allowed(schema, value)
    && match schema
       case ArrayS(items, _) => forall i | 0 <= i < |value.items| :: Sound(items, value.items[i])
       case ObjectS(properties, _, _, _) =>
         forall i | 0 <= i < |properties| && properties[i].name in value.fields ::
           Sound(properties[i].schema, value.fields[properties[i].name])
       case _ => true
  }

  /** `b` is `a` with nothing altered and nothing removed: only object keys added. */
  ghost predicate FilledFrom(a: Value, b: Value) {
    match a
    case Arr(items) => b.Arr? && |b.items| == |items| && forall i | 0 <= i < |items| :: FilledFrom(items[i], b.items[i])
    case Obj(fields) => b.Obj? && forall key | key in fields :: key in b.fields && FilledFrom(fields[key], b.fields[key])
    case _ => a == b
  }

  lemma FilledFromItself(a: Value)
    ensures FilledFrom(a, a)
  {
  }

  /** A value is called malformed exactly when something in it is, and then a note says so; one
      that is sound is only ever filled in. */
  lemma {:induction false} ReportedIffUnsound(schema: Schema, value: Value, at: Path, fallback: Option<Value>)
    ensures var c := Coerce(schema, value, at, fallback);
            && (c.changed <==> c.notes != [])
            && (c.changed <==> !Sound(schema, value))
            && (!c.changed ==> FilledFrom(value, c.value))
    decreases schema, 1
  {
    FilledFromItself(value);
    if Matches(schema, value) && Allowed(schema, value) {
      match schema
      case ArrayS(items, _) => RowsReportedIffUnsound(items, value.items, at);
      case ObjectS(properties, _, _, _) => FieldsReportedIffUnsound(properties, value.fields, at, fallback);
      case _ =>
    }
  }

  lemma UnmatchedIsUnsound(schema: Schema, value: Value)
    ensures !Matches(schema, value) ==> !Sound(schema, value)
  {
  }

  lemma {:induction false} RowsReportedIffUnsound(items: Schema, rows: seq<Value>, at: Path)
    ensures var c := CoerceRows(items, rows, at);
            && (c.changed <==> c.notes != [])
            && (c.changed <==> exists i :: 0 <= i < |rows| && !Sound(items, rows[i]))
            && (!c.changed ==> FilledFrom(Arr(rows), c.value))
    decreases items, 2, |rows|
  {
    hide Sound, Coerce, Matches, CoerceRows;
    if rows == [] {
      NoRows(items, at);
    } else {
      var last := |rows| - 1;
      UnmatchedIsUnsound(items, rows[last]);
      RowsReportedIffUnsound(items, rows[..last], at);
      ReportedIffUnsound(items, rows[last], at + [Index(last)], None);
      RowsStep(items, rows, last, at);
      assert rows[..last + 1] == rows;
      assert forall i | 0 <= i < last :: rows[..last][i] == rows[i];
    }
  }

  lemma {:induction false} FieldsReportedIffUnsound(properties: seq<Property>, held: map<string, Value>, at: Path, fallback: Option<Value>)
    ensures var c := CoerceFields(properties, held, at, fallback);
            && (c.changed <==> c.notes != [])
            && (c.changed <==> exists i :: 0 <= i < |properties| && properties[i].name in held
                                 && !Sound(properties[i].schema, held[properties[i].name]))
            && (!c.changed ==> FilledFrom(Obj(held), c.value))
    decreases properties, 0
  {
    if properties == [] {
      FilledFromItself(Obj(held));
    } else {
      var last := |properties| - 1;
      var name, child := properties[last].name, properties[last].schema;
      FieldsReportedIffUnsound(properties[..last], held, at, fallback);
      if name in held {
        ReportedIffUnsound(child, held[name], at + [Key(name)], FallbackField(fallback, name));
      }
      assert forall i | 0 <= i < last :: properties[..last][i] == properties[i];
    }
  }

  // Both languages accept the declared shape

  /** The host finds no fault in it. */
  lemma {:induction false} FullConforms(schema: Schema, value: Value)
    requires Full(schema, value)
    ensures S.Conforms(Erase(schema), value)
  {
    match schema
    case ArrayS(items, _) =>
      forall i | 0 <= i < |value.items| ensures S.Conforms(Erase(items), value.items[i]) {
        FullConforms(items, value.items[i]);
      }
    case ObjectS(properties, _, _, _) =>
      forall i | 0 <= i < |properties| ensures S.Conforms(Erase(properties[i].schema), value.fields[properties[i].name]) {
        FullConforms(properties[i].schema, value.fields[properties[i].name]);
      }
    case _ =>
  }

  /** The editor's validator has no type, enum or missing-key error for it. */
  lemma {:induction false} FullHasOnlySoftProblems(schema: Schema, value: Value, rel: Path, kind: Kind)
    requires WellFormed(schema) && Full(schema, value)
    requires Flagged(schema, value, rel, kind)
    ensures kind.Soft()
    decreases rel
  {
    if rel != [] {
      match (schema, rel[0])
      case (ArrayS(items, _), Index(i)) =>
        FullHasOnlySoftProblems(items, value.items[i], rel[1..], kind);
      case (ObjectS(properties, _, _, _), Key(name)) =>
        if PropertyOf(properties, name).Some? {
          FullHasOnlySoftProblems(PropertyOf(properties, name).value, value.fields[name], rel[1..], kind);
        }
      case _ =>
    }
  }
}
