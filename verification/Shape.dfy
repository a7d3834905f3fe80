/** The declared shape of `config.json` as the host knows it (`src-tauri/src/cli.rs`): types only,
    no ranges, enums or defaults. */
module Shape {
  import opened Wrappers
  import opened Json

  datatype Shape =
    | StrShape
    | IntShape
    | NumShape
    | BoolShape
    | ObjectShape(fields: seq<Field>)
    | ArrayShape(item: Shape)

  datatype Field = Field(name: string, shape: Shape)

  function FieldOf(fields: seq<Field>, name: string): (r: Option<Shape>)
    ensures r.None? ==> forall i | 0 <= i < |fields| :: fields[i].name != name
    ensures r.Some? ==> exists i | 0 <= i < |fields| :: fields[i].name == name && fields[i].shape == r.value
  {
    if fields == [] then None
    else if fields[0].name == name then Some(fields[0].shape)
    else
      var rest := fields[1..];
      assert forall i | 0 < i < |fields| :: fields[i] == rest[i - 1];
      assert forall i | 0 <= i < |rest| :: rest[i] == fields[i + 1];
      FieldOf(rest, name)
  }

  /** `Shape::accepts`: the value is of the declared kind, whatever is inside it. */
  predicate Accepts(shape: Shape, value: Value) {
    match shape
    case StrShape => value.Str?
    case IntShape => value.Num? && value.n.Whole()
    case NumShape => value.Num?
    case BoolShape => value.Bool?
    case ObjectShape(_) => value.Obj?
    case ArrayShape(_) => value.Arr?
  }

  /** Every field name is declared once, all the way down. */
  ghost predicate WellNamed(shape: Shape) {
    match shape
    case ArrayShape(item) => WellNamed(item)
    case ObjectShape(fields) =>
      && (forall i, j | 0 <= i < j < |fields| :: fields[i].name != fields[j].name)
      && (forall i | 0 <= i < |fields| :: WellNamed(fields[i].shape))
    case _ => true
  }

  /** Every place the value disagrees with the shape, in the order `Shape::faults` reports them.
      Nothing is looked for below a place that is itself wrong. */
  function Faults(shape: Shape, value: Value, at: Path): seq<Path>
    decreases shape, 1
  {
    if !Accepts(shape, value) then [at]
    else match shape
      case ArrayShape(item) => FaultsOfRows(item, value.items, at)
      case ObjectShape(fields) => FaultsOfFields(fields, value.fields, at)
      case _ => []
  }

  function FaultsOfRows(item: Shape, rows: seq<Value>, at: Path): seq<Path>
    decreases item, 2, |rows|
  {
    if rows == [] then []
    else
      var last := |rows| - 1;
      FaultsOfRows(item, rows[..last], at) + Faults(item, rows[last], at + [Index(last)])
  }

  function FaultsOfFields(fields: seq<Field>, held: map<string, Value>, at: Path): seq<Path>
    decreases fields, 0
  {
    if fields == [] then []
    else
      var last := |fields| - 1;
      FaultsOfFields(fields[..last], held, at)
      + (if fields[last].name in held
         then Faults(fields[last].shape, held[fields[last].name], at + [Key(fields[last].name)])
         else [])
  }

  /** The loops of `Shape::faults`, pushing onto the caller's list. */
  method PushFaults(shape: Shape, value: Value, at: Path, before: seq<Path>) returns (out: seq<Path>)
    ensures out == before + Faults(shape, value, at)
    decreases shape
  {
    out := before;
    if !Accepts(shape, value) {
      return out + [at];
    }
    match shape
    case ArrayShape(item) =>
      for i := 0 to |value.items|
        invariant out == before + FaultsOfRows(item, value.items[..i], at)
      {
        out := PushFaults(item, value.items[i], at + [Index(i)], out);
        assert value.items[..i + 1][..i] == value.items[..i];
      }
      assert value.items[..|value.items|] == value.items;
    case ObjectShape(fields) =>
      for i := 0 to |fields|
        invariant out == before + FaultsOfFields(fields[..i], value.fields, at)
      {
        assert fields[..i + 1][..i] == fields[..i];
        if fields[i].name in value.fields {
          out := PushFaults(fields[i].shape, value.fields[fields[i].name], at + [Key(fields[i].name)], out);
        }
      }
      assert fields[..|fields|] == fields;
    case _ =>
  }

  /** What a fault is, position by position: the value `rel` leads to exists, everything above it
      is of the declared kind, and it is not. */
  ghost predicate FaultAt(shape: Shape, value: Value, rel: Path)
    decreases rel
  {
    if rel == [] then !Accepts(shape, value)
    else
      && Accepts(shape, value)
      && Child(value, rel[0]).Some?
      && Below(shape, rel[0]).Some?
      && FaultAt(Below(shape, rel[0]).value, Child(value, rel[0]).value, rel[1..])
  }

  /** The shape declared for the child a step names. */
  function Below(shape: Shape, step: Step): Option<Shape> {
    match (shape, step)
    case (ArrayShape(item), Index(_)) => Some(item)
    case (ObjectShape(fields), Key(name)) => FieldOf(fields, name)
    case _ => None
  }

  /** No declared value anywhere inside is of the wrong kind. */
  ghost predicate Conforms(shape: Shape, value: Value) {
    && Accepts(shape, value)
    && match shape
       case ArrayShape(item) => forall i | 0 <= i < |value.items| :: Conforms(item, value.items[i])
       case ObjectShape(fields) =>
         forall i | 0 <= i < |fields| && fields[i].name in value.fields ::
           Conforms(fields[i].shape, value.fields[fields[i].name])
       case _ => true
  }

  lemma UniqueField(fields: seq<Field>, i: nat)
    requires WellNamed(ObjectShape(fields)) && i < |fields|
    ensures FieldOf(fields, fields[i].name) == Some(fields[i].shape)
  {
  }

  /** The list the host reports is exactly the set of faults, each at its own position. */
  lemma {:induction false} FaultsExact(shape: Shape, value: Value, at: Path, p: Path)
    requires WellNamed(shape)
    ensures p in Faults(shape, value, at) <==> at <= p && FaultAt(shape, value, p[|at|..])
    decreases shape, 1
  {
    if !Accepts(shape, value) {
      if at <= p {
        assert p[|at|..] == [] ==> p == at;
      }
    } else {
      match shape
      case ArrayShape(item) =>
        RowFaultsExact(item, value.items, at, p);
        if at < p { assert p[|at|..][0] == p[|at|] && p[|at|..][1..] == p[|at| + 1..]; }
      case ObjectShape(fields) =>
        FieldFaultsExact(fields, value.fields, at, p);
        if at < p {
          assert p[|at|..][0] == p[|at|] && p[|at|..][1..] == p[|at| + 1..];
          forall i | 0 <= i < |fields| ensures FieldOf(fields, fields[i].name) == Some(fields[i].shape) {
            UniqueField(fields, i);
          }
        }
      case _ =>
    }
  }

  lemma {:induction false} RowFaultsExact(item: Shape, rows: seq<Value>, at: Path, p: Path)
    requires WellNamed(item)
    ensures p in FaultsOfRows(item, rows, at)
      <==> at < p && p[|at|].Index? && p[|at|].i < |rows| && FaultAt(item, rows[p[|at|].i], p[|at| + 1..])
    decreases item, 2, |rows|
  {
    if rows != [] {
      var last := |rows| - 1;
      RowFaultsExact(item, rows[..last], at, p);
      FaultsExact(item, rows[last], at + [Index(last)], p);
    }
  }

  lemma {:induction false} FieldFaultsExact(fields: seq<Field>, held: map<string, Value>, at: Path, p: Path)
    requires forall i | 0 <= i < |fields| :: WellNamed(fields[i].shape)
    ensures p in FaultsOfFields(fields, held, at)
      <==> at < p && exists i ::
             && 0 <= i < |fields| && fields[i].name in held && p[|at|] == Key(fields[i].name)
             && FaultAt(fields[i].shape, held[fields[i].name], p[|at| + 1..])
    decreases fields, 0
  {
    if fields != [] {
      var last := |fields| - 1;
      FieldFaultsExact(fields[..last], held, at, p);
      if fields[last].name in held {
        FaultsExact(fields[last].shape, held[fields[last].name], at + [Key(fields[last].name)], p);
      }
    }
  }

  /** Reporting nothing and conforming are the same thing. */
  lemma {:induction false} NoFaultsIsConforms(shape: Shape, value: Value, at: Path)
    ensures Faults(shape, value, at) == [] <==> Conforms(shape, value)
    decreases shape, 1
  {
    match shape
    case ArrayShape(item) => if value.Arr? { RowsNoFaults(item, value.items, at); }
    case ObjectShape(fields) => if value.Obj? { FieldsNoFaults(fields, value.fields, at); }
    case _ =>
  }

  lemma {:induction false} RowsNoFaults(item: Shape, rows: seq<Value>, at: Path)
    ensures FaultsOfRows(item, rows, at) == [] <==> forall i | 0 <= i < |rows| :: Conforms(item, rows[i])
    decreases item, 2, |rows|
  {
    if rows != [] {
      var last := |rows| - 1;
      RowsNoFaults(item, rows[..last], at);
      NoFaultsIsConforms(item, rows[last], at + [Index(last)]);
      assert forall i | 0 <= i < last :: rows[..last][i] == rows[i];
    }
  }

  lemma {:induction false} FieldsNoFaults(fields: seq<Field>, held: map<string, Value>, at: Path)
    ensures FaultsOfFields(fields, held, at) == []
      <==> forall i | 0 <= i < |fields| && fields[i].name in held :: Conforms(fields[i].shape, held[fields[i].name])
    decreases fields, 0
  {
    if fields != [] {
      var last := |fields| - 1;
      FieldsNoFaults(fields[..last], held, at);
      if fields[last].name in held {
        NoFaultsIsConforms(fields[last].shape, held[fields[last].name], at + [Key(fields[last].name)]);
      }
      assert forall i | 0 <= i < last :: fields[..last][i] == fields[i];
    }
  }
}
