/** Which writes to the config store are accepted, and what a refused one is told
    (`src-tauri/src/cli.rs`: `set_nested`, `place`): said over what the store holds and what the
    tables declare at each node of the key, without following the write. */
module ConfigAcceptance {
  import opened Wrappers
  import opened Json
  import opened Shape
  import opened ConfigPath
  import opened ConfigSafety

  /** There is nothing here, or null, which a write takes for nothing. */
  predicate Absent(here: Option<Value>) { here.None? || here.value.Null? }

  /** Something else is here than the container that is declared. */
  predicate HoldsOther(here: Option<Value>, declared: Option<Shape>) {
    && declared.Some? && !Absent(here)
    && match declared.value
       case ArrayShape(_) => !here.value.Arr?
       case ObjectShape(_) => !here.value.Obj?
       case _ => false
  }

  /** Nothing can be below: a scalar is declared, or one is there where nothing is declared. */
  predicate HasNoBelow(here: Option<Value>, declared: Option<Shape>) {
    match declared
    case Some(ArrayShape(_)) => false
    case Some(ObjectShape(_)) => false
    case Some(_) => true
    case None => !Absent(here) && !here.value.Arr? && !here.value.Obj?
  }

  /** The next segment has to name a row: an array is declared, or one is there and nothing is. */
  predicate WantsRow(here: Option<Value>, declared: Option<Shape>) {
    match declared
    case Some(ArrayShape(_)) => true
    case Some(_) => false
    case None => here.Some? && here.value.Arr?
  }

  function Rows(here: Option<Value>): nat {
    if here.Some? && here.value.Arr? then |here.value.items| else 0
  }

  /** A key goes on through this node: what is here can hold the next segment, and a row it names is
      there or is the next one. */
  predicate Passable(here: Option<Value>, declared: Option<Shape>, segment: string) {
    && !HoldsOther(here, declared) && !HasNoBelow(here, declared)
    && (WantsRow(here, declared) ==> ParseIndex(segment).Some? && ParseIndex(segment).value <= Rows(here))
  }

  /** What is said of the first node that is not passable. */
  function Objection(here: Option<Value>, declared: Option<Shape>, segment: string): Refusal
    requires !Passable(here, declared, segment)
  {
    if HoldsOther(here, declared) then HoldsAnotherType
    else if HasNoBelow(here, declared) then NamesNothing
    else if ParseIndex(segment).None? then NotARowNumber
    else PastTheEnd(Rows(here))
  }

  predicate PassableAt(node: Option<Value>, shape: Option<Shape>, rest: seq<string>, k: nat)
    requires k < |rest|
  {
    Passable(DigIn(node, rest[..k]), ShapeAt(shape, rest[..k]), rest[k])
  }

  function ObjectionAt(node: Option<Value>, shape: Option<Shape>, rest: seq<string>, k: nat): Refusal
    requires k < |rest| && !PassableAt(node, shape, rest, k)
  {
    Objection(DigIn(node, rest[..k]), ShapeAt(shape, rest[..k]), rest[k])
  }

  predicate PassableTo(node: Option<Value>, shape: Option<Shape>, rest: seq<string>, k: nat)
    requires k <= |rest|
  {
    forall j: nat | j < k :: PassableAt(node, shape, rest, j)
  }

  /** The value is of the type declared for its key, if one is. */
  predicate Typed(shape: Option<Shape>, rest: seq<string>, value: Value) {
    ShapeAt(shape, rest).Some? ==> Accepts(ShapeAt(shape, rest).value, value)
  }

  /** The nodes below the first one are those of the placement below it. */
  lemma BelowFirst(node: Option<Value>, shape: Option<Shape>, rest: seq<string>, container: Value, step: Step, k: nat)
    requires k < |rest| && Open(node, shape) == Ok(container) && Resolve(container, rest[0]) == Some(step)
    ensures DigIn(Child(container, step), rest[1..][..k]) == DigIn(node, rest[..k + 1])
    ensures ShapeAt(BelowOpt(shape, step), rest[1..][..k]) == ShapeAt(shape, rest[..k + 1])
  {
    var all := rest[..k + 1];
    assert all[0] == rest[0] && all[1..] == rest[1..][..k];
  }

  lemma SamePassable(node: Option<Value>, shape: Option<Shape>, rest: seq<string>, container: Value, step: Step, k: nat)
    requires k < |rest| - 1 && Open(node, shape) == Ok(container) && Resolve(container, rest[0]) == Some(step)
    ensures PassableAt(node, shape, rest, k + 1) <==> PassableAt(Child(container, step), BelowOpt(shape, step), rest[1..], k)
    ensures !PassableAt(node, shape, rest, k + 1)
      ==> ObjectionAt(node, shape, rest, k + 1) == ObjectionAt(Child(container, step), BelowOpt(shape, step), rest[1..], k)
  {
    hide Passable, Objection, Open, DigIn, ShapeAt;
    BelowFirst(node, shape, rest, container, step, k);
  }

  lemma PassableBelow(node: Option<Value>, shape: Option<Shape>, rest: seq<string>, container: Value, step: Step, k: nat)
    requires 0 < k <= |rest| && Open(node, shape) == Ok(container) && Resolve(container, rest[0]) == Some(step)
    ensures PassableTo(node, shape, rest, k)
      <==> PassableAt(node, shape, rest, 0) && PassableTo(Child(container, step), BelowOpt(shape, step), rest[1..], k - 1)
  {
    hide PassableAt, Open, Resolve, DigIn, ShapeAt;
    var child, below := Child(container, step), BelowOpt(shape, step);
    forall j: nat | 0 < j < k ensures PassableAt(node, shape, rest, j) <==> PassableAt(child, below, rest[1..], j - 1) {
      SamePassable(node, shape, rest, container, step, j - 1);
    }
    if PassableTo(node, shape, rest, k) {
      forall j: nat | j < k - 1 ensures PassableAt(child, below, rest[1..], j) {
        assert PassableAt(node, shape, rest, j + 1);
      }
    }
  }

  /** The first node is passable when the placement gets past it, and objected to when it does not. */
  lemma FirstNode(node: Option<Value>, shape: Option<Shape>, rest: seq<string>, value: Value)
    requires rest != []
    ensures PassableAt(node, shape, rest, 0) <==>
              && Open(node, shape).Ok? && Resolve(Open(node, shape).value, rest[0]).Some?
              && var container, step := Open(node, shape).value, Resolve(Open(node, shape).value, rest[0]).value;
                 (container.Arr? ==> step.i <= |container.items|)
    ensures !PassableAt(node, shape, rest, 0) ==>
              Place(node, shape, rest, value) == Err(ObjectionAt(node, shape, rest, 0))
  {
    assert rest[..0] == [];
    assert DigIn(node, []) == node && ShapeAt(shape, []) == shape;
  }

  /** It is accepted when every node is passable and the value is of its type; otherwise it is refused
      for the first thing in its way. */
  ghost predicate Answers(node: Option<Value>, shape: Option<Shape>, rest: seq<string>, value: Value, r: Result<Value, Refusal>) {
    && (PassableTo(node, shape, rest, |rest|) ==> if Typed(shape, rest, value) then r.Ok? else r == Err(ValueOfWrongType))
    && forall k: nat | k < |rest| && PassableTo(node, shape, rest, k) && !PassableAt(node, shape, rest, k) ::
         r == Err(ObjectionAt(node, shape, rest, k))
  }

  /** What a placement answers, in every case. */
  lemma {:induction false} PlaceAnswers(node: Option<Value>, shape: Option<Shape>, rest: seq<string>, value: Value)
    ensures Answers(node, shape, rest, value, Place(node, shape, rest, value))
    decreases |rest|
  {
    if rest == [] {
      PlaceHere(node, shape, value);
    } else {
      FirstNode(node, shape, rest, value);
      assert rest[..0] == [];
      if PassableAt(node, shape, rest, 0) {
        var container, step := Open(node, shape).value, Resolve(Open(node, shape).value, rest[0]).value;
        PlaceAnswers(Child(container, step), BelowOpt(shape, step), rest[1..], value);
        hide Answers, PassableAt, PassableTo, Open, Resolve, Child, BelowOpt;
        AnswersAbove(node, shape, rest, value, container, step, Place(Child(container, step), BelowOpt(shape, step), rest[1..], value));
      } else {
        hide PassableAt, Place, Typed, ObjectionAt;
      }
    }
  }

  lemma PlaceHere(node: Option<Value>, shape: Option<Shape>, value: Value)
    ensures Place(node, shape, [], value) == if Typed(shape, [], value) then Ok(value) else Err(ValueOfWrongType)
  {
  }

  lemma AnswersAbove(
    node: Option<Value>, shape: Option<Shape>, rest: seq<string>, value: Value, container: Value, step: Step, below: Result<Value, Refusal>)
    requires rest != [] && PassableAt(node, shape, rest, 0)
    requires Open(node, shape) == Ok(container) && Resolve(container, rest[0]) == Some(step)
    requires Answers(Child(container, step), BelowOpt(shape, step), rest[1..], value, below)
    ensures forall r: Result<Value, Refusal> | r.Ok? == below.Ok? && (r.Err? ==> r == below) :: Answers(node, shape, rest, value, r)
  {
    hide Passable, PassableAt, PassableTo, ObjectionAt, Accepts, Open, Resolve, Child, BelowOpt, DigIn;
    var tail := rest[1..];
    PassableBelow(node, shape, rest, container, step, |rest|);
    BelowFirst(node, shape, rest, container, step, |tail|);
    assert tail[..|tail|] == tail && rest[..|rest|] == rest;
    forall k: nat | k < |rest| && PassableTo(node, shape, rest, k) && !PassableAt(node, shape, rest, k)
      ensures below == Err(ObjectionAt(node, shape, rest, k))
    {
      PassableBelow(node, shape, rest, container, step, k);
      SamePassable(node, shape, rest, container, step, k - 1);
    }
  }

  lemma {:induction false} FirstObstacle(node: Option<Value>, shape: Option<Shape>, rest: seq<string>, n: nat)
    requires n <= |rest|
    ensures PassableTo(node, shape, rest, n)
      || exists k: nat | k < n :: PassableTo(node, shape, rest, k) && !PassableAt(node, shape, rest, k)
  {
    hide PassableAt;
    if n > 0 {
      FirstObstacle(node, shape, rest, n - 1);
    }
  }

  // The store

  function Document(saved: map<string, Value>): Option<Value> { Some(Obj(saved)) }

  function Table(config: seq<Field>): Option<Shape> { Some(ObjectShape(config)) }

  /** When a write to the store is accepted: no segment is empty; at every node on the way there is
      nothing, null, or a container of the declared kind, with a row number no higher than the number
      of rows; nothing is looked for below a scalar; and the value is of the declared type. */
  lemma AcceptedIff(config: seq<Field>, saved: map<string, Value>, parts: seq<string>, value: Value)
    requires parts != []
    ensures SetNested(config, saved, parts, value).Ok? <==>
              && "" !in parts
              && (forall k: nat | k < |parts| ::
                    Passable(DigIn(Document(saved), parts[..k]), ShapeAt(Table(config), parts[..k]), parts[k]))
              && Typed(Table(config), parts, value)
  {
    if "" !in parts {
      Settle(config, saved, parts, value);
      FirstObstacle(Document(saved), Table(config), parts, |parts|);
      hide Passable, Typed, SetNested, Objection, DigIn, ShapeAt, Document, Table;
      if SetNested(config, saved, parts, value).Ok? {
        assert PassableTo(Document(saved), Table(config), parts, |parts|);
        forall k: nat | k < |parts|
          ensures Passable(DigIn(Document(saved), parts[..k]), ShapeAt(Table(config), parts[..k]), parts[k])
        {
          assert PassableAt(Document(saved), Table(config), parts, k);
        }
      }
    } else {
      hide Passable, Typed, PlanSet, DigIn, ShapeAt;
    }
  }

  /** And what a refused one is told: the first node in the way decides, then the value. */
  lemma RefusedIff(config: seq<Field>, saved: map<string, Value>, parts: seq<string>, value: Value, e: Refusal)
    requires parts != []
    ensures SetNested(config, saved, parts, value) == Err(e) <==>
              if "" in parts then e == EmptySegment
              else
                || (exists k: nat | k < |parts| ::
                      && PassableTo(Document(saved), Table(config), parts, k) && !PassableAt(Document(saved), Table(config), parts, k)
                      && e == ObjectionAt(Document(saved), Table(config), parts, k))
                || (PassableTo(Document(saved), Table(config), parts, |parts|) && !Typed(Table(config), parts, value) && e == ValueOfWrongType)
  {
    if "" !in parts {
      Settle(config, saved, parts, value);
      FirstObstacle(Document(saved), Table(config), parts, |parts|);
      hide PassableAt, Typed, SetNested, ObjectionAt, Document, Table;
    } else {
      hide PassableAt, Typed, PlanSet, ObjectionAt;
    }
  }

  lemma Settle(config: seq<Field>, saved: map<string, Value>, parts: seq<string>, value: Value)
    requires parts != [] && "" !in parts
    ensures exists r :: Answers(Document(saved), Table(config), parts, value, r)
              && match r
                 case Ok(_) => SetNested(config, saved, parts, value).Ok?
                 case Err(e) => SetNested(config, saved, parts, value) == Err(e)
  {
    hide Place, Answers, SetNested;
    SetNestedIsPlace(config, saved, parts, value);
    PlaceAnswers(Document(saved), Table(config), parts, value);
  }
}
