/** Reading and writing one dotted key of the config store (`src-tauri/src/cli.rs`: `dig`,
    `set_nested`, `plan_set`, `place`). A key is given already split at its dots. */
module ConfigPath {
  import opened Wrappers
  import opened Json
  import opened Shape
  import Text

  /** Why a write is refused. */
  datatype Refusal =
    | EmptySegment
    | ValueOfWrongType
    | HoldsAnotherType
    | NotARowNumber
    | PastTheEnd(rows: nat)
    | NamesNothing

  /** `part.parse::<usize>()` on a 64-bit host. */
  function ParseIndex(segment: string): Option<nat> {
    Text.ParseUnsigned(segment, Text.U64_BOUND)
  }

  /** The child a path segment resolves to in a container: a row of an array by number, a field
      of an object by name. `0`, `00` and `+0` are the same row. */
  function Resolve(container: Value, segment: string): Option<Step> {
    match container
    case Arr(_) => (match ParseIndex(segment) case Some(i) => Some(Index(i)) case None => None)
    case Obj(_) => Some(Key(segment))
    case _ => None
  }

  function DigFrom(cur: Value, parts: seq<string>): Option<Value>
    decreases |parts|
  {
    if parts == [] then Some(cur)
    else
      match Resolve(cur, parts[0])
      case None => None
      case Some(step) =>
        match Child(cur, step)
        case None => None
        case Some(child) => DigFrom(child, parts[1..])
  }

  /** `DigFrom` where there may be no value to start from. */
  function DigIn(node: Option<Value>, parts: seq<string>): Option<Value> {
    match node case None => None case Some(v) => DigFrom(v, parts)
  }

  /** `dig`: the loop over the segments of a key. */
  method Dig(saved: map<string, Value>, parts: seq<string>) returns (found: Option<Value>)
    requires parts != []
    ensures found == DigFrom(Obj(saved), parts)
  {
    if parts[0] !in saved {
      return None;
    }
    var cur := saved[parts[0]];
    for k := 1 to |parts|
      invariant DigFrom(Obj(saved), parts) == DigFrom(cur, parts[k..])
    {
      var part := parts[k];
      if cur.Arr? && ParseIndex(part).Some? {
        var index := ParseIndex(part).value;
        if index >= |cur.items| {
          return None;
        }
        cur := cur.items[index];
      } else {
        var next := cur.Get(part);
        if next.None? {
          return None;
        }
        cur := next.value;
      }
      assert parts[k..][1..] == parts[k + 1..];
    }
    return Some(cur);
  }

  /** The container a write continues into. A missing or null node becomes an empty one of the
      declared kind, an object where nothing is declared; any other mismatch is a refusal. */
  function Open(node: Option<Value>, shape: Option<Shape>): (r: Result<Value, Refusal>)
    ensures r.Ok? ==> r.value.Container()
  {
    var absent := node.None? || node.value.Null?;
    match shape
    case Some(ArrayShape(_)) =>
      if absent then Ok(Arr([]))
      else if node.value.Arr? then Ok(node.value)
      else Err(HoldsAnotherType)
    case Some(ObjectShape(_)) =>
      if absent then Ok(Obj(map[]))
      else if node.value.Obj? then Ok(node.value)
      else Err(HoldsAnotherType)
    case Some(_) => Err(NamesNothing)
    case None =>
      if absent then Ok(Obj(map[]))
      else if node.value.Container() then Ok(node.value)
      else Err(NamesNothing)
  }

  /** The shape declared below an optional shape. */
  function BelowOpt(shape: Option<Shape>, step: Step): Option<Shape> {
    match shape case None => None case Some(s) => Below(s, step)
  }

  /** Append or replace a row, insert or replace a field. */
  function Put(container: Value, step: Step, child: Value): Value
    requires container.Container()
    requires container.Arr? ==> step.Index? && step.i <= |container.items|
    requires container.Obj? ==> step.Key?
  {
    match container
    case Arr(items) =>
      if step.i == |items| then Arr(items + [child]) else Arr(items[step.i := child])
    case Obj(fields) => Obj(fields[step.name := child])
  }

  function Place(node: Option<Value>, shape: Option<Shape>, rest: seq<string>, value: Value): Result<Value, Refusal>
    decreases |rest|
  {
    if rest == [] then
      if shape.Some? && !Accepts(shape.value, value) then Err(ValueOfWrongType) else Ok(value)
    else
      match Open(node, shape)
      case Err(e) => Err(e)
      case Ok(container) =>
        match Resolve(container, rest[0])
        case None => Err(NotARowNumber)
        case Some(step) =>
          if step.Index? && container.Arr? && step.i > |container.items| then Err(PastTheEnd(|container.items|))
          else
            match Place(Child(container, step), BelowOpt(shape, step), rest[1..], value)
            case Err(e) => Err(e)
            case Ok(child) => Ok(Put(container, step, child))
  }

  /** `plan_set`, for the declared fields `config`: what the store should hold under `path[0]`. */
  function PlanSet(config: seq<Field>, existing: Option<Value>, path: seq<string>, value: Value): Result<Value, Refusal>
    requires path != []
  {
    Place(existing, FieldOf(config, path[0]), path[1..], value)
  }

  /** `set_nested` as a function of the whole store. */
  function SetNested(config: seq<Field>, saved: map<string, Value>, parts: seq<string>, value: Value)
    : Result<map<string, Value>, Refusal>
    requires parts != []
  {
    if exists i | 0 <= i < |parts| :: parts[i] == "" then Err(EmptySegment)
    else
      match PlanSet(config, Obj(saved).Get(parts[0]), parts, value)
      case Err(e) => Err(e)
      case Ok(root) => Ok(saved[parts[0] := root])
  }

  /** A store the CLI writes through. */
  class Store {
    const config: seq<Field>
    var entries: map<string, Value>

    constructor (config: seq<Field>, entries: map<string, Value>)
      ensures this.config == config && this.entries == entries
    {
      this.config := config;
      this.entries := entries;
    }

    /** A refused write leaves the store exactly as it was. */
    method SetNestedKey(parts: seq<string>, value: Value) returns (r: Result<(), Refusal>)
      requires parts != []
      modifies this
      ensures match SetNested(config, old(entries), parts, value)
              case Ok(after) => r.Ok? && entries == after
              case Err(e) => r == Err(e) && entries == old(entries)
    {
      for i := 0 to |parts|
        invariant forall k | 0 <= k < i :: parts[k] != ""
      {
        if parts[i] == "" {
          return Err(EmptySegment);
        }
      }
      var existing := if parts[0] in entries then Some(entries[parts[0]]) else None;
      var root := PlanSet(config, existing, parts, value);
      if root.Err? {
        return Err(root.error);
      }
      entries := entries[parts[0] := root.value];
      return Ok(());
    }
  }

  // The lens laws

  /** A write to the store is a placement into the object that the store is. */
  lemma SetNestedIsPlace(config: seq<Field>, saved: map<string, Value>, parts: seq<string>, value: Value)
    requires parts != [] && forall i | 0 <= i < |parts| :: parts[i] != ""
    ensures match Place(Some(Obj(saved)), Some(ObjectShape(config)), parts, value)
            case Ok(doc) => doc.Obj? && SetNested(config, saved, parts, value) == Ok(doc.fields)
            case Err(e) => SetNested(config, saved, parts, value) == Err(e)
  {
  }

  /** What a placement did at its first segment. */
  lemma PlaceStep(node: Option<Value>, shape: Option<Shape>, rest: seq<string>, value: Value)
    returns (container: Value, step: Step, child: Value)
    requires rest != [] && Place(node, shape, rest, value).Ok?
    ensures Open(node, shape) == Ok(container) && container.Container()
    ensures Resolve(container, rest[0]) == Some(step)
    ensures container.Arr? ==> step.Index? && step.i <= |container.items|
    ensures container.Obj? ==> step.Key?
    ensures Place(Child(container, step), BelowOpt(shape, step), rest[1..], value) == Ok(child)
    ensures Place(node, shape, rest, value) == Ok(Put(container, step, child))
    ensures Child(Put(container, step, child), step) == Some(child)
    ensures Resolve(Put(container, step, child), rest[0]) == Some(step)
    ensures Open(Some(Put(container, step, child)), shape) == Ok(Put(container, step, child))
  {
    container := Open(node, shape).value;
    step := Resolve(container, rest[0]).value;
    child := Place(Child(container, step), BelowOpt(shape, step), rest[1..], value).value;
  }

  /** Reading back the key that was written gives the value that was written. */
  lemma {:induction false} PutGet(node: Option<Value>, shape: Option<Shape>, rest: seq<string>, value: Value)
    requires Place(node, shape, rest, value).Ok?
    ensures DigFrom(Place(node, shape, rest, value).value, rest) == Some(value)
    decreases |rest|
  {
    if rest != [] {
      var container, step, child := PlaceStep(node, shape, rest, value);
      PutGet(Child(container, step), BelowOpt(shape, step), rest[1..], value);
    }
  }

  lemma PutTwice(container: Value, step: Step, a: Value)
    requires container.Container()
    requires container.Arr? ==> step.Index? && step.i <= |container.items|
    requires container.Obj? ==> step.Key?
    ensures forall b :: Put(Put(container, step, a), step, b) == Put(container, step, b)
  {
    forall b ensures Put(Put(container, step, a), step, b) == Put(container, step, b) {
      if container.Obj? {
        assert container.fields[step.name := a][step.name := b] == container.fields[step.name := b];
      } else {
        assert Put(Put(container, step, a), step, b).items == Put(container, step, b).items;
      }
    }
  }

  /** A second write to the same key leaves no trace of the first, and is refused for the same
      reasons as if the first had never happened. */
  lemma {:induction false} PutPut(node: Option<Value>, shape: Option<Shape>, rest: seq<string>, first: Value, second: Value)
    requires Place(node, shape, rest, first).Ok?
    ensures Place(Some(Place(node, shape, rest, first).value), shape, rest, second) == Place(node, shape, rest, second)
    decreases |rest|
  {
    if rest != [] {
      var container, step, child := PlaceStep(node, shape, rest, first);
      PutPut(Child(container, step), BelowOpt(shape, step), rest[1..], first, second);
      PutTwice(container, step, child);
    }
  }

  /** Two keys name positions of `doc` that part ways: at some container on both, they resolve to
      different children. Neither is nested in the other. */
  ghost predicate Apart(doc: Value, p: seq<string>, q: seq<string>)
    decreases |p|
  {
    && p != [] && q != [] && doc.Container()
    && Resolve(doc, p[0]).Some?
    && (Resolve(doc, p[0]) == Resolve(doc, q[0]) ==>
          && Child(doc, Resolve(doc, p[0]).value).Some?
          && Apart(Child(doc, Resolve(doc, p[0]).value).value, p[1..], q[1..]))
  }

  /** A write changes nothing that is read at a position apart from it. */
  lemma {:induction false} PutElsewhere(node: Option<Value>, shape: Option<Shape>, p: seq<string>, q: seq<string>, value: Value)
    requires Place(node, shape, p, value).Ok?
    requires Apart(Place(node, shape, p, value).value, p, q)
    ensures DigFrom(Place(node, shape, p, value).value, q) == DigIn(node, q)
    decreases |p|
  {
    var container, step, child := PlaceStep(node, shape, p, value);
    var after := Put(container, step, child);
    assert node.None? || node.value.Null? || container == node.value;
    if Resolve(after, q[0]) == Some(step) {
      PutElsewhere(Child(container, step), BelowOpt(shape, step), p[1..], q[1..], value);
    }
  }

  lemma SettersCommute(container: Value, s: Step, a: Value, t: Step, b: Value)
    requires container.Container() && s != t
    requires container.Arr? ==> s.Index? && t.Index? && s.i <= |container.items| && t.i <= |container.items|
    requires container.Obj? ==> s.Key? && t.Key?
    ensures Put(Put(container, s, a), t, b) == Put(Put(container, t, b), s, a)
  {
    if container.Obj? {
      assert container.fields[s.name := a][t.name := b] == container.fields[t.name := b][s.name := a];
    } else {
      assert Put(Put(container, s, a), t, b).items == Put(Put(container, t, b), s, a).items;
    }
  }

  /** Two accepted writes that first part ways here: neither saw what the other wrote. */
  lemma PutsCommuteHere(node: Option<Value>, shape: Option<Shape>, p: seq<string>, q: seq<string>, v: Value, w: Value)
    requires p != [] && q != []
    requires Place(node, shape, p, v).Ok? && Place(node, shape, q, w).Ok?
    requires Resolve(Open(node, shape).value, p[0]) != Resolve(Open(node, shape).value, q[0])
    ensures Place(Some(Place(node, shape, p, v).value), shape, q, w)
         == Place(Some(Place(node, shape, q, w).value), shape, p, v)
  {
    var container, stepP, childP := PlaceStep(node, shape, p, v);
    var _, stepQ, childQ := PlaceStep(node, shape, q, w);
    assert Child(Put(container, stepP, childP), stepQ) == Child(container, stepQ);
    assert Child(Put(container, stepQ, childQ), stepP) == Child(container, stepP);
    SettersCommute(container, stepP, childP, stepQ, childQ);
  }

  /** Writes to positions apart from each other commute whenever both orders are accepted. */
  lemma {:induction false} PutsCommute(node: Option<Value>, shape: Option<Shape>, p: seq<string>, q: seq<string>, v: Value, w: Value)
    requires Place(node, shape, p, v).Ok? && Place(node, shape, q, w).Ok?
    requires Place(Some(Place(node, shape, p, v).value), shape, q, w).Ok?
    requires Place(Some(Place(node, shape, q, w).value), shape, p, v).Ok?
    requires Apart(Place(Some(Place(node, shape, p, v).value), shape, q, w).value, p, q)
    ensures Place(Some(Place(node, shape, p, v).value), shape, q, w)
         == Place(Some(Place(node, shape, q, w).value), shape, p, v)
    decreases |p|
  {
    var container, step, childP := PlaceStep(node, shape, p, v);
    var _, stepQ, childQ := PlaceStep(node, shape, q, w);
    if step != stepQ {
      PutsCommuteHere(node, shape, p, q, v, w);
    } else {
      PutTwice(container, step, childP);
      PutTwice(container, step, childQ);
      var _, _, _ := PlaceStep(Some(Put(container, step, childP)), shape, q, w);
      var _, _, _ := PlaceStep(Some(Put(container, step, childQ)), shape, p, v);
      PutsCommute(Child(container, step), BelowOpt(shape, step), p[1..], q[1..], v, w);
    }
  }
}
