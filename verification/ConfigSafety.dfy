/** What an accepted write can do to the declared shape of the store. */
module ConfigSafety {
  import opened Wrappers
  import opened Json
  import opened Shape
  import opened ConfigPath

  /** The position a key names in a document, as far as the document goes. */
  function Landing(doc: Value, rest: seq<string>): Path
    decreases |rest|
  {
    if rest == [] || Resolve(doc, rest[0]).None? then []
    else
      var step := Resolve(doc, rest[0]).value;
      match Child(doc, step)
      case None => []
      case Some(child) => [step] + Landing(child, rest[1..])
  }

  /** The faults after an accepted write, position by position: none on the way to the written
      value or at it, and everywhere off that way exactly the faults there were before. */
  lemma {:induction false} FaultsAfterWrite(node: Option<Value>, shape: Shape, rest: seq<string>, value: Value, f: Path)
    requires Place(node, Some(shape), rest, value).Ok?
    ensures var after := Place(node, Some(shape), rest, value).value;
            var at := Landing(after, rest);
            && (f <= at ==> !FaultAt(shape, after, f))
            && (!(f <= at) && !(at <= f) ==>
                  (FaultAt(shape, after, f) <==> node.Some? && FaultAt(shape, node.value, f)))
    decreases |rest|
  {
    if rest != [] {
      var container, step, child := PlaceStep(node, Some(shape), rest, value);
      var after := Put(container, step, child);
      var at := Landing(after, rest);
      assert at == [step] + Landing(child, rest[1..]);
      assert at[1..] == Landing(child, rest[1..]);
      if f != [] && f[0] == step {
        if Below(shape, step).Some? {
          FaultsAfterWrite(Child(container, step), Below(shape, step).value, rest[1..], value, f[1..]);
          assert f == [step] + f[1..];
        }
      } else if f != [] {
        assert Child(after, f[0]) == Child(container, f[0]);
      }
    }
  }

  /** So a fault found after an accepted write was already there, or lies strictly inside the
      value that was written. */
  lemma WriteAddsNoFaultOutside(node: Option<Value>, shape: Shape, rest: seq<string>, value: Value, f: Path)
    requires Place(node, Some(shape), rest, value).Ok?
    requires FaultAt(shape, Place(node, Some(shape), rest, value).value, f)
    ensures var at := Landing(Place(node, Some(shape), rest, value).value, rest);
            || (node.Some? && FaultAt(shape, node.value, f) && !(at <= f))
            || at < f
  {
    FaultsAfterWrite(node, shape, rest, value, f);
  }

  /** Every array or object on the way to the written value is still one. */
  lemma {:induction false} ContainersKeepTheirKind(node: Option<Value>, shape: Option<Shape>, rest: seq<string>, value: Value, k: nat)
    requires Place(node, shape, rest, value).Ok? && k < |rest|
    requires DigIn(node, rest[..k]).Some? && DigIn(node, rest[..k]).value.Container()
    ensures var was, now := DigIn(node, rest[..k]).value, DigFrom(Place(node, shape, rest, value).value, rest[..k]);
            now.Some? && now.value.Arr? == was.Arr? && now.value.Obj? == was.Obj?
    decreases |rest|
  {
    var container, step, child := PlaceStep(node, shape, rest, value);
    if k > 0 {
      assert rest[..k][0] == rest[0] && rest[..k][1..] == rest[1..][..k - 1];
      ContainersKeepTheirKind(Child(container, step), BelowOpt(shape, step), rest[1..], value, k - 1);
    }
  }

  /** The shape the tables declare for a key, whatever the store holds. */
  function ShapeAt(shape: Option<Shape>, rest: seq<string>): Option<Shape>
    decreases |rest|
  {
    if rest == [] || shape.None? then shape
    else
      match shape.value
      case ArrayShape(item) => ShapeAt(Some(item), rest[1..])
      case ObjectShape(fields) => ShapeAt(FieldOf(fields, rest[0]), rest[1..])
      case _ => None
  }

  /** A value with no fault of its own where it is going. */
  ghost predicate FitsAt(shape: Shape, rest: seq<string>, value: Value) {
    match ShapeAt(Some(shape), rest)
    case None => true
    case Some(s) => Conforms(s, value)
  }

  lemma {:induction false} ConformingWriteKeepsConforming(node: Option<Value>, shape: Shape, rest: seq<string>, value: Value)
    requires WellNamed(shape) && Place(node, Some(shape), rest, value).Ok?
    requires node.Some? && !node.value.Null? ==> Conforms(shape, node.value)
    requires FitsAt(shape, rest, value)
    ensures Conforms(shape, Place(node, Some(shape), rest, value).value)
    decreases |rest|
  {
    if rest != [] {
      var container, step, child := PlaceStep(node, Some(shape), rest, value);
      assert Conforms(shape, container);
      if shape.ObjectShape? {
        forall i | 0 <= i < |shape.fields| ensures FieldOf(shape.fields, shape.fields[i].name) == Some(shape.fields[i].shape) {
          UniqueField(shape.fields, i);
        }
      }
      if Below(shape, step).Some? {
        ConformingWriteKeepsConforming(Child(container, step), Below(shape, step).value, rest[1..], value);
      }
    }
  }

  datatype Write = Write(parts: seq<string>, value: Value)

  /** The store after a run of `config set` commands, refused ones included. */
  function WriteAll(config: seq<Field>, saved: map<string, Value>, writes: seq<Write>): map<string, Value>
    requires forall w | w in writes :: w.parts != []
  {
    if writes == [] then saved
    else
      var last := |writes| - 1;
      var before := WriteAll(config, saved, writes[..last]);
      match SetNested(config, before, writes[last].parts, writes[last].value)
      case Ok(after) => after
      case Err(_) => before
  }

  /** However many writes of conforming values a fault-free store takes, it stays fault-free. */
  lemma {:induction false} WritesKeepStoreFaultFree(config: seq<Field>, saved: map<string, Value>, writes: seq<Write>)
    requires WellNamed(ObjectShape(config))
    requires forall w | w in writes :: w.parts != [] && FitsAt(ObjectShape(config), w.parts, w.value)
    requires Faults(ObjectShape(config), Obj(saved), []) == []
    ensures Faults(ObjectShape(config), Obj(WriteAll(config, saved, writes)), []) == []
  {
    if writes != [] {
      var last := |writes| - 1;
      var w := writes[last];
      WritesKeepStoreFaultFree(config, saved, writes[..last]);
      var before := WriteAll(config, saved, writes[..last]);
      if SetNested(config, before, w.parts, w.value).Ok? {
        SetNestedIsPlace(config, before, w.parts, w.value);
        NoFaultsIsConforms(ObjectShape(config), Obj(before), []);
        ConformingWriteKeepsConforming(Some(Obj(before)), ObjectShape(config), w.parts, w.value);
        NoFaultsIsConforms(ObjectShape(config), Obj(WriteAll(config, saved, writes)), []);
      }
    }
  }
}
