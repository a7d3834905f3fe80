/** The web view's schema for `config.json` and its validator (`src/lib/config-schema.ts`). */
module Schema {
  import opened Wrappers
  import opened Json
  import S = Shape

  /** `^( *(head|head…).*)?$`, with or without the leading spaces: the only form the table uses. */
  datatype Pattern = Pattern(spaces: bool, heads: seq<string>)

  datatype Schema =
    | StringS(choices: Option<seq<string>>, minLength: Option<nat>, maxLength: Option<nat>, pattern: Option<Pattern>, default: Option<Value>)
    | IntegerS(minimum: Option<real>, maximum: Option<real>, default: Option<Value>)
    | NumberS(minimum: Option<real>, maximum: Option<real>, default: Option<Value>)
    | BooleanS(default: Option<Value>)
    | ArrayS(items: Schema, default: Option<Value>)
    | ObjectS(properties: seq<Property>, required: seq<string>, closed: bool, default: Option<Value>)

  datatype Property = Property(name: string, schema: Schema)

  function PropertyOf(properties: seq<Property>, name: string): (r: Option<Schema>)
    ensures r.None? ==> forall i | 0 <= i < |properties| :: properties[i].name != name
    ensures r.Some? ==> exists i | 0 <= i < |properties| :: properties[i] == Property(name, r.value)
  {
    if properties == [] then None
    else
      var last := |properties| - 1;
      if properties[last].name == name then Some(properties[last].schema)
      else PropertyOf(properties[..last], name)
  }

  ghost predicate DistinctNames(properties: seq<Property>) {
    forall i, j | 0 <= i < j < |properties| :: properties[i].name != properties[j].name
  }

  /** `matchesType`. */
  predicate Matches(schema: Schema, value: Value) {
    match schema
    case StringS(_, _, _, _, _) => value.Str?
    case IntegerS(_, _, _) => value.Num? && value.n.Whole()
    case NumberS(_, _, _) => value.Num?
    case BooleanS(_) => value.Bool?
    case ArrayS(_, _) => value.Arr?
    case ObjectS(_, _, _, _) => value.Obj?
  }

  /** The value is one of the enum's, where there is one. */
  predicate Allowed(schema: Schema, value: Value)
    requires Matches(schema, value)
  {
    schema.StringS? && schema.choices.Some? ==> value.s in schema.choices.value
  }

  /** The schema with ranges, enums and defaults erased. */
  function Erase(schema: Schema): S.Shape {
    match schema
    case StringS(_, _, _, _, _) => S.StrShape
    case IntegerS(_, _, _) => S.IntShape
    case NumberS(_, _, _) => S.NumShape
    case BooleanS(_) => S.BoolShape
    case ArrayS(items, _) => S.ArrayShape(Erase(items))
    case ObjectS(properties, _, _, _) =>
      S.ObjectShape(seq(|properties|, i requires 0 <= i < |properties| => S.Field(properties[i].name, Erase(properties[i].schema))))
  }

  datatype Kind =
    | WrongType
    | NotAllowed
    | BelowMinimum
    | AboveMaximum
    | TooShort
    | TooLong
    | BadPattern
    | MissingKey(name: string)
    | UnknownKey
  {
    /** What a value in its declared shape can still be told: it is out of range, or carries a key
        nobody declared. */
    predicate Soft() {
      BelowMinimum? || AboveMaximum? || TooShort? || TooLong? || BadPattern? || UnknownKey?
    }
  }

  datatype Problem = Problem(at: Path, kind: Kind)

  function SkipSpaces(s: string): string {
    if s != "" && s[0] == ' ' then SkipSpaces(s[1..]) else s
  }

  predicate IsLineTerminator(c: char) {
    c == '\n' || c == '\r' || c == '\U{2028}' || c == '\U{2029}'
  }

  predicate MatchesPattern(p: Pattern, s: string) {
    s == "" || exists i | 0 <= i < |p.heads| :: BeginsLine(p.heads[i], if p.spaces then SkipSpaces(s) else s)
  }

  /** The head, and then anything but the end of a line. */
  predicate BeginsLine(head: string, body: string) {
    head <= body && forall k | |head| <= k < |body| :: !IsLineTerminator(body[k])
  }

  lemma {:induction false} SkipSpacesIs(spaces: string, body: string)
    requires (forall c | c in spaces :: c == ' ') && (body == "" || body[0] != ' ')
    ensures SkipSpaces(spaces + body) == body
  {
    if spaces == "" {
      assert spaces + body == body;
    } else {
      assert spaces[0] in spaces && forall c | c in spaces[1..] :: c in spaces;
      assert (spaces + body)[1..] == spaces[1..] + body;
      SkipSpacesIs(spaces[1..], body);
    }
  }

  lemma {:induction false} SkippedSpaces(s: string) returns (spaces: string)
    ensures s == spaces + SkipSpaces(s) && forall c | c in spaces :: c == ' '
  {
    spaces := "";
    if s != "" && s[0] == ' ' {
      var more := SkippedSpaces(s[1..]);
      spaces := " " + more;
      assert s == [s[0]] + s[1..];
    }
  }

  /** The text is one the pattern spells: spaces where it allows them, a head, and nothing that ends a line. */
  ghost predicate Spelled(p: Pattern, s: string, spaces: string, head: string, tail: string) {
    && s == spaces + head + tail && head in p.heads
    && (forall c | c in spaces :: p.spaces && c == ' ')
    && forall c | c in tail :: c != '\n' && c != '\r' && c != '\U{2028}' && c != '\U{2029}'
  }

  /** A pattern matches the empty text and what it spells, as long as no head begins with a space. */
  lemma MatchesPatternIff(p: Pattern, s: string)
    requires forall head | head in p.heads :: head != "" && head[0] != ' '
    ensures MatchesPattern(p, s) <==> s == "" || exists spaces, head, tail :: Spelled(p, s, spaces, head, tail)
  {
    if s != "" && MatchesPattern(p, s) {
      var body := if p.spaces then SkipSpaces(s) else s;
      var i :| 0 <= i < |p.heads| && BeginsLine(p.heads[i], body);
      MatchIsSpelled(p, s, i);
    }
    forall spaces: string, head: string, tail: string | Spelled(p, s, spaces, head, tail) ensures MatchesPattern(p, s) {
      SpelledMatches(p, s, spaces, head, tail);
    }
  }

  lemma MatchIsSpelled(p: Pattern, s: string, i: nat)
    requires i < |p.heads| && BeginsLine(p.heads[i], if p.spaces then SkipSpaces(s) else s)
    ensures exists spaces, head, tail :: Spelled(p, s, spaces, head, tail)
  {
    hide BeginsLine, Spelled;
    if p.spaces {
      var spaces := SkippedSpaces(s);
      HeadIsSpelled(p, s, spaces, SkipSpaces(s), p.heads[i]);
    } else {
      HeadIsSpelled(p, s, "", s, p.heads[i]);
    }
  }

  lemma HeadIsSpelled(p: Pattern, s: string, spaces: string, body: string, head: string)
    requires s == spaces + body && BeginsLine(head, body) && head in p.heads
    requires forall c | c in spaces :: p.spaces && c == ' '
    ensures Spelled(p, s, spaces, head, body[|head|..])
  {
    var tail := body[|head|..];
    assert body == head + tail;
    forall c | c in tail ensures !IsLineTerminator(c) {
      var k :| 0 <= k < |tail| && tail[k] == c;
      assert body[|head| + k] == c;
    }
    assert spaces + (head + tail) == spaces + head + tail;
  }

  lemma SpacesAreAllowed(p: Pattern, spaces: string)
    requires forall c | c in spaces :: p.spaces && c == ' '
    ensures spaces != "" ==> p.spaces
  {
    if spaces != "" { assert spaces[0] in spaces; }
  }

  lemma SpelledMatches(p: Pattern, s: string, spaces: string, head: string, tail: string)
    requires Spelled(p, s, spaces, head, tail) && head != "" && head[0] != ' '
    ensures MatchesPattern(p, s)
  {
    var body := head + tail;
    assert s == spaces + body && body[0] == head[0];
    SpacesAreAllowed(p, spaces);
    if p.spaces {
      SkipSpacesIs(spaces, body);
    } else {
      assert s == body;
    }
    var i :| 0 <= i < |p.heads| && p.heads[i] == head;
    assert BeginsLine(p.heads[i], body) by {
      forall k | |head| <= k < |body| ensures !IsLineTerminator(body[k]) {
        assert body[k] in tail;
      }
    }
  }

  /** What `walk` says about the value itself once its type and enum are right. */
  predicate FlaggedHere(schema: Schema, value: Value, kind: Kind)
    requires Matches(schema, value)
  {
    match schema
    case IntegerS(lo, hi, _) => OutOfRange(lo, hi, value.n.AsReal(), kind)
    case NumberS(lo, hi, _) => OutOfRange(lo, hi, value.n.AsReal(), kind)
    case StringS(_, least, most, pattern, _) =>
      || (kind == TooShort && least.Some? && |value.s| < least.value)
      || (kind == TooLong && most.Some? && |value.s| > most.value)
      || (kind == BadPattern && pattern.Some? && !MatchesPattern(pattern.value, value.s))
    case ObjectS(_, required, _, _) => kind.MissingKey? && kind.name in required && kind.name !in value.fields
    case _ => false
  }

  predicate OutOfRange(lo: Option<real>, hi: Option<real>, x: real, kind: Kind) {
    || (kind == BelowMinimum && lo.Some? && x < lo.value)
    || (kind == AboveMaximum && hi.Some? && x > hi.value)
  }

  /** Every problem `walk` reports, position by position. Nothing is looked for below a value of
      the wrong type or outside its enum, or below an undeclared key. */
  predicate Flagged(schema: Schema, value: Value, rel: Path, kind: Kind)
    decreases rel
  {
    if !Matches(schema, value) then rel == [] && kind == WrongType
    else if !Allowed(schema, value) then rel == [] && kind == NotAllowed
    else if rel == [] then FlaggedHere(schema, value, kind)
    else
      match (schema, rel[0])
      case (ArrayS(items, _), Index(i)) => i < |value.items| && Flagged(items, value.items[i], rel[1..], kind)
      case (ObjectS(properties, _, closed, _), Key(name)) =>
        name in value.fields
        && (match PropertyOf(properties, name)
            case Some(child) => Flagged(child, value.fields[name], rel[1..], kind)
            case None => closed && rel[1..] == [] && kind == UnknownKey)
      case _ => false
  }

  /** The checks `walk` makes on a number or a string, in its order. */
  method CheckRange(lo: Option<real>, hi: Option<real>, x: real, at: Path, before: seq<Problem>) returns (out: seq<Problem>)
    ensures forall p :: p in out <==> p in before || (p.at == at && OutOfRange(lo, hi, x, p.kind))
    ensures Problem(at, BelowMinimum) in out <==> Problem(at, BelowMinimum) in before || (lo.Some? && x < lo.value)
    ensures Problem(at, AboveMaximum) in out <==> Problem(at, AboveMaximum) in before || (hi.Some? && x > hi.value)
  {
    out := before;
    if lo.Some? && x < lo.value { out := out + [Problem(at, BelowMinimum)]; }
    if hi.Some? && x > hi.value { out := out + [Problem(at, AboveMaximum)]; }
  }

  method CheckString(schema: Schema, s: string, at: Path, before: seq<Problem>) returns (out: seq<Problem>)
    requires schema.StringS?
    ensures forall p :: p in out <==> p in before || (p.at == at && FlaggedHere(schema, Str(s), p.kind))
    ensures Problem(at, TooShort) in out <==> Problem(at, TooShort) in before || (schema.minLength.Some? && |s| < schema.minLength.value)
    ensures Problem(at, TooLong) in out <==> Problem(at, TooLong) in before || (schema.maxLength.Some? && |s| > schema.maxLength.value)
    ensures Problem(at, BadPattern) in out
      <==> Problem(at, BadPattern) in before || (schema.pattern.Some? && !MatchesPattern(schema.pattern.value, s))
  {
    out := before;
    if schema.minLength.Some? && |s| < schema.minLength.value { out := out + [Problem(at, TooShort)]; }
    if schema.maxLength.Some? && |s| > schema.maxLength.value { out := out + [Problem(at, TooLong)]; }
    if schema.pattern.Some? && !MatchesPattern(schema.pattern.value, s) { out := out + [Problem(at, BadPattern)]; }
  }

  method CheckRequired(required: seq<string>, fields: map<string, Value>, at: Path, before: seq<Problem>) returns (out: seq<Problem>)
    ensures forall p :: p in out <==>
      (p in before || (p.at == at && p.kind.MissingKey? && p.kind.name in required && p.kind.name !in fields))
  {
    out := before;
    for i := 0 to |required|
      invariant forall p :: p in out <==>
        (p in before || (p.at == at && p.kind.MissingKey? && p.kind.name in required[..i] && p.kind.name !in fields))
    {
      if required[i] !in fields {
        out := out + [Problem(at, MissingKey(required[i]))];
      }
    }
  }

  /** `p` is one of the problems of the value at `at`. */
  predicate FlaggedAt(schema: Schema, value: Value, at: Path, p: Problem) {
    at <= p.at && Flagged(schema, value, p.at[|at|..], p.kind)
  }

  /** `walk`, pushing onto the caller's list. The keys of an object come in the order the document
      happens to hold them. */
  method Walk(schema: Schema, value: Value, at: Path, before: seq<Problem>) returns (out: seq<Problem>)
    ensures forall p :: p in out <==> p in before || FlaggedAt(schema, value, at, p)
    decreases schema
  {
    out := before;
    forall p: Problem ensures at <= p.at && p.at[|at|..] == [] <==> p.at == at {
      assert at <= p.at && p.at[|at|..] == [] ==> p.at == at;
    }
    if !Matches(schema, value) {
      out := out + [Problem(at, WrongType)];
      return;
    }
    if !Allowed(schema, value) {
      out := out + [Problem(at, NotAllowed)];
      return;
    }
    match schema
    case IntegerS(lo, hi, _) => out := CheckRange(lo, hi, value.n.AsReal(), at, out);
    case NumberS(lo, hi, _) => out := CheckRange(lo, hi, value.n.AsReal(), at, out);
    case StringS(_, _, _, _, _) => out := CheckString(schema, value.s, at, out);
    case BooleanS(_) =>
    case ArrayS(items, _) => out := WalkRows(schema, value, at, out);
    case ObjectS(properties, required, _, _) =>
      out := CheckRequired(required, value.fields, at, out);
      out := WalkFields(schema, value, at, out);
  }

  /** The part of `FlaggedAt` that lies below one of the first children. */
  predicate FlaggedUnder(schema: Schema, value: Value, at: Path, p: Problem) {
    at < p.at && Flagged(schema, value, p.at[|at|..], p.kind)
  }

  lemma UnknownKeyUnder(schema: Schema, value: Value, at: Path, key: string)
    requires schema.ObjectS? && value.Obj? && key in value.fields && PropertyOf(schema.properties, key).None?
    ensures forall p: Problem ::
      (FlaggedUnder(schema, value, at, p) && p.at[|at|].name == key) <==> (schema.closed && p == Problem(at + [Key(key)], UnknownKey))
  {
    forall p: Problem
      ensures (FlaggedUnder(schema, value, at, p) && p.at[|at|].name == key)
        <==> (schema.closed && p == Problem(at + [Key(key)], UnknownKey))
    {
      if at < p.at {
        assert p.at == at + [p.at[|at|]] + p.at[|at|..][1..];
      }
      assert (at + [Key(key)])[|at|..] == [Key(key)];
      assert [Key(key)][1..] == [];
    }
  }

  lemma KnownKeyUnder(schema: Schema, value: Value, at: Path, key: string, child: Schema)
    requires schema.ObjectS? && value.Obj? && key in value.fields && PropertyOf(schema.properties, key) == Some(child)
    ensures forall p: Problem ::
      (FlaggedUnder(schema, value, at, p) && p.at[|at|].name == key) <==> FlaggedAt(child, value.fields[key], at + [Key(key)], p)
  {
    forall p: Problem
      ensures (FlaggedUnder(schema, value, at, p) && p.at[|at|].name == key)
        <==> FlaggedAt(child, value.fields[key], at + [Key(key)], p)
    {
      if at < p.at {
        assert p.at[|at|..][1..] == p.at[|at + [Key(key)]|..];
      }
    }
  }

  method WalkRows(schema: Schema, value: Value, at: Path, before: seq<Problem>) returns (out: seq<Problem>)
    requires schema.ArrayS? && value.Arr?
    ensures forall p :: p in out <==> p in before || FlaggedUnder(schema, value, at, p)
    decreases schema, 0
  {
    out := before;
    for i := 0 to |value.items|
      invariant forall p :: p in out <==>
        (p in before || (FlaggedUnder(schema, value, at, p) && p.at[|at|].i < i))
    {
      out := Walk(schema.items, value.items[i], at + [Index(i)], out);
    }
  }

  method WalkFields(schema: Schema, value: Value, at: Path, before: seq<Problem>) returns (out: seq<Problem>)
    requires schema.ObjectS? && value.Obj?
    ensures forall p :: p in out <==> p in before || FlaggedUnder(schema, value, at, p)
    decreases schema, 0
  {
    out := before;
    var keys := value.fields.Keys;
    while keys != {}
      invariant keys <= value.fields.Keys
      invariant forall p :: p in out <==>
        (p in before || (FlaggedUnder(schema, value, at, p) && p.at[|at|].name !in keys))
      decreases keys
    {
      var key :| key in keys;
      match PropertyOf(schema.properties, key) {
        case None =>
          UnknownKeyUnder(schema, value, at, key);
          if schema.closed {
            out := out + [Problem(at + [Key(key)], UnknownKey)];
          }
        case Some(child) =>
          KnownKeyUnder(schema, value, at, key, child);
          out := Walk(child, value.fields[key], at + [Key(key)], out);
      }
      keys := keys - {key};
    }
  }
}
