/** What the editor's validator says at each place of a config (`walk` in `src/lib/config-schema.ts`). */
module EditorProblems {
  import opened Wrappers
  import opened Json
  import opened Schema
  import opened NormalizeLocal

  /** A value is told the same wherever in a document it stands. */
  lemma {:induction false} ProblemsThere(schema: Schema, value: Value, rel: Path, tail: Path, kind: Kind)
    requires Reaches(schema, value, rel)
    ensures ValueAt(value, rel).Some?
    ensures Flagged(schema, value, rel + tail, kind) <==> Flagged(SchemaAt(schema, value, rel), ValueAt(value, rel).value, tail, kind)
    decreases rel
  {
    if rel == [] {
      assert rel + tail == tail;
    } else {
      var all, below, child := rel + tail, Declared(schema, rel[0]).value, Child(value, rel[0]).value;
      assert all[0] == rel[0] && all[1..] == rel[1..] + tail;
      ProblemsThere(below, child, rel[1..], tail, kind);
      FlaggedBelow(schema, value, all, kind);
    }
  }

  lemma FlaggedBelow(schema: Schema, value: Value, rel: Path, kind: Kind)
    requires rel != [] && Enters(schema, value, rel[0])
    ensures Flagged(schema, value, rel, kind) <==> Flagged(Declared(schema, rel[0]).value, Child(value, rel[0]).value, rel[1..], kind)
  {
  }

  /** A record is told of each required key it lacks and, where no others are allowed, of each key nobody
      declared; a number of each bound it is beyond; a text of its length and its pattern; and nothing is
      told anything else. */
  lemma ProblemsOfUsable(schema: Schema, value: Value, key: string)
    requires Usable(schema, value)
    ensures Flagged(schema, value, [], MissingKey(key)) <==> schema.ObjectS? && key in schema.required && key !in value.fields
    ensures Flagged(schema, value, [Key(key)], UnknownKey)
      <==> schema.ObjectS? && schema.closed && key in value.fields && PropertyOf(schema.properties, key).None?
    ensures Flagged(schema, value, [], BelowMinimum)
      <==> (schema.IntegerS? || schema.NumberS?) && schema.minimum.Some? && value.n.AsReal() < schema.minimum.value
    ensures Flagged(schema, value, [], AboveMaximum)
      <==> (schema.IntegerS? || schema.NumberS?) && schema.maximum.Some? && value.n.AsReal() > schema.maximum.value
    ensures Flagged(schema, value, [], TooShort) <==> schema.StringS? && schema.minLength.Some? && |value.s| < schema.minLength.value
    ensures Flagged(schema, value, [], TooLong) <==> schema.StringS? && schema.maxLength.Some? && |value.s| > schema.maxLength.value
    ensures Flagged(schema, value, [], BadPattern)
      <==> schema.StringS? && schema.pattern.Some? && !MatchesPattern(schema.pattern.value, value.s)
    ensures !Flagged(schema, value, [], WrongType) && !Flagged(schema, value, [], NotAllowed) && !Flagged(schema, value, [], UnknownKey)
  {
    assert [Key(key)][1..] == [];
  }
}
