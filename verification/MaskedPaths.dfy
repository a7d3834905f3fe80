/** Which paths of a config are secret: the editor's list (`MASKED_CONFIG_PATHS` in
    `src/lib/config-schema.ts`) with `[]` for any index, compared after every index was erased from
    the path (`isMaskedPath` in `src/lib/json-structure.ts`). */
module MaskedPaths {
  import opened Wrappers
  import opened JsonMask
  import opened JsonStructure
  import opened Selection
  import Text

  const MASKED_CONFIG_PATHS: seq<string> :=
    ["hostedNetworkCredentials.password", "devices[].token", "knownDevices[].token", "turnConfig.credential"]

  /** An index in brackets begins at `i`, of `n` digits. */
  predicate IndexAt(path: string, i: nat, n: nat) {
    && i + n + 1 < |path| && path[i] == '[' && path[i + n + 1] == ']'
    && n > 0 && Text.AllDigits(path[i + 1..i + n + 1])
  }

  ghost predicate HasIndexAt(path: string, i: nat) { exists n :: IndexAt(path, i, n) }

  /** No index begins before `i`. */
  ghost predicate PlainTo(path: string, i: nat) { forall j: nat | j < i :: !HasIndexAt(path, j) }

  lemma IndexLengthIs(path: string, n: nat)
    requires IndexAt(path, 0, n)
    ensures IndexLength(path) == n + 2
  {
    var digits, rest := path[1..n + 1], path[n + 1..];
    assert path[1..] == digits + rest && rest[0] == ']';
    DigitRunOfDigits(digits, rest);
  }

  lemma LengthIsIndex(path: string)
    ensures IndexLength(path) > 0 ==> HasIndexAt(path, 0)
  {
    if IndexLength(path) > 0 {
      var n := DigitRun(path[1..]);
      assert path[1..n + 1] == path[1..][..n];
      assert IndexAt(path, 0, n);
    }
  }

  lemma TailIndex(path: string, j: nat, n: nat)
    requires path != "" && IndexAt(path[1..], j, n)
    ensures HasIndexAt(path, j + 1)
  {
    assert path[1..][j + 1..j + n + 1] == path[j + 2..j + n + 2];
    assert IndexAt(path, j + 1, n);
  }

  lemma PlainTail(path: string, i: nat)
    requires path != "" && PlainTo(path, i) && i > 0
    ensures PlainTo(path[1..], i - 1)
  {
    forall j: nat, n: nat | IndexAt(path[1..], j, n) ensures HasIndexAt(path, j + 1) {
      TailIndex(path, j, n);
    }
  }

  lemma PlainHead(path: string, i: nat)
    requires path != "" && PlainTo(path, i) && i > 0
    ensures EraseIndices(path) == [path[0]] + EraseIndices(path[1..])
  {
    LengthIsIndex(path);
    assert !HasIndexAt(path, 0);
  }

  /** A path without an index is left as it is. */
  lemma {:induction false} NothingToErase(path: string)
    requires PlainTo(path, |path|)
    ensures EraseIndices(path) == path
    decreases |path|
  {
    if path != "" {
      PlainTail(path, |path|);
      PlainHead(path, |path|);
      NothingToErase(path[1..]);
      assert [path[0]] + path[1..] == path;
    }
  }

  /** The index loses its digits and nothing else is lost; the rest is erased by itself. */
  predicate ErasedAt(path: string, i: nat, n: nat) {
    i + n + 2 <= |path| && EraseIndices(path) == path[..i] + "[]" + EraseIndices(path[i + n + 2..])
  }

  lemma {:induction false} FirstIndexErased(path: string, i: nat, n: nat)
    requires IndexAt(path, i, n) && PlainTo(path, i)
    ensures ErasedAt(path, i, n)
    decreases i
  {
    if i == 0 {
      IndexHead(path, n);
    } else {
      PlainTail(path, i);
      PlainHead(path, i);
      IndexInTail(path, i, n);
      hide EraseIndices, PlainTo, IndexAt, ErasedAt;
      FirstIndexErased(path[1..], i - 1, n);
      OneBefore(path, i, n);
    }
  }

  lemma OneBefore(path: string, i: nat, n: nat)
    requires path != "" && i > 0 && ErasedAt(path[1..], i - 1, n) && EraseIndices(path) == [path[0]] + EraseIndices(path[1..])
    ensures ErasedAt(path, i, n)
  {
    hide EraseIndices;
    var tail := path[1..];
    var rest := EraseIndices(path[i + n + 2..]);
    assert tail[i + n + 1..] == path[i + n + 2..];
    assert [path[0]] + tail[..i - 1] == path[..i];
    assert [path[0]] + (tail[..i - 1] + "[]" + rest) == [path[0]] + tail[..i - 1] + "[]" + rest;
  }

  lemma IndexHead(path: string, n: nat)
    requires IndexAt(path, 0, n)
    ensures ErasedAt(path, 0, n)
  {
    IndexLengthIs(path, n);
    hide IndexLength, IndexAt;
    assert path[..0] + "[]" == "[]";
  }

  lemma IndexInTail(path: string, i: nat, n: nat)
    requires IndexAt(path, i, n) && i > 0
    ensures i + n + 2 <= |path| && IndexAt(path[1..], i - 1, n) && path[1..][..i - 1] == path[1..i] && path[1..][i + n + 1..] == path[i + n + 2..]
  {
    assert path[1..][i..i + n] == path[i + 1..i + n + 1];
  }

  /** Every path has no index or a first one. */
  lemma {:induction false} FirstIndex(path: string, i: nat) returns (j: nat, n: nat)
    ensures PlainTo(path, i) || (j < i && IndexAt(path, j, n) && PlainTo(path, j))
  {
    j, n := 0, 0;
    if i > 0 {
      j, n := FirstIndex(path, i - 1);
      if PlainTo(path, i - 1) && HasIndexAt(path, i - 1) {
        j := i - 1;
        n :| IndexAt(path, j, n);
      }
    }
  }

  lemma IndexShows(path: string)
    ensures PlainTo(path, |path|) || '[' in EraseIndices(path)
  {
    var i, n := FirstIndex(path, |path|);
    if !PlainTo(path, |path|) {
      FirstIndexErased(path, i, n);
      assert EraseIndices(path)[i] == '[';
    }
  }

  /** What erases to a text without brackets is that text. */
  lemma ErasesToPlain(path: string)
    ensures '[' !in EraseIndices(path) ==> EraseIndices(path) == path
  {
    IndexShows(path);
    if PlainTo(path, |path|) {
      NothingToErase(path);
    }
  }

  predicate TokenText(path: string, list: string, digits: string, field: string) {
    digits != "" && Text.AllDigits(digits) && path == list + "[" + digits + "]" + field
  }

  /** What erases to one pair of brackets has them empty, or around one index. */
  lemma ErasesToList(path: string, list: string, field: string)
    requires EraseIndices(path) == list + "[]" + field && '[' !in list && '[' !in field
    ensures path == list + "[]" + field || exists digits :: TokenText(path, list, digits, field)
  {
    var i, n := FirstIndex(path, |path|);
    if PlainTo(path, |path|) {
      NothingToErase(path);
    } else {
      FirstIndexErased(path, i, n);
      hide EraseIndices, PlainTo;
      IndexIsThere(path, list, field, i, n);
    }
  }

  lemma IndexIsThere(path: string, list: string, field: string, i: nat, n: nat)
    requires IndexAt(path, i, n) && path[..i] + "[]" + EraseIndices(path[i + n + 2..]) == list + "[]" + field
    requires '[' !in list && '[' !in field
    ensures TokenText(path, list, path[i + 1..i + n + 1], field)
  {
    hide EraseIndices;
    var rest, pattern := path[i + n + 2..], list + "[]" + field;
    assert (path[..i] + "[]" + EraseIndices(rest))[i] == '[';
    assert i == |list|;
    assert EraseIndices(rest) == pattern[i + 2..] == field;
    ErasesToPlain(rest);
    assert path[..i] == pattern[..i] == list;
    assert path == path[..i] + "[" + path[i + 1..i + n + 1] + "]" + rest;
  }

  lemma IndexErases(path: string, list: string, digits: string, field: string)
    requires TokenText(path, list, digits, field) && '[' !in list && '[' !in field
    ensures EraseIndices(path) == list + "[]" + field
  {
    assert path[|list| + 1..|list| + |digits| + 1] == digits;
    assert IndexAt(path, |list|, |digits|);
    FirstIndexErased(path, |list|, |digits|);
    assert path[..|list|] == list && path[|list| + |digits| + 2..] == field;
    hide EraseIndices;
    NothingToErase(field);
  }

  lemma OnlyBracket(list: string, field: string, j: nat)
    requires '[' !in list && '[' !in field && j < |list + "[]" + field| && j != |list|
    ensures (list + "[]" + field)[j] != '['
  {
    if j < |list| {
      assert (list + "[]" + field)[j] == list[j];
    } else if j >= |list| + 2 {
      assert (list + "[]" + field)[j] == field[j - |list| - 2];
    }
  }

  /** Brackets around nothing are no index. */
  lemma EmptyIsNoIndex(list: string, field: string, j: nat, n: nat)
    requires '[' !in list && '[' !in field
    ensures !IndexAt(list + "[]" + field, j, n)
  {
    var path := list + "[]" + field;
    if j == |list| && n > 0 && j + n + 1 < |path| {
      var digits := path[j + 1..j + n + 1];
      assert digits[0] == ']' && !Text.AllDigits(digits);
    } else if j < |path| && j != |list| {
      OnlyBracket(list, field, j);
    }
  }

  lemma EmptyStays(list: string, field: string)
    requires '[' !in list && '[' !in field
    ensures EraseIndices(list + "[]" + field) == list + "[]" + field
  {
    var path := list + "[]" + field;
    forall j: nat, n: nat ensures !IndexAt(path, j, n) {
      EmptyIsNoIndex(list, field, j, n);
    }
    hide EraseIndices, IndexAt;
    assert forall j: nat :: !HasIndexAt(path, j);
    NothingToErase(path);
  }

  /** The token of a row of this list, whatever its number. */
  ghost predicate IsTokenOf(path: string, list: string) {
    exists digits :: TokenText(path, list, digits, ".token")
  }

  lemma TokensMasked(path: string, list: string)
    requires '[' !in list
    ensures EraseIndices(path) == list + "[]" + ".token" <==> path == list + "[]" + ".token" || IsTokenOf(path, list)
  {
    hide EraseIndices, TokenText;
    if EraseIndices(path) == list + "[]" + ".token" {
      ErasesToList(path, list, ".token");
    } else {
      forall digits ensures !TokenText(path, list, digits, ".token") {
        if TokenText(path, list, digits, ".token") {
          IndexErases(path, list, digits, ".token");
        }
      }
      EmptyStays(list, ".token");
    }
  }

  /** What the editor hides: the two passwords, the token of every saved and every known device, and
      what spells a pattern out. */
  lemma MaskedIff(path: string)
    ensures IsMaskedPath(path, MASKED_CONFIG_PATHS)
      <==> path in MASKED_CONFIG_PATHS || IsTokenOf(path, "devices") || IsTokenOf(path, "knownDevices")
  {
    hide EraseIndices, IsTokenOf;
    TokensMasked(path, "devices");
    TokensMasked(path, "knownDevices");
    ErasesToPlain(path);
    PatternsAre(path);
    PatternsAre(EraseIndices(path));
  }

  lemma PatternsAre(text: string)
    ensures text in MASKED_CONFIG_PATHS <==>
              || text == "hostedNetworkCredentials.password" || text == "turnConfig.credential"
              || text == "devices" + "[]" + ".token" || text == "knownDevices" + "[]" + ".token"
    ensures text == "hostedNetworkCredentials.password" || text == "turnConfig.credential" ==> '[' !in text
  {
    assert "devices[].token" == "devices" + "[]" + ".token";
    assert "knownDevices[].token" == "knownDevices" + "[]" + ".token";
  }

  /** The object member with this key. */
  function In(key: string): Frame { Frame(Object, Some(key), 0) }

  /** The path the scanner gives to the token of any row of either list, and that it is masked. */
  lemma TokenIsMasked(list: string, i: nat)
    requires list == "devices" || list == "knownDevices"
    ensures var path := PathOf([In(list), Frame(Array, None, i), In("token")]);
            path == list + "[" + Text.Decimal(i) + "]" + ".token" && IsMaskedPath(path, MASKED_CONFIG_PATHS)
  {
    TokenPath(list, i);
    hide EraseIndices, PathOf, IsMaskedPath, MASKED_CONFIG_PATHS;
    var path := PathOf([In(list), Frame(Array, None, i), In("token")]);
    assert TokenText(path, list, Text.Decimal(i), ".token");
    assert IsTokenOf(path, list);
    hide IsTokenOf;
    MaskedIff(path);
  }

  /** And of the two passwords. */
  lemma PasswordsAreMasked()
    ensures IsMaskedPath(PathOf([In("hostedNetworkCredentials"), In("password")]), MASKED_CONFIG_PATHS)
    ensures IsMaskedPath(PathOf([In("turnConfig"), In("credential")]), MASKED_CONFIG_PATHS)
  {
    FieldPath("hostedNetworkCredentials", "password");
    FieldPath("turnConfig", "credential");
    hide EraseIndices, PathOf;
    assert "hostedNetworkCredentials" + "." + "password" == "hostedNetworkCredentials.password" == MASKED_CONFIG_PATHS[0];
    assert "turnConfig" + "." + "credential" == "turnConfig.credential" == MASKED_CONFIG_PATHS[3];
  }

  lemma FieldPath(group: string, field: string)
    requires group != ""
    ensures PathOf([In(group), In(field)]) == group + "." + field
  {
    assert [In(group), In(field)][..1] == [In(group)] && [In(group)][..0] == [];
    assert PathOf([In(group)]) == group;
  }

  lemma TokenPath(list: string, i: nat)
    requires list != ""
    ensures PathOf([In(list), Frame(Array, None, i), In("token")]) == list + "[" + Text.Decimal(i) + "]" + ".token"
  {
    var row := Frame(Array, None, i);
    assert [In(list), row, In("token")][..2] == [In(list), row] && [In(list), row][..1] == [In(list)] && [In(list)][..0] == [];
    assert PathOf([In(list)]) == list;
    assert PathOf([In(list), row]) == list + IndexText(i);
    assert list + ("[" + Text.Decimal(i) + "]") == list + "[" + Text.Decimal(i) + "]";
  }

  /** The value is secret and has content. */
  predicate ToMask(v: StringValue, patterns: seq<string>) { IsMaskedPath(v.path, patterns) && v.startColumn + 2 < v.endColumn }

  function ContentOf(v: StringValue): MaskedSpan {
    MaskedSpan(v.path, v.line, v.startColumn + 1, if v.endColumn > 0 then v.endColumn - 1 else 0)
  }

  lemma {:induction false} SpansJoin(a: seq<StringValue>, b: seq<StringValue>, patterns: seq<string>)
    ensures MaskedSpans(a + b, patterns) == MaskedSpans(a, patterns) + MaskedSpans(b, patterns)
  {
    hide IsMaskedPath;
    if b == [] {
      assert a + b == a;
    } else {
      var last := |b| - 1;
      assert (a + b)[..|a + b| - 1] == a + b[..last];
      SpansJoin(a, b[..last], patterns);
    }
  }

  lemma SpanOfOne(v: StringValue, patterns: seq<string>)
    requires v.startColumn < v.endColumn
    ensures MaskedSpans([v], patterns) == if ToMask(v, patterns) then [ContentOf(v)] else []
  {
    assert [v][..0] == [];
  }

  /** One span for each secret value that is not empty, in the order of the text: what stands between
      its quotes. */
  lemma {:induction false} SpansArePicked(strings: seq<StringValue>, patterns: seq<string>)
    requires forall v | v in strings :: v.startColumn < v.endColumn
    ensures Picks(MaskedSpans(strings, patterns), strings, (v: StringValue) => ToMask(v, patterns), (v: StringValue) => ContentOf(v))
  {
    hide Picks, ToMask, ContentOf;
    var masked, content := (v: StringValue) => ToMask(v, patterns), (v: StringValue) => ContentOf(v);
    if strings == [] {
      PicksNothing(masked, content);
    } else {
      var first, rest := strings[0], strings[1..];
      SpansArePicked(rest, patterns);
      assert [first] + rest == strings;
      SpansJoin([first], rest, patterns);
      SpanOfOne(first, patterns);
      hide MaskedSpans;
      PicksCons(MaskedSpans(rest, patterns), first, rest, masked, content);
      assert [] + MaskedSpans(rest, patterns) == MaskedSpans(rest, patterns);
    }
  }
}
