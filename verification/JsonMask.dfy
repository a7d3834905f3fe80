/** Covering the secret values of a printed config (`maskedSpans` and `isMaskedPath` in
    `src/lib/json-structure.ts`). */
module JsonMask {
  import opened Wrappers
  import opened JsonStructure
  import opened JsonPrint
  import opened JsonScanPrint
  import Text

  /** The length of an array index `[digits]` at the head of a path, or 0. */
  function IndexLength(path: string): (n: nat)
    ensures n <= |path|
    ensures n > 0 ==> n >= 3 && path[0] == '[' && path[n - 1] == ']'
  {
    if path == [] || path[0] != '[' then 0
    else
      var k := DigitRun(path[1..]);
      if k > 0 && 1 + k < |path| && path[1 + k] == ']' then k + 2 else 0
  }

  function DigitRun(s: string): (k: nat)
    ensures k <= |s|
    ensures forall i | 0 <= i < k :: Text.IsDigit(s[i])
    ensures k < |s| ==> !Text.IsDigit(s[k])
  {
    if s == [] || !Text.IsDigit(s[0]) then 0 else 1 + DigitRun(s[1..])
  }

  /** `path.replace(/\[\d+\]/g, "[]")`. */
  function EraseIndices(path: string): string
    decreases |path|
  {
    if path == [] then []
    else if IndexLength(path) > 0 then "[]" + EraseIndices(path[IndexLength(path)..])
    else [path[0]] + EraseIndices(path[1..])
  }

  predicate IsMaskedPath(path: string, patterns: seq<string>) {
    path in patterns || EraseIndices(path) in patterns
  }

  datatype MaskedSpan = MaskedSpan(path: string, line: nat, startColumn: nat, endColumn: nat)

  /** `maskedSpans`: the contents of the masked values, quotes excluded, empty ones dropped. */
  function MaskedSpans(strings: seq<StringValue>, patterns: seq<string>): seq<MaskedSpan> {
    if strings == [] then []
    else
      var last := |strings| - 1;
      var v := strings[last];
      MaskedSpans(strings[..last], patterns)
      + (if patterns != [] && IsMaskedPath(v.path, patterns) && v.startColumn + 1 < v.endColumn - 1
         then [MaskedSpan(v.path, v.line, v.startColumn + 1, v.endColumn - 1)]
         else [])
  }

  // Erasing indices from a path

  /** The pattern of a position: its path with every array index left out of its brackets. */
  function PatternOf(stack: seq<Frame>): string {
    if stack == [] then ""
    else
      var last := |stack| - 1;
      var path := PatternOf(stack[..last]);
      if stack[last].kind.Array? then path + "[]"
      else if path != "" then path + "." + EraseIndices(KeyText(stack[last]))
      else EraseIndices(KeyText(stack[last]))
  }

  lemma {:induction false} DigitRunJoin(a: string, b: string)
    requires b != [] && !Text.IsDigit(b[0])
    ensures DigitRun(a + b) == DigitRun(a)
  {
    if a == [] {
      assert a + b == b;
    } else {
      assert (a + b)[1..] == a[1..] + b;
      DigitRunJoin(a[1..], b);
    }
  }

  lemma IndexLengthJoin(a: string, b: string)
    requires a != [] && b != [] && !Text.IsDigit(b[0]) && b[0] != ']'
    ensures IndexLength(a + b) == IndexLength(a)
  {
    assert (a + b)[1..] == a[1..] + b;
    DigitRunJoin(a[1..], b);
  }

  lemma {:induction false} EraseJoin(a: string, b: string)
    requires b != [] && !Text.IsDigit(b[0]) && b[0] != ']'
    ensures EraseIndices(a + b) == EraseIndices(a) + EraseIndices(b)
    decreases |a|
  {
    hide IndexLength;
    if a == [] {
      assert a + b == b;
    } else {
      IndexLengthJoin(a, b);
      var n := if IndexLength(a) > 0 then IndexLength(a) else 1;
      assert (a + b)[n..] == a[n..] + b;
      EraseJoin(a[n..], b);
    }
  }

  lemma {:induction false} DigitRunOfDigits(digits: string, rest: string)
    requires Text.AllDigits(digits) && (rest == [] || !Text.IsDigit(rest[0]))
    ensures DigitRun(digits + rest) == |digits|
  {
    if digits == [] {
      assert digits + rest == rest;
    } else {
      assert (digits + rest)[1..] == digits[1..] + rest;
      DigitRunOfDigits(digits[1..], rest);
    }
  }

  lemma EraseIndexText(i: nat)
    ensures EraseIndices(IndexText(i)) == "[]"
  {
    var digits := Text.Decimal(i);
    var path := IndexText(i);
    assert path == "[" + (digits + "]");
    assert path[1..] == digits + "]";
    DigitRunOfDigits(digits, "]");
    assert IndexLength(path) == |path| && path[|path|..] == [];
  }

  lemma EraseAfterDot(key: string)
    ensures EraseIndices("." + key) == "." + EraseIndices(key)
  {
    assert ("." + key)[1..] == key;
  }

  /** Erasing the indices from a path gives the pattern of the position it names. */
  lemma {:induction false} PathErasesToPattern(stack: seq<Frame>)
    ensures EraseIndices(PathOf(stack)) == PatternOf(stack)
  {
    if stack != [] {
      var last := |stack| - 1;
      var path, frame := PathOf(stack[..last]), stack[last];
      PathErasesToPattern(stack[..last]);
      if frame.kind.Array? {
        EraseJoin(path, IndexText(frame.index));
        EraseIndexText(frame.index);
      } else if path != "" {
        assert path + "." + KeyText(frame) == path + ("." + KeyText(frame));
        EraseJoin(path, "." + KeyText(frame));
        EraseAfterDot(KeyText(frame));
        assert EraseIndices(path) != "";
        assert EraseIndices(path) + "." + EraseIndices(KeyText(frame)) == EraseIndices(path) + ("." + EraseIndices(KeyText(frame)));
      }
    }
  }

  // Every reported literal is where it says

  ghost predicate AllPrinted(text: string, found: seq<Found>) {
    forall k | 0 <= k < |found| :: PrintedAt(text, found[k].offset, Quote(found[k].s))
  }

  lemma {:induction false} StringsArePrinted(text: string, t: Tree, d: nat, offset: nat, within: seq<Frame>)
    requires PrintedAt(text, offset, Print(t, d))
    ensures AllPrinted(text, StringsIn(t, d, offset, within))
    decreases t, 1
  {
    match t
    case Atom(_) =>
    case Quoted(_) =>
    case List(items) =>
      ListParts(text, offset, items, d);
      ItemStringsArePrinted(text, items, d + 1, offset + 1, within);
    case Record(members) =>
      RecordParts(text, offset, members, d);
      MemberStringsArePrinted(text, members, d + 1, offset + 1, within);
  }

  lemma {:induction false} ItemStringsArePrinted(text: string, items: seq<Tree>, d: nat, offset: nat, within: seq<Frame>)
    requires PrintedAt(text, offset, PrintItems(items, d))
    ensures AllPrinted(text, StringsInItems(items, d, offset, within))
    decreases items, 0
  {
    hide PrintedAt, Print, Lead, Quote;
    if items != [] {
      var last := |items| - 1;
      ItemParts(text, offset, items, d);
      ItemStringsArePrinted(text, items[..last], d, offset, within);
      var at := offset + |PrintItems(items[..last], d) + Lead(last, d)|;
      StringsArePrinted(text, items[last], d, at, within + [ItemFrame(last)]);
    }
  }

  lemma {:induction false} MemberStringsArePrinted(text: string, members: seq<Member>, d: nat, offset: nat, within: seq<Frame>)
    requires PrintedAt(text, offset, PrintMembers(members, d))
    ensures AllPrinted(text, StringsInMembers(members, d, offset, within))
    decreases members, 0
  {
    hide PrintedAt, Print, Lead, Quote;
    if members != [] {
      var last := |members| - 1;
      MemberParts(text, offset, members, d);
      MemberStringsArePrinted(text, members[..last], d, offset, within);
      var at := offset + |PrintMembers(members[..last], d) + Lead(last, d) + Quote(members[last].key) + ": "|;
      StringsArePrinted(text, members[last].value, d, at, within + [MemberFrame(members[last].key)]);
    }
  }

  /** The lines of a text, as an editor shows them. */
  function Lines(text: string): (lines: seq<string>)
    ensures |lines| >= 1
  {
    if text == [] then [""]
    else
      var last := |text| - 1;
      var before := Lines(text[..last]);
      if text[last] == '\n' then before + [""]
      else before[|before| - 1 := before[|before| - 1] + [text[last]]]
  }

  lemma {:induction false} LinesUpTo(text: string, i: nat)
    requires i <= |text|
    ensures var lines := Lines(text[..i]);
            |lines| == LineAt(text, i) && lines[|lines| - 1] == text[LineStart(text, i)..i]
  {
    if i > 0 {
      LinesUpTo(text, i - 1);
      assert text[..i][..i - 1] == text[..i - 1] && text[..i][i - 1] == text[i - 1];
    }
  }

  lemma {:induction false} LinesGrow(text: string, i: nat, j: nat)
    requires i <= j <= |text|
    ensures var a, b := Lines(text[..i]), Lines(text[..j]);
            |a| <= |b| && a[|a| - 1] <= b[|a| - 1]
  {
    if i < j {
      LinesGrow(text, i, j - 1);
      assert text[..j][..j - 1] == text[..j - 1];
    }
  }

  lemma SliceOfLine(text: string, line: string, start: nat, a: nat, end: nat)
    requires start <= a <= end <= |text| && text[start..end] <= line
    ensures end - start <= |line| && line[a - start..end - start] == text[a..end]
  {
    assert line[..end - start] == text[start..end];
    assert line[a - start..end - start] == text[start..end][a - start..end - start];
  }

  /** The line and columns reported for a printed literal slice exactly that literal out of the
      text. */
  lemma SpanSlicesLiteral(text: string, f: Found)
    requires PrintedAt(text, f.offset, Quote(f.s))
    ensures var r := Report(text, f);
            var lines := Lines(text);
            && 1 <= r.line <= |lines| && 1 <= r.startColumn <= r.endColumn <= |lines[r.line - 1]| + 1
            && lines[r.line - 1][r.startColumn - 1..r.endColumn - 1] == Quote(f.s)
  {
    hide Quote, Lines, LineAt, LineStart, PathOf;
    var end := f.offset + |Quote(f.s)|;
    QuoteOneLine(text, f.offset, f.s);
    LinesUpTo(text, end);
    LinesGrow(text, end, |text|);
    assert text[..|text|] == text;
    var line, start := Lines(text)[LineAt(text, end) - 1], LineStart(text, end);
    assert text[start..end] <= line;
    SliceOfLine(text, line, start, f.offset, end);
  }

  /** Every string the scanner reports on a printed document slices out its own literal. */
  lemma ScannedSpansSlice(t: Tree, k: nat)
    requires Printable(t) && k < |StringsIn(t, 0, 0, [])|
    ensures var text, f := Document(t), StringsIn(t, 0, 0, [])[k];
            var lines := Lines(text);
            && |Scan(text).strings| == |StringsIn(t, 0, 0, [])|
            && var r := Scan(text).strings[k];
               && r.path == PathOf(f.within)
               && 1 <= r.line <= |lines| && 1 <= r.startColumn <= r.endColumn <= |lines[r.line - 1]| + 1
               && lines[r.line - 1][r.startColumn - 1..r.endColumn - 1] == Quote(f.s)
  {
    hide StringsIn, Scan, Lines, Quote, PathOf, Printable, Document, Report, Reports, PrintedAt;
    var text, found := Document(t), StringsIn(t, 0, 0, []);
    ScanAfterPrint(t);
    DocumentIsPrinted(t);
    StringsArePrinted(text, t, 0, 0, []);
    ReportAt(text, found, k);
    SpanSlicesLiteral(text, found[k]);
  }

  lemma DocumentIsPrinted(t: Tree)
    ensures PrintedAt(Document(t), 0, Print(t, 0))
  {
    hide Print;
    assert Document(t)[0..|Print(t, 0)|] == Print(t, 0);
  }

  lemma ReportAt(text: string, found: seq<Found>, k: nat)
    requires k < |found|
    ensures |Reports(text, found)| == |found| && Reports(text, found)[k] == Report(text, found[k])
    ensures Report(text, found[k]).path == PathOf(found[k].within)
  {
  }

  // The mask covers the contents of the secret values and nothing else

  ghost predicate Covered(spans: seq<MaskedSpan>, line: nat, column: nat) {
    exists k | 0 <= k < |spans| :: spans[k].line == line && spans[k].startColumn <= column < spans[k].endColumn
  }

  /** The position is inside the quotes of a reported value that is to be masked. */
  ghost predicate InMasked(strings: seq<StringValue>, patterns: seq<string>, line: nat, column: nat) {
    exists k | 0 <= k < |strings| ::
      && IsMaskedPath(strings[k].path, patterns)
      && strings[k].line == line
      && strings[k].startColumn < column < strings[k].endColumn - 1
  }

  lemma {:induction false} CoveredIffInMasked(strings: seq<StringValue>, patterns: seq<string>, line: nat, column: nat)
    ensures Covered(MaskedSpans(strings, patterns), line, column) <==> InMasked(strings, patterns, line, column)
  {
    if strings != [] {
      var last := |strings| - 1;
      CoveredIffInMasked(strings[..last], patterns, line, column);
      var before, all := MaskedSpans(strings[..last], patterns), MaskedSpans(strings, patterns);
      assert forall k | 0 <= k < |before| :: all[k] == before[k];
      assert forall k | 0 <= k < last :: strings[..last][k] == strings[k];
      assert Covered(all, line, column) <==>
        Covered(before, line, column) || (|all| > |before| && all[|before|].line == line && all[|before|].startColumn <= column < all[|before|].endColumn);
    }
  }

  lemma {:induction false} LineMonotone(text: string, a: nat, b: nat)
    requires a <= b
    ensures LineAt(text, a) <= LineAt(text, b)
    ensures LineAt(text, a) == LineAt(text, b) ==> LineStart(text, a) == LineStart(text, b)
  {
    if a < b { LineMonotone(text, a, b - 1); }
  }

  lemma ColumnsOrder(text: string, a: nat, b: nat)
    requires LineAt(text, a) == LineAt(text, b)
    ensures LineStart(text, a) == LineStart(text, b)
  {
    if a <= b { LineMonotone(text, a, b); } else { LineMonotone(text, b, a); }
  }

  /** A position of the text is strictly inside the reported span of a literal exactly when its
      offset is inside the quotes. */
  lemma InsideByOffset(text: string, f: Found, o: nat)
    requires PrintedAt(text, f.offset, Quote(f.s)) && o <= |text|
    ensures var r := Report(text, f);
            (r.line == LineAt(text, o) && r.startColumn < ColumnAt(text, o) < r.endColumn - 1)
              <==> f.offset < o < f.offset + |Quote(f.s)| - 1
  {
    hide Quote;
    var end := f.offset + |Quote(f.s)|;
    if LineAt(text, f.offset) == LineAt(text, o) {
      ColumnsOrder(text, f.offset, o);
    }
    if f.offset < o < end {
      QuoteOneLine(text, f.offset, f.s);
      LineMonotone(text, f.offset, o);
      LineMonotone(text, o, end);
    }
  }

  /** The string value the offset `o` is inside of, if it is a secret. */
  ghost predicate SecretAt(t: Tree, patterns: seq<string>, o: nat) {
    var found := StringsIn(t, 0, 0, []);
    exists k | 0 <= k < |found| ::
      && (PathOf(found[k].within) in patterns || PatternOf(found[k].within) in patterns)
      && found[k].offset < o < found[k].offset + |Quote(found[k].s)| - 1
  }

  /** Masking is exact: on a printed document a character is covered if and only if it is one of
      the content characters of a string value whose path, or whose path without array indices,
      is one of the patterns. */
  lemma MaskingIsExact(t: Tree, patterns: seq<string>, o: nat)
    requires Printable(t) && o < |Document(t)|
    ensures var text := Document(t);
            Covered(MaskedSpans(Scan(text).strings, patterns), LineAt(text, o), ColumnAt(text, o)) <==> SecretAt(t, patterns, o)
  {
    hide StringsIn, Print, Scan, Quote, LineAt, LineStart, PathOf, PatternOf, EraseIndices, MaskedSpans;
    var text, found := Document(t), StringsIn(t, 0, 0, []);
    ScanAfterPrint(t);
    assert text[0..|Print(t, 0)|] == Print(t, 0);
    StringsArePrinted(text, t, 0, 0, []);
    var strings := Scan(text).strings;
    CoveredIffInMasked(strings, patterns, LineAt(text, o), ColumnAt(text, o));
    forall k | 0 <= k < |found|
      ensures IsMaskedPath(strings[k].path, patterns) <==> PathOf(found[k].within) in patterns || PatternOf(found[k].within) in patterns
      ensures (strings[k].line == LineAt(text, o) && strings[k].startColumn < ColumnAt(text, o) < strings[k].endColumn - 1)
        <==> found[k].offset < o < found[k].offset + |Quote(found[k].s)| - 1
    {
      assert strings[k] == Report(text, found[k]);
      PathErasesToPattern(found[k].within);
      InsideByOffset(text, found[k], o);
    }
  }
}
