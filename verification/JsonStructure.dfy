/** The single-pass scanner behind the config editor (`src/lib/json-structure.ts`). */
module JsonStructure {
  import opened Wrappers
  import Text

  datatype FrameKind = Object | Array

  datatype Frame = Frame(kind: FrameKind, key: Option<string>, index: nat)

  datatype BracketPair = BracketPair(openLine: nat, closeLine: nat)

  /** Columns are 1-based and half-open, quotes included. */
  datatype StringValue = StringValue(path: string, line: nat, startColumn: nat, endColumn: nat)

  datatype Structure = Structure(pairs: seq<BracketPair>, strings: seq<StringValue>)

  function KeyText(frame: Frame): string {
    match frame.key case None => "" case Some(key) => key
  }

  function IndexText(i: nat): string { "[" + Text.Decimal(i) + "]" }

  function PathOf(stack: seq<Frame>): string {
    if stack == [] then ""
    else
      var last := |stack| - 1;
      var path := PathOf(stack[..last]);
      if stack[last].kind.Array? then path + IndexText(stack[last].index)
      else if path != "" then path + "." + KeyText(stack[last])
      else KeyText(stack[last])
  }

  /** The loop of `pathOf`. */
  method PathOfLoop(stack: seq<Frame>) returns (path: string)
    ensures path == PathOf(stack)
  {
    path := "";
    for k := 0 to |stack|
      invariant path == PathOf(stack[..k])
    {
      assert stack[..k + 1][..k] == stack[..k];
      var frame := stack[k];
      if frame.kind.Array? {
        path := path + IndexText(frame.index);
      } else {
        path := if path != "" then path + "." + KeyText(frame) else KeyText(frame);
      }
    }
    assert stack[..|stack|] == stack;
  }

  // One pass over the text

  datatype State = State(
    i: nat,
    line: nat,
    lineStart: nat,
    stack: seq<Frame>,
    openLines: seq<nat>,
    pairs: seq<BracketPair>,
    strings: seq<StringValue>)
  {
    /** 1-based column of the character at `i`. */
    function Column(): nat
      requires lineStart <= i
    {
      i - lineStart + 1
    }
  }

  const START: State := State(0, 1, 0, [], [], [], [])

  /** Where a string literal ends whose content begins at `i`, and whether a quote closed it. A
      backslash takes the next character with it, whatever that is. */
  function StringEnd(text: string, i: nat): (r: (nat, bool))
    ensures r.0 <= |text|
    ensures i <= |text| ==> i <= r.0
    ensures r.1 ==> i < r.0
    decreases |text| + 2 - i
  {
    if i >= |text| then (|text|, false)
    else if text[i] == '\\' then StringEnd(text, i + 2)
    else if text[i] == '\n' then (i, false)
    else if text[i] == '"' then (i + 1, true)
    else StringEnd(text, i + 1)
  }

  /** The character at `k` is taken by a backslash: an odd run of them, no longer than the content that
      begins at `from`, stands before it. */
  predicate Taken(text: string, from: nat, k: nat)
    requires k <= |text|
    decreases k
  {
    from < k && text[k - 1] == '\\' && !Taken(text, from, k - 1)
  }

  /** A quote or a line feed that no backslash takes. */
  predicate Ends(text: string, from: nat, k: nat)
    requires k < |text|
  {
    (text[k] == '"' || text[k] == '\n') && !Taken(text, from, k)
  }

  /** The literal whose content begins at `from` ends before `end`: a closed one with the first such
      quote, an unclosed one in front of the first such line feed or at the end of the text, and
      there is neither before that. */
  predicate IsLiteralEnd(text: string, from: nat, end: nat, closed: bool) {
    && from <= end <= |text| && (closed ==> from < end)
    && (forall k: nat | from <= k < (if closed then end - 1 else end) :: !Ends(text, from, k))
    && (if closed then text[end - 1] == '"' && Ends(text, from, end - 1)
        else end < |text| ==> text[end] == '\n' && Ends(text, from, end))
  }

  lemma {:induction false} StringEndFrom(text: string, from: nat, i: nat)
    requires from <= i <= |text| + 1 && (i <= |text| ==> !Taken(text, from, i))
    requires forall k: nat | from <= k < i && k < |text| :: !Ends(text, from, k)
    requires from <= |text|
    ensures IsLiteralEnd(text, from, StringEnd(text, i).0, StringEnd(text, i).1)
    decreases |text| + 2 - i
  {
    if i < |text| {
      if text[i] == '\\' {
        StringEndFrom(text, from, i + 2);
      } else if text[i] != '\n' && text[i] != '"' {
        StringEndFrom(text, from, i + 1);
      }
    }
  }

  /** Where the scanner ends a literal, on any text. */
  lemma StringEndIs(text: string, from: nat)
    requires from <= |text|
    ensures IsLiteralEnd(text, from, StringEnd(text, from).0, StringEnd(text, from).1)
  {
    StringEndFrom(text, from, from);
  }

  /** It can end nowhere else. */
  lemma LiteralEndIsUnique(text: string, from: nat, end: nat, closed: bool, other: nat, otherClosed: bool)
    requires IsLiteralEnd(text, from, end, closed) && IsLiteralEnd(text, from, other, otherClosed)
    ensures end == other && closed == otherClosed
  {
  }

  function Pop<T>(s: seq<T>): seq<T> {
    if s == [] then [] else s[..|s| - 1]
  }

  /** A string in key position becomes the key of the object it is in. */
  predicate KeyPosition(stack: seq<Frame>) {
    stack != [] && stack[|stack| - 1].kind.Object? && stack[|stack| - 1].key.None?
  }

  function SetTop(stack: seq<Frame>, top: Frame): seq<Frame>
    requires stack != []
  {
    stack[|stack| - 1 := top]
  }

  function AfterComma(stack: seq<Frame>): seq<Frame> {
    if stack == [] then []
    else
      var top := stack[|stack| - 1];
      SetTop(stack, if top.kind.Array? then top.(index := top.index + 1) else top.(key := None))
  }

  function Step(text: string, s: State): (next: State)
    requires s.i < |text| && s.lineStart <= s.i
    ensures s.i < next.i <= |text| && next.lineStart <= next.i
  {
    var c := text[s.i];
    if c == '\n' then s.(i := s.i + 1, line := s.line + 1, lineStart := s.i + 1)
    else if c == '{' || c == '[' then
      s.(i := s.i + 1,
         openLines := s.openLines + [s.line],
         stack := s.stack + [Frame(if c == '{' then Object else Array, None, 0)])
    else if c == '}' || c == ']' then
      var pairs :=
        if s.openLines != [] && s.line > s.openLines[|s.openLines| - 1]
        then s.pairs + [BracketPair(s.openLines[|s.openLines| - 1], s.line)]
        else s.pairs;
      s.(i := s.i + 1, openLines := Pop(s.openLines), stack := Pop(s.stack), pairs := pairs)
    else if c == ',' then s.(i := s.i + 1, stack := AfterComma(s.stack))
    else if c == '"' then
      var (end, closed) := StringEnd(text, s.i + 1);
      if KeyPosition(s.stack) then
        var key := text[s.i + 1..if closed then end - 1 else end];
        s.(i := end, stack := SetTop(s.stack, s.stack[|s.stack| - 1].(key := Some(key))))
      else
        s.(i := end, strings := s.strings + [StringValue(PathOf(s.stack), s.line, s.Column(), end - s.lineStart + 1)])
    else s.(i := s.i + 1)
  }

  function Run(text: string, s: State): (end: State)
    requires s.i <= |text| && s.lineStart <= s.i
    ensures end.i == |text|
    decreases |text| - s.i
  {
    if s.i == |text| then s else Run(text, Step(text, s))
  }

  function Scan(text: string): Structure {
    var end := Run(text, START);
    Structure(end.pairs, end.strings)
  }

  /** The inner loop over one string literal. */
  method SkipString(text: string, start: nat) returns (end: nat, closed: bool)
    requires start <= |text|
    ensures (end, closed) == StringEnd(text, start)
    ensures IsLiteralEnd(text, start, end, closed)
  {
    StringEndIs(text, start);
    hide IsLiteralEnd;
    var i := start;
    closed := false;
    while i < |text|
      invariant closed ==> i <= |text| && StringEnd(text, start) == (i, true)
      invariant !closed ==> StringEnd(text, start) == StringEnd(text, i)
      decreases !closed, |text| + 2 - i
    {
      var ch := text[i];
      if ch == '\\' {
        i := i + 2;
        continue;
      }
      if ch == '\n' {
        break;
      }
      i := i + 1;
      if ch == '"' {
        closed := true;
        break;
      }
    }
    end := if i > |text| then |text| else i;
  }

  lemma RunStep(text: string, s: State)
    requires s.i < |text| && s.lineStart <= s.i
    ensures Run(text, s) == Run(text, Step(text, s))
  {
    hide Step;
  }

  lemma RunEnd(text: string, s: State)
    requires s.i == |text| && s.lineStart <= s.i
    ensures Run(text, s) == s
  {
  }

  /** `scanJsonUncached`. */
  method ScanUncached(text: string) returns (structure: Structure)
    ensures structure == Scan(text)
  {
    hide Run, StringEnd, PathOf;
    var pairs: seq<BracketPair>, strings: seq<StringValue> := [], [];
    var stack: seq<Frame>, openLines: seq<nat> := [], [];
    var i, line, lineStart := 0, 1, 0;
    while i < |text|
      invariant i <= |text| && lineStart <= i
      invariant Run(text, START) == Run(text, State(i, line, lineStart, stack, openLines, pairs, strings))
      decreases |text| - i
    {
      RunStep(text, State(i, line, lineStart, stack, openLines, pairs, strings));
      var c := text[i];
      if c == '\n' {
        line := line + 1;
        i := i + 1;
        lineStart := i;
      } else if c == '{' || c == '[' {
        openLines := openLines + [line];
        stack := stack + [Frame(if c == '{' then Object else Array, None, 0)];
        i := i + 1;
      } else if c == '}' || c == ']' {
        if openLines != [] {
          var openLine := openLines[|openLines| - 1];
          openLines := openLines[..|openLines| - 1];
          if line > openLine {
            pairs := pairs + [BracketPair(openLine, line)];
          }
        }
        if stack != [] {
          stack := stack[..|stack| - 1];
        }
        i := i + 1;
      } else if c == ',' {
        if stack != [] {
          var top := stack[|stack| - 1];
          if top.kind.Array? {
            stack := stack[|stack| - 1 := top.(index := top.index + 1)];
          } else {
            stack := stack[|stack| - 1 := top.(key := None)];
          }
        }
        i := i + 1;
      } else if c == '"' {
        var startColumn, contentStart := i - lineStart + 1, i + 1;
        var closed;
        i, closed := SkipString(text, contentStart);
        var endColumn := i - lineStart + 1;
        if stack != [] && stack[|stack| - 1].kind.Object? && stack[|stack| - 1].key.None? {
          var key := text[contentStart..if closed then i - 1 else i];
          stack := stack[|stack| - 1 := stack[|stack| - 1].(key := Some(key))];
        } else {
          var path := PathOfLoop(stack);
          strings := strings + [StringValue(path, line, startColumn, endColumn)];
        }
      } else {
        i := i + 1;
      }
    }
    RunEnd(text, State(i, line, lineStart, stack, openLines, pairs, strings));
    return Structure(pairs, strings);
  }

  /** `scanJson`: the last text and its structure are kept. */
  class Scanner {
    var cachedText: Option<string>
    var cachedStructure: Structure

    ghost predicate Valid()
      reads this
    {
      cachedText.Some? ==> cachedStructure == Scan(cachedText.value)
    }

    constructor ()
      ensures Valid()
    {
      cachedText := None;
      cachedStructure := Structure([], []);
    }

    method ScanJson(text: string) returns (structure: Structure)
      requires Valid()
      modifies this
      ensures Valid() && structure == Scan(text)
      ensures cachedText == Some(text)
    {
      if cachedText == Some(text) {
        return cachedStructure;
      }
      structure := ScanUncached(text);
      cachedText := Some(text);
      cachedStructure := structure;
    }
  }

  // What holds on every text, valid JSON or not

  /** `a` ends before `b` begins. */
  predicate Before(a: StringValue, b: StringValue) {
    a.line < b.line || (a.line == b.line && a.endColumn <= b.startColumn)
  }

  ghost predicate OrderedSpans(strings: seq<StringValue>) {
    && (forall k | 0 <= k < |strings| :: strings[k].startColumn < strings[k].endColumn)
    && (forall j, k | 0 <= j < k < |strings| :: Before(strings[j], strings[k]))
  }

  /** `q` was closed after `p`: it begins no earlier than `p` ends, or holds all of it. */
  predicate Follows(p: BracketPair, q: BracketPair) {
    p.closeLine <= q.openLine || (q.openLine <= p.openLine && p.closeLine <= q.closeLine)
  }

  ghost predicate NestedPairs(pairs: seq<BracketPair>) {
    && (forall k | 0 <= k < |pairs| :: pairs[k].openLine < pairs[k].closeLine)
    && (forall j, k | 0 <= j < k < |pairs| :: Follows(pairs[j], pairs[k]))
  }

  /** Every span reported so far ends at or before the scan position. */
  ghost predicate SpansBehind(s: State)
    requires s.lineStart <= s.i
  {
    forall k | 0 <= k < |s.strings| ::
      s.strings[k].line < s.line || (s.strings[k].line == s.line && s.strings[k].endColumn <= s.Column())
  }

  /** Every bracket still open was opened inside none of the pairs already reported. */
  ghost predicate OpensBehind(s: State) {
    && (forall j, k | 0 <= j < k < |s.openLines| :: s.openLines[j] <= s.openLines[k])
    && (forall k | 0 <= k < |s.openLines| :: s.openLines[k] <= s.line)
    && (forall j | 0 <= j < |s.pairs| :: s.pairs[j].closeLine <= s.line)
    && (forall j, k | 0 <= j < |s.pairs| && 0 <= k < |s.openLines| ::
          s.openLines[k] <= s.pairs[j].openLine || s.pairs[j].closeLine <= s.openLines[k])
  }

  lemma StepKeepsSpans(text: string, s: State)
    requires s.i < |text| && s.lineStart <= s.i
    requires OrderedSpans(s.strings) && SpansBehind(s)
    ensures OrderedSpans(Step(text, s).strings) && SpansBehind(Step(text, s))
  {
  }

  lemma StepKeepsNesting(text: string, s: State)
    requires s.i < |text| && s.lineStart <= s.i
    requires NestedPairs(s.pairs) && OpensBehind(s)
    ensures NestedPairs(Step(text, s).pairs)
  {
    var next := Step(text, s);
    if next.pairs != s.pairs {
      var openLine := s.openLines[|s.openLines| - 1];
      assert next.pairs == s.pairs + [BracketPair(openLine, s.line)];
      forall j | 0 <= j < |s.pairs| ensures Follows(s.pairs[j], BracketPair(openLine, s.line)) {
      }
    }
  }

  lemma OpenedBehind(s: State, next: State)
    requires OpensBehind(s) && next.line == s.line && next.pairs == s.pairs && next.openLines == s.openLines + [s.line]
    ensures OpensBehind(next)
  {
  }

  lemma ClosedBehind(s: State, next: State)
    requires OpensBehind(s) && next.line == s.line && next.openLines == Pop(s.openLines)
    requires next.pairs == s.pairs
          || (s.openLines != [] && next.pairs == s.pairs + [BracketPair(s.openLines[|s.openLines| - 1], s.line)])
    ensures OpensBehind(next)
  {
  }

  lemma StepKeepsOpens(text: string, s: State)
    requires s.i < |text| && s.lineStart <= s.i
    requires OpensBehind(s)
    ensures OpensBehind(Step(text, s))
  {
    hide StringEnd, PathOf, KeyPosition, AfterComma, SetTop, Pop;
    var c, next := text[s.i], Step(text, s);
    if c == '{' || c == '[' {
      hide OpensBehind;
      OpenedBehind(s, next);
    } else if c == '}' || c == ']' {
      hide OpensBehind;
      ClosedBehind(s, next);
    }
  }

  lemma {:induction false} RunKeepsOrder(text: string, s: State)
    requires s.i <= |text| && s.lineStart <= s.i
    requires OrderedSpans(s.strings) && SpansBehind(s)
    requires NestedPairs(s.pairs) && OpensBehind(s)
    ensures OrderedSpans(Run(text, s).strings) && NestedPairs(Run(text, s).pairs)
    decreases |text| - s.i
  {
    if s.i < |text| {
      StepKeepsSpans(text, s);
      StepKeepsNesting(text, s);
      StepKeepsOpens(text, s);
      RunKeepsOrder(text, Step(text, s));
    }
  }

  /** On any text at all: the reported spans are non-empty and follow one another without
      overlapping, and the reported pairs span at least two lines and are nested or disjoint. */
  lemma ScanIsOrdered(text: string)
    ensures OrderedSpans(Scan(text).strings) && NestedPairs(Scan(text).pairs)
  {
    RunKeepsOrder(text, START);
  }
}
