/** Scanning a printed document finds exactly what was printed. */
module JsonScanPrint {
  import opened Wrappers
  import opened JsonStructure
  import opened JsonPrint

  /** What the scanner should report for a string value. */
  function Report(text: string, f: Found): StringValue {
    StringValue(PathOf(f.within), LineAt(text, f.offset), ColumnAt(text, f.offset), ColumnAt(text, f.offset) + |Quote(f.s)|)
  }

  function Reports(text: string, found: seq<Found>): seq<StringValue> {
    seq(|found|, k requires 0 <= k < |found| => Report(text, found[k]))
  }

  /** The bracket pairs that span more than one line, as lines. */
  function LongPairs(text: string, brackets: seq<Brackets>): seq<BracketPair> {
    if brackets == [] then []
    else
      var last := |brackets| - 1;
      var open, close := LineAt(text, brackets[last].open), LineAt(text, brackets[last].close);
      LongPairs(text, brackets[..last]) + (if open < close then [BracketPair(open, close)] else [])
  }

  lemma ReportsJoin(text: string, a: seq<Found>, b: seq<Found>)
    ensures Reports(text, a + b) == Reports(text, a) + Reports(text, b)
  {
  }

  lemma {:induction false} LongPairsJoin(text: string, a: seq<Brackets>, b: seq<Brackets>)
    ensures LongPairs(text, a + b) == LongPairs(text, a) + LongPairs(text, b)
  {
    if b == [] {
      assert a + b == a;
    } else {
      var last := |b| - 1;
      assert (a + b)[..|a + b| - 1] == a + b[..last];
      LongPairsJoin(text, a, b[..last]);
    }
  }

  /** The scanner's line and line start are those of its position. */
  ghost predicate Located(text: string, s: State) {
    s.i <= |text| && s.line == LineAt(text, s.i) && s.lineStart == LineStart(text, s.i)
  }

  function MoveTo(text: string, s: State, i: nat): (moved: State)
    requires i <= |text|
    ensures Located(text, moved)
  {
    s.(i := i, line := LineAt(text, i), lineStart := LineStart(text, i))
  }

  // One thing at a time

  lemma {:induction false} OverPlain(text: string, s: State, n: nat)
    requires Located(text, s) && s.i + n <= |text|
    requires forall k | s.i <= k < s.i + n :: Plain(text[k])
    ensures Run(text, s) == Run(text, MoveTo(text, s, s.i + n))
    decreases n
  {
    hide Run, LineAt, LineStart, StringEnd, PathOf;
    if n > 0 {
      LineStaysOn(text, s.i, s.i + 1);
      var next := MoveTo(text, s, s.i + 1);
      assert Step(text, s) == next;
      RunStep(text, s);
      OverPlain(text, next, n - 1);
    }
  }

  lemma OverNewline(text: string, s: State)
    requires Located(text, s) && s.i < |text| && text[s.i] == '\n'
    ensures Run(text, s) == Run(text, MoveTo(text, s, s.i + 1))
  {
    assert Step(text, s) == MoveTo(text, s, s.i + 1);
  }

  lemma OverComma(text: string, s: State)
    requires Located(text, s) && s.i < |text| && text[s.i] == ','
    ensures Run(text, s) == Run(text, MoveTo(text, s.(stack := AfterComma(s.stack)), s.i + 1))
  {
    LineStaysOn(text, s.i, s.i + 1);
    assert Step(text, s) == MoveTo(text, s.(stack := AfterComma(s.stack)), s.i + 1);
  }

  lemma OverIndent(text: string, s: State, d: nat)
    requires Located(text, s) && PrintedAt(text, s.i, "\n" + Spaces(2 * d))
    ensures Run(text, s) == Run(text, MoveTo(text, s, s.i + 1 + 2 * d))
  {
    hide Run;
    forall k | 0 <= k < 1 + 2 * d ensures text[s.i + k] == ("\n" + Spaces(2 * d))[k] {
      PrintedChar(text, s.i, "\n" + Spaces(2 * d), k);
    }
    assert text[s.i + 0] == '\n';
    OverNewline(text, s);
    var next := MoveTo(text, s, s.i + 1);
    forall k | next.i <= k < next.i + 2 * d ensures Plain(text[k]) {
      assert text[s.i + (k - s.i)] == ' ';
    }
    OverPlain(text, next, 2 * d);
  }

  lemma OverLead(text: string, s: State, n: nat, d: nat)
    requires Located(text, s) && PrintedAt(text, s.i, Lead(n, d))
    ensures Run(text, s)
         == Run(text, MoveTo(text, s.(stack := if n > 0 then AfterComma(s.stack) else s.stack), s.i + |Lead(n, d)|))
  {
    hide Run;
    if n > 0 {
      assert Lead(n, d) == "," + ("\n" + Spaces(2 * d));
      PrintedChar(text, s.i, Lead(n, d), 0);
      PrintedParts(text, s.i, ",", "\n" + Spaces(2 * d));
      OverComma(text, s);
      OverIndent(text, MoveTo(text, s.(stack := AfterComma(s.stack)), s.i + 1), d);
    } else {
      assert Lead(n, d) == "\n" + Spaces(2 * d);
      OverIndent(text, s, d);
    }
  }

  lemma OverClosing(text: string, s: State, count: nat, d: nat)
    requires Located(text, s) && PrintedAt(text, s.i, Closing(count, d))
    ensures Run(text, s) == Run(text, MoveTo(text, s, s.i + |Closing(count, d)|))
  {
    hide Run;
    if count > 0 {
      OverIndent(text, s, d);
    }
  }

  // String literals

  lemma PrintedWithin(text: string, i: nat, part: string)
    requires PrintedAt(text, i, part)
    ensures i + |part| <= |text|
  {
  }

  lemma {:induction false} EscapedOneLine(s: string)
    ensures forall k | 0 <= k < |Escape(s)| :: Escape(s)[k] != '\n'
  {
    if s != [] {
      EscapedOneLine(s[1..]);
      assert forall k | 0 <= k < |EscapeChar(s[0])| :: EscapeChar(s[0])[k] != '\n';
    }
  }

  /** Stepping over one escaped character never stops inside it. */
  lemma OverEscapedChar(text: string, i: nat, c: char)
    requires PrintedAt(text, i, EscapeChar(c))
    ensures StringEnd(text, i) == StringEnd(text, i + |EscapeChar(c)|)
  {
    var e := EscapeChar(c);
    forall k | 0 <= k < |e| ensures text[i + k] == e[k] {
      PrintedChar(text, i, e, k);
    }
    if |e| == 6 {
      assert text[i + 0] == '\\';
      assert text[i + 2] == '0' && text[i + 3] == '0';
      assert text[i + 4] == HexDigit(c as int / 16) && text[i + 5] == HexDigit(c as int % 16);
      assert StringEnd(text, i + 2) == StringEnd(text, i + 3) == StringEnd(text, i + 4);
      assert StringEnd(text, i + 4) == StringEnd(text, i + 5) == StringEnd(text, i + 6);
    } else {
      assert text[i + 0] == e[0];
    }
  }

  /** The scanner's string ends where the printer's does. */
  lemma {:induction false} EscapedEnds(text: string, i: nat, s: string)
    requires PrintedAt(text, i, Escape(s) + "\"")
    ensures StringEnd(text, i) == (i + |Escape(s)| + 1, true)
    decreases |s|
  {
    hide EscapeChar, PrintedAt, Escape;
    if s == [] {
      EscapeNothing();
      PrintedWithin(text, i, "\"");
      PrintedChar(text, i, "\"", 0);
      assert text[i + 0] == '"';
    } else {
      hide StringEnd;
      var e := EscapeChar(s[0]);
      EscapeCons(s);
      PrintedParts(text, i, e, Escape(s[1..]) + "\"");
      OverEscapedChar(text, i, s[0]);
      EscapedEnds(text, i + |e|, s[1..]);
    }
  }

  lemma EscapeNothing()
    ensures Escape("") == "" && Escape("") + "\"" == "\""
  {
  }

  lemma EscapeCons(s: string)
    requires s != []
    ensures Escape(s) + "\"" == EscapeChar(s[0]) + (Escape(s[1..]) + "\"")
    ensures |Escape(s)| == |EscapeChar(s[0])| + |Escape(s[1..])|
  {
    hide EscapeChar;
  }

  lemma QuoteParts(text: string, i: nat, s: string)
    requires PrintedAt(text, i, Quote(s))
    ensures text[i] == '"' && PrintedAt(text, i + 1, Escape(s) + "\"")
    ensures text[i + 1..i + |Quote(s)| - 1] == Escape(s)
  {
    assert Quote(s) == "\"" + (Escape(s) + "\"");
    PrintedParts(text, i, "\"", Escape(s) + "\"");
    PrintedChar(text, i, "\"", 0);
    PrintedParts(text, i + 1, Escape(s), "\"");
  }

  lemma QuoteOneLine(text: string, i: nat, s: string)
    requires PrintedAt(text, i, Quote(s))
    ensures LineAt(text, i + |Quote(s)|) == LineAt(text, i) && LineStart(text, i + |Quote(s)|) == LineStart(text, i)
  {
    hide LineAt, LineStart;
    EscapedOneLine(s);
    forall k | i <= k < i + |Quote(s)| ensures text[k] != '\n' {
      PrintedChar(text, i, Quote(s), k - i);
    }
    LineStaysOn(text, i, i + |Quote(s)|);
  }

  lemma QuoteEnds(text: string, i: nat, s: string)
    requires PrintedAt(text, i, Quote(s))
    ensures text[i] == '"' && StringEnd(text, i + 1) == (i + |Quote(s)|, true)
    ensures LineAt(text, i + |Quote(s)|) == LineAt(text, i) && LineStart(text, i + |Quote(s)|) == LineStart(text, i)
    ensures text[i + 1..i + |Quote(s)| - 1] == Escape(s)
  {
    hide LineAt, LineStart, StringEnd, Escape;
    QuoteParts(text, i, s);
    EscapedEnds(text, i + 1, s);
    QuoteOneLine(text, i, s);
  }

  lemma OverValueString(text: string, s: State, str: string)
    requires Located(text, s) && PrintedAt(text, s.i, Quote(str)) && !KeyPosition(s.stack)
    ensures Run(text, s)
         == Run(text, MoveTo(text, s.(strings := s.strings + [Report(text, Found(s.stack, s.i, str))]), s.i + |Quote(str)|))
  {
    hide LineAt, LineStart, StringEnd, Escape, PathOf, Quote;
    QuoteEnds(text, s.i, str);
    assert Step(text, s) == MoveTo(text, s.(strings := s.strings + [Report(text, Found(s.stack, s.i, str))]), s.i + |Quote(str)|);
  }

  lemma OverKeyString(text: string, s: State, within: seq<Frame>, str: string)
    requires Located(text, s) && PrintedAt(text, s.i, Quote(str))
    requires s.stack == within + [Frame(Object, None, 0)]
    ensures Run(text, s) == Run(text, MoveTo(text, s.(stack := within + [MemberFrame(str)]), s.i + |Quote(str)|))
  {
    hide LineAt, LineStart, StringEnd, Escape, PathOf, Quote;
    QuoteEnds(text, s.i, str);
    assert SetTop(s.stack, s.stack[|s.stack| - 1].(key := Some(Escape(str)))) == within + [MemberFrame(str)];
    assert Step(text, s) == MoveTo(text, s.(stack := within + [MemberFrame(str)]), s.i + |Quote(str)|);
  }

  // Brackets

  /** The state just inside the bracket at the scan position. */
  function Opened(text: string, s: State): State
    requires s.i < |text|
  {
    var kind := if text[s.i] == '{' then Object else Array;
    MoveTo(text, s.(openLines := s.openLines + [s.line], stack := s.stack + [Frame(kind, None, 0)]), s.i + 1)
  }

  lemma OverOpening(text: string, s: State)
    requires Located(text, s) && s.i < |text| && (text[s.i] == '{' || text[s.i] == '[')
    ensures Run(text, s) == Run(text, Opened(text, s))
  {
    LineStaysOn(text, s.i, s.i + 1);
    assert Step(text, s) == Opened(text, s);
  }

  lemma OverClosingBracket(text: string, s: State, within: seq<Frame>, top: Frame, opens: seq<nat>, open: nat)
    requires Located(text, s) && s.i < |text| && (text[s.i] == '}' || text[s.i] == ']')
    requires s.stack == within + [top] && s.openLines == opens + [LineAt(text, open)]
    ensures Run(text, s)
         == Run(text, MoveTo(text,
              s.(openLines := opens, stack := within, pairs := s.pairs + LongPairs(text, [Brackets(open, s.i)])), s.i + 1))
  {
    LineStaysOn(text, s.i, s.i + 1);
    assert [Brackets(open, s.i)][..0] == [];
    assert Pop(s.stack) == within && Pop(s.openLines) == opens;
    assert Step(text, s) == MoveTo(text,
              s.(openLines := opens, stack := within, pairs := s.pairs + LongPairs(text, [Brackets(open, s.i)])), s.i + 1);
  }

  // Whole trees

  /** The scanner's state once it has gone over a stretch of text that holds these values. */
  function Past(text: string, s: State, stack: seq<Frame>, brackets: seq<Brackets>, found: seq<Found>, i: nat): State
    requires i <= |text|
  {
    MoveTo(text, s.(stack := stack, pairs := s.pairs + LongPairs(text, brackets), strings := s.strings + Reports(text, found)), i)
  }

  lemma PastTwice(text: string, s: State, stack: seq<Frame>, b1: seq<Brackets>, f1: seq<Found>, i: nat,
                  stack': seq<Frame>, b2: seq<Brackets>, f2: seq<Found>, j: nat)
    requires i <= |text| && j <= |text|
    ensures Past(text, Past(text, s, stack, b1, f1, i), stack', b2, f2, j) == Past(text, s, stack', b1 + b2, f1 + f2, j)
  {
    ReportsJoin(text, f1, f2);
    LongPairsJoin(text, b1, b2);
    assert s.pairs + LongPairs(text, b1) + LongPairs(text, b2) == s.pairs + (LongPairs(text, b1) + LongPairs(text, b2));
    assert s.strings + Reports(text, f1) + Reports(text, f2) == s.strings + (Reports(text, f1) + Reports(text, f2));
  }

  /** Reading on from where a stretch ends, without values. */
  lemma PastMoves(text: string, s: State, stack: seq<Frame>, b: seq<Brackets>, f: seq<Found>, i: nat, stack': seq<Frame>, j: nat)
    requires i <= |text| && j <= |text|
    ensures var past := Past(text, s, stack, b, f, i);
            && Located(text, past) && past.i == i && past.stack == stack && past.openLines == s.openLines
            && MoveTo(text, past.(stack := stack'), j) == Past(text, s, stack', b, f, j)
  {
    hide LineAt, LineStart, LongPairs, Reports;
  }

  lemma PastStays(text: string, s: State)
    requires Located(text, s)
    ensures s.i <= |text| && Past(text, s, s.stack, [], [], s.i) == s
  {
    PastNothing(text, s, s.i);
  }

  lemma PastNothing(text: string, s: State, i: nat)
    requires Located(text, s) && i <= |text|
    ensures forall stack :: Past(text, s, stack, [], [], i) == MoveTo(text, s.(stack := stack), i)
  {
    assert s.pairs + [] == s.pairs && s.strings + Reports(text, []) == s.strings;
  }

  lemma OverAtom(text: string, s: State, a: string)
    requires Located(text, s) && PrintedAt(text, s.i, a) && AllPlain(a)
    ensures s.i + |a| <= |text| && Run(text, s) == Run(text, Past(text, s, s.stack, [], [], s.i + |a|))
  {
    hide Run, LineAt, LineStart;
    forall k | s.i <= k < s.i + |a| ensures Plain(text[k]) {
      PrintedChar(text, s.i, a, k - s.i);
    }
    OverPlain(text, s, |a|);
    PastNothing(text, s, s.i + |a|);
  }

  lemma OverQuoted(text: string, s: State, str: string)
    requires Located(text, s) && PrintedAt(text, s.i, Quote(str)) && !KeyPosition(s.stack)
    ensures s.i + |Quote(str)| <= |text|
    ensures Run(text, s) == Run(text, Past(text, s, s.stack, [], [Found(s.stack, s.i, str)], s.i + |Quote(str)|))
  {
    hide Run, LineAt, LineStart, PathOf, StringEnd, Quote;
    OverValueString(text, s, str);
    assert Reports(text, [Found(s.stack, s.i, str)]) == [Report(text, Found(s.stack, s.i, str))];
    assert s.pairs + [] == s.pairs;
  }

  /** Going over the text of a tree in value position adds its values and pairs, and nothing else. */
  lemma {:induction false} OverTree(text: string, s: State, t: Tree, d: nat)
    requires Located(text, s) && Printable(t) && PrintedAt(text, s.i, Print(t, d)) && !KeyPosition(s.stack)
    ensures Run(text, s)
         == Run(text, Past(text, s, s.stack, BracketsIn(t, d, s.i), StringsIn(t, d, s.i, s.stack), s.i + |Print(t, d)|))
    decreases t, 1
  {
    hide Run, Past, Located, PrintedAt, KeyPosition, Quote;
    match t
    case Atom(a) =>
      OverAtom(text, s, a);
    case Quoted(str) =>
      OverQuoted(text, s, str);
    case List(items) =>
      OverList(text, s, items, d);
    case Record(members) =>
      OverRecord(text, s, members, d);
  }

  // How the text of a container falls into parts

  lemma FourParts(a: string, b: string, c: string, e: string)
    ensures a + b + c + e == a + (b + (c + e))
  {
  }

  lemma FiveParts(text: string, offset: nat, a: string, b: string, c: string, e: string, f: string)
    requires PrintedAt(text, offset, a + b + c + e + f)
    ensures PrintedAt(text, offset, a) && PrintedAt(text, offset + |a|, b)
    ensures PrintedAt(text, offset + |a| + |b|, c + e)
    ensures PrintedAt(text, offset + |a| + |b| + |c + e|, f)
  {
    assert a + b + c + e + f == a + (b + ((c + e) + f));
    PrintedParts(text, offset, a, b + ((c + e) + f));
    PrintedParts(text, offset + |a|, b, (c + e) + f);
    PrintedParts(text, offset + |a| + |b|, c + e, f);
  }

  lemma ListParts(text: string, offset: nat, items: seq<Tree>, d: nat)
    requires PrintedAt(text, offset, Print(List(items), d))
    ensures var inner, closing := PrintItems(items, d + 1), Closing(|items|, d);
            && |Print(List(items), d)| == |inner| + |closing| + 2
            && offset + |inner| + |closing| + 1 < |text|
            && text[offset] == '[' && text[offset + 1 + |inner| + |closing|] == ']'
            && PrintedAt(text, offset + 1, inner)
            && PrintedAt(text, offset + 1 + |inner|, closing)
  {
    hide PrintedAt, PrintItems, Closing;
    var inner, closing := PrintItems(items, d + 1), Closing(|items|, d);
    FourParts("[", inner, closing, "]");
    ContainerParts(text, offset, "[", inner, closing, "]");
  }

  lemma RecordParts(text: string, offset: nat, members: seq<Member>, d: nat)
    requires PrintedAt(text, offset, Print(Record(members), d))
    ensures var inner, closing := PrintMembers(members, d + 1), Closing(|members|, d);
            && |Print(Record(members), d)| == |inner| + |closing| + 2
            && offset + |inner| + |closing| + 1 < |text|
            && text[offset] == '{' && text[offset + 1 + |inner| + |closing|] == '}'
            && PrintedAt(text, offset + 1, inner)
            && PrintedAt(text, offset + 1 + |inner|, closing)
  {
    hide PrintedAt, PrintMembers, Closing;
    var inner, closing := PrintMembers(members, d + 1), Closing(|members|, d);
    FourParts("{", inner, closing, "}");
    ContainerParts(text, offset, "{", inner, closing, "}");
  }

  lemma ContainerParts(text: string, offset: nat, open: string, inner: string, closing: string, close: string)
    requires |open| == 1 && |close| == 1
    requires PrintedAt(text, offset, open + (inner + (closing + close)))
    ensures offset + |inner| + |closing| + 1 < |text|
    ensures text[offset] == open[0] && text[offset + 1 + |inner| + |closing|] == close[0]
    ensures PrintedAt(text, offset + 1, inner) && PrintedAt(text, offset + 1 + |inner|, closing)
  {
    PrintedParts(text, offset, open, inner + (closing + close));
    PrintedParts(text, offset + 1, inner, closing + close);
    PrintedParts(text, offset + 1 + |inner|, closing, close);
    PrintedChar(text, offset, open, 0);
    PrintedChar(text, offset + 1 + |inner| + |closing|, close, 0);
  }

  lemma ItemParts(text: string, offset: nat, items: seq<Tree>, d: nat)
    requires items != [] && PrintedAt(text, offset, PrintItems(items, d))
    ensures var last := |items| - 1;
            var before, lead, item := PrintItems(items[..last], d), Lead(last, d), Print(items[last], d);
            && |PrintItems(items, d)| == |before| + |lead| + |item| && |before + lead| == |before| + |lead|
            && PrintedAt(text, offset, before)
            && PrintedAt(text, offset + |before|, lead)
            && PrintedAt(text, offset + |before| + |lead|, item)
  {
    hide *;
    var last := |items| - 1;
    ItemsText(items, d);
    ThreeParts(text, offset, PrintItems(items[..last], d), Lead(last, d), Print(items[last], d));
  }

  lemma ItemsText(items: seq<Tree>, d: nat)
    requires items != []
    ensures var last := |items| - 1;
            PrintItems(items, d) == PrintItems(items[..last], d) + Lead(last, d) + Print(items[last], d)
  {
  }

  lemma ThreeParts(text: string, offset: nat, a: string, b: string, c: string)
    requires PrintedAt(text, offset, a + b + c)
    ensures PrintedAt(text, offset, a) && PrintedAt(text, offset + |a|, b) && PrintedAt(text, offset + |a| + |b|, c)
  {
    hide PrintedAt;
    assert a + b + c == a + (b + c);
    PrintedParts(text, offset, a, b + c);
    PrintedParts(text, offset + |a|, b, c);
  }

  lemma MembersText(members: seq<Member>, d: nat)
    requires members != []
    ensures var last := |members| - 1;
            PrintMembers(members, d)
              == PrintMembers(members[..last], d) + Lead(last, d) + Quote(members[last].key) + ": " + Print(members[last].value, d)
  {
  }

  lemma MemberParts(text: string, offset: nat, members: seq<Member>, d: nat)
    requires members != [] && PrintedAt(text, offset, PrintMembers(members, d))
    ensures var last := |members| - 1;
            var before, lead, value := PrintMembers(members[..last], d), Lead(last, d), Print(members[last].value, d);
            var name := Quote(members[last].key) + ": ";
            && |PrintMembers(members, d)| == |before| + |lead| + |name| + |value|
            && |before + lead + Quote(members[last].key) + ": "| == |before| + |lead| + |name|
            && PrintedAt(text, offset, before)
            && PrintedAt(text, offset + |before|, lead)
            && PrintedAt(text, offset + |before| + |lead|, name)
            && PrintedAt(text, offset + |before| + |lead| + |name|, value)
  {
    hide *;
    var last := |members| - 1;
    MembersText(members, d);
    FiveParts(text, offset, PrintMembers(members[..last], d), Lead(last, d), Quote(members[last].key), ": ", Print(members[last].value, d));
  }

  lemma OverList(text: string, s: State, items: seq<Tree>, d: nat)
    requires Located(text, s) && PrintedAt(text, s.i, Print(List(items), d))
    requires forall i | 0 <= i < |items| :: Printable(items[i])
    ensures Run(text, s)
         == Run(text, Past(text, s, s.stack, BracketsIn(List(items), d, s.i), StringsIn(List(items), d, s.i, s.stack), s.i + |Print(List(items), d)|))
    decreases items, 2
  {
    hide Run, PrintedAt, LongPairs, Reports, LineAt, LineStart, PrintItems, BracketsInItems, StringsInItems, Closing;
    var inner, closing := PrintItems(items, d + 1), Closing(|items|, d);
    ListParts(text, s.i, items, d);
    OverOpening(text, s);
    var entered := Opened(text, s);
    OverItems(text, entered, items, d + 1, s.stack);
    var top := ItemFrame(if items == [] then 0 else |items| - 1);
    var brackets, found := BracketsInItems(items, d + 1, s.i + 1), StringsInItems(items, d + 1, s.i + 1, s.stack);
    var filled := Past(text, entered, s.stack + [top], brackets, found, s.i + 1 + |inner|);
    CloseContainer(text, s, entered, filled, top, brackets, found, closing, |items|, d);
  }

  /** From the end of the last child to past the closing bracket. */
  lemma CloseContainer(text: string, s: State, entered: State, filled: State, top: Frame, brackets: seq<Brackets>, found: seq<Found>,
                       closing: string, count: nat, d: nat)
    requires Located(text, s)
    requires s.i < |text| && entered == Opened(text, s)
    requires filled.i <= |text| && filled == Past(text, entered, s.stack + [top], brackets, found, filled.i)
    requires closing == Closing(count, d) && PrintedAt(text, filled.i, closing)
    requires filled.i + |closing| < |text| && (text[filled.i + |closing|] == ']' || text[filled.i + |closing|] == '}')
    ensures Run(text, filled)
         == Run(text, Past(text, s, s.stack, brackets + [Brackets(s.i, filled.i + |closing|)], found, filled.i + |closing| + 1))
  {
    hide Run, LineAt, LineStart, Reports;
    OverClosing(text, filled, count, d);
    var atBracket := MoveTo(text, filled, filled.i + |closing|);
    OverClosingBracket(text, atBracket, s.stack, top, s.openLines, s.i);
    LongPairsJoin(text, brackets, [Brackets(s.i, atBracket.i)]);
    assert s.pairs + LongPairs(text, brackets) + LongPairs(text, [Brackets(s.i, atBracket.i)])
        == s.pairs + LongPairs(text, brackets + [Brackets(s.i, atBracket.i)]);
  }

  lemma {:induction false} OverItems(text: string, s: State, items: seq<Tree>, d: nat, within: seq<Frame>)
    requires Located(text, s) && s.stack == within + [ItemFrame(0)]
    requires PrintedAt(text, s.i, PrintItems(items, d))
    requires forall i | 0 <= i < |items| :: Printable(items[i])
    ensures Run(text, s)
         == Run(text, Past(text, s, within + [LastItemFrame(|items|)], BracketsInItems(items, d, s.i), StringsInItems(items, d, s.i, within), s.i + |PrintItems(items, d)|))
    decreases items, 0
  {
    hide Run, PrintedAt, Lead, Print, BracketsIn, StringsIn, Past, MoveTo, Located, KeyPosition, Printable;
    if items == [] {
      PastStays(text, s);
    } else {
      var last := |items| - 1;
      var before, lead, item := PrintItems(items[..last], d), Lead(last, d), items[last];
      var named := within + [ItemFrame(last)];
      ItemParts(text, s.i, items, d);
      OverItems(text, s, items[..last], d, within);
      var b1, f1 := BracketsInItems(items[..last], d, s.i), StringsInItems(items[..last], d, s.i, within);
      var i := s.i + |before|;
      var j := i + |lead|;
      PrintedWithin(text, s.i, before);
      ToItem(text, s, b1, f1, i, last, d, within);
      OverTree(text, Past(text, s, named, b1, f1, j), item, d);
      PrintedWithin(text, j, Print(item, d));
      PastTwice(text, s, named, b1, f1, j, named, BracketsIn(item, d, j), StringsIn(item, d, j, named), j + |Print(item, d)|);
    }
  }

  /** From the end of one item to the beginning of the next one. */
  lemma ToItem(text: string, s: State, b: seq<Brackets>, f: seq<Found>, i: nat, n: nat, d: nat, within: seq<Frame>)
    requires i <= |text| && PrintedAt(text, i, Lead(n, d))
    ensures var j, next := i + |Lead(n, d)|, within + [ItemFrame(n)];
            && j <= |text|
            && Run(text, Past(text, s, within + [LastItemFrame(n)], b, f, i)) == Run(text, Past(text, s, next, b, f, j))
            && Located(text, Past(text, s, next, b, f, j)) && !KeyPosition(next)
            && Past(text, s, next, b, f, j).i == j && Past(text, s, next, b, f, j).stack == next
  {
    hide Run, PrintedAt, Lead, Past, MoveTo, Located;
    var was, next := within + [LastItemFrame(n)], within + [ItemFrame(n)];
    PrintedWithin(text, i, Lead(n, d));
    PastMoves(text, s, was, b, f, i, next, i + |Lead(n, d)|);
    assert n > 0 ==> AfterComma(was) == next;
    OverLead(text, Past(text, s, was, b, f, i), n, d);
    PastMoves(text, s, next, b, f, i + |Lead(n, d)|, next, i + |Lead(n, d)|);
  }

  function LastItemFrame(count: nat): Frame { ItemFrame(if count == 0 then 0 else count - 1) }

  lemma OverRecord(text: string, s: State, members: seq<Member>, d: nat)
    requires Located(text, s) && PrintedAt(text, s.i, Print(Record(members), d))
    requires forall i | 0 <= i < |members| :: Printable(members[i].value)
    ensures Run(text, s)
         == Run(text, Past(text, s, s.stack, BracketsIn(Record(members), d, s.i), StringsIn(Record(members), d, s.i, s.stack), s.i + |Print(Record(members), d)|))
    decreases members, 2
  {
    hide Run, PrintedAt, LongPairs, Reports, LineAt, LineStart, PrintMembers, BracketsInMembers, StringsInMembers, Closing;
    var inner, closing := PrintMembers(members, d + 1), Closing(|members|, d);
    RecordParts(text, s.i, members, d);
    OverOpening(text, s);
    var entered := Opened(text, s);
    OverMembers(text, entered, members, d + 1, s.stack);
    var top := LastMemberFrame(members);
    var brackets, found := BracketsInMembers(members, d + 1, s.i + 1), StringsInMembers(members, d + 1, s.i + 1, s.stack);
    var filled := Past(text, entered, s.stack + [top], brackets, found, s.i + 1 + |inner|);
    CloseContainer(text, s, entered, filled, top, brackets, found, closing, |members|, d);
  }

  function LastMemberFrame(members: seq<Member>): Frame {
    if members == [] then Frame(Object, None, 0) else MemberFrame(members[|members| - 1].key)
  }

  /** From the end of one member's lead to the beginning of its value. */
  lemma OverMemberKey(text: string, s: State, within: seq<Frame>, key: string)
    requires Located(text, s) && s.stack == within + [Frame(Object, None, 0)]
    requires PrintedAt(text, s.i, Quote(key) + ": ")
    ensures Run(text, s) == Run(text, MoveTo(text, s.(stack := within + [MemberFrame(key)]), s.i + |Quote(key) + ": "|))
  {
    hide Run, LineAt, LineStart;
    PrintedParts(text, s.i, Quote(key), ": ");
    OverKeyString(text, s, within, key);
    var next := MoveTo(text, s.(stack := within + [MemberFrame(key)]), s.i + |Quote(key)|);
    PrintedChar(text, next.i, ": ", 0);
    PrintedChar(text, next.i, ": ", 1);
    OverPlain(text, next, 2);
  }

  lemma CommaClearsKey(within: seq<Frame>, top: Frame)
    requires top.kind.Object?
    ensures AfterComma(within + [top]) == within + [top.(key := None)]
  {
  }

  /** From the end of one member to the beginning of the next one's value. */
  lemma ToMemberValue(text: string, s: State, b: seq<Brackets>, f: seq<Found>, i: nat, n: nat, d: nat,
                      within: seq<Frame>, top: Frame, key: string)
    requires i <= |text| && PrintedAt(text, i, Lead(n, d)) && PrintedAt(text, i + |Lead(n, d)|, Quote(key) + ": ")
    requires if n > 0 then top.kind.Object? && top.index == 0 else top == Frame(Object, None, 0)
    ensures var j := i + |Lead(n, d)| + |Quote(key) + ": "|;
            && j <= |text|
            && Run(text, Past(text, s, within + [top], b, f, i)) == Run(text, Past(text, s, within + [MemberFrame(key)], b, f, j))
            && Located(text, Past(text, s, within + [MemberFrame(key)], b, f, j))
  {
    hide Run, PrintedAt, Lead, Quote, AfterComma, Past, MoveTo, Located;
    var bare, named := within + [Frame(Object, None, 0)], within + [MemberFrame(key)];
    var i2 := i + |Lead(n, d)|;
    var j := i2 + |Quote(key) + ": "|;
    PrintedWithin(text, i, Lead(n, d));
    PrintedWithin(text, i2, Quote(key) + ": ");
    PastMoves(text, s, within + [top], b, f, i, bare, i2);
    if n > 0 {
      CommaClearsKey(within, top);
    }
    OverLead(text, Past(text, s, within + [top], b, f, i), n, d);
    PastMoves(text, s, bare, b, f, i2, named, j);
    OverMemberKey(text, Past(text, s, bare, b, f, i2), within, key);
    PastMoves(text, s, named, b, f, j, named, j);
  }

  lemma NamedIsNoKeyPosition(within: seq<Frame>, key: string)
    ensures !KeyPosition(within + [MemberFrame(key)])
  {
  }

  lemma {:induction false} OverMembers(text: string, s: State, members: seq<Member>, d: nat, within: seq<Frame>)
    requires Located(text, s) && s.stack == within + [Frame(Object, None, 0)]
    requires PrintedAt(text, s.i, PrintMembers(members, d))
    requires forall i | 0 <= i < |members| :: Printable(members[i].value)
    ensures Run(text, s)
         == Run(text, Past(text, s, within + [LastMemberFrame(members)], BracketsInMembers(members, d, s.i), StringsInMembers(members, d, s.i, within), s.i + |PrintMembers(members, d)|))
    decreases members, 0
  {
    hide Run, PrintedAt, Lead, Print, Quote, BracketsIn, StringsIn, Past, MoveTo, Located, KeyPosition, Printable;
    if members == [] {
      PastStays(text, s);
    } else {
      var last := |members| - 1;
      var key, value := members[last].key, members[last].value;
      var before, lead := PrintMembers(members[..last], d), Lead(last, d);
      var named := within + [MemberFrame(key)];
      MemberParts(text, s.i, members, d);
      OverMembers(text, s, members[..last], d, within);
      var b1, f1 := BracketsInMembers(members[..last], d, s.i), StringsInMembers(members[..last], d, s.i, within);
      var i := s.i + |before|;
      var j := i + |lead| + |Quote(key) + ": "|;
      PrintedWithin(text, s.i, before);
      ToMemberValue(text, s, b1, f1, i, last, d, within, LastMemberFrame(members[..last]), key);
      PastMoves(text, s, named, b1, f1, j, named, j);
      NamedIsNoKeyPosition(within, key);
      OverTree(text, Past(text, s, named, b1, f1, j), value, d);
      PrintedWithin(text, j, Print(value, d));
      PastTwice(text, s, named, b1, f1, j, named, BracketsIn(value, d, j), StringsIn(value, d, j, named), j + |Print(value, d)|);
    }
  }

  lemma PastEmpty(text: string, t: Tree, i: nat)
    requires i <= |text|
    ensures var end := Past(text, START, [], BracketsIn(t, 0, 0), StringsIn(t, 0, 0, []), i);
            && end.pairs == LongPairs(text, BracketsIn(t, 0, 0))
            && end.strings == Reports(text, StringsIn(t, 0, 0, []))
  {
    hide LongPairs, BracketsIn, StringsIn, Reports, LineAt, LineStart;
    assert START.pairs + LongPairs(text, BracketsIn(t, 0, 0)) == LongPairs(text, BracketsIn(t, 0, 0));
    assert START.strings + Reports(text, StringsIn(t, 0, 0, [])) == Reports(text, StringsIn(t, 0, 0, []));
  }

  /** Scan after print: for every tree, the scanner reports exactly its string values, in document
      order, each with its path and the span of its literal, and exactly its bracket pairs that
      span more than one line. */
  lemma ScanAfterPrint(t: Tree)
    requires Printable(t)
    ensures Scan(Document(t)).strings == Reports(Document(t), StringsIn(t, 0, 0, []))
    ensures Scan(Document(t)).pairs == LongPairs(Document(t), BracketsIn(t, 0, 0))
  {
    hide Run, LineAt, LineStart, Print, BracketsIn, StringsIn, LongPairs;
    var text, n := Document(t), |Print(t, 0)|;
    assert text[0..n] == Print(t, 0);
    StartLocated(text);
    OverTree(text, START, t, 0);
    var end := Past(text, START, [], BracketsIn(t, 0, 0), StringsIn(t, 0, 0, []), n);
    OverNewline(text, end);
    RunEnd(text, MoveTo(text, end, n + 1));
    PastEmpty(text, t, n);
  }

  lemma StartLocated(text: string)
    ensures Located(text, START)
  {
  }
}
