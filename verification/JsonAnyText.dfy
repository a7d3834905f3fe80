/** What the scanner reports on any text at all, finished or not, said character by character
    (`src/lib/json-structure.ts`, lines 80-157): one automaton tells what is inside a literal, and
    everything else is counted from the characters outside. The scanner, which jumps over literals
    and keeps stacks, is proved to report exactly that. */
module JsonAnyText {
  import opened Wrappers
  import opened JsonStructure
  import P = JsonPrint

  // Inside and outside

  /** What the characters before some point leave open. */
  datatype Mode = Outside | Inside | Taken

  function ModeAt(text: string, k: nat): Mode
    requires k <= |text|
    decreases k, 0
  {
    if k == 0 then Outside
    else if Out(text, k - 1) then (if text[k - 1] == '"' then Inside else Outside)
    else if ModeAt(text, k - 1).Taken? then Inside
    else if text[k - 1] == '\\' then Taken
    else if text[k - 1] == '"' then Outside
    else Inside
  }

  /** The character is outside every literal, as a line feed that no backslash takes always is. */
  predicate Out(text: string, k: nat)
    requires k < |text|
    decreases k, 1
  {
    ModeAt(text, k).Outside? || (ModeAt(text, k).Inside? && text[k] == '\n')
  }

  predicate Is(text: string, k: nat, c: char)
    requires k < |text|
  {
    Out(text, k) && text[k] == c
  }

  predicate Opens(text: string, k: nat) requires k < |text| { Is(text, k, '{') || Is(text, k, '[') }

  predicate Closes(text: string, k: nat) requires k < |text| { Is(text, k, '}') || Is(text, k, ']') }

  // Lines and brackets, counted

  function LineAt(text: string, k: nat): nat
    requires k <= |text|
  {
    if k == 0 then 1 else LineAt(text, k - 1) + (if Is(text, k - 1, '\n') then 1 else 0)
  }

  function LineStartAt(text: string, k: nat): (start: nat)
    requires k <= |text|
    ensures start <= k
  {
    if k == 0 then 0 else if Is(text, k - 1, '\n') then k else LineStartAt(text, k - 1)
  }

  function ColumnAt(text: string, k: nat): nat
    requires k <= |text|
  {
    k - LineStartAt(text, k) + 1
  }

  /** How many brackets are open; one that closes nothing is passed over, and kinds are not compared. */
  function DepthAt(text: string, k: nat): nat
    requires k <= |text|
  {
    if k == 0 then 0
    else
      var before := DepthAt(text, k - 1);
      if Opens(text, k - 1) then before + 1 else if Closes(text, k - 1) && before > 0 then before - 1 else before
  }

  /** The latest bracket opened at this depth: while the depth is more than `d`, the one still open. */
  function OpenerAt(text: string, k: nat, d: nat): (j: nat)
    requires k <= |text|
    ensures j <= k
  {
    if k == 0 then 0
    else if Opens(text, k - 1) && DepthAt(text, k - 1) == d then k - 1
    else OpenerAt(text, k - 1, d)
  }

  /** It is the bracket with nothing but deeper text since. */
  lemma {:induction false} OpenerIsOpen(text: string, k: nat, d: nat)
    requires k <= |text| && d < DepthAt(text, k)
    ensures var j := OpenerAt(text, k, d);
            && j < k && Opens(text, j) && DepthAt(text, j) == d
            && forall m | j < m <= k :: DepthAt(text, m) > d
  {
    if !(Opens(text, k - 1) && DepthAt(text, k - 1) == d) {
      OpenerIsOpen(text, k - 1, d);
    }
  }

  /** Commas directly in that bracket since it was opened. */
  function CommasAt(text: string, k: nat, d: nat): nat
    requires k <= |text|
  {
    if k == 0 || (Opens(text, k - 1) && DepthAt(text, k - 1) == d) then 0
    else CommasAt(text, k - 1, d) + (if Is(text, k - 1, ',') && DepthAt(text, k - 1) == d + 1 then 1 else 0)
  }

  /** The literal that opens at `k`: where it ends, whether a quote closed it, and its text. */
  function NextOut(text: string, k: nat): (end: nat)
    requires k <= |text|
    ensures k <= end <= |text|
    decreases |text| - k
  {
    if k == |text| || Out(text, k) then k else NextOut(text, k + 1)
  }

  function Literal(text: string, k: nat): string
    requires k < |text|
  {
    var end := NextOut(text, k + 1);
    text[k + 1..if k + 1 < end && ModeAt(text, end - 1).Inside? && text[end - 1] == '"' then end - 1 else end]
  }

  /** The first literal directly in that bracket since it was opened or since its latest comma. */
  function KeyAt(text: string, k: nat, d: nat): Option<string>
    requires k <= |text|
  {
    if k == 0 || (Opens(text, k - 1) && DepthAt(text, k - 1) == d) then None
    else if Is(text, k - 1, ',') && DepthAt(text, k - 1) == d + 1 then None
    else
      var before := KeyAt(text, k - 1, d);
      if before.None? && Is(text, k - 1, '"') && DepthAt(text, k - 1) == d + 1 then Some(Literal(text, k - 1)) else before
  }

  // What there is to report

  function FrameAt(text: string, k: nat, d: nat): Frame
    requires k <= |text| && d < DepthAt(text, k)
  {
    OpenerIsOpen(text, k, d);
    if text[OpenerAt(text, k, d)] == '[' then Frame(Array, None, CommasAt(text, k, d)) else Frame(Object, KeyAt(text, k, d), 0)
  }

  function FramesAt(text: string, k: nat): seq<Frame>
    requires k <= |text|
  {
    seq(DepthAt(text, k), d requires 0 <= d < DepthAt(text, k) => FrameAt(text, k, d))
  }

  /** The literal that opens here names a member: it is directly in an object that has no key yet. */
  predicate NamesMember(text: string, k: nat)
    requires k < |text|
  {
    DepthAt(text, k) > 0 && FrameAt(text, k, DepthAt(text, k) - 1) == Frame(Object, None, 0)
  }

  /** The literals before `k` that name no member, each with its path, line and columns. */
  function StringsBefore(text: string, k: nat): seq<StringValue>
    requires k <= |text|
  {
    if k == 0 then []
    else
      StringsBefore(text, k - 1)
      + if Is(text, k - 1, '"') && !NamesMember(text, k - 1) then
          var end := NextOut(text, k);
          [StringValue(PathOf(FramesAt(text, k - 1)), LineAt(text, k - 1), ColumnAt(text, k - 1), end - LineStartAt(text, k - 1) + 1)]
        else []
  }

  /** The brackets closed before `k` on a later line than they were opened on. */
  function PairsBefore(text: string, k: nat): seq<BracketPair>
    requires k <= |text|
  {
    if k == 0 then []
    else
      PairsBefore(text, k - 1)
      + if Closes(text, k - 1) && DepthAt(text, k - 1) > 0 then
          var from := LineAt(text, OpenerAt(text, k - 1, DepthAt(text, k - 1) - 1));
          if LineAt(text, k - 1) > from then [BracketPair(from, LineAt(text, k - 1))] else []
        else []
  }

  // Nothing is counted inside a literal

  ghost predicate SameCounts(text: string, a: nat, b: nat)
    requires a <= |text| && b <= |text|
  {
    && LineAt(text, b) == LineAt(text, a) && LineStartAt(text, b) == LineStartAt(text, a) && DepthAt(text, b) == DepthAt(text, a)
    && (forall d: nat :: OpenerAt(text, b, d) == OpenerAt(text, a, d) && CommasAt(text, b, d) == CommasAt(text, a, d)
                         && KeyAt(text, b, d) == KeyAt(text, a, d))
    && StringsBefore(text, b) == StringsBefore(text, a) && PairsBefore(text, b) == PairsBefore(text, a)
  }

  lemma QuietStep(text: string, k: nat)
    requires k < |text| && !Out(text, k)
    ensures SameCounts(text, k, k + 1)
  {
    assert StringsBefore(text, k) + [] == StringsBefore(text, k);
    assert PairsBefore(text, k) + [] == PairsBefore(text, k);
  }

  lemma {:induction false} Quiet(text: string, a: nat, b: nat)
    requires a <= b <= |text| && forall m | a <= m < b :: !Out(text, m)
    ensures SameCounts(text, a, b)
  {
    if a < b {
      Quiet(text, a, b - 1);
      QuietStep(text, b - 1);
    }
  }

  /** The scanner's jump over a literal ends where the automaton leaves it. */
  lemma {:induction false} StringEndIsNextOut(text: string, i: nat)
    requires i <= |text| && ModeAt(text, i).Inside?
    ensures var (end, closed) := StringEnd(text, i);
            && end == NextOut(text, i) && (forall m | i <= m < end :: !Out(text, m))
            && (closed <==> i < end && ModeAt(text, end - 1).Inside? && text[end - 1] == '"')
    decreases |text| - i
  {
    if i < |text| && text[i] != '\n' {
      if text[i] == '\\' {
        assert ModeAt(text, i + 1) == Taken;
        if i + 1 < |text| {
          assert !Out(text, i + 1) && ModeAt(text, i + 2) == Inside;
          StringEndIsNextOut(text, i + 2);
        }
      } else if text[i] == '"' {
        assert ModeAt(text, i + 1) == Outside;
        assert NextOut(text, i + 1) == i + 1;
      } else {
        StringEndIsNextOut(text, i + 1);
      }
    }
  }

  // The scanner's state, wherever it stops

  function OpenLinesAt(text: string, k: nat): seq<nat>
    requires k <= |text|
  {
    seq(DepthAt(text, k), d requires 0 <= d < DepthAt(text, k) => LineAt(text, OpenerAt(text, k, d)))
  }

  function Reached(text: string, k: nat): (s: State)
    requires k <= |text|
    ensures s.i == k && s.lineStart <= k
  {
    State(k, LineAt(text, k), LineStartAt(text, k), FramesAt(text, k), OpenLinesAt(text, k), PairsBefore(text, k), StringsBefore(text, k))
  }

  /** The brackets open below the top one are not touched by the character. */
  lemma LowerFrames(text: string, k: nat, d: nat)
    requires k < |text| && Out(text, k) && d < DepthAt(text, k) && d < DepthAt(text, k + 1)
    requires d + 1 < DepthAt(text, k) || (text[k] != ',' && text[k] != '"')
    ensures FrameAt(text, k + 1, d) == FrameAt(text, k, d)
    ensures LineAt(text, OpenerAt(text, k + 1, d)) == LineAt(text, OpenerAt(text, k, d))
  {
    hide LineAt, NextOut, Literal, Out, ModeAt;
  }

  lemma StepBracket(text: string, k: nat)
    requires k < |text| && (Opens(text, k) || Closes(text, k))
    ensures Step(text, Reached(text, k)) == Reached(text, k + 1)
  {
    var s, next := Reached(text, k), Reached(text, k + 1);
    forall d: nat | d < DepthAt(text, k) && d < DepthAt(text, k + 1)
      ensures FrameAt(text, k + 1, d) == FrameAt(text, k, d)
      ensures LineAt(text, OpenerAt(text, k + 1, d)) == LineAt(text, OpenerAt(text, k, d))
    {
      LowerFrames(text, k, d);
    }
    hide FrameAt, StringEnd, Out, ModeAt, NextOut, Literal, PathOf;
    assert next.strings == s.strings + [] == s.strings;
    if Opens(text, k) {
      FrameOpened(text, k);
      assert next.stack == s.stack + [Frame(if text[k] == '{' then Object else Array, None, 0)];
      assert next.openLines == s.openLines + [s.line];
    } else {
      assert next.stack == Pop(s.stack);
      assert next.openLines == Pop(s.openLines);
      assert s.pairs + [] == s.pairs;
    }
  }

  lemma FrameOpened(text: string, k: nat)
    requires k < |text| && Opens(text, k)
    ensures DepthAt(text, k + 1) == DepthAt(text, k) + 1 && OpenerAt(text, k + 1, DepthAt(text, k)) == k
    ensures FrameAt(text, k + 1, DepthAt(text, k)) == Frame(if text[k] == '{' then Object else Array, None, 0)
  {
  }

  lemma StepPlain(text: string, k: nat)
    requires k < |text| && Out(text, k) && !Opens(text, k) && !Closes(text, k) && text[k] != ',' && text[k] != '"'
    ensures Step(text, Reached(text, k)) == Reached(text, k + 1)
  {
    var s, next := Reached(text, k), Reached(text, k + 1);
    forall d: nat | d < DepthAt(text, k)
      ensures FrameAt(text, k + 1, d) == FrameAt(text, k, d)
      ensures LineAt(text, OpenerAt(text, k + 1, d)) == LineAt(text, OpenerAt(text, k, d))
    {
      LowerFrames(text, k, d);
    }
    hide FrameAt, StringEnd, ModeAt, NextOut, Literal, PathOf;
    assert next.strings == s.strings + [] == s.strings;
    assert next.pairs == s.pairs + [] == s.pairs;
    assert next.stack == s.stack;
    assert next.openLines == s.openLines;
  }

  lemma StepComma(text: string, k: nat)
    requires k < |text| && Is(text, k, ',')
    ensures Step(text, Reached(text, k)) == Reached(text, k + 1)
  {
    var s, next := Reached(text, k), Reached(text, k + 1);
    forall d: nat | d + 1 < DepthAt(text, k)
      ensures FrameAt(text, k + 1, d) == FrameAt(text, k, d)
    {
      LowerFrames(text, k, d);
    }
    if DepthAt(text, k) > 0 { FrameAfterComma(text, k); }
    hide FrameAt, StringEnd, ModeAt, NextOut, Literal, PathOf;
    assert next.strings == s.strings + [] == s.strings;
    assert next.pairs == s.pairs + [] == s.pairs;
    assert next.stack == AfterComma(s.stack);
    assert next.openLines == s.openLines;
  }

  lemma FrameAfterComma(text: string, k: nat)
    requires k < |text| && Is(text, k, ',') && DepthAt(text, k) > 0
    ensures DepthAt(text, k + 1) == DepthAt(text, k)
    ensures var d := DepthAt(text, k) - 1;
            var top := FrameAt(text, k, d);
            FrameAt(text, k + 1, d) == if top.kind.Array? then top.(index := top.index + 1) else top.(key := None)
  {
  }

  // A literal, jumped over

  lemma StepAtQuote(text: string, s: State, end: nat, key: string)
    requires s.i < |text| && s.lineStart <= s.i && text[s.i] == '"' && end == StringEnd(text, s.i + 1).0
    requires key == text[s.i + 1..if StringEnd(text, s.i + 1).1 then end - 1 else end]
    ensures Step(text, s)
         == if KeyPosition(s.stack) then s.(i := end, stack := SetTop(s.stack, s.stack[|s.stack| - 1].(key := Some(key))))
            else s.(i := end, strings := s.strings + [StringValue(PathOf(s.stack), s.line, s.Column(), end - s.lineStart + 1)])
  {
    hide StringEnd, PathOf;
  }

  lemma LiteralIsJumped(text: string, k: nat)
    requires k < |text| && Is(text, k, '"')
    ensures var (end, closed) := StringEnd(text, k + 1);
            && end == NextOut(text, k + 1) && Literal(text, k) == text[k + 1..if closed then end - 1 else end]
            && forall m | k + 1 <= m < end :: !Out(text, m)
  {
    StringEndIsNextOut(text, k + 1);
    hide StringEnd, NextOut;
  }

  /** The state after the quote, with the whole literal already in it. */
  lemma QuoteReached(text: string, k: nat)
    requires k < |text| && Is(text, k, '"')
    ensures var s, end := Reached(text, k), NextOut(text, k + 1);
            Reached(text, k + 1)
              == if KeyPosition(s.stack) then s.(i := k + 1, stack := SetTop(s.stack, s.stack[|s.stack| - 1].(key := Some(Literal(text, k)))))
                 else s.(i := k + 1, strings := s.strings + [StringValue(PathOf(s.stack), s.line, s.Column(), end - s.lineStart + 1)])
  {
    LiteralFrames(text, k);
    LiteralCounts(text, k);
    hide PathOf, LineAt, LineStartAt, DepthAt, StringsBefore, PairsBefore, FramesAt, OpenLinesAt, SetTop, Is, NextOut, Literal, KeyPosition;
    assert StringsBefore(text, k) + [] == StringsBefore(text, k);
  }

  lemma QuoteThere(text: string, k: nat)
    requires k < |text| && Is(text, k, '"')
    ensures text[k] == '"'
  {
  }

  lemma StepLiteral(text: string, k: nat)
    requires k < |text| && Is(text, k, '"')
    ensures Step(text, Reached(text, k)) == Reached(text, NextOut(text, k + 1))
  {
    hide *;
    var end := NextOut(text, k + 1);
    QuoteThere(text, k);
    LiteralIsJumped(text, k);
    Quiet(text, k + 1, end);
    SameReached(text, k + 1, end);
    QuoteReached(text, k);
    StepAtQuote(text, Reached(text, k), end, Literal(text, k));
  }

  /** Where the counts are the same, so is the state but for the position. */
  lemma SameReached(text: string, a: nat, b: nat)
    requires a <= |text| && b <= |text| && SameCounts(text, a, b)
    ensures Reached(text, b) == Reached(text, a).(i := b)
  {
    hide LineAt, DepthAt, OpenerAt, CommasAt, KeyAt, StringsBefore, PairsBefore, LineStartAt;
    assert FramesAt(text, b) == FramesAt(text, a);
    assert OpenLinesAt(text, b) == OpenLinesAt(text, a);
  }

  lemma LiteralCounts(text: string, k: nat)
    requires k < |text| && Is(text, k, '"')
    ensures LineAt(text, k + 1) == LineAt(text, k) && LineStartAt(text, k + 1) == LineStartAt(text, k)
    ensures OpenLinesAt(text, k + 1) == OpenLinesAt(text, k) && PairsBefore(text, k + 1) == PairsBefore(text, k)
    ensures var end := NextOut(text, k + 1);
            var found := StringValue(PathOf(FramesAt(text, k)), LineAt(text, k), ColumnAt(text, k), end - LineStartAt(text, k) + 1);
            StringsBefore(text, k + 1) == StringsBefore(text, k) + (if KeyPosition(FramesAt(text, k)) then [] else [found])
  {
    hide PathOf, NextOut, ModeAt, Literal, KeyAt, CommasAt;
    assert PairsBefore(text, k) + [] == PairsBefore(text, k);
    assert StringsBefore(text, k) + [] == StringsBefore(text, k);
    assert OpenLinesAt(text, k + 1) == OpenLinesAt(text, k);
  }

  /** Only the top bracket learns of it: an object without a key gets one. */
  lemma LiteralFrames(text: string, k: nat)
    requires k < |text| && Is(text, k, '"')
    ensures var frames := FramesAt(text, k);
            FramesAt(text, k + 1)
              == if KeyPosition(frames) then SetTop(frames, frames[|frames| - 1].(key := Some(Literal(text, k)))) else frames
  {
    var frames, next := FramesAt(text, k), FramesAt(text, k + 1);
    forall d: nat | d + 1 < DepthAt(text, k) ensures FrameAt(text, k + 1, d) == FrameAt(text, k, d) {
      LowerFrames(text, k, d);
    }
    if DepthAt(text, k) > 0 { FrameAfterLiteral(text, k); }
    hide FrameAt, NextOut, Literal, ModeAt;
    assert next == if KeyPosition(frames) then SetTop(frames, frames[|frames| - 1].(key := Some(Literal(text, k)))) else frames;
  }

  lemma FrameAfterLiteral(text: string, k: nat)
    requires k < |text| && Is(text, k, '"') && DepthAt(text, k) > 0
    ensures DepthAt(text, k + 1) == DepthAt(text, k)
    ensures var d := DepthAt(text, k) - 1;
            var top := FrameAt(text, k, d);
            FrameAt(text, k + 1, d) == if top.kind.Object? && top.key.None? then top.(key := Some(Literal(text, k))) else top
  {
    hide NextOut, Literal;
  }

  // The whole text

  lemma {:induction false} RunReports(text: string, k: nat)
    requires k <= |text| && (k < |text| ==> Out(text, k))
    ensures Run(text, Reached(text, k)) == Reached(text, |text|)
    decreases |text| - k
  {
    hide Reached, Step, Out, Is, Opens, Closes;
    if k < |text| {
      RunStep(text, Reached(text, k));
      var next := StepReaches(text, k);
      RunReports(text, next);
    }
  }

  lemma StepReaches(text: string, k: nat) returns (next: nat)
    requires k < |text| && Out(text, k)
    ensures k < next <= |text| && (next < |text| ==> Out(text, next))
    ensures Step(text, Reached(text, k)) == Reached(text, next)
  {
    hide Reached, Step;
    if text[k] == '"' {
      next := NextOut(text, k + 1);
      NextOutIsOut(text, k + 1);
      StepLiteral(text, k);
    } else {
      next := k + 1;
      assert ModeAt(text, k + 1) == Outside;
      if Opens(text, k) || Closes(text, k) {
        StepBracket(text, k);
      } else if text[k] == ',' {
        StepComma(text, k);
      } else {
        StepPlain(text, k);
      }
    }
  }

  lemma {:induction false} NextOutIsOut(text: string, k: nat)
    requires k <= |text|
    ensures NextOut(text, k) < |text| ==> Out(text, NextOut(text, k))
    decreases |text| - k
  {
    if k < |text| && !Out(text, k) {
      NextOutIsOut(text, k + 1);
    }
  }

  /** On any text at all the scanner reports exactly the literals outside key position, with their
      paths and places, and exactly the brackets that span two lines or more. */
  lemma ScanReportsExactly(text: string)
    ensures Scan(text) == Structure(PairsBefore(text, |text|), StringsBefore(text, |text|))
  {
    assert Reached(text, 0) == START;
    hide Run;
    RunReports(text, 0);
  }

  // What a missing quote can hide

  /** Every line after a line feed that no backslash stands before is scanned as it would be by itself:
      a literal left open ends on its own line. */
  lemma {:induction false} LaterLines(above: string, below: string, k: nat)
    requires (above == "" || above[|above| - 1] != '\\') && k <= |below|
    ensures ModeAt(above + "\n" + below, |above| + 1 + k) == ModeAt(below, k)
    ensures k < |below| ==> (Out(above + "\n" + below, |above| + 1 + k) <==> Out(below, k))
  {
    var text := above + "\n" + below;
    if k == 0 {
      assert text[|above|] == '\n';
      if above != "" { assert text[|above| - 1] == above[|above| - 1]; }
      assert !ModeAt(text, |above|).Taken?;
    } else {
      LaterLines(above, below, k - 1);
      assert text[|above| + k] == below[k - 1];
    }
    if k < |below| { assert text[|above| + 1 + k] == below[k]; }
  }

  /** The line counted for a position is the line an editor shows it on exactly when no backslash inside
      a literal takes a line feed before it; otherwise it is too small. */
  lemma {:induction false} LineIsTheEditorsIff(text: string, k: nat)
    requires k <= |text|
    ensures LineAt(text, k) <= P.LineAt(text, k)
    ensures LineAt(text, k) == P.LineAt(text, k) <==> forall m | 0 <= m < k && text[m] == '\n' :: !ModeAt(text, m).Taken?
  {
    if k > 0 {
      LineIsTheEditorsIff(text, k - 1);
    }
  }
}
