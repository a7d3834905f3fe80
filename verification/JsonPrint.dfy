/** How the editor prints a config: `JSON.stringify(config, null, 2) + "\n"`
    (`src/components/config-json-editor.tsx`), with strings escaped as in section 7 of RFC 8259. */
module JsonPrint {
  import opened Wrappers
  import opened JsonStructure
  import Text

  /** A document tree in print order. An atom is the text of a number, `true`, `false` or `null`. */
  datatype Tree =
    | Atom(text: string)
    | Quoted(s: string)
    | List(items: seq<Tree>)
    | Record(members: seq<Member>)

  datatype Member = Member(key: string, value: Tree)

  /** A character the scanner steps over without doing anything. */
  predicate Plain(c: char) {
    c !in ['\n', '{', '[', '}', ']', ',', '"']
  }

  predicate AllPlain(s: string) {
    forall i | 0 <= i < |s| :: Plain(s[i])
  }

  predicate Printable(t: Tree) {
    match t
    case Atom(text) => AllPlain(text)
    case Quoted(_) => true
    case List(items) => forall i | 0 <= i < |items| :: Printable(items[i])
    case Record(members) => forall i | 0 <= i < |members| :: Printable(members[i].value)
  }

  function HexDigit(n: nat): char
    requires n < 16
  {
    if n < 10 then '0' + n as char else 'a' + (n - 10) as char
  }

  function EscapeChar(c: char): (e: string)
    ensures e != []
  {
    if c == '"' then "\\\""
    else if c == '\\' then "\\\\"
    else if c == '\U{08}' then "\\b"
    else if c == '\U{0C}' then "\\f"
    else if c == '\n' then "\\n"
    else if c == '\r' then "\\r"
    else if c == '\t' then "\\t"
    else if c < ' ' then "\\u00" + [HexDigit(c as int / 16), HexDigit(c as int % 16)]
    else [c]
  }

  function Escape(s: string): string {
    if s == [] then [] else EscapeChar(s[0]) + Escape(s[1..])
  }

  function Quote(s: string): string { "\"" + Escape(s) + "\"" }

  function Spaces(n: nat): (s: string)
    ensures |s| == n && forall i | 0 <= i < n :: s[i] == ' '
  {
    seq(n, _ => ' ')
  }

  /** What stands before the child number `n` of a container. */
  function Lead(n: nat, d: nat): string {
    (if n > 0 then "," else "") + "\n" + Spaces(2 * d)
  }

  function Closing(count: nat, d: nat): string {
    if count == 0 then "" else "\n" + Spaces(2 * d)
  }

  /** The text of a tree at nesting depth `d`. */
  function Print(t: Tree, d: nat): string
    decreases t, 1
  {
    match t
    case Atom(text) => text
    case Quoted(s) => Quote(s)
    case List(items) => "[" + PrintItems(items, d + 1) + Closing(|items|, d) + "]"
    case Record(members) => "{" + PrintMembers(members, d + 1) + Closing(|members|, d) + "}"
  }

  function PrintItems(items: seq<Tree>, d: nat): string
    decreases items, 0
  {
    if items == [] then ""
    else
      var last := |items| - 1;
      PrintItems(items[..last], d) + Lead(last, d) + Print(items[last], d)
  }

  function PrintMembers(members: seq<Member>, d: nat): string
    decreases members, 0
  {
    if members == [] then ""
    else
      var last := |members| - 1;
      PrintMembers(members[..last], d) + Lead(last, d) + Quote(members[last].key) + ": " + Print(members[last].value, d)
  }

  function Document(t: Tree): string { Print(t, 0) + "\n" }

  // What is in a printed document, by offset

  /** A string value: the containers it is in, where its literal begins, and the string. */
  datatype Found = Found(within: seq<Frame>, offset: nat, s: string)

  /** A bracket pair, by the offsets of its two brackets. */
  datatype Brackets = Brackets(open: nat, close: nat)

  function ItemFrame(n: nat): Frame { Frame(Array, None, n) }

  /** Keys appear in paths in their escaped form. */
  function MemberFrame(key: string): Frame { Frame(Object, Some(Escape(key)), 0) }

  /** The string values of a tree in document order; `offset` is where the tree is printed. */
  function StringsIn(t: Tree, d: nat, offset: nat, within: seq<Frame>): seq<Found>
    decreases t, 1
  {
    match t
    case Atom(_) => []
    case Quoted(s) => [Found(within, offset, s)]
    case List(items) => StringsInItems(items, d + 1, offset + 1, within)
    case Record(members) => StringsInMembers(members, d + 1, offset + 1, within)
  }

  function StringsInItems(items: seq<Tree>, d: nat, offset: nat, within: seq<Frame>): seq<Found>
    decreases items, 0
  {
    if items == [] then []
    else
      var last := |items| - 1;
      var before := PrintItems(items[..last], d) + Lead(last, d);
      StringsInItems(items[..last], d, offset, within)
      + StringsIn(items[last], d, offset + |before|, within + [ItemFrame(last)])
  }

  function StringsInMembers(members: seq<Member>, d: nat, offset: nat, within: seq<Frame>): seq<Found>
    decreases members, 0
  {
    if members == [] then []
    else
      var last := |members| - 1;
      var before := PrintMembers(members[..last], d) + Lead(last, d) + Quote(members[last].key) + ": ";
      StringsInMembers(members[..last], d, offset, within)
      + StringsIn(members[last].value, d, offset + |before|, within + [MemberFrame(members[last].key)])
  }

  /** The bracket pairs of a tree, inner ones first. */
  function BracketsIn(t: Tree, d: nat, offset: nat): seq<Brackets>
    decreases t, 1
  {
    match t
    case Atom(_) => []
    case Quoted(_) => []
    case List(items) =>
      BracketsInItems(items, d + 1, offset + 1)
      + [Brackets(offset, offset + 1 + |PrintItems(items, d + 1)| + |Closing(|items|, d)|)]
    case Record(members) =>
      BracketsInMembers(members, d + 1, offset + 1)
      + [Brackets(offset, offset + 1 + |PrintMembers(members, d + 1)| + |Closing(|members|, d)|)]
  }

  function BracketsInItems(items: seq<Tree>, d: nat, offset: nat): seq<Brackets>
    decreases items, 0
  {
    if items == [] then []
    else
      var last := |items| - 1;
      var before := PrintItems(items[..last], d) + Lead(last, d);
      BracketsInItems(items[..last], d, offset) + BracketsIn(items[last], d, offset + |before|)
  }

  function BracketsInMembers(members: seq<Member>, d: nat, offset: nat): seq<Brackets>
    decreases members, 0
  {
    if members == [] then []
    else
      var last := |members| - 1;
      var before := PrintMembers(members[..last], d) + Lead(last, d) + Quote(members[last].key) + ": ";
      BracketsInMembers(members[..last], d, offset) + BracketsIn(members[last].value, d, offset + |before|)
  }

  // Lines and columns

  /** The 1-based line of the character at an offset. */
  function LineAt(text: string, offset: nat): (line: nat)
    ensures line >= 1
  {
    if offset == 0 then 1
    else LineAt(text, offset - 1) + (if offset <= |text| && text[offset - 1] == '\n' then 1 else 0)
  }

  /** Where the line of an offset begins. */
  function LineStart(text: string, offset: nat): (start: nat)
    ensures start <= offset
  {
    if offset == 0 then 0
    else if offset <= |text| && text[offset - 1] == '\n' then offset
    else LineStart(text, offset - 1)
  }

  function ColumnAt(text: string, offset: nat): nat {
    offset - LineStart(text, offset) + 1
  }

  lemma {:induction false} LineStaysOn(text: string, a: nat, b: nat)
    requires a <= b <= |text|
    requires forall k | a <= k < b :: text[k] != '\n'
    ensures LineAt(text, b) == LineAt(text, a) && LineStart(text, b) == LineStart(text, a)
  {
    if a < b { LineStaysOn(text, a, b - 1); }
  }

  /** `piece` is printed at `offset`. */
  predicate PrintedAt(text: string, offset: nat, piece: string) {
    offset + |piece| <= |text| && text[offset..offset + |piece|] == piece
  }

  lemma PrintedParts(text: string, offset: nat, a: string, b: string)
    requires PrintedAt(text, offset, a + b)
    ensures PrintedAt(text, offset, a) && PrintedAt(text, offset + |a|, b)
  {
    var whole := text[offset..offset + |a + b|];
    assert whole[..|a|] == a && whole[|a|..] == b;
    assert text[offset..offset + |a|] == whole[..|a|];
    assert text[offset + |a|..offset + |a| + |b|] == whole[|a|..];
  }

  lemma PrintedChar(text: string, offset: nat, piece: string, k: nat)
    requires PrintedAt(text, offset, piece) && k < |piece|
    ensures text[offset + k] == piece[k]
  {
    assert text[offset..offset + |piece|][k] == text[offset + k];
  }
}
