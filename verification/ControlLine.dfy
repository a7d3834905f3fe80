/** The request line of the control socket (`src-tauri/src/single_instance.rs`). */
module ControlLine {
  import opened Wrappers
  import opened Text

  datatype Command =
    | Focus
    | Quit
    | Stats
    | Ping
    | Reload
    | Logs
    | Session
    | SetSession(sessionId: string, otp: string)

  datatype Request = Known(command: Command) | Unknown

  function Wire(command: Command): string {
    match command
    case Focus => "FOCUS"
    case Quit => "QUIT"
    case Stats => "STATS"
    case Ping => "PING"
    case Reload => "RELOAD"
    case Logs => "LOGS"
    case Session => "SESSION"
    case SetSession(sessionId, otp) => "SESSION " + sessionId + " " + otp
  }

  /** What the client writes to the socket. */
  function RequestLine(token: string, command: Command): string {
    token + " " + Wire(command) + "\n"
  }

  function Words(s: string): (string, string) {
    match SplitOnce(s, ' ') case Some(p) => p case None => (s, "")
  }

  function ParseSession(args: string): Command {
    if args == "" then Session
    else
      match SplitOnce(args, ' ')
      case Some(p) => SetSession(Trim(p.0), Trim(p.1))
      case None => SetSession(args, "")
  }

  /** `parse_request`. Nothing is answered to a line that does not begin with the token. */
  function ParseRequest(line: string, token: string): Option<Request> {
    var (presented, tail) := Words(Trim(line));
    if presented != token then None
    else
      var (verb, args) := Words(Trim(tail));
      Some(
        if verb == "FOCUS" then Known(Focus)
        else if verb == "QUIT" then Known(Quit)
        else if verb == "STATS" then Known(Stats)
        else if verb == "PING" then Known(Ping)
        else if verb == "RELOAD" then Known(Reload)
        else if verb == "LOGS" then Known(Logs)
        else if verb == "SESSION" then Known(ParseSession(Trim(args)))
        else Unknown)
  }

  datatype Refusal = Missing | TooLong | BadCharacter

  predicate CredentialChar(c: char) {
    'a' <= c <= 'z' || 'A' <= c <= 'Z' || '0' <= c <= '9' || c == '-' || c == '_'
  }

  predicate CredentialChars(s: string) {
    forall i | 0 <= i < |s| :: CredentialChar(s[i])
  }

  /** `validate_credentials`. */
  function ValidateCredentials(sessionId: string, otp: string): Result<(), Refusal> {
    if sessionId == "" || otp == "" then Err(Missing)
    else if |sessionId| > 64 || |otp| > 64 then Err(TooLong)
    else if !CredentialChars(sessionId) || !CredentialChars(otp) then Err(BadCharacter)
    else Ok(())
  }

  predicate ValidCommand(command: Command) {
    command.SetSession? ==> ValidateCredentials(command.sessionId, command.otp).Ok?
  }

  predicate NoWhitespace(s: string) {
    forall i | 0 <= i < |s| :: !IsWhitespace(s[i])
  }

  lemma TrimNothing(s: string)
    requires Trimmed(s)
    ensures Trim(s) == s
  {
    assert s == [] + s + [];
    TrimIs(s, [], s, []);
  }

  lemma TrimBlankEnd(core: string, after: string)
    requires Trimmed(core) && Blank(after)
    ensures Trim(core + after) == core
  {
    assert core + after == [] + core + after;
    TrimIs(core + after, [], core, after);
  }

  lemma WordsAt(head: string, tail: string)
    requires ' ' !in head
    ensures Words(head + " " + tail) == (head, tail)
  {
    SplitOnceAt(head, ' ', tail);
  }

  /** A line is the token, a space, and a body, with blanks after it. */
  lemma TokenAndBody(token: string, body: string, after: string)
    requires token != "" && NoWhitespace(token) && body != "" && Trimmed(body) && Blank(after)
    ensures Words(Trim(token + " " + body + after)) == (token, body) && Trim(body) == body
  {
    var core := token + " " + body;
    assert core[0] == token[0] && core[|core| - 1] == body[|body| - 1];
    TrimBlankEnd(core, after);
    WordsAt(token, body);
    TrimNothing(body);
  }

  lemma CredentialsHaveNoBlanks(s: string)
    requires CredentialChars(s)
    ensures NoWhitespace(s) && ' ' !in s && Trimmed(s)
  {
    assert forall c | CredentialChar(c) :: !IsWhitespace(c);
  }

  lemma SessionArgs(sessionId: string, otp: string) returns (args: string)
    requires sessionId != "" && otp != "" && CredentialChars(sessionId) && CredentialChars(otp)
    ensures args == sessionId + " " + otp && Trimmed(args)
    ensures ParseSession(args) == SetSession(sessionId, otp)
  {
    hide IsWhitespace, Trim, SplitOnce, CredentialChars;
    args := sessionId + " " + otp;
    CredentialsHaveNoBlanks(sessionId);
    CredentialsHaveNoBlanks(otp);
    assert args[0] == sessionId[0] && args[|args| - 1] == otp[|otp| - 1];
    SplitOnceAt(sessionId, ' ', otp);
    TrimNothing(sessionId);
    TrimNothing(otp);
  }

  lemma IdAlone(sessionId: string)
    requires sessionId != "" && CredentialChars(sessionId)
    ensures Trimmed(sessionId) && ParseSession(sessionId) == SetSession(sessionId, "")
  {
    hide IsWhitespace, Trim, SplitOnce, CredentialChars;
    CredentialsHaveNoBlanks(sessionId);
  }

  function SessionBodyText(sessionId: string, otp: string): string {
    "SESSION " + if otp == "" then sessionId else sessionId + " " + otp
  }

  /** What the part after the token is read as, with an OTP or cut off before it. */
  lemma SessionBody(sessionId: string, otp: string)
    requires sessionId != "" && CredentialChars(sessionId) && CredentialChars(otp)
    ensures var body := SessionBodyText(sessionId, otp);
            && Trimmed(body) && Words(body).0 == "SESSION"
            && ParseSession(Trim(Words(body).1)) == SetSession(sessionId, otp)
  {
    hide IsWhitespace, Trim, SplitOnce, CredentialChars, ParseSession, Words;
    var args := sessionId;
    if otp == "" {
      IdAlone(sessionId);
    } else {
      args := SessionArgs(sessionId, otp);
    }
    var body := SessionBodyText(sessionId, otp);
    assert body == "SESSION" + " " + args;
    WordsAt("SESSION", args);
    TrimNothing(args);
    SomeBlanks();
    assert body[0] == 'S' && body[|body| - 1] == args[|args| - 1];
  }

  lemma VerbBody(command: Command)
    requires !command.SetSession?
    ensures var body := Wire(command);
            body != "" && Trimmed(body) && ' ' !in body && Words(body) == (body, "")
    ensures Trim("") == ""
  {
    hide Trim, SplitOnce;
    TrimNothing("");
  }

  /** Every command the host could serve comes back from its own request line. */
  lemma RoundTrip(token: string, command: Command)
    requires token != "" && NoWhitespace(token) && ValidCommand(command)
    ensures ParseRequest(RequestLine(token, command), token) == Some(Known(command))
  {
    hide Trim, SplitOnce, IsWhitespace, Words;
    var body := Wire(command);
    if command.SetSession? {
      SessionBody(command.sessionId, command.otp);
      assert body == SessionBodyText(command.sessionId, command.otp);
    } else {
      VerbBody(command);
    }
    SomeBlanks();
    TokenAndBody(token, body, "\n");
  }

  lemma SomeBlanks()
    ensures Blank("\n") && Blank(" ") && Blank("") && IsWhitespace(' ') && !IsWhitespace('S')
  {
  }

  /** The empty token is the one whitespace-free token this does not hold for: with it, no line that
      says anything is answered. */
  lemma EmptyTokenParsesNothing(line: string)
    requires !Blank(line)
    ensures ParseRequest(line, "") == None
  {
    hide IsWhitespace, TrimStart, TrimEnd, SplitOnce;
    SomeBlanks();
    var trimmed := Trim(line);
    assert trimmed != [] && trimmed[0] != ' ';
    assert Words(trimmed).0 != "";
  }

  /** For every whitespace-free token: all served commands round trip exactly when it is not empty. */
  lemma RoundTripIff(token: string)
    requires NoWhitespace(token)
    ensures (forall command | ValidCommand(command) :: ParseRequest(RequestLine(token, command), token) == Some(Known(command)))
      <==> token != ""
  {
    if token == "" {
      var line := RequestLine(token, Ping);
      assert line[1] == 'P' && !Blank(line);
      EmptyTokenParsesNothing(line);
      assert ValidCommand(Ping);
    } else {
      forall command | ValidCommand(command) ensures ParseRequest(RequestLine(token, command), token) == Some(Known(command)) {
        RoundTrip(token, command);
      }
    }
  }

  /** `first` is the first word of the line: what begins at its first character that is not blank and
      ends at the next space, or with the last that is not blank. */
  ghost predicate FirstWordIs(line: string, before: string, first: string, rest: string) {
    && line == before + first + rest && Blank(before)
    && first != "" && !IsWhitespace(first[0]) && ' ' !in first
    && (if Blank(rest) then Trimmed(first) else rest[0] == ' ')
  }

  /** Every line that says anything has one. */
  lemma HasFirstWord(line: string) returns (before: string, first: string, rest: string)
    requires !Blank(line)
    ensures FirstWordIs(line, before, first, rest)
  {
    hide IsWhitespace, Trim, TrimStart, TrimEnd, SplitOnce;
    var tail;
    before, tail := SplitAtStart(line);
    SomeBlanks();
    var trimmed := TrimEnd(tail);
    assert trimmed != [] && trimmed[0] == tail[0];
    match SplitOnce(trimmed, ' ')
    case None =>
      first, rest := trimmed, tail[|trimmed|..];
    case Some(p) =>
      first, rest := p.0, tail[|p.0|..];
      assert trimmed[0] == (p.0 + [' '] + p.1)[0];
      NotBlankAt(rest, |trimmed| - 1 - |first|);
  }

  lemma NotBlankAt(s: string, k: int)
    requires 0 <= k < |s| && !IsWhitespace(s[k])
    ensures !Blank(s)
  {
  }

  lemma FirstWordParses(line: string, before: string, first: string, rest: string)
    requires FirstWordIs(line, before, first, rest)
    ensures Words(Trim(line)).0 == first
  {
    hide IsWhitespace, SplitOnce, Trim, TrimStart, TrimEnd, Words;
    var tail := first + rest;
    assert line == before + tail && tail[0] == first[0];
    TrimFrom(before, tail);
    if Blank(rest) {
      TrimEndSkips(first, rest);
      WordAlone(first);
    } else {
      TrimEndKeeps(first, rest);
      var kept := TrimEndNotBlank(rest);
      assert first + kept == first + " " + kept[1..];
      WordsAt(first, kept[1..]);
    }
  }

  lemma TrimFrom(before: string, tail: string)
    requires Blank(before) && tail != [] && !IsWhitespace(tail[0])
    ensures Trim(before + tail) == TrimEnd(tail)
  {
    hide IsWhitespace, TrimEnd;
    TrimStartSkips(before, tail);
  }

  lemma TrimEndNotBlank(s: string) returns (kept: string)
    requires !Blank(s)
    ensures kept == TrimEnd(s) && kept != [] && kept[0] == s[0]
  {
    hide IsWhitespace, TrimEnd;
    kept := TrimEnd(s);
    assert s[0..] == s;
  }

  lemma WordAlone(s: string)
    requires ' ' !in s
    ensures Words(s) == (s, "")
  {
    hide SplitOnce;
  }

  /** A line is answered exactly when its first word is the token; one that says nothing, exactly when
      the token is empty. */
  lemma AnsweredIff(line: string, before: string, first: string, rest: string, token: string)
    ensures FirstWordIs(line, before, first, rest) ==> (ParseRequest(line, token).Some? <==> first == token)
    ensures Blank(line) ==> (ParseRequest(line, token).Some? <==> token == "")
  {
    hide Trim, SplitOnce, IsWhitespace, Words, Blank;
    if FirstWordIs(line, before, first, rest) {
      FirstWordParses(line, before, first, rest);
    }
    if Blank(line) {
      NoWords(line);
    }
  }

  lemma NoWords(line: string)
    requires Blank(line)
    ensures Words(Trim(line)).0 == ""
  {
    hide IsWhitespace;
  }

  /** So a line with another first word is answered nothing, whatever else it says and however it
      ends. */
  lemma WrongTokenParsesNothing(line: string, before: string, first: string, rest: string, token: string)
    requires FirstWordIs(line, before, first, rest) && first != token
    ensures ParseRequest(line, token) == None
  {
    hide Trim, SplitOnce, IsWhitespace, Words, Blank;
    AnsweredIff(line, before, first, rest, token);
  }

  // What an answered line is read as

  /** What follows the first word, trimmed, is what follows it in the line, trimmed. */
  lemma RestParses(line: string, before: string, first: string, rest: string)
    requires FirstWordIs(line, before, first, rest)
    ensures Words(Trim(line)).0 == first && Trim(Words(Trim(line)).1) == Trim(rest)
  {
    hide IsWhitespace, SplitOnce, Trim, TrimStart, TrimEnd, Words;
    var tail := first + rest;
    assert line == before + tail && tail[0] == first[0];
    TrimFrom(before, tail);
    if Blank(rest) {
      TrimEndSkips(first, rest);
      WordAlone(first);
      BlankTrims(rest);
      BlankTrims("");
    } else {
      TrimEndKeeps(first, rest);
      var kept := TrimEndNotBlank(rest);
      assert first + kept == first + " " + kept[1..];
      WordsAt(first, kept[1..]);
      TrimAfterSpace(rest);
    }
  }

  lemma BlankTrims(s: string)
    requires Blank(s)
    ensures Trim(s) == ""
  {
    hide IsWhitespace;
  }

  lemma TrimAfterSpace(rest: string)
    requires !Blank(rest) && rest[0] == ' '
    ensures TrimEnd(rest) != "" && Trim(TrimEnd(rest)[1..]) == Trim(rest)
  {
    SomeBlanks();
    hide IsWhitespace, Trim, TrimEnd, TrimStart;
    var a, c, z := TrimParts(rest);
    TrimIsBlank(rest);
    assert c != "";
    assert (a + c)[|a + c| - 1] == c[|c| - 1];
    TrimEndSkips(a + c, z);
    assert (a + c)[1..] == a[1..] + c + [];
    TrimIs((a + c)[1..], a[1..], c, []);
  }

  lemma TrimIsBlank(s: string)
    ensures Trim(s) == "" <==> Blank(s)
  {
    hide IsWhitespace, TrimStart, TrimEnd, Blank;
  }

  /** The line is the token, then a verb, then whatever the verb may be given, with blanks around any of
      them. */
  ghost predicate Asks(line: string, token: string, verb: string, args: string) {
    exists before, rest, between :: FirstWordIs(line, before, token, rest) && FirstWordIs(rest, between, verb, args)
  }

  lemma AskedWords(line: string, token: string, verb: string, args: string)
    requires Asks(line, token, verb, args)
    ensures Words(Trim(line)).0 == token
    ensures var said := Words(Trim(Words(Trim(line)).1)); said.0 == verb && Trim(said.1) == Trim(args)
  {
    hide FirstWordIs, Words, Trim;
    var before, rest, between :| FirstWordIs(line, before, token, rest) && FirstWordIs(rest, between, verb, args);
    RestParses(line, before, token, rest);
    RestParses(rest, between, verb, args);
  }

  /** A verb the host knows is that verb, whatever follows it; any other is answered as unknown, and so is
      the token alone. */
  lemma VerbDecides(line: string, token: string, verb: string, args: string)
    requires Asks(line, token, verb, args)
    ensures forall command: Command | !command.SetSession? && command != Session && verb == Wire(command) ::
              ParseRequest(line, token) == Some(Known(command))
    ensures ParseRequest(line, token) == Some(Unknown)
      <==> verb !in ["FOCUS", "QUIT", "STATS", "PING", "RELOAD", "LOGS", "SESSION"]
  {
    hide Trim, Words, Asks, ParseSession;
    AskedWords(line, token, verb, args);
  }

  lemma TokenAlone(line: string, before: string, token: string, rest: string)
    requires FirstWordIs(line, before, token, rest) && Blank(rest)
    ensures ParseRequest(line, token) == Some(Unknown)
  {
    hide Trim, Words, FirstWordIs, Blank;
    RestParses(line, before, token, rest);
    BlankTrims(rest);
    WordAlone("");
  }

  /** `SESSION` alone asks; with a word after it, it sets that id, and the rest of the line is the OTP. */
  lemma SessionAsksOrSets(line: string, token: string, args: string)
    requires Asks(line, token, "SESSION", args)
    ensures Blank(args) ==> ParseRequest(line, token) == Some(Known(Session))
    ensures forall between, id, otp | FirstWordIs(args, between, id, otp) ::
              ParseRequest(line, token) == Some(Known(SetSession(Trim(id), Trim(otp))))
  {
    hide Trim, Words, Asks, ParseSession, FirstWordIs, Blank;
    AskedWords(line, token, "SESSION", args);
    if Blank(args) {
      BlankTrims(args);
      NoArgs();
    }
    forall between, id, otp | FirstWordIs(args, between, id, otp)
      ensures ParseRequest(line, token) == Some(Known(SetSession(Trim(id), Trim(otp))))
    {
      SetsFirstWord(args, between, id, otp);
    }
  }

  lemma NoArgs()
    ensures ParseSession("") == Session
  {
  }

  lemma SetsFirstWord(args: string, between: string, id: string, otp: string)
    requires FirstWordIs(args, between, id, otp)
    ensures ParseSession(Trim(args)) == SetSession(Trim(id), Trim(otp))
  {
    hide IsWhitespace, Trim, TrimStart, TrimEnd;
    RestParses(args, between, id, otp);
    TrimIsBlank(args);
    assert args[|between|] == id[0];
    assert !Blank(args);
    if SplitOnce(Trim(args), ' ').None? {
      assert Trim(args) == id;
      TrimNothing(id);
      BlankTrims("");
    }
  }

  /** Credentials pass exactly when both are there, of at most 64 characters, all of them letters, digits,
      hyphens or underscores. */
  lemma CredentialsPassIff(sessionId: string, otp: string)
    ensures ValidateCredentials(sessionId, otp).Ok? <==>
              forall s | s in [sessionId, otp] ::
                1 <= |s| <= 64 && forall c | c in s :: 'a' <= c <= 'z' || 'A' <= c <= 'Z' || '0' <= c <= '9' || c in "-_"
  {
    assert [sessionId, otp][0] == sessionId && [sessionId, otp][1] == otp;
    CharsIff(sessionId);
    CharsIff(otp);
    hide CredentialChars;
  }

  lemma CharsIff(s: string)
    ensures CredentialChars(s) <==> forall c | c in s :: 'a' <= c <= 'z' || 'A' <= c <= 'Z' || '0' <= c <= '9' || c in "-_"
  {
    if !CredentialChars(s) {
      var i :| 0 <= i < |s| && !CredentialChar(s[i]);
      assert s[i] in s;
    }
  }

  function Min(a: int, b: int): int { if a < b then a else b }

  /** How much of the id and of the OTP the first `n` characters of the line carry. */
  function IdCut(token: string, sessionId: string, n: int): int { Min(|sessionId|, n - (|token| + 9)) }

  function OtpCut(token: string, sessionId: string, otp: string, n: int): int {
    var k := n - (|token| + 10 + |sessionId|);
    if k < 0 then 0 else Min(|otp|, k)
  }

  /** A set request cut anywhere after the first character of its id is read as a set request for
      what arrived, never as a query, and is refused exactly when no OTP character arrived. */
  lemma CutSetRequest(token: string, sessionId: string, otp: string, n: nat)
    requires token != "" && NoWhitespace(token) && ValidateCredentials(sessionId, otp).Ok?
    requires |token| + 9 < n <= |RequestLine(token, SetSession(sessionId, otp))|
    ensures var i, j := IdCut(token, sessionId, n), OtpCut(token, sessionId, otp, n);
            && 0 < i <= |sessionId| && 0 <= j <= |otp|
            && ParseRequest(RequestLine(token, SetSession(sessionId, otp))[..n], token)
                 == Some(Known(SetSession(sessionId[..i], otp[..j])))
            && (ValidateCredentials(sessionId[..i], otp[..j]).Err? <==> j == 0)
  {
    hide Trim, SplitOnce, IsWhitespace, Words;
    var i, j := IdCut(token, sessionId, n), OtpCut(token, sessionId, otp, n);
    var body, after := CutParts(token, sessionId, otp, n);
    SessionBody(sessionId[..i], otp[..j]);
    TokenAndBody(token, body, after);
  }

  lemma CutParts(token: string, sessionId: string, otp: string, n: nat) returns (body: string, after: string)
    requires sessionId != "" && otp != ""
    requires |token| + 9 < n <= |RequestLine(token, SetSession(sessionId, otp))|
    ensures var i, j := IdCut(token, sessionId, n), OtpCut(token, sessionId, otp, n);
            && 0 < i <= |sessionId| && 0 <= j <= |otp|
            && body == SessionBodyText(sessionId[..i], otp[..j]) && Blank(after)
            && RequestLine(token, SetSession(sessionId, otp))[..n] == token + " " + body + after
  {
    hide IsWhitespace, RequestLine, SessionBodyText;
    SomeBlanks();
    LineParts(token, sessionId, otp);
    var head, tail := token + " SESSION ", " " + (otp + "\n");
    var m := n - |head|;
    TakeJoin(head, sessionId + tail, n);
    TakeJoin(sessionId, tail, m);
    body := SessionBodyText(sessionId[..IdCut(token, sessionId, n)], otp[..OtpCut(token, sessionId, otp, n)]);
    if m <= |sessionId| {
      after := "";
      BodyUpToId(token, sessionId[..m], after);
      assert otp[..0] == "" && sessionId[..m] + "" == sessionId[..m];
    } else {
      after := CutInOtp(token, sessionId, otp, m - |sessionId|);
      assert sessionId[..|sessionId|] == sessionId;
    }
  }

  lemma BodyUpToId(token: string, sessionId: string, after: string)
    ensures token + " " + SessionBodyText(sessionId, "") + after == (token + " SESSION ") + (sessionId + after)
  {
  }

  lemma BodyUpToOtp(token: string, sessionId: string, otp: string, after: string)
    requires otp != ""
    ensures token + " " + SessionBodyText(sessionId, otp) + after
         == (token + " SESSION ") + (sessionId + (" " + (otp + after)))
  {
    assert SessionBodyText(sessionId, otp) + after == "SESSION " + (sessionId + (" " + (otp + after)));
  }

  lemma CutInOtp(token: string, sessionId: string, otp: string, k: nat) returns (after: string)
    requires otp != "" && 0 < k <= |otp| + 2
    ensures Blank(after)
    ensures (token + " SESSION ") + (sessionId + (" " + (otp + "\n"))[..k])
         == token + " " + SessionBodyText(sessionId, otp[..Min(|otp|, k - 1)]) + after
  {
    hide IsWhitespace, SessionBodyText;
    SomeBlanks();
    TakeJoin(" ", otp + "\n", k);
    if k == 1 {
      after := " ";
      assert otp[..0] == "" && (" " + (otp + "\n"))[..k] == " ";
      BodyUpToId(token, sessionId, after);
    } else {
      TakeJoin(otp, "\n", k - 1);
      after := if k == |otp| + 2 then "\n" else "";
      assert (otp + "\n")[..k - 1] == otp[..Min(|otp|, k - 1)] + after;
      BodyUpToOtp(token, sessionId, otp[..Min(|otp|, k - 1)], after);
    }
  }

  lemma LineParts(token: string, sessionId: string, otp: string)
    ensures RequestLine(token, SetSession(sessionId, otp))
         == (token + " SESSION ") + (sessionId + (" " + (otp + "\n")))
  {
    assert Wire(SetSession(sessionId, otp)) == "SESSION " + (sessionId + " " + otp);
  }

  lemma TakeJoin(a: string, b: string, n: int)
    requires 0 <= n <= |a| + |b|
    ensures (a + b)[..n] == if n <= |a| then a[..n] else a + b[..n - |a|]
  {
  }
}
