/** The Wi-Fi payload of the join QR code, written twice: five replacements in a row in
    `src-tauri/src/cli.rs`, one pass of a regular expression in `src/lib/utils.ts`. */
module WifiQr {
  import opened Wrappers

  /** `str::replace` of one character. */
  function Replace(s: string, c: char, sub: string): string {
    if s == [] then []
    else (if s[0] == c then sub else [s[0]]) + Replace(s[1..], c, sub)
  }

  /** The host's escape: each replacement goes over what the one before it left. */
  function EscapeByReplacing(value: string): string {
    Replace(Replace(Replace(Replace(Replace(value,
      '\\', "\\\\"),
      ';', "\\;"),
      ',', "\\,"),
      ':', "\\:"),
      '"', "\\\"")
  }

  predicate Special(c: char) { c in ['\\', ';', ',', ':', '"'] }

  function EscapeOne(c: char): string { if Special(c) then ['\\', c] else [c] }

  /** The web view's escape: one pass. */
  function EscapeInOnePass(value: string): string {
    if value == [] then []
    else EscapeOne(value[0]) + EscapeInOnePass(value[1..])
  }

  function Payload(escape: string -> string, ssid: string, password: string): string {
    if password == "" then "WIFI:T:nopass;S:" + escape(ssid) + ";;"
    else "WIFI:T:WPA;S:" + escape(ssid) + ";P:" + escape(password) + ";;"
  }

  /** `wifi_qr_payload`. */
  function HostPayload(ssid: string, password: string): string { Payload(EscapeByReplacing, ssid, password) }

  /** `buildWifiQrValue`. */
  function WebPayload(ssid: string, password: string): string { Payload(EscapeInOnePass, ssid, password) }

  lemma {:induction false} ReplaceJoin(a: string, b: string, c: char, sub: string)
    ensures Replace(a + b, c, sub) == Replace(a, c, sub) + Replace(b, c, sub)
  {
    if a == [] {
      assert a + b == b;
    } else {
      assert (a + b)[1..] == a[1..] + b;
      ReplaceJoin(a[1..], b, c, sub);
    }
  }

  lemma ReplacingJoin(a: string, b: string)
    ensures EscapeByReplacing(a + b) == EscapeByReplacing(a) + EscapeByReplacing(b)
  {
    hide Replace;
    ReplaceJoin(a, b, '\\', "\\\\");
    var a1, b1 := Replace(a, '\\', "\\\\"), Replace(b, '\\', "\\\\");
    ReplaceJoin(a1, b1, ';', "\\;");
    var a2, b2 := Replace(a1, ';', "\\;"), Replace(b1, ';', "\\;");
    ReplaceJoin(a2, b2, ',', "\\,");
    var a3, b3 := Replace(a2, ',', "\\,"), Replace(b2, ',', "\\,");
    ReplaceJoin(a3, b3, ':', "\\:");
    ReplaceJoin(Replace(a3, ':', "\\:"), Replace(b3, ':', "\\:"), '"', "\\\"");
  }

  lemma ReplaceOne(x: char, c: char, sub: string)
    ensures Replace([x], c, sub) == if x == c then sub else [x]
  {
    assert [x][1..] == [];
  }

  lemma ReplaceTwo(x: char, y: char, c: char, sub: string)
    requires x != c && y != c
    ensures Replace([x, y], c, sub) == [x, y]
  {
    assert [x, y] == [x] + [y];
    ReplaceJoin([x], [y], c, sub);
    ReplaceOne(x, c, sub);
    ReplaceOne(y, c, sub);
  }

  /** No replacement disturbs what an earlier one wrote for a single character. */
  lemma ReplacingOne(x: char)
    ensures EscapeByReplacing([x]) == if Special(x) then ['\\', x] else [x]
  {
    hide Replace;
    ReplaceOne(x, '\\', "\\\\");
    ReplaceOne(x, ';', "\\;");
    ReplaceOne(x, ',', "\\,");
    ReplaceOne(x, ':', "\\:");
    ReplaceOne(x, '"', "\\\"");
    forall c, sub: string | c != '\\' && c != x && c in [';', ',', ':', '"'] ensures Replace(['\\', x], c, sub) == ['\\', x] {
      ReplaceTwo('\\', x, c, sub);
    }
  }

  /** The two algorithms escape every value to the same text. */
  lemma {:induction false} EscapesAgree(value: string)
    ensures EscapeByReplacing(value) == EscapeInOnePass(value)
  {
    if value != [] {
      assert value == [value[0]] + value[1..];
      ReplacingJoin([value[0]], value[1..]);
      ReplacingOne(value[0]);
      EscapesAgree(value[1..]);
    }
  }

  /** So the host and the web view print the same payload for every network. */
  lemma PayloadsAgree(ssid: string, password: string)
    ensures HostPayload(ssid, password) == WebPayload(ssid, password)
  {
    EscapesAgree(ssid);
    EscapesAgree(password);
  }

  lemma {:induction false} OnePassJoin(a: string, b: string)
    ensures EscapeInOnePass(a + b) == EscapeInOnePass(a) + EscapeInOnePass(b)
  {
    hide EscapeOne;
    if a == "" {
      assert a + b == b;
    } else {
      assert (a + b)[1..] == a[1..] + b;
      OnePassJoin(a[1..], b);
    }
  }

  /** Each of the five characters the format gives a meaning gets a backslash, wherever it stands, and no
      other character is touched. */
  lemma EscapesExactly(before: string, c: char, after: string)
    ensures EscapeInOnePass(before + [c] + after)
         == EscapeInOnePass(before) + (if c in "\\;,:\"" then ['\\', c] else [c]) + EscapeInOnePass(after)
  {
    assert EscapeInOnePass([c]) == EscapeOne(c) + EscapeInOnePass([]);
    OnePassJoin(before + [c], after);
    OnePassJoin(before, [c]);
    hide EscapeInOnePass;
  }

  // A reader of the payload

  /** A field up to its unescaped semicolon, unescaped, and what follows. */
  function ReadField(s: string): Option<(string, string)> {
    if s == [] then None
    else if s[0] == ';' then Some(([], s[1..]))
    else
      var taken := if s[0] == '\\' then 2 else 1;
      if taken > |s| then None
      else
        match ReadField(s[taken..])
        case None => None
        case Some(p) => Some(([s[taken - 1]] + p.0, p.1))
  }

  function After(prefix: string, s: string): Option<string> {
    if prefix <= s then Some(s[|prefix|..]) else None
  }

  /** The network name and password a payload stands for. */
  function Decode(payload: string): Option<(string, string)> {
    match After("WIFI:T:nopass;S:", payload)
    case Some(rest) =>
      (match ReadField(rest)
       case Some((ssid, tail)) => if tail == ";" then Some((ssid, "")) else None
       case None => None)
    case None =>
      match After("WIFI:T:WPA;S:", payload)
      case None => None
      case Some(rest) =>
        match ReadField(rest)
        case None => None
        case Some((ssid, tail)) =>
          match After("P:", tail)
          case None => None
          case Some(rest) =>
            match ReadField(rest)
            case Some((password, tail)) => if tail == ";" then Some((ssid, password)) else None
            case None => None
  }

  lemma EscapeCons(value: string, rest: string)
    requires value != []
    ensures EscapeInOnePass(value) + rest == EscapeOne(value[0]) + (EscapeInOnePass(value[1..]) + rest)
  {
  }

  /** One escaped character is read as the character it stands for. */
  lemma ReadCharacter(c: char, tail: string)
    requires ReadField(tail).Some?
    ensures ReadField(EscapeOne(c) + tail) == Some(([c] + ReadField(tail).value.0, ReadField(tail).value.1))
  {
    var s := EscapeOne(c) + tail;
    assert s[|EscapeOne(c)|..] == tail;
  }

  lemma {:induction false} FieldReadsBack(value: string, rest: string)
    ensures ReadField(EscapeInOnePass(value) + (";" + rest)) == Some((value, rest))
  {
    if value == [] {
      assert EscapeInOnePass(value) + (";" + rest) == ";" + rest;
      assert (";" + rest)[1..] == rest;
    } else {
      hide EscapeInOnePass, ReadField;
      var tail := EscapeInOnePass(value[1..]) + (";" + rest);
      FieldReadsBack(value[1..], rest);
      EscapeCons(value, ";" + rest);
      ReadCharacter(value[0], tail);
      assert [value[0]] + value[1..] == value;
    }
  }

  lemma AfterPrefix(prefix: string, rest: string)
    ensures After(prefix, prefix + rest) == Some(rest)
  {
  }

  /** The payload gives its network name and password back, whatever characters they have. */
  lemma PayloadDecodes(ssid: string, password: string)
    ensures Decode(WebPayload(ssid, password)) == Some((ssid, password))
  {
    hide ReadField, EscapeInOnePass;
    var name := EscapeInOnePass(ssid);
    if password == "" {
      assert WebPayload(ssid, password) == "WIFI:T:nopass;S:" + (name + (";" + ";"));
      AfterPrefix("WIFI:T:nopass;S:", name + (";" + ";"));
      FieldReadsBack(ssid, ";");
    } else {
      var secret := EscapeInOnePass(password);
      var tail := "P:" + (secret + (";" + ";"));
      assert WebPayload(ssid, password) == "WIFI:T:WPA;S:" + (name + (";" + tail));
      assert WebPayload(ssid, password)[7] == 'W' && "WIFI:T:nopass;S:"[7] == 'n';
      AfterPrefix("WIFI:T:WPA;S:", name + (";" + tail));
      FieldReadsBack(ssid, tail);
      AfterPrefix("P:", secret + (";" + ";"));
      FieldReadsBack(password, ";");
    }
  }

  /** Two networks never share a payload, on either side. */
  lemma PayloadInjective(ssid: string, password: string, ssid': string, password': string)
    requires HostPayload(ssid, password) == WebPayload(ssid', password')
    ensures ssid == ssid' && password == password'
  {
    PayloadsAgree(ssid, password);
    PayloadDecodes(ssid, password);
    PayloadDecodes(ssid', password');
  }
}
