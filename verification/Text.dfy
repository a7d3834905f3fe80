/** The string operations of the Rust standard library the codecs rely on, written out:
    `str::trim`, `str::split_once` and the decimal parser and printer of the unsigned types. */
module Text {
  import opened Wrappers

  const U32_BOUND: nat := 0x1_0000_0000
  const U64_BOUND: nat := 0x1_0000_0000_0000_0000

  /** Unicode `White_Space`, which is what `char::is_whitespace` and `str::trim` use. */
  predicate IsWhitespace(c: char) {
    || '\U{09}' <= c <= '\U{0D}'
    || c == ' '
    || c == '\U{85}'
    || c == '\U{A0}'
    || c == '\U{1680}'
    || '\U{2000}' <= c <= '\U{200A}'
    || c == '\U{2028}'
    || c == '\U{2029}'
    || c == '\U{202F}'
    || c == '\U{205F}'
    || c == '\U{3000}'
  }

  predicate Blank(s: string) {
    forall i | 0 <= i < |s| :: IsWhitespace(s[i])
  }

  /** No whitespace at either end. */
  predicate Trimmed(s: string) {
    s == [] || (!IsWhitespace(s[0]) && !IsWhitespace(s[|s| - 1]))
  }

  function TrimStart(s: string): (r: string)
    ensures |r| <= |s| && r == s[|s| - |r|..]
    ensures Blank(s[..|s| - |r|])
    ensures r == [] || !IsWhitespace(r[0])
  {
    if s == [] || !IsWhitespace(s[0]) then s
    else
      var r := TrimStart(s[1..]);
      assert s[..|s| - |r|] == [s[0]] + s[1..][..|s| - 1 - |r|];
      r
  }

  function TrimEnd(s: string): (r: string)
    ensures r <= s
    ensures Blank(s[|r|..])
    ensures r == [] || !IsWhitespace(r[|r| - 1])
  {
    if s == [] || !IsWhitespace(s[|s| - 1]) then s
    else
      var last := |s| - 1;
      var r := TrimEnd(s[..last]);
      assert s[|r|..] == s[..last][|r|..] + [s[last]];
      r
  }

  function Trim(s: string): (r: string)
    ensures Trimmed(r)
    ensures r == [] <==> Blank(s)
  {
    var t := TrimStart(s);
    var r := TrimEnd(t);
    assert t != [] ==> s[|s| - |t|] == t[0] && !Blank(s);
    assert t == [] ==> s[..|s| - |t|] == s && Blank(s);
    assert r == [] ==> t[|r|..] == t && Blank(t);
    r
  }

  /** `Trim` is the only trimmed string that leaves nothing but whitespace on both sides. */
  lemma TrimIs(s: string, before: string, core: string, after: string)
    requires s == before + core + after
    requires Blank(before) && Blank(after) && Trimmed(core)
    ensures Trim(s) == core
  {
    if core == [] {
      assert Blank(s);
    } else {
      assert s == before + (core + after);
      TrimStartSkips(before, core + after);
      assert (core + after)[0] == core[0];
      TrimEndSkips(core, after);
    }
  }

  lemma {:induction false} TrimStartSkips(before: string, rest: string)
    requires Blank(before)
    ensures TrimStart(before + rest) == TrimStart(rest)
  {
    if before == [] {
      assert before + rest == rest;
    } else {
      assert (before + rest)[1..] == before[1..] + rest;
      assert (before + rest)[0] == before[0];
      TrimStartSkips(before[1..], rest);
    }
  }

  lemma {:induction false} TrimEndSkips(core: string, after: string)
    requires Blank(after)
    requires core != [] && !IsWhitespace(core[|core| - 1])
    ensures TrimEnd(core + after) == core
  {
    if after == [] {
      assert core + after == core;
    } else {
      var s := core + after;
      assert s[|s| - 1] == after[|after| - 1];
      assert s[..|s| - 1] == core + after[..|after| - 1];
      TrimEndSkips(core, after[..|after| - 1]);
    }
  }

  lemma {:induction false} TrimEndKeeps(before: string, core: string)
    requires !Blank(core)
    ensures TrimEnd(before + core) == before + TrimEnd(core)
  {
    hide IsWhitespace;
    var s := before + core;
    assert s[|s| - 1] == core[|core| - 1];
    if IsWhitespace(core[|core| - 1]) {
      assert s[..|s| - 1] == before + core[..|core| - 1];
      TrimEndKeeps(before, core[..|core| - 1]);
    }
  }

  lemma TrimParts(s: string) returns (before: string, core: string, after: string)
    ensures s == before + core + after && Blank(before) && Blank(after) && Trimmed(core) && Trim(s) == core
  {
    hide IsWhitespace, TrimEnd, TrimStart;
    var tail := TrimStart(s);
    before, core := s[..|s| - |tail|], TrimEnd(tail);
    after := tail[|core|..];
  }

  lemma SplitAtStart(s: string) returns (before: string, rest: string)
    requires !Blank(s)
    ensures s == before + rest && Blank(before) && !Blank(rest) && Trim(s) == TrimEnd(rest) && !IsWhitespace(rest[0])
  {
    hide IsWhitespace, TrimStart, TrimEnd;
    rest := TrimStart(s);
    before := s[..|s| - |rest|];
    assert rest == [] ==> before == s;
  }

  /** The text before and after the first `c`, as `str::split_once` gives them. */
  function SplitOnce(s: string, c: char): (r: Option<(string, string)>)
    ensures r.None? <==> c !in s
    ensures r.Some? ==> s == r.value.0 + [c] + r.value.1 && c !in r.value.0
  {
    if s == [] then None
    else if s[0] == c then Some(([], s[1..]))
    else match SplitOnce(s[1..], c)
      case None => None
      case Some(p) => Some(([s[0]] + p.0, p.1))
  }

  lemma {:induction false} SplitOnceAt(head: string, c: char, tail: string)
    requires c !in head
    ensures SplitOnce(head + [c] + tail, c) == Some((head, tail))
  {
    if head == [] {
      assert head + [c] + tail == [c] + tail;
      assert ([c] + tail)[1..] == tail;
    } else {
      assert (head + [c] + tail)[1..] == head[1..] + [c] + tail;
      SplitOnceAt(head[1..], c, tail);
      assert [head[0]] + head[1..] == head;
    }
  }

  predicate IsDigit(c: char) { '0' <= c <= '9' }

  predicate AllDigits(s: string) {
    forall i | 0 <= i < |s| :: IsDigit(s[i])
  }

  function DigitValue(c: char): nat
    requires IsDigit(c)
  {
    c as int - '0' as int
  }

  function DigitsValue(s: string): nat
    requires AllDigits(s)
  {
    if s == [] then 0
    else DigitsValue(s[..|s| - 1]) * 10 + DigitValue(s[|s| - 1])
  }

  /** `str::parse` for an unsigned type whose values are below `bound`: an optional leading `+`,
      then at least one digit and nothing else, in range. */
  function ParseUnsigned(s: string, bound: nat): Option<nat> {
    var digits := if |s| > 1 && s[0] == '+' then s[1..] else s;
    if digits == [] || !AllDigits(digits) then None
    else if DigitsValue(digits) < bound then Some(DigitsValue(digits))
    else None
  }

  function DigitChar(d: nat): (c: char)
    requires d < 10
    ensures IsDigit(c) && DigitValue(c) == d
  {
    '0' + d as char
  }

  /** How `{}` prints an unsigned number. */
  function Decimal(n: nat): (s: string)
    ensures s != [] && AllDigits(s)
  {
    if n < 10 then [DigitChar(n)] else Decimal(n / 10) + [DigitChar(n % 10)]
  }

  lemma {:induction false} DecimalValue(n: nat)
    ensures DigitsValue(Decimal(n)) == n
  {
    var s := Decimal(n);
    if n < 10 {
      assert s[..|s| - 1] == [];
    } else {
      assert s[..|s| - 1] == Decimal(n / 10);
      DecimalValue(n / 10);
    }
  }

  lemma DecimalParses(n: nat, bound: nat)
    requires n < bound
    ensures ParseUnsigned(Decimal(n), bound) == Some(n)
  {
    DecimalValue(n);
    assert IsDigit(Decimal(n)[0]);
  }

  predicate AllZeros(s: string) {
    forall i | 0 <= i < |s| :: s[i] == '0'
  }

  lemma MoreDigits(m: nat, d: nat)
    requires d < 10
    ensures Decimal(m * 10 + d) == (if m == 0 then [] else Decimal(m)) + [DigitChar(d)]
  {
  }

  lemma {:induction false} DigitsAreDecimal(digits: string) returns (zeros: string)
    requires digits != [] && AllDigits(digits)
    ensures AllZeros(zeros) && digits == zeros + Decimal(DigitsValue(digits))
  {
    var most, last := digits[..|digits| - 1], digits[|digits| - 1];
    assert digits == most + [last] && DigitChar(DigitValue(last)) == last;
    MoreDigits(DigitsValue(most), DigitValue(last));
    if most == [] {
      zeros := [];
    } else {
      zeros := DigitsAreDecimal(most);
      if DigitsValue(most) == 0 {
        assert Decimal(0) == ['0'];
        hide DigitsValue, Decimal;
        assert AllZeros(most);
        zeros := most;
      } else {
        hide DigitsValue, Decimal;
        assert zeros + Decimal(DigitsValue(most)) + [last] == zeros + (Decimal(DigitsValue(most)) + [last]);
      }
    }
  }

  lemma {:induction false} ZerosAddNothing(zeros: string, digits: string)
    requires AllZeros(zeros) && AllDigits(digits)
    ensures AllDigits(zeros + digits) && DigitsValue(zeros + digits) == DigitsValue(digits)
  {
    var all := zeros + digits;
    if digits != [] {
      assert all[..|all| - 1] == zeros + digits[..|digits| - 1];
      ZerosAddNothing(zeros, digits[..|digits| - 1]);
    } else if zeros != [] {
      assert all == zeros && zeros[..|zeros| - 1] + [] == zeros[..|zeros| - 1];
      ZerosAddNothing(zeros[..|zeros| - 1], []);
    }
  }

  lemma ParsedDigits(s: string, bound: nat, n: nat) returns (plus: string, digits: string)
    requires ParseUnsigned(s, bound) == Some(n)
    ensures n < bound && digits != [] && AllDigits(digits) && DigitsValue(digits) == n
    ensures (plus == "" || plus == "+") && s == plus + digits
  {
    hide DigitsValue;
    if |s| > 1 && s[0] == '+' {
      plus, digits := "+", s[1..];
    } else {
      plus, digits := "", s;
    }
  }

  lemma ParsedIsNumeral(s: string, bound: nat, n: nat) returns (plus: string, zeros: string)
    requires ParseUnsigned(s, bound) == Some(n)
    ensures n < bound && (plus == "" || plus == "+") && AllZeros(zeros) && s == plus + zeros + Decimal(n)
  {
    hide *;
    var digits;
    plus, digits := ParsedDigits(s, bound, n);
    zeros := DigitsAreDecimal(digits);
    assert plus + (zeros + Decimal(n)) == plus + zeros + Decimal(n);
  }

  /** The texts that parse to a number are its printed form, with any zeros and at most one `+` in
      front; a number that is out of range has none. */
  lemma ParsesIff(s: string, bound: nat, n: nat)
    ensures ParseUnsigned(s, bound) == Some(n)
      <==> n < bound && exists plus, zeros :: (plus == "" || plus == "+") && AllZeros(zeros) && s == plus + zeros + Decimal(n)
  {
    if ParseUnsigned(s, bound) == Some(n) {
      var plus, zeros := ParsedIsNumeral(s, bound, n);
    }
    hide ParseUnsigned, Decimal;
    forall plus: string, zeros: string | n < bound && (plus == "" || plus == "+") && AllZeros(zeros) && s == plus + zeros + Decimal(n)
      ensures ParseUnsigned(s, bound) == Some(n)
    {
      NumeralParses(plus, zeros, n, bound);
    }
  }

  lemma NumeralParses(plus: string, zeros: string, n: nat, bound: nat)
    requires n < bound && (plus == "" || plus == "+") && AllZeros(zeros)
    ensures ParseUnsigned(plus + zeros + Decimal(n), bound) == Some(n)
  {
    DecimalValue(n);
    ZerosAddNothing(zeros, Decimal(n));
    hide Decimal, DigitsValue;
    var s, digits := plus + zeros + Decimal(n), zeros + Decimal(n);
    assert IsDigit(digits[0]);
    assert s == plus + digits;
    if plus == "" {
      assert s == digits;
    } else {
      assert s[0] == '+' && s[1..] == digits;
    }
  }
}
