/** Which rows of the device lists an operation is about, and what becomes of the order of the others
    (`src/components/config-provider.tsx`): said over tokens, addresses and texts themselves. */
module DeviceMatching {
  import opened Wrappers
  import opened DeviceLists
  import opened Selection

  /** Two rows are of one device when they carry the same token, or when neither carries one and they
      carry the same address. */
  lemma SameIdentityIff(token: string, ip: string, otherToken: string, otherIp: string)
    ensures IdentityOf(token, ip) == IdentityOf(otherToken, otherIp)
      <==> (token != "" && token == otherToken) || (token == "" && otherToken == "" && ip == otherIp)
  {
  }

  // The saved rows

  /** A saved row that carries a token is found by that token alone; one that carries none by the
      address it names, if it names one. */
  predicate Answers(d: Device, token: string, ip: string) {
    (d.token != "" && d.token == token) || (d.token == "" && ip != "" && d.ip == ip)
  }

  lemma {:induction false} ForgottenExactly(rows: seq<Device>, token: string, ip: string)
    ensures Picks(WithoutSaved(rows, token, ip), rows, (d: Device) => !Answers(d, token, ip), (d: Device) => d)
  {
    var stays, same := (d: Device) => !Answers(d, token, ip), (d: Device) => d;
    if rows == [] {
      PicksNothing(stays, same);
    } else {
      ForgottenExactly(rows[1..], token, ip);
      var kept := WithoutSaved(rows[1..], token, ip);
      PicksCons(kept, rows[0], rows[1..], stays, same);
      assert [rows[0]] + rows[1..] == rows;
      assert [] + kept == kept;
    }
  }

  /** A save leaves every row the device does not answer to in its order, and adds the device without
      its name at the end. */
  lemma SaveReplacesExactly(rows: seq<Device>, d: Device)
    ensures Save(rows, d) != []
    ensures var kept, last := Save(rows, d)[..|Save(rows, d)| - 1], Save(rows, d)[|Save(rows, d)| - 1];
            && Picks(kept, rows, (r: Device) => !Answers(r, d.token, d.ip), (r: Device) => r)
            && last == Device(d.token, d.ip, "", d.settings)
  {
    ForgottenExactly(rows, d.token, d.ip);
    assert Save(rows, d)[..|Save(rows, d)| - 1] == WithoutSaved(rows, d.token, d.ip);
  }

  /** What is found is the first row that answers. */
  lemma {:induction false} FoundIsFirst(rows: seq<Device>, token: string, ip: string)
    ensures match FindSaved(rows, token, ip)
            case None => forall i | 0 <= i < |rows| :: !Answers(rows[i], token, ip)
            case Some(d) => exists i | 0 <= i < |rows| ::
              rows[i] == d && Answers(d, token, ip) && forall j | 0 <= j < i :: !Answers(rows[j], token, ip)
  {
    if rows != [] {
      var rest := rows[1..];
      FoundIsFirst(rest, token, ip);
      if !Answers(rows[0], token, ip) && FindSaved(rest, token, ip).Some? {
        var i :| 0 <= i < |rest| && rest[i] == FindSaved(rest, token, ip).value
          && Answers(rest[i], token, ip) && forall j | 0 <= j < i :: !Answers(rest[j], token, ip);
        forall j | 0 <= j < i + 1 ensures !Answers(rows[j], token, ip) {
          if j > 0 { assert rows[j] == rest[j - 1]; }
        }
        assert rows[i + 1] == rest[i];
      }
    }
  }

  // The devices that have joined

  predicate Names(d: KnownDevice, token: string, ip: string) {
    (token != "" && d.token == token) || (token == "" && d.token == "" && d.ip == ip)
  }

  /** A removal, and a join, leave the rows of all other devices in their order. */
  lemma {:induction false} RemovedExactly(rows: seq<KnownDevice>, token: string, ip: string)
    ensures Picks(WithoutKnown(rows, token, ip), rows, (d: KnownDevice) => !Names(d, token, ip), (d: KnownDevice) => d)
  {
    var stays, same := (d: KnownDevice) => !Names(d, token, ip), (d: KnownDevice) => d;
    if rows == [] {
      PicksNothing(stays, same);
    } else {
      RemovedExactly(rows[1..], token, ip);
      var kept := WithoutKnown(rows[1..], token, ip);
      PicksCons(kept, rows[0], rows[1..], stays, same);
      assert [rows[0]] + rows[1..] == rows;
      assert [] + kept == kept;
    }
  }

  // Texts

  ghost predicate AllTrimmedAway(s: string) { forall c | c in s :: TrimmedAway(c) }

  /** Trimming takes off all white space in front and behind and nothing else. */
  lemma {:induction false} TrimTextIs(before: string, core: string, after: string)
    requires AllTrimmedAway(before) && AllTrimmedAway(after)
    requires core == "" || (!TrimmedAway(core[0]) && !TrimmedAway(core[|core| - 1]))
    ensures TrimText(before + core + after) == core
    decreases |before| + |after|
  {
    hide TrimmedAway;
    var s := before + core + after;
    if before != "" {
      assert s[0] == before[0];
      assert s[1..] == before[1..] + core + after;
      TrimTextIs(before[1..], core, after);
    } else if core == "" {
      if after != "" {
        assert s[0] == after[0];
        assert s[1..] == before + core + after[1..];
        TrimTextIs(before, core, after[1..]);
      }
    } else {
      assert s[0] == core[0];
      if after != "" {
        assert s[|s| - 1] == after[|after| - 1];
        assert s[..|s| - 1] == before + core + after[..|after| - 1];
        TrimTextIs(before, core, after[..|after| - 1]);
      } else {
        assert s == core;
      }
    }
  }

  /** The operation is a join with a text that is not blank. */
  ghost predicate Says(op: KnownOp, text: Joined -> string) { op.Recorded? && !AllTrimmedAway(text(op.info)) }

  /** A name, system or screen size on record is the latest one that was not blank, trimmed. */
  lemma {:induction false} LastTextIs(since: seq<KnownOp>, text: Joined -> string)
    ensures (forall j | 0 <= j < |since| :: !Says(since[j], text)) ==> LastText(since, text) == ""
    ensures forall k: nat | k < |since| && Says(since[k], text) && forall j | k < j < |since| :: !Says(since[j], text) ::
              LastText(since, text) == TrimText(text(since[k].info))
  {
    if since != [] {
      var before, last := since[..|since| - 1], since[|since| - 1];
      LastTextIs(before, text);
      LastTextMore(since, text);
      hide Says, TrimText, LastText;
      forall k: nat | k < |since| && Says(since[k], text) && forall j | k < j < |since| :: !Says(since[j], text)
        ensures LastText(since, text) == TrimText(text(since[k].info))
      {
        if k < |before| {
          assert !Says(last, text);
          assert forall j | 0 <= j < |before| :: before[j] == since[j];
        }
      }
    }
  }

  lemma LastTextMore(since: seq<KnownOp>, text: Joined -> string)
    requires since != []
    ensures var before, last := since[..|since| - 1], since[|since| - 1];
            LastText(since, text) == if Says(last, text) then TrimText(text(last.info)) else LastText(before, text)
  {
    var last := since[|since| - 1];
    if last.Recorded? { BlankTrims(text(last.info)); }
  }

  lemma {:induction false} BlankTrims(s: string)
    ensures TrimText(s) == "" <==> AllTrimmedAway(s)
    decreases |s|
  {
    hide TrimmedAway;
    if s != "" {
      if TrimmedAway(s[0]) {
        BlankTrims(s[1..]);
        assert s == [s[0]] + s[1..];
      } else if TrimmedAway(s[|s| - 1]) {
        BlankTrims(s[..|s| - 1]);
        assert s == s[..|s| - 1] + [s[|s| - 1]];
      }
    }
  }
}
