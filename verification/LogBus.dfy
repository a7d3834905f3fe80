/** The log bus (`src-tauri/src/logbus.rs`): many producers, a bounded queue with drops, one writer
    thread that batches, a bounded ring, and a panel that arms the stream and copies the ring under
    the ring's lock. Every step below is atomic in the program; they interleave freely. */
module LogBus {
  const MAX_BACKLOG: nat := 2000
  const QUEUE_DEPTH: nat := 4096
  const MAX_BATCH: nat := 64

  /** A line some producer pushed, or the writer's own note that lines were dropped. */
  datatype Entry = Line(text: string) | Notice(count: nat)

  /** Where the writer is in its loop. `Locked` is inside `commit`, after the ring was extended and
      before the streaming flag is read. */
  datatype Phase = Idle | Filling | Ready | Locked | Decided(emit: bool)

  datatype State = State(
    connected: bool,
    attached: bool,
    queue: seq<string>,
    batch: seq<Entry>,
    phase: Phase,
    dropped: nat,
    ring: seq<Entry>,
    streaming: bool,
    // what has happened so far
    pushed: nat,
    accepted: seq<string>,
    committed: seq<Entry>,
    decided: seq<nat>,
    emitted: seq<nat>)

  datatype Action =
    | Push(line: string)
    | Receive
    | Fill
    | TakeDropped
    | Extend
    | Decide
    | Emit
    | Arm
    | SetStreaming(on: bool)
    | Attach

  /** `connected` is false when the writer thread could not be started: nothing receives. */
  function Init(connected: bool): State {
    State(connected, false, [], [], Idle, 0, [], false, 0, [], [], [], [])
  }

  function Last<T>(s: seq<T>, n: nat): seq<T> {
    if |s| <= n then s else s[|s| - n..]
  }

  function Range(from: nat, to: nat): seq<nat> {
    if to <= from then [] else Range(from, to - 1) + [to - 1]
  }

  /** The positions the current batch has among the committed entries. */
  function BatchIndices(s: State): seq<nat> {
    if |s.batch| <= |s.committed| then Range(|s.committed| - |s.batch|, |s.committed|) else []
  }

  predicate Enabled(s: State, a: Action) {
    match a
    case Push(_) => true
    case Receive => s.connected && s.phase.Idle? && s.queue != []
    case Fill => s.phase.Filling? && |s.batch| < MAX_BATCH && s.queue != []
    case TakeDropped => s.phase.Filling?
    case Extend => s.phase.Ready?
    case Decide => s.phase.Locked?
    case Emit => s.phase.Decided?
    case Arm => !s.phase.Locked?
    case SetStreaming(_) => true
    case Attach => true
  }

  function Step(s: State, a: Action): State
    requires Enabled(s, a)
  {
    match a
    case Push(line) =>
      if s.connected && |s.queue| < QUEUE_DEPTH
      then s.(queue := s.queue + [line], pushed := s.pushed + 1, accepted := s.accepted + [line])
      else s.(dropped := s.dropped + 1, pushed := s.pushed + 1)
    case Receive => s.(phase := Filling, batch := [Line(s.queue[0])], queue := s.queue[1..])
    case Fill => s.(batch := s.batch + [Line(s.queue[0])], queue := s.queue[1..])
    case TakeDropped =>
      s.(phase := Ready, dropped := 0, batch := if s.dropped > 0 then s.batch + [Notice(s.dropped)] else s.batch)
    case Extend =>
      s.(phase := Locked, ring := Last(s.ring + s.batch, MAX_BACKLOG), committed := s.committed + s.batch)
    case Decide =>
      s.(phase := Decided(s.streaming), decided := if s.streaming then s.decided + BatchIndices(s) else s.decided)
    case Emit =>
      s.(phase := Idle, batch := [], emitted := if s.phase.emit && s.attached then s.emitted + BatchIndices(s) else s.emitted)
    case Arm => s.(streaming := true)
    case SetStreaming(on) => s.(streaming := on)
    case Attach => s.(attached := true)
  }

  /** Any interleaving: an action that is not possible when its turn comes changes nothing. */
  function Exec(s: State, actions: seq<Action>): State {
    if actions == [] then s
    else
      var last := |actions| - 1;
      var before := Exec(s, actions[..last]);
      if Enabled(before, actions[last]) then Step(before, actions[last]) else before
  }

  function LinesOf(entries: seq<Entry>): seq<string> {
    if entries == [] then []
    else
      var last := |entries| - 1;
      LinesOf(entries[..last]) + (match entries[last] case Line(text) => [text] case Notice(_) => [])
  }

  function NoticeSum(entries: seq<Entry>): nat {
    if entries == [] then 0
    else
      var last := |entries| - 1;
      NoticeSum(entries[..last]) + (match entries[last] case Line(_) => 0 case Notice(n) => n)
  }

  /** What the writer holds that is not in the ring yet. */
  function Held(s: State): seq<Entry> {
    if s.phase.Filling? || s.phase.Ready? then s.batch else []
  }

  lemma {:induction false} LinesOfJoin(a: seq<Entry>, b: seq<Entry>)
    ensures LinesOf(a + b) == LinesOf(a) + LinesOf(b) && NoticeSum(a + b) == NoticeSum(a) + NoticeSum(b)
  {
    if b == [] {
      assert a + b == a;
    } else {
      var last := |b| - 1;
      assert (a + b)[..|a + b| - 1] == a + b[..last];
      LinesOfJoin(a, b[..last]);
    }
  }

  lemma LinesOfOne(e: Entry)
    ensures LinesOf([e]) == (match e case Line(text) => [text] case Notice(_) => [])
    ensures NoticeSum([e]) == (match e case Line(_) => 0 case Notice(n) => n)
  {
    assert [e][..0] == [];
  }

  // What every interleaving keeps

  ghost predicate Bounded(s: State) {
    && |s.queue| <= QUEUE_DEPTH
    && |s.ring| <= MAX_BACKLOG
    && |s.batch| <= (if s.phase.Filling? then MAX_BATCH else MAX_BATCH + 1)
    && (s.phase.Idle? <==> s.batch == [])
  }

  /** Accepted lines are committed in the order they were accepted, none twice, none lost. */
  ghost predicate Fifo(s: State) {
    s.accepted == LinesOf(s.committed) + LinesOf(Held(s)) + s.queue
  }

  /** Every push is accounted for: accepted, counted as dropped, or in a notice of drops. */
  ghost predicate Conserved(s: State) {
    s.pushed == |s.accepted| + s.dropped + NoticeSum(s.committed) + NoticeSum(Held(s))
  }

  ghost predicate RingIsTail(s: State) {
    s.ring == Last(s.committed, MAX_BACKLOG)
  }

  /** After the ring was extended and before the batch is cleared, the batch is its newest part. */
  ghost predicate BatchIsNewest(s: State) {
    s.phase.Locked? || s.phase.Decided? ==>
      |s.batch| <= |s.committed| && s.committed[|s.committed| - |s.batch|..] == s.batch
  }

  ghost predicate Inv(s: State) {
    Bounded(s) && Fifo(s) && Conserved(s) && RingIsTail(s) && BatchIsNewest(s)
  }

  /** The batch gains an entry, which may come from the queue. */
  lemma BatchGains(batch: seq<Entry>, e: Entry)
    ensures LinesOf(batch + [e]) == LinesOf(batch) + (match e case Line(text) => [text] case Notice(_) => [])
    ensures NoticeSum(batch + [e]) == NoticeSum(batch) + (match e case Line(_) => 0 case Notice(n) => n)
  {
    LinesOfJoin(batch, [e]);
    LinesOfOne(e);
  }

  lemma HeadMoves(done: seq<string>, held: seq<string>, queue: seq<string>)
    requires queue != []
    ensures done + held + queue == done + (held + [queue[0]]) + queue[1..]
  {
    assert queue == [queue[0]] + queue[1..];
  }

  lemma ReaderKeepsFifo(s: State, a: Action)
    requires a.Receive? || a.Fill?
    requires Enabled(s, a) && Inv(s)
    ensures Fifo(Step(s, a)) && Conserved(Step(s, a))
  {
    NothingHeld();
    LinesOfOne(Line(s.queue[0]));
    BatchGains(s.batch, Line(s.queue[0]));
    hide LinesOf, NoticeSum, Last, RingIsTail, BatchIsNewest, Range, BatchIndices;
    HeadMoves(LinesOf(s.committed), LinesOf(Held(s)), s.queue);
    assert [] + [s.queue[0]] == [s.queue[0]];
  }

  lemma CommitterKeepsFifo(s: State, a: Action)
    requires a.TakeDropped? || a.Extend?
    requires Enabled(s, a) && Inv(s)
    ensures Fifo(Step(s, a)) && Conserved(Step(s, a))
  {
    NothingHeld();
    BatchGains(s.batch, Notice(s.dropped));
    LinesOfJoin(s.committed, s.batch);
    hide LinesOf, NoticeSum, Last, RingIsTail, BatchIsNewest, Range, BatchIndices;
    assert LinesOf(s.batch) + [] == LinesOf(s.batch);
    assert LinesOf(s.committed) + LinesOf(s.batch) + [] == LinesOf(s.committed) + LinesOf(s.batch);
  }

  lemma PushKeepsFifo(s: State, line: string)
    requires Inv(s)
    ensures Fifo(Step(s, Push(line))) && Conserved(Step(s, Push(line)))
  {
    hide LinesOf, NoticeSum, Last, RingIsTail, BatchIsNewest;
    var done := LinesOf(s.committed) + LinesOf(Held(s));
    assert done + s.queue + [line] == done + (s.queue + [line]);
  }

  lemma OthersKeepFifo(s: State, a: Action)
    requires !a.Push? && !a.Receive? && !a.Fill? && !a.TakeDropped? && !a.Extend?
    requires Enabled(s, a) && Inv(s)
    ensures Fifo(Step(s, a)) && Conserved(Step(s, a))
  {
    hide LinesOf, NoticeSum, Last, RingIsTail, BatchIsNewest, Range, BatchIndices;
  }

  lemma StepKeepsFifo(s: State, a: Action)
    requires Enabled(s, a) && Inv(s)
    ensures Fifo(Step(s, a)) && Conserved(Step(s, a))
  {
    hide Step, Inv, Fifo, Conserved;
    match a
    case Push(line) => PushKeepsFifo(s, line);
    case Receive => ReaderKeepsFifo(s, a);
    case Fill => ReaderKeepsFifo(s, a);
    case TakeDropped => CommitterKeepsFifo(s, a);
    case Extend => CommitterKeepsFifo(s, a);
    case _ => OthersKeepFifo(s, a);
  }

  lemma NothingHeld()
    ensures LinesOf([]) == [] && NoticeSum([]) == 0
  {
  }

  lemma InitKeepsInv(connected: bool)
    ensures Inv(Init(connected))
  {
    NothingHeld();
  }

  /** The parts of the invariant, by name. */
  lemma InvMeans(s: State)
    requires Inv(s)
    ensures s.pushed == |s.accepted| + s.dropped + NoticeSum(s.committed) + NoticeSum(Held(s))
    ensures s.accepted == LinesOf(s.committed) + LinesOf(Held(s)) + s.queue
    ensures s.ring == Last(s.committed, MAX_BACKLOG) && |s.ring| <= MAX_BACKLOG
    ensures !s.phase.Idle? ==> s.batch != []
  {
  }

  lemma LastOfJoin<T>(a: seq<T>, b: seq<T>, n: nat)
    ensures Last(Last(a, n) + b, n) == Last(a + b, n)
  {
  }

  lemma LastOfOneMore<T>(s: seq<T>, x: T, n: nat)
    requires n > 0
    ensures Last(s + [x], n) == (if |Last(s, n)| >= n then Last(s, n)[1..] else Last(s, n)) + [x]
  {
  }

  lemma StepKeepsRing(s: State, a: Action)
    requires Enabled(s, a) && RingIsTail(s)
    ensures RingIsTail(Step(s, a))
  {
    hide Last, Range, BatchIndices;
    if a.Extend? {
      LastOfJoin(s.committed, s.batch, MAX_BACKLOG);
    }
  }

  lemma StepKeepsNewest(s: State, a: Action)
    requires Enabled(s, a) && BatchIsNewest(s)
    ensures BatchIsNewest(Step(s, a))
  {
    hide Last, Range, BatchIndices;
  }

  lemma StepKeepsBounds(s: State, a: Action)
    requires Enabled(s, a) && Bounded(s)
    ensures Bounded(Step(s, a))
  {
    hide Range, BatchIndices;
  }

  lemma StepKeepsInv(s: State, a: Action)
    requires Enabled(s, a) && Inv(s)
    ensures Inv(Step(s, a))
  {
    hide Step, Bounded, Fifo, Conserved, RingIsTail, BatchIsNewest;
    StepKeepsFifo(s, a);
    StepKeepsRing(s, a);
    StepKeepsNewest(s, a);
    StepKeepsBounds(s, a);
  }

  /** Conservation, order and bounds hold after every interleaving of producers, writer and panel. */
  lemma {:induction false} EveryRunKeepsInv(connected: bool, actions: seq<Action>)
    ensures Inv(Exec(Init(connected), actions))
  {
    if actions != [] {
      var last := |actions| - 1;
      EveryRunKeepsInv(connected, actions[..last]);
      var before := Exec(Init(connected), actions[..last]);
      if Enabled(before, actions[last]) {
        StepKeepsInv(before, actions[last]);
      }
    }
  }

  /** Lines pushed = lines queued + lines in the writer's hands + lines committed + the pending drop
      counter + the counts in the drop notices, after every interleaving. */
  lemma LogConservation(connected: bool, actions: seq<Action>)
    ensures var s := Exec(Init(connected), actions);
            s.pushed == |s.queue| + |LinesOf(Held(s))| + |LinesOf(s.committed)|
                      + s.dropped + NoticeSum(s.committed) + NoticeSum(Held(s))
  {
    EveryRunKeepsInv(connected, actions);
  }

  // The panel loses nothing

  /** How many committed entries have had their emission decided. */
  function Settled(s: State): nat {
    if s.phase.Locked? && |s.batch| <= |s.committed| then |s.committed| - |s.batch| else |s.committed|
  }

  /** Positions decided for emission and not emitted yet. */
  function Pending(s: State): seq<nat> {
    if s.phase == Decided(true) then BatchIndices(s) else []
  }

  predicate NoDisarm(actions: seq<Action>) {
    SetStreaming(false) !in actions
  }

  lemma {:induction false} RangeJoin(a: nat, b: nat, c: nat)
    requires a <= b <= c
    ensures Range(a, b) + Range(b, c) == Range(a, c)
  {
    if b < c {
      RangeJoin(a, b, c - 1);
    }
  }

  lemma RangeEmpty(a: nat)
    ensures Range(a, a) == []
  {
  }

  lemma AttachStays(s: State, a: Action)
    requires Enabled(s, a) && s.attached
    ensures Step(s, a).attached
  {
  }

  /** While the stream stays armed, each step settles committed entries and decides exactly those
      for emission; what is pending or emitted together grows by the same positions. */
  lemma ArmedStep(s: State, a: Action, from: nat)
    requires Enabled(s, a) && Inv(s) && s.streaming && a != SetStreaming(false) && from <= Settled(s)
    ensures var next := Step(s, a);
            && next.streaming && Settled(s) <= Settled(next)
            && next.decided == s.decided + Range(Settled(s), Settled(next))
            && (s.attached ==> next.emitted + Pending(next) == s.emitted + Pending(s) + Range(Settled(s), Settled(next)))
  {
    var next := Step(s, a);
    assert s.decided + [] == s.decided && s.emitted + [] == s.emitted;
    if !a.Decide? {
      assert Settled(next) == Settled(s);
      assert s.emitted + Pending(s) + [] == s.emitted + Pending(s);
    } else {
      assert BatchIndices(s) == Range(Settled(s), Settled(next)) == Pending(next);
    }
  }

  lemma {:induction false} ArmedRun(s: State, actions: seq<Action>)
    requires Inv(s) && s.streaming && NoDisarm(actions)
    ensures var end := Exec(s, actions);
            && Inv(end) && end.streaming && (s.attached ==> end.attached) && Settled(s) <= Settled(end)
            && end.decided == s.decided + Range(Settled(s), Settled(end))
            && (s.attached ==> end.emitted + Pending(end) == s.emitted + Pending(s) + Range(Settled(s), Settled(end)))
  {
    hide Inv, Step, Range, Settled, Pending;
    RangeEmpty(Settled(s));
    if actions == [] {
      assert s.decided + [] == s.decided;
      assert s.emitted + Pending(s) + [] == s.emitted + Pending(s);
    } else {
      var last := |actions| - 1;
      ArmedRun(s, actions[..last]);
      var before := Exec(s, actions[..last]);
      if Enabled(before, actions[last]) {
        ArmedStep(before, actions[last], Settled(s));
        if before.attached { AttachStays(before, actions[last]); }
        StepKeepsInv(before, actions[last]);
        var end := Step(before, actions[last]);
        RangeJoin(Settled(s), Settled(before), Settled(end));
        var r1, r2 := Range(Settled(s), Settled(before)), Range(Settled(before), Settled(end));
        assert s.decided + r1 + r2 == s.decided + (r1 + r2);
        assert s.emitted + Pending(s) + r1 + r2 == s.emitted + Pending(s) + (r1 + r2);
      }
    }
  }

  /** The panel loses nothing: in every interleaving, arming and copying the ring gives the last
      2000 entries committed so far, and from then on, as long as nobody disarms, every entry
      committed later is decided for emission, once and in order. With the app attached, what has
      been emitted since (plus the batch in the writer's hands) is whatever was already pending
      when the panel armed, followed by exactly those entries. */
  lemma PanelLosesNothing(connected: bool, before: seq<Action>, after: seq<Action>)
    requires Enabled(Exec(Init(connected), before), Arm) && NoDisarm(after)
    ensures var s := Exec(Init(connected), before);
            var end := Exec(Step(s, Arm), after);
            && s.ring == Last(s.committed, MAX_BACKLOG)
            && s.committed <= end.committed
            && end.decided == s.decided + Range(|s.committed|, Settled(end))
            && (s.attached ==> end.emitted + Pending(end) == s.emitted + Pending(s) + Range(|s.committed|, Settled(end)))
  {
    hide Exec, Init, Step, Pending, Settled, Range, Last;
    EveryRunKeepsInv(connected, before);
    var s := Exec(Init(connected), before);
    StepKeepsInv(s, Arm);
    Armed(s);
    ArmedRun(Step(s, Arm), after);
    CommittedGrows(Step(s, Arm), after);
  }

  /** Arming touches nothing but the flag. */
  lemma Armed(s: State)
    requires Enabled(s, Arm)
    ensures var t := Step(s, Arm);
            && t == s.(streaming := true) && Pending(t) == Pending(s) && Settled(t) == |s.committed|
  {
  }

  lemma {:induction false} CommittedGrows(s: State, actions: seq<Action>)
    ensures s.committed <= Exec(s, actions).committed
  {
    if actions != [] {
      CommittedGrows(s, actions[..|actions| - 1]);
    }
  }

  lemma {:induction false} RangeMembers(from: nat, to: nat, x: nat)
    ensures x in Range(from, to) <==> from <= x < to
  {
    if from < to { RangeMembers(from, to - 1, x); }
  }

  /** An entry the panel could show twice: copied from the ring when it armed, emitted later. */
  ghost predicate ShownTwice(s: State, after: seq<Action>, x: nat)
    requires Enabled(s, Arm)
  {
    var end := Exec(Step(s, Arm), after);
    && |s.committed| - |s.ring| <= x < |s.committed|
    && |s.emitted| <= |end.emitted| && x in end.emitted[|s.emitted|..]
  }

  /** The panel can be shown an entry twice exactly when it armed while a batch decided for
      emission was still unemitted, whether an app is attached yet or not. */
  lemma DuplicatesIffPending(connected: bool, before: seq<Action>)
    requires Enabled(Exec(Init(connected), before), Arm)
    ensures var s := Exec(Init(connected), before);
            (exists after, x :: NoDisarm(after) && ShownTwice(s, after, x)) <==> s.phase == Decided(true)
  {
    EveryRunKeepsInv(connected, before);
    var s := Exec(Init(connected), before);
    if s.phase == Decided(true) {
      PendingIsShownTwice(s);
    } else {
      forall after, x ensures !ShownTwice(s, after, x) {
        NothingShownTwice(s, after, x);
      }
    }
  }

  lemma NothingShownTwice(s: State, after: seq<Action>, x: nat)
    requires Inv(s) && Enabled(s, Arm) && s.phase != Decided(true)
    ensures !ShownTwice(s, after, x)
  {
    hide Inv, Exec, Step;
    EmissionsAreLater(s, after);
  }

  /** What is emitted after arming, and what is waiting to be, was committed after arming. */
  ghost predicate OnlyLater(s: State, end: State) {
    && s.emitted <= end.emitted && |s.committed| <= |end.committed|
    && (forall k | |s.emitted| <= k < |end.emitted| :: end.emitted[k] >= |s.committed|)
    && (end.phase.Locked? || end.phase == Decided(true) ==> |end.committed| - |end.batch| >= |s.committed|)
  }

  lemma {:induction false} EmissionsAreLater(s: State, after: seq<Action>)
    requires Inv(s) && Enabled(s, Arm) && s.phase != Decided(true)
    ensures Inv(Exec(Step(s, Arm), after)) && OnlyLater(s, Exec(Step(s, Arm), after))
  {
    hide Inv, OnlyLater, Step;
    if after == [] {
      StepKeepsInv(s, Arm);
      NothingEmittedYet(s);
    } else {
      var last := |after| - 1;
      EmissionsAreLater(s, after[..last]);
      var before := Exec(Step(s, Arm), after[..last]);
      if Enabled(before, after[last]) {
        StepKeepsInv(before, after[last]);
        StepStaysLater(s, before, after[last]);
      }
    }
  }

  lemma NothingEmittedYet(s: State)
    requires Enabled(s, Arm) && s.phase != Decided(true)
    ensures OnlyLater(s, Step(s, Arm))
  {
  }

  lemma StepStaysLater(s: State, end: State, a: Action)
    requires Inv(end) && OnlyLater(s, end) && Enabled(end, a)
    ensures OnlyLater(s, Step(end, a))
  {
    hide LinesOf, NoticeSum, Last, Range;
    if a == Emit && end.phase.emit {
      var indices := BatchIndices(end);
      forall k | 0 <= k < |indices| ensures indices[k] >= |s.committed| {
        RangeMembers(|end.committed| - |end.batch|, |end.committed|, indices[k]);
      }
    }
  }

  lemma PendingIsShownTwice(s: State)
    requires Inv(s) && s.phase == Decided(true)
    ensures NoDisarm([Attach, Emit]) && ShownTwice(s, [Attach, Emit], |s.committed| - 1)
  {
    hide LinesOf, NoticeSum, Fifo, Conserved;
    var armed, x := Step(s, Arm), |s.committed| - 1;
    var attached := Step(armed, Attach);
    assert [Attach, Emit][..1] == [Attach] && [Attach][..0] == [];
    assert Exec(armed, []) == armed;
    assert Exec(armed, [Attach]) == attached;
    assert Exec(armed, [Attach, Emit]) == Step(attached, Emit);
    RangeMembers(|s.committed| - |s.batch|, |s.committed|, x);
    assert (s.emitted + BatchIndices(s))[|s.emitted|..] == BatchIndices(s);
  }

  // Nothing is shown that nobody asked for

  predicate NeverArms(actions: seq<Action>) {
    Arm !in actions && SetStreaming(true) !in actions
  }

  lemma DisarmedStep(s: State, a: Action)
    requires Enabled(s, a) && !s.streaming && a != Arm && a != SetStreaming(true)
    ensures var next := Step(s, a);
            !next.streaming && next.decided == s.decided && next.emitted + Pending(next) <= s.emitted + Pending(s)
  {
    hide Last, Range;
    var next := Step(s, a);
    if a.Emit? {
      assert Pending(next) == [];
    } else {
      assert Pending(next) == Pending(s);
    }
  }

  /** While the stream is not armed nothing is decided for emission, whoever pushes, attaches or
      disarms again; what is emitted was decided before. */
  lemma {:induction false} DisarmedRun(s: State, actions: seq<Action>)
    requires !s.streaming && NeverArms(actions)
    ensures var end := Exec(s, actions);
            !end.streaming && end.decided == s.decided && end.emitted + Pending(end) <= s.emitted + Pending(s)
  {
    hide Step, Pending;
    if actions != [] {
      var last := |actions| - 1;
      DisarmedRun(s, actions[..last]);
      var before := Exec(s, actions[..last]);
      if Enabled(before, actions[last]) {
        DisarmedStep(before, actions[last]);
      }
    }
  }

  /** With no panel ever opened nothing is decided or emitted, in any interleaving. */
  lemma UnopenedIsSilent(connected: bool, actions: seq<Action>)
    requires NeverArms(actions)
    ensures var s := Exec(Init(connected), actions); s.decided == [] && s.emitted == []
  {
    hide Exec;
    DisarmedRun(Init(connected), actions);
  }

  /** Once the panel is closed only the batch already decided for emission is still emitted. */
  lemma ClosedIsSilent(s: State, after: seq<Action>)
    requires NeverArms(after)
    ensures var end := Exec(Step(s, SetStreaming(false)), after);
            end.decided == s.decided && end.emitted + Pending(end) <= s.emitted + Pending(s)
  {
    hide Exec;
    DisarmedRun(Step(s, SetStreaming(false)), after);
  }

  /** Before there is an app to send events to, nothing is emitted, armed or not. */
  lemma {:induction false} DetachedIsSilent(s: State, actions: seq<Action>)
    requires !s.attached && Attach !in actions
    ensures var end := Exec(s, actions); !end.attached && end.emitted == s.emitted
  {
    if actions != [] {
      hide Last, Range, BatchIndices;
      DetachedIsSilent(s, actions[..|actions| - 1]);
    }
  }

  /** Without a writer thread no line is ever accepted, and every one is counted as dropped. */
  lemma {:induction false} DisconnectedDropsAll(actions: seq<Action>)
    ensures var s := Exec(Init(false), actions);
            !s.connected && s.queue == [] && s.phase == Idle && s.committed == [] && s.accepted == [] && s.dropped == s.pushed
  {
    if actions != [] {
      hide Last, Range, BatchIndices;
      DisconnectedDropsAll(actions[..|actions| - 1]);
    }
  }
}
