/** The bus as the host runs it: the queue, the writer's batch and the ring, changed in place. Each
    method is one or more steps of the `LogBus` state machine. */
module LogBusWriter {
  import opened LogBus

  class Bus {
    const connected: bool
    var attached: bool
    var queue: seq<string>
    var batch: seq<Entry>
    var phase: Phase
    var dropped: nat
    var backlog: seq<Entry>
    var streaming: bool
    // what has happened so far
    ghost var pushed: nat
    ghost var accepted: seq<string>
    ghost var committed: seq<Entry>
    ghost var decided: seq<nat>
    ghost var emitted: seq<nat>

    ghost function View(): State
      reads this
    {
      State(connected, attached, queue, batch, phase, dropped, backlog, streaming, pushed, accepted, committed, decided, emitted)
    }

    /** Every push is accounted for, accepted lines commit in order, the ring is the tail of what was
        committed, and nothing is over its bound. */
    ghost predicate Valid()
      reads this
    {
      Inv(View())
    }

    constructor (connected: bool)
      ensures Valid() && View() == Init(connected)
    {
      this.connected := connected;
      attached, streaming := false, false;
      queue, batch, phase, dropped, backlog := [], [], Idle, 0, [];
      pushed, accepted, committed, decided, emitted := 0, [], [], [], [];
      new;
      hide Inv;
      InitKeepsInv(connected);
    }

    /** `push_line`: a send that never waits. The line is the next one to be committed after all that
        were accepted before it, or it is counted; it is never neither. */
    method PushLine(line: string)
      requires Valid()
      modifies this
      ensures View() == Step(old(View()), Push(line))
      ensures Valid() && committed == old(committed)
      ensures if connected && |old(queue)| < QUEUE_DEPTH
              then LinesOf(committed) + LinesOf(Held(View())) + queue == old(accepted) + [line] && dropped == old(dropped)
              else accepted == old(accepted) && dropped == old(dropped) + 1
      ensures |accepted| + dropped + NoticeSum(committed) + NoticeSum(Held(View())) == old(pushed) + 1
    {
      hide Inv, LinesOf, NoticeSum, Held;
      StepKeepsInv(View(), Push(line));
      InvMeans(Step(View(), Push(line)));
      if connected && |queue| < QUEUE_DEPTH {
        queue := queue + [line];
        accepted := accepted + [line];
      } else {
        dropped := dropped + 1;
      }
      pushed := pushed + 1;
    }

    /** The first line of a batch, and then as many as `patience` allows and the queue has. */
    method FillBatch(patience: nat) returns (ghost actions: seq<Action>)
      requires Valid() && Enabled(View(), Receive)
      modifies this
      ensures Valid() && batch != [] && committed == old(committed) && accepted == old(accepted)
      ensures View() == Exec(old(View()), actions)
      ensures phase == Filling && forall k | 0 <= k < |actions| :: actions[k] == Receive || actions[k] == Fill
    {
      hide Inv;
      batch, queue, phase := [Line(queue[0])], queue[1..], Filling;
      actions := [Receive];
      assert [Receive][..0] == [];
      assert Exec(old(View()), [Receive][..0]) == old(View());
      var tries := patience;
      while |batch| < MAX_BATCH && tries > 0 && queue != []
        invariant phase == Filling
        invariant View() == Exec(old(View()), actions)
        invariant forall k | 0 <= k < |actions| :: actions[k] == Receive || actions[k] == Fill
        decreases tries
      {
        ghost var was := actions;
        batch, queue := batch + [Line(queue[0])], queue[1..];
        actions := actions + [Fill];
        assert actions[..|actions| - 1] == was;
        tries := tries - 1;
      }
      RunKeepsInv(old(View()), actions);
      FillingOnly(old(View()), actions);
      InvMeans(View());
    }

    /** The drop counter, swapped for zero and put in the batch when it is not zero. */
    method ReportDropped()
      requires Valid() && Enabled(View(), TakeDropped)
      modifies this
      ensures View() == Step(old(View()), TakeDropped)
      ensures Valid() && dropped == 0 && NoticeSum(batch) == NoticeSum(old(batch)) + old(dropped)
      ensures batch == if old(dropped) > 0 then old(batch) + [Notice(old(dropped))] else old(batch)
    {
      hide Inv, LinesOf, NoticeSum;
      StepKeepsInv(View(), TakeDropped);
      BatchGains(batch, Notice(dropped));
      var count := dropped;
      dropped := 0;
      if count > 0 {
        batch := batch + [Notice(count)];
      }
      phase := Ready;
    }

    /** The loop of `commit`, under the ring's lock: one line in, and the oldest out when full. */
    method ExtendRing()
      requires Valid() && Enabled(View(), Extend)
      modifies this
      ensures View() == Step(old(View()), Extend)
      ensures Valid() && committed == old(committed) + batch && backlog == Last(committed, MAX_BACKLOG)
    {
      hide Inv, LinesOf, NoticeSum;
      InvMeans(View());
      StepKeepsInv(View(), Extend);
      InvMeans(Step(View(), Extend));
      assert old(backlog) + batch[..0] == old(backlog);
      for i := 0 to |batch|
        modifies this`backlog
        invariant backlog == Last(old(backlog) + batch[..i], MAX_BACKLOG)
      {
        assert old(backlog) + batch[..i + 1] == old(backlog) + batch[..i] + [batch[i]];
        LastOfOneMore(old(backlog) + batch[..i], batch[i], MAX_BACKLOG);
        if |backlog| >= MAX_BACKLOG {
          backlog := backlog[1..];
        }
        backlog := backlog + [batch[i]];
      }
      assert batch[..|batch|] == batch;
      committed := committed + batch;
      phase := Locked;
    }

    /** `commit`: extend the ring and read the flag in one critical section. Whether the stream was
        disarmed inside it, which takes no lock, is `disarmed`. */
    method Commit(disarmed: bool) returns (emit: bool)
      requires Valid() && Enabled(View(), Extend)
      modifies this
      ensures Valid() && committed == old(committed) + old(batch) && backlog == Last(committed, MAX_BACKLOG)
      ensures var extended := Step(old(View()), Extend);
              var seen := if disarmed then Step(extended, SetStreaming(false)) else extended;
              View() == Step(seen, Decide) && emit == seen.streaming
      ensures phase == Decided(emit) && emit == (old(streaming) && !disarmed)
    {
      hide Inv, LinesOf, NoticeSum, Last;
      ExtendRing();
      if disarmed {
        SetLogStreaming(false);
      }
      StepKeepsInv(View(), Decide);
      emit := streaming;
      if emit {
        decided := decided + BatchIndices(View());
      }
      phase := Decided(emit);
    }

    /** The event to the panel, when there is an app to send it, and the end of the pass. */
    method EmitBatch()
      requires Valid() && Enabled(View(), Emit)
      modifies this
      ensures View() == Step(old(View()), Emit)
      ensures Valid() && phase == Idle && committed == old(committed)
    {
      hide Inv;
      StepKeepsInv(View(), Emit);
      if phase.emit && attached {
        emitted := emitted + BatchIndices(View());
      }
      batch := [];
      phase := Idle;
    }

    /** `arm_and_snapshot`: set the flag and copy the ring in one critical section. The panel gets the
        last 2000 of all that was ever committed, and from this moment everything else is streamed. */
    method ArmAndSnapshot() returns (snapshot: seq<Entry>)
      requires Valid() && Enabled(View(), Arm)
      modifies this
      ensures View() == Step(old(View()), Arm)
      ensures Valid() && streaming && committed == old(committed) && snapshot == Last(committed, MAX_BACKLOG)
    {
      hide Inv, Last;
      InvMeans(View());
      StepKeepsInv(View(), Arm);
      streaming := true;
      return backlog;
    }

    /** `backlog_snapshot`: the same copy without the arming. */
    method BacklogSnapshot() returns (snapshot: seq<Entry>)
      requires Valid() && !phase.Locked?
      ensures snapshot == Last(committed, MAX_BACKLOG)
    {
      InvMeans(View());
      return backlog;
    }

    /** `set_log_streaming`: no lock is taken. */
    method SetLogStreaming(on: bool)
      requires Valid()
      modifies this
      ensures Valid() && View() == Step(old(View()), SetStreaming(on))
    {
      hide Inv;
      StepKeepsInv(View(), SetStreaming(on));
      streaming := on;
    }

    method AttachApp()
      requires Valid()
      modifies this
      ensures Valid() && View() == Step(old(View()), Attach)
    {
      hide Inv;
      StepKeepsInv(View(), Attach);
      attached := true;
    }
  }

  /** A pass of the writer with nobody else running leaves the bus idle, with the whole queue prefix
      it took in the ring. */
  method WriterPass(bus: Bus, patience: nat)
    requires bus.Valid() && Enabled(bus.View(), Receive)
    modifies bus
    ensures bus.Valid() && bus.phase == Idle
    ensures old(bus.committed) < bus.committed && bus.backlog == Last(bus.committed, MAX_BACKLOG)
    ensures bus.dropped == 0 && bus.accepted == old(bus.accepted) == LinesOf(bus.committed) + bus.queue
  {
    hide Last, LinesOf, NoticeSum, Range, BatchIndices;
    var actions := bus.FillBatch(patience);
    bus.ReportDropped();
    var emit := bus.Commit(false);
    bus.EmitBatch();
    NothingHeld();
    assert LinesOf(bus.committed) + [] == LinesOf(bus.committed);
  }

  lemma {:induction false} RunKeepsInv(s: State, actions: seq<Action>)
    requires Inv(s)
    ensures Inv(Exec(s, actions))
  {
    hide Inv, Step;
    if actions != [] {
      var last := |actions| - 1;
      RunKeepsInv(s, actions[..last]);
      var before := Exec(s, actions[..last]);
      if Enabled(before, actions[last]) {
        StepKeepsInv(before, actions[last]);
      }
    }
  }

  lemma {:induction false} FillingOnly(s: State, actions: seq<Action>)
    requires forall k | 0 <= k < |actions| :: actions[k] == Receive || actions[k] == Fill
    ensures var end := Exec(s, actions); end.accepted == s.accepted && end.committed == s.committed
  {
    if actions != [] {
      FillingOnly(s, actions[..|actions| - 1]);
    }
  }
}
