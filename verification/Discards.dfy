/** What `resetState` discards without freeing it: exactly when it can, that it stays allocated for good, and how
    much memory that comes to. */
module Discards {
  import opened Config
  import opened FrameParser
  import opened Ownership
  import opened Pipeline
  import opened PipelineSafety
  import opened PipelineRuns
  import opened ShortFrame

  // ---- All of memory ----

  /** Two full queues, four buffers in hand, and one for each serial timeout there has been. */
  lemma {:induction false} TotalMemoryIsBounded(labels: seq<Label>)
    ensures |Exec(INIT, labels).live| <= CMD_QUEUE_SIZE + TX_QUEUE_SIZE + 4 + Timeouts(labels)
  {
    hide Exec;
    var s := Exec(INIT, labels);
    var discarded := Pointed(s.live, s.lostPackets, Points);
    MemoryIsBounded(labels);
    ResetLosses(labels);
    PointedBound(s.live, s.lostPackets, Points);
    UnionBound(s.live - discarded, discarded);
    assert s.live == (s.live - discarded) + discarded;
  }

  lemma LostGrow(s: State, l: Label)
    ensures s.lostPackets <= Next(s, l).lostPackets
  {
    hide RxStep, ProcessStep, TransmitStep, Emit, Step;
    RxLostGrow(s);
    ProcessLeavesRx(s);
    TransmitLeavesRx(s);
  }

  lemma RxLostGrow(s: State)
    ensures s.lostPackets <= RxStep(s).lostPackets
  {
  }

  lemma {:induction false} LostOnlyGrow(s: State, labels: seq<Label>)
    ensures s.lostPackets <= Exec(s, labels).lostPackets
    decreases |labels|
  {
    hide Next;
    if labels != [] {
      LostOnlyGrow(s, labels[..|labels| - 1]);
      LostGrow(Exec(s, labels[..|labels| - 1]), labels[|labels| - 1]);
    }
  }

  /** A discarded packet is never freed, however the run goes on, and nothing else points to it. */
  lemma {:induction false} DiscardedForGood(labels: seq<Label>, more: seq<Label>, i: nat)
    requires i < |Exec(INIT, labels).lostPackets|
    ensures var s, t := Exec(INIT, labels), Exec(INIT, labels + more);
            var a := s.lostPackets[i].payload;
            && s.lostPackets <= t.lostPackets
            && a in t.live && a < |t.memory| && Held(t.lostPackets, Points, a) == Places(t, a) == 1
  {
    hide Next;
    var s, t := Exec(INIT, labels), Exec(INIT, labels + more);
    ExecAppend(INIT, labels, more);
    LostOnlyGrow(s, more);
    RunInvariant(labels + more);
    HeldHere(t.lostPackets, i, Points, s.lostPackets[i].payload);
    assert Accounted(t, s.lostPackets[i].payload);
  }

  // ---- When a packet can be discarded ----

  /** A stretch of a run inside one call of `resetState`. */
  predicate Inside(s: State, labels: seq<Label>) {
    forall k :: 0 <= k < |labels| ==> Resetting(Exec(s, labels[..k]))
  }

  /** The call returns, having discarded one packet. */
  predicate ReturnsDiscarding(s: State, during: seq<Label>) {
    var t := Exec(s, during);
    Inside(s, during) && t.rxAt.Listening? && |t.lostPackets| == |s.lostPackets| + 1
  }

  /** The packets that can still come to `_txQueue`: from the process task's hand and from `_cmdQueue`. */
  function Upstream(s: State): seq<seq<byte>> {
    ProcessHand(s.memory, s.processAt) + Relay(Contents(s.memory, s.cmdQueue))
  }

  lemma {:induction false} Chain(s: State, a: seq<Label>, b: seq<Label>)
    requires Inside(s, a) && Inside(Exec(s, a), b)
    ensures Inside(s, a + b) && Exec(s, a + b) == Exec(Exec(s, a), b)
  {
    hide Exec, Resetting;
    ExecAppend(s, a, b);
    forall k | 0 <= k < |a + b| ensures Resetting(Exec(s, (a + b)[..k])) {
      if k < |a| {
        assert (a + b)[..k] == a[..k];
      } else {
        assert (a + b)[..k] == a + b[..k - |a|];
        ExecAppend(s, a, b[..k - |a|]);
      }
    }
  }

  lemma InsideOne(s: State, l: Label)
    requires Resetting(s)
    ensures Inside(s, [l]) && Exec(s, [l]) == Next(s, l)
  {
    assert [l][..0] == [];
  }

  // Nothing upstream: nothing is discarded.

  /** No packet can come to `_txQueue` any more, and once that was seen empty it is. */
  predicate Dry(s: State) {
    Resetting(s) && Upstream(s) == [] && (Stage(s.rxAt) <= 2 ==> s.txQueue == [])
  }

  lemma HeadUpstream(s: State)
    requires s.cmdQueue != []
    ensures Relay(Contents(s.memory, s.cmdQueue))
            == RelayOne(At(s.memory, s.cmdQueue[0])) + Relay(Contents(s.memory, s.cmdQueue[1..]))
  {
    ContentsPop(s.memory, s.cmdQueue);
    RelayHead(Contents(s.memory, s.cmdQueue));
  }

  lemma DryTakeCommand(s: State)
    requires Dry(s) && s.rxAt.DrainingCommands?
    ensures RxStep(s).lostPackets == s.lostPackets && Dry(RxStep(s))
  {
    hide ProcessHand, Relay, Contents, RelayOne;
    if s.cmdQueue != [] {
      HeadUpstream(s);
    }
  }

  lemma DryTakePacket(s: State)
    requires Dry(s) && s.rxAt.DrainingPackets?
    ensures RxStep(s).lostPackets == s.lostPackets && Dry(RxStep(s))
  {
    hide ProcessHand, Relay, Contents;
  }

  lemma DryFree(s: State)
    requires Dry(s) && (s.rxAt.FreeingCommand? || s.rxAt.FreeingPacket?)
    ensures RxStep(s).lostPackets == s.lostPackets && Dry(RxStep(s))
  {
    hide ProcessHand, Relay, Contents;
  }

  lemma DryReset(s: State)
    requires Dry(s) && (s.rxAt.ResettingCommands? || s.rxAt.ResettingPackets?)
    ensures RxStep(s).lostPackets == s.lostPackets && (Dry(RxStep(s)) || RxStep(s).rxAt.Listening?)
  {
    assert Relay(Contents(s.memory, [])) == [];
    hide ProcessHand, Relay, Contents;
  }

  lemma DryRx(s: State)
    requires Dry(s)
    ensures RxStep(s).lostPackets == s.lostPackets && (Dry(RxStep(s)) || RxStep(s).rxAt.Listening?)
  {
    hide RxStep, Upstream;
    match s.rxAt {
      case FreeingCommand(_) => DryFree(s);
      case FreeingPacket(_) => DryFree(s);
      case ResettingCommands => DryReset(s);
      case ResettingPackets => DryReset(s);
      case DrainingPackets => DryTakePacket(s);
      case _ => DryTakeCommand(s);
    }
  }

  lemma DryProcess(s: State)
    requires Dry(s)
    ensures ProcessStep(s).lostPackets == s.lostPackets && Dry(ProcessStep(s))
  {
    ProcessLeavesRx(s);
    DryHand(s);
    if s.processAt.Processing? {
      DryRead(s);
    } else if s.processAt.Waiting? && s.cmdQueue == [] {
      assert ProcessStep(s) == s;
    } else {
      hide ProcessStep, Upstream;
      MoveKeepsUpstream(s);
    }
  }

  lemma DryHand(s: State)
    requires Dry(s)
    ensures !s.processAt.SendingPacket?
  {
  }

  lemma DryRead(s: State)
    requires Dry(s) && s.processAt.Processing?
    ensures Dry(ProcessStep(s))
  {
    hide Relay, Contents;
  }

  lemma DryTransmit(s: State)
    requires Dry(s)
    ensures TransmitStep(s).lostPackets == s.lostPackets && Dry(TransmitStep(s))
  {
    hide ProcessHand, Relay, Contents, Readable;
  }

  lemma DryStep(s: State, l: Label)
    requires Dry(s)
    ensures Next(s, l).lostPackets == s.lostPackets && (Dry(Next(s, l)) || Next(s, l).rxAt.Listening?)
  {
    hide RxStep, ProcessStep, TransmitStep;
    match l {
      case RxRun => DryRx(s);
      case ProcessRun => DryProcess(s);
      case TransmitRun => DryTransmit(s);
      case _ =>
    }
  }

  lemma {:induction false} DryRun(s: State, labels: seq<Label>)
    requires Dry(s) && Inside(s, labels)
    ensures var t := Exec(s, labels); t.lostPackets == s.lostPackets && (Dry(t) || t.rxAt.Listening?)
    decreases |labels|
  {
    hide Next;
    if labels != [] {
      var front := labels[..|labels| - 1];
      forall k | 0 <= k < |front| ensures Resetting(Exec(s, front[..k])) {
        assert front[..k] == labels[..k];
      }
      DryRun(s, front);
      assert Resetting(Exec(s, front));
      DryStep(Exec(s, front), labels[|labels| - 1]);
    }
  }

  // Something upstream: there is a run that discards it.

  /** `resetState` takes a command and frees it. */
  lemma DropCommand(s: State) returns (labels: seq<Label>)
    requires Invariant(s) && s.rxAt.DrainingCommands? && s.cmdQueue != []
    ensures Inside(s, labels)
    ensures var t := Exec(s, labels);
            && Invariant(t) && t.rxAt.DrainingCommands? && t.cmdQueue == s.cmdQueue[1..]
            && t.processAt == s.processAt && t.memory == s.memory && t.lostPackets == s.lostPackets
  {
    TakeAndFree(s);
    var s1 := Next(s, RxRun);
    NextInvariant(s, RxRun);
    NextInvariant(s1, RxRun);
    hide Invariant, Exec, Inside, Next;
    InsideOne(s, RxRun);
    InsideOne(s1, RxRun);
    Chain(s, [RxRun], [RxRun]);
    labels := [RxRun] + [RxRun];
  }

  lemma TakeAndFree(s: State)
    requires s.rxAt.DrainingCommands? && s.cmdQueue != []
    ensures var t := Next(Next(s, RxRun), RxRun);
            && Resetting(Next(s, RxRun)) && t.rxAt.DrainingCommands? && t.cmdQueue == s.cmdQueue[1..]
            && t.processAt == s.processAt && t.memory == s.memory && t.lostPackets == s.lostPackets
  {
  }

  /** How far the process task is from its next command. */
  function Rank(at: ProcessAt): nat {
    match at
    case Waiting => 0
    case FreeingProcessed(_) => 1
    case DroppingPacket(_, _) => 2
    case SendingPacket(_, _) => 3
    case Processing(_) => 4
  }

  lemma WorkOn(s: State)
    requires Invariant(s) && s.rxAt.DrainingCommands? && !s.processAt.SendingPacket?
    requires s.processAt.Waiting? ==> s.cmdQueue != []
    ensures var t := Next(s, ProcessRun);
            && Invariant(t) && t.rxAt.DrainingCommands? && t.lostPackets == s.lostPackets
            && Upstream(t) == Upstream(s) && |t.cmdQueue| <= |s.cmdQueue|
            && (if s.processAt.Waiting? then |t.cmdQueue| < |s.cmdQueue| else Rank(t.processAt) < Rank(s.processAt))
  {
    NextInvariant(s, ProcessRun);
    ProcessLeavesRx(s);
    HandsAreReadable(s);
    hide ProcessStep, Upstream, Safe, Ordered, ResetContained, Readable;
    if s.processAt.Processing? {
      ReadKeepsUpstream(s);
    } else {
      MoveKeepsUpstream(s);
    }
  }

  lemma MoveKeepsUpstream(s: State)
    requires !s.processAt.Processing? && !s.processAt.SendingPacket?
    requires s.processAt.Waiting? ==> s.cmdQueue != []
    ensures var t := ProcessStep(s);
            && Upstream(t) == Upstream(s) && t.txQueue == s.txQueue
            && (if s.processAt.Waiting? then |t.cmdQueue| < |s.cmdQueue|
                else t.cmdQueue == s.cmdQueue && Rank(t.processAt) < Rank(s.processAt))
  {
    hide Relay, Contents, RelayOne, Delete;
    if s.processAt.Waiting? {
      HeadUpstream(s);
    } else {
      DeleteKeepsUpstream(s);
    }
  }

  lemma DeleteKeepsUpstream(s: State)
    ensures forall cmd :: var t := Delete(s, cmd);
                          t.memory == s.memory && t.cmdQueue == s.cmdQueue && t.txQueue == s.txQueue
  {
  }

  lemma ReadKeepsUpstream(s: State)
    requires WellFormed(s) && s.processAt.Processing? && Readable(s, s.processAt.cmd) && s.processAt.cmd.length > 0
    ensures var t := ProcessStep(s);
            && Upstream(t) == Upstream(s) && t.cmdQueue == s.cmdQueue && Rank(t.processAt) < Rank(s.processAt)
  {
    var t := ProcessStep(s);
    ContentsStable(s.memory, s.memory[s.processAt.cmd.payload][1..], s.cmdQueue);
    assert ProcessHand(t.memory, t.processAt) == ProcessHand(s.memory, s.processAt);
  }

  /** One thing upstream gets into the process task's hand, and `_cmdQueue` empty. */
  lemma {:induction false} TakeInHand(s: State) returns (labels: seq<Label>)
    requires Invariant(s) && s.rxAt.DrainingCommands? && Upstream(s) != []
    ensures Inside(s, labels)
    ensures var t := Exec(s, labels);
            && t.rxAt.DrainingCommands? && t.cmdQueue == [] && t.processAt.SendingPacket?
            && t.lostPackets == s.lostPackets
    decreases |s.cmdQueue|, Rank(s.processAt)
  {
    hide Invariant, Next, Inside, Exec;
    var hand := ProcessHand(s.memory, s.processAt);
    if s.cmdQueue == [] && s.processAt.SendingPacket? {
      labels := [];
      InsideNone(s);
    } else if s.cmdQueue != [] && (hand != [] || RelayOne(At(s.memory, s.cmdQueue[0])) == []) {
      HeadUpstream(s);
      var first := DropCommand(s);
      var rest := TakeInHand(Exec(s, first));
      Chain(s, first, rest);
      labels := first + rest;
    } else {
      NothingQueued(s);
      WorkOn(s);
      InsideOne(s, ProcessRun);
      var rest := TakeInHand(Next(s, ProcessRun));
      Chain(s, [ProcessRun], rest);
      labels := [ProcessRun] + rest;
    }
  }

  lemma InsideNone(s: State)
    ensures Inside(s, []) && Exec(s, []) == s
  {
  }

  lemma NothingQueued(s: State)
    ensures s.cmdQueue == [] && s.processAt.Waiting? ==> Upstream(s) == []
  {
  }

  /** With `_cmdQueue` seen empty, `resetState` drains `_txQueue` while the process task holds on to its packet. */
  lemma {:induction false} DrainAll(s: State) returns (labels: seq<Label>)
    requires s.rxAt.DrainingPackets?
    ensures Inside(s, labels)
    ensures var t := Exec(s, labels);
            t.rxAt.ResettingCommands? && t.txQueue == [] && t.processAt == s.processAt && t.lostPackets == s.lostPackets
    decreases |s.txQueue|
  {
    hide Exec, Inside;
    var s1 := Next(s, RxRun);
    InsideOne(s, RxRun);
    if s.txQueue == [] {
      labels := [RxRun];
    } else {
      InsideOne(s1, RxRun);
      Chain(s, [RxRun], [RxRun]);
      var rest := DrainAll(Next(s1, RxRun));
      Chain(s, [RxRun] + [RxRun], rest);
      labels := [RxRun] + [RxRun] + rest;
    }
  }

  /** Then that packet arrives, between the last look at `_txQueue` and its reset. */
  lemma ArriveTooLate(s: State)
    requires s.rxAt.ResettingCommands? && s.txQueue == [] && s.processAt.SendingPacket?
    ensures ReturnsDiscarding(s, [ProcessRun] + [RxRun] + [RxRun])
  {
    var s1 := Next(s, ProcessRun);
    var s2 := Next(s1, RxRun);
    InsideOne(s, ProcessRun);
    InsideOne(s1, RxRun);
    InsideOne(s2, RxRun);
    Chain(s, [ProcessRun], [RxRun]);
    Chain(s, [ProcessRun] + [RxRun], [RxRun]);
    hide Inside, Exec;
  }

  lemma {:induction false} DiscardOne(s: State) returns (during: seq<Label>)
    requires Invariant(s) && s.rxAt.DrainingCommands? && Upstream(s) != []
    ensures ReturnsDiscarding(s, during)
  {
    var first := TakeInHand(s);
    var s1 := Exec(s, first);
    SeeEmpty(s1);
    hide Inside, Exec, Next, Invariant, Upstream;
    InsideOne(s1, RxRun);
    var rest := DrainAll(Next(s1, RxRun));
    ArriveTooLate(Exec(Next(s1, RxRun), rest));
    Chain(s, first, [RxRun]);
    Chain(s, first + [RxRun], rest);
    Chain(s, first + [RxRun] + rest, [ProcessRun] + [RxRun] + [RxRun]);
    during := first + [RxRun] + rest + ([ProcessRun] + [RxRun] + [RxRun]);
  }

  lemma SeeEmpty(s: State)
    requires s.rxAt.DrainingCommands? && s.cmdQueue == []
    ensures var t := Next(s, RxRun);
            t.rxAt.DrainingPackets? && t.processAt == s.processAt && t.lostPackets == s.lostPackets
  {
  }

  /** A call of `resetState` can discard a packet if and only if, when it begins, the process task holds one or a
      payload that becomes one, or such a payload is in `_cmdQueue`. The same at every later look at `_cmdQueue`. */
  lemma {:induction false} DiscardExactly(before: seq<Label>)
    requires Exec(INIT, before).rxAt.DrainingCommands?
    ensures var s := Exec(INIT, before);
            (exists during :: ReturnsDiscarding(s, during)) <==> Upstream(s) != []
  {
    hide Next, Exec, Inside;
    RunInvariant(before);
    var s := Exec(INIT, before);
    if Upstream(s) != [] {
      var during := DiscardOne(s);
    } else {
      forall during ensures !ReturnsDiscarding(s, during) {
        if ReturnsDiscarding(s, during) {
          DryRun(s, during);
        }
      }
    }
  }

  // ---- It happens, and any number of times ----

  /** A frame comes in; the process task has copied its payload when the serial timeout fires, and queues the copy
      between the last look at `_txQueue` and its reset. */
  const LEAK: seq<Label> :=
    SHORT_FRAME + [RxRun] + [ProcessRun] + [ProcessRun] + [SerialTimeout]
    + [RxRun] + [RxRun] + [ProcessRun] + [RxRun] + [RxRun] + [ProcessRun]

  predicate AtRest(s: State) {
    Quiescent(s) && s.rx.mode.Idle? && s.heard != []
  }

  lemma ResetTooEarly(s: State)
    requires s.rxAt.Listening? && s.cmdQueue == [] && s.txQueue == [] && s.processAt.SendingPacket?
    ensures Next(Next(Next(s, SerialTimeout), RxRun), RxRun)
            == s.(rxAt := ResettingCommands, carried := [At(s.memory, s.processAt.packet)])
  {
  }

  lemma ResetTooLate(s: State)
    requires s.rxAt.ResettingCommands? && s.cmdQueue == [] && s.txQueue == [] && s.processAt.SendingPacket?
    requires s.processAt.cmd.payload in s.live
    ensures Next(Next(Next(Next(s, ProcessRun), RxRun), RxRun), ProcessRun)
            == s.(rxAt := Listening, lostPackets := s.lostPackets + [s.processAt.packet],
                  processAt := Waiting, live := s.live - {s.processAt.cmd.payload})
  {
    assert s.lostCommands + [] == s.lostCommands;
  }

  lemma {:induction false} ExecInvariant(s: State, labels: seq<Label>)
    requires Invariant(s)
    ensures Invariant(Exec(s, labels))
    decreases |labels|
  {
    hide Next, Invariant;
    if labels != [] {
      ExecInvariant(s, labels[..|labels| - 1]);
      NextInvariant(Exec(s, labels[..|labels| - 1]), labels[|labels| - 1]);
    }
  }

  /** `LEAK` as four stretches. */
  lemma LeakStretches(s: State, heard: State, copied: State, early: State)
    requires heard == Next(Exec(s, SHORT_FRAME), RxRun)
    requires copied == Next(Next(heard, ProcessRun), ProcessRun)
    requires early == Next(Next(Next(copied, SerialTimeout), RxRun), RxRun)
    ensures Exec(s, LEAK) == Next(Next(Next(Next(early, ProcessRun), RxRun), RxRun), ProcessRun)
  {
    hide Exec, Next;
    var l1 := SHORT_FRAME + [RxRun];
    var l3 := l1 + [ProcessRun] + [ProcessRun];
    var l6 := l3 + [SerialTimeout] + [RxRun] + [RxRun];
    ExecSnoc(s, SHORT_FRAME, RxRun);
    ExecSnoc(s, l1, ProcessRun);
    ExecSnoc(s, l1 + [ProcessRun], ProcessRun);
    ExecSnoc(s, l3, SerialTimeout);
    ExecSnoc(s, l3 + [SerialTimeout], RxRun);
    ExecSnoc(s, l3 + [SerialTimeout] + [RxRun], RxRun);
    ExecSnoc(s, l6, ProcessRun);
    ExecSnoc(s, l6 + [ProcessRun], RxRun);
    ExecSnoc(s, l6 + [ProcessRun] + [RxRun], RxRun);
    ExecSnoc(s, l6 + [ProcessRun] + [RxRun] + [RxRun], ProcessRun);
  }

  /** Two live buffers, a command and its copy, both in the process task's hand; otherwise as before. */
  predicate Copied(s: State, t: State) {
    var n := |s.memory|;
    && t.heard != []
    && t == s.(rx := Rx(0xFF, Idle), heard := t.heard, accepted := t.accepted,
               memory := s.memory + [[0x00]] + [[]], live := s.live + {n} + {n + 1},
               processAt := SendingPacket(Command(n, 1), Command(n + 1, 0)))
  }

  lemma LeakCopies(s: State)
    requires AtRest(s)
    ensures Copied(s, Next(Next(Next(Exec(s, SHORT_FRAME), RxRun), ProcessRun), ProcessRun))
  {
    hide Exec, Next;
    HearShortFrame(s);
    var accepted := Exec(s, SHORT_FRAME);
    SendStep(accepted);
    CopyPayload(Next(accepted, RxRun));
  }

  lemma LeakResets(s: State, copied: State)
    requires AtRest(s) && Copied(s, copied)
    ensures Next(Next(Next(Next(Next(Next(Next(copied, SerialTimeout), RxRun), RxRun), ProcessRun), RxRun), RxRun),
                 ProcessRun)
            == copied.(carried := [[]], lostPackets := s.lostPackets + [Command(|s.memory| + 1, 0)],
                       processAt := Waiting, live := copied.live - {|s.memory|})
  {
    hide Exec, Next;
    ResetTooEarly(copied);
    ResetTooLate(Next(Next(Next(copied, SerialTimeout), RxRun), RxRun));
  }

  lemma LeakRun(s: State)
    requires AtRest(s)
    ensures var heard := Next(Exec(s, SHORT_FRAME), RxRun);
            var copied := Next(Next(heard, ProcessRun), ProcessRun);
            && Copied(s, copied)
            && Exec(s, LEAK)
               == copied.(carried := [[]], lostPackets := s.lostPackets + [Command(|s.memory| + 1, 0)],
                          processAt := Waiting, live := copied.live - {|s.memory|})
  {
    hide Exec, Next, Copied, AtRest;
    LeakCopies(s);
    var heard := Next(Exec(s, SHORT_FRAME), RxRun);
    var copied := Next(Next(heard, ProcessRun), ProcessRun);
    LeakStretches(s, heard, copied, Next(Next(Next(copied, SerialTimeout), RxRun), RxRun));
    LeakResets(s, copied);
  }

  lemma OneMoreLive(live: set<Address>, n: nat)
    requires n !in live && n + 1 !in live
    ensures live + {n} + {n + 1} - {n} == live + {n + 1} && |live + {n + 1}| == |live| + 1
  {
  }

  /** It leaves the pipeline at rest again, with one discarded packet and one live buffer more. */
  lemma LeakOnce(s: State)
    requires Invariant(s) && AtRest(s)
    ensures var t := Exec(s, LEAK);
            && Invariant(t) && AtRest(t)
            && t.lostPackets == s.lostPackets + [Command(|s.memory| + 1, 0)]
            && t.memory == s.memory + [[0x00]] + [[]]
            && t.live == s.live + {|s.memory| + 1} && |t.live| == |s.live| + 1
  {
    assert Accounted(s, |s.memory|) && Accounted(s, |s.memory| + 1);
    OneMoreLive(s.live, |s.memory|);
    ExecInvariant(s, LEAK);
    hide Exec, Next, Invariant, Places;
    LeakRun(s);
  }

  function Leaks(n: nat): seq<Label> {
    if n == 0 then [] else Leaks(n - 1) + LEAK
  }

  lemma {:induction false} TimeoutsAppend(a: seq<Label>, b: seq<Label>)
    ensures Timeouts(a + b) == Timeouts(a) + Timeouts(b)
    decreases |b|
  {
    if b == [] {
      assert a + b == a;
    } else {
      assert (a + b)[..|a + b| - 1] == a + b[..|b| - 1];
      TimeoutsAppend(a, b[..|b| - 1]);
    }
  }

  lemma OneTimeout()
    ensures Timeouts(LEAK) == 1
  {
    var before, after := SHORT_FRAME + [RxRun] + [ProcessRun] + [ProcessRun],
                         [RxRun] + [RxRun] + [ProcessRun] + [RxRun] + [RxRun] + [ProcessRun];
    assert LEAK == before + [SerialTimeout] + after;
    NoTimeouts(before);
    NoTimeouts(after);
    TimeoutsAppend(before, [SerialTimeout]);
    TimeoutsAppend(before + [SerialTimeout], after);
    assert [SerialTimeout][..0] == [];
  }

  lemma {:induction false} NoTimeouts(labels: seq<Label>)
    requires SerialTimeout !in labels
    ensures Timeouts(labels) == 0
    decreases |labels|
  {
    if labels != [] {
      NoTimeouts(labels[..|labels| - 1]);
    }
  }

  lemma NoLeaks()
    ensures Exec(INIT, Leaks(0)) == INIT && Timeouts(Leaks(0)) == 0 && Invariant(INIT) && AtRest(INIT)
  {
    InitInvariant();
  }

  lemma OneMoreLeak(n: nat)
    ensures Exec(INIT, Leaks(n + 1)) == Exec(Exec(INIT, Leaks(n)), LEAK)
    ensures Timeouts(Leaks(n + 1)) == Timeouts(Leaks(n)) + 1
  {
    hide Exec, Timeouts;
    ExecAppend(INIT, Leaks(n), LEAK);
    TimeoutsAppend(Leaks(n), LEAK);
    OneTimeout();
  }

  /** The bounds are met: for every number of timeouts there is a run that discards a packet at each, and has that
      many buffers live when it has come to rest. */
  lemma {:induction false} LeakIsUnbounded(n: nat)
    ensures var s := Exec(INIT, Leaks(n));
            && Invariant(s) && AtRest(s)
            && Timeouts(Leaks(n)) == |s.lostPackets| == |s.live| == n
  {
    hide Exec, Next, Invariant, AtRest, Leaks, Timeouts;
    if n == 0 {
      NoLeaks();
    } else {
      LeakIsUnbounded(n - 1);
      OneMoreLeak(n - 1);
      LeakOnce(Exec(INIT, Leaks(n - 1)));
    }
  }
}
