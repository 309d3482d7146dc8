/** The guarantees of the pipeline, for every interleaving of its tasks. */
module PipelineRuns {
  import opened Config
  import opened FrameParser
  import opened FrameSegments
  import opened Pipeline
  import opened Ownership
  import opened PipelineSafety
  import opened Subsequence
  import FrameStream

  /** Written packets are accepted general lingo payloads without their first byte: in order, none twice. */
  lemma {:induction false} OutputInOrder(labels: seq<Label>)
    ensures var s := Exec(INIT, labels);
            IsSubsequence(s.output, Relay(s.accepted))
  {
    RunInvariant(labels);
    var s := Exec(INIT, labels);
    var rest := TransmitHand(s.memory, s.transmitAt) + (Contents(s.memory, s.txQueue)
                + (ProcessHand(s.memory, s.processAt)
                   + (Relay(Contents(s.memory, s.cmdQueue)) + RxHand(s.memory, s.rxAt))));
    assert InTransit(s) == s.output + rest;
    Prefix(s.output, rest, Relay(s.accepted));
  }

  // ---- Buffers ----

  /** No buffer is freed twice or touched after it was freed; each allocated one is in exactly one place until
      it is freed and in none afterwards, for good; nothing that was never allocated is anywhere. */
  lemma {:induction false} BuffersConserved(labels: seq<Label>, more: seq<Label>, a: Address)
    ensures var s, t := Exec(INIT, labels), Exec(INIT, labels + more);
            && !s.fault
            && (a in s.live ==> a < |s.memory| && Places(s, a) == 1)
            && (a !in s.live ==> Places(s, a) == 0)
            && (a < |s.memory| && a !in s.live ==> a !in t.live)
            && s.memory <= t.memory
  {
    hide Next;
    RunInvariant(labels);
    assert Accounted(Exec(INIT, labels), a);
    ExecAppend(INIT, labels, more);
    ExecLater(Exec(INIT, labels), more);
  }

  /** Every command in `_cmdQueue` is a whole frame payload, so `len - 1` cannot underflow. */
  lemma QueuedCommandsAreWhole(labels: seq<Label>, i: nat)
    requires i < |Exec(INIT, labels).cmdQueue|
    ensures var s := Exec(INIT, labels);
            && s.cmdQueue[i].payload in s.live && s.cmdQueue[i].payload < |s.memory|
            && 1 <= s.cmdQueue[i].length <= 255
            && s.cmdQueue[i].length == |s.memory[s.cmdQueue[i].payload]|
  {
    RunInvariant(labels);
    var s := Exec(INIT, labels);
    HeldHere(s.cmdQueue, i, Points, s.cmdQueue[i].payload);
    assert Accounted(s, s.cmdQueue[i].payload) && Places(s, s.cmdQueue[i].payload) >= 1;
  }

  lemma HandsBound(s: State)
    ensures |set a | a in s.live && RxHolds(s.rxAt, a) > 0| <= 1
    ensures |set a | a in s.live && ProcessHolds(s.processAt, a) > 0| <= 2
    ensures |set a | a in s.live && TransmitHolds(s.transmitAt, a) > 0| <= 1
  {
    var receive := set a | a in s.live && RxHolds(s.rxAt, a) > 0;
    var process := set a | a in s.live && ProcessHolds(s.processAt, a) > 0;
    var transmit := set a | a in s.live && TransmitHolds(s.transmitAt, a) > 0;
    if a :| a in receive { SubsetBound(receive, {a}); }
    if a :| a in process {
      if b :| b in process && b != a { SubsetBound(process, {a, b}); } else { SubsetBound(process, {a}); }
    }
    if a :| a in transmit { SubsetBound(transmit, {a}); }
  }

  /** Buffers that are live and not lost to a queue reset: two full queues and four in hand at most. */
  lemma {:induction false} MemoryIsBounded(labels: seq<Label>)
    ensures var s := Exec(INIT, labels);
            |s.live - Pointed(s.live, s.lostPackets, Points)| <= CMD_QUEUE_SIZE + TX_QUEUE_SIZE + 4
  {
    RunInvariant(labels);
    var s := Exec(INIT, labels);
    PointedBound(s.live, s.cmdQueue, Points);
    PointedBound(s.live, s.txQueue, Points);
    HandsBound(s);
    var receive := set a | a in s.live && RxHolds(s.rxAt, a) > 0;
    var process := set a | a in s.live && ProcessHolds(s.processAt, a) > 0;
    var transmit := set a | a in s.live && TransmitHolds(s.transmitAt, a) > 0;
    var queued := Pointed(s.live, s.cmdQueue, Points) + Pointed(s.live, s.txQueue, Points);
    var kept := s.live - Pointed(s.live, s.lostPackets, Points);
    forall a | a in kept ensures a in queued + (receive + (process + transmit)) {
      assert Accounted(s, a);
    }
    SubsetBound(kept, queued + (receive + (process + transmit)));
    UnionBound(queued, receive + (process + transmit));
    UnionBound(Pointed(s.live, s.cmdQueue, Points), Pointed(s.live, s.txQueue, Points));
    UnionBound(receive, process + transmit);
    UnionBound(process, transmit);
  }

  // ---- resetState ----

  /** From the moment `resetState` saw `_cmdQueue` empty, and whatever the other tasks do meanwhile: the first
      queue reset finds the queue empty, the second at most the one packet the process task then had in hand. */
  lemma {:induction false} ResetRace(before: seq<Label>, during: seq<Label>)
    requires var s := Exec(INIT, before); s.rxAt.DrainingCommands? && s.cmdQueue == []
    requires forall k :: 0 <= k <= |during| ==> InReset(Exec(INIT, before + [RxRun] + during[..k]))
    ensures var s, t := Exec(INIT, before), Exec(INIT, before + [RxRun] + during);
            && |ProcessHand(s.memory, s.processAt)| <= 1
            && t.cmdQueue == []
            && (t.rxAt.ResettingPackets? ==>
                  var found := Contents(t.memory, t.txQueue);
                  found == [] || found == ProcessHand(s.memory, s.processAt))
  {
    hide Next;
    CarriedStays(before, during);
    RunInvariant(before);
    RunInvariant(before + [RxRun] + during);
    assert during[..|during|] == during;
    var t := Exec(INIT, before + [RxRun] + during);
    if t.rxAt.ResettingPackets? && Contents(t.memory, t.txQueue) != [] {
      assert |Contents(t.memory, t.txQueue) + ProcessHand(t.memory, t.processAt)| == 1;
      assert Contents(t.memory, t.txQueue) + ProcessHand(t.memory, t.processAt) == Contents(t.memory, t.txQueue);
    }
  }

  lemma CarriedStep(s: State, l: Label)
    ensures s.rxAt.DrainingCommands? && s.cmdQueue == [] ==>
              Next(s, RxRun).carried == ProcessHand(s.memory, s.processAt)
    ensures InReset(s) ==> Next(s, l).carried == s.carried
  {
    hide ProcessHand, RxStep, ProcessStep, TransmitStep;
    RxCarries(s);
    ProcessCarries(s);
    TransmitCarries(s);
  }

  lemma RxCarries(s: State)
    ensures s.rxAt.DrainingCommands? && s.cmdQueue == [] ==>
              RxStep(s).carried == ProcessHand(s.memory, s.processAt)
    ensures InReset(s) ==> RxStep(s).carried == s.carried
  {
    hide ProcessHand;
  }

  lemma ProcessCarries(s: State)
    ensures ProcessStep(s).carried == s.carried
  {
    hide Readable;
  }

  lemma TransmitCarries(s: State)
    ensures TransmitStep(s).carried == s.carried
  {
    hide Readable;
  }

  lemma {:induction false} CarriedStays(before: seq<Label>, during: seq<Label>)
    requires var s := Exec(INIT, before); s.rxAt.DrainingCommands? && s.cmdQueue == []
    requires forall k :: 0 <= k <= |during| ==> InReset(Exec(INIT, before + [RxRun] + during[..k]))
    ensures var s := Exec(INIT, before);
            Exec(INIT, before + [RxRun] + during).carried == ProcessHand(s.memory, s.processAt)
    decreases |during|
  {
    hide Next, ProcessHand;
    var start := before + [RxRun];
    assert start[..|start| - 1] == before;
    if during == [] {
      assert start + during == start;
      CarriedStep(Exec(INIT, before), RxRun);
    } else {
      var front := during[..|during| - 1];
      forall k | 0 <= k <= |front| ensures InReset(Exec(INIT, start + front[..k])) {
        assert front[..k] == during[..k];
      }
      CarriedStays(before, front);
      assert (start + during)[..|start + during| - 1] == start + front;
      assert during[..|front|] == front;
      CarriedStep(Exec(INIT, start + front), during[|front|]);
    }
  }

  function Timeouts(labels: seq<Label>): nat {
    if labels == [] then 0
    else Timeouts(labels[..|labels| - 1]) + if labels[|labels| - 1] == SerialTimeout then 1 else 0
  }

  /** Losses so far, and the one that may come. */
  function Losses(s: State): nat {
    |s.lostPackets| + if Resetting(s) then 1 else 0
  }

  lemma LossStep(s: State, l: Label)
    requires ResetContained(s)
    ensures Losses(Next(s, l)) <= Losses(s) + if l == SerialTimeout then 1 else 0
  {
    hide RxStep, ProcessStep, TransmitStep;
    match l {
      case RxRun => RxLosses(s);
      case ProcessRun => ProcessLeavesRx(s);
      case TransmitRun => TransmitLeavesRx(s);
      case _ =>
    }
  }

  lemma RxLosses(s: State)
    requires ResetContained(s)
    ensures Losses(RxStep(s)) <= Losses(s)
  {
    hide ProcessHand;
    if s.rxAt.ResettingPackets? {
      assert |Contents(s.memory, s.txQueue) + ProcessHand(s.memory, s.processAt)| <= 1;
    }
  }

  /** What only the receiver changes. */
  predicate SameReceiver(s: State, t: State) {
    && t.rxAt == s.rxAt && t.rx == s.rx && t.heard == s.heard && t.accepted == s.accepted
    && t.lostCommands == s.lostCommands && t.lostPackets == s.lostPackets
  }

  lemma DeleteLeavesRx(s: State, cmd: Command)
    ensures SameReceiver(s, Delete(s, cmd))
  {
  }

  lemma ProcessLeavesRx(s: State)
    ensures SameReceiver(s, ProcessStep(s))
  {
    hide Readable, Delete;
    match s.processAt {
      case DroppingPacket(_, packet) => DeleteLeavesRx(s, packet);
      case FreeingProcessed(cmd) => DeleteLeavesRx(s, cmd);
      case _ =>
    }
  }

  lemma TransmitLeavesRx(s: State)
    ensures SameReceiver(s, TransmitStep(s))
  {
    hide Readable, Delete;
    if s.transmitAt.FreeingWritten? {
      DeleteLeavesRx(s, s.transmitAt.packet);
    }
  }

  /** Commands are never lost to a queue reset, and packets at most one for each serial timeout. */
  lemma {:induction false} ResetLosses(labels: seq<Label>)
    ensures var s := Exec(INIT, labels);
            && s.lostCommands == []
            && |s.lostPackets| <= Losses(s) <= Timeouts(labels)
    decreases |labels|
  {
    hide Next;
    RunInvariant(labels);
    if labels != [] {
      var front := labels[..|labels| - 1];
      RunInvariant(front);
      ResetLosses(front);
      LossStep(Exec(INIT, front), labels[|labels| - 1]);
    }
  }

  // ---- resetState returns ----

  function Stage(at: RxAt): nat {
    match at
    case FreeingCommand(_) => 5
    case DrainingCommands => 4
    case FreeingPacket(_) => 4
    case DrainingPackets => 3
    case ResettingCommands => 2
    case ResettingPackets => 1
    case _ => 0
  }

  /** Packets the process task may still put into `_txQueue` for what it has in hand. */
  function Pending(at: ProcessAt): nat {
    if at.Processing? || at.SendingPacket? then 1 else 0
  }

  /** How many steps of its own `resetState` has left at most. Each command can become a packet, and each
      command and each packet it finds costs it two steps. */
  function Left(s: State): nat {
    Stage(s.rxAt) + 2 * (|s.cmdQueue| + Pending(s.processAt) + |s.txQueue|)
  }

  const RESET_STEPS := 4 + 2 * (CMD_QUEUE_SIZE + 1 + TX_QUEUE_SIZE)

  function RxRuns(labels: seq<Label>): nat {
    if labels == [] then 0 else RxRuns(labels[..|labels| - 1]) + if labels[|labels| - 1] == RxRun then 1 else 0
  }

  lemma ProcessKeepsLeft(s: State)
    ensures Left(ProcessStep(s)) <= Left(s)
  {
  }

  lemma TransmitKeepsLeft(s: State)
    ensures Left(TransmitStep(s)) <= Left(s)
  {
  }

  /** The receiver is the only producer of commands and does not listen; the others only move packets on. */
  lemma OthersKeepLeft(s: State, l: Label)
    requires Resetting(s) && l != RxRun
    ensures Left(Next(s, l)) <= Left(s) && Next(s, l).rxAt == s.rxAt
  {
    hide Left, Readable;
    match l {
      case ProcessRun => ProcessKeepsLeft(s);
      case TransmitRun => TransmitKeepsLeft(s);
      case ProcessGiveUp => assert Left(Next(s, l)) <= Left(s) by { GiveUpKeepsLeft(s); }
      case _ =>
    }
  }

  lemma GiveUpKeepsLeft(s: State)
    ensures Left(Next(s, ProcessGiveUp)) <= Left(s)
  {
  }

  lemma FreeLowersLeft(s: State)
    requires s.rxAt.FreeingCommand? || s.rxAt.FreeingPacket?
    ensures Left(RxStep(s)) < Left(s) && Resetting(RxStep(s))
  {
  }

  lemma TakeLowersLeft(s: State)
    requires s.rxAt.DrainingCommands? || s.rxAt.DrainingPackets?
    ensures Left(RxStep(s)) < Left(s) && Resetting(RxStep(s))
  {
  }

  lemma QueueResetLowersLeft(s: State)
    requires s.rxAt.ResettingCommands? || s.rxAt.ResettingPackets?
    ensures Left(RxStep(s)) < Left(s)
    ensures RxStep(s).rxAt.Listening? || Resetting(RxStep(s))
  {
  }

  lemma RxRunLowersLeft(s: State)
    requires Resetting(s)
    ensures Left(Next(s, RxRun)) < Left(s)
    ensures Next(s, RxRun).rxAt.Listening? || Resetting(Next(s, RxRun))
  {
    hide RxStep, Left;
    match s.rxAt {
      case FreeingCommand(_) => FreeLowersLeft(s);
      case FreeingPacket(_) => FreeLowersLeft(s);
      case ResettingCommands => QueueResetLowersLeft(s);
      case ResettingPackets => QueueResetLowersLeft(s);
      case _ => TakeLowersLeft(s);
    }
  }

  /** While `resetState` runs, each step of its own uses up one of those it had left, whatever the others do. */
  lemma {:induction false} ResetGoesOn(s: State, labels: seq<Label>)
    requires forall k :: 0 <= k < |labels| ==> Resetting(Exec(s, labels[..k]))
    ensures RxRuns(labels) + Left(Exec(s, labels)) <= Left(s)
    decreases |labels|
  {
    hide Next, Left, Resetting;
    if labels != [] {
      var front, l := labels[..|labels| - 1], labels[|labels| - 1];
      forall k | 0 <= k < |front| ensures Resetting(Exec(s, front[..k])) {
        assert front[..k] == labels[..k];
      }
      ResetGoesOn(s, front);
      if l == RxRun {
        RxRunLowersLeft(Exec(s, front));
      } else {
        OthersKeepLeft(Exec(s, front), l);
      }
    }
  }

  lemma {:induction false} ResettingUntilListening(s: State, labels: seq<Label>)
    requires Resetting(s) && forall k :: 0 <= k <= |labels| ==> !Exec(s, labels[..k]).rxAt.Listening?
    ensures forall k :: 0 <= k <= |labels| ==> Resetting(Exec(s, labels[..k]))
    decreases |labels|
  {
    hide Next;
    if labels != [] {
      var front, l := labels[..|labels| - 1], labels[|labels| - 1];
      forall k | 0 <= k <= |front| ensures !Exec(s, front[..k]).rxAt.Listening? && front[..k] == labels[..k] {
        assert front[..k] == labels[..k];
      }
      ResettingUntilListening(s, front);
      assert front[..|front|] == front && labels[..|labels|] == labels;
      if l == RxRun {
        RxRunLowersLeft(Exec(s, front));
      } else {
        OthersKeepLeft(Exec(s, front), l);
      }
    }
  }

  lemma UnreturnedIsBounded(s: State, labels: seq<Label>)
    requires Resetting(s) && forall k :: 0 <= k <= |labels| ==> !Exec(s, labels[..k]).rxAt.Listening?
    ensures RxRuns(labels) < Left(s)
  {
    hide Next;
    ResettingUntilListening(s, labels);
    ResetGoesOn(s, labels);
    assert labels[..|labels|] == labels;
    assert Stage(Exec(s, labels).rxAt) >= 1;
  }

  /** Once called, `resetState` returns within 134 steps of its own, in every interleaving. */
  lemma {:induction false} ResetReturns(before: seq<Label>, during: seq<Label>)
    requires Exec(INIT, before).rxAt.DrainingCommands? && RxRuns(during) >= RESET_STEPS
    ensures exists k :: 0 <= k <= |during| && Exec(INIT, before + during[..k]).rxAt.Listening?
  {
    hide Next;
    RunInvariant(before);
    var s := Exec(INIT, before);
    assert Left(s) <= RESET_STEPS;
    if k :| 0 <= k <= |during| && Exec(s, during[..k]).rxAt.Listening? {
      ExecAppend(INIT, before, during[..k]);
    } else {
      UnreturnedIsBounded(s, during);
    }
  }

  /** `resetState` is running or has just returned, and nothing can reach the queues any more. */
  predicate Undisturbed(s: State) {
    && Pending(s.processAt) == 0
    && (Resetting(s) || s.rxAt.Listening?)
    && (InReset(s) || s.rxAt.Listening? ==> s.cmdQueue == [])
    && (Stage(s.rxAt) <= 2 ==> s.txQueue == [])
  }

  /** All that a step of `resetState` leaves alone. */
  predicate OnlyReset(s: State, t: State) {
    t == s.(rxAt := t.rxAt, cmdQueue := t.cmdQueue, txQueue := t.txQueue, live := t.live, fault := t.fault,
            carried := t.carried)
  }

  lemma UndisturbedFree(s: State)
    requires Undisturbed(s) && (s.rxAt.FreeingCommand? || s.rxAt.FreeingPacket?)
    ensures Undisturbed(RxStep(s)) && OnlyReset(s, RxStep(s)) && Left(RxStep(s)) == Left(s) - 1
  {
  }

  lemma UndisturbedTake(s: State)
    requires Undisturbed(s) && (s.rxAt.DrainingCommands? || s.rxAt.DrainingPackets?)
    ensures Undisturbed(RxStep(s)) && OnlyReset(s, RxStep(s)) && Left(RxStep(s)) == Left(s) - 1
  {
  }

  lemma UndisturbedReset(s: State)
    requires Undisturbed(s) && (s.rxAt.ResettingCommands? || s.rxAt.ResettingPackets?)
    ensures Undisturbed(RxStep(s)) && OnlyReset(s, RxStep(s)) && Left(RxStep(s)) == Left(s) - 1
  {
    assert s.lostCommands + [] == s.lostCommands && s.lostPackets + [] == s.lostPackets;
  }

  lemma UndisturbedStep(s: State)
    requires Undisturbed(s) && Resetting(s)
    ensures var t := Next(s, RxRun); Undisturbed(t) && OnlyReset(s, t) && Left(t) == Left(s) - 1
  {
    hide RxStep, Left, Undisturbed, OnlyReset;
    match s.rxAt {
      case FreeingCommand(_) => UndisturbedFree(s);
      case FreeingPacket(_) => UndisturbedFree(s);
      case ResettingCommands => UndisturbedReset(s);
      case ResettingPackets => UndisturbedReset(s);
      case _ => UndisturbedTake(s);
    }
  }

  /** The count is exact: undisturbed, `resetState` takes all the steps it has left and no fewer. */
  lemma {:induction false} ResetAlone(s: State, n: nat)
    requires Undisturbed(s) && n <= Left(s)
    ensures var t := Times(s, RxRun, n);
            && Undisturbed(t) && OnlyReset(s, t) && Left(t) == Left(s) - n
            && (t.rxAt.Listening? <==> n == Left(s))
  {
    hide Next;
    if n > 0 {
      ResetAlone(s, n - 1);
      UndisturbedStep(Times(s, RxRun, n - 1));
    }
  }

  // ---- Freed buffers ----

  /** Buffers keep what was copied into them, and one that was freed is not handed out again. */
  ghost predicate Later(s: State, t: State) {
    s.memory <= t.memory && forall a :: a < |s.memory| && a !in s.live ==> a !in t.live
  }

  lemma RxLater(s: State)
    ensures Later(s, RxStep(s))
  {
  }

  lemma ProcessLater(s: State)
    ensures Later(s, ProcessStep(s))
  {
    hide Readable;
  }

  lemma TransmitLater(s: State)
    ensures Later(s, TransmitStep(s))
  {
    hide Readable;
  }

  lemma ReceiveLater(s: State, b: byte)
    ensures Later(s, ReceiveStep(s, b))
  {
    hide Emit, Step, AddByte;
  }

  lemma NextLater(s: State, l: Label)
    ensures Later(s, Next(s, l))
  {
    match l {
      case Receive(b) => ReceiveLater(s, b);
      case RxRun => RxLater(s);
      case ProcessRun => ProcessLater(s);
      case TransmitRun => TransmitLater(s);
      case _ =>
    }
  }

  lemma {:induction false} ExecLater(s: State, labels: seq<Label>)
    ensures Later(s, Exec(s, labels))
    decreases |labels|
  {
    hide Next;
    if labels != [] {
      ExecLater(s, labels[..|labels| - 1]);
      NextLater(Exec(s, labels[..|labels| - 1]), labels[|labels| - 1]);
    }
  }

  // ---- The transmitter and open frames ----

  /** Packets that may still be written before the transmitter next looks at `_rxIncomplete`. */
  function Allowance(s: State): nat {
    if s.transmitAt.Receiving? || s.transmitAt.Writing? then 1 else 0
  }

  predicate SameTransmitter(s: State, t: State) {
    t.transmitAt == s.transmitAt && t.output == s.output
  }

  lemma RxLeavesTransmitter(s: State)
    ensures SameTransmitter(s, RxStep(s))
  {
  }

  lemma ProcessLeavesTransmitter(s: State)
    ensures SameTransmitter(s, ProcessStep(s))
  {
    hide Readable;
  }

  lemma OthersLeaveTransmitter(s: State, l: Label)
    requires l != TransmitRun
    ensures SameTransmitter(s, Next(s, l))
  {
    hide RxStep, ProcessStep, TransmitStep, Emit, Step;
    RxLeavesTransmitter(s);
    ProcessLeavesTransmitter(s);
  }

  lemma TransmitAllowance(s: State)
    ensures |s.output| <= |TransmitStep(s).output|
    ensures !s.rx.mode.Idle? ==> |TransmitStep(s).output| + Allowance(TransmitStep(s)) <= |s.output| + Allowance(s)
  {
    hide Readable;
  }

  lemma AllowanceStep(s: State, l: Label)
    ensures |s.output| <= |Next(s, l).output|
    ensures !s.rx.mode.Idle? ==> |Next(s, l).output| + Allowance(Next(s, l)) <= |s.output| + Allowance(s)
  {
    hide TransmitStep;
    if l == TransmitRun {
      TransmitAllowance(s);
    } else {
      hide Next;
      OthersLeaveTransmitter(s, l);
    }
  }

  /** For as long as a frame stays open, at most one packet is written: the one whose turn began before. */
  lemma {:induction false} OneWriteWhileReceiving(before: seq<Label>, during: seq<Label>)
    requires forall k :: 0 <= k < |during| ==> !Exec(INIT, before + during[..k]).rx.mode.Idle?
    ensures var s, t := Exec(INIT, before), Exec(INIT, before + during);
            |s.output| <= |t.output| <= |t.output| + Allowance(t) <= |s.output| + Allowance(s) <= |s.output| + 1
    decreases |during|
  {
    hide Next;
    if during == [] {
      assert before + during == before;
    } else {
      var front, l := during[..|during| - 1], during[|during| - 1];
      forall k | 0 <= k < |front| ensures !Exec(INIT, before + front[..k]).rx.mode.Idle? {
        assert front[..k] == during[..k];
      }
      OneWriteWhileReceiving(before, front);
      assert (before + during)[..|before + during| - 1] == before + front;
      AllowanceStep(Exec(INIT, before + front), l);
    }
  }

  // ---- Runs without loss ----

  /** The step loses something, or begins to: a send that finds its queue full when its time is up, or the
      serial timeout. */
  predicate LosesAt(s: State, l: Label) {
    match l
    case RxGiveUp => |s.cmdQueue| == CMD_QUEUE_SIZE
    case ProcessGiveUp => |s.txQueue| == TX_QUEUE_SIZE
    case SerialTimeout => s.rxAt.Listening?
    case _ => false
  }

  predicate Lossless(labels: seq<Label>) {
    labels == [] ||
    (Lossless(labels[..|labels| - 1]) && !LosesAt(Exec(INIT, labels[..|labels| - 1]), labels[|labels| - 1]))
  }

  predicate Exact(s: State) {
    InTransit(s) == Relay(s.accepted) && (s.rxAt.Listening? || s.rxAt.SendingCommand?)
  }

  lemma StaysListening(s: State, l: Label)
    requires !LosesAt(s, l) && (s.rxAt.Listening? || s.rxAt.SendingCommand?)
    ensures Next(s, l).rxAt.Listening? || Next(s, l).rxAt.SendingCommand?
    ensures MayLose(l) ==> Next(s, l) == s
  {
  }

  lemma {:induction false} ExactStep(s: State, l: Label)
    requires Invariant(s) && Exact(s) && !LosesAt(s, l)
    ensures Exact(Next(s, l))
  {
    hide Next, InTransit, LosesAt;
    StaysListening(s, l);
    NextOrder(s, l);
    if !MayLose(l) && JoinsBy(s, l, Next(s, l)) {
      RelaySnoc(s.accepted, Emit(s.rx, l.value)[0]);
    }
  }

  /** If no send fails on a full queue and no serial timeout fires, what is written and what is on its way is at
      all times exactly what was accepted. */
  lemma {:induction false} LosslessIsExact(labels: seq<Label>)
    requires Lossless(labels)
    ensures Exact(Exec(INIT, labels))
    decreases |labels|
  {
    hide Next, Exact, LosesAt;
    if labels == [] {
      assert Exact(INIT) by { ExactInit(); }
    } else {
      LosslessIsExact(labels[..|labels| - 1]);
      RunInvariant(labels[..|labels| - 1]);
      ExactStep(Exec(INIT, labels[..|labels| - 1]), labels[|labels| - 1]);
    }
  }

  lemma ExactInit()
    ensures Exact(INIT)
  {
    assert InTransit(INIT) == [];
  }

  /** Nothing queued and no task with anything in hand. */
  predicate Quiescent(s: State) {
    s.rxAt.Listening? && s.processAt.Waiting? && s.transmitAt.Checking? && s.cmdQueue == [] && s.txQueue == []
  }

  lemma {:induction false} QuiescentIsComplete(labels: seq<Label>)
    requires Lossless(labels) && Quiescent(Exec(INIT, labels))
    ensures var s := Exec(INIT, labels); s.output == Relay(s.accepted)
  {
    LosslessIsExact(labels);
    var s := Exec(INIT, labels);
    assert Contents(s.memory, []) == [];
    assert InTransit(s) == s.output;
  }

  // ---- From the wire to the console ----

  predicate Understood(s: State) {
    Explained(0, s.heard, s.rx, s.accepted)
  }

  lemma HeardSomething(s: State)
    ensures Understood(s) ==> s.heard != []
  {
  }

  lemma UnderstoodStep(s: State, l: Label)
    requires Understood(s)
    ensures Understood(Next(s, l))
  {
    HeardSomething(s);
    hide Explained;
    if l.Receive? {
      ExplainByte(0, s.heard, s.rx, s.accepted, l.value);
      assert s.accepted + [] == s.accepted;
    } else if l.Abandon? {
      ExplainCut(0, s.heard, s.rx, s.accepted);
    }
  }

  /** What the receiver accepted is the parse of what it heard. */
  lemma {:induction false} AcceptedIsParsed(labels: seq<Label>)
    ensures var s := Exec(INIT, labels);
            Understood(s) && s.accepted == ParseAll(0, s.heard)
    decreases |labels|
  {
    hide Next;
    if labels == [] {
      ExplainStart(0);
    } else {
      AcceptedIsParsed(labels[..|labels| - 1]);
      UnderstoodStep(Exec(INIT, labels[..|labels| - 1]), labels[|labels| - 1]);
    }
    var t := Exec(INIT, labels);
    ExplainedIsParsed(0, t.heard, t.rx, t.accepted);
  }

  /** End to end: whatever was heard, and however the tasks interleave. */
  lemma {:induction false} WireToConsole(labels: seq<Label>)
    ensures var s := Exec(INIT, labels);
            && IsSubsequence(s.output, Relay(ParseAll(0, s.heard)))
            && (Lossless(labels) && Quiescent(s) ==> s.output == Relay(ParseAll(0, s.heard)))
  {
    AcceptedIsParsed(labels);
    OutputInOrder(labels);
    if Lossless(labels) && Quiescent(Exec(INIT, labels)) {
      QuiescentIsComplete(labels);
    }
  }

  /** When the accessory sends frames among quiet noise, only their payloads can come out, in order, and in a
      run without loss that has come to rest all of them have. */
  lemma {:induction false} FramedTraffic(labels: seq<Label>, packets: seq<FrameStream.Packet>, tail: seq<byte>)
    requires FrameStream.Clean(0, packets, tail)
    requires Exec(INIT, labels).heard == [FrameStream.Stream(packets, tail)]
    ensures var s := Exec(INIT, labels);
            && IsSubsequence(s.output, Relay(FrameStream.Payloads(packets)))
            && (Lossless(labels) && Quiescent(s) ==> s.output == Relay(FrameStream.Payloads(packets)))
  {
    WireToConsole(labels);
    AcceptedIsParsed(labels);
    FrameStream.RoundTrip(0, packets, tail);
    var s := Exec(INIT, labels);
    OnePieceExplains(0, FrameStream.Stream(packets, tail), s.rx, s.accepted);
    OutputIsParse(0, FrameStream.Stream(packets, tail));
  }

  function Times(s: State, l: Label, n: nat): State {
    if n == 0 then s else Next(Times(s, l, n - 1), l)
  }

  function Repeated(l: Label, n: nat): seq<Label> {
    seq(n, _ => l)
  }

  lemma {:induction false} TimesIsExec(s: State, l: Label, n: nat)
    ensures Times(s, l, n) == Exec(s, Repeated(l, n))
  {
    hide Next;
    if n > 0 {
      TimesIsExec(s, l, n - 1);
      assert Repeated(l, n)[..n - 1] == Repeated(l, n - 1);
    }
  }

  lemma HandsAreReadable(s: State)
    requires Invariant(s)
    ensures s.processAt.Processing? ==> Readable(s, s.processAt.cmd) && s.processAt.cmd.length > 0
    ensures s.transmitAt.Writing? ==> Readable(s, s.transmitAt.packet)
  {
    if s.processAt.Processing? { assert Accounted(s, s.processAt.cmd.payload); }
    if s.transmitAt.Writing? { assert Accounted(s, s.transmitAt.packet.payload); }
  }

  /** A free by a task that holds the buffer is not a fault. */
  lemma FreesAreSound(s: State)
    requires Invariant(s)
    ensures s.processAt.FreeingProcessed? ==> s.processAt.cmd.payload in s.live
    ensures s.processAt.DroppingPacket? ==> s.processAt.packet.payload in s.live
    ensures s.transmitAt.FreeingWritten? ==> s.transmitAt.packet.payload in s.live
  {
    if s.processAt.FreeingProcessed? { assert Accounted(s, s.processAt.cmd.payload); }
    if s.processAt.DroppingPacket? { assert Accounted(s, s.processAt.packet.payload); }
    if s.transmitAt.FreeingWritten? { assert Accounted(s, s.transmitAt.packet.payload); }
  }

  /** A state differs from another only where the process task works. */
  predicate OnlyProcess(s: State, t: State) {
    t == s.(processAt := t.processAt, cmdQueue := t.cmdQueue, txQueue := t.txQueue, memory := t.memory, live := t.live)
  }

  predicate OnlyTransmit(s: State, t: State) {
    t == s.(transmitAt := t.transmitAt, txQueue := t.txQueue, live := t.live, output := t.output)
  }

  lemma ReadMove(s: State)
    requires s.processAt.Processing? && Readable(s, s.processAt.cmd) && s.processAt.cmd.length > 0
    ensures var t := ProcessStep(s);
            && OnlyProcess(s, t) && t.cmdQueue == s.cmdQueue && t.txQueue == s.txQueue
            && (t.processAt.SendingPacket? || t.processAt.FreeingProcessed?)
  {
  }

  lemma FreeMove(s: State)
    requires s.processAt.FreeingProcessed? && s.processAt.cmd.payload in s.live
    ensures var t := ProcessStep(s);
            OnlyProcess(s, t) && t.processAt.Waiting? && t.cmdQueue == s.cmdQueue && t.txQueue == s.txQueue
  {
  }

  lemma QueueMove(s: State)
    ensures var t := ProcessStep(s);
            && (s.processAt.Waiting? ==>
                  && OnlyProcess(s, t)
                  && if s.cmdQueue == [] then t == s
                     else t.processAt.Processing? && t.cmdQueue == s.cmdQueue[1..] && t.txQueue == s.txQueue)
            && (s.processAt.SendingPacket? && |s.txQueue| < TX_QUEUE_SIZE ==>
                  && OnlyProcess(s, t) && t.processAt.FreeingProcessed?
                  && t.txQueue == s.txQueue + [s.processAt.packet] && t.cmdQueue == s.cmdQueue)
  {
    hide Readable;
  }

  /** A step of the process task when its queue has room. */
  lemma ProcessMove(s: State)
    requires Invariant(s) && |s.txQueue| < TX_QUEUE_SIZE && !s.processAt.DroppingPacket?
    ensures var t := Next(s, ProcessRun);
            && Invariant(t) && OnlyProcess(s, t)
            && match s.processAt
               case Waiting =>
                 if s.cmdQueue == [] then t == s
                 else t.processAt.Processing? && t.cmdQueue == s.cmdQueue[1..] && t.txQueue == s.txQueue
               case Processing(_) =>
                 (t.processAt.SendingPacket? || t.processAt.FreeingProcessed?)
                 && t.cmdQueue == s.cmdQueue && t.txQueue == s.txQueue
               case SendingPacket(_, packet) =>
                 t.processAt.FreeingProcessed? && t.txQueue == s.txQueue + [packet] && t.cmdQueue == s.cmdQueue
               case _ => t.processAt.Waiting? && t.cmdQueue == s.cmdQueue && t.txQueue == s.txQueue
  {
    HandsAreReadable(s);
    FreesAreSound(s);
    NextInvariant(s, ProcessRun);
    hide Invariant, Readable, ProcessStep, OnlyProcess;
    match s.processAt {
      case Processing(_) => ReadMove(s);
      case FreeingProcessed(_) => FreeMove(s);
      case _ => QueueMove(s);
    }
  }

  /** The process task takes one command, handles it and comes back for the next. */
  lemma ProcessTurn(s: State)
    requires Invariant(s) && s.processAt.Waiting? && |s.cmdQueue| == 1 && s.txQueue == []
    ensures var t := Times(s, ProcessRun, 4);
            OnlyProcess(s, t) && t.processAt.Waiting? && t.cmdQueue == [] && |t.txQueue| <= 1
  {
    hide Next, Invariant;
    var s1 := Next(s, ProcessRun);
    ProcessMove(s);
    assert Times(s, ProcessRun, 1) == s1;
    var s2 := Next(s1, ProcessRun);
    ProcessMove(s1);
    assert Times(s, ProcessRun, 2) == s2;
    var s3 := Next(s2, ProcessRun);
    ProcessMove(s2);
    assert Times(s, ProcessRun, 3) == s3;
    ProcessMove(s3);
  }

  lemma TransmitMove(s: State)
    requires Invariant(s) && s.rx.mode.Idle?
    ensures var t := Next(s, TransmitRun);
            && Invariant(t) && OnlyTransmit(s, t)
            && match s.transmitAt
               case Checking => t.transmitAt.Receiving? && t.txQueue == s.txQueue
               case Receiving =>
                 if s.txQueue == [] then t.transmitAt.Checking? && t.txQueue == []
                 else t.transmitAt.Writing? && t.txQueue == s.txQueue[1..]
               case Writing(_) => t.transmitAt.FreeingWritten? && t.txQueue == s.txQueue
               case FreeingWritten(_) => t.transmitAt.Checking? && t.txQueue == s.txQueue
  {
    HandsAreReadable(s);
    FreesAreSound(s);
    NextInvariant(s, TransmitRun);
    hide Invariant, Readable;
  }

  /** The transmit task writes the one packet there is, if any, and comes back. */
  lemma TransmitTurn(s: State)
    requires Invariant(s) && s.transmitAt.Checking? && s.rx.mode.Idle? && |s.txQueue| <= 1
    ensures var t := Times(s, TransmitRun, 4);
            OnlyTransmit(s, t) && t.transmitAt.Checking? && t.txQueue == []
  {
    hide Next, Invariant;
    var s1 := Next(s, TransmitRun);
    TransmitMove(s);
    assert Times(s, TransmitRun, 1) == s1;
    var s2 := Next(s1, TransmitRun);
    TransmitMove(s1);
    assert Times(s, TransmitRun, 2) == s2;
    var s3 := Next(s2, TransmitRun);
    TransmitMove(s2);
    assert Times(s, TransmitRun, 3) == s3;
    TransmitMove(s3);
  }

  /** Labels that deliver one byte and everything it sets off. */
  function Promptly(b: byte): seq<Label> {
    [Receive(b)] + [RxRun] + Repeated(ProcessRun, 4) + Repeated(TransmitRun, 4)
  }

  predicate NeverLoses(labels: seq<Label>) {
    forall i :: 0 <= i < |labels| ==> !MayLose(labels[i])
  }

  lemma PromptNeverLoses(b: byte)
    ensures NeverLoses(Promptly(b))
  {
  }

  lemma {:induction false} LosslessGoesOn(labels: seq<Label>, more: seq<Label>)
    requires Lossless(labels) && NeverLoses(more)
    ensures Lossless(labels + more)
    decreases |more|
  {
    hide Next;
    if more == [] {
      assert labels + more == labels;
    } else {
      LosslessGoesOn(labels, more[..|more| - 1]);
      assert (labels + more)[..|labels + more| - 1] == labels + more[..|more| - 1];
    }
  }

  lemma ByteTurn(s: State, b: byte)
    requires Invariant(s) && Quiescent(s) && s.heard != []
    ensures var t := Exec(s, Promptly(b));
            Invariant(t) && Quiescent(t) && t.heard == AddByte(s.heard, b)
  {
    hide Invariant, AddByte, Times;
    var s1 := Next(s, Receive(b));
    NextInvariant(s, Receive(b));
    var s2 := Next(s1, RxRun);
    NextInvariant(s1, RxRun);
    ExecAppend(s, [Receive(b)] + [RxRun] + Repeated(ProcessRun, 4), Repeated(TransmitRun, 4));
    ExecAppend(s, [Receive(b)] + [RxRun], Repeated(ProcessRun, 4));
    ExecAppend(s, [Receive(b)], [RxRun]);
    OneLabel(s, Receive(b));
    OneLabel(s1, RxRun);
    TimesIsExec(s2, ProcessRun, 4);
    var s3 := Times(s2, ProcessRun, 4);
    TimesKeep(s2, ProcessRun, 4);
    TimesIsExec(s3, TransmitRun, 4);
    TimesKeep(s3, TransmitRun, 4);
    if Emit(s.rx, b) != [] {
      ProcessTurn(s2);
      TransmitTurn(s3);
    } else {
      assert s2.cmdQueue == [] && s3 == s2 by { IdleProcess(s2); }
      IdleTransmit(s3);
    }
  }

  lemma OneLabel(s: State, l: Label)
    ensures Exec(s, [l]) == Next(s, l)
  {
    assert [l][..0] == [];
  }

  lemma {:induction false} TimesKeep(s: State, l: Label, n: nat)
    requires Invariant(s)
    ensures Invariant(Times(s, l, n))
  {
    if n > 0 {
      TimesKeep(s, l, n - 1);
      NextInvariant(Times(s, l, n - 1), l);
    }
  }

  lemma IdleProcess(s: State)
    requires s.processAt.Waiting? && s.cmdQueue == []
    ensures Times(s, ProcessRun, 4) == s
  {
    assert Times(s, ProcessRun, 1) == s;
    assert Times(s, ProcessRun, 2) == s;
    assert Times(s, ProcessRun, 3) == s;
  }

  lemma IdleTransmit(s: State)
    requires s.transmitAt.Checking? && s.txQueue == []
    ensures Times(s, TransmitRun, 4) == s
  {
    var s1 := Next(s, TransmitRun);
    assert Times(s, TransmitRun, 1) == s1;
    assert Next(s1, TransmitRun) == s;
    assert Times(s, TransmitRun, 2) == s;
    assert Times(s, TransmitRun, 3) == s1;
  }

  /** The equality above is not empty: for every byte string there is a run without loss that hears it and
      comes to rest, and so writes all of its general lingo payloads. */
  lemma {:induction false} EveryStreamCanBeRelayed(bytes: seq<byte>) returns (labels: seq<Label>)
    ensures Lossless(labels) && Invariant(Exec(INIT, labels)) && Quiescent(Exec(INIT, labels))
    ensures Exec(INIT, labels).heard == [bytes]
    ensures Exec(INIT, labels).output == Relay(Parse(0, bytes))
    decreases |bytes|
  {
    hide Next, Invariant, Parse, Relay, Promptly, LosesAt;
    if bytes == [] {
      labels := [];
      InitInvariant();
    } else {
      var b := bytes[|bytes| - 1];
      var front := EveryStreamCanBeRelayed(bytes[..|bytes| - 1]);
      labels := front + Promptly(b);
      ExecAppend(INIT, front, Promptly(b));
      PromptNeverLoses(b);
      LosslessGoesOn(front, Promptly(b));
      ByteTurn(Exec(INIT, front), b);
      assert bytes[..|bytes| - 1] + [b] == bytes;
      assert AddByte([bytes[..|bytes| - 1]], b) == [bytes];
    }
    WireToConsole(labels);
    AcceptedIsParsed(labels);
    var s := Exec(INIT, labels);
    OnePieceExplains(0, bytes, s.rx, s.accepted);
  }
}
