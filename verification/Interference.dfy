/** What a task can rely on when the others run between two of its operations. */
module Interference {
  import opened Config
  import opened FrameParser
  import opened Ownership
  import opened Pipeline
  import opened PipelineSafety
  import opened PipelineRuns
  import opened Turns
  import FrameSegments

  datatype Who = RxTask | ProcessTask | TransmitTask

  function Owner(l: Label): Who {
    match l
    case ProcessRun => ProcessTask
    case ProcessGiveUp => ProcessTask
    case TransmitRun => TransmitTask
    case _ => RxTask
  }

  /** What only task `me` changes. */
  predicate SamePlace(me: Who, s: State, t: State) {
    match me
    case RxTask => SameReceiver(s, t)
    case ProcessTask => t.processAt == s.processAt
    case TransmitTask => SameTransmitter(s, t)
  }

  lemma ProcessKeepsRx(s: State, l: Label)
    ensures Owner(l) == ProcessTask ==> SamePlace(RxTask, s, Next(s, l))
  {
    hide ReceiveStep, RxStep, TransmitStep, ProcessStep;
    ProcessLeavesRx(s);
  }

  lemma TransmitKeepsRx(s: State, l: Label)
    ensures Owner(l) == TransmitTask ==> SamePlace(RxTask, s, Next(s, l))
  {
    hide ReceiveStep, RxStep, TransmitStep, ProcessStep;
    TransmitLeavesRx(s);
  }

  lemma RxAndTransmitKeepProcess(s: State, l: Label)
    ensures Owner(l) != ProcessTask ==> Next(s, l).processAt == s.processAt
  {
    hide Readable, ProcessStep;
  }

  lemma NextKeepsPlace(me: Who, s: State, l: Label)
    requires Owner(l) != me
    ensures SamePlace(me, s, Next(s, l))
  {
    hide Next;
    match me {
      case RxTask => ProcessKeepsRx(s, l); TransmitKeepsRx(s, l);
      case ProcessTask => RxAndTransmitKeepProcess(s, l);
      case TransmitTask => OthersLeaveTransmitter(s, l);
    }
  }

  lemma {:induction false} ExecKeepsPlace(me: Who, s: State, labels: seq<Label>)
    requires forall i :: 0 <= i < |labels| ==> Owner(labels[i]) != me
    ensures SamePlace(me, s, Exec(s, labels))
    decreases |labels|
  {
    hide Next;
    if labels != [] {
      ExecKeepsPlace(me, s, labels[..|labels| - 1]);
      NextKeepsPlace(me, Exec(s, labels[..|labels| - 1]), labels[|labels| - 1]);
    }
  }

  /** All that the others keep for a task while they run. */
  lemma OthersRun(me: Who, trace: seq<Label>, labels: seq<Label>)
    requires forall i :: 0 <= i < |labels| ==> Owner(labels[i]) != me
    ensures var s := Exec(INIT, trace);
            var t := Exec(s, labels);
            && Exec(INIT, trace + labels) == t && SamePlace(me, s, t) && Later(s, t)
            && (labels == [] ==> t == s)
            && (me.RxTask? && Resetting(s) ==> Left(t) <= Left(s) && RxRuns(trace + labels) == RxRuns(trace))
  {
    hide Next, SamePlace, Later, Left, Resetting, RxRuns, Exec;
    var s := Exec(INIT, trace);
    ExecKeepsPlace(me, s, labels);
    ExecLater(s, labels);
    ExecAppend(INIT, trace, labels);
    assert trace + [] == trace;
    if me.RxTask? && Resetting(s) {
      OthersKeepLeftOver(s, labels);
      OthersTakeNoRxRun(trace, labels);
    }
  }

  // ---- Steps of the receiver that others take no part in ----

  lemma {:induction false} OthersTakeNoRxRun(trace: seq<Label>, labels: seq<Label>)
    requires forall i :: 0 <= i < |labels| ==> Owner(labels[i]) != RxTask
    ensures RxRuns(trace + labels) == RxRuns(trace)
    decreases |labels|
  {
    if labels == [] {
      assert trace + labels == trace;
    } else {
      assert (trace + labels)[..|trace + labels| - 1] == trace + labels[..|labels| - 1];
      OthersTakeNoRxRun(trace, labels[..|labels| - 1]);
    }
  }

  lemma {:induction false} OthersKeepLeftOver(s: State, labels: seq<Label>)
    requires Resetting(s) && forall i :: 0 <= i < |labels| ==> Owner(labels[i]) != RxTask
    ensures Left(Exec(s, labels)) <= Left(s) && Exec(s, labels).rxAt == s.rxAt
    decreases |labels|
  {
    hide Next, Left;
    if labels != [] {
      OthersKeepLeftOver(s, labels[..|labels| - 1]);
      OthersKeepLeft(Exec(s, labels[..|labels| - 1]), labels[|labels| - 1]);
    }
  }

  /** A step of `resetState` uses up one it had left. */
  lemma SpendStep(trace: seq<Label>)
    requires Resetting(Exec(INIT, trace))
    ensures var s, t := Exec(INIT, trace), Exec(INIT, trace + [RxRun]);
            Left(t) < Left(s) && RxRuns(trace + [RxRun]) + Left(t) <= RxRuns(trace) + Left(s)
  {
    hide Next, Left;
    assert (trace + [RxRun])[..|trace + [RxRun]| - 1] == trace;
    RxRunLowersLeft(Exec(INIT, trace));
  }

  lemma {:induction false} LeftIsBounded(labels: seq<Label>)
    requires Exec(INIT, labels).rxAt.DrainingCommands?
    ensures Left(Exec(INIT, labels)) <= RESET_STEPS
  {
    hide Next;
    RunInvariant(labels);
  }

  // ---- The moments of a turn ----

  type Log = seq<Move<Label, Who>>

  /** The state after the first `k` moves of a log. */
  ghost function StateAt(log: Log, plan: seq<seq<Label>>, k: nat): State
    requires k <= |log|
  {
    Exec(INIT, Play(log[..k], plan, Owner))
  }

  lemma StatesStay(log: Log, longer: Log, plan: seq<seq<Label>>)
    requires log <= longer
    ensures forall k: nat :: k <= |log| ==> StateAt(longer, plan, k) == StateAt(log, plan, k)
  {
    forall k: nat | k <= |log| ensures StateAt(longer, plan, k) == StateAt(log, plan, k) {
      assert longer[..k] == log[..k];
    }
  }

  /** A trace is what a log amounts to under a plan, of which a schedule is left. */
  ghost predicate Tracks(trace: seq<Label>, log: Log, plan: seq<seq<Label>>, schedule: seq<seq<Label>>) {
    trace == Play(log, plan, Owner) && schedule == Rest(plan, Yields(log))
  }

  lemma TrackDid(l: Label, trace: seq<Label>, log: Log, plan: seq<seq<Label>>, schedule: seq<seq<Label>>)
    requires Tracks(trace, log, plan, schedule)
    ensures Tracks(trace + [l], log + [Did(l)], plan, schedule)
    ensures Exec(INIT, trace + [l]) == Next(Exec(INIT, trace), l)
  {
    hide Next, Play, Rest;
    PlayDid(log, l, plan, Owner);
    assert (trace + [l])[..|trace|] == trace;
  }

  lemma TrackYielded(me: Who, trace: seq<Label>, log: Log, plan: seq<seq<Label>>, schedule: seq<seq<Label>>)
    requires Tracks(trace, log, plan, schedule)
    ensures var labels := if schedule == [] then [] else Others(me, schedule[0], Owner);
            && Tracks(trace + labels, log + [Yielded(me)], plan, if schedule == [] then [] else schedule[1..])
            && forall i :: 0 <= i < |labels| ==> Owner(labels[i]) != me
  {
    hide Play, Rest, Yields, Others;
    PlayYielded(log, me, plan, Owner);
    if schedule != [] {
      OthersExactly(me, schedule[0], Owner);
    }
  }

  /** All of it together. */
  lemma Interrupted(me: Who, trace: seq<Label>, log: Log, plan: seq<seq<Label>>, schedule: seq<seq<Label>>)
    requires Tracks(trace, log, plan, schedule)
    ensures var labels := if schedule == [] then [] else Others(me, schedule[0], Owner);
            var s := Exec(INIT, trace);
            var t := Exec(s, labels);
            && Tracks(trace + labels, log + [Yielded(me)], plan, if schedule == [] then [] else schedule[1..])
            && Exec(INIT, trace + labels) == t && SamePlace(me, s, t) && Later(s, t)
            && (schedule == [] ==> t == s)
            && (me.RxTask? && Resetting(s) ==> Left(t) <= Left(s) && RxRuns(trace + labels) == RxRuns(trace))
  {
    hide Exec, SamePlace, Later, Left, Resetting, RxRuns, Tracks, Others;
    TrackYielded(me, trace, log, plan, schedule);
    OthersRun(me, trace, if schedule == [] then [] else Others(me, schedule[0], Owner));
  }

  /** `me` lets the others run `n` times. */
  function Pauses(me: Who, n: nat): Log {
    seq(n, _ => Yielded(me))
  }

  /** `resetState` takes `n` commands or packets and frees them. */
  function Drains(n: nat): Log {
    if n == 0 then [] else Drains(n - 1) + [Did(RxRun), Yielded(RxTask), Did(RxRun), Yielded(RxTask)]
  }

  // ---- What the guarantees say to a task at a given place ----

  lemma ResetFindsLittle(labels: seq<Label>)
    ensures var s := Exec(INIT, labels);
            && (InReset(s) ==> s.cmdQueue == [])
            && (s.rxAt.ResettingPackets? ==> |s.txQueue| <= 1)
  {
    hide Next;
    RunInvariant(labels);
    var s := Exec(INIT, labels);
    assert s.rxAt.ResettingPackets? ==> |Contents(s.memory, s.txQueue) + ProcessHand(s.memory, s.processAt)| <= 1;
  }

  lemma CommandInHand(labels: seq<Label>, cmd: Command)
    requires Exec(INIT, labels).processAt == Processing(cmd)
    ensures Readable(Exec(INIT, labels), cmd) && 1 <= cmd.length <= 255
  {
    hide Next;
    RunInvariant(labels);
    HandsAreReadable(Exec(INIT, labels));
  }

  lemma PacketInHand(labels: seq<Label>, packet: Command)
    requires Exec(INIT, labels).transmitAt == Writing(packet)
    ensures Readable(Exec(INIT, labels), packet)
  {
    hide Next;
    RunInvariant(labels);
    HandsAreReadable(Exec(INIT, labels));
  }

  lemma {:induction false} HeardNeverEmpty(labels: seq<Label>)
    ensures Exec(INIT, labels).heard != []
  {
    hide Next;
    AcceptedIsParsed(labels);
  }

  lemma ReadStep(s: State, cmd: Command)
    requires s.processAt == Processing(cmd) && Readable(s, cmd) && cmd.length > 0
    ensures var bytes := s.memory[cmd.payload];
            Next(s, ProcessRun)
            == if bytes[0] == 0x00 then
                 s.(memory := s.memory + [bytes[1..]], live := s.live + {|s.memory|},
                    processAt := SendingPacket(cmd, Command(|s.memory|, |bytes[1..]|)))
               else s.(processAt := FreeingProcessed(cmd))
  {
  }

  lemma WriteStep(s: State, packet: Command)
    requires s.transmitAt == Writing(packet) && Readable(s, packet)
    ensures Next(s, TransmitRun)
            == s.(output := s.output + [s.memory[packet.payload]], transmitAt := FreeingWritten(packet))
  {
  }

  lemma ResetCommandsStep(s: State)
    requires s.rxAt.ResettingCommands?
    ensures Next(s, RxRun)
            == s.(lostCommands := s.lostCommands + s.cmdQueue, cmdQueue := [], rxAt := ResettingPackets)
  {
  }

  lemma ResetPacketsStep(s: State)
    requires s.rxAt.ResettingPackets?
    ensures Next(s, RxRun)
            == s.(lostPackets := s.lostPackets + s.txQueue, txQueue := [], rxAt := Listening)
  {
  }

  lemma HearStep(s: State, b: byte)
    requires s.rxAt.Listening? && s.heard != [] && Emit(s.rx, b) == []
    ensures Next(s, Receive(b)) == s.(rx := Step(s.rx, b), heard := FrameSegments.AddByte(s.heard, b))
  {
  }

  lemma EmitsOne(rx: Rx, b: byte)
    ensures |Emit(rx, b)| <= 1
  {
  }

  lemma HearPayloadStep(s: State, b: byte, payload: seq<byte>)
    requires s.rxAt.Listening? && s.heard != [] && Emit(s.rx, b) == [payload]
    ensures Next(s, Receive(b))
            == s.(rx := Step(s.rx, b), heard := FrameSegments.AddByte(s.heard, b),
                  accepted := s.accepted + [payload], memory := s.memory + [payload],
                  live := s.live + {|s.memory|}, rxAt := SendingCommand(Command(|s.memory|, |payload|)))
  {
  }

  lemma OneMoreStep(trace: seq<Label>, l: Label)
    ensures RxRuns(trace + [l]) == RxRuns(trace) + if l == RxRun then 1 else 0
  {
    assert (trace + [l])[..|trace|] == trace;
  }

  lemma {:induction false} QueuesFit(labels: seq<Label>)
    ensures |Exec(INIT, labels).cmdQueue| <= CMD_QUEUE_SIZE && |Exec(INIT, labels).txQueue| <= TX_QUEUE_SIZE
  {
    hide Next;
    RunInvariant(labels);
  }

  /** Both queues are empty, and what is still live the process task or the transmit task holds, or the reset
      of `_txQueue` discarded it. */
  ghost predicate SweptClean(s: State) {
    s.cmdQueue == [] && s.txQueue == [] && forall a :: a in s.live ==> InOtherHands(s, a)
  }

  predicate InOtherHands(s: State, a: Address) {
    ProcessHolds(s.processAt, a) + TransmitHolds(s.transmitAt, a) + Held(s.lostPackets, Points, a) == 1
  }

  lemma {:induction false} SweptByReset(labels: seq<Label>)
    requires var s := Exec(INIT, labels); s.rxAt.Listening? && s.cmdQueue == [] && s.txQueue == []
    ensures SweptClean(Exec(INIT, labels))
  {
    hide Next;
    RunInvariant(labels);
    var s := Exec(INIT, labels);
    forall a | a in s.live ensures InOtherHands(s, a) {
      assert Accounted(s, a);
    }
  }
}
