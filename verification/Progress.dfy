/** The pipeline comes to rest: a measure of the work there is, and what fair scheduling does to it. */
module Progress {
  import opened Config
  import opened FrameParser
  import opened FrameSegments
  import opened Interference
  import opened Pipeline
  import opened PipelineSafety
  import opened PipelineRuns
  import opened ShortFrame

  // ---- Work ----

  function RxWork(at: RxAt): nat {
    if at.SendingCommand? then 8 else if at.DroppingCommand? then 1 else Stage(at)
  }

  function ProcessWork(at: ProcessAt): nat {
    match at
    case Waiting => 0
    case Processing(_) => 6
    case SendingPacket(_, _) => 5
    case DroppingPacket(_, _) => 2
    case FreeingProcessed(_) => 1
  }

  function TransmitWork(at: TransmitAt): nat {
    match at
    case Writing(_) => 2
    case FreeingWritten(_) => 1
    case _ => 0
  }

  /** Seven steps for a queued command, three for a queued packet, and what is in hand. Everything counts twice, so
      that a transmitter that still has to look at `_rxIncomplete` before it takes a packet makes a difference. */
  function Work(s: State): nat {
    2 * (RxWork(s.rxAt) + 7 * |s.cmdQueue| + ProcessWork(s.processAt) + 3 * |s.txQueue| + TransmitWork(s.transmitAt))
    + if s.transmitAt.Checking? && s.txQueue != [] then 1 else 0
  }

  const MOST_WORK := 2 * (8 + 7 * CMD_QUEUE_SIZE + 6 + 3 * TX_QUEUE_SIZE + 2) + 1

  predicate Lowers(s: State, l: Label) {
    Work(Next(s, l)) < Work(s)
  }

  /** The same but for a transmitter that polls an empty queue. */
  predicate Same(s: State, t: State) {
    t == s || (s.txQueue == [] && Polls(s.transmitAt) && Polls(t.transmitAt) && t == s.(transmitAt := t.transmitAt))
  }

  predicate Polls(at: TransmitAt) {
    at.Checking? || at.Receiving?
  }

  lemma RxQueueWork(s: State)
    requires s.rxAt.SendingCommand? || s.rxAt.DrainingCommands? || s.rxAt.DrainingPackets?
    ensures Work(RxStep(s)) < Work(s) || RxStep(s) == s
  {
  }

  lemma RxFreeWork(s: State)
    requires s.rxAt.DroppingCommand? || s.rxAt.FreeingCommand? || s.rxAt.FreeingPacket?
    ensures Work(RxStep(s)) < Work(s)
  {
  }

  lemma RxResetWork(s: State)
    requires s.rxAt.ResettingCommands? || s.rxAt.ResettingPackets?
    ensures Work(RxStep(s)) < Work(s)
  {
  }

  lemma RxStepWork(s: State)
    ensures Work(RxStep(s)) < Work(s) || RxStep(s) == s
  {
    hide Work;
    match s.rxAt {
      case Listening =>
      case ResettingCommands => RxResetWork(s);
      case ResettingPackets => RxResetWork(s);
      case DroppingCommand(_) => RxFreeWork(s);
      case FreeingCommand(_) => RxFreeWork(s);
      case FreeingPacket(_) => RxFreeWork(s);
      case _ => RxQueueWork(s);
    }
  }

  lemma ProcessFreeWork(s: State)
    requires s.processAt.DroppingPacket? || s.processAt.FreeingProcessed?
    ensures Work(ProcessStep(s)) < Work(s)
  {
  }

  lemma ProcessReadWork(s: State)
    requires s.processAt.Processing? && Readable(s, s.processAt.cmd) && s.processAt.cmd.length > 0
    ensures Work(ProcessStep(s)) < Work(s)
  {
  }

  lemma ProcessQueueWork(s: State)
    requires s.processAt.Waiting? || s.processAt.SendingPacket?
    ensures Work(ProcessStep(s)) < Work(s) || ProcessStep(s) == s
  {
  }

  lemma ProcessStepWork(s: State)
    requires Invariant(s)
    ensures Work(ProcessStep(s)) < Work(s) || ProcessStep(s) == s
  {
    HandsAreReadable(s);
    hide Invariant, Readable, ProcessStep, Work;
    match s.processAt {
      case DroppingPacket(_, _) => ProcessFreeWork(s);
      case FreeingProcessed(_) => ProcessFreeWork(s);
      case Processing(_) => ProcessReadWork(s);
      case _ => ProcessQueueWork(s);
    }
  }

  lemma TransmitStepWork(s: State)
    requires Invariant(s)
    ensures Work(TransmitStep(s)) < Work(s) || Same(s, TransmitStep(s))
  {
    HandsAreReadable(s);
    hide Invariant, Readable;
  }

  lemma GiveUpWork(s: State, l: Label)
    requires l.RxGiveUp? || l.ProcessGiveUp?
    ensures Lowers(s, l) || Next(s, l) == s
  {
  }

  /** A step that neither brings a byte nor calls `resetState` gets something done or changes nothing. */
  lemma StepWork(s: State, l: Label)
    requires Invariant(s) && !l.Receive? && !l.SerialTimeout? && (l.Abandon? ==> s.rx.mode.Idle?)
    ensures Lowers(s, l) || Same(s, Next(s, l))
  {
    hide RxStep, ProcessStep, TransmitStep, Invariant, Work;
    match l {
      case RxRun => RxStepWork(s);
      case ProcessRun => ProcessStepWork(s);
      case TransmitRun => TransmitStepWork(s);
      case RxGiveUp => GiveUpWork(s, l);
      case ProcessGiveUp => GiveUpWork(s, l);
      case Abandon =>
    }
  }

  // ---- What a run costs ----

  /** Work that a step brings in: a payload 16, a call of `resetState` 8. */
  lemma StepCost(s: State, l: Label)
    requires Invariant(s)
    ensures Work(Next(s, l)) <= Work(s) + 16 * (|Next(s, l).accepted| - |s.accepted|)
                                + (if l == SerialTimeout then 8 else 0)
    ensures |s.accepted| <= |Next(s, l).accepted|
  {
    hide RxStep, ProcessStep, TransmitStep, ReceiveStep, Invariant;
    match l {
      case Receive(b) => if s.rxAt.Listening? { ReceiveCost(s, b); }
      case RxRun => RxStepWork(s); AcceptsNothing(s);
      case ProcessRun => ProcessStepWork(s); ProcessLeavesRx(s);
      case TransmitRun => TransmitStepWork(s); TransmitLeavesRx(s);
      case _ =>
    }
  }

  lemma ReceiveCost(s: State, b: byte)
    requires s.rxAt.Listening?
    ensures var t := ReceiveStep(s, b);
            && |s.accepted| <= |t.accepted| && Work(t) <= Work(s) + 16 * (|t.accepted| - |s.accepted|)
  {
    hide Step, AddByte;
  }

  lemma AcceptsNothing(s: State)
    ensures RxStep(s).accepted == s.accepted
  {
  }

  lemma ArrivalsDoNothing(s: State, l: Label)
    requires l.Receive? || l.SerialTimeout?
    ensures !Lowers(s, l)
  {
    hide Emit, Step;
  }

  /** Steps of a run that get something done. */
  function Effects(s: State, labels: seq<Label>): nat {
    if labels == [] then 0
    else Effects(s, labels[..|labels| - 1])
         + if Lowers(Exec(s, labels[..|labels| - 1]), labels[|labels| - 1]) then 1 else 0
  }

  /** In every interleaving: what gets done is paid for by the payloads that came in and the timeouts. */
  lemma {:induction false} WorkIsPaidFor(s: State, labels: seq<Label>)
    requires Invariant(s)
    ensures var t := Exec(s, labels);
            && Invariant(t) && |s.accepted| <= |t.accepted|
            && Effects(s, labels) + Work(t) <= Work(s) + 16 * (|t.accepted| - |s.accepted|) + 8 * Timeouts(labels)
    decreases |labels|
  {
    hide Next, Invariant, Work;
    if labels != [] {
      var front, l := labels[..|labels| - 1], labels[|labels| - 1];
      WorkIsPaidFor(s, front);
      NextInvariant(Exec(s, front), l);
      StepCost(Exec(s, front), l);
      if l.Receive? || l.SerialTimeout? {
        ArrivalsDoNothing(Exec(s, front), l);
      }
    }
  }

  // ---- Never stuck ----

  lemma RxStays(s: State)
    ensures RxStep(s) == s ==> s.rxAt.Listening? || (s.rxAt.SendingCommand? && |s.cmdQueue| >= CMD_QUEUE_SIZE)
  {
  }

  lemma RxBlocked(s: State)
    requires !Lowers(s, RxRun)
    ensures s.rxAt.Listening? || (s.rxAt.SendingCommand? && s.cmdQueue != [])
  {
    hide RxStep, Work;
    RxStepWork(s);
    RxStays(s);
  }

  lemma ProcessStays(s: State)
    requires Invariant(s) && ProcessStep(s) == s
    ensures (s.processAt.Waiting? && s.cmdQueue == []) || (s.processAt.SendingPacket? && s.txQueue != [])
  {
    HandsAreReadable(s);
    hide Invariant, Readable;
  }

  lemma ProcessBlocked(s: State)
    requires Invariant(s) && !Lowers(s, ProcessRun)
    ensures (s.processAt.Waiting? && s.cmdQueue == []) || (s.processAt.SendingPacket? && s.txQueue != [])
  {
    hide Invariant, ProcessStep, Work;
    ProcessStepWork(s);
    ProcessStays(s);
  }

  lemma TransmitBlocked(s: State)
    requires Invariant(s) && !Lowers(s, TransmitRun)
    ensures Polls(s.transmitAt) && (s.txQueue != [] ==> s.transmitAt.Checking? && !s.rx.mode.Idle?)
  {
    HandsAreReadable(s);
    hide Invariant, Readable;
  }

  /** Nothing queued and no task with anything in hand; the transmitter may be polling. */
  predicate Finished(s: State) {
    && s.rxAt.Listening? && s.processAt.Waiting? && Polls(s.transmitAt)
    && s.cmdQueue == [] && s.txQueue == []
  }

  /** With no frame open, some task can get something done unless all is finished. */
  lemma {:induction false} NotStuck(s: State)
    requires Invariant(s) && s.rx.mode.Idle?
    ensures Lowers(s, RxRun) || Lowers(s, ProcessRun) || Lowers(s, TransmitRun) <==> !Finished(s)
  {
    if !Lowers(s, RxRun) && !Lowers(s, ProcessRun) && !Lowers(s, TransmitRun) {
      RxBlocked(s);
      ProcessBlocked(s);
      TransmitBlocked(s);
    }
    if Finished(s) {
      FinishedDoesNothing(s);
    }
  }

  lemma FinishedDoesNothing(s: State)
    ensures Finished(s) <==> Work(s) == 0
    ensures Finished(s) ==> !Lowers(s, RxRun) && !Lowers(s, ProcessRun) && !Lowers(s, TransmitRun)
  {
    hide Next;
  }

  /** When the pipeline is stuck all the same, a frame is open and holds the transmitter back; the inter-byte
      timeout sets it free. */
  lemma {:induction false} StuckBehindAFrame(s: State)
    requires Invariant(s) && !Finished(s)
    requires !Lowers(s, RxRun) && !Lowers(s, ProcessRun) && !Lowers(s, TransmitRun)
    ensures !s.rx.mode.Idle? && s.transmitAt.Checking? && s.txQueue != []
    ensures s.rxAt.Listening? ==> Lowers(Next(s, Abandon), TransmitRun)
  {
    RxBlocked(s);
    ProcessBlocked(s);
    TransmitBlocked(s);
    if s.rxAt.Listening? {
      AbandonFrees(s);
    }
    hide Invariant, Next;
  }

  lemma AbandonFrees(s: State)
    requires s.rxAt.Listening? && !s.rx.mode.Idle? && s.transmitAt.Checking? && s.txQueue != []
    ensures Lowers(Next(s, Abandon), TransmitRun)
  {
  }

  /** A packet is queued, and then a frame opens. */
  const HELD_BACK: seq<Label> :=
    SHORT_FRAME + [RxRun] + [ProcessRun] + [ProcessRun] + [ProcessRun] + [ProcessRun] + [Receive(0x55)]

  lemma QueueCopy(s: State)
    requires s.processAt.SendingPacket? && s.txQueue == [] && s.processAt.cmd.payload in s.live
    ensures Next(Next(s, ProcessRun), ProcessRun)
            == s.(txQueue := [s.processAt.packet], processAt := Waiting, live := s.live - {s.processAt.cmd.payload})
  {
  }

  lemma HeldStretches(s: State, copied: State)
    requires copied == Next(Next(Next(Exec(s, SHORT_FRAME), RxRun), ProcessRun), ProcessRun)
    ensures Exec(s, HELD_BACK) == Next(Next(Next(copied, ProcessRun), ProcessRun), Receive(0x55))
  {
    hide Exec, Next;
    var l1 := SHORT_FRAME + [RxRun];
    var l3 := l1 + [ProcessRun] + [ProcessRun];
    ExecSnoc(s, SHORT_FRAME, RxRun);
    ExecSnoc(s, l1, ProcessRun);
    ExecSnoc(s, l1 + [ProcessRun], ProcessRun);
    ExecSnoc(s, l3, ProcessRun);
    ExecSnoc(s, l3 + [ProcessRun], ProcessRun);
    ExecSnoc(s, l3 + [ProcessRun] + [ProcessRun], Receive(0x55));
  }

  /** So it does happen that a packet waits with no task able to get anything done. */
  lemma {:induction false} HeldBackBehindAFrame()
    ensures var s := Exec(INIT, HELD_BACK);
            && s.txQueue == [Command(1, 0)] && s.rx.mode == AwaitLength
            && !Finished(s) && !Lowers(s, RxRun) && !Lowers(s, ProcessRun) && !Lowers(s, TransmitRun)
  {
    hide Exec, Next, Work;
    HearShortFrame(INIT);
    var accepted := Exec(INIT, SHORT_FRAME);
    SendStep(accepted);
    CopyPayload(Next(accepted, RxRun));
    var copied := Next(Next(Next(accepted, RxRun), ProcessRun), ProcessRun);
    QueueCopy(copied);
    HeldStretches(INIT, copied);
    HearStep(Next(Next(copied, ProcessRun), ProcessRun), 0x55);
    NothingToDo(Exec(INIT, HELD_BACK));
  }

  lemma NothingToDo(s: State)
    requires s.rxAt.Listening? && s.processAt.Waiting? && s.cmdQueue == []
    requires s.transmitAt.Checking? && !s.rx.mode.Idle?
    ensures Next(s, RxRun) == Next(s, ProcessRun) == Next(s, TransmitRun) == s
  {
  }

  // ---- Fair runs come to rest ----

  /** No byte arrives and `resetState` is not called. */
  predicate NoArrivals(labels: seq<Label>) {
    forall i :: 0 <= i < |labels| ==> !labels[i].Receive? && !labels[i].SerialTimeout?
  }

  /** Every task gets to run at least once, in any order, and as often as it likes. */
  predicate FairRound(labels: seq<Label>) {
    NoArrivals(labels) && RxRun in labels && ProcessRun in labels && TransmitRun in labels
  }

  lemma StaysCalm(s: State, l: Label)
    requires s.rx.mode.Idle? && !l.Receive?
    ensures Next(s, l).rx == s.rx
  {
    hide RxStep, ProcessStep, TransmitStep;
    RxKeepsParser(s);
    ProcessLeavesRx(s);
    TransmitLeavesRx(s);
  }

  lemma RxKeepsParser(s: State)
    ensures RxStep(s).rx == s.rx
  {
  }

  /** Polling an empty queue makes no difference to what a step gets done. */
  lemma SameLowers(s: State, t: State, l: Label)
    requires Same(s, t) && Invariant(t) && Runs(l) && Lowers(s, l)
    ensures Lowers(t, l)
  {
    hide RxStep, ProcessStep, TransmitStep, Work, Invariant;
    if t != s {
      if l == RxRun {
        PollingAndRx(s, t);
        RxStepWork(t);
      } else if l == ProcessRun {
        PollingAndProcess(s, t);
        ProcessStepWork(t);
      } else {
        PollingIsNoWork(s);
      }
    }
  }

  lemma PollingAndRx(s: State, t: State)
    requires Same(s, t) && t != s
    ensures RxStep(t) == t ==> RxStep(s) == s
  {
  }

  lemma PollingAndProcess(s: State, t: State)
    requires Same(s, t) && t != s
    ensures ProcessStep(t) == t ==> ProcessStep(s) == s
  {
  }

  lemma PollingIsNoWork(s: State)
    requires s.txQueue == [] && Polls(s.transmitAt)
    ensures Work(TransmitStep(s)) == Work(s)
  {
  }

  lemma SameTwice(s: State, t: State, u: State)
    requires Same(s, t) && Same(t, u)
    ensures Same(s, u) && Work(t) == Work(s)
  {
  }

  /** A stretch without arrivals gets something done, or nothing in it could. */
  lemma {:induction false} FallsOrStalls(s: State, labels: seq<Label>)
    requires Invariant(s) && s.rx.mode.Idle? && NoArrivals(labels)
    ensures var t := Exec(s, labels);
            && Invariant(t) && t.rx == s.rx && Work(t) <= Work(s)
            && (Work(t) < Work(s) ||
                (Same(s, t) && forall l :: l in labels && Runs(l) ==> !Lowers(s, l)))
    decreases |labels|
  {
    hide Next, Invariant, Work, Same;
    if labels == [] {
      SameAsBefore(s);
    } else {
      var front, l := labels[..|labels| - 1], labels[|labels| - 1];
      FallsOrStalls(s, front);
      var t := Exec(s, front);
      NextInvariant(t, l);
      StaysCalm(t, l);
      StepWork(t, l);
      if Same(t, Next(t, l)) {
        SameTwice(t, Next(t, l), Next(t, l)) by { SameAsBefore(Next(t, l)); }
      }
      if Work(t) == Work(s) && Same(s, t) && !Lowers(t, l) {
        SameTwice(s, t, Next(t, l));
        if Runs(l) && Lowers(s, l) {
          SameLowers(s, t, l);
        }
      }
      assert labels == front + [l];
    }
  }

  predicate Runs(l: Label) {
    l == RxRun || l == ProcessRun || l == TransmitRun
  }

  lemma SameAsBefore(s: State)
    ensures Same(s, s)
  {
  }

  /** A fair round with no frame open gets something done, unless there is nothing left to do. */
  lemma FairRoundWorks(s: State, labels: seq<Label>)
    requires Invariant(s) && s.rx.mode.Idle? && FairRound(labels)
    ensures var t := Exec(s, labels);
            && Invariant(t) && t.rx == s.rx && Work(t) <= Work(s)
            && (Work(s) > 0 ==> Work(t) < Work(s))
  {
    hide Exec, Next, Invariant, Work;
    FallsOrStalls(s, labels);
    NotStuck(s);
    FinishedDoesNothing(s);
  }

  function Flat(rounds: seq<seq<Label>>): seq<Label> {
    if rounds == [] then [] else Flat(rounds[..|rounds| - 1]) + rounds[|rounds| - 1]
  }

  lemma {:induction false} FairRoundsWork(s: State, rounds: seq<seq<Label>>)
    requires Invariant(s) && s.rx.mode.Idle?
    requires forall i :: 0 <= i < |rounds| ==> FairRound(rounds[i])
    ensures var t := Exec(s, Flat(rounds));
            && Invariant(t) && t.rx == s.rx
            && Work(t) <= (if Work(s) > |rounds| then Work(s) - |rounds| else 0)
    decreases |rounds|
  {
    hide Next, Invariant, Work, FairRound;
    if rounds != [] {
      var front, last := rounds[..|rounds| - 1], rounds[|rounds| - 1];
      FairRoundsWork(s, front);
      ExecAppend(s, Flat(front), last);
      FairRoundWorks(Exec(s, Flat(front)), last);
    }
  }

  lemma WorkIsBounded(s: State)
    requires Invariant(s)
    ensures Work(s) <= MOST_WORK
  {
    hide Invariant;
    QueuesBounded(s);
  }

  lemma QueuesBounded(s: State)
    requires Invariant(s)
    ensures |s.cmdQueue| <= CMD_QUEUE_SIZE && |s.txQueue| <= TX_QUEUE_SIZE
  {
  }

  /** Whatever has happened: with no frame open and no more arrivals, every fair run is finished within 673 rounds. */
  lemma {:induction false} FairRunsFinish(before: seq<Label>, rounds: seq<seq<Label>>)
    requires Exec(INIT, before).rx.mode.Idle?
    requires |rounds| >= MOST_WORK && forall i :: 0 <= i < |rounds| ==> FairRound(rounds[i])
    ensures Finished(Exec(INIT, before + Flat(rounds)))
  {
    hide Exec, Next, Invariant, Work, FairRound, Finished;
    RunInvariant(before);
    WorkIsBounded(Exec(INIT, before));
    FairRoundsWork(Exec(INIT, before), rounds);
    ExecAppend(INIT, before, Flat(rounds));
    FinishedDoesNothing(Exec(INIT, before + Flat(rounds)));
  }

  /** The three tasks in turn. */
  const ROUND: seq<Label> := [RxRun, ProcessRun, TransmitRun]

  /** In particular when they simply take turns. */
  lemma {:induction false} TakingTurnsFinishes(before: seq<Label>)
    requires Exec(INIT, before).rx.mode.Idle?
    ensures Finished(Exec(INIT, before + Flat(seq(MOST_WORK, _ => ROUND))))
  {
    hide Exec, Next, Finished, Flat;
    var rounds := seq(MOST_WORK, _ => ROUND);
    assert RxRun == ROUND[0] && ProcessRun == ROUND[1] && TransmitRun == ROUND[2];
    FairRunsFinish(before, rounds);
  }

  lemma {:induction false} FinishedIsComplete(labels: seq<Label>)
    requires Lossless(labels) && Finished(Exec(INIT, labels))
    ensures var s := Exec(INIT, labels); s.output == Relay(s.accepted)
  {
    hide Exec;
    LosslessIsExact(labels);
    var s := Exec(INIT, labels);
    assert Contents(s.memory, []) == [];
    assert InTransit(s) == s.output;
  }

  lemma {:induction false} FlatNeverLoses(rounds: seq<seq<Label>>)
    requires forall i :: 0 <= i < |rounds| ==> NeverLoses(rounds[i])
    ensures NeverLoses(Flat(rounds))
    decreases |rounds|
  {
    if rounds != [] {
      FlatNeverLoses(rounds[..|rounds| - 1]);
    }
  }

  /** If nothing was lost before and no send gives up, every fair run writes all that is to be relayed of what was
      heard, within 673 rounds. */
  lemma {:induction false} FairRunsDeliver(before: seq<Label>, rounds: seq<seq<Label>>)
    requires Lossless(before) && Exec(INIT, before).rx.mode.Idle?
    requires |rounds| >= MOST_WORK
    requires forall i :: 0 <= i < |rounds| ==> FairRound(rounds[i]) && NeverLoses(rounds[i])
    ensures var s := Exec(INIT, before + Flat(rounds));
            s.output == Relay(ParseAll(0, s.heard))
  {
    hide Exec, Next, FairRound, Finished, NeverLoses;
    FairRunsFinish(before, rounds);
    FlatNeverLoses(rounds);
    LosslessGoesOn(before, Flat(rounds));
    FinishedIsComplete(before + Flat(rounds));
    AcceptedIsParsed(before + Flat(rounds));
  }
}
