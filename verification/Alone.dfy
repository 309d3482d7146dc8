/** What a turn of a task amounts to when the schedule has nothing left for the others. */
module Alone {
  import opened Config
  import opened FrameParser
  import opened Interference
  import opened Ownership
  import opened Pipeline
  import opened PipelineSafety
  import opened Turns
  import FrameSegments

  /** What became of a payload or a packet. */
  datatype Outcome = Nothing | Ignored | Queued(entry: Command) | Dropped(entry: Command)

  /** What a turn of `_txTask` did: an open frame held it back, it found no packet, or it wrote one. */
  datatype Transmission = HeldBack | Empty | Written(packet: Command)

  /** The moves of a send that fails, and those of one that succeeds. */
  function CommandMoves(waits: nat, outcome: Outcome): Log {
    Pauses(RxTask, waits) +
    if outcome.Queued? then [Did(RxRun)] else [Did(RxGiveUp), Yielded(RxTask), Did(RxRun)]
  }

  function PacketMoves(waits: nat, outcome: Outcome): Log {
    Pauses(ProcessTask, waits) +
    if outcome.Queued? then [Did(ProcessRun)] else [Did(ProcessGiveUp), Yielded(ProcessTask), Did(ProcessRun)]
  }

  /** The moves of a call of `resetState` that finds so many commands and packets. */
  function ResetMoves(commands: nat, packets: nat): Log {
    [Yielded(RxTask)] + Drains(commands) + [Did(RxRun)] + [Yielded(RxTask)] + Drains(packets) + [Did(RxRun)]
    + [Yielded(RxTask), Did(RxRun), Yielded(RxTask), Did(RxRun)]
  }

  /** The buffers a queue points to. */
  function Buffers(queue: seq<Command>): set<Address> {
    set i | 0 <= i < |queue| :: queue[i].payload
  }

  /** What `_processTask` has copied for a payload. */
  function Copied(outcome: Outcome, payload: seq<byte>): seq<seq<byte>> {
    if outcome.Ignored? || payload == [] then [] else [payload[1..]]
  }

  // ---- One move ----

  /** The state a log leads to. */
  ghost function StateOf(log: Log, plan: seq<seq<Label>>): State {
    Exec(INIT, Play(log, plan, Owner))
  }

  /** The plan has nothing left. */
  ghost predicate Exhausted(log: Log, plan: seq<seq<Label>>) {
    Rest(plan, Yields(log)) == []
  }

  lemma StateIsSound(log: Log, plan: seq<seq<Label>>)
    ensures Invariant(StateOf(log, plan))
  {
    hide Invariant;
    RunInvariant(Play(log, plan, Owner));
  }

  lemma StepAlone(log: Log, plan: seq<seq<Label>>, l: Label)
    requires Exhausted(log, plan)
    ensures Exhausted(log + [Did(l)], plan) && StateOf(log + [Did(l)], plan) == Next(StateOf(log, plan), l)
  {
    hide Next, Rest, Play;
    PlayDid(log, l, plan, Owner);
    var trace := Play(log, plan, Owner);
    assert (trace + [l])[..|trace|] == trace;
  }

  lemma PauseAlone(log: Log, plan: seq<seq<Label>>, me: Who)
    requires Exhausted(log, plan)
    ensures Exhausted(log + [Yielded(me)], plan) && StateOf(log + [Yielded(me)], plan) == StateOf(log, plan)
  {
    hide Rest, Play;
    PlayYielded(log, me, plan, Owner);
    var trace := Play(log, plan, Owner);
    assert trace + [] == trace;
  }

  lemma StepThenPause(log: Log, plan: seq<seq<Label>>, l: Label, me: Who)
    requires Exhausted(log, plan)
    ensures var longer := log + [Did(l), Yielded(me)];
            Exhausted(longer, plan) && StateOf(longer, plan) == Next(StateOf(log, plan), l)
  {
    hide Exhausted, StateOf, Next;
    StepAlone(log, plan, l);
    PauseAlone(log + [Did(l)], plan, me);
    assert log + [Did(l)] + [Yielded(me)] == log + [Did(l), Yielded(me)];
  }

  lemma PauseThenStep(log: Log, plan: seq<seq<Label>>, me: Who, l: Label)
    requires Exhausted(log, plan)
    ensures var longer := log + [Yielded(me), Did(l)];
            Exhausted(longer, plan) && StateOf(longer, plan) == Next(StateOf(log, plan), l)
  {
    hide Exhausted, StateOf, Next;
    PauseAlone(log, plan, me);
    StepAlone(log + [Yielded(me)], plan, l);
    assert log + [Yielded(me)] + [Did(l)] == log + [Yielded(me), Did(l)];
  }

  lemma {:induction false} PausesAlone(log: Log, plan: seq<seq<Label>>, me: Who, n: nat)
    requires Exhausted(log, plan)
    ensures Exhausted(log + Pauses(me, n), plan) && StateOf(log + Pauses(me, n), plan) == StateOf(log, plan)
  {
    hide Exhausted, StateOf;
    if n == 0 {
      assert log + Pauses(me, 0) == log;
    } else {
      PausesAlone(log, plan, me, n - 1);
      PauseAlone(log + Pauses(me, n - 1), plan, me);
      assert log + Pauses(me, n - 1) + [Yielded(me)] == log + Pauses(me, n);
    }
  }

  // ---- _processTask ----

  /** A turn that ends with an unrelayed, a queued or a dropped packet. */
  function ProcessMoves(waits: nat, outcome: Outcome): Log {
    [Did(ProcessRun), Yielded(ProcessTask), Did(ProcessRun)]
    + (if outcome.Ignored? then [] else [Yielded(ProcessTask)] + PacketMoves(waits, outcome))
    + [Yielded(ProcessTask), Did(ProcessRun)]
  }

  /** The command is gone; a queued packet has come. */
  function Processed(s: State, outcome: Outcome): State
    requires s.cmdQueue != [] && !outcome.Nothing?
  {
    var cmd := s.cmdQueue[0];
    s.(cmdQueue := s.cmdQueue[1..],
       memory := s.memory + Copied(outcome, At(s.memory, cmd)),
       live := s.live - {cmd.payload} + (if outcome.Queued? then {|s.memory|} else {}),
       txQueue := s.txQueue + if outcome.Queued? then [Command(|s.memory|, cmd.length - 1)] else [])
  }

  /** Which outcome it is. */
  predicate ProcessOutcome(s: State, outcome: Outcome)
    requires s.cmdQueue != []
  {
    var payload := At(s.memory, s.cmdQueue[0]);
    && (outcome.Ignored? <==> payload == [] || payload[0] != 0x00)
    && (outcome.Queued? ==> |s.txQueue| < TX_QUEUE_SIZE)
    && (outcome.Dropped? ==> |s.txQueue| == TX_QUEUE_SIZE)
  }

  lemma TakeAlone(s: State)
    requires s.processAt.Waiting? && s.cmdQueue != []
    ensures Next(s, ProcessRun) == s.(cmdQueue := s.cmdQueue[1..], processAt := Processing(s.cmdQueue[0]))
  {
  }

  lemma QueueAlone(s: State)
    requires s.processAt.SendingPacket? && |s.txQueue| < TX_QUEUE_SIZE
    ensures Next(s, ProcessRun)
            == s.(txQueue := s.txQueue + [s.processAt.packet], processAt := FreeingProcessed(s.processAt.cmd))
  {
  }

  lemma DropAlone(s: State)
    requires s.processAt.SendingPacket? && |s.txQueue| == TX_QUEUE_SIZE && s.processAt.packet.payload in s.live
    ensures Next(Next(s, ProcessGiveUp), ProcessRun)
            == s.(live := s.live - {s.processAt.packet.payload}, processAt := FreeingProcessed(s.processAt.cmd))
  {
  }

  lemma FreeAlone(s: State)
    requires s.processAt.FreeingProcessed? && s.processAt.cmd.payload in s.live
    ensures Next(s, ProcessRun) == s.(live := s.live - {s.processAt.cmd.payload}, processAt := Waiting)
  {
  }

  /** Where the process task is about to free its command, and what it has done with it. */
  predicate Handled(s: State, t: State, outcome: Outcome)
    requires s.cmdQueue != [] && !outcome.Nothing?
  {
    var cmd := s.cmdQueue[0];
    t == s.(cmdQueue := s.cmdQueue[1..], processAt := FreeingProcessed(cmd),
            memory := s.memory + Copied(outcome, At(s.memory, cmd)),
            live := s.live + (if outcome.Queued? then {|s.memory|} else {}),
            txQueue := s.txQueue + if outcome.Queued? then [Command(|s.memory|, cmd.length - 1)] else [])
  }

  lemma HeadIsSound(s: State)
    requires Invariant(s) && s.cmdQueue != []
    ensures Readable(s, s.cmdQueue[0]) && s.cmdQueue[0].length > 0 && |s.memory| !in s.live
  {
    HeldHere(s.cmdQueue, 0, Points, s.cmdQueue[0].payload);
    assert Accounted(s, s.cmdQueue[0].payload) && Accounted(s, |s.memory|);
  }

  /** Up to the copy, or to the decision that there is none. */
  lemma ReadAlone(s: State, ignored: bool)
    requires Invariant(s) && s.processAt.Waiting? && s.cmdQueue != []
    requires ignored <==> At(s.memory, s.cmdQueue[0]) == [] || At(s.memory, s.cmdQueue[0])[0] != 0x00
    ensures var cmd, bytes := s.cmdQueue[0], At(s.memory, s.cmdQueue[0]);
            Next(Next(s, ProcessRun), ProcessRun)
            == if ignored then s.(cmdQueue := s.cmdQueue[1..], processAt := FreeingProcessed(cmd))
               else s.(cmdQueue := s.cmdQueue[1..], memory := s.memory + [bytes[1..]], live := s.live + {|s.memory|},
                       processAt := SendingPacket(cmd, Command(|s.memory|, cmd.length - 1)))
  {
    HeadIsSound(s);
    TakeAlone(s);
    var taken := Next(s, ProcessRun);
    hide Next, Invariant;
    ReadStep(taken, s.cmdQueue[0]);
  }

  lemma IgnoreAlone(s: State)
    requires Invariant(s) && s.processAt.Waiting? && s.cmdQueue != [] && ProcessOutcome(s, Ignored)
    ensures Handled(s, Next(Next(s, ProcessRun), ProcessRun), Ignored)
  {
    hide Next, Invariant;
    ReadAlone(s, true);
  }

  lemma SendAlone(s: State, outcome: Outcome)
    requires Invariant(s) && s.processAt.Waiting? && s.cmdQueue != []
    requires outcome.Queued? && ProcessOutcome(s, outcome)
    ensures Handled(s, Next(Next(Next(s, ProcessRun), ProcessRun), ProcessRun), outcome)
  {
    hide Next, Invariant;
    ReadAlone(s, false);
    QueueAlone(Next(Next(s, ProcessRun), ProcessRun));
  }

  lemma GiveUpAlone(s: State, outcome: Outcome)
    requires Invariant(s) && s.processAt.Waiting? && s.cmdQueue != []
    requires outcome.Dropped? && ProcessOutcome(s, outcome)
    ensures Handled(s, Next(Next(Next(Next(s, ProcessRun), ProcessRun), ProcessGiveUp), ProcessRun), outcome)
  {
    HeadIsSound(s);
    hide Next, Invariant;
    ReadAlone(s, false);
    DropAlone(Next(Next(s, ProcessRun), ProcessRun));
    assert s.live + {|s.memory|} - {|s.memory|} == s.live;
  }

  lemma FinishAlone(s: State, t: State, outcome: Outcome)
    requires Invariant(s) && s.processAt.Waiting? && s.cmdQueue != [] && !outcome.Nothing?
    requires Handled(s, t, outcome)
    ensures Next(t, ProcessRun) == Processed(s, outcome)
  {
    HeadIsSound(s);
    hide Next, Invariant, Copied;
    FreeAlone(t);
    var a := s.cmdQueue[0].payload;
    assert s.live + {|s.memory|} - {a} == s.live - {a} + {|s.memory|};
  }

  /** The log of the turn up to the free. */
  lemma MovesToFree(log: Log, plan: seq<seq<Label>>, waits: nat, outcome: Outcome)
    requires Exhausted(log, plan) && !outcome.Nothing?
    ensures var s := StateOf(log, plan);
            var longer := log + [Did(ProcessRun), Yielded(ProcessTask), Did(ProcessRun)]
                          + if outcome.Ignored? then [] else [Yielded(ProcessTask)] + PacketMoves(waits, outcome);
            var read := Next(Next(s, ProcessRun), ProcessRun);
            && Exhausted(longer, plan)
            && StateOf(longer, plan) == match outcome
                                        case Queued(_) => Next(read, ProcessRun)
                                        case Dropped(_) => Next(Next(read, ProcessGiveUp), ProcessRun)
                                        case _ => read
  {
    hide Exhausted, StateOf, Next;
    StepThenPause(log, plan, ProcessRun, ProcessTask);
    var l2 := log + [Did(ProcessRun), Yielded(ProcessTask)];
    StepAlone(l2, plan, ProcessRun);
    var l3 := l2 + [Did(ProcessRun)];
    assert l3 == log + [Did(ProcessRun), Yielded(ProcessTask), Did(ProcessRun)];
    if !outcome.Ignored? {
      PauseAlone(l3, plan, ProcessTask);
      PacketMovesAlone(l3 + [Yielded(ProcessTask)], plan, waits, outcome);
      assert l3 + [Yielded(ProcessTask)] + PacketMoves(waits, outcome)
             == l3 + ([Yielded(ProcessTask)] + PacketMoves(waits, outcome));
    } else {
      assert l3 + [] == l3;
    }
  }

  lemma PacketMovesAlone(log: Log, plan: seq<seq<Label>>, waits: nat, outcome: Outcome)
    requires Exhausted(log, plan) && (outcome.Queued? || outcome.Dropped?)
    ensures var s, longer := StateOf(log, plan), log + PacketMoves(waits, outcome);
            && Exhausted(longer, plan)
            && StateOf(longer, plan)
               == if outcome.Queued? then Next(s, ProcessRun) else Next(Next(s, ProcessGiveUp), ProcessRun)
  {
    hide Exhausted, StateOf, Next;
    var l1 := log + Pauses(ProcessTask, waits);
    PausesAlone(log, plan, ProcessTask, waits);
    if outcome.Queued? {
      StepAlone(l1, plan, ProcessRun);
      assert l1 + [Did(ProcessRun)] == log + PacketMoves(waits, outcome);
    } else {
      StepThenPause(l1, plan, ProcessGiveUp, ProcessTask);
      var l2 := l1 + [Did(ProcessGiveUp), Yielded(ProcessTask)];
      StepAlone(l2, plan, ProcessRun);
      assert l2 + [Did(ProcessRun)] == log + PacketMoves(waits, outcome);
    }
  }

  /** The whole turn. */
  lemma ProcessTurnAlone(log: Log, plan: seq<seq<Label>>, waits: nat, outcome: Outcome)
    requires Exhausted(log, plan) && !outcome.Nothing?
    requires var s := StateOf(log, plan);
             s.processAt.Waiting? && s.cmdQueue != [] && ProcessOutcome(s, outcome)
    ensures StateOf(log + ProcessMoves(waits, outcome), plan) == Processed(StateOf(log, plan), outcome)
  {
    hide Exhausted, Next, Invariant, Handled, Processed, ProcessOutcome;
    StateIsSound(log, plan);
    var s := StateOf(log, plan);
    match outcome {
      case Queued(_) => SendAlone(s, outcome);
      case Dropped(_) => GiveUpAlone(s, outcome);
      case Ignored => IgnoreAlone(s);
    }
    MovesToFree(log, plan, waits, outcome);
    var l := log + [Did(ProcessRun), Yielded(ProcessTask), Did(ProcessRun)]
             + if outcome.Ignored? then [] else [Yielded(ProcessTask)] + PacketMoves(waits, outcome);
    PauseThenStep(l, plan, ProcessTask, ProcessRun);
    FinishAlone(s, StateOf(l, plan), outcome);
    assert l + [Yielded(ProcessTask), Did(ProcessRun)] == log + ProcessMoves(waits, outcome);
  }

  // ---- _txTask ----

  lemma LookAlone(s: State)
    requires s.transmitAt.Checking? && s.rx.mode.Idle?
    ensures Next(s, TransmitRun) == s.(transmitAt := Receiving)
    ensures s.txQueue == [] ==> Next(Next(s, TransmitRun), TransmitRun) == s
  {
  }

  lemma FirstPacketIsSound(s: State)
    requires Invariant(s) && s.txQueue != []
    ensures Readable(s, s.txQueue[0])
  {
    HeldHere(s.txQueue, 0, Points, s.txQueue[0].payload);
    assert Accounted(s, s.txQueue[0].payload);
    assert GoodPacket(s.memory, s.txQueue[0]);
  }

  lemma WriteAlone(s: State)
    requires Invariant(s) && s.transmitAt.Receiving? && s.txQueue != []
    ensures var packet := s.txQueue[0];
            Next(Next(Next(s, TransmitRun), TransmitRun), TransmitRun)
            == s.(transmitAt := Checking, txQueue := s.txQueue[1..],
                  output := s.output + [At(s.memory, packet)], live := s.live - {packet.payload})
  {
    FirstPacketIsSound(s);
    hide Invariant, Next;
    TakePacketAlone(s);
    WrittenAlone(Next(s, TransmitRun));
  }

  lemma TakePacketAlone(s: State)
    requires s.transmitAt.Receiving? && s.txQueue != []
    ensures Next(s, TransmitRun) == s.(txQueue := s.txQueue[1..], transmitAt := Writing(s.txQueue[0]))
  {
  }

  lemma WrittenAlone(s: State)
    requires s.transmitAt.Writing? && Readable(s, s.transmitAt.packet)
    ensures Next(Next(s, TransmitRun), TransmitRun)
            == s.(output := s.output + [At(s.memory, s.transmitAt.packet)], transmitAt := Checking,
                  live := s.live - {s.transmitAt.packet.payload})
  {
  }

  const LOOK: Log := [Did(TransmitRun), Yielded(TransmitTask), Did(TransmitRun)]
  const WRITE: Log := [Yielded(TransmitTask), Did(TransmitRun), Yielded(TransmitTask), Did(TransmitRun)]

  lemma LookMovesAlone(log: Log, plan: seq<seq<Label>>)
    requires Exhausted(log, plan)
    ensures Exhausted(log + LOOK, plan)
    ensures StateOf(log + LOOK, plan) == Next(Next(StateOf(log, plan), TransmitRun), TransmitRun)
  {
    hide Exhausted, StateOf, Next;
    StepThenPause(log, plan, TransmitRun, TransmitTask);
    var l2 := log + [Did(TransmitRun), Yielded(TransmitTask)];
    StepAlone(l2, plan, TransmitRun);
    assert l2 + [Did(TransmitRun)] == log + LOOK;
  }

  lemma WriteMovesAlone(log: Log, plan: seq<seq<Label>>)
    requires Exhausted(log, plan)
    ensures StateOf(log + WRITE, plan) == Next(Next(StateOf(log, plan), TransmitRun), TransmitRun)
  {
    hide Exhausted, StateOf, Next;
    PauseThenStep(log, plan, TransmitTask, TransmitRun);
    var l2 := log + [Yielded(TransmitTask), Did(TransmitRun)];
    PauseThenStep(l2, plan, TransmitTask, TransmitRun);
    assert l2 + [Yielded(TransmitTask), Did(TransmitRun)] == log + WRITE;
  }

  lemma TransmitTurnAlone(log: Log, plan: seq<seq<Label>>)
    requires Exhausted(log, plan)
    requires var s := StateOf(log, plan); s.transmitAt.Checking? && s.rx.mode.Idle?
    ensures var s := StateOf(log, plan);
            && (s.txQueue == [] ==> StateOf(log + LOOK, plan) == s)
            && (s.txQueue != [] ==>
                  StateOf(log + LOOK + WRITE, plan)
                  == s.(txQueue := s.txQueue[1..], output := s.output + [At(s.memory, s.txQueue[0])],
                        live := s.live - {s.txQueue[0].payload}))
  {
    hide Exhausted, StateOf, Next, Invariant;
    var s := StateOf(log, plan);
    LookAlone(s);
    LookMovesAlone(log, plan);
    if s.txQueue != [] {
      StateIsSound(log, plan);
      NextInvariant(s, TransmitRun);
      WriteAlone(Next(s, TransmitRun));
      WriteMovesAlone(log + LOOK, plan);
    }
  }

  // ---- _rxTask ----

  predicate ReceiveOutcome(s: State, b: byte, outcome: Outcome) {
    && !outcome.Ignored? && (outcome.Nothing? <==> Emit(s.rx, b) == [])
    && (outcome.Queued? ==> |s.cmdQueue| < CMD_QUEUE_SIZE)
    && (outcome.Dropped? ==> |s.cmdQueue| == CMD_QUEUE_SIZE)
  }

  /** The parser has the byte; an accepted payload is queued, or was copied and is freed again. */
  function Received(s: State, b: byte, outcome: Outcome): State
    requires s.heard != []
  {
    var found := Emit(s.rx, b);
    s.(rx := Step(s.rx, b), heard := FrameSegments.AddByte(s.heard, b), accepted := s.accepted + found,
       memory := s.memory + found, live := s.live + (if outcome.Queued? then {|s.memory|} else {}),
       cmdQueue := s.cmdQueue + if outcome.Queued? && found != [] then [Command(|s.memory|, |found[0]|)] else [])
  }

  function ReceiveMoves(b: byte, waits: nat, outcome: Outcome): Log {
    [Did(Receive(b))] + if outcome.Nothing? then [] else [Yielded(RxTask)] + CommandMoves(waits, outcome)
  }

  lemma CommandMovesAlone(log: Log, plan: seq<seq<Label>>, waits: nat, outcome: Outcome)
    requires Exhausted(log, plan) && (outcome.Queued? || outcome.Dropped?)
    ensures var s, longer := StateOf(log, plan), log + CommandMoves(waits, outcome);
            && Exhausted(longer, plan)
            && StateOf(longer, plan) == if outcome.Queued? then Next(s, RxRun) else Next(Next(s, RxGiveUp), RxRun)
  {
    hide Exhausted, StateOf, Next;
    var l1 := log + Pauses(RxTask, waits);
    PausesAlone(log, plan, RxTask, waits);
    if outcome.Queued? {
      StepAlone(l1, plan, RxRun);
      assert l1 + [Did(RxRun)] == log + CommandMoves(waits, outcome);
    } else {
      StepThenPause(l1, plan, RxGiveUp, RxTask);
      var l2 := l1 + [Did(RxGiveUp), Yielded(RxTask)];
      StepAlone(l2, plan, RxRun);
      assert l2 + [Did(RxRun)] == log + CommandMoves(waits, outcome);
    }
  }

  lemma HearAlone(s: State, b: byte, outcome: Outcome)
    requires Invariant(s) && s.rxAt.Listening? && s.heard != [] && Emit(s.rx, b) == []
    requires ReceiveOutcome(s, b, outcome)
    ensures outcome.Nothing? && Next(s, Receive(b)) == Received(s, b, outcome)
  {
    HearStep(s, b);
    hide Next, Invariant;
    assert s.accepted + [] == s.accepted && s.memory + [] == s.memory;
  }

  lemma SendCommandAlone(s: State)
    requires s.rxAt.SendingCommand?
    ensures |s.cmdQueue| < CMD_QUEUE_SIZE ==>
              Next(s, RxRun) == s.(cmdQueue := s.cmdQueue + [s.rxAt.cmd], rxAt := Listening)
    ensures |s.cmdQueue| == CMD_QUEUE_SIZE && s.rxAt.cmd.payload in s.live ==>
              Next(Next(s, RxGiveUp), RxRun) == s.(live := s.live - {s.rxAt.cmd.payload}, rxAt := Listening)
  {
  }

  lemma HearPayloadAlone(s: State, b: byte, outcome: Outcome, payload: seq<byte>)
    requires Invariant(s) && s.rxAt.Listening? && s.heard != [] && Emit(s.rx, b) == [payload]
    requires ReceiveOutcome(s, b, outcome)
    ensures var t := Next(s, Receive(b));
            Received(s, b, outcome) == if outcome.Queued? then Next(t, RxRun) else Next(Next(t, RxGiveUp), RxRun)
  {
    assert Accounted(s, |s.memory|);
    HearPayloadStep(s, b, payload);
    hide Next, Invariant, Emit, Step, FrameSegments.AddByte;
    SendCommandAlone(Next(s, Receive(b)));
    assert s.live + {|s.memory|} - {|s.memory|} == s.live;
  }

  lemma SomethingHeard(log: Log, plan: seq<seq<Label>>)
    ensures StateOf(log, plan).heard != []
  {
    HeardNeverEmpty(Play(log, plan, Owner));
  }

  lemma ReceiveAlone(log: Log, plan: seq<seq<Label>>, b: byte, waits: nat, outcome: Outcome)
    requires Exhausted(log, plan)
    requires var s := StateOf(log, plan); s.rxAt.Listening? && ReceiveOutcome(s, b, outcome)
    ensures StateOf(log, plan).heard != []
    ensures StateOf(log + ReceiveMoves(b, waits, outcome), plan) == Received(StateOf(log, plan), b, outcome)
  {
    hide Exhausted, StateOf, Next, Invariant, Received, Emit;
    StateIsSound(log, plan);
    SomethingHeard(log, plan);
    var s := StateOf(log, plan);
    StepAlone(log, plan, Receive(b));
    var l1 := log + [Did(Receive(b))];
    if outcome.Nothing? {
      HearAlone(s, b, outcome);
      assert l1 == log + ReceiveMoves(b, waits, outcome);
    } else {
      EmitsOne(s.rx, b);
      assert Emit(s.rx, b) == [Emit(s.rx, b)[0]];
      HearPayloadAlone(s, b, outcome, Emit(s.rx, b)[0]);
      PauseAlone(l1, plan, RxTask);
      CommandMovesAlone(l1 + [Yielded(RxTask)], plan, waits, outcome);
      assert l1 + [Yielded(RxTask)] + CommandMoves(waits, outcome) == log + ReceiveMoves(b, waits, outcome);
    }
  }

  // ---- resetState ----

  /** Both queues are gone, with the buffers they pointed to. */
  function Reset(s: State): State {
    s.(rxAt := Listening, cmdQueue := [], txQueue := [], carried := ProcessHand(s.memory, s.processAt),
       live := s.live - Buffers(s.cmdQueue) - Buffers(s.txQueue))
  }

  lemma NoBuffers()
    ensures Buffers([]) == {}
  {
  }

  lemma BuffersSnoc(queue: seq<Command>, n: nat)
    requires n < |queue|
    ensures Buffers(queue[..n + 1]) == Buffers(queue[..n]) + {queue[n].payload}
  {
    forall a | a in Buffers(queue[..n + 1]) ensures a in Buffers(queue[..n]) + {queue[n].payload} {
      var i :| 0 <= i < n + 1 && queue[..n + 1][i].payload == a;
      if i < n {
        assert queue[..n][i].payload == a;
      }
    }
    forall a | a in Buffers(queue[..n]) ensures a in Buffers(queue[..n + 1]) {
      var i :| 0 <= i < n && queue[..n][i].payload == a;
      assert queue[..n + 1][i].payload == a;
    }
    assert queue[..n + 1][n].payload == queue[n].payload;
  }

  lemma DropCommandAlone(s: State)
    requires Invariant(s) && s.rxAt.DrainingCommands? && s.cmdQueue != []
    ensures Next(Next(s, RxRun), RxRun)
            == s.(cmdQueue := s.cmdQueue[1..], live := s.live - {s.cmdQueue[0].payload})
  {
    HeadIsSound(s);
    hide Invariant;
    TakenCommandAlone(s);
    FreedAlone(Next(s, RxRun));
  }

  lemma DropPacketAlone(s: State)
    requires Invariant(s) && s.rxAt.DrainingPackets? && s.txQueue != []
    ensures Next(Next(s, RxRun), RxRun)
            == s.(txQueue := s.txQueue[1..], live := s.live - {s.txQueue[0].payload})
  {
    FirstPacketIsSound(s);
    hide Invariant;
    TakenPacketAlone(s);
    FreedAlone(Next(s, RxRun));
  }

  lemma TakenCommandAlone(s: State)
    requires s.rxAt.DrainingCommands? && s.cmdQueue != []
    ensures Next(s, RxRun) == s.(cmdQueue := s.cmdQueue[1..], rxAt := FreeingCommand(s.cmdQueue[0]))
  {
  }

  lemma TakenPacketAlone(s: State)
    requires s.rxAt.DrainingPackets? && s.txQueue != []
    ensures Next(s, RxRun) == s.(txQueue := s.txQueue[1..], rxAt := FreeingPacket(s.txQueue[0]))
  {
  }

  lemma FreedAlone(s: State)
    requires (s.rxAt.FreeingCommand? || s.rxAt.FreeingPacket?) && s.rxAt.cmd.payload in s.live
    ensures Next(s, RxRun) == s.(live := s.live - {s.rxAt.cmd.payload},
                                 rxAt := if s.rxAt.FreeingCommand? then DrainingCommands else DrainingPackets)
  {
  }

  lemma TwoStepsAlone(log: Log, plan: seq<seq<Label>>)
    requires Exhausted(log, plan)
    ensures var longer := log + [Did(RxRun), Yielded(RxTask), Did(RxRun), Yielded(RxTask)];
            Exhausted(longer, plan) && StateOf(longer, plan) == Next(Next(StateOf(log, plan), RxRun), RxRun)
  {
    hide Exhausted, StateOf, Next;
    StepThenPause(log, plan, RxRun, RxTask);
    var l2 := log + [Did(RxRun), Yielded(RxTask)];
    StepThenPause(l2, plan, RxRun, RxTask);
    assert l2 + [Did(RxRun), Yielded(RxTask)] == log + [Did(RxRun), Yielded(RxTask), Did(RxRun), Yielded(RxTask)];
  }

  lemma CommandsShrink(s: State, n: nat)
    requires n < |s.cmdQueue|
    ensures var t := s.(cmdQueue := s.cmdQueue[n..], live := s.live - Buffers(s.cmdQueue[..n]));
            t.(cmdQueue := t.cmdQueue[1..], live := t.live - {t.cmdQueue[0].payload})
            == s.(cmdQueue := s.cmdQueue[n + 1..], live := s.live - Buffers(s.cmdQueue[..n + 1]))
  {
    BuffersSnoc(s.cmdQueue, n);
    hide Buffers;
    assert s.cmdQueue[n..][1..] == s.cmdQueue[n + 1..];
  }

  lemma {:induction false} DrainCommandsAlone(log: Log, plan: seq<seq<Label>>, n: nat)
    requires Exhausted(log, plan)
    requires var s := StateOf(log, plan); s.rxAt.DrainingCommands? && n <= |s.cmdQueue|
    ensures var s := StateOf(log, plan);
            && Exhausted(log + Drains(n), plan)
            && StateOf(log + Drains(n), plan)
               == s.(cmdQueue := s.cmdQueue[n..], live := s.live - Buffers(s.cmdQueue[..n]))
  {
    hide Exhausted, StateOf, Next, Invariant, Buffers;
    var s := StateOf(log, plan);
    if n == 0 {
      assert log + Drains(0) == log;
      NoBuffers();
    } else {
      DrainCommandsAlone(log, plan, n - 1);
      var front := log + Drains(n - 1);
      StateIsSound(front, plan);
      DropCommandAlone(StateOf(front, plan));
      TwoStepsAlone(front, plan);
      CommandsShrink(s, n - 1);
      assert front + [Did(RxRun), Yielded(RxTask), Did(RxRun), Yielded(RxTask)] == log + Drains(n);
    }
  }

  lemma PacketsShrink(s: State, n: nat)
    requires n < |s.txQueue|
    ensures var t := s.(txQueue := s.txQueue[n..], live := s.live - Buffers(s.txQueue[..n]));
            t.(txQueue := t.txQueue[1..], live := t.live - {t.txQueue[0].payload})
            == s.(txQueue := s.txQueue[n + 1..], live := s.live - Buffers(s.txQueue[..n + 1]))
  {
    BuffersSnoc(s.txQueue, n);
    hide Buffers;
    assert s.txQueue[n..][1..] == s.txQueue[n + 1..];
  }

  lemma {:induction false} DrainPacketsAlone(log: Log, plan: seq<seq<Label>>, n: nat)
    requires Exhausted(log, plan)
    requires var s := StateOf(log, plan); s.rxAt.DrainingPackets? && n <= |s.txQueue|
    ensures var s := StateOf(log, plan);
            && Exhausted(log + Drains(n), plan)
            && StateOf(log + Drains(n), plan)
               == s.(txQueue := s.txQueue[n..], live := s.live - Buffers(s.txQueue[..n]))
  {
    hide Exhausted, StateOf, Next, Invariant, Buffers;
    var s := StateOf(log, plan);
    if n == 0 {
      assert log + Drains(0) == log;
      NoBuffers();
    } else {
      DrainPacketsAlone(log, plan, n - 1);
      var front := log + Drains(n - 1);
      StateIsSound(front, plan);
      DropPacketAlone(StateOf(front, plan));
      TwoStepsAlone(front, plan);
      PacketsShrink(s, n - 1);
      assert front + [Did(RxRun), Yielded(RxTask), Did(RxRun), Yielded(RxTask)] == log + Drains(n);
    }
  }

  lemma SeenEmptyAlone(s: State)
    ensures s.rxAt.DrainingCommands? && s.cmdQueue == [] ==>
              Next(s, RxRun) == s.(rxAt := DrainingPackets, carried := ProcessHand(s.memory, s.processAt))
    ensures s.rxAt.DrainingPackets? && s.txQueue == [] ==> Next(s, RxRun) == s.(rxAt := ResettingCommands)
    ensures s.rxAt.ResettingCommands? && s.cmdQueue == [] && s.txQueue == [] ==>
              Next(Next(s, RxRun), RxRun) == s.(rxAt := Listening)
  {
    hide ProcessHand;
    assert s.lostCommands + [] == s.lostCommands && s.lostPackets + [] == s.lostPackets;
  }

  lemma DrainBothAlone(log: Log, plan: seq<seq<Label>>)
    requires Exhausted(log, plan) && StateOf(log, plan).rxAt.DrainingCommands?
    ensures var s := StateOf(log, plan);
            var longer := log + [Yielded(RxTask)] + Drains(|s.cmdQueue|) + [Did(RxRun)]
                          + [Yielded(RxTask)] + Drains(|s.txQueue|) + [Did(RxRun)];
            && Exhausted(longer, plan)
            && StateOf(longer, plan)
               == s.(rxAt := ResettingCommands, cmdQueue := [], txQueue := [],
                     carried := ProcessHand(s.memory, s.processAt),
                     live := s.live - Buffers(s.cmdQueue) - Buffers(s.txQueue))
  {
    hide Exhausted, Next, StateOf, Buffers, Drains, ProcessHand;
    var s := StateOf(log, plan);
    assert s.cmdQueue[..|s.cmdQueue|] == s.cmdQueue && s.txQueue[..|s.txQueue|] == s.txQueue;
    PauseAlone(log, plan, RxTask);
    var l1 := log + [Yielded(RxTask)];
    DrainCommandsAlone(l1, plan, |s.cmdQueue|);
    var l2 := l1 + Drains(|s.cmdQueue|);
    SeenEmptyAlone(StateOf(l2, plan));
    StepAlone(l2, plan, RxRun);
    var l3 := l2 + [Did(RxRun)];
    PauseAlone(l3, plan, RxTask);
    var l4 := l3 + [Yielded(RxTask)];
    DrainPacketsAlone(l4, plan, |s.txQueue|);
    var l5 := l4 + Drains(|s.txQueue|);
    SeenEmptyAlone(StateOf(l5, plan));
    StepAlone(l5, plan, RxRun);
  }

  lemma ResetStateAlone(log: Log, plan: seq<seq<Label>>)
    requires Exhausted(log, plan) && StateOf(log, plan).rxAt.DrainingCommands?
    ensures var s := StateOf(log, plan);
            StateOf(log + ResetMoves(|s.cmdQueue|, |s.txQueue|), plan) == Reset(s)
  {
    hide Exhausted, Next, StateOf, Buffers, Drains, ProcessHand;
    var s := StateOf(log, plan);
    DrainBothAlone(log, plan);
    var l1 := log + [Yielded(RxTask)] + Drains(|s.cmdQueue|) + [Did(RxRun)]
              + [Yielded(RxTask)] + Drains(|s.txQueue|) + [Did(RxRun)];
    SeenEmptyAlone(StateOf(l1, plan));
    PauseThenStep(l1, plan, RxTask, RxRun);
    var l2 := l1 + [Yielded(RxTask), Did(RxRun)];
    PauseThenStep(l2, plan, RxTask, RxRun);
    assert l2 + [Yielded(RxTask), Did(RxRun)] == log + ResetMoves(|s.cmdQueue|, |s.txQueue|);
  }

  /** The serial timeout, from the loop. */
  lemma TimeOutAlone(log: Log, plan: seq<seq<Label>>)
    requires Exhausted(log, plan) && StateOf(log, plan).rxAt.Listening?
    ensures var s := StateOf(log, plan);
            StateOf(log + [Did(SerialTimeout)] + ResetMoves(|s.cmdQueue|, |s.txQueue|), plan) == Reset(s)
  {
    hide Exhausted, StateOf, Buffers, ProcessHand;
    var s := StateOf(log, plan);
    StepAlone(log, plan, SerialTimeout);
    assert Next(s, SerialTimeout) == s.(rxAt := DrainingCommands);
    ResetStateAlone(log + [Did(SerialTimeout)], plan);
  }
}
