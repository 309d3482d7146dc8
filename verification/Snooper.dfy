/** The tasks as the code runs them: queue operations and buffers updated in place, with the other tasks free
    to run between any two operations. `log` records the caller's own steps and the points at which the others
    ran, `trace` the steps of all tasks that this amounts to under the schedule; what Valid says is that the state
    is the one the state machine reaches by them, so every guarantee about runs holds of it. */
module Snooper {
  import opened Config
  import opened FrameParser
  import opened Ownership
  import opened Pipeline
  import opened PipelineSafety
  import opened PipelineRuns
  import opened Interference
  import opened Alone
  import opened Turns
  import FrameSegments

  /** What `_processTask` makes of a payload: a copy without the lingo byte if that is 0x00, else nothing. */
  predicate Relayed(payload: seq<byte>, memory: seq<seq<byte>>, outcome: Outcome) {
    match outcome
    case Nothing => false
    case Ignored => payload == [] || payload[0] != 0x00
    case _ =>
      && outcome.entry.payload < |memory| && outcome.entry.length == |memory[outcome.entry.payload]|
      && payload == [0x00] + memory[outcome.entry.payload]
  }

  lemma OpenPieceGrows(heard: seq<seq<byte>>, b: byte)
    requires heard != []
    ensures FrameSegments.AddByte(heard, b) == heard[..|heard| - 1] + [heard[|heard| - 1] + [b]]
  {
  }

  lemma RelayedOutcome(payload: seq<byte>, memory: seq<seq<byte>>, outcome: Outcome)
    requires Relayed(payload, memory, outcome)
    ensures outcome.Ignored? <==> payload == [] || payload[0] != 0x00
  {
  }

  /** A send to `_cmdQueue` that begins with move `at` of a log: the queue was full before each wait, and whether it
      still was after the last one decides. */
  ghost predicate CommandSend(log: Log, plan: seq<seq<Label>>, at: nat, waits: nat, outcome: Outcome) {
    && at + waits < |log|
    && (forall k: nat :: at <= k < at + waits ==> |StateAt(log, plan, k).cmdQueue| == CMD_QUEUE_SIZE)
    && var queue := StateAt(log, plan, at + waits).cmdQueue;
    && (outcome.Queued? ==>
          |queue| < CMD_QUEUE_SIZE && StateAt(log, plan, at + waits + 1).cmdQueue == queue + [outcome.entry])
    && (outcome.Dropped? ==> |queue| == CMD_QUEUE_SIZE)
  }

  /** The same for `_txQueue`. */
  ghost predicate PacketSend(log: Log, plan: seq<seq<Label>>, at: nat, waits: nat, outcome: Outcome) {
    && at + waits < |log|
    && (forall k: nat :: at <= k < at + waits ==> |StateAt(log, plan, k).txQueue| == TX_QUEUE_SIZE)
    && var queue := StateAt(log, plan, at + waits).txQueue;
    && (outcome.Queued? ==>
          |queue| < TX_QUEUE_SIZE && StateAt(log, plan, at + waits + 1).txQueue == queue + [outcome.entry])
    && (outcome.Dropped? ==> |queue| == TX_QUEUE_SIZE)
  }

  lemma SendsStay(log: Log, longer: Log, plan: seq<seq<Label>>, at: nat, waits: nat, outcome: Outcome)
    requires log <= longer
    ensures CommandSend(log, plan, at, waits, outcome) ==> CommandSend(longer, plan, at, waits, outcome)
    ensures PacketSend(log, plan, at, waits, outcome) ==> PacketSend(longer, plan, at, waits, outcome)
  {
    hide StateAt;
    StatesStay(log, longer, plan);
  }

  class Instance {
    var rx: Rx
    var rxAt: RxAt
    var processAt: ProcessAt
    var transmitAt: TransmitAt
    var cmdQueue: seq<Command>
    var txQueue: seq<Command>
    var memory: seq<seq<byte>>
    var live: set<Address>
    var fault: bool
    var heard: seq<seq<byte>>
    var accepted: seq<seq<byte>>
    var output: seq<seq<byte>>
    var lostCommands: seq<Command>
    var lostPackets: seq<Command>
    var carried: seq<seq<byte>>

    /** What the scheduler lets the other tasks do at the coming preemption points. */
    var schedule: seq<seq<Label>>
    ghost var trace: seq<Label>
    ghost var log: Log
    ghost const plan: seq<seq<Label>>

    function View(): State
      reads this
    {
      State(rx, rxAt, processAt, transmitAt, cmdQueue, txQueue, memory, live, fault,
            heard, accepted, output, lostCommands, lostPackets, carried)
    }

    ghost predicate Valid()
      reads this
    {
      View() == Exec(INIT, trace) && Tracked()
    }

    /** The trace is what the log amounts to, and the schedule what is left of the plan. */
    ghost predicate Tracked()
      reads this`trace, this`log, this`schedule
    {
      Tracks(trace, log, plan, schedule)
    }

    /** Steps `resetState` has taken in all, and those it has left. */
    ghost function Spent(): nat
      reads this
    {
      RxRuns(trace) + Left(View())
    }

    lemma Now()
      requires Valid()
      ensures StateAt(log, plan, |log|) == View()
    {
      assert log[..|log|] == log;
    }

    lemma Known()
      requires Valid()
      ensures StateOf(log, plan) == View() && (schedule == [] <==> Exhausted(log, plan))
    {
    }

    lemma ResetIsBounded()
      requires Valid() && rxAt.DrainingCommands?
      ensures Spent() <= RxRuns(trace) + RESET_STEPS
    {
      hide Left;
      LeftIsBounded(trace);
    }

    constructor (schedule: seq<seq<Label>>)
      ensures Valid() && trace == [] && log == [] && this.schedule == schedule == plan
    {
      rx, rxAt, processAt, transmitAt := Rx(0, Idle), Listening, Waiting, Checking;
      cmdQueue, txQueue, memory, live, fault := [], [], [], {}, false;
      heard, accepted, output, lostCommands, lostPackets, carried := [[]], [], [], [], [], [];
      this.schedule, plan := schedule, schedule;
      trace, log := [], [];
    }

    /** Puts the fields into a given state. */
    method Load(t: State)
      modifies this
      ensures View() == t && trace == old(trace) && log == old(log) && schedule == old(schedule)
    {
      LoadTasks(t);
      LoadQueues(t);
      LoadHistory(t);
    }

    method LoadTasks(t: State)
      modifies this`rx, this`rxAt, this`processAt, this`transmitAt
      ensures rx == t.rx && rxAt == t.rxAt && processAt == t.processAt && transmitAt == t.transmitAt
    {
      rx, rxAt, processAt, transmitAt := t.rx, t.rxAt, t.processAt, t.transmitAt;
    }

    method LoadQueues(t: State)
      modifies this`cmdQueue, this`txQueue, this`memory, this`live, this`fault
      ensures cmdQueue == t.cmdQueue && txQueue == t.txQueue
      ensures memory == t.memory && live == t.live && fault == t.fault
    {
      cmdQueue, txQueue, memory, live, fault := t.cmdQueue, t.txQueue, t.memory, t.live, t.fault;
    }

    method LoadHistory(t: State)
      modifies this`heard, this`accepted, this`output, this`lostCommands, this`lostPackets, this`carried
      ensures heard == t.heard && accepted == t.accepted && output == t.output
      ensures lostCommands == t.lostCommands && lostPackets == t.lostPackets && carried == t.carried
    {
      heard, accepted, output := t.heard, t.accepted, t.output;
      lostCommands, lostPackets, carried := t.lostCommands, t.lostPackets, t.carried;
    }

    /** The other tasks take the steps the schedule has for them; the caller's own place is untouched. */
    method Preempt(me: Who)
      requires Valid()
      modifies this
      ensures Valid() && SamePlace(me, old(View()), View()) && Later(old(View()), View())
      ensures log == old(log) + [Yielded(me)]
      ensures trace == old(trace) + if old(schedule) == [] then [] else Others(me, old(schedule)[0], Owner)
      ensures schedule == if old(schedule) == [] then [] else old(schedule)[1..]
      ensures old(schedule) == [] ==> View() == old(View())
      ensures me.RxTask? && Resetting(old(View())) ==>
                Left(View()) <= old(Left(View())) && RxRuns(trace) == RxRuns(old(trace))
    {
      hide Next, Exec, SamePlace, Later, Left, Resetting, RxRuns, Tracks, Others;
      var labels := if schedule == [] then [] else Others(me, schedule[0], Owner);
      Interrupted(me, trace, log, plan, schedule);
      Load(Exec(View(), labels));
      schedule := if schedule == [] then [] else schedule[1..];
      trace, log := trace + labels, log + [Yielded(me)];
    }

    /** Notes the step just taken. */
    ghost method Note(l: Label, before: State)
      requires before == Exec(INIT, trace) && Tracked() && View() == Next(before, l)
      modifies this`trace, this`log
      ensures Valid() && trace == old(trace) + [l] && log == old(log) + [Did(l)]
    {
      hide Next, Exec, Tracks;
      TrackDid(l, trace, log, plan, schedule);
      trace, log := trace + [l], log + [Did(l)];
    }

    /** The other tasks run while the receiver is inside `resetState`. */
    method PreemptReset()
      requires Valid() && Resetting(View())
      modifies this
      ensures Valid() && rxAt == old(rxAt) && rx == old(rx) && log == old(log) + [Yielded(RxTask)]
      ensures lostCommands == old(lostCommands) && lostPackets == old(lostPackets)
      ensures Left(View()) <= old(Left(View())) && Spent() <= old(Spent())
      ensures old(schedule) == [] ==> schedule == [] && View() == old(View())
    {
      hide Valid, Later, Left, RxRuns;
      Preempt(RxTask);
    }

    /** The other tasks run while the receiver has a payload in hand. */
    method PreemptReceiver()
      requires Valid()
      modifies this
      ensures Valid() && rxAt == old(rxAt) && rx == old(rx) && heard == old(heard) && accepted == old(accepted)
      ensures lostCommands == old(lostCommands) && lostPackets == old(lostPackets)
      ensures old(memory) <= memory && log == old(log) + [Yielded(RxTask)]
      ensures old(schedule) == [] ==> schedule == [] && View() == old(View())
    {
      hide Valid, Left, Resetting;
      Preempt(RxTask);
    }

    method PreemptProcess()
      requires Valid()
      modifies this
      ensures Valid() && processAt == old(processAt) && log == old(log) + [Yielded(ProcessTask)]
      ensures old(memory) <= memory && forall a :: a < |old(memory)| && a !in old(live) ==> a !in live
      ensures old(schedule) == [] ==> schedule == [] && View() == old(View())
    {
      hide Valid;
      Preempt(ProcessTask);
    }

    method PreemptTransmit()
      requires Valid()
      modifies this
      ensures Valid() && SamePlace(TransmitTask, old(View()), View()) && log == old(log) + [Yielded(TransmitTask)]
      ensures old(memory) <= memory
      ensures old(schedule) == [] ==> schedule == [] && View() == old(View())
    {
      hide Valid, SamePlace;
      Preempt(TransmitTask);
    }

    /** Notes a step of `resetState`. */
    ghost method NoteReset(before: State)
      requires before == Exec(INIT, trace) && Tracked() && Resetting(before) && View() == Next(before, RxRun)
      modifies this`trace, this`log
      ensures Valid() && trace == old(trace) + [RxRun] && log == old(log) + [Did(RxRun)]
      ensures Left(View()) < Left(before) && Spent() <= RxRuns(old(trace)) + Left(before)
    {
      hide Next, Left, Resetting, Tracked;
      SpendStep(trace);
      Note(RxRun, before);
    }

    /** `delete[] cmd.payload` */
    method Release(cmd: Command)
      modifies this`live, this`fault
      ensures live == old(live) - {cmd.payload}
      ensures fault == (old(fault) || cmd.payload !in old(live))
    {
      if cmd.payload in live {
        live := live - {cmd.payload};
      } else {
        fault := true;
      }
    }

    /** `new byte[len]` and the `memcpy` into it. */
    method Allocate(bytes: seq<byte>) returns (cmd: Command)
      modifies this`memory, this`live
      ensures cmd == Command(|old(memory)|, |bytes|)
      ensures memory == old(memory) + [bytes] && live == old(live) + {cmd.payload}
    {
      cmd := Command(|memory|, |bytes|);
      memory := memory + [bytes];
      live := live + {cmd.payload};
    }

    // ---- _rxTask ----

    /** One byte: the parser takes it, and a payload it completes goes to `_cmdQueue`, or is freed when the
        queue stays full for as long as the send waits. */
    method ReceiveByte(b: byte, patience: nat) returns (outcome: Outcome, ghost waits: nat)
      requires Valid() && rxAt.Listening?
      modifies this
      ensures Valid() && rxAt.Listening?
      ensures rx == Step(old(rx), b) && accepted == old(accepted) + Emit(old(rx), b)
      ensures old(heard) != [] && heard == old(heard)[..|old(heard)| - 1] + [old(heard)[|old(heard)| - 1] + [b]]
      ensures !outcome.Ignored? && (outcome.Nothing? <==> Emit(old(rx), b) == [])
      ensures !outcome.Nothing? ==>
                Emit(old(rx), b) == [At(memory, outcome.entry)] && outcome.entry.length == |At(memory, outcome.entry)|
      ensures waits <= patience && (outcome.Dropped? ==> waits == patience && outcome.entry.payload !in live)
      ensures log == old(log) + [Did(Receive(b))]
                     + if outcome.Nothing? then [] else [Yielded(RxTask)] + CommandMoves(waits, outcome)
      ensures !outcome.Nothing? ==> CommandSend(log, plan, |old(log)| + 2, waits, outcome)
      ensures old(schedule) == [] ==>
                && schedule == [] && (outcome.Dropped? <==> !outcome.Nothing? && |old(cmdQueue)| == CMD_QUEUE_SIZE)
                && View() == old(View()).(rx := rx, heard := heard, accepted := accepted,
                                          memory := old(memory) + Emit(old(rx), b),
                                          live := old(live) + (if outcome.Queued? then {|old(memory)|} else {}),
                                          cmdQueue := old(cmdQueue) + if outcome.Queued? then [outcome.entry] else [])
      ensures lostCommands == old(lostCommands) && lostPackets == old(lostPackets)
    {
      hide Valid, Emit, Step, CommandSend, CommandMoves, StateOf, Exhausted, FrameSegments.AddByte;
      waits := 0;
      Known();
      ghost var s, l := View(), log;
      if Emit(rx, b) == [] {
        Hear(b);
        outcome := Nothing;
      } else {
        var payload := Emit(rx, b)[0];
        assert Emit(rx, b) == [payload] by { EmitsOne(rx, b); }
        outcome, waits := TakePayload(b, payload, patience);
      }
      OpenPieceGrows(old(heard), b);
      Known();
      if old(schedule) == [] {
        ReceiveAlone(l, plan, b, waits, outcome);
        assert log == l + ReceiveMoves(b, waits, outcome) && View() == Received(s, b, outcome);
        assert cmdQueue == old(cmdQueue) + if outcome.Queued? then [outcome.entry] else [];
      }
    }

    /** The parser's last byte of a good frame, and the send of its payload. */
    method TakePayload(b: byte, payload: seq<byte>, patience: nat) returns (outcome: Outcome, ghost waits: nat)
      requires Valid() && rxAt.Listening? && Emit(rx, b) == [payload]
      modifies this
      ensures Valid() && rxAt.Listening?
      ensures rx == Step(old(rx), b) && accepted == old(accepted) + [payload]
      ensures old(heard) != [] && heard == FrameSegments.AddByte(old(heard), b)
      ensures (outcome.Queued? || outcome.Dropped?) && payload == At(memory, outcome.entry)
      ensures outcome.entry.length == |payload|
      ensures waits <= patience && (outcome.Dropped? ==> waits == patience && outcome.entry.payload !in live)
      ensures log == old(log) + [Did(Receive(b))] + ([Yielded(RxTask)] + CommandMoves(waits, outcome))
      ensures CommandSend(log, plan, |old(log)| + 2, waits, outcome)
      ensures lostCommands == old(lostCommands) && lostPackets == old(lostPackets)
      ensures old(schedule) == [] ==>
                && schedule == [] && (outcome.Dropped? <==> |old(cmdQueue)| == CMD_QUEUE_SIZE)
                && (outcome.Queued? ==> |old(cmdQueue)| < CMD_QUEUE_SIZE)
                && cmdQueue == old(cmdQueue) + if outcome.Queued? then [outcome.entry] else []
    {
      hide Valid, Emit, Step, CommandSend, CommandMoves, Later, SamePlace;
      var cmd := HearPayload(b, payload);
      PreemptReceiver();
      outcome, waits := QueueCommand(cmd, patience);
    }

    /** The parser's part of a byte that completes no good frame. */
    method Hear(b: byte)
      requires Valid() && rxAt.Listening? && Emit(rx, b) == []
      modifies this`rx, this`heard, this`trace, this`log
      ensures Valid() && log == old(log) + [Did(Receive(b))] && rx == Step(old(rx), b)
      ensures old(heard) != [] && heard == FrameSegments.AddByte(old(heard), b)
    {
      HeardNeverEmpty(trace);
      ghost var s := View();
      HearStep(s, b);
      hide Next, Tracked, Emit, Step, FrameSegments.AddByte;
      TakeByte(b);
      Note(Receive(b), s);
    }

    /** The byte that completes a good frame, with the allocation and the copy of its payload. */
    method HearPayload(b: byte, payload: seq<byte>) returns (cmd: Command)
      requires Valid() && rxAt.Listening? && Emit(rx, b) == [payload]
      modifies this`rx, this`heard, this`accepted, this`memory, this`live, this`rxAt, this`trace, this`log
      ensures Valid() && log == old(log) + [Did(Receive(b))] && rx == Step(old(rx), b)
      ensures old(heard) != [] && heard == FrameSegments.AddByte(old(heard), b) && cmd.length == |payload|
      ensures rxAt == SendingCommand(cmd) && cmd.payload < |memory| && memory[cmd.payload] == payload
      ensures accepted == old(accepted) + [payload]
    {
      HeardNeverEmpty(trace);
      ghost var s := View();
      HearPayloadStep(s, b, payload);
      hide Next, Exec, Tracked, Emit, Step, FrameSegments.AddByte;
      TakeByte(b);
      cmd := KeepPayload(payload);
      Note(Receive(b), s);
    }

    method TakeByte(b: byte)
      requires heard != []
      modifies this`rx, this`heard
      ensures View() == old(View()).(rx := Step(old(rx), b), heard := FrameSegments.AddByte(old(heard), b))
    {
      hide Step, FrameSegments.AddByte;
      heard := FrameSegments.AddByte(heard, b);
      rx := Step(rx, b);
    }

    method KeepPayload(payload: seq<byte>) returns (cmd: Command)
      modifies this`accepted, this`memory, this`live, this`rxAt
      ensures cmd == Command(|old(memory)|, |payload|)
      ensures View() == old(View()).(accepted := old(accepted) + [payload], memory := old(memory) + [payload],
                                     live := old(live) + {cmd.payload}, rxAt := SendingCommand(cmd))
    {
      accepted := accepted + [payload];
      cmd := Allocate(payload);
      rxAt := SendingCommand(cmd);
    }

    /** The send to `_cmdQueue`. A payload that finds no room is freed. */
    method QueueCommand(cmd: Command, patience: nat) returns (outcome: Outcome, ghost waits: nat)
      requires Valid() && rxAt == SendingCommand(cmd) && cmd.payload < |memory|
      modifies this
      ensures Valid() && rxAt.Listening? && rx == old(rx) && heard == old(heard) && accepted == old(accepted)
      ensures lostCommands == old(lostCommands) && lostPackets == old(lostPackets)
      ensures old(memory) <= memory
      ensures outcome == Queued(cmd) || outcome == Dropped(cmd)
      ensures waits <= patience && (outcome.Dropped? ==> waits == patience && cmd.payload !in live)
      ensures log == old(log) + CommandMoves(waits, outcome) && CommandSend(log, plan, |old(log)|, waits, outcome)
      ensures old(schedule) == [] ==>
                && schedule == [] && (outcome.Dropped? <==> |old(cmdQueue)| == CMD_QUEUE_SIZE)
                && (outcome.Queued? ==> |old(cmdQueue)| < CMD_QUEUE_SIZE)
                && cmdQueue == old(cmdQueue) + if outcome.Queued? then [cmd] else []
    {
      hide Valid, StateAt, Later;
      waits := AwaitCommandRoom(cmd, patience);
      ghost var waited := log;
      Now();
      var sent := SendCommandToQueue(cmd);
      Now();
      StatesStay(waited, log, plan);
      if sent {
        outcome := Queued(cmd);
      } else {
        outcome := Dropped(cmd);
        ghost var failed := log;
        DropCommand(cmd);
        SendsStay(failed, log, plan, |old(log)|, waits, outcome);
      }
    }

    /** The payload that found no room is freed. */
    method DropCommand(cmd: Command)
      requires Valid() && rxAt == DroppingCommand(cmd)
      modifies this
      ensures Valid() && rxAt.Listening? && rx == old(rx) && heard == old(heard) && accepted == old(accepted)
      ensures lostCommands == old(lostCommands) && lostPackets == old(lostPackets)
      ensures old(memory) <= memory && cmd.payload !in live
      ensures log == old(log) + [Yielded(RxTask), Did(RxRun)]
      ensures old(schedule) == [] ==> schedule == [] && cmdQueue == old(cmdQueue)
    {
      hide Valid, Later;
      PreemptReceiver();
      FreeUnsentCommand(cmd);
    }

    /** While `_cmdQueue` is full the send waits, for `patience` ticks at most. */
    method AwaitCommandRoom(cmd: Command, patience: nat) returns (ghost waits: nat)
      requires Valid() && rxAt == SendingCommand(cmd)
      modifies this
      ensures Valid() && rxAt == old(rxAt) && rx == old(rx) && heard == old(heard) && accepted == old(accepted)
      ensures old(memory) <= memory
      ensures lostCommands == old(lostCommands) && lostPackets == old(lostPackets)
      ensures waits <= patience && (|cmdQueue| < CMD_QUEUE_SIZE || waits == patience)
      ensures log == old(log) + Pauses(RxTask, waits)
      ensures forall k: nat :: |old(log)| <= k < |log| ==> |StateAt(log, plan, k).cmdQueue| == CMD_QUEUE_SIZE
      ensures old(schedule) == [] ==> schedule == [] && View() == old(View())
    {
      hide Valid, StateAt;
      var ticks := 0;
      while |cmdQueue| >= CMD_QUEUE_SIZE && ticks < patience
        invariant Valid() && rxAt == old(rxAt) && rx == old(rx) && heard == old(heard) && accepted == old(accepted)
        invariant old(memory) <= memory
        invariant lostCommands == old(lostCommands) && lostPackets == old(lostPackets)
        invariant ticks <= patience && log == old(log) + Pauses(RxTask, ticks)
        invariant forall k: nat :: |old(log)| <= k < |log| ==> |StateAt(log, plan, k).cmdQueue| == CMD_QUEUE_SIZE
        invariant old(schedule) == [] ==> schedule == [] && View() == old(View())
        decreases patience - ticks
      {
        ghost var before := log;
        Now();
        QueuesAreBounded();
        PreemptReceiver();
        StatesStay(before, log, plan);
        ticks := ticks + 1;
      }
      waits := ticks;
    }

    lemma QueuesAreBounded()
      requires Valid()
      ensures |cmdQueue| <= CMD_QUEUE_SIZE && |txQueue| <= TX_QUEUE_SIZE
    {
      hide Exec;
      QueuesFit(trace);
    }

    /** `xQueueSend(_cmdQueue)`: it fails only on a full queue. */
    method SendCommandToQueue(cmd: Command) returns (sent: bool)
      requires Valid() && rxAt == SendingCommand(cmd)
      modifies this`cmdQueue, this`rxAt, this`trace, this`log
      ensures Valid() && log == old(log) + [Did(if sent then RxRun else RxGiveUp)]
      ensures sent <==> |old(cmdQueue)| < CMD_QUEUE_SIZE
      ensures sent ==> cmdQueue == old(cmdQueue) + [cmd] && rxAt.Listening?
      ensures !sent ==> cmdQueue == old(cmdQueue) && rxAt == DroppingCommand(cmd)
      ensures !sent ==> |old(cmdQueue)| == CMD_QUEUE_SIZE
    {
      hide Exec, Tracked, ProcessStep, TransmitStep, ReceiveStep;
      QueuesAreBounded();
      ghost var s := View();
      sent := |cmdQueue| < CMD_QUEUE_SIZE;
      if sent {
        cmdQueue := cmdQueue + [cmd];
        rxAt := Listening;
        Note(RxRun, s);
      } else {
        rxAt := DroppingCommand(cmd);
        Note(RxGiveUp, s);
      }
    }

    method FreeUnsentCommand(cmd: Command)
      requires Valid() && rxAt == DroppingCommand(cmd)
      modifies this`live, this`fault, this`rxAt, this`trace, this`log
      ensures Valid() && rxAt.Listening? && log == old(log) + [Did(RxRun)]
      ensures live == old(live) - {cmd.payload}
    {
      hide Exec, Tracked, ProcessStep, TransmitStep, ReceiveStep;
      ghost var s := View();
      Release(cmd);
      rxAt := Listening;
      Note(RxRun, s);
    }

    /** The inter-byte timeout. */
    method AbandonFrame()
      requires Valid() && rxAt.Listening? && !rx.mode.Idle?
      modifies this`rx, this`heard, this`trace, this`log
      ensures Valid() && rx == Rx(old(rx).prev, Idle) && heard == old(heard) + [[]]
      ensures log == old(log) + [Did(Abandon)]
    {
      hide Exec, Tracked, ProcessStep, TransmitStep, ReceiveStep;
      ghost var s := View();
      rx := Rx(rx.prev, Idle);
      heard := heard + [[]];
      Note(Abandon, s);
    }

    /** The serial timeout. */
    method TimeOut() returns (ghost commands: nat, ghost packets: nat)
      requires Valid() && rxAt.Listening?
      modifies this
      ensures Valid() && rxAt.Listening? && rx == old(rx)
      ensures SweptClean(View()) && lostCommands == old(lostCommands)
      ensures old(lostPackets) <= lostPackets && |lostPackets| <= |old(lostPackets)| + 1
      ensures RxRuns(trace) <= RxRuns(old(trace)) + RESET_STEPS
      ensures log == old(log) + [Did(SerialTimeout)] + ResetMoves(commands, packets)
      ensures old(schedule) == [] ==>
                && schedule == [] && commands == |old(cmdQueue)| && packets == |old(txQueue)|
                && View() == old(View()).(cmdQueue := [], txQueue := [], carried := carried,
                                          live := old(live) - Buffers(old(cmdQueue)) - Buffers(old(txQueue)))
    {
      hide Valid, SweptClean, Left, ResetMoves, RxRuns, StateOf, Exhausted, Buffers;
      Known();
      ghost var l := log;
      CallReset();
      commands, packets := ResetState();
      Known();
      if old(schedule) == [] {
        TimeOutAlone(l, plan);
      }
    }

    method CallReset()
      requires Valid() && rxAt.Listening?
      modifies this`rxAt, this`trace, this`log
      ensures Valid() && rxAt.DrainingCommands? && log == old(log) + [Did(SerialTimeout)]
      ensures RxRuns(trace) == RxRuns(old(trace))
    {
      hide Exec, Tracked, ProcessStep, TransmitStep, ReceiveStep;
      ghost var s := View();
      rxAt := DrainingCommands;
      Note(SerialTimeout, s);
      OneMoreStep(old(trace), SerialTimeout);
    }

    // ---- resetState ----

    /** `resetState`: two loops that empty the queues and two queue resets. Whatever the other tasks do
        meanwhile, it returns within the steps it had left, with both queues empty; no command is discarded
        unfreed, and at most one packet is. */
    method ResetState() returns (ghost commands: nat, ghost packets: nat)
      requires Valid() && rxAt.DrainingCommands?
      modifies this
      ensures Valid() && rxAt.Listening? && rx == old(rx)
      ensures SweptClean(View()) && lostCommands == old(lostCommands)
      ensures old(lostPackets) <= lostPackets && |lostPackets| <= |old(lostPackets)| + 1
      ensures RxRuns(trace) <= old(Spent()) <= RxRuns(old(trace)) + RESET_STEPS
      ensures log == old(log) + ResetMoves(commands, packets)
      ensures old(schedule) == [] ==>
                && schedule == [] && commands == |old(cmdQueue)| && packets == |old(txQueue)|
                && View() == old(View()).(rxAt := Listening, cmdQueue := [], txQueue := [], carried := carried,
                                          live := old(live) - Buffers(old(cmdQueue)) - Buffers(old(txQueue)))
    {
      hide Valid, Left, SweptClean, InOtherHands, RxRuns, Buffers, StateOf, Exhausted, Drains;
      ResetIsBounded();
      Known();
      ghost var l := log;
      commands := DrainCommands();
      packets := DrainPackets();
      ResetQueues();
      Known();
      if old(schedule) == [] {
        ResetStateAlone(l, plan);
      }
    }

    /** The two queue resets. */
    method ResetQueues()
      requires Valid() && rxAt.ResettingCommands?
      modifies this
      ensures Valid() && rxAt.Listening? && rx == old(rx)
      ensures SweptClean(View()) && lostCommands == old(lostCommands)
      ensures old(lostPackets) <= lostPackets && |lostPackets| <= |old(lostPackets)| + 1
      ensures Spent() <= old(Spent())
      ensures log == old(log) + [Yielded(RxTask), Did(RxRun), Yielded(RxTask), Did(RxRun)]
      ensures old(schedule) == [] ==> schedule == []
    {
      hide Valid, Left, SweptClean, Spent;
      PreemptReset();
      ResetCommandQueue();
      PreemptReset();
      ResetPacketQueue();
      Swept();
    }

    /** The first loop. */
    method DrainCommands() returns (ghost commands: nat)
      requires Valid() && rxAt.DrainingCommands?
      modifies this
      ensures Valid() && rxAt.DrainingPackets? && rx == old(rx)
      ensures lostCommands == old(lostCommands) && lostPackets == old(lostPackets)
      ensures Spent() <= old(Spent())
      ensures log == old(log) + [Yielded(RxTask)] + Drains(commands) + [Did(RxRun)]
      ensures old(schedule) == [] ==>
                schedule == [] && commands == |old(cmdQueue)| && txQueue == old(txQueue)
    {
      hide Valid, Left, Spent;
      PreemptReset();
      commands := 0;
      while cmdQueue != []
        invariant Valid() && rxAt.DrainingCommands? && rx == old(rx)
        invariant lostCommands == old(lostCommands) && lostPackets == old(lostPackets)
        invariant Spent() <= old(Spent())
        invariant log == old(log) + [Yielded(RxTask)] + Drains(commands)
        invariant old(schedule) == [] ==>
                    schedule == [] && commands + |cmdQueue| == |old(cmdQueue)| && txQueue == old(txQueue)
        decreases Left(View())
      {
        DrainCommand();
        commands := commands + 1;
      }
      SeeCommandsEmpty();
    }

    method DrainCommand()
      requires Valid() && rxAt.DrainingCommands? && cmdQueue != []
      modifies this
      ensures Valid() && rxAt.DrainingCommands? && rx == old(rx)
      ensures lostCommands == old(lostCommands) && lostPackets == old(lostPackets)
      ensures Spent() <= old(Spent()) && Left(View()) < old(Left(View()))
      ensures log == old(log) + [Did(RxRun), Yielded(RxTask), Did(RxRun), Yielded(RxTask)]
      ensures old(schedule) == [] ==>
                schedule == [] && |cmdQueue| == |old(cmdQueue)| - 1 && txQueue == old(txQueue)
    {
      hide Valid, Left, Spent;
      var tempCmd := TakeCommand();
      PreemptReset();
      FreeTaken(tempCmd);
      PreemptReset();
    }

    /** The second loop. */
    method DrainPackets() returns (ghost packets: nat)
      requires Valid() && rxAt.DrainingPackets?
      modifies this
      ensures Valid() && rxAt.ResettingCommands? && rx == old(rx)
      ensures lostCommands == old(lostCommands) && lostPackets == old(lostPackets)
      ensures Spent() <= old(Spent())
      ensures log == old(log) + [Yielded(RxTask)] + Drains(packets) + [Did(RxRun)]
      ensures old(schedule) == [] ==>
                schedule == [] && packets == |old(txQueue)|
    {
      hide Valid, Left, Spent;
      PreemptReset();
      packets := 0;
      while txQueue != []
        invariant Valid() && rxAt.DrainingPackets? && rx == old(rx)
        invariant lostCommands == old(lostCommands) && lostPackets == old(lostPackets)
        invariant Spent() <= old(Spent())
        invariant log == old(log) + [Yielded(RxTask)] + Drains(packets)
        invariant old(schedule) == [] ==>
                    schedule == [] && packets + |txQueue| == |old(txQueue)|
        decreases Left(View())
      {
        DrainPacket();
        packets := packets + 1;
      }
      SeePacketsEmpty();
    }

    method DrainPacket()
      requires Valid() && rxAt.DrainingPackets? && txQueue != []
      modifies this
      ensures Valid() && rxAt.DrainingPackets? && rx == old(rx)
      ensures lostCommands == old(lostCommands) && lostPackets == old(lostPackets)
      ensures Spent() <= old(Spent()) && Left(View()) < old(Left(View()))
      ensures log == old(log) + [Did(RxRun), Yielded(RxTask), Did(RxRun), Yielded(RxTask)]
      ensures old(schedule) == [] ==>
                schedule == [] && |txQueue| == |old(txQueue)| - 1
    {
      hide Valid, Left, Spent;
      var tempCmd := TakePacket();
      PreemptReset();
      FreeTaken(tempCmd);
      PreemptReset();
    }

    /** `xQueueReceive(_cmdQueue)` that finds a command. */
    method TakeCommand() returns (tempCmd: Command)
      requires Valid() && rxAt.DrainingCommands? && cmdQueue != []
      modifies this`cmdQueue, this`rxAt, this`trace, this`log
      ensures Valid() && rxAt == FreeingCommand(tempCmd) && log == old(log) + [Did(RxRun)]
      ensures Left(View()) < old(Left(View())) && Spent() <= old(Spent())
      ensures [tempCmd] + cmdQueue == old(cmdQueue)
    {
      hide Exec, Tracked, ProcessStep, TransmitStep, ReceiveStep, Left, RxRuns;
      ghost var s := View();
      tempCmd := cmdQueue[0];
      cmdQueue := cmdQueue[1..];
      rxAt := FreeingCommand(tempCmd);
      NoteReset(s);
    }

    /** `xQueueReceive(_txQueue)` that finds a packet. */
    method TakePacket() returns (tempCmd: Command)
      requires Valid() && rxAt.DrainingPackets? && txQueue != []
      modifies this`txQueue, this`rxAt, this`trace, this`log
      ensures Valid() && rxAt == FreeingPacket(tempCmd) && log == old(log) + [Did(RxRun)]
      ensures Left(View()) < old(Left(View())) && Spent() <= old(Spent())
      ensures [tempCmd] + txQueue == old(txQueue)
    {
      hide Exec, Tracked, ProcessStep, TransmitStep, ReceiveStep, Left, RxRuns;
      ghost var s := View();
      tempCmd := txQueue[0];
      txQueue := txQueue[1..];
      rxAt := FreeingPacket(tempCmd);
      NoteReset(s);
    }

    method FreeTaken(tempCmd: Command)
      requires Valid() && (rxAt == FreeingCommand(tempCmd) || rxAt == FreeingPacket(tempCmd))
      modifies this`live, this`fault, this`rxAt, this`trace, this`log
      ensures Valid() && log == old(log) + [Did(RxRun)]
      ensures Left(View()) < old(Left(View())) && Spent() <= old(Spent())
      ensures live == old(live) - {tempCmd.payload}
      ensures rxAt == if old(rxAt).FreeingCommand? then DrainingCommands else DrainingPackets
    {
      hide Exec, Tracked, ProcessStep, TransmitStep, ReceiveStep, Left, RxRuns;
      ghost var s := View();
      Release(tempCmd);
      rxAt := if rxAt.FreeingCommand? then DrainingCommands else DrainingPackets;
      NoteReset(s);
    }

    /** `xQueueReceive(_cmdQueue)` that finds nothing. */
    method SeeCommandsEmpty()
      requires Valid() && rxAt.DrainingCommands? && cmdQueue == []
      modifies this`carried, this`rxAt, this`trace, this`log
      ensures Valid() && rxAt.DrainingPackets? && log == old(log) + [Did(RxRun)]
      ensures Left(View()) < old(Left(View())) && Spent() <= old(Spent())
    {
      hide Exec, Tracked, ProcessStep, TransmitStep, ReceiveStep, Left, RxRuns;
      ghost var s := View();
      carried := ProcessHand(memory, processAt);
      rxAt := DrainingPackets;
      NoteReset(s);
    }

    /** `xQueueReceive(_txQueue)` that finds nothing. */
    method SeePacketsEmpty()
      requires Valid() && rxAt.DrainingPackets? && txQueue == []
      modifies this`rxAt, this`trace, this`log
      ensures Valid() && rxAt.ResettingCommands? && log == old(log) + [Did(RxRun)]
      ensures Left(View()) < old(Left(View())) && Spent() <= old(Spent())
    {
      hide Exec, Tracked, ProcessStep, TransmitStep, ReceiveStep, Left, RxRuns;
      ghost var s := View();
      rxAt := ResettingCommands;
      NoteReset(s);
    }

    lemma LittleIsLeft()
      requires Valid()
      ensures rxAt.ResettingCommands? || rxAt.ResettingPackets? ==> cmdQueue == []
      ensures rxAt.ResettingPackets? ==> |txQueue| <= 1
    {
      hide Exec;
      ResetFindsLittle(trace);
    }

    lemma Swept()
      requires Valid() && rxAt.Listening? && cmdQueue == [] && txQueue == []
      ensures SweptClean(View())
    {
      hide Exec;
      SweptByReset(trace);
    }

    /** `xQueueReset(_cmdQueue)` */
    method ResetCommandQueue()
      requires Valid() && rxAt.ResettingCommands?
      modifies this`lostCommands, this`cmdQueue, this`rxAt, this`trace, this`log
      ensures Valid() && rxAt.ResettingPackets? && log == old(log) + [Did(RxRun)]
      ensures Left(View()) < old(Left(View())) && Spent() <= old(Spent())
      ensures cmdQueue == old(cmdQueue) == [] && lostCommands == old(lostCommands)
    {
      LittleIsLeft();
      ghost var s := View();
      ResetCommandsStep(s);
      hide Next, Exec, Tracked, Left, RxRuns;
      lostCommands := lostCommands + cmdQueue;
      cmdQueue := [];
      rxAt := ResettingPackets;
      NoteReset(s);
    }

    /** `xQueueReset(_txQueue)` */
    method ResetPacketQueue()
      requires Valid() && rxAt.ResettingPackets?
      modifies this`lostPackets, this`txQueue, this`rxAt, this`trace, this`log
      ensures Valid() && rxAt.Listening? && log == old(log) + [Did(RxRun)]
      ensures Left(View()) < old(Left(View())) && Spent() <= old(Spent())
      ensures lostPackets == old(lostPackets) + old(txQueue) && |old(txQueue)| <= 1
      ensures cmdQueue == [] && txQueue == []
    {
      LittleIsLeft();
      ghost var s := View();
      ResetPacketsStep(s);
      hide Next, Exec, Tracked, Left, RxRuns;
      lostPackets := lostPackets + txQueue;
      txQueue := [];
      rxAt := Listening;
      NoteReset(s);
    }

    // ---- _processTask ----

    /** One turn of the loop of `_processTask`: a command, if there is one, is handled and freed, and a general
        lingo payload goes to `_txQueue` without its first byte, or is freed when the queue stays full. */
    method ProcessTurn(patience: nat) returns (outcome: Outcome, ghost waits: nat)
      requires Valid() && processAt.Waiting?
      modifies this
      ensures Valid() && processAt.Waiting?
      ensures outcome.Nothing? <==> old(cmdQueue) == []
      ensures outcome.Nothing? ==> log == old(log) && View() == old(View())
      ensures !outcome.Nothing? ==>
                && old(cmdQueue)[0].payload !in live && Relayed(old(At(memory, cmdQueue[0])), memory, outcome)
                && log == old(log) + [Did(ProcessRun), Yielded(ProcessTask), Did(ProcessRun)]
                          + (if outcome.Ignored? then [] else [Yielded(ProcessTask)] + PacketMoves(waits, outcome))
                          + [Yielded(ProcessTask), Did(ProcessRun)]
      ensures waits <= patience && (outcome.Dropped? ==> waits == patience && outcome.entry.payload !in live)
      ensures outcome.Queued? || outcome.Dropped? ==> PacketSend(log, plan, |old(log)| + 4, waits, outcome)
      ensures old(schedule) == [] && !outcome.Nothing? ==>
                && schedule == [] && (outcome.Dropped? <==> !outcome.Ignored? && |old(txQueue)| == TX_QUEUE_SIZE)
                && View() == old(View()).(cmdQueue := old(cmdQueue)[1..],
                                          memory := old(memory) + Copied(outcome, old(At(memory, cmdQueue[0]))),
                                          live := old(live) - {old(cmdQueue)[0].payload}
                                                  + (if outcome.Queued? then {|old(memory)|} else {}),
                                          txQueue := old(txQueue) + if outcome.Queued? then [outcome.entry] else [])
    {
      hide Valid, StateAt, Relayed, PacketSend, PacketMoves, Copied, StateOf, Exhausted;
      waits := 0;
      Known();
      ghost var l := log;
      if cmdQueue == [] {
        outcome := Nothing;
      } else {
        outcome, waits := HandleCommand(patience);
        Known();
        if old(schedule) == [] {
          RelayedOutcome(old(At(memory, cmdQueue[0])), memory, outcome);
          ProcessTurnAlone(l, plan, waits, outcome);
        }
      }
    }

    /** A command is taken, handled and freed. */
    method HandleCommand(patience: nat) returns (outcome: Outcome, ghost waits: nat)
      requires Valid() && processAt.Waiting? && cmdQueue != []
      modifies this
      ensures Valid() && processAt.Waiting? && !outcome.Nothing?
      ensures old(cmdQueue)[0].payload !in live && Relayed(old(At(memory, cmdQueue[0])), memory, outcome)
      ensures log == old(log) + ProcessMoves(waits, outcome)
      ensures waits <= patience && (outcome.Dropped? ==> waits == patience && outcome.entry.payload !in live)
      ensures outcome.Queued? || outcome.Dropped? ==> PacketSend(log, plan, |old(log)| + 4, waits, outcome)
      ensures old(schedule) == [] ==>
                && schedule == [] && (outcome.Dropped? <==> !outcome.Ignored? && |old(txQueue)| == TX_QUEUE_SIZE)
                && (outcome.Queued? ==> |old(txQueue)| < TX_QUEUE_SIZE)
                && txQueue == old(txQueue) + if outcome.Queued? then [outcome.entry] else []
    {
      hide Valid, StateAt, Relayed, PacketSend, PacketMoves;
      var incCmd := ReceiveCommand();
      PreemptProcess();
      outcome, waits := ProcessPacket(incCmd, patience);
      ghost var processed := log;
      FinishCommand(incCmd, old(At(memory, cmdQueue[0])), outcome);
      SendsStay(processed, log, plan, |old(log)| + 4, waits, outcome);
    }

    /** The other tasks run once more, and the command is freed. */
    method FinishCommand(incCmd: Command, ghost payload: seq<byte>, ghost outcome: Outcome)
      requires Valid() && processAt == FreeingProcessed(incCmd)
      requires Relayed(payload, memory, outcome) && (outcome.Dropped? ==> outcome.entry.payload !in live)
      modifies this
      ensures Valid() && processAt.Waiting? && incCmd.payload !in live
      ensures Relayed(payload, memory, outcome) && (outcome.Dropped? ==> outcome.entry.payload !in live)
      ensures log == old(log) + [Yielded(ProcessTask), Did(ProcessRun)]
      ensures old(schedule) == [] ==> schedule == [] && txQueue == old(txQueue)
    {
      hide Valid;
      PreemptProcess();
      FreeProcessed(incCmd);
    }

    method ReceiveCommand() returns (incCmd: Command)
      requires Valid() && processAt.Waiting? && cmdQueue != []
      modifies this`cmdQueue, this`processAt, this`trace, this`log
      ensures Valid() && processAt == Processing(incCmd) && log == old(log) + [Did(ProcessRun)]
      ensures [incCmd] + cmdQueue == old(cmdQueue)
      ensures incCmd.payload < |memory|
    {
      hide Exec, Tracked, RxStep, TransmitStep, ReceiveStep;
      ghost var s := View();
      incCmd := cmdQueue[0];
      cmdQueue := cmdQueue[1..];
      processAt := Processing(incCmd);
      Note(ProcessRun, s);
      CommandInHand(trace, incCmd);
    }

    method FreeProcessed(incCmd: Command)
      requires Valid() && processAt == FreeingProcessed(incCmd)
      modifies this`live, this`fault, this`processAt, this`trace, this`log
      ensures Valid() && processAt.Waiting? && log == old(log) + [Did(ProcessRun)]
      ensures live == old(live) - {incCmd.payload}
    {
      hide Exec, Tracked, RxStep, TransmitStep, ReceiveStep;
      ghost var s := View();
      Release(incCmd);
      processAt := Waiting;
      Note(ProcessRun, s);
    }

    /** `_processPacket`: a general lingo payload is queued, the others have no effect on the queues. */
    method ProcessPacket(cmd: Command, patience: nat) returns (outcome: Outcome, ghost waits: nat)
      requires Valid() && processAt == Processing(cmd)
      modifies this
      ensures Valid() && processAt == FreeingProcessed(cmd) && old(memory) <= memory
      ensures !outcome.Nothing? && Relayed(old(At(memory, cmd)), memory, outcome)
      ensures log == old(log) + [Did(ProcessRun)]
                     + if outcome.Ignored? then [] else [Yielded(ProcessTask)] + PacketMoves(waits, outcome)
      ensures waits <= patience && (outcome.Dropped? ==> waits == patience && outcome.entry.payload !in live)
      ensures outcome.Queued? || outcome.Dropped? ==> PacketSend(log, plan, |old(log)| + 2, waits, outcome)
      ensures old(schedule) == [] ==>
                && schedule == [] && (outcome.Dropped? <==> !outcome.Ignored? && |old(txQueue)| == TX_QUEUE_SIZE)
                && (outcome.Queued? ==> |old(txQueue)| < TX_QUEUE_SIZE)
                && txQueue == old(txQueue) + if outcome.Queued? then [outcome.entry] else []
    {
      hide Valid, StateAt, PacketSend, PacketMoves;
      waits := 0;
      var packets := ReadPacket(cmd);
      if packets == [] {
        outcome := Ignored;
      } else {
        PreemptProcess();
        outcome, waits := QueuePacket(cmd, packets[0], patience);
      }
    }

    /** Reads the lingo byte and, for the general lingo, copies the `len - 1` bytes behind it. */
    method ReadPacket(cmd: Command) returns (packets: seq<Command>)
      requires Valid() && processAt == Processing(cmd)
      modifies this`memory, this`live, this`processAt, this`trace, this`log
      ensures Valid() && log == old(log) + [Did(ProcessRun)]
      ensures cmd.payload < |old(memory)| && 1 <= |old(memory)[cmd.payload]| <= 255
      ensures packets == [] ==>
                && processAt == FreeingProcessed(cmd) && old(memory)[cmd.payload][0] != 0x00
                && memory == old(memory) && live == old(live)
      ensures packets != [] ==>
                && processAt == SendingPacket(cmd, packets[0]) && packets[0].payload == |old(memory)|
                && old(memory)[cmd.payload] == [0x00] + At(memory, packets[0])
                && memory == old(memory) + [old(memory)[cmd.payload][1..]] && live == old(live) + {|old(memory)|}
                && packets[0].length == cmd.length - 1 == |At(memory, packets[0])|
    {
      hide Next, Exec, Tracked;
      CommandInHand(trace, cmd);
      ghost var s := View();
      ReadStep(s, cmd);
      var bytes := memory[cmd.payload];
      if bytes[0] == 0x00 {
        var packet := Allocate(bytes[1..]);
        packets := [packet];
        processAt := SendingPacket(cmd, packet);
      } else {
        packets := [];
        processAt := FreeingProcessed(cmd);
      }
      Note(ProcessRun, s);
    }

    /** The end of `_queuePacket`: the send, and the `delete[]` of a packet that finds no room. */
    method QueuePacket(cmd: Command, packet: Command, patience: nat) returns (outcome: Outcome, ghost waits: nat)
      requires Valid() && processAt == SendingPacket(cmd, packet)
      modifies this
      ensures Valid() && processAt == FreeingProcessed(cmd) && old(memory) <= memory
      ensures outcome == Queued(packet) || outcome == Dropped(packet)
      ensures waits <= patience && (outcome.Dropped? ==> waits == patience && packet.payload !in live)
      ensures log == old(log) + PacketMoves(waits, outcome) && PacketSend(log, plan, |old(log)|, waits, outcome)
      ensures old(schedule) == [] ==>
                && schedule == [] && (outcome.Dropped? <==> |old(txQueue)| == TX_QUEUE_SIZE)
                && (outcome.Queued? ==> |old(txQueue)| < TX_QUEUE_SIZE)
                && txQueue == old(txQueue) + if outcome.Queued? then [packet] else []
    {
      hide Valid, StateAt;
      waits := AwaitPacketRoom(cmd, packet, patience);
      ghost var waited := log;
      Now();
      var sent := SendPacketToQueue(cmd, packet);
      Now();
      StatesStay(waited, log, plan);
      if sent {
        outcome := Queued(packet);
      } else {
        outcome := Dropped(packet);
        ghost var failed := log;
        DropPacket(cmd, packet);
        SendsStay(failed, log, plan, |old(log)|, waits, outcome);
      }
    }

    /** The packet that found no room is freed. */
    method DropPacket(cmd: Command, packet: Command)
      requires Valid() && processAt == DroppingPacket(cmd, packet)
      modifies this
      ensures Valid() && processAt == FreeingProcessed(cmd) && old(memory) <= memory && packet.payload !in live
      ensures log == old(log) + [Yielded(ProcessTask), Did(ProcessRun)]
      ensures old(schedule) == [] ==> schedule == [] && txQueue == old(txQueue)
    {
      hide Valid;
      PreemptProcess();
      FreeUnsent(cmd, packet);
    }

    /** While `_txQueue` is full the send waits, for `patience` ticks at most. */
    method AwaitPacketRoom(cmd: Command, packet: Command, patience: nat) returns (ghost waits: nat)
      requires Valid() && processAt == SendingPacket(cmd, packet)
      modifies this
      ensures Valid() && processAt == old(processAt) && old(memory) <= memory
      ensures waits <= patience && (|txQueue| < TX_QUEUE_SIZE || waits == patience)
      ensures log == old(log) + Pauses(ProcessTask, waits)
      ensures forall k: nat :: |old(log)| <= k < |log| ==> |StateAt(log, plan, k).txQueue| == TX_QUEUE_SIZE
      ensures old(schedule) == [] ==> schedule == [] && View() == old(View())
    {
      hide Valid, StateAt;
      var ticks := 0;
      while |txQueue| >= TX_QUEUE_SIZE && ticks < patience
        invariant Valid() && processAt == old(processAt) && old(memory) <= memory
        invariant ticks <= patience && log == old(log) + Pauses(ProcessTask, ticks)
        invariant forall k: nat :: |old(log)| <= k < |log| ==> |StateAt(log, plan, k).txQueue| == TX_QUEUE_SIZE
        invariant old(schedule) == [] ==> schedule == [] && View() == old(View())
        decreases patience - ticks
      {
        ghost var before := log;
        Now();
        QueuesAreBounded();
        PreemptProcess();
        StatesStay(before, log, plan);
        ticks := ticks + 1;
      }
      waits := ticks;
    }

    /** `xQueueSend(_txQueue)`: it fails only on a full queue. */
    method SendPacketToQueue(cmd: Command, packet: Command) returns (sent: bool)
      requires Valid() && processAt == SendingPacket(cmd, packet)
      modifies this`txQueue, this`processAt, this`trace, this`log
      ensures Valid() && log == old(log) + [Did(if sent then ProcessRun else ProcessGiveUp)]
      ensures sent <==> |old(txQueue)| < TX_QUEUE_SIZE
      ensures sent ==> txQueue == old(txQueue) + [packet] && processAt == FreeingProcessed(cmd)
      ensures !sent ==> txQueue == old(txQueue) && processAt == DroppingPacket(cmd, packet)
      ensures !sent ==> |old(txQueue)| == TX_QUEUE_SIZE
    {
      hide Exec, Tracked, RxStep, TransmitStep, ReceiveStep;
      QueuesAreBounded();
      ghost var s := View();
      sent := |txQueue| < TX_QUEUE_SIZE;
      if sent {
        txQueue := txQueue + [packet];
        processAt := FreeingProcessed(cmd);
        Note(ProcessRun, s);
      } else {
        processAt := DroppingPacket(cmd, packet);
        Note(ProcessGiveUp, s);
      }
    }

    method FreeUnsent(cmd: Command, packet: Command)
      requires Valid() && processAt == DroppingPacket(cmd, packet)
      modifies this`live, this`fault, this`processAt, this`trace, this`log
      ensures Valid() && processAt == FreeingProcessed(cmd) && log == old(log) + [Did(ProcessRun)]
      ensures live == old(live) - {packet.payload}
    {
      hide Exec, Tracked, RxStep, TransmitStep, ReceiveStep;
      ghost var s := View();
      Release(packet);
      processAt := FreeingProcessed(cmd);
      Note(ProcessRun, s);
    }

    // ---- _txTask ----

    /** One turn of the loop of `_txTask`: nothing while a frame is being received, otherwise the oldest packet
        is written and freed, if there is one. */
    method TransmitTurn() returns (done: Transmission)
      requires Valid() && transmitAt.Checking?
      modifies this
      ensures Valid() && transmitAt.Checking?
      ensures done.HeldBack? <==> !old(rx).mode.Idle?
      ensures done.HeldBack? ==> log == old(log) && View() == old(View())
      ensures done.Empty? ==>
                && log == old(log) + [Did(TransmitRun), Yielded(TransmitTask), Did(TransmitRun)]
                && StateAt(log, plan, |old(log)| + 2).txQueue == [] && output == old(output)
      ensures done.Written? ==>
                && log == old(log) + [Did(TransmitRun), Yielded(TransmitTask), Did(TransmitRun), Yielded(TransmitTask),
                                      Did(TransmitRun), Yielded(TransmitTask), Did(TransmitRun)]
                && [done.packet] <= StateAt(log, plan, |old(log)| + 2).txQueue
                && output == old(output) + [At(memory, done.packet)] && done.packet.payload !in live
      ensures old(schedule) == [] ==>
                && schedule == [] && (done.Written? <==> old(rx).mode.Idle? && old(txQueue) != [])
                && (done.Empty? ==> View() == old(View()))
                && (done.Written? ==>
                      && done.packet == old(txQueue)[0]
                      && View() == old(View()).(txQueue := old(txQueue)[1..],
                                                output := old(output) + [At(old(memory), old(txQueue)[0])],
                                                live := old(live) - {old(txQueue)[0].payload}))
    {
      hide Valid, StateAt, StateOf, Exhausted;
      Known();
      ghost var l := log;
      if !rx.mode.Idle? {
        done := HeldBack;
      } else {
        done := LookAndWrite();
        Known();
        if old(schedule) == [] {
          TransmitTurnAlone(l, plan);
        }
      }
    }

    /** What is done when no frame is open. */
    method LookAndWrite() returns (done: Transmission)
      requires Valid() && transmitAt.Checking? && rx.mode.Idle?
      modifies this
      ensures Valid() && transmitAt.Checking? && !done.HeldBack?
      ensures done.Empty? ==>
                && log == old(log) + LOOK
                && StateAt(log, plan, |old(log)| + 2).txQueue == [] && output == old(output)
      ensures done.Written? ==>
                && log == old(log) + LOOK + WRITE
                && [done.packet] <= StateAt(log, plan, |old(log)| + 2).txQueue
                && output == old(output) + [At(memory, done.packet)] && done.packet.payload !in live
      ensures old(schedule) == [] ==>
                && schedule == [] && (done.Written? <==> old(txQueue) != [])
                && (done.Written? ==> done.packet == old(txQueue)[0])
    {
      hide Valid, StateAt;
      StartTurn();
      PreemptTransmit();
      Now();
      ghost var looked := log;
      if txQueue == [] {
        EndTurn();
        done := Empty;
      } else {
        var packet := WriteNext();
        done := Written(packet);
      }
      StatesStay(looked, log, plan);
    }

    method WriteNext() returns (txCmd: Command)
      requires Valid() && transmitAt.Receiving? && txQueue != []
      modifies this
      ensures Valid() && transmitAt.Checking? && old(memory) <= memory
      ensures txCmd == old(txQueue)[0] && txCmd.payload < |old(memory)| && txCmd.payload !in live
      ensures output == old(output) + [At(memory, txCmd)]
      ensures log == old(log) + [Did(TransmitRun), Yielded(TransmitTask),
                                 Did(TransmitRun), Yielded(TransmitTask), Did(TransmitRun)]
      ensures old(schedule) == [] ==> schedule == []
    {
      hide Valid;
      txCmd := ReceivePacket();
      PreemptTransmit();
      FinishWrite(txCmd);
    }

    /** The packet is written and freed. */
    method FinishWrite(txCmd: Command)
      requires Valid() && transmitAt == Writing(txCmd)
      modifies this
      ensures Valid() && transmitAt.Checking? && old(memory) <= memory
      ensures txCmd.payload < |old(memory)| && txCmd.payload !in live
      ensures output == old(output) + [old(memory)[txCmd.payload]]
      ensures log == old(log) + [Did(TransmitRun), Yielded(TransmitTask), Did(TransmitRun)]
      ensures old(schedule) == [] ==> schedule == []
    {
      hide Valid;
      SendPacket(txCmd);
      PreemptTransmit();
      FreeWritten(txCmd);
    }

    method StartTurn()
      requires Valid() && transmitAt.Checking? && rx.mode.Idle?
      modifies this`transmitAt, this`trace, this`log
      ensures Valid() && transmitAt.Receiving? && log == old(log) + [Did(TransmitRun)]
    {
      hide Exec, Tracked, RxStep, ProcessStep, ReceiveStep;
      ghost var s := View();
      transmitAt := Receiving;
      Note(TransmitRun, s);
    }

    method EndTurn()
      requires Valid() && transmitAt.Receiving? && txQueue == []
      modifies this`transmitAt, this`trace, this`log
      ensures Valid() && transmitAt.Checking? && log == old(log) + [Did(TransmitRun)]
    {
      hide Exec, Tracked, RxStep, ProcessStep, ReceiveStep;
      ghost var s := View();
      transmitAt := Checking;
      Note(TransmitRun, s);
    }

    method ReceivePacket() returns (txCmd: Command)
      requires Valid() && transmitAt.Receiving? && txQueue != []
      modifies this`txQueue, this`transmitAt, this`trace, this`log
      ensures Valid() && transmitAt == Writing(txCmd) && log == old(log) + [Did(TransmitRun)]
      ensures [txCmd] + txQueue == old(txQueue) && txCmd.payload < |memory|
    {
      hide Exec, Tracked, RxStep, ProcessStep, ReceiveStep;
      ghost var s := View();
      txCmd := txQueue[0];
      txQueue := txQueue[1..];
      transmitAt := Writing(txCmd);
      Note(TransmitRun, s);
      PacketInHand(trace, txCmd);
    }

    /** `_sendPacket` */
    method SendPacket(packet: Command)
      requires Valid() && transmitAt == Writing(packet)
      modifies this`output, this`transmitAt, this`trace, this`log
      ensures Valid() && transmitAt == FreeingWritten(packet) && log == old(log) + [Did(TransmitRun)]
      ensures packet.payload in live && packet.payload < |memory|
      ensures output == old(output) + [memory[packet.payload]]
    {
      PacketInHand(trace, packet);
      ghost var s := View();
      WriteStep(s, packet);
      hide Next, Exec, Tracked;
      output := output + [memory[packet.payload]];
      transmitAt := FreeingWritten(packet);
      Note(TransmitRun, s);
    }

    method FreeWritten(packet: Command)
      requires Valid() && transmitAt == FreeingWritten(packet)
      modifies this`live, this`fault, this`transmitAt, this`trace, this`log
      ensures Valid() && transmitAt.Checking? && log == old(log) + [Did(TransmitRun)]
      ensures live == old(live) - {packet.payload}
    {
      hide Exec, Tracked, RxStep, ProcessStep, ReceiveStep;
      ghost var s := View();
      Release(packet);
      transmitAt := Checking;
      Note(TransmitRun, s);
    }
  }
}
