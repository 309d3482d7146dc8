/** What every run of the pipeline keeps. */
module PipelineSafety {
  import opened Config
  import opened FrameParser
  import opened Pipeline
  import opened Subsequence
  import opened Ownership

  // ---- Ownership ----

  function One(a: Address, b: Address): nat {
    if a == b then 1 else 0
  }

  predicate Points(cmd: Command, a: Address) {
    cmd.payload == a
  }

  function RxHolds(at: RxAt, a: Address): nat {
    match at
    case SendingCommand(cmd) => One(cmd.payload, a)
    case DroppingCommand(cmd) => One(cmd.payload, a)
    case FreeingCommand(cmd) => One(cmd.payload, a)
    case FreeingPacket(cmd) => One(cmd.payload, a)
    case _ => 0
  }

  function ProcessHolds(at: ProcessAt, a: Address): nat {
    match at
    case Waiting => 0
    case Processing(cmd) => One(cmd.payload, a)
    case SendingPacket(cmd, packet) => One(cmd.payload, a) + One(packet.payload, a)
    case DroppingPacket(cmd, packet) => One(cmd.payload, a) + One(packet.payload, a)
    case FreeingProcessed(cmd) => One(cmd.payload, a)
  }

  function TransmitHolds(at: TransmitAt, a: Address): nat {
    match at
    case Writing(packet) => One(packet.payload, a)
    case FreeingWritten(packet) => One(packet.payload, a)
    case _ => 0
  }

  /** In how many places buffer `a` is: queue entries, task hands, and commands a queue reset discarded. */
  function Places(s: State, a: Address): nat {
    Held(s.cmdQueue, Points, a) + Held(s.txQueue, Points, a)
    + RxHolds(s.rxAt, a) + ProcessHolds(s.processAt, a) + TransmitHolds(s.transmitAt, a)
    + Held(s.lostPackets, Points, a)
  }

  /** A live buffer is in exactly one place, a freed or unallocated one in none. */
  predicate Accounted(s: State, a: Address) {
    Places(s, a) == (if a in s.live then 1 else 0) && (a in s.live ==> a < |s.memory|)
  }

  ghost predicate Safe(s: State) {
    !s.fault && forall a :: Accounted(s, a)
  }

  // ---- Commands and packets ----

  /** A queued or held command: its length is that of its buffer, and a frame payload has 1 to 255 bytes. */
  predicate GoodCommand(memory: seq<seq<byte>>, cmd: Command) {
    cmd.payload < |memory| && cmd.length == |memory[cmd.payload]| && 1 <= cmd.length <= 255
  }

  predicate GoodPacket(memory: seq<seq<byte>>, cmd: Command) {
    cmd.payload < |memory| && cmd.length == |memory[cmd.payload]| && cmd.length <= 254
  }

  predicate GoodHands(s: State) {
    && (s.rxAt.SendingCommand? ==> GoodCommand(s.memory, s.rxAt.cmd))
    && (match s.processAt
        case Processing(cmd) => GoodCommand(s.memory, cmd)
        case SendingPacket(_, packet) => GoodPacket(s.memory, packet)
        case _ => true)
    && (s.transmitAt.Writing? ==> GoodPacket(s.memory, s.transmitAt.packet))
  }

  predicate GoodCommands(memory: seq<seq<byte>>, queue: seq<Command>) {
    |queue| <= CMD_QUEUE_SIZE && forall i :: 0 <= i < |queue| ==> GoodCommand(memory, queue[i])
  }

  predicate GoodPackets(memory: seq<seq<byte>>, queue: seq<Command>) {
    |queue| <= TX_QUEUE_SIZE && forall i :: 0 <= i < |queue| ==> GoodPacket(memory, queue[i])
  }

  predicate WellFormed(s: State) {
    Consistent(s.rx) && GoodCommands(s.memory, s.cmdQueue) && GoodPackets(s.memory, s.txQueue) && GoodHands(s)
  }

  lemma TailsAreGood(memory: seq<seq<byte>>, commands: seq<Command>, packets: seq<Command>)
    requires GoodCommands(memory, commands) && GoodPackets(memory, packets)
    ensures commands != [] ==> GoodCommands(memory, commands[1..]) && GoodCommand(memory, commands[0])
    ensures packets != [] ==> GoodPackets(memory, packets[1..]) && GoodPacket(memory, packets[0])
  {
  }

  lemma GoodAfterNew(memory: seq<seq<byte>>, more: seq<byte>, commands: seq<Command>, packets: seq<Command>)
    requires GoodCommands(memory, commands) && GoodPackets(memory, packets)
    ensures GoodCommands(memory + [more], commands) && GoodPackets(memory + [more], packets)
  {
  }

  lemma ReceiveWellFormed(s: State, b: byte)
    requires WellFormed(s)
    ensures WellFormed(ReceiveStep(s, b))
  {
    if Emit(s.rx, b) != [] {
      GoodAfterNew(s.memory, Emit(s.rx, b)[0], s.cmdQueue, s.txQueue);
    }
  }

  lemma RxQueuesWellFormed(s: State)
    requires WellFormed(s) && (s.rxAt.SendingCommand? || s.rxAt.DrainingCommands? || s.rxAt.DrainingPackets?)
    ensures WellFormed(RxStep(s))
  {
    TailsAreGood(s.memory, s.cmdQueue, s.txQueue);
  }

  lemma RxFreesWellFormed(s: State)
    requires WellFormed(s) && (s.rxAt.DroppingCommand? || s.rxAt.FreeingCommand? || s.rxAt.FreeingPacket?)
    ensures WellFormed(RxStep(s))
  {
  }

  lemma {:induction false} RxWellFormed(s: State)
    requires WellFormed(s)
    ensures WellFormed(RxStep(s))
  {
    if s.rxAt.SendingCommand? || s.rxAt.DrainingCommands? || s.rxAt.DrainingPackets? {
      RxQueuesWellFormed(s);
    } else if s.rxAt.DroppingCommand? || s.rxAt.FreeingCommand? || s.rxAt.FreeingPacket? {
      RxFreesWellFormed(s);
    }
  }

  lemma ProcessingWellFormed(s: State)
    requires WellFormed(s) && s.processAt.Processing?
    ensures WellFormed(ProcessStep(s))
  {
    var cmd := s.processAt.cmd;
    if Readable(s, cmd) && cmd.length > 0 {
      GoodAfterNew(s.memory, s.memory[cmd.payload][1..], s.cmdQueue, s.txQueue);
    }
  }

  lemma ProcessWellFormed(s: State)
    requires WellFormed(s)
    ensures WellFormed(ProcessStep(s))
  {
    if s.processAt.Processing? {
      ProcessingWellFormed(s);
    } else if s.processAt.Waiting? {
      TailsAreGood(s.memory, s.cmdQueue, s.txQueue);
    }
  }

  lemma TransmitWellFormed(s: State)
    requires WellFormed(s)
    ensures WellFormed(TransmitStep(s))
  {
  }

  lemma {:induction false} NextWellFormed(s: State, l: Label)
    requires WellFormed(s)
    ensures WellFormed(Next(s, l))
  {
    match l {
      case Receive(b) => ReceiveWellFormed(s, b);
      case RxRun => RxWellFormed(s);
      case ProcessRun => ProcessWellFormed(s);
      case TransmitRun => TransmitWellFormed(s);
      case _ =>
    }
  }

  // ---- resetState ----

  predicate InReset(s: State) {
    s.rxAt.DrainingPackets? || s.rxAt.FreeingPacket? || s.rxAt.ResettingCommands? || s.rxAt.ResettingPackets?
  }

  /** Once `_cmdQueue` was seen empty it stays empty, and all that can still reach `_txQueue` is the packet
      the process task was then bound to send. */
  predicate ResetContained(s: State) {
    && |s.carried| <= 1
    && s.lostCommands == []
    && (InReset(s) ==>
          var hand := ProcessHand(s.memory, s.processAt);
          s.cmdQueue == [] && (hand == [] || hand == s.carried))
    && (s.rxAt.ResettingCommands? || s.rxAt.ResettingPackets? ==>
          var rest := Contents(s.memory, s.txQueue) + ProcessHand(s.memory, s.processAt);
          rest == [] || rest == s.carried)
  }

  lemma ContentsStable(memory: seq<seq<byte>>, more: seq<byte>, queue: seq<Command>)
    requires forall c :: c in queue ==> c.payload < |memory|
    ensures Contents(memory + [more], queue) == Contents(memory, queue)
  {
  }

  lemma ContentsPush(memory: seq<seq<byte>>, queue: seq<Command>, cmd: Command)
    ensures Contents(memory, queue + [cmd]) == Contents(memory, queue) + [At(memory, cmd)]
  {
  }

  lemma ContentsPop(memory: seq<seq<byte>>, queue: seq<Command>)
    requires queue != []
    ensures Contents(memory, queue) == [At(memory, queue[0])] + Contents(memory, queue[1..])
  {
  }

  lemma {:induction false} NextResetContained(s: State, l: Label)
    requires WellFormed(s) && ResetContained(s)
    ensures ResetContained(Next(s, l))
  {
    match l {
      case Receive(b) => ReceiveContained(s, b);
      case RxRun => RxContained(s);
      case ProcessRun => ProcessContained(s);
      case TransmitRun => TransmitContained(s);
      case _ =>
    }
  }

  lemma ReceiveContained(s: State, b: byte)
    requires WellFormed(s) && ResetContained(s)
    ensures s.rxAt.Listening? ==> ResetContained(ReceiveStep(s, b))
  {
  }

  lemma HandIsOne(memory: seq<seq<byte>>, at: ProcessAt)
    ensures |ProcessHand(memory, at)| <= 1
    ensures at.FreeingProcessed? || at.DroppingPacket? || at.Waiting? ==> ProcessHand(memory, at) == []
  {
  }

  /** `resetState` sees `_cmdQueue` empty. */
  lemma CommandsEmptyContained(s: State)
    requires ResetContained(s) && s.rxAt.DrainingCommands? && s.cmdQueue == []
    ensures ResetContained(RxStep(s))
  {
    HandIsOne(s.memory, s.processAt);
    hide ProcessHand, Contents;
  }

  /** `resetState` sees `_txQueue` empty. */
  lemma PacketsEmptyContained(s: State)
    requires ResetContained(s) && s.rxAt.DrainingPackets? && s.txQueue == []
    ensures ResetContained(RxStep(s))
  {
    assert Contents(s.memory, s.txQueue) + ProcessHand(s.memory, s.processAt) == ProcessHand(s.memory, s.processAt);
    hide ProcessHand, Contents;
  }

  lemma RxFreesContained(s: State)
    requires ResetContained(s) && (s.rxAt.DroppingCommand? || s.rxAt.FreeingCommand? || s.rxAt.FreeingPacket?)
    ensures ResetContained(RxStep(s))
  {
    hide ProcessHand, Contents;
  }

  lemma RxContained(s: State)
    requires ResetContained(s)
    ensures ResetContained(RxStep(s))
  {
    hide ProcessHand, Contents;
    if s.rxAt.DrainingCommands? && s.cmdQueue == [] {
      CommandsEmptyContained(s);
    } else if s.rxAt.DrainingPackets? && s.txQueue == [] {
      PacketsEmptyContained(s);
    } else if s.rxAt.DroppingCommand? || s.rxAt.FreeingCommand? || s.rxAt.FreeingPacket? {
      RxFreesContained(s);
    }
  }

  lemma ReadingContained(s: State)
    requires WellFormed(s) && ResetContained(s) && s.processAt.Processing?
    ensures ResetContained(ProcessStep(s))
  {
    var cmd, t := s.processAt.cmd, ProcessStep(s);
    if Readable(s, cmd) && cmd.length != 0 {
      ContentsStable(s.memory, s.memory[cmd.payload][1..], s.txQueue);
      assert ProcessHand(t.memory, t.processAt) == ProcessHand(s.memory, s.processAt);
      hide ProcessHand, Contents, WellFormed;
    }
  }

  lemma SendingContained(s: State)
    requires ResetContained(s) && s.processAt.SendingPacket?
    ensures ResetContained(ProcessStep(s))
  {
    var packet, t := s.processAt.packet, ProcessStep(s);
    ContentsPush(s.memory, s.txQueue, packet);
    assert Contents(s.memory, s.txQueue) + [At(s.memory, packet)] + []
           == Contents(s.memory, s.txQueue) + [At(s.memory, packet)];
    assert ProcessHand(s.memory, s.processAt) == [At(s.memory, packet)];
    assert t != s ==> ProcessHand(t.memory, t.processAt) == [];
    hide ProcessHand, Contents;
  }

  lemma ProcessContained(s: State)
    requires WellFormed(s) && ResetContained(s)
    ensures ResetContained(ProcessStep(s))
  {
    if s.processAt.Processing? {
      ReadingContained(s);
    } else if s.processAt.SendingPacket? {
      SendingContained(s);
    } else {
      HandIsOne(s.memory, s.processAt);
      HandIsOne(s.memory, ProcessStep(s).processAt);
      hide ProcessHand, Contents, WellFormed;
    }
  }

  lemma TransmitTakesContained(s: State)
    requires ResetContained(s) && s.transmitAt.Receiving?
    ensures ResetContained(TransmitStep(s))
  {
    if s.txQueue != [] {
      var hand := ProcessHand(s.memory, s.processAt);
      HandIsOne(s.memory, s.processAt);
      ContentsPop(s.memory, s.txQueue);
      var rest, rest' := Contents(s.memory, s.txQueue) + hand, Contents(s.memory, s.txQueue[1..]) + hand;
      assert rest == [At(s.memory, s.txQueue[0])] + rest';
      assert |rest| <= 1 ==> rest' == [];
      hide ProcessHand, Contents;
    }
  }

  lemma TransmitContained(s: State)
    requires ResetContained(s)
    ensures ResetContained(TransmitStep(s))
  {
    hide ProcessHand, Contents;
    if s.transmitAt.Receiving? {
      TransmitTakesContained(s);
    }
  }

  // ---- Conservation ----

  lemma ReceiveAccounted(s: State, b: byte, a: Address)
    requires s.rxAt.Listening? && Accounted(s, a)
    ensures Accounted(ReceiveStep(s, b), a)
  {
  }

  lemma RxSendsAccounted(s: State, a: Address)
    requires Accounted(s, a) && s.rxAt.SendingCommand?
    ensures Accounted(RxStep(s), a)
  {
    hide ProcessHolds, TransmitHolds;
    HeldPush(s.cmdQueue, s.rxAt.cmd, Points, a);
  }

  lemma RxDrainsAccounted(s: State, a: Address)
    requires Accounted(s, a) && (s.rxAt.DrainingCommands? || s.rxAt.DrainingPackets?)
    ensures Accounted(RxStep(s), a)
  {
    hide ProcessHolds, TransmitHolds;
  }

  lemma RxFreesAccounted(s: State, a: Address)
    requires s.rxAt.DroppingCommand? || s.rxAt.FreeingCommand? || s.rxAt.FreeingPacket?
    requires Accounted(s, a) && Accounted(s, s.rxAt.cmd.payload)
    ensures Accounted(RxStep(s), a) && RxStep(s).fault == s.fault
  {
    assert Places(s, s.rxAt.cmd.payload) >= 1;
  }

  lemma RxAccounted(s: State, a: Address)
    requires Safe(s) && ResetContained(s)
    ensures Accounted(RxStep(s), a) && !RxStep(s).fault
  {
    assert Accounted(s, a);
    if s.rxAt.SendingCommand? {
      RxSendsAccounted(s, a);
    } else if s.rxAt.DrainingCommands? || s.rxAt.DrainingPackets? {
      RxDrainsAccounted(s, a);
    } else if s.rxAt.DroppingCommand? || s.rxAt.FreeingCommand? || s.rxAt.FreeingPacket? {
      assert Accounted(s, s.rxAt.cmd.payload);
      RxFreesAccounted(s, a);
    } else if s.rxAt.ResettingPackets? {
      HeldJoin(s.lostPackets, s.txQueue, Points, a);
    }
  }

  lemma ProcessReadsAccounted(s: State, a: Address)
    requires s.processAt.Processing? && WellFormed(s)
    requires Accounted(s, a) && Accounted(s, s.processAt.cmd.payload)
    ensures Accounted(ProcessStep(s), a) && ProcessStep(s).fault == s.fault
  {
    hide RxHolds, TransmitHolds, Held;
    assert Places(s, s.processAt.cmd.payload) >= 1;
  }

  lemma ProcessQueuesAccounted(s: State, a: Address)
    requires Accounted(s, a) && (s.processAt.Waiting? || s.processAt.SendingPacket?)
    ensures Accounted(ProcessStep(s), a)
  {
    if s.processAt.SendingPacket? { HeldPush(s.txQueue, s.processAt.packet, Points, a); }
  }

  /** The buffer the process task is about to delete. */
  function Freeing(at: ProcessAt): Address
    requires at.DroppingPacket? || at.FreeingProcessed?
  {
    if at.DroppingPacket? then at.packet.payload else at.cmd.payload
  }

  lemma ProcessFreesAccounted(s: State, a: Address)
    requires s.processAt.DroppingPacket? || s.processAt.FreeingProcessed?
    requires Accounted(s, a) && Accounted(s, Freeing(s.processAt))
    ensures Accounted(ProcessStep(s), a) && ProcessStep(s).fault == s.fault
  {
    assert Places(s, Freeing(s.processAt)) >= 1;
  }

  lemma ProcessAccounted(s: State, a: Address)
    requires Safe(s) && WellFormed(s)
    ensures Accounted(ProcessStep(s), a) && !ProcessStep(s).fault
  {
    assert Accounted(s, a);
    if s.processAt.Processing? {
      assert Accounted(s, s.processAt.cmd.payload);
      ProcessReadsAccounted(s, a);
    } else if s.processAt.Waiting? || s.processAt.SendingPacket? {
      ProcessQueuesAccounted(s, a);
    } else {
      assert Accounted(s, Freeing(s.processAt));
      ProcessFreesAccounted(s, a);
    }
  }

  lemma TransmitAccounted(s: State, a: Address)
    requires Safe(s) && WellFormed(s)
    ensures Accounted(TransmitStep(s), a) && !TransmitStep(s).fault
  {
    assert Accounted(s, a);
    if s.transmitAt.Writing? || s.transmitAt.FreeingWritten? {
      assert Accounted(s, s.transmitAt.packet.payload);
      assert Places(s, s.transmitAt.packet.payload) >= 1;
    }
  }

  lemma NextAccounted(s: State, l: Label, a: Address)
    requires Safe(s) && WellFormed(s) && ResetContained(s)
    ensures Accounted(Next(s, l), a) && !Next(s, l).fault
  {
    assert Accounted(s, a);
    match l {
      case Receive(b) => if s.rxAt.Listening? { ReceiveAccounted(s, b, a); }
      case RxRun => RxAccounted(s, a);
      case ProcessRun => ProcessAccounted(s, a);
      case TransmitRun => TransmitAccounted(s, a);
      case _ =>
    }
  }

  lemma NextSafe(s: State, l: Label)
    requires Safe(s) && WellFormed(s) && ResetContained(s)
    ensures Safe(Next(s, l))
  {
    forall a ensures Accounted(Next(s, l), a) && !Next(s, l).fault {
      NextAccounted(s, l, a);
    }
    NextAccounted(s, l, 0);
  }

  // ---- Order ----

  lemma {:induction false} RelayJoin(a: seq<seq<byte>>, b: seq<seq<byte>>)
    ensures Relay(a + b) == Relay(a) + Relay(b)
    decreases |a|
  {
    if a == [] {
      assert a + b == b;
    } else {
      assert (a + b)[1..] == a[1..] + b;
      RelayJoin(a[1..], b);
    }
  }

  lemma RelaySnoc(a: seq<seq<byte>>, payload: seq<byte>)
    ensures Relay(a + [payload]) == Relay(a) + RelayOne(payload)
  {
    RelayJoin(a, [payload]);
    assert [payload][1..] == [];
  }

  lemma RelayHead(a: seq<seq<byte>>)
    requires a != []
    ensures Relay(a) == RelayOne(a[0]) + Relay(a[1..])
  {
  }

  ghost predicate Ordered(s: State) {
    IsSubsequence(InTransit(s), Relay(s.accepted))
  }

  /** A step that neither accepts nor loses anything moves packets along without changing their order. */
  predicate Moves(s: State, t: State) {
    InTransit(t) == InTransit(s) && t.accepted == s.accepted
  }

  /** A step that loses packets leaves the others in order. */
  ghost predicate Loses(s: State, t: State) {
    (Ordered(s) ==> Ordered(t)) && t.accepted == s.accepted
  }

  /** An accepted payload joins at the end. */
  predicate Joins(s: State, t: State, payload: seq<byte>) {
    InTransit(t) == InTransit(s) + RelayOne(payload) && t.accepted == s.accepted + [payload]
  }

  type Packets = seq<seq<byte>>

  lemma LineMoves(w: Packets, t: Packets, q: Packets, p: Packets, c: Packets, r: Packets)
    ensures Line(w + t, [], q, p, c, r) == Line(w, t, q, p, c, r)
    ensures Line(w, [], t + q, p, c, r) == Line(w, t, q, p, c, r)
    ensures Line(w, t, q + p, [], c, r) == Line(w, t, q, p, c, r)
    ensures Line(w, t, q, [], p + c, r) == Line(w, t, q, p, c, r)
    ensures Line(w, t, q, p, c + r, []) == Line(w, t, q, p, c, r)
    ensures Line(w, t, q, p, c, r) == Line(w, t, q, p, c, []) + r
  {
  }

  lemma LineLosesPackets(w: Packets, t: Packets, y: Packets, q: Packets, p: Packets, c: Packets, r: Packets, b: Packets)
    requires IsSubsequence(Line(w, t, y + q, p, c, r), b)
    ensures IsSubsequence(Line(w, t, q, p, c, r), b)
  {
    var x, z := w + t, q + (p + (c + r));
    assert Line(w, t, y + q, p, c, r) == x + y + z;
    assert Line(w, t, q, p, c, r) == x + z;
    DropMiddle(x, y, z, b);
  }

  lemma LineLosesProcess(w: Packets, t: Packets, q: Packets, p: Packets, c: Packets, r: Packets, b: Packets)
    requires IsSubsequence(Line(w, t, q, p, c, r), b)
    ensures IsSubsequence(Line(w, t, q, [], c, r), b)
  {
    var x, z := w + t + q, c + r;
    assert Line(w, t, q, p, c, r) == x + p + z;
    assert Line(w, t, q, [], c, r) == x + z;
    DropMiddle(x, p, z, b);
  }

  lemma LineLosesCommands(w: Packets, t: Packets, q: Packets, p: Packets, y: Packets, c: Packets, r: Packets,
                          b: Packets)
    requires IsSubsequence(Line(w, t, q, p, y + c, r), b)
    ensures IsSubsequence(Line(w, t, q, p, c, r), b)
  {
    var x, z := w + t + q + p, c + r;
    assert Line(w, t, q, p, y + c, r) == x + y + z;
    assert Line(w, t, q, p, c, r) == x + z;
    DropMiddle(x, y, z, b);
  }

  lemma LineLosesReceive(w: Packets, t: Packets, q: Packets, p: Packets, c: Packets, r: Packets, b: Packets)
    requires IsSubsequence(Line(w, t, q, p, c, r), b)
    ensures IsSubsequence(Line(w, t, q, p, c, []), b)
  {
    LineMoves(w, t, q, p, c, r);
    Prefix(Line(w, t, q, p, c, []), r, b);
  }

  /** `LineMoves` at the state's own line. */
  lemma {:induction false} StateLineMoves(s: State)
    ensures var w, t, q := s.output, TransmitHand(s.memory, s.transmitAt), Contents(s.memory, s.txQueue);
            var p, r := ProcessHand(s.memory, s.processAt), RxHand(s.memory, s.rxAt);
            var c := Relay(Contents(s.memory, s.cmdQueue));
            && InTransit(s) == Line(w + t, [], q, p, c, r)
            && InTransit(s) == Line(w, t, q + p, [], c, r)
            && InTransit(s) == Line(w, t, q, p, c + r, [])
            && InTransit(s) == Line(w, t, q, p, c, []) + r
  {
    LineMoves(s.output, TransmitHand(s.memory, s.transmitAt), Contents(s.memory, s.txQueue),
              ProcessHand(s.memory, s.processAt),
              Relay(Contents(s.memory, s.cmdQueue)), RxHand(s.memory, s.rxAt));
  }

  lemma ReceiveOrder(s: State, b: byte)
    requires WellFormed(s) && s.rxAt.Listening?
    ensures Emit(s.rx, b) == [] ==> Moves(s, ReceiveStep(s, b))
    ensures Emit(s.rx, b) != [] ==> Joins(s, ReceiveStep(s, b), Emit(s.rx, b)[0])
  {
    var t := ReceiveStep(s, b);
    if Emit(s.rx, b) != [] {
      ContentsStable(s.memory, Emit(s.rx, b)[0], s.txQueue);
      ContentsStable(s.memory, Emit(s.rx, b)[0], s.cmdQueue);
      assert TransmitHand(t.memory, t.transmitAt) == TransmitHand(s.memory, s.transmitAt);
      assert ProcessHand(t.memory, t.processAt) == ProcessHand(s.memory, s.processAt);
      assert RxHand(s.memory, s.rxAt) == [] && RxHand(t.memory, t.rxAt) == RelayOne(Emit(s.rx, b)[0]);
      StateLineMoves(t);
    }
  }

  lemma SendOrder(s: State)
    requires s.rxAt.SendingCommand?
    ensures Moves(s, RxStep(s))
  {
    ContentsPush(s.memory, s.cmdQueue, s.rxAt.cmd);
    RelaySnoc(Contents(s.memory, s.cmdQueue), At(s.memory, s.rxAt.cmd));
    StateLineMoves(s);
  }

  lemma DrainCommandOrder(s: State)
    requires s.rxAt.DrainingCommands?
    ensures Loses(s, RxStep(s))
  {
    if Ordered(s) && s.cmdQueue != [] {
      ContentsPop(s.memory, s.cmdQueue);
      RelayHead(Contents(s.memory, s.cmdQueue));
      LineLosesCommands(s.output, TransmitHand(s.memory, s.transmitAt), Contents(s.memory, s.txQueue),
                        ProcessHand(s.memory, s.processAt),
                        RelayOne(At(s.memory, s.cmdQueue[0])), Relay(Contents(s.memory, s.cmdQueue[1..])),
                        RxHand(s.memory, s.rxAt),
                        Relay(s.accepted));
    }
  }

  lemma DrainPacketOrder(s: State)
    requires s.rxAt.DrainingPackets?
    ensures Loses(s, RxStep(s))
  {
    if Ordered(s) && s.txQueue != [] {
      ContentsPop(s.memory, s.txQueue);
      LineLosesPackets(s.output, TransmitHand(s.memory, s.transmitAt), [At(s.memory, s.txQueue[0])],
                       Contents(s.memory, s.txQueue[1..]), ProcessHand(s.memory, s.processAt),
                       Relay(Contents(s.memory, s.cmdQueue)), RxHand(s.memory, s.rxAt), Relay(s.accepted));
    }
  }

  lemma ResetPacketsOrder(s: State)
    requires s.rxAt.ResettingPackets?
    ensures Loses(s, RxStep(s))
  {
    if Ordered(s) {
      var q := Contents(s.memory, s.txQueue);
      assert q + [] == q && Contents(s.memory, []) == [];
      assert RxHand(s.memory, s.rxAt) == RxHand(s.memory, Listening);
      hide Line, Contents, ProcessHand, TransmitHand, RxHand, Relay;
      LineLosesPackets(s.output, TransmitHand(s.memory, s.transmitAt), q, [],
                       ProcessHand(s.memory, s.processAt), Relay(Contents(s.memory, s.cmdQueue)),
                       RxHand(s.memory, s.rxAt), Relay(s.accepted));
    }
  }

  lemma RxFreesOrder(s: State)
    requires s.rxAt.DroppingCommand? || s.rxAt.FreeingCommand? || s.rxAt.FreeingPacket?
    ensures Moves(s, RxStep(s))
  {
    hide Line, Relay;
  }

  lemma ResetCommandsOrder(s: State)
    requires s.rxAt.ResettingCommands? && s.cmdQueue == []
    ensures Moves(s, RxStep(s))
  {
    hide Line, Relay;
  }

  /** The receiver can lose packets only inside `resetState`. */
  lemma RxOrder(s: State)
    requires ResetContained(s)
    ensures Moves(s, RxStep(s)) || Loses(s, RxStep(s))
    ensures s.rxAt.Listening? || s.rxAt.SendingCommand? || s.rxAt.DroppingCommand? ==> Moves(s, RxStep(s))
  {
    hide InTransit, Delete;
    match s.rxAt {
      case Listening =>
      case SendingCommand(_) => SendOrder(s);
      case DrainingCommands => DrainCommandOrder(s);
      case DrainingPackets => DrainPacketOrder(s);
      case ResettingPackets => ResetPacketsOrder(s);
      case ResettingCommands => ResetCommandsOrder(s);
      case _ => RxFreesOrder(s);
    }
  }

  lemma RxGiveUpOrder(s: State)
    ensures Loses(s, Next(s, RxGiveUp))
  {
    if Ordered(s) && Next(s, RxGiveUp) != s {
      LineLosesReceive(s.output, TransmitHand(s.memory, s.transmitAt), Contents(s.memory, s.txQueue),
                       ProcessHand(s.memory, s.processAt),
                       Relay(Contents(s.memory, s.cmdQueue)), RxHand(s.memory, s.rxAt), Relay(s.accepted));
    }
  }

  lemma ProcessReadsOrder(s: State)
    requires WellFormed(s) && Safe(s) && s.processAt.Processing?
    ensures Moves(s, ProcessStep(s))
  {
    var cmd, t := s.processAt.cmd, ProcessStep(s);
    assert Accounted(s, cmd.payload) && Places(s, cmd.payload) >= 1;
    ContentsStable(s.memory, s.memory[cmd.payload][1..], s.txQueue);
    ContentsStable(s.memory, s.memory[cmd.payload][1..], s.cmdQueue);
    assert ProcessHand(t.memory, t.processAt) == ProcessHand(s.memory, s.processAt);
    assert TransmitHand(t.memory, t.transmitAt) == TransmitHand(s.memory, s.transmitAt);
    assert RxHand(t.memory, t.rxAt) == RxHand(s.memory, s.rxAt);
  }

  lemma ProcessTakesOrder(s: State)
    requires s.processAt.Waiting?
    ensures Moves(s, ProcessStep(s))
  {
    if s.cmdQueue != [] {
      ContentsPop(s.memory, s.cmdQueue);
      RelayHead(Contents(s.memory, s.cmdQueue));
      LineMoves(s.output, TransmitHand(s.memory, s.transmitAt), Contents(s.memory, s.txQueue),
                RelayOne(At(s.memory, s.cmdQueue[0])),
                Relay(Contents(s.memory, s.cmdQueue[1..])), RxHand(s.memory, s.rxAt));
    }
  }

  lemma ProcessSendsOrder(s: State)
    requires s.processAt.SendingPacket?
    ensures Moves(s, ProcessStep(s))
  {
    ContentsPush(s.memory, s.txQueue, s.processAt.packet);
    StateLineMoves(s);
  }

  lemma ProcessOrder(s: State)
    requires WellFormed(s) && Safe(s)
    ensures Moves(s, ProcessStep(s))
  {
    match s.processAt {
      case Processing(_) => ProcessReadsOrder(s);
      case Waiting => ProcessTakesOrder(s);
      case SendingPacket(_, _) => ProcessSendsOrder(s);
      case _ => assert InTransit(ProcessStep(s)) == InTransit(s);
    }
  }

  lemma ProcessGiveUpOrder(s: State)
    ensures Loses(s, Next(s, ProcessGiveUp))
  {
    hide Line, Contents, Relay, RelayOne, TransmitHand, RxHand, IsSubsequence;
    if Ordered(s) && Next(s, ProcessGiveUp) != s {
      LineLosesProcess(s.output, TransmitHand(s.memory, s.transmitAt), Contents(s.memory, s.txQueue),
                       ProcessHand(s.memory, s.processAt),
                       Relay(Contents(s.memory, s.cmdQueue)), RxHand(s.memory, s.rxAt), Relay(s.accepted));
    }
  }

  lemma TransmitTakesOrder(s: State)
    requires s.transmitAt.Receiving?
    ensures Moves(s, TransmitStep(s))
  {
    if s.txQueue != [] {
      ContentsPop(s.memory, s.txQueue);
      LineMoves(s.output, [At(s.memory, s.txQueue[0])], Contents(s.memory, s.txQueue[1..]),
                ProcessHand(s.memory, s.processAt),
                Relay(Contents(s.memory, s.cmdQueue)), RxHand(s.memory, s.rxAt));
    }
  }

  lemma TransmitWritesOrder(s: State)
    requires WellFormed(s) && Safe(s) && s.transmitAt.Writing?
    ensures Moves(s, TransmitStep(s))
  {
    var packet := s.transmitAt.packet;
    assert Accounted(s, packet.payload) && Places(s, packet.payload) >= 1;
    StateLineMoves(s);
  }

  lemma {:induction false} TransmitOrder(s: State)
    requires WellFormed(s) && Safe(s)
    ensures Moves(s, TransmitStep(s))
  {
    match s.transmitAt {
      case Checking =>
      case Receiving => TransmitTakesOrder(s);
      case Writing(_) => TransmitWritesOrder(s);
      case FreeingWritten(_) => assert InTransit(TransmitStep(s)) == InTransit(s);
    }
  }

  /** The labels by which a run can lose a packet. */
  predicate MayLose(l: Label) {
    l == RxGiveUp || l == ProcessGiveUp || l == SerialTimeout
  }

  predicate Resetting(s: State) {
    !s.rxAt.Listening? && !s.rxAt.SendingCommand? && !s.rxAt.DroppingCommand?
  }

  predicate JoinsBy(s: State, l: Label, t: State) {
    l.Receive? && Emit(s.rx, l.value) != [] && Joins(s, t, Emit(s.rx, l.value)[0])
  }

  /** Outside `resetState`, and if no send gives up, no step loses anything. */
  lemma NextOrder(s: State, l: Label)
    requires WellFormed(s) && Safe(s) && ResetContained(s)
    ensures Moves(s, Next(s, l)) || JoinsBy(s, l, Next(s, l)) || Loses(s, Next(s, l))
    ensures !MayLose(l) && !Resetting(s) ==> Moves(s, Next(s, l)) || JoinsBy(s, l, Next(s, l))
  {
    match l {
      case Receive(b) => if s.rxAt.Listening? { ReceiveOrder(s, b); }
      case RxRun => RxOrder(s);
      case RxGiveUp => RxGiveUpOrder(s);
      case ProcessRun => ProcessOrder(s);
      case ProcessGiveUp => ProcessGiveUpOrder(s);
      case TransmitRun => TransmitOrder(s);
      case _ => assert InTransit(Next(s, l)) == InTransit(s);
    }
  }

  // ---- Runs ----

  ghost predicate Invariant(s: State) {
    WellFormed(s) && ResetContained(s) && Safe(s) && Ordered(s)
  }

  lemma NextOrdered(s: State, l: Label)
    requires Invariant(s)
    ensures Ordered(Next(s, l))
  {
    NextOrder(s, l);
    var t := Next(s, l);
    if Moves(s, t) {
    } else if JoinsBy(s, l, t) {
      var payload := Emit(s.rx, l.value)[0];
      RelaySnoc(s.accepted, payload);
      Extend(InTransit(s), Relay(s.accepted), RelayOne(payload));
    }
  }

  lemma NextInvariant(s: State, l: Label)
    requires Invariant(s)
    ensures Invariant(Next(s, l))
  {
    NextWellFormed(s, l);
    NextResetContained(s, l);
    NextSafe(s, l);
    NextOrdered(s, l);
  }

  lemma InitInvariant()
    ensures Invariant(INIT)
  {
    assert InTransit(INIT) == [];
    Reflexive<seq<byte>>([]);
  }

  /** Every interleaving of the tasks keeps the invariant. */
  lemma {:induction false} RunInvariant(labels: seq<Label>)
    ensures Invariant(Exec(INIT, labels))
    decreases |labels|
  {
    if labels == [] {
      InitInvariant();
    } else {
      RunInvariant(labels[..|labels| - 1]);
      NextInvariant(Exec(INIT, labels[..|labels| - 1]), labels[|labels| - 1]);
    }
  }
}
