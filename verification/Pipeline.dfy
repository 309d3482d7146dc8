/** The three tasks of a snooper as one state machine. Every queue operation, every access to a buffer and
    every `delete[]` is a step of its own; a run is any interleaving of the tasks' steps. */
module Pipeline {
  import opened Config
  import opened FrameParser
  import FrameSegments
  import opened Ownership

  datatype Command = Command(payload: Address, length: int)

  /** Where `_rxTask` is: in its loop, around `xQueueSend`, or inside `resetState`. */
  datatype RxAt =
    | Listening
    | SendingCommand(cmd: Command)
    | DroppingCommand(cmd: Command)
    | DrainingCommands
    | FreeingCommand(cmd: Command)
    | DrainingPackets
    | FreeingPacket(cmd: Command)
    | ResettingCommands
    | ResettingPackets

  /** Where `_processTask` is, `_processPacket` and `_queuePacket` included. */
  datatype ProcessAt =
    | Waiting
    | Processing(cmd: Command)
    | SendingPacket(cmd: Command, packet: Command)
    | DroppingPacket(cmd: Command, packet: Command)
    | FreeingProcessed(cmd: Command)

  /** Where `_txTask` is. */
  datatype TransmitAt =
    | Checking
    | Receiving
    | Writing(packet: Command)
    | FreeingWritten(packet: Command)

  /** `memory[a]` is what was copied into buffer `a` when it was allocated, `live` the buffers not yet freed.
      `fault` records a double free, a use after free or the read of an empty command. The last five fields
      are history: bytes received, cut where a frame was abandoned; payloads accepted; packets written;
      commands discarded by the two `xQueueReset` calls; and the packet the process task was bound to send
      when `resetState` last saw `_cmdQueue` empty. */
  datatype State = State(
    rx: Rx,
    rxAt: RxAt,
    processAt: ProcessAt,
    transmitAt: TransmitAt,
    cmdQueue: seq<Command>,
    txQueue: seq<Command>,
    memory: seq<seq<byte>>,
    live: set<Address>,
    fault: bool,
    heard: seq<seq<byte>>,
    accepted: seq<seq<byte>>,
    output: seq<seq<byte>>,
    lostCommands: seq<Command>,
    lostPackets: seq<Command>,
    carried: seq<seq<byte>>)

  const INIT := State(Rx(0, Idle), Listening, Waiting, Checking, [], [], [], {}, false, [[]], [], [], [], [], [])

  // ---- Buffers ----

  function New(s: State, bytes: seq<byte>): State {
    s.(memory := s.memory + [bytes], live := s.live + {|s.memory|})
  }

  /** `delete[]` */
  function Delete(s: State, cmd: Command): State {
    if cmd.payload in s.live then s.(live := s.live - {cmd.payload}) else s.(fault := true)
  }

  function At(memory: seq<seq<byte>>, cmd: Command): seq<byte> {
    if cmd.payload < |memory| then memory[cmd.payload] else []
  }

  predicate Readable(s: State, cmd: Command) {
    cmd.payload in s.live && cmd.payload < |s.memory| && cmd.length == |s.memory[cmd.payload]|
  }

  // ---- What passes from the receiver to the transmitter ----

  /** A general lingo payload is relayed without its first byte; nothing else is. */
  function RelayOne(payload: seq<byte>): seq<seq<byte>> {
    if payload != [] && payload[0] == 0x00 then [payload[1..]] else []
  }

  function Relay(payloads: seq<seq<byte>>): seq<seq<byte>> {
    if payloads == [] then [] else RelayOne(payloads[0]) + Relay(payloads[1..])
  }

  function Contents(memory: seq<seq<byte>>, queue: seq<Command>): seq<seq<byte>> {
    seq(|queue|, i requires 0 <= i < |queue| => At(memory, queue[i]))
  }

  function RxHand(memory: seq<seq<byte>>, at: RxAt): seq<seq<byte>> {
    if at.SendingCommand? then RelayOne(At(memory, at.cmd)) else []
  }

  function ProcessHand(memory: seq<seq<byte>>, at: ProcessAt): seq<seq<byte>> {
    match at
    case Processing(cmd) => RelayOne(At(memory, cmd))
    case SendingPacket(_, packet) => [At(memory, packet)]
    case _ => []
  }

  function TransmitHand(memory: seq<seq<byte>>, at: TransmitAt): seq<seq<byte>> {
    if at.Writing? then [At(memory, at.packet)] else []
  }

  /** Everything written or on its way, oldest first. */
  function InTransit(s: State): seq<seq<byte>> {
    Line(s.output, TransmitHand(s.memory, s.transmitAt), Contents(s.memory, s.txQueue),
         ProcessHand(s.memory, s.processAt),
         Relay(Contents(s.memory, s.cmdQueue)), RxHand(s.memory, s.rxAt))
  }

  /** Written, in the transmitter's hand, queued packets, the processor's, queued commands, the receiver's. */
  function Line(written: seq<seq<byte>>, transmit: seq<seq<byte>>, packets: seq<seq<byte>>,
                process: seq<seq<byte>>, commands: seq<seq<byte>>, receive: seq<seq<byte>>): seq<seq<byte>>
  {
    written + (transmit + (packets + (process + (commands + receive))))
  }

  // ---- Steps ----

  /** `Receive`: one byte arrives. `Abandon`, `SerialTimeout`: the two timeouts. `RxRun`, `ProcessRun`,
      `TransmitRun`: a task takes its next step. `RxGiveUp`, `ProcessGiveUp`: an `xQueueSend` times out. */
  datatype Label =
    | Receive(value: byte)
    | Abandon
    | SerialTimeout
    | RxRun
    | RxGiveUp
    | ProcessRun
    | ProcessGiveUp
    | TransmitRun

  function ReceiveStep(s: State, b: byte): State {
    var found := Emit(s.rx, b);
    var heard := if s.heard == [] then [[b]] else FrameSegments.AddByte(s.heard, b);
    var s1 := s.(rx := Step(s.rx, b), heard := heard);
    if found == [] then s1
    else New(s1, found[0]).(accepted := s.accepted + found,
                            rxAt := SendingCommand(Command(|s.memory|, |found[0]|)))
  }

  function RxStep(s: State): State {
    match s.rxAt
    case Listening => s
    case SendingCommand(cmd) =>
      if |s.cmdQueue| < CMD_QUEUE_SIZE then s.(cmdQueue := s.cmdQueue + [cmd], rxAt := Listening) else s
    case DroppingCommand(cmd) => Delete(s, cmd).(rxAt := Listening)
    case DrainingCommands =>
      if s.cmdQueue != [] then s.(cmdQueue := s.cmdQueue[1..], rxAt := FreeingCommand(s.cmdQueue[0]))
      else s.(rxAt := DrainingPackets, carried := ProcessHand(s.memory, s.processAt))
    case FreeingCommand(cmd) => Delete(s, cmd).(rxAt := DrainingCommands)
    case DrainingPackets =>
      if s.txQueue != [] then s.(txQueue := s.txQueue[1..], rxAt := FreeingPacket(s.txQueue[0]))
      else s.(rxAt := ResettingCommands)
    case FreeingPacket(cmd) => Delete(s, cmd).(rxAt := DrainingPackets)
    case ResettingCommands =>
      s.(lostCommands := s.lostCommands + s.cmdQueue, cmdQueue := [], rxAt := ResettingPackets)
    case ResettingPackets =>
      s.(lostPackets := s.lostPackets + s.txQueue, txQueue := [], rxAt := Listening)
  }

  function ProcessStep(s: State): State {
    match s.processAt
    case Waiting =>
      if s.cmdQueue == [] then s
      else s.(cmdQueue := s.cmdQueue[1..], processAt := Processing(s.cmdQueue[0]))
    case Processing(cmd) =>
      if !Readable(s, cmd) || cmd.length == 0 then s.(fault := true)
      else
        var bytes := s.memory[cmd.payload];
        if bytes[0] == 0x00 then
          New(s, bytes[1..]).(processAt := SendingPacket(cmd, Command(|s.memory|, cmd.length - 1)))
        else
          s.(processAt := FreeingProcessed(cmd))
    case SendingPacket(cmd, packet) =>
      if |s.txQueue| < TX_QUEUE_SIZE
      then s.(txQueue := s.txQueue + [packet], processAt := FreeingProcessed(cmd)) else s
    case DroppingPacket(cmd, packet) => Delete(s, packet).(processAt := FreeingProcessed(cmd))
    case FreeingProcessed(cmd) => Delete(s, cmd).(processAt := Waiting)
  }

  function TransmitStep(s: State): State {
    match s.transmitAt
    case Checking => if s.rx.mode.Idle? then s.(transmitAt := Receiving) else s
    case Receiving =>
      if s.txQueue == [] then s.(transmitAt := Checking)
      else s.(txQueue := s.txQueue[1..], transmitAt := Writing(s.txQueue[0]))
    case Writing(packet) =>
      if !Readable(s, packet) then s.(fault := true)
      else s.(output := s.output + [s.memory[packet.payload]], transmitAt := FreeingWritten(packet))
    case FreeingWritten(packet) => Delete(s, packet).(transmitAt := Checking)
  }

  /** One step. A label whose task is not at the right place leaves the state alone. */
  function Next(s: State, l: Label): State {
    match l
    case Receive(b) => if s.rxAt.Listening? then ReceiveStep(s, b) else s
    case Abandon =>
      if s.rxAt.Listening? && !s.rx.mode.Idle?
      then s.(rx := Rx(s.rx.prev, Idle), heard := s.heard + [[]]) else s
    case SerialTimeout => if s.rxAt.Listening? then s.(rxAt := DrainingCommands) else s
    case RxRun => RxStep(s)
    case RxGiveUp =>
      if s.rxAt.SendingCommand? && |s.cmdQueue| == CMD_QUEUE_SIZE
      then s.(rxAt := DroppingCommand(s.rxAt.cmd)) else s
    case ProcessRun => ProcessStep(s)
    case ProcessGiveUp =>
      if s.processAt.SendingPacket? && |s.txQueue| == TX_QUEUE_SIZE
      then s.(processAt := DroppingPacket(s.processAt.cmd, s.processAt.packet)) else s
    case TransmitRun => TransmitStep(s)
  }

  /** State after a run: any finite sequence of labels is one. */
  function Exec(s: State, labels: seq<Label>): State {
    if labels == [] then s else Next(Exec(s, labels[..|labels| - 1]), labels[|labels| - 1])
  }

  lemma {:induction false} ExecAppend(s: State, a: seq<Label>, b: seq<Label>)
    ensures Exec(s, a + b) == Exec(Exec(s, a), b)
    decreases |b|
  {
    if b == [] {
      assert a + b == a;
    } else {
      assert (a + b)[..|a + b| - 1] == a + b[..|b| - 1];
      ExecAppend(s, a, b[..|b| - 1]);
    }
  }
}
