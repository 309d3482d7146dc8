/** The frame FF 55 01 00 FF: a general lingo payload without a command byte, and what the receiver does with it. */
module ShortFrame {
  import opened Config
  import opened FrameParser
  import opened Pipeline
  import opened Interference
  import Checksum
  import FrameSegments

  lemma {:induction false} ExecSnoc(s: State, labels: seq<Label>, l: Label)
    ensures Exec(s, labels + [l]) == Next(Exec(s, labels), l)
  {
    assert (labels + [l])[..|labels|] == labels;
  }

  const SHORT_HEADER: seq<Label> := [] + [Receive(0xFF)] + [Receive(0x55)] + [Receive(0x01)] + [Receive(0x00)]
  const SHORT_FRAME: seq<Label> := SHORT_HEADER + [Receive(0xFF)]

  /** Only the parser has moved, and it is in a given state. */
  predicate Heard(s: State, t: State, rx: Rx) {
    t == s.(rx := rx, heard := t.heard) && t.heard != []
  }

  lemma HearOne(s: State, labels: seq<Label>, rx: Rx, b: byte)
    requires s.rxAt.Listening? && Heard(s, Exec(s, labels), rx) && Emit(rx, b) == []
    ensures Heard(s, Exec(s, labels + [Receive(b)]), Step(rx, b))
  {
    hide Next, Exec, Emit, Step;
    ExecSnoc(s, labels, Receive(b));
    HearStep(Exec(s, labels), b);
  }

  lemma SendStep(s: State)
    requires s.rxAt.SendingCommand? && s.cmdQueue == []
    ensures Next(s, RxRun) == s.(cmdQueue := [s.rxAt.cmd], rxAt := Listening)
  {
  }

  /** The process task takes the payload and copies what is behind its lingo byte. */
  lemma CopyPayload(s: State)
    requires s.rxAt.Listening? && s.processAt.Waiting? && |s.cmdQueue| == 1
    requires s.cmdQueue[0].payload in s.live && s.cmdQueue[0].length == 1
    requires s.cmdQueue[0].payload < |s.memory| && s.memory[s.cmdQueue[0].payload] == [0x00]
    ensures Next(Next(s, ProcessRun), ProcessRun)
            == s.(cmdQueue := [], memory := s.memory + [[]], live := s.live + {|s.memory|},
                  processAt := SendingPacket(s.cmdQueue[0], Command(|s.memory|, 0)))
  {
    var s1 := Next(s, ProcessRun);
    assert s1 == s.(cmdQueue := [], processAt := Processing(s.cmdQueue[0]));
    hide Next;
    ReadStep(s1, s.cmdQueue[0]);
  }

  lemma NothingRun(s: State)
    ensures Exec(s, []) == s
  {
  }

  /** From any idle state of the parser the frame is accepted. */
  lemma {:induction false} HearShortFrame(s: State)
    requires s.rxAt.Listening? && s.rx.mode.Idle? && s.heard != []
    ensures var t := Exec(s, SHORT_FRAME);
            && t.heard != []
            && t == s.(rx := Rx(0xFF, Idle), heard := t.heard, accepted := s.accepted + [[0x00]],
                       memory := s.memory + [[0x00]], live := s.live + {|s.memory|},
                       rxAt := SendingCommand(Command(|s.memory|, 1)))
  {
    hide Next, Exec, FrameSegments.AddByte;
    assert Checksum.Of([0x00]) == 0xFF;
    NothingRun(s);
    HearOne(s, [], s.rx, 0xFF);
    HearOne(s, [] + [Receive(0xFF)], Rx(0xFF, Idle), 0x55);
    HearOne(s, [] + [Receive(0xFF)] + [Receive(0x55)], Rx(0x55, AwaitLength), 0x01);
    HearOne(s, [] + [Receive(0xFF)] + [Receive(0x55)] + [Receive(0x01)], Rx(0x01, Body(1, [])), 0x00);
    ExecSnoc(s, SHORT_HEADER, Receive(0xFF));
    HearPayloadStep(Exec(s, SHORT_HEADER), 0xFF, [0x00]);
  }
}
