/** `_rxTask` as it runs: one buffer that is never cleared, a cursor, two stamps, and a loop of passes that
    each drain the serial port and then check the timeouts. */
module RxTask {
  import opened Config
  import opened FrameParser
  import opened FrameSegments
  import opened RxClock
  import Checksum

  /** One pass of the outer loop: the bytes available, then the three clock readings at its end. */
  datatype Arrival = Arrival(value: byte, activityAt: nat, stampAt: nat)
  datatype Round = Round(arrivals: seq<Arrival>, checkAt: nat, serialAt: nat, restampAt: nat)

  function BytesOf(arrivals: seq<Arrival>): seq<Event> {
    seq(|arrivals|, i requires 0 <= i < |arrivals| =>
      Byte(arrivals[i].value, arrivals[i].activityAt, arrivals[i].stampAt))
  }

  function EventsOf(rounds: seq<Round>): seq<Event> {
    if rounds == [] then []
    else var r := rounds[|rounds| - 1];
         EventsOf(rounds[..|rounds| - 1]) + (BytesOf(r.arrivals) + [Pass(r.checkAt, r.serialAt, r.restampAt)])
  }

  function Values(arrivals: seq<Arrival>): (bytes: seq<byte>)
    ensures |bytes| == |arrivals| && forall i :: 0 <= i < |arrivals| ==> bytes[i] == arrivals[i].value
  {
    seq(|arrivals|, i requires 0 <= i < |arrivals| => arrivals[i].value)
  }

  /** The reading of the clock at the last byte of a pass, or the one from before. */
  function ActiveSince(c: Clocked, arrivals: seq<Arrival>): uint32 {
    if arrivals == [] then c.lastActivity else Millis(arrivals[|arrivals| - 1].activityAt)
  }

  function StampedAt(c: Clocked, arrivals: seq<Arrival>): uint32 {
    if arrivals == [] then c.lastByteRX else Millis(arrivals[|arrivals| - 1].stampAt)
  }

  /** From state `c` a pass first reads its bytes, all of them, and then looks at the clock: for a frame that is
      still open after the last byte, and for how long nothing came. */
  predicate PassFrom(c: Clocked, round: Round, d: Clocked) {
    var r := Run(c.rx, Values(round.arrivals));
    && d.rx == (if !r.mode.Idle? && Elapsed(Millis(round.checkAt), StampedAt(c, round.arrivals)) > INTERBYTE_TIMEOUT
                then Rx(r.prev, Idle) else r)
    && d.lastActivity == (if Elapsed(Millis(round.serialAt), ActiveSince(c, round.arrivals)) > SERIAL_TIMEOUT
                          then Millis(round.restampAt) else ActiveSince(c, round.arrivals))
    && (!r.mode.Idle? ==> d.lastByteRX == StampedAt(c, round.arrivals))
  }

  /** What passes from the given states accept. */
  function PassOutputs(states: seq<Clocked>, rounds: seq<Round>): seq<seq<byte>>
    requires |states| > |rounds|
  {
    if rounds == [] then []
    else
      var n := |rounds| - 1;
      PassOutputs(states, rounds[..n]) + Output(states[n].rx, Values(rounds[n].arrivals))
  }

  /** The bytes of a pass, as the timed machine takes them. */
  lemma {:induction false} BytesInOrder(c: Clocked, arrivals: seq<Arrival>)
    ensures var d := After(c, BytesOf(arrivals));
            && d.rx == Run(c.rx, Values(arrivals)) && Accepted(c, BytesOf(arrivals)) == Output(c.rx, Values(arrivals))
            && d.lastActivity == ActiveSince(c, arrivals)
            && (!d.rx.mode.Idle? ==> d.lastByteRX == StampedAt(c, arrivals))
    decreases |arrivals|
  {
    if arrivals == [] {
      assert BytesOf(arrivals) == [] && Values(arrivals) == [];
    } else {
      var n := |arrivals| - 1;
      BytesInOrder(c, arrivals[..n]);
      assert BytesOf(arrivals)[..n] == BytesOf(arrivals[..n]) && BytesOf(arrivals)[..n + 1] == BytesOf(arrivals);
      assert Values(arrivals) == Values(arrivals[..n]) + [arrivals[n].value];
      OneByte(c, arrivals, n);
      RunSnoc(c.rx, Values(arrivals[..n]), arrivals[n].value);
      hide Run, Output, After, Accepted, Step;
    }
  }

  lemma PassIsEvents(c: Clocked, round: Round)
    ensures var d := Tick(After(c, BytesOf(round.arrivals)), Pass(round.checkAt, round.serialAt, round.restampAt));
            PassFrom(c, round, d)
  {
    BytesInOrder(c, round.arrivals);
    hide Run, Output, After, Accepted;
  }

  class Task {
    var prevByte: byte
    var rxIncomplete: bool
    const buf: array<byte>
    var expLength: uint32
    var cursor: uint32
    var lastByteRX: uint32
    var lastActivity: uint32

    /** With a frame open the cursor is within the frame and the next write within the buffer. */
    ghost predicate Valid()
      reads this
    {
      && buf.Length == MAX_PACKET_SIZE
      && (rxIncomplete ==> expLength <= 255 && cursor <= expLength)
    }

    /** The parser state the fields stand for. Nothing outside `buf[..cursor]` of an open frame is part of it. */
    ghost function View(): (c: Clocked)
      requires Valid()
      reads this, buf
      ensures c.rx.mode.Idle? <==> !rxIncomplete
      ensures c.rx.mode.AwaitLength? <==> rxIncomplete && expLength == 0 && cursor == 0
      ensures c.rx.mode.Body? ==> c.rx.mode.got == buf[..cursor]
      ensures Consistent(c.rx)
    {
      Clocked(Rx(prevByte,
                 if !rxIncomplete then Idle
                 else if expLength == 0 && cursor == 0 then AwaitLength
                 else Body(expLength, buf[..cursor])),
              lastByteRX, lastActivity)
    }

    constructor (first: nat, t0: nat)
      ensures Valid() && View() == Start(first, t0) && fresh(buf)
    {
      prevByte, rxIncomplete := 0x00, false;
      buf := new byte[MAX_PACKET_SIZE](_ => 0x00);
      expLength, cursor := 0, 0;
      lastByteRX, lastActivity := Millis(first), Millis(t0);
    }

    /** One byte of a frame body: the payload so far grows in place, or the frame ends here. */
    method TakeBodyByte(incByte: byte) returns (payload: array?<byte>)
      requires Valid() && View().rx.mode.Body?
      modifies this`cursor, this`rxIncomplete, buf
      ensures Valid()
      ensures var got := old(buf[..cursor]);
              && (old(cursor) < expLength ==>
                    rxIncomplete && cursor == old(cursor) + 1 && buf[..cursor] == got + [incByte] && payload == null)
              && (old(cursor) == expLength ==>
                    !rxIncomplete
                    && (payload != null <==> incByte == Checksum.Of(got))
                    && (payload != null ==> fresh(payload) && payload[..] == got))
    {
      payload := null;
      ghost var got := buf[..cursor];
      buf[cursor] := incByte;
      cursor := cursor + 1;
      assert buf[..cursor] == got + [incByte];
      if cursor == expLength + 1 {
        rxIncomplete := false;
        var calcChecksum := Checksum.Compute(buf, expLength);
        assert buf[..expLength] == got;
        Checksum.CheckIsUnique(got, calcChecksum);
        if calcChecksum == incByte {
          payload := new byte[expLength](i requires 0 <= i < expLength <= buf.Length reads this, buf => buf[i]);
          assert payload[..] == got;
        }
      }
    }

    /** One turn of the inner loop. A good frame comes back as a fresh copy of its payload. */
    method Feed(incByte: byte, activityAt: nat, stampAt: nat) returns (payload: array?<byte>)
      requires Valid()
      modifies this, buf
      ensures Valid() && View() == Tick(old(View()), Byte(incByte, activityAt, stampAt))
      ensures payload == null <==> Emit(old(View()).rx, incByte) == []
      ensures payload != null ==> fresh(payload) && [payload[..]] == Emit(old(View()).rx, incByte)
      ensures payload != null ==> 1 <= payload.Length <= 255
      ensures lastActivity == Millis(activityAt) && (rxIncomplete ==> lastByteRX == Millis(stampAt))
    {
      payload := null;
      lastActivity := Millis(activityAt);
      if prevByte == 0xFF && incByte == 0x55 && !rxIncomplete {
        lastByteRX := Millis(stampAt);
        rxIncomplete := true;
        expLength := 0;
        cursor := 0;
      } else if rxIncomplete {
        lastByteRX := Millis(stampAt);
        if expLength == 0 && cursor == 0 {
          expLength := incByte;
          if expLength > MAX_PACKET_SIZE || expLength == 0 {
            rxIncomplete := false;
          }
        } else {
          payload := TakeBodyByte(incByte);
        }
      }
      prevByte := incByte;
    }

    /** The timeout checks that end a pass; `reset` says that `resetState` is called. */
    method Poll(checkAt: nat, serialAt: nat, restampAt: nat) returns (reset: bool)
      requires Valid()
      modifies this
      ensures Valid() && View() == Tick(old(View()), Pass(checkAt, serialAt, restampAt))
      ensures reset <==> Resets(old(View()), serialAt)
    {
      reset := false;
      if rxIncomplete && Elapsed(Millis(checkAt), lastByteRX) > INTERBYTE_TIMEOUT {
        rxIncomplete := false;
      }
      if Elapsed(Millis(serialAt), lastActivity) > SERIAL_TIMEOUT {
        lastActivity := Millis(restampAt);
        reset := true;
      }
    }

    /** The inner loop: everything the serial port has. */
    method Drain(arrivals: seq<Arrival>) returns (payloads: seq<seq<byte>>)
      requires Valid()
      modifies this, buf
      ensures Valid() && View() == After(old(View()), BytesOf(arrivals))
      ensures payloads == Accepted(old(View()), BytesOf(arrivals))
    {
      hide View, Valid, After, Accepted, Tick, Emit;
      payloads := [];
      var i := 0;
      ghost var c := View();
      Nothing(c);
      assert BytesOf(arrivals)[..0] == [];
      while i < |arrivals|
        invariant 0 <= i <= |arrivals|
        invariant Valid() && View() == After(c, BytesOf(arrivals)[..i])
        invariant payloads == Accepted(c, BytesOf(arrivals)[..i])
      {
        OneByte(c, arrivals, i);
        var payload := Feed(arrivals[i].value, arrivals[i].activityAt, arrivals[i].stampAt);
        if payload != null {
          payloads := payloads + [payload[..]];
        }
        i := i + 1;
      }
      assert BytesOf(arrivals)[..i] == BytesOf(arrivals);
    }

    /** One pass of the outer loop: whatever its check times are, its bytes are all read first. */
    method OnePass(round: Round) returns (payloads: seq<seq<byte>>, reset: bool)
      requires Valid()
      modifies this, buf
      ensures Valid() && PassFrom(old(View()), round, View())
      ensures payloads == Output(old(View()).rx, Values(round.arrivals))
      ensures reset <==> Elapsed(Millis(round.serialAt), ActiveSince(old(View()), round.arrivals)) > SERIAL_TIMEOUT
      ensures View() == Tick(After(old(View()), BytesOf(round.arrivals)),
                             Pass(round.checkAt, round.serialAt, round.restampAt))
      ensures payloads == Accepted(old(View()), BytesOf(round.arrivals))
    {
      hide View, Valid, After, Accepted, Run, Output, PassFrom;
      ghost var c := View();
      payloads := Drain(round.arrivals);
      reset := Poll(round.checkAt, round.serialAt, round.restampAt);
      PassIsEvents(c, round);
      BytesInOrder(c, round.arrivals);
    }

    /** The outer loop, for any number of passes: the buffer-and-cursor code accepts what the recursive parse
        of the received pieces accepts, pass by pass. */
    method Loop(rounds: seq<Round>) returns (payloads: seq<seq<byte>>, ghost states: seq<Clocked>)
      requires Valid() && !rxIncomplete
      modifies this, buf
      ensures Valid() && View() == After(old(View()), EventsOf(rounds))
      ensures payloads == Accepted(old(View()), EventsOf(rounds))
      ensures payloads == ParseAll(old(prevByte), Segments(old(View()), EventsOf(rounds)))
      ensures |states| == |rounds| + 1 && states[0] == old(View()) && states[|rounds|] == View()
      ensures forall i :: 0 <= i < |rounds| ==> PassFrom(states[i], rounds[i], states[i + 1])
      ensures payloads == PassOutputs(states, rounds)
    {
      assert View().rx.prev == prevByte;
      hide View, Valid, After, Accepted, Run, Output, PassFrom, EventsOf, BytesOf, Tick, SoFar, PassOutputs;
      payloads := [];
      var i := 0;
      ghost var c := View();
      states := [c];
      StartOfLoop(c, rounds);
      while i < |rounds|
        invariant 0 <= i <= |rounds| && Valid() && SoFar(c, rounds, i, View(), payloads, states)
      {
        ghost var d := View();
        var more, reset := OnePass(rounds[i]);
        TurnOfLoop(c, rounds, i, d, payloads, states, View(), more);
        payloads := payloads + more;
        states := states + [View()];
        i := i + 1;
      }
      EndOfLoop(c, rounds, View(), payloads, states);
    }
  }

  /** After `i` passes, from the start, on the way to state `d`. */
  ghost predicate SoFar(c: Clocked, rounds: seq<Round>, i: nat, d: Clocked, payloads: seq<seq<byte>>,
                        states: seq<Clocked>)
  {
    && i <= |rounds| && |states| == i + 1 && states[0] == c && states[i] == d
    && d == After(c, EventsOf(rounds[..i])) && payloads == Accepted(c, EventsOf(rounds[..i]))
    && (forall k :: 0 <= k < i ==> PassFrom(states[k], rounds[k], states[k + 1]))
    && payloads == PassOutputs(states, rounds[..i])
  }

  lemma StartOfLoop(c: Clocked, rounds: seq<Round>)
    ensures SoFar(c, rounds, 0, c, [], [c])
  {
  }

  lemma TurnOfLoop(c: Clocked, rounds: seq<Round>, i: nat, d: Clocked, payloads: seq<seq<byte>>,
                   states: seq<Clocked>, e: Clocked, more: seq<seq<byte>>)
    requires i < |rounds| && SoFar(c, rounds, i, d, payloads, states)
    requires PassFrom(d, rounds[i], e) && more == Output(d.rx, Values(rounds[i].arrivals))
    requires var round := rounds[i];
             && e == Tick(After(d, BytesOf(round.arrivals)), Pass(round.checkAt, round.serialAt, round.restampAt))
             && more == Accepted(d, BytesOf(round.arrivals))
    ensures SoFar(c, rounds, i + 1, e, payloads + more, states + [e])
  {
    hide After, Accepted, Output, PassFrom, EventsOf, BytesOf, Tick, PassOutputs, Values;
    PassAppends(c, rounds, i);
    OutputsAppend(states, rounds, i, e);
  }

  lemma EndOfLoop(c: Clocked, rounds: seq<Round>, d: Clocked, payloads: seq<seq<byte>>, states: seq<Clocked>)
    requires SoFar(c, rounds, |rounds|, d, payloads, states) && c.rx.mode.Idle?
    ensures d == After(c, EventsOf(rounds)) && payloads == Accepted(c, EventsOf(rounds))
    ensures payloads == ParseAll(c.rx.prev, Segments(c, EventsOf(rounds)))
    ensures |states| == |rounds| + 1 && states[0] == c && states[|rounds|] == d
    ensures forall k :: 0 <= k < |rounds| ==> PassFrom(states[k], rounds[k], states[k + 1])
    ensures payloads == PassOutputs(states, rounds)
  {
    assert rounds[..|rounds|] == rounds;
    AcceptedIsParse(c, EventsOf(rounds));
  }

  lemma PassAppends(c: Clocked, rounds: seq<Round>, i: nat)
    requires i < |rounds|
    ensures var before, round := After(c, EventsOf(rounds[..i])), rounds[i];
            && After(c, EventsOf(rounds[..i + 1]))
               == Tick(After(before, BytesOf(round.arrivals)), Pass(round.checkAt, round.serialAt, round.restampAt))
            && Accepted(c, EventsOf(rounds[..i + 1]))
               == Accepted(c, EventsOf(rounds[..i])) + Accepted(before, BytesOf(round.arrivals))
  {
    var before, bytes := EventsOf(rounds[..i]), BytesOf(rounds[i].arrivals);
    var pass := Pass(rounds[i].checkAt, rounds[i].serialAt, rounds[i].restampAt);
    assert rounds[..i + 1][..i] == rounds[..i];
    assert EventsOf(rounds[..i + 1]) == before + bytes + [pass];
    AfterAppend(c, before, bytes);
    AfterAppend(c, before + bytes, [pass]);
    OneEvent(After(c, before + bytes), pass);
  }

  lemma {:induction false} OutputsStay(states: seq<Clocked>, more: Clocked, rounds: seq<Round>)
    requires |states| > |rounds|
    ensures PassOutputs(states + [more], rounds) == PassOutputs(states, rounds)
    decreases |rounds|
  {
    if rounds != [] {
      OutputsStay(states, more, rounds[..|rounds| - 1]);
    }
  }

  lemma OutputsAppend(states: seq<Clocked>, rounds: seq<Round>, i: nat, more: Clocked)
    requires i < |rounds| && |states| == i + 1
    ensures PassOutputs(states + [more], rounds[..i + 1])
            == PassOutputs(states, rounds[..i]) + Output(states[i].rx, Values(rounds[i].arrivals))
  {
    assert rounds[..i + 1][..i] == rounds[..i];
    OutputsStay(states, more, rounds[..i]);
  }

  lemma Nothing(c: Clocked)
    ensures After(c, []) == c && Accepted(c, []) == []
  {
  }

  lemma OneByte(c: Clocked, arrivals: seq<Arrival>, i: nat)
    requires i < |arrivals|
    ensures var before, a := After(c, BytesOf(arrivals)[..i]), arrivals[i];
            && After(c, BytesOf(arrivals)[..i + 1]) == Tick(before, Byte(a.value, a.activityAt, a.stampAt))
            && Accepted(c, BytesOf(arrivals)[..i + 1])
               == Accepted(c, BytesOf(arrivals)[..i]) + Emit(before.rx, a.value)
  {
    var events := BytesOf(arrivals)[..i + 1];
    assert But(events) == BytesOf(arrivals)[..i];
  }

  lemma OneEvent(c: Clocked, e: Event)
    ensures After(c, [e]) == Tick(c, e) && Accepted(c, [e]) == Accepts(c, e)
  {
    assert But([e]) == [];
  }
}
