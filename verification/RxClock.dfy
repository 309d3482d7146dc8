/** The RX task over time: bytes and polling passes, each with the clock readings the task takes.
    Event times are true times in milliseconds; the task sees only their low 32 bits. */
module RxClock {
  import opened Config
  import opened FrameParser
  import opened FrameSegments
  import Checksum

  /** `Byte`: one turn of the inner loop, which reads the clock for `lastActivity` and, if the byte belongs
      to a frame, again for `lastByteRX`. `Pass`: the two timeout checks at the end of a pass and the restart
      of the serial timeout. */
  datatype Event =
    | Byte(value: byte, activityAt: nat, stampAt: nat)
    | Pass(checkAt: nat, serialAt: nat, restampAt: nat)

  datatype Clocked = Clocked(rx: Rx, lastByteRX: uint32, lastActivity: uint32)

  /** State in which the task enters its loop, after its two first clock readings. */
  function Start(first: nat, t0: nat): Clocked {
    Clocked(Rx(0, Idle), Millis(first), Millis(t0))
  }

  /** The inter-byte check: an open frame has been silent for too long. */
  predicate Abandons(c: Clocked, now: nat) {
    !c.rx.mode.Idle? && Elapsed(Millis(now), c.lastByteRX) > INTERBYTE_TIMEOUT
  }

  /** The serial check: `resetState` is due. */
  predicate Resets(c: Clocked, now: nat) {
    Elapsed(Millis(now), c.lastActivity) > SERIAL_TIMEOUT
  }

  function Tick(c: Clocked, e: Event): Clocked {
    match e
    case Byte(b, activityAt, stampAt) =>
      Clocked(Step(c.rx, b),
              if c.rx.mode.Idle? && !Opens(c.rx.prev, b) then c.lastByteRX else Millis(stampAt),
              Millis(activityAt))
    case Pass(checkAt, serialAt, restampAt) =>
      Clocked(if Abandons(c, checkAt) then Rx(c.rx.prev, Idle) else c.rx,
              c.lastByteRX,
              if Resets(c, serialAt) then Millis(restampAt) else c.lastActivity)
  }

  function But(events: seq<Event>): seq<Event>
    requires events != []
  {
    events[..|events| - 1]
  }

  function Final(events: seq<Event>): Event
    requires events != []
  {
    events[|events| - 1]
  }

  /** State after a run of the task. */
  function After(c: Clocked, events: seq<Event>): Clocked {
    if events == [] then c else Tick(After(c, But(events)), Final(events))
  }

  /** The bytes received during a run. */
  function Bytes(events: seq<Event>): seq<byte> {
    if events == [] then []
    else Bytes(But(events)) + (match Final(events) case Byte(b, _, _) => [b] case Pass(_, _, _) => [])
  }

  /** The payloads accepted by one event. */
  function Accepts(c: Clocked, e: Event): seq<seq<byte>> {
    match e
    case Byte(b, _, _) => Emit(c.rx, b)
    case Pass(_, _, _) => []
  }

  /** The payloads accepted during a run, in order. */
  function Accepted(c: Clocked, events: seq<Event>): seq<seq<byte>> {
    if events == [] then [] else Accepted(c, But(events)) + Accepts(After(c, But(events)), Final(events))
  }

  lemma {:induction false} AfterAppend(c: Clocked, a: seq<Event>, b: seq<Event>)
    ensures After(c, a + b) == After(After(c, a), b)
    ensures Accepted(c, a + b) == Accepted(c, a) + Accepted(After(c, a), b)
    decreases |b|
  {
    if b == [] {
      assert a + b == a;
    } else {
      assert But(a + b) == a + But(b) && Final(a + b) == Final(b);
      hide Tick, Accepts;
      AfterAppend(c, a, But(b));
    }
  }

  // ---- What a run accepts ----

  /** The received bytes, cut wherever the inter-byte check gave up on a frame. Never empty. */
  function Segments(c: Clocked, events: seq<Event>): (segments: seq<seq<byte>>)
    ensures segments != []
  {
    if events == [] then
      [[]]
    else
      var front := Segments(c, But(events));
      match Final(events)
      case Byte(b, _, _) => AddByte(front, b)
      case Pass(checkAt, _, _) => if Abandons(After(c, But(events)), checkAt) then front + [[]] else front
  }

  lemma {:induction false} SegmentsExplain(c: Clocked, events: seq<Event>)
    requires c.rx.mode.Idle?
    ensures Explained(c.rx.prev, Segments(c, events), After(c, events).rx, Accepted(c, events))
    decreases |events|
  {
    if events == [] {
      ExplainStart(c.rx.prev);
    } else {
      SegmentsExplain(c, But(events));
      var before, r, accepted := Segments(c, But(events)), After(c, But(events)).rx, Accepted(c, But(events));
      match Final(events) {
        case Byte(b, _, _) => ExplainByte(c.rx.prev, before, r, accepted, b);
        case Pass(checkAt, _, _) => ExplainCut(c.rx.prev, before, r, accepted);
      }
    }
  }

  /** Every run, with or without timeouts: the payloads accepted are those of the recursive parse of the
      pieces between abandoned frames. */
  lemma {:induction false} AcceptedIsParse(c: Clocked, events: seq<Event>)
    requires c.rx.mode.Idle?
    ensures Accepted(c, events) == ParseAll(c.rx.prev, Segments(c, events))
  {
    SegmentsExplain(c, events);
    ExplainedIsParsed(c.rx.prev, Segments(c, events), After(c, events).rx, Accepted(c, events));
  }

  /** No inter-byte timeout fires during the run. */
  predicate NeverAbandons(c: Clocked, events: seq<Event>) {
    events == [] ||
    (NeverAbandons(c, But(events)) && (Final(events).Pass? ==> !Abandons(After(c, But(events)), Final(events).checkAt)))
  }

  lemma {:induction false} OneSegment(c: Clocked, events: seq<Event>)
    requires NeverAbandons(c, events)
    ensures Segments(c, events) == [Bytes(events)]
    decreases |events|
  {
    if events != [] {
      OneSegment(c, But(events));
      var front := Segments(c, But(events));
      assert front[..|front| - 1] == [] && front[|front| - 1] == Bytes(But(events));
      assert Final(events).Pass? ==> Bytes(events) == Bytes(But(events));
    }
  }

  /** Without a timeout the way the bytes are split into passes makes no difference. */
  lemma {:induction false} BatchingIsInvisible(c: Clocked, events: seq<Event>)
    requires c.rx.mode.Idle? && NeverAbandons(c, events)
    ensures Accepted(c, events) == Parse(c.rx.prev, Bytes(events))
    ensures After(c, events).rx == Run(c.rx, Bytes(events))
  {
    OneSegment(c, events);
    SegmentsExplain(c, events);
    OnePieceExplains(c.rx.prev, Bytes(events), After(c, events).rx, Accepted(c, events));
  }

  // ---- Where accepted payloads come from ----

  /** An accepted payload and the position of its length byte in the received stream. */
  datatype Found = Found(at: int, payload: seq<byte>)

  function CheckAt(f: Found): int {
    f.at + 1 + |f.payload|
  }

  /** `FF 55 len payload check` stands in the stream at `f`, and adds up. */
  predicate Located(stream: seq<byte>, f: Found) {
    && 2 <= f.at && CheckAt(f) < |stream|
    && stream[f.at - 2] == 0xFF && stream[f.at - 1] == 0x55
    && 1 <= |f.payload| <= 255 && stream[f.at] == |f.payload|
    && stream[f.at + 1..CheckAt(f)] == f.payload
    && Checksum.Balanced(f.payload, stream[CheckAt(f)])
  }

  /** First position at which the next header may start: the last checksum byte can be its `FF`. */
  function Free(log: seq<Found>): int {
    if log == [] then 0 else CheckAt(log[|log| - 1])
  }

  predicate Separated(log: seq<Found>) {
    forall i :: 0 < i < |log| ==> CheckAt(log[i - 1]) <= log[i].at - 2
  }

  /** Where the parser stands in the stream it has read. */
  predicate Placed(stream: seq<byte>, log: seq<Found>, r: Rx) {
    var n := |stream|;
    && r.prev == Last(0, stream)
    && Consistent(r)
    && match r.mode
       case Idle => log == [] || Free(log) < n
       case AwaitLength => n >= 2 && stream[n - 2] == 0xFF && stream[n - 1] == 0x55 && Free(log) <= n - 2
       case Body(len, got) =>
         var at := n - |got| - 1;
         && at >= 2 && stream[at - 2] == 0xFF && stream[at - 1] == 0x55 && Free(log) <= at - 2
         && stream[at] == len && stream[at + 1..] == got
  }

  lemma LocatedInLonger(stream: seq<byte>, more: seq<byte>, f: Found)
    requires Located(stream, f)
    ensures Located(stream + more, f)
  {
    assert (stream + more)[f.at + 1..CheckAt(f)] == stream[f.at + 1..CheckAt(f)];
  }

  predicate Traced(stream: seq<byte>, log: seq<Found>, r: Rx) {
    Placed(stream, log, r) && Separated(log) && forall f :: f in log ==> Located(stream, f)
  }

  /** The record that byte `b` adds to the log, if it completes a good frame. */
  function Record(stream: seq<byte>, r: Rx, b: byte): seq<Found> {
    var found := Emit(r, b);
    if found == [] then [] else [Found(|stream| - |found[0]| - 1, found[0])]
  }

  lemma RecordIsLocated(stream: seq<byte>, log: seq<Found>, r: Rx, b: byte)
    requires Placed(stream, log, r) && Record(stream, r, b) != []
    ensures var f := Record(stream, r, b)[0];
            Located(stream + [b], f) && CheckAt(f) == |stream| && Free(log) <= f.at - 2
  {
    var at := |stream| - |r.mode.got| - 1;
    assert (stream + [b])[at + 1..|stream|] == r.mode.got;
  }

  lemma PlacedStep(stream: seq<byte>, log: seq<Found>, r: Rx, b: byte)
    requires Placed(stream, log, r)
    ensures Placed(stream + [b], log + Record(stream, r, b), Step(r, b))
  {
    if r.mode.Body? {
      var at := |stream| - |r.mode.got| - 1;
      assert (stream + [b])[at + 1..] == r.mode.got + [b];
      if Record(stream, r, b) != [] {
        RecordIsLocated(stream, log, r, b);
      } else {
        assert log + Record(stream, r, b) == log;
      }
    } else {
      assert log + Record(stream, r, b) == log;
    }
  }

  /** One byte keeps every record in place and adds at most one, behind the others. */
  lemma {:induction false} TracedStep(stream: seq<byte>, log: seq<Found>, r: Rx, b: byte)
    requires Traced(stream, log, r)
    ensures Traced(stream + [b], log + Record(stream, r, b), Step(r, b))
  {
    PlacedStep(stream, log, r, b);
    forall f | f in log + Record(stream, r, b) ensures Located(stream + [b], f) {
      if f in log { LocatedInLonger(stream, [b], f); } else { RecordIsLocated(stream, log, r, b); }
    }
    if Record(stream, r, b) != [] { RecordIsLocated(stream, log, r, b); }
  }

  function Log(c: Clocked, events: seq<Event>): seq<Found> {
    if events == [] then []
    else Log(c, But(events)) +
         match Final(events)
         case Byte(b, _, _) => Record(Bytes(But(events)), After(c, But(events)).rx, b)
         case Pass(_, _, _) => []
  }

  lemma {:induction false} RunIsTraced(first: nat, t0: nat, events: seq<Event>)
    ensures var c := Start(first, t0);
            Traced(Bytes(events), Log(c, events), After(c, events).rx)
    decreases |events|
  {
    if events != [] {
      var c := Start(first, t0);
      var stream, r := Bytes(But(events)), After(c, But(events)).rx;
      RunIsTraced(first, t0, But(events));
      match Final(events) {
        case Byte(b, _, _) =>
          TracedStep(stream, Log(c, But(events)), r, b);
        case Pass(_, _, _) =>
          assert Bytes(events) == stream && Log(c, events) == Log(c, But(events));
      }
    }
  }

  lemma {:induction false} LogRecordsAccepted(c: Clocked, events: seq<Event>)
    ensures |Accepted(c, events)| == |Log(c, events)|
    ensures forall i :: 0 <= i < |Log(c, events)| ==> Accepted(c, events)[i] == Log(c, events)[i].payload
    decreases |events|
  {
    if events != [] {
      LogRecordsAccepted(c, But(events));
    }
  }

  /** Soundness of every run, timeouts included: each accepted payload stands in the received stream as a
      whole frame, and the frames' length-to-checksum spans are disjoint and in stream order. */
  lemma {:induction false} AcceptedIsFound(first: nat, t0: nat, events: seq<Event>)
    ensures var accepted, log := Accepted(Start(first, t0), events), Log(Start(first, t0), events);
            && |accepted| == |log|
            && forall i :: 0 <= i < |log| ==>
                 && accepted[i] == log[i].payload
                 && Located(Bytes(events), log[i])
                 && (i > 0 ==> CheckAt(log[i - 1]) <= log[i].at - 2)
  {
    RunIsTraced(first, t0, events);
    LogRecordsAccepted(Start(first, t0), events);
  }

  // ---- The inter-byte timeout and the wrapping clock ----

  /** Time of the last clock reading of a run that was entered at `t0`. */
  function EndTime(events: seq<Event>, t0: nat): nat {
    if events == [] then t0
    else match Final(events)
         case Byte(_, _, stampAt) => stampAt
         case Pass(_, _, restampAt) => restampAt
  }

  /** Clock readings happen one after the other. */
  predicate InOrder(events: seq<Event>, t0: nat) {
    events == [] ||
    (InOrder(But(events), t0) &&
     match Final(events)
     case Byte(_, activityAt, stampAt) => EndTime(But(events), t0) <= activityAt <= stampAt
     case Pass(checkAt, serialAt, restampAt) => EndTime(But(events), t0) <= checkAt <= serialAt <= restampAt)
  }

  lemma OrderSnoc(events: seq<Event>, e: Event, t0: nat)
    requires InOrder(events, t0)
    requires match e
             case Byte(_, activityAt, stampAt) => EndTime(events, t0) <= activityAt <= stampAt
             case Pass(checkAt, serialAt, restampAt) => EndTime(events, t0) <= checkAt <= serialAt <= restampAt
    ensures InOrder(events + [e], t0)
    ensures EndTime(events + [e], t0) == (match e case Byte(_, _, t) => t case Pass(_, _, t) => t)
  {
    assert But(events + [e]) == events && Final(events + [e]) == e;
  }

  /** True time of the last byte received. */
  function LastByteTime(events: seq<Event>, t0: nat): nat {
    if events == [] then t0
    else match Final(events)
         case Byte(_, _, stampAt) => stampAt
         case Pass(_, _, _) => LastByteTime(But(events), t0)
  }

  /** True time of the last inter-byte check, or of the start. */
  function LastCheckTime(events: seq<Event>, t0: nat): nat {
    if events == [] then t0
    else match Final(events)
         case Byte(_, _, _) => LastCheckTime(But(events), t0)
         case Pass(checkAt, _, _) => checkAt
  }

  /** Consecutive passes are less than `limit` ms apart. */
  predicate Spaced(events: seq<Event>, t0: nat, limit: nat) {
    events == [] ||
    (Spaced(But(events), t0, limit) &&
     (Final(events).Pass? ==> Final(events).checkAt < LastCheckTime(But(events), t0) + limit))
  }

  /** While a frame is open the stamp is the time of the last byte, and the last check was not far behind. */
  lemma {:induction false} StampInvariant(first: nat, t0: nat, events: seq<Event>)
    requires InOrder(events, t0) && Spaced(events, t0, UINT32_RANGE - INTERBYTE_TIMEOUT)
    ensures LastByteTime(events, t0) <= EndTime(events, t0) && LastCheckTime(events, t0) <= EndTime(events, t0)
    ensures var c := After(Start(first, t0), events);
            !c.rx.mode.Idle? ==>
              && c.lastByteRX == Millis(LastByteTime(events, t0))
              && LastCheckTime(events, t0) <= LastByteTime(events, t0) + INTERBYTE_TIMEOUT
    decreases |events|
  {
    if events != [] {
      StampInvariant(first, t0, But(events));
      if Final(events).Pass? && !After(Start(first, t0), But(events)).rx.mode.Idle? {
        ElapsedIsTrueTime(Final(events).checkAt, LastByteTime(But(events), t0));
      }
    }
  }

  /** A pass gives up on a frame exactly when one is open and the line has truly been silent for more than
      the timeout, however often the 32-bit clock has wrapped. */
  lemma {:induction false} AbandonsExactly(first: nat, t0: nat, events: seq<Event>, pass: Event)
    requires pass.Pass? && InOrder(events + [pass], t0)
    requires Spaced(events + [pass], t0, UINT32_RANGE - INTERBYTE_TIMEOUT)
    ensures var c := After(Start(first, t0), events);
            && (Abandons(c, pass.checkAt) <==>
                !c.rx.mode.Idle? && pass.checkAt - LastByteTime(events, t0) > INTERBYTE_TIMEOUT)
            && (Tick(c, pass).rx.mode.Idle? <==> c.rx.mode.Idle? || Abandons(c, pass.checkAt))
  {
    assert But(events + [pass]) == events;
    StampInvariant(first, t0, events);
    ElapsedIsTrueTime(pass.checkAt, LastByteTime(events, t0));
  }

  /** With a larger distance between passes a silence can be missed: a second pass 2^32 - 500 ms after a first
      one that came 500 ms after the last byte. */
  lemma SpacingIsTight(limit: nat)
    requires limit > UINT32_RANGE - INTERBYTE_TIMEOUT
    ensures var events := [Byte(0xFF, 0, 0), Byte(0x55, 0, 0), Pass(500, 500, 500)];
            var pass := Pass(UINT32_RANGE, UINT32_RANGE, UINT32_RANGE);
            && SpacedRun(0, events, pass, limit)
            && !After(Start(0, 0), events).rx.mode.Idle?
            && pass.checkAt - LastByteTime(events, 0) > INTERBYTE_TIMEOUT
            && !Abandons(After(Start(0, 0), events), pass.checkAt)
  {
    var e1, e2, e3 := Byte(0xFF, 0, 0), Byte(0x55, 0, 0), Pass(500, 500, 500);
    var pass := Pass(UINT32_RANGE, UINT32_RANGE, UINT32_RANGE);
    assert But([e1]) == [] && But([e1, e2]) == [e1] && But([e1, e2, e3]) == [e1, e2];
    assert But([e1, e2, e3] + [pass]) == [e1, e2, e3];
    OrderSnoc([], e1, 0);
    assert [] + [e1] == [e1] && [e1] + [e2] == [e1, e2] && [e1, e2] + [e3] == [e1, e2, e3];
    OrderSnoc([e1], e2, 0);
    OrderSnoc([e1, e2], e3, 0);
    OrderSnoc([e1, e2, e3], pass, 0);
    assert LastCheckTime([], 0) == 0 && Final([e1]) == e1;
    assert LastCheckTime([e1], 0) == LastCheckTime(But([e1]), 0);
    assert LastCheckTime([e1, e2], 0) == LastCheckTime([e1], 0);
    assert Spaced([e1], 0, limit) && Spaced([e1, e2], 0, limit) && Spaced([e1, e2, e3], 0, limit);
    assert After(Start(0, 0), [e1]) == Clocked(Rx(0xFF, Idle), 0, 0);
    assert After(Start(0, 0), [e1, e2]) == Clocked(Rx(0x55, AwaitLength), 0, 0);
  }

  /** A run in time order with passes less than `limit` ms apart, up to and including a pass. */
  predicate SpacedRun(t0: nat, events: seq<Event>, pass: Event, limit: nat) {
    pass.Pass? && InOrder(events + [pass], t0) && Spaced(events + [pass], t0, limit)
  }

  /** The pass gives up on a frame exactly when one is open and the line was truly silent for too long. */
  predicate AbandonsTruly(first: nat, t0: nat, events: seq<Event>, pass: Event)
    requires pass.Pass?
  {
    var c := After(Start(first, t0), events);
    Abandons(c, pass.checkAt) <==>
      !c.rx.mode.Idle? && pass.checkAt - LastByteTime(events, t0) > INTERBYTE_TIMEOUT
  }

  /** The inter-byte check tells true silences in all runs exactly up to this distance between passes. */
  lemma {:induction false} SpacingExactly(limit: nat)
    ensures (forall first: nat, t0: nat, events, pass ::
               SpacedRun(t0, events, pass, limit) ==> AbandonsTruly(first, t0, events, pass))
            <==> limit <= UINT32_RANGE - INTERBYTE_TIMEOUT
  {
    if limit <= UINT32_RANGE - INTERBYTE_TIMEOUT {
      forall first: nat, t0: nat, events, pass | SpacedRun(t0, events, pass, limit)
        ensures AbandonsTruly(first, t0, events, pass)
      {
        SpacedLess(events + [pass], t0, limit, UINT32_RANGE - INTERBYTE_TIMEOUT);
        AbandonsExactly(first, t0, events, pass);
      }
    } else {
      SpacingIsTight(limit);
      var events := [Byte(0xFF, 0, 0), Byte(0x55, 0, 0), Pass(500, 500, 500)];
      var pass := Pass(UINT32_RANGE, UINT32_RANGE, UINT32_RANGE);
      assert SpacedRun(0, events, pass, limit) && !AbandonsTruly(0, 0, events, pass);
    }
  }

  lemma {:induction false} SpacedLess(events: seq<Event>, t0: nat, limit: nat, more: nat)
    requires limit <= more && Spaced(events, t0, limit)
    ensures Spaced(events, t0, more)
    decreases |events|
  {
    if events != [] {
      SpacedLess(But(events), t0, limit, more);
    }
  }

  // ---- The serial timeout ----

  /** True time of the last activity: a byte, or the last serial timeout, each timed from the one before. */
  function LastActivityTime(events: seq<Event>, t0: nat): nat {
    if events == [] then t0
    else match Final(events)
         case Byte(_, activityAt, _) => activityAt
         case Pass(_, serialAt, restampAt) =>
           var since := LastActivityTime(But(events), t0);
           if serialAt - since > SERIAL_TIMEOUT then restampAt else since
  }

  function LastSerialTime(events: seq<Event>, t0: nat): nat {
    if events == [] then t0
    else match Final(events)
         case Byte(_, _, _) => LastSerialTime(But(events), t0)
         case Pass(_, serialAt, _) => serialAt
  }

  predicate SerialSpaced(events: seq<Event>, t0: nat, limit: nat) {
    events == [] ||
    (SerialSpaced(But(events), t0, limit) &&
     (Final(events).Pass? ==> Final(events).serialAt < LastSerialTime(But(events), t0) + limit))
  }

  lemma {:induction false} ActivityInvariant(first: nat, t0: nat, events: seq<Event>)
    requires InOrder(events, t0) && SerialSpaced(events, t0, UINT32_RANGE - SERIAL_TIMEOUT)
    ensures LastActivityTime(events, t0) <= EndTime(events, t0) && LastSerialTime(events, t0) <= EndTime(events, t0)
    ensures After(Start(first, t0), events).lastActivity == Millis(LastActivityTime(events, t0))
    ensures LastSerialTime(events, t0) <= LastActivityTime(events, t0) + SERIAL_TIMEOUT
    decreases |events|
  {
    if events != [] {
      ActivityInvariant(first, t0, But(events));
      if Final(events).Pass? {
        ElapsedIsTrueTime(Final(events).serialAt, LastActivityTime(But(events), t0));
      }
    }
  }

  /** `resetState` is called exactly after a true inactivity of more than the serial timeout. */
  lemma {:induction false} ResetsExactly(first: nat, t0: nat, events: seq<Event>, pass: Event)
    requires pass.Pass? && InOrder(events + [pass], t0)
    requires SerialSpaced(events + [pass], t0, UINT32_RANGE - SERIAL_TIMEOUT)
    ensures Resets(After(Start(first, t0), events), pass.serialAt)
            <==> pass.serialAt - LastActivityTime(events, t0) > SERIAL_TIMEOUT
  {
    assert But(events + [pass]) == events;
    ActivityInvariant(first, t0, events);
    ElapsedIsTrueTime(pass.serialAt, LastActivityTime(events, t0));
  }

  predicate SerialSpacedRun(t0: nat, events: seq<Event>, pass: Event, limit: nat) {
    pass.Pass? && InOrder(events + [pass], t0) && SerialSpaced(events + [pass], t0, limit)
  }

  /** `resetState` is called exactly when the line was truly inactive for too long. */
  predicate ResetsTruly(first: nat, t0: nat, events: seq<Event>, pass: Event)
    requires pass.Pass?
  {
    Resets(After(Start(first, t0), events), pass.serialAt) <==>
      pass.serialAt - LastActivityTime(events, t0) > SERIAL_TIMEOUT
  }

  lemma SerialSpacingIsTight(limit: nat)
    requires limit > UINT32_RANGE - SERIAL_TIMEOUT
    ensures var events := [Pass(60000, 60000, 60000)];
            var pass := Pass(UINT32_RANGE, UINT32_RANGE, UINT32_RANGE);
            SerialSpacedRun(0, events, pass, limit) && !ResetsTruly(0, 0, events, pass)
  {
    var e, pass := Pass(60000, 60000, 60000), Pass(UINT32_RANGE, UINT32_RANGE, UINT32_RANGE);
    OrderSnoc([], e, 0);
    assert [] + [e] == [e] && But([e]) == [] && But([e] + [pass]) == [e];
    OrderSnoc([e], pass, 0);
    assert SerialSpaced([e], 0, limit) && LastSerialTime([e], 0) == 60000;
    assert After(Start(0, 0), [e]) == Start(0, 0) && LastActivityTime([e], 0) == 0;
  }

  /** The serial check tells true inactivity in all runs exactly up to this distance between passes. */
  lemma {:induction false} SerialSpacingExactly(limit: nat)
    ensures (forall first: nat, t0: nat, events, pass ::
               SerialSpacedRun(t0, events, pass, limit) ==> ResetsTruly(first, t0, events, pass))
            <==> limit <= UINT32_RANGE - SERIAL_TIMEOUT
  {
    if limit <= UINT32_RANGE - SERIAL_TIMEOUT {
      forall first: nat, t0: nat, events, pass | SerialSpacedRun(t0, events, pass, limit)
        ensures ResetsTruly(first, t0, events, pass)
      {
        SerialSpacedLess(events + [pass], t0, limit, UINT32_RANGE - SERIAL_TIMEOUT);
        ResetsExactly(first, t0, events, pass);
      }
    } else {
      SerialSpacingIsTight(limit);
    }
  }

  lemma {:induction false} SerialSpacedLess(events: seq<Event>, t0: nat, limit: nat, more: nat)
    requires limit <= more && SerialSpaced(events, t0, limit)
    ensures SerialSpaced(events, t0, more)
    decreases |events|
  {
    if events != [] {
      SerialSpacedLess(But(events), t0, limit, more);
    }
  }

  /** The clock moves at most `perByte` ms between the two readings for a byte and at most `perPass` ms
      between the two checks of a pass. */
  predicate Brisk(events: seq<Event>, perByte: nat, perPass: nat) {
    forall e :: e in events ==>
      match e
      case Byte(_, activityAt, stampAt) => activityAt <= stampAt <= activityAt + perByte
      case Pass(checkAt, serialAt, _) => checkAt <= serialAt <= checkAt + perPass
  }

  lemma ElapsedChain(now: uint32, mid: uint32, since: uint32)
    requires Elapsed(now, mid) + Elapsed(mid, since) < UINT32_RANGE
    ensures Elapsed(now, since) == Elapsed(now, mid) + Elapsed(mid, since)
  {
    var k, m := (now - mid) / UINT32_RANGE, (mid - since) / UINT32_RANGE;
    assert now - since == Elapsed(now, mid) + Elapsed(mid, since) + (k + m) * UINT32_RANGE;
    SameRemainder(now - since, Elapsed(now, mid) + Elapsed(mid, since), k + m);
  }

  /** With an open frame that survives the inter-byte check, the serial timeout is out of reach. */
  lemma {:induction false} OpenFrameIsRecent(c: Clocked, pass: Event, perByte: nat, perPass: nat)
    requires pass.Pass? && pass.checkAt <= pass.serialAt <= pass.checkAt + perPass
    requires perByte + perPass <= SERIAL_TIMEOUT - INTERBYTE_TIMEOUT
    requires Elapsed(c.lastByteRX, c.lastActivity) <= perByte
    requires Elapsed(Millis(pass.checkAt), c.lastByteRX) <= INTERBYTE_TIMEOUT
    ensures !Resets(c, pass.serialAt)
  {
    ElapsedIsTrueTime(pass.serialAt, pass.checkAt);
    ElapsedChain(Millis(pass.serialAt), Millis(pass.checkAt), c.lastByteRX);
    ElapsedChain(Millis(pass.serialAt), c.lastByteRX, c.lastActivity);
  }

  /** While a frame is open, `lastByteRX` is close behind `lastActivity`. */
  lemma {:induction false} StampsStayTogether(first: nat, t0: nat, events: seq<Event>, perByte: nat, perPass: nat)
    requires Brisk(events, perByte, perPass)
    requires perByte + perPass <= SERIAL_TIMEOUT - INTERBYTE_TIMEOUT
    ensures var c := After(Start(first, t0), events);
            !c.rx.mode.Idle? ==> Elapsed(c.lastByteRX, c.lastActivity) <= perByte
    decreases |events|
  {
    if events != [] {
      assert forall e :: e in But(events) ==> e in events;
      StampsStayTogether(first, t0, But(events), perByte, perPass);
      var c, e := After(Start(first, t0), But(events)), Final(events);
      assert e in events;
      match e {
        case Byte(_, activityAt, stampAt) =>
          ElapsedIsTrueTime(stampAt, activityAt);
        case Pass(checkAt, _, _) =>
          if !c.rx.mode.Idle? && !Abandons(c, checkAt) {
            OpenFrameIsRecent(c, e, perByte, perPass);
          }
      }
    }
  }

  /** `resetState` never runs with a frame open: by then the inter-byte check of the same pass has closed it. */
  lemma {:induction false} ResetFindsNoOpenFrame(first: nat, t0: nat, events: seq<Event>, pass: Event,
                                                 perByte: nat, perPass: nat)
    requires pass.Pass? && Brisk(events + [pass], perByte, perPass)
    requires perByte + perPass <= SERIAL_TIMEOUT - INTERBYTE_TIMEOUT
    requires Resets(After(Start(first, t0), events), pass.serialAt)
    ensures Tick(After(Start(first, t0), events), pass).rx.mode.Idle?
  {
    var c := After(Start(first, t0), events);
    assert pass in events + [pass] && forall e :: e in events ==> e in events + [pass];
    StampsStayTogether(first, t0, events, perByte, perPass);
    if !c.rx.mode.Idle? && !Abandons(c, pass.checkAt) {
      OpenFrameIsRecent(c, pass, perByte, perPass);
    }
  }

  /** With one millisecond more, however it is divided between byte and pass, it can. */
  lemma BriskIsTight(perByte: nat, perPass: nat)
    requires perByte + perPass == SERIAL_TIMEOUT - INTERBYTE_TIMEOUT + 1
    ensures var events := [Byte(0xFF, 0, 0), Byte(0x55, 0, perByte)];
            var pass := Pass(perByte + INTERBYTE_TIMEOUT, SERIAL_TIMEOUT + 1, SERIAL_TIMEOUT + 1);
            && InOrder(events + [pass], 0)
            && Brisk(events + [pass], perByte, perPass)
            && Resets(After(Start(0, 0), events), pass.serialAt)
            && !Tick(After(Start(0, 0), events), pass).rx.mode.Idle?
  {
    var e1, e2 := Byte(0xFF, 0, 0), Byte(0x55, 0, perByte);
    var pass := Pass(perByte + INTERBYTE_TIMEOUT, SERIAL_TIMEOUT + 1, SERIAL_TIMEOUT + 1);
    assert But([e1]) == [] && But([e1, e2]) == [e1] && But([e1, e2] + [pass]) == [e1, e2];
    OrderSnoc([], e1, 0);
    assert [] + [e1] == [e1] && [e1] + [e2] == [e1, e2];
    OrderSnoc([e1], e2, 0);
    OrderSnoc([e1, e2], pass, 0);
    assert After(Start(0, 0), [e1]) == Clocked(Rx(0xFF, Idle), 0, 0);
    assert After(Start(0, 0), [e1, e2]) == Clocked(Rx(0x55, AwaitLength), perByte, 0);
  }

  /** The pass calls `resetState` with a frame open. */
  predicate ResetsOpenFrame(first: nat, t0: nat, events: seq<Event>, pass: Event)
    requires pass.Pass?
  {
    var c := After(Start(first, t0), events);
    Resets(c, pass.serialAt) && !Tick(c, pass).rx.mode.Idle?
  }

  /** A run in time order whose clock readings stay within the bounds, up to and including a pass. */
  predicate BriskRun(t0: nat, events: seq<Event>, pass: Event, perByte: nat, perPass: nat) {
    pass.Pass? && InOrder(events + [pass], t0) && Brisk(events + [pass], perByte, perPass)
  }

  /** `resetState` never finds a frame open, in any run within the bounds, exactly when the bounds add up to no
      more than the difference of the two timeouts. */
  lemma {:induction false} BriskExactly(perByte: nat, perPass: nat)
    ensures (forall first: nat, t0: nat, events, pass ::
               BriskRun(t0, events, pass, perByte, perPass) ==> !ResetsOpenFrame(first, t0, events, pass))
            <==> perByte + perPass <= SERIAL_TIMEOUT - INTERBYTE_TIMEOUT
  {
    if perByte + perPass <= SERIAL_TIMEOUT - INTERBYTE_TIMEOUT {
      forall first: nat, t0: nat, events, pass | BriskRun(t0, events, pass, perByte, perPass)
        ensures !ResetsOpenFrame(first, t0, events, pass)
      {
        if Resets(After(Start(first, t0), events), pass.serialAt) {
          ResetFindsNoOpenFrame(first, t0, events, pass, perByte, perPass);
        }
      }
    } else {
      var limit := SERIAL_TIMEOUT - INTERBYTE_TIMEOUT + 1;
      var b := if perByte <= limit then perByte else limit;
      BriskIsTight(b, limit - b);
      var events := [Byte(0xFF, 0, 0), Byte(0x55, 0, b)];
      var pass := Pass(b + INTERBYTE_TIMEOUT, SERIAL_TIMEOUT + 1, SERIAL_TIMEOUT + 1);
      assert BriskRun(0, events, pass, perByte, perPass);
      assert ResetsOpenFrame(0, 0, events, pass);
    }
  }
}
