/** The frame parser inside `_rxTask`, one byte at a time, and what it computes on a whole stream.
    A frame is `FF 55 len payload check`. Time plays no part here; see RxClock. */
module FrameParser {
  import opened Config
  import Checksum

  /** `Idle` is `!_rxIncomplete`. With a frame open, `expLength == 0 && cursor == 0` means the length is
      still awaited; otherwise `got` is `buf[..cursor]`. */
  datatype Mode = Idle | AwaitLength | Body(len: byte, got: seq<byte>)

  datatype Rx = Rx(prev: byte, mode: Mode)

  /** The test that opens a frame: the byte before and the byte itself. */
  predicate Opens(prev: byte, b: byte) {
    prev == 0xFF && b == 0x55
  }

  /** Parser state after one byte. */
  function Step(r: Rx, b: byte): Rx {
    Rx(b, match r.mode
          case Idle => if Opens(r.prev, b) then AwaitLength else Idle
          case AwaitLength => if b == 0 then Idle else Body(b, [])
          case Body(len, got) => if |got| < len then Body(len, got + [b]) else Idle)
  }

  /** The payload that byte `b` completes, if it completes one with the right checksum. */
  function Emit(r: Rx, b: byte): seq<seq<byte>> {
    if r.mode.Body? && |r.mode.got| >= r.mode.len && Checksum.Of(r.mode.got) == b then [r.mode.got] else []
  }

  function Run(r: Rx, bytes: seq<byte>): Rx
    decreases |bytes|
  {
    if bytes == [] then r else Run(Step(r, bytes[0]), bytes[1..])
  }

  /** The payloads accepted while reading `bytes` from state `r`. */
  function Output(r: Rx, bytes: seq<byte>): seq<seq<byte>>
    decreases |bytes|
  {
    if bytes == [] then [] else Emit(r, bytes[0]) + Output(Step(r, bytes[0]), bytes[1..])
  }

  function Last(prev: byte, bytes: seq<byte>): byte {
    if bytes == [] then prev else bytes[|bytes| - 1]
  }

  /** What holds of every state the parser reaches. */
  predicate Consistent(r: Rx) {
    r.mode.Body? ==> r.mode.len > 0 && |r.mode.got| <= r.mode.len
  }

  /** Frame by frame: find `FF 55`, take the length, take that many bytes and a checksum, and go on with
      the header search from the last byte taken. */
  function Parse(prev: byte, bytes: seq<byte>): seq<seq<byte>>
    decreases |bytes|
  {
    if bytes == [] then
      []
    else if !Opens(prev, bytes[0]) then
      Parse(bytes[0], bytes[1..])
    else if |bytes| == 1 then
      []
    else
      var len: int := bytes[1];
      if len == 0 then
        Parse(0, bytes[2..])
      else if |bytes| < len + 3 then
        []
      else
        var payload, check := bytes[2..len + 2], bytes[len + 2];
        (if Checksum.Of(payload) == check then [payload] else []) + Parse(check, bytes[len + 3..])
  }

  lemma {:induction false} RunAppend(r: Rx, a: seq<byte>, b: seq<byte>)
    ensures Run(r, a + b) == Run(Run(r, a), b)
    ensures Output(r, a + b) == Output(r, a) + Output(Run(r, a), b)
    decreases |a|
  {
    if a == [] {
      assert a + b == b;
    } else {
      assert (a + b)[1..] == a[1..] + b;
      RunAppend(Step(r, a[0]), a[1..], b);
    }
  }

  lemma {:induction false} RunSnoc(r: Rx, bytes: seq<byte>, b: byte)
    ensures Run(r, bytes + [b]) == Step(Run(r, bytes), b)
    ensures Output(r, bytes + [b]) == Output(r, bytes) + Emit(Run(r, bytes), b)
  {
    RunAppend(r, bytes, [b]);
    assert [b][1..] == [];
    assert Output(Run(r, bytes), [b]) == Emit(Run(r, bytes), b) + [];
  }

  /** `prevByte` always is the last byte read, whatever became of the frame it was in. */
  lemma {:induction false} PrevIsLastByte(r: Rx, bytes: seq<byte>)
    ensures Run(r, bytes).prev == Last(r.prev, bytes)
    decreases |bytes|
  {
    if bytes != [] {
      PrevIsLastByte(Step(r, bytes[0]), bytes[1..]);
    }
  }

  lemma {:induction false} StaysConsistent(r: Rx, bytes: seq<byte>)
    requires Consistent(r)
    ensures Consistent(Run(r, bytes))
    ensures forall p :: p in Output(r, bytes) ==> 1 <= |p| <= 255
    decreases |bytes|
  {
    if bytes != [] {
      StaysConsistent(Step(r, bytes[0]), bytes[1..]);
    }
  }

  /** Inside a frame body nothing but the count matters: `FF 55` does not start over. */
  lemma {:induction false} BodyFills(prev: byte, len: byte, got: seq<byte>, bytes: seq<byte>)
    requires |got| + |bytes| <= len
    ensures Run(Rx(prev, Body(len, got)), bytes) == Rx(Last(prev, bytes), Body(len, got + bytes))
    ensures Output(Rx(prev, Body(len, got)), bytes) == []
    decreases |bytes|
  {
    if bytes == [] {
      assert got + bytes == got;
    } else {
      BodyFills(bytes[0], len, got + [bytes[0]], bytes[1..]);
      assert got + [bytes[0]] + bytes[1..] == got + bytes;
    }
  }

  /** A body and its checksum byte: accepted exactly when the checksum is right. */
  lemma {:induction false} BodyThenCheck(prev: byte, payload: seq<byte>, check: byte)
    requires 1 <= |payload| <= 255
    ensures Run(Rx(prev, Body(|payload|, [])), payload + [check]) == Rx(check, Idle)
    ensures Output(Rx(prev, Body(|payload|, [])), payload + [check])
            == if check == Checksum.Of(payload) then [payload] else []
  {
    hide Run, Output, Checksum.Of;
    var r := Rx(prev, Body(|payload|, []));
    BodyFills(prev, |payload|, [], payload);
    assert [] + payload == payload;
    RunSnoc(r, payload, check);
    assert Run(r, payload) == Rx(Last(prev, payload), Body(|payload|, payload));
  }

  lemma {:induction false} RunCons(r: Rx, b: byte, rest: seq<byte>)
    ensures Run(r, [b] + rest) == Run(Step(r, b), rest)
    ensures Output(r, [b] + rest) == Emit(r, b) + Output(Step(r, b), rest)
  {
    assert ([b] + rest)[1..] == rest;
  }

  /** A whole frame from its length byte on. */
  lemma {:induction false} WholeFrame(prev: byte, payload: seq<byte>, check: byte)
    requires 1 <= |payload| <= 255
    ensures Run(Rx(prev, AwaitLength), [|payload|] + payload + [check]) == Rx(check, Idle)
    ensures Output(Rx(prev, AwaitLength), [|payload|] + payload + [check])
            == if check == Checksum.Of(payload) then [payload] else []
  {
    hide Run, Output;
    RunCons(Rx(prev, AwaitLength), |payload|, payload + [check]);
    assert [|payload|] + payload + [check] == [|payload|] + (payload + [check]);
    BodyThenCheck(|payload|, payload, check);
  }

  lemma {:induction false} BodyAndRest(prev: byte, payload: seq<byte>, check: byte, rest: seq<byte>)
    requires 1 <= |payload| <= 255
    ensures Output(Rx(prev, Body(|payload|, [])), payload + [check] + rest)
            == (if check == Checksum.Of(payload) then [payload] else []) + Output(Rx(check, Idle), rest)
  {
    hide Run, Output;
    BodyThenCheck(prev, payload, check);
    RunAppend(Rx(prev, Body(|payload|, [])), payload + [check], rest);
  }

  /** What becomes of an open frame, length byte first. */
  lemma {:induction false} AfterHeader(prev: byte, bytes: seq<byte>)
    requires bytes != []
    ensures bytes[0] == 0 ==> Output(Rx(prev, AwaitLength), bytes) == Output(Rx(0, Idle), bytes[1..])
    ensures bytes[0] as int > 0 && |bytes| < bytes[0] as int + 2 ==> Output(Rx(prev, AwaitLength), bytes) == []
    ensures bytes[0] as int > 0 && |bytes| >= bytes[0] as int + 2 ==>
              var n := bytes[0] as int + 1;
              Output(Rx(prev, AwaitLength), bytes)
              == (if Checksum.Of(bytes[1..n]) == bytes[n] then [bytes[1..n]] else [])
                 + Output(Rx(bytes[n], Idle), bytes[n + 1..])
  {
    hide Run, Output;
    var len, rest := bytes[0], bytes[1..];
    assert bytes == [len] + rest;
    RunCons(Rx(prev, AwaitLength), len, rest);
    if len > 0 {
      if |bytes| < len as int + 2 {
        BodyFills(len, len, [], rest);
      } else {
        var n := len as int + 1;
        assert rest == bytes[1..n] + [bytes[n]] + bytes[n + 1..];
        BodyAndRest(len, bytes[1..n], bytes[n], bytes[n + 1..]);
      }
    }
  }

  /** The byte-at-a-time machine computes the frame-by-frame parse. */
  lemma {:induction false} OutputIsParse(prev: byte, bytes: seq<byte>)
    ensures Output(Rx(prev, Idle), bytes) == Parse(prev, bytes)
    decreases |bytes|
  {
    if bytes == [] {
    } else if !Opens(prev, bytes[0]) {
      OutputIsParse(bytes[0], bytes[1..]);
    } else if |bytes| > 1 {
      var len: int, rest := bytes[1], bytes[1..];
      AfterHeader(bytes[0], rest);
      assert rest[1..] == bytes[2..];
      if len == 0 {
        OutputIsParse(0, bytes[2..]);
      } else if |bytes| >= len + 3 {
        assert rest[1..len + 1] == bytes[2..len + 2] && rest[len + 2..] == bytes[len + 3..];
        OutputIsParse(bytes[len + 2], bytes[len + 3..]);
      }
    }
  }

  /** Bytes that can still pass before the parser is idle. */
  function Remaining(r: Rx): int {
    match r.mode
    case Idle => 0
    case AwaitLength => 257
    case Body(len, got) => len + 1 - |got|
  }

  /** Every byte brings an open frame nearer to its end, and no open frame has none left. */
  lemma RemainingFalls(r: Rx, b: byte)
    requires Consistent(r) && !r.mode.Idle?
    ensures 0 <= Remaining(Step(r, b)) < Remaining(r) <= 257
  {
  }

  /** How many of the coming bytes it takes to be idle: the length byte decides. */
  function BytesToIdle(r: Rx, bytes: seq<byte>): int
    requires r.mode.AwaitLength? ==> bytes != []
  {
    match r.mode
    case Idle => 0
    case AwaitLength => if bytes[0] == 0 then 1 else bytes[0] + 2
    case Body(len, got) => len + 1 - |got|
  }

  /** Whatever the bytes are, the parser is first idle after exactly that many, at most 257. */
  lemma {:induction false} Recovers(r: Rx, bytes: seq<byte>)
    requires Consistent(r) && |bytes| >= Remaining(r)
    ensures 0 <= BytesToIdle(r, bytes) <= Remaining(r) <= 257
    ensures forall k :: 0 <= k <= BytesToIdle(r, bytes) ==>
              (Run(r, bytes[..k]).mode.Idle? <==> k == BytesToIdle(r, bytes))
    decreases Remaining(r)
  {
    var n := BytesToIdle(r, bytes);
    if !r.mode.Idle? {
      var next, rest := Step(r, bytes[0]), bytes[1..];
      RemainingFalls(r, bytes[0]);
      Recovers(next, rest);
      forall k | 0 <= k <= n ensures Run(r, bytes[..k]).mode.Idle? <==> k == n {
        if k > 0 {
          assert bytes[..k][1..] == rest[..k - 1];
        }
      }
    }
  }
}
