/** Framed streams: what a sender of `FF 55 len payload check` frames can rely on. */
module FrameStream {
  import opened Config
  import opened FrameParser
  import Checksum

  function RawFrame(payload: seq<byte>, check: byte): seq<byte>
    requires 1 <= |payload| <= 255
  {
    [0xFF, 0x55] + ([|payload|] + payload + [check])
  }

  /** The frame that carries `payload`. */
  function Frame(payload: seq<byte>): seq<byte>
    requires 1 <= |payload| <= 255
  {
    RawFrame(payload, Checksum.Of(payload))
  }

  /** A frame on the wire with the noise in front of it. */
  datatype Framed = Framed(gap: seq<byte>, payload: seq<byte>)
  type Packet = p: Framed | 1 <= |p.payload| <= 255 witness Framed([], [0])

  function Stream(packets: seq<Packet>, tail: seq<byte>): seq<byte> {
    if packets == [] then tail else packets[0].gap + Frame(packets[0].payload) + Stream(packets[1..], tail)
  }

  function Payloads(packets: seq<Packet>): seq<seq<byte>> {
    seq(|packets|, i requires 0 <= i < |packets| => packets[i].payload)
  }

  function Before(prev: byte, gap: seq<byte>, i: nat): byte
    requires i < |gap|
  {
    if i == 0 then prev else gap[i - 1]
  }

  /** No `FF 55` pair in the noise, the byte just before it counted. */
  predicate Quiet(prev: byte, gap: seq<byte>) {
    forall i :: 0 <= i < |gap| ==> !Opens(Before(prev, gap, i), gap[i])
  }

  predicate Clean(prev: byte, packets: seq<Packet>, tail: seq<byte>)
    decreases |packets|
  {
    if packets == [] then Quiet(prev, tail)
    else Quiet(prev, packets[0].gap) && Clean(Checksum.Of(packets[0].payload), packets[1..], tail)
  }

  /** Reading `bytes` from idle after `prev` accepts exactly `payloads` and ends idle. */
  predicate Yields(prev: byte, bytes: seq<byte>, payloads: seq<seq<byte>>) {
    Output(Rx(prev, Idle), bytes) == payloads && Run(Rx(prev, Idle), bytes).mode.Idle?
  }

  lemma YieldsAppend(prev: byte, a: seq<byte>, pa: seq<seq<byte>>, b: seq<byte>, pb: seq<seq<byte>>)
    requires Yields(prev, a, pa) && Yields(Last(prev, a), b, pb)
    ensures Yields(prev, a + b, pa + pb)
  {
    RunAppend(Rx(prev, Idle), a, b);
    PrevIsLastByte(Rx(prev, Idle), a);
  }

  lemma {:induction false} QuietYieldsNothing(prev: byte, gap: seq<byte>)
    requires Quiet(prev, gap)
    ensures Yields(prev, gap, [])
    decreases |gap|
  {
    if gap != [] {
      assert !Opens(Before(prev, gap, 0), gap[0]);
      forall i | 0 <= i < |gap[1..]| ensures !Opens(Before(gap[0], gap[1..], i), gap[1..][i]) {
        assert Before(gap[0], gap[1..], i) == Before(prev, gap, i + 1);
      }
      QuietYieldsNothing(gap[0], gap[1..]);
    }
  }

  lemma RawFrameYields(prev: byte, payload: seq<byte>, check: byte)
    requires 1 <= |payload| <= 255
    ensures Yields(prev, RawFrame(payload, check), if check == Checksum.Of(payload) then [payload] else [])
    ensures Last(prev, RawFrame(payload, check)) == check
  {
    hide Run, Output;
    var frame := [|payload|] + payload + [check];
    var r := Rx(prev, Idle);
    RunCons(r, 0xFF, [0x55] + frame);
    RunCons(Step(r, 0xFF), 0x55, frame);
    assert RawFrame(payload, check) == [0xFF] + ([0x55] + frame);
    WholeFrame(0x55, payload, check);
  }

  /** Noise that yields nothing, a frame, and the rest. */
  lemma FrameAndRest(prev: byte, gap: seq<byte>, payload: seq<byte>, rest: seq<byte>, payloads: seq<seq<byte>>)
    requires 1 <= |payload| <= 255
    requires Yields(prev, gap, []) && Yields(Checksum.Of(payload), rest, payloads)
    ensures Yields(prev, gap + Frame(payload) + rest, [payload] + payloads)
  {
    hide Yields, RawFrame;
    RawFrameYields(Last(prev, gap), payload, Checksum.Of(payload));
    YieldsAppend(prev, gap, [], Frame(payload), [payload]);
    assert [] + [payload] == [payload];
    assert Last(prev, gap + Frame(payload)) == Checksum.Of(payload);
    YieldsAppend(prev, gap + Frame(payload), [payload], rest, payloads);
  }

  lemma PayloadsFirst(packets: seq<Packet>)
    requires packets != []
    ensures Payloads(packets) == [packets[0].payload] + Payloads(packets[1..])
  {
  }

  /** Every payload sent in a frame is received, once, in order, whatever bytes it holds. */
  lemma {:induction false} RoundTrip(prev: byte, packets: seq<Packet>, tail: seq<byte>)
    requires Clean(prev, packets, tail)
    ensures Yields(prev, Stream(packets, tail), Payloads(packets))
    decreases |packets|
  {
    if packets == [] {
      QuietYieldsNothing(prev, tail);
    } else {
      var gap, payload := packets[0].gap, packets[0].payload;
      QuietYieldsNothing(prev, gap);
      RoundTrip(Checksum.Of(payload), packets[1..], tail);
      hide Yields, Frame, Payloads;
      FrameAndRest(prev, gap, payload, Stream(packets[1..], tail), Payloads(packets[1..]));
      PayloadsFirst(packets);
    }
  }

  // ---- Damage ----

  /** Position of the first payload byte of `hit` in a stream where `before` precedes it. */
  function BodyAt(before: seq<Packet>, hit: Packet): nat {
    |Stream(before, [])| + |hit.gap| + 3
  }

  /** The noise that follows a frame. */
  function NextGap(after: seq<Packet>, tail: seq<byte>): seq<byte> {
    if after == [] then tail else after[0].gap
  }

  lemma {:induction false} StreamSplit(before: seq<Packet>, rest: seq<Packet>, tail: seq<byte>)
    ensures Stream(before + rest, tail) == Stream(before, []) + Stream(rest, tail)
    decreases |before|
  {
    if before == [] {
      assert before + rest == rest;
    } else {
      assert (before + rest)[1..] == before[1..] + rest;
      StreamSplit(before[1..], rest, tail);
    }
  }

  /** The byte the parser holds in `prevByte` after the frames `before`. */
  function LastCheck(prev: byte, before: seq<Packet>): byte {
    if before == [] then prev else Checksum.Of(before[|before| - 1].payload)
  }

  lemma {:induction false} CleanSplit(prev: byte, before: seq<Packet>, rest: seq<Packet>, tail: seq<byte>)
    requires Clean(prev, before + rest, tail)
    ensures Clean(prev, before, []) && Clean(LastCheck(prev, before), rest, tail)
    ensures Last(prev, Stream(before, [])) == LastCheck(prev, before)
    decreases |before|
  {
    if before == [] {
      assert before + rest == rest;
    } else {
      var check := Checksum.Of(before[0].payload);
      assert (before + rest)[1..] == before[1..] + rest;
      CleanSplit(check, before[1..], rest, tail);
      assert LastCheck(prev, before) == LastCheck(check, before[1..]);
    }
  }

  lemma StreamFirst(hit: Packet, after: seq<Packet>, tail: seq<byte>)
    ensures Stream([hit] + after, tail) == hit.gap + Frame(hit.payload) + Stream(after, tail)
  {
    assert ([hit] + after)[1..] == after;
  }

  lemma StreamAtHit(before: seq<Packet>, hit: Packet, after: seq<Packet>, tail: seq<byte>)
    ensures Stream(before + [hit] + after, tail)
            == (Stream(before, []) + hit.gap) + Frame(hit.payload) + Stream(after, tail)
  {
    hide Stream, Frame;
    assert before + [hit] + after == before + ([hit] + after);
    StreamSplit(before, [hit] + after, tail);
    StreamFirst(hit, after, tail);
    Regroup(Stream(before, []), hit.gap, Frame(hit.payload), Stream(after, tail));
  }

  lemma Regroup(a: seq<byte>, b: seq<byte>, c: seq<byte>, d: seq<byte>)
    ensures a + (b + c + d) == (a + b) + c + d
  {
  }

  lemma UpdateMiddle(front: seq<byte>, middle: seq<byte>, rest: seq<byte>, i: nat, v: byte)
    requires i < |middle|
    ensures (front + middle + rest)[|front| + i := v] == front + middle[i := v] + rest
  {
  }

  /** The stream with its damaged byte, taken apart at the frame that was hit. */
  lemma DamagedSplit(before: seq<Packet>, hit: Packet, after: seq<Packet>, tail: seq<byte>, j: nat, v: byte,
                     payload: seq<byte>, check: byte)
    requires j <= |hit.payload|
    requires payload == if j < |hit.payload| then hit.payload[j := v] else hit.payload
    requires check == if j < |hit.payload| then Checksum.Of(hit.payload) else v
    ensures BodyAt(before, hit) + j < |Stream(before + [hit] + after, tail)|
    ensures Stream(before + [hit] + after, tail)[BodyAt(before, hit) + j := v]
            == Stream(before, []) + hit.gap + RawFrame(payload, check) + Stream(after, tail)
  {
    StreamAtHit(before, hit, after, tail);
    assert Frame(hit.payload)[3 + j := v] == RawFrame(payload, check);
    hide Stream, RawFrame, Frame;
    var front := Stream(before, []) + hit.gap;
    UpdateMiddle(front, Frame(hit.payload), Stream(after, tail), 3 + j, v);
  }

  /** The bytes after a damaged frame read the same as after the sound one. */
  lemma RestRereads(sound: byte, check: byte, after: seq<Packet>, tail: seq<byte>)
    requires Clean(sound, after, tail)
    requires Yields(check, NextGap(after, tail), [])
    ensures Yields(check, Stream(after, tail), Payloads(after))
  {
    if after != [] {
      var gap, payload := after[0].gap, after[0].payload;
      RoundTrip(Checksum.Of(payload), after[1..], tail);
      hide Yields, Frame, Payloads;
      FrameAndRest(check, gap, payload, Stream(after[1..], tail), Payloads(after[1..]));
      PayloadsFirst(after);
    }
  }

  /** Noise that was quiet after the sound checksum opens a frame after the wrong one exactly when the two
      bytes happen to be a header. */
  lemma {:induction false} OnlyAHeaderReopens(sound: byte, check: byte, gap: seq<byte>)
    requires Quiet(sound, gap)
    ensures (forall k :: 0 <= k <= |gap| ==> Run(Rx(check, Idle), gap[..k]).mode.Idle?)
            <==> !(gap != [] && Opens(check, gap[0]))
  {
    if gap != [] && Opens(check, gap[0]) {
      RunSnoc(Rx(check, Idle), [], gap[0]);
      assert gap[..1] == [] + [gap[0]];
    } else {
      forall k | 0 <= k <= |gap| ensures Run(Rx(check, Idle), gap[..k]).mode.Idle? {
        assert Quiet(check, gap[..k]);
        QuietYieldsNothing(check, gap[..k]);
      }
    }
  }

  /** How noise reads that was quiet after the sound checksum, when the byte before it is `check`: no header
      at its start, or one with length 0, or a whole frame with a wrong checksum. */
  predicate ReadsAsNothing(check: byte, gap: seq<byte>) {
    || gap == []
    || !Opens(check, gap[0])
    || (|gap| >= 2 && gap[1] == 0)
    || (|gap| >= 2 && BadFrameAt(gap, gap[1]))
  }

  predicate BadFrameAt(gap: seq<byte>, len: int)
    requires |gap| >= 2
  {
    0 < len <= |gap| - 3 && Checksum.Of(gap[2..len + 2]) != gap[len + 2]
  }

  lemma QuietTail(sound: byte, gap: seq<byte>, k: nat)
    requires Quiet(sound, gap) && 1 <= k <= |gap|
    ensures Yields(gap[k - 1], gap[k..], [])
  {
    forall i | 0 <= i < |gap[k..]| ensures !Opens(Before(gap[k - 1], gap[k..], i), gap[k..][i]) {
      assert Before(gap[k - 1], gap[k..], i) == Before(sound, gap, k + i);
    }
    QuietYieldsNothing(gap[k - 1], gap[k..]);
  }

  lemma NoHeaderNoSpread(sound: byte, check: byte, gap: seq<byte>)
    requires Quiet(sound, gap) && !(gap != [] && Opens(check, gap[0]))
    ensures Yields(check, gap, [])
  {
    forall i | 0 <= i < |gap| ensures !Opens(Before(check, gap, i), gap[i]) {
      assert !Opens(Before(sound, gap, i), gap[i]);
    }
    QuietYieldsNothing(check, gap);
  }

  /** A frame that opens in the noise and does not fit into it is still open at its end. */
  lemma UnfinishedStaysOpen(gap: seq<byte>)
    requires |gap| >= 2 && gap[1] > 0 && |gap| < gap[1] as int + 3
    ensures !Run(Rx(0x55, AwaitLength), gap[1..]).mode.Idle?
  {
    var len := gap[1];
    assert gap[1..] == [len] + gap[2..];
    RunCons(Rx(0x55, AwaitLength), len, gap[2..]);
    BodyFills(len, len, [], gap[2..]);
  }

  lemma FrameInNoise(gap: seq<byte>)
    requires |gap| >= 2 && |gap| >= gap[1] as int + 3
    ensures var n := gap[1] as int + 2;
            gap[1..] == ([|gap[2..n]|] + gap[2..n] + [gap[n]]) + gap[n + 1..]
  {
  }

  lemma FinishedReads(sound: byte, gap: seq<byte>)
    requires Quiet(sound, gap) && |gap| >= 2 && gap[1] > 0 && |gap| >= gap[1] as int + 3
    ensures Output(Rx(0x55, AwaitLength), gap[1..]) == [] <==> BadFrameAt(gap, gap[1])
    ensures Run(Rx(0x55, AwaitLength), gap[1..]).mode.Idle?
  {
    hide Run, Output, Checksum.Of;
    var n := gap[1] as int + 2;
    var payload: seq<byte>, check := gap[2..n], gap[n];
    FrameInNoise(gap);
    WholeFrame(0x55, payload, check);
    RunAppend(Rx(0x55, AwaitLength), [|payload|] + payload + [check], gap[n + 1..]);
    QuietTail(sound, gap, n + 1);
  }

  /** The parser's verdict on the noise, as a test on its bytes. */
  lemma ReadsAsNothingExactly(sound: byte, check: byte, gap: seq<byte>)
    requires Quiet(sound, gap)
    ensures Yields(check, gap, []) <==> ReadsAsNothing(check, gap)
  {
    if gap == [] || !Opens(check, gap[0]) {
      NoHeaderNoSpread(sound, check, gap);
    } else {
      assert gap == [gap[0]] + gap[1..];
      RunCons(Rx(check, Idle), gap[0], gap[1..]);
      if |gap| >= 2 {
        if gap[1] == 0 {
          assert gap[1..] == [gap[1]] + gap[2..];
          RunCons(Rx(0x55, AwaitLength), gap[1], gap[2..]);
          QuietTail(sound, gap, 2);
        } else if |gap| < gap[1] as int + 3 {
          UnfinishedStaysOpen(gap);
        } else {
          FinishedReads(sound, gap);
        }
      }
    }
  }

  /** Up to the end of a frame with a wrong checksum, only the frames before it are accepted. */
  lemma UpToDamage(prev: byte, before: seq<Packet>, gap: seq<byte>, payload: seq<byte>, check: byte)
    requires Clean(prev, before, []) && Quiet(Last(prev, Stream(before, [])), gap)
    requires 1 <= |payload| <= 255 && check != Checksum.Of(payload)
    ensures Yields(prev, Stream(before, []) + gap + RawFrame(payload, check), Payloads(before))
    ensures Last(prev, Stream(before, []) + gap + RawFrame(payload, check)) == check
  {
    hide Stream, RawFrame, Yields;
    var bytes := Stream(before, []);
    RoundTrip(prev, before, []);
    QuietYieldsNothing(Last(prev, bytes), gap);
    YieldsAppend(prev, bytes, Payloads(before), gap, []);
    RawFrameYields(Last(prev, bytes + gap), payload, check);
    YieldsAppend(prev, bytes + gap, Payloads(before) + [], RawFrame(payload, check), []);
    assert Payloads(before) + [] + [] == Payloads(before);
  }

  /** One wrong payload or checksum byte costs exactly the frame it is in. The only thing to look at is the
      noise behind a wrong checksum, which must not hold a frame that starts in that byte. */
  lemma DamageIsContained(prev: byte, before: seq<Packet>, hit: Packet, after: seq<Packet>, tail: seq<byte>,
                          j: nat, v: byte)
    requires Clean(prev, before + [hit] + after, tail)
    requires j <= |hit.payload|
    requires v != (hit.payload + [Checksum.Of(hit.payload)])[j]
    requires j == |hit.payload| ==> ReadsAsNothing(v, NextGap(after, tail))
    ensures BodyAt(before, hit) + j < |Stream(before + [hit] + after, tail)|
    ensures Yields(prev, Stream(before + [hit] + after, tail)[BodyAt(before, hit) + j := v],
                   Payloads(before) + Payloads(after))
  {
    var sound := Checksum.Of(hit.payload);
    var payload := if j < |hit.payload| then hit.payload[j := v] else hit.payload;
    var check := if j < |hit.payload| then sound else v;
    DamagedSplit(before, hit, after, tail, j, v, payload, check);
    assert before + [hit] + after == before + ([hit] + after);
    CleanSplit(prev, before, [hit] + after, tail);
    assert ([hit] + after)[1..] == after;

    hide Stream, RawFrame, Yields, Run, Output;
    if j < |hit.payload| {
      Checksum.DetectsOneByteError(hit.payload, j, v);
      QuietYieldsNothing(check, NextGap(after, tail));
    } else {
      ReadsAsNothingExactly(sound, check, NextGap(after, tail));
    }
    UpToDamage(prev, before, hit.gap, payload, check);
    RestRereads(sound, check, after, tail);
    YieldsAppend(prev, Stream(before, []) + hit.gap + RawFrame(payload, check), Payloads(before),
                 Stream(after, tail), Payloads(after));
  }

  /** The stream of `ContainedExactly` with its checksum byte replaced reads as if the frame were not there. */
  predicate ContainedBefore(prev: byte, before: seq<Packet>, hit: Packet, after: seq<Packet>, tail: seq<byte>,
                            v: byte)
  {
    var at := BodyAt(before, hit) + |hit.payload|;
    && at < |Stream(before + [hit] + after, tail)|
    && Yields(prev, Stream(before + [hit] + after, tail)[at := v], Payloads(before) + Payloads(after))
  }

  /** A wrong checksum is contained, whatever follows the noise, exactly when the noise passes the test. */
  lemma ContainedExactly(prev: byte, before: seq<Packet>, hit: Packet, gap: seq<byte>, v: byte)
    requires Clean(prev, before + [hit], gap)
    requires v != Checksum.Of(hit.payload)
    ensures (forall after: seq<Packet>, tail ::
               NextGap(after, tail) == gap && Clean(prev, before + [hit] + after, tail) ==>
                 ContainedBefore(prev, before, hit, after, tail, v))
            <==> ReadsAsNothing(v, gap)
  {
    if ReadsAsNothing(v, gap) {
      forall after: seq<Packet>, tail | NextGap(after, tail) == gap && Clean(prev, before + [hit] + after, tail)
        ensures ContainedBefore(prev, before, hit, after, tail, v)
      {
        DamageIsContained(prev, before, hit, after, tail, |hit.payload|, v);
      }
    } else {
      assert before + [hit] + [] == before + [hit];
      assert NextGap([], gap) == gap;
      NotContained(prev, before, hit, gap, v);
      assert !ContainedBefore(prev, before, hit, [], gap, v);
    }
  }

  lemma NoMoreYields(prev: byte, a: seq<byte>, b: seq<byte>, payloads: seq<seq<byte>>)
    requires Yields(prev, a, payloads) && Yields(prev, a + b, payloads)
    ensures Yields(Last(prev, a), b, [])
  {
    RunAppend(Rx(prev, Idle), a, b);
    PrevIsLastByte(Rx(prev, Idle), a);
  }

  lemma NotContained(prev: byte, before: seq<Packet>, hit: Packet, gap: seq<byte>, v: byte)
    requires Clean(prev, before + [hit], gap)
    requires v != Checksum.Of(hit.payload) && !ReadsAsNothing(v, gap)
    ensures !ContainedBefore(prev, before, hit, [], gap, v)
  {
    CleanSplit(prev, before, [hit], gap);
    assert [hit][1..] == [];
    hide Yields, RawFrame;
    ReadsAsNothingExactly(Checksum.Of(hit.payload), v, gap);
    DamagedSplit(before, hit, [], gap, |hit.payload|, v, hit.payload, v);
    UpToDamage(prev, before, hit.gap, hit.payload, v);
    assert Payloads(before) + Payloads([]) == Payloads(before);
    var bytes := Stream(before, []) + hit.gap + RawFrame(hit.payload, v);
    assert Stream([], gap) == gap;
    hide Stream, Payloads;
    if Yields(prev, bytes + gap, Payloads(before)) {
      NoMoreYields(prev, bytes, gap, Payloads(before));
    }
  }

  /** A frame that arrives with check FF before a stray 55 swallows the frame behind it. */
  lemma SpuriousHeaderSwallows()
    ensures Output(Rx(0xFF, Idle), [0x55] + Frame([7])) == []
  {
    var bytes: seq<byte> := [0x55, 0xFF] + Frame([7])[1..];
    assert [0x55] + Frame([7]) == bytes;
    var r := Rx(0xFF, Idle);
    RunSnoc(r, [], 0x55);
    RunSnoc(r, [0x55], 0xFF);
    assert [] + [0x55] == [0x55 as byte] && [0x55] + [0xFF] == [0x55 as byte, 0xFF];
    RunAppend(r, [0x55, 0xFF], Frame([7])[1..]);
    BodyFills(0xFF, 0xFF, [], Frame([7])[1..]);
  }

  const ONE_BYTE: Packet := Framed([], [1])
  const AFTER_STRAY: Packet := Framed([0x55], [7])

  lemma StrayIsClean()
    ensures Clean(0, [ONE_BYTE] + [AFTER_STRAY], [])
    ensures Stream([AFTER_STRAY], []) == [0x55] + Frame([7])
  {
    FirstCheck();
    assert ([ONE_BYTE] + [AFTER_STRAY])[1..] == [AFTER_STRAY] && [AFTER_STRAY][1..] == [];
    assert Stream([AFTER_STRAY], []) == [0x55] + Frame([7]) + [];
  }

  /** So the condition on the noise is needed: here a frame that was not hit is lost as well. */
  lemma DamageCanSpread()
    ensures var stream := Stream([ONE_BYTE] + [AFTER_STRAY], []);
            && Clean(0, [ONE_BYTE] + [AFTER_STRAY], [])
            && BodyAt([], ONE_BYTE) + 1 < |stream|
            && Output(Rx(0, Idle), stream[BodyAt([], ONE_BYTE) + 1 := 0xFF]) == []
  {
    StrayIsClean();
    FirstCheck();
    assert [] + [ONE_BYTE] + [AFTER_STRAY] == [ONE_BYTE] + [AFTER_STRAY];
    DamagedSplit([], ONE_BYTE, [AFTER_STRAY], [], 1, 0xFF, [1], 0xFF);
    assert Stream([], []) + ONE_BYTE.gap + RawFrame([1], 0xFF) == RawFrame([1], 0xFF);
    RawFrameYields(0, [1], 0xFF);
    hide Stream, Clean, RawFrame, Run, Output;
    RunAppend(Rx(0, Idle), RawFrame([1], 0xFF), [0x55] + Frame([7]));
    PrevIsLastByte(Rx(0, Idle), RawFrame([1], 0xFF));
    SpuriousHeaderSwallows();
  }

  lemma FirstCheck()
    ensures Checksum.Of([1]) == 0xFE
  {
    assert [1][..0] == [];
    assert Checksum.Sum([1]) == Checksum.Sum([]) + 1;
  }
}
