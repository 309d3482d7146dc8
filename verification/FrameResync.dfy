/** Joining a stream of frames anywhere, in any state, and damage to any byte of it: what is accepted then. */
module FrameResync {
  import opened Config
  import opened FrameParser
  import opened FrameStream
  import Checksum

  /** What follows the header of a frame. */
  function Inner(payload: seq<byte>): seq<byte>
    requires 1 <= |payload| <= 255
  {
    [|payload|] + payload + [Checksum.Of(payload)]
  }

  /** `FF 55` stands at the start of frames and nowhere else. */
  predicate Plain(prev: byte, packets: seq<Packet>, tail: seq<byte>)
    decreases |packets|
  {
    if packets == [] then Quiet(prev, tail)
    else
      && Quiet(prev, packets[0].gap) && Quiet(0x55, Inner(packets[0].payload))
      && Plain(Checksum.Of(packets[0].payload), packets[1..], tail)
  }

  lemma {:induction false} PlainIsClean(prev: byte, packets: seq<Packet>, tail: seq<byte>)
    requires Plain(prev, packets, tail)
    ensures Clean(prev, packets, tail)
    decreases |packets|
  {
    if packets != [] {
      PlainIsClean(Checksum.Of(packets[0].payload), packets[1..], tail);
    }
  }

  /** Length of the first frame with the noise in front of it. */
  function FirstLength(p: Packet): nat {
    |p.gap| + |p.payload| + 4
  }

  /** Frames whose 55 stands before position `m`. */
  function FramesBegun(packets: seq<Packet>, m: nat): (n: nat)
    ensures n <= |packets|
  {
    if packets == [] || m <= |packets[0].gap| + 1 then 0
    else 1 + FramesBegun(packets[1..], if m <= FirstLength(packets[0]) then 0 else m - FirstLength(packets[0]))
  }

  /** Frames whose last byte stands before position `m`. */
  function FramesEnded(packets: seq<Packet>, m: nat): (n: nat)
    ensures n <= |packets|
  {
    if packets == [] || m < FirstLength(packets[0]) then 0
    else 1 + FramesEnded(packets[1..], m - FirstLength(packets[0]))
  }

  predicate OpensAt(prev: byte, bytes: seq<byte>, i: nat)
    requires i < |bytes|
  {
    Opens(Before(prev, bytes, i), bytes[i])
  }

  /** Position `i` holds the 55 of a frame. */
  predicate IsHeader(packets: seq<Packet>, i: nat) {
    FramesBegun(packets, i + 1) == FramesBegun(packets, i) + 1
  }

  predicate OnlyHeaders(prev: byte, packets: seq<Packet>, stream: seq<byte>) {
    forall i: nat :: i < |stream| && OpensAt(prev, stream, i) ==> IsHeader(packets, i)
  }

  lemma PositionInFirst(prev: byte, packets: seq<Packet>, tail: seq<byte>, i: nat)
    requires packets != [] && i < FirstLength(packets[0])
    ensures var gap, inner, stream := packets[0].gap, Inner(packets[0].payload), Stream(packets, tail);
            && i < |stream| && |inner| == |packets[0].payload| + 2
            && (i < |gap| ==> (OpensAt(prev, stream, i) <==> OpensAt(prev, gap, i)) && !IsHeader(packets, i))
            && (i == |gap| ==> !OpensAt(prev, stream, i))
            && (i == |gap| + 1 ==> IsHeader(packets, i))
            && (i >= |gap| + 2 ==>
                  (OpensAt(prev, stream, i) <==> OpensAt(0x55, inner, i - |gap| - 2)) && !IsHeader(packets, i))
  {
    StreamFirstParts(packets, tail);
    NoneBegun(packets[1..]);
  }

  lemma NoneBegun(packets: seq<Packet>)
    ensures FramesBegun(packets, 0) == 0
  {
  }

  lemma PositionInRest(prev: byte, packets: seq<Packet>, tail: seq<byte>, i: nat)
    requires packets != [] && FirstLength(packets[0]) <= i < |Stream(packets, tail)|
    ensures var rest, k := Stream(packets[1..], tail), i - FirstLength(packets[0]);
            && k < |rest|
            && (OpensAt(prev, Stream(packets, tail), i) <==> OpensAt(Checksum.Of(packets[0].payload), rest, k))
            && (IsHeader(packets, i) <==> IsHeader(packets[1..], k))
  {
    StreamFirstParts(packets, tail);
    NoneBegun(packets[1..]);
  }

  lemma HeadersOnlyInFirst(prev: byte, packets: seq<Packet>, tail: seq<byte>)
    requires packets != [] && OnlyHeaders(prev, packets, Stream(packets, tail))
    ensures Quiet(prev, packets[0].gap) && Quiet(0x55, Inner(packets[0].payload))
    ensures OnlyHeaders(Checksum.Of(packets[0].payload), packets[1..], Stream(packets[1..], tail))
  {
    var gap, inner, n := packets[0].gap, Inner(packets[0].payload), FirstLength(packets[0]);
    var check, stream, rest := Checksum.Of(packets[0].payload), Stream(packets, tail), Stream(packets[1..], tail);
    StreamFirstParts(packets, tail);
    assert |stream| == n + |rest| && |inner| + |gap| + 2 == n;
    hide Stream, Inner, IsHeader, Opens, Checksum.Of;
    forall i | 0 <= i < |gap| ensures !Opens(Before(prev, gap, i), gap[i]) {
      PositionInFirst(prev, packets, tail, i);
      assert !OpensAt(prev, stream, i) && !OpensAt(prev, gap, i);
    }
    forall i | 0 <= i < |inner| ensures !Opens(Before(0x55, inner, i), inner[i]) {
      PositionInFirst(prev, packets, tail, |gap| + 2 + i);
      assert !OpensAt(prev, stream, |gap| + 2 + i) && !OpensAt(0x55, inner, i);
    }
    forall k: nat | k < |rest| && OpensAt(check, rest, k) ensures IsHeader(packets[1..], k) {
      PositionInRest(prev, packets, tail, n + k);
      assert OpensAt(prev, stream, n + k);
    }
  }

  lemma QuietNeverOpens(prev: byte, gap: seq<byte>)
    requires Quiet(prev, gap)
    ensures forall i: nat :: i < |gap| ==> !OpensAt(prev, gap, i)
  {
  }

  lemma HeadersOnlyFromFirst(prev: byte, packets: seq<Packet>, tail: seq<byte>)
    requires packets != []
    requires Quiet(prev, packets[0].gap) && Quiet(0x55, Inner(packets[0].payload))
    requires OnlyHeaders(Checksum.Of(packets[0].payload), packets[1..], Stream(packets[1..], tail))
    ensures OnlyHeaders(prev, packets, Stream(packets, tail))
  {
    var gap, inner, n := packets[0].gap, Inner(packets[0].payload), FirstLength(packets[0]);
    var check, stream, rest := Checksum.Of(packets[0].payload), Stream(packets, tail), Stream(packets[1..], tail);
    StreamFirstParts(packets, tail);
    assert |stream| == n + |rest| && |inner| + |gap| + 2 == n;
    QuietNeverOpens(prev, gap);
    QuietNeverOpens(0x55, inner);
    hide Stream, Inner, IsHeader, OpensAt, Quiet, Checksum.Of;
    forall i: nat | i < |stream| && OpensAt(prev, stream, i) ensures IsHeader(packets, i) {
      if i < n {
        PositionInFirst(prev, packets, tail, i);
      } else {
        PositionInRest(prev, packets, tail, i);
      }
    }
  }

  /** In terms of positions: every header pair in the stream is the header of one of its frames. */
  lemma {:induction false} PlainExactly(prev: byte, packets: seq<Packet>, tail: seq<byte>)
    ensures Plain(prev, packets, tail) <==> OnlyHeaders(prev, packets, Stream(packets, tail))
    decreases |packets|
  {
    if packets == [] {
      assert forall i: nat :: i < |tail| ==> OpensAt(prev, tail, i) == Opens(Before(prev, tail, i), tail[i]);
    } else {
      PlainExactly(Checksum.Of(packets[0].payload), packets[1..], tail);
      hide Stream, Inner, Quiet, OnlyHeaders;
      if OnlyHeaders(prev, packets, Stream(packets, tail)) {
        HeadersOnlyInFirst(prev, packets, tail);
      }
      if Plain(prev, packets, tail) {
        HeadersOnlyFromFirst(prev, packets, tail);
      }
    }
  }

  // ---- From any idle moment on ----

  lemma QuietFrom(prev: byte, gap: seq<byte>, m: nat)
    requires Quiet(prev, gap) && m <= |gap|
    ensures Yields(Last(prev, gap[..m]), gap[m..], [])
  {
    if m == 0 {
      QuietYieldsNothing(prev, gap);
      assert gap[0..] == gap;
    } else {
      QuietTail(prev, gap, m);
    }
  }

  lemma StreamFirstParts(packets: seq<Packet>, tail: seq<byte>)
    requires packets != []
    ensures Stream(packets, tail)
            == packets[0].gap + ([0xFF, 0x55] + Inner(packets[0].payload)) + Stream(packets[1..], tail)
    ensures |packets[0].gap + ([0xFF, 0x55] + Inner(packets[0].payload))| == FirstLength(packets[0])
  {
  }

  lemma SecondHalf(payload: seq<byte>)
    requires 1 <= |payload| <= 255
    ensures Yields(0xFF, [0x55] + Inner(payload), [payload])
    ensures Last(0xFF, [0x55] + Inner(payload)) == Checksum.Of(payload)
  {
    hide Run, Output;
    RunCons(Rx(0xFF, Idle), 0x55, Inner(payload));
    WholeFrame(0x55, payload, Checksum.Of(payload));
  }

  /** The first frame in its stream, and that what follows it is received. */
  lemma FirstAndRest(prev: byte, packets: seq<Packet>, tail: seq<byte>)
    requires packets != [] && Plain(prev, packets, tail)
    ensures var gap, payload, rest := packets[0].gap, packets[0].payload, Stream(packets[1..], tail);
            && Stream(packets, tail) == gap + ([0xFF, 0x55] + Inner(payload)) + rest
            && Frame(payload) == [0xFF, 0x55] + Inner(payload)
            && Quiet(prev, gap) && Quiet(0x55, Inner(payload))
            && Yields(Checksum.Of(payload), rest, Payloads(packets[1..]))
            && Payloads(packets) == [payload] + Payloads(packets[1..])
  {
    StreamFirstParts(packets, tail);
    PlainIsClean(Checksum.Of(packets[0].payload), packets[1..], tail);
    RoundTrip(Checksum.Of(packets[0].payload), packets[1..], tail);
    PayloadsFirst(packets);
  }

  lemma CutNoise(gap: seq<byte>, frame: seq<byte>, rest: seq<byte>, m: nat)
    requires m <= |gap|
    ensures (gap + frame + rest)[m..] == gap[m..] + frame + rest && (gap + frame + rest)[..m] == gap[..m]
  {
  }

  lemma CutHeader(gap: seq<byte>, inner: seq<byte>, rest: seq<byte>)
    ensures var stream := gap + ([0xFF, 0x55] + inner) + rest;
            stream[|gap| + 1..] == ([0x55] + inner) + rest && stream[|gap|] == 0xFF
  {
  }

  lemma CutMiddle(front: seq<byte>, middle: seq<byte>, rest: seq<byte>, k: nat)
    requires k <= |middle|
    ensures (front + middle + rest)[|front| + k..] == middle[k..] + rest
    ensures (front + middle + rest)[..|front| + k] == front + middle[..k]
  {
  }

  lemma CutInner(prev: byte, gap: seq<byte>, inner: seq<byte>, rest: seq<byte>, k: nat)
    requires k <= |inner|
    ensures var stream, m := gap + ([0xFF, 0x55] + inner) + rest, |gap| + 2 + k;
            && stream[m..] == inner[k..] + rest
            && Last(prev, stream[..m]) == Last(0x55, inner[..k])
  {
    var front: seq<byte> := gap + [0xFF, 0x55];
    assert gap + ([0xFF, 0x55] + inner) == front + inner;
    CutMiddle(front, inner, rest, k);
    LastOfJoin(prev, front, inner[..k]);
  }

  lemma LastOfJoin(prev: byte, a: seq<byte>, b: seq<byte>)
    ensures Last(prev, a + b) == Last(Last(prev, a), b)
  {
  }

  /** From the noise before a frame, at any place, or from between its FF and its 55. */
  lemma FromBefore(prev: byte, packets: seq<Packet>, tail: seq<byte>, m: nat)
    requires packets != [] && Plain(prev, packets, tail) && m <= |packets[0].gap| + 1
    ensures m <= |Stream(packets, tail)|
    ensures Yields(Last(prev, Stream(packets, tail)[..m]), Stream(packets, tail)[m..], Payloads(packets))
  {
    hide Stream, Yields, Payloads, Plain, Quiet, Frame, Inner;
    FirstAndRest(prev, packets, tail);
    var gap, payload := packets[0].gap, packets[0].payload;
    var rest := Stream(packets[1..], tail);
    if m <= |gap| {
      QuietFrom(prev, gap, m);
      CutNoise(gap, Frame(payload), rest, m);
      FrameAndRest(Last(prev, gap[..m]), gap[m..], payload, rest, Payloads(packets[1..]));
    } else {
      CutHeader(gap, Inner(payload), rest);
      SecondHalf(payload);
      YieldsAppend(0xFF, [0x55] + Inner(payload), [payload], rest, Payloads(packets[1..]));
    }
  }

  lemma WithinReads(prev: byte, gap: seq<byte>, inner: seq<byte>, rest: seq<byte>, k: nat, payloads: seq<seq<byte>>)
    requires Quiet(0x55, inner) && k <= |inner| && Yields(Last(0x55, inner), rest, payloads)
    ensures var stream, m := gap + ([0xFF, 0x55] + inner) + rest, |gap| + 2 + k;
            Yields(Last(prev, stream[..m]), stream[m..], payloads)
  {
    hide Quiet, Yields, Last;
    RestOfInner(inner, rest, k, payloads);
    CutInner(prev, gap, inner, rest, k);
  }

  lemma RestOfInner(inner: seq<byte>, rest: seq<byte>, k: nat, payloads: seq<seq<byte>>)
    requires Quiet(0x55, inner) && k <= |inner| && Yields(Last(0x55, inner), rest, payloads)
    ensures Yields(Last(0x55, inner[..k]), inner[k..] + rest, payloads)
  {
    hide Quiet, Yields, Last;
    QuietFrom(0x55, inner, k);
    LastOfJoin(0x55, inner[..k], inner[k..]);
    assert inner[..k] + inner[k..] == inner;
    YieldsAppend(Last(0x55, inner[..k]), inner[k..], [], rest, payloads);
    assert [] + payloads == payloads;
  }

  lemma InnerEnds(payload: seq<byte>)
    requires 1 <= |payload| <= 255
    ensures |Inner(payload)| == |payload| + 2 && Last(0x55, Inner(payload)) == Checksum.Of(payload)
  {
  }

  /** From behind the header of a frame that was missed. */
  lemma FromWithin(prev: byte, packets: seq<Packet>, tail: seq<byte>, m: nat)
    requires packets != [] && Plain(prev, packets, tail)
    requires |packets[0].gap| + 2 <= m <= FirstLength(packets[0])
    ensures m <= |Stream(packets, tail)|
    ensures Yields(Last(prev, Stream(packets, tail)[..m]), Stream(packets, tail)[m..], Payloads(packets[1..]))
  {
    hide Stream, Yields, Payloads, Plain, Quiet, Frame, Inner, Last;
    var gap, inner := packets[0].gap, Inner(packets[0].payload);
    InnerEnds(packets[0].payload);
    FirstAndRest(prev, packets, tail);
    WithinReads(prev, gap, inner, Stream(packets[1..], tail), m - |gap| - 2, Payloads(packets[1..]));
    assert |gap| + 2 + (m - |gap| - 2) == m;
  }

  /** Idle at any position, with the byte before it read: all frames whose 55 is still to come are accepted. */
  lemma {:induction false} FromIdle(prev: byte, packets: seq<Packet>, tail: seq<byte>, m: nat)
    requires Plain(prev, packets, tail) && m <= |Stream(packets, tail)|
    ensures Yields(Last(prev, Stream(packets, tail)[..m]), Stream(packets, tail)[m..],
                   Payloads(packets[FramesBegun(packets, m)..]))
    decreases |packets|
  {
    if packets == [] {
      QuietFrom(prev, tail, m);
    } else if m <= |packets[0].gap| + 1 {
      FromBefore(prev, packets, tail, m);
      assert packets[0..] == packets;
    } else if m <= FirstLength(packets[0]) {
      FromWithin(prev, packets, tail, m);
      assert FramesBegun(packets[1..], 0) == 0;
    } else {
      var check := Checksum.Of(packets[0].payload);
      FromIdle(check, packets[1..], tail, m - FirstLength(packets[0]));
      FromLater(prev, packets, tail, m);
    }
  }

  lemma FromLater(prev: byte, packets: seq<Packet>, tail: seq<byte>, m: nat)
    requires packets != [] && FirstLength(packets[0]) < m <= |Stream(packets, tail)|
    ensures var rest, k := Stream(packets[1..], tail), m - FirstLength(packets[0]);
            && k <= |rest|
            && Stream(packets, tail)[m..] == rest[k..]
            && Last(prev, Stream(packets, tail)[..m]) == Last(Checksum.Of(packets[0].payload), rest[..k])
            && packets[FramesBegun(packets, m)..] == packets[1..][FramesBegun(packets[1..], k)..]
  {
    var first := packets[0].gap + ([0xFF, 0x55] + Inner(packets[0].payload));
    StreamFirstParts(packets, tail);
    CutFirst(first, Stream(packets[1..], tail), m, prev, Checksum.Of(packets[0].payload));
    hide Stream, Inner;
  }

  lemma CutFirst(first: seq<byte>, rest: seq<byte>, m: nat, prev: byte, check: byte)
    requires |first| < m <= |first| + |rest|
    ensures (first + rest)[m..] == rest[m - |first|..]
    ensures Last(prev, (first + rest)[..m]) == Last(check, rest[..m - |first|])
  {
    assert (first + rest)[..m][m - 1] == rest[m - |first| - 1];
  }

  // ---- From any state ----

  /** After `n` more bytes the parser is idle, and it was not in between. */
  predicate FirstIdle(r: Rx, bytes: seq<byte>, n: nat) {
    && 0 < n <= |bytes|
    && Run(r, bytes[..n]).mode.Idle?
    && forall k :: 0 < k < n ==> !Run(r, bytes[..k]).mode.Idle?
  }

  lemma IdleWithin(r: Rx, bytes: seq<byte>, n: nat)
    requires FirstIdle(r, bytes, n)
    ensures 0 < n <= |bytes|
  {
  }

  lemma EmitEnds(r: Rx, b: byte)
    ensures Emit(r, b) != [] ==> Step(r, b).mode.Idle? && |Emit(r, b)| == 1
  {
  }

  lemma {:induction false} NothingWhileOpen(r: Rx, bytes: seq<byte>)
    requires forall k :: 0 < k <= |bytes| ==> !Run(r, bytes[..k]).mode.Idle?
    ensures Output(r, bytes) == []
    decreases |bytes|
  {
    hide Run, Output;
    if bytes == [] {
      RunNothing(r);
    } else {
      var front, b := bytes[..|bytes| - 1], bytes[|bytes| - 1];
      assert bytes == front + [b] && bytes[..|bytes|] == bytes;
      forall k | 0 < k <= |front| ensures !Run(r, front[..k]).mode.Idle? {
        assert front[..k] == bytes[..k];
      }
      NothingWhileOpen(r, front);
      RunSnoc(r, front, b);
      EmitEnds(Run(r, front), b);
    }
  }

  lemma RunNothing(r: Rx)
    ensures Run(r, []) == r && Output(r, []) == []
  {
  }

  /** Up to the first idle moment at most one payload is accepted. */
  lemma {:induction false} OneUntilIdle(r: Rx, bytes: seq<byte>, n: nat)
    requires FirstIdle(r, bytes, n)
    ensures |Output(r, bytes[..n])| <= 1
  {
    hide Run, Output;
    var front, b := bytes[..n - 1], bytes[n - 1];
    assert bytes[..n] == front + [b];
    forall k | 0 < k <= |front| ensures !Run(r, front[..k]).mode.Idle? {
      assert front[..k] == bytes[..k];
    }
    NothingWhileOpen(r, front);
    RunSnoc(r, front, b);
    EmitEnds(Run(r, front), b);
  }

  /** There is such a moment within 258 bytes, if the stream goes on for that long. */
  lemma {:induction false} IdleAgain(r: Rx, bytes: seq<byte>) returns (n: nat)
    requires Consistent(r) && |bytes| >= 258
    ensures FirstIdle(r, bytes, n) && n <= 258
  {
    var next, rest := Step(r, bytes[0]), bytes[1..];
    Recovers(next, rest);
    n := 1 + BytesToIdle(next, rest);
    forall k | 0 < k <= n ensures Run(r, bytes[..k]) == Run(next, rest[..k - 1]) {
      assert bytes[..k][1..] == rest[..k - 1];
    }
  }

  /** Joining the stream at position `d` in any state: at most one payload that need not have been sent, and from
      the first idle moment on every frame whose 55 was still to come, in order. */
  lemma {:induction false} Resync(prev: byte, packets: seq<Packet>, tail: seq<byte>, d: nat, r: Rx, n: nat)
    requires Plain(prev, packets, tail) && d <= |Stream(packets, tail)|
    requires FirstIdle(r, Stream(packets, tail)[d..], n)
    ensures var bytes := Stream(packets, tail)[d..];
            && |Output(r, bytes[..n])| <= 1
            && Output(r, bytes) == Output(r, bytes[..n]) + Payloads(packets[FramesBegun(packets, d + n)..])
            && Run(r, bytes).mode.Idle?
  {
    hide Run, Output, Stream, Plain, Payloads;
    var stream := Stream(packets, tail);
    FromIdle(prev, packets, tail, d + n);
    OneUntilIdle(r, stream[d..], n);
    ReadOn(prev, stream, d, r, n);
  }

  lemma ReadOn(prev: byte, stream: seq<byte>, d: nat, r: Rx, n: nat)
    requires d <= |stream| && FirstIdle(r, stream[d..], n)
    ensures var idle := Rx(Last(prev, stream[..d + n]), Idle);
            && Output(r, stream[d..]) == Output(r, stream[d..][..n]) + Output(idle, stream[d + n..])
            && Run(r, stream[d..]) == Run(idle, stream[d + n..])
  {
    hide Run, Output;
    var bytes := stream[d..];
    assert bytes == bytes[..n] + stream[d + n..];
    RunAppend(r, bytes[..n], stream[d + n..]);
    PrevIsLastByte(r, bytes[..n]);
    assert bytes[..n][n - 1] == stream[..d + n][d + n - 1];
  }

  // ---- Damage to any byte ----

  /** A full body whose checksum comes next. */
  predicate Full(r: Rx) {
    r.mode.Body? && |r.mode.got| >= r.mode.len
  }

  /** Part of a frame, header included: no payload yet, and when the body is full its checksum is next. */
  lemma PartOfFrame(payload: seq<byte>, k: nat)
    requires 1 <= |payload| <= 255 && k < |Inner(payload)|
    ensures var r := Run(Rx(0xFF, Idle), [0x55] + Inner(payload)[..k]);
            && Output(Rx(0xFF, Idle), [0x55] + Inner(payload)[..k]) == []
            && (Full(r) ==> Inner(payload)[k] == Checksum.Of(r.mode.got))
  {
    hide Run, Output;
    var part := Inner(payload)[..k];
    RunCons(Rx(0xFF, Idle), 0x55, part);
    RunNothing(Rx(0x55, AwaitLength));
    if k > 0 {
      var len: byte := |payload|;
      assert part == [len] + payload[..k - 1];
      RunCons(Rx(0x55, AwaitLength), len, payload[..k - 1]);
      BodyFills(len, len, [], payload[..k - 1]);
      assert [] + payload[..k - 1] == payload[..k - 1];
      if k - 1 == |payload| {
        assert payload[..k - 1] == payload;
      }
    }
  }

  lemma QuietUpTo(prev: byte, gap: seq<byte>, d: nat)
    requires Quiet(prev, gap) && d <= |gap|
    ensures Yields(prev, gap[..d], []) && Yields(prev, gap + [0xFF], [])
  {
    forall i | 0 <= i < d ensures !Opens(Before(prev, gap[..d], i), gap[..d][i]) {
      assert !Opens(Before(prev, gap, i), gap[i]);
    }
    forall i | 0 <= i < |gap + [0xFF]| ensures !Opens(Before(prev, gap + [0xFF], i), (gap + [0xFF])[i]) {
      if i < |gap| {
        assert !Opens(Before(prev, gap, i), gap[i]);
      }
    }
    QuietYieldsNothing(prev, gap[..d]);
    QuietYieldsNothing(prev, gap + [0xFF]);
  }

  /** What has been read of a sound stream, with `next` to come. */
  predicate SoundSoFar(prev: byte, bytes: seq<byte>, payloads: seq<seq<byte>>, next: seq<byte>) {
    var r := Run(Rx(prev, Idle), bytes);
    && Output(Rx(prev, Idle), bytes) == payloads
    && (next != [] && Full(r) ==> next[0] == Checksum.Of(r.mode.got))
  }

  lemma SoundInFirst(prev: byte, gap: seq<byte>, payload: seq<byte>, rest: seq<byte>, d: nat)
    requires Quiet(prev, gap) && 1 <= |payload| <= 255 && d < |gap| + |payload| + 4
    ensures var stream := gap + ([0xFF, 0x55] + Inner(payload)) + rest;
            SoundSoFar(prev, stream[..d], [], stream[d..])
  {
    var stream := gap + ([0xFF, 0x55] + Inner(payload)) + rest;
    if d <= |gap| {
      QuietUpTo(prev, gap, d);
      assert stream[..d] == gap[..d];
    } else {
      QuietUpTo(prev, gap, 0);
      if d == |gap| + 1 {
        assert stream[..d] == gap + [0xFF];
      } else {
        var k := d - |gap| - 2;
        var part := [0x55] + Inner(payload)[..k];
        assert stream[..d] == (gap + [0xFF]) + part;
        assert stream[d] == Inner(payload)[k];
        hide Run, Output;
        RunAppend(Rx(prev, Idle), gap + [0xFF], part);
        PrevIsLastByte(Rx(prev, Idle), gap + [0xFF]);
        PartOfFrame(payload, k);
      }
    }
  }

  lemma FirstYields(prev: byte, gap: seq<byte>, payload: seq<byte>)
    requires Quiet(prev, gap) && 1 <= |payload| <= 255
    ensures Yields(prev, gap + ([0xFF, 0x55] + Inner(payload)), [payload])
    ensures Last(prev, gap + ([0xFF, 0x55] + Inner(payload))) == Checksum.Of(payload)
  {
    assert Frame(payload) == [0xFF, 0x55] + Inner(payload);
    QuietYieldsNothing(prev, gap);
    RawFrameYields(Last(prev, gap), payload, Checksum.Of(payload));
    hide Yields, Quiet, Inner, RawFrame;
    YieldsAppend(prev, gap, [], Frame(payload), [payload]);
    assert [] + [payload] == [payload];
  }

  /** A stretch read to its end does not change what is sound behind it. */
  lemma SoundLater(prev: byte, first: seq<byte>, payload: seq<byte>, rest: seq<byte>, d: nat,
                   payloads: seq<seq<byte>>)
    requires Yields(prev, first, [payload]) && d <= |rest|
    requires SoundSoFar(Last(prev, first), rest[..d], payloads, rest[d..])
    ensures SoundSoFar(prev, (first + rest)[..|first| + d], [payload] + payloads, (first + rest)[|first| + d..])
  {
    hide Run, Output;
    assert (first + rest)[..|first| + d] == first + rest[..d];
    assert (first + rest)[|first| + d..] == rest[d..];
    RunAppend(Rx(prev, Idle), first, rest[..d]);
    PrevIsLastByte(Rx(prev, Idle), first);
  }

  lemma FirstEnded(packets: seq<Packet>, d: nat)
    requires packets != [] && d >= FirstLength(packets[0])
    ensures Payloads(packets[..FramesEnded(packets, d)])
            == [packets[0].payload]
               + Payloads(packets[1..][..FramesEnded(packets[1..], d - FirstLength(packets[0]))])
  {
    var n := FramesEnded(packets[1..], d - FirstLength(packets[0]));
    assert packets[..1 + n][1..] == packets[1..][..n];
    PayloadsFirst(packets[..1 + n]);
  }

  /** Of a sound stream the frames that have ended were accepted, and every full body is followed by its checksum. */
  lemma {:induction false} ReadSoFar(prev: byte, packets: seq<Packet>, tail: seq<byte>, d: nat)
    requires Clean(prev, packets, tail) && d <= |Stream(packets, tail)|
    ensures SoundSoFar(prev, Stream(packets, tail)[..d], Payloads(packets[..FramesEnded(packets, d)]),
                       Stream(packets, tail)[d..])
    decreases |packets|
  {
    hide SoundSoFar, Payloads, Stream, Inner, Yields, Quiet, RawFrame, Checksum.Of;
    if packets == [] {
      OnlyTail(tail);
      SoundTail(prev, tail, d);
    } else {
      var p, rest := packets[0], Stream(packets[1..], tail);
      StreamFirstParts(packets, tail);
      if d < FirstLength(p) {
        SoundInFirst(prev, p.gap, p.payload, rest, d);
        NothingEnded(packets, d);
      } else {
        var k := d - FirstLength(p);
        ReadSoFar(Checksum.Of(p.payload), packets[1..], tail, k);
        FirstYields(prev, p.gap, p.payload);
        FirstEnded(packets, d);
        SoundLater(prev, p.gap + ([0xFF, 0x55] + Inner(p.payload)), p.payload, rest, k,
                   Payloads(packets[1..][..FramesEnded(packets[1..], k)]));
      }
    }
  }

  lemma NothingEnded(packets: seq<Packet>, d: nat)
    requires packets != [] && d < FirstLength(packets[0])
    ensures Payloads(packets[..FramesEnded(packets, d)]) == []
  {
  }

  lemma OnlyTail(tail: seq<byte>)
    ensures Stream([], tail) == tail
  {
  }

  lemma SoundTail(prev: byte, tail: seq<byte>, d: nat)
    requires Quiet(prev, tail) && d <= |tail|
    ensures Payloads([][..FramesEnded([], d)]) == []
    ensures SoundSoFar(prev, tail[..d], [], tail[d..])
  {
    QuietUpTo(prev, tail, d);
  }

  /** A byte that is not the one to come completes no payload. */
  lemma WrongByte(prev: byte, bytes: seq<byte>, payloads: seq<seq<byte>>, next: seq<byte>, v: byte)
    requires SoundSoFar(prev, bytes, payloads, next) && next != [] && v != next[0]
    ensures Output(Rx(prev, Idle), bytes + [v]) == payloads
  {
    hide Run, Output;
    RunSnoc(Rx(prev, Idle), bytes, v);
  }

  lemma DamagedReads(prev: byte, stream: seq<byte>, d: nat, v: byte, before: seq<seq<byte>>,
                     spurious: seq<seq<byte>>, after: seq<seq<byte>>)
    requires d < |stream| && v != stream[d] && SoundSoFar(prev, stream[..d], before, stream[d..])
    requires Output(Run(Rx(prev, Idle), stream[..d] + [v]), stream[d + 1..]) == spurious + after
    ensures var r := Run(Rx(prev, Idle), stream[..d] + [v]);
            && Output(Rx(prev, Idle), stream[d := v]) == before + spurious + after
            && Run(Rx(prev, Idle), stream[d := v]) == Run(r, stream[d + 1..])
  {
    hide Run, Output, SoundSoFar;
    WrongByte(prev, stream[..d], before, stream[d..], v);
    assert stream[d := v] == (stream[..d] + [v]) + stream[d + 1..];
    RunAppend(Rx(prev, Idle), stream[..d] + [v], stream[d + 1..]);
  }

  /** One byte anywhere in the stream, header and length bytes included, is replaced: the frames that ended before it
      are accepted, then at most one payload that need not have been sent, and from the first idle moment behind the
      byte on every frame whose 55 was still to come. */
  lemma {:induction false} AnyDamage(prev: byte, packets: seq<Packet>, tail: seq<byte>, d: nat, v: byte, n: nat)
    requires Plain(prev, packets, tail) && d < |Stream(packets, tail)| && v != Stream(packets, tail)[d]
    requires FirstIdle(Run(Rx(prev, Idle), Stream(packets, tail)[..d] + [v]), Stream(packets, tail)[d + 1..], n)
    ensures var stream := Stream(packets, tail);
            var r := Run(Rx(prev, Idle), stream[..d] + [v]);
            var spurious := Output(r, stream[d + 1..][..n]);
            && |spurious| <= 1
            && Output(Rx(prev, Idle), stream[d := v])
               == Payloads(packets[..FramesEnded(packets, d)]) + spurious
                  + Payloads(packets[FramesBegun(packets, d + 1 + n)..])
            && Run(Rx(prev, Idle), stream[d := v]).mode.Idle?
  {
    hide Run, Output, Stream, Plain, Clean, Payloads, FirstIdle, SoundSoFar, FramesEnded, FramesBegun, Quiet;
    var stream := Stream(packets, tail);
    var r := Run(Rx(prev, Idle), stream[..d] + [v]);
    assert n <= |stream[d + 1..]| by { IdleWithin(r, stream[d + 1..], n); }
    PlainIsClean(prev, packets, tail);
    ReadSoFar(prev, packets, tail, d);
    Resync(prev, packets, tail, d + 1, r, n);
    DamagedReads(prev, stream, d, v, Payloads(packets[..FramesEnded(packets, d)]),
                 Output(r, stream[d + 1..][..n]), Payloads(packets[FramesBegun(packets, d + 1 + n)..]));
  }
}
