/** A received stream cut into pieces where a frame was abandoned, and what its parse is. */
module FrameSegments {
  import opened Config
  import opened FrameParser

  /** Each piece is parsed on its own, except that the byte before it still counts for the first header. */
  function ParseAll(prev: byte, segments: seq<seq<byte>>): seq<seq<byte>>
    decreases |segments|
  {
    if segments == [] then [] else Parse(prev, segments[0]) + ParseAll(Last(prev, segments[0]), segments[1..])
  }

  /** The last byte of a list of pieces. */
  function LastOf(prev: byte, segments: seq<seq<byte>>): byte
    decreases |segments|
  {
    if segments == [] then prev else LastOf(Last(prev, segments[0]), segments[1..])
  }

  /** The last piece grows. */
  function AddByte(segments: seq<seq<byte>>, b: byte): (longer: seq<seq<byte>>)
    requires segments != []
    ensures longer != []
  {
    Closed(segments) + [Open(segments) + [b]]
  }

  function Closed(segments: seq<seq<byte>>): seq<seq<byte>>
    requires segments != []
  {
    segments[..|segments| - 1]
  }

  function Open(segments: seq<seq<byte>>): seq<byte>
    requires segments != []
  {
    segments[|segments| - 1]
  }

  lemma {:induction false} ParseAllSnoc(prev: byte, segments: seq<seq<byte>>, piece: seq<byte>)
    ensures ParseAll(prev, segments + [piece]) == ParseAll(prev, segments) + Parse(LastOf(prev, segments), piece)
    ensures LastOf(prev, segments + [piece]) == Last(LastOf(prev, segments), piece)
    decreases |segments|
  {
    if segments == [] {
      assert segments + [piece] == [piece] && [piece][1..] == [];
      assert ParseAll(Last(prev, piece), []) == [];
    } else {
      assert (segments + [piece])[1..] == segments[1..] + [piece];
      ParseAllSnoc(Last(prev, segments[0]), segments[1..], piece);
    }
  }

  /** The open piece accounts for the parser state, the closed ones for the rest of the output. */
  predicate Explained(prev: byte, segments: seq<seq<byte>>, rx: Rx, accepted: seq<seq<byte>>) {
    && segments != []
    && var r := Rx(LastOf(prev, Closed(segments)), Idle);
    && rx == Run(r, Open(segments))
    && accepted == ParseAll(prev, Closed(segments)) + Output(r, Open(segments))
  }

  lemma ExplainStart(prev: byte)
    ensures Explained(prev, [[]], Rx(prev, Idle), [])
  {
    assert Closed([[]]) == [];
  }

  lemma ExplainByte(prev: byte, segments: seq<seq<byte>>, rx: Rx, accepted: seq<seq<byte>>, b: byte)
    requires Explained(prev, segments, rx, accepted)
    ensures Explained(prev, AddByte(segments, b), Step(rx, b), accepted + Emit(rx, b))
  {
    RunSnoc(Rx(LastOf(prev, Closed(segments)), Idle), Open(segments), b);
    assert Closed(AddByte(segments, b)) == Closed(segments);
  }

  lemma NothingRead(r: Rx)
    ensures Run(r, []) == r && Output(r, []) == []
  {
  }

  lemma ExplainCut(prev: byte, segments: seq<seq<byte>>, rx: Rx, accepted: seq<seq<byte>>)
    requires Explained(prev, segments, rx, accepted)
    ensures Explained(prev, segments + [[]], Rx(rx.prev, Idle), accepted)
  {
    hide ParseAll, Parse, Run, Output;
    ExplainedIsParsed(prev, segments, rx, accepted);
    var closed, piece := Closed(segments), Open(segments);
    assert Run(Rx(rx.prev, Idle), []) == Rx(rx.prev, Idle) && Output(Rx(rx.prev, Idle), []) == [] by {
      NothingRead(Rx(rx.prev, Idle));
    }
    assert segments == closed + [piece] && Closed(segments + [[]]) == segments;
    ParseAllSnoc(prev, closed, piece);
    PrevIsLastByte(Rx(LastOf(prev, closed), Idle), piece);
  }

  lemma ExplainedIsParsed(prev: byte, segments: seq<seq<byte>>, rx: Rx, accepted: seq<seq<byte>>)
    requires Explained(prev, segments, rx, accepted)
    ensures accepted == ParseAll(prev, segments)
  {
    hide ParseAll, Parse, Run, Output, LastOf;
    assert segments == Closed(segments) + [Open(segments)];
    ParseAllSnoc(prev, Closed(segments), Open(segments));
    OutputIsParse(LastOf(prev, Closed(segments)), Open(segments));
  }

  lemma OnePieceExplains(prev: byte, piece: seq<byte>, rx: Rx, accepted: seq<seq<byte>>)
    requires Explained(prev, [piece], rx, accepted)
    ensures rx == Run(Rx(prev, Idle), piece) && accepted == Parse(prev, piece)
  {
    assert Closed([piece]) == [];
    ExplainedIsParsed(prev, [piece], rx, accepted);
    ParseAllSnoc(prev, [], piece);
    assert [] + [piece] == [piece];
  }
}
