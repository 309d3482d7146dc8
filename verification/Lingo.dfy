/** The lingo handlers: which positions of a payload they read, and which numbers they find there. */
module Lingo {
  import opened Config
  import opened Endian
  import opened Pipeline
  import opened ShortFrame

  const GENERAL_LINGO := 0x00
  const EXTENDED_LINGO := 0x04

  /** Identify, RequestLingoProtocolVersion and RetAccessoryInfo log the byte behind the command. */
  const ARGUMENT_COMMANDS := {0x01, 0x0F, 0x28}

  const GET_INDEXED_PLAYING_TRACK_INFO := 0x0C
  const RETRIEVE_CATEGORIZED_DATABASE_RECORDS := 0x1A

  /** Title, artist and album name, PlayCurrentSelection and SetCurrentPlayingTrack. */
  const TRACK_INDEX_COMMANDS := {0x20, 0x22, 0x24, 0x28, 0x37}

  /** GetNumberCategorizedDBRecords, SetPlayStatusChangeNotification, PlayControl, SetShuffle and SetRepeat. */
  const SETTING_COMMANDS := {0x18, 0x26, 0x29, 0x2E, 0x31}

  // ---- What the handlers read ----

  /** The four bytes of a number. */
  function Word32(at: nat): set<nat> {
    {at, at + 1, at + 2, at + 3}
  }

  /** Positions `processLingo0x00` reads. The command byte chooses further ones, if it is there at all. */
  function Lingo0x00Reads(byteArray: seq<byte>): set<nat> {
    {0} + if byteArray != [] && byteArray[0] in ARGUMENT_COMMANDS then {1} else {}
  }

  /** Positions `processLingo0x04` reads. */
  function Lingo0x04Reads(byteArray: seq<byte>): set<nat> {
    {1} +
    if |byteArray| < 2 then {}
    else if byteArray[1] == GET_INDEXED_PLAYING_TRACK_INFO then {2} + Word32(3)
    else if byteArray[1] == RETRIEVE_CATEGORIZED_DATABASE_RECORDS then {2} + Word32(3) + Word32(7)
    else if byteArray[1] in TRACK_INDEX_COMMANDS then Word32(2)
    else if byteArray[1] in SETTING_COMMANDS then {2}
    else {}
  }

  /** Every read of the handlers stays within the payload. They look at fixed positions, not at its length. */
  predicate ReadsInside(payload: seq<byte>) {
    && payload != []
    && (payload[0] == GENERAL_LINGO ==> forall k :: k in Lingo0x00Reads(payload[1..]) ==> k < |payload| - 1)
    && (payload[0] == EXTENDED_LINGO ==> forall k :: k in Lingo0x04Reads(payload[1..]) ==> k < |payload| - 1)
  }

  /** Length a payload must have for its lingo and its command: by the command numbers on the wire. */
  predicate LongEnough(payload: seq<byte>) {
    && payload != []
    && (payload[0] == 0x00 ==>
          |payload| >= 2 && (payload[1] == 0x01 || payload[1] == 0x0F || payload[1] == 0x28 ==> |payload| >= 3))
    && (payload[0] == 0x04 ==>
          && |payload| >= 3
          && (payload[2] in {0x18, 0x26, 0x29, 0x2E, 0x31} ==> |payload| >= 4)
          && (payload[2] in {0x20, 0x22, 0x24, 0x28, 0x37} ==> |payload| >= 7)
          && (payload[2] == 0x0C ==> |payload| >= 8)
          && (payload[2] == 0x1A ==> |payload| >= 12))
  }

  /** The read positions, command by command. */
  lemma GeneralReads(byteArray: seq<byte>, k: nat)
    ensures k in Lingo0x00Reads(byteArray) <==>
              k == 0 ||
              (k == 1 && byteArray != [] && (byteArray[0] == 0x01 || byteArray[0] == 0x0F || byteArray[0] == 0x28))
  {
  }

  lemma ExtendedReads(byteArray: seq<byte>, k: nat)
    ensures k in Lingo0x04Reads(byteArray) <==>
              k == 1 ||
              (|byteArray| >= 2 &&
               ((byteArray[1] == 0x0C && 2 <= k <= 6) || (byteArray[1] == 0x1A && 2 <= k <= 10)
                || ((byteArray[1] == 0x20 || byteArray[1] == 0x22 || byteArray[1] == 0x24 || byteArray[1] == 0x28
                     || byteArray[1] == 0x37) && 2 <= k <= 5)
                || ((byteArray[1] == 0x18 || byteArray[1] == 0x26 || byteArray[1] == 0x29 || byteArray[1] == 0x2E
                     || byteArray[1] == 0x31) && k == 2)))
  {
  }

  /** The last of them decides. */
  lemma LastRead(byteArray: seq<byte>)
    ensures (forall k :: k in Lingo0x04Reads(byteArray) ==> k < |byteArray|) <==> LongEnough([0x04] + byteArray)
  {
    var payload := [0x04] + byteArray;
    ExtendedReads(byteArray, 1);
    if |byteArray| >= 2 {
      assert payload[2] == byteArray[1];
      ExtendedReads(byteArray, 2);
      ExtendedReads(byteArray, 5);
      ExtendedReads(byteArray, 6);
      ExtendedReads(byteArray, 10);
    }
    forall k: nat ensures k in Lingo0x04Reads(byteArray) && LongEnough(payload) ==> k < |byteArray| {
      ExtendedReads(byteArray, k);
    }
  }

  lemma LastGeneralRead(byteArray: seq<byte>)
    ensures (forall k :: k in Lingo0x00Reads(byteArray) ==> k < |byteArray|) <==> LongEnough([0x00] + byteArray)
  {
    var payload := [0x00] + byteArray;
    GeneralReads(byteArray, 0);
    if byteArray != [] {
      assert payload[1] == byteArray[0];
      GeneralReads(byteArray, 1);
    }
    forall k: nat ensures k in Lingo0x00Reads(byteArray) && LongEnough(payload) ==> k < |byteArray| {
      GeneralReads(byteArray, k);
    }
  }

  /** For every payload: no read outside it if and only if it is as long as its command needs. */
  lemma {:induction false} ReadsInsideExactly(payload: seq<byte>)
    ensures ReadsInside(payload) <==> LongEnough(payload)
  {
    if payload != [] {
      if payload[0] == 0x00 {
        assert payload == [0x00] + payload[1..];
        LastGeneralRead(payload[1..]);
      } else if payload[0] == 0x04 {
        assert payload == [0x04] + payload[1..];
        LastRead(payload[1..]);
      }
    }
  }

  /** The receiver accepts the frame FF 55 01 00 FF, a general lingo payload without a command byte. Its handler
      reads behind it. */
  lemma {:induction false} ReadsOutside()
    ensures var s := Exec(INIT, SHORT_FRAME + [RxRun]);
            && s.accepted == [[0x00]] && s.cmdQueue == [Command(0, 1)] && s.memory == [[0x00]]
            && !ReadsInside(s.memory[0])
  {
    hide Next, Exec;
    HearShortFrame(INIT);
    ExecSnoc(INIT, SHORT_FRAME, RxRun);
    SendStep(Exec(INIT, SHORT_FRAME));
    ReadsInsideExactly([0x00]);
  }

  // ---- What they find ----

  /** The numbers an extended interface command carries. `NoField`: none; `Beyond`: the packet ends before
      them, or before its command byte. */
  datatype Fields =
    | TrackInfo(kind: byte, index: uint32)
    | Records(category: byte, startIndex: uint32, counts: uint32)
    | TrackIndex(index: uint32)
    | Setting(value: byte)
    | NoField
    | Beyond

  /** The field reads of `processLingo0x04`. What it would read behind the packet has no value here. */
  method ProcessLingo0x04(byteArray: seq<byte>) returns (fields: Fields)
    ensures |byteArray| < 2 ==> fields == Beyond
    ensures |byteArray| >= 2 ==>
              var cmdID := byteArray[1];
              && (cmdID == 0x18 || cmdID == 0x26 || cmdID == 0x29 || cmdID == 0x2E || cmdID == 0x31 ==>
                    fields == if |byteArray| >= 3 then Setting(byteArray[2]) else Beyond)
              && (cmdID == 0x20 || cmdID == 0x22 || cmdID == 0x24 || cmdID == 0x28 || cmdID == 0x37 ==>
                    fields == if |byteArray| >= 6
                              then TrackIndex(Word(byteArray[2], byteArray[3], byteArray[4], byteArray[5]))
                              else Beyond)
              && (cmdID == 0x0C ==>
                    fields == if |byteArray| >= 7
                              then TrackInfo(byteArray[2],
                                             Word(byteArray[3], byteArray[4], byteArray[5], byteArray[6]))
                              else Beyond)
              && (cmdID == 0x1A ==>
                    fields == if |byteArray| >= 11
                              then Records(byteArray[2],
                                           Word(byteArray[3], byteArray[4], byteArray[5], byteArray[6]),
                                           Word(byteArray[7], byteArray[8], byteArray[9], byteArray[10]))
                              else Beyond)
              && (cmdID !in {0x0C, 0x18, 0x1A, 0x20, 0x22, 0x24, 0x26, 0x28, 0x29, 0x2E, 0x31, 0x37} ==>
                    fields == NoField)
    ensures !fields.Beyond? <==> ReadsInside([0x04] + byteArray)
  {
    ReadsInsideExactly([0x04] + byteArray);
    if |byteArray| < 2 {
      return Beyond;
    }
    assert ([0x04] + byteArray)[2] == byteArray[1];
    var cmdID := byteArray[1];
    if cmdID == GET_INDEXED_PLAYING_TRACK_INFO {
      if |byteArray| < 7 {
        return Beyond;
      }
      var tempTrackIndex := ReadField(byteArray, 3);
      fields := TrackInfo(byteArray[2], tempTrackIndex);
    } else if cmdID == RETRIEVE_CATEGORIZED_DATABASE_RECORDS {
      if |byteArray| < 11 {
        return Beyond;
      }
      var startIndex := ReadField(byteArray, 3);
      var counts := ReadField(byteArray, 7);
      fields := Records(byteArray[2], startIndex, counts);
    } else if cmdID in TRACK_INDEX_COMMANDS {
      if |byteArray| < 6 {
        return Beyond;
      }
      var tempTrackIndex := ReadField(byteArray, 2);
      fields := TrackIndex(tempTrackIndex);
    } else if cmdID in SETTING_COMMANDS {
      if |byteArray| < 3 {
        return Beyond;
      }
      fields := Setting(byteArray[2]);
    } else {
      fields := NoField;
    }
  }
}
