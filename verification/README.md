# The snooper's serial pipeline, verified

`iSnoop` listens to the serial line between an iPod accessory and an iPod. A receiver task finds frames
`FF 55 len payload check` byte by byte, a process task passes the payloads of the general lingo (first byte 0x00)
on without that byte, and a transmit task writes them to the console. The tasks share two bounded queues of
pointers to heap buffers. On a long silence the receiver calls `resetState`, which empties both queues while the
other tasks go on running. `src/main.cpp` has a smaller pipeline of the same kind for Bluetooth metadata strings.

What is proved, in one sentence each:

- the in-place parser accepts exactly what a recursive frame-by-frame parser accepts, for every byte string, every
  split into polling passes and every pattern of timeouts on a wrapping 32-bit clock;
- framed payloads come through exactly, damage to one byte stays within its frame (with the exact condition under
  which it does not), and the parser recovers within 257 bytes; joined anywhere in any state, or after damage to any
  byte, it accepts at most one payload that was not sent and then every frame still to begin;
- in every interleaving of the three tasks the console output is in order and without duplicates, buffers are
  neither freed twice nor used after they were freed, live buffers never exceed 68 and one for each serial timeout,
  and `resetState` returns within 134 of its own steps and discards at most one packet;
- with no frame open and nothing arriving, every fair run comes to rest within 673 rounds;
- one turn of each task, in place and with the others running between its operations, takes, relays, writes and frees
  what it should, or found the queue full, empty or the line busy;
- when nothing is lost the output is exactly the relayed part of the parse of the bytes heard.

## Layout

- `Config`, `Checksum`, `Endian`: machine types and constants, `_checksum`, `swap_endian` and big-endian numbers.
- `FrameParser`, `FrameSegments`, `FrameStream`, `FrameResync`: the parser as a byte machine, the recursive parse,
  streams of frames, noise, damage, and joining a stream anywhere.
- `RxClock`, `RxTask`: the receiver over time, and the class with the buffer, the cursor and the two stamps.
- `Pipeline`, `PipelineSafety`, `PipelineRuns`, `TimedPipeline`: the three tasks as a state machine in which every
  queue operation, buffer access and `delete[]` is a step, its invariants, and its guarantees over runs. `Subsequence`
  says what an in-order selection is, in two ways that agree, `Ownership` counts who points to a buffer; both also serve
  `Avrc`, and so does `Turns`.
- `Discards`: what `resetState` throws away unfreed. `Progress`: how much work there is, and that it gets done.
  `ShortFrame`: the frame FF 55 01 00 FF, used in examples.
- `Lingo`: which bytes of a payload the lingo handlers read, and the numbers they find.
- `Turns`, `Interference`, `Alone`, `Snooper`: the tasks as methods that update queues and buffers in place. Between any
  two operations the other tasks take the steps a schedule proposes for them. The class invariant is that the state is
  the one the state machine reaches by the steps taken so far, so the guarantees over runs apply to it. Every contract
  states the exact log of a turn: the task's own steps and the points between them at which the others run. `StateAt` is
  the state after so many moves of a log; clauses under an empty schedule give the whole new state when nobody interferes.
- `Avrc`: the metadata queue, in both forms.

## How to read it

Bytes and 32-bit words are integers with a range. Time is a natural number of milliseconds; the code sees its low 32
bits. A run of the pipeline is any sequence of labels: a label whose task is elsewhere changes nothing, so the theorems
quantify over all interleavings without side conditions. The two timeouts may fire at any moment in the pipeline;
`TimedPipeline` shows that this includes whatever the clock makes them do. A queue send waits or succeeds, and fails
only on a full queue; in `Snooper` it waits for any number of ticks given to it. Buffers are identities that are never
reused.

In `snooper.cpp` the comments at lines 127 and 135 speak of 1 s and 30 s; the constants in
`iSnoop/include/esPod_conf.h` are 500 ms and 60000 ms, and those are used. The two branches at lines 75-86 do the same
thing and are one branch here; the first cannot be taken, since a length is one byte and MAX_PACKET_SIZE is 1024.

Some properties that read as if they held always do not. Each is stated with an input that breaks it and with the exact
condition under which it holds.

- A wrong checksum byte costs only its own frame. It fails when the byte arrives as FF, the noise behind it starts with
  55, and what follows is neither a length 0 nor a whole frame with a wrong checksum (`FrameStream.DamageCanSpread`,
  `FrameStream.ReadsAsNothingExactly`, `FrameStream.ContainedExactly`).
- `resetState` finds no frame open. It holds if and only if the clock readings of a byte and those of a pass add up to
  at most 59500 ms (`RxClock.BriskIsTight`, `RxClock.BriskExactly`).
- `resetState` frees whatever it takes out of the queues, so memory is bounded. It fails: a packet that arrives between
  the last look at `_txQueue` and its reset is discarded and stays allocated for good. A call of `resetState` can
  discard one if and only if, when it begins, a lingo 0x00 payload is in the process task's hand or in `_cmdQueue`, or a
  packet is in that hand (`Discards.DiscardExactly`, `Discards.DiscardedForGood`); it can happen at every serial timeout
  of a run (`Discards.LeakIsUnbounded`), and at most once at each (`Discards.TotalMemoryIsBounded`).
- The tasks always get on with what is queued. It fails when a frame opens behind a queued packet, and the pipeline gets
  stuck in no other way (`Progress.HeldBackBehindAFrame`, `Progress.StuckBehindAFrame`, `Progress.NotStuck`).
- The timeouts see the true silence. With a wrapping clock that holds if and only if passes are close enough
  (`RxClock.SpacingExactly`, `RxClock.SerialSpacingExactly`).
- The lingo handlers read inside the payload. It fails for the frame FF 55 01 00 FF, which is accepted, and holds if and
  only if the payload is as long as its command needs (`Lingo.ReadsOutside`, `Lingo.ReadsInsideExactly`).

## Model

| member | source | states |
|---|---|---|
| Config.ElapsedIsTrueTime | iSnoop/src/snooper.cpp:127 | the wrapping 32-bit subtraction of two clock readings is the true time between them exactly when that is below 2^32 ms |
| Checksum.CheckIsUnique | iSnoop/src/snooper.cpp:215-224 | one byte and only one makes length, payload and checksum add up to 0 modulo 256 |
| Checksum.Compute | iSnoop/src/snooper.cpp:215-224 | the loop with its wrapping 32-bit accumulator returns that one byte, for every array it can index, the case where 0x100 - 0 truncates to 0 included |
| Checksum.DetectsOneByteError | iSnoop/src/snooper.cpp:96-97 | changing one payload byte to another value always changes the checksum |
| Endian.SwapIsInvolution | iSnoop/src/snooper.cpp:8-25 | swapping twice gives the value back and stays within the width, at every width |
| Endian.SwapEndian | iSnoop/src/snooper.cpp:8-25 | the union copy loop turns a little-endian stored value into the big-endian value of the same bytes |
| Endian.ReversedLoadIsBig | iSnoop/src/snooper.cpp:19-22 | loading the reversed bytes least significant first is reading them most significant first |
| Endian.ReadField | iSnoop/src/snooper.cpp:482 | the index read from a packet is the big-endian 32-bit number on the wire, for every four bytes |
| Lingo.ProcessLingo0x04 | iSnoop/src/snooper.cpp:471-634 | for every packet and every command number: which fields the handler finds, each the number on the wire at its offset, or that the packet ends before them |
| Lingo.ReadsInsideExactly | iSnoop/src/snooper.cpp:259-634 | for every payload, the handlers read only inside it if and only if it is as long as its lingo and command need, by their numbers on the wire; so this holds of every queued command |
| Lingo.GeneralReads | iSnoop/src/snooper.cpp:379-459 | the general lingo handler reads the command byte, and the byte behind it for the commands 01, 0F and 28 |
| Lingo.ExtendedReads | iSnoop/src/snooper.cpp:471-634 | the positions the extended interface handler reads, command number by command number |
| Lingo.ReadsOutside | iSnoop/src/snooper.cpp:379-383 | the frame FF 55 01 00 FF is accepted and queued, and its handler reads behind its buffer |
| FrameParser.OutputIsParse | iSnoop/src/snooper.cpp:54-126 | the byte-at-a-time machine accepts exactly the payloads of the recursive frame-by-frame parse, from idle with any previous byte |
| FrameParser.StaysConsistent | iSnoop/src/snooper.cpp:67-122 | with a frame open the bytes held never exceed the expected length; accepted payloads have 1 to 255 bytes |
| FrameParser.BodyFills | iSnoop/src/snooper.cpp:88-91 | inside a body only the count matters: a header pair in the payload does not start over, and nothing is accepted early |
| FrameParser.WholeFrame | iSnoop/src/snooper.cpp:72-121 | a complete frame closes the parser and is accepted exactly when its checksum byte is right |
| FrameParser.PrevIsLastByte | iSnoop/src/snooper.cpp:124-125 | the previous byte is always the last one read, so a checksum byte can be the FF of the next header |
| FrameParser.RemainingFalls | iSnoop/src/snooper.cpp:67-122 | the bytes left until idle strictly fall with every byte of an open frame, from at most 257 |
| FrameParser.Recovers | iSnoop/src/snooper.cpp:67-122 | from every reachable state, whatever the bytes are, the first idle moment comes after an exact count of bytes, at most 257 |
| FrameSegments.ExplainCut | iSnoop/src/snooper.cpp:127-134 | abandoning a frame closes a piece of the stream and keeps the previous byte for the next header |
| FrameStream.RoundTrip | iSnoop/src/snooper.cpp:60-125 | payloads framed among noise without a header pair are accepted exactly, in order, ending idle, whatever bytes they hold |
| FrameStream.DamageIsContained | iSnoop/src/snooper.cpp:88-122 | one wrong payload or checksum byte costs exactly its own frame; for a wrong checksum, provided the noise behind it holds no header, a length 0 or a whole bad frame |
| FrameStream.OnlyAHeaderReopens | iSnoop/src/snooper.cpp:60 | the noise behind a wrong checksum opens a frame exactly when the wrong byte is FF and the noise starts with 55 |
| FrameStream.NoHeaderNoSpread | iSnoop/src/snooper.cpp:60 | unless those two bytes are a header the noise re-reads as nothing |
| FrameStream.ReadsAsNothingExactly | iSnoop/src/snooper.cpp:60-122 | quiet noise yields no payload and leaves no frame open behind a wrong checksum if and only if its bytes pass a direct test: no header, length 0, or a whole frame that does not add up |
| FrameStream.ContainedExactly | iSnoop/src/snooper.cpp:88-122 | a wrong checksum is contained whatever frames follow, if and only if the noise passes that test |
| FrameStream.DamageCanSpread | iSnoop/src/snooper.cpp:60-125 | a concrete stream in which one wrong checksum byte also loses the next frame |
| FrameResync.PlainExactly | iSnoop/src/snooper.cpp:60 | what a stream with FF 55 only at frame starts is: every pair that opens a frame stands at the start of one of its frames |
| FrameResync.FromIdle | iSnoop/src/snooper.cpp:60-125 | in a stream where FF 55 stands only at frame starts: idle at any position, the parser accepts exactly the frames whose 55 is still to come |
| FrameResync.Resync | iSnoop/src/snooper.cpp:60-125 | joining such a stream at any position in any state: at most one payload up to the first idle moment, then every frame whose 55 was still to come, in order |
| FrameResync.IdleAgain | iSnoop/src/snooper.cpp:67-122 | that moment comes within 258 bytes of any consistent state |
| FrameResync.AnyDamage | iSnoop/src/snooper.cpp:60-125 | any one byte replaced, header and length bytes included: the frames that ended before it are accepted, then at most one payload that was not sent, then every frame still to begin at the next idle moment |
| RxClock.AcceptedIsParse | iSnoop/src/snooper.cpp:50-145 | every timed run, timeouts included: accepted payloads are those of the recursive parse of the pieces between abandoned frames |
| RxClock.BatchingIsInvisible | iSnoop/src/snooper.cpp:50-126 | without a timeout the split of the bytes into polling passes changes neither the payloads nor the parser state |
| RxClock.AcceptedIsFound | iSnoop/src/snooper.cpp:60-134 | every accepted payload stands in the stream as a whole frame that adds up; length-to-checksum spans are disjoint, in order, and share at most one byte with the next header |
| RxClock.AbandonsExactly | iSnoop/src/snooper.cpp:127-134 | with a wrapping clock and passes less than 2^32 - 500 ms apart, a pass gives up on a frame if and only if it is open and the true silence exceeds the timeout |
| RxClock.SpacingIsTight | iSnoop/src/snooper.cpp:127 | under every larger bound on the distance of passes there is a run in which a silence is missed |
| RxClock.SpacingExactly | iSnoop/src/snooper.cpp:127 | a bound on the distance of passes makes the check truthful in all runs if and only if it is at most 2^32 - 500 ms |
| RxClock.ResetsExactly | iSnoop/src/snooper.cpp:135-141 | with passes less than 2^32 - 60000 ms apart the serial timeout fires if and only if the true inactivity exceeds it |
| RxClock.SerialSpacingExactly | iSnoop/src/snooper.cpp:135 | a bound on the distance of passes makes that check truthful in all runs if and only if it is at most 2^32 - 60000 ms |
| RxClock.ResetFindsNoOpenFrame | iSnoop/src/snooper.cpp:127-141 | no frame is open when resetState is called, given at most 59500 ms between the readings for one byte plus those of one pass; needs no bound on the distance of passes |
| RxClock.BriskIsTight | iSnoop/src/snooper.cpp:135-140 | for every way to split 59501 ms between byte and pass there is a run that calls resetState with a frame open |
| RxClock.BriskExactly | iSnoop/src/snooper.cpp:127-141 | all runs within two such bounds reset with no frame open if and only if the bounds add up to at most 59500 ms |
| RxTask.Task.View | iSnoop/src/snooper.cpp:72 | awaiting the length is exactly expLength == 0 and cursor == 0 with a frame open, and the body held is buf[..cursor] |
| RxTask.Task.Feed | iSnoop/src/snooper.cpp:57-125 | one byte in the buffer-and-cursor code is one step of the machine; a good frame comes back as a fresh copy of its payload and no stale byte |
| RxTask.Task.TakeBodyByte | iSnoop/src/snooper.cpp:90-121 | the body grows in place within the buffer; at the end the payload is returned exactly when the checksum is right |
| RxTask.Task.Poll | iSnoop/src/snooper.cpp:127-141 | the two timeout checks, and when resetState is called |
| RxTask.Task.OnePass | iSnoop/src/snooper.cpp:50-141 | one pass from any state reads all its bytes before it looks at the clock: it accepts what those bytes give from the state before, whatever the check times are, and gives up on a frame or calls resetState by the readings at its last byte |
| RxTask.Task.Loop | iSnoop/src/snooper.cpp:50-145 | for any passes, the in-place code goes from state to state by such passes, accepts what they accept, and accepts what the recursive parse of the received pieces accepts |
| PipelineSafety.NextSafe | iSnoop/src/snooper.cpp:101-114 | every step of every task keeps each buffer in exactly one place and causes no double free or use after free |
| PipelineSafety.NextResetContained | iSnoop/src/snooper.cpp:344-367 | every step keeps what is known during resetState: _cmdQueue stays empty and only the packet in hand can follow |
| PipelineSafety.NextOrder | iSnoop/src/snooper.cpp:99-115 | a step moves packets in order, joins one at the end or loses some; only a failed send and resetState lose any |
| PipelineSafety.RunInvariant | iSnoop/src/snooper.cpp:35-203 | every interleaving of the three tasks keeps all of the above |
| PipelineRuns.OutputInOrder | iSnoop/src/snooper.cpp:155-202 | written packets are an in-order, duplicate-free selection of the accepted lingo 0x00 payloads without their first byte |
| PipelineRuns.BuffersConserved | iSnoop/src/snooper.cpp:186-194 | no buffer is freed twice or used after it was freed; a live one is in exactly one queue entry, hand or discarded entry, a freed one in none, however the run goes on |
| PipelineRuns.QueuedCommandsAreWhole | iSnoop/src/snooper.cpp:259-263 | every queued command has a live buffer of its own length, 1 to 255 bytes, so len - 1 cannot underflow |
| PipelineRuns.MemoryIsBounded | iSnoop/include/esPod_conf.h:15-19 | live buffers not lost to a queue reset never exceed the two queue sizes plus four |
| PipelineRuns.ResetRace | iSnoop/src/snooper.cpp:353-366 | whatever the others do once resetState saw _cmdQueue empty: the first queue reset discards nothing, the second at most the packet the process task then had in hand |
| PipelineRuns.ResetLosses | iSnoop/src/snooper.cpp:365-366 | over a whole run the queue resets discard no command and at most one packet for each serial timeout |
| Discards.TotalMemoryIsBounded | iSnoop/src/snooper.cpp:353-366 | all live buffers, discarded ones included: at most the two queue sizes plus four plus the number of serial timeouts |
| Discards.DiscardedForGood | iSnoop/src/snooper.cpp:366 | a packet discarded by the reset of _txQueue is live in every continuation and nothing but the list of discarded entries points to it |
| Discards.DiscardExactly | iSnoop/src/snooper.cpp:344-367 | some run of a resetState call returns with one more discarded packet if and only if, at its start or at any later look at _cmdQueue, the process task's hand or _cmdQueue holds something that becomes a packet |
| Discards.LeakIsUnbounded | iSnoop/src/snooper.cpp:239-252 | for every n there is a run with n serial timeouts that has come to rest with n discarded packets and n live buffers |
| PipelineRuns.ResetReturns | iSnoop/src/snooper.cpp:344-367 | in every interleaving resetState has returned once it has taken 134 steps of its own |
| PipelineRuns.ResetGoesOn | iSnoop/src/snooper.cpp:353-364 | each of its steps uses up one of those it had left, counted from its place, the commands, the packets and the process task's hand; no step of another task adds one |
| PipelineRuns.ResetAlone | iSnoop/src/snooper.cpp:344-367 | that count is exact: undisturbed, resetState returns after so many steps and not before |
| PipelineRuns.OneWriteWhileReceiving | iSnoop/src/snooper.cpp:183-197 | while a frame stays open the transmitter writes at most one packet, the one whose turn had begun |
| PipelineRuns.LosslessIsExact | iSnoop/src/snooper.cpp:99-105 | if no send fails and no serial timeout fires, output plus everything in transit is at all times exactly the relayed part of what was accepted |
| PipelineRuns.QuiescentIsComplete | iSnoop/src/snooper.cpp:155-196 | such a run that has come to rest has written all of it |
| Progress.WorkIsPaidFor | iSnoop/src/snooper.cpp:155-197 | in every interleaving the steps that get something done are at most 16 for each payload accepted and 8 for each serial timeout, and what was there before |
| Progress.NotStuck | iSnoop/src/snooper.cpp:155-197 | with no frame open, some task's next step gets something done if and only if not all is finished |
| Progress.StuckBehindAFrame | iSnoop/src/snooper.cpp:183-200 | when no step does though there is work, a frame is open and holds the transmitter back from a queued packet, and abandoning the frame sets it free |
| Progress.HeldBackBehindAFrame | iSnoop/src/snooper.cpp:183-200 | a concrete run in which a packet is queued, the check byte of its frame and a 55 open another, and no task can get anything done |
| Progress.FairRunsFinish | iSnoop/src/snooper.cpp:155-203 | with no frame open and nothing arriving, any run that lets each task run 673 times over is finished, from every reachable state |
| Progress.TakingTurnsFinishes | iSnoop/src/snooper.cpp:155-203 | in particular when the three tasks simply take turns |
| Progress.FairRunsDeliver | iSnoop/src/snooper.cpp:155-203 | if nothing was lost and no send gives up, such a run has written all that is to be relayed of the bytes heard |
| PipelineRuns.AcceptedIsParsed | iSnoop/src/snooper.cpp:54-134 | in every interleaving what was accepted is the recursive parse of what was heard |
| PipelineRuns.WireToConsole | iSnoop/src/snooper.cpp:35-202 | end to end: the output is a selection of the relayed parse of the bytes heard, and all of it when nothing was lost |
| PipelineRuns.FramedTraffic | iSnoop/src/snooper.cpp:35-202 | when frames among quiet noise were heard, only their lingo 0x00 payloads come out, in order, and all of them when nothing was lost |
| PipelineRuns.EveryStreamCanBeRelayed | iSnoop/src/snooper.cpp:35-202 | for every byte string there is a run without loss that comes to rest and has written all it should |
| TimedPipeline.TimedRunIsARun | iSnoop/src/snooper.cpp:127-141 | every timed run of the receiver is the receiver's part of a pipeline run: same pieces, state and payloads |
| Turns.OthersExactly | iSnoop/src/snooper.cpp:305-307 | between two operations of a task exactly the steps proposed for the others are taken, each as often as proposed, in order, and none of its own |
| Interference.ExecKeepsPlace | iSnoop/src/snooper.cpp:49-203 | steps of the other tasks leave a task's own place, output and losses alone |
| Snooper.Instance.ReceiveByte | iSnoop/src/snooper.cpp:57-125 | one byte under interference: the receiver takes the steps for it and no others; the parser steps, and a payload it completes is accepted and copied, then appended to _cmdQueue when that has room, or freed when it was full before each of the ticks the send waits and after them; with nobody interfering nothing else changes |
| Snooper.Instance.AbandonFrame | iSnoop/src/snooper.cpp:127-134 | giving up on a frame closes the parser, keeps the previous byte and begins a new piece of the stream; nothing else changes |
| Snooper.Instance.SendCommandToQueue | iSnoop/src/snooper.cpp:104-114 | the send to _cmdQueue succeeds if and only if there is room |
| Snooper.Instance.ResetState | iSnoop/src/snooper.cpp:344-367 | under interference it takes two steps for each command and packet it finds and four more, within the steps it had left; both queues are empty, what is live is in the other tasks' hands or discarded, no command is discarded and at most one packet; with nobody interfering it frees exactly the buffers of both queues and changes nothing else |
| Snooper.Instance.TimeOut | iSnoop/src/snooper.cpp:135-141 | the serial timeout is taken and resetState runs to its end within 134 of its own steps, with the same outcome |
| Snooper.Instance.ProcessTurn | iSnoop/src/snooper.cpp:155-169 | one turn under interference, its own steps exactly: nothing on an empty queue; otherwise the oldest command is freed, and a lingo 0x00 one was copied without that byte and appended to _txQueue when that had room, or freed when it was full before each of the ticks the send waits and after them; with nobody interfering nothing else changes |
| Snooper.Instance.ReadPacket | iSnoop/src/snooper.cpp:259-269 | the lingo byte decides, and the packet made for lingo 0x00 is the command without it, one byte shorter |
| Snooper.Instance.SendPacketToQueue | iSnoop/src/snooper.cpp:239-252 | the send to _txQueue succeeds if and only if there is room |
| Snooper.Instance.TransmitTurn | iSnoop/src/snooper.cpp:180-202 | one turn under interference, its own steps exactly: nothing while a frame is open; otherwise the queue is empty when it looks, or the packet then at its head is written and freed; with nobody interfering it writes if and only if there is a packet, and nothing else changes |
| Snooper.Instance.SendPacket | iSnoop/src/snooper.cpp:190 | what is written is the content of a buffer that is still live |
| Avrc.RunInvariant | src/main.cpp:158-212 | every interleaving of callback and task keeps ownership, good messages and order |
| Avrc.StringsConserved | src/main.cpp:207-208 | each duplicated string is freed at most once, never used afterwards, and until then in exactly one place |
| Avrc.QueuedMessagesAreGood | src/main.cpp:346-365 | every queued message has a live text, not empty unless it is the playing time |
| Avrc.MemoryIsBounded | src/main.cpp:158-212 | never more live strings than the queue size plus two |
| Avrc.UpdatesInOrder | src/main.cpp:181-204 | what the task passes on is the known part of what it took, a selection in order of what was queued; nothing queued is lost |
| Avrc.UpdatesExactly | src/main.cpp:181-204 | every title, artist, album and playing time reaches the emulator as often as the task took it up, and nothing else does |
| Avrc.QueuedIsOffered | src/main.cpp:367-371 | every send on a full queue costs exactly one item; all that was offered was queued, in order, if and only if there was none |
| Avrc.Pump.MetadataCallback | src/main.cpp:343-372 | under interference, its own steps exactly: a null text, an empty one that is not the playing time, and one that cannot be duplicated change nothing; any other is offered and queued once if there is room, else its copy is freed; with nobody interfering nothing else changes |
| Avrc.Pump.Send | src/main.cpp:367 | the send succeeds if and only if there is room |
| Avrc.Pump.TaskTurn | src/main.cpp:181-209 | under interference, its own steps exactly: the oldest queued item is taken with the text it was queued with, a title, artist, album or playing time is passed on and nothing else is, and the text is freed; on an empty queue nothing changes |

## Left out

- Serial ports, logging, pins and the voltage reading: input is a list of bytes with times, output a list of packets.
- FreeRTOS itself: queues are atomic and bounded, scheduling is arbitrary; priorities, tick lengths and task creation play no part.
- Failing allocation: `new` always succeeds; `strdup` may fail, as in the source.
- The destructor, documented as unused, and the block of `snooper.cpp` that is commented out.
- The log-only switch arms of the lingo handlers: they change no state.
- Lingo.ProcessLingo0x04: what the handler reads behind a packet has no value; the outcome is `Beyond` then.
- PipelineRuns.BuffersConserved: a packet discarded by the reset of `_txQueue` is counted as held by the discarded list, because the source never frees it; see `Discards`.
- RxTask.Task.Loop: runs for any finite list of passes from a closed frame, as after the constructor; the source's loop does not end.
- FrameStream.DamageIsContained: damage to a header or length byte is not covered, because the frame boundaries then move; `FrameResync.AnyDamage` covers it for streams with FF 55 only at frame starts.
- Avrc.Pump.TaskTurn: the emulator's update methods are not part of this model; a call is an entry in a list.
- The audio path, connection callbacks and playback control of `src/main.cpp`: single branches without shared state.
