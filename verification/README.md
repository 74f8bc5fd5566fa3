# Synchronous Audio Router, modelled in Dafny

Synchronous Audio Router connects Windows audio endpoints to an ASIO host. A kernel driver gives every endpoint
a ring in one shared section, and a client inside the host moves one period per tick between those rings and the
host's per-channel buffers. This project models the parts of it that are hard to get right and proves what they
promise. `dafny verify dfyconfig.toml` checks everything.

## What is modelled

**The shared rings.** `Ring` has the two copy loops byte by byte, on arrays, and an independent definition of what
a period means on a ring that wraps. `Client` is the body of the tick for one endpoint, `Notify` the crossing test
and its counting over runs of ticks, `Stream` what runs of ticks deliver to the host and `Recording` what they leave in
the ring. `Cells`, `Registers` and `Kernel` are the driver's side: the cell bitmap, the generation word, and the
operations on pins, on classes with the driver's fields. `Protocol` puts both sides together as a state machine in
which every register read and every register store is a step of its own, and proves that a tick that confirms its
generation used one ring only; `TickBytes` joins that to the bytes the copy moves, and `Races` has two runs in which a
tick acts for a pin that is gone.

**The handle queue and lifetimes.** `HandleQueue` is the rendezvous between posted notification handles and waiting
requests, once as a class whose methods follow the code and once as a system of all interleavings with its
histories. `Lifetime` has the two reference counts under lookups, workers and orphaning.

**Configuration.** `Json` holds the printer and the grammar as functions on text, `JsonOutput` and `JsonInput` the
code that runs them through an iterator and a one-character pushback, `JsonRoundTrip` that parsing undoes
printing. `JsonGrammar` has the concrete parts of a JSON text, white space and escapes included, and that the parser
takes exactly those; `Unicode` has a decoder of its own for the UTF-8 that escapes become, `JsonPrinting` what printed
text looks like. `Config` is the driver configuration on top of it.

**Self-contained algorithms.** `Checksum` (RFC 1071, RFC 791, RFC 768), `ChannelMap`, `Glob` and `LineReader`.
`Mangling` is the grammar of the demangler as ordered choice, a function from a place to the place behind what was
recognised, which only moves forward or says that a source name with a negative length was met. Its numbers are ints
that wrap around in two's complement. `Demangle` is the code, with its saved states, output cursor and modes. Where a
row below says that a parser *recognises* a rule, it means: whether a source name moves the cursor back is as the
grammar says, and if none does, the parser ends, succeeds exactly where the rule does, moves to where the rule ends,
restores mode and nesting level, leaves the state as it was when it fails, and keeps both cursors inside their buffers.
`Bnf` is the grammar of the source's comments, without order or
greed, and apart from it the alternatives that the code adds. `Reading` proves that everything recognised is a word of
the two together, and of the comments alone if the reading is *clean*: if it came upon no nested name that is empty or
ends in a parameter or a substitution, none with one of these or a `St` behind other components, no length that is
zero, signed or too large for an int, no negative parameter number, no letter of a tag without a name, and no operator
with another number of operands than C++ gives it. `Written` has texts that are no names of the comments. In the other
direction, `Tokens` proves that the ordered reading finds the words of the rules that contain no types, and `Encoded`
that it reads as a whole, and cleanly, the texts of the symbols in `Spelling`, which are built with every alternative
of every rule of the comments; `Alternatives` says which alternative the letters at a place lead to. `StepBack` says
which texts move the cursor back and what happens then. `Arith` holds shared facts about division and 32-bit
wrap-around, `Numerals` decimal digits, `Types` two types.

Memory allocation, section mapping, opening a process and duplicating a handle are parameters that say whether the
call succeeded. Integer widths are written out where the source's arithmetic can wrap: the sizes in `Kernel`, the
generation words and the usability test.

## What the proofs found

- The client asks for at least two periods only when `waveRtMinimumFrames` is 2 or more; otherwise the driver's
  minimum is 0 periods, and a request for exactly one period gets a ring of one (`Stream.TwoPeriodsExactlyWhen`).
  The crossing test is right for all positions exactly when two periods fit (`Notify.DetectionExact`).
- Saving a configuration drops a minimum frame count of 2, the smallest value that has an effect
  (`Config.UnchangedExactlyWhen`).
- The position is stored after the generation was checked and nothing guards that store. It stays inside the ring on
  record exactly when that ring has not become smaller (`Protocol.CommitSafeExactlyWhen`); a run after which the next
  pin's running record is unusable is reachable (`Races.LateCommitStallsNextPin`).
- The copy of a recording tick comes before that check. It stays inside its endpoint's cells exactly when both runs lie
  in the cells that the endpoint has at that moment (`TickBytes.CopyIsOwnExactlyWhen`); a run in which they belong to
  the running ring of another endpoint is reachable (`Races.CopyIntoNextPin`).
- A position equal to the ring's size passes the client's test, and such a tick copies nothing
  (`Client.EndOfRingMovesNothing`).
- Two trace messages read a reference count after the reference was released, which is safe exactly while somebody else
  holds the object (`Lifetime.TraceIsSafeExactlyWhen`, `Lifetime.EndpointReadAfterFree`, `Lifetime.ContextReadAfterFree`).
- Closing a pin leaves offset and size in its record; a second buffer for one pin leaks the first one's cells
  (`Protocol.SecondBufferLeaks`).
- When a handle cannot be duplicated, the rest of the batch has left the queue (`HandleQueue.SarHandleQueue.Wait`).
- The deletion of a control context never finds anything on its pending list (`Lifetime.NothingPendingAtDeletion`).
- A pattern that ends in two stars wants one more character than it should, and a star in the text is matched only
  by itself once the pattern has one there (`Glob.PatternIsRightExactlyWhen`, `Glob.TextIsRightExactlyWhen`).
- `udpsum` returns the reserved value 0 for some datagrams (`Checksum.ZeroExactlyWhen`).
- The demangler's comment says that a failing parser leaves the state alone. `ParseNumber`, `ParseAbiTag` and
  `ParseMangledName` do not. Their callers restore it, except that the loop over tags keeps the letter of a last
  tag without a name.
- The demangler accepts names that the grammar in its comments does not have. A nested name without components and a
  name of length zero are two (`Written.AcceptsMoreThanWritten`). A clean reading is enough for an accepted text to be
  a name of the comments (`Reading.AcceptedIsDerived`), but not necessary, as operators are tried with three operands
  first and may take one that belongs to another (`Written.CleanIsNotNecessary`).
- A literal of type `__int128` begins with the letters `Ln`, which the demangler reads as a local name with a signed
  length; the symbols of `Spelling` do without that type in literals.
- A source-name length below -1 moves the demangler's cursor back: a loop may then not end, and texts that are no names
  may be accepted (`StepBack.NestedLoopDoesNotEnd`, `StepBack.AcceptedAfterStepBack`). A length is negative because it
  has an n in front, or because it does not fit an int (`StepBack.StepsBackExactlyWhen`, and
  `StepBack.TypesLoopDoesNotEnd` for a text that is nothing but such a length). Texts in which no number is one of these
  are safe, and no others in every place (`StepBack.NamesAreSafeExactlyWhen`). C++ leaves the overflow undefined; texts
  with numbers below 2^31 only, and an n in front of 0 and 1 only, do not depend on it (`StepBack.SafeText`).

## Model

| member | source | states |
|---|---|---|
| `Ring.Demux` | SarAsio/sarclient.cpp:481-522 | for any sizes of the two runs: every host buffer gets the whole frames that are moved, sample by sample, and keeps what was behind them; buffers beyond the ring's channels are silent, missing ones are skipped, memory is untouched |
| `Ring.Mux` | SarAsio/sarclient.cpp:525-559 | for any sizes of the two runs: every channel with a buffer is written to its places in the frames that are moved, and no other byte of the section changes |
| `Ring.DemuxChannel` | SarAsio/sarclient.cpp:494-513 | one channel: samples come out in order across the change of runs, with the source's own cursor and remaining count; a first run that is empty or does not end with a frame ends the copy |
| `Ring.MuxChannel` | SarAsio/sarclient.cpp:538-557 | one channel: samples go in across the change of runs with the same stops, and only bytes of that channel change |
| `Ring.CursorStep` | SarAsio/sarclient.cpp:501-513 | the cursor always stands at sample k of the period, the step at the end of the first run goes on at the second, and a first run that does not end with a frame leaves too few bytes for another step |
| `Ring.SplitGivesRuns` | SarAsio/sarclient.cpp:99-106 | cutting the period at the end of the ring gives two disjoint runs of whole frames inside the section |
| `Ring.RunIsRingFrame` | SarAsio/sarclient.cpp:101-106 | frame k of the two runs is ring frame (start + k) mod frames, for every wrap point |
| `Ring.PlayedIsChannelOut` | SarAsio/sarclient.cpp:99-114 | what demux leaves is the ring specification: sample k of channel c is channel c of frame (start + k) mod frames |
| `Ring.RecordedIsMemory` | SarAsio/sarclient.cpp:99-120 | what mux leaves is the ring specification byte by byte, everything outside the period unchanged |
| `Ring.OtherChannelKept` | SarAsio/sarclient.cpp:537-558 | writing one channel keeps what was written for another |
| `Ring.ChannelsApart` | SarAsio/sarclient.cpp:493-514 | bytes of different channels never coincide, in any frame of either run |
| `Ring.RecordThenPlay` | SarAsio/sarclient.cpp:481-559 | interleaving a period and de-interleaving it from the same place gives back every buffer the ring has a channel for |
| `Ring.PlayThenRecord` | SarAsio/sarclient.cpp:481-559 | de-interleaving and interleaving again leaves the whole section as it was |
| `Client.SarClient.TickEndpoint` | SarAsio/sarclient.cpp:64-179 | one tick of one endpoint, for every record that fits the section: an unusable one, by the test written out, gives silence and nothing else; with a usable one the planned frames move and position, event and silence are those of the decision that Notify.MovesExactlyWhen describes; on a ring of whole frames the result is the ring specification |
| `Client.SarClient.CopyPeriod` | SarAsio/sarclient.cpp:99-120 | split and copy move the planned frames, for playback and for recording |
| `Client.PlanIsCut` | SarAsio/sarclient.cpp:105-106 | the sizes computed from the record add up to the period, and the planned frames are what the copy loop moves of them |
| `Client.PlanIsMaximal` | SarAsio/sarclient.cpp:99-106 | written out from the record: the first run is as much of the period as there is room for behind the position, the second is the rest from the start of the ring, and each moves the whole frames it holds, the second only if the first ends with the ring |
| `Client.PeriodMeetsRing` | SarAsio/sarclient.cpp:99-120 | on a ring of whole frames, with the position on a frame boundary, what the planned copy leaves is the ring specification |
| `Client.EndOfRingMovesNothing` | SarAsio/sarclient.cpp:86-106 | a position equal to the size passes the test, and then a copy is as planned if and only if it leaves the shared channels' buffers and the ring as they were |
| `Client.SarClient.Conclude` | SarAsio/sarclient.cpp:122-179 | second generation check and crossing test: moves and signals, or silences all buffers and leaves the record alone |
| `Client.SarClient.SilenceTargets` | SarAsio/sarclient.cpp:90-94 | all buffers that exist become zero, null ones stay null |
| `Client.SplitSizes` | SarAsio/sarclient.cpp:105-106 | first and second size are whole frames and add up to the period |
| `Stream.HeardIsPeriodicStream` | SarAsio/sarclient.cpp:99-178 | over any run of ticks, whatever generations and handles they meet and whatever is written to the ring in between, what the moving ticks deliver for a channel is, put together, the frames start, start + 1, ... of the ring taken round and round, without gap or repetition |
| `Stream.EachTick` | SarAsio/sarclient.cpp:84-178 | each tick of such a run delivers its period of that stream, or silence without moving the position |
| `Stream.PositionIsStreamFrame` | SarAsio/sarclient.cpp:99-100 | after any run of ticks the position is the frame boundary where that stream continues |
| `Stream.OutputIsWhatTickLeaves` | SarAsio/sarclient.cpp:64-179 | the outputs and outcomes those runs are made of are the ones that the tick of one endpoint is proved to have |
| `Stream.RecordFollowsStream` | SarAsio/sarclient.cpp:122-178 | any run of ticks keeps the record as the tick needs it, with the position where the stream continues |
| `Stream.SteadyTicksAllMove` | SarAsio/sarclient.cpp:122-178 | ticks that meet a live generation and a current handle all move |
| `Stream.MovingExactlyWhen` | SarAsio/sarclient.cpp:122-178 | over any run of ticks, tick t moves if and only if it is live and either nothing is due at the place that the earlier moving ticks led to or there is a current handle |
| `Recording.RingHoldsLastFrames` | SarAsio/sarclient.cpp:99-178 | over any run of recording ticks, whatever generations and handles they meet, the ring holds the last frames that the moving ticks recorded, each at its place in the stream: all that are no further back than the ring is long from the end of the last period written |
| `Recording.WrittenBound` | SarAsio/sarclient.cpp:115-177 | that end is the end of the stream or, behind a discarded tick that had written already, one period further on |
| `Recording.WrittenToEnd` | SarAsio/sarclient.cpp:115-177 | after a tick that moved it is the end of the stream |
| `Recording.EarlierFrameKept` | SarAsio/sarclient.cpp:99-120 | writing a period keeps every frame before it that is not further back than the ring is long from its end |
| `Recording.LeftIsWhatTickLeaves` | SarAsio/sarclient.cpp:64-179 | the memories those runs are made of are the ones that the tick of one endpoint is proved to leave |
| `Stream.KernelRingSuitsClient` | SynchronousAudioRouter/wavert.cpp:54-60 | the size the kernel computes is a whole number of frames with room for one period |
| `Stream.TwoPeriodsExactlyWhen` | SynchronousAudioRouter/wavert.cpp:54-60 | for a given configuration all requests of at least one period get a ring of two periods if and only if at least two were configured; otherwise the request of exactly one period gets exactly that |
| `Notify.MoveDetected` | SarAsio/sarclient.cpp:148-153 | with two periods in the ring, the test on positions sees a pass of the end (of the middle) exactly when there is one |
| `Notify.DetectionExact` | SarAsio/sarclient.cpp:148-150 | the end test is right about every position if and only if two periods fit the ring |
| `Notify.PassesCounts` | SarAsio/sarclient.cpp:141-147 | the counting of passes is the independent one: each unit step counts exactly when it lands on the mark |
| `Notify.EventsAreCrossings` | SarAsio/sarclient.cpp:148-177 | over any run of ticks, events signalled equal notification places passed, and the position is the distance travelled modulo the ring |
| `Notify.PassingNeedsCurrentHandle` | SarAsio/sarclient.cpp:122-178 | no tick passes a place unless it signalled a handle of the current generation number; otherwise nothing moves |
| `Notify.SteadyPosition` | SarAsio/sarclient.cpp:99-178 | after n moving ticks the position is (p0 + n * chunk) mod size |
| `Notify.MovesExactlyWhen` | SarAsio/sarclient.cpp:122-178 | with two periods in the ring, a tick moves if and only if the generation is active under one number at both reads and either no notification place lies on the way or a handle of that number is on file; what it then becomes, and that it is otherwise unchanged, is given completely; with a count of zero no handle is ever needed |
| `Notify.MovesByHalves` | SarAsio/sarclient.cpp:141-178 | the same for a period of any length, by the halves of the ring where the tick begins and would end |
| `Registers.GenerationRoundTrip` | SynchronousAudioRouter/sar.h:115-117 | number and active bit are recovered from a generation word, wrapping at 2^31 |
| `Registers.ActiveMeansRunning` | SynchronousAudioRouter/pin.cpp:416-443 | a state change leaves the word active exactly when it goes to RUN from another state, and keeps the number |
| `Cells.Bitmap.FindClearBitsAndSet` | SynchronousAudioRouter/wavert.cpp:71-80 | first fit of a run of clear bits, which become set; failure only when no run is clear |
| `Cells.Bitmap.ClearBits` | SynchronousAudioRouter/pin.cpp:306-311 | exactly the given bits become clear |
| `Cells.AllocateThenClear` | SynchronousAudioRouter/wavert.cpp:71-80 | taking cells and clearing them again gives back the bitmap |
| `Kernel.RoundUp32Exact` | SynchronousAudioRouter/wavert.cpp:54-60 | the 32-bit rounding is the intended one if and only if adding s - 1 does not wrap |
| `Kernel.ActualSizeProps` | SynchronousAudioRouter/wavert.cpp:54-60 | the ring is the smallest whole number of frames that is at least the request and the configured periods, and its cells are the fewest that hold it |
| `Kernel.RegisterRecord.Write` | SynchronousAudioRouter/utility.cpp:166-177 | the record becomes the given one |
| `Kernel.ControlContext.SetBufferLayout` | SynchronousAudioRouter/control.cpp:37-121 | parameter checks in order, a second layout refused, fields set once, an all-clear map of one bit per cell, register base behind the cells |
| `Kernel.Endpoint.PinCreate` | SynchronousAudioRouter/pin.cpp:133-169 | one pin at a time; the number goes up by one, inactive, the channel count is published, the other fields stay and the cell fields are cleared |
| `Kernel.Endpoint.GetBuffer` | SynchronousAudioRouter/wavert.cpp:54-125 | cells are taken before the mapping; offset, size and notification count are published as requested and the other fields are as before if everything succeeds; otherwise the record is unchanged |
| `Kernel.Endpoint.PinClose` | SynchronousAudioRouter/pin.cpp:272-317 | the number goes up, inactive, and the other fields stay, before exactly the pin's cells are cleared |
| `Kernel.Endpoint.SetDeviceState` | SynchronousAudioRouter/pin.cpp:410-458 | the word becomes active exactly on going to RUN, the position zero exactly on leaving or entering STOP, and the other fields stay |
| `Protocol.ConfirmedTickUsedOneRing` | SarAsio/sarclient.cpp:68-126 | a tick whose second generation check succeeds used offset, size and notification count of one published ring, and the endpoint owned all its cells at every step from the first read to the check |
| `Protocol.StepKeepsInv` | SynchronousAudioRouter/pin.cpp:133-169 | every step of kernel and client, in any interleaving, keeps the invariant of records, cells and half-done ticks |
| `Protocol.InvAlongRun` | SynchronousAudioRouter/utility.cpp:153-183 | the invariant holds in every reachable state, with every register access a step of its own |
| `Protocol.RingIsInside` | SynchronousAudioRouter/wavert.cpp:71-118 | in every reachable state the set bits are the disjoint union of the endpoints' cells, and a published ring lies in cells of its own endpoint, below the register cell |
| `Protocol.RingsAreDisjoint` | SynchronousAudioRouter/wavert.cpp:71-118 | in every reachable state the published rings of two endpoints share no byte |
| `Protocol.PublishedAsRequested` | SynchronousAudioRouter/wavert.cpp:108-118 | on every run, a published ring has the offset, the size and the notification count of the last buffer request of its endpoint, and there was one |
| `Protocol.RequestIsKept` | SynchronousAudioRouter/wavert.cpp:108-118 | in every interleaving, what a request asked for is what its endpoint is publishing or has published until the next request |
| `Protocol.SecondBufferLeaks` | SynchronousAudioRouter/wavert.cpp:71-84 | taking cells for a pin keeps that partition if and only if the pin had none |
| `Protocol.OpensNeverShrink` | SynchronousAudioRouter/pin.cpp:161-162 | the count of stored opens and closes never goes down |
| `Protocol.AllocStable` | SynchronousAudioRouter/pin.cpp:275-278 | while none is stored, the published ring stays the same |
| `Protocol.TickKeepsStart` | SarAsio/sarclient.cpp:68-75 | within one tick the generation that was read is kept |
| `Protocol.CommitStaysInRing` | SarAsio/sarclient.cpp:162-177 | if nothing was opened or closed since, the committed position lies inside the ring on record |
| `Protocol.CommitSafeExactlyWhen` | SarAsio/sarclient.cpp:162-177 | the position that a confirmed tick commits lies inside the ring on record, for every period, if and only if that ring is no smaller than the one the tick read |
| `Races.LateCommitStallsNextPin` | SarAsio/sarclient.cpp:122-177 | a reachable run in which the unguarded store lands in the next pin's record, beyond its smaller ring |
| `Races.CopyIntoNextPin` | SarAsio/sarclient.cpp:113-131 | a reachable run in which the copy, which comes before the check, goes to cells that by then belong to the running ring of another endpoint; the check then refuses the tick |
| `TickBytes.MovedBytesAreOwn` | SarAsio/sarclient.cpp:68-126 | every byte that the copy of a confirmed tick moves belonged to its endpoint and to nobody else at every step from the first read of the generation to the check |
| `TickBytes.RecordingTickWritesOwnBytes` | SarAsio/sarclient.cpp:115-126 | with what the copy does to the section: every byte that a confirmed recording tick changed was the endpoint's own all along |
| `TickBytes.PlayingTickReadsOwnBytes` | SarAsio/sarclient.cpp:108-126 | what a confirmed playback tick delivers does not depend on any byte that was not the endpoint's own all along |
| `TickBytes.RecordedWritesMoved` | SarAsio/sarclient.cpp:115-120 | a recording period changes no byte outside the planned frames |
| `TickBytes.PlayedReadsMoved` | SarAsio/sarclient.cpp:108-114 | a playback period depends on no byte outside the planned frames |
| `TickBytes.MovesInRing` | SarAsio/sarclient.cpp:99-106 | the planned frames of a period no longer than the ring lie inside the ring, whatever the channel count was |
| `TickBytes.TickIsUsable` | SarAsio/sarclient.cpp:86-97 | in every reachable state a tick that copies or was confirmed has a record that passed the test |
| `TickBytes.CopyIsOwnExactlyWhen` | SarAsio/sarclient.cpp:99-126 | for a tick not yet checked, all the bytes its copy moves belong to its endpoint if and only if both runs lie in the cells the endpoint has at that moment; they do while nothing was opened or closed since the generation was read |
| `HandleQueue.SarHandleQueue.Post` | SynchronousAudioRouter/utility.cpp:356-417 | the first waiting request gets the item, otherwise it is queued; every failure leaves the lists alone |
| `HandleQueue.SarHandleQueue.Wait` | SynchronousAudioRouter/utility.cpp:419-504 | without pending items the request is queued; otherwise the batch is what fits and leaves items only if it is full; the transfer stops at the first failure, whose response has a null handle and is counted |
| `HandleQueue.SarHandleQueue.TakeBatch` | SynchronousAudioRouter/utility.cpp:451-456 | items from the front, in order: as many as there is room for, and fewer only if none is left |
| `HandleQueue.SarHandleQueue.TransferOne` | SynchronousAudioRouter/utility.cpp:251-262 | the response has the associated data, and the handle or null |
| `HandleQueue.SarHandleQueue.Transfer` | SynchronousAudioRouter/utility.cpp:479-501 | all items are handed over, or those before the first failure and a null handle for that one |
| `HandleQueue.SarHandleQueue.Cancel` | SynchronousAudioRouter/utility.cpp:329-353 | a request is cancelled exactly when it was still on the list, and only it leaves |
| `HandleQueue.SarHandleQueue.CancelAll` | SynchronousAudioRouter/utility.cpp:280-308 | all waiting requests are cancelled in order and the list is empty |
| `HandleQueue.StepKeepsInv` | SynchronousAudioRouter/utility.cpp:356-504 | every post, wait, cancellation and later completion keeps the queue's invariant |
| `HandleQueue.QueueIsFaithful` | SynchronousAudioRouter/utility.cpp:273-504 | on every run: items and requests never wait together, deliveries followed by pending items are the posts in order, no request is completed twice, a cancelled one got nothing |
| `HandleQueue.WaitTakesAll` | SynchronousAudioRouter/utility.cpp:440-475 | a wait that finds items takes them from the front, as many as it has room for and fewer only if none is left; one that finds none is queued last; nothing else changes |
| `HandleQueue.PostServesFirst` | SynchronousAudioRouter/utility.cpp:386-415 | a post serves the request that waits longest, or joins the end of the items |
| `HandleQueue.RequestsInOrder` | SynchronousAudioRouter/utility.cpp:280-475 | what each step does to the waiting requests: one leaves in front, one joins at the end, a cancelled one leaves its place, or none |
| `HandleQueue.LastForExactly` | SarAsio/sarclient.cpp:465-479 | the last update of an endpoint is the one behind which no other has its index, and there is none exactly if no item has |
| `HandleQueue.PackRoundTrip` | SynchronousAudioRouter/wavert.cpp:270-273 | index and generation word come back out of the associated data |
| `HandleQueue.ProcessUpdates` | SarAsio/sarclient.cpp:465-479 | each entry becomes its endpoint's last update, others stay, and every handle ever on file or received is on file or closed, as often |
| `HandleQueue.DeliveredTableIsCurrent` | SarAsio/sarclient.cpp:416-479 | with one request under way at a time, the table that the completions were fed to one after the other holds each endpoint's last handle among the items brought, which are the first ones posted; with nothing pending, its last registered handle |
| `Lifetime.DrainList` | SynchronousAudioRouter/entry.cpp:87-94 | every endpoint on the list is unlinked and released once, no other is touched |
| `Lifetime.DeleteControlContext` | SynchronousAudioRouter/entry.cpp:83-103 | both lists are drained |
| `Lifetime.DropContextRestores` | SynchronousAudioRouter/sar.h:416-433 | releasing a context reference restores the counting, and the last one frees every endpoint it still has |
| `Lifetime.NothingPendingAtDeletion` | SynchronousAudioRouter/entry.cpp:96-103 | the loop over pending endpoints in the deletion never has anything to do |
| `Lifetime.StepKeepsInv` | SynchronousAudioRouter/utility.cpp:55-106 | lookup, release, creation, worker and orphaning steps keep the counting, in any order |
| `Lifetime.CountsAreHolders` | SynchronousAudioRouter/sar.h:325-433 | on every run an endpoint's count is its list or thread plus its lookups, a context's is the table plus lookups plus workers, and nothing is freed twice |
| `Lifetime.NothingUsedAfterFree` | SynchronousAudioRouter/entry.cpp:128-181 | no step that control flow permits uses a freed endpoint or context, except for two trace messages |
| `Lifetime.TraceIsSafeExactlyWhen` | SynchronousAudioRouter/control.cpp:613-624 | the message about an endpoint (and, entry.cpp:176-179, about a context) after its release reads live memory if and only if a lookup (or a worker) still holds it then |
| `Lifetime.EndpointReadAfterFree` | SynchronousAudioRouter/control.cpp:613-624 | a run in which the last lookup lets go between that release and the message |
| `Lifetime.ContextReadAfterFree` | SynchronousAudioRouter/entry.cpp:174-181 | the same for the context |
| `Lifetime.FreedContextLeavesNothing` | SynchronousAudioRouter/control.cpp:375-395 | when a context has been freed, each of its endpoints has been freed, exactly once |
| `Lifetime.EndpointMovesExactly` | SynchronousAudioRouter/control.cpp:288-396 | for each place an endpoint can be at, the steps that move it and where to; every other step leaves it there |
| `Lifetime.ContextMovesExactly` | SynchronousAudioRouter/control.cpp:538-552 | the same for a context, and a worker starts exactly when an endpoint joins an empty pending list |
| `Lifetime.EndpointsGoForward` | SynchronousAudioRouter/entry.cpp:129-172 | over every run endpoints only go forward through pending list, worker, list and orphaning, keep their context and are never lost, and none is freed before it has left the last list |
| `JsonRoundTrip.SerializeParses` | SarAsio/picojson.h:439-445 | parsing the compact or prettified text of any value of null, booleans, integers below 2^53, byte strings, arrays and objects gives that value back (RFC 8259 sections 4, 5 and 7) |
| `JsonRoundTrip.ValueReads` | SarAsio/picojson.h:750-803 | the same for a value in any place, with any text behind it that does not continue a number |
| `JsonRoundTrip.EscapeReads` | SarAsio/picojson.h:411-437 | escaped text of any byte string unescapes to it |
| `JsonRoundTrip.DecReads` | SarAsio/picojson.h:379-395 | the decimal text of an integer is an integer text of that value |
| `JsonRoundTrip.ItemsRead` | SarAsio/picojson.h:699-705 | the elements of an array, printed at any depth, read back in order |
| `JsonRoundTrip.MembersRead` | SarAsio/picojson.h:715-726 | the entries of an object, printed at any depth, read back with their keys |
| `JsonGrammar.ParsesExactly` | SarAsio/picojson.h:691-803 | for any split of any text: the parser takes the front for a value and leaves the rest if and only if the front is white space and the concrete parts of that value and does not end inside a number |
| `JsonGrammar.DocReads` | SarAsio/picojson.h:691-803 | one direction: every way to write a value, with any white space, escapes and repeated keys, is read as that value, whatever follows |
| `JsonGrammar.ParsedIsDoc` | SarAsio/picojson.h:691-803 | the other: whatever the parser takes was written in such a way |
| `JsonGrammar.PiecesRead` | SarAsio/picojson.h:653-689 | a string of plain characters and escapes of every kind reads as the bytes they stand for |
| `JsonGrammar.CharsArePieces` | SarAsio/picojson.h:653-689 | whatever reads as a string consists of them |
| `JsonGrammar.LastEntryCounts` | SarAsio/picojson.h:708-727 | an object finds under each key the value of the last entry with that key, and its keys are in order |
| `JsonGrammar.PutFinds` | SarAsio/picojson.h:715-726 | putting a value under a key is found under that key and changes no other |
| `Unicode.Utf8Decodes` | SarAsio/picojson.h:637-649 | an independent decoder, which goes by the lead byte and refuses what is longer than necessary, gets every code point back from the bytes the code appends for it |
| `Unicode.HexValueExactly` | SarAsio/picojson.h:596-607 | hexadecimal digits are those of two lists, and their value is their place |
| `Unicode.PairExactly` | SarAsio/picojson.h:618-636 | every code point from 0x10000 on has exactly one pair of surrogates |
| `Unicode.QuadEscapeReads` | SarAsio/picojson.h:612-651 | one escape of four digits reads as the UTF-8 of its value, unless it is half of a pair |
| `Unicode.PairEscapeReads` | SarAsio/picojson.h:618-649 | two escapes that make a pair read as the UTF-8 of its code point |
| `JsonPrinting.EscapesExactly` | SarAsio/picojson.h:411-437 | a byte is printed with its letter, as four small digits or as itself, exactly when the list of letters and the range of control characters say so |
| `JsonPrinting.NoZeroInFront` | SarAsio/picojson.h:379-395 | integers are printed without a zero in front |
| `JsonPrinting.IndentExactly` | SarAsio/picojson.h:447-452 | a new line is a line feed and two spaces per level, or nothing in compact form |
| `JsonPrinting.ElementsPrint` | SarAsio/picojson.h:462-475 | elements are printed in order with a comma behind all but the last |
| `JsonPrinting.EntriesPrint` | SarAsio/picojson.h:487-505 | entries in the same way, with key, colon and, in prettified form, a space |
| `JsonPrinting.BracketsPrint` | SarAsio/picojson.h:459-513 | the lines between brackets are one level deeper, and empty brackets have none |
| `JsonInput.Input.Getc` | SarAsio/picojson.h:537-552 | delivers the pushed-back character or the next one, -1 at the end |
| `JsonInput.Input.Ungetc` | SarAsio/picojson.h:553-558 | pushes the last character back; its assertion is a precondition proved at every call, so it never fires on any input |
| `JsonInput.Input.SkipWs` | SarAsio/picojson.h:561-569 | stops in front of the first character that is not white space |
| `JsonInput.Input.Expect` | SarAsio/picojson.h:570-577 | takes the wanted character behind white space or nothing |
| `JsonInput.Input.Match` | SarAsio/picojson.h:578-588 | succeeds exactly on the pattern |
| `JsonInput.Input.ParseQuadHex` | SarAsio/picojson.h:591-610 | succeeds exactly on four hexadecimal digits, with their value |
| `JsonInput.Input.ParseCodepoint` | SarAsio/picojson.h:612-651 | succeeds exactly on a scalar value, paired surrogates included, with the bytes that Unicode.Utf8Decodes decodes |
| `JsonInput.Input.ParseString` | SarAsio/picojson.h:653-689 | succeeds exactly as the grammar function for strings, with its result and rest |
| `JsonInput.Input.ParseNumber` | SarAsio/picojson.h:729-748 | collects the longest run of number characters |
| `JsonInput.Input.Parse` | SarAsio/picojson.h:750-803 | succeeds exactly as the grammar function for values, with its result and rest |
| `JsonInput.Input.ParseArray` | SarAsio/picojson.h:691-706 | the same for arrays |
| `JsonInput.Input.ParseObject` | SarAsio/picojson.h:708-727 | the same for objects; a repeated key keeps the last value |
| `JsonOutput.Output.SerializeStr` | SarAsio/picojson.h:411-437 | appends the quoted and escaped text |
| `JsonOutput.Output.SerializeValue` | SarAsio/picojson.h:454-521 | appends exactly the text that the round trip is about |
| `JsonOutput.Output.SerializeArray` | SarAsio/picojson.h:459-483 | the array branch |
| `JsonOutput.Output.SerializeObject` | SarAsio/picojson.h:484-513 | the object branch |
| `JsonOutput.Output.IndentTo` | SarAsio/picojson.h:447-452 | a line feed and two spaces per level |
| `Config.SaveThenLoad` | SarAsio/config.cpp:249-340 | loading what was saved into a fresh configuration gives its canonical form, for any lists |
| `Config.UnchangedExactlyWhen` | SarAsio/config.cpp:306-340 | a configuration comes back unchanged if and only if unattached endpoints have base 0, all defaults are render or capture in one of the three roles, and the minimum frame count is 0 or above 2 |
| `Config.CanonicalTwice` | SarAsio/config.cpp:249-340 | the canonical form is its own canonical form |
| `Config.WriteThenRead` | SarAsio/config.cpp:342-371 | the same through the prettified text and the parser |
| `Config.EndpointRoundTrip` | SarAsio/config.cpp:25-90 | one endpoint: everything but the channel base of an unattached one |
| `Config.DefaultRoundTrip` | SarAsio/config.cpp:92-157 | one default: itself if it can be written, nothing otherwise |
| `Config.ApplicationRoundTrip` | SarAsio/config.cpp:172-247 | one application: everything but the defaults that cannot be written |
| `Config.Driver.LoadObject` | SarAsio/config.cpp:249-304 | fields are replaced where present with the right type, lists are extended, the rest is kept |
| `Config.Driver.FindEndpoint` | SarAsio/config.cpp:373-382 | the first endpoint with that id, or none has it |
| `Config.BuildFinds` | SarAsio/config.cpp:71-90 | inserted entries are found by key, and no others |
| `Config.LoadsExactly` | SarAsio/config.cpp:249-304 | every field that the object has with the right type replaces what was there, whatever its value; lists are extended; any other field is kept |
| `Config.EndpointLoadsExactly` | SarAsio/config.cpp:25-69 | an endpoint loads if and only if its four fields are there with the right types, and each field is as found or as the default says |
| `Config.DefaultLoadsExactly` | SarAsio/config.cpp:92-141 | a default loads if and only if its fields are strings and role and type are among the known names |
| `Config.ApplicationLoadsExactly` | SarAsio/config.cpp:172-221 | an application loads if and only if description and path are strings, and each field is as found or as the default says |
| `Config.ListsInOrder` | SarAsio/config.cpp:265-300 | lists load in order, item by item |
| `Config.OneItem` | SarAsio/config.cpp:265-300 | an item that is no object or does not load is left out |
| `Config.TruncatesTowardsZero` | SarAsio/config.cpp:45-66 | a number becomes its whole part, towards zero |
| `Config.EveryFieldLoads` | SarAsio/config.cpp:249-304 | an object with every field, any minimum frame count included, loads as those fields |
| `Checksum.Xsum` | nm_ping/nm_ping.c:107-121 | the sum of big-endian words with an odd last byte padded by zero, without wrapping for any buffer below 2^48 bytes |
| `Checksum.Finsum` | nm_ping/nm_ping.c:123-130 | folding ends for every sum and gives the complement of its one's-complement sum |
| `Checksum.FoldKeepsSum` | nm_ping/nm_ping.c:125-127 | one fold keeps the one's-complement sum and makes the number smaller |
| `Checksum.WordsOfPieces` | nm_ping/nm_ping.c:134-136 | pieces of even length can be summed apart |
| `Checksum.Ipsum` | nm_ping/nm_ping.c:132-137 | with the result in place the header sums to all ones, whatever the field held and for every header length (RFC 791 section 3.1) |
| `Checksum.IpVerifiesExactly` | nm_ping/nm_ping.c:132-137 | no other value of the field does, except all ones when the result is zero |
| `Checksum.Udpsum` | nm_ping/nm_ping.c:139-153 | with the result in place pseudo-header, header and payload sum to all ones, for odd payloads too (RFC 768) |
| `Checksum.ZeroExactlyWhen` | nm_ping/nm_ping.c:149-152 | the result is the reserved value zero if and only if the words add up to a multiple of 65535 |
| `Checksum.ZeroFieldIsSent` | nm_ping/nm_ping.c:139-153 | a datagram for which zero is returned |
| `Checksum.WordsAreWeighted` | nm_ping/nm_ping.c:107-121 | independently: bytes at even places count 256 times, the others once |
| `Checksum.HeaderLengthIsRfc791` | nm_ping/nm_ping.c:132-137 | the header is four bytes for each unit of the low half of its first byte, whatever the high half is |
| `Checksum.PseudoHeaderIsRfc768` | nm_ping/nm_ping.c:139-148 | the pseudo-header is the two addresses, a zero, the protocol and the datagram length, byte by byte |
| `Checksum.Rfc1071Example` | nm_ping/nm_ping.c:107-130 | the worked example of RFC 1071 section 3 |
| `Glob.SafeFNMatch` | SarAsio/glog/vlog_is_on.cc:75-102 | ends for every pattern and text, accepts exactly the texts that can be cut up as AcceptsExactlyCuts says, is sound, and on texts without a star accepts exactly the effective pattern |
| `Glob.TryRests` | SarAsio/glog/vlog_is_on.cc:92-98 | the loop at a star tries every non-empty rest |
| `Glob.AcceptsOnlyMatches` | SarAsio/glog/vlog_is_on.cc:82-100 | whatever is accepted matches the declared meaning of the wildcards, on all inputs |
| `Glob.AcceptsExactly` | SarAsio/glog/vlog_is_on.cc:84-99 | on texts without a star: two or more stars at the end ask for one character, nothing else differs |
| `Glob.PatternIsRightExactlyWhen` | SarAsio/glog/vlog_is_on.cc:84-99 | a pattern is right on all texts without a star if and only if it does not end in two stars |
| `Glob.TextIsRightExactlyWhen` | SarAsio/glog/vlog_is_on.cc:85-89 | a text is right for all patterns that do not end in two stars if and only if it has no star |
| `Glob.AcceptsExactlyCuts` | SarAsio/glog/vlog_is_on.cc:82-100 | for every pattern and every text, stars in it included: it is accepted if and only if it can be cut into what each character of the pattern may stand for, where a star that comes upon a star stands for just that one |
| `LineReader.ReadFromOffset` | SarAsio/glog/symbolize.cc:144-164 | for every pattern of short reads: all bytes asked for or all up to the end of the file; or an error |
| `LineReader.Reader.ReadLine` | SarAsio/glog/symbolize.cc:406-444 | succeeds exactly when a next line with its line feed fits the buffer, and then holds that line with a NUL behind it |
| `LineReader.Reader.FindLineFeed` | SarAsio/glog/symbolize.cc:460-462 | the first line feed from bol on, or there is none |
| `LineReader.ReadAll` | SarAsio/glog/symbolize.cc:401-444 | a caller that reads until the first failure gets the lines of the file, each once and in order |
| `LineReader.LinesMakeText` | SarAsio/glog/symbolize.cc:404-405 | lines hold no line feed, and with their line feeds they make up the text but for an unterminated tail |
| `ChannelMap.Wrapper.InitVirtualChannels` | SarAsio/wrapper.cpp:587-613 | both lists are maps: every place stands for its channel |
| `ChannelMap.PlaceOfChannel` | SarAsio/wrapper.cpp:592-612 | place k holds channel c of endpoint e if and only if k is c plus the channels of earlier endpoints of that type |
| `ChannelMap.Wrapper.SortApart` | SarAsio/wrapper.cpp:391-407 | requests are sorted apart in order by the hardware's counts of channels, and the call fails exactly if one is beyond those and the virtual channels |
| `ChannelMap.Wrapper.CreateBuffers` | SarAsio/wrapper.cpp:391-478 | refused or failing calls change nothing; a successful one puts answers back, allocates for the others and fills their slots |
| `ChannelMap.RequestedIsSlot` | SarAsio/wrapper.cpp:461-478 | a request for a virtual channel gets the buffers in that channel's slot, unless a later one asks for it again |
| `ChannelMap.TargetsApart` | SarAsio/wrapper.cpp:461-478 | different virtual channels have different slots |
| `ChannelMap.IndexReaches` | SarAsio/wrapper.cpp:391-407 | an index below the hardware's count goes to the hardware; each channel of each endpoint is reached by exactly one index, the count plus the channels in front of it; any other is refused |
| `ChannelMap.OtherSlotKept` | SarAsio/wrapper.cpp:447-478 | the slot of a channel that no request is for is what it was |
| `ChannelMap.BlocksApart` | SarAsio/wrapper.cpp:468-471 | no two requests share a buffer |
| `ChannelMap.HardwareAnswers` | SarAsio/wrapper.cpp:443-445 | the hardware's answer to a request returns to that request |
| `Demangle.Demangle` | SarAsio/glog/demangle.cc:1326-1354 | whether a source name moves the cursor back depends on the text alone; if none does, the code ends for every output size from 1 on, with both cursors inside their buffers, and succeeds exactly on the names of the grammar when the output had room; what it takes is a name of the comments with the code's additions, and one of the comments alone if the reading is clean |
| `Demangle.Demangler.ParseTopLevelMangledName` | SarAsio/glog/demangle.cc:1304-1322 | unless the cursor was moved back, succeeds exactly on a mangled name with nothing, a clone suffix or a version suffix behind it, whatever the output |
| `Demangle.Demangler.IsFunctionCloneSuffix` | SarAsio/glog/demangle.cc:305-325 | the rest of the text is any number of dot, letters, dot, digits |
| `Bnf.WrittenNameIsName` | SarAsio/glog/demangle.cc:472-1304 | every name of the grammar in the comments is one of the grammar with the code's additions, which are alternatives of their own |
| `Reading.AcceptedIsDerived` | SarAsio/glog/demangle.cc:1304-1322 | every accepted text is a name of the grammar in the comments with the code's additions, read without any order of alternatives; and a name of the grammar in the comments alone if the reading of the text is clean |
| `Reading.EncodingIs` | SarAsio/glog/demangle.cc:487-501 | what the ordered reading takes for an encoding is a word for an encoding, and a word of the comments alone if the reading is clean; the same holds rule by rule down to the tokens |
| `Reading.PrefixIs` | SarAsio/glog/demangle.cc:565-595 | what the loop over components takes is the body of a nested name in the left-recursive rules for prefixes, with the code's additions, and of the comments alone where the loop came upon none of them |
| `Reading.OperatorIs` | SarAsio/glog/demangle.cc:1144-1198 | what is read for an operator in front of n expressions is an operator name, and if C++ gives it n operands, the unary, binary or trinary operator of the comments |
| `Written.AcceptsMoreThanWritten` | SarAsio/glog/demangle.cc:549-617 | two accepted texts that are no names of the grammar in the comments: a nested name without components and a name of length zero |
| `Written.NothingBegins` | SarAsio/glog/demangle.cc:549-617 | no text whose encoding is nothing, an E or a whole number zero, behind any count of letters N, is a name of the grammar in the comments |
| `Written.DeadWord` | SarAsio/glog/demangle.cc:472-1304 | at such a place no rule of the comments has a word, but for the empty prefix |
| `Written.CleanIsNotNecessary` | SarAsio/glog/demangle.cc:1144-1198 | a name of the comments that is accepted by a reading that is not clean, as an operator takes the operand of the one in front of it |
| `Encoded.WrittenIsAccepted` | SarAsio/glog/demangle.cc:483-1322 | for symbols built from every rule of the grammar - names in scopes, in none, in std or local, constructors, destructors, operators, tags, all kinds of types, template arguments, literals and expressions, substitutions, special names - with nothing, clone suffixes or a version behind: the text is accepted as a whole, and it is a name of the comments |
| `Encoded.ParameterReads` | SarAsio/glog/demangle.cc:932-983 | the text of a type of any kind is read as that type, wherever it stands and whatever may stand behind it |
| `Encoded.SymbolReads` | SarAsio/glog/demangle.cc:490-501 | the text of a function, datum or special name is read to its end, cleanly, wherever it stands |
| `Encoded.NamedReads` | SarAsio/glog/demangle.cc:507-541 | the text of a nested, unscoped or local name, with arguments, discriminator or neither, is read as that name |
| `Encoded.ComponentsRead` | SarAsio/glog/demangle.cc:576-595 | the loop over components reads them with their arguments and stops at the E; cleanly if and only if there are any |
| `Encoded.PartReads` | SarAsio/glog/demangle.cc:601-632 | names with tags, names behind an L, constructors, destructors, and operators of the three kinds are read as such |
| `Encoded.ListRead` | SarAsio/glog/demangle.cc:1102-1142 | template arguments, packs, literals and bracketed expressions among them, are read one after the other up to the E |
| `Encoded.LiteralReads` | SarAsio/glog/demangle.cc:1205-1234 | integers, runs of hexadecimal digits, and external names in both forms are read as literals, and not as types |
| `Encoded.ExprReads` | SarAsio/glog/demangle.cc:1153-1198 | an expression is read as written, although more operands are tried for first: with operations only as last operands they are not found |
| `Encoded.LengthReads` | SarAsio/glog/demangle.cc:637-659 | a printed length is read back as it was |
| `Encoded.NamelessIsAccepted` | SarAsio/glog/demangle.cc:549-595 | a nested name without components is accepted in the same way, with any parameters and any suffix, and is no name of the comments |
| `Encoded.StructorIsAccepted` | SarAsio/glog/demangle.cc:889-910 | for any class name: its three constructors and three destructors, as functions without parameters, are accepted |
| `Tokens.OperatorIsFound` | SarAsio/glog/demangle.cc:728-771 | where an operator of the table begins in the unordered grammar, the ordered reading finds it |
| `Tokens.BuiltinIsFound` | SarAsio/glog/demangle.cc:998-1014 | the same for the letter of a builtin type |
| `Tokens.CtorDtorIsFound` | SarAsio/glog/demangle.cc:889-910 | the same for constructors and destructors |
| `Tokens.CVQualifiersAreFound` | SarAsio/glog/demangle.cc:988-994 | where qualifiers begin, at least they are read |
| `Tokens.TemplateParamIsFound` | SarAsio/glog/demangle.cc:1077-1091 | the same as for operators for template parameters |
| `Tokens.SubstitutionIsFound` | SarAsio/glog/demangle.cc:1269-1300 | the same for substitutions |
| `Tokens.DiscriminatorIsFound` | SarAsio/glog/demangle.cc:1257-1264 | where a discriminator begins, at least it is read |
| `Tokens.CallOffsetIsFound` | SarAsio/glog/demangle.cc:854-869 | the same as for operators for call offsets |
| `Tokens.SourceNameIsFound` | SarAsio/glog/demangle.cc:609-617 | a name behind its length, if the length fits an int and the name does not begin with a digit |
| `StepBack.StepsBackExactlyWhen` | SarAsio/glog/demangle.cc:637-706 | a number moves the cursor back if and only if its decimal value modulo 2^32 is between 2 and 2^31 with an n in front, or between 2^31 and 2^32 - 2 without |
| `StepBack.NamesAreSafeExactlyWhen` | SarAsio/glog/demangle.cc:609-617 | no end of a text, taken as a name, moves the cursor back if and only if no number in the text does |
| `StepBack.SafeText` | SarAsio/glog/demangle.cc:637-706 | on a text with no number from 2^31 on and no n in front of a value above one, the cursor never moves back and every number is computed as its decimal value, so nothing depends on what an overflow does |
| `StepBack.ProgressExactlyWhen` | SarAsio/glog/demangle.cc:694-706 | a source name with such a number moves forward if and only if the number has more characters than it goes back |
| `StepBack.NothingElseThere` | SarAsio/glog/demangle.cc:576-606 | at such a number no other alternative of a name or a prefix gets anywhere, so the source name is reached |
| `StepBack.LoopStays` | SarAsio/glog/demangle.cc:576-595 | a number that goes back by what was read leaves the loop over prefixes where it was, after any number of turns |
| `StepBack.NestedLoopDoesNotEnd` | SarAsio/glog/demangle.cc:551-595 | a text on which that loop does not end |
| `StepBack.OnlyNameThere` | SarAsio/glog/demangle.cc:932-983 | at digits that step back no alternative of a type but the source name gets anywhere |
| `StepBack.TypesLoopDoesNotEnd` | SarAsio/glog/demangle.cc:1029-1039 | a text without any n on which the loop over parameter types does not end, because the length does not fit an int |
| `StepBack.WrappedLengthIsAccepted` | SarAsio/glog/demangle.cc:637-706 | a length that wraps around to a smaller one is taken for that: an accepted text |
| `Demangle.Demangler.TurnBack` | SarAsio/glog/demangle.cc:576-595 | the calls of one turn of the loop over prefixes at such a number, followed through: they succeed and the cursor is where StepBack says |
| `Demangle.Demangler.TurnsBack` | SarAsio/glog/demangle.cc:576-595 | where the number goes back by what was read, any number of such turns leaves the cursor in place |
| `Mangling.Int32Step` | SarAsio/glog/demangle.cc:637-659 | wrapping around to an int at every digit and at the sign gives the same as wrapping once |
| `StepBack.AcceptedAfterStepBack` | SarAsio/glog/demangle.cc:490-501 | a text on which the code succeeds although it is no mangled name |
| `Mangling.OnePassForExpressions` | SarAsio/glog/demangle.cc:1153-1198 | the repeated reading of operators and operands finds what one pass finds |
| `Mangling.OnePassForNames` | SarAsio/glog/demangle.cc:490-501 | the same for encodings and local names |
| `Demangle.Demangler.Append` | SarAsio/glog/demangle.cc:272-286 | the output cursor goes on by what fits before the place of the NUL, and overflow is noted exactly when not all did |
| `Demangle.Demangler.MaybeAppendWithLength` | SarAsio/glog/demangle.cc:329-345 | only in append mode and for a positive length; a name is remembered by its length; one space more at most |
| `Demangle.Demangler.MaybeCancelLastSeparator` | SarAsio/glog/demangle.cc:395-401 | two characters back under the three conditions, so never below the start of the output; otherwise nothing |
| `Demangle.Demangler.ParseNumber` | SarAsio/glog/demangle.cc:637-659 | end and value are those of sign and digits, the value wrapped around to an int; a sign alone is consumed although it fails |
| `Demangle.Demangler.ParseIdentifier` | SarAsio/glog/demangle.cc:694-706 | fails for -1 and for lengths beyond the text, otherwise moves by the length, backwards for one below -1 |
| `Demangle.Demangler.ParseSourceName` | SarAsio/glog/demangle.cc:609-617 | a number, as an int has it, and so many characters; a number below -1 succeeds at the place it goes back to |
| `Demangle.Demangler.ParseAbiTag` | SarAsio/glog/demangle.cc:721-723 | succeeds exactly on B and a source name; failure leaves a letter B consumed |
| `Demangle.Demangler.ParseAbiTags` | SarAsio/glog/demangle.cc:709-718 | recognises abi-tags, without output |
| `Demangle.Demangler.ParseLocalSourceName` | SarAsio/glog/demangle.cc:624-632 | recognises local-source-name, with or without discriminator |
| `Demangle.Demangler.ParseFloatNumber` | SarAsio/glog/demangle.cc:663-675 | recognises a run of hexadecimal digits |
| `Demangle.Demangler.ParseSeqId` | SarAsio/glog/demangle.cc:679-691 | recognises a run of digits and capitals |
| `Demangle.Demangler.ParseOperatorName` | SarAsio/glog/demangle.cc:728-771 | recognises operator-name: cast, vendor operator or one of the listed pairs of letters |
| `Demangle.Demangler.ParseUnqualifiedName` | SarAsio/glog/demangle.cc:601-606 | recognises unqualified-name, tags included |
| `Demangle.Demangler.ParseUnscopedName` | SarAsio/glog/demangle.cc:528-541 | recognises unscoped-name, with St in front or not |
| `Demangle.Demangler.ParseUnscopedTemplateName` | SarAsio/glog/demangle.cc:545-547 | recognises unscoped-template-name |
| `Demangle.Demangler.ParseNestedName` | SarAsio/glog/demangle.cc:551-563 | recognises nested-name, one level deeper while inside |
| `Demangle.Demangler.ParseName` | SarAsio/glog/demangle.cc:507-524 | recognises name in its four alternatives, in order |
| `Demangle.Demangler.ParseEncoding` | SarAsio/glog/demangle.cc:490-501 | recognises encoding, as function, data or special name |
| `Demangle.Demangler.ParseSpecialName` | SarAsio/glog/demangle.cc:791-850 | recognises special-name: tables, thunks, guards and reference temporaries |
| `Demangle.Demangler.ParseCallOffset` | SarAsio/glog/demangle.cc:854-869 | recognises call-offset |
| `Demangle.Demangler.ParseVOffset` | SarAsio/glog/demangle.cc:877-885 | recognises v-offset |
| `Demangle.Demangler.ParseCtorDtorName` | SarAsio/glog/demangle.cc:889-910 | recognises ctor-dtor-name |
| `Demangle.Demangler.ParseType` | SarAsio/glog/demangle.cc:932-983 | recognises type in all its alternatives, in order |
| `Demangle.Demangler.ParseCVQualifiers` | SarAsio/glog/demangle.cc:988-994 | recognises CV-qualifiers, at least one |
| `Demangle.Demangler.ParseBuiltinType` | SarAsio/glog/demangle.cc:998-1014 | recognises builtin-type: a listed letter or a vendor's |
| `Demangle.Demangler.ParseFunctionType` | SarAsio/glog/demangle.cc:1017-1026 | recognises function-type |
| `Demangle.Demangler.ParseBareFunctionType` | SarAsio/glog/demangle.cc:1029-1039 | recognises bare-function-type, without output |
| `Demangle.Demangler.ParseArrayType` | SarAsio/glog/demangle.cc:1048-1062 | recognises array-type with a number or an expression |
| `Demangle.Demangler.ParsePointerToMemberType` | SarAsio/glog/demangle.cc:1065-1073 | recognises pointer-to-member-type |
| `Demangle.Demangler.ParseTemplateParam` | SarAsio/glog/demangle.cc:1077-1091 | recognises template-param |
| `Demangle.Demangler.ParseTemplateTemplateParam` | SarAsio/glog/demangle.cc:1096-1099 | recognises template-template-param |
| `Demangle.Demangler.ParseTemplateArgs` | SarAsio/glog/demangle.cc:1102-1114 | recognises template-args, without output |
| `Demangle.Demangler.ParseTemplateArg` | SarAsio/glog/demangle.cc:1121-1142 | recognises template-arg: packs, types, expressions and literals |
| `Demangle.Demangler.ParseExpression` | SarAsio/glog/demangle.cc:1153-1198 | recognises expression, every arity tried in turn |
| `Demangle.Demangler.ParseExprPrimary` | SarAsio/glog/demangle.cc:1205-1234 | recognises expr-primary |
| `Demangle.Demangler.ParseLocalName` | SarAsio/glog/demangle.cc:1239-1254 | recognises local-name |
| `Demangle.Demangler.ParseDiscriminator` | SarAsio/glog/demangle.cc:1257-1264 | recognises discriminator |
| `Demangle.Demangler.ParseSubstitution` | SarAsio/glog/demangle.cc:1269-1300 | recognises substitution |
| `Demangle.Demangler.ParsePrefix` | SarAsio/glog/demangle.cc:576-595 | recognises prefix; it always succeeds, possibly without moving |
| `Demangle.Demangler.ParseMangledName` | SarAsio/glog/demangle.cc:483-485 | succeeds exactly on _Z and an encoding; after a failure the cursor is behind the two letters if they are there |

## Left out

- Client.SarClient.TickEndpoint: one endpoint of the tick's loop; the second read of the generation is a parameter here and a step in `Protocol`. A ring whose end wraps around in 32 bits and a period longer than the ring are excluded.
- Client.SarClient.CopyPeriod: a period longer than the ring is excluded.
- Recording.RingHoldsLastFrames: for a channel that has a host buffer in every tick; between the ticks nobody writes to the ring, as module `Protocol` has it.
- TickBytes.MovedBytesAreOwn: a period longer than the ring is excluded, and the premises are those of `ConfirmedTickUsedOneRing`.
- Protocol.ConfirmedTickUsedOneRing: premises are one buffer per pin before its first RUN, register access that succeeds, and fewer than 2^31 opens and closes during the tick. The channel count is read before the generation and is not covered. Writes of other processes to the shared section and the ordering of memory accesses by the processor are outside.
- Protocol.RingsAreDisjoint: the sizes are those that fit their cells; a size that wraps in 32 bits is described by `Kernel.RoundUp32Exact` only.
- Kernel.Endpoint.GetBuffer: a frame of zero bytes, by which the code would divide, is excluded. Mapping a section and finding the process's view are successes or failures, not addresses; the fields of the answer to the audio engine are left out.
- Kernel.Endpoint.PinCreate: the reading of the connection format is a parameter, the channel count.
- Notify.EventsAreCrossings: a failing SetEvent is not told apart from a successful one, as in the code, which only logs it.
- HandleQueue.DeliveredTableIsCurrent: handles are duplicated and each completion is fetched once, in the order in which the requests were completed.
- HandleQueue.ProcessUpdates: an index outside the table, which the code does not check, is excluded.
- HandleQueue.QueueIsFaithful: delivery means handed over under the lock; a handle that then cannot be duplicated is lost as `Wait` says. Waits have room for one response.
- HandleQueue.SarHandleQueue.Cancel: the I/O manager's own cancel lock and the completion routine are outside; a cancellation is the search under the queue's lock.
- Lifetime.CountsAreHolders: one worker of a context runs at a time, and requests of the control device, which borrow the context, are outside. Lists are places of endpoints, so their order and their links are not kept.
- JsonInput.Input.Getc: the line counter, used for error messages only, is left out.
- JsonInput.Input.ParseNumber: `strtod`, number formatting and the locale's decimal point are parameters; the round trip assumes that they are right about integers.
- JsonRoundTrip.SerializeParses: numbers that are not integers below 2^53 in magnitude are left to the library's printing and reading.
- Config.WriteThenRead: a file that does not parse is read as the fresh configuration; the part of a value that the parser may have filled in before it failed is not modelled. Wide and UTF-8 text convert without loss. The compiled pattern of an application is not kept.
- Config.Driver.LoadObject: the objects inside the lists are loaded by functions, not by methods that fill in an object.
- Checksum.Ipsum: a header length that ends before the source address, for which the code's length would wrap, is excluded.
- Checksum.Udpsum: a length field below 8 or beyond the payload is excluded.
- LineReader.Reader.ReadLine: nothing is promised for calls after the first failure, which callers do not make. Interrupted reads are repeated invisibly.
- ChannelMap.Wrapper.CreateBuffers: the channel lists belong to the current endpoints, which the control panel can change without rebuilding them; channel counts are not negative; allocation succeeds; the two swap buffers of a slot are one pair; the branch without a hardware driver, the sample rate check, the callbacks and the second active wrapper are left out, as are channel names and the copy of the buffers in the channel record.
- Demangle.Demangler.Append: where the next character goes and whether it fits, not which characters are written.
- Demangle.Demangler.MaybeAppendWithLength: the test on the last character written is left open, as those are not kept.
- Demangle.Demangle: the characters of the output are not kept, only where the next one goes, and the decision that reads them back is left open. The overflow of a length is the wrap-around of two's complement, where C++ leaves it undefined; the nesting level is not bounded by its integer type. Once a source name has moved the cursor back, nothing more is said about the run but what module `StepBack` and `TurnBack` have. On Windows the function calls the system's own demangler instead.
- Demangle.Demangler.ParseTopLevelMangledName: the run behind a source name that moved the cursor back is not followed.
- Demangle.Demangler.ParseMangledName: the run behind a source name that moved the cursor back is not followed.
- Demangle.Demangler.ParseEncoding: the run behind a source name that moved the cursor back is not followed.
- Demangle.Demangler.ParseName: the run behind a source name that moved the cursor back is not followed.
- Demangle.Demangler.ParseUnscopedName: the run behind a source name that moved the cursor back is not followed.
- Demangle.Demangler.ParseUnscopedTemplateName: the run behind a source name that moved the cursor back is not followed.
- Demangle.Demangler.ParseNestedName: the run behind a source name that moved the cursor back is not followed.
- Demangle.Demangler.ParsePrefix: the run behind a source name that moved the cursor back is not followed.
- Demangle.Demangler.ParseUnqualifiedName: the run behind a source name that moved the cursor back is not followed.
- Demangle.Demangler.ParseSourceName: the run behind a source name that moved the cursor back is not followed.
- Demangle.Demangler.ParseLocalSourceName: the run behind a source name that moved the cursor back is not followed.
- Demangle.Demangler.ParseAbiTags: the run behind a source name that moved the cursor back is not followed.
- Demangle.Demangler.ParseAbiTag: the run behind a source name that moved the cursor back is not followed.
- Demangle.Demangler.ParseOperatorName: the run behind a source name that moved the cursor back is not followed.
- Demangle.Demangler.ParseSpecialName: the run behind a source name that moved the cursor back is not followed.
- Demangle.Demangler.ParseType: the run behind a source name that moved the cursor back is not followed.
- Demangle.Demangler.ParseBuiltinType: the run behind a source name that moved the cursor back is not followed.
- Demangle.Demangler.ParseFunctionType: the run behind a source name that moved the cursor back is not followed.
- Demangle.Demangler.ParseBareFunctionType: the run behind a source name that moved the cursor back is not followed.
- Demangle.Demangler.ParseArrayType: the run behind a source name that moved the cursor back is not followed.
- Demangle.Demangler.ParsePointerToMemberType: the run behind a source name that moved the cursor back is not followed.
- Demangle.Demangler.ParseTemplateArgs: the run behind a source name that moved the cursor back is not followed.
- Demangle.Demangler.ParseTemplateArg: the run behind a source name that moved the cursor back is not followed.
- Demangle.Demangler.ParseExpression: the run behind a source name that moved the cursor back is not followed.
- Demangle.Demangler.ParseExprPrimary: the run behind a source name that moved the cursor back is not followed.
- Demangle.Demangler.ParseLocalName: the run behind a source name that moved the cursor back is not followed.
- Reading.AcceptedIsDerived: one direction, as `Written.CleanIsNotNecessary` shows for the clean reading; a name of the grammar that the ordered reading does not find is possible, and for the texts of `Encoded` it is excluded. That each of the code's additions is needed for some text is shown for two of them.
- Encoded.WrittenIsAccepted: the texts are those where nothing that follows continues what stands before: an argument pack in the letters of an argument list not behind a type, an operation only as the last operand, a number behind a local name not in front of a digit, literals of a builtin type but `__int128` or of a nested class, classes but no functions as types, names that do not begin with a digit and whose length fits an int.
- Format negotiation, filter descriptors, registry callbacks, the user interface, MMDevice wrappers, installer actions, logging and packet I/O are plumbing or field copying.
- The client's completion port calls (`updateNotificationHandles`) are left out but for the rule that one request is under way at a time.
