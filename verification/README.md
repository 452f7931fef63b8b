# Verified model of the VoiceFlux audio kernel

The repository is a real-time voice kernel: audio frames come up a WebSocket through a lock-free
ring into ASR, an orchestrator runs one LLM-to-TTS turn at a time, and synthesized audio goes back
through a second ring, all of it interruptible by the user.  This project models the concurrent and
stateful core of that kernel in Dafny 4.11 and proves what it promises over every run.

`dafny verify dfyconfig.toml` checks the whole project.

## How it is organised

| file | what it holds |
|---|---|
| `RingSteps.dfy`, `RingInvariant.dfy`, `RingTheorems.dfy`, `RingMemory.dfy` | the ring, one atomic load, store or CAS per step, with a program counter per thread; its invariant; refinement of an atomic queue, conservation, eviction bounds, the capacity-one failure |
| `RingBuffer.dfy` | `Ring`, `AudioEdge` and `BufferPool` as objects; each access of `TryPush`, `PopAs` and `Push` is paired with the step of `RingSteps` it stands for |
| `Edge.dfy` | the ring plus its doorbell: no lost wakeup |
| `Vad.dfy`, `ControlPlane.dfy` | energy detector, conversation machine and controller as objects; the product of detector, machine, latched barge-in and orchestrator |
| `Takeover.dfy`, `BufferFlow.dfy`, `Uplink.dfy` | session takeover; pooled buffers, ingress ring and ASR pump; the product of the two |
| `TurnChain.dfy`, `Flush.dfy` | one response turn and its cancellation; the downlink around a barge-in |
| `Framer.dfy` | the PCM framer and its pacer |
| `Codec.dfy` | the wire frame with its two readers |
| `Histogram.dfy` | latency histogram, window difference and quantile estimate |

Goroutines are step machines on values: `Step` performs one atomic step of one goroutine, a disabled
action changes nothing, and `Exec` runs an arbitrary list of actions, so a statement about
`Exec(Init(...), run)` for every `run` covers every interleaving and every choice of a ready select
arm.  Fields marked "history" only record what happened.  Sequential code that changes fields or
loops is written as classes and methods.  Atomics are sequentially consistent, cursors and counters
are unbounded, times and levels are exact.

Outside things enter as parameters or free choices: the wall clock moves forward by any amount at any
reading, sleeps end late, sends block, the environment cancels at will, adapters obey only their
stated streaming contract (internal/adapter/adapter.go:40-56), and a frame's RMS is a real number.

Four promises turned out to need a condition.  Each is proved as an equivalence, with a run that
shows the failing side happening:

- `New` accepts capacity one, where "published" and "free for the next lap" are the same stamp; the
  ring refines the atomic queue on every run exactly when its capacity is at least two
  (`CapacityDecides`).
- A latched barge-in can outlive the turn it was meant for; a turn can be cancelled although the user
  never spoke in it exactly when it starts with the latch set and the user silent (`StaleLatchIff`),
  and frames of a possible RMS lead there exactly when some frame can count as loud and some as quiet
  (`StaleLatchReachableIff`).
- The comment in `attach` says that waiting under the mutex cannot deadlock.  The code can: a read
  loop handling STOP needs that mutex.  The mutex is taken before the old attachment is marked stale,
  and a STOP may slip in between; so an attach can deadlock exactly when, as it takes the mutex, the
  current read loop is alive and is inside `close` or the session is still listed
  (`AttachDeadlocksIff`).  At the mark it can exactly when that loop is inside `close`, or got a STOP
  past the stale check of a session still listed (`MarkedDeadlocksIff`); and it is stuck exactly once
  the loop has reached `close` (`TakeoverCompletesIff`).
- The pool's sizing comment allows for one or two frames with the pump; with two ring slots or one that is
  not enough, and the pool never misses exactly when the ring has more than two (`PoolSizingIff`).

## Model

| member | source | states |
|---|---|---|
| `RingInvariant.StepInv` | internal/ringbuf/ring.go:104-161 | every single atomic step, of the producer or of any claimant, keeps the slot, cursor, claim and history invariant |
| `RingInvariant.StampAtHead` | internal/ringbuf/ring.go:42-52 | what the sign of the stamp difference means for a possibly stale head: published, empty, or head has moved |
| `RingInvariant.IndexIsRemainder` | internal/ringbuf/ring.go:125 | the slot index by repeated subtraction is the position modulo the capacity, as the mask computes it |
| `RingTheorems.StepRefines` | internal/ringbuf/ring.go:123-161 | each step as an onlooker sees it, an element appearing, one being claimed, a pop coming back empty or nothing, is the enqueue, the dequeue of the oldest element, a look at an empty queue, or invisible |
| `RingTheorems.EmptyMeansEmpty` | internal/ringbuf/ring.go:142-161 | over every run a pop that comes back empty, the evicting producer's too, does so while the queue is empty |
| `RingTheorems.LeftAlonePopReturns` | internal/ringbuf/ring.go:142-161 | over every run a claimant left alone at any point of pop returns within eight steps, with the element it has won or else the oldest one, empty-handed only if there is none |
| `RingTheorems.PushEndsPublished` | internal/ringbuf/ring.go:104-133 | over every run a push that ends has published and announced its element as the newest one, except under Reject when the last lap's element was still on its slot |
| `RingTheorems.LeftAlonePushEnds` | internal/ringbuf/ring.go:104-133 | over every run a DropOldest push left alone at any point makes room by itself and ends with its element published within 3 * capacity + 15 steps, unless a claimant still holds the last lap's element |
| `RingMemory.FreeSlotsAreEmpty` | internal/ringbuf/ring.go:155-158 | over every run a slot that has been given back holds no reference, unless the producer has just filled it |
| `RingTheorems.RingRefinesQueue` | internal/ringbuf/ring.go:58-67 | for capacity at least two, what an onlooker sees of any interleaving is a history of an atomic FIFO queue |
| `RingTheorems.RingConserves` | internal/ringbuf/ring.go:104-161 | every pushed element is buffered, in flight with exactly one thread, or returned to exactly one thread with its own value; at most capacity are buffered; each thread sees increasing positions; dropped counts the evictions up to one pending increment |
| `RingTheorems.HolderReadsItsElement` | internal/ringbuf/ring.go:154-159 | from the won CAS to the release, the winner of position h reads or has read the h-th pushed value, and the producer has not lapped it |
| `RingTheorems.InvSound` | internal/ringbuf/ring.go:144-160 | at most capacity elements are buffered, and every retry inside pop means that head has advanced since it was read |
| `RingTheorems.RefusalMeansOccupied` | internal/ringbuf/ring.go:104-133 | under Reject a push is refused exactly when the queue is full or the last lap's element is still being read off its slot |
| `RingTheorems.PushEvictsAtMost` | internal/ringbuf/ring.go:104-121 | one push evicts at most capacity minus one elements however claimants run, and exactly one when it evicts tail minus capacity itself |
| `RingTheorems.FreedPushCompletes` | internal/ringbuf/ring.go:104-133 | once the last lap's element has left its slot, or the producer holds it itself, a push that stands anywhere, inside an eviction included, completes within 3 * capacity + 14 steps of its own (six outside an eviction) and publishes exactly its argument, whatever the claimants do |
| `RingTheorems.LenSnapshot` | internal/ringbuf/ring.go:163-174 | with any steps between its two loads, the reported length is the count at the first load less what was claimed in between and an element not yet announced, never below zero |
| `RingTheorems.CapacityOneLoses` | internal/ringbuf/ring.go:86-100 | on capacity one the second push overwrites the first element and pop then retries forever on an unmoved head |
| `RingTheorems.CapacityOneMisreports` | internal/ringbuf/ring.go:86-100 | on capacity one a pop also reports an empty ring while an element is buffered |
| `RingTheorems.CapacityDecides` | internal/ringbuf/ring.go:86-100 | every run refines the atomic queue if and only if the capacity is at least two; likewise for the size bound with honest retries |
| `RingBuffer.Ring.PushAll` | internal/ringbuf/ring.go:102-121 | with nobody popping, any run of pushes under DropOldest leaves exactly the newest elements, of those there and those pushed, that fit, in order, and raises dropped by the number that did not |
| `RingBuffer.Ring.New` | internal/ringbuf/ring.go:87-100 | a ring is made exactly for a capacity that is two to some power, and is empty |
| `RingBuffer.Ring.TryPush` | internal/ringbuf/ring.go:123-133 | succeeds exactly when there is room and then appends; otherwise changes nothing |
| `RingBuffer.Ring.PopAs` | internal/ringbuf/ring.go:142-161 | returns and removes the oldest element, or reports empty; the code is a run of the step machine |
| `RingBuffer.Ring.Pop` | internal/ringbuf/ring.go:137-139 | FIFO removal for the consumer |
| `RingBuffer.Ring.Push` | internal/ringbuf/ring.go:104-121 | appends; when full, refuses under Reject or evicts exactly the oldest element and counts it |
| `RingBuffer.Ring.Len` | internal/ringbuf/ring.go:163-174 | exact when no call is in progress, and computed from the two cursors as `LenSnapshot` assumes |
| `RingBuffer.AudioEdge.Push` | internal/pipeline/edge.go:29-38 | a kept frame leaves a token in the bell |
| `RingBuffer.AudioEdge.Drain` | internal/pipeline/edge.go:62-70 | empties the ring, reports how many frames that was and leaves the bell alone |
| `RingBuffer.BufferPool.New` | internal/ringbuf/pool.go:23-32 | made exactly for a count that is two to some power, with the buffers preallocated in order |
| `RingBuffer.BufferPool.Get` | internal/ringbuf/pool.go:36-42 | the oldest free buffer, or a new one counted as a miss |
| `RingBuffer.BufferPool.Put` | internal/ringbuf/pool.go:46-51 | keeps the buffer unless it is too small or the list is full |
| `Edge.EdgeNeverLosesWakeup` | internal/pipeline/edge.go:29-70 | over every interleaving of producer, consumer and drains: a consumer that saw an empty ring and waits in front of a non-empty one finds a token unless the producer still owes it |
| `Edge.ParkedConsumerWakes` | internal/pipeline/edge.go:45-58 | such a consumer is woken by at most two further steps of the producer, takes the token and is back to popping in front of the same elements |
| `Edge.EveryWakeupWasRung` | internal/pipeline/edge.go:29-38 | a token is taken once: there are never more wakeups than rings of the bell |
| `Edge.BellAfterPush` | internal/pipeline/edge.go:29-58 | the bell is rung only for an element already announced, and a waiting consumer can always leave |
| `Vad.Machine.Apply` | internal/vad/machine.go:93-158 | accepts exactly the events that make sense after those accepted so far and asks for what they ask for; the state is the meaning of the accepted events; any other event is counted and changes nothing |
| `Vad.TableMeans` | internal/vad/machine.go:103-157 | SPEAKING_USER exactly when the last speech event was a start, else as the last event decides; end of utterance asked exactly by a speech end, cancellation exactly by a speech start outside LISTENING or a response started over speech |
| `Vad.DurationFrames` | internal/vad/controller.go:54-65 | the least number of frames that covers the duration, and at least one |
| `Vad.Energy.Process` | internal/vad/vad.go:67-93 | one step of the detector function |
| `Vad.DetectorFiresExactly` | internal/vad/vad.go:45-93 | speech start is reported exactly outside speech after minSpeech loud frames in a row, speech end exactly inside speech after hangover quiet frames in a row |
| `ControlPlane.Controller.Ingest` | internal/vad/controller.go:69-99 | detect, transition, action: the reader's steps of the product, then the frame is forwarded |
| `ControlPlane.Controller.Notify` | internal/vad/controller.go:76-99 | the turn hooks, on the exiting path too, are the orchestrator's steps of the product |
| `ControlPlane.NeverIllegal` | internal/vad/machine.go:103-157 | the illegal counter stays zero over every interleaving of detector and turn lifecycle |
| `ControlPlane.HistoryDecides` | internal/pipeline/turn.go:172-207 | over every run the machine stands where the accepted events put it; turns are started by non-empty finals only, each announced once at its start and once at its end; an end of utterance is latched or about to be exactly if a speech end was accepted |
| `ControlPlane.BargeInsAreAskedFor` | internal/pipeline/pipeline.go:126-133 | every barge-in taken spends a request of its own; requests may coalesce, none is spent twice |
| `ControlPlane.SelectLeads` | internal/pipeline/pipeline.go:164-212 | a cancelled context or failed recognizer ends the loop, a finished or interrupted turn leads back to idle, a non-empty final to a running turn, an empty one nowhere, and an idle barge-in is consumed without effect |
| `ControlPlane.SpeakingInterrupts` | internal/pipeline/turn.go:172-207 | whenever the user speaks over an active turn, a cancellation is latched, about to be latched, or the turn is being ended |
| `ControlPlane.LatchEndsTurn` | internal/pipeline/pipeline.go:164-212 | with the latch set and a turn running, the orchestrator's next move ends that turn whichever ready arm it takes, and the latch stays set until then |
| `ControlPlane.StaleLatchIff` | internal/pipeline/pipeline.go:126-133 | a turn can be cancelled without the user having spoken in it if and only if it starts with the latch set while the user is silent |
| `ControlPlane.StaleLatchHappens` | internal/pipeline/pipeline.go:195-210 | a turn that finishes just as it is interrupted leaves such a latch, on frames between silence and full scale, for every minSpeech and hangover |
| `ControlPlane.StaleLatchReachableIff` | internal/vad/vad.go:67-108 | frames between silence and full scale can leave such a latch if and only if the exit threshold is positive and the enter threshold at most full scale |
| `Takeover.TakeoverFence` | internal/session/session.go:135-177 | at most one read loop is alive, it belongs to the newest attachment at the current epoch; epochs strictly increase; ingested numbers strictly increase and never go back to an older attachment |
| `Takeover.StepFence` | internal/session/session.go:135-169 | an attach is completed only on an open session, raises the epoch and finds every earlier read loop exited; a frame is ingested only from the newest attachment and above the watermark, which it becomes |
| `Takeover.MarkedAddsAtMostOne` | internal/session/session.go:144-152 | once the old attachment is marked stale, it and all before it add at most one frame ever: the one already past the stale check, if above the watermark, and before anything of the new attachment |
| `Takeover.AudioFate` | internal/session/session.go:244-253 | an audio frame that arrives on a stale attachment is only counted; on a current one it is ingested exactly when above the watermark, else counted as a duplicate |
| `Takeover.PassedFate` | internal/session/session.go:249-253 | a frame past the stale check is ingested at its loop's next step exactly when above the watermark |
| `Takeover.EveryFrameHasAFate` | internal/session/session.go:230-271 | over every run each frame read is ingested, counted as duplicate or stale, dealt with as control, or in the hand of the one live loop |
| `Takeover.AttachIsChecked` | internal/session/session.go:135-143 | an attach gets past its checks exactly with a newer claim on an open session, else it changes nothing |
| `Takeover.AttachTakesItsClaim` | internal/session/session.go:153-169 | a completed attach has its claim as epoch, is current, and keeps the watermark |
| `Takeover.StaysCurrent` | internal/session/session.go:161-178 | an attachment stops being current only when both its loops are over or another attach completes |
| `Takeover.DetachLetsGo` | internal/session/session.go:171-178 | once both loops are over the attachment is let go, and no other one is |
| `Takeover.ClosedOnce` | internal/session/manager.go:238-246 | however many reclaim it, a session leaves the table once and is closed at most once |
| `Takeover.ClosedRefusesAll` | internal/session/session.go:137-139 | once close has had the mutex no attach is ever accepted |
| `Takeover.StopEndsSession` | internal/session/session.go:259-267 | with nobody attaching, a STOP on the current attachment closes the session and ends its read loop |
| `Takeover.Watermark.Advance` | internal/session/session.go:202-212 | with rivals raising the mark at any point: a number is claimed at most once and only above the mark, a lost swap is retried, a refusal means the mark is at least the number; undisturbed it is claimed exactly when above the mark, which becomes the maximum |
| `Takeover.AttachDeadlocksIff` | internal/session/session.go:135-152 | an attach with a newer claim on an open session can deadlock if and only if, as it takes the mutex, the current read loop is alive and is inside close or the session is still listed |
| `Takeover.MarkedDeadlocksIff` | internal/session/session.go:144-152 | as the old attachment is marked stale, that is so if and only if its read loop is inside close, or got a STOP past the stale check while the session is still listed |
| `Takeover.TakeoverCompletesIff` | internal/session/session.go:144-152 | a takeover that holds the mutex can still complete if and only if the old read loop is not inside close |
| `Takeover.DeadlockHappens` | internal/session/session.go:259-267 | a STOP frame racing a reconnect reaches that deadlock |
| `BufferFlow.BuffersHaveOneOwner` | internal/pipeline/pipeline.go:255-305 | at every step each buffer is in exactly one place, and the one ASR may read is with the pump only |
| `BufferFlow.UplinkConserves` | internal/pipeline/pipeline.go:266-298 | ASR gets strictly increasing frames; every accepted frame has exactly one fate: handed over, evicted, discarded, or in flight |
| `BufferFlow.RingIsFifo` | internal/pipeline/pipeline.go:266-298 | accepted frames leave the ring in order, evictions and the pump alike taking the oldest |
| `BufferFlow.OneStreamPerUtterance` | internal/pipeline/pipeline.go:226-320 | over every run each boundary ends one ASR stream and one is opened for it |
| `BufferFlow.BoundaryStartsNext` | internal/pipeline/pipeline.go:299-310 | from a boundary on nothing is handed over until ASR has returned; then the last buffer is given back and a fresh stream starts with empty hands |
| `BufferFlow.PoolIsAccountedFor` | internal/ringbuf/pool.go:36-51 | over every run the free list holds only full-sized buffers, at most twice the ring's capacity, and the buffers left to the collector are exactly those of evicted frames, refused puts and those the reader gave up |
| `BufferFlow.BuffersFit` | internal/session/session.go:226-258 | only pooled connections take from the pool; a payload goes into the buffer at hand exactly when it fits, else into a new one of its size |
| `BufferFlow.PoolSizingIff` | internal/session/session.go:80-84 | with twice the ring's capacity in buffers, undisturbed runs never miss and never lose a buffer, if and only if the ring has more than two slots |
| `BufferFlow.TwoSlotsMiss` | internal/session/session.go:80-84 | the run in which two slots are too few |
| `BufferFlow.OneSlotMisses` | internal/session/session.go:80-84 | the run in which one slot is too few |
| `Uplink.UplinkEndToEnd` | internal/session/session.go:148-258 | over any reconnects and replays: increasing delivery to ASR, exact conservation of what the session let in, one place per buffer, and an attach completes only when the buffer path has no read loop, so the pool has a single getter |
| `Uplink.PayloadFits` | internal/session/session.go:235-243 | a payload that a pooled connection has read is in a buffer that holds it |
| `TurnChain.ReplyIsWhatWasSpoken` | internal/pipeline/turn.go:108-171 | tokens taken by TTS, given to TTS, recorded and emitted are prefixes of each other, the record is ahead by at most one, and all are equal when a turn ends uncancelled |
| `TurnChain.CancelledTurnEnds` | internal/pipeline/turn.go:191-197 | however a cancelled turn goes on, the kernel's own and the contractually due steps are boundedly many, with a fixed surcharge for each send an adapter still gets through, and until done closes another one is ready |
| `TurnChain.EveryFrameReachesEgress` | internal/pipeline/turn.go:143-166 | each frame TTS sent is in the bounded channel, in the pump's hand or on egress, and when the turn is done, cancelled or not, all are on egress |
| `TurnChain.CancelledIff` | internal/pipeline/turn.go:89-113 | a turn is cancelled exactly if somebody cancelled it or one of its stages failed |
| `Flush.FlushIsClean` | internal/pipeline/turn.go:194-208 | at most one turn writes egress; after a cancelled turn has drained it, it stays empty until the next turn; behind each barge-in marker at most one frame of that turn or an earlier one follows |
| `Flush.OnlyCancelledTurnsAreFlushed` | internal/pipeline/turn.go:179-208 | each marker on the wire is of a turn the run cancels and each drained frame of such a turn or an earlier one; without a cancellation nothing is marked or drained |
| `Flush.EveryFrameGoesSomewhere` | internal/session/session.go:330-346 | egress is first in, first out; what leaves it is evicted, drained or taken by the audio pump; what the pump took is on the wire in that order, but for the frame in its hand |
| `Flush.EveryNoticeCounts` | internal/session/session.go:348-372 | every cancellation and every subtitle ends up on the wire or in the drop counter, once |
| `Flush.DrainedTurnIsMarked` | internal/session/session.go:362-372 | a drained turn puts its marker on the wire, or counts it when 256 messages wait |
| `Flush.QueuesAreBounded` | internal/session/session.go:330-346 | at most 256 messages wait, the others were written, and egress holds no more than it can |
| `Flush.OneLateFrameHappens` | internal/session/session.go:330-346 | that one frame, in the audio pump's hand, does occur |
| `Framer.ChunkIndependence` | internal/adapter/ttsframe.go:34-87 | however a stream is split into Emit calls, Flush completes the frames of one-shot framing |
| `Framer.FramesAreExact` | internal/adapter/ttsframe.go:26-87 | the frames carry the stream plus zero padding to a whole frame, and frame i is stamped by the sample clock with no accumulated rounding |
| `Framer.PCMFramer.Pace` | internal/adapter/ttsframe.go:46-63 | the anchor never moves back, moves only for a frame that is late and then to no later than now, and never lies before the frame's turn; after the wait the frame is at most Lead early |
| `Framer.PCMFramer.Emit` | internal/adapter/ttsframe.go:34-73 | sends exactly the whole frames; frame i ever sent stands at i * samples * 10^9 / rate nanoseconds, entered with the time its send was taken, and for any two the distance is at most elapsed time plus Lead plus one frame, for any clock, late wakeups, blocked sends and cancellation; a cancelled call has sent a prefix |
| `Framer.PCMFramer.Flush` | internal/adapter/ttsframe.go:76-87 | sends the zero-padded rest, if any; a cancelled send sends nothing and loses the rest |
| `Codec.AppendBinary` | internal/transport/frame.go:69-87 | keeps the buffer as a prefix and appends a message laid out byte by byte as the format says, which decodes to the frame with its type cut to a byte; refuses exactly a payload above 65536 bytes |
| `Codec.DecodeEncode` | internal/transport/frame.go:69-126 | decoding an encoded frame returns it if and only if its type fits the type byte |
| `Codec.EncodeDecode` | internal/transport/frame.go:92-126 | re-encoding any accepted buffer gives the same bytes |
| `Codec.AcceptsExactlyEncodings` | internal/transport/frame.go:116-126 | a buffer is accepted exactly when it encodes some frame |
| `Codec.DecodeVerdict` | internal/transport/frame.go:92-126 | by the bytes: which buffers are accepted, and the error of every other in the order of the checks |
| `Codec.ReadFrameInto` | internal/transport/wsconn.go:44-77 | the streaming reader accepts exactly what Decode accepts, with the same frame in the returned buffer; every rejection has its error; a rejected header leaves the buffer alone and the buffer only grows |
| `Codec.StreamVerdict` | internal/transport/wsconn.go:44-77 | a rejected message ends early, is rejected as Decode rejects it, or goes on after its payload |
| `Histogram.Instrument.Observe` | internal/metrics/metrics.go:41-59 | counts a non-negative value in its bucket and ignores a negative one |
| `Histogram.Instrument.Export` | internal/metrics/metrics.go:91-103 | the cumulative export gives, for each bound, the number of observations at most it |
| `Histogram.HistDelta` | internal/loadgen/scrape.go:100-120 | sorted bounds of the later scrape and the growth between neighbours |
| `Histogram.DeltaRecovers` | internal/loadgen/scrape.go:98-120 | differencing two quiescent scrapes recovers the exact bucket counts of the window |
| `Histogram.HistQuantile` | internal/loadgen/scrape.go:125-158 | interpolates in the first bucket that reaches the target, or reports the top bound, or -1 when empty |
| `Histogram.QuantileInBucket` | internal/loadgen/scrape.go:125-158 | for a target 0 < t <= N the estimate lies in the bucket of the observation of rank t rounded up, clamped to the highest finite bound |
| `Histogram.EstimateInterpolates` | internal/loadgen/scrape.go:133-151 | the estimate divides its bucket as the target divides the observations in it |
| `Histogram.EstimateAtEdges` | internal/loadgen/scrape.go:133-157 | outside the ranks: the lower edge of the first bucket or, if that is empty, its bound; above all observations the highest finite bound |
| `Histogram.QuantileMonotone` | internal/loadgen/scrape.go:133-151 | a larger target never has a smaller estimate |
| `Histogram.WindowDelta` | internal/loadgen/scrape.go:98-120 | the difference of two quiescent scrapes is the bounds and the exact bucket counts of the window |
| `Histogram.WindowQuantile` | internal/loadgen/report.go:85-88 | difference and estimate together: -1 for an empty window, otherwise the estimate from the window's own counts |
| `Histogram.TakeScrape` | internal/metrics/metrics.go:91-103 | the exported lines, read back, are the snapshot that says for each bound how many observations are at most it |
| `Histogram.MeasureWindow` | internal/loadgen/report.go:85-88 | on one instrument: scrape, observe, scrape again, difference and estimate give the estimate for exactly the values recorded in between |
| `Histogram.ReportIsRanked` | internal/loadgen/report.go:85-88 | for 0 < q <= 1 what is reported lies in the bucket of the observation of rank q N rounded up, whatever came before the window |
| `Histogram.ReportMonotone` | internal/loadgen/report.go:85-88 | between the same two scrapes a larger quantile is never reported smaller |

## Left out

- The loops of Run, runASRLoop, the turn's goroutines, readLoop and audioPump are step machines on values; that their variables are updated in place is not captured.
- RingBuffer.Ring.Push: as an object method needs capacity at least two, because with one slot the code is unsound (`CapacityOneLoses`), and nobody else inside a call; what interleaving adds is proved of the step machine.
- RingBuffer.Ring.TryPush: needs the same as Push.
- RingBuffer.Ring.PopAs: needs the same as Push; with one slot it need not even end.
- RingBuffer.Ring.Pop: needs the same as Push.
- RingBuffer.Ring.Len: needs the same as Push; with calls in progress its meaning is `LenSnapshot`.
- RingBuffer.Ring.PushAll: needs the same as Push.
- RingBuffer.AudioEdge.Push: as an object method needs nobody else inside a call; the edge under interleaving is `Edge.dfy`.
- RingBuffer.AudioEdge.Drain: needs the same as AudioEdge.Push.
- RingBuffer.BufferPool.New: does not cover a pool of one buffer, because a ring of one slot is unsound; the session always asks for twice the ring's capacity.
- RingBuffer.BufferPool.Get: as an object method needs no Put in progress; the two running at once are in `BufferFlow.dfy`.
- RingBuffer.BufferPool.Put: needs no Get in progress, likewise.
- Framer.PCMFramer.Emit: needs at least one sample per frame, because without one the source's loop never ends; the 64-bit overflow of position times 10^9 after days of audio is not modelled.
- Histogram.QuantileInBucket: like ReportIsRanked and ReportMonotone, needs non-negative observations, the only ones the instrument records, if the first bound is negative, and exact reals; NaN and floating-point rounding are not modelled.
- Wrap-around of the 64-bit ring cursors, of sequence numbers and of counters.
- Lock-freedom of Push: it spins while a claimant is stalled before its release; only completion after the release is proved.
- Ingress under the reject policy: refused uplink frames are neither counted nor accounted for by the source, so conservation is stated for drop_oldest.
- Computing the RMS of a frame, and the text format and parsing of the metrics page.
- Real adapters, the WebSocket library, HTTP, protobuf payloads, the browser client, configuration, the load generator's workers and report layout.
- Turn statistics, conversation history, heartbeats, idle reclamation and the counters folded in when a session is reclaimed are not modelled.
