# edgecast, modelled and proved in Dafny

edgecast moves live media through a tree of relays and compares it with HLS. This project models the
behaviour of its core and proves what the code guarantees: over every interleaving of the relay's
goroutines, every byte string a stream can be cut to, every run of the link emulator, of the HLS origin and player,
of the publisher, and over every sequence of calls to the recorder. `dafny verify dfyconfig.toml` checks all of it.

How the code is represented:

- **State machines for concurrency.** A relay's track, its pending fan-outs, its subscribers' queues and their joins
  are one state (`Relay.State`); the actions are the lock regions and the single channel operations of the code, so an
  enqueue that finds a full queue is up to three separate actions. The group log with its condition variable
  (`RelayLog`) and the shaper with its sender and scheduler goroutines (`ShaperRuns`) are done the same way. Theorems are about all
  reachable states.
- **Classes for code that updates objects in place**: readers and writers, group buffers, subscribers and tracks, the
  heap and the shaper, the origin, the player's session, the recorder, the generator and the publisher. Most methods
  are proved equal to a function on values, and the theorems are about those functions. Others (a subscriber's
  `Enqueue`, a track's `PublishGroup` and `Join`, the methods of `PktHeap`, `Link.Pass`) relate the state after to the state
  before. What ties the relay's classes to the state machine `Relay` is the generation stamp (`Relay.Stamp`) and the run
  loop's filter (`RelayObjects.RunIsFold`); no run of a class is proved to be a run of the state machine.
- **Inputs for what cannot be seen.** Clock readings, random draws, download times, failures of streams and writes, the order in which a map is
  visited and how the run loop interferes with an enqueue are parameters or arbitrary choices.
- Times are integers (nanoseconds, or microseconds in the recorder); float64 is `real`; uint64 wrap-around is written out where the
  code relies on it. Varints are those of Go's `encoding/binary`, not those of section 16 of RFC 9000.

What the code does not provide, and the project says exactly when:

- Any group with a lower number than the newest is taken for a restart and begins a new generation, also when the
  publisher never restarted and two of its streams were merely ingested out of order
  (`RelayTheorems.ReorderedIngestIsTakenForRestart`). `RelayTheorems.GenerationLastsIff` says that a generation lasts
  exactly as long as the published numbers do not descend.
- Within one generation a subscriber is always sent groups in order. From one generation to the next the order can break,
  because fan-outs run outside the track's lock: `RelayTheorems.OldGroupSentTwice` gives a run in which an old group is sent twice.
  `RelayChain.AcrossGenerations` says the order holds if and only if no group of an older generation was taken from
  the queue after one of a newer generation, and `RelayOrder.OrderIsSafeIff` reads off a state whether it can still
  break without a further publish. `RelaySchedule` gives conditions on when groups are published and sent under which
  it holds through new generations as well.
- A publisher that restarts at the live sequence number is not told from a repeat: its first group is stamped with the
  old generation, and a subscriber that was sent the live group is not sent it. `RelayChain.NewestIsSentIff` says
  when the newest group itself is delivered, and not only its number; `RelayChain.ChainReachesNewest` does so for a chain.
- An enqueue can drop the very group it is to put, if that group is offered twice, by a fan-out and by a join
  (`RelayTheorems.JoinDropsItsOwnGroup`, `RelayTheorems.FanOutDropsItsOwnGroup`); `RelayTheorems.DropsItsOwnIff` says when.
- Decoding and re-encoding an object is a normaliser and not the identity
  (`WireStreams.ReencodingIsNotIdentity`): a relay forwards a stream byte for byte if and only if it consists of whole
  objects and everything in it is canonical (`WireCanonical.HopUnchangedIff`). An ingest that was cut off looks downstream like a clean end of stream.
- The shaper delivers after it has released the lock, so two senders on the synchronous path can overtake each other
  (`ShaperFifo.SendersOvertakeEachOther`) and a sender can overtake the scheduler
  (`ShaperFifo.SynchronousPathOvertakes`), even under a fixed profile without jitter. `ShaperFifo.OrderIsSafeIff` says
  that the order of acceptance is safe in a state if and only if only one delivery can come next, and
  `ShaperFifo.FirstInFirstOut` that a run is first in, first out if nothing is let through or popped while a
  delivery is pending.
- The player never skips forward: `HlsLive.KeepsUpIff` says that it stays at the live edge if and only if no two
  consecutive playlists of it are more than six productions apart, and `HlsLive.BehindForEver` that otherwise it fetches nothing again.
- Truncated control frames: the reader reports a plain end of file also when the stream ends right after
  a length prefix (`WireStreams.ControlCut`).
- A loss window that is still open when a timeline ends is not among the impairment windows
  (`Impairment.WindowsAreTheLossyTimes`); a negative loss neither opens nor closes one.

Modules, by source file:

| file of the repository | modules |
|---|---|
| internal/proto/wire.go | `Wire`, `WireStreams`, `WireCanonical`, `WireIO` |
| internal/relay/relay.go | `RelayLog`, `Relay`, `RelayInvariants`, `RelayTheorems`, `RelayChain`, `RelaySchedule`, `RelayOrder`, `RelayLeave`, `RelayObjects` |
| internal/netem/shaper.go | `ShaperHeap`, `Shaper`, `ShaperRuns`, `ShaperFifo`, `ShaperTiming` |
| internal/hlspath/origin.go, client.go | `HlsText`, `HlsOrigin`, `HlsParse`, `HlsPlayer`, `HlsTheorems`, `HlsAbr`, `HlsLive` |
| internal/loadgen/loadgen.go | `Recorder`, `RecorderTheorems`, `RecorderCalls`, `Sorting` |
| internal/moqclient/pub.go, internal/media/generator.go | `Abr`, `Generator`, `Publisher`, `PublisherTheorems` |
| internal/expctl/aggregate.go | `Impairment`, `Aggregate`, `AggregateCells` |

`Basics` holds what several of them share.

## Model

| member | source | states |
|---|---|---|
| RelayLog.LogBroadcast | internal/relay/relay.go:93-121 | over every run of one producer and any number of writers: each writer's output is a prefix of the log, one that ended got exactly the closed log, a writer asleep with no broadcast to come has read all of an open group; the log only grows and not after close |
| RelayLog.FromTheStart | internal/relay/relay.go:87-121 | the same for every run from an empty group |
| RelayLog.WritersFinish | internal/relay/relay.go:109-121 | once a group is closed and its broadcast made, a connected writer's own polls take it to the end of the log, one per object left and one more |
| RelayInvariants.StepKeepsInv | internal/relay/relay.go:132-219 | every lock region and channel operation keeps the relay's invariant |
| RelayInvariants.ReachableInv | internal/relay/relay.go:132-219 | so it holds in every reachable state of every interleaving |
| RelayLeave.MembersChange | internal/relay/relay.go:132-142 | a subscription adds exactly its subscriber to the track's set, a removal takes exactly its subscriber out, and nothing else changes the set |
| RelayLeave.LeftForGood | internal/relay/relay.go:196-219 | once its run loop has returned or its greeting has failed, a subscriber is sent nothing more in any run, and it is in the set exactly until its removal, which stays possible until then |
| RelayLeave.RemovedForGood | internal/relay/relay.go:138-142 | a removal takes the subscriber out of the set for good: in every state reached from there it is no member, no group published since is owed to it or put into its queue, and it is sent nothing more |
| RelayTheorems.TrackNeverGoesBack | internal/relay/relay.go:144-162 | a track's (generation, newest sequence number) never decreases lexicographically |
| RelayTheorems.SentWasOffered | internal/relay/relay.go:164-214 | a group is sent only if it was published since the join, or was the newest at the join |
| RelayTheorems.OneGenerationInOrder | internal/relay/relay.go:196-219 | while the generation does not change since the join, a subscriber is sent strictly increasing sequence numbers: none twice, none older after newer |
| RelayChain.AcrossGenerations | internal/relay/relay.go:206-213 | across generations the groups sent increase lexicographically if and only if the queue never gave up a group of an older generation after one of a newer generation |
| RelayOrder.OrderIsSafeIff | internal/relay/relay.go:163-219 | for a running subscriber sent everything in order so far: every continuation without a publish keeps lexicographic order if and only if the generations from the run loop's cursor along the queue do not fall and all groups still owed by fan-outs share one generation, not below those before them |
| RelayTheorems.ReorderedIngestIsTakenForRestart | internal/relay/relay.go:151-166 | a reachable state, without any restart, in which group 6 is published before group 5 and the subscriber is sent 6 and then 5 |
| RelayTheorems.GenerationLastsIff | internal/relay/relay.go:151-157 | two published groups have the same generation if and only if the numbers published between them never descend |
| RelayTheorems.OldGroupSentTwice | internal/relay/relay.go:163-166 | a reachable state in which a join racing a restart was sent groups 5, 0 and then 5 again |
| RelayTheorems.QueueConserves | internal/relay/relay.go:175-214 | the queue never exceeds three groups; taken by the queue = queued + sent + filtered + dropped |
| RelayTheorems.DropsItsOwnIff | internal/relay/relay.go:181-194 | when a call of enqueue drops, the group it is for is itself in the queue if and only if it was offered twice, the other call has put it, and it has not left since |
| RelayTheorems.NeverDropsItsOwn | internal/relay/relay.go:181-194 | so the call that enqueues a group offered once never drops it |
| RelayTheorems.JoinDropsItsOwnGroup | internal/relay/relay.go:387-390 | a reachable state in which the join's enqueue drops the group it is to put |
| RelayTheorems.FanOutDropsItsOwnGroup | internal/relay/relay.go:163-166 | a reachable state in which a fan-out's enqueue drops the group it is to put |
| RelayTheorems.DistinctUnlessTwins | internal/relay/relay.go:181-194 | the queue and the entry to be put are different groups if and only if the join's group is not among them twice, which it is not unless it was offered twice |
| RelayTheorems.DropAge | internal/relay/relay.go:186-191 | a drop removes the oldest entry; from a full queue three entries are later, the call's own included, and they are three groups other than the dropped one if and only if the join's group is not among the four twice |
| RelayTheorems.UninterruptedEnqueue | internal/relay/relay.go:181-194 | an enqueue of a fan-out or a join that nothing interrupts drops the oldest entry of a full queue, and under the same condition three later groups were put, its own last |
| RelayTheorems.LateJoinHasNoGap | internal/relay/relay.go:371-391 | for every interleaving of publishes with addSub, the read of the cached group and its enqueue, the groups offered to the joiner are exactly a contiguous stretch of the publish order up to the newest |
| RelayTheorems.OfferedIsAccounted | internal/relay/relay.go:163-214 | each of those is pending, queued, sent, filtered as not newer, or dropped |
| RelayChain.HopCollapsesKept | internal/relay/relay.go:196-219 | with the queue in publish order, the run loop's filter removes exactly adjacent repeats |
| RelayChain.HopDelivers | internal/relay/relay.go:144-219 | without drops a hop delivers exactly what was published since the first group offered, adjacent equal sequence numbers merged, through any restarts |
| RelayChain.NewestIsDelivered | internal/relay/relay.go:181-219 | with drops: when nothing is pending, the last group taken was not dropped, and in order the last number sent is the newest published |
| RelayChain.SentIff | internal/relay/relay.go:206-213 | in order, a group taken is sent if and only if no earlier group taken has its number and generation |
| RelayChain.NewestIsSentIff | internal/relay/relay.go:206-213 | in order, the newest group itself is sent if and only if no group taken before it equals it: always if the one published before differs, and without drops exactly then or if it is the first offered |
| RelayChain.HopIsSubsequence | internal/relay/relay.go:144-219 | with drops a hop only leaves groups out |
| RelayChain.ChainDelivers | internal/relay/relay.go:409-451 | a chain of any number of relays without drops delivers exactly the published sequence with adjacent repeats merged, so no pattern of restarts starves a region |
| RelayChain.ChainReachesNewest | internal/relay/relay.go:409-451 | with drops and late joins the chain delivers a subsequence whose last number is the newest published, and whose last group is the newest if and only if every relay sent on the newest it had |
| RelaySchedule.PublishWhenNothingOwed | internal/relay/relay.go:144-167 | if no group is published while one is owed to the subscriber, its queue takes groups in publish order |
| RelaySchedule.SendWhenThereIsRoom | internal/relay/relay.go:181-194 | if no enqueue to it finds a full queue, nothing is dropped |
| RelaySchedule.DisciplinedHopDelivers | internal/relay/relay.go:144-219 | both together make a hop deliver exactly what was published, repeats merged, in every interleaving that keeps to them |
| RelaySchedule.DisciplinedChainDelivers | internal/relay/relay.go:409-451 | a chain of any number of relays whose runs keep to both, each connected from the start, delivers exactly the published sequence with adjacent repeats merged; no order of queues and no absence of drops is assumed |
| RelaySchedule.RestartWhenNothingOwed | internal/relay/relay.go:151-156 | if no number lower than the newest is published while a group is owed to the subscriber, what it is sent increases lexicographically through any number of generations |
| RelayObjects.GroupBuffer.Append | internal/relay/relay.go:93-98 | an object is added at the end of the log |
| RelayObjects.GroupBuffer.Next | internal/relay/relay.go:109-121 | object i if there is one, else the end if closed, else a wait |
| RelayObjects.Subscriber.Enqueue | internal/relay/relay.go:181-194 | with the run loop interfering anywhere and no other producer: at most two rounds, the group last in the queue, at most one group dropped and only from a full queue, everything else gone was taken by the run loop |
| RelayObjects.Subscriber.WriteGroup | internal/relay/relay.go:221-241 | writes a stream of the header and every object of the group |
| RelayObjects.Subscriber.Run | internal/relay/relay.go:196-219 | the streams written for a queue are those of the groups the filter lets through, in order |
| RelayObjects.RunIsFold | internal/relay/relay.go:196-219 | the loop on group buffers and the fold the theorems are about send the same groups |
| RelayObjects.Track.PublishGroup | internal/relay/relay.go:144-167 | the generation is bumped exactly for a lower sequence number than the cached group's, the group is stamped and cached, and every member's queue has it last and has lost only groups from its front |
| RelayObjects.Track.Join | internal/relay/relay.go:374-390 | a late join that nothing interrupts puts the subscriber in the set and the cached group, if any, in its queue; a greeting that fails leaves the set as it was and the queue empty |
| RelayObjects.IngestObjects | internal/relay/relay.go:346-359 | the group is closed and holds the re-encoding of exactly the objects that could be read |
| RelayObjects.IngestGroupStream | internal/relay/relay.go:337-360 | without a readable header nothing is published and no queue changes; otherwise the group is published, put last in every member's queue, filled and closed however the stream ended |
| RelayObjects.ForwardOne | internal/relay/relay.go:196-241 | through ingest, fan-out, queue and run loop a member with an empty queue is sent exactly what `WireStreams.Hop` makes of the bytes, unless its filter holds the group to be passed |
| Wire.VarintFits | internal/proto/wire.go:143-150 | whatever the varint reader accepts is a uint64 |
| Wire.VarintRoundTrip | internal/proto/wire.go:125-132 | every uint64 is read back, at any position |
| Wire.VarintCut | internal/proto/wire.go:143-164 | accepted bytes cut short anywhere give the error of that cut |
| Wire.ObjectLocal | internal/proto/wire.go:141-173 | a reader that accepts an object looks at nothing after it |
| Wire.ObjectCut | internal/proto/wire.go:141-180 | any accepted object cut short: end of file at its start, an unexpected end of file anywhere else |
| Wire.ObjectRoundTrip | internal/proto/wire.go:123-173 | an object is read back if and only if its payload is at most 8 MiB, and otherwise refused as too large |
| Wire.AnyFlags | internal/proto/wire.go:156-160 | with any flags byte an object is read back, a key frame if and only if the byte is odd |
| Wire.OverflowIff | internal/proto/wire.go:143-150 | a varint is refused as too large if and only if it goes on for ten bytes and the tenth is more than 1 |
| WireStreams.HeaderRoundTrip | internal/proto/wire.go:93-119 | a group header is read back if and only if its name has at most 1024 bytes |
| WireStreams.HeaderCut | internal/proto/wire.go:102-119 | the error for a header cut at any byte |
| WireStreams.StreamCut | internal/proto/wire.go:123-173 | for every list of objects and every cut: exactly the complete objects, then end of file on a boundary and an unexpected end of file elsewhere |
| WireStreams.WholeIsMaximal | internal/proto/wire.go:123-135 | the complete objects are the longest object-aligned prefix of the cut |
| WireStreams.StreamRoundTrip | internal/proto/wire.go:123-173 | repeated reads of the concatenated encodings return the list and then end of file |
| WireStreams.StreamUnique | internal/proto/wire.go:93-135 | equal streams have equal headers and equal objects |
| WireStreams.HopOfCut | internal/relay/relay.go:337-360 | from a stream cut anywhere the relay forwards the header and the objects before the cut, a prefix of its input |
| WireStreams.HopNormalises | internal/relay/relay.go:337-360 | for any accepted bytes, what is forwarded decodes to what was decoded, ends cleanly, and passes further hops unchanged |
| WireStreams.HopsAreOneHop | internal/relay/relay.go:337-360 | any number of hops forward the same bytes as one |
| WireStreams.ReencodingIsNotIdentity | internal/proto/wire.go:160-160 | bytes that are accepted and come out different |
| WireCanonical.MinimalIff | internal/proto/wire.go:125-132 | re-encoding an accepted varint gives its bytes back if and only if it has one byte or does not end in 0 |
| WireCanonical.ObjectUnchangedIff | internal/proto/wire.go:123-173 | re-encoding an accepted object gives its bytes back if and only if its three varints are minimal and its flags byte is 0 or 1 |
| WireCanonical.HeaderUnchangedIff | internal/proto/wire.go:93-119 | the same for a group header and its two varints |
| WireCanonical.HopUnchangedIff | internal/relay/relay.go:337-360 | a relay forwards a stream byte for byte if and only if header and objects are canonical and it ends with a whole object |
| WireStreams.ControlRoundTrip | internal/proto/wire.go:51-81 | a control frame is read back if and only if its body has between 1 and 65536 bytes |
| WireStreams.ControlRefused | internal/proto/wire.go:70-73 | any other size is refused in front of the body |
| WireStreams.ControlCut | internal/proto/wire.go:65-77 | the error for a control frame cut at any byte |
| WireIO.Writer.WriteGroupHeader | internal/proto/wire.go:93-100 | appends the encoding of the header |
| WireIO.Writer.WriteControl | internal/proto/wire.go:51-63 | appends length prefix and body |
| WireIO.Reader.ReadUvarint | internal/proto/wire.go:103-103 | the byte-by-byte loop reads what the reader function says and leaves the rest |
| WireIO.Reader.ReadGroupHeader | internal/proto/wire.go:102-119 | result and rest are those of the header reader |
| WireIO.Reader.ReadNextObject | internal/proto/wire.go:141-173 | result and rest are those of the object reader, every error case included |
| WireIO.Reader.ReadControlFrame | internal/proto/wire.go:65-77 | result and rest are those of the frame reader |
| ShaperHeap.PktHeap.Up | internal/netem/shaper.go:48-66 | sifting up restores the heap and permutes it |
| ShaperHeap.PktHeap.Down | internal/netem/shaper.go:48-66 | sifting down restores the heap of the first n places and permutes it |
| ShaperHeap.PktHeap.Push | internal/netem/shaper.go:143-143 | the heap gains the packet and stays a heap |
| ShaperHeap.PktHeap.Pop | internal/netem/shaper.go:167-167 | the packet that is first by (due, seq) leaves, and the rest stays a heap |
| Shaper.Link.SendPacket | internal/netem/shaper.go:103-150 | the new state and the verdict of a send, and the wake token for a queued packet |
| Shaper.Link.Pass | internal/netem/shaper.go:157-169 | takes exactly the due packets, in order, and waits for the first one left |
| ShaperRuns.Serialization | internal/netem/shaper.go:111-126 | for any sends at changing rates: slots do not overlap, no wait exceeds 200 ms, and any stretch of packets fits in the time it takes |
| ShaperRuns.RateRespected | internal/netem/shaper.go:122-125 | at one rate any stretch carries no more bits than the rate allows, to a nanosecond per packet |
| ShaperTiming.BacklogUsesTheRate | internal/netem/shaper.go:122-125 | and of a stretch without a gap at one rate no fewer: the bottleneck is used up |
| ShaperTiming.NeverIdle | internal/netem/shaper.go:113-126 | in every state each packet's serialization starts when it is sent or when the one before it ends, whichever is later, and a send is dropped at the tail if and only if, not lost, it would start more than 200 ms late |
| ShaperTiming.DueAfterItsDelay | internal/netem/shaper.go:127-134 | an accepted packet carries the bytes sent and is due, to a nanosecond, the profile's delay and the drawn share of its jitter, never negative, after it is sent or, under a cap, after its slot |
| ShaperTiming.DueBetween | internal/netem/shaper.go:127-134 | with any draw it is due between the least and the greatest delay of its profile after that |
| ShaperTiming.NoneBeforeItsDelay | internal/netem/shaper.go:103-172 | over every run: what a pass takes was sent, with those bytes, at least its profile's least delay before; what a sender delivers itself was sent under a profile with none |
| ShaperTiming.LossIsItsShare | internal/netem/shaper.go:105-108 | of any number of evenly spread draws the profile's percentage loses the packet, to within one draw |
| ShaperRuns.PacketsConserved | internal/netem/shaper.go:103-172 | sent = lost + tail-dropped + delivered + held in every state |
| ShaperRuns.NoLostWakeup | internal/netem/shaper.go:146-185 | while the scheduler sleeps without a token or a sender about to post one, its timer covers every packet in the heap |
| ShaperRuns.PassIsExact | internal/netem/shaper.go:157-172 | a pass delivers in (due, seq) order, nothing early, and leaves nothing that was due |
| ShaperRuns.ReachableInv | internal/netem/shaper.go:103-187 | the invariant behind these holds for every interleaving of senders and scheduler |
| ShaperFifo.OrderIsSafeIff | internal/netem/shaper.go:135-172 | in any state of a run under a fixed profile without jitter and with sends at times that do not go back, in order so far: every order of the pending deliveries keeps the order of acceptance if and only if nothing is let through, or one packet is and none is popped |
| ShaperFifo.StaysCalmIff | internal/netem/shaper.go:135-172 | a step keeps to such states if and only if it lets nothing through or pops nothing while a delivery is pending |
| ShaperFifo.LettingThroughIsSafeIff | internal/netem/shaper.go:135-172 | a step that does let through or pop can lose the order if and only if a delivery was pending |
| ShaperFifo.FirstInFirstOut | internal/netem/shaper.go:103-172 | a whole run of senders and scheduler without such steps delivers packets in exactly the order they were accepted, ties in due time included |
| ShaperFifo.SendersOvertakeEachOther | internal/netem/shaper.go:135-139 | a run on a clean link without any pass in which the second of two packets is delivered first |
| ShaperFifo.PassTakesPrefix | internal/netem/shaper.go:161-168 | any pass over packets held in order takes exactly a prefix of them |
| ShaperFifo.SynchronousPathOvertakes | internal/netem/shaper.go:135-139 | a reachable state of the real interleaving in which packet 2 was delivered before packet 1 |
| HlsText.AtoiOfItoa | internal/hlspath/origin.go:141-141 | a printed sequence number is parsed back |
| HlsText.LinesOfPrinted | internal/hlspath/client.go:192-193 | the line scanner recovers printed lines |
| HlsText.LinesOfCRLF | internal/hlspath/client.go:192-193 | also when lines end in a carriage return and a newline |
| HlsText.TrimSpaceTrims | internal/hlspath/client.go:194-194 | trimming takes white space only, and all there is at either end |
| HlsText.AtoiOfOthers | internal/hlspath/client.go:196-196 | signed numbers are parsed, and numbers out of range are clamped with an error |
| HlsOrigin.Origin.Produce | internal/hlspath/origin.go:84-98 | every rendition's ring is the last twelve segments, the same numbers everywhere, with a common creation time |
| HlsOrigin.Origin.Append | internal/hlspath/origin.go:89-95 | one ring gains the segment, a slice of the noise within bounds, and keeps at most twelve |
| HlsOrigin.SegmentIsSlice | internal/hlspath/origin.go:89-91 | which slice it is: 250 bytes for each kbit/s, from 40961 times the number on, wrapped so that it fits |
| HlsOrigin.PushedTail | internal/hlspath/origin.go:91-94 | append and trim is the window of twelve moved by one |
| HlsOrigin.Origin.Playlist | internal/hlspath/origin.go:110-133 | not found for an unknown rendition, otherwise the text listing the last six segments |
| HlsOrigin.Render | internal/hlspath/origin.go:122-132 | the text printed for a window of segments |
| HlsOrigin.PlaylistText | internal/hlspath/origin.go:122-132 | that text itself: a head with the first number, and two lines for every segment |
| HlsOrigin.Origin.Master | internal/hlspath/origin.go:101-109 | the text of the master playlist |
| HlsOrigin.MasterText | internal/hlspath/origin.go:101-109 | that text itself: two lines a rendition, with its bandwidth in bits a second |
| HlsOrigin.Origin.Serve | internal/hlspath/origin.go:134-164 | the search in the ring answers as `Lookup` says |
| HlsOrigin.NumberInIff | internal/hlspath/origin.go:137-145 | a name is a segment's if and only if a number stands between its prefix and its suffix |
| HlsOrigin.ServedIff | internal/hlspath/origin.go:146-158 | segment n is served on a rendition if and only if the rendition exists and n is among the last twelve |
| HlsOrigin.ListedStaysServed | internal/hlspath/origin.go:84-164 | a listed segment is served later if and only if it is among the last twelve then, hence for six further productions on every rendition |
| HlsParse.FetchPlaylist | internal/hlspath/client.go:190-206 | the parsing loop computes the fold over the lines |
| HlsParse.PlaylistRoundTrip | internal/hlspath/client.go:185-207 | parsing a printed playlist gives its segments, numbered by counting from EXT-X-MEDIA-SEQUENCE (section 4.3.3.2 of RFC 8216) |
| HlsParse.FetchMaster | internal/hlspath/client.go:155-174 | the parsing loop computes the fold over lines and attributes, and fails without renditions |
| HlsParse.MasterRoundTrip | internal/hlspath/client.go:150-175 | parsing a printed master playlist gives its renditions, for every ladder with printable names |
| HlsParse.IgnoredLines | internal/hlspath/client.go:158-204 | blank lines and other comments say nothing, in either playlist |
| HlsParse.LastBandwidth | internal/hlspath/client.go:161-166 | the last bandwidth among the attributes counts, in whole kbit/s, and no other attribute does |
| HlsParse.SplitParts | internal/hlspath/client.go:161-161 | splitting attributes: no part holds the separator, and joined with it they make up the line |
| HlsPlayer.Session.DrainTo | internal/hlspath/client.go:59-68 | drain: whole milliseconds leave the buffer, and what is missing is a stall |
| HlsPlayer.Session.Download | internal/hlspath/client.go:87-120 | a download of the awaited segment, or the end of the session |
| HlsPlayer.Session.OnePass | internal/hlspath/client.go:71-123 | one turn of the session loop |
| HlsPlayer.Session.RunSession | internal/hlspath/client.go:40-133 | the whole session is the run the theorems are about |
| HlsPlayer.ChooseIsLastSafe | internal/hlspath/client.go:113-120 | the rendition chosen is the last one below 0.8 of the estimate, or the first |
| HlsAbr.RequestsFollowTheEstimate | internal/hlspath/client.go:83-120 | over every run: the estimate is the weighted mean of the throughputs measured (without zeros at the front), every request names the first rendition until a segment has arrived, and from then on the highest one below 0.8 of the estimate, or the first |
| HlsAbr.WeightsAddUp | internal/hlspath/client.go:97-101 | the weights of that mean, 0.3 for the newest and 0.7 of the next for each older, add up to one for any number of samples |
| HlsAbr.VisitMeasures | internal/hlspath/client.go:87-103 | a segment is recorded with the bytes, creation time and arrival of its reply, and measured as its bits in the time from the request to the end, unless that took none |
| HlsAbr.PlaysFromTheSecond | internal/hlspath/client.go:105-110 | over every run playback starts once, at the arrival of the second segment |
| HlsTheorems.RunConserves | internal/hlspath/client.go:59-123 | in every run, 2000 ms per segment fetched = buffer + played - stalled, with the buffer never negative |
| HlsTheorems.StallsAreTheShortfall | internal/hlspath/client.go:59-68 | with a clock that does not go back, stalled time is wall time since startup less what was fetched and not buffered, to under a millisecond per drain |
| HlsTheorems.DrainStalls | internal/hlspath/client.go:59-68 | a drain reports a stall, at its own time, if and only if playing is under way and outlasts the buffer |
| HlsTheorems.PassFetches | internal/hlspath/client.go:75-121 | a pass fetches without a gap, and without error ends at the live edge if and only if what the player waits for is listed or next |
| HlsTheorems.RunFetches | internal/hlspath/client.go:83-111 | over a run the numbers fetched are contiguous from the one waited for |
| HlsTheorems.RunEstimates | internal/hlspath/client.go:94-102 | the bandwidth estimate is 0 before the first sample and then between the least and the greatest sample |
| HlsLive.LiveIsWhatIsPrinted | internal/hlspath/client.go:185-207 | what the live theorems call the playlist is what the player parses from the origin's text |
| HlsLive.PassAsks | internal/hlspath/client.go:83-120 | every request of a pass is for a listed segment of a known rendition, also after a change of rendition half way |
| HlsLive.AskedIsServed | internal/hlspath/origin.go:134-164 | any such request is answered with that segment of that rendition for six further productions |
| HlsLive.BehindForEver | internal/hlspath/client.go:83-86 | a player that waits for a segment the window has passed fetches nothing again |
| HlsLive.KeepsUpIff | internal/hlspath/client.go:70-121 | a player whose passes succeed ends at the live edge if and only if no two consecutive playlists were more than six productions apart |
| HlsLive.JoinsAndKeepsUp | internal/hlspath/client.go:75-81 | a new player joins at most two segments behind and then keeps up under the same condition, with everything fetched since |
| Recorder.Recorder.AddMedia | internal/loadgen/loadgen.go:155-203 | the new state after one media unit |
| Recorder.Recorder.AddStall | internal/loadgen/loadgen.go:222-235 | the new state after a stall |
| Recorder.Recorder.MarkStartup | internal/loadgen/loadgen.go:205-220 | startup is set once |
| Recorder.Rows | internal/loadgen/loadgen.go:258-262 | rows at strictly increasing seconds, one for each second, whatever the map's order |
| Recorder.Recorder.Snapshot | internal/loadgen/loadgen.go:246-264 | totals, rows and quantiles of the state |
| RecorderTheorems.RunAccounts | internal/loadgen/loadgen.go:160-163 | over any calls the totals are those of all observed, and each second's sample is what was observed in that second |
| RecorderCalls.CallsAreAccounted | internal/loadgen/loadgen.go:155-235 | the same said of the calls alone: the totals are their sums, and each second holds exactly what the calls made during it add, the stalls the recorder accounts for itself included |
| RecorderTheorems.SnapshotAddsUp | internal/loadgen/loadgen.go:246-264 | the rows of a snapshot add up to the totals, and their frames to the number of media calls |
| RecorderTheorems.StallsFitTheSession | internal/loadgen/loadgen.go:183-189 | with automatic stalls and arrivals that do not go back, stalled time + 150 ms per stall is at most the time since the first arrival |
| RecorderTheorems.MediaStalls | internal/loadgen/loadgen.go:183-189 | a unit adds a stall exactly when the gap exceeds 250 ms, of the gap less 150 ms |
| RecorderTheorems.RunBounded | internal/loadgen/loadgen.go:167-202 | jitter (section 6.4.1 of RFC 3550) stays between 0 and the largest deviation; the reservoir is bounded and holds only observed, non-negative delays |
| RecorderCalls.JitterMoves | internal/loadgen/loadgen.go:192-202 | over any calls (section 6.4.1 of RFC 3550): a unit in presentation order moves the jitter one sixteenth of the way to the difference between the time since the latest arrival and the presentation time since the newest unit, and nothing else moves it |
| RecorderCalls.NoJitterIff | internal/loadgen/loadgen.go:192-202 | the jitter is 0 if and only if all these differences are |
| RecorderCalls.SteadyHasNoJitter | internal/loadgen/loadgen.go:192-202 | so it is 0 for units in order whose transit time is constant, whatever the cadence |
| RecorderCalls.DelaysAreKept | internal/loadgen/loadgen.go:167-174 | the reservoir is the list of all end-to-end delays that are not negative while there are at most 8192, and then 8192 of them |
| RecorderCalls.SignedIs | internal/loadgen/loadgen.go:167-167 | a presentation time counts as the signed number of 64 bits equal to it modulo 2^64 |
| RecorderCalls.StartupIsTheFirst | internal/loadgen/loadgen.go:176-212 | the startup delay reported runs from the session's start to the first mark, or the first arrival unless startup is marked by hand, and is -1 before |
| RecorderTheorems.Quantiles | internal/loadgen/loadgen.go:251-257 | the median and the 95th percentile are order statistics of the reservoir, in order |
| Sorting.OrderStatistic | internal/expctl/aggregate.go:164-167 | indexing a sorted copy gives an element with its share of the others on either side, growing with the index |
| Generator.Generator.Next | internal/media/generator.go:71-104 | the next frame of the sequence; its payload is a slice within bounds of between 64 bytes and 2 MiB |
| Generator.GroupBudget | internal/media/generator.go:73-86 | at one bitrate without clamping a group's bytes lie within a byte per frame below its budget |
| Generator.BudgetIsTheBitrate | internal/media/generator.go:73-76 | that budget is what the bitrate allows in the time of the group's frames, and a key frame is the configured multiple of the average frame |
| Generator.SizeIsTheShare | internal/media/generator.go:76-89 | each frame is its share rounded down between 64 bytes and 2 MiB, and the nearer of the two beyond them |
| Generator.OffsetWraps | internal/media/generator.go:90-90 | where in the noise a payload begins: 7919 bytes on for each group and 131 for each frame, wrapped so that it fits |
| Generator.NormalisedKeeps | internal/media/generator.go:43-52 | the constructor keeps what it accepts and puts the default for each value it does not |
| PublisherTheorems.DefaultUnclamped | internal/media/generator.go:28-30 | with the default configuration no clamping happens exactly from 18 to 125829 kbit/s |
| PublisherTheorems.LadderKeepsBudget | internal/moqclient/pub.go:39-40 | so every tier of the ladder keeps its budget |
| Abr.CountsAreTrailing | internal/moqclient/pub.go:150-161 | slow and fast never exceed the session's trailing verdicts of their kind and are never both positive |
| Abr.MovesAreEarned | internal/moqclient/pub.go:162-177 | a step up follows ten verdicts of headroom in a row, a step down two of starvation, one tier at a time |
| Abr.MovesIff | internal/moqclient/pub.go:150-178 | a verdict steps up if and only if it is the tenth of headroom in a row since the last move or the session's start and the tier is not the top one, and down if and only if it is the second of starvation and the tier is not the lowest |
| Abr.CountsAreRows | internal/moqclient/pub.go:150-161 | fast and slow are the lengths of those rows |
| Abr.HeadroomClimbs | internal/moqclient/pub.go:171-177 | under lasting headroom the ladder is climbed a tier every ten groups to its top |
| Abr.StarvationDescends | internal/moqclient/pub.go:162-169 | under lasting starvation it is descended a tier every two groups to its foot |
| Abr.Hysteresis | internal/moqclient/pub.go:150-178 | over any verdicts and sessions: ups - downs = tier change, and 10 ups + 2 downs + counts <= verdicts |
| Publisher.Publisher.Adapt | internal/moqclient/pub.go:150-178 | the tier, the counts and the generator's bitrate after a verdict |
| Publisher.Publisher.OnTick | internal/moqclient/pub.go:112-142 | one turn of the publishing loop, with every failure |
| Publisher.Publisher.PublishOnce | internal/moqclient/pub.go:95-143 | a session, until its first failure |
| Publisher.Publisher.RunPublisher | internal/moqclient/pub.go:53-70 | session after session, with the generator and the tier kept |
| PublisherTheorems.StreamsInOrder | internal/moqclient/pub.go:103-143 | over any sessions and failures, every stream carries frames 0, 1, ... of one group from its key frame on, a closed one all of them, and stream groups strictly increase |
| PublisherTheorems.TickSendsItsFrame | internal/moqclient/pub.go:112-142 | a tick that succeeds sends the generator's next frame, stamped with its time and sized for the bitrate before the tick |
| PublisherTheorems.TickFailsIff | internal/moqclient/pub.go:122-140 | a tick ends the session if and only if a stream cannot be opened with its header where a group begins, or a frame cannot be written |
| PublisherTheorems.BoundaryCloses | internal/moqclient/pub.go:113-121 | at a group boundary the open stream is closed, whether or not the next one can be opened |
| PublisherTheorems.SessionStamps | internal/moqclient/pub.go:103-143 | a session writes one frame a tick over one unbroken stretch of its ticks, from the first group boundary to its end or first failure |
| PublisherTheorems.StreamReadBack | internal/proto/wire.go:137-173 | every such stream is within the reader's limits, and cut anywhere is read back as the whole frames before the cut |
| PublisherTheorems.RelaysKeepEveryStream | internal/relay/relay.go:144-219 | relays, which merge adjacent repeats, have nothing of one publisher's to merge |
| PublisherTheorems.PublisherHysteresis | internal/moqclient/pub.go:113-121 | the ladder's hysteresis holds of every run of the publisher, and its bitrate is always that of its tier |
| PublisherTheorems.GroupIsJudged | internal/moqclient/pub.go:113-141 | a whole group is judged, at the first frame of the next, by the share of its duration that the writes of its own frames took |
| Publisher.GroupLasts | internal/media/generator.go:62-67 | that duration is the time of its frames, to a nanosecond a frame |
| Impairment.ImpairmentWindows | internal/expctl/aggregate.go:107-121 | the loop computes the scan of the timeline |
| Impairment.WindowsAreTheLossyTimes | internal/expctl/aggregate.go:105-121 | for a timeline in order, the windows are ordered and disjoint and are exactly the times when loss was on and later turned off |
| Impairment.EventSecond | internal/expctl/aggregate.go:112-112 | an event takes effect in the second it falls in |
| Impairment.RecoveryTimes | internal/expctl/aggregate.go:125-158 | the loops compute the recovery of each window |
| Impairment.RecoveryIsLeast | internal/expctl/aggregate.go:136-157 | a recovery time is the least qualifying second within 30 after the window, and is missing only without a baseline or without such a second |
| Impairment.RecoveredIff | internal/expctl/aggregate.go:133-151 | a second qualifies if and only if the bytes of the three seconds that end with it, over three, are at least nine tenths of those of the five seconds before the window, over the number of these present |
| Impairment.BaselineIff | internal/expctl/aggregate.go:138-148 | there is a baseline if and only if bytes arrived in those five seconds |
| Impairment.LatestSampleCounts | internal/expctl/aggregate.go:129-132 | a second's bytes are those of its latest sample |
| Impairment.OnlySampledSeconds | internal/expctl/aggregate.go:129-132 | and only sampled seconds are present |
| Aggregate.Percentile | internal/expctl/aggregate.go:160-168 | NaN for no values, else the indexed element of a sorted copy |
| Aggregate.PercentileIsOrderStatistic | internal/expctl/aggregate.go:160-168 | one of the values, with its share on either side, monotone in p, from the least to the greatest |
| Aggregate.Tabulate | internal/expctl/aggregate.go:32-101 | one row per (profile, protocol) in order of first appearance, each what that cell's runs alone amount to |
| AggregateCells.RowFigures | internal/expctl/aggregate.go:82-101 | a row counts its cell's runs, sessions and errors; throughput, stalled seconds a minute and share of time stalled are those of the seconds measured, and each percentile is taken over the cell's sessions that have the figure |
| AggregateCells.CellHasItsRuns | internal/expctl/aggregate.go:43-50 | a cell holds the runs of its profile and protocol, as often as they are there, and no others |
| AggregateCells.CellTotals | internal/expctl/aggregate.go:68-77 | a cell's bytes, stalled time, stalled seconds and seconds are the sums over exactly the seconds of its runs that lie within their measure windows |
| AggregateCells.MeasureBegins | internal/expctl/aggregate.go:52-53 | a window begins the warm-up after the second in which its run started |
| Aggregate.OrderDistinct | internal/expctl/aggregate.go:43-50 | no cell appears twice |
| AggregateCells.OrderIsByFirst | internal/expctl/aggregate.go:43-50 | cells are in the order of their first runs |
| Aggregate.UnknownCell | internal/expctl/aggregate.go:43-50 | a cell appears if and only if it has a run |
| Aggregate.TableConserves | internal/expctl/aggregate.go:51-57 | over the rows, runs, sessions and errors add up to those of all runs |

## Left out

- QUIC, TLS, HTTP, sockets, dialling, reconnect delays and signal handling: a stream is a sequence of bytes that may be cut.
- JSON: a control message is its marshalled bytes, so the message types and the sessions that exchange them are not modelled.
- internal/webrtcpath, and internal/netem/tcp.go, state.go and packetconn.go: they would add only easy members.
- Metrics, logging, the admin handlers, environment parsing, plotting, scripts and committed data.
- The relay's table of tracks and ensureSourced: each theorem is about one track, whose name is taken to match.
- The relay's upstream loop: a new upstream connection appears in a chain as a relay whose first groups come from a late join.
- Generation numbers and segment numbers wrap at 2^64 and 2^63 in the code; here they do not.
- RelayObjects.GroupBuffer.Next: one turn of its loop, up to the wait; sleeping and waking are in RelayLog.
- RelayObjects.Subscriber.Enqueue: bounded rounds are proved for one producer, as several producers can in principle keep filling the queue; with several, the step system covers safety.
- RelayObjects.Track.Join: no publish interferes with it; the interleavings are in RelayTheorems.LateJoinHasNoGap.
- RelayObjects.Subscriber.WriteGroup: for a group whose ingest has ended and a connection that does not fail; writers that follow an open group or break off are in RelayLog.
- RelayObjects.Subscriber.Run: returns when the queue is empty, where the code waits; the waiting is in the step system.
- RelayChain.ChainDelivers: about runs in which each queue was offered groups in publish order and nothing is pending any more; parallel ingests and fan-outs do not ensure that order; RelaySchedule.DisciplinedChainDelivers is about chains that keep to what does.
- RelayObjects.ForwardOne: the stream is ingested to its end before the run loop takes the group; a writer that follows an open group is in RelayLog.
- The shaper's time values are unbounded, and a profile's numbers are reals.
- ShaperFifo.FirstInFirstOut: about a fixed profile without jitter and clocks that do not go back from one lock region to the next; with jitter packets reorder by design.
- HlsText: white space is that of ASCII and Latin-1, a line may have any length (the scanner stops at 64 KiB), and numbers parsed from a playlist do not wrap.
- HlsOrigin.Origin.Append: the offset's product does not wrap, which in the code needs 2^63 / 40961 segments.
- HlsTheorems.RunFetches: from a player that has joined; a playlist with a negative first number would make it join again.
- The player's sleeps: they show only in the clock readings of the next pass.
- Recorder errors and identity fields, the session manager and run pruning.
- RecorderTheorems.StallsFitTheSession: for arrivals that do not go back; concurrent callers read the clock before they take the lock.
- Publisher.Publisher.PublishOnce: a clean shutdown, which closes the stream in the middle of a group, is the end of a run and not a step of it.
- Generator.GroupBudget: for one bitrate over the group; a change of bitrate takes effect in the middle of a group.
- Impairment.WindowsAreTheLossyTimes: event times are not negative, since the code marks the absence of an open window with -1, and the timeline is in order, which the code does not establish for it.
- The results writers of internal/expctl and the orchestration of runs.
