# Models of the Scrutiny agent and its libraries

Scrutiny's remote agent (`agent/main.cpp`) serves a client over one byte stream:
a reader frames requests, a pool of workers runs them in three priority lanes, a
single writer transmits the answers, and a directory watcher keeps the client's
copies of directories true. This project models the agent's concurrent core as
step systems and proves what every run keeps. It adds four secondary cores: the
rebase executor and the tree builder of `gitmanip`, and the answer cache and the
text search of `core`.

Everything below is stated for all inputs, all runs and all reachable states.
A shared-memory protocol is a step system: one step per lock hold or system call,
a run is a sequence of states from the initial one, and the theorems are about
any state of any run. Code that works in place is a class or a method with loops,
proved equal to a function of its inputs; the theorems are about that function.

| part | files |
|---|---|
| directory watcher, writer, barrier tickets, the client's copy | `Lanes`, `WatchRegistry`, `DirWatch`, `Announcements`, `BarrierOrder`, `BarrierServed`, `WatchHistory`, `Replica`, `WireCopy`, `CalmRuns`, `LostNames`, `WatchGaps` |
| worker pool | `Scheduler`, `SchedulerProofs` |
| response path and framing | `Base64`, `Response`, `Framing`, `EndToEnd` |
| tunnel stdin queue, `fs.writeFile`, path authorization | `Tunnel`, `AtomicWrite`, `Sandbox` |
| rebase executor | `Rebase`, `RebaseProofs`, `RebaseContents` |
| tree builder | `TreeBuilder` |
| language-server answer cache | `RowTable`, `LspCache`, `CacheKeys`, with `Paths` |
| text search | `WordSearch`, `Declarations`, `DeclarationProofs` |

`dafny verify dfyconfig.toml` checks the whole project.

## Main results

- **Announce before reply** (`BarrierOrder.BarrierOrdersWire`). When a reply
  whose barrier ticket was completed is on the wire, every earlier change the
  agent answers for is on the wire before it, whatever lane the reply took. It
  answers for each change made under a watch not yet blind, also when that watch has
  since been dropped with notice, evicted, or gone blind. A wakeup completes every
  ticket asked by then (`BarrierServed.WakeupsCompleteTickets`).
- **No change is lost** (`Announcements.NoChangeIsLost`), **and the copy is true**
  (`Replica.CopyIsTrue` on frames enqueued, `WireCopy.CopyOnWireIsTrue` on frames
  transmitted). A listing begins under a watch that is not blind. At any later
  quiescent moment its reader has been told to re-read, or its copy of each name is
  true, except exactly for the names it last heard through a read that the watcher
  held unsent when the listing began and that was outdated when the watch began.
  The one condition on the later moment is that the watch did not end without a
  word. Three runs show the exceptions to be real (`WatchGaps`), and
  `LostNames.LostCopyIsItsSeed` says what becomes of a name that lost its descriptor.
  Resets have a cause: without overflow and crowd nobody is told to re-read and the
  copy is simply true (`CalmRuns.CalmCopyIsTrue`).
- **No idle worker, drained exit** (`SchedulerProofs`). A sleeping worker with no
  wakeup under way means no lane is runnable; after `stop()` the pool makes only
  boundedly many moves and can only come to rest with all workers gone and every
  job popped once, first in first out per lane. Each job popped had every more
  urgent lane empty or saturated.
- **Envelopes arrive** (`Response.EnvelopeArrives`,
  `EndToEnd.BytesBecomeEnvelope`). Under any interleaving of responders, as soon as
  the wire holds the final frame of an id, its frames, or the bytes on stdout read
  back, give exactly its envelope, whatever else is queued.
- **Framing resynchronizes** (`Framing.SessionRoundTrip`), **base64 survives
  accumulator wrap-around** (`Base64.WrapInvisible`, `Base64.RoundTrip`).
- **Whole files only** (`AtomicWrite.TargetIsWhole`), **conditional writes with
  their exact conditions** (`ReplacesWhatWasRead`, `CreatesOnlyIfAbsent`), **bytes in order**
  (`Tunnel.BytesInOrder`), **created paths stay under a root, and exactly the
  creatable ones are granted** (`Sandbox.CreateIsConfined`, `MissingIsGrantedIff`).
- **A rebase is one chain with the right contents** (`RebaseProofs`,
  `RebaseContents`), and replaying a chain onto its own base reproduces it.
- **Flattening undoes building, exactly for conflict-free paths**
  (`TreeBuilder.FlattensIffConflictFree`).
- **The row cache is a keyed map** over every history (`LspCache.RunRefines`),
  and an invalidated file stays out of every answer
  (`LspCache.InvalidatedStaysGone`).
- **Whole-word search is complete, and the ranking does not depend on the walk**
  (`WordSearch.Occurrences`, `DeclarationProofs.WalkOrderIsIrrelevant`).

## Where the code does less than it says

- A directory that is forgotten or evicted and watched again while the watcher
  stands between a stat of it and the emission: a read that was outdated by then
  is announced after the new listing and nothing corrects it
  (`WatchGaps.StraddledCopyGoesStale`).
- A directory's own deletion event swallowed by a queue overflow: the overflow is
  told, but the registry goes on saying the directory is watched, so a listing made
  after that can stay wrong (`WatchGaps.BlindCopyGoesStale`).
- inotify answers the same descriptor for the same inode under another name. The
  older name stays registered, and once nothing of it is held no frame speaks of it
  for as long as it does: only a reset of everything, or its own farewell when it
  is dropped (`LostNames.LostStaysLost`, with a run in
  `WatchGaps.AliasedCopyGoesStale`). `byDir_` and `byWd_` are then not inverse
  (`WatchRegistry.OpInverseIff`). Over drops alone they become inverse again exactly
  when both names have been dropped (`WatchRegistry.RepairedIff`); with
  registrations in between this is not claimed.
- The flush looks up a directory's notes with a map index that inserts: for a name
  whose descriptor is gone it leaves an entry with an empty directory in `byWd_`
  (`WatchRegistry.DirRegistry.LookUp`). No later step is misled by it.
- The conditional write compares time stamps and renames in two steps. It replaces
  the file the client read exactly when nothing was installed since the check and
  the check did not take another file of the same stamp for it
  (`AtomicWrite.ReplacesWhatWasRead`). "Only if absent" is stamp 0, so it fails in
  two ways: two such requests can both succeed (`BothCreate`), and one alone
  replaces an existing file whose stamp is 0 (`CreateOverStampZero`);
  `CreatesOnlyIfAbsent` says exactly when it holds.
- The create path skips the existence test after an empty or `.` component, so
  its base is not always the deepest existing one (`Sandbox.SkippedAncestor`;
  `CreateIsConfined` says exactly when it is). Names appended below `/` give
  `//name` (`GrantIsUnder` says exactly when the result is canonical).
- A run of squashes becomes a commit on top of the one it names, not a
  replacement of it; its tree is the last member's alone, and an empty collected
  message starts over from the commit before (`RebaseContents.MadeFrom`). The
  last member of a run is mapped twice (`RebaseContents.LastMemberMappedTwice`).
- Plain names inserted into a tree builder are lost once any nested path was
  inserted, and a file is lost when another path uses it as a directory
  (`TreeBuilder.AllWrittenIff`).
- Caching definitions or references appends, so an answer cached twice is
  doubled (`LspCache.ReferencesAreRead`, `DefinitionIsRead`).

## Model

| member | source | states |
|---|---|---|
| Lanes.Writer.Enqueue | agent/main.cpp:464-471 | appends to the frame's lane only and keeps `bytes_` the total of all lanes |
| Lanes.Writer.TransmitOne | agent/main.cpp:482-505 | sends the head of the first non-empty lane, or nothing when all are empty; byte count kept |
| Lanes.EnqueueKeepsOrdered | agent/main.cpp:464-471 | a frame on the wire comes after all frames enqueued before it in its own or a more urgent lane: enqueueing keeps this |
| Lanes.TransmitKeepsOrdered | agent/main.cpp:488-505 | and so does transmitting |
| Lanes.NextIsUrgent | agent/main.cpp:498-504 | what is sent next has nothing older waiting in its own lane or a more urgent one |
| Lanes.InteractiveInOrder | agent/main.cpp:498-504 | interactive frames are on the wire in the order they were enqueued |
| WatchRegistry.DirRegistry.Watch | agent/main.cpp:2288-2311 | already watched: no change; otherwise added, the oldest evicted and told when full; both maps stay inverse exactly when the descriptor is fresh |
| WatchRegistry.DirRegistry.DropLocked | agent/main.cpp:2426-2436 | removes the directory from all three structures, or changes nothing; keeps the listing, the bound and inverse maps |
| WatchRegistry.DirRegistry.LookUp | agent/main.cpp:2546-2548 | finds the watch of a directory, creating an entry without a name when its descriptor has none |
| WatchRegistry.DirRegistry.Trim | agent/main.cpp:2305-2310 | the eviction loop ends, evicts at most the oldest and never the directory just added |
| WatchRegistry.AddKeepsListed | agent/main.cpp:2300-2302 | `order_` stays a duplicate-free listing of exactly the watched directories |
| WatchRegistry.DropKeepsListed | agent/main.cpp:2426-2433 | the same for every drop |
| WatchRegistry.DropKeepsInverse | agent/main.cpp:2429-2431 | dropping keeps `byDir_` and `byWd_` inverse |
| WatchRegistry.AddInverseIffFresh | agent/main.cpp:2294-2301 | adding keeps them inverse if and only if the descriptor is not in use |
| WatchRegistry.WatchedInvariant | agent/main.cpp:2288-2311 | a whole watch keeps the listing, at most 2048 watches, the new directory watched, and the maps inverse iff the descriptor is fresh |
| WatchRegistry.WatchedListed | agent/main.cpp:2288-2311 | listing and bound are kept even when descriptors are not fresh |
| WatchRegistry.WatchedKeys | agent/main.cpp:2300-2310 | afterwards exactly the new directory is watched too, and at 2048 the one added first is not |
| WatchRegistry.AliasSurvivesDrop | agent/main.cpp:2294-2301 | once two names share a descriptor, one drop of a directory watched before does not make the maps inverse again |
| WatchRegistry.RepairedIff | agent/main.cpp:2426-2436 | after any sequence of drops the maps are inverse again if and only if both names that shared the descriptor were dropped |
| WatchRegistry.HistoryKeeps | agent/main.cpp:2288-2327 | after every sequence of watch, drop and look-up, with any descriptors: the listing is exact, at most 2048 are watched, and a descriptor means a name registered under it |
| WatchRegistry.OpInverseIff | agent/main.cpp:2294-2301 | an operation keeps the maps inverse if and only if it does not register a second name under a descriptor in use |
| WatchRegistry.FreshHistoryIsInverse | agent/main.cpp:2288-2327 | every history in which the kernel answers no descriptor in use keeps the maps inverse |
| WatchRegistry.AliasedWatchBreaksInverse | agent/main.cpp:2294-2301 | a concrete pair of names sharing a descriptor |
| WatchRegistry.FullIsEvictable | agent/main.cpp:2303-2310 | a full registry always has a victim other than the new directory |
| DirWatch.Window.Take | agent/main.cpp:2481-2502 | one event updates pending, resets, gone or overflow; temp names and unknown descriptors change nothing |
| DirWatch.Window.Digest | agent/main.cpp:2478-2503 | the loop over a buffer is that update for each event in order |
| Announcements.AbsorbAllTakes | agent/main.cpp:2478-2503 | after digesting, every known event of the buffer is owed: its name is due, its directory gone, or all overflowed |
| Announcements.AbsorbAllKeeps | agent/main.cpp:2478-2503 | digesting forgets nothing already owed and keeps resets within pending |
| CalmRuns.DigestsNames | agent/main.cpp:2494-2502 | a buffer adds the reported names of a directory, all of them below 256, and only 256 held names make a reset |
| CalmRuns.DigestsOthers | agent/main.cpp:2481-2492 | overflow and gone directories are exactly those the events report |
| Announcements.NextKeepsInv | agent/main.cpp:2445-2574 | every step of kernel, handlers, watcher and writer, shared descriptors included, keeps the invariant: no change lost, everything before a completed ticket told |
| Announcements.RunKeepsInv | agent/main.cpp:2288-2346 | the invariant holds in every state of every run |
| Announcements.NoChangeIsLost | agent/main.cpp:2462-2572 | a change made under a watch that was not blind by then is queued, buffered, held, or told by a later read or a reset, unless the watch ended without a word |
| BarrierOrder.RunKeepsOrder | agent/main.cpp:2329-2346 | in every run each reply was enqueued after all announcements its ticket owes, and the lanes keep interactive frames ahead |
| BarrierOrder.BarrierOrdersWire | agent/main.cpp:2336-2346 | the announcement of each change the agent answers for stands on the wire before the reply, for every lane of the reply |
| BarrierServed.WakeupsCompleteTickets | agent/main.cpp:2462-2521 | in every run, when a woken watcher next comes to rest, every ticket asked by the wakeup is completed |
| BarrierServed.ReplyFollowsNews | agent/main.cpp:2336-2346 | a complete run in which a ticket is asked and completed and its reply, in any lane, stands behind the announcement |
| WatchHistory.RunKeepsReads | agent/main.cpp:2541-2570 | in every run each read announced is the state at its moment and was made after the watcher's earlier notes; each registration stands, had its farewell or ended without a word; an overflow that blinded a watch is on its way to the client or told |
| WatchHistory.RunKeepsRegistry | agent/main.cpp:2288-2311 | in every state of every run the listing is exact and at most 2048 directories are watched |
| WatchHistory.NextStaysTold | agent/main.cpp:2481-2484 | no step loses an overflow: it stays queued or held until all is reset |
| Replica.NewsIsReset | agent/main.cpp:2541-2570 | a change newer than the last announced read can only have been covered by a reset the client received |
| Replica.OverIsTold | agent/main.cpp:2434-2435 | a watch dropped with notice since the listing: the client was told |
| Replica.BlindIsTold | agent/main.cpp:2525-2532 | a watch gone blind since the listing: the client was told to re-read all |
| Replica.CopyOfName | agent/main.cpp:2525-2572 | at quiescence, not told to re-read, the client's state of a name is true if and only if it is not a held read that was outdated when the watch began |
| Replica.CopyIsTrue | agent/main.cpp:2283-2287 | the whole copy, seeded by a listing made under a watch that is not blind: told to re-read, or true name by name with that exact exception |
| WireCopy.RunConserves | agent/main.cpp:464-505 | in every run each frame enqueued is in one lane or on the wire, once |
| WireCopy.HeardIsRead | agent/main.cpp:2438-2443 | with the interactive lane empty, what was last heard on the wire is what was last enqueued |
| WireCopy.CopyOnWireIsTrue | agent/main.cpp:2283-2287 | the copy and the resets judged on frames transmitted: the same exact statement |
| CalmRuns.ResetAllMeansOverflow | agent/main.cpp:2525-2532 | all is reset only in runs whose kernel queue overflowed |
| CalmRuns.ResetMeansCrowd | agent/main.cpp:2499-2502 | a watched directory is reset only in runs that held 256 of its names at once |
| CalmRuns.CalmCopyIsTrue | agent/main.cpp:2541-2570 | without either, while the watch stands, nobody is told to re-read and the copy is true |
| LostNames.NextStaysLost | agent/main.cpp:2445-2574 | every step keeps a name without its descriptor unmentioned, or drops it |
| LostNames.LostStaysLost | agent/main.cpp:2288-2327 | over every run such a name, while registered, is spoken of by no frame in particular |
| LostNames.LostCopyIsItsSeed | agent/main.cpp:2291-2301 | a copy of it stays what its listing read, and only a reset of everything tells its reader to read again |
| LostNames.AliasUnmeans | agent/main.cpp:2294-2301 | answering a descriptor for another name takes it from the one that held it |
| LostNames.RunEndsWithReason | agent/main.cpp:2426-2436 | in every run a watch ends without a word only by a forget, or when its descriptor is answered for or dropped under another name |
| WatchGaps.StraddledCopyGoesStale | agent/main.cpp:2541-2569 | a complete run in which an outdated held read is announced after a new listing and stays |
| WatchGaps.BlindCopyGoesStale | agent/main.cpp:2525-2539 | a complete run in which a listing made after its watch went blind is never corrected |
| WatchGaps.AliasedCopyGoesStale | agent/main.cpp:2291-2301 | a complete run in which a name that lost its descriptor to another is never spoken of again |
| Scheduler.WorkQueue.Push | agent/main.cpp:5328-5334 | appends to one lane |
| Scheduler.WorkQueue.PickRunnable | agent/main.cpp:5395-5400 | the lane has a job and fewer than 16, 8 or 2 running, and no more urgent lane has; or no lane has |
| Scheduler.WorkQueue.TryPop | agent/main.cpp:5339-5352 | takes the head of the most urgent startable lane and a slot, leaves when stopped and empty, else waits |
| Scheduler.WorkQueue.Finish | agent/main.cpp:5354-5361 | gives one slot back |
| Scheduler.WorkQueue.Stop | agent/main.cpp:5363-5369 | sets the flag only |
| SchedulerProofs.NextKeepsInv | agent/main.cpp:5328-5369 | every step keeps: no sleeper, or a notify-all in flight, or ready workers plus notify-ones at least the runnable demand |
| SchedulerProofs.RunKeepsInv | agent/main.cpp:5413-5445 | the invariant holds in every state of every run |
| SchedulerProofs.NoIdleWorker | agent/main.cpp:5336-5352 | with no wakeup under way, a sleeping worker means no lane is runnable |
| SchedulerProofs.PoppedByPriority | agent/main.cpp:5336-5348 | in every run a popped job is its lane's oldest, the lane had a slot, and every more urgent lane was empty or had 16, 8 or 2 running |
| SchedulerProofs.InteractiveReserve | agent/main.cpp:5318-5324 | normal at most 8 and bulk at most 2 running, so 6 of 16 workers stay for interactive jobs |
| SchedulerProofs.ExitMeansDrained | agent/main.cpp:5336-5349 | a worker leaves only after stop, with every pushed job popped exactly once, in order per lane |
| SchedulerProofs.WorkLowers | agent/main.cpp:5339-5361 | every move of the pool lowers a measure |
| SchedulerProofs.DrainBound | agent/main.cpp:5413-5445 | so without new pushes there are at most that many moves |
| SchedulerProofs.RestIsDrained | agent/main.cpp:5363-5369 | after stop, a state with no move left has all workers exited and all jobs popped: nobody sleeps forever |
| Base64.EncodeBytes | agent/main.cpp:268-293 | the loop and its tail compute the reference encoding |
| Base64.EncodedLength | agent/main.cpp:272-272 | encoded length is 4⌈n/3⌉ |
| Base64.DecodeString | agent/main.cpp:298-322 | the wrapping accumulator decodes like an exact one |
| Base64.WrapInvisible | agent/main.cpp:309-319 | from any accumulator value, wrapped or not, the decoder's output depends only on its unread low bits |
| Base64.RoundTrip | agent/main.cpp:268-322 | decode after encode is the identity on every byte string |
| Base64.LettersAreAlphabet | agent/main.cpp:269-270 | the letters are those of the table in its order |
| Base64.LettersOfGroup | agent/main.cpp:275-281 | three bytes become their six-bit parts from the top, as letters |
| Base64.VectorF | agent/main.cpp:283-291 | the one-byte vector of RFC 4648, section 10 |
| Base64.VectorFo | agent/main.cpp:283-291 | the two-byte vector |
| Base64.RefusedIffForeign | agent/main.cpp:311-313 | input is refused exactly when it holds a character outside alphabet, padding and line ends |
| Base64.RefusedIffOutside | agent/main.cpp:299-313 | the same against the table, padding and line ends written out |
| Base64.SkippedAnywhere | agent/main.cpp:311-311 | padding and line ends mean nothing wherever they stand |
| Response.NegotiatedCap | agent/main.cpp:716-724 | the proposal clamped into 65536..262144, 131072 without one |
| Response.ChunkUp | agent/main.cpp:594-610 | the loop cuts the text into the chunk sequence |
| Response.Respond | agent/main.cpp:574-621 | one plain frame, or chunks then the streamed envelope |
| Response.ChunksInSequence | agent/main.cpp:596-610 | chunks are numbered 0..n-1, exactly the last one marked, all but it of full size, and join to the text |
| Response.ResponseRoundTrip | agent/main.cpp:574-621 | reassembling, decoding and inflating the frames gives the envelope with the stated byte count |
| Response.FramesFit | agent/main.cpp:590-593 | a plain frame fits the cap, and so does a chunk with any wrapper within the headroom |
| Response.RunAccounts | agent/main.cpp:464-505 | in every run, wire, lane and remaining frames of one id are together its frames in order |
| Response.WireOfOneId | agent/main.cpp:574-621 | the wire filtered by an id is a prefix of its frames, and all of them iff the worker and the id's lane hold no more |
| Response.FinalIsLast | agent/main.cpp:580-616 | a plain or streamed frame is the last of its response, and only that |
| Response.EnvelopeArrives | agent/main.cpp:574-621 | once the wire holds an id's final frame, its frames are complete and rebuild exactly the envelope, whatever else is queued |
| EndToEnd.WireIsReceived | agent/main.cpp:507-510 | serialized, framed, read and parsed, the wire comes back frame by frame, when parsing undoes serializing on the frames of that wire |
| EndToEnd.VerbatimIsReadable | agent/main.cpp:580-586 | plain answers written verbatim meet that condition when each envelope carries its id |
| EndToEnd.BytesBecomeEnvelope | agent/main.cpp:574-621 | so the bytes on stdout rebuild the envelope, under any interleaving |
| Framing.Input.ReadHeaderLine | agent/main.cpp:370-382 | byte by byte up to a newline, one carriage return dropped; end of input otherwise |
| Framing.Input.ReadExact | agent/main.cpp:359-368 | exactly n bytes under any split of reads, or failure when there are fewer |
| Framing.Input.ReadFrameBytes | agent/main.cpp:411-439 | the loop computes the reference reading of one frame |
| Framing.Input.ServeOne | agent/main.cpp:5852-5863 | one turn of the session: a body, one report, or silence, and what is left |
| Framing.Input.Serve | agent/main.cpp:5852-5864 | the whole session ends and is the reference session |
| Framing.ParseDecimal | agent/main.cpp:422-424 | a written length reads back as itself |
| Framing.LengthIsParsed | agent/main.cpp:422-423 | white space, sign and trailing text: the number, its complement after a minus, at most 2^64 - 1 |
| Framing.NothingParsesToZero | agent/main.cpp:422-423 | no number is length 0 |
| Framing.AnyCaseIsLength | agent/main.cpp:401-409 | a line is a length header exactly when it starts with the name in any mix of letter cases |
| Framing.NoLeadingZero | agent/main.cpp:507-508 | lengths are written without leading zeros |
| Framing.LengthReads | agent/main.cpp:401-425 | a length header in any letter case, with either line end, sets the length |
| Framing.OneReturnIsDropped | agent/main.cpp:376-378 | a line gives up one carriage return before its newline, no more |
| Framing.NoiseReads | agent/main.cpp:415-426 | noise lines before a header only mark the block as non-empty |
| Framing.MessageReads | agent/main.cpp:411-439 | a well-formed message yields its body and leaves exactly what follows |
| Framing.ShortBodyIsEof | agent/main.cpp:436-437 | a message cut short in its body ends the input |
| Framing.ItemReads | agent/main.cpp:427-435 | padding is silent, a bad block is reported once, and neither touches what follows |
| Framing.SessionRoundTrip | agent/main.cpp:5852-5864 | any sequence of messages, padding and bad blocks is read back item by item |
| Framing.WriterRoundTrip | agent/main.cpp:507-510 | what the writer puts on the wire is read back as the same bodies |
| Tunnel.TunnelQueue.Accept | agent/main.cpp:3947-3960 | queues the bytes with their count, or refuses when closing or gone |
| Tunnel.TunnelQueue.Take | agent/main.cpp:3673-3683 | takes the oldest chunk off the queue and its bytes off the count |
| Tunnel.WriteChunk | agent/main.cpp:3685-3692 | under any short writes, a prefix is written, and all of it unless a write failed |
| Tunnel.RunKeepsInv | agent/main.cpp:3669-3703 | in every run, written, in-flight and queued bytes are together the accepted bytes |
| Tunnel.BytesInOrder | agent/main.cpp:3669-3692 | written is a prefix of accepted; the count is the queue's total and below 8 MiB plus the newest chunk |
| Tunnel.NobodyWaitsNeedlessly | agent/main.cpp:3952-3955 | a sender goes on below 8 MiB or when there is nobody to send to, the drainer when there is anything to do |
| Tunnel.CleanCloseIsComplete | agent/main.cpp:3678-3703 | closing without a write failure happens only after all accepted so far was written, and, unless a close was asked for by then, only after eof |
| AtomicWrite.RunKeepsInv | agent/main.cpp:2959-3043 | in every interleaving each temp file belongs to one request and holds a prefix of its bytes |
| AtomicWrite.TargetIsWhole | agent/main.cpp:2968-3030 | at any moment and after a crash at any moment the target is as before or some request's complete bytes |
| AtomicWrite.RefusalsInstallNothing | agent/main.cpp:3007-3030 | only requests answering success ever installed anything |
| AtomicWrite.SuccessMeansInstalled | agent/main.cpp:3024-3033 | every request answering success has installed its bytes |
| AtomicWrite.NoTempLeftBehind | agent/main.cpp:2982-3030 | at every moment each temp file belongs to a request under way that works on that file |
| AtomicWrite.ReplacesWhatItSaw | agent/main.cpp:2988-3024 | the file replaced is the file seen if and only if nothing was installed since the check |
| AtomicWrite.RunKeepsStamps | agent/main.cpp:3003-3018 | in every run a request about to rename saw a file with the stamp it asked for |
| AtomicWrite.CheckedByStamp | agent/main.cpp:2991-3018 | a checked request goes on iff it named no stamp or the target's, 0 for none, and else to a conflict |
| AtomicWrite.ReplacesWhatWasRead | agent/main.cpp:2995-3018 | the file replaced is the one the client read if and only if nothing was installed since the check and the check did not mistake another file of that stamp for it |
| AtomicWrite.CreatesOnlyIfAbsent | agent/main.cpp:3002-3007 | a create-only write finds no file if and only if nothing was installed since the check and it did not see a file of stamp 0 |
| AtomicWrite.CreateOverStampZero | agent/main.cpp:3005-3007 | a run in which a lone create-only request replaces an existing file of stamp 0 |
| AtomicWrite.BothCreate | agent/main.cpp:3002-3024 | a run in which two create-only requests both answer success |
| Sandbox.UnderRootIsPrefix | agent/main.cpp:2127-2134 | on canonical paths the string test is the prefix test on component lists |
| Sandbox.PeelOff | agent/main.cpp:2715-2740 | the loop ends on every input and computes the reference peeling |
| Sandbox.ResolveForCreate | agent/main.cpp:2702-2754 | the whole operation with all its refusals |
| Sandbox.PeelExplains | agent/main.cpp:2717-2740 | input is existing part plus components; the missing ones are those kept, in order, and each skipped test is accounted for |
| Sandbox.PeelFinds | agent/main.cpp:2712-2740 | the loop finds every resolving part with missing components behind it, however many |
| Sandbox.ExistingIsGrantedIff | agent/main.cpp:2707-2711 | an existing path is granted, as its canonical spelling, iff it lies under a root, and denied otherwise |
| Sandbox.MissingIsGrantedIff | agent/main.cpp:2715-2754 | a path with missing parts is granted iff its resolving part lies under a root, as that part and the names in order |
| Sandbox.MissingLevelsAreGranted | agent/main.cpp:2712-2714 | several missing levels below the deepest resolving part are all granted at once |
| Sandbox.OthersAreInvalid | agent/main.cpp:2719-2745 | any other path is an invalid request |
| Sandbox.CreateIsConfined | agent/main.cpp:2741-2754 | result is the canonical existing ancestor under a root plus proper names in order; it is the deepest one iff the skipped tests would have failed |
| Sandbox.CreatedIsUnderRoot | agent/main.cpp:2702-2754 | every granted path, existing or new, passes the root test |
| Sandbox.GrantIsUnder | agent/main.cpp:2750-2753 | appending names to a path under a root stays under it, and is canonical iff the path is not the root or nothing is appended |
| Sandbox.SkippedAncestor | agent/main.cpp:2727-2727 | a concrete path whose deepest existing ancestor is passed over |
| Rebase.ValidationErrors | gitmanip/src/rebase_plan.cpp:325-354 | the complaints are exactly: no target, each squash with no standing action before it, each reword without a message |
| Rebase.Execute | gitmanip/src/operations.cpp:133-331 | refuses invalid plans and missing targets, otherwise is the reference execution, conflicts included |
| RebaseProofs.StepKeepsInv | gitmanip/src/operations.cpp:157-312 | each turn keeps chain, commit count, mapping and pending state |
| RebaseProofs.RunKeepsInv | gitmanip/src/operations.cpp:157-325 | and so does the loop |
| RebaseProofs.RebaseMakesChain | gitmanip/src/operations.cpp:293-325 | one single-parent chain from the target to the new head, one commit per standing action and per maximal run, every action mapped to its commit |
| RebaseProofs.RunSharesCommit | gitmanip/src/operations.cpp:304-309 | neighbours in a run map to the same commit |
| RebaseProofs.RebaseKeepsAuthors | gitmanip/src/operations.cpp:189-279 | standing actions keep author and message; a run takes its author from a created commit, never from the target |
| RebaseProofs.ReplayPreserves | gitmanip/src/operations.cpp:88-122 | replaying a chain onto its own base succeeds and reproduces trees, authors and unworded messages |
| RebaseContents.RebaseMakesContents | gitmanip/src/operations.cpp:180-302 | each commit's tree merges the original parent's tree, the tree below and the original's, then the plan's changes; a run's message is collected over its members, starting from the commit below |
| RebaseContents.EmptyChangeKeepsTree | gitmanip/src/operations.cpp:99-107 | with a merge that answers ours when base and theirs agree, picking a commit that changed nothing keeps the tree below |
| RebaseContents.PlainRunMessage | gitmanip/src/operations.cpp:214-279 | without messages of their own, a run keeps the earlier message and adds each squash's in order |
| RebaseContents.OwnMessageRestarts | gitmanip/src/operations.cpp:222-227 | a squash's own message replaces what was collected, and later plain members add to it |
| RebaseContents.LastMemberMappedTwice | gitmanip/src/operations.cpp:302-309 | the last member of every run stands twice in the commit mapping |
| TreeBuilder.Scan | gitmanip/src/tree_builder.cpp:131-156 | in any order of the pending map, files and directory names of one level; refuses iff a file name is bad |
| TreeBuilder.BuildRecursive | gitmanip/src/tree_builder.cpp:126-177 | ends, succeeds iff every component under the prefix is acceptable, and builds the reference tree |
| TreeBuilder.DirFits | gitmanip/src/tree_builder.cpp:159-161 | the prefix grows within the longest pending path |
| TreeBuilder.LookupBuilt | gitmanip/src/tree_builder.cpp:126-177 | for every map, prefix and path: the pending entry there unless another path uses it as a directory, and nothing else |
| TreeBuilder.BuildThenFlatten | gitmanip/src/tree_builder.cpp:126-177 | looking up gives exactly the pending entries under the prefix |
| TreeBuilder.FlattensIffConflictFree | gitmanip/src/tree_builder.cpp:126-177 | if and only if no path is a directory of another |
| TreeBuilder.AllWrittenIff | gitmanip/src/tree_builder.cpp:245-262 | all insertions can be looked up iff plain and nested were not mixed and nothing conflicts |
| TreeBuilder.Builder.InsertBlob | gitmanip/src/tree_builder.cpp:208-218 | the path now holds the blob, replacing an earlier one; a bad plain name is refused and changes nothing |
| TreeBuilder.Builder.Clear | gitmanip/src/tree_builder.cpp:234-239 | nothing is held |
| TreeBuilder.Builder.Build | gitmanip/src/tree_builder.cpp:245-262 | what every path leads to in the tree written |
| RowTable.InsertRefines | core/src/db/LSPCache.cpp:313-338 | inserting rows adds their multiset to the map's answer under key and SHA |
| RowTable.DeleteRefines | core/src/db/LSPCache.cpp:284-298 | a delete by key and SHA removes those keys from the map and nothing else |
| RowTable.InvalidateRefines | core/src/db/LSPCache.cpp:253-278 | the nested delete removes exactly the keys asked from the file or pointing into it at any SHA |
| RowTable.InvalidateWholeOrGone | core/src/db/LSPCache.cpp:247-252 | an answer survives whole and in order, or no row of it does, and which |
| RowTable.ForgetFrees | core/src/db/LSPCache.cpp:247-252 | no survivor was asked from the file or points into it |
| RowTable.ViewAnswers | core/src/db/LSPCache.cpp:346-371 | a select returns the map's answer, empty iff the key is absent |
| LspCache.Cache.SetCurrentGitSha | core/src/db/LSPCache.cpp:204-207 | sets the SHA only |
| LspCache.Cache.AddDefinition | core/src/db/LSPCache.cpp:313-338 | one row, nothing when closed or without a SHA |
| LspCache.Cache.AddReferences | core/src/db/LSPCache.cpp:378-409 | one row per location, in order |
| LspCache.Cache.ReplaceSymbols | core/src/db/LSPCache.cpp:598-638 | the query's rows at this SHA replaced by the new ones |
| LspCache.Cache.ForgetFile | core/src/db/LSPCache.cpp:237-282 | the three deletes of an invalidation |
| LspCache.Cache.ForgetOtherShas | core/src/db/LSPCache.cpp:284-307 | only rows of the given SHA stay |
| LspCache.Cache.GetDefinitions | core/src/db/LSPCache.cpp:340-372 | the selected rows as locations, none when there are none |
| LspCache.Cache.GetReferences | core/src/db/LSPCache.cpp:411-443 | the same for references |
| LspCache.Cache.GetSymbols | core/src/db/LSPCache.cpp:640-672 | the same for symbols |
| LspCache.ApplyRefines | core/src/db/LSPCache.cpp:237-307 | every operation on rows is the operation on the map |
| LspCache.RunRefines | core/src/db/LSPCache.cpp:237-307 | so is every history |
| LspCache.LookupsRefine | core/src/db/LSPCache.cpp:340-443 | after every history all three lookups return the map's multiset, every URI with its scheme, and none exactly when there is no answer |
| LspCache.UrisRoundTrip | core/src/db/LSPCache.cpp:214-220 | locations come back unchanged if and only if their URIs have the scheme |
| LspCache.ReferencesAreRead | core/src/db/LSPCache.cpp:378-443 | a cached answer is read back after what was stored before |
| LspCache.DefinitionIsRead | core/src/db/LSPCache.cpp:313-371 | the same for definitions |
| LspCache.SymbolsAreRead | core/src/db/LSPCache.cpp:598-672 | a query's answer is the last one cached, field by field, paths without scheme |
| CacheKeys.SamePlaceSameAnswers | core/src/db/LSPCache.cpp:346-358 | places equal in line, character and file without scheme get the same answers |
| CacheKeys.DefinitionStaysPut | core/src/db/LSPCache.cpp:320-358 | caching a definition changes answers at its own place only |
| CacheKeys.ReferencesStayPut | core/src/db/LSPCache.cpp:387-428 | the same for references |
| CacheKeys.SymbolsStayPut | core/src/db/LSPCache.cpp:605-653 | caching a query changes its own answer only |
| CacheKeys.ShasAreApart | core/src/db/LSPCache.cpp:335-358 | what is cached at one SHA is neither seen nor disturbed at another |
| CacheKeys.DeadCacheIsSilent | core/src/db/LSPCache.cpp:317-344 | closed or without a SHA, nothing is stored or answered |
| CacheKeys.OtherShasAreCleared | core/src/db/LSPCache.cpp:284-298 | clearing other SHAs keeps this one's answers and no others |
| CacheKeys.DefinitionsInvalidated | core/src/db/LSPCache.cpp:255-257 | exactly the answers asked from the file or with a row in it, at any SHA, are gone; all others stay |
| CacheKeys.ReferencesInvalidated | core/src/db/LSPCache.cpp:258-260 | the same for references |
| CacheKeys.SymbolsInvalidated | core/src/db/LSPCache.cpp:264-265 | exactly the queries with a row in the file are gone |
| LspCache.InvalidatedStaysGone | core/src/db/LSPCache.cpp:237-282 | from an invalidation until the file is named again, no lookup at any SHA answers from it or points into it |
| WordSearch.FindWord | core/src/lsp/DeclarationSearch.cpp:331-342 | the search by substring finds the first whole word |
| WordSearch.WordsDisjoint | core/src/lsp/DeclarationSearch.cpp:415-430 | whole-word occurrences of an identifier never overlap |
| WordSearch.Occurrences | core/src/lsp/DeclarationSearch.cpp:415-430 | the advance-by-length loop lists exactly all whole-word occurrences, increasing |
| WordSearch.PiecesJoin | core/src/lsp/DeclarationSearch.cpp:290-298 | splitting into lines loses nothing |
| WordSearch.LineAt | core/src/lsp/DeclarationSearch.cpp:290-298 | the newline loop finds the numbered line |
| WordSearch.IdentifierInLine | core/src/lsp/DeclarationSearch.cpp:299-310 | an identifier is selected iff it has a whole-word occurrence touching the cursor |
| WordSearch.IdentifierAt | core/src/lsp/DeclarationSearch.cpp:288-310 | the same in a text, nothing for positions outside it |
| WordSearch.SelectThenScan | core/src/lsp/DeclarationSearch.cpp:288-310 | what the cursor selects is in its line's list, at a column whose span it touches |
| Declarations.Best | core/src/lsp/DeclarationSearch.cpp:372-377 | 0, or the largest rank of a rule that matches |
| Declarations.BestRank | core/src/lsp/DeclarationSearch.cpp:372-377 | the loop that skips rules of no higher rank computes it |
| Declarations.ScanFile | core/src/lsp/DeclarationSearch.cpp:365-384 | the candidates of one file in line order |
| Declarations.FindDeclarations | core/src/lsp/DeclarationSearch.cpp:355-398 | gathers, sorts and cuts as the reference does; nothing for a non-identifier |
| DeclarationProofs.InFileIff | core/src/lsp/DeclarationSearch.cpp:365-371 | skipping files and lines that lack the name loses no candidate |
| DeclarationProofs.FoundIff | core/src/lsp/DeclarationSearch.cpp:355-384 | the candidates are exactly the declaring lines of the visited files |
| DeclarationProofs.SortOrders | core/src/lsp/DeclarationSearch.cpp:386-391 | the sort is an ordered permutation |
| DeclarationProofs.TopIsBest | core/src/lsp/DeclarationSearch.cpp:392-397 | as many as fit, in order, none worse than one left out |
| DeclarationProofs.RankedInOrder | core/src/lsp/DeclarationSearch.cpp:386-391 | results go by falling rank, then rising proximity, URI and line |
| DeclarationProofs.LexLessIs | core/src/lsp/DeclarationSearch.cpp:389-389 | URIs compare at their first difference, a prefix first |
| DeclarationProofs.ProximityMeans | core/src/lsp/DeclarationSearch.cpp:269-274 | 0 for the asking file, 1 for another in its directory, 2 otherwise |
| DeclarationProofs.CandidateSpansName | core/src/lsp/DeclarationSearch.cpp:378-381 | a candidate's span reads the name, its line's first whole word, and its rank is the best of the rules |
| DeclarationProofs.FoundKeyed | core/src/lsp/DeclarationSearch.cpp:380-381 | one candidate per URI and line |
| DeclarationProofs.PathsGiveUris | core/src/lsp/DeclarationSearch.cpp:278-281 | distinct paths of one workspace have distinct URIs |
| DeclarationProofs.WalkOrderIsIrrelevant | core/src/lsp/DeclarationSearch.cpp:355-398 | any two visit orders of the same files return the same list |

## Left out

- Replica.CopyIsTrue: says nothing of a listing made under a watch already blind, nor of a watch that ended without a word since (a forget, whose caller speaks for itself, or a descriptor passed to another name); in both the copy may or may not be true. `LostNames` says what is heard of a name in the last case.
- Changes inotify does not report: a change through a hard link in another directory and the rename of an ancestor; in the model every change of a name is reported under its directory's watch.
- DirWatch.Window.Digest: reads an event as one of three kinds; event bytes, masks and lengths are not modelled.
- Framing.WriterRoundTrip: bodies up to the largest `unsigned long`, since longer ones cannot be announced; a Content-Length too large to allocate is not modelled.
- RowTable.ViewAnswers: row order is not part of the reference map, because the SELECT statements fix none.
- Wall-clock behaviour: coalescing windows, the 500 ms barrier timeout and the busy window are nondeterministic choices.
- Kernel and system calls: `realpath`, `inotify`, `write` and `rename` are parameters or steps; `unlink` is taken to succeed, and other programs writing the target file are not modelled.
- Anchoring a relative path at HOME before it is authorized.
- Tunnel wakeups: flags are set and notified without the mutex, so only data order and bounds are claimed.
- Rebase progress callbacks, dry runs, committer signatures and the warnings list; the merge, the edits and the object hash are parameters.
- Tree builders that start from a base tree, `remove`, and direct `insert` of other object kinds.
- The cache's hover, document symbol, folding range and index tables, and SQL statements that fail to prepare.
- `findOccurrences` beyond one line: it stops early at four times the limit, so it promises no best results.
- The workspace walk, its file limit, extension filter and binary test; the visited files are a parameter, and so are the regular-expression rules.
- JSON, deflate, SQLite and libgit2 internals are uninterpreted functions or rows; commit signing is not modelled.
- `core/src/fs/HeadWatcher.cpp`, which re-arms a one-shot watch on a repository's HEAD; a change between its callback and the re-arm goes unseen, so none of the claims about directories carry over.
- The rest of the agent: the socket and process plumbing of tunnels, the credential broker, cancellation, logging, configuration, and the git and language-server request handlers.
