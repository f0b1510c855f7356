# Socle, verified

A Dafny model of the stateful core of the socle proxy library, with proofs of what it is
relied on for. The kernel is an arbitrary environment: every receive, send and poll gives any
permitted result. Code that updates objects in place is modelled by classes and methods whose
contracts tie the new state to a specification function; the theorems are lemmas about those
functions over every run.

| file | what it models |
|---|---|
| Buffers.dfy, HostContext.dfy, LrProxy.dfy | the byte pipeline: buffers, contexts, and the left-right proxy with its backpressure flags |
| ContextLists.dfy | the eight context lists of a proxy, delayed accepts, and the trashcan |
| TcpSegments.dfy, Packets.dfy, PcapNg.dfy, PcapLog.dfy, CaptureJournal.dfy | traffic capture: an invented TCP conversation, its packets, the block format (sections 3.1 and 4.3 of draft-ietf-opsawg-pcapng), the log of a session, and what a reader of its file learns |
| Checksum.dfy | the Internet checksum (section 1 of RFC 1071) |
| FdQueue.dfy | the socket queue and the hint bytes that wake workers, as an interleaving step system |
| Crc32.dfy, Base64.dfy, Ltv.dfy | CRC-32 (section 8 of RFC 1952), Base64 (section 4 of RFC 4648), length-type-value trees |
| PtrCache.dfy, DatagramPool.dfy | the bounded cache and the five-slot pool of early datagrams |
| FlowCapture.dfy, IdleWatch.dfy | the capture window of an application context, and the idle timer |
| Bytes.dfy, Common.dfy | octets and fixed-width integers, and small helpers |

`dafny verify dfyconfig.toml` checks everything.

Main results, one per component:

- Stream integrity: `LrProxy.StreamsAreIntact`; flags and memory: `LrProxy.FlagsAreExactIff`,
  `LrProxy.BackpressureHolds`; pauses: `LrProxy.PausesFollowFlags`, `LrProxy.ReleasedSideIsReadAgain`;
  single calls: `LrProxy.ReadCallIsExact`, `LrProxy.WriteCallIsExact`.
- Ownership of contexts: `ContextLists.EveryContextIsOwnedOnce`, `ContextLists.FlagsTellThePlace`,
  `ContextLists.ListsTellTheKinds`.
- Capture read back from the file octets: `CaptureJournal.SessionIsToldIff`,
  `PcapLog.CaptureIsReadBack`; its shape: `PcapLog.ConversationShape`; its checksums:
  `Packets.PacketSumsRight`.
- No lost wake-up: `FdQueue.NoLostWakeup`, `FdQueue.NonEmptyQueueIsAnnounced`; who is woken:
  `FdQueue.HintsPerPush`, `FdQueue.LoadsSeenWereReported`.
- Codecs: `Crc32.Compute`, `Crc32.CrcComposes`, `Base64.RoundTrip`, `Ltv.RoundTripIff`,
  `Ltv.RoundTrip`.
- Caches and pools: `PtrCache.FifoRun`, `PtrCache.SurvivorsAreTheNewest`, `PtrCache.FreeOfDuplicatesIff`,
  `PtrCache.LruRun`, `PtrCache.ReadAnswersIff`, `DatagramPool.EveryDatagramIsDeliveredOnce`, `DatagramPool.OrderIsKeptIff`.
- Capture window and idle timer: `FlowCapture.CaptureIsExactlyOnce`, `FlowCapture.WindowIsOpenIff`,
  `FlowCapture.ChunkingDoesNotMatter`, `IdleWatch.IdleReportsAreTrue`.

Where the code does less than one would expect, the model keeps the code, a lemma gives the
case, and another one says exactly when the property holds:

- A push with a single registered worker hints nobody (`FdQueue.SingleWorkerIsNeverWoken`);
  the loop counter grows twice per written hint, so half of the intended half is hinted
  (`FdQueue.HintsPerPush`).
- A packet block with several non-empty comments declares a length four octets too large for
  each one behind the first (`PcapNg.HonestIff`, `PcapNg.WalkerVisitsEveryBlockIff`).
- A comment of 65536 octets or more is written with a wrong length
  (`PcapNg.CommentsAreReadIff`, `CaptureJournal.SessionIsToldIff`).
- The 32-bit checksum sum can wrap from 65538 words on, and is then wrong
  (`Checksum.ChecksumIsRightIff`, `Checksum.OverflowBreaksTheSum`).
- A socket watched again in the second idle stage can be reported too early
  (`IdleWatch.RewatchIsTheDanger`, `IdleWatch.EarlyReportIff`).
- After an erase, a stale list entry can evict a live value (`PtrCache.StaleEntryEvictsTheYoungest`);
  runs without double entries are those of `PtrCache.FreeOfDuplicatesIff`, and fair by
  `PtrCache.NoListedKeyIsEvicted`. An LRU eviction looks at one key only and can drop a hot one
  (`PtrCache.HotKeyCanBeEvicted`, `PtrCache.HotVictimIff`); after an erase it can read a block
  that is not there (`PtrCache.ErasedFrontIsUnsafe`, `PtrCache.MissingBlockIsReadIff`).
- A pool read into an empty buffer discards a datagram and can leave a session marked readable
  (`DatagramPool.ReadinessIsExact`); delivery is by slot, not by arrival
  (`DatagramPool.LateArrivalOvertakes`, `DatagramPool.OrderIsKeptIff`,
  `DatagramPool.NextReadIsTheOldestIff`).
- Forwarding to a second destination works only while buffers are copied
  (`HostContext.FanOutNeedsTheSlowLane`); a failed write leaves the flag down
  (`LrProxy.FailedWriteLosesTheBrake`, `LrProxy.FlagIsExactIff`); a write forced by a read can
  leave it up for good (`LrProxy.ForcedWriteLeavesTheBrakeOnIff`, `LrProxy.StuckBrakeStaysOn`); a
  read forced by a write takes no notice of it (`LrProxy.ForcedReadIgnoresTheFlagIff`).
- A context that is added twice is freed twice (`ContextLists.NothingIsFreedTwiceIff`).
- Without a payload limit an IP length field can be wrong (`Packets.LengthFieldIff`).
- A value set with the container's type is unpacked as a container and may not come back
  (`Ltv.ContainerTypedValueIff`, `Ltv.ShortValueOverruns`); a payload too short for a length
  makes a blank sub-entry (`Ltv.BlankEntryIff`); an entry that was never set is not packed
  (`Ltv.UnsetChildIff`).
- A dropped append leaves the capture counter ahead of the captured bytes
  (`FlowCapture.CaptureIsExactlyOnce`).

## Model

| member | source | states |
|---|---|---|
| Crc32.Compute | common/crc32.cpp:59-70 | for every buffer and seed, the table-driven loop returns the bit-serial reflected CRC with polynomial 0xEDB88320 |
| Crc32.Table | common/crc32.cpp:9-57 | entry i of the table is i after eight steps of the bit-serial register |
| Crc32.ClocksAreTableStep | common/crc32.cpp:66-67 | taking an octet in bit by bit equals one lookup of the low byte, combined with the register shifted by eight |
| Crc32.CrcComposes | common/crc32.cpp:59-70 | computing over a, then over b from that result, equals computing over a followed by b, for all a, b and seeds |
| Crc32.CheckValue | common/crc32.cpp:59-70 | the nine digits give 0xCBF43926, the check value of this CRC, which fixes the complements before and after |
| Crc32.RegisterIsInjective | common/crc32.cpp:66-67 | different register values stay different over equal data |
| Crc32.BurstIsDetected | common/crc32.cpp:59-70 | two messages that differ, and only within four adjacent octets, never have the same CRC |
| Base64.GetCharByRange | common/base64.hpp:73-88 | the 64 entries of the symbol table are the capital letters, the small ones, the digits, plus and slash, in this order |
| Base64.ToBinaryByRange | common/base64.hpp:91-95 | each of the 64 symbols lies inside the 80 entries of the conversion table and has its value there |
| Base64.SymbolOf | common/base64.hpp:73-95 | converting the symbol of a value back gives the value, for all 64 |
| Base64.ValueOf | common/base64.hpp:73-95 | and the other way round, for every symbol |
| Base64.Encode | common/base64.hpp:118-171 | the loop over whole groups and the padded last group produce the specified text, and no octet outside the input is read |
| Base64.EncodedLength | common/base64.hpp:105-107 | the text has exactly the calculated size |
| Base64.EncodingShowsTheBits | common/base64.hpp:118-171 | for every octet string, each group of four symbols counts, six bits to a symbol, what its three octets count, and has an equal sign exactly where there is no octet |
| Base64.Decode | common/base64.hpp:174-265 | the checks and both parts of decoding give the specified octets, or nothing for malformed text, and no character outside the text is read |
| Base64.AcceptableShape | common/base64.hpp:188-225 | the scan for odd characters accepts exactly the texts of symbols with none, one or two equal signs at the end |
| Base64.RoundTrip | common/base64.hpp:118-265 | decoding what was encoded gives the octets back, for every octet string |
| Base64.CanonicalText | common/base64.hpp:174-265 | encoding what was decoded gives the text back exactly when the bits under the padding are zero |
| Ltv.Pack | common/ltventry.cpp:317-391 | appends exactly the wire form of the tree and returns its size: an entry's own memory as far as its length goes, which is nothing for one that was never set, then the children of a container, whose length is written over its start; a container must have room for that |
| Ltv.Unpack | common/ltventry.cpp:67-163 | reads an entry as the specification function says, from memory that may hold less or more than one entry |
| Ltv.UnpackChildren | common/ltventry.cpp:120-155 | the sub-entry loop, which offers every sub-entry the whole payload length and takes an error code for a length |
| Ltv.RoundTrip | common/ltventry.cpp:67-391 | a packed tree of containers and properly typed values, followed by anything, comes back with its length |
| Ltv.RoundTripIff | common/ltventry.cpp:67-391 | any tree that can be packed, whatever types, lengths and octets its entries have, comes back if and only if a condition on the tree holds: its header is read as written, and its contents open, that is, values contain nothing, and the sub-entry loop meets exactly the children, each packed to something where the one before it ends, and stops behind the last |
| Ltv.UnpackedIsCoherent | common/ltventry.cpp:67-163 | in whatever was unpacked, payloads are as long as the length fields say, down to the last sub-entry, which is what packing relies on |
| Ltv.UnsetChildIff | common/ltventry.cpp:364-388 | a container with an entry that is packed to nothing comes back only as the one with a payload of one to three octets and the blank entry in it |
| Ltv.ShortContainerComesBack | common/ltventry.cpp:67-391 | and that one, which is what unpacking makes of such a payload, does go round unchanged |
| Ltv.FilledIsInjective | common/ltventry.cpp:119-155 | what comes back tells well-built trees apart |
| Ltv.ContainerTypedValueIff | common/ltventry.cpp:119-155 | a value set with the container's type comes back unchanged if and only if it is empty, or its first four octets taken for a length are longer than the value, or are zero with a whole header there |
| Ltv.ShortValueOverruns | common/ltventry.cpp:119-155 | with four or five octets of such a value the source reads past its copy if and only if that length is not longer than the value |
| Ltv.UnpackedKeepsItsOctets | common/ltventry.cpp:67-163 | whatever octets come in, the result holds exactly the octets it was read from, and contains nothing unless it is a container |
| Ltv.PrefixAsksForMore | common/ltventry.cpp:77-93 | every proper prefix of a packed tree gives -1 before the length field is there and 0 after |
| Ltv.StreamIsUnambiguous | common/ltventry.cpp:67-163 | two packed trees followed by anything are equal only if the trees and what follows are equal |
| Ltv.BlankEntryIff | common/ltventry.cpp:133-146 | an unpacked entry has a blank sub-entry nobody sent if and only if it is a container with one to three octets of payload |
| Ltv.ValueIsReadBack | common/ltventry.cpp:235-291 | a value goes through packing and unpacking unchanged |
| Ltv.NumbersAndStringsAreFound | common/ltventry.cpp:235-291 | and the number or string that was set is found in its octets, also in a field of fixed size |
| Checksum.IphdrCksum | traflog/pcapapi.cpp:76-87 | the 32-bit sum and the fold loop, which terminates, compute the specified checksum |
| Checksum.L4hdrCksum | traflog/pcapapi.cpp:90-111 | header, next header and payload are summed as one run of octets, padded to whole words |
| Checksum.FoldedValue | traflog/pcapapi.cpp:84-85 | folding keeps the sum modulo 65535, and only zero folds to zero |
| Checksum.CompletedVerifies | traflog/pcapapi.cpp:76-87 | data with its checksum stored in the zeroed field sums to zero, for all data the 32-bit sum can hold |
| Checksum.CompletedL4Verifies | traflog/pcapapi.cpp:90-111 | the same behind a pseudo header, for even and odd payloads |
| Checksum.VerifiesIff | traflog/pcapapi.cpp:76-87 | the checksum is zero exactly for data whose words add up to a positive multiple of 65535 |
| Checksum.L4SumIsReceiverSum | traflog/pcapapi.cpp:90-111 | what is summed is the words of the pseudo header and of the segment, whose odd last octet is the upper half of a word |
| Checksum.ChecksumIsRightIff | traflog/pcapapi.cpp:76-87 | over any data, the checksum of the sum that wraps at 32 bits is the right one if and only if the number of wraps is a multiple of 65535 and the wrapped sum is not zero unless the sum itself is |
| Checksum.OverflowBreaksTheSum | traflog/pcapapi.cpp:80-86 | 65538 words of ones do wrap and give a wrong checksum |
| FdQueue.Queue.NewPair | fdq.cpp:11-45 | registering a worker, with or without a usable pipe; registering again replaces the pipe and loses what lies in the old one |
| FdQueue.Queue.PushFront | fdq.cpp:79-84 | the locked part of a push |
| FdQueue.Queue.SeeLoad | fdq.cpp:102-107 | the walk over the entries, in key order, sees the load of one worker |
| FdQueue.Queue.CollectCandidates | fdq.cpp:100-107 | collecting the workers by the loads seen on the way |
| FdQueue.Queue.WriteHint | fdq.cpp:89-115 | the write in a round of the hinting loop, which may fail |
| FdQueue.Queue.LookAtFeedback | fdq.cpp:119 | the test of the feedback flag |
| FdQueue.Queue.ResetFeedback | fdq.cpp:121-122 | clearing the flag and leaving the loop |
| FdQueue.Queue.PushEnds | fdq.cpp:109-127 | the end of a push and the count it returns |
| FdQueue.Queue.TakeHint | fdq.cpp:136-151 | reading a hint byte, or none; an unknown worker gets an entry without a pipe |
| FdQueue.Queue.PopBack | fdq.cpp:153-179 | the locked part of a pop: the oldest socket or zero, and the feedback flag |
| FdQueue.Queue.PopBackIf | fdq.hpp:103-118 | popping under a condition |
| FdQueue.Queue.SetLoad | fdq.cpp:129-134 | a load report of a known worker |
| FdQueue.Candidates | fdq.cpp:100-107 | filling the multimap in key order gives the workers by load, workers of equal load by number |
| FdQueue.OrderIsUnique | fdq.cpp:100-107 | the observed loads determine that order |
| FdQueue.StepKeepsValid | fdq.cpp:79-179 | every step of every thread keeps the accounting of sockets and hint bytes, the order of sockets, the load order and the record of each hinting loop, and the places of hint bytes |
| FdQueue.NoLostWakeup | fdq.cpp:79-179 | over every interleaving, sockets come out in the order they went in; every hint byte written is unread, was read, or was lost with a replaced pipe; and at rest there are as many bytes as announced sockets, each unread one in an open pipe |
| FdQueue.NonEmptyQueueIsAnnounced | fdq.cpp:79-179 | with two workers or more, writes that succeed and no pipe replaced over an unread byte, queued sockets never exceed unread bytes, holders of a byte and pushers still to hint; so a non-empty queue at rest has an unread hint |
| FdQueue.HintsPerPush | fdq.cpp:100-124 | at every moment of every run a push has given bytes to exactly those of a load-ordered prefix of the workers whose write went through, so nobody who was not tried is less busy; finished, it tried at most half the workers, rounded down, and any at all if and only if there are two or more; as the counter grows twice per written byte, only half of that half, rounded up, when all writes succeed |
| FdQueue.LoadIsTheLastReported | fdq.cpp:129-134 | over every run, an entry holds the load its worker reported last since it was registered, and unknown workers report nothing |
| FdQueue.LoadsSeenWereReported | fdq.cpp:102-134 | over every run, each load a push goes by was the last reported one at the step at which that push came to the entry |
| FdQueue.FeedbackIsRaisedIff | fdq.cpp:119-169 | after any step the flag is up if and only if it was up and was not cleared, or the step was a pop that left the queue empty |
| FdQueue.PopTakesTheOldest | fdq.cpp:155-163 | a pop takes the first pushed socket not taken yet, if there is one; a conditional one only with consent; nothing else takes any |
| FdQueue.RoundGoesOn | fdq.cpp:109-123 | a round of the hinting loop writes once and looks at the flag, and a push that found it up clears it and can only return |
| FdQueue.HintIsTaken | fdq.cpp:143-151 | a pop takes no more than the byte it read, and leaves an entry for its worker and all others alone |
| FdQueue.NobodyIsStuck | fdq.cpp:79-179 | in any state a thread inside push_all or pop can go on, and loads, registrations and conditional pops are possible |
| FdQueue.SingleWorkerIsNeverWoken | fdq.cpp:109-111 | with one worker a push leaves a queued socket and no hint at all |
| PtrCache.Cache.Put | common/ptr_cache.hpp:229-268 | replaces a cached value, or makes room by the eviction loop, which terminates, and inserts; in LRU mode the first listed key must be cached whenever the loop looks at it |
| PtrCache.Cache.Get | common/ptr_cache.hpp:192-216 | gives the cached value or the default, drops an expired value, and counts and promotes in LRU mode, where the first listed key must be cached |
| PtrCache.Cache.DeleteLast | common/ptr_cache.hpp:297-317 | removes the last list entry, and the value of that key if it is still cached |
| PtrCache.Cache.LruReorder | common/ptr_cache.hpp:320-353 | moves the last key to the front exactly when it is used above average, and drops it when it is stale |
| PtrCache.Cache.Erase | common/ptr_cache.hpp:169-184 | removes the value and leaves the list alone |
| PtrCache.Cache.Clear | common/ptr_cache.hpp:147-152 | empties map and list and keeps the shared counter |
| PtrCache.CacheIsPartOfIdeal | common/ptr_cache.hpp:147-317 | over every run, in either mode, the cache is a sub-map of the map an unlimited cache would hold; in LRU mode over every run that reads no missing block |
| PtrCache.ReadsAreNeverStale | common/ptr_cache.hpp:192-216 | so a read gives the last value set or the default |
| PtrCache.ReadAnswersIff | common/ptr_cache.hpp:192-216 | over every run in either mode, a read that has not expired gives the last value set for exactly the cached keys, and the default for all others |
| PtrCache.ReadFindsWhatWasSet | common/ptr_cache.hpp:192-268 | after any run, a read right behind a set finds the value, whatever the limit |
| PtrCache.HitLooksAtTheEnd | common/ptr_cache.hpp:320-353 | after any LRU run, a read that finds its key drops an uncached key at the end of the list, moves one used above average to the front, and moves nothing else |
| PtrCache.CountsAreReads | common/ptr_cache.hpp:192-216 | over every run the count of a cached key is the number of its reads since it was set, in 32 bits; in FIFO mode nothing is counted |
| PtrCache.EveryValueIsListed | common/ptr_cache.hpp:147-353 | over every run in either mode, stale entries or not, cached keys are listed and map and list stay within the limit |
| PtrCache.FifoRun | common/ptr_cache.hpp:169-317 | over every FIFO run with erase, expiry and clear, the list is the newest part of the insertion log |
| PtrCache.SurvivorsAreTheNewest | common/ptr_cache.hpp:229-317 | without erase and expiry the survivors are exactly the keys inserted last |
| PtrCache.ReadsFindTheNewest | common/ptr_cache.hpp:192-317 | so a read then answers for exactly the newest keys, as many as the limit allows |
| PtrCache.StaleEntryEvictsTheYoungest | common/ptr_cache.hpp:169-184 | after erasing and re-inserting a key, its stale list entry evicts the live value |
| PtrCache.FreeOfDuplicatesIff | common/ptr_cache.hpp:229-317 | over every FIFO run, no key is ever listed twice if and only if no set brings an erased or expired key back while its old entry is among those that stay |
| PtrCache.NoListedKeyIsEvicted | common/ptr_cache.hpp:245-262 | along such runs, making room never drops a value whose key stays listed |
| PtrCache.ComingBackCanBeHarmless | common/ptr_cache.hpp:229-317 | a listed key that is not cached may come back without a duplicate, when its old entry is the one that makes room |
| PtrCache.LruRun | common/ptr_cache.hpp:192-353 | over every LRU run of sets and reads the list enumerates the cache once, within the limit; the shared counter is the number of hits modulo 2^32, and live counts add up to no more than the hits |
| PtrCache.LruVictim | common/ptr_cache.hpp:243-262 | a full LRU cache of any size drops the last key, or the one before it when the last is used above average, and nothing else |
| PtrCache.HotVictimIff | common/ptr_cache.hpp:320-353 | a key used above average goes if and only if both keys at the end of the list are used above average |
| PtrCache.HotKeyCanBeEvicted | common/ptr_cache.hpp:320-353 | a run of sets and reads after which a key read five times goes and one that was never read stays |
| PtrCache.MissingBlockIsReadIff | common/ptr_cache.hpp:320-332 | after any run, an LRU operation reads a block that is not there if and only if the first listed key is not cached, and a new key is set with the list full or a read finds its key |
| PtrCache.ErasedFrontIsUnsafe | common/ptr_cache.hpp:320-332 | after the first key of a full LRU list is erased, the next set reads a block that is not there |
| IdleWatch.Poller.ClickTimerNow | common/epoll.cpp:420-437 | the coarse timer advances, and the counter with it, exactly when the rescan interval has passed |
| IdleWatch.Poller.ProcessPreWaitIdles | common/epoll.cpp:85-134 | one expiry moves the first stage to the second, the next reports the second |
| IdleWatch.Poller.BeforeWait | common/epoll.cpp:178-199 | reported sockets are forgotten at each wait before the timer is looked at |
| IdleWatch.Poller.SetIdleWatch | common/epoll.cpp:439-441 | a watched socket enters the first stage |
| IdleWatch.Poller.ClearIdleWatch | common/epoll.cpp:443-459 | a socket is taken out of the second stage only if it was not in the first |
| IdleWatch.IdleReportsAreTrue | common/epoll.cpp:85-134 | if no socket is watched again in the second stage, a reported socket was last watched longer ago than the timeout and not unwatched since, and the stages are disjoint |
| IdleWatch.RewatchIsTheDanger | common/epoll.cpp:439-441 | watching keeps the stages disjoint exactly when the socket is not in the second one |
| IdleWatch.EarlyReportIff | common/epoll.cpp:420-441 | a wait exists that reports a socket within the timeout of its last watch if and only if it was watched in the second stage, some time was counted, and the rescan interval can end in time |
| IdleWatch.UnwatchMissesTheSecondStage | common/epoll.cpp:443-459 | clearing a socket that is in both stages leaves it to be reported |
| IdleWatch.WatchedSocketIsReported | common/epoll.cpp:85-134 | a watched socket that is left alone is reported by the third expiry |
| ContextLists.Proxy.Ladd | baseproxy.cpp:52-61 | a context goes to the end of the left list with flag L |
| ContextLists.Proxy.Radd | baseproxy.cpp:64-74 | a context goes to the end of the right list with flag R |
| ContextLists.Proxy.Lbadd | baseproxy.cpp:77-86 | the same for bound contexts on the left |
| ContextLists.Proxy.Rbadd | baseproxy.cpp:89-98 | the same for bound contexts on the right |
| ContextLists.Proxy.Lpcadd | baseproxy.cpp:101-110 | the same for permanent contexts on the left |
| ContextLists.Proxy.Rpcadd | baseproxy.cpp:113-123 | the same for permanent contexts on the right |
| ContextLists.Proxy.Ldaadd | baseproxy.cpp:126-136 | a delayed context on the left gets the flag l |
| ContextLists.Proxy.Rdaadd | baseproxy.cpp:139-149 | a delayed context on the right gets the flag r |
| ContextLists.Proxy.AcceptFromLeft | baseproxy.cpp:884-934 | the loop that nulls accepted entries and the removal of nulls promote exactly the contexts that do not wait |
| ContextLists.Proxy.AcceptFromRight | baseproxy.cpp:884-958 | the same on the right |
| ContextLists.Proxy.LeftShutdown | baseproxy.cpp:156-183 | the four left lists go to the trashcan in order, and are empty |
| ContextLists.Proxy.RightShutdown | baseproxy.cpp:185-211 | the four right lists go to the trashcan in order, and are empty |
| ContextLists.PickedIsStable | baseproxy.cpp:895-905 | promotion keeps the order of both parts |
| ContextLists.PickedIsComplete | baseproxy.cpp:895-905 | and takes every entry of its kind |
| ContextLists.PickedPartitions | baseproxy.cpp:895-905 | the promoted and the remaining entries make up the delayed list |
| ContextLists.EveryContextIsOwnedOnce | baseproxy.cpp:52-219 | over every run, lists and trashcan hold exactly the contexts received, each as often as it was received |
| ContextLists.AddedOnceLivesInOnePlace | baseproxy.cpp:52-219 | the number of places a context is in equals the number of times it was added |
| ContextLists.ShutdownCollectsEverything | baseproxy.cpp:151-219 | after both shutdowns everything received is in the trashcan, and shutting down again changes nothing |
| ContextLists.FlagsTellThePlace | baseproxy.cpp:52-219 | if no context is added twice, the flag of each tells its side, whether it is delayed, and whether it was shut down |
| ContextLists.FlagIsThePlace | baseproxy.cpp:52-219 | and the other way round: each letter stands for one place, capitals for the side, small ones for its delayed list, the dash for the trashcan |
| ContextLists.ListsTellTheKinds | baseproxy.cpp:52-219 | over every run, bound and permanent lists hold what was added as such since the last shutdown of the side, in order; the delayed list those found waiting every time; the regular list, in order, those added as regular or accepted from it |
| ContextLists.NothingIsFreedTwiceIff | baseproxy.cpp:151-219 | after both shutdowns no context lies in the trashcan twice if and only if none was added twice |
| DatagramPool.Datagram.QueueBytes | udpcom.hpp:89-99 | the sum of all slots |
| DatagramPool.Datagram.Enqueue | udpcom.hpp:114-122 | data goes to the first empty slot, or nowhere, which zero tells |
| DatagramPool.DatagramCom.ReadFromPool | udpcom.cpp:518-609 | reads at most one datagram from the first filled slot, or hands over to the session's socket, and updates the readiness set for this session only |
| DatagramPool.ReadTakesOneDatagram | udpcom.cpp:544-600 | a read takes a prefix of one datagram and touches no other; the session is ready afterwards exactly when bytes remain |
| DatagramPool.PeekPredicts | udpcom.cpp:551-572 | a peek changes no slot and shows what the next read returns |
| DatagramPool.ReadinessIsExact | udpcom.cpp:544-600 | readiness is right after a read if and only if the read was not empty, or other datagrams remain, or the session was not ready |
| DatagramPool.EveryDatagramIsDeliveredOnce | udpcom.cpp:518-609 | over every run of arrivals and whole reads, accepted datagrams are those returned and those pending, and the session is ready exactly while some are pending |
| DatagramPool.OrderIsKeptIff | udpcom.hpp:114-122 | over every run of arrivals and whole reads, the slots stand in order of arrival if and only if each pending datagram, when it arrived, found nothing pending behind the first empty slot |
| DatagramPool.NextReadIsTheOldestIff | udpcom.cpp:544-600 | the next read returns the first filled slot whole, and that datagram has waited longest if and only if it found nothing pending behind the first empty slot when it arrived |
| DatagramPool.LateArrivalOvertakes | udpcom.hpp:114-122 | a run in which a datagram that finds the first slot free again is delivered before an older one in the second |
| FlowCapture.Flow.Append | common/signature.hpp:116-155 | starts or extends a chunk, or drops the data and marks the chunk, by side, domain and size |
| FlowCapture.Flow.Pop | common/signature.hpp:111-113 | removes the oldest chunk, if any |
| FlowCapture.StreamFlowsAlternate | common/signature.hpp:116-155 | chunks of a stream alternate sides, and the changes of side are one less than the chunks |
| FlowCapture.UntruncatedHoldsEverything | common/signature.hpp:116-155 | a flow without a truncation mark holds every appended byte in order |
| FlowCapture.NothingIsDroppedIff | common/signature.hpp:116-155 | a stream flow drops nothing if and only if no side goes on, after what it says first, beyond the limit |
| FlowCapture.ChunkingDoesNotMatter | common/signature.hpp:116-155 | however the bytes of a side were cut, the chunks are the same apart from the update counters |
| FlowCapture.UpdatesAreCounted | common/signature.hpp:116-155 | in a flow that dropped nothing every append is counted by exactly one chunk |
| FlowCapture.ExchangesAreChanges | common/signature.hpp:116-155 | the exchanges are the changes of side between neighbouring chunks, for streams and datagrams |
| FlowCapture.DatagramsStayApart | common/signature.hpp:137-141 | datagrams are kept apart and whole, whatever their size |
| FlowCapture.AppHostCX.InsideDetectRanges | apphostcx.cpp:364-373 | the detection window by bytes and chunks |
| FlowCapture.AppHostCX.PreWrite | apphostcx.cpp:397-457 | appends exactly the part of the write buffer that was not captured yet |
| FlowCapture.WindowNeverReopens | apphostcx.cpp:364-373 | a closed detection window stays closed |
| FlowCapture.WindowIsOpenIff | apphostcx.cpp:364-373 | over every run, a write captures its whole buffer while no more bytes have passed than both byte limits, nothing above the maximum, and in between if and only if there are fewer chunks than allowed |
| FlowCapture.TrafficIsCounted | apphostcx.cpp:364-457 | the two counters are the bytes read, and the bytes that went out |
| FlowCapture.WriteSends | apphostcx.cpp:397-457 | a write takes from the front of the buffer what the kernel takes, however much was captured |
| FlowCapture.CaptureIsExactlyOnce | apphostcx.cpp:397-457 | over every run of arrivals, partial sends and reads, the captured bytes are the first bytes of the outgoing stream, as many as the counter says, if and only if no chunk was truncated |
| FlowCapture.OpenWindowMissesNothing | apphostcx.cpp:397-457 | while the window is open everything about to be sent is captured first |
| FlowCapture.ReadsAreCaptured | apphostcx.cpp:397-457 | over every run, without a truncation mark the other side holds exactly what the read hook took, whatever is written in between |
| Buffers.MoveDown | common/buffer.cpp:495-496 | moving overlapping memory to the front |
| Buffers.CopyDown | common/buffer.cpp:497-499 | plain copying, which needs ranges that do not overlap |
| Buffers.Buffer.Capacity | common/buffer.cpp:357-399 | contents survive a larger block, and requests for less are ignored |
| Buffers.Buffer.Size | common/buffer.cpp:339-351 | the used part is cut or extended, in a larger block if needed |
| Buffers.Buffer.Append | common/buffer.cpp:314-326 | contents are extended, in a block that grows only when it must |
| Buffers.Buffer.Flush | common/buffer.cpp:486-505 | the first bytes go, zero empties the buffer, and the plain copy is only used where it is allowed |
| Buffers.Buffer.Swap | common/buffer.cpp:225-241 | two buffers exchange their blocks |
| Buffers.Buffer.View | common/buffer.cpp:508-527 | a window, clipped at the end of the contents; a start behind them is an error |
| HostContext.HostCX.Finish | hostcx.cpp:680-701 | flushes what was processed, or everything when the counters disagree |
| HostContext.HostCX.GrowBuffer | hostcx.cpp:340-357 | doubles the read buffer within the configured maximum |
| HostContext.HostCX.AfterRead | hostcx.cpp:359-396 | counts the bytes and what the processing hook takes |
| HostContext.HostCX.Receive | hostcx.cpp:441-516 | one receive call straight into the free part of the read buffer, with limit, growth and errors |
| HostContext.HostCX.ReadBytes | hostcx.cpp:398-517 | the guards of a read, finishing the previous one, and the receive call |
| HostContext.HostCX.WriteWaitingForPeercom | hostcx.cpp:184-207 | a wait ends once the peer is up, and is an error without a peer |
| HostContext.HostCX.WriteBytes | hostcx.cpp:538-661 | unless the write waits, offers the whole write buffer and flushes exactly what the kernel took |
| HostContext.HostCX.TakeFrom | hostcx.cpp:707-736 | appends a buffer, or swaps the blocks once enough was written and nothing waits |
| HostContext.ReadAddsWhatItReceived | hostcx.cpp:398-517 | a read appends exactly the received bytes and finds exactly them to process; any other outcome leaves the buffers alone |
| HostContext.ReadGivesBytesIff | hostcx.cpp:398-517 | a read of a settled context, with a peer or without, gives bytes if and only if it does not wait, no more than the limit is pending at the peer, its own limit is not zero, and the kernel has bytes for which there is room; their number is the least of offer, room and limit; zero means it went ahead and found the end or no room |
| HostContext.ReadCountsAndGrowsIff | hostcx.cpp:340-517 | what a read counts; the block doubles if and only if the bytes filled it, no limit stopped them and the maximum allows it; a wait ends only with the peer up |
| HostContext.ForwardMovesEverything | hostcx.cpp:680-736 | forwarding and finishing move the whole read buffer behind the pending bytes, in both lanes |
| HostContext.WriteSendsAPrefix | hostcx.cpp:538-661 | sent bytes followed by the write buffer are the same before and after any write |
| HostContext.WriteIsExact | hostcx.cpp:538-661 | a write returns exactly what the kernel took, nothing while it waits and -1 on failure; it disconnects if and only if it was to close after the write and emptied the buffer; a wait without a peer is an error |
| HostContext.ProcessedBeforeSent | hostcx.cpp:538-661 | the processing counter never falls behind the sent bytes, and a send call puts it behind all that waits |
| HostContext.FanOutNeedsTheSlowLane | hostcx.cpp:707-736 | a second destination gets the same bytes if and only if the first one did not take the buffer over |
| HostContext.HandedOverIff | hostcx.cpp:707-736 | a buffer is handed over instead of copied if and only if nothing waits in front of it and enough was sent before |
| HostContext.ForwardingKeepsBlocks | hostcx.cpp:707-736 | blocks never shrink by forwarding: the giver of a block gets the greater of the two capacities, and a copy grows the block no more than it must |
| HostContext.FinishLeavesTheRest | hostcx.cpp:680-701 | finishing leaves what follows the processed part, or nothing when the counters disagree |
| HostContext.ReadStaysBounded | hostcx.cpp:340-357 | reading grows no buffer beyond the bound |
| HostContext.ForwardStaysBounded | hostcx.cpp:707-736 | nor does forwarding into an empty write buffer |
| LrProxy.Forward | lrproxy.cpp:30-64 | the read buffer of one side goes to the other side and is finished |
| LrProxy.HandleCxRead | baseproxy.cpp:356-406 | reads, forwards what came, and shuts the context down at the end of the stream |
| LrProxy.HandleCxReadOnce | baseproxy.cpp:460-526 | a side is read only if the other side is not flagged and nothing waits, when it is in the read set or the read is forced; the read may force a write |
| LrProxy.HandleCxWrite | baseproxy.cpp:408-458 | writes, and shuts the context down on failure |
| LrProxy.HandleCxWriteOnce | baseproxy.cpp:604-685 | unless the write waits, writes when it is due, forced or there is something to write, with the read it may force; sets or clears the flag and the pause of the other side |
| LrProxy.SimpleLRProxy.HandleSocketsOnce | baseproxy.cpp:726-773 | both reads, then both writes |
| LrProxy.NoByteIsLostOnTheWay | hostcx.cpp:398-750 | at each point inside a read call, received bytes are sent bytes, write buffer and read buffer of the direction |
| LrProxy.StreamsAreIntact | baseproxy.cpp:356-773 | over every run of calls and pauses in any order, with any kernel results and forced reads and writes, each side has sent a prefix of what the other received, and its write buffer holds the rest |
| LrProxy.ReadOnceRespectsFlag | baseproxy.cpp:468-479 | a flagged side gets nothing and its source is not read; an unflagged one stays within the bound |
| LrProxy.HandledReadIsExact | baseproxy.cpp:356-406 | the destination grows if and only if the read is due, may go ahead and there are bytes; the source is shut down if and only if it went ahead and found the end or no room |
| LrProxy.ReadCallIsExact | baseproxy.cpp:460-526 | for every read call that forces no write: when the destination grows and by what, when the side is shut down and when it reports an error |
| LrProxy.HandledWriteIsExact | baseproxy.cpp:408-458 | a write that does not wait sends what the kernel takes and fails exactly with the kernel |
| LrProxy.WriteCallIsExact | baseproxy.cpp:604-685 | for every write call that forces no read: how many bytes go, when the side is shut down, that the other side is paused and the flag raised exactly when bytes are left, and the pause and the flag taken back exactly when a flagged buffer was emptied |
| LrProxy.WriteCallErrorsIff | baseproxy.cpp:604-685 | such a call reports an error if and only if there was one, the side was closed, or it waits for a peer it does not have |
| LrProxy.ForcedReadIsExact | baseproxy.cpp:604-685 | for every write call that comes to a forced read: the bytes go as in any other, the read brings to the other side what a read call would, flagged or not, and flag and pause follow from what the write left, or stay when the read ends the stream |
| LrProxy.PauseSetsOneSide | baseproxy.cpp:534-562 | a pause by hand sets the waits of one side and nothing else |
| LrProxy.PausesFollowFlags | baseproxy.cpp:540-685 | over every run of calls in which nobody pauses a side by hand, whatever fails or is forced, a side is paused only while the other one is flagged |
| LrProxy.ReleasedSideIsReadAgain | baseproxy.cpp:460-685 | after a write call that leaves bytes the other side is paused and brings nothing; after one that empties the buffer it is not, and its next read call brings bytes if and only if its kernel has some and nothing else holds it back |
| LrProxy.FlagIsExactIff | baseproxy.cpp:604-685 | after a write call that forces no read, the flag says whether bytes are left if and only if it was up before, or there was nothing to send, or the side was connected, did not wait and its kernel call did not fail |
| LrProxy.PassIsExactIff | baseproxy.cpp:726-773 | a pass keeps streams and memory bounds whatever fails in it, and ends with exact flags if and only if both of its write calls did what they should; a pass without errors in which nothing waits is one |
| LrProxy.FlagsAreExactIff | baseproxy.cpp:604-773 | over every run of passes, the flags are exact after each pass if and only if each write call did what it should |
| LrProxy.BackpressureHolds | baseproxy.cpp:604-773 | over every such run, whatever else goes wrong, a side is flagged exactly when its write buffer is not empty, and no buffer exceeds buffsize times buffsize_maxmul |
| LrProxy.FailedWriteLosesTheBrake | baseproxy.cpp:623-633 | after a failed write the flag is down with bytes left, and the other side goes on filling that buffer |
| LrProxy.ForcedWriteLeavesTheBrakeOnIff | baseproxy.cpp:499-511 | a read call empties the write buffer of a side, whose flag it never touches, if and only if the write it forces takes everything |
| LrProxy.StuckBrakeStaysOn | baseproxy.cpp:604-773 | a side that is flagged over an empty buffer stays so: over every run of calls in which no write forces a read, it sends nothing and nothing is read for it |
| LrProxy.ForcedReadIgnoresTheFlagIff | baseproxy.cpp:637-645 | a write call puts bytes into the other side's buffer, flagged or not, if and only if it forces a read that gives some, and leaves that side's flag as it is |
| TcpSegments.TcpDetails.AppendHeader | traflog/pcapapi.cpp:434-504 | sequence, acknowledgement and flags of one frame, and the counters after it |
| TcpSegments.TcpDetails.AppendTcp | traflog/pcapapi.cpp:813-865 | the cutting loop, which terminates for any data and limit, emits the specified frames |
| TcpSegments.SegmentationIsFaithful | traflog/pcapapi.cpp:813-865 | payloads concatenate to the data, none exceeds a positive limit, empty data makes one frame, and each frame counts the payload before it modulo 2^32 |
| TcpSegments.CutIsFaithful | traflog/pcapapi.cpp:820-862 | from any state of the loop and for any flags, the payloads concatenate to the data and all frames but the last are of full size |
| TcpSegments.CutCounts | traflog/pcapapi.cpp:466-484 | each frame counts the payload before it modulo 2^32, its direction moves by all the data, and the other one stays |
| TcpSegments.FramesAreFull | traflog/pcapapi.cpp:820-862 | for any flags and data, with a positive limit every frame but the last carries exactly that much, piece by piece, in the least number of frames; without a limit there is one frame |
| TcpSegments.FrameFields | traflog/pcapapi.cpp:434-504 | every frame has the flags asked for, acknowledges the other direction, counts identifications, and has an ACK bit exactly when asked for, on data, or on the first FIN frame with something new; and what the counters remember |
| TcpSegments.NothingIsDropped | traflog/pcapapi.cpp:462-489 | a receiver that accepts only the next expected number drops no frame of a conversation that follows |
| TcpSegments.FrameIsAPiece | traflog/pcapapi.cpp:434-504 | a frame continues its direction, acknowledges the other one up to date, and SYN and FIN take one number |
| TcpSegments.CutIsAPiece | traflog/pcapapi.cpp:813-865 | so do all frames cut from some data |
| Packets.CreateIpHeader | traflog/pcapapi.cpp:281-371 | the IPv4 header with its checksum, or the IPv6 header |
| Packets.CreateTcpHeader | traflog/pcapapi.cpp:490-502 | the TCP header with the checksum over the pseudo header |
| Packets.BuildPacket | traflog/pcapapi.cpp:151-170 | cooked-capture header, IP header, TCP header and payload in one packet |
| Packets.PacketIsDissected | traflog/pcapapi.cpp:151-504 | direction, numbers, flags and payload of every frame are read back from the octets, for both IP versions |
| Packets.EndpointsAreRead | traflog/pcapapi.cpp:281-371 | addresses and ports of every frame belong to its sender and receiver, in either direction |
| Packets.LengthFieldIff | traflog/pcapapi.cpp:281-371 | the 16-bit length field is right if and only if the payload fits into it |
| Packets.CapturedChecksumsVerify | traflog/pcapapi.hpp:250-287 | with checksums enabled the IPv4 header and the TCP segment with its pseudo header sum to zero, for every segment the 32-bit sum can hold |
| Packets.PacketSumsRight | traflog/pcapapi.hpp:250-287 | from the octets of the packet alone: the words of the IPv4 header, and the words of both addresses, protocol, length and segment, add up to a non-zero multiple of 65535 |
| Packets.HeaderFields | traflog/pcapapi.cpp:151-504 | the remaining fields at their offsets: cooked-capture header, version, identification, time to live, protocol, window; checksums of zero when they are off |
| PcapNg.PaddingAligns | traflog/pcapapi.cpp:633-638 | padding fills up to a multiple of four with fewer than four octets |
| PcapNg.AppendOptions | traflog/pcapapi.cpp:948-981 | options and their one end marker as they are written |
| PcapNg.AppendBlock | traflog/pcapapi.cpp:664-778 | each kind of block, octet by octet |
| PcapNg.DeclaredAgainstEmitted | traflog/pcapapi.cpp:718-778 | declared and written lengths are multiples of four, and differ by four for every non-empty comment behind the first |
| PcapNg.HonestIff | traflog/pcapapi.cpp:939-981 | a block declares its true length if and only if it has at most one non-empty comment |
| PcapNg.WalkerVisitsEveryBlockIff | traflog/pcapapi.cpp:647-778 | over every sequence of blocks, a reader that skips by total length visits exactly the blocks written if and only if each declares its true length |
| PcapNg.CapturedIsRead | traflog/pcapapi.cpp:734-778 | and finds each packet's octets |
| PcapNg.PacketPartsAreRead | traflog/pcapapi.cpp:734-778 | and its time and its options |
| PcapNg.FileHeadIsRead | traflog/pcapapi.cpp:664-716 | the section and interface blocks say what a reader needs: byte order, version, unknown section length, link type and snapshot length |
| PcapNg.CommentsAreReadIff | traflog/pcapapi.cpp:939-981 | a reader of the options gets the comments of a block back, but for empty ones, if and only if the length of each fits into 16 bits |
| PcapNg.BlockIsFoundIff | traflog/pcapapi.cpp:939-981 | whatever follows it, a block is found as it was written if and only if it has at most one non-empty comment |
| PcapLog.Log.WritePcapHeader | traflog/pcaplog.cpp:278-303 | section and interface block, once |
| PcapLog.Log.WriteTcpStart | traflog/pcaplog.cpp:305-339 | SYN, SYN and ACK, ACK |
| PcapLog.Log.CommentFrame | traflog/pcaplog.cpp:267-275 | a pending comment goes with the next frames and is forgotten |
| PcapLog.Log.Write | traflog/pcaplog.cpp:393-446 | header and handshake when they are due, then the data |
| PcapLog.Log.WriteComment | traflog/pcaplog.cpp:447-449 | comments collect until the next frames |
| PcapLog.Log.Close | traflog/pcaplog.cpp:125-152 | two closing frames from one block if the session was opened |
| PcapLog.SessionIsKept | traflog/pcaplog.cpp:305-449 | over every session the blocks hold exactly the frames of a conversation that carried the bytes written |
| PcapLog.ConversationShape | traflog/pcaplog.cpp:125-446 | a session with data opens with the handshake and closes with one FIN of each side; only the first frame has no ACK; without data there are no frames |
| PcapLog.FilesAreWellFramed | traflog/pcaplog.cpp:278-303 | every file is empty or opens with one section header and the one interface all its packets refer to |
| PcapLog.CaptureIsReadBack | traflog/pcaplog.cpp:125-449 | walking the file, dissecting the packets and reassembling each direction by sequence numbers gives exactly the bytes written for it, and every frame acknowledges all the other direction has sent |
| CaptureJournal.CutLines | traflog/pcapapi.cpp:813-865 | the frames of some data, as a reader sees them, are the pieces of the limit in their order |
| CaptureJournal.LinesAreReadIff | traflog/pcapapi.cpp:664-981 | the lines of all packet blocks are read as they were written if and only if every comment is short enough |
| CaptureJournal.SessionTells | traflog/pcaplog.cpp:305-449 | over every session the blocks hold the journal: the handshake at the first write, then each write cut to the limit, with its time and the comments since the one before |
| CaptureJournal.SessionIsToldIff | traflog/pcaplog.cpp:125-449 | reading the file of a closed session back gives exactly that journal and the two FIN frames with the last comment, if and only if no frame has more than 65535 octets of comments |

## Left out

- Sockets, epoll calls, files, clocks and threads: results and times are parameters, a lock is the atomicity of a step.
- FdQueue.Queue: each method is one step, so a thread's local variables are kept in the object between its steps; closing all pipes is not a step; a registration between two looks of a push that walks the map is one, without the data race it is in the source.
- Memory pool: buffers get exactly the block they ask for, as with the pool switched off; the memory bound holds for that case.
- Buffer copies that do not own their memory, attaching and detaching blocks.
- LrProxy: one left and one right context; permanent and bound contexts and the poll registrations that follow from the flags are not modelled. The results on flags and memory over passes are for passes without forced reads and writes; what a forced write does to a flag, and a forced read to a flagged buffer, is stated for single calls.
- HostContext: the processing hooks are the default ones, which take the whole buffer, and processed input is flushed automatically.
- ContextLists: a context is its identity, and the flag it carries is kept in a map; socket registration and the accept calls themselves are left out.
- FlowCapture: detection mode from the start with the switch to continuous capture off; what the read hook captures is an input; signature matching is left out.
- PtrCache: LRU operations that read the block of a first key that is not cached, which the source does not guard against, and a change of mode during use.
- DatagramPool: reading from the session's own socket, and read sizes of 2^31 and more.
- Ltv: entries are values, so sharing of memory with the receive buffer is not captured; the header octets in an entry's memory are taken to agree with its fields, though the public setters of id, type and length do not rewrite them; a container with fewer than four octets to pack, whose length the source writes behind the end of the buffer, trees of 2^31 octets and more, packing the same entry a second time with the length the first one left in it, and packing a value without a target buffer, which doubles its octets, are left out.
- Base64.Decode: the search for odd characters in the source runs over a table without a terminator, so what it accepts depends on the memory behind it; the model searches the 64 symbols. Wide strings and the variants without safety checks are left out.
- Crc32: none of its callers are modelled.
- PcapLog: one log with its own file; rotation, re-creation, the shared single log, packet hooks, UDP, tunnels, and the counter of written bytes are left out. All frames of one call carry the same time; its two halves are inputs, seconds and microseconds in the source. A frame and its comment together are at most 2^32 - 256 octets, so that the block's length field can hold them.
- Packets: addresses, ports and TTL are inputs; tunnel headers are left out.
- The address cache, HTTP download, TLS, logging, string helpers and meters would add only input and output or easy members.
