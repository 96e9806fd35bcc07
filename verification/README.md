# Verified models of the message rings, the event core and the logging library

This project models the parts of the repository whose correctness is hard to see by reading, and
proves that they do what they are for. Dafny checks it with `dafny verify dfyconfig.toml`.

- **Wake-up protocol** (`Wakeup`, `WakeupFair`, `WakeupAlone`): sender threads and the libev loop share flags, hints and a
  pipe. Every shared access is a step of its own, and any number of senders interleave freely with the
  loop; `WakeupFair` is about what fair scheduling guarantees while sends never stop, and `WakeupAlone` about
  a send, and a loop, that nothing interferes with.
- **Message rings**: two single-producer single-consumer rings of variable-length messages.
  `RingCore` is the theory they share: records laid end to end over unbounded addresses, and the words
  of a buffer those addresses live in. `QuickRing`, `QuickRingProtocol`, `QuickRingBulk`,
  `QuickRingAlone` and `QuickMsgRing` are the ring with modular indices, filler word and `emptyFlag`; `CmmRing`,
  `CmmRingProtocol`, `CmmRingAlone` and `CmmQuickMsgRing` the one with 32-bit counters, mask and dummy frames. Each protocol file lets a
  producer and a consumer interleave at every access to a shared field and proves that the ring is a
  FIFO queue; each class is the code itself, tied to the protocol's steps.
- **Timers and the pending queue**: `HeapSpec` and `TimerHeap` are the 4-ary heap with indices stored in the
  watchers, `PeriodicRecalc` the next occurrence of a periodic, `PendingSpec` and `PendingQueue` the
  per-priority stacks of pending watchers, `Timers` the operations that start, stop and fire timers,
  `TimerOrder` the order in which fired timers run, `DueEvents` what is pending when they have fired,
  `Schedules` what callbacks do to the times of timers, `LoopTurn` a turn of the loop with such callbacks, and
  `TimerRuns` a timer over many turns. `EventBits` is about the bits of events.
- **fd interest** (`FdPoll`): watcher lists per fd, the batch of changed fds and the poll backend's arrays.
- **zlog buffer**: `BufSpec` says what a size-limited buffer holds, `ZlogBuf` is the code that fills it, and
  `FormatMsg` builds a message from the parts of a format with it.
- **zlog hash table**: `HashChains` is the shape of the table, `HashTable` its operations.
- **zlog lists and rotation**: `ArrayList`, `RotateSpec`, `Rotater`, on a modelled directory.
- **zlog rules and categories**: `Rules`, `Categories`, `CategoryTable`.

Five things the proofs bring out:

- `QuickMsgRingBeginRecvMsgBulk` reads nothing but what is published, whatever the producer does meanwhile, if
  and only if `emptyFlag` is 1 when it begins or no more is asked for than is queued then
  (`QuickRingBulk.BulkIsSafeIff`; `QuickMsgRing.BulkReceiveRunsOn` is a run in which it goes on past `in`).
  The receive of a single message is always correct.
- The table functions of `category_table.c` make a transaction of an update and a rollback
  (`CategoryTable.Transaction`), but `zlog_reload` clears its flag `c_up` when the update fails, so it never
  rolls back: after a failed update, which one denied allocation brings about, the categories are not
  what they were (`CategoryTable.Reload`, `CategoryTable.FailedReload`). The comment at `third_part/zlog/src/zlog.c:279` says otherwise.
- Rolling rotation never overwrites an archive of its own making, whatever operations fail, but it can
  when archives were removed by hand: `RotateSpec.RollingOverwritesIff` says exactly when, for any
  archives and any limit.
- A message that is longer than the message buffer may grow is not output cut, with its mark, but not at
  all: the buffer holds the cut text, but the overflow is reported as a failure (`FormatMsg.GenMsg`), on
  which the callers in `third_part/zlog/src/rule.c:83-86` give up. The comment at
  `third_part/zlog/src/format.c:145-147` says that a full buffer is a success.
- `zlog_buf_append` alone among the writers does not look whether a failed realloc has freed the buffer. It
  revives it, and at the size limit it then writes as many bytes as there is room for, whether the
  string has them or not (`ZlogBuf.Buf.Append`, `ZlogBuf.RevivedWithRubbish`). The size does not become -1, as
  the comment at `third_part/zlog/src/buf.c:155-159` says.

Conventions. A pointer into a buffer is an offset. 32-bit counters wrap explicitly (`CmmRing.Wrap`).
`ev_tstamp` is a real number. Callbacks are parameters: what a pack callback writes, what an event callback feeds
and clears, what `reschedule_cb` answers. What the operating system or the allocator may answer is a
parameter too: outcomes of file operations, which allocations for a category, a buffer or a hash table
fail, the rendering
`vsnprintf` produces, the order in which `glob` lists files. Accesses to shared memory are sequentially
consistent. `hide` statements only keep proofs small.

## Model

| member | source | states |
|---|---|---|
| `Wakeup.StepKeepsInv` | third_part/libev/ev.c:2426-2539 | every step of a sender or of the loop keeps the invariant: a set mark is covered by its channel's flag or by someone still going to set it, and a set flag by a byte in the pipe, the skipped hint, or a thread still going to look |
| `Wakeup.NoLostWakeup` | third_part/libev/ev.c:3603-3664 | in no state that any interleaving reaches is the loop blocked in poll on an empty pipe, with no send under way, while a flag or a mark is still set |
| `Wakeup.EverySendIsFed` | third_part/libev/ev.c:2476-2539 | once the senders have returned, every marked watcher is fed within a bounded number of steps of the loop, whatever the loop's other choices, and the loop is never stuck on the way |
| `Wakeup.OwedUntilFed` | third_part/libev/ev.c:2426-2472 | over any run a mark once made stays owed until the watcher is fed |
| `Wakeup.EverySendIsDelivered` | third_part/libev/ev.c:4902-4907 | take any run, let a sender mark a watcher, go on with any interleaving until all sends have returned: the loop then feeds that watcher within a number of steps fixed by the number of watchers |
| `Wakeup.FedOnlyIfSent` | third_part/libev/ev.c:2513-2539 | over any run from the start, a watcher is fed at most as often as senders have marked it |
| `Wakeup.FedInStretch` | third_part/libev/ev.c:2513-2539 | and within any stretch of a run, at most as often as it was marked in it, and once more if its mark was set or just taken before |
| `WakeupAlone.SendAlone` | third_part/libev/ev.c:2426-2472 | a whole send by itself: the watcher is marked; if its channel's flag was set nothing else changes, and else the flag is raised and either one byte is written and the hint cleared, for a loop that wants it, or the hint is left |
| `WakeupAlone.TurnAlone` | third_part/libev/ev.c:2476-2539 | a whole turn of the loop by itself: it blocks if nothing is to be read and nothing was skipped; otherwise it reads at most four bytes, or the eventfd, exactly if there is something to read, clears the hint and both flags, and feeds the marked watchers of the flagged channels, each once and from the last to the first, and no others |
| `WakeupAlone.ComesToRest` | third_part/libev/ev.c:3603-3664 | when all sends have returned the loop feeds exactly what is marked, each once, and comes to rest: blocked, with no mark, flag or hint left and the pipe empty |
| `WakeupAlone.EveryRunComesToRest` | third_part/libev/ev.c:3603-3664 | the same from wherever any run has left the loop |
| `WakeupFair.SomeoneHelps` | third_part/libev/ev.c:2426-2472 | while a mark is owed there is always a thread with something to do whose next step brings the mark nearer to being fed |
| `WakeupFair.StepMoves` | third_part/libev/ev.c:2426-2539 | as long as polls report the pipe as it is, no step of any thread takes an owed mark farther from being fed, and a step of a helping thread brings it nearer or feeds it |
| `WakeupFair.EverySendIsDeliveredFairly` | third_part/libev/ev.c:4902-4907 | the same while other senders keep starting sends for ever: a number of fair rounds fixed by the number of watchers feeds the watcher, where a round is fair if polls report the pipe as it is and every thread steps in it or has at some point nothing to do |
| `WakeupFair.RoundExists` | third_part/libev/ev.c:3603-3664 | in every state such a round can be run |
| `RingCore.AppendRecord` | common/src/quickMsgRing.c:222-246 | writing a record behind the unread ones, with fewer words in use than the buffer has, leaves every unread record as it was and adds the new one |
| `RingCore.RewriteWord` | common/src/quickMsgRing.c:136-148 | filling a reserved record word by word changes that word of that record and no other record |
| `RingCore.ReadFrame` | common/src/quickMsgRing.c:281-297 | a record held at an address is read back: its filler, where its frame starts and its words |
| `QuickRing.UnusedMeans` | common/src/quickMsgRing.c:206-212 | the free space the producer computes from its possibly stale `out` is the size less the words in use, and with equal indices `emptyFlag` decides between empty and full |
| `QuickRing.PlaceFits` | common/src/quickMsgRing.c:214-246 | whatever the reservation test grants fits in front of `out` with a word to spare, with its filler up to the end of the buffer, and the new index is where the record ends |
| `QuickRing.PlaceIff` | common/src/quickMsgRing.c:206-247 | and the converse, for any distance between the indices: a message goes behind `in` exactly where there is room there, to the front exactly where there is room only there, and is refused exactly where there is none |
| `QuickRing.FittingIsGranted` | common/src/quickMsgRing.c:206-247 | any record of the message's words that the layout has room for, with a word to spare, is granted |
| `QuickRing.AcceptsWhen` | common/src/quickMsgRing.c:206-239 | an empty ring accepts w words at an offset exactly when they fit behind it or in front of it |
| `QuickRing.AcceptsEverywhere` | common/src/quickMsgRing.c:206-239 | every offset accepts w words if and only if 2w + 3 <= size; otherwise offset w + 2, which a message of w + 1 words leaves behind, refuses |
| `QuickRingProtocol.StepKeepsInv` | common/src/quickMsgRing.c:193-301 | every step of producer or consumer keeps the layout: from `out` to `in` the published records end to end, then the reserved ones, then at least one free word |
| `QuickRingProtocol.StepRefines` | common/src/quickMsgRing.c:51-87 | publishing appends the draft to the queue, completing a receive removes exactly the message in hand, and no other step, a failed pack or unpack included, changes the queue |
| `QuickRingProtocol.EqualIffEmpty` | common/src/quickMsgRing.c:281-284 | the words at `in` and `out` are the same exactly when nothing is queued |
| `QuickRingProtocol.HeldIsFront` | common/src/quickMsgRing.c:162-175 | the message in the receiver's hand is the oldest one in the queue |
| `QuickRingProtocol.EveryRunIsFifo` | common/src/quickMsgRing.c:136-175 | over any interleaving from an empty ring: sent = received + queued, in order; `in == out` exactly when empty; `emptyFlag` read as other than 1 at the start of a receive means something is queued |
| `QuickRingProtocol.FillerIsNotALength` | common/src/quickMsgRing.c:286-290 | in every reachable state the word at the front equals the size exactly when it is a filler; a length never is |
| `QuickRingAlone.SendAlone` | common/src/quickMsgRing.c:193-255 | in any state of the ring, a send that the producer makes while the consumer rests where it is puts a message of the words asked for behind the queue if there is room, by the words used and the offset, and otherwise changes nothing |
| `QuickRingAlone.ReceiveAlone` | common/src/quickMsgRing.c:77-87 | a receive on a ring that holds messages takes exactly the oldest, and stores `emptyFlag` as 1 exactly if it was the last |
| `QuickRingAlone.ReceiveNothing` | common/src/quickMsgRing.c:281-284 | on an empty ring it returns with nothing changed |
| `QuickRingBulk.ActKeepsInv` | common/src/quickMsgRing.c:270-301 | every step of the producer, of a single or of a bulk receive keeps the layout and what the bulk receive has in hand: pointers to the oldest messages, and its index behind them |
| `QuickRingBulk.CommitKeepsSound` | common/src/quickMsgRing.c:77-87 | completing a bulk receive removes exactly the messages in hand, which are the oldest in the queue |
| `QuickRingBulk.EveryBulkRunIsFifo` | common/src/quickMsgRing.c:270-301 | over any interleaving with single and bulk receives, each begun with `emptyFlag` 1 or asking for no more than is queued: sent = received + queued, in order, and what is in hand is a prefix of the queue |
| `QuickRingBulk.BulkIsSafeIff` | common/src/quickMsgRing.c:276-284 | a bulk receive reads only what is published, under every interleaving with the producer, if and only if at its beginning `emptyFlag` is 1 or no more is asked for than is queued |
| `QuickRingAlone.BulkAlone` | common/src/quickMsgRing.c:270-301 | a bulk receive that begins with `emptyFlag` 1, or asks for no more than is queued, takes as many of the oldest messages as it asks for, or all there are |
| `QuickRingAlone.Lifted` | common/src/quickMsgRing.c:270-301 | without a bulk receive the runs are those of the ring with single receives |
| `QuickMsgRing.LoopIsSteps` | common/src/quickMsgRing.c:270-301 | the undisturbed receive loop is a run of those steps |
| `QuickMsgRing.RecvAllMeans` | common/src/quickMsgRing.c:270-301 | with `emptyFlag` 1, or asked for no more than is queued, the bulk receive returns the oldest messages in order and stops behind them |
| `QuickMsgRing.RecvAllStopsAtIn` | common/src/quickMsgRing.c:281-284 | the bulk receive returns min(max, queued) messages if and only if `emptyFlag` was 1 or max <= queued |
| `QuickMsgRing.BulkReceiveRunsOn` | common/src/quickMsgRing.c:270-301 | a ring that two sends and a receive lead to, with one message queued, whose bulk receive of two returns two |
| `QuickMsgRing.EmptyRingAccepts` | common/src/quickMsgRing.c:206-239 | a quiescent empty ring accepts a message of given bytes exactly when it fits behind or in front of the offset it rests at |
| `QuickMsgRing.AcceptsIff` | common/src/quickMsgRing.c:206-247 | a ring with any messages queued accepts one of given bytes exactly when the words it needs fit, by the words used and the offset, behind or in front |
| `QuickMsgRing.ReserveGrantedIff` | common/src/quickMsgRing.c:206-247 | the same for a reservation behind drafts already made |
| `QuickMsgRing.Ring.New` | common/src/quickMsgRing.c:349-377 | null exactly for less than eight bytes; otherwise a ring of the given bytes, empty and valid |
| `QuickMsgRing.BulkReserved` | common/src/quickMsgRing.c:193-255 | a bulk reservation drafts a zeroed message of the right length for each one asked for, up to the first for which the words used and the offset leave no room, behind what is queued, and leaves the queue alone |
| `QuickMsgRing.Ring.GetBufBulk` | common/src/quickMsgRing.c:193-255 | the loop makes that reservation, and its pointers are where the drafts are |
| `QuickMsgRing.Ring.SendMsgWithPackFunc` | common/src/quickMsgRing.c:136-148 | the queue grows by exactly the packed message if, by the words used and the offset, there was room and the callback returned 0, and is unchanged otherwise; the result is the callback's, or -1 without room |
| `QuickRing.WordsKeepBytes` | common/src/quickMsgRing.c:51-64 | bytes copied into a zeroed reservation are read back from its words, followed by at most three zeros |
| `QuickMsgRing.Ring.SendMsg` | common/src/quickMsgRing.c:51-64 | succeeds exactly when, by the words used and the offset of `in`, there is room for the bytes behind it or in front, whatever is queued; then the queue has grown by the words they fill |
| `QuickMsgRing.Ring.SendReserved` | common/src/quickMsgRing.c:51-64 | for a pointer already inside the ring: everything reserved, and nothing else, joins the queue |
| `QuickMsgRing.Ring.BeginRecvMsgBulk` | common/src/quickMsgRing.c:270-301 | the loop returns what the recursive receive returns and leaves `nextOut` behind it |
| `QuickMsgRing.Ring.RecvMsgWithUnpackFunc` | common/src/quickMsgRing.c:162-175 | the callback is handed the oldest message if there is one; it leaves the queue exactly when the callback returned 0 |
| `CmmRing.MaskFindsSlot` | common/src/cmmQuickMsgRing.c:66-72 | masking a counter that has wrapped past 2^32 finds the word of the unwrapped count |
| `CmmRing.AndWithPredecessor` | common/src/cmmQuickMsgRing.c:29-32 | for n > 0, n & (n - 1) is 0 exactly when n is a power of two |
| `CmmRing.UnusedMeans` | common/inc/cmmQuickMsgRing.h:51-54 | `size - in + out` in 32 bits is the number of free words, however often the counters have wrapped |
| `CmmRing.PlaceIff` | common/src/cmmQuickMsgRing.c:64-95 | with any number of words in use, a frame goes behind the index exactly where there is room there, to the front, behind a dummy, exactly where there is room only there, and is refused exactly where there is none |
| `CmmRing.AcceptsWhen` | common/src/cmmQuickMsgRing.c:64-95 | an empty ring accepts w words at an index exactly when they fit behind it or in front of it |
| `CmmRing.AcceptsEverywhere` | common/src/cmmQuickMsgRing.c:64-95 | every index accepts w words if and only if 2w <= size (or both are 1); otherwise index size / 2 refuses |
| `CmmRingProtocol.NextRecord` | common/src/cmmQuickMsgRing.c:107-139 | what the get loop finds: a dummy whose 16-bit length is positive and right, if the record has one, and then a frame whose head gives its length |
| `CmmRingProtocol.PutGrantsIff` | common/src/cmmQuickMsgRing.c:64-95 | in every state of the protocol a put grants a frame exactly when some record of its words fits in the free words it sees |
| `CmmRingProtocol.GetKeepsInv` | common/src/cmmQuickMsgRing.c:115-136 | a turn of the get loop changes only the consumer's locals, ends exactly when everything published is taken, and otherwise uses up one of the turns left, so the loop terminates |
| `CmmRingProtocol.StepRefines` | common/src/cmmQuickMsgRing.c:51-178 | completing a put appends the draft, completing a get removes exactly the messages in hand, and a put or get never completed has no effect on the queue |
| `CmmRingProtocol.EveryRunIsFifo` | common/inc/cmmQuickMsgRing.h:46-82 | over any interleaving, however often the counters wrap: sent = received + queued, `in - out` is the number of words in use and at most the size, and a burst in hand is a prefix of the queue |
| `CmmRingAlone.PutAlone` | common/src/cmmQuickMsgRing.c:51-100 | in any state of the ring, a put of one frame, wherever the words in use and the index leave room for it, puts that frame, with the head the caller wrote, behind the queue |
| `CmmRingAlone.GetAlone` | common/src/cmmQuickMsgRing.c:107-139 | a get of any number of messages that are queued takes exactly the oldest |
| `CmmQuickMsgRing.Ring.constructor` | common/src/cmmQuickMsgRing.c:34-49 | a ring of a legal size starts empty and valid |
| `CmmQuickMsgRing.BurstReserved` | common/src/cmmQuickMsgRing.c:51-100 | a burst drafts a frame of the asked length for each message up to the first that does not fit, behind what is queued, and leaves the queue alone |
| `CmmQuickMsgRing.AcceptsIff` | common/src/cmmQuickMsgRing.c:64-95 | a ring with any messages queued accepts a frame exactly when its words fit behind or in front of the index |
| `CmmQuickMsgRing.Ring.PrePutMsgBurst` | common/src/cmmQuickMsgRing.c:51-100 | the loop makes that draft, and its pointers are where the frames are |
| `CmmQuickMsgRing.Ring.PutMsgComplete` | common/inc/cmmQuickMsgRing.h:60-68 | the whole burst, and nothing else, joins the queue |
| `CmmQuickMsgRing.Ring.GetMsgComplete` | common/inc/cmmQuickMsgRing.h:74-82 | exactly the messages in hand leave the queue |
| `CmmQuickMsgRing.Ring.PreGetMsgBurst` | common/src/cmmQuickMsgRing.c:107-139 | returns the oldest min(max, queued) messages and leaves the queue alone |
| `CmmQuickMsgRing.Ring.PutOneMsg` | common/src/cmmQuickMsgRing.c:146-161 | the queue grows by exactly the frame if there was room and the callback returned 0, and is unchanged otherwise, whatever a failing callback leaves behind |
| `CmmQuickMsgRing.Ring.GetOneMsg` | common/src/cmmQuickMsgRing.c:163-178 | the callback is handed the oldest frame if there is one; it leaves the queue exactly when the callback returned 0 |
| `HeapSpec.AdjustIsHeap` | third_part/libev/ev.c:2342-2349 | adjustheap makes a heap of an array that is one except around k, with the same elements |
| `HeapSpec.PushIsHeap` | third_part/libev/ev.c:2320-2339 | upheap of an element put behind a heap gives a heap with one element more and the same elements |
| `HeapSpec.DownOrders` | third_part/libev/ev.c:2240-2281 | downheap restores the order when only the element at k may be too large |
| `HeapSpec.ReheapIsHeap` | third_part/libev/ev.c:2352-2361 | reheap makes a heap of any array, with the same elements |
| `HeapSpec.RootIsLeast` | third_part/libev/ev.c:2246-2281 | the element at HEAP0 is the least |
| `TimerHeap.Upheap` | third_part/libev/ev.c:2320-2339 | the loop in place leaves the array that repeated swapping towards the root leaves, with every watcher's `active` equal to its index |
| `TimerHeap.Downheap` | third_part/libev/ev.c:2240-2281 | the loop in place leaves the array that repeated swapping with the least child leaves, with every watcher's `active` equal to its index |
| `TimerHeap.Adjustheap` | third_part/libev/ev.c:2342-2349 | sifts the changed element the right way, with every watcher's `active` equal to its index |
| `TimerHeap.ReheapAll` | third_part/libev/ev.c:2352-2361 | the loop of upheaps leaves what ReheapIsHeap speaks about, with every watcher's `active` equal to its index |
| `PeriodicRecalc.Recalc` | third_part/libev/ev.c:3359-3381 | the loop terminates with the next occurrence |
| `PeriodicRecalc.OccurrenceIsNext` | third_part/libev/ev.c:3365-3378 | the next occurrence is after now, by at most one interval |
| `PeriodicRecalc.OccurrenceIsLeastIff` | third_part/libev/ev.c:3362-3363 | it is the least offset + k * interval after now if and only if the starting point of the search is on that grid |
| `PeriodicRecalc.OccurrenceIsLeast` | third_part/libev/ev.c:3359-3381 | it is the least offset + k * interval after now for every interval of at least MIN_INTERVAL |
| `PeriodicRecalc.ShortIntervalMissesGrid` | third_part/libev/ev.c:3362 | an interval below MIN_INTERVAL for which it is not |
| `PendingSpec.InvokeAllReplays` | third_part/libev/ev.c:3274-3292 | for any queue that stands for a map from watchers to events, with callbacks that feed and clear as they like: each call is of a watcher pending at the highest priority, with the OR of the events fed to it since, each fed watcher is called once unless cleared, and nothing is left |
| `EventBits.OrHas` | third_part/libev/ev.c:1991-1992 | ORing events loses no bit and adds none |
| `PendingSpec.CarriedMeans` | third_part/libev/ev.c:1985-2002 | after any feeds, clears and calls, a bit is among the events collected for a watcher exactly when a feed of it since it was last called or cleared has that bit, or it was there at the start |
| `PendingSpec.ReplaysCarry` | third_part/libev/ev.c:3274-3292 | so every call carries exactly those bits |
| `PendingQueue.Pendings.CollectedAgrees` | third_part/libev/ev.c:1985-2002 | every valid queue stands for such a map: the watchers with a slot number, each with the events in its slot |
| `PendingQueue.Pendings.FeedEvent` | third_part/libev/ev.c:1985-2002 | the events are ORed to those collected for this watcher, and no other's change; a slot is appended if it had none, and every pending watcher's number still names its own slot |
| `PendingQueue.Pendings.ClearPending` | third_part/libev/ev.c:3775-3800 | returns the events collected for the watcher, which then has none; the slot belongs to the dummy and no other slot moves |
| `PendingQueue.Pendings.InvokePending` | third_part/libev/ev.c:3274-3292 | the loops with the moving `pendingpri` call, whatever the callbacks feed and clear, at each turn a watcher of the highest pending priority with exactly the bits of the events fed to it since it was last called or cleared, and leave nothing pending |
| `Timers.HeapOkMeans` | third_part/libev/ev.c:3102-3115 | the invariant is what verify_heap checks, element by element: order, `active` the index, the cached time the watcher's, the least at HEAP0; an active watcher is at its index |
| `Timers.Loop.TimerStart` | third_part/libev/ev.c:3873-3895 | keeps the heap and adds exactly this timer, due `now` plus its time; nothing changes if it is active |
| `Timers.Loop.PeriodicStart` | third_part/libev/ev.c:3961-3989 | keeps the heap and adds exactly this periodic, due when its callback says, at the least occurrence of its grid after now, or at its offset |
| `Timers.Loop.Stop` | third_part/libev/ev.c:3897-3925 | keeps the heap and removes exactly this timer, whose time becomes what was left of it; its pending event is cleared |
| `Timers.Loop.TimerAgain` | third_part/libev/ev.c:3927-3952 | keeps the heap; a repeating timer is due one period from now and is the only one changed, another one is stopped and keeps the time it had left |
| `Timers.Loop.Reschedule` | third_part/libev/ev.c:3935-3939 | a new time for an active timer keeps the heap and changes only that element |
| `Timers.Loop.FeedReverseDone` | third_part/libev/ev.c:2011-2017 | feeds the collected list from its end and empties it |
| `Timers.Loop.FireDue` | third_part/libev/ev.c:3326-3350 | the loop of both reify functions terminates; it collects exactly the elements due before now, each once and in the order they were due; a repeating timer goes to its old time plus its period, or to now if that is past, a periodic to where its callback says or to the least occurrence after now, the others are stopped, and every other watcher is left alone |
| `Timers.Loop.TimersReify` | third_part/libev/ev.c:3320-3355 | terminates; exactly the timers due before now are fed, each once, collected in the order they were due; each repeating one is due one period after it was due, or now if that is past, the others are stopped, and nothing left is due |
| `Timers.Loop.PeriodicsReify` | third_part/libev/ev.c:3384-3423 | the same for periodics, which go to where their callback says or to the least point of their grid after now |
| `Timers.FedWentOn` | third_part/libev/ev.c:3336-3348 | where those that fired have gone, without the function that sends them there; who was not due has stayed, and each watcher is there once |
| `TimerOrder.PendingIsCalled` | third_part/libev/ev.c:3279-3291 | a pending watcher that no callback clears is called, whatever the callbacks feed and clear of others |
| `TimerOrder.OverRunsFirst` | third_part/libev/ev.c:3279-3291 | of two pending watchers, the one of higher priority, or above on the same stack, is called before the other, whatever the callbacks feed and clear of others |
| `TimerOrder.TimersRunInOrder` | third_part/libev/ev.c:2004-2017 | after a list was fed from its end, a watcher of it that was not pending is called before those of its priority behind it in the list and before those pending earlier, for callbacks that feed what they like and clear any others |
| `TimerOrder.EarlierDueRunsEarlier` | third_part/libev/ev.c:3320-3355 | of two timers of one priority that fired together, neither already pending nor cleared by a callback, the one due earlier is called back first |
| `TimerOrder.PeriodicBeforeTimer` | third_part/libev/ev.c:3672-3674 | absolute timers are called before relative ones of their priority that fired in the same turn |
| `TimerOrder.ReifyAndInvoke` | third_part/libev/ev.c:3670-3690 | the timers' part of a turn of ev_run, with the heap of timers and that of periodics on one pending queue: each leaves the other valid, and timers that had nothing pending and that no callback clears are called in the order in which they were due, periodics before timers |
| `DueEvents.ReifiedsMean` | third_part/libev/ev.c:2004-2017 | when the queue begins to be drained, exactly the watchers that were pending and not stopped by firing and those that fired are pending, with the bits that were collected and EV_TIMER or EV_PERIODIC |
| `Schedules.TimerDeed` | third_part/libev/ev.c:3873-3952 | what starting, stopping and re-arming do to a timer: its time and whether it is active, with every other timer as it was |
| `Schedules.PeriodicDeed` | third_part/libev/ev.c:3961-4013 | the same for periodics |
| `Schedules.StartsMean` | third_part/libev/ev.c:3961-3975 | where a periodic goes that a callback starts: where its own callback says, to the least occurrence after now, or to its offset |
| `LoopTurn.Invoke` | third_part/libev/ev.c:3274-3292 | draining the queue with callbacks that also start, stop and re-arm timers and periodics keeps both heaps in order, and makes the calls that the effects of those deeds on the queue call for |
| `LoopTurn.ClearedIsNotCalled` | third_part/libev/ev.c:3775-3800 | who was cleared by a callback is not called after it unless fed again |
| `LoopTurn.Turn` | third_part/libev/ev.c:3670-3690 | the same turn with such callbacks: every element that was due has gone on or stopped, and then every watcher is where the deeds of the callbacks that ran, one after the other, leave it; both heaps stay in order, the calls are those of what was pending and due, in order and with the right bits, and a watcher that a callback stopped or re-armed is not called any more unless one in between fed it |
| `TimerRuns.CalledOnce` | third_part/libev/ev.c:3274-3292 | a watcher that no callback names is called once if it is pending, and else not at all |
| `TimerRuns.FiresOnTime` | third_part/libev/ev.c:3326-3342 | a timer that is at most a period late fires exactly if it is due, and is then due one period later |
| `TimerRuns.TurnAt` | third_part/libev/ev.c:3670-3690 | a turn of the loop calls a repeating timer that is left alone once if it was due and else not, and its time moves on by a period exactly then |
| `TimerRuns.Turns` | third_part/libev/ev.c:3333-3342 | no drift: over any number of turns, none late by a period, a repeating timer that is left alone is due at its start plus as many periods as it has been called, not before the last turn, and its last call was due |
| `FdPoll.Fds.constructor` | third_part/libev/ev_poll.c:59-86 | no fd polled and none marked, for any inactive watchers |
| `FdPoll.Fds.FdChange` | third_part/libev/ev.c:2125-2137 | the changed fds are listed once each, exactly those whose reify flag is set |
| `FdPoll.Fds.IoStart` | third_part/libev/ev.c:3828-3852 | keeps the invariant, puts the watcher at the front of its fd's list and marks the fd; the other lists stay; reading and writing are asked for afterwards exactly if they were before, and the internal bit is gone |
| `FdPoll.Fds.IoStop` | third_part/libev/ev.c:3854-3871 | keeps the invariant, takes the watcher and no other out of its fd's list and marks the fd |
| `FdPoll.Fds.Unlink` | third_part/libev/ev.c:3759-3772 | the list loses this element and no other |
| `FdPoll.Fds.PollModify` | third_part/libev/ev_poll.c:51-86 | `polls` and `pollidxs` stay inverse; this fd has the new interest or no entry, and no other fd's entry changes, although the last one may move |
| `FdPoll.Fds.CombineMasks` | third_part/libev/ev.c:2107-2109 | the loop computes the combined mask |
| `FdPoll.Fds.FdReify` | third_part/libev/ev.c:2065-2122 | empties the list of changed fds and brings every fd's recorded interest up to the combined mask of its watchers, with the backend in step |
| `FdPoll.ClearedMeans` | third_part/libev/ev.c:3849-3850 | clearing the internal bit changes no other |
| `FdPoll.StartAndReify` | third_part/libev/ev.c:3828-3852 | once a watcher has been started and the changes reified, its fd is polled for all it asked for when it was started |
| `FdPoll.StopAndReify` | third_part/libev/ev.c:3854-3871 | once it has been stopped, only for what the others ask for |
| `FdPoll.CombinedMeans` | third_part/libev/ev.c:2107-2109 | a bit is in the combined mask exactly when some watcher of the list has it |
| `FdPoll.PollsMatchWatchers` | third_part/libev/ev_poll.c:71-86 | with no fd left to reify, an fd is polled exactly when an active watcher of it asks for reading or writing, and for exactly what its active watchers ask for together |
| `BufSpec.PutOnClip` | third_part/zlog/src/buf.c:505-545 | a write onto clipped contents gives the clip of the whole text, also when the end was marked before |
| `BufSpec.WritesClip` | third_part/zlog/src/buf.c:141-152 | any sequence of writes leaves the clip of everything written |
| `BufSpec.ChunkingIsInvisible` | third_part/zlog/src/buf.c:505-545 | how a text was cut into writes does not show in the contents |
| `BufSpec.ClipAt` | third_part/zlog/src/buf.c:141-152 | byte by byte: on overflow the first size_max - 1 bytes stay, the last of them replaced by the truncate string |
| `BufSpec.DigitsStandFor` | third_part/zlog/src/buf.c:280-283 | the digits of a number stand for it, without a leading zero |
| `BufSpec.DigitsFit` | third_part/zlog/src/buf.c:272-272 | a number below base to the k has at most k digits |
| `BufSpec.PaddedStandsFor` | third_part/zlog/src/buf.c:268-331 | a number padded to any width reads back as the number |
| `BufSpec.ZeroPaddedAt` | third_part/zlog/src/buf.c:268-331 | byte by byte: the digits last, and just enough zeroes in front |
| `BufSpec.AdjustedAt` | third_part/zlog/src/buf.c:548-647 | byte by byte: the first bytes of the text, cut to one width, at the edge named, and blanks, or zeroes where the text is on the right, up to the other |
| `ZlogBuf.NumbersFit` | third_part/zlog/src/zc_xplatform.h:13-14 | the digit buffers of 11 and 20 places are large enough |
| `ZlogBuf.Buf.New` | third_part/zlog/src/buf.c:87-138 | an empty buffer, or NULL exactly for a zero minimum, a maximum below it or too long a truncate string |
| `ZlogBuf.Buf.Truncate` | third_part/zlog/src/buf.c:141-152 | puts the truncate string, or as much of it as there is room for, over the end of the contents |
| `ZlogBuf.Buf.Resize` | third_part/zlog/src/buf.c:160-205 | keeps the contents, grows by at least what was asked, or up to the limit and says so; exactly when it must grow and realloc finds no memory the buffer is freed |
| `ZlogBuf.Buf.Append` | third_part/zlog/src/buf.c:505-545 | the contents become the clip of what they were and the string; 1 exactly on overflow, -1 exactly when memory was needed and lacking. On a buffer freed by a failed realloc it writes the string as onto nothing if and only if growing by its length stays within the limit or the string itself is too long for it |
| `ZlogBuf.RevivedWithRubbish` | third_part/zlog/src/buf.c:521-529 | a freed buffer onto which three bytes are appended and that then holds nine |
| `ZlogBuf.Buf.DigitLoop` | third_part/zlog/src/buf.c:280-283 | fills the scratch array backwards with the digits of the number, for base 10 and 16 |
| `ZlogBuf.Buf.PrintfDec32` | third_part/zlog/src/buf.c:268-331 | writes the digits, zero-padded to the width, clipped like any other write |
| `ZlogBuf.Buf.PrintfDec64` | third_part/zlog/src/buf.c:333-422 | the same for 64 bits, with numbers below 2^32 taking the other loop |
| `ZlogBuf.Buf.PrintfHex` | third_part/zlog/src/buf.c:424-502 | the same in hexadecimal |
| `ZlogBuf.Buf.AdjustAppend` | third_part/zlog/src/buf.c:548-647 | writes the string cut to one width and filled up to the other, on either side, clipped like any other write |
| `ZlogBuf.Buf.Vprintf` | third_part/zlog/src/buf.c:207-264 | writes any rendering, on the first or the second try, clipped like any other write; a rendering that fails leaves the contents alone |
| `FormatMsg.WriteBuf` | third_part/zlog/src/spec.c:208-347 | any sequence of calls of the different writers, up to the first that does not return 0, leaves the clip of all their texts; 1 exactly if they do not fit, and -1 only if an allocation or a rendering fails |
| `FormatMsg.TextsJoin` | third_part/zlog/src/spec.c:208-347 | texts and renderings are written as they are, one after the other |
| `FormatMsg.NumbersReadBack` | third_part/zlog/src/spec.c:208-347 | numbers read back, and fill their width |
| `FormatMsg.FieldMeans` | third_part/zlog/src/spec.c:358-375 | byte by byte, what a part with a width contributes: at most max_width bytes of its text, in a field of at least min_width, at the edge it names |
| `FormatMsg.GenSpec` | third_part/zlog/src/spec.c:352-375 | a part with a width contributes what the second buffer held of it, cut and filled; an overflow there is no failure |
| `FormatMsg.MessagesJoin` | third_part/zlog/src/format.c:148-163 | a message is the contributions of its parts, one after the other |
| `FormatMsg.GenMsg` | third_part/zlog/src/format.c:148-163 | 0 means that the buffer holds the contributions of all parts, whole; if no allocation and no rendering fails, it is 0 if and only if they fit, and the buffer holds their clip either way |
| `HashTable.Table.constructor` | third_part/zlog/src/zc_hashtable.c:28-59 | an empty table is valid and stands for the empty map |
| `HashTable.Table.Get` | third_part/zlog/src/zc_hashtable.c:165-177 | the map's value for the key, if it has one |
| `HashTable.Table.GetEntry` | third_part/zlog/src/zc_hashtable.c:151-163 | the entry of the key, and none exactly when the map has no such key |
| `HashTable.Table.Put` | third_part/zlog/src/zc_hashtable.c:179-232 | the map with the key set to the value, through replacement, insertion or rehash, or, exactly when there is no memory for what it needs, the map as it was; every entry in the bucket of its hash, links consistent, one entry a key, `nelem` the size of the map |
| `HashTable.Table.Remove` | third_part/zlog/src/zc_hashtable.c:234-278 | the map without the key, with the same invariant |
| `HashTable.Table.Rehash` | third_part/zlog/src/zc_hashtable.c:114-149 | twice the buckets, the same entries and the same map; without memory nothing changes |
| `HashTable.Table.Clean` | third_part/zlog/src/zc_hashtable.c:91-112 | frees every entry once and leaves the empty map |
| `HashTable.Table.Begin` | third_part/zlog/src/zc_hashtable.c:280-293 | the first entry in the order of visit, or none if the table is empty |
| `HashTable.Table.Next` | third_part/zlog/src/zc_hashtable.c:295-312 | the entry behind this one in the order of visit, or none behind the last |
| `HashTable.Table.ForEach` | third_part/zlog/src/zc_hashtable.h:43-44 | the foreach loop terminates and visits every entry exactly once, `nelem` of them |
| `HashTable.OneEntryAKey` | third_part/zlog/src/zc_hashtable.c:179-232 | a listing of the entries is as long as the map is large |
| `HashChains.FlattenLists` | third_part/zlog/src/zc_hashtable.c:280-312 | the order of visit lists every entry once |
| `HashChains.PushFront` | third_part/zlog/src/zc_hashtable.c:222-227 | linking an entry in front of its bucket keeps all chains linked both ways and adds this entry only |
| `HashChains.LinkedMeans` | third_part/zlog/src/zc_hashtable.c:222-227 | in a linked chain each entry leads to the next and back to the one before, and the ends to NULL |
| `HashTable.Unlink` | third_part/zlog/src/zc_hashtable.c:262-272 | unlinking an entry keeps all chains linked both ways and removes this entry only |
| `ArrayList.SetInBounds` | third_part/zlog/src/zc_arraylist.c:58-90 | the slot written is inside the array exactly when the index is below twice the size |
| `ArrayList.List.Set` | third_part/zlog/src/zc_arraylist.c:77-90 | the list with that slot set, and NULLs in between if it was beyond the end |
| `ArrayList.List.Add` | third_part/zlog/src/zc_arraylist.c:92-95 | the list with one element more |
| `ArrayList.List.InsertInner` | third_part/zlog/src/zc_arraylist.c:98-116 | the element is inserted at its place, or fills it if it was NULL |
| `ArrayList.List.SortAdd` | third_part/zlog/src/zc_arraylist.c:118-132 | adds in front of the first element that compares greater, in its stead if that is NULL, or at the end |
| `ArrayList.SortedInAt` | third_part/zlog/src/zc_arraylist.c:118-132 | slot by slot, with NULLs in the list: what is in front of x stays, what is behind it moves up unless a NULL made way |
| `ArrayList.SortedInSomes` | third_part/zlog/src/zc_arraylist.c:118-132 | on a list without NULLs it inserts there |
| `ArrayList.OneMore` | third_part/zlog/src/zc_arraylist.c:58-75 | adding to a list reallocates exactly when the array is full, to the size that zc_arraylist_expand_inner computes |
| `ArrayList.GrowthsMeans` | third_part/zlog/src/zc_arraylist.c:58-75 | k reallocations are enough for n elements exactly if n is at most the first size doubled k times |
| `Rotater.Rotater.AddArchiveFiles` | third_part/zlog/src/rotater.c:181-230 | whatever the order of the listing, the list is the archives of the directory in order of index, without the log file |
| `RotateSpec.ListIsUnique` | third_part/zlog/src/rotater.c:181-230 | two lists of the same archives in order are the same list |
| `Rotater.Rotater.RollFiles` | third_part/zlog/src/rotater.c:285-345 | for archives at any indices and operations that fail at any point: the loop leaves the directory the specification leaves, and without failures some rename overwrites if and only if two names clash below the limit |
| `RotateSpec.RollAllRolled` | third_part/zlog/src/rotater.c:285-345 | archives at 0, 1, ... with at most one gap become contiguous, the log file first, the oldest beyond the limit gone; whichever operation fails, nothing is overwritten, nothing within the limit is lost and at most one gap is left |
| `RotateSpec.RollingOverwritesIff` | third_part/zlog/src/rotater.c:294-326 | for archives at any indices and any limit: if no operation fails, some rename overwrites an archive if and only if one among those to be renamed, not unlinked, is to be given the name of one in front of it in the list; with failures it is still only then |
| `RotateSpec.OneGapIsSafe` | third_part/zlog/src/rotater.c:294-326 | with at most one index left out, as after a rotation that failed, that never happens |
| `RotateSpec.TwoGapsOverwrite` | third_part/zlog/src/rotater.c:294-326 | archives 2 and 5 alone, without a limit: the rename of 5 overwrites 2 |
| `RotateSpec.TwoGapsLimited` | third_part/zlog/src/rotater.c:301-309 | the same two archives with a limit of two: 5 is unlinked and nothing is overwritten |
| `Rotater.Rotater.SeqFiles` | third_part/zlog/src/rotater.c:232-282 | exactly the oldest archives in excess are removed and the log file gets the index one above the greatest, or 0; if an operation fails, only some of those in excess are gone |
| `RotateSpec.NextIndexIsOneAbove` | third_part/zlog/src/rotater.c:253-263 | that index is one more than the greatest, and 0 when there is none |
| `Rotater.Rotater.Rotate` | third_part/zlog/src/rotater.c:427-466 | over whole runs with any failures: no rename ever overwrites; a success adds the log file to the history, and the archives kept are exactly the latest min(all, max_count) of it, or the latest min(old, max_count) old ones and the new one in a sequence |
| `Rotater.RollingMeans` | third_part/zlog/src/rotater.c:285-345 | after a successful rolling rotation the archives are 0 .. m - 1, and archive k holds the (k+1)-th latest content rotated out |
| `Rotater.SequenceMeans` | third_part/zlog/src/rotater.c:232-282 | in a sequence, the order of the indices is the order of rotation |
| `Rules.SetLevelBitmap` | third_part/zlog/src/rule.c:668-690 | the bitmap has the bit of a level from 0 to 255 set exactly when the rule lets that level through, for every comparison and also for a level that was not found (-1) |
| `Rules.MatchMeans` | third_part/zlog/src/rule.c:1012-1040 | a rule matches every category if it is *, its own category, and, ending in an underscore, the name without it and every name that starts with it |
| `Categories.FitMeans` | third_part/zlog/src/category.c:57-112 | a category uses the rules that match it or, when none does, the last wastebin rule |
| `Categories.MatchingAt` | third_part/zlog/src/category.c:76-93 | the rules that match are there once each, in the order of the list |
| `Categories.OverlappedMeans` | third_part/zlog/src/category.c:49-55 | a level is in the overlapped bitmap exactly when some of the rules lets it through |
| `Categories.NeededMeans` | third_part/zlog/src/category.h:34-35 | the bitmap built from a rule list says a level is needed exactly when a fitted rule would output at it |
| `Categories.BitmapIsCache` | third_part/zlog/src/category.h:34-35 | in a category made or committed from rules it is such a cache |
| `Categories.Category.ObtainRules` | third_part/zlog/src/category.c:57-112 | works exactly when the allocations that work cover the list, its array and one reallocation whenever the array is full, and then the fitted rules and bitmap are those of a category made afresh; otherwise there are no fitted rules |
| `Categories.Category.New` | third_part/zlog/src/category.c:114-143 | a category as made afresh, or NULL exactly for too long a name or a failed allocation, its own or one of those for its rules |
| `Categories.Category.NeedlessLevel` | third_part/zlog/src/category.h:34-35 | where the bitmap is a cache of the fitted rules, true exactly when no fitted rule lets the level through |
| `Categories.LettingMeans` | third_part/zlog/src/rule.c:967-997 | the rules that output at a level are those that let it through, and there are some exactly when one does |
| `Categories.LettingAt` | third_part/zlog/src/category.c:221-233 | each once, in the order of the list |
| `Categories.Category.Output` | third_part/zlog/src/category.c:221-233 | outputs through exactly the fitted rules that let the level through, in their order |
| `Categories.Category.UpdateRules` | third_part/zlog/src/category.c:148-170 | works exactly when there is memory enough; the old rules and bitmap become the backup either way |
| `Categories.Category.CommitRules` | third_part/zlog/src/category.c:174-187 | drops the backup and changes nothing else |
| `Categories.Category.RollbackRules` | third_part/zlog/src/category.c:192-217 | restores the backup, if there is one, whether the update had worked or not |
| `CategoryTable.UpdateRules` | third_part/zlog/src/category_table.c:57-71 | works exactly when there is memory enough for every category; the categories before the first failure are updated, the failing one has no rules but its backup, those behind it are untouched |
| `CategoryTable.CommitRules` | third_part/zlog/src/category_table.c:73-84 | commits every category |
| `CategoryTable.RollbackRules` | third_part/zlog/src/category_table.c:86-97 | rolls every category back |
| `CategoryTable.RollbackRestores` | third_part/zlog/src/category_table.c:86-97 | however far an update came, rolling a category back gives exactly what it held |
| `CategoryTable.CommitIsFresh` | third_part/zlog/src/category_table.c:73-84 | committing an update gives exactly a category made afresh from the new rules |
| `CategoryTable.Transaction` | third_part/zlog/src/category_table.c:57-97 | update, then commit or rollback: all categories as made afresh from the new rules, or all exactly as before, and no backups left either way |
| `CategoryTable.Reload` | third_part/zlog/src/zlog.c:248-289 | zlog_reload as written: it works exactly when the new configuration can be read and there is memory enough; a success makes every category afresh; a failure leaves the categories as they were if and only if the new configuration could not be read at all |
| `CategoryTable.FailedReload` | third_part/zlog/src/zlog.c:263-283 | one denied allocation makes it fail, and the category is not what it was |

## Left out

- Wakeup.NoLostWakeup: weak memory; the fences in the source are taken to make accesses sequentially consistent. Signal handling through signalfd, more than one loop, and watchers started or stopped while a send is under way are not modelled.
- QuickMsgRing.Ring.New: a failed allocation and the function table that `init_quickMsgRing` fills are not modelled.
- QuickMsgRing.Ring.SendReserved: the state is one that a reservation leaves behind; the drafts may have been filled in between.
- CmmQuickMsgRing.Ring.PutOneMsg: a callback that returns 0 is required to keep the head's word count and to set a type other than the dummy's, which the source needs of it and does not check.
- LoopTurn.Turn: a callback that runs the loop again, one that changes a watcher's fields, and a watcher's priority changing are not modelled.
- TimerOrder.ReifyAndInvoke: idle and check watchers, which the turn queues in between, are not modelled.
- Timers.Loop.TimersReify: rounding of floating-point times is not modelled; times are exact, and activecnt is not tied to the number of active watchers of other kinds.
- PeriodicRecalc.Recalc: the escape for an interval too small to move the time, which only rounding can cause, is not modelled.
- Timers.Loop.Stop: also ev_periodic_stop, with nothing taken off the time; the heaps of timers and of periodics are two objects of the same class.
- TimerHeap.Upheap: the heap variant without cached times and the binary heap, which other build options choose, are not modelled.
- FdPoll.Fds.IoStop: the clear_pending at its start is ClearPending of the pending queue and is not repeated there.
- FdPoll.Fds.FdReify: fd_kill, fd_rearm_all, the Windows loop and changing an active watcher's mask are not modelled.
- ZlogBuf.Buf.Append: pointer arithmetic on NULL is taken as on addresses; what lies behind a string in memory is not modelled, so bytes copied from there may be any.
- FormatMsg.WriteBuf: which calls the write function of a part makes, from the event, is a parameter; so is the time cache.
- ZlogBuf.Buf.PrintfDec32: the width is not negative, as in all callers; a negative one would be taken for a huge one.
- ZlogBuf.Buf.Vprintf: vsnprintf is an arbitrary rendering, the same on both tries.
- HashTable.Table.Put: keys are equal when they are the same value, so replacing a key by an equal one does not show; the deletion callbacks are not modelled.
- ArrayList.List.Set: failed reallocation and the deletion callback are not modelled.
- Rotater.Rotater.AddArchiveFiles: the directory holds the log file and canonically named archives; other files that the pattern matches, two names of one index, path lengths and int overflow of an index are not modelled.
- Rotater.Rotater.Rotate: the lock, the size test and the parsing of the archive path are not modelled; the maximal count stays the same over a run.
- Rules.SetLevelBitmap: the rest of zlog_rule_new, which parses a configuration line, is not modelled.
- CategoryTable.UpdateRules: the table is the sequence of its categories in foreach order; that foreach visits each once is HashTable.Table.ForEach.
- CategoryTable.Reload: locking, the reload period and the freeing of configurations are not modelled.
- periodics_reschedule, ev_timer_remaining, prepare, check, idle, stat, child, fork and embed watchers, and clock reading in libev.
- The epoll, kqueue, port, select and Windows backends of libev.
- zlog's configuration, format, spec, record, thread and level parsing, and its output to files, pipes and syslog.
- The MAC layer, its counters, message packers and configuration tables, and the thread, socket and trace helpers.
