# go-virtio/sound: a verified model of the driver's queue protocols

go-virtio/sound drives a virtio sound device (section 5.14 of Virtio 1.2) through four split
virtqueues (section 2.7).  What makes the driver hard to get right is that a completion names its
chain only by a 16-bit descriptor head, and heads are reused: a `Write` that times out leaves its
chain with the device, later calls publish other chains, and late completions come back in any
order.  This project models the driver together with an arbitrary device and proves what each of
its queue protocols guarantees over whole runs, and where a guarantee stops, exactly where.

## How it is modelled

- `virtqueue.dfy`: the queue and the device.  Every published chain gets a *ticket*, its position
  in the available ring; tickets are never reused and the driver never sees one.  Between any two
  polls the device may complete any chains it holds, in any order, each at most once, writing any
  bytes through the descriptors *as they are linked at that moment*.  `ReclaimChain` is given a
  head and walks the table, as the real one does.  `Sound` is the state between calls: the InUse
  slots are the disjoint union of the slots of the chains published and not yet polled, the blocks
  of those chains are distinct, and what the device reported is still in them.
- `transfers.dfy`, `scripts.dfy`, `driver.dfy`, `runs.dfy`: the txq.  `VirtioSound` has the
  source's fields and methods for `Write`, `WriteAsync` and `ReadEvents`; ghost fields name the
  ticket of each parked chain and of each cookie, and the predicates `Parking` and `Tracks` say what
  the lists of heads mean in tickets.  A method's ghost flags say which reading the caller claims:
  `exact` (the pending list is exactly the outstanding chains: runs of `Write` alone), `covers` (it
  lists every timed-out chain still outstanding: any run), `track` (the cookie registry is
  truthful).  What the device is about to complete before each poll is a parameter of the calls
  (`Env.device`; only the eventq's device is left open), so a contract says what a call makes of the
  device it is given, and not only of some device.  `Scripts.AnyScriptFollows` shows that no
  behaviour is lost by that.  The methods
  also return, as ghosts, the *script* of what the device did of its plan, turn by turn;
  `scripts.dfy` gives the loops as functions of the script, and proves what some device can make of
  them.
- `notifications.dfy`: the eventq, whose one-page buffers are offered again while the polled slot
  is still held.
- `exchanges.dfy`, `answers.dfy`, `sync.dfy`, `sync_runs.dfy`: the synchronous half, on other fields
  of the same Go struct: `controlRoundTrip`, the stream registry, the PCM commands, the mixer commands
  and `Read`.  `answers.dfy` says whose completion an exchange takes for its answer; it needs only that
  the logs of the queue make sense (`Logs`), not that its descriptor table is sound.
- `bytes.dfy`, `bits.dfy`, `messages.dfy`, `pcm.dfy`, `mixer.dfy`: wire integers, bitmaps, records
  and requests, parameter validation and its history, volume scaling, tags and control selection.

uint32 arithmetic is written out with its wrap (`Wrap32`, `Sub32`, `Add32`), so is the uint64
cookie counter (`Inc64`), and a slice expression that would panic in Go returns `SliceOutOfRange`.
The environment (allocation, doorbell, config reads) enters as parameters, and the poll budget is
arbitrary.

## What is assumed

The queue and the allocator live in go-virtio/common, which is not part of this model.  Assumed of
them, after the use the driver and its tests make of them (playback_test.go:157-184,
playback_test.go:208-227, inject_test.go:203-214, sound_test.go:397-432):

- `AddChain` and `AddBuffer` take only slots that are not InUse (which ones is left open), link and
  publish them, and fail without effect exactly when too few slots are free;
- `PollUsed` returns unseen used entries in order and frees nothing;
- `ReclaimChain` frees the slots reached from the head it is given;
- `AllocatePages` returns fresh, zeroed memory that no other block overlaps.

Of the device: it writes only through the descriptors of chains it holds, and completes each at
most once.  During one `ReadEvents` call it posts finitely many events.

## What was found

- A head is enough.  Among chains not yet reclaimed the head determines the ticket
  (`Virtqueue.HeadIdentifiesTicket`), so `Write` reports what the device wrote for that very
  transfer, and `reclaimPending`'s fallthrough is unreachable in runs of `Write` alone.
- Reclaiming a chain keeps the ring sound if and only if its completion has been polled
  (`Virtqueue.ReclaimSoundIff`).  So a failed doorbell (playback.go:129-131, async.go:71-73,
  sound.go:488-493) and a timeout of `controlRoundTrip` or `Read` (sound.go:514, capture.go:102)
  give slots back while the device can still use them; every contract names those cases.
- Neither `controlRoundTrip` nor `Read` compares the head it polls with its own.  An exchange's answer
  is its own, whatever the device does, if and only if nothing was outstanding on the queue before it
  (`Answers.AnswerIsOwnIff`).  A queue holds one chain for each earlier call on it that timed out or
  whose doorbell failed, so the exact condition is that none did (`SyncRuns.NextAnswerIff`).
- And comparing heads would not be enough: after a timeout the next exchange can take the slots given
  back, the device complete the first chain through the descriptors as they are linked now, and the
  driver poll the very head it waits for and read OK, while its own chain is still with the device
  (`Answers.LateAnswer`, for any layouts and bytes; `Answers.LateOK`).
- `Write` polls and reclaims an asynchronous chain without removing its cookie.  With a positive poll
  budget it leaves the registry truthful against every device if and only if no cookie is in flight,
  or nothing is parked and the ring has no room, when it does not poll
  (`Scripts.WriteKeepsRegistryIff`); any number of such turns does so exactly when no cookie is in
  flight (`Scripts.RegistryKeptIff`).  So `Write` belongs after `PendingAsyncCount() == 0`, and a run
  that keeps to that loses no cookie; no run delivers one twice (`Runs.Run`).
- A cookie lost that way can also cost another its event: the next `WriteAsync` can take the stale
  cookie's head (`Scripts.CookiesCanCollide`), and what the search by head finds is independent of Go's
  map order if and only if no two cookies in flight share a head (`Transfers.SearchDeterminedIff`).
- `ReadEvents` likewise leaves the entry of a parked chain it reclaims: an exact pending list stays
  exact against every device if and only if it is empty (`Scripts.ListKeptIff`).
- playback.go:195-196 calls `reclaimPending` idempotent.  A call is a no-op exactly when the head is
  not listed and its slot holds nothing (`Scripts.ReclaimAgainIff`).  Straight after a first call that
  is so unless a second, stale entry has the same head (`Scripts.SecondCallIff`); once the head has
  been taken for another transfer, a second call frees that live chain (`Scripts.LaterCallFreesLive`).
- The first event's page is never offered again: with every slot posted, `AddBuffer` finds none
  (`Notifications.FirstPageRetired`).  From then on exactly one slot is free between drain iterations,
  and every later event's page is offered again: the pages with the device are always all the others
  (`Notifications.RepostCirculates`, `Driver.VirtioSound.RepostEventBuffer`,
  `Driver.VirtioSound.DrainNotifications`).
- `ReadEvents` reports OK without reading the status when the 32-bit length of the block does not
  cover the trailer (`Transfers.StatusReadIff`); with the pages asked for that is so for transfers
  within a page of 2^32, whose block of 4 GiB has length zero (`Transfers.StatusReadInPagesIff`,
  `Transfers.StatusMissed`).
- `controlRoundTrip` and `Read` publish a chain that runs past its block if and only if the 32-bit
  total wraps, so that a block too short passes the length check, and there are slots for the chain:
  an `ensures` of both.  `PCMInfo` never gets there (`Sync.InfoNeverWraps`); `Controls`, with its page,
  does exactly for payload lengths within 20 of 2^32 (`Sync.ControlsWrapIff`, `Sync.SomeControlsWrap`),
  and `Read`, with the pages it asks for, exactly for buffers of 2^32-12 bytes or more
  (`Sync.ReadWrapsIff`).  `Write` and `WriteAsync` then end in a slice panic (`Transfers.PanicsIff`).
- A stream's tag also matches the control of every stream whose number ends in the same digits:
  stream 1 and "PCM 11 " (`Mixer.TagMatchesIff`).
- Without cached info `PCMSetParamsTyped` sends 0xFF for a single bit beyond the defined table; with
  it, such a bit is refused (`Pcm.TypedUncheckedIff`, `Pcm.RateBeyondTable`, `Pcm.TypedPassesIff`).
- controls.go:259-262 describes a search for a "Master" or "Stream n" name; the code takes the first
  integer control whose name contains "Volume", preferring one that contains the number and a space.
  sound.go:119-122 describes pendingEvents as a queue of events; nothing is ever put in it.  The model
  follows the code.

## Model

| member | source | states |
|---|---|---|
| Virtqueue.HeadIdentifiesTicket | playback.go:17-41 | among the chains whose slots are not reclaimed, two have the same head exactly when they are the same chain |
| Virtqueue.WalkFindsChain | playback.go:146 | from the head alone, walking the table visits exactly the slots and buffers that were published under it |
| Virtqueue.AddChain | playback.go:124-127 | fails, without effect, exactly when too few slots are free; otherwise takes that many free slots for the new chain |
| Virtqueue.PublishedKeeps | playback.go:118-127 | publishing on free slots over a fresh block keeps slot ownership, adds one outstanding ticket and uses exactly its slots |
| Virtqueue.PollKeeps | playback.go:134-137 | a poll removes exactly the returned ticket from the outstanding ones and frees no slot |
| Virtqueue.ReclaimKeeps | playback.go:146 | reclaiming a polled chain by its head frees exactly that chain's slots, and every other chain keeps its own |
| Virtqueue.ReclaimSoundIff | playback.go:155-158 | reclaiming keeps the ring sound if and only if the chain's completion has been polled: why a timeout parks |
| Virtqueue.CompleteKeeps | playback.go:17-41 | a completion, whatever the device writes, keeps ownership and every other chain's bytes, and its report is on its own chain |
| Virtqueue.DeviceKeepsReadable | playback.go:108-113 | no device behaviour changes a byte of an outstanding chain's block that the chain does not expose for writing |
| Virtqueue.RingNeverOverruns | playback.go:80-95 | held chains plus unpolled completions equal the outstanding tickets and never exceed the ring's size |
| Virtqueue.RunKeepsOwnership | playback.go:95-206 | over every run of driver and device steps the InUse slots stay the disjoint union of the unreclaimed chains' slots |
| Transfers.PagesHoldTransferIff | playback.go:97-98 | the pages asked for hold header, data and status exactly when the 32-bit total does not wrap, and are then the fewest |
| Transfers.TxBufsTile | playback.go:115-123 | the three chain buffers cover [0, len+12), each byte exactly once |
| Transfers.ExactSlotCount | playback.go:159-163 | in runs of Write alone, free slots plus three per parked chain make up the ring, and parked heads are distinct |
| Transfers.DropExact | playback.go:197-206 | dropping by head drops the polled ticket's own entry, which exists, and leaves the list exact |
| Transfers.DropCovers | playback.go:197-206 | in any run, a drop by head leaves every other outstanding timed-out chain listed |
| Transfers.StatusReadIff | async.go:148-151 | for every trailer, OK included: the reported status is what the trailer says when the 32-bit length of the block covers it, and OK otherwise; so an error is reported exactly in the first case |
| Transfers.StatusReadInPagesIff | async.go:148-151 | with the pages asked for, that holds exactly when the transfer is not within a page of 2^32 |
| Transfers.StatusMissed | async.go:148-151 | the longest transfer: whatever error the device writes, OK is reported |
| Transfers.PanicsIff | playback.go:97-111 | with the pages asked for, copying the frames is a slice panic exactly for frames of 2^32-12 bytes or more |
| Transfers.SearchDeterminedIff | async.go:146-161 | what the walk of the registry finds is the same in every order, for every head, if and only if no two cookies in flight have the same head |
| Transfers.TrackedApart | async.go:146-161 | in a truthful registry no two cookies have the same head |
| Transfers.TakesDeliver | async.go:102-112 | whatever the registry is worth and in whatever order it is walked, a drain reports only cookies in flight, each once, and removes exactly those |
| Transfers.PolledMatches | async.go:146-161 | a polled head matches a cookie if and only if the completion is that cookie's: any map order gives the same result |
| Transfers.DrainDeliversOnce | async.go:102-112 | a drain delivers each cookie at most once, only cookies in flight, and moves exactly those to delivered |
| Transfers.DrainCookies | async.go:102-112 | the cookies of a drain's events are pairwise distinct, were in flight, and are exactly those now delivered |
| Transfers.DeliveredInOrder | async.go:102-112 | from a truthful registry, event i of a drain is about completion `ks[i]` of the used ring, with the cookie, stream and length recorded for its ticket and the status its own report says where the length of the block covers it; completions of cookies in flight, and no others, each have their event, in order |
| Scripts.RegistryKeptIff | playback.go:133-146 | polling and reclaiming by head keeps the registry truthful, for every device and any number of turns, if and only if no cookie is in flight |
| Scripts.WriteKeepsRegistryIff | playback.go:83-165 | a Write with a positive poll budget does so for every device if and only if no cookie is in flight, or nothing is parked and the ring has no room; from any state in which, as runs keep it, each outstanding chain is a cookie's or listed |
| Scripts.ListKeptIff | async.go:102-112 | from an exact pending list, the drain of ReadEvents leaves it exact for every device if and only if it is empty |
| Scripts.CanTake | async.go:102-112 | for every outstanding chain there is a device that has it polled in this drain |
| Scripts.AnyScriptFollows | playback.go:17-41 | whatever a device may do, turn by turn, is what it does when that is its plan: taking the plan as a parameter loses no behaviour |
| Scripts.ReclaimAgainIff | playback.go:191-206 | reclaimPending is a no-op exactly when the head is not listed and its slot holds nothing |
| Scripts.SecondCallIff | playback.go:191-206 | a second call straight after the first is a no-op exactly when no second entry has the head |
| Scripts.LaterCallFreesLive | playback.go:191-206 | after the polled head has been taken for another transfer, a second call frees that live chain |
| Scripts.CookiesCanCollide | async.go:76-86 | from any state with a cookie in flight, nothing parked and room: a Write and then a WriteAsync after which two cookies have the same head, and a completion of it matches both |
| Driver.VirtioSound.constructor | sound.go:322-331 | the opened driver has empty queues, nothing parked and no cookies, and satisfies both registry invariants |
| Driver.VirtioSound.ReclaimPending | playback.go:197-206 | frees the polled chain and drops its entry; in runs of Write alone an entry is always found |
| Driver.VirtioSound.DrainPendingTxq | playback.go:175-189 | terminates against any device, keeps the invariants, frees everything when every parked completion is already in the used ring, and polls against the device it is given until nothing is parked or a poll finds nothing |
| Driver.VirtioSound.PostTransfer | playback.go:97-132 | the device is told to play exactly these frames on this stream, or nothing is published; which, is decided by block and free slots, and so is the slice panic |
| Driver.VirtioSound.Settle | playback.go:146-153 | the call succeeds exactly when the trailer, the device's report on the own ticket, says OK; otherwise ErrDeviceStatus |
| Driver.VirtioSound.Await | playback.go:133-164 | either the own completion was polled and its report decides the result, or the chain is parked and still outstanding; the loop ends at the own completion or when the budget is spent, against the device it is given |
| Driver.VirtioSound.Write | playback.go:83-165 | a transfer the block holds goes out exactly when, after the drain, three slots are free, and is ErrQueueFull otherwise; success exactly when the own chain's report says OK, ErrDeviceStatus exactly when it says otherwise, and a timeout exactly when the chain is still outstanding, parked; slots kept; recovery when all parked completions have arrived; and its two loops turn by turn, for the device given |
| Driver.VirtioSound.WriteAsync | async.go:36-86 | a transfer the block holds goes out exactly when three slots are free, whatever else is in flight, and is ErrQueueFull otherwise; it is then given the next cookie, with its head, stream and length; a failed call leaves the registry alone |
| Driver.VirtioSound.FindCookie | async.go:146-147 | whatever the order of the walk, finds a cookie with this head unless there is none |
| Driver.VirtioSound.CompleteAsyncCookie | async.go:142-163 | removes a cookie with this head, if there is one, and reports what was registered for it, with the status its trailer says; in a truthful registry it is the polled ticket's own, and there is no event for a parked chain |
| Driver.VirtioSound.DrainCompletions | async.go:102-112 | terminates against any device; each completion takes one cookie with its head, if there is one; in a truthful registry the events are those owed, in used-ring order |
| Driver.VirtioSound.RepostEventBuffer | async.go:210-223 | with a slot free, the polled slot's page and no other is offered again, under the next ticket; with none, nothing changes; the polled slot is still held |
| Driver.VirtioSound.ParseEventqEntry | async.go:176-204 | the event decoded is what the device reported, though the device may overwrite the page once it is offered again |
| Driver.VirtioSound.DrainNotifications | async.go:114-124 | every reported event is decoded once, in order and with none left over, event i from completion `ks[i]`, and the stock of posted buffers is kept; once an event has been drained, with the very same pages |
| Driver.VirtioSound.ReadEvents | async.go:98-126 | queued events, then one event for each completion of a cookie in flight, in used-ring order, with the status the device reported on that very transfer, then the notifications, in order; both queues are polled empty; invariants kept |
| Driver.VirtioSound.FillEventRing | sound.go:421-440 | succeeds exactly when every slot is free and every allocation gives a page, leaving every slot posted |
| Notifications.StockPosted | async.go:114-124 | at least Size-1 buffers are with the device between drain iterations, on pairwise distinct pages |
| Notifications.FirstPageRetired | async.go:210-223 | once an event has been drained, the first one's page is in no posted buffer |
| Notifications.RepostCirculates | async.go:210-223 | offering the drawn page under the next ticket adds no page and leaves the device all those ever posted but the first event's |
| Notifications.DecodeIff | async.go:187-203 | a device event decodes to itself; unknown codes and short completions decode to nothing |
| Notifications.NotesInOrder | async.go:114-124 | the events owed for a stretch of the used ring are those its completions decode to, in order: event i is completion `ks[i]`'s, and every completion that decodes has one |
| Notifications.RecycleDone | async.go:119-120 | after repost and reclaim exactly one slot is free |
| Runs.Run | playback.go:83-206 | any mix of Write, WriteAsync and ReadEvents keeps slots, stock and pending list; each call answers as `Outcome` says against the device it is given: which transfers go out, that the report on its own ticket decides a Write, that every completion and notification is delivered in order; up to the first call that ends in a slice panic; cookies issued are in flight or delivered, disjointly, and the run's completion events name each delivered cookie once; while Write is called only with no cookie in flight, the registry also follows exactly the outstanding asynchronous chains |
| Exchanges.AwaitFirst | sound.go:495-500 | it times out exactly when the whole budget of turns went by and none found a completion, so never with one already in the used ring; otherwise the first turn that finds one is the last, within the budget; that completion belongs to an outstanding chain, and a timeout loses nothing |
| Exchanges.FirstIsOwn | sound.go:495-500 | on an empty queue the first completion is the own chain's, its report is in the own block, and reclaiming it empties the queue |
| Exchanges.GaveUp | sound.go:514 | a timeout reclaims a chain the device still has, and the ring is no longer sound |
| Answers.FirstPolledIff | sound.go:495-500 | on any queue just posted to, the first completion polled is the own chain's for every device if and only if nothing else is outstanding |
| Answers.AnswerIsOwnIff | sound.go:495-516 | over any queue, layout and budget, an exchange's answer is its own for every device if and only if nothing was outstanding before it (or there is no budget, and no answer) |
| Answers.ExchangeCounts | sound.go:457-516 | an exchange leaves as many chains outstanding as before, and one more exactly when it gave up |
| Answers.CtrlSpelled | sound.go:457-516 | a control exchange on any queue: sent exactly when block and free slots allow, ErrNotify exactly when sent and the doorbell fails, polled exactly when neither that nor a timeout, no timeout with a completion already there, and once polled status and payload are those in the own block |
| Answers.RxSpelled | capture.go:32-104 | the same for a capture, whose trailer decides |
| Answers.CommandMeans | pcm.go:60-77 | the same for a command without payload: success exactly when the status in its own block says OK, ErrDeviceStatus exactly when it says otherwise, and neither when nothing was polled |
| Answers.LateAnswer | sound.go:495-516 | after a timeout, for any two layouts of as many buffers and any bytes: a device that has the next exchange poll its own head and read those bytes while its ticket is still with the device |
| Answers.LateOK | sound.go:495-512 | so a control exchange can read OK while its own ticket is still with the device |
| Exchanges.RxDone | capture.go:85-100 | what Read makes of its block: the trailer decides, and the captured count follows the device-reported length |
| Sync.SyncSound.ControlRoundTrip | sound.go:457-516 | on an empty queue the answer is the device's report on this request and the queue is empty again, unless it timed out or the doorbell failed; on any queue: the request goes out exactly when the block holds it and slots are free, it times out exactly when no turn of the budget finds a completion, and the answer is read from the own block once the first is polled; the count of outstanding chains grows exactly when it gave up; a chain past its block is published exactly when the length check is defeated and there are slots |
| Sync.SyncSound.ReadResponse | sound.go:501-512 | status and payload are the two parts of the response; a wrapped bound is a slice panic |
| Sync.SyncSound.CacheStreamInfo | sound.go:555-562 | replaces this stream's info and nothing else |
| Sync.SyncSound.RecordStreamParams | sound.go:580-587 | replaces this stream's parameters and nothing else |
| Sync.SyncSound.PCMInfo | pcm.go:17-45 | the query goes out exactly when there are streams, the block holds it and slots are free; it fails with ErrDeviceStatus exactly when the status in its block says so, and otherwise returns and caches what the records there say of every stream; a failure changes no stream; never ErrShortResponse |
| Sync.SyncSound.PCMSetParams | pcm.go:60-77 | sends exactly these parameters, exactly when the cached info admits them, the block holds them and slots are free; recorded exactly when the status in its block is OK, and ErrDeviceStatus exactly when it is another |
| Sync.SyncSound.PCMSetParamsTyped | pcm.go:88-103 | refused exactly when not single bits, and otherwise as PCMSetParams; with cached info, what reaches the wire are the ids of the rate and format asked for, both advertised |
| Sync.SyncSound.Read | capture.go:32-104 | on an empty queue the bytes delivered are those captured for this request, as many as reported; a failure leaves the buffer alone; on any queue: the request goes out exactly when the block holds it and slots are free, it times out exactly when no turn of the budget finds a completion, and once one is polled the trailer in the own block decides and the reported length says how much is copied; the count of outstanding chains grows exactly when it gave up; a chain past its block is published exactly when the length check is defeated and there are slots |
| Sync.SyncSound.ReadCapture | capture.go:85-100 | count and bytes as the trailer and the device-reported length say; a wrapped bound is a slice panic |
| Sync.SyncSound.Controls | controls.go:157-191 | the query goes out exactly when controls were negotiated, the count is read and not zero, the block holds it and slots are free; ErrDeviceStatus exactly when the status in its block says so, and otherwise the controls are those the records there describe, ids being positions; on every other path, what became of the exchange; never ErrShortResponse; a chain past its block exactly when the listing overruns and there are slots |
| Sync.SyncSound.ControlWrite | controls.go:234-257 | exactly these values go out for this control, exactly when negotiated, not empty, the control counted, the block holding them and slots free; success exactly when the status in its block is OK, ErrDeviceStatus exactly when it is another |
| Sync.SyncSound.SetVolume | controls.go:266-290 | lists the controls, and fails with the listing or when none is eligible; otherwise the one chosen by tag is told the value, percent hundredths of its range rounded down, on every channel, and the status in that command's block decides |
| Sync.InfoNeverWraps | pcm.go:24-26 | the total length of a PCM info exchange never wraps |
| Sync.ControlsWrapIff | controls.go:172-174 | the length check is defeated by a page exactly for payload lengths within 20 of 2^32 |
| Sync.ReadWrapsIff | capture.go:39-48 | with the pages asked for, Read's length check is defeated exactly for buffers of 2^32-12 bytes or more |
| Sync.SomeControlsWrap | controls.go:172-174 | a control count for which that happens |
| SyncRuns.Run | pcm.go:33-77 | over any run StreamParams is the last parameters accepted and cached info the latest learned, per stream; both queues stay empty while nothing gives up, whatever is refused, and in any case hold one chain for each call that gave up on them |
| SyncRuns.NextAnswerIff | sound.go:495-516 | after any run, the next exchange's answer on a queue is its own for every device if and only if no call of the run gave up on that queue (or there is no budget, and no answer) |
| Bits.QueueSize | sound.go:366-372 | the largest power of two not above the desired and the device's size |
| Bits.SingleBitIff | pcm.go:128 | accepts exactly the powers of two |
| Bits.ByteIDFinds | messages.go:192-202 | the position of the lowest set bit in the table, 0xFF exactly when there is none |
| Bits.ByteIDRoundTrip | messages.go:283-321 | id and bitmap conversions are inverse on defined ids; bits beyond the table give 0xFF |
| Bits.Supported | messages.go:222-230 | exactly the set bits below the table's length, as single-bit values in ascending order |
| Pcm.ValidateParamsIff | pcm.go:109-124 | cached info admits exactly the advertised tuples, with rate checked before format |
| Pcm.TypedPassesIff | pcm.go:88-124 | typed parameters pass exactly when defined, advertised and in range, and the ids sent mean what was asked |
| Pcm.TypedUncheckedIff | pcm.go:109-113 | without cached info the ids sent mean what was asked exactly for defined rate and format |
| Pcm.RateBeyondTable | pcm.go:88-113 | the rate 2^14 is accepted without cached info and goes out as 0xFF |
| Pcm.AgreesAccepted | sound.go:580-587 | recording accepted parameters keeps the registry in agreement with the history |
| Pcm.AgreesLearned | sound.go:555-562 | caching a successful query keeps the registry in agreement with the history |
| Messages.QueryInfoReqReads | messages.go:475-482 | a device reads back every field of an info request |
| Messages.BuildPCMSetParamsReq | messages.go:495-507 | the bytes written in place are the encoded request |
| Messages.SetParamsRequestRoundTrip | messages.go:495-507 | a device reads back every field of a SET_PARAMS request |
| Messages.PCMInfosRoundTrip | pcm.go:33-44 | decoding an encoded sequence of PCM records returns it, whatever the padding |
| Messages.PCMInfoRoundTrip | messages.go:531-550 | decoding an encoded PCM record returns it |
| Messages.ParseControlInfoEntry | controls.go:416-440 | short buffers are refused; otherwise every field, the name without its trailing NULs |
| Messages.TrimNulIs | controls.go:433-438 | the name is cut exactly at its trailing NULs |
| Messages.ControlRoundTrip | controls.go:416-440 | decoding an encoded control returns it, the name up to trailing NULs |
| Messages.ControlsRoundTrip | controls.go:172-190 | decoding an encoded sequence of controls returns it with ids equal to positions |
| Messages.BuildCtlWriteReq | controls.go:453-462 | the encoded request, or a store out of range exactly when its length reaches 2^32 |
| Messages.CtlWriteReqReads | controls.go:453-462 | a device reads back the control and every channel's signed value |
| Messages.TwosComplement | controls.go:459 | a signed value and the word sent for it differ by a multiple of 2^32, and likewise when read back |
| Bytes.PutLeAt | messages.go:22 | byte i of an encoded word is x / 256^i % 256: least significant byte first |
| Bytes.Le32Bytes | messages.go:22 | the four bytes of a word, and the word read back from them |
| Mixer.VolumeExact | controls.go:281-284 | the wrapped arithmetic exceeds Min by the d with 100 d <= (Max-Min) percent < 100 d + 100; within [Min, Max], Min at 0 and Max at 100 |
| Mixer.VolumeMonotone | controls.go:281-284 | the value is monotone in the percentage |
| Mixer.VolumeWordExact | controls.go:281-284 | the same bounds for the word sent, over unsigned ranges |
| Mixer.StreamIDTag | controls.go:372-392 | writes the decimal digits of the id and a space |
| Mixer.DecimalAt | controls.go:372-392 | digit i from the right is n / 10^i % 10 |
| Mixer.DecimalParses | controls.go:372-392 | the digits parse back to the id and have no leading zero |
| Mixer.TagLength | controls.go:379 | at most ten digits for every uint32 |
| Mixer.TagsDiffer | controls.go:369-371 | distinct ids have distinct tags |
| Mixer.ContainsSubstring | controls.go:398-411 | true if and only if there is a matching offset |
| Mixer.MatchesAtIff | controls.go:398-411 | an offset matches exactly when every byte there is the substring's |
| Mixer.TagMatchesIff | controls.go:369-371 | a tag occurs in a stream's control name exactly when its digits end that stream's digits |
| Mixer.StreamElevenMatchesOne | controls.go:369-371 | the tag of stream 1 occurs in the name of stream 11's control |
| Mixer.FindVolumeControl | controls.go:323-343 | the first eligible tagged control, else the first eligible one, none exactly when none is eligible |
| Mixer.FindMuteControl | controls.go:347-367 | the same for switches |
| Mixer.ChosenUnique | controls.go:320-322 | there is at most one control satisfying that description |

## Left out

- OpenVirtioSound, feature negotiation and readDeviceConfig: straight-line register I/O through a package that is not part of this model.
- buffer.go and all address arithmetic: a DMA buffer is a block, an offset and a length.
- The order of PCM lifecycle commands, and PCMPrepare, PCMStart, PCMStop, PCMRelease, ControlRead and SetMute, which would only add easy members.
- Termination of the eventq loop of ReadEvents against a device that never stops posting: each call is given a finite budget of events.
- Slot ownership after a failed doorbell or an abandoned exchange: the chain is then with the device and reclaimed; of that queue only the logs are followed any further.
- Memory outside the blocks of a queue, so also what a device writes through a chain that runs past its block.
- Concurrent calls: the driver does no locking, and its methods are modelled one at a time.
- Driver.VirtioSound.Write: frames of 2^32-12 bytes or more are covered only when the allocator returns no more than a block too short for them, as it does when it returns the pages asked for.
- Driver.VirtioSound.WriteAsync: the same bound on the length of frames.
- Driver.VirtioSound.PostTransfer: the same bound on the length of frames.
- Sync.SyncSound.Read: when the transfer length wraps, nothing is claimed of the bytes delivered or of the queue's slots afterwards.
- Sync.SyncSound.ControlRoundTrip: when the 32-bit length wraps, nothing is claimed of the queue's slots afterwards; no answer is returned.
- SyncRuns.Run: which SetVolume calls end in a slice panic depends on the channel count the device lists, and is not spelled out.
- Runs.Run: doorbell writes succeed.
