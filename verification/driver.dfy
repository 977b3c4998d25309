/** The asynchronous half of the driver: playback.go, async.go and the event ring of sound.go. */
module Driver {
  import opened Wrappers
  import opened Bytes
  import opened Types
  import opened Virtqueue
  import opened Transfers
  import opened Scripts
  import opened Notifications

  class VirtioSound {
    const deviceStreams: u32         // Device.Streams
    const pollBudget: nat            // XferPollIterations / CtrlPollIterations

    var txq: Ring
    var eventq: Ring
    var pendingTxq: seq<Parked>
    var asyncCookies: map<nat, Inflight>
    var nextCookie: u64
    var pendingEvents: seq<Event>

    ghost var parked: seq<nat>       // the ticket each pendingTxq entry was parked for
    ghost var timedOut: set<nat>     // every ticket ever parked
    ghost var owner: map<nat, nat>   // the ticket of each cookie in flight
    ghost var delivered: set<nat>    // cookies delivered by ReadEvents

    /** The state OpenVirtioSound leaves, before it fills the event ring. */
    constructor (streams: u32, budget: nat, txSize: nat, eventSize: nat)
      ensures deviceStreams == streams && pollBudget == budget
      ensures Parking(txq, {}, pendingTxq, parked, timedOut, true, true) && Tracks(txq, Cookies()) && asyncCookies == map[]
      ensures Accounted(txq, pendingTxq, timedOut, Cookies()) && pendingEvents == []
      ensures Filling(eventq, eventSize) && |eventq.desc| == eventSize && |txq.desc| == txSize
    {
      deviceStreams, pollBudget := streams, budget;
      txq, eventq := EmptyRing(txSize), EmptyRing(eventSize);
      pendingTxq, asyncCookies, nextCookie, pendingEvents := [], map[], 0, [];
      parked, timedOut, owner, delivered := [], {}, map[], {};
      new;
      EmptyRingSound(txSize);
      EmptyRingSound(eventSize);
      assert FirstCookies(0) == {};
    }

    // -------------------------------------------------------------------------
    // playback.go
    // -------------------------------------------------------------------------

    /** reclaimPending's search: the first parked entry with this head, or the list's length. */
    static method FirstWithHead(pending: seq<Parked>, idx: nat) returns (i: nat)
      ensures i == FindHead(pending, idx)
    {
      i := 0;
      while i < |pending| && pending[i].head != idx
        invariant i <= |pending|
        invariant forall j | 0 <= j < i :: pending[j].head != idx
      {
        i := i + 1;
      }
      FindHeadIs(pending, idx, i);
    }

    /**
     reclaimPending: drop the first entry with this head, if there is one, and reclaim the
     chain either way.  `before` is the ring before the poll that returned ticket `t`.
     */
    method ReclaimPending(idx: nat, ghost before: Ring, ghost t: nat, ghost mine: set<nat>, ghost exact: bool, ghost covers: bool)
      requires Parking(before, mine, pendingTxq, parked, timedOut, exact, covers)
      requires PolledSince(before, txq, t) && t !in mine && txq.avail[t] == idx
      modifies `txq, `pendingTxq, `parked
      ensures txq == ReclaimChain(old(txq), idx) && Outstanding(txq) == Outstanding(old(txq))
      ensures Parking(txq, mine, pendingTxq, parked, old(timedOut), exact, covers)
      ensures pendingTxq == DropHead(old(pendingTxq), idx)
      // the entry dropped is the polled chain's own: in exact runs the fallthrough is not taken
      ensures exact ==> |pendingTxq| == |old(pendingTxq)| - 1
    {
      hide Inv, ParkedExactly, ParkedCovers;
      DropPolled(before, txq, mine, pendingTxq, parked, old(timedOut), exact, covers, t);
      var i := FirstWithHead(pendingTxq, idx);
      txq := ReclaimChain(txq, idx);
      pendingTxq, parked := RemoveAt(pendingTxq, i), RemoveAt(parked, i);
    }

    /** One turn of drainPendingTxq's loop; false when the used ring is empty. */
    method DrainOne(plan: seq<Completion>, ghost exact: bool, ghost covers: bool) returns (more: bool, ghost cs: seq<Completion>)
      requires Parking(txq, {}, pendingTxq, parked, timedOut, exact, covers)
      modifies `txq, `pendingTxq, `parked
      ensures Parking(txq, {}, pendingTxq, parked, old(timedOut), exact, covers)
      ensures Extends(old(txq), txq) && txq.avail == old(txq.avail) && txq.held <= old(txq.held)
      ensures more ==> |Outstanding(txq)| < |Outstanding(old(txq))|
      ensures !more ==> Unseen(txq) == {}
      ensures cs == Acts(old(txq), plan) && (more <==> Polls(old(txq), cs))
      ensures Tx(txq, pendingTxq) == TxTurn(Tx(old(txq), old(pendingTxq)), cs)
    {
      hide Inv, ParkedExactly, ParkedCovers, May, Polls, Turn, PolledHead, Acts;
      ghost var before := txq;
      cs := Acts(txq, plan);
      var got, r, t := PollTurn(txq, plan);
      TurnOf(txq, cs, got, r);
      AdvancesExtends(txq, r);
      txq := r;
      more := got.Some?;
      if more {
        ReclaimPending(got.value.head, before, t, {}, exact, covers);
      } else {
        IdlePoll(before, txq, {}, pendingTxq, parked, old(timedOut), exact, covers);
      }
    }

    /** drainPendingTxq: poll while chains are parked, freeing what has completed. */
    method DrainPendingTxq(device: Script, ghost exact: bool, ghost covers: bool) returns (ghost script: Script, polls: nat)
      requires Parking(txq, {}, pendingTxq, parked, timedOut, exact, covers)
      modifies `txq, `pendingTxq, `parked
      ensures Parking(txq, {}, pendingTxq, parked, old(timedOut), exact, covers)
      ensures Extends(old(txq), txq) && txq.avail == old(txq.avail) && txq.held <= old(txq.held)
      // every parked completion already in the used ring: the drain frees them all
      ensures exact && old(txq.held) == {} ==> pendingTxq == [] && FreeCount(txq.desc) == |txq.desc|
      ensures DrainRun(Tx(old(txq), old(pendingTxq)), script) && Follows(old(txq), script, device) && polls == |script|
      ensures Tx(txq, pendingTxq) == TxTurns(Tx(old(txq), old(pendingTxq)), script)
    {
      hide Inv, ParkedExactly, ParkedCovers, Extends, May, Polls, TxTurn, TxTurns, GoesOn, Follows, Acts;
      script, polls := [], 0;
      ghost var start := Tx(txq, pendingTxq);
      DrainStarts(start);
      FollowsNothing(txq, device);
      while |pendingTxq| > 0
        invariant Parking(txq, {}, pendingTxq, parked, old(timedOut), exact, covers)
        invariant Extends(old(txq), txq) && txq.avail == old(txq.avail) && txq.held <= old(txq.held)
        invariant GoesOn(start, script) && Tx(txq, pendingTxq) == TxTurns(start, script)
        invariant Follows(old(txq), script, device) && polls == |script|
        decreases |Outstanding(txq)|
      {
        ghost var ring, turn := txq, Tx(txq, pendingTxq);
        var more, cs := DrainOne(PlanAt(device, polls), exact, covers);
        TxTurnsRing(start, script);
        FollowsMore(old(txq), script, cs, device);
        DrainTurn(start, script, cs, turn);
        ExtendsTransitive(old(txq), ring, txq);
        script, polls := script + [cs], polls + 1;
        if !more {
          break;
        }
      }
      Drained(txq, pendingTxq, parked, old(timedOut), exact, covers);
    }

    /**
     The part Write and WriteAsync share: allocate a block, lay header, frames and a zeroed
     trailer out in it, chain the three buffers and ring the doorbell.
     */
    method PostTransfer(streamID: u32, frames: seq<byte>, env: Env, ghost exact: bool, ghost covers: bool)
      returns (r: Result<Parked, SoundError>)
      requires Parking(txq, {}, pendingTxq, parked, timedOut, exact, covers)
      requires 0 < |frames| && Fits(|frames|, env.alloc)
      modifies `txq
      ensures r.Ok? ==> Posted(old(txq), txq, streamID, frames) && Polling(txq, |old(txq.avail)|, r.value, streamID, frames)
      ensures r.Ok? ==> Parking(txq, {|old(txq.avail)|}, old(pendingTxq), old(parked), old(timedOut), exact, covers)
      ensures r == Err(ErrNotify) ==> !Sound(txq)
      ensures Extends(old(txq), txq)
      ensures r.Err? && r.error != ErrNotify ==> Parking(txq, {}, old(pendingTxq), old(parked), old(timedOut), exact, covers)
      ensures r.Err? && r.error != ErrNotify ==> txq == old(txq).(mem := txq.mem)
      ensures r.Err? ==> r.error in {ErrAlloc, ErrAllocReturnedZero, ErrBufferTooSmall, ErrQueueFull, ErrNotify, SliceOutOfRange}
      ensures r == Err(SliceOutOfRange) <==> Panics(|frames|, env.alloc)
      ensures var refused := Refused(env.alloc, TotalLen(|frames|)); refused.Some? ==> r == Err(refused.value)
      ensures Refused(env.alloc, TotalLen(|frames|)).None? && r.Err? ==> r.error in {ErrQueueFull, ErrNotify, SliceOutOfRange}
      ensures r.Ok? ==> |frames| + 12 < U32
      // what is published, and that nothing is when the ring is full
      ensures r.Ok? || r == Err(ErrQueueFull) ==> env.alloc.Block? && PCM_XFER_HDR_SIZE + |frames| <= env.alloc.bytes
      ensures r.Ok? ==>
                && Published(Allocate(old(txq), TxBlock(env.alloc.bytes, streamID, frames)), txq, TxBufs(|old(txq.mem)|, |frames|))
                && |old(txq.avail)| < |txq.avail| && r.value.head == txq.avail[|old(txq.avail)|]
      ensures r == Err(ErrQueueFull) ==>
                FreeCount(old(txq.desc)) < 3 && txq == Allocate(old(txq), TxBlock(env.alloc.bytes, streamID, frames))
      ensures r.Ok? || r == Err(ErrNotify) <==>
                env.alloc.Block? && |frames| + 12 <= env.alloc.bytes && FreeCount(old(txq.desc)) >= 3
      ensures r == Err(ErrNotify) ==> !env.doorbell && |txq.avail| == |old(txq.avail)| + 1
      ensures r.Ok? ==> env.doorbell
      ensures r.Err? && r.error != ErrNotify && r.error != ErrQueueFull ==> txq == old(txq)
    {
      hide Inv, ParkedExactly, ParkedCovers, Polling, Carries, Published, Le32;
      var n := |frames|;
      PagesHoldTransferIff(n);
      match env.alloc
      case AllocFails => return Err(ErrAlloc);
      case AllocZero => return Err(ErrAllocReturnedZero);
      case Block(bytes) =>
        if TotalLen(n) > bytes {
          return Err(ErrBufferTooSmall);
        }
        if PCM_XFER_HDR_SIZE + n > bytes {
          return Err(SliceOutOfRange);
        }
        var mem := TxBlock(bytes, streamID, frames);
        var page := |txq.mem|;
        AllocateKeeps(txq, Outstanding(txq), mem);
        txq := Allocate(txq, mem);
        var head, ring := AddChain(txq, TxBufs(page, n));
        if head.None? {
          PostFailed(old(txq), txq, pendingTxq, parked, old(timedOut), exact, covers);
          return Err(ErrQueueFull);
        }
        PostTransferKeeps(old(txq), mem, ring, streamID, frames);
        if !env.doorbell {
          ghost var t := |old(txq.avail)|;
          assert Outstanding(ring) == Outstanding(ring) + {t};
          ReclaimSoundIff(ring, t);
          txq := ReclaimChain(ring, head.value);
          return Err(ErrNotify);
        }
        txq := ring;
        PublishParking(old(txq), txq, pendingTxq, parked, old(timedOut), exact, covers, |old(txq.avail)|);
        PostedPolling(old(txq), txq, streamID, frames);
        return Ok(Parked(head.value, page, PCM_XFER_HDR_SIZE + n));
    }

    /** The own chain was polled: reclaim it and read its trailer. */
    method Settle(own: Parked, streamID: u32, frames: seq<byte>, ghost before: Ring, ghost t: nat, ghost exact: bool, ghost covers: bool)
      returns (r: Result<nat, SoundError>)
      requires Parking(before, {t}, pendingTxq, parked, timedOut, exact, covers)
      requires Polling(before, t, own, streamID, frames)
      requires PolledSince(before, txq, t)
      modifies `txq
      ensures txq == ReclaimChain(old(txq), own.head)
      ensures Parking(txq, {}, old(pendingTxq), old(parked), old(timedOut), exact, covers)
      ensures Carries(txq, t, streamID, frames) && t !in Outstanding(txq)
      ensures Reported(txq, t, before.seen, r, |frames|) && (r.Ok? || r == Err(ErrDeviceStatus))
      // the device's report on this ticket decides
      ensures before.seen < |txq.reports| == |txq.answers| && txq.answers[before.seen] == t && |txq.reports[before.seen]| == PCM_STATUS_SIZE
      ensures r == Ok(|frames|) <==> U32At(txq.reports[before.seen], 0) == SOK
      ensures r == Err(ErrDeviceStatus) <==> U32At(txq.reports[before.seen], 0) != SOK
    {
      hide Inv, U32At, ParkedExactly, ParkedCovers;
      OwnPolled(before, txq, pendingTxq, parked, old(timedOut), exact, covers, t);
      OwnDone(before, txq, t, own, streamID, frames);
      txq := ReclaimChain(txq, own.head);
      var status := txq.mem[own.page][own.statusOff..own.statusOff + PCM_STATUS_SIZE];
      r := if U32At(status, 0) != SOK then Err(ErrDeviceStatus) else Ok(|frames|);
    }

    /**
     One turn of Write's polling loop for the chain `own` describes, ticket `t`: the result
     when its own completion is polled, None otherwise.
     */
    method SpinOnce(own: Parked, streamID: u32, frames: seq<byte>, plan: seq<Completion>, ghost t: nat, ghost exact: bool, ghost covers: bool)
      returns (done: Option<Result<nat, SoundError>>, ghost cs: seq<Completion>)
      requires Parking(txq, {t}, pendingTxq, parked, timedOut, exact, covers)
      requires Polling(txq, t, own, streamID, frames)
      modifies `txq, `pendingTxq, `parked
      ensures Extends(old(txq), txq) && |txq.avail| == t + 1
      ensures done.None? ==> Parking(txq, {t}, pendingTxq, parked, old(timedOut), exact, covers) && Polling(txq, t, own, streamID, frames)
      ensures done.Some? ==> Parking(txq, {}, pendingTxq, parked, old(timedOut), exact, covers)
      ensures done.Some? ==> Carries(txq, t, streamID, frames) && t !in Outstanding(txq)
      ensures done.Some? ==> Reported(txq, t, old(txq.seen), done.value, |frames|) && (done.value.Ok? || done.value == Err(ErrDeviceStatus))
      ensures cs == Acts(old(txq), plan) && txq == Turn(old(txq), cs) && (done.Some? <==> PollsOwn(old(txq), own.head, cs))
    {
      hide Inv, ParkedExactly, ParkedCovers, Polling, Carries, Reported, Extends, PolledTicket, May, Polls, Turn, PolledHead, Acts;
      ghost var before := txq;
      PollingHead(before, t, own, streamID, frames);
      cs := Acts(txq, plan);
      var got, ring, u := PollTurn(txq, plan);
      TurnOf(txq, cs, got, ring);
      AdvancesReclaim(before, ring, own.head);
      txq := ring;
      if got.None? {
        PollingGoesOn(before, ring, ring, t, own, streamID, frames);
        IdlePoll(before, txq, {t}, pendingTxq, parked, old(timedOut), exact, covers);
        return None, cs;
      }
      HeadIdentifiesTicket(ring, Outstanding(before), t, u);
      AdvancesReclaim(before, ring, got.value.head);
      if got.value.head != own.head {
        ReclaimPending(got.value.head, before, u, {t}, exact, covers);
        PollingGoesOn(before, ring, txq, t, own, streamID, frames);
        return None, cs;
      }
      var r := Settle(own, streamID, frames, before, t, exact, covers);
      return Some(r), cs;
    }

    /** Write's polling loop: the own result, or a timeout that parks the chain. */
    method Await(own: Parked, streamID: u32, frames: seq<byte>, device: Script, ghost t: nat, ghost exact: bool, ghost covers: bool)
      returns (r: Result<nat, SoundError>, ghost script: Script)
      requires Parking(txq, {t}, pendingTxq, parked, timedOut, exact, covers)
      requires Polling(txq, t, own, streamID, frames)
      modifies `txq, `pendingTxq, `parked, `timedOut
      ensures Extends(old(txq), txq)
      ensures Parking(txq, {}, pendingTxq, parked, timedOut, exact, covers)
      ensures |txq.avail| == t + 1 && Carries(txq, t, streamID, frames)
      ensures t in Outstanding(txq) <==> r == Err(ErrXferTimeout)
      ensures t !in Outstanding(txq) ==> Reported(txq, t, old(txq.seen), r, |frames|)
      ensures r.Ok? || r == Err(ErrDeviceStatus) || r == Err(ErrXferTimeout)
      ensures timedOut == old(timedOut) + if r == Err(ErrXferTimeout) then {t} else {}
      ensures SpinRun(old(txq), own.head, pollBudget, script) && txq == Turns(old(txq), script) && Follows(old(txq), script, device)
    {
      hide Inv, ParkedExactly, ParkedCovers, Extends, May, Turn, Turns, Misses, SpinRun, PollsOwn, Acts, Follows;
      script := [];
      FollowsNothing(txq, device);
      SpinStarts(txq, own.head);
      for spin := 0 to pollBudget
        invariant Extends(old(txq), txq)
        invariant Parking(txq, {t}, pendingTxq, parked, timedOut, exact, covers) && timedOut == old(timedOut)
        invariant Polling(txq, t, own, streamID, frames)
        invariant |script| == spin && Misses(old(txq), own.head, script) && txq == Turns(old(txq), script)
        invariant Follows(old(txq), script, device)
      {
        ghost var ring := txq;
        var done, cs := SpinOnce(own, streamID, frames, PlanAt(device, spin), t, exact, covers);
        FollowsMore(old(txq), script, cs, device);
        SpinTurn(old(txq), own.head, pollBudget, script, cs, ring);
        ExtendsTransitive(old(txq), ring, txq);
        script := script + [cs];
        if done.Some? {
          ReportedSince(old(txq), ring, txq, t, done.value, |frames|);
          return done.value, script;
        }
      }
      SpinSpent(old(txq), own.head, pollBudget, script);
      ParkOwn(txq, pendingTxq, parked, timedOut, exact, covers, t, own);
      TxGather(txq.mem, own.page, |frames|);
      pendingTxq := pendingTxq + [own];
      parked, timedOut := parked + [t], timedOut + {t};
      return Err(ErrXferTimeout), script;
    }

    /**
     Write: drain, post one transfer and poll for it; on timeout park the chain.
     `exact` and `covers` say which readings of pendingTxq the caller brings and gets back:
     that it lists exactly the outstanding chains (runs of Write alone), and that it lists
     every timed-out chain still outstanding (any run).
     */
    method Write(streamID: u32, frames: seq<byte>, env: Env, ghost exact: bool, ghost covers: bool)
      returns (r: Result<nat, SoundError>, ghost how: How)
      requires Parking(txq, {}, pendingTxq, parked, timedOut, exact, covers)
      requires Fits(|frames|, env.alloc)
      modifies `txq, `pendingTxq, `parked, `timedOut
      ensures Extends(old(txq), txq)
      ensures r != Err(ErrNotify) ==> Parking(txq, {}, pendingTxq, parked, timedOut, exact, covers)
      ensures r == Err(ErrNotify) ==> !env.doorbell && !Sound(txq)
      ensures r != Err(ErrNotify) ==> WriteOutcome(old(txq), txq, streamID, frames, r)
      ensures frames == [] ==> r == Ok(0) && txq == old(txq)
      ensures frames != [] && streamID >= deviceStreams ==> r == Err(ErrStreamIDOutOfRange) && txq == old(txq)
      ensures frames != [] && streamID < deviceStreams ==>
                var refused := Refused(env.alloc, TotalLen(|frames|)); refused.Some? ==> r == Err(refused.value)
      ensures r == Err(SliceOutOfRange) <==> frames != [] && streamID < deviceStreams && Panics(|frames|, env.alloc)
      // recovery: with every parked completion in the used ring, the transfer is published
      ensures exact && old(txq.held) == {} && |txq.desc| >= 3 && |frames| + 12 < U32 ==>
                frames != [] && streamID < deviceStreams && env.alloc == Block(PagesFor(TotalLen(|frames|)) * PAGE_SIZE) && env.doorbell ==>
                  |txq.avail| == |old(txq.avail)| + 1
      ensures r != Err(ErrNotify) ==> Adds(old(txq), txq, old(timedOut), timedOut, r == Err(ErrXferTimeout))
      // the two loops, turn by turn
      ensures frames != [] && streamID < deviceStreams && Postable(|frames|, env) ==>
                && WriteRun(Tx(old(txq), old(pendingTxq)), pollBudget, TxBlock(env.alloc.bytes, streamID, frames), |frames|, how, txq)
                && WriteFollows(Tx(old(txq), old(pendingTxq)), TxBlock(env.alloc.bytes, streamID, frames), |frames|, how, env.device)
      // the drain comes first on every path; then block, free slots and doorbell decide what goes out
      ensures frames != [] && streamID < deviceStreams ==>
                DrainRun(Tx(old(txq), old(pendingTxq)), how.drain) && Follows(old(txq), how.drain, env.device)
      ensures frames != [] && streamID < deviceStreams && (env.alloc.Block? ==> env.alloc.bytes < |frames| + 12) ==>
                Tx(txq, pendingTxq) == TxTurns(Tx(old(txq), old(pendingTxq)), how.drain)
      ensures frames != [] && streamID < deviceStreams && env.alloc.Block? && env.alloc.bytes >= |frames| + 12 ==>
                var free := FreeCount(TxTurns(Tx(old(txq), old(pendingTxq)), how.drain).ring.desc);
                && (r == Err(ErrQueueFull) <==> free < 3)
                && (r == Err(ErrNotify) <==> free >= 3 && !env.doorbell)
                && (|txq.avail| > |old(txq.avail)| <==> free >= 3)
      // once the own completion has been polled, the device's report on the own ticket decides
      ensures r != Err(ErrNotify) && |txq.avail| > |old(txq.avail)| ==>
                && (r == Err(ErrXferTimeout) <==> |old(txq.avail)| in Outstanding(txq))
                && (|old(txq.avail)| !in Outstanding(txq) ==> exists k ::
                      && old(txq.seen) <= k < txq.seen && k < |txq.answers| == |txq.reports|
                      && txq.answers[k] == |old(txq.avail)| && |txq.reports[k]| == PCM_STATUS_SIZE
                      && (r == Ok(|frames|) <==> U32At(txq.reports[k], 0) == SOK)
                      && (r == Err(ErrDeviceStatus) <==> U32At(txq.reports[k], 0) != SOK))
    {
      hide Inv, ParkedExactly, ParkedCovers, WriteRun, WriteFollows, Follows, WriteOutcome, DrainRun, TxTurns, Outstanding, U32At, Adds;
      how := How([], [], []);
      KeptSelf(txq);
      NothingWritten(txq, streamID, frames);
      AddsNothing(txq, txq, txq, timedOut);
      if |frames| == 0 {
        return Ok(0), how;
      }
      if streamID >= deviceStreams {
        return Err(ErrStreamIDOutOfRange), how;
      }
      PagesHoldTransferIff(|frames|);
      r, how := Play(streamID, frames, env, exact, covers);
      if r != Err(ErrNotify) && |txq.avail| > |old(txq.avail)| {
        OutcomeDecides(old(txq), txq, streamID, frames, r);
      }
    }

    /** The rest of Write, once its arguments have been checked. */
    method Play(streamID: u32, frames: seq<byte>, env: Env, ghost exact: bool, ghost covers: bool)
      returns (r: Result<nat, SoundError>, ghost how: How)
      requires Parking(txq, {}, pendingTxq, parked, timedOut, exact, covers)
      requires 0 < |frames| && Fits(|frames|, env.alloc)
      modifies `txq, `pendingTxq, `parked, `timedOut
      ensures Extends(old(txq), txq)
      ensures r != Err(ErrNotify) ==> Parking(txq, {}, pendingTxq, parked, timedOut, exact, covers)
      ensures r == Err(ErrNotify) ==> !env.doorbell && !Sound(txq)
      ensures r != Err(ErrNotify) ==> WriteOutcome(old(txq), txq, streamID, frames, r)
      ensures var refused := Refused(env.alloc, TotalLen(|frames|)); refused.Some? ==> r == Err(refused.value)
      ensures r == Err(SliceOutOfRange) <==> Panics(|frames|, env.alloc)
      ensures exact && old(txq.held) == {} && |txq.desc| >= 3 && env.doorbell && env.alloc.Block? && |frames| + 12 <= env.alloc.bytes ==>
                |txq.avail| == |old(txq.avail)| + 1
      ensures r != Err(ErrNotify) ==> Adds(old(txq), txq, old(timedOut), timedOut, r == Err(ErrXferTimeout))
      ensures Postable(|frames|, env) ==>
                && WriteRun(Tx(old(txq), old(pendingTxq)), pollBudget, TxBlock(env.alloc.bytes, streamID, frames), |frames|, how, txq)
                && WriteFollows(Tx(old(txq), old(pendingTxq)), TxBlock(env.alloc.bytes, streamID, frames), |frames|, how, env.device)
      ensures DrainRun(Tx(old(txq), old(pendingTxq)), how.drain) && Follows(old(txq), how.drain, env.device)
      ensures (env.alloc.Block? ==> env.alloc.bytes < |frames| + 12) ==>
                Tx(txq, pendingTxq) == TxTurns(Tx(old(txq), old(pendingTxq)), how.drain)
      ensures env.alloc.Block? && env.alloc.bytes >= |frames| + 12 ==>
                var free := FreeCount(TxTurns(Tx(old(txq), old(pendingTxq)), how.drain).ring.desc);
                && (r == Err(ErrQueueFull) <==> free < 3)
                && (r == Err(ErrNotify) <==> free >= 3 && !env.doorbell)
                && (|txq.avail| > |old(txq.avail)| <==> free >= 3)
    {
      hide Inv, ParkedExactly, ParkedCovers, Extends, Kept, Adds, DrainRun, SpinRun, WriteRun, WriteOutcome, Carries, Reported;
      hide TxTurns, Turns, Posted, Polling, Published, TxBlock, Follows, WriteFollows;
      ghost var start := Tx(txq, pendingTxq);
      var drain, polls := DrainPendingTxq(env.device, exact, covers);
      DrainRunMay(start, drain);
      TurnsKeep(start.ring, drain);
      ghost var t, drained := |txq.avail|, txq;
      KeptFacts(start.ring, drained);
      var posted := PostTransfer(streamID, frames, env, exact, covers);
      ghost var ring := txq;
      ExtendsTransitive(start.ring, drained, ring);
      if posted.Err? {
        how := How(drain, [], []);
        if posted.error != ErrNotify {
          RefusedOutcome(start.ring, txq, streamID, frames, posted.error);
          AddsNothing(start.ring, drained, txq, timedOut);
        }
        PagesHoldTransferIff(|frames|);
        if Postable(|frames|, env) {
          WriteRunIs(start, pollBudget, TxBlock(env.alloc.bytes, streamID, frames), |frames|, drain, drained, ring, [], txq, env.device);
          how := How(drain, NewSlots(drained, ring), []);
        }
        return Err(posted.error), how;
      }
      ghost var spin;
      r, spin := Await(posted.value, streamID, frames, PlanFrom(env.device, polls), t, exact, covers);
      ExtendsTransitive(start.ring, ring, txq);
      AwaitedOutcome(start.ring, drained, ring, txq, streamID, frames, r);
      AddsOwn(start.ring, drained, ring, streamID, frames, posted.value.head, pollBudget, spin, txq, old(timedOut), r == Err(ErrXferTimeout));
      WriteRunIs(start, pollBudget, TxBlock(env.alloc.bytes, streamID, frames), |frames|, drain, drained, ring, spin, txq, env.device);
      how := How(drain, NewSlots(drained, ring), spin);
    }

    // -------------------------------------------------------------------------
    // async.go: transfers
    // -------------------------------------------------------------------------

    ghost function Cookies(): Registry
      reads this
    {
      Registry(nextCookie, asyncCookies, owner, delivered)
    }

    /**
     WriteAsync: post one transfer and register a cookie for it.  With `track` the caller
     brings, and gets back, a registry that records exactly its outstanding chains.
     */
    method WriteAsync(streamID: u32, frames: seq<byte>, env: Env, ghost covers: bool, ghost track: bool)
      returns (r: Result<nat, SoundError>)
      requires Parking(txq, {}, pendingTxq, parked, timedOut, false, covers)
      requires Fits(|frames|, env.alloc)
      requires track ==> Tracks(txq, Cookies()) && nextCookie + 1 < U64
      modifies `txq, `asyncCookies, `nextCookie, `owner
      ensures Extends(old(txq), txq)
      ensures r != Err(ErrNotify) ==> Parking(txq, {}, old(pendingTxq), old(parked), old(timedOut), false, covers)
      ensures r == Err(ErrNotify) ==> !env.doorbell && !Sound(txq)
      ensures frames == [] ==> r == Ok(0) && txq == old(txq)
      ensures frames != [] && streamID >= deviceStreams ==> r == Err(ErrStreamIDOutOfRange) && txq == old(txq)
      ensures frames != [] && streamID < deviceStreams ==>
                var refused := Refused(env.alloc, TotalLen(|frames|)); refused.Some? ==> r == Err(refused.value)
      ensures r == Err(SliceOutOfRange) <==> frames != [] && streamID < deviceStreams && Panics(|frames|, env.alloc)
      ensures r.Err? || frames == [] ==> Cookies() == old(Cookies())
      ensures r.Ok? && frames != [] ==> Issued(old(txq), txq, streamID, frames, r.value, old(Cookies()), Cookies())
      ensures r.Ok? && frames != [] ==>
                && r.value == nextCookie == (old(nextCookie) + 1) % U64 && |old(txq.avail)| < |txq.avail|
                && r.value in asyncCookies && asyncCookies == old(asyncCookies)[r.value := asyncCookies[r.value]]
                && asyncCookies[r.value].head == txq.avail[|old(txq.avail)|]
                && asyncCookies[r.value].streamID == streamID && asyncCookies[r.value].dataLen == |frames|
      // block, free slots and doorbell decide what goes out, whatever else is in flight
      ensures frames != [] && streamID < deviceStreams && env.alloc.Block? && env.alloc.bytes >= |frames| + 12 ==>
                var free := FreeCount(old(txq.desc));
                && (r.Ok? <==> free >= 3 && env.doorbell)
                && (r == Err(ErrQueueFull) <==> free < 3)
                && (r == Err(ErrNotify) <==> free >= 3 && !env.doorbell)
                && |txq.avail| == |old(txq.avail)| + if free >= 3 then 1 else 0
      ensures frames != [] && streamID < deviceStreams && (env.alloc.Block? ==> env.alloc.bytes < |frames| + 12) ==> r.Err? && txq == old(txq)
      ensures track && r != Err(ErrNotify) ==> Tracks(txq, Cookies())
      ensures r != Err(ErrNotify) ==> Joins(old(txq), txq, old(Cookies()), Cookies())
    {
      hide Inv, ParkedExactly, ParkedCovers, Tracks, Issued, Joins, Extends, Carries, Polling, Posted, Describes, Published, TotalLen;
      NoAsync(txq, Cookies());
      AlignedLogs(txq);
      if |frames| == 0 {
        return Ok(0);
      }
      if streamID >= deviceStreams {
        return Err(ErrStreamIDOutOfRange);
      }
      PagesHoldTransferIff(|frames|);
      var posted := PostTransfer(streamID, frames, env, false, covers);
      if posted.Err? {
        if posted.error != ErrNotify {
          AsyncRefused(old(txq), txq, Cookies());
        }
        return Err(posted.error);
      }
      PollingDescribes(txq, |old(txq.avail)|, posted.value, streamID, frames);
      var cookie := Register(streamID, frames, posted.value, old(txq), track);
      JoinsOwn(old(txq), txq, streamID, frames, cookie, old(Cookies()), Cookies());
      return Ok(cookie);
    }

    /** The end of WriteAsync: hand out the next cookie and record the chain under it. */
    method Register(streamID: u32, frames: seq<byte>, p: Parked, ghost before: Ring, ghost track: bool) returns (cookie: nat)
      requires Posted(before, txq, streamID, frames) && Describes(txq, |before.avail|, p) && |frames| + 12 < U32
      requires track ==> Sound(before) && Tracks(before, Cookies()) && nextCookie + 1 < U64
      modifies `asyncCookies, `nextCookie, `owner
      ensures Issued(before, txq, streamID, frames, cookie, old(Cookies()), Cookies())
      ensures cookie == nextCookie == (old(nextCookie) + 1) % U64 && |before.avail| < |txq.avail|
      ensures cookie in asyncCookies && asyncCookies == old(asyncCookies)[cookie := asyncCookies[cookie]]
      ensures asyncCookies[cookie].head == txq.avail[|before.avail|]
      ensures asyncCookies[cookie].streamID == streamID && asyncCookies[cookie].dataLen == |frames|
      ensures track ==> Tracks(txq, Cookies())
    {
      hide Inv, Tracks, Posted, Issued;
      cookie := Inc64(nextCookie);
      var inf := InflightOf(txq, streamID, |frames|, p);
      nextCookie, asyncCookies, owner := cookie, asyncCookies[cookie := inf], owner[|before.avail| := cookie];
      IssueKeeps(before, txq, streamID, frames, p, old(Cookies()), Cookies());
    }

    /** completeAsyncCookie's search: walk the registry, in whatever order, to a cookie with this head. */
    method FindCookie(head: nat) returns (found: Option<nat>)
      ensures MayFind(asyncCookies, head, found)
    {
      var unvisited := asyncCookies.Keys;
      while unvisited != {}
        invariant unvisited <= asyncCookies.Keys
        invariant forall c | c in asyncCookies && c !in unvisited :: asyncCookies[c].head != head
        decreases |unvisited|
      {
        var cookie :| cookie in unvisited;
        if asyncCookies[cookie].head == head {
          return Some(cookie);
        }
        unvisited := unvisited - {cookie};
      }
      return None;
    }

    /**
     completeAsyncCookie: remove the cookie whose chain has this head and report its
     completion.  In a truthful registry that is the event owed to the polled ticket `t`, and
     no other, whatever the order of the walk.
     */
    method CompleteAsyncCookie(head: nat, ghost before: Ring, ghost t: nat, ghost track: bool) returns (ev: Option<Event>)
      requires track ==> Sound(before) && PolledSince(before, txq, t) && head == txq.avail[t] && Tracks(before, Cookies())
      modifies `asyncCookies, `owner, `delivered
      ensures LookedUp(txq, old(Cookies()), Cookies(), head, ev)
      ensures track ==> Cookies() == After(old(Cookies()), t) && ev == EventOf(old(Cookies()), t, txq.reports[before.seen])
    {
      hide Inv, Tracks, PolledSince, Slice, Outstanding;
      var found := FindCookie(head);
      if track {
        FoundIsOwn(before, txq, t, Cookies(), found);
      }
      ev := None;
      if found.Some? {
        var cookie := found.value;
        var inf := asyncCookies[cookie];
        var statusCode: u32 := SOK;
        var trailer := TrailerOf(txq, inf);
        if Wrap32(inf.blockLen) >= Wrap32(inf.statusOff + PCM_STATUS_SIZE) && |trailer| >= 4 {
          statusCode := U32At(trailer, 0);
        }
        asyncCookies := asyncCookies - {cookie};
        owner := owner - {t};
        delivered := delivered + {cookie};
        ev := Some(Event(WriteComplete, inf.streamID, cookie, inf.dataLen, statusCode, 0));
      }
    }

    /** One turn of the txq loop of ReadEvents. */
    method DrainCompletion(plan: seq<Completion>, ghost covers: bool, ghost track: bool)
      returns (got: bool, ev: Option<Event>, ghost cs: seq<Completion>)
      requires Parking(txq, {}, pendingTxq, parked, timedOut, false, covers)
      requires track ==> Tracks(txq, Cookies())
      modifies `txq, `asyncCookies, `owner, `delivered
      ensures Parking(txq, {}, old(pendingTxq), old(parked), old(timedOut), false, covers)
      ensures Extends(old(txq), txq) && txq.avail == old(txq.avail)
      ensures got ==> |Outstanding(txq)| < |Outstanding(old(txq))|
      ensures !got ==> Unseen(txq) == {}
      ensures SearchTurn(old(txq), old(Cookies()), txq, Cookies(), got, ev)
      ensures track ==> Tracks(txq, Cookies()) && CompletionTurn(old(txq), old(Cookies()), txq, Cookies(), got, ev)
      ensures cs == Acts(old(txq), plan) && txq == Turn(old(txq), cs) && (got <==> Polls(old(txq), cs))
    {
      hide Inv, Tracks, CompletionTurn, SearchTurn, LookedUp, After, EventOf, Extends, PolledTicket, May, Polls, Turn, PolledHead, Acts;
      ghost var before := txq;
      cs := Acts(txq, plan);
      var polled, ring, t := PollTurn(txq, plan);
      TurnOf(txq, cs, polled, ring);
      AdvancesReclaim(txq, ring, if polled.Some? then polled.value.head else 0);
      txq := ring;
      got, ev := polled.Some?, None;
      if got {
        DropPolledCovers(before, ring, pendingTxq, parked, timedOut, covers, t);
        if track {
          TracksAfter(before, ring, t, Cookies());
          TurnDone(before, ring, t, Cookies());
        }
        ev := CompleteAsyncCookie(polled.value.head, before, t, track);
        SearchDone(before, ring, t, old(Cookies()), Cookies(), ev);
        txq := ReclaimChain(txq, polled.value.head);
      } else {
        IdlePoll(before, txq, {}, pendingTxq, parked, timedOut, false, covers);
        SearchIdle(before, txq, Cookies());
        if track {
          TracksIdle(before, txq, Cookies());
          TurnIdle(before, txq, Cookies());
        }
      }
    }

    /** The txq loop of ReadEvents: the events owed for everything the used ring holds, in its order. */
    method DrainCompletions(device: Script, ghost covers: bool, ghost track: bool) returns (out: seq<Event>, ghost script: Script)
      requires Parking(txq, {}, pendingTxq, parked, timedOut, false, covers)
      requires track ==> Tracks(txq, Cookies())
      modifies `txq, `asyncCookies, `owner, `delivered
      ensures Parking(txq, {}, old(pendingTxq), old(parked), old(timedOut), false, covers)
      ensures Unseen(txq) == {}
      ensures ReportedUpTo(old(txq), old(Cookies()), txq, Cookies(), out)
      ensures track ==> Tracks(txq, Cookies()) && DeliveredUpTo(old(txq), old(Cookies()), txq, Cookies(), out)
      ensures Drains(old(txq), script) && txq == Turns(old(txq), script) && Follows(old(txq), script, device)
    {
      hide Inv, Tracks, CompletionTurn, SearchTurn, DeliveredUpTo, ReportedUpTo, May, Polls, Turn, Turns, EachPolls, Drains, Acts, Follows;
      out, script := [], [];
      var polls := 0;
      FollowsNothing(txq, device);
      DrainBegins(txq);
      SoundLogs(txq);
      ReportNone(txq, Cookies());
      var more := true;
      if track {
        DeliverNone(txq, Cookies());
      }
      while more
        invariant Parking(txq, {}, old(pendingTxq), old(parked), old(timedOut), false, covers)
        invariant !more ==> Unseen(txq) == {}
        invariant ReportedUpTo(old(txq), old(Cookies()), txq, Cookies(), out)
        invariant track ==> Tracks(txq, Cookies()) && DeliveredUpTo(old(txq), old(Cookies()), txq, Cookies(), out)
        invariant Follows(old(txq), script, device) && polls == |script|
        invariant txq == Turns(old(txq), script) && if more then EachPolls(old(txq), script) else Drains(old(txq), script)
        decreases more, |Outstanding(txq)|
      {
        ghost var ring, g := txq, Cookies();
        var got, ev, cs := DrainCompletion(PlanAt(device, polls), covers, track);
        FollowsMore(old(txq), script, cs, device);
        DrainStep(old(txq), script, cs, ring);
        script, polls := script + [cs], polls + 1;
        ReportMore(old(txq), old(Cookies()), ring, g, out, txq, Cookies(), got, ev);
        if track {
          DeliverMore(old(txq), old(Cookies()), ring, g, out, txq, Cookies(), got, ev);
        }
        out := out + if ev.Some? then [ev.value] else [];
        more := got;
      }
    }

    // -------------------------------------------------------------------------
    // async.go and sound.go: the eventq
    // -------------------------------------------------------------------------

    /**
     repostEventBuffer: offer the page of the polled slot again, on a free slot if there is
     one: no other page is offered.  The device may use it at once.
     */
    method RepostEventBuffer(head: nat, budget: nat, ghost t: nat) returns (left: nat)
      requires Drawn(eventq, t) && head == eventq.avail[t]
      modifies `eventq
      ensures Recycling(eventq, t, 0) && Extends(old(eventq), eventq) && eventq.seen == old(eventq.seen)
      ensures left + |eventq.used| == budget + |old(eventq.used)|
      ensures if FreeCount(old(eventq.desc)) >= 1 then Reposted(old(eventq), eventq, t) else eventq == old(eventq)
    {
      hide Inv, OnePages, Retired, Circulates, PolledTicket, Recycling, Reposted, Serves, Published, Extends;
      DrawnPage(eventq, t);
      DrawnFree(eventq, t);
      left := budget;
      var buf := eventq.desc[head].buf;
      if head < |eventq.desc| && buf.len > 0 {
        var slot, ring := AddChain(eventq, [EventBuf(buf.page)]);
        if slot.Some? {
          RepostKeeps(eventq, t, ring);
          RecyclingInv(ring, t);
          ghost var cs;
          eventq, left, cs := DeviceRunsWithin(ring, Outstanding(ring) + {t}, budget);
          RepostServed(old(eventq), ring, t, eventq);
        }
      }
    }

    /**
     parseEventqEntry: read the event out of the polled page, then offer the page again, then
     decode what was read.
     */
    method ParseEventqEntry(head: nat, length: nat, budget: nat, ghost t: nat) returns (ev: Option<Event>, left: nat)
      requires Drawn(eventq, t) && head == eventq.avail[t]
      modifies `eventq
      ensures Recycling(eventq, t, 0) && Extends(old(eventq), eventq) && eventq.seen == old(eventq.seen)
      ensures left + |eventq.used| == budget + |old(eventq.used)|
      ensures ev == Decode(old(eventq.reports)[eventq.seen - 1], length)
      ensures if FreeCount(old(eventq.desc)) >= 1 then Reposted(old(eventq), eventq, t) else eventq == old(eventq)
    {
      hide Owns, Blocks, PolledTicket, Recycling, Reposted;
      DrawnPage(eventq, t);
      assert head < |eventq.desc|;
      var buf := eventq.desc[head].buf;
      if buf.len == 0 || length < 8 {
        left := RepostEventBuffer(head, budget, t);
        return None, left;
      }
      var mem := Slice(eventq.mem, Buf(buf.page, buf.off, 8, false));
      var code, data := U32At(mem, 0), U32At(mem, 4);
      assert mem == eventq.reports[eventq.seen - 1][..8];
      PrefixReads(eventq.reports[eventq.seen - 1], mem);
      left := RepostEventBuffer(head, budget, t);
      if code == R_EVT_PCM_PERIOD_ELAPSED {
        ev := Some(Event(PeriodElapsed, data, 0, 0, 0, 0));
      } else if code == R_EVT_PCM_XRUN {
        ev := Some(Event(Xrun, data, 0, 0, 0, 0));
      } else if code == R_EVT_JACK_CONNECTED {
        ev := Some(Event(JackConnected, data, 0, 0, 0, 0));
      } else if code == R_EVT_JACK_DISCONNECTED {
        ev := Some(Event(JackDisconnected, data, 0, 0, 0, 0));
      } else if code == R_EVT_CTL_NOTIFY {
        ev := Some(Event(ControlChanged, 0, 0, 0, 0, data));
      } else {
        ev := None;
      }
    }

    /** One turn of the eventq loop of ReadEvents. */
    method DrainNotification(budget: nat) returns (got: bool, ev: Option<Event>, left: nat)
      requires Stock(eventq)
      modifies `eventq
      ensures Stock(eventq) && NotificationTurn(old(eventq), eventq, got, ev) && EveryPage(eventq) == EveryPage(old(eventq))
      ensures left + |eventq.used| == budget + |old(eventq.used)|
      ensures !got ==> Unseen(eventq) == {}
    {
      hide Owns, Blocks, OnePages, PolledTicket, Extends, NotificationTurn, Recycling, Reposted, EveryPage, Decode;
      ghost var before := eventq;
      var polled, ring, t, rest, cs := PollTurnWithin(eventq, budget);
      AdvancesExtends(before, ring);
      eventq, left := ring, rest;
      got, ev := polled.Some?, None;
      if got {
        PollDraws(before, ring, t);
        PolledPages(before, ring, t);
        ev, left := ParseEventqEntry(polled.value.head, polled.value.len, left, t);
        RecyclingLogs(ring, eventq, t, 0);
        NoticeDone(before, ring, eventq, polled.value.head, ev);
        RecycledPages(ring, eventq, t, polled.value.head);
        RecycleDone(eventq, t);
        eventq := ReclaimChain(eventq, polled.value.head);
      } else {
        StockIdle(before, ring);
        NothingNoticed(before, ring);
      }
    }

    /**
     The eventq loop of ReadEvents, while the device posts at most `budget` more events:
     everything it reported is decoded, in order, and the stock is kept.  Once an event has
     been drained the pages with the device stay the same.
     */
    method DrainNotifications(budget: nat) returns (out: seq<Event>)
      requires Stock(eventq)
      modifies `eventq
      ensures Stock(eventq) && Unseen(eventq) == {}
      ensures NotifiedUpTo(old(eventq), eventq, out)
      ensures exists ks :: Noted(eventq, old(eventq.seen), out, ks)
      ensures EveryPage(eventq) == EveryPage(old(eventq))
      ensures old(eventq.seen) > 0 ==> PagesOf(eventq, Outstanding(eventq)) == PagesOf(old(eventq), Outstanding(old(eventq)))
    {
      hide Inv, OnePages, EveryPage, PagesOf, Noted;
      out := [];
      var more, left: nat := true, budget;
      NotifyNone(eventq);
      while more
        invariant Stock(eventq) && NotifiedUpTo(old(eventq), eventq, out) && EveryPage(eventq) == EveryPage(old(eventq))
        invariant !more ==> Unseen(eventq) == {}
        decreases more, left + |eventq.used| - eventq.seen
      {
        ghost var before := eventq;
        var got, ev, rest := DrainNotification(left);
        NotifyMore(old(eventq), before, out, eventq, got, ev);
        out := out + if ev.Some? then [ev.value] else [];
        more, left := got, rest;
      }
      PagesStay(old(eventq), eventq, out);
      ghost var ks := NotesInOrder(eventq, old(eventq.seen), eventq.seen);
    }

    /** ReadEvents: what was queued, then transfer completions, then device notifications. */
    method ReadEvents(device: Script, budget: nat, ghost covers: bool, ghost track: bool) returns (out: seq<Event>, ghost script: Script)
      requires Parking(txq, {}, pendingTxq, parked, timedOut, false, covers) && Stock(eventq)
      requires track ==> Tracks(txq, Cookies())
      modifies `txq, `eventq, `asyncCookies, `owner, `delivered, `pendingEvents
      ensures Parking(txq, {}, old(pendingTxq), old(parked), old(timedOut), false, covers) && Stock(eventq)
      ensures Unseen(txq) == {} && pendingEvents == []
      ensures Drains(old(txq), script) && txq == Turns(old(txq), script) && Follows(old(txq), script, device)
      ensures track ==> Tracks(txq, Cookies())
      ensures exists events, notes ::
                && out == old(pendingEvents) + events + notes
                && NotifiedUpTo(old(eventq), eventq, notes)
                && ReportedUpTo(old(txq), old(Cookies()), txq, Cookies(), events)
                && (track ==> DeliveredUpTo(old(txq), old(Cookies()), txq, Cookies(), events))
                && (exists ks :: Noted(eventq, old(eventq.seen), notes, ks))
                && (track ==> exists ks :: InOrder(txq, old(Cookies()), old(txq.seen), events, ks))
      ensures Unseen(eventq) == {}
    {
      hide InOrder, Noted;
      hide Inv, ParkedCovers, Tracks, DeliveredUpTo, ReportedUpTo, NotifiedUpTo, Stock, Drains, Turns;
      out := pendingEvents;
      pendingEvents := [];
      var events, turns := DrainCompletions(device, covers, track);
      script := turns;
      if track {
        DrainedForward(old(txq), old(Cookies()), txq, Cookies(), events);
        ghost var ks := DeliveredInOrder(old(txq), old(Cookies()), txq, Cookies(), events);
      }
      var notes := DrainNotifications(budget);
      out := out + events + notes;
    }

    /**
     fillEventRing: one page per slot.  It succeeds exactly when every slot is free and every
     allocation gives a page, and then leaves the stock full.
     */
    method FillEventRing(allocs: seq<Alloc>) returns (r: Result<(), SoundError>)
      requires |allocs| == |eventq.desc|
      requires Filling(eventq, FreeCount(eventq.desc))
      modifies `eventq
      ensures r.Ok? <==> FreeCount(old(eventq.desc)) == |allocs| && forall i | 0 <= i < |allocs| :: allocs[i].Block? && allocs[i].bytes >= PAGE_SIZE
      ensures r.Ok? ==> Stock(eventq)
    {
      hide Inv, OnePages;
      ghost var free := FreeCount(eventq.desc);
      InUseBound(eventq.desc);
      for i := 0 to |allocs|
        invariant Filling(eventq, free - i) && |eventq.desc| == |allocs|
        invariant forall j | 0 <= j < i :: allocs[j].Block? && allocs[j].bytes >= PAGE_SIZE
      {
        InUseBound(eventq.desc);
        match allocs[i]
        case AllocFails => return Err(ErrAlloc);
        case AllocZero => return Err(ErrAllocReturnedZero);
        case Block(bytes) =>
          if PAGE_SIZE > bytes {
            return Err(ErrBufferTooSmall);
          }
          var page := |eventq.mem|;
          var slot, ring := AddChain(Allocate(eventq, Zeros(bytes)), [EventBuf(page)]);
          if slot.None? {
            return Err(ErrQueueFull);
          }
          FillMore(eventq, Zeros(bytes), ring);
          eventq := ring;
      }
      InUseBound(eventq.desc);
      if FreeCount(eventq.desc) == 0 {
        FillDone(eventq);
      }
      return Ok(());
    }
  }
}
