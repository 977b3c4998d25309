/**
 Synchronous exchanges with the device: one chain published, the first completion polled,
 its bytes read back.  controlRoundTrip (sound.go) and Read (capture.go) both work this way:
 neither compares the polled head with its own.
 */
module Exchanges {
  import opened Wrappers
  import opened Bytes
  import opened Types
  import opened Virtqueue
  import opened Scripts

  /** Request, response header and, when one is expected, response payload. */
  function CtrlBufs(page: nat, n: nat, extra: nat): (bufs: seq<Buf>)
    ensures |bufs| == if extra > 0 then 3 else 2
  {
    [Buf(page, 0, n, false), Buf(page, n, HDR_SIZE, true)]
    + if extra > 0 then [Buf(page, n + HDR_SIZE, extra, true)] else []
  }

  /** Header, capture region and status trailer. */
  function RxBufs(page: nat, n: nat): (bufs: seq<Buf>)
    ensures |bufs| == 3
  {
    [Buf(page, 0, PCM_XFER_HDR_SIZE, false),
     Buf(page, PCM_XFER_HDR_SIZE, n, true),
     Buf(page, PCM_XFER_HDR_SIZE + n, PCM_STATUS_SIZE, true)]
  }

  /** Read's chain as it is built, the region's length truncated to 32 bits. */
  function RxChain(page: nat, n: nat): (bufs: seq<Buf>)
    ensures |bufs| == 3
    ensures n < U32 ==> bufs == RxBufs(page, n)
  {
    [Buf(page, 0, PCM_XFER_HDR_SIZE, false),
     Buf(page, PCM_XFER_HDR_SIZE, Wrap32(n), true),
     Buf(page, PCM_XFER_HDR_SIZE + n, PCM_STATUS_SIZE, true)]
  }

  /** The queue is empty: no chain published and not polled, and every slot free. */
  ghost predicate Quiet(r: Ring) {
    Sound(r) && Outstanding(r) == {}
  }

  lemma QuietFree(r: Ring)
    requires Quiet(r)
    ensures FreeCount(r.desc) == |r.desc|
  {
    OwnedCount(r.desc, r.chains, Outstanding(r), 0, 0);
  }

  /** The buffers `bufs` lie in a block of `size` bytes, the first `lo` of which the device may not write. */
  predicate Layout(bufs: seq<Buf>, page: nat, lo: nat, size: nat) {
    && 0 < |bufs| && lo <= size
    && forall i | 0 <= i < |bufs| ::
         bufs[i].page == page && bufs[i].off + bufs[i].len <= size && (bufs[i].writable ==> lo <= bufs[i].off)
  }

  /** Ring r' is ring r, empty, with one chain published over `bufs` in a new block that starts with `told`. */
  ghost predicate Offered(r: Ring, r': Ring, bufs: seq<Buf>, told: seq<byte>) {
    var t, page := |r.avail|, |r.mem|;
    && Sound(r') && Outstanding(r') == {t} && Extends(r, r') && r'.seen == r.seen
    && |r'.avail| == |r'.chains| == t + 1 && r'.chains[t].bufs == bufs
    && |r'.mem| == page + 1 && Layout(bufs, page, |told|, |r'.mem[page]|)
    && r'.mem[page][..|told|] == told
  }

  lemma OfferKeeps(r: Ring, block: seq<byte>, r': Ring, bufs: seq<Buf>, told: seq<byte>)
    requires Quiet(r) && Published(Allocate(r, block), r', bufs)
    requires Layout(bufs, |r.mem|, |told|, |block|) && block[..|told|] == told
    ensures Offered(r, r', bufs, told)
  {
    AllocateKeeps(r, Outstanding(r), block);
    var r1 := Allocate(r, block);
    assert InBlock(r1.mem, r'.chains[|r1.chains|]);
    PublishedKeeps(r1, Outstanding(r), r', bufs);
  }

  lemma OfferExtends(r: Ring, block: seq<byte>, r': Ring, bufs: seq<Buf>)
    requires Published(Allocate(r, block), r', bufs)
    ensures Extends(r, r') && |r'.avail| == |r.avail| + 1
    ensures |r'.mem| == |r.mem| + 1 && |r'.mem[|r.mem|]| == |block|
    ensures |r'.desc| == |r.desc|
  {
  }

  lemma ExtendsSelf(r: Ring, block: seq<byte>)
    ensures Extends(r, r) && Extends(r, Allocate(r, block))
  {
  }

  lemma ReclaimExtends(r: Ring, r': Ring, h: nat)
    requires Extends(r, r')
    ensures Extends(r, ReclaimChain(r', h)) && |r'.desc| == |r.desc|
  {
  }

  /** Reclaiming changes nothing but the descriptors. */
  lemma ReclaimSame(r: Ring, h: nat)
    ensures ReclaimChain(r, h) == r.(desc := ReclaimChain(r, h).desc) && |ReclaimChain(r, h).desc| == |r.desc|
  {
  }

  lemma ReclaimSelf(r: Ring, h: nat)
    ensures Extends(r, ReclaimChain(r, h))
  {
  }

  lemma ExtendsBlock(r: Ring, r': Ring, page: nat)
    requires Extends(r, r') && page < |r.mem|
    ensures page < |r'.mem| && |r'.mem[page]| == |r.mem[page]|
  {
  }

  lemma OfferedSound(r: Ring, r': Ring, bufs: seq<Buf>, told: seq<byte>)
    requires Offered(r, r', bufs, told)
    ensures Sound(r')
  {
  }

  /**
   The next ticket of r was published and its completion was the first one polled; the
   device's report on it is `size` bytes, and the queue is empty again.
   */
  ghost predicate Answered(r: Ring, r': Ring, told: seq<byte>, size: nat) {
    var t := |r.avail|;
    && Quiet(r') && Extends(r, r')
    && |r'.avail| == |r'.chains| == t + 1 && Request(r'.mem, r'.chains[t].bufs) == told
    && r'.seen == r.seen + 1 <= |r'.answers| == |r'.reports| == |r'.used|
    && r'.answers[r.seen] == t && |r'.reports[r.seen]| == size
  }

  /** The next ticket of r was published, and its slots freed although the device still has the chain. */
  ghost predicate Abandoned(r: Ring, r': Ring, told: seq<byte>) {
    var t := |r.avail|;
    && !Sound(r') && Extends(r, r') && r'.seen == r.seen
    && |r'.avail| == |r'.chains| == t + 1 && Request(r'.mem, r'.chains[t].bufs) == told
  }

  /** Nothing was published. */
  ghost predicate Unsent(r: Ring, r': Ring) {
    Quiet(r') && r' == r.(mem := r'.mem)
  }

  lemma StillQuiet(r: Ring, block: seq<byte>)
    requires Quiet(r)
    ensures Unsent(r, r) && Unsent(r, Allocate(r, block))
  {
    AllocateKeeps(r, Outstanding(r), block);
  }

  // ---------------------------------------------------------------------------
  // Polling
  // ---------------------------------------------------------------------------

  lemma ServesTransitive(a: Ring, b: Ring, c: Ring)
    requires Serves(a, b) && Serves(b, c)
    ensures Serves(a, c)
  {
    forall p, o | 0 <= p < |a.mem| && 0 <= o < |a.mem[p]| && !DeviceMayWrite(a, p, o)
      ensures c.mem[p][o] == a.mem[p][o]
    {
      assert !DeviceMayWrite(b, p, o);
      assert b.mem[p][o] == a.mem[p][o];
    }
  }

  lemma IdleThenTurn(a: Ring, b: Ring, c: Ring, u: nat)
    requires Advances(a, b) && b.seen == a.seen && Advances(b, c)
    ensures Advances(a, c) && Extends(a, c) && c.avail == a.avail
    ensures Sound(a) && Sound(b) && Outstanding(b) == Outstanding(a) && PolledSince(b, c, u) ==> PolledSince(a, c, u)
  {
    ServesTransitive(a, b, c.(seen := b.seen));
  }

  /** Turns that find nothing to poll leave the ring as it was. */
  lemma {:induction false} IdleTurns(r: Ring, script: Script)
    requires Logs(r) && NonePolls(r, script)
    ensures Turns(r, script) == r
    decreases |script|
  {
    hide May;
    if |script| > 0 {
      DoesCounts(r, script[0]);
      IdleTurns(r, script[1..]);
    }
  }

  /** Every completion adds a used entry, and none moves the driver's position. */
  lemma {:induction false} DoesCounts(r: Ring, cs: seq<Completion>)
    requires May(r, cs)
    ensures |Does(r, cs).used| == |r.used| + |cs| && Does(r, cs).seen == r.seen
    ensures |cs| == 0 ==> Does(r, cs) == r
    decreases |cs|
  {
    if |cs| > 0 {
      DoesCounts(r, cs[..|cs| - 1]);
    }
  }

  /** Poll until a completion shows up or the budget is spent. */
  method AwaitFirst(r: Ring, budget: nat, device: Script) returns (got: Option<Used>, r': Ring, ghost u: nat, ghost script: Script)
    ensures Advances(r, r') && Extends(r, r') && r'.avail == r.avail
    ensures r'.seen == r.seen + (if got.Some? then 1 else 0)
    ensures got.Some? ==> r'.seen <= |r'.used| && got.value == r'.used[r.seen]
    ensures Sound(r) && got.None? ==> Sound(r') && Outstanding(r') == Outstanding(r)
    ensures Sound(r) && got.Some? ==> PolledSince(r, r', u) && got.value.head == r'.avail[u]
    // turn by turn: none, with the whole budget spent, or all but the last find nothing
    ensures FirstRun(r, budget, script, got.Some?) && Follows(r, script, device)
    ensures Turns(r, script) == if got.Some? then ReclaimChain(r', got.value.head) else r'
    ensures budget > 0 && r.seen < |r.used| ==> got.Some?
  {
    hide Inv, Logs, Advances, Extends, PolledTicket, May, Does, Turns, Turned, NonePolls, ReclaimChain, Acts, Follows;
    got, r', u, script := None, r, 0, [];
    IdleSelf(r);
    FirstStarts(r);
    FollowsNothing(r, device);
    for spin := 0 to budget
      invariant got.None? && Advances(r, r') && Extends(r, r') && r'.avail == r.avail && r'.seen == r.seen
      invariant Sound(r) ==> Sound(r') && Outstanding(r') == Outstanding(r)
      invariant |script| == spin && NonePolls(r, script) && r' == Turns(r, script) && Follows(r, script, device)
    {
      ghost var before, cs := r', Acts(r', PlanAt(device, spin));
      got, r', u := PollTurn(r', PlanAt(device, spin));
      FollowsMore(r, script, cs, device);
      FirstTurn(r, budget, script, before, cs, got, r');
      IdleThenTurn(r, before, r', u);
      script := script + [cs];
      if got.Some? {
        return;
      }
    }
    if budget > 0 {
      SomePolls(r, script);
    }
  }

  lemma IdleSelf(r: Ring)
    ensures Advances(r, r) && Extends(r, r)
  {
  }

  /** The only outstanding chain's completion is the only one there is to poll. */
  lemma FirstIsOwn(r: Ring, offered: Ring, r': Ring, bufs: seq<Buf>, told: seq<byte>, u: nat)
    requires Offered(r, offered, bufs, told) && PolledSince(offered, r', u)
    ensures u == |r.avail| && Quiet(ReclaimChain(r', r'.avail[u]))
    ensures |r'.reports| == |r'.answers| == |r'.used| && r'.answers[r.seen] == u
    ensures r'.reports[r.seen] == Gather(r'.mem, bufs)
    ensures r'.mem[|r.mem|][..|told|] == told && |r'.mem[|r.mem|]| == |offered.mem[|r.mem|]|
    ensures Extends(r, ReclaimChain(r', r'.avail[u]))
  {
    assert Outstanding(r') + {u} == Outstanding(offered);
    ReclaimPolled(r', u);
    DeviceKeepsPrefix(offered, Outstanding(offered), r', u, |told|);
  }

  /** With no completion in time, the chain is reclaimed all the same. */
  lemma GaveUp(r: Ring, offered: Ring, r': Ring, bufs: seq<Buf>, told: seq<byte>)
    requires Offered(r, offered, bufs, told) && Advances(offered, r') && r'.seen == offered.seen
    requires Sound(r') && Outstanding(r') == Outstanding(offered)
    ensures !Sound(ReclaimChain(r', r'.avail[|r.avail|]))
    ensures r'.mem[|r.mem|][..|told|] == told && |r'.mem[|r.mem|]| == |offered.mem[|r.mem|]|
    ensures Extends(r, ReclaimChain(r', r'.avail[|r.avail|]))
  {
    var t := |r.avail|;
    assert Outstanding(r') + {t} == Outstanding(r');
    ReclaimSoundIff(r', t);
    DeviceKeepsPrefix(offered, Outstanding(offered), r', t, |told|);
  }

  // ---------------------------------------------------------------------------
  // Control exchanges
  // ---------------------------------------------------------------------------

  /** What the chain's buffers say of the block they lie in. */
  lemma CtrlGather(mem: seq<seq<byte>>, page: nat, n: nat, extra: nat)
    requires page < |mem| && n + HDR_SIZE + extra <= |mem[page]|
    ensures Gather(mem, CtrlBufs(page, n, extra)) == mem[page][n..n + HDR_SIZE + extra]
    ensures Request(mem, CtrlBufs(page, n, extra)) == mem[page][..n]
  {
    var b, m := CtrlBufs(page, n, extra), mem[page];
    if extra > 0 {
      assert b[1..] == [b[1], b[2]] && [b[1], b[2]][1..] == [b[2]] && [b[2]][1..] == [];
      assert Gather(mem, [b[2]]) == Slice(mem, b[2]) + Gather(mem, []);
      assert Gather(mem, [b[1], b[2]]) == Slice(mem, b[1]) + Gather(mem, [b[2]]);
      assert Request(mem, [b[2]]) == [] + Request(mem, []);
      assert Request(mem, [b[1], b[2]]) == [] + Request(mem, [b[2]]);
    } else {
      assert b[1..] == [b[1]] && [b[1]][1..] == [];
      assert Gather(mem, [b[1]]) == Slice(mem, b[1]) + Gather(mem, []);
      assert Request(mem, [b[1]]) == [] + Request(mem, []);
    }
  }

  /** The response code and payload in the device's report. */
  function Response(report: seq<byte>): (u32, seq<byte>)
    requires |report| >= HDR_SIZE
  {
    (U32At(report, 0), report[HDR_SIZE..])
  }

  lemma ResponseRead(mem: seq<byte>, n: nat, extra: nat)
    requires n + HDR_SIZE + extra <= |mem|
    ensures Response(mem[n..n + HDR_SIZE + extra]) == (U32At(mem, n), mem[n + HDR_SIZE..n + HDR_SIZE + extra])
  {
    SubSlice(mem, n, n + HDR_SIZE + extra, 0, 4);
    SubSlice(mem, n, n + HDR_SIZE + extra, HDR_SIZE, HDR_SIZE + extra);
  }

  /** The 32-bit total length of a control exchange's buffers wraps. */
  predicate Wraps(n: nat, extra: nat) {
    n + HDR_SIZE + extra >= U32
  }

  /**
   What one control exchange on an empty queue comes to.  An answer is the device's own report
   on this request; the queue is empty afterwards unless the exchange timed out or its
   doorbell failed.  When the total length wraps there is no answer, and past the allocation
   nothing is claimed of the queue.
   */
  ghost predicate CtrlOutcome(r: Ring, r': Ring, req: seq<byte>, extra: nat, res: Result<(u32, seq<byte>), SoundError>) {
    match res
    case Ok(answer) =>
      !Wraps(|req|, extra) && Answered(r, r', req, HDR_SIZE + extra) && answer == Response(r'.reports[r.seen])
    case Err(e) =>
      if e == ErrControlTimeout || e == ErrNotify then Wraps(|req|, extra) || Abandoned(r, r', req)
      else if e == SliceOutOfRange then Wraps(|req|, extra)
      else Unsent(r, r') && e in {ErrAlloc, ErrAllocReturnedZero, ErrBufferTooSmall, ErrQueueFull}
  }

  lemma CtrlRefused(r: Ring, r': Ring, req: seq<byte>, extra: nat)
    requires Unsent(r, r')
    ensures forall e | e in {ErrAlloc, ErrAllocReturnedZero, ErrBufferTooSmall, ErrQueueFull} :: CtrlOutcome(r, r', req, extra, Err(e))
    ensures |r'.avail| == |r.avail|
  {
  }

  lemma CtrlWrapped(r: Ring, r': Ring, req: seq<byte>, extra: nat)
    requires Wraps(|req|, extra)
    ensures forall e | e in {ErrControlTimeout, ErrNotify, SliceOutOfRange} :: CtrlOutcome(r, r', req, extra, Err(e))
  {
  }

  /** What a command without payload makes of its exchange. */
  function Verdict(exchange: Result<(u32, seq<byte>), SoundError>): Result<(), SoundError> {
    match exchange
    case Err(e) => Err(e)
    case Ok(answer) => if answer.0 == SOK then Ok(()) else Err(ErrDeviceStatus)
  }

  /** One command: nothing was sent and it failed, or exactly `req` was and the device's answer decides. */
  ghost predicate Commanded(q: Ring, q': Ring, req: seq<byte>, r: Result<(), SoundError>) {
    || (r.Err? && q' == q)
    || exists exchange :: CtrlOutcome(q, q', req, 0, exchange) && r == Verdict(exchange)
  }

  lemma CommandSent(q: Ring, q': Ring, req: seq<byte>, exchange: Result<(u32, seq<byte>), SoundError>)
    requires CtrlOutcome(q, q', req, 0, exchange)
    ensures Commanded(q, q', req, Verdict(exchange))
  {
  }

  lemma CommandRefused(q: Ring, req: seq<byte>)
    ensures forall e :: Commanded(q, q, req, Err(e))
  {
  }

  lemma CommandQuiet(q: Ring, q': Ring, req: seq<byte>, r: Result<(), SoundError>)
    requires Quiet(q) && Commanded(q, q', req, r)
    ensures Quiet(q') || (r.Err? && r.error in {ErrControlTimeout, ErrNotify, SliceOutOfRange})
  {
    hide CtrlOutcome;
    if !(r.Err? && q' == q) {
      var exchange :| CtrlOutcome(q, q', req, 0, exchange) && r == Verdict(exchange);
      CtrlQuiet(q, q', req, 0, exchange);
    }
  }

  /** An exchange that did not give up, and was not cut short by a slice panic, leaves the queue empty. */
  lemma CtrlQuiet(r: Ring, r': Ring, req: seq<byte>, extra: nat, res: Result<(u32, seq<byte>), SoundError>)
    requires CtrlOutcome(r, r', req, extra, res)
    ensures Quiet(r') || (res.Err? && res.error in {ErrControlTimeout, ErrNotify, SliceOutOfRange})
  {
  }

  /** Ticket `t` has a buffer that runs past the block it was allocated in. */
  ghost predicate RunsPast(r: Ring, t: nat) {
    t < |r.chains| && exists i :: 0 <= i < |r.chains[t].bufs| && Past(r.mem, r.chains[t].bufs[i])
  }

  predicate Past(mem: seq<seq<byte>>, b: Buf) {
    b.page < |mem| && b.off + b.len > |mem[b.page]|
  }

  /** A chain laid out up to the end of its last buffer stays inside its block exactly when that end does. */
  lemma OfferRunsPast(r: Ring, block: seq<byte>, r': Ring, bufs: seq<Buf>)
    requires Published(Allocate(r, block), r', bufs)
    requires var last := bufs[|bufs| - 1];
             forall i | 0 <= i < |bufs| :: bufs[i].page == |r.mem| && bufs[i].off + bufs[i].len <= last.off + last.len
    ensures |r'.chains| == |r.chains| + 1
    ensures var last := bufs[|bufs| - 1]; RunsPast(r', |r.chains|) <==> last.off + last.len > |block|
  {
    var last := bufs[|bufs| - 1];
    assert r'.chains[|r.chains|].bufs == bufs;
    if last.off + last.len > |block| {
      assert Past(r'.mem, r'.chains[|r.chains|].bufs[|bufs| - 1]);
    }
  }

  /** Ticket `t` was published over blocks of this queue. */
  ghost predicate Placed(r: Ring, t: nat) {
    t < |r.chains| && forall i | 0 <= i < |r.chains[t].bufs| :: r.chains[t].bufs[i].page < |r.mem|
  }

  lemma OfferPlaced(r: Ring, block: seq<byte>, r': Ring, bufs: seq<Buf>)
    requires Published(Allocate(r, block), r', bufs) && forall i | 0 <= i < |bufs| :: bufs[i].page == |r.mem|
    ensures Placed(r', |r.chains|)
  {
  }

  /** Blocks keep their lengths and chains their buffers. */
  lemma PlacedRunsPast(r: Ring, r': Ring, t: nat)
    requires Extends(r, r') && Placed(r, t)
    ensures RunsPast(r, t) <==> RunsPast(r', t)
  {
    if RunsPast(r, t) {
      var i :| 0 <= i < |r.chains[t].bufs| && Past(r.mem, r.chains[t].bufs[i]);
      assert Past(r'.mem, r'.chains[t].bufs[i]);
    }
    if RunsPast(r', t) {
      var i :| 0 <= i < |r.chains[t].bufs| && Past(r'.mem, r.chains[t].bufs[i]);
      assert Past(r.mem, r.chains[t].bufs[i]);
    }
  }

  lemma NotPublished(r: Ring, block: seq<byte>)
    ensures !RunsPast(r, |r.chains|) && !RunsPast(Allocate(r, block), |r.chains|)
  {
  }

  /** The length check is passed, because the total wraps, by a block that does not hold the buffers. */
  predicate Defeated(total: nat, wrapped: nat, least: nat, alloc: Alloc) {
    total >= U32 && alloc.Block? && wrapped <= alloc.bytes < total && least <= alloc.bytes
  }

  lemma CtrlLayout(page: nat, n: nat, extra: nat, size: nat)
    requires n + HDR_SIZE + extra <= size
    ensures Layout(CtrlBufs(page, n, extra), page, n, size)
  {
  }

  lemma CtrlAnswered(r: Ring, offered: Ring, r': Ring, req: seq<byte>, extra: nat, u: nat)
    requires Offered(r, offered, CtrlBufs(|r.mem|, |req|, extra), req) && PolledSince(offered, r', u)
    ensures var r2 := ReclaimChain(r', r'.avail[u]);
            && Answered(r, r2, req, HDR_SIZE + extra)
            && |r.mem| < |r2.mem| && |req| + HDR_SIZE + extra <= |r2.mem[|r.mem|]|
            && r2.reports[r.seen] == r2.mem[|r.mem|][|req|..|req| + HDR_SIZE + extra]
  {
    var bufs := CtrlBufs(|r.mem|, |req|, extra);
    FirstIsOwn(r, offered, r', bufs, req, u);
    assert |req| + HDR_SIZE + extra <= |offered.mem[|r.mem|]| by {
      var last := bufs[|bufs| - 1];
      assert last.off + last.len <= |offered.mem[|r.mem|]|;
    }
    CtrlGather(r'.mem, |r.mem|, |req|, extra);
  }

  lemma CtrlDone(r: Ring, r': Ring, req: seq<byte>, extra: nat)
    requires Answered(r, r', req, HDR_SIZE + extra) && !Wraps(|req|, extra)
    requires |r.mem| < |r'.mem| && |req| + HDR_SIZE + extra <= |r'.mem[|r.mem|]|
    requires r'.reports[r.seen] == r'.mem[|r.mem|][|req|..|req| + HDR_SIZE + extra]
    ensures CtrlOutcome(r, r', req, extra, Ok(Response(r'.mem[|r.mem|][|req|..|req| + HDR_SIZE + extra])))
  {
  }

  lemma CtrlTimedOut(r: Ring, r': Ring, req: seq<byte>, extra: nat)
    requires Abandoned(r, r', req)
    ensures CtrlOutcome(r, r', req, extra, Err(ErrControlTimeout))
  {
  }

  lemma CtrlGaveUp(r: Ring, offered: Ring, r': Ring, req: seq<byte>, extra: nat)
    requires Offered(r, offered, CtrlBufs(|r.mem|, |req|, extra), req) && Advances(offered, r') && r'.seen == offered.seen
    requires Sound(r') && Outstanding(r') == Outstanding(offered)
    ensures Abandoned(r, ReclaimChain(r', r'.avail[|r.avail|]), req)
  {
    var bufs := CtrlBufs(|r.mem|, |req|, extra);
    GaveUp(r, offered, r', bufs, req);
    assert |req| + HDR_SIZE + extra <= |offered.mem[|r.mem|]| by {
      var last := bufs[|bufs| - 1];
      assert last.off + last.len <= |offered.mem[|r.mem|]|;
    }
    CtrlGather(r'.mem, |r.mem|, |req|, extra);
  }

  /** A failed doorbell: the chain is reclaimed although it is published. */
  lemma CtrlUnrung(r: Ring, offered: Ring, req: seq<byte>, extra: nat)
    requires Offered(r, offered, CtrlBufs(|r.mem|, |req|, extra), req)
    ensures Abandoned(r, ReclaimChain(offered, offered.avail[|r.avail|]), req)
    ensures CtrlOutcome(r, ReclaimChain(offered, offered.avail[|r.avail|]), req, extra, Err(ErrNotify))
  {
    IdleSelf(offered);
    CtrlGaveUp(r, offered, offered, req, extra);
  }

  /** Everything about a control chain that has just been published. */
  lemma CtrlPublished(r: Ring, block: seq<byte>, ring: Ring, req: seq<byte>, extra: nat)
    requires Published(Allocate(r, block), ring, CtrlBufs(|r.mem|, |req|, extra))
    requires |req| <= |block| && block[..|req|] == req
    requires Wraps(|req|, extra) || |req| + HDR_SIZE + extra <= |block|
    ensures |ring.avail| == |r.avail| + 1 && |ring.desc| == |r.desc| && |r.mem| < |ring.mem| && |ring.mem[|r.mem|]| == |block|
    ensures Extends(r, ring) && Extends(r, ReclaimChain(ring, ring.avail[|r.avail|]))
    ensures var q := ReclaimChain(ring, ring.avail[|r.avail|]); |q.avail| == |ring.avail| && |q.desc| == |ring.desc|
    ensures Placed(ring, |r.chains|)
    ensures RunsPast(ring, |r.chains|) <==> |block| < |req| + HDR_SIZE + extra
    ensures RunsPast(ReclaimChain(ring, ring.avail[|r.avail|]), |r.chains|) <==> |block| < |req| + HDR_SIZE + extra
    ensures Quiet(r) && !Wraps(|req|, extra) ==> Offered(r, ring, CtrlBufs(|r.mem|, |req|, extra), req)
    ensures Quiet(r) ==> CtrlOutcome(r, ReclaimChain(ring, ring.avail[|r.avail|]), req, extra, Err(ErrNotify))
  {
    hide Quiet, CtrlOutcome, Offered, Layout, Published, RunsPast, Extends, Past, Placed;
    var bufs := CtrlBufs(|r.mem|, |req|, extra);
    OfferExtends(r, block, ring, bufs);
    var h := ring.avail[|r.avail|];
    ReclaimExtends(r, ring, h);
    ReclaimSelf(ring, h);
    OfferRunsPast(r, block, ring, bufs);
    OfferPlaced(r, block, ring, bufs);
    PlacedRunsPast(ring, ReclaimChain(ring, h), |r.chains|);
    if Wraps(|req|, extra) {
      CtrlWrapped(r, ReclaimChain(ring, h), req, extra);
    } else if Quiet(r) {
      CtrlLayout(|r.mem|, |req|, extra, |block|);
      OfferKeeps(r, block, ring, bufs, req);
      CtrlUnrung(r, ring, req, extra);
    }
  }

  // ---------------------------------------------------------------------------
  // Captures
  // ---------------------------------------------------------------------------

  lemma RxGather(mem: seq<seq<byte>>, page: nat, n: nat)
    requires page < |mem| && n + 12 <= |mem[page]|
    ensures Gather(mem, RxBufs(page, n)) == mem[page][4..n + 12]
    ensures Request(mem, RxBufs(page, n)) == mem[page][..4]
  {
    var b := RxBufs(page, n);
    assert b[1..] == [b[1], b[2]] && [b[1], b[2]][1..] == [b[2]] && [b[2]][1..] == [];
    assert Gather(mem, [b[2]]) == Slice(mem, b[2]) + Gather(mem, []);
    assert Gather(mem, [b[1], b[2]]) == Slice(mem, b[1]) + Gather(mem, [b[2]]);
    assert Request(mem, [b[2]]) == [] + Request(mem, []);
    assert Request(mem, [b[1], b[2]]) == [] + Request(mem, [b[2]]);
  }

  /** How many of n bytes a completion of device-reported length `len` is taken to have captured. */
  function Captured(len: nat, n: nat): (k: nat)
    ensures k <= n
    ensures PCM_STATUS_SIZE <= len <= n + PCM_STATUS_SIZE ==> k == len - PCM_STATUS_SIZE
  {
    if PCM_STATUS_SIZE <= len < n + PCM_STATUS_SIZE then len - PCM_STATUS_SIZE else n
  }

  /** What one Read of n bytes on an empty queue comes to; `data` is what it copied out. */
  ghost predicate RxOutcome(r: Ring, r': Ring, streamID: u32, n: nat, res: Result<nat, SoundError>, data: seq<byte>) {
    if res.Ok? || res == Err(ErrDeviceStatus) then
      && Answered(r, r', Le32(streamID), n + PCM_STATUS_SIZE)
      && var report := r'.reports[r.seen];
      && (res.Ok? <==> U32At(report, n) == SOK)
      && (res.Ok? ==> res.value == Captured(r'.used[r.seen].len, n) && data == report[..res.value])
    else if res == Err(ErrXferTimeout) || res == Err(ErrNotify) then Abandoned(r, r', Le32(streamID))
    else Unsent(r, r') && res.error in {ErrStreamIDOutOfRange, ErrAlloc, ErrAllocReturnedZero, ErrBufferTooSmall, ErrQueueFull}
  }

  lemma RxRefused(r: Ring, r': Ring, streamID: u32, n: nat)
    requires Unsent(r, r')
    ensures forall e | e in {ErrStreamIDOutOfRange, ErrAlloc, ErrAllocReturnedZero, ErrBufferTooSmall, ErrQueueFull} ::
              RxOutcome(r, r', streamID, n, Err(e), [])
  {
  }

  lemma RxAnswered(r: Ring, offered: Ring, r': Ring, streamID: u32, n: nat, u: nat)
    requires Offered(r, offered, RxBufs(|r.mem|, n), Le32(streamID)) && PolledSince(offered, r', u)
    ensures var r2 := ReclaimChain(r', r'.avail[u]);
            && Answered(r, r2, Le32(streamID), n + PCM_STATUS_SIZE)
            && |r.mem| < |r2.mem| && n + 12 <= |r2.mem[|r.mem|]|
            && r2.reports[r.seen] == r2.mem[|r.mem|][4..n + 12]
            && r2.used == r'.used
  {
    var bufs := RxBufs(|r.mem|, n);
    FirstIsOwn(r, offered, r', bufs, Le32(streamID), u);
    assert bufs[2].off + bufs[2].len <= |offered.mem[|r.mem|]|;
    RxGather(r'.mem, |r.mem|, n);
  }

  lemma RxGaveUp(r: Ring, offered: Ring, r': Ring, streamID: u32, n: nat)
    requires Offered(r, offered, RxBufs(|r.mem|, n), Le32(streamID)) && Advances(offered, r') && r'.seen == offered.seen
    requires Sound(r') && Outstanding(r') == Outstanding(offered)
    ensures Abandoned(r, ReclaimChain(r', r'.avail[|r.avail|]), Le32(streamID))
    ensures RxOutcome(r, ReclaimChain(r', r'.avail[|r.avail|]), streamID, n, Err(ErrXferTimeout), [])
  {
    var bufs := RxBufs(|r.mem|, n);
    GaveUp(r, offered, r', bufs, Le32(streamID));
    assert bufs[2].off + bufs[2].len <= |offered.mem[|r.mem|]|;
    RxGather(r'.mem, |r.mem|, n);
  }

  lemma RxUnrung(r: Ring, offered: Ring, streamID: u32, n: nat)
    requires Offered(r, offered, RxBufs(|r.mem|, n), Le32(streamID))
    ensures Abandoned(r, ReclaimChain(offered, offered.avail[|r.avail|]), Le32(streamID))
  {
    IdleSelf(offered);
    RxGaveUp(r, offered, offered, streamID, n);
  }

  /** What Read makes of an answered request, in terms of the bytes in its block. */
  lemma RxDone(r: Ring, r': Ring, streamID: u32, n: nat)
    requires Answered(r, r', Le32(streamID), n + PCM_STATUS_SIZE)
    requires |r.mem| < |r'.mem| && n + 12 <= |r'.mem[|r.mem|]| && r'.reports[r.seen] == r'.mem[|r.mem|][4..n + 12]
    ensures var mem, k := r'.mem[|r.mem|], Captured(r'.used[r.seen].len, n);
            if U32At(mem, PCM_XFER_HDR_SIZE + n) == SOK
            then RxOutcome(r, r', streamID, n, Ok(k), mem[PCM_XFER_HDR_SIZE..PCM_XFER_HDR_SIZE + k])
            else RxOutcome(r, r', streamID, n, Err(ErrDeviceStatus), [])
  {
    hide Quiet, Extends, Le32;
    var mem := r'.mem[|r.mem|];
    TrailerRead(mem, n);
    var k := Captured(r'.used[r.seen].len, n);
    SubSlice(mem, 4, n + 12, 0, k);
  }

  /** The trailer follows the captured bytes in the report. */
  lemma TrailerRead(mem: seq<byte>, n: nat)
    requires n + 12 <= |mem|
    ensures U32At(mem[4..n + 12], n) == U32At(mem, 4 + n)
  {
    SubSlice(mem, 4, n + 12, n, n + 4);
  }

  lemma RxLayout(page: nat, n: nat, size: nat)
    requires n + 12 <= size
    ensures Layout(RxBufs(page, n), page, PCM_XFER_HDR_SIZE, size)
  {
  }

  /** Everything about a capture chain that has just been published. */
  lemma RxPublished(r: Ring, block: seq<byte>, ring: Ring, streamID: u32, n: nat)
    requires Published(Allocate(r, block), ring, RxChain(|r.mem|, n))
    requires PCM_XFER_HDR_SIZE <= |block| && block[..PCM_XFER_HDR_SIZE] == Le32(streamID)
    requires n + 12 < U32 ==> n + 12 <= |block|
    ensures |ring.avail| == |r.avail| + 1 && |r.mem| < |ring.mem| && |ring.mem[|r.mem|]| == |block|
    ensures Extends(r, ring) && Extends(r, ReclaimChain(ring, ring.avail[|r.avail|]))
    ensures Placed(ring, |r.chains|)
    ensures RunsPast(ring, |r.chains|) <==> |block| < n + 12
    ensures RunsPast(ReclaimChain(ring, ring.avail[|r.avail|]), |r.chains|) <==> |block| < n + 12
    ensures Quiet(r) && n + 12 < U32 ==>
              && Offered(r, ring, RxBufs(|r.mem|, n), Le32(streamID))
              && RxOutcome(r, ReclaimChain(ring, ring.avail[|r.avail|]), streamID, n, Err(ErrNotify), [])
  {
    hide Quiet, Offered, Layout, Published, RunsPast, Extends, Past, Placed, Abandoned, Le32;
    OfferExtends(r, block, ring, RxChain(|r.mem|, n));
    var h := ring.avail[|r.avail|];
    ReclaimExtends(r, ring, h);
    ReclaimSelf(ring, h);
    WrapSmall(n);
    OfferRunsPast(r, block, ring, RxChain(|r.mem|, n));
    OfferPlaced(r, block, ring, RxChain(|r.mem|, n));
    PlacedRunsPast(ring, ReclaimChain(ring, h), |r.chains|);
    if Quiet(r) && n + 12 < U32 {
      RxLayout(|r.mem|, n, |block|);
      OfferKeeps(r, block, ring, RxBufs(|r.mem|, n), Le32(streamID));
      RxUnrung(r, ring, streamID, n);
    }
  }
}
