/**
 The synchronous half of the driver: controlRoundTrip and the stream registry (sound.go), the
 PCM commands (pcm.go), the mixer controls (controls.go) and capture (capture.go).  It shares
 no state with the txq and the eventq.
 */
module Sync {
  import opened Wrappers
  import opened Bytes
  import opened Types
  import opened Bits
  import opened Messages
  import opened Virtqueue
  import opened Transfers
  import opened Scripts
  import opened Exchanges
  import opened Answers
  import opened Pcm
  import opened Mixer

  /** A record's slice bounds, computed in 32 bits, are in order exactly when the record is inside the payload. */
  lemma SliceBounds(at: nat, size: nat, len: nat)
    requires at <= len < U32 && size <= CTL_INFO_ENTRY_SIZE && (at == 0 || at >= size)
    ensures Wrap32(at) == at
    ensures Wrap32(at) <= Wrap32(at + size) <= len <==> at + size <= len
    ensures at + size <= len ==> Wrap32(at + size) == at + size
  {
  }

  /** Requests for PCM info never wrap the 32-bit total: a multiple of 32, plus 20. */
  lemma InfoNeverWraps(count: u32)
    ensures 16 + HDR_SIZE + Wrap32(count * PCM_INFO_ENTRY_SIZE) < U32
  {
    var q := count * PCM_INFO_ENTRY_SIZE / 0x1_0000_0000;
    assert Wrap32(count * PCM_INFO_ENTRY_SIZE) == 32 * (count - q * 0x800_0000);
  }

  /** Record i of the payload is record i of the block it was read from. */
  lemma InfosInBlock(mem: seq<byte>, payload: seq<byte>, count: u32)
    requires |payload| == count * PCM_INFO_ENTRY_SIZE && 20 + |payload| <= |mem| && payload == mem[20..20 + |payload|]
    ensures forall i | 0 <= i < count :: PCMInfos(payload, count)[i] == DecodePCMInfo(mem[20 + 32 * i..52 + 32 * i])
  {
    hide DecodePCMInfo;
    forall i | 0 <= i < count
      ensures PCMInfos(payload, count)[i] == DecodePCMInfo(mem[20 + 32 * i..52 + 32 * i])
    {
      SubSlice(mem, 20, 20 + |payload|, 32 * i, 32 * i + 32);
    }
  }

  lemma ControlsInBlock(mem: seq<byte>, payload: seq<byte>, count: u32)
    requires |payload| == count * CTL_INFO_ENTRY_SIZE && 20 + |payload| <= |mem| && payload == mem[20..20 + |payload|]
    ensures forall i | 0 <= i < count :: DecodeControls(payload, count)[i] == DecodeControl(mem[20 + 88 * i..108 + 88 * i]).(id := i)
  {
    hide DecodeControl;
    forall i | 0 <= i < count
      ensures DecodeControls(payload, count)[i] == DecodeControl(mem[20 + 88 * i..108 + 88 * i]).(id := i)
    {
      SubSlice(mem, 20, 20 + |payload|, 88 * i, 88 * i + 88);
    }
  }

  /** The 32-bit length of a listing's payload. */
  function ListingLength(count: u32): u32 {
    Wrap32(count * CTL_INFO_ENTRY_SIZE)
  }

  /** Why a listing is not asked for, if it is not. */
  function ListingWhy(negotiated: bool, q: Ring, env: CtlEnv): Option<SoundError> {
    if !negotiated then Some(ErrControlsNotNegotiated)
    else if env.controls.None? then Some(ErrConfigRead)
    else CtrlWhy(q, 16, ListingLength(env.controls.value), env.exchange)
  }

  /** Why a write of so many channels is not sent, if it is not. */
  function WriteWhy(negotiated: bool, q: Ring, id: nat, channels: nat, env: CtlEnv): Option<SoundError> {
    if !negotiated then Some(ErrControlsNotNegotiated)
    else if channels == 0 then Some(ErrInvalidControlValues)
    else if env.controls.None? then Some(ErrConfigRead)
    else if id >= env.controls.value then Some(ErrInvalidControlID)
    else if 8 + 4 * channels >= U32 then Some(SliceOutOfRange)
    else CtrlWhy(q, 8 + 4 * channels, 0, env.exchange)
  }

  /** Why a stream's parameters are not sent, if they are not. */
  function ParamsWhy(streamID: u32, streams: u32, info: Option<PCMInfoEntry>, p: PCMParams, q: Ring, env: Env): Option<SoundError> {
    if streamID >= streams then Some(ErrStreamIDOutOfRange)
    else if ValidateParams(info, p).Err? then Some(ValidateParams(info, p).error)
    else CtrlWhy(q, 24, 0, env)
  }

  /** When a request is sent, said of the arguments. */
  lemma ParamsSentIff(streamID: u32, streams: u32, info: Option<PCMInfoEntry>, p: PCMParams, q: Ring, env: Env)
    ensures ParamsWhy(streamID, streams, info, p, q, env).None? <==>
              && streamID < streams && ValidateParams(info, p).Ok?
              && env.alloc.Block? && env.alloc.bytes >= 28 && FreeCount(q.desc) >= 2
  {
    hide ValidateParams, FreeCount;
  }

  lemma WriteSentIff(negotiated: bool, q: Ring, id: nat, channels: nat, env: CtlEnv)
    ensures WriteWhy(negotiated, q, id, channels, env).None? <==>
              && negotiated && channels > 0 && env.controls.Some? && id < env.controls.value && 8 + 4 * channels < U32
              && env.exchange.alloc.Block? && env.exchange.alloc.bytes >= 8 + 4 * channels
              && env.exchange.alloc.bytes >= (12 + 4 * channels) % U32 && FreeCount(q.desc) >= 2
  {
    hide FreeCount;
  }

  lemma ListingSentIff(negotiated: bool, q: Ring, env: CtlEnv)
    ensures ListingWhy(negotiated, q, env).None? <==>
              && negotiated && env.controls.Some? && env.exchange.alloc.Block? && env.exchange.alloc.bytes >= 16
              && env.exchange.alloc.bytes >= Wrap32(20 + ListingLength(env.controls.value))
              && FreeCount(q.desc) >= if ListingLength(env.controls.value) > 0 then 3 else 2
    ensures env.controls.Some? ==> ListingLength(env.controls.value) == env.controls.value * 88 % U32
  {
    hide FreeCount;
  }

  lemma InfoSentIff(q: Ring, count: u32, env: Env)
    ensures CtrlWhy(q, 16, Wrap32(count * PCM_INFO_ENTRY_SIZE), env).None? <==>
              && env.alloc.Block? && env.alloc.bytes >= 20 + count * 32 % U32
              && FreeCount(q.desc) >= if count * 32 % U32 > 0 then 3 else 2
  {
    hide FreeCount;
    InfoNeverWraps(count);
  }

  /** What the block a PCM_INFO query was answered in decides: its status, and then the records behind it. */
  ghost predicate InfosRead(q: Ring, q': Ring, count: u32, r: Result<seq<PCMInfoEntry>, SoundError>) {
    && |q.mem| < |q'.mem| && 20 + Wrap32(count * PCM_INFO_ENTRY_SIZE) <= |q'.mem[|q.mem|]|
    && var mem := q'.mem[|q.mem|];
    && (r == Err(ErrDeviceStatus) <==> U32At(mem, 16) != SOK)
    && (U32At(mem, 16) == SOK && count * PCM_INFO_ENTRY_SIZE < U32 ==> r.Ok?)
    && (r.Ok? ==>
          && |r.value| == count && count * PCM_INFO_ENTRY_SIZE == Wrap32(count * PCM_INFO_ENTRY_SIZE)
          && forall i | 0 <= i < count :: r.value[i] == DecodePCMInfo(mem[20 + 32 * i..52 + 32 * i]))
  }

  /** The same for a listing of the controls, unless its length wraps: then it is a slice panic. */
  ghost predicate ListingRead(q: Ring, q': Ring, count: u32, r: Result<seq<Control>, SoundError>) {
    if 20 + ListingLength(count) >= U32 then r == Err(SliceOutOfRange)
    else
      && |q.mem| < |q'.mem| && 20 + ListingLength(count) <= |q'.mem[|q.mem|]|
      && var mem := q'.mem[|q.mem|];
      && (r == Err(ErrDeviceStatus) <==> U32At(mem, 16) != SOK)
      && (U32At(mem, 16) == SOK && count * CTL_INFO_ENTRY_SIZE < U32 ==> r.Ok?)
      && (r.Ok? ==>
            && |r.value| == count && count * CTL_INFO_ENTRY_SIZE == ListingLength(count)
            && forall i | 0 <= i < count :: r.value[i] == DecodeControl(mem[20 + 88 * i..108 + 88 * i]).(id := i))
  }

  /** From the exchange to what the command makes of it. */
  lemma InfosOf(q: Ring, q': Ring, count: u32, exchange: Result<(u32, seq<byte>), SoundError>, r: Result<seq<PCMInfoEntry>, SoundError>)
    requires Replied(q, q', 16, Wrap32(count * PCM_INFO_ENTRY_SIZE), exchange) && q'.seen > q.seen && 20 + Wrap32(count * PCM_INFO_ENTRY_SIZE) < U32
    requires exchange.Ok? ==>
               && (r == Err(ErrDeviceStatus) <==> exchange.value.0 != SOK)
               && (r.Ok? ==> |exchange.value.1| == count * PCM_INFO_ENTRY_SIZE && r.value == PCMInfos(exchange.value.1, count))
               && (r.Err? && r.error != ErrDeviceStatus ==> count * PCM_INFO_ENTRY_SIZE >= U32)
    ensures InfosRead(q, q', count, r)
  {
    hide U32At, DecodePCMInfo, PCMInfos;
    if r.Ok? {
      InfosInBlock(q'.mem[|q.mem|], exchange.value.1, count);
    }
  }

  lemma ListingOf(q: Ring, q': Ring, count: u32, exchange: Result<(u32, seq<byte>), SoundError>, r: Result<seq<Control>, SoundError>)
    requires Replied(q, q', 16, ListingLength(count), exchange) && q'.seen > q.seen
    requires exchange.Err? ==> r == Err(exchange.error)
    requires exchange.Ok? ==>
               && (r == Err(ErrDeviceStatus) <==> exchange.value.0 != SOK)
               && (r.Ok? ==> |exchange.value.1| == count * CTL_INFO_ENTRY_SIZE && r.value == DecodeControls(exchange.value.1, count))
               && (r.Err? && r.error != ErrDeviceStatus ==> count * CTL_INFO_ENTRY_SIZE >= U32)
    ensures ListingRead(q, q', count, r)
  {
    hide U32At, DecodeControl, DecodeControls;
    ListingShrinks(count);
    if r.Ok? {
      ControlsInBlock(q'.mem[|q.mem|], exchange.value.1, count);
    }
  }

  lemma ListingShrinks(count: u32)
    ensures ListingLength(count) <= count * CTL_INFO_ENTRY_SIZE
    ensures count * CTL_INFO_ENTRY_SIZE < U32 ==> ListingLength(count) == count * CTL_INFO_ENTRY_SIZE
  {
  }

  /** A listing of `count` controls passes the length check with a block that does not hold its buffers. */
  predicate ListingOverruns(count: u32, alloc: Alloc) {
    Defeated(16 + HDR_SIZE + ListingLength(count), Wrap32(16 + HDR_SIZE + ListingLength(count)), 16, alloc)
  }

  /**
   Requests for control info can wrap it: the page controlRoundTrip allocates then passes the
   length check although the payload runs past it.  That happens exactly for counts whose
   payload length is within 20 of 2^32.
   */
  lemma ControlsWrapIff(count: u32)
    ensures ListingOverruns(count, Block(PAGE_SIZE)) <==> ListingLength(count) >= U32 - 20
  {
  }

  /** Read allocates the pages of a length that wraps for every buffer of 2^32 - 12 bytes or more, and they never hold it. */
  lemma ReadWrapsIff(n: nat)
    ensures Defeated(n + 12, TotalLen(n), PCM_XFER_HDR_SIZE, Block(PagesFor(TotalLen(n)) * PAGE_SIZE)) <==> n + 12 >= U32
  {
    PagesHoldTransferIff(n);
  }

  lemma SomeControlsWrap()
    ensures ListingOverruns(97_612_893, Block(PAGE_SIZE))
  {
    assert ListingLength(97_612_893) == U32 - 8;
    ControlsWrapIff(97_612_893);
  }

  /** The environment's answers to a control call that reads the device's control count. */
  datatype CtlEnv = CtlEnv(controls: Option<u32>, exchange: Env)

  class SyncSound {
    const deviceStreams: u32        // Device.Streams
    const controlsNegotiated: bool  // NegotiatedFeatures & FeatureCTLS != 0
    const pollBudget: nat           // CtrlPollIterations / XferPollIterations

    var ctrlq: Ring
    var rxq: Ring
    var streams: seq<StreamState>   // [] is Go's nil

    constructor (streams: u32, ctls: bool, budget: nat, ctrlSize: nat, rxSize: nat)
      ensures deviceStreams == streams && controlsNegotiated == ctls && pollBudget == budget
      ensures Quiet(ctrlq) && Quiet(rxq) && |ctrlq.desc| == ctrlSize && |rxq.desc| == rxSize
      ensures Agrees(this.streams, []) && Shaped()
    {
      deviceStreams, controlsNegotiated, pollBudget := streams, ctls, budget;
      ctrlq, rxq, this.streams := EmptyRing(ctrlSize), EmptyRing(rxSize), [];
      new;
      EmptyRingSound(ctrlSize);
      EmptyRingSound(rxSize);
    }

    /** The registry is absent or has one entry per stream. */
    predicate Shaped()
      reads this
    {
      |streams| == 0 || |streams| == deviceStreams
    }

    // -------------------------------------------------------------------------
    // sound.go: control exchanges
    // -------------------------------------------------------------------------

    /**
     controlRoundTrip.  On an empty queue an answer is always the device's report on this very
     request, and the queue is empty afterwards unless the exchange timed out or its doorbell
     failed.  On any queue it is whatever the first completion polled left in the own block.
     When the 32-bit length of the buffers wraps, no answer is ever returned.
     */
    method ControlRoundTrip(req: seq<byte>, extraLen: u32, env: Env) returns (r: Result<(u32, seq<byte>), SoundError>)
      requires |req| < U32
      modifies `ctrlq
      ensures Extends(old(ctrlq), ctrlq)
      ensures r.Ok? ==> |r.value.1| == extraLen && |req| + HDR_SIZE + extraLen < U32
      ensures r == Err(ErrNotify) ==> !env.doorbell
      ensures r == Err(SliceOutOfRange) ==> |req| + HDR_SIZE + extraLen >= U32
      ensures var refused := Refused(env.alloc, Wrap32(|req| + HDR_SIZE + extraLen)); refused.Some? ==> r == Err(refused.value)
      ensures old(Quiet(ctrlq)) ==> CtrlOutcome(old(ctrlq), ctrlq, req, extraLen, r)
      // a chain that its block does not hold is published exactly when the length check is defeated
      ensures RunsPast(ctrlq, |old(ctrlq.chains)|) <==>
                && Defeated(|req| + HDR_SIZE + extraLen, Wrap32(|req| + HDR_SIZE + extraLen), |req|, env.alloc)
                && FreeCount(old(ctrlq.desc)) >= if extraLen > 0 then 3 else 2
      // the request is sent whenever the block holds it and the ring has room for the chain
      ensures old(Quiet(ctrlq)) && |req| + HDR_SIZE + extraLen < U32 ==>
                (|ctrlq.avail| > |old(ctrlq.avail)| <==>
                  && env.alloc.Block? && |req| + HDR_SIZE + extraLen <= env.alloc.bytes
                  && |ctrlq.desc| >= if extraLen > 0 then 3 else 2)
      ensures r.Err? ==> r.error in {ErrAlloc, ErrAllocReturnedZero, ErrBufferTooSmall, ErrQueueFull, ErrNotify, ErrControlTimeout, SliceOutOfRange}
      // whatever else is outstanding: what is sent, and that the first completion polled is taken for the answer
      ensures CtrlExchange(old(ctrlq), ctrlq, req, extraLen, env, pollBudget, r)
      ensures var sent := && env.alloc.Block? && Wrap32(|req| + HDR_SIZE + extraLen) <= env.alloc.bytes && |req| <= env.alloc.bytes
                          && FreeCount(old(ctrlq.desc)) >= if extraLen > 0 then 3 else 2;
              && |ctrlq.avail| == |old(ctrlq.avail)| + (if sent then 1 else 0)
              && (r == Err(ErrNotify) <==> sent && !env.doorbell)
              && ctrlq.seen == old(ctrlq.seen) + (if sent && env.doorbell && r != Err(ErrControlTimeout) then 1 else 0)
      // a completion that is there already is polled
      ensures r == Err(ErrControlTimeout) && pollBudget > 0 ==> old(ctrlq.seen) >= |old(ctrlq.used)|
      ensures r == Err(ErrQueueFull) <==>
                && env.alloc.Block? && Wrap32(|req| + HDR_SIZE + extraLen) <= env.alloc.bytes && |req| <= env.alloc.bytes
                && FreeCount(old(ctrlq.desc)) < if extraLen > 0 then 3 else 2
      ensures Moves(old(ctrlq), ctrlq, CtrlWhy(old(ctrlq), |req|, extraLen, env), env.doorbell, pollBudget, if r.Err? then Some(r.error) else None)
      ensures Replied(old(ctrlq), ctrlq, |req|, extraLen, r)
      ensures Counted(old(ctrlq), ctrlq, r.Err? && GivenUp(r.error))
    {
      hide Quiet, Extends, Offered, CtrlOutcome, RunsPast, Placed, Logs, Published, Finished, Follows, CtrlExchange, Counted, Outstanding, U32At;
      ghost var before := ctrlq;
      var page := |ctrlq.mem|;
      var head := PostControl(req, extraLen, env);
      if head.Err? {
        CtrlSpelled(before, ctrlq, req, extraLen, env, pollBudget, Err(head.error));
        CtrlCounts(before, ctrlq, req, extraLen, env, pollBudget, Err(head.error));
        return Err(head.error);
      }
      ghost var offered := ctrlq;
      ghost var script;
      r, script := FinishRoundTrip(req, extraLen, page, head.value, env.device, before, Quiet(before) && |req| + HDR_SIZE + extraLen < U32);
      CtrlFinished(before, offered, req, extraLen, env, pollBudget, head.value, script, ctrlq, r);
      CtrlSpelled(before, ctrlq, req, extraLen, env, pollBudget, r);
      CtrlCounts(before, ctrlq, req, extraLen, env, pollBudget, r);
      ExtendsTransitive(before, offered, ctrlq);
      PlacedRunsPast(offered, ctrlq, |before.chains|);
      if Wraps(|req|, extraLen) {
        CtrlWrapped(before, ctrlq, req, extraLen);
      }
    }

    /** The first half of controlRoundTrip: lay the buffers out, publish the chain, ring the doorbell. */
    method PostControl(req: seq<byte>, extraLen: u32, env: Env) returns (r: Result<nat, SoundError>)
      requires |req| < U32
      modifies `ctrlq
      ensures Extends(old(ctrlq), ctrlq)
      ensures r == Err(ErrNotify) ==> !env.doorbell
      ensures r == Err(SliceOutOfRange) ==> |req| + HDR_SIZE + extraLen >= U32
      ensures r.Err? ==> r.error in {ErrAlloc, ErrAllocReturnedZero, ErrBufferTooSmall, ErrQueueFull, ErrNotify, SliceOutOfRange}
      ensures var refused := Refused(env.alloc, Wrap32(|req| + HDR_SIZE + extraLen)); refused.Some? ==> r == Err(refused.value)
      ensures r.Ok? ==> |old(ctrlq.mem)| < |ctrlq.mem| && |req| <= |ctrlq.mem[|old(ctrlq.mem)|]|
      ensures r.Ok? && |req| + HDR_SIZE + extraLen < U32 ==> |req| + HDR_SIZE + extraLen <= |ctrlq.mem[|old(ctrlq.mem)|]|
      ensures old(Quiet(ctrlq)) && r.Err? ==> CtrlOutcome(old(ctrlq), ctrlq, req, extraLen, Err(r.error))
      ensures r.Ok? ==> Placed(ctrlq, |old(ctrlq.chains)|)
      ensures RunsPast(ctrlq, |old(ctrlq.chains)|) <==>
                && Defeated(|req| + HDR_SIZE + extraLen, Wrap32(|req| + HDR_SIZE + extraLen), |req|, env.alloc)
                && FreeCount(old(ctrlq.desc)) >= if extraLen > 0 then 3 else 2
      ensures old(Quiet(ctrlq)) && |req| + HDR_SIZE + extraLen < U32 && r.Ok? ==>
                Offered(old(ctrlq), ctrlq, CtrlBufs(|old(ctrlq.mem)|, |req|, extraLen), req)
                && |old(ctrlq.avail)| < |ctrlq.avail| && r.value == ctrlq.avail[|old(ctrlq.avail)|]
      ensures old(Quiet(ctrlq)) && |req| + HDR_SIZE + extraLen < U32 ==>
                (|ctrlq.avail| > |old(ctrlq.avail)| <==>
                  && env.alloc.Block? && |req| + HDR_SIZE + extraLen <= env.alloc.bytes
                  && |ctrlq.desc| >= if extraLen > 0 then 3 else 2)
      ensures r.Ok? ==>
                && CtrlSent(old(ctrlq), |req|, extraLen, env) && env.doorbell
                && Published(Allocate(old(ctrlq), Copy(Zeros(env.alloc.bytes), 0, req)), ctrlq, CtrlBufs(|old(ctrlq.mem)|, |req|, extraLen))
                && |old(ctrlq.avail)| < |ctrlq.avail| && r.value == ctrlq.avail[|old(ctrlq.avail)|]
      ensures r.Err? ==> CtrlExchange(old(ctrlq), ctrlq, req, extraLen, env, pollBudget, Err(r.error))
    {
      hide Inv, Quiet, CtrlOutcome, Unsent, Offered, Extends, Published, RunsPast, Placed, UnrungOver, FreeCount, ReclaimChain, Outstanding, CtrlBufs;
      hide ExchangeBy, ReadBack;
      var n, page := |req|, |ctrlq.mem|;
      ghost var before := ctrlq;
      NotPublished(before, []);
      var totalLen := Wrap32(n + HDR_SIZE + extraLen);
      if Quiet(before) {
        StillQuiet(before, []);
        CtrlRefused(before, before, req, extraLen);
        QuietFree(before);
      }
      if Wraps(n, extraLen) {
        CtrlWrapped(before, before, req, extraLen);
      }
      ExtendsSelf(before, []);
      match env.alloc
      case AllocFails => return Err(ErrAlloc);
      case AllocZero => return Err(ErrAllocReturnedZero);
      case Block(bytes) =>
        if totalLen > bytes {
          return Err(ErrBufferTooSmall);
        }
        if n > bytes {
          return Err(SliceOutOfRange);
        }
        var mem := Copy(Zeros(bytes), 0, req);
        assert mem[..n] == req;
        ExtendsSelf(before, mem);
        NotPublished(before, mem);
        ctrlq := Allocate(ctrlq, mem);
        var head, ring := AddChain(ctrlq, CtrlBufs(page, n, extraLen));
        if head.None? {
          if Quiet(before) {
            StillQuiet(before, mem);
            CtrlRefused(before, ctrlq, req, extraLen);
          }
          return Err(ErrQueueFull);
        }
        CtrlPublished(before, mem, ring, req, extraLen);
        UnrungIs(before, mem, CtrlBufs(page, n, extraLen), ring);
        if !env.doorbell {
          ctrlq := ReclaimChain(ring, head.value);
          return Err(ErrNotify);
        }
        ctrlq := ring;
        return Ok(head.value);
    }

    /** The polling half of controlRoundTrip, and reading the response back. */
    method FinishRoundTrip(req: seq<byte>, extraLen: u32, page: nat, head: nat, device: Script, ghost before: Ring, ghost sound: bool)
      returns (r: Result<(u32, seq<byte>), SoundError>, ghost script: Script)
      requires |req| < U32 && page < |ctrlq.mem| && |req| <= |ctrlq.mem[page]|
      requires sound ==> Offered(before, ctrlq, CtrlBufs(|before.mem|, |req|, extraLen), req) && page == |before.mem|
      requires |req| + HDR_SIZE + extraLen < U32 ==> |req| + HDR_SIZE + extraLen <= |ctrlq.mem[page]|
      requires sound ==> |before.avail| < |ctrlq.avail| && head == ctrlq.avail[|before.avail|] && |req| + HDR_SIZE + extraLen < U32
      modifies `ctrlq
      ensures Extends(old(ctrlq), ctrlq) && ctrlq.avail == old(ctrlq.avail) && |ctrlq.desc| == |old(ctrlq.desc)|
      ensures r.Ok? ==> |r.value.1| == extraLen && |req| + HDR_SIZE + extraLen < U32
      ensures r == Err(SliceOutOfRange) ==> |req| + HDR_SIZE + extraLen >= U32
      ensures sound ==> CtrlOutcome(before, ctrlq, req, extraLen, r)
      ensures r.Err? ==> r.error in {ErrControlTimeout, SliceOutOfRange}
      ensures r.Ok? ==> ReadBack(ctrlq, page, |req|, extraLen, r.value)
      ensures Finished(old(ctrlq), head, pollBudget, script, r == Err(ErrControlTimeout), ctrlq) && Follows(old(ctrlq), script, device)
      ensures r != Err(ErrControlTimeout) ==> if |req| + HDR_SIZE + extraLen < U32 then r.Ok? else r == Err(SliceOutOfRange)
    {
      hide Inv, Answered, Abandoned, Unsent, Offered, Advances, Extends, U32At, FirstRun, Follows, Turns, ReclaimChain, CtrlOutcome;
      hide Outstanding, Sound, PolledSince, Response, CtrlBufs, Logs;
      ghost var offered := ctrlq;
      if sound {
        OfferedSound(before, offered, CtrlBufs(page, |req|, extraLen), req);
      }
      var got, ring, u, acts := AwaitFirst(ctrlq, pollBudget, device);
      script := acts;
      ExtendsBlock(offered, ring, page);
      ReclaimExtends(offered, ring, if got.Some? then got.value.head else head);
      ReclaimSame(ring, if got.Some? then got.value.head else head);
      if got.None? {
        if sound {
          CtrlGaveUp(before, offered, ring, req, extraLen);
          CtrlTimedOut(before, ReclaimChain(ring, head), req, extraLen);
        }
        ctrlq := ReclaimChain(ring, head);
        return Err(ErrControlTimeout), script;
      }
      if sound {
        CtrlAnswered(before, offered, ring, req, extraLen, u);
        CtrlDone(before, ReclaimChain(ring, got.value.head), req, extraLen);
      }
      ctrlq := ReclaimChain(ring, got.value.head);
      r := ReadResponse(ctrlq.mem[page], |req|, extraLen);
    }

    /** controlRoundTrip's slicing of its block, whose bounds are computed in 32 bits. */
    static method ReadResponse(mem: seq<byte>, n: u32, extraLen: u32) returns (r: Result<(u32, seq<byte>), SoundError>)
      requires n <= |mem| && (n + HDR_SIZE + extraLen < U32 ==> n + HDR_SIZE + extraLen <= |mem|)
      ensures r == if n + HDR_SIZE + extraLen < U32 then Ok(Response(mem[n..n + HDR_SIZE + extraLen])) else Err(SliceOutOfRange)
      ensures r.Ok? ==> n + HDR_SIZE + extraLen < U32 && r.value == (U32At(mem, n), mem[n + HDR_SIZE..n + HDR_SIZE + extraLen])
    {
      var plOff := Wrap32(n + HDR_SIZE);
      if !(n <= plOff <= |mem|) {
        return Err(SliceOutOfRange);
      }
      var status := U32At(mem, n);
      var payload := [];
      if extraLen > 0 {
        var end := Wrap32(plOff + extraLen);
        if !(plOff <= end <= |mem|) {
          return Err(SliceOutOfRange);
        }
        payload := mem[plOff..end];
      }
      ResponseRead(mem, n, extraLen);
      assert payload == mem[n + HDR_SIZE..n + HDR_SIZE + extraLen];
      return Ok((status, payload));
    }

    // -------------------------------------------------------------------------
    // sound.go: the stream registry
    // -------------------------------------------------------------------------

    method EnsureStreams()
      requires Shaped()
      modifies `streams
      ensures |streams| == deviceStreams
      ensures forall s: u32 :: ParamsOf(streams, s) == ParamsOf(old(streams), s) && InfoOf(streams, s) == InfoOf(old(streams), s)
    {
      if |streams| == 0 && deviceStreams > 0 {
        streams := seq(deviceStreams, _ => StreamState(None, None));
      }
    }

    method CacheStreamInfo(streamID: u32, info: PCMInfoEntry)
      requires Shaped()
      modifies `streams
      ensures |streams| == deviceStreams
      ensures forall s: u32 :: ParamsOf(streams, s) == ParamsOf(old(streams), s)
      ensures forall s: u32 :: InfoOf(streams, s) == if s == streamID < deviceStreams then Some(info) else InfoOf(old(streams), s)
    {
      EnsureStreams();
      if streamID >= |streams| {
        return;
      }
      streams := streams[streamID := streams[streamID].(info := Some(info))];
    }

    function CachedStreamInfo(streamID: u32): Option<PCMInfoEntry>
      reads this
    {
      InfoOf(streams, streamID)
    }

    method RecordStreamParams(streamID: u32, p: PCMParams)
      requires Shaped()
      modifies `streams
      ensures |streams| == deviceStreams
      ensures streamID < deviceStreams ==> Recorded(old(streams), streams, streamID, p)
    {
      EnsureStreams();
      if streamID >= |streams| {
        return;
      }
      streams := streams[streamID := streams[streamID].(lastParams := Some(p))];
    }

    function StreamParams(streamID: u32): Option<PCMParams>
      reads this
    {
      ParamsOf(streams, streamID)
    }

    // -------------------------------------------------------------------------
    // pcm.go
    // -------------------------------------------------------------------------

    /**
     PCMInfo.  A successful query returns what the device's own report says of every stream,
     and replaces the cached info of every stream by it; a failed one changes no stream.
     */
    method PCMInfo(env: Env) returns (r: Result<seq<PCMInfoEntry>, SoundError>)
      requires Shaped()
      modifies `ctrlq, `streams
      ensures Shaped() && Extends(old(ctrlq), ctrlq)
      ensures r.Ok? ==> |r.value| == deviceStreams && deviceStreams * PCM_INFO_ENTRY_SIZE < U32 && Cached(old(streams), streams, r.value)
      ensures r.Err? && r.error != SliceOutOfRange ==> streams == old(streams)
      ensures r == Err(SliceOutOfRange) ==> deviceStreams * PCM_INFO_ENTRY_SIZE >= U32
      ensures r != Err(ErrShortResponse)
      ensures r == Err(ErrNotify) ==> !env.doorbell
      ensures old(Quiet(ctrlq)) && deviceStreams > 0 ==> InfoOutcome(old(ctrlq), ctrlq, r)
      ensures deviceStreams == 0 ==> r == Ok([]) && ctrlq == old(ctrlq)
      // on any queue: when the query is sent, and what the block it was answered in decides
      ensures deviceStreams > 0 ==>
                Moves(old(ctrlq), ctrlq, CtrlWhy(old(ctrlq), 16, Wrap32(deviceStreams * PCM_INFO_ENTRY_SIZE), env),
                  env.doorbell, pollBudget, if r.Err? then Some(r.error) else None)
      ensures |ctrlq.avail| > |old(ctrlq.avail)| <==>
                && deviceStreams > 0 && env.alloc.Block? && env.alloc.bytes >= 20 + deviceStreams * 32 % U32
                && FreeCount(old(ctrlq.desc)) >= if deviceStreams * 32 % U32 > 0 then 3 else 2
      ensures QueryExchange(old(ctrlq), ctrlq, QueryInfoReq(R_PCM_INFO, 0, deviceStreams, PCM_INFO_ENTRY_SIZE),
                Wrap32(deviceStreams * PCM_INFO_ENTRY_SIZE), env, pollBudget)
      ensures if ctrlq.seen > old(ctrlq.seen) then InfosRead(old(ctrlq), ctrlq, deviceStreams, r)
              else if deviceStreams == 0 then r.Ok? else r.Err? && r.error != ErrDeviceStatus
      ensures Counted(old(ctrlq), ctrlq, r.Err? && GivenUp(r.error))
    {
      hide Quiet, CtrlOutcome, Counted, CtrlExchange, Logs, FreeCount, U32At, RunsPast, Moves, Replied, CtrlWhy, InfosRead, PCMInfos;
      hide Extends, Cached, QueryInfoReq, DecodePCMInfo, Outstanding, CtrlBufs;
      ExtendsSelf(ctrlq, []);
      NothingCached(streams);
      CountedSelf(ctrlq, []);
      NoMove(ctrlq, 0);
      ghost var before := ctrlq;
      var count := deviceStreams;
      if count == 0 {
        return Ok([]);
      }
      var extraLen := Wrap32(count * PCM_INFO_ENTRY_SIZE);
      InfoNeverWraps(count);
      var exchange := ControlRoundTrip(QueryInfoReq(R_PCM_INFO, 0, count, PCM_INFO_ENTRY_SIZE), extraLen, env);
      AnswerMoves(before, ctrlq, CtrlWhy(before, 16, extraLen, env), env.doorbell, pollBudget);
      InfoSentIff(before, count, env);
      RepliedOk(before, ctrlq, 16, extraLen, exchange);
      QueryIs(before, ctrlq, QueryInfoReq(R_PCM_INFO, 0, count, PCM_INFO_ENTRY_SIZE), extraLen, env, pollBudget, exchange);
      if exchange.Err? {
        return Err(exchange.error);
      }
      var (status, payload) := exchange.value;
      r := Err(ErrDeviceStatus);
      if status == SOK {
        r := DecodePCMInfos(payload, count);
      }
      InfosOf(before, ctrlq, count, exchange, r);
    }

    /** The request PCMInfo sends, and what it makes of the answer. */
    ghost predicate InfoOutcome(q: Ring, q': Ring, r: Result<seq<PCMInfoEntry>, SoundError>) {
      exists exchange ::
        && CtrlOutcome(q, q', QueryInfoReq(R_PCM_INFO, 0, deviceStreams, PCM_INFO_ENTRY_SIZE), Wrap32(deviceStreams * PCM_INFO_ENTRY_SIZE), exchange)
        && Answering(exchange, r)
    }

    predicate Answering(exchange: Result<(u32, seq<byte>), SoundError>, r: Result<seq<PCMInfoEntry>, SoundError>) {
      match exchange
      case Err(e) => r == Err(e)
      case Ok(answer) =>
        && (r == Err(ErrDeviceStatus) <==> answer.0 != SOK)
        && (r.Ok? ==> |answer.1| == deviceStreams * PCM_INFO_ENTRY_SIZE && r.value == PCMInfos(answer.1, deviceStreams))
        && (r.Err? && r.error != ErrDeviceStatus ==> r.error == SliceOutOfRange && deviceStreams * PCM_INFO_ENTRY_SIZE >= U32)
    }

    /** PCMInfo's loop over the records of the payload. */
    method DecodePCMInfos(payload: seq<byte>, count: u32) returns (r: Result<seq<PCMInfoEntry>, SoundError>)
      requires Shaped() && count == deviceStreams > 0 && |payload| == Wrap32(count * PCM_INFO_ENTRY_SIZE)
      modifies `streams
      ensures Shaped()
      ensures r.Ok? ==> |payload| == count * PCM_INFO_ENTRY_SIZE < U32 && r.value == PCMInfos(payload, count)
      ensures r.Ok? ==> Cached(old(streams), streams, r.value)
      ensures r.Err? ==> r.error == SliceOutOfRange && count * PCM_INFO_ENTRY_SIZE >= U32
    {
      hide DecodePCMInfo, Wrap32, InfoOf, ParamsOf;
      var out: seq<PCMInfoEntry> := [];
      WrapSmall(count * PCM_INFO_ENTRY_SIZE);
      for i := 0 to count
        invariant |out| == i && i * PCM_INFO_ENTRY_SIZE <= |payload| && Shaped()
        invariant forall j | 0 <= j < i :: out[j] == DecodePCMInfo(payload[j * PCM_INFO_ENTRY_SIZE..(j + 1) * PCM_INFO_ENTRY_SIZE])
        invariant Cached(old(streams), streams, out)
      {
        var lo, hi := Wrap32(i * PCM_INFO_ENTRY_SIZE), Wrap32((i + 1) * PCM_INFO_ENTRY_SIZE);
        SliceBounds(i * PCM_INFO_ENTRY_SIZE, PCM_INFO_ENTRY_SIZE, |payload|);
        if !(lo <= hi <= |payload|) {
          return Err(SliceOutOfRange);
        }
        var entry := ParsePCMInfoEntry(payload[lo..hi]);
        assert entry.Ok?;  // the record is whole: PCMInfo's return of ErrShortResponse is unreachable
        out := out + [entry.value];
        CacheStreamInfo(i, entry.value);
      }
      return Ok(out);
    }

    /**
     PCMSetParams.  Only parameters the cached info admits are sent, and they are recorded
     exactly when the device accepts them.
     */
    method PCMSetParams(streamID: u32, p: PCMParams, env: Env) returns (r: Result<(), SoundError>)
      requires Shaped()
      modifies `ctrlq, `streams
      ensures Shaped() && Extends(old(ctrlq), ctrlq)
      ensures r.Ok? ==> Recorded(old(streams), streams, streamID, p)
      ensures r.Err? ==> streams == old(streams)
      ensures |ctrlq.avail| > |old(ctrlq.avail)| ==>
                streamID < deviceStreams && ValidateParams(old(CachedStreamInfo(streamID)), p).Ok?
      ensures streamID >= deviceStreams ==> r == Err(ErrStreamIDOutOfRange) && ctrlq == old(ctrlq)
      ensures streamID < deviceStreams && ValidateParams(old(CachedStreamInfo(streamID)), p).Err? ==>
                r == ValidateParams(old(CachedStreamInfo(streamID)), p) && ctrlq == old(ctrlq)
      ensures r == Err(ErrNotify) ==> !env.doorbell
      ensures r != Err(SliceOutOfRange)
      ensures old(Quiet(ctrlq)) ==> Commanded(old(ctrlq), ctrlq, PCMSetParamsReq(streamID, p), r)
      // on any queue: when the request is sent, and that the status in its block decides
      ensures CommandDone(old(ctrlq), ctrlq, ParamsWhy(streamID, deviceStreams, old(CachedStreamInfo(streamID)), p, old(ctrlq), env),
                PCMSetParamsReq(streamID, p), env, pollBudget, r)
      ensures |ctrlq.avail| > |old(ctrlq.avail)| <==>
                && streamID < deviceStreams && ValidateParams(old(CachedStreamInfo(streamID)), p).Ok?
                && env.alloc.Block? && env.alloc.bytes >= 28 && FreeCount(old(ctrlq.desc)) >= 2
      ensures r.Ok? ==> StreamParams(streamID) == Some(p)
      ensures Counted(old(ctrlq), ctrlq, r.Err? && GivenUp(r.error))
    {
      hide Quiet, CtrlOutcome, Commanded, PCMSetParamsReq, Counted, CtrlExchange, Logs, FreeCount, U32At, RunsPast;
      hide Moves, Replied, CtrlWhy, CommandDone;
      CommandNotSent(ctrlq, PCMSetParamsReq(streamID, p), env, pollBudget);
      ParamsSentIff(streamID, deviceStreams, CachedStreamInfo(streamID), p, ctrlq, env);
      CountedSelf(ctrlq, []);
      ghost var before := ctrlq;
      CommandRefused(before, PCMSetParamsReq(streamID, p));
      if streamID >= deviceStreams {
        return Err(ErrStreamIDOutOfRange);
      }
      var valid := ValidateParams(CachedStreamInfo(streamID), p);
      if valid.Err? {
        return valid;
      }
      var req := BuildPCMSetParamsReq(streamID, p);
      var exchange := ControlRoundTrip(req, 0, env);
      CommandAnswered(before, ctrlq, req, env, pollBudget, exchange);
      CommandMeans(before, ctrlq, CtrlWhy(before, 24, 0, env), req, env, pollBudget, Verdict(exchange));
      if Quiet(before) {
        CommandSent(before, ctrlq, req, exchange);
      }
      if exchange.Err? {
        r := Err(exchange.error);
      } else if exchange.value.0 != SOK {
        r := Err(ErrDeviceStatus);
      } else {
        RecordStreamParams(streamID, p);
        r := Ok(());
      }
    }

    /**
     PCMSetParamsTyped.  Once the stream's info is cached, whatever reaches the wire carries
     the ids of the rate and the format asked for, and the stream advertises them.
     */
    method PCMSetParamsTyped(streamID: u32, p: TypedPCMParams, env: Env) returns (r: Result<(), SoundError>)
      requires Shaped()
      modifies `ctrlq, `streams
      ensures Shaped() && Extends(old(ctrlq), ctrlq)
      ensures r.Ok? ==> Recorded(old(streams), streams, streamID, Untyped(p))
      ensures r.Err? ==> streams == old(streams)
      ensures !IsSingleBit(p.rate) ==> r == Err(ErrInvalidRateValue) && ctrlq == old(ctrlq)
      ensures IsSingleBit(p.rate) && !IsSingleBit(p.format) ==> r == Err(ErrInvalidFormatValue) && ctrlq == old(ctrlq)
      ensures |ctrlq.avail| > |old(ctrlq.avail)| && old(CachedStreamInfo(streamID)).Some? ==>
                MeansTyped(Untyped(p), p) && Advertises(old(CachedStreamInfo(streamID)).value, Untyped(p))
      ensures old(Quiet(ctrlq)) ==> Commanded(old(ctrlq), ctrlq, PCMSetParamsReq(streamID, Untyped(p)), r)
      ensures r == Err(ErrNotify) ==> !env.doorbell
      ensures r != Err(SliceOutOfRange)
      // on any queue: when the request is sent, and that the status in its block decides
      ensures CommandDone(old(ctrlq), ctrlq,
                if !IsSingleBit(p.rate) then Some(ErrInvalidRateValue) else if !IsSingleBit(p.format) then Some(ErrInvalidFormatValue)
                else ParamsWhy(streamID, deviceStreams, old(CachedStreamInfo(streamID)), Untyped(p), old(ctrlq), env),
                PCMSetParamsReq(streamID, Untyped(p)), env, pollBudget, r)
      ensures Counted(old(ctrlq), ctrlq, r.Err? && GivenUp(r.error))
    {
      CountedSelf(ctrlq, []);
      hide Counted, Logs, FreeCount, U32At, CommandDone, CtrlWhy, Outstanding;
      CommandNotSent(ctrlq, PCMSetParamsReq(streamID, Untyped(p)), env, pollBudget);
      hide Quiet, Commanded, PCMSetParamsReq, Untyped, Advertises, ValidateParams, MeansTyped, Recorded;
      hide IsSingleBit, ParamsWhy, Extends, InfoOf, ParamsOf, RunsPast, And, Bit, Pow2, Shl64, ByteID;
      ZeroBits();
      ExtendsSelf(ctrlq, []);
      CommandRefused(ctrlq, PCMSetParamsReq(streamID, Untyped(p)));
      if !IsSingleBit(p.rate) || p.rate == 0 {
        r := Err(ErrInvalidRateValue);
      } else if !IsSingleBit(p.format) || p.format == 0 {
        r := Err(ErrInvalidFormatValue);
      } else {
        TypedSent(CachedStreamInfo(streamID), p);
        r := PCMSetParams(streamID, Untyped(p), env);
      }
    }

    // -------------------------------------------------------------------------
    // capture.go
    // -------------------------------------------------------------------------

    /**
     Read.  On an empty queue the bytes copied out are those the device captured for this very
     request, as many as the device-reported length says; a failed Read leaves `buf` alone.
     For buffers whose transfer length wraps, nothing is claimed of the bytes or the queue's slots.
     */
    method Read(streamID: u32, buf: array<byte>, env: Env) returns (r: Result<nat, SoundError>)
      modifies `rxq, buf
      ensures Extends(old(rxq), rxq)
      ensures buf.Length == 0 ==> r == Ok(0) && rxq == old(rxq)
      ensures buf.Length > 0 && streamID >= deviceStreams ==> r == Err(ErrStreamIDOutOfRange) && rxq == old(rxq)
      ensures buf.Length > 0 && streamID < deviceStreams ==>
                var refused := Refused(env.alloc, TotalLen(buf.Length)); refused.Some? ==> r == Err(refused.value)
      ensures r.Err? ==> buf[..] == old(buf[..])
      ensures r.Ok? ==> r.value <= buf.Length && buf[r.value..] == old(buf[r.value..])
      ensures r == Err(ErrNotify) ==> !env.doorbell
      ensures r == Err(SliceOutOfRange) ==> buf.Length + 12 >= U32
      ensures old(Quiet(rxq)) && 0 < buf.Length && buf.Length + 12 < U32 ==>
                RxOutcome(old(rxq), rxq, streamID, buf.Length, r, if r.Ok? then buf[..r.value] else [])
      // a chain that its block does not hold is published exactly when the length check is defeated
      ensures RunsPast(rxq, |old(rxq.chains)|) <==>
                && streamID < deviceStreams && Defeated(buf.Length + 12, TotalLen(buf.Length), PCM_XFER_HDR_SIZE, env.alloc)
                && FreeCount(old(rxq.desc)) >= 3
      // whatever else is outstanding: what is sent, and that the first completion polled is taken for the answer
      ensures 0 < buf.Length && streamID < deviceStreams ==>
                RxExchange(old(rxq), rxq, streamID, buf.Length, env, pollBudget, r, if r.Ok? then buf[..r.value] else [])
      ensures var sent := && 0 < buf.Length && streamID < deviceStreams && env.alloc.Block?
                          && TotalLen(buf.Length) <= env.alloc.bytes && PCM_XFER_HDR_SIZE <= env.alloc.bytes && FreeCount(old(rxq.desc)) >= 3;
              && |rxq.avail| == |old(rxq.avail)| + (if sent then 1 else 0)
              && (r == Err(ErrNotify) <==> sent && !env.doorbell)
              && rxq.seen == old(rxq.seen) + (if sent && env.doorbell && r != Err(ErrXferTimeout) then 1 else 0)
      // a completion that is there already is polled
      ensures r == Err(ErrXferTimeout) && pollBudget > 0 ==> old(rxq.seen) >= |old(rxq.used)|
      // trailer and reported length decide
      ensures rxq.seen > old(rxq.seen) && buf.Length + 12 < U32 ==>
                && |old(rxq.mem)| < |rxq.mem| && buf.Length + 12 <= |rxq.mem[|old(rxq.mem)|]| && old(rxq.seen) < |rxq.used|
                && var mem, len := rxq.mem[|old(rxq.mem)|], rxq.used[old(rxq.seen)].len;
                && (r.Ok? <==> U32At(mem, PCM_XFER_HDR_SIZE + buf.Length) == SOK)
                && (r == Err(ErrDeviceStatus) <==> U32At(mem, PCM_XFER_HDR_SIZE + buf.Length) != SOK)
                && (r.Ok? && PCM_STATUS_SIZE <= len <= buf.Length + PCM_STATUS_SIZE ==> r.value + PCM_STATUS_SIZE == len)
                && (r.Ok? && (len < PCM_STATUS_SIZE || len > buf.Length + PCM_STATUS_SIZE) ==> r.value == buf.Length)
                && (r.Ok? ==> buf[..r.value] == mem[PCM_XFER_HDR_SIZE..PCM_XFER_HDR_SIZE + r.value])
      ensures Counted(old(rxq), rxq, r.Err? && GivenUp(r.error))
    {
      hide Quiet, Extends, Offered, Answered, Abandoned, RunsPast, Placed, Captured;
      hide Logs, Published, Finished, Follows, Counted, Le32, RxOutcome, RxChain, RxExchange, U32At, TotalLen, FreeCount, Outstanding;
      ghost var before := rxq;
      CountedSelf(before, []);
      NotPublished(before, []);
      ExtendsSelf(before, []);
      if Quiet(before) {
        StillQuiet(before, []);
        RxRefused(before, before, streamID, buf.Length);
      }
      if buf.Length == 0 {
        return Ok(0);
      }
      if streamID >= deviceStreams {
        return Err(ErrStreamIDOutOfRange);
      }
      var page := |rxq.mem|;
      var head := PostCapture(streamID, buf.Length, env);
      if head.Err? {
        RxSpelled(before, rxq, streamID, buf.Length, env, pollBudget, Err(head.error), []);
        RxCounts(before, rxq, streamID, buf.Length, env, pollBudget, Err(head.error), []);
        return Err(head.error);
      }
      ghost var offered := rxq;
      var captured, script := PollCapture(streamID, buf.Length, page, head.value, env.device, before, Quiet(before) && buf.Length + 12 < U32);
      ExtendsTransitive(before, offered, rxq);
      PlacedRunsPast(offered, rxq, |before.chains|);
      if captured.Err? {
        RxDoneOn(before, offered, streamID, buf.Length, env, head.value, script, rxq, Err(captured.error), []);
        return Err(captured.error);
      }
      var (payloadBytes, data) := captured.value;
      CopyOut(buf, data);
      assert buf[payloadBytes..] == buf[|data|..][payloadBytes - |data|..];
      RxDoneOn(before, offered, streamID, buf.Length, env, head.value, script, rxq, Ok(payloadBytes), buf[..payloadBytes]);
      return Ok(payloadBytes);
    }

    /** A capture that was sent, spelled out. */
    lemma RxDoneOn(q: Ring, posted: Ring, streamID: u32, n: nat, env: Env, h: nat, script: Script, q': Ring,
                   res: Result<nat, SoundError>, data: seq<byte>)
      requires RxSent(q, n, env) && env.doorbell
      requires Published(Allocate(q, Copy(Zeros(env.alloc.bytes), 0, Le32(streamID))), posted, RxChain(|q.mem|, n))
      requires |q.avail| < |posted.avail| && h == posted.avail[|q.avail|]
      requires Finished(posted, h, pollBudget, script, res == Err(ErrXferTimeout), q') && Follows(posted, script, env.device)
      requires res != Err(ErrXferTimeout) ==>
                 if n + 12 < U32 then ReadOut(q', |q.mem|, posted.seen, n, res, data) else res.Ok? || res.error in {ErrDeviceStatus, SliceOutOfRange}
      ensures RxExchange(q, q', streamID, n, env, pollBudget, res, data)
      ensures Counted(q, q', res.Err? && GivenUp(res.error))
      ensures |q'.avail| == |q.avail| + 1 && q'.seen == q.seen + if res == Err(ErrXferTimeout) then 0 else 1
      ensures res == Err(ErrXferTimeout) && pollBudget > 0 ==> q.seen >= |q.used|
      ensures q'.seen > q.seen && n + 12 < U32 ==> ReadOut(q', |q.mem|, q.seen, n, res, data)
      ensures res != Err(ErrNotify)
    {
      hide Finished, Follows, RxExchange, Counted, ReadOut, Le32, TotalLen, FreeCount, RxChain;
      RxFinished(q, posted, streamID, n, env, pollBudget, h, script, q', res, data);
      RxSpelled(q, q', streamID, n, env, pollBudget, res, data);
      RxCounts(q, q', streamID, n, env, pollBudget, res, data);
    }

    /** The first half of Read: lay header, capture region and trailer out, publish, ring the doorbell. */
    method PostCapture(streamID: u32, n: nat, env: Env) returns (r: Result<nat, SoundError>)
      requires 0 < n
      modifies `rxq
      ensures Extends(old(rxq), rxq)
      ensures r == Err(ErrNotify) ==> !env.doorbell
      ensures r.Err? ==> r.error in {ErrAlloc, ErrAllocReturnedZero, ErrBufferTooSmall, ErrQueueFull, ErrNotify, SliceOutOfRange}
      ensures r == Err(SliceOutOfRange) ==> n + 12 >= U32
      ensures var refused := Refused(env.alloc, TotalLen(n)); refused.Some? ==> r == Err(refused.value)
      ensures r.Ok? ==> |old(rxq.mem)| < |rxq.mem| && PCM_XFER_HDR_SIZE <= |rxq.mem[|old(rxq.mem)|]|
      ensures r.Ok? && n + 12 < U32 ==> n + 12 <= |rxq.mem[|old(rxq.mem)|]|
      ensures old(Quiet(rxq)) && n + 12 < U32 ==>
                if r.Err? then RxOutcome(old(rxq), rxq, streamID, n, Err(r.error), [])
                else Offered(old(rxq), rxq, RxBufs(|old(rxq.mem)|, n), Le32(streamID))
                     && |old(rxq.avail)| < |rxq.avail| && r.value == rxq.avail[|old(rxq.avail)|]
      ensures r.Ok? ==> Placed(rxq, |old(rxq.chains)|)
      ensures RunsPast(rxq, |old(rxq.chains)|) <==>
                Defeated(n + 12, TotalLen(n), PCM_XFER_HDR_SIZE, env.alloc) && FreeCount(old(rxq.desc)) >= 3
      ensures r.Ok? ==>
                && RxSent(old(rxq), n, env) && env.doorbell
                && Published(Allocate(old(rxq), Copy(Zeros(env.alloc.bytes), 0, Le32(streamID))), rxq, RxChain(|old(rxq.mem)|, n))
                && |old(rxq.avail)| < |rxq.avail| && r.value == rxq.avail[|old(rxq.avail)|] && rxq.seen == old(rxq.seen)
      ensures r.Err? ==> RxExchange(old(rxq), rxq, streamID, n, env, pollBudget, Err(r.error), [])
    {
      hide Inv, Quiet, Answered, Abandoned, Unsent, Offered, Extends, Published, Le32, RunsPast, Placed, UnrungOver, FreeCount, Outstanding, RxChain;
      hide ExchangeBy, ReadOut;
      ghost var before := rxq;
      NotPublished(before, []);
      PagesHoldTransferIff(n);
      if Quiet(before) {
        StillQuiet(before, []);
      }
      ExtendsSelf(before, []);
      match env.alloc
      case AllocFails => return Err(ErrAlloc);
      case AllocZero => return Err(ErrAllocReturnedZero);
      case Block(bytes) =>
        if TotalLen(n) > bytes {
          return Err(ErrBufferTooSmall);
        }
        if PCM_XFER_HDR_SIZE > bytes {
          return Err(SliceOutOfRange);
        }
        var mem := Copy(Zeros(bytes), 0, Le32(streamID));
        assert mem[..4] == Le32(streamID);
        var page := |rxq.mem|;
        ExtendsSelf(before, mem);
        NotPublished(before, mem);
        rxq := Allocate(rxq, mem);
        var head, ring := AddChain(rxq, RxChain(page, n));
        if head.None? {
          if Quiet(before) {
            StillQuiet(before, mem);
          }
          return Err(ErrQueueFull);
        }
        RxPublished(before, mem, ring, streamID, n);
        UnrungIs(before, mem, RxChain(page, n), ring);
        if !env.doorbell {
          rxq := ReclaimChain(ring, head.value);
          return Err(ErrNotify);
        }
        rxq := ring;
        return Ok(head.value);
    }

    /** The polling half of Read: the count to return and the bytes to copy out. */
    method PollCapture(streamID: u32, n: nat, page: nat, head: nat, device: Script, ghost before: Ring, ghost quiet: bool)
      returns (r: Result<(nat, seq<byte>), SoundError>, ghost script: Script)
      requires 0 < n && page < |rxq.mem| && PCM_XFER_HDR_SIZE <= |rxq.mem[page]|
      requires n + 12 < U32 ==> n + 12 <= |rxq.mem[page]|
      requires quiet ==> Offered(before, rxq, RxBufs(|before.mem|, n), Le32(streamID)) && page == |before.mem|
      requires quiet ==> |before.avail| < |rxq.avail| && head == rxq.avail[|before.avail|] && n + 12 < U32
      modifies `rxq
      ensures Extends(old(rxq), rxq)
      ensures r.Err? ==> r.error in {ErrXferTimeout, ErrDeviceStatus, SliceOutOfRange}
      ensures r == Err(SliceOutOfRange) ==> n + 12 >= U32
      ensures r.Ok? ==> |r.value.1| <= r.value.0 <= n && (n + 12 < U32 ==> |r.value.1| == r.value.0)
      ensures quiet ==>
                RxOutcome(before, rxq, streamID, n, if r.Ok? then Ok(r.value.0) else Err(r.error), if r.Ok? then r.value.1 else [])
      ensures r != Err(ErrXferTimeout) && n + 12 < U32 ==>
                ReadOut(rxq, page, old(rxq.seen), n, if r.Ok? then Ok(r.value.0) else Err(r.error), if r.Ok? then r.value.1 else [])
      ensures Finished(old(rxq), head, pollBudget, script, r == Err(ErrXferTimeout), rxq) && Follows(old(rxq), script, device)
    {
      hide Inv, Answered, Offered, Advances, Extends, Le32, U32At, RxOutcome, Abandoned, FirstRun, Follows, Turns, ReclaimChain;
      ghost var offered := rxq;
      if quiet {
        OfferedSound(before, offered, RxBufs(page, n), Le32(streamID));
      }
      var got, ring, u, acts := AwaitFirst(rxq, pollBudget, device);
      script := acts;
      ExtendsBlock(offered, ring, page);
      ReclaimExtends(offered, ring, if got.Some? then got.value.head else head);
      ReclaimSame(ring, if got.Some? then got.value.head else head);
      if got.None? {
        if quiet {
          RxGaveUp(before, offered, ring, streamID, n);
        }
        rxq := ReclaimChain(ring, head);
        return Err(ErrXferTimeout), script;
      }
      if quiet {
        RxAnswered(before, offered, ring, streamID, n, u);
        RxDone(before, ReclaimChain(ring, got.value.head), streamID, n);
      }
      rxq := ReclaimChain(ring, got.value.head);
      r := ReadCapture(rxq.mem[page], n, got.value.len);
    }

    /** Read's slicing of its block, whose bounds are computed in 32 bits: the count to return and the bytes to copy. */
    static method ReadCapture(mem: seq<byte>, n: nat, length: nat) returns (r: Result<(nat, seq<byte>), SoundError>)
      requires PCM_XFER_HDR_SIZE <= |mem| && (n + 12 < U32 ==> n + 12 <= |mem|)
      ensures n + 12 < U32 ==>
                var k := Captured(length, n);
                r == if U32At(mem, PCM_XFER_HDR_SIZE + n) == SOK then Ok((k, mem[PCM_XFER_HDR_SIZE..PCM_XFER_HDR_SIZE + k])) else Err(ErrDeviceStatus)
      ensures r.Ok? ==> |r.value.1| <= r.value.0 <= n
      ensures r.Err? ==> r.error == ErrDeviceStatus || (r.error == SliceOutOfRange && n + 12 >= U32)
    {
      var payloadBytes := PayloadLength(length, n);
      var statusOff := Wrap32(PCM_XFER_HDR_SIZE + Wrap32(n));
      var statusEnd := Wrap32(statusOff + PCM_STATUS_SIZE);
      if !(statusOff <= statusEnd <= |mem|) {
        return Err(SliceOutOfRange);
      }
      if U32At(mem, statusOff) != SOK {
        return Err(ErrDeviceStatus);
      }
      var end := Wrap32(PCM_XFER_HDR_SIZE + Wrap32(payloadBytes));
      if !(PCM_XFER_HDR_SIZE <= end <= |mem|) {
        return Err(SliceOutOfRange);
      }
      WrapShrinks(payloadBytes);
      return Ok((payloadBytes, mem[PCM_XFER_HDR_SIZE..end]));
    }

    static lemma WrapShrinks(n: nat)
      ensures Wrap32(PCM_XFER_HDR_SIZE + Wrap32(n)) <= PCM_XFER_HDR_SIZE + n
    {
      assert Wrap32(n) <= n;
    }

    /** Go's copy(buf[:len(data)], data). */
    static method CopyOut(buf: array<byte>, data: seq<byte>)
      requires |data| <= buf.Length
      modifies buf
      ensures buf[..|data|] == data && buf[|data|..] == old(buf[|data|..])
    {
      forall i | 0 <= i < |data| {
        buf[i] := data[i];
      }
    }

    /** How many captured bytes a completion of this device-reported length means. */
    static method PayloadLength(length: nat, n: nat) returns (payloadBytes: nat)
      ensures payloadBytes == Captured(length, n)
    {
      payloadBytes := n;
      if length >= PCM_STATUS_SIZE {
        var devWritten := length - PCM_STATUS_SIZE;
        if devWritten < payloadBytes {
          payloadBytes := devWritten;
        }
      }
    }

    // -------------------------------------------------------------------------
    // controls.go
    // -------------------------------------------------------------------------

    /**
     Controls: as many controls as the device counts, each as the device's own report on this
     query describes it; on every other path, what became of the exchange.
     */
    method Controls(env: CtlEnv) returns (r: Result<seq<Control>, SoundError>)
      modifies `ctrlq
      ensures Extends(old(ctrlq), ctrlq)
      ensures !controlsNegotiated ==> r == Err(ErrControlsNotNegotiated) && ctrlq == old(ctrlq)
      ensures controlsNegotiated && env.controls.None? ==> r == Err(ErrConfigRead) && ctrlq == old(ctrlq)
      ensures controlsNegotiated && env.controls == Some(0) ==> r == Ok([]) && ctrlq == old(ctrlq)
      ensures r.Ok? ==> env.controls.Some? && |r.value| == env.controls.value && forall i | 0 <= i < |r.value| :: r.value[i].id == i
      ensures r == Err(SliceOutOfRange) ==> env.controls.Some? && env.controls.value * CTL_INFO_ENTRY_SIZE >= U32
      ensures r != Err(ErrShortResponse)
      ensures old(Quiet(ctrlq)) ==> ListOutcome(old(ctrlq), ctrlq, env.controls, r)
      ensures RunsPast(ctrlq, |old(ctrlq.chains)|) <==>
                && controlsNegotiated && env.controls.Some? && ListingOverruns(env.controls.value, env.exchange.alloc)
                && FreeCount(old(ctrlq.desc)) >= 3
      // on any queue: when the query is sent, and what the block it was answered in decides
      ensures env.controls != Some(0) || !controlsNegotiated ==>
                Moves(old(ctrlq), ctrlq, ListingWhy(controlsNegotiated, old(ctrlq), env),
                  env.exchange.doorbell, pollBudget, if r.Err? then Some(r.error) else None)
      ensures |ctrlq.avail| > |old(ctrlq.avail)| <==>
                && controlsNegotiated && env.controls.Some? && env.controls != Some(0)
                && env.exchange.alloc.Block? && env.exchange.alloc.bytes >= 16
                && env.exchange.alloc.bytes >= Wrap32(20 + ListingLength(env.controls.value))
                && FreeCount(old(ctrlq.desc)) >= if ListingLength(env.controls.value) > 0 then 3 else 2
      ensures env.controls.Some? ==>
                QueryExchange(old(ctrlq), ctrlq, QueryInfoReq(R_CTL_INFO, 0, env.controls.value, CTL_INFO_ENTRY_SIZE),
                  ListingLength(env.controls.value), env.exchange, pollBudget)
      ensures if ctrlq.seen > old(ctrlq.seen) then env.controls.Some? && ListingRead(old(ctrlq), ctrlq, env.controls.value, r)
              else if controlsNegotiated && env.controls == Some(0) then r.Ok? else r.Err? && r.error != ErrDeviceStatus
      ensures Counted(old(ctrlq), ctrlq, r.Err? && GivenUp(r.error))
    {
      hide Quiet, CtrlOutcome, Extends, RunsPast, DecodeControls, ListingLength, Wrap32, Counted, CtrlExchange, Logs, FreeCount, U32At;
      hide Moves, Replied, CtrlWhy, ListingRead, QueryInfoReq, Outstanding, Response, DecodeControl;
      CountedSelf(ctrlq, []);
      NoMove(ctrlq, 0);
      NotPublished(ctrlq, []);
      ExtendsSelf(ctrlq, []);
      if !controlsNegotiated {
        return Err(ErrControlsNotNegotiated);
      }
      if env.controls.None? {
        return Err(ErrConfigRead);
      }
      ListingShrinks(env.controls.value);
      if env.controls.value == 0 {
        return Ok([]);
      }
      ListingSentIff(true, ctrlq, env);
      r := QueryControls(env.controls.value, env.exchange);
    }

    /** The rest of Controls, once the device counts some. */
    method QueryControls(count: u32, env: Env) returns (r: Result<seq<Control>, SoundError>)
      requires count > 0
      modifies `ctrlq
      ensures Extends(old(ctrlq), ctrlq)
      ensures r.Ok? ==> |r.value| == count && forall i | 0 <= i < |r.value| :: r.value[i].id == i
      ensures r == Err(SliceOutOfRange) ==> count * CTL_INFO_ENTRY_SIZE >= U32
      ensures r != Err(ErrShortResponse)
      ensures old(Quiet(ctrlq)) ==> ListOutcome(old(ctrlq), ctrlq, Some(count), r)
      ensures RunsPast(ctrlq, |old(ctrlq.chains)|) <==> ListingOverruns(count, env.alloc) && FreeCount(old(ctrlq.desc)) >= 3
      ensures Moves(old(ctrlq), ctrlq, CtrlWhy(old(ctrlq), 16, ListingLength(count), env), env.doorbell, pollBudget,
                if r.Err? then Some(r.error) else None)
      ensures |ctrlq.avail| > |old(ctrlq.avail)| <==> CtrlWhy(old(ctrlq), 16, ListingLength(count), env).None?
      ensures QueryExchange(old(ctrlq), ctrlq, QueryInfoReq(R_CTL_INFO, 0, count, CTL_INFO_ENTRY_SIZE), ListingLength(count), env, pollBudget)
      ensures if ctrlq.seen > old(ctrlq.seen) then ListingRead(old(ctrlq), ctrlq, count, r) else r.Err? && r.error != ErrDeviceStatus
      ensures Counted(old(ctrlq), ctrlq, r.Err? && GivenUp(r.error))
    {
      hide Quiet, CtrlOutcome, Extends, RunsPast, DecodeControls, ListingLength, Wrap32, Counted, CtrlExchange, Logs, FreeCount, U32At;
      hide Moves, Replied, CtrlWhy, ListingRead, QueryInfoReq, Outstanding, Response, DecodeControl, CtrlBufs, Refused;
      ghost var before := ctrlq;
      ListingShrinks(count);
      var extraLen := ListingLength(count);
      var exchange := ControlRoundTrip(QueryInfoReq(R_CTL_INFO, 0, count, CTL_INFO_ENTRY_SIZE), extraLen, env);
      AnswerMoves(before, ctrlq, CtrlWhy(before, 16, extraLen, env), env.doorbell, pollBudget);
      MoveSends(before, ctrlq, CtrlWhy(before, 16, extraLen, env), env.doorbell, pollBudget, if exchange.Err? then Some(exchange.error) else None);
      RepliedOk(before, ctrlq, 16, extraLen, exchange);
      QueryIs(before, ctrlq, QueryInfoReq(R_CTL_INFO, 0, count, CTL_INFO_ENTRY_SIZE), extraLen, env, pollBudget, exchange);
      if exchange.Err? {
        if ctrlq.seen > before.seen {
          ListingOf(before, ctrlq, count, exchange, Err(exchange.error));
        }
        return Err(exchange.error);
      }
      var (status, payload) := exchange.value;
      r := Err(ErrDeviceStatus);
      if status == SOK {
        r := ParseControls(payload, count);
      }
      ListingOf(before, ctrlq, count, exchange, r);
    }

    /** What one listing of the controls comes to, the device counting `controls` of them. */
    ghost predicate ListOutcome(q: Ring, q': Ring, controls: Option<u32>, r: Result<seq<Control>, SoundError>) {
      || (q' == q && (r.Err? || (controls == Some(0) && r == Ok([]))))
      || (controls.Some? && exists exchange ::
            && CtrlOutcome(q, q', QueryInfoReq(R_CTL_INFO, 0, controls.value, CTL_INFO_ENTRY_SIZE),
                           ListingLength(controls.value), exchange)
            && Listing(exchange, controls.value, r))
    }

    /** What Controls makes of its exchange. */
    static predicate Listing(exchange: Result<(u32, seq<byte>), SoundError>, count: u32, r: Result<seq<Control>, SoundError>) {
      match exchange
      case Err(e) => r == Err(e)
      case Ok(answer) =>
        && (r == Err(ErrDeviceStatus) <==> answer.0 != SOK)
        && (r.Ok? ==> |answer.1| == count * CTL_INFO_ENTRY_SIZE < U32 && r.value == DecodeControls(answer.1, count))
        && (r.Err? && r.error != ErrDeviceStatus ==> r.error == SliceOutOfRange && count * CTL_INFO_ENTRY_SIZE >= U32)
    }

    lemma ListQuiet(q: Ring, q': Ring, controls: Option<u32>, r: Result<seq<Control>, SoundError>)
      requires Quiet(q) && ListOutcome(q, q', controls, r)
      ensures Quiet(q') || (r.Err? && r.error in {ErrControlTimeout, ErrNotify, SliceOutOfRange})
    {
      hide CtrlOutcome, Quiet;
      if !(q' == q && (r.Err? || (controls == Some(0) && r == Ok([])))) {
        var req, extra := QueryInfoReq(R_CTL_INFO, 0, controls.value, CTL_INFO_ENTRY_SIZE), ListingLength(controls.value);
        var exchange :| CtrlOutcome(q, q', req, extra, exchange) && Listing(exchange, controls.value, r);
        CtrlQuiet(q, q', req, extra, exchange);
      }
    }

    /** Controls' loop over the records of the payload. */
    static method ParseControls(payload: seq<byte>, count: u32) returns (r: Result<seq<Control>, SoundError>)
      requires count > 0 && |payload| == ListingLength(count)
      ensures r.Ok? ==> |payload| == count * CTL_INFO_ENTRY_SIZE < U32 && r.value == DecodeControls(payload, count)
      ensures r.Ok? ==> forall i | 0 <= i < count :: r.value[i].id == i
      ensures r.Err? ==> r.error == SliceOutOfRange && count * CTL_INFO_ENTRY_SIZE >= U32
    {
      hide DecodeControl, Wrap32;
      var out: seq<Control> := [];
      WrapSmall(count * CTL_INFO_ENTRY_SIZE);
      for i := 0 to count
        invariant |out| == i && i * CTL_INFO_ENTRY_SIZE <= |payload|
        invariant forall j | 0 <= j < i ::
                    out[j] == DecodeControl(payload[j * CTL_INFO_ENTRY_SIZE..(j + 1) * CTL_INFO_ENTRY_SIZE]).(id := j)
      {
        var lo, hi := Wrap32(i * CTL_INFO_ENTRY_SIZE), Wrap32((i + 1) * CTL_INFO_ENTRY_SIZE);
        SliceBounds(i * CTL_INFO_ENTRY_SIZE, CTL_INFO_ENTRY_SIZE, |payload|);
        if !(lo <= hi <= |payload|) {
          return Err(SliceOutOfRange);
        }
        var entry := ParseControlInfoEntry(payload[lo..hi]);
        assert entry.Ok?;  // the record is whole
        out := out + [entry.value.(id := i)];
      }
      return Ok(out);
    }

    /** ControlWrite: exactly these values are sent for exactly this control, and the device's answer decides. */
    method ControlWrite(id: u32, values: seq<int32>, env: CtlEnv) returns (r: Result<(), SoundError>)
      modifies `ctrlq
      ensures Extends(old(ctrlq), ctrlq)
      ensures !controlsNegotiated ==> r == Err(ErrControlsNotNegotiated) && ctrlq == old(ctrlq)
      ensures controlsNegotiated && values == [] ==> r == Err(ErrInvalidControlValues) && ctrlq == old(ctrlq)
      ensures controlsNegotiated && values != [] && env.controls.None? ==> r == Err(ErrConfigRead) && ctrlq == old(ctrlq)
      ensures controlsNegotiated && values != [] && env.controls.Some? && id >= env.controls.value ==>
                r == Err(ErrInvalidControlID) && ctrlq == old(ctrlq)
      ensures r.Ok? ==> controlsNegotiated && values != [] && env.controls.Some? && id < env.controls.value
      ensures r == Err(SliceOutOfRange) ==> 12 + 4 * |values| >= U32
      ensures old(Quiet(ctrlq)) ==> Commanded(old(ctrlq), ctrlq, CtlWriteReq(id, values), r)
      // on any queue: when the request is sent, and that the status in its block decides
      ensures CommandDone(old(ctrlq), ctrlq, WriteWhy(controlsNegotiated, old(ctrlq), id, |values|, env),
                CtlWriteReq(id, values), env.exchange, pollBudget, r)
      ensures |ctrlq.avail| > |old(ctrlq.avail)| <==>
                && controlsNegotiated && values != [] && env.controls.Some? && id < env.controls.value && 8 + 4 * |values| < U32
                && env.exchange.alloc.Block? && env.exchange.alloc.bytes >= 8 + 4 * |values|
                && env.exchange.alloc.bytes >= (12 + 4 * |values|) % U32 && FreeCount(old(ctrlq.desc)) >= 2
      ensures Counted(old(ctrlq), ctrlq, r.Err? && GivenUp(r.error))
    {
      hide Quiet, CtrlOutcome, Extends, Commanded, CtlWriteReq, Counted, CtrlExchange, Logs, FreeCount, U32At, RunsPast;
      hide Moves, Replied, CtrlWhy, CommandDone;
      CommandNotSent(ctrlq, CtlWriteReq(id, values), env.exchange, pollBudget);
      WriteSentIff(controlsNegotiated, ctrlq, id, |values|, env);
      CountedSelf(ctrlq, []);
      ghost var before := ctrlq;
      ExtendsSelf(ctrlq, []);
      CommandRefused(before, CtlWriteReq(id, values));
      if !controlsNegotiated {
        return Err(ErrControlsNotNegotiated);
      }
      if |values| == 0 {
        return Err(ErrInvalidControlValues);
      }
      if env.controls.None? {
        return Err(ErrConfigRead);
      }
      if id >= env.controls.value {
        return Err(ErrInvalidControlID);
      }
      var req := BuildCtlWriteReq(id, values);
      if req.Err? {
        return Err(req.error);
      }
      var exchange := ControlRoundTrip(req.value, 0, env.exchange);
      CommandAnswered(before, ctrlq, req.value, env.exchange, pollBudget, exchange);
      CommandMeans(before, ctrlq, CtrlWhy(before, |req.value|, 0, env.exchange), req.value, env.exchange, pollBudget, Verdict(exchange));
      if Quiet(before) {
        CommandSent(before, ctrlq, req.value, exchange);
      }
      if exchange.Err? {
        r := Err(exchange.error);
      } else if exchange.value.0 != SOK {
        r := Err(ErrDeviceStatus);
      } else {
        r := Ok(());
      }
    }

    /**
     SetVolume.  The device is first asked for its controls, `listed` being what Controls made
     of the answer and `middle` the queue then; if one is eligible, the device is told to set
     every channel of the chosen one to the scaled value, and its answer decides.
     */
    method SetVolume(streamID: u32, percent: byte, first: CtlEnv, second: CtlEnv)
      returns (r: Result<(), SoundError>, ghost listed: Result<seq<Control>, SoundError>, ghost at: nat, ghost middle: Ring)
      modifies `ctrlq
      ensures Extends(old(ctrlq), ctrlq)
      ensures percent > 100 ==> r == Err(ErrInvalidVolumePercent) && ctrlq == old(ctrlq)
      ensures percent <= 100 && !controlsNegotiated ==> r == Err(ErrControlsNotNegotiated) && ctrlq == old(ctrlq)
      ensures percent <= 100 && controlsNegotiated && old(Quiet(ctrlq)) ==> ListOutcome(old(ctrlq), middle, first.controls, listed)
      ensures percent <= 100 && controlsNegotiated && listed.Err? ==> r == Err(listed.error) && ctrlq == middle
      ensures percent <= 100 && controlsNegotiated && listed.Ok? && (forall i | 0 <= i < |listed.value| :: !IsVolume(listed.value[i])) ==>
                r == Err(ErrInvalidControlID) && ctrlq == middle
      ensures percent <= 100 && controlsNegotiated && listed.Ok? && (exists i :: 0 <= i < |listed.value| && IsVolume(listed.value[i])) ==>
                && Chosen(listed.value, IsVolume, Tag(streamID), at) && listed.value[at].id == at
                && (old(Quiet(ctrlq)) ==> Commanded(middle, ctrlq, CtlWriteReq(at, AllChannels(listed.value[at], percent)), r))
      ensures r.Ok? ==> percent <= 100 && listed.Ok? && exists i :: 0 <= i < |listed.value| && IsVolume(listed.value[i])
      // on any queue: when the listing is asked for, and what it says
      ensures percent <= 100 && controlsNegotiated ==>
                && (first.controls != Some(0) ==>
                      Moves(old(ctrlq), middle, ListingWhy(true, old(ctrlq), first), first.exchange.doorbell, pollBudget,
                        if listed.Err? then Some(listed.error) else None))
                && (middle.seen > old(ctrlq.seen) ==> first.controls.Some? && ListingRead(old(ctrlq), middle, first.controls.value, listed))
      // a volume is written, every channel percent hundredths of its range, rounded down; and when that is sent
      ensures percent <= 100 && controlsNegotiated && listed.Ok? && (exists i :: 0 <= i < |listed.value| && IsVolume(listed.value[i])) ==>
                var c := listed.value[at];
                && c.kind == CONTROL_TYPE_INTEGER && Contains(c.name, VOLUME)
                && ScaledTo(AllChannels(c, percent), c.numChannels, c.min, c.max, percent)
                && CommandDone(middle, ctrlq, WriteWhy(true, middle, at, c.numChannels, second),
                     CtlWriteReq(at, AllChannels(c, percent)), second.exchange, pollBudget, r)
      ensures Counted(old(ctrlq), ctrlq, r.Err? && GivenUp(r.error))
    {
      hide Quiet, CtrlOutcome, Commanded, Extends, VolumeValue, Chosen, IsVolume, ListOutcome, CtlWriteReq, Counted, Logs;
      hide FreeCount, U32At, ListingWhy, ListingRead, WriteWhy, Moves, CommandDone, QueryExchange;
      hide Contains, DecodeControl, RunsPast, ScaledTo, ListingLength;
      CountedSelf(ctrlq, []);
      listed, at, middle := Err(ErrControlsNotNegotiated), 0, ctrlq;
      ExtendsSelf(ctrlq, []);
      if percent > 100 {
        return Err(ErrInvalidVolumePercent), listed, at, middle;
      }
      if !controlsNegotiated {
        return Err(ErrControlsNotNegotiated), listed, at, middle;
      }
      ghost var before := ctrlq;
      var ctrls := Controls(first);
      listed, middle := ctrls, ctrlq;
      if ctrls.Err? {
        return Err(ctrls.error), listed, at, middle;
      }
      var c;
      c, at := FindVolumeControl(ctrls.value, streamID);
      if c.None? {
        return Err(ErrInvalidControlID), listed, at, middle;
      }
      ChosenInside(ctrls.value, IsVolume, Tag(streamID), at);
      ChannelsScaled(c.value, percent);
      var values := ChannelValues(c.value, percent);
      if Quiet(before) {
        ListQuiet(before, middle, first.controls, ctrls);
      }
      r := ControlWrite(c.value.id, values, second);
      ExtendsTransitive(before, middle, ctrlq);
      CountedThen(before, middle, ctrlq, r.Err? && GivenUp(r.error));
    }

    static method ChannelValues(c: Control, percent: nat) returns (values: seq<int32>)
      ensures values == AllChannels(c, percent)
    {
      hide VolumeValue;
      var val := VolumeValue(c.min, c.max, percent);
      var slots := new int32[c.numChannels](_ => 0);
      for i := 0 to slots.Length
        invariant forall j | 0 <= j < i :: slots[j] == val
      {
        slots[i] := val;
      }
      return slots[..];
    }

    /** Each of the values lies percent hundredths of the way, rounded down, from min to max, in either reading that orders them. */
    static predicate ScaledTo(values: seq<int32>, channels: u32, min: u32, max: u32, percent: nat) {
      && |values| == channels
      && (Signed(min) <= Signed(max) ==> forall i | 0 <= i < |values| ::
            var d, span := values[i] - Signed(min), Signed(max) - Signed(min);
            100 * d <= span * percent < 100 * d + 100)
      && (min <= max ==> forall i | 0 <= i < |values| ::
            var d, span := Unsigned(values[i]) - min, max - min;
            100 * d <= span * percent < 100 * d + 100)
    }

    static lemma ChannelsScaled(c: Control, percent: nat)
      requires percent <= 100
      ensures ScaledTo(AllChannels(c, percent), c.numChannels, c.min, c.max, percent)
    {
      hide VolumeValue, Scaled;
      if Signed(c.min) <= Signed(c.max) {
        VolumeExact(c.min, c.max, percent);
      }
      if c.min <= c.max {
        VolumeWordExact(c.min, c.max, percent);
      }
    }

    static function AllChannels(c: Control, percent: nat): seq<int32> {
      seq(c.numChannels, _ => VolumeValue(c.min, c.max, percent))
    }
  }
}
