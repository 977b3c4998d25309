/**
 Whole runs of the playback interface: any sequence of Write, WriteAsync and ReadEvents calls,
 with any number of timeouts, against any device.  Doorbell writes succeed.
 */
module Runs {
  import opened Wrappers
  import opened Bytes
  import opened Types
  import opened Virtqueue
  import opened Transfers
  import opened Notifications
  import opened Scripts
  import opened Driver

  datatype Op =
    | Write(streamID: u32, frames: seq<byte>, alloc: Alloc, device: Script)
    | WriteAsync(streamID: u32, frames: seq<byte>, alloc: Alloc)
    | ReadEvents(device: Script, budget: nat)

  /** What the caller is given back. */
  datatype Returned =
    | Wrote(count: Result<nat, SoundError>)
    | Posting(cookie: Result<nat, SoundError>)
    | Got(events: seq<Event>)

  /** The txq with what is recorded about it, and the eventq, between two calls. */
  datatype State = State(ring: Ring, registry: Registry, pending: seq<Parked>, timedOut: set<nat>, eventq: Ring)

  ghost function Snapshot(v: VirtioSound): State
    reads v
  {
    State(v.txq, v.Cookies(), v.pendingTxq, v.timedOut, v.eventq)
  }

  /** The invariants every run keeps. */
  ghost predicate Ready(v: VirtioSound, exact: bool)
    reads v
  {
    && Parking(v.txq, {}, v.pendingTxq, v.parked, v.timedOut, exact, true)
    && Stock(v.eventq) && v.pendingEvents == []
  }

  ghost predicate AllAccounted(s: State) {
    Accounted(s.ring, s.pending, s.timedOut, s.registry)
  }

  predicate OpFits(op: Op) {
    !op.ReadEvents? ==> Fits(|op.frames|, op.alloc)
  }

  /** The call ends in a slice panic: its length check is defeated by a block too short for the frames. */
  predicate Crashes(deviceStreams: u32, op: Op) {
    !op.ReadEvents? && op.frames != [] && op.streamID < deviceStreams && Panics(|op.frames|, op.alloc)
  }

  predicate Crashed(ret: Returned) {
    ret == Wrote(Err(SliceOutOfRange)) || ret == Posting(Err(SliceOutOfRange))
  }

  /** The number of streams and the poll budget, which never change. */
  datatype Config = Config(streams: u32, pollBudget: nat)

  ghost function ConfigOf(v: VirtioSound): Config {
    Config(v.deviceStreams, v.pollBudget)
  }

  /** How a transfer is answered that has nothing to send, no stream, or no block that does. */
  ghost predicate Screened(cfg: Config, streamID: u32, frames: seq<byte>, alloc: Alloc, a: State, b: State, r: Result<nat, SoundError>) {
    && (frames == [] ==> r == Ok(0) && b.ring == a.ring)
    && (frames != [] && streamID >= cfg.streams ==> r == Err(ErrStreamIDOutOfRange) && b.ring == a.ring)
    && (frames != [] && streamID < cfg.streams ==>
          && (alloc.AllocFails? ==> r == Err(ErrAlloc))
          && (alloc.AllocZero? ==> r == Err(ErrAllocReturnedZero))
          && (alloc.Block? && alloc.bytes < TotalLen(|frames|) ==> r == Err(ErrBufferTooSmall))
          && (alloc.Block? && TotalLen(|frames|) <= alloc.bytes < PCM_XFER_HDR_SIZE + |frames| ==> r == Err(SliceOutOfRange)))
  }

  /** The transfer goes out if the ring has room for it. */
  predicate Sendable(cfg: Config, streamID: u32, frames: seq<byte>, alloc: Alloc) {
    frames != [] && streamID < cfg.streams && alloc.Block? && alloc.bytes >= |frames| + 12
  }

  /** A Write that can be sent drains first, is refused exactly when the ring is still full, and is decided by the report on its own ticket. */
  ghost predicate Written(cfg: Config, streamID: u32, frames: seq<byte>, alloc: Alloc, device: Script,
      a: State, b: State, r: Result<nat, SoundError>)
  {
    var t := |a.ring.avail|;
    && Screened(cfg, streamID, frames, alloc, a, b, r)
    && (Sendable(cfg, streamID, frames, alloc) ==> exists how ::
          && WriteRun(Tx(a.ring, a.pending), cfg.pollBudget, TxBlock(alloc.bytes, streamID, frames), |frames|, how, b.ring)
          && WriteFollows(Tx(a.ring, a.pending), TxBlock(alloc.bytes, streamID, frames), |frames|, how, device)
          && (r == Err(ErrQueueFull) <==> FreeCount(TxTurns(Tx(a.ring, a.pending), how.drain).ring.desc) < 3))
    && (|b.ring.avail| > t ==>
          && (r == Err(ErrXferTimeout) <==> t in Outstanding(b.ring))
          && (t !in Outstanding(b.ring) ==> exists k ::
                && a.ring.seen <= k < b.ring.seen && k < |b.ring.answers| == |b.ring.reports|
                && b.ring.answers[k] == t && |b.ring.reports[k]| == PCM_STATUS_SIZE
                && (r == Ok(|frames|) <==> U32At(b.ring.reports[k], 0) == SOK)
                && (r == Err(ErrDeviceStatus) <==> U32At(b.ring.reports[k], 0) != SOK)))
  }

  /** A WriteAsync that can be sent is, exactly when three slots are free. */
  ghost predicate Submitted(cfg: Config, streamID: u32, frames: seq<byte>, alloc: Alloc, a: State, b: State, r: Result<nat, SoundError>) {
    && Screened(cfg, streamID, frames, alloc, a, b, r)
    && (Sendable(cfg, streamID, frames, alloc) ==>
          var free := FreeCount(a.ring.desc);
          && (r.Ok? <==> free >= 3) && (r == Err(ErrQueueFull) <==> free < 3)
          && |b.ring.avail| == |a.ring.avail| + if free >= 3 then 1 else 0)
  }

  /**
   What one call did and said: a Write answers for its own ticket and leaves the registry
   alone; a WriteAsync issues a cookie for exactly its transfer; a ReadEvents returns the
   completions it delivered and then every notification the device reported, and leaves
   nothing to poll on either queue.
   */
  ghost predicate Outcome(cfg: Config, op: Op, ret: Returned, a: State, b: State) {
    match op
    case Write(streamID, frames, alloc, device) =>
      && ret.Wrote? && b.registry == a.registry && b.eventq == a.eventq && WriteOutcome(a.ring, b.ring, streamID, frames, ret.count)
      && Written(cfg, streamID, frames, alloc, device, a, b, ret.count)
    case WriteAsync(streamID, frames, alloc) =>
      && ret.Posting? && b.eventq == a.eventq && Submitted(cfg, streamID, frames, alloc, a, b, ret.cookie)
      && if ret.cookie.Ok? && frames != [] then Issued(a.ring, b.ring, streamID, frames, ret.cookie.value, a.registry, b.registry)
         else b.registry == a.registry
    case ReadEvents(device, _) =>
      && ret.Got? && Drained(a.ring, b.ring, device) && Delivery(a, b, ret.events)
      && Unseen(b.ring) == {} && Unseen(b.eventq) == {}
  }

  /** The txq was polled until nothing was left, the device doing what it had planned. */
  ghost predicate Drained(r: Ring, r': Ring, device: Script) {
    exists script :: Drains(r, script) && r' == Turns(r, script) && Follows(r, script, device)
  }

  /**
   Whatever the registry is worth, the completions returned are of cookies that were in flight,
   each once and gone, and the notifications are those reported on the eventq, in order.  When
   it is truthful, the completions are those owed to the tickets polled, in used-ring order.
   */
  ghost predicate Delivery(a: State, b: State, events: seq<Event>) {
    exists done, notes ::
      && events == done + notes && NotifiedUpTo(a.eventq, b.eventq, notes)
      && ReportedUpTo(a.ring, a.registry, b.ring, b.registry, done)
      && (Tracks(a.ring, a.registry) ==> DeliveredUpTo(a.ring, a.registry, b.ring, b.registry, done))
      && (exists ks :: Noted(b.eventq, a.eventq.seen, notes, ks))
      && (Tracks(a.ring, a.registry) ==> exists ks :: InOrder(b.ring, a.registry, a.ring.seen, done, ks))
  }

  /** The first n calls keep the cookie discipline: Write only with no cookie in flight, and cookie numbers left. */
  ghost predicate Disciplined(ops: seq<Op>, trace: seq<State>, n: nat) {
    && n <= |ops| && n < |trace|
    && (forall i | 0 <= i < n && ops[i].Write? :: trace[i].registry.cookies == map[])
    && trace[0].registry.next + n < U64
  }

  /** The cookies of the WriteComplete events a call returned. */
  function CompletedIn(ret: Returned): seq<nat> {
    if ret.Got? then Completed(ret.events) else []
  }

  function AllCompleted(results: seq<Returned>): seq<nat> {
    if |results| == 0 then [] else AllCompleted(results[..|results| - 1]) + CompletedIn(results[|results| - 1])
  }

  /** The calls of the run can all be given cookie numbers. */
  predicate NumbersLeft(first: State, n: nat) {
    first.registry.next + n < U64
  }

  /**
   After any run the InUse slots are exactly those of the chains published and not polled, the
   event stock is kept, every timed-out chain still outstanding is listed, and in a run of
   Write alone pendingTxq is exact.  `trace` is the state before each call and at the end; each
   call's outcome is as `Outcome` says.  The run ends early exactly at the first call that ends
   in a slice panic.  While there are cookie numbers, disciplined or not, the cookies issued are
   the disjoint union of those in flight and those delivered, and the WriteComplete events of
   the whole run name pairwise distinct cookies, exactly those delivered during the run.  As
   long as the cookie discipline is kept, parked chains or not, the registry also follows
   exactly the outstanding asynchronous chains.
   */
  method Run(v: VirtioSound, ops: seq<Op>, ghost exact: bool) returns (results: seq<Returned>, crashed: bool, ghost trace: seq<State>)
    requires Ready(v, exact) && Tracks(v.txq, v.Cookies())
    requires forall op | op in ops :: OpFits(op)
    requires exact ==> forall op | op in ops :: op.Write?
    modifies v
    ensures Ready(v, exact)
    ensures |results| <= |ops| && |trace| == |results| + 1
    ensures trace[0] == old(Snapshot(v)) && trace[|results|] == Snapshot(v)
    ensures !crashed ==> |results| == |ops| && forall i | 0 <= i < |ops| :: !Crashes(v.deviceStreams, ops[i])
    ensures crashed ==>
              && 0 < |results| && Crashes(v.deviceStreams, ops[|results| - 1])
              && forall i | 0 <= i < |results| - 1 :: !Crashes(v.deviceStreams, ops[i])
    ensures forall i | 0 <= i < |results| :: Outcome(ConfigOf(v), ops[i], results[i], trace[i], trace[i + 1])
    ensures forall n | 0 <= n <= |results| && Disciplined(ops, trace, n) :: Tracks(trace[n].ring, trace[n].registry)
    ensures NumbersLeft(trace[0], |results|) ==>
              && Ledger(v.Cookies()) && old(v.delivered) <= v.delivered
              && Distinct(AllCompleted(results)) && Elems(AllCompleted(results)) == v.delivered - old(v.delivered)
    ensures Disciplined(ops, trace, |results|) && AllAccounted(trace[0]) ==> AllAccounted(trace[|results|])
  {
    hide Ready, Tracks, Snapshot, RunSoFar, Stepped, Crashes, Ledger;
    results, crashed := [], false;
    trace := [Snapshot(v)];
    FirstTracks(v);
    RunStarts(ConfigOf(v), ops, Snapshot(v));
    for i := 0 to |ops|
      invariant Ready(v, exact)
      invariant |results| == i && |trace| == i + 1 && trace[0] == old(Snapshot(v)) && trace[i] == Snapshot(v)
      invariant RunSoFar(ConfigOf(v), ops, results, trace)
      invariant forall j | 0 <= j < i :: !Crashes(v.deviceStreams, ops[j])
    {
      assert ops[i] in ops;
      var ret := Step(v, ops[i], exact);
      RunMore(ConfigOf(v), ops, results, trace, ret, Snapshot(v));
      results, trace := results + [ret], trace + [Snapshot(v)];
      if Crashed(ret) {
        crashed := true;
        break;
      }
    }
    RunMeans(ConfigOf(v), ops, results, trace);
    RegistryOf(v);
  }

  /** What is known of the calls made so far. */
  ghost predicate RunSoFar(cfg: Config, ops: seq<Op>, results: seq<Returned>, trace: seq<State>) {
    var i := |results|;
    && i <= |ops| && |trace| == i + 1
    && trace[i].registry.next <= trace[0].registry.next + i
    && (forall j | 0 <= j < i :: Outcome(cfg, ops[j], results[j], trace[j], trace[j + 1]))
    && (forall n | 0 <= n <= i && Disciplined(ops, trace, n) :: Tracks(trace[n].ring, trace[n].registry))
    && (NumbersLeft(trace[0], i) ==> DeliveredSoFar(AllCompleted(results), trace[0].registry, trace[i].registry))
    && (Disciplined(ops, trace, i) && AllAccounted(trace[0]) ==> AllAccounted(trace[i]))
  }

  lemma RunMeans(cfg: Config, ops: seq<Op>, results: seq<Returned>, trace: seq<State>)
    requires RunSoFar(cfg, ops, results, trace)
    ensures var n := |results|;
            && n <= |ops| && |trace| == n + 1
            && (forall i | 0 <= i < n :: Outcome(cfg, ops[i], results[i], trace[i], trace[i + 1]))
            && (forall k | 0 <= k <= n && Disciplined(ops, trace, k) :: Tracks(trace[k].ring, trace[k].registry))
            && (NumbersLeft(trace[0], n) ==> DeliveredSoFar(AllCompleted(results), trace[0].registry, trace[n].registry))
            && (Disciplined(ops, trace, n) && AllAccounted(trace[0]) ==> AllAccounted(trace[n]))
  {
    hide Outcome, DeliveredSoFar, Tracks, Disciplined, AllAccounted;
  }

  lemma RunStarts(cfg: Config, ops: seq<Op>, s: State)
    requires Tracks(s.ring, s.registry)
    ensures RunSoFar(cfg, ops, [], [s])
  {
    hide AllAccounted, CookiesTrack, FirstCookies;
  }

  lemma RunMore(cfg: Config, ops: seq<Op>, results: seq<Returned>, trace: seq<State>, ret: Returned, s: State)
    requires RunSoFar(cfg, ops, results, trace) && |results| < |ops|
    requires Stepped(cfg, ops[|results|], ret, trace[|results|], s)
    ensures RunSoFar(cfg, ops, results + [ret], trace + [s])
  {
    hide Tracks, AllAccounted, Outcome, AllCompleted, CompletedIn, Stepped, Disciplined, DeliveredSoFar, Allowed;
    var i := |results|;
    StepMeans(cfg, ops[i], ret, trace[i], s);
    DisciplineShrinks(ops, trace, trace + [s], i);
    if Disciplined(ops, trace + [s], i + 1) {
      AllowedNow(ops, trace, i);
    }
    if NumbersLeft(trace[0], i + 1) {
      MoreDelivered(cfg, ops[i], results, ret, trace[0].registry, trace[i], s);
    }
  }

  lemma MoreDelivered(cfg: Config, op: Op, results: seq<Returned>, ret: Returned, first: Registry, a: State, s: State)
    requires DeliveredSoFar(AllCompleted(results), first, a.registry)
    requires Stepped(cfg, op, ret, a, s) && a.registry.next + 1 < U64
    ensures DeliveredSoFar(AllCompleted(results + [ret]), first, s.registry)
  {
    hide Stepped, CompletedIn, Ledger, DeliveredSoFar, Outcome, Tracks, AllAccounted;
    LedgerSoFar(AllCompleted(results), first, a.registry);
    StepMeans(cfg, op, ret, a, s);
    assert (results + [ret])[..|results|] == results;
    MoreCompleted(AllCompleted(results), CompletedIn(ret), first, a.registry, s.registry);
  }

  lemma AllowedNow(ops: seq<Op>, trace: seq<State>, i: nat)
    requires i < |ops| && |trace| == i + 1 && Tracks(trace[i].ring, trace[i].registry)
    requires trace[i].registry.next <= trace[0].registry.next + i && trace[0].registry.next + i + 1 < U64
    requires ops[i].Write? ==> trace[i].registry.cookies == map[]
    ensures Allowed(ops[i], trace[i])
  {
  }

  /** The run so far delivered each of these cookies once, and lost count of none. */
  ghost predicate DeliveredSoFar(cookies: seq<nat>, first: Registry, g: Registry) {
    Ledger(g) && Distinct(cookies) && Elems(cookies) == g.delivered - first.delivered && first.delivered <= g.delivered
  }

  lemma LedgerSoFar(cookies: seq<nat>, first: Registry, g: Registry)
    requires DeliveredSoFar(cookies, first, g)
    ensures Ledger(g)
  {
  }

  lemma FirstTracks(v: VirtioSound)
    requires Tracks(v.txq, v.Cookies())
    ensures Tracks(Snapshot(v).ring, Snapshot(v).registry) && Snapshot(v).registry.delivered == v.delivered
  {
  }

  lemma RegistryOf(v: VirtioSound)
    ensures Snapshot(v).registry == v.Cookies() && v.Cookies().delivered == v.delivered
  {
  }

  lemma DisciplineShrinks(ops: seq<Op>, before: seq<State>, trace: seq<State>, i: nat)
    requires |before| == i + 1 && i < |ops| && |trace| == i + 2 && trace[..i + 1] == before
    ensures forall n | 0 <= n <= i :: Disciplined(ops, trace, n) <==> Disciplined(ops, before, n)
    ensures Disciplined(ops, trace, i + 1) ==>
              Disciplined(ops, before, i) && (ops[i].Write? ==> before[i].registry.cookies == map[]) && before[0].registry.next + i + 1 < U64
  {
    assert forall j | 0 <= j <= i :: trace[j] == before[j];
  }

  /** Cookies delivered now were in flight, so none of them was delivered before. */
  lemma MoreCompleted(s: seq<nat>, more: seq<nat>, first: Registry, g: Registry, g': Registry)
    requires DeliveredSoFar(s, first, g) && Ledger(g')
    requires Distinct(more) && Elems(more) !! g.delivered && g'.delivered == g.delivered + Elems(more)
    ensures DeliveredSoFar(s + more, first, g')
  {
    hide Ledger;
    assert Elems(s + more) == Elems(s) + Elems(more);
    forall i, j | 0 <= i < j < |s + more|
      ensures (s + more)[i] != (s + more)[j]
    {
      if i < |s| <= j {
        assert s[i] in Elems(s) && more[j - |s|] in Elems(more);
      }
    }
  }

  /** The discipline one call has to keep. */
  ghost predicate Allowed(op: Op, a: State) {
    && Tracks(a.ring, a.registry)
    && (op.Write? ==> a.registry.cookies == map[])
    && (op.WriteAsync? ==> a.registry.next + 1 < U64)
  }

  /** The ledger goes on: the completions returned are of cookies that were not delivered before, and now are. */
  ghost predicate LedgerStep(ret: Returned, g: Registry, g': Registry) {
    && Ledger(g')
    && Distinct(CompletedIn(ret)) && Elems(CompletedIn(ret)) !! g.delivered
    && g'.delivered == g.delivered + Elems(CompletedIn(ret))
  }

  /** What one call does to the registry. */
  ghost predicate Stepped(cfg: Config, op: Op, ret: Returned, a: State, b: State) {
    && Outcome(cfg, op, ret, a, b)
    && b.registry.next <= a.registry.next + 1
    && (Ledger(a.registry) && a.registry.next + 1 < U64 ==> LedgerStep(ret, a.registry, b.registry))
    && (Allowed(op, a) ==> Tracks(b.ring, b.registry))
    && (Allowed(op, a) && AllAccounted(a) ==> AllAccounted(b))
  }

  lemma StepMeans(cfg: Config, op: Op, ret: Returned, a: State, b: State)
    requires Stepped(cfg, op, ret, a, b)
    ensures Outcome(cfg, op, ret, a, b) && b.registry.next <= a.registry.next + 1
    ensures Ledger(a.registry) && a.registry.next + 1 < U64 ==>
              && Ledger(b.registry)
              && Distinct(CompletedIn(ret)) && Elems(CompletedIn(ret)) !! a.registry.delivered
              && b.registry.delivered == a.registry.delivered + Elems(CompletedIn(ret))
    ensures Allowed(op, a) ==> Tracks(b.ring, b.registry)
    ensures Allowed(op, a) && AllAccounted(a) ==> AllAccounted(b)
  {
  }

  /** One call. */
  method Step(v: VirtioSound, op: Op, ghost exact: bool) returns (ret: Returned)
    requires Ready(v, exact) && OpFits(op) && (exact ==> op.Write?)
    modifies v
    ensures Ready(v, exact) && Stepped(ConfigOf(v), op, ret, old(Snapshot(v)), Snapshot(v))
    ensures Crashed(ret) <==> Crashes(v.deviceStreams, op)
  {
    hide Ready, Stepped, Snapshot, Panics;
    match op
    case Write(streamID, frames, alloc, device) => ret := WriteStep(v, streamID, frames, alloc, device, exact);
    case WriteAsync(streamID, frames, alloc) => ret := WriteAsyncStep(v, streamID, frames, alloc);
    case ReadEvents(device, budget) => ret := ReadEventsStep(v, device, budget);
  }

  lemma ScreenedIs(cfg: Config, streamID: u32, frames: seq<byte>, alloc: Alloc, a: State, b: State, r: Result<nat, SoundError>)
    requires frames == [] ==> r == Ok(0) && b.ring == a.ring
    requires frames != [] && streamID >= cfg.streams ==> r == Err(ErrStreamIDOutOfRange) && b.ring == a.ring
    requires frames != [] && streamID < cfg.streams ==>
               var refused := Refused(alloc, TotalLen(|frames|)); refused.Some? ==> r == Err(refused.value)
    requires frames != [] && streamID < cfg.streams && Panics(|frames|, alloc) ==> r == Err(SliceOutOfRange)
    ensures Screened(cfg, streamID, frames, alloc, a, b, r)
  {
  }

  lemma WrittenIs(cfg: Config, streamID: u32, frames: seq<byte>, alloc: Alloc, device: Script,
      a: State, b: State, r: Result<nat, SoundError>, how: How)
    requires Screened(cfg, streamID, frames, alloc, a, b, r) && Fits(|frames|, alloc)
    requires frames != [] && streamID < cfg.streams && Postable(|frames|, Env(alloc, true, device)) ==>
               && WriteRun(Tx(a.ring, a.pending), cfg.pollBudget, TxBlock(alloc.bytes, streamID, frames), |frames|, how, b.ring)
               && WriteFollows(Tx(a.ring, a.pending), TxBlock(alloc.bytes, streamID, frames), |frames|, how, device)
    requires Sendable(cfg, streamID, frames, alloc) ==>
               (r == Err(ErrQueueFull) <==> FreeCount(TxTurns(Tx(a.ring, a.pending), how.drain).ring.desc) < 3)
    requires WriteOutcome(a.ring, b.ring, streamID, frames, r)
    ensures Written(cfg, streamID, frames, alloc, device, a, b, r)
  {
    hide WriteRun, WriteFollows, WriteOutcome, TxTurns, Screened, Outstanding, U32At;
    if |b.ring.avail| > |a.ring.avail| {
      OutcomeDecides(a.ring, b.ring, streamID, frames, r);
    }
  }

  lemma SubmittedIs(cfg: Config, streamID: u32, frames: seq<byte>, alloc: Alloc, a: State, b: State, r: Result<nat, SoundError>)
    requires Screened(cfg, streamID, frames, alloc, a, b, r)
    requires Sendable(cfg, streamID, frames, alloc) ==>
               var free := FreeCount(a.ring.desc);
               && (r.Ok? <==> free >= 3) && (r == Err(ErrQueueFull) <==> free < 3)
               && |b.ring.avail| == |a.ring.avail| + if free >= 3 then 1 else 0
    ensures Submitted(cfg, streamID, frames, alloc, a, b, r)
  {
    hide Screened;
  }

  method WriteStep(v: VirtioSound, streamID: u32, frames: seq<byte>, alloc: Alloc, device: Script, ghost exact: bool) returns (ret: Returned)
    requires Ready(v, exact) && Fits(|frames|, alloc)
    modifies v
    ensures Ready(v, exact) && Stepped(ConfigOf(v), Write(streamID, frames, alloc, device), ret, old(Snapshot(v)), Snapshot(v))
    ensures Crashed(ret) <==> Crashes(v.deviceStreams, Write(streamID, frames, alloc, device))
    ensures ret.Wrote?
  {
    hide Inv, Stock, Tracks, ParkedExactly, ParkedCovers, Accounted, WriteOutcome, Extends, Adds, WriteRun, Panics, Ledger;
    hide TxTurns, DrainRun, Follows, WriteFollows, Screened, Written, Outstanding, U32At, LedgerStep, Fits, Refused, TotalLen, FreeCount;
    ghost var a := Snapshot(v);
    var r, how := v.Write(streamID, frames, Env(alloc, true, device), exact, true);
    ret := Wrote(r);
    ScreenedIs(ConfigOf(v), streamID, frames, alloc, a, Snapshot(v), r);
    WrittenIs(ConfigOf(v), streamID, frames, alloc, device, a, Snapshot(v), r, how);
    if Allowed(Write(streamID, frames, alloc, device), a) {
      WriteTracks(a.ring, v.txq, a.registry);
      if AllAccounted(a) {
        WriteAccounts(a.ring, v.txq, a.pending, v.pendingTxq, a.timedOut, v.timedOut, r == Err(ErrXferTimeout), a.registry);
      }
    }
    if Ledger(a.registry) {
      LedgerQuiet(ret, a.registry, a.registry);
    }
  }

  method WriteAsyncStep(v: VirtioSound, streamID: u32, frames: seq<byte>, alloc: Alloc) returns (ret: Returned)
    requires Ready(v, false) && Fits(|frames|, alloc)
    modifies v
    ensures Ready(v, false) && Stepped(ConfigOf(v), WriteAsync(streamID, frames, alloc), ret, old(Snapshot(v)), Snapshot(v))
    ensures Crashed(ret) <==> Crashes(v.deviceStreams, WriteAsync(streamID, frames, alloc))
    ensures ret.Posting?
  {
    hide Inv, Stock, Tracks, ParkedExactly, ParkedCovers, Accounted, Issued, Extends, Joins, Panics, Ledger;
    hide Screened, Submitted, Outstanding, LedgerStep, Fits, Refused, TotalLen, FreeCount;
    ghost var a := Snapshot(v);
    ghost var allowed := Allowed(WriteAsync(streamID, frames, alloc), a);
    var r := v.WriteAsync(streamID, frames, Env(alloc, true, []), true, allowed);
    ret := Posting(r);
    ScreenedIs(ConfigOf(v), streamID, frames, alloc, a, Snapshot(v), r);
    SubmittedIs(ConfigOf(v), streamID, frames, alloc, a, Snapshot(v), r);
    IssuedNext(a.ring, v.txq, streamID, frames, if r.Ok? then r.value else 0, a.registry, v.Cookies());
    if allowed && AllAccounted(a) {
      WriteAsyncAccounts(a.ring, v.txq, a.pending, a.timedOut, a.registry, v.Cookies());
    }
    if Ledger(a.registry) && a.registry.next + 1 < U64 {
      LedgerQuiet(ret, a.registry, v.Cookies());
    }
  }

  method ReadEventsStep(v: VirtioSound, device: Script, budget: nat) returns (ret: Returned)
    requires Ready(v, false)
    modifies v
    ensures Ready(v, false) && Stepped(ConfigOf(v), ReadEvents(device, budget), ret, old(Snapshot(v)), Snapshot(v))
    ensures ret.Got?
  {
    hide Inv, Stock, Tracks, ParkedExactly, ParkedCovers, Accounted, Extends, Drains;
    hide DeliveredUpTo, ReportedUpTo, NotifiedUpTo, Stepped, Turns, Follows, InOrder, Noted, Unseen, FirstCookies, Ledger;
    ghost var a := Snapshot(v);
    ghost var track := Tracks(a.ring, a.registry);
    var events, script := v.ReadEvents(device, budget, true, track);
    ret := Got(events);
    ghost var done, notes :| events == old(v.pendingEvents) + done + notes && NotifiedUpTo(old(v.eventq), v.eventq, notes)
      && ReportedUpTo(a.ring, a.registry, v.txq, v.Cookies(), done)
      && (track ==> DeliveredUpTo(a.ring, a.registry, v.txq, v.Cookies(), done))
      && (exists ks :: Noted(v.eventq, old(v.eventq.seen), notes, ks))
      && (track ==> exists ks :: InOrder(v.txq, a.registry, a.ring.seen, done, ks));
    assert old(v.pendingEvents) + done + notes == done + notes;
    EventsStepped(ConfigOf(v), device, budget, a, Snapshot(v), script, done, notes);
  }

  lemma EventsStepped(cfg: Config, device: Script, budget: nat, a: State, b: State, script: Script, done: seq<Event>, notes: seq<Event>)
    requires Sound(a.ring) && Drains(a.ring, script) && b.ring == Turns(a.ring, script) && Follows(a.ring, script, device)
    requires b.pending == a.pending && b.timedOut == a.timedOut && ParkedCovers(b.ring, b.pending, b.timedOut)
    requires NotifiedUpTo(a.eventq, b.eventq, notes) && ReportedUpTo(a.ring, a.registry, b.ring, b.registry, done)
    requires Tracks(a.ring, a.registry) ==> DeliveredUpTo(a.ring, a.registry, b.ring, b.registry, done) && Tracks(b.ring, b.registry)
    requires exists ks :: Noted(b.eventq, a.eventq.seen, notes, ks)
    requires Tracks(a.ring, a.registry) ==> exists ks :: InOrder(b.ring, a.registry, a.ring.seen, done, ks)
    requires Unseen(b.ring) == {} && Unseen(b.eventq) == {}
    ensures Stepped(cfg, ReadEvents(device, budget), Got(done + notes), a, b)
  {
    hide Inv, Tracks, ParkedCovers, Accounted, Drains, Turns, Follows, DeliveredUpTo, ReportedUpTo, NotifiedUpTo, Delivery, Ledger, LedgerStep;
    hide InOrder, Noted, Unseen;
    Delivered(a, b, done, notes);
    if Tracks(a.ring, a.registry) && AllAccounted(a) {
      ReadEventsAccounts(a.ring, b.ring, script, a.pending, a.timedOut, a.registry, b.registry, done);
    }
  }

  lemma Delivered(a: State, b: State, done: seq<Event>, notes: seq<Event>)
    requires NotifiedUpTo(a.eventq, b.eventq, notes) && ReportedUpTo(a.ring, a.registry, b.ring, b.registry, done)
    requires Tracks(a.ring, a.registry) ==> DeliveredUpTo(a.ring, a.registry, b.ring, b.registry, done)
    requires exists ks :: Noted(b.eventq, a.eventq.seen, notes, ks)
    requires Tracks(a.ring, a.registry) ==> exists ks :: InOrder(b.ring, a.registry, a.ring.seen, done, ks)
    ensures Delivery(a, b, done + notes) && b.registry.next == a.registry.next
    ensures Ledger(a.registry) ==> LedgerStep(Got(done + notes), a.registry, b.registry)
  {
    hide Tracks, DeliveredUpTo, NotifiedUpTo, Completed, Delivers, ReportedUpTo, InOrder, Noted;
    NoneCompleted(a.eventq, b.eventq, notes);
    DrainCookies(a.ring, a.registry, b.ring, b.registry, done);
    CompletedConcat(done, notes);
    assert Completed(done) + [] == Completed(done);
    if Ledger(a.registry) {
      LedgerDelivers(a.registry, b.registry, done);
    }
  }

  /** A call that returns no events. */
  lemma LedgerQuiet(ret: Returned, g: Registry, g': Registry)
    requires Ledger(g') && g'.delivered == g.delivered && !ret.Got?
    ensures LedgerStep(ret, g, g')
  {
    assert Distinct([]) && Elems([]) == {};
  }

  lemma WriteTracks(r: Ring, r': Ring, g: Registry)
    requires Tracks(r, g) && g.cookies == map[] && Extends(r, r') && Sound(r')
    ensures Tracks(r', g)
  {
    AlignedLogs(r');
    NoCookies(r, r', g);
  }

  lemma IssuedNext(r: Ring, r': Ring, streamID: u32, frames: seq<byte>, cookie: nat, g: Registry, g': Registry)
    ensures Issued(r, r', streamID, frames, cookie, g, g') ==>
              && g'.next <= g.next + 1 && g'.delivered == g.delivered
              && (Ledger(g) && g.next + 1 < U64 ==> Ledger(g'))
  {
    if Issued(r, r', streamID, frames, cookie, g, g') && Ledger(g) && g.next + 1 < U64 {
      LedgerIssue(g, g');
    }
  }

  lemma NoneCompleted(r: Ring, r': Ring, notes: seq<Event>)
    requires NotifiedUpTo(r, r', notes)
    ensures Completed(notes) == []
  {
    NoticesComplete(r'.used, r'.reports, r.seen, r'.seen);
    NoCompletions(notes);
  }

  lemma {:induction false} NoCompletions(evs: seq<Event>)
    requires forall i | 0 <= i < |evs| :: evs[i].kind != WriteComplete
    ensures Completed(evs) == []
  {
    if |evs| > 0 {
      NoCompletions(evs[..|evs| - 1]);
    }
  }
}
