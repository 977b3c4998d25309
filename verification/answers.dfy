/**
 Whose answer a synchronous exchange gets.  Neither controlRoundTrip (sound.go) nor Read
 (capture.go) compares the head it polls with its own, so this rests on what else is still
 with the device; only the logs of the queue matter here, not whether its table is sound.
 */
module Answers {
  import opened Wrappers
  import opened Bytes
  import opened Types
  import opened Virtqueue
  import opened Exchanges
  import opened Scripts
  import opened Transfers

  /** The polling half of an exchange: the chain of the first completion polled is reclaimed or, with the budget spent on nothing, the own one. */
  ghost predicate Finished(posted: Ring, h: nat, budget: nat, script: Script, gaveUp: bool, q': Ring) {
    && FirstRun(posted, budget, script, !gaveUp)
    && q' == if gaveUp then ReclaimChain(Turns(posted, script), h) else Turns(posted, script)
  }

  /** A whole exchange: a chain over `bufs`, in `block`, was published on free slots and polled for. */
  ghost predicate ExchangeRun(q: Ring, block: seq<byte>, bufs: seq<Buf>, budget: nat, slots: seq<nat>, script: Script, gaveUp: bool, q': Ring) {
    && |slots| == |bufs| > 0 && InRange(slots, |q.desc|) && FreeSlots(q.desc, slots)
    && Finished(Publish(Allocate(q, block), slots, bufs), slots[0], budget, script, gaveUp, q')
  }

  ghost predicate AnsweredOver(q: Ring, block: seq<byte>, bufs: seq<Buf>, budget: nat, q': Ring) {
    exists slots, script :: ExchangeRun(q, block, bufs, budget, slots, script, false, q')
  }

  /** As many turns as the budget allows, and none found a completion. */
  ghost predicate TimedOutOver(q: Ring, block: seq<byte>, bufs: seq<Buf>, budget: nat, q': Ring) {
    exists slots, script :: ExchangeRun(q, block, bufs, budget, slots, script, true, q')
  }

  /** The same for a device whose plan is known: what it completes before each poll is what it does of that. */
  ghost predicate ExchangeBy(q: Ring, block: seq<byte>, bufs: seq<Buf>, budget: nat, device: Script, gaveUp: bool, q': Ring) {
    exists slots, script ::
      ExchangeRun(q, block, bufs, budget, slots, script, gaveUp, q') && Follows(Publish(Allocate(q, block), slots, bufs), script, device)
  }

  /** The doorbell failed, and the chain was reclaimed at once. */
  ghost predicate UnrungOver(q: Ring, block: seq<byte>, bufs: seq<Buf>, q': Ring) {
    exists slots ::
      && |slots| == |bufs| > 0 && InRange(slots, |q.desc|) && FreeSlots(q.desc, slots)
      && q' == ReclaimChain(Publish(Allocate(q, block), slots, bufs), slots[0])
  }

  /** In an answered exchange on a queue whose logs make sense, all turns come to the last. */
  lemma LastTurn(posted: Ring, h: nat, budget: nat, script: Script, q': Ring)
    requires Logs(posted) && Finished(posted, h, budget, script, false, q')
    ensures May(posted, Last(script)) && Polls(posted, Last(script)) && q' == Turn(posted, Last(script))
  {
    hide Logs, May, Turn;
    IdleTurns(posted, Init(script));
    assert script == Init(script) + [Last(script)];
    TurnsMore(posted, Init(script), Last(script));
  }

  lemma OneTurn(posted: Ring, h: nat, budget: nat, cs: seq<Completion>)
    requires May(posted, cs) && Polls(posted, cs) && budget > 0
    ensures Finished(posted, h, budget, [cs], false, Turn(posted, cs))
  {
    hide May, Turn;
    FirstStarts(posted);
    TurnsMore(posted, [], cs);
    assert [] + [cs] == [cs] && Init([cs]) == [] && Last([cs]) == cs;
  }

  /** The completion polled was the exchange's own. */
  predicate Own(q: Ring, q': Ring) {
    q.seen < |q'.answers| && q'.answers[q.seen] == |q.avail|
  }

  // --- the logs ---

  lemma LogsPosted(q: Ring, block: seq<byte>, slots: seq<nat>, bufs: seq<Buf>)
    requires Logs(q) && |slots| == |bufs| > 0 && InRange(slots, |q.desc|)
    ensures var posted := Publish(Allocate(q, block), slots, bufs);
            && Logs(posted) && |q.avail| in posted.held
            && Outstanding(posted) == Outstanding(q) + {|q.avail|} && |q.avail| !in Outstanding(q)
            && posted.seen == q.seen && posted.answers == q.answers && posted.used == q.used
  {
    var r1 := Allocate(q, block);
    assert Unseen(r1) == Unseen(q);
    PublishLogs(r1, slots, bufs);
  }

  lemma {:induction false} LogsDone(r: Ring, cs: seq<Completion>)
    requires Logs(r) && May(r, cs)
    ensures Logs(Does(r, cs)) && Outstanding(Does(r, cs)) == Outstanding(r)
    ensures r.answers <= Does(r, cs).answers && Does(r, cs).seen == r.seen && Does(r, cs).avail == r.avail
    decreases |cs|
  {
    hide Logs, Outstanding;
    if |cs| > 0 {
      var c, p := cs[|cs| - 1], Does(r, cs[..|cs| - 1]);
      LogsDone(r, cs[..|cs| - 1]);
      CompleteLogs(p, c.ticket, c.len, Does(r, cs));
    }
  }

  lemma LogsReclaimed(r: Ring, h: nat)
    requires Logs(r)
    ensures Logs(ReclaimChain(r, h)) && Outstanding(ReclaimChain(r, h)) == Outstanding(r)
  {
    assert Unseen(ReclaimChain(r, h)) == Unseen(r);
  }

  /** A turn takes exactly the polled ticket out of the outstanding ones, sound or not. */
  lemma LogsTurn(r: Ring, cs: seq<Completion>)
    requires Logs(r) && May(r, cs) && Polls(r, cs)
    ensures var r', t := Turn(r, cs), TicketPolled(r, cs);
            && Logs(r') && t in Outstanding(r) && Outstanding(r') == Outstanding(r) - {t}
            && r.seen < |r'.answers| && r'.answers[r.seen] == t && r'.seen == r.seen + 1
  {
    hide Does, May;
    LogsDone(r, cs);
    var s := Does(r, cs);
    UnseenAfterPoll(s);
    LogsPolled(s);
    LogsReclaimed(PollUsed(s), s.used[s.seen].head);
  }

  lemma LogsPolled(s: Ring)
    requires Logs(s) && s.seen < |s.used|
    ensures Logs(PollUsed(s)) && s.answers[s.seen] in Outstanding(s)
    ensures Outstanding(PollUsed(s)) == Outstanding(s) - {s.answers[s.seen]}
  {
    UnseenAfterPoll(s);
  }

  // --- whose answer ---

  /** On a ring just posted to, the first completion is the own chain's for every device exactly when nothing else is outstanding. */
  lemma FirstPolledIff(r: Ring, t: nat)
    requires Logs(r) && t in r.held
    ensures (forall cs | May(r, cs) && Polls(r, cs) :: TicketPolled(r, cs) == t) <==> Outstanding(r) == {t}
  {
    if Outstanding(r) == {t} {
      forall cs | May(r, cs) && Polls(r, cs)
        ensures TicketPolled(r, cs) == t
      {
        LogsTurn(r, cs);
      }
    } else {
      var cs := AnotherFirst(r, t);
      assert May(r, cs) && Polls(r, cs) && TicketPolled(r, cs) != t;
    }
  }

  /** With something else outstanding, there is a device that has it polled first. */
  lemma AnotherFirst(r: Ring, t: nat) returns (cs: seq<Completion>)
    requires Logs(r) && t in r.held && Outstanding(r) != {t}
    ensures May(r, cs) && Polls(r, cs) && TicketPolled(r, cs) != t
  {
    if r.seen < |r.used| {
      DoesNothing(r);
      cs := [];
    } else {
      assert Unseen(r) == {};
      assert r.held != {t};
      var u :| u in r.held && u != t;
      cs := CanComplete(r, u);
    }
  }

  /**
   For every exchange over every layout, the answer is the exchange's own, whatever the device
   does, if and only if nothing was outstanding on the queue before it.  (With no budget there
   is no answer.)
   */
  lemma AnswerIsOwnIff(q: Ring, block: seq<byte>, bufs: seq<Buf>, budget: nat)
    requires Logs(q) && 0 < |bufs| <= FreeCount(q.desc)
    ensures (forall q' | AnsweredOver(q, block, bufs, budget, q') :: Own(q, q')) <==> Outstanding(q) == {} || budget == 0
  {
    hide Logs, May, Polls, Turn, TicketPolled, Outstanding, Finished;
    if Outstanding(q) == {} || budget == 0 {
      forall q' | AnsweredOver(q, block, bufs, budget, q')
        ensures Own(q, q')
      {
        OwnAnswer(q, block, bufs, budget, q');
      }
    } else {
      var slots := TakeFree(q.desc, |bufs|);
      LogsPosted(q, block, slots, bufs);
      var posted := Publish(Allocate(q, block), slots, bufs);
      PostedAnother(q, |q.avail|, posted);
      var cs := AnotherFirst(posted, |q.avail|);
      LogsTurn(posted, cs);
      OneTurn(posted, slots[0], budget, cs);
      assert ExchangeRun(q, block, bufs, budget, slots, [cs], false, Turn(posted, cs));
      assert AnsweredOver(q, block, bufs, budget, Turn(posted, cs)) && !Own(q, Turn(posted, cs));
    }
  }

  lemma PostedAnother(q: Ring, t: nat, posted: Ring)
    requires Outstanding(posted) == Outstanding(q) + {t} && t !in Outstanding(q) && Outstanding(q) != {}
    ensures Outstanding(posted) != {t}
  {
    hide Outstanding;
    var u :| u in Outstanding(q);
    assert u in Outstanding(posted);
  }

  lemma OwnAnswer(q: Ring, block: seq<byte>, bufs: seq<Buf>, budget: nat, q': Ring)
    requires Logs(q) && AnsweredOver(q, block, bufs, budget, q') && (Outstanding(q) == {} || budget == 0)
    ensures Own(q, q')
  {
    hide Logs, May, Polls, Turn, TicketPolled, Outstanding;
    var slots, script :| ExchangeRun(q, block, bufs, budget, slots, script, false, q');
    LogsPosted(q, block, slots, bufs);
    var posted := Publish(Allocate(q, block), slots, bufs);
    LastTurn(posted, slots[0], budget, script, q');
    LogsTurn(posted, Last(script));
  }

  /** The exchange ended with its chain published and not polled: a timeout or a failed doorbell. */
  predicate GivenUp(e: SoundError) {
    e in {ErrControlTimeout, ErrXferTimeout, ErrNotify}
  }

  /**
   How many chains are outstanding afterwards: as many as before, and one more for an exchange
   that gave up.
   */
  ghost predicate Counted(q: Ring, q': Ring, gaveUp: bool) {
    Logs(q) ==> Logs(q') && |Outstanding(q')| == |Outstanding(q)| + if gaveUp then 1 else 0
  }

  lemma CountedSelf(q: Ring, block: seq<byte>)
    ensures Counted(q, q, false) && Counted(q, Allocate(q, block), false)
  {
    assert Unseen(Allocate(q, block)) == Unseen(q);
  }

  lemma CountedThen(a: Ring, b: Ring, c: Ring, gaveUp: bool)
    requires Counted(a, b, false) && Counted(b, c, gaveUp)
    ensures Counted(a, c, gaveUp)
  {
  }

  /** An exchange leaves as many chains outstanding as before, and its own too exactly when it gave up. */
  lemma ExchangeCounts(q: Ring, block: seq<byte>, bufs: seq<Buf>, budget: nat, slots: seq<nat>, script: Script, gaveUp: bool, q': Ring)
    requires ExchangeRun(q, block, bufs, budget, slots, script, gaveUp, q')
    ensures Counted(q, q', gaveUp)
  {
    hide Logs, May, Polls, Turn, TicketPolled, Outstanding, Publish;
    if Logs(q) {
      LogsPosted(q, block, slots, bufs);
      var posted := Publish(Allocate(q, block), slots, bufs);
      assert |Outstanding(q) + {|q.avail|}| == |Outstanding(q)| + 1;
      if gaveUp {
        IdleTurns(posted, script);
        LogsReclaimed(posted, slots[0]);
      } else {
        LastTurn(posted, slots[0], budget, script, q');
        LogsTurn(posted, Last(script));
      }
    }
  }

  /** So does one whose doorbell failed. */
  lemma UnrungCounts(q: Ring, block: seq<byte>, bufs: seq<Buf>, q': Ring)
    requires UnrungOver(q, block, bufs, q')
    ensures Counted(q, q', true)
  {
    hide Logs, Outstanding, Publish;
    var slots :|
      && |slots| == |bufs| > 0 && InRange(slots, |q.desc|) && FreeSlots(q.desc, slots)
      && q' == ReclaimChain(Publish(Allocate(q, block), slots, bufs), slots[0]);
    if Logs(q) {
      LogsPosted(q, block, slots, bufs);
      assert |Outstanding(q) + {|q.avail|}| == |Outstanding(q)| + 1;
      LogsReclaimed(Publish(Allocate(q, block), slots, bufs), slots[0]);
    }
  }

  // ---------------------------------------------------------------------------
  // Whole exchanges, on any queue
  // ---------------------------------------------------------------------------

  /** The answer is what is in the exchange's own block after its request: a status, and the payload behind it. */
  predicate ReadBack(q: Ring, page: nat, n: nat, extra: nat, answer: (u32, seq<byte>)) {
    && page < |q.mem| && n + HDR_SIZE + extra <= |q.mem[page]|
    && answer.0 == U32At(q.mem[page], n) && answer.1 == q.mem[page][n + HDR_SIZE..n + HDR_SIZE + extra]
  }

  /**
   One control exchange, whatever else is outstanding: why it is refused, with nothing
   published; or else that the request is sent, and what becomes of it.
   */
  ghost predicate CtrlExchange(q: Ring, q': Ring, req: seq<byte>, extra: nat, env: Env, budget: nat, res: Result<(u32, seq<byte>), SoundError>) {
    var n := |req|;
    match env.alloc
    case AllocFails => q' == q && res == Err(ErrAlloc)
    case AllocZero => q' == q && res == Err(ErrAllocReturnedZero)
    case Block(bytes) =>
      if Wrap32(n + HDR_SIZE + extra) > bytes then q' == q && res == Err(ErrBufferTooSmall)
      else if n > bytes then q' == q && res == Err(SliceOutOfRange)
      else
        var block, bufs := Copy(Zeros(bytes), 0, req), CtrlBufs(|q.mem|, n, extra);
        if FreeCount(q.desc) < |bufs| then q' == Allocate(q, block) && res == Err(ErrQueueFull)
        else if !env.doorbell then UnrungOver(q, block, bufs, q') && res == Err(ErrNotify)
        else if res == Err(ErrControlTimeout) then ExchangeBy(q, block, bufs, budget, env.device, true, q')
        else
          && ExchangeBy(q, block, bufs, budget, env.device, false, q')
          && if Wraps(n, extra) then res == Err(SliceOutOfRange) else res.Ok? && ReadBack(q', |q.mem|, n, extra, res.value)
  }

  /** A query: whatever else is outstanding, exactly `req` is what is sent, if anything is. */
  ghost predicate QueryExchange(q: Ring, q': Ring, req: seq<byte>, extra: nat, env: Env, budget: nat) {
    q' == q || exists exchange :: CtrlExchange(q, q', req, extra, env, budget, exchange)
  }

  lemma QueryIs(q: Ring, q': Ring, req: seq<byte>, extra: nat, env: Env, budget: nat, exchange: Result<(u32, seq<byte>), SoundError>)
    ensures CtrlExchange(q, q', req, extra, env, budget, exchange) ==> QueryExchange(q, q', req, extra, env, budget)
  {
    hide CtrlExchange;
  }

  /** A command without payload: whatever else is outstanding, exactly `req` is what is sent, if anything is. */
  ghost predicate CommandExchange(q: Ring, q': Ring, req: seq<byte>, env: Env, budget: nat, r: Result<(), SoundError>) {
    || q' == q
    || exists exchange :: CtrlExchange(q, q', req, 0, env, budget, exchange) && r == Verdict(exchange)
  }

  lemma CommandIs(q: Ring, q': Ring, req: seq<byte>, env: Env, budget: nat, exchange: Result<(u32, seq<byte>), SoundError>)
    ensures forall r :: CommandExchange(q, q, req, env, budget, r)
    ensures CtrlExchange(q, q', req, 0, env, budget, exchange) ==> CommandExchange(q, q', req, env, budget, Verdict(exchange))
  {
    hide CtrlExchange;
  }

  /** One capture of n bytes: the same for Read. `data` is what it copies out. */
  ghost predicate RxExchange(q: Ring, q': Ring, streamID: u32, n: nat, env: Env, budget: nat, res: Result<nat, SoundError>, data: seq<byte>) {
    match env.alloc
    case AllocFails => q' == q && res == Err(ErrAlloc)
    case AllocZero => q' == q && res == Err(ErrAllocReturnedZero)
    case Block(bytes) =>
      if TotalLen(n) > bytes then q' == q && res == Err(ErrBufferTooSmall)
      else if PCM_XFER_HDR_SIZE > bytes then q' == q && res == Err(SliceOutOfRange)
      else
        var block, bufs := Copy(Zeros(bytes), 0, Le32(streamID)), RxChain(|q.mem|, n);
        if FreeCount(q.desc) < 3 then q' == Allocate(q, block) && res == Err(ErrQueueFull)
        else if !env.doorbell then UnrungOver(q, block, bufs, q') && res == Err(ErrNotify)
        else if res == Err(ErrXferTimeout) then ExchangeBy(q, block, bufs, budget, env.device, true, q')
        else
          && ExchangeBy(q, block, bufs, budget, env.device, false, q')
          && if n + 12 < U32 then ReadOut(q', |q.mem|, q.seen, n, res, data) else res.Ok? || res.error in {ErrDeviceStatus, SliceOutOfRange}
  }

  /** What Read makes of its own block and of the length reported with completion `k`. */
  predicate ReadOut(q: Ring, page: nat, k: nat, n: nat, res: Result<nat, SoundError>, data: seq<byte>) {
    && page < |q.mem| && n + 12 <= |q.mem[page]| && k < |q.used|
    && var mem, len := q.mem[page], q.used[k].len;
    && (res.Ok? <==> U32At(mem, PCM_XFER_HDR_SIZE + n) == SOK)
    && (res.Err? <==> res == Err(ErrDeviceStatus))
    && (res.Ok? ==>
          && (PCM_STATUS_SIZE <= len <= n + PCM_STATUS_SIZE ==> res.value + PCM_STATUS_SIZE == len)
          && (len < PCM_STATUS_SIZE || len > n + PCM_STATUS_SIZE ==> res.value == n)
          && data == mem[PCM_XFER_HDR_SIZE..PCM_XFER_HDR_SIZE + res.value])
  }

  /** The block holds the request, going by its 32-bit length, and the ring has room for the chain. */
  predicate CtrlSent(q: Ring, n: nat, extra: nat, env: Env) {
    && env.alloc.Block? && Wrap32(n + HDR_SIZE + extra) <= env.alloc.bytes && n <= env.alloc.bytes
    && FreeCount(q.desc) >= if extra > 0 then 3 else 2
  }

  predicate RxSent(q: Ring, n: nat, env: Env) {
    env.alloc.Block? && TotalLen(n) <= env.alloc.bytes && PCM_XFER_HDR_SIZE <= env.alloc.bytes && FreeCount(q.desc) >= 3
  }

  /**
   How an exchange moves its queue, `why` being the reason not to send it, if there is one,
   and `e` the error it ends with, if any.  A chain goes out exactly when nothing speaks
   against it; a failed doorbell is told exactly when one did; otherwise a completion is
   polled unless the exchange timed out, which it does only if none was there already.
   */
  predicate Moves(q: Ring, q': Ring, why: Option<SoundError>, doorbell: bool, budget: nat, e: Option<SoundError>) {
    && |q'.avail| == |q.avail| + (if why.None? then 1 else 0)
    && (why.Some? ==> e == why)
    && (e == Some(ErrNotify) <==> why.None? && !doorbell)
    && q'.seen == q.seen + (if why.None? && doorbell && e != Some(ErrControlTimeout) then 1 else 0)
    && (e == Some(ErrControlTimeout) ==> why.None? && doorbell && (budget > 0 ==> q.seen >= |q.used|))
  }

  lemma MoveSends(q: Ring, q': Ring, why: Option<SoundError>, doorbell: bool, budget: nat, e: Option<SoundError>)
    requires Moves(q, q', why, doorbell, budget, e)
    ensures |q'.avail| > |q.avail| <==> why.None?
  {
  }

  /** Why a request of n bytes with `extra` bytes of payload expected is not sent, if it is not. */
  function CtrlWhy(q: Ring, n: nat, extra: nat, env: Env): Option<SoundError> {
    match env.alloc
    case AllocFails => Some(ErrAlloc)
    case AllocZero => Some(ErrAllocReturnedZero)
    case Block(bytes) =>
      if Wrap32(n + HDR_SIZE + extra) > bytes then Some(ErrBufferTooSmall)
      else if n > bytes then Some(SliceOutOfRange)
      else if FreeCount(q.desc) < (if extra > 0 then 3 else 2) then Some(ErrQueueFull)
      else None
  }

  /** Once a completion is polled the answer is what the own block then holds; without one there is none. */
  predicate Replied(q: Ring, q': Ring, n: nat, extra: nat, res: Result<(u32, seq<byte>), SoundError>) {
    && (q'.seen > q.seen ==>
          if Wraps(n, extra) then res == Err(SliceOutOfRange) else res.Ok? && ReadBack(q', |q.mem|, n, extra, res.value))
    && (q'.seen <= q.seen ==> res.Err? && res.error != ErrDeviceStatus)
  }

  /** A request of n bytes answered without payload: the status in its block decides; without an answer it fails. */
  predicate StatusRead(q: Ring, q': Ring, n: nat, r: Result<(), SoundError>) {
    && (q'.seen <= q.seen ==> r.Err? && r.error != ErrDeviceStatus)
    && (q'.seen > q.seen && !Wraps(n, 0) ==>
          && |q.mem| < |q'.mem| && n + HDR_SIZE <= |q'.mem[|q.mem|]|
          && (r.Ok? <==> U32At(q'.mem[|q.mem|], n) == SOK)
          && (r == Err(ErrDeviceStatus) <==> U32At(q'.mem[|q.mem|], n) != SOK))
  }

  lemma StatusOf(q: Ring, q': Ring, n: nat, exchange: Result<(u32, seq<byte>), SoundError>)
    requires Replied(q, q', n, 0, exchange)
    ensures StatusRead(q, q', n, Verdict(exchange))
  {
    hide U32At;
  }

  lemma RepliedOk(q: Ring, q': Ring, n: nat, extra: nat, res: Result<(u32, seq<byte>), SoundError>)
    requires Replied(q, q', n, extra, res)
    ensures res.Ok? ==> q'.seen > q.seen && !Wraps(n, extra)
    ensures res.Err? && q'.seen > q.seen ==> Wraps(n, extra)
    ensures res.Err? ==> res.error != ErrDeviceStatus
  {
  }

  /** An answer that is then found wanting moves the queue as any answer does. */
  lemma AnswerMoves(q: Ring, q': Ring, why: Option<SoundError>, doorbell: bool, budget: nat)
    ensures Moves(q, q', why, doorbell, budget, None) ==>
              forall e | e !in {ErrNotify, ErrControlTimeout} :: Moves(q, q', why, doorbell, budget, Some(e))
  {
  }

  /** No exchange at all. */
  lemma NoMove(q: Ring, n: nat)
    ensures forall doorbell, budget, e | e !in {ErrNotify, ErrControlTimeout} :: Moves(q, q, Some(e), doorbell, budget, Some(e))
    ensures forall e | e != ErrDeviceStatus :: StatusRead(q, q, n, Err(e))
  {
  }

  // --- the pieces put together ---

  lemma UnrungIs(q: Ring, block: seq<byte>, bufs: seq<Buf>, posted: Ring)
    requires Published(Allocate(q, block), posted, bufs)
    ensures |q.avail| < |posted.avail| && UnrungOver(q, block, bufs, ReclaimChain(posted, posted.avail[|q.avail|]))
    ensures posted.seen == q.seen
  {
    hide ReclaimChain, Link;
    var slots := posted.chains[|q.chains|].slots;
    assert posted.avail[|q.avail|] == slots[0];
  }

  lemma FinishedIs(q: Ring, block: seq<byte>, bufs: seq<Buf>, posted: Ring, h: nat, budget: nat, device: Script, script: Script,
                   gaveUp: bool, q': Ring)
    requires Published(Allocate(q, block), posted, bufs) && |q.avail| < |posted.avail| && h == posted.avail[|q.avail|]
    requires Finished(posted, h, budget, script, gaveUp, q') && Follows(posted, script, device)
    ensures ExchangeBy(q, block, bufs, budget, device, gaveUp, q')
  {
    hide Finished, Link, Follows;
    assert ExchangeRun(q, block, bufs, budget, posted.chains[|q.chains|].slots, script, gaveUp, q');
  }

  /** A control exchange whose request was sent and whose doorbell was rung. */
  lemma CtrlFinished(q: Ring, posted: Ring, req: seq<byte>, extra: nat, env: Env, budget: nat, h: nat, script: Script, q': Ring,
                     res: Result<(u32, seq<byte>), SoundError>)
    requires CtrlSent(q, |req|, extra, env) && env.doorbell
    requires Published(Allocate(q, Copy(Zeros(env.alloc.bytes), 0, req)), posted, CtrlBufs(|q.mem|, |req|, extra))
    requires |q.avail| < |posted.avail| && h == posted.avail[|q.avail|]
    requires Finished(posted, h, budget, script, res == Err(ErrControlTimeout), q') && Follows(posted, script, env.device)
    requires res != Err(ErrControlTimeout) ==>
               if Wraps(|req|, extra) then res == Err(SliceOutOfRange) else res.Ok? && ReadBack(q', |q.mem|, |req|, extra, res.value)
    ensures CtrlExchange(q, q', req, extra, env, budget, res)
  {
    hide Finished, Published, ReadBack, ExchangeBy, Follows, FreeCount;
    FinishedIs(q, Copy(Zeros(env.alloc.bytes), 0, req), CtrlBufs(|q.mem|, |req|, extra), posted, h, budget, env.device, script,
      res == Err(ErrControlTimeout), q');
  }

  /** A capture whose chain was published and whose doorbell was rung. */
  lemma RxFinished(q: Ring, posted: Ring, streamID: u32, n: nat, env: Env, budget: nat, h: nat, script: Script, q': Ring,
                   res: Result<nat, SoundError>, data: seq<byte>)
    requires RxSent(q, n, env) && env.doorbell
    requires Published(Allocate(q, Copy(Zeros(env.alloc.bytes), 0, Le32(streamID))), posted, RxChain(|q.mem|, n))
    requires |q.avail| < |posted.avail| && h == posted.avail[|q.avail|]
    requires Finished(posted, h, budget, script, res == Err(ErrXferTimeout), q') && Follows(posted, script, env.device)
    requires res != Err(ErrXferTimeout) ==>
               if n + 12 < U32 then ReadOut(q', |q.mem|, q.seen, n, res, data) else res.Ok? || res.error in {ErrDeviceStatus, SliceOutOfRange}
    ensures RxExchange(q, q', streamID, n, env, budget, res, data)
  {
    hide Finished, Published, ReadOut, ExchangeBy, Follows, FreeCount, TotalLen, Le32;
    FinishedIs(q, Copy(Zeros(env.alloc.bytes), 0, Le32(streamID)), RxChain(|q.mem|, n), posted, h, budget, env.device, script,
      res == Err(ErrXferTimeout), q');
  }

  // --- what it comes to ---

  lemma {:induction false} TurnsAvail(r: Ring, script: Script)
    ensures Turns(r, script).avail == r.avail
    decreases |script|
  {
    if |script| > 0 {
      DoesAvail(r, script[0]);
      TurnsAvail(Turn(r, script[0]), script[1..]);
    }
  }

  lemma {:induction false} DoesAvail(r: Ring, cs: seq<Completion>)
    ensures Does(r, cs).avail == r.avail
    decreases |cs|
  {
    if |cs| > 0 {
      DoesAvail(r, cs[..|cs| - 1]);
    }
  }

  lemma {:induction false} NoneSeen(r: Ring, script: Script)
    requires NonePolls(r, script)
    ensures Turns(r, script).seen == r.seen
    decreases |script|
  {
    hide May;
    if |script| > 0 {
      DoesGrows(r, script[0]);
      NoneSeen(Turn(r, script[0]), script[1..]);
    }
  }

  /** Only an answered exchange moves the driver on in the used ring, and every one of these published its chain. */
  lemma RunMoves(q: Ring, block: seq<byte>, bufs: seq<Buf>, budget: nat, slots: seq<nat>, script: Script, gaveUp: bool, q': Ring)
    requires ExchangeRun(q, block, bufs, budget, slots, script, gaveUp, q')
    ensures |q'.avail| == |q.avail| + 1 && q'.seen == q.seen + if gaveUp then 0 else 1
    ensures gaveUp && budget > 0 ==> q.seen >= |q.used|
  {
    hide May, Link;
    var posted := Publish(Allocate(q, block), slots, bufs);
    TurnsAvail(posted, script);
    if gaveUp {
      NoneSeen(posted, script);
      if budget > 0 {
        SomePolls(posted, script);
      }
    } else {
      NoneSeen(posted, Init(script));
      assert script == Init(script) + [Last(script)];
      TurnsMore(posted, Init(script), Last(script));
      DoesGrows(Turns(posted, Init(script)), Last(script));
    }
  }

  /** An exchange with a device whose plan is known is an exchange. */
  lemma ByIsOver(q: Ring, block: seq<byte>, bufs: seq<Buf>, budget: nat, device: Script, q': Ring)
    ensures ExchangeBy(q, block, bufs, budget, device, true, q') ==> TimedOutOver(q, block, bufs, budget, q')
    ensures ExchangeBy(q, block, bufs, budget, device, false, q') ==> AnsweredOver(q, block, bufs, budget, q')
  {
    hide ExchangeRun, Follows, Link;
  }

  lemma OverMoves(q: Ring, block: seq<byte>, bufs: seq<Buf>, budget: nat, device: Script, q': Ring)
    ensures UnrungOver(q, block, bufs, q') ==> |q'.avail| == |q.avail| + 1 && q'.seen == q.seen
    ensures ExchangeBy(q, block, bufs, budget, device, true, q') ==>
              |q'.avail| == |q.avail| + 1 && q'.seen == q.seen && (budget > 0 ==> q.seen >= |q.used|)
    ensures ExchangeBy(q, block, bufs, budget, device, false, q') ==> |q'.avail| == |q.avail| + 1 && q'.seen == q.seen + 1
  {
    hide ExchangeRun, Link, ExchangeBy;
    ByIsOver(q, block, bufs, budget, device, q');
    if slots, script :| ExchangeRun(q, block, bufs, budget, slots, script, true, q') {
      RunMoves(q, block, bufs, budget, slots, script, true, q');
    }
    if slots, script :| ExchangeRun(q, block, bufs, budget, slots, script, false, q') {
      RunMoves(q, block, bufs, budget, slots, script, false, q');
    }
  }

  /**
   A control exchange spelled out: the request is sent exactly when block and free slots allow;
   a failed doorbell is told exactly when it then fails; a completion is polled exactly when
   the exchange neither fails there nor times out, and it times out only when none was in the
   used ring; and once one is polled the answer is what the own block then holds.
   */
  lemma CtrlSpelled(q: Ring, q': Ring, req: seq<byte>, extra: nat, env: Env, budget: nat, res: Result<(u32, seq<byte>), SoundError>)
    requires CtrlExchange(q, q', req, extra, env, budget, res)
    ensures |q'.avail| == |q.avail| + if CtrlSent(q, |req|, extra, env) then 1 else 0
    ensures res == Err(ErrNotify) <==> CtrlSent(q, |req|, extra, env) && !env.doorbell
    ensures q'.seen == q.seen + if CtrlSent(q, |req|, extra, env) && env.doorbell && res != Err(ErrControlTimeout) then 1 else 0
    ensures res == Err(ErrControlTimeout) ==> CtrlSent(q, |req|, extra, env) && env.doorbell && (budget > 0 ==> q.seen >= |q.used|)
    ensures q'.seen > q.seen ==>
              if Wraps(|req|, extra) then res == Err(SliceOutOfRange)
              else
                && res.Ok? && |q.mem| < |q'.mem| && |req| + HDR_SIZE + extra <= |q'.mem[|q.mem|]|
                && res.value.0 == U32At(q'.mem[|q.mem|], |req|)
                && res.value.1 == q'.mem[|q.mem|][|req| + HDR_SIZE..|req| + HDR_SIZE + extra]
    ensures q'.seen == q.seen ==> res.Err?
    ensures res == Err(ErrQueueFull) <==>
              && env.alloc.Block? && Wrap32(|req| + HDR_SIZE + extra) <= env.alloc.bytes && |req| <= env.alloc.bytes
              && FreeCount(q.desc) < if extra > 0 then 3 else 2
    ensures Moves(q, q', CtrlWhy(q, |req|, extra, env), env.doorbell, budget, if res.Err? then Some(res.error) else None)
    ensures Replied(q, q', |req|, extra, res)
  {
    hide UnrungOver, ExchangeBy, U32At, FreeCount;
    if env.alloc.Block? && |req| <= env.alloc.bytes {
      OverMoves(q, Copy(Zeros(env.alloc.bytes), 0, req), CtrlBufs(|q.mem|, |req|, extra), budget, env.device, q');
    }
  }

  /** One command without payload, whatever else is outstanding: when it is sent, exactly `req`, and what decides its result. */
  ghost predicate CommandDone(q: Ring, q': Ring, why: Option<SoundError>, req: seq<byte>, env: Env, budget: nat, r: Result<(), SoundError>) {
    && Moves(q, q', why, env.doorbell, budget, if r.Err? then Some(r.error) else None)
    && StatusRead(q, q', |req|, r)
    && CommandExchange(q, q', req, env, budget, r)
  }

  lemma CommandNotSent(q: Ring, req: seq<byte>, env: Env, budget: nat)
    ensures forall e | e !in {ErrNotify, ErrControlTimeout, ErrDeviceStatus} :: CommandDone(q, q, Some(e), req, env, budget, Err(e))
  {
    hide CommandExchange, Moves, StatusRead;
    NoMove(q, |req|);
    CommandIs(q, q, req, env, budget, Err(ErrAlloc));
  }

  lemma CommandAnswered(q: Ring, q': Ring, req: seq<byte>, env: Env, budget: nat, exchange: Result<(u32, seq<byte>), SoundError>)
    requires CtrlExchange(q, q', req, 0, env, budget, exchange)
    ensures CommandDone(q, q', CtrlWhy(q, |req|, 0, env), req, env, budget, Verdict(exchange))
  {
    hide CommandExchange, CtrlExchange, Moves, Replied, StatusRead, CtrlWhy, FreeCount;
    CtrlSpelled(q, q', req, 0, env, budget, exchange);
    AnswerMoves(q, q', CtrlWhy(q, |req|, 0, env), env.doorbell, budget);
    StatusOf(q, q', |req|, exchange);
    CommandIs(q, q', req, env, budget, exchange);
  }

  /** Spelled out: once a completion is polled the status in the command's own block decides; before, it has failed. */
  lemma CommandMeans(q: Ring, q': Ring, why: Option<SoundError>, req: seq<byte>, env: Env, budget: nat, r: Result<(), SoundError>)
    requires CommandDone(q, q', why, req, env, budget, r)
    ensures |q'.avail| == |q.avail| + if why.None? then 1 else 0
    ensures why.Some? ==> r == Err(why.value)
    ensures r == Err(ErrNotify) <==> why.None? && !env.doorbell
    ensures q'.seen == q.seen + if why.None? && env.doorbell && r != Err(ErrControlTimeout) then 1 else 0
    ensures r == Err(ErrControlTimeout) && budget > 0 ==> q.seen >= |q.used|
    ensures q'.seen == q.seen ==> r.Err? && r.error != ErrDeviceStatus
    ensures q'.seen > q.seen && |req| + HDR_SIZE < U32 ==>
              && |q.mem| < |q'.mem| && |req| + HDR_SIZE <= |q'.mem[|q.mem|]|
              && (r.Ok? <==> U32At(q'.mem[|q.mem|], |req|) == SOK)
              && (r == Err(ErrDeviceStatus) <==> U32At(q'.mem[|q.mem|], |req|) != SOK)
  {
    hide U32At, CommandExchange;
  }

  /** The same for a capture. */
  lemma RxSpelled(q: Ring, q': Ring, streamID: u32, n: nat, env: Env, budget: nat, res: Result<nat, SoundError>, data: seq<byte>)
    requires RxExchange(q, q', streamID, n, env, budget, res, data)
    ensures |q'.avail| == |q.avail| + if RxSent(q, n, env) then 1 else 0
    ensures res == Err(ErrNotify) <==> RxSent(q, n, env) && !env.doorbell
    ensures q'.seen == q.seen + if RxSent(q, n, env) && env.doorbell && res != Err(ErrXferTimeout) then 1 else 0
    ensures res == Err(ErrXferTimeout) ==> RxSent(q, n, env) && env.doorbell && (budget > 0 ==> q.seen >= |q.used|)
    ensures q'.seen > q.seen && n + 12 < U32 ==> ReadOut(q', |q.mem|, q.seen, n, res, data)
    ensures q'.seen == q.seen ==> res.Err? && res.error != ErrDeviceStatus
  {
    hide UnrungOver, ExchangeBy, U32At, FreeCount, Le32, TotalLen;
    if env.alloc.Block? && PCM_XFER_HDR_SIZE <= env.alloc.bytes {
      OverMoves(q, Copy(Zeros(env.alloc.bytes), 0, Le32(streamID)), RxChain(|q.mem|, n), budget, env.device, q');
    }
  }

  lemma CtrlCounts(q: Ring, q': Ring, req: seq<byte>, extra: nat, env: Env, budget: nat, res: Result<(u32, seq<byte>), SoundError>)
    requires CtrlExchange(q, q', req, extra, env, budget, res)
    ensures Counted(q, q', res.Err? && GivenUp(res.error))
  {
    hide Counted, ExchangeBy, UnrungOver;
    CountedSelf(q, []);
    if env.alloc.Block? && |req| <= env.alloc.bytes {
      var block, bufs := Copy(Zeros(env.alloc.bytes), 0, req), CtrlBufs(|q.mem|, |req|, extra);
      CountedSelf(q, block);
      ManyCount(q, block, bufs, budget, env.device, q');
    }
  }

  lemma RxCounts(q: Ring, q': Ring, streamID: u32, n: nat, env: Env, budget: nat, res: Result<nat, SoundError>, data: seq<byte>)
    requires RxExchange(q, q', streamID, n, env, budget, res, data)
    ensures Counted(q, q', res.Err? && GivenUp(res.error))
  {
    hide Counted, ExchangeBy, UnrungOver;
    CountedSelf(q, []);
    if env.alloc.Block? && PCM_XFER_HDR_SIZE <= env.alloc.bytes {
      var block, bufs := Copy(Zeros(env.alloc.bytes), 0, Le32(streamID)), RxChain(|q.mem|, n);
      CountedSelf(q, block);
      ManyCount(q, block, bufs, budget, env.device, q');
    }
  }

  lemma ManyCount(q: Ring, block: seq<byte>, bufs: seq<Buf>, budget: nat, device: Script, q': Ring)
    ensures UnrungOver(q, block, bufs, q') || ExchangeBy(q, block, bufs, budget, device, true, q') ==> Counted(q, q', true)
    ensures ExchangeBy(q, block, bufs, budget, device, false, q') ==> Counted(q, q', false)
  {
    hide Counted, ExchangeRun, UnrungOver, ExchangeBy;
    ByIsOver(q, block, bufs, budget, device, q');
    if UnrungOver(q, block, bufs, q') {
      UnrungCounts(q, block, bufs, q');
    }
    if slots, script :| ExchangeRun(q, block, bufs, budget, slots, script, true, q') {
      ExchangeCounts(q, block, bufs, budget, slots, script, true, q');
    }
    if slots, script :| ExchangeRun(q, block, bufs, budget, slots, script, false, q') {
      ExchangeCounts(q, block, bufs, budget, slots, script, false, q');
    }
  }

  // ---------------------------------------------------------------------------
  // After giving up
  // ---------------------------------------------------------------------------

  /** Only bytes in the device-writable buffers of `bufs` differ. */
  ghost predicate WritesInto(bufs: seq<Buf>, mem: seq<seq<byte>>, mem': seq<seq<byte>>) {
    && SameShape(mem, mem')
    && forall p, o | 0 <= p < |mem| && 0 <= o < |mem[p]| && !(exists i :: 0 <= i < |bufs| && Covers(bufs[i], p, o)) :: mem'[p][o] == mem[p][o]
  }

  lemma EmptyLogs(r: Ring)
    requires Quiet(r)
    ensures Logs(r) && r.seen == |r.used| == |r.answers| && |r.chains| == |r.avail| && r.held == {}
    ensures forall k | 0 <= k < |r.answers| :: r.answers[k] < |r.avail|
  {
    UnseenCount(r);
  }

  /** The first exchange: published, and reclaimed although the device still has it. */
  lemma FirstGaveUp(r: Ring, block1: seq<byte>, bufs1: seq<Buf>, slots: seq<nat>)
    requires Quiet(r) && |slots| == |bufs1| > 0 && InRange(slots, |r.desc|) && FreeSlots(r.desc, slots)
    ensures var r2 := ReclaimChain(Publish(Allocate(r, block1), slots, bufs1), slots[0]);
            && r2 == Publish(Allocate(r, block1), slots, bufs1).(desc := r2.desc) && |r2.desc| == |r.desc| && FreeSlots(r2.desc, slots)
            && Logs(r2) && |r.avail| in r2.held && r2.avail[|r.avail|] == slots[0]
  {
    hide Inv;
    EmptyLogs(r);
    var r1 := Publish(Allocate(r, block1), slots, bufs1);
    TakenCount(r.desc, slots);
    InUseBound(r.desc);
    LinkAt(r.desc, slots, bufs1);
    var c := Chain(slots, bufs1);
    assert Linked(r1.desc, c);
    WalkFindsChain(r1.desc, c);
    LogsPosted(r, block1, slots, bufs1);
    LogsReclaimed(r1, slots[0]);
  }

  /** With the first chain's slots taken again, the device reaches the second one's buffers through the first one's head. */
  lemma SecondReached(r2: Ring, slots: seq<nat>, bufs: seq<Buf>, t: nat, len: nat, mem': seq<seq<byte>>)
    requires Logs(r2) && |slots| == |bufs| > 0 && InRange(slots, |r2.desc|) && FreeSlots(r2.desc, slots)
    requires t in r2.held && r2.avail[t] == slots[0] && WritesInto(bufs, r2.mem, mem')
    ensures var r3 := Publish(r2, slots, bufs);
            && Completes(r3, t, len, Complete(r3, t, len, mem'))
  {
    var c := Chain(slots, bufs);
    var r3 := Publish(r2, slots, bufs);
    TakenCount(r2.desc, slots);
    InUseBound(r2.desc);
    LinkAt(r2.desc, slots, bufs);
    assert Linked(r3.desc, c);
    WalkFindsChain(r3.desc, c);
    forall p, o | 0 <= p < |r3.mem| && 0 <= o < |r3.mem[p]| && !Exposed(r3.desc, slots, p, o)
      ensures mem'[p][o] == r3.mem[p][o]
    {
      forall i | 0 <= i < |bufs|
        ensures !Covers(bufs[i], p, o)
      {
        assert BufsOf(r3.desc, slots)[i] == bufs[i];
      }
    }
  }

  /**
   What a timeout costs.  An exchange over any layout gave up and its slots were reclaimed; the
   next one, over as many buffers, takes them.  The device, completing the first ticket through
   the descriptors as they are linked now, may leave anything in the second one's writable
   buffers; the driver polls the head it is waiting for and reads that for its answer, while
   the second ticket is still with the device.
   */
  lemma LateAnswer(r: Ring, block1: seq<byte>, bufs1: seq<Buf>, block2: seq<byte>, bufs2: seq<Buf>, len: nat, mem': seq<seq<byte>>)
    returns (slots: seq<nat>, r4: Ring)
    requires Quiet(r) && 0 < |bufs1| == |bufs2| <= |r.desc|
    requires WritesInto(bufs2, r.mem + [block1] + [block2], mem')
    ensures |slots| == |bufs1| && InRange(slots, |r.desc|) && FreeSlots(r.desc, slots)
    ensures var r1 := Publish(Allocate(r, block1), slots, bufs1);
            var r2 := ReclaimChain(r1, slots[0]);
            && FreeSlots(r2.desc, slots)
            && var r3 := Publish(Allocate(r2, block2), slots, bufs2);
            && Completes(r3, |r.avail|, len, r4) && r4.mem == mem'
            && r4.seen < |r4.used| && r4.used[r4.seen] == Used(r4.avail[|r.avail| + 1], len)
            && |r.avail| + 1 in r4.held && |r.avail| + 1 !in r4.answers
  {
    hide Inv, Completes, WritesInto;
    QuietFree(r);
    EmptyLogs(r);
    slots := TakeFree(r.desc, |bufs1|);
    FirstGaveUp(r, block1, bufs1, slots);
    var r2 := ReclaimChain(Publish(Allocate(r, block1), slots, bufs1), slots[0]);
    var r3 := Publish(Allocate(r2, block2), slots, bufs2);
    AllocateLogs(r2, block2);
    SecondReached(Allocate(r2, block2), slots, bufs2, |r.avail|, len, mem');
    r4 := Complete(r3, |r.avail|, len, mem');
    LogsPosted(r2, block2, slots, bufs2);
    CompleteLogs(r3, |r.avail|, len, r4);
  }

  lemma AllocateLogs(r: Ring, block: seq<byte>)
    requires Logs(r)
    ensures Logs(Allocate(r, block))
  {
  }

  /** So the next control exchange can read OK for a request that is still with the device. */
  lemma LateOK(r: Ring, block1: seq<byte>, req1: seq<byte>, block2: seq<byte>, req2: seq<byte>, extra: nat) returns (slots: seq<nat>, r4: Ring)
    requires Quiet(r) && |r.desc| >= 3
    requires |req2| + HDR_SIZE + extra <= |block2|
    ensures |slots| == |CtrlBufs(0, 0, extra)| && InRange(slots, |r.desc|) && FreeSlots(r.desc, slots)
    ensures var r2 := ReclaimChain(Publish(Allocate(r, block1), slots, CtrlBufs(|r.mem|, |req1|, extra)), slots[0]);
            var r3 := Publish(Allocate(r2, block2), slots, CtrlBufs(|r2.mem|, |req2|, extra));
            && Completes(r3, |r.avail|, 0, r4)
            && r4.seen < |r4.used| && r4.used[r4.seen].head == r4.avail[|r.avail| + 1]
            && |r4.mem| > |r2.mem| && |req2| + HDR_SIZE + extra <= |r4.mem[|r2.mem|]|
            && Response(r4.mem[|r2.mem|][|req2|..|req2| + HDR_SIZE + extra]).0 == SOK
            && |r.avail| + 1 in r4.held && |r.avail| + 1 !in r4.answers
  {
    hide Inv, Completes, Copy, Le32;
    var page, n := |r.mem| + 1, |req2|;
    var mem := r.mem + [block1] + [block2];
    var mem' := mem[page := Copy(block2, n, Le32(SOK))];
    var bufs2 := CtrlBufs(page, n, extra);
    OnlyHeader(mem, page, n, extra);
    slots, r4 := LateAnswer(r, block1, CtrlBufs(|r.mem|, |req1|, extra), block2, bufs2, 0, mem');
    ReadsSOK(block2, n, extra);
  }

  lemma OnlyHeader(mem: seq<seq<byte>>, page: nat, n: nat, extra: nat)
    requires page < |mem| && n + HDR_SIZE + extra <= |mem[page]|
    ensures WritesInto(CtrlBufs(page, n, extra), mem, mem[page := Copy(mem[page], n, Le32(SOK))])
  {
    hide Le32;
    var bufs := CtrlBufs(page, n, extra);
    var mem' := mem[page := Copy(mem[page], n, Le32(SOK))];
    assert bufs[1] == Buf(page, n, HDR_SIZE, true);
    forall p, o | 0 <= p < |mem| && 0 <= o < |mem[p]| && !(exists i :: 0 <= i < |bufs| && Covers(bufs[i], p, o))
      ensures mem'[p][o] == mem[p][o]
    {
      assert !Covers(bufs[1], p, o);
    }
  }

  /** What the second exchange then reads. */
  lemma ReadsSOK(block: seq<byte>, n: nat, extra: nat)
    requires n + HDR_SIZE + extra <= |block|
    ensures Response(Copy(block, n, Le32(SOK))[n..n + HDR_SIZE + extra]).0 == SOK
  {
    Le32RoundTrip(SOK);
    var b := Copy(block, n, Le32(SOK))[n..n + HDR_SIZE + extra];
    assert Le32(SOK) <= b;
    PrefixReads(b, Le32(SOK));
  }
}
