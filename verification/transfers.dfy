/**
 What the txq bookkeeping means: parked chains (playback.go) and in-flight cookies (async.go)
 are heads in the driver's hands and tickets in these predicates.
 */
module Transfers {
  import opened Wrappers
  import opened Bytes
  import opened Types
  import opened Virtqueue

  // ---------------------------------------------------------------------------
  // Layout of one PCM transfer
  // ---------------------------------------------------------------------------

  /** The three buffers of a playback transfer of n bytes: header, frames, status trailer. */
  function TxBufs(page: nat, n: nat): (bufs: seq<Buf>)
    ensures |bufs| == 3
  {
    [Buf(page, 0, PCM_XFER_HDR_SIZE, false),
     Buf(page, PCM_XFER_HDR_SIZE, n, false),
     Buf(page, PCM_XFER_HDR_SIZE + n, PCM_STATUS_SIZE, true)]
  }

  /** uint32 arithmetic of the transfer's total length. */
  function TotalLen(n: nat): (x: u32) {
    Wrap32(PCM_XFER_HDR_SIZE + Wrap32(n) + PCM_STATUS_SIZE)
  }

  function PagesFor(totalLen: u32): (pages: nat) {
    if totalLen == 0 then 1 else (totalLen + PAGE_SIZE - 1) / PAGE_SIZE
  }

  /**
   The pages asked for hold header, frames and trailer exactly when the 32-bit total does not
   wrap; and then they are the fewest that do.  When it wraps they cannot even hold the frames.
   */
  lemma PagesHoldTransferIff(n: nat)
    ensures PagesFor(TotalLen(n)) * PAGE_SIZE >= n + 12 <==> n + 12 < U32
    ensures n + 12 < U32 ==> TotalLen(n) == n + 12
    ensures n + 12 < U32 ==> forall p: nat | p * PAGE_SIZE >= n + 12 :: p >= PagesFor(TotalLen(n))
    ensures n + 12 >= U32 ==> PagesFor(TotalLen(n)) * PAGE_SIZE < PCM_XFER_HDR_SIZE + n
  {
    if n + 12 >= U32 {
      var m := TotalLen(n);
      assert PagesFor(m) * PAGE_SIZE <= m + PAGE_SIZE;
      assert m <= n + 12 - U32 by {
        WrappedTotal(n);
      }
    }
  }

  /**
   The transfers the model covers: the 32-bit total does not wrap, or the block is too short
   for the frames, as the pages asked for then are.
   */
  predicate Fits(n: nat, alloc: Alloc) {
    n + 12 < U32 || (alloc.Block? ==> alloc.bytes < PCM_XFER_HDR_SIZE + n)
  }

  /** The length check lets a block through that does not hold the frames: copying them is a slice panic. */
  predicate Panics(n: nat, alloc: Alloc) {
    alloc.Block? && TotalLen(n) <= alloc.bytes < PCM_XFER_HDR_SIZE + n
  }

  /** With the pages asked for, that is so exactly for frames of 2^32 - 12 bytes or more. */
  lemma PanicsIff(n: nat)
    ensures Panics(n, Block(PagesFor(TotalLen(n)) * PAGE_SIZE)) <==> n + 12 >= U32
  {
    PagesHoldTransferIff(n);
  }

  lemma WrappedTotal(n: nat)
    requires n + 12 >= U32
    ensures TotalLen(n) <= n + 12 - U32
  {
    var q, m := n / U32, n % U32;
    assert n == q * U32 + m;
    if q == 0 {
      assert m + 12 >= U32;
    } else {
      assert q * U32 >= U32;
    }
  }

  /** The chain's three buffers cover [0, n + 12) of the block, each byte once. */
  lemma TxBufsTile(page: nat, n: nat, o: nat)
    ensures o < n + 12 <==> exists i :: 0 <= i < 3 && InBuf(TxBufs(page, n)[i], o)
    ensures forall i, j | 0 <= i < j < 3 :: !(InBuf(TxBufs(page, n)[i], o) && InBuf(TxBufs(page, n)[j], o))
  {
    var b := TxBufs(page, n);
    assert o < n + 12 ==> InBuf(b[0], o) || InBuf(b[1], o) || InBuf(b[2], o);
  }

  predicate InBuf(b: Buf, o: nat) {
    b.off <= o < b.off + b.len
  }

  /** The block of a transfer: header, frames and a zeroed trailer, laid out in `bytes` bytes. */
  function TxBlock(bytes: nat, streamID: u32, frames: seq<byte>): (block: seq<byte>)
    requires PCM_XFER_HDR_SIZE + |frames| <= bytes
    ensures |block| == bytes && block[..PCM_XFER_HDR_SIZE + |frames|] == Le32(streamID) + frames
  {
    var block := Copy(Copy(Zeros(bytes), 0, Le32(streamID)), PCM_XFER_HDR_SIZE, frames);
    assert block[..PCM_XFER_HDR_SIZE + |frames|] == Le32(streamID) + frames;
    block
  }

  /** Ring r' is ring r with a new block and, as ticket |r.avail|, a transfer of `frames` laid out in it. */
  ghost predicate Posted(r: Ring, r': Ring, streamID: u32, frames: seq<byte>) {
    var t, page, n := |r.avail|, |r.mem|, |frames|;
    && Sound(r') && Extends(r, r')
    && |r'.avail| == |r'.chains| == t + 1 && r'.chains[t].bufs == TxBufs(page, n)
    && Outstanding(r') == Outstanding(r) + {t}
    && r'.answers == r.answers && r'.reports == r.reports && r'.used == r.used && r'.seen == r.seen && r'.held == r.held + {t}
    && |r'.mem| == page + 1 && |r'.mem[page]| >= n + 12
    && Carries(r', t, streamID, frames)
  }

  /** The device is told, under ticket `t`, to play exactly `frames` on `streamID`. */
  ghost predicate Carries(r: Ring, t: nat, streamID: u32, frames: seq<byte>) {
    && t < |r.chains|
    && Request(r.mem, r.chains[t].bufs) == Le32(streamID) + frames
  }

  lemma PostTransferKeeps(r: Ring, block: seq<byte>, r': Ring, streamID: u32, frames: seq<byte>)
    requires Sound(r) && |frames| + 12 <= |block|
    requires block[..4 + |frames|] == Le32(streamID) + frames
    requires Published(Allocate(r, block), r', TxBufs(|r.mem|, |frames|))
    ensures Posted(r, r', streamID, frames)
  {
    var n, r1 := |frames|, Allocate(r, block);
    AllocateKeeps(r, Outstanding(r), block);
    PublishedKeeps(r1, Outstanding(r), r', TxBufs(|r.mem|, n));
    TxGather(r'.mem, |r.mem|, n);
  }

  lemma {:induction false} TxGather(mem: seq<seq<byte>>, page: nat, n: nat)
    requires page < |mem| && n + 12 <= |mem[page]|
    ensures Gather(mem, TxBufs(page, n)) == mem[page][n + 4..n + 12]
    ensures Request(mem, TxBufs(page, n)) == mem[page][..n + 4]
  {
    var b, m := TxBufs(page, n), mem[page];
    assert b[1..] == [b[1], b[2]] && b[1..][1..] == [b[2]];
    assert [b[1], b[2]][1..] == [b[2]] && [b[2]][1..] == [];
    assert Gather(mem, [b[2]]) == Slice(mem, b[2]) + Gather(mem, []);
    assert Gather(mem, [b[1], b[2]]) == Gather(mem, [b[2]]);
    assert Request(mem, [b[2]]) == Request(mem, []);
    assert Request(mem, [b[1], b[2]]) == Slice(mem, b[1]) + [];
    assert m[..n + 4] == m[0..4] + m[4..n + 4];
  }

  // ---------------------------------------------------------------------------
  // Parked chains
  // ---------------------------------------------------------------------------

  /** Entry `e` records the chain with ticket `t`. */
  ghost predicate Describes(r: Ring, t: nat, e: Parked) {
    && t < |r.avail| == |r.chains|
    && e.head == r.avail[t]
    && 4 <= e.statusOff && r.chains[t].bufs == TxBufs(e.page, e.statusOff - 4)
  }

  ghost predicate Distinct(s: seq<nat>) {
    forall i, j | 0 <= i < j < |s| :: s[i] != s[j]
  }

  /** `pending` lists exactly the chains of the tickets `who`, each once; `parked` names them. */
  ghost predicate ParkedExactly(r: Ring, pending: seq<Parked>, parked: seq<nat>, who: set<nat>) {
    && |parked| == |pending|
    && Distinct(parked)
    && Elems(parked) == who
    && forall i | 0 <= i < |pending| :: Describes(r, parked[i], pending[i])
  }

  predicate HeadListed(pending: seq<Parked>, h: nat) {
    exists i | 0 <= i < |pending| :: pending[i].head == h
  }

  /** The head of every timed-out chain that is still outstanding is listed. */
  ghost predicate ParkedCovers(r: Ring, pending: seq<Parked>, timedOut: set<nat>) {
    forall t | t in timedOut && t in Outstanding(r) && t < |r.avail| :: HeadListed(pending, r.avail[t])
  }

  function FindHead(pending: seq<Parked>, h: nat): (i: nat)
    ensures i <= |pending|
    ensures i < |pending| ==> pending[i].head == h
    ensures forall j | 0 <= j < i :: pending[j].head != h
  {
    if |pending| == 0 || pending[0].head == h then 0 else 1 + FindHead(pending[1..], h)
  }

  lemma FindHeadIs(pending: seq<Parked>, h: nat, i: nat)
    requires i <= |pending| && (i < |pending| ==> pending[i].head == h)
    requires forall j | 0 <= j < i :: pending[j].head != h
    ensures FindHead(pending, h) == i
  {
    var f := FindHead(pending, h);
  }

  function RemoveAt<T>(s: seq<T>, i: nat): (s': seq<T>) {
    if i < |s| then s[..i] + s[i + 1..] else s
  }

  function DropHead(pending: seq<Parked>, h: nat): (p: seq<Parked>) {
    RemoveAt(pending, FindHead(pending, h))
  }

  /** Dropping by head drops the entry of the ticket that was polled: the fallthrough is not taken. */
  lemma DropExact(r: Ring, out: set<nat>, pending: seq<Parked>, parked: seq<nat>, who: set<nat>, t: nat)
    requires Inv(r, out) && t in who && who <= out
    requires ParkedExactly(r, pending, parked, who)
    ensures var i := FindHead(pending, r.avail[t]);
            && i < |pending| && parked[i] == t
            && ParkedExactly(r, RemoveAt(pending, i), RemoveAt(parked, i), who - {t})
  {
    var i := FindHead(pending, r.avail[t]);
    assert t in Elems(parked);
    var k :| 0 <= k < |parked| && parked[k] == t;
    assert Describes(r, parked[k], pending[k]);
    assert Describes(r, parked[i], pending[i]);
    assert parked[i] in Elems(parked);
    HeadIdentifiesTicket(r, out, parked[i], t);
    RemoveParked(r, pending, parked, who, i);
  }

  lemma RemoveParked(r: Ring, pending: seq<Parked>, parked: seq<nat>, who: set<nat>, i: nat)
    requires ParkedExactly(r, pending, parked, who) && i < |pending|
    ensures ParkedExactly(r, RemoveAt(pending, i), RemoveAt(parked, i), who - {parked[i]})
  {
    RemoveElem(parked, i);
    var p, q := RemoveAt(pending, i), RemoveAt(parked, i);
    forall j | 0 <= j < |p|
      ensures Describes(r, q[j], p[j])
    {
      var j' := if j < i then j else j + 1;
      assert Describes(r, parked[j'], pending[j']);
    }
  }

  lemma RemoveElem(s: seq<nat>, i: nat)
    requires i < |s| && Distinct(s)
    ensures Distinct(RemoveAt(s, i))
    ensures Elems(RemoveAt(s, i)) == Elems(s) - {s[i]}
  {
    var s' := RemoveAt(s, i);
    forall x | x in s && x != s[i]
      ensures x in s'
    {
      var k :| 0 <= k < |s| && s[k] == x;
      assert s'[if k < i then k else k - 1] == x;
    }
    forall x | x in s'
      ensures x in s && x != s[i]
    {
      var k :| 0 <= k < |s'| && s'[k] == x;
      assert x == s[if k < i then k else k + 1];
    }
  }

  /** A removal by head leaves every other outstanding chain's head listed. */
  lemma DropCovers(r: Ring, out: set<nat>, r': Ring, pending: seq<Parked>, timedOut: set<nat>, t: nat)
    requires Inv(r, out) && t in out
    requires forall u | u in timedOut && u in out && u < |r.avail| :: HeadListed(pending, r.avail[u])
    requires r'.avail == r.avail && Outstanding(r') == out - {t}
    ensures ParkedCovers(r', DropHead(pending, r.avail[t]), timedOut)
  {
    var p := DropHead(pending, r.avail[t]);
    var i := FindHead(pending, r.avail[t]);
    forall u | u in timedOut && u in Outstanding(r') && u < |r.avail|
      ensures HeadListed(p, r.avail[u])
    {
      HeadIdentifiesTicket(r, out, t, u);
      var k :| 0 <= k < |pending| && pending[k].head == r.avail[u];
      if i < |pending| {
        assert p[if k < i then k else k - 1] == pending[k];
      }
    }
  }

  /** A polling turn keeps the parked entries describing the same tickets. */
  lemma AdvanceParked(r: Ring, r': Ring, pending: seq<Parked>, parked: seq<nat>, who: set<nat>)
    requires ParkedExactly(r, pending, parked, who)
    requires r.avail <= r'.avail && r.chains <= r'.chains && |r'.avail| == |r'.chains|
    ensures ParkedExactly(r', pending, parked, who)
  {
    forall i | 0 <= i < |pending|
      ensures Describes(r', parked[i], pending[i])
    {
      assert Describes(r, parked[i], pending[i]);
    }
  }

  /**
   The state of the pending list while the chains `mine` are not parked (the one a Write is
   polling for); `exact` and `covers` say which readings of the list are claimed.
   */
  ghost predicate Parking(r: Ring, mine: set<nat>, pending: seq<Parked>, parked: seq<nat>, timedOut: set<nat>, exact: bool, covers: bool) {
    && Sound(r)
    && |parked| == |pending|
    && (forall t | t in timedOut :: t < |r.avail|)
    && (exact ==> ParkedExactly(r, pending, parked, Outstanding(r) - mine))
    && (covers ==> ParkedCovers(r, pending, timedOut))
  }

  /** Reclaiming polled ticket `t` by head keeps both readings of the pending list. */
  lemma DropPolled(r: Ring, r': Ring, mine: set<nat>, pending: seq<Parked>, parked: seq<nat>, timedOut: set<nat>, exact: bool, covers: bool, t: nat)
    requires Parking(r, mine, pending, parked, timedOut, exact, covers)
    requires PolledSince(r, r', t) && t !in mine
    ensures var r2 := ReclaimChain(r', r'.avail[t]);
            var i := FindHead(pending, r'.avail[t]);
            && Outstanding(r2) == Outstanding(r')
            && (exact ==> i < |pending|)
            && Parking(r2, mine, RemoveAt(pending, i), RemoveAt(parked, i), timedOut, exact, covers)
  {
    hide Inv, ParkedExactly, ParkedCovers, Advances, PolledTicket;
    PolledMeans(r, r', t);
    DropReclaimed(r, r', ReclaimChain(r', r'.avail[t]), mine, pending, parked, timedOut, exact, covers, t);
  }

  lemma DropReclaimed(r: Ring, r': Ring, r2: Ring, mine: set<nat>, pending: seq<Parked>, parked: seq<nat>, timedOut: set<nat>,
                      exact: bool, covers: bool, t: nat)
    requires Parking(r, mine, pending, parked, timedOut, exact, covers)
    requires t in Outstanding(r) - mine && t < |r'.avail| && Inv(r', Outstanding(r)) && Extends(r, r') && r'.avail == r.avail
    requires Sound(r2) && Outstanding(r2) == Outstanding(r) - {t}
    requires r2.avail == r'.avail && r2.chains == r'.chains && |r2.avail| == |r2.chains|
    ensures var i := FindHead(pending, r'.avail[t]);
            && (exact ==> i < |pending|)
            && Parking(r2, mine, RemoveAt(pending, i), RemoveAt(parked, i), timedOut, exact, covers)
  {
    hide Inv, ParkedExactly;
    if exact {
      DropPolledExact(r, r', r2, mine, pending, parked, t);
    }
    if covers {
      DropCovers(r', Outstanding(r), r2, pending, timedOut, t);
    }
  }

  lemma PolledMeans(r: Ring, r': Ring, t: nat)
    requires PolledSince(r, r', t)
    ensures t in Outstanding(r) && t < |r'.avail| && Inv(r', Outstanding(r)) && Extends(r, r') && r'.avail == r.avail
    ensures var r2 := ReclaimChain(r', r'.avail[t]);
            && Sound(r2) && Outstanding(r2) == Outstanding(r') == Outstanding(r) - {t}
            && r2.avail == r'.avail && r2.chains == r'.chains && |r2.avail| == |r2.chains|
  {
    ReclaimSince(r, r', t);
  }

  lemma ReclaimSince(r: Ring, r': Ring, t: nat)
    requires PolledSince(r, r', t)
    ensures Sound(ReclaimChain(r', r'.avail[t])) && Outstanding(ReclaimChain(r', r'.avail[t])) == Outstanding(r')
  {
    assert Outstanding(r') + {t} == Outstanding(r);
    ReclaimPolled(r', t);
  }

  lemma DropPolledExact(r: Ring, r': Ring, r2: Ring, mine: set<nat>, pending: seq<Parked>, parked: seq<nat>, t: nat)
    requires Sound(r) && ParkedExactly(r, pending, parked, Outstanding(r) - mine)
    requires t in Outstanding(r) - mine && r.avail == r'.avail && Extends(r, r')
    requires r2.avail == r'.avail && r2.chains == r'.chains && |r2.avail| == |r2.chains| && Outstanding(r2) == Outstanding(r) - {t}
    ensures var i := FindHead(pending, r'.avail[t]);
            && i < |pending|
            && ParkedExactly(r2, RemoveAt(pending, i), RemoveAt(parked, i), Outstanding(r2) - mine)
  {
    var i := FindHead(pending, r'.avail[t]);
    DropExact(r, Outstanding(r), pending, parked, Outstanding(r) - mine, t);
    AdvanceParked(r, r2, RemoveAt(pending, i), RemoveAt(parked, i), Outstanding(r) - mine - {t});
    assert Outstanding(r) - mine - {t} == Outstanding(r2) - mine;
  }

  /** Reclaiming a polled chain and leaving the pending list alone still covers what is outstanding. */
  lemma DropPolledCovers(r: Ring, r': Ring, pending: seq<Parked>, parked: seq<nat>, timedOut: set<nat>, covers: bool, t: nat)
    requires Parking(r, {}, pending, parked, timedOut, false, covers) && PolledSince(r, r', t)
    ensures Parking(ReclaimChain(r', r'.avail[t]), {}, pending, parked, timedOut, false, covers)
    ensures Outstanding(ReclaimChain(r', r'.avail[t])) == Outstanding(r')
  {
    ReclaimSince(r, r', t);
  }

  lemma IdlePoll(r: Ring, r': Ring, mine: set<nat>, pending: seq<Parked>, parked: seq<nat>, timedOut: set<nat>, exact: bool, covers: bool)
    requires Parking(r, mine, pending, parked, timedOut, exact, covers)
    requires Advances(r, r') && Sound(r') && Outstanding(r') == Outstanding(r)
    ensures Parking(r', mine, pending, parked, timedOut, exact, covers)
  {
    if exact {
      AdvanceParked(r, r', pending, parked, Outstanding(r) - mine);
    }
  }

  /** Polling the Write's own chain: nothing parked is touched. */
  lemma OwnPolled(r: Ring, r': Ring, pending: seq<Parked>, parked: seq<nat>, timedOut: set<nat>, exact: bool, covers: bool, t: nat)
    requires Parking(r, {t}, pending, parked, timedOut, exact, covers)
    requires PolledSince(r, r', t)
    ensures Parking(ReclaimChain(r', r'.avail[t]), {}, pending, parked, timedOut, exact, covers)
    ensures Outstanding(ReclaimChain(r', r'.avail[t])) == Outstanding(r')
  {
    ReclaimSince(r, r', t);
    if exact {
      AdvanceParked(r, ReclaimChain(r', r'.avail[t]), pending, parked, Outstanding(r) - {t});
    }
  }

  /** A new chain, not parked, joins the outstanding ones. */
  lemma PublishParking(r: Ring, r': Ring, pending: seq<Parked>, parked: seq<nat>, timedOut: set<nat>, exact: bool, covers: bool, t: nat)
    requires Parking(r, {}, pending, parked, timedOut, exact, covers)
    requires Sound(r') && Extends(r, r') && t == |r.avail| && Outstanding(r') == Outstanding(r) + {t}
    ensures Parking(r', {t}, pending, parked, timedOut, exact, covers)
  {
    if exact {
      assert Outstanding(r') - {t} == Outstanding(r) - {};
      AdvanceParked(r, r', pending, parked, Outstanding(r));
    }
  }

  lemma PostFailed(r: Ring, r': Ring, pending: seq<Parked>, parked: seq<nat>, timedOut: set<nat>, exact: bool, covers: bool)
    requires Parking(r, {}, pending, parked, timedOut, exact, covers)
    ensures Sound(r') && r' == r.(mem := r'.mem) ==> Parking(r', {}, pending, parked, timedOut, exact, covers)
  {
    if Sound(r') && r' == r.(mem := r'.mem) && exact {
      assert Unseen(r') == Unseen(r);
      AdvanceParked(r, r', pending, parked, Outstanding(r) - {});
    }
  }

  /** A timeout parks the Write's chain. */
  lemma ParkOwn(r: Ring, pending: seq<Parked>, parked: seq<nat>, timedOut: set<nat>, exact: bool, covers: bool, t: nat, e: Parked)
    requires Parking(r, {t}, pending, parked, timedOut, exact, covers)
    requires t in Outstanding(r) && Describes(r, t, e)
    ensures Parking(r, {}, pending + [e], parked + [t], timedOut + {t}, exact, covers)
  {
    var p, q := pending + [e], parked + [t];
    if exact {
      assert t !in Elems(parked);
      assert Elems(q) == Elems(parked) + {t};
      assert Outstanding(r) - {t} + {t} == Outstanding(r) - {};
    }
    if covers {
      forall u | u in timedOut + {t} && u in Outstanding(r)
        ensures HeadListed(p, r.avail[u])
      {
        if u == t {
          assert p[|pending|].head == r.avail[u];
        } else {
          var i :| 0 <= i < |pending| && pending[i].head == r.avail[u];
          assert p[i].head == r.avail[u];
        }
      }
    }
  }

  /** In exact runs nothing outstanding and nothing parked are the same thing, and leave every slot free. */
  lemma Drained(r: Ring, pending: seq<Parked>, parked: seq<nat>, timedOut: set<nat>, exact: bool, covers: bool)
    requires Parking(r, {}, pending, parked, timedOut, exact, covers)
    ensures exact && (pending == [] || Outstanding(r) == {}) ==>
              pending == [] && Outstanding(r) == {} && FreeCount(r.desc) == |r.desc|
  {
    if exact {
      assert Outstanding(r) - {} == Outstanding(r);
      NoElems(parked);
      ExactSlotCount(r, pending, parked);
    }
  }

  lemma NoElems(s: seq<nat>)
    ensures Elems(s) == {} <==> s == []
  {
    if |s| > 0 {
      assert s[0] in Elems(s);
    }
  }

  /** In exact runs the free slots and three per parked chain make up the ring. */
  lemma ExactSlotCount(r: Ring, pending: seq<Parked>, parked: seq<nat>)
    requires Sound(r) && ParkedExactly(r, pending, parked, Outstanding(r))
    ensures FreeCount(r.desc) + 3 * |pending| == |r.desc|
    ensures forall i, j | 0 <= i < j < |pending| :: pending[i].head != pending[j].head
  {
    forall t | t in Outstanding(r)
      ensures 3 <= |r.chains[t].slots| <= 3
    {
      assert t in parked;
      var i :| 0 <= i < |parked| && parked[i] == t;
      assert Describes(r, parked[i], pending[i]);
      assert Linked(r.desc, r.chains[t]);
    }
    OwnedCount(r.desc, r.chains, Outstanding(r), 3, 3);
    DistinctCount(parked);
    forall i, j | 0 <= i < j < |pending|
      ensures pending[i].head != pending[j].head
    {
      assert Describes(r, parked[i], pending[i]) && Describes(r, parked[j], pending[j]);
      assert parked[i] in Elems(parked) && parked[j] in Elems(parked);
      HeadIdentifiesTicket(r, Outstanding(r), parked[i], parked[j]);
    }
  }

  // ---------------------------------------------------------------------------
  // Cookies
  // ---------------------------------------------------------------------------

  /** `inf` records the WriteAsync chain with ticket `t`. */
  ghost predicate Records(r: Ring, t: nat, inf: Inflight) {
    && t < |r.avail| == |r.chains|
    && inf.head == r.avail[t]
    && inf.statusOff == 4 + inf.dataLen && inf.dataLen + 12 < U32
    && r.chains[t].bufs == TxBufs(inf.page, inf.dataLen)
    && inf.page < |r.mem| && |r.mem[inf.page]| == inf.blockLen
  }

  ghost predicate HasTicket(owner: map<nat, nat>, c: nat) {
    exists t :: t in owner && owner[t] == c
  }

  /**
   The cookies in flight are in one-to-one correspondence with the outstanding tickets of
   `owner`, and each records its own ticket's chain.
   */
  ghost predicate CookiesTrack(r: Ring, cookies: map<nat, Inflight>, owner: map<nat, nat>) {
    && (forall t | t in owner :: t in Outstanding(r) && owner[t] in cookies && Records(r, t, cookies[owner[t]]))
    && (forall c {:trigger HasTicket(owner, c)} | c in cookies :: HasTicket(owner, c))
    && (forall t, u | t in owner && u in owner && t != u :: owner[t] != owner[u])
  }

  /**
   The status code ReadEvents reports for a transfer whose trailer holds `trailer`: read from
   the block only if the 32-bit length of the block says the trailer is inside it.
   */
  function StatusSeen(blockLen: nat, statusOff: nat, trailer: seq<byte>): (s: u32) {
    if Wrap32(blockLen) >= Wrap32(statusOff + PCM_STATUS_SIZE) && |trailer| >= 4 then U32At(trailer, 0) else SOK
  }

  /**
   Whatever the device wrote, OK included, the status reported is just that when the 32-bit
   length of the block covers the trailer, and OK otherwise; so a status that is not OK is
   reported exactly when it does.
   */
  lemma StatusReadIff(blockLen: nat, n: nat, trailer: seq<byte>)
    requires n + 12 < U32 && |trailer| == PCM_STATUS_SIZE
    ensures Wrap32(blockLen) >= n + 12 ==> StatusSeen(blockLen, 4 + n, trailer) == U32At(trailer, 0)
    ensures Wrap32(blockLen) < n + 12 ==> StatusSeen(blockLen, 4 + n, trailer) == SOK
    ensures U32At(trailer, 0) != SOK ==> (StatusSeen(blockLen, 4 + n, trailer) == U32At(trailer, 0) <==> Wrap32(blockLen) >= n + 12)
  {
    assert Wrap32(4 + n + PCM_STATUS_SIZE) == n + 12;
  }

  /**
   For a block of exactly the pages asked for, that fails just when the frames come within a
   page of 2^32 bytes: the block is then 4 GiB long, and its length truncates to zero.
   */
  lemma StatusReadInPagesIff(n: nat, trailer: seq<byte>)
    requires n + 12 < U32 && |trailer| == PCM_STATUS_SIZE && U32At(trailer, 0) != SOK
    ensures StatusSeen(PagesFor(TotalLen(n)) * PAGE_SIZE, 4 + n, trailer) == U32At(trailer, 0) <==> n + 12 <= U32 - PAGE_SIZE
  {
    PagesHoldTransferIff(n);
    var pages := PagesFor(n + 12);
    StatusReadIff(pages * PAGE_SIZE, n, trailer);
    if n + 12 <= U32 - PAGE_SIZE {
      assert n + 12 <= pages * PAGE_SIZE <= U32 - PAGE_SIZE;
    } else {
      assert pages == 0x10_0000;
    }
  }

  /** The longest transfer there is: whatever the device answers, SOK is reported. */
  lemma StatusMissed(trailer: seq<byte>)
    requires |trailer| == PCM_STATUS_SIZE && U32At(trailer, 0) != SOK
    ensures StatusSeen(PagesFor(TotalLen(0xFFFF_FFF3)) * PAGE_SIZE, 4 + 0xFFFF_FFF3, trailer) == SOK
  {
    StatusReadInPagesIff(0xFFFF_FFF3, trailer);
    StatusReadIff(PagesFor(TotalLen(0xFFFF_FFF3)) * PAGE_SIZE, 0xFFFF_FFF3, trailer);
  }

  function EventFor(cookie: nat, inf: Inflight, trailer: seq<byte>): Event {
    Event(WriteComplete, inf.streamID, cookie, inf.dataLen, StatusSeen(inf.blockLen, inf.statusOff, trailer), 0)
  }

  function TrailerOf(r: Ring, inf: Inflight): seq<byte> {
    Slice(r.mem, Buf(inf.page, inf.statusOff, PCM_STATUS_SIZE, true))
  }

  /**
   The cookie registry: the next cookie, the cookies in flight, the ticket each was issued
   for, and the cookies ReadEvents has delivered.
   */
  datatype Registry = Registry(next: nat, cookies: map<nat, Inflight>, owner: map<nat, nat>, delivered: set<nat>)

  predicate Cookie(c: nat) {
    c > 0
  }

  function FirstCookies(next: nat): set<nat> {
    set c {:trigger Cookie(c)} | 0 < c <= next && Cookie(c)
  }

  /** The cookies issued so far, 1 to `next`, are the disjoint union of those in flight and those delivered. */
  ghost predicate Ledger(g: Registry) {
    g.cookies.Keys + g.delivered == FirstCookies(g.next) && g.cookies.Keys !! g.delivered
  }

  /** The registry is truthful: its ledger is, and it follows exactly the outstanding asynchronous chains. */
  ghost predicate Tracks(r: Ring, g: Registry) {
    && CookiesTrack(r, g.cookies, g.owner)
    && Ledger(g)
  }

  // --- issuing ---

  /** WriteAsync published `frames` under the next ticket and registered it as `cookie`. */
  ghost predicate Issued(r: Ring, r': Ring, streamID: u32, frames: seq<byte>, cookie: nat, g: Registry, g': Registry) {
    var t := |r.avail|;
    && |r'.avail| == t + 1 && Carries(r', t, streamID, frames) && t in Outstanding(r')
    && cookie == Inc64(g.next) && cookie in g'.cookies
    && g' == Registry(cookie, g.cookies[cookie := g'.cookies[cookie]], g.owner[t := cookie], g.delivered)
    && g'.cookies[cookie].streamID == streamID && g'.cookies[cookie].dataLen == |frames|
    && Records(r', t, g'.cookies[cookie])
  }

  function InflightOf(r: Ring, streamID: u32, n: nat, p: Parked): Inflight {
    Inflight(streamID, p.head, p.page, if p.page < |r.mem| then |r.mem[p.page]| else 0, PCM_XFER_HDR_SIZE + n, n)
  }

  /** What WriteAsync registers for the transfer it has just posted. */
  lemma IssueKeeps(r: Ring, r': Ring, streamID: u32, frames: seq<byte>, p: Parked, g: Registry, g': Registry)
    requires Posted(r, r', streamID, frames) && Describes(r', |r.avail|, p) && |frames| + 12 < U32
    requires g' == Registry(Inc64(g.next), g.cookies[Inc64(g.next) := InflightOf(r', streamID, |frames|, p)],
                            g.owner[|r.avail| := Inc64(g.next)], g.delivered)
    ensures Issued(r, r', streamID, frames, g'.next, g, g')
    ensures Sound(r) && Tracks(r, g) && g.next + 1 < U64 ==> Tracks(r', g')
  {
    if Sound(r) && Tracks(r, g) && g.next + 1 < U64 {
      LedgerIssue(g, g');
      TrackPublish(r, r', g.cookies, g.owner, g'.next, g'.cookies[g'.next]);
    }
  }

  lemma LedgerIssue(g: Registry, g': Registry)
    requires Ledger(g)
    requires g.next + 1 < U64 && g'.next == Inc64(g.next) && g'.delivered == g.delivered && g'.cookies.Keys == g.cookies.Keys + {g'.next}
    ensures g'.next !in g.cookies
    ensures Ledger(g')
  {
    assert g'.next !in FirstCookies(g.next);
    assert g'.next !in g.cookies.Keys && g'.next !in g.delivered;
    assert FirstCookies(g'.next) == FirstCookies(g.next) + {g'.next};
  }

  /** Publishing under a fresh cookie extends the correspondence. */
  lemma TrackPublish(r: Ring, r': Ring, cookies: map<nat, Inflight>, owner: map<nat, nat>, c: nat, inf: Inflight)
    requires CookiesTrack(r, cookies, owner) && Extends(r, r') && |r'.avail| == |r'.chains|
    requires Outstanding(r') == Outstanding(r) + {|r.avail|} && |r.avail| !in Outstanding(r)
    requires c !in cookies && Records(r', |r.avail|, inf)
    ensures CookiesTrack(r', cookies[c := inf], owner[|r.avail| := c])
  {
    var t := |r.avail|;
    var cookies', owner' := cookies[c := inf], owner[t := c];
    forall u | u in owner'
      ensures u in Outstanding(r') && owner'[u] in cookies' && Records(r', u, cookies'[owner'[u]])
    {
      if u != t {
        assert Records(r, u, cookies[owner[u]]);
      }
    }
    forall d | d in cookies'
      ensures HasTicket(owner', d)
    {
      if d == c {
        assert owner'[t] == c;
      } else {
        assert HasTicket(owner, d);
        var u :| u in owner && owner[u] == d;
        assert owner'[u] == d;
      }
    }
  }

  // --- completing ---

  /** The event, if any, that the completion of ticket `t` with this report is owed. */
  function EventOf(g: Registry, t: nat, report: seq<byte>): Option<Event> {
    if t in g.owner && g.owner[t] in g.cookies then Some(EventFor(g.owner[t], g.cookies[g.owner[t]], report)) else None
  }

  /** The registry after the completion of ticket `t`: its cookie, if it had one, has been delivered. */
  function After(g: Registry, t: nat): Registry {
    if t in g.owner
    then Registry(g.next, g.cookies - {g.owner[t]}, g.owner - {t}, g.delivered + {g.owner[t]})
    else g
  }

  /**
   A polled completion matches an in-flight cookie, by head, exactly when its ticket is that
   cookie's: whichever order the map is walked in, at most one cookie matches, and it is the
   right one.  A parked chain's completion matches none.
   */
  lemma PolledMatches(r: Ring, r': Ring, t: nat, cookies: map<nat, Inflight>, owner: map<nat, nat>, c: nat)
    requires Sound(r) && t in Outstanding(r) && r.avail == r'.avail && CookiesTrack(r, cookies, owner) && c in cookies
    ensures cookies[c].head == r'.avail[t] <==> t in owner && owner[t] == c
  {
    assert HasTicket(owner, c);
    var u :| u in owner && owner[u] == c;
    assert Records(r, u, cookies[c]);
    HeadIdentifiesTicket(r, Outstanding(r), u, t);
  }

  /** What a walk of the registry, in some order, may stop at. */
  ghost predicate MayFind(cookies: map<nat, Inflight>, head: nat, found: Option<nat>) {
    match found
    case None => forall c | c in cookies :: cookies[c].head != head
    case Some(c) => c in cookies && cookies[c].head == head
  }

  ghost predicate SharesHead(cookies: map<nat, Inflight>) {
    exists c, d :: c in cookies && d in cookies && c != d && cookies[c].head == cookies[d].head
  }

  /** What the search finds does not depend on the order of the walk exactly when no two cookies in flight have the same head. */
  lemma SearchDeterminedIff(cookies: map<nat, Inflight>)
    ensures (forall head, a, b | MayFind(cookies, head, a) && MayFind(cookies, head, b) :: a == b) <==> !SharesHead(cookies)
  {
    if SharesHead(cookies) {
      var c, d :| c in cookies && d in cookies && c != d && cookies[c].head == cookies[d].head;
      assert MayFind(cookies, cookies[c].head, Some(c)) && MayFind(cookies, cookies[c].head, Some(d));
    }
  }

  /**
   A completion looked up by head alone: either no cookie has the head, or one that has is
   removed and reported, whichever it is.
   */
  ghost predicate LookedUp(r: Ring, g: Registry, g': Registry, head: nat, ev: Option<Event>) {
    match ev
    case None => g' == g && MayFind(g.cookies, head, None)
    case Some(e) =>
      && MayFind(g.cookies, head, Some(e.cookie)) && e == EventFor(e.cookie, g.cookies[e.cookie], TrailerOf(r, g.cookies[e.cookie]))
      && g'.next == g.next && g'.cookies == g.cookies - {e.cookie} && g'.delivered == g.delivered + {e.cookie}
  }

  /** In a truthful registry no two do. */
  lemma TrackedApart(r: Ring, g: Registry)
    requires Sound(r) && Tracks(r, g)
    ensures !SharesHead(g.cookies)
  {
    forall c, d | c in g.cookies && d in g.cookies && c != d
      ensures g.cookies[c].head != g.cookies[d].head
    {
      assert HasTicket(g.owner, c) && HasTicket(g.owner, d);
      var t, u :| t in g.owner && g.owner[t] == c && u in g.owner && g.owner[u] == d;
      assert Records(r, t, g.cookies[c]) && Records(r, u, g.cookies[d]);
      HeadIdentifiesTicket(r, Outstanding(r), t, u);
    }
  }

  /** The trailer an event is built from is the report of the event's own ticket. */
  lemma PolledTrailer(r: Ring, r': Ring, t: nat, cookies: map<nat, Inflight>, owner: map<nat, nat>)
    requires PolledTicket(r', t) && r'.seen == r.seen + 1 && r.chains <= r'.chains
    requires t in owner && owner[t] in cookies && Records(r, t, cookies[owner[t]])
    ensures TrailerOf(r', cookies[owner[t]]) == r'.reports[r.seen]
  {
    var inf := cookies[owner[t]];
    assert r'.chains[t].bufs[2].page == inf.page;
    TxGather(r'.mem, inf.page, inf.dataLen);
  }

  /** A search by head, in any order, finds the polled ticket's own cookie or, when it has none, nothing. */
  lemma FoundIsOwn(r: Ring, r': Ring, t: nat, g: Registry, found: Option<nat>)
    requires Sound(r) && PolledSince(r, r', t) && Tracks(r, g)
    requires MayFind(g.cookies, r'.avail[t], found)
    ensures found == if t in g.owner then Some(g.owner[t]) else None
    ensures found.Some? ==> TrailerOf(r', g.cookies[found.value]) == r'.reports[r.seen]
  {
    if t in g.owner {
      assert Records(r, t, g.cookies[g.owner[t]]);
      PolledMatches(r, r', t, g.cookies, g.owner, g.owner[t]);
      PolledTrailer(r, r', t, g.cookies, g.owner);
    }
    if found.Some? {
      PolledMatches(r, r', t, g.cookies, g.owner, found.value);
    }
  }

  /** Delivering the polled ticket's cookie, or none, leaves the registry truthful. */
  lemma TracksAfter(r: Ring, r': Ring, t: nat, g: Registry)
    requires Sound(r) && PolledSince(r, r', t) && Tracks(r, g)
    ensures Tracks(ReclaimChain(r', r'.avail[t]), After(g, t))
  {
    hide Inv;
    ReclaimSince(r, r', t);
    TrackDeliver(r, ReclaimChain(r', r'.avail[t]), g, t);
    LedgerAfter(g, t);
  }

  lemma LedgerAfter(g: Registry, t: nat)
    requires t in g.owner ==> g.owner[t] in g.cookies
    requires Ledger(g)
    ensures Ledger(After(g, t))
  {
    if t in g.owner {
      assert g.owner[t] in g.cookies.Keys;
      assert (g.cookies - {g.owner[t]}).Keys == g.cookies.Keys - {g.owner[t]};
    }
  }

  lemma TrackDeliver(r: Ring, r': Ring, g: Registry, t: nat)
    requires CookiesTrack(r, g.cookies, g.owner) && Extends(r, r') && |r'.avail| == |r'.chains|
    requires Outstanding(r') == Outstanding(r) - {t}
    ensures CookiesTrack(r', After(g, t).cookies, After(g, t).owner)
  {
    var g' := After(g, t);
    forall u | u in g'.owner
      ensures u in Outstanding(r') && g'.owner[u] in g'.cookies && Records(r', u, g'.cookies[g'.owner[u]])
    {
      assert Records(r, u, g.cookies[g.owner[u]]);
    }
    forall d | d in g'.cookies
      ensures HasTicket(g'.owner, d)
    {
      assert HasTicket(g.owner, d);
      var u :| u in g.owner && g.owner[u] == d;
      assert u in g'.owner;
    }
  }

  /**
   An operation that polls and reclaims without consulting the cookie registry, as Write
   does, leaves the registry truthful exactly when none of the chains it polled was in flight
   for a cookie.
   */
  lemma UntouchedRegistryIff(r: Ring, r': Ring, g: Registry)
    requires Tracks(r, g) && Extends(r, r') && |r'.avail| == |r'.chains|
    ensures Tracks(r', g) <==> g.owner.Keys <= Outstanding(r')
  {
    if g.owner.Keys <= Outstanding(r') {
      forall u | u in g.owner
        ensures Records(r', u, g.cookies[g.owner[u]])
      {
        assert Records(r, u, g.cookies[g.owner[u]]);
      }
    }
  }

  lemma TracksIdle(r: Ring, r': Ring, g: Registry)
    requires Tracks(r, g) && Extends(r, r') && Sound(r') && Outstanding(r') == Outstanding(r)
    ensures Tracks(r', g)
  {
    UntouchedRegistryIff(r, r', g);
  }

  // --- a whole drain ---

  /** What is owed for the completions since..upto of the used ring, in used-ring order. */
  function CompletionEvents(answers: seq<nat>, reports: seq<seq<byte>>, g: Registry, since: nat, upto: nat): (evs: seq<Event>)
    decreases upto
  {
    if since >= upto || upto > |answers| || upto > |reports| then []
    else
      var ev := EventOf(g, answers[upto - 1], reports[upto - 1]);
      CompletionEvents(answers, reports, g, since, upto - 1) + if ev.Some? then [ev.value] else []
  }

  /** The registry after those completions. */
  function AfterAll(answers: seq<nat>, g: Registry, since: nat, upto: nat): (g': Registry)
    decreases upto
  {
    if since >= upto || upto > |answers| then g
    else After(AfterAll(answers, g, since, upto - 1), answers[upto - 1])
  }

  lemma {:induction false} PrefixSettles(answers: seq<nat>, reports: seq<seq<byte>>, answers': seq<nat>, reports': seq<seq<byte>>,
                                         g: Registry, since: nat, upto: nat)
    requires upto <= |answers| == |reports| && answers <= answers' && reports <= reports'
    ensures CompletionEvents(answers, reports, g, since, upto) == CompletionEvents(answers', reports', g, since, upto)
    ensures AfterAll(answers, g, since, upto) == AfterAll(answers', g, since, upto)
    decreases upto
  {
    if since < upto {
      PrefixSettles(answers, reports, answers', reports', g, since, upto - 1);
    }
  }

  /** Tickets complete at most once, so earlier completions leave ticket `t`'s entry as it was. */
  lemma {:induction false} OthersUntouched(answers: seq<nat>, g: Registry, since: nat, upto: nat, t: nat)
    requires upto <= |answers| && forall k | since <= k < upto :: answers[k] != t
    requires forall u, w | u in g.owner && w in g.owner && u != w :: g.owner[u] != g.owner[w]
    ensures var g' := AfterAll(answers, g, since, upto);
            && (forall u | u in g'.owner :: u in g.owner && g'.owner[u] == g.owner[u])
            && (t in g'.owner <==> t in g.owner)
            && (t in g.owner && g.owner[t] in g.cookies ==> g.owner[t] in g'.cookies && g'.cookies[g.owner[t]] == g.cookies[g.owner[t]])
            && (forall c | c in g'.cookies :: c in g.cookies && g'.cookies[c] == g.cookies[c])
    decreases upto
  {
    if since < upto {
      OthersUntouched(answers, g, since, upto - 1, t);
    }
  }

  function CookiesOf(evs: seq<Event>): set<nat> {
    if |evs| == 0 then {} else CookiesOf(evs[..|evs| - 1]) + {evs[|evs| - 1].cookie}
  }

  /** From registry g to registry g' the events `evs` delivered each of their cookies, once. */
  ghost predicate Delivers(g: Registry, g': Registry, evs: seq<Event>) {
    && |CookiesOf(evs)| == |evs|
    && CookiesOf(evs) <= g.cookies.Keys
    && g'.cookies.Keys == g.cookies.Keys - CookiesOf(evs)
    && g'.delivered == g.delivered + CookiesOf(evs)
  }

  /**
   A drain delivers each cookie at most once, only cookies that were in flight, and moves
   exactly those from in flight to delivered.
   */
  lemma {:induction false} DrainDeliversOnce(answers: seq<nat>, reports: seq<seq<byte>>, g: Registry, since: nat, upto: nat)
    requires since <= upto <= |answers| == |reports|
    requires forall i, j | 0 <= i < j < |answers| :: answers[i] != answers[j]
    requires OneToOne(g)
    ensures Delivers(g, AfterAll(answers, g, since, upto), CompletionEvents(answers, reports, g, since, upto))
    decreases upto
  {
    hide Delivers, StatusSeen;
    NoneDelivered(g, g);
    if since < upto {
      DrainDeliversOnce(answers, reports, g, since, upto - 1);
      var t := answers[upto - 1];
      StillOwned(answers, g, since, upto - 1, t);
      OthersUntouched(answers, g, since, upto - 1, t);
      var evs, g1 := CompletionEvents(answers, reports, g, since, upto - 1), AfterAll(answers, g, since, upto - 1);
      if t in g.owner {
        DeliverStep(g, g1, After(g1, t), evs, EventFor(g.owner[t], g.cookies[g.owner[t]], reports[upto - 1]));
      } else {
        assert evs + [] == evs;
      }
    }
  }

  lemma DeliverStep(g: Registry, g1: Registry, g2: Registry, evs: seq<Event>, ev: Event)
    requires Delivers(g, g1, evs) && ev.cookie in g1.cookies.Keys
    requires g2.cookies == g1.cookies - {ev.cookie} && g2.delivered == g1.delivered + {ev.cookie}
    ensures Delivers(g, g2, evs + [ev])
  {
    CookiesOfMore(evs, ev);
    assert (g1.cookies - {ev.cookie}).Keys == g1.cookies.Keys - {ev.cookie};
    assert ev.cookie !in CookiesOf(evs);
  }

  lemma CookiesOfMore(evs: seq<Event>, ev: Event)
    ensures CookiesOf(evs + [ev]) == CookiesOf(evs) + {ev.cookie}
  {
    assert (evs + [ev])[..|evs|] == evs;
  }

  lemma StillOwned(answers: seq<nat>, g: Registry, since: nat, upto: nat, t: nat)
    requires upto <= |answers| && forall k | since <= k < upto :: answers[k] != t
    requires OneToOne(g)
    ensures t in g.owner ==> g.owner[t] in AfterAll(answers, g, since, upto).cookies.Keys
  {
    OthersUntouched(answers, g, since, upto, t);
  }

  /** Between ring r with registry g and ring r' with registry g', everything completed was delivered, in order. */
  ghost predicate DeliveredUpTo(r: Ring, g: Registry, r': Ring, g': Registry, out: seq<Event>) {
    && Extends(r, r') && r'.avail == r.avail
    && g' == AfterAll(r'.answers, g, r.seen, r'.seen)
    && out == CompletionEvents(r'.answers, r'.reports, g, r.seen, r'.seen)
    && Trailers(r', g, r.seen)
  }

  /** The reports of the cookies' chains polled since are status trailers. */
  ghost predicate Trailers(r: Ring, g: Registry, since: nat) {
    forall k | since <= k < r.seen && k < |r.answers| && k < |r.reports| && r.answers[k] in g.owner :: |r.reports[k]| == PCM_STATUS_SIZE
  }

  /**
   The events are those of the cookies' chains among the completions since..upto, in used-ring
   order: event i belongs to completion `ks[i]`, names the cookie and the stream the transfer
   was issued with, its byte count, and the status in the device's report on that very ticket,
   unless the 32-bit length of the block does not cover the trailer.
   */
  ghost predicate InOrder(r: Ring, g: Registry, since: nat, out: seq<Event>, ks: seq<nat>) {
    && |ks| == |out|
    && (forall i | 0 <= i < |ks| :: since <= ks[i] < r.seen && ks[i] < |r.answers| && ks[i] < |r.reports|)
    && (forall i, j | 0 <= i < j < |ks| :: ks[i] < ks[j])
    && (forall k | since <= k < r.seen && k < |r.answers| && k < |r.reports| && r.answers[k] in g.owner :: k in ks)
    && (forall i | 0 <= i < |ks| ::
          var t := r.answers[ks[i]];
          && t in g.owner && g.owner[t] in g.cookies && |r.reports[ks[i]]| == PCM_STATUS_SIZE
          && var inf := g.cookies[g.owner[t]];
          && out[i].kind == WriteComplete && out[i].cookie == g.owner[t] && out[i].streamID == inf.streamID
          && out[i].bytesAccepted == inf.dataLen && out[i].controlID == 0
          && (Wrap32(inf.blockLen) >= inf.dataLen + 12 ==> out[i].statusCode == U32At(r.reports[ks[i]], 0))
          && (Wrap32(inf.blockLen) < inf.dataLen + 12 ==> out[i].statusCode == SOK))
  }

  /** What DeliveredUpTo says, completion by completion. */
  lemma DeliveredInOrder(r: Ring, g: Registry, r': Ring, g': Registry, out: seq<Event>) returns (ks: seq<nat>)
    requires Tracks(r, g) && DeliveredUpTo(r, g, r', g', out) && Sound(r') && r.seen <= r'.seen
    ensures InOrder(r', g, r.seen, out, ks)
  {
    hide Inv, AfterAll, CookiesTrack;
    SoundLogs(r');
    OwnersDistinct(r, g);
    RecordedLengths(r, g);
    ks := EventsInOrder(r', g, r.seen, r'.seen);
  }

  lemma DrainedForward(r: Ring, g: Registry, r': Ring, g': Registry, out: seq<Event>)
    requires ReportedUpTo(r, g, r', g', out)
    ensures r.seen <= r'.seen
  {
  }

  lemma RecordedLengths(r: Ring, g: Registry)
    requires CookiesTrack(r, g.cookies, g.owner)
    ensures Lengths(g)
  {
    forall t | t in g.owner
      ensures LengthsAgree(g.cookies, g.owner[t])
    {
      assert Records(r, t, g.cookies[g.owner[t]]);
    }
  }

  predicate LengthsAgree(cookies: map<nat, Inflight>, c: nat) {
    c in cookies && cookies[c].statusOff == 4 + cookies[c].dataLen && cookies[c].dataLen + 12 < U32
  }

  ghost predicate Lengths(g: Registry) {
    forall t | t in g.owner :: LengthsAgree(g.cookies, g.owner[t])
  }

  lemma {:induction false} EventsInOrder(r: Ring, g: Registry, since: nat, upto: nat) returns (ks: seq<nat>)
    requires since <= upto <= r.seen && r.seen <= |r.answers| == |r.reports|
    requires OneToOne(g) && Lengths(g) && Trailers(r, g, since)
    ensures InOrder(r.(seen := upto), g, since, CompletionEvents(r.answers, r.reports, g, since, upto), ks)
    decreases upto
  {
    if since == upto {
      ks := [];
    } else {
      var before := EventsInOrder(r, g, since, upto - 1);
      var t := r.answers[upto - 1];
      if t in g.owner {
        var inf := g.cookies[g.owner[t]];
        assert LengthsAgree(g.cookies, g.owner[t]);
        StatusReadIff(inf.blockLen, inf.dataLen, r.reports[upto - 1]);
        ks := before + [upto - 1];
        OneMore(r, g, since, upto, before, CompletionEvents(r.answers, r.reports, g, since, upto - 1),
          EventFor(g.owner[t], inf, r.reports[upto - 1]));
      } else {
        ks := before;
        assert CompletionEvents(r.answers, r.reports, g, since, upto - 1) + [] == CompletionEvents(r.answers, r.reports, g, since, upto - 1);
      }
    }
  }

  lemma OneMore(r: Ring, g: Registry, since: nat, upto: nat, before: seq<nat>, evs: seq<Event>, ev: Event)
    requires since < upto <= |r.answers| == |r.reports| && InOrder(r.(seen := upto - 1), g, since, evs, before)
    requires var t := r.answers[upto - 1];
             && t in g.owner && g.owner[t] in g.cookies && |r.reports[upto - 1]| == PCM_STATUS_SIZE
             && var inf := g.cookies[g.owner[t]];
             && ev == Event(WriteComplete, inf.streamID, g.owner[t], inf.dataLen, ev.statusCode, 0)
             && (Wrap32(inf.blockLen) >= inf.dataLen + 12 ==> ev.statusCode == U32At(r.reports[upto - 1], 0))
             && (Wrap32(inf.blockLen) < inf.dataLen + 12 ==> ev.statusCode == SOK)
    ensures InOrder(r.(seen := upto), g, since, evs + [ev], before + [upto - 1])
  {
    hide U32At;
    var ks := before + [upto - 1];
    forall k | since <= k < upto && r.answers[k] in g.owner
      ensures k in ks
    {
      if k == upto - 1 {
        assert ks[|before|] == k;
      }
    }
  }

  /** One turn of the txq loop of ReadEvents. */
  ghost predicate CompletionTurn(r: Ring, g: Registry, r': Ring, g': Registry, got: bool, ev: Option<Event>) {
    && Extends(r, r') && r'.avail == r.avail
    && (!got ==> r'.seen == r.seen && g' == g && ev == None)
    && (got ==> r'.seen == r.seen + 1 <= |r'.answers| == |r'.reports|)
    && (got ==> g' == After(g, r'.answers[r.seen]) && ev == EventOf(g, r'.answers[r.seen], r'.reports[r.seen]))
    && (got && r'.answers[r.seen] in g.owner ==> |r'.reports[r.seen]| == PCM_STATUS_SIZE)
  }

  lemma TurnDone(r: Ring, r': Ring, t: nat, g: Registry)
    requires Sound(r) && PolledSince(r, r', t) && Tracks(r, g)
    ensures CompletionTurn(r, g, ReclaimChain(r', r'.avail[t]), After(g, t), true, EventOf(g, t, r'.reports[r.seen]))
  {
    AdvancesExtends(r, r');
    if t in g.owner {
      TrailerReported(r, r', t, g);
    }
  }

  lemma TrailerReported(r: Ring, r': Ring, t: nat, g: Registry)
    requires Sound(r) && PolledSince(r, r', t) && CookiesTrack(r, g.cookies, g.owner) && t in g.owner
    ensures |r'.reports[r.seen]| == PCM_STATUS_SIZE
  {
    hide Inv, CookiesTrack;
    RecordedChain(r, g, t);
    AdvancesExtends(r, r');
    TrailerAt(r', t, g.cookies[g.owner[t]]);
  }

  lemma RecordedChain(r: Ring, g: Registry, t: nat)
    requires CookiesTrack(r, g.cookies, g.owner) && t in g.owner
    ensures g.owner[t] in g.cookies && Records(r, t, g.cookies[g.owner[t]])
  {
  }

  lemma TrailerAt(r: Ring, t: nat, inf: Inflight)
    requires PolledTicket(r, t) && t < |r.chains| && r.chains[t].bufs == TxBufs(inf.page, inf.dataLen)
    ensures |r.reports[r.seen - 1]| == PCM_STATUS_SIZE
  {
    assert r.chains[t].bufs[2].page == inf.page;
    TxGather(r.mem, inf.page, inf.dataLen);
  }

  lemma TurnIdle(r: Ring, r': Ring, g: Registry)
    requires Advances(r, r') && r'.seen == r.seen
    ensures CompletionTurn(r, g, r', g, false, None)
  {
    AdvancesExtends(r, r');
  }

  lemma DeliverNone(r: Ring, g: Registry)
    ensures DeliveredUpTo(r, g, r, g, [])
  {
  }

  lemma DeliverMore(r: Ring, g: Registry, r1: Ring, g1: Registry, out: seq<Event>, r2: Ring, g2: Registry, got: bool, ev: Option<Event>)
    requires DeliveredUpTo(r, g, r1, g1, out) && CompletionTurn(r1, g1, r2, g2, got, ev)
    requires Sound(r) && Sound(r1) && Sound(r2) && Tracks(r, g)
    ensures DeliveredUpTo(r, g, r2, g2, out + if ev.Some? then [ev.value] else [])
  {
    hide Inv, CookiesTrack, After, EventOf, AfterAll, CompletionEvents, Logs, Trailers;
    SoundLogs(r1);
    SoundLogs(r2);
    PrefixSettles(r1.answers, r1.reports, r2.answers, r2.reports, g, r.seen, r1.seen);
    if got {
      OwnersDistinct(r, g);
      SettleMore(r1, r2, g, r.seen);
      StillOwnedAt(r2, g, r.seen, r1.seen);
    }
    TrailersMore(r1, r2, g, r.seen);
  }

  lemma StillOwnedAt(r2: Ring, g: Registry, since: nat, k: nat)
    requires Logs(r2) && since <= k < |r2.answers| && OneToOne(g)
    ensures r2.answers[k] in g.owner <==> r2.answers[k] in AfterAll(r2.answers, g, since, k).owner
  {
    OthersUntouched(r2.answers, g, since, k, r2.answers[k]);
  }

  lemma TrailersMore(r1: Ring, r2: Ring, g: Registry, since: nat)
    requires Trailers(r1, g, since) && r1.answers <= r2.answers && r1.reports <= r2.reports
    requires r1.seen <= |r1.answers| && r1.seen <= |r1.reports| && r1.seen <= r2.seen <= r1.seen + 1
    requires r2.seen > r1.seen && r1.seen < |r2.answers| && r1.seen < |r2.reports| && r2.answers[r1.seen] in g.owner ==>
               |r2.reports[r1.seen]| == PCM_STATUS_SIZE
    ensures Trailers(r2, g, since)
  {
  }

  /** A drain leaves alone the cookies whose chains are still outstanding. */
  lemma DeliveredOthers(r: Ring, g: Registry, r': Ring, g': Registry, out: seq<Event>, t: nat)
    requires Sound(r') && Tracks(r, g) && DeliveredUpTo(r, g, r', g', out) && t in Outstanding(r')
    ensures t in g.owner <==> t in g'.owner
  {
    hide Owns, Blocks, AfterAll, CompletionEvents;
    OwnersDistinct(r, g);
    forall k | r.seen <= k < r'.seen
      ensures r'.answers[k] != t
    {
      if t in Unseen(r') {
        var j :| r'.seen <= j < |r'.answers| && r'.answers[j] == t;
      }
    }
    OthersUntouched(r'.answers, g, r.seen, r'.seen, t);
  }

  // --- a whole drain, whatever the registry is worth ---

  /** Cookie `c` delivered, whichever ticket it was registered for. */
  function AsDelivered(g: Registry, c: nat): Registry {
    g.(cookies := g.cookies - {c}, delivered := g.delivered + {c})
  }

  /** A completion event with what was registered for its cookie. */
  predicate SaysRegistered(g: Registry, ev: Event) {
    ev.cookie in g.cookies && ev == Event(WriteComplete, g.cookies[ev.cookie].streamID, ev.cookie, g.cookies[ev.cookie].dataLen, ev.statusCode, 0)
  }

  /**
   The completions since..upto, looked up by head one after the other: each takes a cookie that
   has its head, whichever the walk comes to, if there is one.
   */
  ghost predicate TakesAll(used: seq<Used>, g: Registry, g': Registry, since: nat, upto: nat, out: seq<Event>)
    requires upto <= |used|
    decreases upto - since
  {
    if since >= upto then g'.(owner := g.owner) == g && out == []
    else
      var head := used[since].head;
      || (MayFind(g.cookies, head, None) && TakesAll(used, g, g', since + 1, upto, out))
      || (&& out != [] && MayFind(g.cookies, head, Some(out[0].cookie)) && SaysRegistered(g, out[0])
          && TakesAll(used, AsDelivered(g, out[0].cookie), g', since + 1, upto, out[1..]))
  }

  /** What one drain came to, as the heads alone decide it. */
  ghost predicate ReportedUpTo(r: Ring, g: Registry, r': Ring, g': Registry, out: seq<Event>) {
    r.used <= r'.used && r.seen <= r'.seen <= |r'.used| && TakesAll(r'.used, g, g', r.seen, r'.seen, out)
  }

  lemma {:induction false} FirstCookieOf(ev: Event, evs: seq<Event>)
    ensures CookiesOf([ev] + evs) == {ev.cookie} + CookiesOf(evs)
    decreases |evs|
  {
    var n := |evs|;
    if n > 0 {
      assert ([ev] + evs)[..n] == [ev] + evs[..n - 1];
      FirstCookieOf(ev, evs[..n - 1]);
    } else {
      assert ([ev] + evs)[..0] == [];
    }
  }

  /** However the walks went, the events are completions of cookies that were in flight, each reported once and gone. */
  lemma {:induction false} TakesDeliver(used: seq<Used>, g: Registry, g': Registry, since: nat, upto: nat, out: seq<Event>)
    requires upto <= |used| && TakesAll(used, g, g', since, upto, out)
    ensures Delivers(g, g', out) && g'.next == g.next
    ensures forall i | 0 <= i < |out| :: out[i].kind == WriteComplete
    decreases upto - since
  {
    hide Delivers, AsDelivered, MayFind;
    if since >= upto {
      NoneDelivered(g, g');
    } else if MayFind(g.cookies, used[since].head, None) && TakesAll(used, g, g', since + 1, upto, out) {
      TakesDeliver(used, g, g', since + 1, upto, out);
    } else {
      var g1, rest := AsDelivered(g, out[0].cookie), out[1..];
      TakesDeliver(used, g1, g', since + 1, upto, rest);
      assert out == [out[0]] + rest;
      DeliverFirst(g, g', out[0], rest);
      forall i | 0 <= i < |out|
        ensures out[i].kind == WriteComplete
      {
        if i > 0 {
          assert out[i] == rest[i - 1];
        }
      }
    }
  }

  lemma NoneDelivered(g: Registry, g': Registry)
    requires g'.(owner := g.owner) == g
    ensures Delivers(g, g', []) && g'.next == g.next
  {
  }

  lemma DeliverFirst(g: Registry, g': Registry, ev: Event, rest: seq<Event>)
    requires ev.cookie in g.cookies && Delivers(AsDelivered(g, ev.cookie), g', rest)
    ensures Delivers(g, g', [ev] + rest) && AsDelivered(g, ev.cookie).next == g.next
  {
    FirstCookieOf(ev, rest);
    assert (g.cookies - {ev.cookie}).Keys == g.cookies.Keys - {ev.cookie};
    assert ev.cookie !in CookiesOf(rest);
  }

  /** One more completion looked up. */
  lemma {:induction false} TakesMore(used: seq<Used>, g: Registry, g1: Registry, since: nat, upto: nat, out: seq<Event>,
                                     r: Ring, g2: Registry, ev: Option<Event>)
    requires since <= upto <= |used| && TakesAll(used, g, g1, since, upto, out)
    requires used <= r.used && upto < |r.used| && LookedUp(r, g1, g2, r.used[upto].head, ev)
    ensures TakesAll(r.used, g, g2, since, upto + 1, out + if ev.Some? then [ev.value] else [])
    decreases upto - since
  {
    hide MayFind, EventFor, AsDelivered;
    var more := if ev.Some? then [ev.value] else [];
    if since == upto {
      TakesOne(g, g1, r, g2, upto, ev);
      assert [] + more == more;
    } else if MayFind(g.cookies, used[since].head, None) && TakesAll(used, g, g1, since + 1, upto, out) {
      TakesMore(used, g, g1, since + 1, upto, out, r, g2, ev);
    } else {
      TakesMore(used, AsDelivered(g, out[0].cookie), g1, since + 1, upto, out[1..], r, g2, ev);
      assert (out + more)[1..] == out[1..] + more;
    }
  }

  lemma TakesOne(g: Registry, g1: Registry, r: Ring, g2: Registry, upto: nat, ev: Option<Event>)
    requires g1.(owner := g.owner) == g && upto < |r.used| && LookedUp(r, g1, g2, r.used[upto].head, ev)
    ensures TakesAll(r.used, g, g2, upto, upto + 1, if ev.Some? then [ev.value] else [])
  {
  }

  /** Looking the same completions up in a longer log. */
  lemma {:induction false} TakesStable(used: seq<Used>, used': seq<Used>, g: Registry, g': Registry, since: nat, upto: nat, out: seq<Event>)
    requires used <= used' && upto <= |used| && TakesAll(used, g, g', since, upto, out)
    ensures TakesAll(used', g, g', since, upto, out)
    decreases upto - since
  {
    hide MayFind, AsDelivered, SaysRegistered;
    if since < upto {
      if MayFind(g.cookies, used[since].head, None) && TakesAll(used, g, g', since + 1, upto, out) {
        TakesStable(used, used', g, g', since + 1, upto, out);
      } else {
        TakesStable(used, used', AsDelivered(g, out[0].cookie), g', since + 1, upto, out[1..]);
      }
    }
  }

  /** One turn of the txq loop of ReadEvents, as the heads alone decide it. */
  ghost predicate SearchTurn(r: Ring, g: Registry, r': Ring, g': Registry, got: bool, ev: Option<Event>) {
    && r.used <= r'.used
    && (!got ==> r'.seen == r.seen && g' == g && ev == None)
    && (got ==> r'.seen == r.seen + 1 <= |r'.used| && LookedUp(r', g, g', r'.used[r.seen].head, ev))
  }

  lemma SearchDone(r: Ring, polled: Ring, t: nat, g: Registry, g': Registry, ev: Option<Event>)
    requires Sound(r) && PolledSince(r, polled, t) && LookedUp(polled, g, g', polled.avail[t], ev)
    ensures SearchTurn(r, g, ReclaimChain(polled, polled.avail[t]), g', true, ev)
  {
  }

  lemma SearchIdle(r: Ring, r': Ring, g: Registry)
    requires Advances(r, r') && r'.seen == r.seen
    ensures SearchTurn(r, g, r', g, false, None)
  {
  }

  lemma ReportNone(r: Ring, g: Registry)
    requires r.seen <= |r.used|
    ensures ReportedUpTo(r, g, r, g, [])
  {
  }

  lemma ReportMore(r: Ring, g: Registry, r1: Ring, g1: Registry, out: seq<Event>, r2: Ring, g2: Registry, got: bool, ev: Option<Event>)
    requires ReportedUpTo(r, g, r1, g1, out) && SearchTurn(r1, g1, r2, g2, got, ev)
    ensures ReportedUpTo(r, g, r2, g2, out + if ev.Some? then [ev.value] else [])
  {
    hide LookedUp, TakesAll;
    if got {
      TakesMore(r1.used, g, g1, r.seen, r1.seen, out, r2, g2, ev);
    } else {
      TakesStable(r1.used, r2.used, g, g1, r.seen, r1.seen, out);
      assert out + [] == out;
    }
  }

  lemma LedgerDelivers(g: Registry, g': Registry, evs: seq<Event>)
    requires Delivers(g, g', evs) && g'.next == g.next && Ledger(g)
    ensures Ledger(g')
  {
    assert g'.cookies.Keys + g'.delivered == g.cookies.Keys + g.delivered;
  }

  // --- the cookies of a sequence of events ---

  /** The cookies of the WriteComplete events, in order. */
  function Completed(evs: seq<Event>): seq<nat> {
    if |evs| == 0 then []
    else
      var last := evs[|evs| - 1];
      Completed(evs[..|evs| - 1]) + if last.kind == WriteComplete then [last.cookie] else []
  }

  lemma {:induction false} CompletedConcat(a: seq<Event>, b: seq<Event>)
    ensures Completed(a + b) == Completed(a) + Completed(b)
    decreases |b|
  {
    if |b| == 0 {
      assert a + b == a;
    } else {
      var n := |b| - 1;
      assert (a + b)[..|a| + n] == a + b[..n];
      CompletedConcat(a, b[..n]);
    }
  }

  /** When all events are completions, their cookies are those of the events. */
  lemma {:induction false} AllCompletions(evs: seq<Event>)
    requires forall i | 0 <= i < |evs| :: evs[i].kind == WriteComplete
    ensures |Completed(evs)| == |evs| && Elems(Completed(evs)) == CookiesOf(evs)
  {
    if |evs| > 0 {
      var n := |evs| - 1;
      AllCompletions(evs[..n]);
      assert Elems(Completed(evs[..n]) + [evs[n].cookie]) == Elems(Completed(evs[..n])) + {evs[n].cookie};
    }
  }

  lemma {:induction false} CountedDistinct(s: seq<nat>)
    requires |Elems(s)| == |s|
    ensures Distinct(s)
  {
    if |s| > 0 {
      var n := |s| - 1;
      assert Elems(s) == Elems(s[..n]) + {s[n]};
      ElemsCount(s[..n]);
      CountedDistinct(s[..n]);
      assert s[n] !in Elems(s[..n]);
    }
  }

  lemma {:induction false} ElemsCount(s: seq<nat>)
    ensures |Elems(s)| <= |s|
  {
    if |s| > 0 {
      var n := |s| - 1;
      assert Elems(s) == Elems(s[..n]) + {s[n]};
      ElemsCount(s[..n]);
    }
  }

  /** What ReadEvents' completions say: pairwise distinct cookies, in flight before and delivered now. */
  lemma DrainCookies(r: Ring, g: Registry, r': Ring, g': Registry, out: seq<Event>)
    requires ReportedUpTo(r, g, r', g', out)
    ensures Distinct(Completed(out)) && Elems(Completed(out)) <= g.cookies.Keys
    ensures g'.cookies.Keys == g.cookies.Keys - Elems(Completed(out)) && g'.delivered == g.delivered + Elems(Completed(out))
    ensures Delivers(g, g', out) && g'.next == g.next
  {
    TakesDeliver(r'.used, g, g', r.seen, r'.seen, out);
    AllCompletions(out);
    CountedDistinct(Completed(out));
  }

  lemma SoundLogs(r: Ring)
    requires Sound(r)
    ensures Logs(r) && r.seen <= |r.answers| == |r.reports| == |r.used|
  {
  }

  lemma OwnersDistinct(r: Ring, g: Registry)
    requires CookiesTrack(r, g.cookies, g.owner)
    ensures OneToOne(g)
  {
  }

  ghost predicate OneToOne(g: Registry) {
    && (forall u, w | u in g.owner && w in g.owner && u != w :: g.owner[u] != g.owner[w])
    && (forall u | u in g.owner :: g.owner[u] in g.cookies)
  }

  lemma SettleMore(r1: Ring, r2: Ring, g: Registry, since: nat)
    requires Logs(r2) && since <= r1.seen && r2.seen == r1.seen + 1 <= |r2.answers|
    requires OneToOne(g)
    ensures var t, g1 := r2.answers[r1.seen], AfterAll(r2.answers, g, since, r1.seen);
            && AfterAll(r2.answers, g, since, r2.seen) == After(g1, t)
            && var ev := EventOf(g, t, r2.reports[r1.seen]);
            && EventOf(g1, t, r2.reports[r1.seen]) == ev
            && CompletionEvents(r2.answers, r2.reports, g, since, r2.seen)
               == CompletionEvents(r2.answers, r2.reports, g, since, r1.seen) + if ev.Some? then [ev.value] else []
  {
    hide EventOf, After;
    EventUnaffected(r2, g, since, r1.seen);
  }

  /** What a completion is owed does not depend on the completions before it. */
  lemma EventUnaffected(r2: Ring, g: Registry, since: nat, k: nat)
    requires Logs(r2) && since <= k < |r2.answers|
    requires OneToOne(g)
    ensures var t := r2.answers[k];
            EventOf(AfterAll(r2.answers, g, since, k), t, r2.reports[k]) == EventOf(g, t, r2.reports[k])
  {
    OthersUntouched(r2.answers, g, since, k, r2.answers[k]);
  }

  // ---------------------------------------------------------------------------
  // One synchronous Write
  // ---------------------------------------------------------------------------

  /** Ticket `t`, rooted at `head`, is still being polled for; its block holds what the driver put there. */
  ghost predicate Polling(r: Ring, t: nat, e: Parked, streamID: u32, frames: seq<byte>) {
    && t in Outstanding(r)
    && |r.avail| == t + 1
    && Describes(r, t, e) && e.statusOff == 4 + |frames|
    && e.page < |r.mem| && |frames| + 12 <= |r.mem[e.page]|
    && r.mem[e.page][..4 + |frames|] == Le32(streamID) + frames
  }

  lemma PostedPolling(r: Ring, r': Ring, streamID: u32, frames: seq<byte>)
    requires Posted(r, r', streamID, frames)
    ensures Polling(r', |r.avail|, Parked(r'.avail[|r.avail|], |r.mem|, 4 + |frames|), streamID, frames)
  {
    TxGather(r'.mem, |r.mem|, |frames|);
  }

  /** While the device runs and other chains are polled, the own chain keeps its contents. */
  lemma PollingAdvances(r: Ring, r': Ring, t: nat, e: Parked, streamID: u32, frames: seq<byte>)
    requires Sound(r) && Advances(r, r') && Polling(r, t, e, streamID, frames)
    ensures r'.mem[e.page][..4 + |frames|] == Le32(streamID) + frames
    ensures |r'.mem[e.page]| == |r.mem[e.page]|
  {
    DeviceKeepsPrefix(r, Outstanding(r), r', t, 4 + |frames|);
  }

  lemma PollingHead(r: Ring, t: nat, e: Parked, streamID: u32, frames: seq<byte>)
    requires Polling(r, t, e, streamID, frames)
    ensures t in Outstanding(r) && |r.avail| == t + 1 && e.head == r.avail[t]
  {
  }

  /** A turn that does not poll the own chain leaves it to be polled for. */
  lemma PollingGoesOn(r: Ring, r': Ring, r2: Ring, t: nat, e: Parked, streamID: u32, frames: seq<byte>)
    requires Sound(r) && Advances(r, r') && Polling(r, t, e, streamID, frames)
    requires r2 == r'.(desc := r2.desc) && t in Outstanding(r2)
    ensures Polling(r2, t, e, streamID, frames)
  {
    PollingAdvances(r, r', t, e, streamID, frames);
  }

  /**
   What one Write means in tickets.  Either it published nothing; or its ticket is still
   outstanding and it timed out; or its own completion was polled during the call and the
   result is decided by what the device wrote for that very ticket.
   */
  ghost predicate WriteOutcome(r: Ring, r': Ring, streamID: u32, frames: seq<byte>, res: Result<nat, SoundError>) {
    var t, n := |r.avail|, |frames|;
    && (|r'.avail| == t ==> (res.Ok? ==> n == 0 && res.value == 0) && res != Err(ErrXferTimeout) && res != Err(ErrDeviceStatus))
    && (|r'.avail| != t ==>
          && |r'.avail| == t + 1 && Carries(r', t, streamID, frames)
          && (t in Outstanding(r') <==> res == Err(ErrXferTimeout))
          && (t !in Outstanding(r') ==> Reported(r', t, r.seen, res, n)))
  }

  /** The completion of ticket `t` was polled since, and the result is success exactly when the device reported OK on it. */
  ghost predicate Reported(r: Ring, t: nat, since: nat, res: Result<nat, SoundError>, n: nat) {
    exists k ::
      && since <= k < r.seen && k < |r.answers| == |r.reports| && r.answers[k] == t && |r.reports[k]| == PCM_STATUS_SIZE
      && (res == Ok(n) <==> U32At(r.reports[k], 0) == SOK)
      && (res == Err(ErrDeviceStatus) <==> U32At(r.reports[k], 0) != SOK)
  }

  lemma ReportedSince(r0: Ring, r1: Ring, r: Ring, t: nat, res: Result<nat, SoundError>, n: nat)
    requires Extends(r0, r1) && Reported(r, t, r1.seen, res, n)
    ensures Reported(r, t, r0.seen, res, n)
  {
  }

  /** The trailer read after the own chain's completion is the report of the own ticket. */
  lemma OwnReport(r: Ring, t: nat, e: Parked, n: nat)
    requires PolledTicket(r, t) && Describes(r, t, e) && e.statusOff == 4 + n
    ensures e.page < |r.mem| && e.statusOff + 8 <= |r.mem[e.page]|
    ensures r.mem[e.page][e.statusOff..e.statusOff + 8] == r.reports[r.seen - 1]
  {
    assert r.chains[t].bufs[2].page == e.page;
    TxGather(r.mem, e.page, n);
  }

  /** Spelled out: with the own completion polled, the device's report on the own ticket decides. */
  lemma OutcomeDecides(r: Ring, r': Ring, streamID: u32, frames: seq<byte>, res: Result<nat, SoundError>)
    requires WriteOutcome(r, r', streamID, frames, res) && |r'.avail| > |r.avail|
    ensures res == Err(ErrXferTimeout) <==> |r.avail| in Outstanding(r')
    ensures |r.avail| !in Outstanding(r') ==> exists k ::
              && r.seen <= k < r'.seen && k < |r'.answers| == |r'.reports| && r'.answers[k] == |r.avail| && |r'.reports[k]| == PCM_STATUS_SIZE
              && (res == Ok(|frames|) <==> U32At(r'.reports[k], 0) == SOK)
              && (res == Err(ErrDeviceStatus) <==> U32At(r'.reports[k], 0) != SOK)
  {
    hide Outstanding, Carries, U32At;
  }

  /** A Write that published nothing. */
  lemma RefusedOutcome(r: Ring, r': Ring, streamID: u32, frames: seq<byte>, e: SoundError)
    requires |r'.avail| == |r.avail| && e != ErrXferTimeout && e != ErrDeviceStatus
    ensures WriteOutcome(r, r', streamID, frames, Err(e))
  {
  }

  lemma NothingWritten(r: Ring, streamID: u32, frames: seq<byte>)
    ensures WriteOutcome(r, r, streamID, frames, Err(ErrStreamIDOutOfRange))
    ensures frames == [] ==> WriteOutcome(r, r, streamID, frames, Ok(0))
    ensures Extends(r, r)
  {
  }

  lemma AwaitedOutcome(r: Ring, drained: Ring, posted: Ring, r': Ring, streamID: u32, frames: seq<byte>, res: Result<nat, SoundError>)
    requires Extends(r, drained) && drained.avail == r.avail && Posted(drained, posted, streamID, frames)
    requires |r'.avail| == |r.avail| + 1 && Carries(r', |r.avail|, streamID, frames)
    requires |r.avail| in Outstanding(r') <==> res == Err(ErrXferTimeout)
    requires |r.avail| !in Outstanding(r') ==> Reported(r', |r.avail|, posted.seen, res, |frames|)
    ensures WriteOutcome(r, r', streamID, frames, res)
  {
  }

  /** Polling and reclaiming the own chain: everything Write then claims, from what its trailer says. */
  lemma OwnDone(r: Ring, r': Ring, t: nat, e: Parked, streamID: u32, frames: seq<byte>)
    requires Sound(r) && Polling(r, t, e, streamID, frames)
    requires PolledSince(r, r', t)
    ensures e.page < |r'.mem| && e.statusOff + 8 <= |r'.mem[e.page]|
    ensures forall res |
              && (res == Ok(|frames|) <==> U32At(r'.mem[e.page][e.statusOff..e.statusOff + 8], 0) == SOK)
              && (res == Err(ErrDeviceStatus) <==> U32At(r'.mem[e.page][e.statusOff..e.statusOff + 8], 0) != SOK) ::
              Reported(r', t, r.seen, res, |frames|)
    ensures r.seen < |r'.reports| == |r'.answers| && r'.answers[r.seen] == t
    ensures r'.reports[r.seen] == r'.mem[e.page][e.statusOff..e.statusOff + 8]
    ensures Carries(r', t, streamID, frames)
  {
    PollingAdvances(r, r', t, e, streamID, frames);
    OwnReport(r', t, e, |frames|);
    TxGather(r'.mem, e.page, |frames|);
    assert r'.answers[r.seen] == t;
  }
}
