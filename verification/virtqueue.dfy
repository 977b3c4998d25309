/**
 A split virtqueue (section 2.7 of Virtio 1.2) as the sound driver sees it, together with
 the device that serves it.

 The functions below are the contract assumed of go-virtio/common's `Virtqueue` and page
 allocator, which are not part of this model.  A chain is rooted at a head descriptor and
 linked through `next`; `ReclaimChain` is given nothing but the head, so it finds the chain
 again by walking the descriptor table.

 The position of a chain in the available ring is its TICKET: tickets are never reused,
 heads are.  The driver never sees a ticket.  The rings are kept as unbounded logs;
 `RingNeverOverruns` shows that the real rings, of `|desc|` entries, never overwrite an
 entry that is still needed.
 */
module Virtqueue {
  import opened Wrappers
  import opened Bytes

  /** A DMA buffer: `len` bytes at `off` in the `page`-th block the allocator handed out. */
  datatype Buf = Buf(page: nat, off: nat, len: nat, writable: bool)

  datatype Desc = Desc(inUse: bool, next: Option<nat>, buf: Buf)

  /** A used-ring entry: the head of a completed chain and the device-reported length. */
  datatype Used = Used(head: nat, len: nat)

  datatype Chain = Chain(slots: seq<nat>, bufs: seq<Buf>)

  datatype Ring = Ring(
    desc: seq<Desc>,
    avail: seq<nat>,          // heads, in the order published; the index is the ticket
    used: seq<Used>,          // completions, in the order the device made them
    seen: nat,                // how many used entries PollUsed has returned
    mem: seq<seq<byte>>,      // the blocks handed out by AllocatePages for this queue
    held: set<nat>,           // tickets the device has not completed yet
    answers: seq<nat>,        // for each used entry, the ticket it completes
    reports: seq<seq<byte>>,  // for each used entry, what the device left in the chain's writable buffers
    chains: seq<Chain>        // what was published under each ticket
  )

  // ---------------------------------------------------------------------------
  // Operations
  // ---------------------------------------------------------------------------

  /** The descriptors reached from `h`; at most `fuel` of them. */
  function Walk(desc: seq<Desc>, h: nat, fuel: nat): (ws: seq<nat>)
    ensures forall i | 0 <= i < |ws| :: ws[i] < |desc|
    decreases fuel
  {
    if fuel == 0 || h >= |desc| then []
    else [h] + match desc[h].next
      case None => []
      case Some(n) => Walk(desc, n, fuel - 1)
  }

  function ChainAt(desc: seq<Desc>, h: nat): (ws: seq<nat>)
    ensures forall i | 0 <= i < |ws| :: ws[i] < |desc|
  {
    Walk(desc, h, |desc|)
  }

  const FREE_DESC: Desc := Desc(false, None, Buf(0, 0, 0, false))

  predicate InRange(slots: seq<nat>, n: nat) {
    forall i | 0 <= i < |slots| :: slots[i] < n
  }

  function Link(desc: seq<Desc>, slots: seq<nat>, bufs: seq<Buf>): (d: seq<Desc>)
    requires |slots| == |bufs| && InRange(slots, |desc|)
    ensures |d| == |desc|
    decreases |slots|
  {
    if |slots| == 0 then desc
    else
      var next := if |slots| == 1 then None else Some(slots[1]);
      Link(desc[slots[0] := Desc(true, next, bufs[0])], slots[1..], bufs[1..])
  }

  function Publish(r: Ring, slots: seq<nat>, bufs: seq<Buf>): Ring
    requires |slots| == |bufs| > 0 && InRange(slots, |r.desc|)
  {
    r.(desc := Link(r.desc, slots, bufs),
       avail := r.avail + [slots[0]],
       held := r.held + {|r.avail|},
       chains := r.chains + [Chain(slots, bufs)])
  }

  function PollUsed(r: Ring): Ring {
    r.(seen := r.seen + 1)
  }

  function ReclaimChain(r: Ring, h: nat): Ring {
    var ws := ChainAt(r.desc, h);
    r.(desc := seq(|r.desc|, s requires 0 <= s < |r.desc| => if s in ws then FREE_DESC else r.desc[s]))
  }

  function Allocate(r: Ring, block: seq<byte>): Ring {
    r.(mem := r.mem + [block])
  }

  /** A queue as NewVirtqueue hands it out: n free descriptors, nothing published. */
  function EmptyRing(n: nat): Ring {
    Ring(seq(n, _ => FREE_DESC), [], [], 0, [], {}, [], [], [])
  }

  // ---------------------------------------------------------------------------
  // The device
  // ---------------------------------------------------------------------------

  predicate Covers(b: Buf, page: nat, o: nat) {
    b.writable && b.page == page && b.off <= o < b.off + b.len
  }

  /** Byte `o` of block `p` lies in a device-writable buffer of one of the descriptors `ws`. */
  predicate Exposed(desc: seq<Desc>, ws: seq<nat>, p: nat, o: nat) {
    exists i | 0 <= i < |ws| :: ws[i] < |desc| && Covers(desc[ws[i]].buf, p, o)
  }

  predicate SameShape(mem: seq<seq<byte>>, mem': seq<seq<byte>>) {
    && |mem'| == |mem|
    && forall p | 0 <= p < |mem| :: |mem'[p]| == |mem[p]|
  }

  /** A DMA write by the device through the descriptors `ws` as they are linked now. */
  predicate WritesThrough(desc: seq<Desc>, ws: seq<nat>, mem: seq<seq<byte>>, mem': seq<seq<byte>>) {
    && SameShape(mem, mem')
    && forall p, o | 0 <= p < |mem| && 0 <= o < |mem[p]| && !Exposed(desc, ws, p, o) :: mem'[p][o] == mem[p][o]
  }

  function Slice(mem: seq<seq<byte>>, b: Buf): (s: seq<byte>) {
    if b.page < |mem| && b.off + b.len <= |mem[b.page]| then mem[b.page][b.off..b.off + b.len] else []
  }

  /** The device-writable buffers of a chain, read back to back. */
  function Gather(mem: seq<seq<byte>>, bufs: seq<Buf>): (s: seq<byte>) {
    if |bufs| == 0 then []
    else (if bufs[0].writable then Slice(mem, bufs[0]) else []) + Gather(mem, bufs[1..])
  }

  /** The device-readable buffers of a chain, read back to back: what the device is told. */
  function Request(mem: seq<seq<byte>>, bufs: seq<Buf>): (s: seq<byte>) {
    if |bufs| == 0 then []
    else (if bufs[0].writable then [] else Slice(mem, bufs[0])) + Request(mem, bufs[1..])
  }

  function BufsOf(desc: seq<Desc>, ws: seq<nat>): (bufs: seq<Buf>)
    requires forall i | 0 <= i < |ws| :: ws[i] < |desc|
    ensures |bufs| == |ws|
  {
    seq(|ws|, i requires 0 <= i < |ws| => desc[ws[i]].buf)
  }

  /** The device completes ticket `t`, having left memory as `mem'`, and reports `len` bytes. */
  function Complete(r: Ring, t: nat, len: nat, mem': seq<seq<byte>>): Ring
    requires t < |r.avail|
  {
    var h := r.avail[t];
    r.(used := r.used + [Used(h, len)],
       mem := mem',
       held := r.held - {t},
       answers := r.answers + [t],
       reports := r.reports + [Gather(mem', BufsOf(r.desc, ChainAt(r.desc, h)))])
  }

  predicate Completes(r: Ring, t: nat, len: nat, r': Ring) {
    && t in r.held && t < |r.avail|
    && WritesThrough(r.desc, ChainAt(r.desc, r.avail[t]), r.mem, r'.mem)
    && r' == Complete(r, t, len, r'.mem)
  }

  // ---------------------------------------------------------------------------
  // The invariant
  // ---------------------------------------------------------------------------

  /** Tickets completed by the device but not yet returned by PollUsed. */
  function Unseen(r: Ring): set<nat> {
    set k | r.seen <= k < |r.answers| :: r.answers[k]
  }

  /** Tickets published and not yet polled: the chains the device may still write to or report. */
  function Outstanding(r: Ring): set<nat> {
    r.held + Unseen(r)
  }

  /** Every ticket is held or completed, never both, and completed at most once. */
  ghost predicate Logs(r: Ring) {
    && |r.chains| == |r.avail|
    && |r.answers| == |r.used| == |r.reports|
    && r.seen <= |r.used|
    && (forall t | t in r.held :: t < |r.avail|)
    && (forall k | 0 <= k < |r.answers| :: r.answers[k] < |r.avail| && r.answers[k] !in r.held)
    && (forall k | 0 <= k < |r.answers| :: r.used[k].head == r.avail[r.answers[k]])
    && (forall j, k | 0 <= j < k < |r.answers| :: r.answers[j] != r.answers[k])
    && (forall t | 0 <= t < |r.avail| :: t in r.held || t in r.answers)
  }

  /** What the i-th descriptor of a chain over `slots` and `bufs` holds. */
  function LinkedDesc(slots: seq<nat>, bufs: seq<Buf>, i: nat): Desc
    requires i < |slots| == |bufs|
  {
    Desc(true, if i + 1 < |slots| then Some(slots[i + 1]) else None, bufs[i])
  }

  /** Chain `c` is linked in the descriptor table, all of its slots InUse. */
  ghost predicate Linked(desc: seq<Desc>, c: Chain) {
    && 0 < |c.slots| == |c.bufs| <= |desc|
    && (forall i | 0 <= i < |c.slots| :: c.slots[i] < |desc|)
    && (forall i, j | 0 <= i < j < |c.slots| :: c.slots[i] != c.slots[j])
    && (forall i {:trigger LinkedDesc(c.slots, c.bufs, i)} | 0 <= i < |c.slots| ::
          desc[c.slots[i]] == LinkedDesc(c.slots, c.bufs, i))
  }

  ghost predicate Apart(a: seq<nat>, b: seq<nat>) {
    forall i, j | 0 <= i < |a| && 0 <= j < |b| :: a[i] != b[j]
  }

  /** The InUse slots are exactly the disjoint union of the slots of the chains in `out`. */
  ghost predicate Owns(desc: seq<Desc>, chains: seq<Chain>, out: set<nat>) {
    && (forall t | t in out :: t < |chains| && Linked(desc, chains[t]))
    && (forall t, u | t in out && u in out && t != u :: Apart(chains[t].slots, chains[u].slots))
    && (forall s | 0 <= s < |desc| && desc[s].inUse :: exists t :: t in out && s in chains[t].slots)
  }

  /** All buffers of the chain lie within one block. */
  ghost predicate InBlock(mem: seq<seq<byte>>, c: Chain) {
    && 0 < |c.bufs|
    && c.bufs[0].page < |mem|
    && forall i | 0 <= i < |c.bufs| :: c.bufs[i].page == c.bufs[0].page && c.bufs[i].off + c.bufs[i].len <= |mem[c.bufs[i].page]|
  }

  /** Outstanding chains sit in different blocks, and what the device reported is still there. */
  ghost predicate Blocks(r: Ring)
    requires Logs(r)
  {
    && (forall t | t in Outstanding(r) :: InBlock(r.mem, r.chains[t]))
    && (forall t, u | t in Outstanding(r) && u in Outstanding(r) && t != u ::
          r.chains[t].bufs[0].page != r.chains[u].bufs[0].page)
    && (forall k | r.seen <= k < |r.answers| :: r.reports[k] == Gather(r.mem, r.chains[r.answers[k]].bufs))
  }

  /** The ring is sound and the driver owns the slots of the tickets in `out`. */
  ghost predicate Inv(r: Ring, out: set<nat>) {
    && Logs(r)
    && Outstanding(r) <= out
    && Owns(r.desc, r.chains, out)
    && (forall t | t in out :: t < |r.avail| && r.avail[t] == r.chains[t].slots[0])
    && Blocks(r)
  }

  /** The state between driver calls: every owned slot belongs to a chain published and not yet polled. */
  ghost predicate Sound(r: Ring) {
    Inv(r, Outstanding(r))
  }

  function Elems(s: seq<nat>): set<nat> {
    set x | x in s
  }

  function InUse(desc: seq<Desc>): set<nat> {
    set s | 0 <= s < |desc| && desc[s].inUse
  }

  // ---------------------------------------------------------------------------
  // Chains and heads
  // ---------------------------------------------------------------------------

  lemma {:induction false} WalkFollows(desc: seq<Desc>, c: Chain, i: nat, fuel: nat)
    requires Linked(desc, c) && i < |c.slots| <= i + fuel
    ensures Walk(desc, c.slots[i], fuel) == c.slots[i..]
    decreases fuel
  {
    assert desc[c.slots[i]] == LinkedDesc(c.slots, c.bufs, i);
    if i + 1 < |c.slots| {
      WalkFollows(desc, c, i + 1, fuel - 1);
      assert c.slots[i..] == [c.slots[i]] + c.slots[i + 1..];
    } else {
      assert c.slots[i..] == [c.slots[i]];
    }
  }

  /** The walk from a linked chain's head visits exactly its slots, in order. */
  lemma WalkFindsChain(desc: seq<Desc>, c: Chain)
    requires Linked(desc, c)
    ensures ChainAt(desc, c.slots[0]) == c.slots
    ensures BufsOf(desc, c.slots) == c.bufs
  {
    WalkFollows(desc, c, 0, |desc|);
    forall i | 0 <= i < |c.slots|
      ensures BufsOf(desc, c.slots)[i] == c.bufs[i]
    {
      assert desc[c.slots[i]] == LinkedDesc(c.slots, c.bufs, i);
    }
  }

  /** Among owned chains the reusable head index identifies the ticket. */
  lemma HeadIdentifiesTicket(r: Ring, out: set<nat>, t: nat, u: nat)
    requires Inv(r, out) && t in out && u in out
    ensures r.avail[t] == r.avail[u] <==> t == u
  {
    if t != u {
      assert Apart(r.chains[t].slots, r.chains[u].slots);
    }
  }

  // ---------------------------------------------------------------------------
  // Every operation keeps the invariant
  // ---------------------------------------------------------------------------

  lemma {:induction false} LinkAt(desc: seq<Desc>, slots: seq<nat>, bufs: seq<Buf>)
    requires |slots| == |bufs| && InRange(slots, |desc|)
    requires forall i, j | 0 <= i < j < |slots| :: slots[i] != slots[j]
    ensures forall s | 0 <= s < |desc| && s !in slots :: Link(desc, slots, bufs)[s] == desc[s]
    ensures forall i {:trigger LinkedDesc(slots, bufs, i)} | 0 <= i < |slots| ::
              Link(desc, slots, bufs)[slots[i]] == LinkedDesc(slots, bufs, i)
    decreases |slots|
  {
    if |slots| > 0 {
      var next := if |slots| == 1 then None else Some(slots[1]);
      var d := desc[slots[0] := Desc(true, next, bufs[0])];
      LinkAt(d, slots[1..], bufs[1..]);
      assert slots[0] !in slots[1..];
      forall i | 0 <= i < |slots|
        ensures Link(desc, slots, bufs)[slots[i]] == LinkedDesc(slots, bufs, i)
      {
        if i > 0 {
          assert Link(d, slots[1..], bufs[1..])[slots[1..][i - 1]] == LinkedDesc(slots[1..], bufs[1..], i - 1);
        }
      }
      forall s | 0 <= s < |desc| && s !in slots
        ensures Link(desc, slots, bufs)[s] == desc[s]
      {
        assert s !in slots[1..] && s != slots[0];
      }
    }
  }

  ghost predicate FreeSlots(desc: seq<Desc>, slots: seq<nat>) {
    && (forall i | 0 <= i < |slots| :: slots[i] < |desc| && !desc[slots[i]].inUse)
    && (forall i, j | 0 <= i < j < |slots| :: slots[i] != slots[j])
  }

  /** Writing other slots leaves an owned chain linked. */
  lemma StaysLinked(desc: seq<Desc>, desc': seq<Desc>, c: Chain, slots: seq<nat>)
    requires Linked(desc, c) && |desc'| == |desc|
    requires forall s | 0 <= s < |desc| && s !in slots :: desc'[s] == desc[s]
    requires Apart(c.slots, slots)
    ensures Linked(desc', c)
  {
    forall i | 0 <= i < |c.slots|
      ensures desc'[c.slots[i]] == LinkedDesc(c.slots, c.bufs, i)
    {
      assert c.slots[i] !in slots;
    }
  }

  lemma PublishOwns(desc: seq<Desc>, chains: seq<Chain>, out: set<nat>, slots: seq<nat>, bufs: seq<Buf>)
    requires Owns(desc, chains, out)
    requires |chains| !in out
    requires 0 < |slots| == |bufs| <= |desc| && FreeSlots(desc, slots) && InRange(slots, |desc|)
    ensures Owns(Link(desc, slots, bufs), chains + [Chain(slots, bufs)], out + {|chains|})
  {
    LinkAt(desc, slots, bufs);
    var d, cs := Link(desc, slots, bufs), chains + [Chain(slots, bufs)];
    assert Linked(d, cs[|chains|]);
    forall t | t in out
      ensures cs[t] == chains[t] && Linked(d, cs[t]) && Apart(cs[t].slots, slots)
    {
      NewSlotsApart(desc, chains[t], slots);
      StaysLinked(desc, d, chains[t], slots);
    }
    forall s | 0 <= s < |d| && d[s].inUse
      ensures exists t :: t in out + {|chains|} && s in cs[t].slots
    {
      if s in slots {
        assert s in cs[|chains|].slots;
      } else {
        assert desc[s].inUse;
        var t :| t in out && s in chains[t].slots;
        assert s in cs[t].slots;
      }
    }
    PublishApart(chains, out, Chain(slots, bufs));
  }

  lemma NewSlotsApart(desc: seq<Desc>, c: Chain, slots: seq<nat>)
    requires Linked(desc, c) && FreeSlots(desc, slots)
    ensures Apart(c.slots, slots)
  {
    forall i | 0 <= i < |c.slots|
      ensures desc[c.slots[i]].inUse
    {
      assert desc[c.slots[i]] == LinkedDesc(c.slots, c.bufs, i);
    }
  }

  lemma PublishApart(chains: seq<Chain>, out: set<nat>, c: Chain)
    requires forall t | t in out :: t < |chains| && Apart(chains[t].slots, c.slots)
    requires forall t, u | t in out && u in out && t != u :: Apart(chains[t].slots, chains[u].slots)
    ensures forall t, u | t in out + {|chains|} && u in out + {|chains|} && t != u ::
              Apart((chains + [c])[t].slots, (chains + [c])[u].slots)
  {
    var cs := chains + [c];
    forall t, u | t in out + {|chains|} && u in out + {|chains|} && t != u
      ensures Apart(cs[t].slots, cs[u].slots)
    {
      if t in out && u in out {
        assert Apart(chains[t].slots, chains[u].slots);
      } else if t in out {
        assert Apart(chains[t].slots, c.slots);
      } else {
        assert Apart(chains[u].slots, c.slots);
      }
    }
  }

  lemma ReclaimOwns(desc: seq<Desc>, desc': seq<Desc>, chains: seq<Chain>, out: set<nat>, t: nat)
    requires Owns(desc, chains, out) && t in out
    requires |desc'| == |desc|
    requires forall s | 0 <= s < |desc| :: desc'[s] == if s in chains[t].slots then FREE_DESC else desc[s]
    ensures Owns(desc', chains, out - {t})
  {
    forall u | u in out - {t}
      ensures Linked(desc', chains[u])
    {
      assert Apart(chains[t].slots, chains[u].slots) && Linked(desc, chains[u]);
    }
    forall s | 0 <= s < |desc'| && desc'[s].inUse
      ensures exists u :: u in out - {t} && s in chains[u].slots
    {
      var u :| u in out && s in chains[u].slots;
      assert u in out - {t};
    }
  }

  /** AddChain and AddBuffer: publishing a chain on free slots, over a block no outstanding chain uses. */
  lemma PublishKeeps(r: Ring, out: set<nat>, slots: seq<nat>, bufs: seq<Buf>)
    requires Inv(r, out)
    requires 0 < |slots| == |bufs| <= |r.desc| && FreeSlots(r.desc, slots) && InRange(slots, |r.desc|)
    requires InBlock(r.mem, Chain(slots, bufs))
    requires forall t | t in Outstanding(r) :: r.chains[t].bufs[0].page != bufs[0].page
    ensures Inv(Publish(r, slots, bufs), out + {|r.avail|})
    ensures Outstanding(Publish(r, slots, bufs)) == Outstanding(r) + {|r.avail|}
    ensures FreeCount(Publish(r, slots, bufs).desc) == FreeCount(r.desc) - |bufs|
  {
    var r', n := Publish(r, slots, bufs), |r.avail|;
    PublishOwns(r.desc, r.chains, out, slots, bufs);
    assert Unseen(r') == Unseen(r);
    forall t | t in out
      ensures r'.chains[t] == r.chains[t] && r'.avail[t] == r.avail[t]
    {
    }
    PublishBlocks(r, slots, bufs);
    PublishCount(r.desc, slots, bufs);
  }

  lemma PublishCount(desc: seq<Desc>, slots: seq<nat>, bufs: seq<Buf>)
    requires |slots| == |bufs| && FreeSlots(desc, slots) && InRange(slots, |desc|)
    ensures FreeCount(Link(desc, slots, bufs)) == FreeCount(desc) - |bufs|
  {
    var desc' := Link(desc, slots, bufs);
    LinkAt(desc, slots, bufs);
    forall s | 0 <= s < |desc|
      ensures s in InUse(desc') <==> s in InUse(desc) || s in slots
    {
      if s in slots {
        var i :| 0 <= i < |slots| && slots[i] == s;
        assert desc'[slots[i]] == LinkedDesc(slots, bufs, i);
      }
    }
    assert InUse(desc') == InUse(desc) + Elems(slots);
    assert InUse(desc) !! Elems(slots);
    assert |InUse(desc) + Elems(slots)| == |InUse(desc)| + |Elems(slots)|;
    DistinctCount(slots);
  }

  lemma PublishBlocks(r: Ring, slots: seq<nat>, bufs: seq<Buf>)
    requires Logs(r) && Blocks(r)
    requires 0 < |slots| == |bufs| && InRange(slots, |r.desc|)
    requires InBlock(r.mem, Chain(slots, bufs))
    requires forall t | t in Outstanding(r) :: r.chains[t].bufs[0].page != bufs[0].page
    ensures Logs(Publish(r, slots, bufs)) && Blocks(Publish(r, slots, bufs))
    ensures Outstanding(Publish(r, slots, bufs)) == Outstanding(r) + {|r.avail|}
  {
    PublishLogs(r, slots, bufs);
    var r' := Publish(r, slots, bufs);
    forall k | r.seen <= k < |r.answers|
      ensures r'.chains[r.answers[k]] == r.chains[r.answers[k]]
    {
    }
  }

  lemma PublishLogs(r: Ring, slots: seq<nat>, bufs: seq<Buf>)
    requires Logs(r) && 0 < |slots| == |bufs| && InRange(slots, |r.desc|)
    ensures Logs(Publish(r, slots, bufs))
    ensures Outstanding(Publish(r, slots, bufs)) == Outstanding(r) + {|r.avail|}
    ensures forall t | t in Outstanding(r) :: t < |r.avail| && Publish(r, slots, bufs).chains[t] == r.chains[t]
  {
    var r', n := Publish(r, slots, bufs), |r.avail|;
    assert Unseen(r') == Unseen(r);
    forall t | 0 <= t < |r'.avail|
      ensures t in r'.held || t in r'.answers
    {
      if t != n {
        assert t in r.held || t in r.answers;
      }
    }
  }

  /** PollUsed takes one ticket out of the outstanding set and frees nothing. */
  lemma PollKeeps(r: Ring, out: set<nat>)
    requires Inv(r, out) && r.seen < |r.used|
    ensures Inv(PollUsed(r), out)
    ensures r.answers[r.seen] in Outstanding(r)
    ensures Outstanding(PollUsed(r)) == Outstanding(r) - {r.answers[r.seen]}
  {
    UnseenAfterPoll(r);
    assert Logs(PollUsed(r));
    assert r.answers[r.seen] !in r.held;
  }

  lemma UnseenAfterPoll(r: Ring)
    requires Logs(r) && r.seen < |r.used|
    ensures r.answers[r.seen] in Unseen(r)
    ensures Unseen(PollUsed(r)) == Unseen(r) - {r.answers[r.seen]}
  {
    var r', t := PollUsed(r), r.answers[r.seen];
    forall u | u in Unseen(r) && u != t
      ensures u in Unseen(r')
    {
      var k :| r.seen <= k < |r.answers| && u == r.answers[k];
      assert k > r.seen;
    }
    forall u | u in Unseen(r')
      ensures u in Unseen(r) && u != t
    {
      var k :| r'.seen <= k < |r'.answers| && u == r'.answers[k];
      assert r.answers[k] != r.answers[r.seen];
    }
  }

  /** ReclaimChain, told only the head of a polled ticket, frees exactly that ticket's slots. */
  lemma ReclaimKeeps(r: Ring, out: set<nat>, t: nat)
    requires Inv(r, out) && t in out && t !in Outstanding(r)
    ensures Inv(ReclaimChain(r, r.avail[t]), out - {t})
    ensures Outstanding(ReclaimChain(r, r.avail[t])) == Outstanding(r)
    ensures InUse(ReclaimChain(r, r.avail[t]).desc) == InUse(r.desc) - Elems(r.chains[t].slots)
    ensures FreeCount(ReclaimChain(r, r.avail[t]).desc) == FreeCount(r.desc) + |r.chains[t].bufs|
  {
    hide Owns, Blocks, Linked, ReclaimChain;
    var r' := ReclaimChain(r, r.avail[t]);
    ReclaimTable(r, out, t);
    ReclaimOwns(r.desc, r'.desc, r.chains, out, t);
    FreedInUse(r.desc, r'.desc, r.chains[t]);
    TableOnly(r, r'.desc);
  }

  /** What reclaiming does to the table, and to nothing else. */
  lemma ReclaimTable(r: Ring, out: set<nat>, t: nat)
    requires Inv(r, out) && t in out
    ensures Linked(r.desc, r.chains[t]) && |r.chains[t].slots| == |r.chains[t].bufs|
    ensures var r' := ReclaimChain(r, r.avail[t]);
            && r' == r.(desc := r'.desc) && |r'.desc| == |r.desc|
            && forall s | 0 <= s < |r.desc| :: r'.desc[s] == if s in r.chains[t].slots then FREE_DESC else r.desc[s]
  {
    WalkFindsChain(r.desc, r.chains[t]);
  }

  /** The logs and the blocks do not depend on the descriptor table. */
  lemma TableOnly(r: Ring, desc: seq<Desc>)
    requires Logs(r) && Blocks(r)
    ensures Logs(r.(desc := desc)) && Blocks(r.(desc := desc))
    ensures Outstanding(r.(desc := desc)) == Outstanding(r)
  {
    assert Unseen(r.(desc := desc)) == Unseen(r);
  }

  /**
   Reclaiming a chain keeps the ring sound exactly when its completion has been polled.  This
   is why a chain that timed out is parked, and what a failed doorbell or a control timeout,
   which do reclaim a published chain, give up.
   */
  lemma ReclaimSoundIff(r: Ring, t: nat)
    requires Inv(r, Outstanding(r) + {t})
    ensures Sound(ReclaimChain(r, r.avail[t])) <==> t !in Outstanding(r)
  {
    var r' := ReclaimChain(r, r.avail[t]);
    if t in Outstanding(r) {
      WalkFindsChain(r.desc, r.chains[t]);
      assert Outstanding(r') == Outstanding(r) by {
        assert Unseen(r') == Unseen(r);
      }
      var h := r.chains[t].slots[0];
      assert h in r.chains[t].slots;
      FreeHeadUnlinks(r'.desc, r.chains[t]);
    } else {
      ReclaimPolled(r, t);
    }
  }

  lemma FreeHeadUnlinks(desc: seq<Desc>, c: Chain)
    requires 0 < |c.slots| && c.slots[0] < |desc| && !desc[c.slots[0]].inUse
    ensures !Linked(desc, c)
  {
    if 0 < |c.slots| == |c.bufs| {
      assert LinkedDesc(c.slots, c.bufs, 0).inUse;
    }
  }

  lemma ReclaimPolled(r: Ring, t: nat)
    requires Inv(r, Outstanding(r) + {t}) && t !in Outstanding(r)
    ensures Sound(ReclaimChain(r, r.avail[t]))
    ensures Outstanding(ReclaimChain(r, r.avail[t])) == Outstanding(r)
    ensures FreeCount(ReclaimChain(r, r.avail[t]).desc) == FreeCount(r.desc) + |r.chains[t].bufs|
  {
    ReclaimKeeps(r, Outstanding(r) + {t}, t);
    assert Outstanding(r) + {t} - {t} == Outstanding(r);
  }

  /** Logs only grow, tickets keep their chains, blocks keep their lengths. */
  ghost predicate Extends(r: Ring, r': Ring) {
    && |r'.desc| == |r.desc|
    && r.avail <= r'.avail && r.chains <= r'.chains
    && r.used <= r'.used && r.answers <= r'.answers && r.reports <= r'.reports
    && r.seen <= r'.seen
    && |r.mem| <= |r'.mem|
    && forall p | 0 <= p < |r.mem| :: |r'.mem[p]| == |r.mem[p]|
  }

  lemma ExtendsTransitive(a: Ring, b: Ring, c: Ring)
    requires Extends(a, b) && Extends(b, c)
    ensures Extends(a, c)
  {
  }

  lemma AllocateKeeps(r: Ring, out: set<nat>, block: seq<byte>)
    requires Inv(r, out)
    ensures Inv(Allocate(r, block), out)
    ensures Outstanding(Allocate(r, block)) == Outstanding(r)
    ensures forall t | t in Outstanding(r) :: r.chains[t].bufs[0].page != |r.mem|
  {
    var r' := Allocate(r, block);
    assert Unseen(r') == Unseen(r);
    forall k | r.seen <= k < |r.answers|
      ensures r'.reports[k] == Gather(r'.mem, r.chains[r.answers[k]].bufs)
    {
      assert r.answers[k] in Outstanding(r);
      GatherSame(r.mem, r'.mem, r.chains[r.answers[k]].bufs);
    }
  }

  /** Chains read the same wherever memory agrees on their block. */
  lemma {:induction false} GatherSame(mem: seq<seq<byte>>, mem': seq<seq<byte>>, bufs: seq<Buf>)
    requires forall i | 0 <= i < |bufs| :: bufs[i].page < |mem| && bufs[i].page < |mem'| && mem[bufs[i].page] == mem'[bufs[i].page]
    ensures Gather(mem, bufs) == Gather(mem', bufs)
  {
    if |bufs| > 0 {
      assert Slice(mem, bufs[0]) == Slice(mem', bufs[0]);
      GatherSame(mem, mem', bufs[1..]);
    }
  }

  // ---------------------------------------------------------------------------
  // The device keeps it too
  // ---------------------------------------------------------------------------

  /** A write through an outstanding chain touches no byte outside that chain's writable buffers. */
  lemma WriteStaysInChain(r: Ring, out: set<nat>, t: nat, mem': seq<seq<byte>>, p: nat, o: nat)
    requires Inv(r, out) && t in r.held
    requires WritesThrough(r.desc, ChainAt(r.desc, r.avail[t]), r.mem, mem')
    requires p < |r.mem| && o < |r.mem[p]|
    requires mem'[p][o] != r.mem[p][o]
    ensures exists i :: 0 <= i < |r.chains[t].bufs| && Covers(r.chains[t].bufs[i], p, o)
    ensures p == r.chains[t].bufs[0].page
  {
    var c := r.chains[t];
    assert t in Outstanding(r);
    WalkFindsChain(r.desc, c);
    assert Exposed(r.desc, c.slots, p, o);
    ExposedByChain(r.desc, c, p, o);
    assert InBlock(r.mem, c);
  }

  lemma ExposedByChain(desc: seq<Desc>, c: Chain, p: nat, o: nat)
    requires Linked(desc, c) && Exposed(desc, c.slots, p, o)
    ensures exists i :: 0 <= i < |c.bufs| && Covers(c.bufs[i], p, o)
  {
    var i :| 0 <= i < |c.slots| && Covers(desc[c.slots[i]].buf, p, o);
    assert desc[c.slots[i]] == LinkedDesc(c.slots, c.bufs, i);
    assert Covers(c.bufs[i], p, o);
  }

  lemma OtherBlocksSame(r: Ring, out: set<nat>, t: nat, mem': seq<seq<byte>>, p: nat)
    requires Inv(r, out) && t in r.held
    requires WritesThrough(r.desc, ChainAt(r.desc, r.avail[t]), r.mem, mem')
    requires p < |r.mem| && p != r.chains[t].bufs[0].page
    ensures mem'[p] == r.mem[p]
  {
    forall o | 0 <= o < |r.mem[p]|
      ensures mem'[p][o] == r.mem[p][o]
    {
      if mem'[p][o] != r.mem[p][o] {
        WriteStaysInChain(r, out, t, mem', p, o);
      }
    }
  }

  /** A completion reports its own chain, keeps every other chain's bytes, and keeps the invariant. */
  lemma CompleteKeeps(r: Ring, out: set<nat>, t: nat, len: nat, r': Ring)
    requires Inv(r, out) && Completes(r, t, len, r')
    ensures Inv(r', out)
    ensures Outstanding(r') == Outstanding(r)
  {
    CompleteLogs(r, t, len, r');
    var c := r.chains[t];
    assert t in Outstanding(r);
    WalkFindsChain(r.desc, c);
    forall k | r'.seen <= k < |r'.answers|
      ensures r'.reports[k] == Gather(r'.mem, r'.chains[r'.answers[k]].bufs)
    {
      if k < |r.answers| {
        var u := r.answers[k];
        assert u in Outstanding(r) && u != t;
        assert InBlock(r.mem, r.chains[u]);
        OtherBlocksSame(r, out, t, r'.mem, r.chains[u].bufs[0].page);
        GatherSame(r.mem, r'.mem, r.chains[u].bufs);
      }
    }
    forall u | u in Outstanding(r')
      ensures InBlock(r'.mem, r'.chains[u])
    {
      assert InBlock(r.mem, r.chains[u]);
    }
  }

  lemma CompleteLogs(r: Ring, t: nat, len: nat, r': Ring)
    requires Logs(r) && Completes(r, t, len, r')
    ensures Logs(r')
    ensures Outstanding(r') == Outstanding(r)
  {
    assert forall u | u in r.answers :: u in r'.answers;
    assert r'.answers[|r.answers|] == t;
    forall u
      ensures u in Outstanding(r') <==> u in Outstanding(r)
    {
      if u in Unseen(r) {
        var k :| r.seen <= k < |r.answers| && u == r.answers[k];
        assert r'.answers[k] == u;
      }
    }
  }

  /** Byte `o` of block `p` is one that some chain the device still holds lets it write. */
  ghost predicate DeviceMayWrite(r: Ring, p: nat, o: nat) {
    exists t :: t in r.held && t < |r.avail| && Exposed(r.desc, ChainAt(r.desc, r.avail[t]), p, o)
  }

  /** What any number of completions can do: log entries are added, only held chains' buffers change. */
  ghost predicate Serves(r: Ring, r': Ring) {
    && r'.desc == r.desc && r'.avail == r.avail && r'.seen == r.seen && r'.chains == r.chains
    && r.used <= r'.used && r.answers <= r'.answers && r.reports <= r'.reports
    && r'.held <= r.held
    && SameShape(r.mem, r'.mem)
    && forall p, o | 0 <= p < |r.mem| && 0 <= o < |r.mem[p]| && !DeviceMayWrite(r, p, o) :: r'.mem[p][o] == r.mem[p][o]
  }

  /** PollUsed moves only the driver's position. */
  ghost predicate Advances(r: Ring, r': Ring) {
    r.seen <= r'.seen <= r.seen + 1 && Serves(r, r'.(seen := r.seen))
  }

  lemma ServesMore(r: Ring, r1: Ring, t: nat, len: nat, r': Ring)
    requires Serves(r, r1) && Completes(r1, t, len, r')
    ensures Serves(r, r')
  {
    forall p, o | 0 <= p < |r.mem| && 0 <= o < |r.mem[p]| && !DeviceMayWrite(r, p, o)
      ensures r'.mem[p][o] == r.mem[p][o]
    {
      assert t in r.held;
      assert !Exposed(r.desc, ChainAt(r.desc, r.avail[t]), p, o);
      assert r1.mem[p][o] == r.mem[p][o];
    }
  }

  lemma AdvancesExtends(r: Ring, r': Ring)
    requires Advances(r, r')
    ensures Extends(r, r')
  {
  }

  lemma AdvancesReclaim(r: Ring, r': Ring, h: nat)
    requires Advances(r, r')
    ensures Extends(r, r') && Extends(r, ReclaimChain(r', h)) && r'.avail == r.avail
  {
  }

  /** Bytes of an outstanding chain's block that the chain does not expose stay as the driver left them. */
  lemma DeviceKeepsReadable(r: Ring, out: set<nat>, r': Ring, t: nat, o: nat)
    requires Inv(r, out) && Serves(r, r') && t in Outstanding(r)
    requires o < |r.mem[r.chains[t].bufs[0].page]|
    requires forall i | 0 <= i < |r.chains[t].bufs| :: !Covers(r.chains[t].bufs[i], r.chains[t].bufs[0].page, o)
    ensures r'.mem[r.chains[t].bufs[0].page][o] == r.mem[r.chains[t].bufs[0].page][o]
  {
    var p := r.chains[t].bufs[0].page;
    if DeviceMayWrite(r, p, o) {
      var u :| u in r.held && u < |r.avail| && Exposed(r.desc, ChainAt(r.desc, r.avail[u]), p, o);
      assert u in Outstanding(r);
      var c := r.chains[u];
      WalkFindsChain(r.desc, c);
      ExposedByChain(r.desc, c, p, o);
      assert false;
    }
  }

  /** What precedes an outstanding chain's writable buffers stays as the driver laid it out. */
  lemma DeviceKeepsPrefix(r: Ring, out: set<nat>, r': Ring, t: nat, lo: nat)
    requires Inv(r, out) && Advances(r, r') && t in Outstanding(r)
    requires lo <= |r.mem[r.chains[t].bufs[0].page]|
    requires forall i | 0 <= i < |r.chains[t].bufs| && r.chains[t].bufs[i].writable :: lo <= r.chains[t].bufs[i].off
    ensures r'.mem[r.chains[t].bufs[0].page][..lo] == r.mem[r.chains[t].bufs[0].page][..lo]
  {
    var p := r.chains[t].bufs[0].page;
    forall o | 0 <= o < lo
      ensures r'.mem[p][o] == r.mem[p][o]
    {
      DeviceKeepsReadable(r, out, r'.(seen := r.seen), t, o);
    }
  }

  /** One act of the device: the ticket it completes, the length it reports, the memory it leaves. */
  datatype Completion = Completion(ticket: nat, len: nat, mem: seq<seq<byte>>)

  /** The ring after the completions `cs`. */
  function Does(r: Ring, cs: seq<Completion>): Ring
    decreases |cs|
  {
    if |cs| == 0 then r
    else
      var before, c := Does(r, cs[..|cs| - 1]), cs[|cs| - 1];
      if c.ticket < |before.avail| then Complete(before, c.ticket, c.len, c.mem) else before
  }

  /** A device may complete `cs`, one after the other. */
  predicate May(r: Ring, cs: seq<Completion>)
    decreases |cs|
  {
    |cs| > 0 ==>
      var c := cs[|cs| - 1];
      May(r, cs[..|cs| - 1]) && Completes(Does(r, cs[..|cs| - 1]), c.ticket, c.len, Does(r, cs))
  }

  /** What the device does of the moves it has planned: all of them, if they are open to it one after the other, or nothing. */
  function Acts(r: Ring, plan: seq<Completion>): (cs: seq<Completion>)
    ensures May(r, cs)
    ensures May(r, plan) ==> cs == plan
  {
    if May(r, plan) then plan else []
  }

  lemma {:induction false} DoesServes(r: Ring, cs: seq<Completion>, out: set<nat>)
    requires May(r, cs)
    ensures Serves(r, Does(r, cs))
    ensures Inv(r, out) ==> Inv(Does(r, cs), out) && Outstanding(Does(r, cs)) == Outstanding(r)
    decreases |cs|
  {
    hide Inv, Serves, Outstanding;
    if |cs| > 0 {
      var c, p := cs[|cs| - 1], Does(r, cs[..|cs| - 1]);
      DoesServes(r, cs[..|cs| - 1], out);
      ServesMore(r, p, c.ticket, c.len, Does(r, cs));
      if Inv(r, out) {
        CompleteKeeps(p, out, c.ticket, c.len, Does(r, cs));
      }
    } else {
      ServesSelf(r);
    }
  }

  lemma ServesSelf(r: Ring)
    ensures Serves(r, r)
  {
  }

  lemma DoesNothing(r: Ring)
    ensures May(r, []) && Does(r, []) == r
  {
  }

  lemma DoesMore(r: Ring, cs: seq<Completion>, c: Completion)
    requires May(r, cs) && c.ticket < |Does(r, cs).avail|
    requires Completes(Does(r, cs), c.ticket, c.len, Complete(Does(r, cs), c.ticket, c.len, c.mem))
    ensures May(r, cs + [c]) && Does(r, cs + [c]) == Complete(Does(r, cs), c.ticket, c.len, c.mem)
  {
    assert (cs + [c])[..|cs|] == cs;
  }

  /** After `cs` there is a completion to poll. */
  predicate Polls(r: Ring, cs: seq<Completion>) {
    Does(r, cs).seen < |Does(r, cs).used|
  }

  /**
   The device runs: it completes at most `budget` of the chains it holds, in any order, each
   at most once, writing anything at all into their device-writable buffers.
   */
  method DeviceRunsWithin(r: Ring, ghost out: set<nat>, budget: nat) returns (r': Ring, left: nat, ghost cs: seq<Completion>)
    ensures Serves(r, r')
    ensures May(r, cs) && r' == Does(r, cs)
    ensures Inv(r, out) ==> Inv(r', out) && Outstanding(r') == Outstanding(r)
    ensures left + |r'.used| == budget + |r.used|
  {
    hide May, Does;
    r', left, cs := r, budget, [];
    DoesNothing(r);
    while left > 0
      invariant Serves(r, r')
      invariant May(r, cs) && r' == Does(r, cs)
      invariant Inv(r, out) ==> Inv(r', out) && Outstanding(r') == Outstanding(r)
      invariant left + |r'.used| == budget + |r.used|
    {
      if r'.held == {} {
        break;
      }
      var t :| t in r'.held;
      var stop: bool := *;
      if t >= |r'.avail| || stop {
        break;
      }
      var mem' := DeviceWrites(r', t);
      var len: nat := *;
      var next := Complete(r', t, len, mem');
      if Inv(r, out) {
        CompleteKeeps(r', out, t, len, next);
      }
      ServesMore(r, r', t, len, next);
      DoesMore(r, cs, Completion(t, len, mem'));
      r', left, cs := next, left - 1, cs + [Completion(t, len, mem')];
    }
  }

  /** The device stores arbitrary bytes, one at a time, into the writable buffers of ticket `t`. */
  method DeviceWrites(r: Ring, t: nat) returns (mem': seq<seq<byte>>)
    requires t < |r.avail|
    ensures WritesThrough(r.desc, ChainAt(r.desc, r.avail[t]), r.mem, mem')
  {
    mem' := r.mem;
    var ws := ChainAt(r.desc, r.avail[t]);
    var writes: nat := *;
    while writes > 0
      invariant WritesThrough(r.desc, ws, r.mem, mem')
    {
      var p: nat, o: nat, b: byte := *, *, *;
      if p < |mem'| && o < |mem'[p]| && Exposed(r.desc, ws, p, o) {
        var block: seq<byte> := mem'[p];
        block := block[o := b];
        mem' := mem'[p := block];
      }
      writes := writes - 1;
    }
  }

  // ---------------------------------------------------------------------------
  // Counting slots
  // ---------------------------------------------------------------------------

  function FreeCount(desc: seq<Desc>): int {
    |desc| - |InUse(desc)|
  }

  lemma {:induction false} DistinctCount(s: seq<nat>)
    requires forall i, j | 0 <= i < j < |s| :: s[i] != s[j]
    ensures |Elems(s)| == |s|
  {
    if |s| > 0 {
      DistinctCount(s[1..]);
      assert Elems(s) == {s[0]} + Elems(s[1..]);
      assert s[0] !in s[1..];
    }
  }

  lemma {:induction false} CountBelow(a: set<nat>, n: nat)
    requires forall x | x in a :: x < n
    ensures |a| <= n
  {
    if n > 0 {
      CountBelow(a - {n - 1}, n - 1);
      if n - 1 in a {
        assert a == (a - {n - 1}) + {n - 1};
      } else {
        assert a == a - {n - 1};
      }
    } else {
      assert a == {};
    }
  }

  lemma {:induction false} CountAtLeast(a: set<nat>, n: nat)
    requires forall x | 0 <= x < n :: x in a
    ensures |a| >= n
  {
    if n > 0 {
      CountAtLeast(a - {n - 1}, n - 1);
    }
  }

  /** When every owned chain has between lo and hi slots, so many slots are InUse. */
  lemma {:induction false} OwnedCount(desc: seq<Desc>, chains: seq<Chain>, out: set<nat>, lo: nat, hi: nat)
    requires Owns(desc, chains, out)
    requires forall t | t in out :: lo <= |chains[t].slots| <= hi
    ensures lo * |out| <= |InUse(desc)| <= hi * |out|
    decreases |out|
  {
    if out == {} {
      assert InUse(desc) == {};
    } else {
      var t :| t in out;
      var desc' := WithoutChain(desc, chains, out, t);
      OwnedCount(desc', chains, out - {t}, lo, hi);
      Distribute(lo, |out| - 1);
      Distribute(hi, |out| - 1);
    }
  }

  lemma Distribute(a: nat, n: nat)
    ensures a * (n + 1) == a * n + a
  {
  }

  /** Freeing one owned chain lowers the InUse count by its length. */
  lemma WithoutChain(desc: seq<Desc>, chains: seq<Chain>, out: set<nat>, t: nat) returns (desc': seq<Desc>)
    requires Owns(desc, chains, out) && t in out
    ensures Owns(desc', chains, out - {t})
    ensures |InUse(desc)| == |InUse(desc')| + |chains[t].slots|
  {
    var c := chains[t];
    desc' := seq(|desc|, s requires 0 <= s < |desc| => if s in c.slots then FREE_DESC else desc[s]);
    ReclaimOwns(desc, desc', chains, out, t);
    FreedInUse(desc, desc', c);
  }

  lemma FreedInUse(desc: seq<Desc>, desc': seq<Desc>, c: Chain)
    requires Linked(desc, c) && |desc'| == |desc|
    requires forall s | 0 <= s < |desc| :: desc'[s] == if s in c.slots then FREE_DESC else desc[s]
    ensures InUse(desc') == InUse(desc) - Elems(c.slots)
    ensures |InUse(desc)| == |InUse(desc')| + |c.slots|
  {
    DistinctCount(c.slots);
    ChainInUse(desc, c);
    assert InUse(desc) == InUse(desc') + Elems(c.slots);
    assert InUse(desc') !! Elems(c.slots);
    assert |InUse(desc') + Elems(c.slots)| == |InUse(desc')| + |Elems(c.slots)|;
  }

  lemma ChainInUse(desc: seq<Desc>, c: Chain)
    requires Linked(desc, c)
    ensures forall s | s in c.slots :: s in InUse(desc)
  {
    forall s | s in c.slots
      ensures s in InUse(desc)
    {
      var i :| 0 <= i < |c.slots| && c.slots[i] == s;
      assert desc[c.slots[i]] == LinkedDesc(c.slots, c.bufs, i);
    }
  }

  lemma InUseBound(desc: seq<Desc>)
    ensures 0 <= FreeCount(desc) <= |desc|
  {
    CountBelow(InUse(desc), |desc|);
  }

  /**
   The chains the device holds and the completions the driver has not polled number, together,
   no more than the ring's entries: indices taken modulo the ring size (or modulo 2^16) are
   unambiguous and no used or available entry is overwritten before it is read.
   */
  lemma RingNeverOverruns(r: Ring)
    requires Sound(r)
    ensures |r.held| + (|r.used| - r.seen) == |Outstanding(r)| <= |r.desc|
  {
    UnseenCount(r);
    assert r.held !! Unseen(r);
    OutstandingBound(r.desc, r.chains, Outstanding(r));
  }

  lemma UnseenCount(r: Ring)
    requires Logs(r)
    ensures |Unseen(r)| == |r.used| - r.seen
  {
    var tail := r.answers[r.seen..];
    DistinctCount(tail);
    forall t
      ensures t in Unseen(r) <==> t in Elems(tail)
    {
      if t in Unseen(r) {
        var k :| r.seen <= k < |r.answers| && r.answers[k] == t;
        assert tail[k - r.seen] == t;
      }
    }
    assert Unseen(r) == Elems(tail);
  }

  lemma OutstandingBound(desc: seq<Desc>, chains: seq<Chain>, out: set<nat>)
    requires Owns(desc, chains, out)
    ensures |out| <= |desc|
  {
    forall t | t in out
      ensures 1 <= |chains[t].slots| <= |desc|
    {
      assert Linked(desc, chains[t]);
    }
    OwnedCount(desc, chains, out, 1, |desc|);
    InUseBound(desc);
  }

  // ---------------------------------------------------------------------------
  // Taking slots
  // ---------------------------------------------------------------------------

  /**
   AddChain (and AddBuffer, a chain of one): takes some free slots, links and publishes them,
   and fails, changing nothing, exactly when fewer than |bufs| slots are free.  Which free
   slots it takes is left open.
   */
  method AddChain(r: Ring, bufs: seq<Buf>) returns (head: Option<nat>, r': Ring)
    requires 0 < |bufs|
    ensures head.Some? <==> |bufs| <= FreeCount(r.desc)
    ensures head.None? ==> r' == r
    ensures head.Some? ==> Published(r, r', bufs) && head.value == r'.avail[|r.avail|]
  {
    var slots: seq<nat> := [];
    var s := 0;
    while s < |r.desc| && |slots| < |bufs|
      invariant 0 <= s <= |r.desc|
      invariant FreeSlots(r.desc, slots) && |slots| <= |bufs| && |slots| <= s
      invariant forall i | 0 <= i < |slots| :: slots[i] < s
      invariant forall x | 0 <= x < s && !r.desc[x].inUse :: x in slots
    {
      if !r.desc[s].inUse {
        slots := slots + [s];
      }
      s := s + 1;
    }
    TakenCount(r.desc, slots);
    if |slots| < |bufs| {
      NoneLeft(r.desc, slots);
      return None, r;
    }
    head, r' := Some(slots[0]), Publish(r, slots, bufs);
  }

  lemma PublishedKeeps(r: Ring, out: set<nat>, r': Ring, bufs: seq<Buf>)
    requires Inv(r, out) && Published(r, r', bufs)
    requires InBlock(r.mem, r'.chains[|r.chains|])
    requires forall t | t in Outstanding(r) :: r.chains[t].bufs[0].page != bufs[0].page
    ensures Inv(r', out + {|r.avail|})
    ensures Outstanding(r') == Outstanding(r) + {|r.avail|}
    ensures FreeCount(r'.desc) == FreeCount(r.desc) - |bufs|
  {
    var slots := r'.chains[|r.chains|].slots;
    TakenCount(r.desc, slots);
    InUseBound(r.desc);
    PublishKeeps(r, out, slots, bufs);
  }

  /** The device completed `cs`, then PollUsed answered `got`. */
  ghost predicate Turned(r: Ring, cs: seq<Completion>, got: Option<Used>, r': Ring) {
    && May(r, cs)
    && (got.Some? <==> Polls(r, cs))
    && r' == if got.Some? then PollUsed(Does(r, cs)) else Does(r, cs)
  }

  /**
   One turn of a polling loop: the device runs, then the driver polls.  `t` is the ticket of
   the completion returned.
   */
  method PollTurnWithin(r: Ring, budget: nat) returns (got: Option<Used>, r': Ring, ghost t: nat, left: nat, ghost cs: seq<Completion>)
    ensures Advances(r, r')
    ensures Turned(r, cs, got, r')
    ensures left + |r'.used| == budget + |r.used|
    ensures got.None? ==> r'.seen == r.seen && |r'.used| <= r.seen
    ensures got.Some? ==> r'.seen == r.seen + 1 <= |r'.used| && got.value == r'.used[r.seen]
    ensures Sound(r) && got.None? ==> Sound(r') && Outstanding(r') == Outstanding(r) && Unseen(r') == {}
    ensures Sound(r) && got.Some? ==> PolledSince(r, r', t) && got.value.head == r'.avail[t]
  {
    hide May, Does;
    r', left, cs := DeviceRunsWithin(r, Outstanding(r), budget);
    t := 0;
    if r'.seen < |r'.used| {
      got := Some(r'.used[r'.seen]);
      if Sound(r) {
        t := r'.answers[r'.seen];
        PollKeeps(r', Outstanding(r));
        PolledFacts(r');
      }
      r' := PollUsed(r');
    } else {
      got := None;
    }
  }

  /** The same where the device's moves are given: `plan` is what it is about to do. */
  method PollTurn(r: Ring, plan: seq<Completion>) returns (got: Option<Used>, r': Ring, ghost t: nat)
    ensures Advances(r, r')
    ensures Turned(r, Acts(r, plan), got, r')
    ensures got.None? ==> r'.seen == r.seen && |r'.used| <= r.seen
    ensures got.Some? ==> r'.seen == r.seen + 1 <= |r'.used| && got.value == r'.used[r.seen]
    ensures Sound(r) && got.None? ==> Sound(r') && Outstanding(r') == Outstanding(r) && Unseen(r') == {}
    ensures Sound(r) && got.Some? ==> PolledSince(r, r', t) && got.value.head == r'.avail[t]
  {
    hide May, Does, Serves, Acts;
    var cs := Acts(r, plan);
    DoesServes(r, cs, Outstanding(r));
    r', t := Does(r, cs), 0;
    ServesMoves(r, r');
    if r'.seen < |r'.used| {
      got := Some(r'.used[r'.seen]);
      if Sound(r) {
        t := r'.answers[r'.seen];
        PollKeeps(r', Outstanding(r));
        PolledFacts(r');
      }
      r' := PollUsed(r');
    } else {
      got := None;
    }
  }

  lemma ServesMoves(r: Ring, r': Ring)
    requires Serves(r, r')
    ensures Advances(r, r') && Advances(r, PollUsed(r')) && r'.seen == r.seen
  {
    assert PollUsed(r').(seen := r.seen) == r';
  }

  /** Between r and r' the device ran and the driver polled the completion of ticket `t`. */
  ghost predicate PolledSince(r: Ring, r': Ring, t: nat) {
    && Advances(r, r') && r'.seen == r.seen + 1
    && PolledTicket(r', t)
    && t in Outstanding(r) && Outstanding(r') == Outstanding(r) - {t}
    && Inv(r', Outstanding(r))
  }

  /** `t` is the ticket PollUsed just returned; its report is still in memory and its block is its own. */
  ghost predicate PolledTicket(r: Ring, t: nat) {
    && Logs(r)
    && 0 < r.seen && t == r.answers[r.seen - 1] && r.used[r.seen - 1].head == r.avail[t]
    && r.reports[r.seen - 1] == Gather(r.mem, r.chains[t].bufs)
    && InBlock(r.mem, r.chains[t])
    && t !in Outstanding(r)
    && forall u | u in Outstanding(r) && u < |r.chains| && 0 < |r.chains[u].bufs| :: r.chains[u].bufs[0].page != r.chains[t].bufs[0].page
  }

  lemma PolledFacts(r: Ring)
    requires Logs(r) && Blocks(r) && r.seen < |r.used|
    ensures PolledTicket(PollUsed(r), r.answers[r.seen])
  {
    UnseenAfterPoll(r);
  }

  /** r' is r with one more chain over `bufs`, on slots that were free. */
  ghost predicate Published(r: Ring, r': Ring, bufs: seq<Buf>) {
    && |r'.chains| == |r.chains| + 1
    && var slots := r'.chains[|r.chains|].slots;
    && |slots| == |bufs| > 0 && InRange(slots, |r.desc|) && FreeSlots(r.desc, slots)
    && r' == Publish(r, slots, bufs)
  }

  lemma EmptyRingSound(n: nat)
    ensures Sound(EmptyRing(n)) && Outstanding(EmptyRing(n)) == {} && FreeCount(EmptyRing(n).desc) == n
  {
    assert InUse(EmptyRing(n).desc) == {};
  }

  lemma TakenCount(desc: seq<Desc>, slots: seq<nat>)
    requires FreeSlots(desc, slots)
    ensures |slots| <= FreeCount(desc)
  {
    DistinctCount(slots);
    var taken := Elems(slots);
    assert taken !! InUse(desc);
    CountBelow(taken + InUse(desc), |desc|);
    assert |taken + InUse(desc)| == |taken| + |InUse(desc)|;
  }

  lemma NoneLeft(desc: seq<Desc>, slots: seq<nat>)
    requires FreeSlots(desc, slots)
    requires forall x | 0 <= x < |desc| && !desc[x].inUse :: x in slots
    ensures |slots| == FreeCount(desc)
  {
    TakenCount(desc, slots);
    DistinctCount(slots);
    var taken := Elems(slots);
    CountAtLeast(taken + InUse(desc), |desc|);
    assert |taken + InUse(desc)| <= |taken| + |InUse(desc)|;
  }

  /** Enough free slots can be found. */
  lemma {:induction false} TakeFree(desc: seq<Desc>, k: nat) returns (slots: seq<nat>)
    requires FreeCount(desc) >= k
    ensures |slots| == k && InRange(slots, |desc|) && FreeSlots(desc, slots)
  {
    slots := [];
    if k > 0 {
      var rest := TakeFree(desc, k - 1);
      if forall x | 0 <= x < |desc| && !desc[x].inUse :: x in rest {
        NoneLeft(desc, rest);
      } else {
        var x: nat :| x < |desc| && !desc[x].inUse && x !in rest;
        slots := rest + [x];
      }
    }
  }

  // ---------------------------------------------------------------------------
  // Whole runs
  // ---------------------------------------------------------------------------

  /** A queue together with the tickets whose slots the driver has not reclaimed. */
  datatype Owned = Owned(ring: Ring, out: set<nat>)

  /** One step of driver or device. */
  ghost predicate Step(a: Owned, b: Owned) {
    || (exists block: seq<byte> :: b == Owned(Allocate(a.ring, block), a.out))
    || (exists bufs :: PublishStep(a, b, bufs))
    || (exists t, len :: Completes(a.ring, t, len, b.ring) && b.out == a.out)
    || (a.ring.seen < |a.ring.used| && b == Owned(PollUsed(a.ring), a.out))
    || (exists t :: ReclaimStep(a, b, t))
  }

  ghost predicate PublishStep(a: Owned, b: Owned, bufs: seq<Buf>) {
    && 0 < |bufs| <= |a.ring.desc| && Published(a.ring, b.ring, bufs)
    && b.out == a.out + {|a.ring.avail|}
    && InBlock(a.ring.mem, b.ring.chains[|a.ring.chains|])
    && forall t | t in Outstanding(a.ring) && t < |a.ring.chains| && 0 < |a.ring.chains[t].bufs| :: a.ring.chains[t].bufs[0].page != bufs[0].page
  }

  ghost predicate ReclaimStep(a: Owned, b: Owned, t: nat) {
    && t in a.out && t < |a.ring.avail| && t !in Outstanding(a.ring)
    && b == Owned(ReclaimChain(a.ring, a.ring.avail[t]), a.out - {t})
  }

  lemma StepKeeps(a: Owned, b: Owned)
    requires Inv(a.ring, a.out) && Step(a, b)
    ensures Inv(b.ring, b.out)
  {
    var r := a.ring;
    if block: seq<byte> :| b == Owned(Allocate(r, block), a.out) {
      AllocateKeeps(r, a.out, block);
    } else if bufs :| PublishStep(a, b, bufs) {
      PublishKeeps(r, a.out, b.ring.chains[|r.chains|].slots, bufs);
    } else if t, len :| Completes(r, t, len, b.ring) && b.out == a.out {
      CompleteKeeps(r, a.out, t, len, b.ring);
    } else if r.seen < |r.used| && b == Owned(PollUsed(r), a.out) {
      PollKeeps(r, a.out);
    } else {
      var t :| ReclaimStep(a, b, t);
      ReclaimKeeps(r, a.out, t);
    }
  }

  /**
   In every run, whatever the device completes and in whatever order: the InUse slots are
   exactly those of the chains not yet reclaimed, distinct chains never share a slot, and
   among them the head names one ticket.
   */
  lemma {:induction false} RunKeepsOwnership(run: seq<Owned>, n: nat, t: nat, u: nat)
    requires n < |run| && Inv(run[0].ring, run[0].out)
    requires forall i | 0 < i < |run| :: Step(run[i - 1], run[i])
    ensures Inv(run[n].ring, run[n].out)
    ensures t in run[n].out && u in run[n].out ==> (run[n].ring.avail[t] == run[n].ring.avail[u] <==> t == u)
  {
    if n > 0 {
      RunKeepsOwnership(run, n - 1, t, u);
      StepKeeps(run[n - 1], run[n]);
    }
    if t in run[n].out && u in run[n].out {
      HeadIdentifiesTicket(run[n].ring, run[n].out, t, u);
    }
  }
}
