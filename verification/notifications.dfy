/**
 The eventq (fillEventRing of sound.go, parseEventqEntry and repostEventBuffer of async.go):
 a ring of one-page device-writable buffers that are recycled as events arrive.
 */
module Notifications {
  import opened Wrappers
  import opened Bytes
  import opened Types
  import opened Virtqueue

  const R_EVT_JACK_CONNECTED: u32 := 0x1000
  const R_EVT_JACK_DISCONNECTED: u32 := 0x1001
  const R_EVT_PCM_PERIOD_ELAPSED: u32 := 0x1100
  const R_EVT_PCM_XRUN: u32 := 0x1101
  const R_EVT_CTL_NOTIFY: u32 := 0x1200

  function EventBuf(page: nat): (b: Buf)
    ensures b.page == page && b.off == 0 && b.len == 4096 && b.writable
  {
    Buf(page, 0, PAGE_SIZE, true)
  }

  /** Every chain in `out` is one slot over one whole page. */
  ghost predicate OnePages(r: Ring, out: set<nat>) {
    forall t | t in out :: t < |r.chains| && |r.chains[t].bufs| == 1 && r.chains[t].bufs[0] == EventBuf(r.chains[t].bufs[0].page)
  }

  function PageOf(r: Ring, t: nat): nat {
    if t < |r.chains| && 0 < |r.chains[t].bufs| then r.chains[t].bufs[0].page else 0
  }

  /** The page of the first event drained is in no chain of `out`: it has left the ring for good. */
  ghost predicate Retired(r: Ring, out: set<nat>) {
    0 < r.seen && 0 < |r.answers| ==>
      && r.answers[0] < |r.chains| && 0 < |r.chains[r.answers[0]].bufs|
      && forall t | t in out :: PageOf(r, t) != PageOf(r, r.answers[0])
  }

  /** The pages of the chains in `out`. */
  function PagesOf(r: Ring, out: set<nat>): set<nat> {
    set t | t in out :: PageOf(r, t)
  }

  /** Every page ever offered to the device. */
  function EveryPage(r: Ring): set<nat> {
    set t | 0 <= t < |r.chains| :: PageOf(r, t)
  }

  /** The page of the first event drained, once there is one. */
  function FirstPage(r: Ring): set<nat> {
    if 0 < r.seen && 0 < |r.answers| then {PageOf(r, r.answers[0])} else {}
  }

  /** Every page ever offered, but for the first event's, is offered by a chain of `out`. */
  ghost predicate Circulates(r: Ring, out: set<nat>) {
    EveryPage(r) == PagesOf(r, out) + FirstPage(r)
  }

  /**
   The stock between drain iterations: every posted buffer is a page of its own, and exactly
   one slot is free once any event has been drained, none before.  The first event's page is
   never offered again; every other page is with the device.
   */
  ghost predicate Stock(r: Ring) {
    && Sound(r) && OnePages(r, Outstanding(r))
    && FreeCount(r.desc) == (if r.seen == 0 then 0 else 1)
    && Retired(r, Outstanding(r)) && Circulates(r, Outstanding(r))
  }

  /** The pages with the device are all those ever offered, but for the first event's. */
  lemma StockPages(r: Ring)
    requires Stock(r)
    ensures PagesOf(r, Outstanding(r)) == EveryPage(r) - FirstPage(r)
  {
  }

  /** Once an event has been drained, the first one's page is offered no more. */
  lemma FirstPageRetired(r: Ring)
    requires Stock(r) && r.seen > 0
    ensures |r.answers| > 0 && r.answers[0] < |r.chains| && 0 < |r.chains[r.answers[0]].bufs|
    ensures forall t | t in Outstanding(r) :: PageOf(r, t) != r.chains[r.answers[0]].bufs[0].page
  {
    assert r.answers[0] < |r.avail|;
  }

  /** So the device always has all, or all but one, of the ring's entries to write events to. */
  lemma StockPosted(r: Ring)
    requires Stock(r)
    ensures |Outstanding(r)| == |r.desc| - (if r.seen == 0 then 0 else 1)
    ensures forall t, u | t in Outstanding(r) && u in Outstanding(r) && t != u :: r.chains[t].bufs[0].page != r.chains[u].bufs[0].page
  {
    CountOnePages(r, Outstanding(r));
  }

  lemma CountOnePages(r: Ring, out: set<nat>)
    requires Inv(r, out) && OnePages(r, out)
    ensures |InUse(r.desc)| == |out|
  {
    forall t | t in out
      ensures 1 <= |r.chains[t].slots| <= 1
    {
      assert Linked(r.desc, r.chains[t]);
    }
    OwnedCount(r.desc, r.chains, out, 1, 1);
  }

  /** What an event buffer holding `bytes`, of which the device reported `len`, says. */
  function Decode(bytes: seq<byte>, len: nat): (ev: Option<Event>) {
    if len < 8 || |bytes| < 8 then None
    else
      var code, data := U32At(bytes, 0), U32At(bytes, 4);
      if code == R_EVT_PCM_PERIOD_ELAPSED then Some(Event(PeriodElapsed, data, 0, 0, 0, 0))
      else if code == R_EVT_PCM_XRUN then Some(Event(Xrun, data, 0, 0, 0, 0))
      else if code == R_EVT_JACK_CONNECTED then Some(Event(JackConnected, data, 0, 0, 0, 0))
      else if code == R_EVT_JACK_DISCONNECTED then Some(Event(JackDisconnected, data, 0, 0, 0, 0))
      else if code == R_EVT_CTL_NOTIFY then Some(Event(ControlChanged, 0, 0, 0, 0, data))
      else None
  }

  function CodeOf(kind: EventKind): u32 {
    match kind
    case PeriodElapsed => R_EVT_PCM_PERIOD_ELAPSED
    case Xrun => R_EVT_PCM_XRUN
    case JackConnected => R_EVT_JACK_CONNECTED
    case JackDisconnected => R_EVT_JACK_DISCONNECTED
    case ControlChanged => R_EVT_CTL_NOTIFY
    case WriteComplete => 0
  }

  /**
   A device event, written as struct virtio_snd_event at the start of a buffer, decodes to
   itself, its data being the control's id for a control change and the stream's id otherwise;
   any other code, and any completion shorter than an event, decodes to nothing.
   */
  lemma DecodeIff(code: u32, data: u32, rest: seq<byte>, len: nat)
    ensures var ev := Decode(Le32(code) + Le32(data) + rest, len);
            && (ev.None? <==> len < 8 || forall kind: EventKind | kind != WriteComplete :: CodeOf(kind) != code)
            && (ev.Some? ==>
                  var e := ev.value;
                  && e.kind != WriteComplete && CodeOf(e.kind) == code
                  && e == if e.kind == ControlChanged then Event(e.kind, 0, 0, 0, 0, data) else Event(e.kind, data, 0, 0, 0, 0))
  {
    hide Le32, U32At;
    Le32RoundTrip(code);
    Append32(Le32(code), data);
    AppendKeeps(Le32(code) + Le32(data), rest);
    assert CodeOf(PeriodElapsed) == R_EVT_PCM_PERIOD_ELAPSED && CodeOf(Xrun) == R_EVT_PCM_XRUN && CodeOf(JackConnected) == R_EVT_JACK_CONNECTED;
    assert CodeOf(JackDisconnected) == R_EVT_JACK_DISCONNECTED && CodeOf(ControlChanged) == R_EVT_CTL_NOTIFY;
  }

  /** What is owed for the completions since..upto, each read as the device reported it. */
  function NotificationEvents(used: seq<Used>, reports: seq<seq<byte>>, since: nat, upto: nat): (evs: seq<Event>)
    decreases upto
  {
    if since >= upto || upto > |used| || upto > |reports| then []
    else
      var ev := Decode(reports[upto - 1], used[upto - 1].len);
      NotificationEvents(used, reports, since, upto - 1) + if ev.Some? then [ev.value] else []
  }

  /**
   The events are those decoded from the completions since, in used-ring order, and every
   completion that decodes to an event is among them: event i is what completion `ks[i]` says.
   */
  ghost predicate Noted(r: Ring, since: nat, out: seq<Event>, ks: seq<nat>) {
    && |ks| == |out|
    && (forall i | 0 <= i < |ks| :: since <= ks[i] < r.seen && ks[i] < |r.used| && ks[i] < |r.reports|)
    && (forall i, j | 0 <= i < j < |ks| :: ks[i] < ks[j])
    && (forall k | since <= k < r.seen && k < |r.used| && k < |r.reports| && Decode(r.reports[k], r.used[k].len).Some? :: k in ks)
    && (forall i | 0 <= i < |ks| :: Decode(r.reports[ks[i]], r.used[ks[i]].len) == Some(out[i]))
  }

  lemma {:induction false} NotesInOrder(r: Ring, since: nat, upto: nat) returns (ks: seq<nat>)
    requires upto <= |r.used| == |r.reports|
    ensures Noted(r.(seen := upto), since, NotificationEvents(r.used, r.reports, since, upto), ks)
    decreases upto
  {
    hide Decode, Noted;
    if since >= upto {
      ks := [];
      NoNotes(r, since, upto);
    } else {
      var before := NotesInOrder(r, since, upto - 1);
      var evs, ev := NotificationEvents(r.used, r.reports, since, upto - 1), Decode(r.reports[upto - 1], r.used[upto - 1].len);
      if ev.Some? {
        ks := before + [upto - 1];
        OneMoreNote(r, since, upto, before, evs, ev.value);
      } else {
        ks := before;
        NoMoreNote(r, since, upto, before, evs);
        assert evs + [] == evs;
      }
    }
  }

  lemma NoNotes(r: Ring, since: nat, upto: nat)
    requires upto <= since
    ensures Noted(r.(seen := upto), since, [], [])
  {
  }

  lemma NoMoreNote(r: Ring, since: nat, upto: nat, ks: seq<nat>, evs: seq<Event>)
    requires since < upto <= |r.used| == |r.reports| && Noted(r.(seen := upto - 1), since, evs, ks)
    requires Decode(r.reports[upto - 1], r.used[upto - 1].len).None?
    ensures Noted(r.(seen := upto), since, evs, ks)
  {
    hide Decode;
    assert r.(seen := upto).reports == r.(seen := upto - 1).reports && r.(seen := upto).used == r.(seen := upto - 1).used;
  }

  lemma OneMoreNote(r: Ring, since: nat, upto: nat, before: seq<nat>, evs: seq<Event>, ev: Event)
    requires since < upto <= |r.used| == |r.reports| && Noted(r.(seen := upto - 1), since, evs, before)
    requires Decode(r.reports[upto - 1], r.used[upto - 1].len) == Some(ev)
    ensures Noted(r.(seen := upto), since, evs + [ev], before + [upto - 1])
  {
    hide Decode;
    var ks := before + [upto - 1];
    forall k | since <= k < upto && Decode(r.reports[k], r.used[k].len).Some?
      ensures k in ks
    {
      if k == upto - 1 {
        assert ks[|before|] == k;
      }
    }
  }

  lemma {:induction false} NotificationEventsStable(used: seq<Used>, reports: seq<seq<byte>>,
      used': seq<Used>, reports': seq<seq<byte>>, since: nat, upto: nat)
    requires upto <= |used| == |reports| && used <= used' && reports <= reports'
    ensures NotificationEvents(used, reports, since, upto) == NotificationEvents(used', reports', since, upto)
    decreases upto
  {
    if since < upto {
      NotificationEventsStable(used, reports, used', reports', since, upto - 1);
    }
  }

  /** Ticket `t` has been polled and its page not yet offered again. */
  ghost predicate Drawn(r: Ring, t: nat) {
    && Inv(r, Outstanding(r) + {t}) && PolledTicket(r, t)
    && OnePages(r, Outstanding(r) + {t})
    && FreeCount(r.desc) == (if r.seen == 1 then 0 else 1)
    && |r.answers| > 0 && (r.seen == 1 ==> t == r.answers[0])
    && Retired(r, if r.seen == 1 then Outstanding(r) else Outstanding(r) + {t})
    && Circulates(r, if r.seen == 1 then Outstanding(r) else Outstanding(r) + {t})
  }

  lemma PagesMore(r: Ring, out: set<nat>, t: nat)
    ensures PagesOf(r, out + {t}) == PagesOf(r, out) + {PageOf(r, t)}
  {
  }

  /** Pages are a matter of the chains published; nothing else moves them. */
  lemma SamePages(r: Ring, r': Ring, out: set<nat>)
    requires r'.chains == r.chains
    ensures PagesOf(r', out) == PagesOf(r, out) && EveryPage(r') == EveryPage(r)
    ensures r.answers <= r'.answers && r'.seen == r.seen && (0 < r.seen ==> 0 < |r.answers|) && Circulates(r, out) ==> Circulates(r', out)
  {
    assert forall t :: PageOf(r', t) == PageOf(r, t);
  }

  /** A poll draws one page: the first goes for good, a later one is to be offered again. */
  lemma PollCirculates(r: Ring, r': Ring, out: set<nat>, t: nat)
    requires Circulates(r, out + {t}) && r'.chains == r.chains && r'.seen == r.seen + 1 <= |r'.answers| && r.answers <= r'.answers
    requires r.seen == 0 ==> r'.answers[0] == t
    requires r.seen > 0 ==> 0 < |r.answers|
    ensures Circulates(r', if r'.seen == 1 then out else out + {t})
  {
    SamePages(r, r', out);
    SamePages(r, r', out + {t});
    PagesMore(r, out, t);
    assert forall u :: PageOf(r', u) == PageOf(r, u);
  }

  /** Offering the drawn page under a new ticket puts it back. */
  lemma RepostCirculates(r: Ring, r': Ring, out: set<nat>, t: nat)
    requires Circulates(r, out + {t}) && t < |r.chains| && forall u | u in out :: u < |r.chains|
    requires |r'.chains| == |r.chains| + 1 && r.chains <= r'.chains && r'.seen == r.seen && r'.answers == r.answers
    requires forall k | 0 <= k < |r.answers| :: r.answers[k] < |r.chains|
    requires PageOf(r', |r.chains|) == PageOf(r, t)
    ensures EveryPage(r') == EveryPage(r) && Circulates(r', out + {|r.chains|})
  {
    assert forall u | 0 <= u < |r.chains| :: PageOf(r', u) == PageOf(r, u);
    assert PageOf(r, t) in EveryPage(r);
    assert PagesOf(r', out) == PagesOf(r, out);
    PagesMore(r, out, t);
    PagesMore(r', out, |r.chains|);
  }

  lemma PollDraws(r: Ring, r': Ring, t: nat)
    requires Stock(r) && PolledSince(r, r', t)
    ensures Drawn(r', t)
  {
    hide Circulates;
    assert Outstanding(r') + {t} == Outstanding(r);
    assert r'.desc == r.desc && r'.chains == r.chains;
    PollCirculates(r, r', Outstanding(r'), t);
  }

  /** The polled slot still describes the page, and the page holds what the device reported. */
  lemma DrawnPage(r: Ring, t: nat)
    requires Drawn(r, t)
    ensures Recycling(r, t, FreeCount(r.desc)) && 0 < r.seen <= |r.reports|
    ensures var h, page := r.avail[t], r.chains[t].bufs[0].page;
            && h < |r.desc| && r.desc[h].buf == EventBuf(page)
            && page < |r.mem| && PAGE_SIZE <= |r.mem[page]|
            && r.mem[page][..PAGE_SIZE] == r.reports[r.seen - 1]
  {
    var c := r.chains[t];
    assert t in Outstanding(r) + {t};
    assert Linked(r.desc, c);
    assert r.desc[c.slots[0]] == LinkedDesc(c.slots, c.bufs, 0);
    assert c.bufs[1..] == [];
    assert Gather(r.mem, c.bufs) == Slice(r.mem, c.bufs[0]) + Gather(r.mem, []);
  }

  /** `t`'s slot is still held back; `free` other slots are free. */
  ghost predicate Recycling(r: Ring, t: nat, free: nat) {
    && Inv(r, Outstanding(r) + {t}) && t !in Outstanding(r)
    && OnePages(r, Outstanding(r) + {t})
    && FreeCount(r.desc) == free
    && Retired(r, Outstanding(r))
    && (free == 0 ==> Circulates(r, Outstanding(r)))
  }

  /** Reposting the page: a free slot, if there is one, takes it. */
  lemma RepostKeeps(r: Ring, t: nat, r': Ring)
    requires Drawn(r, t) && FreeCount(r.desc) == 1
    requires Published(r, r', [EventBuf(r.chains[t].bufs[0].page)])
    ensures Recycling(r', t, 0) && Extends(r, r')
    ensures Reposted(r, r', t) && r'.seen == r.seen && r'.used == r.used
  {
    hide Circulates;
    var page := r.chains[t].bufs[0].page;
    DrawnPage(r, t);
    DrawnApart(r, t);
    assert InBlock(r.mem, r'.chains[|r.chains|]);
    OnePagesMore(r, r', Outstanding(r) + {t}, page);
    hide Owns, Blocks, OnePages, PolledTicket;
    PublishedKeeps(r, Outstanding(r) + {t}, r', [EventBuf(page)]);
    assert Outstanding(r) + {t} + {|r.avail|} == Outstanding(r') + {t};
    RepostCirculates(r, r', Outstanding(r), t);
  }

  /** The drawn page is offered under the next ticket, and no other page. */
  ghost predicate Reposted(r: Ring, r': Ring, t: nat) {
    && |r'.chains| == |r.chains| + 1 == |r.avail| + 1
    && |r.avail| in Outstanding(r') && PageOf(r', |r.avail|) == PageOf(r, t)
    && EveryPage(r') == EveryPage(r)
  }

  /** The device at work on the reposted buffer leaves all that as it is. */
  lemma RepostServed(r: Ring, r1: Ring, t: nat, r': Ring)
    requires Recycling(r1, t, 0) && Extends(r, r1) && Reposted(r, r1, t) && r1.seen == r.seen && 0 < r.seen
    requires Serves(r1, r') && Inv(r', Outstanding(r1) + {t}) && Outstanding(r') == Outstanding(r1)
    ensures Recycling(r', t, 0) && Extends(r, r') && Reposted(r, r', t) && r'.seen == r.seen
  {
    hide Circulates, Owns, Blocks;
    SamePages(r1, r', Outstanding(r1));
  }

  lemma DrawnApart(r: Ring, t: nat)
    requires Drawn(r, t)
    ensures t < |r.avail| && t !in Outstanding(r)
    ensures forall u | u in Outstanding(r) :: r.chains[u].bufs[0].page != r.chains[t].bufs[0].page
  {
  }

  lemma OnePagesMore(r: Ring, r': Ring, out: set<nat>, page: nat)
    requires OnePages(r, out) && Published(r, r', [EventBuf(page)]) && |r.avail| == |r.chains|
    ensures OnePages(r', out + {|r.avail|})
  {
    forall u | u in out
      ensures u < |r.chains| && r'.chains[u] == r.chains[u]
    {
    }
  }

  lemma DrawnFree(r: Ring, t: nat)
    requires Drawn(r, t)
    ensures 0 <= FreeCount(r.desc) <= 1 && 0 < r.seen && Extends(r, r)
  {
  }

  lemma RecyclingInv(r: Ring, t: nat)
    requires Recycling(r, t, 0)
    ensures Inv(r, Outstanding(r) + {t})
  {
  }

  lemma PolledPages(r: Ring, r': Ring, t: nat)
    requires PolledSince(r, r', t)
    ensures EveryPage(r') == EveryPage(r)
  {
    SamePages(r, r', {});
  }

  lemma RecycledPages(r: Ring, r': Ring, t: nat, h: nat)
    requires Reposted(r, r', t) || r' == r
    ensures EveryPage(ReclaimChain(r', h)) == EveryPage(r)
  {
    SamePages(r', ReclaimChain(r', h), {});
  }

  lemma PagesStay(r: Ring, r': Ring, out: seq<Event>)
    requires Stock(r) && Stock(r') && NotifiedUpTo(r, r', out) && EveryPage(r') == EveryPage(r)
    ensures r.seen > 0 ==> PagesOf(r', Outstanding(r')) == PagesOf(r, Outstanding(r))
  {
    StockPages(r);
    StockPages(r');
    if r.seen > 0 {
      FirstPageRetired(r);
      assert FirstPage(r') == FirstPage(r);
    }
  }

  /** Reclaiming the polled slot at last: one slot is free, whether or not the page was reposted. */
  lemma RecycleDone(r: Ring, t: nat)
    requires Recycling(r, t, 0) && r.seen > 0
    ensures Stock(ReclaimChain(r, r.avail[t]))
  {
    hide Circulates;
    assert t in Outstanding(r) + {t};
    ReclaimPolled(r, t);
    SamePages(r, ReclaimChain(r, r.avail[t]), Outstanding(r));
  }

  lemma StockIdle(r: Ring, r': Ring)
    requires Stock(r) && Advances(r, r') && r'.seen == r.seen && Sound(r') && Outstanding(r') == Outstanding(r)
    ensures Stock(r') && EveryPage(r') == EveryPage(r)
  {
    hide Circulates;
    SamePages(r, r', Outstanding(r));
  }

  /** One turn of the eventq loop: at most one completion, decoded as it was reported. */
  ghost predicate NotificationTurn(r: Ring, r': Ring, got: bool, ev: Option<Event>) {
    && Extends(r, r')
    && r'.seen == r.seen + (if got then 1 else 0) <= |r'.used| == |r'.reports|
    && ev == if got then Decode(r'.reports[r.seen], r'.used[r.seen].len) else None
  }

  lemma NoticeDone(r: Ring, polled: Ring, recycled: Ring, h: nat, ev: Option<Event>)
    requires Extends(r, polled) && Extends(polled, recycled)
    requires r.seen + 1 == polled.seen == recycled.seen <= |polled.used| == |polled.reports| && |recycled.used| == |recycled.reports|
    requires ev == Decode(polled.reports[r.seen], polled.used[r.seen].len)
    ensures NotificationTurn(r, ReclaimChain(recycled, h), true, ev)
  {
  }

  lemma NothingNoticed(r: Ring, r': Ring)
    requires Extends(r, r') && r'.seen == r.seen && Sound(r')
    ensures NotificationTurn(r, r', false, None)
  {
  }

  lemma RecyclingLogs(polled: Ring, r: Ring, t: nat, free: nat)
    requires Recycling(r, t, free) && Extends(polled, r) && t < |polled.avail|
    ensures |r.used| == |r.reports| && t < |r.avail| && r.avail[t] == polled.avail[t]
  {
  }

  /** Everything completed between r and r' has been decoded, in order. */
  ghost predicate NotifiedUpTo(r: Ring, r': Ring, out: seq<Event>) {
    && Extends(r, r') && r'.seen <= |r'.used| == |r'.reports|
    && out == NotificationEvents(r'.used, r'.reports, r.seen, r'.seen)
  }

  /** A device notification is never a completed transfer. */
  lemma {:induction false} NoticesComplete(used: seq<Used>, reports: seq<seq<byte>>, since: nat, upto: nat)
    ensures forall i | 0 <= i < |NotificationEvents(used, reports, since, upto)| ::
              NotificationEvents(used, reports, since, upto)[i].kind != WriteComplete
    decreases upto
  {
    if since < upto <= |used| && upto <= |reports| {
      NoticesComplete(used, reports, since, upto - 1);
    }
  }

  lemma NotifyMore(r: Ring, r1: Ring, out: seq<Event>, r2: Ring, got: bool, ev: Option<Event>)
    requires NotifiedUpTo(r, r1, out) && NotificationTurn(r1, r2, got, ev)
    ensures NotifiedUpTo(r, r2, out + if ev.Some? then [ev.value] else [])
  {
    NotificationEventsStable(r1.used, r1.reports, r2.used, r2.reports, r.seen, r1.seen);
  }

  lemma NotifyNone(r: Ring)
    requires Stock(r)
    ensures NotifiedUpTo(r, r, [])
  {
  }

  /** fillEventRing, part way: `posted` pages are with the device and as many slots fewer are free. */
  ghost predicate Filling(r: Ring, free: int) {
    Sound(r) && OnePages(r, Outstanding(r)) && r.seen == 0 && FreeCount(r.desc) == free
  }

  lemma FillMore(r: Ring, block: seq<byte>, r': Ring)
    requires Filling(r, FreeCount(r.desc)) && PAGE_SIZE <= |block|
    requires Published(Allocate(r, block), r', [EventBuf(|r.mem|)])
    ensures Filling(r', FreeCount(r.desc) - 1) && |r'.desc| == |r.desc|
  {
    hide Owns, Blocks;
    var r1 := Allocate(r, block);
    AllocateKeeps(r, Outstanding(r), block);
    assert InBlock(r1.mem, r'.chains[|r1.chains|]);
    PublishedKeeps(r1, Outstanding(r1), r', [EventBuf(|r.mem|)]);
  }

  /** With every slot posted and nothing drained, every page is with the device. */
  lemma FillDone(r: Ring)
    requires Filling(r, 0)
    ensures Stock(r) && PagesOf(r, Outstanding(r)) == EveryPage(r)
  {
    AllOutstanding(r);
    assert FirstPage(r) == {};
  }

  lemma AllOutstanding(r: Ring)
    requires Sound(r) && r.seen == 0
    ensures forall t :: t in Outstanding(r) <==> 0 <= t < |r.chains|
  {
    forall t | 0 <= t < |r.avail|
      ensures t in Outstanding(r)
    {
      if t !in r.held {
        var k :| 0 <= k < |r.answers| && r.answers[k] == t;
      }
    }
  }
}
