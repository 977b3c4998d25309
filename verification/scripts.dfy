/**
 The txq loops as functions of what the device does: a script lists, turn by turn, the
 completions the device makes before the driver polls.  Driver.VirtioSound's loops are proved
 to run one of these scripts; here is what the device can make of them.
 */
module Scripts {
  import opened Wrappers
  import opened Bytes
  import opened Types
  import opened Virtqueue
  import opened Transfers

  /** The device's part in a loop: for each turn, what it completes before the poll. */
  type Script = seq<seq<Completion>>

  /** The ring and the pending list, as Write's loops change them. */
  datatype Tx = Tx(ring: Ring, pending: seq<Parked>)

  /** One turn: the device completes `cs`; the driver polls, and reclaims the chain it is told of. */
  function Turn(r: Ring, cs: seq<Completion>): Ring {
    var s := Does(r, cs);
    if s.seen < |s.used| then ReclaimChain(PollUsed(s), s.used[s.seen].head) else s
  }

  function PolledHead(r: Ring, cs: seq<Completion>): nat {
    var s := Does(r, cs);
    if s.seen < |s.used| then s.used[s.seen].head else 0
  }

  function TicketPolled(r: Ring, cs: seq<Completion>): nat {
    var s := Does(r, cs);
    if s.seen < |s.answers| then s.answers[s.seen] else 0
  }

  function Turns(r: Ring, script: Script): Ring
    decreases |script|
  {
    if |script| == 0 then r else Turns(Turn(r, script[0]), script[1..])
  }

  /** A device may act as the script says. */
  ghost predicate AllMay(r: Ring, script: Script)
    decreases |script|
  {
    |script| > 0 ==> May(r, script[0]) && AllMay(Turn(r, script[0]), script[1..])
  }

  /** What a poll answered, and reclaiming the chain it answered, make up a turn. */
  lemma TurnOf(r: Ring, cs: seq<Completion>, got: Option<Used>, r': Ring)
    requires Turned(r, cs, got, r') && (got.Some? ==> r.seen < |r'.used| && got.value == r'.used[r.seen] && r'.seen == r.seen + 1)
    ensures got.None? ==> Turn(r, cs) == r'
    ensures got.Some? ==> Turn(r, cs) == ReclaimChain(r', got.value.head) && PolledHead(r, cs) == got.value.head
  {
  }

  // --- the device's plan ---

  function PlanAt(plan: Script, i: nat): seq<Completion> {
    if i < |plan| then plan[i] else []
  }

  /** What is left of the plan after n polls. */
  function PlanFrom(plan: Script, n: nat): Script {
    if n <= |plan| then plan[n..] else []
  }

  /** The script is what the device does of its plan, poll by poll. */
  ghost predicate Follows(r: Ring, script: Script, plan: Script)
    decreases |script|
  {
    |script| > 0 ==> script[0] == Acts(r, PlanAt(plan, 0)) && Follows(Turn(r, script[0]), script[1..], PlanFrom(plan, 1))
  }

  lemma FollowsNothing(r: Ring, plan: Script)
    ensures Follows(r, [], plan)
  {
  }

  lemma PlanShifts(plan: Script, n: nat)
    requires n > 0
    ensures PlanAt(PlanFrom(plan, 1), n - 1) == PlanAt(plan, n)
  {
  }

  lemma {:induction false} FollowsMore(r: Ring, script: Script, cs: seq<Completion>, plan: Script)
    requires Follows(r, script, plan) && cs == Acts(Turns(r, script), PlanAt(plan, |script|))
    ensures Follows(r, script + [cs], plan)
    decreases |script|
  {
    hide Turn, Acts, PlanAt, PlanFrom;
    if |script| > 0 {
      assert (script + [cs])[1..] == script[1..] + [cs] && (script + [cs])[0] == script[0];
      PlanShifts(plan, |script|);
      FollowsMore(Turn(r, script[0]), script[1..], cs, PlanFrom(plan, 1));
    } else {
      assert (script + [cs])[1..] == [];
    }
  }

  /** Nothing a device may do is left out: every script it may follow is what it does when that is its plan. */
  lemma {:induction false} AnyScriptFollows(r: Ring, script: Script)
    requires AllMay(r, script)
    ensures Follows(r, script, script)
    decreases |script|
  {
    hide Turn, Acts;
    if |script| > 0 {
      AnyScriptFollows(Turn(r, script[0]), script[1..]);
    }
  }

  // ---------------------------------------------------------------------------
  // What turns keep
  // ---------------------------------------------------------------------------

  /** What completions leave alone. */
  ghost predicate Untouched(r: Ring, s: Ring) {
    && Extends(r, s) && s.desc == r.desc && s.avail == r.avail && s.chains == r.chains && s.seen == r.seen && s.held <= r.held
  }

  lemma CompleteUntouched(r: Ring, p: Ring, t: nat, len: nat, s: Ring)
    requires Untouched(r, p) && Completes(p, t, len, s)
    ensures Untouched(r, s)
  {
  }

  lemma {:induction false} DoesKeeps(r: Ring, cs: seq<Completion>)
    requires Sound(r) && May(r, cs)
    ensures Inv(Does(r, cs), Outstanding(r)) && Outstanding(Does(r, cs)) == Outstanding(r)
    ensures Untouched(r, Does(r, cs))
    decreases |cs|
  {
    hide Inv, Untouched;
    if |cs| > 0 {
      var c, p := cs[|cs| - 1], Does(r, cs[..|cs| - 1]);
      DoesKeeps(r, cs[..|cs| - 1]);
      CompleteKeeps(p, Outstanding(r), c.ticket, c.len, Does(r, cs));
      CompleteUntouched(r, p, c.ticket, c.len, Does(r, cs));
    } else {
      SelfUntouched(r);
    }
  }

  lemma SelfUntouched(r: Ring)
    ensures Untouched(r, r)
  {
  }

  /** A turn keeps the ring sound, and takes away the ticket polled, if one was, and its slots. */
  lemma TurnKeeps(r: Ring, cs: seq<Completion>)
    requires Sound(r) && May(r, cs)
    ensures var r', t := Turn(r, cs), TicketPolled(r, cs);
            && Sound(r') && Kept(r, r')
            && (Polls(r, cs) ==>
                  && t in Outstanding(r) && t < |r.avail| == |r.chains| && Outstanding(r') == Outstanding(r) - {t} && PolledHead(r, cs) == r.avail[t]
                  && FreeCount(r'.desc) == FreeCount(r.desc) + |r.chains[t].bufs|)
            && (!Polls(r, cs) ==> Outstanding(r') == Outstanding(r) && FreeCount(r'.desc) == FreeCount(r.desc) && Unseen(r') == {})
  {
    DoesKeeps(r, cs);
    var s, t := Does(r, cs), TicketPolled(r, cs);
    if Polls(r, cs) {
      SeenTicket(s, Outstanding(r));
      PollKeeps(s, Outstanding(r));
      hide Inv, Does;
      var p := PollUsed(s);
      assert Outstanding(p) + {t} == Outstanding(r);
      ReclaimPolled(p, t);
    }
  }

  lemma SeenTicket(s: Ring, out: set<nat>)
    requires Inv(s, out) && s.seen < |s.used|
    ensures |s.answers| == |s.used| && s.answers[s.seen] < |s.avail| == |s.chains|
    ensures s.used[s.seen].head == s.avail[s.answers[s.seen]]
  {
  }

  /** Nothing is published, and nothing comes back to the device. */
  ghost predicate Kept(r: Ring, r': Ring) {
    Extends(r, r') && r'.avail == r.avail && r'.chains == r.chains && r'.held <= r.held
  }

  lemma {:induction false} TurnsKeep(r: Ring, script: Script)
    requires Sound(r) && AllMay(r, script)
    ensures var r' := Turns(r, script);
            && Sound(r') && Kept(r, r')
            && Outstanding(r') <= Outstanding(r) && FreeCount(r'.desc) >= FreeCount(r.desc)
    decreases |script|
  {
    hide Inv, Turn, Kept, Outstanding, FreeCount, May, TicketPolled, PolledHead;
    KeptSelf(r);
    if |script| > 0 {
      var next := Turn(r, script[0]);
      TurnKeeps(r, script[0]);
      TurnsKeep(next, script[1..]);
      KeptTransitive(r, next, Turns(next, script[1..]));
    }
  }

  lemma KeptSelf(r: Ring)
    ensures Kept(r, r)
  {
  }

  lemma KeptTransitive(a: Ring, b: Ring, c: Ring)
    requires Kept(a, b) && Kept(b, c)
    ensures Kept(a, c)
  {
    ExtendsTransitive(a, b, c);
  }

  lemma {:induction false} TurnsMore(r: Ring, script: Script, cs: seq<Completion>)
    ensures Turns(r, script + [cs]) == Turn(Turns(r, script), cs)
    ensures AllMay(r, script) && May(Turns(r, script), cs) ==> AllMay(r, script + [cs])
    decreases |script|
  {
    hide Turn;
    if |script| > 0 {
      assert (script + [cs])[1..] == script[1..] + [cs];
      TurnsMore(Turn(r, script[0]), script[1..], cs);
    } else {
      assert (script + [cs])[1..] == [];
    }
  }

  // ---------------------------------------------------------------------------
  // The txq loop of ReadEvents
  // ---------------------------------------------------------------------------

  /** Every turn of the script finds a completion to poll. */
  ghost predicate EachPolls(r: Ring, script: Script)
    decreases |script|
  {
    |script| > 0 ==> May(r, script[0]) && Polls(r, script[0]) && EachPolls(Turn(r, script[0]), script[1..])
  }

  function Init(script: Script): Script {
    if |script| == 0 then [] else script[..|script| - 1]
  }

  function Last(script: Script): seq<Completion> {
    if |script| == 0 then [] else script[|script| - 1]
  }

  /** No turn of the script finds a completion to poll. */
  ghost predicate NonePolls(r: Ring, script: Script)
    decreases |script|
  {
    |script| > 0 ==> May(r, script[0]) && !Polls(r, script[0]) && NonePolls(Turn(r, script[0]), script[1..])
  }

  /** A script of a loop that polls until a completion shows up or the budget is spent; `got` says which. */
  ghost predicate FirstRun(r: Ring, budget: nat, script: Script, got: bool) {
    if got then
      && 0 < |script| <= budget && NonePolls(r, Init(script))
      && May(Turns(r, Init(script)), Last(script)) && Polls(Turns(r, Init(script)), Last(script))
    else |script| == budget && NonePolls(r, script)
  }

  lemma {:induction false} NonePollsMore(r: Ring, script: Script, cs: seq<Completion>)
    requires NonePolls(r, script) && May(Turns(r, script), cs) && !Polls(Turns(r, script), cs)
    ensures NonePolls(r, script + [cs])
    decreases |script|
  {
    hide Turn, May, Polls;
    if |script| > 0 {
      assert (script + [cs])[1..] == script[1..] + [cs];
      NonePollsMore(Turn(r, script[0]), script[1..], cs);
    } else {
      assert (script + [cs])[1..] == [];
    }
  }

  /** One more turn of such a loop. */
  lemma FirstTurn(r: Ring, budget: nat, script: Script, before: Ring, cs: seq<Completion>, got: Option<Used>, r': Ring)
    requires NonePolls(r, script) && |script| < budget && before == Turns(r, script)
    requires Turned(before, cs, got, r')
    requires got.Some? ==> r'.seen == before.seen + 1 <= |r'.used| && got.value == r'.used[before.seen]
    ensures got.Some? ==> FirstRun(r, budget, script + [cs], true)
    ensures got.None? ==> NonePolls(r, script + [cs])
    ensures Turns(r, script + [cs]) == if got.Some? then ReclaimChain(r', got.value.head) else r'
  {
    hide May, Polls, NonePolls, Does;
    TurnsMore(r, script, cs);
    FirstTurnIs(before, cs, got, r');
    if got.Some? {
      assert Init(script + [cs]) == script && Last(script + [cs]) == cs;
    } else {
      NonePollsMore(r, script, cs);
    }
  }

  lemma FirstTurnIs(before: Ring, cs: seq<Completion>, got: Option<Used>, r': Ring)
    requires Turned(before, cs, got, r')
    requires got.Some? ==> r'.seen == before.seen + 1 <= |r'.used| && got.value == r'.used[before.seen]
    ensures May(before, cs) && (got.Some? <==> Polls(before, cs))
    ensures Turn(before, cs) == if got.Some? then ReclaimChain(r', got.value.head) else r'
  {
    TurnOf(before, cs, got, r');
  }

  lemma FirstStarts(r: Ring)
    ensures NonePolls(r, []) && Turns(r, []) == r
  {
  }

  /** With a completion already in the used ring, the first turn finds one. */
  lemma SomePolls(r: Ring, script: Script)
    requires NonePolls(r, script) && |script| > 0
    ensures r.seen >= |r.used|
  {
    DoesGrows(r, script[0]);
  }

  lemma {:induction false} DoesGrows(r: Ring, cs: seq<Completion>)
    ensures |Does(r, cs).used| >= |r.used| && Does(r, cs).seen == r.seen
    decreases |cs|
  {
    if |cs| > 0 {
      DoesGrows(r, cs[..|cs| - 1]);
    }
  }

  /** A script of the whole loop: it ends with the first turn that finds nothing. */
  ghost predicate Drains(r: Ring, script: Script) {
    && |script| > 0 && EachPolls(r, Init(script))
    && May(Turns(r, Init(script)), Last(script)) && !Polls(Turns(r, Init(script)), Last(script))
  }

  lemma {:induction false} EachPollsMore(r: Ring, script: Script, cs: seq<Completion>)
    requires EachPolls(r, script) && May(Turns(r, script), cs) && Polls(Turns(r, script), cs)
    ensures EachPolls(r, script + [cs])
    decreases |script|
  {
    hide Turn, May, Polls;
    if |script| > 0 {
      assert (script + [cs])[1..] == script[1..] + [cs];
      EachPollsMore(Turn(r, script[0]), script[1..], cs);
    } else {
      assert (script + [cs])[1..] == [];
    }
  }

  lemma DrainBegins(r: Ring)
    ensures EachPolls(r, []) && Turns(r, []) == r
  {
  }

  /** One more turn of the txq loop of ReadEvents. */
  lemma DrainStep(r: Ring, script: Script, cs: seq<Completion>, e: Ring)
    requires EachPolls(r, script) && e == Turns(r, script) && May(e, cs)
    ensures Turns(r, script + [cs]) == Turn(e, cs)
    ensures Polls(e, cs) ==> EachPolls(r, script + [cs])
    ensures !Polls(e, cs) ==> Drains(r, script + [cs])
  {
    hide Turn, May, Polls, EachPolls;
    TurnsMore(r, script, cs);
    if Polls(e, cs) {
      EachPollsMore(r, script, cs);
    } else {
      assert Init(script + [cs]) == script && Last(script + [cs]) == cs;
    }
  }

  lemma {:induction false} EachPollsMay(r: Ring, script: Script)
    requires EachPolls(r, script)
    ensures AllMay(r, script)
    decreases |script|
  {
    hide Turn;
    if |script| > 0 {
      EachPollsMay(Turn(r, script[0]), script[1..]);
    }
  }

  /** A drain is legal and leaves the used ring empty. */
  lemma DrainsMay(r: Ring, script: Script)
    requires Drains(r, script)
    ensures AllMay(r, script)
    ensures Sound(r) ==> Unseen(Turns(r, script)) == {}
  {
    hide Turn, May, Polls;
    var init, last := Init(script), Last(script);
    assert script == init + [last];
    EachPollsMay(r, init);
    TurnsMore(r, init, last);
    if Sound(r) {
      TurnsKeep(r, init);
      TurnKeeps(Turns(r, init), last);
    }
  }

  lemma DrainsFirst(r: Ring, cs: seq<Completion>, rest: Script)
    requires May(r, cs) && Polls(r, cs) && Drains(Turn(r, cs), rest)
    ensures Drains(r, [cs] + rest)
  {
    hide Turn, May, Polls;
    var script := [cs] + rest;
    assert Init(script)[0] == cs && Init(script)[1..] == Init(rest);
    assert Last(script) == Last(rest);
  }

  /** A device that does nothing lets the driver drain what is already there. */
  lemma {:induction false} CanDrain(r: Ring) returns (script: Script)
    requires Sound(r)
    ensures Drains(r, script)
    decreases |r.used| - r.seen
  {
    DoesNothing(r);
    if Polls(r, []) {
      TurnKeeps(r, []);
      var rest := CanDrain(Turn(r, []));
      DrainsFirst(r, [], rest);
      script := [[]] + rest;
    } else {
      script := [[]];
      assert Init(script) == [] && Last(script) == [];
    }
  }

  /** The device can complete a held ticket as it is. */
  lemma CanComplete(r: Ring, t: nat) returns (cs: seq<Completion>)
    requires Logs(r) && t in r.held
    ensures May(r, cs) && Polls(r, cs) && t !in Does(r, cs).held
    ensures r.seen == |r.used| ==> TicketPolled(r, cs) == t
  {
    hide May, Does, Logs, Completes;
    var c := Completion(t, 0, r.mem);
    CompleteAsIs(r, t);
    DoesNothing(r);
    DoesMore(r, [], c);
    cs := [c];
    assert [] + [c] == cs;
  }

  lemma CompleteAsIs(r: Ring, t: nat)
    requires Logs(r) && t in r.held
    ensures t < |r.avail| && Completes(r, t, 0, Complete(r, t, 0, r.mem))
    ensures r.seen <= |r.used| == |r.answers|
  {
  }

  /** For every outstanding ticket there is a device that has it polled in this drain. */
  lemma CanTake(r: Ring, t: nat) returns (script: Script)
    requires Sound(r) && t in Outstanding(r)
    ensures Drains(r, script) && t !in Outstanding(Turns(r, script))
  {
    if t in r.held {
      var cs := CanComplete(r, t);
      TurnKeeps(r, cs);
      var r1 := Turn(r, cs);
      assert t !in r1.held;
      var rest := CanDrain(r1);
      DrainsFirst(r, cs, rest);
      DrainsMay(r1, rest);
      TurnsKeep(r1, rest);
      script := [cs] + rest;
      assert script[1..] == rest;
    } else {
      script := CanDrain(r);
      DrainsMay(r, script);
      TurnsKeep(r, script);
    }
  }

  // ---------------------------------------------------------------------------
  // Cookies under polling by head alone
  // ---------------------------------------------------------------------------

  /**
   Polling and reclaiming without consulting the registry keeps it truthful, whatever the
   device does and however long it goes on, exactly when no cookie is in flight.
   */
  lemma RegistryKeptIff(r: Ring, g: Registry)
    requires Sound(r) && Tracks(r, g)
    ensures (forall script | AllMay(r, script) :: Tracks(Turns(r, script), g)) <==> g.cookies == map[]
  {
    if g.cookies == map[] {
      forall script | AllMay(r, script)
        ensures Tracks(Turns(r, script), g)
      {
        TurnsKeep(r, script);
        NoCookies(r, Turns(r, script), g);
      }
    } else {
      var c :| c in g.cookies;
      assert HasTicket(g.owner, c);
      var t :| t in g.owner && g.owner[t] == c;
      var script := CanTake(r, t);
      DrainsMay(r, script);
      assert t in g.owner && t !in Outstanding(Turns(r, script));
    }
  }

  lemma NoCookies(r: Ring, r': Ring, g: Registry)
    requires Tracks(r, g) && g.cookies == map[] && Extends(r, r') && |r'.avail| == |r'.chains|
    ensures g.owner.Keys == {} && Tracks(r', g)
  {
    forall t
      ensures t !in g.owner
    {
    }
    UntouchedRegistryIff(r, r', g);
  }

  // ---------------------------------------------------------------------------
  // The pending list under ReadEvents
  // ---------------------------------------------------------------------------

  /** The list has exactly one entry for each outstanding chain, describing it. */
  ghost predicate ListsExactly(r: Ring, pending: seq<Parked>) {
    exists parked :: ParkedExactly(r, pending, parked, Outstanding(r))
  }

  lemma ListCounts(r: Ring, pending: seq<Parked>)
    requires ListsExactly(r, pending)
    ensures |Outstanding(r)| == |pending|
  {
    var parked :| ParkedExactly(r, pending, parked, Outstanding(r));
    DistinctCount(parked);
  }

  /**
   ReadEvents reclaims by head and leaves the list alone: from an exact list, it stays exact
   whatever the device does if and only if nothing is parked.
   */
  lemma ListKeptIff(r: Ring, pending: seq<Parked>)
    requires Sound(r) && ListsExactly(r, pending)
    ensures (forall script | Drains(r, script) :: ListsExactly(Turns(r, script), pending)) <==> pending == []
  {
    ListCounts(r, pending);
    if pending == [] {
      forall script | Drains(r, script)
        ensures ListsExactly(Turns(r, script), pending)
      {
        DrainsMay(r, script);
        TurnsKeep(r, script);
        assert ParkedExactly(Turns(r, script), [], [], {});
      }
    } else {
      assert Outstanding(r) != {};
      var t :| t in Outstanding(r);
      var script := CanTake(r, t);
      DrainsMay(r, script);
      TurnsKeep(r, script);
      FewerLeft(Outstanding(Turns(r, script)), Outstanding(r), t);
      if ListsExactly(Turns(r, script), pending) {
        ListCounts(Turns(r, script), pending);
      }
    }
  }

  lemma FewerLeft(a: set<nat>, b: set<nat>, t: nat)
    requires a <= b && t in b && t !in a
    ensures |a| < |b|
  {
    assert a <= b - {t};
    SubsetCount(a, b - {t});
  }

  lemma {:induction false} SubsetCount(a: set<nat>, b: set<nat>)
    requires a <= b
    ensures |a| <= |b|
    decreases |a|
  {
    if a != {} {
      var x :| x in a;
      SubsetCount(a - {x}, b - {x});
    }
  }

  // ---------------------------------------------------------------------------
  // reclaimPending called again
  // ---------------------------------------------------------------------------

  /** What one call of reclaimPending does. */
  function ReclaimParked(s: Tx, h: nat): Tx {
    Tx(ReclaimChain(s.ring, h), DropHead(s.pending, h))
  }

  /** A call is a no-op exactly when the head is not listed and its slot holds nothing. */
  lemma ReclaimAgainIff(s: Tx, h: nat)
    ensures ReclaimParked(s, h) == s <==> !HeadListed(s.pending, h) && (h < |s.ring.desc| ==> s.ring.desc[h] == FREE_DESC)
  {
    var r, i := s.ring, FindHead(s.pending, h);
    if i < |s.pending| {
      assert |DropHead(s.pending, h)| < |s.pending|;
    }
    if h < |r.desc| {
      var ws := ChainAt(r.desc, h);
      assert ws[0] == h;
      if r.desc[h] == FREE_DESC {
        assert ws == [h];
        assert ReclaimChain(r, h).desc == r.desc;
      } else {
        assert ReclaimChain(r, h).desc[h] == FREE_DESC;
      }
    } else {
      assert ReclaimChain(r, h).desc == r.desc;
    }
  }

  /** A second call straight after the first is a no-op exactly when no second entry has the head. */
  lemma SecondCallIff(s: Tx, h: nat)
    ensures ReclaimParked(ReclaimParked(s, h), h) == ReclaimParked(s, h) <==> !HeadListed(DropHead(s.pending, h), h)
  {
    ReclaimAgainIff(ReclaimParked(s, h), h);
    if h < |s.ring.desc| {
      assert ChainAt(s.ring.desc, h)[0] == h;
    }
  }

  /** A second call after the head has been taken for another transfer frees that live chain. */
  lemma LaterCallFreesLive(r: Ring, cs: seq<Completion>, pending: seq<Parked>, block: seq<byte>, n: nat) returns (slots: seq<nat>)
    requires Sound(r) && May(r, cs) && Polls(r, cs) && FreeCount(Turn(r, cs).desc) >= 3 && n + 12 <= |block|
    ensures var r1, h := Turn(r, cs), PolledHead(r, cs);
            && |slots| == 3 && InRange(slots, |r1.desc|) && FreeSlots(r1.desc, slots) && slots[0] == h
            && var r2 := Publish(Allocate(r1, block), slots, TxBufs(|r1.mem|, n));
            && Sound(r2) && !Sound(ReclaimParked(Tx(r2, pending), h).ring)
  {
    hide Inv, May, Polls;
    var r1, h := Turn(r, cs), PolledHead(r, cs);
    TurnKeeps(r, cs);
    PolledHeadFree(r, cs);
    slots := FindFreeWith(r1.desc, h);
    PostKeeps(r1, block, n, slots);
    var r2 := Publish(Allocate(r1, block), slots, TxBufs(|r1.mem|, n));
    assert Outstanding(r2) + {|r1.avail|} == Outstanding(r2);
    ReclaimSoundIff(r2, |r1.avail|);
  }

  lemma PolledHeadFree(r: Ring, cs: seq<Completion>)
    requires Sound(r) && May(r, cs) && Polls(r, cs)
    ensures var r1, h := Turn(r, cs), PolledHead(r, cs); h < |r1.desc| && !r1.desc[h].inUse
  {
    hide May;
    DoesKeeps(r, cs);
    var s := Does(r, cs);
    hide Does;
    SeenTicket(s, Outstanding(r));
    SeenOwned(s, Outstanding(r));
    hide Inv;
    ReclaimedFree(PollUsed(s), PolledHead(r, cs));
  }

  lemma SeenOwned(s: Ring, out: set<nat>)
    requires Inv(s, out) && s.seen < |s.used| == |s.answers|
    ensures s.used[s.seen].head < |s.desc|
  {
    var t := s.answers[s.seen];
    assert t in Outstanding(s);
    assert Linked(s.desc, s.chains[t]);
  }

  lemma ReclaimedFree(s: Ring, h: nat)
    requires h < |s.desc|
    ensures !ReclaimChain(s, h).desc[h].inUse
  {
    assert ChainAt(s.desc, h)[0] == h;
  }

  lemma FindFreeWith(desc: seq<Desc>, h: nat) returns (slots: seq<nat>)
    requires FreeCount(desc) >= 3 && h < |desc| && !desc[h].inUse
    ensures |slots| == 3 && InRange(slots, |desc|) && FreeSlots(desc, slots) && slots[0] == h
  {
    var taken := desc[h := Desc(true, None, Buf(0, 0, 0, false))];
    assert InUse(taken) == InUse(desc) + {h};
    var rest := TakeFree(taken, 2);
    slots := [h] + rest;
  }

  // ---------------------------------------------------------------------------
  // Write
  // ---------------------------------------------------------------------------

  /** One turn of drainPendingTxq. */
  function TxTurn(s: Tx, cs: seq<Completion>): Tx {
    Tx(Turn(s.ring, cs), if Polls(s.ring, cs) then DropHead(s.pending, PolledHead(s.ring, cs)) else s.pending)
  }

  function TxTurns(s: Tx, script: Script): Tx
    decreases |script|
  {
    if |script| == 0 then s else TxTurns(TxTurn(s, script[0]), script[1..])
  }

  /** Every turn of the script starts with a chain parked and finds a completion. */
  ghost predicate GoesOn(s: Tx, script: Script)
    decreases |script|
  {
    |script| > 0 ==> s.pending != [] && May(s.ring, script[0]) && Polls(s.ring, script[0]) && GoesOn(TxTurn(s, script[0]), script[1..])
  }

  /** The last turn finds nothing although a chain is still parked. */
  ghost predicate StopsShort(s: Tx, cs: seq<Completion>) {
    s.pending != [] && May(s.ring, cs) && !Polls(s.ring, cs)
  }

  /** A script of the whole of drainPendingTxq: it ends with nothing parked or with nothing to poll. */
  ghost predicate DrainRun(s: Tx, script: Script) {
    || (GoesOn(s, script) && TxTurns(s, script).pending == [])
    || (|script| > 0 && GoesOn(s, Init(script)) && StopsShort(TxTurns(s, Init(script)), Last(script)))
  }

  /** No turn of the script polls the chain rooted at `head`. */
  ghost predicate Misses(r: Ring, head: nat, script: Script)
    decreases |script|
  {
    |script| > 0 ==> May(r, script[0]) && !PollsOwn(r, head, script[0]) && Misses(Turn(r, script[0]), head, script[1..])
  }

  predicate PollsOwn(r: Ring, head: nat, cs: seq<Completion>) {
    Polls(r, cs) && PolledHead(r, cs) == head
  }

  ghost predicate Hits(r: Ring, head: nat, cs: seq<Completion>) {
    May(r, cs) && PollsOwn(r, head, cs)
  }

  /** A script of Write's polling loop: it ends when the own chain is polled or the budget is spent. */
  ghost predicate SpinRun(r: Ring, head: nat, budget: nat, script: Script) {
    || (|script| == budget && Misses(r, head, script))
    || (0 < |script| <= budget && Misses(r, head, Init(script)) && Hits(Turns(r, Init(script)), head, Last(script)))
  }

  /** How one Write went: the two loops, and the free slots AddChain took. */
  datatype How = How(drain: Script, slots: seq<nat>, spin: Script)

  /**
   One Write whose arguments and allocation are good and whose doorbell succeeds, of n bytes of
   frames laid out in `block`: drain, post, poll.
   */
  ghost predicate WriteRun(s: Tx, budget: nat, block: seq<byte>, n: nat, how: How, r': Ring) {
    var r1 := TxTurns(s, how.drain).ring;
    && DrainRun(s, how.drain)
    && if FreeCount(r1.desc) < 3 then r' == Allocate(r1, block)
       else
         && |how.slots| == 3 && InRange(how.slots, |r1.desc|) && FreeSlots(r1.desc, how.slots)
         && var r2 := Publish(Allocate(r1, block), how.slots, TxBufs(|r1.mem|, n));
         && SpinRun(r2, how.slots[0], budget, how.spin)
         && r' == Turns(r2, how.spin)
  }

  /** A Write's two loops follow the device's plan: the drain first, then the polling. */
  ghost predicate WriteFollows(s: Tx, block: seq<byte>, n: nat, how: How, plan: Script) {
    var r1 := TxTurns(s, how.drain).ring;
    && Follows(s.ring, how.drain, plan)
    && (FreeCount(r1.desc) >= 3 ==>
          && |how.slots| == 3 && InRange(how.slots, |r1.desc|)
          && Follows(Publish(Allocate(r1, block), how.slots, TxBufs(|r1.mem|, n)), how.spin, PlanFrom(plan, |how.drain|)))
  }

  function NewSlots(r: Ring, r': Ring): seq<nat> {
    if |r'.chains| > |r.chains| then r'.chains[|r.chains|].slots else []
  }

  /** The pieces of a Write put together. */
  lemma WriteRunIs(s: Tx, budget: nat, block: seq<byte>, n: nat, drain: Script, r1: Ring, posted: Ring, spin: Script, r': Ring, plan: Script)
    requires DrainRun(s, drain) && r1 == TxTurns(s, drain).ring
    requires FreeCount(r1.desc) < 3 ==> r' == Allocate(r1, block)
    requires FreeCount(r1.desc) >= 3 ==>
               && Published(Allocate(r1, block), posted, TxBufs(|r1.mem|, n)) && |r1.avail| < |posted.avail|
               && SpinRun(posted, posted.avail[|r1.avail|], budget, spin) && r' == Turns(posted, spin)
    requires Follows(s.ring, drain, plan) && (FreeCount(r1.desc) >= 3 ==> Follows(posted, spin, PlanFrom(plan, |drain|)))
    ensures WriteRun(s, budget, block, n, How(drain, NewSlots(r1, posted), spin), r')
    ensures WriteFollows(s, block, n, How(drain, NewSlots(r1, posted), spin), plan)
  {
    hide DrainRun, SpinRun, Turns, TxTurns, Follows;
  }

  predicate ThreeEach(r: Ring) {
    forall t | 0 <= t < |r.chains| :: |r.chains[t].bufs| == 3
  }

  /** A Write leaves its own chain outstanding, and counted among the timed-out ones, exactly when it is late. */
  ghost predicate Adds(r: Ring, r': Ring, timedOut: set<nat>, timedOut': set<nat>, late: bool) {
    var own := if late then {|r.avail|} else {};
    && Outstanding(r') <= Outstanding(r) + own && timedOut' == timedOut + own
    && (ThreeEach(r) ==> ThreeEach(r'))
  }

  lemma KeptFacts(r: Ring, r': Ring)
    requires Kept(r, r')
    ensures Extends(r, r') && r'.avail == r.avail && r'.chains == r.chains
  {
  }

  /** The environment lets a transfer of n bytes through, if the ring has room for it. */
  predicate Postable(n: nat, env: Env) {
    env.doorbell && env.alloc.Block? && n + 12 <= env.alloc.bytes && n + 12 < U32
  }

  lemma AddsNothing(r: Ring, drained: Ring, r': Ring, timedOut: set<nat>)
    requires Kept(r, drained) && Outstanding(drained) <= Outstanding(r) && r' == drained.(mem := r'.mem)
    ensures Adds(r, r', timedOut, timedOut, false)
  {
    assert Unseen(r') == Unseen(drained);
  }

  lemma AddsOwn(r: Ring, drained: Ring, posted: Ring, streamID: u32, frames: seq<byte>, head: nat, budget: nat, spin: Script, r': Ring,
                timedOut: set<nat>, late: bool)
    requires Kept(r, drained) && Sound(drained) && Outstanding(drained) <= Outstanding(r) && Posted(drained, posted, streamID, frames)
    requires SpinRun(posted, head, budget, spin) && r' == Turns(posted, spin)
    requires |r.avail| in Outstanding(r') <==> late
    ensures Adds(r, r', timedOut, timedOut + if late then {|r.avail|} else {}, late)
  {
    hide Inv, SpinRun, Turn;
    SpinRunMay(posted, head, budget, spin);
    TurnsKeep(posted, spin);
    AlignedLogs(drained);
    if ThreeEach(r) {
      PostedThree(drained, posted, streamID, frames);
    }
  }

  lemma PostedThree(r: Ring, posted: Ring, streamID: u32, frames: seq<byte>)
    requires ThreeEach(r) && Posted(r, posted, streamID, frames) && |r.chains| == |r.avail|
    ensures ThreeEach(posted)
  {
  }

  /** A WriteAsync leaves nothing new outstanding but a cookie's chain. */
  ghost predicate Joins(r: Ring, r': Ring, g: Registry, g': Registry) {
    && Outstanding(r') <= Outstanding(r) + g'.owner.Keys && g.owner.Keys <= g'.owner.Keys
    && (ThreeEach(r) ==> ThreeEach(r'))
  }

  lemma JoinsNothing(r: Ring, r': Ring, g: Registry)
    requires r' == r.(mem := r'.mem)
    ensures Joins(r, r', g, g)
  {
    assert Unseen(r') == Unseen(r);
  }

  /** A WriteAsync that published nothing leaves the registry as true as it was. */
  lemma AsyncRefused(r: Ring, r': Ring, g: Registry)
    requires r' == r.(mem := r'.mem) && Extends(r, r') && Sound(r')
    ensures Joins(r, r', g, g) && (Tracks(r, g) ==> Tracks(r', g))
  {
    JoinsNothing(r, r', g);
    AlignedLogs(r');
    assert Unseen(r') == Unseen(r);
    if Tracks(r, g) {
      UntouchedRegistryIff(r, r', g);
    }
  }

  lemma NoAsync(r: Ring, g: Registry)
    ensures Joins(r, r, g, g) && Extends(r, r)
  {
    JoinsNothing(r, r, g);
  }

  lemma PollingDescribes(r: Ring, t: nat, p: Parked, streamID: u32, frames: seq<byte>)
    requires Polling(r, t, p, streamID, frames)
    ensures Describes(r, t, p) && |r.avail| == t + 1
  {
  }

  lemma JoinsOwn(r: Ring, r': Ring, streamID: u32, frames: seq<byte>, cookie: nat, g: Registry, g': Registry)
    requires Posted(r, r', streamID, frames) && Issued(r, r', streamID, frames, cookie, g, g') && |r.chains| == |r.avail|
    ensures Joins(r, r', g, g')
  {
    if ThreeEach(r) {
      PostedThree(r, r', streamID, frames);
    }
  }

  lemma WriteAccounts(r: Ring, r': Ring, pending: seq<Parked>, pending': seq<Parked>,
      timedOut: set<nat>, timedOut': set<nat>, late: bool, g: Registry)
    requires Accounted(r, pending, timedOut, g) && Adds(r, r', timedOut, timedOut', late) && ParkedCovers(r', pending', timedOut')
    ensures Accounted(r', pending', timedOut', g)
  {
  }

  lemma WriteAsyncAccounts(r: Ring, r': Ring, pending: seq<Parked>, timedOut: set<nat>, g: Registry, g': Registry)
    requires Accounted(r, pending, timedOut, g) && Joins(r, r', g, g') && ParkedCovers(r', pending, timedOut)
    ensures Accounted(r', pending, timedOut, g')
  {
  }

  lemma ReadEventsAccounts(r: Ring, r': Ring, script: Script, pending: seq<Parked>, timedOut: set<nat>, g: Registry, g': Registry, out: seq<Event>)
    requires Sound(r) && Drains(r, script) && r' == Turns(r, script) && ParkedCovers(r', pending, timedOut)
    requires Accounted(r, pending, timedOut, g) && Tracks(r, g) && DeliveredUpTo(r, g, r', g', out)
    ensures Accounted(r', pending, timedOut, g')
  {
    hide Inv, Tracks, DeliveredUpTo, Turns, Drains;
    DrainsMay(r, script);
    TurnsKeep(r, script);
    forall t | t in Outstanding(r') && t in g.owner.Keys
      ensures t in g'.owner.Keys
    {
      DeliveredOthers(r, g, r', g', out, t);
    }
  }

  // --- scripts, one turn at a time ---

  lemma {:induction false} TxTurnsRing(s: Tx, script: Script)
    ensures TxTurns(s, script).ring == Turns(s.ring, script)
    decreases |script|
  {
    hide Turn;
    if |script| > 0 {
      TxTurnsRing(TxTurn(s, script[0]), script[1..]);
    }
  }

  lemma {:induction false} TxTurnsMore(s: Tx, script: Script, cs: seq<Completion>)
    ensures TxTurns(s, script + [cs]) == TxTurn(TxTurns(s, script), cs)
    decreases |script|
  {
    hide TxTurn;
    if |script| > 0 {
      assert (script + [cs])[1..] == script[1..] + [cs];
      TxTurnsMore(TxTurn(s, script[0]), script[1..], cs);
    } else {
      assert (script + [cs])[1..] == [];
    }
  }

  lemma {:induction false} GoesOnMore(s: Tx, script: Script, cs: seq<Completion>)
    requires GoesOn(s, script)
    requires var e := TxTurns(s, script); e.pending != [] && May(e.ring, cs) && Polls(e.ring, cs)
    ensures GoesOn(s, script + [cs])
    decreases |script|
  {
    hide TxTurn, May, Polls;
    if |script| > 0 {
      assert (script + [cs])[1..] == script[1..] + [cs];
      GoesOnMore(TxTurn(s, script[0]), script[1..], cs);
    } else {
      assert (script + [cs])[1..] == [];
    }
  }

  lemma DrainStarts(s: Tx)
    ensures GoesOn(s, []) && TxTurns(s, []) == s && Extends(s.ring, s.ring)
  {
  }

  /** One more turn of drainPendingTxq: the loop goes on, or stops short with nothing to poll. */
  lemma DrainTurn(s: Tx, script: Script, cs: seq<Completion>, e: Tx)
    requires GoesOn(s, script) && e == TxTurns(s, script) && e.pending != [] && May(e.ring, cs)
    ensures TxTurns(s, script + [cs]) == TxTurn(e, cs)
    ensures Polls(e.ring, cs) ==> GoesOn(s, script + [cs])
    ensures !Polls(e.ring, cs) ==> DrainRun(s, script + [cs])
  {
    hide TxTurn, May, Polls, GoesOn;
    TxTurnsMore(s, script, cs);
    if Polls(e.ring, cs) {
      GoesOnMore(s, script, cs);
    } else {
      assert Init(script + [cs]) == script && Last(script + [cs]) == cs;
    }
  }

  lemma {:induction false} GoesOnMay(s: Tx, script: Script)
    requires GoesOn(s, script)
    ensures AllMay(s.ring, script)
    decreases |script|
  {
    hide Turn;
    if |script| > 0 {
      GoesOnMay(TxTurn(s, script[0]), script[1..]);
    }
  }

  lemma DrainRunMay(s: Tx, script: Script)
    requires DrainRun(s, script)
    ensures AllMay(s.ring, script) && TxTurns(s, script).ring == Turns(s.ring, script)
  {
    hide TxTurn, Turn, May, Polls, GoesOn;
    TxTurnsRing(s, script);
    if GoesOn(s, script) {
      GoesOnMay(s, script);
    } else {
      assert script == Init(script) + [Last(script)];
      GoesOnMay(s, Init(script));
      TxTurnsRing(s, Init(script));
      TurnsMore(s.ring, Init(script), Last(script));
    }
  }

  lemma DrainRunFirst(s: Tx, cs: seq<Completion>, rest: Script)
    requires s.pending != [] && May(s.ring, cs) && Polls(s.ring, cs) && DrainRun(TxTurn(s, cs), rest)
    ensures DrainRun(s, [cs] + rest) && TxTurns(s, [cs] + rest) == TxTurns(TxTurn(s, cs), rest)
  {
    hide TxTurn, May, Polls, StopsShort;
    var script := [cs] + rest;
    assert script[1..] == rest;
    if |rest| > 0 {
      assert Init(script)[0] == cs && Init(script)[1..] == Init(rest) && Last(script) == Last(rest);
    }
  }

  lemma {:induction false} MissesMore(r: Ring, head: nat, script: Script, cs: seq<Completion>)
    requires Misses(r, head, script)
    requires May(Turns(r, script), cs) && !PollsOwn(Turns(r, script), head, cs)
    ensures Misses(r, head, script + [cs])
    decreases |script|
  {
    hide Turn, May, PollsOwn;
    if |script| > 0 {
      assert (script + [cs])[1..] == script[1..] + [cs];
      MissesMore(Turn(r, script[0]), head, script[1..], cs);
    } else {
      assert (script + [cs])[1..] == [];
    }
  }

  lemma {:induction false} MissesMay(r: Ring, head: nat, script: Script)
    requires Misses(r, head, script)
    ensures AllMay(r, script)
    decreases |script|
  {
    hide Turn;
    if |script| > 0 {
      MissesMay(Turn(r, script[0]), head, script[1..]);
    }
  }

  lemma SpinRunMay(r: Ring, head: nat, budget: nat, script: Script)
    requires SpinRun(r, head, budget, script)
    ensures AllMay(r, script)
  {
    hide Turn, May, PollsOwn, Misses;
    if Misses(r, head, script) {
      MissesMay(r, head, script);
    } else {
      assert script == Init(script) + [Last(script)];
      MissesMay(r, head, Init(script));
      TurnsMore(r, Init(script), Last(script));
    }
  }

  /** One more turn of Write's polling loop. */
  lemma SpinTurn(r: Ring, head: nat, budget: nat, script: Script, cs: seq<Completion>, e: Ring)
    requires Misses(r, head, script) && e == Turns(r, script) && May(e, cs) && |script| < budget
    ensures Turns(r, script + [cs]) == Turn(e, cs)
    ensures PollsOwn(e, head, cs) ==> SpinRun(r, head, budget, script + [cs])
    ensures !PollsOwn(e, head, cs) ==> Misses(r, head, script + [cs])
  {
    hide Turn, May, PollsOwn, Misses;
    TurnsMore(r, script, cs);
    if PollsOwn(e, head, cs) {
      assert Init(script + [cs]) == script && Last(script + [cs]) == cs;
    } else {
      MissesMore(r, head, script, cs);
    }
  }

  lemma SpinSpent(r: Ring, head: nat, budget: nat, script: Script)
    requires |script| == budget && Misses(r, head, script)
    ensures SpinRun(r, head, budget, script)
  {
  }

  lemma SpinStarts(r: Ring, head: nat)
    ensures Misses(r, head, []) && Turns(r, []) == r && Extends(r, r)
  {
  }

  lemma SpinRunFirst(r: Ring, head: nat, budget: nat, cs: seq<Completion>, rest: Script)
    requires budget > 0 && May(r, cs) && !PollsOwn(r, head, cs) && SpinRun(Turn(r, cs), head, budget - 1, rest)
    ensures SpinRun(r, head, budget, [cs] + rest) && Turns(r, [cs] + rest) == Turns(Turn(r, cs), rest)
  {
    hide Turn, May, PollsOwn, Hits;
    var script := [cs] + rest;
    assert script[1..] == rest;
    if |rest| > 0 {
      assert Init(script)[0] == cs && Init(script)[1..] == Init(rest) && Last(script) == Last(rest);
    }
  }

  // --- a device that does nothing ---

  lemma {:induction false} CanFinishDrain(s: Tx) returns (script: Script)
    requires Sound(s.ring)
    ensures DrainRun(s, script)
    decreases |s.ring.used| - s.ring.seen
  {
    DoesNothing(s.ring);
    if s.pending == [] {
      script := [];
    } else if Polls(s.ring, []) {
      TurnKeeps(s.ring, []);
      var rest := CanFinishDrain(TxTurn(s, []));
      DrainRunFirst(s, [], rest);
      script := [[]] + rest;
    } else {
      script := [[]];
      assert Init(script) == [] && Last(script) == [];
    }
  }

  lemma {:induction false} CanFinishSpin(r: Ring, head: nat, budget: nat) returns (script: Script)
    requires Sound(r)
    ensures SpinRun(r, head, budget, script)
    decreases budget
  {
    DoesNothing(r);
    if budget == 0 {
      script := [];
    } else if PollsOwn(r, head, []) {
      script := [[]];
      assert Init(script) == [] && Last(script) == [];
    } else {
      TurnKeeps(r, []);
      var rest := CanFinishSpin(Turn(r, []), head, budget - 1);
      SpinRunFirst(r, head, budget, [], rest);
      script := [[]] + rest;
    }
  }

  // --- what Write does to cookies ---

  /**
   Every chain on the txq is a transfer, and every outstanding one is either in flight for a
   cookie or timed out with its head on the pending list.
   */
  ghost predicate Accounted(r: Ring, pending: seq<Parked>, timedOut: set<nat>, g: Registry) {
    && ThreeEach(r)
    && Outstanding(r) <= g.owner.Keys + timedOut
    && ParkedCovers(r, pending, timedOut)
  }

  /** Some cookie's chain is no longer outstanding: no later ReadEvents can deliver it. */
  ghost predicate Lost(r: Ring, g: Registry) {
    exists t :: t in g.owner && t !in Outstanding(r)
  }

  lemma LostForGood(r: Ring, r': Ring, g: Registry)
    requires Lost(r, g) && Outstanding(r') <= Outstanding(r)
    ensures Lost(r', g) && !Tracks(r', g)
  {
    var t :| t in g.owner && t !in Outstanding(r);
    assert t in g.owner && t !in Outstanding(r');
  }

  lemma InFlight(r: Ring, g: Registry) returns (t: nat)
    requires Tracks(r, g) && g.cookies != map[]
    ensures t in g.owner && t in Outstanding(r)
  {
    var c :| c in g.cookies;
    assert HasTicket(g.owner, c);
    t :| t in g.owner && g.owner[t] == c;
  }

  /** The device's next move: complete a cookie's chain, unless there is already something to poll. */
  lemma CanPollNext(r: Ring, g: Registry) returns (cs: seq<Completion>)
    requires Sound(r) && Tracks(r, g) && g.cookies != map[]
    ensures May(r, cs) && Polls(r, cs) && TicketPolled(r, cs) in Outstanding(r)
    ensures r.seen == |r.used| ==> TicketPolled(r, cs) in g.owner
    ensures r.seen < |r.used| ==> cs == []
    ensures TicketPolled(r, cs) in g.owner || r.seen < |r.used|
  {
    DoesNothing(r);
    if r.seen < |r.used| {
      cs := [];
    } else {
      var t := InFlight(r, g);
      InHand(r, t);
      cs := CanComplete(r, t);
    }
    TurnKeeps(r, cs);
  }

  lemma InHand(r: Ring, t: nat)
    requires Sound(r) && r.seen >= |r.used| && t in Outstanding(r)
    ensures t in r.held && r.seen == |r.used|
  {
  }

  /** Polling a timed-out chain keeps everything accounted for and frees three slots. */
  lemma ParkedPolled(s: Tx, timedOut: set<nat>, g: Registry, cs: seq<Completion>)
    requires Sound(s.ring) && Tracks(s.ring, g) && Accounted(s.ring, s.pending, timedOut, g)
    requires May(s.ring, cs) && Polls(s.ring, cs) && TicketPolled(s.ring, cs) !in g.owner
    ensures var s' := TxTurn(s, cs);
            && Sound(s'.ring) && Tracks(s'.ring, g) && Accounted(s'.ring, s'.pending, timedOut, g)
            && FreeCount(s'.ring.desc) == FreeCount(s.ring.desc) + 3
  {
    hide Inv, Tracks, May, Does, Turn, PolledHead, TicketPolled;
    var r, r', t := s.ring, Turn(s.ring, cs), TicketPolled(s.ring, cs);
    TurnKeeps(r, cs);
    OwnersOutstanding(r, g);
    UntouchedRegistryIff(r, r', g);
    AlignedLogs(r');
    DropCovers(r, Outstanding(r), r', s.pending, timedOut, t);
  }

  lemma OwnersOutstanding(r: Ring, g: Registry)
    requires Tracks(r, g)
    ensures g.owner.Keys <= Outstanding(r)
  {
  }

  lemma AlignedLogs(r: Ring)
    requires Sound(r)
    ensures |r.avail| == |r.chains|
    ensures forall t | t in Outstanding(r) :: t < |r.avail|
  {
  }

  /**
   With a cookie in flight, the device can either have drainPendingTxq take a cookie's chain,
   or leave it with nothing parked and nothing but cookies' chains outstanding.
   */
  lemma {:induction false} DrainCanLose(s: Tx, timedOut: set<nat>, g: Registry) returns (script: Script)
    requires Sound(s.ring) && Tracks(s.ring, g) && g.cookies != map[] && Accounted(s.ring, s.pending, timedOut, g)
    ensures DrainRun(s, script)
    ensures var e := TxTurns(s, script);
            || Lost(e.ring, g)
            || (&& Sound(e.ring) && Tracks(e.ring, g) && Outstanding(e.ring) <= g.owner.Keys
                && FreeCount(e.ring.desc) >= FreeCount(s.ring.desc)
                && (s.pending == [] ==> script == [])
                && (s.pending != [] ==> FreeCount(e.ring.desc) >= 3))
    decreases |s.ring.used| - s.ring.seen
  {
    hide Inv, Tracks, May, Does, Lost;
    var r := s.ring;
    if s.pending == [] {
      script := [];
      NothingParked(r, timedOut, g);
    } else {
      var cs := CanPollNext(r, g);
      TurnKeeps(r, cs);
      var t, next := TicketPolled(r, cs), TxTurn(s, cs);
      if t in g.owner {
        var rest := CanFinishDrain(next);
        DrainRunFirst(s, cs, rest);
        script := [cs] + rest;
        DrainRunMay(next, rest);
        TurnsKeep(next.ring, rest);
        IsLost(TxTurns(next, rest).ring, g, t);
      } else {
        ParkedPolled(s, timedOut, g, cs);
        WaitingTurn(r);
        var rest := DrainCanLose(next, timedOut, g);
        DrainRunFirst(s, cs, rest);
        InUseBound(r.desc);
        script := [cs] + rest;
      }
    }
  }

  lemma IsLost(r: Ring, g: Registry, t: nat)
    requires t in g.owner && t !in Outstanding(r)
    ensures Lost(r, g)
  {
  }

  /** Polling what is already there uses it up. */
  lemma WaitingTurn(r: Ring)
    ensures r.seen < |r.used| ==> |Turn(r, []).used| - Turn(r, []).seen < |r.used| - r.seen
  {
    DoesNothing(r);
  }

  lemma NothingParked(r: Ring, timedOut: set<nat>, g: Registry)
    requires Sound(r) && Accounted(r, [], timedOut, g)
    ensures Outstanding(r) <= g.owner.Keys
  {
    AlignedLogs(r);
    forall t | t in Outstanding(r)
      ensures t !in timedOut
    {
      assert !HeadListed([], r.avail[t]);
    }
  }

  /** With nothing but cookies' chains outstanding, one turn of the polling loop can take one. */
  lemma SpinCanLose(r: Ring, r2: Ring, g: Registry, budget: nat) returns (script: Script)
    requires Sound(r) && Tracks(r, g) && g.cookies != map[] && Outstanding(r) <= g.owner.Keys && budget > 0
    requires Sound(r2) && Extends(r, r2) && |r2.avail| == |r2.chains| == |r.avail| + 1 && Outstanding(r2) == Outstanding(r) + {|r.avail|}
    requires r2.used == r.used && r2.seen == r.seen && r2.answers == r.answers
    ensures SpinRun(r2, r2.avail[|r.avail|], budget, script) && Lost(Turns(r2, script), g)
  {
    hide Inv, Extends, May, Does, Lost;
    var head := r2.avail[|r.avail|];
    StillTracks(r, r2, g);
    var cs := CanPollNext(r2, g);
    TurnKeeps(r2, cs);
    var t := TicketPolled(r2, cs);
    if r2.seen < |r2.used| {
      DoesNothing(r2);
      SeenTicket(r, Outstanding(r));
      PollKeeps(r, Outstanding(r));
      assert t in Outstanding(r);
    }
    assert t in g.owner.Keys && t in Outstanding(r);
    AlignedLogs(r);
    HeadIdentifiesTicket(r2, Outstanding(r2), t, |r.avail|);
    var rest := CanFinishSpin(Turn(r2, cs), head, budget - 1);
    SpinRunFirst(r2, head, budget, cs, rest);
    SpinRunMay(Turn(r2, cs), head, budget - 1, rest);
    TurnsKeep(Turn(r2, cs), rest);
    script := [cs] + rest;
    IsLost(Turns(r2, script), g, t);
  }

  lemma StillTracks(r: Ring, r2: Ring, g: Registry)
    requires Tracks(r, g) && Extends(r, r2) && |r2.avail| == |r2.chains| && Outstanding(r) <= Outstanding(r2)
    ensures Tracks(r2, g) && g.owner.Keys <= Outstanding(r)
  {
    UntouchedRegistryIff(r, r2, g);
  }

  /** Posting a transfer of n bytes: one more ticket, nothing else. */
  lemma PostKeeps(r: Ring, block: seq<byte>, n: nat, slots: seq<nat>)
    requires Sound(r) && n + 12 <= |block|
    requires |slots| == 3 && InRange(slots, |r.desc|) && FreeSlots(r.desc, slots)
    ensures var r2 := Publish(Allocate(r, block), slots, TxBufs(|r.mem|, n));
            && Sound(r2) && Extends(r, r2) && Outstanding(r2) == Outstanding(r) + {|r.avail|}
            && |r2.avail| == |r2.chains| == |r.avail| + 1 && r2.avail[|r.avail|] == slots[0]
            && r2.used == r.used && r2.seen == r.seen && r2.answers == r.answers
            && r2.chains == r.chains + [Chain(slots, TxBufs(|r.mem|, n))]
  {
    var r1, bufs := Allocate(r, block), TxBufs(|r.mem|, n);
    AllocateKeeps(r, Outstanding(r), block);
    AlignedLogs(r);
    TakenCount(r1.desc, slots);
    InUseBound(r1.desc);
    assert InBlock(r1.mem, Chain(slots, bufs));
    PublishKeeps(r1, Outstanding(r), slots, bufs);
  }

  /** Whatever the device does, a Write keeps the ring sound and adds at most its own ticket. */
  lemma WriteRunKeeps(s: Tx, budget: nat, block: seq<byte>, n: nat, how: How, r': Ring)
    requires Sound(s.ring) && n + 12 <= |block| && WriteRun(s, budget, block, n, how, r')
    ensures Sound(r') && Extends(s.ring, r') && Outstanding(r') <= Outstanding(s.ring) + {|s.ring.avail|}
  {
    hide Inv, May, Does, Turn;
    var r1 := TxTurns(s, how.drain).ring;
    DrainRunMay(s, how.drain);
    TurnsKeep(s.ring, how.drain);
    if FreeCount(r1.desc) < 3 {
      AllocateKeeps(r1, Outstanding(r1), block);
    } else {
      PostKeeps(r1, block, n, how.slots);
      var r2 := Publish(Allocate(r1, block), how.slots, TxBufs(|r1.mem|, n));
      SpinRunMay(r2, how.slots[0], budget, how.spin);
      TurnsKeep(r2, how.spin);
    }
  }

  /** With nothing parked there is no drain. */
  lemma NoDrain(s: Tx, script: Script)
    requires s.pending == [] && DrainRun(s, script)
    ensures script == []
  {
  }

  /** From a lost cookie a Write goes on as it likes; the cookie stays lost. */
  lemma FinishLost(s: Tx, budget: nat, block: seq<byte>, n: nat, g: Registry, drain: Script) returns (how: How, r': Ring)
    requires Sound(s.ring) && Tracks(s.ring, g) && n + 12 <= |block|
    requires DrainRun(s, drain) && Lost(TxTurns(s, drain).ring, g)
    ensures WriteRun(s, budget, block, n, how, r') && Lost(r', g)
  {
    hide Inv, Tracks, May, Does, Turn;
    var r1 := TxTurns(s, drain).ring;
    DrainRunMay(s, drain);
    TurnsKeep(s.ring, drain);
    OwnersOutstanding(s.ring, g);
    AlignedLogs(s.ring);
    if FreeCount(r1.desc) < 3 {
      AllocateKeeps(r1, Outstanding(r1), block);
      how, r' := How(drain, [], []), Allocate(r1, block);
      LostForGood(r1, r', g);
    } else {
      var slots := TakeFree(r1.desc, 3);
      PostKeeps(r1, block, n, slots);
      var r2 := Publish(Allocate(r1, block), slots, TxBufs(|r1.mem|, n));
      var t :| t in g.owner && t !in Outstanding(r1);
      assert t in g.owner.Keys;
      IsLost(r2, g, t);
      var spin := CanFinishSpin(r2, slots[0], budget);
      SpinRunMay(r2, slots[0], budget, spin);
      TurnsKeep(r2, spin);
      how, r' := How(drain, slots, spin), Turns(r2, spin);
      LostForGood(r2, r', g);
    }
  }

  /**
   A Write with a positive poll budget leaves the cookie registry truthful, whatever the
   device does, if and only if no cookie is in flight, or it polls nothing at all: nothing is
   parked and the ring has no room for its chain.
   */
  lemma WriteKeepsRegistryIff(s: Tx, timedOut: set<nat>, g: Registry, budget: nat, block: seq<byte>, n: nat)
    requires Sound(s.ring) && Tracks(s.ring, g) && Accounted(s.ring, s.pending, timedOut, g)
    requires budget > 0 && n + 12 <= |block|
    ensures (forall how, r' | WriteRun(s, budget, block, n, how, r') :: Tracks(r', g))
            <==> g.cookies == map[] || (s.pending == [] && FreeCount(s.ring.desc) < 3)
  {
    hide Inv, Tracks, May, Does, Turn, WriteRun, Lost, Accounted;
    if g.cookies == map[] {
      forall how, r' | WriteRun(s, budget, block, n, how, r')
        ensures Tracks(r', g)
      {
        WriteRunKeeps(s, budget, block, n, how, r');
        AlignedLogs(r');
        NoCookies(s.ring, r', g);
      }
    } else if s.pending == [] && FreeCount(s.ring.desc) < 3 {
      forall how, r' | WriteRun(s, budget, block, n, how, r')
        ensures Tracks(r', g)
      {
        IdleWrite(s, budget, block, n, how, r', g);
      }
    } else {
      var how, r' := WriteCanLose(s, timedOut, g, budget, block, n);
      assert WriteRun(s, budget, block, n, how, r') && !Tracks(r', g);
    }
  }

  lemma IdleWrite(s: Tx, budget: nat, block: seq<byte>, n: nat, how: How, r': Ring, g: Registry)
    requires Sound(s.ring) && Tracks(s.ring, g) && s.pending == [] && FreeCount(s.ring.desc) < 3
    requires WriteRun(s, budget, block, n, how, r')
    ensures Tracks(r', g)
  {
    hide Inv, Tracks;
    NoDrain(s, how.drain);
    AllocateKeeps(s.ring, Outstanding(s.ring), block);
    OwnersOutstanding(s.ring, g);
    AlignedLogs(s.ring);
    UntouchedRegistryIff(s.ring, r', g);
  }

  lemma WriteCanLose(s: Tx, timedOut: set<nat>, g: Registry, budget: nat, block: seq<byte>, n: nat) returns (how: How, r': Ring)
    requires Sound(s.ring) && Tracks(s.ring, g) && Accounted(s.ring, s.pending, timedOut, g) && g.cookies != map[]
    requires budget > 0 && n + 12 <= |block|
    requires s.pending != [] || FreeCount(s.ring.desc) >= 3
    ensures WriteRun(s, budget, block, n, how, r') && !Tracks(r', g)
  {
    hide Inv, Tracks, May, Does, Turn, Lost, Accounted, DrainRun, SpinRun;
    var drain := DrainCanLose(s, timedOut, g);
    var r1 := TxTurns(s, drain).ring;
    if Lost(r1, g) {
      how, r' := FinishLost(s, budget, block, n, g, drain);
    } else {
      var slots := TakeFree(r1.desc, 3);
      PostKeeps(r1, block, n, slots);
      var r2 := Publish(Allocate(r1, block), slots, TxBufs(|r1.mem|, n));
      var spin := SpinCanLose(r1, r2, g, budget);
      how, r' := How(drain, slots, spin), Turns(r2, spin);
    }
    LostForGood(r', r', g);
  }

  // --- what a lost cookie leads to ---

  /** The slots of a chain polled since are free, and stay free as long as nothing is published. */
  lemma PolledSlotsFree(r: Ring, r': Ring, t: nat)
    requires Sound(r) && Sound(r') && r'.chains == r.chains && |r'.desc| == |r.desc|
    requires t in Outstanding(r) && t !in Outstanding(r') && Outstanding(r') <= Outstanding(r)
    ensures FreeSlots(r'.desc, r.chains[t].slots)
  {
    var slots := r.chains[t].slots;
    assert Linked(r.desc, r.chains[t]);
    forall i, u | 0 <= i < |slots| && u in Outstanding(r')
      ensures slots[i] !in r'.chains[u].slots
    {
      assert Apart(r.chains[t].slots, r.chains[u].slots);
    }
  }

  /**
   From any state with a cookie in flight, nothing parked and room for a Write: there are a
   Write that polls a cookie's chain and leaves the cookie behind, and free slots on which the
   next WriteAsync is registered under the stale cookie's head.  A completion of that chain
   then matches both cookies.
   */
  lemma CookiesCanCollide(r: Ring, g: Registry, budget: nat, block: seq<byte>, n: nat, streamID: u32, block2: seq<byte>, m: nat)
    returns (how: How, r': Ring, slots: seq<nat>, r2: Ring, stale: nat)
    requires Sound(r) && Tracks(r, g) && g.cookies != map[] && Outstanding(r) <= g.owner.Keys
    requires FreeCount(r.desc) >= 3 && budget > 0 && n + 12 <= |block| && m + 12 <= |block2| && g.next + 1 < U64
    ensures WriteRun(Tx(r, []), budget, block, n, how, r')
    ensures |slots| == 3 && InRange(slots, |r'.desc|) && FreeSlots(r'.desc, slots)
    ensures r2 == Publish(Allocate(r', block2), slots, TxBufs(|r'.mem|, m))
    ensures var next, p := Inc64(g.next), Parked(slots[0], |r'.mem|, PCM_XFER_HDR_SIZE + m);
            var cookies := g.cookies[next := InflightOf(r2, streamID, m, p)];
            && SharesHead(cookies) && stale != next
            && MayFind(cookies, slots[0], Some(stale)) && MayFind(cookies, slots[0], Some(next))
  {
    hide Inv, Tracks, WriteRun, Turns, Lost, SpinRun;
    var slots0 := TakeFree(r.desc, 3);
    PostKeeps(r, block, n, slots0);
    var posted := Publish(Allocate(r, block), slots0, TxBufs(|r.mem|, n));
    var spin := SpinCanLose(r, posted, g, budget);
    how, r' := How([], slots0, spin), Turns(posted, spin);
    NoDrainRun(r, budget, block, n, slots0, spin);
    var t := LostChain(r, posted, g, slots0[0], budget, spin);
    slots, stale := r.chains[t].slots, g.owner[t];
    r2 := Publish(Allocate(r', block2), slots, TxBufs(|r'.mem|, m));
    NextIsFresh(r, g);
    var next := Inc64(g.next);
    var cookies := g.cookies[next := InflightOf(r2, streamID, m, Parked(slots[0], |r'.mem|, PCM_XFER_HDR_SIZE + m))];
    assert cookies[stale].head == slots[0] && cookies[next].head == slots[0];
  }

  lemma NoDrainRun(r: Ring, budget: nat, block: seq<byte>, n: nat, slots: seq<nat>, spin: Script)
    requires FreeCount(r.desc) >= 3 && |slots| == 3 && InRange(slots, |r.desc|) && FreeSlots(r.desc, slots)
    requires SpinRun(Publish(Allocate(r, block), slots, TxBufs(|r.mem|, n)), slots[0], budget, spin)
    ensures WriteRun(Tx(r, []), budget, block, n, How([], slots, spin), Turns(Publish(Allocate(r, block), slots, TxBufs(|r.mem|, n)), spin))
  {
    hide SpinRun, Turns;
    DrainStarts(Tx(r, []));
  }

  /** The lost cookie's chain: its slots are free again. */
  lemma LostChain(r: Ring, posted: Ring, g: Registry, head: nat, budget: nat, spin: Script) returns (t: nat)
    requires Sound(r) && Sound(posted) && Tracks(r, g) && Extends(r, posted) && Outstanding(posted) == Outstanding(r) + {|r.avail|}
    requires SpinRun(posted, head, budget, spin) && Lost(Turns(posted, spin), g)
    ensures t in g.owner && g.owner[t] in g.cookies && t < |r.chains| && |r.chains[t].slots| == 3
    ensures var slots, r' := r.chains[t].slots, Turns(posted, spin);
            InRange(slots, |r'.desc|) && FreeSlots(r'.desc, slots) && g.cookies[g.owner[t]].head == slots[0]
  {
    hide SpinRun, Turns, Turn, May;
    var r' := Turns(posted, spin);
    SpinRunMay(posted, head, budget, spin);
    TurnsKeep(posted, spin);
    t :| t in g.owner && t !in Outstanding(r');
    assert Records(r, t, g.cookies[g.owner[t]]);
    assert t in Outstanding(r);
    assert Linked(r.desc, r.chains[t]);
    PolledSlotsFree(posted, r', t);
  }

  lemma NextIsFresh(r: Ring, g: Registry)
    requires Tracks(r, g) && g.next + 1 < U64
    ensures Inc64(g.next) !in g.cookies
  {
    assert Inc64(g.next) !in FirstCookies(g.next);
    assert Inc64(g.next) !in g.cookies.Keys + g.delivered;
    assert Inc64(g.next) !in g.cookies.Keys;
  }
}
