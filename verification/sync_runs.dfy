/**
 Whole runs of the synchronous interface: any sequence of PCMInfo, PCMSetParams,
 PCMSetParamsTyped, Controls, ControlWrite, SetVolume and Read calls, with any answers,
 timeouts and failures.
 */
module SyncRuns {
  import opened Wrappers
  import opened Bytes
  import opened Types
  import opened Virtqueue
  import opened Messages
  import opened Exchanges
  import opened Answers
  import opened Pcm
  import opened Sync

  datatype Call =
    | Info(env: Env)
    | SetParams(streamID: u32, params: PCMParams, env: Env)
    | SetTyped(streamID: u32, typed: TypedPCMParams, env: Env)
    | List(ctl: CtlEnv)
    | SetControl(id: u32, values: seq<int32>, ctl: CtlEnv)
    | Volume(streamID: u32, percent: byte, ctl: CtlEnv, second: CtlEnv)
    | Capture(streamID: u32, size: nat, env: Env)

  /** What the caller is given back. */
  datatype Answer =
    | Told(infos: seq<PCMInfoEntry>) | Listed(controls: seq<Control>) | Done | Captured(data: seq<byte>) | Failed(error: SoundError)

  /** What one call that succeeded adds to the history. */
  function FactOf(call: Call, answer: Answer): seq<Fact> {
    if call.Info? && answer.Told? then [Learned(answer.infos)]
    else if call.SetParams? && answer.Done? then [Accepted(call.streamID, call.params)]
    else if call.SetTyped? && answer.Done? then [Accepted(call.streamID, Untyped(call.typed))]
    else []
  }

  function Facts(calls: seq<Call>, answers: seq<Answer>): (history: seq<Fact>)
    requires |answers| <= |calls|
    decreases |answers|
  {
    if |answers| == 0 then []
    else
      var n := |answers| - 1;
      Facts(calls, answers[..n]) + FactOf(calls[n], answers[n])
  }

  /**
   A timeout or a failed doorbell, where the exchange was given up with its chain still
   published, or a capture too long for its transfer length.
   */
  predicate GivesUp(call: Call, answer: Answer) {
    Leaves(answer) || (call.Capture? && call.size + 12 >= U32)
  }

  /** The call left a chain with the device. */
  predicate Leaves(answer: Answer) {
    answer.Failed? && GivenUp(answer.error)
  }

  /** How many of the calls on one queue, the capture queue or the control queue, gave up. */
  function GaveUpOn(capture: bool, calls: seq<Call>, answers: seq<Answer>): (k: nat)
    requires |answers| <= |calls|
    decreases |answers|
  {
    if |answers| == 0 then 0
    else
      var n := |answers| - 1;
      GaveUpOn(capture, calls, answers[..n]) + LeftOn(capture, calls[n], answers[n])
  }

  function LeftOn(capture: bool, call: Call, answer: Answer): (k: nat) {
    if call.Capture? == capture && Leaves(answer) then 1 else 0
  }

  lemma {:induction false} NoneGaveUp(capture: bool, calls: seq<Call>, answers: seq<Answer>)
    requires |answers| <= |calls|
    ensures GaveUpOn(capture, calls, answers) == 0 <==>
              forall i | 0 <= i < |answers| && calls[i].Capture? == capture :: !Leaves(answers[i])
    decreases |answers|
  {
    if |answers| > 0 {
      NoneGaveUp(capture, calls, answers[..|answers| - 1]);
    }
  }

  /** A queue holds one chain for each call that gave up on it. */
  ghost predicate Holds(q: Ring, k: nat) {
    Logs(q) && |Outstanding(q)| == k
  }

  lemma QuietHolds(q: Ring, calls: seq<Call>)
    requires Quiet(q)
    ensures forall capture :: Holds(q, GaveUpOn(capture, calls, []))
  {
  }

  /** One more call; a slice panic leaves no chain behind, and no answer. */
  lemma HoldsMore(capture: bool, q: Ring, q': Ring, calls: seq<Call>, answers: seq<Answer>, answer: Answer)
    requires |answers| < |calls| && Holds(q, GaveUpOn(capture, calls, answers))
    requires Counted(q, q', calls[|answers|].Capture? == capture && Leaves(answer))
    ensures Holds(q', GaveUpOn(capture, calls, answers + [answer]))
    ensures answer == Failed(SliceOutOfRange) ==> Holds(q', GaveUpOn(capture, calls, answers))
  {
    assert (answers + [answer])[..|answers|] == answers;
  }

  /**
   After any run, whatever exchange comes next on a queue, over any layout: its answer is its
   own for every device if and only if no call of the run gave up on that queue.
   */
  lemma NextAnswerIff(capture: bool, calls: seq<Call>, answers: seq<Answer>, q: Ring, block: seq<byte>, bufs: seq<Buf>, budget: nat)
    requires |answers| <= |calls| && Holds(q, GaveUpOn(capture, calls, answers))
    requires 0 < |bufs| <= FreeCount(q.desc)
    ensures (forall q' | AnsweredOver(q, block, bufs, budget, q') :: Own(q, q')) <==>
            (forall i | 0 <= i < |answers| && calls[i].Capture? == capture :: !Leaves(answers[i])) || budget == 0
  {
    NoneGaveUp(capture, calls, answers);
    AnswerIsOwnIff(q, block, bufs, budget);
  }

  /** The calls in which Go's slice panic is possible at all: those that compute a length of 2^32 or more. */
  predicate MayPanic(deviceStreams: u32, call: Call) {
    match call
    case Info(_) => deviceStreams * PCM_INFO_ENTRY_SIZE >= U32
    case List(ctl) => ctl.controls.Some? && ctl.controls.value * CTL_INFO_ENTRY_SIZE >= U32
    case SetControl(_, values, _) => 12 + 4 * |values| >= U32
    case Volume(_, _, _, _) => true
    case Capture(_, size, _) => size + 12 >= U32
    case _ => false
  }

  /**
   After any run the registry says of every stream what the calls' answers said: the
   parameters last accepted for it, and the info of the latest successful PCMInfo.  And as
   long as no call gave up, both queues are empty between calls, whatever the device refused;
   in any case each holds one chain for every call that gave up on it.  (`crashed`: the run
   ended in a slice panic.)
   */
  method Run(v: SyncSound, calls: seq<Call>) returns (answers: seq<Answer>, crashed: bool)
    requires v.Shaped() && Agrees(v.streams, []) && Quiet(v.ctrlq) && Quiet(v.rxq)
    modifies v
    ensures |answers| <= |calls| && (!crashed ==> |answers| == |calls|)
    ensures crashed ==> |answers| < |calls| && MayPanic(v.deviceStreams, calls[|answers|])
    ensures !crashed ==> Agrees(v.streams, Facts(calls, answers))
    ensures (forall i | 0 <= i < |answers| :: !GivesUp(calls[i], answers[i])) ==> crashed || (Quiet(v.ctrlq) && Quiet(v.rxq))
    ensures Holds(v.ctrlq, GaveUpOn(false, calls, answers)) && Holds(v.rxq, GaveUpOn(true, calls, answers))
  {
    hide Quiet, Agrees, FactOf, Recorded, Cached, Untyped, MayPanic, GivesUp, Holds, Counted, GaveUpOn, Leaves, Outstanding;
    QuietHolds(v.ctrlq, calls);
    QuietHolds(v.rxq, calls);
    answers, crashed := [], false;
    for i := 0 to |calls|
      invariant |answers| == i && v.Shaped()
      invariant Agrees(v.streams, Facts(calls, answers))
      invariant (forall j | 0 <= j < i :: !GivesUp(calls[j], answers[j])) ==> Quiet(v.ctrlq) && Quiet(v.rxq)
      invariant Holds(v.ctrlq, GaveUpOn(false, calls, answers)) && Holds(v.rxq, GaveUpOn(true, calls, answers))
    {
      ghost var history := Facts(calls, answers);
      ghost var ctrlq, rxq := v.ctrlq, v.rxq;
      var answer := Step(v, calls[i], history);
      HoldsMore(false, ctrlq, v.ctrlq, calls, answers, answer);
      HoldsMore(true, rxq, v.rxq, calls, answers, answer);
      if answer == Failed(SliceOutOfRange) {
        return answers, true;
      }
      ghost var before := answers;
      answers := answers + [answer];
      assert answers[..i] == before;
    }
  }

  /** One call. */
  method Step(v: SyncSound, call: Call, ghost history: seq<Fact>) returns (answer: Answer)
    requires v.Shaped() && Agrees(v.streams, history)
    modifies v
    ensures v.Shaped()
    ensures answer == Failed(SliceOutOfRange) ==> MayPanic(v.deviceStreams, call)
    ensures answer != Failed(SliceOutOfRange) ==> Agrees(v.streams, history + FactOf(call, answer))
    ensures old(Quiet(v.ctrlq) && Quiet(v.rxq)) && !GivesUp(call, answer) && answer != Failed(SliceOutOfRange) ==> Quiet(v.ctrlq) && Quiet(v.rxq)
    ensures Counted(old(v.ctrlq), v.ctrlq, !call.Capture? && Leaves(answer))
    ensures Counted(old(v.rxq), v.rxq, call.Capture? && Leaves(answer))
  {
    hide Quiet, Agrees, CtrlOutcome, Commanded, RxOutcome, Recorded, Cached, Untyped;
    hide Counted, Logs, AnsweredOver, RunsPast, Extends, Outstanding, FreeCount, U32At;
    hide Moves, CommandDone, QueryExchange, CtrlWhy, WriteWhy, ListingWhy, ParamsWhy, InfosRead, ListingRead, ValidateParams;
    CountedSelf(v.ctrlq, []);
    CountedSelf(v.rxq, []);
    assert history + [] == history;
    match call
    case Info(env) => answer := InfoStep(v, env, history);
    case SetParams(streamID, params, env) => answer := ParamsStep(v, streamID, params, env, history);
    case SetTyped(streamID, typed, env) => answer := TypedStep(v, streamID, typed, env, history);
    case List(ctl) =>
      ghost var q := v.ctrlq;
      var r := v.Controls(ctl);
      answer := if r.Ok? then Listed(r.value) else Failed(r.error);
      if Quiet(q) {
        v.ListQuiet(q, v.ctrlq, ctl.controls, r);
      }
    case SetControl(id, values, ctl) =>
      ghost var q := v.ctrlq;
      var r := v.ControlWrite(id, values, ctl);
      answer := Settled(r);
      if Quiet(q) {
        CommandQuiet(q, v.ctrlq, CtlWriteReq(id, values), r);
      }
    case Volume(streamID, percent, ctl, second) => answer := VolumeStep(v, streamID, percent, ctl, second);
    case Capture(streamID, size, env) => answer := CaptureStep(v, streamID, size, env);
  }

  function Settled(r: Result<(), SoundError>): Answer {
    if r.Ok? then Done else Failed(r.error)
  }

  method ParamsStep(v: SyncSound, streamID: u32, params: PCMParams, env: Env, ghost history: seq<Fact>) returns (answer: Answer)
    requires v.Shaped() && Agrees(v.streams, history)
    modifies v`ctrlq, v`streams
    ensures v.Shaped() && (answer.Done? || answer.Failed?) && answer != Failed(SliceOutOfRange)
    ensures Agrees(v.streams, history + if answer.Done? then [Accepted(streamID, params)] else [])
    ensures old(Quiet(v.ctrlq)) ==> Quiet(v.ctrlq) || (answer.Failed? && answer.error in {ErrControlTimeout, ErrNotify, SliceOutOfRange})
    ensures Counted(old(v.ctrlq), v.ctrlq, Leaves(answer))
  {
    hide Quiet, Agrees, Commanded, Recorded, Untyped, PCMSetParamsReq, Counted, CommandDone, ParamsWhy, ValidateParams, Extends;
    ghost var q, streams := v.ctrlq, v.streams;
    assert history + [] == history;
    var r := v.PCMSetParams(streamID, params, env);
    answer := Settled(r);
    if r.Ok? {
      AgreesAccepted(streams, v.streams, history, streamID, params);
    }
    if Quiet(q) {
      CommandQuiet(q, v.ctrlq, PCMSetParamsReq(streamID, params), r);
    }
  }

  method TypedStep(v: SyncSound, streamID: u32, typed: TypedPCMParams, env: Env, ghost history: seq<Fact>) returns (answer: Answer)
    requires v.Shaped() && Agrees(v.streams, history)
    modifies v`ctrlq, v`streams
    ensures v.Shaped() && (answer.Done? || answer.Failed?) && answer != Failed(SliceOutOfRange)
    ensures Agrees(v.streams, history + if answer.Done? then [Accepted(streamID, Untyped(typed))] else [])
    ensures old(Quiet(v.ctrlq)) ==> Quiet(v.ctrlq) || (answer.Failed? && answer.error in {ErrControlTimeout, ErrNotify, SliceOutOfRange})
    ensures Counted(old(v.ctrlq), v.ctrlq, Leaves(answer))
  {
    hide Quiet, Agrees, Commanded, Recorded, Untyped, PCMSetParamsReq, Counted, CommandDone, ParamsWhy, ValidateParams, Extends;
    ghost var q, streams := v.ctrlq, v.streams;
    assert history + [] == history;
    var r := v.PCMSetParamsTyped(streamID, typed, env);
    answer := Settled(r);
    if r.Ok? {
      AgreesAccepted(streams, v.streams, history, streamID, Untyped(typed));
    }
    if Quiet(q) {
      CommandQuiet(q, v.ctrlq, PCMSetParamsReq(streamID, Untyped(typed)), r);
    }
  }

  method InfoStep(v: SyncSound, env: Env, ghost history: seq<Fact>) returns (answer: Answer)
    requires v.Shaped() && Agrees(v.streams, history)
    modifies v`ctrlq, v`streams
    ensures v.Shaped()
    ensures answer == Failed(SliceOutOfRange) ==> v.deviceStreams * PCM_INFO_ENTRY_SIZE >= U32
    ensures answer != Failed(SliceOutOfRange) ==> Agrees(v.streams, history + FactOf(Info(env), answer))
    ensures old(Quiet(v.ctrlq)) ==> Quiet(v.ctrlq) || (answer.Failed? && answer.error in {ErrControlTimeout, ErrNotify, SliceOutOfRange})
    ensures Counted(old(v.ctrlq), v.ctrlq, Leaves(answer))
  {
    hide Quiet, Agrees, CtrlOutcome, Cached, Counted, Logs, Moves, QueryExchange, CtrlWhy, InfosRead;
    ghost var q, streams := v.ctrlq, v.streams;
    var r := v.PCMInfo(env);
    answer := if r.Ok? then Told(r.value) else Failed(r.error);
    assert history + [] == history;
    if r.Ok? {
      AgreesLearned(streams, v.streams, history, r.value);
    }
    if Quiet(q) && v.deviceStreams > 0 {
      InfoQuiet(v, q, v.ctrlq, r);
    }
  }

  method VolumeStep(v: SyncSound, streamID: u32, percent: byte, ctl: CtlEnv, second: CtlEnv) returns (answer: Answer)
    modifies v`ctrlq
    ensures answer.Done? || answer.Failed?
    ensures old(Quiet(v.ctrlq)) ==> Quiet(v.ctrlq) || (answer.Failed? && answer.error in {ErrControlTimeout, ErrNotify, SliceOutOfRange})
    ensures Counted(old(v.ctrlq), v.ctrlq, Leaves(answer))
  {
    hide Quiet, Commanded, CtlWriteReq, Counted, Logs, Moves, CommandDone, WriteWhy, ListingWhy, ListingRead;
    ghost var q := v.ctrlq;
    var r, listed, at, middle := v.SetVolume(streamID, percent, ctl, second);
    answer := Settled(r);
    if Quiet(q) && percent <= 100 && v.controlsNegotiated {
      v.ListQuiet(q, middle, ctl.controls, listed);
      if v.ctrlq != middle {
        CommandQuiet(middle, v.ctrlq, CtlWriteReq(at, v.AllChannels(listed.value[at], percent)), r);
      }
    }
  }

  method CaptureStep(v: SyncSound, streamID: u32, size: nat, env: Env) returns (answer: Answer)
    modifies v`rxq
    ensures answer.Captured? || answer.Failed?
    ensures answer == Failed(SliceOutOfRange) ==> size + 12 >= U32
    ensures old(Quiet(v.rxq)) && size + 12 < U32 ==>
              Quiet(v.rxq) || (answer.Failed? && answer.error in {ErrXferTimeout, ErrNotify})
    ensures Counted(old(v.rxq), v.rxq, Leaves(answer))
  {
    hide Quiet, RxOutcome, Counted, Logs, RunsPast, Extends, RxExchange, FreeCount, U32At;
    ghost var q := v.rxq;
    var buf := new byte[size](_ => 0);
    var r := v.Read(streamID, buf, env);
    answer := if r.Ok? then Captured(buf[..r.value]) else Failed(r.error);
    if Quiet(q) && 0 < size && size + 12 < U32 {
      RxQuiet(q, v.rxq, streamID, size, r, if r.Ok? then buf[..r.value] else []);
    }
  }

  lemma InfoQuiet(v: SyncSound, q: Ring, q': Ring, r: Result<seq<PCMInfoEntry>, SoundError>)
    requires v.InfoOutcome(q, q', r)
    ensures Quiet(q') || (r.Err? && r.error in {ErrControlTimeout, ErrNotify, SliceOutOfRange})
  {
    hide CtrlOutcome, Quiet;
    var req, extra := QueryInfoReq(R_PCM_INFO, 0, v.deviceStreams, PCM_INFO_ENTRY_SIZE), Wrap32(v.deviceStreams * PCM_INFO_ENTRY_SIZE);
    var exchange :| CtrlOutcome(q, q', req, extra, exchange) && v.Answering(exchange, r);
    CtrlQuiet(q, q', req, extra, exchange);
  }

  lemma RxQuiet(q: Ring, q': Ring, streamID: u32, n: nat, r: Result<nat, SoundError>, data: seq<byte>)
    requires RxOutcome(q, q', streamID, n, r, data)
    ensures Quiet(q') || (r.Err? && r.error in {ErrXferTimeout, ErrNotify})
  {
  }
}
