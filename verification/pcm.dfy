/** Stream parameters (pcm.go): their validation against what a stream advertises, and their history. */
module Pcm {
  import opened Wrappers
  import opened Bytes
  import opened Types
  import opened Bits
  import opened Messages

  /** streamState: the cached info and the last accepted parameters, each once there are any. */
  datatype StreamState = StreamState(info: Option<PCMInfoEntry>, lastParams: Option<PCMParams>)

  // ---------------------------------------------------------------------------
  // Validation
  // ---------------------------------------------------------------------------

  /** validateParams, given the stream's cached info. */
  function ValidateParams(info: Option<PCMInfoEntry>, p: PCMParams): Result<(), SoundError> {
    match info
    case None => Ok(())
    case Some(e) =>
      if And(e.rates, Shl64(p.rate)) == 0 then Err(ErrUnsupportedRate)
      else if And(e.formats, Shl64(p.format)) == 0 then Err(ErrUnsupportedFormat)
      else if p.channels < e.channelsMin || p.channels > e.channelsMax then Err(ErrUnsupportedChannelCount)
      else Ok(())
  }

  /** The stream advertises the tuple: both ids are set in its bitmaps and the channel count is in its range. */
  predicate Advertises(e: PCMInfoEntry, p: PCMParams) {
    Bit(e.rates, p.rate) && Bit(e.formats, p.format) && e.channelsMin <= p.channels <= e.channelsMax
  }

  lemma ShiftTests(x: u64, k: nat)
    ensures And(x, Shl64(k)) == 0 <==> !Bit(x, k)
  {
    if k < 64 {
      AndPow2(x, k);
    } else {
      Pow2Monotone(k, 64);
      Pow64();
      NoHighBit(x, k);
    }
  }

  lemma Pow64()
    ensures Pow2(64) == U64
  {
    assert Pow2(8) == 0x100;
    assert Pow2(16) == 0x1_0000;
    assert Pow2(24) == 0x100_0000;
    assert Pow2(32) == 0x1_0000_0000;
    assert Pow2(40) == 0x100_0000_0000;
    assert Pow2(48) == 0x1_0000_0000_0000;
    assert Pow2(56) == 0x100_0000_0000_0000;
  }

  lemma {:induction false} NoHighBit(x: nat, k: nat)
    requires x < Pow2(k)
    ensures !Bit(x, k)
    decreases k
  {
    if k > 0 {
      NoHighBit(x / 2, k - 1);
    }
  }

  /** A cached info admits exactly the tuples it advertises; shifts past the 64-bit bitmap admit nothing. */
  lemma ValidateParamsIff(e: PCMInfoEntry, p: PCMParams)
    ensures ValidateParams(Some(e), p).Ok? <==> Advertises(e, p)
    ensures ValidateParams(Some(e), p).Ok? <==> Bit(e.rates, p.rate) && Bit(e.formats, p.format) && e.channelsMin <= p.channels <= e.channelsMax
    ensures ValidateParams(Some(e), p) == Err(ErrUnsupportedRate) <==> !Bit(e.rates, p.rate)
    ensures ValidateParams(Some(e), p) == Err(ErrUnsupportedFormat) <==> Bit(e.rates, p.rate) && !Bit(e.formats, p.format)
  {
    ShiftTests(e.rates, p.rate);
    ShiftTests(e.formats, p.format);
  }

  // ---------------------------------------------------------------------------
  // Typed parameters
  // ---------------------------------------------------------------------------

  /** Parameters whose rate and format are bitmaps. */
  datatype TypedPCMParams = TypedPCMParams(bufferBytes: u32, periodBytes: u32, features: u32, channels: byte, format: u64, rate: u64)

  function Untyped(p: TypedPCMParams): PCMParams {
    PCMParams(p.bufferBytes, p.periodBytes, p.features, p.channels, ByteID(p.format, N_FORMATS), ByteID(p.rate, N_RATES))
  }

  /** A single-bit value's id: its bit position if the table of n entries defines it, else 0xFF. */
  lemma SingleBitID(x: u64, n: nat) returns (k: nat)
    requires IsSingleBit(x) && n <= 64
    ensures x == Pow2(k) && ByteID(x, n) == if k < n then k else 0xFF
    ensures k < n <==> x < Pow2(n)
  {
    SingleBitIff(x);
    k :| x == Pow2(k);
    ByteIDRoundTrip(k, n);
    Pow2Monotone(k, n);
  }

  /**
   Once a stream's info is cached, typed parameters pass exactly when the rate and the format
   asked for are defined ones that the stream advertises and the channel count is in its
   range; and the ids sent are then those of the rate and the format asked for.
   */
  lemma TypedPassesIff(e: PCMInfoEntry, p: TypedPCMParams)
    requires IsSingleBit(p.rate) && IsSingleBit(p.format)
    ensures ValidateParams(Some(e), Untyped(p)).Ok? <==>
              && p.rate < Pow2(N_RATES) && And(e.rates, p.rate) != 0
              && p.format < Pow2(N_FORMATS) && And(e.formats, p.format) != 0
              && e.channelsMin <= p.channels <= e.channelsMax
    ensures ValidateParams(Some(e), Untyped(p)).Ok? ==> MeansTyped(Untyped(p), p) && Advertises(e, Untyped(p))
  {
    var q := Untyped(p);
    var j := SingleBitID(p.rate, N_RATES);
    var k := SingleBitID(p.format, N_FORMATS);
    ValidateParamsIff(e, q);
    AndPow2(e.rates, j);
    AndPow2(e.formats, k);
    Pow64();
    Pow2Monotone(0xFF, 64);
    NoHighBit(e.rates, 0xFF);
    NoHighBit(e.formats, 0xFF);
  }

  /** So what is sent, once the info is cached, means what was asked and is advertised. */
  lemma TypedSent(info: Option<PCMInfoEntry>, p: TypedPCMParams)
    requires IsSingleBit(p.rate) && IsSingleBit(p.format)
    ensures info.Some? && ValidateParams(info, Untyped(p)).Ok? ==> MeansTyped(Untyped(p), p) && Advertises(info.value, Untyped(p))
  {
    if info.Some? {
      TypedPassesIff(info.value, p);
    }
  }

  /** The ids in `q` are those of the rate and the format in `p`. */
  predicate MeansTyped(q: PCMParams, p: TypedPCMParams) {
    && Pow2(q.rate) == p.rate && Pow2(q.format) == p.format
    && q.channels == p.channels && q.bufferBytes == p.bufferBytes && q.periodBytes == p.periodBytes && q.features == p.features
  }

  /**
   Without cached info nothing is checked: the ids sent are those asked for exactly when both
   are in the defined tables; any other single bit goes out as 0xFF.
   */
  lemma TypedUncheckedIff(p: TypedPCMParams)
    requires IsSingleBit(p.rate) && IsSingleBit(p.format)
    ensures ValidateParams(None, Untyped(p)).Ok?
    ensures MeansTyped(Untyped(p), p) <==> p.rate < Pow2(N_RATES) && p.format < Pow2(N_FORMATS)
    ensures p.rate >= Pow2(N_RATES) ==> Untyped(p).rate == 0xFF
    ensures p.format >= Pow2(N_FORMATS) ==> Untyped(p).format == 0xFF
  {
    var j := SingleBitID(p.rate, N_RATES);
    var k := SingleBitID(p.format, N_FORMATS);
    Pow64();
    Pow2Monotone(64, 0xFF);
  }

  /** A rate just beyond the table: 2^14 is a single bit, is not refused, and goes out as 0xFF. */
  lemma RateBeyondTable(p: TypedPCMParams)
    requires p.rate == Pow2(14) && p.format == Pow2(5)
    ensures IsSingleBit(p.rate) && IsSingleBit(p.format)
    ensures ValidateParams(None, Untyped(p)).Ok? && Untyped(p).rate == 0xFF && Untyped(p).format == 5
  {
    assert IsPow2(p.rate) && IsPow2(p.format);
    SingleBitIff(p.rate);
    SingleBitIff(p.format);
    TypedUncheckedIff(p);
    ByteIDRoundTrip(5, N_FORMATS);
  }

  // ---------------------------------------------------------------------------
  // History
  // ---------------------------------------------------------------------------

  /** What a caller has seen succeed: an info query, or parameters set for one stream. */
  datatype Fact = Learned(infos: seq<PCMInfoEntry>) | Accepted(streamID: u32, params: PCMParams)

  /** The parameters of the last successful PCMSetParams for stream s. */
  function LastAccepted(history: seq<Fact>, s: u32): Option<PCMParams> {
    if |history| == 0 then None
    else
      var last := history[|history| - 1];
      if last.Accepted? && last.streamID == s then Some(last.params) else LastAccepted(history[..|history| - 1], s)
  }

  /** What the latest successful PCMInfo said of stream s. */
  function LatestInfo(history: seq<Fact>, s: u32): Option<PCMInfoEntry> {
    if |history| == 0 then None
    else
      var last := history[|history| - 1];
      if last.Learned? && s < |last.infos| then Some(last.infos[s]) else LatestInfo(history[..|history| - 1], s)
  }

  function ParamsOf(streams: seq<StreamState>, s: u32): Option<PCMParams> {
    if s < |streams| then streams[s].lastParams else None
  }

  function InfoOf(streams: seq<StreamState>, s: u32): Option<PCMInfoEntry> {
    if s < |streams| then streams[s].info else None
  }

  /** The registry says of every stream what the history says. */
  ghost predicate Agrees(streams: seq<StreamState>, history: seq<Fact>) {
    forall s: u32 :: ParamsOf(streams, s) == LastAccepted(history, s) && InfoOf(streams, s) == LatestInfo(history, s)
  }

  /** Setting parameters for one stream changes that stream's parameters and nothing else. */
  ghost predicate Recorded(streams: seq<StreamState>, streams': seq<StreamState>, streamID: u32, p: PCMParams) {
    forall s: u32 ::
      && InfoOf(streams', s) == InfoOf(streams, s)
      && ParamsOf(streams', s) == if s == streamID then Some(p) else ParamsOf(streams, s)
  }

  /** The infos of the streams below |infos| are replaced, and nothing else. */
  ghost predicate Cached(streams: seq<StreamState>, streams': seq<StreamState>, infos: seq<PCMInfoEntry>) {
    forall s: u32 ::
      && ParamsOf(streams', s) == ParamsOf(streams, s)
      && InfoOf(streams', s) == if s < |infos| then Some(infos[s]) else InfoOf(streams, s)
  }

  lemma NothingCached(streams: seq<StreamState>)
    ensures Cached(streams, streams, [])
  {
  }

  lemma AgreesAccepted(streams: seq<StreamState>, streams': seq<StreamState>, history: seq<Fact>, streamID: u32, p: PCMParams)
    requires Agrees(streams, history) && Recorded(streams, streams', streamID, p)
    ensures Agrees(streams', history + [Accepted(streamID, p)])
  {
    assert (history + [Accepted(streamID, p)])[..|history|] == history;
  }

  lemma AgreesLearned(streams: seq<StreamState>, streams': seq<StreamState>, history: seq<Fact>, infos: seq<PCMInfoEntry>)
    requires Agrees(streams, history) && Cached(streams, streams', infos)
    ensures Agrees(streams', history + [Learned(infos)])
  {
    assert (history + [Learned(infos)])[..|history|] == history;
  }
}
