/** The wire records of messages.go and controls.go, and arrays of them. */
module Messages {
  import opened Wrappers
  import opened Bytes
  import opened Types

  const R_PCM_INFO: u32 := 0x0100
  const R_PCM_SET_PARAMS: u32 := 0x0101
  const R_CTL_INFO: u32 := 0x0300
  const R_CTL_WRITE: u32 := 0x0303

  const PCM_INFO_ENTRY_SIZE: nat := 32
  const CTL_INFO_ENTRY_SIZE: nat := 88
  const CONTROL_NAME_MAX_LEN: nat := 44

  const N_RATES: nat := 14
  const N_FORMATS: nat := 21

  // ---------------------------------------------------------------------------
  // Requests
  // ---------------------------------------------------------------------------

  function QueryInfoReq(code: u32, startID: u32, count: u32, entrySize: u32): (b: seq<byte>)
    ensures |b| == 16
  {
    Le32(code) + Le32(startID) + Le32(count) + Le32(entrySize)
  }

  /** A device reads back what is asked for, and of which streams or controls. */
  lemma QueryInfoReqReads(code: u32, startID: u32, count: u32, entrySize: u32)
    ensures var b := QueryInfoReq(code, startID, count, entrySize);
            U32At(b, 0) == code && U32At(b, 4) == startID && U32At(b, 8) == count && U32At(b, 12) == entrySize
  {
    hide Le32, U32At;
    Le32RoundTrip(code);
    Append32(Le32(code), startID);
    Append32(Le32(code) + Le32(startID), count);
    Append32(Le32(code) + Le32(startID) + Le32(count), entrySize);
  }

  datatype PCMParams = PCMParams(bufferBytes: u32, periodBytes: u32, features: u32, channels: byte, format: byte, rate: byte)

  function PCMSetParamsReq(streamID: u32, p: PCMParams): (b: seq<byte>)
    ensures |b| == 24
  {
    Le32(R_PCM_SET_PARAMS) + Le32(streamID) + Le32(p.bufferBytes) + Le32(p.periodBytes) + Le32(p.features)
    + [p.channels, p.format, p.rate, 0]
  }

  /** How a device reads struct virtio_snd_pcm_set_params. */
  function ReadPCMSetParamsReq(b: seq<byte>): (r: (u32, u32, PCMParams))
    requires |b| == 24
  {
    (U32At(b, 0), U32At(b, 4), PCMParams(U32At(b, 8), U32At(b, 12), U32At(b, 16), b[20], b[21], b[22]))
  }

  /** le.PutUint32(b[off:off+4], x) */
  method PutUint32(b: array<byte>, off: nat, x: u32)
    requires off + 4 <= b.Length
    modifies b
    ensures b[..off + 4] == old(b[..off]) + Le32(x) && b[off + 4..] == old(b[off + 4..])
  {
    hide PutLe;
    var v := Le32(x);
    b[off], b[off + 1], b[off + 2], b[off + 3] := v[0], v[1], v[2], v[3];
  }

  /** buildPCMSetParamsReq */
  method BuildPCMSetParamsReq(streamID: u32, p: PCMParams) returns (req: seq<byte>)
    ensures req == PCMSetParamsReq(streamID, p)
  {
    hide Le32;
    var b := new byte[24](_ => 0);
    PutUint32(b, 0, R_PCM_SET_PARAMS);
    PutUint32(b, 4, streamID);
    PutUint32(b, 8, p.bufferBytes);
    PutUint32(b, 12, p.periodBytes);
    PutUint32(b, 16, p.features);
    ghost var head := b[..20];
    b[20], b[21], b[22], b[23] := p.channels, p.format, p.rate, 0;
    assert b[..] == head + [p.channels, p.format, p.rate, 0];
    return b[..];
  }

  /** Every field of a SET_PARAMS request arrives where the device looks for it. */
  lemma SetParamsRequestRoundTrip(streamID: u32, p: PCMParams)
    ensures ReadPCMSetParamsReq(PCMSetParamsReq(streamID, p)) == (R_PCM_SET_PARAMS, streamID, p)
    ensures var b := PCMSetParamsReq(streamID, p);
            && U32At(b, 0) == R_PCM_SET_PARAMS && U32At(b, 4) == streamID
            && U32At(b, 8) == p.bufferBytes && U32At(b, 12) == p.periodBytes && U32At(b, 16) == p.features
            && b[20] == p.channels && b[21] == p.format && b[22] == p.rate && b[23] == 0
  {
    hide Le32, U32At, U64At;
    Le32RoundTrip(R_PCM_SET_PARAMS);
    var s0 := Le32(R_PCM_SET_PARAMS);
    var s1 := s0 + Le32(streamID);
    var s2 := s1 + Le32(p.bufferBytes);
    var s3 := s2 + Le32(p.periodBytes);
    Append32(s0, streamID);
    Append32(s1, p.bufferBytes);
    Append32(s2, p.periodBytes);
    Append32(s3, p.features);
    AppendKeeps(s3 + Le32(p.features), [p.channels, p.format, p.rate, 0]);
  }

  // ---------------------------------------------------------------------------
  // PCM info records
  // ---------------------------------------------------------------------------

  datatype PCMInfoEntry = PCMInfoEntry(
    hdaFnGroup: u32, features: u32, formats: u64, rates: u64, direction: byte, channelsMin: byte, channelsMax: byte)

  function DecodePCMInfo(b: seq<byte>): PCMInfoEntry
    requires |b| >= PCM_INFO_ENTRY_SIZE
  {
    PCMInfoEntry(U32At(b, 0), U32At(b, 4), U64At(b, 8), U64At(b, 16), b[24], b[25], b[26])
  }

  function ParsePCMInfoEntry(b: seq<byte>): (r: Result<PCMInfoEntry, SoundError>) {
    if |b| < PCM_INFO_ENTRY_SIZE then Err(ErrShortResponse) else Ok(DecodePCMInfo(b))
  }

  /** struct virtio_snd_pcm_info with padding `pad`. */
  function EncodePCMInfo(e: PCMInfoEntry, pad: seq<byte>): (b: seq<byte>)
    requires |pad| == 5
    ensures |b| == PCM_INFO_ENTRY_SIZE
  {
    Le32(e.hdaFnGroup) + Le32(e.features) + Le64(e.formats) + Le64(e.rates) + [e.direction, e.channelsMin, e.channelsMax] + pad
  }

  lemma PCMInfoRoundTrip(e: PCMInfoEntry, pad: seq<byte>)
    requires |pad| == 5
    ensures DecodePCMInfo(EncodePCMInfo(e, pad)) == e
    // the fields of struct virtio_snd_pcm_info, at their offsets
    ensures var b := EncodePCMInfo(e, pad);
            && U32At(b, 0) == e.hdaFnGroup && U32At(b, 4) == e.features && U64At(b, 8) == e.formats && U64At(b, 16) == e.rates
            && b[24] == e.direction && b[25] == e.channelsMin && b[26] == e.channelsMax
  {
    hide Le32, Le64, U32At, U64At;
    Le32RoundTrip(e.hdaFnGroup);
    var s0 := Le32(e.hdaFnGroup);
    var s1 := s0 + Le32(e.features);
    var s2 := s1 + Le64(e.formats);
    var s3 := s2 + Le64(e.rates);
    var s4 := s3 + [e.direction, e.channelsMin, e.channelsMax];
    Append32(s0, e.features);
    Append64(s1, e.formats);
    Append64(s2, e.rates);
    AppendKeeps(s3, [e.direction, e.channelsMin, e.channelsMax]);
    AppendKeeps(s4, pad);
  }

  // ---------------------------------------------------------------------------
  // Control info records
  // ---------------------------------------------------------------------------

  /** A control; `name` is the Go string's bytes. */
  datatype Control = Control(
    id: u32, hda: seq<byte>, role: u32, kind: u32, access: u32, numChannels: u32, min: u32, max: u32, step: u32, name: seq<byte>)

  function TrimNul(b: seq<byte>): (s: seq<byte>)
    ensures |s| <= |b|
  {
    if |b| > 0 && b[|b| - 1] == 0 then TrimNul(b[..|b| - 1]) else b
  }

  /** Only trailing NULs go, and all of them. */
  lemma {:induction false} TrimNulIs(b: seq<byte>)
    ensures TrimNul(b) <= b
    ensures |TrimNul(b)| > 0 ==> b[|TrimNul(b)| - 1] != 0
    ensures forall i | |TrimNul(b)| <= i < |b| :: b[i] == 0
  {
    if |b| > 0 && b[|b| - 1] == 0 {
      TrimNulIs(b[..|b| - 1]);
    }
  }

  function DecodeControl(b: seq<byte>): Control
    requires |b| >= CTL_INFO_ENTRY_SIZE
  {
    Control(0, b[0..16], U32At(b, 16), U32At(b, 20), U32At(b, 24), U32At(b, 28), U32At(b, 32), U32At(b, 36), U32At(b, 40),
            TrimNul(b[44..44 + CONTROL_NAME_MAX_LEN]))
  }

  method ParseControlInfoEntry(b: seq<byte>) returns (r: Result<Control, SoundError>)
    ensures r == if |b| < CTL_INFO_ENTRY_SIZE then Err(ErrShortResponse) else Ok(DecodeControl(b))
  {
    if |b| < CTL_INFO_ENTRY_SIZE {
      return Err(ErrShortResponse);
    }
    var nameBytes := b[44..44 + CONTROL_NAME_MAX_LEN];
    var n: nat := |nameBytes|;
    assert nameBytes[..n] == nameBytes;
    while n > 0 && nameBytes[n - 1] == 0
      invariant n <= |nameBytes| && TrimNul(nameBytes[..n]) == TrimNul(nameBytes)
    {
      assert nameBytes[..n][..n - 1] == nameBytes[..n - 1];
      n := n - 1;
    }
    assert TrimNul(nameBytes[..n]) == nameBytes[..n];
    return Ok(Control(0, b[0..16], U32At(b, 16), U32At(b, 20), U32At(b, 24), U32At(b, 28), U32At(b, 32), U32At(b, 36), U32At(b, 40),
                      nameBytes[..n]));
  }

  /** The controls a device can describe exactly: a 16-byte hda field and a name of at most 44 bytes. */
  predicate Describable(c: Control) {
    |c.hda| == 16 && |c.name| <= CONTROL_NAME_MAX_LEN
  }

  function EncodeControl(c: Control): (b: seq<byte>)
    requires Describable(c)
    ensures |b| == CTL_INFO_ENTRY_SIZE
  {
    c.hda + Le32(c.role) + Le32(c.kind) + Le32(c.access) + Le32(c.numChannels) + Le32(c.min) + Le32(c.max) + Le32(c.step)
    + (c.name + Zeros(CONTROL_NAME_MAX_LEN - |c.name|))
  }

  lemma {:induction false} TrimPadding(s: seq<byte>, n: nat)
    ensures TrimNul(s + Zeros(n)) == TrimNul(s)
    decreases n
  {
    if n > 0 {
      assert (s + Zeros(n))[..|s| + n - 1] == s + Zeros(n - 1);
      TrimPadding(s, n - 1);
    } else {
      assert s + Zeros(0) == s;
    }
  }

  /** Decoding gives back every field, the name up to trailing NULs. */
  lemma ControlRoundTrip(c: Control)
    requires Describable(c)
    ensures DecodeControl(EncodeControl(c)) == c.(id := 0, name := TrimNul(c.name))
    // the fields of the record, at their offsets
    ensures var b := EncodeControl(c);
            && b[..16] == c.hda && U32At(b, 16) == c.role && U32At(b, 20) == c.kind && U32At(b, 24) == c.access
            && U32At(b, 28) == c.numChannels && U32At(b, 32) == c.min && U32At(b, 36) == c.max && U32At(b, 40) == c.step
            && b[44..44 + |c.name|] == c.name && forall i | 44 + |c.name| <= i < 88 :: b[i] == 0
  {
    hide Le32, U32At, U64At, TrimNul;
    var n := c.name + Zeros(CONTROL_NAME_MAX_LEN - |c.name|);
    var s0 := c.hda;
    var s1 := s0 + Le32(c.role);
    var s2 := s1 + Le32(c.kind);
    var s3 := s2 + Le32(c.access);
    var s4 := s3 + Le32(c.numChannels);
    var s5 := s4 + Le32(c.min);
    var s6 := s5 + Le32(c.max);
    var s7 := s6 + Le32(c.step);
    Append32(s0, c.role);
    Append32(s1, c.kind);
    Append32(s2, c.access);
    Append32(s3, c.numChannels);
    Append32(s4, c.min);
    Append32(s5, c.max);
    Append32(s6, c.step);
    AppendKeeps(s7, n);
    assert (s7 + n)[44..88] == n && n[..|c.name|] == c.name;
    assert forall i | 44 <= i < 88 :: (s7 + n)[i] == n[i - 44];
    assert (s7 + n)[0..16] == c.hda;
    TrimPadding(c.name, CONTROL_NAME_MAX_LEN - |c.name|);
  }

  // ---------------------------------------------------------------------------
  // Arrays of records
  // ---------------------------------------------------------------------------

  function Concat(blocks: seq<seq<byte>>): (b: seq<byte>) {
    if |blocks| == 0 then [] else Concat(blocks[..|blocks| - 1]) + blocks[|blocks| - 1]
  }

  /** n * size, as a sum. */
  function Rows(n: nat, size: nat): nat {
    if n == 0 then 0 else Rows(n - 1, size) + size
  }

  lemma {:induction false} RowsIsProduct(n: nat, size: nat)
    ensures Rows(n, size) == n * size
  {
    if n > 0 {
      RowsIsProduct(n - 1, size);
    }
  }

  /** Block i of a concatenation starts after the blocks before it. */
  lemma {:induction false} BlockOfConcat(blocks: seq<seq<byte>>, size: nat, i: nat)
    requires i < |blocks| && forall k | 0 <= k < |blocks| :: |blocks[k]| == size
    ensures |Concat(blocks)| == Rows(|blocks|, size)
    ensures Rows(i, size) + size <= |Concat(blocks)|
    ensures Concat(blocks)[Rows(i, size)..Rows(i, size) + size] == blocks[i]
  {
    var n := |blocks| - 1;
    var init := blocks[..n];
    if i < n {
      BlockOfConcat(init, size, i);
    } else if n > 0 {
      BlockOfConcat(init, size, 0);
    }
  }

  /** Record i of a payload of equal-sized records. */
  lemma RecordOfConcat(blocks: seq<seq<byte>>, size: nat, i: nat)
    requires i < |blocks| && forall k | 0 <= k < |blocks| :: |blocks[k]| == size
    ensures |Concat(blocks)| == |blocks| * size
    ensures i * size + size <= |Concat(blocks)| && Concat(blocks)[i * size..i * size + size] == blocks[i]
  {
    hide Concat, Rows;
    BlockOfConcat(blocks, size, i);
    RowsIsProduct(i, size);
    RowsIsProduct(|blocks|, size);
  }

  /** What a PCM_INFO payload says of streams 0..count-1, and a CTL_INFO payload of as many controls. */
  function PCMInfos(payload: seq<byte>, count: nat): (es: seq<PCMInfoEntry>)
    requires count * PCM_INFO_ENTRY_SIZE <= |payload|
    ensures |es| == count
  {
    seq(count, i requires 0 <= i < count => DecodePCMInfo(payload[i * PCM_INFO_ENTRY_SIZE..(i + 1) * PCM_INFO_ENTRY_SIZE]))
  }

  function DecodeControls(payload: seq<byte>, count: nat): (cs: seq<Control>)
    requires count * CTL_INFO_ENTRY_SIZE <= |payload| && count < U32
    ensures |cs| == count
  {
    seq(count, i requires 0 <= i < count =>
      DecodeControl(payload[i * CTL_INFO_ENTRY_SIZE..(i + 1) * CTL_INFO_ENTRY_SIZE]).(id := i))
  }

  /** Decoding the payload of a sequence of PCM records returns that sequence, whatever their padding. */
  lemma PCMInfosRoundTrip(es: seq<PCMInfoEntry>, pads: seq<seq<byte>>, blocks: seq<seq<byte>>)
    requires |es| == |pads| == |blocks|
    requires forall i | 0 <= i < |es| :: |pads[i]| == 5 && blocks[i] == EncodePCMInfo(es[i], pads[i])
    ensures |Concat(blocks)| == |es| * PCM_INFO_ENTRY_SIZE
    ensures PCMInfos(Concat(blocks), |es|) == es
  {
    hide DecodePCMInfo, EncodePCMInfo;
    ConcatLength(blocks, PCM_INFO_ENTRY_SIZE);
    forall i | 0 <= i < |es|
      ensures PCMInfos(Concat(blocks), |es|)[i] == es[i]
    {
      RecordOfConcat(blocks, PCM_INFO_ENTRY_SIZE, i);
      PCMInfoRoundTrip(es[i], pads[i]);
    }
  }

  /**
   Decoding the payload of a sequence of control records returns that sequence, ids being
   positions and names up to trailing NULs.
   */
  lemma ControlsRoundTrip(cs: seq<Control>, blocks: seq<seq<byte>>)
    requires |cs| == |blocks| < U32
    requires forall i | 0 <= i < |cs| :: Describable(cs[i]) && blocks[i] == EncodeControl(cs[i])
    ensures |Concat(blocks)| == |cs| * CTL_INFO_ENTRY_SIZE
    ensures forall i | 0 <= i < |cs| ::
              DecodeControls(Concat(blocks), |cs|)[i] == cs[i].(id := i, name := TrimNul(cs[i].name))
  {
    hide DecodeControl, EncodeControl, TrimNul;
    ConcatLength(blocks, CTL_INFO_ENTRY_SIZE);
    forall i | 0 <= i < |cs|
      ensures DecodeControls(Concat(blocks), |cs|)[i] == cs[i].(id := i, name := TrimNul(cs[i].name))
    {
      RecordOfConcat(blocks, CTL_INFO_ENTRY_SIZE, i);
      ControlRoundTrip(cs[i]);
    }
  }

  lemma ConcatLength(blocks: seq<seq<byte>>, size: nat)
    requires forall k | 0 <= k < |blocks| :: |blocks[k]| == size
    ensures |Concat(blocks)| == |blocks| * size
  {
    if |blocks| > 0 {
      RecordOfConcat(blocks, size, 0);
    }
  }

  // ---------------------------------------------------------------------------
  // Writing a control
  // ---------------------------------------------------------------------------

  type int32 = x: int | -0x8000_0000 <= x < 0x8000_0000

  /** uint32(v) and int32(x) */
  function Unsigned(v: int32): (x: u32) {
    if v >= 0 then v else v + 0x1_0000_0000
  }

  function Signed(x: u32): (v: int32)
    ensures Unsigned(v) == x
  {
    if x < 0x8000_0000 then x else x - 0x1_0000_0000
  }

  /** Two's complement: the word and the value differ by a multiple of 2^32. */
  lemma TwosComplement(v: int32, x: u32)
    ensures (Unsigned(v) - v) % U32 == 0 && (Signed(x) - x) % U32 == 0
    ensures Signed(Unsigned(v)) == v && Unsigned(Signed(x)) == x
  {
  }

  function Words(values: seq<int32>): (b: seq<byte>)
    ensures |b| == 4 * |values|
  {
    if |values| == 0 then [] else Words(values[..|values| - 1]) + Le32(Unsigned(values[|values| - 1]))
  }

  function CtlWriteReq(controlID: u32, values: seq<int32>): (b: seq<byte>)
    ensures |b| == 8 + 4 * |values|
  {
    Le32(R_CTL_WRITE) + Le32(controlID) + Words(values)
  }

  /** A device reads back the control id and every channel's value. */
  lemma CtlWriteReqReads(controlID: u32, values: seq<int32>, i: nat)
    requires i < |values|
    ensures var b := CtlWriteReq(controlID, values);
            U32At(b, 0) == R_CTL_WRITE && U32At(b, 4) == controlID && Signed(U32At(b, 8 + 4 * i)) == values[i]
  {
    hide Le32, U32At;
    var h := Le32(R_CTL_WRITE) + Le32(controlID);
    Le32RoundTrip(R_CTL_WRITE);
    Append32(Le32(R_CTL_WRITE), controlID);
    AppendKeeps(h, Words(values));
    WordAt(h, values, i);
  }

  lemma {:induction false} WordAt(h: seq<byte>, values: seq<int32>, i: nat)
    requires i < |values|
    ensures U32At(h + Words(values), |h| + 4 * i) == Unsigned(values[i])
  {
    hide Le32, U32At;
    var n := |values| - 1;
    var p := h + Words(values[..n]);
    assert h + Words(values) == p + Le32(Unsigned(values[n]));
    Append32(p, Unsigned(values[n]));
    if i < n {
      WordAt(h, values[..n], i);
    }
  }

  /**
   buildCtlWriteReq: the length is computed in 32 bits, so the buffer holds the request
   exactly when its true length is below 2^32; otherwise a store falls outside the slice.
   */
  method BuildCtlWriteReq(controlID: u32, values: seq<int32>) returns (r: Result<seq<byte>, SoundError>)
    ensures r == if 8 + 4 * |values| < U32 then Ok(CtlWriteReq(controlID, values)) else Err(SliceOutOfRange)
  {
    hide Le32, Words;
    var size := Wrap32(8 + Wrap32(4 * |values|));
    WrappedSize(|values|);
    var b := new byte[size](_ => 0);
    if size < 8 {
      return Err(SliceOutOfRange);
    }
    PutUint32(b, 0, R_CTL_WRITE);
    PutUint32(b, 4, controlID);
    NoWords();
    for i := 0 to |values|
      invariant 8 + 4 * i <= b.Length == size
      invariant b[..8 + 4 * i] == Le32(R_CTL_WRITE) + Le32(controlID) + Words(values[..i])
    {
      var off := 8 + 4 * i;
      if off + 4 > b.Length {
        return Err(SliceOutOfRange);
      }
      PutUint32(b, off, Unsigned(values[i]));
      MoreWords(Le32(R_CTL_WRITE) + Le32(controlID), values, i);
    }
    assert values[..|values|] == values;
    assert b[..] == b[..8 + 4 * |values|];
    return Ok(b[..]);
  }

  lemma NoWords()
    ensures Words([]) == []
  {
  }

  lemma MoreWords(h: seq<byte>, values: seq<int32>, i: nat)
    requires i < |values|
    ensures h + Words(values[..i + 1]) == h + Words(values[..i]) + Le32(Unsigned(values[i]))
  {
    assert values[..i + 1][..i] == values[..i];
  }

  lemma WrappedSize(n: nat)
    ensures var size := Wrap32(8 + Wrap32(4 * n));
            if 8 + 4 * n < U32 then size == 8 + 4 * n else size < 8 + 4 * n
  {
    if 8 + 4 * n >= U32 {
      assert Wrap32(4 * n) <= 4 * n;
      assert Wrap32(8 + Wrap32(4 * n)) < U32;
    }
  }
}
