/** The driver's records, its sentinel errors and what its environment answers. */
module Types {
  import opened Bytes
  import opened Wrappers
  import opened Virtqueue

  datatype SoundError =
    | ErrAlloc | ErrAllocReturnedZero | ErrBufferTooSmall | ErrQueueFull | ErrNotify
    | ErrXferTimeout | ErrControlTimeout | ErrDeviceStatus | ErrShortResponse
    | ErrStreamIDOutOfRange
    | ErrUnsupportedRate | ErrUnsupportedFormat | ErrUnsupportedChannelCount
    | ErrInvalidRateValue | ErrInvalidFormatValue
    | ErrConfigRead | ErrControlsNotNegotiated | ErrInvalidControlID | ErrInvalidControlValues | ErrInvalidVolumePercent
    | SliceOutOfRange  // not a sentinel: the Go run-time panic of an out-of-range slice

  /** What AllocatePages answers: an error, physical address zero, or a zeroed block of so many bytes. */
  datatype Alloc = AllocFails | AllocZero | Block(bytes: nat)

  /** Why an allocation does not do for a buffer of `total` bytes, if it does not. */
  function Refused(alloc: Alloc, total: nat): Option<SoundError> {
    match alloc
    case AllocFails => Some(ErrAlloc)
    case AllocZero => Some(ErrAllocReturnedZero)
    case Block(bytes) => if total > bytes then Some(ErrBufferTooSmall) else None
  }

  /**
   The environment of one data-path call: what the allocation and the doorbell write answer,
   and what the device is about to complete before each poll of the call.  Past the end of
   `device` it does nothing.
   */
  datatype Env = Env(alloc: Alloc, doorbell: bool, device: seq<seq<Completion>>)

  const SOK: u32 := 0x8000

  const PCM_XFER_HDR_SIZE: nat := 4
  const PCM_STATUS_SIZE: nat := 8
  const HDR_SIZE: nat := 4
  const PAGE_SIZE: nat := 4096

  /** A chain a Write gave up on: `mem` is the block its buffers lie in. */
  datatype Parked = Parked(head: nat, page: nat, statusOff: nat)

  /** A WriteAsync chain in flight; `page` and `blockLen` are its mem slice. */
  datatype Inflight = Inflight(streamID: u32, head: nat, page: nat, blockLen: nat, statusOff: nat, dataLen: nat)

  datatype EventKind =
    | WriteComplete | PeriodElapsed | Xrun | JackConnected | JackDisconnected | ControlChanged

  datatype Event = Event(kind: EventKind, streamID: u32, cookie: nat, bytesAccepted: nat, statusCode: u32, controlID: u32)
}
