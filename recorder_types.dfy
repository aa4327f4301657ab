/**
 * The records and constants the recorder header declares: the frames that
 * travel through the two encoder rings, the recorder configuration, and
 * the raw depth samples and the groups they are batched into.
 */
module RecorderTypes {
  import opened Wrappers

  type byte = bv8

  /** Fixed-width C++ integers as bounded mathematical integers. */
  type U32 = x: int | 0 <= x < 0x1_0000_0000
  type U64 = x: int | 0 <= x < 0x1_0000_0000_0000_0000
  type I64 = x: int | -0x8000_0000_0000_0000 <= x < 0x8000_0000_0000_0000

  /** 2^32: the modulus of the ring's uint32_t producer and consumer counters. */
  const Wrap32: int := 0x1_0000_0000

  /** Capacity of each of the two frame rings (cap_c_ and cap_d_). */
  const RingCapacity: nat := 8

  /** Number of raw depth frames batched into one archival group (group_size_). */
  const DepthGroupSize: nat := 30

  /**
   * An owned byte buffer with its geometry. `data == None` is the empty
   * buffer of a default or moved-from frame.
   */
  datatype RawFrame = RawFrame(data: Option<seq<byte>>, size: nat, stride: nat, w: int, h: int)

  /** A default-constructed RawFrame: no buffer, every size field zero. */
  function EmptyRawFrame(): (f: RawFrame)
    ensures f.data == None && f.size == 0 && f.stride == 0 && f.w == 0 && f.h == 0
  {
    RawFrame(None, 0, 0, 0, 0)
  }

  /** Tightly packed BGRA frame: 4 bytes per pixel, no row padding. */
  function ColorFrame(bytes: seq<byte>, w: nat, h: nat): RawFrame {
    RawFrame(Some(bytes), w * 4 * h, w * 4, w, h)
  }

  /** Tightly packed 8-bit gray frame: 1 byte per pixel, no row padding. */
  function GrayFrame(bytes: seq<byte>, w: nat, h: nat): RawFrame {
    RawFrame(Some(bytes), w * h, w, w, h)
  }

  /** A frame whose buffer holds exactly `size` bytes, laid out as h rows of `stride` bytes. */
  predicate Owned(f: RawFrame) {
    f.data.Some? && |f.data.value| == f.size && f.size == f.stride * f.h
  }

  lemma ColorFrameOwned(bytes: seq<byte>, w: nat, h: nat)
    requires |bytes| == w * 4 * h
    ensures Owned(ColorFrame(bytes, w, h)) && ColorFrame(bytes, w, h).stride == 4 * w
  {
  }

  datatype RecorderConfig = RecorderConfig(fps: int, outDir: string, writeVideo: bool, writeCsv: bool)

  /** The configuration a default-constructed RecorderConfig holds. */
  function DefaultRecorderConfig(): (c: RecorderConfig)
    ensures c.fps == 30 && c.writeVideo && c.writeCsv && c.outDir == ""
  {
    RecorderConfig(30, "", true, true)
  }

  /** One raw float depth frame with its frame index and capture time. */
  datatype DepthFrame = DepthFrame(data: seq<real>, width: int, height: int, frameIdx: U64, timestampUs: I64)

  /** A batch of depth frames handed to the archival writer as one [T, H, W] array. */
  datatype DepthGroup = DepthGroup(
    allData: seq<real>,
    t: int, h: int, w: int,
    groupId: nat,
    frameStart: U64, frameEnd: U64,
    tsStart: I64, tsEnd: I64,
    outDir: string,
    fps: int)
}
