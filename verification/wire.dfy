/**
 * The byte format on the `\\.\pipe\kankaku` named pipe: a 4-byte device
 * dimensions header written by the C side, followed by 6-byte contact
 * records that the Python client cuts out of the stream it reads.
 */
module Wire {
  import opened CTypes

  /** `kankaku_device_dimensions` */
  datatype DeviceDimensions = DeviceDimensions(width: u16, height: u16)

  /** The out-parameters and return value of `kankaku_serialize_device_dimensions`. */
  datatype Serialized = Serialized(retval: int, data: seq<byte>, byteCount: nat)

  /**
   * `kankaku_serialize_device_dimensions`: each 16-bit field is written low
   * byte first (`& 0xff`, then `>> 8`, which on a value below 2^16 are `% 256`
   * and `/ 256`). The byte count always matches the data and the return value
   * is always 0.
   */
  function SerializeDeviceDimensions(d: DeviceDimensions): (r: Serialized)
    ensures r.retval == 0
    ensures |r.data| == r.byteCount == 4
    ensures r.data[0] as int + 256 * r.data[1] as int == d.width
    ensures r.data[2] as int + 256 * r.data[3] as int == d.height
  {
    Serialized(0, [d.width % 256, d.width / 256, d.height % 256, d.height / 256], 4)
  }

  /** Python's `int.from_bytes(bs, byteorder='little', signed=False)`; an empty slice gives 0. */
  function LittleEndian(bs: seq<byte>): nat
  {
    if bs == [] then 0 else bs[0] + 256 * LittleEndian(bs[1..])
  }

  /** 256 to the power `n`. */
  function Pow256(n: nat): nat
  {
    if n == 0 then 1 else 256 * Pow256(n - 1)
  }

  /** A value read from `n` little-endian bytes is below 256^n. */
  lemma {:induction false} LittleEndianBound(bs: seq<byte>)
    ensures LittleEndian(bs) < Pow256(|bs|)
  {
    if bs != [] {
      LittleEndianBound(bs[1..]);
    }
  }

  /** Python's `bs[lo:hi]` for `0 <= lo <= hi`: both ends are clamped to the length. */
  function Slice(bs: seq<byte>, lo: nat, hi: nat): (r: seq<byte>)
    requires lo <= hi
    ensures |r| == (if hi <= |bs| then hi else |bs|) - (if lo <= |bs| then lo else |bs|)
    ensures forall i :: 0 <= i < |r| ==> r[i] == bs[lo + i]
  {
    if |bs| <= lo then [] else if |bs| <= hi then bs[lo..] else bs[lo..hi]
  }

  /** Python's `bs[lo:]`. */
  function Drop(bs: seq<byte>, lo: nat): (r: seq<byte>)
    ensures |r| == (if lo <= |bs| then |bs| - lo else 0)
    ensures forall i :: 0 <= i < |r| ==> r[i] == bs[lo + i]
  {
    if |bs| <= lo then [] else bs[lo..]
  }

  /** A 16-bit little-endian field read from a slice of at most 2 bytes. */
  function Field16(bs: seq<byte>, lo: nat): (v: u16)
    ensures lo + 2 <= |bs| ==> v == bs[lo] as int + 256 * bs[lo + 1] as int
    ensures lo + 1 == |bs| ==> v == bs[lo]
    ensures |bs| <= lo ==> v == 0
  {
    var s := Slice(bs, lo, lo + 2);
    LittleEndianBound(s);
    LittleEndian(s)
  }

  /**
   * The client's decoding of its first read (pipeclient.py, `run`): width from
   * bytes 0..2 and height from bytes 2..4. A first read shorter than 4 bytes
   * is only reported; the fields are still read from whatever bytes exist, so
   * a missing byte reads as 0.
   */
  function DecodeHeader(first: seq<byte>): (d: DeviceDimensions)
    ensures |first| >= 4 ==>
      d.width == first[0] as int + 256 * first[1] as int && d.height == first[2] as int + 256 * first[3] as int
  {
    DeviceDimensions(Field16(first, 0), Field16(first, 2))
  }

  /** The header's two fields are decoded exactly as the server encoded them. */
  lemma HeaderRoundTrip(d: DeviceDimensions)
    ensures DecodeHeader(SerializeDeviceDimensions(d).data) == d
  {
  }

  /** Conversely every 4-byte header is the encoding of the dimensions it decodes to. */
  lemma HeaderBytesRoundTrip(bs: seq<byte>)
    requires |bs| == 4
    ensures SerializeDeviceDimensions(DecodeHeader(bs)).data == bs
  {
  }

  /** A 640 x 480 device is sent as 80 02 E0 01. */
  lemma HeaderExample()
    ensures SerializeDeviceDimensions(DeviceDimensions(640, 480)).data == [0x80, 0x02, 0xE0, 0x01]
    ensures DecodeHeader([0x80, 0x02, 0xE0, 0x01]) == DeviceDimensions(640, 480)
  {
  }

  /**
   * A short first read is not rejected: a 3-byte read gives a height of the
   * third byte alone, and an empty read gives 0 x 0.
   */
  lemma ShortHeader(bs: seq<byte>)
    requires |bs| < 4
    ensures |bs| <= 2 ==> DecodeHeader(bs).height == 0
    ensures |bs| == 3 ==> DecodeHeader(bs) == DeviceDimensions(bs[0] as int + 256 * bs[1] as int, bs[2])
    ensures bs == [] ==> DecodeHeader(bs) == DeviceDimensions(0, 0)
    ensures |bs| == 1 ==> DecodeHeader(bs) == DeviceDimensions(bs[0], 0)
  {
  }

  /** Size of one contact record on the wire. */
  const RecordSize: nat := 6

  /**
   * One contact record as the client decodes it: `onSurface` keeps the raw
   * byte, which Python tests for truthiness (any non-zero value is on the
   * surface).
   */
  datatype Sample = Sample(id: byte, onSurface: byte, x: u16, y: u16)

  /** The client's decoding of `remain_bs[:6]`. */
  function DecodeRecord(bs: seq<byte>): (s: Sample)
    requires |bs| >= RecordSize
    ensures s.id == bs[0] && s.onSurface == bs[1]
    ensures s.x == bs[2] as int + 256 * bs[3] as int && s.y == bs[4] as int + 256 * bs[5] as int
  {
    Sample(bs[0], bs[1], Field16(bs, 2), Field16(bs, 4))
  }

  /** The record layout as a writer lays it out, as a reference for `DecodeRecord`. */
  function EncodeRecord(s: Sample): (bs: seq<byte>)
    ensures |bs| == RecordSize
  {
    [s.id, s.onSurface, s.x % 256, s.x / 256, s.y % 256, s.y / 256]
  }

  lemma RecordRoundTrip(s: Sample)
    ensures DecodeRecord(EncodeRecord(s)) == s
  {
  }

  lemma RecordBytesRoundTrip(bs: seq<byte>)
    requires |bs| == RecordSize
    ensures EncodeRecord(DecodeRecord(bs)) == bs
  {
  }

  /** The records the client's inner drain loop decodes from `bs`, in order. */
  function Records(bs: seq<byte>): seq<Sample>
    decreases |bs|
  {
    if |bs| < RecordSize then [] else [DecodeRecord(bs[..RecordSize])] + Records(bs[RecordSize..])
  }

  /** The bytes the drain loop leaves in `remain_bs` after decoding `Records(bs)`. */
  function Remainder(bs: seq<byte>): seq<byte>
    decreases |bs|
  {
    if |bs| < RecordSize then bs else Remainder(bs[RecordSize..])
  }

  /** Framing consumes every whole record and leaves only the incomplete tail. */
  lemma {:induction false} FramingCounts(bs: seq<byte>)
    ensures |Records(bs)| == |bs| / RecordSize
    ensures Remainder(bs) == bs[|bs| - |bs| % RecordSize..]
    ensures |Remainder(bs)| < RecordSize
    decreases |bs|
  {
    if |bs| >= RecordSize {
      FramingCounts(bs[RecordSize..]);
      assert bs[RecordSize..][|bs| - RecordSize - (|bs| - RecordSize) % RecordSize..]
          == bs[|bs| - |bs| % RecordSize..];
    }
  }

  /** Record `k` is decoded from bytes `6k .. 6k+6` of the stream. */
  lemma {:induction false} RecordAt(bs: seq<byte>, k: nat)
    requires k < |Records(bs)|
    ensures RecordSize * k + RecordSize <= |bs|
    ensures Records(bs)[k] == DecodeRecord(bs[RecordSize * k..RecordSize * k + RecordSize])
    decreases k
  {
    if k > 0 {
      RecordAt(bs[RecordSize..], k - 1);
      assert bs[RecordSize..][RecordSize * (k - 1)..RecordSize * (k - 1) + RecordSize]
          == bs[RecordSize * k..RecordSize * k + RecordSize];
    }
  }

  /**
   * Streaming: framing a prefix, keeping its remainder and appending the next
   * read gives exactly the records of the whole stream. This is why the
   * records do not depend on how the pipe splits the bytes into reads.
   */
  lemma {:induction false} FramingStreams(a: seq<byte>, b: seq<byte>)
    ensures Records(a + b) == Records(a) + Records(Remainder(a) + b)
    ensures Remainder(a + b) == Remainder(Remainder(a) + b)
    decreases |a|
  {
    if |a| >= RecordSize {
      calc {
        Records(a + b);
        [DecodeRecord((a + b)[..RecordSize])] + Records((a + b)[RecordSize..]);
        { assert (a + b)[..RecordSize] == a[..RecordSize];
          assert (a + b)[RecordSize..] == a[RecordSize..] + b; }
        [DecodeRecord(a[..RecordSize])] + Records(a[RecordSize..] + b);
        { FramingStreams(a[RecordSize..], b); }
        [DecodeRecord(a[..RecordSize])] + (Records(a[RecordSize..]) + Records(Remainder(a) + b));
      }
      assert (a + b)[RecordSize..] == a[RecordSize..] + b;
      FramingStreams(a[RecordSize..], b);
    }
  }

  /** Two splittings of the same bytes into reads frame to the same records. */
  lemma FramingIgnoresSplit(a: seq<byte>, b: seq<byte>, c: seq<byte>, d: seq<byte>)
    requires a + b == c + d
    ensures Records(a) + Records(Remainder(a) + b) == Records(c) + Records(Remainder(c) + d)
  {
    FramingStreams(a, b);
    FramingStreams(c, d);
  }
}
