/** Bytes, fixed-width little-endian numbers and the result types shared by the ZMODEM modules. */
module Bytes {

  type byte = b: int | 0 <= b < 256

  /** The largest value of the protocol's four-byte count field. */
  const MAX_COUNT: int := 0xffff_ffff

  /** Every error value the ZMODEM engine can return. */
  datatype Error =
    | MalformedHeader
    | MalformedFrame
    | MalformedPacketType
    | UnexpectedCrc16
    | UnexpectedCrc32
    | BufferOverflow
    | CountOutOfRange
    | MalformedFileName
    | MalformedFileSize
    | UnsupportedState
    | PendingOutgoing
    | UnexpectedEof

  datatype Result<+T> = Ok(value: T) | Err(error: Error)

  /** The four bytes of a count, least significant first. */
  function CountBytes(n: int): (s: seq<byte>)
    requires 0 <= n <= MAX_COUNT
    ensures |s| == 4
  {
    [n % 256, n / 256 % 256, n / 65536 % 256, n / 16777216]
  }

  function CountOf(s: seq<byte>): (n: int)
    requires |s| == 4
    ensures 0 <= n <= MAX_COUNT
  {
    (s[0] as int) + 256 * (s[1] as int) + 65536 * (s[2] as int) + 16777216 * (s[3] as int)
  }

  lemma CountRoundTrip(n: int)
    requires 0 <= n <= MAX_COUNT
    ensures CountOf(CountBytes(n)) == n
  {
    var q := n / 256;
    assert n == 256 * q + n % 256;
    assert q / 256 == n / 65536;
    var p := q / 256;
    assert p / 256 == n / 16777216;
  }
}
