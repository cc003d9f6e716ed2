/** Bytes and the little-endian 16-bit fields both generations of the server put on the wire. */
module Wire {

  type Byte = b: int | 0 <= b < 0x100
  type U16 = n: int | 0 <= n < 0x1_0000

  datatype Option<+T> = None | Some(value: T) {
    function GetOr(default: T): T {
      if Some? then value else default
    }
  }

  /** The two bytes a little-endian host stores for a `uint16_t`. */
  function PutU16(n: U16): (bytes: seq<Byte>)
    ensures |bytes| == 2
  {
    [n % 0x100, n / 0x100]
  }

  /** The `uint16_t` a little-endian host reads from two bytes. */
  function GetU16(lo: Byte, hi: Byte): U16 {
    lo + 0x100 * hi
  }

  lemma GetPutU16(n: U16)
    ensures GetU16(PutU16(n)[0], PutU16(n)[1]) == n
  {
  }

  lemma PutGetU16(lo: Byte, hi: Byte)
    ensures PutU16(GetU16(lo, hi)) == [lo, hi]
  {
  }
}
