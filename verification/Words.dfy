/** Machine integers. The release build wraps on overflow, so increments of stored counters wrap here. */
module Words {

  const TWO_16 := 0x1_0000
  const TWO_32 := 0x1_0000_0000
  const TWO_64 := 0x1_0000_0000_0000_0000

  type Byte = n: nat | n < 256
  type Bytes = seq<Byte>
  type U16 = n: nat | n < TWO_16
  type U32 = n: nat | n < TWO_32
  type U64 = n: nat | n < TWO_64

  function Next32(n: U32): U32 {
    (n + 1) % TWO_32
  }

  function Next64(n: U64): U64 {
    (n + 1) % TWO_64
  }

  // A wrapping counter shows the true count modulo 2^64.
  lemma Next64Counts(n: nat)
    ensures Next64(n % TWO_64) == (n + 1) % TWO_64
  {
  }

  lemma Next32Counts(n: nat)
    ensures Next32(n % TWO_32) == (n + 1) % TWO_32
  {
  }

  // The largest values go to zero, every other one up by one.
  lemma NextExactly(n: U32, m: U64)
    ensures Next32(n) == if n == 4_294_967_295 then 0 else n + 1
    ensures Next64(m) == if m == 18_446_744_073_709_551_615 then 0 else m + 1
  {
  }

  // fetch_sub(1) on a 64-bit atomic
  function Previous64(n: U64): U64 {
    (n + TWO_64 - 1) % TWO_64
  }

  lemma PreviousExactly(n: U64)
    ensures Previous64(n) == if n == 0 then 18_446_744_073_709_551_615 else n - 1
  {
  }

  lemma PreviousUndoesNext(n: U64)
    ensures Previous64(Next64(n)) == n
  {
  }

  // u16::to_be_bytes and u16::from_be_bytes
  function BigEndian(n: U16): seq<Byte> {
    [n / 256, n % 256]
  }

  function FromBigEndian(high: Byte, low: Byte): U16 {
    high * 256 + low
  }

  // The high byte comes first, both ways.
  lemma HighByteFirst(n: U16, high: Byte, low: Byte)
    ensures |BigEndian(n)| == 2 && (BigEndian(n)[0] as int) * 256 + (BigEndian(n)[1] as int) == n
    ensures FromBigEndian(high, low) / 256 == high && FromBigEndian(high, low) % 256 == low
  {
  }
}
