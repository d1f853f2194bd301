/** Qt's fixed-width integers, as far as the uploader needs them. */
module QInt {

  const Int32Min: int := -0x8000_0000
  const Int32Max: int := 0x7fff_ffff
  const TwoTo32: int := 0x1_0000_0000

  /** qint32 */
  type int32 = x: int | -0x8000_0000 <= x <= 0x7fff_ffff

  /** The conversion of a wider integer to qint32: two's complement wrap-around,
      keeping the low 32 bits. */
  function Narrow32(x: int): (r: int32)
    ensures (x - r) % TwoTo32 == 0
    ensures Int32Min <= x <= Int32Max ==> r == x
  {
    var m := x % TwoTo32;
    if m <= Int32Max then m else m - TwoTo32
  }

  /** A byte count of 2 GiB, which a qint64 holds, reads back as a negative qint32. */
  lemma Narrow32At2GiB()
    ensures Narrow32(0x8000_0000) == Int32Min
    ensures Narrow32(0xffff_ffff) == -1
  {
  }
}
