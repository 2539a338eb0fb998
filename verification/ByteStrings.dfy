/** Bytes and the fixed-width big-endian numbers of the binary formats. */
module ByteStrings {
  import opened Arithmetic

  type Byte = b: int | 0 <= b < 256
  type Bytes = seq<Byte>

  function Pow256(width: nat): (p: nat)
    ensures p > 0
  {
    if width == 0 then 1 else 256 * Pow256(width - 1)
  }

  function BigEndian(n: nat, width: nat): (bs: Bytes)
    requires n < Pow256(width)
    ensures |bs| == width
  {
    if width == 0 then [] else BigEndian(n / 256, width - 1) + [n % 256]
  }

  function FromBigEndian(bs: Bytes): (n: nat)
    ensures n < Pow256(|bs|)
  {
    if bs == [] then 0 else 256 * FromBigEndian(bs[..|bs| - 1]) + bs[|bs| - 1]
  }

  lemma {:induction false} BigEndianInverse(n: nat, width: nat)
    requires n < Pow256(width)
    ensures FromBigEndian(BigEndian(n, width)) == n
  {
    if width > 0 {
      BigEndianInverse(n / 256, width - 1);
      assert BigEndian(n, width)[..width - 1] == BigEndian(n / 256, width - 1);
    }
  }

  lemma {:induction false} FromBigEndianInverse(bs: Bytes)
    ensures BigEndian(FromBigEndian(bs), |bs|) == bs
  {
    if bs != [] {
      var front, last := bs[..|bs| - 1], bs[|bs| - 1];
      FromBigEndianInverse(front);
      DivisionIs(FromBigEndian(bs), 256, FromBigEndian(front), last);
      assert bs == front + [last];
    }
  }

  lemma Pow256Four()
    ensures Pow256(4) == 0x1_0000_0000 && Pow256(2) == 65536
  {
    assert Pow256(1) == 256 && Pow256(2) == 65536 && Pow256(3) == 16777216;
  }
}
