/** Byte strings, digests and fixed-width big-endian integers. */
module ByteStrings {

  type Byte = b: int | 0 <= b < 256

  type Bytes = seq<Byte>

  const DIGEST_LENGTH := 32

  /** A SHA-256 digest. */
  type Digest = d: Bytes | |d| == DIGEST_LENGTH witness seq(32, _ => 0)

  const ZERO_DIGEST: Digest := [0, 0, 0, 0, 0, 0, 0, 0, 0, 0, 0, 0, 0, 0, 0, 0, 0, 0, 0, 0, 0, 0, 0, 0, 0, 0, 0, 0, 0, 0, 0, 0]

  function Pow256(width: nat): (p: nat)
    ensures p > 0
  {
    if width == 0 then 1 else 256 * Pow256(width - 1)
  }

  /** `to_be_bytes` of an integer of the given width. */
  function BigEndian(n: nat, width: nat): (bytes: Bytes)
    requires n < Pow256(width)
    ensures |bytes| == width
  {
    if width == 0 then [] else BigEndian(n / 256, width - 1) + [n % 256]
  }

  lemma {:induction false} BigEndianInjective(a: nat, b: nat, width: nat)
    requires a < Pow256(width) && b < Pow256(width)
    requires BigEndian(a, width) == BigEndian(b, width)
    ensures a == b
  {
    if width > 0 {
      var x, y := BigEndian(a / 256, width - 1), BigEndian(b / 256, width - 1);
      assert (x + [a % 256])[..width - 1] == x && (y + [b % 256])[..width - 1] == y;
      assert (x + [a % 256])[width - 1] == a % 256 && (y + [b % 256])[width - 1] == b % 256;
      BigEndianInjective(a / 256, b / 256, width - 1);
    }
  }

  lemma WordRange()
    ensures Pow256(8) == 0x1_0000_0000_0000_0000
  {
    assert Pow256(2) == 0x1_0000;
    assert Pow256(4) == 0x1_0000_0000;
    assert Pow256(6) == 0x1_0000_0000_0000;
  }

  const MAX_WORD: nat := 0xFFFF_FFFF_FFFF_FFFF

  /** `u64::to_be_bytes`. */
  function Word(n: nat): (bytes: Bytes)
    requires n <= MAX_WORD
    ensures |bytes| == 8
  {
    WordRange();
    BigEndian(n, 8)
  }

  lemma WordInjective(a: nat, b: nat)
    requires a <= MAX_WORD && b <= MAX_WORD && Word(a) == Word(b)
    ensures a == b
  {
    WordRange();
    BigEndianInjective(a, b, 8);
  }

  /** Two concatenations that agree, with left parts of one length, agree in both parts. */
  lemma SplitAtSameLength<T>(a: seq<T>, b: seq<T>, c: seq<T>, d: seq<T>)
    requires a + b == c + d && |a| == |c|
    ensures a == c && b == d
  {
    assert (a + b)[..|a|] == a && (c + d)[..|c|] == c;
    assert (a + b)[|a|..] == b && (c + d)[|c|..] == d;
  }
}
