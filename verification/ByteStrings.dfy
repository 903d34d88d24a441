/** Bytes and big-endian numbers. */
module ByteStrings {

  type Byte = b: nat | b < 256
  type ByteString = seq<Byte>

  function Pow256(k: nat): nat {
    if k == 0 then 1 else 256 * Pow256(k - 1)
  }

  /** The last `k` bytes of a number, most significant first. */
  function ToBytes(n: nat, k: nat): (r: ByteString)
    ensures |r| == k
    decreases k
  {
    if k == 0 then [] else ToBytes(n / 256, k - 1) + [n % 256]
  }

  function FromBytes(b: ByteString): nat {
    if b == [] then 0 else 256 * FromBytes(b[..|b| - 1]) + b[|b| - 1]
  }

  lemma {:induction false} FromToBytes(n: nat, k: nat)
    requires n < Pow256(k)
    ensures FromBytes(ToBytes(n, k)) == n
    decreases k
  {
    if k > 0 {
      FromToBytes(n / 256, k - 1);
      assert ToBytes(n, k)[..k - 1] == ToBytes(n / 256, k - 1);
    }
  }

  lemma {:induction false} ToFromBytes(b: ByteString)
    ensures FromBytes(b) < Pow256(|b|) && ToBytes(FromBytes(b), |b|) == b
  {
    if b != [] {
      ToFromBytes(b[..|b| - 1]);
      assert b == b[..|b| - 1] + [b[|b| - 1]];
    }
  }
}
