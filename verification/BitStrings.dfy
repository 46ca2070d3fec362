/** Bit strings, most significant bit first, and the numbers they stand for. */
module BitStrings {

  type Bit = b: nat | b < 2

  /** The value of a bit string, most significant bit first. */
  function Pack(bits: seq<Bit>): nat {
    if bits == [] then 0 else 2 * Pack(bits[..|bits| - 1]) + bits[|bits| - 1]
  }

  /** v in n bits, most significant first. */
  function Bits(v: nat, n: nat): (r: seq<Bit>)
    ensures |r| == n
  {
    if n == 0 then [] else Bits(v / 2, n - 1) + [v % 2]
  }

  function Pow2(n: nat): (p: nat)
    ensures p > 0
  {
    if n == 0 then 1 else 2 * Pow2(n - 1)
  }

  lemma {:induction false} PackBound(bits: seq<Bit>)
    ensures Pack(bits) < Pow2(|bits|)
    decreases |bits|
  {
    if bits != [] { PackBound(bits[..|bits| - 1]); }
  }

  lemma {:induction false} PackBits(v: nat, n: nat)
    requires v < Pow2(n)
    ensures Pack(Bits(v, n)) == v
  {
    if n > 0 {
      PackBits(v / 2, n - 1);
      assert Bits(v, n)[..n - 1] == Bits(v / 2, n - 1);
    }
  }

  lemma {:induction false} BitsPack(bits: seq<Bit>)
    ensures Bits(Pack(bits), |bits|) == bits
    decreases |bits|
  {
    if bits != [] {
      var n := |bits| - 1;
      BitsPack(bits[..n]);
      assert Pack(bits) / 2 == Pack(bits[..n]) && Pack(bits) % 2 == bits[n];
      assert bits == bits[..n] + [bits[n]];
    }
  }

  /** Bit k of v, counted from the least significant one. */
  function BitOf(v: nat, k: nat): Bit {
    if k == 0 then v % 2 else BitOf(v / 2, k - 1)
  }

  /** The number whose bits are given from the least significant one on. */
  function FromBits(bits: seq<Bit>): (v: nat)
    ensures v < Pow2(|bits|)
  {
    if bits == [] then 0 else bits[0] + 2 * FromBits(bits[1..])
  }

  lemma {:induction false} BitOfFromBits(bits: seq<Bit>, k: nat)
    requires k < |bits|
    ensures BitOf(FromBits(bits), k) == bits[k]
    decreases k
  {
    if k > 0 { BitOfFromBits(bits[1..], k - 1); }
  }
}
