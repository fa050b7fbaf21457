/** Fixed-width machine words. Every wrap-around of the C code is written out with these. */
module Words {

  const TWO16: int := 0x1_0000
  const TWO32: int := 0x1_0000_0000

  type u8 = x: int | 0 <= x < 0x100
  type u16 = x: int | 0 <= x < 0x1_0000
  type u32 = x: int | 0 <= x < 0x1_0000_0000

  type Bytes = seq<u8>

  /** The 32-bit word that an unbounded offset is stored as. */
  function Wrap(x: int): u32 {
    x % TWO32
  }

  /** Storing an intermediate result in a word changes nothing. */
  lemma WrapAdd(x: int, n: int)
    ensures Wrap(Wrap(x) + n) == Wrap(x + n)
  {
    assert Wrap(x) + n == x + n - TWO32 * (x / TWO32);
  }

  /** `1 << s`. */
  function Pow2(s: nat): (p: nat)
    ensures p >= 1
  {
    if s == 0 then 1 else 2 * Pow2(s - 1)
  }

  lemma {:induction false} Pow2Monotone(s: nat, t: nat)
    requires s <= t
    ensures Pow2(s) <= Pow2(t)
  {
    if s < t {
      Pow2Monotone(s, t - 1);
    }
  }
}
