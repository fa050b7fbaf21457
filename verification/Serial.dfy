/** Serial-number comparison of 32-bit sequence numbers (util.c). */
module Serial {
  import opened Words

  /** `compare_u32`: -1, 0 or 1, by the branches of the source. */
  function CompareU32(s1: u32, s2: u32): (r: int)
    ensures r == 0 <==> s1 == s2
  {
    if s1 == s2 then 0
    else if (s1 < s2 && s2 - s1 < 0x7FFF_FFFF) || (s1 > s2 && s1 - s2 > 0x7FFF_FFFF) then -1
    else 1
  }

  /** "s1 is less than s2", section 3.2 of RFC 1982 with SERIAL_BITS = 32. */
  predicate Rfc1982Less(s1: u32, s2: u32) {
    (s1 < s2 && s2 - s1 < 0x8000_0000) || (s1 > s2 && s1 - s2 > 0x8000_0000)
  }

  /** Section 3.2 of RFC 1982 leaves pairs that are half the number space apart undefined. */
  predicate Rfc1982Undefined(s1: u32, s2: u32) {
    s1 - s2 == 0x8000_0000 || s2 - s1 == 0x8000_0000
  }

  /** The signed distance from b to a, in [-2^31, 2^31). */
  function Delta(a: u32, b: u32): int {
    var d := (a - b) % TWO32;
    if d < 0x8000_0000 then d else d - TWO32
  }

  /** Distances of stored words are distances of the unbounded offsets behind them. */
  lemma DeltaOfWraps(x: int, y: int)
    requires -0x8000_0000 <= x - y < 0x8000_0000
    ensures Delta(Wrap(x), Wrap(y)) == x - y
  {
    var d := (Wrap(x) - Wrap(y)) % TWO32;
    assert Wrap(x) - Wrap(y) == x - y - TWO32 * (x / TWO32 - y / TWO32);
    assert d == (x - y) % TWO32;
  }

  /** Moving the reference point by n moves the distance by n, while it stays representable. */
  lemma DeltaShift(a: u32, b: int, n: int)
    requires -0x8000_0000 <= Delta(a, Wrap(b)) - n < 0x8000_0000
    ensures Delta(a, Wrap(b + n)) == Delta(a, Wrap(b)) - n
  {
    var x := b + Delta(a, Wrap(b));
    assert Wrap(x) == a;
    DeltaOfWraps(x, b + n);
  }

  /** Where `compare_u32` is the order of RFC 1982, and exactly where it is not: it reverses the
      pairs 2^31 - 1 apart whose first element is numerically smaller, and orders half of the
      pairs RFC 1982 leaves undefined. */
  lemma CompareAgainstRfc1982(s1: u32, s2: u32)
    ensures !Rfc1982Undefined(s1, s2) ==>
              ((CompareU32(s1, s2) == -1 <==> Rfc1982Less(s1, s2)) <==> s2 - s1 != 0x7FFF_FFFF)
    ensures Rfc1982Undefined(s1, s2) ==> (CompareU32(s1, s2) == -1 <==> s1 > s2)
  {
  }

  /** Up to a distance of 2^31 - 2, comparing words is comparing distances. */
  lemma CompareIsSignOfDelta(a: u32, b: u32)
    requires -0x7FFF_FFFE <= Delta(a, b) <= 0x7FFF_FFFE
    ensures CompareU32(a, b) < 0 <==> Delta(a, b) < 0
    ensures CompareU32(a, b) > 0 <==> Delta(a, b) > 0
  {
  }

  lemma WrapOfDelta(a: u32, r: u32)
    ensures Wrap(r + Delta(a, r)) == a
  {
  }

  /** Words less than 2^30 away from a common reference are totally ordered by it. */
  lemma CompareInWindow(a: u32, b: u32, r: u32)
    requires -0x4000_0000 < Delta(a, r) < 0x4000_0000
    requires -0x4000_0000 < Delta(b, r) < 0x4000_0000
    ensures CompareU32(a, b) < 0 <==> Delta(a, r) < Delta(b, r)
    ensures CompareU32(a, b) > 0 <==> Delta(a, r) > Delta(b, r)
    ensures a == b <==> Delta(a, r) == Delta(b, r)
  {
    hide CompareU32;
    WrapOfDelta(a, r);
    WrapOfDelta(b, r);
    DeltaOfWraps(r + Delta(a, r), r + Delta(b, r));
    CompareIsSignOfDelta(a, b);
  }
}
