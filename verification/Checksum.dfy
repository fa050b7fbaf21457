/** The Internet checksum of util.c, section 2 of RFC 1071, over little-endian words as on Android. */
module Checksum {
  import opened Words

  /** The sum of the 16-bit words of b, low byte first; a last odd byte counts by itself. */
  function WordSum(b: Bytes): nat
    decreases |b|
  {
    if |b| == 0 then 0
    else if |b| == 1 then b[0]
    else Word(b[0], b[1]) + WordSum(b[2..])
  }

  /** A little-endian word. */
  function Word(lo: u8, hi: u8): nat {
    lo + 256 * hi
  }

  /** One's-complement value of a sum: the representative in 1..65535, and 0 only for 0. */
  function Fold(s: nat): u16 {
    if s == 0 then 0 else (s - 1) % 0xFFFF + 1
  }

  /** One round of the fold loop keeps the value modulo 65535 and does not reach zero. */
  lemma FoldOnce(s: nat)
    requires s >= TWO16
    ensures Fold(s % TWO16 + s / TWO16) == Fold(s)
    ensures 0 < s % TWO16 + s / TWO16 < s
  {
    var lo, hi := s % TWO16, s / TWO16;
    assert s == lo + hi * TWO16;
    assert (s - 1) == (lo + hi - 1) + hi * 0xFFFF;
  }

  lemma {:induction false} WordSumBound(b: Bytes)
    ensures WordSum(b) <= (|b| + 1) / 2 * 0xFFFF
    decreases |b|
  {
    if |b| >= 2 {
      WordSumBound(b[2..]);
    }
  }

  /** 65536 full words and a full start value just fit in 32 bits. */
  lemma SumBound(start: u16, b: Bytes)
    ensures |b| <= 0x2_0000 ==> start + WordSum(b) < TWO32
  {
    WordSumBound(b);
  }

  /** `calc_checksum`. The sum cannot overflow 32 bits for up to 65536 words. */
  method CalcChecksum(start: u16, buffer: Bytes) returns (r: u16)
    ensures |buffer| <= 0x2_0000 ==> r == Fold(start + WordSum(buffer))
  {
    hide Fold, WordSum;
    var sum: u32 := start;
    var i := 0;
    SumBound(start, buffer);
    assert buffer[0..] == buffer;
    while |buffer| - i > 1
      invariant 0 <= i <= |buffer|
      invariant |buffer| <= 0x2_0000 ==> sum + WordSum(buffer[i..]) == start + WordSum(buffer)
    {
      NextWord(buffer, i);
      sum := Wrap(sum + Word(buffer[i], buffer[i + 1]));
      i := i + 2;
    }
    LastByte(buffer, i);
    if |buffer| - i > 0 {
      sum := Wrap(sum + buffer[i]);
    }
    ghost var total := sum;
    while sum / TWO16 > 0
      invariant Fold(sum) == Fold(total)
      decreases sum
    {
      FoldOnce(sum);
      sum := sum % TWO16 + sum / TWO16;
    }
    FoldSmall(sum);
    r := sum;
  }

  lemma NextWord(b: Bytes, i: nat)
    requires i + 1 < |b|
    ensures WordSum(b[i..]) == Word(b[i], b[i + 1]) + WordSum(b[i + 2..])
  {
    assert b[i..][2..] == b[i + 2..];
  }

  lemma LastByte(b: Bytes, i: nat)
    requires |b| - 1 <= i <= |b|
    ensures WordSum(b[i..]) == if i < |b| then b[i] else 0
  {
  }

  lemma FoldSmall(x: u16)
    ensures Fold(x) == x
  {
  }

  /** The checksum of an even-length piece may be the start value for the next piece. */
  lemma {:induction false} WordSumAppend(a: Bytes, b: Bytes)
    requires |a| % 2 == 0
    ensures WordSum(a + b) == WordSum(a) + WordSum(b)
    decreases |a|
  {
    if a == [] {
      assert a + b == b;
    } else {
      assert (a + b)[2..] == a[2..] + b;
      WordSumAppend(a[2..], b);
    }
  }

  lemma FoldAdd(x: nat, y: nat)
    ensures Fold(Fold(x) + y) == Fold(x + y)
  {
    if x > 0 {
      assert x == Fold(x) + (x - 1) / 0xFFFF * 0xFFFF;
      FoldPeriodic(Fold(x) + y, (x - 1) / 0xFFFF);
    }
  }

  lemma FoldPeriodic(x: nat, n: nat)
    requires x > 0
    ensures Fold(x + n * 0xFFFF) == Fold(x)
  {
    assert (x - 1 + n * 0xFFFF) % 0xFFFF == (x - 1) % 0xFFFF;
  }

  /** Chaining over pieces is summing the whole. */
  lemma ChecksumChains(start: nat, a: Bytes, b: Bytes)
    requires |a| % 2 == 0
    ensures Fold(Fold(start + WordSum(a)) + WordSum(b)) == Fold(start + WordSum(a + b))
  {
    WordSumAppend(a, b);
    FoldAdd(start + WordSum(a), WordSum(b));
  }

  /** What `calc_checksum` means: congruent modulo 65535, and zero only for a zero sum. */
  lemma FoldIsOnesComplement(s: nat)
    ensures Fold(s) % 0xFFFF == s % 0xFFFF
    ensures Fold(s) == 0 <==> s == 0
  {
  }

  /** The two bytes of a word as it is stored. */
  function Stored(w: u16): Bytes {
    [w % 256, w / 256]
  }

  /** Storing the complement in a field that was zero makes the whole sum to 0xFFFF. */
  lemma ComplementVerifies(head: Bytes, tail: Bytes, start: nat)
    requires |head| % 2 == 0
    ensures var csum := Fold(start + WordSum(head + Stored(0) + tail));
            Fold(start + WordSum(head + Stored(0xFFFF - csum) + tail)) == 0xFFFF
  {
    hide WordSum, Fold, Stored;
    var s := start + WordSum(head + Stored(0) + tail);
    FieldSum(head, 0, tail);
    FieldSum(head, 0xFFFF - Fold(s), tail);
    ComplementFolds(s);
  }

  lemma ComplementFolds(s: nat)
    ensures Fold(s + 0xFFFF - Fold(s)) == 0xFFFF
  {
    var n := if s == 0 then 0 else (s - 1) / 0xFFFF;
    assert s == Fold(s) + n * 0xFFFF;
    FoldPeriodic(0xFFFF, n);
  }

  lemma FieldSum(head: Bytes, w: u16, tail: Bytes)
    requires |head| % 2 == 0
    ensures WordSum(head + Stored(w) + tail) == WordSum(head) + w + WordSum(tail)
  {
    WordSumAppend(head + Stored(w), tail);
    WordSumAppend(head, Stored(w));
    assert Stored(w)[2..] == [];
  }

  // ---- The order of the bytes in a word does not matter to the receiver ----

  /** The sum over words in network order; a last odd byte is padded with a zero byte. */
  function NetworkSum(b: Bytes): nat
    decreases |b|
  {
    if |b| == 0 then 0
    else if |b| == 1 then 256 * b[0]
    else 256 * b[0] + b[1] + NetworkSum(b[2..])
  }

  /** Section 2 (B) of RFC 1071: swapping the bytes of every word swaps the bytes of the sum. */
  lemma {:induction false} NetworkSumIsSwapped(b: Bytes)
    ensures exists n: int :: 256 * WordSum(b) == NetworkSum(b) + n * 0xFFFF
    ensures NetworkSum(b) == 0 <==> WordSum(b) == 0
    decreases |b|
  {
    if |b| == 0 {
      assert 256 * WordSum(b) == NetworkSum(b) + 0 * 0xFFFF;
    } else if |b| == 1 {
      assert 256 * WordSum(b) == NetworkSum(b) + 0 * 0xFFFF;
    } else {
      NetworkSumIsSwapped(b[2..]);
      var n: int :| 256 * WordSum(b[2..]) == NetworkSum(b[2..]) + n * 0xFFFF;
      assert 256 * WordSum(b) == NetworkSum(b) + (n + b[1]) * 0xFFFF;
    }
  }

  /** A sum that verifies in one byte order verifies in the other. */
  lemma VerifiesInNetworkOrder(b: Bytes)
    requires Fold(WordSum(b)) == 0xFFFF
    ensures Fold(NetworkSum(b)) == 0xFFFF
  {
    NetworkSumIsSwapped(b);
    var n: int :| 256 * WordSum(b) == NetworkSum(b) + n * 0xFFFF;
    var k := WordSum(b) / 0xFFFF;
    assert WordSum(b) == k * 0xFFFF;
    assert NetworkSum(b) == (256 * k - n) * 0xFFFF;
    FoldPeriodic(0xFFFF, 256 * k - n - 1);
  }
}
