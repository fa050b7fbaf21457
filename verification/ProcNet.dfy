/** The hexadecimal addresses of the files under /proc/net. */
module ProcNet {
  import opened Words

  /** `char2nible`. */
  function Nibble(c: char): u8 {
    if '0' <= c <= '9' then c as int - '0' as int
    else if 'a' <= c <= 'f' then c as int - 'a' as int + 10
    else if 'A' <= c <= 'F' then c as int - 'A' as int + 10
    else 255
  }

  /** `(char2nible(a) << 4) | char2nible(b)` in eight bits. */
  function ByteOf(a: char, b: char): u8 {
    var lo: int := Nibble(b);
    if lo == 255 then 255
    else if Nibble(a) == 255 then 240 + lo
    else Nibble(a) * 16 + lo
  }

  function BytesOf(hex: string): (r: Bytes)
    ensures |r| == (|hex| + 1) / 2
  {
    if hex == [] then []
    else if |hex| == 1 then [ByteOf(hex[0], '\0')]
    else [ByteOf(hex[0], hex[1])] + BytesOf(hex[2..])
  }

  /** Every complete 32-bit word in the other byte order. */
  function Swapped(b: Bytes): (r: Bytes)
    ensures |r| == |b|
  {
    if |b| < 4 then b else [b[3], b[2], b[1], b[0]] + Swapped(b[4..])
  }

  function AddressOf(hex: string): Bytes {
    Swapped(BytesOf(hex))
  }

  // ---- In place ----

  lemma {:induction false} BytesOfAt(hex: string, k: nat)
    requires 2 * k < |hex|
    ensures BytesOf(hex)[k] == ByteOf(hex[2 * k], if 2 * k + 1 < |hex| then hex[2 * k + 1] else '\0')
  {
    if k > 0 {
      BytesOfAt(hex[2..], k - 1);
    }
  }

  /** `hex2bytes`. */
  method Hex2Bytes(hex: string, buffer: array<u8>)
    requires (|hex| + 1) / 2 <= buffer.Length
    modifies buffer
    ensures buffer[..(|hex| + 1) / 2] == BytesOf(hex)
    ensures buffer[(|hex| + 1) / 2..] == old(buffer[(|hex| + 1) / 2..])
  {
    hide ByteOf, BytesOf;
    var i := 0;
    while i < |hex|
      invariant 0 <= i <= |hex| + 1 && i % 2 == 0
      invariant forall k :: 0 <= k < i / 2 ==> buffer[k] == BytesOf(hex)[k]
      invariant forall k :: (|hex| + 1) / 2 <= k < buffer.Length ==> buffer[k] == old(buffer[k])
    {
      BytesOfAt(hex, i / 2);
      buffer[i / 2] := ByteOf(hex[i], if i + 1 < |hex| then hex[i + 1] else '\0');
      i := i + 2;
    }
  }

  lemma {:induction false} SwappedAt(b: Bytes, k: nat)
    requires k < |b| && k / 4 * 4 + 4 <= |b|
    ensures Swapped(b)[k] == b[k / 4 * 4 + (3 - k % 4)]
  {
    if k >= 4 {
      SwappedAt(b[4..], k - 4);
    }
  }

  lemma WordSwapped(b: Bytes, i: nat)
    requires i % 4 == 0 && i + 4 <= |b|
    ensures Swapped(b)[i] == b[i + 3] && Swapped(b)[i + 1] == b[i + 2]
    ensures Swapped(b)[i + 2] == b[i + 1] && Swapped(b)[i + 3] == b[i]
  {
    hide Swapped;
    SwappedAt(b, i);
    SwappedAt(b, i + 1);
    SwappedAt(b, i + 2);
    SwappedAt(b, i + 3);
  }

  /** `htonl` on a little-endian machine, in place. */
  method SwapWord(buffer: array<u8>, i: nat)
    requires i + 4 <= buffer.Length
    modifies buffer
    ensures buffer[i] == old(buffer[i + 3]) && buffer[i + 1] == old(buffer[i + 2])
    ensures buffer[i + 2] == old(buffer[i + 1]) && buffer[i + 3] == old(buffer[i])
    ensures forall k :: 0 <= k < buffer.Length && !(i <= k < i + 4) ==> buffer[k] == old(buffer[k])
  {
    buffer[i], buffer[i + 1], buffer[i + 2], buffer[i + 3] := buffer[i + 3], buffer[i + 2], buffer[i + 1], buffer[i];
  }

  /** The loop over the words of an address. */
  method SwapWords(buffer: array<u8>, ws: nat)
    requires ws * 4 <= buffer.Length
    modifies buffer
    ensures buffer[..ws * 4] == Swapped(old(buffer[..ws * 4]))
    ensures buffer[ws * 4..] == old(buffer[ws * 4..])
  {
    hide Swapped;
    ghost var was := buffer[..ws * 4];
    for w := 0 to ws
      invariant forall k :: 0 <= k < w * 4 ==> buffer[k] == Swapped(was)[k]
      invariant forall k :: w * 4 <= k < buffer.Length ==> buffer[k] == old(buffer[k])
    {
      WordSwapped(was, w * 4);
      SwapWord(buffer, w * 4);
    }
  }

  /** The address of one field, in a buffer of 16 bytes. */
  method ReadAddress(hex: string, ws: nat) returns (address: Bytes)
    requires |hex| == ws * 8 && ws <= 4
    ensures address == AddressOf(hex)
  {
    hide BytesOf, Swapped;
    var buffer := new u8[16](_ => 0);
    Hex2Bytes(hex, buffer);
    SwapWords(buffer, ws);
    address := buffer[..ws * 4];
  }

  // ---- What the kernel prints ----

  const DIGITS := "0123456789ABCDEF"

  /** A byte as two digits. */
  function Printed(x: u8): string {
    [DIGITS[x / 16], DIGITS[x % 16]]
  }

  /** An address as the kernel prints it: each 32-bit word as a number of the little-endian machine. */
  function KernelHex(address: Bytes): (hex: string)
    requires |address| % 4 == 0
    ensures |hex| == 2 * |address|
  {
    if address == [] then []
    else
      Printed(address[3]) + Printed(address[2]) + Printed(address[1]) + Printed(address[0]) + KernelHex(address[4..])
  }

  const LOWER := "0123456789abcdef"

  /** Digits of either case are read as what they stand for. */
  lemma EitherCase(n: nat)
    requires n < 16
    ensures Nibble(DIGITS[n]) == n && Nibble(LOWER[n]) == n
  {
  }

  lemma PrintedReadsBack(x: u8)
    ensures ByteOf(Printed(x)[0], Printed(x)[1]) == x
  {
    assert forall n: nat :: n < 16 ==> Nibble(DIGITS[n]) == n;
  }

  lemma ByteThenRest(x: u8, rest: string)
    ensures BytesOf(Printed(x) + rest) == [x] + BytesOf(rest)
  {
    PrintedReadsBack(x);
    assert (Printed(x) + rest)[2..] == rest;
  }

  /** Reading what the kernel printed gives the address in network byte order. */
  lemma {:induction false} AddressRoundTrip(address: Bytes)
    requires |address| % 4 == 0
    ensures AddressOf(KernelHex(address)) == address
  {
    hide ByteOf, Printed, BytesOf;
    if address == [] {
      assert BytesOf([]) == [];
    } else {
      var a, rest := address, KernelHex(address[4..]);
      AddressRoundTrip(a[4..]);
      Regroup(Printed(a[3]), Printed(a[2]), Printed(a[1]), Printed(a[0]), rest);
      ByteThenRest(a[3], Printed(a[2]) + (Printed(a[1]) + (Printed(a[0]) + rest)));
      ByteThenRest(a[2], Printed(a[1]) + (Printed(a[0]) + rest));
      ByteThenRest(a[1], Printed(a[0]) + rest);
      ByteThenRest(a[0], rest);
      var b := [a[3], a[2], a[1], a[0]] + BytesOf(rest);
      assert BytesOf(KernelHex(a)) == b;
      assert b[4..] == BytesOf(rest);
      assert address == [a[0], a[1], a[2], a[3]] + a[4..];
    }
  }

  lemma Regroup(a: string, b: string, c: string, d: string, e: string)
    ensures a + b + c + d + e == a + (b + (c + (d + e)))
  {
  }
}
