/** Words as they lie in packets: the most significant byte first. */
module NetworkOrder {
  import opened Words

  function Be16(x: u16): Bytes {
    [x / 256, x % 256]
  }

  function Be32(x: u32): Bytes {
    [x / 0x100_0000, x / 0x1_0000 % 256, x / 0x100 % 256, x % 256]
  }

  function GetBe16(b: Bytes, i: nat): u16
    requires i + 2 <= |b|
  {
    var hi: int := b[i];
    hi * 256 + b[i + 1]
  }

  function GetBe32(b: Bytes, i: nat): u32
    requires i + 4 <= |b|
  {
    var hi: int := GetBe16(b, i);
    hi * 0x1_0000 + GetBe16(b, i + 2)
  }

  lemma Be16RoundTrip(x: u16)
    ensures GetBe16(Be16(x), 0) == x
  {
  }

  lemma Be32RoundTrip(x: u32)
    ensures GetBe32(Be32(x), 0) == x
  {
    assert GetBe16(Be32(x), 0) == x / 0x1_0000;
    assert GetBe16(Be32(x), 2) == x % 0x1_0000;
  }
}
