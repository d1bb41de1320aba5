/** Machine integers and byte order, as the C sources use them on a little-endian machine. */
module Bytes {

  type byte = x: int | 0 <= x < 0x100
  type u16 = x: int | 0 <= x < 0x1_0000
  type u32 = x: int | 0 <= x < 0x1_0000_0000

  const MAX_U16: u16 := 0xFFFF
  const MAX_U32: u32 := 0xFFFF_FFFF

  datatype Option<+T> = None | Some(value: T)

  /** `htons`/`ntohs`: exchange the two bytes of a 16-bit value. */
  function Swap16(x: u16): u16 {
    x % 256 * 256 + x / 256
  }

  /** The 16-bit value with the given low and high bytes. */
  function Word(lo: byte, hi: byte): u16 {
    lo as int + 256 * hi as int
  }

  /** A 16-bit value in network order, the memory image of `htons(x)`. */
  function Be16(x: u16): (s: seq<byte>)
    ensures |s| == 2
  {
    [x / 256, x % 256]
  }

  /** A 32-bit value in network order, the memory image of `htonl(x)`. */
  function Be32(x: u32): (s: seq<byte>)
    ensures |s| == 4
  {
    [x / 0x100_0000, x / 0x1_0000 % 256, x / 256 % 256, x % 256]
  }

  /** The 16-bit value stored at `s[i..i+2]` in network order: `ntohs` of the field. */
  function ReadBe16(s: seq<byte>, i: nat): (x: u16)
    requires i + 2 <= |s|
  {
    Word(s[i + 1], s[i])
  }

  function Zeros(n: nat): (s: seq<byte>)
    ensures |s| == n
  {
    seq(n, _ => 0)
  }

  /** `RtlCopyMemory(buf + at, data, |data|)`. */
  method Copy(buf: array<byte>, at: nat, data: seq<byte>)
    requires at + |data| <= buf.Length
    modifies buf
    ensures buf[..at] == old(buf[..at])
    ensures buf[at..at + |data|] == data
    ensures buf[at + |data|..] == old(buf[at + |data|..])
  {
    ghost var before := buf[..];
    for i := 0 to |data|
      invariant buf[..] == before[..at] + data[..i] + before[at + i..]
    {
      buf[at + i] := data[i];
      assert data[..i + 1] == data[..i] + [data[i]];
    }
    assert data[..|data|] == data;
  }
}
