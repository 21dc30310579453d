/** Machine integers of the firmware and the byte-order helpers every parser and packer uses.
    Values are mathematical integers; every place where the C++ code wraps says so with `%`. */
module Bytes {
  type byte = x: int | 0 <= x < 0x100
  type u16 = x: int | 0 <= x < 0x1_0000
  type u32 = x: int | 0 <= x < 0x1_0000_0000

  type Data = seq<byte>

  /** The receive buffer of the modem. */
  const BUFFER: nat := 3164
  type Buffer = b: Data | |b| == BUFFER witness seq(BUFFER, _ => 0)

  const TWO32: int := 0x1_0000_0000
  const TWO31: int := 0x8000_0000

  datatype Option<+T> = None | Some(value: T)

  /** Big-endian 16-bit value at offset i. */
  function Be16(s: Data, i: nat): u16
    requires i + 2 <= |s|
  {
    s[i] as int * 256 + s[i + 1]
  }

  /** Big-endian 32-bit value at offset i. */
  function Be32(s: Data, i: nat): u32
    requires i + 4 <= |s|
  {
    s[i] as int * 0x100_0000 + s[i + 1] as int * 0x1_0000 + s[i + 2] as int * 0x100 + s[i + 3]
  }

  function PutBe16(v: u16): (r: Data)
    ensures |r| == 2 && Be16(r, 0) == v
  {
    [v / 256, v % 256]
  }

  function PutBe32(v: u32): (r: Data)
    ensures |r| == 4 && Be32(r, 0) == v
  {
    PutBe16(v / 0x1_0000) + PutBe16(v % 0x1_0000)
  }

  /** Unsigned 32-bit difference, as `uint32_t` subtraction computes it. */
  function Sub32(a: u32, b: u32): u32 {
    (a - b) % TWO32
  }

  /** `static_cast<int32_t>` of an unsigned value. */
  function Signed32(x: u32): int {
    if x < TWO31 then x else x - TWO32
  }

  /** What `millis()` returns at true time t. */
  function Millis(t: nat): u32 {
    t % TWO32
  }

  /** A wrapped clock difference is exact while the true difference is below 2^32. */
  lemma ElapsedExact(earlier: nat, later: nat)
    requires earlier <= later < earlier + TWO32
    ensures Sub32(Millis(later), Millis(earlier)) == later - earlier
  {
    var q, p := later / TWO32, earlier / TWO32;
    assert Millis(later) - Millis(earlier) == (later - earlier) - (q - p) * TWO32;
    assert q - p == 0 || q - p == 1;
  }

  /** `memcpy` of a value into a buffer. */
  method CopyInto(dst: array<byte>, at: nat, src: Data)
    requires at + |src| <= dst.Length
    modifies dst
    ensures dst[..at] == old(dst[..at])
    ensures dst[at..at + |src|] == src
    ensures dst[at + |src|..] == old(dst[at + |src|..])
  {
    for i := 0 to |src|
      invariant dst[..at] == old(dst[..at])
      invariant dst[at..at + i] == src[..i]
      invariant dst[at + i..] == old(dst[at + i..])
    {
      dst[at + i] := src[i];
      assert src[..i + 1] == src[..i] + [src[i]];
      assert dst[at..at + i + 1] == dst[at..at + i] + [src[i]];
      assert dst[at + i + 1..] == old(dst[at + i..])[1..];
    }
  }

  /** The same, byte by byte. */
  method Overlay(dst: array<byte>, at: nat, src: Data)
    requires at + |src| <= dst.Length
    modifies dst
    ensures forall i :: 0 <= i < dst.Length ==>
              dst[i] == if at <= i < at + |src| then src[i - at] else old(dst[i])
  {
    for j := 0 to |src|
      invariant forall i :: 0 <= i < dst.Length ==>
                  dst[i] == if at <= i < at + j then src[i - at] else old(dst[i])
    {
      dst[at + j] := src[j];
    }
  }

  /** `memmove` of n bytes at offset `from` to the front of the same buffer. */
  method MoveDown(a: array<byte>, from: nat, n: nat)
    requires from + n <= a.Length
    modifies a
    ensures a[..n] == old(a[from..from + n]) && a[n..] == old(a[n..])
  {
    for i := 0 to n
      invariant a[..i] == old(a[from..from + i])
      invariant a[i..] == old(a[i..])
    {
      assert a[i..][from] == a[from + i] && old(a[i..])[from] == old(a[from + i]);
      a[i] := a[from + i];
      assert a[..i + 1] == a[..i] + [a[i]];
      assert a[i + 1..] == old(a[i..])[1..];
    }
  }
}
