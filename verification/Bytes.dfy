/** Bytes, little-endian integers and the text alphabet shared by firmware and client. */
module Bytes {
  datatype Option<+T> = None | Some(value: T)

  type byte = x: int | 0 <= x < 0x100
  type u16 = x: int | 0 <= x < 0x1_0000
  type u32 = x: int | 0 <= x < 0x1_0000_0000

  /** The kernel and driver error codes that the modelled code tells apart. */
  datatype Errno = Success | Einval | Enodata | Eperm | Eagain | Eio | Enoent | Eacces | Ebusy | Eother

  function Lo(v: u16): byte { v % 0x100 }

  function Hi(v: u16): byte { v / 0x100 }

  function U16(lo: byte, hi: byte): u16 { lo + 0x100 * hi }

  lemma U16RoundTrip(v: u16, lo: byte, hi: byte)
    ensures U16(Lo(v), Hi(v)) == v
    ensures Lo(U16(lo, hi)) == lo && Hi(U16(lo, hi)) == hi
  {
  }

  function PutU32(v: u32): (b: seq<byte>)
    ensures |b| == 4
  {
    [v % 0x100, v / 0x100 % 0x100, v / 0x1_0000 % 0x100, v / 0x100_0000]
  }

  function GetU32(b: seq<byte>): u32
    requires |b| == 4
  {
    var b0: int, b1: int, b2: int, b3: int := b[0], b[1], b[2], b[3];
    b0 + 0x100 * b1 + 0x1_0000 * b2 + 0x100_0000 * b3
  }

  lemma LowByte(b: byte, q: nat)
    ensures (b + 0x100 * q) % 0x100 == b && (b + 0x100 * q) / 0x100 == q
  {
  }

  lemma DivideTwice(v: nat)
    ensures v / 0x1_0000 == v / 0x100 / 0x100 && v / 0x100_0000 == v / 0x100 / 0x100 / 0x100
  {
  }

  /** LE32 coding loses nothing in either direction. */
  lemma U32RoundTrip(v: u32, b: seq<byte>)
    requires |b| == 4
    ensures GetU32(PutU32(v)) == v
    ensures PutU32(GetU32(b)) == b
  {
    DivideTwice(v);
    DivideTwice(GetU32(b));
    var b3: nat := b[3];
    var q2: nat := b[2] + 0x100 * b3;
    var q1: nat := b[1] + 0x100 * q2;
    assert GetU32(b) == b[0] + 0x100 * q1;
    LowByte(b[0], q1);
    LowByte(b[1], q2);
    LowByte(b[2], b3);
  }

  function Zeros(n: nat): (z: seq<byte>)
    ensures |z| == n && forall i | 0 <= i < n :: z[i] == 0
  {
    seq(n, _ => 0)
  }

  predicate AllZero(s: seq<byte>) {
    forall i | 0 <= i < |s| :: s[i] == 0
  }

  /** Printable US-ASCII, Backspace, Tab and LF: the bytes that have a keycode. */
  predicate TextByte(b: byte) {
    0x20 <= b <= 0x7e || b == 8 || b == 9 || b == 10
  }

  predicate TextOk(s: seq<byte>) {
    forall i | 0 <= i < |s| :: TextByte(s[i])
  }
}
