/// Byte-level primitives of the binary formats: bytes, opaque 8-byte
/// doubles, big-endian 32-bit integers and 32-bit wrap-around.
module Bytes {
  import opened Arith
  type byte = b: int | 0 <= b < 256

  /// A big-endian IEEE-754 double (`>f8` / `>d`) kept as its eight bytes.
  /// The converter only copies these values from input to output.
  type Word = w: seq<byte> | |w| == 8 witness [0, 0, 0, 0, 0, 0, 0, 0]

  /// +0.0, the value `np.zeros` fills a volume with.
  const Zero: Word := [0, 0, 0, 0, 0, 0, 0, 0]

  const TwoTo31: int := 0x8000_0000
  const TwoTo32: int := 0x1_0000_0000

  predicate IsInt32(v: int) {
    -TwoTo31 <= v < TwoTo31
  }

  /// The value numpy's `int32` arithmetic leaves when `v` overflows.
  function Wrap32(v: int): (w: int)
    ensures IsInt32(w)
    ensures (w - v) % TwoTo32 == 0
    ensures IsInt32(v) ==> w == v
  {
    (v + TwoTo31) % TwoTo32 - TwoTo31
  }

  /// `>i4`: four bytes, most significant first, two's complement.
  function DecodeI32(b: seq<byte>): (v: int)
    requires |b| == 4
    ensures IsInt32(v)
    ensures (v < 0) == (b[0] >= 128)
  {
    var u: int := ((b[0] as int * 256 + b[1]) * 256 + b[2]) * 256 + b[3];
    if u < TwoTo31 then u else u - TwoTo32
  }

  function EncodeI32(v: int): (b: seq<byte>)
    requires IsInt32(v)
    ensures |b| == 4
  {
    var u := if v < 0 then v + TwoTo32 else v;
    [u / 0x100_0000, u / 0x1_0000 % 256, u / 0x100 % 256, u % 256]
  }

  lemma DecodeEncodeI32(v: int)
    requires IsInt32(v)
    ensures DecodeI32(EncodeI32(v)) == v
  {
    var u := if v < 0 then v + TwoTo32 else v;
    var u1, u2 := u / 0x100, u / 0x100 / 0x100;
    DivModUnique(u, 0x1_0000, u2, u1 % 0x100 * 0x100 + u % 0x100);
    DivModUnique(u, 0x100_0000, u2 / 0x100, u2 % 0x100 * 0x1_0000 + u1 % 0x100 * 0x100 + u % 0x100);
    var b := EncodeI32(v);
    assert b[0] as int * 0x100_0000 + b[1] as int * 0x1_0000 + b[2] as int * 0x100 + b[3] == u;
  }

  lemma EncodeDecodeI32(b: seq<byte>)
    requires |b| == 4
    ensures EncodeI32(DecodeI32(b)) == b
  {
    var u: int := ((b[0] as int * 256 + b[1]) * 256 + b[2]) * 256 + b[3];
    var v := DecodeI32(b);
    assert u == if v < 0 then v + TwoTo32 else v;
    DivModUnique(u, 0x100_0000, b[0], (b[1] as int * 256 + b[2]) * 256 + b[3]);
    DivModUnique(u, 0x1_0000, b[0] as int * 256 + b[1], b[2] as int * 256 + b[3]);
    DivModUnique(b[0] as int * 256 + b[1], 256, b[0], b[1]);
    DivModUnique(u, 0x100, (b[0] as int * 256 + b[1]) * 256 + b[2], b[3]);
    DivModUnique((b[0] as int * 256 + b[1]) * 256 + b[2], 256, b[0] as int * 256 + b[1], b[2]);
  }

  /// Python 2 `str` written to a binary file: one byte per character.
  /// Every character the programs write is ASCII, whose byte is its code.
  function Ascii(s: string): (b: seq<byte>)
    ensures |b| == |s|
    ensures forall i :: 0 <= i < |s| && s[i] as int < 256 ==> b[i] == s[i] as int
  {
    seq(|s|, i requires 0 <= i < |s| => s[i] as int % 256)
  }

  lemma AsciiConcat(s: string, t: string)
    ensures Ascii(s + t) == Ascii(s) + Ascii(t)
  {
  }
}
