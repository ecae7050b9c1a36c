// Shared value types: optional values, results, bytes and the integer
// encodings the gateway and the firmware use on the wire.

module Wrappers {
  datatype Option<T> = None | Some(value: T)

  datatype Result<T, E> = Ok(value: T) | Err(error: E)
}

/** Status codes of the firmware's pw::Status, as far as the core uses them. */
module PwStatus {
  datatype Code =
    | DataLoss
    | Internal
    | NotFound
    | OutOfRange
    | ResourceExhausted
    | InvalidArgument
    | Unauthenticated
    | DeadlineExceeded
    | FailedPrecondition
    | PermissionDenied
    | Aborted
    | Unknown
    | Unimplemented
}

module Bytes {
  type byte = b: int | 0 <= b < 256
  type uint16 = n: int | 0 <= n < 0x1_0000
  type uint32 = n: int | 0 <= n < 0x1_0000_0000

  function Pow256(k: nat): (p: nat)
    ensures p >= 1
  {
    if k == 0 then 1 else 256 * Pow256(k - 1)
  }

  /** Unsigned big-endian reading of a byte string (Python's int.from_bytes(.., "big")). */
  function BigEndian(s: seq<byte>): (n: nat)
    ensures n < Pow256(|s|)
  {
    if s == [] then 0 else BigEndian(s[..|s| - 1]) * 256 + s[|s| - 1]
  }

  /** The `len` big-endian bytes of `n` (Python's n.to_bytes(len, "big"), struct ">Q"). */
  function ToBigEndian(n: nat, len: nat): (s: seq<byte>)
    requires n < Pow256(len)
    ensures |s| == len
  {
    if len == 0 then [] else ToBigEndian(n / 256, len - 1) + [n % 256]
  }

  lemma {:induction false} BigEndianOfToBigEndian(n: nat, len: nat)
    requires n < Pow256(len)
    ensures BigEndian(ToBigEndian(n, len)) == n
  {
    if len > 0 {
      var s := ToBigEndian(n, len);
      assert s[..|s| - 1] == ToBigEndian(n / 256, len - 1);
      BigEndianOfToBigEndian(n / 256, len - 1);
    }
  }

  lemma {:induction false} ToBigEndianOfBigEndian(s: seq<byte>)
    ensures ToBigEndian(BigEndian(s), |s|) == s
  {
    if s != [] {
      var init, last := s[..|s| - 1], s[|s| - 1];
      var n := BigEndian(s);
      assert n == BigEndian(init) * 256 + last;
      assert n / 256 == BigEndian(init) && n % 256 == last;
      ToBigEndianOfBigEndian(init);
      assert s == init + [last];
    }
  }

  /** Two byte strings of the same length are equal iff their big-endian values are. */
  lemma BigEndianInjective(a: seq<byte>, b: seq<byte>)
    requires |a| == |b|
    ensures BigEndian(a) == BigEndian(b) <==> a == b
  {
    if BigEndian(a) == BigEndian(b) {
      ToBigEndianOfBigEndian(a);
      ToBigEndianOfBigEndian(b);
    }
  }

  /** Unsigned little-endian reading (byte 0 least significant). */
  function LittleEndian(s: seq<byte>): (n: nat)
    ensures n < Pow256(|s|)
  {
    if s == [] then 0 else s[0] + 256 * LittleEndian(s[1..])
  }

  /** The `len` little-endian bytes of `n`. */
  function ToLittleEndian(n: nat, len: nat): (s: seq<byte>)
    requires n < Pow256(len)
    ensures |s| == len
  {
    if len == 0 then [] else [n % 256] + ToLittleEndian(n / 256, len - 1)
  }

  lemma {:induction false} LittleEndianOfToLittleEndian(n: nat, len: nat)
    requires n < Pow256(len)
    ensures LittleEndian(ToLittleEndian(n, len)) == n
  {
    if len > 0 {
      var s := ToLittleEndian(n, len);
      assert s[1..] == ToLittleEndian(n / 256, len - 1);
      LittleEndianOfToLittleEndian(n / 256, len - 1);
    }
  }

  lemma {:induction false} ToLittleEndianOfLittleEndian(s: seq<byte>)
    ensures ToLittleEndian(LittleEndian(s), |s|) == s
  {
    if s != [] {
      var n := LittleEndian(s);
      assert n == s[0] + 256 * LittleEndian(s[1..]);
      assert n % 256 == s[0] && n / 256 == LittleEndian(s[1..]);
      ToLittleEndianOfLittleEndian(s[1..]);
      assert s == [s[0]] + s[1..];
    }
  }

  function Pow2(k: nat): (p: nat)
    ensures p >= 1
  {
    if k == 0 then 1 else 2 * Pow2(k - 1)
  }

  /** Bitwise exclusive or of the low `width` bits, least significant bit first. */
  function XorBits(a: nat, b: nat, width: nat): (r: nat)
    requires a < Pow2(width) && b < Pow2(width)
    ensures r < Pow2(width)
  {
    if width == 0 then 0
    else (if a % 2 == b % 2 then 0 else 1) + 2 * XorBits(a / 2, b / 2, width - 1)
  }

  /** Bitwise inclusive or of the low `width` bits. */
  function OrBits(a: nat, b: nat, width: nat): (r: nat)
    requires a < Pow2(width) && b < Pow2(width)
    ensures r < Pow2(width)
  {
    if width == 0 then 0
    else (if a % 2 == 0 && b % 2 == 0 then 0 else 1) + 2 * OrBits(a / 2, b / 2, width - 1)
  }

  /** The lowest bit of an exclusive or, and the exclusive or of the bits above it. */
  lemma XorBitsStep(a: nat, b: nat, width: nat)
    requires width > 0 && a < Pow2(width) && b < Pow2(width)
    ensures XorBits(a, b, width) % 2 == if a % 2 == b % 2 then 0 else 1
    ensures XorBits(a, b, width) / 2 == XorBits(a / 2, b / 2, width - 1)
  {
  }

  lemma {:induction false} XorBitsCancel(a: nat, b: nat, width: nat)
    requires a < Pow2(width) && b < Pow2(width)
    ensures XorBits(XorBits(a, b, width), b, width) == a
  {
    if width > 0 {
      var r := XorBits(a, b, width);
      var x := XorBits(r, b, width);
      XorBitsStep(a, b, width);
      XorBitsStep(r, b, width);
      XorBitsCancel(a / 2, b / 2, width - 1);
      assert x / 2 == a / 2;
      assert x % 2 == a % 2;
    }
  }

  lemma {:induction false} XorBitsZero(a: nat, b: nat, width: nat)
    requires a < Pow2(width) && b < Pow2(width)
    ensures XorBits(a, b, width) == 0 <==> a == b
  {
    if width > 0 {
      XorBitsZero(a / 2, b / 2, width - 1);
    } else {
      assert a == 0 && b == 0;
    }
  }

  lemma {:induction false} OrBitsZero(a: nat, b: nat, width: nat)
    requires a < Pow2(width) && b < Pow2(width)
    ensures OrBits(a, b, width) == 0 <==> a == 0 && b == 0
  {
    if width > 0 {
      OrBitsZero(a / 2, b / 2, width - 1);
    } else {
      assert a == 0 && b == 0;
    }
  }

  /** XOR with zero keeps every bit. */
  lemma {:induction false} XorBitsWithZero(a: nat, width: nat)
    requires a < Pow2(width)
    ensures XorBits(a, 0, width) == a
  {
    if width > 0 {
      XorBitsWithZero(a / 2, width - 1);
    }
  }

  function Xor(a: byte, b: byte): byte
  {
    assert Pow2(8) == 256;
    XorBits(a, b, 8)
  }

  function Or(a: byte, b: byte): byte
  {
    assert Pow2(8) == 256;
    OrBits(a, b, 8)
  }

  function XorBytes(a: seq<byte>, b: seq<byte>): (r: seq<byte>)
    requires |a| == |b|
    ensures |r| == |a|
    ensures forall i :: 0 <= i < |r| ==> r[i] == Xor(a[i], b[i])
  {
    seq(|a|, i requires 0 <= i < |a| => Xor(a[i], b[i]))
  }

  /** XORing with the same byte twice gives the byte back. */
  lemma XorCancel(a: byte, b: byte)
    ensures Xor(Xor(a, b), b) == a
  {
    assert Pow2(8) == 256;
    XorBitsCancel(a, b, 8);
  }

  lemma XorWithZero(a: byte)
    ensures Xor(a, 0) == a
  {
    assert Pow2(8) == 256;
    XorBitsWithZero(a, 8);
  }

  /** The top bit of a byte is set exactly from 0x80 up. */
  lemma HasTopBit(b: byte)
    ensures HasBit(b, 0x80) <==> b >= 0x80
  {
  }

  /** Two bytes XOR to zero exactly when they are equal. */
  lemma XorZero(a: byte, b: byte)
    ensures Xor(a, b) == 0 <==> a == b
  {
    assert Pow2(8) == 256;
    XorBitsZero(a, b, 8);
  }

  lemma OrZero(a: byte, b: byte)
    ensures Or(a, b) == 0 <==> a == 0 && b == 0
  {
    assert Pow2(8) == 256;
    OrBitsZero(a, b, 8);
  }

  lemma XorBytesCancel(a: seq<byte>, b: seq<byte>)
    requires |a| == |b|
    ensures XorBytes(XorBytes(a, b), b) == a
  {
    forall i | 0 <= i < |a| ensures XorBytes(XorBytes(a, b), b)[i] == a[i] {
      XorCancel(a[i], b[i]);
    }
  }

  /** Whether bit `mask` (a power of two) is set in `b`, i.e. (b & mask) != 0. */
  function HasBit(b: byte, mask: byte): bool
  {
    ((b as bv8) & (mask as bv8)) != 0
  }

  /** s with piece written over it from position at. */
  function Overwrite(s: seq<byte>, at: nat, piece: seq<byte>): (r: seq<byte>)
    requires at + |piece| <= |s|
    ensures |r| == |s| && r[..at] == s[..at] && r[at..at + |piece|] == piece
    ensures r[at + |piece|..] == s[at + |piece|..]
  {
    s[..at] + piece + s[at + |piece|..]
  }

  /** Two writes side by side are one write of both. */
  lemma OverwriteAdjacent(s: seq<byte>, at: nat, x: seq<byte>, y: seq<byte>)
    requires at + |x| + |y| <= |s|
    ensures Overwrite(Overwrite(s, at, x), at + |x|, y) == Overwrite(s, at, x + y)
  {
    var r := Overwrite(Overwrite(s, at, x), at + |x|, y);
    assert r[..at] == s[..at];
    assert r[at..at + |x| + |y|] == x + y;
    assert r == r[..at] + r[at..at + |x| + |y|] + r[at + |x| + |y|..];
  }

  /** Three pieces written back to back from the front are one write of their concatenation. */
  lemma OverwriteThree(s: seq<byte>, x: seq<byte>, y: seq<byte>, z: seq<byte>)
    requires |x| + |y| + |z| <= |s|
    ensures Overwrite(Overwrite(Overwrite(s, 0, x), |x|, y), |x| + |y|, z) == Overwrite(s, 0, x + y + z)
  {
    OverwriteAdjacent(s, 0, x, y);
    OverwriteAdjacent(s, 0, x + y, z);
  }

  /** Writing one more byte right after a written piece extends the piece. */
  lemma OverwriteExtend(s: seq<byte>, at: nat, piece: seq<byte>, x: byte)
    requires at + |piece| < |s|
    ensures Overwrite(s, at, piece)[at + |piece| := x] == Overwrite(s, at, piece + [x])
  {
    var r := Overwrite(s, at, piece)[at + |piece| := x];
    var e := Overwrite(s, at, piece + [x]);
    forall k | 0 <= k < |s|
      ensures r[k] == e[k]
    {
      if k < at {
        assert e[k] == e[..at][k];
        assert Overwrite(s, at, piece)[k] == Overwrite(s, at, piece)[..at][k];
      } else if k < at + |piece| + 1 {
        assert e[k] == e[at..at + |piece| + 1][k - at];
        if k < at + |piece| {
          assert Overwrite(s, at, piece)[k] == Overwrite(s, at, piece)[at..at + |piece|][k - at];
        }
      } else {
        assert e[k] == e[at + |piece| + 1..][k - at - |piece| - 1];
        assert Overwrite(s, at, piece)[k] == Overwrite(s, at, piece)[at + |piece|..][k - at - |piece|];
      }
    }
  }

  /** Copies piece into a from position at, byte by byte; nothing else changes. */
  method WriteBytes(a: array<byte>, at: nat, piece: seq<byte>)
    requires at + |piece| <= a.Length
    modifies a
    ensures a[..] == Overwrite(old(a[..]), at, piece)
  {
    ghost var before := a[..];
    assert a[..] == Overwrite(before, at, piece[..0]);
    for i := 0 to |piece|
      invariant a[..] == Overwrite(before, at, piece[..i])
    {
      OverwriteExtend(before, at, piece[..i], piece[i]);
      assert piece[..i + 1] == piece[..i] + [piece[i]];
      a[at + i] := piece[i];
    }
    assert piece[..|piece|] == piece;
  }

  function Zeros(n: nat): (r: seq<byte>)
    ensures |r| == n && forall i :: 0 <= i < n ==> r[i] == 0
  {
    seq(n, _ => 0)
  }
}
