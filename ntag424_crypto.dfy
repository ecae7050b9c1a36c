// NTAG 424 DNA authentication helpers: the session vectors SV1 and SV2 from
// which the session keys are derived, the one-byte rotation of RndA and its
// check. AES-CBC and AES-CMAC are foreign and appear as the fields of `Aes`.

module Ntag424Crypto {
  import opened Wrappers
  import opened Bytes
  import opened PwStatus

  const KEY_SIZE: nat := 16
  const RND_SIZE: nat := 16
  const SV_SIZE: nat := 32
  const CMAC_SIZE: nat := 16

  /** A full AES-CMAC: always one block. */
  type Block = s: seq<byte> | |s| == CMAC_SIZE witness Zeros(CMAC_SIZE)

  /** AES-CBC with (key, iv, input): its output is as long as its input, or it fails with a status. */
  type Cipher = f: (seq<byte>, seq<byte>, seq<byte>) -> Result<seq<byte>, Code>
    | forall key, iv, input :: f(key, iv, input).Ok? ==> |f(key, iv, input).value| == |input|
    witness (key: seq<byte>, iv: seq<byte>, input: seq<byte>) => Ok(input)

  /**
   * The AES primitives of the crypto library: CBC encryption and decryption,
   * and CMAC with (key, message). Each may fail with a status.
   */
  datatype Aes = Aes(cbcEncrypt: Cipher, cbcDecrypt: Cipher, cmac: (seq<byte>, seq<byte>) -> Result<Block, Code>)

  const SV1_PREFIX: seq<byte> := [0xA5, 0x5A]
  const SV2_PREFIX: seq<byte> := [0x5A, 0xA5]

  /**
   * SV = prefix || 00 01 00 80 || RndA[0..2] || (RndB[0..6] xor RndA[2..8])
   *      || RndB[6..16] || RndA[8..16]
   */
  function SessionVector(b0: byte, b1: byte, rndA: seq<byte>, rndB: seq<byte>): (sv: seq<byte>)
    requires |rndA| == RND_SIZE && |rndB| == RND_SIZE
    ensures |sv| == SV_SIZE
    ensures sv[..6] == [b0, b1, 0x00, 0x01, 0x00, 0x80]
    ensures sv[6..8] == rndA[..2]
    ensures forall i | 0 <= i < 6 :: sv[8 + i] == Xor(rndB[i], rndA[2 + i])
    ensures sv[14..24] == rndB[6..] && sv[24..] == rndA[8..]
  {
    [b0, b1, 0x00, 0x01, 0x00, 0x80] + rndA[..2] + XorBytes(rndB[..6], rndA[2..8]) + rndB[6..] + rndA[8..]
  }

  /** SV1 and SV2 differ only in their two prefix bytes. */
  lemma SessionVectorsDifferInPrefix(rndA: seq<byte>, rndB: seq<byte>)
    requires |rndA| == RND_SIZE && |rndB| == RND_SIZE
    ensures var sv1 := SessionVector(SV1_PREFIX[0], SV1_PREFIX[1], rndA, rndB);
            var sv2 := SessionVector(SV2_PREFIX[0], SV2_PREFIX[1], rndA, rndB);
            sv1[2..] == sv2[2..] && sv1[..2] != sv2[..2]
  {
    var sv1 := SessionVector(SV1_PREFIX[0], SV1_PREFIX[1], rndA, rndB);
    var sv2 := SessionVector(SV2_PREFIX[0], SV2_PREFIX[1], rndA, rndB);
    assert sv1[0] != sv2[0];
    assert forall i | 2 <= i < SV_SIZE :: sv1[i] == sv2[i];
  }

  /** One of the copy loops: src is written at position `at`, nothing else changes. */
  method CopyInto(dst: array<byte>, at: nat, src: seq<byte>)
    requires at + |src| <= dst.Length
    modifies dst
    ensures dst[..at] == old(dst[..at])
    ensures dst[at..at + |src|] == src
    ensures dst[at + |src|..] == old(dst[at + |src|..])
  {
    for i := 0 to |src|
      invariant dst[..at] == old(dst[..at])
      invariant dst[at..at + i] == src[..i]
      invariant dst[at + i..] == old(dst[at + i..])
    {
      dst[at + i] := src[i];
      assert dst[at..at + i + 1] == dst[at..at + i] + [src[i]];
    }
  }

  /** The XOR loop: the bytes at position `at` are XORed with src in place, nothing else changes. */
  method XorInto(dst: array<byte>, at: nat, src: seq<byte>)
    requires at + |src| <= dst.Length
    modifies dst
    ensures dst[..at] == old(dst[..at])
    ensures dst[at..at + |src|] == XorBytes(old(dst[at..at + |src|]), src)
    ensures dst[at + |src|..] == old(dst[at + |src|..])
  {
    ghost var before := dst[at..at + |src|];
    for i := 0 to |src|
      invariant dst[..at] == old(dst[..at])
      invariant dst[at..at + i] == XorBytes(before[..i], src[..i])
      invariant dst[at + i..] == old(dst[at + i..])
    {
      assert dst[at + i] == before[i];
      dst[at + i] := Xor(dst[at + i], src[i]);
      assert dst[at..at + i + 1] == dst[at..at + i] + [Xor(before[i], src[i])];
    }
  }

  /** Writes the session vector into the first 32 bytes of `sv`, in the firmware's order of steps. */
  method CalculateSV(b0: byte, b1: byte, rndA: seq<byte>, rndB: seq<byte>, sv: array<byte>)
    requires |rndA| == RND_SIZE && |rndB| == RND_SIZE && sv.Length >= SV_SIZE
    modifies sv
    ensures sv[..SV_SIZE] == SessionVector(b0, b1, rndA, rndB)
    ensures sv[SV_SIZE..] == old(sv[SV_SIZE..])
  {
    ghost var tail := sv[SV_SIZE..];
    sv[0] := b0;
    sv[1] := b1;
    sv[2] := 0x00;
    sv[3] := 0x01;
    sv[4] := 0x00;
    sv[5] := 0x80;
    sv[6] := rndA[0];
    sv[7] := rndA[1];
    assert sv[SV_SIZE..] == tail;
    var head := sv[..8];
    assert head == [b0, b1, 0x00, 0x01, 0x00, 0x80] + rndA[..2];
    CopyInto(sv, 8, rndB[..6]);
    assert sv[SV_SIZE..] == sv[14..][SV_SIZE - 14..];
    XorInto(sv, 8, rndA[2..8]);
    assert sv[SV_SIZE..] == sv[14..][SV_SIZE - 14..] == tail;
    var upTo14 := sv[..14];
    assert upTo14 == head + XorBytes(rndB[..6], rndA[2..8]);
    CopyInto(sv, 14, rndB[6..]);
    assert sv[SV_SIZE..] == sv[24..][SV_SIZE - 24..] == tail;
    var upTo24 := sv[..24];
    assert upTo24 == upTo14 + rndB[6..];
    CopyInto(sv, 24, rndA[8..]);
    assert sv[..SV_SIZE] == upTo24 + rndA[8..];
  }

  /** The two session keys: SesAuthEncKey from SV1, SesAuthMACKey from SV2. */
  datatype SessionKeys = SessionKeys(encKey: Block, macKey: Block)

  /**
   * Checks the sizes of key, RndA and RndB and of the two output buffers,
   * then derives each session key as the CMAC of its vector under the
   * authentication key.
   */
  function DeriveSessionKeys(aes: Aes, authKey: seq<byte>, rndA: seq<byte>, rndB: seq<byte>,
                             encOutSize: nat, macOutSize: nat): (r: Result<SessionKeys, Code>)
    ensures |authKey| != KEY_SIZE || |rndA| != RND_SIZE || |rndB| != RND_SIZE ==> r == Err(InvalidArgument)
    ensures (|authKey| == KEY_SIZE && |rndA| == RND_SIZE && |rndB| == RND_SIZE
             && (encOutSize < KEY_SIZE || macOutSize < KEY_SIZE)) ==> r == Err(ResourceExhausted)
    ensures r.Ok? ==>
      |rndA| == RND_SIZE && |rndB| == RND_SIZE
      && aes.cmac(authKey, SessionVector(SV1_PREFIX[0], SV1_PREFIX[1], rndA, rndB)) == Ok(r.value.encKey)
      && aes.cmac(authKey, SessionVector(SV2_PREFIX[0], SV2_PREFIX[1], rndA, rndB)) == Ok(r.value.macKey)
  {
    if |authKey| != KEY_SIZE then Err(InvalidArgument)
    else if |rndA| != RND_SIZE || |rndB| != RND_SIZE then Err(InvalidArgument)
    else if encOutSize < KEY_SIZE || macOutSize < KEY_SIZE then Err(ResourceExhausted)
    else
      match aes.cmac(authKey, SessionVector(SV1_PREFIX[0], SV1_PREFIX[1], rndA, rndB))
      case Err(e) => Err(e)
      case Ok(encKey) =>
        match aes.cmac(authKey, SessionVector(SV2_PREFIX[0], SV2_PREFIX[1], rndA, rndB))
        case Err(e) => Err(e)
        case Ok(macKey) => Ok(SessionKeys(encKey, macKey))
  }

  /** A failing CMAC is the error of the derivation. */
  lemma DeriveSessionKeysFailsWithCmac(aes: Aes, authKey: seq<byte>, rndA: seq<byte>, rndB: seq<byte>)
    requires |authKey| == KEY_SIZE && |rndA| == RND_SIZE && |rndB| == RND_SIZE
    ensures var r := DeriveSessionKeys(aes, authKey, rndA, rndB, KEY_SIZE, KEY_SIZE);
      var c1 := aes.cmac(authKey, SessionVector(SV1_PREFIX[0], SV1_PREFIX[1], rndA, rndB));
      var c2 := aes.cmac(authKey, SessionVector(SV2_PREFIX[0], SV2_PREFIX[1], rndA, rndB));
      (r.Ok? <==> c1.Ok? && c2.Ok?)
      && (c1.Err? ==> r == Err(c1.error))
      && (c1.Ok? && c2.Err? ==> r == Err(c2.error))
  {
  }

  /** The bytes moved one place to the left, the first one last. */
  function Rotated(s: seq<byte>): (r: seq<byte>)
    requires |s| >= 1
    ensures |r| == |s|
    ensures forall i | 0 <= i < |s| - 1 :: r[i] == s[i + 1]
    ensures r[|s| - 1] == s[0]
  {
    s[1..] + [s[0]]
  }

  /** The inverse rotation, the last byte first. */
  function RotatedRight(s: seq<byte>): seq<byte>
    requires |s| >= 1
  {
    [s[|s| - 1]] + s[..|s| - 1]
  }

  lemma RotatedRightOfRotated(s: seq<byte>)
    requires |s| >= 1
    ensures RotatedRight(Rotated(s)) == s
  {
    assert RotatedRight(Rotated(s)) == [s[0]] + s[1..];
  }

  method RotateLeft1(input: seq<byte>, output: array<byte>)
    requires |input| == output.Length && |input| >= 1
    modifies output
    ensures output[..] == Rotated(input)
  {
    var len := |input|;
    var first := input[0];
    for i := 0 to len - 1
      invariant forall k | 0 <= k < i :: output[k] == input[k + 1]
    {
      output[i] := input[i + 1];
    }
    output[len - 1] := first;
  }

  /** RndA' must be RndA rotated left by one byte, both 16 bytes. */
  method VerifyRndAPrime(rndA: seq<byte>, rndAPrime: seq<byte>) returns (ok: bool)
    ensures ok <==> |rndA| == RND_SIZE && |rndAPrime| == RND_SIZE && rndAPrime == Rotated(rndA)
  {
    if |rndA| != |rndAPrime| || |rndA| != RND_SIZE {
      return false;
    }
    for i := 0 to 15
      invariant forall k | 0 <= k < i :: rndAPrime[k] == rndA[k + 1]
    {
      if rndAPrime[i] != rndA[i + 1] {
        return false;
      }
    }
    ok := rndAPrime[15] == rndA[0];
    if ok {
      assert rndAPrime == Rotated(rndA);
    }
  }
}
