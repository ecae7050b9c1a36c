// Key diversification for NTAG 424 DNA tags after NXP's AN10922: each tag
// gets its own AES-128 keys, derived with AES-CMAC under a master key from the
// tag's uid, the key slot's id and the system name. The CMAC is written out
// as in the note: two subkeys by doubling the encryption of the zero block,
// the message padded to two blocks, its last block masked with a subkey, and
// the last block of a zero-IV CBC encryption taken as the key.

module NtagKeyDiversification {
  import opened Wrappers
  import opened Bytes

  /** AES-128 encryption as (key, data) -> ciphertext: ECB on one block, or CBC with a zero IV; the output is as long as the input. */
  type AesEncrypt = f: (seq<byte>, seq<byte>) -> seq<byte>
    | forall key, data :: |f(key, data)| == |data|
    witness (key: seq<byte>, data: seq<byte>) => data

  datatype Aes = Aes(ecbEncryptBlock: AesEncrypt, cbcEncrypt: AesEncrypt)

  /** The diversification constant of each key slot. */
  const KEY_IDS: map<string, seq<byte>> := map[
    "application" := [0x00, 0x00, 0x01],
    "terminal" := [0x00, 0x00, 0x02],
    "authorization" := [0x00, 0x00, 0x03],
    "reserved1" := [0x00, 0x00, 0x04],
    "reserved2" := [0x00, 0x00, 0x05]]

  /** The reduction constant of GF(2^128) for x^128 + x^7 + x^2 + x + 1. */
  const RB: seq<byte> := Zeros(15) + [0x87]

  const BLOCK_SIZE: nat := 16
  const MASTER_KEY_SIZE: nat := 16
  const UID_SIZE: nat := 7
  /** The longest diversification input; with the 0x01 prefix the CMAC message is two blocks. */
  const MAX_DIV_INPUT: nat := 31

  /** The exceptions the tool raises: a failed assertion, or an unknown key name. */
  datatype Failure = AssertionFailed | KeyError

  // ---------------------------------------------------------------------------
  // Doubling in GF(2^128).
  // ---------------------------------------------------------------------------

  /** Every byte shifted left by one, taking the top bit of the next byte, and carryIn at the end. */
  function ShiftIn(d: seq<byte>, carryIn: nat): (r: seq<byte>)
    requires carryIn <= 1
    ensures |r| == |d|
  {
    seq(|d|, i requires 0 <= i < |d| => (d[i] as int * 2 + (if i + 1 < |d| then d[i + 1] as int / 128 else carryIn)) % 256)
  }

  /** The block shifted left by one bit, its top bit dropped. */
  function LeftShift(d: seq<byte>): (r: seq<byte>)
    ensures |r| == |d|
  {
    ShiftIn(d, 0)
  }

  /** The weight of the bit shifted out of d: 256^|d| when d's top bit is set. */
  function CarryOut(d: seq<byte>): nat
    requires |d| >= 1
  {
    if d[0] >= 0x80 then Pow256(|d|) else 0
  }

  /** The last byte of a shifted string takes the carry; the rest is the shift of the rest. */
  lemma ShiftInSnoc(d: seq<byte>, carryIn: nat)
    requires |d| >= 1 && carryIn <= 1
    ensures ShiftIn(d, carryIn) == ShiftIn(d[..|d| - 1], d[|d| - 1] / 128) + [(d[|d| - 1] * 2 + carryIn) % 256]
  {
  }

  /** Shifting doubles the value; the bit shifted out is the first byte's top bit. */
  lemma {:induction false} ShiftInDoubles(d: seq<byte>, carryIn: nat)
    requires |d| >= 1 && carryIn <= 1
    ensures BigEndian(ShiftIn(d, carryIn)) + CarryOut(d) == 2 * BigEndian(d) + carryIn
    decreases |d|
  {
    var n := |d|;
    var last := d[n - 1];
    var init := d[..n - 1];
    var carry := last / 128;
    var low := (last * 2 + carryIn) % 256;
    ShiftInSnoc(d, carryIn);
    var shifted := ShiftIn(d, carryIn);
    var shiftedInit := ShiftIn(init, carry);
    assert shifted[..n - 1] == shiftedInit && shifted[n - 1] == low;
    assert BigEndian(shifted) == BigEndian(shiftedInit) * 256 + low;
    assert BigEndian(d) == BigEndian(init) * 256 + last;
    DoubleDigit(last, carryIn);
    if n == 1 {
      assert BigEndian(shiftedInit) == 0 && BigEndian(init) == 0;
    } else {
      ShiftInDoubles(init, carry);
      assert init[0] == d[0];
      assert CarryOut(d) == CarryOut(init) * 256;
    }
  }

  /** One byte doubled with a carry in: the bit out is worth 256. */
  lemma DoubleDigit(b: byte, carryIn: nat)
    requires carryIn <= 1
    ensures (b / 128) * 256 + (b * 2 + carryIn) % 256 == 2 * b + carryIn
  {
  }

  /** The top bit of a block. */
  predicate TopBit(d: seq<byte>)
    requires |d| >= 1
  {
    HasBit(d[0], 0x80)
  }

  /** Multiplication by x in GF(2^128): shift, and reduce by RB when a bit falls off. */
  function Double(k: seq<byte>): (r: seq<byte>)
    requires |k| == BLOCK_SIZE
    ensures |r| == BLOCK_SIZE
  {
    if TopBit(k) then XorBytes(LeftShift(k), RB) else LeftShift(k)
  }

  /**
   * Doubling without a carry is multiplication by two; with one, the value
   * wraps past 2^128 and only the last byte takes the reduction 0x87.
   */
  lemma DoubleIsGfDoubling(k: seq<byte>)
    requires |k| == BLOCK_SIZE
    ensures !TopBit(k) ==> BigEndian(Double(k)) == 2 * BigEndian(k)
    ensures TopBit(k) ==> BigEndian(LeftShift(k)) + Pow256(BLOCK_SIZE) == 2 * BigEndian(k)
    ensures TopBit(k) ==> Double(k)[..15] == LeftShift(k)[..15] && Double(k)[15] == Xor(LeftShift(k)[15], 0x87)
  {
    ShiftInDoubles(k, 0);
    HasTopBit(k[0]);
    if TopBit(k) {
      forall i | 0 <= i < 15
        ensures Double(k)[i] == LeftShift(k)[i]
      {
        XorWithZero(LeftShift(k)[i]);
      }
    }
  }

  /** The two CMAC subkeys: the zero block encrypted under the key, doubled once and twice. */
  function Subkeys(aes: Aes, masterKey: seq<byte>): (ks: (seq<byte>, seq<byte>))
    ensures |ks.0| == BLOCK_SIZE && |ks.1| == BLOCK_SIZE
  {
    var k0 := aes.ecbEncryptBlock(masterKey, Zeros(BLOCK_SIZE));
    var k1 := Double(k0);
    (k1, Double(k1))
  }

  /** Shifts a block left by one bit into a new buffer. */
  method ShiftLeftBlock(data: seq<byte>) returns (out: array<byte>)
    requires |data| == BLOCK_SIZE
    ensures fresh(out) && out[..] == LeftShift(data)
  {
    out := new byte[BLOCK_SIZE](_ => 0);
    for i := 0 to 15
      invariant forall j :: 0 <= j < i ==> out[j] == LeftShift(data)[j]
    {
      // The top bit of the next byte lands in the cleared low bit, so the OR is an addition.
      out[i] := (data[i] as int * 2 + data[i + 1] as int / 128) % 256;
    }
    out[15] := data[15] as int * 2 % 256;
  }

  /** XORs RB into the buffer in place. */
  method XorRbInto(k: array<byte>)
    requires k.Length == BLOCK_SIZE
    modifies k
    ensures k[..] == XorBytes(old(k[..]), RB)
  {
    for i := 0 to BLOCK_SIZE
      invariant forall j :: 0 <= j < i ==> k[j] == Xor(old(k[j]), RB[j])
      invariant forall j :: i <= j < BLOCK_SIZE ==> k[j] == old(k[j])
    {
      k[i] := Xor(k[i], RB[i]);
    }
  }

  method GenerateSubkeys(aes: Aes, masterKey: seq<byte>) returns (k1: seq<byte>, k2: seq<byte>)
    ensures (k1, k2) == Subkeys(aes, masterKey)
  {
    var k0 := aes.ecbEncryptBlock(masterKey, Zeros(BLOCK_SIZE));
    var a1 := ShiftLeftBlock(k0);
    if HasBit(k0[0], 0x80) {
      XorRbInto(a1);
    }
    var a2 := ShiftLeftBlock(a1[..]);
    if HasBit(a1[0], 0x80) {
      XorRbInto(a2);
    }
    k1, k2 := a1[..], a2[..];
  }

  // ---------------------------------------------------------------------------
  // The CMAC message.
  // ---------------------------------------------------------------------------

  /** ISO/IEC 9797-1 method 2 up to 31 bytes: 0x80 and zeros, nothing when the input is already full. */
  function Padding(divInput: seq<byte>): (p: seq<byte>)
    ensures |divInput| < MAX_DIV_INPUT ==> |divInput| + |p| == MAX_DIV_INPUT && p[0] == 0x80
    ensures |divInput| >= MAX_DIV_INPUT ==> p == []
  {
    if MAX_DIV_INPUT - |divInput| > 0 then [0x80] + Zeros(MAX_DIV_INPUT - |divInput| - 1) else []
  }

  /** The message before masking: 0x01, the input, the padding. */
  function CmacMessage(divInput: seq<byte>): (m: seq<byte>)
    ensures |m| == 1 + |divInput| + |Padding(divInput)|
  {
    [0x01] + divInput + Padding(divInput)
  }

  /** The message is two blocks exactly when the input has at most 31 bytes. */
  lemma CmacMessageIsTwoBlocks(divInput: seq<byte>)
    ensures |CmacMessage(divInput)| == 2 * BLOCK_SIZE <==> |divInput| <= MAX_DIV_INPUT
  {
  }

  /** Removes method-2 padding: trailing zeros, then the 0x80; none if there is no 0x80. */
  function Unpad(s: seq<byte>): (r: Option<seq<byte>>)
    ensures r.Some? ==> |r.value| < |s|
    decreases |s|
  {
    if s == [] then None
    else if s[|s| - 1] == 0x00 then Unpad(s[..|s| - 1])
    else if s[|s| - 1] == 0x80 then Some(s[..|s| - 1])
    else None
  }

  lemma {:induction false} UnpadZeros(d: seq<byte>, n: nat)
    ensures Unpad(d + [0x80] + Zeros(n)) == Some(d)
    decreases n
  {
    var s := d + [0x80] + Zeros(n);
    if n == 0 {
      assert s == d + [0x80];
      assert s[..|s| - 1] == d;
    } else {
      assert s[..|s| - 1] == d + [0x80] + Zeros(n - 1);
      UnpadZeros(d, n - 1);
    }
  }

  /** Padding is undone: a short input is recovered from its padded form. */
  lemma UnpadPadding(divInput: seq<byte>)
    requires |divInput| < MAX_DIV_INPUT
    ensures Unpad(divInput + Padding(divInput)) == Some(divInput)
  {
    var n := MAX_DIV_INPUT - |divInput| - 1;
    PaddingIsMarkerThenZeros(divInput);
    UnpadZeros(divInput, n);
  }

  lemma PaddingIsMarkerThenZeros(divInput: seq<byte>)
    requires |divInput| < MAX_DIV_INPUT
    ensures divInput + Padding(divInput) == divInput + [0x80] + Zeros(MAX_DIV_INPUT - |divInput| - 1)
  {
  }

  /** The message with its last block XORed with K2 when padded, K1 when not. */
  function MaskedMessage(aes: Aes, masterKey: seq<byte>, divInput: seq<byte>): (m: seq<byte>)
    requires |divInput| <= MAX_DIV_INPUT
    ensures |m| == 2 * BLOCK_SIZE && m[..BLOCK_SIZE] == CmacMessage(divInput)[..BLOCK_SIZE]
  {
    var (k1, k2) := Subkeys(aes, masterKey);
    var k := if |Padding(divInput)| > 0 then k2 else k1;
    var message := CmacMessage(divInput);
    message[..BLOCK_SIZE] + XorBytes(message[BLOCK_SIZE..], k)
  }

  // ---------------------------------------------------------------------------
  // The diversified keys.
  // ---------------------------------------------------------------------------

  /** The input of a slot's key: uid, the slot's id, the system name's bytes. */
  function DivInput(tagUid: seq<byte>, keyId: seq<byte>, systemName: seq<byte>): seq<byte> {
    tagUid + keyId + systemName
  }

  /**
   * One diversified key, or the exception the tool raises: a master key that
   * is not 16 bytes or a uid that is not 7, an unknown slot, or an input too
   * long for two blocks.
   */
  function DiversifiedKey(aes: Aes, masterKey: seq<byte>, systemName: seq<byte>, tagUid: seq<byte>, keyName: string)
    : (r: Result<seq<byte>, Failure>)
    ensures r.Ok? <==> |masterKey| == MASTER_KEY_SIZE && |tagUid| == UID_SIZE && keyName in KEY_IDS
                       && UID_SIZE + 3 + |systemName| <= MAX_DIV_INPUT
    ensures r.Err? && keyName !in KEY_IDS && |masterKey| == MASTER_KEY_SIZE && |tagUid| == UID_SIZE ==> r.error == KeyError
    ensures r.Err? && r.error == KeyError ==> keyName !in KEY_IDS
    ensures r.Ok? ==> |r.value| == BLOCK_SIZE
  {
    if |masterKey| != MASTER_KEY_SIZE || |tagUid| != UID_SIZE then Err(AssertionFailed)
    else if keyName !in KEY_IDS then Err(KeyError)
    else
      var divInput := DivInput(tagUid, KEY_IDS[keyName], systemName);
      if |divInput| > MAX_DIV_INPUT then Err(AssertionFailed)
      else Ok(aes.cbcEncrypt(masterKey, MaskedMessage(aes, masterKey, divInput))[BLOCK_SIZE..2 * BLOCK_SIZE])
  }

  /** Different slots of one tag are derived from different CMAC messages: the slot id is in the first block. */
  lemma SlotsGetDistinctMessages(aes: Aes, masterKey: seq<byte>, systemName: seq<byte>, tagUid: seq<byte>,
                                 name1: string, name2: string)
    requires name1 in KEY_IDS && name2 in KEY_IDS && name1 != name2 && |tagUid| == UID_SIZE
    requires UID_SIZE + 3 + |systemName| <= MAX_DIV_INPUT
    ensures MaskedMessage(aes, masterKey, DivInput(tagUid, KEY_IDS[name1], systemName))
         != MaskedMessage(aes, masterKey, DivInput(tagUid, KEY_IDS[name2], systemName))
  {
    KeyIdsDiffer(name1, name2);
    var id1, id2 := KEY_IDS[name1], KEY_IDS[name2];
    var d1, d2 := DivInput(tagUid, id1, systemName), DivInput(tagUid, id2, systemName);
    assert d1[9] == id1[2] && d2[9] == id2[2];
    assert CmacMessage(d1)[10] == id1[2] && CmacMessage(d2)[10] == id2[2];
    var m1, m2 := MaskedMessage(aes, masterKey, d1), MaskedMessage(aes, masterKey, d2);
    assert m1[..BLOCK_SIZE][10] != m2[..BLOCK_SIZE][10];
  }

  /** Every slot id has three bytes, and no two slots share one. */
  lemma KeyIdsDiffer(name1: string, name2: string)
    requires name1 in KEY_IDS && name2 in KEY_IDS && name1 != name2
    ensures |KEY_IDS[name1]| == 3 && |KEY_IDS[name2]| == 3 && KEY_IDS[name1][2] != KEY_IDS[name2][2]
  {
  }

  lemma KeyIdsHaveThreeBytes(name: string)
    requires name in KEY_IDS
    ensures |KEY_IDS[name]| == 3
  {
  }

  /** XORs the message's second block with k in place, byte by byte. */
  method MaskLastBlock(message: seq<byte>, k: seq<byte>) returns (masked: seq<byte>)
    requires |message| == 2 * BLOCK_SIZE && |k| == BLOCK_SIZE
    ensures masked == message[..BLOCK_SIZE] + XorBytes(message[BLOCK_SIZE..], k)
  {
    var cmacInput := new byte[2 * BLOCK_SIZE](i requires 0 <= i < 2 * BLOCK_SIZE => message[i]);
    for i := 0 to BLOCK_SIZE
      invariant forall j :: 0 <= j < BLOCK_SIZE ==> cmacInput[j] == message[j]
      invariant forall j :: BLOCK_SIZE <= j < BLOCK_SIZE + i ==> cmacInput[j] == Xor(message[j], k[j - BLOCK_SIZE])
      invariant forall j :: BLOCK_SIZE + i <= j < 2 * BLOCK_SIZE ==> cmacInput[j] == message[j]
    {
      cmacInput[BLOCK_SIZE + i] := Xor(cmacInput[BLOCK_SIZE + i], k[i]);
    }
    masked := cmacInput[..];
    var expected := message[..BLOCK_SIZE] + XorBytes(message[BLOCK_SIZE..], k);
    assert forall j :: 0 <= j < 2 * BLOCK_SIZE ==> masked[j] == expected[j];
  }

  /** Computes one key as the tool does, masking the message's last block in place. */
  method DiversifyKey(aes: Aes, masterKey: seq<byte>, systemName: seq<byte>, tagUid: seq<byte>, keyName: string)
    returns (r: Result<seq<byte>, Failure>)
    ensures r == DiversifiedKey(aes, masterKey, systemName, tagUid, keyName)
  {
    if |masterKey| != MASTER_KEY_SIZE || |tagUid| != UID_SIZE {
      return Err(AssertionFailed);
    }
    if keyName !in KEY_IDS {
      return Err(KeyError);
    }
    var keyId := KEY_IDS[keyName];
    KeyIdsHaveThreeBytes(keyName);
    var k1, k2 := GenerateSubkeys(aes, masterKey);
    var divInput := tagUid + keyId + systemName;
    var padLen: int := MAX_DIV_INPUT - |divInput|;
    var padding := if padLen > 0 then [0x80] + Zeros(padLen - 1) else [];
    var message := [0x01] + divInput + padding;
    assert padding == Padding(divInput) && message == CmacMessage(divInput);
    if |message| != 2 * BLOCK_SIZE {
      CmacMessageIsTwoBlocks(divInput);
      return Err(AssertionFailed);
    }
    CmacMessageIsTwoBlocks(divInput);
    var k := if padLen > 0 then k2 else k1;
    var cmacInput := MaskLastBlock(message, k);
    assert cmacInput == MaskedMessage(aes, masterKey, divInput);
    var encrypted := aes.cbcEncrypt(masterKey, cmacInput);
    return Ok(encrypted[BLOCK_SIZE..2 * BLOCK_SIZE]);
  }

  /** Every slot's key, by slot name; the first exception stops the whole derivation. */
  function DiversifiedKeys(aes: Aes, masterKey: seq<byte>, systemName: seq<byte>, tagUid: seq<byte>)
    : (r: Result<map<string, seq<byte>>, Failure>)
    ensures r.Ok? <==> DiversifiedKey(aes, masterKey, systemName, tagUid, "application").Ok?
    ensures r.Ok? ==> r.value.Keys == KEY_IDS.Keys
    ensures r.Ok? ==> forall name :: name in r.value ==> Ok(r.value[name]) == DiversifiedKey(aes, masterKey, systemName, tagUid, name)
  {
    var first := DiversifiedKey(aes, masterKey, systemName, tagUid, "application");
    if first.Err? then Err(first.error)
    else Ok(map name | name in KEY_IDS :: DiversifiedKey(aes, masterKey, systemName, tagUid, name).value)
  }
}
