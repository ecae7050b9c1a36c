// NTAG 424 DNA secure messaging after authentication: ISO/IEC 7816-4
// padding, the command and response IVs, the truncated CMAC (CMACt) over
// command and response, encryption and decryption of data in Full mode, and
// the command counter.

module Ntag424SecureMessaging {
  import opened Wrappers
  import opened Bytes
  import opened PwStatus
  import opened Ntag424Crypto

  const TI_SIZE: nat := 4
  const IV_SIZE: nat := 16
  const CMAC_T_SIZE: nat := 8
  const BLOCK_SIZE: nat := 16
  /** The stack buffers for the CMAC input and the padded plaintext hold 128 bytes. */
  const BUFFER_SIZE: nat := 128
  const PADDING_BYTE: byte := 0x80
  const MAX_COUNTER: uint16 := 0xFFFF

  // ---------------------------------------------------------------------------
  // Padding

  /** Padding always adds at least one byte, up to the next multiple of 16. */
  function PaddedLength(n: nat): (m: nat)
    ensures n < m <= n + BLOCK_SIZE && m % BLOCK_SIZE == 0
  {
    (n / BLOCK_SIZE + 1) * BLOCK_SIZE
  }

  /** The data, 0x80, then zeros up to the padded length. */
  function Pad(data: seq<byte>): (p: seq<byte>)
    ensures |p| == PaddedLength(|data|) && p[..|data|] == data
    ensures PaddedAt(p, |data|)
  {
    data + [PADDING_BYTE] + Zeros(PaddedLength(|data|) - |data| - 1)
  }

  /** Byte k is the padding byte and only zeros follow it. */
  ghost predicate PaddedAt(data: seq<byte>, k: nat)
  {
    k < |data| && data[k] == PADDING_BYTE && forall i | k < i < |data| :: data[i] == 0
  }

  /** Writes the padded data to the front of the output and returns its length. */
  method ApplyPadding(data: seq<byte>, paddedOut: array<byte>) returns (r: Result<nat, Code>)
    modifies paddedOut
    ensures paddedOut.Length < PaddedLength(|data|) ==> r == Err(ResourceExhausted) && paddedOut[..] == old(paddedOut[..])
    ensures paddedOut.Length >= PaddedLength(|data|) ==>
      r == Ok(PaddedLength(|data|)) && paddedOut[..r.value] == Pad(data)
      && paddedOut[r.value..] == old(paddedOut[r.value..])
  {
    var paddedLen := (|data| / 16 + 1) * 16;
    if paddedOut.Length < paddedLen {
      return Err(ResourceExhausted);
    }
    CopyInto(paddedOut, 0, data);
    paddedOut[|data|] := PADDING_BYTE;
    var i := |data| + 1;
    while i < paddedLen
      invariant |data| + 1 <= i <= paddedLen
      invariant paddedOut[..|data|] == data && paddedOut[|data|] == PADDING_BYTE
      invariant forall k | |data| < k < i :: paddedOut[k] == 0
      invariant paddedOut[paddedLen..] == old(paddedOut[paddedLen..])
    {
      paddedOut[i] := 0x00;
      i := i + 1;
    }
    assert paddedOut[..paddedLen] == Pad(data);
    return Ok(paddedLen);
  }

  /** The position of the padding byte, searching from the end over zeros. */
  function UnpaddedLength(data: seq<byte>): (r: Option<nat>)
    ensures r.Some? ==> PaddedAt(data, r.value)
    ensures r.None? ==> forall k: nat :: !PaddedAt(data, k)
  {
    if data == [] then None
    else if data[|data| - 1] == PADDING_BYTE then Some(|data| - 1)
    else if data[|data| - 1] != 0 then None
    else
      var init := data[..|data| - 1];
      var r := UnpaddedLength(init);
      if r.Some? then
        assert PaddedAt(init, r.value);
        Some(r.value)
      else
        assert forall k: nat :: !PaddedAt(init, k);
        assert forall k: nat | k < |data| - 1 :: PaddedAt(data, k) ==> PaddedAt(init, k);
        None
  }

  /** Removing the padding gives back the length of the data that was padded. */
  lemma UnpaddedLengthOfPad(data: seq<byte>)
    ensures UnpaddedLength(Pad(data)) == Some(|data|)
  {
    var p := Pad(data);
    var r := UnpaddedLength(p);
    assert PaddedAt(p, |data|);
    if r.Some? {
      PaddedAtUnique(p, r.value, |data|);
    }
  }

  /** A padded block has one padding byte: the last non-zero byte. */
  lemma PaddedAtUnique(data: seq<byte>, k1: nat, k2: nat)
    requires PaddedAt(data, k1) && PaddedAt(data, k2)
    ensures k1 == k2
  {
  }

  /** Scans from the end: zeros are skipped, 0x80 ends the data, anything else is an error. */
  method RemovePadding(data: seq<byte>) returns (r: Result<nat, Code>)
    ensures UnpaddedLength(data).None? ==> r == Err(DataLoss)
    ensures UnpaddedLength(data).Some? ==> r == Ok(UnpaddedLength(data).value)
  {
    if |data| == 0 {
      return Err(DataLoss);
    }
    var i := |data|;
    while i > 0
      invariant 0 <= i <= |data|
      invariant forall k | i <= k < |data| :: data[k] == 0
    {
      if data[i - 1] == PADDING_BYTE {
        assert PaddedAt(data, i - 1);
        if UnpaddedLength(data).Some? {
          PaddedAtUnique(data, i - 1, UnpaddedLength(data).value);
        }
        return Ok(i - 1);
      }
      if data[i - 1] != 0x00 {
        assert forall k: nat :: !PaddedAt(data, k);
        return Err(DataLoss);
      }
      i := i - 1;
    }
    assert forall k: nat :: !PaddedAt(data, k);
    return Err(DataLoss);
  }

  /** One more byte differs in neither sequence exactly when the prefixes stay equal and the accumulator stays zero. */
  lemma CompareStep(diff: byte, a: seq<byte>, b: seq<byte>, i: nat)
    requires |a| == |b| && i < |a|
    requires diff == 0 <==> a[..i] == b[..i]
    ensures Or(diff, Xor(a[i], b[i])) == 0 <==> a[..i + 1] == b[..i + 1]
  {
    XorZero(a[i], b[i]);
    OrZero(diff, Xor(a[i], b[i]));
    assert a[..i + 1] == a[..i] + [a[i]] && b[..i + 1] == b[..i] + [b[i]];
    if a[..i + 1] == b[..i + 1] {
      assert a[..i] == a[..i + 1][..i] && b[..i] == b[..i + 1][..i];
      assert a[i] == a[..i + 1][i] && b[i] == b[..i + 1][i];
    }
  }

  /** XORs all byte differences together, so the time does not depend on where they differ. */
  method ConstantTimeCompare(a: seq<byte>, b: seq<byte>) returns (equal: bool)
    ensures equal <==> a == b
  {
    if |a| != |b| {
      return false;
    }
    var diff: byte := 0;
    for i := 0 to |a|
      invariant diff == 0 <==> a[..i] == b[..i]
    {
      CompareStep(diff, a, b, i);
      diff := Or(diff, Xor(a[i], b[i]));
    }
    assert a[..|a|] == a && b[..|b|] == b;
    return diff == 0;
  }

  // ---------------------------------------------------------------------------
  // Layouts

  /** The command counter on the wire: two bytes, least significant first. */
  function CounterBytes(ctr: uint16): (b: seq<byte>)
    ensures |b| == 2 && LittleEndian(b) == ctr
  {
    [ctr % 256, ctr / 256]
  }

  /** IV input: two prefix bytes, TI, the counter, eight zeros. */
  function IvInput(prefix0: byte, prefix1: byte, ti: seq<byte>, ctr: uint16): (input: seq<byte>)
    requires |ti| == TI_SIZE
    ensures |input| == IV_SIZE
    ensures input[..2] == [prefix0, prefix1] && input[2..6] == ti
    ensures LittleEndian(input[6..8]) == ctr && input[8..] == Zeros(8)
  {
    var input := [prefix0, prefix1] + ti + CounterBytes(ctr) + Zeros(8);
    assert input[6..8] == CounterBytes(ctr);
    input
  }

  const IV_CMD_PREFIX: seq<byte> := [0xA5, 0x5A]
  const IV_RESP_PREFIX: seq<byte> := [0x5A, 0xA5]

  /** Command and response IVs never share an input, nor do two counter values. */
  lemma IvInputsDistinct(ti: seq<byte>, c1: uint16, c2: uint16)
    requires |ti| == TI_SIZE
    ensures IvInput(IV_CMD_PREFIX[0], IV_CMD_PREFIX[1], ti, c1) != IvInput(IV_RESP_PREFIX[0], IV_RESP_PREFIX[1], ti, c2)
    ensures c1 != c2 ==> IvInput(IV_CMD_PREFIX[0], IV_CMD_PREFIX[1], ti, c1) != IvInput(IV_CMD_PREFIX[0], IV_CMD_PREFIX[1], ti, c2)
  {
    var a := IvInput(IV_CMD_PREFIX[0], IV_CMD_PREFIX[1], ti, c1);
    var b := IvInput(IV_RESP_PREFIX[0], IV_RESP_PREFIX[1], ti, c2);
    assert a[0] != b[0];
    if c1 != c2 {
      var c := IvInput(IV_CMD_PREFIX[0], IV_CMD_PREFIX[1], ti, c2);
      assert a[6..8] != c[6..8];
    }
  }

  /** CMAC input: command or response code, counter, TI, header, data. */
  function CmacInput(code: byte, ctr: uint16, ti: seq<byte>, header: seq<byte>, data: seq<byte>): (input: seq<byte>)
    requires |ti| == TI_SIZE
    ensures |input| == 7 + |header| + |data|
    ensures input[0] == code && LittleEndian(input[1..3]) == ctr && input[3..7] == ti
    ensures input[7..] == header + data
  {
    var input := [code] + CounterBytes(ctr) + ti + header + data;
    assert input[1..3] == CounterBytes(ctr);
    input
  }

  /** The seven bytes before the header, one by one. */
  lemma CmacInputPrefix(code: byte, ctr: uint16, ti: seq<byte>)
    requires |ti| == TI_SIZE
    ensures [code, ctr % 256, ctr / 256, ti[0], ti[1], ti[2], ti[3]] == [code] + CounterBytes(ctr) + ti
  {
    assert ti == [ti[0], ti[1], ti[2], ti[3]];
  }

  /** The seven fixed bytes written one by one at the front of the buffer. */
  method WriteCmacPrefix(buffer: array<byte>, code: byte, ctr: uint16, ti: seq<byte>)
    requires |ti| == TI_SIZE && buffer.Length >= 7
    modifies buffer
    ensures buffer[..7] == [code] + CounterBytes(ctr) + ti
    ensures buffer[7..] == old(buffer[7..])
  {
    buffer[0] := code;
    buffer[1] := ctr % 256;
    buffer[2] := (ctr / 256) % 256;
    buffer[3] := ti[0];
    buffer[4] := ti[1];
    buffer[5] := ti[2];
    buffer[6] := ti[3];
    assert (ctr / 256) % 256 == ctr / 256;
    assert buffer[..7] == [code, ctr % 256, ctr / 256, ti[0], ti[1], ti[2], ti[3]];
    CmacInputPrefix(code, ctr, ti);
  }

  /** The CMAC input assembled in the 128-byte buffer: the fixed bytes, then the header, then the data. */
  method FillCmacInput(code: byte, ctr: uint16, ti: seq<byte>, header: seq<byte>, data: seq<byte>) returns (input: seq<byte>)
    requires |ti| == TI_SIZE && 7 + |header| + |data| <= BUFFER_SIZE
    ensures input == CmacInput(code, ctr, ti, header, data)
  {
    var buffer := new byte[BUFFER_SIZE](_ => 0);
    WriteCmacPrefix(buffer, code, ctr, ti);
    var fixed := buffer[..7];
    CopyInto(buffer, 7, header);
    var withHeader := buffer[..7 + |header|];
    assert withHeader == fixed + header;
    CopyInto(buffer, 7 + |header|, data);
    input := buffer[..7 + |header| + |data|];
    assert input == withHeader + data;
  }

  /** CMACt keeps the bytes of the full CMAC at odd positions. */
  function TruncateMac(full: Block): (t: seq<byte>)
    ensures |t| == CMAC_T_SIZE && forall i | 0 <= i < CMAC_T_SIZE :: t[i] == full[2 * i + 1]
  {
    [full[1], full[3], full[5], full[7], full[9], full[11], full[13], full[15]]
  }

  // ---------------------------------------------------------------------------
  // The session

  class SecureMessaging {
    const aes: Aes
    const sesAuthEncKey: seq<byte>
    const sesAuthMacKey: seq<byte>
    const ti: seq<byte>
    var cmdCtr: uint16

    ghost predicate Valid()
    {
      |sesAuthEncKey| == KEY_SIZE && |sesAuthMacKey| == KEY_SIZE && |ti| == TI_SIZE
    }

    /** The firmware checks the key and TI sizes and stops otherwise. */
    constructor(aes: Aes, sesAuthEncKey: seq<byte>, sesAuthMacKey: seq<byte>, ti: seq<byte>, initialCmdCtr: uint16)
      requires |sesAuthEncKey| == KEY_SIZE && |sesAuthMacKey| == KEY_SIZE && |ti| == TI_SIZE
      ensures Valid() && this.aes == aes && this.ti == ti && cmdCtr == initialCmdCtr
      ensures this.sesAuthEncKey == sesAuthEncKey && this.sesAuthMacKey == sesAuthMacKey
    {
      this.aes := aes;
      this.sesAuthEncKey := sesAuthEncKey;
      this.sesAuthMacKey := sesAuthMacKey;
      this.ti := ti;
      cmdCtr := initialCmdCtr;
    }

    /** IV = AES(SesAuthEncKey, IV input), one block encrypted with a zero IV. */
    function Iv(ctr: uint16, prefix: seq<byte>): Result<seq<byte>, Code>
      requires Valid() && |prefix| == 2
    {
      aes.cbcEncrypt(sesAuthEncKey, Zeros(IV_SIZE), IvInput(prefix[0], prefix[1], ti, ctr))
    }

    method CalculateIV(prefix0: byte, prefix1: byte, ivOutSize: nat) returns (r: Result<seq<byte>, Code>)
      requires Valid()
      ensures ivOutSize < IV_SIZE ==> r == Err(ResourceExhausted)
      ensures ivOutSize >= IV_SIZE ==> r == Iv(cmdCtr, [prefix0, prefix1])
    {
      if ivOutSize < IV_SIZE {
        return Err(ResourceExhausted);
      }
      var ivInput := [prefix0, prefix1] + ti + [cmdCtr % 256, (cmdCtr / 256) % 256] + Zeros(8);
      r := aes.cbcEncrypt(sesAuthEncKey, Zeros(IV_SIZE), ivInput);
    }

    method CalculateIVCmd(ivOutSize: nat) returns (r: Result<seq<byte>, Code>)
      requires Valid()
      ensures ivOutSize < IV_SIZE ==> r == Err(ResourceExhausted)
      ensures ivOutSize >= IV_SIZE ==> r == Iv(cmdCtr, IV_CMD_PREFIX)
    {
      r := CalculateIV(0xA5, 0x5A, ivOutSize);
    }

    method CalculateIVResp(ivOutSize: nat) returns (r: Result<seq<byte>, Code>)
      requires Valid()
      ensures ivOutSize < IV_SIZE ==> r == Err(ResourceExhausted)
      ensures ivOutSize >= IV_SIZE ==> r == Iv(cmdCtr, IV_RESP_PREFIX)
    {
      r := CalculateIV(0x5A, 0xA5, ivOutSize);
    }

    /** CMACt of a message under SesAuthMACKey. */
    function Mact(data: seq<byte>): (r: Result<seq<byte>, Code>)
      ensures r.Ok? ==> |r.value| == CMAC_T_SIZE
      ensures r.Ok? <==> aes.cmac(sesAuthMacKey, data).Ok?
      ensures r.Ok? ==> r.value == TruncateMac(aes.cmac(sesAuthMacKey, data).value)
    {
      match aes.cmac(sesAuthMacKey, data)
      case Err(e) => Err(e)
      case Ok(full) => Ok(TruncateMac(full))
    }

    method CalculateCMACt(data: seq<byte>, outSize: nat) returns (r: Result<seq<byte>, Code>)
      ensures outSize < CMAC_T_SIZE ==> r == Err(ResourceExhausted)
      ensures outSize >= CMAC_T_SIZE ==> r == Mact(data)
    {
      if outSize < CMAC_T_SIZE {
        return Err(ResourceExhausted);
      }
      var full := aes.cmac(sesAuthMacKey, data);
      if full.Err? {
        return Err(full.error);
      }
      var f := full.value;
      r := Ok([f[1], f[3], f[5], f[7], f[9], f[11], f[13], f[15]]);
    }

    /** The 8-byte CMACt the command carries. */
    method BuildCommandCMACWithData(cmd: byte, header: seq<byte>, data: seq<byte>, outSize: nat)
      returns (r: Result<seq<byte>, Code>)
      requires Valid()
      ensures 7 + |header| + |data| > BUFFER_SIZE ==> r == Err(ResourceExhausted)
      ensures 7 + |header| + |data| <= BUFFER_SIZE && outSize < CMAC_T_SIZE ==> r == Err(ResourceExhausted)
      ensures 7 + |header| + |data| <= BUFFER_SIZE && outSize >= CMAC_T_SIZE ==>
        r == Mact(CmacInput(cmd, cmdCtr, ti, header, data))
    {
      if 7 + |header| + |data| > BUFFER_SIZE {
        return Err(ResourceExhausted);
      }
      var input := FillCmacInput(cmd, cmdCtr, ti, header, data);
      r := CalculateCMACt(input, outSize);
    }

    method BuildCommandCMAC(cmd: byte, header: seq<byte>, outSize: nat) returns (r: Result<seq<byte>, Code>)
      requires Valid()
      ensures 7 + |header| > BUFFER_SIZE || outSize < CMAC_T_SIZE ==> r == Err(ResourceExhausted)
      ensures 7 + |header| <= BUFFER_SIZE && outSize >= CMAC_T_SIZE ==>
        r == Mact(CmacInput(cmd, cmdCtr, ti, header, []))
    {
      r := BuildCommandCMACWithData(cmd, header, [], outSize);
    }

    /** What checking a response's CMACt yields. */
    function ResponseCheck(ctr: uint16, code: byte, responseData: seq<byte>, received: seq<byte>): (r: Result<(), Code>)
      requires Valid()
      ensures |received| != CMAC_T_SIZE ==> r == Err(InvalidArgument)
      ensures |received| == CMAC_T_SIZE && 7 + |responseData| > BUFFER_SIZE ==> r == Err(ResourceExhausted)
      // accepted exactly when the tag's CMACt over the same input is the one received
      ensures r.Ok? <==>
        |received| == CMAC_T_SIZE && 7 + |responseData| <= BUFFER_SIZE
        && Mact(CmacInput(code, ctr, ti, [], responseData)) == Ok(received)
      ensures (r.Err? && |received| == CMAC_T_SIZE && 7 + |responseData| <= BUFFER_SIZE
               && Mact(CmacInput(code, ctr, ti, [], responseData)).Ok?) ==> r == Err(Unauthenticated)
    {
      if |received| != CMAC_T_SIZE then Err(InvalidArgument)
      else if 7 + |responseData| > BUFFER_SIZE then Err(ResourceExhausted)
      else
        match Mact(CmacInput(code, ctr, ti, [], responseData))
        case Err(e) => Err(e)
        case Ok(expected) => if expected != received then Err(Unauthenticated) else Ok(())
    }

    method VerifyResponseCMACWithData(code: byte, responseData: seq<byte>, received: seq<byte>)
      returns (r: Result<(), Code>)
      requires Valid()
      ensures r == ResponseCheck(cmdCtr, code, responseData, received)
    {
      if |received| != CMAC_T_SIZE {
        return Err(InvalidArgument);
      }
      if 7 + |responseData| > BUFFER_SIZE {
        return Err(ResourceExhausted);
      }
      var input := FillCmacInput(code, cmdCtr, ti, [], responseData);
      var expected := CalculateCMACt(input, CMAC_T_SIZE);
      if expected.Err? {
        return Err(expected.error);
      }
      var same := ConstantTimeCompare(expected.value, received);
      if !same {
        return Err(Unauthenticated);
      }
      return Ok(());
    }

    method VerifyResponseCMAC(code: byte, received: seq<byte>) returns (r: Result<(), Code>)
      requires Valid()
      ensures r == ResponseCheck(cmdCtr, code, [], received)
    {
      r := VerifyResponseCMACWithData(code, [], received);
    }

    /** The ciphertext of a command's data in Full mode: the padded data encrypted under IVCmd. */
    function CommandCiphertext(ctr: uint16, plaintext: seq<byte>): (r: Result<seq<byte>, Code>)
      requires Valid()
      ensures r.Ok? ==> |r.value| == PaddedLength(|plaintext|) && |r.value| % BLOCK_SIZE == 0
      ensures Iv(ctr, IV_CMD_PREFIX).Err? ==> r == Err(Iv(ctr, IV_CMD_PREFIX).error)
      ensures Iv(ctr, IV_CMD_PREFIX).Ok? ==> r == aes.cbcEncrypt(sesAuthEncKey, Iv(ctr, IV_CMD_PREFIX).value, Pad(plaintext))
    {
      match Iv(ctr, IV_CMD_PREFIX)
      case Err(e) => Err(e)
      case Ok(iv) => aes.cbcEncrypt(sesAuthEncKey, iv, Pad(plaintext))
    }

    /** Pads into a 128-byte buffer, then encrypts; also returns the length the firmware reports. */
    method EncryptCommandData(plaintext: seq<byte>, outSize: nat) returns (r: Result<seq<byte>, Code>, ciphertextLen: nat)
      requires Valid()
      ensures PaddedLength(|plaintext|) > BUFFER_SIZE || outSize < PaddedLength(|plaintext|) ==> r == Err(ResourceExhausted)
      ensures PaddedLength(|plaintext|) <= BUFFER_SIZE && outSize >= PaddedLength(|plaintext|) ==>
        r == CommandCiphertext(cmdCtr, plaintext)
      ensures r.Ok? ==> ciphertextLen == |r.value| == PaddedLength(|plaintext|)
    {
      var padded := new byte[BUFFER_SIZE](_ => 0);
      var padding := ApplyPadding(plaintext, padded);
      if padding.Err? {
        return Err(padding.error), 0;
      }
      var paddedLen := padding.value;
      if outSize < paddedLen {
        return Err(ResourceExhausted), 0;
      }
      var iv := CalculateIVCmd(IV_SIZE);
      if iv.Err? {
        return Err(iv.error), 0;
      }
      r := aes.cbcEncrypt(sesAuthEncKey, iv.value, padded[..paddedLen]);
      ciphertextLen := paddedLen;
    }

    /** The plaintext of a response's data in Full mode, padding removed. */
    function DecryptedResponse(ctr: uint16, ciphertext: seq<byte>, outSize: nat): (r: Result<seq<byte>, Code>)
      requires Valid()
      ensures |ciphertext| == 0 || |ciphertext| % BLOCK_SIZE != 0 ==> r == Err(InvalidArgument)
      ensures |ciphertext| > 0 && |ciphertext| % BLOCK_SIZE == 0 && outSize < |ciphertext| ==> r == Err(ResourceExhausted)
      ensures r.Ok? ==>
        Iv(ctr, IV_RESP_PREFIX).Ok?
        && var d := aes.cbcDecrypt(sesAuthEncKey, Iv(ctr, IV_RESP_PREFIX).value, ciphertext);
        d.Ok? && UnpaddedLength(d.value) == Some(|r.value|) && r.value == d.value[..|r.value|]
    {
      if |ciphertext| == 0 || |ciphertext| % BLOCK_SIZE != 0 then Err(InvalidArgument)
      else if outSize < |ciphertext| then Err(ResourceExhausted)
      else
        match Iv(ctr, IV_RESP_PREFIX)
        case Err(e) => Err(e)
        case Ok(iv) =>
          match aes.cbcDecrypt(sesAuthEncKey, iv, ciphertext)
          case Err(e) => Err(e)
          case Ok(decrypted) =>
            match UnpaddedLength(decrypted)
            case None => Err(DataLoss)
            case Some(n) => Ok(decrypted[..n])
    }

    method DecryptResponseData(ciphertext: seq<byte>, outSize: nat) returns (r: Result<seq<byte>, Code>)
      requires Valid()
      ensures r == DecryptedResponse(cmdCtr, ciphertext, outSize)
    {
      if |ciphertext| == 0 || |ciphertext| % 16 != 0 {
        return Err(InvalidArgument);
      }
      if outSize < |ciphertext| {
        return Err(ResourceExhausted);
      }
      var iv := CalculateIVResp(IV_SIZE);
      if iv.Err? {
        return Err(iv.error);
      }
      var decrypted := aes.cbcDecrypt(sesAuthEncKey, iv.value, ciphertext);
      if decrypted.Err? {
        return Err(decrypted.error);
      }
      var unpadded := RemovePadding(decrypted.value);
      if unpadded.Err? {
        return Err(unpadded.error);
      }
      return Ok(decrypted.value[..unpadded.value]);
    }

    /**
     * A response the tag encrypts in Full mode decrypts to its data, given a
     * cipher whose decryption undoes its encryption.
     */
    lemma DecryptedResponseOfEncrypted(ctr: uint16, data: seq<byte>, outSize: nat)
      requires Valid() && Iv(ctr, IV_RESP_PREFIX).Ok?
      requires var c := aes.cbcEncrypt(sesAuthEncKey, Iv(ctr, IV_RESP_PREFIX).value, Pad(data));
        c.Ok? && aes.cbcDecrypt(sesAuthEncKey, Iv(ctr, IV_RESP_PREFIX).value, c.value) == Ok(Pad(data))
      requires outSize >= PaddedLength(|data|)
      ensures DecryptedResponse(ctr, aes.cbcEncrypt(sesAuthEncKey, Iv(ctr, IV_RESP_PREFIX).value, Pad(data)).value, outSize)
              == Ok(data)
    {
      UnpaddedLengthOfPad(data);
    }

    /** The counter stops at 0xFFFF: the session is used up. */
    method IncrementCounter() returns (ok: bool)
      modifies this
      ensures old(cmdCtr) == MAX_COUNTER ==> !ok && cmdCtr == MAX_COUNTER
      ensures old(cmdCtr) < MAX_COUNTER ==> ok && cmdCtr == old(cmdCtr) + 1
    {
      if cmdCtr == MAX_COUNTER {
        return false;
      }
      cmdCtr := cmdCtr + 1;
      return true;
    }
  }
}
