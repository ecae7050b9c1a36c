// The NTAG 424 DNA tag as the firmware drives it: the status-word mapping,
// the session token and its validation, AuthenticateEV2First, and the
// ReadData, WriteData and ChangeKey commands with their size and payload
// rules. The reader's APDU exchange, the key provider and the CRC are
// parameters; the APDUs are built as sequences.

module Ntag424Tag {
  import opened Wrappers
  import opened Bytes
  import opened PwStatus
  import opened Ntag424Crypto
  import opened Ntag424SecureMessaging

  const CLA_NATIVE: byte := 0x90
  const CMD_AUTHENTICATE_EV2_FIRST: byte := 0x71
  const CMD_ADDITIONAL_FRAME: byte := 0xAF
  const CMD_READ_DATA: byte := 0xAD
  const CMD_WRITE_DATA: byte := 0x8D
  const CMD_CHANGE_KEY: byte := 0xC4

  /** Padded Full-mode data that fits one WriteData frame. */
  const MAX_FULL_WRITE: nat := 64
  /** Mac- and Plain-mode data that fits one WriteData frame. */
  const MAX_PLAIN_WRITE: nat := 48
  /** Ciphertext that ReadData decrypts in one go. */
  const MAX_FULL_READ: nat := 64

  /** Sizes of the response buffers the commands hand to the reader. */
  const AUTH_PART1_CAPACITY: nat := 20
  const AUTH_PART2_CAPACITY: nat := 36
  const READ_DATA_CAPACITY: nat := 80
  const WRITE_DATA_CAPACITY: nat := 16
  const CHANGE_KEY_CAPACITY: nat := 16

  datatype CommMode = Plain | Mac | Full

  /**
   * One APDU exchange with the tag through the reader: the command and the
   * size of the response buffer in, the tag's answer (which fits the buffer)
   * or the reader's error out.
   */
  type Exchange = f: (seq<byte>, nat) -> Result<seq<byte>, Code>
    | forall command, capacity :: f(command, capacity).Ok? ==> |f(command, capacity).value| <= capacity
    witness (command: seq<byte>, capacity: nat) => Err(Unknown)

  // ---------------------------------------------------------------------------
  // Status words
  // ---------------------------------------------------------------------------

  /** The native 91 xx error codes and the status each stands for. */
  const NATIVE_ERRORS: map<byte, Code> := map[
    0x1C := InvalidArgument,   // illegal command
    0x1E := DataLoss,          // integrity error
    0x40 := NotFound,          // no such key
    0x7E := InvalidArgument,   // length error
    0x9D := PermissionDenied,
    0x9E := InvalidArgument,   // parameter error
    0xAE := Unauthenticated,
    0xBE := OutOfRange,        // boundary error
    0xCA := Aborted,
    0xEE := Internal           // memory error
  ]

  /** 91 00 (done), 91 AF (additional frame) and the ISO 90 00. */
  predicate IsSuccessWord(sw1: byte, sw2: byte) {
    (sw1 == 0x91 && (sw2 == 0x00 || sw2 == 0xAF)) || (sw1 == 0x90 && sw2 == 0x00)
  }

  function InterpretStatusWord(sw1: byte, sw2: byte): (r: Result<(), Code>)
    ensures r.Ok? <==> IsSuccessWord(sw1, sw2)
    ensures sw1 == 0x91 && sw2 in NATIVE_ERRORS ==> r == Err(NATIVE_ERRORS[sw2])
    ensures !IsSuccessWord(sw1, sw2) && !(sw1 == 0x91 && sw2 in NATIVE_ERRORS) ==> r == Err(Unknown)
  {
    if sw1 == 0x91 then
      if sw2 == 0x00 || sw2 == 0xAF then Ok(())
      else if sw2 in NATIVE_ERRORS then Err(NATIVE_ERRORS[sw2])
      else Err(Unknown)
    else if sw1 == 0x90 && sw2 == 0x00 then Ok(())
    else Err(Unknown)
  }

  /** What a command does with the status word of an answer. */
  datatype Verdict = Proceed | Stop(status: Result<(), Code>)

  /**
   * The commands as written: the expected word lets the command go on, any
   * other word ends it with whatever InterpretStatusWord says, success included.
   */
  function VerdictAsWritten(expected1: byte, expected2: byte, sw1: byte, sw2: byte): (v: Verdict)
    ensures v.Proceed? <==> sw1 == expected1 && sw2 == expected2
    ensures v.Stop? ==> v.status == InterpretStatusWord(sw1, sw2)
  {
    if sw1 == expected1 && sw2 == expected2 then Proceed else Stop(InterpretStatusWord(sw1, sw2))
  }

  /**
   * With 91 00 expected, the words 91 AF and 90 00 end WriteData or ChangeKey
   * with success although the counter was not advanced and the response
   * CMAC not checked; ReadData, which turns 91 AF away first, still ends
   * with success on 90 00.
   */
  lemma VerdictAsWrittenStopsWithSuccess()
    ensures VerdictAsWritten(0x91, 0x00, 0x91, 0xAF) == Stop(Ok(()))
    ensures VerdictAsWritten(0x91, 0x00, 0x90, 0x00) == Stop(Ok(()))
  {
  }

  /**
   * With 91 AF expected after Authenticate's Part 1, the words 91 00 and
   * 90 00 end the command with a success status where a session is due.
   */
  lemma AuthPart1VerdictAsWrittenStopsWithSuccess()
    ensures VerdictAsWritten(0x91, 0xAF, 0x91, 0x00) == Stop(Ok(()))
    ensures VerdictAsWritten(0x91, 0xAF, 0x90, 0x00) == Stop(Ok(()))
  {
  }

  /**
   * The status check the commands use: only the expected word lets the
   * command go on; every other word is an error, Unknown where
   * InterpretStatusWord would call it success.
   */
  function CheckStatus(expected1: byte, expected2: byte, sw1: byte, sw2: byte): (r: Result<(), Code>)
    ensures r.Ok? <==> sw1 == expected1 && sw2 == expected2
    ensures r.Err? && InterpretStatusWord(sw1, sw2).Err? ==> r == InterpretStatusWord(sw1, sw2)
    ensures r.Err? && InterpretStatusWord(sw1, sw2).Ok? ==> r == Err(Unknown)
  {
    if sw1 == expected1 && sw2 == expected2 then Ok(())
    else
      match InterpretStatusWord(sw1, sw2)
      case Ok(_) => Err(Unknown)
      case Err(e) => Err(e)
  }

  /** The corrected check differs from the one as written only where that one reports a success it did not see. */
  lemma CheckStatusAgreesOnErrors(expected1: byte, expected2: byte, sw1: byte, sw2: byte)
    ensures VerdictAsWritten(expected1, expected2, sw1, sw2).Proceed? <==> CheckStatus(expected1, expected2, sw1, sw2).Ok?
    ensures VerdictAsWritten(expected1, expected2, sw1, sw2) == Stop(CheckStatus(expected1, expected2, sw1, sw2))
            <==> !(sw1 == expected1 && sw2 == expected2) && !IsSuccessWord(sw1, sw2)
  {
  }

  /** The status word at the end of an answer of at least two bytes. */
  function AnswerStatus(expected1: byte, expected2: byte, answer: seq<byte>): Result<(), Code>
    requires |answer| >= 2
  {
    CheckStatus(expected1, expected2, answer[|answer| - 2], answer[|answer| - 1])
  }

  // ---------------------------------------------------------------------------
  // Sessions and authentication
  // ---------------------------------------------------------------------------

  /** The proof of authentication handed out by Authenticate. */
  datatype Session = Session(keyNumber: byte, authSerial: uint32)

  type Ti = s: seq<byte> | |s| == TI_SIZE witness [0, 0, 0, 0]
  type Challenge = s: seq<byte> | |s| == 32 witness Zeros(32)

  /** What the key provider returns once RndA' checks out. */
  datatype AuthSecrets = AuthSecrets(encKey: Block, macKey: Block, ti: Ti)

  /**
   * The key provider: the key number, the Part 2 challenge for an encrypted
   * RndB, and the session secrets for the encrypted Part 3. It keeps no
   * state, so cancelling a half-done authentication has nothing to clear.
   */
  datatype KeyProvider = KeyProvider(
    keyNumber: byte,
    createChallenge: seq<byte> -> Result<Challenge, Code>,
    verify: seq<byte> -> Result<AuthSecrets, Code>)

  /** The authentication serial, a uint32 that wraps. */
  function NextSerial(serial: uint32): (n: uint32)
    ensures n != serial
    ensures serial < 0xFFFF_FFFF ==> n == serial + 1
  {
    (serial + 1) % 0x1_0000_0000
  }

  /** Part 1: the key number and LenCap 00 (no PCD capabilities). */
  function AuthPart1Command(keyNumber: byte): (c: seq<byte>)
    ensures IsNativeApdu(c, CMD_AUTHENTICATE_EV2_FIRST) && c[5..|c| - 1] == [keyNumber, 0x00]
  {
    NativeApdu(CMD_AUTHENTICATE_EV2_FIRST, [keyNumber, 0x00])
  }

  /** Part 2: the additional frame carrying the 32-byte challenge. */
  function AuthPart2Command(challenge: Challenge): (c: seq<byte>)
    ensures IsNativeApdu(c, CMD_ADDITIONAL_FRAME) && c[5..|c| - 1] == challenge
  {
    NativeApdu(CMD_ADDITIONAL_FRAME, challenge)
  }

  /**
   * The length of the Part 3 answer as written: the end of the first 91 00
   * or 91 AF pair found in the response buffer from position 2 on, or 0.
   */
  predicate EndsStatusPair(buffer: seq<byte>, i: nat)
    requires 2 <= i <= |buffer|
  {
    buffer[i - 2] == 0x91 && (buffer[i - 1] == 0x00 || buffer[i - 1] == 0xAF)
  }

  function StatusPairEnd(buffer: seq<byte>, from: nat): (len: nat)
    requires from >= 2
    decreases |buffer| - from
    ensures len == 0 ==> forall j | from <= j < |buffer| :: !EndsStatusPair(buffer, j)
    ensures len != 0 ==> from <= len < |buffer| && EndsStatusPair(buffer, len)
                         && forall j | from <= j < len :: !EndsStatusPair(buffer, j)
  {
    if from >= |buffer| then 0
    else if EndsStatusPair(buffer, from) then from
    else StatusPairEnd(buffer, from + 1)
  }

  /** The search loop over the Part 2 response buffer, as written. */
  method Part3LengthAsWritten(response: array<byte>) returns (len: nat)
    ensures len == StatusPairEnd(response[..], 2)
  {
    len := 0;
    var i := 2;
    while i < response.Length
      invariant 2 <= i
      invariant StatusPairEnd(response[..], 2) == StatusPairEnd(response[..], i)
    {
      if response[i - 2] == 0x91 && (response[i - 1] == 0x00 || response[i - 1] == 0xAF) {
        assert EndsStatusPair(response[..], i);
        return i;
      }
      i := i + 1;
    }
  }

  /**
   * A well-formed 34-byte Part 3 answer whose ciphertext begins with 91 00:
   * the search stops after two bytes, so authentication fails with DataLoss.
   */
  lemma Part3LengthAsWrittenStopsInsideCiphertext()
    ensures var ciphertext := [0x91, 0x00] + Zeros(30);
            var buffer := ciphertext + [0x91, 0x00] + [0x00, 0x00];
            |buffer| == AUTH_PART2_CAPACITY && buffer[32..34] == [0x91, 0x00]
            && StatusPairEnd(buffer, 2) == 2 < 34
  {
    var buffer: seq<byte> := [0x91, 0x00] + Zeros(30) + [0x91, 0x00] + [0x00, 0x00];
    assert EndsStatusPair(buffer, 2);
  }

  /**
   * The search also stops at 91 AF: a Part 2 response of 32 zero bytes and
   * 91 AF has length 34, and the status check then stops authentication with
   * the success status InterpretStatusWord gives 91 AF, where a session is due.
   */
  lemma Part3VerdictAsWrittenStopsWithSuccess()
    ensures var buffer := Zeros(32) + [0x91, 0xAF] + [0x00, 0x00];
            |buffer| == AUTH_PART2_CAPACITY && StatusPairEnd(buffer, 2) == 34
            && VerdictAsWritten(0x91, 0x00, buffer[32], buffer[33]) == Stop(Ok(()))
  {
    var buffer: seq<byte> := Zeros(32) + [0x91, 0xAF] + [0x00, 0x00];
    assert EndsStatusPair(buffer, 34);
    forall j | 2 <= j < 34
      ensures !EndsStatusPair(buffer, j)
    {
      assert buffer[j - 2] == Zeros(32)[j - 2] == 0;
    }
  }

  /**
   * The Part 3 answer taken at its received length: 32 bytes of ciphertext
   * followed by 91 00.
   */
  function Part3Answer(answer: seq<byte>): (r: Result<seq<byte>, Code>)
    ensures r.Ok? <==> |answer| >= 34 && answer[|answer| - 2..] == [0x91, 0x00]
    ensures |answer| < 34 ==> r == Err(DataLoss)
    ensures r.Ok? ==> r.value == answer[..32]
  {
    if |answer| < 34 then Err(DataLoss)
    else
      match AnswerStatus(0x91, 0x00, answer)
      case Err(e) => Err(e)
      case Ok(_) =>
        assert answer[|answer| - 2..] == [answer[|answer| - 2], answer[|answer| - 1]];
        Ok(answer[..32])
  }

  /** Every well-formed Part 3 answer is accepted, whatever its ciphertext. */
  lemma Part3AnswerAcceptsAnyCiphertext(ciphertext: seq<byte>)
    requires |ciphertext| == 32
    ensures Part3Answer(ciphertext + [0x91, 0x00]) == Ok(ciphertext)
  {
    var answer := ciphertext + [0x91, 0x00];
    assert answer[|answer| - 2..] == [0x91, 0x00];
    assert answer[..32] == ciphertext;
  }

  /**
   * AuthenticateEV2First: Part 1 sends the key number and expects the
   * encrypted RndB and 91 AF; Part 2 sends the provider's challenge and
   * expects the encrypted Part 3 and 91 00, which the provider verifies.
   */
  function AuthenticationResult(provider: KeyProvider, exchange: Exchange): (r: Result<AuthSecrets, Code>)
    ensures r.Ok? ==>
      var a1 := exchange(AuthPart1Command(provider.keyNumber), AUTH_PART1_CAPACITY);
      a1.Ok? && |a1.value| >= 18 && a1.value[|a1.value| - 2..] == [0x91, 0xAF]
      && provider.createChallenge(a1.value[..16]).Ok?
      && var a2 := exchange(AuthPart2Command(provider.createChallenge(a1.value[..16]).value), AUTH_PART2_CAPACITY);
      a2.Ok? && Part3Answer(a2.value).Ok?
      && provider.verify(Part3Answer(a2.value).value) == r
    ensures exchange(AuthPart1Command(provider.keyNumber), AUTH_PART1_CAPACITY).Err? ==>
      r == Err(exchange(AuthPart1Command(provider.keyNumber), AUTH_PART1_CAPACITY).error)
    // after an accepted Part 1, the provider's and the Part 2 exchange's errors pass through
    ensures var a1 := exchange(AuthPart1Command(provider.keyNumber), AUTH_PART1_CAPACITY);
            a1.Ok? && |a1.value| >= 18 && a1.value[|a1.value| - 2..] == [0x91, 0xAF] ==>
              var challenge := provider.createChallenge(a1.value[..16]);
              (challenge.Err? ==> r == Err(challenge.error))
              && (challenge.Ok? ==>
                    var a2 := exchange(AuthPart2Command(challenge.value), AUTH_PART2_CAPACITY);
                    a2.Err? ==> r == Err(a2.error))
  {
    match exchange(AuthPart1Command(provider.keyNumber), AUTH_PART1_CAPACITY)
    case Err(e) => Err(e)
    case Ok(a1) =>
      if |a1| < 18 then Err(DataLoss)
      else
        match AnswerStatus(0x91, 0xAF, a1)
        case Err(e) => Err(e)
        case Ok(_) =>
          assert a1[|a1| - 2..] == [a1[|a1| - 2], a1[|a1| - 1]];
          match provider.createChallenge(a1[..16])
          case Err(e) => Err(e)
          case Ok(challenge) =>
            match exchange(AuthPart2Command(challenge), AUTH_PART2_CAPACITY)
            case Err(e) => Err(e)
            case Ok(a2) =>
              match Part3Answer(a2)
              case Err(e) => Err(e)
              case Ok(part3) => provider.verify(part3)
  }

  // ---------------------------------------------------------------------------
  // Command layouts
  // ---------------------------------------------------------------------------

  /** File number, then offset and length as three little-endian bytes each (their low 24 bits). */
  function FileHeader(fileNumber: byte, offset: uint32, length: nat): (h: seq<byte>)
    ensures |h| == 7 && h[0] == fileNumber
    ensures LittleEndian(h[1..4]) == offset % 0x100_0000
    ensures LittleEndian(h[4..7]) == length % 0x100_0000
  {
    assert Pow256(3) == 0x100_0000;
    LittleEndianOfToLittleEndian(offset % 0x100_0000, 3);
    LittleEndianOfToLittleEndian(length % 0x100_0000, 3);
    var h := [fileNumber] + ToLittleEndian(offset % 0x100_0000, 3) + ToLittleEndian(length % 0x100_0000, 3);
    assert h[1..4] == ToLittleEndian(offset % 0x100_0000, 3);
    assert h[4..7] == ToLittleEndian(length % 0x100_0000, 3);
    h
  }

  /** The data field of WriteData: the ciphertext in Full mode, the data itself otherwise. */
  function WriteDataField(sm: SecureMessaging, ctr: uint16, data: seq<byte>, mode: CommMode): (r: Result<seq<byte>, Code>)
    requires sm.Valid()
    ensures mode == Full && PaddedLength(|data|) > MAX_FULL_WRITE ==> r == Err(OutOfRange)
    ensures mode == Full && PaddedLength(|data|) <= MAX_FULL_WRITE ==> r == sm.CommandCiphertext(ctr, data)
    ensures mode != Full && |data| > MAX_PLAIN_WRITE ==> r == Err(OutOfRange)
    ensures mode != Full && |data| <= MAX_PLAIN_WRITE ==> r == Ok(data)
    ensures r.Ok? ==> |r.value| <= MAX_FULL_WRITE
  {
    if mode == Full then
      if PaddedLength(|data|) > MAX_FULL_WRITE then Err(OutOfRange)
      else sm.CommandCiphertext(ctr, data)
    else if |data| > MAX_PLAIN_WRITE then Err(OutOfRange)
    else Ok(data)
  }

  /** A native command APDU: CLA INS 00 00 Lc, the command's body, then Le; Lc is the body's length. */
  predicate IsNativeApdu(c: seq<byte>, ins: byte) {
    |c| >= 6 && c[..4] == [CLA_NATIVE, ins, 0x00, 0x00] && c[4] == |c| - 6 && c[|c| - 1] == 0x00
  }

  function NativeApdu(ins: byte, body: seq<byte>): (c: seq<byte>)
    requires |body| < 256
    ensures IsNativeApdu(c, ins) && c[5..|c| - 1] == body
  {
    var lc: byte := |body|;
    [CLA_NATIVE, ins, 0x00, 0x00, lc] + body + [0x00]
  }

  /** The WriteData APDU: the header, the data field, then its CMACt unless Plain. */
  function WriteDataCommand(sm: SecureMessaging, ctr: uint16, fileNumber: byte, offset: uint32,
                            data: seq<byte>, mode: CommMode): (r: Result<seq<byte>, Code>)
    requires sm.Valid()
    ensures WriteDataField(sm, ctr, data, mode).Err? ==> r == Err(WriteDataField(sm, ctr, data, mode).error)
    ensures r.Ok? ==> IsNativeApdu(r.value, CMD_WRITE_DATA)
    ensures r.Ok? ==>
      var c := r.value;
      var body := c[5..|c| - 1];
      var field := WriteDataField(sm, ctr, data, mode).value;
      |body| == 7 + |field| + (if mode == Plain then 0 else CMAC_T_SIZE)
      && body[..7] == FileHeader(fileNumber, offset, |data|) && body[7..7 + |field|] == field
      && (mode != Plain ==> Ok(body[7 + |field|..]) == sm.Mact(CmacInput(CMD_WRITE_DATA, ctr, sm.ti, body[..7], field)))
    ensures WriteDataField(sm, ctr, data, mode).Ok? && mode != Plain ==>
      (r.Ok? <==> sm.Mact(CmacInput(CMD_WRITE_DATA, ctr, sm.ti, FileHeader(fileNumber, offset, |data|),
                                    WriteDataField(sm, ctr, data, mode).value)).Ok?)
    ensures WriteDataField(sm, ctr, data, mode).Ok? && mode == Plain ==> r.Ok?
  {
    var header := FileHeader(fileNumber, offset, |data|);
    match WriteDataField(sm, ctr, data, mode)
    case Err(e) => Err(e)
    case Ok(field) =>
      if mode == Plain then
        var body := header + field;
        assert body[..7] == header && body[7..7 + |field|] == field;
        Ok(NativeApdu(CMD_WRITE_DATA, body))
      else
        match sm.Mact(CmacInput(CMD_WRITE_DATA, ctr, sm.ti, header, field))
        case Err(e) => Err(e)
        case Ok(mac) =>
          var body := header + field + mac;
          assert body[..7] == header && body[7..7 + |field|] == field && body[7 + |field|..] == mac;
          Ok(NativeApdu(CMD_WRITE_DATA, body))
  }

  /** The ReadData APDU: the header, then its CMACt unless Plain. */
  function ReadDataCommand(sm: SecureMessaging, ctr: uint16, fileNumber: byte, offset: uint32,
                           length: uint32, mode: CommMode): (r: Result<seq<byte>, Code>)
    requires sm.Valid()
    ensures mode == Plain ==> r.Ok?
    ensures mode != Plain ==>
      (r.Ok? <==> sm.Mact(CmacInput(CMD_READ_DATA, ctr, sm.ti, FileHeader(fileNumber, offset, length), [])).Ok?)
    ensures r.Ok? ==> IsNativeApdu(r.value, CMD_READ_DATA)
    ensures r.Ok? ==>
      var c := r.value;
      var body := c[5..|c| - 1];
      |body| == (if mode == Plain then 7 else 7 + CMAC_T_SIZE)
      && body[..7] == FileHeader(fileNumber, offset, length)
      && (mode != Plain ==> Ok(body[7..]) == sm.Mact(CmacInput(CMD_READ_DATA, ctr, sm.ti, body[..7], [])))
  {
    var header := FileHeader(fileNumber, offset, length);
    if mode == Plain then
      assert header[..7] == header;
      Ok(NativeApdu(CMD_READ_DATA, header))
    else
      match sm.Mact(CmacInput(CMD_READ_DATA, ctr, sm.ti, header, []))
      case Err(e) => Err(e)
      case Ok(mac) =>
        var body := header + mac;
        assert body[..7] == header && body[7..] == mac;
        Ok(NativeApdu(CMD_READ_DATA, body))
  }

  /** The ChangeKey APDU: the key number, 32 bytes of ciphertext, then their CMACt. */
  function ChangeKeyCommand(sm: SecureMessaging, ctr: uint16, keyNumber: byte, plaintext: seq<byte>): (r: Result<seq<byte>, Code>)
    requires sm.Valid() && PaddedLength(|plaintext|) == 32
    ensures sm.CommandCiphertext(ctr, plaintext).Err? ==> r == Err(sm.CommandCiphertext(ctr, plaintext).error)
    ensures sm.CommandCiphertext(ctr, plaintext).Ok? ==>
      (r.Ok? <==> sm.Mact(CmacInput(CMD_CHANGE_KEY, ctr, sm.ti, [keyNumber], sm.CommandCiphertext(ctr, plaintext).value)).Ok?)
    ensures r.Ok? ==> IsNativeApdu(r.value, CMD_CHANGE_KEY)
    ensures r.Ok? ==>
      var c := r.value;
      var body := c[5..|c| - 1];
      |body| == 41 && body[0] == keyNumber
      && Ok(body[1..33]) == sm.CommandCiphertext(ctr, plaintext)
      && Ok(body[33..]) == sm.Mact(CmacInput(CMD_CHANGE_KEY, ctr, sm.ti, body[..1], body[1..33]))
  {
    match sm.CommandCiphertext(ctr, plaintext)
    case Err(e) => Err(e)
    case Ok(ciphertext) =>
      match sm.Mact(CmacInput(CMD_CHANGE_KEY, ctr, sm.ti, [keyNumber], ciphertext))
      case Err(e) => Err(e)
      case Ok(mac) =>
        var body := [keyNumber] + ciphertext + mac;
        assert body[..1] == [keyNumber] && body[1..33] == ciphertext && body[33..] == mac;
        Ok(NativeApdu(CMD_CHANGE_KEY, body))
  }

  // ---------------------------------------------------------------------------
  // ChangeKey payload
  // ---------------------------------------------------------------------------

  type Crc32 = s: seq<byte> | |s| == 4 witness [0, 0, 0, 0]

  /**
   * The ChangeKey plaintext: NewKey || KeyVer for key 0, and
   * (NewKey xor OldKey) || KeyVer || CRC32NK(NewKey) for the others; an
   * empty old key means none was given.
   */
  function ChangeKeyPlaintext(keyNumber: byte, newKey: seq<byte>, version: byte, oldKey: seq<byte>,
                              crc32nk: seq<byte> -> Crc32): (r: Result<seq<byte>, Code>)
    ensures r.Err? ==> r.error == InvalidArgument
    ensures r.Ok? <==> |newKey| == KEY_SIZE && (|oldKey| == 0 || |oldKey| == KEY_SIZE) && (keyNumber != 0 ==> |oldKey| == KEY_SIZE)
    ensures r.Ok? ==> PaddedLength(|r.value|) == 32
    ensures r.Ok? && keyNumber == 0 ==> r.value == newKey + [version]
    // the tag recovers the new key from the XOR with the old one
    ensures r.Ok? && keyNumber != 0 ==>
      |r.value| == 21 && XorBytes(r.value[..16], oldKey) == newKey
      && r.value[16] == version && r.value[17..] == crc32nk(newKey)
  {
    if |newKey| != KEY_SIZE then Err(InvalidArgument)
    else if |oldKey| != 0 && |oldKey| != KEY_SIZE then Err(InvalidArgument)
    else if keyNumber == 0 then Ok(newKey + [version])
    else if |oldKey| == 0 then Err(InvalidArgument)
    else
      var p := XorBytes(newKey, oldKey) + [version] + crc32nk(newKey);
      assert p[..16] == XorBytes(newKey, oldKey);
      XorBytesCancel(newKey, oldKey);
      Ok(p)
  }

  // ---------------------------------------------------------------------------
  // Answers
  // ---------------------------------------------------------------------------

  /**
   * What a command ends with: its result, whether the command counter was
   * advanced, and whether the session was cleared.
   */
  datatype Outcome<T> = Outcome(result: Result<T, Code>, counterAdvanced: bool, sessionCleared: bool)

  /** The answer the tag accepted the command with: at least the status word, which is 91 00. */
  predicate Accepted(answer: Result<seq<byte>, Code>) {
    answer.Ok? && |answer.value| >= 2 && answer.value[|answer.value| - 2..] == [0x91, 0x00]
  }

  lemma AcceptedStatus(answer: seq<byte>)
    requires |answer| >= 2
    ensures AnswerStatus(0x91, 0x00, answer).Ok? <==> Accepted(Ok(answer))
  {
    assert answer[|answer| - 2..] == [answer[|answer| - 2], answer[|answer| - 1]];
  }

  /** WriteData's answer: [CMACt] SW, the CMACt absent in Plain mode. */
  function WriteDataReply(sm: SecureMessaging, ctr: uint16, mode: CommMode, answer: Result<seq<byte>, Code>): (o: Outcome<()>)
    requires sm.Valid()
    ensures answer.Err? ==> o == Outcome(Err(answer.error), false, false)
    ensures answer.Ok? && |answer.value| < 2 ==> o.result == Err(DataLoss)
    // the counter moves exactly when the tag accepted the command
    ensures o.counterAdvanced <==> Accepted(answer) && ctr < MAX_COUNTER
    ensures Accepted(answer) && ctr == MAX_COUNTER ==> o.result == Err(ResourceExhausted)
    // success only with the tag's CMACt over the advanced counter checked
    ensures o.result.Ok? <==>
      o.counterAdvanced
      && (mode != Plain ==> |answer.value| >= 10 && sm.ResponseCheck(ctr + 1, 0x00, [], answer.value[..8]).Ok?)
    ensures !o.sessionCleared
  {
    match answer
    case Err(e) => Outcome(Err(e), false, false)
    case Ok(a) =>
      if |a| < 2 then Outcome(Err(DataLoss), false, false)
      else
        AcceptedStatus(a);
        match AnswerStatus(0x91, 0x00, a)
        case Err(e) => Outcome(Err(e), false, false)
        case Ok(_) =>
          if ctr == MAX_COUNTER then Outcome(Err(ResourceExhausted), false, false)
          else if mode == Plain then Outcome(Ok(()), true, false)
          else if |a| < 10 then Outcome(Err(DataLoss), true, false)
          else Outcome(sm.ResponseCheck(ctr + 1, 0x00, [], a[..8]), true, false)
  }

  /** The smallest ReadData answer: SW, and the CMACt unless Plain. */
  function ReadAnswerMinimum(mode: CommMode): nat {
    if mode == Plain then 2 else 10
  }

  /**
   * The data of an accepted ReadData answer, checked against the tag's
   * CMACt at the advanced counter `ctr` unless Plain, decrypted in Full
   * mode, and fitting a buffer of `capacity` bytes.
   */
  function ReadPayload(sm: SecureMessaging, ctr: uint16, mode: CommMode, a: seq<byte>, capacity: nat): (r: Result<seq<byte>, Code>)
    requires sm.Valid() && |a| >= ReadAnswerMinimum(mode)
    ensures r.Ok? ==> |r.value| <= capacity
    ensures r.Ok? && mode == Plain ==> r.value == a[..|a| - 2]
    ensures r.Ok? && mode == Mac ==>
      r.value == a[..|a| - 10] && sm.ResponseCheck(ctr, 0x00, a[..|a| - 10], a[|a| - 10..|a| - 2]).Ok?
    ensures r.Ok? && mode == Full && |a| > 10 ==>
      sm.ResponseCheck(ctr, 0x00, a[..|a| - 10], a[|a| - 10..|a| - 2]).Ok?
      && |a| - 10 <= MAX_FULL_READ
      && sm.DecryptedResponse(ctr, a[..|a| - 10], |a| - 10) == Ok(r.value)
    // in Full mode an answer without data carries nothing to check
    ensures r.Ok? && mode == Full && |a| == 10 ==> r.value == []
    ensures mode == Plain && |a| - 2 > capacity ==> r == Err(ResourceExhausted)
  {
    var dataLength := |a| - ReadAnswerMinimum(mode);
    if mode == Full && dataLength > 0 then
      var ciphertext := a[..dataLength];
      match sm.ResponseCheck(ctr, 0x00, ciphertext, a[dataLength..dataLength + 8])
      case Err(e) => Err(e)
      case Ok(_) =>
        if dataLength > MAX_FULL_READ then Err(ResourceExhausted)
        else
          match sm.DecryptedResponse(ctr, ciphertext, dataLength)
          case Err(e) => Err(e)
          case Ok(plaintext) => if capacity < |plaintext| then Err(ResourceExhausted) else Ok(plaintext)
    else if mode == Mac then
      match sm.ResponseCheck(ctr, 0x00, a[..dataLength], a[dataLength..dataLength + 8])
      case Err(e) => Err(e)
      case Ok(_) => if capacity < dataLength then Err(ResourceExhausted) else Ok(a[..dataLength])
    else if capacity < dataLength then Err(ResourceExhausted)
    else Ok(a[..dataLength])
  }

  /** ReadData's answer: Data [CMACt] SW, the CMACt absent in Plain mode. */
  function ReadDataReply(sm: SecureMessaging, ctr: uint16, mode: CommMode, answer: Result<seq<byte>, Code>,
                         capacity: nat): (o: Outcome<seq<byte>>)
    requires sm.Valid()
    ensures answer.Err? ==> o == Outcome(Err(answer.error), false, false)
    ensures answer.Ok? && |answer.value| < ReadAnswerMinimum(mode) ==> o.result == Err(DataLoss)
    // chaining is not supported
    ensures (answer.Ok? && |answer.value| >= ReadAnswerMinimum(mode)
             && answer.value[|answer.value| - 2..] == [0x91, 0xAF]) ==> o.result == Err(Unimplemented)
    // the counter moves exactly when the tag accepted the command
    ensures o.counterAdvanced <==> Accepted(answer) && |answer.value| >= ReadAnswerMinimum(mode) && ctr < MAX_COUNTER
    // and then the data is read at the advanced counter
    ensures o.counterAdvanced ==> o.result == ReadPayload(sm, ctr + 1, mode, answer.value, capacity)
    ensures o.result.Ok? ==> o.counterAdvanced
    ensures !o.sessionCleared
  {
    match answer
    case Err(e) => Outcome(Err(e), false, false)
    case Ok(a) =>
      if |a| < ReadAnswerMinimum(mode) then Outcome(Err(DataLoss), false, false)
      else
        assert a[|a| - 2..] == [a[|a| - 2], a[|a| - 1]];
        if a[|a| - 2] == 0x91 && a[|a| - 1] == 0xAF then Outcome(Err(Unimplemented), false, false)
        else
          match AnswerStatus(0x91, 0x00, a)
          case Err(e) => Outcome(Err(e), false, false)
          case Ok(_) =>
            if ctr == MAX_COUNTER then Outcome(Err(ResourceExhausted), false, false)
            else Outcome(ReadPayload(sm, ctr + 1, mode, a, capacity), true, false)
  }

  /** ChangeKey's answer: SW alone for key 0, which ends the session; CMACt SW for the others. */
  function ChangeKeyReply(sm: SecureMessaging, ctr: uint16, keyNumber: byte, answer: Result<seq<byte>, Code>): (o: Outcome<()>)
    requires sm.Valid()
    ensures answer.Err? ==> o == Outcome(Err(answer.error), false, false)
    ensures o.sessionCleared <==> keyNumber == 0 && Accepted(answer)
    ensures o.sessionCleared ==> o.result.Ok? && !o.counterAdvanced
    ensures o.counterAdvanced <==> keyNumber != 0 && Accepted(answer) && |answer.value| >= 10 && ctr < MAX_COUNTER
    ensures o.result.Ok? && keyNumber != 0 ==>
      o.counterAdvanced && sm.ResponseCheck(ctr + 1, 0x00, [], answer.value[..8]).Ok?
    ensures o.counterAdvanced ==> o.result == sm.ResponseCheck(ctr + 1, 0x00, [], answer.value[..8])
  {
    match answer
    case Err(e) => Outcome(Err(e), false, false)
    case Ok(a) =>
      if |a| < 2 then Outcome(Err(DataLoss), false, false)
      else
        AcceptedStatus(a);
        match AnswerStatus(0x91, 0x00, a)
        case Err(e) => Outcome(Err(e), false, false)
        case Ok(_) =>
          if keyNumber == 0 then Outcome(Ok(()), false, true)
          else if |a| < 10 then Outcome(Err(DataLoss), false, false)
          else if ctr == MAX_COUNTER then Outcome(Err(ResourceExhausted), false, false)
          else Outcome(sm.ResponseCheck(ctr + 1, 0x00, [], a[..8]), true, false)
  }

  /** A whole WriteData exchange at counter `ctr`. */
  function WriteDataOutcome(sm: SecureMessaging, ctr: uint16, fileNumber: byte, offset: uint32, data: seq<byte>,
                            mode: CommMode, exchange: Exchange): Outcome<()>
    requires sm.Valid()
  {
    match WriteDataCommand(sm, ctr, fileNumber, offset, data, mode)
    case Err(e) => Outcome(Err(e), false, false)
    case Ok(command) => WriteDataReply(sm, ctr, mode, exchange(command, WRITE_DATA_CAPACITY))
  }

  /** A whole ReadData exchange at counter `ctr`, into a buffer of `capacity` bytes. */
  function ReadDataOutcome(sm: SecureMessaging, ctr: uint16, fileNumber: byte, offset: uint32, length: uint32,
                           mode: CommMode, exchange: Exchange, capacity: nat): Outcome<seq<byte>>
    requires sm.Valid()
  {
    match ReadDataCommand(sm, ctr, fileNumber, offset, length, mode)
    case Err(e) => Outcome(Err(e), false, false)
    case Ok(command) => ReadDataReply(sm, ctr, mode, exchange(command, READ_DATA_CAPACITY), capacity)
  }

  /** A whole ChangeKey exchange at counter `ctr`. */
  function ChangeKeyOutcome(sm: SecureMessaging, ctr: uint16, keyNumber: byte, newKey: seq<byte>, version: byte,
                            oldKey: seq<byte>, crc32nk: seq<byte> -> Crc32, exchange: Exchange): Outcome<()>
    requires sm.Valid()
  {
    match ChangeKeyPlaintext(keyNumber, newKey, version, oldKey, crc32nk)
    case Err(e) => Outcome(Err(e), false, false)
    case Ok(plaintext) =>
      match ChangeKeyCommand(sm, ctr, keyNumber, plaintext)
      case Err(e) => Outcome(Err(e), false, false)
      case Ok(command) => ChangeKeyReply(sm, ctr, keyNumber, exchange(command, CHANGE_KEY_CAPACITY))
  }

  // ---------------------------------------------------------------------------
  // Building the commands and reading the answers at the current counter
  // ---------------------------------------------------------------------------

  method BuildWriteDataCommand(sm: SecureMessaging, fileNumber: byte, offset: uint32, data: seq<byte>, mode: CommMode)
    returns (r: Result<seq<byte>, Code>)
    requires sm.Valid()
    ensures r == WriteDataCommand(sm, sm.cmdCtr, fileNumber, offset, data, mode)
  {
    var header := FileHeader(fileNumber, offset, |data|);
    var field: seq<byte>;
    if mode == Full {
      // ISO 7816-4 padding always adds at least one byte
      var paddedSize := (|data| / BLOCK_SIZE + 1) * BLOCK_SIZE;
      assert paddedSize == PaddedLength(|data|);
      if paddedSize > MAX_FULL_WRITE {
        return Err(OutOfRange);
      }
      var ciphertext, _ := sm.EncryptCommandData(data, paddedSize);
      if ciphertext.Err? {
        return Err(ciphertext.error);
      }
      field := ciphertext.value;
    } else {
      if |data| > MAX_PLAIN_WRITE {
        return Err(OutOfRange);
      }
      field := data;
    }
    assert WriteDataField(sm, sm.cmdCtr, data, mode) == Ok(field);
    if mode == Plain {
      r := Ok(NativeApdu(CMD_WRITE_DATA, header + field));
    } else {
      var mac := sm.BuildCommandCMACWithData(CMD_WRITE_DATA, header, field, CMAC_T_SIZE);
      if mac.Err? {
        return Err(mac.error);
      }
      r := Ok(NativeApdu(CMD_WRITE_DATA, header + field + mac.value));
    }
  }

  method BuildReadDataCommand(sm: SecureMessaging, fileNumber: byte, offset: uint32, length: uint32, mode: CommMode)
    returns (r: Result<seq<byte>, Code>)
    requires sm.Valid()
    ensures r == ReadDataCommand(sm, sm.cmdCtr, fileNumber, offset, length, mode)
  {
    var header := FileHeader(fileNumber, offset, length);
    if mode != Plain {
      var mac := sm.BuildCommandCMAC(CMD_READ_DATA, header, CMAC_T_SIZE);
      if mac.Err? {
        return Err(mac.error);
      }
      r := Ok(NativeApdu(CMD_READ_DATA, header + mac.value));
    } else {
      r := Ok(NativeApdu(CMD_READ_DATA, header));
    }
  }

  method BuildChangeKeyCommand(sm: SecureMessaging, keyNumber: byte, plaintext: seq<byte>) returns (r: Result<seq<byte>, Code>)
    requires sm.Valid() && PaddedLength(|plaintext|) == 32
    ensures r == ChangeKeyCommand(sm, sm.cmdCtr, keyNumber, plaintext)
  {
    var ciphertext, _ := sm.EncryptCommandData(plaintext, 32);
    if ciphertext.Err? {
      return Err(ciphertext.error);
    }
    var mac := sm.BuildCommandCMACWithData(CMD_CHANGE_KEY, [keyNumber], ciphertext.value, CMAC_T_SIZE);
    if mac.Err? {
      return Err(mac.error);
    }
    r := Ok(NativeApdu(CMD_CHANGE_KEY, [keyNumber] + ciphertext.value + mac.value));
  }

  /** The data of an accepted ReadData answer, read once the counter has advanced. */
  method ReadPayloadOf(sm: SecureMessaging, mode: CommMode, a: seq<byte>, capacity: nat) returns (r: Result<seq<byte>, Code>)
    requires sm.Valid() && |a| >= ReadAnswerMinimum(mode)
    ensures r == ReadPayload(sm, sm.cmdCtr, mode, a, capacity)
  {
    var dataLength := |a| - ReadAnswerMinimum(mode);
    var result: seq<byte>;
    if mode == Full && dataLength > 0 {
      var ciphertext := a[..dataLength];
      // the CMACt over the ciphertext is checked before decrypting
      var verified := sm.VerifyResponseCMACWithData(0x00, ciphertext, a[dataLength..dataLength + 8]);
      if verified.Err? {
        return Err(verified.error);
      }
      if dataLength > MAX_FULL_READ {
        return Err(ResourceExhausted);
      }
      var plaintext := sm.DecryptResponseData(ciphertext, dataLength);
      if plaintext.Err? {
        return Err(plaintext.error);
      }
      result := plaintext.value;
    } else if mode == Mac {
      var verified := sm.VerifyResponseCMACWithData(0x00, a[..dataLength], a[dataLength..dataLength + 8]);
      if verified.Err? {
        return Err(verified.error);
      }
      result := a[..dataLength];
    } else {
      result := a[..dataLength];
    }
    if capacity < |result| {
      return Err(ResourceExhausted);
    }
    return Ok(result);
  }

  /** WriteData once the tag has answered: the status word, the counter, the response CMACt. */
  method FinishWriteData(sm: SecureMessaging, mode: CommMode, answer: Result<seq<byte>, Code>) returns (r: Result<(), Code>)
    requires sm.Valid()
    modifies sm
    ensures var o := WriteDataReply(sm, old(sm.cmdCtr), mode, answer);
      r == o.result && sm.cmdCtr == old(sm.cmdCtr) + (if o.counterAdvanced then 1 else 0)
  {
    if answer.Err? {
      return Err(answer.error);
    }
    var a := answer.value;
    if |a| < 2 {
      return Err(DataLoss);
    }
    r := CheckStatus(0x91, 0x00, a[|a| - 2], a[|a| - 1]);
    if r.Err? {
      return;
    }
    var advanced := sm.IncrementCounter();
    if !advanced {
      return Err(ResourceExhausted);
    }
    if mode != Plain {
      if |a| < 10 {
        return Err(DataLoss);
      }
      r := sm.VerifyResponseCMAC(0x00, a[..8]);
    }
  }

  /** ReadData once the tag has answered: the status word, the counter, then the data. */
  method ReadDataAnswer(sm: SecureMessaging, mode: CommMode, answer: Result<seq<byte>, Code>, capacity: nat)
    returns (r: Result<seq<byte>, Code>)
    requires sm.Valid()
    modifies sm
    ensures var o := ReadDataReply(sm, old(sm.cmdCtr), mode, answer, capacity);
      r == o.result && sm.cmdCtr == old(sm.cmdCtr) + (if o.counterAdvanced then 1 else 0)
  {
    if answer.Err? {
      return Err(answer.error);
    }
    var a := answer.value;
    if |a| < ReadAnswerMinimum(mode) {
      return Err(DataLoss);
    }
    var sw1, sw2 := a[|a| - 2], a[|a| - 1];
    // 91 AF asks for chaining, which is not supported
    if sw1 == 0x91 && sw2 == 0xAF {
      return Err(Unimplemented);
    }
    var status := CheckStatus(0x91, 0x00, sw1, sw2);
    if status.Err? {
      return Err(status.error);
    }
    var advanced := sm.IncrementCounter();
    if !advanced {
      return Err(ResourceExhausted);
    }
    r := ReadPayloadOf(sm, mode, a, capacity);
  }

  // ---------------------------------------------------------------------------
  // The tag
  // ---------------------------------------------------------------------------

  class Ntag424Tag {
    var secureMessaging: Option<SecureMessaging>
    var authenticatedKeyNumber: byte
    /** Counts successful authentications; kept across ClearSession so that old tokens stay stale. */
    var authSerial: uint32

    ghost predicate Valid()
      reads this
    {
      secureMessaging.Some? ==> secureMessaging.value.Valid()
    }

    /** The secure-messaging object, the only thing the commands change besides this. */
    function SessionObjects(): set<SecureMessaging>
      reads this
    {
      if secureMessaging.Some? then {secureMessaging.value} else {}
    }

    constructor()
      ensures Valid() && secureMessaging == None && authenticatedKeyNumber == 0 && authSerial == 0
    {
      secureMessaging := None;
      authenticatedKeyNumber := 0;
      authSerial := 0;
    }

    /** A token is good only while a session exists and it carries the current serial. */
    function ValidateSession(session: Session): (r: Result<(), Code>)
      reads this
      ensures r.Ok? <==> secureMessaging.Some? && session.authSerial == authSerial
      ensures r.Err? ==> r.error == FailedPrecondition
    {
      if secureMessaging.None? then Err(FailedPrecondition)
      else if session.authSerial != authSerial then Err(FailedPrecondition)
      else Ok(())
    }

    method ClearSession()
      modifies this
      ensures Valid() && secureMessaging == None && authenticatedKeyNumber == 0
      ensures authSerial == old(authSerial)
      ensures forall session: Session :: ValidateSession(session).Err?
    {
      secureMessaging := None;
      authenticatedKeyNumber := 0;
    }

    /**
     * AuthenticateEV2First with the provider's key. Any previous session
     * ends first; success starts a fresh secure-messaging state at counter 0
     * and hands out a token with the next serial, so earlier tokens go stale.
     */
    method Authenticate(aes: Aes, provider: KeyProvider, exchange: Exchange) returns (r: Result<Session, Code>)
      modifies this
      ensures Valid()
      ensures var a := AuthenticationResult(provider, exchange);
        (r.Ok? <==> a.Ok?) && (r.Err? ==> r.error == a.error)
      ensures r.Err? ==> secureMessaging == None && authenticatedKeyNumber == 0 && authSerial == old(authSerial)
      ensures r.Ok? ==>
        var secrets := AuthenticationResult(provider, exchange).value;
        authSerial == NextSerial(old(authSerial)) && r.value == Session(provider.keyNumber, authSerial)
        && authenticatedKeyNumber == provider.keyNumber
        && secureMessaging.Some? && fresh(secureMessaging.value) && secureMessaging.value.cmdCtr == 0
        && secureMessaging.value.aes == aes && secureMessaging.value.ti == secrets.ti
        && secureMessaging.value.sesAuthEncKey == secrets.encKey && secureMessaging.value.sesAuthMacKey == secrets.macKey
        && ValidateSession(r.value).Ok?
      ensures r.Ok? ==> forall session: Session | session.authSerial == old(authSerial) :: ValidateSession(session).Err?
    {
      ClearSession();
      var part1 := exchange(AuthPart1Command(provider.keyNumber), AUTH_PART1_CAPACITY);
      if part1.Err? {
        return Err(part1.error);
      }
      var a1 := part1.value;
      if |a1| < 18 {
        return Err(DataLoss);
      }
      var status1 := CheckStatus(0x91, 0xAF, a1[|a1| - 2], a1[|a1| - 1]);
      if status1.Err? {
        return Err(status1.error);
      }
      var challenge := provider.createChallenge(a1[..16]);
      if challenge.Err? {
        return Err(challenge.error);
      }
      var part2 := exchange(AuthPart2Command(challenge.value), AUTH_PART2_CAPACITY);
      if part2.Err? {
        return Err(part2.error);
      }
      var part3 := Part3Answer(part2.value);
      if part3.Err? {
        return Err(part3.error);
      }
      var secrets := provider.verify(part3.value);
      if secrets.Err? {
        return Err(secrets.error);
      }
      var sm := new SecureMessaging(aes, secrets.value.encKey, secrets.value.macKey, secrets.value.ti, 0);
      secureMessaging := Some(sm);
      authenticatedKeyNumber := provider.keyNumber;
      authSerial := NextSerial(authSerial);
      r := Ok(Session(provider.keyNumber, authSerial));
    }

    /**
     * WriteData in the given mode. The counter advances exactly when the
     * tag accepted the command; success needs the response CMACt unless Plain.
     */
    method WriteData(session: Session, fileNumber: byte, offset: uint32, data: seq<byte>, mode: CommMode,
                     exchange: Exchange) returns (r: Result<(), Code>)
      requires Valid()
      modifies SessionObjects()
      ensures ValidateSession(session).Err? ==> r == ValidateSession(session) && unchanged(SessionObjects())
      ensures ValidateSession(session).Ok? ==>
        var sm := secureMessaging.value;
        var o := WriteDataOutcome(sm, old(sm.cmdCtr), fileNumber, offset, data, mode, exchange);
        r == o.result && sm.cmdCtr == old(sm.cmdCtr) + (if o.counterAdvanced then 1 else 0)
    {
      r := ValidateSession(session);
      if r.Err? {
        return;
      }
      var sm := secureMessaging.value;
      var command := BuildWriteDataCommand(sm, fileNumber, offset, data, mode);
      if command.Err? {
        return Err(command.error);
      }
      r := FinishWriteData(sm, mode, exchange(command.value, WRITE_DATA_CAPACITY));
    }

    /**
     * ReadData in the given mode into `dataBuffer`: the bytes read are at
     * its front and the rest of it is unchanged; on an error nothing is written.
     */
    method ReadData(session: Session, fileNumber: byte, offset: uint32, length: uint32, dataBuffer: array<byte>,
                    mode: CommMode, exchange: Exchange) returns (r: Result<nat, Code>)
      requires Valid()
      modifies SessionObjects(), dataBuffer
      ensures ValidateSession(session).Err? ==> r == Err(FailedPrecondition) && unchanged(SessionObjects())
      ensures r.Err? ==> dataBuffer[..] == old(dataBuffer[..])
      ensures ValidateSession(session).Ok? ==>
        var sm := secureMessaging.value;
        var o := ReadDataOutcome(sm, old(sm.cmdCtr), fileNumber, offset, length, mode, exchange, dataBuffer.Length);
        (r.Ok? <==> o.result.Ok?) && (r.Err? ==> r.error == o.result.error)
        && (r.Ok? ==> r.value == |o.result.value| && dataBuffer[..r.value] == o.result.value
                      && dataBuffer[r.value..] == old(dataBuffer[r.value..]))
        && sm.cmdCtr == old(sm.cmdCtr) + (if o.counterAdvanced then 1 else 0)
    {
      var valid := ValidateSession(session);
      if valid.Err? {
        return Err(valid.error);
      }
      var sm := secureMessaging.value;
      var command := BuildReadDataCommand(sm, fileNumber, offset, length, mode);
      if command.Err? {
        return Err(command.error);
      }
      var data := ReadDataAnswer(sm, mode, exchange(command.value, READ_DATA_CAPACITY), dataBuffer.Length);
      if data.Err? {
        return Err(data.error);
      }
      CopyInto(dataBuffer, 0, data.value);
      return Ok(|data.value|);
    }

    /**
     * ChangeKey for `keyNumber`. Changing key 0 ends the session once the
     * tag accepts; for the other keys the counter advances and the response
     * CMACt is checked.
     */
    method ChangeKey(session: Session, keyNumber: byte, newKey: seq<byte>, version: byte, oldKey: seq<byte>,
                     crc32nk: seq<byte> -> Crc32, exchange: Exchange) returns (r: Result<(), Code>)
      requires Valid()
      modifies this, SessionObjects()
      ensures Valid() && authSerial == old(authSerial)
      ensures old(ValidateSession(session)).Err? ==>
        r == Err(FailedPrecondition) && unchanged(this) && unchanged(old(SessionObjects()))
      ensures old(ValidateSession(session)).Ok? ==>
        var sm := old(secureMessaging.value);
        var o := ChangeKeyOutcome(sm, old(sm.cmdCtr), keyNumber, newKey, version, oldKey, crc32nk, exchange);
        r == o.result && sm.cmdCtr == old(sm.cmdCtr) + (if o.counterAdvanced then 1 else 0)
        && (o.sessionCleared ==> secureMessaging == None && authenticatedKeyNumber == 0)
        && (!o.sessionCleared ==> secureMessaging == old(secureMessaging)
                                  && authenticatedKeyNumber == old(authenticatedKeyNumber))
    {
      r := ValidateSession(session);
      if r.Err? {
        return;
      }
      var sm := secureMessaging.value;
      var plaintext := ChangeKeyPlaintext(keyNumber, newKey, version, oldKey, crc32nk);
      if plaintext.Err? {
        return Err(plaintext.error);
      }
      var command := BuildChangeKeyCommand(sm, keyNumber, plaintext.value);
      if command.Err? {
        return Err(command.error);
      }
      var answer := exchange(command.value, CHANGE_KEY_CAPACITY);
      if answer.Err? {
        return Err(answer.error);
      }
      var a := answer.value;
      if |a| < 2 {
        return Err(DataLoss);
      }
      r := CheckStatus(0x91, 0x00, a[|a| - 2], a[|a| - 1]);
      if r.Err? {
        return;
      }
      if keyNumber == 0 {
        ClearSession();
        return Ok(());
      }
      if |a| < 10 {
        return Err(DataLoss);
      }
      var advanced := sm.IncrementCounter();
      if !advanced {
        return Err(ResourceExhausted);
      }
      r := sm.VerifyResponseCMAC(0x00, a[..8]);
    }
  }
}
