// PN532 host-link frames: building a command frame into a buffer and parsing
// a response frame, with the one-byte length and data checksums.
//
//   00 | 00 FF | LEN | LCS | TFI | CMD | params ... | DCS | 00
//
// LEN counts TFI, CMD and the parameters; LEN + LCS and the byte sum of
// TFI, CMD, parameters and DCS are both 0 modulo 256.

module Pn532Command {
  import opened Wrappers
  import opened Bytes
  import opened PwStatus

  /** LEN is a single byte (the constants header is not part of this model). */
  const MAX_FRAME_LENGTH: nat := 255
  const TFI_HOST_TO_PN532: byte := 0xD4
  const TFI_PN532_TO_HOST: byte := 0xD5
  const TFI_ERROR: byte := 0x7F

  /** The plain sum of the bytes; the firmware keeps it modulo 256. */
  function Sum(s: seq<byte>): nat
  {
    if s == [] then 0 else Sum(s[..|s| - 1]) + s[|s| - 1]
  }

  lemma {:induction false} SumAppend(a: seq<byte>, b: seq<byte>)
    ensures Sum(a + b) == Sum(a) + Sum(b)
    decreases |b|
  {
    if b == [] {
      assert a + b == a;
    } else {
      assert (a + b)[..|a + b| - 1] == a + b[..|b| - 1];
      SumAppend(a, b[..|b| - 1]);
    }
  }

  /** One more byte in the running sum, kept modulo 256. */
  lemma SumStep(data: seq<byte>, i: nat)
    requires i < |data|
    ensures Sum(data[..i + 1]) % 256 == (Sum(data[..i]) % 256 + data[i]) % 256
  {
    assert data[..i + 1][..i] == data[..i];
    ModAddLeft(Sum(data[..i]), data[i]);
  }

  lemma ModAddLeft(a: nat, b: nat)
    ensures (a + b) % 256 == (a % 256 + b) % 256
  {
  }

  /** The two's complement of the length byte, ~len + 1 in eight bits. */
  function CalculateLengthChecksum(len: byte): (lcs: byte)
    ensures (len + lcs) % 256 == 0
  {
    (256 - len) % 256
  }

  function ValidateLengthChecksum(len: byte, lcs: byte): bool
  {
    (len + lcs) % 256 == 0
  }

  /** A length checksum is valid exactly when it is the one the builder writes. */
  lemma LengthChecksumUnique(len: byte, lcs: byte)
    ensures ValidateLengthChecksum(len, lcs) <==> lcs == CalculateLengthChecksum(len)
  {
  }

  /** The data checksum as a value: what makes the byte sum 0 modulo 256. */
  function DataChecksum(data: seq<byte>): (dcs: byte)
    ensures (Sum(data) + dcs) % 256 == 0
  {
    (256 - Sum(data) % 256) % 256
  }

  /** Sums the bytes in eight bits, then negates. */
  method CalculateDataChecksum(data: seq<byte>) returns (dcs: byte)
    ensures dcs == DataChecksum(data)
    ensures (Sum(data) + dcs) % 256 == 0
  {
    var sum: byte := 0;
    var i := 0;
    while i < |data|
      invariant 0 <= i <= |data|
      invariant sum == Sum(data[..i]) % 256
    {
      SumStep(data, i);
      sum := (sum + data[i]) % 256;
      i := i + 1;
    }
    assert data[..i] == data;
    dcs := (256 - sum) % 256;
  }

  method ValidateDataChecksum(data: seq<byte>, dcs: byte) returns (ok: bool)
    ensures ok <==> dcs == DataChecksum(data)
  {
    var sum: byte := 0;
    var i := 0;
    while i < |data|
      invariant 0 <= i <= |data|
      invariant sum == Sum(data[..i]) % 256
    {
      SumStep(data, i);
      sum := (sum + data[i]) % 256;
      i := i + 1;
    }
    assert data[..i] == data;
    ok := (sum + dcs) % 256 == 0;
  }

  /** The complete frame for a frame identifier, a command code and its parameters. */
  function Frame(tfi: byte, command: byte, params: seq<byte>): (f: seq<byte>)
    requires 2 + |params| <= MAX_FRAME_LENGTH
    ensures |f| == 9 + |params|
    ensures f[3] == 2 + |params| && (f[3] as int + f[4] as int) % 256 == 0
    ensures f[5..7 + |params|] == [tfi, command] + params
  {
    var len := 2 + |params|;
    var data := [tfi, command] + params;
    var f := [0x00, 0x00, 0xFF, len, CalculateLengthChecksum(len)] + data + [DataChecksum(data), 0x00];
    assert f[5..7 + |params|] == data;
    f
  }

  /** TFI, command, parameters and DCS of a frame sum to 0 modulo 256. */
  lemma FrameDataSumsToZero(tfi: byte, command: byte, params: seq<byte>)
    requires 2 + |params| <= MAX_FRAME_LENGTH
    ensures Sum(Frame(tfi, command, params)[5..8 + |params|]) % 256 == 0
  {
    var data := [tfi, command] + params;
    var f := Frame(tfi, command, params);
    assert f[5..8 + |params|] == data + [DataChecksum(data)];
    SumAppend(data, [DataChecksum(data)]);
    assert Sum([DataChecksum(data)]) == DataChecksum(data) by {
      assert [DataChecksum(data)][..0] == [];
    }
  }

  /** What the firmware sends for a command. */
  datatype Pn532Command = Pn532Command(command: byte, params: seq<byte>)

  /**
   * Writes the frame to the front of the buffer and returns its size, or
   * returns 0 and writes nothing when the parameters do not fit in LEN or the
   * buffer is too small.
   */
  method BuildFrame(cmd: Pn532Command, buffer: array<byte>) returns (n: nat)
    modifies buffer
    ensures 2 + |cmd.params| > MAX_FRAME_LENGTH || buffer.Length < 9 + |cmd.params| ==>
      n == 0 && buffer[..] == old(buffer[..])
    ensures 2 + |cmd.params| <= MAX_FRAME_LENGTH && buffer.Length >= 9 + |cmd.params| ==>
      n == 9 + |cmd.params|
      && buffer[..n] == Frame(TFI_HOST_TO_PN532, cmd.command, cmd.params)
      && buffer[n..] == old(buffer[n..])
  {
    var params := cmd.params;
    var dataLen := 2 + |params|;
    if dataLen > MAX_FRAME_LENGTH {
      return 0;
    }
    var totalLen := 9 + |params|;
    if buffer.Length < totalLen {
      return 0;
    }
    var lcs := CalculateLengthChecksum(dataLen);
    var data := [TFI_HOST_TO_PN532, cmd.command] + params;
    var checksum := CalculateDataChecksum(data);
    var head := [0x00, 0x00, 0xFF, dataLen, lcs, TFI_HOST_TO_PN532, cmd.command];
    ghost var before := buffer[..];
    WriteBytes(buffer, 0, head);
    WriteBytes(buffer, 7, params);
    var idx := 7 + |params|;
    var tail := [checksum, 0x00];
    WriteBytes(buffer, idx, tail);
    n := idx + 2;
    FrameWritten(before, TFI_HOST_TO_PN532, cmd.command, params, head, tail, buffer[..]);
    assert buffer[..n] == buffer[..][0..n];
  }

  /** The three writes of BuildFrame leave the frame at the front and the rest as it was. */
  lemma FrameWritten(before: seq<byte>, tfi: byte, command: byte, params: seq<byte>, head: seq<byte>, tail: seq<byte>, after: seq<byte>)
    requires 2 + |params| <= MAX_FRAME_LENGTH && 9 + |params| <= |before|
    requires head == [0x00, 0x00, 0xFF, 2 + |params|, CalculateLengthChecksum(2 + |params|), tfi, command]
    requires tail == [DataChecksum([tfi, command] + params), 0x00]
    requires after == Overwrite(Overwrite(Overwrite(before, 0, head), 7, params), 7 + |params|, tail)
    ensures after == Overwrite(before, 0, Frame(tfi, command, params))
  {
    OverwriteThree(before, head, params, tail);
    FrameLayout(tfi, command, params);
  }

  /** A frame is the preamble, LEN, LCS, TFI, command and parameters, then DCS and the postamble. */
  lemma FrameLayout(tfi: byte, command: byte, params: seq<byte>)
    requires 2 + |params| <= MAX_FRAME_LENGTH
    ensures Frame(tfi, command, params)
         == [0x00, 0x00, 0xFF, 2 + |params|, CalculateLengthChecksum(2 + |params|), tfi, command] + params
            + [DataChecksum([tfi, command] + params), 0x00]
  {
  }

  // ---------------------------------------------------------------------------
  // Parsing a response

  /** Whether 00 FF starts at k. */
  predicate StartCodeAt(frame: seq<byte>, k: nat)
  {
    k + 1 < |frame| && frame[k] == 0x00 && frame[k + 1] == 0xFF
  }

  function FindStartFrom(frame: seq<byte>, i: nat): (r: Option<nat>)
    ensures r.Some? ==> i <= r.value && StartCodeAt(frame, r.value)
                        && forall k | i <= k < r.value :: !StartCodeAt(frame, k)
    ensures r.None? ==> forall k | i <= k :: !StartCodeAt(frame, k)
    decreases |frame| - i
  {
    if i + 1 >= |frame| then None
    else if StartCodeAt(frame, i) then Some(i)
    else FindStartFrom(frame, i + 1)
  }

  /** The first start code of the frame, if any. */
  function FindStart(frame: seq<byte>): (r: Option<nat>)
    ensures r.Some? ==> StartCodeAt(frame, r.value) && forall k: nat | k < r.value :: !StartCodeAt(frame, k)
    ensures r.None? ==> forall k: nat :: !StartCodeAt(frame, k)
  {
    FindStartFrom(frame, 0)
  }

  /** From the first start code at s, LEN and LCS agree and LEN bytes, DCS and the postamble follow. */
  predicate CompleteAt(frame: seq<byte>, s: nat)
  {
    s + 4 <= |frame| && ValidateLengthChecksum(frame[s + 2], frame[s + 3]) && s + 6 + frame[s + 2] <= |frame|
  }

  /**
   * The response payload of a frame, or why there is none. Comparing the
   * response code with expected_command + 1 happens in int, so no response
   * ever matches command 0xFF.
   */
  function ResponseOf(expectedCommand: byte, frame: seq<byte>): (r: Result<seq<byte>, Code>)
    ensures FindStart(frame).None? ==> r == Err(DataLoss)
    ensures r.Err? ==> r.error == DataLoss || r.error == Internal
    // the PN532 reported an error frame
    ensures r == Err(Internal) <==>
      FindStart(frame).Some? && CompleteAt(frame, FindStart(frame).value)
      && frame[FindStart(frame).value + 4] == TFI_ERROR
    // a payload is framed, from the first start code on, exactly as the PN532 frames the response
    ensures r.Ok? ==>
      var s := FindStart(frame).value;
      expectedCommand + 1 <= 255 && 2 + |r.value| <= MAX_FRAME_LENGTH
      && s + 8 + |r.value| <= |frame|
      && frame[s..s + 7 + |r.value|] == Frame(TFI_PN532_TO_HOST, expectedCommand + 1, r.value)[1..8 + |r.value|]
  {
    match FindStart(frame)
    case None => Err(DataLoss)
    case Some(i) =>
      var start := i + 2;
      if start + 2 > |frame| then Err(DataLoss)
      else
        var len := frame[start];
        var lcs := frame[start + 1];
        if !ValidateLengthChecksum(len, lcs) then Err(DataLoss)
        else
          var dataStart := start + 2;
          if dataStart + len + 2 > |frame| then Err(DataLoss)
          else if frame[dataStart] == TFI_ERROR then Err(Internal)
          else if frame[dataStart] != TFI_PN532_TO_HOST then Err(DataLoss)
          else if len < 2 then Err(DataLoss)
          else if frame[dataStart + 1] != expectedCommand + 1 then Err(DataLoss)
          else if frame[dataStart + len] != DataChecksum(frame[dataStart..dataStart + len]) then Err(DataLoss)
          else
            var payload := frame[dataStart + 2..dataStart + len];
            FramedPayload(frame, i, expectedCommand, payload);
            Ok(payload)
  }

  /** The bytes after the start code, re-read as a response frame of the given payload. */
  lemma FramedPayload(frame: seq<byte>, i: nat, expectedCommand: byte, payload: seq<byte>)
    requires StartCodeAt(frame, i) && i + 4 <= |frame|
    requires frame[i + 2] == 2 + |payload| && ValidateLengthChecksum(frame[i + 2], frame[i + 3])
    requires i + 8 + |payload| <= |frame|
    requires expectedCommand + 1 <= 255
    requires frame[i + 4] == TFI_PN532_TO_HOST && frame[i + 5] == expectedCommand + 1
    requires frame[i + 6..i + 6 + |payload|] == payload
    requires frame[i + 6 + |payload|] == DataChecksum(frame[i + 4..i + 6 + |payload|])
    ensures frame[i..i + 7 + |payload|] == Frame(TFI_PN532_TO_HOST, expectedCommand + 1, payload)[1..8 + |payload|]
  {
    ReadFrameBytes(frame, i, expectedCommand + 1, payload);
    FrameAfterPreamble(TFI_PN532_TO_HOST, expectedCommand + 1, payload);
  }

  /** The response frame's bytes from the start code, read field by field. */
  lemma ReadFrameBytes(frame: seq<byte>, i: nat, command: byte, payload: seq<byte>)
    requires i + 8 + |payload| <= |frame| && 2 + |payload| <= MAX_FRAME_LENGTH
    requires frame[i] == 0x00 && frame[i + 1] == 0xFF
    requires frame[i + 2] == 2 + |payload| && ValidateLengthChecksum(frame[i + 2], frame[i + 3])
    requires frame[i + 4] == TFI_PN532_TO_HOST && frame[i + 5] == command
    requires frame[i + 6..i + 6 + |payload|] == payload
    requires frame[i + 6 + |payload|] == DataChecksum(frame[i + 4..i + 6 + |payload|])
    ensures frame[i..i + 7 + |payload|]
         == [0x00, 0xFF, 2 + |payload|, CalculateLengthChecksum(2 + |payload|)]
            + ([TFI_PN532_TO_HOST, command] + payload) + [DataChecksum([TFI_PN532_TO_HOST, command] + payload)]
  {
    var n := |payload|;
    var data := [TFI_PN532_TO_HOST, command] + payload;
    assert frame[i + 4..i + 6 + n] == data;
    LengthChecksumUnique(frame[i + 2], frame[i + 3]);
    assert frame[i..i + 4] == [0x00, 0xFF, 2 + n, CalculateLengthChecksum(2 + n)];
    assert frame[i + 6 + n..i + 7 + n] == [DataChecksum(data)];
    SliceInThree(frame, i, i + 4, i + 6 + n, i + 7 + n);
  }

  /** A frame without its leading zero byte and its postamble. */
  lemma FrameAfterPreamble(tfi: byte, command: byte, params: seq<byte>)
    requires 2 + |params| <= MAX_FRAME_LENGTH
    ensures Frame(tfi, command, params)[1..8 + |params|]
         == [0x00, 0xFF, 2 + |params|, CalculateLengthChecksum(2 + |params|)]
            + ([tfi, command] + params) + [DataChecksum([tfi, command] + params)]
  {
    FrameLayout(tfi, command, params);
  }
  lemma SliceInThree(s: seq<byte>, a: nat, b: nat, c: nat, d: nat)
    requires a <= b <= c <= d <= |s|
    ensures s[a..d] == s[a..b] + s[b..c] + s[c..d]
  {
  }

  /** Searches for the start code, then checks the frame as ResponseOf describes. */
  method ParseResponse(expectedCommand: byte, frame: seq<byte>) returns (r: Result<seq<byte>, Code>)
    ensures r == ResponseOf(expectedCommand, frame)
  {
    var startIdx := 0;
    var foundStart := false;
    var i: nat := 0;
    while i + 1 < |frame|
      invariant forall k: nat | k < i :: !StartCodeAt(frame, k)
    {
      if frame[i] == 0x00 && frame[i + 1] == 0xFF {
        startIdx := i + 2;
        foundStart := true;
        break;
      }
      i := i + 1;
    }
    if !foundStart {
      return Err(DataLoss);
    }
    assert StartCodeAt(frame, i);
    var fs := FindStart(frame);
    assert fs.Some?;
    assert fs.value >= i;
    assert fs == Some(i);
    if startIdx + 2 > |frame| {
      return Err(DataLoss);
    }
    var len := frame[startIdx];
    var lcs := frame[startIdx + 1];
    if !ValidateLengthChecksum(len, lcs) {
      return Err(DataLoss);
    }
    var dataStart := startIdx + 2;
    if dataStart + len + 2 > |frame| {
      return Err(DataLoss);
    }
    var tfi := frame[dataStart];
    if tfi == TFI_ERROR {
      return Err(Internal);
    }
    if tfi != TFI_PN532_TO_HOST {
      return Err(DataLoss);
    }
    if len < 2 {
      return Err(DataLoss);
    }
    var responseCmd := frame[dataStart + 1];
    if responseCmd != expectedCommand + 1 {
      return Err(DataLoss);
    }
    var dcs := frame[dataStart + len];
    var dcsOk := ValidateDataChecksum(frame[dataStart..dataStart + len], dcs);
    if !dcsOk {
      return Err(DataLoss);
    }
    var payloadLen := len - 2;
    return Ok(frame[dataStart + 2..dataStart + 2 + payloadLen]);
  }

  /** Bytes without a start code in front of a frame leave its start code the first. */
  lemma FirstStartAfterNoise(noise: seq<byte>, f: seq<byte>)
    requires forall k: nat :: !StartCodeAt(noise + [0x00], k)
    requires |f| >= 3 && f[0] == 0x00 && f[1] == 0x00 && f[2] == 0xFF
    ensures FindStart(noise + f) == Some(|noise| + 1)
  {
    var frame := noise + f;
    var s := |noise| + 1;
    assert StartCodeAt(frame, s);
    forall k: nat | k < s ensures !StartCodeAt(frame, k) {
      assert !StartCodeAt(noise + [0x00], k);
      if k + 1 == |noise| {
        assert frame[k + 1] == 0x00;
      }
    }
  }

  /** The parser accepts exactly the frame the PN532 sends for a payload, after any bytes without a start code. */
  lemma ParseResponseOfFrame(expectedCommand: byte, noise: seq<byte>, payload: seq<byte>)
    requires expectedCommand + 1 <= 255 && 2 + |payload| <= MAX_FRAME_LENGTH
    requires forall k: nat :: !StartCodeAt(noise + [0x00], k)
    ensures ResponseOf(expectedCommand, noise + Frame(TFI_PN532_TO_HOST, expectedCommand + 1, payload)) == Ok(payload)
  {
    var f := Frame(TFI_PN532_TO_HOST, expectedCommand + 1, payload);
    var frame := noise + f;
    var s := |noise| + 1;
    FrameFieldsAfter(noise, TFI_PN532_TO_HOST, expectedCommand + 1, payload);
    FirstStartAfterNoise(noise, f);
    ResponseOfWellFramed(expectedCommand, frame, s, payload);
  }

  /** The fields of a frame sent after some other bytes, at their offsets from its start code. */
  lemma FrameFieldsAfter(noise: seq<byte>, tfi: byte, command: byte, params: seq<byte>)
    requires 2 + |params| <= MAX_FRAME_LENGTH
    ensures var frame, s, n := noise + Frame(tfi, command, params), |noise| + 1, |params|;
      frame[s - 1] == 0x00 && frame[s] == 0x00 && frame[s + 1] == 0xFF
      && frame[s + 2] == 2 + n && frame[s + 3] == CalculateLengthChecksum(2 + n)
      && frame[s + 4] == tfi && frame[s + 5] == command
      && frame[s + 6..s + 6 + n] == params
      && frame[s + 6 + n] == DataChecksum(frame[s + 4..s + 6 + n])
  {
    var f := Frame(tfi, command, params);
    var frame := noise + f;
    var s := |noise| + 1;
    var n := |params|;
    FrameLayout(tfi, command, params);
    assert frame[s - 1..] == f;
    assert frame[s + 4..s + 6 + n] == f[5..7 + n] == [tfi, command] + params;
    assert frame[s + 6..s + 6 + n] == f[7..7 + n] == params;
  }

  /** A frame whose first start code is followed by a well-formed answer to the command yields its payload. */
  lemma ResponseOfWellFramed(expectedCommand: byte, frame: seq<byte>, i: nat, payload: seq<byte>)
    requires FindStart(frame) == Some(i) && expectedCommand + 1 <= 255 && i + 8 + |payload| <= |frame|
    requires frame[i + 2] == 2 + |payload| && frame[i + 3] == CalculateLengthChecksum(2 + |payload|)
    requires frame[i + 4] == TFI_PN532_TO_HOST && frame[i + 5] == expectedCommand + 1
    requires frame[i + 6..i + 6 + |payload|] == payload
    requires frame[i + 6 + |payload|] == DataChecksum(frame[i + 4..i + 6 + |payload|])
    ensures ResponseOf(expectedCommand, frame) == Ok(payload)
  {
  }

  /** Response codes are one byte, so a command 0xFF can never be answered. */
  lemma NoResponseToCommandFF(frame: seq<byte>)
    ensures ResponseOf(0xFF, frame).Err?
  {
  }
}
