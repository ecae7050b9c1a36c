// The PN532 operations built on one command/response exchange: detecting a
// tag (InListPassiveTarget), exchanging an APDU with it (InDataExchange) and
// checking that it is still present (Diagnose). Each turns the response
// payload of the exchange, or the exchange's error, into its own result.

/** The driver state the operations share: the target number of the last detected tag. */
module Pn532Driver {
  import opened Bytes

  class Pn532Driver {
    var currentTargetNumber: byte

    constructor()
      ensures currentTargetNumber == 0
    {
      currentTargetNumber := 0;
    }
  }
}

module Pn532DetectTag {
  import opened Wrappers
  import opened Bytes
  import opened PwStatus
  import opened Pn532Driver

  /** The uid array of TagInfo holds at most 10 bytes. */
  const MAX_UID_SIZE: nat := 10
  const SAK_ISO14443_4: byte := 0x20

  /** A detected tag; the fixed uid array and its length are one sequence here. */
  datatype TagInfo = TagInfo(uid: seq<byte>, sak: byte, targetNumber: byte, supportsIso14443_4: bool)

  /** InListPassiveTarget response: NbTg, Tg, SENS_RES (2), SEL_RES, NFCIDLength, NFCID. */
  function DetectResponse(payload: seq<byte>): (r: Result<TagInfo, Code>)
    // no target at all
    ensures |payload| == 0 || payload[0] == 0 ==> r == Err(NotFound)
    ensures r.Err? ==> r.error in {NotFound, DataLoss, OutOfRange}
    // an id longer than the uid array
    ensures r == Err(OutOfRange) <==> |payload| >= 6 && payload[0] != 0 && payload[5] > MAX_UID_SIZE
    // a header or an id cut short
    ensures r == Err(DataLoss) <==>
      |payload| > 0 && payload[0] != 0
      && (|payload| < 6 || (payload[5] <= MAX_UID_SIZE && |payload| < 6 + payload[5]))
    // the fields of the first target
    ensures r.Ok? ==>
      |r.value.uid| <= MAX_UID_SIZE && 6 + |r.value.uid| <= |payload|
      && r.value.targetNumber == payload[1] && r.value.sak == payload[4]
      && payload[5] == |r.value.uid| && r.value.uid == payload[6..6 + |r.value.uid|]
      && (r.value.supportsIso14443_4 <==> HasBit(r.value.sak, SAK_ISO14443_4))
  {
    if |payload| == 0 then Err(NotFound)
    else if payload[0] == 0 then Err(NotFound)
    else if |payload| < 6 then Err(DataLoss)
    else
      var uidLength := payload[5];
      if uidLength > MAX_UID_SIZE then Err(OutOfRange)
      else if |payload| < 6 + uidLength then Err(DataLoss)
      else
        var sak := payload[4];
        Ok(TagInfo(payload[6..6 + uidLength], sak, payload[1], HasBit(sak, SAK_ISO14443_4)))
  }

  /** The response a PN532 sends for one detected target, as the parser expects it. */
  function TargetPayload(targetNumber: byte, sensRes: seq<byte>, sak: byte, uid: seq<byte>): seq<byte>
    requires |sensRes| == 2 && |uid| <= MAX_UID_SIZE
  {
    [1, targetNumber] + sensRes + [sak, |uid|] + uid
  }

  /** Parsing the response for one target gives back its number, SAK and uid. */
  lemma DetectResponseOfTarget(targetNumber: byte, sensRes: seq<byte>, sak: byte, uid: seq<byte>)
    requires |sensRes| == 2 && |uid| <= MAX_UID_SIZE
    ensures DetectResponse(TargetPayload(targetNumber, sensRes, sak, uid))
            == Ok(TagInfo(uid, sak, targetNumber, HasBit(sak, SAK_ISO14443_4)))
  {
    var p := TargetPayload(targetNumber, sensRes, sak, uid);
    assert p[6..6 + |uid|] == uid;
  }

  class DetectTagFuture {
    const driver: Pn532Driver

    constructor(driver: Pn532Driver)
      ensures this.driver == driver
    {
      this.driver := driver;
    }

    /** Parses the payload; a detected tag becomes the driver's current target. */
    method ParseResponse(payload: seq<byte>) returns (r: Result<TagInfo, Code>)
      modifies driver
      ensures r == DetectResponse(payload)
      ensures r.Ok? ==> driver.currentTargetNumber == r.value.targetNumber
      ensures r.Err? ==> driver.currentTargetNumber == old(driver.currentTargetNumber)
    {
      r := DetectResponse(payload);
      if r.Ok? {
        driver.currentTargetNumber := r.value.targetNumber;
      }
    }

    /**
     * The result once the exchange has finished: running into the deadline
     * means no tag answered; other errors pass through.
     */
    method Complete(call: Result<seq<byte>, Code>) returns (r: Result<TagInfo, Code>)
      modifies driver
      ensures call == Err(DeadlineExceeded) ==> r == Err(NotFound)
      ensures call.Err? && call.error != DeadlineExceeded ==> r == Err(call.error)
      ensures call.Ok? ==> r == DetectResponse(call.value)
      ensures r.Ok? ==> driver.currentTargetNumber == r.value.targetNumber
      ensures r.Err? ==> driver.currentTargetNumber == old(driver.currentTargetNumber)
    {
      if call.Err? {
        if call.error == DeadlineExceeded {
          return Err(NotFound);
        }
        return Err(call.error);
      }
      r := ParseResponse(call.value);
    }
  }
}

module Pn532Transceive {
  import opened Wrappers
  import opened Bytes
  import opened PwStatus
  import opened Pn532Driver

  /** The parameter array has room for one frame's worth of data (LEN is one byte). */
  const PARAMS_CAPACITY: nat := 255

  /** The InDataExchange parameters: target number, then the command; empty when they do not fit. */
  function TransceiveParams(targetNumber: byte, command: seq<byte>): (params: seq<byte>)
    ensures |command| + 1 <= PARAMS_CAPACITY ==> |params| == |command| + 1
    ensures |command| + 1 > PARAMS_CAPACITY ==> params == []
    ensures params != [] ==> params[0] == targetNumber && params[1..] == command
  {
    if |command| + 1 <= PARAMS_CAPACITY then [targetNumber] + command else []
  }

  /** InDataExchange response: status byte, then the tag's answer, which must fit the caller's buffer. */
  function TransceiveResponse(payload: seq<byte>, capacity: nat): (r: Result<seq<byte>, Code>)
    ensures |payload| == 0 ==> r == Err(DataLoss)
    // status 01 is the PN532's timeout; any other nonzero status is an error
    ensures |payload| > 0 && payload[0] == 0x01 ==> r == Err(DeadlineExceeded)
    ensures |payload| > 0 && payload[0] > 0x01 ==> r == Err(Internal)
    ensures |payload| > 0 && payload[0] == 0 && |payload| - 1 > capacity ==> r == Err(ResourceExhausted)
    ensures r.Ok? ==> [0] + r.value == payload && |r.value| <= capacity
  {
    if |payload| == 0 then Err(DataLoss)
    else if payload[0] != 0x00 then
      if payload[0] == 0x01 then Err(DeadlineExceeded) else Err(Internal)
    else if |payload| - 1 > capacity then Err(ResourceExhausted)
    else Ok(payload[1..])
  }

  /** A successful exchange delivers exactly the tag's answer, whenever it fits the buffer. */
  lemma TransceiveResponseOfAnswer(answer: seq<byte>, capacity: nat)
    ensures TransceiveResponse([0] + answer, capacity).Ok? <==> |answer| <= capacity
    ensures |answer| <= capacity ==> TransceiveResponse([0] + answer, capacity) == Ok(answer)
  {
    assert ([0] + answer)[1..] == answer;
  }

  class TransceiveFuture {
    const params: seq<byte>
    const responseBuffer: array<byte>

    /** Builds the parameters for the driver's current target. */
    constructor(driver: Pn532Driver, command: seq<byte>, responseBuffer: array<byte>)
      ensures params == TransceiveParams(driver.currentTargetNumber, command)
      ensures this.responseBuffer == responseBuffer
    {
      params := TransceiveParams(driver.currentTargetNumber, command);
      this.responseBuffer := responseBuffer;
    }

    /** Copies the answer to the front of the response buffer and returns its size. */
    method ParseResponse(payload: seq<byte>) returns (r: Result<nat, Code>)
      modifies responseBuffer
      ensures var t := TransceiveResponse(payload, responseBuffer.Length);
        (r.Err? <==> t.Err?) && (r.Err? ==> r.error == t.error)
      ensures r.Ok? ==>
        var answer := TransceiveResponse(payload, responseBuffer.Length).value;
        r.value == |answer| && responseBuffer[..r.value] == answer
        && responseBuffer[r.value..] == old(responseBuffer[r.value..])
      ensures r.Err? ==> responseBuffer[..] == old(responseBuffer[..])
    {
      if |payload| == 0 {
        return Err(DataLoss);
      }
      var status := payload[0];
      if status != 0x00 {
        if status == 0x01 {
          return Err(DeadlineExceeded);
        }
        return Err(Internal);
      }
      var dataLen := |payload| - 1;
      if dataLen > responseBuffer.Length {
        return Err(ResourceExhausted);
      }
      var i := 0;
      while i < dataLen
        invariant 0 <= i <= dataLen
        invariant responseBuffer[..i] == payload[1..i + 1]
        invariant responseBuffer[dataLen..] == old(responseBuffer[dataLen..])
      {
        responseBuffer[i] := payload[i + 1];
        i := i + 1;
      }
      return Ok(dataLen);
    }

    /** A command that did not fit is refused before anything is sent; errors of the exchange pass through. */
    method Complete(call: Result<seq<byte>, Code>) returns (r: Result<nat, Code>)
      modifies responseBuffer
      ensures params == [] ==> r == Err(OutOfRange)
      ensures params != [] && call.Err? ==> r == Err(call.error)
      ensures params != [] && call.Ok? ==>
        var t := TransceiveResponse(call.value, responseBuffer.Length);
        (r.Err? <==> t.Err?) && (r.Ok? ==> r.value == |t.value| && responseBuffer[..r.value] == t.value)
      ensures r.Ok? ==> r.value <= responseBuffer.Length && responseBuffer[r.value..] == old(responseBuffer[r.value..])
      ensures r.Err? ==> responseBuffer[..] == old(responseBuffer[..])
    {
      if |params| == 0 {
        return Err(OutOfRange);
      }
      if call.Err? {
        return Err(call.error);
      }
      r := ParseResponse(call.value);
    }
  }
}

module Pn532CheckPresent {
  import opened Wrappers
  import opened Bytes
  import opened PwStatus

  /** Diagnose (attention request) response: a single status byte, 00 present, 01 gone. */
  function PresenceResponse(payload: seq<byte>): (r: Result<bool, Code>)
    ensures |payload| != 1 ==> r == Err(DataLoss)
    ensures r == Ok(true) <==> payload == [0x00]
    ensures r == Ok(false) <==> payload == [0x01]
    ensures r == Err(Internal) <==> |payload| == 1 && payload[0] > 0x01
  {
    if |payload| != 1 then Err(DataLoss)
    else if payload[0] == 0x00 then Ok(true)
    else if payload[0] == 0x01 then Ok(false)
    else Err(Internal)
  }
}
