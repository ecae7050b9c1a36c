// The gateway's RPC handlers: Forward, PersistLog and Ping, and the list of
// logs held in memory until they are uploaded.

module GatewayService {
  import opened Bytes

  /** What the Firebase client reports for a forwarded request (the HTTP call is foreign). */
  datatype FirebaseResult = FirebaseResult(success: bool, payload: seq<byte>, httpStatus: int, error: string)

  /** The fields of a ForwardResponse. */
  datatype ForwardResponse = ForwardResponse(
    success: bool, payload: seq<byte>, httpStatus: int, error: string, requestId: int)

  datatype LogEntry = LogEntry(timestampMs: int, level: int, moduleName: string, message: string, data: string)

  datatype LogResponse = LogResponse(success: bool, pendingCount: nat)

  datatype PingResponse = PingResponse(gatewayTimestampMs: int, clientTimestampMs: int)

  /**
   * Forward: the response copies every field of the client's result and
   * echoes the request id; endpoint, payload and device id only go to the client.
   */
  function Forward(result: FirebaseResult, requestId: int): (r: ForwardResponse)
    ensures r.success == result.success && r.payload == result.payload
    ensures r.httpStatus == result.httpStatus && r.error == result.error
    ensures r.requestId == requestId
  {
    ForwardResponse(result.success, result.payload, result.httpStatus, result.error, requestId)
  }

  /** int(time.time() * 1000): milliseconds, rounded toward zero (the clock is a parameter). */
  function Ping(clientTimestampMs: int, nowMs: int): (r: PingResponse)
    ensures r.clientTimestampMs == clientTimestampMs
    ensures r.gatewayTimestampMs == nowMs
  {
    PingResponse(nowMs, clientTimestampMs)
  }

  class GatewayServiceImpl {
    var pendingLogs: seq<LogEntry>

    constructor()
      ensures pendingLogs == []
    {
      pendingLogs := [];
    }

    method PersistLog(timestampMs: int, level: int, moduleName: string, message: string, data: string)
      returns (r: LogResponse)
      modifies this
      ensures pendingLogs == old(pendingLogs) + [LogEntry(timestampMs, level, moduleName, message, data)]
      ensures r.success && r.pendingCount == |pendingLogs|
    {
      var logEntry := LogEntry(timestampMs, level, moduleName, message, data);
      pendingLogs := pendingLogs + [logEntry];
      return LogResponse(true, |pendingLogs|);
    }

    function PendingLogCount(): (n: nat)
      reads this
      ensures n == |pendingLogs|
    {
      |pendingLogs|
    }

    method ClearPendingLogs()
      modifies this
      ensures pendingLogs == [] && PendingLogCount() == 0
    {
      pendingLogs := [];
    }
  }
}
