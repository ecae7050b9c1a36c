// The PN532 reader's state machine: detect a tag, probe it, tell the
// application, then alternate between serving the application's requests and
// checking that the tag is still there. Each handler starts the reader's next
// piece of work and names the next state; the reader's calls are recorded in
// order. A message a state does not handle changes nothing.

module Pn532ReaderFsm {
  import opened Wrappers
  import opened PwStatus
  import opened Pn532DetectTag

  datatype Pn532StateId = Idle | Detecting | Probing | SendingEvent | TagPresent | CheckingPresence | ExecutingOp

  /** The probed tag object and the application's request, by reference. */
  type TagRef = nat
  type RequestRef = nat

  datatype Msg =
    | MsgStart
    | MsgTagDetected(info: TagInfo)
    | MsgTagNotFound
    | MsgProbeComplete(tag: TagRef)
    | MsgProbeFailed
    | MsgEventSent
    | MsgPresenceCheckDue
    | MsgTagPresent
    | MsgTagGone
    | MsgAppRequest(request: RequestRef)
    | MsgOpComplete(result: Result<nat, Code>)
    | MsgOpFailed

  /** The calls the handlers make on the reader. */
  datatype ReaderCall =
    | StartDetection
    | StartProbe(info: TagInfo)
    | OnTagProbed(tag: TagRef)
    | SendTagArrived
    | SchedulePresenceCheck
    | StartOperation(request: RequestRef)
    | StartPresenceCheck
    | OnTagRemoved
    | SendTagDeparted
    | OnOperationComplete(result: Result<nat, Code>)
    | OnOperationFailed
    | HandleDesync

  /** The handler of the current state: the next state and the calls made, in order. */
  function Next(s: Pn532StateId, m: Msg): (r: (Pn532StateId, seq<ReaderCall>))
    // a handled message always starts some work; an unhandled one changes nothing
    ensures r.1 == [] ==> r.0 == s
    // the last call made is the work the new state waits on
    ensures r.1 != [] ==> Awaits(r.0, r.1[|r.1| - 1])
    // only Start leaves Idle, and nothing leads back to it
    ensures s == Idle ==> (r.0 != Idle <==> m.MsgStart?)
    ensures s != Idle ==> r.0 != Idle
    ensures s != Idle && m.MsgStart? ==> r == (s, [])
  {
    match (s, m)
    case (Idle, MsgStart) => (Detecting, [StartDetection])
    case (Detecting, MsgTagDetected(info)) => (Probing, [StartProbe(info)])
    case (Detecting, MsgTagNotFound) => (Detecting, [StartDetection])
    case (Probing, MsgProbeComplete(tag)) => (SendingEvent, [OnTagProbed(tag), SendTagArrived])
    case (Probing, MsgProbeFailed) => (Detecting, [StartDetection])
    case (SendingEvent, MsgEventSent) => (TagPresent, [SchedulePresenceCheck])
    case (TagPresent, MsgAppRequest(request)) => (ExecutingOp, [StartOperation(request)])
    case (TagPresent, MsgPresenceCheckDue) => (CheckingPresence, [StartPresenceCheck])
    case (CheckingPresence, MsgTagPresent) => (TagPresent, [SchedulePresenceCheck])
    case (CheckingPresence, MsgTagGone) => (Detecting, [OnTagRemoved, SendTagDeparted, StartDetection])
    case (ExecutingOp, MsgOpComplete(result)) => (TagPresent, [OnOperationComplete(result), SchedulePresenceCheck])
    case (ExecutingOp, MsgOpFailed) => (Detecting, [OnOperationFailed, HandleDesync, StartDetection])
    case _ => (s, [])
  }

  /** The work a state waits on: the call that must be the last one made when it is current. */
  predicate Awaits(s: Pn532StateId, c: ReaderCall) {
    match s
    case Idle => false
    case Detecting => c == StartDetection
    case Probing => c.StartProbe?
    case SendingEvent => c == SendTagArrived
    case TagPresent => c == SchedulePresenceCheck
    case CheckingPresence => c == StartPresenceCheck
    case ExecutingOp => c.StartOperation?
  }

  /** Nothing was called before Start; after it, the current state's work is the last thing started. */
  predicate InStep(s: Pn532StateId, calls: seq<ReaderCall>) {
    if s == Idle then calls == [] else |calls| > 0 && Awaits(s, calls[|calls| - 1])
  }

  /** Every handler leaves the reader working on what the new state waits for. */
  lemma NextKeepsInStep(s: Pn532StateId, calls: seq<ReaderCall>, m: Msg)
    requires InStep(s, calls)
    ensures InStep(Next(s, m).0, calls + Next(s, m).1)
  {
    var (s', more) := Next(s, m);
    if more == [] {
      assert calls + more == calls;
    } else {
      assert (calls + more)[|calls + more| - 1] == more[|more| - 1];
    }
  }

  /** The state after a sequence of messages and the calls made on the way. */
  function Run(s: Pn532StateId, msgs: seq<Msg>): (Pn532StateId, seq<ReaderCall>)
    decreases |msgs|
  {
    if msgs == [] then (s, [])
    else
      var (s1, first) := Next(s, msgs[0]);
      var (s2, rest) := Run(s1, msgs[1..]);
      (s2, first + rest)
  }

  /** From any state in step, every sequence of messages keeps the reader in step. */
  lemma {:induction false} RunKeepsInStep(s: Pn532StateId, calls: seq<ReaderCall>, msgs: seq<Msg>)
    requires InStep(s, calls)
    ensures InStep(Run(s, msgs).0, calls + Run(s, msgs).1)
    decreases |msgs|
  {
    if msgs != [] {
      var (s1, first) := Next(s, msgs[0]);
      NextKeepsInStep(s, calls, msgs[0]);
      RunKeepsInStep(s1, calls + first, msgs[1..]);
      assert calls + first + Run(s1, msgs[1..]).1 == calls + (first + Run(s1, msgs[1..]).1);
    }
  }

  /** Once started, the machine never returns to Idle, whatever it receives. */
  lemma {:induction false} RunNeverIdles(s: Pn532StateId, msgs: seq<Msg>)
    requires s != Idle
    ensures Run(s, msgs).0 != Idle
    decreases |msgs|
  {
    if msgs != [] {
      RunNeverIdles(Next(s, msgs[0]).0, msgs[1..]);
    }
  }

  /**
   * Each way of losing the tag or the operation (a failed probe, a tag gone, a
   * failed operation) leads back to detection when its state handles it, and
   * is ignored elsewhere.
   */
  lemma FailuresRestartDetection(s: Pn532StateId, m: Msg)
    requires m.MsgProbeFailed? || m.MsgTagGone? || m.MsgOpFailed?
    ensures Next(s, m).0 == Detecting || Next(s, m) == (s, [])
    ensures Next(s, m).0 == Detecting && s != Detecting ==> Next(s, m).1[|Next(s, m).1| - 1] == StartDetection
  {
  }

  class Pn532NfcReaderFsm {
    var state: Pn532StateId
    /** The calls made on the reader so far. */
    var calls: seq<ReaderCall>

    ghost predicate Valid()
      reads this
    {
      InStep(state, calls)
    }

    constructor()
      ensures Valid() && state == Idle && calls == []
    {
      state := Idle;
      calls := [];
    }

    /** Runs the current state's handler and moves to the state it names. */
    method Receive(m: Msg)
      requires Valid()
      modifies this
      ensures Valid()
      ensures state == Next(old(state), m).0 && calls == old(calls) + Next(old(state), m).1
    {
      NextKeepsInStep(state, calls, m);
      match (state, m) {
        case (Idle, MsgStart) =>
          calls := calls + [StartDetection];
          state := Detecting;
        case (Detecting, MsgTagDetected(info)) =>
          calls := calls + [StartProbe(info)];
          state := Probing;
        case (Detecting, MsgTagNotFound) =>
          calls := calls + [StartDetection];
        case (Probing, MsgProbeComplete(tag)) =>
          calls := calls + [OnTagProbed(tag)];
          calls := calls + [SendTagArrived];
          state := SendingEvent;
        case (Probing, MsgProbeFailed) =>
          calls := calls + [StartDetection];
          state := Detecting;
        case (SendingEvent, MsgEventSent) =>
          calls := calls + [SchedulePresenceCheck];
          state := TagPresent;
        case (TagPresent, MsgAppRequest(request)) =>
          calls := calls + [StartOperation(request)];
          state := ExecutingOp;
        case (TagPresent, MsgPresenceCheckDue) =>
          calls := calls + [StartPresenceCheck];
          state := CheckingPresence;
        case (CheckingPresence, MsgTagPresent) =>
          calls := calls + [SchedulePresenceCheck];
          state := TagPresent;
        case (CheckingPresence, MsgTagGone) =>
          calls := calls + [OnTagRemoved];
          calls := calls + [SendTagDeparted];
          calls := calls + [StartDetection];
          state := Detecting;
        case (ExecutingOp, MsgOpComplete(result)) =>
          calls := calls + [OnOperationComplete(result)];
          calls := calls + [SchedulePresenceCheck];
          state := TagPresent;
        case (ExecutingOp, MsgOpFailed) =>
          calls := calls + [OnOperationFailed];
          calls := calls + [HandleDesync];
          calls := calls + [StartDetection];
          state := Detecting;
        case _ =>
      }
    }
  }
}
