// One device connection on the gateway: the loop that cuts ASCON frames out
// of the received byte buffer, binds the connection to the first device id it
// sees, drops undecryptable bytes and replayed nonces, and the encrypted reply
// path with its response nonce counter. Also the start-up check of the master key.

module GatewayConnection {
  import opened Wrappers
  import opened Bytes
  import opened AsconTransport
  import opened NonceTracking
  import opened DeviceKeys

  /** pw_rpc channel used for the replies. */
  const GATEWAY_CHANNEL_ID: nat := 1

  // ---------------------------------------------------------------------------
  // Binding the device key: the call as written and the corrected call

  /** The two Python value kinds that meet in the key derivation. */
  datatype PyValue = PyBytes(b: seq<byte>) | PyInt(i: int)

  datatype PyError = TypeError

  /** Python's `+`: concatenation of bytes, sum of ints, TypeError for a mix. */
  function PyAdd(x: PyValue, y: PyValue): (r: Result<PyValue, PyError>)
    ensures r.Err? <==> x.PyBytes? != y.PyBytes?
  {
    match (x, y)
    case (PyBytes(a), PyBytes(b)) => Ok(PyBytes(a + b))
    case (PyInt(a), PyInt(b)) => Ok(PyInt(a + b))
    case _ => Err(TypeError)
  }

  /**
   * The hash input as the loop builds it: get_device_key receives the device
   * id as the integer parse_device_id returned, and computes master_key + id.
   */
  function DerivationInputAsWritten(masterKey: seq<byte>, deviceId: nat): Result<PyValue, PyError>
  {
    PyAdd(PyBytes(masterKey), PyInt(deviceId))
  }

  /** For every device id the as-written derivation raises, so no frame is ever decrypted. */
  lemma AsWrittenDerivationRaises(masterKey: seq<byte>, deviceId: nat)
    ensures DerivationInputAsWritten(masterKey, deviceId) == Err(TypeError)
  {
  }

  /** The id handed to the key store in the corrected loop: the 8 id bytes of the frame header. */
  function DeviceIdBytes(deviceId: nat): (b: seq<byte>)
    requires deviceId < Pow256(DEVICE_ID_SIZE)
    ensures |b| == DEVICE_ID_SIZE && BigEndian(b) == deviceId
  {
    BigEndianOfToBigEndian(deviceId, DEVICE_ID_SIZE);
    ToBigEndian(deviceId, DEVICE_ID_SIZE)
  }

  /** With bytes the concatenation is defined, and it is the input the key store hashes. */
  lemma CorrectedDerivationInput(masterKey: seq<byte>, frame: seq<byte>)
    requires |frame| >= DEVICE_ID_SIZE
    ensures PyAdd(PyBytes(masterKey), PyBytes(DeviceIdBytes(ParseDeviceId(frame).value)))
            == Ok(PyBytes(masterKey + frame[..DEVICE_ID_SIZE]))
  {
    ToBigEndianOfBigEndian(frame[..DEVICE_ID_SIZE]);
  }

  // ---------------------------------------------------------------------------
  // The frame loop as functions

  /** The parts of the connection the loop reads: cipher, key derivation and window size. */
  datatype Config = Config(aead: Aead, hash: seq<byte> -> seq<byte>, masterKey: seq<byte>, windowSize: nat)

  /** The connection state the loop updates: bound id and key, replay window. */
  datatype ConnState = ConnState(deviceId: Option<nat>, deviceKey: Option<seq<byte>>, window: Window)

  /** An id is bound together with the key derived for it. */
  ghost predicate Bound(cfg: Config, st: ConnState)
  {
    (st.deviceId.Some? <==> st.deviceKey.Some?)
    && (st.deviceId.Some? ==>
          st.deviceId.value < Pow256(DEVICE_ID_SIZE)
          && st.deviceKey.value == DeriveKey(cfg.hash, cfg.masterKey, DeviceIdBytes(st.deviceId.value)))
  }

  /** One pass of the loop body: the connection ends, or bytes are consumed and a frame may be accepted. */
  datatype Step = End | Next(state: ConnState, consumed: nat, frame: Option<AsconFrame>)

  function BindDevice(cfg: Config, st: ConnState, deviceId: nat): (st': ConnState)
    requires deviceId < Pow256(DEVICE_ID_SIZE)
  {
    if st.deviceId.None? then
      st.(deviceId := Some(deviceId), deviceKey := Some(DeriveKey(cfg.hash, cfg.masterKey, DeviceIdBytes(deviceId))))
    else st
  }

  function StepOnce(cfg: Config, st: ConnState, buffer: seq<byte>): (s: Step)
    requires Bound(cfg, st) && |buffer| >= MIN_FRAME_SIZE
    // a different id on a bound connection ends it
    ensures s.End? <==> st.deviceId.Some? && st.deviceId != ParseDeviceId(buffer)
    // otherwise the connection is bound to the id of the frame in front
    ensures s.Next? ==> Bound(cfg, s.state) && s.state.deviceId == ParseDeviceId(buffer)
    ensures s.Next? ==> 1 <= s.consumed <= |buffer|
  {
    var deviceId := ParseDeviceId(buffer).value;
    if st.deviceId.Some? && st.deviceId.value != deviceId then End
    else
      var st1 := BindDevice(cfg, st, deviceId);
      match DecryptFrame(cfg.aead, buffer, st1.deviceKey.value)
      case Err(_) => Next(st1, 1, None)
      case Ok(frame) =>
        var (ok, w') := Check(st1.window, cfg.windowSize, BigEndian(frame.nonce));
        if !ok then Next(st1, MIN_FRAME_SIZE, None)
        else
          var frameSize := DEVICE_ID_SIZE + NONCE_SIZE + |frame.payload| + TAG_SIZE;
          Next(st1.(window := w'), Min(frameSize, |buffer|), Some(frame))
  }

  /** How much one pass of the loop consumes, case by case. */
  lemma StepOnceCases(cfg: Config, st: ConnState, buffer: seq<byte>)
    requires Bound(cfg, st) && |buffer| >= MIN_FRAME_SIZE
    requires StepOnce(cfg, st, buffer).Next?
    // an undecryptable buffer loses exactly its first byte
    ensures var s := StepOnce(cfg, st, buffer);
      DecryptFrame(cfg.aead, buffer, s.state.deviceKey.value).Err? ==>
        s.consumed == 1 && s.frame.None? && s.state.window == st.window
    // a frame whose nonce the window rejects loses MIN_FRAME_SIZE bytes
    ensures var s := StepOnce(cfg, st, buffer);
      var d := DecryptFrame(cfg.aead, buffer, s.state.deviceKey.value);
      d.Ok? && !Check(st.window, cfg.windowSize, BigEndian(d.value.nonce)).0 ==>
        s.consumed == MIN_FRAME_SIZE && s.frame.None? && s.state.window == st.window
    // an accepted frame consumes id, nonce, payload and tag (or what is left)
    ensures var s := StepOnce(cfg, st, buffer);
      var d := DecryptFrame(cfg.aead, buffer, s.state.deviceKey.value);
      d.Ok? && Check(st.window, cfg.windowSize, BigEndian(d.value.nonce)).0 ==>
        s.frame == Some(d.value)
        && s.state.window == Check(st.window, cfg.windowSize, BigEndian(d.value.nonce)).1
        && s.consumed == Min(DEVICE_ID_SIZE + NONCE_SIZE + |d.value.payload| + TAG_SIZE, |buffer|)
  {
  }

  /** One pass keeps covered nonce values covered, never accepts one, and covers the nonce it accepts. */
  lemma StepKeepsCovered(cfg: Config, st: ConnState, buffer: seq<byte>, m: int)
    requires Bound(cfg, st) && |buffer| >= MIN_FRAME_SIZE
    requires StepOnce(cfg, st, buffer).Next?
    ensures var s := StepOnce(cfg, st, buffer);
      Covered(st.window, cfg.windowSize, m) ==>
        Covered(s.state.window, cfg.windowSize, m) && (s.frame.Some? ==> BigEndian(s.frame.value.nonce) != m)
    ensures var s := StepOnce(cfg, st, buffer);
      s.frame.Some? ==> Covered(s.state.window, cfg.windowSize, BigEndian(s.frame.value.nonce))
  {
    var s := StepOnce(cfg, st, buffer);
    StepOnceCases(cfg, st, buffer);
    var d := DecryptFrame(cfg.aead, buffer, s.state.deviceKey.value);
    if d.Ok? {
      var n := BigEndian(d.value.nonce);
      if Covered(st.window, cfg.windowSize, m) {
        CheckKeepsCovered(st.window, cfg.windowSize, n, m);
      }
      if Check(st.window, cfg.windowSize, n).0 {
        CheckKeepsCovered(st.window, cfg.windowSize, n, n);
      }
    }
  }

  function Min(a: nat, b: nat): nat
  {
    if a <= b then a else b
  }

  /** What the loop leaves behind: state, unconsumed bytes, accepted frames in order, and whether it ended the connection. */
  datatype Outcome = Outcome(state: ConnState, rest: seq<byte>, frames: seq<AsconFrame>, ended: bool)

  function Process(cfg: Config, st: ConnState, buffer: seq<byte>): (o: Outcome)
    requires Bound(cfg, st)
    ensures Bound(cfg, o.state)
    decreases |buffer|
  {
    if |buffer| < MIN_FRAME_SIZE then Outcome(st, buffer, [], false)
    else
      match StepOnce(cfg, st, buffer)
      case End => Outcome(st, buffer, [], true)
      case Next(st', n, frame) =>
        var o := Process(cfg, st', buffer[n..]);
        if frame.Some? then o.(frames := [frame.value] + o.frames) else o
  }

  /** The loop runs while MIN_FRAME_SIZE bytes remain: it stops with fewer, or ends the connection. */
  lemma {:induction false} ProcessLeavesShortRest(cfg: Config, st: ConnState, buffer: seq<byte>)
    requires Bound(cfg, st)
    ensures !Process(cfg, st, buffer).ended ==> |Process(cfg, st, buffer).rest| < MIN_FRAME_SIZE
    ensures Process(cfg, st, buffer).ended ==> |Process(cfg, st, buffer).rest| >= MIN_FRAME_SIZE
    decreases |buffer|
  {
    if |buffer| >= MIN_FRAME_SIZE {
      var s := StepOnce(cfg, st, buffer);
      if s.Next? {
        ProcessLeavesShortRest(cfg, s.state, buffer[s.consumed..]);
      }
    }
  }

  /**
   * The first id binds the connection; a bound id never changes, and every
   * accepted frame carries the bound id.
   */
  lemma {:induction false} ProcessKeepsBinding(cfg: Config, st: ConnState, buffer: seq<byte>)
    requires Bound(cfg, st)
    ensures st.deviceId.Some? ==> Process(cfg, st, buffer).state.deviceId == st.deviceId
    ensures st.deviceId.None? && |buffer| >= MIN_FRAME_SIZE ==>
      Process(cfg, st, buffer).state.deviceId == ParseDeviceId(buffer)
    ensures forall f | f in Process(cfg, st, buffer).frames :: Some(f.deviceId) == Process(cfg, st, buffer).state.deviceId
    decreases |buffer|
  {
    if |buffer| >= MIN_FRAME_SIZE {
      var s := StepOnce(cfg, st, buffer);
      if s.Next? {
        ProcessKeepsBinding(cfg, s.state, buffer[s.consumed..]);
      }
    }
  }

  /** A covered nonce value stays covered through the loop and is never accepted by it. */
  lemma {:induction false} ProcessKeepsCovered(cfg: Config, st: ConnState, buffer: seq<byte>, m: int)
    requires Bound(cfg, st) && Covered(st.window, cfg.windowSize, m)
    ensures Covered(Process(cfg, st, buffer).state.window, cfg.windowSize, m)
    ensures forall f | f in Process(cfg, st, buffer).frames :: BigEndian(f.nonce) != m
    decreases |buffer|
  {
    if |buffer| >= MIN_FRAME_SIZE {
      var s := StepOnce(cfg, st, buffer);
      if s.Next? {
        StepKeepsCovered(cfg, st, buffer, m);
        ProcessKeepsCovered(cfg, s.state, buffer[s.consumed..], m);
      }
    }
  }

  /** One unfolding of Process on a buffer the loop enters with. */
  lemma ProcessUnfold(cfg: Config, st: ConnState, buffer: seq<byte>)
    requires Bound(cfg, st) && |buffer| >= MIN_FRAME_SIZE
    ensures var s := StepOnce(cfg, st, buffer);
      s.End? ==> Process(cfg, st, buffer) == Outcome(st, buffer, [], true)
    ensures var s := StepOnce(cfg, st, buffer);
      s.Next? ==>
        var o := Process(cfg, s.state, buffer[s.consumed..]);
        Process(cfg, st, buffer) == if s.frame.Some? then o.(frames := [s.frame.value] + o.frames) else o
  {
  }

  /** The first pass of a loop that accepts anything, and what it means for covered nonces. */
  lemma ProcessHead(cfg: Config, st: ConnState, buffer: seq<byte>)
    returns (st': ConnState, consumed: nat, head: Option<AsconFrame>)
    requires Bound(cfg, st) && Process(cfg, st, buffer).frames != []
    ensures Bound(cfg, st') && 1 <= consumed <= |buffer|
    ensures Process(cfg, st, buffer).frames
            == (if head.Some? then [head.value] else []) + Process(cfg, st', buffer[consumed..]).frames
    ensures forall m | Covered(st.window, cfg.windowSize, m) ::
              Covered(st'.window, cfg.windowSize, m) && (head.Some? ==> BigEndian(head.value.nonce) != m)
    ensures head.Some? ==> Covered(st'.window, cfg.windowSize, BigEndian(head.value.nonce))
  {
    ProcessUnfold(cfg, st, buffer);
    var s := StepOnce(cfg, st, buffer);
    st', consumed, head := s.state, s.consumed, s.frame;
    forall m | Covered(st.window, cfg.windowSize, m)
      ensures Covered(st'.window, cfg.windowSize, m) && (head.Some? ==> BigEndian(head.value.nonce) != m)
    {
      StepKeepsCovered(cfg, st, buffer, m);
    }
    if head.Some? {
      StepKeepsCovered(cfg, st, buffer, BigEndian(head.value.nonce));
    }
  }

  /** No two frames of the list carry the same nonce. */
  ghost predicate NoncesDistinct(frames: seq<AsconFrame>)
  {
    forall i, j | 0 <= i < j < |frames| :: frames[i].nonce != frames[j].nonce
  }

  /** A frame whose nonce value none of the others has can go in front of a list without repeats. */
  lemma ConsNoncesDistinct(head: AsconFrame, rest: seq<AsconFrame>)
    requires NoncesDistinct(rest)
    requires forall f | f in rest :: BigEndian(f.nonce) != BigEndian(head.nonce)
    ensures NoncesDistinct([head] + rest)
  {
    var all := [head] + rest;
    forall i, j | 0 <= i < j < |all| ensures all[i].nonce != all[j].nonce {
      assert all[j] == rest[j - 1];
      if i == 0 {
        assert rest[j - 1] in rest;
      } else {
        assert all[i] == rest[i - 1];
      }
    }
  }

  /** Replay protection of the loop: no two accepted frames share a nonce. */
  lemma {:induction false} ProcessAcceptsNonceOnce(cfg: Config, st: ConnState, buffer: seq<byte>)
    requires Bound(cfg, st)
    ensures NoncesDistinct(Process(cfg, st, buffer).frames)
    decreases |buffer|
  {
    if Process(cfg, st, buffer).frames != [] {
      var st', consumed, head := ProcessHead(cfg, st, buffer);
      var rest := Process(cfg, st', buffer[consumed..]).frames;
      ProcessAcceptsNonceOnce(cfg, st', buffer[consumed..]);
      if head.Some? {
        ProcessKeepsCovered(cfg, st', buffer[consumed..], BigEndian(head.value.nonce));
        ConsNoncesDistinct(head.value, rest);
      }
    }
  }

  // ---------------------------------------------------------------------------
  // RPC dispatch

  datatype PacketType = Request | Response | ClientStream | ServerStream | ClientError | ServerError
                      | ClientRequestCompletion

  datatype RpcStatus = RpcOk | RpcUnimplemented

  datatype RpcPacket = RpcPacket(packetType: PacketType, channelId: nat, serviceId: nat, methodId: nat,
                                 payload: seq<byte>)

  /** The reply packet before pw_rpc encodes it. */
  datatype RpcResponse = RpcResponse(channelId: nat, serviceId: nat, methodId: nat, status: RpcStatus,
                                     payload: seq<byte>)

  /** Every request is answered UNIMPLEMENTED on its own channel, service and method; nothing else is answered. */
  function HandleRpcRequest(packet: RpcPacket): (r: Option<RpcResponse>)
    ensures r.Some? <==> packet.packetType == Request
    ensures r.Some? ==>
      r.value.status == RpcUnimplemented && r.value.payload == []
      && r.value.channelId == packet.channelId && r.value.serviceId == packet.serviceId
      && r.value.methodId == packet.methodId
  {
    if packet.packetType == Request then
      Some(RpcResponse(packet.channelId, packet.serviceId, packet.methodId, RpcUnimplemented, []))
    else None
  }

  // ---------------------------------------------------------------------------
  // The connection object

  /** How a reply ended. */
  datatype SendOutcome = NotIdentified | Sent | EncryptError(error: FrameError) | CounterOverflow

  class ClientConnection {
    const aead: Aead
    const keyStore: KeyStore
    const nonceTracker: NonceTracker
    /** pw_hdlc's frame encoder (channel, data), a foreign library. */
    const hdlcFrame: (nat, seq<byte>) -> seq<byte>
    var deviceId: Option<nat>
    var deviceKey: Option<seq<byte>>
    var responseNonceCounter: nat
    /** Everything written to the socket, in order. */
    var written: seq<seq<byte>>

    function Cfg(): Config
    {
      Config(aead, keyStore.hash, keyStore.masterKey, nonceTracker.windowSize)
    }

    function State(): ConnState
      reads this, nonceTracker
    {
      ConnState(deviceId, deviceKey, nonceTracker.State())
    }

    ghost predicate Valid()
      reads this, keyStore, nonceTracker
    {
      keyStore.Valid() && nonceTracker.Valid() && Bound(Cfg(), State())
    }

    constructor(aead: Aead, keyStore: KeyStore, hdlcFrame: (nat, seq<byte>) -> seq<byte>)
      requires keyStore.Valid()
      ensures Valid() && fresh(nonceTracker)
      ensures this.aead == aead && this.keyStore == keyStore && this.hdlcFrame == hdlcFrame
      ensures deviceId.None? && deviceKey.None? && responseNonceCounter == 0 && written == []
      ensures nonceTracker.windowSize == DEFAULT_WINDOW_SIZE && nonceTracker.State() == Window(0, {})
    {
      this.aead := aead;
      this.keyStore := keyStore;
      this.hdlcFrame := hdlcFrame;
      nonceTracker := new NonceTracker(DEFAULT_WINDOW_SIZE);
      deviceId := None;
      deviceKey := None;
      responseNonceCounter := 0;
      written := [];
    }

    /** The binding part of the loop body: bind the first id, report a different one. */
    method BindOrMatch(id: nat) returns (mismatch: bool)
      requires Valid() && id < Pow256(DEVICE_ID_SIZE)
      modifies this, keyStore
      ensures Valid()
      ensures mismatch <==> old(deviceId).Some? && old(deviceId).value != id
      ensures State() == if mismatch then old(State()) else BindDevice(Cfg(), old(State()), id)
      ensures responseNonceCounter == old(responseNonceCounter) && written == old(written)
    {
      if deviceId.None? {
        deviceId := Some(id);
        var key := keyStore.GetDeviceKey(DeviceIdBytes(id));
        deviceKey := Some(key);
        return false;
      }
      return deviceId.value != id;
    }

    /** One pass of the loop body on a buffer of at least MIN_FRAME_SIZE bytes. */
    method ProcessOne(buffer: seq<byte>) returns (mismatch: bool, consumed: nat, accepted: Option<AsconFrame>)
      requires Valid() && |buffer| >= MIN_FRAME_SIZE
      modifies this, keyStore, nonceTracker
      ensures Valid()
      ensures mismatch <==> StepOnce(Cfg(), old(State()), buffer).End?
      ensures mismatch ==> State() == old(State())
      ensures !mismatch ==> StepOnce(Cfg(), old(State()), buffer) == Next(State(), consumed, accepted)
      ensures responseNonceCounter == old(responseNonceCounter) && written == old(written)
    {
      // at least MIN_FRAME_SIZE bytes: the id always parses
      var id := ParseDeviceId(buffer).value;
      mismatch := BindOrMatch(id);
      if mismatch {
        return true, 0, None;
      }
      StepOnceCases(Cfg(), old(State()), buffer);
      consumed, accepted := 1, None;
      var decrypted := DecryptFrame(aead, buffer, deviceKey.value);
      if decrypted.Ok? {
        var frame := decrypted.value;
        var ok := nonceTracker.CheckAndUpdate(frame.nonce);
        if !ok {
          consumed := MIN_FRAME_SIZE;
        } else {
          var frameSize := DEVICE_ID_SIZE + NONCE_SIZE + |frame.payload| + TAG_SIZE;
          consumed := if frameSize <= |buffer| then frameSize else |buffer|;
          accepted := Some(frame);
        }
      }
    }

    /**
     * The inner frame loop over the bytes received so far (the key lookup
     * serialises the id as in the corrected model). Returns the bytes left for
     * the next read, the accepted frames in order (their HDLC payloads go on
     * to the RPC layer), and whether the connection was ended.
     */
    method ProcessBuffer(data: seq<byte>) returns (rest: seq<byte>, frames: seq<AsconFrame>, ended: bool)
      requires Valid()
      modifies this, keyStore, nonceTracker
      ensures Valid()
      ensures Outcome(State(), rest, frames, ended) == Process(Cfg(), old(State()), data)
      ensures responseNonceCounter == old(responseNonceCounter) && written == old(written)
    {
      var buffer := data;
      frames := [];
      while |buffer| >= MIN_FRAME_SIZE
        invariant Valid()
        invariant responseNonceCounter == old(responseNonceCounter) && written == old(written)
        invariant Process(Cfg(), old(State()), data)
                  == var o := Process(Cfg(), State(), buffer); o.(frames := frames + o.frames)
        decreases |buffer|
      {
        ProcessUnfold(Cfg(), State(), buffer);
        ghost var acc := frames;
        var mismatch, consumed, accepted := ProcessOne(buffer);
        if mismatch {
          return buffer, frames, true;
        }
        buffer := buffer[consumed..];
        if accepted.Some? {
          frames := frames + [accepted.value];
          assert frames + Process(Cfg(), State(), buffer).frames
                 == acc + ([accepted.value] + Process(Cfg(), State(), buffer).frames);
        }
      }
      assert frames + [] == frames;
      return buffer, frames, false;
    }

    /**
     * Encrypts and writes one reply. Nothing is sent before a device is bound;
     * the counter is incremented before use, so the first reply carries nonce 1
     * as 16 big-endian bytes.
     */
    method SendResponse(responseData: seq<byte>) returns (outcome: SendOutcome)
      requires Valid()
      modifies this
      ensures Valid() && deviceId == old(deviceId) && deviceKey == old(deviceKey)
      ensures old(deviceKey).None? || old(deviceId).None? ==>
        outcome == NotIdentified && responseNonceCounter == old(responseNonceCounter) && written == old(written)
      ensures old(deviceKey).Some? && old(deviceId).Some? ==> responseNonceCounter == old(responseNonceCounter) + 1
      ensures outcome == Sent ==>
        responseNonceCounter < Pow256(NONCE_SIZE)
        && var frame := EncryptFrame(aead, deviceId.value, ToBigEndian(responseNonceCounter, NONCE_SIZE),
                                     hdlcFrame(GATEWAY_CHANNEL_ID, responseData), deviceKey.value);
           frame.Ok? && written == old(written) + [frame.value]
      ensures outcome != Sent ==> written == old(written)
      // a bound connection sends exactly when the nonce fits and the encryption succeeds
      ensures old(deviceKey).Some? && old(deviceId).Some? && responseNonceCounter >= Pow256(NONCE_SIZE) ==>
        outcome == CounterOverflow
      ensures old(deviceKey).Some? && old(deviceId).Some? && responseNonceCounter < Pow256(NONCE_SIZE) ==>
        var frame := EncryptFrame(aead, deviceId.value, ToBigEndian(responseNonceCounter, NONCE_SIZE),
                                  hdlcFrame(GATEWAY_CHANNEL_ID, responseData), deviceKey.value);
        (outcome == Sent <==> frame.Ok?) && (frame.Err? ==> outcome == EncryptError(frame.error))
    {
      if deviceKey.None? || deviceId.None? {
        return NotIdentified;
      }
      var hdlcData := hdlcFrame(GATEWAY_CHANNEL_ID, responseData);
      responseNonceCounter := responseNonceCounter + 1;
      // int.to_bytes raises OverflowError beyond 16 bytes
      if responseNonceCounter >= Pow256(NONCE_SIZE) {
        return CounterOverflow;
      }
      var nonce := ToBigEndian(responseNonceCounter, NONCE_SIZE);
      var frameData := EncryptFrame(aead, deviceId.value, nonce, hdlcData, deviceKey.value);
      if frameData.Err? {
        return EncryptError(frameData.error);
      }
      written := written + [frameData.value];
      return Sent;
    }
  }

  /** The reply nonces of a connection are 1, 2, 3, ...: the n-th reply carries n, so they never repeat. */
  lemma ResponseNoncesDistinct(a: nat, b: nat)
    requires 1 <= a < Pow256(NONCE_SIZE) && 1 <= b < Pow256(NONCE_SIZE) && a != b
    ensures ToBigEndian(a, NONCE_SIZE) != ToBigEndian(b, NONCE_SIZE)
  {
    BigEndianOfToBigEndian(a, NONCE_SIZE);
    BigEndianOfToBigEndian(b, NONCE_SIZE);
  }

  // ---------------------------------------------------------------------------
  // Start-up: the --master-key argument

  function HexDigit(c: char): Option<nat>
  {
    if '0' <= c <= '9' then Some(c as nat - '0' as nat)
    else if 'a' <= c <= 'f' then Some(c as nat - 'a' as nat + 10)
    else if 'A' <= c <= 'F' then Some(c as nat - 'A' as nat + 10)
    else None
  }

  predicate IsSpace(c: char)
  {
    c == ' ' || c == '\t' || c == '\n' || c == '\r' || c == 11 as char || c == 12 as char
  }

  /** bytes.fromhex: pairs of hex digits, whitespace allowed between pairs; None is the ValueError. */
  function FromHex(s: seq<char>): (r: Option<seq<byte>>)
    ensures r.Some? ==> |r.value| <= |s| / 2
    decreases |s|
  {
    if s == [] then Some([])
    else if IsSpace(s[0]) then FromHex(s[1..])
    else if |s| < 2 || HexDigit(s[0]).None? || HexDigit(s[1]).None? then None
    else match FromHex(s[2..])
      case None => None
      case Some(tail) => Some([HexDigit(s[0]).value * 16 + HexDigit(s[1]).value] + tail)
  }

  function HexChar(d: nat): char
    requires d < 16
  {
    if d < 10 then ('0' as nat + d) as char else ('a' as nat + d - 10) as char
  }

  /** Lower-case hex without separators, as bytes.hex() prints it. */
  function ToHex(b: seq<byte>): (s: seq<char>)
    ensures |s| == 2 * |b|
  {
    if b == [] then [] else [HexChar(b[0] / 16), HexChar(b[0] % 16)] + ToHex(b[1..])
  }

  lemma {:induction false} FromHexOfToHex(b: seq<byte>)
    ensures FromHex(ToHex(b)) == Some(b)
  {
    if b != [] {
      var s := ToHex(b);
      assert s[2..] == ToHex(b[1..]);
      FromHexOfToHex(b[1..]);
      assert b == [b[0]] + b[1..];
    }
  }

  /** main's exit status before the server starts: 1 for a malformed key or one that is not 16 bytes. */
  datatype StartResult = Exit(code: int) | Start(masterKey: seq<byte>)

  function CheckMasterKey(arg: seq<char>): (r: StartResult)
    ensures r.Start? <==> FromHex(arg).Some? && |FromHex(arg).value| == DeviceKeys.KEY_SIZE
    ensures r.Exit? ==> r.code == 1
    ensures r.Start? ==> Some(r.masterKey) == FromHex(arg)
  {
    match FromHex(arg)
    case None => Exit(1)
    case Some(key) => if |key| != DeviceKeys.KEY_SIZE then Exit(1) else Start(key)
  }

  /** The 32-character hex spelling of any 16-byte key is accepted and yields that key. */
  lemma CheckMasterKeyAcceptsHex(key: seq<byte>)
    requires |key| == DeviceKeys.KEY_SIZE
    ensures CheckMasterKey(ToHex(key)) == Start(key)
  {
    FromHexOfToHex(key);
  }
}
