// The gateway's ASCON transport frame:
//   [device id: 8 bytes, big-endian] [nonce: 16] [ciphertext: N] [tag: 16]
// The device id travels in the clear and is also the associated data.

module AsconTransport {
  import opened Wrappers
  import opened Bytes

  const DEVICE_ID_SIZE: nat := 8
  const NONCE_SIZE: nat := 16
  const TAG_SIZE: nat := 16
  const KEY_SIZE: nat := 16
  /** Device id, nonce and tag around an empty payload. */
  const MIN_FRAME_SIZE: nat := DEVICE_ID_SIZE + NONCE_SIZE + TAG_SIZE

  /**
   * The ASCON-AEAD128 library, a foreign primitive. Both take
   * (key, nonce, associated data, input). `encrypt` yields ciphertext with the
   * tag appended; `decrypt` takes ciphertext with tag. None stands for an
   * authentication failure or an exception raised by the library.
   */
  datatype Aead = Aead(
    encrypt: (seq<byte>, seq<byte>, seq<byte>, seq<byte>) -> Option<seq<byte>>,
    decrypt: (seq<byte>, seq<byte>, seq<byte>, seq<byte>) -> Option<seq<byte>>)

  datatype AsconFrame = AsconFrame(deviceId: nat, nonce: seq<byte>, payload: seq<byte>)

  datatype FrameError =
    | FrameTooShort
    | InvalidKeySize
    | InvalidNonceSize
    | DecryptionFailed
    | EncryptionFailed

  /** The device id field of the frame header, None when fewer than 8 bytes are present. */
  function ParseDeviceId(frame: seq<byte>): (r: Option<nat>)
    ensures r.None? <==> |frame| < DEVICE_ID_SIZE
    ensures r.Some? ==> r.value < Pow256(DEVICE_ID_SIZE)
  {
    if |frame| < DEVICE_ID_SIZE then None else Some(BigEndian(frame[..DEVICE_ID_SIZE]))
  }

  function DecryptFrame(aead: Aead, frame: seq<byte>, key: seq<byte>): (r: Result<AsconFrame, FrameError>)
    ensures |frame| < MIN_FRAME_SIZE ==> r == Err(FrameTooShort)
    ensures |frame| >= MIN_FRAME_SIZE && |key| != KEY_SIZE ==> r == Err(InvalidKeySize)
    ensures r.Ok? <==>
      |frame| >= MIN_FRAME_SIZE && |key| == KEY_SIZE
      && aead.decrypt(key, frame[8..24], frame[..8], frame[24..]).Some?
    // the id and the nonce are the header fields, the associated data is the
    // id field and the decrypted input is everything after the nonce
    ensures r.Ok? ==>
      Some(r.value.deviceId) == ParseDeviceId(frame)
      && r.value.nonce == frame[8..24]
      && Some(r.value.payload) == aead.decrypt(key, frame[8..24], frame[..8], frame[24..])
  {
    if |frame| < MIN_FRAME_SIZE then Err(FrameTooShort)
    else if |key| != KEY_SIZE then Err(InvalidKeySize)
    else
      var deviceId := BigEndian(frame[..DEVICE_ID_SIZE]);
      var nonce := frame[DEVICE_ID_SIZE..DEVICE_ID_SIZE + NONCE_SIZE];
      var encryptedPayload := frame[DEVICE_ID_SIZE + NONCE_SIZE..|frame| - TAG_SIZE];
      var tag := frame[|frame| - TAG_SIZE..];
      var ad := frame[..DEVICE_ID_SIZE];
      assert encryptedPayload + tag == frame[24..];
      match aead.decrypt(key, nonce, ad, encryptedPayload + tag)
      case None => Err(DecryptionFailed)
      case Some(plaintext) => Ok(AsconFrame(deviceId, nonce, plaintext))
  }

  /** struct.pack(">Q", deviceId) needs the id to fit in 64 bits. */
  function EncryptFrame(aead: Aead, deviceId: nat, nonce: seq<byte>, payload: seq<byte>, key: seq<byte>)
    : (r: Result<seq<byte>, FrameError>)
    requires deviceId < Pow256(DEVICE_ID_SIZE)
    ensures |nonce| != NONCE_SIZE ==> r == Err(InvalidNonceSize)
    ensures |nonce| == NONCE_SIZE && |key| != KEY_SIZE ==> r == Err(InvalidKeySize)
    ensures r.Ok? ==>
      var ct := aead.encrypt(key, nonce, ToBigEndian(deviceId, 8), payload);
      ct.Some? && |r.value| == DEVICE_ID_SIZE + NONCE_SIZE + |ct.value|
      && r.value[..8] == ToBigEndian(deviceId, 8) && r.value[8..24] == nonce && r.value[24..] == ct.value
  {
    if |nonce| != NONCE_SIZE then Err(InvalidNonceSize)
    else if |key| != KEY_SIZE then Err(InvalidKeySize)
    else
      var deviceIdBytes := ToBigEndian(deviceId, DEVICE_ID_SIZE);
      match aead.encrypt(key, nonce, deviceIdBytes, payload)
      case None => Err(EncryptionFailed)
      case Some(ciphertextWithTag) => Ok(deviceIdBytes + nonce + ciphertextWithTag)
  }

  /** An encrypted frame announces the device id it was built for. */
  lemma ParseDeviceIdOfEncrypted(aead: Aead, deviceId: nat, nonce: seq<byte>, payload: seq<byte>, key: seq<byte>)
    requires deviceId < Pow256(DEVICE_ID_SIZE)
    requires EncryptFrame(aead, deviceId, nonce, payload, key).Ok?
    ensures ParseDeviceId(EncryptFrame(aead, deviceId, nonce, payload, key).value) == Some(deviceId)
  {
    var frame := EncryptFrame(aead, deviceId, nonce, payload, key).value;
    assert frame[..DEVICE_ID_SIZE] == ToBigEndian(deviceId, 8);
    BigEndianOfToBigEndian(deviceId, 8);
  }

  /**
   * Whenever the library's decrypt undoes its encrypt (AEAD correctness) and
   * the ciphertext carries its tag, decrypting an encrypted frame gives back
   * the id, the nonce and the payload.
   */
  lemma FrameRoundTrip(aead: Aead, deviceId: nat, nonce: seq<byte>, payload: seq<byte>, key: seq<byte>)
    requires deviceId < Pow256(DEVICE_ID_SIZE) && |nonce| == NONCE_SIZE && |key| == KEY_SIZE
    requires aead.encrypt(key, nonce, ToBigEndian(deviceId, 8), payload).Some?
    requires |aead.encrypt(key, nonce, ToBigEndian(deviceId, 8), payload).value| >= TAG_SIZE
    requires aead.decrypt(key, nonce, ToBigEndian(deviceId, 8),
                          aead.encrypt(key, nonce, ToBigEndian(deviceId, 8), payload).value) == Some(payload)
    ensures EncryptFrame(aead, deviceId, nonce, payload, key).Ok?
    ensures DecryptFrame(aead, EncryptFrame(aead, deviceId, nonce, payload, key).value, key)
            == Ok(AsconFrame(deviceId, nonce, payload))
  {
    var frame := EncryptFrame(aead, deviceId, nonce, payload, key).value;
    assert frame[..8] == ToBigEndian(deviceId, 8);
    assert frame[8..24] == nonce;
    BigEndianOfToBigEndian(deviceId, 8);
  }
}

// The sliding-window replay tracker of the same file.
module NonceTracking {
  import opened Bytes

  const DEFAULT_WINDOW_SIZE: nat := 64

  /** Highest nonce accepted so far and the accepted nonces still remembered. */
  datatype Window = Window(highest: int, seen: set<int>)

  /** Every remembered nonce lies between highest - size and highest. */
  ghost predicate WithinWindow(w: Window, size: nat)
  {
    forall m | m in w.seen :: w.highest - size <= m <= w.highest
  }

  /**
   * The tracker's verdict on the nonce value n and its state afterwards:
   * accept iff n is not older than the window and not remembered.
   */
  function Check(w: Window, size: nat, n: int): (r: (bool, Window))
    ensures r.0 <==> n >= w.highest - size && n !in w.seen
    ensures !r.0 ==> r.1 == w
    ensures r.0 ==> n in r.1.seen && r.1.highest == (if n > w.highest then n else w.highest)
    ensures r.0 ==> r.1.seen <= w.seen + {n}
    ensures r.0 ==> forall m | m in w.seen && m >= r.1.highest - size :: m in r.1.seen
  {
    if n < w.highest - size then (false, w)
    else if n in w.seen then (false, w)
    else
      var seen' := w.seen + {n};
      if n > w.highest then
        var cutoff := n - size;
        (true, Window(n, set m | m in seen' && m >= cutoff))
      else
        (true, Window(w.highest, seen'))
  }

  lemma CheckKeepsWindow(w: Window, size: nat, n: int)
    requires WithinWindow(w, size)
    ensures WithinWindow(Check(w, size, n).1, size)
    ensures Check(w, size, n).1.highest >= w.highest
  {
  }

  /** A nonce is covered when the tracker will reject it: remembered, or older than the window. */
  predicate Covered(w: Window, size: nat, m: int)
  {
    m in w.seen || m < w.highest - size
  }

  /** Whatever is covered stays covered, and an accepted nonce becomes covered. */
  lemma CheckKeepsCovered(w: Window, size: nat, n: int, m: int)
    requires Covered(w, size, m) || (m == n && Check(w, size, n).0)
    ensures Covered(Check(w, size, n).1, size, m)
  {
  }

  /** The tracker's verdicts and final state after a run of nonce values. */
  function Run(w: Window, size: nat, ns: seq<int>): (r: (seq<bool>, Window))
    ensures |r.0| == |ns|
    decreases |ns|
  {
    if ns == [] then ([], w)
    else
      var (ok, w') := Check(w, size, ns[0]);
      var (oks, w'') := Run(w', size, ns[1..]);
      ([ok] + oks, w'')
  }

  lemma {:induction false} RunKeepsCovered(w: Window, size: nat, ns: seq<int>, m: int)
    requires Covered(w, size, m)
    ensures Covered(Run(w, size, ns).1, size, m)
    ensures forall k | 0 <= k < |ns| && ns[k] == m :: !Run(w, size, ns).0[k]
    decreases |ns|
  {
    if ns != [] {
      CheckKeepsCovered(w, size, ns[0], m);
      var w' := Check(w, size, ns[0]).1;
      RunKeepsCovered(w', size, ns[1..], m);
      forall k | 0 <= k < |ns| && ns[k] == m
        ensures !Run(w, size, ns).0[k]
      {
        if k > 0 {
          assert ns[1..][k - 1] == m;
        }
      }
    }
  }

  /**
   * Replay protection: within one run, a nonce value is accepted at most once,
   * however far apart its occurrences are.
   */
  lemma {:induction false} RunAcceptsOnce(w: Window, size: nat, ns: seq<int>, i: nat, j: nat)
    requires i < j < |ns| && ns[i] == ns[j]
    ensures !(Run(w, size, ns).0[i] && Run(w, size, ns).0[j])
    decreases |ns|
  {
    var w' := Check(w, size, ns[0]).1;
    if i == 0 {
      if Check(w, size, ns[0]).0 {
        CheckKeepsCovered(w, size, ns[0], ns[0]);
        RunKeepsCovered(w', size, ns[1..], ns[0]);
        assert ns[1..][j - 1] == ns[0];
      }
    } else {
      RunAcceptsOnce(w', size, ns[1..], i - 1, j - 1);
    }
  }

  /** The integers from lo to hi. */
  function Range(lo: int, hi: int): (r: set<int>)
    ensures forall m :: m in r <==> lo <= m <= hi
    decreases hi - lo
  {
    if lo > hi then {} else Range(lo, hi - 1) + {hi}
  }

  lemma {:induction false} RangeSize(lo: int, hi: int)
    requires lo <= hi + 1
    ensures |Range(lo, hi)| == hi - lo + 1
    decreases hi - lo
  {
    if lo <= hi {
      RangeSize(lo, hi - 1);
      assert Range(lo, hi) == Range(lo, hi - 1) + {hi};
    } else {
      assert Range(lo, hi) == {};
    }
  }

  /** The tracker's memory is bounded: it never remembers more than size + 1 nonces. */
  lemma SeenBounded(w: Window, size: nat)
    requires WithinWindow(w, size)
    ensures |w.seen| <= size + 1
  {
    RangeSize(w.highest - size, w.highest);
    assert w.seen <= Range(w.highest - size, w.highest);
    SubsetSize(w.seen, Range(w.highest - size, w.highest));
  }

  lemma SubsetSize(a: set<int>, b: set<int>)
    requires a <= b
    ensures |a| <= |b|
  {
    assert b == a + (b - a);
  }

  class NonceTracker {
    const windowSize: nat
    var highestNonce: int
    var seenNonces: set<int>

    function State(): Window
      reads this
    {
      Window(highestNonce, seenNonces)
    }

    ghost predicate Valid()
      reads this
    {
      WithinWindow(State(), windowSize)
    }

    constructor(windowSize: nat)
      ensures Valid() && this.windowSize == windowSize
      ensures State() == Window(0, {})
    {
      this.windowSize := windowSize;
      highestNonce := 0;
      seenNonces := {};
    }

    /** Reads the nonce as a big-endian counter and accepts or rejects it. */
    method CheckAndUpdate(nonce: seq<byte>) returns (ok: bool)
      requires Valid()
      modifies this
      ensures Valid()
      ensures (ok, State()) == Check(old(State()), windowSize, BigEndian(nonce))
    {
      var nonceValue := BigEndian(nonce);
      if nonceValue < highestNonce - windowSize {
        return false;
      }
      if nonceValue in seenNonces {
        return false;
      }
      seenNonces := seenNonces + {nonceValue};
      if nonceValue > highestNonce {
        highestNonce := nonceValue;
        var cutoff := highestNonce - windowSize;
        seenNonces := set n | n in seenNonces && n >= cutoff;
      }
      CheckKeepsWindow(old(State()), windowSize, nonceValue);
      return true;
    }

    method Reset()
      modifies this
      ensures Valid() && State() == Window(0, {})
    {
      highestNonce := 0;
      seenNonces := {};
    }
  }
}
