# MACO access control: a Dafny model

MACO controls who may use the machines of a makerspace. Each machine has a
terminal, a microcontroller running Device OS. A PN532 NFC reader on the terminal detects
NTAG 424 DNA tags and authenticates them with AES-based secure messaging. A
session state machine tracks the tag that is present and whether its owner is
authorised. An authorisation cache remembers recent decisions. An IN4818 RGBW
LED strip shows the terminal's state. The device's long-term secrets live in
EEPROM. The terminal talks to a Python gateway over TCP, in frames encrypted
with ASCON-128 under a per-device key; the gateway derives that key from a
master secret, answers the RPCs itself or forwards them to an HTTPS backend. At personalisation each tag gets
an NDEF URL for Secure Dynamic Messaging and keys diversified from a master key
(AN10922).

The model covers, module by module:

- `MacoTypes`, `Wrappers`, `Bytes`, `PwStatus`: the firmware's fixed-size value types, Option/Result, byte strings and endianness, and the pw::Status codes.
- `AsconTransport`, `NonceTracking`: the gateway's frame format (device id, nonce, ciphertext and tag) and its replay window of accepted nonces.
- `DeviceKeys`, `KeyStore`: per-device key derivation from the master secret, with its cache.
- `GatewayConnection`: a client connection's frame loop, device binding, RPC handling and encrypted replies.
- `GatewayService`: the forwarding service, ping and the pending-log store.
- `Pn532Command`: PN532 frame encoding, checksums and response parsing.
- `Pn532DetectTag`, `Pn532Transceive`, `Pn532CheckPresent`, `Pn532Driver`: the reader's futures, each a state machine that parses one answer.
- `Pn532ReaderFsm`: the reader's detect, probe, present and operation cycle.
- `Ntag424Crypto`: session-vector and session-key derivation and the RndA/RndB rotations of AuthenticateEV2First.
- `Ntag424SecureMessaging`: IVs, truncated CMACs, padding, encryption of command data, response MAC checks and the command counter.
- `Ntag424Tag`: authentication, ReadData, WriteData and ChangeKey, with status-word handling and session tokens.
- `SessionFsm`, `AuthCache`, `AppState`: the terminal's session state machine, the authorisation cache and the state snapshot.
- `In4818Led`: the LED driver's bit encoding over SPI and its frame buffer.
- `DeviceSecrets`: the EEPROM record of the device secrets.
- `SdmConstants`: the NDEF template and the SDM file settings.
- `NtagKeyDiversification`: the key-diversification tool.

Cryptographic primitives, CRC32, protobuf coding, hashing, clocks and I/O
enter as function-valued parameters or as the outcome of an exchange. A lemma
that needs one of their properties (AEAD correctness, a decoder that undoes its
encoder) states it as a hypothesis.

Where the code and its documentation or tests disagree, the model follows the
code:

- `app_state_test.cc` calls `OnAuthorized` with four arguments, but the code takes two.
- The comment in `sdm_constants.h` says the SDM settings answer is exactly 19 bytes, but `IsSdmConfigured` accepts 19 or more.
- `key_store.py` documents 12-byte device ids, but frames carry 8.

## Model

| member | source | states |
|---|---|---|
| MacoTypes.TagUidFromBytes | maco_firmware/types.h:28-35 | succeeds exactly when 7 bytes are given and then holds those bytes; otherwise InvalidArgument |
| MacoTypes.DeviceIdFromBytes | maco_firmware/types.h:92-99 | succeeds exactly for 12 bytes, keeping them; otherwise InvalidArgument |
| MacoTypes.KeyBytesFromBytes | maco_firmware/types.h:130-137 | succeeds exactly for 16 bytes, keeping them; otherwise InvalidArgument |
| MacoTypes.FirebaseIdFromString | maco_firmware/types.h:63-68 | fails (InvalidArgument) exactly when the string is longer than 20 characters; otherwise keeps it unchanged |
| MacoTypes.EmptyFirebaseId | maco_firmware/types.h:71-77 | the empty id is empty |
| AsconTransport.ParseDeviceId | maco_gateway/maco_gateway/ascon_transport.py:149-162 | None exactly when fewer than 8 bytes are given; otherwise a value that fits in 64 bits |
| AsconTransport.DecryptFrame | maco_gateway/maco_gateway/ascon_transport.py:62-107 | FrameTooShort below 40 bytes, then InvalidKeySize for a key that is not 16 bytes; succeeds exactly when the AEAD accepts; the id is the big-endian header, the nonce bytes 8..24, the associated data bytes 0..8 and the payload the AEAD's plaintext of everything after the nonce |
| AsconTransport.EncryptFrame | maco_gateway/maco_gateway/ascon_transport.py:109-147 | InvalidNonceSize for a nonce that is not 16 bytes, then InvalidKeySize; on success the frame is the 8-byte big-endian id, the nonce and the ciphertext with tag, so 24 bytes longer than the ciphertext |
| AsconTransport.ParseDeviceIdOfEncrypted | maco_gateway/maco_gateway/ascon_transport.py:130-162 | an encrypted frame's header parses back to the id it was built for |
| AsconTransport.FrameRoundTrip | maco_gateway/maco_gateway/ascon_transport.py:62-147 | given AEAD correctness, decrypting an encrypted frame gives back id, nonce and payload |
| NonceTracking.Check | maco_gateway/maco_gateway/ascon_transport.py:181-217 | accepts exactly a nonce not below highest - window and not already seen; a rejection changes nothing; an accept records the nonce, raises highest to max(highest, n) and forgets only nonces below the new window |
| NonceTracking.CheckKeepsWindow | maco_gateway/maco_gateway/ascon_transport.py:208-215 | after any check every remembered nonce is within window of highest, and highest never decreases |
| NonceTracking.CheckKeepsCovered | maco_gateway/maco_gateway/ascon_transport.py:194-215 | a nonce the tracker would reject stays rejected after any check, and an accepted nonce becomes rejected |
| NonceTracking.Run | maco_gateway/maco_gateway/ascon_transport.py:181-217 | one verdict per nonce of a sequence of checks |
| NonceTracking.RunKeepsCovered | maco_gateway/maco_gateway/ascon_transport.py:194-215 | a rejected nonce is rejected at every later occurrence in any run |
| NonceTracking.RunAcceptsOnce | maco_gateway/maco_gateway/ascon_transport.py:194-215 | replay protection: within a run a nonce value is accepted at most once |
| NonceTracking.Range | maco_gateway/maco_gateway/ascon_transport.py:212-215 | the set of integers between the window's bounds |
| NonceTracking.RangeSize | maco_gateway/maco_gateway/ascon_transport.py:212-215 | that set has hi - lo + 1 elements |
| NonceTracking.SeenBounded | maco_gateway/maco_gateway/ascon_transport.py:171-215 | the tracker never remembers more than window + 1 nonces |
| NonceTracking.NonceTracker.constructor | maco_gateway/maco_gateway/ascon_transport.py:171-179 | starts with highest 0 and nothing seen |
| NonceTracking.NonceTracker.CheckAndUpdate | maco_gateway/maco_gateway/ascon_transport.py:181-217 | reads the nonce big-endian and updates the fields exactly as Check does, keeping the window invariant |
| NonceTracking.NonceTracker.Reset | maco_gateway/maco_gateway/ascon_transport.py:219-222 | highest 0 and nothing seen |
| DeviceKeys.DeriveKey | maco_gateway/maco_gateway/key_store.py:60-73 | the key is a prefix of the hash of master key and id, 16 bytes whenever the digest has at least 16 |
| DeviceKeys.KeyStore.constructor | maco_gateway/maco_gateway/key_store.py:32-43 | a store over a 16-byte master key with an empty cache |
| DeviceKeys.KeyStore.Create | maco_gateway/maco_gateway/key_store.py:38-41 | fails, reporting the length, exactly when the master key is not 16 bytes; otherwise a fresh store with an empty cache |
| DeviceKeys.KeyStore.GetDeviceKey | maco_gateway/maco_gateway/key_store.py:45-73 | always returns the derivation for the id, so repeated calls agree; a hit leaves the cache unchanged, a miss adds exactly that id |
| DeviceKeys.KeyStore.ClearCache | maco_gateway/maco_gateway/key_store.py:75-80 | empties the cache and keeps every cached key equal to its derivation, so a later get recomputes the same key |
| GatewayService.Forward | maco_gateway/maco_gateway/gateway_service.py:47-81 | success, payload, http status and error are those of the client's result and the request id is echoed |
| GatewayService.Ping | maco_gateway/maco_gateway/gateway_service.py:126-147 | echoes the client timestamp unchanged and reports the gateway's clock |
| GatewayService.GatewayServiceImpl.constructor | maco_gateway/maco_gateway/gateway_service.py:28-45 | no pending logs |
| GatewayService.GatewayServiceImpl.PersistLog | maco_gateway/maco_gateway/gateway_service.py:83-124 | appends exactly one entry with the request's fields and answers success with the new list length |
| GatewayService.GatewayServiceImpl.PendingLogCount | maco_gateway/maco_gateway/gateway_service.py:149-152 | the number of pending entries |
| GatewayService.GatewayServiceImpl.ClearPendingLogs | maco_gateway/maco_gateway/gateway_service.py:154-156 | no pending entries remain, so the count is 0 |
| GatewayConnection.PyAdd | maco_gateway/maco_gateway/key_store.py:61 | Python's `+` raises TypeError exactly when bytes meet an int |
| GatewayConnection.AsWrittenDerivationRaises | maco_gateway/maco_gateway/main.py:105-110 | the loop passes the integer id to the key store, whose master_key + device_id raises TypeError for every id |
| GatewayConnection.DeviceIdBytes | maco_gateway/maco_gateway/ascon_transport.py:81-82 | 8 bytes that read back big-endian as the id |
| GatewayConnection.CorrectedDerivationInput | maco_gateway/maco_gateway/key_store.py:60-61 | with the id passed as its 8 header bytes the concatenation is defined and is master key ++ frame[0..8] |
| GatewayConnection.StepOnce | maco_gateway/maco_gateway/main.py:99-146 | corrected derivation (see Findings): one pass ends the connection exactly when a bound id differs from the frame's; otherwise the connection is bound to the frame's id and at least one byte is consumed |
| GatewayConnection.StepOnceCases | maco_gateway/maco_gateway/main.py:120-146 | a decrypt error drops exactly one byte; a replayed nonce drops MIN_FRAME_SIZE bytes; an accepted frame consumes 8 + 16 + payload + 16 bytes and updates the window as the tracker does |
| GatewayConnection.StepKeepsCovered | maco_gateway/maco_gateway/main.py:133-137 | a pass never accepts a nonce the window rejects, keeps it rejected, and makes the accepted nonce rejected |
| GatewayConnection.Process | maco_gateway/maco_gateway/main.py:86-148 | corrected derivation (see Findings): the loop keeps the id bound together with the key derived for it |
| GatewayConnection.ProcessLeavesShortRest | maco_gateway/maco_gateway/main.py:99 | the loop stops with fewer than MIN_FRAME_SIZE bytes left unless it ended the connection |
| GatewayConnection.ProcessKeepsBinding | maco_gateway/maco_gateway/main.py:105-118 | the first id binds the connection, a bound id never changes, and every accepted frame carries the bound id |
| GatewayConnection.ProcessKeepsCovered | maco_gateway/maco_gateway/main.py:133-137 | a nonce the window rejects is never accepted by the loop |
| GatewayConnection.ProcessUnfold | maco_gateway/maco_gateway/main.py:99-146 | the loop is one pass followed by the loop on the remaining bytes |
| GatewayConnection.ProcessHead | maco_gateway/maco_gateway/main.py:99-146 | the accepted frames are the first pass's frame followed by those of the rest, with rejected nonces kept rejected |
| GatewayConnection.ConsNoncesDistinct | maco_gateway/maco_gateway/main.py:133-137 | a frame with a fresh nonce can lead a list of frames with distinct nonces |
| GatewayConnection.ProcessAcceptsNonceOnce | maco_gateway/maco_gateway/main.py:86-148 | replay protection: no two frames the loop accepts share a nonce |
| GatewayConnection.HandleRpcRequest | maco_gateway/maco_gateway/main.py:177-203 | a request gets an UNIMPLEMENTED reply with no payload on its own channel, service and method; any other packet gets none |
| GatewayConnection.ResponseNoncesDistinct | maco_gateway/maco_gateway/main.py:215-216 | distinct counter values give distinct 16-byte reply nonces |
| GatewayConnection.FromHex | maco_gateway/maco_gateway/main.py:318-320 | bytes.fromhex yields at most half as many bytes as characters |
| GatewayConnection.ToHex | maco_gateway/maco_gateway/main.py:318-320 | two characters per byte |
| GatewayConnection.FromHexOfToHex | maco_gateway/maco_gateway/main.py:318-320 | parsing the hex spelling of any bytes gives them back |
| GatewayConnection.CheckMasterKey | maco_gateway/maco_gateway/main.py:318-325 | starts exactly when the argument is valid hex of 16 bytes, with that key; otherwise exits with status 1 |
| GatewayConnection.CheckMasterKeyAcceptsHex | maco_gateway/maco_gateway/main.py:318-325 | the hex spelling of every 16-byte key is accepted and yields that key |
| GatewayConnection.ClientConnection.constructor | maco_gateway/maco_gateway/main.py:50-69 | no id or key bound, reply counter 0, a fresh tracker with window 64 and nothing written |
| GatewayConnection.ClientConnection.BindOrMatch | maco_gateway/maco_gateway/main.py:105-118 | corrected derivation (see Findings): binds an unbound connection to the id with its derived key; reports a mismatch exactly when a different id is bound, then changing nothing |
| GatewayConnection.ClientConnection.ProcessOne | maco_gateway/maco_gateway/main.py:99-146 | corrected derivation (see Findings): one pass of the loop body updates the fields exactly as StepOnce says |
| GatewayConnection.ClientConnection.ProcessBuffer | maco_gateway/maco_gateway/main.py:86-148 | the loop leaves the state, remaining bytes, accepted frames and ended flag that Process gives, so its binding and replay lemmas apply |
| GatewayConnection.ClientConnection.SendResponse | maco_gateway/maco_gateway/main.py:205-228 | nothing is sent before a device is bound; otherwise the counter is incremented before use; the reply is sent exactly when the new counter fits 16 bytes and the encryption of the HDLC frame under that big-endian counter succeeds, an encryption error is returned as it is, a counter beyond 16 bytes gives CounterOverflow, and only a sent reply is written, so the first reply uses 1 |
| Pn532Command.SumAppend | maco_firmware/devices/pn532/pn532_command.cc:132-138 | the byte sum of a concatenation is the sum of the parts' sums |
| Pn532Command.SumStep | maco_firmware/devices/pn532/pn532_command.cc:134-136 | adding one byte to the eight-bit running sum tracks the full sum modulo 256 |
| Pn532Command.CalculateLengthChecksum | maco_firmware/devices/pn532/pn532_command.cc:128-130 | LEN + LCS is 0 modulo 256 |
| Pn532Command.LengthChecksumUnique | maco_firmware/devices/pn532/pn532_command.cc:128-142 | a length checksum validates exactly when it equals the one the builder computes |
| Pn532Command.DataChecksum | maco_firmware/devices/pn532/pn532_command.cc:132-138 | sum(data) + DCS is 0 modulo 256 |
| Pn532Command.CalculateDataChecksum | maco_firmware/devices/pn532/pn532_command.cc:132-138 | the loop's eight-bit sum, negated, is the checksum that makes sum(data) + DCS vanish modulo 256 |
| Pn532Command.ValidateDataChecksum | maco_firmware/devices/pn532/pn532_command.cc:144-150 | accepts exactly the checksum the builder computes |
| Pn532Command.Frame | maco_firmware/devices/pn532/pn532_command.cc:28-57 | a frame is 9 + params bytes; LEN is 2 + params with a valid LCS; TFI, command and parameters follow |
| Pn532Command.FrameDataSumsToZero | maco_firmware/devices/pn532/pn532_command.cc:49-54 | TFI, command, parameters and DCS of a frame sum to 0 modulo 256 |
| Pn532Command.FrameLayout | maco_firmware/devices/pn532/pn532_command.cc:28-57 | the frame is 00 00 FF, LEN, LCS, TFI, command, parameters, DCS, 00 |
| Pn532Command.BuildFrame | maco_firmware/devices/pn532/pn532_command.cc:12-60 | returns 0 and leaves the buffer unchanged when 2 + params exceeds the maximum frame length or the buffer is smaller than 9 + params; otherwise returns 9 + params with exactly the frame at the front and the rest untouched |
| Pn532Command.FrameWritten | maco_firmware/devices/pn532/pn532_command.cc:28-57 | the builder's three writes leave exactly the frame at the front of the buffer |
| Pn532Command.FindStartFrom | maco_firmware/devices/pn532/pn532_command.cc:65-78 | the first position from i where 00 FF starts, None when there is none |
| Pn532Command.FindStart | maco_firmware/devices/pn532/pn532_command.cc:65-78 | the first 00 FF start code of the bytes, None when there is none |
| Pn532Command.ResponseOf | maco_firmware/devices/pn532/pn532_command.cc:62-126 | DataLoss when there is no start code; only DataLoss or Internal as errors; Internal exactly for a complete frame with TFI 7F; a payload only when the bytes from the first start code are the PN532's frame of that payload answering the expected command + 1 |
| Pn532Command.FramedPayload | maco_firmware/devices/pn532/pn532_command.cc:80-125 | the checked fields of a response are the frame of its payload |
| Pn532Command.ReadFrameBytes | maco_firmware/devices/pn532/pn532_command.cc:80-125 | the response's fields read in order form the frame's bytes after the preamble |
| Pn532Command.FrameAfterPreamble | maco_firmware/devices/pn532/pn532_command.cc:28-57 | the frame without its first zero byte and postamble, field by field |
| Pn532Command.ParseResponse | maco_firmware/devices/pn532/pn532_command.cc:62-126 | the parser's loops give exactly ResponseOf: the same start search, the same DataLoss/Internal cases and the same payload |
| Pn532Command.FirstStartAfterNoise | maco_firmware/devices/pn532/pn532_command.cc:65-78 | bytes without a start code before a frame leave the frame's start code the first one found |
| Pn532Command.ParseResponseOfFrame | maco_firmware/devices/pn532/pn532_command.cc:62-126 | round trip: the parser returns the payload of the frame the PN532 builds for the answer code, after any bytes without a start code |
| Pn532Command.FrameFieldsAfter | maco_firmware/devices/pn532/pn532_command.cc:28-57 | a frame's fields sit at fixed offsets from its start code |
| Pn532Command.ResponseOfWellFramed | maco_firmware/devices/pn532/pn532_command.cc:80-125 | a well-formed answer after the first start code yields its payload |
| Pn532Command.NoResponseToCommandFF | maco_firmware/devices/pn532/pn532_command.cc:108-115 | no frame answers command 0xFF, since the expected code 0x100 does not fit a byte |
| Pn532DetectTag.DetectResponse | maco_firmware/devices/pn532/pn532_detect_tag_future.cc:76-116 | NotFound for an empty payload or no target; OutOfRange exactly for a uid length above 10; DataLoss exactly for a payload shorter than 6 or than 6 + uid length; otherwise target number payload[1], SAK payload[4], the uid bytes, and ISO 14443-4 support iff SAK bit 0x20 is set |
| Pn532DetectTag.DetectResponseOfTarget | maco_firmware/devices/pn532/pn532_detect_tag_future.cc:76-116 | round trip: the InListPassiveTarget answer for one target parses back to that target's number, SAK and uid |
| Pn532DetectTag.DetectTagFuture.constructor | maco_firmware/devices/pn532/pn532_detect_tag_future.cc:15-24 | the future works on the given driver |
| Pn532DetectTag.DetectTagFuture.ParseResponse | maco_firmware/devices/pn532/pn532_detect_tag_future.cc:76-116 | returns DetectResponse of the payload and records the target number in the driver only on success |
| Pn532DetectTag.DetectTagFuture.Complete | maco_firmware/devices/pn532/pn532_detect_tag_future.cc:47-74 | a deadline timeout becomes NotFound, other errors pass through, a payload is parsed; the driver's target changes only on success |
| Pn532Transceive.TransceiveParams | maco_firmware/devices/pn532/pn532_transceive_future.cc:19-45 | [target] ++ command when it fits the parameter buffer, empty otherwise |
| Pn532Transceive.TransceiveResponse | maco_firmware/devices/pn532/pn532_transceive_future.cc:96-120 | DataLoss for an empty payload; status 01 gives DeadlineExceeded and any other non-zero status Internal; data longer than the buffer gives ResourceExhausted; otherwise the data after the status byte |
| Pn532Transceive.TransceiveResponseOfAnswer | maco_firmware/devices/pn532/pn532_transceive_future.cc:96-120 | a successful InDataExchange answer yields exactly its data iff it fits the buffer |
| Pn532Transceive.TransceiveFuture.constructor | maco_firmware/devices/pn532/pn532_transceive_future.cc:19-45 | the parameters are built from the driver's current target and the command |
| Pn532Transceive.TransceiveFuture.ParseResponse | maco_firmware/devices/pn532/pn532_transceive_future.cc:96-120 | agrees with TransceiveResponse; on success the data is copied to the front of the caller's buffer and its length returned; on error the buffer is untouched |
| Pn532Transceive.TransceiveFuture.Complete | maco_firmware/devices/pn532/pn532_transceive_future.cc:71-94 | empty parameters give OutOfRange before anything else; exchange errors pass through; a payload is parsed as above, the data landing at the front of the caller's buffer with the rest unchanged and nothing written on error |
| Pn532Driver.Pn532Driver.constructor | maco_firmware/devices/pn532/pn532_driver.h:133 | the target number the futures share starts at 0 |
| Pn532CheckPresent.PresenceResponse | maco_firmware/devices/pn532/pn532_check_present_future.cc:65-81 | DataLoss unless exactly one byte; present exactly for 00, removed exactly for 01, Internal exactly for any other status |
| AuthCache.IndexOf | maco_firmware/modules/app_state/auth_cache.h:30-45 | the first valid slot for the tag, None exactly when no valid slot holds it |
| AuthCache.IndexOfIs | maco_firmware/modules/app_state/auth_cache.h:30-45 | any first matching slot is the one the scan finds |
| AuthCache.FreeSlot | maco_firmware/modules/app_state/auth_cache.h:64-77 | the first invalid slot, None exactly when all slots are valid |
| AuthCache.Oldest | maco_firmware/modules/app_state/auth_cache.h:79-93 | the first slot with the minimum insertion time |
| AuthCache.LookupAfterInsert | maco_firmware/modules/app_state/auth_cache.h:30-94 | after an insert the tag is found with the new result while t < now + ttl, and not at or after expiry |
| AuthCache.InsertKeepsUnique | maco_firmware/modules/app_state/auth_cache.h:47-94 | an insert keeps at most one valid entry per tag, so at most 8 tags are cached |
| AuthCache.InsertKeepsOtherTags | maco_firmware/modules/app_state/auth_cache.h:47-94 | entries for other tags are not affected by an insert, unless it evicted that tag's entry |
| AuthCache.InsertWithRoomKeepsOtherTags | maco_firmware/modules/app_state/auth_cache.h:53-77 | updating in place or filling a free slot leaves every other tag's lookup unchanged |
| AuthCache.InsertWhenFullEvictsOldest | maco_firmware/modules/app_state/auth_cache.h:79-93 | with every slot valid and the tag new, the first entry with the minimum insertion time is replaced and nothing else changes |
| AuthCache.LookupKeepsUnique | maco_firmware/modules/app_state/auth_cache.h:30-45 | a lookup keeps at most one valid entry per tag |
| AuthCache.ExpiredEntryStaysGone | maco_firmware/modules/app_state/auth_cache.h:37-41 | once a lookup has found the entry expired, the tag is never found again |
| AuthCache.ClearForgetsAll | maco_firmware/modules/app_state/auth_cache.h:96-101 | after a clear no tag is found at any time |
| AuthCache.AuthCache.constructor | maco_firmware/modules/app_state/auth_cache.h:104-113 | eight slots, none valid |
| AuthCache.AuthCache.Lookup | maco_firmware/modules/app_state/auth_cache.h:30-45 | returns the tag's result only while now is before its expiry, invalidates the entry once expired, and changes nothing else |
| AuthCache.AuthCache.Insert | maco_firmware/modules/app_state/auth_cache.h:47-94 | the slots become AfterInsert: the tag's entry updated in place, else the first free slot, else the oldest entry replaced; at most one valid entry per tag is kept |
| AuthCache.AuthCache.Clear | maco_firmware/modules/app_state/auth_cache.h:96-101 | every slot becomes invalid |
| SessionFsm.Handle | maco_firmware/modules/app_state/session_fsm.cc:135-280 | a handler never moves the state itself; NoSession and Running handle only UserAuthorized (NoSession records the session and names Running); while Active a tap names CheckoutPending exactly for the same tag and TakeoverPending exactly for another, keeping the active session; NoSession is named exactly for a confirmation in a pending state, and only a confirmed takeover sets the chaining flag, with reason OtherTag |
| SessionFsm.Transition | maco_firmware/modules/app_state/session_fsm.cc:115-166 | staying changes nothing; observers are notified exactly when a move crosses the boundary of Active; leaving NoSession announces the active session; entering NoSession ends the session with its usage record and then either clears it (reason reset) or, after a takeover, chains into Running with the pending session announced; moves between children change the state alone |
| SessionFsm.Step | maco_firmware/modules/app_state/session_fsm.cc:115-280 | NoSession + UserAuthorized records the session and goes to Running with a start notification; the same tag while Active goes to CheckoutPending with reason SelfCheckout, another tag stores the pending session and goes to TakeoverPending with a 15 s deadline; in CheckoutPending a confirmation ends the session (reason SelfCheckout or UiCheckout) and cancel, timeout or tag removal go back to Running; in TakeoverPending a confirmation ends the session with reason OtherTag and chains into Running with the pending session, cancel or timeout go back to Running and tag presence changes nothing |
| SessionFsm.StepKeepsWellNested | maco_firmware/modules/app_state/session_fsm.cc:149-166 | every event keeps starts and ends alternating, each end naming the session that started, and a session open exactly while a child of Active is current |
| SessionFsm.RunKeepsWellNested | maco_firmware/modules/app_state/session_fsm.cc:149-166 | the same for any sequence of events |
| SessionFsm.NotificationsAlternate | maco_firmware/modules/app_state/session_fsm.cc:149-166 | from power-up, started/ended notifications fire once per session and never on moves between child states |
| SessionFsm.MapStateId | maco_firmware/modules/app_state/session_fsm.cc:83-94 | each leaf state maps to its own UI state, in both directions |
| SessionFsm.Broadcast | maco_firmware/modules/app_state/session_fsm.cc:40-51 | one delivery per observer, in registration order, all of the same notification |
| SessionFsm.SessionFsm.constructor | maco_firmware/modules/app_state/session_fsm.cc:14-31 | starts in NoSession with cleared session data, no observers and no tag |
| SessionFsm.SessionFsm.AddObserver | maco_firmware/modules/app_state/session_fsm.cc:33-38 | appends the observer; callers must stay within four observers |
| SessionFsm.SessionFsm.Notify | maco_firmware/modules/app_state/session_fsm.cc:40-51 | hands the notification to every observer in order |
| SessionFsm.SessionFsm.ProcessEvent | maco_firmware/modules/app_state/session_fsm.cc:135-280 | updates the context and names the target exactly as the current state's handler, or Active's, does |
| SessionFsm.SessionFsm.EnterNoSession | maco_firmware/modules/app_state/session_fsm.cc:115-133 | after a confirmed takeover the pending session becomes active and the machine chains into Running; otherwise the session data is cleared |
| SessionFsm.SessionFsm.TransitTo | maco_firmware/modules/app_state/session_fsm.cc:115-166 | the new context and the notifications delivered are those of the transition with its exit and entry actions |
| SessionFsm.SessionFsm.Receive | maco_firmware/modules/app_state/session_fsm.cc:115-280 | one event moves the machine as Step says and delivers Step's notifications to every observer |
| SessionFsm.SessionFsm.SetTagPresent | maco_firmware/modules/app_state/session_fsm.cc:75-80 | records presence; the time is updated only when a tag arrives |
| SessionFsm.SessionFsm.SyncSnapshot | maco_firmware/modules/app_state/session_fsm.cc:97-106 | the snapshot shows the mapped state, both labels, the pending times and the tag presence |
| SessionFsm.SessionFsm.GetSnapshot | maco_firmware/modules/app_state/session_fsm.cc:108-111 | returns the last synchronised snapshot |
| SessionFsm.SessionFsm.OnTagDetected | maco_firmware/modules/app_state/session_fsm.cc:55-59 | records the tag, feeds a presence event through Step and refreshes the snapshot |
| SessionFsm.SessionFsm.OnTagRemoved | maco_firmware/modules/app_state/session_fsm.cc:61-65 | records the removal keeping the time of arrival, feeds an absence event through Step and refreshes the whole snapshot |
| SessionFsm.SessionFsm.OnAuthorized | maco_firmware/modules/app_state/session_fsm.cc:67-73 | feeds UserAuthorized through Step, delivers its notifications and refreshes the snapshot |
| AppState.Uid | maco_firmware/modules/app_state/app_state.cc:13-20 | the bytes in use of a uid buffer |
| AppState.StoreUid | maco_firmware/modules/app_state/app_state.cc:22-32 | the buffer then holds exactly the given uid, and the bytes after it keep their old values |
| AppState.AppState.constructor | maco_firmware/modules/app_state/app_state.cc:13-20 | starts Idle with no uids, label or auth id |
| AppState.AppState.GetSnapshot | maco_firmware/modules/app_state/app_state.cc:13-20 | the snapshot copies state, both uids, the label and the auth id |
| AppState.AppState.OnTagDetected | maco_firmware/modules/app_state/app_state.cc:22-32 | TagDetected with the RF uid stored and the NTAG uid, label and auth id cleared; callers keep the uid within 10 bytes |
| AppState.AppState.OnVerifying | maco_firmware/modules/app_state/app_state.cc:34-37 | changes only the state, to Verifying |
| AppState.AppState.OnTagVerified | maco_firmware/modules/app_state/app_state.cc:39-46 | Genuine with the NTAG uid stored; only the state and the NTAG uid change, so the RF uid is kept |
| AppState.AppState.OnUnknownTag | maco_firmware/modules/app_state/app_state.cc:48-51 | changes only the state, to UnknownTag |
| AppState.AppState.OnAuthorizing | maco_firmware/modules/app_state/app_state.cc:53-56 | changes only the state, to Authorizing |
| AppState.AppState.OnAuthorized | maco_firmware/modules/app_state/app_state.cc:58-64 | Authorized with the label and auth id set; nothing else changes |
| AppState.AppState.OnUnauthorized | maco_firmware/modules/app_state/app_state.cc:66-69 | changes only the state, to Unauthorized |
| AppState.AppState.OnTagRemoved | maco_firmware/modules/app_state/app_state.cc:71-78 | back to Idle with every field cleared |
| Pn532ReaderFsm.Next | maco_firmware/devices/pn532/pn532_nfc_reader_fsm.cc:14-113 | an unhandled message changes nothing; a handled one ends with a call starting the work the new state waits on; only Start leaves Idle, nothing returns to it, and Start is ignored once running |
| Pn532ReaderFsm.NextKeepsInStep | maco_firmware/devices/pn532/pn532_nfc_reader_fsm.cc:14-113 | every handler leaves the reader working on what the next state waits for: detection in Detecting, the probe in Probing, the arrival event in SendingEvent, a scheduled check in TagPresent, the presence check in CheckingPresence, the operation in ExecutingOp |
| Pn532ReaderFsm.RunKeepsInStep | maco_firmware/devices/pn532/pn532_nfc_reader_fsm.cc:14-113 | the same holds after any sequence of messages |
| Pn532ReaderFsm.RunNeverIdles | maco_firmware/devices/pn532/pn532_nfc_reader_fsm.cc:14-113 | once started, no message leads back to Idle |
| Pn532ReaderFsm.FailuresRestartDetection | maco_firmware/devices/pn532/pn532_nfc_reader_fsm.cc:43-113 | a failed probe, a lost tag or a failed operation leads to Detecting with detection restarted when its state handles it, and changes nothing elsewhere |
| Pn532ReaderFsm.Pn532NfcReaderFsm.constructor | maco_firmware/devices/pn532/pn532_nfc_reader_fsm.cc:14-22 | starts Idle with no calls made |
| Pn532ReaderFsm.Pn532NfcReaderFsm.Receive | maco_firmware/devices/pn532/pn532_nfc_reader_fsm.cc:14-113 | moves to the state the current handler names and makes its reader calls in order: Idle+Start to Detecting; Detecting to Probing or again Detecting; Probing to SendingEvent or Detecting; SendingEvent to TagPresent; TagPresent to ExecutingOp or CheckingPresence; CheckingPresence to TagPresent, or to Detecting after removing the tag; ExecutingOp to TagPresent or Detecting; any other message changes nothing |
| Ntag424Crypto.SessionVector | maco_firmware/modules/nfc_tag/ntag424/ntag424_crypto.cc:38-70 | 32 bytes: the two prefix bytes, 00 01 00 80, RndA[0..2], RndB[0..6] xor RndA[2..8], RndB[6..16], RndA[8..16] |
| Ntag424Crypto.SessionVectorsDifferInPrefix | maco_firmware/modules/nfc_tag/ntag424/ntag424_crypto.cc:20-23 | SV1 (prefix A5 5A) and SV2 (prefix 5A A5) agree everywhere except their first two bytes, where they differ |
| Ntag424Crypto.CalculateSV | maco_firmware/modules/nfc_tag/ntag424/ntag424_crypto.cc:28-71 | the loops write exactly SessionVector to the first 32 bytes of the buffer and leave the rest alone |
| Ntag424Crypto.DeriveSessionKeys | maco_firmware/modules/nfc_tag/ntag424/ntag424_crypto.cc:107-134 | InvalidArgument unless key, RndA and RndB are 16 bytes each; then ResourceExhausted if an output buffer is under 16 bytes; on success the encryption key is the CMAC of SV1 and the MAC key the CMAC of SV2 under the authentication key |
| Ntag424Crypto.DeriveSessionKeysFailsWithCmac | maco_firmware/modules/nfc_tag/ntag424/ntag424_crypto.cc:122-133 | with valid sizes the derivation succeeds exactly when both CMACs do, and otherwise reports the first CMAC error |
| Ntag424Crypto.Rotated | maco_firmware/modules/nfc_tag/ntag424/ntag424_crypto.cc:136-148 | out[i] = in[i+1] for i < len-1 and out[len-1] = in[0] |
| Ntag424Crypto.RotatedRightOfRotated | maco_firmware/modules/nfc_tag/ntag424/ntag424_crypto.cc:136-148 | rotating back right undoes the left rotation, so no information is lost |
| Ntag424Crypto.RotateLeft1 | maco_firmware/modules/nfc_tag/ntag424/ntag424_crypto.cc:136-148 | the loop fills the output with the left rotation of the input |
| Ntag424Crypto.VerifyRndAPrime | maco_firmware/modules/nfc_tag/ntag424/ntag424_crypto.cc:150-163 | true iff both are 16 bytes and RndA' is RndA rotated left by one byte |
| Ntag424SecureMessaging.PaddedLength | maco_firmware/modules/nfc_tag/ntag424/ntag424_secure_messaging.cc:31 | the padded length is a multiple of 16, strictly greater than n and at most n + 16 |
| Ntag424SecureMessaging.Pad | maco_firmware/modules/nfc_tag/ntag424/ntag424_secure_messaging.cc:27-47 | ISO 7816-4 padding keeps the data in front, puts 80 at index n and zeros after it |
| Ntag424SecureMessaging.ApplyPadding | maco_firmware/modules/nfc_tag/ntag424/ntag424_secure_messaging.cc:27-47 | ResourceExhausted with the output untouched when it is too small; otherwise the padded data at its front, the rest untouched, and the padded length returned |
| Ntag424SecureMessaging.UnpaddedLength | maco_firmware/modules/nfc_tag/ntag424/ntag424_secure_messaging.cc:54-73 | the position of the padding byte with only zeros after it, None exactly when there is none |
| Ntag424SecureMessaging.UnpaddedLengthOfPad | maco_firmware/modules/nfc_tag/ntag424/ntag424_secure_messaging.cc:27-73 | removing the padding of padded data gives back its length |
| Ntag424SecureMessaging.PaddedAtUnique | maco_firmware/modules/nfc_tag/ntag424/ntag424_secure_messaging.cc:54-73 | the padding position is unique, so unpadding is well defined |
| Ntag424SecureMessaging.RemovePadding | maco_firmware/modules/nfc_tag/ntag424/ntag424_secure_messaging.cc:54-73 | the backward scan returns DataLoss for empty input or a trailing byte other than 00 and 80 (and for all zeros); otherwise the length before the 80 |
| Ntag424SecureMessaging.CompareStep | maco_firmware/modules/nfc_tag/ntag424/ntag424_secure_messaging.cc:316-321 | the or-accumulated difference stays zero exactly while the prefixes agree |
| Ntag424SecureMessaging.ConstantTimeCompare | maco_firmware/modules/nfc_tag/ntag424/ntag424_secure_messaging.cc:310-322 | true exactly when the two sequences are equal (a length difference included) |
| Ntag424SecureMessaging.CounterBytes | maco_firmware/modules/nfc_tag/ntag424/ntag424_secure_messaging.cc:106-107 | two bytes that read back little-endian as the counter |
| Ntag424SecureMessaging.IvInput | maco_firmware/modules/nfc_tag/ntag424/ntag424_secure_messaging.cc:100-110 | 16 bytes: the prefix, TI, the counter little-endian and 8 zero bytes |
| Ntag424SecureMessaging.IvInputsDistinct | maco_firmware/modules/nfc_tag/ntag424/ntag424_secure_messaging.cc:119-125 | a command IV input (A5 5A) never equals a response one (5A A5), and distinct counters give distinct command IV inputs |
| Ntag424SecureMessaging.CmacInput | maco_firmware/modules/nfc_tag/ntag424/ntag424_secure_messaging.cc:161-196 | Cmd, the counter little-endian, TI, then header and data |
| Ntag424SecureMessaging.CmacInputPrefix | maco_firmware/modules/nfc_tag/ntag424/ntag424_secure_messaging.cc:174-187 | the seven bytes the builder writes first are Cmd, counter and TI |
| Ntag424SecureMessaging.WriteCmacPrefix | maco_firmware/modules/nfc_tag/ntag424/ntag424_secure_messaging.cc:174-187 | the first seven bytes of the buffer become Cmd, counter and TI; the rest is untouched |
| Ntag424SecureMessaging.FillCmacInput | maco_firmware/modules/nfc_tag/ntag424/ntag424_secure_messaging.cc:161-196 | the buffer's contents are exactly CmacInput |
| Ntag424SecureMessaging.TruncateMac | maco_firmware/modules/nfc_tag/ntag424/ntag424_secure_messaging.cc:138-145 | the 8 bytes at odd indices 1, 3, ..., 15 of the full CMAC |
| Ntag424SecureMessaging.SecureMessaging.constructor | maco_firmware/modules/nfc_tag/ntag424/ntag424_secure_messaging.cc:77-91 | keeps both session keys, TI and the initial counter |
| Ntag424SecureMessaging.SecureMessaging.CalculateIV | maco_firmware/modules/nfc_tag/ntag424/ntag424_secure_messaging.cc:93-117 | ResourceExhausted for an output under 16 bytes; otherwise the encryption of IvInput under the session encryption key |
| Ntag424SecureMessaging.SecureMessaging.CalculateIVCmd | maco_firmware/modules/nfc_tag/ntag424/ntag424_secure_messaging.cc:119-121 | the IV with prefix A5 5A |
| Ntag424SecureMessaging.SecureMessaging.CalculateIVResp | maco_firmware/modules/nfc_tag/ntag424/ntag424_secure_messaging.cc:123-125 | the IV with prefix 5A A5 |
| Ntag424SecureMessaging.SecureMessaging.Mact | maco_firmware/modules/nfc_tag/ntag424/ntag424_secure_messaging.cc:127-148 | 8 bytes, available exactly when the CMAC under the session MAC key is, and equal to its odd-index truncation |
| Ntag424SecureMessaging.SecureMessaging.CalculateCMACt | maco_firmware/modules/nfc_tag/ntag424/ntag424_secure_messaging.cc:127-148 | ResourceExhausted for an output under 8 bytes, otherwise the truncated CMAC |
| Ntag424SecureMessaging.SecureMessaging.BuildCommandCMACWithData | maco_firmware/modules/nfc_tag/ntag424/ntag424_secure_messaging.cc:156-197 | ResourceExhausted when the input exceeds 128 bytes or the output is under 8; otherwise the truncated CMAC of Cmd ++ counter ++ TI ++ header ++ data |
| Ntag424SecureMessaging.SecureMessaging.BuildCommandCMAC | maco_firmware/modules/nfc_tag/ntag424/ntag424_secure_messaging.cc:150-154 | the same with no data |
| Ntag424SecureMessaging.SecureMessaging.ResponseCheck | maco_firmware/modules/nfc_tag/ntag424/ntag424_secure_messaging.cc:205-252 | InvalidArgument for a received CMAC that is not 8 bytes; ResourceExhausted for an input over 128 bytes; accepted exactly when the truncated CMAC of the response input equals the received one; a mismatch gives Unauthenticated |
| Ntag424SecureMessaging.SecureMessaging.VerifyResponseCMACWithData | maco_firmware/modules/nfc_tag/ntag424/ntag424_secure_messaging.cc:205-252 | the check builds the response input and compares in constant time, giving exactly ResponseCheck at the current counter |
| Ntag424SecureMessaging.SecureMessaging.VerifyResponseCMAC | maco_firmware/modules/nfc_tag/ntag424/ntag424_secure_messaging.cc:199-203 | the same with no response data |
| Ntag424SecureMessaging.SecureMessaging.CommandCiphertext | maco_firmware/modules/nfc_tag/ntag424/ntag424_secure_messaging.cc:254-277 | the CBC encryption of the padded plaintext under the command IV; its length is the padded length, a multiple of 16 |
| Ntag424SecureMessaging.SecureMessaging.EncryptCommandData | maco_firmware/modules/nfc_tag/ntag424/ntag424_secure_messaging.cc:254-277 | ResourceExhausted when the padded length exceeds the internal or the output buffer; otherwise CommandCiphertext with its length reported |
| Ntag424SecureMessaging.SecureMessaging.DecryptedResponse | maco_firmware/modules/nfc_tag/ntag424/ntag424_secure_messaging.cc:279-300 | InvalidArgument for empty ciphertext or one that is not a multiple of 16; ResourceExhausted for a small output; on success the CBC decryption under the response IV with its padding removed |
| Ntag424SecureMessaging.SecureMessaging.DecryptResponseData | maco_firmware/modules/nfc_tag/ntag424/ntag424_secure_messaging.cc:279-300 | exactly DecryptedResponse at the current counter |
| Ntag424SecureMessaging.SecureMessaging.DecryptedResponseOfEncrypted | maco_firmware/modules/nfc_tag/ntag424/ntag424_secure_messaging.cc:254-300 | given CBC correctness, decrypting the tag's encryption of padded data gives back the data |
| Ntag424SecureMessaging.SecureMessaging.IncrementCounter | maco_firmware/modules/nfc_tag/ntag424/ntag424_secure_messaging.cc:302-308 | at FFFF returns false and leaves the counter there; otherwise adds one and returns true |
| Ntag424Tag.InterpretStatusWord | maco_firmware/modules/nfc_tag/ntag424/ntag424_tag.cc:41-74 | 91 00, 91 AF and 90 00 are success; each listed 91 xx error maps to its own status code; any other word is Unknown |
| Ntag424Tag.VerdictAsWritten | maco_firmware/modules/nfc_tag/ntag424/ntag424_tag.cc:579-585 | the firmware's guard: the command proceeds exactly when the word is the expected one, and otherwise returns InterpretStatusWord of the word |
| Ntag424Tag.VerdictAsWrittenStopsWithSuccess | maco_firmware/modules/nfc_tag/ntag424/ntag424_tag.cc:1016-1023 | with 91 00 expected, 91 AF or 90 00 stops WriteData, ChangeKey or ReadData (after its 91 AF check) with an OK status |
| Ntag424Tag.AuthPart1VerdictAsWrittenStopsWithSuccess | maco_firmware/modules/nfc_tag/ntag424/ntag424_tag.cc:154-158 | with 91 AF expected after Part 1, 91 00 or 90 00 stops authentication with an OK status where a session is due |
| Ntag424Tag.Part3VerdictAsWrittenStopsWithSuccess | maco_firmware/modules/nfc_tag/ntag424/ntag424_tag.cc:186-209 | the length search also stops at 91 AF: 32 zero bytes then 91 AF give length 34, and the 91 00 check then stops authentication with an OK status |
| Ntag424Tag.CheckStatus | maco_firmware/modules/nfc_tag/ntag424/ntag424_tag.cc:154-158 | corrected guard: OK exactly for the expected word; passes InterpretStatusWord's errors through; a success word that is not the expected one is an error |
| Ntag424Tag.CheckStatusAgreesOnErrors | maco_firmware/modules/nfc_tag/ntag424/ntag424_tag.cc:41-74 | the corrected guard and the firmware's agree on when to proceed, and give the same status exactly when the word is neither expected nor a success word |
| Ntag424Tag.NextSerial | maco_firmware/modules/nfc_tag/ntag424/ntag424_tag.cc:224 | the authentication serial advances by one with 32-bit wrap-around and always differs from the old one |
| Ntag424Tag.AuthPart1Command | maco_firmware/modules/nfc_tag/ntag424/ntag424_tag.cc:135-146 | AuthenticateEV2First is the native APDU 90 71 00 00 02 with the key number and LenCap 00, then Le |
| Ntag424Tag.AuthPart2Command | maco_firmware/modules/nfc_tag/ntag424/ntag424_tag.cc:168-177 | the additional frame is the native APDU 90 AF 00 00 20 carrying the 32-byte challenge, then Le |
| Ntag424Tag.StatusPairEnd | maco_firmware/modules/nfc_tag/ntag424/ntag424_tag.cc:186-196 | the first index from the start point that ends a 91 00 or 91 AF pair, or 0 when none does |
| Ntag424Tag.Part3LengthAsWritten | maco_firmware/modules/nfc_tag/ntag424/ntag424_tag.cc:186-196 | the search loop over the answer buffer returns StatusPairEnd from index 2 |
| Ntag424Tag.Part3LengthAsWrittenStopsInsideCiphertext | maco_firmware/modules/nfc_tag/ntag424/ntag424_tag.cc:186-202 | a 36-byte answer whose ciphertext begins 91 00 is cut at length 2, below the minimum of 34 |
| Ntag424Tag.Part3Answer | maco_firmware/modules/nfc_tag/ntag424/ntag424_tag.cc:198-209 | corrected Part 3 length (see Findings): the part-3 answer is accepted exactly when it has at least 34 bytes and ends 91 00, its value being the first 32 bytes; shorter answers are DataLoss |
| Ntag424Tag.Part3AnswerAcceptsAnyCiphertext | maco_firmware/modules/nfc_tag/ntag424/ntag424_tag.cc:198-209 | any 32-byte ciphertext followed by 91 00 is accepted with that ciphertext |
| Ntag424Tag.AuthenticationResult | maco_firmware/modules/nfc_tag/ntag424/ntag424_tag.cc:129-217 | corrected status check and Part 3 length (see Findings): success requires a part-1 answer of at least 18 bytes ending 91 AF, a challenge built from its first 16 bytes, an accepted part-3 answer and the key provider's verification; the errors of the Part 1 exchange, of the challenge and of the Part 2 exchange pass through |
| Ntag424Tag.FileHeader | maco_firmware/modules/nfc_tag/ntag424/ntag424_tag.cc:326-338 | seven bytes: file number, then offset and length as 24-bit little-endian values |
| Ntag424Tag.WriteDataField | maco_firmware/modules/nfc_tag/ntag424/ntag424_tag.cc:510-540 | Full mode: OutOfRange when the padded data exceeds 64 bytes, else the ciphertext; MAC and Plain: OutOfRange above 48 bytes, else the data itself |
| Ntag424Tag.NativeApdu | maco_firmware/modules/nfc_tag/ntag424/ntag424_tag.cc:491-495 | a native APDU is 90, the instruction, 00 00, Lc equal to the body's length, the body and Le 00 |
| Ntag424Tag.WriteDataCommand | maco_firmware/modules/nfc_tag/ntag424/ntag424_tag.cc:476-568 | WriteData is the native APDU 90 8D with header, data field and, except in Plain mode, the CMACt over them; Lc counts exactly these |
| Ntag424Tag.ReadDataCommand | maco_firmware/modules/nfc_tag/ntag424/ntag424_tag.cc:318-356 | ReadData is the native APDU 90 AD with the header and, except in Plain mode, its CMACt |
| Ntag424Tag.ChangeKeyCommand | maco_firmware/modules/nfc_tag/ntag424/ntag424_tag.cc:963-994 | ChangeKey is the native APDU 90 C4 with a 41-byte body: key number, 32 bytes of ciphertext and the CMACt over both |
| Ntag424Tag.ChangeKeyPlaintext | maco_firmware/modules/nfc_tag/ntag424/ntag424_tag.cc:903-961 | InvalidArgument unless the new key is 16 bytes and the old key is empty or 16 bytes, and 16 bytes for keys other than 0; key 0 gets new key and version, others the XOR of the keys, version and CRC32NK of the new key |
| Ntag424Tag.AcceptedStatus | maco_firmware/modules/nfc_tag/ntag424/ntag424_tag.cc:579-585 | corrected status check (see Findings): an answer is accepted exactly when its last two bytes are 91 00 |
| Ntag424Tag.WriteDataReply | maco_firmware/modules/nfc_tag/ntag424/ntag424_tag.cc:575-605 | corrected status check (see Findings): the counter advances exactly when the answer is accepted and not at FFFF; success needs that and, outside Plain mode, at least 10 bytes and a valid response MAC at the new counter |
| Ntag424Tag.ReadPayload | maco_firmware/modules/nfc_tag/ntag424/ntag424_tag.cc:407-457 | Plain returns the data before the status word; MAC checks the MAC, then returns the data; Full with data checks the MAC over the ciphertext and then decrypts; Full with no data returns nothing, its MAC unchecked, as the source does |
| Ntag424Tag.ReadDataReply | maco_firmware/modules/nfc_tag/ntag424/ntag424_tag.cc:364-405 | corrected status check (see Findings): DataLoss below 2 bytes (Plain) or 10 (otherwise); 91 AF is Unimplemented; the counter advances exactly when the answer is accepted and not at FFFF, and the payload is then read at the new counter |
| Ntag424Tag.ChangeKeyReply | maco_firmware/modules/nfc_tag/ntag424/ntag424_tag.cc:1010-1055 | corrected status check (see Findings): an accepted change of key 0 ends the session without advancing the counter; other keys advance it exactly when the answer is accepted, has 10 bytes and the counter is below FFFF, then check the response MAC |
| Ntag424Tag.BuildWriteDataCommand | maco_firmware/modules/nfc_tag/ntag424/ntag424_tag.cc:476-568 | the buffer-building code yields WriteDataCommand at the session's counter |
| Ntag424Tag.BuildReadDataCommand | maco_firmware/modules/nfc_tag/ntag424/ntag424_tag.cc:318-356 | the buffer-building code yields ReadDataCommand at the session's counter |
| Ntag424Tag.BuildChangeKeyCommand | maco_firmware/modules/nfc_tag/ntag424/ntag424_tag.cc:963-994 | the buffer-building code yields ChangeKeyCommand at the session's counter |
| Ntag424Tag.ReadPayloadOf | maco_firmware/modules/nfc_tag/ntag424/ntag424_tag.cc:407-457 | the branch-by-branch copy returns ReadPayload |
| Ntag424Tag.FinishWriteData | maco_firmware/modules/nfc_tag/ntag424/ntag424_tag.cc:575-605 | corrected status check (see Findings): the result and the counter step are those of WriteDataReply |
| Ntag424Tag.ReadDataAnswer | maco_firmware/modules/nfc_tag/ntag424/ntag424_tag.cc:364-457 | corrected status check (see Findings): the result and the counter step are those of ReadDataReply |
| Ntag424Tag.Ntag424Tag.constructor | maco_firmware/modules/nfc_tag/ntag424/ntag424_tag.cc:25-29 | a new tag has no session, key number 0 and serial 0 |
| Ntag424Tag.Ntag424Tag.ValidateSession | maco_firmware/modules/nfc_tag/ntag424/ntag424_tag.cc:31-39 | a token is valid exactly when a session exists and the token carries the current serial; otherwise FailedPrecondition |
| Ntag424Tag.Ntag424Tag.ClearSession | maco_firmware/modules/nfc_tag/ntag424/ntag424_tag.cc:25-29 | the session and key number are reset, the serial kept, and every token is then refused |
| Ntag424Tag.Ntag424Tag.Authenticate | maco_firmware/modules/nfc_tag/ntag424/ntag424_tag.cc:129-227 | corrected status check and Part 3 length (see Findings): succeeds exactly when AuthenticationResult does, with the same error otherwise; on success the serial advances, the new token carries it, older tokens fail, and a fresh session starts at counter 0 with the derived keys |
| Ntag424Tag.Ntag424Tag.WriteData | maco_firmware/modules/nfc_tag/ntag424/ntag424_tag.cc:466-606 | corrected status check (see Findings): an invalid token gives FailedPrecondition and changes nothing; otherwise the result and the counter step are those of the modelled exchange |
| Ntag424Tag.Ntag424Tag.ReadData | maco_firmware/modules/nfc_tag/ntag424/ntag424_tag.cc:307-460 | corrected status check (see Findings): as WriteData, and on success the data is at the front of the caller's buffer with the rest unchanged; on error nothing is written |
| Ntag424Tag.Ntag424Tag.ChangeKey | maco_firmware/modules/nfc_tag/ntag424/ntag424_tag.cc:893-1062 | corrected status check (see Findings): as WriteData; an accepted change of key 0 clears the session, keeping the serial |
| SdmConstants.TemplateLayout | maco_firmware/apps/personalize/sdm_constants.h:37-85 | the NDEF template is 88 bytes, its big-endian NLEN field is 86 (the size without NLEN) and its record's payload length is 82 |
| SdmConstants.OffsetsPointAtPlaceholders | maco_firmware/apps/personalize/sdm_constants.h:88-116 | the three 24-bit little-endian offsets of the SDM settings are 0x22, 0x22 and 0x48, the 32 hex zeros of the PICC placeholder start at 0x22, and the 16 of the CMAC placeholder run from 0x48 to the end |
| SdmConstants.Chunk | maco_firmware/apps/personalize/sdm_configurator.cc:42-52 | the k-th write carries the 44 template bytes from offset 44k |
| SdmConstants.ChunksCoverTemplate | maco_firmware/apps/personalize/sdm_constants.h:28-32 | the two 44-byte writes together are exactly the template |
| SdmConstants.ConfiguredAnswer | maco_firmware/apps/personalize/sdm_constants.h:119-132 | a configured tag's GetFileSettings answer is 19 bytes plus whatever trails them |
| SdmConstants.MatchIffConfiguredAnswer | maco_firmware/apps/personalize/sdm_constants.h:119-132 | an answer matches exactly when it has the configured answer's layout, whatever its file type, file size and trailing bytes |
| SdmConstants.IsSdmConfigured | maco_firmware/apps/personalize/sdm_constants.h:133-155 | true exactly when the answer has at least 19 bytes and its option, access-right, SDM and offset fields equal the configured settings |
| NtagKeyDiversification.ShiftInDoubles | tools/ntag_key_diversification.py:33-38 | shifting a byte string left by one bit doubles its big-endian value, the bit shifted out being worth 256 to the power of its length |
| NtagKeyDiversification.Double | tools/ntag_key_diversification.py:44-47 | a subkey step maps a 16-byte block to a 16-byte block: the shift, reduced by RB when the top bit was set |
| NtagKeyDiversification.DoubleIsGfDoubling | tools/ntag_key_diversification.py:44-52 | without the top bit a subkey step is multiplication by two; with it, the shift wraps past 2^128 and only the last byte is XORed with 0x87 |
| NtagKeyDiversification.Subkeys | tools/ntag_key_diversification.py:41-54 | K1 and K2 are 16-byte blocks: the encrypted zero block doubled once and twice |
| NtagKeyDiversification.ShiftLeftBlock | tools/ntag_key_diversification.py:33-38 | the byte loop produces exactly the one-bit left shift of the block |
| NtagKeyDiversification.XorRbInto | tools/ntag_key_diversification.py:45-47 | the in-place loop leaves the block XORed with RB |
| NtagKeyDiversification.GenerateSubkeys | tools/ntag_key_diversification.py:41-54 | the shift-and-conditional-XOR code yields exactly Subkeys |
| NtagKeyDiversification.Padding | tools/ntag_key_diversification.py:82-85 | an input shorter than 31 bytes is padded to 31 with 0x80 first; a longer or full one gets no padding |
| NtagKeyDiversification.CmacMessageIsTwoBlocks | tools/ntag_key_diversification.py:87-88 | the message 0x01, input and padding is two blocks exactly when the input has at most 31 bytes, so the length assertion fails exactly for longer inputs |
| NtagKeyDiversification.UnpadPadding | tools/ntag_key_diversification.py:82-85 | removing method-2 padding from a padded short input recovers the input, so padding loses nothing |
| NtagKeyDiversification.MaskedMessage | tools/ntag_key_diversification.py:87-92 | the masked message is two blocks whose first block is the unmasked message's first block |
| NtagKeyDiversification.DiversifiedKey | tools/ntag_key_diversification.py:57-95 | fails exactly when the master key is not 16 bytes, the uid not 7, the slot unknown or the input longer than 31 bytes; an unknown slot with valid key and uid is KeyError and KeyError means an unknown slot; a key is 16 bytes |
| NtagKeyDiversification.SlotsGetDistinctMessages | tools/ntag_key_diversification.py:77-92 | two different slots of the same tag and system name are encrypted from different CMAC messages |
| NtagKeyDiversification.KeyIdsDiffer | tools/ntag_key_diversification.py:13-19 | every slot id has three bytes and no two slots share one |
| NtagKeyDiversification.MaskLastBlock | tools/ntag_key_diversification.py:90-92 | the in-place loop XORs exactly the second block with the subkey and keeps the first |
| NtagKeyDiversification.DiversifyKey | tools/ntag_key_diversification.py:57-95 | the tool's step-by-step code returns DiversifiedKey, including each of its exceptions |
| NtagKeyDiversification.DiversifiedKeys | tools/ntag_key_diversification.py:98-111 | succeeds exactly when the first slot's derivation does; then every slot has its key and no other name appears |
| In4818Led.BufferSize | maco_firmware/devices/in4818/in4818_led_driver.h:46-48 | the SPI buffer holds 120 reset bytes, 12 bytes per LED and 120 more reset bytes |
| In4818Led.FromBitsBound | maco_firmware/devices/in4818/in4818_led_driver.h:108-111 | a string of k bits read most significant first is below 2^k, so eight bits fit a byte |
| In4818Led.BitsOfFromBits | maco_firmware/devices/in4818/in4818_led_driver.h:121-124 | reading a bit string as a number and writing it back with as many bits gives the same string |
| In4818Led.FromBitsOfBits | maco_firmware/devices/in4818/in4818_led_driver.h:121-124 | the k lowest bits of a number below 2^k read back as that number |
| In4818Led.FromBitsAppend | maco_firmware/devices/in4818/in4818_led_driver.h:112-119 | appending bits shifts the value left by their count and adds theirs, as the shift-then-or loop does |
| In4818Led.SpiBitsAt | maco_firmware/devices/in4818/in4818_led_driver.h:104-118 | data bit j becomes SPI bits 3j to 3j+2: a one, the data bit, a zero (110 for a one, 100 for a zero) |
| In4818Led.DecodeEncodedByte | maco_firmware/devices/in4818/in4818_led_driver.h:102-125 | the strip, reading the middle bit of each three-bit group, recovers the encoded byte from its three SPI bytes |
| In4818Led.GroupValue | maco_firmware/devices/in4818/in4818_led_driver.h:113-118 | a one's group is worth 6 (0b110) and a zero's 4 (0b100) |
| In4818Led.SplitSpiWord | maco_firmware/devices/in4818/in4818_led_driver.h:121-124 | the 24-bit word's bytes, most significant first, are the values of its three eight-bit slices |
| In4818Led.EncodeStep | maco_firmware/devices/in4818/in4818_led_driver.h:112-119 | each loop step multiplies the word by 8 and adds the data bit's group |
| In4818Led.EncodeByte | maco_firmware/devices/in4818/in4818_led_driver.h:102-125 | the loop writes exactly the byte's three SPI bytes at the given position and changes nothing else |
| In4818Led.Scale | maco_firmware/devices/in4818/in4818_led_driver.h:133-137 | a scaled channel is never above the channel, is unchanged at brightness 255 and zero at brightness 0 |
| In4818Led.ScaleMonotone | maco_firmware/devices/in4818/in4818_led_driver.h:133-137 | a lower brightness never gives more of a channel |
| In4818Led.DecodePixelCode | maco_firmware/devices/in4818/in4818_led_driver.h:139-143 | the strip reads a pixel's twelve bytes in GRBW order as the pixel's colour scaled by the brightness |
| In4818Led.ConcatAt | maco_firmware/devices/in4818/in4818_led_driver.h:131 | the k-th pixel's twelve bytes sit at offset 12k of the concatenated pixel codes |
| In4818Led.PixelCodes | maco_firmware/devices/in4818/in4818_led_driver.h:148-151 | each pixel is coded with its own colour at the common brightness |
| In4818Led.Frame | maco_firmware/devices/in4818/in4818_led_driver.h:46-48 | a frame has the buffer's size |
| In4818Led.PixelsCodeAt | maco_firmware/devices/in4818/in4818_led_driver.h:128-144 | pixel k's code is at offset 12k of the pixels' code |
| In4818Led.FrameShowsPixels | maco_firmware/devices/in4818/in4818_led_driver.h:146-159 | the strip decoding pixel k's slot of a frame sees pixel k's colour scaled by the brightness |
| In4818Led.KeepsResetPeriods | maco_firmware/devices/in4818/in4818_led_driver.h:128-131 | writing one pixel's code into its slot leaves both reset periods zero |
| In4818Led.EncodedPrefixStep | maco_firmware/devices/in4818/in4818_led_driver.h:148-151 | after encoding pixel i the buffer begins with the reset period and the codes of pixels 0 to i |
| In4818Led.PixelsCodeSnoc | maco_firmware/devices/in4818/in4818_led_driver.h:148-151 | the code of the first i+1 pixels is the code of the first i followed by pixel i's |
| In4818Led.EncodedBufferIsFrame | maco_firmware/devices/in4818/in4818_led_driver.h:146-153 | a buffer with zero reset periods whose pixel area holds every pixel's code is exactly the frame |
| In4818Led.In4818LedDriver.constructor | maco_firmware/devices/in4818/in4818_led_driver.h:79-82 | a new driver has all pixels black, a zeroed buffer of the right size and brightness 255 |
| In4818Led.In4818LedDriver.Init | maco_firmware/devices/in4818/in4818_led_driver.h:88-100 | a failed SPI configuration is returned with nothing changed; otherwise the buffer is zeroed and every pixel black |
| In4818Led.In4818LedDriver.SetPixel | maco_firmware/modules/led/led_driver.h:50-54 | only the given pixel changes, to the given colour |
| In4818Led.In4818LedDriver.GetPixel | maco_firmware/modules/led/led_driver.h:56-60 | returns the stored colour of the pixel |
| In4818Led.In4818LedDriver.Fill | maco_firmware/modules/led/led_driver.h:62-67 | every pixel takes the colour |
| In4818Led.In4818LedDriver.SetBrightness | maco_firmware/devices/in4818/in4818_led_driver.h:67 | the brightness becomes the given value |
| In4818Led.In4818LedDriver.EncodePixel | maco_firmware/devices/in4818/in4818_led_driver.h:127-144 | only the pixel's twelve-byte slot changes, to its scaled GRBW code, and the reset periods stay zero |
| In4818Led.In4818LedDriver.Show | maco_firmware/devices/in4818/in4818_led_driver.h:146-159 | the buffer sent, and left behind, is exactly the frame of the current pixels at the current brightness; the SPI write's status is returned |
| DeviceSecrets.HeaderBytes | maco_firmware/modules/device_secrets/device_secrets_eeprom.h:96-103 | the packed header is 8 bytes |
| DeviceSecrets.HeaderFields | maco_firmware/modules/device_secrets/device_secrets_eeprom.h:96-101 | the header's magic, version and length read back as written, little-endian |
| DeviceSecrets.Load | maco_firmware/modules/device_secrets/device_secrets_eeprom.cc:171-241 | CrcMismatch exactly when magic, version and length pass and the stored CRC differs from the CRC of header and proto; DecodeFailed exactly when every check passes and the proto does not decode |
| DeviceSecrets.LoadRejectsEachFailedCheck | maco_firmware/modules/device_secrets/device_secrets_eeprom.cc:171-241 | a wrong magic, then a wrong version, then a length above 64 each reject the record for that reason; an accepted record has its length in range, a CRC matching header and proto, and a proto that decodes to the loaded secrets |
| DeviceSecrets.Image | maco_firmware/modules/device_secrets/device_secrets_eeprom.cc:124-140 | the written record is header, proto and CRC, at most 76 bytes |
| DeviceSecrets.ProvisionedImageLoads | maco_firmware/modules/device_secrets/device_secrets_eeprom.cc:97-241 | stored bytes that begin with a provisioned record load the provisioned secrets, when the decoder undoes the encoder |
| DeviceSecrets.ClearedStoreIsRejected | maco_firmware/modules/device_secrets/device_secrets_eeprom.cc:157-185 | after the magic is overwritten with FFFFFFFF a load fails on the magic |
| DeviceSecrets.DeviceSecretsEeprom.constructor | maco_firmware/modules/device_secrets/device_secrets_eeprom.cc:57-60 | a new store is not yet loaded, not valid and holds zero keys, over the given EEPROM and offset |
| DeviceSecrets.DeviceSecretsEeprom.EepromPut | maco_firmware/modules/device_secrets/device_secrets_eeprom.cc:138-140 | the bytes are written at the index and the rest of the EEPROM is unchanged |
| DeviceSecrets.DeviceSecretsEeprom.LoadFromEeprom | maco_firmware/modules/device_secrets/device_secrets_eeprom.cc:171-241 | the store is loaded and valid exactly when the stored record loads, caching its keys; a failed load keeps the old keys |
| DeviceSecrets.DeviceSecretsEeprom.IsProvisioned | maco_firmware/modules/device_secrets/device_secrets_eeprom.cc:70-75 | loads on first use only, then answers whether the record loaded; once loaded nothing changes |
| DeviceSecrets.DeviceSecretsEeprom.GetGatewayMasterSecret | maco_firmware/modules/device_secrets/device_secrets_eeprom.cc:77-85 | loads on first use only; the cached gateway secret when valid, NotFound otherwise |
| DeviceSecrets.DeviceSecretsEeprom.GetNtagTerminalKey | maco_firmware/modules/device_secrets/device_secrets_eeprom.cc:87-95 | loads on first use only; the cached terminal key when valid, NotFound otherwise |
| DeviceSecrets.DeviceSecretsEeprom.Provision | maco_firmware/modules/device_secrets/device_secrets_eeprom.cc:97-155 | an encoding above 64 bytes is Internal with nothing written; otherwise the record is written at the offset, the cache holds the keys, and the record loads them back when the decoder undoes the encoder |
| DeviceSecrets.DeviceSecretsEeprom.ProvisionedImageAtOffsetLoads | maco_firmware/modules/device_secrets/device_secrets_eeprom.cc:138-140 | a record written at the store's offset is what the store's window loads |
| DeviceSecrets.DeviceSecretsEeprom.Clear | maco_firmware/modules/device_secrets/device_secrets_eeprom.cc:157-169 | only the magic at the offset becomes FFFFFFFF, the cache is zeroed and loaded but invalid, and the stored bytes no longer load |
| DeviceSecrets.ProvisionAndReadBack | maco_firmware/modules/device_secrets/device_secrets_eeprom_test.cc:68-90 | after provisioning, the same store reports provisioned and returns both keys |
| DeviceSecrets.ProvisionPersistsAcrossInstances | maco_firmware/modules/device_secrets/device_secrets_eeprom_test.cc:92-167 | a new store over the same EEPROM finds the provisioned keys, and after Clear a new store finds none |

## Left out

- TCP sockets, the asyncio server and its connection registry, and the HTTP client to the backend: network I/O. The backend's answer is a parameter of `GatewayService.Forward`.
- HDLC framing and pw_rpc packet encoding: external codecs. The frame loop returns the accepted frames, and RPC requests arrive as decoded records.
- ASCON-128 AEAD, ASCON-Hash and its SHA-256 fallback, AES-ECB/CBC, AES-CMAC, CRC32 and CRC32NK (JAMCRC), and nanopb: foreign primitives, modelled as function-valued parameters. Feeding CRC32 the header and then the proto is taken to equal the CRC32 of both together.
- Logging, `SecureZero` of key material and mutexes: none of them changes a result.
- Coroutine and future plumbing (`DoPend`, wakers, timeouts) and the transceive I/O inside the tag and reader code. Each exchange's outcome is a parameter.
- Clocks: the auth cache and the session state machine take the current time as a parameter.
- Ntag424Tag: GetCardUid, GetFileSettings, ChangeFileSettings, EnableRandomUid, SelectApplication and GetVersion follow the command/answer pattern of ReadData. They are not part of this model.
- DeviceSecrets: the default constructor over the Device OS HAL and the host's no-op EEPROM fallback: hardware I/O. The store is built over an explicit EEPROM array.
- DeviceSecrets.DeviceSecretsEeprom.constructor requires the 76-byte record to fit in the EEPROM at the offset. The source leaves out-of-range access to the EEPROM layer.
- DeviceSecrets.DeviceSecretsEeprom.Provision models a failing `pb_encode` as an encoding longer than 64 bytes.
- NtagKeyDiversification.DiversifiedKey takes the system name as its UTF-8 bytes. The encoding itself is not modelled.
- AsconTransport.EncryptFrame requires the device id to fit in 64 bits. Otherwise `struct.pack` raises an error that the source does not handle.
- AuthCache.AuthCache.Insert takes a user label of at most 64 characters. That is the capacity of the source's `InlineString<64>`, which fails an assertion on a longer label.
- SessionFsm.SessionFsm.AddObserver takes the source's `PW_CHECK` on the observer count as a precondition.
- AppState.StoreUid takes the source's `PW_CHECK` on the uid size as a precondition.
- In4818Led.In4818LedDriver.constructor: the strip length is the template's `uint16_t` parameter, and the SPI configuration is a parameter of `Init`. The base class's `static_assert`s (led_driver.h:41-42) confine the length to 1..1024 at compile time; the model admits any `uint16_t` length, and every contract of the driver holds for all of them.
- Assumed values from headers that are not part of this model:
  - `app_state.h` is not part of this model; `kMaxTagUidSize` is taken as 10.
  - `pn532_constants.h` is not part of this model; the maximum frame length is taken as 255 and the frame identifiers as D4 (host), D5 (PN532) and 7F (error).
- GatewayConnection.StepOnce hands the key store the 8 id bytes of the frame, as in the corrected derivation (see Findings). The source passes the integer id, which raises TypeError on the first frame of an unbound connection.
- GatewayConnection.Process hands the key store the 8 id bytes of the frame, as in the corrected derivation (see Findings). The source passes the integer id, which raises TypeError on the first frame of an unbound connection.
- GatewayConnection.ClientConnection.BindOrMatch hands the key store the 8 id bytes of the frame, as in the corrected derivation (see Findings). The source passes the integer id, which raises TypeError on the first frame of an unbound connection.
- GatewayConnection.ClientConnection.ProcessOne hands the key store the 8 id bytes of the frame, as in the corrected derivation (see Findings). The source passes the integer id, which raises TypeError on the first frame of an unbound connection.
- GatewayConnection.ClientConnection.ProcessBuffer hands the key store the 8 id bytes of the frame, as in the corrected derivation (see Findings). As in the source, each decryption is applied to the whole remaining buffer.
- In4818Led.In4818LedDriver.SetPixel takes the source's `PW_CHECK` on the index as a precondition: an index at or beyond the strip length halts the firmware.
- In4818Led.In4818LedDriver.GetPixel takes the source's `PW_CHECK` on the index as a precondition: an index at or beyond the strip length halts the firmware.
- MacoTypes.FirebaseIdFromString counts characters where the source's `string_view::size()` counts bytes; the two agree whenever the id is ASCII.
- Ntag424Crypto.CalculateSV takes the source's `PW_CHECK`s as a precondition: 16-byte RndA and RndB and a buffer of at least 32 bytes.
- Ntag424Crypto.RotateLeft1 takes the source's `PW_CHECK`s as a precondition: input and output of the same size, at least 1.
- Ntag424SecureMessaging.SecureMessaging.constructor takes the source's `PW_CHECK`s as a precondition: 16-byte session keys and a 4-byte TI.
- AppState.AppState.OnTagDetected takes the source's `PW_CHECK` on the uid size as a precondition.
- AppState.AppState.OnTagVerified takes the source's `PW_CHECK` on the NTAG uid size as a precondition.
- Ntag424Tag.AuthenticationResult follows the corrected status check and the corrected Part 3 length; see Findings: a Part 1 or Part 3 success word other than the expected one is an error here, where the source returns an OK status in place of a session; and the Part 3 answer is taken at its received length, where the source searches its 36-byte buffer for the first 91 00 or 91 AF pair and rejects as DataLoss a ciphertext that begins with one. The key provider is a record of functions without state, so the provider's `CancelAuthentication`, which the source calls when the Part 2 exchange fails (ntag424_tag.cc:180-183), when the Part 3 answer is short (198-201) and when its status is wrong (206-209), is not modelled. That call only zeroes and drops the provider's stored RndA and RndB; no result depends on it, because both providers cancel again at the start of the next challenge (local_key_provider.cc:44-45, cloud_key_provider.cc:44-45).
- Ntag424Tag.Ntag424Tag.Authenticate follows the corrected status check and the corrected Part 3 length; see Findings: as AuthenticationResult. As there, the provider's `CancelAuthentication` on the Part 2 and Part 3 error paths is not modelled.
- Ntag424Tag.Part3Answer follows the corrected Part 3 length; see Findings: it takes the answer at its received length, where the source searches its 36-byte buffer for the first 91 00 or 91 AF pair, which can lie inside the ciphertext.
- Ntag424Tag.AcceptedStatus follows the corrected status check; see Findings: 91 AF and 90 00 are refused here, where the source ends the command with an OK status.
- Ntag424Tag.WriteDataReply follows the corrected status check; see Findings: 91 AF and 90 00 are errors here, where the source reports success without a counter step or MAC check.
- Ntag424Tag.FinishWriteData follows the corrected status check; see Findings: as WriteDataReply.
- Ntag424Tag.Ntag424Tag.WriteData follows the corrected status check; see Findings: as WriteDataReply.
- Ntag424Tag.ChangeKeyReply follows the corrected status check; see Findings: 91 AF and 90 00 are errors here, where the source reports success; for key 0 it then also keeps the session.
- Ntag424Tag.Ntag424Tag.ChangeKey follows the corrected status check; see Findings: as ChangeKeyReply.
- Ntag424Tag.ReadDataReply follows the corrected status check; see Findings: 90 00 is an error here, where the source returns an OK status with no data.
- Ntag424Tag.ReadDataAnswer follows the corrected status check; see Findings: as ReadDataReply.
- Ntag424Tag.Ntag424Tag.ReadData follows the corrected status check; see Findings: as ReadDataReply.

## Findings

| source | as written | input that shows it | evidently intended | confidence | as-written member | corrected member |
|---|---|---|---|---|---|---|
| maco_gateway/maco_gateway/main.py:105-108 | the integer device id is passed to `get_device_key`, which computes `master_key + device_id` (key_store.py:61); adding an int to bytes raises TypeError, so the connection ends at its first frame | any frame of at least 40 bytes on a new connection | derive the key from the master key and the 8 id bytes of the frame | not executed; high | GatewayConnection.AsWrittenDerivationRaises | GatewayConnection.CorrectedDerivationInput |
| maco_firmware/modules/nfc_tag/ntag424/ntag424_tag.cc:579-585 | any word other than 91 00 is passed to `InterpretStatusWord`, which maps 91 AF and 90 00 to OK; WriteData (and ChangeKey at 1019-1023) then report success without advancing the counter or checking the response MAC | a WriteData answer ending 91 AF or 90 00 | a status word other than the expected one is an error | not executed; medium | Ntag424Tag.VerdictAsWrittenStopsWithSuccess | Ntag424Tag.CheckStatusAgreesOnErrors |
| maco_firmware/modules/nfc_tag/ntag424/ntag424_tag.cc:154-158 | after Part 1 any word other than 91 AF is passed to `InterpretStatusWord`, so 91 00 or 90 00 returns an OK status where authentication must return a session | a Part 1 answer of 18 bytes ending 91 00 or 90 00 | a status word other than the expected one is an error | not executed; medium | Ntag424Tag.AuthPart1VerdictAsWrittenStopsWithSuccess | Ntag424Tag.CheckStatusAgreesOnErrors |
| maco_firmware/modules/nfc_tag/ntag424/ntag424_tag.cc:204-209 | the length search stops at 91 AF as well as 91 00, and the check that follows passes any word other than 91 00 to `InterpretStatusWord`, so 91 AF returns an OK status where authentication must return a session | a Part 2 response of 32 bytes followed by 91 AF | a status word other than 91 00 is an error | not executed; medium | Ntag424Tag.Part3VerdictAsWrittenStopsWithSuccess | Ntag424Tag.CheckStatusAgreesOnErrors |
| maco_firmware/modules/nfc_tag/ntag424/ntag424_tag.cc:382-384 | after turning 91 AF away, any word other than 91 00 is passed to `InterpretStatusWord`, so 90 00 makes ReadData return an OK status with no data and no counter step | a ReadData answer ending 90 00 | a status word other than 91 00 is an error | not executed; medium | Ntag424Tag.VerdictAsWrittenStopsWithSuccess | Ntag424Tag.CheckStatusAgreesOnErrors |
| maco_firmware/modules/nfc_tag/ntag424/ntag424_tag.cc:186-202 | the answer's length is found as the first 91 00 or 91 AF pair from index 2, which can lie inside the 32-byte ciphertext | a part-3 answer whose ciphertext begins 91 00: length 2, rejected as DataLoss | take the length of the answer received and check its last two bytes | not executed; high | Ntag424Tag.Part3LengthAsWrittenStopsInsideCiphertext | Ntag424Tag.Part3AnswerAcceptsAnyCiphertext |
