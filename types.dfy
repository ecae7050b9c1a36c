// The firmware's domain identifiers. Each wraps a fixed-size byte array or a
// bounded string and is validated when it is built; the wrapped value is a
// subset type here, so every value of it has the size the factory checked.

module MacoTypes {
  import opened Wrappers
  import opened Bytes
  import opened PwStatus

  const TAG_UID_SIZE: nat := 7
  const FIREBASE_ID_MAX_SIZE: nat := 20
  const DEVICE_ID_SIZE: nat := 12
  const KEY_BYTES_SIZE: nat := 16
  const USER_LABEL_CAPACITY: nat := 64

  /** The 7-byte unique identifier of an NTAG 424 DNA tag. */
  type TagUid = s: seq<byte> | |s| == TAG_UID_SIZE witness Zeros(TAG_UID_SIZE)

  /** A Firebase document id of at most 20 characters. */
  type FirebaseId = s: string | |s| <= FIREBASE_ID_MAX_SIZE

  /** A user's display label, held in a 64-character inline string. */
  type UserLabel = s: string | |s| <= USER_LABEL_CAPACITY

  /** The 12-byte hardware id of a P2 device. */
  type DeviceId = s: seq<byte> | |s| == DEVICE_ID_SIZE witness Zeros(DEVICE_ID_SIZE)

  /** A 16-byte AES-128 key. */
  type KeyBytes = s: seq<byte> | |s| == KEY_BYTES_SIZE witness Zeros(KEY_BYTES_SIZE)

  /** Succeeds exactly for 7 bytes, and then holds those bytes. */
  function TagUidFromBytes(bytes: seq<byte>): (r: Result<TagUid, Code>)
    ensures r.Ok? <==> |bytes| == TAG_UID_SIZE
    ensures r.Ok? ==> r.value == bytes
    ensures r.Err? ==> r.error == InvalidArgument
  {
    if |bytes| != TAG_UID_SIZE then Err(InvalidArgument)
    else
      var value: TagUid := bytes;
      Ok(value)
  }

  /** Succeeds exactly for 12 bytes, and then holds those bytes. */
  function DeviceIdFromBytes(bytes: seq<byte>): (r: Result<DeviceId, Code>)
    ensures r.Ok? <==> |bytes| == DEVICE_ID_SIZE
    ensures r.Ok? ==> r.value == bytes
    ensures r.Err? ==> r.error == InvalidArgument
  {
    if |bytes| != DEVICE_ID_SIZE then Err(InvalidArgument)
    else
      var value: DeviceId := bytes;
      Ok(value)
  }

  /** Succeeds exactly for 16 bytes, and then holds those bytes. */
  function KeyBytesFromBytes(bytes: seq<byte>): (r: Result<KeyBytes, Code>)
    ensures r.Ok? <==> |bytes| == KEY_BYTES_SIZE
    ensures r.Ok? ==> r.value == bytes
    ensures r.Err? ==> r.error == InvalidArgument
  {
    if |bytes| != KEY_BYTES_SIZE then Err(InvalidArgument)
    else
      var value: KeyBytes := bytes;
      Ok(value)
  }

  /** Fails only for a string longer than 20 characters; otherwise keeps it as given. */
  function FirebaseIdFromString(str: string): (r: Result<FirebaseId, Code>)
    ensures r.Err? <==> |str| > FIREBASE_ID_MAX_SIZE
    ensures r.Ok? ==> r.value == str
    ensures r.Err? ==> r.error == InvalidArgument
  {
    if |str| > FIREBASE_ID_MAX_SIZE then Err(InvalidArgument)
    else
      var value: FirebaseId := str;
      Ok(value)
  }

  /** The empty id. */
  function EmptyFirebaseId(): (id: FirebaseId)
    ensures IsEmpty(id)
  {
    ""
  }

  predicate IsEmpty(id: FirebaseId) {
    |id| == 0
  }
}
