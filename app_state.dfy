// The application's view of the tag in the field, for the UI: which step of
// detection, verification and authorisation it is at, the uid the RF layer
// reported, the uid read from the NTAG after verification, and the user
// label and authorisation id once the cloud answered.

module AppState {
  import opened Bytes
  import opened MacoTypes

  /** The uid buffers hold at most 10 bytes. */
  const MAX_TAG_UID_SIZE: nat := 10

  datatype AppStateId = Idle | TagDetected | Verifying | Genuine | UnknownTag | Authorizing | Authorized | Unauthorized

  /** A fixed 10-byte buffer and the number of bytes in use; the bytes after those are left as they were. */
  datatype UidBuffer = UidBuffer(bytes: seq<byte>, size: nat)

  predicate WellFormed(b: UidBuffer) {
    |b.bytes| == MAX_TAG_UID_SIZE && b.size <= MAX_TAG_UID_SIZE
  }

  const EMPTY_UID: UidBuffer := UidBuffer(Zeros(MAX_TAG_UID_SIZE), 0)

  /** The uid the buffer holds. */
  function Uid(b: UidBuffer): (uid: seq<byte>)
    requires WellFormed(b)
    ensures |uid| == b.size
  {
    b.bytes[..b.size]
  }

  /** Stores the uid at the front of the buffer and sets its size. */
  function StoreUid(b: UidBuffer, uid: seq<byte>): (r: UidBuffer)
    requires WellFormed(b) && |uid| <= MAX_TAG_UID_SIZE
    ensures WellFormed(r) && Uid(r) == uid
    ensures r.bytes[|uid|..] == b.bytes[|uid|..]
  {
    UidBuffer(uid + b.bytes[|uid|..], |uid|)
  }

  datatype AppStateSnapshot = AppStateSnapshot(state: AppStateId, tagUid: UidBuffer, ntagUid: UidBuffer,
                                               userLabel: UserLabel, authId: FirebaseId)

  class AppState {
    var state: AppStateId
    var tagUid: UidBuffer
    var ntagUid: UidBuffer
    var userLabel: UserLabel
    var authId: FirebaseId

    /**
     * The buffers are well formed; while idle nothing is held, and just after a
     * detection nothing but the RF uid is.
     */
    ghost predicate Valid()
      reads this
    {
      WellFormed(tagUid) && WellFormed(ntagUid)
      && (state == Idle ==> tagUid.size == 0 && ntagUid.size == 0 && userLabel == "" && IsEmpty(authId))
      && (state == TagDetected ==> ntagUid.size == 0 && userLabel == "" && IsEmpty(authId))
    }

    constructor()
      ensures Valid() && state == Idle && tagUid == EMPTY_UID && ntagUid == EMPTY_UID
    {
      state := Idle;
      tagUid := EMPTY_UID;
      ntagUid := EMPTY_UID;
      userLabel := "";
      authId := EmptyFirebaseId();
    }

    method GetSnapshot() returns (out: AppStateSnapshot)
      ensures out == AppStateSnapshot(state, tagUid, ntagUid, userLabel, authId)
    {
      out := AppStateSnapshot(state, tagUid, ntagUid, userLabel, authId);
    }

    /** A new tag: its RF uid is kept, everything learnt about the previous tag is dropped. */
    method OnTagDetected(uid: seq<byte>)
      requires Valid() && |uid| <= MAX_TAG_UID_SIZE
      modifies this
      ensures Valid() && state == TagDetected
      ensures Uid(tagUid) == uid && tagUid == StoreUid(old(tagUid), uid)
      ensures ntagUid == EMPTY_UID && userLabel == "" && IsEmpty(authId)
    {
      state := TagDetected;
      var bytes := tagUid.bytes;
      tagUid := UidBuffer(uid + bytes[|uid|..], |uid|);
      ntagUid := EMPTY_UID;
      userLabel := "";
      authId := EmptyFirebaseId();
    }

    method OnVerifying()
      requires Valid()
      modifies this`state
      ensures Valid() && state == Verifying
    {
      state := Verifying;
    }

    /** The tag proved genuine: the NTAG's own uid is kept beside the RF uid. */
    method OnTagVerified(ntagUidBytes: seq<byte>)
      requires Valid() && |ntagUidBytes| <= MAX_TAG_UID_SIZE
      modifies this`state, this`ntagUid
      ensures Valid() && state == Genuine
      ensures Uid(ntagUid) == ntagUidBytes && ntagUid == StoreUid(old(ntagUid), ntagUidBytes)
    {
      state := Genuine;
      ntagUid := StoreUid(ntagUid, ntagUidBytes);
    }

    method OnUnknownTag()
      requires Valid()
      modifies this`state
      ensures Valid() && state == UnknownTag
    {
      state := UnknownTag;
    }

    method OnAuthorizing()
      requires Valid()
      modifies this`state
      ensures Valid() && state == Authorizing
    {
      state := Authorizing;
    }

    /** The cloud authorised the user: the label and the authorisation id are kept. */
    method OnAuthorized(newLabel: UserLabel, newAuthId: FirebaseId)
      requires Valid()
      modifies this`state, this`userLabel, this`authId
      ensures Valid() && state == Authorized && userLabel == newLabel && authId == newAuthId
    {
      state := Authorized;
      userLabel := newLabel;
      authId := newAuthId;
    }

    method OnUnauthorized()
      requires Valid()
      modifies this`state
      ensures Valid() && state == Unauthorized
    {
      state := Unauthorized;
    }

    /** The tag left: back to idle with every field cleared. */
    method OnTagRemoved()
      requires Valid()
      modifies this
      ensures Valid() && state == Idle && tagUid == EMPTY_UID && ntagUid == EMPTY_UID
      ensures userLabel == "" && IsEmpty(authId)
    {
      state := Idle;
      tagUid := EMPTY_UID;
      ntagUid := EMPTY_UID;
      userLabel := "";
      authId := EmptyFirebaseId();
    }
  }
}
