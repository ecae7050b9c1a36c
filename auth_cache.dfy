// The authorisation cache: eight slots mapping a tag uid to the result of a
// cloud authorisation, each with an expiry time. A lookup at or after the
// expiry drops the entry; an insert updates the tag's entry, fills an empty
// slot, or evicts the entry inserted earliest. Times are in milliseconds.

module AuthCache {
  import opened Wrappers
  import opened MacoTypes

  const CAPACITY: nat := 8
  /** Four hours. */
  const DEFAULT_TTL: int := 4 * 60 * 60 * 1000

  /** What a lookup hands back. */
  datatype CachedAuth = CachedAuth(authId: FirebaseId, userLabel: UserLabel)

  datatype Entry = Entry(tagUid: TagUid, authId: FirebaseId, userLabel: UserLabel,
                         insertedAt: int, expiry: int, valid: bool)

  /** The value a slot starts with. */
  const EMPTY_ENTRY: Entry := Entry(Bytes.Zeros(TAG_UID_SIZE), EmptyFirebaseId(), "", 0, 0, false)

  predicate Matches(e: Entry, uid: TagUid) {
    e.valid && e.tagUid == uid
  }

  /** No two valid entries are for the same tag. */
  predicate Unique(es: seq<Entry>) {
    forall i, j | 0 <= i < j < |es| :: es[i].valid && es[j].valid ==> es[i].tagUid != es[j].tagUid
  }

  /** The first valid entry for the tag, if any. */
  function IndexOf(es: seq<Entry>, uid: TagUid): (r: Option<nat>)
    ensures r.Some? ==> r.value < |es| && Matches(es[r.value], uid)
                        && forall k | 0 <= k < r.value :: !Matches(es[k], uid)
    ensures r.None? ==> forall k | 0 <= k < |es| :: !Matches(es[k], uid)
  {
    if |es| == 0 then None
    else
      match IndexOf(es[..|es| - 1], uid)
      case Some(i) => Some(i)
      case None => if Matches(es[|es| - 1], uid) then Some(|es| - 1) else None
  }

  /** Any first match is the one IndexOf finds. */
  lemma IndexOfIs(es: seq<Entry>, uid: TagUid, i: nat)
    requires i < |es| && Matches(es[i], uid) && forall k | 0 <= k < i :: !Matches(es[k], uid)
    ensures IndexOf(es, uid) == Some(i)
  {
  }

  /** The first slot that holds no valid entry, if any. */
  function FreeSlot(es: seq<Entry>): (r: Option<nat>)
    ensures r.Some? ==> r.value < |es| && !es[r.value].valid
                        && forall k | 0 <= k < r.value :: es[k].valid
    ensures r.None? ==> forall k | 0 <= k < |es| :: es[k].valid
  {
    if |es| == 0 then None
    else
      match FreeSlot(es[..|es| - 1])
      case Some(i) => Some(i)
      case None => if !es[|es| - 1].valid then Some(|es| - 1) else None
  }

  /** The first slot with the smallest insertion time. */
  function Oldest(es: seq<Entry>): (o: nat)
    requires |es| > 0
    ensures o < |es|
    ensures forall k | 0 <= k < |es| :: es[o].insertedAt <= es[k].insertedAt
    ensures forall k | 0 <= k < o :: es[k].insertedAt > es[o].insertedAt
  {
    if |es| == 1 then 0
    else
      var o := Oldest(es[..|es| - 1]);
      if es[|es| - 1].insertedAt < es[o].insertedAt then |es| - 1 else o
  }

  /** What a lookup returns: the entry's result while `now` is before its expiry. */
  function LookupResult(es: seq<Entry>, uid: TagUid, now: int): Option<CachedAuth> {
    match IndexOf(es, uid)
    case None => None
    case Some(i) => if now >= es[i].expiry then None else Some(CachedAuth(es[i].authId, es[i].userLabel))
  }

  /** The slots after a lookup: an expired entry it finds is invalidated. */
  function AfterLookup(es: seq<Entry>, uid: TagUid, now: int): seq<Entry> {
    match IndexOf(es, uid)
    case None => es
    case Some(i) => if now >= es[i].expiry then es[i := es[i].(valid := false)] else es
  }

  /** The slot an insert writes: the tag's own entry, else a free slot, else the oldest. */
  function InsertSlot(es: seq<Entry>, uid: TagUid): nat
    requires |es| > 0
  {
    match IndexOf(es, uid)
    case Some(i) => i
    case None =>
      match FreeSlot(es)
      case Some(j) => j
      case None => Oldest(es)
  }

  function NewEntry(uid: TagUid, authId: FirebaseId, userLabel: UserLabel, now: int, ttl: int): Entry {
    Entry(uid, authId, userLabel, now, now + ttl, true)
  }

  /** The slots after an insert. */
  function AfterInsert(es: seq<Entry>, uid: TagUid, authId: FirebaseId, userLabel: UserLabel,
                       now: int, ttl: int): seq<Entry>
    requires |es| > 0
  {
    es[InsertSlot(es, uid) := NewEntry(uid, authId, userLabel, now, ttl)]
  }

  function AfterClear(es: seq<Entry>): seq<Entry> {
    seq(|es|, k requires 0 <= k < |es| => es[k].(valid := false))
  }

  /** Once inserted, a tag is found with the new result until now + ttl, and not from then on. */
  lemma LookupAfterInsert(es: seq<Entry>, uid: TagUid, authId: FirebaseId, userLabel: UserLabel,
                          now: int, ttl: int, t: int)
    requires |es| > 0
    ensures LookupResult(AfterInsert(es, uid, authId, userLabel, now, ttl), uid, t)
            == if t >= now + ttl then None else Some(CachedAuth(authId, userLabel))
  {
    var after := AfterInsert(es, uid, authId, userLabel, now, ttl);
    var s := InsertSlot(es, uid);
    assert forall k | 0 <= k < s :: !Matches(after[k], uid) by {
      forall k | 0 <= k < s
        ensures !Matches(after[k], uid)
      {
        assert after[k] == es[k];
        if IndexOf(es, uid).None? {
          assert !Matches(es[k], uid);
        }
      }
    }
    IndexOfIs(after, uid, s);
  }

  /** An insert keeps at most one valid entry per tag. */
  lemma InsertKeepsUnique(es: seq<Entry>, uid: TagUid, authId: FirebaseId, userLabel: UserLabel, now: int, ttl: int)
    requires |es| > 0 && Unique(es)
    ensures Unique(AfterInsert(es, uid, authId, userLabel, now, ttl))
  {
    var after := AfterInsert(es, uid, authId, userLabel, now, ttl);
    var s := InsertSlot(es, uid);
    forall i, j | 0 <= i < j < |after| && after[i].valid && after[j].valid
      ensures after[i].tagUid != after[j].tagUid
    {
      if i == s || j == s {
        var other := if i == s then j else i;
        assert after[other] == es[other];
        match IndexOf(es, uid)
        case None =>
          assert !Matches(es[other], uid);
        case Some(m) =>
          assert m == s;
          if es[other].tagUid == uid {
            assert Matches(es[other], uid) && Matches(es[s], uid);
            assert other < s || s < other;
          }
      }
    }
  }

  /** An insert leaves the lookup of every other tag alone, unless it evicted that tag's entry. */
  lemma InsertKeepsOtherTags(es: seq<Entry>, uid: TagUid, authId: FirebaseId, userLabel: UserLabel,
                             now: int, ttl: int, other: TagUid, t: int)
    requires |es| > 0 && other != uid
    requires IndexOf(es, other) != Some(InsertSlot(es, uid))
    ensures LookupResult(AfterInsert(es, uid, authId, userLabel, now, ttl), other, t) == LookupResult(es, other, t)
  {
    var after := AfterInsert(es, uid, authId, userLabel, now, ttl);
    var s := InsertSlot(es, uid);
    match IndexOf(es, other)
    case None =>
      assert forall k | 0 <= k < |after| :: !Matches(after[k], other) by {
        forall k | 0 <= k < |after|
          ensures !Matches(after[k], other)
        {
          if k != s {
            assert after[k] == es[k];
          }
        }
      }
    case Some(m) =>
      assert after[m] == es[m];
      assert forall k | 0 <= k < m :: !Matches(after[k], other) by {
        forall k | 0 <= k < m
          ensures !Matches(after[k], other)
        {
          if k != s {
            assert after[k] == es[k];
          }
        }
      }
      IndexOfIs(after, other, m);
  }

  /** While the tag has an entry or a slot is free, inserting it leaves every other tag's lookup alone. */
  lemma InsertWithRoomKeepsOtherTags(es: seq<Entry>, uid: TagUid, authId: FirebaseId, userLabel: UserLabel,
                                     now: int, ttl: int, other: TagUid, t: int)
    requires |es| > 0 && other != uid
    requires IndexOf(es, uid).Some? || FreeSlot(es).Some?
    ensures LookupResult(AfterInsert(es, uid, authId, userLabel, now, ttl), other, t) == LookupResult(es, other, t)
  {
    var s := InsertSlot(es, uid);
    assert Matches(es[s], uid) || !es[s].valid;
    InsertKeepsOtherTags(es, uid, authId, userLabel, now, ttl, other, t);
  }

  /** When every slot is valid and the tag is new, the first entry with the smallest insertion time is replaced. */
  lemma InsertWhenFullEvictsOldest(es: seq<Entry>, uid: TagUid, authId: FirebaseId, userLabel: UserLabel, now: int, ttl: int)
    requires |es| > 0 && IndexOf(es, uid).None?
    requires forall k | 0 <= k < |es| :: es[k].valid
    ensures var s := InsertSlot(es, uid);
      s < |es|
      && (forall k | 0 <= k < |es| :: es[s].insertedAt <= es[k].insertedAt)
      && (forall k | 0 <= k < s :: es[k].insertedAt > es[s].insertedAt)
      && AfterInsert(es, uid, authId, userLabel, now, ttl) == es[s := NewEntry(uid, authId, userLabel, now, ttl)]
  {
    assert FreeSlot(es).None?;
  }

  /** A lookup keeps at most one valid entry per tag. */
  lemma LookupKeepsUnique(es: seq<Entry>, uid: TagUid, now: int)
    requires Unique(es)
    ensures Unique(AfterLookup(es, uid, now))
  {
  }

  /** Once a lookup has found the tag's entry expired, the tag is not found again at any time. */
  lemma ExpiredEntryStaysGone(es: seq<Entry>, uid: TagUid, now: int, t: int)
    requires Unique(es) && IndexOf(es, uid).Some? && LookupResult(es, uid, now).None?
    ensures LookupResult(AfterLookup(es, uid, now), uid, t).None?
  {
    var i := IndexOf(es, uid).value;
    var after := AfterLookup(es, uid, now);
    assert after == es[i := es[i].(valid := false)];
    forall k | 0 <= k < |after|
      ensures !Matches(after[k], uid)
    {
      if k != i {
        assert after[k] == es[k];
      }
    }
    assert IndexOf(after, uid).None?;
  }

  /** After a clear no tag is found. */
  lemma ClearForgetsAll(es: seq<Entry>, uid: TagUid, t: int)
    ensures LookupResult(AfterClear(es), uid, t).None?
  {
    var after := AfterClear(es);
    assert forall k | 0 <= k < |after| :: !Matches(after[k], uid);
  }

  class AuthCache {
    const entries: array<Entry>

    ghost predicate Valid()
      reads this, entries
    {
      entries.Length == CAPACITY && Unique(entries[..])
    }

    constructor()
      ensures Valid() && fresh(entries)
      ensures forall k | 0 <= k < entries.Length :: !entries[k].valid
    {
      entries := new Entry[CAPACITY](_ => EMPTY_ENTRY);
    }

    /** Scans the slots for the tag; an expired entry is invalidated on the way out. */
    method Lookup(uid: TagUid, now: int) returns (r: Option<CachedAuth>)
      requires Valid()
      modifies entries
      ensures r == LookupResult(old(entries[..]), uid, now)
      ensures entries[..] == AfterLookup(old(entries[..]), uid, now)
      ensures Valid()
    {
      LookupKeepsUnique(entries[..], uid, now);
      for i := 0 to entries.Length
        invariant forall k | 0 <= k < i :: !Matches(entries[k], uid)
        invariant entries[..] == old(entries[..])
      {
        var entry := entries[i];
        if !entry.valid {
          continue;
        }
        if entry.tagUid == uid {
          assert IndexOf(entries[..], uid) == Some(i);
          if now >= entry.expiry {
            entries[i] := entry.(valid := false);
            return None;
          }
          return Some(CachedAuth(entry.authId, entry.userLabel));
        }
      }
      assert IndexOf(entries[..], uid).None?;
      return None;
    }

    /** Updates the tag's entry, else fills the first free slot, else replaces the oldest entry. */
    method Insert(uid: TagUid, authId: FirebaseId, userLabel: UserLabel, now: int, ttl: int := DEFAULT_TTL)
      requires Valid()
      modifies entries
      ensures entries[..] == AfterInsert(old(entries[..]), uid, authId, userLabel, now, ttl)
      ensures Valid()
    {
      InsertKeepsUnique(entries[..], uid, authId, userLabel, now, ttl);
      var entry := NewEntry(uid, authId, userLabel, now, ttl);
      for i := 0 to entries.Length
        invariant forall k | 0 <= k < i :: !Matches(entries[k], uid)
      {
        if entries[i].valid && entries[i].tagUid == uid {
          assert IndexOf(entries[..], uid) == Some(i);
          entries[i] := entry;
          return;
        }
      }
      assert IndexOf(entries[..], uid).None?;
      for i := 0 to entries.Length
        invariant forall k | 0 <= k < i :: entries[k].valid
      {
        if !entries[i].valid {
          assert FreeSlot(entries[..]) == Some(i);
          entries[i] := entry;
          return;
        }
      }
      assert FreeSlot(entries[..]).None?;
      var oldest := 0;
      for i := 0 to entries.Length
        invariant oldest == if i == 0 then 0 else Oldest(entries[..i])
      {
        assert entries[..i + 1][..i] == entries[..i];
        if entries[i].insertedAt < entries[oldest].insertedAt {
          oldest := i;
        }
      }
      assert entries[..entries.Length] == entries[..];
      entries[oldest] := entry;
    }

    /** Invalidates every slot. */
    method Clear()
      requires Valid()
      modifies entries
      ensures entries[..] == AfterClear(old(entries[..]))
      ensures Valid()
    {
      for i := 0 to entries.Length
        invariant entries[..i] == AfterClear(old(entries[..]))[..i]
        invariant entries[i..] == old(entries[i..])
      {
        entries[i] := entries[i].(valid := false);
      }
    }
  }
}
