// The machine-session state machine. A session starts when an authorised
// user taps a tag; a second tap by the same user asks for checkout, a tap by
// another user asks for a takeover. Running, CheckoutPending and
// TakeoverPending are the children of the Active state: entering Active
// tells every observer that a session started, leaving it that the session
// ended. An event a child does not handle goes to Active, which handles only
// UserAuthorized. Times are in milliseconds.

module SessionFsm {
  import opened MacoTypes

  /** Fifteen seconds to confirm a checkout or a takeover. */
  const CONFIRMATION_TIMEOUT: int := 15 * 1000
  const MAX_OBSERVERS: nat := 4

  /** The leaf states; Active is never current by itself. */
  datatype StateId = NoSession | Running | CheckoutPending | TakeoverPending

  datatype CheckoutReason = NoReason | SelfCheckout | OtherTag | UiCheckout | TimeoutReason

  datatype SessionInfo = SessionInfo(tagUid: TagUid, userId: FirebaseId, userLabel: UserLabel,
                                     authId: FirebaseId, startedAt: int)

  const NO_SESSION_INFO: SessionInfo := SessionInfo(Bytes.Zeros(TAG_UID_SIZE), EmptyFirebaseId(), "", EmptyFirebaseId(), 0)

  /** The usage record of an ended session. */
  datatype MachineUsage = MachineUsage(userId: FirebaseId, authId: FirebaseId, checkIn: int, checkOut: int,
                                       reason: CheckoutReason)

  datatype Event =
    | UserAuthorized(tagUid: TagUid, userId: FirebaseId, userLabel: UserLabel, authId: FirebaseId)
    | HoldConfirmed
    | UiConfirm
    | UiCancel
    | TagPresence(present: bool)
    | Timeout

  datatype Notification = Started(session: SessionInfo) | Ended(session: SessionInfo, usage: MachineUsage)

  /** What a handler returns: no change, or the state to move to. */
  datatype Target = Stay | Goto(id: StateId)

  /** The context fields the handlers read and write. */
  datatype Ctx = Ctx(state: StateId, activeSession: SessionInfo, pendingSession: SessionInfo,
                     checkoutReason: CheckoutReason, pendingSince: int, pendingDeadline: int,
                     hasPendingTakeover: bool)

  const INITIAL: Ctx := Ctx(NoSession, NO_SESSION_INFO, NO_SESSION_INFO, NoReason, 0, 0, false)

  function SessionOf(e: Event, now: int): SessionInfo
    requires e.UserAuthorized?
  {
    SessionInfo(e.tagUid, e.userId, e.userLabel, e.authId, now)
  }

  function UsageOf(session: SessionInfo, now: int, reason: CheckoutReason): MachineUsage {
    MachineUsage(session.userId, session.authId, session.startedAt, now, reason)
  }

  /** Active's handler: the same tag asks for checkout, another tag for a takeover. */
  function ActiveHandle(c: Ctx, e: Event, now: int): (Ctx, Target)
    requires e.UserAuthorized?
  {
    if e.tagUid == c.activeSession.tagUid then
      (c.(pendingSince := now, pendingDeadline := now + CONFIRMATION_TIMEOUT, checkoutReason := SelfCheckout),
       Goto(CheckoutPending))
    else
      (c.(pendingSession := SessionOf(e, now), pendingSince := now, pendingDeadline := now + CONFIRMATION_TIMEOUT),
       Goto(TakeoverPending))
  }

  /** The current state's handler, or Active's for an event the child passes up. */
  function Handle(c: Ctx, e: Event, now: int): (r: (Ctx, Target))
    // a handler only names the next state; the move itself is Transition's
    ensures r.0.state == c.state
    // NoSession and Running handle only UserAuthorized
    ensures (c.state == NoSession || c.state == Running) && !e.UserAuthorized? ==> r == (c, Stay)
    ensures c.state == NoSession && e.UserAuthorized? ==>
      r.1 == Goto(Running) && r.0.activeSession == SessionOf(e, now)
    // a tap while a session is active: the same tag asks for checkout, another for a takeover
    ensures c.state != NoSession && e.UserAuthorized? ==>
      (r.1 == Goto(CheckoutPending) <==> e.tagUid == c.activeSession.tagUid)
      && (r.1 == Goto(TakeoverPending) <==> e.tagUid != c.activeSession.tagUid)
      && r.0.activeSession == c.activeSession
    // only a confirmation in a pending state ends the session, and only a takeover chains
    ensures r.1 == Goto(NoSession) <==>
      (c.state == CheckoutPending || c.state == TakeoverPending) && (e.HoldConfirmed? || e.UiConfirm?)
    ensures r.0.hasPendingTakeover != c.hasPendingTakeover ==>
      c.state == TakeoverPending && r.1 == Goto(NoSession) && r.0.checkoutReason == OtherTag
  {
    match c.state
    case NoSession =>
      if e.UserAuthorized? then (c.(activeSession := SessionOf(e, now)), Goto(Running)) else (c, Stay)
    case Running =>
      if e.UserAuthorized? then ActiveHandle(c, e, now) else (c, Stay)
    case CheckoutPending =>
      (match e
       case UserAuthorized(_, _, _, _) => ActiveHandle(c, e, now)
       case HoldConfirmed => (c.(checkoutReason := SelfCheckout), Goto(NoSession))
       case UiConfirm => (c.(checkoutReason := UiCheckout), Goto(NoSession))
       case UiCancel => (c, Goto(Running))
       case TagPresence(present) => if present then (c, Stay) else (c, Goto(Running))
       case Timeout => (c, Goto(Running)))
    case TakeoverPending =>
      (match e
       case UserAuthorized(_, _, _, _) => ActiveHandle(c, e, now)
       case HoldConfirmed => (c.(checkoutReason := OtherTag, hasPendingTakeover := true), Goto(NoSession))
       case UiConfirm => (c.(checkoutReason := OtherTag, hasPendingTakeover := true), Goto(NoSession))
       case UiCancel => (c, Goto(Running))
       case TagPresence(_) => (c, Stay)
       case Timeout => (c, Goto(Running)))
  }

  /**
   * Moves to the target, running the exit and entry actions on the way: entering
   * Active notifies a start, leaving it an end; entering NoSession either clears
   * the session or, after a confirmed takeover, chains into Running with the
   * pending session.
   */
  function Transition(c: Ctx, t: Target, now: int): (r: (Ctx, seq<Notification>))
    ensures t.Stay? || t.id == c.state ==> r == (c, [])
    // observers hear of a move exactly when it crosses the boundary of Active
    ensures r.1 != [] <==> t.Goto? && t.id != c.state && (c.state == NoSession || t.id == NoSession)
    ensures c.state == NoSession && t.Goto? && t.id != NoSession ==>
      r.0 == c.(state := t.id) && r.1 == [Started(c.activeSession)]
    // leaving Active ends the session with its usage record, then clears it or starts the takeover
    ensures c.state != NoSession && t == Goto(NoSession) ==>
      r.1[0] == Ended(c.activeSession, UsageOf(c.activeSession, now, c.checkoutReason))
      && !r.0.hasPendingTakeover && r.0.pendingSession == NO_SESSION_INFO
      && (c.hasPendingTakeover ==>
            r.0.state == Running && r.0.activeSession == c.pendingSession
            && r.1 == [r.1[0], Started(c.pendingSession)])
      && (!c.hasPendingTakeover ==>
            r.0.state == NoSession && r.0.activeSession == NO_SESSION_INFO && r.0.checkoutReason == NoReason
            && |r.1| == 1)
    // a move between children of Active changes the state alone
    ensures c.state != NoSession && t.Goto? && t.id != NoSession ==> r == (c.(state := t.id), [])
  {
    if t.Stay? || t.id == c.state then (c, [])
    else if c.state == NoSession then (c.(state := t.id), [Started(c.activeSession)])
    else if t.id == NoSession then
      var ended := Ended(c.activeSession, UsageOf(c.activeSession, now, c.checkoutReason));
      if c.hasPendingTakeover then
        (c.(state := Running, activeSession := c.pendingSession, pendingSession := NO_SESSION_INFO,
            hasPendingTakeover := false),
         [ended, Started(c.pendingSession)])
      else
        (c.(state := NoSession, activeSession := NO_SESSION_INFO, pendingSession := NO_SESSION_INFO,
            checkoutReason := NoReason),
         [ended])
    else (c.(state := t.id), [])
  }

  /** One received event: the new context and the notifications sent to every observer, in order. */
  function Step(c: Ctx, e: Event, now: int): (r: (Ctx, seq<Notification>))
    requires !c.hasPendingTakeover
    // NoSession: an authorised user starts a session, nothing else matters
    ensures c.state == NoSession && e.UserAuthorized? ==>
      r.0.state == Running && r.0.activeSession == SessionOf(e, now) && r.1 == [Started(SessionOf(e, now))]
    ensures c.state == NoSession && !e.UserAuthorized? ==> r == (c, [])
    // a tap while a session is active
    ensures c.state != NoSession && e.UserAuthorized? && e.tagUid == c.activeSession.tagUid ==>
      r.0 == c.(state := CheckoutPending, pendingSince := now, pendingDeadline := now + CONFIRMATION_TIMEOUT,
                checkoutReason := SelfCheckout)
      && r.1 == []
    ensures c.state != NoSession && e.UserAuthorized? && e.tagUid != c.activeSession.tagUid ==>
      r.0 == c.(state := TakeoverPending, pendingSession := SessionOf(e, now), pendingSince := now,
                pendingDeadline := now + CONFIRMATION_TIMEOUT)
      && r.1 == []
    // Running ignores everything else
    ensures c.state == Running && !e.UserAuthorized? ==> r == (c, [])
    // CheckoutPending
    ensures c.state == CheckoutPending && (e.HoldConfirmed? || e.UiConfirm?) ==>
      var reason := if e.HoldConfirmed? then SelfCheckout else UiCheckout;
      r.0 == c.(state := NoSession, activeSession := NO_SESSION_INFO, pendingSession := NO_SESSION_INFO,
                checkoutReason := NoReason)
      && r.1 == [Ended(c.activeSession, UsageOf(c.activeSession, now, reason))]
    ensures c.state == CheckoutPending && (e.UiCancel? || e.Timeout? || e == TagPresence(false)) ==>
      r == (c.(state := Running), [])
    ensures c.state == CheckoutPending && e == TagPresence(true) ==> r == (c, [])
    // TakeoverPending
    ensures c.state == TakeoverPending && (e.HoldConfirmed? || e.UiConfirm?) ==>
      r.0.state == Running && r.0.activeSession == c.pendingSession && r.0.checkoutReason == OtherTag
      && r.1 == [Ended(c.activeSession, UsageOf(c.activeSession, now, OtherTag)), Started(c.pendingSession)]
    ensures c.state == TakeoverPending && (e.UiCancel? || e.Timeout?) ==> r == (c.(state := Running), [])
    ensures c.state == TakeoverPending && e.TagPresence? ==> r == (c, [])
    ensures !r.0.hasPendingTakeover
  {
    var (c1, t) := Handle(c, e, now);
    Transition(c1, t, now)
  }

  /** A log of notifications in which starts and ends alternate, each end naming the session that started. */
  predicate WellNested(log: seq<Notification>, c: Ctx) {
    (forall i | 0 <= i < |log| :: log[i].Started? <==> i % 2 == 0)
    && (forall i | 0 < i < |log| && log[i].Ended? :: log[i - 1] == Started(log[i].session))
    && (|log| % 2 == 1 <==> c.state != NoSession)
    && (c.state != NoSession ==> log[|log| - 1] == Started(c.activeSession))
    && !c.hasPendingTakeover
  }

  /** One event keeps the log well nested: at most one start and one end per session. */
  lemma StepKeepsWellNested(log: seq<Notification>, c: Ctx, e: Event, now: int)
    requires WellNested(log, c)
    ensures WellNested(log + Step(c, e, now).1, Step(c, e, now).0)
  {
    var (c', ns) := Step(c, e, now);
    var log' := log + ns;
    if c.state == NoSession {
      assert ns == [] || ns == [Started(c'.activeSession)];
    } else if c.state == TakeoverPending && (e.HoldConfirmed? || e.UiConfirm?) {
      assert log'[|log|] == Ended(c.activeSession, UsageOf(c.activeSession, now, OtherTag));
      assert log'[|log| - 1] == Started(c.activeSession);
    } else if c.state == CheckoutPending && (e.HoldConfirmed? || e.UiConfirm?) {
      assert log'[|log| - 1] == Started(c.activeSession);
    } else {
      assert ns == [];
      assert log' == log;
    }
  }

  /** The context and the notifications after a sequence of timed events. */
  function Run(c: Ctx, events: seq<(Event, int)>): (Ctx, seq<Notification>)
    requires !c.hasPendingTakeover
    decreases |events|
  {
    if events == [] then (c, [])
    else
      var (c1, ns) := Step(c, events[0].0, events[0].1);
      var (c2, more) := Run(c1, events[1..]);
      (c2, ns + more)
  }

  /** From any well-nested point, every run stays well nested. */
  lemma {:induction false} RunKeepsWellNested(log: seq<Notification>, c: Ctx, events: seq<(Event, int)>)
    requires WellNested(log, c)
    ensures WellNested(log + Run(c, events).1, Run(c, events).0)
    decreases |events|
  {
    if events != [] {
      var (c1, ns) := Step(c, events[0].0, events[0].1);
      StepKeepsWellNested(log, c, events[0].0, events[0].1);
      RunKeepsWellNested(log + ns, c1, events[1..]);
      assert log + ns + Run(c1, events[1..]).1 == log + Run(c, events).1;
    }
  }

  /**
   * From power-up, the observers hear starts and ends alternately, each end for
   * the session that last started, and a session is open exactly when the
   * machine is in a child of Active.
   */
  lemma NotificationsAlternate(events: seq<(Event, int)>)
    ensures WellNested(Run(INITIAL, events).1, Run(INITIAL, events).0)
  {
    RunKeepsWellNested([], INITIAL, events);
    assert [] + Run(INITIAL, events).1 == Run(INITIAL, events).1;
  }

  /** The session state as the UI sees it. */
  datatype SessionStateUi = UiNoSession | UiRunning | UiCheckoutPending | UiTakeoverPending

  function MapStateId(id: StateId): (ui: SessionStateUi)
    ensures ui == UiNoSession <==> id == NoSession
    ensures ui == UiRunning <==> id == Running
    ensures ui == UiCheckoutPending <==> id == CheckoutPending
  {
    match id
    case Running => UiRunning
    case CheckoutPending => UiCheckoutPending
    case TakeoverPending => UiTakeoverPending
    case NoSession => UiNoSession
  }

  datatype SessionSnapshotUi = SessionSnapshotUi(state: SessionStateUi, sessionUserLabel: UserLabel,
                                                 pendingUserLabel: UserLabel, pendingSince: int,
                                                 pendingDeadline: int, tagPresentSince: int, tagPresent: bool)

  type ObserverId = nat

  /** One notification handed to one observer. */
  datatype Delivery = Delivery(observer: ObserverId, notification: Notification)

  /** A notification handed to every observer in registration order. */
  function Broadcast(observers: seq<ObserverId>, n: Notification): (ds: seq<Delivery>)
    ensures |ds| == |observers|
    ensures forall i | 0 <= i < |ds| :: ds[i] == Delivery(observers[i], n)
  {
    seq(|observers|, i requires 0 <= i < |observers| => Delivery(observers[i], n))
  }

  function Deliveries(observers: seq<ObserverId>, ns: seq<Notification>): seq<Delivery> {
    if ns == [] then [] else Broadcast(observers, ns[0]) + Deliveries(observers, ns[1..])
  }

  class SessionFsm {
    var state: StateId
    var activeSession: SessionInfo
    var pendingSession: SessionInfo
    var checkoutReason: CheckoutReason
    var pendingSince: int
    var pendingDeadline: int
    var hasPendingTakeover: bool
    var tagPresent: bool
    var tagPresentSince: int
    var observers: seq<ObserverId>
    /** What the observers have been told, in order. */
    var delivered: seq<Delivery>
    var snapshot: SessionSnapshotUi

    function Context(): Ctx
      reads this
    {
      Ctx(state, activeSession, pendingSession, checkoutReason, pendingSince, pendingDeadline, hasPendingTakeover)
    }

    ghost predicate Valid()
      reads this
    {
      |observers| <= MAX_OBSERVERS && !hasPendingTakeover
    }

    /** Starts in NoSession; entering it clears the session data. */
    constructor()
      ensures Valid() && Context() == INITIAL
      ensures observers == [] && delivered == [] && !tagPresent
      ensures snapshot.state == UiNoSession && !snapshot.tagPresent
    {
      state := NoSession;
      activeSession := NO_SESSION_INFO;
      pendingSession := NO_SESSION_INFO;
      checkoutReason := NoReason;
      pendingSince := 0;
      pendingDeadline := 0;
      hasPendingTakeover := false;
      tagPresent := false;
      tagPresentSince := 0;
      observers := [];
      delivered := [];
      snapshot := SessionSnapshotUi(UiNoSession, "", "", 0, 0, 0, false);
    }

    /** Registers an observer; there is room for four. */
    method AddObserver(observer: ObserverId)
      requires Valid() && |observers| < MAX_OBSERVERS
      modifies this`observers
      ensures Valid() && observers == old(observers) + [observer]
    {
      observers := observers + [observer];
    }

    /** Hands the notification to each observer in turn. */
    method Notify(n: Notification)
      modifies this`delivered
      ensures delivered == old(delivered) + Broadcast(observers, n)
    {
      for i := 0 to |observers|
        invariant delivered == old(delivered) + Broadcast(observers[..i], n)
      {
        assert Broadcast(observers[..i + 1], n) == Broadcast(observers[..i], n) + [Delivery(observers[i], n)];
        delivered := delivered + [Delivery(observers[i], n)];
      }
      assert observers[..|observers|] == observers;
    }

    /** Runs the current state's handler, or Active's for an event passed up. */
    method ProcessEvent(e: Event, now: int) returns (t: Target)
      modifies this`activeSession, this`pendingSession, this`checkoutReason, this`pendingSince,
               this`pendingDeadline, this`hasPendingTakeover
      ensures (Context(), t) == Handle(old(Context()), e, now)
    {
      if state == NoSession {
        if e.UserAuthorized? {
          activeSession := SessionInfo(e.tagUid, e.userId, e.userLabel, e.authId, now);
          return Goto(Running);
        }
        return Stay;
      }
      if e.UserAuthorized? {
        if e.tagUid == activeSession.tagUid {
          pendingSince := now;
          pendingDeadline := now + CONFIRMATION_TIMEOUT;
          checkoutReason := SelfCheckout;
          return Goto(CheckoutPending);
        }
        pendingSession := SessionInfo(e.tagUid, e.userId, e.userLabel, e.authId, now);
        pendingSince := now;
        pendingDeadline := now + CONFIRMATION_TIMEOUT;
        return Goto(TakeoverPending);
      }
      if state == Running {
        return Stay;
      }
      match e {
        case HoldConfirmed =>
          if state == CheckoutPending {
            checkoutReason := SelfCheckout;
          } else {
            checkoutReason := OtherTag;
            hasPendingTakeover := true;
          }
          t := Goto(NoSession);
        case UiConfirm =>
          if state == CheckoutPending {
            checkoutReason := UiCheckout;
          } else {
            checkoutReason := OtherTag;
            hasPendingTakeover := true;
          }
          t := Goto(NoSession);
        case UiCancel =>
          t := Goto(Running);
        case TagPresence(present) =>
          t := if state == CheckoutPending && !present then Goto(Running) else Stay;
        case Timeout =>
          t := Goto(Running);
      }
    }

    /** NoSession's entry action; true when it chains into Running after a takeover. */
    method EnterNoSession() returns (chained: bool)
      modifies this`activeSession, this`pendingSession, this`checkoutReason, this`hasPendingTakeover
      ensures chained == old(hasPendingTakeover)
      ensures chained ==> activeSession == old(pendingSession) && pendingSession == NO_SESSION_INFO
                          && !hasPendingTakeover && checkoutReason == old(checkoutReason)
      ensures !chained ==> activeSession == NO_SESSION_INFO && pendingSession == NO_SESSION_INFO
                           && checkoutReason == NoReason && hasPendingTakeover == old(hasPendingTakeover)
    {
      if hasPendingTakeover {
        hasPendingTakeover := false;
        activeSession := pendingSession;
        pendingSession := NO_SESSION_INFO;
        return true;
      }
      activeSession := NO_SESSION_INFO;
      pendingSession := NO_SESSION_INFO;
      checkoutReason := NoReason;
      return false;
    }

    /** Moves to the target state, notifying on entering and leaving Active. */
    method TransitTo(t: Target, now: int)
      modifies this`state, this`activeSession, this`pendingSession, this`checkoutReason,
               this`hasPendingTakeover, this`delivered
      ensures Context() == Transition(old(Context()), t, now).0
      ensures delivered == old(delivered) + Deliveries(observers, Transition(old(Context()), t, now).1)
    {
      if t.Stay? || t.id == state {
        return;
      }
      if state == NoSession {
        Notify(Started(activeSession));
        state := t.id;
        assert Deliveries(observers, [Started(activeSession)]) == Broadcast(observers, Started(activeSession));
        return;
      }
      if t.id != NoSession {
        state := t.id;
        return;
      }
      ghost var ended := Ended(activeSession, UsageOf(activeSession, now, checkoutReason));
      Notify(Ended(activeSession, MachineUsage(activeSession.userId, activeSession.authId,
                                               activeSession.startedAt, now, checkoutReason)));
      state := NoSession;
      var chained := EnterNoSession();
      if chained {
        Notify(Started(activeSession));
        state := Running;
        assert [ended, Started(activeSession)][1..] == [Started(activeSession)];
        assert Deliveries(observers, [Started(activeSession)]) == Broadcast(observers, Started(activeSession));
        assert Deliveries(observers, [ended, Started(activeSession)])
            == Broadcast(observers, ended) + Broadcast(observers, Started(activeSession));
      } else {
        assert Deliveries(observers, [ended]) == Broadcast(observers, ended);
      }
    }

    /** Delivers one event to the machine. */
    method Receive(e: Event, now: int)
      requires Valid()
      modifies this`state, this`activeSession, this`pendingSession, this`checkoutReason, this`pendingSince,
               this`pendingDeadline, this`hasPendingTakeover, this`delivered
      ensures Valid()
      ensures Context() == Step(old(Context()), e, now).0
      ensures delivered == old(delivered) + Deliveries(observers, Step(old(Context()), e, now).1)
    {
      var t := ProcessEvent(e, now);
      TransitTo(t, now);
    }

    /** Records whether a tag is in the field, and since when it is. */
    method SetTagPresent(present: bool, now: int)
      modifies this`tagPresent, this`tagPresentSince
      ensures tagPresent == present
      ensures tagPresentSince == if present then now else old(tagPresentSince)
    {
      tagPresent := present;
      if present {
        tagPresentSince := now;
      }
    }

    /** Copies the state the UI shows into the snapshot. */
    method SyncSnapshot()
      modifies this`snapshot
      ensures snapshot == SessionSnapshotUi(MapStateId(state), activeSession.userLabel, pendingSession.userLabel,
                                            pendingSince, pendingDeadline, tagPresentSince, tagPresent)
    {
      snapshot := SessionSnapshotUi(MapStateId(state), activeSession.userLabel, pendingSession.userLabel,
                                    pendingSince, pendingDeadline, tagPresentSince, tagPresent);
    }

    method GetSnapshot() returns (out: SessionSnapshotUi)
      ensures out == snapshot
    {
      out := snapshot;
    }

    /** A tag came into the field. */
    method OnTagDetected(now: int)
      requires Valid()
      modifies this
      ensures Valid() && tagPresent && tagPresentSince == now
      ensures Context() == Step(old(Context()), TagPresence(true), now).0
      ensures delivered == old(delivered) + Deliveries(observers, Step(old(Context()), TagPresence(true), now).1)
      ensures observers == old(observers) && snapshot.state == MapStateId(state) && snapshot.tagPresent
      ensures snapshot == SessionSnapshotUi(MapStateId(state), activeSession.userLabel, pendingSession.userLabel,
                                            pendingSince, pendingDeadline, tagPresentSince, tagPresent)
    {
      SetTagPresent(true, now);
      Receive(TagPresence(true), now);
      SyncSnapshot();
    }

    /** The tag left the field. */
    method OnTagRemoved(now: int)
      requires Valid()
      modifies this
      ensures Valid() && !tagPresent
      ensures Context() == Step(old(Context()), TagPresence(false), now).0
      ensures delivered == old(delivered) + Deliveries(observers, Step(old(Context()), TagPresence(false), now).1)
      ensures observers == old(observers) && snapshot.state == MapStateId(state) && !snapshot.tagPresent
      ensures tagPresentSince == old(tagPresentSince)
      ensures snapshot == SessionSnapshotUi(MapStateId(state), activeSession.userLabel, pendingSession.userLabel,
                                            pendingSince, pendingDeadline, tagPresentSince, tagPresent)
    {
      SetTagPresent(false, now);
      Receive(TagPresence(false), now);
      SyncSnapshot();
    }

    /** The cloud authorised the user of a tag. */
    method OnAuthorized(tagUid: TagUid, userId: FirebaseId, userLabel: UserLabel, authId: FirebaseId, now: int)
      requires Valid()
      modifies this
      ensures Valid()
      ensures Context() == Step(old(Context()), UserAuthorized(tagUid, userId, userLabel, authId), now).0
      ensures delivered == old(delivered)
                           + Deliveries(observers, Step(old(Context()), UserAuthorized(tagUid, userId, userLabel, authId), now).1)
      ensures observers == old(observers) && snapshot.state == MapStateId(state)
      ensures tagPresent == old(tagPresent) && tagPresentSince == old(tagPresentSince)
      ensures snapshot == SessionSnapshotUi(MapStateId(state), activeSession.userLabel, pendingSession.userLabel,
                                            pendingSince, pendingDeadline, tagPresentSince, tagPresent)
    {
      Receive(UserAuthorized(tagUid, userId, userLabel, authId), now);
      SyncSnapshot();
    }
  }
}
