/**
 * The IDLE wake-up protocol as a transition system: the server's EXISTS pushes,
 * the unilateral-data handlers (capture under the lock, send outside it), the
 * IDLE loop goroutine, and the session loop (DONE, SEARCH, FETCH, re-arm).
 *
 * Messages of the mailbox are numbered by UID, 1 to `arrived`.  An EXISTS
 * notification carries no UID; `upTo` is a history variable that records which
 * messages its push announced.
 */
module IdleProtocol {
  import opened Common
  import opened ImapClient
  import Runs

  const NOTIFS_CAPACITY := 8

  datatype Handler =
    | Entered(upTo: nat)             // before the first critical section
    | Captured(upTo: nat, ch: nat)   // lock released, about to send on ch
    | Overflowed(upTo: nat)          // ch was full, about to set idleMissed

  datatype Loop = NoLoop | Selecting | Forwarding

  datatype Session =
    | CatchingUp               // dialled; the folder row is looked up next
    | Syncing                  // syncFolder running, its UID SEARCH still to come
    | Fetching(found: nat)     // SEARCH answered with everything up to `found`
    | Arming                   // syncFolder returned, Idle about to take the lock
    | Replaying(missed: bool)  // registered; the missed notification not yet replayed
    | Waiting                  // select on notifs
    | Deciding                 // EXISTS received, folder looked up next
    | Stopping                 // stopIdle called, waiting for the loop to exit

  datatype State = State(
    arrived: nat,              // messages in the mailbox
    pushed: nat,               // messages announced by some EXISTS
    stored: nat,               // messages in the database
    wire: seq<nat>,            // EXISTS responses not yet read
    handlers: seq<Handler>,    // handler invocations in flight
    slot: Mailslot,
    loop: Loop,
    notifs: nat,               // notifications buffered for the session
    session: Session,
    wakeupDropped: bool)       // history: a failed lookup dropped the last notification since the last SEARCH

  datatype Action =
    | Arrive | Push | Bounce | LookupFails
    | ReadExists | HandlerLock(i: nat) | HandlerSend(i: nat) | HandlerMiss(i: nat)
    | LookupOk | Search | Store | Arm | Replay
    | LoopTake | LoopForward | Receive | LoopExit

  function Init(): State
  {
    State(0, 0, 0, [], [], Mailslot(None, false, []), NoLoop, 0, CatchingUp, false)
  }

  /** The one state in which the session waits for nobody: Idle's replay send has
      no reader yet and the fresh channel was filled between its registration and
      the send. */
  predicate ReplayBlocked(s: State)
  {
    s.session == Replaying(true) && s.slot.Buffered() == INTERNAL_CAPACITY
  }

  predicate Carries(s: State, h: Handler, u: nat)
  {
    match h
    case Entered(n) => u <= n
    case Captured(n, ch) => u <= n && s.slot.registered == Some(ch)
    case Overflowed(_) => false
  }

  /** Notifications on their way from the registered channel to the session. */
  function Pipeline(s: State): nat
  {
    s.slot.Buffered() + (if s.loop.Forwarding? then 1 else 0) + s.notifs
  }

  /** A lookup that fails now does no harm: everything announced is stored, or another
      notification that announces it is still on its way. */
  predicate StillWoken(s: State)
  {
    || s.stored >= s.pushed
    || (if s.session.CatchingUp? then s.slot.missed else Pipeline(s) > 0)
    || (exists i :: 0 <= i < |s.wire| && s.wire[i] >= s.pushed)
    || (exists i :: 0 <= i < |s.handlers| && Carries(s, s.handlers[i], s.pushed))
  }

  predicate Enabled(s: State, a: Action)
  {
    match a
    case Arrive => true
    case Push => s.pushed < s.arrived
    // the replay send waits for nobody, not even the session's context
    case Bounce => !ReplayBlocked(s)
    case LookupFails => s.session.CatchingUp? || s.session.Deciding?
    case ReadExists => s.wire != []
    case HandlerLock(i) => i < |s.handlers| && s.handlers[i].Entered?
    case HandlerSend(i) => i < |s.handlers| && s.handlers[i].Captured?
    case HandlerMiss(i) => i < |s.handlers| && s.handlers[i].Overflowed?
    case LookupOk => s.session.CatchingUp? || s.session.Deciding?
    case Search => s.session.Syncing?
    case Store => s.session.Fetching?
    case Arm => s.session.Arming?
    case Replay => s.session.Replaying?
      && (s.session.missed ==> s.slot.registered.Some? && s.slot.HasRoom(s.slot.registered.value))
    case LoopTake => s.loop.Selecting? && s.slot.Buffered() > 0
    case LoopForward => s.loop.Forwarding? && s.notifs < NOTIFS_CAPACITY
    case Receive => s.session.Waiting? && s.notifs > 0
    case LoopExit => s.session.Stopping?
  }

  function Apply(s: State, a: Action): State
    requires Enabled(s, a)
  {
    match a
    case Arrive => s.(arrived := s.arrived + 1)
    case Push => s.(pushed := s.arrived, wire := s.wire + [s.arrived])
    // The connection is dropped: the next session dials a fresh client.
    case Bounce => s.(wire := [], handlers := [], slot := Mailslot(None, false, []),
                      loop := NoLoop, notifs := 0, session := CatchingUp)
    case LookupFails =>
      s.(session := if s.session.CatchingUp? then Arming else Waiting,
           wakeupDropped := s.wakeupDropped || !StillWoken(s))
    case ReadExists => s.(wire := s.wire[1..], handlers := s.handlers + [Entered(s.wire[0])])
    case HandlerLock(i) =>
      if s.slot.registered.None? then s.(slot := s.slot.Capture(), handlers := RemoveAt(s.handlers, i))
      else s.(handlers := s.handlers[i := Captured(s.handlers[i].upTo, s.slot.registered.value)])
    case HandlerSend(i) =>
      var ch := s.handlers[i].ch;
      if s.slot.HasRoom(ch) then s.(slot := s.slot.Sent(ch), handlers := RemoveAt(s.handlers, i))
      else s.(handlers := s.handlers[i := Overflowed(s.handlers[i].upTo)])
    case HandlerMiss(i) => s.(slot := s.slot.(missed := true), handlers := RemoveAt(s.handlers, i))
    case LookupOk => s.(session := if s.session.CatchingUp? then Syncing else Stopping)
    case Search => s.(session := Fetching(s.arrived), wakeupDropped := false)
    case Store => s.(stored := if s.stored < s.session.found then s.session.found else s.stored, session := Arming)
    case Arm => s.(slot := s.slot.Registered(), session := Replaying(s.slot.missed))
    case Replay =>
      s.(slot := if s.session.missed then s.slot.Sent(s.slot.registered.value) else s.slot,
         loop := Selecting, notifs := 0, session := Waiting)
    case LoopTake => s.(slot := s.slot.Received(), loop := Forwarding)
    case LoopForward => s.(notifs := s.notifs + 1, loop := Selecting)
    case Receive => s.(notifs := s.notifs - 1, session := Deciding)
    case LoopExit => s.(slot := s.slot.Unregistered(), loop := NoLoop, notifs := 0, session := Syncing)
  }

  /** Steps of the program itself, as opposed to the server, the network and failures. */
  predicate Internal(a: Action)
  {
    !a.Arrive? && !a.Push? && !a.Bounce? && !a.LookupFails?
  }

  predicate Initial(s: State)
  {
    s == Init()
  }

  predicate Next(s: State, a: Action, t: State)
  {
    Enabled(s, a) && t == Apply(s, a)
  }

  predicate InternalNext(s: State, a: Action, t: State)
  {
    Internal(a) && Next(s, a, t)
  }

  ghost predicate Reachable(s: State)
  {
    Runs.Reachable(Initial, Next, s)
  }

  /** The session is bound to issue a UID SEARCH without any further push. */
  predicate WakePending(s: State)
  {
    match s.session
    case CatchingUp => true
    case Syncing => true
    case Fetching(_) => s.slot.missed
    case Arming => s.slot.missed
    case Replaying(missed) => missed || Pipeline(s) > 0
    case Waiting => Pipeline(s) > 0
    case Deciding => true
    case Stopping => true
  }

  /** Message u will reach the database: its notification is still travelling
      towards a live consumer, or a SEARCH is certain, or it is being fetched. */
  ghost predicate Covered(s: State, u: nat)
  {
    || (exists i :: 0 <= i < |s.wire| && u <= s.wire[i])
    || (exists i :: 0 <= i < |s.handlers| && Carries(s, s.handlers[i], u))
    || WakePending(s)
    || (s.session.Fetching? && u <= s.session.found)
  }

  ghost predicate NothingLost(s: State)
  {
    forall u {:trigger Covered(s, u)} :: s.stored < u <= s.pushed ==> Covered(s, u)
  }

  /** Shape of the reachable states. */
  ghost predicate Shape(s: State)
  {
    && s.slot.Valid()
    && s.stored <= s.arrived && s.pushed <= s.arrived
    && (forall i :: 0 <= i < |s.wire| ==> s.wire[i] <= s.pushed)
    && (forall i :: 0 <= i < |s.handlers| ==> s.handlers[i].upTo <= s.pushed)
    && (forall i :: 0 <= i < |s.handlers| && s.handlers[i].Captured? ==> s.handlers[i].ch < |s.slot.buffers|)
    && (s.slot.registered.Some? <==>
      s.session.Replaying? || s.session.Waiting? || s.session.Deciding? || s.session.Stopping?)
    && (!s.loop.NoLoop? <==> s.session.Waiting? || s.session.Deciding? || s.session.Stopping?)
    && (s.session.Fetching? ==> s.session.found <= s.arrived)
    && (s.loop.NoLoop? ==> s.notifs == 0)
  }

  ghost predicate Inv(s: State)
  {
    Shape(s) && (!s.wakeupDropped ==> NothingLost(s))
  }

  lemma ShapeStep(s: State, a: Action)
    requires Shape(s) && Enabled(s, a)
    ensures Shape(Apply(s, a))
  {
    if a.ReadExists? || a.HandlerLock? || a.HandlerSend? || a.HandlerMiss? {
      ShapeHandlers(s, a);
    } else if a.Arm? || a.Replay? || a.LoopTake? || a.LoopForward? || a.LoopExit? {
      ShapeLoop(s, a);
    } else {
      ShapeSession(s, a);
    }
  }

  lemma ShapeHandlers(s: State, a: Action)
    requires Shape(s) && Enabled(s, a)
    requires a.ReadExists? || a.HandlerLock? || a.HandlerSend? || a.HandlerMiss?
    ensures Shape(Apply(s, a))
  {
  }

  lemma ShapeLoop(s: State, a: Action)
    requires Shape(s) && Enabled(s, a)
    requires a.Arm? || a.Replay? || a.LoopTake? || a.LoopForward? || a.LoopExit?
    ensures Shape(Apply(s, a))
  {
  }

  lemma ShapeSession(s: State, a: Action)
    requires Shape(s) && Enabled(s, a)
    requires a.Arrive? || a.Push? || a.Bounce? || a.LookupFails? || a.LookupOk? || a.Search? || a.Store? || a.Receive?
    ensures Shape(Apply(s, a))
  {
  }

  /** What every step keeps: a covered message stays covered; failed lookups apart, for
      which see FailedLookupLosesIff. */
  lemma CoveredStep(s: State, a: Action, u: nat)
    requires Shape(s) && Enabled(s, a) && !a.LookupFails?
    requires u <= s.pushed && Apply(s, a).stored < u
    requires Covered(s, u) || a.Search?
    ensures Covered(Apply(s, a), u)
  {
    var t := Apply(s, a);
    if i :| 0 <= i < |s.wire| && u <= s.wire[i] {
      match a
      case ReadExists =>
        if i == 0 {
          assert t.handlers[|s.handlers|] == Entered(s.wire[0]);
        } else {
          assert t.wire[i - 1] == s.wire[i];
        }
      case Push => assert t.wire[i] == s.wire[i];
      case _ =>
    } else if i :| 0 <= i < |s.handlers| && Carries(s, s.handlers[i], u) {
      HandlerCovers(s, a, u, i);
    }
  }

  lemma HandlerCovers(s: State, a: Action, u: nat, i: nat)
    requires Shape(s) && Enabled(s, a) && !a.LookupFails?
    requires i < |s.handlers| && Carries(s, s.handlers[i], u)
    ensures Covered(Apply(s, a), u)
  {
    var t := Apply(s, a);
    match a
    case ReadExists => assert t.handlers[i] == s.handlers[i];
    case HandlerLock(j) => HandlerStays(s, t, u, i, j);
    case HandlerSend(j) => HandlerStays(s, t, u, i, j);
    case HandlerMiss(j) => HandlerStays(s, t, u, i, j);
    case Arrive => assert Carries(t, t.handlers[i], u);
    case Push => assert Carries(t, t.handlers[i], u);
    case Store => assert Carries(t, t.handlers[i], u);
    case Search => assert Carries(t, t.handlers[i], u);
    case LoopTake => assert Carries(t, t.handlers[i], u);
    case LoopForward => assert Carries(t, t.handlers[i], u);
    case Replay => assert Carries(t, t.handlers[i], u);
    case Arm => assert Carries(t, t.handlers[i], u);
    case _ =>
  }

  /** Handler j takes its step; handler i was carrying u. */
  lemma HandlerStays(s: State, t: State, u: nat, i: nat, j: nat)
    requires Shape(s) && i < |s.handlers| && j < |s.handlers| && Carries(s, s.handlers[i], u)
    requires t == Apply(s, HandlerStep(s, j))
    ensures Covered(t, u)
  {
    if i == j {
      assert WakePending(t) || Carries(t, t.handlers[i], u);
    } else {
      var k := if |t.handlers| < |s.handlers| && j < i then i - 1 else i;
      assert t.handlers[k] == s.handlers[i];
      assert Carries(t, t.handlers[k], u);
    }
  }

  function HandlerStep(s: State, j: nat): (a: Action)
    requires j < |s.handlers|
    ensures Enabled(s, a) && Internal(a)
  {
    match s.handlers[j]
    case Entered(_) => HandlerLock(j)
    case Captured(_, _) => HandlerSend(j)
    case Overflowed(_) => HandlerMiss(j)
  }

  lemma LookupLoss(s: State)
    requires Shape(s) && Enabled(s, LookupFails)
    ensures NothingLost(Apply(s, LookupFails)) <==> StillWoken(s)
  {
    var t := Apply(s, LookupFails);
    if StillWoken(s) {
      forall u {:trigger Covered(t, u)} | t.stored < u <= t.pushed ensures Covered(t, u) {
        if i :| 0 <= i < |s.wire| && s.wire[i] >= s.pushed {
          assert u <= t.wire[i];
        } else if i :| 0 <= i < |s.handlers| && Carries(s, s.handlers[i], s.pushed) {
          assert Carries(t, t.handlers[i], u);
        }
      }
    } else {
      assert !Covered(t, t.pushed);
    }
  }

  lemma InvStep(s: State, a: Action)
    requires Inv(s) && Enabled(s, a)
    ensures Inv(Apply(s, a))
  {
    ShapeStep(s, a);
    var t := Apply(s, a);
    if a.LookupFails? {
      LookupLoss(s);
    } else if !t.wakeupDropped {
      forall u {:trigger Covered(t, u)} | t.stored < u <= t.pushed
        ensures Covered(t, u)
      {
        if u <= s.pushed {
          assert a.Search? || Covered(s, u);
          CoveredStep(s, a, u);
        } else {
          assert t.wire[|s.wire|] == s.arrived;
        }
      }
    }
  }

  lemma ReachableInv(s: State)
    requires Reachable(s)
    ensures Inv(s)
  {
    forall x, a, y | Inv(x) && Next(x, a, y) ensures Inv(y) {
      InvStep(x, a);
    }
    Runs.InvariantReachable(Initial, Next, Inv, s);
  }

  /** A failed folder lookup loses an announced message exactly when nothing else
      announces it: all is not stored, no notification is left between the channel and the
      session (or flagged, before the first registration), and neither the wire nor a
      handler with a live channel carries one. */
  lemma FailedLookupLosesIff(s: State)
    requires Reachable(s) && Enabled(s, LookupFails)
    ensures (exists u {:trigger Covered(Apply(s, LookupFails), u)} ::
      s.stored < u <= s.pushed && !Covered(Apply(s, LookupFails), u))
      <==> !StillWoken(s)
  {
    ReachableInv(s);
    LookupLoss(s);
  }

  /** No lost wake-up, over every interleaving. */
  lemma NoLostWakeup(s: State, u: nat)
    requires Reachable(s) && !s.wakeupDropped
    requires s.stored < u <= s.pushed
    ensures Covered(s, u)
  {
    ReachableInv(s);
  }

  // ---------------------------------------------------------------- progress

  function HandlerWeight(hs: seq<Handler>): nat
  {
    if hs == [] then 0 else Weight(hs[0]) + HandlerWeight(hs[1..])
  }

  function Weight(h: Handler): nat
  {
    match h
    case Entered(_) => 3
    case Captured(_, _) => 2
    case Overflowed(_) => 1
  }

  lemma {:induction false} HandlerWeightAt(hs: seq<Handler>, i: nat, h: Handler)
    requires i < |hs|
    ensures HandlerWeight(RemoveAt(hs, i)) + Weight(hs[i]) == HandlerWeight(hs)
    ensures HandlerWeight(hs[i := h]) + Weight(hs[i]) == HandlerWeight(hs) + Weight(h)
  {
    if i == 0 {
      assert RemoveAt(hs, 0) == hs[1..] == hs[0 := h][1..];
    } else {
      assert RemoveAt(hs, i)[1..] == RemoveAt(hs[1..], i - 1);
      assert hs[i := h][1..] == hs[1..][i - 1 := h];
      HandlerWeightAt(hs[1..], i - 1, h);
    }
  }

  /** Notifications weighted by the distance they still have to travel. */
  function Load(s: State): nat
  {
    (if s.slot.missed then 5 else 0)
    + (if s.session.Replaying? && s.session.missed then 4 else 0)
    + 3 * s.slot.Buffered() + (if s.loop.Forwarding? then 2 else 0) + s.notifs
  }

  function Distance(session: Session): nat
  {
    match session
    case CatchingUp => 6
    case Syncing => 5
    case Fetching(_) => 4
    case Arming => 3
    case Replaying(_) => 2
    case Waiting => 0
    case Deciding => 8
    case Stopping => 7
  }

  predicate Descends(t: State, s: State)
  {
    || |t.wire| < |s.wire|
    || (|t.wire| == |s.wire| &&
        (|| HandlerWeight(t.handlers) < HandlerWeight(s.handlers)
         || (HandlerWeight(t.handlers) == HandlerWeight(s.handlers) &&
             (|| Load(t) < Load(s)
              || (Load(t) == Load(s) && Distance(t.session) < Distance(s.session))))))
  }

  /** Every step of the program descends in a well-founded order, so it cannot
      run for ever without a push, a bounce or a failed lookup. */
  lemma InternalStepDescends(s: State, a: Action)
    requires Shape(s) && Enabled(s, a) && Internal(a)
    ensures Descends(Apply(s, a), s)
  {
    var t := Apply(s, a);
    match a
    case ReadExists =>
    case HandlerLock(i) => HandlerMoves(s.handlers, i, t.handlers);
    case HandlerSend(i) => HandlerMoves(s.handlers, i, t.handlers);
    case HandlerMiss(i) => HandlerMoves(s.handlers, i, t.handlers);
    case _ =>
  }

  lemma HandlerMoves(hs: seq<Handler>, i: nat, moved: seq<Handler>)
    requires i < |hs|
    requires moved == RemoveAt(hs, i)
      || (|moved| == |hs| && Weight(moved[i]) < Weight(hs[i]) && moved == hs[i := moved[i]])
    ensures HandlerWeight(moved) < HandlerWeight(hs)
  {
    HandlerWeightAt(hs, i, if i < |moved| then moved[i] else hs[i]);
  }

  ghost predicate Stuck(s: State)
  {
    forall a: Action :: Internal(a) ==> !Enabled(s, a)
  }

  /** Without pushes, bounces and failed lookups the protocol can only come to rest
      with every announced message stored, or in the blocked replay. */
  lemma RestMeansStored(s: State)
    requires Inv(s) && !s.wakeupDropped && Stuck(s)
    ensures s.stored >= s.pushed || ReplayBlocked(s)
  {
    if s.stored < s.pushed && !ReplayBlocked(s) {
      assert Covered(s, s.pushed);
      assert !Enabled(s, ReadExists) && !Enabled(s, LookupOk) && !Enabled(s, Search) && !Enabled(s, Store);
      assert !Enabled(s, Arm) && !Enabled(s, Replay) && !Enabled(s, LoopExit);
      assert !Enabled(s, Receive) && !Enabled(s, LoopForward) && !Enabled(s, LoopTake);
      if s.handlers != [] {
        var a := HandlerStep(s, 0);
        assert false;
      }
    }
  }

  /** Every maximal run of internal steps stores everything announced at its start,
      or ends in the blocked replay; such runs exist from every state, and by
      InternalStepDescends none is infinite. */
  lemma {:induction false} MaximalRunStores(s: State, acts: seq<Action>, t: State)
    requires Inv(s) && !s.wakeupDropped && Runs.Run(InternalNext, s, acts, t) && Stuck(t)
    ensures t.stored >= s.pushed || ReplayBlocked(t)
    decreases |acts|
  {
    if acts == [] {
      RestMeansStored(s);
    } else {
      InvStep(s, acts[0]);
      MaximalRunStores(Apply(s, acts[0]), acts[1..], t);
    }
  }

  lemma {:induction false} MaximalRunExists(s: State) returns (acts: seq<Action>, t: State)
    requires Inv(s)
    ensures Runs.Run(InternalNext, s, acts, t) && Stuck(t)
    decreases |s.wire|, HandlerWeight(s.handlers), Load(s), Distance(s.session)
  {
    if Stuck(s) {
      return [], s;
    }
    var a: Action :| Internal(a) && Enabled(s, a);
    InternalStepDescends(s, a);
    InvStep(s, a);
    var rest, last := MaximalRunExists(Apply(s, a));
    acts, t := [a] + rest, last;
    assert InternalNext(s, acts[0], Apply(s, a)) && acts[1..] == rest;
  }

  // ------------------------------------------------- the two ways it can fail

  lemma Take(s: State, a: Action) returns (t: State)
    requires Reachable(s) && Enabled(s, a)
    ensures Reachable(t) && t == Apply(s, a)
  {
    t := Apply(s, a);
    Runs.ReachStep(Initial, Next, s, a, t);
  }

  /** From a registered channel: one more message arrives, is announced, and its
      notification lands in the channel. */
  lemma Deliver(s: State) returns (t: State)
    requires Reachable(s) && s.slot.registered.Some? && s.slot.HasRoom(s.slot.registered.value)
    requires s.wire == [] && s.handlers == [] && s.pushed == s.arrived
    ensures Reachable(t)
    ensures t == s.(arrived := s.arrived + 1, pushed := s.pushed + 1, slot := s.slot.Sent(s.slot.registered.value))
  {
    var s1 := Take(s, Arrive);
    var s2 := Take(s1, Push);
    var s3 := Take(s2, ReadExists);
    var s4 := Take(s3, HandlerLock(0));
    t := Take(s4, HandlerSend(0));
  }

  /** An empty mailbox, caught up, armed and waiting. */
  lemma FirstWait() returns (t: State)
    ensures Reachable(t)
    ensures t == State(0, 0, 0, [], [], Mailslot(Some(0), false, [0]), Selecting, 0, Waiting, false)
  {
    var s0 := Init();
    Runs.ReachStart(Initial, Next, s0);
    var s1 := Take(s0, LookupOk);
    var s2 := Take(s1, Search);
    var s3 := Take(s2, Store);
    var s4 := Take(s3, Arm);
    t := Take(s4, Replay);
  }

  /** The hypothesis of NoLostWakeup is needed: a failed folder lookup after an
      EXISTS consumes the notification and leaves an announced message behind,
      with nothing left to do until the next push or bounce. */
  lemma FailedLookupLosesWakeup() returns (s: State)
    ensures Reachable(s) && s.wakeupDropped
    ensures s.stored < 1 <= s.pushed && !Covered(s, 1) && Stuck(s)
  {
    var s0 := FirstWait();
    var s1 := Deliver(s0);
    var s2 := Take(s1, LoopTake);
    var s3 := Take(s2, LoopForward);
    var s4 := Take(s3, Receive);
    s := Take(s4, LookupFails);
  }

  lemma {:induction false} Fill(s: State, n: nat) returns (t: State)
    requires Reachable(s) && s.slot.registered.Some? && s.slot.registered.value < |s.slot.buffers|
    requires s.slot.Buffered() + n <= INTERNAL_CAPACITY
    requires s.wire == [] && s.handlers == [] && s.pushed == s.arrived
    ensures Reachable(t) && t.session == s.session && t.slot.registered == s.slot.registered
    ensures t.slot.Buffered() == s.slot.Buffered() + n && t.wire == [] && t.handlers == [] && t.loop == s.loop
    ensures t.pushed == s.pushed + n && t.stored == s.stored && t.wakeupDropped == s.wakeupDropped
    decreases n
  {
    if n == 0 {
      t := s;
    } else {
      var mid := Deliver(s);
      t := Fill(mid, n - 1);
    }
  }

  /** A fetch of an empty mailbox under way; a message arrives and is announced. */
  lemma AnnouncedInFetch() returns (t: State)
    ensures Reachable(t)
    ensures t == State(1, 1, 0, [1], [], Mailslot(None, false, []), NoLoop, 0, Fetching(0), false)
  {
    var s0 := Init();
    Runs.ReachStart(Initial, Next, s0);
    var s1 := Take(s0, LookupOk);
    var s2 := Take(s1, Search);
    var s3 := Take(s2, Arrive);
    t := Take(s3, Push);
  }

  /** One EXISTS handled between DONE and the next IDLE, which has just registered. */
  lemma RegisteredWithMissed() returns (t: State)
    ensures Reachable(t)
    ensures t == State(1, 1, 0, [], [], Mailslot(Some(0), false, [0]), NoLoop, 0, Replaying(true), false)
  {
    var s0 := AnnouncedInFetch();
    var s1 := Take(s0, ReadExists);
    var s2 := Take(s1, HandlerLock(0));
    var s3 := Take(s2, Store);
    t := Take(s3, Arm);
  }

  /** The blocked replay is reachable although no lookup ever failed: sixteen more
      EXISTS are handled between the registration and the replay. */
  lemma ReplayCanBlock() returns (s: State)
    ensures Reachable(s) && !s.wakeupDropped
    ensures ReplayBlocked(s) && Stuck(s) && s.stored < s.pushed
  {
    var s0 := RegisteredWithMissed();
    s := Fill(s0, INTERNAL_CAPACITY);
    ReplayBlockedIsStuck(s);
  }

  /** Nothing ends the blocked replay: not a push, not the network, not the session's own
      timeout. */
  lemma BlockedForever(s: State, a: Action)
    requires Shape(s) && ReplayBlocked(s) && Enabled(s, a)
    ensures ReplayBlocked(Apply(s, a)) && Apply(s, a).stored == s.stored
  {
  }

  lemma ReplayBlockedIsStuck(s: State)
    requires ReplayBlocked(s) && s.wire == [] && s.handlers == [] && s.loop.NoLoop?
    ensures Stuck(s)
  {
  }
}
