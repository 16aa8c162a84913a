/**
 * The store writer: producers that add to a WaitGroup, submit and wait; the bounded
 * queue; the Run loop; and the drain on shutdown.
 *
 * A message is numbered by its offer, so equal messages are the same message.
 */
module WriterQueue {
  import opened Common
  import Runs

  const CAPACITY := 256

  datatype Message = Message(owner: nat, number: nat)

  datatype Loop =
    | Selecting                              // Run's select
    | Received(m: Message)                   // taken off the queue, ctx.Err() not yet read
    | Processing(m: Message, draining: bool)
    | Draining                               // drainOnShutdown's select
    | Stopped

  datatype State = State(
    offered: nat,                   // messages numbered so far
    offering: map<nat, Message>,    // producers inside Submit
    waiting: map<nat, int>,         // each producer's batchAck counter
    queue: seq<Message>,
    loop: Loop,
    cancelled: bool,
    expired: bool,                  // the grace deadline has passed
    submitted: seq<Message>,        // history, in the order Submit took them
    processed: seq<Message>)        // history, in the order they were written and acked

  datatype Action =
    | Offer(p: nat) | Submit(p: nat) | Refuse(p: nat)
    | Cancel | Expire
    | Receive | SeeDone | Check | Process | DrainReceive | DrainEmpty | DrainExpired

  function Waiting(s: State, p: nat): int
  {
    if p in s.waiting then s.waiting[p] else 0
  }

  function AddTo(s: State, p: nat, delta: int): map<nat, int>
  {
    s.waiting[p := Waiting(s, p) + delta]
  }

  predicate Initial(s: State)
  {
    s == State(0, map[], map[], [], Selecting, false, false, [], [])
  }

  predicate Enabled(s: State, a: Action)
  {
    match a
    case Offer(p) => p !in s.offering
    case Submit(p) => p in s.offering && |s.queue| < CAPACITY
    case Refuse(p) => p in s.offering
    case Cancel => true
    case Expire => s.loop.Draining? || (s.loop.Processing? && s.loop.draining)
    case Receive => s.loop.Selecting? && s.queue != []
    case SeeDone => s.loop.Selecting? && s.cancelled
    case Check => s.loop.Received?
    case Process => s.loop.Processing?
    case DrainReceive => s.loop.Draining? && s.queue != []
    case DrainEmpty => s.loop.Draining? && s.queue == []
    case DrainExpired => s.loop.Draining? && s.expired
  }

  function Apply(s: State, a: Action): State
    requires Enabled(s, a)
  {
    match a
    case Offer(p) =>
      s.(offered := s.offered + 1, offering := s.offering[p := Message(p, s.offered)], waiting := AddTo(s, p, 1))
    case Submit(p) =>
      s.(offering := s.offering - {p}, queue := s.queue + [s.offering[p]], submitted := s.submitted + [s.offering[p]])
    case Refuse(p) => s.(offering := s.offering - {p}, waiting := AddTo(s, p, -1))
    case Cancel => s.(cancelled := true)
    case Expire => s.(expired := true)
    case Receive => s.(loop := Received(s.queue[0]), queue := s.queue[1..])
    case SeeDone => s.(loop := Draining)
    case Check => s.(loop := Processing(s.loop.m, s.cancelled))
    case Process =>
      s.(loop := if s.loop.draining then Draining else Selecting,
         processed := s.processed + [s.loop.m], waiting := AddTo(s, s.loop.m.owner, -1))
    case DrainReceive => s.(loop := Processing(s.queue[0], true), queue := s.queue[1..])
    case DrainEmpty => s.(loop := Stopped)
    case DrainExpired => s.(loop := Stopped)
  }

  predicate Next(s: State, a: Action, t: State)
  {
    Enabled(s, a) && t == Apply(s, a)
  }

  ghost predicate Reachable(s: State)
  {
    Runs.Reachable(Initial, Next, s)
  }

  /** The message Run has taken and not yet acked. */
  function InHand(s: State): seq<Message>
  {
    match s.loop
    case Received(m) => [m]
    case Processing(m, _) => [m]
    case Selecting => []
    case Draining => []
    case Stopped => []
  }

  function Owned(ms: seq<Message>, p: nat): nat
  {
    if ms == [] then 0 else Owned(ms[..|ms| - 1], p) + One(ms[|ms| - 1].owner == p)
  }

  lemma OwnedAdd(ms: seq<Message>, m: Message, p: nat)
    ensures Owned(ms + [m], p) == Owned(ms, p) + One(m.owner == p)
  {
    assert (ms + [m])[..|ms|] == ms;
  }

  lemma {:induction false} OwnedTake(m: Message, ms: seq<Message>, p: nat)
    ensures Owned([m] + ms, p) == One(m.owner == p) + Owned(ms, p)
    decreases |ms|
  {
    if ms == [] {
      assert ([m] + ms)[..0] == [];
    } else {
      assert ([m] + ms)[..|ms|] == [m] + ms[..|ms| - 1];
      OwnedTake(m, ms[..|ms| - 1], p);
    }
  }

  lemma {:induction false} OwnedPositive(ms: seq<Message>, m: Message)
    requires m in ms
    ensures Owned(ms, m.owner) > 0
  {
    if ms[|ms| - 1] != m {
      OwnedPositive(ms[..|ms| - 1], m);
    }
  }

  /** What is taken and queued, in order: the messages still owed an ack. */
  function Owed(s: State): seq<Message>
  {
    InHand(s) + s.queue
  }

  ghost predicate Inv(s: State)
  {
    && s.submitted == s.processed + Owed(s)
    && |s.queue| <= CAPACITY
    && (forall p: nat :: Counts(s, p))
    && Numbered(s)
  }

  /** A producer's WaitGroup counts its messages that are offered, queued or in hand. */
  ghost predicate Counts(s: State, p: nat)
  {
    Waiting(s, p) == Owned(Owed(s), p) + One(p in s.offering)
  }

  /** Messages are never repeated. */
  ghost predicate Numbered(s: State)
  {
    && (forall p :: p in s.offering ==>
      s.offering[p].owner == p && s.offering[p].number < s.offered && s.offering[p] !in s.submitted)
    && (forall i :: 0 <= i < |s.submitted| ==> s.submitted[i].number < s.offered)
    && (forall i, j :: 0 <= i < j < |s.submitted| ==> s.submitted[i] != s.submitted[j])
  }

  /** A submission joins what is owed, a processed message leaves its front, and no
      other step changes it. */
  lemma OwedStep(s: State, a: Action, t: State)
    requires Next(s, a, t)
    ensures a.Submit? ==> Owed(t) == Owed(s) + [s.offering[a.p]]
    ensures a.Process? ==> Owed(s) == [s.loop.m] + Owed(t)
    ensures !a.Submit? && !a.Process? ==> Owed(t) == Owed(s)
  {
  }

  lemma InvStep(s: State, a: Action, t: State)
    requires Inv(s) && Next(s, a, t)
    ensures Inv(t)
  {
    forall p: nat ensures Counts(t, p) {
      CounterStep(s, a, t, p);
    }
    OwedStep(s, a, t);
    OrderStep(s, a, t);
  }

  lemma OrderStep(s: State, a: Action, t: State)
    requires Inv(s) && Next(s, a, t)
    ensures t.submitted == t.processed + Owed(t)
    ensures Numbered(t)
  {
    OwedStep(s, a, t);
  }

  lemma CounterStep(s: State, a: Action, t: State, p: nat)
    requires Counts(s, p) && Numbered(s) && Next(s, a, t)
    ensures Counts(t, p)
  {
    OwedStep(s, a, t);
    if a.Submit? {
      OwnedAdd(Owed(s), s.offering[a.p], p);
    } else if a.Process? {
      OwnedTake(s.loop.m, Owed(t), p);
    }
  }

  lemma ReachableInv(s: State)
    requires Reachable(s)
    ensures Inv(s)
  {
    forall x, a, y | Inv(x) && Next(x, a, y) ensures Inv(y) {
      InvStep(x, a, y);
    }
    Runs.InvariantReachable(Initial, Next, x => Inv(x), s);
  }

  /** FIFO and exactly once: what has been processed is the submission order so far,
      without gaps or repeats, and the rest is still on its way. */
  lemma ExactlyOnceInOrder(s: State)
    requires Reachable(s)
    ensures s.submitted == s.processed + InHand(s) + s.queue
    ensures forall i, j :: 0 <= i < j < |s.processed| ==> s.processed[i] != s.processed[j]
    ensures |s.queue| <= 256
  {
    ReachableInv(s);
    forall i, j | 0 <= i < j < |s.processed| ensures s.processed[i] != s.processed[j] {
      assert s.processed[i] == s.submitted[i] && s.processed[j] == s.submitted[j];
    }
  }

  /** A WaitGroup never goes negative, and reaching zero is the barrier a chunk needs:
      each message its producer submitted has been processed. */
  lemma AckBarrier(s: State, p: nat)
    requires Reachable(s)
    ensures Waiting(s, p) >= 0
    ensures Waiting(s, p) == 0 <==>
      p !in s.offering && forall m :: m in s.submitted && m.owner == p ==> m in s.processed
  {
    ReachableInv(s);
    assert Counts(s, p);
    forall m | m in s.submitted ensures m in s.processed || m in Owed(s) {
    }
    if Waiting(s, p) == 0 {
      forall m | m in s.submitted && m.owner == p ensures m in s.processed {
        if m in Owed(s) {
          OwnedPositive(Owed(s), m);
        }
      }
    } else if p !in s.offering {
      var m := OwedMessage(Owed(s), p);
      var k :| 0 <= k < |Owed(s)| && Owed(s)[k] == m;
      assert s.submitted[|s.processed| + k] == m;
      forall i | 0 <= i < |s.processed| ensures s.processed[i] != m {
        assert s.processed[i] == s.submitted[i];
      }
    }
  }

  lemma {:induction false} OwedMessage(ms: seq<Message>, p: nat) returns (m: Message)
    requires Owned(ms, p) > 0
    ensures m in ms && m.owner == p
  {
    m := ms[|ms| - 1];
    if m.owner != p {
      m := OwedMessage(ms[..|ms| - 1], p);
    }
  }

  /** Run returns only when it has seen the cancellation, with every submitted message
      processed unless the grace period is over. */
  lemma StopsEmptyOrExpired(s: State, a: Action, t: State)
    requires Reachable(s) && Next(s, a, t) && !s.loop.Stopped? && t.loop.Stopped?
    ensures t.processed == t.submitted || t.expired
  {
    ReachableInv(s);
  }

  predicate ByProducer(a: Action)
  {
    a.Offer? || a.Submit? || a.Refuse?
  }

  /** Steps the shutdown still has to take once the context is cancelled. */
  function Remaining(s: State): nat
  {
    3 * |s.queue| + (match s.loop
      case Received(_) => 4
      case Processing(_, _) => 3
      case Selecting => 2
      case Draining => 1
      case Stopped => 0)
  }

  /** Shutdown needs no deadline to end: after the cancellation every step of the loop
      brings it closer to stopping, a step is always possible, and a producer delays it
      only by submitting. */
  lemma ShutdownProgresses(s: State)
    requires s.cancelled && !s.loop.Stopped?
    ensures exists a :: Enabled(s, a) && !ByProducer(a) && !a.Cancel? && !a.Expire?
    ensures forall a, t :: Next(s, a, t) && !a.Submit? && !a.Cancel? && !a.Expire? && !a.Offer? && !a.Refuse? ==>
      Remaining(t) < Remaining(s)
    ensures forall a, t :: Next(s, a, t) && !a.Submit? ==> Remaining(t) <= Remaining(s)
  {
    var a := match s.loop
      case Selecting => SeeDone
      case Received(_) => Check
      case Processing(_, _) => Process
      case Draining => if s.queue == [] then DrainEmpty else DrainReceive
      case Stopped => Cancel;
    assert Enabled(s, a);
  }

  /** The writer's own fields, and drainOnShutdown as it runs to its end. */
  class StoreWriter {
    var queue: seq<Message>
    var processed: seq<Message>

    method Write(m: Message)
      modifies this`processed
      ensures processed == old(processed) + [m]
    {
      processed := processed + [m];
    }

    /** `patience` is the number of queued messages written before the deadline fires. */
    method DrainOnShutdown(pending: Option<Message>, patience: nat) returns (dropped: nat)
      modifies this
      ensures processed + queue == old(processed) + (if pending.Some? then [pending.value] else []) + old(queue)
      ensures |queue| == dropped == if |old(queue)| <= patience then 0 else |old(queue)| - patience
    {
      ghost var first := processed + (if pending.Some? then [pending.value] else []);
      if pending.Some? {
        Write(pending.value);
      }
      var taken := 0;
      while queue != [] && taken < patience
        invariant taken <= patience && taken <= |old(queue)|
        invariant queue == old(queue)[taken..]
        invariant processed == first + old(queue)[..taken]
      {
        var m := queue[0];
        queue := queue[1..];
        Write(m);
        taken := taken + 1;
      }
      dropped := |queue|;
      assert old(queue)[..taken] + old(queue)[taken..] == old(queue);
    }
  }
}
