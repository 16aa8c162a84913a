/**
 * The event emitter with its two kinds of lock.  Threads subscribe, unsubscribe and
 * emit in any interleaving; each subscriber's consumer takes from its own buffer.
 *
 * Events are numbered by the order in which Emit gets the emitter's lock.
 */
module Events {
  import opened Common
  import Runs

  const BUFFER := 64

  /** One subscription.  `taken` and `dropped` are history, `from` and `upTo` the event
      numbers at which it joined and left the list. */
  datatype Sub = Sub(
    buffer: seq<nat>, closed: bool, mu: Option<nat>,
    from: nat, upTo: Option<nat>, taken: seq<nat>, dropped: set<nat>)

  datatype Pc =
    | WantSubscribe | WantRemove(k: nat) | WantEmit(ev: int)   // waiting for e.mu
    | Adding                                                   // holding e.mu
    | Removing(k: nat)                                         // holding e.mu
    | Sending(i: nat)                                          // holding e.mu, about to lock subs[i]
    | Inside(i: nat)                                           // holding e.mu and subs[i].mu
    | WantClose(k: nat)                                        // holding nothing
    | Closing(k: nat)                                          // holding sub.mu

  datatype State = State(
    mu: Option<nat>,
    subs: seq<nat>,            // e.subs
    all: seq<Sub>,             // every subscription ever made
    threads: map<nat, Pc>,
    emitted: seq<int>)         // history

  datatype Action =
    | Call(t: nat, pc: Pc)
    | Lock(t: nat)
    | Add(t: nat) | Remove(t: nat)
    | LockSub(t: nat) | Send(t: nat) | Finish(t: nat) | Close(t: nat)
    | Take(k: nat)

  predicate IsCall(s: State, pc: Pc)
  {
    pc.WantSubscribe? || pc.WantEmit? || (pc.WantRemove? && pc.k < |s.all|)
  }

  predicate Enabled(s: State, a: Action)
  {
    match a
    case Call(t, pc) => t !in s.threads && IsCall(s, pc)
    case Lock(t) => t in s.threads && s.mu.None?
      && (s.threads[t].WantSubscribe? || s.threads[t].WantRemove? || s.threads[t].WantEmit?)
    case Add(t) => t in s.threads && s.threads[t].Adding?
    case Remove(t) => t in s.threads && s.threads[t].Removing? && s.threads[t].k < |s.all|
    case LockSub(t) => t in s.threads && (match s.threads[t]
      case Sending(i) => i < |s.subs| && s.subs[i] < |s.all| && s.all[s.subs[i]].mu.None?
      case WantClose(k) => k < |s.all| && s.all[k].mu.None?
      case _ => false)
    case Send(t) => t in s.threads && s.threads[t].Inside? && s.threads[t].i < |s.subs|
      && s.subs[s.threads[t].i] < |s.all|
    case Finish(t) => t in s.threads && s.threads[t].Sending? && s.threads[t].i == |s.subs|
    case Close(t) => t in s.threads && s.threads[t].Closing? && s.threads[t].k < |s.all|
    case Take(k) => k < |s.all| && s.all[k].buffer != []
  }

  function Goto(s: State, t: nat, pc: Pc): map<nat, Pc>
  {
    s.threads[t := pc]
  }

  /** The list without the first entry for k. */
  function Without(subs: seq<nat>, k: nat): seq<nat>
  {
    if subs == [] then [] else if subs[0] == k then subs[1..] else [subs[0]] + Without(subs[1..], k)
  }

  /** subscription.send for event n, under the subscription's lock. */
  function Sent(sub: Sub, n: nat): Sub
  {
    if sub.closed then sub
    else if |sub.buffer| < BUFFER then sub.(buffer := sub.buffer + [n])
    else sub.(dropped := sub.dropped + {n})
  }

  function Apply(s: State, a: Action): State
    requires Enabled(s, a)
  {
    match a
    case Call(t, pc) => s.(threads := Goto(s, t, pc))
    case Lock(t) =>
      (match s.threads[t]
       case WantSubscribe => s.(mu := Some(t), threads := Goto(s, t, Adding))
       case WantRemove(k) => s.(mu := Some(t), threads := Goto(s, t, Removing(k)))
       case WantEmit(ev) => s.(mu := Some(t), threads := Goto(s, t, Sending(0)), emitted := s.emitted + [ev])
       case _ => s)
    case Add(t) =>
      s.(mu := None, threads := s.threads - {t}, subs := s.subs + [|s.all|],
         all := s.all + [Sub([], false, None, |s.emitted|, None, [], {})])
    case Remove(t) =>
      var k := s.threads[t].k;
      s.(mu := None, threads := Goto(s, t, WantClose(k)), subs := Without(s.subs, k),
         all := if k in s.subs then s.all[k := s.all[k].(upTo := Some(|s.emitted|))] else s.all)
    case LockSub(t) =>
      (match s.threads[t]
       case Sending(i) =>
         s.(threads := Goto(s, t, Inside(i)), all := s.all[s.subs[i] := s.all[s.subs[i]].(mu := Some(t))])
       case WantClose(k) =>
         s.(threads := Goto(s, t, Closing(k)), all := s.all[k := s.all[k].(mu := Some(t))])
       case _ => s)
    case Send(t) =>
      var i := s.threads[t].i;
      var k := s.subs[i];
      s.(threads := Goto(s, t, Sending(i + 1)),
         all := s.all[k := Sent(s.all[k], if |s.emitted| == 0 then 0 else |s.emitted| - 1).(mu := None)])
    case Finish(t) => s.(mu := None, threads := s.threads - {t})
    case Close(t) =>
      var k := s.threads[t].k;
      s.(threads := s.threads - {t}, all := s.all[k := s.all[k].(closed := true, mu := None)])
    case Take(k) =>
      s.(all := s.all[k := s.all[k].(taken := s.all[k].taken + [s.all[k].buffer[0]], buffer := s.all[k].buffer[1..])])
  }

  predicate Initial(s: State)
  {
    s == State(None, [], [], map[], [])
  }

  predicate Next(s: State, a: Action, t: State)
  {
    Enabled(s, a) && t == Apply(s, a)
  }

  ghost predicate Reachable(s: State)
  {
    Runs.Reachable(Initial, Next, s)
  }

  /** What the consumer has got or will get, as event numbers. */
  function Stream(sub: Sub): seq<nat>
  {
    sub.taken + sub.buffer
  }

  /** Each event numbered from..bound is in the stream or was dropped, none is both, and
      the stream keeps their order. */
  ghost predicate Accounted(sub: Sub, bound: nat)
  {
    && sub.from <= bound
    && (forall n :: n in Stream(sub) || n in sub.dropped <==> sub.from <= n < bound)
    && (forall n :: n in Stream(sub) ==> n !in sub.dropped)
    && (forall i, j :: 0 <= i < j < |Stream(sub)| ==> Stream(sub)[i] < Stream(sub)[j])
    && |sub.buffer| <= BUFFER
  }

  predicate HoldsEmitter(pc: Pc)
  {
    pc.Adding? || pc.Removing? || pc.Sending? || pc.Inside?
  }

  /** How much of the list the current fan-out has served. */
  function Served(s: State): nat
  {
    if s.mu.None? || s.mu.value !in s.threads then |s.subs|
    else match s.threads[s.mu.value]
      case Sending(i) => i
      case Inside(i) => i
      case _ => |s.subs|
  }

  /** Event numbers below this have been offered to subscription k. */
  function Bound(s: State, k: nat): nat
    requires k < |s.all|
  {
    if s.all[k].upTo.Some? then s.all[k].upTo.value
    else if Served(s) <= |s.subs| && k in s.subs[Served(s)..] && s.emitted != [] then |s.emitted| - 1
    else |s.emitted|
  }

  ghost predicate EmitterLockOk(s: State)
  {
    && (forall t :: t in s.threads && HoldsEmitter(s.threads[t]) <==> s.mu == Some(t))
    && (s.mu.Some? ==> Served(s) <= |s.subs|)
    && (s.mu.Some? && (s.threads[s.mu.value].Sending? || s.threads[s.mu.value].Inside?) ==> s.emitted != [])
  }

  ghost predicate LocksOk(s: State)
  {
    && EmitterLockOk(s)
    && (forall t :: t in s.threads ==> ThreadOk(s, t))
    && (forall k :: 0 <= k < |s.all| && s.all[k].mu.Some? ==> HolderOk(s, k, s.all[k].mu.value))
  }

  predicate ThreadOk(s: State, t: nat)
    requires t in s.threads
  {
    match s.threads[t]
    case WantRemove(k) => k < |s.all|
    case Removing(k) => k < |s.all|
    case WantClose(k) => k < |s.all| && k !in s.subs
    case Closing(k) => k < |s.all| && k !in s.subs && s.all[k].mu == Some(t)
    case Inside(i) => i < |s.subs| && s.subs[i] < |s.all| && s.all[s.subs[i]].mu == Some(t)
    case WantSubscribe => true
    case WantEmit(_) => true
    case Adding => true
    case Sending(_) => true
  }

  predicate HolderOk(s: State, k: nat, t: nat)
  {
    t in s.threads && match s.threads[t]
      case Closing(c) => c == k
      case Inside(i) => i < |s.subs| && s.subs[i] == k
      case _ => false
  }

  ghost predicate ListOk(s: State)
  {
    && (forall j :: 0 <= j < |s.subs| ==> s.subs[j] < |s.all|)
    && (forall i, j :: 0 <= i < j < |s.subs| ==> s.subs[i] != s.subs[j])
    && (forall k :: 0 <= k < |s.all| ==> (k in s.subs <==> s.all[k].upTo.None?))
    && (forall k :: 0 <= k < |s.all| && s.all[k].closed ==> k !in s.subs)
  }

  ghost predicate StreamsOk(s: State)
  {
    forall k :: 0 <= k < |s.all| ==> Accounted(s.all[k], Bound(s, k)) && Bound(s, k) <= |s.emitted|
  }

  ghost predicate Inv(s: State)
  {
    ListOk(s) && LocksOk(s) && StreamsOk(s)
  }

  lemma {:induction false} WithoutIs(subs: seq<nat>, k: nat)
    requires forall i, j :: 0 <= i < j < |subs| ==> subs[i] != subs[j]
    ensures var r := Without(subs, k);
      && (forall i, j :: 0 <= i < j < |r| ==> r[i] != r[j])
      && (forall x :: x in r <==> x in subs && x != k)
      && (k !in subs ==> r == subs)
  {
    if subs != [] && subs[0] != k {
      WithoutIs(subs[1..], k);
      var r := Without(subs, k);
      forall x ensures x in r <==> x in subs && x != k {
        assert x in subs <==> x == subs[0] || x in subs[1..];
        assert x in r <==> x == subs[0] || x in Without(subs[1..], k);
      }
      forall j | 0 < j < |r| ensures r[j] != r[0] {
        assert r[j] in Without(subs[1..], k);
      }
    } else if subs != [] {
      forall x ensures x in subs[1..] <==> x in subs && x != k {
        assert x in subs <==> x == subs[0] || x in subs[1..];
      }
    }
  }

  lemma ListStep(s: State, a: Action, t: State)
    requires ListOk(s) && LocksOk(s) && Next(s, a, t)
    ensures ListOk(t)
  {
    if a.Remove? {
      WithoutIs(s.subs, s.threads[a.t].k);
      ListRemove(s, t, s.threads[a.t].k);
    } else if a.Add? {
      ListAdd(s, a.t, t);
    } else {
      if a.Close? {
        assert ThreadOk(s, a.t);
      }
      ListFrame(s, t);
    }
  }

  lemma ListFrame(s: State, t: State)
    requires ListOk(s) && t.subs == s.subs && |t.all| == |s.all|
    requires forall k :: 0 <= k < |s.all| ==> t.all[k].upTo == s.all[k].upTo
    requires forall k :: 0 <= k < |s.all| && t.all[k].closed ==> s.all[k].closed || k !in s.subs
    ensures ListOk(t)
  {
  }

  lemma ListAdd(s: State, w: nat, t: State)
    requires ListOk(s) && Next(s, Add(w), t)
    ensures ListOk(t)
  {
    forall k | 0 <= k < |t.all| ensures k in t.subs <==> t.all[k].upTo.None? {
      assert k in t.subs <==> k in s.subs || k == |s.all|;
    }
  }

  lemma ListRemove(s: State, t: State, k: nat)
    requires ListOk(s) && k < |s.all| && t.subs == Without(s.subs, k)
    requires forall x :: x in t.subs <==> x in s.subs && x != k
    requires forall i, j :: 0 <= i < j < |t.subs| ==> t.subs[i] != t.subs[j]
    requires t.all == if k in s.subs then s.all[k := s.all[k].(upTo := Some(|s.emitted|))] else s.all
    ensures ListOk(t)
  {
    forall j | 0 <= j < |t.subs| ensures t.subs[j] < |t.all| {
      assert t.subs[j] in s.subs;
    }
  }

  /** Threads other than w see no difference when the list keeps what they point at and
      the locks they hold stay theirs. */
  lemma ThreadsFrame(s: State, w: nat, t: State)
    requires LocksOk(s) && |s.all| <= |t.all|
    requires t.threads - {w} == s.threads - {w}
    requires forall k :: 0 <= k < |s.all| && k !in s.subs ==> k !in t.subs
    requires forall k :: 0 <= k < |s.all| && s.all[k].mu.Some? && s.all[k].mu != Some(w) ==> t.all[k].mu == s.all[k].mu
    requires t.subs == s.subs || s.mu == Some(w)
    ensures forall u :: u in t.threads && u != w ==> ThreadOk(t, u)
  {
    forall u | u in t.threads && u != w ensures ThreadOk(t, u) {
      assert u in t.threads - {w} && u in s.threads;
      assert t.threads[u] == (t.threads - {w})[u] == s.threads[u];
      assert ThreadOk(s, u);
    }
  }

  lemma HoldersFrame(s: State, w: nat, t: State)
    requires LocksOk(s) && |s.all| <= |t.all|
    requires t.threads - {w} == s.threads - {w}
    requires forall k :: 0 <= k < |t.all| && t.all[k].mu.Some? && t.all[k].mu != Some(w) ==>
      k < |s.all| && t.all[k].mu == s.all[k].mu
    requires t.subs == s.subs || s.mu == Some(w)
    ensures forall k :: 0 <= k < |t.all| && t.all[k].mu.Some? && t.all[k].mu != Some(w) ==>
      HolderOk(t, k, t.all[k].mu.value)
  {
    forall k | 0 <= k < |t.all| && t.all[k].mu.Some? && t.all[k].mu != Some(w)
      ensures HolderOk(t, k, t.all[k].mu.value)
    {
      var u := t.all[k].mu.value;
      assert HolderOk(s, k, u);
      assert u in s.threads - {w} && s.threads[u] == (s.threads - {w})[u] == t.threads[u];
    }
  }

  lemma Removal(s: State, w: nat, t: State)
    requires ListOk(s) && LocksOk(s) && Next(s, Remove(w), t)
    ensures forall x :: x in t.subs <==> x in s.subs && x != s.threads[w].k
  {
    WithoutIs(s.subs, s.threads[w].k);
  }

  /** The thread that moves: what it points at, and the subscription locks it holds. */
  lemma OwnLocks(s: State, a: Action, t: State)
    requires ListOk(s) && LocksOk(s) && Next(s, a, t) && !a.Take?
    ensures a.t in t.threads ==> ThreadOk(t, a.t)
    ensures forall k :: 0 <= k < |t.all| && t.all[k].mu == Some(a.t) ==> HolderOk(t, k, a.t)
  {
    var w := a.t;
    if w in s.threads {
      assert ThreadOk(s, w);
    }
    if a.Remove? {
      Removal(s, w, t);
    }
    assert forall k :: 0 <= k < |s.all| && s.all[k].mu == Some(w) ==> HolderOk(s, k, w);
  }

  lemma EmitterLockStep(s: State, a: Action, t: State)
    requires EmitterLockOk(s) && Next(s, a, t)
    ensures EmitterLockOk(t)
  {
    if !a.Take? {
      forall u | u != a.t ensures u in t.threads && HoldsEmitter(t.threads[u]) <==> t.mu == Some(u) {
        assert u in t.threads <==> u in s.threads;
      }
    }
  }

  lemma LocksStep(s: State, a: Action, t: State)
    requires ListOk(s) && LocksOk(s) && Next(s, a, t)
    ensures LocksOk(t)
  {
    EmitterLockStep(s, a, t);
    if a.Take? {
      forall u | u in t.threads ensures ThreadOk(t, u) {
        assert ThreadOk(s, u);
      }
      forall k | 0 <= k < |t.all| && t.all[k].mu.Some? ensures HolderOk(t, k, t.all[k].mu.value) {
        assert HolderOk(s, k, s.all[k].mu.value);
      }
    } else {
      MoveFrame(s, a, t);
      ListMoves(s, a, t);
      ThreadsFrame(s, a.t, t);
      HoldersFrame(s, a.t, t);
      OwnLocks(s, a, t);
    }
  }

  /** What a thread's move leaves alone. */
  lemma MoveFrame(s: State, a: Action, t: State)
    requires ListOk(s) && LocksOk(s) && Next(s, a, t) && !a.Take?
    ensures |s.all| <= |t.all|
    ensures t.threads - {a.t} == s.threads - {a.t}
    ensures forall k :: 0 <= k < |s.all| && s.all[k].mu.Some? && s.all[k].mu != Some(a.t) ==> t.all[k].mu == s.all[k].mu
    ensures forall k :: 0 <= k < |t.all| && t.all[k].mu.Some? && t.all[k].mu != Some(a.t) ==>
      k < |s.all| && t.all[k].mu == s.all[k].mu
  {
    if a.t in s.threads {
      assert ThreadOk(s, a.t);
    }
  }

  lemma ListMoves(s: State, a: Action, t: State)
    requires ListOk(s) && LocksOk(s) && Next(s, a, t) && !a.Take?
    ensures forall k :: 0 <= k < |s.all| && k !in s.subs ==> k !in t.subs
    ensures t.subs == s.subs || s.mu == Some(a.t)
  {
    if a.Remove? {
      Removal(s, a.t, t);
    } else if a.Add? {
      forall k | 0 <= k < |s.all| && k !in s.subs ensures k !in t.subs {
        assert k != |s.all|;
      }
    }
  }

  lemma TakeKeeps(sub: Sub, bound: nat)
    requires Accounted(sub, bound) && sub.buffer != []
    ensures Accounted(sub.(taken := sub.taken + [sub.buffer[0]], buffer := sub.buffer[1..]), bound)
  {
    var t := sub.(taken := sub.taken + [sub.buffer[0]], buffer := sub.buffer[1..]);
    assert Stream(t) == Stream(sub);
  }

  lemma SendAccounts(sub: Sub, n: nat)
    requires Accounted(sub, n) && !sub.closed
    ensures Accounted(Sent(sub, n), n + 1)
  {
    if |sub.buffer| < BUFFER {
      assert Stream(Sent(sub, n)) == Stream(sub) + [n];
      assert forall i :: 0 <= i < |Stream(sub)| ==> Stream(sub)[i] in Stream(sub);
    }
  }

  /** Locks and close flags are no part of a stream. */
  lemma SameStream(sub: Sub, t: Sub, bound: nat)
    requires Accounted(sub, bound)
    requires t == sub.(mu := t.mu, closed := t.closed, upTo := t.upTo)
    ensures Accounted(t, bound)
  {
    assert Stream(t) == Stream(sub);
  }

  lemma StreamsStep(s: State, a: Action, t: State)
    requires Inv(s) && Next(s, a, t)
    ensures StreamsOk(t)
  {
    forall k | 0 <= k < |t.all| ensures Accounted(t.all[k], Bound(t, k)) && Bound(t, k) <= |t.emitted| {
      if k == |s.all| {
        assert k !in t.subs[|t.subs|..];
      } else if a.Send? && Target(s, a.t) == k {
        StreamSent(s, a.t, t);
      } else {
        StreamKept(s, a, t, k);
      }
    }
  }

  /** The subscription a sending thread is inside. */
  function Target(s: State, w: nat): nat
    requires Enabled(s, Send(w))
  {
    s.subs[s.threads[w].i]
  }

  lemma StreamSent(s: State, w: nat, t: State)
    requires Inv(s) && Next(s, Send(w), t)
    ensures var k := Target(s, w); Accounted(t.all[k], Bound(t, k)) && Bound(t, k) <= |t.emitted|
  {
    var k := Target(s, w);
    SentBound(s, w, t);
    SendAccounts(s.all[k], |s.emitted| - 1);
    SameStream(Sent(s.all[k], |s.emitted| - 1), t.all[k], |s.emitted|);
  }

  lemma StreamKept(s: State, a: Action, t: State, k: nat)
    requires Inv(s) && Next(s, a, t) && k < |s.all| && !(a.Send? && Target(s, a.t) == k)
    ensures Accounted(t.all[k], Bound(t, k)) && Bound(t, k) <= |t.emitted|
  {
    SameBound(s, a, t, k);
    if a == Take(k) {
      TakeKeeps(s.all[k], Bound(s, k));
    } else {
      SameStream(s.all[k], t.all[k], Bound(s, k));
    }
  }

  lemma SentBound(s: State, w: nat, t: State)
    requires Inv(s) && Next(s, Send(w), t)
    ensures var k := Target(s, w);
      !s.all[k].closed && s.emitted != [] && Bound(s, k) == |s.emitted| - 1 && Bound(t, k) == |s.emitted|
  {
    var i := s.threads[w].i;
    assert s.mu == Some(w) && s.subs[i..][0] == s.subs[i];
    forall j | i < j < |s.subs| ensures s.subs[j] != s.subs[i] {
    }
  }

  /** Steps that neither serve a subscription nor change the list or the history. */
  lemma QuietServed(s: State, a: Action, t: State)
    requires EmitterLockOk(s) && Next(s, a, t)
    requires a.Call? || a.LockSub? || a.Close? || a.Take? || a.Finish?
    ensures t.subs == s.subs && t.emitted == s.emitted && Served(t) == Served(s)
  {
    if !a.Take? {
      assert a.t in s.threads && HoldsEmitter(s.threads[a.t]) <==> s.mu == Some(a.t);
    }
  }

  lemma SameBound(s: State, a: Action, t: State, k: nat)
    requires ListOk(s) && LocksOk(s) && Next(s, a, t) && k < |s.all|
    requires !(a.Send? && Target(s, a.t) == k)
    ensures Bound(t, k) == Bound(s, k)
  {
    if a.Send? {
      OthersSameBound(s, a.t, t, k);
    } else if a.Lock? {
      LockBound(s, a.t, t, k);
    } else if a.Remove? || a.Add? {
      ServedAroundList(s, a, t);
      assert s.all[k].upTo.None? <==> k in s.subs;
    } else {
      QuietServed(s, a, t);
    }
  }

  lemma OthersSameBound(s: State, w: nat, t: State, k: nat)
    requires EmitterLockOk(s) && Next(s, Send(w), t) && k < |s.all| && Target(s, w) != k
    ensures Bound(t, k) == Bound(s, k)
  {
    assert s.mu == Some(w) && t.all[k] == s.all[k];
    var i := s.threads[w].i;
    assert s.subs[i..] == [s.subs[i]] + s.subs[i + 1..];
  }

  lemma ServedAroundList(s: State, a: Action, t: State)
    requires EmitterLockOk(s) && Next(s, a, t) && (a.Remove? || a.Add?)
    ensures Served(s) == |s.subs| && Served(t) == |t.subs|
  {
    assert s.mu == Some(a.t);
  }

  lemma LockBound(s: State, w: nat, t: State, k: nat)
    requires ListOk(s) && Next(s, Lock(w), t) && k < |s.all|
    ensures Bound(t, k) == Bound(s, k)
  {
    assert s.all[k].upTo.None? <==> k in s.subs;
    assert s.subs[0..] == s.subs && s.subs[|s.subs|..] == [];
  }

  lemma InvStep(s: State, a: Action, t: State)
    requires Inv(s) && Next(s, a, t)
    ensures Inv(t)
  {
    ListStep(s, a, t);
    LocksStep(s, a, t);
    StreamsStep(s, a, t);
  }

  lemma ReachableInv(s: State)
    requires Reachable(s)
    ensures Inv(s)
  {
    forall x, a, y | Inv(x) && Next(x, a, y) ensures Inv(y) {
      InvStep(x, a, y);
    }
    Runs.InvariantReachable(Initial, Next, x => Inv(x), s);
  }

  /** No send follows a close.  Since the emitter's lock is held across the fan-out, an
      Emit does not even meet a closed subscription. */
  lemma NoSendAfterClose(s: State, t: nat)
    requires Reachable(s) && t in s.threads && s.threads[t].Inside?
    ensures s.threads[t].i < |s.subs| && s.subs[s.threads[t].i] < |s.all|
    ensures !s.all[s.subs[s.threads[t].i]].closed
  {
    ReachableInv(s);
    assert ThreadOk(s, t) && s.subs[s.threads[t].i] in s.subs;
  }

  predicate IsMove(a: Action)
  {
    !a.Call? && !a.Take?
  }

  /** The thread whose lock keeps t from moving, if any. */
  function WaitsFor(s: State, t: nat): Option<nat>
    requires t in s.threads
  {
    match s.threads[t]
    case WantSubscribe => s.mu
    case WantRemove(_) => s.mu
    case WantEmit(_) => s.mu
    case Sending(i) => if i < |s.subs| && s.subs[i] < |s.all| then s.all[s.subs[i]].mu else None
    case WantClose(k) => if k < |s.all| then s.all[k].mu else None
    case Adding => None
    case Removing(_) => None
    case Inside(_) => None
    case Closing(_) => None
  }

  ghost predicate CanMove(s: State, t: nat)
  {
    exists a :: IsMove(a) && a.t == t && Enabled(s, a)
  }

  /** No thread is ever caught in a deadlock: each active thread can move by itself, or the
      holder of the lock it waits for can move now, without help from a consumer.  So
      chains of waiting threads have length one and none is circular. */
  lemma NoDeadlock(s: State, t: nat)
    requires Reachable(s) && t in s.threads
    ensures match WaitsFor(s, t)
      case None => CanMove(s, t)
      case Some(holder) => holder in s.threads && WaitsFor(s, holder) == None && CanMove(s, holder)
  {
    ReachableInv(s);
    assert ThreadOk(s, t);
    if WaitsFor(s, t).None? {
      FreeThreadMoves(s, t);
    } else {
      var holder := WaitsFor(s, t).value;
      WaiterMeetsHolder(s, t);
      HolderIsFree(s, holder);
      FreeThreadMoves(s, holder);
    }
  }

  lemma WaiterMeetsHolder(s: State, t: nat)
    requires Inv(s) && t in s.threads && WaitsFor(s, t).Some?
    ensures var holder := WaitsFor(s, t).value;
      holder in s.threads && (HoldsEmitter(s.threads[holder]) || s.threads[holder].Closing?)
  {
    assert ThreadOk(s, t);
    if s.threads[t].Sending? {
      NextSubIsFree(s, t);
    } else if s.threads[t].WantClose? {
      assert HolderOk(s, s.threads[t].k, WaitsFor(s, t).value);
    }
  }

  lemma HolderIsFree(s: State, t: nat)
    requires Inv(s) && t in s.threads && (HoldsEmitter(s.threads[t]) || s.threads[t].Closing?)
    ensures WaitsFor(s, t) == None
  {
    if s.threads[t].Sending? && s.threads[t].i < |s.subs| {
      NextSubIsFree(s, t);
    }
  }

  lemma FreeThreadMoves(s: State, t: nat)
    requires Inv(s) && t in s.threads && WaitsFor(s, t) == None
    ensures CanMove(s, t)
  {
    assert ThreadOk(s, t);
    var a := match s.threads[t]
      case WantSubscribe => Lock(t)
      case WantRemove(_) => Lock(t)
      case WantEmit(_) => Lock(t)
      case Adding => Add(t)
      case Removing(_) => Remove(t)
      case Sending(i) => if i == |s.subs| then Finish(t) else LockSub(t)
      case Inside(_) => Send(t)
      case WantClose(_) => LockSub(t)
      case Closing(_) => Close(t);
    assert IsMove(a) && a.t == t && Enabled(s, a);
  }

  /** Moves the holder of the emitter's lock still needs to give it up. */
  function MovesLeft(s: State): nat
  {
    if s.mu.None? || s.mu.value !in s.threads then 0
    else match s.threads[s.mu.value]
      case Sending(i) => if i <= |s.subs| then 2 * (|s.subs| - i) + 1 else 0
      case Inside(i) => if i <= |s.subs| then 2 * (|s.subs| - i) else 0
      case _ => 1
  }

  /** The emitter's lock is given up after finitely many moves of its holder, and nobody
      else's move puts that off. */
  lemma LockComesFree(s: State, a: Action, t: State)
    requires Reachable(s) && Next(s, a, t) && s.mu.Some?
    ensures IsMove(a) && a.t == s.mu.value ==> t.mu.None? || (t.mu == s.mu && MovesLeft(t) < MovesLeft(s))
    ensures a.Take? || a.t != s.mu.value ==> t.mu == s.mu && MovesLeft(t) == MovesLeft(s)
  {
    ReachableInv(s);
    assert s.mu.value in s.threads && HoldsEmitter(s.threads[s.mu.value]) && ThreadOk(s, s.mu.value);
  }

  lemma SubHeldMeans(s: State, k: nat)
    requires ListOk(s) && LocksOk(s) && k < |s.all| && s.all[k].mu.Some?
    ensures k !in s.subs || (s.mu.Some? && s.mu.value in s.threads && s.threads[s.mu.value].Inside?)
  {
    var u := s.all[k].mu.value;
    assert HolderOk(s, k, u) && ThreadOk(s, u);
    assert s.threads[u].Inside? ==> s.mu == Some(u);
  }

  /** An Emit that has the emitter's lock never waits: whoever closes a subscription has
      taken it off the list first. */
  lemma NextSubIsFree(s: State, t: nat)
    requires ListOk(s) && LocksOk(s) && t in s.threads && s.threads[t].Sending? && s.threads[t].i < |s.subs|
    ensures s.subs[s.threads[t].i] < |s.all| && s.all[s.subs[s.threads[t].i]].mu.None?
  {
    var k := s.subs[s.threads[t].i];
    assert k in s.subs && s.mu == Some(t);
    if s.all[k].mu.Some? {
      SubHeldMeans(s, k);
      assert false;
    }
  }

  /** Each subscriber's stream is, in order, the events emitted while it was subscribed
      minus those dropped; between fan-outs nothing is outstanding. */
  lemma StreamLaw(s: State, k: nat)
    requires Reachable(s) && k < |s.all|
    ensures var sub := s.all[k];
      && Bound(s, k) <= |s.emitted|
      && (forall n :: n in Stream(sub) || n in sub.dropped <==> sub.from <= n < Bound(s, k))
      && (forall n :: n in Stream(sub) ==> n !in sub.dropped)
      && (forall i, j :: 0 <= i < j < |Stream(sub)| ==> Stream(sub)[i] < Stream(sub)[j])
    ensures s.mu.None? ==> Bound(s, k) == if s.all[k].upTo.Some? then s.all[k].upTo.value else |s.emitted|
  {
    ReachableInv(s);
    assert s.subs[|s.subs|..] == [];
  }

  /** An event is lost only to a subscriber whose own buffer holds 64 events. */
  lemma DroppedOnlyWhenFull(s: State, a: Action, t: State, k: nat, n: nat)
    requires Reachable(s) && Next(s, a, t) && k < |s.all|
    requires n in t.all[k].dropped && n !in s.all[k].dropped
    ensures a.Send? && |s.all[k].buffer| == 64 && n == |s.emitted| - 1
  {
    ReachableInv(s);
    if a.Send? {
      SentBound(s, a.t, t);
    }
  }

  /** An Unsubscribe ends its subscription: when it returns the subscription is closed and off
      the list, and no step ever opens a closed one or lists it again. */
  lemma CloseEnds(s: State, a: Action, t: State, k: nat)
    requires Reachable(s) && Next(s, a, t) && k < |s.all|
    ensures k < |t.all|
    ensures a.Close? && s.threads[a.t].k == k ==> t.all[k].closed && k !in t.subs
    ensures s.all[k].closed ==> t.all[k].closed
    ensures k !in s.subs ==> k !in t.subs
  {
    ReachableInv(s);
    if a.Close? && s.threads[a.t].k == k {
      assert ThreadOk(s, a.t);
    }
    if a.Remove? {
      WithoutKeeps(s.subs, s.threads[a.t].k, k);
    }
  }

  lemma {:induction false} WithoutKeeps(subs: seq<nat>, gone: nat, k: nat)
    ensures k in Without(subs, gone) ==> k in subs
  {
    if subs != [] {
      WithoutKeeps(subs[1..], gone, k);
    }
  }

  /** A subscription's channel, as one thread at a time sees it. */
  class Subscription {
    var ch: seq<int>
    var closed: bool

    constructor ()
      ensures ch == [] && !closed
    {
      ch, closed := [], false;
    }

    method Send(ev: int)
      modifies this`ch
      ensures ch == if !closed && |old(ch)| < 64 then old(ch) + [ev] else old(ch)
    {
      if closed {
        return;
      }
      if |ch| < BUFFER {
        ch := ch + [ev];
      }
    }

    method Close()
      modifies this`closed
      ensures closed
    {
      if closed {
        return;
      }
      closed := true;
    }
  }

  class Emitter {
    var subs: seq<Subscription>

    ghost predicate Valid()
      reads this
    {
      forall i, j :: 0 <= i < j < |subs| ==> subs[i] != subs[j]
    }

    method Subscribe() returns (sub: Subscription)
      requires Valid()
      modifies this
      ensures Valid() && fresh(sub) && subs == old(subs) + [sub] && sub.ch == [] && !sub.closed
    {
      sub := new Subscription();
      subs := subs + [sub];
    }

    /** Calling it twice is harmless. */
    method Unsubscribe(sub: Subscription)
      requires Valid()
      modifies this, sub`closed
      ensures Valid() && sub.closed && sub !in subs
      ensures sub !in old(subs) ==> subs == old(subs)
      ensures forall i :: 0 <= i < |old(subs)| && old(subs)[i] == sub ==> subs == RemoveAt(old(subs), i)
    {
      for i := 0 to |subs|
        invariant subs == old(subs) && sub !in subs[..i]
      {
        if subs[i] == sub {
          subs := RemoveAt(subs, i);
          break;
        }
      }
      sub.Close();
    }

    /** Every subscriber with room gets the event, whatever the others do. */
    method Emit(ev: int)
      requires Valid()
      modifies set i | 0 <= i < |subs| :: subs[i]`ch
      ensures forall i :: 0 <= i < |subs| ==>
        subs[i].ch == if !subs[i].closed && |old(subs[i].ch)| < 64 then old(subs[i].ch) + [ev] else old(subs[i].ch)
    {
      for i := 0 to |subs|
        invariant forall j :: i <= j < |subs| ==> subs[j].ch == old(subs[j].ch)
        invariant forall j :: 0 <= j < i ==>
          subs[j].ch == if !subs[j].closed && |old(subs[j].ch)| < 64
            then old(subs[j].ch) + [ev] else old(subs[j].ch)
      {
        subs[i].Send(ev);
      }
    }
  }
}
