/**
 * Account supervision: StartAccount and StopAccount under the engine's lock, and one
 * supervise goroutine per started worker, interleaved in every way.
 *
 * A start is numbered; the number stands for the worker it made, the context it
 * derived and the supervisor it spawned.
 */
module Supervisor {
  import opened Common
  import Runs

  /** Where a start's context comes from: the engine's, or the caller's before Run. */
  datatype Base = Root | Caller(request: nat)

  datatype Phase =
    | Launching      // top of the loop
    | Running        // waiting for the worker to return
    | Returned       // worker returned, first ctx.Done check next
    | Owning         // WorkerFor check next
    | Sleeping
    | Gone

  datatype Sup = Sup(id: int, base: Base, phase: Phase)

  datatype State = State(
    started: bool,              // Run has recorded rootCtx
    workers: map<int, nat>,
    cancels: map<int, nat>,
    cancelled: set<nat>,        // starts whose own cancel function was called
    dead: set<Base>,            // base contexts that are done
    sups: seq<Sup>)

  datatype Action =
    | Run
    | Start(id: int, request: nat)
    | Stop(id: int)
    | Die(base: Base)
    | CancelAll                 // end of Run: every cancel function, maps kept
    | Launch(k: nat) | Return(k: nat) | CheckDone(k: nat) | CheckOwner(k: nat)
    | WakeUp(k: nat) | SleepDone(k: nat)

  predicate Done(s: State, k: nat)
    requires k < |s.sups|
  {
    k in s.cancelled || s.sups[k].base in s.dead
  }

  predicate In(s: State, k: nat, phase: Phase)
  {
    k < |s.sups| && s.sups[k].phase == phase
  }

  predicate Enabled(s: State, a: Action)
  {
    match a
    case Run => true
    case Start(_, _) => true
    case Stop(_) => true
    case Die(_) => true
    case CancelAll => Root in s.dead
    case Launch(k) => In(s, k, Launching)
    case Return(k) => In(s, k, Running)
    case CheckDone(k) => In(s, k, Returned)
    case CheckOwner(k) => In(s, k, Owning)
    case WakeUp(k) => In(s, k, Sleeping)
    case SleepDone(k) => In(s, k, Sleeping) && Done(s, k)
  }

  function To(s: State, k: nat, phase: Phase): State
    requires k < |s.sups|
  {
    s.(sups := s.sups[k := s.sups[k].(phase := phase)])
  }

  function Apply(s: State, a: Action): State
    requires Enabled(s, a)
  {
    match a
    case Run => s.(started := true)
    case Start(id, request) =>
      if id in s.workers then s
      else
        var k := |s.sups|;
        s.(workers := s.workers[id := k], cancels := s.cancels[id := k],
           sups := s.sups + [Sup(id, if s.started then Root else Caller(request), Launching)])
    case Stop(id) =>
      s.(cancelled := if id in s.cancels then s.cancelled + {s.cancels[id]} else s.cancelled,
         workers := s.workers - {id}, cancels := s.cancels - {id})
    case Die(base) => s.(dead := s.dead + {base})
    case CancelAll => s.(cancelled := s.cancelled + s.cancels.Values)
    case Launch(k) => To(s, k, Running)
    case Return(k) => To(s, k, Returned)
    case CheckDone(k) => To(s, k, if Done(s, k) then Gone else Owning)
    case CheckOwner(k) =>
      var id := s.sups[k].id;
      To(s, k, if id in s.workers && s.workers[id] == k then Sleeping else Gone)
    case WakeUp(k) => To(s, k, Launching)
    case SleepDone(k) => To(s, k, Gone)
  }

  predicate Initial(s: State)
  {
    s == State(false, map[], map[], {}, {}, [])
  }

  predicate Next(s: State, a: Action, t: State)
  {
    Enabled(s, a) && t == Apply(s, a)
  }

  ghost predicate Reachable(s: State)
  {
    Runs.Reachable(Initial, Next, s)
  }

  predicate Owns(s: State, k: nat)
    requires k < |s.sups|
  {
    s.sups[k].id in s.workers && s.workers[s.sups[k].id] == k
  }

  ghost predicate Inv(s: State)
  {
    && s.cancels == s.workers
    && (forall id :: id in s.workers ==> s.workers[id] < |s.sups| && s.sups[s.workers[id]].id == id)
    && (forall id :: id in s.workers && s.workers[id] in s.cancelled ==> Root in s.dead)
    && (forall k :: 0 <= k < |s.sups| && k !in s.cancelled ==> Owns(s, k))
    && (forall k :: 0 <= k < |s.sups| && s.sups[k].phase.Gone? ==> Done(s, k))
    && (forall k :: k in s.cancelled ==> k < |s.sups|)
  }

  lemma InvStep(s: State, a: Action, t: State)
    requires Inv(s) && Next(s, a, t)
    ensures Inv(t)
  {
    if a.Stop? {
      StopStep(s, a.id, t);
    } else if a.Start? {
      StartStep(s, a.id, a.request, t);
    } else if a.Run? || a.Die? || a.CancelAll? {
      RootStep(s, a, t);
    } else {
      PhaseStep(s, a, t);
    }
  }

  lemma StopStep(s: State, id: int, t: State)
    requires Inv(s) && Next(s, Stop(id), t)
    ensures Inv(t)
  {
    forall k | 0 <= k < |t.sups| && k !in t.cancelled ensures Owns(t, k) {
      assert Owns(s, k);
    }
  }

  lemma StartStep(s: State, id: int, request: nat, t: State)
    requires Inv(s) && Next(s, Start(id, request), t)
    ensures Inv(t)
  {
    forall k | 0 <= k < |t.sups| && k !in t.cancelled ensures Owns(t, k) {
      assert k < |s.sups| ==> Owns(s, k);
    }
  }

  lemma RootStep(s: State, a: Action, t: State)
    requires Inv(s) && Next(s, a, t) && (a.Run? || a.Die? || a.CancelAll?)
    ensures Inv(t)
  {
    forall k | 0 <= k < |t.sups| && k !in t.cancelled ensures Owns(t, k) {
      assert Owns(s, k);
    }
  }

  /** A supervisor moves: only its phase changes, and it only leaves when it may. */
  lemma PhaseStep(s: State, a: Action, t: State)
    requires Inv(s) && Next(s, a, t)
    requires a.Launch? || a.Return? || a.CheckDone? || a.CheckOwner? || a.WakeUp? || a.SleepDone?
    ensures Inv(t)
  {
    assert t == To(s, a.k, t.sups[a.k].phase);
    forall k | 0 <= k < |t.sups| && k !in t.cancelled ensures Owns(t, k) {
      assert Owns(s, k);
    }
  }

  lemma ReachableInv(s: State)
    requires Reachable(s)
    ensures Inv(s)
  {
    forall x, a, y | Inv(x) && Next(x, a, y) ensures Inv(y) {
      InvStep(x, a, y);
    }
    Runs.InvariantReachable(Initial, Next, x => Inv(x), s);
  }

  /** A supervisor whose context is live is the registered one: no disowned supervisor
      can run an iteration with a live context, and the WorkerFor check never stops a
      supervisor that ctx.Done would not have stopped. */
  lemma LiveMeansOwner(s: State, k: nat)
    requires Reachable(s) && k < |s.sups| && !Done(s, k)
    ensures Owns(s, k) && !s.sups[k].phase.Gone?
  {
    ReachableInv(s);
  }

  /** As long as its base context lives, a registered account has exactly one supervisor
      with a live context, and it is still looping. */
  lemma ExactlyOneSupervisor(s: State, id: int)
    requires Reachable(s) && id in s.workers
    requires Root !in s.dead && (s.workers[id] < |s.sups| ==> s.sups[s.workers[id]].base !in s.dead)
    ensures var k := s.workers[id];
      && k < |s.sups| && s.sups[k].id == id && !Done(s, k) && !s.sups[k].phase.Gone?
      && forall j :: 0 <= j < |s.sups| && s.sups[j].id == id && !Done(s, j) ==> j == k
  {
    ReachableInv(s);
    forall j | 0 <= j < |s.sups| && s.sups[j].id == id && !Done(s, j) ensures j == s.workers[id] {
      assert Owns(s, j);
    }
  }

  /** Removing and adding an account back yields a new supervisor while the old one, in
      whatever phase it is, can only run down. */
  lemma RestartIsClean(s: State, id: int, request: nat)
    requires Reachable(s) && id in s.workers
    ensures var before := s.workers[id];
      var t := Apply(Apply(s, Stop(id)), Start(id, request));
      && before < |t.sups| && Done(t, before)
      && t.workers[id] == |s.sups| && t.sups[|s.sups|].phase == Launching
      && t.workers - {id} == s.workers - {id}
  {
    ReachableInv(s);
    var stopped := Apply(s, Stop(id));
    var t := Apply(stopped, Start(id, request));
    assert s.workers[id] in stopped.cancelled;
    assert t.workers - {id} == s.workers - {id};
  }

  /** While the engine lives, exactly when a registered account is stranded, with no
      supervisor whose context is live: when the context its start derived from is done. */
  lemma StrandedIff(s: State, id: int)
    requires Reachable(s) && id in s.workers && Root !in s.dead
    ensures s.workers[id] < |s.sups|
    ensures (exists k :: 0 <= k < |s.sups| && s.sups[k].id == id && !Done(s, k)) <==>
      s.sups[s.workers[id]].base !in s.dead
  {
    ReachableInv(s);
    if k :| 0 <= k < |s.sups| && s.sups[k].id == id && !Done(s, k) {
      assert Owns(s, k);
    }
    if s.sups[s.workers[id]].base !in s.dead {
      assert !Done(s, s.workers[id]);
    }
  }

  lemma {:induction false} BaseKept(s: State, acts: seq<Action>, t: State)
    requires Runs.Run(Next, s, acts, t)
    ensures s.started ==> t.started
    ensures |s.sups| <= |t.sups| && forall k :: 0 <= k < |s.sups| ==>
      t.sups[k].base == s.sups[k].base && t.sups[k].id == s.sups[k].id
    decreases |acts|
  {
    if acts != [] {
      var m :| Next(s, acts[0], m) && Runs.Run(Next, m, acts[1..], t);
      BaseKept(m, acts[1..], t);
    }
  }

  /** What a caller can check: an account started after Run is never stranded.  Whatever
      happens afterwards, as long as this start is the registered one and the engine
      lives, its supervisor has a live context and is still looping. */
  lemma StartAfterRunNeverStrands(s: State, id: int, request: nat, acts: seq<Action>, t: State)
    requires Reachable(s) && s.started && id !in s.workers
    requires Runs.Run(Next, Apply(s, Start(id, request)), acts, t)
    requires id in t.workers && t.workers[id] == |s.sups| && Root !in t.dead
    ensures |s.sups| < |t.sups| && !Done(t, |s.sups|) && !t.sups[|s.sups|].phase.Gone?
  {
    var m := Apply(s, Start(id, request));
    Runs.ReachStep(Initial, Next, s, Start(id, request), m);
    Runs.ReachRun(Initial, Next, m, acts, t);
    BaseKept(m, acts, t);
    ReachableInv(t);
  }

  /** How far a supervisor whose context is done is from being gone. */
  function StepsLeft(s: State, k: nat): nat
    requires k < |s.sups|
  {
    match s.sups[k].phase
    case Gone => 0
    case Returned => 1
    case Running => 2
    case Launching => 3
    case Sleeping => 4
    case Owning => 5
  }

  /** A supervisor whose context is done runs down: whatever step is taken, it is left alone
      or closer to being gone, so the worker runs at most once more; nothing revives it. */
  lemma DoneRunsDown(s: State, k: nat, a: Action, t: State)
    requires k < |s.sups| && Done(s, k) && Next(s, a, t)
    ensures k < |t.sups| && Done(t, k)
    ensures t.sups[k] == s.sups[k] || StepsLeft(t, k) < StepsLeft(s, k)
  {
  }

  /** And until it is gone, some step of it is possible. */
  lemma DoneCanStep(s: State, k: nat) returns (a: Action)
    requires k < |s.sups| && Done(s, k) && !s.sups[k].phase.Gone?
    ensures Enabled(s, a) && k < |Apply(s, a).sups| && StepsLeft(Apply(s, a), k) < StepsLeft(s, k)
  {
    match s.sups[k].phase
    case Launching => a := Launch(k);
    case Running => a := Return(k);
    case Returned => a := CheckDone(k);
    case Owning => a := CheckOwner(k);
    case Sleeping => a := SleepDone(k);
    case Gone => assert false;
  }

  /** At the ownership check and no longer registered. */
  predicate TurnedAway(s: State, k: nat)
  {
    k < |s.sups| && !Owns(s, k) && (s.sups[k].phase == Owning || s.sups[k].phase == Gone)
  }

  /** A supervisor that comes to the ownership check after its account was stopped never
      launches its worker again, whatever becomes of its context and of the account. */
  lemma DisownedLeaves(s: State, k: nat, acts: seq<Action>, t: State)
    requires Reachable(s) && TurnedAway(s, k) && Runs.Run(Next, s, acts, t)
    ensures k < |t.sups| && (t.sups[k].phase == Owning || t.sups[k].phase == Gone)
  {
    ReachableInv(s);
    forall x, a, y | Inv(x) && TurnedAway(x, k) && Next(x, a, y) ensures Inv(y) && TurnedAway(y, k) {
      InvStep(x, a, y);
    }
    Runs.InvariantRun(Next, x => Inv(x) && TurnedAway(x, k), s, acts, t);
  }

  /** Started before Run under a request that has ended, an account stays registered
      with nothing running, and starting it again does nothing. */
  lemma StartBeforeRunCanStrand(id: int, request: nat, again: nat)
    ensures exists s ::
      && Reachable(s) && id in s.workers && Apply(s, Start(id, again)) == s
      && forall k :: 0 <= k < |s.sups| ==> s.sups[k].phase.Gone?
  {
    var s0 := State(false, map[], map[], {}, {}, []);
    Runs.ReachStart(Initial, Next, s0);
    var s1 := Take(s0, Start(id, request));
    var s2 := Take(s1, Launch(0));
    var s3 := Take(s2, Die(Caller(request)));
    var s4 := Take(s3, Return(0));
    var s5 := Take(s4, CheckDone(0));
    assert Apply(s5, Start(id, again)) == s5;
  }

  lemma Take(s: State, a: Action) returns (t: State)
    requires Reachable(s) && Enabled(s, a)
    ensures t == Apply(s, a) && Reachable(t)
  {
    t := Apply(s, a);
    Runs.ReachStep(Initial, Next, s, a, t);
  }

  const DELAYS := [1, 2, 5, 15, 60, 300]

  /** Runs since the last healthy one; the first run counts as a fresh start. */
  function Streak(healthy: seq<bool>): nat
    requires healthy != []
  {
    var n := |healthy| - 1;
    if n == 0 || healthy[n] then 0 else Streak(healthy[..n]) + 1
  }

  function Delay(healthy: seq<bool>): nat
    requires healthy != []
  {
    DELAYS[if Streak(healthy) < 5 then Streak(healthy) else 5]
  }

  /** The streak is the distance back to the last healthy run. */
  lemma {:induction false} StreakIs(healthy: seq<bool>, p: nat)
    requires p < |healthy| && (p == 0 || healthy[p])
    requires forall i :: p < i < |healthy| ==> !healthy[i]
    ensures Streak(healthy) == |healthy| - 1 - p
  {
    var n := |healthy| - 1;
    if p < n {
      StreakIs(healthy[..n], p);
    }
  }

  /** Each wait, by the position p of the last healthy run (or the first run). */
  lemma DelayIs(healthy: seq<bool>, p: nat)
    requires p < |healthy| && (p == 0 || healthy[p])
    requires forall i :: p < i < |healthy| ==> !healthy[i]
    ensures var short := |healthy| - 1 - p;
      Delay(healthy) == if short < 5 then [1, 2, 5, 15, 60][short] else 300
  {
    StreakIs(healthy, p);
    assert DELAYS[..5] == [1, 2, 5, 15, 60];
  }

  /** Failing again never shortens the wait, a healthy run resets it to one second, and
      from the sixth short run on it is five minutes. */
  lemma BackoffShape(healthy: seq<bool>)
    requires healthy != []
    ensures Delay(healthy + [true]) == 1
    ensures Delay(healthy) <= Delay(healthy + [false])
    ensures Streak(healthy) >= 5 <==> Delay(healthy) == 300
  {
    StreakSnoc(healthy, true);
    StreakSnoc(healthy, false);
    assert DELAYS[0] == 1 && DELAYS[1] == 2 && DELAYS[2] == 5 && DELAYS[3] == 15 && DELAYS[4] == 60 && DELAYS[5] == 300;
  }

  lemma StreakSnoc(healthy: seq<bool>, ok: bool)
    requires healthy != []
    ensures Streak(healthy + [ok]) == if ok then 0 else Streak(healthy) + 1
  {
    assert (healthy + [ok])[..|healthy|] == healthy;
  }

  /** The supervise loop over the runs of one worker. */
  method Supervise(healthy: seq<bool>) returns (slept: seq<nat>)
    ensures |slept| == |healthy|
    ensures forall i :: 0 <= i < |healthy| ==> slept[i] == Delay(healthy[..i + 1])
  {
    var attempt := 0;
    slept := [];
    for i := 0 to |healthy|
      invariant |slept| == i
      invariant attempt == if i == 0 then 0 else Streak(healthy[..i]) + 1
      invariant forall j :: 0 <= j < i ==> slept[j] == Delay(healthy[..j + 1])
    {
      assert healthy[..i + 1][..i] == healthy[..i];
      if healthy[i] {
        attempt := 0;
      }
      var d := DELAYS[if attempt < |DELAYS| - 1 then attempt else |DELAYS| - 1];
      attempt := attempt + 1;
      slept := slept + [d];
    }
  }

  /** The engine's maps. */
  class Engine {
    var started: bool
    var workers: map<int, nat>
    var cancels: map<int, nat>
    var cancelled: set<nat>
    var dead: set<Base>
    var sups: seq<Sup>

    ghost function View(): State
      reads this
    {
      State(started, workers, cancels, cancelled, dead, sups)
    }

    /** Afterwards the account is registered and no supervisor of it but the registered one
        is uncancelled; a fresh start is numbered above every earlier one. */
    method StartAccount(request: nat, id: int)
      modifies this
      ensures View() == Apply(old(View()), Start(id, request))
      ensures old(Inv(View())) ==> Inv(View())
      ensures id in workers && workers - {id} == old(workers) - {id}
      ensures id in old(workers) ==> workers == old(workers) && cancels == old(cancels) && sups == old(sups)
      ensures id !in old(workers) ==>
        && workers[id] == |old(sups)| && cancels == old(cancels)[id := |old(sups)|]
        && sups == old(sups) + [Sup(id, if old(started) then Root else Caller(request), Launching)]
      ensures started == old(started) && cancelled == old(cancelled) && dead == old(dead)
      ensures old(Inv(View())) ==> forall k :: 0 <= k < |sups| && sups[k].id == id && k !in cancelled ==>
        workers[id] == k
    {
      if old(Inv(View())) {
        StartStep(View(), id, request, Apply(View(), Start(id, request)));
        assert forall k :: 0 <= k < |sups| && k !in cancelled ==> Owns(View(), k);
      }
      if id in workers {
        return;
      }
      var base := if started then Root else Caller(request);
      var k := |sups|;
      workers := workers[id := k];
      cancels := cancels[id := k];
      sups := sups + [Sup(id, base, Launching)];
      assert workers - {id} == old(workers) - {id};
    }

    /** Afterwards every supervisor the account ever had is cancelled, and no other is. */
    method StopAccount(id: int)
      modifies this
      ensures View() == Apply(old(View()), Stop(id))
      ensures old(Inv(View())) ==> Inv(View())
      ensures workers == old(workers) - {id} && cancels == old(cancels) - {id}
      ensures started == old(started) && dead == old(dead) && sups == old(sups)
      ensures cancelled == old(cancelled) + (if id in old(cancels) then {old(cancels)[id]} else {})
      ensures old(Inv(View())) ==> forall k :: 0 <= k < |sups| ==>
        (k in cancelled <==> k in old(cancelled) || sups[k].id == id)
    {
      if old(Inv(View())) {
        StopStep(View(), id, Apply(View(), Stop(id)));
        assert forall k :: 0 <= k < |sups| && k !in cancelled ==> Owns(View(), k);
      }
      if id in cancels {
        cancelled := cancelled + {cancels[id]};
      }
      workers := workers - {id};
      cancels := cancels - {id};
    }
  }
}
