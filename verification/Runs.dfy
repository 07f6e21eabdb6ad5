/**
 What holds over every run: any number of cores up to kMaxCores, any number of threads, any
 schedule. `Exec(Init(n), schedule)` ranges over all reachable states.
 */
module Runs {
  import opened Options
  import opened Kernel
  import opened Handoff

  // ---------------------------------------------------------------- runs in general

  lemma {:induction false} Reachable(n: nat, schedule: seq<Turn>) returns (loc: map<Tid, Place>)
    requires n <= MAX_CORES
    ensures Inv(Exec(Init(n), schedule), loc)
    decreases |schedule|
  {
    hide Inv;
    if schedule == [] {
      InitInv(n);
      loc := map[];
    } else {
      var turn := schedule[|schedule| - 1];
      loc := Reachable(n, schedule[..|schedule| - 1]);
      var s := Exec(Init(n), schedule[..|schedule| - 1]);
      if turn.core < |s.cores| {
        loc := StepKeeps(s, turn.core, turn.call, loc);
      }
    }
  }

  lemma {:induction false} ExecConcat(s: State, a: seq<Turn>, b: seq<Turn>)
    ensures Exec(s, a + b) == Exec(Exec(s, a), b)
    decreases |b|
  {
    if b == [] {
      assert a + b == a;
    } else {
      assert (a + b)[..|a + b| - 1] == a + b[..|b| - 1];
      ExecConcat(s, a, b[..|b| - 1]);
    }
  }

  // ---------------------------------------------------------------- ownership

  ghost predicate LiveThread(s: State, t: Tid) { t in s.tcbs && t >= MAX_CORES }

  ghost predicate OwnedOnceBy(s: State, t: Tid, p: Place) {
    Owns(s, p, t) && forall q :: Owns(s, q, t) ==> q == p
  }

  /** Every live thread has exactly one owner, and stands once in a queue that owns it;
      whatever owns a TCB owns a live one. No thread is lost, duplicated or kept after death. */
  lemma ExactlyOneOwner(n: nat, schedule: seq<Turn>)
    requires n <= MAX_CORES
    ensures
      var s := Exec(Init(n), schedule);
      && (forall t :: LiveThread(s, t) ==> exists p :: OwnedOnceBy(s, t, p))
      && (forall p, t :: Owns(s, p, t) ==> LiveThread(s, t))
      && Distinct(s.ready)
      && (forall m :: 0 <= m < |s.sems| ==> Distinct(s.sems[m].queue))
  {
    var s := Exec(Init(n), schedule);
    var loc := Reachable(n, schedule);
    forall t | LiveThread(s, t) ensures exists p :: OwnedOnceBy(s, t, p) {
      assert OwnedOnceBy(s, t, loc[t]);
    }
  }

  /** No thread runs on two cores, and none that runs stands in a queue. */
  lemma OneCoreEach(n: nat, schedule: seq<Turn>, c: nat, d: nat, t: Tid)
    requires n <= MAX_CORES
    requires
      var s := Exec(Init(n), schedule);
      c < |s.cores| && d < |s.cores| && s.cores[c].stack == Some(t) == s.cores[d].stack
    ensures c == d
    ensures
      var s := Exec(Init(n), schedule);
      t !in s.ready && forall m :: 0 <= m < |s.sems| ==> t !in s.sems[m].queue
  {
    var s := Exec(Init(n), schedule);
    var loc := Reachable(n, schedule);
    StackIs(s, c, t, loc);
    StackIs(s, d, t, loc);
    assert Owns(s, InReady, t) <==> t in loc && loc[t] == InReady;
    forall m | 0 <= m < |s.sems| ensures t !in s.sems[m].queue {
      assert Owns(s, InSem(m), t) <==> t in loc && loc[t] == InSem(m);
    }
  }

  lemma StackIs(s: State, c: nat, t: Tid, loc: map<Tid, Place>)
    requires Inv(s, loc) && c < |s.cores| && s.cores[c].stack == Some(t)
    ensures if t < MAX_CORES then t == c && t !in loc else t in loc && loc[t] == OnCore(c)
  {
    CoreAt(s, c, loc);
    if t >= MAX_CORES { assert Owns(s, OnCore(c), t); }
  }

  // ---------------------------------------------------------------- no failure

  predicate Failed(pc: Pc) { pc.Panic? || pc.Crash? || pc.Unreachable? }

  /** No ASSERT fails, no freed TCB or unsaved context is used, stop never returns. */
  lemma NeverFails(n: nat, schedule: seq<Turn>, c: nat)
    requires n <= MAX_CORES && c < |Exec(Init(n), schedule).cores|
    ensures !Failed(Exec(Init(n), schedule).cores[c].pc)
  {
    var loc := Reachable(n, schedule);
    CoreAt(Exec(Init(n), schedule), c, loc);
  }

  /** Nothing that may be dereferenced later names `t`. */
  ghost predicate Forgotten(s: State, t: Tid) {
    && t !in s.tcbs
    && t !in s.ready
    && (forall m :: 0 <= m < |s.sems| ==> t !in s.sems[m].queue)
    && (forall c :: 0 <= c < |s.cores| ==>
          && s.cores[c].stack != Some(t)
          && s.cores[c].curr != Some(t)
          && PendingOf(s.cores[c]) != Some(t)
          && InHandOf(s.cores[c]) != Some(t))
  }

  /** Core `c` may switch to the thread it took: the context is there and nobody is on the stack. */
  ghost predicate ReadyToRun(s: State, t: Tid) {
    && LiveThread(s, t)
    && s.tcbs[t] == Saved(User)
    && forall d :: 0 <= d < |s.cores| ==> s.cores[d].stack != Some(t)
  }

  lemma DispatchAt(s: State, c: nat, loc: map<Tid, Place>)
    requires Inv(s, loc) && c < |s.cores| && s.cores[c].pc == IdleSwitch
    ensures s.cores[c].curr.Some? && ReadyToRun(s, s.cores[c].curr.value)
    ensures SwitchTo(s, c, IdleDelete) == SwitchedIn(s, c, s.cores[c].curr.value)
  {
    SwitchInShape(s, c, loc);
    var t := s.cores[c].curr.value;
    assert s.tcbs[t] == ThreadContext(s, loc[t]);
    forall d | 0 <= d < |s.cores| ensures s.cores[d].stack != Some(t) {
      assert Owns(s, OnCore(d), t) <==> loc[t] == OnCore(d);
    }
  }

  /** When idle_loop is about to switch to a thread, that thread's context is saved at its own
      code, nobody executes on its stack, and the switch lands there. */
  lemma DispatchIsSafe(n: nat, schedule: seq<Turn>, c: nat, call: Call)
    requires n <= MAX_CORES && c < |Exec(Init(n), schedule).cores|
    requires Exec(Init(n), schedule).cores[c].pc == IdleSwitch
    ensures
      var s := Exec(Init(n), schedule);
      var s' := Step(s, c, call);
      && s.cores[c].curr.Some? && ReadyToRun(s, s.cores[c].curr.value)
      && |s'.cores| == |s.cores|
      && s'.cores[c].stack == s.cores[c].curr && s'.cores[c].pc == User
  {
    hide Inv; hide Exec; hide Init; hide SwitchTo;
    var loc := Reachable(n, schedule);
    DispatchAt(Exec(Init(n), schedule), c, loc);
  }

  /** When idle_loop is about to delete a TCB it is live and off every stack. After the delete it is in
      no queue, on no stack, current on no core, in no local variable and in no request that is
      still to be carried out. The core's `prev` and, until it is cleared, its delete slot keep the
      value; by NeverFails nothing uses it as a TCB again. */
  lemma DeleteIsSafe(n: nat, schedule: seq<Turn>, c: nat, call: Call)
    requires n <= MAX_CORES && c < |Exec(Init(n), schedule).cores|
    requires
      var k := Exec(Init(n), schedule).cores[c];
      k.pc == IdleDelete && k.toDelete.Some?
    ensures
      var s := Exec(Init(n), schedule);
      var t := s.cores[c].toDelete.value;
      && LiveThread(s, t)
      && (forall d :: 0 <= d < |s.cores| ==> s.cores[d].stack != Some(t))
      && Forgotten(Step(s, c, call), t)
  {
    var s := Exec(Init(n), schedule);
    var loc := Reachable(n, schedule);
    var t := s.cores[c].toDelete.value;
    var s' := Step(s, c, call);
    var loc' := StepKeeps(s, c, call, loc);
    assert Owns(s, Pending(c), t);
    forall d | 0 <= d < |s.cores| ensures s.cores[d].stack != Some(t) {
      assert Owns(s, OnCore(d), t) <==> loc[t] == OnCore(d);
    }
    DeadIsForgotten(s', t, loc');
  }

  lemma DeadIsForgotten(s: State, t: Tid, loc: map<Tid, Place>)
    requires Inv(s, loc) && t !in s.tcbs
    ensures Forgotten(s, t)
  {
    assert !Owns(s, InReady, t);
    forall m | 0 <= m < |s.sems| ensures t !in s.sems[m].queue {
      assert !Owns(s, InSem(m), t);
    }
    forall c | 0 <= c < |s.cores|
      ensures && s.cores[c].stack != Some(t) && s.cores[c].curr != Some(t)
              && PendingOf(s.cores[c]) != Some(t) && InHandOf(s.cores[c]) != Some(t)
    {
      CoreAt(s, c, loc);
      assert !Owns(s, OnCore(c), t);
      assert !Owns(s, Pending(c), t);
      assert !Owns(s, InHand(c), t);
    }
  }

  lemma StepTcbs(s: State, c: nat, call: Call)
    requires c < |s.cores|
    ensures s.nextTid <= Step(s, c, call).nextTid
    ensures forall t :: t in Step(s, c, call).tcbs ==> t in s.tcbs || t >= s.nextTid
  {
  }

  /** A TCB is freed at most once: after its deletion it never lives or is named again. */
  lemma {:induction false} FreedForever(n: nat, before: seq<Turn>, after: seq<Turn>, t: Tid)
    requires n <= MAX_CORES
    requires
      var s := Exec(Init(n), before);
      t < s.nextTid && t !in s.tcbs
    ensures
      var s' := Exec(Init(n), before + after);
      t < s'.nextTid && Forgotten(s', t)
    decreases |after|
  {
    if after == [] {
      assert before + after == before;
    } else {
      var turn := after[|after| - 1];
      var rest := after[..|after| - 1];
      assert (before + after)[..|before + after| - 1] == before + rest;
      FreedForever(n, before, rest, t);
      var s := Exec(Init(n), before + rest);
      if turn.core < |s.cores| { StepTcbs(s, turn.core, turn.call); }
    }
    var loc := Reachable(n, before + after);
    DeadIsForgotten(Exec(Init(n), before + after), t, loc);
  }

  // ---------------------------------------------------------------- semaphores

  /** The waiters and the counter: a free semaphore has max(0, -counter) threads queued; with
      the lock held, the one thread on its way into the queue, or the one waiter an up still
      has to take out, makes up the difference. */
  lemma WaitersMatchCounter(n: nat, schedule: seq<Turn>, m: SemId)
    requires n <= MAX_CORES && m < |Exec(Init(n), schedule).sems|
    ensures
      var s := Exec(Init(n), schedule);
      var x := s.sems[m];
      && (x.lock.None? ==> |x.queue| == Max(0, -x.counter))
      && |x.queue| + (if BlockingOn(s, m).Some? then 1 else 0)
         == Max(0, -x.counter) + (if Waking(s, m) then 1 else 0)
      && (Waking(s, m) ==> x.queue != [])
  {
    hide Inv; hide Exec; hide Init;
    var loc := Reachable(n, schedule);
    SemAt(Exec(Init(n), schedule), m, loc);
  }

  lemma SemAt(s: State, m: SemId, loc: map<Tid, Place>)
    requires Inv(s, loc) && m < |s.sems|
    ensures SemOk(s.sems[m], BlockingOn(s, m), Waking(s, m))
    ensures s.sems[m].lock.Some? ==>
              s.sems[m].lock.value < |s.cores| && Held(s.cores[s.sems[m].lock.value]) == Some(m)
  {
  }

  /** Downs granted: the ones that did not block, and the ones an up has woken. */
  function Granted(x: Sem): nat { x.immediate + |x.wakes| }

  /** Conservation: initial + ups = downs granted + what is left in the counter, counting an up
      that has not picked its waiter yet. */
  lemma Conservation(n: nat, schedule: seq<Turn>, m: SemId)
    requires n <= MAX_CORES && m < |Exec(Init(n), schedule).sems|
    ensures
      var s := Exec(Init(n), schedule);
      var x := s.sems[m];
      && Granted(x) + (if Waking(s, m) then 1 else 0) == x.initial + x.ups - Max(x.counter, 0)
      && Granted(x) <= x.initial + x.ups
  {
    hide Inv; hide Exec; hide Init;
    var loc := Reachable(n, schedule);
    SemAt(Exec(Init(n), schedule), m, loc);
  }

  /** Where a core that holds a semaphore's lock is: its thread is inside up or down, or it
      carries a blocked thread's request to idle_loop's unlock. */
  predicate Executing(k: Core, c: nat, m: SemId) {
    if InUpOrDown(k.pc, m) then InThread(k) && !k.pc.DownLock? && !k.pc.UpLock?
    else
      && k.toUnlock == Some(m) && k.toAddTo == Some(m) && k.toQueue.Some?
      && (k.pc.Leave? || k.pc.SwitchOut?
          || (k.stack == Some(c) && (k.pc.IdleDelete? || k.pc.IdleQueue? || k.pc.IdlePush? || k.pc.IdleUnlock?)))
  }

  /** A held lock is held by a core that is executing towards its unlock, on a stack that
      stands in no queue; it never waits for another lock meanwhile. */
  lemma LockHolderExecutes(n: nat, schedule: seq<Turn>, m: SemId)
    requires n <= MAX_CORES && m < |Exec(Init(n), schedule).sems|
    requires Exec(Init(n), schedule).sems[m].lock.Some?
    ensures
      var s := Exec(Init(n), schedule);
      var c := s.sems[m].lock.value;
      && c < |s.cores|
      && Executing(s.cores[c], c, m)
      && s.cores[c].stack.Some?
      && s.cores[c].stack.value !in s.ready
      && (forall j :: 0 <= j < |s.sems| ==> s.cores[c].stack.value !in s.sems[j].queue)
      && (forall j :: 0 <= j < |s.sems| && s.sems[j].lock == Some(c) ==> j == m)
  {
    hide Inv; hide Exec; hide Init;
    var s := Exec(Init(n), schedule);
    var loc := Reachable(n, schedule);
    SemAt(s, m, loc);
    var c := s.sems[m].lock.value;
    CoreAt(s, c, loc);
    OneCoreEach(n, schedule, c, c, s.cores[c].stack.value);
    forall j | 0 <= j < |s.sems| && s.sems[j].lock == Some(c) ensures j == m { SemAt(s, j, loc); }
  }

  // ---------------------------------------------------------------- the lock is released in time

  /** How many turns the core that holds a lock is at most away from releasing it. */
  function TurnsToRelease(pc: Pc): nat {
    match pc
    case DownDec(_) => 8
    case DownRequest(_) => 7
    case Leave(_) => 6
    case SwitchOut(_) => 5
    case IdleDelete => 4
    case IdleQueue => 3
    case IdlePush => 2
    case IdleUnlock => 1
    case DownUnlock(_) => 1
    case UpInc(_) => 4
    case UpPop(_) => 3
    case UpSchedule(_, _) => 2
    case UpUnlock(_) => 1
    case _ => 0
  }

  predicate Closer(s: State, s': State, c: nat, m: SemId)
    requires c < |s.cores|
  {
    && m < |s'.sems| && c < |s'.cores|
    && TurnsToRelease(s.cores[c].pc) >= 1
    && (s'.sems[m].lock.None?
        || (s'.sems[m].lock == Some(c) && TurnsToRelease(s'.cores[c].pc) < TurnsToRelease(s.cores[c].pc)))
  }

  lemma DownAdvances(s: State, c: nat, m: SemId)
    requires c < |s.cores| && m < |s.sems| && s.sems[m].lock == Some(c)
    requires InDown(s.cores[c].pc, m) && Held(s.cores[c]) == Some(m)
    ensures Closer(s, DownStep(s, c, m), c, m)
  {
  }

  lemma UpAdvances(s: State, c: nat, m: SemId)
    requires c < |s.cores| && m < |s.sems| && s.sems[m].lock == Some(c)
    requires InUp(s.cores[c].pc, m) && Held(s.cores[c]) == Some(m)
    requires s.cores[c].pc.UpPop? ==> s.sems[m].queue != []
    ensures Closer(s, UpStep(s, c, m), c, m)
  {
  }

  lemma IdleAdvances(s: State, c: nat, m: SemId)
    requires c < |s.cores| && m < |s.sems| && s.sems[m].lock == Some(c) && CoreOk(s.cores[c], c)
    requires s.cores[c].toUnlock == Some(m)
    requires
      var pc := s.cores[c].pc;
      pc.IdleDelete? || pc.IdleQueue? || pc.IdlePush? || pc.IdleUnlock?
    ensures Closer(s, FinishStep(s, c), c, m)
  {
  }

  /** A turn of the holder releases the lock or comes closer to it. */
  lemma HolderAdvances(s: State, c: nat, call: Call, m: SemId, loc: map<Tid, Place>)
    requires Inv(s, loc) && c < |s.cores| && m < |s.sems| && s.sems[m].lock == Some(c)
    ensures Closer(s, Step(s, c, call), c, m)
  {
    hide Inv; hide SemOk;
    SemAt(s, m, loc);
    CoreAt(s, c, loc);
    if InDown(s.cores[c].pc, m) {
      DownAdvances(s, c, m);
    } else if InUp(s.cores[c].pc, m) {
      if s.cores[c].pc.UpPop? { PopFinds(s, c, m, loc); }
      UpAdvances(s, c, m);
    } else if s.cores[c].pc.SwitchOut? {
      LandsInIdle(s, c, loc);
    } else if !s.cores[c].pc.Leave? {
      IdleAdvances(s, c, m);
    }
  }

  lemma PopFinds(s: State, c: nat, m: SemId, loc: map<Tid, Place>)
    requires Inv(s, loc) && c < |s.cores| && m < |s.sems| && s.cores[c].pc == UpPop(m)
    ensures s.sems[m].queue != []
  {
    PopKeeps(s, c, m, loc);
  }

  lemma LandsInIdle(s: State, c: nat, loc: map<Tid, Place>)
    requires Inv(s, loc) && c < |s.cores| && s.cores[c].pc.SwitchOut? && s.cores[c].stack.Some?
    ensures
      var s' := ThreadStep(s, c);
      s'.sems == s.sems && |s'.cores| == |s.cores| && s'.cores[c].pc == IdleDelete
  {
    SwitchOutShape(s, c, loc);
  }

  lemma StepCores(s: State, c: nat, call: Call)
    requires c < |s.cores|
    ensures OnlyCore(s, Step(s, c, call), c)
    ensures |Step(s, c, call).sems| == |s.sems| + (if s.cores[c].pc.User? && call.NewSem? then 1 else 0)
  {
    hide DownStep; hide UpStep; hide FinishStep; hide SwitchTo;
    SemCores(s, c);
    if s.cores[c].pc.SwitchOut? { SwitchCores(s, c, s.cores[c].pc.resume); }
    SwitchCores(s, c, IdleDelete);
  }

  lemma SemCores(s: State, c: nat)
    requires c < |s.cores|
    ensures forall m :: 0 <= m < |s.sems| ==>
              && OnlyCore(s, DownStep(s, c, m), c) && |DownStep(s, c, m).sems| == |s.sems|
              && OnlyCore(s, UpStep(s, c, m), c) && |UpStep(s, c, m).sems| == |s.sems|
    ensures OnlyCore(s, FinishStep(s, c), c) && |FinishStep(s, c).sems| == |s.sems|
  {
    FinishCores(s, c);
    hide DownStep; hide UpStep; hide FinishStep; hide OnlyCore;
    forall m | 0 <= m < |s.sems|
      ensures OnlyCore(s, DownStep(s, c, m), c) && |DownStep(s, c, m).sems| == |s.sems|
      ensures OnlyCore(s, UpStep(s, c, m), c) && |UpStep(s, c, m).sems| == |s.sems|
    {
      DownCores(s, c, m);
      UpCores(s, c, m);
    }
  }

  lemma DownCores(s: State, c: nat, m: SemId)
    requires c < |s.cores| && m < |s.sems|
    ensures OnlyCore(s, DownStep(s, c, m), c) && |DownStep(s, c, m).sems| == |s.sems|
  {
  }

  lemma UpCores(s: State, c: nat, m: SemId)
    requires c < |s.cores| && m < |s.sems|
    ensures OnlyCore(s, UpStep(s, c, m), c) && |UpStep(s, c, m).sems| == |s.sems|
  {
  }

  lemma FinishCores(s: State, c: nat)
    requires c < |s.cores|
    ensures OnlyCore(s, FinishStep(s, c), c) && |FinishStep(s, c).sems| == |s.sems|
  {
  }

  lemma SwitchCores(s: State, c: nat, r: Pc)
    requires c < |s.cores|
    ensures OnlyCore(s, SwitchTo(s, c, r), c) && SwitchTo(s, c, r).sems == s.sems
  {
  }

  /** A step changes a semaphore that exists only under its lock, or by taking the free lock. */
  predicate LockOnly(s: State, s': State, c: nat, m: SemId)
    requires c < |s.cores| && m < |s.sems|
  {
    && m < |s'.sems|
    && (|| s'.sems[m] == s.sems[m]
        || (s.sems[m].lock.None? && s'.sems[m] == s.sems[m].(lock := Some(c))
            && (s.cores[c].pc == DownLock(m) || s.cores[c].pc == UpLock(m))))
  }

  lemma UpDownSems(s: State, c: nat, m: SemId, j: SemId)
    requires c < |s.cores| && m < |s.sems| && j < |s.sems| && Held(s.cores[c]) != Some(m)
    requires InUpOrDown(s.cores[c].pc, j)
    ensures LockOnly(s, DownStep(s, c, j), c, m) && LockOnly(s, UpStep(s, c, j), c, m)
  {
  }

  lemma FinishSems(s: State, c: nat, m: SemId)
    requires c < |s.cores| && m < |s.sems| && CoreOk(s.cores[c], c) && Held(s.cores[c]) != Some(m)
    ensures LockOnly(s, FinishStep(s, c), c, m)
  {
  }

  lemma OtherSems(s: State, c: nat, call: Call, m: SemId)
    requires c < |s.cores| && m < |s.sems|
    ensures LockOnly(s, s, c, m) && LockOnly(s, Goto(s, c, Crash), c, m) && LockOnly(s, CallStep(s, c, call), c, m)
    ensures LockOnly(s, ThreadStep(s, c), c, m) && LockOnly(s, DispatchStep(s, c), c, m)
  {
    if s.cores[c].pc.SwitchOut? { SwitchCores(s, c, s.cores[c].pc.resume); }
    SwitchCores(s, c, IdleDelete);
  }

  lemma StepSems(s: State, c: nat, call: Call, m: SemId)
    requires c < |s.cores| && m < |s.sems| && CoreOk(s.cores[c], c) && Held(s.cores[c]) != Some(m)
    ensures LockOnly(s, Step(s, c, call), c, m)
  {
    hide CoreOk; hide Held; hide LockOnly;
    hide CallStep; hide ThreadStep; hide DispatchStep; hide FinishStep; hide UpStep; hide DownStep;
    var pc := s.cores[c].pc;
    OtherSems(s, c, call, m);
    FinishSems(s, c, m);
    if (pc.DownLock? || pc.DownDec? || pc.DownRequest? || pc.DownUnlock?) && pc.sem < |s.sems| {
      UpDownSems(s, c, m, pc.sem);
    } else if (pc.UpLock? || pc.UpInc? || pc.UpPop? || pc.UpSchedule? || pc.UpUnlock?) && pc.sem < |s.sems| {
      UpDownSems(s, c, m, pc.sem);
    }
  }

  /** A turn of another core leaves the lock and the holder alone. */
  lemma OthersWait(s: State, d: nat, call: Call, c: nat, m: SemId, loc: map<Tid, Place>)
    requires Inv(s, loc) && c < |s.cores| && d < |s.cores| && d != c && m < |s.sems| && s.sems[m].lock == Some(c)
    ensures
      var s' := Step(s, d, call);
      && m < |s'.sems| && c < |s'.cores|
      && s'.sems[m].lock == Some(c) && s'.cores[c] == s.cores[c]
  {
    assert Held(s.cores[d]) != Some(m);
    hide Inv;
    CoreAt(s, d, loc);
    StepCores(s, d, call);
    StepSems(s, d, call, m);
  }

  function TurnsOf(schedule: seq<Turn>, c: nat): nat {
    if schedule == [] then 0
    else TurnsOf(schedule[..|schedule| - 1], c) + (if schedule[|schedule| - 1].core == c then 1 else 0)
  }

  predicate Free(s: State, m: SemId) { m < |s.sems| && s.sems[m].lock.None? }

  /** As long as nobody sees the lock free, the same core holds it and its turns run down. */
  lemma {:induction false} StillHeld(n: nat, before: seq<Turn>, after: seq<Turn>, c: nat, m: SemId)
    requires n <= MAX_CORES
    requires
      var s := Exec(Init(n), before);
      c < |s.cores| && m < |s.sems| && s.sems[m].lock == Some(c)
    requires forall i :: 0 <= i <= |after| ==> !Free(Exec(Init(n), before + after[..i]), m)
    ensures
      var s, s' := Exec(Init(n), before), Exec(Init(n), before + after);
      && c < |s'.cores| && m < |s'.sems| && s'.sems[m].lock == Some(c)
      && TurnsToRelease(s'.cores[c].pc) + TurnsOf(after, c) <= TurnsToRelease(s.cores[c].pc)
    decreases |after|
  {
    hide Inv; hide Init; hide Step;
    if after == [] {
      assert before + after == before;
    } else {
      var turn, rest := after[|after| - 1], after[..|after| - 1];
      forall i | 0 <= i <= |rest| ensures !Free(Exec(Init(n), before + rest[..i]), m) {
        assert rest[..i] == after[..i];
      }
      StillHeld(n, before, rest, c, m);
      assert (before + after)[..|before + after| - 1] == before + rest;
      var s := Exec(Init(n), before + rest);
      var loc := Reachable(n, before + rest);
      assert after[..|after|] == after;
      if turn.core == c {
        HolderAdvances(s, c, turn.call, m, loc);
      } else if turn.core < |s.cores| {
        OthersWait(s, turn.core, turn.call, c, m, loc);
      }
    }
  }

  lemma NotReleased(n: nat, schedule: seq<Turn>, c: nat, m: SemId)
    requires n <= MAX_CORES
    requires
      var s := Exec(Init(n), schedule);
      c < |s.cores| && m < |s.sems| && s.sems[m].lock == Some(c)
    ensures 1 <= TurnsToRelease(Exec(Init(n), schedule).cores[c].pc) <= 8
  {
    hide Inv; hide Init; hide Step; hide Exec;
    var loc := Reachable(n, schedule);
    HolderAdvances(Exec(Init(n), schedule), c, Go, m, loc);
  }

  /** A semaphore's spinlock is never kept: within eight turns of the core that holds it, and
      whatever the others do meanwhile, it is free at some point. */
  lemma LockReleasedInTime(n: nat, before: seq<Turn>, after: seq<Turn>, m: SemId)
    requires n <= MAX_CORES && m < |Exec(Init(n), before).sems|
    requires Exec(Init(n), before).sems[m].lock.Some?
    requires TurnsOf(after, Exec(Init(n), before).sems[m].lock.value) >= 8
    ensures exists i :: 0 <= i <= |after| && Free(Exec(Init(n), before + after[..i]), m)
  {
    hide Inv; hide Init; hide Step; hide Exec;
    var s := Exec(Init(n), before);
    var c := s.sems[m].lock.value;
    var loc := Reachable(n, before);
    SemAt(s, m, loc);
    if forall i :: 0 <= i <= |after| ==> !Free(Exec(Init(n), before + after[..i]), m) {
      StillHeld(n, before, after, c, m);
      NotReleased(n, before + after, c, m);
    }
  }

  // ---------------------------------------------------------------- requests are carried out

  /** The thread that has written a request on the core, until the request is carried out: on its
      way to the idle thread, or waiting for it. */
  function Requester(k: Core): Option<Tid> {
    match k.pc
    case Leave(_) | SwitchOut(_) => k.stack
    case _ => PendingOf(k)
  }

  /** How many turns the core is at most away from carrying out its request. */
  function TurnsToServe(pc: Pc): nat {
    match pc
    case Leave(_) => 5
    case SwitchOut(_) => 4
    case IdleDelete => 3
    case IdleQueue => 2
    case IdlePush | IdleReschedule => 1
    case _ => 0
  }

  /** What the request in the slots of `k` asks for is so: `t` is freed, in the queue named, or in
      the ready queue. */
  predicate Served(s: State, k: Core, t: Tid) {
    if k.toDelete.Some? then t !in s.tcbs
    else if k.toQueue.Some? then
      k.toAddTo.Some? && k.toAddTo.value < |s.sems| && t in s.sems[k.toAddTo.value].queue
    else t in s.ready
  }

  predicate SameRequest(k: Core, k': Core) {
    && k'.toDelete == k.toDelete && k'.toReschedule == k.toReschedule
    && k'.toQueue == k.toQueue && k'.toAddTo == k.toAddTo
    && Requester(k') == Requester(k)
  }

  /** The request of core `c` is carried out, or its core comes closer to it. */
  predicate Serving(s: State, s': State, c: nat, t: Tid)
    requires c < |s.cores|
  {
    || Served(s', s.cores[c], t)
    || (c < |s'.cores| && SameRequest(s.cores[c], s'.cores[c])
        && TurnsToServe(s'.cores[c].pc) < TurnsToServe(s.cores[c].pc))
  }

  lemma FinishServes(s: State, c: nat, t: Tid)
    requires c < |s.cores| && CoreOk(s.cores[c], c) && Requester(s.cores[c]) == Some(t)
    requires t in s.tcbs && (s.cores[c].toAddTo.Some? ==> s.cores[c].toAddTo.value < |s.sems|)
    requires
      var pc := s.cores[c].pc;
      pc.IdleDelete? || pc.IdleQueue? || pc.IdlePush? || pc.IdleReschedule?
    ensures Serving(s, FinishStep(s, c), c, t)
  {
    match s.cores[c].pc
    case IdleDelete =>
    case IdleQueue =>
    case IdlePush =>
    case IdleReschedule =>
  }

  lemma LeaveServes(s: State, c: nat, t: Tid, loc: map<Tid, Place>)
    requires Inv(s, loc) && c < |s.cores| && Requester(s.cores[c]) == Some(t)
    requires s.cores[c].pc.Leave? || s.cores[c].pc.SwitchOut?
    ensures Serving(s, ThreadStep(s, c), c, t)
  {
    hide Inv;
    CoreAt(s, c, loc);
    if s.cores[c].pc.SwitchOut? { LandsWithRequest(s, c, loc); }
  }

  lemma LandsWithRequest(s: State, c: nat, loc: map<Tid, Place>)
    requires Inv(s, loc) && c < |s.cores| && s.cores[c].pc.SwitchOut? && s.cores[c].stack.Some?
    ensures
      var s' := ThreadStep(s, c);
      c < |s'.cores| && s'.cores[c] == s.cores[c].(pc := IdleDelete, stack := Some(c))
  {
    SwitchOutShape(s, c, loc);
  }

  lemma RequestIsLive(s: State, c: nat, loc: map<Tid, Place>)
    requires Inv(s, loc) && c < |s.cores| && PendingOf(s.cores[c]).Some?
    ensures PendingOf(s.cores[c]).value in s.tcbs
  {
    assert Owns(s, Pending(c), PendingOf(s.cores[c]).value);
  }

  lemma ServerAdvances(s: State, c: nat, call: Call, t: Tid, loc: map<Tid, Place>)
    requires Inv(s, loc) && c < |s.cores| && Requester(s.cores[c]) == Some(t)
    ensures TurnsToServe(s.cores[c].pc) >= 1
    ensures Serving(s, Step(s, c, call), c, t)
  {
    hide Inv; hide Serving; hide FinishStep; hide ThreadStep; hide CoreOk;
    CoreAt(s, c, loc);
    if s.cores[c].pc.Leave? || s.cores[c].pc.SwitchOut? {
      LeaveServes(s, c, t, loc);
    } else {
      RequestIsLive(s, c, loc);
      if s.cores[c].toAddTo.Some? { QueueExists(s, c, loc); }
      FinishServes(s, c, t);
    }
  }

  lemma QueueExists(s: State, c: nat, loc: map<Tid, Place>)
    requires Inv(s, loc) && c < |s.cores| && PendingOf(s.cores[c]).Some? && s.cores[c].toAddTo.Some?
    ensures s.cores[c].toAddTo.value < |s.sems|
  {
    hide LiveOk; hide Owned; hide ContextsOk; hide QueuesOk; hide SemsOk;
    assert CoreOk(s.cores[c], c);
    assert Held(s.cores[c]) == s.cores[c].toAddTo;
  }

  /** As long as the request is not carried out it stands, and the core's turns run down. */
  lemma {:induction false} StillAsked(n: nat, before: seq<Turn>, after: seq<Turn>, c: nat, t: Tid)
    requires n <= MAX_CORES
    requires
      var s := Exec(Init(n), before);
      && c < |s.cores| && Requester(s.cores[c]) == Some(t)
      && forall i :: 0 <= i <= |after| ==> !Served(Exec(Init(n), before + after[..i]), s.cores[c], t)
    ensures
      var s, s' := Exec(Init(n), before), Exec(Init(n), before + after);
      && c < |s'.cores| && SameRequest(s.cores[c], s'.cores[c])
      && TurnsToServe(s'.cores[c].pc) + TurnsOf(after, c) <= TurnsToServe(s.cores[c].pc)
    decreases |after|
  {
    hide Inv; hide Init; hide Step; hide Served;
    var k := Exec(Init(n), before).cores[c];
    if after == [] {
      assert before + after == before;
    } else {
      var turn, rest := after[|after| - 1], after[..|after| - 1];
      forall i | 0 <= i <= |rest| ensures !Served(Exec(Init(n), before + rest[..i]), k, t) {
        assert rest[..i] == after[..i];
      }
      StillAsked(n, before, rest, c, t);
      assert (before + after)[..|before + after| - 1] == before + rest;
      var s := Exec(Init(n), before + rest);
      var loc := Reachable(n, before + rest);
      assert after[..|after|] == after;
      if turn.core == c {
        ServerAdvances(s, c, turn.call, t, loc);
        SameServed(Exec(Init(n), before + after), k, s.cores[c], t);
      } else if turn.core < |s.cores| {
        StepCores(s, turn.core, turn.call);
      }
    }
  }

  lemma SameServed(s: State, k: Core, k': Core, t: Tid)
    requires SameRequest(k, k')
    ensures Served(s, k, t) == Served(s, k', t)
  {
  }

  /** A request is always carried out: within five turns of its core, whatever the others do
      meanwhile, the thread that stopped is freed, the one that blocked is in the semaphore's queue,
      or the one that yielded is in the ready queue. */
  lemma RequestServedInTime(n: nat, before: seq<Turn>, after: seq<Turn>, c: nat)
    requires n <= MAX_CORES && c < |Exec(Init(n), before).cores|
    requires Requester(Exec(Init(n), before).cores[c]).Some? && TurnsOf(after, c) >= 5
    ensures
      var k := Exec(Init(n), before).cores[c];
      exists i :: 0 <= i <= |after| && Served(Exec(Init(n), before + after[..i]), k, Requester(k).value)
  {
    hide Inv; hide Init; hide Step; hide Exec; hide Served;
    var k := Exec(Init(n), before).cores[c];
    var t := Requester(k).value;
    if forall i :: 0 <= i <= |after| ==> !Served(Exec(Init(n), before + after[..i]), k, t) {
      StillAsked(n, before, after, c, t);
      var loc := Reachable(n, before + after);
      ServerAdvances(Exec(Init(n), before + after), c, Go, t, loc);
    }
  }

  // ---------------------------------------------------------------- first come, first served

  /** What has happened stays: the histories only grow. */
  ghost predicate Extends(s: State, s': State) {
    && s.popped <= s'.popped
    && s.pushed <= s'.pushed
    && |s.sems| <= |s'.sems|
    && forall m :: 0 <= m < |s.sems| ==>
         && s'.sems[m].initial == s.sems[m].initial
         && s.sems[m].waits <= s'.sems[m].waits
         && s.sems[m].wakes <= s'.sems[m].wakes
  }

  lemma CallExtends(s: State, c: nat, call: Call)
    requires c < |s.cores|
    ensures Extends(s, CallStep(s, c, call))
  {
  }

  lemma DownExtends(s: State, c: nat, m: SemId)
    requires c < |s.cores| && m < |s.sems|
    ensures Extends(s, DownStep(s, c, m))
  {
  }

  lemma UpExtends(s: State, c: nat, m: SemId)
    requires c < |s.cores| && m < |s.sems|
    ensures Extends(s, UpStep(s, c, m))
  {
    match s.cores[c].pc
    case UpLock(_) =>
    case UpInc(_) =>
    case UpPop(_) =>
    case _ =>
  }

  lemma FinishExtends(s: State, c: nat)
    requires c < |s.cores|
    ensures Extends(s, FinishStep(s, c))
  {
  }

  lemma ThreadExtends(s: State, c: nat)
    requires c < |s.cores|
    ensures Extends(s, ThreadStep(s, c))
  {
    hide SwitchTo;
    if s.cores[c].pc.SwitchOut? { SwitchKeepsHistory(s, c, s.cores[c].pc.resume); }
  }

  lemma DispatchExtends(s: State, c: nat)
    requires c < |s.cores|
    ensures Extends(s, DispatchStep(s, c))
  {
    hide SwitchTo;
    SwitchKeepsHistory(s, c, IdleDelete);
  }

  lemma StepExtends(s: State, c: nat, call: Call)
    requires c < |s.cores|
    ensures Extends(s, Step(s, c, call))
  {
    hide CallStep; hide ThreadStep; hide DispatchStep; hide DownStep; hide UpStep; hide FinishStep; hide Extends;
    var pc := s.cores[c].pc;
    assert Extends(s, s) && Extends(s, Goto(s, c, Crash)) by { StutterExtends(s, c); }
    CallExtends(s, c, call);
    ThreadExtends(s, c);
    DispatchExtends(s, c);
    FinishExtends(s, c);
    match pc
    case DownLock(m) => if m < |s.sems| { DownExtends(s, c, m); }
    case DownDec(m) => if m < |s.sems| { DownExtends(s, c, m); }
    case DownRequest(m) => if m < |s.sems| { DownExtends(s, c, m); }
    case DownUnlock(m) => if m < |s.sems| { DownExtends(s, c, m); }
    case UpLock(m) => if m < |s.sems| { UpExtends(s, c, m); }
    case UpInc(m) => if m < |s.sems| { UpExtends(s, c, m); }
    case UpPop(m) => if m < |s.sems| { UpExtends(s, c, m); }
    case UpSchedule(m, _) => if m < |s.sems| { UpExtends(s, c, m); }
    case UpUnlock(m) => if m < |s.sems| { UpExtends(s, c, m); }
    case _ =>
  }

  lemma StutterExtends(s: State, c: nat)
    requires c < |s.cores|
    ensures Extends(s, s) && Extends(s, Goto(s, c, Crash))
  {
  }

  lemma SwitchKeepsHistory(s: State, c: nat, r: Pc)
    requires c < |s.cores|
    ensures Extends(s, SwitchTo(s, c, r))
  {
  }

  lemma {:induction false} RunExtends(s: State, schedule: seq<Turn>)
    ensures Extends(s, Exec(s, schedule))
    decreases |schedule|
  {
    hide Step;
    if schedule != [] {
      var rest, turn := schedule[..|schedule| - 1], schedule[|schedule| - 1];
      RunExtends(s, rest);
      var s1 := Exec(s, rest);
      if turn.core < |s1.cores| { StepExtends(s1, turn.core, turn.call); }
    }
  }

  /** The thread at position k of the ready queue is the one dispatched after exactly k others,
      whatever is pushed meanwhile; until then it stands that many places further on. */
  lemma ReadyIsFifo(n: nat, before: seq<Turn>, after: seq<Turn>, k: nat)
    requires n <= MAX_CORES && k < |Exec(Init(n), before).ready|
    ensures
      var s, s' := Exec(Init(n), before), Exec(Init(n), before + after);
      var served := |s'.popped| - |s.popped|;
      && served >= 0
      && (k < served ==> s'.popped[|s.popped| + k] == s.ready[k])
      && (served <= k ==> k - served < |s'.ready| && s'.ready[k - served] == s.ready[k])
  {
    hide Step; hide Exec; hide Init;
    var s, s' := Exec(Init(n), before), Exec(Init(n), before + after);
    ExecConcat(Init(n), before, after);
    RunExtends(s, after);
    ReadyHistory(n, before);
    ReadyHistory(n, before + after);
    assert s.pushed[|s.popped| + k] == s.ready[k];
    assert s'.pushed[|s.popped| + k] == s.ready[k];
  }

  lemma ReadyHistory(n: nat, schedule: seq<Turn>)
    requires n <= MAX_CORES
    ensures
      var s := Exec(Init(n), schedule);
      s.pushed == s.popped + s.ready
  {
    hide Step; hide Exec; hide Init;
    var loc := Reachable(n, schedule);
  }

  /** Waiters are woken in exactly the order in which they decremented the counter: the j-th
      thread to block is the j-th to be woken, on whatever cores, and a thread that has not been
      woken is still queued behind the earlier ones (or on its way, last). */
  lemma WokenInOrder(n: nat, before: seq<Turn>, after: seq<Turn>, m: SemId, j: nat)
    requires n <= MAX_CORES && m < |Exec(Init(n), before).sems|
    requires j < |Exec(Init(n), before).sems[m].waits|
    ensures
      var s, s' := Exec(Init(n), before), Exec(Init(n), before + after);
      && m < |s'.sems|
      && var x, x' := s.sems[m], s'.sems[m];
      && (j < |x'.wakes| ==> x'.wakes[j] == x.waits[j])
      && (|x'.wakes| <= j < |x'.wakes| + |x'.queue| ==> x'.queue[j - |x'.wakes|] == x.waits[j])
      && (|x'.wakes| + |x'.queue| <= j ==> BlockingOn(s', m) == Some(x.waits[j]) && j + 1 == |x'.waits|)
  {
    hide Step; hide Exec; hide Init; hide Inv; hide BlockingOn; hide Waking;
    var s, s' := Exec(Init(n), before), Exec(Init(n), before + after);
    ExecConcat(Init(n), before, after);
    RunExtends(s, after);
    var loc := Reachable(n, before + after);
    SemAt(s', m, loc);
    assert s'.sems[m].waits[j] == s.sems[m].waits[j];
  }

  // ---------------------------------------------------------------- who holds a semaphore

  /** The turn is thread t's own increment of semaphore m. */
  predicate IncrementBy(s: State, turn: Turn, m: SemId, t: Tid) {
    turn.core < |s.cores| && s.cores[turn.core].pc == UpInc(m) && s.cores[turn.core].curr == Some(t)
  }

  predicate WaitsOrHolds(s: State, m: SemId, t: Tid) {
    m < |s.sems| && (t in s.sems[m].queue || t in s.sems[m].holders)
  }

  /** What a step keeps of a thread that waits for semaphore m or holds it. */
  predicate StillThere(s: State, s': State, m: SemId, t: Tid)
    requires m < |s.sems|
  {
    WaitsOrHolds(s', m, t) && (t in s.sems[m].holders ==> t in s'.sems[m].holders)
  }

  lemma DownKeepsWaiter(s: State, c: nat, m: SemId, t: Tid)
    requires c < |s.cores| && InDown(s.cores[c].pc, m) && WaitsOrHolds(s, m, t)
    ensures StillThere(s, DownStep(s, c, m), m, t)
  {
  }

  lemma UpKeepsWaiter(s: State, c: nat, m: SemId, t: Tid)
    requires c < |s.cores| && InUp(s.cores[c].pc, m) && WaitsOrHolds(s, m, t)
    requires s.cores[c].pc.UpInc? ==> s.cores[c].curr != Some(t)
    ensures StillThere(s, UpStep(s, c, m), m, t)
  {
    match s.cores[c].pc
    case UpLock(_) =>
    case UpInc(_) =>
    case UpPop(_) =>
      if s.sems[m].queue != [] { assert s.sems[m].queue == [s.sems[m].queue[0]] + s.sems[m].queue[1..]; }
    case UpSchedule(_, _) =>
    case UpUnlock(_) =>
  }

  lemma FinishKeepsWaiter(s: State, c: nat, m: SemId, t: Tid)
    requires c < |s.cores| && WaitsOrHolds(s, m, t)
    ensures StillThere(s, FinishStep(s, c), m, t)
  {
  }

  /** A thread that waits for a semaphore or holds it does so until its own increment, and one that
      holds it keeps it until then. */
  lemma StepKeepsWaiter(s: State, turn: Turn, m: SemId, t: Tid, loc: map<Tid, Place>)
    requires Inv(s, loc) && turn.core < |s.cores| && WaitsOrHolds(s, m, t) && !IncrementBy(s, turn, m, t)
    ensures StillThere(s, Step(s, turn.core, turn.call), m, t)
  {
    hide Inv; hide FinishStep; hide UpStep; hide DownStep; hide SwitchTo; hide CallStep; hide DispatchStep;
    var c := turn.core;
    CoreAt(s, c, loc);
    if Held(s.cores[c]) == Some(m) {
      match s.cores[c].pc
      case Leave(_) =>
      case SwitchOut(r) => SwitchCores(s, c, r);
      case IdleDelete | IdleQueue | IdlePush | IdleUnlock => FinishKeepsWaiter(s, c, m, t);
      case DownDec(_) | DownRequest(_) | DownUnlock(_) => DownKeepsWaiter(s, c, m, t);
      case UpInc(_) | UpPop(_) | UpSchedule(_, _) | UpUnlock(_) => UpKeepsWaiter(s, c, m, t);
    } else {
      StepSems(s, c, turn.call, m);
    }
  }

  ghost predicate NoIncrement(n: nat, before: seq<Turn>, after: seq<Turn>, m: SemId, t: Tid) {
    forall i {:trigger after[i]} :: 0 <= i < |after| ==>
      !IncrementBy(Exec(Init(n), before + after[..i]), after[i], m, t)
  }

  lemma NoIncrementBefore(n: nat, before: seq<Turn>, after: seq<Turn>, m: SemId, t: Tid)
    requires after != [] && NoIncrement(n, before, after, m, t)
    ensures NoIncrement(n, before, after[..|after| - 1], m, t)
    ensures !IncrementBy(Exec(Init(n), before + after[..|after| - 1]), after[|after| - 1], m, t)
  {
    hide IncrementBy; hide Exec; hide Init;
    var rest := after[..|after| - 1];
    forall i | 0 <= i < |rest| ensures !IncrementBy(Exec(Init(n), before + rest[..i]), rest[i], m, t) {
      assert rest[..i] == after[..i] && rest[i] == after[i];
    }
    var last := after[|after| - 1];
  }

  /** Over any run: a thread that waits for a semaphore or holds it still does if it has not
      incremented it, and one that held it holds it. */
  lemma {:induction false} HeldUntilUp(n: nat, before: seq<Turn>, after: seq<Turn>, m: SemId, t: Tid)
    requires n <= MAX_CORES && WaitsOrHolds(Exec(Init(n), before), m, t) && NoIncrement(n, before, after, m, t)
    ensures StillThere(Exec(Init(n), before), Exec(Init(n), before + after), m, t)
    decreases |after|
  {
    hide Inv; hide Init; hide Step; hide IncrementBy; hide NoIncrement;
    if after == [] {
      assert before + after == before;
    } else {
      var turn, rest := after[|after| - 1], after[..|after| - 1];
      NoIncrementBefore(n, before, after, m, t);
      HeldUntilUp(n, before, rest, m, t);
      assert (before + after)[..|before + after| - 1] == before + rest;
      var s := Exec(Init(n), before + rest);
      if turn.core < |s.cores| {
        var loc := Reachable(n, before + rest);
        StepKeepsWaiter(s, turn, m, t, loc);
      }
    }
  }

  /** A thread that blocked on a semaphore and is back on a core without having incremented it
      holds it: it returns from down only with a grant. */
  lemma BlockedReturnsHolding(n: nat, before: seq<Turn>, after: seq<Turn>, m: SemId, t: Tid, c: nat)
    requires n <= MAX_CORES && NoIncrement(n, before, after, m, t)
    requires m < |Exec(Init(n), before).sems| && t in Exec(Init(n), before).sems[m].queue
    requires
      var s' := Exec(Init(n), before + after);
      c < |s'.cores| && s'.cores[c].stack == Some(t)
    ensures
      var s' := Exec(Init(n), before + after);
      m < |s'.sems| && t in s'.sems[m].holders
  {
    hide Inv; hide Init; hide Step; hide Exec; hide NoIncrement;
    HeldUntilUp(n, before, after, m, t);
    OneCoreEach(n, before + after, c, c, t);
  }

  /** A thread that did not block holds the semaphore from its decrement on. */
  lemma DecrementHolds(n: nat, schedule: seq<Turn>, c: nat, call: Call, m: SemId)
    requires n <= MAX_CORES && c < |Exec(Init(n), schedule).cores| && m < |Exec(Init(n), schedule).sems|
    requires Exec(Init(n), schedule).cores[c].pc == DownDec(m) && Exec(Init(n), schedule).sems[m].counter > 0
    ensures
      var s := Exec(Init(n), schedule);
      var s' := Step(s, c, call);
      && s.cores[c].curr.Some? && |s'.cores| == |s.cores| && s'.cores[c].pc == DownUnlock(m)
      && m < |s'.sems| && s.cores[c].curr.value in s'.sems[m].holders
  {
    hide Inv; hide Exec; hide Init;
    var loc := Reachable(n, schedule);
    CoreAt(Exec(Init(n), schedule), c, loc);
  }

  // ---------------------------------------------------------------- mutexes

  /** A client unlocks a mutex only while holding it. */
  predicate UnlocksOwn(s: State, turn: Turn, m: SemId) {
    turn.core < |s.cores| && s.cores[turn.core].pc.User? && turn.call == Up(m) && m < |s.sems| ==>
      s.cores[turn.core].curr.Some? && s.cores[turn.core].curr.value in s.sems[m].holders
  }

  ghost predicate Disciplined(s: State, schedule: seq<Turn>, m: SemId) {
    forall i {:trigger schedule[i]} :: 0 <= i < |schedule| ==> UnlocksOwn(Exec(s, schedule[..i]), schedule[i], m)
  }

  predicate AboutToUnlock(pc: Pc, m: SemId) { pc == UpLock(m) || pc == UpInc(m) }

  ghost predicate MutexOk(s: State, m: SemId) {
    m < |s.sems| ==>
      && |s.sems[m].holders| + s.sems[m].ups == Granted(s.sems[m])
      && forall c :: 0 <= c < |s.cores| && AboutToUnlock(s.cores[c].pc, m) ==>
           s.cores[c].curr.Some? && s.cores[c].curr.value in s.sems[m].holders
  }

  /** Grants add to the holders, an increment takes the caller out. */
  predicate Accounts(x: Sem, x': Sem, k: Core) {
    if k.pc.UpInc? then
      && k.curr.Some? && x'.holders == x.holders - multiset{k.curr.value}
      && x'.ups == x.ups + 1 && Granted(x') == Granted(x)
    else
      && x.holders <= x'.holders && x'.ups == x.ups
      && |x'.holders| - |x.holders| == Granted(x') - Granted(x)
  }

  lemma DownAccounts(s: State, c: nat, m: SemId)
    requires c < |s.cores| && m < |s.sems| && InDown(s.cores[c].pc, m) && s.cores[c].curr.Some?
    ensures Accounts(s.sems[m], DownStep(s, c, m).sems[m], s.cores[c])
  {
    match s.cores[c].pc
    case DownLock(_) =>
    case DownDec(_) =>
    case DownRequest(_) =>
    case DownUnlock(_) =>
  }

  lemma UpAccounts(s: State, c: nat, m: SemId)
    requires c < |s.cores| && m < |s.sems| && InUp(s.cores[c].pc, m) && s.cores[c].curr.Some?
    ensures Accounts(s.sems[m], UpStep(s, c, m).sems[m], s.cores[c])
  {
    match s.cores[c].pc
    case UpLock(_) =>
    case UpInc(_) =>
    case UpPop(_) =>
    case UpSchedule(_, _) =>
    case UpUnlock(_) =>
  }

  lemma FinishAccounts(s: State, c: nat, m: SemId)
    requires c < |s.cores| && m < |s.sems| && m < |FinishStep(s, c).sems| && !s.cores[c].pc.UpInc?
    ensures Accounts(s.sems[m], FinishStep(s, c).sems[m], s.cores[c])
  {
  }

  lemma NothingGranted(x: Sem, k: Core)
    requires !k.pc.UpInc?
    ensures Accounts(x, x, k)
  {
  }

  /** A step under the lock of `m`. */
  lemma HolderStep(s: State, c: nat, call: Call, m: SemId)
    requires c < |s.cores| && m < |s.sems| && CoreOk(s.cores[c], c) && Held(s.cores[c]) == Some(m)
    ensures |s.sems| == |Step(s, c, call).sems| && |s.cores| == |Step(s, c, call).cores|
    ensures Accounts(s.sems[m], Step(s, c, call).sems[m], s.cores[c])
  {
    hide FinishStep; hide UpStep; hide DownStep; hide SwitchTo; hide Accounts; hide CallStep; hide DispatchStep;
    StepCores(s, c, call);
    match s.cores[c].pc
    case Leave(_) => NothingGranted(s.sems[m], s.cores[c]);
    case SwitchOut(r) =>
      SwitchCores(s, c, r);
      NothingGranted(s.sems[m], s.cores[c]);
    case IdleDelete | IdleQueue | IdlePush | IdleUnlock => FinishAccounts(s, c, m);
    case DownDec(_) | DownRequest(_) | DownUnlock(_) => DownAccounts(s, c, m);
    case UpInc(_) | UpPop(_) | UpSchedule(_, _) | UpUnlock(_) => UpAccounts(s, c, m);
  }

  lemma SwitchLands(s: State, c: nat, call: Call, loc: map<Tid, Place>)
    requires Inv(s, loc) && c < |s.cores| && (s.cores[c].pc.SwitchOut? || s.cores[c].pc.IdleSwitch?)
    ensures
      var s' := Step(s, c, call);
      |s'.cores| == |s.cores| && var pc := s'.cores[c].pc; pc.User? || pc.IdleEntry? || pc.IdleDelete?
  {
    hide CoresOk; hide LiveOk; hide Owned; hide ContextsOk; hide QueuesOk; hide LocksOk; hide SemsOk; hide SwitchTo;
    if s.cores[c].pc.SwitchOut? { SwitchOutShape(s, c, loc); } else { SwitchInShape(s, c, loc); }
  }

  /** Who is about to unlock after a step of core `c` was so before, or just called up. */
  lemma UnlockerWas(s: State, c: nat, call: Call, m: SemId, loc: map<Tid, Place>)
    requires Inv(s, loc) && c < |s.cores| && c < |Step(s, c, call).cores|
    requires AboutToUnlock(Step(s, c, call).cores[c].pc, m)
    ensures Step(s, c, call).cores[c].curr == s.cores[c].curr
    ensures Held(s.cores[c]).None?
    ensures s.cores[c].pc == UpLock(m) || (s.cores[c].pc.User? && call == Up(m) && m < |s.sems|)
  {
    hide Inv;
    CoreAt(s, c, loc);
    match s.cores[c].pc
    case SwitchOut(_) => SwitchLands(s, c, call, loc); assert false;
    case IdleSwitch => SwitchLands(s, c, call, loc); assert false;
    case Boot =>
    case User =>
    case UpLock(_) =>
    case _ => NotUnlocking(s, c, call, m); assert false;
  }

  lemma FinishPcs(s: State, c: nat, m: SemId)
    requires c < |s.cores| && !AboutToUnlock(s.cores[c].pc, m)
    ensures |FinishStep(s, c).cores| == |s.cores| && !AboutToUnlock(FinishStep(s, c).cores[c].pc, m)
  {
  }

  lemma UpDownPcs(s: State, c: nat, m: SemId, j: SemId)
    requires c < |s.cores| && j < |s.sems| && InUpOrDown(s.cores[c].pc, j)
    requires !s.cores[c].pc.UpLock? && !AboutToUnlock(s.cores[c].pc, m)
    ensures |DownStep(s, c, j).cores| == |UpStep(s, c, j).cores| == |s.cores|
    ensures !AboutToUnlock(DownStep(s, c, j).cores[c].pc, m) && !AboutToUnlock(UpStep(s, c, j).cores[c].pc, m)
  {
  }

  lemma NotUnlocking(s: State, c: nat, call: Call, m: SemId)
    requires c < |s.cores| && c < |Step(s, c, call).cores|
    requires
      var pc := s.cores[c].pc;
      !pc.SwitchOut? && !pc.IdleSwitch? && !pc.Boot? && !pc.User? && !pc.UpLock?
    ensures !AboutToUnlock(Step(s, c, call).cores[c].pc, m)
  {
    hide FinishStep; hide UpStep; hide DownStep;
    var pc := s.cores[c].pc;
    if pc == UpInc(m) {
      UpIncMoves(s, c, call, m);
    } else {
      FinishPcs(s, c, m);
      if (pc.DownLock? || pc.DownDec? || pc.DownRequest? || pc.DownUnlock?) && pc.sem < |s.sems| {
        UpDownPcs(s, c, m, pc.sem);
      } else if (pc.UpInc? || pc.UpPop? || pc.UpSchedule? || pc.UpUnlock?) && pc.sem < |s.sems| {
        UpDownPcs(s, c, m, pc.sem);
      }
    }
  }

  lemma UpIncMoves(s: State, c: nat, call: Call, m: SemId)
    requires c < |s.cores| && s.cores[c].pc == UpInc(m) && c < |Step(s, c, call).cores|
    ensures !AboutToUnlock(Step(s, c, call).cores[c].pc, m)
  {
  }

  lemma DifferentThreads(s: State, c: nat, d: nat, loc: map<Tid, Place>)
    requires Inv(s, loc) && c < |s.cores| && d < |s.cores| && c != d
    requires InThread(s.cores[c]) && InThread(s.cores[d])
    ensures s.cores[c].curr.value != s.cores[d].curr.value
  {
    StackIs(s, c, s.cores[c].stack.value, loc);
    StackIs(s, d, s.cores[d].stack.value, loc);
  }

  lemma MutexUnderLock(s: State, c: nat, call: Call, m: SemId, loc: map<Tid, Place>)
    requires Inv(s, loc) && MutexOk(s, m) && c < |s.cores| && m < |s.sems| && Held(s.cores[c]) == Some(m)
    ensures MutexOk(Step(s, c, call), m)
  {
    hide Inv; hide Step;
    var s', k := Step(s, c, call), s.cores[c];
    CoreAt(s, c, loc);
    StepCores(s, c, call);
    HolderStep(s, c, call, m);
    forall d | 0 <= d < |s'.cores| && AboutToUnlock(s'.cores[d].pc, m)
      ensures s'.cores[d].curr.Some? && s'.cores[d].curr.value in s'.sems[m].holders
    {
      if d == c {
        UnlockerWas(s, c, call, m, loc);
        assert false;
      } else if k.pc == UpInc(m) {
        CoreAt(s, d, loc);
        DifferentThreads(s, c, d, loc);
      }
    }
  }

  lemma MutexElsewhere(s: State, turn: Turn, m: SemId, loc: map<Tid, Place>)
    requires Inv(s, loc) && MutexOk(s, m) && UnlocksOwn(s, turn, m)
    requires turn.core < |s.cores| && m < |s.sems| && Held(s.cores[turn.core]) != Some(m)
    ensures MutexOk(Step(s, turn.core, turn.call), m)
  {
    hide Inv; hide Step;
    var c := turn.core;
    var s' := Step(s, c, turn.call);
    CoreAt(s, c, loc);
    StepCores(s, c, turn.call);
    StepSems(s, c, turn.call, m);
    forall d | 0 <= d < |s'.cores| && AboutToUnlock(s'.cores[d].pc, m)
      ensures s'.cores[d].curr.Some? && s'.cores[d].curr.value in s'.sems[m].holders
    {
      if d == c { UnlockerWas(s, c, turn.call, m, loc); }
    }
  }

  lemma MutexNew(s: State, turn: Turn, m: SemId, loc: map<Tid, Place>)
    requires Inv(s, loc) && turn.core < |s.cores| && m >= |s.sems|
    ensures MutexOk(Step(s, turn.core, turn.call), m)
  {
    hide Inv; hide Step;
    var s' := Step(s, turn.core, turn.call);
    StepCores(s, turn.core, turn.call);
    if m < |s'.sems| { NewSemFresh(s, turn.core, turn.call, m); }
    forall d | 0 <= d < |s'.cores| && AboutToUnlock(s'.cores[d].pc, m) ensures false {
      if d == turn.core {
        UnlockerWas(s, d, turn.call, m, loc);
        if s.cores[d].pc == UpLock(m) { SemNamed(s, d, m, loc); }
      } else {
        SemNamed(s, d, m, loc);
      }
    }
  }

  lemma NewSemFresh(s: State, c: nat, call: Call, m: SemId)
    requires c < |s.cores| && |s.sems| <= m < |Step(s, c, call).sems|
    ensures
      var x := Step(s, c, call).sems[m];
      x.holders == multiset{} && x.ups == 0 && Granted(x) == 0
  {
    assert s.cores[c].pc.User? && call.NewSem? by { hide Step; StepCores(s, c, call); }
  }

  lemma MutexStep(s: State, turn: Turn, m: SemId, loc: map<Tid, Place>)
    requires Inv(s, loc) && MutexOk(s, m) && UnlocksOwn(s, turn, m) && turn.core < |s.cores|
    ensures MutexOk(Step(s, turn.core, turn.call), m)
  {
    hide Inv; hide Step; hide MutexOk; hide UnlocksOwn;
    if m >= |s.sems| {
      MutexNew(s, turn, m, loc);
    } else if Held(s.cores[turn.core]) == Some(m) {
      MutexUnderLock(s, turn.core, turn.call, m, loc);
    } else {
      MutexElsewhere(s, turn, m, loc);
    }
  }

  lemma {:induction false} MutexRun(n: nat, schedule: seq<Turn>, m: SemId)
    requires n <= MAX_CORES && Disciplined(Init(n), schedule, m)
    ensures MutexOk(Exec(Init(n), schedule), m)
    decreases |schedule|
  {
    hide Inv; hide Step;
    if schedule != [] {
      var rest, turn := schedule[..|schedule| - 1], schedule[|schedule| - 1];
      forall i {:trigger rest[i]} | 0 <= i < |rest| ensures UnlocksOwn(Exec(Init(n), rest[..i]), rest[i], m) {
        assert rest[..i] == schedule[..i] && rest[i] == schedule[i];
      }
      MutexRun(n, rest, m);
      var loc := Reachable(n, rest);
      var s := Exec(Init(n), rest);
      if turn.core < |s.cores| { MutexStep(s, turn, m, loc); }
    }
  }

  /** Mutual exclusion: a mutex is a semaphore that starts at 1. If its clients unlock it only
      while holding it, at most one thread holds it at any time, counting a woken thread that
      has not run yet; and nobody holds it exactly when it is open, or an unlock is about to
      hand it on. */
  lemma MutualExclusion(n: nat, schedule: seq<Turn>, m: SemId)
    requires n <= MAX_CORES && m < |Exec(Init(n), schedule).sems|
    requires Exec(Init(n), schedule).sems[m].initial == 1
    requires Disciplined(Init(n), schedule, m)
    ensures
      var s := Exec(Init(n), schedule);
      var x := s.sems[m];
      && |x.holders| <= 1 && x.counter <= 1
      && (|x.holders| == 0 <==> x.counter == 1 || Waking(s, m))
  {
    hide Inv; hide Step; hide Exec; hide Init; hide Disciplined;
    MutexRun(n, schedule, m);
    Conservation(n, schedule, m);
  }
}
