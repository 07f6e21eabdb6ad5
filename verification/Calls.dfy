/**
 What each call of a thread does, from the call to its effect: `go`, `stop`, `yield`, `Semaphore::up`
 and `down`, and the making of a semaphore, first with the core undisturbed, then for `up` with any
 interference of the other cores.
 */
module Calls {
  import opened Options
  import opened Kernel
  import opened Handoff
  import opened Runs

  // ---------------------------------------------------------------- one core on its own

  /** Core c makes the call and then takes k more turns. */
  function Alone(c: nat, call: Call, k: nat): (turns: seq<Turn>)
    ensures |turns| == k + 1
  {
    if k == 0 then [Turn(c, call)] else Alone(c, call, k - 1) + [Turn(c, Go)]
  }

  function Again(s: State, c: nat, k: nat): State {
    if k == 0 then s
    else
      var before := Again(s, c, k - 1);
      if c < |before.cores| then Step(before, c, Go) else before
  }

  lemma {:induction false} AloneIs(s: State, c: nat, call: Call, k: nat)
    requires c < |s.cores|
    ensures Exec(s, Alone(c, call, k)) == Again(Step(s, c, call), c, k)
    decreases k
  {
    hide Step;
    var turns := Alone(c, call, k);
    if k == 0 {
      assert turns[..0] == [];
      assert Exec(s, turns[..0]) == s;
    } else {
      assert turns[..|turns| - 1] == Alone(c, call, k - 1);
      AloneIs(s, c, call, k - 1);
    }
  }

  lemma OnceMore(s: State, c: nat, k: nat)
    requires c < |Again(s, c, k).cores|
    ensures Again(s, c, k + 1) == Step(Again(s, c, k), c, Go)
  {
  }

  lemma {:induction false} AgainAgain(s: State, c: nat, j: nat, k: nat)
    ensures Again(s, c, j + k) == Again(Again(s, c, j), c, k)
    decreases k
  {
    hide Step;
    if k > 0 { AgainAgain(s, c, j, k - 1); }
  }

  // ---------------------------------------------------------------- up and down

  /** Only semaphore m differs, and it is free. */
  predicate OnlySem(s: State, s': State, m: SemId) {
    && m < |s.sems| == |s'.sems| && s'.sems[m].lock.None?
    && s'.tcbs == s.tcbs && s'.nextTid == s.nextTid
    && forall j :: 0 <= j < |s.sems| && j != m ==> s'.sems[j] == s.sems[j]
  }

  /** up: the caller is back in its code, the counter is one higher, and if it was negative the
      first waiter has moved to the end of the ready queue. */
  predicate Upped(s: State, s': State, m: SemId)
    requires m < |s.sems|
  {
    && OnlySem(s, s', m) && s'.cores == s.cores
    && s'.sems[m].counter == s.sems[m].counter + 1 && s'.sems[m].ups == s.sems[m].ups + 1
    && if s.sems[m].counter >= 0 then s'.ready == s.ready && s'.sems[m].queue == s.sems[m].queue
       else s.sems[m].queue != [] && s'.ready == s.ready + [s.sems[m].queue[0]] && s'.sems[m].queue == s.sems[m].queue[1..]
  }

  lemma Two(s0: State, c: nat, s1: State, s2: State)
    requires c < |s0.cores| && c < |s1.cores| && s1 == Step(s0, c, Go) && s2 == Step(s1, c, Go)
    ensures Again(s0, c, 2) == s2
  {
    hide Step;
    assert Again(s0, c, 0) == s0;
    OnceMore(s0, c, 0);
    OnceMore(s0, c, 1);
  }

  lemma Three(s0: State, c: nat, s1: State, s2: State, s3: State)
    requires c < |s0.cores| && c < |s1.cores| && c < |s2.cores|
    requires s1 == Step(s0, c, Go) && s2 == Step(s1, c, Go) && s3 == Step(s2, c, Go)
    ensures Again(s0, c, 3) == s3
  {
    hide Step;
    Two(s0, c, s1, s2);
    OnceMore(s0, c, 2);
  }

  /** The semaphore once up has incremented it. */
  function Incremented(s: State, c: nat, m: SemId): Sem
    requires c < |s.cores| && m < |s.sems|
  {
    var x := s.sems[m];
    x.(lock := Some(c), counter := x.counter + 1, ups := x.ups + 1,
       holders := x.holders - multiset(Named(s.cores[c].curr)))
  }

  lemma UpBegins(s: State, c: nat, m: SemId)
    requires c < |s.cores| && s.cores[c].pc == User && m < |s.sems| && s.sems[m].lock.None?
    ensures
      var pc := if s.sems[m].counter < 0 then UpPop(m) else UpUnlock(m);
      Again(Step(s, c, Up(m)), c, 2) == PutSem(Goto(s, c, pc), m, Incremented(s, c, m))
  {
    var k, x := s.cores[c], s.sems[m];
    var s0 := Step(s, c, Up(m));
    assert s0 == Goto(s, c, UpLock(m));
    var s1 := Step(s0, c, Go);
    assert s1 == PutSem(Goto(s, c, UpInc(m)), m, x.(lock := Some(c)));
    var s2 := Step(s1, c, Go);
    assert s2 == PutSem(Goto(s, c, if x.counter < 0 then UpPop(m) else UpUnlock(m)), m, Incremented(s, c, m));
    Two(s0, c, s1, s2);
  }

  lemma UpWakes(s: State, c: nat, m: SemId)
    requires c < |s.cores| && s.cores[c].pc == UpPop(m) && m < |s.sems| && s.sems[m].queue != []
    ensures
      var x, t := s.sems[m], s.sems[m].queue[0];
      Again(s, c, 3) == PutSem(Goto(Schedule(s, t), c, User), m,
        x.(queue := x.queue[1..], wakes := x.wakes + [t], holders := x.holders + multiset{t}, lock := None))
  {
    hide Step;
    var s1 := Step(s, c, Go);
    UpPops(s, c, m);
    var s2 := Step(s1, c, Go);
    UpSchedules(s1, c, m, s.sems[m].queue[0]);
    UpEnds(s2, c, m);
    Three(s, c, s1, s2, Step(s2, c, Go));
  }

  lemma UpPops(s: State, c: nat, m: SemId)
    requires c < |s.cores| && s.cores[c].pc == UpPop(m) && m < |s.sems| && s.sems[m].queue != []
    ensures
      var x, t := s.sems[m], s.sems[m].queue[0];
      Step(s, c, Go) == PutSem(Goto(s, c, UpSchedule(m, t)), m,
        x.(queue := x.queue[1..], wakes := x.wakes + [t], holders := x.holders + multiset{t}))
  {
  }

  lemma UpSchedules(s: State, c: nat, m: SemId, t: Tid)
    requires c < |s.cores| && s.cores[c].pc == UpSchedule(m, t) && m < |s.sems|
    ensures Step(s, c, Go) == Goto(Schedule(s, t), c, UpUnlock(m))
  {
  }

  lemma UpDoes(s: State, c: nat, m: SemId)
    requires c < |s.cores| && s.cores[c].pc == User && m < |s.sems| && s.sems[m].lock.None?
    requires s.sems[m].counter < 0 ==> s.sems[m].queue != []
    ensures Upped(s, Again(Step(s, c, Up(m)), c, if s.sems[m].counter < 0 then 5 else 3), m)
  {
    hide Step;
    var s0 := Step(s, c, Up(m));
    UpBegins(s, c, m);
    var s2 := Again(s0, c, 2);
    assert s.cores[c := s.cores[c]] == s.cores;
    if s.sems[m].counter < 0 {
      AgainAgain(s0, c, 2, 3);
      UpWakes(s2, c, m);
    } else {
      OnceMore(s0, c, 2);
      UpEnds(s2, c, m);
    }
  }

  lemma UpEnds(s: State, c: nat, m: SemId)
    requires c < |s.cores| && s.cores[c].pc == UpUnlock(m) && m < |s.sems|
    ensures Step(s, c, Go) == PutSem(Goto(s, c, User), m, s.sems[m].(lock := None))
  {
  }

  // ---------------------------------------------------------------- down

  /** The semaphore once down has decremented it. */
  function Decremented(s: State, c: nat, m: SemId): Sem
    requires c < |s.cores| && m < |s.sems|
  {
    var x, t := s.sems[m], Named(s.cores[c].curr);
    if x.counter > 0 then
      x.(lock := Some(c), counter := x.counter - 1, immediate := x.immediate + 1, holders := x.holders + multiset(t))
    else x.(lock := Some(c), counter := x.counter - 1, waits := x.waits + t)
  }

  lemma DownBegins(s: State, c: nat, m: SemId)
    requires c < |s.cores| && s.cores[c].pc == User && m < |s.sems| && s.sems[m].lock.None?
    ensures
      var pc := if s.sems[m].counter > 0 then DownUnlock(m) else DownRequest(m);
      Again(Step(s, c, Down(m)), c, 2) == PutSem(Goto(s, c, pc), m, Decremented(s, c, m))
  {
    var x := s.sems[m];
    var s0 := Step(s, c, Down(m));
    assert s0 == Goto(s, c, DownLock(m));
    var s1 := Step(s0, c, Go);
    assert s1 == PutSem(Goto(s, c, DownDec(m)), m, x.(lock := Some(c)));
    var s2 := Step(s1, c, Go);
    assert s2 == PutSem(Goto(s, c, if x.counter > 0 then DownUnlock(m) else DownRequest(m)), m, Decremented(s, c, m));
    Two(s0, c, s1, s2);
  }

  lemma DownEnds(s: State, c: nat, m: SemId)
    requires c < |s.cores| && s.cores[c].pc == DownUnlock(m) && m < |s.sems|
    ensures Step(s, c, Go) == PutSem(Goto(s, c, User), m, s.sems[m].(lock := None))
  {
  }

  /** down without waiting: the caller is back in its code and among the holders. */
  predicate Downed(s: State, s': State, m: SemId, t: Tid)
    requires m < |s.sems|
  {
    && OnlySem(s, s', m) && s'.cores == s.cores && s'.ready == s.ready
    && s'.sems[m].counter == s.sems[m].counter - 1 && s'.sems[m].queue == s.sems[m].queue
    && s'.sems[m].holders == s.sems[m].holders + multiset{t}
  }

  lemma DownPasses(s: State, c: nat, m: SemId, t: Tid)
    requires c < |s.cores| && s.cores[c].pc == User && s.cores[c].curr == Some(t)
    requires m < |s.sems| && s.sems[m].lock.None? && s.sems[m].counter > 0
    ensures Downed(s, Again(Step(s, c, Down(m)), c, 3), m, t)
  {
    hide Step;
    var s0 := Step(s, c, Down(m));
    DownBegins(s, c, m);
    assert s.cores[c := s.cores[c]] == s.cores;
    OnceMore(s0, c, 2);
    DownEnds(Again(s0, c, 2), c, m);
  }

  // ---------------------------------------------------------------- leaving the core

  /** The core's record once the thread that asked has switched to the idle thread. */
  function Asked(k: Core, c: nat): Core {
    k.(prev := k.curr, curr := Some(c), pc := IdleDelete, stack := Some(c))
  }

  /** From the request to the idle thread: the thread's context is saved. */
  lemma LeavesCore(s: State, c: nat, t: Tid, loc: map<Tid, Place>)
    requires Inv(s, loc) && c < |s.cores| && s.cores[c].pc.Leave? && s.cores[c].curr == Some(t)
    ensures
      Again(s, c, 2)
      == Put(s, c, Asked(s.cores[c], c)).(tcbs := s.tcbs[t := Saved(s.cores[c].pc.resume)][c := Stale])
  {
    hide Inv; hide SwitchTo;
    CoreAt(s, c, loc);
    var k := s.cores[c];
    var s1 := Step(s, c, Go);
    assert s1 == Put(s, c, k.(prev := k.curr, curr := Some(c), pc := SwitchOut(k.pc.resume)));
    var loc1 := StepKeeps(s, c, Go, loc);
    SwitchShape(s1, c, loc1);
    var s2 := Step(s1, c, Go);
    assert s2 == SwitchTo(s1, c, k.pc.resume);
    Two(s, c, s1, s2);
  }

  lemma SwitchShape(s: State, c: nat, loc: map<Tid, Place>)
    requires Inv(s, loc) && c < |s.cores| && s.cores[c].pc.SwitchOut? && s.cores[c].stack.Some?
    ensures SwitchTo(s, c, s.cores[c].pc.resume) == SwitchedOut(s, c, IdleDelete, s.cores[c].pc.resume)
  {
    SwitchOutShape(s, c, loc);
  }

  /** The idle thread frees the thread that stopped. */
  lemma IdleDeletes(s: State, c: nat, t: Tid)
    requires c < |s.cores| && s.cores[c].pc == IdleDelete && s.cores[c].toDelete == Some(t) && t in s.tcbs
    ensures Step(s, c, Go) == Goto(s, c, IdleDeleteClear).(tcbs := s.tcbs - {t})
  {
  }

  /** The idle thread puts the thread that yielded at the end of the ready queue. */
  lemma IdleReschedules(s: State, c: nat, t: Tid)
    requires c < |s.cores| && s.cores[c].pc == IdleDelete
    requires s.cores[c].toDelete.None? && s.cores[c].toQueue.None? && s.cores[c].toReschedule == Some(t)
    ensures Again(s, c, 3) == Goto(Schedule(s, t), c, IdleRescheduleClear)
  {
    hide Step;
    IdlePasses(s, c);
    var s1 := Step(s, c, Go);
    IdlePasses(s1, c);
    var s2 := Step(s1, c, Go);
    IdlePushesReady(s2, c, t);
    Three(s, c, s1, s2, Step(s2, c, Go));
  }

  /** A request that is not there is passed over. */
  lemma IdlePasses(s: State, c: nat)
    requires c < |s.cores|
    ensures s.cores[c].pc == IdleDelete && s.cores[c].toDelete.None? ==> Step(s, c, Go) == Goto(s, c, IdleQueue)
    ensures s.cores[c].pc == IdleQueue && s.cores[c].toQueue.None? ==> Step(s, c, Go) == Goto(s, c, IdleReschedule)
  {
  }

  lemma IdlePushesReady(s: State, c: nat, t: Tid)
    requires c < |s.cores| && s.cores[c].pc == IdleReschedule && s.cores[c].toReschedule == Some(t)
    ensures Step(s, c, Go) == Goto(Schedule(s, t), c, IdleRescheduleClear)
  {
  }

  /** The idle thread puts the thread that blocked into the semaphore's queue. */
  lemma IdleQueues(s: State, c: nat, t: Tid, m: SemId)
    requires c < |s.cores| && s.cores[c].pc == IdleDelete && m < |s.sems|
    requires s.cores[c].toDelete.None? && s.cores[c].toQueue == Some(t)
    requires s.cores[c].toAddTo == Some(m) == s.cores[c].toUnlock
    ensures Again(s, c, 3) == PutSem(Goto(s, c, IdleUnlock), m, s.sems[m].(queue := s.sems[m].queue + [t]))
  {
    hide Step;
    IdlePasses(s, c);
    var s1 := Step(s, c, Go);
    IdleChecks(s1, c);
    var s2 := Step(s1, c, Go);
    IdlePushesQueue(s2, c, t, m);
    Three(s, c, s1, s2, Step(s2, c, Go));
  }

  lemma IdleChecks(s: State, c: nat)
    requires c < |s.cores| && s.cores[c].pc == IdleQueue && s.cores[c].toQueue.Some?
    requires s.cores[c].toAddTo.Some? && s.cores[c].toUnlock.Some?
    ensures Step(s, c, Go) == Goto(s, c, IdlePush)
  {
  }

  lemma IdlePushesQueue(s: State, c: nat, t: Tid, m: SemId)
    requires c < |s.cores| && s.cores[c].pc == IdlePush && m < |s.sems|
    requires s.cores[c].toQueue == Some(t) && s.cores[c].toAddTo == Some(m)
    ensures Step(s, c, Go) == PutSem(Goto(s, c, IdleUnlock), m, s.sems[m].(queue := s.sems[m].queue + [t]))
  {
  }

  lemma IdleUnlocks(s: State, c: nat, m: SemId)
    requires c < |s.cores| && s.cores[c].pc == IdleUnlock && m < |s.sems| && s.cores[c].toUnlock == Some(m)
    ensures Step(s, c, Go) == PutSem(Goto(s, c, IdleQueueClear), m, s.sems[m].(lock := None))
  {
  }

  // ---------------------------------------------------------------- in every reachable state

  /** Thread t is in its own code on core c. */
  predicate InCode(s: State, c: nat, t: Tid) {
    c < |s.cores| && s.cores[c].pc == User && s.cores[c].stack == Some(t) == s.cores[c].curr && NoRequest(s.cores[c])
  }

  /** A core in a thread's code has no request left over. */
  lemma CodeIsQuiet(n: nat, schedule: seq<Turn>, c: nat)
    requires n <= MAX_CORES && c < |Exec(Init(n), schedule).cores| && Exec(Init(n), schedule).cores[c].pc == User
    ensures
      var s := Exec(Init(n), schedule);
      s.cores[c].stack.Some? && InCode(s, c, s.cores[c].stack.value)
  {
    hide Inv; hide Exec; hide Init;
    var loc := Reachable(n, schedule);
    CoreAt(Exec(Init(n), schedule), c, loc);
  }

  lemma AloneAfter(n: nat, schedule: seq<Turn>, c: nat, call: Call, k: nat) returns (loc: map<Tid, Place>)
    requires n <= MAX_CORES && c < |Exec(Init(n), schedule).cores|
    ensures Exec(Init(n), schedule + Alone(c, call, k)) == Again(Step(Exec(Init(n), schedule), c, call), c, k)
    ensures Inv(Again(Step(Exec(Init(n), schedule), c, call), c, k), loc)
  {
    hide Inv; hide Init; hide Step; hide Again; hide Alone; hide Exec;
    ExecConcat(Init(n), schedule, Alone(c, call, k));
    AloneIs(Exec(Init(n), schedule), c, call, k);
    loc := Reachable(n, schedule + Alone(c, call, k));
  }

  /** up(m) by a thread, the lock being free: after four or six turns of its core it is back in its
      code, the counter is one higher, and if that was negative the first waiter is at the end of the
      ready queue. */
  lemma UpCall(n: nat, schedule: seq<Turn>, c: nat, t: Tid, m: SemId)
    requires n <= MAX_CORES && InCode(Exec(Init(n), schedule), c, t)
    requires m < |Exec(Init(n), schedule).sems| && Exec(Init(n), schedule).sems[m].lock.None?
    ensures
      var s := Exec(Init(n), schedule);
      Upped(s, Exec(Init(n), schedule + Alone(c, Up(m), if s.sems[m].counter < 0 then 5 else 3)), m)
  {
    hide Inv; hide Init; hide Step; hide Again; hide Alone; hide Exec; hide Upped;
    var s := Exec(Init(n), schedule);
    WaitersMatchCounter(n, schedule, m);
    UpDoes(s, c, m);
    var _ := AloneAfter(n, schedule, c, Up(m), if s.sems[m].counter < 0 then 5 else 3);
  }

  /** down(m) by a thread, the lock being free and the counter positive: after four turns of its core
      it is back in its code, among the holders, and the counter is one lower. */
  lemma DownCallPasses(n: nat, schedule: seq<Turn>, c: nat, t: Tid, m: SemId)
    requires n <= MAX_CORES && InCode(Exec(Init(n), schedule), c, t)
    requires m < |Exec(Init(n), schedule).sems| && Exec(Init(n), schedule).sems[m].lock.None?
    requires Exec(Init(n), schedule).sems[m].counter > 0
    ensures Downed(Exec(Init(n), schedule), Exec(Init(n), schedule + Alone(c, Down(m), 3)), m, t)
  {
    hide Inv; hide Init; hide Step; hide Again; hide Alone; hide Exec; hide Downed;
    DownPasses(Exec(Init(n), schedule), c, m, t);
    var _ := AloneAfter(n, schedule, c, Down(m), 3);
  }

  /** down(m) by a thread, the lock being free and the counter not positive: after ten turns of its
      core the counter is one lower, the thread is last in the queue with its context saved, and the
      lock is free. */
  lemma DownCallBlocks(n: nat, schedule: seq<Turn>, c: nat, t: Tid, m: SemId)
    requires n <= MAX_CORES && InCode(Exec(Init(n), schedule), c, t)
    requires m < |Exec(Init(n), schedule).sems| && Exec(Init(n), schedule).sems[m].lock.None?
    requires Exec(Init(n), schedule).sems[m].counter <= 0
    ensures
      var s, s' := Exec(Init(n), schedule), Exec(Init(n), schedule + Alone(c, Down(m), 9));
      && |s'.sems| == |s.sems| && s'.sems[m].lock.None? && s'.ready == s.ready
      && s'.sems[m].counter == s.sems[m].counter - 1 && s'.sems[m].queue == s.sems[m].queue + [t]
      && t in s'.tcbs && s'.tcbs[t] == Saved(User)
  {
    hide Inv; hide Init; hide Step; hide Again; hide Alone; hide Exec;
    hide Decremented;
    var s0 := Step(Exec(Init(n), schedule), c, Down(m));
    IdleIsNot(n, schedule, c, t);
    DownLeaves(n, schedule, c, t, m);
    WaitsAre(Exec(Init(n), schedule), c, m);
    var s5 := Again(s0, c, 5);
    IdleQueues(s5, c, t, m);
    AgainAgain(s0, c, 5, 3);
    OnceMore(s0, c, 8);
    IdleUnlocks(Again(s0, c, 8), c, m);
    var _ := AloneAfter(n, schedule, c, Down(m), 9);
  }

  lemma WaitsAre(s: State, c: nat, m: SemId)
    requires c < |s.cores| && m < |s.sems| && s.sems[m].counter <= 0
    ensures Decremented(s, c, m).counter == s.sems[m].counter - 1
    ensures Decremented(s, c, m).queue == s.sems[m].queue
  {
  }

  /** The blocked thread's core is in the idle thread, which has the request. */
  lemma DownLeaves(n: nat, schedule: seq<Turn>, c: nat, t: Tid, m: SemId)
    requires n <= MAX_CORES && InCode(Exec(Init(n), schedule), c, t)
    requires m < |Exec(Init(n), schedule).sems| && Exec(Init(n), schedule).sems[m].lock.None?
    requires Exec(Init(n), schedule).sems[m].counter <= 0
    ensures
      var s := Exec(Init(n), schedule);
      var s5 := Again(Step(s, c, Down(m)), c, 5);
      && c < |s5.cores| && s5.cores[c].pc == IdleDelete && s5.cores[c].toDelete.None?
      && s5.cores[c].toQueue == Some(t) && s5.cores[c].toAddTo == Some(m) == s5.cores[c].toUnlock
      && s5.sems == s.sems[m := Decremented(s, c, m)] && s5.ready == s.ready
      && s5.tcbs == s.tcbs[t := Saved(User)][c := Stale]
  {
    hide Inv; hide Init; hide Step; hide Again; hide Alone; hide Exec; hide Decremented;
    var s := Exec(Init(n), schedule);
    var s0 := Step(s, c, Down(m));
    DownBegins(s, c, m);
    OnceMore(s0, c, 2);
    DownAsks(Again(s0, c, 2), c, m);
    var loc := AloneAfter(n, schedule, c, Down(m), 3);
    LeavesCore(Again(s0, c, 3), c, t, loc);
    AgainAgain(s0, c, 3, 2);
  }

  lemma DownAsks(s: State, c: nat, m: SemId)
    requires c < |s.cores| && s.cores[c].pc == DownRequest(m) && m < |s.sems|
    ensures
      var k := s.cores[c];
      Step(s, c, Go) == Put(s, c, k.(toQueue := k.curr, toAddTo := Some(m), toUnlock := Some(m), pc := Leave(User)))
  {
  }

  /** A thread is not an idle thread. */
  lemma IdleIsNot(n: nat, schedule: seq<Turn>, c: nat, t: Tid)
    requires n <= MAX_CORES && InCode(Exec(Init(n), schedule), c, t)
    ensures t >= MAX_CORES > c
  {
    hide Inv; hide Exec; hide Init;
    var loc := Reachable(n, schedule);
    CoreAt(Exec(Init(n), schedule), c, loc);
  }

  /** yield by a thread: after seven turns of its core it is at the end of the ready queue, with its
      context saved. */
  lemma YieldCall(n: nat, schedule: seq<Turn>, c: nat, t: Tid)
    requires n <= MAX_CORES && InCode(Exec(Init(n), schedule), c, t)
    ensures
      var s, s' := Exec(Init(n), schedule), Exec(Init(n), schedule + Alone(c, Yield, 6));
      && s'.ready == s.ready + [t] && t in s'.tcbs && s'.tcbs[t] == Saved(User) && s'.sems == s.sems
  {
    hide Inv; hide Init; hide Step; hide Again; hide Alone; hide Exec;
    var s := Exec(Init(n), schedule);
    var s0 := Step(s, c, Yield);
    YieldAsks(s, c);
    var s1 := Again(s0, c, 1);
    var loc := AloneAfter(n, schedule, c, Yield, 1);
    LeavesCore(s1, c, t, loc);
    AgainAgain(s0, c, 1, 2);
    IdleReschedules(Again(s0, c, 3), c, t);
    AgainAgain(s0, c, 3, 3);
    var _ := AloneAfter(n, schedule, c, Yield, 6);
    IdleIsNot(n, schedule, c, t);
  }

  lemma YieldAsks(s: State, c: nat)
    requires c < |s.cores| && s.cores[c].pc == User
    ensures
      var k := s.cores[c];
      Again(Step(s, c, Yield), c, 1) == Put(s, c, k.(toReschedule := k.curr, pc := Leave(User)))
  {
    var s0 := Step(s, c, Yield);
    assert s0 == Goto(s, c, YieldRequest);
    OnceMore(s0, c, 0);
  }

  /** stop by a thread: after five turns of its core its TCB is freed. */
  lemma StopCall(n: nat, schedule: seq<Turn>, c: nat, t: Tid)
    requires n <= MAX_CORES && InCode(Exec(Init(n), schedule), c, t)
    ensures
      var s, s' := Exec(Init(n), schedule), Exec(Init(n), schedule + Alone(c, Stop, 4));
      t !in s'.tcbs && s'.ready == s.ready && s'.sems == s.sems
  {
    hide Inv; hide Init; hide Step; hide Again; hide Alone; hide Exec;
    var s := Exec(Init(n), schedule);
    var s0 := Step(s, c, Stop);
    StopAsks(s, c);
    var s1 := Again(s0, c, 1);
    var loc := AloneAfter(n, schedule, c, Stop, 1);
    LeavesCore(s1, c, t, loc);
    AgainAgain(s0, c, 1, 2);
    IdleIsNot(n, schedule, c, t);
    IdleDeletes(Again(s0, c, 3), c, t);
    OnceMore(s0, c, 3);
    var _ := AloneAfter(n, schedule, c, Stop, 4);
  }

  lemma StopAsks(s: State, c: nat)
    requires c < |s.cores| && s.cores[c].pc == User
    ensures
      var k := s.cores[c];
      Again(Step(s, c, Stop), c, 1) == Put(s, c, k.(toDelete := k.curr, pc := Leave(Unreachable)))
  {
    var s0 := Step(s, c, Stop);
    assert s0 == Goto(s, c, StopRequest);
    OnceMore(s0, c, 0);
  }

  /** go, by a thread or while booting: after two turns of the core the new thread is at the end of
      the ready queue, ready to run, and the caller is back where it was. */
  lemma GoCall(n: nat, schedule: seq<Turn>, c: nat)
    requires n <= MAX_CORES && c < |Exec(Init(n), schedule).cores|
    requires Exec(Init(n), schedule).cores[c].pc == User || Exec(Init(n), schedule).cores[c].pc == Boot
    ensures
      var s, s' := Exec(Init(n), schedule), Exec(Init(n), schedule + Alone(c, Go, 1));
      && s'.cores == s.cores && s'.sems == s.sems && s.nextTid !in s.tcbs
      && s'.ready == s.ready + [s.nextTid] && s'.tcbs == s.tcbs[s.nextTid := Saved(User)]
  {
    hide Inv; hide Init; hide Exec; hide Alone;
    var s := Exec(Init(n), schedule);
    var loc := Reachable(n, schedule);
    CoreAt(s, c, loc);
    FreshId(s, loc);
    var s0 := Step(s, c, Go);
    OnceMore(s0, c, 0);
    assert s.cores[c := s.cores[c]] == s.cores;
    var _ := AloneAfter(n, schedule, c, Go, 1);
  }

  lemma FreshId(s: State, loc: map<Tid, Place>)
    requires Inv(s, loc)
    ensures s.nextTid !in s.tcbs
  {
  }

  /** A new semaphore has the count it was made with, no waiters and a free lock. */
  lemma NewSemCall(n: nat, schedule: seq<Turn>, c: nat, t: Tid, count: nat)
    requires n <= MAX_CORES && InCode(Exec(Init(n), schedule), c, t)
    ensures
      var s, s' := Exec(Init(n), schedule), Exec(Init(n), schedule + Alone(c, NewSem(count), 0));
      && s'.cores == s.cores && |s'.sems| == |s.sems| + 1 && s'.sems[..|s.sems|] == s.sems
      && var x := s'.sems[|s.sems|];
      && x.counter == x.initial == count && x.queue == [] && x.lock.None? && x.holders == multiset{}
  {
    hide Inv; hide Init; hide Exec; hide Alone;
    var _ := AloneAfter(n, schedule, c, NewSem(count), 0);
  }

  // ---------------------------------------------------------------- the idle thread

  /** stop while booting: after five turns the core is in its idle loop, looking for a thread, with
      nothing freed or queued. */
  lemma BootStopCall(n: nat, schedule: seq<Turn>, c: nat)
    requires n <= MAX_CORES && c < |Exec(Init(n), schedule).cores| && Exec(Init(n), schedule).cores[c].pc == Boot
    ensures
      var s, s' := Exec(Init(n), schedule), Exec(Init(n), schedule + Alone(c, Stop, 4));
      && c < |s'.cores| && s'.cores[c].pc == IdleNext && s'.cores[c].stack == Some(c) && NoRequest(s'.cores[c])
      && s'.ready == s.ready && s'.sems == s.sems && s'.tcbs.Keys == s.tcbs.Keys
  {
    hide Inv; hide Init; hide Step; hide Again; hide Alone; hide Exec; hide SwitchTo;
    var s := Exec(Init(n), schedule);
    var s0 := Step(s, c, Stop);
    var loc := Reachable(n, schedule);
    CoreAt(s, c, loc);
    BootLeaves(s, c);
    var loc2 := AloneAfter(n, schedule, c, Stop, 2);
    SwitchOutIs(Again(s0, c, 2), c, loc2);
    BootSwitches(Again(s0, c, 2), c, loc2);
    AgainAgain(s0, c, 2, 2);
    LiveIdle(s, c, loc);
    var _ := AloneAfter(n, schedule, c, Stop, 4);
  }

  lemma BootLeaves(s: State, c: nat)
    requires c < |s.cores| && s.cores[c].pc == Boot && InBoot(s.cores[c]) && NoRequest(s.cores[c])
    ensures
      Again(Step(s, c, Stop), c, 2)
      == Put(s, c, s.cores[c].(prev := None, curr := Some(c), pc := SwitchOut(Unreachable)))
  {
    var k := s.cores[c];
    var s0 := Step(s, c, Stop);
    assert s0 == Goto(s, c, StopRequest);
    var s1 := Step(s0, c, Go);
    assert s1 == Goto(s, c, Leave(Unreachable));
    var s2 := Step(s1, c, Go);
    assert s2 == Put(s, c, k.(prev := None, curr := Some(c), pc := SwitchOut(Unreachable)));
    Two(s0, c, s1, s2);
  }

  lemma BootSwitches(s: State, c: nat, loc: map<Tid, Place>)
    requires Inv(s, loc) && c < |s.cores| && s.cores[c].pc == SwitchOut(Unreachable) && s.cores[c].stack.None?
    ensures
      Again(s, c, 2)
      == Put(s, c, s.cores[c].(curr := Some(c), pc := IdleNext, stack := Some(c))).(tcbs := s.tcbs[c := Stale])
  {
    hide Inv; hide SwitchTo;
    SwitchOutIs(s, c, loc);
    var s1 := Step(s, c, Go);
    assert s1 == SwitchTo(s, c, Unreachable);
    var s2 := Step(s1, c, Go);
    Two(s, c, s1, s2);
  }

  lemma LiveIdle(s: State, c: nat, loc: map<Tid, Place>)
    requires Inv(s, loc) && c < |s.cores|
    ensures c in s.tcbs
  {
  }

  /** An idle core takes the thread at the head of the ready queue: after three turns it executes it,
      in the thread's own code. */
  lemma IdleDispatches(n: nat, schedule: seq<Turn>, c: nat)
    requires n <= MAX_CORES && c < |Exec(Init(n), schedule).cores|
    requires Exec(Init(n), schedule).cores[c].pc == IdleNext && Exec(Init(n), schedule).ready != []
    ensures
      var s, s' := Exec(Init(n), schedule), Exec(Init(n), schedule + Alone(c, Go, 2));
      s'.ready == s.ready[1..] && InCode(s', c, s.ready[0])
  {
    hide Inv; hide Init; hide Step; hide Again; hide Alone; hide Exec;
    var s := Exec(Init(n), schedule);
    var t := s.ready[0];
    var loc := Reachable(n, schedule);
    CoreAt(s, c, loc);
    IdleTakes(s, c);
    var s0 := Step(s, c, Go);
    AgainNone(s0, c);
    OnceMore(s0, c, 0);
    IdleTurns(s0, c, t);
    var s1 := Again(s0, c, 1);
    OnceMore(s0, c, 1);
    var loc1 := AloneAfter(n, schedule, c, Go, 1);
    SwitchesIn(s1, c, t, loc1);
    var _ := AloneAfter(n, schedule, c, Go, 2);
  }

  lemma AgainNone(s: State, c: nat)
    ensures Again(s, c, 0) == s
  {
  }

  lemma IdleTakes(s: State, c: nat)
    requires c < |s.cores| && s.cores[c].pc == IdleNext && s.ready != []
    ensures
      Step(s, c, Go)
      == Goto(s, c, IdleTake(s.ready[0])).(ready := s.ready[1..], popped := s.popped + [s.ready[0]])
  {
  }

  lemma IdleTurns(s: State, c: nat, t: Tid)
    requires c < |s.cores| && s.cores[c].pc == IdleTake(t)
    ensures Step(s, c, Go) == Put(s, c, s.cores[c].(prev := s.cores[c].curr, curr := Some(t), pc := IdleSwitch))
  {
  }

  lemma SwitchesIn(s: State, c: nat, t: Tid, loc: map<Tid, Place>)
    requires Inv(s, loc) && c < |s.cores| && s.cores[c].pc == IdleSwitch && s.cores[c].curr == Some(t)
    ensures
      var s' := Step(s, c, Go);
      c < |s'.cores| && s'.ready == s.ready && s'.cores[c] == s.cores[c].(pc := User, stack := Some(t))
  {
    hide Inv; hide SwitchTo;
    DispatchAt(s, c, loc);
  }

  /** Having carried out a request the idle thread clears it and looks for a thread again. */
  lemma IdleComesBack(n: nat, schedule: seq<Turn>, c: nat)
    requires n <= MAX_CORES && c < |Exec(Init(n), schedule).cores|
    requires
      var pc := Exec(Init(n), schedule).cores[c].pc;
      pc == IdleDeleteClear || pc == IdleQueueClear || pc == IdleRescheduleClear
    ensures
      var s := Exec(Init(n), schedule);
      var pc := s.cores[c].pc;
      var s' := Exec(Init(n), schedule + Alone(c, Go, if pc == IdleDeleteClear then 2 else if pc == IdleQueueClear then 1 else 0));
      && c < |s'.cores| && s'.cores[c].pc == IdleNext && NoRequest(s'.cores[c])
      && s'.ready == s.ready && s'.tcbs == s.tcbs && s'.sems == s.sems
  {
    hide Inv; hide Init; hide Step; hide Again; hide Alone; hide Exec;
    var s := Exec(Init(n), schedule);
    var pc := s.cores[c].pc;
    var loc := Reachable(n, schedule);
    CoreAt(s, c, loc);
    IdleClears(s, c);
    var s0 := Step(s, c, Go);
    AgainNone(s0, c);
    if pc == IdleDeleteClear {
      OnceMore(s0, c, 0);
      IdlePasses(s0, c);
      OnceMore(s0, c, 1);
      IdleLooks(Again(s0, c, 1), c);
    } else if pc == IdleQueueClear {
      OnceMore(s0, c, 0);
      IdleLooks(s0, c);
    }
    var _ := AloneAfter(n, schedule, c, Go, if pc == IdleDeleteClear then 2 else if pc == IdleQueueClear then 1 else 0);
  }

  lemma IdleClears(s: State, c: nat)
    requires c < |s.cores|
    ensures
      var k := s.cores[c];
      && (k.pc == IdleDeleteClear ==> Step(s, c, Go) == Put(s, c, k.(toDelete := None, pc := IdleQueue)))
      && (k.pc == IdleQueueClear ==>
            Step(s, c, Go) == Put(s, c, k.(toQueue := None, toAddTo := None, toUnlock := None, pc := IdleReschedule)))
      && (k.pc == IdleRescheduleClear ==> Step(s, c, Go) == Put(s, c, k.(toReschedule := None, pc := IdleNext)))
  {
  }

  lemma IdleLooks(s: State, c: nat)
    requires c < |s.cores| && s.cores[c].pc == IdleReschedule && s.cores[c].toReschedule.None?
    ensures Step(s, c, Go) == Goto(s, c, IdleNext)
  {
  }

  // ---------------------------------------------------------------- with the other cores running

  /** The semaphores that thread t increments in a turn, and those it decrements. */
  function IncrementIn(s: State, turn: Turn, t: Tid): seq<SemId> {
    if turn.core < |s.cores| && s.cores[turn.core].curr == Some(t) && s.cores[turn.core].pc.UpInc?
    then [s.cores[turn.core].pc.sem] else []
  }

  function DecrementIn(s: State, turn: Turn, t: Tid): seq<SemId> {
    if turn.core < |s.cores| && s.cores[turn.core].curr == Some(t) && s.cores[turn.core].pc.DownDec?
    then [s.cores[turn.core].pc.sem] else []
  }

  /** In order, over a run that goes on from `before`. */
  function Increments(n: nat, before: seq<Turn>, after: seq<Turn>, t: Tid): seq<SemId> {
    if after == [] then []
    else
      var rest := after[..|after| - 1];
      Increments(n, before, rest, t) + IncrementIn(Exec(Init(n), before + rest), after[|after| - 1], t)
  }

  function Decrements(n: nat, before: seq<Turn>, after: seq<Turn>, t: Tid): seq<SemId> {
    if after == [] then []
    else
      var rest := after[..|after| - 1];
      Decrements(n, before, rest, t) + DecrementIn(Exec(Init(n), before + rest), after[|after| - 1], t)
  }

  /** Thread t is in its own code on some core. */
  ghost predicate Back(s: State, t: Tid) {
    exists d :: 0 <= d < |s.cores| && OnStack(s, d, t) && s.cores[d].pc == User
  }

  predicate OnStack(s: State, d: nat, t: Tid) { d < |s.cores| && s.cores[d].stack == Some(t) }

  /** After its call and before it is back. */
  ghost predicate NotBackYet(n: nat, before: seq<Turn>, after: seq<Turn>, t: Tid) {
    forall i :: 0 < i < |after| ==> !Back(Exec(Init(n), before + after[..i]), t)
  }

  /** How far thread t has come in its call of up(m): before or after the increment. */
  predicate InUpCall(s: State, c: nat, t: Tid, m: SemId, incs: seq<SemId>, decs: seq<SemId>) {
    && c < |s.cores| && s.cores[c].stack == Some(t) == s.cores[c].curr && decs == []
    && match s.cores[c].pc
       case UpLock(j) => j == m && incs == []
       case UpInc(j) => j == m && incs == []
       case UpPop(j) => j == m && incs == [m]
       case UpSchedule(j, _) => j == m && incs == [m]
       case UpUnlock(j) => j == m && incs == [m]
       case User => incs == [m]
       case _ => false
  }

  /** Where up(m) goes next. */
  predicate UpNext(pc: Pc, next: Pc, m: SemId) {
    match pc
    case UpLock(j) => j == m && (next == UpLock(m) || next == UpInc(m))
    case UpInc(j) => j == m && (next == UpPop(m) || next == UpUnlock(m))
    case UpPop(j) => j == m && next.UpSchedule? && next.sem == m
    case UpSchedule(j, _) => j == m && next == UpUnlock(m)
    case UpUnlock(j) => j == m && next == User
    case _ => false
  }

  lemma UpMoves(s: State, c: nat, m: SemId)
    requires c < |s.cores| && InUp(s.cores[c].pc, m) && m < |s.sems|
    requires s.cores[c].pc.UpPop? ==> s.sems[m].queue != []
    ensures
      var s' := UpStep(s, c, m);
      && c < |s'.cores| && s'.cores[c] == s.cores[c].(pc := s'.cores[c].pc)
      && UpNext(s.cores[c].pc, s'.cores[c].pc, m)
  {
    match s.cores[c].pc
    case UpLock(_) =>
    case UpInc(_) =>
    case UpPop(_) =>
    case UpSchedule(_, _) =>
    case UpUnlock(_) =>
  }

  lemma UpCallStep(s: State, c: nat, call: Call, t: Tid, m: SemId, incs: seq<SemId>, loc: map<Tid, Place>)
    requires Inv(s, loc) && InUpCall(s, c, t, m, incs, []) && s.cores[c].pc != User
    ensures
      InUpCall(Step(s, c, call), c, t, m, incs + IncrementIn(s, Turn(c, call), t),
               [] + DecrementIn(s, Turn(c, call), t))
  {
    hide Inv; hide UpStep; hide CallStep; hide ThreadStep; hide DownStep; hide DispatchStep; hide FinishStep;
    assert InUp(s.cores[c].pc, m);
    SemNamed(s, c, m, loc);
    if s.cores[c].pc.UpPop? { PopFinds(s, c, m, loc); }
    UpMoves(s, c, m);
    assert Step(s, c, call) == UpStep(s, c, m);
  }

  /** A turn of another core does not move the thread, and is none of its own. */
  lemma OthersTurn(s: State, turn: Turn, c: nat, t: Tid, loc: map<Tid, Place>)
    requires Inv(s, loc) && c < |s.cores| && s.cores[c].stack == Some(t) && turn.core < |s.cores| && turn.core != c
    ensures c < |Step(s, turn.core, turn.call).cores| && Step(s, turn.core, turn.call).cores[c] == s.cores[c]
    ensures IncrementIn(s, turn, t) == [] && DecrementIn(s, turn, t) == []
  {
    hide Inv; hide Step;
    var d := turn.core;
    StepCores(s, d, turn.call);
    CoreAt(s, d, loc);
    StackIs(s, c, t, loc);
    if s.cores[d].pc.UpInc? || s.cores[d].pc.DownDec? {
      StackIs(s, d, s.cores[d].stack.value, loc);
    }
  }

  lemma {:induction false} UpCallSoFar(n: nat, before: seq<Turn>, after: seq<Turn>, c: nat, t: Tid, m: SemId)
    requires n <= MAX_CORES && InCode(Exec(Init(n), before), c, t) && m < |Exec(Init(n), before).sems|
    requires after != [] && after[0] == Turn(c, Up(m)) && NotBackYet(n, before, after, t)
    ensures InUpCall(Exec(Init(n), before + after), c, t, m, Increments(n, before, after, t), Decrements(n, before, after, t))
    decreases |after|
  {
    hide Inv; hide Init; hide Step; hide IncrementIn; hide DecrementIn; hide InUpCall;
    var turn, rest := after[|after| - 1], after[..|after| - 1];
    var s := Exec(Init(n), before + rest);
    assert (before + after)[..|before + after| - 1] == before + rest;
    if rest == [] {
      assert before + rest == before;
      UpCallStarts(s, c, t, m);
    } else {
      BackLater(n, before, after, t);
      UpCallSoFar(n, before, rest, c, t, m);
      UpCallGoesOn(s, c, t, m, Increments(n, before, rest, t), Decrements(n, before, rest, t));
      assert rest == after[..|rest|];
      var loc := Reachable(n, before + rest);
      if turn.core == c {
        UpCallStep(s, c, turn.call, t, m, Increments(n, before, rest, t), loc);
      } else if turn.core < |s.cores| {
        OthersTurn(s, turn, c, t, loc);
        UpCallStays(s, Step(s, turn.core, turn.call), c, t, m, Increments(n, before, rest, t));
      } else {
        NoTurn(s, turn, t);
        UpCallStays(s, s, c, t, m, Increments(n, before, rest, t));
      }
    }
  }

  lemma UpCallStarts(s: State, c: nat, t: Tid, m: SemId)
    requires InCode(s, c, t) && m < |s.sems|
    ensures
      var turn := Turn(c, Up(m));
      InUpCall(Step(s, c, Up(m)), c, t, m, [] + IncrementIn(s, turn, t), [] + DecrementIn(s, turn, t))
  {
  }

  lemma UpCallGoesOn(s: State, c: nat, t: Tid, m: SemId, incs: seq<SemId>, decs: seq<SemId>)
    requires InUpCall(s, c, t, m, incs, decs) && !Back(s, t)
    ensures c < |s.cores| && s.cores[c].stack == Some(t) && s.cores[c].pc != User && decs == []
  {
    assert OnStack(s, c, t);
  }

  lemma UpCallStays(s: State, s': State, c: nat, t: Tid, m: SemId, incs: seq<SemId>)
    requires InUpCall(s, c, t, m, incs, []) && c < |s'.cores| && s'.cores[c] == s.cores[c]
    ensures InUpCall(s', c, t, m, incs + [], [] + [])
  {
    assert incs + [] == incs;
  }

  lemma NoTurn(s: State, turn: Turn, t: Tid)
    requires turn.core >= |s.cores|
    ensures IncrementIn(s, turn, t) == [] == DecrementIn(s, turn, t)
  {
  }

  lemma BackLater(n: nat, before: seq<Turn>, after: seq<Turn>, t: Tid)
    requires |after| > 1 && NotBackYet(n, before, after, t)
    ensures NotBackYet(n, before, after[..|after| - 1], t)
    ensures !Back(Exec(Init(n), before + after[..|after| - 1]), t)
  {
    hide Back; hide Exec; hide Init;
    var rest := after[..|after| - 1];
    forall i | 0 < i < |rest| ensures !Back(Exec(Init(n), before + rest[..i]), t) {
      assert rest[..i] == after[..i];
    }
  }

  /** From a thread's call of up(m) to the moment it is back in its code, whatever the other cores do:
      it has incremented m once, and nothing else, and decremented nothing. */
  lemma UpIncrementsOnce(n: nat, before: seq<Turn>, after: seq<Turn>, c: nat, t: Tid, m: SemId)
    requires n <= MAX_CORES && InCode(Exec(Init(n), before), c, t) && m < |Exec(Init(n), before).sems|
    requires after != [] && after[0] == Turn(c, Up(m)) && NotBackYet(n, before, after, t)
    requires Back(Exec(Init(n), before + after), t)
    ensures Increments(n, before, after, t) == [m] && Decrements(n, before, after, t) == []
  {
    hide Init; hide Exec; hide Increments; hide Decrements; hide NotBackYet;
    UpCallSoFar(n, before, after, c, t, m);
    var s := Exec(Init(n), before + after);
    var d :| 0 <= d < |s.cores| && OnStack(s, d, t) && s.cores[d].pc == User;
    OneCoreEach(n, before + after, c, d, t);
  }

  // ---------------------------------------------------------------- down with the other cores running

  /** Where a core's turn leaves its stack: where it was, with the idle thread, or with the thread it
      took, in that thread's code. */
  lemma StackMoves(s: State, d: nat, call: Call, loc: map<Tid, Place>)
    requires Inv(s, loc) && d < |s.cores|
    ensures
      var s' := Step(s, d, call);
      && d < |s'.cores|
      && (|| s'.cores[d].stack == s.cores[d].stack
          || (s.cores[d].pc.SwitchOut? && s'.cores[d].stack == Some(d))
          || (s.cores[d].pc == IdleSwitch && s'.cores[d].pc == User))
  {
    hide Inv; hide SwitchTo; hide UpStep; hide DownStep; hide FinishStep; hide CallStep;
    if s.cores[d].pc.SwitchOut? {
      SwitchOutIs(s, d, loc);
    } else if s.cores[d].pc == IdleSwitch {
      DispatchAt(s, d, loc);
    } else {
      StackStays(s, d, call);
    }
  }

  lemma SwitchOutIs(s: State, c: nat, loc: map<Tid, Place>)
    requires Inv(s, loc) && c < |s.cores| && s.cores[c].pc.SwitchOut?
    ensures
      var k := s.cores[c];
      SwitchTo(s, c, k.pc.resume) == SwitchedOut(s, c, if k.stack.None? then IdleEntry else IdleDelete, k.pc.resume)
  {
    SwitchOutShape(s, c, loc);
  }

  predicate SameStack(s: State, s': State, d: nat)
    requires d < |s.cores|
  {
    d < |s'.cores| && s'.cores[d].stack == s.cores[d].stack
  }

  lemma UpKeepsStack(s: State, d: nat, m: SemId)
    requires d < |s.cores| && m < |s.sems|
    ensures SameStack(s, UpStep(s, d, m), d) && SameStack(s, DownStep(s, d, m), d)
  {
  }

  lemma FinishKeepsStack(s: State, d: nat)
    requires d < |s.cores|
    ensures SameStack(s, FinishStep(s, d), d)
  {
  }

  lemma StackStays(s: State, d: nat, call: Call)
    requires d < |s.cores| && !s.cores[d].pc.SwitchOut? && s.cores[d].pc != IdleSwitch
    ensures SameStack(s, Step(s, d, call), d)
  {
    hide UpStep; hide DownStep; hide FinishStep; hide SwitchTo;
    FinishKeepsStack(s, d);
    var pc := s.cores[d].pc;
    if (pc.DownLock? || pc.DownDec? || pc.DownRequest? || pc.DownUnlock?) && pc.sem < |s.sems| {
      UpKeepsStack(s, d, pc.sem);
    }
    if (pc.UpLock? || pc.UpInc? || pc.UpPop? || pc.UpSchedule? || pc.UpUnlock?) && pc.sem < |s.sems| {
      UpKeepsStack(s, d, pc.sem);
    }
  }

  /** Thread t has not decremented yet, and is in down(m) on core c. */
  predicate BeforeDecrement(s: State, c: nat, t: Tid, m: SemId) {
    && c < |s.cores| && s.cores[c].stack == Some(t) == s.cores[c].curr
    && (s.cores[c].pc == DownLock(m) || s.cores[c].pc == DownDec(m))
  }

  /** A core that executes thread t has it at the end of down(m), on its way out, or back. */
  predicate AfterDecrement(k: Core, t: Tid, m: SemId) {
    k.stack == Some(t) ==>
      k.pc == DownUnlock(m) || k.pc == DownRequest(m) || k.pc == Leave(User) || k.pc == SwitchOut(User) || k.pc == User
  }

  /** How far thread t has come in its call of down(m). */
  ghost predicate InDownCall(s: State, t: Tid, m: SemId, incs: seq<SemId>, decs: seq<SemId>) {
    && incs == []
    && (|| (decs == [] && exists c :: BeforeDecrement(s, c, t, m))
        || (decs == [m] && forall c :: 0 <= c < |s.cores| ==> AfterDecrement(s.cores[c], t, m)))
  }

  lemma DownMoves(s: State, c: nat, m: SemId)
    requires c < |s.cores| && InDown(s.cores[c].pc, m) && m < |s.sems|
    ensures
      var s', pc := DownStep(s, c, m), s.cores[c].pc;
      && c < |s'.cores| && s'.cores[c].stack == s.cores[c].stack && s'.cores[c].curr == s.cores[c].curr
      && var next := s'.cores[c].pc;
      && (pc.DownLock? ==> next == DownLock(m) || next == DownDec(m))
      && (pc.DownDec? ==> next == DownUnlock(m) || next == DownRequest(m))
      && (pc.DownRequest? ==> next == Leave(User))
      && (pc.DownUnlock? ==> next == User)
  {
    match s.cores[c].pc
    case DownLock(_) =>
    case DownDec(_) =>
    case DownRequest(_) =>
    case DownUnlock(_) =>
  }

  /** The thread's own turn before its decrement. */
  lemma OwnTurnBefore(s: State, c: nat, call: Call, t: Tid, m: SemId, loc: map<Tid, Place>)
    requires Inv(s, loc) && BeforeDecrement(s, c, t, m)
    ensures
      var turn := Turn(c, call);
      InDownCall(Step(s, c, call), t, m, [] + IncrementIn(s, turn, t), [] + DecrementIn(s, turn, t))
  {
    hide Inv; hide UpStep; hide CallStep; hide ThreadStep; hide DownStep; hide DispatchStep; hide FinishStep;
    SemNamed(s, c, m, loc);
    DownMoves(s, c, m);
    var s' := Step(s, c, call);
    assert s' == DownStep(s, c, m);
    StepCores(s, c, call);
    StackIs(s, c, t, loc);
    if s.cores[c].pc.DownDec? {
      forall d | 0 <= d < |s'.cores| ensures AfterDecrement(s'.cores[d], t, m) {
        if d != c && s'.cores[d].stack == Some(t) { StackIs(s, d, t, loc); }
      }
    } else {
      assert BeforeDecrement(s', c, t, m);
    }
  }

  lemma OthersTurnBefore(s: State, turn: Turn, c: nat, t: Tid, m: SemId, loc: map<Tid, Place>)
    requires Inv(s, loc) && BeforeDecrement(s, c, t, m) && turn.core < |s.cores| && turn.core != c
    ensures
      InDownCall(Step(s, turn.core, turn.call), t, m, [] + IncrementIn(s, turn, t), [] + DecrementIn(s, turn, t))
  {
    hide Inv; hide Step; hide IncrementIn; hide DecrementIn;
    OthersTurn(s, turn, c, t, loc);
    assert BeforeDecrement(Step(s, turn.core, turn.call), c, t, m);
  }

  /** Any turn after the decrement, the thread not being back. */
  lemma TurnAfter(s: State, turn: Turn, t: Tid, m: SemId, loc: map<Tid, Place>)
    requires Inv(s, loc) && turn.core < |s.cores| && t >= MAX_CORES && !Back(s, t)
    requires forall c :: 0 <= c < |s.cores| ==> AfterDecrement(s.cores[c], t, m)
    ensures
      var s' := Step(s, turn.core, turn.call);
      && IncrementIn(s, turn, t) == [] && DecrementIn(s, turn, t) == []
      && forall c :: 0 <= c < |s'.cores| ==> AfterDecrement(s'.cores[c], t, m)
  {
    hide Inv; hide Step; hide SwitchTo; hide Back;
    var d := turn.core;
    CoreAt(s, d, loc);
    StepCores(s, d, turn.call);
    StackMoves(s, d, turn.call, loc);
    var s' := Step(s, d, turn.call);
    if s.cores[d].stack == Some(t) {
      NotBack(s, d, t);
      OwnTurnAfter(s, d, turn.call, t, m, loc);
    }
    forall c | 0 <= c < |s'.cores| ensures AfterDecrement(s'.cores[c], t, m) {
      if c != d { assert s'.cores[c] == s.cores[c]; }
    }
  }

  lemma NotBack(s: State, d: nat, t: Tid)
    requires !Back(s, t) && d < |s.cores| && s.cores[d].stack == Some(t)
    ensures s.cores[d].pc != User
  {
    assert OnStack(s, d, t);
  }

  lemma OwnTurnAfter(s: State, d: nat, call: Call, t: Tid, m: SemId, loc: map<Tid, Place>)
    requires Inv(s, loc) && d < |s.cores| && s.cores[d].stack == Some(t) && t >= MAX_CORES
    requires AfterDecrement(s.cores[d], t, m) && s.cores[d].pc != User
    ensures d < |Step(s, d, call).cores| && AfterDecrement(Step(s, d, call).cores[d], t, m)
  {
    hide Inv; hide SwitchTo; hide UpStep; hide CallStep; hide DownStep; hide DispatchStep; hide FinishStep;
    CoreAt(s, d, loc);
    if s.cores[d].pc.SwitchOut? {
      SwitchOutIs(s, d, loc);
    } else if !s.cores[d].pc.Leave? {
      SemNamed(s, d, m, loc);
      DownMoves(s, d, m);
    }
  }

  lemma {:induction false} DownCallSoFar(n: nat, before: seq<Turn>, after: seq<Turn>, c: nat, t: Tid, m: SemId)
    requires n <= MAX_CORES && InCode(Exec(Init(n), before), c, t) && m < |Exec(Init(n), before).sems|
    requires after != [] && after[0] == Turn(c, Down(m)) && NotBackYet(n, before, after, t)
    ensures InDownCall(Exec(Init(n), before + after), t, m, Increments(n, before, after, t), Decrements(n, before, after, t))
    decreases |after|
  {
    hide Inv; hide Init; hide Step; hide IncrementIn; hide DecrementIn; hide InDownCall; hide Back; hide InCode;
    var turn, rest := after[|after| - 1], after[..|after| - 1];
    var s := Exec(Init(n), before + rest);
    assert (before + after)[..|before + after| - 1] == before + rest;
    if rest == [] {
      assert before + rest == before;
      DownCallStarts(s, c, t, m);
    } else {
      BackLater(n, before, after, t);
      DownCallSoFar(n, before, rest, c, t, m);
      IdleIsNot(n, before, c, t);
      var loc := Reachable(n, before + rest);
      DownCallTurn(s, turn, t, m, Increments(n, before, rest, t), Decrements(n, before, rest, t), loc);
    }
  }

  lemma DownCallStarts(s: State, c: nat, t: Tid, m: SemId)
    requires InCode(s, c, t) && m < |s.sems|
    ensures
      var turn := Turn(c, Down(m));
      && c < |s.cores|
      && InDownCall(Step(s, c, Down(m)), t, m, [] + IncrementIn(s, turn, t), [] + DecrementIn(s, turn, t))
  {
    assert BeforeDecrement(Step(s, c, Down(m)), c, t, m);
  }

  lemma DownCallTurn(s: State, turn: Turn, t: Tid, m: SemId, incs: seq<SemId>, decs: seq<SemId>, loc: map<Tid, Place>)
    requires Inv(s, loc) && InDownCall(s, t, m, incs, decs) && !Back(s, t) && t >= MAX_CORES
    ensures
      var s' := if turn.core < |s.cores| then Step(s, turn.core, turn.call) else s;
      InDownCall(s', t, m, incs + IncrementIn(s, turn, t), decs + DecrementIn(s, turn, t))
  {
    hide Inv; hide Step; hide IncrementIn; hide DecrementIn; hide Back; hide AfterDecrement; hide BeforeDecrement;
    if turn.core >= |s.cores| {
      NoTurn(s, turn, t);
      assert decs + [] == decs;
    } else if decs == [] {
      var c :| BeforeDecrement(s, c, t, m);
      if turn.core == c {
        OwnTurnBefore(s, c, turn.call, t, m, loc);
      } else {
        CoreOfCall(s, c, t, m);
        OthersTurnBefore(s, turn, c, t, m, loc);
      }
    } else {
      TurnAfter(s, turn, t, m, loc);
      assert decs + [] == decs;
    }
  }

  lemma CoreOfCall(s: State, c: nat, t: Tid, m: SemId)
    requires BeforeDecrement(s, c, t, m)
    ensures c < |s.cores|
  {
  }

  /** From a thread's call of down(m) to the moment it is back in its code, on whatever core, after
      waiting or not and whatever the other cores do: it has decremented m once, and nothing else,
      and incremented nothing. */
  lemma DownDecrementsOnce(n: nat, before: seq<Turn>, after: seq<Turn>, c: nat, t: Tid, m: SemId)
    requires n <= MAX_CORES && InCode(Exec(Init(n), before), c, t) && m < |Exec(Init(n), before).sems|
    requires after != [] && after[0] == Turn(c, Down(m)) && NotBackYet(n, before, after, t)
    requires Back(Exec(Init(n), before + after), t)
    ensures Decrements(n, before, after, t) == [m] && Increments(n, before, after, t) == []
  {
    hide Init; hide Exec; hide Increments; hide Decrements; hide NotBackYet;
    DownCallSoFar(n, before, after, c, t, m);
    var s := Exec(Init(n), before + after);
    var d :| 0 <= d < |s.cores| && OnStack(s, d, t) && s.cores[d].pc == User;
    if e :| BeforeDecrement(s, e, t, m) {
      OneCoreEach(n, before + after, d, e, t);
    }
  }
}
