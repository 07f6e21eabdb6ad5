/**
 The invariant of the hand-off protocol, and that every step keeps it.

 `loc` is the witness of ownership: it gives every live thread the one place that owns it.
 It is not part of the state; each step of the proof says how it moves.
 */
module Handoff {
  import opened Options
  import opened Kernel

  /** Who is responsible for a thread's TCB. */
  datatype Place =
      // a core executes on its stack
    | OnCore(core: nat)
      // a core's idle thread still has to carry out the request that names it
    | Pending(core: nat)
      // a local variable holds it: new in go, woken in up, or taken from the ready queue
    | InHand(core: nat)
    | InReady
    | InSem(sem: SemId)

  /** The TCB a not yet completed request names. A slot keeps its value for a while after the
      request is completed, so this depends on the program counter. */
  function PendingOf(k: Core): Option<Tid> {
    match k.pc
    case IdleDelete =>
      if k.toDelete.Some? then k.toDelete else if k.toQueue.Some? then k.toQueue else k.toReschedule
    case IdleQueue => if k.toQueue.Some? then k.toQueue else k.toReschedule
    case IdlePush => k.toQueue
    case IdleReschedule => k.toReschedule
    case _ => None
  }

  function InHandOf(k: Core): Option<Tid> {
    match k.pc
    case GoPush(t) => Some(t)
    case UpSchedule(_, t) => Some(t)
    case IdleTake(t) => Some(t)
    case IdleSwitch => k.curr
    case _ => None
  }

  ghost predicate Owns(s: State, p: Place, t: Tid) {
    match p
    case OnCore(c) => c < |s.cores| && s.cores[c].stack == Some(t) && t >= MAX_CORES
    case Pending(c) => c < |s.cores| && PendingOf(s.cores[c]) == Some(t)
    case InHand(c) => c < |s.cores| && InHandOf(s.cores[c]) == Some(t)
    case InReady => t in s.ready
    case InSem(m) => m < |s.sems| && t in s.sems[m].queue
  }

  ghost predicate Distinct(q: seq<Tid>) {
    forall i, j :: 0 <= i < j < |q| ==> q[i] != q[j]
  }

  // ---------------------------------------------------------------- one core

  predicate InBoot(k: Core) { k.stack.None? && k.curr.None? }

  predicate InThread(k: Core) {
    k.stack.Some? && k.stack.value >= MAX_CORES && k.curr == k.stack
  }

  predicate InIdle(k: Core, c: nat) { k.stack == Some(c) && k.curr == Some(c) }

  predicate NoRequest(k: Core) {
    k.toDelete.None? && k.toReschedule.None? && k.toQueue.None? && k.toAddTo.None? && k.toUnlock.None?
  }

  predicate DeleteRequest(k: Core) {
    k.toDelete.Some? && k.toReschedule.None? && k.toQueue.None? && k.toAddTo.None? && k.toUnlock.None?
  }

  predicate RescheduleRequest(k: Core) {
    k.toDelete.None? && k.toReschedule.Some? && k.toQueue.None? && k.toAddTo.None? && k.toUnlock.None?
  }

  predicate QueueRequest(k: Core) {
    k.toDelete.None? && k.toReschedule.None? && k.toQueue.Some? && k.toAddTo.Some? && k.toUnlock == k.toAddTo
  }

  /** The running thread `t` has written one request for itself and will resume at `r`. */
  predicate Asks(k: Core, r: Pc) {
    || (r == Unreachable && DeleteRequest(k) && k.toDelete == k.stack)
    || (r == User && RescheduleRequest(k) && k.toReschedule == k.stack)
    || (r == User && QueueRequest(k) && k.toQueue == k.stack)
  }

  predicate CoreOk(k: Core, c: nat) {
    match k.pc
    case Boot => InBoot(k) && NoRequest(k)
    case User | YieldRequest | DownLock(_) | DownDec(_) | DownRequest(_) | DownUnlock(_)
      | UpLock(_) | UpInc(_) | UpPop(_) | UpSchedule(_, _) | UpUnlock(_) => InThread(k) && NoRequest(k)
    case GoPush(_) | StopRequest => (InBoot(k) || InThread(k)) && NoRequest(k)
    case Leave(r) =>
      || (InBoot(k) && NoRequest(k) && r == Unreachable)
      || (InThread(k) && Asks(k, r))
    case SwitchOut(r) =>
      && k.curr == Some(c)
      && k.prev == k.stack
      && (if k.stack.None? then NoRequest(k) && r == Unreachable
          else k.stack.value >= MAX_CORES && Asks(k, r))
    case IdleEntry | IdleNext | IdleTake(_) => InIdle(k, c) && NoRequest(k)
    case IdleSwitch =>
      && k.stack == Some(c) == k.prev
      && k.curr.Some? && k.curr.value >= MAX_CORES
      && NoRequest(k)
    case IdleDelete =>
      InIdle(k, c) && (DeleteRequest(k) || RescheduleRequest(k) || QueueRequest(k))
    case IdleDeleteClear => InIdle(k, c) && DeleteRequest(k)
    case IdleQueue => InIdle(k, c) && (NoRequest(k) || RescheduleRequest(k) || QueueRequest(k))
    case IdlePush | IdleUnlock | IdleQueueClear => InIdle(k, c) && QueueRequest(k)
    case IdleReschedule => InIdle(k, c) && (NoRequest(k) || RescheduleRequest(k))
    case IdleRescheduleClear => InIdle(k, c) && RescheduleRequest(k)
    case Panic | Crash | Unreachable => false
  }

  // ---------------------------------------------------------------- saved contexts

  /** What an idle TCB's context must be, given its core. */
  function IdleContext(k: Core, c: nat): Context {
    if k.stack == Some(c) then Stale
    else if k.stack.None? then Saved(IdleEntry)
    else Saved(IdleDelete)
  }

  /** What a thread's context must be, given the place that owns it. */
  function ThreadContext(s: State, p: Place): Context {
    match p
    case OnCore(_) => Stale
    case Pending(c) =>
      if c < |s.cores| && s.cores[c].toDelete.Some? then Saved(Unreachable) else Saved(User)
    case _ => Saved(User)
  }

  // ---------------------------------------------------------------- locks and semaphores

  /** The semaphore whose spinlock the core holds: inside up or down, or on behalf of the
      thread that blocked, until idle_loop releases it. */
  function Held(k: Core): Option<SemId> {
    match k.pc
    case DownDec(m) => Some(m)
    case DownRequest(m) => Some(m)
    case DownUnlock(m) => Some(m)
    case UpInc(m) => Some(m)
    case UpPop(m) => Some(m)
    case UpSchedule(m, _) => Some(m)
    case UpUnlock(m) => Some(m)
    case Leave(_) | SwitchOut(_) | IdleDelete | IdleQueue | IdlePush | IdleUnlock => k.toUnlock
    case _ => None
  }

  /** The thread that has decremented below zero and is not in the queue yet. */
  function Blocking(k: Core): Option<Tid> {
    match k.pc
    case DownRequest(_) => k.curr
    case Leave(_) | SwitchOut(_) | IdleDelete | IdleQueue | IdlePush => k.toQueue
    case _ => None
  }

  function BlockingOn(s: State, m: SemId): Option<Tid>
    requires m < |s.sems|
  {
    var l := s.sems[m].lock;
    if l.Some? && l.value < |s.cores| then Blocking(s.cores[l.value]) else None
  }

  /** An up has incremented a negative counter and has not popped yet. */
  predicate Waking(s: State, m: SemId)
    requires m < |s.sems|
  {
    var l := s.sems[m].lock;
    l.Some? && l.value < |s.cores| && s.cores[l.value].pc.UpPop?
  }

  function Max(a: int, b: int): int { if a < b then b else a }

  predicate SemOk(x: Sem, blocking: Option<Tid>, waking: bool) {
    && x.waits == x.wakes + x.queue + Named(blocking)
    && |x.queue| + |Named(blocking)| == Max(0, -x.counter) + (if waking then 1 else 0)
    && x.counter == x.initial + x.ups - x.immediate - |x.waits|
  }

  // ---------------------------------------------------------------- the invariant

  ghost predicate CoresOk(s: State) {
    && |s.cores| <= MAX_CORES
    && forall c :: 0 <= c < |s.cores| ==> CoreOk(s.cores[c], c)
  }

  ghost predicate Owned(s: State, loc: map<Tid, Place>) {
    forall p, t :: Owns(s, p, t) <==> t in loc && loc[t] == p
  }

  ghost predicate LiveOk(s: State, loc: map<Tid, Place>) {
    && s.nextTid >= MAX_CORES
    && (forall t :: t in s.tcbs ==> t < s.nextTid)
    && (forall t :: 0 <= t < MAX_CORES ==> t in s.tcbs)
    && (forall t :: t in loc <==> t in s.tcbs && t >= MAX_CORES)
  }

  ghost predicate ContextsOk(s: State, loc: map<Tid, Place>) {
    && (forall c :: 0 <= c < |s.cores| && c in s.tcbs ==> s.tcbs[c] == IdleContext(s.cores[c], c))
    && (forall t :: t in loc && t in s.tcbs ==> s.tcbs[t] == ThreadContext(s, loc[t]))
  }

  ghost predicate QueuesOk(s: State) {
    && Distinct(s.ready)
    && (forall m :: 0 <= m < |s.sems| ==> Distinct(s.sems[m].queue))
    && s.pushed == s.popped + s.ready
  }

  ghost predicate LocksOk(s: State) {
    && (forall c :: 0 <= c < |s.cores| && Held(s.cores[c]).Some? ==>
          && Held(s.cores[c]).value < |s.sems|
          && s.sems[Held(s.cores[c]).value].lock == Some(c))
    && (forall m :: 0 <= m < |s.sems| && s.sems[m].lock.Some? ==>
          s.sems[m].lock.value < |s.cores| && Held(s.cores[s.sems[m].lock.value]) == Some(m))
    && (forall c :: 0 <= c < |s.cores| && s.cores[c].pc.DownLock? ==> s.cores[c].pc.sem < |s.sems|)
    && (forall c :: 0 <= c < |s.cores| && s.cores[c].pc.UpLock? ==> s.cores[c].pc.sem < |s.sems|)
  }

  ghost predicate SemsOk(s: State) {
    forall m :: 0 <= m < |s.sems| ==> SemOk(s.sems[m], BlockingOn(s, m), Waking(s, m))
  }

  ghost predicate Inv(s: State, loc: map<Tid, Place>) {
    && CoresOk(s)
    && LiveOk(s, loc)
    && Owned(s, loc)
    && ContextsOk(s, loc)
    && QueuesOk(s)
    && LocksOk(s)
    && SemsOk(s)
  }

  lemma InitInv(n: nat)
    requires n <= MAX_CORES
    ensures Inv(Init(n), map[])
  {
    var s := Init(n);
    forall p, t ensures !Owns(s, p, t) {
      match p
      case OnCore(_) =>
      case Pending(_) =>
      case InHand(_) =>
      case InReady =>
      case InSem(_) =>
    }
    assert CoresOk(s) && ContextsOk(s, map[]);
  }

  // ---------------------------------------------------------------- framing

  /** Only core `c` changes. */
  ghost predicate OnlyCore(s: State, s': State, c: nat) {
    && c < |s.cores| == |s'.cores|
    && forall d :: 0 <= d < |s.cores| && d != c ==> s'.cores[d] == s.cores[d]
  }

  /** The core's record keeps owning the same threads. */
  predicate SameClaims(k: Core, k': Core) {
    && k'.stack == k.stack
    && PendingOf(k') == PendingOf(k)
    && InHandOf(k') == InHandOf(k)
  }

  /** The core's record stands in the same relation to the semaphore it holds. */
  predicate SameHold(k: Core, k': Core) {
    && Held(k') == Held(k)
    && Blocking(k') == Blocking(k)
    && k'.pc.UpPop? == k.pc.UpPop?
  }

  lemma CoresKept(s: State, s': State, c: nat)
    requires CoresOk(s) && OnlyCore(s, s', c) && CoreOk(s'.cores[c], c)
    ensures CoresOk(s')
  {
    forall d | 0 <= d < |s'.cores| ensures CoreOk(s'.cores[d], d) {
      if d != c { assert CoreOk(s.cores[d], d); }
    }
  }

  /** A thread stays live, or a new one is. */
  lemma LiveKept(s: State, s': State, t: Tid, p: Place, loc: map<Tid, Place>)
    requires LiveOk(s, loc) && s'.tcbs.Keys == s.tcbs.Keys + {t} && t >= MAX_CORES
    requires t < s'.nextTid && s.nextTid <= s'.nextTid
    ensures LiveOk(s', loc[t := p])
  {
    assert forall u :: u in s'.tcbs <==> u in s.tcbs || u == t;
  }

  lemma ThreadIs(s: State, t: Tid, loc: map<Tid, Place>)
    requires LiveOk(s, loc) && t in loc
    ensures t in s.tcbs && MAX_CORES <= t < s.nextTid
  {
  }

  lemma QueuesKept(s: State, s': State)
    requires QueuesOk(s)
    requires s'.ready == s.ready && s'.pushed == s.pushed && s'.popped == s.popped && s'.sems == s.sems
    ensures QueuesOk(s')
  {
  }

  /** Nobody's thread moves. */
  lemma OwnedKept(s: State, s': State, c: nat, loc: map<Tid, Place>)
    requires Owned(s, loc) && OnlyCore(s, s', c) && SameClaims(s.cores[c], s'.cores[c])
    requires s'.ready == s.ready
    requires |s.sems| <= |s'.sems|
    requires forall m :: 0 <= m < |s.sems| ==> s'.sems[m].queue == s.sems[m].queue
    requires forall m :: |s.sems| <= m < |s'.sems| ==> s'.sems[m].queue == []
    ensures Owned(s', loc)
  {
    forall p, t ensures Owns(s', p, t) <==> t in loc && loc[t] == p {
      assert Owns(s, p, t) <==> t in loc && loc[t] == p;
      assert Owns(s', p, t) == Owns(s, p, t);
    }
  }

  lemma ContextsKept(s: State, s': State, c: nat, loc: map<Tid, Place>)
    requires ContextsOk(s, loc) && OnlyCore(s, s', c)
    requires s'.tcbs == s.tcbs
    requires s'.cores[c].stack == s.cores[c].stack
    requires (forall t :: t in loc ==> loc[t] != Pending(c)) || s'.cores[c].toDelete == s.cores[c].toDelete
    ensures ContextsOk(s', loc)
  {
    forall d | 0 <= d < |s'.cores| && d in s'.tcbs ensures s'.tcbs[d] == IdleContext(s'.cores[d], d) {
      assert s.tcbs[d] == IdleContext(s.cores[d], d);
    }
    forall t | t in loc && t in s'.tcbs ensures s'.tcbs[t] == ThreadContext(s', loc[t]) {
      assert s.tcbs[t] == ThreadContext(s, loc[t]);
    }
  }

  lemma LocksKept(s: State, s': State, c: nat)
    requires LocksOk(s) && OnlyCore(s, s', c)
    requires Held(s'.cores[c]) == Held(s.cores[c])
    requires s'.cores[c].pc.DownLock? || s'.cores[c].pc.UpLock? ==> s'.cores[c].pc.sem < |s'.sems|
    requires |s.sems| <= |s'.sems|
    requires forall m :: 0 <= m < |s.sems| ==> s'.sems[m].lock == s.sems[m].lock
    requires forall m :: |s.sems| <= m < |s'.sems| ==> s'.sems[m].lock.None?
    ensures LocksOk(s')
  {
  }

  /** No semaphore changes, and the core's part in the one it holds stays the same. */
  lemma SemsKept(s: State, s': State, c: nat)
    requires SemsOk(s) && OnlyCore(s, s', c) && SameHold(s.cores[c], s'.cores[c])
    requires s'.sems == s.sems
    ensures SemsOk(s')
  {
    forall m | 0 <= m < |s'.sems| ensures SemOk(s'.sems[m], BlockingOn(s', m), Waking(s', m)) {
      assert SemOk(s.sems[m], BlockingOn(s, m), Waking(s, m));
    }
  }

  /** The semaphores and the core's part in them stay as they are. */
  lemma HoldKept(s: State, s': State, c: nat)
    requires LocksOk(s) && SemsOk(s) && OnlyCore(s, s', c) && SameHold(s.cores[c], s'.cores[c])
    requires s'.sems == s.sems
    requires s'.cores[c].pc.DownLock? || s'.cores[c].pc.UpLock? ==> s'.cores[c].pc.sem < |s.sems|
    ensures LocksOk(s') && SemsOk(s')
  {
    LocksKept(s, s', c);
    SemsKept(s, s', c);
  }

  lemma CoreAt(s: State, c: nat, loc: map<Tid, Place>)
    requires Inv(s, loc) && c < |s.cores|
    ensures CoreOk(s.cores[c], c) && |s.cores| <= MAX_CORES
  {
  }

  // ---------------------------------------------------------------- preservation, step by step

  /** A step that changes nothing but the core's own record, and no claim or hold in it. */
  lemma QuietKeeps(s: State, c: nat, k': Core, loc: map<Tid, Place>)
    requires Inv(s, loc) && c < |s.cores|
    requires CoreOk(k', c) && SameClaims(s.cores[c], k') && SameHold(s.cores[c], k')
    requires PendingOf(k').None? || k'.toDelete == s.cores[c].toDelete
    requires k'.pc.DownLock? || k'.pc.UpLock? ==> k'.pc.sem < |s.sems|
    ensures Inv(Put(s, c, k'), loc)
  {
    var s' := Put(s, c, k');
    forall t | t in loc && PendingOf(k').None? ensures loc[t] != Pending(c) {
      assert Owns(s, loc[t], t);
    }
    assert LiveOk(s', loc);
    hide CoresOk; hide LiveOk; hide Owned; hide ContextsOk; hide QueuesOk; hide LocksOk; hide SemsOk;
    CoresKept(s, s', c);
    OwnedKept(s, s', c, loc);
    ContextsKept(s, s', c, loc);
    QueuesKept(s, s');
    HoldKept(s, s', c);
  }

  // ---------------------------------------------------------------- moving one thread

  /** Thread `t`, and no other, changes owner. */
  ghost predicate Moves(s: State, s': State, t: Tid, to: Place) {
    && (forall p, u :: u != t ==> (Owns(s', p, u) <==> Owns(s, p, u)))
    && (forall p :: Owns(s', p, t) <==> p == to)
  }

  lemma OwnedMoved(s: State, s': State, loc: map<Tid, Place>, t: Tid, to: Place)
    requires Owned(s, loc) && Moves(s, s', t, to)
    ensures Owned(s', loc[t := to])
  {
    forall p, u ensures Owns(s', p, u) <==> u in loc[t := to] && loc[t := to][u] == p {
      if u != t { assert Owns(s, p, u) <==> u in loc && loc[u] == p; }
    }
  }

  /** The contexts stay right when `t` moves between places where a context is saved. */
  lemma ContextsMoved(s: State, s': State, c: nat, t: Tid, to: Place, loc: map<Tid, Place>)
    requires ContextsOk(s, loc) && OnlyCore(s, s', c) && s'.tcbs == s.tcbs
    requires s'.cores[c].stack == s.cores[c].stack
    requires t in s.tcbs ==> s.tcbs[t] == ThreadContext(s', to)
    requires forall u :: u in loc && u != t ==> loc[u] != Pending(c)
    ensures ContextsOk(s', loc[t := to])
  {
    forall d | 0 <= d < |s'.cores| && d in s'.tcbs ensures s'.tcbs[d] == IdleContext(s'.cores[d], d) {
      assert s.tcbs[d] == IdleContext(s.cores[d], d);
    }
    forall u | u in loc[t := to] && u in s'.tcbs ensures s'.tcbs[u] == ThreadContext(s', loc[t := to][u]) {
      if u != t { assert s.tcbs[u] == ThreadContext(s, loc[u]); }
    }
  }

  /** A core that owns `t` in hand or as a pending request owns nothing else that way. */
  lemma PendingIs(s: State, c: nat, loc: map<Tid, Place>, t: Tid)
    requires Owned(s, loc) && c < |s.cores|
    requires PendingOf(s.cores[c]).None? || PendingOf(s.cores[c]) == Some(t)
    ensures forall u :: u in loc && u != t ==> loc[u] != Pending(c)
  {
    forall u | u in loc && u != t ensures loc[u] != Pending(c) {
      assert Owns(s, loc[u], u);
    }
  }

  // ---------------------------------------------------------------- go and new semaphores

  lemma GoOwned(s: State, c: nat, loc: map<Tid, Place>)
    requires LiveOk(s, loc) && Owned(s, loc) && c < |s.cores|
    requires s.cores[c].pc.Boot? || s.cores[c].pc.User?
    ensures Owned(CallStep(s, c, Go), loc[s.nextTid := InHand(c)])
    ensures s.nextTid >= MAX_CORES
  {
    var s' := CallStep(s, c, Go);
    forall p, u ensures Owns(s', p, u) <==> (if u == s.nextTid then p == InHand(c) else Owns(s, p, u)) {
      assert Owns(s, p, u) <==> u in loc && loc[u] == p;
    }
    OwnedMoved(s, s', loc, s.nextTid, InHand(c));
  }

  lemma GoContexts(s: State, c: nat, loc: map<Tid, Place>)
    requires ContextsOk(s, loc) && Owned(s, loc) && LiveOk(s, loc) && |s.cores| <= MAX_CORES && c < |s.cores|
    requires s.cores[c].pc.Boot? || s.cores[c].pc.User?
    ensures ContextsOk(CallStep(s, c, Go), loc[s.nextTid := InHand(c)])
  {
    var s', loc' := CallStep(s, c, Go), loc[s.nextTid := InHand(c)];
    forall d | 0 <= d < |s'.cores| && d in s'.tcbs ensures s'.tcbs[d] == IdleContext(s'.cores[d], d) {
      assert s.tcbs[d] == IdleContext(s.cores[d], d);
    }
    forall u | u in loc' && u in s'.tcbs ensures s'.tcbs[u] == ThreadContext(s', loc'[u]) {
      if u != s.nextTid { assert s.tcbs[u] == ThreadContext(s, loc[u]); }
    }
  }

  /** make_thread_tcb in go: a new TCB, with a context that enters the thread's function. */
  lemma GoKeeps(s: State, c: nat, loc: map<Tid, Place>)
    requires Inv(s, loc) && c < |s.cores|
    requires s.cores[c].pc.Boot? || s.cores[c].pc.User?
    ensures Inv(CallStep(s, c, Go), loc[s.nextTid := InHand(c)])
  {
    hide CoresOk; hide LiveOk; hide Owned; hide ContextsOk; hide QueuesOk; hide LocksOk; hide SemsOk;
    var s' := CallStep(s, c, Go);
    CoreAt(s, c, loc);
    CoresKept(s, s', c);
    GoOwned(s, c, loc);
    LiveKept(s, s', s.nextTid, InHand(c), loc);
    GoContexts(s, c, loc);
    QueuesKept(s, s');
    HoldKept(s, s', c);
  }

  lemma NewSemSems(s: State, c: nat, n: nat)
    requires SemsOk(s) && c < |s.cores| && s.cores[c].pc.User?
    ensures SemsOk(CallStep(s, c, NewSem(n)))
  {
    var s' := CallStep(s, c, NewSem(n));
    forall m | 0 <= m < |s'.sems| ensures SemOk(s'.sems[m], BlockingOn(s', m), Waking(s', m)) {
      if m < |s.sems| { assert SemOk(s.sems[m], BlockingOn(s, m), Waking(s, m)); }
    }
  }

  lemma NewSemKeeps(s: State, c: nat, n: nat, loc: map<Tid, Place>)
    requires Inv(s, loc) && c < |s.cores| && s.cores[c].pc.User?
    ensures Inv(CallStep(s, c, NewSem(n)), loc)
  {
    hide CoresOk; hide Owned; hide ContextsOk; hide LocksOk; hide SemsOk;
    var s' := CallStep(s, c, NewSem(n));
    CoreAt(s, c, loc);
    CoresKept(s, s', c);
    OwnedKept(s, s', c, loc);
    ContextsKept(s, s', c, loc);
    LocksKept(s, s', c);
    NewSemSems(s, c, n);
  }

  // ---------------------------------------------------------------- the ready queue

  predicate HandsOver(k: Core, k': Core, t: Tid) {
    && k'.stack == k.stack
    && (|| (InHandOf(k) == Some(t) && PendingOf(k).None?)
        || (PendingOf(k) == Some(t) && InHandOf(k).None? && k.toDelete.None?))
    && InHandOf(k').None? && PendingOf(k').None?
  }

  lemma ScheduleOwned(s: State, c: nat, k': Core, t: Tid, loc: map<Tid, Place>)
    requires Owned(s, loc) && c < |s.cores| && HandsOver(s.cores[c], k', t)
    ensures Owned(Put(Schedule(s, t), c, k'), loc[t := InReady]) && t !in s.ready && t in loc
  {
    var s' := Put(Schedule(s, t), c, k');
    var from := if InHandOf(s.cores[c]) == Some(t) then InHand(c) else Pending(c);
    assert Owns(s, from, t);
    assert !Owns(s, InReady, t);
    forall p, u ensures Owns(s', p, u) <==> (if u == t then p == InReady else Owns(s, p, u)) {
      assert Owns(s, p, u) <==> u in loc && loc[u] == p;
    }
    OwnedMoved(s, s', loc, t, InReady);
  }

  lemma ScheduleContexts(s: State, c: nat, k': Core, t: Tid, loc: map<Tid, Place>)
    requires Owned(s, loc) && ContextsOk(s, loc) && c < |s.cores| && HandsOver(s.cores[c], k', t)
    ensures ContextsOk(Put(Schedule(s, t), c, k'), loc[t := InReady])
  {
    assert Owns(s, InHand(c), t) || Owns(s, Pending(c), t);
    PendingIs(s, c, loc, t);
    ContextsMoved(s, Put(Schedule(s, t), c, k'), c, t, InReady, loc);
  }

  lemma ScheduleQueues(s: State, c: nat, k': Core, t: Tid)
    requires QueuesOk(s) && c < |s.cores| && t !in s.ready
    ensures QueuesOk(Put(Schedule(s, t), c, k'))
  {
  }

  /** scheduler::schedule(t), by go, by up, or by idle_loop for a thread that yielded. */
  lemma ScheduleKeeps(s: State, c: nat, k': Core, t: Tid, loc: map<Tid, Place>)
    requires Inv(s, loc) && c < |s.cores| && HandsOver(s.cores[c], k', t)
    requires CoreOk(k', c) && SameHold(s.cores[c], k') && !k'.pc.DownLock? && !k'.pc.UpLock?
    ensures Inv(Put(Schedule(s, t), c, k'), loc[t := InReady])
  {
    hide CoresOk; hide LiveOk; hide Owned; hide ContextsOk; hide QueuesOk; hide LocksOk; hide SemsOk;
    var s' := Put(Schedule(s, t), c, k');
    CoresKept(s, s', c);
    ScheduleOwned(s, c, k', t, loc);
    ThreadIs(s, t, loc);
    LiveKept(s, s', t, InReady, loc);
    ScheduleContexts(s, c, k', t, loc);
    ScheduleQueues(s, c, k', t);
    HoldKept(s, s', c);
  }

  function Taken(s: State, c: nat, k': Core): State
    requires c < |s.cores| && s.ready != []
  {
    Put(s, c, k').(ready := s.ready[1..], popped := s.popped + [s.ready[0]])
  }

  predicate TakesUp(k: Core, k': Core, t: Tid) {
    && k'.stack == k.stack
    && PendingOf(k').None? && PendingOf(k).None?
    && InHandOf(k).None? && InHandOf(k') == Some(t)
  }

  lemma TakeOwned(s: State, c: nat, k': Core, loc: map<Tid, Place>)
    requires Owned(s, loc) && QueuesOk(s) && c < |s.cores| && s.ready != []
    requires TakesUp(s.cores[c], k', s.ready[0])
    ensures Owned(Taken(s, c, k'), loc[s.ready[0] := InHand(c)]) && s.ready[0] in loc
  {
    var s', t := Taken(s, c, k'), s.ready[0];
    assert Owns(s, InReady, t);
    assert s.ready == [t] + s'.ready;
    forall p, u ensures Owns(s', p, u) <==> (if u == t then p == InHand(c) else Owns(s, p, u)) {
      assert Owns(s, p, u) <==> u in loc && loc[u] == p;
    }
    OwnedMoved(s, s', loc, t, InHand(c));
  }

  lemma TakeContexts(s: State, c: nat, k': Core, loc: map<Tid, Place>)
    requires Owned(s, loc) && ContextsOk(s, loc) && c < |s.cores| && s.ready != []
    requires TakesUp(s.cores[c], k', s.ready[0])
    ensures ContextsOk(Taken(s, c, k'), loc[s.ready[0] := InHand(c)])
  {
    assert Owns(s, InReady, s.ready[0]);
    PendingIs(s, c, loc, s.ready[0]);
    ContextsMoved(s, Taken(s, c, k'), c, s.ready[0], InHand(c), loc);
  }

  lemma TakeQueues(s: State, c: nat, k': Core)
    requires QueuesOk(s) && c < |s.cores| && s.ready != []
    ensures QueuesOk(Taken(s, c, k'))
  {
    assert [s.ready[0]] + s.ready[1..] == s.ready;
  }

  /** scheduler::next() with a thread waiting. */
  lemma TakeKeeps(s: State, c: nat, k': Core, loc: map<Tid, Place>)
    requires Inv(s, loc) && c < |s.cores| && s.ready != [] && TakesUp(s.cores[c], k', s.ready[0])
    requires CoreOk(k', c) && SameHold(s.cores[c], k') && !k'.pc.DownLock? && !k'.pc.UpLock?
    ensures Inv(Taken(s, c, k'), loc[s.ready[0] := InHand(c)])
  {
    TakeQueues(s, c, k');
    hide CoresOk; hide LiveOk; hide Owned; hide ContextsOk; hide QueuesOk; hide LocksOk; hide SemsOk;
    var s' := Taken(s, c, k');
    CoresKept(s, s', c);
    TakeOwned(s, c, k', loc);
    ThreadIs(s, s.ready[0], loc);
    LiveKept(s, s', s.ready[0], InHand(c), loc);
    TakeContexts(s, c, k', loc);
    HoldKept(s, s', c);
  }

  // ---------------------------------------------------------------- context switches

  /** switch_to by a leaving thread, or by a boot context, finds the idle thread's context. */
  function SwitchedOut(s: State, c: nat, at: Pc, resume: Pc): State
    requires c < |s.cores|
  {
    var k := s.cores[c];
    var saved := if k.stack.None? then s.tcbs else s.tcbs[k.stack.value := Saved(resume)];
    Put(s, c, k.(pc := at, stack := Some(c))).(tcbs := saved[c := Stale])
  }

  lemma SwitchOutShape(s: State, c: nat, loc: map<Tid, Place>)
    requires CoresOk(s) && LiveOk(s, loc) && Owned(s, loc) && ContextsOk(s, loc)
    requires c < |s.cores| && s.cores[c].pc.SwitchOut?
    ensures
      var k := s.cores[c];
      var at := if k.stack.None? then IdleEntry else IdleDelete;
      && SwitchTo(s, c, k.pc.resume) == SwitchedOut(s, c, at, k.pc.resume)
      && c in s.tcbs
      && (k.stack.Some? ==> k.stack.value in loc && loc[k.stack.value] == OnCore(c))
  {
    var k := s.cores[c];
    assert CoreOk(k, c);
    assert s.tcbs[c] == IdleContext(k, c);
    if k.stack.Some? { assert Owns(s, OnCore(c), k.stack.value); }
  }

  /** A boot context that stops has no TCB; the idle thread starts. */
  lemma FirstSwitchKeeps(s: State, c: nat, loc: map<Tid, Place>)
    requires Inv(s, loc) && c < |s.cores| && s.cores[c].pc.SwitchOut? && s.cores[c].stack.None?
    ensures Inv(ThreadStep(s, c), loc)
  {
    hide CoresOk; hide Owned; hide ContextsOk; hide QueuesOk; hide LocksOk; hide SemsOk;
    CoreAt(s, c, loc);
    SwitchOutShape(s, c, loc);
    var r := s.cores[c].pc.resume;
    var s' := SwitchedOut(s, c, IdleEntry, r);
    CoresKept(s, s', c);
    FirstSwitchOwned(s, c, r, loc);
    FirstSwitchContexts(s, c, r, loc);
    QueuesKept(s, s');
    HoldKept(s, s', c);
  }

  lemma FirstSwitchOwned(s: State, c: nat, r: Pc, loc: map<Tid, Place>)
    requires Owned(s, loc) && c < |s.cores| <= MAX_CORES && s.cores[c].pc.SwitchOut? && s.cores[c].stack.None?
    ensures Owned(SwitchedOut(s, c, IdleEntry, r), loc)
  {
    var s' := SwitchedOut(s, c, IdleEntry, r);
    forall p, t ensures Owns(s', p, t) <==> t in loc && loc[t] == p {
      assert Owns(s, p, t) <==> t in loc && loc[t] == p;
    }
  }

  lemma FirstSwitchContexts(s: State, c: nat, r: Pc, loc: map<Tid, Place>)
    requires LiveOk(s, loc) && ContextsOk(s, loc) && c < |s.cores| <= MAX_CORES && s.cores[c].stack.None?
    ensures ContextsOk(SwitchedOut(s, c, IdleEntry, r), loc)
  {
    var s' := SwitchedOut(s, c, IdleEntry, r);
    forall d | 0 <= d < |s'.cores| && d in s'.tcbs ensures s'.tcbs[d] == IdleContext(s'.cores[d], d) {
      assert s.tcbs[d] == IdleContext(s.cores[d], d);
    }
    forall u | u in loc && u in s'.tcbs ensures s'.tcbs[u] == ThreadContext(s', loc[u]) {
      assert s.tcbs[u] == ThreadContext(s, loc[u]);
    }
  }

  lemma SwitchOutOwned(s: State, c: nat, t: Tid, r: Pc, loc: map<Tid, Place>)
    requires Owned(s, loc) && c < |s.cores| <= MAX_CORES && s.cores[c].pc.SwitchOut?
    requires s.cores[c].stack == Some(t) && t >= MAX_CORES && Asks(s.cores[c], r)
    ensures Owned(SwitchedOut(s, c, IdleDelete, r), loc[t := Pending(c)])
  {
    var s' := SwitchedOut(s, c, IdleDelete, r);
    assert Owns(s, OnCore(c), t);
    forall p, u ensures Owns(s', p, u) <==> (if u == t then p == Pending(c) else Owns(s, p, u)) {
      assert Owns(s, p, u) <==> u in loc && loc[u] == p;
    }
    OwnedMoved(s, s', loc, t, Pending(c));
  }

  lemma SwitchOutContexts(s: State, c: nat, t: Tid, r: Pc, loc: map<Tid, Place>)
    requires LiveOk(s, loc) && Owned(s, loc) && ContextsOk(s, loc) && c < |s.cores| <= MAX_CORES
    requires s.cores[c].stack == Some(t) && t >= MAX_CORES && Asks(s.cores[c], r) && s.cores[c].pc.SwitchOut?
    ensures ContextsOk(SwitchedOut(s, c, IdleDelete, r), loc[t := Pending(c)])
  {
    var s', loc' := SwitchedOut(s, c, IdleDelete, r), loc[t := Pending(c)];
    forall d | 0 <= d < |s'.cores| && d in s'.tcbs ensures s'.tcbs[d] == IdleContext(s'.cores[d], d) {
      assert s.tcbs[d] == IdleContext(s.cores[d], d);
    }
    PendingIs(s, c, loc, t);
    forall u | u in loc' && u in s'.tcbs ensures s'.tcbs[u] == ThreadContext(s', loc'[u]) {
      if u != t { assert s.tcbs[u] == ThreadContext(s, loc[u]); }
    }
  }

  /** A thread that stops, yields or blocks is off its stack: its request becomes pending. */
  lemma SwitchOutKeeps(s: State, c: nat, loc: map<Tid, Place>)
    requires Inv(s, loc) && c < |s.cores| && s.cores[c].pc.SwitchOut? && s.cores[c].stack.Some?
    ensures Inv(ThreadStep(s, c), loc[s.cores[c].stack.value := Pending(c)])
  {
    hide CoresOk; hide LiveOk; hide Owned; hide ContextsOk; hide QueuesOk; hide LocksOk; hide SemsOk;
    CoreAt(s, c, loc);
    SwitchOutShape(s, c, loc);
    var k := s.cores[c];
    var t, r := k.stack.value, k.pc.resume;
    var s' := SwitchedOut(s, c, IdleDelete, r);
    CoresKept(s, s', c);
    ThreadIs(s, t, loc);
    LiveKept(s, s', t, Pending(c), loc);
    SwitchOutOwned(s, c, t, r, loc);
    SwitchOutContexts(s, c, t, r, loc);
    QueuesKept(s, s');
    HoldKept(s, s', c);
  }

  function SwitchedIn(s: State, c: nat, t: Tid): State
    requires c < |s.cores|
  {
    var k := s.cores[c];
    Put(s, c, k.(pc := User, stack := Some(t))).(tcbs := s.tcbs[c := Saved(IdleDelete)][t := Stale])
  }

  lemma SwitchInShape(s: State, c: nat, loc: map<Tid, Place>)
    requires CoresOk(s) && LiveOk(s, loc) && Owned(s, loc) && ContextsOk(s, loc)
    requires c < |s.cores| && s.cores[c].pc.IdleSwitch?
    ensures
      var k := s.cores[c];
      && k.curr.Some? && k.curr.value in loc && loc[k.curr.value] == InHand(c)
      && SwitchTo(s, c, IdleDelete) == SwitchedIn(s, c, k.curr.value)
      && c in s.tcbs
  {
    var k := s.cores[c];
    assert CoreOk(k, c);
    assert Owns(s, InHand(c), k.curr.value);
    assert s.tcbs[k.curr.value] == ThreadContext(s, InHand(c));
  }

  lemma SwitchInOwned(s: State, c: nat, t: Tid, loc: map<Tid, Place>)
    requires Owned(s, loc) && c < |s.cores| <= MAX_CORES && CoreOk(s.cores[c], c)
    requires s.cores[c].pc.IdleSwitch? && s.cores[c].curr == Some(t)
    ensures Owned(SwitchedIn(s, c, t), loc[t := OnCore(c)])
  {
    var s' := SwitchedIn(s, c, t);
    assert Owns(s, InHand(c), t);
    forall p, u ensures Owns(s', p, u) <==> (if u == t then p == OnCore(c) else Owns(s, p, u)) {
      assert Owns(s, p, u) <==> u in loc && loc[u] == p;
    }
    OwnedMoved(s, s', loc, t, OnCore(c));
  }

  lemma SwitchInContexts(s: State, c: nat, t: Tid, loc: map<Tid, Place>)
    requires LiveOk(s, loc) && Owned(s, loc) && ContextsOk(s, loc) && c < |s.cores| <= MAX_CORES && t >= MAX_CORES
    requires s.cores[c].pc.IdleSwitch?
    ensures ContextsOk(SwitchedIn(s, c, t), loc[t := OnCore(c)])
  {
    var s', loc' := SwitchedIn(s, c, t), loc[t := OnCore(c)];
    forall d | 0 <= d < |s'.cores| && d in s'.tcbs ensures s'.tcbs[d] == IdleContext(s'.cores[d], d) {
      assert s.tcbs[d] == IdleContext(s.cores[d], d);
    }
    PendingIs(s, c, loc, t);
    forall u | u in loc' && u in s'.tcbs ensures s'.tcbs[u] == ThreadContext(s', loc'[u]) {
      if u != t { assert s.tcbs[u] == ThreadContext(s, loc[u]); }
    }
  }

  /** idle_loop dispatches the thread it took; its context is there to be resumed. */
  lemma SwitchInKeeps(s: State, c: nat, loc: map<Tid, Place>)
    requires Inv(s, loc) && c < |s.cores| && s.cores[c].pc.IdleSwitch?
    ensures s.cores[c].curr.Some?
    ensures Inv(DispatchStep(s, c), loc[s.cores[c].curr.value := OnCore(c)])
  {
    hide CoresOk; hide LiveOk; hide Owned; hide ContextsOk; hide QueuesOk; hide LocksOk; hide SemsOk;
    CoreAt(s, c, loc);
    SwitchInShape(s, c, loc);
    var t := s.cores[c].curr.value;
    var s' := SwitchedIn(s, c, t);
    CoresKept(s, s', c);
    ThreadIs(s, t, loc);
    LiveKept(s, s', t, OnCore(c), loc);
    SwitchInOwned(s, c, t, loc);
    SwitchInContexts(s, c, t, loc);
    QueuesKept(s, s');
    HoldKept(s, s', c);
  }

  // ---------------------------------------------------------------- deletion

  lemma DeleteOwned(s: State, c: nat, t: Tid, loc: map<Tid, Place>)
    requires Owned(s, loc) && c < |s.cores| && s.cores[c].pc.IdleDelete? && s.cores[c].toDelete == Some(t)
    ensures t in loc
    ensures Owned(Goto(s, c, IdleDeleteClear).(tcbs := s.tcbs - {t}), loc - {t})
  {
    var s' := Goto(s, c, IdleDeleteClear).(tcbs := s.tcbs - {t});
    assert Owns(s, Pending(c), t);
    forall p, u ensures Owns(s', p, u) <==> u in loc - {t} && (loc - {t})[u] == p {
      assert Owns(s, p, u) <==> u in loc && loc[u] == p;
    }
  }

  lemma DeleteContexts(s: State, c: nat, t: Tid, loc: map<Tid, Place>)
    requires Owned(s, loc) && ContextsOk(s, loc) && c < |s.cores|
    requires s.cores[c].pc.IdleDelete? && s.cores[c].toDelete == Some(t)
    ensures ContextsOk(Goto(s, c, IdleDeleteClear).(tcbs := s.tcbs - {t}), loc - {t})
  {
    var s', loc' := Goto(s, c, IdleDeleteClear).(tcbs := s.tcbs - {t}), loc - {t};
    forall d | 0 <= d < |s'.cores| && d in s'.tcbs ensures s'.tcbs[d] == IdleContext(s'.cores[d], d) {
      assert s.tcbs[d] == IdleContext(s.cores[d], d);
    }
    PendingIs(s, c, loc, t);
    forall u | u in loc' && u in s'.tcbs ensures s'.tcbs[u] == ThreadContext(s', loc'[u]) {
      assert s.tcbs[u] == ThreadContext(s, loc[u]);
    }
  }

  lemma DeleteLive(s: State, s': State, t: Tid, loc: map<Tid, Place>)
    requires LiveOk(s, loc) && t in loc && s'.tcbs == s.tcbs - {t} && s'.nextTid == s.nextTid
    ensures LiveOk(s', loc - {t}) && t in s.tcbs
  {
  }

  /** idle_loop frees the TCB of a stopped thread. */
  lemma DeleteKeeps(s: State, c: nat, loc: map<Tid, Place>)
    requires Inv(s, loc) && c < |s.cores| && s.cores[c].pc.IdleDelete? && s.cores[c].toDelete.Some?
    ensures Inv(FinishStep(s, c), loc - {s.cores[c].toDelete.value})
  {
    hide CoresOk; hide LiveOk; hide Owned; hide ContextsOk; hide QueuesOk; hide LocksOk; hide SemsOk;
    CoreAt(s, c, loc);
    var t := s.cores[c].toDelete.value;
    var s' := Goto(s, c, IdleDeleteClear).(tcbs := s.tcbs - {t});
    DeleteOwned(s, c, t, loc);
    DeleteLive(s, s', t, loc);
    CoresKept(s, s', c);
    DeleteContexts(s, c, t, loc);
    QueuesKept(s, s');
    HoldKept(s, s', c);
  }

  // ---------------------------------------------------------------- semaphore steps that move no thread

  function SemPut(s: State, c: nat, k': Core, m: SemId, x': Sem): State
    requires c < |s.cores| && m < |s.sems|
  {
    PutSem(Put(s, c, k'), m, x')
  }

  lemma SemQueues(s: State, s': State, m: SemId)
    requires QueuesOk(s) && m < |s.sems| == |s'.sems| && Distinct(s'.sems[m].queue)
    requires s'.ready == s.ready && s'.pushed == s.pushed && s'.popped == s.popped
    requires forall n :: 0 <= n < |s.sems| && n != m ==> s'.sems[n] == s.sems[n]
    ensures QueuesOk(s')
  {
  }

  /** A core's record and the semaphore it has just written agree about the lock and the counts. */
  predicate Agree(k: Core, c: nat, x: Sem, m: SemId) {
    && !k.pc.DownLock? && !k.pc.UpLock?
    && (if x.lock.None? then Held(k).None? && SemOk(x, None, false)
        else x.lock == Some(c) && Held(k) == Some(m) && SemOk(x, Blocking(k), k.pc.UpPop?))
  }

  /** The core may write semaphore `m`: it holds the lock, or the lock is free. */
  predicate MayWrite(s: State, c: nat, m: SemId)
    requires c < |s.cores| && m < |s.sems|
  {
    if s.sems[m].lock.None? then Held(s.cores[c]).None? else Held(s.cores[c]) == Some(m)
  }

  lemma AgreeLocks(s: State, c: nat, k': Core, m: SemId, x': Sem)
    requires LocksOk(s) && c < |s.cores| && m < |s.sems| && MayWrite(s, c, m) && Agree(k', c, x', m)
    ensures LocksOk(SemPut(s, c, k', m, x'))
  {
    hide SemOk;
  }

  lemma AgreeSems(s: State, c: nat, k': Core, m: SemId, x': Sem)
    requires LocksOk(s) && SemsOk(s) && c < |s.cores| && m < |s.sems| && MayWrite(s, c, m) && Agree(k', c, x', m)
    ensures SemsOk(SemPut(s, c, k', m, x'))
  {
    hide SemOk;
    var s' := SemPut(s, c, k', m, x');
    forall n | 0 <= n < |s'.sems| ensures SemOk(s'.sems[n], BlockingOn(s', n), Waking(s', n)) {
      if n != m {
        assert SemOk(s.sems[n], BlockingOn(s, n), Waking(s, n));
        assert s.sems[n].lock != Some(c);
      }
    }
  }

  /** What the core that holds the lock of `m` knows about it. */
  lemma UnderLock(s: State, c: nat, m: SemId)
    requires LocksOk(s) && SemsOk(s) && c < |s.cores| && Held(s.cores[c]) == Some(m)
    ensures m < |s.sems| && s.sems[m].lock == Some(c) && MayWrite(s, c, m)
    ensures SemOk(s.sems[m], Blocking(s.cores[c]), s.cores[c].pc.UpPop?)
  {
    assert SemOk(s.sems[m], BlockingOn(s, m), Waking(s, m));
  }

  lemma FreeLock(s: State, m: SemId)
    requires SemsOk(s) && m < |s.sems| && s.sems[m].lock.None?
    ensures SemOk(s.sems[m], None, false)
  {
    assert SemOk(s.sems[m], BlockingOn(s, m), Waking(s, m));
  }

  lemma SemPutOthers(s: State, c: nat, k': Core, m: SemId, x': Sem, loc: map<Tid, Place>)
    requires LiveOk(s, loc) && Owned(s, loc) && QueuesOk(s) && c < |s.cores| && m < |s.sems|
    requires SameClaims(s.cores[c], k') && PendingOf(k').None? && x'.queue == s.sems[m].queue
    ensures LiveOk(SemPut(s, c, k', m, x'), loc) && QueuesOk(SemPut(s, c, k', m, x'))
    ensures forall t :: t in loc ==> loc[t] != Pending(c)
  {
    SemQueues(s, SemPut(s, c, k', m, x'), m);
    forall t | t in loc ensures loc[t] != Pending(c) { assert Owns(s, loc[t], t); }
  }

  /** A step that writes semaphore `m`, and not its queue, and moves no thread. */
  lemma SemPutKeeps(s: State, c: nat, k': Core, m: SemId, x': Sem, loc: map<Tid, Place>)
    requires Inv(s, loc) && c < |s.cores| && m < |s.sems| && MayWrite(s, c, m)
    requires CoreOk(k', c) && SameClaims(s.cores[c], k') && PendingOf(k').None?
    requires x'.queue == s.sems[m].queue && Agree(k', c, x', m)
    ensures Inv(SemPut(s, c, k', m, x'), loc)
  {
    hide CoresOk; hide LiveOk; hide Owned; hide ContextsOk; hide QueuesOk; hide LocksOk; hide SemsOk;
    hide MayWrite; hide Agree; hide CoreOk; hide PendingOf; hide InHandOf;
    var s' := SemPut(s, c, k', m, x');
    SemPutOthers(s, c, k', m, x', loc);
    CoresKept(s, s', c);
    OwnedKept(s, s', c, loc);
    ContextsKept(s, s', c, loc);
    AgreeLocks(s, c, k', m, x');
    AgreeSems(s, c, k', m, x');
  }

  predicate InDown(pc: Pc, m: SemId) {
    (pc.DownLock? || pc.DownDec? || pc.DownRequest? || pc.DownUnlock?) && pc.sem == m
  }

  predicate InUp(pc: Pc, m: SemId) {
    (pc.UpLock? || pc.UpInc? || pc.UpPop? || pc.UpSchedule? || pc.UpUnlock?) && pc.sem == m
  }

  predicate InUpOrDown(pc: Pc, m: SemId) { InDown(pc, m) || InUp(pc, m) }

  /** The core's record after a step of this kind, and the semaphore it wrote. */
  predicate Local(k: Core, c: nat, k': Core, m: SemId, x': Sem) {
    CoreOk(k', c) && SameClaims(k, k') && PendingOf(k').None? && Agree(k', c, x', m)
  }

  lemma AcquireLocal(k: Core, c: nat, m: SemId, pc': Pc, x: Sem)
    requires CoreOk(k, c) && SemOk(x, None, false)
    requires (k.pc == DownLock(m) && pc' == DownDec(m)) || (k.pc == UpLock(m) && pc' == UpInc(m))
    ensures Local(k, c, k.(pc := pc'), m, x.(lock := Some(c))) && Held(k).None?
  {
  }

  /** Spinlock::lock succeeds in up or down. */
  lemma AcquireKeeps(s: State, c: nat, m: SemId, pc': Pc, loc: map<Tid, Place>)
    requires Inv(s, loc) && c < |s.cores| && m < |s.sems| && s.sems[m].lock.None?
    requires
      || (s.cores[c].pc == DownLock(m) && pc' == DownDec(m))
      || (s.cores[c].pc == UpLock(m) && pc' == UpInc(m))
    ensures Inv(SemPut(s, c, s.cores[c].(pc := pc'), m, s.sems[m].(lock := Some(c))), loc)
  {
    hide CoresOk; hide LiveOk; hide Owned; hide ContextsOk; hide QueuesOk; hide LocksOk; hide SemsOk;
    hide CoreOk; hide SemOk; hide SameClaims; hide PendingOf; hide InHandOf; hide Agree; hide Held;
    CoreAt(s, c, loc);
    FreeLock(s, m);
    AcquireLocal(s.cores[c], c, m, pc', s.sems[m]);
    SemPutKeeps(s, c, s.cores[c].(pc := pc'), m, s.sems[m].(lock := Some(c)), loc);
  }

  predicate Releases(k: Core, m: SemId, pc': Pc) {
    || (k.pc == DownUnlock(m) && pc' == User)
    || (k.pc == UpUnlock(m) && pc' == User)
    || (k.pc == IdleUnlock && k.toUnlock == Some(m) && pc' == IdleQueueClear)
  }

  lemma ReleaseLocal(k: Core, c: nat, m: SemId, pc': Pc, x: Sem)
    requires CoreOk(k, c) && Releases(k, m, pc') && SemOk(x, Blocking(k), k.pc.UpPop?)
    ensures Local(k, c, k.(pc := pc'), m, x.(lock := None))
  {
  }

  lemma ReleaseHeld(k: Core, m: SemId, pc': Pc)
    requires Releases(k, m, pc')
    ensures Held(k) == Some(m)
  {
  }

  /** Spinlock::unlock at the end of up, of a down that did not block, or by idle_loop. */
  lemma ReleaseKeeps(s: State, c: nat, m: SemId, pc': Pc, loc: map<Tid, Place>)
    requires Inv(s, loc) && c < |s.cores| && m < |s.sems|
    requires Releases(s.cores[c], m, pc')
    ensures Inv(SemPut(s, c, s.cores[c].(pc := pc'), m, s.sems[m].(lock := None)), loc)
  {
    hide CoresOk; hide LiveOk; hide Owned; hide ContextsOk; hide QueuesOk; hide LocksOk; hide SemsOk;
    hide CoreOk; hide SemOk; hide SameClaims; hide PendingOf; hide InHandOf; hide Agree; hide Held;
    hide Releases; hide Blocking; hide MayWrite;
    CoreAt(s, c, loc);
    ReleaseHeld(s.cores[c], m, pc');
    UnderLock(s, c, m);
    ReleaseLocal(s.cores[c], c, m, pc', s.sems[m]);
    SemPutKeeps(s, c, s.cores[c].(pc := pc'), m, s.sems[m].(lock := None), loc);
  }

  /** Decremented, or incremented, under the lock. */
  lemma CountKeeps(s: State, c: nat, m: SemId, k': Core, x': Sem, loc: map<Tid, Place>)
    requires Inv(s, loc) && c < |s.cores| && m < |s.sems|
    requires s.cores[c].pc == DownDec(m) || s.cores[c].pc == UpInc(m)
    requires CoreOk(s.cores[c], c) && SemOk(s.sems[m], None, false) && s.sems[m].lock == Some(c) ==>
               Local(s.cores[c], c, k', m, x') && x'.queue == s.sems[m].queue
    ensures Inv(SemPut(s, c, k', m, x'), loc)
  {
    hide CoresOk; hide LiveOk; hide Owned; hide ContextsOk; hide QueuesOk; hide LocksOk; hide SemsOk;
    hide CoreOk; hide SemOk; hide SameClaims; hide PendingOf; hide InHandOf; hide Agree; hide MayWrite;
    CoreAt(s, c, loc);
    UnderLock(s, c, m);
    SemPutKeeps(s, c, k', m, x', loc);
  }

  lemma DownDecKeeps(s: State, c: nat, m: SemId, loc: map<Tid, Place>)
    requires Inv(s, loc) && c < |s.cores| && m < |s.sems| && s.cores[c].pc == DownDec(m)
    ensures Inv(DownStep(s, c, m), loc)
  {
    hide Inv;
    var k, x := s.cores[c], s.sems[m];
    if x.counter - 1 < 0 {
      var x' := x.(counter := x.counter - 1, waits := x.waits + Named(k.curr));
      assert x.wakes + x.queue + Named(None) + Named(k.curr) == x.wakes + x.queue + Named(k.curr);
      CountKeeps(s, c, m, k.(pc := DownRequest(m)), x', loc);
    } else {
      var x' := x.(counter := x.counter - 1, immediate := x.immediate + 1,
                   holders := x.holders + multiset(Named(k.curr)));
      CountKeeps(s, c, m, k.(pc := DownUnlock(m)), x', loc);
    }
  }

  lemma UpIncKeeps(s: State, c: nat, m: SemId, loc: map<Tid, Place>)
    requires Inv(s, loc) && c < |s.cores| && m < |s.sems| && s.cores[c].pc == UpInc(m)
    ensures Inv(UpStep(s, c, m), loc)
  {
    hide Inv;
    var k, x := s.cores[c], s.sems[m];
    var x' := x.(counter := x.counter + 1, ups := x.ups + 1, holders := x.holders - multiset(Named(k.curr)));
    CountKeeps(s, c, m, k.(pc := if x.counter < 0 then UpPop(m) else UpUnlock(m)), x', loc);
  }

  // ---------------------------------------------------------------- in and out of a semaphore's queue

  function Popped(s: State, c: nat, m: SemId): State
    requires c < |s.cores| && m < |s.sems| && s.sems[m].queue != []
  {
    var x := s.sems[m];
    var t := x.queue[0];
    SemPut(s, c, s.cores[c].(pc := UpSchedule(m, t)), m,
           x.(queue := x.queue[1..], wakes := x.wakes + [t], holders := x.holders + multiset{t}))
  }

  lemma PopOwned(s: State, c: nat, m: SemId, loc: map<Tid, Place>)
    requires Owned(s, loc) && QueuesOk(s) && c < |s.cores| && m < |s.sems|
    requires s.cores[c].pc == UpPop(m) && s.sems[m].queue != []
    ensures Owned(Popped(s, c, m), loc[s.sems[m].queue[0] := InHand(c)]) && s.sems[m].queue[0] in loc
  {
    var s', t := Popped(s, c, m), s.sems[m].queue[0];
    assert Owns(s, InSem(m), t);
    assert s.sems[m].queue == [t] + s'.sems[m].queue;
    forall p, u ensures Owns(s', p, u) <==> (if u == t then p == InHand(c) else Owns(s, p, u)) {
      assert Owns(s, p, u) <==> u in loc && loc[u] == p;
    }
    OwnedMoved(s, s', loc, t, InHand(c));
  }

  lemma PopContexts(s: State, c: nat, m: SemId, loc: map<Tid, Place>)
    requires Owned(s, loc) && ContextsOk(s, loc) && c < |s.cores| && m < |s.sems|
    requires s.cores[c].pc == UpPop(m) && s.sems[m].queue != []
    ensures ContextsOk(Popped(s, c, m), loc[s.sems[m].queue[0] := InHand(c)])
  {
    var t := s.sems[m].queue[0];
    assert Owns(s, InSem(m), t);
    PendingIs(s, c, loc, t);
    ContextsMoved(s, Popped(s, c, m), c, t, InHand(c), loc);
  }

  lemma PopSem(x: Sem)
    requires SemOk(x, None, true)
    ensures x.queue != []
    ensures
      var t := x.queue[0];
      SemOk(x.(queue := x.queue[1..], wakes := x.wakes + [t], holders := x.holders + multiset{t}), None, false)
  {
    assert x.queue == [x.queue[0]] + x.queue[1..];
  }

  lemma PopHolds(s: State, c: nat, m: SemId)
    requires LocksOk(s) && SemsOk(s) && c < |s.cores| && m < |s.sems| && s.cores[c].pc == UpPop(m)
    ensures s.sems[m].queue != [] && LocksOk(Popped(s, c, m)) && SemsOk(Popped(s, c, m))
  {
    hide LocksOk; hide SemsOk; hide SemOk; hide MayWrite;
    UnderLock(s, c, m);
    PopSem(s.sems[m]);
    var s' := Popped(s, c, m);
    AgreeLocks(s, c, s'.cores[c], m, s'.sems[m]);
    AgreeSems(s, c, s'.cores[c], m, s'.sems[m]);
  }

  /** up finds a waiter, as its ASSERT says, and takes the first. */
  lemma PopKeeps(s: State, c: nat, m: SemId, loc: map<Tid, Place>)
    requires Inv(s, loc) && c < |s.cores| && m < |s.sems| && s.cores[c].pc == UpPop(m)
    ensures s.sems[m].queue != []
    ensures Inv(UpStep(s, c, m), loc[s.sems[m].queue[0] := InHand(c)])
  {
    PopHolds(s, c, m);
    SemQueues(s, Popped(s, c, m), m);
    hide CoresOk; hide LiveOk; hide Owned; hide ContextsOk; hide QueuesOk; hide LocksOk; hide SemsOk;
    CoreAt(s, c, loc);
    var s', t := Popped(s, c, m), s.sems[m].queue[0];
    CoresKept(s, s', c);
    PopOwned(s, c, m, loc);
    ThreadIs(s, t, loc);
    LiveKept(s, s', t, InHand(c), loc);
    PopContexts(s, c, m, loc);
  }

  function Enqueued(s: State, c: nat, t: Tid, m: SemId): State
    requires c < |s.cores| && m < |s.sems|
  {
    SemPut(s, c, s.cores[c].(pc := IdleUnlock), m, s.sems[m].(queue := s.sems[m].queue + [t]))
  }

  lemma EnqueueOwned(s: State, c: nat, t: Tid, m: SemId, loc: map<Tid, Place>)
    requires Owned(s, loc) && c < |s.cores| && m < |s.sems|
    requires s.cores[c].pc == IdlePush && s.cores[c].toQueue == Some(t)
    ensures Owned(Enqueued(s, c, t, m), loc[t := InSem(m)]) && t in loc && t !in s.sems[m].queue
  {
    var s' := Enqueued(s, c, t, m);
    assert Owns(s, Pending(c), t);
    assert !Owns(s, InSem(m), t);
    forall p, u ensures Owns(s', p, u) <==> (if u == t then p == InSem(m) else Owns(s, p, u)) {
      assert Owns(s, p, u) <==> u in loc && loc[u] == p;
    }
    OwnedMoved(s, s', loc, t, InSem(m));
  }

  lemma EnqueueContexts(s: State, c: nat, t: Tid, m: SemId, loc: map<Tid, Place>)
    requires Owned(s, loc) && ContextsOk(s, loc) && c < |s.cores| && m < |s.sems|
    requires s.cores[c].pc == IdlePush && s.cores[c].toQueue == Some(t) && s.cores[c].toDelete.None?
    ensures ContextsOk(Enqueued(s, c, t, m), loc[t := InSem(m)])
  {
    assert Owns(s, Pending(c), t);
    PendingIs(s, c, loc, t);
    ContextsMoved(s, Enqueued(s, c, t, m), c, t, InSem(m), loc);
  }

  lemma EnqueueSem(x: Sem, t: Tid)
    requires SemOk(x, Some(t), false)
    ensures SemOk(x.(queue := x.queue + [t]), None, false)
  {
    assert x.wakes + (x.queue + [t]) == x.wakes + x.queue + [t];
  }

  lemma EnqueueHolds(s: State, c: nat, t: Tid, m: SemId)
    requires LocksOk(s) && SemsOk(s) && c < |s.cores| && CoreOk(s.cores[c], c) && m < |s.sems|
    requires s.cores[c].pc == IdlePush && s.cores[c].toQueue == Some(t) && s.cores[c].toAddTo == Some(m)
    ensures LocksOk(Enqueued(s, c, t, m)) && SemsOk(Enqueued(s, c, t, m))
  {
    hide LocksOk; hide SemsOk; hide SemOk; hide MayWrite;
    UnderLock(s, c, m);
    EnqueueSem(s.sems[m], t);
    var s' := Enqueued(s, c, t, m);
    AgreeLocks(s, c, s'.cores[c], m, s'.sems[m]);
    AgreeSems(s, c, s'.cores[c], m, s'.sems[m]);
  }

  lemma EnqueueHeld(s: State, c: nat)
    requires LocksOk(s) && c < |s.cores| && CoreOk(s.cores[c], c)
    requires s.cores[c].pc == IdlePush || s.cores[c].pc == IdleUnlock
    ensures s.cores[c].toQueue.Some? && s.cores[c].toAddTo.Some? && s.cores[c].toUnlock == s.cores[c].toAddTo
    ensures s.cores[c].toAddTo.value < |s.sems|
  {
  }

  /** idle_loop puts the blocked thread into the semaphore's queue, the lock still held. */
  lemma EnqueueKeeps(s: State, c: nat, loc: map<Tid, Place>)
    requires Inv(s, loc) && c < |s.cores| && s.cores[c].pc == IdlePush
    ensures s.cores[c].toQueue.Some? && s.cores[c].toAddTo.Some?
    ensures Inv(FinishStep(s, c), loc[s.cores[c].toQueue.value := InSem(s.cores[c].toAddTo.value)])
  {
    CoreAt(s, c, loc);
    EnqueueHeld(s, c);
    var t, m := s.cores[c].toQueue.value, s.cores[c].toAddTo.value;
    var s' := Enqueued(s, c, t, m);
    EnqueueOwned(s, c, t, m, loc);
    SemQueues(s, s', m);
    hide CoresOk; hide LiveOk; hide Owned; hide ContextsOk; hide QueuesOk; hide LocksOk; hide SemsOk;
    CoresKept(s, s', c);
    ThreadIs(s, t, loc);
    LiveKept(s, s', t, InSem(m), loc);
    EnqueueContexts(s, c, t, m, loc);
    EnqueueHolds(s, c, t, m);
  }

  // ---------------------------------------------------------------- every step

  lemma CallKeeps(s: State, c: nat, call: Call, loc: map<Tid, Place>) returns (loc': map<Tid, Place>)
    requires Inv(s, loc) && c < |s.cores| && (s.cores[c].pc.Boot? || s.cores[c].pc.User?)
    ensures Inv(CallStep(s, c, call), loc')
  {
    hide Inv;
    CoreAt(s, c, loc);
    loc' := loc;
    match call
    case Go =>
      GoKeeps(s, c, loc);
      loc' := loc[s.nextTid := InHand(c)];
    case Stop => QuietKeeps(s, c, s.cores[c].(pc := StopRequest), loc);
    case Yield => if s.cores[c].pc.User? { QuietKeeps(s, c, s.cores[c].(pc := YieldRequest), loc); }
    case Up(m) =>
      if s.cores[c].pc.User? && m < |s.sems| { QuietKeeps(s, c, s.cores[c].(pc := UpLock(m)), loc); }
    case Down(m) =>
      if s.cores[c].pc.User? && m < |s.sems| { QuietKeeps(s, c, s.cores[c].(pc := DownLock(m)), loc); }
    case NewSem(n) => if s.cores[c].pc.User? { NewSemKeeps(s, c, n, loc); }
  }

  lemma ThreadKeeps(s: State, c: nat, loc: map<Tid, Place>) returns (loc': map<Tid, Place>)
    requires Inv(s, loc) && c < |s.cores|
    ensures Inv(ThreadStep(s, c), loc')
  {
    hide Inv;
    CoreAt(s, c, loc);
    loc' := loc;
    var k := s.cores[c];
    match k.pc
    case GoPush(t) =>
      ScheduleKeeps(s, c, k.(pc := if k.stack.None? then Boot else User), t, loc);
      loc' := loc[t := InReady];
    case StopRequest => QuietKeeps(s, c, k.(toDelete := k.curr, pc := Leave(Unreachable)), loc);
    case YieldRequest => QuietKeeps(s, c, k.(toReschedule := k.curr, pc := Leave(User)), loc);
    case Leave(r) => QuietKeeps(s, c, k.(prev := k.curr, curr := Some(c), pc := SwitchOut(r)), loc);
    case SwitchOut(r) =>
      if k.stack.None? {
        FirstSwitchKeeps(s, c, loc);
      } else {
        SwitchOutKeeps(s, c, loc);
        loc' := loc[k.stack.value := Pending(c)];
      }
    case _ =>
  }

  lemma DownKeeps(s: State, c: nat, m: SemId, loc: map<Tid, Place>)
    requires Inv(s, loc) && c < |s.cores| && m < |s.sems| && InUpOrDown(s.cores[c].pc, m)
    ensures Inv(DownStep(s, c, m), loc)
  {
    hide Inv;
    CoreAt(s, c, loc);
    var k := s.cores[c];
    match k.pc
    case DownLock(_) => if s.sems[m].lock.None? { AcquireKeeps(s, c, m, DownDec(m), loc); }
    case DownDec(_) => DownDecKeeps(s, c, m, loc);
    case DownRequest(_) =>
      QuietKeeps(s, c, k.(toQueue := k.curr, toAddTo := Some(m), toUnlock := Some(m), pc := Leave(User)), loc);
    case DownUnlock(_) => ReleaseKeeps(s, c, m, User, loc);
    case _ =>
  }

  lemma UpKeeps(s: State, c: nat, m: SemId, loc: map<Tid, Place>) returns (loc': map<Tid, Place>)
    requires Inv(s, loc) && c < |s.cores| && m < |s.sems| && InUpOrDown(s.cores[c].pc, m)
    ensures Inv(UpStep(s, c, m), loc')
  {
    hide Inv;
    CoreAt(s, c, loc);
    loc' := loc;
    var k := s.cores[c];
    match k.pc
    case UpLock(_) => if s.sems[m].lock.None? { AcquireKeeps(s, c, m, UpInc(m), loc); }
    case UpInc(_) => UpIncKeeps(s, c, m, loc);
    case UpPop(_) =>
      PopKeeps(s, c, m, loc);
      loc' := loc[s.sems[m].queue[0] := InHand(c)];
    case UpSchedule(_, t) =>
      ScheduleKeeps(s, c, k.(pc := UpUnlock(m)), t, loc);
      loc' := loc[t := InReady];
    case UpUnlock(_) => ReleaseKeeps(s, c, m, User, loc);
    case _ =>
  }

  lemma DispatchKeeps(s: State, c: nat, loc: map<Tid, Place>) returns (loc': map<Tid, Place>)
    requires Inv(s, loc) && c < |s.cores|
    ensures Inv(DispatchStep(s, c), loc')
  {
    hide Inv;
    CoreAt(s, c, loc);
    loc' := loc;
    var k := s.cores[c];
    match k.pc
    case IdleEntry => QuietKeeps(s, c, k.(curr := Some(c), pc := IdleNext), loc);
    case IdleNext =>
      if s.ready != [] {
        TakeKeeps(s, c, k.(pc := IdleTake(s.ready[0])), loc);
        loc' := loc[s.ready[0] := InHand(c)];
      }
    case IdleTake(t) =>
      InHandThread(s, c, t, loc);
      QuietKeeps(s, c, k.(prev := k.curr, curr := Some(t), pc := IdleSwitch), loc);
    case IdleSwitch =>
      SwitchInKeeps(s, c, loc);
      loc' := loc[k.curr.value := OnCore(c)];
    case _ =>
  }

  lemma InHandThread(s: State, c: nat, t: Tid, loc: map<Tid, Place>)
    requires Inv(s, loc) && c < |s.cores| && InHandOf(s.cores[c]) == Some(t)
    ensures t >= MAX_CORES
  {
    assert Owns(s, InHand(c), t);
  }

  lemma UnlockNamed(s: State, c: nat, loc: map<Tid, Place>)
    requires Inv(s, loc) && c < |s.cores| && s.cores[c].pc == IdleUnlock
    ensures s.cores[c].toUnlock.Some? && s.cores[c].toUnlock.value < |s.sems|
  {
    CoreAt(s, c, loc);
    EnqueueHeld(s, c);
  }

  lemma FinishKeeps(s: State, c: nat, loc: map<Tid, Place>) returns (loc': map<Tid, Place>)
    requires Inv(s, loc) && c < |s.cores|
    ensures Inv(FinishStep(s, c), loc')
  {
    hide Inv;
    CoreAt(s, c, loc);
    loc' := loc;
    var k := s.cores[c];
    match k.pc
    case IdleDelete =>
      if k.toDelete.None? {
        QuietKeeps(s, c, k.(pc := IdleQueue), loc);
      } else {
        DeleteKeeps(s, c, loc);
        loc' := loc - {k.toDelete.value};
      }
    case IdleDeleteClear => QuietKeeps(s, c, k.(toDelete := None, pc := IdleQueue), loc);
    case IdleQueue =>
      QuietKeeps(s, c, k.(pc := if k.toQueue.None? then IdleReschedule else IdlePush), loc);
    case IdlePush =>
      EnqueueKeeps(s, c, loc);
      loc' := loc[k.toQueue.value := InSem(k.toAddTo.value)];
    case IdleUnlock =>
      UnlockNamed(s, c, loc);
      ReleaseKeeps(s, c, k.toUnlock.value, IdleQueueClear, loc);
    case IdleQueueClear =>
      QuietKeeps(s, c, k.(toQueue := None, toAddTo := None, toUnlock := None, pc := IdleReschedule), loc);
    case IdleReschedule =>
      if k.toReschedule.None? {
        QuietKeeps(s, c, k.(pc := IdleNext), loc);
      } else {
        ScheduleKeeps(s, c, k.(pc := IdleRescheduleClear), k.toReschedule.value, loc);
        loc' := loc[k.toReschedule.value := InReady];
      }
    case IdleRescheduleClear => QuietKeeps(s, c, k.(toReschedule := None, pc := IdleNext), loc);
    case _ =>
  }

  lemma SemNamed(s: State, c: nat, m: SemId, loc: map<Tid, Place>)
    requires Inv(s, loc) && c < |s.cores| && InUpOrDown(s.cores[c].pc, m)
    ensures m < |s.sems|
  {
    hide CoresOk; hide LiveOk; hide Owned; hide ContextsOk; hide QueuesOk; hide SemsOk;
    assert s.cores[c].pc.DownLock? || s.cores[c].pc.UpLock? || Held(s.cores[c]) == Some(m);
  }

  /** Every step of every core keeps the invariant; `loc'` is where ownership went. */
  lemma StepKeeps(s: State, c: nat, call: Call, loc: map<Tid, Place>) returns (loc': map<Tid, Place>)
    requires Inv(s, loc) && c < |s.cores|
    ensures Inv(Step(s, c, call), loc')
  {
    hide Inv; hide CoreOk; hide CallStep; hide ThreadStep; hide DownStep; hide UpStep; hide DispatchStep; hide FinishStep;
    var pc := s.cores[c].pc;
    match pc
    case Boot | User => loc' := CallKeeps(s, c, call, loc);
    case GoPush(_) | StopRequest | YieldRequest | Leave(_) | SwitchOut(_) => loc' := ThreadKeeps(s, c, loc);
    case DownLock(_) | DownDec(_) | DownRequest(_) | DownUnlock(_) =>
      SemNamed(s, c, pc.sem, loc);
      DownKeeps(s, c, pc.sem, loc);
      loc' := loc;
    case UpLock(_) | UpInc(_) | UpPop(_) | UpSchedule(_, _) | UpUnlock(_) =>
      SemNamed(s, c, pc.sem, loc);
      loc' := UpKeeps(s, c, pc.sem, loc);
    case IdleEntry | IdleNext | IdleTake(_) | IdleSwitch => loc' := DispatchKeeps(s, c, loc);
    case IdleDelete | IdleDeleteClear | IdleQueue | IdlePush
      | IdleUnlock | IdleQueueClear | IdleReschedule | IdleRescheduleClear => loc' := FinishKeeps(s, c, loc);
    case Panic | Crash | Unreachable => loc' := loc;
  }
}
