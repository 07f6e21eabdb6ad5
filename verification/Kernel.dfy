/**
 The multi-core thread hand-off and the semaphores, as a transition system.

 A state holds every core's program counter and request slots, the saved context of every
 live TCB, the shared ready queue and the semaphores. One turn of one core executes one
 atomic step: an access to shared state, or a group of writes to fields that only the core
 itself reads. A turn that cannot advance (a spinning lock, an empty ready queue) leaves the
 state as it was.
 */
module Kernel {
  import opened Options

  // percore::kMaxCores
  const MAX_CORES: nat := 8

  /** A TCB is named by its thread id. `percore::init` builds the idle TCBs before any other
      TCB exists, so ids 0..7 are the idle threads of the eight cores. */
  type Tid = nat

  /** Index into the semaphores created so far. */
  type SemId = nat

  /** Where a core (or a saved context) is in the code. */
  datatype Pc =
      // kmain / ap_entry, before this core's first switch: no TCB is running
    | Boot
      // a thread's own code, outside the operations below
    | User
      // threads::go, after make_thread_tcb and before schedule
    | GoPush(tcb: Tid)
      // threads::stop and threads::yield, before the request is written
    | StopRequest
    | YieldRequest
      // the request is written; prev and curr are next
    | Leave(resume: Pc)
      // about to call switch_to(prev, idle)
    | SwitchOut(resume: Pc)
      // Semaphore::down
    | DownLock(sem: SemId)
    | DownDec(sem: SemId)
    | DownRequest(sem: SemId)
    | DownUnlock(sem: SemId)
      // Semaphore::up
    | UpLock(sem: SemId)
    | UpInc(sem: SemId)
    | UpPop(sem: SemId)
    | UpSchedule(sem: SemId, woken: Tid)
    | UpUnlock(sem: SemId)
      // idle_loop
    | IdleEntry
    | IdleNext
    | IdleTake(next: Tid)
    | IdleSwitch
    | IdleDelete
    | IdleDeleteClear
    | IdleQueue
    | IdlePush
    | IdleUnlock
    | IdleQueueClear
    | IdleReschedule
    | IdleRescheduleClear
      // an ASSERT failed
    | Panic
      // a freed TCB was used, or a context that nobody saved was resumed
    | Crash
      // control came back from the switch at the end of threads::stop
    | Unreachable

  /** The context `TCB::sp` points at: valid only while the thread is not running. */
  datatype Context = Stale | Saved(at: Pc)

  /** percore::PerCore, with the core's program counter and the stack it executes on. */
  datatype Core = Core(
    pc: Pc,
    stack: Option<Tid>,
    prev: Option<Tid>,
    curr: Option<Tid>,
    toDelete: Option<Tid>,
    toReschedule: Option<Tid>,
    toQueue: Option<Tid>,
    toAddTo: Option<SemId>,
    toUnlock: Option<SemId>)

  /** Semaphore. The lock records which core took it. The last five fields are history that
      no step reads: finished increments, downs that did not block, the threads that blocked
      in the order in which they decremented, the threads woken in order, and the threads
      granted a down that have not yet done an up. */
  datatype Sem = Sem(
    initial: nat,
    lock: Option<nat>,
    counter: int,
    queue: seq<Tid>,
    ups: nat,
    immediate: nat,
    waits: seq<Tid>,
    wakes: seq<Tid>,
    holders: multiset<Tid>)

  /** `pushed` and `popped` are the history of the ready queue; no step reads them. */
  datatype State = State(
    cores: seq<Core>,
    tcbs: map<Tid, Context>,
    nextTid: nat,
    ready: seq<Tid>,
    pushed: seq<Tid>,
    popped: seq<Tid>,
    sems: seq<Sem>)

  /** What a thread (or a boot context) does next in its own code. */
  datatype Call = Go | Stop | Yield | Up(up: SemId) | Down(down: SemId) | NewSem(count: nat)

  function Named(o: Option<Tid>): seq<Tid> {
    if o.Some? then [o.value] else []
  }

  // ---------------------------------------------------------------- initial state

  function BootCore(): Core {
    Core(Boot, None, None, None, None, None, None, None, None)
  }

  /** percore::init: one TCB per table entry, ready to enter idle_loop. */
  function IdleContexts(n: nat): (m: map<Tid, Context>)
    ensures forall t: Tid :: t in m <==> t < n
    ensures forall t: Tid :: t < n ==> m[t] == Saved(IdleEntry)
  {
    if n == 0 then map[] else IdleContexts(n - 1)[n - 1 := Saved(IdleEntry)]
  }

  /** After percore::init, with `n` cores released. */
  function Init(n: nat): State {
    State(
      seq(n, _ => BootCore()),
      IdleContexts(MAX_CORES),
      MAX_CORES, [], [], [], [])
  }

  // ---------------------------------------------------------------- steps

  function Put(s: State, c: nat, k: Core): State
    requires c < |s.cores|
  {
    s.(cores := s.cores[c := k])
  }

  function Goto(s: State, c: nat, pc: Pc): State
    requires c < |s.cores|
  {
    Put(s, c, s.cores[c].(pc := pc))
  }

  function PutSem(s: State, m: SemId, x: Sem): State
    requires m < |s.sems|
  {
    s.(sems := s.sems[m := x])
  }

  /** scheduler::schedule */
  function Schedule(s: State, t: Tid): State {
    s.(ready := s.ready + [t], pushed := s.pushed + [t])
  }

  /** switch_to(pc.prev, pc.curr): save into prev (if there is one), resume curr. */
  function SwitchTo(s: State, c: nat, resume: Pc): State
    requires c < |s.cores|
  {
    var k := s.cores[c];
    if k.prev.Some? && k.prev.value !in s.tcbs then Goto(s, c, Crash)
    else if k.curr.None? || k.curr.value !in s.tcbs then Goto(s, c, Crash)
    else
      var saved := if k.prev.None? then s.tcbs else s.tcbs[k.prev.value := Saved(resume)];
      match saved[k.curr.value]
      case Stale => Goto(s, c, Crash)
      case Saved(at) =>
        Put(s, c, k.(pc := at, stack := k.curr)).(tcbs := saved[k.curr.value := Stale])
  }

  /** The code that runs between operations: boot contexts only start threads and stop. */
  function CallStep(s: State, c: nat, call: Call): State
    requires c < |s.cores|
  {
    var k := s.cores[c];
    match call
    case Go =>
      Goto(s, c, GoPush(s.nextTid)).(tcbs := s.tcbs[s.nextTid := Saved(User)], nextTid := s.nextTid + 1)
    case Stop => Goto(s, c, StopRequest)
    case Yield => if k.pc.User? then Goto(s, c, YieldRequest) else s
    case Up(m) => if k.pc.User? && m < |s.sems| then Goto(s, c, UpLock(m)) else s
    case Down(m) => if k.pc.User? && m < |s.sems| then Goto(s, c, DownLock(m)) else s
    case NewSem(n) =>
      if k.pc.User? then s.(sems := s.sems + [Sem(n, None, n, [], 0, 0, [], [], multiset{})]) else s
  }

  /** threads::go / stop / yield and the switch to the idle thread they share. */
  function ThreadStep(s: State, c: nat): State
    requires c < |s.cores|
  {
    var k := s.cores[c];
    match k.pc
    case GoPush(t) =>
      Goto(Schedule(s, t), c, if k.stack.None? then Boot else User)
    case StopRequest => Put(s, c, k.(toDelete := k.curr, pc := Leave(Unreachable)))
    case YieldRequest => Put(s, c, k.(toReschedule := k.curr, pc := Leave(User)))
    case Leave(r) => Put(s, c, k.(prev := k.curr, curr := Some(c), pc := SwitchOut(r)))
    case SwitchOut(r) => SwitchTo(s, c, r)
    case _ => s
  }

  /** Semaphore::down */
  function DownStep(s: State, c: nat, m: SemId): State
    requires c < |s.cores| && m < |s.sems|
  {
    var k, x := s.cores[c], s.sems[m];
    match k.pc
    case DownLock(_) =>
      if x.lock.Some? then s
      else PutSem(Goto(s, c, DownDec(m)), m, x.(lock := Some(c)))
    case DownDec(_) =>
      if x.counter - 1 < 0 then
        PutSem(Goto(s, c, DownRequest(m)), m, x.(counter := x.counter - 1, waits := x.waits + Named(k.curr)))
      else
        PutSem(Goto(s, c, DownUnlock(m)), m,
               x.(counter := x.counter - 1, immediate := x.immediate + 1,
                  holders := x.holders + multiset(Named(k.curr))))
    case DownRequest(_) =>
      Put(s, c, k.(toQueue := k.curr, toAddTo := Some(m), toUnlock := Some(m), pc := Leave(User)))
    case DownUnlock(_) => PutSem(Goto(s, c, User), m, x.(lock := None))
    case _ => s
  }

  /** Semaphore::up */
  function UpStep(s: State, c: nat, m: SemId): State
    requires c < |s.cores| && m < |s.sems|
  {
    var k, x := s.cores[c], s.sems[m];
    match k.pc
    case UpLock(_) =>
      if x.lock.Some? then s
      else PutSem(Goto(s, c, UpInc(m)), m, x.(lock := Some(c)))
    case UpInc(_) =>
      PutSem(Goto(s, c, if x.counter < 0 then UpPop(m) else UpUnlock(m)), m,
             x.(counter := x.counter + 1, ups := x.ups + 1,
                holders := x.holders - multiset(Named(k.curr))))
    case UpPop(_) =>
      if x.queue == [] then Goto(s, c, Panic)
      else
        var t := x.queue[0];
        PutSem(Goto(s, c, UpSchedule(m, t)), m,
               x.(queue := x.queue[1..], wakes := x.wakes + [t], holders := x.holders + multiset{t}))
    case UpSchedule(_, t) => Goto(Schedule(s, t), c, UpUnlock(m))
    case UpUnlock(_) => PutSem(Goto(s, c, User), m, x.(lock := None))
    case _ => s
  }

  /** idle_loop, up to the dispatch */
  function DispatchStep(s: State, c: nat): State
    requires c < |s.cores|
  {
    var k := s.cores[c];
    match k.pc
    case IdleEntry => Put(s, c, k.(curr := Some(c), pc := IdleNext))
    case IdleNext =>
      if s.ready == [] then s
      else Goto(s, c, IdleTake(s.ready[0])).(ready := s.ready[1..], popped := s.popped + [s.ready[0]])
    case IdleTake(t) => Put(s, c, k.(prev := k.curr, curr := Some(t), pc := IdleSwitch))
    case IdleSwitch => SwitchTo(s, c, IdleDelete)
    case _ => s
  }

  /** idle_loop, carrying out the request of the thread that switched back */
  function FinishStep(s: State, c: nat): State
    requires c < |s.cores|
  {
    var k := s.cores[c];
    match k.pc
    case IdleDelete =>
      if k.toDelete.None? then Goto(s, c, IdleQueue)
      else if k.toDelete.value !in s.tcbs then Goto(s, c, Crash)
      else Goto(s, c, IdleDeleteClear).(tcbs := s.tcbs - {k.toDelete.value})
    case IdleDeleteClear => Put(s, c, k.(toDelete := None, pc := IdleQueue))
    case IdleQueue =>
      if k.toQueue.None? then Goto(s, c, IdleReschedule)
      else if k.toAddTo.None? || k.toUnlock.None? then Goto(s, c, Panic)
      else Goto(s, c, IdlePush)
    case IdlePush =>
      if k.toQueue.None? || k.toAddTo.None? || k.toAddTo.value >= |s.sems| then Goto(s, c, Crash)
      else
        var x := s.sems[k.toAddTo.value];
        PutSem(Goto(s, c, IdleUnlock), k.toAddTo.value, x.(queue := x.queue + [k.toQueue.value]))
    case IdleUnlock =>
      if k.toUnlock.None? || k.toUnlock.value >= |s.sems| then Goto(s, c, Crash)
      else PutSem(Goto(s, c, IdleQueueClear), k.toUnlock.value, s.sems[k.toUnlock.value].(lock := None))
    case IdleQueueClear =>
      Put(s, c, k.(toQueue := None, toAddTo := None, toUnlock := None, pc := IdleReschedule))
    case IdleReschedule =>
      if k.toReschedule.None? then Goto(s, c, IdleNext)
      else Goto(Schedule(s, k.toReschedule.value), c, IdleRescheduleClear)
    case IdleRescheduleClear => Put(s, c, k.(toReschedule := None, pc := IdleNext))
    case _ => s
  }

  /** One turn of core `c`. A core that failed stays where it is. */
  function Step(s: State, c: nat, call: Call): State
    requires c < |s.cores|
  {
    var pc := s.cores[c].pc;
    match pc
    case Boot | User => CallStep(s, c, call)
    case GoPush(_) | StopRequest | YieldRequest | Leave(_) | SwitchOut(_) => ThreadStep(s, c)
    case DownLock(_) | DownDec(_) | DownRequest(_) | DownUnlock(_) =>
      if pc.sem < |s.sems| then DownStep(s, c, pc.sem) else Goto(s, c, Crash)
    case UpLock(_) | UpInc(_) | UpPop(_) | UpSchedule(_, _) | UpUnlock(_) =>
      if pc.sem < |s.sems| then UpStep(s, c, pc.sem) else Goto(s, c, Crash)
    case IdleEntry | IdleNext | IdleTake(_) | IdleSwitch => DispatchStep(s, c)
    case IdleDelete | IdleDeleteClear | IdleQueue | IdlePush
      | IdleUnlock | IdleQueueClear | IdleReschedule | IdleRescheduleClear => FinishStep(s, c)
    case Panic | Crash | Unreachable => s
  }

  // ---------------------------------------------------------------- runs

  /** Which core takes the next step, and what its thread does if it is in its own code. */
  datatype Turn = Turn(core: nat, call: Call)

  /** The state after a schedule; a turn of a core that does not exist does nothing. */
  function Exec(s: State, schedule: seq<Turn>): State
    decreases |schedule|
  {
    if schedule == [] then s
    else
      var before := Exec(s, schedule[..|schedule| - 1]);
      var turn := schedule[|schedule| - 1];
      if turn.core < |before.cores| then Step(before, turn.core, turn.call) else before
  }
}
