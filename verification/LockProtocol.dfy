/**
 * One consumer's batches under its locks, as a step relation over the program counters of every
 * thread that touches them: the broker threads (waitLock, then eraseLock), the threads that
 * fetch, acknowledge or time out (fetchAndConsume, setMsgAck), and the clearer (unlockAll).
 *
 * lockersMtx is a shared/exclusive lock; each batch has a mutex and a condition variable.
 * Waiting on the condition variable releases the mutex and blocks in one step; notify_all wakes
 * exactly the thread that is blocked at that moment.
 *
 * triggerCheck(false) is not one step: it tests the queue, reads the units one by one in any
 * order, and publishes what it has found, while other threads that hold lockersMtx shared go on.
 */
module LockProtocol {
  import opened BatchModel
  import opened Options

  datatype Tid = Broker(batch: nat) | Worker(worker: nat)

  datatype BrokerPc =
    | WantInsert   // about to lock lockersMtx exclusively
    | Inserting    // holds lockersMtx
    | WantOwn      // the batch is registered; about to lock its mutex, still holding lockersMtx
    | Owning       // holds both
    | Testing      // holds the mutex, about to test the wait predicate
    | Deciding     // holds the mutex, has found the predicate false, about to block
    | Blocked
    | Woken        // notified, about to lock the mutex again
    | WantErase    // waitLock has returned; about to lock lockersMtx exclusively
    | Erasing      // holds lockersMtx
    | Done         // the callback returns batch.status and batch.StatusVector()

  datatype Task = Fetch | Tell(id: string, s: ConsumeStatus)

  datatype WorkerPc =
    | Idle
    | WantShared(task: Task)
    | Scanning(task: Task, todo: set<nat>)                              // holds lockersMtx shared
    | Marked(task: Task, batch: nat, todo: set<nat>)                    // setMsgStatus done, triggerCheck to come
    | Checking(task: Task, batch: nat, todo: set<nat>,                  // in triggerCheck's loop: the units still
               left: set<nat>, verdict: ConsumeStatus)                  // to be read, the verdict so far
    | WantBatch(batch: nat, todo: set<nat>)                             // getMsg about to lock the mutex
    | InBatch(batch: nat, todo: set<nat>)                               // holds the mutex too
    | Got(batch: nat, unit: int)
    | WantExclusive
    | Clearing(todo: set<nat>)                                          // unlockAll, holds lockersMtx

  /** A broker thread and the batch it brought; ops is everything ever done to the batch. */
  datatype Job = Job(pc: BrokerPc, msgs: seq<Message>, group: string, batch: Batch, ops: seq<Op>)

  datatype Delivery = Delivery(worker: nat, batch: nat, unit: int)

  datatype State = State(
    writer: Option<Tid>,        // exclusive holder of lockersMtx
    readers: set<nat>,          // workers that hold lockersMtx shared
    lockers: set<nat>,          // the registered batches
    owner: map<nat, Tid>,       // the batch mutexes that are held
    jobs: map<nat, Job>,
    workers: map<nat, WorkerPc>,
    deliveries: seq<Delivery>)

  const INIT := State(None, {}, {}, map[], map[], map[], [])

  datatype Action =
    | Arrive(b: nat, msgs: seq<Message>, group: string)
    | LockInsert(b: nat)
    | Insert(b: nat)
    | LockOwn(b: nat)
    | UnlockInsert(b: nat)
    | Test(b: nat)
    | Block(b: nat)
    | Spurious(b: nat)          // a wake-up nobody asked for
    | Relock(b: nat)
    | LockErase(b: nat)
    | Erase(b: nat)
    | Begin(w: nat, task: Task)
    | LockShared(w: nat)
    | Mark(w: nat, b: nat)
    | BeginCheck(w: nat)
    | ReadUnit(w: nat, h: nat)
    | PublishOne(w: nat)
    | Visit(w: nat, b: nat)
    | LockBatch(w: nat)
    | PopOne(w: nat)
    | BeginClear(w: nat)
    | LockExclusive(w: nat)
    | ForceOne(w: nat, b: nat)
    | Leave(w: nat)

  function WorkerAt(s: State, w: nat): WorkerPc {
    if w in s.workers then s.workers[w] else Idle
  }

  predicate At(s: State, b: nat, pc: BrokerPc) {
    b in s.jobs && s.jobs[b].pc == pc
  }

  predicate Free(s: State) {
    s.writer == None && s.readers == {}
  }

  function Actor(a: Action): Tid {
    match a
    case Arrive(b, _, _) => Broker(b)
    case LockInsert(b) => Broker(b)
    case Insert(b) => Broker(b)
    case LockOwn(b) => Broker(b)
    case UnlockInsert(b) => Broker(b)
    case Test(b) => Broker(b)
    case Block(b) => Broker(b)
    case Spurious(b) => Broker(b)
    case Relock(b) => Broker(b)
    case LockErase(b) => Broker(b)
    case Erase(b) => Broker(b)
    case Begin(w, _) => Worker(w)
    case LockShared(w) => Worker(w)
    case Mark(w, _) => Worker(w)
    case BeginCheck(w) => Worker(w)
    case ReadUnit(w, _) => Worker(w)
    case PublishOne(w) => Worker(w)
    case Visit(w, _) => Worker(w)
    case LockBatch(w) => Worker(w)
    case PopOne(w) => Worker(w)
    case BeginClear(w) => Worker(w)
    case LockExclusive(w) => Worker(w)
    case ForceOne(w, _) => Worker(w)
    case Leave(w) => Worker(w)
  }

  predicate Enabled(s: State, a: Action) {
    match a
    case Arrive(b, _, _) => b !in s.jobs
    case LockInsert(b) => At(s, b, WantInsert) && Free(s)
    case Insert(b) => At(s, b, Inserting)
    case LockOwn(b) => At(s, b, WantOwn) && b !in s.owner
    case UnlockInsert(b) => At(s, b, Owning)
    case Test(b) => At(s, b, Testing)
    case Block(b) => At(s, b, Deciding)
    case Spurious(b) => At(s, b, Blocked)
    case Relock(b) => At(s, b, Woken) && b !in s.owner
    case LockErase(b) => At(s, b, WantErase) && Free(s)
    case Erase(b) => At(s, b, Erasing)
    case Begin(w, _) => WorkerAt(s, w) == Idle
    case LockShared(w) => WorkerAt(s, w).WantShared? && s.writer == None
    case Mark(w, b) =>
      var pc := WorkerAt(s, w);
      pc.Scanning? && pc.task.Tell? && b in pc.todo && b in s.jobs
    case BeginCheck(w) => WorkerAt(s, w).Marked? && WorkerAt(s, w).batch in s.jobs
    case ReadUnit(w, h) =>
      var pc := WorkerAt(s, w);
      pc.Checking? && pc.batch in s.jobs && h in pc.left
    case PublishOne(w) =>
      var pc := WorkerAt(s, w);
      pc.Checking? && pc.batch in s.jobs && pc.left == {}
    case Visit(w, b) =>
      var pc := WorkerAt(s, w);
      pc.Scanning? && pc.task.Fetch? && b in pc.todo
    case LockBatch(w) => WorkerAt(s, w).WantBatch? && WorkerAt(s, w).batch !in s.owner
    case PopOne(w) => WorkerAt(s, w).InBatch? && WorkerAt(s, w).batch in s.jobs
    case BeginClear(w) => WorkerAt(s, w) == Idle
    case LockExclusive(w) => WorkerAt(s, w) == WantExclusive && Free(s)
    case ForceOne(w, b) =>
      var pc := WorkerAt(s, w);
      pc.Clearing? && b in pc.todo && b in s.jobs
    case Leave(w) =>
      var pc := WorkerAt(s, w);
      pc.Got? || (pc.Scanning? && pc.todo == {}) || (pc.Clearing? && pc.todo == {})
  }

  function SetBroker(s: State, b: nat, pc: BrokerPc): State
    requires b in s.jobs
  {
    s.(jobs := s.jobs[b := s.jobs[b].(pc := pc)])
  }

  function SetWorker(s: State, w: nat, pc: WorkerPc): State {
    s.(workers := s.workers[w := pc])
  }

  /** An operation on the batch of b; notify_all moves a blocked broker thread on. */
  function Operate(s: State, b: nat, op: Op, notify: bool): State
    requires b in s.jobs
  {
    var j := s.jobs[b];
    s.(jobs := s.jobs[b := j.(batch := Apply(j.batch, op), ops := j.ops + [op],
                              pc := if notify && j.pc == Blocked then Woken else j.pc)])
  }

  /** The units of a batch, as triggerCheck's loop visits them. */
  function UnitsOf(b: Batch): set<nat> {
    set h: nat | h in Handles(|b.units|)
  }

  function BrokerNext(s: State, a: Action): State
    requires Enabled(s, a) && Actor(a).Broker?
  {
    match a
    case Arrive(b, msgs, group) =>
      s.(jobs := s.jobs[b := Job(WantInsert, msgs, group, Create(msgs, group), [])])
    case LockInsert(b) => SetBroker(s, b, Inserting).(writer := Some(Broker(b)))
    case Insert(b) => SetBroker(s, b, WantOwn).(lockers := s.lockers + {b})
    case LockOwn(b) => SetBroker(s, b, Owning).(owner := s.owner[b := Broker(b)])
    case UnlockInsert(b) => SetBroker(s, b, Testing).(writer := None)
    case Test(b) =>
      if s.jobs[b].batch.released then SetBroker(s, b, WantErase).(owner := s.owner - {b})
      else SetBroker(s, b, Deciding)
    case Block(b) => SetBroker(s, b, Blocked).(owner := s.owner - {b})
    case Spurious(b) => SetBroker(s, b, Woken)
    case Relock(b) => SetBroker(s, b, Testing).(owner := s.owner[b := Broker(b)])
    case LockErase(b) => SetBroker(s, b, Erasing).(writer := Some(Broker(b)))
    case Erase(b) => SetBroker(s, b, Done).(lockers := s.lockers - {b}, writer := None)
    case _ => s
  }

  function WorkerNext(s: State, a: Action): State
    requires Enabled(s, a) && Actor(a).Worker?
  {
    match a
    case Begin(w, task) => SetWorker(s, w, WantShared(task))
    case LockShared(w) =>
      SetWorker(s, w, Scanning(WorkerAt(s, w).task, s.lockers)).(readers := s.readers + {w})
    case Mark(w, b) =>
      var pc := WorkerAt(s, w);
      SetWorker(Operate(s, b, SetMsg(pc.task.id, pc.task.s), false), w, Marked(pc.task, b, pc.todo - {b}))
    case BeginCheck(w) =>
      var pc := WorkerAt(s, w);
      var b := s.jobs[pc.batch].batch;
      SetWorker(s, w, if b.fetched != [] then Scanning(pc.task, pc.todo)
                      else Checking(pc.task, pc.batch, pc.todo, UnitsOf(b), CONSUME_SUCCESS))
    case ReadUnit(w, h) =>
      var pc := WorkerAt(s, w);
      SetWorker(s, w, AfterRead(pc, s.jobs[pc.batch].batch, h))
    case PublishOne(w) =>
      var pc := WorkerAt(s, w);
      SetWorker(Operate(s, pc.batch, Publish(pc.verdict), true), w, Scanning(pc.task, pc.todo))
    case Visit(w, b) => SetWorker(s, w, WantBatch(b, WorkerAt(s, w).todo - {b}))
    case LockBatch(w) =>
      var pc := WorkerAt(s, w);
      SetWorker(s, w, InBatch(pc.batch, pc.todo)).(owner := s.owner[pc.batch := Worker(w)])
    case PopOne(w) =>
      var pc := WorkerAt(s, w);
      var q := s.jobs[pc.batch].batch.fetched;
      var r := s.(owner := s.owner - {pc.batch});
      if q == [] then SetWorker(r, w, Scanning(Fetch, pc.todo))
      else SetWorker(Operate(r, pc.batch, GetMsg, false), w, Got(pc.batch, q[0]))
           .(deliveries := s.deliveries + [Delivery(w, pc.batch, q[0])])
    case BeginClear(w) => SetWorker(s, w, WantExclusive)
    case LockExclusive(w) => SetWorker(s, w, Clearing(s.lockers)).(writer := Some(Worker(w)))
    case ForceOne(w, b) =>
      SetWorker(Operate(s, b, ForceMsg, true), w, Clearing(WorkerAt(s, w).todo - {b}))
    case Leave(w) =>
      var r := SetWorker(s, w, Idle);
      if WorkerAt(s, w).Clearing? then r.(writer := None) else r.(readers := s.readers - {w})
    case _ => s
  }

  /** One turn of triggerCheck's loop: an unacknowledged unit ends it, and nothing is published. */
  function AfterRead(pc: WorkerPc, b: Batch, h: nat): WorkerPc
    requires pc.Checking?
  {
    if h !in b.client || b.client[h] != MsgConsumeAck then Scanning(pc.task, pc.todo)
    else pc.(left := pc.left - {h},
             verdict := if h in b.statuses && b.statuses[h] == RECONSUME_LATER then RECONSUME_LATER else pc.verdict)
  }

  function Next(s: State, a: Action): State
    requires Enabled(s, a)
  {
    match Actor(a)
    case Broker(_) => BrokerNext(s, a)
    case Worker(_) => WorkerNext(s, a)
  }

  /** The state after a run from the empty state, if each action is enabled when its turn comes. */
  function Exec(acts: seq<Action>): Option<State> {
    if acts == [] then Some(INIT)
    else match Exec(acts[..|acts| - 1])
      case Some(s) => if Enabled(s, acts[|acts| - 1]) then Some(Next(s, acts[|acts| - 1])) else None
      case None => None
  }

  // ---------------------------------------------------------------------------
  // Who holds what, read off the program counters
  // ---------------------------------------------------------------------------

  predicate HoldsExclusive(pc: BrokerPc) {
    pc in {Inserting, WantOwn, Owning, Erasing}
  }

  predicate HoldsMutex(pc: BrokerPc) {
    pc in {Owning, Testing, Deciding}
  }

  predicate Registered(pc: BrokerPc) {
    pc !in {WantInsert, Inserting, Done}
  }

  predicate HoldsShared(pc: WorkerPc) {
    pc.Scanning? || pc.Marked? || pc.Checking? || pc.WantBatch? || pc.InBatch? || pc.Got?
  }

  /** Batches a worker still has an iterator to. */
  function Reach(pc: WorkerPc): set<nat> {
    match pc
    case Scanning(_, todo) => todo
    case Marked(_, b, todo) => todo + {b}
    case Checking(_, b, todo, _, _) => todo + {b}
    case WantBatch(b, todo) => todo + {b}
    case InBatch(b, todo) => todo + {b}
    case Clearing(todo) => todo
    case _ => {}
  }
}
