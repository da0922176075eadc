/** What holds in every state of every run of the lock protocol. */
module LockSafety {
  import opened BatchModel
  import opened Options
  import opened LockProtocol

  /** The locks a broker thread holds are those its program counter says. */
  ghost predicate BrokerOk(s: State, b: nat) {
    if b in s.jobs then
      var pc := s.jobs[b].pc;
      && (HoldsExclusive(pc) <==> s.writer == Some(Broker(b)))
      && (HoldsMutex(pc) <==> b in s.owner && s.owner[b] == Broker(b))
      && (Registered(pc) <==> b in s.lockers)
    else
      s.writer != Some(Broker(b)) && b !in s.lockers && b !in s.owner
  }

  ghost predicate WorkerOk(s: State, w: nat) {
    var pc := WorkerAt(s, w);
    && (HoldsShared(pc) <==> w in s.readers)
    && (pc.Clearing? <==> s.writer == Some(Worker(w)))
    && (pc.InBatch? ==> pc.batch in s.owner && s.owner[pc.batch] == Worker(w))
    && Reach(pc) <= s.lockers
  }

  ghost predicate OwnerOk(s: State, b: nat) {
    b in s.owner ==>
      match s.owner[b]
      case Broker(c) => c == b
      case Worker(w) => WorkerAt(s, w).InBatch? && WorkerAt(s, w).batch == b
  }

  ghost predicate Locks(s: State) {
    && (forall b :: BrokerOk(s, b))
    && (forall w :: WorkerOk(s, w))
    && (forall b :: OwnerOk(s, b))
    && (s.writer != None ==> s.readers == {})
  }

  lemma BrokerMovesItself(s: State, a: Action, b: nat)
    requires Enabled(s, a) && Actor(a) == Broker(b) && BrokerOk(s, b) && OwnerOk(s, b)
    ensures BrokerOk(BrokerNext(s, a), b) && OwnerOk(BrokerNext(s, a), b)
  {
    hide Create;
  }

  lemma BrokerMovesOther(s: State, a: Action, b: nat)
    requires Enabled(s, a) && Actor(a).Broker? && Actor(a) != Broker(b)
    requires BrokerOk(s, b) && OwnerOk(s, b) && BrokerOk(s, Actor(a).batch)
    ensures BrokerOk(BrokerNext(s, a), b) && OwnerOk(BrokerNext(s, a), b)
  {
    hide Create, BrokerNext, HoldsExclusive, HoldsMutex, Registered;
    BrokerLeavesOther(s, a, b);
  }

  /** A broker thread's step leaves the other jobs as they are. */
  lemma BrokerLeavesOther(s: State, a: Action, b: nat)
    requires Enabled(s, a) && Actor(a).Broker? && Actor(a) != Broker(b) && BrokerOk(s, Actor(a).batch)
    ensures var t := BrokerNext(s, a);
      && (b in t.jobs <==> b in s.jobs) && (b in s.jobs ==> t.jobs[b] == s.jobs[b])
      && (t.writer == Some(Broker(b)) <==> s.writer == Some(Broker(b)))
      && (b in t.owner <==> b in s.owner) && (b in s.owner ==> t.owner[b] == s.owner[b])
      && (b in t.lockers <==> b in s.lockers) && t.workers == s.workers
  {
    hide Create;
  }

  /** A broker thread's step leaves every worker where it is, with the locks and batches it has. */
  lemma BrokerMovesWorker(s: State, a: Action, w: nat)
    requires Enabled(s, a) && Actor(a).Broker?
    requires WorkerOk(s, w) && BrokerOk(s, Actor(a).batch) && OwnerOk(s, Actor(a).batch)
    requires s.writer != None ==> s.readers == {}
    ensures WorkerOk(BrokerNext(s, a), w)
  {
    assert WorkerAt(BrokerNext(s, a), w) == WorkerAt(s, w);
  }

  lemma BrokerLocksStep(s: State, a: Action)
    requires Locks(s) && Enabled(s, a) && Actor(a).Broker?
    ensures Locks(Next(s, a))
  {
    var t, b0 := BrokerNext(s, a), Actor(a).batch;
    assert t == Next(s, a) && BrokerOk(s, b0) && OwnerOk(s, b0);
    assert t.writer != None ==> t.readers == {};
    hide BrokerOk, OwnerOk, WorkerOk, Next, BrokerNext, Enabled;
    forall b ensures BrokerOk(t, b) && OwnerOk(t, b) {
      if b == b0 { BrokerMovesItself(s, a, b); } else { BrokerMovesOther(s, a, b); }
    }
    forall w ensures WorkerOk(t, w) {
      BrokerMovesWorker(s, a, w);
    }
  }

  lemma WorkerMovesBroker(s: State, a: Action, b: nat)
    requires Enabled(s, a) && Actor(a).Worker? && BrokerOk(s, b) && OwnerOk(s, b)
    requires WorkerOk(s, Actor(a).worker)
    ensures BrokerOk(WorkerNext(s, a), b)
  {
    hide Apply, UnitsOf, AfterRead;
  }

  lemma WorkerMovesOwner(s: State, a: Action, b: nat)
    requires Enabled(s, a) && Actor(a).Worker? && OwnerOk(s, b) && WorkerOk(s, Actor(a).worker)
    ensures OwnerOk(WorkerNext(s, a), b)
  {
  }

  lemma WorkerMovesItself(s: State, a: Action, w: nat)
    requires Enabled(s, a) && Actor(a) == Worker(w) && WorkerOk(s, w)
    requires s.writer != None ==> s.readers == {}
    ensures WorkerOk(WorkerNext(s, a), w)
  {
  }

  lemma WorkerMovesOther(s: State, a: Action, w: nat)
    requires Enabled(s, a) && Actor(a).Worker? && Actor(a) != Worker(w)
    requires WorkerOk(s, w) && WorkerOk(s, Actor(a).worker)
    requires WorkerAt(s, w).InBatch? ==> OwnerOk(s, WorkerAt(s, w).batch)
    requires s.writer != None ==> s.readers == {}
    ensures WorkerOk(WorkerNext(s, a), w)
  {
    assert WorkerAt(WorkerNext(s, a), w) == WorkerAt(s, w);
  }

  lemma WorkerLocksStep(s: State, a: Action)
    requires Locks(s) && Enabled(s, a) && Actor(a).Worker?
    ensures Locks(Next(s, a))
  {
    var t, w0 := WorkerNext(s, a), Actor(a).worker;
    assert t == Next(s, a) && WorkerOk(s, w0);
    WorkerLeavesWriter(s, a);
    hide BrokerOk, OwnerOk, WorkerOk, Next, WorkerNext, Enabled;
    forall b ensures BrokerOk(t, b) && OwnerOk(t, b) {
      WorkerMovesBroker(s, a, b);
      WorkerMovesOwner(s, a, b);
    }
    forall w ensures WorkerOk(t, w) {
      if w == w0 { WorkerMovesItself(s, a, w); } else { WorkerMovesOther(s, a, w); }
    }
  }

  lemma WorkerLeavesWriter(s: State, a: Action)
    requires Enabled(s, a) && Actor(a).Worker? && WorkerOk(s, Actor(a).worker)
    requires s.writer != None ==> s.readers == {}
    ensures WorkerNext(s, a).writer != None ==> WorkerNext(s, a).readers == {}
  {
  }

  lemma {:induction false} LocksAlways(acts: seq<Action>)
    requires Exec(acts).Some?
    ensures Locks(Exec(acts).value)
  {
    if acts != [] {
      var init, a := acts[..|acts| - 1], acts[|acts| - 1];
      LocksAlways(init);
      if Actor(a).Broker? {
        BrokerLocksStep(Exec(init).value, a);
      } else {
        WorkerLocksStep(Exec(init).value, a);
      }
    }
  }

  // ---------------------------------------------------------------------------
  // Lock order and deadlock freedom
  // ---------------------------------------------------------------------------

  predicate WaitsForLockers(s: State, t: Tid) {
    match t
    case Broker(b) => At(s, b, WantInsert) || At(s, b, WantErase)
    case Worker(w) => WorkerAt(s, w).WantShared? || WorkerAt(s, w).WantExclusive?
  }

  predicate WaitsForMutex(s: State, t: Tid) {
    match t
    case Broker(b) => At(s, b, WantOwn) || At(s, b, Woken)
    case Worker(w) => WorkerAt(s, w).WantBatch?
  }

  ghost predicate HoldsLock(s: State, t: Tid) {
    || s.writer == Some(t)
    || (t.Worker? && t.worker in s.readers)
    || exists b :: b in s.owner && s.owner[b] == t
  }

  /** A thread that holds a batch mutex never waits for lockersMtx, nor for another mutex. */
  lemma OwnerNeverWaits(acts: seq<Action>, b: nat)
    requires Exec(acts).Some?
    ensures var s := Exec(acts).value;
      b in s.owner ==> !WaitsForLockers(s, s.owner[b]) && !WaitsForMutex(s, s.owner[b])
  {
    LocksAlways(acts);
    var s := Exec(acts).value;
    assert OwnerOk(s, b) && BrokerOk(s, b);
  }

  lemma OwnerMoves(s: State, b: nat) returns (a: Action)
    requires Locks(s) && b in s.owner
    ensures Enabled(s, a) && Actor(a) == s.owner[b]
  {
    assert OwnerOk(s, b) && BrokerOk(s, b);
    match s.owner[b]
    case Broker(_) =>
      a := match s.jobs[b].pc case Owning => UnlockInsert(b) case Testing => Test(b) case _ => Block(b);
    case Worker(w) =>
      assert WorkerOk(s, w);
      a := PopOne(w);
  }

  /** Whoever holds lockersMtx can step, or waits for a mutex whose holder can. */
  lemma LockersHolderMoves(s: State, t: Tid) returns (a: Action)
    requires Locks(s) && (s.writer == Some(t) || (t.Worker? && t.worker in s.readers))
    ensures Enabled(s, a) && HoldsLock(s, Actor(a))
  {
    match t
    case Broker(b) =>
      assert BrokerOk(s, b);
      match s.jobs[b].pc {
        case Inserting => a := Insert(b);
        case WantOwn =>
          if b in s.owner { a := OwnerMoves(s, b); } else { a := LockOwn(b); }
        case Owning => a := UnlockInsert(b);
        case _ => a := Erase(b);
      }
    case Worker(w) =>
      assert WorkerOk(s, w);
      match WorkerAt(s, w) {
        case Scanning(task, todo) =>
          if todo == {} {
            a := Leave(w);
          } else {
            var b :| b in todo;
            assert BrokerOk(s, b);
            a := if task.Tell? then Mark(w, b) else Visit(w, b);
          }
        case Marked(_, b, _) => assert BrokerOk(s, b); a := BeginCheck(w);
        case Checking(_, b, _, left, _) =>
          assert BrokerOk(s, b);
          if left == {} {
            a := PublishOne(w);
          } else {
            var h :| h in left;
            a := ReadUnit(w, h);
          }
        case WantBatch(b, _) =>
          if b in s.owner { a := OwnerMoves(s, b); } else { a := LockBatch(w); }
        case InBatch(b, _) => assert BrokerOk(s, b); a := PopOne(w);
        case Clearing(todo) =>
          if todo == {} {
            a := Leave(w);
          } else {
            var b :| b in todo;
            assert BrokerOk(s, b);
            a := ForceOne(w, b);
          }
        case _ => a := Leave(w);
      }
  }

  /**
   * No deadlock: whenever a thread waits for lockersMtx or for a batch mutex, either it can take
   * it now or some thread that holds a lock can step.
   */
  lemma DeadlockFree(acts: seq<Action>, t: Tid) returns (a: Action)
    requires Exec(acts).Some?
    requires WaitsForLockers(Exec(acts).value, t) || WaitsForMutex(Exec(acts).value, t)
    ensures var s := Exec(acts).value;
      Enabled(s, a) && (Actor(a) == t || HoldsLock(s, Actor(a)))
  {
    LocksAlways(acts);
    var s := Exec(acts).value;
    if WaitsForMutex(s, t) {
      match t
      case Broker(b) =>
        if b in s.owner { a := OwnerMoves(s, b); }
        else { a := if At(s, b, WantOwn) then LockOwn(b) else Relock(b); }
      case Worker(w) =>
        var b := WorkerAt(s, w).batch;
        if b in s.owner { a := OwnerMoves(s, b); } else { a := LockBatch(w); }
    } else if s.writer.Some? {
      a := LockersHolderMoves(s, s.writer.value);
    } else if w :| w in s.readers {
      a := LockersHolderMoves(s, Worker(w));
    } else {
      match t
      case Broker(b) => a := if At(s, b, WantInsert) then LockInsert(b) else LockErase(b);
      case Worker(w) => a := if WorkerAt(s, w).WantShared? then LockShared(w) else LockExclusive(w);
    }
  }

  /** How many steps of its own a broker thread takes before it holds no lock. */
  function BrokerSteps(pc: BrokerPc): nat {
    match pc
    case Inserting => 5
    case WantOwn => 4
    case Owning => 3
    case Testing => 2
    case Deciding => 1
    case Erasing => 1
    case _ => 0
  }

  /** Steps a thread may need for one batch: to mark it, to begin the check, one a unit, and to publish. */
  function BatchSteps(jobs: map<nat, Job>, b: nat): nat {
    if b in jobs then |jobs[b].batch.units| + 3 else 3
  }

  ghost function ScanSteps(jobs: map<nat, Job>, todo: set<nat>): nat {
    if todo == {} then 0
    else var b :| b in todo; BatchSteps(jobs, b) + ScanSteps(jobs, todo - {b})
  }

  lemma {:induction false} ScanOne(jobs: map<nat, Job>, todo: set<nat>, b: nat)
    requires b in todo
    ensures ScanSteps(jobs, todo) == BatchSteps(jobs, b) + ScanSteps(jobs, todo - {b})
    decreases todo
  {
    var c :| c in todo && ScanSteps(jobs, todo) == BatchSteps(jobs, c) + ScanSteps(jobs, todo - {c});
    if c != b {
      ScanOne(jobs, todo - {c}, b);
      ScanOne(jobs, todo - {b}, c);
      assert todo - {c} - {b} == todo - {b} - {c};
    }
  }

  lemma {:induction false} ScanSame(jobs: map<nat, Job>, more: map<nat, Job>, todo: set<nat>)
    requires forall b :: b in todo ==> BatchSteps(more, b) == BatchSteps(jobs, b)
    ensures ScanSteps(more, todo) == ScanSteps(jobs, todo)
    decreases todo
  {
    if todo != {} {
      var b :| b in todo;
      ScanSame(jobs, more, todo - {b});
      ScanOne(jobs, todo, b);
      ScanOne(more, todo, b);
    }
  }

  ghost function WorkerSteps(jobs: map<nat, Job>, pc: WorkerPc): nat {
    match pc
    case Scanning(_, todo) => ScanSteps(jobs, todo) + 1
    case Marked(_, b, todo) => ScanSteps(jobs, todo) + BatchSteps(jobs, b)
    case Checking(_, b, todo, left, _) => ScanSteps(jobs, todo) + |left| + 2
    case WantBatch(_, todo) => ScanSteps(jobs, todo) + 3
    case InBatch(_, todo) => ScanSteps(jobs, todo) + 2
    case Got(_, _) => 1
    case Clearing(todo) => |todo| + 1
    case _ => 0
  }

  ghost function StepsToRelease(s: State, t: Tid): nat {
    match t
    case Broker(b) => if b in s.jobs then BrokerSteps(s.jobs[b].pc) else 0
    case Worker(w) => WorkerSteps(s.jobs, WorkerAt(s, w))
  }

  lemma HolderHasSteps(s: State, t: Tid)
    requires Locks(s) && HoldsLock(s, t)
    ensures StepsToRelease(s, t) > 0
  {
    match t {
      case Broker(b) =>
        assert BrokerOk(s, b);
        if c :| c in s.owner && s.owner[c] == t { assert OwnerOk(s, c); }
      case Worker(w) =>
        assert WorkerOk(s, w);
        if c :| c in s.owner && s.owner[c] == t { assert OwnerOk(s, c); }
    }
  }

  lemma Fewer(todo: set<nat>, b: nat)
    requires b in todo
    ensures |todo| == |todo - {b}| + 1
  {
    assert todo == (todo - {b}) + {b};
  }

  lemma {:induction false} UnitCount(n: nat, units: set<nat>)
    requires forall h: nat :: h in units <==> h < n
    ensures |units| == n
    decreases n
  {
    if n == 0 {
      assert units == {};
    } else {
      UnitCount(n - 1, units - {n - 1});
      Fewer(units, n - 1);
    }
  }

  /** No step changes the units of a batch, and batches do not vanish. */
  lemma SizesKept(s: State, a: Action, b: nat)
    requires Enabled(s, a) && b in s.jobs
    ensures b in Next(s, a).jobs && BatchSteps(Next(s, a).jobs, b) == BatchSteps(s.jobs, b)
  {
    match Actor(a)
    case Broker(_) => BrokerKeepsSize(s, a, b);
    case Worker(_) => WorkerKeepsSize(s, a, b);
  }

  lemma BrokerKeepsSize(s: State, a: Action, b: nat)
    requires Enabled(s, a) && b in s.jobs && Actor(a).Broker?
    ensures b in BrokerNext(s, a).jobs && BrokerNext(s, a).jobs[b].batch.units == s.jobs[b].batch.units
  {
    hide Create;
  }

  lemma WorkerKeepsSize(s: State, a: Action, b: nat)
    requires Enabled(s, a) && b in s.jobs && Actor(a).Worker?
    ensures b in WorkerNext(s, a).jobs && WorkerNext(s, a).jobs[b].batch.units == s.jobs[b].batch.units
  {
    hide Apply, UnitsOf, AfterRead;
  }

  lemma BrokerStepNearer(s: State, a: Action, b: nat)
    requires Enabled(s, a) && Actor(a) == Broker(b) && b in s.jobs && BrokerSteps(s.jobs[b].pc) > 0
    ensures BrokerSteps(BrokerNext(s, a).jobs[b].pc) < BrokerSteps(s.jobs[b].pc)
  {
  }

  /** A worker that has finished with the batch it was at needs fewer steps than before. */
  lemma ChoiceNearer(jobs: map<nat, Job>, todo: set<nat>, b: nat)
    requires b in todo
    ensures ScanSteps(jobs, todo) + 1 > ScanSteps(jobs, todo - {b}) + BatchSteps(jobs, b)
    ensures BatchSteps(jobs, b) >= 3
  {
    ScanOne(jobs, todo, b);
  }

  /** A worker's own step inside triggerCheck, its batches taken as they were before it. */
  lemma CheckNearer(s: State, a: Action, w: nat)
    requires Enabled(s, a) && Actor(a) == Worker(w) && (a.BeginCheck? || a.ReadUnit? || a.PublishOne?)
    ensures WorkerSteps(s.jobs, WorkerAt(WorkerNext(s, a), w)) < WorkerSteps(s.jobs, WorkerAt(s, w))
  {
    hide Apply, ScanSteps;
    var pc := WorkerAt(s, w);
    match a
    case BeginCheck(_) => UnitCount(|s.jobs[pc.batch].batch.units|, UnitsOf(s.jobs[pc.batch].batch));
    case ReadUnit(_, h) => Fewer(pc.left, h);
    case _ =>
  }

  lemma OwnStepNearer(s: State, a: Action, w: nat)
    requires Enabled(s, a) && Actor(a) == Worker(w) && WorkerSteps(s.jobs, WorkerAt(s, w)) > 0
    ensures WorkerSteps(s.jobs, WorkerAt(WorkerNext(s, a), w)) < WorkerSteps(s.jobs, WorkerAt(s, w))
  {
    hide WorkerNext, Enabled, WorkerSteps;
    match a
    case BeginCheck(_) => CheckNearer(s, a, w);
    case ReadUnit(_, _) => CheckNearer(s, a, w);
    case PublishOne(_) => CheckNearer(s, a, w);
    case Mark(_, _) => PickNearer(s, a, w);
    case Visit(_, _) => PickNearer(s, a, w);
    case ForceOne(_, _) => PickNearer(s, a, w);
    case _ => PlainNearer(s, a, w);
  }

  lemma PickNearer(s: State, a: Action, w: nat)
    requires Enabled(s, a) && Actor(a) == Worker(w) && (a.Mark? || a.Visit? || a.ForceOne?)
    ensures WorkerSteps(s.jobs, WorkerAt(WorkerNext(s, a), w)) < WorkerSteps(s.jobs, WorkerAt(s, w))
  {
    hide Apply, ScanSteps;
    var pc := WorkerAt(s, w);
    if a.ForceOne? { Fewer(pc.todo, a.b); } else { ChoiceNearer(s.jobs, pc.todo, a.b); }
  }

  lemma PlainNearer(s: State, a: Action, w: nat)
    requires Enabled(s, a) && Actor(a) == Worker(w) && WorkerSteps(s.jobs, WorkerAt(s, w)) > 0
    requires !a.BeginCheck? && !a.ReadUnit? && !a.PublishOne? && !a.Mark? && !a.Visit? && !a.ForceOne?
    ensures WorkerSteps(s.jobs, WorkerAt(WorkerNext(s, a), w)) < WorkerSteps(s.jobs, WorkerAt(s, w))
  {
    hide Apply, ScanSteps, UnitsOf, AfterRead;
  }

  lemma StepsSame(s: State, a: Action, pc: WorkerPc)
    requires Locks(s) && Enabled(s, a) && Reach(pc) <= s.lockers
    ensures WorkerSteps(Next(s, a).jobs, pc) == WorkerSteps(s.jobs, pc)
  {
    hide Next;
    forall b | b in Reach(pc) ensures BatchSteps(Next(s, a).jobs, b) == BatchSteps(s.jobs, b) {
      assert BrokerOk(s, b);
      SizesKept(s, a, b);
    }
    hide Locks;
    match pc
    case Scanning(_, todo) => ScanSame(s.jobs, Next(s, a).jobs, todo);
    case Marked(_, b, todo) => ScanSame(s.jobs, Next(s, a).jobs, todo);
    case Checking(_, _, todo, _, _) => ScanSame(s.jobs, Next(s, a).jobs, todo);
    case WantBatch(_, todo) => ScanSame(s.jobs, Next(s, a).jobs, todo);
    case InBatch(_, todo) => ScanSame(s.jobs, Next(s, a).jobs, todo);
    case _ =>
  }

  lemma OtherStepSame(s: State, a: Action, t: Tid)
    requires Locks(s) && Enabled(s, a) && StepsToRelease(s, t) > 0 && Actor(a) != t
    ensures StepsToRelease(Next(s, a), t) == StepsToRelease(s, t)
  {
    hide Next;
    OtherStays(s, a, t);
    match t
    case Broker(b) =>
    case Worker(w) =>
      assert WorkerOk(s, w);
      StepsSame(s, a, WorkerAt(s, w));
  }

  lemma OtherStays(s: State, a: Action, t: Tid)
    requires Enabled(s, a) && Actor(a) != t
    ensures t.Worker? ==> WorkerAt(Next(s, a), t.worker) == WorkerAt(s, t.worker)
    ensures t.Broker? && t.batch in s.jobs && s.jobs[t.batch].pc != Blocked ==>
              t.batch in Next(s, a).jobs && Next(s, a).jobs[t.batch].pc == s.jobs[t.batch].pc
  {
    match Actor(a)
    case Broker(_) => BrokerLeaves(s, a, t);
    case Worker(_) => WorkerLeaves(s, a, t);
  }

  lemma BrokerLeaves(s: State, a: Action, t: Tid)
    requires Enabled(s, a) && Actor(a) != t && Actor(a).Broker?
    ensures BrokerNext(s, a).workers == s.workers
    ensures t.Broker? && t.batch in s.jobs ==>
              t.batch in BrokerNext(s, a).jobs && BrokerNext(s, a).jobs[t.batch] == s.jobs[t.batch]
  {
    hide Create;
  }

  lemma WorkerLeaves(s: State, a: Action, t: Tid)
    requires Enabled(s, a) && Actor(a) != t && Actor(a).Worker?
    ensures t.Worker? ==> WorkerAt(WorkerNext(s, a), t.worker) == WorkerAt(s, t.worker)
    ensures t.Broker? && t.batch in s.jobs ==>
              && t.batch in WorkerNext(s, a).jobs
              && (s.jobs[t.batch].pc != Blocked ==> WorkerNext(s, a).jobs[t.batch].pc == s.jobs[t.batch].pc)
  {
    hide Apply, UnitsOf, AfterRead;
  }

  lemma WorkerStepNearer(s: State, a: Action, w: nat)
    requires Locks(s) && Enabled(s, a) && Actor(a) == Worker(w) && StepsToRelease(s, Worker(w)) > 0
    ensures StepsToRelease(Next(s, a), Worker(w)) < StepsToRelease(s, Worker(w))
  {
    OwnStepNearer(s, a, w);
    assert WorkerOk(s, w) && Next(s, a) == WorkerNext(s, a);
    ReachShrinks(s, a, w);
    StepsSame(s, a, WorkerAt(Next(s, a), w));
  }

  lemma ReachShrinks(s: State, a: Action, w: nat)
    requires Enabled(s, a) && Actor(a) == Worker(w) && WorkerOk(s, w) && HoldsLock(s, Worker(w))
    ensures Reach(WorkerAt(WorkerNext(s, a), w)) <= s.lockers
  {
  }

  /** Every step of a lock holder brings its release nearer, and no other thread's step puts it off. */
  lemma HoldingIsBounded(acts: seq<Action>, a: Action, t: Tid)
    requires Exec(acts).Some? && Enabled(Exec(acts).value, a)
    requires HoldsLock(Exec(acts).value, t)
    ensures var s := Exec(acts).value;
      && StepsToRelease(s, t) > 0
      && (Actor(a) == t ==> StepsToRelease(Next(s, a), t) < StepsToRelease(s, t))
      && (Actor(a) != t ==> StepsToRelease(Next(s, a), t) == StepsToRelease(s, t))
  {
    LocksAlways(acts);
    var s := Exec(acts).value;
    HolderHasSteps(s, t);
    if Actor(a) != t {
      OtherStepSame(s, a, t);
    } else {
      match t
      case Broker(b) => BrokerStepNearer(s, a, b);
      case Worker(w) => WorkerStepNearer(s, a, w);
    }
  }
}
