/** What the locks buy: conservation of messages, release that is final, and no lost wake-up. */
module LockVerdicts {
  import opened BatchModel
  import opened Options
  import opened LockProtocol
  import opened LockSafety

  // ---------------------------------------------------------------------------
  // Every batch is what its history says, and deliveries account for the queue
  // ---------------------------------------------------------------------------

  /** The units of batch b in the order in which they were delivered. */
  function DeliveredOf(log: seq<Delivery>, b: nat): seq<int> {
    if log == [] then []
    else DeliveredOf(log[..|log| - 1], b) +
         if log[|log| - 1].batch == b then [log[|log| - 1].unit] else []
  }

  ghost predicate JobOk(s: State, b: nat) {
    b in s.jobs ==>
      var j := s.jobs[b];
      && j.batch == Replay(Create(j.msgs, j.group), j.ops)
      && DeliveredOf(s.deliveries, b) + j.batch.fetched == Range(0, |j.msgs|)
      && (j.pc in {WantErase, Erasing, Done} ==> j.batch.released)
  }

  lemma DeliverOne(log: seq<Delivery>, d: Delivery, b: nat)
    ensures DeliveredOf(log + [d], b) == DeliveredOf(log, b) + if d.batch == b then [d.unit] else []
  {
    assert (log + [d])[..|log|] == log;
  }

  lemma NoneDelivered(log: seq<Delivery>, b: nat)
    requires forall d :: d in log ==> d.batch != b
    ensures DeliveredOf(log, b) == []
  {
  }

  ghost predicate Histories(s: State) {
    && (forall b :: JobOk(s, b))
    && (forall d :: d in s.deliveries ==> d.batch in s.jobs)
  }

  /** What an action does to the data of batch b, if anything. */
  ghost function OpOn(s: State, a: Action, b: nat): Option<Op>
    requires Enabled(s, a)
  {
    match a
    case Mark(w, c) => if c == b then Some(SetMsg(WorkerAt(s, w).task.id, WorkerAt(s, w).task.s)) else None
    case PublishOne(w) => if WorkerAt(s, w).batch == b then Some(Publish(WorkerAt(s, w).verdict)) else None
    case PopOne(w) =>
      if WorkerAt(s, w).batch == b && s.jobs[b].batch.fetched != [] then Some(GetMsg) else None
    case ForceOne(_, c) => if c == b then Some(ForceMsg) else None
    case _ => None
  }

  ghost predicate Notifies(s: State, a: Action, b: nat)
    requires Enabled(s, a)
  {
    match OpOn(s, a, b)
    case Some(Publish(_)) => true
    case Some(ForceMsg) => true
    case _ => false
  }

  ghost predicate Traced(s: State, a: Action, b: nat, t: State)
    requires Enabled(s, a)
  {
    b in s.jobs && b in t.jobs &&
    var j, k := s.jobs[b], t.jobs[b];
    && k.msgs == j.msgs && k.group == j.group
    && match OpOn(s, a, b)
       case Some(op) =>
         k.batch == Apply(j.batch, op) && k.ops == j.ops + [op] &&
         k.pc == if Notifies(s, a, b) && j.pc == Blocked then Woken else j.pc
       case None => k.batch == j.batch && k.ops == j.ops
  }

  lemma BrokerFootprint(s: State, a: Action, b: nat)
    requires Enabled(s, a) && b in s.jobs && Actor(a).Broker?
    ensures Traced(s, a, b, BrokerNext(s, a))
  {
    hide Create, BrokerNext;
    match a
    case Arrive(_, _, _) => ArriveKeepsJob(s, a, b);
    case _ => BrokerKeepsBatch(s, a, b);
  }

  lemma ArriveKeepsJob(s: State, a: Action, b: nat)
    requires Enabled(s, a) && b in s.jobs && a.Arrive?
    ensures b in BrokerNext(s, a).jobs && BrokerNext(s, a).jobs[b] == s.jobs[b]
  {
  }

  lemma BrokerKeepsBatch(s: State, a: Action, b: nat)
    requires Enabled(s, a) && b in s.jobs && Actor(a).Broker? && !a.Arrive?
    ensures b in BrokerNext(s, a).jobs && BrokerNext(s, a).jobs[b] == s.jobs[b].(pc := BrokerNext(s, a).jobs[b].pc)
  {
    hide SetBroker;
    var b0, t := Actor(a).batch, BrokerNext(s, a);
    assert exists pc :: t.jobs == SetBroker(s, b0, pc).jobs;
    var pc :| t.jobs == SetBroker(s, b0, pc).jobs;
    OnlyThePc(s, b0, pc, b);
  }

  lemma OnlyThePc(s: State, b0: nat, pc: BrokerPc, b: nat)
    requires b0 in s.jobs && b in s.jobs
    ensures var t := SetBroker(s, b0, pc); b in t.jobs && t.jobs[b] == s.jobs[b].(pc := t.jobs[b].pc)
  {
  }

  lemma WorkerFootprint(s: State, a: Action, b: nat)
    requires Enabled(s, a) && b in s.jobs && Actor(a).Worker?
    ensures Traced(s, a, b, WorkerNext(s, a))
  {
    hide Apply, UnitsOf, AfterRead;
  }

  lemma Footprint(s: State, a: Action, b: nat)
    requires Enabled(s, a) && b in s.jobs
    ensures Traced(s, a, b, Next(s, a))
  {
    hide Traced, BrokerNext, WorkerNext;
    match Actor(a)
    case Broker(_) => BrokerFootprint(s, a, b);
    case Worker(_) => WorkerFootprint(s, a, b);
  }

  /** The unit an action delivers, if it delivers one. */
  ghost function DeliveryBy(s: State, a: Action): Option<Delivery>
    requires Enabled(s, a)
  {
    if a.PopOne? && s.jobs[WorkerAt(s, a.w).batch].batch.fetched != [] then
      var b := WorkerAt(s, a.w).batch;
      Some(Delivery(a.w, b, s.jobs[b].batch.fetched[0]))
    else None
  }

  lemma DeliveryFootprint(s: State, a: Action)
    requires Enabled(s, a)
    ensures Next(s, a).deliveries ==
      match DeliveryBy(s, a) case Some(d) => s.deliveries + [d] case None => s.deliveries
  {
  }

  lemma ApplyFrame(b: Batch, op: Op)
    ensures b.released ==> Apply(b, op).released
    ensures op != GetMsg ==> Apply(b, op).fetched == b.fetched
  {
  }

  lemma ReplayKept(s: State, a: Action, b: nat)
    requires JobOk(s, b) && Enabled(s, a) && b in s.jobs
    ensures b in Next(s, a).jobs && var k := Next(s, a).jobs[b]; k.batch == Replay(Create(k.msgs, k.group), k.ops)
  {
    hide Next;
    var j := s.jobs[b];
    Footprint(s, a, b);
    match OpOn(s, a, b)
    case Some(op) => ReplayOne(Create(j.msgs, j.group), j.ops, op);
    case None =>
  }

  /** A delivery to a client of a unit of b is the pop of b's queue, and the other way round. */
  lemma DeliveryIsPop(s: State, a: Action, b: nat)
    requires Enabled(s, a) && b in s.jobs
    ensures var q := s.jobs[b].batch.fetched;
      match DeliveryBy(s, a)
      case Some(d) =>
        if d.batch == b then OpOn(s, a, b) == Some(GetMsg) && q != [] && d.unit == q[0] else OpOn(s, a, b) == None
      case None => OpOn(s, a, b) != Some(GetMsg)
  {
  }

  lemma FetchedAfter(s: State, a: Action, b: nat)
    requires Enabled(s, a) && b in s.jobs
    ensures b in Next(s, a).jobs
    ensures var q, d := s.jobs[b].batch.fetched, DeliveryBy(s, a);
      Next(s, a).jobs[b].batch.fetched == if d.Some? && d.value.batch == b && q != [] then q[1..] else q
  {
    hide Next;
    Footprint(s, a, b);
    DeliveryIsPop(s, a, b);
    if OpOn(s, a, b).Some? { ApplyFrame(s.jobs[b].batch, OpOn(s, a, b).value); }
  }

  lemma ConservedStep(log: seq<Delivery>, q: seq<int>, all: seq<int>, b: nat, d: Option<Delivery>)
    requires DeliveredOf(log, b) + q == all
    requires d.Some? && d.value.batch == b ==> q != [] && d.value.unit == q[0]
    ensures DeliveredOf(match d case Some(v) => log + [v] case None => log, b)
            + (if d.Some? && d.value.batch == b then q[1..] else q) == all
  {
    if d.Some? {
      DeliverOne(log, d.value, b);
      if d.value.batch == b {
        assert [q[0]] + q[1..] == q;
      }
    }
  }

  lemma ConservationKept(s: State, a: Action, b: nat, t: State)
    requires JobOk(s, b) && Enabled(s, a) && b in s.jobs && t == Next(s, a)
    ensures b in t.jobs && DeliveredOf(t.deliveries, b) + t.jobs[b].batch.fetched == Range(0, |t.jobs[b].msgs|)
  {
    Footprint(s, a, b);
    DeliveryFootprint(s, a);
    DeliveryIsPop(s, a, b);
    FetchedAfter(s, a, b);
    ConservedStep(s.deliveries, s.jobs[b].batch.fetched, Range(0, |s.jobs[b].msgs|), b, DeliveryBy(s, a));
  }

  lemma ReleasedKept(s: State, a: Action, b: nat)
    requires JobOk(s, b) && Enabled(s, a) && b in s.jobs
    ensures b in Next(s, a).jobs
    ensures var k := Next(s, a).jobs[b]; k.pc in {WantErase, Erasing, Done} ==> k.batch.released
    ensures s.jobs[b].batch.released ==> Next(s, a).jobs[b].batch.released
  {
    hide Next, Apply, Create, DeliveredOf, Replay;
    Footprint(s, a, b);
    PassesReleased(s, a, b);
    if OpOn(s, a, b).Some? { ApplyFrame(s.jobs[b].batch, OpOn(s, a, b).value); }
  }

  /** A broker thread gets past its wait only by finding the batch released. */
  lemma PassesReleased(s: State, a: Action, b: nat)
    requires Enabled(s, a) && b in s.jobs && b in Next(s, a).jobs
    ensures Next(s, a).jobs[b].pc in {WantErase, Erasing, Done} ==>
              s.jobs[b].batch.released || s.jobs[b].pc in {WantErase, Erasing, Done}
  {
    hide BrokerNext, WorkerNext, Apply;
    match Actor(a)
    case Broker(_) => BrokerPasses(s, a, b);
    case Worker(_) => WorkerPasses(s, a, b);
  }

  lemma WorkerPasses(s: State, a: Action, b: nat)
    requires Enabled(s, a) && b in s.jobs && Actor(a).Worker? && b in WorkerNext(s, a).jobs
    ensures WorkerNext(s, a).jobs[b].pc in {s.jobs[b].pc, Woken}
  {
    hide Apply, UnitsOf, AfterRead;
  }

  lemma BrokerPasses(s: State, a: Action, b: nat)
    requires Enabled(s, a) && b in s.jobs && Actor(a).Broker? && b in BrokerNext(s, a).jobs
    ensures BrokerNext(s, a).jobs[b].pc in {WantErase, Erasing, Done} ==>
              s.jobs[b].batch.released || s.jobs[b].pc in {WantErase, Erasing, Done}
  {
    hide Create;
  }

  lemma JobStep(s: State, a: Action, b: nat)
    requires JobOk(s, b) && Enabled(s, a) && b in s.jobs
    ensures JobOk(Next(s, a), b)
  {
    ReplayKept(s, a, b);
    ConservationKept(s, a, b, Next(s, a));
    ReleasedKept(s, a, b);
  }

  lemma HistoriesStep(s: State, a: Action)
    requires Histories(s) && Enabled(s, a)
    ensures Histories(Next(s, a))
  {
    var t := Next(s, a);
    DeliveryFootprint(s, a);
    forall b ensures JobOk(t, b) {
      if b in s.jobs {
        JobStep(s, a, b);
      } else {
        NoneDelivered(s.deliveries, b);
      }
    }
    forall d | d in t.deliveries ensures d.batch in t.jobs {
      if d in s.deliveries { Footprint(s, a, d.batch); }
    }
  }

  lemma {:induction false} HistoriesAlways(acts: seq<Action>)
    requires Exec(acts).Some?
    ensures Histories(Exec(acts).value)
  {
    if acts != [] {
      HistoriesAlways(acts[..|acts| - 1]);
      HistoriesStep(Exec(acts[..|acts| - 1]).value, acts[|acts| - 1]);
    }
  }

  /** The units of a batch are delivered in the order of arrival, and those not yet delivered are queued. */
  lemma Conservation(acts: seq<Action>, b: nat)
    requires Exec(acts).Some? && b in Exec(acts).value.jobs
    ensures var s := Exec(acts).value;
      DeliveredOf(s.deliveries, b) + s.jobs[b].batch.fetched == Range(0, |s.jobs[b].msgs|)
  {
    HistoriesAlways(acts);
    assert JobOk(Exec(acts).value, b);
  }

  /** Where the i-th entry of the log stands among the deliveries of its batch. */
  lemma {:induction false} DeliveredAt(log: seq<Delivery>, i: nat)
    requires i < |log|
    ensures var p := |DeliveredOf(log[..i], log[i].batch)|;
      p < |DeliveredOf(log, log[i].batch)| && DeliveredOf(log, log[i].batch)[p] == log[i].unit
  {
    var init := log[..|log| - 1];
    if i < |log| - 1 {
      DeliveredAt(init, i);
      assert init[..i] == log[..i];
    } else {
      assert log[..i] == init;
    }
  }

  lemma {:induction false} DeliveredGrows(log: seq<Delivery>, i: nat, j: nat, b: nat)
    requires i <= j <= |log|
    ensures |DeliveredOf(log[..i], b)| <= |DeliveredOf(log[..j], b)|
    ensures i < j && log[i].batch == b ==> |DeliveredOf(log[..i], b)| < |DeliveredOf(log[..j], b)|
    decreases j - i
  {
    if i < j {
      DeliveredGrows(log, i, j - 1, b);
      assert log[..j][..j - 1] == log[..j - 1];
      if i == j - 1 { assert log[..j][j - 1] == log[i]; }
    }
  }

  /** Over every run, however many threads fetch at once, no unit is handed out twice. */
  lemma AtMostOnce(acts: seq<Action>, i: nat, j: nat)
    requires Exec(acts).Some?
    requires i < j < |Exec(acts).value.deliveries|
    ensures var log := Exec(acts).value.deliveries;
      log[i].batch != log[j].batch || log[i].unit != log[j].unit
  {
    var s := Exec(acts).value;
    var log, b := s.deliveries, s.deliveries[i].batch;
    if log[j].batch == b {
      HistoriesAlways(acts);
      assert log[i] in log && b in s.jobs;
      Conservation(acts, b);
      DeliveredAt(log, i);
      DeliveredAt(log, j);
      DeliveredGrows(log, i, j, b);
      var p, q := |DeliveredOf(log[..i], b)|, |DeliveredOf(log[..j], b)|;
      assert (DeliveredOf(log, b) + s.jobs[b].batch.fetched)[p] == p;
      assert (DeliveredOf(log, b) + s.jobs[b].batch.fetched)[q] == q;
    }
  }

  /** Release never reverts, and nothing touches a batch once its broker thread has erased it. */
  lemma ReleaseIsFinal(acts: seq<Action>, a: Action, b: nat)
    requires Exec(acts).Some? && Enabled(Exec(acts).value, a) && b in Exec(acts).value.jobs
    ensures var s := Exec(acts).value;
      && b in Next(s, a).jobs
      && (s.jobs[b].batch.released ==> Next(s, a).jobs[b].batch.released)
      && (s.jobs[b].pc == Done ==> Next(s, a).jobs[b] == s.jobs[b])
  {
    var s := Exec(acts).value;
    HistoriesAlways(acts);
    LocksAlways(acts);
    assert JobOk(s, b) && BrokerOk(s, b);
    ReleasedKept(s, a, b);
    if s.jobs[b].pc == Done { ErasedUntouched(s, a, b); }
  }

  /** Every operation on a batch is by a worker that still has an iterator to it. */
  lemma OperatedIsReachable(s: State, a: Action, b: nat)
    requires Enabled(s, a) && b in s.jobs && OpOn(s, a, b).Some?
    ensures Actor(a).Worker? && b in Reach(WorkerAt(s, Actor(a).worker))
  {
  }

  lemma ErasedUntouched(s: State, a: Action, b: nat)
    requires Locks(s) && Enabled(s, a) && At(s, b, Done)
    ensures b in Next(s, a).jobs && Next(s, a).jobs[b] == s.jobs[b]
  {
    assert BrokerOk(s, b);
    match Actor(a)
    case Broker(_) => BrokerLeaves(s, a, Broker(b));
    case Worker(w) =>
      assert WorkerOk(s, w);
      if OpOn(s, a, b).Some? { OperatedIsReachable(s, a, b); }
      WorkerLeavesBroker(s, a, b);
  }

  // ---------------------------------------------------------------------------
  // What a check has seen, and what a release means
  // ---------------------------------------------------------------------------

  /** A worker inside triggerCheck's loop: the queue is empty, and what it has read is acknowledged. */
  ghost predicate CheckOk(s: State, w: nat) {
    var pc := WorkerAt(s, w);
    pc.Checking? ==>
      && pc.batch in s.jobs
      && Seen(s.jobs[pc.batch].batch, pc.left)
      && pc.verdict in {CONSUME_SUCCESS, RECONSUME_LATER}
  }

  ghost predicate Seen(b: Batch, left: set<nat>) {
    && b.fetched == [] && left <= UnitsOf(b)
    && forall h :: h in UnitsOf(b) && h !in left ==> h in b.client && b.client[h] == MsgConsumeAck
  }

  /** A released batch is acknowledged completely and, unless it was forced, fetched completely. */
  ghost predicate ReleaseOk(b: Batch, ops: seq<Op>) {
    b.released ==>
      && b.AllAcked()
      && (ForceMsg !in ops ==> b.fetched == [])
      && b.status in {CONSUME_SUCCESS, RECONSUME_LATER}
  }

  ghost predicate Checks(s: State) {
    && (forall w :: CheckOk(s, w))
    && (forall b :: b in s.jobs ==> s.jobs[b].batch.Valid() && ReleaseOk(s.jobs[b].batch, s.jobs[b].ops))
  }

  lemma SeenKept(b: Batch, op: Op, left: set<nat>)
    requires Seen(b, left)
    ensures Seen(Apply(b, op), left)
  {
  }

  lemma ReleaseKept(b: Batch, ops: seq<Op>, op: Op)
    requires b.Valid() && ReleaseOk(b, ops)
    requires op.Publish? ==> Seen(b, {}) && op.verdict in {CONSUME_SUCCESS, RECONSUME_LATER}
    ensures Apply(b, op).Valid() && ReleaseOk(Apply(b, op), ops + [op])
  {
    var r := Apply(b, op);
    if op.Publish? {
      forall h | h in b.client ensures b.client[h] == MsgConsumeAck {
        assert h in UnitsOf(b);
      }
    } else if op.SetMsg? && b.released {
      assert r.AllAcked();
    }
  }

  /** The next program counter of a worker that checks, or is about to. */
  lemma OwnCheck(s: State, a: Action, w: nat)
    requires Enabled(s, a) && Actor(a) == Worker(w) && CheckOk(s, w)
    ensures WorkerAt(WorkerNext(s, a), w).Checking? ==>
      var pc := WorkerAt(WorkerNext(s, a), w);
      pc.batch in s.jobs && Seen(s.jobs[pc.batch].batch, pc.left) && pc.verdict in {CONSUME_SUCCESS, RECONSUME_LATER}
    ensures WorkerAt(WorkerNext(s, a), w).Checking? ==>
      a.BeginCheck? || a.ReadUnit?
  {
    hide Apply;
  }

  lemma CheckStep(s: State, a: Action, w: nat)
    requires Checks(s) && Enabled(s, a)
    ensures CheckOk(Next(s, a), w)
  {
    assert CheckOk(s, w);
    hide Next, Seen, Checks, OpOn;
    WorkersMove(s, a, w);
    if Actor(a) == Worker(w) { OwnCheck(s, a, w); }
    var pc := WorkerAt(Next(s, a), w);
    if pc.Checking? {
      Footprint(s, a, pc.batch);
      if OpOn(s, a, pc.batch).Some? {
        SeenKept(s.jobs[pc.batch].batch, OpOn(s, a, pc.batch).value, pc.left);
      }
    }
  }

  lemma WorkersMove(s: State, a: Action, w: nat)
    requires Enabled(s, a)
    ensures Actor(a) == Worker(w) ==> Next(s, a) == WorkerNext(s, a)
    ensures Actor(a) != Worker(w) ==> WorkerAt(Next(s, a), w) == WorkerAt(s, w)
  {
    hide Apply, Create, UnitsOf, AfterRead;
  }

  lemma ReleaseStep(s: State, a: Action, b: nat)
    requires Checks(s) && Enabled(s, a) && b in Next(s, a).jobs
    ensures Next(s, a).jobs[b].batch.Valid() && ReleaseOk(Next(s, a).jobs[b].batch, Next(s, a).jobs[b].ops)
  {
    if b in s.jobs {
      hide Next, Seen;
      Footprint(s, a, b);
      match OpOn(s, a, b)
      case Some(op) =>
        if op.Publish? { assert CheckOk(s, Actor(a).worker); }
        ReleaseKept(s.jobs[b].batch, s.jobs[b].ops, op);
      case None =>
    } else {
      JobArrives(s, a, b);
    }
  }

  lemma JobArrives(s: State, a: Action, b: nat)
    requires Enabled(s, a) && b !in s.jobs && b in Next(s, a).jobs
    ensures a.Arrive? && a.b == b && Next(s, a).jobs[b] == Job(WantInsert, a.msgs, a.group, Create(a.msgs, a.group), [])
  {
    hide Apply, UnitsOf, AfterRead;
  }

  lemma {:induction false} ChecksAlways(acts: seq<Action>)
    requires Exec(acts).Some?
    ensures Checks(Exec(acts).value)
  {
    if acts != [] {
      var init, a := acts[..|acts| - 1], acts[|acts| - 1];
      ChecksAlways(init);
      var s := Exec(init).value;
      hide Next, Checks;
      forall w ensures CheckOk(Next(s, a), w) { CheckStep(s, a, w); }
      forall b | b in Next(s, a).jobs
        ensures Next(s, a).jobs[b].batch.Valid() && ReleaseOk(Next(s, a).jobs[b].batch, Next(s, a).jobs[b].ops)
      {
        ReleaseStep(s, a, b);
      }
      ChecksAll(Next(s, a));
    }
  }

  lemma ChecksAll(s: State)
    requires forall w :: CheckOk(s, w)
    requires forall b :: b in s.jobs ==> s.jobs[b].batch.Valid() && ReleaseOk(s.jobs[b].batch, s.jobs[b].ops)
    ensures Checks(s)
  {
  }

  // ---------------------------------------------------------------------------
  // No lost wake-up
  // ---------------------------------------------------------------------------

  /** No wake-up out of nowhere, no unlockAll, and no batch without messages. */
  predicate Calm(a: Action) {
    !a.Spurious? && !a.BeginClear? && (a.Arrive? ==> a.msgs != [])
  }

  predicate AllCalm(acts: seq<Action>) {
    forall i :: 0 <= i < |acts| ==> Calm(acts[i])
  }

  ghost predicate NoClearer(s: State) {
    forall w :: w in s.workers ==> s.workers[w] != WantExclusive && !s.workers[w].Clearing?
  }

  ghost predicate Prompt(s: State, b: nat) {
    b in s.jobs ==>
      var j := s.jobs[b];
      && (j.batch.released ==> j.batch.fetched == [])
      && (j.pc in {WantInsert, Inserting, WantOwn, Owning, Deciding} ==> j.batch.fetched != [])
      && (j.pc == Testing ==> j.batch.released || j.batch.fetched != [])
      && (j.pc == Blocked ==> !j.batch.released)
      && (j.pc == Woken ==> j.batch.released)
  }

  /** getMsg cannot get at a batch before its broker thread has blocked. */
  lemma PopFindsWaiter(s: State, a: Action, b: nat)
    requires Locks(s) && Enabled(s, a) && b in s.jobs && OpOn(s, a, b) == Some(GetMsg)
    ensures s.jobs[b].pc in {Blocked, Woken, WantErase}
  {
    var w := Actor(a).worker;
    assert WorkerOk(s, w) && BrokerOk(s, b);
    assert b in Reach(WorkerAt(s, w)) && w in s.readers && s.writer == None;
    assert Registered(s.jobs[b].pc) && !HoldsExclusive(s.jobs[b].pc) && !HoldsMutex(s.jobs[b].pc);
    match s.jobs[b].pc case Blocked => case Woken => case WantErase => case _ => assert false;
  }

  lemma NeverForced(s: State, a: Action)
    requires NoClearer(s) && Enabled(s, a)
    ensures !a.ForceOne? && !a.LockExclusive?
  {
  }

  /** What a step that operates on a batch does to a prompt broker thread. */
  lemma PromptOp(s: State, a: Action, b: nat)
    requires Locks(s) && NoClearer(s) && Prompt(s, b) && Enabled(s, a) && b in s.jobs && OpOn(s, a, b).Some?
    requires Actor(a).Worker? ==> CheckOk(s, Actor(a).worker)
    ensures Prompt(Next(s, a), b)
  {
    hide Next;
    Footprint(s, a, b);
    NeverForced(s, a);
    ApplyFrame(s.jobs[b].batch, OpOn(s, a, b).value);
    if OpOn(s, a, b) == Some(GetMsg) { PopFindsWaiter(s, a, b); }
  }

  lemma PromptStep(s: State, a: Action, b: nat)
    requires Locks(s) && NoClearer(s) && Prompt(s, b) && Enabled(s, a) && Calm(a) && b in s.jobs
    requires Actor(a).Worker? ==> CheckOk(s, Actor(a).worker)
    ensures Prompt(Next(s, a), b)
  {
    if OpOn(s, a, b).Some? {
      PromptOp(s, a, b);
    } else {
      Footprint(s, a, b);
      match Actor(a)
      case Broker(_) => PromptBroker(s, a, b);
      case Worker(_) => WorkerLeavesBroker(s, a, b);
    }
  }

  lemma PromptBroker(s: State, a: Action, b: nat)
    requires Prompt(s, b) && Enabled(s, a) && Calm(a) && b in s.jobs && Actor(a).Broker?
    ensures Prompt(BrokerNext(s, a), b)
  {
    hide Create;
  }

  lemma WorkerLeavesBroker(s: State, a: Action, b: nat)
    requires Enabled(s, a) && b in s.jobs && Actor(a).Worker? && OpOn(s, a, b) == None
    ensures WorkerNext(s, a).jobs[b] == s.jobs[b]
  {
    hide Apply, UnitsOf, AfterRead;
  }

  /** A blocked broker thread is woken by a spurious wake-up, or when its batch is released. */
  lemma WokenByRelease(s: State, a: Action, b: nat)
    requires Enabled(s, a) && At(s, b, Blocked) && a != Spurious(b)
    ensures b in Next(s, a).jobs
    ensures Next(s, a).jobs[b].pc ==
      if OpOn(s, a, b).Some? && (OpOn(s, a, b).value.Publish? || OpOn(s, a, b).value.ForceMsg?) then Woken else Blocked
  {
    hide BrokerNext, WorkerNext, Apply;
    Footprint(s, a, b);
    if OpOn(s, a, b).None? {
      match Actor(a)
      case Broker(_) => BrokerLeaves(s, a, Broker(b));
      case Worker(_) => StaysBlocked(s, a, b);
    }
  }

  lemma StaysBlocked(s: State, a: Action, b: nat)
    requires Enabled(s, a) && Actor(a).Worker? && At(s, b, Blocked) && OpOn(s, a, b).None?
    ensures b in WorkerNext(s, a).jobs && WorkerNext(s, a).jobs[b].pc == Blocked
  {
    hide Apply, UnitsOf, AfterRead;
  }

  /** How many steps a broker thread is from returning once its batch is released. */
  function StepsToReturn(pc: BrokerPc): nat {
    match pc
    case WantInsert => 8
    case Inserting => 7
    case WantOwn => 6
    case Owning => 5
    case Woken => 4
    case Testing => 3
    case WantErase => 2
    case Erasing => 1
    case _ => 0
  }

  /** Once its batch is released, every step of a broker thread that is not about to block brings its return nearer. */
  lemma ReleasedReturns(s: State, a: Action, b: nat)
    requires Enabled(s, a) && Actor(a) == Broker(b) && b in s.jobs
    requires s.jobs[b].batch.released && s.jobs[b].pc !in {Deciding, Blocked}
    ensures b in Next(s, a).jobs && Next(s, a).jobs[b].pc !in {Deciding, Blocked}
    ensures StepsToReturn(Next(s, a).jobs[b].pc) < StepsToReturn(s.jobs[b].pc)
  {
    hide Create;
  }

  lemma CalmAhead(s: State, a: Action)
    requires NoClearer(s) && Enabled(s, a) && !a.BeginClear?
    ensures NoClearer(Next(s, a))
  {
    hide Apply, Create, UnitsOf;
  }

  lemma PromptArrives(s: State, a: Action, b: nat)
    requires Enabled(s, a) && Calm(a) && b !in s.jobs
    ensures Prompt(Next(s, a), b)
  {
    hide Apply, UnitsOf, AfterRead;
    if b in Next(s, a).jobs { assert a.Arrive? && Next(s, a).jobs[b].batch.fetched[0] == 0; }
  }

  lemma {:induction false} PromptAlways(acts: seq<Action>)
    requires Exec(acts).Some? && AllCalm(acts)
    ensures NoClearer(Exec(acts).value) && forall b :: Prompt(Exec(acts).value, b)
  {
    if acts != [] {
      var init, a := acts[..|acts| - 1], acts[|acts| - 1];
      var s := Exec(init).value;
      PromptAlways(init);
      LocksAlways(init);
      ChecksAlways(init);
      CalmAhead(s, a);
      forall b ensures Prompt(Next(s, a), b) {
        if b in s.jobs { PromptStep(s, a, b); } else { PromptArrives(s, a, b); }
      }
    }
  }

  /** In every interleaving of calm actions, a released batch has a broker thread that is awake. */
  lemma NoLostWakeup(acts: seq<Action>, b: nat)
    requires Exec(acts).Some? && AllCalm(acts) && b in Exec(acts).value.jobs
    ensures var s := Exec(acts).value;
      s.jobs[b].batch.released ==> s.jobs[b].pc in {Woken, Testing, WantErase, Erasing, Done}
  {
    PromptAlways(acts);
    assert Prompt(Exec(acts).value, b);
  }

  /** Without unlockAll only the end of a check releases a batch. */
  lemma ReleasedByCheck(s: State, a: Action, b: nat)
    requires Enabled(s, a) && NoClearer(s) && b in s.jobs && !s.jobs[b].batch.released
    requires Next(s, a).jobs[b].batch.released
    ensures a.PublishOne? && WorkerAt(s, a.w).batch == b
  {
    hide Next;
    Footprint(s, a, b);
    NeverForced(s, a);
  }

  /** The check that releases a batch finds its broker thread already blocked, and wakes it. */
  lemma ReleaseFindsWaiter(acts: seq<Action>, a: Action, b: nat)
    requires Exec(acts).Some? && AllCalm(acts) && b in Exec(acts).value.jobs
    requires Enabled(Exec(acts).value, a) && Calm(a)
    requires !Exec(acts).value.jobs[b].batch.released && Next(Exec(acts).value, a).jobs[b].batch.released
    ensures At(Exec(acts).value, b, Blocked) && At(Next(Exec(acts).value, a), b, Woken)
  {
    hide Next;
    var s := Exec(acts).value;
    PromptAlways(acts);
    HistoriesAlways(acts);
    ChecksAlways(acts);
    assert Prompt(s, b) && JobOk(s, b);
    ReleasedByCheck(s, a, b);
    assert CheckOk(s, a.w);
    Footprint(s, a, b);
  }

  /** A released batch whose broker thread is blocked: the notification has come and gone. */
  predicate Lost(s: State, b: nat) {
    At(s, b, Blocked) && s.jobs[b].batch.released
  }

  /**
   * Calm or not, a wake-up is lost in exactly one way: the broker thread blocks after it tested
   * the predicate and the batch was released in between.
   */
  lemma LostExactly(acts: seq<Action>, a: Action, b: nat)
    requires Exec(acts).Some? && Enabled(Exec(acts).value, a) && !Lost(Exec(acts).value, b)
    ensures var s := Exec(acts).value;
      Lost(Next(s, a), b) <==> a == Block(b) && s.jobs[b].batch.released
  {
    var s := Exec(acts).value;
    if a != Block(b) && b in s.jobs { NotLost(s, a, b); }
  }

  lemma NotLost(s: State, a: Action, b: nat)
    requires Enabled(s, a) && b in s.jobs && !Lost(s, b) && a != Block(b)
    ensures !Lost(Next(s, a), b)
  {
    Footprint(s, a, b);
    if OpOn(s, a, b).Some? && !Notifies(s, a, b) { ReleasesOnNotify(s, a, b); }
  }

  lemma ReleasesOnNotify(s: State, a: Action, b: nat)
    requires Enabled(s, a) && b in s.jobs && OpOn(s, a, b).Some? && !Notifies(s, a, b)
    ensures Next(s, a).jobs[b].batch.released == s.jobs[b].batch.released
  {
    Footprint(s, a, b);
  }
}
