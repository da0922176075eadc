/**
 * Runs in which the callback returns a verdict that the statuses of the batch do not call for,
 * and exactly when there are any: triggerCheck publishes what it has read while others may have
 * told the same units something else, and a forced batch is not checked again while its queue
 * is not empty.
 */
module LockStale {
  import opened BatchModel
  import opened Options
  import opened LockProtocol
  import opened LockVerdicts
  import opened LockCallbacks

  // ---------------------------------------------------------------------------
  // A batch of one message, and two workers
  // ---------------------------------------------------------------------------

  function Solo(m: Message, fetched: seq<int>, ack: ClientStatus, status: ConsumeStatus, sticky: set<string>,
                verdict: ConsumeStatus, released: bool): Batch {
    Batch([UnitOf(m, "g")], fetched, map[0 := ack], map[0 := status], sticky, verdict, released)
  }

  function StickyAfter(m: Message, v: ConsumeStatus, sticky: set<string>): set<string> {
    if v == RECONSUME_LATER then sticky + {m.id} else sticky
  }

  lemma SoloCreated(m: Message)
    ensures Create([m], "g") == Solo(m, [0], MsgFetchFromBroker, RECONSUME_LATER, {}, RECONSUME_LATER, false)
  {
    assert Handles(1) == {0};
    assert Range(0, 1) == [0];
  }

  ghost predicate IsSolo(m: Message, b: Batch) {
    0 in b.client && 0 in b.statuses &&
    b == Solo(m, b.fetched, b.client[0], b.statuses[0], b.reconsume, b.status, b.released)
  }

  lemma SoloTold(m: Message, b: Batch, v: ConsumeStatus)
    requires IsSolo(m, b)
    ensures SetStatus(b, m.id, v, MsgConsumeAck)
      == Solo(m, b.fetched, MsgConsumeAck, v, StickyAfter(m, v, b.reconsume), b.status, b.released)
  {
    assert b.Carries(0, m.id) && b.HasId(m.id);
  }

  lemma SoloForced(m: Message, b: Batch)
    requires IsSolo(m, b)
    requires b.client[0] == MsgConsumeAck || b.statuses[0] == RECONSUME_LATER
    ensures Force(b) == Solo(m, b.fetched, MsgConsumeAck, b.statuses[0], b.reconsume,
                             if b.statuses[0] == RECONSUME_LATER then RECONSUME_LATER else CONSUME_SUCCESS, true)
  {
    var f := ForceAck(b);
    assert f.client == map[0 := MsgConsumeAck] && f.statuses == map[0 := b.statuses[0]];
    assert 0 in f.statuses;
  }

  /** Batch 0 is the only batch, no mutex is held, and nobody holds lockersMtx exclusively. */
  ghost predicate Look(acts: seq<Action>, s: State, p: Tells, m: Message, b: Batch, forced: bool, pc: BrokerPc,
                       readers: set<nat>, pcs: map<nat, WorkerPc>) {
    && Exec(acts) == Some(s) && Within(acts, 0, p)
    && s.writer == None && s.readers == readers && s.lockers == {0} && s.owner == map[] && s.workers == pcs
    && At(s, 0, pc) && s.jobs[0].batch == b && (ForceMsg in s.jobs[0].ops <==> forced) && IsSolo(m, b)
  }

  lemma Then(acts: seq<Action>, s: State, p: Tells, a: Action) returns (more: seq<Action>, t: State)
    requires Exec(acts) == Some(s) && Within(acts, 0, p) && Enabled(s, a) && Admits(s, a, 0, p)
    ensures more == acts + [a] && t == Next(s, a) && Exec(more) == Some(t) && Within(more, 0, p)
  {
    more, t := acts + [a], Next(s, a);
    assert more[..|more| - 1] == acts;
  }

  lemma TakesLock(m: Message, p: Tells) returns (acts: seq<Action>, s: State)
    ensures Exec(acts) == Some(s) && Within(acts, 0, p)
    ensures s.writer == Some(Broker(0)) && s.readers == {} && s.lockers == {} && s.owner == map[] && s.workers == map[]
    ensures At(s, 0, Inserting) && s.jobs[0].batch == Create([m], "g") && s.jobs[0].ops == []
  {
    hide WorkerNext, Create;
    acts, s := Then([], INIT, p, Arrive(0, [m], "g"));
    acts, s := Then(acts, s, p, LockInsert(0));
  }

  lemma Inserts(m: Message, p: Tells) returns (acts: seq<Action>, s: State)
    ensures Exec(acts) == Some(s) && Within(acts, 0, p)
    ensures s.writer == Some(Broker(0)) && s.readers == {} && s.lockers == {0} && s.owner == map[] && s.workers == map[]
    ensures At(s, 0, WantOwn) && s.jobs[0].batch == Create([m], "g") && s.jobs[0].ops == []
  {
    hide WorkerNext;
    acts, s := TakesLock(m, p);
    acts, s := Then(acts, s, p, Insert(0));
  }

  lemma Decides(m: Message, p: Tells) returns (acts: seq<Action>, s: State)
    ensures Exec(acts) == Some(s) && Within(acts, 0, p)
    ensures s.writer == None && s.readers == {} && s.lockers == {0}
    ensures s.owner == map[0 := Broker(0)] && s.workers == map[]
    ensures At(s, 0, Deciding) && s.jobs[0].batch == Create([m], "g") && s.jobs[0].ops == []
  {
    hide WorkerNext;
    acts, s := Inserts(m, p);
    acts, s := Then(acts, s, p, LockOwn(0));
    acts, s := Then(acts, s, p, UnlockInsert(0));
    acts, s := Then(acts, s, p, Test(0));
  }

  lemma Starts(m: Message, p: Tells) returns (acts: seq<Action>, s: State)
    ensures Look(acts, s, p, m, Create([m], "g"), false, Blocked, {}, map[])
  {
    hide WorkerNext;
    SoloCreated(m);
    acts, s := Decides(m, p);
    acts, s := Then(acts, s, p, Block(0));
    assert s.owner == map[];
  }

  lemma Shares(acts: seq<Action>, s: State, p: Tells, m: Message, b: Batch, forced: bool, pc: BrokerPc,
               readers: set<nat>, pcs: map<nat, WorkerPc>, w: nat, task: Task)
    returns (more: seq<Action>, t: State)
    requires Look(acts, s, p, m, b, forced, pc, readers, pcs) && (w in pcs ==> pcs[w] == Idle)
    ensures Look(more, t, p, m, b, forced, pc, readers + {w}, pcs[w := Scanning(task, {0})])
  {
    hide BrokerNext, Apply, AfterRead, UnitsOf, Create;
    more, t := AsksShared(acts, s, p, m, b, forced, pc, readers, pcs, w, task);
    more, t := Then(more, t, p, LockShared(w));
  }

  lemma AsksShared(acts: seq<Action>, s: State, p: Tells, m: Message, b: Batch, forced: bool, pc: BrokerPc,
                   readers: set<nat>, pcs: map<nat, WorkerPc>, w: nat, task: Task)
    returns (more: seq<Action>, t: State)
    requires Look(acts, s, p, m, b, forced, pc, readers, pcs) && (w in pcs ==> pcs[w] == Idle)
    ensures Look(more, t, p, m, b, forced, pc, readers, pcs[w := WantShared(task)])
  {
    hide BrokerNext, Apply, AfterRead, UnitsOf, Create;
    more, t := Then(acts, s, p, Begin(w, task));
  }

  lemma Reaches(acts: seq<Action>, s: State, p: Tells, m: Message, b: Batch) returns (more: seq<Action>, t: State)
    requires Look(acts, s, p, m, b, false, Blocked, {}, map[])
    ensures Look(more, t, p, m, b, false, Blocked, {0}, map[0 := WantBatch(0, {})])
  {
    hide BrokerNext, Apply, AfterRead, UnitsOf, Create;
    assert {0} - {0} == {};
    more, t := Shares(acts, s, p, m, b, false, Blocked, {}, map[], 0, Fetch);
    more, t := Then(more, t, p, Visit(0, 0));
  }

  lemma Fetches(acts: seq<Action>, s: State, p: Tells, m: Message, b: Batch) returns (more: seq<Action>, t: State)
    requires Look(acts, s, p, m, b, false, Blocked, {}, map[]) && b.fetched == [0]
    ensures Look(more, t, p, m, Pop(b), false, Blocked, {}, map[0 := Idle])
  {
    hide BrokerNext, Force, SetStatus, AfterRead, UnitsOf, Create;
    more, t := Reaches(acts, s, p, m, b);
    more, t := Pops(more, t, p, m, b);
    more, t := Then(more, t, p, Leave(0));
  }

  lemma Pops(acts: seq<Action>, s: State, p: Tells, m: Message, b: Batch) returns (more: seq<Action>, t: State)
    requires Look(acts, s, p, m, b, false, Blocked, {0}, map[0 := WantBatch(0, {})]) && b.fetched == [0]
    ensures Look(more, t, p, m, Pop(b), false, Blocked, {0}, map[0 := Got(0, 0)])
  {
    hide BrokerNext, Force, SetStatus, AfterRead, UnitsOf, Create;
    more, t := Enters(acts, s, p, m, b);
    more, t := Then(more, t, p, PopOne(0));
  }

  lemma Enters(acts: seq<Action>, s: State, p: Tells, m: Message, b: Batch) returns (more: seq<Action>, t: State)
    requires Look(acts, s, p, m, b, false, Blocked, {0}, map[0 := WantBatch(0, {})])
    ensures Exec(more) == Some(t) && Within(more, 0, p)
    ensures t == s.(workers := map[0 := InBatch(0, {})], owner := map[0 := Worker(0)])
  {
    hide BrokerNext, Apply, AfterRead, UnitsOf, Create;
    more, t := Then(acts, s, p, LockBatch(0));
  }

  predicate NobodyAt(pcs: map<nat, WorkerPc>) {
    forall w :: w in pcs ==> !AtBatch(pcs[w], 0)
  }

  /** Worker w has done its setMsgStatus; its triggerCheck is to come. */
  lemma Marks(acts: seq<Action>, s: State, p: Tells, m: Message, b: Batch, forced: bool, pc: BrokerPc,
              readers: set<nat>, pcs: map<nat, WorkerPc>, w: nat, v: ConsumeStatus)
    returns (more: seq<Action>, t: State)
    requires Look(acts, s, p, m, b, forced, pc, readers, pcs) && (w in pcs ==> pcs[w] == Idle)
    requires p.may(m.id, v, forced) && (p.overlap || NobodyAt(pcs))
    ensures Look(more, t, p, m, SetStatus(b, m.id, v, MsgConsumeAck), forced, pc, readers + {w},
                 pcs[w := Marked(Tell(m.id, v), 0, {})])
  {
    SoloTold(m, b, v);
    more, t := Shares(acts, s, p, m, b, forced, pc, readers, pcs, w, Tell(m.id, v));
    more, t := MarksOne(more, t, p, m, b, forced, pc, readers + {w}, pcs[w := Scanning(Tell(m.id, v), {0})], w, v);
  }

  lemma MarksOne(acts: seq<Action>, s: State, p: Tells, m: Message, b: Batch, forced: bool, pc: BrokerPc,
                 readers: set<nat>, pcs: map<nat, WorkerPc>, w: nat, v: ConsumeStatus)
    returns (more: seq<Action>, t: State)
    requires Look(acts, s, p, m, b, forced, pc, readers, pcs) && w in pcs && pcs[w] == Scanning(Tell(m.id, v), {0})
    requires p.may(m.id, v, forced) && (p.overlap || NobodyAt(pcs)) && IsSolo(m, SetStatus(b, m.id, v, MsgConsumeAck))
    ensures Look(more, t, p, m, SetStatus(b, m.id, v, MsgConsumeAck), forced, pc, readers,
                 pcs[w := Marked(Tell(m.id, v), 0, {})])
  {
    hide BrokerNext, SetStatus, Force, Create, AfterRead, UnitsOf;
    assert {0} - {0} == {};
    more, t := Then(acts, s, p, Mark(w, 0));
  }

  /** What a check that reads this status is to publish. */
  function Found(v: ConsumeStatus): ConsumeStatus {
    if v == RECONSUME_LATER then RECONSUME_LATER else CONSUME_SUCCESS
  }

  /** It reads the one unit. */
  lemma Reads(acts: seq<Action>, s: State, p: Tells, m: Message, b: Batch, forced: bool, pc: BrokerPc,
              readers: set<nat>, pcs: map<nat, WorkerPc>, w: nat, task: Task)
    returns (more: seq<Action>, t: State)
    requires Look(acts, s, p, m, b, forced, pc, readers, pcs) && w in pcs && pcs[w] == Marked(task, 0, {})
    requires b.fetched == [] && b.client[0] == MsgConsumeAck
    ensures Look(more, t, p, m, b, forced, pc, readers,
                 pcs[w := Checking(task, 0, {}, {}, Found(b.statuses[0]))])
  {
    hide BrokerNext, SetStatus, Force, Create;
    assert UnitsOf(b) == {0} && {0} - {0} == {};
    more, t := Then(acts, s, p, BeginCheck(w));
    more, t := Then(more, t, p, ReadUnit(w, 0));
  }

  /** It publishes, wakes the broker thread, and leaves. */
  lemma Publishes(acts: seq<Action>, s: State, p: Tells, m: Message, b: Batch, forced: bool, pc: BrokerPc,
                  readers: set<nat>, pcs: map<nat, WorkerPc>, w: nat, task: Task, v: ConsumeStatus)
    returns (more: seq<Action>, t: State)
    requires Look(acts, s, p, m, b, forced, pc, readers, pcs) && w in pcs && pcs[w] == Checking(task, 0, {}, {}, v)
    requires pc in {Blocked, Woken}
    ensures Look(more, t, p, m, b.(status := v, released := true), forced, Woken, readers - {w}, pcs[w := Idle])
  {
    hide Next, Enabled, Exec, Within, Look;
    more, t := PublishesOne(acts, s, p, m, b, forced, pc, readers, pcs, w, task, v);
    assert pcs[w := Scanning(task, {})][w := Idle] == pcs[w := Idle];
    more, t := Leaves(more, t, p, m, b.(status := v, released := true), forced, Woken,
                      readers, pcs[w := Scanning(task, {})], w, task);
  }

  lemma PublishesOne(acts: seq<Action>, s: State, p: Tells, m: Message, b: Batch, forced: bool, pc: BrokerPc,
                     readers: set<nat>, pcs: map<nat, WorkerPc>, w: nat, task: Task, v: ConsumeStatus)
    returns (more: seq<Action>, t: State)
    requires Look(acts, s, p, m, b, forced, pc, readers, pcs) && w in pcs && pcs[w] == Checking(task, 0, {}, {}, v)
    requires pc in {Blocked, Woken}
    ensures Look(more, t, p, m, b.(status := v, released := true), forced, Woken, readers, pcs[w := Scanning(task, {})])
  {
    hide BrokerNext, SetStatus, Force, Create, AfterRead, UnitsOf;
    more, t := Then(acts, s, p, PublishOne(w));
  }

  lemma Leaves(acts: seq<Action>, s: State, p: Tells, m: Message, b: Batch, forced: bool, pc: BrokerPc,
               readers: set<nat>, pcs: map<nat, WorkerPc>, w: nat, task: Task)
    returns (more: seq<Action>, t: State)
    requires Look(acts, s, p, m, b, forced, pc, readers, pcs) && w in pcs && pcs[w] == Scanning(task, {})
    ensures Look(more, t, p, m, b, forced, pc, readers - {w}, pcs[w := Idle])
  {
    hide BrokerNext, Apply, Create, AfterRead, UnitsOf;
    more, t := Then(acts, s, p, Leave(w));
  }

  /** It finds the queue not empty, and leaves. */
  lemma GivesUp(acts: seq<Action>, s: State, p: Tells, m: Message, b: Batch, forced: bool, pc: BrokerPc,
                readers: set<nat>, pcs: map<nat, WorkerPc>, w: nat, task: Task)
    returns (more: seq<Action>, t: State)
    requires Look(acts, s, p, m, b, forced, pc, readers, pcs) && w in pcs && pcs[w] == Marked(task, 0, {})
    requires b.fetched != []
    ensures Look(more, t, p, m, b, forced, pc, readers - {w}, pcs[w := Idle])
  {
    hide BrokerNext, SetStatus, Force, Create;
    more, t := Then(acts, s, p, BeginCheck(w));
    assert pcs[w := Scanning(task, {})][w := Idle] == pcs[w := Idle];
    more, t := Leaves(more, t, p, m, b, forced, pc, readers, pcs[w := Scanning(task, {})], w, task);
  }

  lemma Clears(acts: seq<Action>, s: State, p: Tells, m: Message, b: Batch, forced: bool, pcs: map<nat, WorkerPc>)
    returns (more: seq<Action>, t: State)
    requires Look(acts, s, p, m, b, forced, Blocked, {}, pcs) && (0 in pcs ==> pcs[0] == Idle) && p.clears
    requires b.client[0] == MsgConsumeAck || b.statuses[0] == RECONSUME_LATER
    ensures Look(more, t, p, m, Force(b), true, Woken, {}, pcs[0 := Idle])
  {
    hide Next, Enabled, Exec, Within, Force;
    SoloForced(m, b);
    more, t := TakesOver(acts, s, p, m, b, forced, pcs);
    more, t := ForcesOne(more, t, p, m, b, pcs);
  }

  lemma TakesOver(acts: seq<Action>, s: State, p: Tells, m: Message, b: Batch, forced: bool, pcs: map<nat, WorkerPc>)
    returns (more: seq<Action>, t: State)
    requires Look(acts, s, p, m, b, forced, Blocked, {}, pcs) && (0 in pcs ==> pcs[0] == Idle) && p.clears
    ensures Exec(more) == Some(t) && Within(more, 0, p)
    ensures t.writer == Some(Worker(0)) && t.readers == {} && t.lockers == {0} && t.owner == map[]
    ensures t.workers == pcs[0 := Clearing({0})] && At(t, 0, Blocked) && t.jobs[0].batch == b
  {
    hide BrokerNext, Apply, AfterRead, UnitsOf, Create;
    more, t := Asks(acts, s, p, m, b, forced, pcs);
    more, t := Then(more, t, p, LockExclusive(0));
  }

  lemma Asks(acts: seq<Action>, s: State, p: Tells, m: Message, b: Batch, forced: bool, pcs: map<nat, WorkerPc>)
    returns (more: seq<Action>, t: State)
    requires Look(acts, s, p, m, b, forced, Blocked, {}, pcs) && (0 in pcs ==> pcs[0] == Idle) && p.clears
    ensures Look(more, t, p, m, b, forced, Blocked, {}, pcs[0 := WantExclusive])
  {
    hide BrokerNext, Apply, AfterRead, UnitsOf, Create;
    more, t := Then(acts, s, p, BeginClear(0));
  }

  lemma ForcesOne(acts: seq<Action>, s: State, p: Tells, m: Message, b: Batch, pcs: map<nat, WorkerPc>)
    returns (more: seq<Action>, t: State)
    requires Exec(acts) == Some(s) && Within(acts, 0, p) && IsSolo(m, Force(b)) && p.clears
    requires s.writer == Some(Worker(0)) && s.readers == {} && s.lockers == {0} && s.owner == map[]
    requires s.workers == pcs[0 := Clearing({0})] && At(s, 0, Blocked) && s.jobs[0].batch == b
    ensures Look(more, t, p, m, Force(b), true, Woken, {}, pcs[0 := Idle])
  {
    hide Next, Enabled, Exec, Within, Look, Force, IsSolo;
    more, t := Forced(acts, s, p, b);
    assert {0} - {0} == {} && s.workers[0 := Clearing({})] == pcs[0 := Clearing({})];
    more, t := LetsGo(more, t, p, m, Force(b), pcs[0 := Clearing({})]);
    assert pcs[0 := Clearing({})][0 := Idle] == pcs[0 := Idle];
  }

  lemma Forced(acts: seq<Action>, s: State, p: Tells, b: Batch) returns (more: seq<Action>, t: State)
    requires Exec(acts) == Some(s) && Within(acts, 0, p) && p.clears
    requires 0 in s.workers && s.workers[0] == Clearing({0}) && At(s, 0, Blocked) && s.jobs[0].batch == b
    ensures Exec(more) == Some(t) && Within(more, 0, p)
    ensures t.writer == s.writer && t.readers == s.readers && t.lockers == s.lockers && t.owner == s.owner
    ensures t.workers == s.workers[0 := Clearing({0} - {0})]
    ensures At(t, 0, Woken) && t.jobs[0].batch == Force(b) && ForceMsg in t.jobs[0].ops
  {
    hide BrokerNext, Force, SetStatus, AfterRead, UnitsOf, Create;
    more, t := Then(acts, s, p, ForceOne(0, 0));
  }

  lemma LetsGo(acts: seq<Action>, s: State, p: Tells, m: Message, b: Batch, pcs: map<nat, WorkerPc>)
    returns (more: seq<Action>, t: State)
    requires Exec(acts) == Some(s) && Within(acts, 0, p) && IsSolo(m, b)
    requires s.writer == Some(Worker(0)) && s.readers == {} && s.lockers == {0} && s.owner == map[]
    requires s.workers == pcs && 0 in pcs && pcs[0] == Clearing({})
    requires At(s, 0, Woken) && s.jobs[0].batch == b && ForceMsg in s.jobs[0].ops
    ensures Look(more, t, p, m, b, true, Woken, {}, pcs[0 := Idle])
  {
    hide BrokerNext, Apply, AfterRead, UnitsOf, Create;
    more, t := Then(acts, s, p, Leave(0));
  }

  /** The broker thread wakes, finds the batch released, erases it, and returns. */
  lemma Returns(acts: seq<Action>, s: State, p: Tells, m: Message, b: Batch, forced: bool, pcs: map<nat, WorkerPc>)
    returns (more: seq<Action>, t: State)
    requires Look(acts, s, p, m, b, forced, Woken, {}, pcs) && b.released
    ensures Exec(more) == Some(t) && Within(more, 0, p) && At(t, 0, Done) && t.jobs[0].batch == b
  {
    hide WorkerNext;
    more, t := Then(acts, s, p, Relock(0));
    more, t := Then(more, t, p, Test(0));
    more, t := Erases(more, t, p, b);
  }

  lemma Erases(acts: seq<Action>, s: State, p: Tells, b: Batch) returns (more: seq<Action>, t: State)
    requires Exec(acts) == Some(s) && Within(acts, 0, p)
    requires At(s, 0, WantErase) && s.jobs[0].batch == b && s.writer == None && s.readers == {}
    ensures Exec(more) == Some(t) && Within(more, 0, p) && At(t, 0, Done) && t.jobs[0].batch == b
  {
    hide WorkerNext;
    more, t := Then(acts, s, p, LockErase(0));
    more, t := Then(more, t, p, Erase(0));
  }

  // ---------------------------------------------------------------------------
  // Three runs that mislead the broker
  // ---------------------------------------------------------------------------

  /** The callback has returned a verdict other than the one its units call for. */
  ghost predicate Misled(s: State, b: nat) {
    At(s, b, Done) && s.jobs[b].batch.status != s.jobs[b].batch.Overall()
  }

  lemma SoloOverall(m: Message, b: Batch)
    requires IsSolo(m, b)
    ensures b.Overall() == Found(b.statuses[0])
  {
    assert 0 in b.statuses;
  }

  /**
   * Two workers tell the message different things. The first reads it before the second has told
   * it RECONSUME_LATER, and publishes CONSUME_SUCCESS after the second has published.
   */
  lemma OverlappingChecksMislead(m: Message, v: ConsumeStatus, p: Tells) returns (acts: seq<Action>)
    requires v != RECONSUME_LATER && p.overlap && p.may(m.id, v, false) && p.may(m.id, RECONSUME_LATER, false)
    ensures Exec(acts).Some? && Within(acts, 0, p) && Misled(Exec(acts).value, 0)
  {
    hide Next, Enabled, Exec, Look, Within;
    var s;
    var b := Create([m], "g");
    SoloCreated(m);
    acts, s := Starts(m, p);
    acts, s := Fetches(acts, s, p, m, b);
    b := Pop(b);
    var told, first := Marked(Tell(m.id, v), 0, {}), Checking(Tell(m.id, v), 0, {}, {}, CONSUME_SUCCESS);
    acts, s := Marks(acts, s, p, m, b, false, Blocked, {}, map[0 := Idle], 0, v);
    SoloTold(m, b, v);
    b := SetStatus(b, m.id, v, MsgConsumeAck);
    assert {} + {0} == {0};
    assert map[0 := Idle][0 := told] == map[0 := told] && map[0 := told][0 := first] == map[0 := first];
    acts, s := Reads(acts, s, p, m, b, false, Blocked, {0}, map[0 := told], 0, Tell(m.id, v));
    acts, s, b := SecondWorker(acts, s, p, m, b, map[0 := first]);
    var pcs := map[0 := first][1 := Idle];
    acts, s := Publishes(acts, s, p, m, b, false, Woken, {0}, pcs, 0, Tell(m.id, v), CONSUME_SUCCESS);
    b := b.(status := CONSUME_SUCCESS, released := true);
    assert {0} - {0} == {};
    acts, s := Returns(acts, s, p, m, b, false, pcs[0 := Idle]);
    SoloOverall(m, b);
  }

  /** All of the second worker's acknowledgement. */
  lemma SecondWorker(acts: seq<Action>, s: State, p: Tells, m: Message, b: Batch, pcs: map<nat, WorkerPc>)
    returns (more: seq<Action>, t: State, r: Batch)
    requires Look(acts, s, p, m, b, false, Blocked, {0}, pcs) && 1 !in pcs && IsSolo(m, b) && b.fetched == []
    requires p.overlap && p.may(m.id, RECONSUME_LATER, false)
    ensures Look(more, t, p, m, r, false, Woken, {0}, pcs[1 := Idle])
    ensures IsSolo(m, r) && r.statuses[0] == RECONSUME_LATER && r.released
  {
    hide Next, Enabled, Exec, Look, Within;
    var task := Tell(m.id, RECONSUME_LATER);
    more, t := Marks(acts, s, p, m, b, false, Blocked, {0}, pcs, 1, RECONSUME_LATER);
    SoloTold(m, b, RECONSUME_LATER);
    r := SetStatus(b, m.id, RECONSUME_LATER, MsgConsumeAck);
    var marked := pcs[1 := Marked(task, 0, {})];
    more, t := Reads(more, t, p, m, r, false, Blocked, {0} + {1}, marked, 1, task);
    var checking := Checking(task, 0, {}, {}, RECONSUME_LATER);
    more, t := Publishes(more, t, p, m, r, false, Blocked, {0} + {1}, marked[1 := checking], 1, task, RECONSUME_LATER);
    r := r.(status := RECONSUME_LATER, released := true);
    assert {0} + {1} - {1} == {0} && marked[1 := checking][1 := Idle] == pcs[1 := Idle];
  }

  /** A batch nobody has fetched is forced, and then its message is acknowledged: the check gives up. */
  lemma LateWordMisleads(m: Message, v: ConsumeStatus, p: Tells) returns (acts: seq<Action>)
    requires v != RECONSUME_LATER && p.clears && p.may(m.id, v, true)
    ensures Exec(acts).Some? && Within(acts, 0, p) && Misled(Exec(acts).value, 0)
  {
    hide Next, Enabled, Exec, Look, Within;
    var s;
    var b := Create([m], "g");
    SoloCreated(m);
    acts, s := Starts(m, p);
    acts, s := Clears(acts, s, p, m, b, false, map[]);
    SoloForced(m, b);
    acts := LateWord(acts, s, p, m, Force(b), map[][0 := Idle], v);
  }

  /** It was acknowledged before it was fetched and forced, and then it is told RECONSUME_LATER. */
  lemma LateDoubtMisleads(m: Message, v: ConsumeStatus, p: Tells) returns (acts: seq<Action>)
    requires v != RECONSUME_LATER && p.clears && p.may(m.id, v, false) && p.may(m.id, RECONSUME_LATER, true)
    ensures Exec(acts).Some? && Within(acts, 0, p) && Misled(Exec(acts).value, 0)
  {
    hide Next, Enabled, Exec, Look, Within;
    var s;
    var b := Create([m], "g");
    SoloCreated(m);
    acts, s := Starts(m, p);
    acts, s := Marks(acts, s, p, m, b, false, Blocked, {}, map[], 0, v);
    SoloTold(m, b, v);
    b := SetStatus(b, m.id, v, MsgConsumeAck);
    var marked := map[][0 := Marked(Tell(m.id, v), 0, {})];
    acts, s := GivesUp(acts, s, p, m, b, false, Blocked, {} + {0}, marked, 0, Tell(m.id, v));
    assert {} + {0} - {0} == {};
    acts, s := Clears(acts, s, p, m, b, false, marked[0 := Idle]);
    SoloForced(m, b);
    acts := LateWord(acts, s, p, m, Force(b), marked[0 := Idle][0 := Idle], RECONSUME_LATER);
  }

  /** A forced batch whose queue is not empty is told the opposite of what it says, and returned. */
  lemma LateWord(acts: seq<Action>, s: State, p: Tells, m: Message, b: Batch, pcs: map<nat, WorkerPc>, v: ConsumeStatus)
    returns (more: seq<Action>)
    requires Look(acts, s, p, m, b, true, Woken, {}, pcs) && IsSolo(m, b) && b.released && b.fetched != []
    requires 0 in pcs && pcs[0] == Idle && NobodyAt(pcs) && p.may(m.id, v, true)
    requires b.status in {CONSUME_SUCCESS, RECONSUME_LATER}
    requires b.status == RECONSUME_LATER <==> v != RECONSUME_LATER
    ensures Exec(more).Some? && Within(more, 0, p) && Misled(Exec(more).value, 0)
  {
    hide Next, Enabled, Exec, Look, Within;
    var t;
    var marked := pcs[0 := Marked(Tell(m.id, v), 0, {})];
    more, t := Marks(acts, s, p, m, b, true, Woken, {}, pcs, 0, v);
    SoloTold(m, b, v);
    var r := SetStatus(b, m.id, v, MsgConsumeAck);
    more, t := GivesUp(more, t, p, m, r, true, Woken, {} + {0}, marked, 0, Tell(m.id, v));
    assert {} + {0} - {0} == {};
    more, t := Returns(more, t, p, m, r, true, marked[0 := Idle]);
    SoloOverall(m, r);
  }

  // ---------------------------------------------------------------------------
  // Exactly when the broker can be misled
  // ---------------------------------------------------------------------------

  /** Some run does to some batch only what p admits, and its callback returns a wrong verdict. */
  ghost predicate CanMislead(p: Tells) {
    exists acts, b :: Exec(acts).Some? && Within(acts, b, p) && Misled(Exec(acts).value, b)
  }

  lemma ClashMisleads(p: Tells, id: string, v: ConsumeStatus) returns (acts: seq<Action>)
    requires v != RECONSUME_LATER && ClashAt(p, id, v)
    ensures Exec(acts).Some? && Within(acts, 0, p) && Misled(Exec(acts).value, 0)
  {
    var m := Message(id, "t", "x", 0);
    if p.overlap && p.may(id, v, false) && p.may(id, RECONSUME_LATER, false) {
      acts := OverlappingChecksMislead(m, v, p);
    } else if p.clears && p.may(id, v, true) {
      acts := LateWordMisleads(m, v, p);
    } else {
      acts := LateDoubtMisleads(m, v, p);
    }
  }

  /**
   * The callback can return a verdict its batch does not call for if and only if acknowledgements
   * of the batch can overlap and tell one message both RECONSUME_LATER and something else, or a
   * message can be told after unlockAll what differs from what it says then.
   */
  lemma MisleadsExactly(p: Tells)
    ensures CanMislead(p) <==> Clash(p)
  {
    if Clash(p) {
      var id, v :| v != RECONSUME_LATER && ClashAt(p, id, v);
      var acts := ClashMisleads(p, id, v);
    } else {
      forall acts, b: nat | Exec(acts).Some? && Within(acts, b, p) ensures !Misled(Exec(acts).value, b) {
        if At(Exec(acts).value, b, Done) {
          FinalVerdict(acts, p, b);
          DoneIsQuiet(acts, b);
          CallbackVerdict(acts, b);
        }
      }
    }
  }
}
