/**
 * Runs in which a wake-up is lost. The no-lost-wake-up theorem excludes three kinds of action,
 * and each of them alone is enough for its conclusion to fail: triggerCheck notifies without
 * holding the batch mutex, so a notification can fall between the broker thread's test of the
 * predicate and its blocking.
 */
module LockCounterexamples {
  import opened BatchModel
  import opened Options
  import opened LockProtocol
  import opened LockVerdicts

  lemma Then(acts: seq<Action>, s: State, a: Action) returns (more: seq<Action>, t: State)
    requires Exec(acts) == Some(s) && Enabled(s, a)
    ensures more == acts + [a] && t == Next(s, a) && Exec(more) == Some(t)
  {
    more, t := acts + [a], Next(s, a);
    assert more[..|more| - 1] == acts;
  }

  /** Batch 0 is registered and is the only one, and worker 0 is the only worker at work. */
  ghost predicate Shape(acts: seq<Action>, s: State, readers: set<nat>, owner: map<nat, Tid>,
                        pc: BrokerPc, b: Batch, worker: WorkerPc) {
    && Exec(acts) == Some(s)
    && s.writer == None && s.readers == readers && s.lockers == {0} && s.owner == owner
    && At(s, 0, pc) && s.jobs[0].batch == b
    && WorkerAt(s, 0) == worker
  }

  lemma Inserts(msgs: seq<Message>) returns (acts: seq<Action>, s: State)
    ensures Exec(acts) == Some(s) && acts == [Arrive(0, msgs, "g"), LockInsert(0), Insert(0)]
    ensures s.writer == Some(Broker(0)) && s.readers == {} && s.lockers == {0} && s.owner == map[]
    ensures At(s, 0, WantOwn) && s.jobs[0].batch == Create(msgs, "g") && s.workers == map[]
  {
    acts, s := Then([], INIT, Arrive(0, msgs, "g"));
    acts, s := Then(acts, s, LockInsert(0));
    acts, s := Then(acts, s, Insert(0));
  }

  lemma Owns(acts: seq<Action>, s: State, b: Batch) returns (more: seq<Action>, t: State)
    requires Exec(acts) == Some(s)
    requires s.writer == Some(Broker(0)) && s.readers == {} && s.lockers == {0} && s.owner == map[]
    requires At(s, 0, WantOwn) && s.jobs[0].batch == b && s.workers == map[]
    ensures Shape(more, t, {}, map[0 := Broker(0)], Testing, b, Idle)
    ensures more == acts + [LockOwn(0)] + [UnlockInsert(0)]
  {
    more, t := Then(acts, s, LockOwn(0));
    more, t := Then(more, t, UnlockInsert(0));
  }

  lemma Registers(msgs: seq<Message>) returns (acts: seq<Action>, s: State)
    ensures Shape(acts, s, {}, map[0 := Broker(0)], Testing, Create(msgs, "g"), Idle)
    ensures forall a :: a in acts ==> a == Arrive(0, msgs, "g") || Calm(a)
  {
    acts, s := Inserts(msgs);
    acts, s := Owns(acts, s, Create(msgs, "g"));
  }

  lemma Tests(acts: seq<Action>, s: State, b: Batch) returns (more: seq<Action>, t: State)
    requires Shape(acts, s, {}, map[0 := Broker(0)], Testing, b, Idle) && !b.released
    ensures Shape(more, t, {}, map[0 := Broker(0)], Deciding, b, Idle)
    ensures more == acts + [Test(0)]
  {
    more, t := Then(acts, s, Test(0));
  }

  lemma Blocks(acts: seq<Action>, s: State, readers: set<nat>, b: Batch, worker: WorkerPc)
    returns (more: seq<Action>, t: State)
    requires Shape(acts, s, readers, map[0 := Broker(0)], Deciding, b, worker)
    ensures Shape(more, t, readers, map[], Blocked, b, worker)
    ensures more == acts + [Block(0)]
  {
    more, t := Then(acts, s, Block(0));
  }

  lemma Scans(acts: seq<Action>, s: State, owner: map<nat, Tid>, pc: BrokerPc, b: Batch, task: Task)
    returns (more: seq<Action>, t: State)
    requires Shape(acts, s, {}, owner, pc, b, Idle)
    ensures Shape(more, t, {0}, owner, pc, b, Scanning(task, {0}))
    ensures more == acts + [Begin(0, task)] + [LockShared(0)]
  {
    more, t := Then(acts, s, Begin(0, task));
    more, t := Then(more, t, LockShared(0));
  }

  /** An acknowledgement in full, while the broker thread is not blocked: the check finds nothing left to wait for. */
  lemma Acknowledges(acts: seq<Action>, s: State, b: Batch, id: string) returns (more: seq<Action>, t: State, r: Batch)
    requires Shape(acts, s, {}, map[0 := Broker(0)], Deciding, b, Idle)
    requires b.Valid() && b.fetched == [] && |b.units| <= 1 && forall h :: 0 <= h < |b.units| ==> b.units[h].msgId == id
    ensures Shape(more, t, {0}, map[0 := Broker(0)], Deciding, r, Scanning(Tell(id, CONSUME_SUCCESS), {})) && r.released
    ensures forall a :: a in more ==> a in acts || Calm(a)
  {
    hide Next, Enabled, Exec, Shape;
    more, t := Scans(acts, s, map[0 := Broker(0)], Deciding, b, Tell(id, CONSUME_SUCCESS));
    more, t := Marks(more, t, b, id);
    r := SetStatus(b, id, CONSUME_SUCCESS, MsgConsumeAck);
    more, t := ReadsAll(more, t, r, id);
    more, t, r := Publishes(more, t, r, id);
  }

  lemma Marks(acts: seq<Action>, s: State, b: Batch, id: string) returns (more: seq<Action>, t: State)
    requires Shape(acts, s, {0}, map[0 := Broker(0)], Deciding, b, Scanning(Tell(id, CONSUME_SUCCESS), {0}))
    ensures Shape(more, t, {0}, map[0 := Broker(0)], Deciding, SetStatus(b, id, CONSUME_SUCCESS, MsgConsumeAck),
                  Marked(Tell(id, CONSUME_SUCCESS), 0, {}))
    ensures more == acts + [Mark(0, 0)]
  {
    more, t := Then(acts, s, Mark(0, 0));
  }

  lemma ReadsAll(acts: seq<Action>, s: State, b: Batch, id: string) returns (more: seq<Action>, t: State)
    requires Shape(acts, s, {0}, map[0 := Broker(0)], Deciding, b, Marked(Tell(id, CONSUME_SUCCESS), 0, {}))
    requires b.fetched == [] && |b.units| <= 1
    requires forall h :: 0 <= h < |b.units| ==>
      h in b.client && b.client[h] == MsgConsumeAck && h in b.statuses && b.statuses[h] == CONSUME_SUCCESS
    ensures Shape(more, t, {0}, map[0 := Broker(0)], Deciding, b,
                  Checking(Tell(id, CONSUME_SUCCESS), 0, {}, {}, CONSUME_SUCCESS))
    ensures forall a :: a in more ==> a in acts || Calm(a)
  {
    more, t := Then(acts, s, BeginCheck(0));
    if |b.units| == 1 {
      assert UnitsOf(b) == {0};
      more, t := Then(more, t, ReadUnit(0, 0));
      assert {0} - {0} == {};
    } else {
      assert UnitsOf(b) == {};
    }
  }

  lemma Publishes(acts: seq<Action>, s: State, b: Batch, id: string) returns (more: seq<Action>, t: State, r: Batch)
    requires Shape(acts, s, {0}, map[0 := Broker(0)], Deciding, b,
                   Checking(Tell(id, CONSUME_SUCCESS), 0, {}, {}, CONSUME_SUCCESS))
    ensures Shape(more, t, {0}, map[0 := Broker(0)], Deciding, r, Scanning(Tell(id, CONSUME_SUCCESS), {})) && r.released
    ensures more == acts + [PublishOne(0)]
  {
    r := b.(status := CONSUME_SUCCESS, released := true);
    more, t := Then(acts, s, PublishOne(0));
  }

  /** A message is fetched while the broker thread is blocked. */
  lemma Fetches(acts: seq<Action>, s: State, b: Batch) returns (more: seq<Action>, t: State)
    requires Shape(acts, s, {}, map[], Blocked, b, Idle) && b.fetched != []
    ensures Shape(more, t, {}, map[], Blocked, Pop(b), Idle)
    ensures more ==
      acts + [Begin(0, Fetch)] + [LockShared(0)] + [Visit(0, 0)] + [LockBatch(0)] + [PopOne(0)] + [Leave(0)]
  {
    more, t := Scans(acts, s, map[], Blocked, b, Fetch);
    more, t := Reaches(more, t, b);
    more, t := Then(more, t, PopOne(0));
    more, t := Then(more, t, Leave(0));
  }

  lemma Reaches(acts: seq<Action>, s: State, b: Batch) returns (more: seq<Action>, t: State)
    requires Shape(acts, s, {0}, map[], Blocked, b, Scanning(Fetch, {0}))
    ensures Shape(more, t, {0}, map[0 := Worker(0)], Blocked, b, InBatch(0, {}))
    ensures more == acts + [Visit(0, 0)] + [LockBatch(0)]
  {
    more, t := Then(acts, s, Visit(0, 0));
    more, t := Then(more, t, LockBatch(0));
  }

  lemma WakesForNothing(acts: seq<Action>, s: State, b: Batch) returns (more: seq<Action>, t: State)
    requires Shape(acts, s, {}, map[], Blocked, b, Idle)
    ensures Shape(more, t, {}, map[0 := Broker(0)], Testing, b, Idle)
    ensures more == acts + [Spurious(0)] + [Relock(0)]
  {
    more, t := Then(acts, s, Spurious(0));
    more, t := Then(more, t, Relock(0));
  }

  lemma TakesOver(acts: seq<Action>, s: State, b: Batch) returns (more: seq<Action>, t: State)
    requires Shape(acts, s, {}, map[0 := Broker(0)], Deciding, b, Idle)
    ensures Exec(more) == Some(t) && At(t, 0, Deciding) && t.jobs[0].batch == b && WorkerAt(t, 0) == Clearing({0})
    ensures more == acts + [BeginClear(0)] + [LockExclusive(0)]
  {
    more, t := Then(acts, s, BeginClear(0));
    more, t := Then(more, t, LockExclusive(0));
  }

  lemma Forces(acts: seq<Action>, s: State, b: Batch) returns (more: seq<Action>, t: State)
    requires Shape(acts, s, {}, map[0 := Broker(0)], Deciding, b, Idle)
    ensures Exec(more) == Some(t) && At(t, 0, Deciding) && t.jobs[0].batch == Force(b)
    ensures more == acts + [BeginClear(0)] + [LockExclusive(0)] + [ForceOne(0, 0)]
  {
    more, t := TakesOver(acts, s, b);
    more, t := Then(more, t, ForceOne(0, 0));
  }

  /** unlockAll releases a batch whose broker thread is about to block. */
  lemma ForcedLosesWakeup(msgs: seq<Message>) returns (acts: seq<Action>)
    requires msgs != []
    ensures Exec(acts).Some? && Lost(Exec(acts).value, 0)
    ensures forall a :: a in acts ==> Calm(a) || a.BeginClear?
  {
    var s;
    acts, s := ForcedEarly(msgs);
    acts, s := Then(acts, s, Block(0));
  }

  lemma ForcedEarly(msgs: seq<Message>) returns (acts: seq<Action>, s: State)
    requires msgs != []
    ensures Exec(acts) == Some(s) && At(s, 0, Deciding) && s.jobs[0].batch.released
    ensures forall a :: a in acts ==> Calm(a) || a.BeginClear?
  {
    hide Next, Enabled, Exec, Shape;
    var b := Create(msgs, "g");
    acts, s := Registers(msgs);
    acts, s := Tests(acts, s, b);
    acts, s := Forces(acts, s, b);
    ForcedRelease(b);
  }

  /** A batch without messages is released by the acknowledgement of any id. */
  lemma EmptyLosesWakeup(id: string) returns (acts: seq<Action>)
    ensures Exec(acts).Some? && Lost(Exec(acts).value, 0)
    ensures forall a :: a in acts ==> Calm(a) || (a.Arrive? && a.msgs == [])
  {
    var s;
    var b := Create([], "g");
    acts, s := Registers([]);
    acts, s := Tests(acts, s, b);
    acts, s, b := Acknowledges(acts, s, b, id);
    acts, s := Blocks(acts, s, {0}, b, Scanning(Tell(id, CONSUME_SUCCESS), {}));
  }

  /** One message is fetched, and the broker thread wakes for no reason. */
  lemma WakesEarly(m: Message) returns (acts: seq<Action>, s: State)
    ensures Shape(acts, s, {}, map[0 := Broker(0)], Testing, Pop(Create([m], "g")), Idle)
    ensures forall a :: a in acts ==> Calm(a) || a.Spurious?
  {
    hide Next, Enabled, Exec, Shape;
    var b := Create([m], "g");
    acts, s := Registers([m]);
    acts, s := Tests(acts, s, b);
    acts, s := Blocks(acts, s, {}, b, Idle);
    acts, s := Fetches(acts, s, b);
    acts, s := WakesForNothing(acts, s, Pop(b));
  }

  /** Then the message is acknowledged before the broker thread has blocked again. */
  lemma SpuriousLosesWakeup(m: Message) returns (acts: seq<Action>)
    ensures Exec(acts).Some? && Lost(Exec(acts).value, 0)
    ensures forall a :: a in acts ==> Calm(a) || a.Spurious?
  {
    var s;
    var b := Pop(Create([m], "g"));
    acts, s := WakesEarly(m);
    acts, s := Tests(acts, s, b);
    acts, s, b := Acknowledges(acts, s, b, m.id);
    acts, s := Blocks(acts, s, {0}, b, Scanning(Tell(m.id, CONSUME_SUCCESS), {}));
  }

  // ---------------------------------------------------------------------------
  // Exactly when a wake-up can be lost
  // ---------------------------------------------------------------------------

  /** Which of the three disturbances may occur in a run. */
  datatype World = World(spurious: bool, clears: bool, empties: bool)

  predicate Permitted(a: Action, w: World) {
    && (a.Spurious? ==> w.spurious)
    && (a.BeginClear? ==> w.clears)
    && (a.Arrive? && a.msgs == [] ==> w.empties)
  }

  ghost predicate Possible(acts: seq<Action>, w: World) {
    Exec(acts).Some? && forall a :: a in acts ==> Permitted(a, w)
  }

  ghost predicate CanLose(w: World) {
    exists acts, b :: Possible(acts, w) && Lost(Exec(acts).value, b)
  }

  lemma NeverLoses(acts: seq<Action>, b: nat, w: World)
    requires Possible(acts, w) && !w.spurious && !w.clears && !w.empties
    ensures !Lost(Exec(acts).value, b)
  {
    forall i | 0 <= i < |acts| ensures Calm(acts[i]) {
      assert acts[i] in acts;
    }
    if b in Exec(acts).value.jobs {
      NoLostWakeup(acts, b);
    }
  }

  /** A wake-up can be lost if and only if there are spurious wake-ups, unlockAll, or empty batches. */
  lemma LosesExactly(w: World)
    ensures CanLose(w) <==> w.spurious || w.clears || w.empties
  {
    var acts: seq<Action> := [];
    if w.spurious {
      acts := SpuriousLosesWakeup(Message("m", "t", "x", 0));
    } else if w.clears {
      acts := ForcedLosesWakeup([Message("m", "t", "x", 0)]);
    } else if w.empties {
      acts := EmptyLosesWakeup("m");
    }
    if w.spurious || w.clears || w.empties {
      assert Possible(acts, w) && Lost(Exec(acts).value, 0);
    } else {
      forall acts, b: nat | Possible(acts, w) ensures !Lost(Exec(acts).value, b) {
        NeverLoses(acts, b, w);
      }
    }
  }
}
