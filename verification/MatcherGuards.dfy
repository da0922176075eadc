/**
 * Every message that was handed to a client and is not acknowledged has a guard in the pool: a
 * unit in state CLIENT_RECEIVE that will time the message out. So a batch that has been fetched
 * completely is released at the latest when its last guard has left the pool.
 *
 * This depends on what the code does not check: which ids arrive, which are acknowledged when,
 * and what happens between telling the batches of an acknowledgement and marking a unit.
 */
module MatcherGuards {
  import opened BatchModel
  import opened Options
  import opened Matcher
  import opened MatcherCalls
  import opened MatcherDrain

  /** The message ids that have a guard for this consumer. */
  ghost function Guards(s: Sys, key: string): set<string>
    requires Wired(s)
  {
    set p | p in s.pool && s.units[p].status == ClientReceive && s.units[p].Key() == key :: s.units[p].msgId
  }

  /** Those that the mark still to come cannot take away. */
  ghost function Sure(s: Sys, key: string): set<string>
    requires Wired(s)
  {
    Guards(s, key) - Told(s)
  }

  function Told(s: Sys): set<string> {
    match s.telling
    case Some(id) => {id}
    case None => {}
  }

  // ---------------------------------------------------------------------------
  // What the code relies on
  // ---------------------------------------------------------------------------

  /**
   * again(id, here, there): the id may arrive at the consumer there when it has already arrived in
   * another batch, at here. early(id, key): it may be acknowledged while a batch of the consumer
   * has it still to hand out. empties: batches without messages arrive. gap: the matcher may run
   * between the two halves of an acknowledgement.
   */
  datatype Policy = Policy(again: (string, string, string) -> bool, early: (string, string) -> bool,
                           empties: bool, gap: bool)

  ghost predicate Awaits(b: Batch, id: string) {
    exists k :: 0 <= k < |b.fetched| && b.Carries(b.fetched[k], id)
  }

  ghost predicate Allowed(s: Sys, a: Action, p: Policy)
    requires Wired(s)
  {
    match a
    case BatchArrives(topic, group, msgs) =>
      && (msgs == [] ==> p.empties)
      && forall i, j :: 0 <= i < |s.batches| && 0 <= j < |msgs| && s.batches[i].batch.HasId(msgs[j].id) ==>
           p.again(msgs[j].id, s.batches[i].key, topic + group)
    case AckTell(topic, group, id, _) =>
      forall i | 0 <= i < |s.batches| && s.batches[i].registered && s.batches[i].key == topic + group ::
        Awaits(s.batches[i].batch, id) ==> p.early(id, topic + group)
    case Match(_) => s.telling == None || p.gap
    case _ => true
  }

  /** Every action of the run was allowed in the state it was taken in. */
  ghost predicate AllAllowed(acts: seq<Action>, p: Policy)
    requires Exec(INIT, acts).Some?
  {
    acts == [] ||
    var init := acts[..|acts| - 1];
    AllAllowed(init, p) && Wired(Exec(INIT, init).value) && Allowed(Exec(INIT, init).value, acts[|acts| - 1], p)
  }

  /** An id comes back only to the same consumer, and not at all if the matcher uses the gap. */
  ghost predicate Safe(p: Policy) {
    forall id, here, there :: p.again(id, here, there) ==> here == there && !p.gap
  }

  ghost predicate Strict(p: Policy) {
    Safe(p) && !p.empties && (p.gap ==> forall id, key :: !p.early(id, key))
  }

  // ---------------------------------------------------------------------------
  // One batch
  // ---------------------------------------------------------------------------

  /** Every unit that was handed out and is not acknowledged has a guard. */
  ghost predicate Held(b: Batch, guards: set<string>) {
    forall h :: 0 <= h < |b.units| && h in b.client && b.client[h] == MsgFetchFromBroker && h !in b.fetched ==>
      b.units[h].msgId in guards
  }

  /** If all that is missing to its release is a check, some guard will make it. */
  ghost predicate Rescued(b: Batch, guards: set<string>) {
    b.fetched == [] && !b.released ==> exists h :: 0 <= h < |b.units| && b.units[h].msgId in guards
  }

  ghost predicate Acked(b: Batch, id: string) {
    forall h :: b.Carries(h, id) ==> h in b.client && b.client[h] == MsgConsumeAck
  }

  lemma AckHolds(b: Batch, id: string, v: ConsumeStatus, guards: set<string>, more: set<string>)
    requires Tidy(b) && Held(b, guards) && guards - {id} <= more
    ensures Held(Ack(b, id, v), more) && Rescued(Ack(b, id, v), more)
  {
    var r := SetStatus(b, id, v, MsgConsumeAck);
    if r.fetched == [] && !r.AllAcked() {
      var h :| h in r.client && r.client[h] != MsgConsumeAck;
      assert h in Handles(|b.units|) && b.units[h].msgId in more;
    }
  }

  lemma AckAcks(b: Batch, id: string, v: ConsumeStatus)
    requires Tidy(b)
    ensures Acked(Ack(b, id, v), id)
  {
    forall h | b.Carries(h, id) ensures h in b.client { assert h in Handles(|b.units|); }
  }

  lemma AckKeeps(b: Batch, id: string, v: ConsumeStatus, other: string)
    ensures Acked(b, other) ==> Acked(Ack(b, id, v), other)
    ensures Ack(b, id, v).HasId(other) == b.HasId(other)
    ensures Awaits(Ack(b, id, v), other) == Awaits(b, other)
  {
  }

  lemma PopHolds(b: Batch, guards: set<string>, more: set<string>)
    requires Tidy(b) && Held(b, guards) && guards <= more && b.fetched != []
    requires var id := b.units[b.fetched[0]].msgId; id in more || Acked(b, id)
    ensures Held(Pop(b), more)
  {
    var h := b.fetched[0];
    assert b.fetched == [h] + b.fetched[1..];
    assert b.Carries(h, b.units[h].msgId);
  }

  lemma PopKeeps(b: Batch, other: string)
    ensures Acked(Pop(b), other) == Acked(b, other) && Pop(b).HasId(other) == b.HasId(other)
    ensures Awaits(Pop(b), other) ==> Awaits(b, other)
  {
    if b.fetched != [] && Awaits(Pop(b), other) {
      var k :| 0 <= k < |b.fetched[1..]| && b.Carries(b.fetched[1..][k], other);
      assert b.Carries(b.fetched[k + 1], other);
    }
  }

  lemma NewHolds(msgs: seq<Message>, group: string, guards: set<string>)
    ensures Held(Create(msgs, group), guards) && (msgs != [] ==> Rescued(Create(msgs, group), guards))
  {
    var b := Create(msgs, group);
    forall h | 0 <= h < |msgs| ensures h in b.fetched {
      assert b.fetched[h] == h;
    }
  }

  lemma NewIds(msgs: seq<Message>, group: string, id: string)
    requires Create(msgs, group).HasId(id)
    ensures exists j :: 0 <= j < |msgs| && msgs[j].id == id
  {
    var h :| 0 <= h < |msgs| && Create(msgs, group).units[h].msgId == id;
    assert msgs[h].id == id;
  }

  lemma AwaitsHas(b: Batch, id: string)
    requires Awaits(b, id)
    ensures b.HasId(id)
  {
  }

  // ---------------------------------------------------------------------------
  // All batches
  // ---------------------------------------------------------------------------

  /** Two batches share an id only as the policy lets it come back. */
  ghost predicate Homes(batches: seq<Loaded>, p: Policy) {
    forall i, j, id :: 0 <= i < j < |batches| && batches[i].batch.HasId(id) && batches[j].batch.HasId(id) ==>
      p.again(id, batches[i].key, batches[j].key)
  }

  ghost predicate Known(s: Sys, id: string) {
    exists i :: 0 <= i < |s.batches| && s.batches[i].batch.HasId(id)
  }

  ghost predicate Kept(s: Sys, p: Policy) {
    && Wired(s) && Orderly(s) && Homes(s.batches, p)
    && (forall i :: 0 <= i < |s.batches| ==> KeptOne(s, i, p))
    && (p.gap ==> forall id :: id in Told(s) ==> Known(s, id))
  }

  ghost predicate KeptOne(s: Sys, i: int, p: Policy)
    requires Wired(s) && 0 <= i < |s.batches|
  {
    s.batches[i].registered ==>
      && Held(s.batches[i].batch, Sure(s, s.batches[i].key))
      && (p.gap ==> forall id :: id in Told(s) ==> Acked(s.batches[i].batch, id))
  }

  ghost predicate Live(s: Sys, p: Policy)
    requires Wired(s)
  {
    forall i :: 0 <= i < |s.batches| ==> LiveOne(s, i, p)
  }

  ghost predicate LiveOne(s: Sys, i: int, p: Policy)
    requires Wired(s) && 0 <= i < |s.batches|
  {
    s.batches[i].registered ==>
      && Rescued(s.batches[i].batch, Sure(s, s.batches[i].key))
      && (p.gap ==> forall id :: id in Told(s) ==> !Awaits(s.batches[i].batch, id))
  }

  // ---------------------------------------------------------------------------
  // Steps that acknowledge an id
  // ---------------------------------------------------------------------------

  /**
   * From s to t the batches of one consumer are told of an id, and at most the guards of that id
   * are lost, at that consumer and at consumers that have no such message.
   */
  ghost predicate Telling(s: Sys, t: Sys, key: string, id: string, v: ConsumeStatus) {
    && Wired(s) && Wired(t) && Orderly(s) && Orderly(t) && t.batches == AckAll(s.batches, key, id, v)
    && (forall k :: Sure(s, k) - {id} <= Sure(t, k))
    && (forall i :: 0 <= i < |s.batches| && s.batches[i].registered && s.batches[i].key != key ==>
          SureAt(s, t, id, i))
  }

  ghost predicate SureAt(s: Sys, t: Sys, id: string, i: int)
    requires Wired(s) && Wired(t) && 0 <= i < |s.batches|
  {
    s.batches[i].batch.HasId(id) ==> Sure(s, s.batches[i].key) <= Sure(t, s.batches[i].key)
  }

  lemma HeldElsewhere(b: Batch, id: string, guards: set<string>, more: set<string>)
    requires b.HasId(id) ==> guards <= more
    requires guards - {id} <= more
    ensures Held(b, guards) ==> Held(b, more)
    ensures Rescued(b, guards) ==> Rescued(b, more)
  {
    if !b.HasId(id) {
      forall h | 0 <= h < |b.units| && b.units[h].msgId in guards ensures b.units[h].msgId in more {}
    }
  }

  lemma ToldHolds(s: Sys, t: Sys, key: string, id: string, v: ConsumeStatus, p: Policy, i: int)
    requires Telling(s, t, key, id, v) && 0 <= i < |s.batches| && KeptOne(s, i, p) && s.batches[i].registered
    ensures Held(t.batches[i].batch, Sure(t, t.batches[i].key))
    ensures LiveOne(s, i, p) || s.batches[i].key == key ==> Rescued(t.batches[i].batch, Sure(t, t.batches[i].key))
  {
    hide Orderly;
    var b, k := s.batches[i].batch, s.batches[i].key;
    if k == key {
      AckHolds(b, id, v, Sure(s, k), Sure(t, k));
    } else {
      assert SureAt(s, t, id, i);
      HeldElsewhere(b, id, Sure(s, k), Sure(t, k));
    }
  }

  lemma HomesTold(batches: seq<Loaded>, key: string, id: string, v: ConsumeStatus, p: Policy)
    requires Homes(batches, p)
    ensures Homes(AckAll(batches, key, id, v), p)
  {
    var r := AckAll(batches, key, id, v);
    forall i, other | 0 <= i < |batches| ensures r[i].batch.HasId(other) == batches[i].batch.HasId(other) {
      AckKeeps(batches[i].batch, id, v, other);
    }
  }

  lemma TellingKeptOne(s: Sys, t: Sys, key: string, id: string, v: ConsumeStatus, p: Policy, i: int)
    requires Telling(s, t, key, id, v) && (t.telling == s.telling || t.telling == None)
    requires 0 <= i < |s.batches| && KeptOne(s, i, p)
    ensures KeptOne(t, i, p)
    ensures LiveOne(s, i, p) ==> LiveOne(t, i, p)
  {
    hide Orderly, Held, Rescued, Acked, Awaits, Ack;
    if s.batches[i].registered {
      ToldHolds(s, t, key, id, v, p, i);
      forall other
        ensures Acked(s.batches[i].batch, other) ==> Acked(t.batches[i].batch, other)
        ensures Awaits(s.batches[i].batch, other) == Awaits(t.batches[i].batch, other)
      {
        AckKeeps(s.batches[i].batch, id, v, other);
      }
    }
  }

  /** An acknowledgement that leaves nothing new to mark: a timeout, or a reply that failed. */
  lemma TellingKept(s: Sys, t: Sys, key: string, id: string, v: ConsumeStatus, p: Policy)
    requires Kept(s, p) && Telling(s, t, key, id, v) && (t.telling == s.telling || t.telling == None)
    ensures Kept(t, p)
    ensures Live(s, p) ==> Live(t, p)
  {
    hide Orderly, KeptOne, LiveOne, Ack;
    HomesTold(s.batches, key, id, v, p);
    forall i | 0 <= i < |t.batches| ensures KeptOne(t, i, p) && (LiveOne(s, i, p) ==> LiveOne(t, i, p)) {
      assert KeptOne(s, i, p);
      TellingKeptOne(s, t, key, id, v, p, i);
    }
    forall other | p.gap && other in Told(t) ensures Known(t, other) {
      assert Known(s, other);
      var i :| 0 <= i < |s.batches| && s.batches[i].batch.HasId(other);
      AckKeeps(s.batches[i].batch, id, v, other);
      assert t.batches[i].batch.HasId(other);
    }
  }

  lemma Knower(batches: seq<Loaded>, key: string, id: string) returns (j: int)
    requires Knows(batches, key, id)
    ensures 0 <= j < |batches| && batches[j].registered && batches[j].key == key && batches[j].batch.HasId(id)
  {
    j :| 0 <= j < |batches| && batches[j].registered && batches[j].key == key && batches[j].batch.HasId(id);
  }

  /** A message id is at home in one consumer, and with a gap in one batch. */
  lemma OneHome(s: Sys, p: Policy, id: string, i: int, j: int)
    requires Homes(s.batches, p) && Safe(p) && 0 <= i < |s.batches| && 0 <= j < |s.batches|
    requires s.batches[i].batch.HasId(id) && s.batches[j].batch.HasId(id)
    ensures s.batches[i].key == s.batches[j].key
    ensures p.gap ==> i == j
  {
    if i < j {
      assert p.again(id, s.batches[i].key, s.batches[j].key);
    } else if j < i {
      assert p.again(id, s.batches[j].key, s.batches[i].key);
    }
  }

  lemma AckTellIsTelling(s: Sys, key: string, id: string, v: ConsumeStatus, p: Policy)
    requires Kept(s, p) && Safe(p) && s.telling == None
    ensures Telling(s, TellAck(s, key, id, v), key, id, v)
  {
    var t := TellAck(s, key, id, v);
    TellOrderly(s, key, id, v);
    forall k ensures Guards(t, k) == Guards(s, k) {}
    forall i | 0 <= i < |s.batches| && s.batches[i].registered && s.batches[i].key != key
      ensures SureAt(s, t, id, i)
    {
      if s.batches[i].batch.HasId(id) && Knows(s.batches, key, id) {
        var j := Knower(s.batches, key, id);
        OneHome(s, p, id, i, j);
      }
    }
  }

  /** After the first half of an acknowledgement nothing with the id is open, where that matters. */
  lemma ToldIsAcked(s: Sys, key: string, id: string, v: ConsumeStatus, p: Policy, i: int)
    requires Kept(s, p) && Safe(p) && p.gap && Knows(s.batches, key, id)
    requires 0 <= i < |s.batches| && s.batches[i].registered
    ensures var t := AckAll(s.batches, key, id, v);
      t[i].batch.HasId(id) == s.batches[i].batch.HasId(id) && Acked(t[i].batch, id)
    ensures s.batches[i].batch.HasId(id) ==> s.batches[i].key == key
  {
    var b := s.batches[i].batch;
    AckKeeps(b, id, v, id);
    if b.HasId(id) {
      var j := Knower(s.batches, key, id);
      OneHome(s, p, id, i, j);
      AckAcks(b, id, v);
    }
  }

  lemma AckTellKeptOne(s: Sys, key: string, id: string, v: ConsumeStatus, p: Policy, i: int)
    requires Kept(s, p) && Safe(p) && s.telling == None && Telling(s, TellAck(s, key, id, v), key, id, v)
    requires 0 <= i < |s.batches|
    ensures KeptOne(TellAck(s, key, id, v), i, p)
  {
    hide Orderly, Held, Rescued, Acked, Awaits, Ack;
    assert KeptOne(s, i, p);
    if s.batches[i].registered {
      ToldHolds(s, TellAck(s, key, id, v), key, id, v, p, i);
      if p.gap && Knows(s.batches, key, id) { ToldIsAcked(s, key, id, v, p, i); }
    }
  }

  lemma AckTellKept(s: Sys, key: string, id: string, v: ConsumeStatus, p: Policy)
    requires Kept(s, p) && Safe(p) && s.telling == None
    ensures Kept(TellAck(s, key, id, v), p)
  {
    var t := TellAck(s, key, id, v);
    AckTellIsTelling(s, key, id, v, p);
    HomesTold(s.batches, key, id, v, p);
    hide Orderly, KeptOne, Ack, Telling;
    forall i | 0 <= i < |t.batches| ensures KeptOne(t, i, p) { AckTellKeptOne(s, key, id, v, p, i); }
    if Knows(s.batches, key, id) {
      var j := Knower(s.batches, key, id);
      AckKeeps(s.batches[j].batch, id, v, id);
      assert t.batches[j].batch.HasId(id);
    }
    assert Orderly(t) by { TellOrderly(s, key, id, v); }
  }

  lemma AckTellLive(s: Sys, key: string, id: string, v: ConsumeStatus, p: Policy)
    requires Kept(s, p) && Live(s, p) && Strict(p) && s.telling == None
    requires forall i | 0 <= i < |s.batches| && s.batches[i].registered && s.batches[i].key == key ::
               Awaits(s.batches[i].batch, id) ==> p.early(id, key)
    ensures Wired(TellAck(s, key, id, v)) && Live(TellAck(s, key, id, v), p)
  {
    var t := TellAck(s, key, id, v);
    AckTellIsTelling(s, key, id, v, p);
    hide Orderly, Held, Rescued, Acked, Ack;
    forall i | 0 <= i < |t.batches| ensures LiveOne(t, i, p) {
      assert KeptOne(s, i, p) && LiveOne(s, i, p);
      if s.batches[i].registered {
        ToldHolds(s, t, key, id, v, p, i);
        AckKeeps(s.batches[i].batch, id, v, id);
        if p.gap && Knows(s.batches, key, id) {
          ToldIsAcked(s, key, id, v, p, i);
          if Awaits(s.batches[i].batch, id) { AwaitsHas(s.batches[i].batch, id); }
        }
      }
    }
  }

  // ---------------------------------------------------------------------------
  // Steps that leave the batches alone
  // ---------------------------------------------------------------------------

  /** The registered batches of t are those of s, some erased, and new ones; no sure guard is lost. */
  ghost predicate Quiet(s: Sys, t: Sys) {
    && Wired(s) && Wired(t) && Orderly(s) && Orderly(t) && |t.batches| >= |s.batches|
    && (t.telling == s.telling || t.telling == None)
    && (forall i :: 0 <= i < |s.batches| ==> SameBatch(s.batches[i], t.batches[i]))
    && (forall k :: Sure(s, k) <= Sure(t, k))
  }

  ghost predicate SameBatch(l: Loaded, r: Loaded) {
    r.batch == l.batch && r.key == l.key && (r.registered ==> l.registered)
  }

  lemma QuietOne(s: Sys, t: Sys, p: Policy, i: int)
    requires Quiet(s, t) && 0 <= i < |s.batches| && KeptOne(s, i, p)
    ensures KeptOne(t, i, p)
    ensures LiveOne(s, i, p) ==> LiveOne(t, i, p)
  {
    hide Orderly, Acked, Awaits;
    assert SameBatch(s.batches[i], t.batches[i]);
    var k := s.batches[i].key;
    assert Sure(s, k) <= Sure(t, k);
  }

  lemma QuietKept(s: Sys, t: Sys, p: Policy)
    requires Kept(s, p) && Quiet(s, t) && |t.batches| == |s.batches|
    ensures Kept(t, p)
    ensures Live(s, p) ==> Live(t, p)
  {
    hide Orderly, KeptOne, LiveOne;
    forall i | 0 <= i < |t.batches| ensures KeptOne(t, i, p) && (LiveOne(s, i, p) ==> LiveOne(t, i, p)) {
      assert KeptOne(s, i, p) && SameBatch(s.batches[i], t.batches[i]);
      QuietOne(s, t, p, i);
    }
    forall i, j, id | 0 <= i < j < |t.batches| && t.batches[i].batch.HasId(id) && t.batches[j].batch.HasId(id)
      ensures p.again(id, t.batches[i].key, t.batches[j].key)
    {
      assert SameBatch(s.batches[i], t.batches[i]) && SameBatch(s.batches[j], t.batches[j]);
    }
    forall id | p.gap && id in Told(t) ensures Known(t, id) {
      assert Known(s, id);
      var i :| 0 <= i < |s.batches| && s.batches[i].batch.HasId(id);
      assert SameBatch(s.batches[i], t.batches[i]);
    }
  }

  /** Guards that stay in the pool unchanged are still guards. */
  lemma GuardsKept(s: Sys, t: Sys, key: string, except: set<string>)
    requires Wired(s) && Wired(t)
    requires forall p | p in s.pool && s.units[p].status == ClientReceive && s.units[p].msgId !in except ::
               p in t.pool && t.units[p] == s.units[p]
    ensures Guards(s, key) - except <= Guards(t, key)
  {
    forall id | id in Guards(s, key) - except ensures id in Guards(t, key) {
      var p :| p in s.pool && s.units[p].status == ClientReceive && s.units[p].Key() == key && s.units[p].msgId == id;
      assert p in t.pool && t.units[p] == s.units[p];
    }
  }

  lemma MarkKept(s: Sys, p: Policy)
    requires Kept(s, p) && s.telling.Some?
    ensures Kept(MarkAck(s), p)
    ensures Live(s, p) ==> Live(MarkAck(s), p)
  {
    var t, id := MarkAck(s), s.telling.value;
    MarkAckOrderly(s);
    assert id in s.index ==> IndexOk(s, id);
    forall k ensures Sure(s, k) <= Sure(t, k) { GuardsKept(s, t, k, {id}); }
    QuietKept(s, t, p);
  }

  /** A step that keeps every unit of the pool and all batches. */
  lemma StillKept(s: Sys, t: Sys, p: Policy)
    requires Kept(s, p) && Orderly(t) && |t.batches| == |s.batches| && t.telling == s.telling
    requires forall i :: 0 <= i < |s.batches| ==> SameBatch(s.batches[i], t.batches[i])
    requires forall q | q in s.pool && s.units[q].status == ClientReceive :: q in t.pool && t.units[q] == s.units[q]
    ensures Kept(t, p)
    ensures Live(s, p) ==> Live(t, p)
  {
    forall k ensures Sure(s, k) <= Sure(t, k) { GuardsKept(s, t, k, {}); }
    QuietKept(s, t, p);
  }

  lemma ArrivesKept(s: Sys, topic: string, group: string, msgs: seq<Message>, p: Policy)
    requires Kept(s, p) && Safe(p) && Allowed(s, BatchArrives(topic, group, msgs), p)
    ensures var t := Next(s, BatchArrives(topic, group, msgs));
      Kept(t, p) && (Live(s, p) && !p.empties ==> Live(t, p))
  {
    var t, n := Next(s, BatchArrives(topic, group, msgs)), |s.batches|;
    var late := t.batches[n];
    OrderlyStep(s, BatchArrives(topic, group, msgs));
    NewHolds(msgs, group, Sure(t, topic + group));
    forall i, id | 0 <= i < n && s.batches[i].batch.HasId(id) && late.batch.HasId(id)
      ensures p.again(id, s.batches[i].key, late.key)
    {
      NewIds(msgs, group, id);
    }
    forall id | p.gap && id in Told(t) ensures !late.batch.HasId(id) && Known(t, id) {
      assert Known(s, id);
      var i :| 0 <= i < n && s.batches[i].batch.HasId(id);
      assert t.batches[i].batch.HasId(id);
    }
    hide Orderly, Held, Rescued;
    forall k ensures Sure(t, k) == Sure(s, k) {}
    forall i | 0 <= i < |t.batches| ensures KeptOne(t, i, p) && (Live(s, p) && !p.empties ==> LiveOne(t, i, p)) {
      if i < n { assert KeptOne(s, i, p) && (Live(s, p) ==> LiveOne(s, i, p)); }
      else {
        forall id | p.gap && id in Told(t) ensures Acked(late.batch, id) && !Awaits(late.batch, id) {
          if Awaits(late.batch, id) { AwaitsHas(late.batch, id); }
        }
      }
    }
  }

  // ---------------------------------------------------------------------------
  // The matcher
  // ---------------------------------------------------------------------------

  lemma DeliverOne(s: Sys, q: int, from: int, t: Sys, p: Policy, i: int)
    requires Orderly(s) && Orderly(t) && s.pool != [] && q == s.pool[0] && 0 <= q < |s.units|
    requires s.units[q].status == ProxyConsumeInit
    requires 0 <= from < |s.batches| && s.batches[from].Offers(s.units[q].Key())
    requires t == Deliver(s, q, from).(pool := s.pool[1..] + [q])
    requires 0 <= i < |s.batches| && KeptOne(s, i, p) && (s.telling == None || p.gap)
    ensures KeptOne(t, i, p)
    ensures LiveOne(s, i, p) ==> LiveOne(t, i, p)
  {
    var b, k := s.batches[i].batch, s.batches[i].key;
    DeliverGuards(s, q, from, t, k);
    assert Wired(s) && Wired(t) && Tidy(b);
    hide Orderly, Acked, Awaits;
    if i == from && s.batches[i].registered {
      PopHolds(b, Sure(s, k), Sure(t, k));
      forall other { PopKeeps(b, other); }
      if LiveOne(s, i, p) { PopRescues(b, Sure(t, k), Told(s)); }
    }
  }

  lemma PopRescues(b: Batch, guards: set<string>, told: set<string>)
    requires Tidy(b) && b.fetched != [] && forall id :: id in told ==> !Awaits(b, id)
    requires var id := b.units[b.fetched[0]].msgId; id in guards || id in told
    ensures Rescued(Pop(b), guards)
  {
    assert b.Carries(b.fetched[0], b.units[b.fetched[0]].msgId);
  }

  /** The delivery adds a guard, and takes none away. */
  lemma DeliverGuards(s: Sys, q: int, from: int, t: Sys, k: string)
    requires Wired(s) && Wired(t) && s.pool != [] && q == s.pool[0] && 0 <= q < |s.units|
    requires s.units[q].status == ProxyConsumeInit
    requires 0 <= from < |s.batches| && s.batches[from].Offers(s.units[q].Key())
    requires t == Deliver(s, q, from).(pool := s.pool[1..] + [q])
    ensures Sure(s, k) <= Sure(t, k)
    ensures var b := s.batches[from].batch;
      k == s.batches[from].key ==> b.units[b.fetched[0]].msgId in Sure(t, k) + Told(s)
  {
    assert forall r :: r in t.pool <==> r in s.pool;
    GuardsKept(s, t, k, {});
    assert q in t.pool && t.units[q].Key() == s.units[q].Key();
  }

  lemma DeliverKept(s: Sys, q: int, from: int, t: Sys, p: Policy)
    requires Kept(s, p) && Orderly(t) && s.pool != [] && q == s.pool[0] && 0 <= q < |s.units|
    requires s.units[q].status == ProxyConsumeInit
    requires 0 <= from < |s.batches| && s.batches[from].Offers(s.units[q].Key())
    requires t == Deliver(s, q, from).(pool := s.pool[1..] + [q]) && (s.telling == None || p.gap)
    ensures Kept(t, p)
    ensures Live(s, p) ==> Live(t, p)
  {
    assert Wired(t);
    hide Orderly, KeptOne, LiveOne;
    forall i | 0 <= i < |t.batches|
      ensures KeptOne(t, i, p) && (LiveOne(s, i, p) ==> LiveOne(t, i, p))
      ensures t.batches[i].key == s.batches[i].key && t.batches[i].batch.units == s.batches[i].batch.units
    {
      assert KeptOne(s, i, p);
      DeliverOne(s, q, from, t, p, i);
    }
    forall i, id | 0 <= i < |t.batches| ensures t.batches[i].batch.HasId(id) == s.batches[i].batch.HasId(id) {}
    forall id | p.gap && id in Told(t) ensures Known(t, id) {
      assert Known(s, id);
      var i :| 0 <= i < |s.batches| && s.batches[i].batch.HasId(id);
      assert t.batches[i].batch.HasId(id);
    }
  }

  /** The matcher times a guarded message out. */
  lemma TimeoutKept(s: Sys, q: int, t: Sys, p: Policy)
    requires Kept(s, p) && Orderly(t) && s.pool != [] && q == s.pool[0] && 0 <= q < |s.units|
    requires s.units[q].status == ClientReceive
    requires t == s.(batches := AckAll(s.batches, s.units[q].Key(), s.units[q].msgId, RECONSUME_LATER),
                     pool := s.pool[1..])
    ensures Kept(t, p)
    ensures Live(s, p) ==> Live(t, p)
  {
    var key, id := s.units[q].Key(), s.units[q].msgId;
    assert forall r :: r in s.pool ==> r in t.pool || r == q;
    forall k ensures Sure(s, k) - {id} <= Sure(t, k) { GuardsKept(s, t, k, {id}); }
    forall i | 0 <= i < |s.batches| && s.batches[i].registered && s.batches[i].key != key ensures SureAt(s, t, id, i) {
      OtherGuardsKept(s, t, q, s.batches[i].key);
    }
    TellingKept(s, t, key, id, RECONSUME_LATER, p);
  }

  lemma OtherGuardsKept(s: Sys, t: Sys, q: int, key: string)
    requires Wired(s) && Wired(t) && 0 <= q < |s.units| && t.units == s.units && t.telling == s.telling
    requires s.units[q].Key() != key && forall r :: r in s.pool ==> r in t.pool || r == q
    ensures Sure(s, key) <= Sure(t, key)
  {
    forall id | id in Guards(s, key) ensures id in Guards(t, key) {
      var p :| p in s.pool && s.units[p].status == ClientReceive && s.units[p].Key() == key && s.units[p].msgId == id;
      assert p in t.pool;
    }
  }

  lemma MatchKept(s: Sys, from: int, p: Policy)
    requires Kept(s, p) && Enabled(s, Match(from)) && (s.telling == None || p.gap)
    ensures Kept(MatchOne(s, from), p)
    ensures Live(s, p) ==> Live(MatchOne(s, from), p)
  {
    var q, t := Head(s), MatchOne(s, from);
    var u := s.units[q];
    MatchOrderly(s, from);
    if u.status == ProxyConsumeInit && from >= 0 {
      DeliverKept(s, q, from, t, p);
    } else if u.IsAckTimeout(s.now) {
      TimeoutKept(s, q, t, p);
    } else {
      StillKept(s, t, p);
    }
  }

  lemma ReturnKept(s: Sys, c: int, ok: bool, p: Policy)
    requires Kept(s, p) && Enabled(s, Returned(c, ok))
    ensures Kept(Return(s, c, ok), p)
    ensures Live(s, p) ==> Live(Return(s, c, ok), p)
  {
    var call, t := s.calls[c], Return(s, c, ok);
    ReturnOrderly(s, c, ok);
    if !ok && call.msgId != "" {
      forall k ensures Sure(s, k) <= Sure(t, k) { GuardsKept(s, t, k, {}); }
      TellingKept(s, t, call.topic + call.group, call.msgId, RECONSUME_LATER, p);
    } else {
      StillKept(s, t, p);
    }
  }

  lemma KeptStep(s: Sys, a: Action, p: Policy)
    requires Kept(s, p) && Safe(p) && Enabled(s, a) && Allowed(s, a, p)
    ensures Kept(Next(s, a), p)
    ensures Live(s, p) && Strict(p) ==> Live(Next(s, a), p)
  {
    WiredStep(s, a);
    hide Kept, Live, Orderly;
    match a
    case Match(from) => MatchKept(s, from, p);
    case AckTell(topic, group, id, v) =>
      AckTellKept(s, topic + group, id, v, p);
      if Live(s, p) && Strict(p) { AckTellLive(s, topic + group, id, v, p); }
    case AckMark => MarkKept(s, p);
    case Returned(c, ok) => ReturnKept(s, c, ok, p);
    case BatchArrives(topic, group, msgs) => ArrivesKept(s, topic, group, msgs, p);
    case _ => OtherKept(s, a, p);
  }

  lemma OtherKept(s: Sys, a: Action, p: Policy)
    requires Kept(s, p) && Enabled(s, a)
    requires a.BatchErased? || a.ConsumeRequest? || a.AcceptCancelled? || a.AckDeleted? || a.Tick?
    ensures Kept(Next(s, a), p)
    ensures Live(s, p) ==> Live(Next(s, a), p)
  {
    OrderlyStep(s, a);
    if a.ConsumeRequest? { AcceptWired(s, a.c, a.topic, a.group); }
    StillKept(s, Next(s, a), p);
  }

  lemma {:induction false} KeptAlways(acts: seq<Action>, p: Policy)
    requires Safe(p) && Exec(INIT, acts).Some? && AllAllowed(acts, p)
    ensures Kept(Exec(INIT, acts).value, p)
    ensures Strict(p) ==> Live(Exec(INIT, acts).value, p)
  {
    if acts == [] {
      OrderlyAlways([]);
    } else {
      var init := acts[..|acts| - 1];
      KeptAlways(init, p);
      KeptStep(Exec(INIT, init).value, acts[|acts| - 1], p);
    }
  }

  // ---------------------------------------------------------------------------
  // Every message is guarded, and every batch is released
  // ---------------------------------------------------------------------------

  /**
   * Every message that a client was given and that is not acknowledged has, in the pool, a unit
   * of the same consumer and id that waits for the acknowledgement, and the mark of an
   * acknowledgement half done is for another id.
   */
  lemma EveryMessageGuarded(acts: seq<Action>, p: Policy, i: int, h: int)
    requires Safe(p) && Exec(INIT, acts).Some? && AllAllowed(acts, p)
    requires var s := Exec(INIT, acts).value;
      && 0 <= i < |s.batches| && s.batches[i].registered
      && h in s.batches[i].batch.client && s.batches[i].batch.client[h] == MsgFetchFromBroker
      && h !in s.batches[i].batch.fetched
    ensures var s := Exec(INIT, acts).value;
      && Wired(s) && 0 <= h < |s.batches[i].batch.units|
      && var id := s.batches[i].batch.units[h].msgId;
      && s.telling != Some(id)
      && exists q :: q in s.pool && s.units[q].status == ClientReceive && s.units[q].Key() == s.batches[i].key &&
           s.units[q].msgId == id
  {
    KeptAlways(acts, p);
    var s := Exec(INIT, acts).value;
    assert KeptOne(s, i, p);
    assert Tidy(s.batches[i].batch) && h in Handles(|s.batches[i].batch.units|);
    assert s.batches[i].batch.units[h].msgId in Sure(s, s.batches[i].key);
  }

  /** Once a batch is fetched and none of its messages has a guard left, it is released. */
  lemma ReleasedWithoutGuards(acts: seq<Action>, p: Policy, i: int)
    requires Strict(p) && Exec(INIT, acts).Some? && AllAllowed(acts, p)
    requires var s := Exec(INIT, acts).value;
      && 0 <= i < |s.batches| && s.batches[i].registered && s.batches[i].batch.fetched == []
      && forall q | q in s.pool && 0 <= q < |s.units| && s.units[q].status == ClientReceive ::
           s.units[q].Key() == s.batches[i].key ==> !s.batches[i].batch.HasId(s.units[q].msgId)
    ensures Exec(INIT, acts).value.batches[i].batch.released
  {
    KeptAlways(acts, p);
    var s := Exec(INIT, acts).value;
    assert LiveOne(s, i, p);
    var b := s.batches[i].batch;
    assert forall h :: 0 <= h < |b.units| ==> b.HasId(b.units[h].msgId);
  }

  /** What a run that the policy allows can be relied on for, from here on. */
  ghost predicate Reliable(s: Sys, p: Policy) {
    Strict(p) && Kept(s, p) && Live(s, p) && (s.telling == None || p.gap)
  }

  lemma ReliableAlong(s: Sys, a: Action, p: Policy)
    requires Reliable(s, p) && Enabled(s, a) && (a.Match? || a.Tick?)
    ensures Reliable(Next(s, a), p)
  {
    KeptStep(s, a, p);
  }

  lemma EmptyPoolReleases(s: Sys, p: Policy)
    requires Reliable(s, p) && s.pool == []
    ensures AllReleased(s)
  {
    forall i | 0 <= i < |s.batches| && s.batches[i].registered && s.batches[i].batch.fetched == []
      ensures s.batches[i].batch.released
    {
      assert LiveOne(s, i, p);
    }
  }

  /** Every batch that has been fetched completely is released. */
  ghost predicate AllReleased(s: Sys) {
    forall i :: 0 <= i < |s.batches| && s.batches[i].registered && s.batches[i].batch.fetched == [] ==>
      s.batches[i].batch.released
  }

  lemma {:induction false} ReliableDrain(s: Sys, drain: seq<Action>, p: Policy)
    requires Reliable(s, p) && OnlyMatches(drain) && Exec(s, drain).Some?
    ensures Reliable(Exec(s, drain).value, p)
  {
    if drain != [] {
      var init := drain[..|drain| - 1];
      ReliableDrain(s, init, p);
      ReliableAlong(Exec(s, init).value, drain[|drain| - 1], p);
    }
  }

  /**
   * After any run the policy allows, let the matcher serve the pool until it is empty, as it does
   * once the clock is past every deadline: every completely fetched batch is released.
   */
  lemma DrainReleases(acts: seq<Action>, drain: seq<Action>, p: Policy)
    requires Strict(p) && Exec(INIT, acts).Some? && AllAllowed(acts, p)
    requires Exec(INIT, acts).value.telling == None || p.gap
    requires OnlyMatches(drain) && Exec(Exec(INIT, acts).value, drain).Some?
    requires Exec(Exec(INIT, acts).value, drain).value.pool == []
    ensures AllReleased(Exec(Exec(INIT, acts).value, drain).value)
  {
    KeptAlways(acts, p);
    ReliableDrain(Exec(INIT, acts).value, drain, p);
    EmptyPoolReleases(Exec(Exec(INIT, acts).value, drain).value, p);
  }
}
