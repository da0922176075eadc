/**
 * Runs in which a message is left without a guard, or a batch without anything to release it, and
 * exactly when there are any; and a run in which a timeout overwrites an acknowledged status.
 */
module MatcherRuns {
  import opened BatchModel
  import opened Options
  import opened Matcher
  import opened MatcherCalls
  import opened MatcherGuards

  /** A message that a client was given, is not acknowledged, and has no guard: nothing will time it out. */
  ghost predicate Forgotten(s: Sys)
    requires Wired(s)
  {
    exists i, h :: 0 <= i < |s.batches| && IsForgotten(s, i, h)
  }

  ghost predicate IsForgotten(s: Sys, i: int, h: int)
    requires Wired(s) && 0 <= i < |s.batches|
  {
    var b := s.batches[i].batch;
    && s.batches[i].registered && 0 <= h < |b.units|
    && h in b.client && b.client[h] == MsgFetchFromBroker && h !in b.fetched
    && b.units[h].msgId !in Guards(s, s.batches[i].key)
  }

  /** A completely fetched batch that is not released, and that no guard will make a check on. */
  ghost predicate Stranded(s: Sys)
    requires Wired(s)
  {
    exists i :: 0 <= i < |s.batches| && IsStranded(s, i)
  }

  ghost predicate IsStranded(s: Sys, i: int)
    requires Wired(s) && 0 <= i < |s.batches|
  {
    s.batches[i].registered && s.batches[i].batch.fetched == [] && !s.batches[i].batch.released
    && forall h :: 0 <= h < |s.batches[i].batch.units| ==>
         s.batches[i].batch.units[h].msgId !in Guards(s, s.batches[i].key)
  }

  // ---------------------------------------------------------------------------
  // Runs
  // ---------------------------------------------------------------------------

  ghost predicate Reached(acts: seq<Action>, s: Sys, p: Policy) {
    Exec(INIT, acts) == Some(s) && AllAllowed(acts, p) && Wired(s)
  }

  lemma Then(acts: seq<Action>, s: Sys, p: Policy, a: Action) returns (more: seq<Action>, t: Sys)
    requires Reached(acts, s, p) && Enabled(s, a) && Allowed(s, a, p)
    ensures more == acts + [a] && t == Next(s, a) && Reached(more, t, p)
  {
    more, t := acts + [a], Next(s, a);
    assert more[..|more| - 1] == acts;
    WiredStep(s, a);
  }

  function One(id: string): seq<Message> {
    [Message(id, "", "", 0)]
  }

  function Whole(id: string): Batch {
    Create(One(id), "")
  }

  lemma OneBatch(id: string, v: ConsumeStatus)
    ensures Whole(id).fetched == [0] && Pop(Whole(id)).fetched == [] && !Whole(id).released
    ensures |Whole(id).units| == 1 && Whole(id).units[0].msgId == id && Whole(id).HasId(id)
    ensures 0 in Whole(id).client && Whole(id).client[0] == MsgFetchFromBroker
    ensures var r := Ack(Pop(Whole(id)), id, v);
      && r.released && r.fetched == [] && r.HasId(id) && r.units == Whole(id).units
      && 0 in r.statuses && r.statuses[0] == v
    ensures var r := Ack(Whole(id), id, v); !r.released && r.fetched == [0] && r.units == Whole(id).units
    ensures !Awaits(Pop(Whole(id)), id) && !Awaits(Ack(Pop(Whole(id)), id, v), id)
  {
    assert 0 in Handles(1);
    assert Whole(id).Carries(0, id);
    assert Pop(Whole(id)).HasId(id) by { assert Pop(Whole(id)).units[0].msgId == id; }
  }

  /** One message has been handed out to the first call, at time 0, and nothing else has happened. */
  ghost predicate HandedOut(acts: seq<Action>, s: Sys, p: Policy, id: string, key: string) {
    && Reached(acts, s, p)
    && s.batches == [Loaded(key, true, Pop(Whole(id)))]
    && s.units == [PoolUnit(0, key, "", id, 0, ClientReceive)] && s.pool == [0]
    && id in s.index && s.index[id] == 0
    && |s.calls| == 2 && s.calls[1].phase == Listening && s.telling == None && s.now == 0
  }

  lemma Arrives(p: Policy, id: string, key: string) returns (acts: seq<Action>, s: Sys)
    ensures acts == [BatchArrives(key, "", One(id)), ConsumeRequest(0, key, "")]
    ensures Reached(acts, s, p) && s.batches == [Loaded(key, true, Whole(id))]
    ensures s.units == [PoolUnit(0, key, "", "", 0, ProxyConsumeInit)] && s.pool == [0]
    ensures |s.calls| == 2 && s.calls[1].phase == Listening && s.telling == None && s.now == 0
  {
    hide Create, AllAllowed;
    assert key + "" == key;
    acts, s := BatchFirst(p, id, key);
    acts, s := Then(acts, s, p, ConsumeRequest(0, key, ""));
  }

  lemma BatchFirst(p: Policy, id: string, key: string) returns (acts: seq<Action>, s: Sys)
    ensures acts == [BatchArrives(key, "", One(id))] && Reached(acts, s, p)
    ensures s == INIT.(batches := [Loaded(key, true, Whole(id))])
  {
    hide Create;
    assert key + "" == key;
    acts, s := Then([], INIT, p, BatchArrives(key, "", One(id)));
  }

  lemma HandsOut(p: Policy, id: string, key: string) returns (acts: seq<Action>, s: Sys)
    ensures acts == [BatchArrives(key, "", One(id)), ConsumeRequest(0, key, ""), Match(0)]
    ensures HandedOut(acts, s, p, id, key)
  {
    hide Ack, Create, AllAllowed;
    assert key + "" == key;
    OneBatch(id, CONSUME_SUCCESS);
    acts, s := Arrives(p, id, key);
    assert s.batches[0].Offers(key);
    acts, s := FirstHandedOut(acts, s, p, id, key);
  }

  lemma FirstHandedOut(acts: seq<Action>, s: Sys, p: Policy, id: string, key: string)
    returns (more: seq<Action>, t: Sys)
    requires Reached(acts, s, p) && s.batches == [Loaded(key, true, Whole(id))] && s.batches[0].Offers(key)
    requires s.units == [PoolUnit(0, key, "", "", 0, ProxyConsumeInit)] && s.pool == [0]
    requires |s.calls| == 2 && s.calls[1].phase == Listening && s.telling == None && s.now == 0
    ensures more == acts + [Match(0)] && HandedOut(more, t, p, id, key)
  {
    hide Ack, Create, AllAllowed;
    assert key + "" == key;
    OneBatch(id, CONSUME_SUCCESS);
    more, t := Then(acts, s, p, Match(0));
  }

  // ---------------------------------------------------------------------------
  // One id at two consumers
  // ---------------------------------------------------------------------------

  /** The id has also been handed out at the second consumer, last. */
  ghost predicate BothHandedOut(acts: seq<Action>, s: Sys, p: Policy, id: string, here: string, there: string) {
    && Reached(acts, s, p)
    && s.batches == [Loaded(here, true, Pop(Whole(id))), Loaded(there, true, Pop(Whole(id)))]
    && s.units == [PoolUnit(0, here, "", id, 0, ClientReceive), PoolUnit(1, there, "", id, 0, ClientReceive)]
    && s.pool == [0, 1] && id in s.index && s.index[id] == 1 && s.telling == None
  }

  lemma SecondArrives(acts: seq<Action>, s: Sys, p: Policy, id: string, here: string, there: string)
    returns (more: seq<Action>, t: Sys)
    requires HandedOut(acts, s, p, id, here) && p.again(id, here, there)
    ensures Reached(more, t, p)
    ensures t.batches == [Loaded(here, true, Pop(Whole(id))), Loaded(there, true, Whole(id))]
    ensures t.units == [PoolUnit(0, here, "", id, 0, ClientReceive), PoolUnit(1, there, "", "", 0, ProxyConsumeInit)]
    ensures t.pool == [0, 1] && id in t.index && t.index[id] == 0 && t.telling == None && t.now == 0
  {
    hide Ack, Create, AllAllowed;
    assert there + "" == there;
    forall i: int, j: int | 0 <= i < |s.batches| && 0 <= j < 1 && s.batches[i].batch.HasId(One(id)[j].id)
      ensures p.again(One(id)[j].id, s.batches[i].key, there + "") {}
    more, t := Then(acts, s, p, BatchArrives(there, "", One(id)));
    more, t := Then(more, t, p, ConsumeRequest(1, there, ""));
  }

  lemma HandsOutBoth(p: Policy, id: string, here: string, there: string) returns (acts: seq<Action>, s: Sys)
    requires p.again(id, here, there)
    ensures BothHandedOut(acts, s, p, id, here, there)
  {
    hide Ack, Create, AllAllowed;
    assert here + "" == here && there + "" == there;
    OneBatch(id, CONSUME_SUCCESS);
    acts, s := HandsOut(p, id, here);
    acts, s := SecondArrives(acts, s, p, id, here, there);
    acts, s := Then(acts, s, p, Match(-1));
    assert s.batches[1].Offers(there);
    acts, s := SecondHandedOut(acts, s, p, id, here, there);
  }

  lemma SecondHandedOut(acts: seq<Action>, s: Sys, p: Policy, id: string, here: string, there: string)
    returns (more: seq<Action>, t: Sys)
    requires Reached(acts, s, p)
    requires s.batches == [Loaded(here, true, Pop(Whole(id))), Loaded(there, true, Whole(id))]
    requires s.units == [PoolUnit(0, here, "", id, 0, ClientReceive), PoolUnit(1, there, "", "", 0, ProxyConsumeInit)]
    requires s.pool == [1, 0] && s.telling == None && s.batches[1].Offers(there)
    ensures BothHandedOut(more, t, p, id, here, there)
  {
    hide Ack, Create, AllAllowed;
    assert there + "" == there;
    OneBatch(id, CONSUME_SUCCESS);
    more, t := Then(acts, s, p, Match(1));
  }

  /**
   * One id at two consumers: the acknowledgement at the first marks the guard of the second, whose
   * message is then neither acknowledged nor ever timed out. No step falls into the gap.
   */
  lemma SharedIdLosesGuard(id: string, here: string, there: string, p: Policy) returns (acts: seq<Action>, s: Sys)
    requires here != there && p.again(id, here, there)
    ensures Reached(acts, s, p) && s.telling == None && Forgotten(s) && Stranded(s)
  {
    assert here + "" == here && there + "" == there;
    OneBatch(id, CONSUME_SUCCESS);
    acts, s := HandsOutBoth(p, id, here, there);
    acts, s := TellsFirst(acts, s, p, id, here, there);
    hide Next, Enabled, Forgotten, Stranded, Ack, Create;
    acts, s := MarksSecond(acts, s, p, id, here, there);
  }

  lemma MarksSecond(acts: seq<Action>, s: Sys, p: Policy, id: string, here: string, there: string)
    returns (more: seq<Action>, t: Sys)
    requires Reached(acts, s, p) && here != there && s.telling == Some(id)
    requires |s.batches| == 2 && s.batches[1] == Loaded(there, true, Pop(Whole(id)))
    requires s.units == [PoolUnit(0, here, "", id, 0, ClientReceive), PoolUnit(1, there, "", id, 0, ClientReceive)]
    requires s.pool == [0, 1] && id in s.index && s.index[id] == 1
    ensures Reached(more, t, p) && t.telling == None && Forgotten(t) && Stranded(t)
  {
    hide AllAllowed, Ack, Create;
    assert here + "" == here && there + "" == there;
    OneBatch(id, CONSUME_SUCCESS);
    more, t := Then(acts, s, p, AckMark);
    assert IsForgotten(t, 1, 0) && IsStranded(t, 1);
  }

  lemma TellsFirst(acts: seq<Action>, s: Sys, p: Policy, id: string, here: string, there: string)
    returns (more: seq<Action>, t: Sys)
    requires BothHandedOut(acts, s, p, id, here, there) && here != there
    ensures Reached(more, t, p) && |t.batches| == 2 && t.batches[1] == s.batches[1]
    ensures t.units == s.units && t.pool == s.pool && t.index == s.index && t.telling == Some(id)
  {
    hide Ack, Create, AllAllowed;
    assert here + "" == here;
    OneBatch(id, CONSUME_SUCCESS);
    assert s.batches[0].registered && s.batches[0].key == here && s.batches[0].batch.HasId(id);
    assert Knows(s.batches, here, id);
    more, t := Then(acts, s, p, AckTell(here, "", id, CONSUME_SUCCESS));
  }

  // ---------------------------------------------------------------------------
  // One id in two batches, the matcher between the halves of an acknowledgement
  // ---------------------------------------------------------------------------

  /** The first message has been acknowledged and its guard is gone, and a second call waits. */
  ghost predicate Served(acts: seq<Action>, s: Sys, p: Policy, id: string, here: string, there: string) {
    && Reached(acts, s, p)
    && s.batches == [Loaded(here, true, Ack(Pop(Whole(id)), id, CONSUME_SUCCESS))]
    && s.units == [PoolUnit(0, here, "", id, 0, ConsumeAck), PoolUnit(1, there, "", "", 0, ProxyConsumeInit)]
    && s.pool == [1] && s.telling == None
  }

  lemma Acknowledges(acts: seq<Action>, s: Sys, p: Policy, id: string, key: string) returns (more: seq<Action>, t: Sys)
    requires HandedOut(acts, s, p, id, key)
    ensures Reached(more, t, p) && t.telling == None && t.now == 0
    ensures t.batches == [Loaded(key, true, Ack(Pop(Whole(id)), id, CONSUME_SUCCESS))]
    ensures t.units == [PoolUnit(0, key, "", id, 0, ConsumeAck)] && t.pool == [0] && t.calls == s.calls
  {
    hide Ack, Create, AllAllowed;
    assert key + "" == key;
    OneBatch(id, CONSUME_SUCCESS);
    assert s.batches[0].batch.HasId(id);
    assert Knows(s.batches, key, id);
    more, t := Then(acts, s, p, AckTell(key, "", id, CONSUME_SUCCESS));
    assert t.batches == [Loaded(key, true, Ack(Pop(Whole(id)), id, CONSUME_SUCCESS))];
    more, t := Then(more, t, p, AckMark);
  }

  lemma Serves(p: Policy, id: string, here: string, there: string) returns (acts: seq<Action>, s: Sys)
    ensures Served(acts, s, p, id, here, there)
  {
    acts, s := HandsOut(p, id, here);
    acts, s := Acknowledges(acts, s, p, id, here);
    acts, s := Then(acts, s, p, Match(-1));
    acts, s := Then(acts, s, p, ConsumeRequest(1, there, ""));
  }

  /** A repeated acknowledgement is told to the batch, which the broker thread then erases. */
  lemma TellsAgain(acts: seq<Action>, s: Sys, p: Policy, id: string, here: string, there: string)
    returns (more: seq<Action>, t: Sys)
    requires Served(acts, s, p, id, here, there)
    ensures Reached(more, t, p) && t.units == s.units && t.pool == s.pool && t.telling == Some(id)
    ensures |t.batches| == 1 && t.batches[0].key == here && !t.batches[0].registered
    ensures t.batches[0].batch.units == Whole(id).units
  {
    hide Ack, Create, AllAllowed;
    assert here + "" == here;
    OneBatch(id, CONSUME_SUCCESS);
    assert s.batches[0].registered && s.batches[0].batch.HasId(id);
    assert Knows(s.batches, here, id);
    AckFrame(s.batches[0].batch, id, CONSUME_SUCCESS);
    more, t := Then(acts, s, p, AckTell(here, "", id, CONSUME_SUCCESS));
    more, t := Erases(more, t, p, here);
  }

  lemma AckFrame(b: Batch, id: string, v: ConsumeStatus)
    ensures Ack(b, id, v).units == b.units && (b.released ==> Ack(b, id, v).released)
    ensures Awaits(b, id) ==> b.fetched != []
  {
  }

  lemma Erases(acts: seq<Action>, s: Sys, p: Policy, key: string) returns (more: seq<Action>, t: Sys)
    requires Reached(acts, s, p) && |s.batches| == 1 && s.batches[0].registered && s.batches[0].batch.released
    ensures Reached(more, t, p) && t == s.(batches := [s.batches[0].(registered := false)])
  {
    more, t := Then(acts, s, p, BatchErased(0));
  }

  /** Meanwhile the broker brings the id again, and the matcher hands it to the call that waits. */
  lemma HandsOutAgain(acts: seq<Action>, s: Sys, p: Policy, id: string, here: string, there: string)
    returns (more: seq<Action>, t: Sys)
    requires Reached(acts, s, p) && s.telling == Some(id) && p.gap && p.again(id, here, there)
    requires |s.batches| == 1 && s.batches[0].key == here && !s.batches[0].registered
    requires s.units == [PoolUnit(0, here, "", id, 0, ConsumeAck), PoolUnit(1, there, "", "", 0, ProxyConsumeInit)]
    requires s.pool == [1]
    ensures Reached(more, t, p) && t.telling == Some(id)
    ensures |t.batches| == 2 && t.batches[1] == Loaded(there, true, Pop(Whole(id)))
    ensures t.pool == [1] && id in t.index && t.index[id] == 1
    ensures t.units == [PoolUnit(0, here, "", id, 0, ConsumeAck), PoolUnit(1, there, "", id, 0, ClientReceive)]
  {
    hide Ack, Create, AllAllowed;
    assert there + "" == there;
    OneBatch(id, CONSUME_SUCCESS);
    more, t := ArrivesThere(acts, s, p, id, here, there);
    hide Next, Enabled, Reached;
    more, t := HandsOutThere(more, t, p, id, here, there);
  }

  lemma ArrivesThere(acts: seq<Action>, s: Sys, p: Policy, id: string, here: string, there: string)
    returns (more: seq<Action>, t: Sys)
    requires Reached(acts, s, p) && p.again(id, here, there) && |s.batches| == 1 && s.batches[0].key == here
    ensures Reached(more, t, p) && t == s.(batches := s.batches + [Loaded(there, true, Whole(id))])
  {
    hide Ack, Create, AllAllowed;
    assert there + "" == there;
    forall i: int, j: int | 0 <= i < |s.batches| && 0 <= j < 1 && s.batches[i].batch.HasId(One(id)[j].id)
      ensures p.again(One(id)[j].id, s.batches[i].key, there + "") {}
    more, t := Then(acts, s, p, BatchArrives(there, "", One(id)));
  }

  lemma HandsOutThere(acts: seq<Action>, s: Sys, p: Policy, id: string, here: string, there: string)
    returns (more: seq<Action>, t: Sys)
    requires Reached(acts, s, p) && s.telling == Some(id) && p.gap
    requires |s.batches| == 2 && s.batches[1] == Loaded(there, true, Whole(id)) && s.batches[1].Offers(there)
    requires s.units == [PoolUnit(0, here, "", id, 0, ConsumeAck), PoolUnit(1, there, "", "", 0, ProxyConsumeInit)]
    requires s.pool == [1]
    ensures Reached(more, t, p) && t.telling == Some(id)
    ensures |t.batches| == 2 && t.batches[1] == Loaded(there, true, Pop(Whole(id)))
    ensures t.pool == [1] && id in t.index && t.index[id] == 1
    ensures t.units == [PoolUnit(0, here, "", id, 0, ConsumeAck), PoolUnit(1, there, "", id, 0, ClientReceive)]
  {
    hide Ack, Create, AllAllowed;
    assert there + "" == there;
    OneBatch(id, CONSUME_SUCCESS);
    more, t := Then(acts, s, p, Match(1));
  }

  /**
   * A message is acknowledged twice. Between the two halves of the second acknowledgement its
   * batch is erased, its id arrives again, at the same consumer or another, and is handed out; and
   * the mark falls on the new guard. The two batches are never registered together.
   */
  lemma RepeatedAckLosesGuard(id: string, here: string, there: string, p: Policy) returns (acts: seq<Action>, s: Sys)
    requires p.gap && p.again(id, here, there)
    ensures Reached(acts, s, p) && s.telling == None && Forgotten(s) && Stranded(s)
  {
    OneBatch(id, CONSUME_SUCCESS);
    acts, s := Serves(p, id, here, there);
    acts, s := TellsAgain(acts, s, p, id, here, there);
    acts, s := HandsOutAgain(acts, s, p, id, here, there);
    acts, s := MarksLater(acts, s, p, id, here, there);
  }

  lemma MarksLater(acts: seq<Action>, s: Sys, p: Policy, id: string, here: string, there: string)
    returns (more: seq<Action>, t: Sys)
    requires Reached(acts, s, p) && s.telling == Some(id)
    requires |s.batches| == 2 && s.batches[1] == Loaded(there, true, Pop(Whole(id)))
    requires s.pool == [1] && id in s.index && s.index[id] == 1
    requires s.units == [PoolUnit(0, here, "", id, 0, ConsumeAck), PoolUnit(1, there, "", id, 0, ClientReceive)]
    ensures Reached(more, t, p) && t.telling == None && Forgotten(t) && Stranded(t)
  {
    hide AllAllowed, Ack, Create;
    OneBatch(id, CONSUME_SUCCESS);
    more, t := Then(acts, s, p, AckMark);
    assert IsForgotten(t, 1, 0) && IsStranded(t, 1);
  }

  // ---------------------------------------------------------------------------
  // An acknowledgement before the message was handed out
  // ---------------------------------------------------------------------------

  /** The message is handed out between the two halves of its own acknowledgement. */
  lemma EarlyAckStrands(id: string, key: string, p: Policy) returns (acts: seq<Action>, s: Sys)
    requires p.gap && p.early(id, key)
    ensures Reached(acts, s, p) && s.telling == None && Stranded(s)
  {
    hide Ack, Create, AllAllowed;
    assert key + "" == key;
    OneBatch(id, CONSUME_SUCCESS);
    acts, s := Arrives(p, id, key);
    assert s.batches[0].batch.HasId(id);
    assert Knows(s.batches, key, id);
    acts, s := Then(acts, s, p, AckTell(key, "", id, CONSUME_SUCCESS));
    hide Next, Enabled, Reached, Stranded;
    acts, s := HandsOutEarly(acts, s, p, id, key);
    acts, s := MarksEarly(acts, s, p, id, key);
  }

  lemma MarksEarly(acts: seq<Action>, s: Sys, p: Policy, id: string, key: string) returns (more: seq<Action>, t: Sys)
    requires Reached(acts, s, p) && s.telling == Some(id)
    requires |s.batches| == 1 && s.batches[0].key == key && s.batches[0].registered
    requires s.batches[0].batch.fetched == [] && !s.batches[0].batch.released
    requires s.units == [PoolUnit(0, key, "", id, 0, ClientReceive)] && s.pool == [0]
    requires id in s.index && s.index[id] == 0
    ensures Reached(more, t, p) && t.telling == None && Stranded(t)
  {
    hide AllAllowed;
    more, t := Then(acts, s, p, AckMark);
    assert IsStranded(t, 0);
  }

  lemma HandsOutEarly(acts: seq<Action>, s: Sys, p: Policy, id: string, key: string) returns (more: seq<Action>, t: Sys)
    requires Reached(acts, s, p) && p.gap && s.telling == Some(id)
    requires s.batches == [Loaded(key, true, Ack(Whole(id), id, CONSUME_SUCCESS))]
    requires s.units == [PoolUnit(0, key, "", "", 0, ProxyConsumeInit)] && s.pool == [0]
    ensures Reached(more, t, p) && t.telling == Some(id)
    ensures |t.batches| == 1 && t.batches[0].key == key && t.batches[0].registered
    ensures t.batches[0].batch.fetched == [] && !t.batches[0].batch.released
    ensures t.batches[0].batch.units == Whole(id).units
    ensures t.units == [PoolUnit(0, key, "", id, 0, ClientReceive)] && t.pool == [0]
    ensures id in t.index && t.index[id] == 0
  {
    hide Ack, Create, AllAllowed;
    assert key + "" == key;
    OneBatch(id, CONSUME_SUCCESS);
    assert s.batches[0].Offers(key);
    more, t := Then(acts, s, p, Match(0));
  }

  lemma EmptyStrands(p: Policy) returns (acts: seq<Action>, s: Sys)
    requires p.empties
    ensures Reached(acts, s, p) && s.telling == None && Stranded(s)
  {
    acts, s := Then([], INIT, p, BatchArrives("k", "", []));
    assert IsStranded(s, 0) && 0 <= 0 < |s.batches|;
  }

  // ---------------------------------------------------------------------------
  // Exactly when
  // ---------------------------------------------------------------------------

  ghost predicate CanForget(p: Policy) {
    exists acts, s :: Reached(acts, s, p) && Forgotten(s)
  }

  ghost predicate CanStrand(p: Policy) {
    exists acts, s :: Reached(acts, s, p) && Stranded(s)
  }

  lemma UnsafeForgets(p: Policy) returns (acts: seq<Action>, s: Sys)
    requires !Safe(p)
    ensures Reached(acts, s, p) && Forgotten(s) && Stranded(s)
  {
    var id, here, there :| p.again(id, here, there) && !(here == there && !p.gap);
    if here != there {
      acts, s := SharedIdLosesGuard(id, here, there, p);
    } else {
      acts, s := RepeatedAckLosesGuard(id, here, there, p);
    }
  }

  lemma NoneForgotten(acts: seq<Action>, s: Sys, p: Policy)
    requires Safe(p) && Reached(acts, s, p)
    ensures !Forgotten(s)
  {
    KeptAlways(acts, p);
    forall i, h | 0 <= i < |s.batches| ensures !IsForgotten(s, i, h) {
      assert KeptOne(s, i, p);
    }
  }

  /**
   * A message can be forgotten if and only if some id can arrive in two batches, and these are at
   * different consumers or the matcher can run between the two halves of an acknowledgement.
   */
  lemma ForgetsExactly(p: Policy)
    ensures CanForget(p) <==> exists id, here, there :: p.again(id, here, there) && (here != there || p.gap)
  {
    if Safe(p) {
      forall acts, s | Reached(acts, s, p) ensures !Forgotten(s) { NoneForgotten(acts, s, p); }
    } else {
      var acts, s := UnsafeForgets(p);
    }
  }

  lemma NoneStranded(acts: seq<Action>, s: Sys, p: Policy)
    requires Strict(p) && Reached(acts, s, p)
    ensures !Stranded(s)
  {
    KeptAlways(acts, p);
    forall i | 0 <= i < |s.batches| ensures !IsStranded(s, i) {
      assert LiveOne(s, i, p);
    }
  }

  /**
   * A fetched batch can be left unreleased without a guard if and only if a message can be
   * forgotten, or empty batches arrive, or a message can be acknowledged before it is handed out
   * and the matcher can run between the two halves of an acknowledgement.
   */
  lemma StrandsExactly(p: Policy)
    ensures CanStrand(p) <==>
      || p.empties
      || (exists id, here, there :: p.again(id, here, there) && (here != there || p.gap))
      || (p.gap && exists id, key :: p.early(id, key))
  {
    if Strict(p) {
      forall acts, s | Reached(acts, s, p) ensures !Stranded(s) { NoneStranded(acts, s, p); }
    } else {
      var acts, s;
      if !Safe(p) {
        acts, s := UnsafeForgets(p);
      } else if p.empties {
        acts, s := EmptyStrands(p);
      } else {
        var id, key :| p.early(id, key);
        acts, s := EarlyAckStrands(id, key, p);
      }
    }
  }

  // ---------------------------------------------------------------------------
  // A timeout that overwrites an acknowledged status
  // ---------------------------------------------------------------------------

  /**
   * Deleting the handler of an acknowledgement that was not known erases the id from idUnitMap.
   * The acknowledgement that is known then marks nothing, and ten seconds later the guard tells
   * the batch, which its broker thread has not erased yet, RECONSUME_LATER over CONSUME_SUCCESS.
   */
  lemma UnknownAckOverwrites(id: string, key: string, other: string, p: Policy) returns (acts: seq<Action>, s: Sys)
    requires key != other
    ensures Reached(acts, s, p) && |s.batches| == 1 && s.batches[0].registered && s.batches[0].batch.released
    ensures 0 in s.batches[0].batch.statuses && s.batches[0].batch.statuses[0] == RECONSUME_LATER
    ensures AckTell(key, "", id, CONSUME_SUCCESS) in acts
    ensures forall a :: a in acts && a.AckTell? ==> a.s == CONSUME_SUCCESS
  {
    hide Next, Enabled, Reached, Ack, Create;
    acts, s := HandsOut(p, id, key);
    acts, s := LosesEntry(acts, s, p, id, key, other);
    acts, s := AcknowledgesUnmarked(acts, s, p, id, key);
    acts, s := TimesOut(acts, s, p, id, key);
  }

  lemma TimesOut(acts: seq<Action>, s: Sys, p: Policy, id: string, key: string) returns (more: seq<Action>, t: Sys)
    requires Reached(acts, s, p) && s.telling == None && s.now == 0
    requires s.batches == [Loaded(key, true, Ack(Pop(Whole(id)), id, CONSUME_SUCCESS))]
    requires s.units == [PoolUnit(0, key, "", id, 0, ClientReceive)] && s.pool == [0]
    ensures more == acts + [Tick(10)] + [Match(-1)] && Reached(more, t, p)
    ensures |t.batches| == 1 && t.batches[0].registered && t.batches[0].batch.released
    ensures 0 in t.batches[0].batch.statuses && t.batches[0].batch.statuses[0] == RECONSUME_LATER
  {
    hide Ack, Create, AllAllowed;
    assert key + "" == key;
    ToldTwice(id);
    more, t := Then(acts, s, p, Tick(10));
    more, t := Then(more, t, p, Match(-1));
  }

  lemma ToldTwice(id: string)
    ensures var r := Ack(Ack(Pop(Whole(id)), id, CONSUME_SUCCESS), id, RECONSUME_LATER);
      r.released && 0 in r.statuses && r.statuses[0] == RECONSUME_LATER
  {
    OneBatch(id, CONSUME_SUCCESS);
    assert Ack(Pop(Whole(id)), id, CONSUME_SUCCESS).Carries(0, id);
  }

  /**
   * The guard times out between the two halves of its own acknowledgement, which is past its
   * deadline: the mark falls on the guard, but too late.
   */
  lemma GapOverwrites(id: string, key: string, p: Policy) returns (acts: seq<Action>, s: Sys)
    requires p.gap
    ensures Reached(acts, s, p) && |s.batches| == 1 && s.batches[0].registered && s.batches[0].batch.released
    ensures 0 in s.batches[0].batch.statuses && s.batches[0].batch.statuses[0] == RECONSUME_LATER
    ensures acts == [BatchArrives(key, "", One(id)), ConsumeRequest(0, key, ""), Match(0), Tick(10),
                     AckTell(key, "", id, CONSUME_SUCCESS), Match(-1), AckMark]
    ensures id in s.index && s.index[id] == 0 && s.units[0].status == ConsumeAck
  {
    hide Next, Enabled, Reached, Ack, Create;
    acts, s := HandsOut(p, id, key);
    acts, s := TellsLate(acts, s, p, id, key);
    acts, s := MarksTooLate(acts, s, p, id, key);
  }

  lemma TellsLate(acts: seq<Action>, s: Sys, p: Policy, id: string, key: string) returns (more: seq<Action>, t: Sys)
    requires HandedOut(acts, s, p, id, key)
    ensures more == acts + [Tick(10)] + [AckTell(key, "", id, CONSUME_SUCCESS)] && Reached(more, t, p)
    ensures t.batches == [Loaded(key, true, Ack(Pop(Whole(id)), id, CONSUME_SUCCESS))]
    ensures t.units == s.units && t.pool == s.pool && t.index == s.index && t.telling == Some(id) && t.now == 10
  {
    hide Ack, Create, AllAllowed;
    assert key + "" == key;
    OneBatch(id, CONSUME_SUCCESS);
    more, t := Then(acts, s, p, Tick(10));
    assert t.batches[0].batch.HasId(id);
    assert Knows(t.batches, key, id);
    more, t := Then(more, t, p, AckTell(key, "", id, CONSUME_SUCCESS));
  }

  lemma MarksTooLate(acts: seq<Action>, s: Sys, p: Policy, id: string, key: string) returns (more: seq<Action>, t: Sys)
    requires Reached(acts, s, p) && p.gap && s.telling == Some(id) && s.now == 10
    requires s.batches == [Loaded(key, true, Ack(Pop(Whole(id)), id, CONSUME_SUCCESS))]
    requires s.units == [PoolUnit(0, key, "", id, 0, ClientReceive)] && s.pool == [0]
    requires id in s.index && s.index[id] == 0
    ensures more == acts + [Match(-1)] + [AckMark] && Reached(more, t, p)
    ensures |t.batches| == 1 && t.batches[0].registered && t.batches[0].batch.released
    ensures 0 in t.batches[0].batch.statuses && t.batches[0].batch.statuses[0] == RECONSUME_LATER
    ensures t.index == s.index && |t.units| == 1 && t.units[0].status == ConsumeAck
  {
    hide Ack, Create, AllAllowed;
    assert key + "" == key;
    ToldTwice(id);
    more, t := Then(acts, s, p, Match(-1));
    more, t := Then(more, t, p, AckMark);
  }

  lemma LosesEntry(acts: seq<Action>, s: Sys, p: Policy, id: string, key: string, other: string)
    returns (more: seq<Action>, t: Sys)
    requires HandedOut(acts, s, p, id, key) && key != other
    ensures more == acts + [AckTell(other, "", id, CONSUME_SUCCESS)] + [AckDeleted(id)]
    ensures Reached(more, t, p) && t == s.(index := s.index - {id})
  {
    hide Ack, Create, AllAllowed;
    assert other + "" == other;
    more, t := Then(acts, s, p, AckTell(other, "", id, CONSUME_SUCCESS));
    assert t.batches == s.batches;
    more, t := Then(more, t, p, AckDeleted(id));
  }

  lemma AcknowledgesUnmarked(acts: seq<Action>, s: Sys, p: Policy, id: string, key: string)
    returns (more: seq<Action>, t: Sys)
    requires Reached(acts, s, p) && s.batches == [Loaded(key, true, Pop(Whole(id)))] && id !in s.index
    requires s.units == [PoolUnit(0, key, "", id, 0, ClientReceive)] && s.pool == [0] && s.telling == None && s.now == 0
    ensures more == acts + [AckTell(key, "", id, CONSUME_SUCCESS)] + [AckMark]
    ensures Reached(more, t, p) && t.telling == None && t.units == s.units && t.pool == s.pool && t.now == 0
    ensures t.batches == [Loaded(key, true, Ack(Pop(Whole(id)), id, CONSUME_SUCCESS))]
  {
    hide Ack, Create, AllAllowed;
    assert key + "" == key;
    OneBatch(id, CONSUME_SUCCESS);
    assert s.batches[0].batch.HasId(id);
    assert Knows(s.batches, key, id);
    more, t := Then(acts, s, p, AckTell(key, "", id, CONSUME_SUCCESS));
    assert t.batches == [Loaded(key, true, Ack(Pop(Whole(id)), id, CONSUME_SUCCESS))];
    more, t := Then(more, t, p, AckMark);
  }
}
