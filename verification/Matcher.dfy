/**
 * The matcher, the pending Consume calls and the batches of every consumer as one step relation.
 * One iteration of loopMatch's inner loop and one event of the completion queue are one step each,
 * except that an acknowledgement takes two: the batches are told first, and the unit that
 * idUnitMap then gives for the id is marked afterwards. In between the thread that handles the
 * completion queue does nothing else, but the broker threads and the matcher go on.
 *
 * ConsumeMsgUnit objects live in `units` and are named by their position, so that the pool and
 * idUnitMap can share them as the pointers in the code do. A consumer is found by topic + group,
 * concatenated.
 */
module Matcher {
  import opened BatchModel
  import opened Options

  const MAX_MSG_WAIT_CONSUME_TIME := 10
  const MAX_MSG_WAIT_CONSUME_ACK_TIME := 10

  datatype PoolStatus = ProxyConsumeInit | ClientReceive | ConsumeAck

  /** ConsumeMsgUnit */
  datatype PoolUnit = PoolUnit(call: nat, topic: string, group: string, msgId: string, lastActiveAt: int,
                               status: PoolStatus)
  {
    function Key(): string {
      topic + group
    }

    predicate IsFetchMsgTimeout(now: int) {
      status == ProxyConsumeInit && now - lastActiveAt >= MAX_MSG_WAIT_CONSUME_TIME
    }

    predicate IsAckTimeout(now: int) {
      status == ClientReceive && now - lastActiveAt >= MAX_MSG_WAIT_CONSUME_ACK_TIME
    }
  }

  /**
   * A ConsumeCallData object: its accept tag is in the completion queue, it has no tag there, its
   * Finish tag is there, or it has been deleted. `got` is the message it was answered with.
   */
  datatype Phase = Listening | Pending | Answered | Deleted

  datatype Call = Call(phase: Phase, topic: string, group: string, msgId: string, finishes: nat,
                       got: Option<(int, int)>)

  /** A batch, the consumer it came from, and whether it is still in that consumer's lockers. */
  datatype Loaded = Loaded(key: string, registered: bool, batch: Batch) {
    predicate Offers(k: string) {
      registered && key == k && batch.fetched != []
    }
  }

  datatype Sys = Sys(
    batches: seq<Loaded>,
    units: seq<PoolUnit>,
    pool: seq<int>,              // consumeMsgPool
    index: map<string, int>,     // idUnitMap
    calls: seq<Call>,
    telling: Option<string>,     // the id of an acknowledgement that was known, its unit not yet marked
    now: int)

  const INIT := Sys([], [], [], map[], [Call(Listening, "", "", "", 0, None)], None, 0)

  datatype Action =
    | BatchArrives(topic: string, group: string, msgs: seq<Message>)
    | BatchErased(i: int)
    | ConsumeRequest(c: int, topic: string, group: string)   // the accept tag returns ok
    | AcceptCancelled(c: int)                                // the accept tag returns not ok
    | Match(from: int)                                       // one iteration; from is the batch a message is taken from
    | AckTell(topic: string, group: string, id: string, s: ConsumeStatus)   // an ack: the batches are told
    | AckMark                                                // and the unit is marked
    | AckDeleted(id: string)                                 // ConsumeAckCallData::del
    | Returned(c: int, ok: bool)                             // the Finish tag returns
    | Tick(seconds: nat)

  /** setMsgAck on one consumer. */
  function AckAll(batches: seq<Loaded>, key: string, id: string, s: ConsumeStatus): (r: seq<Loaded>)
    ensures |r| == |batches|
  {
    seq(|batches|, i requires 0 <= i < |batches| =>
          if batches[i].registered && batches[i].key == key
          then batches[i].(batch := Ack(batches[i].batch, id, s)) else batches[i])
  }

  /** What setMsgAck returns. */
  predicate Knows(batches: seq<Loaded>, key: string, id: string) {
    exists i :: 0 <= i < |batches| && batches[i].registered && batches[i].key == key && batches[i].batch.HasId(id)
  }

  predicate CanFetch(batches: seq<Loaded>, key: string) {
    exists i :: 0 <= i < |batches| && batches[i].Offers(key)
  }

  /** The queue of a batch is what is left of the order of arrival. */
  predicate Tidy(b: Batch) {
    b.Valid() && |b.fetched| <= |b.units| && b.fetched == Range(|b.units| - |b.fetched|, |b.units|)
  }

  /** References are in range, as they are in every reachable state. */
  predicate Wired(s: Sys) {
    && (forall p :: p in s.pool ==> 0 <= p < |s.units|)
    && (forall p :: 0 <= p < |s.units| ==> s.units[p].call < |s.calls|)
    && (forall id :: id in s.index ==> 0 <= s.index[id] < |s.units|)
    && (forall i :: 0 <= i < |s.batches| ==> Tidy(s.batches[i].batch))
  }

  /** The unit the next iteration pops. */
  function Head(s: Sys): (p: int)
    requires Wired(s) && s.pool != []
    ensures p == s.pool[0] && p in s.pool && 0 <= p < |s.units|
  {
    s.pool[0]
  }

  /** Which batch an iteration takes a message from: any that offers one, and none only when none does. */
  predicate Choice(s: Sys, from: int)
    requires Wired(s) && s.pool != []
  {
    var u := s.units[Head(s)];
    if u.status == ProxyConsumeInit && CanFetch(s.batches, u.Key())
    then 0 <= from < |s.batches| && s.batches[from].Offers(u.Key())
    else from == -1
  }

  predicate Enabled(s: Sys, a: Action)
    requires Wired(s)
  {
    match a
    case BatchArrives(_, _, _) => true
    case BatchErased(i) => 0 <= i < |s.batches| && s.batches[i].registered && s.batches[i].batch.released
    case ConsumeRequest(c, _, _) => s.telling == None && 0 <= c < |s.calls| && s.calls[c].phase == Listening
    case AcceptCancelled(c) => s.telling == None && 0 <= c < |s.calls| && s.calls[c].phase == Listening
    case Match(from) => s.pool != [] && Choice(s, from)
    case AckTell(_, _, _, _) => s.telling == None
    case AckMark => s.telling.Some?
    case AckDeleted(_) => s.telling == None
    case Returned(c, _) => s.telling == None && 0 <= c < |s.calls| && s.calls[c].phase == Answered
    case Tick(_) => true
  }

  /** The closure that loopMatch passes to fetchAndConsume. */
  function Deliver(s: Sys, p: int, from: int): Sys
    requires Wired(s) && 0 <= p < |s.units| && 0 <= from < |s.batches| && s.batches[from].batch.fetched != []
  {
    var b, u := s.batches[from].batch, s.units[p];
    var h := b.fetched[0];
    var id := b.units[h].msgId;
    var c := s.calls[u.call];
    s.(batches := s.batches[from := s.batches[from].(batch := Pop(b))],
       units := s.units[p := u.(msgId := id, status := ClientReceive)],
       index := s.index[id := p],
       calls := s.calls[u.call :=
                          c.(phase := Answered, msgId := id, finishes := c.finishes + 1, got := Some((from, h)))])
  }

  function ResponseTimeOut(s: Sys, p: int): Sys
    requires Wired(s) && 0 <= p < |s.units|
  {
    var c := s.calls[s.units[p].call];
    s.(calls := s.calls[s.units[p].call := c.(phase := Answered, finishes := c.finishes + 1)])
  }

  /** ConsumeCallData::process: a new call object listens, and this one waits in the pool. */
  function Accept(s: Sys, c: int, topic: string, group: string): Sys
    requires 0 <= c < |s.calls|
  {
    s.(calls := s.calls[c := s.calls[c].(phase := Pending, topic := topic, group := group)]
                + [Call(Listening, "", "", "", 0, None)],
       units := s.units + [PoolUnit(c, topic, group, "", s.now, ProxyConsumeInit)],
       pool := s.pool + [|s.units|])
  }

  /** One iteration of loopMatch's inner loop. */
  function MatchOne(s: Sys, from: int): Sys
    requires Wired(s) && s.pool != [] && Choice(s, from)
  {
    var p, rest := Head(s), s.pool[1..];
    var u := s.units[p];
    if u.status == ProxyConsumeInit then
      if from >= 0 then Deliver(s, p, from).(pool := rest + [p])
      else if u.IsFetchMsgTimeout(s.now) then ResponseTimeOut(s, p).(pool := rest)
      else s.(pool := rest + [p])
    else if u.status == ClientReceive then
      if u.IsAckTimeout(s.now) then s.(batches := AckAll(s.batches, u.Key(), u.msgId, RECONSUME_LATER), pool := rest)
      else s.(pool := rest + [p])
    else s.(pool := rest)
  }

  /** ConsumeAckCallData::process, up to what setMsgAck returns. */
  function TellAck(s: Sys, key: string, id: string, v: ConsumeStatus): Sys {
    s.(batches := AckAll(s.batches, key, id, v), telling := if Knows(s.batches, key, id) then Some(id) else None)
  }

  /** What it does next when the id was known: whatever unit idUnitMap gives for it by now is marked. */
  function MarkAck(s: Sys): Sys
    requires Wired(s) && s.telling.Some?
  {
    var id, r := s.telling.value, s.(telling := None);
    if id in s.index
    then r.(units := s.units[s.index[id] := s.units[s.index[id]].(status := ConsumeAck)]) else r
  }

  /** The Finish tag of call c returns: del, or cancel and then del. */
  function Return(s: Sys, c: int, ok: bool): Sys
    requires 0 <= c < |s.calls|
  {
    var call := s.calls[c];
    var r := s.(calls := s.calls[c := call.(phase := Deleted)]);
    if !ok && call.msgId != "" then
      r.(batches := AckAll(s.batches, call.topic + call.group, call.msgId, RECONSUME_LATER),
         index := s.index - {call.msgId})
    else r
  }

  function Next(s: Sys, a: Action): Sys
    requires Wired(s) && Enabled(s, a)
  {
    match a
    case BatchArrives(topic, group, msgs) =>
      s.(batches := s.batches + [Loaded(topic + group, true, Create(msgs, group))])
    case BatchErased(i) => s.(batches := s.batches[i := s.batches[i].(registered := false)])
    case ConsumeRequest(c, topic, group) => Accept(s, c, topic, group)
    case AcceptCancelled(c) => s.(calls := s.calls[c := s.calls[c].(phase := Deleted)])
    case Match(from) => MatchOne(s, from)
    case AckTell(topic, group, id, v) => TellAck(s, topic + group, id, v)
    case AckMark => MarkAck(s)
    case AckDeleted(id) => s.(index := s.index - {id})
    case Returned(c, ok) => Return(s, c, ok)
    case Tick(seconds) => s.(now := s.now + seconds)
  }

  /** The state after a run from s, if each action is enabled when its turn comes. */
  function Exec(s: Sys, acts: seq<Action>): Option<Sys> {
    if acts == [] then Some(s)
    else match Exec(s, acts[..|acts| - 1])
      case Some(t) =>
        if Wired(t) && Enabled(t, acts[|acts| - 1]) then Some(Next(t, acts[|acts| - 1])) else None
      case None => None
  }

  lemma AckTidy(b: Batch, id: string, s: ConsumeStatus)
    requires Tidy(b)
    ensures Tidy(Ack(b, id, s))
  {
  }

  lemma PopTidy(b: Batch)
    requires Tidy(b)
    ensures Tidy(Pop(b))
  {
  }

  lemma AckAllTidy(batches: seq<Loaded>, key: string, id: string, s: ConsumeStatus)
    requires forall i :: 0 <= i < |batches| ==> Tidy(batches[i].batch)
    ensures var r := AckAll(batches, key, id, s); forall i :: 0 <= i < |r| ==> Tidy(r[i].batch)
  {
    forall i | 0 <= i < |batches| ensures Tidy(AckAll(batches, key, id, s)[i].batch) {
      AckTidy(batches[i].batch, id, s);
    }
  }

  lemma MatchWired(s: Sys, from: int)
    requires Wired(s) && Enabled(s, Match(from))
    ensures Wired(MatchOne(s, from))
  {
    var u := s.units[Head(s)];
    AckAllTidy(s.batches, u.Key(), u.msgId, RECONSUME_LATER);
    if 0 <= from < |s.batches| { PopTidy(s.batches[from].batch); }
    var t := MatchOne(s, from);
    assert t.pool == s.pool[1..] || t.pool == s.pool[1..] + [s.pool[0]];
    forall p | p in t.pool ensures p in s.pool {}
  }

  lemma AcceptWired(s: Sys, c: int, topic: string, group: string)
    requires Wired(s) && 0 <= c < |s.calls|
    ensures Wired(Accept(s, c, topic, group))
    ensures forall p :: p in Accept(s, c, topic, group).pool <==> p in s.pool || p == |s.units|
    ensures |s.units| !in s.pool
  {
    var t := Accept(s, c, topic, group);
    assert t.pool[|s.pool|] == |s.units|;
  }

  lemma WiredStep(s: Sys, a: Action)
    requires Wired(s) && Enabled(s, a)
    ensures Wired(Next(s, a))
  {
    match a
    case Match(from) => MatchWired(s, from);
    case AckTell(topic, group, id, v) => AckAllTidy(s.batches, topic + group, id, v);
    case Returned(c, ok) =>
      AckAllTidy(s.batches, s.calls[c].topic + s.calls[c].group, s.calls[c].msgId, RECONSUME_LATER);
    case ConsumeRequest(c, topic, group) => AcceptWired(s, c, topic, group);
    case _ =>
  }

  lemma {:induction false} WiredAlways(s: Sys, acts: seq<Action>)
    requires Wired(s) && Exec(s, acts).Some?
    ensures Wired(Exec(s, acts).value)
  {
    if acts != [] {
      var init := acts[..|acts| - 1];
      WiredAlways(s, init);
      WiredStep(Exec(s, init).value, acts[|acts| - 1]);
    }
  }
}
