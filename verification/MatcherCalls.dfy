/** Each Consume call is answered once, and never touched after its answer. */
module MatcherCalls {
  import opened BatchModel
  import opened Options
  import opened Matcher

  /** A call waits in the pool as an INIT unit. */
  ghost predicate Waits(s: Sys, c: int)
    requires Wired(s)
  {
    exists p :: p in s.pool && s.units[p].call == c && s.units[p].status == ProxyConsumeInit
  }

  ghost predicate CallOk(s: Sys, c: int)
    requires Wired(s) && 0 <= c < |s.calls|
  {
    var call := s.calls[c];
    match call.phase
    case Listening =>
      && call.finishes == 0 && call.got == None && call.msgId == ""
      && forall p :: 0 <= p < |s.units| ==> s.units[p].call != c
    case Pending => call.finishes == 0 && call.got == None && call.msgId == "" && Waits(s, c)
    case Answered => call.finishes == 1
    case Deleted => call.finishes <= 1
  }

  ghost predicate UnitOk(s: Sys, p: int)
    requires Wired(s) && 0 <= p < |s.units|
  {
    var u := s.units[p];
    var call := s.calls[u.call];
    && call.topic == u.topic && call.group == u.group
    && (u.status == ProxyConsumeInit && p in s.pool ==> call.phase == Pending)
    && (u.status != ProxyConsumeInit ==>
          call.phase in {Answered, Deleted} && call.msgId == u.msgId && call.finishes == 1)
  }

  /** What a call was answered with is a delivered message of a batch of its own consumer. */
  ghost predicate GotOk(s: Sys, c: int)
    requires 0 <= c < |s.calls|
  {
    s.calls[c].got.Some? ==>
      var (i, h) := s.calls[c].got.value;
      && 0 <= i < |s.batches|
      && s.batches[i].key == s.calls[c].topic + s.calls[c].group
      && 0 <= h < |s.batches[i].batch.units| - |s.batches[i].batch.fetched|
      && s.batches[i].batch.units[h].msgId == s.calls[c].msgId
  }

  /** idUnitMap points at a unit that was given this id. */
  ghost predicate IndexOk(s: Sys, id: string)
    requires Wired(s) && id in s.index
  {
    s.units[s.index[id]].status != ProxyConsumeInit && s.units[s.index[id]].msgId == id
  }

  ghost predicate Orderly(s: Sys) {
    && Wired(s)
    && (forall j, k :: 0 <= j < k < |s.pool| ==> s.pool[j] != s.pool[k])
    && (forall p, q :: 0 <= p < q < |s.units| ==> s.units[p].call != s.units[q].call)
    && (forall c :: 0 <= c < |s.calls| ==> CallOk(s, c) && GotOk(s, c))
    && (forall p :: 0 <= p < |s.units| ==> UnitOk(s, p))
    && (forall id :: id in s.index ==> IndexOk(s, id))
    && (forall c, d :: 0 <= c < d < |s.calls| && s.calls[c].got.Some? ==> s.calls[c].got != s.calls[d].got)
  }

  /** What a change of the batches alone has to leave as it was. */
  ghost predicate SameQueues(s: seq<Loaded>, t: seq<Loaded>) {
    && |t| >= |s|
    && forall i :: 0 <= i < |s| ==>
         && t[i].key == s[i].key && t[i].batch.units == s[i].batch.units && t[i].batch.fetched == s[i].batch.fetched
  }

  lemma AckAllSameQueues(batches: seq<Loaded>, key: string, id: string, v: ConsumeStatus)
    ensures SameQueues(batches, AckAll(batches, key, id, v))
  {
  }

  lemma QuietOrderly(s: Sys, t: Sys)
    requires Orderly(s) && Wired(t) && SameQueues(s.batches, t.batches)
    requires t.calls == s.calls && t.units == s.units && t.pool == s.pool
    requires forall id :: id in t.index ==> id in s.index && t.index[id] == s.index[id]
    ensures Orderly(t)
  {
    forall c | 0 <= c < |t.calls| ensures CallOk(t, c) && GotOk(t, c) { assert CallOk(s, c) && GotOk(s, c); }
    forall p | 0 <= p < |t.units| ensures UnitOk(t, p) { assert UnitOk(s, p); }
    forall id | id in t.index ensures IndexOk(t, id) { assert IndexOk(s, id); }
  }

  lemma RotateOrderly(s: Sys, t: Sys)
    requires Orderly(s) && s.pool != [] && t == s.(pool := s.pool[1..] + [s.pool[0]])
    ensures Orderly(t)
  {
    assert forall p :: p in t.pool <==> p in s.pool;
    forall c | 0 <= c < |t.calls| ensures CallOk(t, c) && GotOk(t, c) { assert CallOk(s, c) && GotOk(s, c); }
    forall p | 0 <= p < |t.units| ensures UnitOk(t, p) { assert UnitOk(s, p); }
    forall id | id in t.index ensures IndexOk(t, id) { assert IndexOk(s, id); }
  }

  lemma DropOrderly(s: Sys, t: Sys)
    requires Orderly(s) && s.pool != [] && t == s.(pool := s.pool[1..])
    requires s.pool[0] in s.pool && s.units[s.pool[0]].status != ProxyConsumeInit
    ensures Orderly(t)
  {
    assert forall p :: p in t.pool <==> p in s.pool && p != s.pool[0];
    forall c | 0 <= c < |t.calls| ensures CallOk(t, c) && GotOk(t, c) {
      assert CallOk(s, c) && GotOk(s, c);
      if p :| p in s.pool && s.units[p].call == c && s.units[p].status == ProxyConsumeInit { assert p in t.pool; }
    }
    forall p | 0 <= p < |t.units| ensures UnitOk(t, p) { assert UnitOk(s, p); }
    forall id | id in t.index ensures IndexOk(t, id) { assert IndexOk(s, id); }
  }

  /** The matcher answers a call only while it is pending. */
  lemma HeadIsPending(s: Sys)
    requires Orderly(s) && s.pool != []
    ensures s.pool[0] in s.pool
    ensures s.units[s.pool[0]].status == ProxyConsumeInit ==>
      var call := s.calls[s.units[s.pool[0]].call]; call.phase == Pending && call.finishes == 0 && call.got == None
  {
    var p := s.pool[0];
    assert p in s.pool && UnitOk(s, p) && CallOk(s, s.units[p].call);
  }

  lemma TimeOutOrderly(s: Sys, p: int, t: Sys)
    requires Orderly(s) && s.pool != [] && p == s.pool[0] && 0 <= p < |s.units|
    requires s.units[p].status == ProxyConsumeInit && t == ResponseTimeOut(s, p).(pool := s.pool[1..])
    ensures Orderly(t)
  {
    HeadIsPending(s);
    assert forall q :: q in t.pool <==> q in s.pool && q != p;
    forall c | 0 <= c < |t.calls| ensures CallOk(t, c) && GotOk(t, c) {
      assert CallOk(s, c) && GotOk(s, c);
      if q :| q in s.pool && s.units[q].call == c && s.units[q].status == ProxyConsumeInit {
        assert c != s.units[p].call ==> q in t.pool;
      }
    }
    forall q | 0 <= q < |t.units| ensures UnitOk(t, q) { assert UnitOk(s, q) && UnitOk(s, p); }
    forall id | id in t.index ensures IndexOk(t, id) { assert IndexOk(s, id); }
  }

  lemma DeliverCall(s: Sys, p: int, from: int, t: Sys, c: int)
    requires Orderly(s) && s.pool != [] && p == s.pool[0] && 0 <= p < |s.units| && s.units[p].status == ProxyConsumeInit
    requires 0 <= from < |s.batches| && s.batches[from].Offers(s.units[p].Key())
    requires t == Deliver(s, p, from).(pool := s.pool[1..] + [p]) && Wired(t) && 0 <= c < |s.calls|
    ensures CallOk(t, c) && GotOk(t, c)
  {
    HeadIsPending(s);
    assert UnitOk(s, p) && CallOk(s, c) && GotOk(s, c);
    assert forall q :: q in t.pool <==> q in s.pool;
    if q :| q in s.pool && s.units[q].call == c && s.units[q].status == ProxyConsumeInit {
      assert c != s.units[p].call ==> q != p && q in t.pool;
    }
  }

  lemma DeliverOrderly(s: Sys, p: int, from: int, t: Sys)
    requires Orderly(s) && s.pool != [] && p == s.pool[0] && 0 <= p < |s.units| && s.units[p].status == ProxyConsumeInit
    requires 0 <= from < |s.batches| && s.batches[from].Offers(s.units[p].Key())
    requires t == Deliver(s, p, from).(pool := s.pool[1..] + [p]) && Wired(t)
    ensures Orderly(t)
  {
    HeadIsPending(s);
    assert UnitOk(s, p);
    assert forall q :: q in t.pool <==> q in s.pool;
    forall c | 0 <= c < |t.calls| ensures CallOk(t, c) && GotOk(t, c) { DeliverCall(s, p, from, t, c); }
    forall q | 0 <= q < |t.units| ensures UnitOk(t, q) { assert UnitOk(s, q); }
    forall id | id in t.index ensures IndexOk(t, id) { assert id in s.index ==> IndexOk(s, id); }
    forall c, d | 0 <= c < d < |t.calls| && t.calls[c].got.Some? ensures t.calls[c].got != t.calls[d].got {
      assert GotOk(s, c) && GotOk(s, d);
    }
  }

  lemma MarkOrderly(s: Sys, q: int, t: Sys)
    requires Orderly(s) && 0 <= q < |s.units| && s.units[q].status != ProxyConsumeInit
    requires t == s.(units := s.units[q := s.units[q].(status := ConsumeAck)])
    ensures Orderly(t)
  {
    forall c | 0 <= c < |t.calls| ensures CallOk(t, c) && GotOk(t, c) {
      assert CallOk(s, c) && GotOk(s, c);
      if p :| p in s.pool && s.units[p].call == c && s.units[p].status == ProxyConsumeInit {
        assert t.units[p] == s.units[p];
      }
    }
    forall p | 0 <= p < |t.units| ensures UnitOk(t, p) { assert UnitOk(s, p); }
    forall id | id in t.index ensures IndexOk(t, id) { assert IndexOk(s, id); }
  }

  lemma RequestCall(s: Sys, c0: int, topic: string, group: string, t: Sys, c: int)
    requires Orderly(s) && Enabled(s, ConsumeRequest(c0, topic, group)) && t == Accept(s, c0, topic, group)
    requires 0 <= c < |t.calls|
    ensures Wired(t) && CallOk(t, c) && GotOk(t, c)
  {
    assert CallOk(s, c0);
    AcceptWired(s, c0, topic, group);
    assert t.units[|s.units|].call == c0 && t.units[|s.units|].status == ProxyConsumeInit;
    if c < |s.calls| {
      assert CallOk(s, c) && GotOk(s, c);
      if p :| p in s.pool && s.units[p].call == c && s.units[p].status == ProxyConsumeInit {
        assert p in t.pool && t.units[p] == s.units[p];
      }
    }
  }

  lemma RequestOrderly(s: Sys, c0: int, topic: string, group: string, t: Sys)
    requires Orderly(s) && Enabled(s, ConsumeRequest(c0, topic, group)) && t == Accept(s, c0, topic, group)
    ensures Orderly(t)
  {
    assert CallOk(s, c0);
    AcceptWired(s, c0, topic, group);
    var n := |s.units|;
    assert t.units[n].call == c0 && t.units[n].status == ProxyConsumeInit;
    assert Waits(t, c0);
    forall c | 0 <= c < |t.calls| ensures CallOk(t, c) && GotOk(t, c) { RequestCall(s, c0, topic, group, t, c); }
    forall p | 0 <= p < |t.units| ensures UnitOk(t, p) { assert p < n ==> UnitOk(s, p); }
    forall id | id in t.index ensures IndexOk(t, id) { assert IndexOk(s, id); }
    forall j, k | 0 <= j < k < |t.pool| ensures t.pool[j] != t.pool[k] {
      assert s.pool[j] in s.pool;
    }
  }

  /** Call c0 is deleted; nothing else changes. */
  lemma DeleteOrderly(s: Sys, c0: int, t: Sys)
    requires Orderly(s) && 0 <= c0 < |s.calls| && s.calls[c0].phase in {Listening, Answered}
    requires t == s.(calls := s.calls[c0 := s.calls[c0].(phase := Deleted)])
    ensures Orderly(t)
  {
    forall c | 0 <= c < |t.calls| ensures CallOk(t, c) && GotOk(t, c) {
      assert CallOk(s, c) && GotOk(s, c);
    }
    forall p | 0 <= p < |t.units| ensures UnitOk(t, p) { assert UnitOk(s, p) && CallOk(s, c0); }
    forall id | id in t.index ensures IndexOk(t, id) { assert IndexOk(s, id); }
  }

  lemma MatchOrderly(s: Sys, from: int)
    requires Orderly(s) && Enabled(s, Match(from))
    ensures Orderly(MatchOne(s, from))
  {
    var p, t := Head(s), MatchOne(s, from);
    var u := s.units[p];
    MatchWired(s, from);
    if u.status == ProxyConsumeInit {
      if from >= 0 { DeliverOrderly(s, p, from, t); }
      else if u.IsFetchMsgTimeout(s.now) { TimeOutOrderly(s, p, t); }
      else { RotateOrderly(s, t); }
    } else if u.status == ClientReceive && !u.IsAckTimeout(s.now) {
      RotateOrderly(s, t);
    } else {
      DropOrderly(s, s.(pool := s.pool[1..]));
      AckAllSameQueues(s.batches, u.Key(), u.msgId, RECONSUME_LATER);
      QuietOrderly(s.(pool := s.pool[1..]), t);
    }
  }

  lemma TellOrderly(s: Sys, key: string, id: string, v: ConsumeStatus)
    requires Orderly(s)
    ensures Orderly(TellAck(s, key, id, v))
  {
    AckAllTidy(s.batches, key, id, v);
    AckAllSameQueues(s.batches, key, id, v);
    QuietOrderly(s, TellAck(s, key, id, v));
  }

  lemma MarkAckOrderly(s: Sys)
    requires Orderly(s) && s.telling.Some?
    ensures Orderly(MarkAck(s))
  {
    var id, r := s.telling.value, s.(telling := None);
    QuietOrderly(s, r);
    if id in s.index {
      assert IndexOk(s, id);
      MarkOrderly(r, s.index[id], MarkAck(s));
    }
  }

  lemma ReturnOrderly(s: Sys, c: int, ok: bool)
    requires Orderly(s) && Enabled(s, Returned(c, ok))
    ensures Orderly(Return(s, c, ok))
  {
    var call := s.calls[c];
    var r := s.(calls := s.calls[c := call.(phase := Deleted)]);
    DeleteOrderly(s, c, r);
    AckAllTidy(s.batches, call.topic + call.group, call.msgId, RECONSUME_LATER);
    AckAllSameQueues(s.batches, call.topic + call.group, call.msgId, RECONSUME_LATER);
    QuietOrderly(r, Return(s, c, ok));
  }

  lemma OrderlyStep(s: Sys, a: Action)
    requires Orderly(s) && Enabled(s, a)
    ensures Orderly(Next(s, a))
  {
    match a
    case Match(from) => MatchOrderly(s, from);
    case AckTell(topic, group, id, v) => TellOrderly(s, topic + group, id, v);
    case AckMark => MarkAckOrderly(s);
    case Returned(c, ok) => ReturnOrderly(s, c, ok);
    case ConsumeRequest(c, topic, group) => RequestOrderly(s, c, topic, group, Next(s, a));
    case AcceptCancelled(c) => DeleteOrderly(s, c, Next(s, a));
    case _ => WiredStep(s, a); QuietOrderly(s, Next(s, a));
  }

  lemma {:induction false} OrderlyAlways(acts: seq<Action>)
    requires Exec(INIT, acts).Some?
    ensures Orderly(Exec(INIT, acts).value)
  {
    if acts == [] {
      assert CallOk(INIT, 0) && GotOk(INIT, 0);
    } else {
      OrderlyAlways(acts[..|acts| - 1]);
      OrderlyStep(Exec(INIT, acts[..|acts| - 1]).value, acts[|acts| - 1]);
    }
  }

  /** The call object the next iteration of the matcher uses, if it uses one. */
  ghost function Touches(s: Sys, from: int): Option<int>
    requires Wired(s) && Enabled(s, Match(from))
  {
    var u := s.units[Head(s)];
    if u.status == ProxyConsumeInit && (from >= 0 || u.IsFetchMsgTimeout(s.now)) then Some(u.call) else None
  }

  /**
   * In every run, each Consume call is finished at most once; a call that has not been answered
   * is still in the pool; and the matcher only ever uses a call object that is alive, still
   * unanswered, and that its iteration answers.
   */
  lemma ExactlyOneAnswer(acts: seq<Action>, c: int)
    requires Exec(INIT, acts).Some? && 0 <= c < |Exec(INIT, acts).value.calls|
    ensures var s := Exec(INIT, acts).value;
      && Wired(s)
      && s.calls[c].finishes <= 1
      && (s.calls[c].phase == Pending <==> Waits(s, c))
      && (s.calls[c].phase == Answered ==> s.calls[c].finishes == 1)
      && forall from :: Enabled(s, Match(from)) && Touches(s, from) == Some(c) ==>
           && s.calls[c].phase == Pending && s.calls[c].finishes == 0
           && MatchOne(s, from).calls[c].phase == Answered && MatchOne(s, from).calls[c].finishes == 1
  {
    OrderlyAlways(acts);
    var s := Exec(INIT, acts).value;
    assert CallOk(s, c);
    if Waits(s, c) {
      var p :| p in s.pool && s.units[p].call == c && s.units[p].status == ProxyConsumeInit;
      assert UnitOk(s, p);
    }
    if s.pool != [] { HeadIsPending(s); }
  }

  /** No message of any batch is the answer to two Consume calls. */
  lemma NoMessageTwice(acts: seq<Action>, c: int, d: int)
    requires Exec(INIT, acts).Some? && 0 <= c < d < |Exec(INIT, acts).value.calls|
    ensures var s := Exec(INIT, acts).value; s.calls[c].got.Some? ==> s.calls[c].got != s.calls[d].got
  {
    OrderlyAlways(acts);
  }

  /**
   * When the answer cannot be sent, the message it carried is acknowledged as RECONSUME_LATER in
   * its batch, if that is still registered, and remembered in the sticky set; the index forgets
   * it. A message with an empty id is left to its guard, and the batches stay as they are.
   */
  lemma FailedReplyReconsumes(acts: seq<Action>, c: int)
    requires Exec(INIT, acts).Some?
    requires Wired(Exec(INIT, acts).value) && Enabled(Exec(INIT, acts).value, Returned(c, false))
    requires Exec(INIT, acts).value.calls[c].got.Some?
    ensures var s := Exec(INIT, acts).value;
      var (i, h) := s.calls[c].got.value;
      && 0 <= i < |s.batches| && 0 <= h < |s.batches[i].batch.units|
      && s.batches[i].batch.units[h].msgId == s.calls[c].msgId
      && var b := Return(s, c, false).batches[i].batch;
      && (s.calls[c].msgId == "" ==> Return(s, c, false).batches == s.batches)
      && (s.calls[c].msgId != "" ==> s.calls[c].msgId !in Return(s, c, false).index)
      && (s.calls[c].msgId != "" && s.batches[i].registered ==>
            && h in b.client && b.client[h] == MsgConsumeAck
            && h in b.statuses && b.statuses[h] == RECONSUME_LATER
            && s.calls[c].msgId in b.reconsume)
  {
    OrderlyAlways(acts);
    var s := Exec(INIT, acts).value;
    assert GotOk(s, c);
    var (i, h) := s.calls[c].got.value;
    assert Tidy(s.batches[i].batch) && h in Handles(|s.batches[i].batch.units|);
    assert s.batches[i].batch.Carries(h, s.calls[c].msgId) && s.batches[i].batch.HasId(s.calls[c].msgId);
  }
}
