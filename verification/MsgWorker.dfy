/** MsgWorker as an object whose fields the matcher, the acknowledgements and the calls update in place. */
module MsgWorkers {
  import opened BatchModel
  import opened Options
  import opened Matcher
  import opened MatcherCalls
  import opened MatcherDrain
  import opened MatcherGuards

  class MsgWorker {
    var batches: seq<Loaded>
    var units: seq<PoolUnit>
    var consumeMsgPool: seq<int>
    var idUnitMap: map<string, int>
    var calls: seq<Call>
    ghost var telling: Option<string>   // where the thread that handles acknowledgements is
    var now: int

    ghost function Value(): Sys
      reads this
    {
      Sys(batches, units, consumeMsgPool, idUnitMap, calls, telling, now)
    }

    /** Before anything has arrived: one call object listens. */
    constructor ()
      ensures Value() == INIT
    {
      batches, units, consumeMsgPool, idUnitMap := [], [], [], map[];
      calls, now := [Call(Listening, "", "", "", 0, None)], 0;
      telling := None;
    }

    /** A batch of this consumer that has a message left, or -1 if there is none. */
    method FindBatch(key: string) returns (from: int)
      ensures if CanFetch(batches, key) then 0 <= from < |batches| && batches[from].Offers(key) else from == -1
    {
      for i := 0 to |batches|
        invariant forall j :: 0 <= j < i ==> !batches[j].Offers(key)
      {
        if batches[i].Offers(key) {
          return i;
        }
      }
      return -1;
    }

    method SetMsgAck(key: string, msgId: string, s: ConsumeStatus) returns (ret: bool)
      modifies this`batches
      ensures batches == AckAll(old(batches), key, msgId, s)
      ensures ret <==> Knows(old(batches), key, msgId)
    {
      hide Ack, AckAll, Knows;
      ghost var was, all := batches, AckAll(batches, key, msgId, s);
      ret := false;
      assert !Knows(was[..0], key, msgId) by { KnowsNone(key, msgId); }
      for i := 0 to |batches|
        invariant |batches| == |was| && batches == all[..i] + was[i..]
        invariant ret <==> Knows(was[..i], key, msgId)
      {
        var l := batches[i];
        AckedAt(was, i, key, msgId, s);
        if l.registered && l.key == key {
          if l.batch.HasId(msgId) {
            ret := true;
          }
          batches := batches[i := l.(batch := Ack(l.batch, msgId, s))];
        }
        KnowsMore(was, i, key, msgId);
      }
      assert was[..|was|] == was;
    }

    /** The state an iteration starts from, once it has popped the unit. */
    ghost function Popped(unit: int): Sys
      reads this
    {
      Value().(pool := [unit] + consumeMsgPool)
    }

    /** The body of loopMatch's inner loop up to where it pushes to tmp or continues. */
    method Serve(unit: int) returns (keep: bool, ghost from: int)
      requires Wired(Popped(unit))
      modifies this`batches, this`units, this`idUnitMap, this`calls
      ensures Wired(old(Popped(unit))) && Enabled(old(Popped(unit)), Match(from))
      ensures MatchOne(old(Popped(unit)), from) ==
              Value().(pool := consumeMsgPool + if keep then [unit] else [])
    {
      ghost var s := Popped(unit);
      assert Head(s) == unit && s.pool[1..] == consumeMsgPool;
      assert consumeMsgPool + [] == consumeMsgPool;
      var u := units[unit];
      from, keep := -1, true;
      if u.status == ProxyConsumeInit {
        var i := FindBatch(u.Key());
        from := i;
        if i >= 0 {
          Answer(unit, i);
        } else if u.IsFetchMsgTimeout(now) {
          calls := calls[u.call := calls[u.call].(phase := Answered, finishes := calls[u.call].finishes + 1)];
          keep := false;
        }
      } else if u.status == ClientReceive {
        if u.IsAckTimeout(now) {
          var _ := SetMsgAck(u.Key(), u.msgId, RECONSUME_LATER);
          keep := false;
        }
      } else {
        keep := false;
      }
    }

    /** ConsumeCallData::process */
    method ConsumeProcess(c: int, topic: string, group: string)
      requires Wired(Value()) && Enabled(Value(), ConsumeRequest(c, topic, group))
      modifies this`calls, this`units, this`consumeMsgPool
      ensures Value() == Next(old(Value()), ConsumeRequest(c, topic, group))
    {
      calls := calls[c := calls[c].(phase := Pending, topic := topic, group := group)]
        + [Call(Listening, "", "", "", 0, None)];
      units := units + [PoolUnit(c, topic, group, "", now, ProxyConsumeInit)];
      consumeMsgPool := consumeMsgPool + [|units| - 1];
    }

    /** The first half of an acknowledgement: the batches are told. */
    method AckTells(topic: string, group: string, msgId: string, s: ConsumeStatus) returns (success: bool)
      requires Wired(Value()) && telling == None
      modifies this`batches, this`telling
      ensures Value() == Next(old(Value()), AckTell(topic, group, msgId, s))
      ensures success <==> Knows(old(batches), topic + group, msgId)
      ensures telling == if success then Some(msgId) else None
    {
      success := SetMsgAck(topic + group, msgId, s);
      telling := if success then Some(msgId) else None;
    }

    /** The second half: whatever unit idUnitMap has for the id by now is marked. */
    method AckMarks(msgId: string)
      requires Wired(Value()) && telling == Some(msgId)
      modifies this`units, this`telling
      ensures Value() == Next(old(Value()), AckMark)
    {
      if msgId in idUnitMap {
        var unit := idUnitMap[msgId];
        units := units[unit := units[unit].(status := ConsumeAck)];
      }
      telling := None;
    }

    /** ConsumeAckCallData::process, with nothing in between; the reply says whether any batch knew the id. */
    method AckProcess(topic: string, group: string, msgId: string, s: ConsumeStatus) returns (success: bool)
      requires Wired(Value()) && telling == None
      modifies this`batches, this`units, this`telling
      ensures success <==> Knows(old(batches), topic + group, msgId)
      ensures var told := Next(old(Value()), AckTell(topic, group, msgId, s));
        Wired(told) && (success ==> Enabled(told, AckMark)) && Value() == if success then Next(told, AckMark) else told
    {
      WiredStep(Value(), AckTell(topic, group, msgId, s));
      success := AckTells(topic, group, msgId, s);
      if success {
        AckMarks(msgId);
      }
    }

    /** ConsumeCallData::cancel, whose Proceed deletes the call object. */
    method Cancel(c: int)
      requires Wired(Value()) && Enabled(Value(), Returned(c, false))
      modifies this`batches, this`calls, this`idUnitMap
      ensures Value() == Next(old(Value()), Returned(c, false))
    {
      var call := calls[c];
      if |call.msgId| > 0 {
        var _ := SetMsgAck(call.topic + call.group, call.msgId, RECONSUME_LATER);
        idUnitMap := idUnitMap - {call.msgId};
      }
      calls := calls[c := call.(phase := Deleted)];
    }

    /** ConsumeCallData::del, when the reply was sent: the call object goes, and nothing else changes. */
    method Del(c: int)
      requires Wired(Value()) && Enabled(Value(), Returned(c, true))
      modifies this`calls
      ensures Value() == Next(old(Value()), Returned(c, true))
      ensures batches == old(batches) && units == old(units) && consumeMsgPool == old(consumeMsgPool)
      ensures idUnitMap == old(idUnitMap) && |calls| == |old(calls)|
      ensures forall d :: 0 <= d < |calls| ==>
                calls[d] == if d == c then old(calls)[d].(phase := Deleted) else old(calls)[d]
    {
      calls := calls[c := calls[c].(phase := Deleted)];
    }

    /** getMsg, and then the closure of loopMatch. */
    method Answer(unit: int, from: int)
      requires Wired(Popped(unit)) && 0 <= unit < |units|
      requires 0 <= from < |batches| && batches[from].batch.fetched != []
      modifies this`batches, this`units, this`idUnitMap, this`calls
      ensures Value() == old(Deliver(Popped(unit), unit, from).(pool := consumeMsgPool))
    {
      var l, u := batches[from], units[unit];
      var h := l.batch.fetched[0];
      batches := batches[from := l.(batch := l.batch.(fetched := l.batch.fetched[1..]))];
      var id := l.batch.units[h].msgId;
      units := units[unit := u.(msgId := id, status := ClientReceive)];
      idUnitMap := idUnitMap[id := unit];
      var call := calls[u.call];
      calls := calls[u.call :=
        call.(phase := Answered, msgId := id, finishes := call.finishes + 1, got := Some((from, h)))];
    }

    /** One turn of the inner loop: tmp is empty when it begins and, on every path, when it ends. */
    method Iterate(pushed: seq<int>) returns (tmp: seq<int>, ghost from: int)
      requires Wired(Value()) && consumeMsgPool != [] && pushed == []
      modifies this`consumeMsgPool, this`batches, this`units, this`idUnitMap, this`calls
      ensures tmp == []
      ensures Wired(old(Value())) && Enabled(old(Value()), Match(from))
      ensures Value() == MatchOne(old(Value()), from)
    {
      ghost var s := Value();
      tmp := pushed;
      var unit := consumeMsgPool[0];
      consumeMsgPool := consumeMsgPool[1..];
      assert Popped(unit) == s;
      var keep: bool;
      keep, from := Serve(unit);
      if !keep {
        assert consumeMsgPool + [] == consumeMsgPool;
        return tmp, from;
      }
      tmp := tmp + [unit];
      ghost var whole := consumeMsgPool + tmp;
      while tmp != []
        invariant consumeMsgPool + tmp == whole
        invariant Value() == MatchOne(s, from).(pool := consumeMsgPool)
        decreases |tmp|
      {
        unit, tmp := tmp[0], tmp[1..];
        consumeMsgPool := consumeMsgPool + [unit];
      }
      assert consumeMsgPool + [] == consumeMsgPool && whole == MatchOne(s, from).pool;
    }

    /**
     * The inner loop of loopMatch with nothing pushed from outside and the clock past every
     * deadline: it ends with an empty pool, having done nothing but iterations of the matcher. If
     * what came before was as some policy allows, every completely fetched batch is then released.
     */
    method LoopMatch(ghost p: Policy) returns (ghost acts: seq<Action>)
      requires Orderly(Value()) && AllPastDeadline(Value())
      modifies this
      ensures consumeMsgPool == []
      ensures Drained(old(Value()), acts, Value())
      ensures Reliable(old(Value()), p) ==> AllReleased(Value())
    {
      acts := [];
      var tmp := [];
      while consumeMsgPool != []
        invariant tmp == [] && Drained(old(Value()), acts, Value())
        decreases PoolWeight(Value())
      {
        var time: int :| time >= now;
        ghost var s := Value();
        TimePasses(s, time);
        now := time;
        ghost var from: int;
        tmp, from := Iterate(tmp);
        acts := Turn(old(Value()), acts, s, time, from, Value());
      }
      if Reliable(old(Value()), p) {
        ReliableDrain(old(Value()), acts, p);
        EmptyPoolReleases(Value(), p);
      }
    }
  }

  /** Iterations of the matcher, while time passes, lead from s0 to s; every unit left is past its deadline. */
  ghost predicate Drained(s0: Sys, acts: seq<Action>, s: Sys) {
    Orderly(s) && AllPastDeadline(s) && OnlyMatches(acts) && Exec(s0, acts) == Some(s)
  }

  lemma TimePasses(s: Sys, time: int)
    requires Orderly(s) && AllPastDeadline(s) && time >= s.now
    ensures var t := s.(now := time); Orderly(t) && AllPastDeadline(t) && PoolWeight(t) == PoolWeight(s)
  {
    PastDeadlineStays(s, Tick(time - s.now));
  }

  lemma Turn(s0: Sys, acts: seq<Action>, s: Sys, time: int, from: int, t: Sys) returns (more: seq<Action>)
    requires Drained(s0, acts, s) && time >= s.now
    requires var r := s.(now := time); Wired(r) && Enabled(r, Match(from)) && t == MatchOne(r, from)
    ensures Drained(s0, more, t) && PoolWeight(t) < PoolWeight(s)
  {
    var r := s.(now := time);
    TimePasses(s, time);
    more := TickThenMatch(s0, acts, s, time, from);
    assert Head(r) in r.pool;
    PastDeadlineStays(r, Match(from));
    WeightDrops(r, from);
  }

  lemma TickThenMatch(s0: Sys, acts: seq<Action>, s: Sys, time: int, from: int) returns (more: seq<Action>)
    requires OnlyMatches(acts) && Exec(s0, acts) == Some(s) && time >= s.now
    requires var r := s.(now := time); Wired(r) && Enabled(r, Match(from))
    ensures OnlyMatches(more) && Exec(s0, more) == Some(MatchOne(s.(now := time), from))
  {
    var t := s.(now := time);
    assert Wired(s) && Next(s, Tick(time - s.now)) == t;
    var mid := OneMore(s0, acts, s, Tick(time - s.now));
    more := OneMore(s0, mid, t, Match(from));
  }

  lemma OneMore(s0: Sys, acts: seq<Action>, s: Sys, a: Action) returns (more: seq<Action>)
    requires OnlyMatches(acts) && Exec(s0, acts) == Some(s) && Wired(s) && Enabled(s, a) && (a.Match? || a.Tick?)
    ensures OnlyMatches(more) && Exec(s0, more) == Some(Next(s, a))
  {
    hide Next, Wired;
    more := acts + [a];
    assert more[..|more| - 1] == acts;
  }

  lemma AckedAt(was: seq<Loaded>, i: nat, key: string, id: string, s: ConsumeStatus)
    requires i < |was|
    ensures var all, l := AckAll(was, key, id, s), was[i];
      && |all| == |was| && (all[..i] + was[i..])[i] == l
      && (all[..i] + was[i..])[i := if l.registered && l.key == key then l.(batch := Ack(l.batch, id, s)) else l]
        == all[..i + 1] + was[i + 1..]
  {
  }

  lemma KnowsNone(key: string, id: string)
    ensures !Knows([], key, id)
  {
  }

  lemma KnowsMore(batches: seq<Loaded>, i: nat, key: string, id: string)
    requires i < |batches|
    ensures Knows(batches[..i + 1], key, id) <==>
            || Knows(batches[..i], key, id)
            || (batches[i].registered && batches[i].key == key && batches[i].batch.HasId(id))
  {
    var a, b := batches[..i], batches[..i + 1];
    if k :| 0 <= k < |b| && b[k].registered && b[k].key == key && b[k].batch.HasId(id) {
      assert k < i ==> a[k] == b[k];
    }
    if k :| 0 <= k < |a| && a[k].registered && a[k].key == key && a[k].batch.HasId(id) {
      assert b[k] == a[k];
    }
    assert b[i] == batches[i];
  }
}
