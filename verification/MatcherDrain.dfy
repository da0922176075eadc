/** The order in which the matcher serves the pool, and how long a unit can stay in it. */
module MatcherDrain {
  import opened BatchModel
  import opened Options
  import opened Matcher
  import opened MatcherCalls

  // ---------------------------------------------------------------------------
  // Round robin
  // ---------------------------------------------------------------------------

  function MatchCount(acts: seq<Action>): nat {
    if acts == [] then 0
    else MatchCount(acts[..|acts| - 1]) + if acts[|acts| - 1].Match? then 1 else 0
  }

  /** An iteration drops the unit it pops in exactly these cases, and otherwise moves it to the tail. */
  lemma DropsExactly(s: Sys, from: int)
    requires Wired(s) && Enabled(s, Match(from))
    ensures var u, t := s.units[Head(s)], MatchOne(s, from);
      && (t.pool == s.pool[1..] || t.pool == s.pool[1..] + [Head(s)])
      && (t.pool == s.pool[1..] <==>
          || u.status == ConsumeAck
          || u.IsAckTimeout(s.now)
          || (u.IsFetchMsgTimeout(s.now) && !CanFetch(s.batches, u.Key())))
  {
    if from >= 0 { assert s.batches[from].Offers(s.units[Head(s)].Key()); }
  }

  /** Only iterations remove from the pool, and only at the head. */
  lemma PoolStep(s: Sys, a: Action)
    requires Wired(s) && Enabled(s, a)
    ensures var q := if a.Match? then s.pool[1..] else s.pool; q <= Next(s, a).pool
  {
    if a.Match? { DropsExactly(s, a.from); }
  }

  /** The unit p is at position k of the pool. */
  predicate Stands(s: Sys, p: int, k: int) {
    0 <= k < |s.pool| && s.pool[k] == p
  }

  lemma PoolShift(s: Sys, a: Action, p: int, k: int)
    requires Wired(s) && Enabled(s, a) && Stands(s, p, k) && (a.Match? ==> k > 0)
    ensures Stands(Next(s, a), p, if a.Match? then k - 1 else k)
  {
    PoolStep(s, a);
    if a.Match? { assert s.pool[1..][k - 1] == s.pool[k]; }
  }

  lemma LastAction(s: Sys, acts: seq<Action>) returns (t: Sys, a: Action)
    requires acts != [] && Exec(s, acts).Some? && Wired(s)
    ensures Exec(s, acts[..|acts| - 1]) == Some(t) && a == acts[|acts| - 1]
    ensures Wired(t) && Enabled(t, a) && Exec(s, acts) == Some(Next(t, a))
    ensures MatchCount(acts) == MatchCount(acts[..|acts| - 1]) + if a.Match? then 1 else 0
  {
    t, a := Exec(s, acts[..|acts| - 1]).value, acts[|acts| - 1];
  }

  /** Nothing overtakes: the unit at position k is at the head after exactly k iterations, whatever else happens. */
  lemma {:induction false} RoundRobin(s: Sys, acts: seq<Action>, t: Sys, p: int, k: int)
    requires Wired(s) && Exec(s, acts) == Some(t) && Stands(s, p, k)
    requires MatchCount(acts) <= k
    ensures Stands(t, p, k - MatchCount(acts))
  {
    hide Next, Enabled, Wired;
    if acts != [] {
      var init := acts[..|acts| - 1];
      var r, a := LastAction(s, acts);
      var before := MatchCount(init);
      assert before <= k && (a.Match? ==> before < k);
      RoundRobin(s, init, r, p, k);
      PoolShift(r, a, p, k - before);
    }
  }

  // ---------------------------------------------------------------------------
  // Deadlines
  // ---------------------------------------------------------------------------

  predicate PastDeadline(s: Sys, p: int)
    requires 0 <= p < |s.units|
  {
    s.now - s.units[p].lastActiveAt >= MAX_MSG_WAIT_CONSUME_TIME
  }

  /** Delivery does not extend the deadline, and a unit that was given a message never waits for one again. */
  lemma UnitAges(s: Sys, a: Action, p: int)
    requires Orderly(s) && Enabled(s, a) && 0 <= p < |s.units|
    ensures var t := Next(s, a);
      && p < |t.units| && t.now >= s.now && t.units[p].lastActiveAt == s.units[p].lastActiveAt
      && (s.units[p].status != ProxyConsumeInit ==> t.units[p].status != ProxyConsumeInit)
  {
    if a.AckMark? && s.telling.value in s.index { assert IndexOk(s, s.telling.value); }
  }

  lemma {:induction false} UnitAgesAlong(s: Sys, acts: seq<Action>, p: int)
    requires Orderly(s) && Exec(s, acts).Some? && 0 <= p < |s.units|
    ensures var t := Exec(s, acts).value;
      && Orderly(t) && p < |t.units| && t.now >= s.now && t.units[p].lastActiveAt == s.units[p].lastActiveAt
      && (s.units[p].status != ProxyConsumeInit ==> t.units[p].status != ProxyConsumeInit)
  {
    if acts != [] {
      var init := acts[..|acts| - 1];
      UnitAgesAlong(s, init, p);
      UnitAges(Exec(s, init).value, acts[|acts| - 1], p);
      OrderlyStep(Exec(s, init).value, acts[|acts| - 1]);
    }
  }

  lemma ServedPastDeadline(s: Sys, from: int)
    requires Orderly(s) && Enabled(s, Match(from)) && PastDeadline(s, Head(s))
    ensures var p, t := Head(s), MatchOne(s, from);
      if s.units[p].status == ProxyConsumeInit
      then p !in t.pool || t.units[p].status == ClientReceive
      else p !in t.pool
  {
    var p := Head(s);
    assert forall k :: 1 <= k < |s.pool| ==> s.pool[k] != p;
    assert p !in s.pool[1..];
  }

  /**
   * One deadline covers waiting for a message and waiting for its acknowledgement: a unit that is
   * served at or after its deadline is gone after its next service, whatever happens in between.
   */
  lemma SecondServiceIsLast(s: Sys, from: int, mid: seq<Action>, from': int)
    requires Orderly(s) && Enabled(s, Match(from)) && PastDeadline(s, Head(s))
    requires Exec(MatchOne(s, from), mid).Some?
    requires var t := Exec(MatchOne(s, from), mid).value;
      Wired(t) && Enabled(t, Match(from')) && Head(t) == Head(s)
    ensures Head(s) !in MatchOne(Exec(MatchOne(s, from), mid).value, from').pool
  {
    var p, r := Head(s), MatchOne(s, from);
    ServedPastDeadline(s, from);
    OrderlyStep(s, Match(from));
    UnitAges(s, Match(from), p);
    UnitAgesAlong(r, mid, p);
    if p !in r.pool {
      GoneStaysGone(r, mid, p);
    }
    ServedPastDeadline(Exec(r, mid).value, from');
  }

  lemma {:induction false} GoneStaysGone(s: Sys, acts: seq<Action>, p: int)
    requires Orderly(s) && Exec(s, acts).Some? && 0 <= p < |s.units| && p !in s.pool
    ensures p !in Exec(s, acts).value.pool && Orderly(Exec(s, acts).value) && p < |Exec(s, acts).value.units|
  {
    if acts != [] {
      var init, a := acts[..|acts| - 1], acts[|acts| - 1];
      GoneStaysGone(s, init, p);
      var t := Exec(s, init).value;
      OrderlyStep(t, a);
      UnitAges(t, a, p);
      if a.Match? { DropsExactly(t, a.from); }
      if a.ConsumeRequest? { AcceptWired(t, a.c, a.topic, a.group); }
    }
  }

  // ---------------------------------------------------------------------------
  // Whether a timeout overwrites an acknowledged status
  // ---------------------------------------------------------------------------

  /** The action is the second half of an acknowledgement, and idUnitMap gives p for its id. */
  predicate Marks(s: Sys, a: Action, p: int) {
    a.AckMark? && s.telling.Some? && s.telling.value in s.index && s.index[s.telling.value] == p
  }

  /** Some action of the run marks p. */
  ghost predicate MarkedAlong(s: Sys, acts: seq<Action>, p: int)
    requires Exec(s, acts).Some?
  {
    acts != [] &&
    var init := acts[..|acts| - 1];
    MarkedAlong(s, init, p) || Marks(Exec(s, init).value, acts[|acts| - 1], p)
  }

  /** A unit that was handed a message keeps its id, and its status until it is marked. */
  lemma GuardStays(s: Sys, a: Action, p: int)
    requires Orderly(s) && Enabled(s, a) && 0 <= p < |s.units| && s.units[p].status != ProxyConsumeInit
    ensures var t := Next(s, a);
      && p < |t.units| && t.units[p].msgId == s.units[p].msgId && t.units[p].Key() == s.units[p].Key()
      && t.units[p].status == if Marks(s, a, p) then ConsumeAck else s.units[p].status
  {
  }

  lemma {:induction false} GuardStaysAlong(s: Sys, acts: seq<Action>, p: int)
    requires Orderly(s) && Exec(s, acts).Some? && 0 <= p < |s.units| && s.units[p].status != ProxyConsumeInit
    ensures var t := Exec(s, acts).value;
      && Orderly(t) && p < |t.units| && t.units[p].msgId == s.units[p].msgId && t.units[p].Key() == s.units[p].Key()
      && t.units[p].status == if MarkedAlong(s, acts, p) then ConsumeAck else s.units[p].status
  {
    if acts != [] {
      var init, a := acts[..|acts| - 1], acts[|acts| - 1];
      GuardStaysAlong(s, init, p);
      GuardStays(Exec(s, init).value, a, p);
      OrderlyStep(Exec(s, init).value, a);
    }
  }

  /** A marked unit is dropped at its next service, however early or late, and no batch changes. */
  lemma AckedIsDropped(s: Sys, id: string, mid: seq<Action>, from: int)
    requires Orderly(s) && s.telling == Some(id) && id in s.index && Exec(MarkAck(s), mid).Some?
    requires var t := Exec(MarkAck(s), mid).value; Wired(t) && Enabled(t, Match(from)) && Head(t) == s.index[id]
    ensures var t := Exec(MarkAck(s), mid).value;
      MatchOne(t, from).batches == t.batches && s.index[id] !in MatchOne(t, from).pool
  {
    var r := MarkAck(s);
    MarkAckOrderly(s);
    GuardStaysAlong(r, mid, s.index[id]);
    HeadDropped(Exec(r, mid).value, from);
  }

  /** What the service of a guard does to the batches and the pool. */
  lemma HeadDropped(s: Sys, from: int)
    requires Orderly(s) && Enabled(s, Match(from))
    requires var u := s.units[Head(s)];
      u.status == ConsumeAck || (u.status == ClientReceive && PastDeadline(s, Head(s)))
    ensures var u, t := s.units[Head(s)], MatchOne(s, from);
      && Head(s) !in t.pool
      && t.batches == if u.status == ConsumeAck then s.batches else AckAll(s.batches, u.Key(), u.msgId, RECONSUME_LATER)
  {
    assert forall k :: 1 <= k < |s.pool| ==> s.pool[k] != s.pool[0];
  }

  /** What a timeout of this id tells a registered batch of the consumer. */
  lemma TimeoutWord(batches: seq<Loaded>, key: string, id: string, i: int, h: int)
    requires 0 <= i < |batches| && batches[i].registered && batches[i].key == key && batches[i].batch.Carries(h, id)
    requires h in batches[i].batch.statuses
    ensures var r := AckAll(batches, key, id, RECONSUME_LATER)[i].batch;
      h in r.statuses && r.statuses[h] == RECONSUME_LATER
  {
  }

  /**
   * The unit p guards a message, and after any run is served past its deadline. Its timeout tells
   * every unit of the id in the registered batches of its consumer RECONSUME_LATER, over whatever
   * was acknowledged, if and only if no acknowledgement marked p in that run; else no batch
   * changes. Either way p is gone.
   */
  lemma OverwritesExactly(s: Sys, p: int, mid: seq<Action>, from: int)
    requires Orderly(s) && 0 <= p < |s.units| && s.units[p].status == ClientReceive && Exec(s, mid).Some?
    requires var t := Exec(s, mid).value; Wired(t) && Enabled(t, Match(from)) && Head(t) == p && PastDeadline(t, p)
    ensures var t := Exec(s, mid).value;
      && p !in MatchOne(t, from).pool
      && MatchOne(t, from).batches ==
         if MarkedAlong(s, mid, p) then t.batches
         else AckAll(t.batches, s.units[p].Key(), s.units[p].msgId, RECONSUME_LATER)
    ensures var t, r := Exec(s, mid).value, MatchOne(Exec(s, mid).value, from).batches;
      |r| == |t.batches| &&
      forall i, h | 0 <= i < |t.batches| && h in t.batches[i].batch.statuses ::
        t.batches[i].registered && t.batches[i].key == s.units[p].Key()
        && t.batches[i].batch.Carries(h, s.units[p].msgId) ==>
          && h in r[i].batch.statuses
          && r[i].batch.statuses[h] ==
             if MarkedAlong(s, mid, p) then t.batches[i].batch.statuses[h] else RECONSUME_LATER
  {
    GuardStaysAlong(s, mid, p);
    var t := Exec(s, mid).value;
    HeadDropped(t, from);
    var key, id := s.units[p].Key(), s.units[p].msgId;
    hide Orderly, MatchOne, Enabled, Next, AckAll;
    forall i, h | 0 <= i < |t.batches| && h in t.batches[i].batch.statuses && t.batches[i].registered
                  && t.batches[i].key == key && t.batches[i].batch.Carries(h, id)
      ensures var r := AckAll(t.batches, key, id, RECONSUME_LATER)[i].batch;
        h in r.statuses && r.statuses[h] == RECONSUME_LATER
    {
      TimeoutWord(t.batches, key, id, i, h);
    }
  }

  // ---------------------------------------------------------------------------
  // The inner loop ends
  // ---------------------------------------------------------------------------

  predicate InRange(units: seq<PoolUnit>, pool: seq<int>) {
    forall k :: 0 <= k < |pool| ==> 0 <= pool[k] < |units|
  }

  /** Two services for a unit that waits for a message, one for any other. */
  function Weight(units: seq<PoolUnit>, pool: seq<int>): nat
    requires InRange(units, pool)
  {
    if pool == [] then 0
    else (if units[pool[0]].status == ProxyConsumeInit then 2 else 1) + Weight(units, pool[1..])
  }

  lemma {:induction false} WeightAppend(units: seq<PoolUnit>, pool: seq<int>, p: int)
    requires 0 <= p < |units| && InRange(units, pool)
    ensures Weight(units, pool + [p]) == Weight(units, pool) + if units[p].status == ProxyConsumeInit then 2 else 1
  {
    if pool == [] {
      assert pool + [p] == [p] && [p][1..] == [];
    } else {
      assert (pool + [p])[1..] == pool[1..] + [p];
      WeightAppend(units, pool[1..], p);
    }
  }

  lemma {:induction false} WeightSame(units: seq<PoolUnit>, more: seq<PoolUnit>, pool: seq<int>)
    requires InRange(units, pool) && InRange(more, pool)
    requires forall k :: 0 <= k < |pool| ==> more[pool[k]] == units[pool[k]]
    ensures Weight(units, pool) == Weight(more, pool)
  {
    if pool != [] { WeightSame(units, more, pool[1..]); }
  }

  function PoolWeight(s: Sys): nat
    requires Wired(s)
  {
    assert forall k :: 0 <= k < |s.pool| ==> s.pool[k] in s.pool;
    Weight(s.units, s.pool)
  }

  /** With the clock past every deadline and nothing pushed, each iteration uses up weight. */
  lemma WeightDrops(s: Sys, from: int)
    requires Orderly(s) && Enabled(s, Match(from)) && PastDeadline(s, Head(s))
    ensures Wired(MatchOne(s, from)) && PoolWeight(MatchOne(s, from)) < PoolWeight(s)
  {
    var p, rest, t := Head(s), s.pool[1..], MatchOne(s, from);
    MatchWired(s, from);
    DropsExactly(s, from);
    forall k | 0 <= k < |rest|
      ensures 0 <= rest[k] < |s.units| && rest[k] != p && t.units[rest[k]] == s.units[rest[k]]
    {
      assert rest[k] == s.pool[k + 1] && s.pool[k + 1] in s.pool;
    }
    WeightSame(s.units, t.units, rest);
    if t.pool == rest + [p] { WeightAppend(t.units, rest, p); }
  }

  ghost predicate OnlyMatches(acts: seq<Action>) {
    forall i :: 0 <= i < |acts| ==> acts[i].Match? || acts[i].Tick?
  }

  ghost predicate AllPastDeadline(s: Sys)
    requires Wired(s)
  {
    forall p :: p in s.pool ==> PastDeadline(s, p)
  }

  lemma PastDeadlineStays(s: Sys, a: Action)
    requires Orderly(s) && Enabled(s, a) && AllPastDeadline(s) && (a.Match? || a.Tick?)
    ensures Orderly(Next(s, a)) && AllPastDeadline(Next(s, a))
  {
    var t := Next(s, a);
    OrderlyStep(s, a);
    if a.Match? { DropsExactly(s, a.from); }
    forall p | p in t.pool ensures PastDeadline(t, p) {
      assert t.pool == s.pool || p in s.pool[1..] || p == s.pool[0];
      assert p in s.pool;
      UnitAges(s, a, p);
    }
  }

  /** So no run of iterations is longer than the weight it starts with: the inner loop ends with the pool empty. */
  lemma {:induction false} DrainEnds(s: Sys, acts: seq<Action>)
    requires Orderly(s) && AllPastDeadline(s) && OnlyMatches(acts) && Exec(s, acts).Some?
    ensures var t := Exec(s, acts).value;
      && Orderly(t) && AllPastDeadline(t)
      && MatchCount(acts) + PoolWeight(t) <= PoolWeight(s)
  {
    if acts != [] {
      var init, a := acts[..|acts| - 1], acts[|acts| - 1];
      DrainEnds(s, init);
      var t := Exec(s, init).value;
      PastDeadlineStays(t, a);
      if a.Match? {
        assert Head(t) in t.pool;
        WeightDrops(t, a.from);
      }
    }
  }
}
