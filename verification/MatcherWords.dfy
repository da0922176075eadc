/** What tells a message anything, and when a Consume call or a guard times out, counted from the request. */
module MatcherWords {
  import opened BatchModel
  import opened Options
  import opened Matcher
  import opened MatcherCalls

  // ---------------------------------------------------------------------------
  // What tells a message anything
  // ---------------------------------------------------------------------------

  /** At this consumer, every message with this id has this status. */
  datatype Word = Word(key: string, id: string, status: ConsumeStatus)

  /**
   * An acknowledgement says what the client says; a guard served ten seconds after its unit was
   * pooled, and a reply with a message that could not be sent, say RECONSUME_LATER. Nothing else
   * says anything.
   */
  ghost function WordOf(s: Sys, a: Action): Option<Word>
    requires Wired(s) && Enabled(s, a)
  {
    match a
    case AckTell(topic, group, id, v) => Some(Word(topic + group, id, v))
    case Match(_) =>
      var u := s.units[Head(s)];
      if u.status == ClientReceive && s.now - u.lastActiveAt >= 10
      then Some(Word(u.topic + u.group, u.msgId, RECONSUME_LATER)) else None
    case Returned(c, ok) =>
      if !ok && s.calls[c].msgId != ""
      then Some(Word(s.calls[c].topic + s.calls[c].group, s.calls[c].msgId, RECONSUME_LATER)) else None
    case _ => None
  }

  ghost predicate Hears(s: Sys, a: Action, i: int, id: string)
    requires Wired(s) && Enabled(s, a) && 0 <= i < |s.batches|
  {
    WordOf(s, a).Some? && s.batches[i].registered && s.batches[i].key == WordOf(s, a).value.key
    && WordOf(s, a).value.id == id
  }

  lemma AckedUnit(b: Batch, id: string, v: ConsumeStatus, h: int)
    requires Tidy(b) && 0 <= h < |b.units|
    ensures h in b.client && h in b.statuses
    ensures var r := Ack(b, id, v);
      && r.units == b.units && r.fetched == b.fetched && h in r.client && h in r.statuses
      && (if b.units[h].msgId == id then r.client[h] == MsgConsumeAck && r.statuses[h] == v
          else r.client[h] == b.client[h] && r.statuses[h] == b.statuses[h])
  {
    assert h in Handles(|b.units|);
  }

  lemma ToldUnit(batches: seq<Loaded>, key: string, id: string, v: ConsumeStatus, i: int, h: int)
    requires 0 <= i < |batches| && Tidy(batches[i].batch) && 0 <= h < |batches[i].batch.units|
    ensures h in batches[i].batch.client && h in batches[i].batch.statuses
    ensures var b, r := batches[i].batch, AckAll(batches, key, id, v)[i].batch;
      && r.units == b.units && h in r.client && h in r.statuses
      && (if batches[i].registered && batches[i].key == key && b.units[h].msgId == id
          then r.client[h] == MsgConsumeAck && r.statuses[h] == v
          else r.client[h] == b.client[h] && r.statuses[h] == b.statuses[h])
  {
    AckedUnit(batches[i].batch, id, v, h);
  }

  /** Unit h of batch i takes the word of the step if it hears it, and else stays as it is. */
  ghost predicate Listens(s: Sys, a: Action, i: int, h: int, t: Sys)
    requires Wired(s) && Enabled(s, a) && 0 <= i < |s.batches| && 0 <= h < |s.batches[i].batch.units|
  {
    h in s.batches[i].batch.client && h in s.batches[i].batch.statuses && i < |t.batches| &&
    var b, r := s.batches[i].batch, t.batches[i].batch;
    && r.units == b.units && h in r.client && h in r.statuses
    && (if Hears(s, a, i, b.units[h].msgId)
        then r.client[h] == MsgConsumeAck && r.statuses[h] == WordOf(s, a).value.status
        else r.client[h] == b.client[h] && r.statuses[h] == b.statuses[h])
  }

  lemma MatchTells(s: Sys, from: int, i: int, h: int)
    requires Wired(s) && Enabled(s, Match(from)) && 0 <= i < |s.batches| && 0 <= h < |s.batches[i].batch.units|
    ensures Listens(s, Match(from), i, h, MatchOne(s, from))
  {
    hide AckAll, Ack;
    var u := s.units[Head(s)];
    ToldUnit(s.batches, u.topic + u.group, u.msgId, RECONSUME_LATER, i, h);
  }

  lemma ReturnTells(s: Sys, c: int, ok: bool, i: int, h: int)
    requires Wired(s) && Enabled(s, Returned(c, ok)) && 0 <= i < |s.batches| && 0 <= h < |s.batches[i].batch.units|
    ensures Listens(s, Returned(c, ok), i, h, Return(s, c, ok))
  {
    hide AckAll, Ack;
    var call := s.calls[c];
    ToldUnit(s.batches, call.topic + call.group, call.msgId, RECONSUME_LATER, i, h);
  }

  /** What a step says, if anything, is what becomes of every unit that hears it; no other unit changes. */
  lemma OnlyWordsTell(s: Sys, a: Action, i: int, h: int)
    requires Wired(s) && Enabled(s, a) && 0 <= i < |s.batches| && 0 <= h < |s.batches[i].batch.units|
    ensures Listens(s, a, i, h, Next(s, a))
  {
    assert Tidy(s.batches[i].batch) && h in Handles(|s.batches[i].batch.units|);
    hide AckAll, Ack, Tidy, MatchOne, Return, Create;
    match a
    case AckTell(topic, group, id, v) => ToldUnit(s.batches, topic + group, id, v, i, h);
    case Match(from) => MatchTells(s, from, i, h);
    case Returned(c, ok) => ReturnTells(s, c, ok, i, h);
    case _ =>
  }

  /** The step says something, about whatever id, at the consumer of this batch. */
  ghost predicate Addressed(s: Sys, a: Action, i: int)
    requires Wired(s) && Enabled(s, a) && 0 <= i < |s.batches|
  {
    WordOf(s, a).Some? && s.batches[i].registered && s.batches[i].key == WordOf(s, a).value.key
  }

  /**
   * Whatever is said at a consumer, each of its registered batches is checked, with that id or
   * without: if all its messages have been fetched and acknowledged by then it is released, with the
   * verdict its units call for. Nothing else releases a batch or changes its verdict.
   */
  ghost predicate Checked(s: Sys, a: Action, i: int, t: Sys)
    requires Wired(s) && Enabled(s, a) && 0 <= i < |s.batches|
  {
    i < |t.batches| &&
    var b, r := s.batches[i].batch, t.batches[i].batch;
    if Addressed(s, a, i) && r.fetched == [] && r.AllAcked() then r.released && r.status == r.Overall()
    else r.released == b.released && r.status == b.status
  }

  lemma AckChecks(b: Batch, id: string, v: ConsumeStatus)
    ensures var r := Ack(b, id, v);
      if r.fetched == [] && r.AllAcked() then r.released && r.status == r.Overall()
      else r.released == b.released && r.status == b.status
  {
  }

  lemma ToldIsChecked(batches: seq<Loaded>, key: string, id: string, v: ConsumeStatus, i: int)
    requires 0 <= i < |batches|
    ensures var b, r := batches[i].batch, AckAll(batches, key, id, v)[i].batch;
      if batches[i].registered && batches[i].key == key && r.fetched == [] && r.AllAcked()
      then r.released && r.status == r.Overall() else r.released == b.released && r.status == b.status
  {
    hide Ack;
    AckChecks(batches[i].batch, id, v);
  }

  lemma MatchChecks(s: Sys, from: int, i: int)
    requires Wired(s) && Enabled(s, Match(from)) && 0 <= i < |s.batches|
    ensures Checked(s, Match(from), i, MatchOne(s, from))
  {
    hide AckAll, Batch.AllAcked, Batch.Overall;
    var u := s.units[Head(s)];
    ToldIsChecked(s.batches, u.topic + u.group, u.msgId, RECONSUME_LATER, i);
  }

  lemma OnlyWordsRelease(s: Sys, a: Action, i: int)
    requires Wired(s) && Enabled(s, a) && 0 <= i < |s.batches|
    ensures Checked(s, a, i, Next(s, a))
  {
    hide AckAll, MatchOne, Create, Batch.AllAcked, Batch.Overall;
    match a
    case AckTell(topic, group, id, v) => ToldIsChecked(s.batches, topic + group, id, v, i);
    case Match(from) => MatchChecks(s, from, i);
    case Returned(c, ok) =>
      var call := s.calls[c];
      ToldIsChecked(s.batches, call.topic + call.group, call.msgId, RECONSUME_LATER, i);
    case _ =>
  }

  /** An acknowledgement goes on to mark a unit exactly when a registered batch of the consumer has the id. */
  lemma KnownExactly(s: Sys, topic: string, group: string, id: string, v: ConsumeStatus)
    requires Wired(s) && Enabled(s, AckTell(topic, group, id, v))
    ensures Next(s, AckTell(topic, group, id, v)).telling ==
      if exists i, h :: 0 <= i < |s.batches| && 0 <= h < |s.batches[i].batch.units| && s.batches[i].registered
                        && s.batches[i].key == topic + group && s.batches[i].batch.units[h].msgId == id
      then Some(id) else None
  {
  }

  /** The id of the message an iteration hands out, if it hands out one. */
  ghost function HandedOut(s: Sys, a: Action): Option<string>
    requires Wired(s) && Enabled(s, a)
  {
    match a
    case Match(from) =>
      if from >= 0 then
        var b := s.batches[from].batch;
        Some(b.units[b.fetched[0]].msgId)
      else None
    case _ => None
  }

  /** A reply that failed, or the end of an acknowledgement of this id. */
  ghost predicate Forgets(s: Sys, a: Action, id: string)
    requires Wired(s) && Enabled(s, a)
  {
    match a
    case Returned(c, ok) => !ok && id != "" && s.calls[c].msgId == id
    case AckDeleted(other) => other == id
    case _ => false
  }

  /** idUnitMap gives for an id the unit it was last handed to, until it is forgotten. */
  lemma IndexFollows(s: Sys, a: Action, id: string)
    requires Wired(s) && Enabled(s, a)
    ensures var t := Next(s, a);
      if HandedOut(s, a) == Some(id) then id in t.index && t.index[id] == Head(s)
      else if Forgets(s, a, id) then id !in t.index
      else (id in t.index <==> id in s.index) && (id in s.index ==> t.index[id] == s.index[id])
  {
    hide AckAll, Create, Knows;
  }

  /** When the tag of a reply that was sent comes back, its call object goes, and nothing else happens. */
  lemma SentReplyIsQuiet(s: Sys, c: int)
    requires Wired(s) && Enabled(s, Returned(c, true))
    ensures OnlyCallGoes(s, Next(s, Returned(c, true)), c)
  {
  }

  /** So with a call that never got a request, and whose tag comes back not ok. */
  lemma CancelledAcceptIsQuiet(s: Sys, c: int)
    requires Wired(s) && Enabled(s, AcceptCancelled(c))
    ensures OnlyCallGoes(s, Next(s, AcceptCancelled(c)), c)
  {
  }

  ghost predicate OnlyCallGoes(s: Sys, t: Sys, c: int) {
    && t.batches == s.batches && t.units == s.units && t.pool == s.pool && t.index == s.index
    && t.telling == s.telling && t.now == s.now && |t.calls| == |s.calls|
    && forall d :: 0 <= d < |s.calls| ==>
         t.calls[d] == if d == c then s.calls[d].(phase := Deleted) else s.calls[d]
  }

  /** A batch is in lockers until its callback erases it, and nothing touches it from then on. */
  lemma ErasedIsLeftAlone(s: Sys, a: Action, i: int)
    requires Wired(s) && Enabled(s, a) && 0 <= i < |s.batches|
    ensures i < |Next(s, a).batches| && Next(s, a).batches[i].key == s.batches[i].key
    ensures Next(s, a).batches[i].registered <==> s.batches[i].registered && a != BatchErased(i)
    ensures !s.batches[i].registered ==> Next(s, a).batches[i] == s.batches[i]
  {
    hide Create, Knows, Ack;
    if a.Match? && a.from >= 0 { assert s.batches[a.from].registered; }
  }

  // ---------------------------------------------------------------------------
  // Ten seconds from the request
  // ---------------------------------------------------------------------------

  lemma {:induction false} PrefixRuns(acts: seq<Action>, i: nat)
    requires Exec(INIT, acts).Some? && i <= |acts|
    ensures Exec(INIT, acts[..i]).Some?
    decreases |acts|
  {
    if i == |acts| {
      assert acts[..i] == acts;
    } else {
      PrefixRuns(acts[..|acts| - 1], i);
      assert acts[..|acts| - 1][..i] == acts[..i];
    }
  }

  /** The state of the run before its i-th step, or at its end. */
  ghost function Before(acts: seq<Action>, i: nat): Sys
    requires Exec(INIT, acts).Some? && i <= |acts|
  {
    PrefixRuns(acts, i);
    Exec(INIT, acts[..i]).value
  }

  ghost predicate AskedAt(acts: seq<Action>, c: int, k: nat) {
    k < |acts| && acts[k].ConsumeRequest? && acts[k].c == c
  }

  /** Every unit is that of a call which got a request. */
  lemma {:induction false} EveryUnitWasAsked(acts: seq<Action>, p: int) returns (k: nat)
    requires Exec(INIT, acts).Some? && 0 <= p < |Exec(INIT, acts).value.units|
    ensures AskedAt(acts, Exec(INIT, acts).value.units[p].call, k)
  {
    var init, a := acts[..|acts| - 1], acts[|acts| - 1];
    var s := Exec(INIT, init).value;
    UnitCallKept(s, a, p);
    if p < |s.units| {
      k := EveryUnitWasAsked(init, p);
    } else {
      k := |init|;
    }
  }

  lemma UnitCallKept(s: Sys, a: Action, p: int)
    requires Wired(s) && Enabled(s, a) && 0 <= p < |Next(s, a).units|
    ensures if p < |s.units| then Next(s, a).units[p].call == s.units[p].call
            else a.ConsumeRequest? && Next(s, a).units[p].call == a.c
  {
    hide AckAll, Create;
  }

  /** Call c is the one that got this request, at this time, and so is whatever unit waits for it. */
  ghost predicate Stands(s: Sys, c: int, topic: string, group: string, time: int) {
    && 0 <= c < |s.calls| && s.calls[c].phase != Listening
    && forall p :: 0 <= p < |s.units| && s.units[p].call == c ==>
         s.units[p].topic == topic && s.units[p].group == group && s.units[p].lastActiveAt == time
  }

  lemma StandsStep(s: Sys, a: Action, c: int, topic: string, group: string, time: int)
    requires Wired(s) && Enabled(s, a) && Stands(s, c, topic, group, time)
    ensures Stands(Next(s, a), c, topic, group, time)
  {
    hide AckAll, Create;
  }

  lemma RequestBegins(s: Sys, c: int, topic: string, group: string)
    requires Orderly(s) && Enabled(s, ConsumeRequest(c, topic, group))
    ensures Stands(Next(s, ConsumeRequest(c, topic, group)), c, topic, group, s.now)
  {
    assert CallOk(s, c);
  }

  lemma {:induction false} RequestStands(acts: seq<Action>, k: nat, c: int, topic: string, group: string)
    requires Exec(INIT, acts).Some? && k < |acts| && acts[k] == ConsumeRequest(c, topic, group)
    ensures Stands(Exec(INIT, acts).value, c, topic, group, Before(acts, k).now)
    decreases |acts|
  {
    hide Next, Enabled, Wired, Stands;
    var init := acts[..|acts| - 1];
    var s := Exec(INIT, init).value;
    OrderlyAlways(init);
    if k == |acts| - 1 {
      RequestBegins(s, c, topic, group);
    } else {
      assert init[..k] == acts[..k];
      RequestStands(init, k, c, topic, group);
      StandsStep(s, acts[|acts| - 1], c, topic, group, Before(init, k).now);
    }
  }

  /** A message for this consumer is waiting to be fetched. */
  ghost predicate Waiting(s: Sys, key: string, i: int) {
    0 <= i < |s.batches| && s.batches[i].registered && s.batches[i].key == key && s.batches[i].batch.fetched != []
  }

  /** The unit at the head asks for a message for this consumer, and has done so since that time. */
  ghost predicate FetchServed(s: Sys, from: int, key: string, time: int)
    requires Wired(s) && Enabled(s, Match(from))
  {
    var p, c, t := Head(s), s.units[Head(s)].call, MatchOne(s, from);
    && s.calls[c].finishes == 0 && s.calls[c].got == None && c < |t.calls|
    && if exists i :: Waiting(s, key, i) then
         && Waiting(s, key, from) && from < |t.batches|
         && t.calls[c].phase == Answered && t.calls[c].got == Some((from, s.batches[from].batch.fetched[0]))
         && t.batches[from].batch.fetched == s.batches[from].batch.fetched[1..]
       else if s.now - time >= 10 then
         t.calls[c].phase == Answered && t.calls[c].got == None && t.batches == s.batches && p !in t.pool
       else
         t == s.(pool := s.pool[1..] + [p])
  }

  /**
   * The matcher comes to the unit of a call that was requested at step k and has no message yet. It
   * is answered with the next message of a batch of its consumer whenever one has a message left;
   * otherwise without a message exactly when ten seconds have passed since the request; otherwise
   * it goes to the end of the pool.
   */
  lemma FetchTimesOutExactly(acts: seq<Action>, k: nat, from: int, topic: string, group: string)
    requires Exec(INIT, acts).Some? && k < |acts|
    requires var s := Exec(INIT, acts).value;
      && Wired(s) && Enabled(s, Match(from)) && s.units[Head(s)].status == ProxyConsumeInit
      && acts[k] == ConsumeRequest(s.units[Head(s)].call, topic, group)
    ensures FetchServed(Exec(INIT, acts).value, from, topic + group, Before(acts, k).now)
  {
    OrderlyAlways(acts);
    var s := Exec(INIT, acts).value;
    hide Orderly, FetchServed;
    RequestStands(acts, k, s.units[Head(s)].call, topic, group);
    FetchIsServed(s, from);
  }

  lemma FetchIsServed(s: Sys, from: int)
    requires Orderly(s) && Enabled(s, Match(from)) && s.units[Head(s)].status == ProxyConsumeInit
    ensures FetchServed(s, from, s.units[Head(s)].topic + s.units[Head(s)].group, s.units[Head(s)].lastActiveAt)
  {
    HeadIsPending(s);
    WaitingIsOffered(s, s.units[Head(s)].Key());
    assert forall j :: 1 <= j < |s.pool| ==> s.pool[j] != Head(s);
    hide AckAll, Orderly;
  }

  lemma WaitingIsOffered(s: Sys, key: string)
    ensures forall i :: Waiting(s, key, i) <==> 0 <= i < |s.batches| && s.batches[i].Offers(key)
    ensures (exists i :: Waiting(s, key, i)) <==> CanFetch(s.batches, key)
  {
  }

  /**
   * The matcher comes to the unit of a call that was requested at step k and was given a message
   * that is not marked as acknowledged. It tells the message RECONSUME_LATER and is dropped exactly
   * when ten seconds have passed since the request, whenever the message was given; otherwise it
   * goes to the end of the pool.
   */
  lemma GuardTimesOutExactly(acts: seq<Action>, k: nat, from: int, topic: string, group: string)
    requires Exec(INIT, acts).Some? && k < |acts|
    requires var s := Exec(INIT, acts).value;
      && Wired(s) && Enabled(s, Match(from)) && s.units[Head(s)].status == ClientReceive
      && acts[k] == ConsumeRequest(s.units[Head(s)].call, topic, group)
    ensures var s, t := Exec(INIT, acts).value, MatchOne(Exec(INIT, acts).value, from);
      var p := Head(s);
      && s.units[p].msgId == s.calls[s.units[p].call].msgId
      && if s.now - Before(acts, k).now >= 10 then
           t.batches == AckAll(s.batches, topic + group, s.units[p].msgId, RECONSUME_LATER) && p !in t.pool
         else
           t == s.(pool := s.pool[1..] + [p])
  {
    OrderlyAlways(acts);
    var s := Exec(INIT, acts).value;
    var p := Head(s);
    assert UnitOk(s, p);
    RequestStands(acts, k, s.units[p].call, topic, group);
    assert forall j :: 1 <= j < |s.pool| ==> s.pool[j] != p;
  }
}
