/**
 * The value of one batch of messages that the broker has handed to the proxy
 * (the fields of ConsumerUnitLocker), and what each operation does to it.
 *
 * A unit is named by its position in the batch, which plays the part of the
 * MsgUnit pointer: two units are different even when their message ids are equal.
 */
module BatchModel {
  import opened Options

  /** An int32 sent by the client is cast to this enum unchecked, so any value can occur. */
  type ConsumeStatus = int
  const CONSUME_SUCCESS: ConsumeStatus := 0
  const RECONSUME_LATER: ConsumeStatus := 1

  datatype ClientStatus = MsgFetchFromBroker | MsgConsumeAck

  datatype Message = Message(id: string, topic: string, body: string, delayLevel: int)

  datatype MsgUnit = MsgUnit(msgId: string, topic: string, group: string, body: string, delayLevel: int)

  datatype Batch = Batch(
    units: seq<MsgUnit>,                 // in the order the broker delivered them
    fetched: seq<int>,                   // fetchedArr: units no client has been given yet
    client: map<int, ClientStatus>,      // clientStatusMap
    statuses: map<int, ConsumeStatus>,   // statusMap
    reconsume: set<string>,              // reconsumeMap
    status: ConsumeStatus,               // the verdict for the whole batch
    released: bool)                      // clientStatus == MSG_CONSUME_ACK
  {
    predicate Valid() {
      && client.Keys == Handles(|units|)
      && statuses.Keys == Handles(|units|)
      && forall i :: 0 <= i < |fetched| ==> 0 <= fetched[i] < |units|
    }

    predicate Carries(h: int, id: string) {
      0 <= h < |units| && units[h].msgId == id
    }

    predicate HasId(id: string) {
      exists h :: 0 <= h < |units| && units[h].msgId == id
    }

    predicate AllAcked() {
      forall h :: h in client ==> client[h] == MsgConsumeAck
    }

    /** The verdict the unit statuses call for, whatever order they are looked at. */
    function Overall(): ConsumeStatus {
      if exists h :: h in statuses && statuses[h] == RECONSUME_LATER then RECONSUME_LATER else CONSUME_SUCCESS
    }

    /** When triggerCheck writes the verdict and notifies the waiting broker thread. */
    predicate Fires(forced: bool) {
      (forced || fetched == []) && AllAcked()
    }

    /** What the listener callback pushes to statusVector. */
    function StatusVector(): seq<ConsumeStatus> {
      if status == RECONSUME_LATER
      then seq(|units|, i requires 0 <= i < |units| =>
                 if units[i].msgId in reconsume then RECONSUME_LATER else CONSUME_SUCCESS)
      else []
    }
  }

  function UnitOf(msg: Message, group: string): MsgUnit {
    MsgUnit(msg.id, msg.topic, group, msg.body, msg.delayLevel)
  }

  /** The numbers lo, lo + 1, ..., hi - 1. */
  function Range(lo: nat, hi: nat): seq<int>
    requires lo <= hi
  {
    seq(hi - lo, i requires 0 <= i => lo + i)
  }

  function Handles(n: nat): (s: set<int>)
    ensures forall h :: h in s <==> 0 <= h < n
  {
    if n == 0 then {} else Handles(n - 1) + {n - 1}
  }

  function Create(msgs: seq<Message>, group: string): Batch {
    Batch(
      seq(|msgs|, i requires 0 <= i < |msgs| => UnitOf(msgs[i], group)),
      Range(0, |msgs|),
      map h | h in Handles(|msgs|) :: MsgFetchFromBroker,
      map h | h in Handles(|msgs|) :: RECONSUME_LATER,
      {}, RECONSUME_LATER, false)
  }

  function Pop(b: Batch): Batch {
    if b.fetched == [] then b else b.(fetched := b.fetched[1..])
  }

  /** setMsgStatus, as a scan over every unit with this id. */
  function SetStatus(b: Batch, id: string, s: ConsumeStatus, cs: ClientStatus): Batch {
    b.(client := map h | h in b.client :: if b.Carries(h, id) then cs else b.client[h],
       statuses := map h | h in b.statuses :: if b.Carries(h, id) then s else b.statuses[h],
       reconsume := if s == RECONSUME_LATER && b.HasId(id) then b.reconsume + {id} else b.reconsume)
  }

  function Trigger(b: Batch, forced: bool): Batch {
    if b.Fires(forced) then b.(status := b.Overall(), released := true) else b
  }

  /** What unlockAll does to one batch before its triggerCheck(true). */
  function ForceAck(b: Batch): Batch {
    b.(client := map h | h in b.client :: MsgConsumeAck,
       statuses := map h | h in b.statuses ::
         if h in b.client && b.client[h] != MsgConsumeAck then RECONSUME_LATER else b.statuses[h])
  }

  function Force(b: Batch): Batch {
    Trigger(ForceAck(b), true)
  }

  /** An acknowledgement as one step: setMsgStatus, then triggerCheck(false). */
  function Ack(b: Batch, id: string, s: ConsumeStatus): Batch {
    Trigger(SetStatus(b, id, s, MsgConsumeAck), false)
  }

  // ---------------------------------------------------------------------------
  // Histories: any sequence of operations, in any order
  // ---------------------------------------------------------------------------

  /** Publish is what triggerCheck writes after a scan of its own, whatever has happened meanwhile. */
  datatype Op = GetMsg | SetMsg(id: string, s: ConsumeStatus) | Check | Publish(verdict: ConsumeStatus) | ForceMsg

  function Apply(b: Batch, op: Op): (r: Batch)
    ensures r.units == b.units && (b.Valid() ==> r.Valid())
  {
    match op
    case GetMsg => Pop(b)
    case SetMsg(id, s) => SetStatus(b, id, s, MsgConsumeAck)
    case Check => Trigger(b, false)
    case Publish(v) => b.(status := v, released := true)
    case ForceMsg => Force(b)
  }

  function Replay(b: Batch, ops: seq<Op>): (r: Batch)
    ensures r.units == b.units && (b.Valid() ==> r.Valid())
  {
    if ops == [] then b else Apply(Replay(b, ops[..|ops| - 1]), ops[|ops| - 1])
  }

  lemma ReplayOne(b0: Batch, ops: seq<Op>, op: Op)
    ensures Replay(b0, ops + [op]) == Apply(Replay(b0, ops), op)
  {
    assert (ops + [op])[..|ops|] == ops;
  }

  /** The status of the last acknowledgement of this id, if there was one. */
  function LastSet(ops: seq<Op>, id: string): Option<ConsumeStatus> {
    if ops == [] then None
    else match ops[|ops| - 1]
      case SetMsg(i, s) => if i == id then Some(s) else LastSet(ops[..|ops| - 1], id)
      case _ => LastSet(ops[..|ops| - 1], id)
  }

  function GetCount(ops: seq<Op>): nat {
    if ops == [] then 0
    else GetCount(ops[..|ops| - 1]) + if ops[|ops| - 1].GetMsg? then 1 else 0
  }

  function Min(a: nat, b: nat): nat {
    if a < b then a else b
  }

  lemma {:induction false} LastSetSome(ops: seq<Op>, id: string)
    ensures LastSet(ops, id).Some? <==> exists s :: SetMsg(id, s) in ops
    ensures LastSet(ops, id).Some? ==> SetMsg(id, LastSet(ops, id).value) in ops
  {
    if ops != [] {
      var init := ops[..|ops| - 1];
      LastSetSome(init, id);
      assert ops == init + [ops[|ops| - 1]];
    }
  }

  /** What is handed out is what the broker brought: no operation changes a unit. */
  lemma {:induction false} UnitsVerbatim(msgs: seq<Message>, group: string, ops: seq<Op>, i: nat)
    requires i < |msgs|
    ensures var b := Replay(Create(msgs, group), ops);
      && i < |b.units|
      && b.units[i].msgId == msgs[i].id && b.units[i].topic == msgs[i].topic && b.units[i].body == msgs[i].body
      && b.units[i].delayLevel == msgs[i].delayLevel && b.units[i].group == group
  {
    if ops != [] { UnitsVerbatim(msgs, group, ops[..|ops| - 1], i); }
  }

  /** The last word on a message: what was last told about its id, or else RECONSUME_LATER. */
  function LastWord(ops: seq<Op>, id: string): ConsumeStatus {
    match LastSet(ops, id)
    case Some(s) => s
    case None => RECONSUME_LATER
  }

  /** Every field of a batch but its verdict, read off the history of operations on it. */
  ghost predicate Accounted(msgs: seq<Message>, ops: seq<Op>, b: Batch) {
    && b.Valid()
    && |b.units| == |msgs|
    && (forall i :: 0 <= i < |msgs| ==> b.units[i].msgId == msgs[i].id)
    && b.fetched == Range(Min(GetCount(ops), |msgs|), |msgs|)
    && (forall i :: 0 <= i < |msgs| ==>
          && (b.client[i] == MsgConsumeAck <==> LastSet(ops, msgs[i].id).Some? || ForceMsg in ops)
          && b.statuses[i] == LastWord(ops, msgs[i].id))
    && (forall id :: id in b.reconsume <==> SetMsg(id, RECONSUME_LATER) in ops && b.HasId(id))
  }

  /** What an acknowledgement writes, unit by unit. */
  ghost predicate Written(b: Batch, r: Batch, id: string, s: ConsumeStatus)
    requires b.Valid() && r.Valid() && r.units == b.units
  {
    && (forall h :: 0 <= h < |b.units| ==>
          && r.client[h] == (if b.units[h].msgId == id then MsgConsumeAck else b.client[h])
          && r.statuses[h] == (if b.units[h].msgId == id then s else b.statuses[h]))
    && (forall k :: k in r.reconsume <==> k in b.reconsume || (k == id && s == RECONSUME_LATER && b.HasId(k)))
  }

  lemma SetShape(b: Batch, id: string, s: ConsumeStatus)
    requires b.Valid()
    ensures var r := SetStatus(b, id, s, MsgConsumeAck);
      r.Valid() && r.units == b.units && r.fetched == b.fetched && Written(b, r, id, s)
  {
  }

  /** One more word, on this id, in the history. */
  ghost predicate ToldAlso(init: seq<Op>, ops: seq<Op>, id: string, s: ConsumeStatus) {
    && GetCount(ops) == GetCount(init) && (ForceMsg in ops <==> ForceMsg in init)
    && (forall k :: LastSet(ops, k) == if k == id then Some(s) else LastSet(init, k))
    && (forall k :: SetMsg(k, RECONSUME_LATER) in ops <==>
                    SetMsg(k, RECONSUME_LATER) in init || (k == id && s == RECONSUME_LATER))
  }

  lemma ToldOnce(init: seq<Op>, id: string, s: ConsumeStatus)
    ensures ToldAlso(init, init + [SetMsg(id, s)], id, s)
  {
    assert (init + [SetMsg(id, s)])[..|init|] == init;
  }

  lemma AccountedTold(msgs: seq<Message>, init: seq<Op>, ops: seq<Op>, id: string, s: ConsumeStatus, b: Batch, r: Batch)
    requires Accounted(msgs, init, b) && ToldAlso(init, ops, id, s)
    requires r.Valid() && r.units == b.units && r.fetched == b.fetched && Written(b, r, id, s)
    ensures Accounted(msgs, ops, r)
  {
    hide LastSet, GetCount;
    forall k ensures r.HasId(k) == b.HasId(k) {}
  }

  lemma AccountedSet(msgs: seq<Message>, init: seq<Op>, id: string, s: ConsumeStatus, b: Batch)
    requires Accounted(msgs, init, b)
    ensures Accounted(msgs, init + [SetMsg(id, s)], SetStatus(b, id, s, MsgConsumeAck))
  {
    assert b.Valid();
    hide Accounted, SetStatus, ToldAlso, Written;
    SetShape(b, id, s);
    ToldOnce(init, id, s);
    AccountedTold(msgs, init, init + [SetMsg(id, s)], id, s, b, SetStatus(b, id, s, MsgConsumeAck));
  }

  /** The histories tell every message the same. */
  ghost predicate SameWords(ops: seq<Op>, more: seq<Op>) {
    && (forall id :: LastSet(more, id) == LastSet(ops, id))
    && (forall id :: SetMsg(id, RECONSUME_LATER) in more <==> SetMsg(id, RECONSUME_LATER) in ops)
    && (ForceMsg in more <==> ForceMsg in ops)
  }

  lemma WordsKept(init: seq<Op>, op: Op)
    requires !op.SetMsg? && !op.ForceMsg?
    ensures SameWords(init, init + [op])
    ensures GetCount(init + [op]) == GetCount(init) + if op.GetMsg? then 1 else 0
  {
    var ops := init + [op];
    assert ops[..|ops| - 1] == init;
  }

  lemma AccountedSame(msgs: seq<Message>, init: seq<Op>, ops: seq<Op>, b: Batch, r: Batch)
    requires Accounted(msgs, init, b) && SameWords(init, ops)
    requires r == b.(fetched := r.fetched, status := r.status, released := r.released)
    requires r.fetched == Range(Min(GetCount(ops), |msgs|), |msgs|)
    ensures Accounted(msgs, ops, r)
  {
    forall k ensures r.HasId(k) == b.HasId(k) {}
  }

  /** An operation that tells no message anything. */
  lemma AccountedOther(msgs: seq<Message>, init: seq<Op>, op: Op, b: Batch)
    requires Accounted(msgs, init, b) && !op.SetMsg? && !op.ForceMsg?
    ensures Accounted(msgs, init + [op], Apply(b, op))
  {
    hide SameWords, LastSet, Create;
    WordsKept(init, op);
    assert op == GetMsg ==> Pop(b).fetched == Range(Min(GetCount(init) + 1, |msgs|), |msgs|);
    AccountedSame(msgs, init, init + [op], b, Apply(b, op));
  }

  /** A unit that unlockAll marks had no word before, so its status was RECONSUME_LATER already. */
  lemma AccountedForce(msgs: seq<Message>, init: seq<Op>, b: Batch)
    requires Accounted(msgs, init, b)
    ensures Force(b).statuses == b.statuses
    ensures Accounted(msgs, init + [ForceMsg], Force(b))
  {
    var ops, r := init + [ForceMsg], Force(b);
    assert ops[..|ops| - 1] == init && ForceMsg in ops;
    assert r.statuses == b.statuses;
    forall k ensures r.HasId(k) == b.HasId(k) {}
  }

  lemma AccountedStep(msgs: seq<Message>, init: seq<Op>, op: Op, b: Batch)
    requires Accounted(msgs, init, b)
    ensures Accounted(msgs, init + [op], Apply(b, op))
  {
    hide Accounted, LastSet;
    match op
    case SetMsg(id, s) => AccountedSet(msgs, init, id, s, b);
    case ForceMsg => AccountedForce(msgs, init, b);
    case _ => AccountedOther(msgs, init, op, b);
  }

  /** Where every field of a batch but its verdict comes from, after any operations in any order. */
  lemma {:induction false} ReplayAccounted(msgs: seq<Message>, group: string, ops: seq<Op>)
    ensures Accounted(msgs, ops, Replay(Create(msgs, group), ops))
  {
    if ops == [] {
      NothingDone(msgs, group);
    } else {
      hide Accounted, Create, Apply;
      var init, op := ops[..|ops| - 1], ops[|ops| - 1];
      assert ops == init + [op];
      ReplayAccounted(msgs, group, init);
      AccountedStep(msgs, init, op, Replay(Create(msgs, group), init));
    }
  }

  lemma NothingDone(msgs: seq<Message>, group: string)
    ensures Accounted(msgs, [], Create(msgs, group))
  {
  }

  /** Neither forced nor published to by a scan that something else overlapped. */
  predicate Sequential(ops: seq<Op>) {
    forall i :: 0 <= i < |ops| ==> !ops[i].ForceMsg? && !ops[i].Publish?
  }

  /** Nothing has been told since the last check. */
  predicate Checked(ops: seq<Op>) {
    ops != [] && var last := ops[|ops| - 1]; last.Check? || (last.GetMsg? && Checked(ops[..|ops| - 1]))
  }

  /**
   * One operation at a time and never forced: a released batch is fetched and acknowledged
   * completely, and once what was told has been checked its status is the one its units call for.
   */
  lemma {:induction false} ReplayUnforced(msgs: seq<Message>, group: string, ops: seq<Op>)
    requires Sequential(ops)
    ensures var b := Replay(Create(msgs, group), ops);
      && Accounted(msgs, ops, b)
      && (forall i :: 0 <= i < |msgs| ==> (b.client[i] == MsgConsumeAck <==> LastSet(ops, msgs[i].id).Some?))
      && (b.released ==> b.fetched == [] && b.AllAcked())
      && (b.released && Checked(ops) ==> b.status == b.Overall())
  {
    ReplayAccounted(msgs, group, ops);
    NotForced(ops);
    AckedByWord(msgs, ops, Replay(Create(msgs, group), ops));
    if ops != [] {
      hide Create, Accounted, Replay, Apply;
      var init, op := ops[..|ops| - 1], ops[|ops| - 1];
      assert ops == init + [op] && Sequential(init);
      ReplayUnforced(msgs, group, init);
      ReplayOne(Create(msgs, group), init, op);
      UnforcedStep(Replay(Create(msgs, group), init), op);
    }
  }

  lemma NotForced(ops: seq<Op>)
    requires Sequential(ops)
    ensures ForceMsg !in ops
  {
  }

  lemma AckedByWord(msgs: seq<Message>, ops: seq<Op>, b: Batch)
    requires Accounted(msgs, ops, b) && ForceMsg !in ops
    ensures forall i :: 0 <= i < |msgs| ==>
              i in b.client && (b.client[i] == MsgConsumeAck <==> LastSet(ops, msgs[i].id).Some?)
  {
  }

  lemma UnforcedStep(b: Batch, op: Op)
    requires !op.ForceMsg? && !op.Publish? && (b.released ==> b.fetched == [] && b.AllAcked())
    ensures var r := Apply(b, op);
      && (r.released ==> r.fetched == [] && r.AllAcked())
      && (r.released && op.Check? ==> r.status == r.Overall())
      && (op.GetMsg? ==> r == b.(fetched := r.fetched))
  {
  }

  /**
   * A batch that is never forced is released exactly when some check came after its
   * last message was fetched and every message id had been acknowledged.
   */
  lemma {:induction false} ReleasedExactly(msgs: seq<Message>, group: string, ops: seq<Op>)
    requires Sequential(ops)
    ensures Replay(Create(msgs, group), ops).released <==>
            exists k :: 0 <= k < |ops| && ops[k] == Check && ReadyAt(msgs, ops[..k])
  {
    if ops == [] {
      NothingDone(msgs, group);
    } else {
      hide Create, Apply, Accounted, ReadyAt, Batch.Fires;
      var init, op := ops[..|ops| - 1], ops[|ops| - 1];
      assert ops == init + [op] && Sequential(init);
      ReleasedExactly(msgs, group, init);
      ReplayAccounted(msgs, group, init);
      ReleasedStep(msgs, init, op, Replay(Create(msgs, group), init));
      ReadyMoreExactly(msgs, init, op);
    }
  }

  lemma ReleasedStep(msgs: seq<Message>, init: seq<Op>, op: Op, b: Batch)
    requires Accounted(msgs, init, b) && Sequential(init + [op])
    ensures Apply(b, op).released <==> b.released || (op == Check && ReadyAt(msgs, init))
  {
    assert (init + [op])[|init|] == op;
    assert forall i :: 0 <= i < |init| ==> (init + [op])[i] == init[i];
    if op == Check { ReadyFires(msgs, init, b); }
  }

  lemma ReadyFires(msgs: seq<Message>, ops: seq<Op>, b: Batch)
    requires Accounted(msgs, ops, b) && ForceMsg !in ops
    ensures b.Fires(false) <==> ReadyAt(msgs, ops)
  {
    AckedByWord(msgs, ops, b);
  }

  lemma ReadyMoreExactly(msgs: seq<Message>, init: seq<Op>, op: Op)
    ensures var ops := init + [op];
      (exists k :: 0 <= k < |ops| && ops[k] == Check && ReadyAt(msgs, ops[..k])) <==>
      (exists k :: 0 <= k < |init| && init[k] == Check && ReadyAt(msgs, init[..k])) ||
      (op == Check && ReadyAt(msgs, init))
  {
    hide ReadyAt;
    var ops := init + [op];
    assert ops[..|init|] == init;
    forall k | 0 <= k < |init| ensures init[..k] == ops[..k] && init[k] == ops[k] {}
    if op == Check && ReadyAt(msgs, init) { assert ops[|init|] == Check && ReadyAt(msgs, ops[..|init|]); }
    if k :| 0 <= k < |init| && init[k] == Check && ReadyAt(msgs, init[..k]) {
      assert ops[k] == Check && ReadyAt(msgs, ops[..k]);
    }
    if k :| 0 <= k < |ops| && ops[k] == Check && ReadyAt(msgs, ops[..k]) {
      if k < |init| { assert init[k] == Check && ReadyAt(msgs, init[..k]); }
    }
  }

  /** Every message has been fetched and every message id acknowledged at least once. */
  ghost predicate ReadyAt(msgs: seq<Message>, ops: seq<Op>) {
    && GetCount(ops) >= |msgs|
    && forall i :: 0 <= i < |msgs| ==> LastSet(ops, msgs[i].id).Some?
  }

  // ---------------------------------------------------------------------------
  // The verdict vector
  // ---------------------------------------------------------------------------

  /**
   * Forced or not, when the verdict is RECONSUME_LATER the vector has one entry per message, in order,
   * and asks for redelivery exactly where some acknowledgement of that id asked for it.
   */
  lemma VectorEntries(msgs: seq<Message>, group: string, ops: seq<Op>)
    ensures var b := Replay(Create(msgs, group), ops);
      b.status == RECONSUME_LATER ==>
        && |b.StatusVector()| == |msgs|
        && forall i :: 0 <= i < |msgs| ==>
             b.StatusVector()[i] ==
             if SetMsg(msgs[i].id, RECONSUME_LATER) in ops then RECONSUME_LATER else CONSUME_SUCCESS
  {
    ReplayAccounted(msgs, group, ops);
    var b := Replay(Create(msgs, group), ops);
    forall i | 0 <= i < |msgs| ensures b.HasId(msgs[i].id) {
      assert b.units[i].msgId == msgs[i].id;
    }
  }

  /** No message whose last word is RECONSUME_LATER is reported as consumed. */
  ghost predicate VectorSound(b: Batch) {
    b.status == RECONSUME_LATER ==>
      && |b.StatusVector()| == |b.units|
      && forall i :: 0 <= i < |b.units| && i in b.statuses && b.statuses[i] == RECONSUME_LATER ==>
           b.StatusVector()[i] == RECONSUME_LATER
  }

  /**
   * After any history, forced or not, the vector is sound exactly when it is not used, or every
   * message has been told something: the sticky set does not know of a message that was not.
   */
  lemma VectorSoundExactly(msgs: seq<Message>, group: string, ops: seq<Op>)
    ensures var b := Replay(Create(msgs, group), ops);
      VectorSound(b) <==>
        b.status != RECONSUME_LATER || forall i :: 0 <= i < |msgs| ==> LastSet(ops, msgs[i].id).Some?
  {
    ReplayAccounted(msgs, group, ops);
    VectorEntries(msgs, group, ops);
    var b := Replay(Create(msgs, group), ops);
    forall i | 0 <= i < |msgs|
      ensures b.statuses[i] == RECONSUME_LATER && LastSet(ops, msgs[i].id).Some? ==>
                SetMsg(msgs[i].id, RECONSUME_LATER) in ops
      ensures LastSet(ops, msgs[i].id).None? ==>
                b.statuses[i] == RECONSUME_LATER && SetMsg(msgs[i].id, RECONSUME_LATER) !in ops
    {
      LastSetSome(ops, msgs[i].id);
    }
  }

  /** The vector asks for redelivery of exactly the messages whose last word is RECONSUME_LATER. */
  ghost predicate VectorExact(b: Batch) {
    b.status == RECONSUME_LATER ==>
      && |b.StatusVector()| == |b.units|
      && forall i :: 0 <= i < |b.units| ==>
           (i in b.statuses && b.statuses[i] == RECONSUME_LATER <==> b.StatusVector()[i] == RECONSUME_LATER)
  }

  /** What the sticky set knows of a unit, without any force. */
  lemma StickySet(msgs: seq<Message>, ops: seq<Op>, b: Batch, i: nat)
    requires Accounted(msgs, ops, b) && ForceMsg !in ops && i < |msgs|
    ensures i in b.client && i in b.statuses
    ensures b.client[i] != MsgConsumeAck ==> b.units[i].msgId !in b.reconsume && b.statuses[i] == RECONSUME_LATER
    ensures b.client[i] == MsgConsumeAck && b.statuses[i] == RECONSUME_LATER ==> b.units[i].msgId in b.reconsume
  {
    LastSetSome(ops, msgs[i].id);
    assert b.units[i].msgId == msgs[i].id;
  }

  lemma ReleasedVectorSound(msgs: seq<Message>, group: string, ops: seq<Op>)
    requires ForceMsg !in ops
    ensures var b := Replay(Create(msgs, group), ops); b.AllAcked() ==> VectorSound(b)
  {
    ReplayAccounted(msgs, group, ops);
    var b := Replay(Create(msgs, group), ops);
    forall i | 0 <= i < |msgs|
      ensures b.AllAcked() && b.statuses[i] == RECONSUME_LATER ==> b.units[i].msgId in b.reconsume
    {
      StickySet(msgs, ops, b, i);
    }
  }

  /**
   * The vector agrees with the final statuses if and only if no message that was once
   * to be redelivered was given another status afterwards.
   */
  lemma ReleasedVectorExact(msgs: seq<Message>, group: string, ops: seq<Op>)
    requires ForceMsg !in ops
    ensures var b := Replay(Create(msgs, group), ops);
      b.AllAcked() && b.status == RECONSUME_LATER ==>
        (VectorExact(b) <==>
         forall i :: 0 <= i < |msgs| && SetMsg(msgs[i].id, RECONSUME_LATER) in ops ==>
           LastSet(ops, msgs[i].id) == Some(RECONSUME_LATER))
  {
    ReplayAccounted(msgs, group, ops);
    VectorEntries(msgs, group, ops);
    ReleasedVectorSound(msgs, group, ops);
    var b := Replay(Create(msgs, group), ops);
    if b.AllAcked() && b.status == RECONSUME_LATER {
      forall i | 0 <= i < |msgs|
        ensures LastSet(ops, msgs[i].id) == Some(b.statuses[i])
      {
        assert b.client[i] == MsgConsumeAck;
      }
    }
  }

  // ---------------------------------------------------------------------------
  // Forced release
  // ---------------------------------------------------------------------------

  /**
   * unlockAll on one batch: it is released, an acknowledged unit keeps its status, every other
   * unit becomes RECONSUME_LATER, and the verdict is not RECONSUME_LATER exactly when every
   * unit had already been acknowledged with another status.
   */
  lemma ForcedRelease(b: Batch)
    requires b.Valid()
    ensures var r := Force(b);
      && r.Valid() && r.released && r.AllAcked()
      && r.units == b.units && r.fetched == b.fetched && r.reconsume == b.reconsume
      && (forall i :: 0 <= i < |b.units| ==>
            r.statuses[i] == if b.client[i] == MsgConsumeAck then b.statuses[i] else RECONSUME_LATER)
      && (r.status == CONSUME_SUCCESS <==>
          b.AllAcked() && forall i :: 0 <= i < |b.units| ==> b.statuses[i] != RECONSUME_LATER)
  {
    var r := Force(b);
    if !b.AllAcked() {
      var i :| i in b.client && b.client[i] != MsgConsumeAck;
      assert r.statuses[i] == RECONSUME_LATER;
    }
    if i :| 0 <= i < |b.units| && b.statuses[i] == RECONSUME_LATER {
      assert r.statuses[i] == RECONSUME_LATER;
    }
  }

  /** The sticky set remembers no unacknowledged unit, and every unit acknowledged for redelivery. */
  ghost predicate Sticky(b: Batch)
    requires b.Valid()
  {
    forall i :: 0 <= i < |b.units| ==>
      if b.client[i] == MsgConsumeAck
      then b.statuses[i] == RECONSUME_LATER ==> b.units[i].msgId in b.reconsume
      else b.units[i].msgId !in b.reconsume
  }

  lemma ForcedEntry(b: Batch, i: nat)
    requires b.Valid() && Sticky(b) && i < |b.units| && b.client[i] != MsgConsumeAck
    ensures Force(b).status == RECONSUME_LATER
    ensures Force(b).statuses[i] == RECONSUME_LATER && Force(b).StatusVector()[i] == CONSUME_SUCCESS
    ensures !VectorSound(Force(b))
  {
    ForcedRelease(b);
    assert !b.AllAcked();
  }

  lemma ForcedSound(b: Batch)
    requires b.Valid() && Sticky(b)
    ensures VectorSound(Force(b)) <==> b.AllAcked()
  {
    ForcedRelease(b);
    if !b.AllAcked() {
      var i :| i in b.client && b.client[i] != MsgConsumeAck;
      ForcedEntry(b, i);
    }
  }

  lemma UnforcedSticky(msgs: seq<Message>, group: string, ops: seq<Op>)
    requires ForceMsg !in ops
    ensures var b := Replay(Create(msgs, group), ops); b.Valid() && Sticky(b) && |b.units| == |msgs|
  {
    ReplayAccounted(msgs, group, ops);
    var b := Replay(Create(msgs, group), ops);
    forall i: nat | i < |msgs| { StickySet(msgs, ops, b, i); }
  }

  /**
   * unlockAll writes statusMap but not reconsumeMap, so the vector of a forced batch reports as
   * consumed every message it has just marked for redelivery. It is sound if and only if there
   * was no such message.
   */
  lemma ForcedVectorSoundExactly(msgs: seq<Message>, group: string, ops: seq<Op>)
    requires ForceMsg !in ops
    ensures var b := Replay(Create(msgs, group), ops);
      && b.Valid()
      && (VectorSound(Force(b)) <==> b.AllAcked())
      && (forall i :: 0 <= i < |msgs| && b.client[i] != MsgConsumeAck ==>
            && Force(b).status == RECONSUME_LATER
            && Force(b).statuses[i] == RECONSUME_LATER
            && Force(b).StatusVector()[i] == CONSUME_SUCCESS)
  {
    UnforcedSticky(msgs, group, ops);
    var b := Replay(Create(msgs, group), ops);
    forall i: nat | i < |msgs| && b.client[i] != MsgConsumeAck { ForcedEntry(b, i); }
    ForcedSound(b);
  }

  /** One unacknowledged message, forced: its verdict is RECONSUME_LATER and its entry CONSUME_SUCCESS. */
  lemma ForcedVectorExample()
    ensures var b := Force(Create([Message("m", "t", "x", 0)], "g"));
      b.status == RECONSUME_LATER && b.statuses == map[0 := RECONSUME_LATER] && b.StatusVector() == [CONSUME_SUCCESS]
  {
    var b0 := Create([Message("m", "t", "x", 0)], "g");
    ForcedVectorSoundExactly([Message("m", "t", "x", 0)], "g", []);
    assert b0 == Replay(b0, []) && b0.client[0] != MsgConsumeAck;
  }
}
