/**
 * ConsumerUnitLocker and ConsumerUnit as objects that are updated in place. Every method is
 * proved against the functions of BatchModel, so what is proved there holds of these objects.
 */
module ConsumerUnits {
  import opened BatchModel

  ghost function WithId(units: seq<MsgUnit>, id: string): set<nat> {
    set h: nat | h in Handles(|units|) && units[h].msgId == id
  }

  /** The index maps an id to exactly the units that carry it, and has no other entry. */
  ghost predicate IndexAgrees(units: seq<MsgUnit>, index: map<string, set<nat>>) {
    forall id :: if id in index then index[id] == WithId(units, id) != {} else WithId(units, id) == {}
  }

  lemma IndexExtends(units: seq<MsgUnit>, u: MsgUnit, index: map<string, set<nat>>)
    requires IndexAgrees(units, index)
    ensures IndexAgrees(units + [u],
      index[u.msgId := (if u.msgId in index then index[u.msgId] else {}) + {|units|}])
  {
    var more := units + [u];
    forall id ensures WithId(more, id) == WithId(units, id) + if id == u.msgId then {|units|} else {} {}
  }

  /** The map with the value v at every key in done. */
  ghost function Stamp<T>(m: map<int, T>, done: set<int>, v: T): map<int, T> {
    map h | h in m :: if h in done then v else m[h]
  }

  lemma StampOne<T>(m: map<int, T>, all: set<int>, todo: set<int>, v: T, h: int)
    requires h in todo && todo <= all <= m.Keys
    ensures Stamp(m, all - (todo - {h}), v) == Stamp(m, all - todo, v)[h := v]
  {
  }

  lemma IndexKnows(units: seq<MsgUnit>, index: map<string, set<nat>>, id: string)
    requires IndexAgrees(units, index)
    ensures id in index <==> exists h :: 0 <= h < |units| && units[h].msgId == id
    ensures id in index ==> {} != index[id] == WithId(units, id)
  {
    if h :| h in WithId(units, id) {
      assert units[h].msgId == id;
    }
    if h :| 0 <= h < |units| && units[h].msgId == id {
      assert h in WithId(units, id);
    }
  }

  lemma ScanIsStamp(b: Batch, done: set<nat>, id: string, s: ConsumeStatus, cs: ClientStatus)
    requires done == WithId(b.units, id)
    ensures SetStatus(b, id, s, cs).client == Stamp(b.client, done, cs)
    ensures SetStatus(b, id, s, cs).statuses == Stamp(b.statuses, done, s)
  {
    assert forall h :: b.Carries(h, id) <==> h in done;
  }

  /** Setting the units the index gives for an id is the scan over all units. */
  lemma IndexIsScan(b: Batch, index: map<string, set<nat>>, id: string, s: ConsumeStatus, cs: ClientStatus)
    requires b.Valid() && IndexAgrees(b.units, index)
    ensures b.HasId(id) <==> id in index
    ensures id in index ==>
      && {} != index[id] <= Handles(|b.units|)
      && SetStatus(b, id, s, cs).client == Stamp(b.client, index[id], cs)
      && SetStatus(b, id, s, cs).statuses == Stamp(b.statuses, index[id], s)
    ensures id !in index ==> SetStatus(b, id, s, cs) == b
  {
    hide IndexAgrees;
    IndexKnows(b.units, index, id);
    ScanIsStamp(b, WithId(b.units, id), id, s, cs);
    if id !in index {
      assert SetStatus(b, id, s, cs).client == b.client;
      assert SetStatus(b, id, s, cs).statuses == b.statuses;
    }
  }

  /** What unlockAll has done to the maps when the units in done have been visited. */
  ghost function StampLater(sm: map<int, ConsumeStatus>, cm: map<int, ClientStatus>, done: set<int>)
    : map<int, ConsumeStatus>
  {
    map h | h in sm :: if h in done && h in cm && cm[h] != MsgConsumeAck then RECONSUME_LATER else sm[h]
  }

  lemma StampLaterOne(sm: map<int, ConsumeStatus>, cm: map<int, ClientStatus>, todo: set<int>, h: int)
    requires h in todo && todo <= cm.Keys == sm.Keys
    ensures var was := StampLater(sm, cm, cm.Keys - todo);
      StampLater(sm, cm, cm.Keys - (todo - {h})) == if cm[h] != MsgConsumeAck then was[h := RECONSUME_LATER] else was
  {
  }

  /** The batch with one more message. */
  ghost function Added(b: Batch, msg: Message, group: string): Batch {
    b.(units := b.units + [UnitOf(msg, group)],
       fetched := b.fetched + [|b.units|],
       client := b.client[|b.units| := MsgFetchFromBroker],
       statuses := b.statuses[|b.units| := RECONSUME_LATER])
  }

  lemma CreateExtends(msgs: seq<Message>, i: nat, group: string)
    requires i < |msgs|
    ensures Create(msgs[..i + 1], group) == Added(Create(msgs[..i], group), msgs[i], group)
  {
    var b, r := Added(Create(msgs[..i], group), msgs[i], group), Create(msgs[..i + 1], group);
    assert b.client == r.client;
    assert b.statuses == r.statuses;
  }

  /** The index with the unit filed under its id. */
  function Filed(index: map<string, set<nat>>, id: string, unit: nat): map<string, set<nat>> {
    if id !in index then index[id := {unit}] else index[id := index[id] + {unit}]
  }

  lemma AddedValid(b: Batch, index: map<string, set<nat>>, msg: Message, group: string)
    requires b.Valid() && IndexAgrees(b.units, index)
    ensures Added(b, msg, group).Valid()
    ensures IndexAgrees(Added(b, msg, group).units, Filed(index, msg.id, |b.units|))
  {
    IndexExtends(b.units, UnitOf(msg, group), index);
    assert Handles(|b.units| + 1) == Handles(|b.units|) + {|b.units|};
  }

  class ConsumerUnitLocker {
    var units: seq<MsgUnit>                      // what the unit pointers point to
    var clientStatusMap: map<int, ClientStatus>
    var statusMap: map<int, ConsumeStatus>
    var idMsgMap: map<string, set<nat>>
    var fetchedArr: seq<int>
    var reconsumeMap: set<string>
    var status: ConsumeStatus
    var clientStatus: ClientStatus

    ghost var batch: Batch                       // the value of this object

    ghost function Value(): Batch
      reads this
    {
      Batch(units, fetchedArr, clientStatusMap, statusMap, reconsumeMap, status, clientStatus == MsgConsumeAck)
    }

    /** The two status maps have the same keys, which idMsgMap partitions by message id. */
    ghost predicate Valid()
      reads this
    {
      batch == Value() && batch.Valid() && IndexAgrees(units, idMsgMap)
    }

    constructor (msgs: seq<Message>, group: string)
      ensures Valid() && Value() == Create(msgs, group)
    {
      status, clientStatus := RECONSUME_LATER, MsgFetchFromBroker;
      units, fetchedArr, reconsumeMap := [], [], {};
      clientStatusMap, statusMap, idMsgMap := map[], map[], map[];
      batch := Batch([], [], map[], map[], {}, RECONSUME_LATER, false);
      new;
      for i := 0 to |msgs|
        invariant Valid() && batch == Create(msgs[..i], group)
      {
        CreateExtends(msgs, i, group);
        Add(msgs[i], group);
      }
      assert msgs[..|msgs|] == msgs;
    }

    /** One turn of the constructor's loop. */
    method Add(msg: Message, group: string)
      requires Valid()
      modifies this
      ensures Valid()
      ensures batch == Added(old(batch), msg, group)
    {
      hide IndexAgrees, Filed, UnitOf;
      var unit := |units|;
      var index := Filed(idMsgMap, msg.id, unit);
      AddedValid(batch, idMsgMap, msg, group);
      idMsgMap := index;
      units := units + [UnitOf(msg, group)];
      clientStatusMap := clientStatusMap[unit := MsgFetchFromBroker];
      statusMap := statusMap[unit := RECONSUME_LATER];
      fetchedArr := fetchedArr + [unit];
      batch := Value();
    }

    method GetMsg() returns (found: bool, unit: int)
      requires Valid()
      modifies this`fetchedArr, this`batch
      ensures Valid()
      ensures found <==> old(fetchedArr) != []
      ensures found ==> unit == old(fetchedArr)[0]
      ensures batch == Pop(old(batch))
    {
      if fetchedArr == [] {
        return false, 0;
      }
      found, unit := true, fetchedArr[0];
      fetchedArr := fetchedArr[1..];
      batch := Pop(batch);
    }

    method SetMsgStatus(msgId: string, s: ConsumeStatus, cs: ClientStatus) returns (ret: bool)
      requires Valid()
      modifies this`statusMap, this`clientStatusMap, this`reconsumeMap, this`batch
      ensures Valid()
      ensures ret <==> old(batch).HasId(msgId)
      ensures batch == SetStatus(old(batch), msgId, s, cs)
    {
      hide IndexAgrees, Stamp;
      IndexIsScan(batch, idMsgMap, msgId, s, cs);
      ret := false;
      if msgId in idMsgMap {
        ret := SetUnits(idMsgMap[msgId], msgId, s, cs);
      }
      batch := SetStatus(batch, msgId, s, cs);
    }

    /** setMsgStatus's loop over the units the index gives for the id. */
    method SetUnits(idMap: set<nat>, msgId: string, s: ConsumeStatus, cs: ClientStatus) returns (ret: bool)
      requires idMap <= clientStatusMap.Keys == statusMap.Keys
      modifies this`statusMap, this`clientStatusMap, this`reconsumeMap
      ensures clientStatusMap == Stamp(old(clientStatusMap), idMap, cs)
      ensures statusMap == Stamp(old(statusMap), idMap, s)
      ensures reconsumeMap == old(reconsumeMap) + if s == RECONSUME_LATER && idMap != {} then {msgId} else {}
      ensures ret <==> idMap != {}
    {
      ret := false;
      var todo := idMap;
      while todo != {}
        invariant todo <= idMap
        invariant clientStatusMap == Stamp(old(clientStatusMap), idMap - todo, cs)
        invariant statusMap == Stamp(old(statusMap), idMap - todo, s)
        invariant ret <==> todo != idMap
        invariant reconsumeMap == old(reconsumeMap) + if s == RECONSUME_LATER && ret then {msgId} else {}
      {
        var h :| h in todo;
        statusMap := statusMap[h := s];
        clientStatusMap := clientStatusMap[h := cs];
        ret := true;
        if s == RECONSUME_LATER {
          reconsumeMap := reconsumeMap + {msgId};
        }
        StampOne(old(clientStatusMap), idMap, todo, cs, h);
        StampOne(old(statusMap), idMap, todo, s, h);
        todo := todo - {h};
      }
      assert idMap - todo == idMap;
    }

    method TriggerCheck(forced: bool)
      requires Valid()
      modifies this`status, this`clientStatus, this`batch
      ensures Valid()
      ensures batch == Trigger(old(batch), forced)
    {
      if !forced && |fetchedArr| != 0 {
        return;
      }
      var todo := clientStatusMap.Keys;
      var s, cs := CONSUME_SUCCESS, MsgConsumeAck;
      while todo != {}
        invariant todo <= clientStatusMap.Keys
        invariant cs == MsgConsumeAck
        invariant forall h :: h in clientStatusMap && h !in todo ==> clientStatusMap[h] == MsgConsumeAck
        invariant s == RECONSUME_LATER <==> exists h :: h in statusMap && h !in todo && statusMap[h] == RECONSUME_LATER
        invariant s == RECONSUME_LATER || s == CONSUME_SUCCESS
      {
        var h :| h in todo;
        cs := clientStatusMap[h];
        if cs != MsgConsumeAck {
          break;
        }
        if statusMap[h] == RECONSUME_LATER {
          s := RECONSUME_LATER;
        }
        todo := todo - {h};
      }
      if cs == MsgConsumeAck {
        status := s;
        clientStatus := cs;
      }
      batch := Trigger(batch, forced);
    }

    /** The listener callback, once waitLock and eraseLock have returned. */
    method Verdict(msgs: seq<Message>) returns (r: ConsumeStatus, statusVector: seq<ConsumeStatus>)
      requires Valid() && |msgs| == |units|
      requires forall i :: 0 <= i < |msgs| ==> msgs[i].id == units[i].msgId
      ensures r == batch.status
      ensures statusVector == batch.StatusVector()
    {
      statusVector := [];
      if status == RECONSUME_LATER {
        for i := 0 to |msgs|
          invariant |statusVector| == i
          invariant statusVector == batch.StatusVector()[..i]
        {
          if msgs[i].id !in reconsumeMap {
            statusVector := statusVector + [CONSUME_SUCCESS];
          } else {
            statusVector := statusVector + [RECONSUME_LATER];
          }
        }
      }
      return status, statusVector;
    }
  }

  class ConsumerUnit {
    var lockers: set<ConsumerUnitLocker>

    ghost predicate Valid()
      reads this, lockers
    {
      forall l :: l in lockers ==> l.Valid()
    }

    constructor ()
      ensures Valid() && lockers == {}
    {
      lockers := {};
    }

    /** The part of waitLock that registers the batch. */
    method InsertLock(locker: ConsumerUnitLocker)
      requires Valid() && locker.Valid()
      modifies this
      ensures Valid() && lockers == old(lockers) + {locker}
    {
      lockers := lockers + {locker};
    }

    method EraseLock(locker: ConsumerUnitLocker)
      requires Valid()
      modifies this
      ensures Valid() && lockers == old(lockers) - {locker}
    {
      lockers := lockers - {locker};
    }

    /** One turn of setMsgAck's loop. */
    method AckOne(l: ConsumerUnitLocker, msgId: string, s: ConsumeStatus) returns (known: bool)
      requires l.Valid()
      modifies l
      ensures l.Valid() && l.batch == Ack(old(l.batch), msgId, s)
      ensures known <==> old(l.batch).HasId(msgId)
    {
      known := l.SetMsgStatus(msgId, s, MsgConsumeAck);
      l.TriggerCheck(false);
    }

    /** Every registered batch takes the acknowledgement, and ret says whether any of them knew the id. */
    method SetMsgAck(msgId: string, s: ConsumeStatus) returns (ret: bool)
      requires Valid()
      modifies lockers
      ensures Valid()
      ensures forall l :: l in lockers ==> l.batch == Ack(old(l.batch), msgId, s)
      ensures ret <==> exists l :: l in lockers && old(l.batch).HasId(msgId)
    {
      hide Ack, IndexAgrees;
      ret := false;
      ghost var knowing := set l | l in lockers && l.batch.HasId(msgId);
      var todo := lockers;
      while todo != {}
        invariant todo <= lockers && Valid()
        invariant forall l :: l in lockers ==>
          l.batch == if l in todo then old(l.batch) else Ack(old(l.batch), msgId, s)
        invariant ret <==> !(knowing <= todo)
      {
        var l :| l in todo;
        var known := AckOne(l, msgId, s);
        if known {
          ret := true;
        }
        todo := todo - {l};
      }
    }

    /** The oldest unfetched unit of some registered batch is taken, if there is one; nothing else changes. */
    method FetchAndConsume() returns (found: bool, from: ConsumerUnitLocker?, unit: int)
      requires Valid()
      modifies lockers`fetchedArr, lockers`batch
      ensures Valid()
      ensures found <==> exists l :: l in lockers && old(l.fetchedArr) != []
      ensures found ==> from in lockers && old(from.fetchedArr) != [] && unit == old(from.fetchedArr)[0]
      ensures forall l :: l in lockers ==>
        l.batch == if found && l == from then Pop(old(l.batch)) else old(l.batch)
    {
      found, from, unit := false, null, 0;
      var todo := lockers;
      while todo != {}
        invariant todo <= lockers && Valid() && !found
        invariant forall l :: l in lockers ==> l.batch == old(l.batch)
        invariant forall l :: l in lockers - todo ==> l.fetchedArr == []
      {
        var l :| l in todo;
        found, unit := l.GetMsg();
        if found {
          from := l;
          break;
        }
        todo := todo - {l};
      }
    }

    method UnlockAll()
      requires Valid()
      modifies lockers
      ensures Valid()
      ensures forall l :: l in lockers ==> l.batch == Force(old(l.batch))
    {
      var todo := lockers;
      while todo != {}
        invariant todo <= lockers && Valid()
        invariant forall l :: l in lockers ==>
          l.batch == if l in todo then old(l.batch) else Force(old(l.batch))
      {
        var l :| l in todo;
        MarkRest(l);
        l.TriggerCheck(true);
        todo := todo - {l};
      }
    }

    /** unlockAll's inner loop over one batch. */
    method MarkRest(l: ConsumerUnitLocker)
      requires l.Valid()
      modifies l`clientStatusMap, l`statusMap, l`batch
      ensures l.Valid() && l.batch == ForceAck(old(l.batch))
    {
      hide IndexAgrees;
      ghost var before := l.batch;
      var todo := l.clientStatusMap.Keys;
      while todo != {}
        invariant todo <= before.client.Keys
        invariant l.clientStatusMap == Stamp(before.client, before.client.Keys - todo, MsgConsumeAck)
        invariant l.statusMap == StampLater(before.statuses, before.client, before.client.Keys - todo)
      {
        var h :| h in todo;
        StampOne(before.client, before.client.Keys, todo, MsgConsumeAck, h);
        StampLaterOne(before.statuses, before.client, todo, h);
        if l.clientStatusMap[h] != MsgConsumeAck {
          l.clientStatusMap := l.clientStatusMap[h := MsgConsumeAck];
          l.statusMap := l.statusMap[h := RECONSUME_LATER];
        }
        todo := todo - {h};
      }
      assert before.client.Keys - todo == before.client.Keys;
      assert ForceAck(before).client == l.clientStatusMap && ForceAck(before).statuses == l.statusMap;
      l.batch := ForceAck(before);
    }
  }
}
