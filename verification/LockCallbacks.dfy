/**
 * The verdict the listener callback returns, in every run: with checks of several threads that
 * overlap, and with unlockAll.
 */
module LockCallbacks {
  import opened BatchModel
  import opened Options
  import opened LockProtocol
  import opened LockSafety
  import opened LockVerdicts

  // ---------------------------------------------------------------------------
  // What can be told to a batch, and when
  // ---------------------------------------------------------------------------

  /**
   * may(id, v, late): the batch can be told the status v for a message with this id, before
   * (late is false) or after (late is true) unlockAll has been at it. clears: unlockAll can be at
   * it. overlap: it can be told something while another acknowledgement of it is not yet checked.
   */
  datatype Tells = Tells(may: (string, ConsumeStatus, bool) -> bool, clears: bool, overlap: bool)

  predicate AtBatch(pc: WorkerPc, b: nat) {
    (pc.Marked? || pc.Checking?) && pc.batch == b
  }

  /** Some worker is between its setMsgStatus of this batch and the end of its triggerCheck. */
  ghost predicate Busy(s: State, b: nat) {
    exists w :: w in s.workers && AtBatch(s.workers[w], b)
  }

  ghost predicate Admits(s: State, a: Action, b: nat, p: Tells)
    requires Enabled(s, a)
  {
    match a
    case Mark(w, c) =>
      var t := WorkerAt(s, w).task;
      c == b && s.jobs[b].batch.HasId(t.id) ==>
        p.may(t.id, t.s, ForceMsg in s.jobs[b].ops) && (p.overlap || !Busy(s, b))
    case ForceOne(_, c) => c == b ==> p.clears
    case _ => true
  }

  /** What the run does to batch b is what p admits; about other batches p says nothing. */
  ghost predicate Within(acts: seq<Action>, b: nat, p: Tells)
    requires Exec(acts).Some?
  {
    acts == [] ||
    var init := acts[..|acts| - 1];
    Within(init, b, p) && Admits(Exec(init).value, acts[|acts| - 1], b, p)
  }

  /**
   * Acknowledgements can overlap, and a message can be told to be redelivered and also something
   * else; or, where there is unlockAll, it can be told after it what differs from what the forced
   * batch already says.
   */
  ghost predicate Clash(p: Tells) {
    exists id, v | v != RECONSUME_LATER :: ClashAt(p, id, v)
  }

  ghost predicate ClashAt(p: Tells, id: string, v: ConsumeStatus) {
    || (p.overlap && p.may(id, v, false) && p.may(id, RECONSUME_LATER, false))
    || (p.clears && p.may(id, v, true))
    || (p.clears && p.may(id, v, false) && p.may(id, RECONSUME_LATER, true))
  }

  // ---------------------------------------------------------------------------
  // What has been told
  // ---------------------------------------------------------------------------

  ghost predicate ToldOk(b: Batch, ops: seq<Op>, p: Tells) {
    && (ForceMsg in ops ==> p.clears)
    && forall id, v :: SetMsg(id, v) in ops && b.HasId(id) ==> p.may(id, v, false) || (p.clears && p.may(id, v, true))
  }

  /** Without a clash an acknowledged unit changes sides only in a batch not forced, without overlap. */
  lemma SideKept(msgs: seq<Message>, ops: seq<Op>, b: Batch, p: Tells, id: string, v: ConsumeStatus, h: int)
    requires !Clash(p) && Accounted(msgs, ops, b) && ToldOk(b, ops, p) && (p.overlap || ForceMsg in ops)
    requires b.HasId(id) ==> p.may(id, v, ForceMsg in ops)
    requires h in b.client && b.client[h] == MsgConsumeAck && h in b.statuses
    ensures var r := SetStatus(b, id, v, MsgConsumeAck);
      h in r.statuses && (r.statuses[h] == RECONSUME_LATER <==> b.statuses[h] == RECONSUME_LATER)
  {
    if b.Carries(h, id) {
      var u := b.statuses[h];
      LastSetSome(ops, id);
      assert b.units[h].msgId == msgs[h].id == id && b.HasId(id);
      assert u == LastWord(ops, id);
      if u != RECONSUME_LATER { assert SetMsg(id, u) in ops && !ClashAt(p, id, u); }
      if v != RECONSUME_LATER {
        assert !ClashAt(p, id, v);
        assert ForceMsg !in ops;
        assert SetMsg(id, u) in ops;
      }
    }
  }

  // ---------------------------------------------------------------------------
  // The verdict at every moment
  // ---------------------------------------------------------------------------

  /** The verdict of a loop that has read all units but those left. */
  ghost predicate ReadRight(b: Batch, left: set<nat>, verdict: ConsumeStatus) {
    verdict == RECONSUME_LATER <==>
      exists h :: h in UnitsOf(b) && h !in left && h in b.statuses && b.statuses[h] == RECONSUME_LATER
  }

  ghost predicate RightCheck(s: State, w: nat, b: nat) {
    var pc := WorkerAt(s, w);
    pc.Checking? && pc.batch == b ==> b in s.jobs && ReadRight(s.jobs[b].batch, pc.left, pc.verdict)
  }

  /** A released batch has the verdict its units call for, or a check still to come will give it that. */
  ghost predicate RightJob(s: State, b: nat, p: Tells) {
    b in s.jobs ==>
      var j := s.jobs[b];
      && ToldOk(j.batch, j.ops, p)
      && (j.batch.released ==> j.batch.status == j.batch.Overall() || (ForceMsg !in j.ops && Busy(s, b)))
  }

  ghost predicate Right(s: State, b: nat, p: Tells) {
    RightJob(s, b, p) && forall w :: RightCheck(s, w, b)
  }

  /** A batch on which nothing that matters to a verdict has changed sides. */
  ghost predicate SameSides(b: Batch, r: Batch) {
    && r.units == b.units && r.statuses.Keys == b.statuses.Keys
    && forall h :: h in b.client && b.client[h] == MsgConsumeAck && h in b.statuses ==>
         (r.statuses[h] == RECONSUME_LATER <==> b.statuses[h] == RECONSUME_LATER)
  }

  lemma ReadStaysRight(b: Batch, r: Batch, left: set<nat>, verdict: ConsumeStatus)
    requires ReadRight(b, left, verdict) && Seen(b, left) && SameSides(b, r)
    ensures ReadRight(r, left, verdict)
  {
    assert UnitsOf(r) == UnitsOf(b);
  }

  lemma OverallStays(b: Batch, r: Batch)
    requires b.Valid() && b.AllAcked() && SameSides(b, r)
    ensures r.Overall() == b.Overall()
  {
    forall h | h in b.statuses ensures r.statuses[h] == RECONSUME_LATER <==> b.statuses[h] == RECONSUME_LATER {
      assert h in b.client && b.client[h] == MsgConsumeAck;
    }
  }

  lemma WholeReadIsOverall(b: Batch, verdict: ConsumeStatus)
    requires b.Valid() && ReadRight(b, {}, verdict) && verdict in {CONSUME_SUCCESS, RECONSUME_LATER}
    ensures b.Overall() == verdict
  {
    forall h | h in b.statuses ensures h in UnitsOf(b) {}
  }

  lemma SidesTold(msgs: seq<Message>, ops: seq<Op>, b: Batch, p: Tells, id: string, v: ConsumeStatus)
    requires !Clash(p) && Accounted(msgs, ops, b) && ToldOk(b, ops, p)
    requires !b.HasId(id) || (p.may(id, v, ForceMsg in ops) && (p.overlap || ForceMsg in ops))
    ensures SameSides(b, SetStatus(b, id, v, MsgConsumeAck))
  {
    hide Clash, Accounted, ToldOk;
    forall h | h in b.client && b.client[h] == MsgConsumeAck && h in b.statuses
      ensures SetStatus(b, id, v, MsgConsumeAck).statuses[h] == RECONSUME_LATER <==> b.statuses[h] == RECONSUME_LATER
    {
      if b.HasId(id) { SideKept(msgs, ops, b, p, id, v, h); } else { assert !b.Carries(h, id); }
    }
  }

  lemma MarkOf(s: State, a: Action, b: nat)
    requires Enabled(s, a) && b in s.jobs && OpOn(s, a, b).Some? && OpOn(s, a, b).value.SetMsg?
    ensures a.Mark? && a.b == b && OpOn(s, a, b) == Some(SetMsg(WorkerAt(s, a.w).task.id, WorkerAt(s, a.w).task.s))
  {
  }

  /** A step keeps the sides of the batch, unless it tells an unforced batch that no other worker is at. */
  lemma SidesKept(s: State, a: Action, b: nat, p: Tells)
    requires !Clash(p) && Enabled(s, a) && Admits(s, a, b, p) && b in s.jobs && JobOk(s, b) && RightJob(s, b, p)
    ensures b in Next(s, a).jobs
    ensures SameSides(s.jobs[b].batch, Next(s, a).jobs[b].batch)
         || (a.Mark? && a.b == b && !Busy(s, b) && ForceMsg !in s.jobs[b].ops)
  {
    hide Next, Clash, Accounted, ToldOk, Busy;
    var j := s.jobs[b];
    Footprint(s, a, b);
    ReplayAccounted(j.msgs, j.group, j.ops);
    match OpOn(s, a, b)
    case Some(SetMsg(id, v)) =>
      MarkOf(s, a, b);
      if !j.batch.HasId(id) || p.overlap || ForceMsg in j.ops {
        SidesTold(j.msgs, j.ops, j.batch, p, id, v);
      }
    case Some(ForceMsg) => AccountedForce(j.msgs, j.ops, j.batch);
    case _ =>
  }

  lemma ToldMore(b: Batch, ops: seq<Op>, op: Op, r: Batch, p: Tells)
    requires ToldOk(b, ops, p) && r.units == b.units
    requires op == ForceMsg ==> p.clears
    requires op.SetMsg? && b.HasId(op.id) ==> p.may(op.id, op.s, false) || (p.clears && p.may(op.id, op.s, true))
    ensures ToldOk(r, ops + [op], p)
  {
    forall id ensures r.HasId(id) == b.HasId(id) {}
  }

  lemma OpAdmitted(s: State, a: Action, b: nat, p: Tells)
    requires RightJob(s, b, p) && Enabled(s, a) && Admits(s, a, b, p) && b in s.jobs && OpOn(s, a, b).Some?
    ensures var op := OpOn(s, a, b).value;
      && (op == ForceMsg ==> p.clears)
      && (op.SetMsg? && s.jobs[b].batch.HasId(op.id) ==>
            p.may(op.id, op.s, false) || (p.clears && p.may(op.id, op.s, true)))
  {
  }

  lemma PublishesOverall(s: State, a: Action, b: nat)
    requires Checks(s) && (forall w :: RightCheck(s, w, b)) && Enabled(s, a) && b in s.jobs
    requires OpOn(s, a, b).Some? && OpOn(s, a, b).value.Publish?
    ensures s.jobs[b].batch.Overall() == OpOn(s, a, b).value.verdict && Seen(s.jobs[b].batch, {})
  {
    assert RightCheck(s, a.w, b) && CheckOk(s, a.w);
    WholeReadIsOverall(s.jobs[b].batch, WorkerAt(s, a.w).verdict);
  }

  /** A worker at a batch that is released and not forced leaves it only by publishing. */
  lemma OwnStaysAt(s: State, a: Action, w: nat, b: nat)
    requires Enabled(s, a) && Actor(a) == Worker(w) && AtBatch(WorkerAt(s, w), b) && b in s.jobs && !a.PublishOne?
    requires s.jobs[b].batch.fetched == [] && s.jobs[b].batch.AllAcked() && s.jobs[b].batch.Valid() && CheckOk(s, w)
    ensures AtBatch(WorkerAt(WorkerNext(s, a), w), b)
  {
    hide Apply;
    if a.ReadUnit? { assert a.h in UnitsOf(s.jobs[b].batch); }
  }

  lemma BusyStays(s: State, a: Action, b: nat)
    requires Checks(s) && Enabled(s, a) && b in s.jobs && Busy(s, b)
    requires s.jobs[b].batch.released && ForceMsg !in s.jobs[b].ops
    requires OpOn(s, a, b).None? || !OpOn(s, a, b).value.Publish?
    ensures Busy(Next(s, a), b)
  {
    hide Next;
    var w :| w in s.workers && AtBatch(s.workers[w], b);
    WorkersMove(s, a, w);
    assert WorkerAt(s, w) == s.workers[w] && CheckOk(s, w);
    if Actor(a) == Worker(w) { OwnStaysAt(s, a, w, b); }
    StillWorks(s, a, w);
    assert Next(s, a).workers[w] == WorkerAt(Next(s, a), w);
  }

  lemma StillWorks(s: State, a: Action, w: nat)
    requires Enabled(s, a) && w in s.workers
    ensures w in Next(s, a).workers
  {
    hide Apply, Create, UnitsOf, AfterRead;
  }

  lemma MarkIsBusy(s: State, a: Action, b: nat)
    requires Enabled(s, a) && a.Mark? && a.b == b
    ensures Busy(Next(s, a), b)
  {
    hide Apply;
    assert a.w in Next(s, a).workers && AtBatch(Next(s, a).workers[a.w], b);
  }

  /** The verdict of a released batch, when the step has kept its sides. */
  lemma VerdictKept(b: Batch, ops: seq<Op>, op: Op)
    requires b.Valid() && ReleaseOk(b, ops) && SameSides(b, Apply(b, op))
    requires b.released ==> b.status == b.Overall()
    requires op.Publish? ==> b.Overall() == op.verdict && Seen(b, {})
    ensures Apply(b, op).released ==> Apply(b, op).status == Apply(b, op).Overall()
  {
    var r := Apply(b, op);
    match op
    case SetMsg(_, _) => if b.released { OverallStays(b, r); }
    case _ =>
  }

  /** An operation that gives the verdict afresh. */
  lemma VerdictGiven(b: Batch, op: Op)
    requires op.ForceMsg? || (op.Publish? && b.Overall() == op.verdict)
    ensures Apply(b, op).status == Apply(b, op).Overall() || !Apply(b, op).released
  {
  }

  lemma RightJobStep(s: State, a: Action, b: nat, p: Tells)
    requires !Clash(p) && Histories(s) && Checks(s) && Right(s, b, p) && Enabled(s, a) && Admits(s, a, b, p)
    ensures RightJob(Next(s, a), b, p)
  {
    hide Next, Clash, Busy, Seen, SameSides, ReleaseOk;
    if b in s.jobs {
      assert JobOk(s, b);
      Footprint(s, a, b);
      match OpOn(s, a, b)
      case Some(op) => RightOp(s, a, b, p, op);
      case None => if Busy(s, b) && s.jobs[b].batch.released && ForceMsg !in s.jobs[b].ops { BusyStays(s, a, b); }
    } else if b in Next(s, a).jobs {
      JobArrives(s, a, b);
    }
  }

  lemma RightOp(s: State, a: Action, b: nat, p: Tells, op: Op)
    requires !Clash(p) && JobOk(s, b) && Checks(s) && Right(s, b, p) && Enabled(s, a) && Admits(s, a, b, p)
    requires b in s.jobs && OpOn(s, a, b) == Some(op)
    ensures RightJob(Next(s, a), b, p)
  {
    hide Next, Clash, Busy, Seen, SameSides, Admits;
    var j := s.jobs[b];
    Footprint(s, a, b);
    OpAdmitted(s, a, b, p);
    ToldMore(j.batch, j.ops, op, Apply(j.batch, op), p);
    SidesKept(s, a, b, p);
    match op
    case SetMsg(_, _) =>
      MarkOf(s, a, b);
      MarkIsBusy(s, a, b);
      if ForceMsg in j.ops { VerdictKept(j.batch, j.ops, op); }
    case Publish(_) =>
      PublishesOverall(s, a, b);
      VerdictGiven(j.batch, op);
    case ForceMsg => VerdictGiven(j.batch, op);
    case _ =>
      if j.batch.released && j.batch.status != j.batch.Overall() { BusyStays(s, a, b); }
  }

  lemma ReadOne(pc: WorkerPc, b: Batch, h: nat)
    requires pc.Checking? && b.Valid() && h in pc.left && ReadRight(b, pc.left, pc.verdict)
    requires AfterRead(pc, b, h).Checking?
    ensures ReadRight(b, AfterRead(pc, b, h).left, AfterRead(pc, b, h).verdict)
  {
    assert h in UnitsOf(b) && h in b.statuses;
  }

  lemma OwnReadRight(s: State, a: Action, w: nat, b: nat)
    requires Enabled(s, a) && Actor(a) == Worker(w) && RightCheck(s, w, b) && CheckOk(s, w)
    requires b in s.jobs && s.jobs[b].batch.Valid()
    requires WorkerAt(WorkerNext(s, a), w).Checking? && WorkerAt(WorkerNext(s, a), w).batch == b
    ensures var pc := WorkerAt(WorkerNext(s, a), w);
      ReadRight(s.jobs[b].batch, pc.left, pc.verdict) && (a.BeginCheck? || a.ReadUnit?)
  {
    OwnCheck(s, a, w);
    hide Apply, AfterRead;
    if a.ReadUnit? {
      ReadOne(WorkerAt(s, w), s.jobs[b].batch, a.h);
    }
  }

  lemma RightCheckStep(s: State, a: Action, w: nat, b: nat, p: Tells)
    requires !Clash(p) && Histories(s) && Checks(s) && Right(s, b, p) && Enabled(s, a) && Admits(s, a, b, p)
    ensures RightCheck(Next(s, a), w, b)
  {
    hide Next, Clash, Admits, Seen, ReleaseOk;
    assert RightCheck(s, w, b) && CheckOk(s, w);
    WorkersMove(s, a, w);
    var pc := WorkerAt(Next(s, a), w);
    if pc.Checking? && pc.batch == b {
      CheckStep(s, a, w);
      assert b in s.jobs by { CheckedIsJob(s, a, w, b); }
      if Actor(a) == Worker(w) {
        OwnReadRight(s, a, w, b);
        Footprint(s, a, b);
      } else {
        assert w in s.workers && s.workers[w] == pc && Busy(s, b) && JobOk(s, b);
        SidesKept(s, a, b, p);
        ReadStaysRight(s.jobs[b].batch, Next(s, a).jobs[b].batch, pc.left, pc.verdict);
      }
    }
  }

  lemma CheckedIsJob(s: State, a: Action, w: nat, b: nat)
    requires Enabled(s, a) && CheckOk(s, w) && WorkerAt(Next(s, a), w).Checking? && WorkerAt(Next(s, a), w).batch == b
    ensures b in s.jobs
  {
    hide Next;
    WorkersMove(s, a, w);
    if Actor(a) == Worker(w) { OwnCheck(s, a, w); }
  }

  lemma {:induction false} RightAlways(acts: seq<Action>, b: nat, p: Tells)
    requires !Clash(p) && Exec(acts).Some? && Within(acts, b, p)
    ensures Right(Exec(acts).value, b, p)
  {
    if acts != [] {
      var init, a := acts[..|acts| - 1], acts[|acts| - 1];
      var s := Exec(init).value;
      RightAlways(init, b, p);
      HistoriesAlways(init);
      ChecksAlways(init);
      hide Next, Clash, Admits, RightJob, RightCheck;
      RightJobStep(s, a, b, p);
      forall w ensures RightCheck(Next(s, a), w, b) { RightCheckStep(s, a, w, b, p); }
    }
  }

  // ---------------------------------------------------------------------------
  // What the callback returns
  // ---------------------------------------------------------------------------

  /**
   * Without a clash, whenever no worker is between telling the batch something and the end of its
   * check, the status of the released batch is the one its units call for.
   */
  lemma FinalVerdict(acts: seq<Action>, p: Tells, b: nat)
    requires !Clash(p) && Exec(acts).Some? && Within(acts, b, p) && b in Exec(acts).value.jobs
    ensures var s := Exec(acts).value;
      s.jobs[b].batch.released && !Busy(s, b) ==> s.jobs[b].batch.status == s.jobs[b].batch.Overall()
  {
    RightAlways(acts, b, p);
  }

  /** Nobody is at a batch whose callback returns. */
  lemma DoneIsQuiet(acts: seq<Action>, b: nat)
    requires Exec(acts).Some? && At(Exec(acts).value, b, Done)
    ensures !Busy(Exec(acts).value, b)
  {
    var s := Exec(acts).value;
    LocksAlways(acts);
    assert BrokerOk(s, b);
    forall w | w in s.workers ensures !AtBatch(s.workers[w], b) {
      assert WorkerOk(s, w) && WorkerAt(s, w) == s.workers[w];
    }
  }

  lemma OverallIsLastWord(msgs: seq<Message>, ops: seq<Op>, b: Batch)
    requires Accounted(msgs, ops, b)
    ensures b.Overall() == RECONSUME_LATER <==>
            exists i :: 0 <= i < |msgs| && LastWord(ops, msgs[i].id) == RECONSUME_LATER
  {
    if h :| h in b.statuses && b.statuses[h] == RECONSUME_LATER {
      assert LastWord(ops, msgs[h].id) == RECONSUME_LATER;
    }
    if i :| 0 <= i < |msgs| && LastWord(ops, msgs[i].id) == RECONSUME_LATER {
      assert b.statuses[i] == RECONSUME_LATER;
    }
  }

  /**
   * The verdict the callback returns for a batch without a clash, unlockAll or not: CONSUME_SUCCESS
   * exactly when every message was last told something other than RECONSUME_LATER.
   */
  lemma VerdictIsLastWord(acts: seq<Action>, p: Tells, b: nat)
    requires !Clash(p) && Exec(acts).Some? && Within(acts, b, p) && At(Exec(acts).value, b, Done)
    ensures var j := Exec(acts).value.jobs[b];
      && j.batch.status in {CONSUME_SUCCESS, RECONSUME_LATER}
      && (j.batch.status == CONSUME_SUCCESS <==>
          forall i :: 0 <= i < |j.msgs| ==> LastWord(j.ops, j.msgs[i].id) != RECONSUME_LATER)
  {
    var s := Exec(acts).value;
    var j := s.jobs[b];
    FinalVerdict(acts, p, b);
    DoneIsQuiet(acts, b);
    HistoriesAlways(acts);
    assert JobOk(s, b);
    ReplayAccounted(j.msgs, j.group, j.ops);
    OverallIsLastWord(j.msgs, j.ops, j.batch);
  }

  /** The batch is only told something while no other acknowledgement of it is on its way. */
  ghost predicate Apart(acts: seq<Action>, b: nat)
    requires Exec(acts).Some?
  {
    acts == [] ||
    var init, a := acts[..|acts| - 1], acts[|acts| - 1];
    Apart(init, b) && (a.Mark? && a.b == b ==> !Busy(Exec(init).value, b))
  }

  ghost function AnythingApart(): Tells {
    Tells((id, v, late) => !late, false, false)
  }

  lemma {:induction false} ApartIsWithin(acts: seq<Action>, b: nat)
    requires Exec(acts).Some? && Apart(acts, b)
    requires b in Exec(acts).value.jobs ==> ForceMsg !in Exec(acts).value.jobs[b].ops
    ensures Within(acts, b, AnythingApart())
  {
    if acts != [] {
      hide Next, Busy;
      var init, a := acts[..|acts| - 1], acts[|acts| - 1];
      var s := Exec(init).value;
      if b in s.jobs { Footprint(s, a, b); }
      ApartIsWithin(init, b);
    }
  }

  /**
   * A batch that is never forced, and whose acknowledgements do not overlap, whatever they say and
   * however often they change their mind: the callback returns CONSUME_SUCCESS exactly when the
   * last word on every message is something other than RECONSUME_LATER.
   */
  lemma ApartVerdict(acts: seq<Action>, b: nat)
    requires Exec(acts).Some? && Apart(acts, b) && At(Exec(acts).value, b, Done)
    requires ForceMsg !in Exec(acts).value.jobs[b].ops
    ensures var j := Exec(acts).value.jobs[b];
      j.batch.status == CONSUME_SUCCESS <==>
        forall i :: 0 <= i < |j.msgs| ==> LastWord(j.ops, j.msgs[i].id) != RECONSUME_LATER
  {
    ApartIsWithin(acts, b);
    VerdictIsLastWord(acts, AnythingApart(), b);
  }

  /**
   * What else the callback returns, in every run, forced or not: the vector has one entry per
   * message, in order, RECONSUME_LATER exactly where some acknowledgement of that id was. No
   * message whose last word is RECONSUME_LATER is reported as consumed, exactly when the verdict
   * is not RECONSUME_LATER or every message was told something. Without unlockAll on this batch
   * every message was delivered and acknowledged.
   */
  lemma CallbackVerdict(acts: seq<Action>, b: nat)
    requires Exec(acts).Some? && At(Exec(acts).value, b, Done)
    ensures var j := Exec(acts).value.jobs[b];
      && j.batch.released && j.batch.AllAcked() && j.batch.status in {CONSUME_SUCCESS, RECONSUME_LATER}
      && (j.batch.status == RECONSUME_LATER ==>
            && |j.batch.StatusVector()| == |j.msgs|
            && forall i :: 0 <= i < |j.msgs| ==>
                 j.batch.StatusVector()[i] ==
                 if SetMsg(j.msgs[i].id, RECONSUME_LATER) in j.ops then RECONSUME_LATER else CONSUME_SUCCESS)
      && (VectorSound(j.batch) <==>
          j.batch.status != RECONSUME_LATER || forall i :: 0 <= i < |j.msgs| ==> LastSet(j.ops, j.msgs[i].id).Some?)
      && (ForceMsg !in j.ops ==>
            && j.batch.fetched == []
            && (forall i :: 0 <= i < |j.msgs| ==> LastSet(j.ops, j.msgs[i].id).Some?)
            && VectorSound(j.batch))
  {
    var s := Exec(acts).value;
    var j := s.jobs[b];
    HistoriesAlways(acts);
    ChecksAlways(acts);
    assert JobOk(s, b);
    ReplayAccounted(j.msgs, j.group, j.ops);
    VectorSoundExactly(j.msgs, j.group, j.ops);
    VectorEntries(j.msgs, j.group, j.ops);
    if ForceMsg !in j.ops {
      forall i | 0 <= i < |j.msgs| ensures LastSet(j.ops, j.msgs[i].id).Some? {
        assert j.batch.client[i] == MsgConsumeAck;
      }
    }
  }

  // ---------------------------------------------------------------------------
  // When a batch is released
  // ---------------------------------------------------------------------------

  /** A check is published only when every message was fetched and told something, and it releases. */
  ghost predicate PublishedReady(msgs: seq<Message>, ops: seq<Op>, b: Batch) {
    ForceMsg !in ops ==>
      && (forall k :: 0 <= k < |ops| && ops[k].Publish? ==> ReadyAt(msgs, ops[..k]))
      && (b.released <==> exists k :: 0 <= k < |ops| && ops[k].Publish?)
  }

  lemma ReadyMore(msgs: seq<Message>, ops: seq<Op>, op: Op, b: Batch)
    requires PublishedReady(msgs, ops, b) && op != Check
    requires op.Publish? && ForceMsg !in ops ==> ReadyAt(msgs, ops)
    ensures PublishedReady(msgs, ops + [op], Apply(b, op))
  {
    var more := ops + [op];
    assert ForceMsg in ops ==> ForceMsg in more;
    if ForceMsg !in more {
      forall k | 0 <= k < |more| && more[k].Publish? ensures ReadyAt(msgs, more[..k]) {
        assert more[..k] == if k < |ops| then ops[..k] else ops;
      }
      if k :| 0 <= k < |ops| && ops[k].Publish? { assert more[k].Publish?; }
      if op.Publish? { assert more[|ops|].Publish?; }
    }
  }

  lemma SeenIsReady(msgs: seq<Message>, ops: seq<Op>, b: Batch)
    requires Accounted(msgs, ops, b) && Seen(b, {}) && ForceMsg !in ops
    ensures ReadyAt(msgs, ops)
  {
    forall i | 0 <= i < |msgs| ensures LastSet(ops, msgs[i].id).Some? {
      assert i in Handles(|b.units|) && i in UnitsOf(b);
    }
    assert |b.fetched| == |msgs| - Min(GetCount(ops), |msgs|);
  }

  ghost predicate PublishedOk(s: State, b: nat) {
    b in s.jobs ==> PublishedReady(s.jobs[b].msgs, s.jobs[b].ops, s.jobs[b].batch)
  }

  lemma PublishedStep(s: State, a: Action, b: nat)
    requires JobOk(s, b) && Checks(s) && PublishedOk(s, b) && Enabled(s, a)
    ensures PublishedOk(Next(s, a), b)
  {
    hide Next, Seen, ReleaseOk, PublishedReady;
    if b in s.jobs {
      var j := s.jobs[b];
      Footprint(s, a, b);
      ReplayAccounted(j.msgs, j.group, j.ops);
      match OpOn(s, a, b)
      case Some(op) =>
        if op.Publish? && ForceMsg !in j.ops {
          assert CheckOk(s, a.w);
          SeenIsReady(j.msgs, j.ops, j.batch);
        }
        ReadyMore(j.msgs, j.ops, op, j.batch);
      case None =>
    } else if b in Next(s, a).jobs {
      JobArrives(s, a, b);
      NothingPublished(a.msgs, a.group);
    }
  }

  lemma NothingPublished(msgs: seq<Message>, group: string)
    ensures PublishedReady(msgs, [], Create(msgs, group))
  {
  }

  /**
   * In every run a batch that was not forced is released exactly when some check of it was
   * published, and that happens only when every message was fetched and every id told something.
   */
  lemma {:induction false} ReleasedInRuns(acts: seq<Action>, b: nat)
    requires Exec(acts).Some?
    ensures PublishedOk(Exec(acts).value, b)
  {
    if acts != [] {
      var init := acts[..|acts| - 1];
      ReleasedInRuns(init, b);
      HistoriesAlways(init);
      ChecksAlways(init);
      PublishedStep(Exec(init).value, acts[|acts| - 1], b);
    }
  }

  /** A check that begins when every message was fetched and told something is not abandoned. */
  lemma ReadyCheckEnds(acts: seq<Action>, a: Action, w: nat, b: nat)
    requires Exec(acts).Some? && Enabled(Exec(acts).value, a) && Actor(a) == Worker(w)
    requires b in Exec(acts).value.jobs && AtBatch(WorkerAt(Exec(acts).value, w), b)
    requires var j := Exec(acts).value.jobs[b]; ReadyAt(j.msgs, j.ops)
    ensures var s := Exec(acts).value;
      if a.PublishOne? then b in Next(s, a).jobs && Next(s, a).jobs[b].batch.released
      else AtBatch(WorkerAt(Next(s, a), w), b)
  {
    hide Next, Enabled, Histories;
    var s := Exec(acts).value;
    HistoriesAlways(acts);
    ChecksAlways(acts);
    assert JobOk(s, b) by { JobOf(s, b); }
    ReadyCheckGoesOn(s, a, w, b);
  }

  lemma JobOf(s: State, b: nat)
    requires Histories(s)
    ensures JobOk(s, b)
  {
  }

  lemma ReadyCheckGoesOn(s: State, a: Action, w: nat, b: nat)
    requires Enabled(s, a) && Actor(a) == Worker(w) && b in s.jobs && AtBatch(WorkerAt(s, w), b)
    requires JobOk(s, b) && Checks(s) && ReadyAt(s.jobs[b].msgs, s.jobs[b].ops)
    ensures if a.PublishOne? then b in Next(s, a).jobs && Next(s, a).jobs[b].batch.released
            else AtBatch(WorkerAt(Next(s, a), w), b)
  {
    ReadyJob(s, b);
    assert CheckOk(s, w);
    hide Next, WorkerNext, JobOk, Checks, CheckOk, ReadyAt, Batch.AllAcked, Batch.Valid;
    WorkersMove(s, a, w);
    if a.PublishOne? {
      PublishReleases(s, a, b);
    } else {
      OwnStaysAt(s, a, w, b);
    }
  }

  lemma PublishReleases(s: State, a: Action, b: nat)
    requires Enabled(s, a) && a.PublishOne? && b in s.jobs && WorkerAt(s, a.w).batch == b
    ensures b in Next(s, a).jobs && Next(s, a).jobs[b].batch.released
  {
  }

  lemma ReadyJob(s: State, b: nat)
    requires b in s.jobs && JobOk(s, b) && ReadyAt(s.jobs[b].msgs, s.jobs[b].ops)
    ensures var r := s.jobs[b].batch; r.fetched == [] && r.AllAcked() && r.Valid()
  {
    hide Accounted, ReadyAt;
    var j := s.jobs[b];
    ReplayAccounted(j.msgs, j.group, j.ops);
    ReadyIsAcked(j.msgs, j.ops, j.batch);
  }

  lemma ReadyIsAcked(msgs: seq<Message>, ops: seq<Op>, b: Batch)
    requires Accounted(msgs, ops, b) && ReadyAt(msgs, ops)
    ensures b.fetched == [] && b.AllAcked() && b.Valid()
  {
    forall h | h in b.client ensures b.client[h] == MsgConsumeAck {
      assert h in Handles(|b.units|) && 0 <= h < |msgs|;
    }
  }

  // ---------------------------------------------------------------------------
  // unlockAll over a run
  // ---------------------------------------------------------------------------

  /** From s0, where worker w took the lock, to s: the batches it has passed are forced, the others untouched. */
  ghost predicate Clearance(s0: State, s: State, w: nat) {
    && WorkerAt(s, w).Clearing? && WorkerAt(s, w).todo <= s.lockers && s.lockers == s0.lockers
    && forall b :: b in s0.lockers ==> ClearedOrNot(s0, s, w, b)
  }

  ghost predicate ClearedOrNot(s0: State, s: State, w: nat, b: nat)
    requires WorkerAt(s, w).Clearing?
  {
    && b in s0.jobs && b in s.jobs && s.jobs[b].msgs == s0.jobs[b].msgs
    && s.jobs[b].batch == (if b in WorkerAt(s, w).todo then s0.jobs[b].batch else Force(s0.jobs[b].batch))
    && s.jobs[b].ops == (if b in WorkerAt(s, w).todo then s0.jobs[b].ops else s0.jobs[b].ops + [ForceMsg])
  }

  /** While w clears, nothing else operates on any batch, and none is registered or erased. */
  lemma ClearerAlone(s: State, a: Action, w: nat, b: nat)
    requires Locks(s) && Enabled(s, a) && WorkerAt(s, w).Clearing? && b in s.jobs
    ensures Next(s, a).lockers == s.lockers
    ensures OpOn(s, a, b).Some? ==> a == ForceOne(w, b) && OpOn(s, a, b) == Some(ForceMsg)
  {
    hide Apply, Create, UnitsOf, AfterRead;
    assert WorkerOk(s, w);
    match Actor(a)
    case Broker(c) => assert BrokerOk(s, c);
    case Worker(v) => assert WorkerOk(s, v);
  }

  lemma ClearerMoves(s: State, a: Action, w: nat)
    requires Enabled(s, a) && WorkerAt(s, w).Clearing? && a != Leave(w)
    ensures WorkerAt(Next(s, a), w) ==
            if a.ForceOne? && a.w == w then Clearing(WorkerAt(s, w).todo - {a.b}) else WorkerAt(s, w)
  {
    hide Apply, Create, UnitsOf, AfterRead;
  }

  lemma ClearanceStep(s0: State, s: State, a: Action, w: nat)
    requires Locks(s) && Clearance(s0, s, w) && Enabled(s, a) && a != Leave(w)
    ensures Clearance(s0, Next(s, a), w)
  {
    hide Next, Locks, Apply;
    ClearerMoves(s, a, w);
    forall b | b in s0.lockers ensures ClearedOrNot(s0, Next(s, a), w, b) && Next(s, a).lockers == s.lockers {
      assert ClearedOrNot(s0, s, w, b);
      ClearerAlone(s, a, w, b);
      Footprint(s, a, b);
      ForceApplied(s.jobs[b].batch);
    }
    LockersKept(s, a, w);
  }

  lemma ForceApplied(b: Batch)
    ensures Apply(b, ForceMsg) == Force(b)
  {
  }

  lemma LockersKept(s: State, a: Action, w: nat)
    requires Locks(s) && Enabled(s, a) && WorkerAt(s, w).Clearing?
    ensures Next(s, a).lockers == s.lockers
  {
    hide Apply, Create, UnitsOf, AfterRead;
    assert WorkerOk(s, w);
    if Actor(a).Broker? { assert BrokerOk(s, Actor(a).batch); }
  }

  lemma ClearanceBegins(s: State, w: nat)
    requires Locks(s) && Enabled(s, LockExclusive(w))
    ensures Clearance(Next(s, LockExclusive(w)), Next(s, LockExclusive(w)), w)
  {
    var t := Next(s, LockExclusive(w));
    forall b | b in t.lockers ensures ClearedOrNot(t, t, w, b) {
      assert BrokerOk(s, b);
    }
  }

  /** Worker w takes the lock at step k of the run and has not let go at its end. */
  ghost predicate ClearsFrom(acts: seq<Action>, k: nat, w: nat) {
    k < |acts| && acts[k] == LockExclusive(w) && forall i :: k < i < |acts| ==> acts[i] != Leave(w)
  }

  lemma {:induction false} ClearanceAlong(acts: seq<Action>, k: nat, w: nat)
    requires Exec(acts).Some? && ClearsFrom(acts, k, w)
    ensures Exec(acts[..k + 1]).Some? && Clearance(Exec(acts[..k + 1]).value, Exec(acts).value, w)
    decreases |acts|
  {
    var init, a := acts[..|acts| - 1], acts[|acts| - 1];
    LocksAlways(init);
    if k == |acts| - 1 {
      assert acts[..k + 1] == acts;
      ClearanceBegins(Exec(init).value, w);
    } else {
      assert init[..k + 1] == acts[..k + 1] && ClearsFrom(init, k, w);
      ClearanceAlong(init, k, w);
      ClearanceStep(Exec(acts[..k + 1]).value, Exec(init).value, a, w);
    }
  }

  /**
   * When unlockAll has visited every batch and is about to let go, every registered batch is what
   * Force makes of the batch it was when unlockAll took the lock: released, the acknowledged units
   * as they were, the others RECONSUME_LATER, and the verdict CONSUME_SUCCESS exactly when all
   * units had been acknowledged with another status.
   */
  lemma UnlockAllReleases(acts: seq<Action>, k: nat, w: nat, b: nat)
    requires Exec(acts).Some? && ClearsFrom(acts, k, w) && Enabled(Exec(acts).value, Leave(w))
    requires b in Exec(acts).value.lockers
    ensures Exec(acts[..k + 1]).Some?
    ensures var s0, s := Exec(acts[..k + 1]).value, Exec(acts).value;
      && b in s0.lockers && b in s0.jobs && b in s.jobs && s0.jobs[b].batch.Valid()
      && s.jobs[b].batch == Force(s0.jobs[b].batch) && s.jobs[b].ops == s0.jobs[b].ops + [ForceMsg]
      && var was, now := s0.jobs[b].batch, s.jobs[b].batch;
      && now.released && now.AllAcked()
      && (forall i :: 0 <= i < |was.units| ==>
            && i in was.client && i in was.statuses && i in now.statuses
            && now.statuses[i] == if was.client[i] == MsgConsumeAck then was.statuses[i] else RECONSUME_LATER)
      && (now.status == CONSUME_SUCCESS <==>
          was.AllAcked() && forall i :: 0 <= i < |was.units| ==> was.statuses[i] != RECONSUME_LATER)
  {
    ClearanceAlong(acts, k, w);
    ChecksAlways(acts[..k + 1]);
    assert ClearedOrNot(Exec(acts[..k + 1]).value, Exec(acts).value, w, b);
    ForcedRelease(Exec(acts[..k + 1]).value.jobs[b].batch);
  }
}
