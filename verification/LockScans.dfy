/**
 * What a thread does between taking lockersMtx shared and letting it go: an acknowledgement tells
 * and checks every batch that was registered, and a fetch takes one message, or none because it
 * found every queue empty.
 */
module LockScans {
  import opened BatchModel
  import opened Options
  import opened LockProtocol
  import opened LockSafety
  import opened LockVerdicts
  import opened LockCallbacks

  lemma {:induction false} PrefixRuns(acts: seq<Action>, i: nat)
    requires Exec(acts).Some? && i <= |acts|
    ensures Exec(acts[..i]).Some?
    decreases |acts|
  {
    if i == |acts| {
      assert acts[..i] == acts;
    } else {
      PrefixRuns(acts[..|acts| - 1], i);
      assert acts[..|acts| - 1][..i] == acts[..i];
    }
  }

  /** The state of the run before its i-th step, or at its end. */
  ghost function Before(acts: seq<Action>, i: nat): State
    requires Exec(acts).Some? && i <= |acts|
  {
    PrefixRuns(acts, i);
    Exec(acts[..i]).value
  }

  lemma StepAt(acts: seq<Action>, n: nat)
    requires Exec(acts).Some? && n < |acts|
    ensures Enabled(Before(acts, n), acts[n]) && Before(acts, n + 1) == Next(Before(acts, n), acts[n])
  {
    PrefixRuns(acts, n + 1);
    assert acts[..n + 1][..n] == acts[..n];
  }

  lemma AtTheEnd(acts: seq<Action>)
    requires Exec(acts).Some?
    ensures Before(acts, |acts|) == Exec(acts).value
  {
    assert acts[..|acts|] == acts;
  }

  /** Worker w takes the lock for this task at step k of the run, and does not let go before step n. */
  ghost predicate Scans(acts: seq<Action>, k: nat, n: nat, w: nat, task: Task)
    requires Exec(acts).Some?
  {
    && k < n <= |acts| && acts[k] == LockShared(w) && WorkerAt(Before(acts, k), w) == WantShared(task)
    && forall i :: k < i < n ==> acts[i] != Leave(w)
  }

  /** The batches a worker has still to visit. */
  function Todo(pc: WorkerPc): set<nat> {
    match pc
    case Scanning(_, todo) => todo
    case Marked(_, _, todo) => todo
    case Checking(_, _, todo, _, _) => todo
    case WantBatch(_, todo) => todo
    case InBatch(_, todo) => todo
    case _ => {}
  }

  // ---------------------------------------------------------------------------
  // One batch, one step
  // ---------------------------------------------------------------------------

  /** More has been done to the batch, and a release stands. */
  ghost predicate Grown(s: State, t: State, b: nat) {
    && b in s.jobs && b in t.jobs && t.jobs[b].msgs == s.jobs[b].msgs && s.jobs[b].ops <= t.jobs[b].ops
    && (s.jobs[b].batch.released ==> t.jobs[b].batch.released)
    && (Ready(s, b) ==> Ready(t, b))
  }

  /** Every message of the batch was fetched and told something. */
  ghost predicate Ready(s: State, b: nat) {
    b in s.jobs && ReadyAt(s.jobs[b].msgs, s.jobs[b].ops)
  }

  lemma ReadyStays(msgs: seq<Message>, ops: seq<Op>, op: Op)
    requires ReadyAt(msgs, ops)
    ensures ReadyAt(msgs, ops + [op])
  {
    assert (ops + [op])[..|ops|] == ops;
  }

  lemma Grows(s: State, a: Action, b: nat)
    requires Enabled(s, a) && b in s.jobs
    ensures Grown(s, Next(s, a), b)
  {
    hide Next, Enabled, ReadyAt, Apply;
    var j := s.jobs[b];
    Footprint(s, a, b);
    match OpOn(s, a, b)
    case Some(op) =>
      ApplyFrame(j.batch, op);
      if ReadyAt(j.msgs, j.ops) { ReadyStays(j.msgs, j.ops, op); }
    case None =>
  }

  // ---------------------------------------------------------------------------
  // An acknowledgement
  // ---------------------------------------------------------------------------

  predicate Telling(pc: WorkerPc) {
    (pc.Scanning? || pc.Marked? || pc.Checking?) && pc.task.Tell?
  }

  /** Where its own next step, short of Leave, takes a worker that acknowledges. */
  predicate TellMove(pc: WorkerPc, a: Action, next: WorkerPc) {
    match pc
    case Scanning(_, todo) => a.Mark? && a.b in todo && next == Marked(pc.task, a.b, todo - {a.b})
    case Marked(_, b, todo) =>
      a.BeginCheck? && (next.Scanning? || (next.Checking? && next.batch == b)) && next.todo == todo
    case Checking(_, b, todo, _, _) =>
      (a.ReadUnit? || a.PublishOne?) && (next.Scanning? || (next.Checking? && next.batch == b)) && next.todo == todo
    case _ => false
  }

  lemma TellMoves(s: State, a: Action, w: nat)
    requires Enabled(s, a) && a != Leave(w) && Telling(WorkerAt(s, w))
    ensures var pc, next := WorkerAt(s, w), WorkerAt(Next(s, a), w);
      && Telling(next) && next.task == pc.task
      && if Actor(a) == Worker(w) then TellMove(pc, a, next) else next == pc
  {
    WorkersMove(s, a, w);
    hide Next, BrokerNext, Apply, UnitsOf;
    if Actor(a) == Worker(w) { OwnTell(s, a, w); }
  }

  lemma OwnTell(s: State, a: Action, w: nat)
    requires Enabled(s, a) && a != Leave(w) && Telling(WorkerAt(s, w)) && Actor(a) == Worker(w)
    ensures var pc, next := WorkerAt(s, w), WorkerAt(WorkerNext(s, a), w);
      Telling(next) && next.task == pc.task && TellMove(pc, a, next)
  {
    hide Apply, UnitsOf;
  }

  /** At step i, after k and before n, w told batch b that the message has status v, beyond all it was told before. */
  ghost predicate ToldAt(acts: seq<Action>, k: nat, n: nat, w: nat, id: string, v: ConsumeStatus, b: nat, i: nat)
    requires Exec(acts).Some? && n <= |acts|
  {
    k < i < n && acts[i] == Mark(w, b) &&
    var s0, s1, s := Before(acts, k + 1), Before(acts, i), Before(acts, n);
    && b in s0.jobs && b in s1.jobs && b in s.jobs
    && s0.jobs[b].ops <= s1.jobs[b].ops && s1.jobs[b].ops + [SetMsg(id, v)] <= s.jobs[b].ops
  }

  /** The next step of w after i is j, where its triggerCheck begins. */
  ghost predicate ChecksAt(acts: seq<Action>, n: nat, w: nat, i: nat, j: nat)
    requires n <= |acts|
  {
    i < j < n && acts[j] == BeginCheck(w) && Idles(acts, w, i + 1, j)
  }

  ghost predicate Idles(acts: seq<Action>, w: nat, lo: nat, hi: nat)
    requires hi <= |acts|
  {
    forall m :: lo <= m < hi ==> Actor(acts[m]) != Worker(w)
  }

  /** From s0 to s more has been done to batch b, and w is acknowledging. */
  ghost predicate Underway(s0: State, s: State, w: nat, id: string, v: ConsumeStatus, b: nat) {
    && Telling(WorkerAt(s, w)) && WorkerAt(s, w).task == Tell(id, v)
    && b in s0.jobs && b in s.jobs && s0.jobs[b].ops <= s.jobs[b].ops
  }

  /** A batch leaves what is to be visited only by being told, and does not come back. */
  lemma UnderwayStep(s0: State, s: State, a: Action, w: nat, id: string, v: ConsumeStatus, b: nat)
    requires Enabled(s, a) && a != Leave(w) && Underway(s0, s, w, id, v, b)
    ensures Underway(s0, Next(s, a), w, id, v, b)
    ensures var pc, next := WorkerAt(s, w), WorkerAt(Next(s, a), w);
      && (b !in Todo(pc) ==> b !in Todo(next))
      && (b in Todo(pc) && b !in Todo(next) ==> a == Mark(w, b) && next.Marked? && next.batch == b)
  {
    hide Next, Ready;
    TellMoves(s, a, w);
    Grows(s, a, b);
  }

  /** How far w has come with batch b: told at step i, and then checked from step j on. */
  ghost predicate Stage(acts: seq<Action>, k: nat, n: nat, w: nat, id: string, v: ConsumeStatus, b: nat, i: nat, j: nat)
    requires Exec(acts).Some? && k < n <= |acts|
  {
    && Underway(Before(acts, k + 1), Before(acts, n), w, id, v, b)
    && (b !in Todo(WorkerAt(Before(acts, n), w)) ==>
          ToldAt(acts, k, n, w, id, v, b, i) && Judged(acts, n, w, b, i, j))
  }

  ghost predicate Judged(acts: seq<Action>, n: nat, w: nat, b: nat, i: nat, j: nat)
    requires Exec(acts).Some? && n <= |acts|
  {
    var pc := WorkerAt(Before(acts, n), w);
    if pc.Marked? && pc.batch == b then Idles(acts, w, i + 1, n)
    else ChecksAt(acts, n, w, i, j) && (Ready(Before(acts, j), b) ==> Outcome(Before(acts, n), w, b))
  }

  /** A batch that was ready when its check began is still being checked, or it is released. */
  ghost predicate Outcome(s: State, w: nat, b: nat) {
    b in s.jobs &&
    if WorkerAt(s, w).Checking? && WorkerAt(s, w).batch == b then Ready(s, b) else s.jobs[b].batch.released
  }

  lemma StageBegins(acts: seq<Action>, k: nat, w: nat, id: string, v: ConsumeStatus, b: nat)
    requires Exec(acts).Some? && Scans(acts, k, k + 1, w, Tell(id, v)) && b in Before(acts, k + 1).lockers
    ensures Stage(acts, k, k + 1, w, id, v, b, 0, 0)
  {
    StepAt(acts, k);
    PrefixRuns(acts, k + 1);
    LocksAlways(acts[..k + 1]);
    assert BrokerOk(Before(acts, k + 1), b);
    hide Before, Locks;
  }

  /** What was told stays told. */
  lemma ToldStays(acts: seq<Action>, k: nat, n: nat, w: nat, id: string, v: ConsumeStatus, b: nat, i: nat)
    requires Exec(acts).Some? && n < |acts| && ToldAt(acts, k, n, w, id, v, b, i)
    ensures ToldAt(acts, k, n + 1, w, id, v, b, i)
  {
    StepAt(acts, n);
    hide Next, Enabled, Ready, Before;
    Grows(Before(acts, n), acts[n], b);
  }

  lemma ToldNow(acts: seq<Action>, k: nat, n: nat, w: nat, id: string, v: ConsumeStatus, b: nat)
    requires Exec(acts).Some? && k < n < |acts| && acts[n] == Mark(w, b)
    requires Underway(Before(acts, k + 1), Before(acts, n), w, id, v, b)
    ensures ToldAt(acts, k, n + 1, w, id, v, b, n)
  {
    StepAt(acts, n);
    hide Next, Before;
    Footprint(Before(acts, n), Mark(w, b), b);
  }

  lemma StageStep(acts: seq<Action>, k: nat, n: nat, w: nat, id: string, v: ConsumeStatus, b: nat, i: nat, j: nat)
    returns (i': nat, j': nat)
    requires Exec(acts).Some? && k < n < |acts| && acts[n] != Leave(w) && Stage(acts, k, n, w, id, v, b, i, j)
    ensures Stage(acts, k, n + 1, w, id, v, b, i', j')
  {
    StepAt(acts, n);
    var s := Before(acts, n);
    hide Next, Enabled, Before, ToldAt, Judged, Exec, Todo;
    UnderwayStep(Before(acts, k + 1), s, acts[n], w, id, v, b);
    i', j' := i, j;
    if b !in Todo(WorkerAt(s, w)) {
      ToldStays(acts, k, n, w, id, v, b, i);
      j' := JudgedStep(acts, k, n, w, id, v, b, i, j);
    } else if b !in Todo(WorkerAt(Before(acts, n + 1), w)) {
      i' := n;
      ToldNow(acts, k, n, w, id, v, b);
      JustTold(acts, n, w, b, j);
    }
  }

  lemma JustTold(acts: seq<Action>, n: nat, w: nat, b: nat, j: nat)
    requires Exec(acts).Some? && n < |acts|
    requires WorkerAt(Before(acts, n + 1), w).Marked? && WorkerAt(Before(acts, n + 1), w).batch == b
    ensures Judged(acts, n + 1, w, b, n, j)
  {
  }

  lemma IdlesOn(acts: seq<Action>, w: nat, lo: nat, hi: nat)
    requires hi < |acts| && Idles(acts, w, lo, hi) && Actor(acts[hi]) != Worker(w)
    ensures Idles(acts, w, lo, hi + 1)
  {
  }

  lemma ChecksOn(acts: seq<Action>, n: nat, w: nat, i: nat, j: nat)
    requires n < |acts| && ChecksAt(acts, n, w, i, j)
    ensures ChecksAt(acts, n + 1, w, i, j)
  {
  }

  lemma ChecksNow(acts: seq<Action>, n: nat, w: nat, i: nat)
    requires i < n < |acts| && acts[n] == BeginCheck(w) && Idles(acts, w, i + 1, n)
    ensures ChecksAt(acts, n + 1, w, i, n)
  {
  }

  lemma JudgedStep(acts: seq<Action>, k: nat, n: nat, w: nat, id: string, v: ConsumeStatus, b: nat, i: nat, j: nat)
    returns (j': nat)
    requires Exec(acts).Some? && k < n < |acts| && acts[n] != Leave(w)
    requires Stage(acts, k, n, w, id, v, b, i, j) && b !in Todo(WorkerAt(Before(acts, n), w))
    ensures Judged(acts, n + 1, w, b, i, j')
  {
    hide Ready, Exec, Before, Outcome, Idles, ChecksAt, Next;
    var s, a := Before(acts, n), acts[n];
    var pc := WorkerAt(s, w);
    StepAt(acts, n);
    TellMoves(s, a, w);
    OutcomeStep(acts, n, w, b);
    hide Enabled;
    j' := j;
    if pc.Marked? && pc.batch == b {
      if Actor(a) == Worker(w) {
        j' := n;
        ChecksNow(acts, n, w, i);
      } else {
        IdlesOn(acts, w, i + 1, n);
      }
    } else {
      ChecksOn(acts, n, w, i, j);
    }
  }

  lemma OutcomeStep(acts: seq<Action>, n: nat, w: nat, b: nat)
    requires Exec(acts).Some? && n < |acts| && acts[n] != Leave(w)
    requires var s := Before(acts, n);
      Telling(WorkerAt(s, w)) && b in s.jobs && b !in Todo(WorkerAt(s, w))
    ensures OutcomeKept(Before(acts, n), acts[n], Before(acts, n + 1), w, b)
  {
    hide Ready, Outcome, Next;
    var s, a := Before(acts, n), acts[n];
    StepAt(acts, n);
    PrefixRuns(acts, n);
    if Actor(a) == Worker(w) && AtBatch(WorkerAt(s, w), b) { CheckMoves(acts[..n], a, w, b); }
    hide Exec, Before, OutcomeKept;
    OutcomeMoves(s, a, w, b);
  }

  ghost predicate OutcomeKept(s: State, a: Action, t: State, w: nat, b: nat) {
    if WorkerAt(s, w).Marked? && WorkerAt(s, w).batch == b
    then a == BeginCheck(w) && Ready(s, b) ==> Outcome(t, w, b)
    else Outcome(s, w, b) ==> Outcome(t, w, b)
  }

  lemma OutcomeMoves(s: State, a: Action, w: nat, b: nat)
    requires Enabled(s, a) && a != Leave(w) && Telling(WorkerAt(s, w)) && b in s.jobs && b !in Todo(WorkerAt(s, w))
    requires Actor(a) == Worker(w) && AtBatch(WorkerAt(s, w), b) && Ready(s, b) ==>
      AtBatch(WorkerAt(Next(s, a), w), b) || (b in Next(s, a).jobs && Next(s, a).jobs[b].batch.released)
    ensures OutcomeKept(s, a, Next(s, a), w, b)
  {
    hide Ready, Next;
    TellMoves(s, a, w);
    Grows(s, a, b);
    hide Enabled;
  }

  /** If the batch is ready, the check goes on until it releases it. */
  lemma CheckMoves(acts: seq<Action>, a: Action, w: nat, b: nat)
    requires Exec(acts).Some? && Enabled(Exec(acts).value, a) && Actor(a) == Worker(w)
    requires b in Exec(acts).value.jobs && AtBatch(WorkerAt(Exec(acts).value, w), b)
    ensures var s, t := Exec(acts).value, Next(Exec(acts).value, a);
      Ready(s, b) ==> AtBatch(WorkerAt(t, w), b) || (b in t.jobs && t.jobs[b].batch.released)
  {
    hide Next, Enabled, ReadyAt;
    if Ready(Exec(acts).value, b) { ReadyCheckEnds(acts, a, w, b); }
  }

  lemma {:induction false} StageAlong(acts: seq<Action>, k: nat, n: nat, w: nat, id: string, v: ConsumeStatus, b: nat)
    returns (i: nat, j: nat)
    requires Exec(acts).Some? && Scans(acts, k, n, w, Tell(id, v)) && b in Before(acts, k + 1).lockers
    ensures Stage(acts, k, n, w, id, v, b, i, j)
    decreases n
  {
    hide Stage, Before;
    if n == k + 1 {
      i, j := 0, 0;
      StageBegins(acts, k, w, id, v, b);
    } else {
      i, j := StageAlong(acts, k, n - 1, w, id, v, b);
      i, j := StageStep(acts, k, n - 1, w, id, v, b, i, j);
    }
  }

  /**
   * An acknowledgement that is about to let go of the lock has told every batch that was registered
   * when it took it, and has begun a check of each right after telling it; a batch all of whose
   * messages were fetched and told something by then is released.
   */
  lemma EveryBatchTold(acts: seq<Action>, k: nat, n: nat, w: nat, id: string, v: ConsumeStatus, b: nat)
    returns (i: nat, j: nat)
    requires Exec(acts).Some? && Scans(acts, k, n, w, Tell(id, v)) && b in Before(acts, k + 1).lockers
    requires Enabled(Before(acts, n), Leave(w))
    ensures ToldAt(acts, k, n, w, id, v, b, i) && ChecksAt(acts, n, w, i, j)
    ensures Ready(Before(acts, j), b) ==> Before(acts, n).jobs[b].batch.released
  {
    i, j := StageAlong(acts, k, n, w, id, v, b);
  }

  // ---------------------------------------------------------------------------
  // A fetch
  // ---------------------------------------------------------------------------

  /** At step i, after k and before n, w looked into the queue of batch b and found it empty. */
  ghost predicate EmptyAt(acts: seq<Action>, k: nat, n: nat, w: nat, b: nat, i: nat)
    requires Exec(acts).Some? && n <= |acts|
  {
    k < i < n && FindsEmpty(Before(acts, i), acts[i], w, b)
  }

  ghost predicate FindsEmpty(s: State, a: Action, w: nat, b: nat) {
    && a == PopOne(w) && WorkerAt(s, w).InBatch? && WorkerAt(s, w).batch == b
    && b in s.jobs && s.jobs[b].batch.fetched == []
  }

  ghost predicate Fetching(pc: WorkerPc) {
    (pc.Scanning? && pc.task.Fetch?) || pc.WantBatch? || pc.InBatch? || pc.Got?
  }

  /** Where its own next step, short of Leave, takes a worker that fetches. */
  predicate FetchMove(s: State, pc: WorkerPc, a: Action, next: WorkerPc) {
    match pc
    case Scanning(_, todo) => a.Visit? && a.b in todo && next == WantBatch(a.b, todo - {a.b})
    case WantBatch(b, todo) => a.LockBatch? && next == InBatch(b, todo)
    case InBatch(b, todo) =>
      a.PopOne? && b in s.jobs &&
      var q := s.jobs[b].batch.fetched;
      if q == [] then next == Scanning(Fetch, todo) else next == Got(b, q[0])
    case _ => false
  }

  lemma FetchMoves(s: State, a: Action, w: nat)
    requires Enabled(s, a) && a != Leave(w) && Fetching(WorkerAt(s, w))
    ensures var pc, next := WorkerAt(s, w), WorkerAt(Next(s, a), w);
      Fetching(next) && if Actor(a) == Worker(w) then FetchMove(s, pc, a, next) else next == pc
  {
    WorkersMove(s, a, w);
    hide Next, BrokerNext, Apply, UnitsOf;
    if Actor(a) == Worker(w) { OwnFetch(s, a, w); }
  }

  lemma OwnFetch(s: State, a: Action, w: nat)
    requires Enabled(s, a) && a != Leave(w) && Fetching(WorkerAt(s, w)) && Actor(a) == Worker(w)
    ensures var pc, next := WorkerAt(s, w), WorkerAt(WorkerNext(s, a), w);
      Fetching(next) && FetchMove(s, pc, a, next)
  {
    hide Apply, UnitsOf, AfterRead;
  }

  /** It has a message in hand, or has still to look into the queue of b. */
  ghost predicate Open(pc: WorkerPc, b: nat) {
    pc.Got? || b in Todo(pc) || ((pc.WantBatch? || pc.InBatch?) && pc.batch == b)
  }

  ghost predicate Searched(acts: seq<Action>, k: nat, n: nat, w: nat, b: nat, i: nat)
    requires Exec(acts).Some? && n <= |acts|
  {
    var pc := WorkerAt(Before(acts, n), w);
    Fetching(pc) && (Open(pc, b) || EmptyAt(acts, k, n, w, b, i))
  }

  lemma OpenMoves(s: State, a: Action, w: nat, b: nat)
    requires Enabled(s, a) && a != Leave(w) && Fetching(WorkerAt(s, w)) && Open(WorkerAt(s, w), b)
    ensures Open(WorkerAt(Next(s, a), w), b) || FindsEmpty(s, a, w, b)
  {
    hide Next;
    FetchMoves(s, a, w);
  }

  lemma SearchedStep(acts: seq<Action>, k: nat, n: nat, w: nat, b: nat, i: nat) returns (i': nat)
    requires Exec(acts).Some? && k < n < |acts| && acts[n] != Leave(w) && Searched(acts, k, n, w, b, i)
    ensures Searched(acts, k, n + 1, w, b, i')
  {
    hide Exec, Before, Open, FindsEmpty, FetchMove, Fetching, Next;
    var s, a := Before(acts, n), acts[n];
    StepAt(acts, n);
    FetchMoves(s, a, w);
    if Open(WorkerAt(s, w), b) { OpenMoves(s, a, w, b); }
    hide Enabled;
    i' := if FindsEmpty(s, a, w, b) then n else i;
  }

  lemma {:induction false} SearchedAlong(acts: seq<Action>, k: nat, n: nat, w: nat, b: nat) returns (i: nat)
    requires Exec(acts).Some? && Scans(acts, k, n, w, Fetch) && b in Before(acts, k + 1).lockers
    ensures Searched(acts, k, n, w, b, i)
    decreases n
  {
    hide Exec, Before, Open, Fetching, Next, EmptyAt;
    if n == k + 1 {
      StepAt(acts, k);
      i := 0;
      SearchBegins(Before(acts, k), w, b);
    } else {
      i := SearchedAlong(acts, k, n - 1, w, b);
      hide Searched;
      i := SearchedStep(acts, k, n - 1, w, b, i);
    }
  }

  lemma SearchBegins(s: State, w: nat, b: nat)
    requires Enabled(s, LockShared(w)) && WorkerAt(s, w) == WantShared(Fetch)
    requires b in Next(s, LockShared(w)).lockers
    ensures var pc := WorkerAt(Next(s, LockShared(w)), w); Fetching(pc) && Open(pc, b)
  {
  }

  /** A fetch that lets go without a message has found the queue of every registered batch empty. */
  lemma EmptyHanded(acts: seq<Action>, k: nat, n: nat, w: nat, b: nat) returns (i: nat)
    requires Exec(acts).Some? && Scans(acts, k, n, w, Fetch) && b in Before(acts, k + 1).lockers
    requires Enabled(Before(acts, n), Leave(w)) && !WorkerAt(Before(acts, n), w).Got?
    ensures EmptyAt(acts, k, n, w, b, i)
  {
    i := SearchedAlong(acts, k, n, w, b);
  }

  /** What w has taken, in order. */
  function TakenBy(log: seq<Delivery>, w: nat): seq<Delivery> {
    if log == [] then []
    else TakenBy(log[..|log| - 1], w) + if log[|log| - 1].worker == w then [log[|log| - 1]] else []
  }

  lemma TakesOne(log: seq<Delivery>, d: Delivery, w: nat)
    ensures TakenBy(log + [d], w) == TakenBy(log, w) + if d.worker == w then [d] else []
  {
    assert (log + [d])[..|log|] == log;
  }

  lemma TakenStep(s: State, a: Action, w: nat)
    requires Enabled(s, a)
    ensures TakenBy(Next(s, a).deliveries, w) == TakenBy(s.deliveries, w) +
      if a == PopOne(w) && s.jobs[WorkerAt(s, w).batch].batch.fetched != []
      then [Delivery(w, WorkerAt(s, w).batch, s.jobs[WorkerAt(s, w).batch].batch.fetched[0])] else []
  {
    hide Next;
    DeliveryFootprint(s, a);
    match DeliveryBy(s, a)
    case Some(d) => TakesOne(s.deliveries, d, w);
    case None =>
  }

  /** What w has taken beyond `base` is the message it has in hand, and it is at this task. */
  ghost predicate InHand(base: seq<Delivery>, s: State, w: nat, task: Task) {
    var pc := WorkerAt(s, w);
    && TakenBy(s.deliveries, w) == base + (if pc.Got? then [Delivery(w, pc.batch, pc.unit)] else [])
    && (task.Tell? ==> Telling(pc) && pc.task == task)
    && (task.Fetch? ==> Fetching(pc))
  }

  lemma InHandStep(base: seq<Delivery>, s: State, a: Action, w: nat, task: Task)
    requires Enabled(s, a) && a != Leave(w) && InHand(base, s, w, task)
    ensures InHand(base, Next(s, a), w, task)
  {
    hide TakenBy, Next;
    TakenStep(s, a, w);
    if task.Tell? { TellMoves(s, a, w); } else { FetchMoves(s, a, w); }
    assert base + [] == base;
  }

  lemma InHandBegins(s: State, w: nat, task: Task)
    requires Enabled(s, LockShared(w)) && WorkerAt(s, w) == WantShared(task)
    ensures var t := Next(s, LockShared(w)); InHand(TakenBy(t.deliveries, w), t, w, task)
  {
  }

  /** While it holds the lock, a fetch takes one message when it has got one, and an acknowledgement none. */
  lemma {:induction false} OneMessage(acts: seq<Action>, k: nat, n: nat, w: nat, task: Task)
    requires Exec(acts).Some? && Scans(acts, k, n, w, task)
    ensures InHand(TakenBy(Before(acts, k + 1).deliveries, w), Before(acts, n), w, task)
    decreases n
  {
    hide Exec, Before, InHand, Next, TakenBy;
    StepAt(acts, n - 1);
    if n == k + 1 {
      InHandBegins(Before(acts, k), w, task);
    } else {
      OneMessage(acts, k, n - 1, w, task);
      InHandStep(TakenBy(Before(acts, k + 1).deliveries, w), Before(acts, n - 1), acts[n - 1], w, task);
    }
  }
}
