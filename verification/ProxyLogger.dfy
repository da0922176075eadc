/** The log batcher: entries popped from the log queue are gathered and flushed in bulk to a search
    index, or, when that fails or has failed too often, to the local log file. */
module ProxyLoggers {
  const ES_ERROR_MAX: nat := 10
  const INIT: string := "{ \"index\": { \"_index\": \"msg\", \"_type\": \"msg\"}}\n"

  /** One popped entry, as formatted when it was popped. */
  datatype Entry = Entry(json: string)

  /** Where a flushed batch ended up. */
  datatype Fate = Indexed | Written | Lost
  datatype Flush = Flush(entries: seq<Entry>, attempted: bool, fate: Fate, tick: Tick)

  /** What one check sees of the world: the clock, read once to decide and once more after a flush,
      and whether the index accepts a bulk if one is sent. */
  datatype Tick = Tick(now: int, later: int, accepts: bool)

  datatype Log = Log(pending: seq<Entry>, flushes: seq<Flush>, lastTime: int, errors: nat)

  datatype Event = Popped(entry: Entry, tick: Tick) | Idle(tick: Tick)

  function Start(time: int): (l: Log) {
    Log([], [], time, 0)
  }

  predicate Due(max: int, l: Log, now: int) {
    |l.pending| >= max || (now - l.lastTime > 1 && l.pending != [])
  }

  function Fallback(fileOpened: bool): (f: Fate) {
    if fileOpened then Written else Lost
  }

  function Check(max: int, fileOpened: bool, l: Log, t: Tick): (r: Log) {
    if !Due(max, l, t.now) then l
    else if l.errors >= ES_ERROR_MAX then
      Log([], l.flushes + [Flush(l.pending, false, Fallback(fileOpened), t)], t.later, l.errors)
    else if t.accepts then
      Log([], l.flushes + [Flush(l.pending, true, Indexed, t)], t.later, l.errors)
    else
      Log([], l.flushes + [Flush(l.pending, true, Fallback(fileOpened), t)], t.later, l.errors + 1)
  }

  function Next(max: int, fileOpened: bool, l: Log, e: Event): (r: Log) {
    match e
    case Popped(entry, t) => Check(max, fileOpened, l.(pending := l.pending + [entry]), t)
    case Idle(t) => Check(max, fileOpened, l, t)
  }

  function Run(max: int, fileOpened: bool, l: Log, events: seq<Event>): (r: Log)
    decreases |events|
  {
    if events == [] then l
    else Next(max, fileOpened, Run(max, fileOpened, l, events[..|events| - 1]), events[|events| - 1])
  }

  /** The entries popped by a run, in order. */
  function Entries(events: seq<Event>): (r: seq<Entry>)
    decreases |events|
  {
    if events == [] then []
    else
      var before := Entries(events[..|events| - 1]);
      match events[|events| - 1]
      case Popped(entry, _) => before + [entry]
      case Idle(_) => before
  }

  function Flushed(flushes: seq<Flush>): (r: seq<Entry>)
    decreases |flushes|
  {
    if flushes == [] then []
    else Flushed(flushes[..|flushes| - 1]) + flushes[|flushes| - 1].entries
  }

  /** Bulks that were sent and not accepted. */
  function Failures(flushes: seq<Flush>): (r: nat)
    decreases |flushes|
  {
    if flushes == [] then 0
    else
      var last := flushes[|flushes| - 1];
      Failures(flushes[..|flushes| - 1]) + if last.attempted && last.fate != Indexed then 1 else 0
  }

  lemma AddFlush(flushes: seq<Flush>, f: Flush)
    ensures Flushed(flushes + [f]) == Flushed(flushes) + f.entries
    ensures Failures(flushes + [f]) == Failures(flushes) + if f.attempted && f.fate != Indexed then 1 else 0
  {
    assert (flushes + [f])[..|flushes|] == flushes;
  }

  // ---------------------------------------------------------------- nothing lost, nothing reordered

  lemma CheckConserves(max: int, fileOpened: bool, l: Log, t: Tick)
    ensures var r := Check(max, fileOpened, l, t);
      Flushed(r.flushes) + r.pending == Flushed(l.flushes) + l.pending
  {
    var r := Check(max, fileOpened, l, t);
    if Due(max, l, t.now) {
      AddFlush(l.flushes, r.flushes[|l.flushes|]);
      assert Flushed(r.flushes) + [] == Flushed(r.flushes);
    }
  }

  /** After any run, the flushed batches end to end, followed by what is still pending, are the
      popped entries in the order they were popped. */
  lemma {:induction false} InOrderConservation(max: int, fileOpened: bool, time: int, events: seq<Event>)
    ensures var l := Run(max, fileOpened, Start(time), events);
      Flushed(l.flushes) + l.pending == Entries(events)
    decreases |events|
  {
    if events != [] {
      var before := events[..|events| - 1];
      var l := Run(max, fileOpened, Start(time), before);
      InOrderConservation(max, fileOpened, time, before);
      match events[|events| - 1]
      case Popped(entry, t) =>
        CheckConserves(max, fileOpened, l.(pending := l.pending + [entry]), t);
        assert Flushed(l.flushes) + (l.pending + [entry]) == Flushed(l.flushes) + l.pending + [entry];
      case Idle(t) => CheckConserves(max, fileOpened, l, t);
    }
  }

  // ---------------------------------------------------------------- batches, fates and the breaker

  /** A batch holds between one and `max` entries; a `max` below one sends every entry alone. */
  predicate GoodSize(max: int, n: nat) {
    if max >= 1 then 1 <= n <= max else n <= 1
  }

  /** When the last flush was over, or else when the loop started. */
  function LastFlush(time: int, flushes: seq<Flush>): (r: int) {
    if flushes == [] then time else flushes[|flushes| - 1].tick.later
  }

  /** A batch goes out short only more than one second after the flush before it. An attempt is made
      exactly while fewer than ten have failed before; an accepted batch is indexed, any other is
      in the file, or lost when there is no file. */
  ghost predicate Settled(max: int, fileOpened: bool, time: int, flushes: seq<Flush>) {
    forall k :: 0 <= k < |flushes| ==>
      && GoodSize(max, |flushes[k].entries|)
      && (|flushes[k].entries| < max ==> flushes[k].tick.now - LastFlush(time, flushes[..k]) > 1)
      && (flushes[k].attempted <==> Failures(flushes[..k]) < 10)
      && flushes[k].fate ==
         if flushes[k].attempted && flushes[k].tick.accepts then Indexed else if fileOpened then Written else Lost
  }

  ghost predicate Sound(max: int, fileOpened: bool, time: int, l: Log) {
    && l.lastTime == LastFlush(time, l.flushes)
    && (if max >= 1 then |l.pending| < max else l.pending == [])
    && l.errors == Failures(l.flushes) <= ES_ERROR_MAX
    && Settled(max, fileOpened, time, l.flushes)
  }

  lemma SettledGrows(max: int, fileOpened: bool, time: int, flushes: seq<Flush>, f: Flush)
    requires Settled(max, fileOpened, time, flushes) && GoodSize(max, |f.entries|)
    requires |f.entries| < max ==> f.tick.now - LastFlush(time, flushes) > 1
    requires f.attempted <==> Failures(flushes) < 10
    requires f.fate == if f.attempted && f.tick.accepts then Indexed else if fileOpened then Written else Lost
    ensures Settled(max, fileOpened, time, flushes + [f])
  {
    var more := flushes + [f];
    forall k | 0 <= k < |more|
      ensures more[..k] == if k < |flushes| then flushes[..k] else flushes
    {
    }
  }

  lemma CheckKeepsSound(max: int, fileOpened: bool, time: int, l: Log, t: Tick)
    requires l.lastTime == LastFlush(time, l.flushes)
    requires l.errors == Failures(l.flushes) <= ES_ERROR_MAX && Settled(max, fileOpened, time, l.flushes)
    requires if max >= 1 then |l.pending| <= max else |l.pending| <= 1
    ensures Sound(max, fileOpened, time, Check(max, fileOpened, l, t))
  {
    hide Settled, Failures, Flushed;
    if Due(max, l, t.now) {
      var f := FlushOf(fileOpened, l, t);
      FlushesAll(max, fileOpened, l, t);
      AddFlush(l.flushes, f);
      SettledGrows(max, fileOpened, time, l.flushes, f);
      LastAdded(time, l.flushes, f);
    }
  }

  function FlushOf(fileOpened: bool, l: Log, t: Tick): Flush {
    var attempted := l.errors < ES_ERROR_MAX;
    Flush(l.pending, attempted, if attempted && t.accepts then Indexed else Fallback(fileOpened), t)
  }

  lemma FlushesAll(max: int, fileOpened: bool, l: Log, t: Tick)
    requires Due(max, l, t.now)
    ensures var f := FlushOf(fileOpened, l, t);
      Check(max, fileOpened, l, t)
      == Log([], l.flushes + [f], t.later, l.errors + if f.attempted && f.fate != Indexed then 1 else 0)
  {
  }

  lemma LastAdded(time: int, flushes: seq<Flush>, f: Flush)
    ensures LastFlush(time, flushes + [f]) == f.tick.later
  {
  }

  /** In any run of any clock and any answers of the index: batch sizes are bounded, every batch has
      exactly one fate, at most ten bulks fail, and none is tried after the tenth failure. */
  lemma {:induction false} BatchesSettled(max: int, fileOpened: bool, time: int, events: seq<Event>)
    ensures Sound(max, fileOpened, time, Run(max, fileOpened, Start(time), events))
    decreases |events|
  {
    if events != [] {
      var before := events[..|events| - 1];
      var l := Run(max, fileOpened, Start(time), before);
      BatchesSettled(max, fileOpened, time, before);
      match events[|events| - 1]
      case Popped(entry, t) => CheckKeepsSound(max, fileOpened, time, l.(pending := l.pending + [entry]), t);
      case Idle(t) => CheckKeepsSound(max, fileOpened, time, l, t);
    }
  }

  lemma {:induction false} FailuresGrow(flushes: seq<Flush>, k: nat)
    requires k <= |flushes|
    ensures Failures(flushes[..k]) <= Failures(flushes)
    decreases |flushes| - k
  {
    if k == |flushes| {
      assert flushes[..k] == flushes;
    } else {
      FailuresGrow(flushes, k + 1);
      assert flushes[..k + 1][..k] == flushes[..k];
    }
  }

  /** The breaker latches: once a batch was not even attempted, no later one is. */
  lemma BreakerLatches(max: int, fileOpened: bool, time: int, l: Log, j: nat, k: nat)
    requires Sound(max, fileOpened, time, l) && j <= k < |l.flushes| && !l.flushes[j].attempted
    ensures !l.flushes[k].attempted
  {
    FailuresGrow(l.flushes[..k], j);
    assert l.flushes[..k][..j] == l.flushes[..j];
  }

  /** An entry is lost only when the log file could not be opened. */
  lemma LostOnlyWithoutFile(max: int, time: int, events: seq<Event>, k: nat)
    requires k < |Run(max, true, Start(time), events).flushes|
    ensures Run(max, true, Start(time), events).flushes[k].fate != Lost
  {
    BatchesSettled(max, true, time, events);
  }

  function TickOf(e: Event): (t: Tick) {
    match e
    case Popped(_, t) => t
    case Idle(t) => t
  }

  /** While the clock stands still no batch goes out short: only full ones are flushed. */
  lemma {:induction false} OnlyFullBatches(max: int, fileOpened: bool, time: int, events: seq<Event>)
    requires max >= 1
    requires forall k :: 0 <= k < |events| ==> TickOf(events[k]).now == TickOf(events[k]).later == time
    ensures var l := Run(max, fileOpened, Start(time), events);
      && l.lastTime == time && |l.pending| < max
      && (forall k :: 0 <= k < |l.flushes| ==> |l.flushes[k].entries| == max)
      && |l.flushes| * max + |l.pending| == |Entries(events)|
    decreases |events|
  {
    if events != [] {
      var before := events[..|events| - 1];
      var l := Run(max, fileOpened, Start(time), before);
      OnlyFullBatches(max, fileOpened, time, before);
      assert TickOf(events[|events| - 1]).now == time;
      assert (|l.flushes| + 1) * max == |l.flushes| * max + max;
    }
  }

  /** What is still pending after a check is fewer than `max` entries, and the last flush, or the
      start, was at most one second ago. */
  lemma {:induction false} NothingWaits(max: int, fileOpened: bool, time: int, events: seq<Event>)
    requires events != []
    ensures var l := Run(max, fileOpened, Start(time), events);
      l.pending != [] ==> |l.pending| < max && TickOf(events[|events| - 1]).now - l.lastTime <= 1
  {
    var l := Run(max, fileOpened, Start(time), events[..|events| - 1]);
    match events[|events| - 1]
    case Popped(entry, t) => assert (l.pending + [entry]) != [];
    case Idle(t) =>
  }

  // ---------------------------------------------------------------- the loop

  function Render(entries: seq<Entry>): (r: string)
    decreases |entries|
    ensures r == "" <==> entries == []
  {
    if entries == [] then "" else Render(entries[..|entries| - 1]) + INIT + entries[|entries| - 1].json + "\n"
  }

  lemma RenderMore(entries: seq<Entry>, e: Entry)
    ensures Render(entries + [e]) == Render(entries) + INIT + e.json + "\n"
  {
    assert (entries + [e])[..|entries|] == entries;
  }

  class ProxyLogger {
    const max: int
    const logFileOpened: bool
    var count: int
    var data: string
    var lastTime: int
    var esErrorCount: nat
    var bulks: seq<string>
    var logFile: string
    ghost var log: Log

    constructor (limit: int, fileOpened: bool, time: int)
      ensures Valid() && max == limit && logFileOpened == fileOpened && log == Start(time)
    {
      max, logFileOpened := limit, fileOpened;
      count, data, lastTime, esErrorCount := 0, "", time, 0;
      bulks, logFile := [], "";
      log := Start(time);
    }

    /** The buffer is the text of the pending entries; the accepted bulks and the file hold the
        texts of the batches with those fates, in order. */
    ghost predicate Valid()
      reads this
    {
      && count == |log.pending| && data == Render(log.pending)
      && lastTime == log.lastTime && esErrorCount == log.errors
      && bulks == Texts(log.flushes)
      && logFile == FileText(log.flushes)
    }

    method CheckAndSendLog(t: Tick)
      requires Valid()
      modifies this
      ensures Valid() && log == Check(max, logFileOpened, old(log), t)
    {
      hide Texts, FileText, Render, Failures, Flushed;
      if count >= max || (t.now - lastTime > 1 && |data| > 0) {
        ghost var attempted := esErrorCount < ES_ERROR_MAX;
        ghost var fate := if attempted && t.accepts then Indexed else Fallback(logFileOpened);
        FlushedTexts(log.flushes, Flush(log.pending, attempted, fate, t));
        if esErrorCount >= ES_ERROR_MAX {
          if logFileOpened {
            logFile := logFile + data;
          }
        } else if t.accepts {
          bulks := bulks + [data];
        } else {
          if logFileOpened {
            logFile := logFile + data;
          }
          esErrorCount := esErrorCount + 1;
        }
        data, count, lastTime := "", 0, t.later;
        log := Check(max, logFileOpened, log, t);
      }
    }

    method Append(e: Entry, t: Tick)
      requires Valid()
      modifies this
      ensures Valid() && log == Next(max, logFileOpened, old(log), Popped(e, t))
    {
      data := data + INIT;
      count := count + 1;
      data := data + e.json + "\n";
      RenderMore(log.pending, e);
      assert data == old(data) + INIT + e.json + "\n";
      log := log.(pending := log.pending + [e]);
      CheckAndSendLog(t);
    }

    /** One round of the loop: the queue is drained, every pop followed by a check, and one more
        check closes the round. */
    method ConsumeRound(queue: seq<Entry>, ticks: seq<Tick>, last: Tick)
      requires Valid() && |ticks| == |queue|
      modifies this
      ensures Valid() && log == Run(max, logFileOpened, old(log), Round(queue, ticks) + [Idle(last)])
    {
      hide Run, Next, Check, Round, Render, Texts, FileText;
      ghost var was := log;
      RoundNothing();
      RunNothing(max, logFileOpened, was);
      for k := 0 to |queue|
        invariant Valid() && log == Run(max, logFileOpened, was, Round(queue[..k], ticks[..k]))
      {
        Append(queue[k], ticks[k]);
        RoundMore(queue, ticks, k);
        RunMore(max, logFileOpened, was, Round(queue[..k], ticks[..k]), Popped(queue[k], ticks[k]));
      }
      assert queue[..|queue|] == queue && ticks[..|queue|] == ticks;
      ghost var drained := log;
      CheckAndSendLog(last);
      RunMore(max, logFileOpened, was, Round(queue, ticks), Idle(last));
      IdleChecks(max, logFileOpened, drained, last);
    }
  }

  lemma IdleChecks(max: int, fileOpened: bool, l: Log, t: Tick)
    ensures Next(max, fileOpened, l, Idle(t)) == Check(max, fileOpened, l, t)
  {
  }

  lemma RunNothing(max: int, fileOpened: bool, l: Log)
    ensures Run(max, fileOpened, l, []) == l
  {
  }

  lemma RunMore(max: int, fileOpened: bool, l: Log, events: seq<Event>, e: Event)
    ensures Run(max, fileOpened, l, events + [e]) == Next(max, fileOpened, Run(max, fileOpened, l, events), e)
  {
    assert (events + [e])[..|events|] == events;
  }

  lemma RoundNothing()
    ensures Round([], []) == []
  {
  }

  lemma RoundMore(queue: seq<Entry>, ticks: seq<Tick>, k: nat)
    requires k < |queue| == |ticks|
    ensures Round(queue[..k + 1], ticks[..k + 1]) == Round(queue[..k], ticks[..k]) + [Popped(queue[k], ticks[k])]
  {
    assert queue[..k + 1][..k] == queue[..k] && ticks[..k + 1][..k] == ticks[..k];
  }

  function Round(queue: seq<Entry>, ticks: seq<Tick>): (r: seq<Event>)
    requires |queue| == |ticks|
    ensures |r| == |queue|
  {
    if queue == [] then []
    else
      var k := |queue| - 1;
      Round(queue[..k], ticks[..k]) + [Popped(queue[k], ticks[k])]
  }

  function Texts(flushes: seq<Flush>): (r: seq<string>)
    decreases |flushes|
  {
    if flushes == [] then []
    else
      var last := flushes[|flushes| - 1];
      Texts(flushes[..|flushes| - 1]) + if last.fate == Indexed then [Render(last.entries)] else []
  }

  function FileText(flushes: seq<Flush>): (r: string)
    decreases |flushes|
  {
    if flushes == [] then ""
    else
      var last := flushes[|flushes| - 1];
      FileText(flushes[..|flushes| - 1]) + if last.fate == Written then Render(last.entries) else ""
  }

  lemma FlushedTexts(flushes: seq<Flush>, f: Flush)
    ensures Texts(flushes + [f]) == Texts(flushes) + if f.fate == Indexed then [Render(f.entries)] else []
    ensures FileText(flushes + [f]) == FileText(flushes) + if f.fate == Written then Render(f.entries) else ""
  {
    assert (flushes + [f])[..|flushes|] == flushes;
  }
}
