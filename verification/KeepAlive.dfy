/** One client polling one consumer against the clock: when does the reaper, which shuts down a
    consumer twenty seconds without activity, never see a consumer that is still being polled? */
module KeepAlive {
  import opened Options
  import Matcher

  const MAX_INACTIVE_TIME: int := 20

  /** The client has no call out, with the time of its last reply if it had one; or its call, made
      at `polled`, is in the pool and was last serviced (or pooled) at `served`. */
  datatype Call = Away(replied: Option<int>) | Pooled(polled: int, served: int)

  /** The consumer is known by the time of its last activity. */
  datatype Line = Line(now: int, consumer: Option<int>, call: Call, delivered: bool, reaped: bool)

  datatype Event =
    | Poll(time: int)
    | Service(time: int, message: bool)
    | Ack(time: int)
    | Reap(time: int)

  function Start(): (s: Line) {
    Line(0, None, Away(None), false, false)
  }

  /** What may happen next when the pool services every call at least every `d` seconds and the
      client polls again at most `g` seconds after a reply: no event is later than what is due. */
  predicate Timely(d: int, g: int, s: Line, e: Event) {
    && s.now <= e.time
    && (s.call.Pooled? ==> e.time <= s.call.served + d)
    && (s.call.Away? && s.call.replied.Some? ==> e.time <= s.call.replied.value + g)
    && (e.Poll? ==> s.call.Away?)
    && (e.Service? ==> s.call.Pooled?)
    && (e.Ack? ==> s.delivered)
  }

  /** A poll touches only the pool. Servicing it makes the consumer if there is none; a delivery and
      a fetch timeout answer it and count as activity, and so does an acknowledgement. */
  function Next(s: Line, e: Event): (r: Line)
    requires e.Service? ==> s.call.Pooled?
  {
    match e
    case Poll(t) => s.(now := t, call := Pooled(t, t))
    case Service(t, message) =>
      var there := if s.consumer.Some? then s.consumer else Some(t);
      if message then Line(t, Some(t), Away(Some(t)), true, s.reaped)
      else if t - s.call.polled >= Matcher.MAX_MSG_WAIT_CONSUME_TIME
      then Line(t, Some(t), Away(Some(t)), s.delivered, s.reaped)
      else Line(t, there, Pooled(s.call.polled, t), s.delivered, s.reaped)
    case Ack(t) => s.(now := t, consumer := Some(t))
    case Reap(t) =>
      if s.consumer.Some? && t - s.consumer.value >= MAX_INACTIVE_TIME
      then s.(now := t, consumer := None, reaped := true)
      else s.(now := t)
  }

  /** The state a timely run ends in. */
  function Exec(d: int, g: int, events: seq<Event>): (r: Option<Line>)
    decreases |events|
  {
    if events == [] then Some(Start())
    else
      match Exec(d, g, events[..|events| - 1])
      case None => None
      case Some(s) => if Timely(d, g, s, events[|events| - 1]) then Some(Next(s, events[|events| - 1])) else None
  }

  // ---------------------------------------------------------------- fast enough

  /** A pooled call that is still waiting was last serviced before its deadline, and the consumer,
      if there is one, was active no earlier than the reply before that call. */
  predicate Fresh(g: int, s: Line) {
    && !s.reaped
    && match s.call
       case Pooled(polled, served) =>
         && polled <= served < polled + Matcher.MAX_MSG_WAIT_CONSUME_TIME && served <= s.now
         && (s.consumer.Some? ==> s.consumer.value >= polled - g)
       case Away(None) => s.consumer.None? && !s.delivered
       case Away(Some(replied)) => s.consumer.Some? && s.consumer.value >= replied && s.now >= replied
  }

  lemma StepKeepsFresh(d: int, g: int, s: Line, e: Event)
    requires d >= 1 && g >= 0 && d + g <= 10
    requires Fresh(g, s) && Timely(d, g, s, e)
    ensures Fresh(g, Next(s, e))
  {
  }

  lemma {:induction false} NeverReaped(d: int, g: int, events: seq<Event>)
    requires d >= 1 && g >= 0 && d + g <= 10
    requires Exec(d, g, events).Some?
    ensures Fresh(g, Exec(d, g, events).value)
    decreases |events|
  {
    if events != [] {
      NeverReaped(d, g, events[..|events| - 1]);
      StepKeepsFresh(d, g, Exec(d, g, events[..|events| - 1]).value, events[|events| - 1]);
    }
  }

  // ---------------------------------------------------------------- what the reaper goes by

  lemma {:induction false} PrefixRuns(d: int, g: int, events: seq<Event>, i: nat)
    requires Exec(d, g, events).Some? && i <= |events|
    ensures Exec(d, g, events[..i]).Some?
    decreases |events|
  {
    if i == |events| {
      assert events[..i] == events;
    } else {
      PrefixRuns(d, g, events[..|events| - 1], i);
      assert events[..|events| - 1][..i] == events[..i];
    }
  }

  /** The state before the i-th event, or at the end. */
  ghost function Before(d: int, g: int, events: seq<Event>, i: nat): (s: Line)
    requires Exec(d, g, events).Some? && i <= |events|
  {
    PrefixRuns(d, g, events, i);
    Exec(d, g, events[..i]).value
  }

  lemma StepAt(d: int, g: int, events: seq<Event>, n: nat)
    requires Exec(d, g, events).Some? && n < |events|
    ensures Timely(d, g, Before(d, g, events, n), events[n])
    ensures Before(d, g, events, n + 1) == Next(Before(d, g, events, n), events[n])
  {
    PrefixRuns(d, g, events, n + 1);
    assert events[..n + 1][..n] == events[..n];
  }

  /** Event k was activity of the consumer: it made the consumer, acknowledged a message, or answered
      the call, with a message or without. */
  ghost predicate ActiveAt(d: int, g: int, events: seq<Event>, k: nat)
    requires Exec(d, g, events).Some?
  {
    k < |events| &&
    match events[k]
    case Ack(_) => true
    case Service(_, _) => Before(d, g, events, k).consumer.None? || Before(d, g, events, k + 1).call.Away?
    case _ => false
  }

  /** Of a consumer that is there before event n the last activity is known. */
  ghost predicate Dated(d: int, g: int, events: seq<Event>, n: nat)
    requires Exec(d, g, events).Some? && n <= |events|
  {
    var s := Before(d, g, events, n);
    && (forall k: nat :: k < n ==> events[k].time <= s.now)
    && (s.consumer.Some? ==>
          && (exists k: nat :: k < n && ActiveAt(d, g, events, k) && events[k].time == s.consumer.value)
          && (forall k: nat :: k < n && ActiveAt(d, g, events, k) ==> events[k].time <= s.consumer.value))
  }

  /** Activity is dated by its event, and nothing else changes the date of a consumer that stays. */
  lemma Dates(s: Line, e: Event)
    requires e.Service? ==> s.call.Pooled?
    ensures var t := Next(s, e);
      && t.now == e.time
      && (t.consumer.Some? ==>
            if e.Ack? || (e.Service? && (s.consumer.None? || t.call.Away?)) then t.consumer.value == e.time
            else t.consumer == s.consumer)
  {
  }

  lemma {:induction false} AlwaysDated(d: int, g: int, events: seq<Event>, n: nat)
    requires Exec(d, g, events).Some? && n <= |events|
    ensures Dated(d, g, events, n)
    decreases n
  {
    hide Exec, Next;
    if n == 0 {
      NothingYet(d, g, events);
    } else {
      AlwaysDated(d, g, events, n - 1);
      StepAt(d, g, events, n - 1);
      Dates(Before(d, g, events, n - 1), events[n - 1]);
      hide Before;
      if ActiveAt(d, g, events, n - 1) { assert n - 1 < n; }
    }
  }

  lemma NothingYet(d: int, g: int, events: seq<Event>)
    requires Exec(d, g, events).Some?
    ensures Before(d, g, events, 0) == Start()
  {
  }

  /** A consumer that was made or active is there until the reaper comes. */
  lemma {:induction false} KnownSince(d: int, g: int, events: seq<Event>, k: nat)
    requires Exec(d, g, events).Some? && k < |events| && (events[k].Service? || events[k].Ack?)
    requires forall m :: k < m < |events| ==> !events[m].Reap?
    ensures Exec(d, g, events).value.consumer.Some?
    decreases |events|
  {
    if k < |events| - 1 { KnownSince(d, g, events[..|events| - 1], k); }
  }

  /** The reaper takes a consumer that is there exactly when all its activity is twenty seconds past. */
  lemma ReapedExactly(d: int, g: int, events: seq<Event>, time: int)
    requires Exec(d, g, events).Some? && Exec(d, g, events).value.consumer.Some?
    ensures Next(Exec(d, g, events).value, Reap(time)).consumer.None? <==>
            forall k: nat :: ActiveAt(d, g, events, k) ==> time - events[k].time >= 20
  {
    AlwaysDated(d, g, events, |events|);
    assert events[..|events|] == events;
  }

  // ---------------------------------------------------------------- too slow

  lemma ExecMore(d: int, g: int, before: seq<Event>, e: Event)
    requires Exec(d, g, before).Some? && Timely(d, g, Exec(d, g, before).value, e)
    ensures Exec(d, g, before + [e]) == Some(Next(Exec(d, g, before).value, e))
  {
    assert (before + [e])[..|before|] == before;
  }

  /** A call that is serviced every second and finds no message. */
  lemma {:induction false} ServicedInVain(d: int, g: int, before: seq<Event>, k: nat) returns (events: seq<Event>)
    requires d >= 1 && k < 10
    requires Exec(d, g, before) == Some(Line(g, Some(0), Pooled(g, g), true, false))
    ensures Exec(d, g, events) == Some(Line(g + k, Some(0), Pooled(g, g + k), true, false))
    decreases k
  {
    if k == 0 {
      events := before;
    } else {
      var shorter := ServicedInVain(d, g, before, k - 1);
      ExecMore(d, g, shorter, Service(g + k, false));
      events := shorter + [Service(g + k, false)];
    }
  }

  /** A delivery, a poll as late as allowed, nine services in vain, and a tenth as late as allowed:
      the reaper comes first. */
  lemma SlowRun(d: int, g: int) returns (events: seq<Event>)
    requires d >= 1 && g >= 0 && d + g > 10
    ensures Exec(d, g, events).Some? && Exec(d, g, events).value.reaped
  {
    var a := [Poll(0)];
    ExecMore(d, g, [], Poll(0));
    assert [] + [Poll(0)] == a;
    ExecMore(d, g, a, Service(0, true));
    var b := a + [Service(0, true)];
    ExecMore(d, g, b, Poll(g));
    var waiting := ServicedInVain(d, g, b + [Poll(g)], 9);
    ExecMore(d, g, waiting, Reap(g + 9 + d));
    events := waiting + [Reap(g + 9 + d)];
  }

  ghost predicate Reapable(d: int, g: int) {
    exists events :: Exec(d, g, events).Some? && Exec(d, g, events).value.reaped
  }

  /** Servicing every `d` seconds and polling again within `g` keeps the consumer from the reaper in
      every run if and only if the two add up to at most ten seconds. */
  lemma KeptAliveExactly(d: int, g: int)
    requires d >= 1 && g >= 0
    ensures !Reapable(d, g) <==> d + g <= 10
  {
    if d + g <= 10 {
      forall events | Exec(d, g, events).Some?
        ensures !Exec(d, g, events).value.reaped
      {
        NeverReaped(d, g, events);
      }
    } else {
      var events := SlowRun(d, g);
    }
  }
}
