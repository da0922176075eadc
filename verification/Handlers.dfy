/** The call handlers and the event loop that drives them: every handler is created listening for
    one request, replaced by a fresh one when it gets it, and deleted when the tag of its one
    answer comes back. A Produce handler may send several times before it answers. */
module Handlers {
  import opened Options

  const MAX_RETRY_COUNT: nat := 5

  datatype Kind = Produce | Consume | Ack
  datatype CallStatus = Create | Process | Finish

  /** What a handler is waiting for: a request, a send callback, the matcher, the tag of its
      answer, or nothing more. */
  datatype Awaited = Request | Callback | Matcher | AnswerTag | Nothing

  datatype Reply = NoReply | Success | ParamsError | SendThrew | RetriesExhausted | Answer

  datatype Handler = Handler(kind: Kind, status: CallStatus, awaits: Awaited, complete: bool,
                             retries: nat, sends: nat, finishes: nat, reply: Reply)

  type Server = seq<Handler>

  /** A tag returns, ok or not; a send fails or succeeds; the matcher answers a pooled call. For a
      request `complete` says whether its fields are all present, for a send `throws` whether it
      throws at once instead of calling back later. */
  datatype Event =
    | Tag(i: nat, ok: bool, complete: bool, throws: bool)
    | SendFailed(i: nat, throws: bool)
    | SendSucceeded(i: nat)
    | Matched(i: nat)

  // ---------------------------------------------------------------- one handler

  /** The call made by the base constructor finds the base class's empty `create`, so the status
      stays CREATE; the derived constructor's call then registers the handler. */
  function Fresh(kind: Kind): (h: Handler) {
    Created(Handler(kind, Create, Nothing, false, 0, 0, 0, NoReply))
  }

  function Created(h: Handler): (r: Handler) {
    h.(status := Process, awaits := Request)
  }

  function Finished(h: Handler, reply: Reply): (r: Handler) {
    h.(status := Finish, awaits := AnswerTag, finishes := h.finishes + 1, reply := reply)
  }

  function Sent(h: Handler, throws: bool): (r: Handler) {
    if !h.complete then Finished(h, ParamsError)
    else if throws then Finished(h.(sends := h.sends + 1), SendThrew)
    else h.(sends := h.sends + 1, awaits := Callback)
  }

  function Processed(h: Handler, throws: bool): (r: Handler) {
    match h.kind
    case Produce => Sent(h, throws)
    case Consume => h.(awaits := Matcher)
    case Ack => Finished(h, Answer)
  }

  function Deleted(h: Handler): (r: Handler) {
    h.(status := Finish, awaits := Nothing)
  }

  /** A failed send is repeated, whole `process` and all, until the sixth failure. */
  function Retried(h: Handler, throws: bool): (r: Handler) {
    var again := h.(retries := h.retries + 1);
    if again.retries > MAX_RETRY_COUNT then Finished(again, RetriesExhausted) else Sent(again, throws)
  }

  // ---------------------------------------------------------------- the server

  function Init(): (s: Server) {
    [Fresh(Produce), Fresh(Consume), Fresh(Ack)]
  }

  predicate Enabled(s: Server, e: Event) {
    && e.i < |s|
    && match e
       case Tag(i, _, _, _) => s[i].awaits == Request || s[i].awaits == AnswerTag
       case SendFailed(i, _) => s[i].awaits == Callback
       case SendSucceeded(i) => s[i].awaits == Callback
       case Matched(i) => s[i].awaits == Matcher
  }

  /** `process` starts by creating the handler of the next request. */
  function Spawning(s: Server, i: nat, h: Handler): (r: Server)
    requires i < |s|
  {
    s[i := h] + [Fresh(s[i].kind)]
  }

  function Next(s: Server, e: Event): (r: Server)
    requires Enabled(s, e)
  {
    var h := s[e.i];
    match e
    case Tag(i, ok, complete, throws) =>
      if !ok then s[i := Deleted(h)]
      else if h.status == Create then s[i := Created(h)]
      else if h.status == Process then Spawning(s, i, Processed(h.(complete := complete), throws))
      else s[i := Deleted(h)]
    case SendFailed(i, throws) =>
      if h.retries < MAX_RETRY_COUNT then Spawning(s, i, Retried(h, throws)) else s[i := Retried(h, throws)]
    case SendSucceeded(i) => s[i := Finished(h, Success)]
    case Matched(i) => s[i := Finished(h, Answer)]
  }

  function Exec(events: seq<Event>): (r: Option<Server>)
    decreases |events|
  {
    if events == [] then Some(Init())
    else
      match Exec(events[..|events| - 1])
      case None => None
      case Some(s) => if Enabled(s, events[|events| - 1]) then Some(Next(s, events[|events| - 1])) else None
  }

  // ---------------------------------------------------------------- every handler, in every run

  /** What a handler is like, by what it is waiting for. */
  predicate Sane(h: Handler) {
    match h.awaits
    case Request => h.status == Process && h.finishes == 0 && h.retries == 0 && h.sends == 0 && h.reply == NoReply
    case Callback =>
      h.kind == Produce && h.status == Process && h.finishes == 0 && h.complete && h.reply == NoReply
      && h.sends == h.retries + 1 <= MAX_RETRY_COUNT + 1
    case Matcher =>
      h.kind == Consume && h.status == Process && h.finishes == 0 && h.sends == h.retries == 0 && h.reply == NoReply
    case AnswerTag => h.status == Finish && h.finishes == 1 && Accounts(h)
    case Nothing =>
      h.status == Finish
      && if h.reply == NoReply then h.finishes == 0 && h.sends == h.retries == 0 else h.finishes == 1 && Accounts(h)
  }

  /** The reply says how the sending went. */
  predicate Accounts(h: Handler) {
    match h.reply
    case NoReply => false
    case Success => h.kind == Produce && h.sends == h.retries + 1 <= MAX_RETRY_COUNT + 1
    case ParamsError => h.kind == Produce && h.sends == h.retries == 0 && !h.complete
    case SendThrew => h.kind == Produce && h.sends == h.retries + 1 <= MAX_RETRY_COUNT + 1
    case RetriesExhausted => h.kind == Produce && h.sends == h.retries == MAX_RETRY_COUNT + 1
    case Answer => h.kind != Produce && h.sends == h.retries == 0
  }

  ghost predicate AllSane(s: Server) {
    forall i :: 0 <= i < |s| ==> Sane(s[i])
  }

  lemma TagKeepsSane(h: Handler, complete: bool, throws: bool)
    requires Sane(h) && (h.awaits == Request || h.awaits == AnswerTag)
    ensures Sane(Deleted(h))
    ensures h.awaits == Request ==> h.status == Process && Sane(Processed(h.(complete := complete), throws))
    ensures h.awaits == AnswerTag ==> h.status == Finish
  {
  }

  lemma ReplyKeepsSane(h: Handler, throws: bool)
    requires Sane(h)
    ensures h.awaits == Callback ==> Sane(Retried(h, throws)) && Sane(Finished(h, Success))
    ensures h.awaits == Matcher ==> Sane(Finished(h, Answer))
  {
  }

  lemma SaneUpdate(s: Server, i: nat, h: Handler)
    requires AllSane(s) && i < |s| && Sane(h)
    ensures AllSane(s[i := h]) && AllSane(Spawning(s, i, h))
  {
    assert Sane(Fresh(s[i].kind));
  }

  lemma StepKeepsSane(s: Server, e: Event)
    requires AllSane(s) && Enabled(s, e)
    ensures AllSane(Next(s, e))
  {
    hide Sane, AllSane, Spawning, Deleted, Processed, Retried, Finished;
    var h := s[e.i];
    assert Sane(h) by { SaneAt(s, e.i); }
    match e
    case Tag(i, ok, complete, throws) =>
      TagKeepsSane(h, complete, throws);
      SaneUpdate(s, i, Deleted(h));
      if h.awaits == Request {
        SaneUpdate(s, i, Processed(h.(complete := complete), throws));
      }
    case SendFailed(i, throws) =>
      ReplyKeepsSane(h, throws);
      SaneUpdate(s, i, Retried(h, throws));
    case SendSucceeded(i) =>
      ReplyKeepsSane(h, false);
      SaneUpdate(s, i, Finished(h, Success));
    case Matched(i) =>
      ReplyKeepsSane(h, false);
      SaneUpdate(s, i, Finished(h, Answer));
  }

  lemma SaneAt(s: Server, i: nat)
    requires AllSane(s) && i < |s|
    ensures Sane(s[i])
  {
  }

  lemma {:induction false} AlwaysSane(events: seq<Event>)
    requires Exec(events).Some?
    ensures AllSane(Exec(events).value)
    decreases |events|
  {
    if events != [] {
      AlwaysSane(events[..|events| - 1]);
      StepKeepsSane(Exec(events[..|events| - 1]).value, events[|events| - 1]);
    }
  }

  /** In every run a request is answered at most once and sent at most six times; it has been
      answered unless it is still waiting for a callback or the matcher, and the reply says
      RetriesExhausted exactly when six sends have failed. */
  lemma AnsweredOnce(events: seq<Event>, i: nat)
    requires Exec(events).Some? && i < |Exec(events).value|
    ensures var h := Exec(events).value[i];
      && h.finishes <= 1 && h.sends <= MAX_RETRY_COUNT + 1
      && (h.finishes == 1 <==> h.reply != NoReply)
      && (h.finishes == 0 ==> h.awaits != AnswerTag)
      && (h.finishes == 1 ==> h.awaits == AnswerTag || h.awaits == Nothing)
      && (h.reply == RetriesExhausted <==> h.retries == MAX_RETRY_COUNT + 1)
      && (h.reply == ParamsError ==> h.sends == 0)
  {
    AlwaysSane(events);
    Answered(Exec(events).value[i]);
  }

  lemma Answered(h: Handler)
    requires Sane(h)
    ensures h.finishes <= 1 && h.sends <= MAX_RETRY_COUNT + 1
    ensures h.finishes == 1 <==> h.reply != NoReply
    ensures h.finishes == 1 ==> h.awaits == AnswerTag || h.awaits == Nothing
    ensures h.reply == RetriesExhausted <==> h.retries == MAX_RETRY_COUNT + 1
    ensures h.reply == ParamsError ==> h.sends == 0
  {
  }

  /** The status tells the two kinds of tag apart: a handler is processed exactly when the tag is
      that of its request, and deleted with status FINISH exactly when it is that of its answer. */
  lemma DispatchIsRight(events: seq<Event>, i: nat)
    requires Exec(events).Some? && i < |Exec(events).value|
    ensures var h := Exec(events).value[i];
      && (h.awaits == Request ==> h.status == Process)
      && (h.awaits == AnswerTag ==> h.status == Finish)
      && h.status != Create
      && (h.awaits == Nothing ==> forall e :: Enabled(Exec(events).value, e) ==> e.i != i)
  {
    AlwaysSane(events);
    assert Sane(Exec(events).value[i]);
  }

  function SendFailures(events: seq<Event>, i: nat): (n: nat)
    decreases |events|
  {
    if events == [] then 0
    else
      var last := events[|events| - 1];
      SendFailures(events[..|events| - 1], i) + if last.SendFailed? && last.i == i then 1 else 0
  }

  /** The retry counter counts the failed callbacks; so the sixth one is the last, and answers. */
  lemma {:induction false} RetriesCounted(events: seq<Event>, i: nat)
    requires Exec(events).Some?
    ensures SendFailures(events, i) == RetriesOf(Exec(events).value, i)
    ensures SendFailures(events, i) <= MAX_RETRY_COUNT + 1
    ensures SendFailures(events, i) == MAX_RETRY_COUNT + 1 ==>
              i < |Exec(events).value| && Exec(events).value[i].finishes == 1
    decreases |events|
  {
    AlwaysSane(events);
    if events != [] {
      var init, e := events[..|events| - 1], events[|events| - 1];
      RetriesCounted(init, i);
      RetriesStep(Exec(init).value, e, i);
    }
    hide Next, Enabled, Sane;
    if i < |Exec(events).value| {
      SaneAt(Exec(events).value, i);
      Answered(Exec(events).value[i]);
    }
  }

  function RetriesOf(s: Server, i: nat): nat {
    if i < |s| then s[i].retries else 0
  }

  lemma RetriesStep(s: Server, e: Event, i: nat)
    requires Enabled(s, e)
    ensures RetriesOf(Next(s, e), i) == RetriesOf(s, i) + if e.SendFailed? && e.i == i then 1 else 0
  {
  }

  // ---------------------------------------------------------------- what each event leads to

  /** The call was finished once, with this reply, and waits for that to be sent. */
  predicate Replied(h: Handler, reply: Reply) {
    h.finishes == 1 && h.reply == reply && h.awaits == AnswerTag
  }

  /** The call is not answered yet, and waits for this. */
  predicate StillWaits(h: Handler, a: Awaited) {
    h.finishes == 0 && h.reply == NoReply && h.awaits == a
  }

  /** Handler i alone changes, and when `more` holds a new handler of its kind listens behind it. */
  ghost predicate OnlyAt(s: Server, t: Server, i: nat, more: bool) {
    && i < |s| && |t| == |s| + (if more then 1 else 0)
    && (forall j :: 0 <= j < |s| && j != i ==> t[j] == s[j])
    && (more ==> t[|s|].kind == s[i].kind && StillWaits(t[|s|], Request))
    && t[i].kind == s[i].kind
  }

  /** A request is refused when it is not complete, and answered with an error when its send throws;
      else it waits for the callback. A Consume request waits for the matcher, and an
      acknowledgement is answered at once. Whatever becomes of it, a new handler takes over. */
  lemma RequestHandled(events: seq<Event>, i: nat, complete: bool, throws: bool)
    requires Exec(events).Some? && Enabled(Exec(events).value, Tag(i, true, complete, throws))
    requires Exec(events).value[i].awaits == Request
    ensures var s := Exec(events).value;
      var t := Next(s, Tag(i, true, complete, throws));
      && OnlyAt(s, t, i, true)
      && match s[i].kind
         case Produce =>
           && t[i].sends == (if complete then 1 else 0)
           && (if !complete then Replied(t[i], ParamsError)
               else if throws then Replied(t[i], SendThrew)
               else StillWaits(t[i], Callback))
         case Consume => StillWaits(t[i], Matcher)
         case Ack => Replied(t[i], Answer)
  {
    AlwaysSane(events);
    assert Sane(Exec(events).value[i]);
  }

  /** After a failed send the request is sent again, with a new handler, unless this was its sixth
      failure; a send that throws this time, or the sixth failure, answers it. */
  lemma FailureHandled(events: seq<Event>, i: nat, throws: bool)
    requires Exec(events).Some? && Enabled(Exec(events).value, SendFailed(i, throws))
    ensures var s, n := Exec(events).value, SendFailures(events, i);
      var t := Next(s, SendFailed(i, throws));
      && n <= 5 && OnlyAt(s, t, i, n < 5)
      && t[i].sends == s[i].sends + (if n < 5 then 1 else 0)
      && (if n == 5 then Replied(t[i], RetriesExhausted)
          else if throws then Replied(t[i], SendThrew)
          else StillWaits(t[i], Callback))
  {
    AlwaysSane(events);
    RetriesCounted(events, i);
    assert Sane(Exec(events).value[i]);
  }

  /** A send that succeeds answers its request, and the matcher answers a pooled one. */
  lemma SuccessHandled(events: seq<Event>, i: nat, e: Event)
    requires Exec(events).Some? && Enabled(Exec(events).value, e) && (e == SendSucceeded(i) || e == Matched(i))
    ensures var s := Exec(events).value;
      OnlyAt(s, Next(s, e), i, false) && Replied(Next(s, e)[i], if e.Matched? then Answer else Success)
  {
    AlwaysSane(events);
    assert Sane(Exec(events).value[i]);
  }

  /** The tag of an answer, or one that is not ok, deletes the handler and answers nothing. */
  lemma TagDeletes(events: seq<Event>, i: nat, ok: bool, complete: bool, throws: bool)
    requires Exec(events).Some? && Enabled(Exec(events).value, Tag(i, ok, complete, throws))
    requires !ok || Exec(events).value[i].awaits == AnswerTag
    ensures var s := Exec(events).value;
      var t := Next(s, Tag(i, ok, complete, throws));
      OnlyAt(s, t, i, false) && t[i].awaits == Nothing && t[i].finishes == s[i].finishes && t[i].reply == s[i].reply
  {
    AlwaysSane(events);
    assert Sane(Exec(events).value[i]);
  }

  // ---------------------------------------------------------------- accept slots

  function Total(s: Server, weigh: Handler -> int): (r: int)
    decreases |s|
  {
    if s == [] then 0 else Total(s[..|s| - 1], weigh) + weigh(s[|s| - 1])
  }

  lemma TotalMore(s: Server, weigh: Handler -> int, h: Handler)
    ensures Total(s + [h], weigh) == Total(s, weigh) + weigh(h)
  {
    assert (s + [h])[..|s|] == s;
  }

  lemma {:induction false} TotalUpdate(s: Server, weigh: Handler -> int, i: nat, h: Handler)
    requires i < |s|
    ensures Total(s[i := h], weigh) == Total(s, weigh) - weigh(s[i]) + weigh(h)
    decreases |s|
  {
    var k := |s| - 1;
    if i == k {
      assert s[i := h][..k] == s[..k];
    } else {
      TotalUpdate(s[..k], weigh, i, h);
      assert s[i := h][..k] == s[..k][i := h];
    }
  }

  function IsListening(kind: Kind): (f: Handler -> int) {
    (h: Handler) => if h.kind == kind && h.awaits == Request then 1 else 0
  }

  /** Sends after the first, each of which came with a new handler. */
  function Resends(kind: Kind): (f: Handler -> int) {
    (h: Handler) => if h.kind == kind then Repeats(h) else 0
  }

  function Repeats(h: Handler): (n: int) {
    if h.retries <= MAX_RETRY_COUNT then h.retries else MAX_RETRY_COUNT
  }

  /** A listening handler of this kind whose tag came back not ok: the service is shutting down. */
  function IsRefusal(s: Server, e: Event, kind: Kind): (n: nat) {
    if e.Tag? && !e.ok && e.i < |s| && s[e.i].kind == kind && s[e.i].awaits == Request then 1 else 0
  }

  function Refusals(events: seq<Event>, kind: Kind): (n: nat)
    requires Exec(events).Some?
    decreases |events|
  {
    if events == [] then 0
    else
      var before := events[..|events| - 1];
      Refusals(before, kind) + IsRefusal(Exec(before).value, events[|events| - 1], kind)
  }

  function Balance(s: Server, kind: Kind): (n: int) {
    Total(s, IsListening(kind)) - Total(s, Resends(kind))
  }

  lemma BalanceUpdate(s: Server, kind: Kind, i: nat, h: Handler)
    requires i < |s|
    ensures Balance(s[i := h], kind) == Balance(s, kind)
      - IsListening(kind)(s[i]) + IsListening(kind)(h) + Resends(kind)(s[i]) - Resends(kind)(h)
  {
    TotalUpdate(s, IsListening(kind), i, h);
    TotalUpdate(s, Resends(kind), i, h);
  }

  lemma BalanceSpawning(s: Server, kind: Kind, i: nat, h: Handler)
    requires i < |s|
    ensures Balance(Spawning(s, i, h), kind) == Balance(s, kind)
      - IsListening(kind)(s[i]) + IsListening(kind)(h) + Resends(kind)(s[i]) - Resends(kind)(h)
      + if s[i].kind == kind then 1 else 0
  {
    BalanceUpdate(s, kind, i, h);
    TotalMore(s[i := h], IsListening(kind), Fresh(s[i].kind));
    TotalMore(s[i := h], Resends(kind), Fresh(s[i].kind));
  }

  /** How one handler's change, with or without a new handler, changes its own share. */
  function Share(h: Handler, kind: Kind): (n: int) {
    IsListening(kind)(h) - Resends(kind)(h)
  }

  lemma ShareProcessed(h: Handler, complete: bool, throws: bool, kind: Kind)
    requires Sane(h) && h.awaits == Request
    ensures Share(Processed(h.(complete := complete), throws), kind) == Share(h, kind) - if h.kind == kind then 1 else 0
  {
  }

  lemma ShareRetried(h: Handler, throws: bool, kind: Kind)
    requires Sane(h) && h.awaits == Callback
    ensures Share(Retried(h, throws), kind)
      == Share(h, kind) - if h.kind == kind && h.retries < MAX_RETRY_COUNT then 1 else 0
  {
  }

  lemma TagBalances(s: Server, e: Event, kind: Kind)
    requires AllSane(s) && Enabled(s, e) && e.Tag?
    ensures Balance(Next(s, e), kind) == Balance(s, kind) - IsRefusal(s, e, kind)
  {
    var h := s[e.i];
    assert Sane(h);
    if e.ok && h.status == Process {
      ShareProcessed(h, e.complete, e.throws, kind);
      BalanceSpawning(s, kind, e.i, Processed(h.(complete := e.complete), e.throws));
    } else {
      BalanceUpdate(s, kind, e.i, Deleted(h));
    }
  }

  lemma StepBalances(s: Server, e: Event, kind: Kind)
    requires AllSane(s) && Enabled(s, e)
    ensures Balance(Next(s, e), kind) == Balance(s, kind) - IsRefusal(s, e, kind)
  {
    var h := s[e.i];
    assert Sane(h);
    match e
    case Tag(_, _, _, _) => TagBalances(s, e, kind);
    case SendFailed(i, throws) =>
      ShareRetried(h, throws, kind);
      if h.retries < MAX_RETRY_COUNT {
        BalanceSpawning(s, kind, i, Retried(h, throws));
      } else {
        BalanceUpdate(s, kind, i, Retried(h, throws));
      }
    case SendSucceeded(i) => BalanceUpdate(s, kind, i, Finished(h, Success));
    case Matched(i) => BalanceUpdate(s, kind, i, Finished(h, Answer));
  }

  lemma InitBalance(kind: Kind)
    ensures Balance(Init(), kind) == 1
  {
    var p, c, a := Fresh(Produce), Fresh(Consume), Fresh(Ack);
    assert Init() == [] + [p] + [c] + [a];
    TotalMore([], IsListening(kind), p);
    TotalMore([p], IsListening(kind), c);
    TotalMore([p, c], IsListening(kind), a);
    TotalMore([], Resends(kind), p);
    TotalMore([p], Resends(kind), c);
    TotalMore([p, c], Resends(kind), a);
    assert [] + [p] == [p] && [p] + [c] == [p, c] && [p, c] + [a] == Init();
  }

  lemma {:induction false} AlwaysBalanced(events: seq<Event>, kind: Kind)
    requires Exec(events).Some?
    ensures Balance(Exec(events).value, kind) == 1 - Refusals(events, kind)
    decreases |events|
  {
    if events == [] {
      InitBalance(kind);
    } else {
      var before := events[..|events| - 1];
      AlwaysBalanced(before, kind);
      AlwaysSane(before);
      StepBalances(Exec(before).value, events[|events| - 1], kind);
    }
  }

  lemma {:induction false} NoResends(s: Server, kind: Kind)
    requires AllSane(s) && kind != Produce
    ensures Total(s, Resends(kind)) == 0
    decreases |s|
  {
    if s != [] {
      assert Sane(s[|s| - 1]);
      NoResends(s[..|s| - 1], kind);
    }
  }

  /** Between events exactly one Consume and one ConsumeAck handler listen, as long as the service
      accepts; the listening Produce handlers are one more than all the resends so far, since a
      retry runs the whole of `process` again and leaves one more handler behind. */
  lemma AcceptSlots(events: seq<Event>)
    requires Exec(events).Some?
    ensures var s := Exec(events).value;
      && Total(s, IsListening(Consume)) == 1 - Refusals(events, Consume)
      && Total(s, IsListening(Ack)) == 1 - Refusals(events, Ack)
      && Total(s, IsListening(Produce)) == 1 - Refusals(events, Produce) + Total(s, Resends(Produce))
  {
    AlwaysSane(events);
    AlwaysBalanced(events, Consume);
    AlwaysBalanced(events, Ack);
    AlwaysBalanced(events, Produce);
    NoResends(Exec(events).value, Consume);
    NoResends(Exec(events).value, Ack);
  }

  // ---------------------------------------------------------------- the Produce handler

  class AsyncService {
    /** How often a handler was registered for a Produce request. */
    var registered: nat

    constructor ()
      ensures registered == 0
    {
      registered := 0;
    }
  }

  class ProduceCallData {
    const service: AsyncService
    var status: CallStatus
    var retryCount: nat
    var topic: string
    var group: string
    var tag: string
    var body: string
    var reply: Reply
    ghost var awaits: Awaited
    ghost var sends: nat
    ghost var finishes: nat

    ghost function Value(): (h: Handler)
      reads this
    {
      Handler(Produce, status, awaits, Complete(), retryCount, sends, finishes, reply)
    }

    predicate Complete()
      reads this
    {
      |topic| > 0 && |group| > 0 && |tag| > 0 && |body| > 0
    }

    constructor (s: AsyncService)
      modifies s
      ensures service == s && Value() == Fresh(Produce) && s.registered == old(s.registered) + 1
      decreases 1
    {
      service := s;
      status, retryCount, reply := CallStatus.Create, 0, NoReply;
      topic, group, tag, body := "", "", "", "";
      awaits, sends, finishes := Nothing, 0, 0;
      new;
      Proceed(false);
    }

    method Create()
      modifies this`status, this`awaits, service
      ensures Value() == Created(old(Value())) && service.registered == old(service.registered) + 1
    {
      status := CallStatus.Process;
      service.registered := service.registered + 1;
      awaits := Request;
    }

    /** A new handler takes over listening before anything else, on a retry as well. */
    method Process(throws: bool)
      modifies this`status, this`awaits, this`reply, this`sends, this`finishes, service
      ensures Value() == Processed(old(Value()), throws)
      ensures service.registered == old(service.registered) + 1
      decreases 2
    {
      var next := new ProduceCallData(service);
      if !Complete() {
        Answer(ParamsError);
        return;
      }
      sends := sends + 1;
      if throws {
        Answer(SendThrew);
      } else {
        awaits := Callback;
      }
    }

    method Answer(r: Reply)
      modifies this`status, this`awaits, this`reply, this`finishes
      ensures Value() == Finished(old(Value()), r)
    {
      reply := r;
      status := CallStatus.Finish;
      finishes := finishes + 1;
      awaits := AnswerTag;
    }

    method SuccessFunc()
      modifies this`status, this`awaits, this`reply, this`finishes
      ensures Value() == Finished(old(Value()), Success)
    {
      Answer(Success);
    }

    method FailureFunc(throws: bool)
      modifies this, service
      ensures Value() == Retried(old(Value()), throws)
      ensures service.registered == old(service.registered) + if old(retryCount) < MAX_RETRY_COUNT then 1 else 0
    {
      retryCount := retryCount + 1;
      if retryCount > MAX_RETRY_COUNT {
        Answer(RetriesExhausted);
      } else {
        Process(throws);
      }
    }

    method Cancel()
      modifies this, service
      ensures Value() == Deleted(old(Value())) && service.registered == old(service.registered)
    {
      status := CallStatus.Finish;
      Proceed(false);
    }

    method Del()
      requires status == CallStatus.Finish
      modifies this`awaits
      ensures Value() == Deleted(old(Value()))
    {
      awaits := Nothing;
    }

    method Proceed(throws: bool)
      modifies this`status, this`awaits, this`reply, this`sends, this`finishes, service
      ensures Value()
        == match old(status)
           case Create => Created(old(Value()))
           case Process => Processed(old(Value()), throws)
           case Finish => Deleted(old(Value()))
      ensures service.registered == old(service.registered) + if old(status) == CallStatus.Finish then 0 else 1
      decreases if status == CallStatus.Process then 3 else 0
    {
      if status == CallStatus.Create {
        Create();
      } else if status == CallStatus.Process {
        Process(throws);
      } else {
        Del();
      }
    }
  }
}
