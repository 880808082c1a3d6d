/**
 The hub of one event stream (transport/sse/stream.go): a single goroutine that registers
 and deregisters subscribers, fans events out and shuts down.

 Go panics when a closed channel is closed or sent to, and the hub would hang if the
 one-slot `removed` channel were full. The model keeps a `fault` flag that any of these
 raises, and the flag is proved to stay down in every run.
 */
module SseHub {
  import opened Options
  import opened Sequences
  import opened SseWire
  import opened SseLog

  /** A subscriber's channels; `removed` exists only on streams created on demand. */
  datatype Subscriber = Subscriber(
    eventId: string, sent: seq<Event>, closed: bool, hasRemoved: bool, removedSends: nat, removedClosed: bool)

  /** Everything that sends and closes act on. */
  datatype Net = Net(subs: map<nat, Subscriber>, fault: bool)

  /** A send on the connection. */
  function Sent(net: Net, id: nat, e: Event): Net {
    if id !in net.subs || net.subs[id].closed then net.(fault := true)
    else net.(subs := net.subs[id := net.subs[id].(sent := net.subs[id].sent + [e])])
  }

  /** Closing the connection, then the signal on `removed` and closing that. */
  function Closed(net: Net, id: nat): Net {
    if id !in net.subs || net.subs[id].closed then net.(fault := true)
    else
      var sub := net.subs[id].(closed := true);
      if !sub.hasRemoved then net.(subs := net.subs[id := sub])
      else if sub.removedClosed || sub.removedSends >= 1 then net.(fault := true)
      else net.(subs := net.subs[id := sub.(removedSends := sub.removedSends + 1, removedClosed := true)])
  }

  function SentToAll(net: Net, ids: seq<nat>, e: Event): Net {
    if ids == [] then net else Sent(SentToAll(net, ids[..|ids| - 1], e), ids[|ids| - 1], e)
  }

  function SentAll(net: Net, id: nat, events: seq<Event>): Net {
    if events == [] then net else Sent(SentAll(net, id, events[..|events| - 1]), id, events[|events| - 1])
  }

  function ClosedAll(net: Net, ids: seq<nat>): Net {
    if ids == [] then net else Closed(ClosedAll(net, ids[..|ids| - 1]), ids[|ids| - 1])
  }

  /** `adding` holds the subscribers between the increment of the counter and the registration. */
  datatype Hub = Hub(
    net: Net, subscribers: seq<nat>, count: int, log: seq<Event>, adding: set<nat>, quit: bool,
    autoReplay: bool, autoStream: bool)

  // ---------- The cases of the hub's select ----------

  function Registered(h: Hub, id: nat): Hub
    requires id in h.net.subs
  {
    h.(subscribers := h.subscribers + [id],
       net := if h.autoReplay then SentAll(h.net, id, Replayed(h.log, h.net.subs[id].eventId)) else h.net)
  }

  function RemovedAt(h: Hub, i: nat): Hub
    requires i < |h.subscribers|
  {
    h.(net := Closed(h.net, h.subscribers[i]), count := h.count - 1,
       subscribers := h.subscribers[..i] + h.subscribers[i + 1..])
  }

  /** The first position of `id`. */
  function Position(ids: seq<nat>, id: nat): (i: Option<nat>)
    ensures i.Some? ==> i.value < |ids| && ids[i.value] == id
    ensures i.None? ==> id !in ids
  {
    if ids == [] then None
    else if ids[0] == id then Some(0)
    else match Position(ids[1..], id) case None => None case Some(i) => Some(i + 1)
  }

  function Deregistered(h: Hub, id: nat): Hub {
    match Position(h.subscribers, id)
    case None => h
    case Some(i) => RemovedAt(h, i)
  }

  function Dispatched(h: Hub, e: Event, id: string): Hub {
    if h.autoReplay then
      h.(log := Added(h.log, e, id), net := SentToAll(h.net, h.subscribers, Stamped(e, id)))
    else h.(net := SentToAll(h.net, h.subscribers, e))
  }

  function ShutDown(h: Hub): Hub {
    h.(net := ClosedAll(h.net, h.subscribers), count := 0, subscribers := [], quit := true)
  }

  class Stream {
    var net: Net
    var subscribers: seq<nat>
    var count: int
    const eventLog: EventLog
    ghost var adding: set<nat>
    var quit: bool
    const autoReplay: bool
    const autoStream: bool

    ghost function State(): Hub
      reads this, eventLog
    {
      Hub(net, subscribers, count, eventLog.items, adding, quit, autoReplay, autoStream)
    }

    constructor (autoReplay: bool, autoStream: bool)
      ensures State() == Hub(Net(map[], false), [], 0, [], {}, false, autoReplay, autoStream) && fresh(eventLog)
    {
      eventLog := new EventLog();
      net, subscribers, count, adding, quit := Net(map[], false), [], 0, {}, false;
      this.autoReplay, this.autoStream := autoReplay, autoStream;
    }

    method GetSubIndex(id: nat) returns (i: int)
      ensures match Position(subscribers, id) case None => i == -1 case Some(k) => i == k
    {
      i := 0;
      while i < |subscribers|
        invariant 0 <= i <= |subscribers|
        invariant Position(subscribers, id) ==
                  match Position(subscribers[i..], id) case None => None case Some(k) => Some(i + k)
      {
        assert subscribers[i..][1..] == subscribers[i + 1..];
        if subscribers[i] == id {
          return;
        }
        i := i + 1;
      }
      i := -1;
    }

    method OnRegister(id: nat)
      requires id in net.subs
      modifies this
      ensures State() == Registered(old(State()), id)
    {
      subscribers := subscribers + [id];
      if autoReplay {
        var replay := eventLog.Replay(net.subs[id].eventId);
        ghost var before := net;
        for i := 0 to |replay|
          invariant net == SentAll(before, id, replay[..i])
          modifies this`net
        {
          assert replay[..i + 1][..i] == replay[..i];
          net := Sent(net, id, replay[i]);
        }
        assert replay[..|replay|] == replay;
      }
    }

    method RemoveSubscriber(i: nat)
      requires i < |subscribers|
      modifies this
      ensures State() == RemovedAt(old(State()), i)
    {
      count := count - 1;
      net := Closed(net, subscribers[i]);
      subscribers := subscribers[..i] + subscribers[i + 1..];
    }

    method OnDeregister(id: nat)
      modifies this
      ensures State() == Deregistered(old(State()), id)
    {
      var i := GetSubIndex(id);
      if i != -1 {
        RemoveSubscriber(i);
      }
    }

    method OnEvent(e: Event, id: string)
      modifies this, eventLog
      ensures State() == Dispatched(old(State()), e, id)
    {
      var event := e;
      if autoReplay {
        event := eventLog.Add(e, id);
      }
      ghost var before := State();
      for i := 0 to |subscribers|
        invariant State() == before.(net := net) && subscribers == old(subscribers)
        invariant net == SentToAll(before.net, subscribers[..i], event)
      {
        assert subscribers[..i + 1][..i] == subscribers[..i];
        net := Sent(net, subscribers[i], event);
      }
      assert subscribers[..|subscribers|] == subscribers;
    }

    method OnQuit()
      modifies this
      ensures State() == ShutDown(old(State()))
    {
      ghost var before := net;
      for i := 0 to |subscribers|
        invariant net == ClosedAll(before, subscribers[..i])
        modifies this`net
      {
        assert subscribers[..i + 1][..i] == subscribers[..i];
        net := Closed(net, subscribers[i]);
      }
      assert subscribers[..|subscribers|] == subscribers;
      count := 0;
      subscribers := [];
      quit := true;
    }
  }

  // ---------- Whole runs ----------

  datatype Action =
    | AddBegins(id: nat, eventId: string)
    | Register(id: nat)
    | Deregister(id: nat)
    | Dispatch(event: Event, newId: string)
    | Quit

  predicate Init(h: Hub) {
    h == Hub(Net(map[], false), [], 0, [], {}, false, h.autoReplay, h.autoStream)
  }

  /** Deregistration may name any subscriber, registered or not, any number of times. */
  predicate Enabled(h: Hub, a: Action) {
    match a
    case AddBegins(id, _) => id !in h.net.subs
    case Register(id) => !h.quit && id in h.adding && id in h.net.subs
    case Deregister(_) => !h.quit
    case Dispatch(_, _) => !h.quit
    case Quit => !h.quit
  }

  function After(h: Hub, a: Action): Hub
    requires Enabled(h, a)
  {
    match a
    case AddBegins(id, eventId) =>
      var sub := Subscriber(eventId, [], false, h.autoStream, 0, false);
      h.(count := h.count + 1, adding := h.adding + {id}, net := h.net.(subs := h.net.subs[id := sub]))
    case Register(id) => Registered(h, id).(adding := h.adding - {id})
    case Deregister(id) => Deregistered(h, id)
    case Dispatch(e, id) => Dispatched(h, e, id)
    case Quit => ShutDown(h)
  }

  ghost predicate Steps(h: Hub, run: seq<Action>, h': Hub)
    decreases |run|
  {
    if run == [] then h' == h
    else Enabled(h, run[0]) && Steps(After(h, run[0]), run[1..], h')
  }

  /** Open, with nothing on `removed` yet. */
  predicate Open(net: Net, id: nat) {
    id in net.subs && !net.subs[id].closed && net.subs[id].removedSends == 0 && !net.subs[id].removedClosed
  }

  /** The connection of `id` was closed with nothing more sent, and whoever waits for `removed` was told once. */
  predicate ClosedAndTold(net: Net, net': Net, id: nat) {
    && id in net.subs && id in net'.subs && net'.subs[id].closed
    && net'.subs[id].sent == net.subs[id].sent && net'.subs[id].hasRemoved == net.subs[id].hasRemoved
    && (net.subs[id].hasRemoved ==> net'.subs[id].removedSends == 1 && net'.subs[id].removedClosed)
  }

  ghost predicate Inv(h: Hub) {
    && !h.net.fault
    && Distinct(h.subscribers)
    && (forall id | id in h.subscribers :: Open(h.net, id) && id !in h.adding)
    && (forall id | id in h.adding :: Open(h.net, id))
    && (if h.quit then h.subscribers == [] else h.count == |h.subscribers| + |h.adding|)
  }

  // ---------- What sends and closes do to the channels ----------

  /** Sends to open connections raise no fault and append to exactly those connections. */
  lemma {:induction false} SentToAllIsSafe(net: Net, ids: seq<nat>, e: Event)
    requires !net.fault && Distinct(ids) && forall id | id in ids :: Open(net, id)
    ensures var r := SentToAll(net, ids, e);
            && !r.fault && r.subs.Keys == net.subs.Keys
            && forall id | id in net.subs ::
                 r.subs[id] == if id in ids then net.subs[id].(sent := net.subs[id].sent + [e]) else net.subs[id]
    decreases |ids|
  {
    if ids != [] {
      var init, last := ids[..|ids| - 1], ids[|ids| - 1];
      assert ids == init + [last] && last !in init && last in ids;
      assert forall id | id in init :: id in ids;
      SentToAllIsSafe(net, init, e);
    }
  }

  lemma {:induction false} SentAllIsSafe(net: Net, id: nat, events: seq<Event>)
    requires !net.fault && Open(net, id)
    ensures SentAll(net, id, events) ==
            net.(subs := net.subs[id := net.subs[id].(sent := net.subs[id].sent + events)])
    decreases |events|
  {
    if events == [] {
      assert net.subs[id].sent + [] == net.subs[id].sent;
      assert net.subs[id := net.subs[id]] == net.subs;
    } else {
      var init, last := events[..|events| - 1], events[|events| - 1];
      SentAllIsSafe(net, id, init);
      assert net.subs[id].sent + init + [last] == net.subs[id].sent + events;
    }
  }

  lemma {:induction false} ClosedAllIsSafe(net: Net, ids: seq<nat>)
    requires !net.fault && Distinct(ids) && forall id | id in ids :: Open(net, id)
    ensures var r := ClosedAll(net, ids);
            && !r.fault && r.subs.Keys == net.subs.Keys
            && forall id | id in net.subs ::
                 if id in ids then ClosedAndTold(net, r, id) else r.subs[id] == net.subs[id]
    decreases |ids|
  {
    if ids != [] {
      var init, last := ids[..|ids| - 1], ids[|ids| - 1];
      assert ids == init + [last] && last !in init && last in ids;
      assert forall id | id in init :: id in ids;
      ClosedAllIsSafe(net, init);
      ClosedOne(ClosedAll(net, init), last);
    }
  }

  lemma ClosedOne(net: Net, id: nat)
    requires !net.fault && Open(net, id)
    ensures var r := Closed(net, id);
            && !r.fault && r.subs.Keys == net.subs.Keys && ClosedAndTold(net, r, id)
            && forall d | d in net.subs && d != id :: r.subs[d] == net.subs[d]
  {
  }

  lemma RemoveStep(h: Hub, i: nat)
    requires Inv(h) && !h.quit && i < |h.subscribers|
    ensures Inv(RemovedAt(h, i))
  {
    var id := h.subscribers[i];
    assert id in h.subscribers;
    DistinctWithout(h.subscribers, i);
  }

  lemma InvStep(h: Hub, a: Action)
    requires Inv(h) && Enabled(h, a)
    ensures Inv(After(h, a))
  {
    match a
    case AddBegins(id, eventId) =>
    case Register(id) =>
      if h.autoReplay {
        SentAllIsSafe(h.net, id, Replayed(h.log, h.net.subs[id].eventId));
      }
    case Deregister(id) =>
      var i := Position(h.subscribers, id);
      if i.Some? {
        RemoveStep(h, i.value);
      }
    case Dispatch(e, id) => SentToAllIsSafe(h.net, h.subscribers, if h.autoReplay then Stamped(e, id) else e);
    case Quit => ClosedAllIsSafe(h.net, h.subscribers);
  }

  lemma {:induction false} InvHolds(h: Hub, run: seq<Action>, h': Hub)
    requires Inv(h) && Steps(h, run, h')
    ensures Inv(h')
    decreases |run|
  {
    if run != [] {
      InvStep(h, run[0]);
      InvHolds(After(h, run[0]), run[1..], h');
    }
  }

  /**
   In every run no connection is closed twice or sent to after it was closed, the signal on
   `removed` never blocks, and until the hub quits the counter is the number of registered
   subscribers plus the additions in flight.
   */
  lemma ChannelSafety(h0: Hub, run: seq<Action>, h: Hub)
    requires Init(h0) && Steps(h0, run, h)
    ensures !h.net.fault
    ensures !h.quit ==> h.count == |h.subscribers| + |h.adding|
    ensures forall id | id in h.subscribers :: Open(h.net, id)
  {
    InvHolds(h0, run, h);
  }

  /** Registered subscribers get every event once, and nobody else gets it. */
  lemma DispatchReachesAll(h0: Hub, run: seq<Action>, h: Hub, e: Event, id: string, sub: nat)
    requires Init(h0) && Steps(h0, run, h) && Enabled(h, Dispatch(e, id)) && sub in h.net.subs
    ensures sub in After(h, Dispatch(e, id)).net.subs
    ensures After(h, Dispatch(e, id)).net.subs[sub].sent ==
            h.net.subs[sub].sent +
            if sub !in h.subscribers then []
            else [if h.autoReplay && !OnlyComment(e) then e.(id := id) else e]
  {
    InvHolds(h0, run, h);
    SentToAllIsSafe(h.net, h.subscribers, if h.autoReplay then Stamped(e, id) else e);
    assert h.net.subs[sub].sent + [] == h.net.subs[sub].sent;
  }

  /** A new subscriber starts with an open, empty connection, and with `removed` on streams made on demand. */
  lemma AddedIsOpen(h0: Hub, run: seq<Action>, h: Hub, id: nat, eventId: string)
    requires Init(h0) && Steps(h0, run, h) && Enabled(h, AddBegins(id, eventId))
    ensures var h1 := After(h, AddBegins(id, eventId));
            && Open(h1.net, id) && h1.net.subs[id].eventId == eventId && h1.net.subs[id].sent == []
            && h1.net.subs[id].hasRemoved == h.autoStream && h1.subscribers == h.subscribers && id in h1.adding
            && forall d | d in h.net.subs :: d in h1.net.subs && h1.net.subs[d] == h.net.subs[d]
  {
  }

  /**
   A registering subscriber goes to the end of the list and, with replay on, is sent the
   logged events after the identifier it came with; nobody else is sent anything.
   */
  lemma RegisterReplays(h0: Hub, run: seq<Action>, h: Hub, id: nat)
    requires Init(h0) && Steps(h0, run, h) && Enabled(h, Register(id))
    ensures var h1 := After(h, Register(id));
            && h1.subscribers == h.subscribers + [id] && h1.net.subs.Keys == h.net.subs.Keys && h1.log == h.log
            && h1.net.subs[id].sent ==
               h.net.subs[id].sent + (if h.autoReplay then Replayed(h.log, h.net.subs[id].eventId) else [])
            && forall d | d in h.net.subs && d != id :: h1.net.subs[d] == h.net.subs[d]
  {
    InvHolds(h0, run, h);
    if h.autoReplay {
      SentAllIsSafe(h.net, id, Replayed(h.log, h.net.subs[id].eventId));
    } else {
      assert h.net.subs[id].sent + [] == h.net.subs[id].sent;
    }
  }

  predicate OnlyComment(e: Event) {
    e.id == "" && e.data == "" && e.event == "" && e.retry == ""
  }

  /** The events that a run logs, stamped: those dispatched with anything in them but a comment. */
  function LoggedBy(run: seq<Action>): seq<Event> {
    if run == [] then []
    else
      (if run[0].Dispatch? && !OnlyComment(run[0].event) then [run[0].event.(id := run[0].newId)] else [])
      + LoggedBy(run[1..])
  }

  lemma {:induction false} LogGrows(h: Hub, history: seq<Event>, run: seq<Action>, h': Hub)
    requires Steps(h, run, h') && h.log == if h.autoReplay then LastOf(history, MAX_LOG) else []
    ensures h'.autoReplay == h.autoReplay
    ensures h'.log == if h.autoReplay then LastOf(history + LoggedBy(run), MAX_LOG) else []
    decreases |run|
  {
    if run == [] {
      assert history + [] == history;
    } else {
      var more := LoggedBy([run[0]]);
      assert [run[0]][1..] == [];
      LogStep(h, history, run[0]);
      LogGrows(After(h, run[0]), history + more, run[1..], h');
      assert more == more + LoggedBy([]) && more + LoggedBy(run[1..]) == LoggedBy(run);
      assert history + more + LoggedBy(run[1..]) == history + (more + LoggedBy(run[1..]));
    }
  }

  lemma LogStep(h: Hub, history: seq<Event>, a: Action)
    requires Enabled(h, a) && h.log == if h.autoReplay then LastOf(history, MAX_LOG) else []
    ensures After(h, a).log == if h.autoReplay then LastOf(history + LoggedBy([a]), MAX_LOG) else []
    ensures After(h, a).autoReplay == h.autoReplay
  {
    assert [a][1..] == [] && history + [] == history;
    if a.Dispatch? && HasContent(a.event) {
      LogIsWindow(history, a.event, a.newId);
      assert LoggedBy([a]) == [Stamped(a.event, a.newId)];
    }
  }

  /** With replay on, the log is always the last 1024 events with content dispatched in the run, stamped. */
  lemma LogIsLast(h0: Hub, run: seq<Action>, h: Hub)
    requires Init(h0) && Steps(h0, run, h)
    ensures h.log == if h0.autoReplay then LastOf(LoggedBy(run), 1024) else []
    ensures h.autoReplay == h0.autoReplay
  {
    LogGrows(h0, [], run, h);
    assert [] + LoggedBy(run) == LoggedBy(run);
  }

  /**
   With identifiers increasing, a subscriber that comes with the identifier of event `p` is
   sent exactly what was logged after it, if and only if that is no more than 1024 events.
   */
  lemma RegisterCatchesUp(h0: Hub, run: seq<Action>, h: Hub, id: nat, p: nat)
    requires Init(h0) && h0.autoReplay && Steps(h0, run, h) && Enabled(h, Register(id))
    requires Increasing(LoggedBy(run)) && p <= |LoggedBy(run)|
    requires h.net.subs[id].sent == [] && h.net.subs[id].eventId == LastId(LoggedBy(run), p)
    ensures id in After(h, Register(id)).net.subs
    ensures After(h, Register(id)).net.subs[id].sent == LoggedBy(run)[p..] <==> |LoggedBy(run)| - p <= 1024
  {
    LogIsLast(h0, run, h);
    RegisterReplays(h0, run, h, id);
    ReplayClosesGap(LoggedBy(run), p);
    var replay := Replayed(h.log, h.net.subs[id].eventId);
    assert [] + replay == replay;
  }

  /** Quitting closes every registered connection once, tells those that wait, and leaves the others alone. */
  lemma QuitClosesAll(h0: Hub, run: seq<Action>, h: Hub)
    requires Init(h0) && Steps(h0, run, h) && Enabled(h, Quit)
    ensures var h1 := After(h, Quit);
            && h1.quit && h1.subscribers == [] && h1.count == 0 && h1.net.subs.Keys == h.net.subs.Keys
            && forall d | d in h.net.subs ::
                 if d in h.subscribers then ClosedAndTold(h.net, h1.net, d) else h1.net.subs[d] == h.net.subs[d]
  {
    InvHolds(h0, run, h);
    ClosedAllIsSafe(h.net, h.subscribers);
  }

  /** A deregistered subscriber's connection is closed, and a second deregistration changes nothing. */
  lemma DeregisterCloses(h0: Hub, run: seq<Action>, h: Hub, id: nat)
    requires Init(h0) && Steps(h0, run, h) && Enabled(h, Deregister(id)) && id in h.subscribers
    ensures var h1 := After(h, Deregister(id));
            && ClosedAndTold(h.net, h1.net, id)
            && id !in h1.subscribers && (forall d | d in h.subscribers && d != id :: d in h1.subscribers)
            && (forall d | d in h.net.subs && d != id :: d in h1.net.subs && h1.net.subs[d] == h.net.subs[d])
            && Enabled(h1, Deregister(id)) && After(h1, Deregister(id)) == h1
  {
    InvHolds(h0, run, h);
    var i := Position(h.subscribers, id).value;
    var rest := h.subscribers[..i] + h.subscribers[i + 1..];
    assert forall k | 0 <= k < |rest| :: rest[k] != id;
  }
}
