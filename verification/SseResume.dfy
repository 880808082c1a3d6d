/**
 The resume protocol between a stream and a client that reconnects with its last event
 identifier (transport/sse/stream.go, transport/sse/event_log.go, transport/sse/client.go).

 The hub is one goroutine: it takes a registration or an event only when it has finished
 the sends of the one before, and each send waits for room in the connection's channel.
 The request handler moves events from the channel to the wire, the client reads them off
 the wire, and a disconnect loses whatever the client has not read. Replay is on, every
 published event carries data, and a disconnect falls between two events.
 */
module SseResume {
  import opened Options
  import opened Sequences
  import opened SseWire
  import opened SseLog

  const CAPACITY := 64

  /** `eventId` is the identifier the client sent, `queue` the channel, `wire` what the handler wrote. */
  datatype Connection = Connection(eventId: string, queue: seq<Event>, wire: seq<Event>)

  datatype Send = Send(conn: nat, event: Event)

  /**
   `history` lists every event the hub has logged, `got` every event the client has
   processed. `missed` records that the client registered too late: after more events
   than the log holds.
   */
  datatype Sys = Sys(
    history: seq<Event>, log: seq<Event>, subscribers: seq<nat>, sends: seq<Send>,
    joining: set<nat>, conns: map<nat, Connection>, next: nat,
    current: Option<nat>, lastId: string, got: seq<Event>, missed: bool)

  datatype Action =
    | Publish(event: Event, id: string)
    | Register(conn: nat)
    | Deregister(conn: nat)
    | SendNext
    | Deliver(conn: nat)
    | Connect
    | Receive
    | Disconnect

  predicate Init(s: Sys) {
    s == Sys([], [], [], [], {}, map[], 0, None, "", [], false)
  }

  predicate Newest(history: seq<Event>, id: string) {
    id != "" && forall i | 0 <= i < |history| :: Before(history[i].id, id)
  }

  predicate Enabled(s: Sys, a: Action) {
    match a
    case Publish(e, id) => s.sends == [] && e.data != "" && Newest(s.history, id)
    case Register(c) => s.sends == [] && c in s.joining && c in s.conns
    case Deregister(c) => s.sends == []
    case SendNext => s.sends != [] && s.sends[0].conn in s.conns && |s.conns[s.sends[0].conn].queue| < CAPACITY
    case Deliver(c) => c in s.conns && s.conns[c].queue != []
    case Connect => s.current == None
    case Receive => s.current.Some? && s.current.value in s.conns && s.conns[s.current.value].wire != []
    case Disconnect => s.current.Some?
  }

  function FanOut(conns: seq<nat>, e: Event): seq<Send> {
    seq(|conns|, i requires 0 <= i < |conns| => Send(conns[i], e))
  }

  function ToOne(c: nat, events: seq<Event>): seq<Send> {
    seq(|events|, i requires 0 <= i < |events| => Send(c, events[i]))
  }

  function Without(conns: seq<nat>, c: nat): seq<nat> {
    if conns == [] then []
    else if conns[0] == c then conns[1..]
    else [conns[0]] + Without(conns[1..], c)
  }

  function After(s: Sys, a: Action): Sys
    requires Enabled(s, a)
  {
    match a
    case Publish(e, id) =>
      var stamped := Stamped(e, id);
      s.(history := s.history + [stamped], log := Added(s.log, e, id), sends := FanOut(s.subscribers, stamped))
    case Register(c) =>
      s.(subscribers := s.subscribers + [c], joining := s.joining - {c},
         sends := ToOne(c, Replayed(s.log, s.conns[c].eventId)),
         missed := s.missed || (s.current == Some(c) && |s.history| - |s.got| > MAX_LOG))
    case Deregister(c) => s.(subscribers := Without(s.subscribers, c))
    case SendNext =>
      var Send(c, e) := s.sends[0];
      s.(sends := s.sends[1..], conns := s.conns[c := s.conns[c].(queue := s.conns[c].queue + [e])])
    case Deliver(c) =>
      var k := s.conns[c];
      s.(conns := s.conns[c := k.(queue := k.queue[1..], wire := k.wire + [k.queue[0]])])
    case Connect =>
      s.(conns := s.conns[s.next := Connection(s.lastId, [], [])], joining := s.joining + {s.next},
         next := s.next + 1, current := Some(s.next))
    case Receive =>
      var c := s.current.value;
      var k := s.conns[c];
      s.(conns := s.conns[c := k.(wire := k.wire[1..])], got := s.got + [k.wire[0]],
         lastId := if k.wire[0].id != "" then k.wire[0].id else s.lastId)
    case Disconnect => s.(current := None)
  }

  ghost predicate Steps(s: Sys, run: seq<Action>, s': Sys)
    decreases |run|
  {
    if run == [] then s' == s
    else Enabled(s, run[0]) && Steps(After(s, run[0]), run[1..], s')
  }

  ghost predicate Reachable(s: Sys) {
    exists s0, run :: Init(s0) && Steps(s0, run, s)
  }

  // ---------- What is on its way to a connection ----------

  /** The events of the hub's unfinished sends that are meant for `c`. */
  function Meant(sends: seq<Send>, c: nat): seq<Event> {
    if sends == [] then []
    else (if sends[0].conn == c then [sends[0].event] else []) + Meant(sends[1..], c)
  }

  function OnTheWay(s: Sys, c: nat): seq<Event>
    requires c in s.conns
  {
    s.conns[c].wire + s.conns[c].queue + Meant(s.sends, c)
  }

  lemma {:induction false} MeantFanOut(conns: seq<nat>, e: Event, c: nat)
    requires Distinct(conns)
    ensures Meant(FanOut(conns, e), c) == if c in conns then [e] else []
  {
    if conns != [] {
      assert FanOut(conns, e)[1..] == FanOut(conns[1..], e);
      MeantFanOut(conns[1..], e, c);
    }
  }

  lemma {:induction false} MeantToOne(d: nat, events: seq<Event>, c: nat)
    ensures Meant(ToOne(d, events), c) == if c == d then events else []
  {
    if events != [] {
      assert ToOne(d, events)[1..] == ToOne(d, events[1..]);
      MeantToOne(d, events[1..], c);
    }
  }

  lemma {:induction false} WithoutKeeps(conns: seq<nat>, c: nat)
    requires Distinct(conns)
    ensures Distinct(Without(conns, c))
    ensures forall d :: d in Without(conns, c) <==> d in conns && d != c
  {
    if conns != [] {
      assert conns == [conns[0]] + conns[1..];
      assert conns[0] !in conns[1..];
      WithoutKeeps(conns[1..], c);
    }
  }

  // ---------- Invariants ----------

  ghost predicate HubInv(s: Sys) {
    && Increasing(s.history) && s.log == LastOf(s.history, MAX_LOG)
    && Distinct(s.subscribers)
    && (forall c | c in s.conns :: c < s.next)
    && (forall c | c in s.subscribers :: c in s.conns && c !in s.joining)
    && s.joining <= s.conns.Keys
    && (forall i | 0 <= i < |s.sends| :: s.sends[i].conn in s.subscribers)
    && (s.current.Some? ==> s.current.value in s.conns)
  }

  /** While the client was never too late, everything it got and will get continues the history. */
  ghost predicate ClientInv(s: Sys) {
    !s.missed ==>
      && s.got <= s.history && s.lastId == LastId(s.history, |s.got|)
      && (s.current.Some? && s.current.value in s.conns ==>
            var c := s.current.value;
            && (c in s.joining ==> OnTheWay(s, c) == [] && s.conns[c].eventId == s.lastId)
            && (c in s.subscribers ==> s.got + OnTheWay(s, c) == s.history)
            && s.got + OnTheWay(s, c) <= s.history)
  }

  lemma HubStep(s: Sys, a: Action)
    requires Enabled(s, a) && HubInv(s)
    ensures HubInv(After(s, a))
  {
    match a
    case Publish(e, id) => LogIsWindow(s.history, e, id);
    case Deregister(c) => WithoutKeeps(s.subscribers, c);
    case _ =>
  }

  lemma {:induction false} MeantNone(sends: seq<Send>, c: nat)
    requires forall i | 0 <= i < |sends| :: sends[i].conn != c
    ensures Meant(sends, c) == []
  {
    if sends != [] {
      MeantNone(sends[1..], c);
    }
  }

  // How each step changes what is on the way to a connection that exists before it.

  lemma PublishFlow(s: Sys, e: Event, id: string, c: nat)
    requires Enabled(s, Publish(e, id)) && Distinct(s.subscribers) && c in s.conns
    ensures OnTheWay(After(s, Publish(e, id)), c) ==
            OnTheWay(s, c) + if c in s.subscribers then [Stamped(e, id)] else []
  {
    MeantFanOut(s.subscribers, Stamped(e, id), c);
  }

  lemma RegisterFlow(s: Sys, d: nat, c: nat)
    requires Enabled(s, Register(d)) && c in s.conns
    ensures OnTheWay(After(s, Register(d)), c) ==
            OnTheWay(s, c) + if c == d then Replayed(s.log, s.conns[d].eventId) else []
  {
    MeantToOne(d, Replayed(s.log, s.conns[d].eventId), c);
  }

  lemma SendFlow(s: Sys, c: nat)
    requires Enabled(s, SendNext) && c in s.conns
    ensures OnTheWay(After(s, SendNext), c) == OnTheWay(s, c)
  {
  }

  lemma DeliverFlow(s: Sys, d: nat, c: nat)
    requires Enabled(s, Deliver(d)) && c in s.conns
    ensures OnTheWay(After(s, Deliver(d)), c) == OnTheWay(s, c)
  {
  }

  lemma ReceiveFlow(s: Sys)
    requires Enabled(s, Receive)
    ensures After(s, Receive).got + OnTheWay(After(s, Receive), s.current.value)
         == s.got + OnTheWay(s, s.current.value)
  {
  }

  /** What the client has and will get, in one sequence. */
  ghost function Stream(s: Sys): seq<Event>
    requires s.current.Some? && s.current.value in s.conns
  {
    s.got + OnTheWay(s, s.current.value)
  }

  lemma RegisterCatchesUp(s: Sys, c: nat)
    requires Enabled(s, Register(c)) && s.current == Some(c) && c in s.joining
    requires Increasing(s.history) && s.log == LastOf(s.history, MAX_LOG)
    requires s.got <= s.history && s.conns[c].eventId == LastId(s.history, |s.got|) && OnTheWay(s, c) == []
    ensures Stream(After(s, Register(c))) == s.history <==> |s.history| - |s.got| <= MAX_LOG
  {
    RegisterFlow(s, c, c);
    ReplayClosesGap(s.history, |s.got|);
    var replay := Replayed(s.log, s.conns[c].eventId);
    assert [] + replay == replay;
    assert (s.got + replay)[|s.got|..] == replay;
    assert s.got + s.history[|s.got|..] == s.history;
  }

  lemma ReceiveStep(s: Sys)
    requires Enabled(s, Receive) && Increasing(s.history) && s.got <= s.history && Stream(s) <= s.history
    ensures var s' := After(s, Receive); s'.got <= s.history && s'.lastId == LastId(s.history, |s'.got|)
  {
    var k := s.conns[s.current.value];
    assert Stream(s)[|s.got|] == k.wire[0];
  }

  /** A step that leaves the client, the history and its flow alone keeps the invariant. */
  lemma ClientKeeps(s: Sys, s': Sys)
    requires ClientInv(s) && s.missed == s'.missed
    requires s'.got == s.got && s'.lastId == s.lastId && s'.history == s.history && s'.current == s.current
    requires s.current.Some? && s.current.value in s.conns ==>
               var c := s.current.value;
               && c in s'.conns && s'.conns[c].eventId == s.conns[c].eventId
               && OnTheWay(s', c) == OnTheWay(s, c)
               && (c in s'.joining ==> c in s.joining) && (c in s'.subscribers ==> c in s.subscribers)
    requires s.current.Some? ==> s.current.value in s.conns
    ensures ClientInv(s')
  {
  }

  lemma ClientPublish(s: Sys, e: Event, id: string)
    requires Enabled(s, Publish(e, id)) && HubInv(s) && ClientInv(s)
    ensures ClientInv(After(s, Publish(e, id)))
  {
    var s' := After(s, Publish(e, id));
    if !s.missed && s.current.Some? {
      var c := s.current.value;
      PublishFlow(s, e, id, c);
      assert OnTheWay(s, c) + [] == OnTheWay(s, c);
      assert s.got + (OnTheWay(s, c) + [Stamped(e, id)]) == Stream(s) + [Stamped(e, id)];
      assert Stream(s) <= s.history <= s'.history;
    }
  }

  lemma ClientRegister(s: Sys, d: nat)
    requires Enabled(s, Register(d)) && HubInv(s) && ClientInv(s)
    ensures ClientInv(After(s, Register(d)))
  {
    var s' := After(s, Register(d));
    if !s'.missed && s.current == Some(d) {
      RegisterCatchesUp(s, d);
      assert s.got <= s.history;
    } else if s.current.Some? && s.current != Some(d) {
      var c := s.current.value;
      RegisterFlow(s, d, c);
      assert OnTheWay(s, c) + [] == OnTheWay(s, c);
      ClientKeeps(s, s');
    }
  }

  lemma ClientConnect(s: Sys)
    requires Enabled(s, Connect) && HubInv(s) && ClientInv(s)
    ensures ClientInv(After(s, Connect))
  {
    MeantNone(s.sends, s.next);
    assert s.got + [] == s.got;
  }

  lemma ClientReceive(s: Sys)
    requires Enabled(s, Receive) && HubInv(s) && ClientInv(s)
    ensures ClientInv(After(s, Receive))
  {
    if !s.missed {
      ReceiveFlow(s);
      ReceiveStep(s);
    }
  }

  lemma ClientStep(s: Sys, a: Action)
    requires Enabled(s, a) && HubInv(s) && ClientInv(s)
    ensures ClientInv(After(s, a))
  {
    match a
    case Publish(e, id) => ClientPublish(s, e, id);
    case Register(d) => ClientRegister(s, d);
    case Connect => ClientConnect(s);
    case Receive => ClientReceive(s);
    case Disconnect =>
    case Deregister(d) =>
      WithoutKeeps(s.subscribers, d);
      ClientKeeps(s, After(s, a));
    case SendNext =>
      if s.current.Some? {
        SendFlow(s, s.current.value);
      }
      ClientKeeps(s, After(s, a));
    case Deliver(d) =>
      if s.current.Some? {
        DeliverFlow(s, d, s.current.value);
      }
      ClientKeeps(s, After(s, a));
  }

  lemma {:induction false} InvHolds(s: Sys, run: seq<Action>, s': Sys)
    requires HubInv(s) && ClientInv(s) && Steps(s, run, s')
    ensures HubInv(s') && ClientInv(s')
    decreases |run|
  {
    if run != [] {
      HubStep(s, run[0]);
      ClientStep(s, run[0]);
      InvHolds(After(s, run[0]), run[1..], s');
    }
  }

  lemma ReachableInv(s: Sys)
    requires Reachable(s)
    ensures HubInv(s) && ClientInv(s)
  {
    var s0, run :| Init(s0) && Steps(s0, run, s);
    InvHolds(s0, run, s);
  }

  // ---------- The guarantee ----------

  /**
   Over any number of disconnects, what the client has processed is a prefix of the
   published history: no gap and no duplicate, as long as no registration of it came
   after more events than the log holds.
   */
  lemma ResumeIsGapFree(s: Sys)
    requires Reachable(s) && !s.missed
    ensures s.got <= s.history
    ensures forall i, j | 0 <= i < j < |s.got| :: s.got[i].id != s.got[j].id
  {
    ReachableInv(s);
    forall i, j | 0 <= i < j < |s.got| ensures s.got[i].id != s.got[j].id {
      assert s.got[i] == s.history[i] && s.got[j] == s.history[j];
      BeforeIsStrict(s.got[i].id);
    }
  }

  /** A registered client that keeps reading gets everything: what it has plus what is on its way is the history. */
  lemma NothingIsLost(s: Sys)
    requires Reachable(s) && !s.missed && s.current.Some? && s.current.value in s.subscribers
    ensures s.current.value in s.conns && Stream(s) == s.history
  {
    ReachableInv(s);
  }

  /** Registering after more events than the log holds does leave a gap. */
  lemma TooLateLeavesGap(s: Sys, c: nat)
    requires Reachable(s) && !s.missed && s.current == Some(c) && Enabled(s, Register(c))
    requires |s.history| - |s.got| > MAX_LOG
    ensures c in After(s, Register(c)).conns && Stream(After(s, Register(c))) != s.history
    ensures After(s, Register(c)).missed
  {
    ReachableInv(s);
    RegisterCatchesUp(s, c);
  }
}
