/**
 Request and reply over publish/subscribe (broker/request_reply.go).

 Any number of `GenericRequest` calls run at once against one broker. The broker delivers
 a published message to any current subscriber of its topic, any number of times and in any
 order; a lossy driver may strip headers from any delivery. Responders answer with
 `ReplyTo`. Request identifiers are distinct, and generated reply topics are used by nobody
 else. Each published message is recorded with the request it belongs to.
 */
module RequestReply {
  import opened Options

  const REPLY_TO := "Reply-To"
  const CORRELATION_ID := "Correlation-ID"

  datatype Message = Message(id: string, headers: map<string, string>, body: string)

  function GetHeader(m: Message, key: string): string {
    if key in m.headers then m.headers[key] else ""
  }

  // ---------- The pieces of the source ----------

  /** `NewReply` */
  function NewReply(request: Message, body: string): Message {
    var cid := GetHeader(request, CORRELATION_ID);
    Message("", if cid != "" then map[CORRELATION_ID := cid] else map[], body)
  }

  datatype Publication = Publication(topic: string, msg: Message)

  /** `ReplyTo`: what it publishes, unless the request names no reply topic. */
  function ReplyTo(request: Message, body: string): Option<Publication> {
    var topic := GetHeader(request, REPLY_TO);
    if topic == "" then None else Some(Publication(topic, NewReply(request, body)))
  }

  /** The message as `GenericRequest` publishes it. */
  function Prepared(msg: Message, replyTopic: string, newId: string): Message {
    var id := if msg.id == "" then newId else msg.id;
    Message(id, msg.headers[REPLY_TO := replyTopic][CORRELATION_ID := id], msg.body)
  }

  /** The test of the reply handler. */
  predicate Accepts(m: Message, id: string) {
    var cid := GetHeader(m, CORRELATION_ID);
    cid == "" || cid == id
  }

  /** A message after a driver has dropped some headers. */
  function Stripped(m: Message, dropped: set<string>): Message {
    m.(headers := m.headers - dropped)
  }

  // ---------- The step system ----------

  datatype Phase = Ready | Listening | Waiting | Returned

  /**
   `slot` is the one-place reply channel and `result` the returned reply, by publication
   number; `given` is the message that the caller passed in.
   */
  datatype Request = Request(
    msg: Message, topic: string, replyTopic: string, generated: bool,
    phase: Phase, slot: Option<nat>, result: Option<nat>, given: Message)

  /** Which request a published message belongs to, and whether it is the request or an answer. */
  datatype Origin = Asked(who: nat) | Answer(who: nat)

  datatype Entry = Entry(topic: string, msg: Message, origin: Origin)

  datatype Sys = Sys(requests: map<nat, Request>, published: seq<Entry>, lossy: bool)

  datatype Action =
    | Begin(who: nat, msg: Message, topic: string, chosen: string, newTopic: string, newId: string)
    | Subscribe(who: nat, ok: bool)
    | Publish(who: nat, ok: bool)
    | Respond(entry: nat, dropped: set<string>, body: string)
    | Deliver(entry: nat, who: nat, dropped: set<string>)
    | Return(who: nat)
    | TimeOut(who: nat)

  predicate Init(s: Sys) {
    s.requests == map[] && s.published == []
  }

  /** The request of a `Begin`; `chosen` is the reply topic option, empty for a generated one. */
  function Begun(a: Action): Request
    requires a.Begin?
  {
    var replyTopic := if a.chosen == "" then a.newTopic else a.chosen;
    Request(Prepared(a.msg, replyTopic, a.newId), a.topic, replyTopic, a.chosen == "", Ready, None, None, a.msg)
  }

  /** A generated reply topic of one request is touched by no other request, nor asked on by its own. */
  predicate TopicsApart(r: Request, other: Request) {
    && (r.generated ==> other.replyTopic != r.replyTopic && other.topic != r.replyTopic && r.topic != r.replyTopic)
    && (other.generated ==> r.replyTopic != other.replyTopic && r.topic != other.replyTopic)
  }

  ghost predicate Enabled(s: Sys, a: Action) {
    match a
    case Begin(who, _, topic, _, newTopic, newId) =>
      && who !in s.requests && newId != "" && newTopic != ""
      && (Begun(a).generated ==> topic != newTopic)
      && (forall k | k in s.requests ::
            s.requests[k].msg.id != Begun(a).msg.id && TopicsApart(Begun(a), s.requests[k]))
    case Subscribe(who, _) => who in s.requests && s.requests[who].phase == Ready
    case Publish(who, _) => who in s.requests && s.requests[who].phase == Listening
    case Respond(i, dropped, _) => i < |s.published| && (s.lossy || dropped == {})
    case Deliver(i, who, dropped) =>
      && i < |s.published| && who in s.requests && (s.lossy || dropped == {})
      && (s.requests[who].phase == Listening || s.requests[who].phase == Waiting)
      && s.published[i].topic == s.requests[who].replyTopic
    case Return(who) => who in s.requests && s.requests[who].phase == Waiting && s.requests[who].slot.Some?
    case TimeOut(who) => who in s.requests && s.requests[who].phase == Waiting
  }

  ghost function After(s: Sys, a: Action): Sys
    requires Enabled(s, a)
  {
    match a
    case Begin(who, _, _, _, _, _) => s.(requests := s.requests[who := Begun(a)])
    case Subscribe(who, ok) =>
      s.(requests := s.requests[who := s.requests[who].(phase := if ok then Listening else Returned)])
    case Publish(who, ok) =>
      var r := s.requests[who];
      if ok then
        Sys(s.requests[who := r.(phase := Waiting)], s.published + [Entry(r.topic, r.msg, Asked(who))], s.lossy)
      else s.(requests := s.requests[who := r.(phase := Returned)])
    case Respond(i, dropped, body) =>
      (match ReplyTo(Stripped(s.published[i].msg, dropped), body)
       case None => s
       case Some(p) => s.(published := s.published + [Entry(p.topic, p.msg, Answer(s.published[i].origin.who))]))
    case Deliver(i, who, dropped) =>
      var r := s.requests[who];
      if Accepts(Stripped(s.published[i].msg, dropped), r.msg.id) && r.slot.None? then
        s.(requests := s.requests[who := r.(slot := Some(i))])
      else s
    case Return(who) =>
      var r := s.requests[who];
      s.(requests := s.requests[who := r.(phase := Returned, result := r.slot)])
    case TimeOut(who) => s.(requests := s.requests[who := s.requests[who].(phase := Returned)])
  }

  ghost predicate Steps(s: Sys, run: seq<Action>, s': Sys)
    decreases |run|
  {
    if run == [] then s' == s
    else Enabled(s, run[0]) && Steps(After(s, run[0]), run[1..], s')
  }

  ghost predicate Reachable(s: Sys) {
    exists s0, run :: Init(s0) && Steps(s0, run, s)
  }

  // ---------- Invariants ----------

  /** The message sent is the caller's: its body, its id if it had one, and its other headers. */
  ghost predicate IsGiven(msg: Message, given: Message) {
    && msg.body == given.body && (given.id != "" ==> msg.id == given.id)
    && forall key | key != "Reply-To" && key != "Correlation-ID" ::
         && (key in msg.headers <==> key in given.headers)
         && (key in given.headers ==> msg.headers[key] == given.headers[key])
  }

  ghost predicate RequestInv(s: Sys) {
    && (forall k | k in s.requests ::
          var r := s.requests[k];
          && r.msg.id != "" && r.replyTopic != ""
          && GetHeader(r.msg, REPLY_TO) == r.replyTopic && GetHeader(r.msg, CORRELATION_ID) == r.msg.id
          && (r.generated ==> r.topic != r.replyTopic) && IsGiven(r.msg, r.given))
    && (forall j, k | j in s.requests && k in s.requests && j != k ::
          s.requests[j].msg.id != s.requests[k].msg.id && TopicsApart(s.requests[j], s.requests[k]))
  }

  /** What is known of a published message: it belongs to a request that is already listening. */
  ghost predicate EntryOk(s: Sys, e: Entry) {
    && e.origin.who in s.requests
    && var r := s.requests[e.origin.who];
       && r.phase != Ready && r.phase != Listening
       && match e.origin
          case Asked(_) => e.msg == r.msg && e.topic == r.topic
          case Answer(_) =>
            && e.topic == r.replyTopic && REPLY_TO !in e.msg.headers
            && (GetHeader(e.msg, CORRELATION_ID) == r.msg.id || (s.lossy && GetHeader(e.msg, CORRELATION_ID) == ""))
  }

  ghost predicate PublishedInv(s: Sys) {
    forall i | 0 <= i < |s.published| :: EntryOk(s, s.published[i])
  }

  /** A reply taken for request `k` came over its reply topic and, if headers are kept, names it. */
  ghost predicate TakenOk(s: Sys, k: nat, slot: Option<nat>) {
    k in s.requests && slot.Some? ==>
      && slot.value < |s.published|
      && s.published[slot.value].topic == s.requests[k].replyTopic
      && (!s.lossy ==> Accepts(s.published[slot.value].msg, s.requests[k].msg.id))
  }

  ghost predicate SlotInv(s: Sys) {
    forall k | k in s.requests ::
      && TakenOk(s, k, s.requests[k].slot) && TakenOk(s, k, s.requests[k].result)
      && (s.requests[k].phase != Returned ==> s.requests[k].result == None)
  }

  ghost predicate Inv(s: Sys) {
    RequestInv(s) && PublishedInv(s) && SlotInv(s)
  }

  predicate SameRequest(r: Request, r': Request) {
    && r'.msg == r.msg && r'.topic == r.topic && r'.replyTopic == r.replyTopic && r'.generated == r.generated
    && r'.given == r.given
  }

  /** After its start a request keeps its message and its topics. */
  lemma OnlyBeginChangesRequests(s: Sys, a: Action)
    requires Enabled(s, a)
    ensures After(s, a).requests.Keys == s.requests.Keys + if a.Begin? then {a.who} else {}
    ensures forall k | k in s.requests :: SameRequest(s.requests[k], After(s, a).requests[k])
  {
  }

  lemma BegunIsPrepared(a: Action)
    requires a.Begin? && a.newId != "" && a.newTopic != ""
    ensures var r := Begun(a);
            && r.msg.id != "" && r.replyTopic != ""
            && GetHeader(r.msg, REPLY_TO) == r.replyTopic && GetHeader(r.msg, CORRELATION_ID) == r.msg.id
            && IsGiven(r.msg, r.given)
  {
  }

  lemma RequestStep(s: Sys, a: Action)
    requires Enabled(s, a) && RequestInv(s)
    ensures RequestInv(After(s, a))
  {
    var s' := After(s, a);
    OnlyBeginChangesRequests(s, a);
    if a.Begin? {
      BegunIsPrepared(a);
    }
    forall j, k | j in s'.requests && k in s'.requests && j != k
      ensures s'.requests[j].msg.id != s'.requests[k].msg.id && TopicsApart(s'.requests[j], s'.requests[k])
    {
      assert j in s.requests ==> SameRequest(s.requests[j], s'.requests[j]);
      assert k in s.requests ==> SameRequest(s.requests[k], s'.requests[k]);
      if a.Begin? && j == a.who {
        assert TopicsApart(Begun(a), s.requests[k]);
      } else if a.Begin? && k == a.who {
        assert TopicsApart(Begun(a), s.requests[j]);
      }
    }
    forall k | k in s.requests
      ensures s'.requests[k].msg == s.requests[k].msg && s'.requests[k].given == s.requests[k].given
    {
      assert SameRequest(s.requests[k], s'.requests[k]);
    }
  }

  lemma PublishedStep(s: Sys, a: Action)
    requires Enabled(s, a) && RequestInv(s) && PublishedInv(s)
    ensures PublishedInv(After(s, a))
  {
    var s' := After(s, a);
    forall i | 0 <= i < |s'.published| ensures EntryOk(s', s'.published[i]) {
      if i < |s.published| {
        assert EntryOk(s, s.published[i]);
        EntryStays(s, a, s.published[i]);
      } else if a.Publish? {
        assert s'.published[i].origin == Asked(a.who);
      } else {
        assert EntryOk(s, s.published[a.entry]);
        AnswerIsOk(s, a, s'.published[i]);
      }
    }
  }

  lemma EntryStays(s: Sys, a: Action, e: Entry)
    requires Enabled(s, a) && EntryOk(s, e)
    ensures EntryOk(After(s, a), e) && (|After(s, a).published| > |s.published| ==> a.Publish? || a.Respond?)
  {
  }

  lemma AnswerIsOk(s: Sys, a: Action, e: Entry)
    requires a.Respond? && Enabled(s, a) && RequestInv(s) && EntryOk(s, s.published[a.entry])
    requires |After(s, a).published| > |s.published| && e == After(s, a).published[|s.published|]
    ensures EntryOk(After(s, a), e)
  {
  }

  lemma SlotStep(s: Sys, a: Action)
    requires Enabled(s, a) && SlotInv(s)
    ensures SlotInv(After(s, a))
  {
  }

  lemma {:induction false} InvHolds(s: Sys, run: seq<Action>, s': Sys)
    requires Inv(s) && Steps(s, run, s')
    ensures Inv(s')
    decreases |run|
  {
    if run != [] {
      RequestStep(s, run[0]);
      PublishedStep(s, run[0]);
      SlotStep(s, run[0]);
      InvHolds(After(s, run[0]), run[1..], s');
    }
  }

  lemma ReachableInv(s: Sys)
    requires Reachable(s)
    ensures Inv(s)
  {
    var s0, run :| Init(s0) && Steps(s0, run, s);
    InvHolds(s0, run, s);
  }

  // ---------- The guarantees ----------

  /** The origin of the reply that a finished request returned. */
  ghost function Returning(s: Sys, k: nat): Origin
    requires k in s.requests && s.requests[k].result.Some? && s.requests[k].result.value < |s.published|
  {
    s.published[s.requests[k].result.value].origin
  }

  /**
   With headers kept, a request returns only a message that belongs to it, also on a
   shared reply topic; and a proper answer unless it asks on its own reply topic.
   */
  lemma SharedTopicCorrelation(s: Sys, k: nat)
    requires Reachable(s) && !s.lossy && k in s.requests && s.requests[k].result.Some?
    ensures s.requests[k].result.value < |s.published| && Returning(s, k).who == k
    ensures s.requests[k].topic != s.requests[k].replyTopic ==> Returning(s, k) == Answer(k)
  {
    ReachableInv(s);
    var e := s.published[s.requests[k].result.value];
    assert EntryOk(s, e);
    assert TakenOk(s, k, s.requests[k].result);
  }

  /** With a generated reply topic that holds even when headers are dropped. */
  lemma GeneratedTopicCorrelation(s: Sys, k: nat)
    requires Reachable(s) && k in s.requests && s.requests[k].generated && s.requests[k].result.Some?
    ensures s.requests[k].result.value < |s.published| && Returning(s, k) == Answer(k)
  {
    ReachableInv(s);
    var e := s.published[s.requests[k].result.value];
    assert EntryOk(s, e);
    assert TakenOk(s, k, s.requests[k].result);
  }

  /** The answer that `ReplyTo` makes of a prepared request goes where the requester listens and passes its test. */
  lemma ReplyIsAccepted(s: Sys, k: nat, i: nat, body: string)
    requires Reachable(s) && k in s.requests && i < |s.published| && s.published[i].origin == Asked(k)
    ensures var p := ReplyTo(Stripped(s.published[i].msg, {}), body);
            && p.Some? && p.value.topic == s.requests[k].replyTopic && p.value.msg.body == body
            && Accepts(Stripped(p.value.msg, {}), s.requests[k].msg.id)
  {
    ReachableInv(s);
    assert EntryOk(s, s.published[i]);
    assert Stripped(s.published[i].msg, {}) == s.published[i].msg;
    var m := NewReply(s.published[i].msg, body);
    assert Stripped(m, {}) == m;
  }

  /** A waiting request that is answered and gets the answer delivered first returns that answer. */
  lemma ReplyComesBack(s: Sys, k: nat, i: nat, body: string)
    requires Reachable(s) && k in s.requests && i < |s.published| && s.published[i].origin == Asked(k)
    requires s.requests[k].phase == Waiting && s.requests[k].slot.None?
    ensures Enabled(s, Respond(i, {}, body))
    ensures var s1, n := After(s, Respond(i, {}, body)), |s.published|;
            && Enabled(s1, Deliver(n, k, {})) && Enabled(After(s1, Deliver(n, k, {})), Return(k))
            && var s' := After(After(s1, Deliver(n, k, {})), Return(k));
               && s'.requests[k].result == Some(n) && n < |s'.published|
               && Returning(s', k) == Answer(k) && s'.published[n].msg.body == body
  {
    ReplyIsAccepted(s, k, i, body);
  }

  /** What is published as a request is what its caller gave, with the reply topic and the request's id. */
  lemma AskedIsGiven(s: Sys, i: nat)
    requires Reachable(s) && i < |s.published| && s.published[i].origin.Asked?
    ensures var k, msg := s.published[i].origin.who, s.published[i].msg;
            && k in s.requests && IsGiven(msg, s.requests[k].given) && s.published[i].topic == s.requests[k].topic
            && "Reply-To" in msg.headers && msg.headers["Reply-To"] == s.requests[k].replyTopic
            && "Correlation-ID" in msg.headers && msg.headers["Correlation-ID"] == msg.id != ""
  {
    ReachableInv(s);
    assert EntryOk(s, s.published[i]);
  }

  /** A request that fails or times out returns nothing; one that returns, returns the first accepted message. */
  lemma ReturnsExactly(s: Sys, k: nat)
    requires Reachable(s) && k in s.requests
    ensures Enabled(s, TimeOut(k)) ==> After(s, TimeOut(k)).requests[k].result == None
    ensures Enabled(s, Subscribe(k, false)) ==> After(s, Subscribe(k, false)).requests[k].result == None
    ensures Enabled(s, Publish(k, false)) ==>
              var s' := After(s, Publish(k, false)); s'.requests[k].result == None && s'.published == s.published
    ensures Enabled(s, Return(k)) ==> After(s, Return(k)).requests[k].result == s.requests[k].slot
    ensures forall i | Enabled(s, Deliver(i, k, {})) && s.requests[k].slot.Some? :: After(s, Deliver(i, k, {})) == s
  {
    ReachableInv(s);
  }

  /** Nothing that belongs to a request is published before its reply subscription exists. */
  lemma NoEarlyReply(s: Sys, k: nat, i: nat)
    requires Reachable(s) && k in s.requests && s.requests[k].phase == Ready && i < |s.published|
    ensures s.published[i].origin.who != k
  {
    ReachableInv(s);
    assert EntryOk(s, s.published[i]);
  }

  /** The excluded case: a request on its own reply topic can be answered by itself. */
  lemma SelfAddressedRequest(s: Sys, k: nat, i: nat)
    requires Reachable(s) && k in s.requests && i < |s.published|
    requires s.requests[k].topic == s.requests[k].replyTopic && s.published[i].origin == Asked(k)
    requires s.requests[k].phase == Waiting && s.requests[k].slot.None?
    ensures Enabled(s, Deliver(i, k, {})) && Enabled(After(s, Deliver(i, k, {})), Return(k))
    ensures var s' := After(After(s, Deliver(i, k, {})), Return(k)); Returning(s', k) == Asked(k)
  {
    ReachableInv(s);
    assert EntryOk(s, s.published[i]);
    assert Stripped(s.published[i].msg, {}) == s.published[i].msg;
  }

  /** The other excluded case: on a shared reply topic a lossy driver can cross replies over. */
  lemma SharedLossyTopicCrosses(s: Sys, k: nat, i: nat)
    requires Reachable(s) && s.lossy && k in s.requests && i < |s.published|
    requires s.published[i].topic == s.requests[k].replyTopic
    requires s.requests[k].phase == Waiting && s.requests[k].slot.None?
    ensures Enabled(s, Deliver(i, k, {CORRELATION_ID}))
    ensures Enabled(After(s, Deliver(i, k, {CORRELATION_ID})), Return(k))
    ensures var s' := After(After(s, Deliver(i, k, {CORRELATION_ID})), Return(k));
            Returning(s', k) == s.published[i].origin
  {
    assert GetHeader(Stripped(s.published[i].msg, {CORRELATION_ID}), CORRELATION_ID) == "";
  }

  // ---------- Runs that reach the excluded cases ----------

  lemma {:induction false} StepsExtend(s: Sys, run: seq<Action>, s': Sys, a: Action)
    requires Steps(s, run, s') && Enabled(s', a)
    ensures Steps(s, run + [a], After(s', a))
    decreases |run|
  {
    if run == [] {
      assert Steps(After(s', a), [], After(s', a));
      assert ([] + [a])[1..] == [];
    } else {
      StepsExtend(After(s, run[0]), run[1..], s', a);
      assert (run + [a])[1..] == run[1..] + [a];
    }
  }

  lemma ReachableStep(s: Sys, a: Action)
    requires Reachable(s) && Enabled(s, a)
    ensures Reachable(After(s, a))
  {
    var s0, run :| Init(s0) && Steps(s0, run, s);
    StepsExtend(s0, run, s, a);
  }

  /** Request `k` is out, on the given topics, and waits for its reply. */
  ghost predicate IsWaiting(s: Sys, k: nat, topic: string, replyTopic: string) {
    && k in s.requests && s.requests[k].phase == Waiting && s.requests[k].slot.None?
    && s.requests[k].topic == topic && s.requests[k].replyTopic == replyTopic
    && exists i :: 0 <= i < |s.published| && s.published[i].origin == Asked(k)
  }

  /** One more request goes out; the topic for its replies is its caller's choice. */
  lemma GoesOut(s: Sys, k: nat, id: string, topic: string, replyTopic: string) returns (s': Sys)
    requires Reachable(s) && k !in s.requests && id != "" && replyTopic != ""
    requires forall j | j in s.requests :: s.requests[j].msg.id != id && !s.requests[j].generated
    ensures Reachable(s') && s'.lossy == s.lossy && IsWaiting(s', k, topic, replyTopic)
    ensures s'.requests.Keys == s.requests.Keys + {k} && s'.requests[k].msg.id == id && !s'.requests[k].generated
    ensures forall j | j in s.requests :: s'.requests[j] == s.requests[j]
    ensures s.published <= s'.published
  {
    var a := Begin(k, Message(id, map[], ""), topic, replyTopic, "unused", "unused");
    ReachableStep(s, a);
    var s1 := After(s, a);
    ReachableStep(s1, Subscribe(k, true));
    var s2 := After(s1, Subscribe(k, true));
    ReachableStep(s2, Publish(k, true));
    s' := After(s2, Publish(k, true));
    assert s'.published[|s.published|].origin == Asked(k);
  }

  lemma Fresh(lossy: bool) returns (s: Sys)
    ensures Reachable(s) && s.lossy == lossy && s.requests == map[] && s.published == []
  {
    s := Sys(map[], [], lossy);
    assert Init(s) && Steps(s, [], s);
  }

  /** With headers kept, a request on its own reply topic is returned as its own reply. */
  lemma SelfAnswerExists() returns (s: Sys)
    ensures Reachable(s) && !s.lossy && 0 in s.requests && s.requests[0].result.Some?
    ensures s.requests[0].result.value < |s.published| && Returning(s, 0) == Asked(0)
  {
    var s0 := Fresh(false);
    var s1 := GoesOut(s0, 0, "a", "loop", "loop");
    var i :| 0 <= i < |s1.published| && s1.published[i].origin == Asked(0);
    SelfAddressedRequest(s1, 0, i);
    ReachableStep(s1, Deliver(i, 0, {}));
    var s2 := After(s1, Deliver(i, 0, {}));
    ReachableStep(s2, Return(0));
    s := After(s2, Return(0));
  }

  /** With headers dropped, of two requests that share a reply topic one returns the reply to the other. */
  lemma CrossedReplyExists() returns (s: Sys)
    ensures Reachable(s) && s.lossy && 0 in s.requests && 1 in s.requests && s.requests[0].result.Some?
    ensures s.requests[0].result.value < |s.published| && Returning(s, 0) == Answer(1)
  {
    var s0 := Fresh(true);
    var s1 := GoesOut(s0, 0, "a", "ask", "replies");
    var s2 := GoesOut(s1, 1, "b", "ask", "replies");
    var i :| 0 <= i < |s2.published| && s2.published[i].origin == Asked(1);
    ReplyIsAccepted(s2, 1, i, "");
    ReachableStep(s2, Respond(i, {}, ""));
    var s3, n := After(s2, Respond(i, {}, "")), |s2.published|;
    s := CrossOver(s3, 0, n);
  }

  lemma CrossOver(s: Sys, k: nat, i: nat) returns (s': Sys)
    requires Reachable(s) && s.lossy && k in s.requests && i < |s.published|
    requires s.published[i].topic == s.requests[k].replyTopic
    requires s.requests[k].phase == Waiting && s.requests[k].slot.None?
    ensures Reachable(s') && s'.lossy && s'.requests.Keys == s.requests.Keys && s'.requests[k].result.Some?
    ensures s'.requests[k].result.value < |s'.published| && Returning(s', k) == s.published[i].origin
  {
    SharedLossyTopicCrosses(s, k, i);
    ReachableStep(s, Deliver(i, k, {CORRELATION_ID}));
    var s1 := After(s, Deliver(i, k, {CORRELATION_ID}));
    ReachableStep(s1, Return(k));
    s' := After(s1, Return(k));
  }
}
