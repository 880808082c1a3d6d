/**
 What the subscription lifecycle guarantees over whole runs: nothing leaks, what is
 forgotten is exactly what was lost, and a stopped server can be started again.
 */
module LifecycleRuns {
  import opened Options
  import opened Lifecycle

  // ---------- The guarantees ----------

  /** In every reachable state each live subscription has exactly one owner. */
  lemma NoLeakedSubscription(s: Server, sub: Sub)
    requires Reachable(s) && sub in s.live
    ensures exists p :: Owns(s, p, sub) && forall q :: Owns(s, q, sub) ==> q == p
  {
    ReachableInv(s);
    var p :| Owns(s, p, sub);
    assert forall q :: Owns(s, q, sub) ==> q == p;
  }

  ghost predicate Settled(s: Server) {
    s.control == Idle && s.threads == map[]
  }

  /** With nothing in progress a stopped server has no live subscription, and a started one only tabled ones. */
  lemma SettledOwnership(s: Server)
    requires Reachable(s) && Settled(s)
    ensures s.started ==> s.live <= s.subscribers.Values
    ensures !s.started ==> s.live == {} && s.subscribers == map[]
  {
    ReachableInv(s);
    forall sub | sub in s.live ensures s.started && sub in s.subscribers.Values {
      var p :| Owns(s, p, sub);
      assert p.Table?;
      assert p.topic in s.subscribers;
    }
  }

  /**
   After any run that settles, the topics on record are exactly those ever registered and
   not lost; a started server is subscribed to all of them, and to nothing unregistered.
   */
  lemma NoForgottenRegistration(s: Server)
    requires Reachable(s) && Settled(s)
    ensures s.opts.Keys == s.registered - s.lost
    ensures s.started ==> s.registered - s.lost <= s.subscribers.Keys <= s.registered
    ensures forall topic | topic in s.opts :: (topic, s.opts[topic]) in s.given
  {
    ReachableInv(s);
    forall topic | topic in s.registered - s.lost ensures topic in s.opts {
      assert Remembered(s, topic);
    }
  }

  predicate Fails(a: Action) {
    a.Subscribe? && !a.ok
  }

  lemma {:induction false} OnlyFailuresLose(s: Server, run: seq<Action>, s': Server)
    requires s.lost == {} && Steps(s, run, s') && forall a | a in run :: !Fails(a)
    ensures s'.lost == {}
    decreases |run|
  {
    if run != [] {
      assert run[0] in run && !Fails(run[0]);
      OnlyFailuresLose(After(s, run[0]), run[1..], s');
    }
  }

  /** If every `Subscribe` succeeds, a settled, started server is subscribed to exactly what was registered. */
  lemma EverySubscribeSucceeds(s0: Server, run: seq<Action>, s: Server)
    requires Init(s0) && Steps(s0, run, s) && Settled(s) && forall a | a in run :: !Fails(a)
    ensures s.opts.Keys == s.registered
    ensures s.started ==> s.subscribers.Keys == s.registered
  {
    OnlyFailuresLose(s0, run, s);
    assert Reachable(s);
    NoForgottenRegistration(s);
  }

  // ---------- What is lost stays lost ----------

  /** Nobody remembers `topic`. */
  ghost predicate Forgotten(s: Server, topic: Topic) {
    && topic in s.lost && topic !in s.opts && !(s.control.Replaying? && topic in s.control.todo)
    && (forall tid | tid in s.threads :: !Carries(s.threads[tid], topic))
  }

  lemma ForgottenStep(s: Server, a: Action, topic: Topic)
    requires Enabled(s, a) && Forgotten(s, topic) && !(a.Call? && a.topic == topic)
    ensures Forgotten(After(s, a), topic)
  {
    if OfLock(a) {
      ForgottenStepOfLock(s, a, topic);
    } else {
      assert a.Subscribe? ==> !Carries(s.threads[a.tid], topic);
    }
  }

  lemma ForgottenStepOfLock(s: Server, a: Action, topic: Topic)
    requires OfLock(a) && Enabled(s, a) && Forgotten(s, topic)
    ensures Forgotten(After(s, a), topic)
  {
    assert !Carries(s.threads[a.tid], topic);
  }

  lemma UnsubscribedStep(s: Server, a: Action, topic: Topic)
    requires Enabled(s, a) && Forgotten(s, topic) && topic !in s.subscribers
    ensures topic !in After(s, a).subscribers
  {
    assert a.Record? ==> !Carries(s.threads[a.tid], topic);
  }

  lemma {:induction false} ForgottenRun(s: Server, topic: Topic, run: seq<Action>, s': Server)
    requires Steps(s, run, s') && Forgotten(s, topic)
    requires forall a | a in run :: !(a.Call? && a.topic == topic)
    ensures Forgotten(s', topic)
    ensures topic !in s.subscribers ==> topic !in s'.subscribers
    decreases |run|
  {
    if run != [] {
      assert run[0] in run;
      ForgottenStep(s, run[0], topic);
      if topic !in s.subscribers {
        UnsubscribedStep(s, run[0], topic);
      }
      ForgottenRun(After(s, run[0]), topic, run[1..], s');
    }
  }

  /**
   A topic lost when the server settled is on record in no later state, whatever else is
   registered and however often the server restarts, unless it is registered again; and
   once the server has been stopped it is not subscribed either.
   */
  lemma LostForGood(s: Server, topic: Topic, run: seq<Action>, s': Server)
    requires Reachable(s) && Settled(s) && topic in s.lost && Steps(s, run, s')
    requires forall a | a in run :: !(a.Call? && a.topic == topic)
    ensures topic in s'.lost && topic !in s'.opts
    ensures !s.started ==> topic !in s'.subscribers
  {
    ReachableInv(s);
    ForgottenRun(s, topic, run, s');
  }

  lemma {:induction false} StepsExtend(s: Server, run: seq<Action>, s': Server, a: Action)
    requires Steps(s, run, s') && Enabled(s', a)
    ensures Steps(s, run + [a], After(s', a))
    decreases |run|
  {
    if run == [] {
      assert Steps(After(s', a), [], After(s', a));
      assert ([] + [a])[1..] == [];
    } else {
      StepsExtend(After(s, run[0]), run[1..], s', a);
      assert (run + [a])[1..] == run[1..] + [a];
    }
  }

  lemma ReachableStep(s: Server, a: Action)
    requires Reachable(s) && Enabled(s, a)
    ensures Reachable(After(s, a))
  {
    var s0, run :| Init(s0) && Steps(s0, run, s);
    StepsExtend(s0, run, s, a);
  }

  /** A state in which `Start` is about to replay the one topic registered before it. */
  function OneTopicReplaying(): Server {
    var control := Replaying(map["orders" := "handler"], false);
    Server(true, false, map[], map[], None, map[], control, {}, 0, {"orders"}, {}, {("orders", "handler")})
  }

  lemma OneTopicRegistered() returns (s: Server)
    ensures Reachable(s)
    ensures s == Server(false, false, map[], map["orders" := "handler"], None, map[], Idle, {}, 0, {"orders"}, {},
                        {("orders", "handler")})
  {
    s := Server(false, false, map[], map[], None, map[], Idle, {}, 0, {}, {}, {});
    assert Steps(s, [], s);
    var call := Call(1, "orders", "handler");
    ReachableStep(s, call);
    s := After(s, call);
    ReachableStep(s, Load(1));
    s := After(s, Load(1));
    assert s.threads[1] == Entered("orders", "handler", false);
    ReachableStep(s, Leave(1));
    s := After(s, Leave(1));
  }

  lemma OneTopicReachesReplay()
    ensures Reachable(OneTopicReplaying())
  {
    var s := OneTopicRegistered();
    ReachableStep(s, StartCalled(true));
    s := After(s, StartCalled(true));
    ReachableStep(s, RaiseFlag);
    s := After(s, RaiseFlag);
    ReachableStep(s, TakeTable);
    assert After(s, TakeTable) == OneTopicReplaying();
  }

  /** Such a state is reached: one topic registered before `Start`, one failed `Subscribe` during it. */
  lemma ForgottenRegistrationExists() returns (s: Server)
    ensures Reachable(s) && Settled(s) && s.started
    ensures s.registered == s.lost == {"orders"} && s.opts == map[] && s.subscribers == map[]
  {
    OneTopicReachesReplay();
    s := OneTopicReplaying();
    ReachableStep(s, Replay("orders"));
    s := After(s, Replay("orders"));
    ReachableStep(s, Subscribe(REPLAY, false));
    s := After(s, Subscribe(REPLAY, false));
    assert s.control.todo == map[] && s.threads == map[];
    ReachableStep(s, StartReturns);
    s := After(s, StartReturns);
  }

  // ---------- Starting again ----------

  /** What a run says of the outcome of the last start: a failure in the replay, and whether it stands. */
  datatype Outcome = Outcome(replayFailed: bool, standing: bool)

  function Told(s: Server, a: Action, o: Outcome): Outcome {
    match a
    case StartCalled(ok) => if s.started || o.standing then o else o.(standing := !ok)
    case TakeTable => o.(replayFailed := false)
    case Subscribe(tid, ok) => if tid == 0 && !ok then o.(replayFailed := true) else o
    case StartReturns => o.(standing := o.replayFailed)
    case StopCalled => if s.started then o else o.(standing := false)
    case StopReturns => o.(standing := false)
    case _ => o
  }

  ghost function ToldBy(s: Server, run: seq<Action>, s': Server, o: Outcome): Outcome
    requires Steps(s, run, s')
    decreases |run|
  {
    if run == [] then o else ToldBy(After(s, run[0]), run[1..], s', Told(s, run[0], o))
  }

  /** The error field is what the run says of the last start. */
  ghost predicate ErrorInv(s: Server, o: Outcome) {
    && s.err == o.standing
    && (s.control.Replaying? ==> s.control.broken == o.replayFailed)
    && (REPLAY in s.threads ==> s.control.Replaying?)
    && (!s.control.Idle? && !s.control.Draining? && s.control != Stopping && s.control != Unflagged ==> !s.err)
  }

  lemma ErrorStep(s: Server, a: Action, o: Outcome)
    requires Enabled(s, a) && LockInv(s) && ErrorInv(s, o)
    ensures ErrorInv(After(s, a), Told(s, a, o))
  {
  }

  lemma {:induction false} ErrorHolds(s: Server, run: seq<Action>, s': Server, o: Outcome)
    requires Inv(s) && ErrorInv(s, o) && Steps(s, run, s')
    ensures ErrorInv(s', ToldBy(s, run, s', o))
    decreases |run|
  {
    if run != [] {
      ErrorStep(s, run[0], o);
      assert Steps(s, [run[0]], After(s, run[0])) by {
        assert [run[0]][1..] == [] && Steps(After(s, run[0]), [], After(s, run[0]));
      }
      InvHolds(s, [run[0]], After(s, run[0]));
      ErrorHolds(After(s, run[0]), run[1..], s', Told(s, run[0], o));
    }
  }

  /**
   A start of a server that is not running is refused exactly when the last start failed, in
   connecting or in replaying its table, and no stop has come back since.
   */
  lemma RefusedExactly(s0: Server, run: seq<Action>, s: Server)
    requires Init(s0) && Steps(s0, run, s) && s.control == Idle && !s.started
    ensures After(s, StartCalled(true)).control == Idle <==> ToldBy(s0, run, s, Outcome(false, false)).standing
    ensures After(s, StartCalled(true)).control == Idle || After(s, StartCalled(true)).control == Connected
  {
    ErrorHolds(s0, run, s, Outcome(false, false));
  }

  /** After a stop has come back, from whatever state, the next start is not refused. */
  lemma StopAllowsStart(s: Server)
    requires Reachable(s)
    ensures Enabled(s, StopReturns) ==> After(After(s, StopReturns), StartCalled(true)).control == Connected
    ensures Enabled(s, StopCalled) && !s.started ==>
              After(After(s, StopCalled), StartCalled(true)).control == Connected
  {
    ReachableInv(s);
  }

  ghost predicate CanReach(s: Server, s': Server) {
    exists run :: Steps(s, run, s') && forall a | a in run :: !Fails(a)
  }

  lemma CanReachMore(s: Server, s1: Server, a: Action)
    requires CanReach(s, s1) && Enabled(s1, a) && !Fails(a)
    ensures CanReach(s, After(s1, a))
  {
    var run :| Steps(s, run, s1) && forall b | b in run :: !Fails(b);
    StepsExtend(s, run, s1, a);
  }

  lemma CanReachItself(s: Server)
    ensures CanReach(s, s)
  {
    assert Steps(s, [], s);
  }

  /** A start that is replaying its table, with nothing else going on and every topic so far subscribed. */
  ghost predicate OnlyReplaying(s: Server) {
    && s.control.Replaying? && !s.control.broken && s.started && s.threads == map[] && s.lock == None
    && s.opts.Keys == s.subscribers.Keys && s.opts.Keys !! s.control.todo.Keys
  }

  lemma ReplayOne(s: Server, s1: Server, topic: Topic) returns (s': Server)
    requires CanReach(s, s1) && OnlyReplaying(s1) && topic in s1.control.todo
    ensures CanReach(s, s') && OnlyReplaying(s')
    ensures s'.control.todo == s1.control.todo - {topic} && s'.opts.Keys == s1.opts.Keys + {topic}
  {
    CanReachMore(s, s1, Replay(topic));
    var s2 := After(s1, Replay(topic));
    CanReachMore(s, s2, Subscribe(REPLAY, true));
    var s3 := After(s2, Subscribe(REPLAY, true));
    s' := RecordOne(s, s3, topic);
  }

  lemma RecordOne(s: Server, s1: Server, topic: Topic) returns (s': Server)
    requires CanReach(s, s1) && s1.control.Replaying? && !s1.control.broken && s1.started && s1.lock == None
    requires s1.threads.Keys == {REPLAY} && s1.threads[REPLAY].Subscribed? && s1.threads[REPLAY].topic == topic
    requires s1.opts.Keys == s1.subscribers.Keys && topic !in s1.opts
    requires s1.opts.Keys !! s1.control.todo.Keys && topic !in s1.control.todo
    ensures CanReach(s, s') && OnlyReplaying(s')
    ensures s'.control == s1.control && s'.opts.Keys == s1.opts.Keys + {topic}
  {
    CanReachMore(s, s1, Reload(REPLAY));
    var s2 := After(s1, Reload(REPLAY));
    CanReachMore(s, s2, Record(REPLAY));
    s' := After(s2, Record(REPLAY));
    assert s'.threads.Keys == {};
  }

  lemma MapShrinks<V>(m: map<Topic, V>, topic: Topic)
    requires topic in m
    ensures |m - {topic}| < |m|
  {
    var rest := m - {topic};
    assert m == rest[topic := m[topic]];
  }

  lemma KeysMoveOver<V>(done: set<Topic>, todo: map<Topic, V>, topic: Topic)
    requires topic in todo
    ensures (done + {topic}) + (todo - {topic}).Keys == done + todo.Keys
  {
  }

  lemma {:induction false} ReplayAll(s: Server, s1: Server) returns (s': Server)
    requires CanReach(s, s1) && OnlyReplaying(s1)
    ensures CanReach(s, s') && OnlyReplaying(s') && s'.control.todo == map[]
    ensures s'.opts.Keys == s1.opts.Keys + s1.control.todo.Keys
    decreases |s1.control.todo|
  {
    if s1.control.todo == map[] {
      s' := s1;
    } else {
      var topic :| topic in s1.control.todo;
      var s2 := ReplayOne(s, s1, topic);
      MapShrinks(s1.control.todo, topic);
      s' := ReplayAll(s, s2);
      KeysMoveOver(s1.opts.Keys, s1.control.todo, topic);
    }
  }

  /**
   A settled, stopped server whose start is not refused can be started, and if its
   subscriptions succeed it settles again, subscribed to exactly the topics on record.
   */
  lemma StartBringsBack(s: Server) returns (s': Server)
    requires Reachable(s) && Settled(s) && !s.started && After(s, StartCalled(true)).control == Connected
    ensures CanReach(s, s') && Settled(s') && s'.started
    ensures s'.subscribers.Keys == s'.opts.Keys == s.opts.Keys
  {
    ReachableInv(s);
    CanReachItself(s);
    CanReachMore(s, s, StartCalled(true));
    var s1 := After(s, StartCalled(true));
    CanReachMore(s, s1, RaiseFlag);
    var s2 := After(s1, RaiseFlag);
    CanReachMore(s, s2, TakeTable);
    var s3 := ReplayAll(s, After(s2, TakeTable));
    CanReachMore(s, s3, StartReturns);
    s' := After(s3, StartReturns);
  }

  lemma {:induction false} DrainAll(s: Server, s1: Server) returns (s': Server)
    requires CanReach(s, s1) && s1.control.Draining?
    ensures CanReach(s, s') && s' == s1.(live := s'.live, control := Draining(map[]))
    decreases |if s1.control.Draining? then s1.control.left else map[]|
  {
    if s1.control.left == map[] {
      s' := s1;
    } else {
      var topic :| topic in s1.control.left;
      CanReachMore(s, s1, Drain(topic));
      MapShrinks(s1.control.left, topic);
      s' := DrainAll(s, After(s1, Drain(topic)));
    }
  }

  /** A settled, started server can be stopped, keeps its record, and can then be started again. */
  lemma StopBringsDown(s: Server) returns (s': Server)
    requires Reachable(s) && Settled(s) && s.started
    ensures CanReach(s, s') && Settled(s') && !s'.started
    ensures s'.opts == s.opts && s'.subscribers == map[] && After(s', StartCalled(true)).control == Connected
  {
    ReachableInv(s);
    var s1 := SubscribersTaken(s);
    var s2 := DrainAll(s, s1);
    CanReachMore(s, s2, StopReturns);
    s' := After(s2, StopReturns);
  }

  lemma SubscribersTaken(s: Server) returns (s': Server)
    requires LockInv(s) && Settled(s) && s.started
    ensures CanReach(s, s') && s'.control.Draining? && !s'.started && s'.threads == map[]
    ensures s'.opts == s.opts && s'.subscribers == map[]
  {
    CanReachItself(s);
    CanReachMore(s, s, StopCalled);
    var s1 := After(s, StopCalled);
    CanReachMore(s, s1, LowerFlag);
    var s2 := After(s1, LowerFlag);
    CanReachMore(s, s2, TakeSubscribers);
    s' := After(s2, TakeSubscribers);
  }
}
