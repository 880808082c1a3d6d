/**
 The subscription lifecycle of the message queue servers (transport/kafka/server.go;
 the other broker servers carry the same code).

 Any number of goroutines call `RegisterSubscriber` while one caller starts and stops
 the server without overlapping itself. `started` is an atomic flag that `Start` and
 `Stop` write outside the lock, so a lock section is two steps here: one that takes the
 lock and loads the flag, and one that writes the tables and releases the lock. The flag
 can change in between. `Subscribe` creates a fresh live subscription or fails,
 `Unsubscribe` kills one, and the broker may kill any subscription at any time.
 */
module Lifecycle {
  import opened Options

  type Topic = string
  type Sub = nat

  /** Everything `RegisterSubscriber` was called with besides the topic. */
  type Registration = string

  /** Where one registration is; thread 0 is `Start` replaying its table. */
  datatype Pc =
    | Entering(topic: Topic, reg: Registration)
    | Entered(topic: Topic, reg: Registration, loaded: bool)
    | Subscribing(topic: Topic, reg: Registration)
    | Subscribed(topic: Topic, reg: Registration, sub: Sub)
    | Recording(topic: Topic, reg: Registration, sub: Sub, loaded: bool)
    | Dropping(topic: Topic, sub: Sub)

  /** Where the caller of `Start` and `Stop` is. */
  datatype Control =
    | Idle
    | Connected
    | Flagged
    | Replaying(todo: map<Topic, Registration>, broken: bool)
    | Stopping
    | Unflagged
    | Draining(left: map<Topic, Sub>)

  const REPLAY: nat := 0

  /**
   `registered`, `lost` and `given` are history: the topics ever registered, those whose
   `Subscribe` failed while they were not on record, until a registration puts them on record
   again, and everything that registrations were called with.
   */
  datatype Server = Server(
    started: bool, err: bool, subscribers: map<Topic, Sub>, opts: map<Topic, Registration>,
    lock: Option<nat>, threads: map<nat, Pc>, control: Control,
    live: set<Sub>, next: Sub, registered: set<Topic>, lost: set<Topic>,
    given: set<(Topic, Registration)>)

  datatype Action =
    | Call(tid: nat, topic: Topic, reg: Registration)
    | Load(tid: nat)
    | Leave(tid: nat)
    | Subscribe(tid: nat, ok: bool)
    | Reload(tid: nat)
    | Record(tid: nat)
    | Drop(tid: nat)
    | Kill(sub: Sub)
    | StartCalled(ok: bool)
    | RaiseFlag
    | TakeTable
    | Replay(topic: Topic)
    | StartReturns
    | StopCalled
    | LowerFlag
    | TakeSubscribers
    | Drain(topic: Topic)
    | StopReturns

  // ---------- The step system ----------

  predicate Init(s: Server) {
    s == Server(false, false, map[], map[], None, map[], Idle, {}, 0, {}, {}, {})
  }

  predicate Enabled(s: Server, a: Action) {
    match a
    case Call(tid, _, _) => tid != REPLAY && tid !in s.threads
    case Load(tid) => tid in s.threads && s.threads[tid].Entering? && s.lock == None
    case Leave(tid) => tid in s.threads && s.threads[tid].Entered?
    case Subscribe(tid, _) => tid in s.threads && s.threads[tid].Subscribing?
    case Reload(tid) => tid in s.threads && s.threads[tid].Subscribed? && s.lock == None
    case Record(tid) => tid in s.threads && s.threads[tid].Recording?
    case Drop(tid) => tid in s.threads && s.threads[tid].Dropping?
    case Kill(_) => true
    case StartCalled(_) => s.control == Idle
    case RaiseFlag => s.control == Connected
    case TakeTable => s.control == Flagged && s.lock == None
    case Replay(topic) => s.control.Replaying? && REPLAY !in s.threads && topic in s.control.todo
    case StartReturns => s.control.Replaying? && REPLAY !in s.threads && s.control.todo == map[]
    case StopCalled => s.control == Idle
    case LowerFlag => s.control == Stopping
    case TakeSubscribers => s.control == Unflagged && s.lock == None
    case Drain(topic) => s.control.Draining? && topic in s.control.left
    case StopReturns => s.control.Draining? && s.control.left == map[]
  }

  function After(s: Server, a: Action): Server
    requires Enabled(s, a)
  {
    match a
    case Call(tid, topic, reg) =>
      s.(threads := s.threads[tid := Entering(topic, reg)], registered := s.registered + {topic},
         given := s.given + {(topic, reg)})
    case Load(tid) =>
      var pc := s.threads[tid];
      s.(threads := s.threads[tid := Entered(pc.topic, pc.reg, s.started)], lock := Some(tid))
    case Leave(tid) =>
      var pc := s.threads[tid];
      if pc.loaded then s.(threads := s.threads[tid := Subscribing(pc.topic, pc.reg)], lock := None)
      else
        s.(threads := s.threads - {tid}, lock := None,
           opts := s.opts[pc.topic := pc.reg], lost := s.lost - {pc.topic})
    case Subscribe(tid, ok) =>
      var pc := s.threads[tid];
      if ok then
        s.(threads := s.threads[tid := Subscribed(pc.topic, pc.reg, s.next)],
           live := s.live + {s.next}, next := s.next + 1)
      else
        s.(threads := s.threads - {tid}, lost := if pc.topic in s.opts then s.lost else s.lost + {pc.topic},
           control := if tid == REPLAY && s.control.Replaying? then s.control.(broken := true) else s.control)
    case Reload(tid) =>
      var pc := s.threads[tid];
      s.(threads := s.threads[tid := Recording(pc.topic, pc.reg, pc.sub, s.started)], lock := Some(tid))
    case Record(tid) => Recorded(s, tid)
    case Drop(tid) => s.(threads := s.threads - {tid}, live := s.live - {s.threads[tid].sub})
    case Kill(sub) => s.(live := s.live - {sub})
    case StartCalled(ok) =>
      if s.err || s.started then s
      else if !ok then s.(err := true)
      else s.(control := Connected)
    case RaiseFlag => s.(started := true, control := Flagged)
    case TakeTable => s.(control := Replaying(s.opts, false), opts := map[])
    case Replay(topic) =>
      s.(threads := s.threads[REPLAY := Subscribing(topic, s.control.todo[topic])],
         control := s.control.(todo := s.control.todo - {topic}))
    case StartReturns => s.(err := s.control.broken, control := Idle)
    case StopCalled => if s.started then s.(control := Stopping) else s.(err := false)
    case LowerFlag => s.(started := false, control := Unflagged)
    case TakeSubscribers => s.(control := Draining(s.subscribers), subscribers := map[])
    case Drain(topic) =>
      s.(live := s.live - {s.control.left[topic]}, control := Draining(s.control.left - {topic}))
    case StopReturns => s.(err := false, control := Idle)
  }

  /** The second half of the lock section in `doRegisterSubscriber`. */
  function Recorded(s: Server, tid: nat): Server
    requires tid in s.threads && s.threads[tid].Recording?
  {
    var pc := s.threads[tid];
    var s1 := s.(opts := s.opts[pc.topic := pc.reg], lost := s.lost - {pc.topic}, lock := None);
    if !pc.loaded then s1.(threads := s.threads[tid := Dropping(pc.topic, pc.sub)])
    else if pc.topic in s.subscribers then
      s1.(subscribers := s.subscribers[pc.topic := pc.sub],
          threads := s.threads[tid := Dropping(pc.topic, s.subscribers[pc.topic])])
    else s1.(subscribers := s.subscribers[pc.topic := pc.sub], threads := s.threads - {tid})
  }

  ghost predicate Steps(s: Server, run: seq<Action>, s': Server)
    decreases |run|
  {
    if run == [] then s' == s
    else Enabled(s, run[0]) && Steps(After(s, run[0]), run[1..], s')
  }

  ghost predicate Reachable(s: Server) {
    exists s0, run :: Init(s0) && Steps(s0, run, s)
  }

  // ---------- Ownership ----------

  /** The places that can be responsible for a subscription. */
  datatype Place = Table(topic: Topic) | Thread(tid: nat) | Snapshot(topic: Topic)

  predicate Holds(pc: Pc, sub: Sub) {
    (pc.Subscribed? || pc.Recording? || pc.Dropping?) && pc.sub == sub
  }

  predicate Owns(s: Server, p: Place, sub: Sub) {
    match p
    case Table(topic) => topic in s.subscribers && s.subscribers[topic] == sub
    case Thread(tid) => tid in s.threads && Holds(s.threads[tid], sub)
    case Snapshot(topic) => s.control.Draining? && topic in s.control.left && s.control.left[topic] == sub
  }

  /** Every live subscription has an owner, no subscription has two, and owned ones exist. */
  ghost predicate OwnerInv(s: Server) {
    && (forall sub | sub in s.live :: exists p :: Owns(s, p, sub))
    && (forall p, q, sub: Sub | Owns(s, p, sub) && Owns(s, q, sub) :: p == q)
    && (forall p, sub: Sub | Owns(s, p, sub) :: sub < s.next)
  }

  // ---------- The flag and the lock ----------

  predicate HasLock(pc: Pc) {
    pc.Entered? || pc.Recording?
  }

  ghost predicate LockInv(s: Server) {
    && (s.lock.Some? ==> s.lock.value in s.threads)
    && (forall tid | tid in s.threads :: HasLock(s.threads[tid]) <==> s.lock == Some(tid))
    && (REPLAY in s.threads ==> s.control.Replaying? && !s.threads[REPLAY].Entering? && !s.threads[REPLAY].Entered?)
  }

  /** A loaded flag can be out of date only between the store and the table swap that follows it. */
  ghost predicate FlagInv(s: Server) {
    && (s.control == Connected || s.control == Unflagged || s.control.Draining? ==> !s.started)
    && (s.control == Flagged || s.control.Replaying? || s.control == Stopping ==> s.started)
    && (forall tid | tid in s.threads && HasLock(s.threads[tid]) ::
          && (s.started && !s.threads[tid].loaded ==> s.control == Flagged)
          && (!s.started && s.threads[tid].Recording? && s.threads[tid].loaded ==> s.control == Unflagged))
    && (!s.started && s.control != Unflagged ==> s.subscribers == map[])
  }

  // ---------- Registrations ----------

  predicate Carries(pc: Pc, topic: Topic) {
    !pc.Dropping? && pc.topic == topic
  }

  /** The registration of `topic` is in a table, in somebody's hands, or lost. */
  ghost predicate Remembered(s: Server, topic: Topic) {
    || topic in s.opts
    || (s.control.Replaying? && topic in s.control.todo)
    || (exists tid :: tid in s.threads && Carries(s.threads[tid], topic))
    || topic in s.lost
  }

  ghost predicate RememberInv(s: Server) {
    forall topic | topic in s.registered :: Remembered(s, topic)
  }

  /** Only registered topics are anywhere, and a started server subscribes to all it has on record. */
  ghost predicate TableInv(s: Server) {
    && s.opts.Keys <= s.registered && s.subscribers.Keys <= s.registered
    && (s.control.Replaying? ==> s.control.todo.Keys <= s.registered)
    && (forall tid | tid in s.threads :: s.threads[tid].topic in s.registered)
    && (s.started && s.control != Flagged ==> s.opts.Keys <= s.subscribers.Keys)
  }

  /** What is lost was registered and is not on record. */
  ghost predicate LostInv(s: Server) {
    s.lost <= s.registered && s.lost !! s.opts.Keys
  }

  /** Every registration on record or under way is one that was made for its topic. */
  ghost predicate GivenInv(s: Server) {
    && (forall topic | topic in s.opts :: (topic, s.opts[topic]) in s.given)
    && (s.control.Replaying? ==> forall topic | topic in s.control.todo :: (topic, s.control.todo[topic]) in s.given)
    && (forall tid | tid in s.threads && !s.threads[tid].Dropping? ::
          (s.threads[tid].topic, s.threads[tid].reg) in s.given)
  }

  ghost predicate Inv(s: Server) {
    && OwnerInv(s) && LockInv(s) && FlagInv(s) && RememberInv(s) && TableInv(s) && LostInv(s) && GivenInv(s)
  }

  // ---------- Every step keeps every invariant ----------

  /** The steps of a registration that take or release the lock. */
  predicate OfLock(a: Action) {
    a.Load? || a.Leave? || a.Reload? || a.Record?
  }

  /** Where the subscription that `p` owns goes in step `a`. */
  function Moved(s: Server, a: Action, p: Place): Place
    requires Enabled(s, a)
  {
    match a
    case Record(tid) =>
      var pc := s.threads[tid];
      if !pc.loaded then p
      else if p == Thread(tid) then Table(pc.topic)
      else if p == Table(pc.topic) then Thread(tid)
      else p
    case TakeSubscribers => if p.Table? then Snapshot(p.topic) else if p.Snapshot? then Table(p.topic) else p
    case _ => p
  }

  /** `Moved` only swaps places, so it is its own inverse: what `p` owns after the step comes from there. */
  lemma OwnerComesFrom(s: Server, a: Action, p: Place, sub: Sub)
    requires Enabled(s, a) && LockInv(s) && FlagInv(s) && Owns(After(s, a), p, sub)
    ensures Moved(s, a, Moved(s, a, p)) == p
    ensures (a.Subscribe? && a.ok && p == Thread(a.tid) && sub == s.next) || Owns(s, Moved(s, a, p), sub)
  {
    if OfLock(a) {
      OwnerComesFromOfLock(s, a, p, sub);
    }
  }

  lemma OwnerComesFromOfLock(s: Server, a: Action, p: Place, sub: Sub)
    requires OfLock(a) && Enabled(s, a) && LockInv(s) && FlagInv(s) && Owns(After(s, a), p, sub)
    ensures Moved(s, a, Moved(s, a, p)) == p && Owns(s, Moved(s, a, p), sub)
  {
  }

  lemma OwnerGoesTo(s: Server, a: Action, p: Place, sub: Sub)
    requires Enabled(s, a) && LockInv(s) && FlagInv(s)
    requires Owns(s, p, sub) && sub in After(s, a).live
    ensures Owns(After(s, a), Moved(s, a, p), sub)
  {
    if OfLock(a) {
      OwnerGoesToOfLock(s, a, p, sub);
    }
  }

  lemma OwnerGoesToOfLock(s: Server, a: Action, p: Place, sub: Sub)
    requires OfLock(a)
    requires Enabled(s, a) && LockInv(s) && FlagInv(s)
    requires Owns(s, p, sub) && sub in After(s, a).live
    ensures Owns(After(s, a), Moved(s, a, p), sub)
  {
  }

  lemma OwnerStep(s: Server, a: Action)
    requires Enabled(s, a) && OwnerInv(s) && LockInv(s) && FlagInv(s)
    ensures OwnerInv(After(s, a))
  {
    var s' := After(s, a);
    forall sub | sub in s'.live ensures exists p :: Owns(s', p, sub) {
      if sub in s.live {
        var p :| Owns(s, p, sub);
        OwnerGoesTo(s, a, p, sub);
      } else {
        assert Owns(s', Thread(a.tid), sub);
      }
    }
    forall p, q, sub: Sub | Owns(s', p, sub) && Owns(s', q, sub) ensures p == q {
      OwnerComesFrom(s, a, p, sub);
      OwnerComesFrom(s, a, q, sub);
    }
    forall p, sub: Sub | Owns(s', p, sub) ensures sub < s'.next {
      OwnerComesFrom(s, a, p, sub);
    }
  }

  lemma LockStep(s: Server, a: Action)
    requires Enabled(s, a) && LockInv(s)
    ensures LockInv(After(s, a))
  {
    if OfLock(a) {
      LockStepOfLock(s, a);
    }
  }

  lemma LockStepOfLock(s: Server, a: Action)
    requires OfLock(a)
    requires Enabled(s, a) && LockInv(s)
    ensures LockInv(After(s, a))
  {
  }

  lemma FlagStep(s: Server, a: Action)
    requires Enabled(s, a) && LockInv(s) && FlagInv(s)
    ensures FlagInv(After(s, a))
  {
    if OfLock(a) {
      FlagStepOfLock(s, a);
    }
  }

  lemma FlagStepOfLock(s: Server, a: Action)
    requires OfLock(a) && Enabled(s, a) && LockInv(s) && FlagInv(s)
    ensures FlagInv(After(s, a))
  {
  }

  lemma RememberedStep(s: Server, a: Action, topic: Topic)
    requires Enabled(s, a) && LockInv(s) && FlagInv(s) && Remembered(s, topic)
    ensures Remembered(After(s, a), topic)
  {
    var s' := After(s, a);
    if tid :| tid in s.threads && Carries(s.threads[tid], topic) {
      CarrierStep(s, a, topic, tid);
    } else if a == Replay(topic) {
      assert Carries(s'.threads[REPLAY], topic);
    }
  }

  /** Thread `tid` carries `topic` on, or the topic is on record or lost. */
  ghost predicate Kept(s: Server, topic: Topic, tid: nat) {
    (tid in s.threads && Carries(s.threads[tid], topic)) || topic in s.opts || topic in s.lost
  }

  lemma CarrierStep(s: Server, a: Action, topic: Topic, tid: nat)
    requires Enabled(s, a) && LockInv(s) && tid in s.threads && Carries(s.threads[tid], topic)
    ensures Kept(After(s, a), topic, tid)
  {
    if OfLock(a) {
      CarrierStepOfLock(s, a, topic, tid);
    }
  }

  lemma CarrierStepOfLock(s: Server, a: Action, topic: Topic, tid: nat)
    requires OfLock(a) && Enabled(s, a) && tid in s.threads && Carries(s.threads[tid], topic)
    ensures Kept(After(s, a), topic, tid)
  {
  }

  lemma RememberInvStep(s: Server, a: Action)
    requires Enabled(s, a) && LockInv(s) && FlagInv(s) && RememberInv(s)
    ensures RememberInv(After(s, a))
  {
    var s' := After(s, a);
    forall topic | topic in s'.registered ensures Remembered(s', topic) {
      if topic in s.registered {
        RememberedStep(s, a, topic);
      } else {
        assert Carries(s'.threads[a.tid], topic);
      }
    }
  }

  lemma TableStep(s: Server, a: Action)
    requires Enabled(s, a) && LockInv(s) && FlagInv(s) && TableInv(s)
    ensures TableInv(After(s, a))
  {
    if OfLock(a) {
      TableStepOfLock(s, a);
    }
  }

  lemma TableStepOfLock(s: Server, a: Action)
    requires OfLock(a)
    requires Enabled(s, a) && LockInv(s) && FlagInv(s) && TableInv(s)
    ensures TableInv(After(s, a))
  {
    if a.Record? {
      TableRecord(s, a.tid);
    }
  }

  lemma TableRecord(s: Server, tid: nat)
    requires Enabled(s, Record(tid)) && LockInv(s) && FlagInv(s) && TableInv(s)
    ensures TableInv(Recorded(s, tid))
  {
    assert s.threads[tid].topic in s.registered;
  }

  lemma LostStep(s: Server, a: Action)
    requires Enabled(s, a) && TableInv(s) && LostInv(s)
    ensures LostInv(After(s, a))
  {
  }

  lemma GivenStep(s: Server, a: Action)
    requires Enabled(s, a) && GivenInv(s)
    ensures GivenInv(After(s, a))
  {
    if OfLock(a) {
      GivenStepOfLock(s, a);
    }
  }

  lemma GivenStepOfLock(s: Server, a: Action)
    requires OfLock(a) && Enabled(s, a) && GivenInv(s)
    ensures GivenInv(After(s, a))
  {
    assert (s.threads[a.tid].topic, s.threads[a.tid].reg) in s.given;
  }

  lemma {:induction false} InvHolds(s: Server, run: seq<Action>, s': Server)
    requires Inv(s) && Steps(s, run, s')
    ensures Inv(s')
    decreases |run|
  {
    if run != [] {
      OwnerStep(s, run[0]);
      LockStep(s, run[0]);
      FlagStep(s, run[0]);
      RememberInvStep(s, run[0]);
      TableStep(s, run[0]);
      LostStep(s, run[0]);
      GivenStep(s, run[0]);
      InvHolds(After(s, run[0]), run[1..], s');
    }
  }

  lemma ReachableInv(s: Server)
    requires Reachable(s)
    ensures Inv(s)
  {
    var s0, run :| Init(s0) && Steps(s0, run, s);
    InvHolds(s0, run, s);
  }
}
