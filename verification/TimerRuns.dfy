/**
 Whole runs of the timer engine: any number of goroutines calling `AddTask` and
 `RemoveTask`, contexts cancelled from outside, the main loop, and one caller that
 starts and stops the engine without overlapping itself.

 Every critical section is one step, and so is every check made outside the lock. The
 steps reuse the sections of `TimerEngine`, which the class `HighPrecisionTimer`
 implements on the heap. Beside the engine's own state the system keeps a history:
 each accepted insertion is an instance with a number, each dequeue is recorded with
 the clock reading it used, and `fired` lists the dequeues that reached the observer.
 */
module TimerRuns {
  import opened Options
  import opened TimerTasks
  import opened TimerEngine

  /** `from` is the dequeue whose repetition inserted this instance, if any. */
  datatype Insertion = Insertion(task: TimerTask, from: Option<nat>)

  /** `era` is the number of insertions accepted before this dequeue. */
  datatype Dequeue = Dequeue(instance: nat, now: Time, era: nat)

  datatype Fate = Pending | InHand | Removed | Skipped | Triggered

  /** Where the main loop is; `d` numbers the dequeue it is working on. */
  datatype Loop =
    | Gone
    | Top
    | Napping
    | Parked(deadline: Time)
    | Holding(d: nat)
    | Notifying(d: nat)
    | InCallback(d: nat)
    | Repeating(d: nat, at: Time)

  /** Where the caller of `Stop` is. */
  datatype Control = Resting | Cancelled | Joining

  datatype Sys = Sys(
    core: Core, queued: map<string, nat>, accepted: seq<Insertion>, fates: seq<Fate>,
    deqs: seq<Dequeue>, fired: seq<nat>, loop: Loop, control: Control, clock: Time)

  datatype Action =
    | Tick(to: Time)
    | CancelContexts(ids: set<nat>)
    | DeriveContext
    | Add(task: Option<TimerTask>, next: CronNext)
    | Remove(id: string)
    | Pass(decision: Decision)
    | NapOver
    | TimerFires
    | TakeToken
    | SeeDone
    | Inspect
    | Notify
    | Return(next: CronNext)
    | Requeue
    | Start
    | StopCancels
    | StopSection
    | StopReturns

  // ---------- The step system ----------

  ghost predicate Init(s: Sys) {
    && s.core == Core(map[], NoTimer, false, false, false, {}, s.core.serial)
    && s == Sys(s.core, map[], [], [], [], [], Gone, Resting, s.clock)
  }

  /** The task of dequeue `d`. */
  function TaskOf(s: Sys, d: nat): TimerTask
    requires d < |s.deqs| && s.deqs[d].instance < |s.accepted|
  {
    s.accepted[s.deqs[d].instance].task
  }

  /** The loop is between a dequeue and its next pass. */
  predicate Working(l: Loop) {
    l.Holding? || l.Notifying? || l.InCallback? || l.Repeating?
  }

  /** The loop works on a dequeue that exists. */
  predicate AtWork(s: Sys) {
    Working(s.loop) ==> s.loop.d < |s.deqs| && s.deqs[s.loop.d].instance < |s.accepted| == |s.fates|
  }

  predicate AtWorkTask(s: Sys) {
    AtWork(s) && Working(s.loop)
  }

  ghost predicate Enabled(s: Sys, a: Action) {
    match a
    case Tick(to) => s.clock <= to
    case CancelContexts(ids) => true
    case DeriveContext => true
    case Add(task, next) => true
    case Remove(id) => s.core.pending.Keys == s.queued.Keys && (id in s.queued ==> s.queued[id] < |s.fates|)
    case Pass(d) =>
      && s.loop == Top && LoopSection(s.core, s.clock, d, AfterPass(s.core, d))
      && (d.Fire? ==> d.task.id in s.queued && s.queued[d.task.id] < |s.fates|)
    case NapOver => s.loop == Napping
    case TimerFires => s.loop.Parked? && s.core.timer == Armed(s.loop.deadline) && s.loop.deadline <= s.clock
    case TakeToken => s.loop.Parked? && s.core.token
    case SeeDone => (s.loop == Napping || s.loop.Parked?) && s.core.ctxDone
    case Inspect => s.loop.Holding? && AtWork(s)
    case Notify => s.loop.Notifying? && AtWork(s)
    case Return(next) => s.loop.InCallback? && AtWork(s)
    case Requeue => s.loop.Repeating? && AtWork(s)
    case Start => s.control == Resting
    case StopCancels => s.control == Resting
    case StopSection => s.control == Cancelled
    case StopReturns => s.control == Joining && s.loop == Gone
  }

  function AfterPass(c: Core, d: Decision): Core {
    match d
    case Fire(t) => c.(pending := c.pending - {t.id})
    case Park(deadline) => c.(timer := Armed(deadline))
    case _ => c
  }

  /** An insertion attempt; `from` as in `Insertion`. */
  ghost function Inserted(s: Sys, task: Option<TimerTask>, next: CronNext, from: Option<nat>): Sys {
    var s1 := s.(core := AfterAdd(s.core, task, next));
    match Admitted(s.core, task, next)
    case None => s1
    case Some(t) =>
      s1.(queued := s.queued[t.id := |s.accepted|], accepted := s.accepted + [Insertion(t, from)],
          fates := s.fates + [Pending])
  }

  ghost function After(s: Sys, a: Action): Sys
    requires Enabled(s, a)
  {
    match a
    case Tick(to) => s.(clock := to)
    case CancelContexts(ids) => s.(core := s.core.(cancelled := s.core.cancelled + ids))
    case DeriveContext => s.(core := s.core.(serial := s.core.serial + 1))
    case Add(task, next) => Inserted(s, task, next, None)
    case Remove(id) =>
      if !CanRemove(s.core, id) then s
      else s.(core := AfterRemove(s.core, id), queued := s.queued - {id}, fates := s.fates[s.queued[id] := Removed])
    case Pass(d) => Passed(s, d)
    case NapOver => s.(loop := Top)
    case TimerFires => s.(loop := Top)
    case TakeToken => s.(core := s.core.(token := false, timer := Stopped(s.core.timer)), loop := Top)
    case SeeDone => s.(loop := Gone)
    case Inspect =>
      if TaskDone(TaskOf(s, s.loop.d), s.core.cancelled) then
        s.(fates := s.fates[s.deqs[s.loop.d].instance := Skipped], loop := Top)
      else s.(loop := Notifying(s.loop.d))
    case Notify =>
      s.(fates := s.fates[s.deqs[s.loop.d].instance := Triggered], fired := s.fired + [s.loop.d],
         loop := InCallback(s.loop.d))
    case Return(next) =>
      var t := TaskOf(s, s.loop.d);
      var at := RepeatAt(t, s.deqs[s.loop.d].now, next);
      if TaskDone(t, s.core.cancelled) || at.None? then s.(loop := Top)
      else s.(loop := Repeating(s.loop.d, at.value))
    case Requeue =>
      Inserted(s, Some(RepeatCopy(TaskOf(s, s.loop.d), s.loop.at)), ParseError, Some(s.loop.d)).(loop := Top)
    case Start =>
      if s.core.running then s else s.(core := AfterStart(s.core), loop := Top)
    case StopCancels => s.(core := s.core.(ctxDone := true), control := Cancelled)
    case StopSection =>
      s.(core := AfterStop(s.core), control := if s.core.running then Joining else Resting)
    case StopReturns => s.(control := Resting)
  }

  ghost function Passed(s: Sys, d: Decision): Sys
    requires Enabled(s, Pass(d))
  {
    var s1 := s.(core := AfterPass(s.core, d));
    match d
    case Exit => s1.(loop := Gone)
    case Nap => s1.(loop := Napping)
    case Park(deadline) => s1.(loop := Parked(deadline))
    case Fire(t) =>
      var k := s.queued[t.id];
      s1.(queued := s.queued - {t.id}, fates := s.fates[k := InHand],
          deqs := s.deqs + [Dequeue(k, s.clock, |s.accepted|)], loop := Holding(|s.deqs|))
  }

  /** `s'` is reached from `s` by the actions of `run`. */
  ghost predicate Steps(s: Sys, run: seq<Action>, s': Sys)
    decreases |run|
  {
    if run == [] then s' == s
    else Enabled(s, run[0]) && Steps(After(s, run[0]), run[1..], s')
  }

  // ---------- Invariants ----------

  /** The pending instances are exactly the queued tasks. */
  ghost predicate QueueInv(s: Sys) {
    && |s.fates| == |s.accepted|
    && s.queued.Keys == s.core.pending.Keys
    && (forall id | id in s.queued ::
          && s.queued[id] < |s.accepted| && s.fates[s.queued[id]] == Pending
          && s.accepted[s.queued[id]].task == s.core.pending[id] && s.core.pending[id].id == id)
    && (forall k | 0 <= k < |s.accepted| && s.fates[k] == Pending ::
          s.accepted[k].task.id in s.queued && s.queued[s.accepted[k].task.id] == k)
  }

  predicate Dequeued(f: Fate) {
    f == InHand || f == Skipped || f == Triggered
  }

  /** Every dequeue took a due task, with clock readings in order, and no instance twice. */
  ghost predicate DequeueInv(s: Sys) {
    && |s.fates| == |s.accepted|
    && (forall d | 0 <= d < |s.deqs| ::
          && s.deqs[d].instance < s.deqs[d].era <= |s.accepted| && Dequeued(s.fates[s.deqs[d].instance])
          && s.accepted[s.deqs[d].instance].task.at <= s.deqs[d].now <= s.clock)
    && (forall d, e | 0 <= d < e < |s.deqs| ::
          && s.deqs[d].instance != s.deqs[e].instance
          && s.deqs[d].now <= s.deqs[e].now && s.deqs[d].era <= s.deqs[e].era)
  }

  /** An instance left the queue for the loop only through a dequeue. */
  ghost predicate TakenInv(s: Sys) {
    && |s.fates| == |s.accepted|
    && (forall k | 0 <= k < |s.accepted| && Dequeued(s.fates[k]) ::
          exists d | 0 <= d < |s.deqs| :: s.deqs[d].instance == k)
  }

  /** The loop holds dequeue `d` and has neither skipped it nor shown it. */
  predicate Undecided(l: Loop, d: nat) {
    l == Holding(d) || l == Notifying(d)
  }

  /** Only the last dequeue can be in the loop's hands, and it is in hand only while undecided. */
  ghost predicate HandInv(s: Sys) {
    && AtWork(s)
    && (AtWorkTask(s) ==> s.loop.d == |s.deqs| - 1)
    && |s.fates| == |s.accepted|
    && (forall d | 0 <= d < |s.deqs| && s.deqs[d].instance < |s.accepted| ::
          s.fates[s.deqs[d].instance] == InHand <==> Undecided(s.loop, d))
    && (s.loop.InCallback? || s.loop.Repeating? ==> s.fates[s.deqs[s.loop.d].instance] == Triggered)
  }

  /** The observer saw exactly the triggered instances, in dequeue order. */
  ghost predicate FiredInv(s: Sys) {
    && |s.fates| == |s.accepted|
    && (forall i | 0 <= i < |s.fired| :: s.fired[i] < |s.deqs|)
    && (forall i, j | 0 <= i < j < |s.fired| :: s.fired[i] < s.fired[j])
    && (s.loop.Holding? || s.loop.Notifying? ==> forall i | 0 <= i < |s.fired| :: s.fired[i] < s.loop.d)
    && (forall d | 0 <= d < |s.deqs| && s.deqs[d].instance < |s.accepted| ::
          s.fates[s.deqs[d].instance] == Triggered <==> d in s.fired)
  }

  /** Until the next insertion, nothing pending precedes what was already dequeued. */
  ghost predicate OrderInv(s: Sys) {
    && (forall d | 0 <= d < |s.deqs| :: s.deqs[d].instance < |s.accepted|)
    && (forall d, id | 0 <= d < |s.deqs| && s.deqs[d].era == |s.accepted| && id in s.core.pending ::
          !Less(s.core.pending[id], TaskOf(s, d)))
    && (forall d, e | 0 <= d < e < |s.deqs| && s.deqs[d].era == s.deqs[e].era ::
          !Less(TaskOf(s, e), TaskOf(s, d)))
  }

  /** A repetition continues a dequeued task, at its reading plus the interval. */
  ghost predicate RepeatInv(s: Sys) {
    && (forall d | 0 <= d < |s.deqs| :: s.deqs[d].instance < |s.accepted|)
    && (forall k | 0 <= k < |s.accepted| && s.accepted[k].from.Some? ::
          Continues(s, s.accepted[k].task, k, s.accepted[k].from.value))
    && (s.loop.Repeating? && s.loop.d < |s.deqs| ==>
          Continues(s, RepeatCopy(TaskOf(s, s.loop.d), s.loop.at), |s.accepted|, s.loop.d))
  }

  ghost predicate Continues(s: Sys, t: TimerTask, k: nat, d: nat) {
    && d < |s.deqs| && s.deqs[d].instance < |s.accepted| && s.deqs[d].instance < k
    && t.id == TaskOf(s, d).id && t.interval == TaskOf(s, d).interval && t.ctx == TaskOf(s, d).ctx
    && (t.interval > 0 ==> t.at == s.deqs[d].now + t.interval)
  }

  /** The dequeue in the loop's hands has not been repeated yet. */
  ghost predicate UnrepeatedInv(s: Sys) {
    forall k | 0 <= k < |s.accepted| && s.accepted[k].from.Some? ::
      s.accepted[k].from.value < |s.deqs| && (AtWorkTask(s) ==> s.accepted[k].from.value != s.loop.d)
  }

  /** A parked loop is due no later than any pending task, or a wakeup is buffered. */
  ghost predicate WakeInv(s: Sys) {
    s.loop.Parked? ==>
      && s.core.timer != NoTimer
      && (s.core.timer == Armed(s.loop.deadline) || s.core.ctxDone)
      && (s.core.token || forall id | id in s.core.pending :: s.loop.deadline <= s.core.pending[id].at)
  }

  /** How the loop and the caller of `Stop` depend on each other. */
  ghost predicate LifeInv(s: Sys) {
    && (s.control == Joining ==> !s.core.running && s.core.ctxDone)
    && (s.control == Cancelled ==> s.core.ctxDone)
    && (s.loop != Gone ==> s.core.running || s.control == Joining)
    && (s.core.running && s.control == Resting ==> s.loop != Gone && !s.core.ctxDone)
    && (!s.core.running ==> !s.core.timer.Armed?)
  }

  /** Admitted tasks have a context; while stopped, every pending task that can be cancelled is. */
  ghost predicate StopInv(s: Sys) {
    && (forall k | 0 <= k < |s.accepted| :: s.accepted[k].task.ctx.Some? && s.accepted[k].task.id != "")
    && (!s.core.running ==> forall id | id in s.core.pending && Controlled(s.core.pending[id]) ::
          TaskDone(s.core.pending[id], s.core.cancelled))
  }

  ghost predicate Inv(s: Sys) {
    && QueueInv(s) && DequeueInv(s) && TakenInv(s) && HandInv(s) && FiredInv(s) && OrderInv(s)
    && RepeatInv(s) && UnrepeatedInv(s) && WakeInv(s) && LifeInv(s) && StopInv(s)
  }

  // ---------- What a step does to the history ----------

  datatype Kind =
    | Inserting(task: TimerTask, from: Option<nat>)
    | Removal(id: string)
    | Taking(task: TimerTask)
    | Verdict
    | Quiet

  ghost function KindOf(s: Sys, a: Action): Kind
    requires Enabled(s, a)
  {
    match a
    case Add(task, next) =>
      var t := Admitted(s.core, task, next);
      if t.Some? then Inserting(t.value, None) else Quiet
    case Requeue =>
      var t := Admitted(s.core, Some(RepeatCopy(TaskOf(s, s.loop.d), s.loop.at)), ParseError);
      if t.Some? then Inserting(t.value, Some(s.loop.d)) else Quiet
    case Remove(id) => if CanRemove(s.core, id) then Removal(id) else Quiet
    case Pass(Fire(t)) => Taking(t)
    case Inspect => if TaskDone(TaskOf(s, s.loop.d), s.core.cancelled) then Verdict else Quiet
    case Notify => Verdict
    case _ => Quiet
  }

  ghost predicate SameHistory(s: Sys, s': Sys) {
    && s'.queued == s.queued && s'.core.pending == s.core.pending && s'.accepted == s.accepted
    && s'.fates == s.fates && s'.deqs == s.deqs && s'.fired == s.fired
  }

  ghost predicate Fits(s: Sys, s': Sys, k: Kind) {
    && s.clock <= s'.clock
    && match k
       case Inserting(t, from) =>
         && s'.accepted == s.accepted + [Insertion(t, from)] && s'.fates == s.fates + [Pending]
         && s'.queued == s.queued[t.id := |s.accepted|] && s'.core.pending == s.core.pending[t.id := t]
         && t.id !in s.core.pending && t.ctx.Some? && t.id != ""
         && s'.deqs == s.deqs && s'.fired == s.fired
         && (from.None? ==> s'.loop == s.loop)
         && (from.Some? ==> s.loop.Repeating? && s.loop.d == from.value && s'.loop == Top)
       case Removal(id) =>
         && id in s.queued && s.queued[id] < |s.fates|
         && s'.queued == s.queued - {id} && s'.core.pending == s.core.pending - {id}
         && s'.fates == s.fates[s.queued[id] := Removed]
         && s'.accepted == s.accepted && s'.deqs == s.deqs && s'.fired == s.fired && s'.loop == s.loop
       case Taking(t) =>
         && IsNext(t, s.core.pending) && t.at <= s.clock
         && t.id in s.queued && s.queued[t.id] < |s.fates|
         && s'.queued == s.queued - {t.id} && s'.core.pending == s.core.pending - {t.id}
         && s'.fates == s.fates[s.queued[t.id] := InHand]
         && s'.deqs == s.deqs + [Dequeue(s.queued[t.id], s.clock, |s.accepted|)]
         && s'.accepted == s.accepted && s'.fired == s.fired
         && s.loop == Top && s'.loop == Holding(|s.deqs|)
       case Verdict =>
         && AtWorkTask(s)
         && s'.queued == s.queued && s'.core == s.core && s'.accepted == s.accepted && s'.deqs == s.deqs
         && (var i := s.deqs[s.loop.d].instance;
             || (s.loop.Holding? && s'.fates == s.fates[i := Skipped] && s'.fired == s.fired && s'.loop == Top)
             || (&& s.loop.Notifying? && s'.fates == s.fates[i := Triggered]
                 && s'.fired == s.fired + [s.loop.d] && s'.loop == InCallback(s.loop.d)))
       case Quiet =>
         && SameHistory(s, s')
         && (|| s'.loop == s.loop
             || (!s.loop.Holding? && !s.loop.Notifying? && !Working(s'.loop))
             || (&& s.loop.Holding? && AtWork(s) && !TaskDone(TaskOf(s, s.loop.d), s.core.cancelled)
                 && s'.loop == Notifying(s.loop.d))
             || (s.loop.InCallback? && s'.loop.Repeating? && s'.loop.d == s.loop.d))
  }

  lemma ClassifyInsertion(s: Sys, task: Option<TimerTask>, next: CronNext, from: Option<nat>)
    requires Admitted(s.core, task, next).Some?
    requires from.Some? ==> s.loop.Repeating? && s.loop.d == from.value
    ensures var s' := Inserted(s, task, next, from);
            var kind := Inserting(Admitted(s.core, task, next).value, from);
            Fits(s, if from.Some? then s'.(loop := Top) else s', kind)
  {
  }

  lemma ClassifyPass(s: Sys, d: Decision)
    requires Enabled(s, Pass(d))
    ensures Fits(s, Passed(s, d), if d.Fire? then Taking(d.task) else Quiet)
  {
  }

  lemma Classify(s: Sys, a: Action)
    requires Enabled(s, a) && QueueInv(s) && LifeInv(s)
    ensures Fits(s, After(s, a), KindOf(s, a))
  {
    match a
    case Add(task, next) =>
      if Admitted(s.core, task, next).Some? {
        ClassifyInsertion(s, task, next, None);
      }
    case Requeue =>
      var copy := Some(RepeatCopy(TaskOf(s, s.loop.d), s.loop.at));
      if Admitted(s.core, copy, ParseError).Some? {
        ClassifyInsertion(s, copy, ParseError, Some(s.loop.d));
      }
    case Pass(d) => ClassifyPass(s, d);
    case Remove(id) => ClassifyRemove(s, id);
    case Inspect => ClassifyWork(s, a);
    case Notify => ClassifyWork(s, a);
    case Return(_) => ClassifyWork(s, a);
    case _ => ClassifyRest(s, a);
  }

  lemma ClassifyRest(s: Sys, a: Action)
    requires Enabled(s, a) && LifeInv(s) && !a.Add? && !a.Requeue? && !a.Pass? && !a.Remove?
    requires !a.Inspect? && !a.Notify? && !a.Return?
    ensures Fits(s, After(s, a), KindOf(s, a))
  {
  }

  lemma ClassifyRemove(s: Sys, id: string)
    requires Enabled(s, Remove(id))
    ensures Fits(s, After(s, Remove(id)), KindOf(s, Remove(id)))
  {
  }

  lemma ClassifyWork(s: Sys, a: Action)
    requires Enabled(s, a) && (a.Inspect? || a.Notify? || a.Return?)
    ensures Fits(s, After(s, a), KindOf(s, a))
  {
  }

  // ---------- Every step keeps every invariant ----------

  lemma QueueStep(s: Sys, s': Sys, k: Kind)
    requires Fits(s, s', k) && QueueInv(s)
    requires (s.loop.Holding? || s.loop.Notifying?) && AtWork(s) ==> s.fates[s.deqs[s.loop.d].instance] == InHand
    ensures QueueInv(s')
  {
    match k
    case Inserting(t, from) =>
      forall i | 0 <= i < |s'.accepted| && s'.fates[i] == Pending
        ensures s'.accepted[i].task.id in s'.queued && s'.queued[s'.accepted[i].task.id] == i
      {
        assert i < |s.accepted| ==> s.fates[i] == Pending && s.accepted[i] == s'.accepted[i];
      }
    case Removal(id) => QueueLoses(s, s', id);
    case Taking(t) => QueueLoses(s, s', t.id);
    case Verdict =>
    case Quiet =>
  }

  lemma QueueLoses(s: Sys, s': Sys, id: string)
    requires QueueInv(s) && id in s.queued
    requires s'.accepted == s.accepted && s'.queued == s.queued - {id} && s'.core.pending == s.core.pending - {id}
    requires |s'.fates| == |s.fates| && s'.fates[s.queued[id]] != Pending
    requires forall i | 0 <= i < |s.fates| && i != s.queued[id] :: s'.fates[i] == s.fates[i]
    ensures QueueInv(s')
  {
    forall i | 0 <= i < |s'.accepted| && s'.fates[i] == Pending
      ensures s'.accepted[i].task.id in s'.queued && s'.queued[s'.accepted[i].task.id] == i
    {
      assert s.fates[i] == Pending;
      assert s.queued[s.accepted[i].task.id] == i;
    }
    forall other | other in s'.queued
      ensures s.queued[other] != s.queued[id]
    {
      assert s.core.pending[other].id == other && s.core.pending[id].id == id;
    }
  }

  lemma DequeueStep(s: Sys, s': Sys, k: Kind)
    requires Fits(s, s', k) && QueueInv(s) && DequeueInv(s)
    ensures DequeueInv(s')
  {
  }

  lemma TakenStep(s: Sys, s': Sys, k: Kind)
    requires Fits(s, s', k) && QueueInv(s) && TakenInv(s)
    ensures TakenInv(s')
  {
    forall i | 0 <= i < |s'.accepted| && Dequeued(s'.fates[i])
      ensures exists d | 0 <= d < |s'.deqs| :: s'.deqs[d].instance == i
    {
      if k.Taking? && i == s.queued[k.task.id] {
        assert s'.deqs[|s.deqs|].instance == i;
      } else if k.Verdict? && i == s.deqs[s.loop.d].instance {
        assert s'.deqs[s.loop.d].instance == i;
      } else {
        var d :| 0 <= d < |s.deqs| && s.deqs[d].instance == i;
        assert s'.deqs[d].instance == i;
      }
    }
  }

  lemma HandStep(s: Sys, s': Sys, k: Kind)
    requires Fits(s, s', k) && QueueInv(s) && DequeueInv(s) && HandInv(s)
    ensures HandInv(s')
  {
    if k.Verdict? || k.Quiet? {
      HandMoves(s, s', k);
    } else {
      HandStays(s, s', k);
    }
  }

  lemma HandMoves(s: Sys, s': Sys, k: Kind)
    requires Fits(s, s', k) && (k.Verdict? || k.Quiet?) && DequeueInv(s) && HandInv(s)
    ensures HandInv(s')
  {
  }

  lemma HandStays(s: Sys, s': Sys, k: Kind)
    requires Fits(s, s', k) && !k.Verdict? && !k.Quiet? && QueueInv(s) && DequeueInv(s) && HandInv(s)
    ensures HandInv(s')
  {
    match k
    case Inserting(t, from) =>
    case Removal(id) => assert s.fates[s.queued[id]] == Pending;
    case Taking(t) => assert s.fates[s.queued[t.id]] == Pending;
  }

  lemma FiredStep(s: Sys, s': Sys, k: Kind)
    requires Fits(s, s', k) && QueueInv(s) && DequeueInv(s) && HandInv(s) && FiredInv(s)
    ensures FiredInv(s')
  {
    if k.Verdict? {
      FiredOnVerdict(s, s');
    } else {
      FiredOtherwise(s, s', k);
    }
  }

  lemma FiredOnVerdict(s: Sys, s': Sys)
    requires Fits(s, s', Verdict) && DequeueInv(s) && HandInv(s) && FiredInv(s)
    ensures FiredInv(s')
  {
  }

  lemma FiredOtherwise(s: Sys, s': Sys, k: Kind)
    requires Fits(s, s', k) && !k.Verdict? && QueueInv(s) && DequeueInv(s) && FiredInv(s)
    ensures FiredInv(s')
  {
  }

  lemma OrderStep(s: Sys, s': Sys, k: Kind)
    requires Fits(s, s', k) && QueueInv(s) && DequeueInv(s) && OrderInv(s)
    ensures OrderInv(s')
  {
    DequeuesExist(s, s', k);
    assert forall d | 0 <= d < |s.deqs| :: TaskOf(s', d) == TaskOf(s, d);
    match k
    case Taking(t) => OrderTaking(s, s', t);
    case Inserting(_, _) => assert forall d | 0 <= d < |s.deqs| :: s.deqs[d].era < |s'.accepted|;
    case Removal(id) => assert forall i | i in s'.core.pending :: s'.core.pending[i] == s.core.pending[i];
    case _ =>
  }

  lemma OrderTaking(s: Sys, s': Sys, t: TimerTask)
    requires Fits(s, s', Taking(t)) && QueueInv(s) && OrderInv(s)
    requires forall d | 0 <= d < |s'.deqs| :: s'.deqs[d].instance < |s'.accepted|
    requires forall d | 0 <= d < |s.deqs| :: TaskOf(s', d) == TaskOf(s, d)
    ensures OrderInv(s')
  {
    var n := |s.deqs|;
    assert TaskOf(s', n) == t;
    assert forall id | id in s'.core.pending :: s'.core.pending[id] == s.core.pending[id];
    forall d, e | 0 <= d < e < |s'.deqs| && s'.deqs[d].era == s'.deqs[e].era
      ensures !Less(TaskOf(s', e), TaskOf(s', d))
    {
      if e == n {
        assert s.deqs[d].era == |s.accepted|;
        assert !Less(s.core.pending[t.id], TaskOf(s, d));
      }
    }
  }

  lemma ContinuesStill(s: Sys, s': Sys, kind: Kind, t: TimerTask, k: nat, k': nat, d: nat)
    requires Fits(s, s', kind) && Continues(s, t, k, d) && k <= k'
    ensures Continues(s', t, k', d)
  {
  }

  lemma RepeatStep(s: Sys, a: Action)
    requires Enabled(s, a) && Fits(s, After(s, a), KindOf(s, a))
    requires DequeueInv(s) && HandInv(s) && RepeatInv(s) && StopInv(s)
    ensures RepeatInv(After(s, a))
  {
    var s', kind := After(s, a), KindOf(s, a);
    DequeuesExist(s, s', kind);
    forall k | 0 <= k < |s'.accepted| && s'.accepted[k].from.Some?
      ensures Continues(s', s'.accepted[k].task, k, s'.accepted[k].from.value)
    {
      if k < |s.accepted| {
        assert s'.accepted[k] == s.accepted[k];
        ContinuesStill(s, s', kind, s.accepted[k].task, k, k, s.accepted[k].from.value);
      } else {
        assert a == Requeue && s'.accepted[k].from == Some(s.loop.d);
        RequeueContinues(s);
        ContinuesStill(s, s', kind, s'.accepted[k].task, |s.accepted|, k, s.loop.d);
      }
    }
    if s'.loop.Repeating? {
      var copy := RepeatCopy(TaskOf(s, s'.loop.d), s'.loop.at);
      RepeatingContinues(s, a);
      ContinuesStill(s, s', kind, copy, |s.accepted|, |s'.accepted|, s'.loop.d);
    }
  }

  /** The copy is queued as it is: it has a context and a deadline already. */
  lemma RequeueContinues(s: Sys)
    requires Enabled(s, Requeue) && RepeatInv(s) && StopInv(s)
    ensures var t := Admitted(s.core, Some(RepeatCopy(TaskOf(s, s.loop.d), s.loop.at)), ParseError);
            t.Some? ==> Continues(s, t.value, |s.accepted|, s.loop.d)
  {
  }

  lemma RepeatingContinues(s: Sys, a: Action)
    requires Enabled(s, a) && DequeueInv(s) && RepeatInv(s) && HandInv(s) && After(s, a).loop.Repeating?
    ensures var (d, at) := (After(s, a).loop.d, After(s, a).loop.at);
            && d < |s.deqs| && s.deqs[d].instance < |s.accepted|
            && Continues(s, RepeatCopy(TaskOf(s, d), at), |s.accepted|, d)
  {
    var s' := After(s, a);
    assert s.loop.Repeating? ==> s.loop == s'.loop;
    assert !s.loop.Repeating? ==> a.Return? && s.loop == InCallback(s'.loop.d);
  }

  lemma DequeuesExist(s: Sys, s': Sys, kind: Kind)
    requires Fits(s, s', kind) && |s.fates| == |s.accepted|
    requires forall d | 0 <= d < |s.deqs| :: s.deqs[d].instance < |s.accepted|
    ensures forall d | 0 <= d < |s'.deqs| :: s'.deqs[d].instance < |s'.accepted|
  {
  }

  lemma UnrepeatedStep(s: Sys, s': Sys, k: Kind)
    requires Fits(s, s', k) && HandInv(s) && UnrepeatedInv(s)
    ensures UnrepeatedInv(s')
  {
  }

  lemma WakeStep(s: Sys, a: Action)
    requires Enabled(s, a) && LifeInv(s) && WakeInv(s)
    ensures WakeInv(After(s, a))
  {
  }

  lemma LifeStep(s: Sys, a: Action)
    requires Enabled(s, a) && LifeInv(s)
    ensures LifeInv(After(s, a))
  {
  }

  lemma StopStep(s: Sys, a: Action)
    requires Enabled(s, a) && Fits(s, After(s, a), KindOf(s, a)) && LifeInv(s) && StopInv(s)
    ensures StopInv(After(s, a))
  {
    var s' := After(s, a);
    assert s.core.cancelled <= s'.core.cancelled;
    forall id | !s'.core.running && id in s'.core.pending && Controlled(s'.core.pending[id])
      ensures TaskDone(s'.core.pending[id], s'.core.cancelled)
    {
      var t := s'.core.pending[id];
      assert id in s.core.pending && s.core.pending[id] == t;
      if s.core.running {
        assert a == StopSection;
        assert t.cancel.value in CancelsOf(s.core.pending);
        assert t.cancel.value in Lineage(t.ctx.value) * s'.core.cancelled;
      } else {
        assert Lineage(t.ctx.value) * s.core.cancelled <= Lineage(t.ctx.value) * s'.core.cancelled;
      }
    }
  }

  lemma InvStep(s: Sys, a: Action)
    requires Inv(s) && Enabled(s, a)
    ensures Inv(After(s, a))
  {
    var s', k := After(s, a), KindOf(s, a);
    Classify(s, a);
    QueueStep(s, s', k);
    DequeueStep(s, s', k);
    TakenStep(s, s', k);
    HandStep(s, s', k);
    FiredStep(s, s', k);
    OrderStep(s, s', k);
    RepeatStep(s, a);
    UnrepeatedStep(s, s', k);
    WakeStep(s, a);
    LifeStep(s, a);
    StopStep(s, a);
  }

  lemma {:induction false} InvHolds(s: Sys, run: seq<Action>, s': Sys)
    requires Inv(s) && Steps(s, run, s')
    ensures Inv(s')
    decreases |run|
  {
    if run != [] {
      InvStep(s, run[0]);
      InvHolds(After(s, run[0]), run[1..], s');
    }
  }

  lemma InvInit(s: Sys)
    requires Init(s)
    ensures Inv(s)
  {
    assert s.core.pending == map[] && s.queued == map[] && s.accepted == [] && s.fates == [];
    assert s.deqs == [] && s.fired == [] && s.loop == Gone && s.control == Resting && !s.core.running;
    assert QueueInv(s) && DequeueInv(s) && TakenInv(s) && HandInv(s) && FiredInv(s) && OrderInv(s);
  }

  ghost predicate Reachable(s: Sys) {
    exists s0, run :: Init(s0) && Steps(s0, run, s)
  }

  lemma ReachableInv(s: Sys)
    requires Reachable(s)
    ensures Inv(s)
  {
    var s0, run :| Init(s0) && Steps(s0, run, s);
    InvInit(s0);
    InvHolds(s0, run, s);
  }
}
