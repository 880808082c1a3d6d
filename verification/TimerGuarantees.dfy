/**
 What holds over whole runs of the timer engine: what each operation comes to, that no
 wakeup is lost, that every insertion has one fate, in which order tasks are shown, and
 which tasks repeat, and when.
 */
module TimerGuarantees {
  import opened Options
  import opened TimerTasks
  import opened TimerEngine
  import opened TimerRuns

  // ---------- What each operation comes to, in terms of the tasks' fields ----------

  /** The condition of `AddTask`: a running engine, a new identifier, and a time given or found. */
  predicate Acceptable(s: Sys, task: Option<TimerTask>, next: CronNext) {
    && s.core.running && task.Some? && task.value.id != "" && task.value.id !in s.core.pending
    && (task.value.at != 0 || (task.value.cron != "" && next.NextAt? && next.at != 0))
  }

  /** `AddTask` inserts exactly the acceptable tasks, and inserts them with every field the caller set. */
  lemma AcceptedExactly(s: Sys, task: Option<TimerTask>, next: CronNext)
    requires Reachable(s)
    ensures var s' := After(s, Add(task, next));
            if !Acceptable(s, task, next) then s'.accepted == s.accepted && s'.core.pending == s.core.pending
            else
              && |s'.accepted| == |s.accepted| + 1 && s'.accepted[|s.accepted|].from == None
              && var t, given := s'.accepted[|s.accepted|].task, task.value;
                 && t == given.(at := t.at, ctx := t.ctx, cancel := t.cancel)
                 && t.at == (if given.at != 0 then given.at else next.at)
                 && s'.core.pending == s.core.pending[given.id := t]
                 && s'.queued == s.queued[given.id := |s.accepted|]
                 && (given.ctx.Some? ==> t.ctx == given.ctx && t.cancel == given.cancel)
                 && (given.ctx.None? ==>
                       && t.ctx == Some(Derived(s.core.serial, Background)) && t.cancel == Some(s.core.serial)
                       && s'.core.serial > s.core.serial)
  {
  }

  /** `AddTask` buffers a wakeup exactly when a timer exists and the new task goes before all the others. */
  lemma WakeupExactly(s: Sys, task: Option<TimerTask>, next: CronNext)
    requires Reachable(s) && !s.core.token
    ensures var s' := After(s, Add(task, next));
            s'.core.token <==>
            && Acceptable(s, task, next) && s.core.timer != NoTimer
            && var t := s'.accepted[|s.accepted|].task;
               forall id | id in s.core.pending ::
                 t.at < s.core.pending[id].at
                 || (t.at == s.core.pending[id].at && t.priority < s.core.pending[id].priority)
  {
    AcceptedExactly(s, task, next);
  }

  /** `RemoveTask` takes out a pending task of a running engine and cancels it, and does nothing else. */
  lemma RemovedExactly(s: Sys, id: string)
    requires Reachable(s)
    ensures Enabled(s, Remove(id))
    ensures var s' := After(s, Remove(id));
            if !(id in s.core.pending && s.core.running) then s' == s
            else
              var t := s.core.pending[id];
              && s'.core.pending == s.core.pending - {id} && s'.accepted == s.accepted
              && (forall i :: i in s'.core.cancelled <==> i in s.core.cancelled || t.cancel == Some(i))
              && (Controlled(t) ==> TaskDone(t, s'.core.cancelled))
  {
    ReachableInv(s);
    if id in s.core.pending && s.core.running && Controlled(s.core.pending[id]) {
      var t := s.core.pending[id];
      assert t.cancel.value in Lineage(t.ctx.value) * After(s, Remove(id)).core.cancelled;
    }
  }

  /** What a pass of the loop may decide, in terms of the pending tasks and the clock. */
  ghost predicate May(s: Sys, d: Decision) {
    match d
    case Exit => !s.core.running || s.core.ctxDone
    case Nap => s.core.running && !s.core.ctxDone && s.core.pending == map[]
    case Fire(t) =>
      && s.core.running && !s.core.ctxDone && t.id in s.core.pending && s.core.pending[t.id] == t && t.at <= s.clock
      && forall id | id in s.core.pending ::
           var u := s.core.pending[id]; t.at < u.at || (t.at == u.at && t.priority <= u.priority)
    case Park(deadline) =>
      && s.core.running && !s.core.ctxDone && s.clock < deadline
      && (exists id :: id in s.core.pending && s.core.pending[id].at == deadline)
      && (forall id | id in s.core.pending :: deadline <= s.core.pending[id].at)
  }

  lemma DecidesExactly(s: Sys, d: Decision)
    requires Reachable(s) && s.loop == Top
    ensures Enabled(s, Pass(d)) <==> May(s, d)
    ensures May(s, d) && d.Park? ==>
              After(s, Pass(d)).loop == Parked(d.deadline) && After(s, Pass(d)).core.timer == Armed(d.deadline)
  {
    ReachableInv(s);
    if d.Park? && May(s, d) {
      SomeTaskIsNext(s.core.pending);
      var t :| IsNext(t, s.core.pending);
      var id :| id in s.core.pending && s.core.pending[id].at == d.deadline;
      assert t.at == d.deadline;
    } else if d.Fire? && May(s, d) {
      assert d.task.id in s.queued;
    }
  }

  /** The wakeup that ends a wait is used up, and the timer of that wait is stopped. */
  lemma WakeupIsUsedUp(s: Sys)
    requires Enabled(s, TakeToken)
    ensures var s' := After(s, TakeToken); s'.loop == Top && !s'.core.token && !s'.core.timer.Armed?
  {
  }

  /** `Stop` cancels what the pending tasks' own cancel functions cancel, and leaves the queue alone. */
  lemma StopCancelsExactly(s: Sys)
    requires Reachable(s) && Enabled(s, StopSection) && s.core.running
    ensures var s' := After(s, StopSection);
            && !s'.core.running && !s'.core.timer.Armed? && s'.control == Joining
            && s'.core.pending == s.core.pending && s'.accepted == s.accepted
            && forall i :: i in s'.core.cancelled <==>
                 i in s.core.cancelled
                 || exists id :: id in s.core.pending && s.core.pending[id].cancel == Some(i)
  {
    var s' := After(s, StopSection);
    forall i ensures i in s'.core.cancelled <==>
                 i in s.core.cancelled || exists id :: id in s.core.pending && s.core.pending[id].cancel == Some(i)
    {
      assert i in CancelsOf(s.core.pending) <==>
             exists id :: id in s.core.pending && s.core.pending[id].cancel == Some(i);
    }
  }

  // ---------- No lost wakeup ----------

  /** A parked loop is due no later than the earliest pending task unless a wakeup is buffered. */
  lemma NoLostWakeup(s: Sys)
    requires Reachable(s) && s.loop.Parked?
    ensures s.core.token || forall id | id in s.core.pending :: s.loop.deadline <= s.core.pending[id].at
  {
    ReachableInv(s);
  }

  /** A non-empty queue has a task that nothing precedes. */
  lemma {:induction false} SomeTaskIsNext(pending: map<string, TimerTask>)
    requires pending != map[] && forall id | id in pending :: pending[id].id == id
    ensures exists t :: IsNext(t, pending)
    decreases |pending|
  {
    var id :| id in pending;
    var rest := pending - {id};
    var t := pending[id];
    if rest == map[] {
      assert forall other | other in pending :: other == id || other in rest;
      assert IsNext(t, pending);
    } else {
      assert |rest| < |pending| by {
        assert pending == rest[id := t];
      }
      SomeTaskIsNext(rest);
      var u :| IsNext(u, rest);
      assert forall other | other in pending :: other == id || other in rest;
      assert IsNext(if Less(t, u) then t else u, pending);
    }
  }

  /**
   Once a pending task is due, a parked loop of a running engine can wake at once, and
   the section it then enters dequeues a due task: nothing pending is overslept.
   */
  lemma DueTaskIsTaken(s: Sys, id: string)
    requires Reachable(s) && s.loop.Parked? && s.core.running && !s.core.ctxDone
    requires id in s.core.pending && s.core.pending[id].at <= s.clock
    ensures exists wake, t ::
              && (wake == TimerFires || wake == TakeToken) && Enabled(s, wake)
              && Enabled(After(s, wake), Pass(Fire(t)))
  {
    ReachableInv(s);
    var wake := if s.core.token then TakeToken else TimerFires;
    SomeTaskIsNext(s.core.pending);
    var t :| IsNext(t, s.core.pending);
    assert t.id in s.queued;
    assert Enabled(After(s, wake), Pass(Fire(t)));
  }

  /**
   No caller is ever refused a step and the loop always has one, except while it waits for
   its timer: the conditions of `Enabled` on the history hold in every reachable state.
   */
  lemma NeverStuck(s: Sys, id: string, next: CronNext)
    requires Reachable(s)
    ensures Enabled(s, Remove(id))
    ensures s.loop == Top ==> exists d :: Enabled(s, Pass(d))
    ensures s.loop.Holding? ==> Enabled(s, Inspect)
    ensures s.loop.Notifying? ==> Enabled(s, Notify)
    ensures s.loop.InCallback? ==> Enabled(s, Return(next))
    ensures s.loop.Repeating? ==> Enabled(s, Requeue)
    ensures s.control == Joining && s.loop.Parked? ==> Enabled(s, SeeDone)
  {
    ReachableInv(s);
    if s.loop == Top {
      SomeDecision(s);
    }
  }

  lemma SomeDecision(s: Sys)
    requires QueueInv(s) && s.loop == Top
    ensures exists d :: Enabled(s, Pass(d))
  {
    if !s.core.running || s.core.ctxDone {
      assert Enabled(s, Pass(Exit));
    } else if s.core.pending == map[] {
      assert Enabled(s, Pass(Nap));
    } else {
      SomeTaskIsNext(s.core.pending);
      var t :| IsNext(t, s.core.pending);
      assert t.id in s.queued;
      assert Enabled(s, Pass(if t.at <= s.clock then Fire(t) else Park(t.at)));
    }
  }

  // ---------- Conservation ----------

  /** Later states extend the history and only move instances forward. */
  ghost predicate Extends(s: Sys, s': Sys) {
    && |s.fates| == |s.accepted| && |s'.fates| == |s'.accepted|
    && s.accepted <= s'.accepted && s.deqs <= s'.deqs && s.fired <= s'.fired
    && s.core.cancelled <= s'.core.cancelled && s.core.serial <= s'.core.serial
    && (forall k | 0 <= k < |s.accepted| :: CanBecome(s.fates[k], s'.fates[k]))
  }

  predicate CanBecome(f: Fate, g: Fate) {
    f == g || f == Pending || (f == InHand && (g == Skipped || g == Triggered))
  }

  lemma ExtendsStep(s: Sys, a: Action)
    requires Inv(s) && Enabled(s, a)
    ensures Extends(s, After(s, a))
  {
    Classify(s, a);
    ForwardStep(s, After(s, a), KindOf(s, a));
    CancelledGrows(s, a);
  }

  lemma CancelledGrows(s: Sys, a: Action)
    requires Enabled(s, a)
    ensures s.core.cancelled <= After(s, a).core.cancelled && s.core.serial <= After(s, a).core.serial
  {
  }

  lemma ForwardStep(s: Sys, s': Sys, k: Kind)
    requires QueueInv(s) && HandInv(s) && Fits(s, s', k)
    ensures |s'.fates| == |s'.accepted| && s.accepted <= s'.accepted && s.deqs <= s'.deqs && s.fired <= s'.fired
    ensures forall i | 0 <= i < |s.accepted| :: CanBecome(s.fates[i], s'.fates[i])
  {
  }

  lemma ExtendsTransitive(s: Sys, s1: Sys, s2: Sys)
    requires Extends(s, s1) && Extends(s1, s2)
    ensures Extends(s, s2)
  {
    forall k | 0 <= k < |s.accepted| ensures CanBecome(s.fates[k], s2.fates[k]) {
      assert CanBecome(s.fates[k], s1.fates[k]) && CanBecome(s1.fates[k], s2.fates[k]);
    }
  }

  lemma {:induction false} HistoryGrows(s: Sys, run: seq<Action>, s': Sys)
    requires Inv(s) && Steps(s, run, s')
    ensures Inv(s') && Extends(s, s')
    decreases |run|
  {
    if run != [] {
      InvStep(s, run[0]);
      ExtendsStep(s, run[0]);
      HistoryGrows(After(s, run[0]), run[1..], s');
      ExtendsTransitive(s, After(s, run[0]), s');
    }
  }

  /**
   Every accepted insertion has exactly one fate: it is queued under its own identifier,
   in the loop's hands, removed, skipped, or triggered; the observer sees exactly the
   triggered ones, and each of them once.
   */
  lemma Conservation(s: Sys, k: nat)
    requires Reachable(s) && k < |s.accepted|
    ensures |s.fates| == |s.accepted|
    ensures s.queued.Keys == s.core.pending.Keys
    ensures s.fates[k] == Pending <==> s.accepted[k].task.id in s.queued && s.queued[s.accepted[k].task.id] == k
    ensures s.fates[k] == Triggered ==> exists i | 0 <= i < |s.fired| :: Shown(s, i, k)
    ensures forall i | 0 <= i < |s.fired| :: Shown(s, i, k) ==> s.fates[k] == Triggered
    ensures forall i, j | 0 <= i < j < |s.fired| :: !(Shown(s, i, k) && Shown(s, j, k))
  {
    ReachableInv(s);
    if s.fates[k] == Triggered {
      var d :| 0 <= d < |s.deqs| && s.deqs[d].instance == k;
      var i :| 0 <= i < |s.fired| && s.fired[i] == d;
      assert Shown(s, i, k);
    }
  }

  /** Notification number `i` was about instance `k`. */
  ghost predicate Shown(s: Sys, i: nat, k: nat) {
    i < |s.fired| && s.fired[i] < |s.deqs| && s.deqs[s.fired[i]].instance == k
  }

  /** When `RemoveTask` returns true, the instance it removed is never shown to the observer. */
  lemma RemovedIsNeverTriggered(s: Sys, id: string, run: seq<Action>, s': Sys)
    requires Reachable(s) && CanRemove(s.core, id) && Enabled(s, Remove(id))
    requires Steps(After(s, Remove(id)), run, s')
    ensures id in s.queued && s.queued[id] < |s.accepted|
    ensures forall i | 0 <= i < |s'.fired| :: !Shown(s', i, s.queued[id])
  {
    ReachableInv(s);
    InvStep(s, Remove(id));
    RemovedStaysUnshown(After(s, Remove(id)), s.queued[id], run, s');
  }

  lemma RemovedStaysUnshown(s: Sys, k: nat, run: seq<Action>, s': Sys)
    requires Inv(s) && k < |s.fates| && s.fates[k] == Removed && Steps(s, run, s')
    ensures forall i | 0 <= i < |s'.fired| :: !Shown(s', i, k)
  {
    HistoryGrows(s, run, s');
    assert CanBecome(s.fates[k], s'.fates[k]);
  }

  // ---------- Firing order ----------

  /**
   The observer sees tasks that were due at the loop's clock reading, and tasks taken
   with no insertion between them in the order of time and priority; until the next
   insertion, nothing pending precedes what was taken.
   */
  lemma FiringOrder(s: Sys, i: nat, j: nat)
    requires Reachable(s) && i <= j < |s.fired|
    ensures s.fired[i] < |s.deqs| && s.fired[j] < |s.deqs|
    ensures forall d | 0 <= d < |s.deqs| :: s.deqs[d].instance < |s.accepted|
    ensures TaskOf(s, s.fired[i]).at <= s.deqs[s.fired[i]].now <= s.deqs[s.fired[j]].now
    ensures s.deqs[s.fired[i]].era == s.deqs[s.fired[j]].era ==>
              var t, u := TaskOf(s, s.fired[i]), TaskOf(s, s.fired[j]);
              t.at < u.at || (t.at == u.at && t.priority <= u.priority)
    ensures s.deqs[s.fired[i]].era == |s.accepted| ==>
              forall id | id in s.core.pending ::
                var t, u := TaskOf(s, s.fired[i]), s.core.pending[id];
                t.at < u.at || (t.at == u.at && t.priority <= u.priority)
  {
    ReachableInv(s);
  }

  // ---------- Which tasks repeat ----------

  /** The loop ends its work on a task: it returns from the callback and queues the repetition, if there is one. */
  ghost function Finished(s: Sys, next: CronNext): Sys
    requires s.loop.InCallback? && AtWork(s)
  {
    var s1 := After(s, Return(next));
    if s1.loop.Repeating? then After(s1, Requeue) else s1
  }

  /** A task repeats if its context is alive and it has an interval, or a cron expression with a next time. */
  predicate Repeats(s: Sys, t: TimerTask, now: Time, next: CronNext) {
    && !TaskDone(t, s.core.cancelled)
    && (if t.interval > 0 then now + t.interval != 0 else t.cron != "" && next.NextAt? && next.at != 0)
  }

  /**
   In a running engine, with its identifier not taken meanwhile, a shown task is queued again
   exactly when it repeats, at its reading plus the interval or at the cron time, and with
   everything but its data.
   */
  lemma RepeatsExactly(s: Sys, next: CronNext)
    requires Reachable(s) && s.loop.InCallback? && AtWork(s) && s.core.running
    requires TaskOf(s, s.loop.d).id !in s.core.pending
    ensures var t, now, s' := TaskOf(s, s.loop.d), s.deqs[s.loop.d].now, Finished(s, next);
            && s'.loop == Top
            && (t.id in s'.core.pending <==> Repeats(s, t, now, next))
            && (t.id !in s'.core.pending ==> s'.accepted == s.accepted)
            && (t.id in s'.core.pending ==>
                  var u := s'.core.pending[t.id];
                  && u.at == (if t.interval > 0 then now + t.interval else next.at)
                  && u.id == t.id && u.interval == t.interval && u.cron == t.cron && u.priority == t.priority
                  && u.callback == t.callback && u.ctx == t.ctx && u.cancel == t.cancel && u.data == ""
                  && s'.accepted == s.accepted + [Insertion(u, Some(s.loop.d))])
  {
    ReachableInv(s);
  }

  // ---------- Interval spacing ----------

  /** Dequeue `e` is the `n`th repetition after dequeue `d`. */
  ghost predicate Repetition(s: Sys, d: nat, n: nat, e: nat)
    decreases n
  {
    && e < |s.deqs| && s.deqs[e].instance < |s.accepted|
    && if n == 0 then d == e
       else
         var from := s.accepted[s.deqs[e].instance].from;
         from.Some? && Repetition(s, d, n - 1, from.value)
  }

  /** Along `n` repetitions both the deadlines and the clock readings advance by `n` intervals or more. */
  ghost predicate Spaced(s: Sys, d: nat, n: nat, e: nat)
    requires d < |s.deqs| && s.deqs[d].instance < |s.accepted| && e < |s.deqs| && s.deqs[e].instance < |s.accepted|
  {
    && TaskOf(s, e).id == TaskOf(s, d).id && TaskOf(s, e).interval == TaskOf(s, d).interval
    && TaskOf(s, e).at >= TaskOf(s, d).at + n * TaskOf(s, d).interval
    && s.deqs[e].now >= s.deqs[d].now + n * TaskOf(s, d).interval
  }

  lemma SpacedOnce(s: Sys, d: nat, n: nat, p: nat, e: nat)
    requires n > 0 && d < |s.deqs| && p < |s.deqs| && e < |s.deqs|
    requires s.deqs[d].instance < |s.accepted| && s.deqs[p].instance < |s.accepted|
    requires s.deqs[e].instance < |s.accepted|
    requires Spaced(s, d, n - 1, p) && TaskOf(s, d).interval > 0
    requires Continues(s, TaskOf(s, e), s.deqs[e].instance, p)
    requires TaskOf(s, p).at <= s.deqs[p].now && TaskOf(s, e).at <= s.deqs[e].now
    ensures Spaced(s, d, n, e)
  {
    var step := TaskOf(s, d).interval;
    assert n * step == (n - 1) * step + step;
  }

  lemma {:induction false} RepetitionIsSpaced(s: Sys, d: nat, n: nat, e: nat)
    requires DequeueInv(s) && RepeatInv(s) && Repetition(s, d, n, e)
    requires d < |s.deqs| && s.deqs[d].instance < |s.accepted| && TaskOf(s, d).interval > 0
    ensures Spaced(s, d, n, e)
    decreases n
  {
    if n > 0 {
      var k := s.deqs[e].instance;
      var p := s.accepted[k].from.value;
      RepetitionIsSpaced(s, d, n - 1, p);
      assert Continues(s, s.accepted[k].task, k, p);
      SpacedOnce(s, d, n, p, e);
    }
  }

  lemma IntervalSpacing(s: Sys, d: nat, n: nat, e: nat)
    requires Reachable(s) && Repetition(s, d, n, e)
    requires d < |s.deqs| && s.deqs[d].instance < |s.accepted| && TaskOf(s, d).interval > 0
    ensures Spaced(s, d, n, e)
  {
    ReachableInv(s);
    RepetitionIsSpaced(s, d, n, e);
  }
}
