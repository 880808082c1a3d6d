/**
 What cancelling a task and stopping the timer engine are worth over whole runs, restarts
 included.
 */
module TimerStops {
  import opened Options
  import opened TimerTasks
  import opened TimerEngine
  import opened TimerRuns
  import opened TimerGuarantees
  import opened TimerReach

  // ---------- Stop ----------

  /** The loop has found the context of instance `k` alive and is about to show it. */
  ghost predicate PastCheck(s: Sys, k: nat) {
    s.loop.Notifying? && s.loop.d < |s.deqs| && s.deqs[s.loop.d].instance == k
  }

  /** Instance `k` belongs to a cancelled context, was not shown to the observer and is not about to be. */
  ghost predicate Doomed(s: Sys, k: nat) {
    && k < |s.accepted| == |s.fates| && TaskDone(s.accepted[k].task, s.core.cancelled)
    && s.fates[k] != Triggered && !PastCheck(s, k)
  }

  lemma DoomedStep(s: Sys, s': Sys, kind: Kind, k: nat)
    requires Fits(s, s', kind) && Doomed(s, k) && |s'.fates| == |s'.accepted|
    requires s.core.cancelled <= s'.core.cancelled
    requires kind.Removal? || kind.Taking? ==> QueueInv(s)
    ensures Doomed(s', k)
  {
    var c := s.accepted[k].task.ctx.value;
    assert Lineage(c) * s.core.cancelled <= Lineage(c) * s'.core.cancelled;
  }

  /** A context once cancelled keeps its task from the observer for the rest of the run. */
  lemma {:induction false} CancelledIsNeverTriggered(s: Sys, k: nat, run: seq<Action>, s': Sys)
    requires Inv(s) && Steps(s, run, s') && Doomed(s, k)
    ensures Doomed(s', k)
    decreases |run|
  {
    if run != [] {
      InvStep(s, run[0]);
      ExtendsStep(s, run[0]);
      Classify(s, run[0]);
      DoomedStep(s, After(s, run[0]), KindOf(s, run[0]), k);
      CancelledIsNeverTriggered(After(s, run[0]), k, run[1..], s');
    }
  }

  lemma DoomedIsNeverShown(s: Sys, k: nat, run: seq<Action>, s': Sys)
    requires Inv(s) && Steps(s, run, s') && Doomed(s, k)
    ensures !EverShown(s', k)
  {
    CancelledIsNeverTriggered(s, k, run, s');
    HistoryGrows(s, run, s');
  }

  /**
   An instance whose context is cancelled before the observer saw it is shown in some run
   exactly when the loop had already looked at the context and found it alive.
   */
  lemma CancelledExactly(s: Sys, k: nat)
    requires Reachable(s) && k < |s.accepted| == |s.fates|
    requires TaskDone(s.accepted[k].task, s.core.cancelled) && s.fates[k] != Triggered
    ensures (exists s' :: CanReach(s, s') && EverShown(s', k)) <==> PastCheck(s, k)
  {
    ReachableInv(s);
    if PastCheck(s, k) {
      assert Steps(s, [], s);
      var s' := NotifyFrom(s, s);
      assert EverShown(s', k);
    } else {
      forall s' | CanReach(s, s') ensures !EverShown(s', k) {
        var run :| Steps(s, run, s');
        DoomedIsNeverShown(s, k, run, s');
      }
    }
  }

  /**
   A task that is pending while the engine is stopped, and whose cancel function belongs
   to its context, is never shown to the observer, whatever happens later: restarts included.
   */
  lemma StopIsFinal(s: Sys, id: string, run: seq<Action>, s': Sys)
    requires Reachable(s) && !s.core.running
    requires id in s.core.pending && Controlled(s.core.pending[id]) && Steps(s, run, s')
    ensures id in s.queued && !EverShown(s', s.queued[id])
  {
    ReachableInv(s);
    DoomedIsNeverShown(s, s.queued[id], run, s');
  }

  /**
   After `Stop` has returned, a pending task is shown in some later run exactly when its
   context is still alive, wherever the task stands in the queue.
   */
  lemma StopIsFinalExactly(s: Sys, id: string)
    requires Reachable(s) && !s.core.running && s.control == Resting && id in s.core.pending
    ensures id in s.queued
    ensures (exists s' :: CanReach(s, s') && EverShown(s', s.queued[id])) <==>
            !TaskDone(s.core.pending[id], s.core.cancelled)
  {
    ReachableInv(s);
    var k, t := s.queued[id], s.core.pending[id];
    if TaskDone(t, s.core.cancelled) {
      forall s' | CanReach(s, s') ensures !EverShown(s', k) {
        var run :| Steps(s, run, s');
        DoomedIsNeverShown(s, k, run, s');
      }
    } else {
      var s1 := RestartAt(s, if s.clock < t.at then t.at else s.clock);
      var s' := TaskComesUp(s, s1, t);
      assert EverShown(s', k);
    }
  }

  // ---------- Tasks from NewTimerTask ----------

  /** A task that `NewTimerTask` built and whose context no caller-written option replaced last. */
  ghost predicate Built(t: TimerTask) {
    exists id, at, opts, serial ::
      t == Configured(id, at, opts, serial) && !EndsWithForeignContext(opts)
  }

  /** Every task handed to `AddTask` in the run was built that way. */
  ghost predicate AddsBuilt(run: seq<Action>) {
    forall a | a in run && a.Add? && a.task.Some? :: Built(a.task.value)
  }

  ghost predicate AllControlled(s: Sys) {
    forall k | 0 <= k < |s.accepted| :: Controlled(s.accepted[k].task)
  }

  lemma ControlledStep(s: Sys, a: Action)
    requires Inv(s) && Enabled(s, a) && AllControlled(s)
    requires a.Add? && a.task.Some? ==> Built(a.task.value)
    ensures AllControlled(After(s, a))
  {
    Classify(s, a);
    if a.Add? && a.task.Some? {
      var id, at, opts, serial :|
        a.task.value == Configured(id, at, opts, serial) && !EndsWithForeignContext(opts);
      ConfiguredContext(id, at, opts, serial);
    }
  }

  lemma {:induction false} BuiltStaysControlled(s: Sys, run: seq<Action>, s': Sys)
    requires Inv(s) && AllControlled(s) && Steps(s, run, s') && AddsBuilt(run)
    ensures Inv(s') && AllControlled(s')
    decreases |run|
  {
    if run != [] {
      InvStep(s, run[0]);
      ControlledStep(s, run[0]);
      BuiltStaysControlled(After(s, run[0]), run[1..], s');
    }
  }

  /**
   `Stop` is final for `NewTimerTask`: if every task added so far was built by it, with no
   foreign context assigned last, then nothing pending in the stopped engine, repetitions
   included, is ever shown, whatever is added or started later.
   */
  lemma StopIsFinalForBuilt(s0: Sys, run: seq<Action>, s: Sys, id: string, later: seq<Action>, s': Sys)
    requires Init(s0) && Steps(s0, run, s) && AddsBuilt(run)
    requires !s.core.running && id in s.core.pending && Steps(s, later, s')
    ensures id in s.queued && !EverShown(s', s.queued[id])
  {
    InvInit(s0);
    BuiltStaysControlled(s0, run, s);
    assert Controlled(s.accepted[s.queued[id]].task);
    StopIsFinal(s, id, later, s');
  }

  const FOREIGN := Configured("job", 5, [AssignContext(Some(Background))], 0)

  /** A stopped, resting engine whose pending task carries a foreign context that `Stop` did not end. */
  lemma ForeignTaskPends() returns (s: Sys)
    ensures Reachable(s) && !s.core.running && s.control == Resting
    ensures EndsWithForeignContext([AssignContext(Some(Background))])
    ensures "job" in s.core.pending && s.core.pending["job"] == FOREIGN && !TaskDone(FOREIGN, s.core.cancelled)
  {
    var s0 := Sys(Core(map[], NoTimer, false, false, false, {}, 2), map[], [], [], [], [], Gone, Resting, 1);
    assert Init(s0) && Steps(s0, [], s0);
    ForeignIs();
    CanReachMore(s0, s0, Start);
    var s1 := After(s0, Start);
    CanReachMore(s0, s1, Add(Some(FOREIGN), ParseError));
    var s2 := After(s1, Add(Some(FOREIGN), ParseError));
    s := StopAtTop(s0, s2);
  }

  lemma ForeignIs()
    ensures FOREIGN == TimerTask("job", 5, 0, "", "", 0, PRIORITY_LOW, Some(Background), Some(0))
  {
    var opts := [AssignContext(Some(Background))];
    assert opts[..0] == [];
    assert Configured("job", 5, [], 0) == Default("job", 5, 0);
  }

  lemma StopAtTop(s: Sys, s1: Sys) returns (s': Sys)
    requires CanReach(s, s1) && s1.core.running && s1.control == Resting && s1.loop == Top
    ensures CanReach(s, s') && !s'.core.running && s'.control == Resting
    ensures s'.core.pending == s1.core.pending
    ensures s'.core.cancelled == s1.core.cancelled + CancelsOf(s1.core.pending)
  {
    CanReachMore(s, s1, StopCancels);
    var s2 := After(s1, StopCancels);
    CanReachMore(s, s2, StopSection);
    var s3 := After(s2, StopSection);
    CanReachMore(s, s3, Pass(Exit));
    var s4 := After(s3, Pass(Exit));
    CanReachMore(s, s4, StopReturns);
    s' := After(s4, StopReturns);
  }

  // ---------- A task caught by Stop ----------

  /** Dequeue `d` has not been repeated, and the loop may still want to only while `Stop` waits for it. */
  ghost predicate NotRepeated(s: Sys, d: nat) {
    && d < |s.deqs|
    && (forall k | 0 <= k < |s.accepted| :: s.accepted[k].from != Some(d))
    && (Working(s.loop) && s.loop.d == d ==> s.control == Joining)
  }

  lemma NotRepeatedStep(s: Sys, a: Action, d: nat)
    requires QueueInv(s) && LifeInv(s) && Enabled(s, a) && NotRepeated(s, d)
    ensures NotRepeated(After(s, a), d)
  {
    Classify(s, a);
  }

  lemma {:induction false} StaysUnrepeated(s: Sys, d: nat, run: seq<Action>, s': Sys)
    requires Inv(s) && Steps(s, run, s') && NotRepeated(s, d)
    ensures NotRepeated(s', d)
    decreases |run|
  {
    if run != [] {
      InvStep(s, run[0]);
      NotRepeatedStep(s, run[0], d);
      StaysUnrepeated(After(s, run[0]), d, run[1..], s');
    }
  }

  /**
   A task in the loop's hands when `Stop` took the lock is never queued again by it, whether
   it was just taken, about to be shown, in its callback or about to be repeated.
   */
  lemma NoRequeueAfterStop(s: Sys, run: seq<Action>, s': Sys)
    requires Reachable(s) && s.control == Joining && Working(s.loop) && Steps(s, run, s')
    ensures forall k | 0 <= k < |s'.accepted| :: s'.accepted[k].from != Some(s.loop.d)
  {
    ReachableInv(s);
    StaysUnrepeated(s, s.loop.d, run, s');
  }
}
