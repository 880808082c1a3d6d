/**
 Runs that the timer engine can take: from whatever its loop is doing to the next pass, to a
 given pending task being shown, and to the return of a `Stop` that waits for it.
 */
module TimerReach {
  import opened Options
  import opened TimerTasks
  import opened TimerEngine
  import opened TimerRuns
  import opened TimerGuarantees

  // ---------- Runs that lead to a given task ----------

  ghost predicate EverShown(s: Sys, k: nat) {
    exists i :: Shown(s, i, k)
  }

  ghost predicate CanReach(s: Sys, s': Sys) {
    exists run :: Steps(s, run, s')
  }

  lemma {:induction false} OneMore(s: Sys, run: seq<Action>, s1: Sys, a: Action)
    requires Steps(s, run, s1) && Enabled(s1, a)
    ensures Steps(s, run + [a], After(s1, a))
    decreases |run|
  {
    if run == [] {
      assert ([] + [a])[1..] == [];
      assert Steps(After(s, a), [], After(s, a));
    } else {
      assert (run + [a])[1..] == run[1..] + [a];
      OneMore(After(s, run[0]), run[1..], s1, a);
    }
  }

  lemma CanReachMore(s: Sys, s1: Sys, a: Action)
    requires CanReach(s, s1) && Enabled(s1, a)
    ensures CanReach(s, After(s1, a))
  {
    var run :| Steps(s, run, s1);
    OneMore(s, run, s1, a);
  }

  /** The loop of a running engine is about to pass. */
  ghost predicate Active(s: Sys) {
    Inv(s) && s.core.running && !s.core.ctxDone && s.loop == Top
  }

  lemma RestartAt(s: Sys, to: Time) returns (s': Sys)
    requires Inv(s) && !s.core.running && s.control == Resting && s.clock <= to
    ensures CanReach(s, s') && SameHistory(s, s') && Active(s')
    ensures s'.clock == to && s'.core.cancelled == s.core.cancelled
  {
    assert Steps(s, [], s);
    CanReachMore(s, s, Start);
    InvStep(s, Start);
    CanReachMore(s, After(s, Start), Tick(to));
    InvStep(After(s, Start), Tick(to));
    s' := After(After(s, Start), Tick(to));
  }

  lemma TakeInto(s: Sys, s1: Sys, t: TimerTask) returns (s': Sys)
    requires CanReach(s, s1) && Active(s1) && IsNext(t, s1.core.pending) && t.at <= s1.clock
    ensures CanReach(s, s') && t.id in s1.queued && Inv(s')
    ensures s'.loop.Holding? && TaskOf(s', s'.loop.d) == t && s'.deqs[s'.loop.d].instance == s1.queued[t.id]
    ensures s'.deqs[s'.loop.d].now == s1.clock && SameCircumstances(s1, s', t.id) && t.id !in s'.core.pending
  {
    TakeEffect(s1, t);
    CanReachMore(s, s1, Pass(Fire(t)));
    InvStep(s1, Pass(Fire(t)));
    s' := After(s1, Pass(Fire(t)));
  }

  lemma TakeEffect(s: Sys, t: TimerTask)
    requires QueueInv(s) && s.core.running && !s.core.ctxDone && s.loop == Top
    requires IsNext(t, s.core.pending) && t.at <= s.clock
    ensures t.id in s.queued && Enabled(s, Pass(Fire(t)))
    ensures var s' := After(s, Pass(Fire(t)));
            && s'.loop.Holding? && s'.loop.d < |s'.deqs| && s'.deqs[s'.loop.d].instance == s.queued[t.id]
            && s.queued[t.id] < |s'.accepted| && TaskOf(s', s'.loop.d) == t && s'.deqs[s'.loop.d].now == s.clock
            && SameCircumstances(s, s', t.id) && t.id !in s'.core.pending
  {
    assert t.id in s.queued;
  }

  /** Nothing happened but to the task `id`. */
  ghost predicate SameCircumstances(s: Sys, s': Sys, id: string) {
    && s'.clock == s.clock && s'.core.cancelled == s.core.cancelled
    && s'.core.running == s.core.running && s'.core.ctxDone == s.core.ctxDone
    && s'.core.pending - {id} == s.core.pending - {id} && s'.queued - {id} == s.queued - {id}
  }

  lemma ShowFrom(s: Sys, s1: Sys) returns (s': Sys)
    requires CanReach(s, s1) && Inv(s1) && s1.loop.Holding?
    requires !TaskDone(TaskOf(s1, s1.loop.d), s1.core.cancelled)
    ensures CanReach(s, s') && Inv(s') && Shown(s', |s1.fired|, s1.deqs[s1.loop.d].instance)
    ensures s'.loop == InCallback(s1.loop.d) && s'.core == s1.core && s'.clock == s1.clock
    ensures s'.queued == s1.queued && s'.deqs == s1.deqs && s'.accepted == s1.accepted
  {
    CanReachMore(s, s1, Inspect);
    InvStep(s1, Inspect);
    s' := NotifyFrom(s, After(s1, Inspect));
  }

  lemma NotifyFrom(s: Sys, s1: Sys) returns (s': Sys)
    requires CanReach(s, s1) && Inv(s1) && s1.loop.Notifying?
    ensures CanReach(s, s') && Inv(s') && Shown(s', |s1.fired|, s1.deqs[s1.loop.d].instance)
    ensures s'.loop == InCallback(s1.loop.d) && s'.core == s1.core && s'.clock == s1.clock
    ensures s'.queued == s1.queued && s'.deqs == s1.deqs && s'.accepted == s1.accepted
  {
    CanReachMore(s, s1, Notify);
    InvStep(s1, Notify);
    s' := After(s1, Notify);
  }

  /** The loop finishes with a task it has shown; if it repeats the task, the copy is not due yet. */
  lemma FinishFrom(s: Sys, s1: Sys, id: string) returns (s': Sys)
    requires CanReach(s, s1) && Inv(s1) && s1.loop.InCallback? && s1.core.running && !s1.core.ctxDone
    requires TaskOf(s1, s1.loop.d).id == id && id !in s1.core.pending && s1.deqs[s1.loop.d].now == s1.clock
    ensures CanReach(s, s') && Active(s') && SameCircumstances(s1, s', id)
    ensures id in s'.core.pending ==> s'.clock < s'.core.pending[id].at
  {
    CanReachMore(s, s1, Return(ParseError));
    InvStep(s1, Return(ParseError));
    s' := After(s1, Return(ParseError));
    if s'.loop.Repeating? {
      s' := RequeueFrom(s, s', id);
    }
  }

  lemma RequeueFrom(s: Sys, s1: Sys, id: string) returns (s': Sys)
    requires CanReach(s, s1) && Inv(s1) && s1.loop.Repeating? && s1.core.running && !s1.core.ctxDone
    requires TaskOf(s1, s1.loop.d).id == id && id !in s1.core.pending && s1.clock < s1.loop.at
    ensures CanReach(s, s') && Active(s') && SameCircumstances(s1, s', id)
    ensures id in s'.core.pending ==> s'.clock < s'.core.pending[id].at
  {
    CanReachMore(s, s1, Requeue);
    InvStep(s1, Requeue);
    RequeueEffect(s1, id);
    s' := After(s1, Requeue);
  }

  lemma RequeueEffect(s: Sys, id: string)
    requires s.loop.Repeating? && AtWork(s) && TaskOf(s, s.loop.d).id == id
    requires TaskOf(s, s.loop.d).ctx.Some? && id !in s.core.pending && s.clock < s.loop.at
    ensures var s' := After(s, Requeue);
            && s'.loop == Top && SameCircumstances(s, s', id)
            && (id in s'.core.pending ==> s'.clock < s'.core.pending[id].at)
  {
    var copy := RepeatCopy(TaskOf(s, s.loop.d), s.loop.at);
    var s' := Inserted(s, Some(copy), ParseError, Some(s.loop.d));
    assert s'.core.pending - {id} == s.core.pending - {id};
    assert s'.queued - {id} == s.queued - {id};
  }

  /** The loop takes a due task and is done with it: shown and perhaps repeated, or skipped. */
  lemma FireOther(s: Sys, s1: Sys, u: TimerTask) returns (s': Sys)
    requires CanReach(s, s1) && Active(s1) && IsNext(u, s1.core.pending) && u.at <= s1.clock
    ensures CanReach(s, s') && Active(s') && SameCircumstances(s1, s', u.id)
    ensures u.id in s'.core.pending ==> s'.clock < s'.core.pending[u.id].at
  {
    var s2 := TakeInto(s, s1, u);
    if TaskDone(u, s2.core.cancelled) {
      CanReachMore(s, s2, Inspect);
      InvStep(s2, Inspect);
      s' := After(s2, Inspect);
    } else {
      var s3 := ShowFrom(s, s2);
      s' := FinishFrom(s, s3, u.id);
    }
  }

  ghost function Due(s: Sys): set<string> {
    set id | id in s.core.pending && s.core.pending[id].at <= s.clock
  }

  /** A due task whose context is alive comes up: the loop first works off what precedes it. */
  lemma TaskComesUp(s: Sys, s1: Sys, t: TimerTask) returns (s': Sys)
    requires CanReach(s, s1) && Active(s1) && t.id in s1.core.pending && s1.core.pending[t.id] == t
    requires t.at <= s1.clock && !TaskDone(t, s1.core.cancelled)
    ensures CanReach(s, s') && t.id in s1.queued && EverShown(s', s1.queued[t.id])
    decreases |Due(s1)|
  {
    SomeTaskIsNext(s1.core.pending);
    var u :| IsNext(u, s1.core.pending);
    assert u.at <= t.at;
    assert t.id in s1.queued;
    if u.id == t.id {
      var s2 := TakeInto(s, s1, t);
      s' := ShowFrom(s, s2);
    } else {
      var s2 := FireOther(s, s1, u);
      DueShrinks(s1, s2, u.id);
      OthersStay(s1, s2, u.id, t.id);
      s' := TaskComesUp(s, s2, t);
    }
  }

  /** Task `id` is queued as before, and no context has been cancelled. */
  ghost predicate Untouched(s: Sys, s': Sys, id: string) {
    && id in s.core.pending && id in s'.core.pending && s'.core.pending[id] == s.core.pending[id]
    && id in s.queued && id in s'.queued && s'.queued[id] == s.queued[id]
    && s'.core.cancelled == s.core.cancelled
  }

  /** A running engine that nobody is stopping. */
  ghost predicate Up(s: Sys) {
    Inv(s) && s.core.running && !s.core.ctxDone && s.control == Resting
  }

  lemma OneStep(s: Sys, s1: Sys, a: Action) returns (s': Sys)
    requires CanReach(s, s1) && Up(s1) && Enabled(s1, a)
    ensures CanReach(s, s') && Inv(s') && s' == After(s1, a)
  {
    CanReachMore(s, s1, a);
    InvStep(s1, a);
    s' := After(s1, a);
  }

  /** From wherever it waits, the loop comes back for its next pass. */
  lemma WaitEnds(s: Sys, s1: Sys, id: string) returns (s': Sys)
    requires CanReach(s, s1) && Up(s1) && (s1.loop.Parked? || s1.loop == Napping) && id in s1.core.pending
    ensures CanReach(s, s') && Up(s') && s'.loop == Top && Untouched(s1, s', id)
  {
    if s1.loop == Napping {
      s' := OneStep(s, s1, NapOver);
    } else {
      var deadline := s1.loop.deadline;
      var s2 := OneStep(s, s1, Tick(if s1.clock < deadline then deadline else s1.clock));
      s' := OneStep(s, s2, TimerFires);
    }
  }

  /** From wherever it is in its work on a task, the loop comes back for its next pass. */
  lemma WorkEnds(s: Sys, s1: Sys, id: string) returns (s': Sys)
    requires CanReach(s, s1) && Up(s1) && Working(s1.loop) && id in s1.core.pending
    ensures CanReach(s, s') && Up(s') && s'.loop == Top && Untouched(s1, s', id)
  {
    match s1.loop
    case Holding(_) =>
      WorkLeaves(s1, Inspect);
      s' := OneStep(s, s1, Inspect);
      if s'.loop.Notifying? {
        s' := NotifyEnds(s, s', id);
      }
    case Notifying(_) => s' := NotifyEnds(s, s1, id);
    case InCallback(_) => s' := CallbackEnds(s, s1, id);
    case Repeating(_, _) => s' := RequeueEnds(s, s1, id);
  }

  lemma NotifyEnds(s: Sys, s1: Sys, id: string) returns (s': Sys)
    requires CanReach(s, s1) && Up(s1) && s1.loop.Notifying? && id in s1.core.pending
    ensures CanReach(s, s') && Up(s') && s'.loop == Top && Untouched(s1, s', id)
  {
    WorkLeaves(s1, Notify);
    var s2 := OneStep(s, s1, Notify);
    s' := CallbackEnds(s, s2, id);
  }

  lemma CallbackEnds(s: Sys, s1: Sys, id: string) returns (s': Sys)
    requires CanReach(s, s1) && Up(s1) && s1.loop.InCallback? && id in s1.core.pending
    ensures CanReach(s, s') && Up(s') && s'.loop == Top && Untouched(s1, s', id)
  {
    WorkLeaves(s1, Return(ParseError));
    s' := OneStep(s, s1, Return(ParseError));
    if s'.loop.Repeating? {
      s' := RequeueEnds(s, s', id);
    }
  }

  lemma RequeueEnds(s: Sys, s1: Sys, id: string) returns (s': Sys)
    requires CanReach(s, s1) && Up(s1) && s1.loop.Repeating? && id in s1.core.pending
    ensures CanReach(s, s') && Up(s') && s'.loop == Top && Untouched(s1, s', id)
  {
    RequeueLeaves(s1, id);
    s' := OneStep(s, s1, Requeue);
  }

  lemma RequeueLeaves(s: Sys, id: string)
    requires s.loop.Repeating? && AtWork(s) && id in s.core.pending && id in s.queued
    ensures var s' := After(s, Requeue);
            && s'.loop == Top && Untouched(s, s', id) && s'.control == s.control
            && s'.core.running == s.core.running && s'.core.ctxDone == s.core.ctxDone
  {
  }

  /** The steps of the loop on a task change neither the engine nor its queue. */
  lemma WorkLeaves(s: Sys, a: Action)
    requires Enabled(s, a) && (a.Inspect? || a.Notify? || a.Return?)
    ensures After(s, a).core == s.core && After(s, a).control == s.control && After(s, a).queued == s.queued
    ensures a.Notify? ==> After(s, a).loop.InCallback?
    ensures a.Inspect? ==> After(s, a).loop == Top || After(s, a).loop.Notifying?
    ensures a.Return? ==> After(s, a).loop == Top || After(s, a).loop.Repeating?
  {
  }

  /**
   No pending task is starved: in a running engine, whatever the loop is doing, a pending task
   whose context is alive can still be shown.
   */
  lemma PendingCanBeShown(s: Sys, id: string)
    requires Reachable(s) && s.core.running && s.control == Resting
    requires id in s.core.pending && !TaskDone(s.core.pending[id], s.core.cancelled)
    ensures id in s.queued && exists s' :: CanReach(s, s') && EverShown(s', s.queued[id])
  {
    ReachableInv(s);
    assert Steps(s, [], s);
    var s1 := s;
    if Working(s.loop) {
      s1 := WorkEnds(s, s, id);
    } else if s.loop != Top {
      s1 := WaitEnds(s, s, id);
    }
    var t := s.core.pending[id];
    var s2 := OneStep(s, s1, Tick(if s1.clock < t.at then t.at else s1.clock));
    var s' := TaskComesUp(s, s2, t);
  }

  /** `Stop` is waiting for the loop, in a state reached from `s` with the same queue. */
  ghost predicate Joins(s: Sys, s1: Sys) {
    CanReach(s, s1) && Inv(s1) && s1.control == Joining && s1.core.pending == s.core.pending
  }

  lemma JoiningStep(s: Sys, s1: Sys, a: Action) returns (s': Sys)
    requires Joins(s, s1) && Enabled(s1, a)
    requires a.Inspect? || a.Notify? || a.Return? || a.Requeue? || a.SeeDone? || a == Pass(Exit)
    ensures Joins(s, s') && s' == After(s1, a)
  {
    JoiningLeaves(s1, a);
    CanReachMore(s, s1, a);
    InvStep(s1, a);
    s' := After(s1, a);
  }

  lemma JoiningLeaves(s: Sys, a: Action)
    requires Enabled(s, a) && !s.core.running
    requires a.Inspect? || a.Notify? || a.Return? || a.Requeue? || a.SeeDone? || a == Pass(Exit)
    ensures After(s, a).core.pending == s.core.pending && After(s, a).control == s.control
  {
    if a.Inspect? || a.Notify? || a.Return? {
      WorkLeaves(s, a);
    }
  }

  lemma JoinFromCallback(s: Sys, s1: Sys) returns (s': Sys)
    requires Joins(s, s1) && (s1.loop.InCallback? || s1.loop.Repeating?)
    ensures Joins(s, s') && s'.loop == Top
  {
    s' := s1;
    if s'.loop.InCallback? {
      s' := JoiningStep(s, s', Return(ParseError));
    }
    if s'.loop.Repeating? {
      s' := JoiningStep(s, s', Requeue);
    }
  }

  lemma JoinFromWork(s: Sys, s1: Sys) returns (s': Sys)
    requires Joins(s, s1) && Working(s1.loop)
    ensures Joins(s, s') && s'.loop == Top
  {
    s' := s1;
    if s'.loop.Holding? {
      s' := JoiningStep(s, s', Inspect);
    }
    if s'.loop.Notifying? {
      s' := JoiningStep(s, s', Notify);
    }
    if s'.loop != Top {
      s' := JoinFromCallback(s, s');
    }
  }

  lemma JoinEnds(s: Sys, s1: Sys) returns (s': Sys)
    requires Joins(s, s1) && !Working(s1.loop)
    ensures Joins(s, s') && s'.loop == Gone
  {
    match s1.loop
    case Gone => s' := s1;
    case Top => s' := JoiningStep(s, s1, Pass(Exit));
    case Napping => s' := JoiningStep(s, s1, SeeDone);
    case Parked(_) => s' := JoiningStep(s, s1, SeeDone);
  }

  /** `Stop` comes back: whatever the loop is doing when it waits for it, the loop can end. */
  lemma StopComesBack(s: Sys) returns (s': Sys)
    requires Reachable(s) && s.control == Joining
    ensures CanReach(s, s') && s'.control == Resting && !s'.core.running && s'.loop == Gone
    ensures s'.core.pending == s.core.pending
  {
    ReachableInv(s);
    assert Steps(s, [], s);
    var s1 := s;
    if Working(s.loop) {
      s1 := JoinFromWork(s, s);
    }
    var s2 := JoinEnds(s, s1);
    CanReachMore(s, s2, StopReturns);
    s' := After(s2, StopReturns);
  }

  lemma OthersStay(s: Sys, s': Sys, id: string, other: string)
    requires SameCircumstances(s, s', id) && other != id && other in s.core.pending && other in s.queued
    ensures other in s'.core.pending && s'.core.pending[other] == s.core.pending[other]
    ensures other in s'.queued && s'.queued[other] == s.queued[other]
  {
    assert other in s'.core.pending - {id} && other in s'.queued - {id};
    assert (s'.core.pending - {id})[other] == (s.core.pending - {id})[other];
    assert (s'.queued - {id})[other] == (s.queued - {id})[other];
  }

  lemma DueShrinks(s: Sys, s': Sys, id: string)
    requires SameCircumstances(s, s', id) && id in Due(s)
    requires id in s'.core.pending ==> s'.clock < s'.core.pending[id].at
    ensures |Due(s')| < |Due(s)|
  {
    forall other | other in Due(s') ensures other in Due(s) - {id} {
      assert other in s'.core.pending - {id};
      assert (s'.core.pending - {id})[other] == (s.core.pending - {id})[other];
    }
    SubsetIsSmaller(Due(s'), Due(s) - {id});
  }

  lemma {:induction false} SubsetIsSmaller(a: set<string>, b: set<string>)
    requires a <= b
    ensures |a| <= |b|
  {
    if a != {} {
      var x :| x in a;
      SubsetIsSmaller(a - {x}, b - {x});
    }
  }
}
