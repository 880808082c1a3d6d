/**
 Timer tasks and the contexts that cancel them (transport/hptimer/timer_task.go).

 A context is either the background context or one derived by `WithCancel`, which
 gives it a fresh identity. Cancelling an identity ends every context below it.
 */
module TimerTasks {
  import opened Options

  type Time = int

  /** The zero value of a Go `time.Time`. */
  const ZERO_TIME: Time := 0

  datatype Context = Background | Derived(id: nat, parent: Context)

  /** The identities whose cancellation ends `c`. */
  function Lineage(c: Context): set<nat> {
    match c
    case Background => {}
    case Derived(id, parent) => {id} + Lineage(parent)
  }

  predicate Done(c: Context, cancelled: set<nat>) {
    Lineage(c) * cancelled != {}
  }

  /** A context ends with its own cancellation or that of any context above it, and with nothing else. */
  lemma DoneExactly(id: nat, parent: Context, cancelled: set<nat>)
    ensures Done(Derived(id, parent), cancelled) <==> id in cancelled || Done(parent, cancelled)
    ensures !Done(Background, cancelled)
  {
    if Done(parent, cancelled) {
      var i :| i in Lineage(parent) * cancelled;
      assert i in Lineage(Derived(id, parent)) * cancelled;
    }
    if id in cancelled {
      assert id in Lineage(Derived(id, parent)) * cancelled;
    }
  }

  const PRIORITY_LOW := 2

  /** `cancel` is the identity that the task's own cancel function cancels. */
  datatype TimerTask = TimerTask(
    id: string, at: Time, interval: int, cron: string, data: string,
    callback: nat, priority: int, ctx: Option<Context>, cancel: Option<nat>)

  /** `timerHeap.Less`: earlier first, and on a tie the smaller priority number first. */
  predicate Less(a: TimerTask, b: TimerTask) {
    a.at < b.at || (a.at == b.at && a.priority < b.priority)
  }

  predicate TaskDone(t: TimerTask, cancelled: set<nat>) {
    t.ctx.Some? && Done(t.ctx.value, cancelled)
  }

  /** The task's own cancel function ends the context that the engine looks at. */
  predicate Controlled(t: TimerTask) {
    t.ctx.Some? && t.cancel.Some? && t.cancel.value in Lineage(t.ctx.value)
  }

  /** What `AddTask` does to a task without a context before it queues it. */
  function InitContext(t: TimerTask, serial: nat): TimerTask {
    if t.ctx.None? then t.(ctx := Some(Derived(serial, Background)), cancel := Some(serial)) else t
  }

  // ---------- Construction ----------

  /**
   The options of the package, plus `AssignContext`: `Ctx` is an exported field, so
   an option written by a caller can replace it, while `cancel` is not exported.
   */
  datatype TaskOption =
    | WithInterval(interval: int)
    | WithCron(cron: string)
    | WithData(data: string)
    | WithCallback(callback: nat)
    | WithPriority(priority: int)
    | WithContext(parent: Option<Context>)
    | AssignContext(ctx: Option<Context>)

  /** One option applied to a task; `serial` names the context that `WithContext` derives. */
  function Apply(t: TimerTask, o: TaskOption, serial: nat): TimerTask {
    match o
    case WithInterval(d) => t.(interval := d)
    case WithCron(e) => t.(cron := e)
    case WithData(v) => t.(data := v)
    case WithCallback(cb) => t.(callback := cb)
    case WithPriority(p) => t.(priority := p)
    case WithContext(None) => t
    case WithContext(Some(c)) => t.(ctx := Some(Derived(serial, c)), cancel := Some(serial))
    case AssignContext(c) => t.(ctx := c)
  }

  function Default(id: string, at: Time, serial: nat): TimerTask {
    TimerTask(id, at, 0, "", "", 0, PRIORITY_LOW, Some(Derived(serial, Background)), Some(serial))
  }

  /** The default task with every option applied in order; option `i` may use identity `serial + 1 + i`. */
  function Configured(id: string, at: Time, opts: seq<TaskOption>, serial: nat): TimerTask {
    if opts == [] then Default(id, at, serial)
    else
      var last := |opts| - 1;
      Apply(Configured(id, at, opts[..last], serial), opts[last], serial + 1 + last)
  }

  /** The context the finished task carries was assigned from outside by the last option that touched it. */
  predicate EndsWithForeignContext(opts: seq<TaskOption>) {
    if opts == [] then false
    else
      match opts[|opts| - 1]
      case AssignContext(c) => c.Some?
      case WithContext(Some(_)) => false
      case _ => EndsWithForeignContext(opts[..|opts| - 1])
  }

  /** Every context that the options mention was created before the call. */
  ghost predicate ContextsPredate(opts: seq<TaskOption>, serial: nat) {
    forall o | o in opts ::
      match o
      case WithContext(Some(c)) => forall i | i in Lineage(c) :: i < serial
      case AssignContext(Some(c)) => forall i | i in Lineage(c) :: i < serial
      case _ => true
  }

  method NewTimerTask(id: string, at: Time, opts: seq<TaskOption>, serial: nat)
      returns (t: TimerTask, nextSerial: nat)
    ensures t == Configured(id, at, opts, serial)
    ensures nextSerial == serial + 1 + |opts|
  {
    t := Default(id, at, serial);
    for i := 0 to |opts|
      invariant t == Configured(id, at, opts[..i], serial)
      invariant t.cancel.Some?
    {
      assert opts[..i + 1][..i] == opts[..i];
      t := Apply(t, opts[i], serial + 1 + i);
    }
    assert opts[..|opts|] == opts;
    nextSerial := serial + 1 + |opts|;
    if t.ctx.Some? && t.cancel.None? {
      assert false;
    }
  }

  /** What the options leave behind: a cancel function always, and which context it belongs to. */
  lemma {:induction false} ConfiguredContext(id: string, at: Time, opts: seq<TaskOption>, serial: nat)
    ensures var t := Configured(id, at, opts, serial);
            && t.id == id && t.at == at
            && t.cancel.Some? && serial <= t.cancel.value
            && (EndsWithForeignContext(opts) ==> t.ctx.Some?)
            && (EndsWithForeignContext(opts) && ContextsPredate(opts, serial) ==>
                  forall i | i in Lineage(t.ctx.value) :: i < serial)
            && (!EndsWithForeignContext(opts) && t.ctx.Some? ==> t.cancel.value in Lineage(t.ctx.value))
  {
    if opts != [] {
      var init := opts[..|opts| - 1];
      assert opts[|opts| - 1] in opts;
      assert forall o | o in init :: o in opts;
      ConfiguredContext(id, at, init, serial);
    }
  }

  /** `i` is the last place of `opts` that satisfies `sets`. */
  ghost predicate LastAt(opts: seq<TaskOption>, i: nat, sets: TaskOption -> bool) {
    i < |opts| && sets(opts[i]) && forall j | i < j < |opts| :: !sets(opts[j])
  }

  ghost predicate Nowhere(opts: seq<TaskOption>, sets: TaskOption -> bool) {
    forall j | 0 <= j < |opts| :: !sets(opts[j])
  }

  /** What holds of the last place holds of it in a shorter list, if it is not the end of the list. */
  lemma LastInInit(opts: seq<TaskOption>, i: nat, sets: TaskOption -> bool)
    requires opts != []
    ensures LastAt(opts, i, sets) && i < |opts| - 1 ==>
              LastAt(opts[..|opts| - 1], i, sets) && opts[..|opts| - 1][i] == opts[i]
    ensures Nowhere(opts, sets) ==> Nowhere(opts[..|opts| - 1], sets)
  {
  }

  /** The interval and the cron expression are those of the last option that sets them, or none. */
  lemma {:induction false} ConfiguredSchedule(id: string, at: Time, opts: seq<TaskOption>, serial: nat, i: nat)
    ensures var t := Configured(id, at, opts, serial);
            && (LastAt(opts, i, (o: TaskOption) => o.WithInterval?) ==> t.interval == opts[i].interval)
            && (Nowhere(opts, (o: TaskOption) => o.WithInterval?) ==> t.interval == 0)
            && (LastAt(opts, i, (o: TaskOption) => o.WithCron?) ==> t.cron == opts[i].cron)
            && (Nowhere(opts, (o: TaskOption) => o.WithCron?) ==> t.cron == "")
    decreases |opts|
  {
    if opts != [] {
      LastInInit(opts, i, (o: TaskOption) => o.WithInterval?);
      LastInInit(opts, i, (o: TaskOption) => o.WithCron?);
      ConfiguredSchedule(id, at, opts[..|opts| - 1], serial, i);
    }
  }

  /** Data, callback and priority are those of the last option that sets them, or none, none and low. */
  lemma {:induction false} ConfiguredPayload(id: string, at: Time, opts: seq<TaskOption>, serial: nat, i: nat)
    ensures var t := Configured(id, at, opts, serial);
            && (LastAt(opts, i, (o: TaskOption) => o.WithData?) ==> t.data == opts[i].data)
            && (Nowhere(opts, (o: TaskOption) => o.WithData?) ==> t.data == "")
            && (LastAt(opts, i, (o: TaskOption) => o.WithCallback?) ==> t.callback == opts[i].callback)
            && (Nowhere(opts, (o: TaskOption) => o.WithCallback?) ==> t.callback == 0)
            && (LastAt(opts, i, (o: TaskOption) => o.WithPriority?) ==> t.priority == opts[i].priority)
            && (Nowhere(opts, (o: TaskOption) => o.WithPriority?) ==> t.priority == 2)
    decreases |opts|
  {
    if opts != [] {
      LastInInit(opts, i, (o: TaskOption) => o.WithData?);
      LastInInit(opts, i, (o: TaskOption) => o.WithCallback?);
      LastInInit(opts, i, (o: TaskOption) => o.WithPriority?);
      ConfiguredPayload(id, at, opts[..|opts| - 1], serial, i);
    }
  }

  /** Options that put a context into the task. */
  predicate SetsContext(o: TaskOption) {
    o.AssignContext? || (o.WithContext? && o.parent.Some?)
  }

  /**
   The context is one derived from the parent that the last context option gave, or the one
   it assigned, or one of the task's own; the cancel function is that of the last one derived.
   */
  lemma {:induction false} ConfiguredContextIs(id: string, at: Time, opts: seq<TaskOption>, serial: nat, i: nat)
    ensures var t := Configured(id, at, opts, serial);
            && (LastAt(opts, i, SetsContext) ==>
                  t.ctx == if opts[i].AssignContext? then opts[i].ctx
                           else Some(Derived(serial + 1 + i, opts[i].parent.value)))
            && (Nowhere(opts, SetsContext) ==> t.ctx == Some(Derived(serial, Background)))
            && (LastAt(opts, i, (o: TaskOption) => o.WithContext? && o.parent.Some?) ==>
                  t.cancel == Some(serial + 1 + i))
            && (Nowhere(opts, (o: TaskOption) => o.WithContext? && o.parent.Some?) ==> t.cancel == Some(serial))
    decreases |opts|
  {
    if opts != [] {
      LastInInit(opts, i, SetsContext);
      LastInInit(opts, i, (o: TaskOption) => o.WithContext? && o.parent.Some?);
      ConfiguredContextIs(id, at, opts[..|opts| - 1], serial, i);
    }
  }

  /**
   A task from `NewTimerTask` can be cancelled by the engine exactly when no
   caller-written option had the last word on its context. The source comment
   promises a cancel function in that case too; the guard it relies on never holds,
   because the default cancel function is always there.
   */
  lemma NewTaskControlled(id: string, at: Time, opts: seq<TaskOption>, serial: nat, later: nat)
    requires ContextsPredate(opts, serial)
    ensures Controlled(InitContext(Configured(id, at, opts, serial), later)) <==> !EndsWithForeignContext(opts)
  {
    ConfiguredContext(id, at, opts, serial);
  }
}
