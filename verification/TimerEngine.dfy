/**
 The high precision timer engine (transport/hptimer/high_precision_timer.go).

 Each critical section of the engine is described twice: by a function or relation
 on the abstract state `Core`, in which the queue is just a map of pending tasks, and
 by a method of `HighPrecisionTimer`, which works on the heap and the task index.
 The methods are proved to implement the abstract sections.
 */
module TimerEngine {
  import opened Options
  import opened TimerTasks
  import opened TimerHeaps

  /** The engine's one-shot timer: never created, armed with a deadline, or stopped. */
  datatype Timer = NoTimer | Armed(deadline: Time) | Halted

  /** What the cron library answers for the task's expression at the time of the call. */
  datatype CronNext = ParseError | NextAt(at: Time)

  /**
   `pending` is the queue, `token` the one-slot wakeup channel, `ctxDone` the state of the
   engine's own context, `cancelled` the identities of cancelled contexts, and `serial`
   the identity the next derived context gets.
   */
  datatype Core = Core(
    pending: map<string, TimerTask>, timer: Timer, running: bool, token: bool,
    ctxDone: bool, cancelled: set<nat>, serial: nat)

  // ---------- AddTask ----------

  ghost predicate PrecedesAll(t: TimerTask, pending: map<string, TimerTask>) {
    forall id | id in pending :: Less(t, pending[id])
  }

  /** The task that `AddTask` queues, if it queues one. */
  function Admitted(c: Core, task: Option<TimerTask>, next: CronNext): Option<TimerTask> {
    if task.None? || !c.running || task.value.id == "" then None
    else
      var t := InitContext(task.value, c.serial);
      var needsCron := t.at == ZERO_TIME && t.cron != "";
      if needsCron && next.ParseError? then None
      else
        var timed := if needsCron then t.(at := next.at) else t;
        if timed.at == ZERO_TIME || timed.id in c.pending then None else Some(timed)
  }

  function SerialAfterAdd(c: Core, task: Option<TimerTask>): nat {
    if task.Some? && c.running && task.value.id != "" && task.value.ctx.None? then c.serial + 1 else c.serial
  }

  ghost function AfterAdd(c: Core, task: Option<TimerTask>, next: CronNext): Core {
    var c1 := c.(serial := SerialAfterAdd(c, task));
    match Admitted(c, task, next)
    case None => c1
    case Some(t) =>
      c1.(pending := c.pending[t.id := t],
          token := c.token || (c.timer != NoTimer && PrecedesAll(t, c.pending)))
  }

  // ---------- RemoveTask ----------

  function CancelOf(t: TimerTask): set<nat> {
    if t.cancel.Some? then {t.cancel.value} else {}
  }

  predicate CanRemove(c: Core, id: string) {
    id in c.pending && c.running
  }

  function AfterRemove(c: Core, id: string): Core {
    if !CanRemove(c, id) then c
    else c.(pending := c.pending - {id}, cancelled := c.cancelled + CancelOf(c.pending[id]))
  }

  // ---------- One critical section of the main loop ----------

  datatype Decision = Exit | Nap | Fire(task: TimerTask) | Park(deadline: Time)

  /** `t` is pending and no pending task precedes it. */
  ghost predicate IsNext(t: TimerTask, pending: map<string, TimerTask>) {
    && t.id in pending && pending[t.id] == t
    && forall id | id in pending :: !Less(pending[id], t)
  }

  ghost predicate LoopSection(c: Core, now: Time, d: Decision, c': Core) {
    match d
    case Exit => (!c.running || c.ctxDone) && c' == c
    case Nap => c.running && !c.ctxDone && c.pending == map[] && c' == c
    case Fire(t) =>
      && c.running && !c.ctxDone && IsNext(t, c.pending) && t.at <= now
      && c' == c.(pending := c.pending - {t.id})
    case Park(deadline) =>
      && c.running && !c.ctxDone
      && (exists t :: IsNext(t, c.pending) && now < t.at == deadline)
      && c' == c.(timer := Armed(deadline))
  }

  // ---------- Start and Stop ----------

  function AfterStart(c: Core): Core {
    if c.running then c else c.(running := true, ctxDone := false)
  }

  function CancelsOf(pending: map<string, TimerTask>): set<nat> {
    set id | id in pending && pending[id].cancel.Some? :: pending[id].cancel.value
  }

  function Stopped(t: Timer): Timer {
    if t.Armed? then Halted else t
  }

  /** The critical section of `Stop`, after it has cancelled the engine's context. */
  function AfterStop(c: Core): Core {
    if !c.running then c
    else c.(running := false, timer := Stopped(c.timer), cancelled := c.cancelled + CancelsOf(c.pending))
  }

  // ---------- Repeating tasks ----------

  /** When `handleRepeatTask` wants the next run of a task that fired at clock reading `now`. */
  function RepeatAt(t: TimerTask, now: Time, next: CronNext): Option<Time> {
    if t.interval > 0 then (if now + t.interval == ZERO_TIME then None else Some(now + t.interval))
    else if t.cron != "" && next.NextAt? && next.at != ZERO_TIME then Some(next.at)
    else None
  }

  /** The copy that `handleRepeatTask` queues: a new deadline, and no payload. */
  function RepeatCopy(t: TimerTask, at: Time): TimerTask {
    TimerTask(t.id, at, t.interval, t.cron, "", t.callback, t.priority, t.ctx, t.cancel)
  }

  /** The payload survives a repeat only when there was none. */
  lemma RepeatDropsData(t: TimerTask, at: Time)
    ensures RepeatCopy(t, at) == t.(at := at) <==> t.data == ""
  {
  }

  // ---------- The heap as a set ----------

  /** The heap holds exactly the indexed tasks, each once. */
  ghost predicate Represents(bag: multiset<TimerTask>, tasks: map<string, TimerTask>) {
    && (forall id | id in tasks :: tasks[id].id == id)
    && (forall t: TimerTask {:trigger bag[t]} :: bag[t] == if t.id in tasks && tasks[t.id] == t then 1 else 0)
  }

  lemma RepresentsEach(s: seq<TimerTask>, tasks: map<string, TimerTask>)
    requires Represents(multiset(s), tasks)
    ensures forall t :: t in s <==> t.id in tasks && tasks[t.id] == t
  {
    forall t ensures t in s <==> t.id in tasks && tasks[t.id] == t {
      assert t in s <==> multiset(s)[t] > 0;
    }
  }

  lemma CountsBoth(s: seq<TimerTask>, i: nat, j: nat)
    requires i < j < |s|
    ensures s[i] == s[j] ==> multiset(s)[s[i]] >= 2
  {
    assert s == s[..j] + s[j..];
    assert s[..j][i] == s[i] && s[j..][0] == s[j];
    assert multiset(s)[s[i]] == multiset(s[..j])[s[i]] + multiset(s[j..])[s[i]];
    assert s[i] in s[..j] && s[j] in s[j..];
  }

  /** No identifier occurs twice in the heap. */
  lemma EachIdOnce(s: seq<TimerTask>, tasks: map<string, TimerTask>, i: nat, j: nat)
    requires Represents(multiset(s), tasks) && i < j < |s|
    ensures s[i].id != s[j].id
  {
    RepresentsEach(s, tasks);
    assert s[i] in s && s[j] in s;
    CountsBoth(s, i, j);
  }

  lemma RepresentsWithout(bag: multiset<TimerTask>, tasks: map<string, TimerTask>, t: TimerTask)
    requires Represents(bag, tasks) && t.id in tasks && tasks[t.id] == t
    ensures Represents(bag - multiset{t}, tasks - {t.id})
  {
    var rest := bag - multiset{t};
    forall u: TimerTask
      ensures rest[u] == if u.id in tasks - {t.id} && (tasks - {t.id})[u.id] == u then 1 else 0
    {
      assert rest[u] == if u == t then bag[u] - 1 else bag[u];
    }
  }

  class HighPrecisionTimer {
    const heap: TimerHeap
    var tasks: map<string, TimerTask>
    var timer: Timer
    var running: bool
    var wakeup: bool
    var ctxDone: bool
    var cancelled: set<nat>
    var serial: nat

    /** The heap is ordered by `Less` and holds exactly the tasks of the index. */
    ghost predicate Valid()
      reads this, heap
    {
      Ordered(heap.items, |heap.items|) && Represents(multiset(heap.items), tasks)
    }

    ghost function State(): Core
      reads this
    {
      Core(tasks, timer, running, wakeup, ctxDone, cancelled, serial)
    }

    constructor (serial: nat)
      ensures Valid() && fresh(heap)
      ensures State() == Core(map[], NoTimer, false, false, false, {}, serial)
    {
      heap := new TimerHeap();
      tasks, timer, running, wakeup, ctxDone, cancelled := map[], NoTimer, false, false, false, {};
      this.serial := serial;
    }

    method AddTask(task: Option<TimerTask>, next: CronNext) returns (id: string)
      requires Valid()
      modifies this, heap
      ensures Valid() && State() == AfterAdd(old(State()), task, next)
      ensures id == match Admitted(old(State()), task, next) case None => "" case Some(t) => t.id
    {
      if task.None? {
        return "";
      }
      var t := task.value;
      if !running || t.id == "" {
        return "";
      }
      if t.ctx.None? {
        t := t.(ctx := Some(Derived(serial, Background)), cancel := Some(serial));
        serial := serial + 1;
      }
      if t.at == ZERO_TIME && t.cron != "" {
        if next.ParseError? {
          return "";
        }
        t := t.(at := next.at);
      }
      if t.at == ZERO_TIME {
        return "";
      }
      if t.id in tasks {
        return "";
      }
      assert Some(t) == Admitted(old(State()), task, next);
      Enqueue(t);
      if timer != NoTimer && |heap.items| > 0 && heap.items[0] == t {
        wakeup := true;
      }
      return t.id;
    }

    /** The insertion inside `AddTask`; the new task is on top exactly when it precedes all the others. */
    method Enqueue(t: TimerTask)
      requires Valid() && t.id !in tasks
      modifies heap, this`tasks
      ensures Valid() && tasks == old(tasks)[t.id := t]
      ensures heap.items != [] && (heap.items[0] == t <==> PrecedesAll(t, old(tasks)))
    {
      ghost var before := heap.items;
      RepresentsEach(before, tasks);
      PushedCorrect(before, t);
      assert forall id | id in tasks :: tasks[id] in before;
      if before != [] {
        RootPrecedesAll(before);
        assert before[0] in before;
      }
      heap.Push(t);
      tasks := tasks[t.id := t];
    }

    method RemoveTask(id: string) returns (ok: bool)
      requires Valid()
      modifies this, heap
      ensures Valid() && State() == AfterRemove(old(State()), id) && ok == CanRemove(old(State()), id)
    {
      if id !in tasks || !running {
        return false;
      }
      var task := tasks[id];
      if task.cancel.Some? {
        cancelled := cancelled + {task.cancel.value};
      }
      DequeueById(id);
      return true;
    }

    /** The scan and the deletions inside `RemoveTask`. */
    method DequeueById(id: string)
      requires Valid() && id in tasks
      modifies heap, this`tasks
      ensures Valid() && tasks == old(tasks) - {id}
    {
      ghost var s := heap.items;
      RepresentsEach(s, tasks);
      assert tasks[id] in s;
      var i := 0;
      while heap.items[i].id != id
        invariant 0 <= i < |s| && heap.items == s
        invariant forall k | 0 <= k < i :: s[k].id != id
        decreases |s| - i
      {
        i := i + 1;
      }
      assert s[i] in s;
      EntryLastCorrect(s, i);
      PrefixKeeps(EntryLast(s, i), |s| - 1);
      RepresentsWithout(multiset(s), tasks, s[i]);
      var x := heap.RemoveAt(i);
      tasks := tasks - {id};
    }

    /** The removal of the top task inside the main loop. */
    method DequeueTop() returns (x: TimerTask)
      requires Valid() && heap.items != []
      modifies heap, this`tasks
      ensures x == old(heap.items)[0]
      ensures Valid() && tasks == old(tasks) - {x.id}
    {
      ghost var s := heap.items;
      x := heap.items[0];
      RepresentsEach(s, tasks);
      assert x in s;
      RootLastCorrect(s);
      PrefixKeeps(RootLast(s), |s| - 1);
      RepresentsWithout(multiset(s), tasks, x);
      var y := heap.Pop();
      tasks := tasks - {x.id};
    }

    /** One pass of the main loop from `Lock` to `Unlock`, at clock reading `now`. */
    method Section(now: Time) returns (d: Decision)
      requires Valid()
      modifies this, heap
      ensures Valid() && LoopSection(old(State()), now, d, State())
    {
      if !running || ctxDone {
        return Exit;
      }
      RepresentsEach(heap.items, tasks);
      assert forall id | id in tasks :: tasks[id] in heap.items;
      if |heap.items| == 0 {
        assert tasks == map[];
        return Nap;
      }
      var nextTask := heap.items[0];
      RootPrecedesAll(heap.items);
      assert nextTask in heap.items;
      assert IsNext(nextTask, tasks);
      if nextTask.at <= now {
        var x := DequeueTop();
        return Fire(nextTask);
      }
      timer := Armed(nextTask.at);
      return Park(nextTask.at);
    }

    method Start() returns (launched: bool)
      requires Valid()
      modifies this
      ensures Valid() && State() == AfterStart(old(State())) && launched == !old(running)
    {
      if running {
        return false;
      }
      running := true;
      if ctxDone {
        ctxDone := false;
      }
      return true;
    }

    method StopSection()
      requires Valid()
      modifies this
      ensures Valid() && State() == AfterStop(old(State()))
    {
      if !running {
        return;
      }
      running := false;
      if timer.Armed? {
        timer := Halted;
      }
      var todo := tasks.Keys;
      while todo != {}
        invariant todo <= tasks.Keys
        invariant tasks == old(tasks) && heap.items == old(heap.items)
        invariant cancelled == old(cancelled) + CancelsOf(tasks - todo)
        invariant State() == old(State()).(running := false, timer := Stopped(old(timer)), cancelled := cancelled)
      {
        var id :| id in todo;
        if tasks[id].cancel.Some? {
          cancelled := cancelled + {tasks[id].cancel.value};
        }
        CancelOne(tasks, todo, id);
        todo := todo - {id};
      }
      assert tasks - {} == tasks;
    }
  }

  lemma CancelOne(tasks: map<string, TimerTask>, todo: set<string>, id: string)
    requires id in todo && todo <= tasks.Keys
    ensures CancelsOf(tasks - (todo - {id})) == CancelsOf(tasks - todo) + CancelOf(tasks[id])
  {
    var a, b := tasks - (todo - {id}), tasks - todo;
    forall c | c in CancelsOf(a) ensures c in CancelsOf(b) + CancelOf(tasks[id]) {
      var k :| k in a && a[k].cancel.Some? && a[k].cancel.value == c;
      assert k != id ==> k in b && b[k] == a[k];
    }
    forall c | c in CancelsOf(b) + CancelOf(tasks[id]) ensures c in CancelsOf(a) {
      if c in CancelsOf(b) {
        var k :| k in b && b[k].cancel.Some? && b[k].cancel.value == c;
        assert k in a && a[k] == b[k];
      } else {
        assert id in a;
      }
    }
  }
}
