/**
 The batching consumer loop and its backoff (broker/kafka/subscriber.go).

 The environment is a script: which case each `select` takes, and what each fetch returns.
 How handling a message ends is an arbitrary function of its position. The ticker, the
 clock and the jitter are inputs.
 */
module KafkaConsumer {
  // ---------- Backoff ----------

  const MILLISECOND := 1_000_000
  const DEADLINE_MIN := 50 * MILLISECOND
  const DEADLINE_MAX := 500 * MILLISECOND
  const ERROR_MIN := 500 * MILLISECOND
  const ERROR_MAX := 5_000 * MILLISECOND
  const TWO63: int := 0x8000_0000_0000_0000
  const TWO64: int := 0x1_0000_0000_0000_0000
  const CAP := 6

  type Duration = d: int | -TWO63 <= d < TWO63

  function Pow2(k: nat): (r: int)
    ensures r >= 1
  {
    if k == 0 then 1 else 2 * Pow2(k - 1)
  }

  /** Two's complement: the 64-bit value congruent to `x`. */
  function Wrapped(x: int): Duration {
    var r := x % TWO64;
    if r < TWO63 then r else r - TWO64
  }

  /** `x << uint(attempt)` on 64 bits; a negative count becomes a huge one. */
  function ShiftLeft(x: Duration, attempt: int): Duration {
    if attempt < 0 || attempt >= 64 then 0 else Wrapped(x * Pow2(attempt))
  }

  function LowLimit(min: Duration): Duration {
    if min <= 0 then DEADLINE_MIN else min
  }

  function HighLimit(min: Duration, max: Duration): Duration {
    if max < LowLimit(min) then LowLimit(min) else max
  }

  /** The delay before jitter. */
  function Nominal(attempt: int, min: Duration, max: Duration): Duration {
    var lo, hi := LowLimit(min), HighLimit(min, max);
    var d := ShiftLeft(lo, attempt);
    var d1 := if d < lo then lo else d;
    if d1 > hi then hi else d1
  }

  /** How long `backoffSleep` sleeps; `random` is what `Int63n(d/2 + 1)` draws. */
  method BackoffSleep(attempt: int, min: Duration, max: Duration, random: int) returns (d: int, sleep: int)
    requires 0 <= random <= Nominal(attempt, min, max) / 2
    ensures d == Nominal(attempt, min, max)
    ensures 0 < LowLimit(min) <= d <= HighLimit(min, max)
    ensures 0 < min <= max ==> min <= d <= max
    ensures min <= 0 && 50_000_000 <= max ==> 50_000_000 <= d <= max
    ensures min > 0 && max < min ==> d == min
    ensures min <= 0 && max < 50_000_000 ==> d == 50_000_000
    ensures d / 2 <= sleep <= d
  {
    var lo := if min <= 0 then DEADLINE_MIN else min;
    var hi := if max < lo then lo else max;
    d := ShiftLeft(lo, attempt);
    if d < lo {
      d := lo;
    }
    if d > hi {
      d := hi;
    }
    sleep := d / 2 + random;
  }

  /** `min * 2^attempt`, limited by `max`, with no overflow. */
  function Ideal(attempt: nat, min: int, max: int): int {
    if min * Pow2(attempt) > max then max else min * Pow2(attempt)
  }

  lemma {:induction false} Pow2Grows(j: nat, k: nat)
    requires j <= k
    ensures Pow2(j) <= Pow2(k)
    decreases k
  {
    if j < k {
      Pow2Grows(j, k - 1);
    }
  }

  lemma SmallIsNotWrapped(x: int)
    requires 0 <= x < TWO63
    ensures Wrapped(x) == x
  {
  }

  lemma {:induction false} Pow2Sum(j: nat, k: nat)
    ensures Pow2(j + k) == Pow2(j) * Pow2(k)
  {
    if j > 0 {
      Pow2Sum(j - 1, k);
    }
  }

  lemma Pow2Of64()
    ensures Pow2(64) == TWO64
  {
    assert Pow2(2) == 4 && Pow2(4) == 16;
    Pow2Sum(4, 4);
    Pow2Sum(8, 8);
    Pow2Sum(16, 16);
    Pow2Sum(32, 32);
  }

  lemma LargeShiftOverflows(min: int, attempt: nat)
    requires min > 0 && attempt >= 64
    ensures min * Pow2(attempt) >= TWO64
  {
    var p := Pow2(attempt);
    Pow2Of64();
    Pow2Grows(64, attempt);
    assert min * p >= p;
  }

  /**
   The delay is the ideal one exactly when the shift does not overflow, or what is left
   after the overflow still reaches the upper limit, or the two limits coincide.
   */
  lemma NominalIsIdeal(attempt: nat, min: Duration, max: Duration)
    ensures var lo, hi := LowLimit(min), HighLimit(min, max);
            Nominal(attempt, min, max) == Ideal(attempt, lo, hi) <==>
            lo * Pow2(attempt) < TWO63 || ShiftLeft(lo, attempt) >= hi || lo == hi
  {
    ShiftIsExact(LowLimit(min), attempt);
  }

  lemma ShiftIsExact(lo: Duration, attempt: nat)
    requires lo > 0
    ensures lo * Pow2(attempt) >= lo
    ensures lo * Pow2(attempt) < TWO63 ==> ShiftLeft(lo, attempt) == lo * Pow2(attempt)
  {
    var x := lo * Pow2(attempt);
    assert x >= lo * 1;
    if attempt >= 64 {
      LargeShiftOverflows(lo, attempt);
    } else if x < TWO63 {
      SmallIsNotWrapped(x);
    }
  }

  /** Where it overflows, a later attempt can wait less than an earlier one. */
  lemma OverflowShrinksDelay()
    ensures Nominal(2, 0x2000_0000_0000_0000, TWO63 - 1) < Nominal(1, 0x2000_0000_0000_0000, TWO63 - 1)
  {
    assert Pow2(1) == 2 && Pow2(2) == 4;
  }

  lemma IdealGrows(j: nat, k: nat, min: int, max: int)
    requires j <= k && 0 < min
    ensures Ideal(j, min, max) <= Ideal(k, min, max)
  {
    Pow2Grows(j, k);
    assert min * Pow2(j) <= min * Pow2(k);
  }

  // ---------- The consumer ----------

  datatype Message = Message(partition: int, offset: int, value: string)

  datatype Failure = Fatal | Deadline | Retryable

  /** One turn of the loop's `select`. */
  datatype Event =
    | ContextDone
    | DoneClosed
    | Ticker
    | Fetched(msg: Message)
    | FetchFailed(why: Failure)

  datatype Outcome = UnmarshalFails | HandlerFails | CommitFails | Succeeds

  /** How the handling of the n-th handled message ends. */
  type Outcomes = nat -> Outcome

  datatype Config = Config(batchSize: nat, autoAck: bool, outcomes: Outcomes)

  /**
   `handled` lists the messages given to `handleMessage`, `commits` those whose offset was
   committed, and the two `Waits` the nominal delays since the last successful fetch.
   */
  datatype State = State(
    buffer: seq<Message>, handled: seq<Message>, commits: seq<Message>,
    deadlineAttempt: nat, errorAttempt: nat, deadlineWaits: seq<int>, errorWaits: seq<int>,
    running: bool)

  const START := State([], [], [], 0, 0, [], [], true)

  function Handle(c: Config, s: State, m: Message): State {
    var s1 := s.(handled := s.handled + [m]);
    if c.outcomes(|s.handled|) == Succeeds && c.autoAck then s1.(commits := s.commits + [m]) else s1
  }

  function HandleAll(c: Config, s: State, ms: seq<Message>): State {
    if ms == [] then s else Handle(c, HandleAll(c, s, ms[..|ms| - 1]), ms[|ms| - 1])
  }

  function Flushed(c: Config, s: State): State {
    HandleAll(c, s, s.buffer).(buffer := [])
  }

  function Next(attempt: nat): nat {
    if attempt < CAP then attempt + 1 else attempt
  }

  /** One turn of `processBatchMessage`. */
  function Step(c: Config, s: State, e: Event): State {
    if !s.running then s
    else
      match e
      case ContextDone => s.(running := false)
      case DoneClosed => s.(running := false)
      case Ticker => if s.buffer == [] then s else Flushed(c, s)
      case Fetched(m) =>
        var s1 := s.(deadlineAttempt := 0, errorAttempt := 0, deadlineWaits := [], errorWaits := [],
                     buffer := s.buffer + [m]);
        if |s1.buffer| >= c.batchSize then Flushed(c, s1) else s1
      case FetchFailed(Fatal) => s.(running := false)
      case FetchFailed(Deadline) =>
        s.(deadlineWaits := s.deadlineWaits + [Nominal(s.deadlineAttempt, DEADLINE_MIN, DEADLINE_MAX)],
           deadlineAttempt := Next(s.deadlineAttempt))
      case FetchFailed(Retryable) =>
        s.(errorWaits := s.errorWaits + [Nominal(s.errorAttempt, ERROR_MIN, ERROR_MAX)],
           errorAttempt := Next(s.errorAttempt))
  }

  function Run(c: Config, script: seq<Event>): State {
    if script == [] then START else Step(c, Run(c, script[..|script| - 1]), script[|script| - 1])
  }

  class Subscriber {
    const config: Config
    var state: State

    constructor (config: Config)
      ensures this.config == config && state == START
    {
      this.config, state := config, START;
    }

    method HandleMessage(m: Message) returns (failed: bool)
      modifies this
      ensures state == Handle(config, old(state), m)
      ensures failed == if config.autoAck then config.outcomes(|old(state).handled|) != Succeeds
                        else config.outcomes(|old(state).handled|).UnmarshalFails?
                             || config.outcomes(|old(state).handled|).HandlerFails?
    {
      var outcome := config.outcomes(|state.handled|);
      state := state.(handled := state.handled + [m]);
      if outcome.UnmarshalFails? {
        return true;
      }
      if outcome.HandlerFails? {
        return true;
      }
      if config.autoAck {
        if outcome.CommitFails? {
          return true;
        }
        state := state.(commits := state.commits + [m]);
      }
      return false;
    }

    method HandleBatchMessage(ms: seq<Message>)
      modifies this
      ensures state == HandleAll(config, old(state), ms)
    {
      for i := 0 to |ms|
        invariant state == HandleAll(config, old(state), ms[..i])
      {
        assert ms[..i + 1][..i] == ms[..i];
        var failed := HandleMessage(ms[i]);
      }
      assert ms[..|ms|] == ms;
    }

    method Flush()
      modifies this
      ensures state == Flushed(config, old(state))
    {
      HandleBatchMessage(state.buffer);
      state := state.(buffer := []);
    }

    method ProcessBatchMessage(script: seq<Event>)
      requires state == START
      modifies this
      ensures state == Run(config, script)
    {
      var i := 0;
      while i < |script|
        invariant 0 <= i <= |script|
        invariant state == Run(config, script[..i])
      {
        assert script[..i + 1][..i] == script[..i];
        var e := script[i];
        i := i + 1;
        if !state.running {
          continue;
        }
        match e {
          case ContextDone => state := state.(running := false);
          case DoneClosed => state := state.(running := false);
          case Ticker =>
            if |state.buffer| > 0 {
              Flush();
            }
          case FetchFailed(Fatal) => state := state.(running := false);
          case FetchFailed(Deadline) =>
            var d := Nominal(state.deadlineAttempt, DEADLINE_MIN, DEADLINE_MAX);
            state := state.(deadlineWaits := state.deadlineWaits + [d]);
            if state.deadlineAttempt < CAP {
              state := state.(deadlineAttempt := state.deadlineAttempt + 1);
            }
          case FetchFailed(Retryable) =>
            var d := Nominal(state.errorAttempt, ERROR_MIN, ERROR_MAX);
            state := state.(errorWaits := state.errorWaits + [d]);
            if state.errorAttempt < CAP {
              state := state.(errorAttempt := state.errorAttempt + 1);
            }
          case Fetched(m) =>
            state := state.(deadlineAttempt := 0, errorAttempt := 0, deadlineWaits := [], errorWaits := []);
            state := state.(buffer := state.buffer + [m]);
            if |state.buffer| >= config.batchSize {
              Flush();
            }
        }
      }
      assert script[..|script|] == script;
    }
  }

  // ---------- Nothing is lost or reordered ----------

  /** The messages fetched while the loop was running. */
  function FetchedBy(c: Config, script: seq<Event>): seq<Message> {
    if script == [] then []
    else
      var init, e := script[..|script| - 1], script[|script| - 1];
      FetchedBy(c, init) + if Run(c, init).running && e.Fetched? then [e.msg] else []
  }

  /** Handling appends to the handled messages, in order, and commits only handled ones. */
  lemma {:induction false} HandleAllAppends(c: Config, s: State, ms: seq<Message>)
    ensures var r := HandleAll(c, s, ms);
            && r == s.(handled := s.handled + ms, commits := r.commits)
            && s.commits <= r.commits && forall m | m in r.commits :: m in s.commits || m in ms
    decreases |ms|
  {
    if ms == [] {
      assert s.handled + [] == s.handled;
    } else {
      var init, last := ms[..|ms| - 1], ms[|ms| - 1];
      HandleAllAppends(c, s, init);
      assert ms == init + [last];
      assert s.handled + init + [last] == s.handled + ms;
    }
  }

  /** The handled messages and then the buffered ones are `fetched`, and only handled ones are committed. */
  ghost predicate Conserves(c: Config, s: State, fetched: seq<Message>) {
    && s.handled + s.buffer == fetched
    && |s.buffer| < (if c.batchSize < 1 then 1 else c.batchSize)
    && forall m | m in s.commits :: m in s.handled
  }

  lemma FlushConserves(c: Config, s: State)
    requires forall m | m in s.commits :: m in s.handled
    ensures Conserves(c, Flushed(c, s), s.handled + s.buffer)
  {
    HandleAllAppends(c, s, s.buffer);
    assert s.handled + s.buffer + [] == s.handled + s.buffer;
  }

  lemma FetchConserves(c: Config, s: State, m: Message, fetched: seq<Message>)
    requires Conserves(c, s, fetched) && s.running
    ensures Conserves(c, Step(c, s, Fetched(m)), fetched + [m])
  {
    var s1 := s.(deadlineAttempt := 0, errorAttempt := 0, deadlineWaits := [], errorWaits := [],
                 buffer := s.buffer + [m]);
    assert s1.handled + s1.buffer == fetched + [m];
    FlushConserves(c, s1);
  }

  /**
   At every turn of the loop the handled messages followed by the buffered ones are the
   fetched ones, the buffer is below the batch size, and only handled messages are committed.
   */
  lemma {:induction false} NothingLost(c: Config, script: seq<Event>)
    ensures Conserves(c, Run(c, script), FetchedBy(c, script))
    decreases |script|
  {
    if script != [] {
      var init, e := script[..|script| - 1], script[|script| - 1];
      var s := Run(c, init);
      NothingLost(c, init);
      if s.running && e.Fetched? {
        FetchConserves(c, s, e.msg, FetchedBy(c, init));
      } else {
        assert FetchedBy(c, init) + [] == FetchedBy(c, init);
        FlushConserves(c, s);
      }
    }
  }

  /** The messages, of those handled, whose handling succeeded under auto-ack. */
  function Successes(c: Config, handled: seq<Message>): seq<Message> {
    if handled == [] then []
    else
      var n := |handled| - 1;
      Successes(c, handled[..n]) + if c.autoAck && c.outcomes(n) == Succeeds then [handled[n]] else []
  }

  lemma {:induction false} HandleAllCommits(c: Config, s: State, ms: seq<Message>)
    requires s.commits == Successes(c, s.handled)
    ensures var r := HandleAll(c, s, ms); r.commits == Successes(c, r.handled)
    decreases |ms|
  {
    if ms != [] {
      var init := ms[..|ms| - 1];
      HandleAllCommits(c, s, init);
      var r := HandleAll(c, s, init);
      var handled := r.handled + [ms[|ms| - 1]];
      assert handled[..|r.handled|] == r.handled;
    }
  }

  /** Commits are the successes under auto-ack, each once and in order; a failure commits nothing. */
  lemma {:induction false} CommitsAreSuccesses(c: Config, script: seq<Event>)
    ensures Run(c, script).commits == Successes(c, Run(c, script).handled)
    decreases |script|
  {
    if script != [] {
      var init, e := script[..|script| - 1], script[|script| - 1];
      var s := Run(c, init);
      CommitsAreSuccesses(c, init);
      HandleAllCommits(c, s, s.buffer);
      if e.Fetched? {
        var s1 := s.(deadlineAttempt := 0, errorAttempt := 0, deadlineWaits := [], errorWaits := [],
                     buffer := s.buffer + [e.msg]);
        HandleAllCommits(c, s1, s1.buffer);
      }
    }
  }

  // ---------- When the loop runs and when it flushes ----------

  predicate Ends(e: Event) {
    e.ContextDone? || e.DoneClosed? || e == FetchFailed(Fatal)
  }

  lemma FlushKeepsRunning(c: Config, s: State)
    ensures Flushed(c, s).running == s.running && Flushed(c, s).buffer == []
    ensures Flushed(c, s).handled == s.handled + s.buffer
  {
    HandleAllAppends(c, s, s.buffer);
  }

  /** The loop runs exactly until it is told to stop or a fetch fails for good. */
  lemma {:induction false} RunsExactly(c: Config, script: seq<Event>)
    ensures Run(c, script).running <==> forall e | e in script :: !Ends(e)
    decreases |script|
  {
    if script != [] {
      var init, e := script[..|script| - 1], script[|script| - 1];
      assert script == init + [e];
      RunsExactly(c, init);
      StepRuns(c, Run(c, init), e);
    }
  }

  lemma StepRuns(c: Config, s: State, e: Event)
    ensures Step(c, s, e).running <==> s.running && !Ends(e)
  {
    FlushKeepsRunning(c, s);
    if e.Fetched? {
      FlushKeepsRunning(c, s.(deadlineAttempt := 0, errorAttempt := 0, deadlineWaits := [], errorWaits := [],
                              buffer := s.buffer + [e.msg]));
    }
  }

  /** A tick leaves nothing in the buffer: everything fetched has been handled, in order. */
  lemma TickFlushes(c: Config, script: seq<Event>)
    requires forall e | e in script :: !Ends(e)
    ensures var s := Run(c, script + [Ticker]); s.buffer == [] && s.handled == FetchedBy(c, script)
  {
    RunsExactly(c, script);
    NothingLost(c, script);
    RunMore(c, script, Ticker);
    FlushKeepsRunning(c, Run(c, script));
    var s := Run(c, script);
    assert s.buffer == [] ==> s.handled + [] == s.handled;
  }

  /** A fetch handles everything fetched exactly when it brings the buffer to the batch size. */
  lemma FetchFlushesExactly(c: Config, script: seq<Event>, m: Message)
    requires forall e | e in script :: !Ends(e)
    ensures var before, s := Run(c, script), Run(c, script + [Fetched(m)]);
            if |before.buffer| + 1 >= c.batchSize then s.buffer == [] && s.handled == FetchedBy(c, script) + [m]
            else s.buffer == before.buffer + [m] && s.handled == before.handled
  {
    RunsExactly(c, script);
    NothingLost(c, script);
    RunMore(c, script, Fetched(m));
    var s := Run(c, script);
    FlushKeepsRunning(c, s.(deadlineAttempt := 0, errorAttempt := 0, deadlineWaits := [], errorWaits := [],
                            buffer := s.buffer + [m]));
    assert s.handled + (s.buffer + [m]) == s.handled + s.buffer + [m];
  }

  /** Nothing but a tick and a fetch handles anything; after its end the loop does nothing. */
  lemma OthersHandleNothing(c: Config, script: seq<Event>, e: Event)
    requires (e != Ticker && !e.Fetched?) || exists x :: x in script && Ends(x)
    ensures var before, s := Run(c, script), Run(c, script + [e]);
            s.buffer == before.buffer && s.handled == before.handled && s.commits == before.commits
  {
    RunsExactly(c, script);
    RunMore(c, script, e);
  }

  /** Within a partition fetches come in offset order. */
  ghost predicate InOffsetOrder(ms: seq<Message>) {
    forall i, j | 0 <= i < j < |ms| && ms[i].partition == ms[j].partition :: ms[i].offset < ms[j].offset
  }

  lemma HandledLiesBelow(handled: seq<Message>, buffer: seq<Message>, m: Message, f: Message)
    requires InOffsetOrder(handled + buffer) && m in handled && f in buffer && f.partition == m.partition
    ensures m.offset < f.offset
  {
    var all := handled + buffer;
    var i :| 0 <= i < |handled| && handled[i] == m;
    var j :| 0 <= j < |buffer| && buffer[j] == f;
    assert all[i] == m && all[|handled| + j] == f;
  }

  /**
   A committed offset covers only messages that were handled: everything fetched from that
   partition up to it was handled, and everything still buffered lies above it, so what is
   left in the buffer at exit will be fetched again.
   */
  lemma CommitsCoverOnlyHandled(c: Config, script: seq<Event>, m: Message, f: Message)
    requires InOffsetOrder(FetchedBy(c, script)) && m in Run(c, script).commits
    requires f in FetchedBy(c, script) && f.partition == m.partition
    ensures f.offset <= m.offset ==> f in Run(c, script).handled
    ensures f in Run(c, script).buffer ==> m.offset < f.offset
  {
    var s := Run(c, script);
    NothingLost(c, script);
    assert f in s.handled || f in s.buffer;
    if f in s.buffer {
      HandledLiesBelow(s.handled, s.buffer, m, f);
    }
  }

  // ---------- What a commit acknowledges ----------

  /** Handling of message `i` ended in a commit. */
  predicate Committed(c: Config, i: nat) {
    c.autoAck && c.outcomes(i) == Succeeds
  }

  lemma {:induction false} SuccessIsCommitted(c: Config, handled: seq<Message>, m: Message)
    ensures m in Successes(c, handled) <==> exists i :: 0 <= i < |handled| && handled[i] == m && Committed(c, i)
    decreases |handled|
  {
    if handled != [] {
      var n := |handled| - 1;
      var init := handled[..n];
      SuccessIsCommitted(c, init, m);
      if i :| 0 <= i < |init| && init[i] == m && Committed(c, i) {
        assert handled[i] == m;
      }
      if i :| 0 <= i < |handled| && handled[i] == m && Committed(c, i) {
        assert i < n ==> init[i] == m;
      }
    }
  }

  /** Message `i` lies below a commit of its partition, so a restarted consumer does not get it again. */
  ghost predicate Acknowledged(s: State, i: nat)
    requires i < |s.handled|
  {
    exists m :: m in s.commits && m.partition == s.handled[i].partition && s.handled[i].offset < m.offset
  }

  /**
   Whether its own handling succeeded or not, a handled message lies below a commit exactly
   when a later message of its partition succeeded under auto-ack: a failure is not retried
   after a restart once something after it went well.
   */
  lemma AcknowledgedExactly(c: Config, script: seq<Event>, i: nat)
    requires InOffsetOrder(FetchedBy(c, script)) && i < |Run(c, script).handled|
    ensures var handled := Run(c, script).handled;
            Acknowledged(Run(c, script), i) <==>
            exists j :: i < j < |handled| && handled[j].partition == handled[i].partition && Committed(c, j)
  {
    var s := Run(c, script);
    NothingLost(c, script);
    CommitsAreSuccesses(c, script);
    HandledInOrder(s.handled, s.buffer);
    if Acknowledged(s, i) {
      var m :| m in s.commits && m.partition == s.handled[i].partition && s.handled[i].offset < m.offset;
      var j := LaterSuccess(c, s.handled, i, m);
    }
    if j :| i < j < |s.handled| && s.handled[j].partition == s.handled[i].partition && Committed(c, j) {
      SuccessIsCommitted(c, s.handled, s.handled[j]);
      assert s.handled[j] in s.commits;
    }
  }

  lemma LaterSuccess(c: Config, handled: seq<Message>, i: nat, m: Message) returns (j: nat)
    requires InOffsetOrder(handled) && i < |handled| && m in Successes(c, handled)
    requires m.partition == handled[i].partition && handled[i].offset < m.offset
    ensures i < j < |handled| && handled[j].partition == handled[i].partition && Committed(c, j)
  {
    SuccessIsCommitted(c, handled, m);
    j :| 0 <= j < |handled| && handled[j] == m && Committed(c, j);
  }

  lemma HandledInOrder(handled: seq<Message>, buffer: seq<Message>)
    requires InOffsetOrder(handled + buffer)
    ensures InOffsetOrder(handled)
  {
    var all := handled + buffer;
    assert forall i | 0 <= i < |handled| :: all[i] == handled[i];
  }

  /** A loop without batching handles what it fetches at once. */
  lemma FetchAlone(c: Config, s: State, m: Message)
    requires c.batchSize <= 1 && s.running && s.buffer == []
    ensures var r := Step(c, s, Fetched(m));
            && r.running && r.buffer == [] && r.handled == s.handled + [m]
            && r.commits == s.commits + if Committed(c, |s.handled|) then [m] else []
  {
    var s1 := s.(deadlineAttempt := 0, errorAttempt := 0, deadlineWaits := [], errorWaits := [], buffer := [m]);
    assert [] + [m] == [m] && [m][..0] == [];
    assert HandleAll(c, s1, []) == s1;
    assert HandleAll(c, s1, [m]) == Handle(c, s1, m);
  }

  lemma RunMore(c: Config, script: seq<Event>, e: Event)
    ensures Run(c, script + [e]) == Step(c, Run(c, script), e)
  {
    assert (script + [e])[..|script|] == script;
  }

  /** A failed message that the next one acknowledges. */
  lemma FailureIsAcknowledged() returns (c: Config, script: seq<Event>)
    ensures |Run(c, script).handled| == 2 && c.outcomes(0) == HandlerFails
    ensures Acknowledged(Run(c, script), 0)
  {
    c := Config(1, true, n => if n == 0 then HandlerFails else Succeeds);
    var f, m := Message(0, 7, "a"), Message(0, 8, "b");
    script := [] + [Fetched(f)] + [Fetched(m)];
    RunMore(c, [], Fetched(f));
    FetchAlone(c, START, f);
    RunMore(c, [] + [Fetched(f)], Fetched(m));
    FetchAlone(c, Run(c, [] + [Fetched(f)]), m);
    assert m in Run(c, script).commits;
  }

  // ---------- Backoff along a run ----------

  function Capped(n: nat): nat {
    if n < CAP then n else CAP
  }

  lemma DefaultDelays(attempt: nat)
    requires attempt <= CAP
    ensures Nominal(attempt, DEADLINE_MIN, DEADLINE_MAX) == Ideal(attempt, DEADLINE_MIN, DEADLINE_MAX)
    ensures Nominal(attempt, ERROR_MIN, ERROR_MAX) == Ideal(attempt, ERROR_MIN, ERROR_MAX)
  {
    Pow2Grows(attempt, CAP);
    assert Pow2(1) == 2 && Pow2(2) == 4 && Pow2(3) == 8 && Pow2(4) == 16 && Pow2(5) == 32 && Pow2(6) == 64;
    NominalIsIdeal(attempt, DEADLINE_MIN, DEADLINE_MAX);
    NominalIsIdeal(attempt, ERROR_MIN, ERROR_MAX);
  }

  /** Since the last success, the i-th wait of each kind is the ideal delay of attempt min(i, 6). */
  ghost predicate WaitsOk(s: State) {
    && s.deadlineAttempt == Capped(|s.deadlineWaits|) && s.errorAttempt == Capped(|s.errorWaits|)
    && (forall i | 0 <= i < |s.deadlineWaits| ::
          s.deadlineWaits[i] == Ideal(Capped(i), DEADLINE_MIN, DEADLINE_MAX))
    && (forall i | 0 <= i < |s.errorWaits| :: s.errorWaits[i] == Ideal(Capped(i), ERROR_MIN, ERROR_MAX))
  }

  lemma FlushKeepsWaits(c: Config, s: State)
    requires WaitsOk(s)
    ensures WaitsOk(Flushed(c, s))
  {
    HandleAllAppends(c, s, s.buffer);
  }

  lemma WaitsAfterFailure(c: Config, s: State, why: Failure)
    requires WaitsOk(s)
    ensures WaitsOk(Step(c, s, FetchFailed(why)))
  {
    DefaultDelays(s.deadlineAttempt);
    DefaultDelays(s.errorAttempt);
  }

  lemma WaitsStep(c: Config, s: State, e: Event)
    requires WaitsOk(s)
    ensures WaitsOk(Step(c, s, e))
  {
    if e.FetchFailed? {
      WaitsAfterFailure(c, s, e.why);
    } else if e.Ticker? {
      FlushKeepsWaits(c, s);
    } else if e.Fetched? {
      FlushKeepsWaits(c, s.(deadlineAttempt := 0, errorAttempt := 0, deadlineWaits := [], errorWaits := [],
                            buffer := s.buffer + [e.msg]));
    }
  }

  lemma {:induction false} WaitsAreIdeal(c: Config, script: seq<Event>)
    ensures WaitsOk(Run(c, script))
    decreases |script|
  {
    if script != [] {
      WaitsAreIdeal(c, script[..|script| - 1]);
      WaitsStep(c, Run(c, script[..|script| - 1]), script[|script| - 1]);
    }
  }

  /** How many fetches have failed like `why` since the last one that succeeded. */
  function FailuresSince(script: seq<Event>, why: Failure): nat {
    if script == [] then 0
    else
      var e := script[|script| - 1];
      if e.Fetched? then 0
      else FailuresSince(script[..|script| - 1], why) + if e == FetchFailed(why) then 1 else 0
  }

  lemma FlushLeavesWaits(c: Config, s: State)
    ensures Flushed(c, s).deadlineWaits == s.deadlineWaits && Flushed(c, s).errorWaits == s.errorWaits
  {
    HandleAllAppends(c, s, s.buffer);
  }

  /** There is one wait for each failure since the last success. */
  lemma {:induction false} OneWaitEach(c: Config, script: seq<Event>)
    requires forall e | e in script :: !Ends(e)
    ensures |Run(c, script).deadlineWaits| == FailuresSince(script, Deadline)
    ensures |Run(c, script).errorWaits| == FailuresSince(script, Retryable)
    decreases |script|
  {
    if script != [] {
      var init, e := script[..|script| - 1], script[|script| - 1];
      assert e in script && forall x | x in init :: x in script;
      OneWaitEach(c, init);
      RunsExactly(c, init);
      var s := Run(c, init);
      FlushLeavesWaits(c, s);
      if e.Fetched? {
        FlushLeavesWaits(c, s.(deadlineAttempt := 0, errorAttempt := 0, deadlineWaits := [], errorWaits := [],
                               buffer := s.buffer + [e.msg]));
      }
    }
  }

  /**
   After `n` failures of its kind since the last success, a failed fetch waits for the smaller
   of the upper limit and the lower one times two to the n-th, n counted to 6: between 50 and
   500 milliseconds after a timeout, between 500 and 5000 after another error.
   */
  lemma NextWait(c: Config, script: seq<Event>, why: Failure)
    requires (forall e | e in script :: !Ends(e)) && why != Fatal
    ensures var s, n := Run(c, script + [FetchFailed(why)]), FailuresSince(script, why);
            var waits := if why == Deadline then s.deadlineWaits else s.errorWaits;
            && |waits| == n + 1
            && waits[n] == if why == Deadline then Ideal(if n < 6 then n else 6, 50_000_000, 500_000_000)
                           else Ideal(if n < 6 then n else 6, 500_000_000, 5_000_000_000)
  {
    var more := script + [FetchFailed(why)];
    assert more[..|script|] == script;
    OneWaitEach(c, more);
    WaitsAreIdeal(c, more);
  }

  /** So the waits never shrink until a fetch succeeds. */
  lemma WaitsGrow(c: Config, script: seq<Event>, i: nat, j: nat)
    requires i <= j
    ensures j < |Run(c, script).deadlineWaits| ==>
              Run(c, script).deadlineWaits[i] <= Run(c, script).deadlineWaits[j] <= DEADLINE_MAX
    ensures j < |Run(c, script).errorWaits| ==>
              Run(c, script).errorWaits[i] <= Run(c, script).errorWaits[j] <= ERROR_MAX
  {
    WaitsAreIdeal(c, script);
    IdealGrows(Capped(i), Capped(j), DEADLINE_MIN, DEADLINE_MAX);
    IdealGrows(Capped(i), Capped(j), ERROR_MIN, ERROR_MAX);
  }
}
