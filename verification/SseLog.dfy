/** The bounded event log of a stream (transport/sse/event_log.go). */
module SseLog {
  import opened SseWire

  const MAX_LOG := 1024

  predicate HasContent(e: Event) {
    |e.id| > 0 || |e.data| > 0 || |e.event| > 0 || |e.retry| > 0
  }

  /** Go's string order. */
  predicate Before(a: string, b: string) {
    if b == "" then false
    else if a == "" then true
    else a[0] < b[0] || (a[0] == b[0] && Before(a[1..], b[1..]))
  }

  /** The two agree before place `i`, and `a` has the smaller character there. */
  predicate SmallerAt(a: string, b: string, i: nat) {
    i < |a| && i < |b| && a[..i] == b[..i] && a[i] < b[i]
  }

  /** The order is that of the first character that differs; a proper beginning comes first. */
  lemma {:induction false} BeforeExactly(a: string, b: string)
    ensures Before(a, b) <==> a < b || exists i: nat :: SmallerAt(a, b, i)
    decreases |a|
  {
    if a != "" && b != "" && a[0] == b[0] {
      BeforeExactly(a[1..], b[1..]);
      TailsDecide(a, b);
    } else if a != "" && b != "" && a[0] < b[0] {
      assert SmallerAt(a, b, 0);
    } else if a != "" && b != "" {
      assert forall i: nat | 0 < i <= |a| && i <= |b| :: a[..i][0] == a[0] && b[..i][0] == b[0];
    }
  }

  lemma TailsDecide(a: string, b: string)
    requires a != "" && b != "" && a[0] == b[0]
    ensures a < b <==> a[1..] < b[1..]
    ensures (exists i: nat :: SmallerAt(a, b, i)) <==> exists i: nat :: SmallerAt(a[1..], b[1..], i)
  {
    assert a == [a[0]] + a[1..] && b == [b[0]] + b[1..];
    if i: nat :| SmallerAt(a[1..], b[1..], i) {
      assert a[..i + 1] == [a[0]] + a[1..][..i] && b[..i + 1] == [b[0]] + b[1..][..i];
      assert SmallerAt(a, b, i + 1);
    }
    if i: nat :| SmallerAt(a, b, i) {
      assert a[1..][..i - 1] == a[..i][1..] && b[1..][..i - 1] == b[..i][1..];
      assert SmallerAt(a[1..], b[1..], i - 1);
    }
  }

  lemma {:induction false} BeforeIsStrict(a: string)
    ensures !Before(a, a)
  {
    if a != "" {
      BeforeIsStrict(a[1..]);
    }
  }

  lemma {:induction false} BeforeIsTransitive(a: string, b: string, c: string)
    requires Before(a, b) && Before(b, c)
    ensures Before(a, c)
  {
    if a != "" && a[0] == b[0] == c[0] {
      BeforeIsTransitive(a[1..], b[1..], c[1..]);
    }
  }

  /** The last `n` entries. */
  function LastOf<T>(s: seq<T>, n: nat): seq<T> {
    if |s| <= n then s else s[|s| - n..]
  }

  /** The event as `Add` leaves it: with a new identifier if it carries anything. */
  function Stamped(e: Event, id: string): Event {
    if HasContent(e) then e.(id := id) else e
  }

  function Added(log: seq<Event>, e: Event, id: string): seq<Event> {
    if HasContent(e) then LastOf(log + [e.(id := id)], MAX_LOG) else log
  }

  /** The logged events that a subscriber with this last identifier is sent. */
  function Replayed(log: seq<Event>, eventId: string): seq<Event> {
    if log == [] then []
    else
      (if Before(eventId, log[0].id) then [log[0]] else []) + Replayed(log[1..], eventId)
  }

  class EventLog {
    var items: seq<Event>

    constructor ()
      ensures items == []
    {
      items := [];
    }

    method Add(e: Event, id: string) returns (e': Event)
      modifies this
      ensures e' == Stamped(e, id) && items == Added(old(items), e, id)
    {
      if !HasContent(e) {
        return e;
      }
      e' := e.(id := id);
      items := items + [e'];
      var n := |items|;
      if n > MAX_LOG {
        items := items[n - MAX_LOG..];
      }
    }

    /** `sent` is what goes into the subscriber's connection, in order. */
    method Replay(eventId: string) returns (sent: seq<Event>)
      ensures sent == Replayed(items, eventId)
    {
      sent := [];
      for i := 0 to |items|
        invariant sent + Replayed(items[i..], eventId) == Replayed(items, eventId)
      {
        assert items[i..][1..] == items[i + 1..];
        if Before(eventId, items[i].id) {
          sent := sent + [items[i]];
        }
      }
      assert sent + [] == sent;
    }
  }

  // ---------- What a resuming client is sent ----------

  /** Identifiers are non-empty and strictly increasing, as time-ordered UUIDs are. */
  ghost predicate Increasing(history: seq<Event>) {
    && (forall i | 0 <= i < |history| :: history[i].id != "")
    && (forall i, j | 0 <= i < j < |history| :: Before(history[i].id, history[j].id))
  }

  /** The last identifier of a client that has processed the first `p` events. */
  function LastId(history: seq<Event>, p: nat): string
    requires p <= |history|
  {
    if p == 0 then "" else history[p - 1].id
  }

  /** Replaying a stretch of the history sends exactly what the client has not seen of it. */
  lemma {:induction false} ReplayStretch(history: seq<Event>, p: nat, from: nat)
    requires Increasing(history) && p <= |history| && from <= |history|
    ensures Replayed(history[from..], LastId(history, p)) == history[if from < p then p else from..]
    decreases |history| - from
  {
    if from < |history| {
      assert history[from..][1..] == history[from + 1..];
      ReplayStretch(history, p, from + 1);
      if p > 0 {
        if from == p - 1 {
          BeforeIsStrict(history[from].id);
        } else if from < p - 1 {
          NotBeforeEarlier(history[p - 1].id, history[from].id);
        }
      }
      assert p <= from ==> history[from..] == [history[from]] + history[from + 1..];
    } else {
      assert history[from..] == [];
    }
  }

  lemma NotBeforeEarlier(a: string, b: string)
    requires Before(b, a)
    ensures !Before(a, b)
  {
    if Before(a, b) {
      BeforeIsTransitive(b, a, b);
      BeforeIsStrict(b);
    }
  }

  /** The replay closes the gap exactly when the log still holds everything since the client's last event. */
  lemma ReplayClosesGap(history: seq<Event>, p: nat)
    requires Increasing(history) && p <= |history|
    ensures Replayed(LastOf(history, MAX_LOG), LastId(history, p)) == history[p..] <==> |history| - p <= 1024
  {
    var from := if |history| <= MAX_LOG then 0 else |history| - MAX_LOG;
    assert LastOf(history, MAX_LOG) == history[from..];
    ReplayStretch(history, p, from);
  }

  /** The log is always the last part of everything logged so far. */
  lemma LogIsWindow(history: seq<Event>, e: Event, id: string)
    requires HasContent(e)
    ensures Added(LastOf(history, MAX_LOG), e, id) == LastOf(history + [Stamped(e, id)], MAX_LOG)
  {
  }
}
