/**
 The resume protocol over the wire: runs of `SseResume` in which the client reads the text
 that the server prints and hands on what its read loop makes of it, and in which a
 connection may break at any character of an event.

 Published events are printable, so that only the cuts can do harm. `handed` lists what the
 handler got; `harmed` records that some connection broke at a place that was not clean.
 */
module SseSession {
  import opened Options
  import opened SseWire
  import opened SseLog
  import opened SseClient
  import opened SseCuts
  import SseResume

  datatype Session = Session(sys: SseResume.Sys, split: bool, handed: seq<Event>, harmed: bool)

  /** `Do` is a step of the protocol, `Break` the loss of the connection `k` characters into the next event. */
  datatype Action = Do(act: SseResume.Action) | Break(k: nat)

  // ---------- The step system ----------

  predicate Init(s: Session) {
    SseResume.Init(s.sys) && s.handed == [] && !s.harmed
  }

  /** What the server wrote to the client's connection and the client has not read. */
  function Unread(sys: SseResume.Sys): seq<Event> {
    if sys.current.Some? && sys.current.value in sys.conns then sys.conns[sys.current.value].wire else []
  }

  predicate Enabled(s: Session, a: Action) {
    match a
    case Do(act) =>
      && !act.Disconnect? && SseResume.Enabled(s.sys, act)
      && (act.Publish? ==> Printable(Stamped(act.event, act.id), s.split))
    case Break(k) =>
      && s.sys.current.Some?
      && (k > 0 ==> Unread(s.sys) != [] && k < |Printed(Unread(s.sys)[0], s.split)|)
  }

  /** The client reads `text` and then has handed on more and knows another last identifier. */
  function Reads(s: Session, text: string): Session {
    var (events, last) := Looped(s.sys.lastId, Blocks(text));
    s.(handed := s.handed + events, sys := s.sys.(lastId := last))
  }

  /** So much of the event arrived that it counts as processed. */
  predicate Whole(e: Event, split: bool, k: nat) {
    e.data != "" && k >= Threshold(e, split)
  }

  predicate Clean(e: Event, split: bool, lastId: string, k: nat) {
    e.data != "" && CleanCut(e, split, lastId, k)
  }

  function After(s: Session, a: Action): Session
    requires Enabled(s, a)
  {
    match a
    case Do(act) => if act.Receive? then ReadNext(s) else s.(sys := SseResume.After(s.sys, act))
    case Break(k) => if k == 0 then s.(sys := Gone(s.sys)) else Broken(s, k)
  }

  function ReadNext(s: Session): Session
    requires SseResume.Enabled(s.sys, SseResume.Receive)
  {
    var s1 := Reads(s, Printed(Unread(s.sys)[0], s.split));
    s1.(sys := SseResume.After(s.sys, SseResume.Receive).(lastId := s1.sys.lastId))
  }

  function Gone(sys: SseResume.Sys): SseResume.Sys
    requires sys.current.Some?
  {
    SseResume.After(sys, SseResume.Disconnect)
  }

  function Broken(s: Session, k: nat): Session
    requires Enabled(s, Break(k)) && k > 0
  {
    var e := Unread(s.sys)[0];
    var s1 := Reads(s, Printed(e, s.split)[..k]);
    var sys := if Whole(e, s.split, k) then SseResume.After(s.sys, SseResume.Receive) else s.sys;
    s1.(sys := Gone(sys).(lastId := s1.sys.lastId), harmed := s.harmed || !Clean(e, s.split, s.sys.lastId, k))
  }

  ghost predicate Steps(s: Session, run: seq<Action>, s': Session)
    decreases |run|
  {
    if run == [] then s' == s
    else Enabled(s, run[0]) && Steps(After(s, run[0]), run[1..], s')
  }

  ghost predicate Reachable(s: Session) {
    exists s0, run :: Init(s0) && Steps(s0, run, s)
  }

  // ---------- Invariants ----------

  /** The handler got something that is not the published event at its place. */
  ghost predicate Spoilt(s: Session) {
    exists i :: 0 <= i < |s.handed| && i < |s.sys.history| && s.handed[i] != Received(s.sys.history[i])
  }

  /** While nothing went wrong, the client is where the protocol says and has handed on what it got. */
  ghost predicate GoodInv(s: Session) {
    && (!s.harmed ==> SseResume.ClientInv(s.sys))
    && (!s.harmed && !s.sys.missed ==> s.handed == AsReceived(s.sys.got))
    && (s.harmed ==> s.sys.missed || Spoilt(s))
  }

  ghost predicate PrintableInv(s: Session) {
    forall i | 0 <= i < |s.sys.history| :: Printable(s.sys.history[i], s.split)
  }

  ghost predicate Inv(s: Session) {
    SseResume.HubInv(s.sys) && PrintableInv(s) && GoodInv(s)
  }

  // ---------- What the client makes of the next event ----------

  /** The next event to read is the next one of the history. */
  lemma NextIsNext(s: Session)
    requires Inv(s) && !s.harmed && !s.sys.missed && Unread(s.sys) != []
    ensures |s.sys.got| < |s.sys.history| && Unread(s.sys)[0] == s.sys.history[|s.sys.got|]
    ensures s.sys.lastId == LastId(s.sys.history, |s.sys.got|)
  {
    var stream := SseResume.Stream(s.sys);
    assert stream <= s.sys.history;
    assert stream[|s.sys.got|] == Unread(s.sys)[0];
  }

  lemma ReadsWhole(lastId: string, e: Event, split: bool)
    requires Printable(e, split) && e.id != ""
    ensures Looped(lastId, Blocks(Printed(e, split))).0 == [Received(e)]
    ensures Looped(lastId, Blocks(Printed(e, split))).1 == e.id
  {
    FirstHasData(e, split, false, "", lastId);
    assert "" + (Printed(e, split) + "") == Printed(e, split);
    assert Looped(e.id, Blocks("")) == ([], e.id);
  }

  lemma ReceivedMore(got: seq<Event>, e: Event)
    ensures AsReceived(got + [e]) == AsReceived(got) + [Received(e)]
  {
  }

  lemma SpoiltStays(s: Session, s': Session)
    requires Spoilt(s) && s.handed <= s'.handed && s.sys.history <= s'.sys.history
    ensures Spoilt(s')
  {
    var i :| 0 <= i < |s.handed| && i < |s.sys.history| && s.handed[i] != Received(s.sys.history[i]);
    assert s'.handed[i] == s.handed[i] && s'.sys.history[i] == s.sys.history[i];
  }

  // ---------- Every step keeps the invariants ----------

  lemma OtherStep(s: Session, act: SseResume.Action)
    requires Inv(s) && Enabled(s, Do(act)) && !act.Receive?
    ensures Inv(After(s, Do(act)))
  {
    var s' := After(s, Do(act));
    SseResume.HubStep(s.sys, act);
    if !s.harmed {
      SseResume.ClientStep(s.sys, act);
    }
    if Spoilt(s) {
      SpoiltStays(s, s');
    }
  }

  lemma ReceiveStep(s: Session)
    requires Inv(s) && Enabled(s, Do(SseResume.Receive))
    ensures Inv(After(s, Do(SseResume.Receive)))
  {
    var s' := After(s, Do(SseResume.Receive));
    SseResume.HubStep(s.sys, SseResume.Receive);
    if !s.harmed && !s.sys.missed {
      NextIsNext(s);
      var e := Unread(s.sys)[0];
      ReadsWhole(s.sys.lastId, e, s.split);
      SseResume.ClientStep(s.sys, SseResume.Receive);
      ReceivedMore(s.sys.got, e);
      assert s'.sys == SseResume.After(s.sys, SseResume.Receive);
    } else if Spoilt(s) {
      SpoiltStays(s, s');
    }
  }

  /** A break after which the client is wrong about nothing. */
  lemma BreakWhole(s: Session, k: nat)
    requires Inv(s) && Enabled(s, Break(k)) && k > 0 && !s.harmed && !s.sys.missed
    requires Whole(Unread(s.sys)[0], s.split, k)
    ensures Inv(After(s, Break(k)))
  {
    var s', sys := After(s, Break(k)), SseResume.After(s.sys, SseResume.Receive);
    var n := |s.sys.got|;
    NextIsNext(s);
    var e := s.sys.history[n];
    CutBehind(s.sys.history, n, s.split, k);
    SseResume.HubStep(s.sys, SseResume.Receive);
    SseResume.ClientStep(s.sys, SseResume.Receive);
    SseResume.HubStep(sys, SseResume.Disconnect);
    SseResume.ClientStep(sys, SseResume.Disconnect);
    ReceivedMore(s.sys.got, e);
    assert s'.sys == Gone(sys);
  }

  lemma BreakWithNothing(s: Session, k: nat)
    requires Inv(s) && Enabled(s, Break(k)) && 0 < k <= 4 && !s.harmed && !s.sys.missed && s.sys.lastId == ""
    requires !Whole(Unread(s.sys)[0], s.split, k)
    ensures Inv(After(s, Break(k)))
  {
    var s' := After(s, Break(k));
    var n := |s.sys.got|;
    NextIsNext(s);
    CutInLabel(s.sys.history, s.split, k);
    SseResume.HubStep(s.sys, SseResume.Disconnect);
    SseResume.ClientStep(s.sys, SseResume.Disconnect);
    assert s.handed + [] == s.handed;
    assert s'.sys == Gone(s.sys);
  }

  lemma BreakHarms(s: Session, k: nat)
    requires Inv(s) && Enabled(s, Break(k)) && k > 0 && !s.harmed && !s.sys.missed
    requires !Clean(Unread(s.sys)[0], s.split, s.sys.lastId, k)
    ensures Spoilt(After(s, Break(k)))
  {
    var s' := After(s, Break(k));
    var n := |s.sys.got|;
    NextIsNext(s);
    SomethingElseArrived(s.sys.history, n, s.split, k);
    var x := AfterCut(s.sys.history, n, s.split, k).0;
    assert s'.handed == s.handed + x && |s.handed| == n;
    assert s'.handed[n] == x[0] != Received(s'.sys.history[n]);
  }

  lemma BrokenHub(s: Session, k: nat)
    requires Inv(s) && Enabled(s, Break(k)) && k > 0
    ensures SseResume.HubInv(Broken(s, k).sys) && PrintableInv(Broken(s, k))
    ensures Broken(s, k).sys.missed == s.sys.missed && Broken(s, k).sys.history == s.sys.history
    ensures s.handed <= Broken(s, k).handed
  {
    SseResume.HubStep(s.sys, SseResume.Receive);
    SseResume.HubStep(s.sys, SseResume.Disconnect);
    SseResume.HubStep(SseResume.After(s.sys, SseResume.Receive), SseResume.Disconnect);
  }

  lemma BreakStep(s: Session, k: nat)
    requires Inv(s) && Enabled(s, Break(k))
    ensures Inv(After(s, Break(k)))
  {
    if k == 0 {
      SseResume.HubStep(s.sys, SseResume.Disconnect);
      if !s.harmed {
        SseResume.ClientStep(s.sys, SseResume.Disconnect);
      }
      if Spoilt(s) {
        SpoiltStays(s, After(s, Break(0)));
      }
    } else {
      BrokenHub(s, k);
      if s.harmed || s.sys.missed {
        if Spoilt(s) {
          SpoiltStays(s, Broken(s, k));
        }
      } else if !Clean(Unread(s.sys)[0], s.split, s.sys.lastId, k) {
        BreakHarms(s, k);
      } else if Whole(Unread(s.sys)[0], s.split, k) {
        BreakWhole(s, k);
      } else {
        BreakWithNothing(s, k);
      }
    }
  }

  lemma InvStep(s: Session, a: Action)
    requires Inv(s) && Enabled(s, a)
    ensures Inv(After(s, a))
  {
    match a
    case Do(act) =>
      if act.Receive? {
        ReceiveStep(s);
      } else {
        OtherStep(s, act);
      }
    case Break(k) => BreakStep(s, k);
  }

  lemma {:induction false} InvHolds(s: Session, run: seq<Action>, s': Session)
    requires Inv(s) && Steps(s, run, s')
    ensures Inv(s')
    decreases |run|
  {
    if run != [] {
      InvStep(s, run[0]);
      InvHolds(After(s, run[0]), run[1..], s');
    }
  }

  lemma ReachableInv(s: Session)
    requires Reachable(s)
    ensures Inv(s)
  {
    var s0, run :| Init(s0) && Steps(s0, run, s);
    InvHolds(s0, run, s);
  }

  // ---------- The guarantee ----------

  /**
   Over any run, with any number of connections broken at any character: if no registration
   came too late, what the handler got is a prefix of the published history, as received,
   exactly when every connection broke at a clean place.
   */
  lemma GapFreeExactly(s: Session)
    requires Reachable(s) && !s.sys.missed
    ensures s.handed <= AsReceived(s.sys.history) <==> !s.harmed
  {
    ReachableInv(s);
    if s.harmed {
      var i :| 0 <= i < |s.handed| && i < |s.sys.history| && s.handed[i] != Received(s.sys.history[i]);
      assert AsReceived(s.sys.history)[i] == Received(s.sys.history[i]);
    } else {
      assert s.sys.got <= s.sys.history;
    }
  }

  // ---------- A run that does harm ----------

  lemma {:induction false} OneMore(s: Session, run: seq<Action>, s1: Session, a: Action)
    requires Steps(s, run, s1) && Enabled(s1, a)
    ensures Steps(s, run + [a], After(s1, a))
    decreases |run|
  {
    if run == [] {
      assert ([] + [a])[1..] == [];
      assert Steps(After(s, a), [], After(s, a));
    } else {
      assert (run + [a])[1..] == run[1..] + [a];
      OneMore(After(s, run[0]), run[1..], s1, a);
    }
  }

  lemma ReachableStep(s: Session, a: Action)
    requires Reachable(s) && Enabled(s, a)
    ensures Reachable(After(s, a))
  {
    var s0, run :| Init(s0) && Steps(s0, run, s);
    OneMore(s0, run, s, a);
  }

  const SAMPLE := Event("7", "text", "", "", "")

  /** A registered client's connection, at some point of one event's way through it. */
  function Registered(history: seq<Event>, sends: seq<Event>, queue: seq<Event>, wire: seq<Event>): SseResume.Sys {
    SseResume.Sys(history, history, [0], SseResume.ToOne(0, sends), {},
                  map[0 := SseResume.Connection("", queue, wire)], 1, Some(0), "", [], false)
  }

  lemma ClientRegistered(split: bool) returns (s: Session)
    ensures Reachable(s) && s == Session(Registered([], [], [], []), split, [], false)
  {
    s := Session(SseResume.Sys([], [], [], [], {}, map[], 0, None, "", [], false), split, [], false);
    assert Init(s) && Steps(s, [], s);
    ReachableStep(s, Do(SseResume.Connect));
    s := After(s, Do(SseResume.Connect));
    ReachableStep(s, Do(SseResume.Register(0)));
    s := After(s, Do(SseResume.Register(0)));
  }

  lemma EventPublished(split: bool) returns (s: Session)
    ensures Reachable(s) && s == Session(Registered([SAMPLE], [SAMPLE], [], []), split, [], false)
  {
    s := ClientRegistered(split);
    var act := SseResume.Publish(SAMPLE.(id := ""), "7");
    assert Stamped(SAMPLE.(id := ""), "7") == SAMPLE && Added([], SAMPLE.(id := ""), "7") == [SAMPLE];
    ReachableStep(s, Do(act));
    s := After(s, Do(act));
    assert SseResume.FanOut([0], SAMPLE) == SseResume.ToOne(0, [SAMPLE]);
  }

  /** A connected, registered client to which one event has been written. */
  lemma EventWritten(split: bool) returns (s: Session)
    ensures Reachable(s) && s == Session(Registered([SAMPLE], [], [], [SAMPLE]), split, [], false)
  {
    s := EventPublished(split);
    assert SseResume.ToOne(0, [SAMPLE])[0] == SseResume.Send(0, SAMPLE);
    assert SseResume.ToOne(0, [SAMPLE])[1..] == SseResume.ToOne(0, []);
    ReachableStep(s, Do(SseResume.SendNext));
    s := After(s, Do(SseResume.SendNext));
    assert [] + [SAMPLE] == [SAMPLE];
    assert s.sys.conns == map[0 := SseResume.Connection("", [SAMPLE], [])];
    assert s.sys == Registered([SAMPLE], [], [SAMPLE], []);
    ReachableStep(s, Do(SseResume.Deliver(0)));
    s := After(s, Do(SseResume.Deliver(0)));
    assert [SAMPLE][1..] == [];
    assert s.sys.conns == map[0 := SseResume.Connection("", [], [SAMPLE])];
  }

  lemma SampleCut(split: bool)
    ensures Printable(SAMPLE, split) && 0 < IdEnd(SAMPLE) < |Printed(SAMPLE, split)|
    ensures !Clean(SAMPLE, split, "", IdEnd(SAMPLE))
  {
    assert Printable(SAMPLE, split);
    PrintedIsLonger(SAMPLE, split);
    ThresholdOfData(SAMPLE, split);
    FieldLength("event", "");
    FieldLength("retry", "");
  }

  /** A connection that breaks when the id has arrived and no data: the excluded case is reached. */
  lemma HarmExists(split: bool) returns (s: Session)
    ensures Reachable(s) && s.split == split && s.harmed && !s.sys.missed
  {
    var s1 := EventWritten(split);
    var k := IdEnd(SAMPLE);
    SampleCut(split);
    assert Unread(s1.sys) == [SAMPLE];
    assert Enabled(s1, Break(k));
    ReachableStep(s1, Break(k));
    s := After(s1, Break(k));
    assert s == Broken(s1, k);
  }
}
