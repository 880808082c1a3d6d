/**
 The reading side of the client (`readLoop` in transport/sse/client.go): what it makes of
 the blocks of a stream, and what it makes of a stream in which events without data are
 mixed with events that have some.
 */
module SseClient {
  import opened Options
  import opened SseWire
  import opened SseLog
  import opened SseExact

  // ---------- The read loop ----------

  /** One block: the event handed on, if any, and the last identifier afterwards. */
  function Turn(lastId: string, block: string): (Option<Event>, string) {
    match Parse(block)
    case None => (None, lastId)
    case Some(m) =>
      var m1 := if m.id != "" then m else m.(id := lastId);
      (if HasContent(m1) then Some(m1) else None, m1.id)
  }

  function Looped(lastId: string, blocks: seq<string>): (seq<Event>, string)
    decreases |blocks|
  {
    if blocks == [] then ([], lastId)
    else
      var (e, id) := Turn(lastId, blocks[0]);
      var (more, last) := Looped(id, blocks[1..]);
      (Listed(e) + more, last)
  }

  function Listed(e: Option<Event>): seq<Event> {
    if e.Some? then [e.value] else []
  }

  lemma LoopedCons(lastId: string, block: string, blocks: seq<string>)
    ensures var (e, id) := Turn(lastId, block);
            && Looped(lastId, [block] + blocks).0 == Listed(e) + Looped(id, blocks).0
            && Looped(lastId, [block] + blocks).1 == Looped(id, blocks).1
  {
    assert ([block] + blocks)[1..] == blocks;
  }

  /** With `rest` still to come, the client ends up as `end`. */
  ghost predicate LeadsTo(handed: seq<Event>, lastId: string, rest: seq<string>, end: (seq<Event>, string)) {
    end.0 == handed + Looped(lastId, rest).0 && end.1 == Looped(lastId, rest).1
  }

  lemma LeadsOn(handed: seq<Event>, lastId: string, block: string, rest: seq<string>, end: (seq<Event>, string))
    requires LeadsTo(handed, lastId, [block] + rest, end)
    ensures LeadsTo(handed + Listed(Turn(lastId, block).0), Turn(lastId, block).1, rest, end)
  {
    LoopedCons(lastId, block, rest);
  }

  lemma LeadsToEnd(handed: seq<Event>, lastId: string, end: (seq<Event>, string))
    requires LeadsTo(handed, lastId, [], end)
    ensures end == (handed, lastId)
  {
    assert handed + [] == handed;
  }

  class Client {
    var lastEventId: string
    var handed: seq<Event>

    constructor ()
      ensures lastEventId == "" && handed == []
    {
      lastEventId, handed := "", [];
    }

    /** The body of the loop, for one block. */
    method Handle(block: string)
      modifies this
      ensures var (e, id) := Turn(old(lastEventId), block);
              handed == old(handed) + Listed(e) && lastEventId == id
    {
      var msg := ProcessEvent(block);
      if msg.Some? {
        var m := msg.value;
        if m.id != "" {
          lastEventId := m.id;
        } else {
          m := m.(id := lastEventId);
        }
        if HasContent(m) {
          handed := handed + [m];
        }
      }
    }

    /** Reads the stream to its end, however it is chunked. */
    method ReadLoop(reader: EventStreamReader)
      modifies this, reader
      ensures var (events, last) := Looped(old(lastEventId), Blocks(old(reader.Rest())));
              handed == old(handed) + events && lastEventId == last
    {
      ghost var rest := Blocks(reader.Rest());
      ghost var end := (handed + Looped(lastEventId, rest).0, Looped(lastEventId, rest).1);
      var block := reader.ReadEvent();
      while block.Some?
        invariant block.None? ==> rest == []
        invariant block.Some? ==> rest == [block.value] + Blocks(reader.Rest())
        invariant LeadsTo(handed, lastEventId, rest, end)
        decreases |rest|
      {
        rest := Blocks(reader.Rest());
        LeadsOn(handed, lastEventId, block.value, rest, end);
        Handle(block.value);
        block := reader.ReadEvent();
      }
      LeadsToEnd(handed, lastEventId, end);
    }
  }

  // ---------- What the handler gets of a stream ----------

  predicate Writable(e: Event, split: bool) {
    && OneLine(e.id) && OneLine(e.event) && OneLine(e.retry) && OneLine(e.comment)
    && (e.data != "" ==> Carried(e.data, split))
  }

  /** A newline left over from an event that was printed as a blank line. */
  function Lead(pending: bool): string {
    if pending then LF else ""
  }

  lemma LeadIsIgnored(pending: bool, block: string)
    requires block != ""
    ensures Parse(Lead(pending) + block) == Parse(block)
  {
    if pending {
      assert (LF + block)[1..] == block;
    } else {
      assert "" + block == block;
    }
  }

  /** Printed lines are one block, with or without a newline before them. */
  lemma LeadAndLines(pending: bool, ls: seq<string>, tail: string)
    requires GoodLines(ls)
    ensures TrimLF(Unlines(ls)) != ""
    ensures Blocks(Lead(pending) + (Unlines(ls) + LF + tail)) ==
            [Lead(pending) + TrimLF(Unlines(ls))] + Blocks(tail)
  {
    var u := Unlines(ls);
    UnlinesShape(ls);
    var v := Lead(pending) + u;
    LeadKeepsShape(pending, u);
    BlankLineEnds(v, tail);
    FirstBlockIs(v, tail);
    Reassociate(Lead(pending), u, LF, tail);
    assert TrimLF(v) == Lead(pending) + TrimLF(u);
  }

  lemma Reassociate(a: string, b: string, c: string, d: string)
    ensures a + b + c + d == a + (b + c + d)
  {
  }

  lemma LeadKeepsShape(pending: bool, u: string)
    requires |u| > 0 && u[|u| - 1] == '\n' && u[0] != '\n' && NoCR(u)
    requires forall i | 0 <= i < |u| - 1 :: !(u[i] == '\n' && u[i + 1] == '\n')
    ensures var v := Lead(pending) + u;
            && |u| > 1 && |v| > 0 && v[|v| - 1] == '\n' && NoCR(v)
            && forall i | 0 <= i < |v| - 1 :: !(v[i] == '\n' && v[i + 1] == '\n')
  {
  }

  /** Two leftover newlines are an empty block. */
  lemma TwoNewlines(rest: string)
    ensures Blocks(LF + (LF + rest)) == [""] + Blocks(rest)
  {
    assert LF + (LF + rest) == LF + LF + rest;
    BlankLineEnds(LF, rest);
    FirstBlockIs(LF, rest);
    assert TrimLF(LF) == "";
  }

  /** The lines of an event without data are no more than its comment, which says nothing. */
  lemma CommentSaysNothing(e: Event, split: bool)
    requires e.data == "" && e.comment != "" && OneLine(e.comment)
    ensures GoodLines(Lines(e, split)) && Parse(TrimLF(Unlines(Lines(e, split)))) == Some(EMPTY)
  {
    var l := Labelled("", e.comment);
    assert Lines(e, split) == [l];
    UnlinesOne(l);
    assert TrimLF(l + LF) == l;
    OneField(l);
    ParseComment(EMPTY, e.comment);
    ParseLinesOne(EMPTY, l);
  }

  lemma PrintedBlank(e: Event, split: bool)
    requires e.data == "" && e.comment == ""
    ensures Printed(e, split) == LF
  {
    assert Lines(e, split) == [];
  }

  lemma OneNewline()
    ensures Blocks(LF) == [LF] && Parse(LF) == Some(EMPTY)
  {
    assert LF[1..] == "";
    assert Fields(LF) == [];
  }

  /** The event with nothing but the last identifier that a block without content turns into. */
  function IdOnly(lastId: string): seq<Event> {
    if lastId == "" then [] else [EMPTY.(id := lastId)]
  }

  /** An event with data as the handler gets it. */
  function Filled(lastId: string, e: Event): Event {
    if e.id == "" then Received(e).(id := lastId) else Received(e)
  }

  /**
   What the handler gets of a stream of events, and the last identifier afterwards. Events
   with data come with an identifier filled in; a comment counts as an event once there is
   an identifier; of the events printed as a blank line every second one ends an empty
   block, the others run into what follows, and one left over at the end is a block again.
   */
  function HandedOn(lastId: string, events: seq<Event>, pending: bool): (seq<Event>, string)
    decreases |events|
  {
    if events == [] || IsSentinel(events[0]) then (if pending then IdOnly(lastId) else [], lastId)
    else
      var e, rest := events[0], events[1..];
      if e.data != "" then
        var m := Filled(lastId, e);
        var (more, last) := HandedOn(m.id, rest, false);
        ([m] + more, last)
      else if e.comment != "" then
        var (more, last) := HandedOn(lastId, rest, false);
        (IdOnly(lastId) + more, last)
      else HandedOn(lastId, rest, !pending)
  }

  lemma LoopedEmpty(lastId: string, block: string, blocks: seq<string>)
    requires Parse(block) == Some(EMPTY)
    ensures Looped(lastId, [block] + blocks).0 == IdOnly(lastId) + Looped(lastId, blocks).0
    ensures Looped(lastId, [block] + blocks).1 == Looped(lastId, blocks).1
  {
    LoopedCons(lastId, block, blocks);
  }

  lemma LoopedData(lastId: string, block: string, e: Event, blocks: seq<string>)
    requires Parse(block) == Some(Received(e)) && e.data != ""
    ensures var m := Filled(lastId, e);
            && Looped(lastId, [block] + blocks).0 == [m] + Looped(m.id, blocks).0
            && Looped(lastId, [block] + blocks).1 == Looped(m.id, blocks).1
  {
    LoopedCons(lastId, block, blocks);
  }

  lemma LoopedNone(lastId: string, blocks: seq<string>)
    ensures Looped(lastId, [""] + blocks) == Looped(lastId, blocks)
  {
    LoopedCons(lastId, "", blocks);
    assert [] + Looped(lastId, blocks).0 == Looped(lastId, blocks).0;
  }

  lemma FirstIsComment(e: Event, split: bool, pending: bool, tail: string, lastId: string)
    requires e.data == "" && e.comment != "" && OneLine(e.comment)
    ensures var all := Looped(lastId, Blocks(Lead(pending) + (Printed(e, split) + tail)));
            && all.0 == IdOnly(lastId) + Looped(lastId, Blocks(tail)).0
            && all.1 == Looped(lastId, Blocks(tail)).1
  {
    var ls := Lines(e, split);
    CommentSaysNothing(e, split);
    LeadAndLines(pending, ls, tail);
    LeadIsIgnored(pending, TrimLF(Unlines(ls)));
    LoopedEmpty(lastId, Lead(pending) + TrimLF(Unlines(ls)), Blocks(tail));
  }

  lemma FirstHasData(e: Event, split: bool, pending: bool, tail: string, lastId: string)
    requires Printable(e, split)
    ensures var all, m := Looped(lastId, Blocks(Lead(pending) + (Printed(e, split) + tail))), Filled(lastId, e);
            && all.0 == [m] + Looped(m.id, Blocks(tail)).0
            && all.1 == Looped(m.id, Blocks(tail)).1
  {
    var ls := Lines(e, split);
    LinesSurvive(e, split);
    BlockParses(e, split);
    LeadAndLines(pending, ls, tail);
    LeadIsIgnored(pending, TrimLF(Unlines(ls)));
    LoopedData(lastId, Lead(pending) + TrimLF(Unlines(ls)), e, Blocks(tail));
  }

  lemma FirstIsBlank(pending: bool, tail: string, lastId: string)
    ensures Looped(lastId, Blocks(Lead(pending) + (LF + tail))) == Looped(lastId, Blocks(Lead(!pending) + tail))
  {
    if pending {
      TwoNewlines(tail);
      LoopedNone(lastId, Blocks(tail));
      assert "" + tail == tail;
    } else {
      assert "" + (LF + tail) == LF + tail;
    }
  }

  lemma LastIsLead(pending: bool, lastId: string)
    ensures Looped(lastId, Blocks(Lead(pending))).0 == if pending then IdOnly(lastId) else []
    ensures Looped(lastId, Blocks(Lead(pending))).1 == lastId
  {
    if pending {
      OneNewline();
      LoopedEmpty(lastId, LF, []);
      assert [LF] + [] == [LF];
    }
  }

  /**
   For any mix of events with data, comments and events with neither, and any chunking (by
   `ReadLoop`), the handler gets exactly what `HandedOn` says.
   */
  lemma {:induction false} StreamIsHandedOn(lastId: string, events: seq<Event>, split: bool, pending: bool)
    requires forall e | e in events :: Writable(e, split)
    ensures var all := Looped(lastId, Blocks(Lead(pending) + Wire(events, split)));
            && all.0 == HandedOn(lastId, events, pending).0
            && all.1 == HandedOn(lastId, events, pending).1
    decreases |events|
  {
    if events == [] || IsSentinel(events[0]) {
      assert Lead(pending) + "" == Lead(pending);
      LastIsLead(pending, lastId);
    } else {
      var e, rest := events[0], events[1..];
      assert e in events && forall x | x in rest :: x in events;
      var tail := Wire(rest, split);
      assert "" + tail == tail;
      if e.data != "" {
        FirstHasData(e, split, pending, tail, lastId);
        StreamIsHandedOn(Filled(lastId, e).id, rest, split, false);
      } else if e.comment != "" {
        FirstIsComment(e, split, pending, tail, lastId);
        StreamIsHandedOn(lastId, rest, split, false);
      } else {
        PrintedBlank(e, split);
        FirstIsBlank(pending, tail, lastId);
        StreamIsHandedOn(lastId, rest, split, !pending);
      }
    }
  }

  // ---------- When the handler gets exactly the events with data ----------

  /** The events with data that the server sends, with the identifiers filled in. */
  function WithData(lastId: string, events: seq<Event>): seq<Event>
    decreases |events|
  {
    if events == [] || IsSentinel(events[0]) then []
    else if events[0].data == "" then WithData(lastId, events[1..])
    else
      var m := Filled(lastId, events[0]);
      [m] + WithData(m.id, events[1..])
  }

  /** A comment comes while an identifier is known, or an odd number of blank events ends the stream then. */
  predicate Disturbed(lastId: string, events: seq<Event>, pending: bool)
    decreases |events|
  {
    if events == [] || IsSentinel(events[0]) then pending && lastId != ""
    else
      var e, rest := events[0], events[1..];
      if e.data != "" then Disturbed(Filled(lastId, e).id, rest, false)
      else if e.comment != "" then lastId != "" || Disturbed(lastId, rest, false)
      else Disturbed(lastId, rest, !pending)
  }

  lemma {:induction false} HandedOnHasAll(lastId: string, events: seq<Event>, pending: bool)
    ensures var handed, want := HandedOn(lastId, events, pending).0, WithData(lastId, events);
            && |handed| >= |want|
            && (Disturbed(lastId, events, pending) ==> |handed| > |want|)
            && (!Disturbed(lastId, events, pending) ==> handed == want)
    decreases |events|
  {
    if events != [] && !IsSentinel(events[0]) {
      var e, rest := events[0], events[1..];
      if e.data != "" {
        HandedOnHasAll(Filled(lastId, e).id, rest, false);
      } else if e.comment != "" {
        HandedOnHasAll(lastId, rest, false);
      } else {
        HandedOnHasAll(lastId, rest, !pending);
      }
    }
  }

  /**
   The handler gets exactly the events with data, in order, up to the one with nothing in it
   that ends the stream, if and only if no comment came while the client had an identifier
   and no odd number of blank events ended the stream; otherwise it gets events with nothing
   but an identifier in between.
   */
  lemma OnlyDataExactly(lastId: string, events: seq<Event>, split: bool)
    requires forall e | e in events :: Writable(e, split)
    ensures Looped(lastId, Blocks(Wire(events, split))).0 == WithData(lastId, events) <==>
            !Disturbed(lastId, events, false)
  {
    assert "" + Wire(events, split) == Wire(events, split);
    StreamIsHandedOn(lastId, events, split, false);
    HandedOnHasAll(lastId, events, false);
  }

  /** Identifiers of their own come back unchanged. */
  lemma {:induction false} OwnIdsComeBack(lastId: string, events: seq<Event>)
    requires forall e | e in events :: e.data != "" && e.id != ""
    ensures WithData(lastId, events) == AsReceived(events) && !Disturbed(lastId, events, false)
    decreases |events|
  {
    if events != [] {
      var e, rest := events[0], events[1..];
      assert e in events && forall x | x in rest :: x in events;
      OwnIdsComeBack(e.id, rest);
    }
  }

  /** Events as the client receives them. */
  function AsReceived(events: seq<Event>): seq<Event> {
    seq(|events|, i requires 0 <= i < |events| => Received(events[i]))
  }

  /** A comment after an event, or a retry time alone at the end of the stream, is one event too many. */
  lemma OneTooMany(e: Event, extra: Event, split: bool)
    requires Printable(e, split) && e.id != ""
    requires extra.data == "" && Writable(extra, split)
    requires extra.comment != "" || extra.id != "" || extra.event != "" || extra.retry != ""
    ensures Looped("", Blocks(Wire([e, extra], split))).0 == [Received(e), EMPTY.(id := e.id)]
  {
    assert [e, extra][1..] == [extra] && [extra][1..] == [];
    assert "" + Wire([e, extra], split) == Wire([e, extra], split);
    StreamIsHandedOn("", [e, extra], split, false);
    assert HandedOn(e.id, [extra], false).0 == [EMPTY.(id := e.id)];
  }
}
