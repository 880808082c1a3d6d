/**
 Exactly which events get through the wire in each mode. The measure is how much data the
 lines of a block add (`Gains`): data that is written with too few data lines, or with a
 line break that the printer does not split at, cannot come back whole.
 */
module SseExact {
  import opened Options
  import opened SseWire

  /** How much data a line adds. */
  function Gain(line: string): nat {
    |ParseLine(EMPTY, line).data|
  }

  function Gains(lines: seq<string>): nat {
    if lines == [] then 0 else Gain(lines[0]) + Gains(lines[1..])
  }

  lemma GainIsAdded(acc: Event, line: string)
    ensures |ParseLine(acc, line).data| == |acc.data| + Gain(line)
    ensures Gain(line) <= |line|
    ensures Gain(line) > 0 ==> ParseLine(acc, line).data[|acc.data| + Gain(line) - 1] == '\n'
    ensures Gain(line) == 0 ==> ParseLine(acc, line).data == acc.data
  {
  }

  lemma {:induction false} GainsAreAdded(acc: Event, lines: seq<string>)
    ensures |ParseLines(acc, lines).data| == |acc.data| + Gains(lines)
    ensures Gains(lines) > 0 ==>
              TrimLF(ParseLines(acc, lines).data) == ParseLines(acc, lines).data[..|acc.data| + Gains(lines) - 1]
    ensures Gains(lines) == 0 ==> ParseLines(acc, lines).data == acc.data
    decreases |lines|
  {
    if lines != [] {
      GainIsAdded(acc, lines[0]);
      GainsAreAdded(ParseLine(acc, lines[0]), lines[1..]);
    }
  }

  lemma {:induction false} GainsAppend(a: seq<string>, b: seq<string>)
    ensures Gains(a + b) == Gains(a) + Gains(b)
  {
    if a == [] {
      assert a + b == b;
    } else {
      assert (a + b)[1..] == a[1..] + b;
      GainsAppend(a[1..], b);
    }
  }

  /** A newline separates the lines before it from those after it. */
  lemma {:induction false} FieldsAtNewline(a: string, b: string)
    ensures Fields(a + LF + b) == Fields(a) + Fields(b)
    decreases |a|
  {
    var s := a + LF + b;
    if a == "" {
      assert s[1..] == b;
    } else if IsBreak(a[0]) {
      assert s[1..] == a[1..] + LF + b;
      FieldsAtNewline(a[1..], b);
    } else {
      var n := LineEnd(a);
      var l, rest := a[..n], a[n..];
      assert a == l + rest && s == l + (rest + LF + b);
      LineEndIs(l, rest + LF + b);
      assert s[..n] == l && s[n..] == rest + LF + b;
      FieldsAtNewline(rest, b);
    }
  }

  lemma {:induction false} GainsAtMostLength(s: string)
    ensures Gains(Fields(s)) <= |s|
    decreases |s|
  {
    if s != "" {
      if IsBreak(s[0]) {
        GainsAtMostLength(s[1..]);
      } else {
        var n := LineEnd(s);
        GainIsAdded(EMPTY, s[..n]);
        GainsAtMostLength(s[n..]);
        assert Fields(s)[1..] == Fields(s[n..]);
      }
    }
  }

  /** Data that starts with a colon is written unlabelled, and its first line reads as a comment. */
  lemma ColonDataGains(data: string)
    requires data != "" && data[0] == ':'
    ensures Gains(Fields(data)) < |data|
  {
    var n := LineEnd(data);
    var l, rest := data[..n], data[n..];
    assert data == l + rest && Fields(data) == [l] + Fields(rest);
    GainsAppend([l], Fields(rest));
    ColonGainsNothing(l);
    GainsAtMostLength(rest);
  }

  /** The label covers the first line only: the line after it adds no more than its own length. */
  lemma NewlineDataGains(l: string, more: string)
    requires OneLine(l)
    ensures Gains(Fields(Labelled("data", l + LF + more))) <= |l + LF + more|
  {
    var first := Labelled("data", l);
    assert Labelled("data", l + LF + more) == first + LF + more;
    FieldsAtNewline(first, more);
    OneField(first);
    GainsAppend([first], Fields(more));
    DataLineGains(l);
    GainsAtMostLength(more);
  }

  lemma FirstBreak(s: string) returns (n: nat)
    requires !OneLine(s)
    ensures n < |s| && OneLine(s[..n]) && IsBreak(s[n])
  {
    n := LineEnd(s);
    assert s[..|s|] == s;
  }

  lemma OneField(line: string)
    requires GoodLine(line)
    ensures Fields(line) == [line]
  {
    assert line + "" == line;
    LineEndIs(line, "");
  }

  lemma DataLineGains(l: string)
    requires OneLine(l)
    ensures Gains([Labelled("data", l)]) == |l| + 1
  {
    ParseData(EMPTY, l);
    assert [Labelled("data", l)][1..] == [];
  }

  /** Data with a newline in it, or starting with a colon, is written with too few data lines to carry it. */
  lemma UnsplitDataGains(data: string)
    requires NoCR(data) && data != "" && !(OneLine(data) && data[0] != ':')
    ensures Gains(Fields(DataLines(data, false)[0])) <= |data|
  {
    if data[0] == ':' {
      ColonDataGains(data);
    } else {
      var n := FirstBreak(data);
      assert data == data[..n] + LF + data[n + 1..];
      NewlineDataGains(data[..n], data[n + 1..]);
    }
  }

  lemma ColonGainsNothing(l: string)
    requires l != "" && l[0] == ':'
    ensures Gains([l]) == 0
  {
    assert forall n | 0 < n <= |l| :: l[..n][0] == l[0];
    assert [l][1..] == [];
  }

  lemma FieldLinesGainNothing(e: Event)
    requires OneLine(e.id) && OneLine(e.event) && OneLine(e.retry) && OneLine(e.comment)
    ensures Gains([Labelled("id", e.id)]) == 0
    ensures Gains(FieldIf("event", e.event)) == 0 && Gains(FieldIf("retry", e.retry)) == 0
    ensures Gains(FieldIf("", e.comment)) == 0
  {
    ParseId(EMPTY, e.id);
    ParseEvent(EMPTY, e.event);
    ParseRetry(EMPTY, e.retry);
    ParseComment(EMPTY, e.comment);
  }

  /** The lines that `FieldsFunc` finds in printed good lines are those lines. */
  lemma FieldsOfUnlines(ls: seq<string>)
    requires forall l | l in ls :: GoodLine(l)
    ensures Fields(Unlines(ls)) == ls
  {
    if ls != [] {
      UnlinesShape(ls);
      FieldsOfLines(ls);
      var u := Unlines(ls);
      assert u == TrimLF(u) + LF + "";
      FieldsAtNewline(TrimLF(u), "");
      assert ls + [] == ls;
    }
  }

  /** The whole text printed for the event adds no more data than its data line does. */
  lemma PrintedGains(e: Event)
    requires e.data != "" && OneLine(e.id) && OneLine(e.event) && OneLine(e.retry) && OneLine(e.comment)
    ensures Gains(Fields(Printed(e, false))) == Gains(Fields(DataLines(e.data, false)[0]))
  {
    var idLine, d := Labelled("id", e.id), DataLines(e.data, false)[0];
    var more := FieldIf("event", e.event) + FieldIf("retry", e.retry) + FieldIf("", e.comment);
    PrintedIs(e, idLine, d, more);
    GoodLabels(e);
    FieldsOfPrinted(idLine, d, more);
    MoreGainsNothing(e);
    FieldLinesGainNothing(e);
    GainsAppend([idLine], Fields(d) + more);
    GainsAppend(Fields(d), more);
  }

  lemma MoreGainsNothing(e: Event)
    requires OneLine(e.id) && OneLine(e.event) && OneLine(e.retry) && OneLine(e.comment)
    ensures Gains(FieldIf("event", e.event) + FieldIf("retry", e.retry) + FieldIf("", e.comment)) == 0
  {
    FieldLinesGainNothing(e);
    GainsAppend(FieldIf("event", e.event), FieldIf("retry", e.retry));
    GainsAppend(FieldIf("event", e.event) + FieldIf("retry", e.retry), FieldIf("", e.comment));
  }

  lemma FieldsOfPrinted(idLine: string, d: string, more: seq<string>)
    requires GoodLine(idLine) && forall l | l in more :: GoodLine(l)
    ensures Fields(idLine + LF + (d + LF + (Unlines(more) + LF))) == [idLine] + (Fields(d) + more)
  {
    FieldsAtNewline(idLine, d + LF + (Unlines(more) + LF));
    OneField(idLine);
    FieldsAtNewline(d, Unlines(more) + LF);
    FieldsOfBlankEnd(more);
  }

  lemma FieldsOfBlankEnd(more: seq<string>)
    requires forall l | l in more :: GoodLine(l)
    ensures Fields(Unlines(more) + LF) == more
  {
    FieldsOfUnlines(more);
    assert Unlines(more) + LF == Unlines(more) + LF + "";
    FieldsAtNewline(Unlines(more), "");
    assert more + [] == more;
  }

  lemma PrintedIs(e: Event, idLine: string, d: string, more: seq<string>)
    requires e.data != "" && idLine == Labelled("id", e.id) && d == DataLines(e.data, false)[0]
    requires more == FieldIf("event", e.event) + FieldIf("retry", e.retry) + FieldIf("", e.comment)
    ensures Printed(e, false) == idLine + LF + (d + LF + (Unlines(more) + LF))
  {
    assert Lines(e, false) == [idLine, d] + more;
    UnlinesAppend([idLine, d], more);
    assert [idLine, d][1..] == [d];
    UnlinesOne(d);
  }

  // ---------- Line breaks that are not split at ----------

  lemma LineAddsNoCR(acc: Event, line: string)
    requires NoCR(acc.data) && OneLine(line)
    ensures NoCR(ParseLine(acc, line).data)
  {
  }

  lemma {:induction false} LinesAddNoCR(acc: Event, lines: seq<string>)
    requires NoCR(acc.data) && forall l | l in lines :: OneLine(l)
    ensures NoCR(ParseLines(acc, lines).data)
    decreases |lines|
  {
    if lines != [] {
      assert lines[0] in lines && forall l | l in lines[1..] :: l in lines;
      LineAddsNoCR(acc, lines[0]);
      LinesAddNoCR(ParseLine(acc, lines[0]), lines[1..]);
    }
  }

  lemma {:induction false} FieldsAreLines(s: string)
    ensures forall l | l in Fields(s) :: GoodLine(l)
    decreases |s|
  {
    if s != "" {
      if IsBreak(s[0]) {
        FieldsAreLines(s[1..]);
      } else {
        FieldsAreLines(s[LineEnd(s)..]);
      }
    }
  }

  /** No block whatever parses to data with a carriage return. */
  lemma ParsedHasNoCR(block: string)
    requires block != ""
    ensures NoCR(Parse(block).value.data)
  {
    FieldsAreLines(block);
    LinesAddNoCR(EMPTY, Fields(block));
  }

  lemma FirstBlockParses(text: string)
    requires text != "" && !IsBreak(text[0])
    ensures Blocks(text) != [] && Blocks(text)[0] != ""
  {
    var i := DoubleNewline(text).0;
    if i == 0 {
      var q := FirstSeparator(text);
      OccursChar(text, q, 0, 0);
    }
  }

  lemma PrintedStarts(e: Event, split: bool)
    requires e.data != ""
    ensures Printed(e, split) != "" && Printed(e, split)[0] == 'i'
  {
    var ls := Lines(e, split);
    assert ls[0] == Labelled("id", e.id);
    assert Unlines(ls) == ls[0] + LF + Unlines(ls[1..]);
  }

  /** Nothing is written from the first event on that has nothing in it at all, and something before it. */
  lemma StreamEndsExactly(e: Event, rest: seq<Event>, split: bool)
    ensures Wire([e] + rest, split) == "" <==>
            e.id == "" && e.data == "" && e.event == "" && e.retry == "" && e.comment == ""
  {
    assert ([e] + rest)[0] == e;
    assert |Printed(e, split)| >= 1;
  }

  /**
   What is on the wire, line by line: the id, the data in one line for each part, the event
   name and the retry time if there are any, and the comment if there is one.
   */
  lemma LinesOnTheWire(e: Event, split: bool)
    requires Printable(e, split)
    ensures var parts := if split then SplitLF(e.data) else [e.data];
            Fields(Printed(e, split)) ==
            ["id: " + e.id] + seq(|parts|, i requires 0 <= i < |parts| => "data: " + parts[i])
            + (if e.event == "" then [] else ["event: " + e.event])
            + (if e.retry == "" then [] else ["retry: " + e.retry])
            + (if e.comment == "" then [] else [": " + e.comment])
  {
    LinesSurvive(e, split);
    FieldsOfBlankEnd(Lines(e, split));
    DataLinesAre(e.data, split);
    LabelsAre(e);
  }

  lemma DataLinesAre(data: string, split: bool)
    requires !split ==> data != "" && data[0] != ':'
    ensures var parts := if split then SplitLF(data) else [data];
            DataLines(data, split) == seq(|parts|, i requires 0 <= i < |parts| => "data: " + parts[i])
  {
    assert "data" + ": " == "data: ";
  }

  lemma LabelsAre(e: Event)
    ensures Labelled("id", e.id) == "id: " + e.id
    ensures FieldIf("event", e.event) == if e.event == "" then [] else ["event: " + e.event]
    ensures FieldIf("retry", e.retry) == if e.retry == "" then [] else ["retry: " + e.retry]
    ensures FieldIf("", e.comment) == if e.comment == "" then [] else [": " + e.comment]
  {
    assert "id" + ": " == "id: " && "event" + ": " == "event: " && "retry" + ": " == "retry: ";
    assert "" + ": " == ": ";
  }

  /** The data that the format can carry: no carriage return and, unless split, one line that is no comment. */
  predicate Carried(data: string, split: bool) {
    NoCR(data) && (split || (OneLine(data) && data != "" && data[0] != ':'))
  }

  /**
   The data of an event gets through exactly when it has no carriage return and, without
   splitting, is a single line that does not start with a colon.
   */
  lemma DataSurvivesExactly(e: Event, split: bool)
    requires e.data != ""
    requires OneLine(e.id) && OneLine(e.event) && OneLine(e.retry) && OneLine(e.comment)
    ensures var blocks := Blocks(Printed(e, split));
            && blocks != [] && Parse(blocks[0]).Some?
            && (Parse(blocks[0]).value.data == e.data <==> Carried(e.data, split))
  {
    PrintedStarts(e, split);
    FirstBlockParses(Printed(e, split));
    if Carried(e.data, split) {
      OneEventSurvives(e, split, "");
      assert Printed(e, split) + "" == Printed(e, split);
    } else if !NoCR(e.data) {
      ParsedHasNoCR(Blocks(Printed(e, split))[0]);
    } else {
      var b := FirstBlockOf(e);
      UnsplitDataGains(e.data);
      GainsAreAdded(EMPTY, Fields(b));
    }
  }

  lemma LineKeepsFields(acc: Event, line: string)
    requires OneLine(acc.id) && OneLine(acc.event) && OneLine(acc.retry) && OneLine(line)
    ensures var r := ParseLine(acc, line); OneLine(r.id) && OneLine(r.event) && OneLine(r.retry)
  {
  }

  lemma {:induction false} LinesKeepFields(acc: Event, lines: seq<string>)
    requires OneLine(acc.id) && OneLine(acc.event) && OneLine(acc.retry) && forall l | l in lines :: OneLine(l)
    ensures var r := ParseLines(acc, lines); OneLine(r.id) && OneLine(r.event) && OneLine(r.retry)
    decreases |lines|
  {
    if lines != [] {
      assert lines[0] in lines && forall l | l in lines[1..] :: l in lines;
      LineKeepsFields(acc, lines[0]);
      LinesKeepFields(ParseLine(acc, lines[0]), lines[1..]);
    }
  }

  /** No block whatever parses to an id, event name or retry time with a line break. */
  lemma ParsedFieldsAreLines(block: string)
    requires block != ""
    ensures var r := Parse(block).value; OneLine(r.id) && OneLine(r.event) && OneLine(r.retry)
  {
    FieldsAreLines(block);
    LinesKeepFields(EMPTY, Fields(block));
  }

  /** An event with data and a one-line comment comes back whole exactly when it is printable. */
  lemma SurvivesExactly(e: Event, split: bool)
    requires e.data != "" && OneLine(e.comment)
    ensures var blocks := Blocks(Printed(e, split));
            blocks != [] && (Parse(blocks[0]) == Some(Received(e)) <==> Printable(e, split))
  {
    PrintedStarts(e, split);
    FirstBlockParses(Printed(e, split));
    if Printable(e, split) {
      OneEventSurvives(e, split, "");
      assert Printed(e, split) + "" == Printed(e, split);
    } else if OneLine(e.id) && OneLine(e.event) && OneLine(e.retry) {
      DataSurvivesExactly(e, split);
    } else {
      ParsedFieldsAreLines(Blocks(Printed(e, split))[0]);
    }
  }

  // ---------- The first block without splitting ----------

  /** The first block of the printed event carries at most what the whole text carries. */
  lemma FirstBlockOf(e: Event) returns (b: string)
    requires e.data != "" && NoCR(e.data)
    requires OneLine(e.id) && OneLine(e.event) && OneLine(e.retry) && OneLine(e.comment)
    ensures Blocks(Printed(e, false)) != [] && Blocks(Printed(e, false))[0] == b && b != ""
    ensures Gains(Fields(b)) <= Gains(Fields(DataLines(e.data, false)[0]))
  {
    PrintedHasNoCR(e);
    EndsWithBlankLine(Lines(e, false));
    var more := FieldIf("event", e.event) + FieldIf("retry", e.retry) + FieldIf("", e.comment);
    PrintedIs(e, Labelled("id", e.id), DataLines(e.data, false)[0], more);
    assert Printed(e, false)[0] == 'i';
    b := CutAtBlankLine(Printed(e, false));
    PrintedGains(e);
  }

  lemma CutAtBlankLine(text: string) returns (b: string)
    requires NoCR(text) && IndexOf(text, "\n\n") >= 0 && text[0] != '\n'
    ensures Blocks(text) != [] && Blocks(text)[0] == b && b != "" && Gains(Fields(b)) <= Gains(Fields(text))
  {
    OnlyNewlinesSeparate(text);
    var i := IndexOf(text, "\n\n");
    OccursChar(text, "\n\n", i, 0);
    b := text[..i];
    var rest := text[i + 1..];
    assert text == b + LF + rest;
    FieldsAtNewline(b, rest);
    GainsAppend(Fields(b), Fields(rest));
  }

  lemma EndsWithBlankLine(ls: seq<string>)
    requires ls != []
    ensures IndexOf(Unlines(ls) + LF, "\n\n") >= 0
  {
    var init, last := ls[..|ls| - 1], ls[|ls| - 1];
    assert ls == init + [last];
    UnlinesAppend(init, [last]);
    UnlinesOne(last);
    var text := Unlines(ls) + LF;
    assert text[|text| - 2..] == "\n\n";
    assert OccursAt(text, "\n\n", |text| - 2);
  }

  lemma PrintedHasNoCR(e: Event)
    requires NoCR(e.data) && e.data != ""
    requires OneLine(e.id) && OneLine(e.event) && OneLine(e.retry) && OneLine(e.comment)
    ensures NoCR(Printed(e, false))
  {
    LabelledHasNoCR("id", e.id);
    LabelledHasNoCR("data", e.data);
    LabelledHasNoCR("event", e.event);
    LabelledHasNoCR("retry", e.retry);
    LabelledHasNoCR("", e.comment);
    var head := [Labelled("id", e.id)] + DataLines(e.data, false);
    assert forall l | l in head :: NoCR(l);
    var more := FieldIf("event", e.event) + FieldIf("retry", e.retry) + FieldIf("", e.comment);
    assert forall l | l in more :: NoCR(l);
    assert Lines(e, false) == head + more;
    UnlinesHaveNoCR(Lines(e, false));
  }

  lemma LabelledHasNoCR(name: string, value: string)
    requires NoCR(name) && NoCR(value)
    ensures NoCR(Labelled(name, value))
  {
  }

  lemma {:induction false} UnlinesHaveNoCR(ls: seq<string>)
    requires forall l | l in ls :: NoCR(l)
    ensures NoCR(Unlines(ls))
  {
    if ls != [] {
      assert ls[0] in ls && forall l | l in ls[1..] :: l in ls;
      UnlinesHaveNoCR(ls[1..]);
    }
  }
}
