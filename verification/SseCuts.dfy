/**
 Streams that break off inside an event. The reader hands out what is left at the end of a
 stream as a block (transport/sse/event.go), so the client takes the part of the event that
 arrived for an event, stores its identifier and resumes from there
 (transport/sse/client.go). This module says for every cut what that part parses to, which
 cuts do no harm, and what the others lose or repeat.
 */
module SseCuts {
  import opened Options
  import opened Sequences
  import opened SseWire
  import opened SseExact
  import opened SseLog
  import opened SseClient

  // ---------- Prefixes of one line ----------

  lemma LabelledPrefix(name: string, v: string, k: nat)
    requires |name| + 2 <= k <= |name| + 2 + |v|
    ensures Labelled(name, v)[..k] == Labelled(name, v[..k - |name| - 2])
  {
  }

  /** What a field keeps when its line is cut after `k` characters. */
  function Kept(name: string, v: string, k: nat): string {
    if k <= |name| + 2 then "" else if k >= |name| + 2 + |v| then v else v[..k - |name| - 2]
  }

  lemma KeptLabel(name: string, v: string, k: nat)
    requires |name| + 2 <= k <= |name| + 2 + |v|
    ensures Labelled(name, v)[..k] == Labelled(name, Kept(name, v, k))
  {
    LabelledPrefix(name, v, k);
    assert v[..0] == "" && v[..|v|] == v;
  }

  lemma FirstChar(line: string, k: nat)
    requires 0 < k <= |line|
    ensures forall n | 0 < n <= k :: line[..k][..n][0] == line[0]
  {
  }

  lemma IdLineCut(v: string, k: nat)
    requires OneLine(v) && 0 < k <= 4 + |v|
    ensures ParseLine(EMPTY, Labelled("id", v)[..k]) == EMPTY.(id := Kept("id", v, k))
  {
    var l := Labelled("id", v);
    if k >= 4 {
      KeptLabel("id", v, k);
      ParseId(EMPTY, Kept("id", v, k));
    } else {
      FirstChar(l, k);
      assert k == 3 ==> l[..k] == "id:" && l[..k][3..] == "";
    }
  }

  lemma DataLineCut(acc: Event, v: string, k: nat)
    requires OneLine(v) && k <= 6 + |v|
    ensures k < 4 ==> ParseLine(acc, Labelled("data", v)[..k]) == acc
    ensures k >= 4 ==>
              ParseLine(acc, Labelled("data", v)[..k]) == acc.(data := acc.data + (Kept("data", v, k) + LF))
  {
    var l := Labelled("data", v);
    if k >= 6 {
      KeptLabel("data", v, k);
      ParseData(acc, Kept("data", v, k));
    } else if k > 0 {
      FirstChar(l, k);
      assert l[0] == 'd' && "id:"[0] == 'i' && "event:"[0] == 'e' && "retry:"[0] == 'r';
      assert k == 4 ==> l[..k] == "data";
      assert k == 5 ==> l[..k] == "data:" && l[..k][5..] == "";
      assert "" + LF == LF;
    }
  }

  lemma EventLineCut(acc: Event, v: string, k: nat)
    requires OneLine(v) && k <= 7 + |v| && acc.event == ""
    ensures ParseLine(acc, Labelled("event", v)[..k]) == acc.(event := Kept("event", v, k))
  {
    var l := Labelled("event", v);
    if k >= 7 {
      KeptLabel("event", v, k);
      ParseEvent(acc, Kept("event", v, k));
    } else if k > 0 {
      FirstChar(l, k);
      assert l[0] == 'e' && "id:"[0] == 'i' && "data:"[0] == 'd' && "retry:"[0] == 'r';
      assert k == 6 ==> l[..k] == "event:" && l[..k][6..] == "";
    }
  }

  lemma RetryLineCut(acc: Event, v: string, k: nat)
    requires OneLine(v) && k <= 7 + |v| && acc.retry == ""
    ensures ParseLine(acc, Labelled("retry", v)[..k]) == acc.(retry := Kept("retry", v, k))
  {
    var l := Labelled("retry", v);
    if k >= 7 {
      KeptLabel("retry", v, k);
      ParseRetry(acc, Kept("retry", v, k));
    } else if k > 0 {
      FirstChar(l, k);
      assert l[0] == 'r' && "id:"[0] == 'i' && "data:"[0] == 'd' && "event:"[0] == 'e';
      assert k == 6 ==> l[..k] == "retry:" && l[..k][6..] == "";
    }
  }

  // ---------- Prefixes of the data lines ----------

  /** The lines of a text that goes on after complete lines. */
  lemma FieldsAfterLines(ls: seq<string>, q: string)
    requires GoodLines(ls)
    ensures Fields(Unlines(ls) + q) == ls + Fields(q)
  {
    var u := Unlines(ls);
    UnlinesShape(ls);
    FieldsOfLines(ls);
    assert u == TrimLF(u) + LF;
    FieldsAtNewline(TrimLF(u), q);
  }

  /** The lines of a part of one line. */
  lemma FieldsOfPart(line: string, k: nat)
    requires OneLine(line) && k <= |line|
    ensures Fields(line[..k]) == if k == 0 then [] else [line[..k]]
  {
    if k > 0 {
      OneField(line[..k]);
    }
  }

  lemma ParsePartLine(acc: Event, line: string, k: nat)
    requires OneLine(line) && k <= |line|
    ensures ParseLines(acc, Fields(line[..k])) == if k == 0 then acc else ParseLine(acc, line[..k])
  {
    FieldsOfPart(line, k);
    if k > 0 {
      ParseLinesOne(acc, line[..k]);
    }
  }

  /** From here on, a prefix of the data lines carries all the data. */
  function DataThreshold(parts: seq<string>): int
    requires parts != []
  {
    |Unlines(WithName("data", parts))| - 1 - if parts[|parts| - 1] == "" then 2 else 0
  }

  /** One data line, cut: it adds its data exactly from its end on, or from its name on if it has none. */
  lemma OneDataCut(acc: Event, v: string, k: nat)
    requires OneLine(v) && k <= 6 + |v|
    ensures var r, full := ParseLines(acc, Fields(Labelled("data", v)[..k])), k >= (if v == "" then 4 else 6 + |v|);
            && r == acc.(data := r.data) && |r.data| <= |acc.data| + |v| + 1
            && (full ==> r.data == acc.data + (v + LF)) && (!full ==> |r.data| < |acc.data| + |v| + 1)
            && (r.data == acc.data || (r.data != "" && r.data[|r.data| - 1] == '\n'))
  {
    ParsePartLine(acc, Labelled("data", v), k);
    DataLineCut(acc, v, k);
    assert Labelled("data", v)[..0] == "";
  }

  lemma UnlinesOfNamed(parts: seq<string>)
    requires parts != []
    ensures WithName("data", parts)[1..] == WithName("data", parts[1..])
    ensures Unlines(WithName("data", parts)) ==
            Labelled("data", parts[0]) + LF + Unlines(WithName("data", parts[1..]))
    ensures |Unlines(WithName("data", parts))| >= |Unlines(parts)| + 6
  {
    if |parts| > 1 {
      UnlinesOfNamed(parts[1..]);
    }
  }

  /** `r` is `acc` with more data: with `want` added if `full`, and with less than that if not. */
  ghost predicate Arrived(acc: Event, r: Event, full: bool, want: string) {
    && r == acc.(data := r.data)
    && (full ==> r.data == acc.data + want)
    && (!full ==> |r.data| < |acc.data| + |want|)
    && (r.data == acc.data || (r.data != "" && r.data[|r.data| - 1] == '\n'))
  }

  /** A prefix of the data lines adds data only, and all of it exactly from the threshold on. */
  lemma {:induction false} DataCut(acc: Event, parts: seq<string>, k: nat)
    requires parts != [] && (forall p | p in parts :: OneLine(p)) && k < |Unlines(WithName("data", parts))|
    ensures var r := ParseLines(acc, Fields(Unlines(WithName("data", parts))[..k]));
            Arrived(acc, r, k >= DataThreshold(parts), Unlines(parts))
    decreases |parts|
  {
    var v, rest := parts[0], parts[1..];
    var l := Labelled("data", v);
    assert v in parts && forall p | p in rest :: p in parts;
    UnlinesOfNamed(parts);
    if k <= |l| {
      CutInFirst(acc, parts, k);
    } else {
      ThresholdOfRest(parts, k - |l| - 1);
      DataCut(acc.(data := acc.data + (v + LF)), rest, k - |l| - 1);
      CutAfterFirst(acc, parts, k);
    }
  }

  lemma CutAfterFirst(acc: Event, parts: seq<string>, k: nat)
    requires |parts| > 1 && OneLine(parts[0])
    requires |Labelled("data", parts[0])| < k < |Unlines(WithName("data", parts))|
    requires var acc1, j := acc.(data := acc.data + (parts[0] + LF)), k - |Labelled("data", parts[0])| - 1;
             && j < |Unlines(WithName("data", parts[1..]))|
             && var r := ParseLines(acc1, Fields(Unlines(WithName("data", parts[1..]))[..j]));
                Arrived(acc1, r, j >= DataThreshold(parts[1..]), Unlines(parts[1..]))
    ensures var r := ParseLines(acc, Fields(Unlines(WithName("data", parts))[..k]));
            Arrived(acc, r, k >= DataThreshold(parts), Unlines(parts))
  {
    var v, rest := parts[0], parts[1..];
    var j := k - |Labelled("data", v)| - 1;
    UnlinesOfNamed(parts);
    ThresholdOfRest(parts, j);
    SkipDataLine(acc, v, Unlines(WithName("data", rest)), k);
    var r := ParseLines(acc, Fields(Unlines(WithName("data", parts))[..k]));
    ArrivedAfter(acc, r, v, rest, j >= DataThreshold(rest));
  }

  lemma ThresholdOfRest(parts: seq<string>, k: nat)
    requires parts != [] && k < |Unlines(WithName("data", parts[1..]))|
    ensures parts[1..] != []
    ensures DataThreshold(parts) == |Labelled("data", parts[0])| + 1 + DataThreshold(parts[1..])
  {
    UnlinesOfNamed(parts);
  }

  lemma CutInFirst(acc: Event, parts: seq<string>, k: nat)
    requires parts != [] && OneLine(parts[0]) && k <= |Labelled("data", parts[0])|
    ensures k <= |Unlines(WithName("data", parts))|
    ensures var r := ParseLines(acc, Fields(Unlines(WithName("data", parts))[..k]));
            Arrived(acc, r, k >= DataThreshold(parts), Unlines(parts))
  {
    var v, rest := parts[0], parts[1..];
    var l := Labelled("data", v);
    UnlinesOfNamed(parts);
    assert Unlines(WithName("data", parts))[..k] == l[..k];
    OneDataCut(acc, v, k);
    LengthsOfFirst(parts);
  }

  lemma LengthsOfFirst(parts: seq<string>)
    requires parts != []
    ensures |parts| == 1 ==> Unlines(parts) == parts[0] + LF
    ensures |parts| == 1 ==> DataThreshold(parts) == if parts[0] == "" then 4 else 6 + |parts[0]|
    ensures |parts| > 1 ==> |Unlines(parts)| > |parts[0]| + 1 && DataThreshold(parts) > |Labelled("data", parts[0])|
  {
    UnlinesOfNamed(parts);
    if |parts| > 1 {
      UnlinesOfNamed(parts[1..]);
    }
  }

  lemma SkipDataLine(acc: Event, v: string, more: string, k: nat)
    requires OneLine(v) && |Labelled("data", v)| < k <= |Labelled("data", v)| + 1 + |more|
    ensures ParseLines(acc, Fields((Labelled("data", v) + LF + more)[..k])) ==
            ParseLines(acc.(data := acc.data + (v + LF)), Fields(more[..k - |Labelled("data", v)| - 1]))
  {
    var l := Labelled("data", v);
    var q := more[..k - |l| - 1];
    FrontOfTwo(l + LF, more, k);
    ParseAfterLine(acc, l, q);
    ParseData(acc, v);
  }

  lemma ParseAfterLine(acc: Event, l: string, q: string)
    requires GoodLine(l)
    ensures ParseLines(acc, Fields(l + LF + q)) == ParseLines(ParseLine(acc, l), Fields(q))
  {
    UnlinesOne(l);
    FieldsAfterLines([l], q);
    ParseLinesAppend(acc, [l], Fields(q));
    ParseLinesOne(acc, l);
  }

  lemma ArrivedAfter(acc: Event, r: Event, v: string, rest: seq<string>, full: bool)
    requires Arrived(acc.(data := acc.data + (v + LF)), r, full, Unlines(rest))
    ensures Arrived(acc, r, full, v + LF + Unlines(rest))
  {
    Regroup(acc.data, v + LF, Unlines(rest));
  }

  // ---------- Prefixes of a printed event ----------

  /** The values of the data lines. */
  function Parts(data: string, split: bool): (parts: seq<string>)
    ensures parts != []
  {
    if split then SplitLF(data) else [data]
  }

  lemma DataLinesAreNamed(e: Event, split: bool)
    requires Printable(e, split)
    ensures DataLines(e.data, split) == WithName("data", Parts(e.data, split))
    ensures forall p | p in Parts(e.data, split) :: OneLine(p)
    ensures Unlines(Parts(e.data, split)) == e.data + LF
  {
    if split {
      SplitIsOneLine(e.data);
      JoinSplit(e.data);
    } else {
      UnlinesOne(e.data);
    }
  }

  /** Where the lines for the id, the data, the event name and the retry time end. */
  function IdEnd(e: Event): nat {
    |Labelled("id", e.id)| + 1
  }

  function DataEnd(e: Event, split: bool): nat {
    IdEnd(e) + |Unlines(DataLines(e.data, split))|
  }

  function EventEnd(e: Event, split: bool): nat {
    DataEnd(e, split) + |Unlines(FieldIf("event", e.event))|
  }

  function RetryEnd(e: Event, split: bool): nat {
    EventEnd(e, split) + |Unlines(FieldIf("retry", e.retry))|
  }

  /** The lines up to the data, the event name and the retry time. */
  function UpToData(e: Event, split: bool): seq<string> {
    [Labelled("id", e.id)] + DataLines(e.data, split)
  }

  function UpToEvent(e: Event, split: bool): seq<string> {
    UpToData(e, split) + FieldIf("event", e.event)
  }

  function UpToRetry(e: Event, split: bool): seq<string> {
    UpToEvent(e, split) + FieldIf("retry", e.retry)
  }

  lemma SplitAtId(e: Event, split: bool)
    requires e.data != ""
    ensures Lines(e, split) == [Labelled("id", e.id)] + DataLines(e.data, split)
                               + (FieldIf("event", e.event) + FieldIf("retry", e.retry) + FieldIf("", e.comment))
  {
  }

  lemma SplitAtData(e: Event, split: bool)
    requires e.data != ""
    ensures Lines(e, split) == UpToData(e, split) + FieldIf("event", e.event)
                               + (FieldIf("retry", e.retry) + FieldIf("", e.comment))
  {
  }

  lemma SplitAtEvent(e: Event, split: bool)
    requires e.data != ""
    ensures Lines(e, split) == UpToEvent(e, split) + FieldIf("retry", e.retry) + FieldIf("", e.comment)
  {
  }

  lemma SplitAtRetry(e: Event, split: bool)
    requires e.data != ""
    ensures Lines(e, split) == UpToRetry(e, split) + FieldIf("", e.comment)
  {
  }

  /** The event that arrives when lines `a` came whole and `q` is what came of the next ones. */
  function FromPart(a: seq<string>, q: string): Event {
    var r := ParseLines(ParseLines(EMPTY, a), Fields(q));
    r.(data := TrimLF(r.data))
  }

  /** All the data came: it is what the parser collected, without the last newline. */
  lemma FromPartIs(a: seq<string>, q: string, acc: Event, r: Event, data: string)
    requires ParseLines(EMPTY, a) == acc && ParseLines(acc, Fields(q)) == r && r.data == data + LF
    ensures FromPart(a, q) == r.(data := data)
  {
    assert TrimLF(data + LF) == data;
  }

  lemma PrintedIsThree(e: Event, split: bool, a: seq<string>, b: seq<string>, c: seq<string>)
    requires Lines(e, split) == a + b + c
    ensures Printed(e, split) == Unlines(a) + (Unlines(b) + (Unlines(c) + LF))
  {
    UnlinesAppend(a + b, c);
    UnlinesAppend(a, b);
    Reassociate(Unlines(a), Unlines(b), Unlines(c), LF);
    Regroup(Unlines(b), Unlines(c), LF);
  }

  lemma PartParses(e: Event, split: bool, a: seq<string>, b: seq<string>, c: seq<string>, k: nat)
    requires Lines(e, split) == a + b + c && GoodLines(a)
    requires |Unlines(a)| <= k <= |Unlines(a)| + |Unlines(b)|
    ensures k <= |Printed(e, split)|
    ensures Parse(Printed(e, split)[..k]) == Some(FromPart(a, Unlines(b)[..k - |Unlines(a)|]))
  {
    var j := k - |Unlines(a)|;
    var q := Unlines(b)[..j];
    PrintedIsThree(e, split, a, b, c);
    FrontOfTwo(Unlines(a), Unlines(b) + (Unlines(c) + LF), k);
    FrontOfTwo(Unlines(b), Unlines(c) + LF, j);
    assert (Unlines(b) + (Unlines(c) + LF))[..j] == q;
    FieldsAfterLines(a, q);
    ParseLinesAppend(EMPTY, a, Fields(q));
    UnlinesShape(a);
  }

  /** Cut before the id is complete: an event with part of the id and nothing else. */
  lemma CutInId(e: Event, split: bool, k: nat)
    requires Printable(e, split) && 0 < k < IdEnd(e)
    ensures k <= |Printed(e, split)| && Parse(Printed(e, split)[..k]) == Some(EMPTY.(id := Kept("id", e.id, k)))
  {
    var l := Labelled("id", e.id);
    var ls := Lines(e, split);
    assert ls == [] + [l] + ls[1..];
    PrintedIsThree(e, split, [], [l], ls[1..]);
    UnlinesOne(l);
    assert Printed(e, split)[..k] == l[..k];
    ParsePartLine(EMPTY, l, k);
    IdLineCut(e.id, k);
  }

  lemma LinesUpToData(e: Event, split: bool)
    requires Printable(e, split)
    ensures var id := [Labelled("id", e.id)];
            |Unlines(id)| == IdEnd(e) && GoodLines(id) && ParseLines(EMPTY, id) == EMPTY.(id := e.id)
    ensures |Unlines(UpToData(e, split))| == DataEnd(e, split) && GoodLines(UpToData(e, split))
    ensures ParseLines(EMPTY, UpToData(e, split)) == EMPTY.(id := e.id, data := e.data + LF)
  {
    var a, b := [Labelled("id", e.id)], DataLines(e.data, split);
    UnlinesOne(Labelled("id", e.id));
    UnlinesAppend(a, b);
    ParseId(EMPTY, e.id);
    ParseLinesOne(EMPTY, Labelled("id", e.id));
    DataSurvives(EMPTY.(id := e.id), e, split);
    ParseLinesAppend(EMPTY, a, b);
    GoodLabels(e);
    assert "" + (e.data + LF) == e.data + LF;
  }

  lemma LinesUpToEvent(e: Event, split: bool)
    requires Printable(e, split)
    ensures |Unlines(UpToEvent(e, split))| == EventEnd(e, split) && GoodLines(UpToEvent(e, split))
    ensures ParseLines(EMPTY, UpToEvent(e, split)) ==
            EMPTY.(id := e.id, data := e.data + LF, event := e.event)
  {
    LinesUpToData(e, split);
    UnlinesAppend(UpToData(e, split), FieldIf("event", e.event));
    FieldIfSurvives(EMPTY.(id := e.id, data := e.data + LF), e);
    ParseLinesAppend(EMPTY, UpToData(e, split), FieldIf("event", e.event));
    GoodLabels(e);
  }

  lemma LinesUpToRetry(e: Event, split: bool)
    requires Printable(e, split)
    ensures |Unlines(UpToRetry(e, split))| == RetryEnd(e, split) && GoodLines(UpToRetry(e, split))
    ensures ParseLines(EMPTY, UpToRetry(e, split)) == Received(e).(data := e.data + LF)
  {
    LinesUpToEvent(e, split);
    UnlinesAppend(UpToEvent(e, split), FieldIf("retry", e.retry));
    FieldIfSurvives(EMPTY.(id := e.id, data := e.data + LF, event := e.event), e);
    ParseLinesAppend(EMPTY, UpToEvent(e, split), FieldIf("retry", e.retry));
    GoodLabels(e);
  }

  /** Cut in the data lines: the id is there, the event name and retry time are not, the data if late enough. */
  lemma CutInData(e: Event, split: bool, k: nat)
    requires Printable(e, split) && IdEnd(e) <= k < DataEnd(e, split)
    ensures k <= |Printed(e, split)| && Parse(Printed(e, split)[..k]).Some?
    ensures var r := Parse(Printed(e, split)[..k]).value;
            && r == Event(e.id, r.data, "", "", "")
            && (r.data == e.data <==> k - IdEnd(e) >= DataThreshold(Parts(e.data, split)))
  {
    var a, b := [Labelled("id", e.id)], DataLines(e.data, split);
    var j := k - IdEnd(e);
    LinesUpToData(e, split);
    SplitAtId(e, split);
    PartParses(e, split, a, b, FieldIf("event", e.event) + FieldIf("retry", e.retry) + FieldIf("", e.comment), k);
    DataLinesAreNamed(e, split);
    DataCut(EMPTY.(id := e.id), Parts(e.data, split), j);
    var r := ParseLines(EMPTY.(id := e.id), Fields(Unlines(b)[..j]));
    ArrivedTrimmed(e.id, r, j >= DataThreshold(Parts(e.data, split)), e.data);
  }

  lemma ArrivedTrimmed(id: string, r: Event, full: bool, data: string)
    requires Arrived(EMPTY.(id := id), r, full, data + LF) && data != ""
    ensures TrimLF(r.data) == data <==> full
  {
    assert "" + (data + LF) == data + LF;
    assert TrimLF(data + LF) == data;
  }

  lemma EventPart(acc: Event, v: string, j: nat)
    requires OneLine(v) && acc.event == "" && j < |Unlines(FieldIf("event", v))|
    ensures ParseLines(acc, Fields(Unlines(FieldIf("event", v))[..j])) == acc.(event := Kept("event", v, j))
  {
    var l := Labelled("event", v);
    UnlinesOne(l);
    assert (l + LF)[..j] == l[..j];
    ParsePartLine(acc, l, j);
    EventLineCut(acc, v, j);
  }

  lemma RetryPart(acc: Event, v: string, j: nat)
    requires OneLine(v) && acc.retry == "" && j < |Unlines(FieldIf("retry", v))|
    ensures ParseLines(acc, Fields(Unlines(FieldIf("retry", v))[..j])) == acc.(retry := Kept("retry", v, j))
  {
    var l := Labelled("retry", v);
    UnlinesOne(l);
    assert (l + LF)[..j] == l[..j];
    ParsePartLine(acc, l, j);
    RetryLineCut(acc, v, j);
  }

  lemma CutInEvent(e: Event, split: bool, k: nat)
    requires Printable(e, split) && DataEnd(e, split) <= k < EventEnd(e, split)
    ensures k <= |Printed(e, split)|
    ensures Parse(Printed(e, split)[..k]) ==
            Some(Event(e.id, e.data, Kept("event", e.event, k - DataEnd(e, split)), "", ""))
  {
    var c := FieldIf("retry", e.retry) + FieldIf("", e.comment);
    LinesUpToData(e, split);
    SplitAtData(e, split);
    PartParses(e, split, UpToData(e, split), FieldIf("event", e.event), c, k);
    var acc, j := EMPTY.(id := e.id, data := e.data + LF), k - DataEnd(e, split);
    EventPart(acc, e.event, j);
    var r := acc.(event := Kept("event", e.event, j));
    FromPartIs(UpToData(e, split), Unlines(FieldIf("event", e.event))[..j], acc, r, e.data);
  }

  lemma CutInRetry(e: Event, split: bool, k: nat)
    requires Printable(e, split) && EventEnd(e, split) <= k < RetryEnd(e, split)
    ensures k <= |Printed(e, split)|
    ensures Parse(Printed(e, split)[..k]) ==
            Some(Event(e.id, e.data, e.event, Kept("retry", e.retry, k - EventEnd(e, split)), ""))
  {
    LinesUpToEvent(e, split);
    SplitAtEvent(e, split);
    PartParses(e, split, UpToEvent(e, split), FieldIf("retry", e.retry), FieldIf("", e.comment), k);
    var acc, j := EMPTY.(id := e.id, data := e.data + LF, event := e.event), k - EventEnd(e, split);
    RetryPart(acc, e.retry, j);
    var r := acc.(retry := Kept("retry", e.retry, j));
    FromPartIs(UpToEvent(e, split), Unlines(FieldIf("retry", e.retry))[..j], acc, r, e.data);
  }

  /** No part of a comment line changes anything. */
  lemma CommentCut(acc: Event, v: string, k: nat)
    requires OneLine(v) && k <= |Unlines(FieldIf("", v))|
    ensures ParseLines(acc, Fields(Unlines(FieldIf("", v))[..k])) == acc
  {
    var l := Labelled("", v);
    UnlinesOne(l);
    if v != "" && k <= |l| {
      assert (l + LF)[..k] == l[..k];
      ParsePartLine(acc, l, k);
      if k > 0 {
        FirstChar(l, k);
      }
    } else if v != "" {
      assert (l + LF)[..k] == Unlines([l]) + "";
      FieldsAfterLines([l], "");
      ParseComment(acc, v);
      ParseLinesOne(acc, l);
      assert [l] + [] == [l];
    }
  }

  lemma PartOfLast(e: Event, split: bool, a: seq<string>, b: seq<string>, k: nat)
    requires Lines(e, split) == a + b && GoodLines(a) && |Unlines(a)| <= k < |Printed(e, split)|
    ensures k - |Unlines(a)| <= |Unlines(b)|
    ensures Parse(Printed(e, split)[..k]) == Some(FromPart(a, Unlines(b)[..k - |Unlines(a)|]))
  {
    UnlinesAppend(a, b);
    assert a + b + [] == a + b;
    PartParses(e, split, a, b, [], k);
  }

  lemma CutInComment(e: Event, split: bool, k: nat)
    requires Printable(e, split) && RetryEnd(e, split) <= k < |Printed(e, split)|
    ensures Parse(Printed(e, split)[..k]) == Some(Received(e))
  {
    LinesUpToRetry(e, split);
    SplitAtRetry(e, split);
    PartOfLast(e, split, UpToRetry(e, split), FieldIf("", e.comment), k);
    var acc, j := Received(e).(data := e.data + LF), k - RetryEnd(e, split);
    CommentCut(acc, e.comment, j);
    FromPartIs(UpToRetry(e, split), Unlines(FieldIf("", e.comment))[..j], acc, acc, e.data);
  }

  // ---------- From where on a cut does not show ----------

  lemma {:induction false} LastPart(s: string)
    requires s != ""
    ensures SplitLF(s)[|SplitLF(s)| - 1] == "" <==> s[|s| - 1] == '\n'
  {
    if |s| > 1 {
      LastPart(s[1..]);
    } else {
      assert s[1..] == "";
    }
  }

  /**
   The end of the last line that is not the comment; if that is a data line for the empty
   text after a final newline, the end of its name.
   */
  function Threshold(e: Event, split: bool): int
    requires e.data != ""
  {
    RetryEnd(e, split) - 1 - if e.event == "" && e.retry == "" && e.data[|e.data| - 1] == '\n' then 2 else 0
  }

  lemma ThresholdOfData(e: Event, split: bool)
    requires Printable(e, split)
    ensures DataThreshold(Parts(e.data, split)) ==
            DataEnd(e, split) - IdEnd(e) - 1 - if e.data[|e.data| - 1] == '\n' then 2 else 0
    ensures DataThreshold(Parts(e.data, split)) > 0
  {
    DataLinesAreNamed(e, split);
    UnlinesOfNamed(Parts(e.data, split));
    if split {
      LastPart(e.data);
    }
  }

  lemma FieldLength(name: string, value: string)
    ensures |Unlines(FieldIf(name, value))| == if value == "" then 0 else |name| + |value| + 3
  {
    UnlinesOne(Labelled(name, value));
  }

  /** An event that breaks off is received whole exactly from the threshold on, in either mode. */
  lemma CutExactly(e: Event, split: bool, k: nat)
    requires Printable(e, split) && 0 < k < |Printed(e, split)|
    ensures Parse(Printed(e, split)[..k]) == Some(Received(e)) <==> k >= Threshold(e, split)
  {
    if k < DataEnd(e, split) {
      ExactUpToData(e, split, k);
    } else if k < RetryEnd(e, split) {
      ExactAfterData(e, split, k);
    } else {
      CutInComment(e, split, k);
    }
  }

  lemma ExactUpToData(e: Event, split: bool, k: nat)
    requires Printable(e, split) && 0 < k < DataEnd(e, split)
    ensures k <= |Printed(e, split)|
    ensures Parse(Printed(e, split)[..k]) == Some(Received(e)) <==> k >= Threshold(e, split)
  {
    ThresholdOfData(e, split);
    FieldLength("event", e.event);
    FieldLength("retry", e.retry);
    if k < IdEnd(e) {
      CutInId(e, split, k);
    } else {
      CutInData(e, split, k);
    }
  }

  lemma ExactAfterData(e: Event, split: bool, k: nat)
    requires Printable(e, split) && DataEnd(e, split) <= k < RetryEnd(e, split)
    ensures k <= |Printed(e, split)|
    ensures Parse(Printed(e, split)[..k]) == Some(Received(e)) <==> k >= Threshold(e, split)
  {
    FieldLength("event", e.event);
    FieldLength("retry", e.retry);
    if k < EventEnd(e, split) {
      CutInEvent(e, split, k);
    } else {
      CutInRetry(e, split, k);
    }
  }

  /** The id that arrives is the part of it that was sent. */
  lemma CutId(e: Event, split: bool, k: nat)
    requires Printable(e, split) && 0 < k < |Printed(e, split)|
    ensures Parse(Printed(e, split)[..k]).Some? && Parse(Printed(e, split)[..k]).value.id == Kept("id", e.id, k)
  {
    if k < IdEnd(e) {
      CutInId(e, split, k);
    } else if k < DataEnd(e, split) {
      CutInData(e, split, k);
    } else if k < EventEnd(e, split) {
      CutInEvent(e, split, k);
    } else if k < RetryEnd(e, split) {
      CutInRetry(e, split, k);
    } else {
      CutInComment(e, split, k);
    }
  }

  /**
   The reader hands out what is left at the end of the stream as a block, so a stream cut
   inside an event delivers one block more than the complete events; cut between events,
   it delivers exactly those.
   */
  lemma CutStream(events: seq<Event>, e: Event, split: bool, k: nat)
    requires forall x | x in events :: Printable(x, split)
    requires Printable(e, split) && k < |Printed(e, split)|
    ensures ParseAll(Blocks(Wire(events, split) + Printed(e, split)[..k])) ==
            AllReceived(events) + (if k == 0 then [] else [Parse(Printed(e, split)[..k])])
  {
    var part := Printed(e, split)[..k];
    RoundTrip(events, split, part);
    if k > 0 {
      PartHasNoBoundary(e, split, k);
      OneBlock(part);
    }
  }

  lemma PartHasNoBoundary(e: Event, split: bool, k: nat)
    requires Printable(e, split) && k < |Printed(e, split)|
    ensures DoubleNewline(Printed(e, split)[..k]).0 < 0
  {
    LinesSurvive(e, split);
    UnlinesShape(Lines(e, split));
    NoBoundaryInside(Unlines(Lines(e, split)), k);
  }

  lemma NoBoundaryInside(u: string, k: nat)
    requires k <= |u| && NoCR(u) && forall i | 0 <= i < |u| - 1 :: !(u[i] == '\n' && u[i + 1] == '\n')
    ensures DoubleNewline((u + LF)[..k]).0 < 0
  {
    var part := (u + LF)[..k];
    assert part == u[..k];
    OnlyNewlinesSeparate(part);
    var i := IndexOf(part, "\n\n");
    if i >= 0 {
      OccursChar(part, "\n\n", i, 0);
      OccursChar(part, "\n\n", i, 1);
    }
  }

  // ---------- Every beginning of the data can arrive ----------

  /** `parts` with one more character of data. */
  function Extended(parts: seq<string>, c: char): seq<string>
    requires parts != []
  {
    var last := |parts| - 1;
    if c == '\n' then parts + [""] else parts[..last] + [parts[last] + [c]]
  }

  lemma ExtendedTail(x: string, rest: seq<string>, c: char)
    requires rest != []
    ensures Extended([x] + rest, c) == [x] + Extended(rest, c)
  {
  }

  lemma ExtendedHead(x: char, rest: seq<string>, c: char)
    requires rest != []
    ensures Extended(rest, c) != []
    ensures Extended([[x] + rest[0]] + rest[1..], c) == [[x] + Extended(rest, c)[0]] + Extended(rest, c)[1..]
  {
    if |rest| == 1 && c != '\n' {
      assert [x] + rest[0] + [c] == [x] + (rest[0] + [c]);
    }
  }

  lemma {:induction false} SplitAppend(s: string, c: char)
    ensures SplitLF(s + [c]) == Extended(SplitLF(s), c)
  {
    if s == "" {
      assert ("" + [c])[1..] == "" && ("" + [c])[0] == c;
      assert [c] + "" == "" + [c] && SplitLF("") == [""];
    } else {
      assert (s + [c])[1..] == s[1..] + [c] && (s + [c])[0] == s[0];
      SplitAppend(s[1..], c);
      if s[0] == '\n' {
        ExtendedTail("", SplitLF(s[1..]), c);
      } else {
        ExtendedHead(s[0], SplitLF(s[1..]), c);
      }
    }
  }

  /** The data lines without the last newline. */
  function DataText(data: string, split: bool): string {
    TrimLF(Unlines(WithName("data", Parts(data, split))))
  }

  lemma DataTextShape(parts: seq<string>, v: string)
    ensures Unlines(WithName("data", parts + [v])) == Unlines(WithName("data", parts)) + Labelled("data", v) + LF
    ensures TrimLF(Unlines(WithName("data", parts + [v]))) == Unlines(WithName("data", parts)) + Labelled("data", v)
  {
    var l := Labelled("data", v);
    assert WithName("data", parts + [v]) == WithName("data", parts) + [l];
    UnlinesAppend(WithName("data", parts), [l]);
    UnlinesOne(l);
    Regroup(Unlines(WithName("data", parts)), l, LF);
  }

  /** One more character of data only adds to the text. */
  lemma DataTextGrows(data: string, c: char, split: bool)
    ensures DataText(data, split) <= DataText(data + [c], split)
  {
    if split {
      var parts := SplitLF(data);
      var init, last := parts[..|parts| - 1], parts[|parts| - 1];
      assert parts == init + [last];
      SplitAppend(data, c);
      DataTextShape(init, last);
      if c == '\n' {
        DataTextShape(parts, "");
      } else {
        DataTextShape(init, last + [c]);
      }
    } else {
      DataTextShape([], data);
      DataTextShape([], data + [c]);
      assert [] + [data] == [data] && [] + [data + [c]] == [data + [c]];
    }
  }

  lemma {:induction false} DataTextIsMonotone(d: string, data: string, split: bool)
    requires d <= data
    ensures DataText(d, split) <= DataText(data, split)
    decreases |data|
  {
    if |d| < |data| {
      var init := data[..|data| - 1];
      assert data == init + [data[|data| - 1]];
      DataTextIsMonotone(d, init, split);
      DataTextGrows(init, data[|data| - 1], split);
    } else {
      assert d == data;
    }
  }

  /**
   Cut inside the data, the event is taken for complete: in either mode, every non-empty
   beginning of the data can arrive as the data of a whole event under the same id.
   */
  lemma TruncatedDataIsAccepted(e: Event, split: bool, d: string) returns (k: nat)
    requires Printable(e, split) && d != "" && d <= e.data
    ensures k < |Printed(e, split)| && Parse(Printed(e, split)[..k]) == Some(Event(e.id, d, "", "", ""))
  {
    var short := Event(e.id, d, "", "", "");
    assert Printable(short, split);
    var cut := Unlines([Labelled("id", e.id)]) + DataText(d, split);
    k := |cut|;
    DataTextIsMonotone(d, e.data, split);
    CutIsPrefix(e, split, d);
    BlockParses(short, split);
    CutIsBlock(short, split);
  }

  lemma PrefixOfMiddle(a: string, b: string, c: string, d: string)
    requires d <= b
    ensures (a + (b + c))[..|a + d|] == a + d
  {
  }

  lemma CutIsPrefix(e: Event, split: bool, d: string)
    requires Printable(e, split) && DataText(d, split) <= DataText(e.data, split)
    ensures var cut := Unlines([Labelled("id", e.id)]) + DataText(d, split);
            |cut| < |Printed(e, split)| && Printed(e, split)[..|cut|] == cut
  {
    var a, b := [Labelled("id", e.id)], DataLines(e.data, split);
    var c := FieldIf("event", e.event) + FieldIf("retry", e.retry) + FieldIf("", e.comment);
    SplitAtId(e, split);
    PrintedIsThree(e, split, a, b, c);
    DataLinesAreNamed(e, split);
    PrefixOfMiddle(Unlines(a), Unlines(b), Unlines(c) + LF, DataText(d, split));
  }

  lemma CutIsBlock(e: Event, split: bool)
    requires Printable(e, split) && e.event == e.retry == e.comment == ""
    ensures TrimLF(Unlines(Lines(e, split))) == Unlines([Labelled("id", e.id)]) + DataText(e.data, split)
  {
    var a, b := [Labelled("id", e.id)], DataLines(e.data, split);
    assert Lines(e, split) == a + b;
    UnlinesAppend(a, b);
    DataLinesAreNamed(e, split);
    UnlinesOfNamed(Parts(e.data, split));
    DataSurvives(EMPTY, e, split);
    UnlinesShape(b);
  }

  // ---------- What a resuming client makes of a cut ----------

  /** What the client hands on when event `n` breaks off after `k` characters, and the id it then has. */
  function AfterCut(history: seq<Event>, n: nat, split: bool, k: nat): (seq<Event>, string)
    requires n < |history| && k <= |Printed(history[n], split)|
  {
    Looped(LastId(history, n), Blocks(Printed(history[n], split)[..k]))
  }

  /** The stream resumed after the cut delivers exactly what was still to come, event `n` first. */
  ghost predicate Harmless(history: seq<Event>, n: nat, split: bool, k: nat)
    requires n < |history| && k <= |Printed(history[n], split)|
  {
    var (handed, last) := AfterCut(history, n, split, k);
    handed + AsReceived(Replayed(LastOf(history, MAX_LOG), last)) == AsReceived(history[n..])
  }

  lemma PartIsOneBlock(e: Event, split: bool, k: nat)
    requires Printable(e, split) && 0 < k < |Printed(e, split)|
    ensures Blocks(Printed(e, split)[..k]) == [Printed(e, split)[..k]]
  {
    PartHasNoBoundary(e, split, k);
    OneBlock(Printed(e, split)[..k]);
  }

  lemma TurnAfterCut(history: seq<Event>, n: nat, split: bool, k: nat)
    requires n < |history| && Printable(history[n], split) && 0 < k < |Printed(history[n], split)|
    ensures var (e, last) := Turn(LastId(history, n), Printed(history[n], split)[..k]);
            AfterCut(history, n, split, k).0 == Listed(e) && AfterCut(history, n, split, k).1 == last
  {
    var part := Printed(history[n], split)[..k];
    PartIsOneBlock(history[n], split, k);
    LoopedCons(LastId(history, n), part, []);
    assert [part] + [] == [part];
  }

  /** The id that the client resumes with: the part of the event's id that arrived, or else the one before. */
  lemma ResumesWith(history: seq<Event>, n: nat, split: bool, k: nat)
    requires n < |history| && Printable(history[n], split) && 0 < k < |Printed(history[n], split)|
    ensures AfterCut(history, n, split, k).1 ==
            if Kept("id", history[n].id, k) == "" then LastId(history, n) else Kept("id", history[n].id, k)
  {
    TurnAfterCut(history, n, split, k);
    CutId(history[n], split, k);
  }

  lemma FirstReceived(events: seq<Event>)
    requires events != []
    ensures AsReceived(events) == [Received(events[0])] + AsReceived(events[1..])
  {
  }

  /** What arrived of the event says nothing at all, or all there is to say. */
  predicate CleanCut(e: Event, split: bool, lastId: string, k: nat)
    requires e.data != ""
  {
    k == 0 || k >= Threshold(e, split) || (k <= 4 && lastId == "")
  }

  /**
   A cut does no harm exactly when all of the event has arrived up to its comment and the
   log reaches back to the event after it, or nothing has, or a few characters that say
   nothing to a client without any id yet, and the log reaches back to the event itself.
   */
  lemma HarmlessExactly(history: seq<Event>, n: nat, split: bool, k: nat)
    requires Increasing(history) && n < |history|
    requires Printable(history[n], split) && k < |Printed(history[n], split)|
    ensures Harmless(history, n, split, k) <==>
            if k > 0 && k >= Threshold(history[n], split) then |history| - n - 1 <= MAX_LOG
            else CleanCut(history[n], split, LastId(history, n), k) && |history| - n <= MAX_LOG
  {
    if k == 0 {
      CutBefore(history, n, split);
      NothingArrived(history, n, split, 0);
    } else if k >= Threshold(history[n], split) {
      CutBehind(history, n, split, k);
      AllArrived(history, n, split, k);
    } else if k <= 4 && n == 0 {
      CutInLabel(history, split, k);
      NothingArrived(history, n, split, k);
    } else {
      SomethingElseArrived(history, n, split, k);
    }
  }

  lemma CutBehind(history: seq<Event>, n: nat, split: bool, k: nat)
    requires n < |history| && Printable(history[n], split) && history[n].id != ""
    requires 0 < k < |Printed(history[n], split)| && k >= Threshold(history[n], split)
    ensures AfterCut(history, n, split, k).0 == [Received(history[n])]
    ensures AfterCut(history, n, split, k).1 == history[n].id
  {
    CutExactly(history[n], split, k);
    TurnAfterCut(history, n, split, k);
  }

  lemma CutInLabel(history: seq<Event>, split: bool, k: nat)
    requires history != [] && Printable(history[0], split) && 0 < k <= 4
    ensures k < |Printed(history[0], split)| && AfterCut(history, 0, split, k) == ([], "")
  {
    CutInId(history[0], split, k);
    PrintedIsLonger(history[0], split);
    TurnAfterCut(history, 0, split, k);
  }

  lemma PrintedIsLonger(e: Event, split: bool)
    requires Printable(e, split)
    ensures IdEnd(e) <= DataEnd(e, split) < |Printed(e, split)|
  {
    SplitAtId(e, split);
    var a, b := [Labelled("id", e.id)], DataLines(e.data, split);
    PrintedIsThree(e, split, a, b,
      FieldIf("event", e.event) + FieldIf("retry", e.retry) + FieldIf("", e.comment));
    LinesUpToData(e, split);
    UnlinesAppend(a, b);
  }

  /** Where a replay after the first `p` events starts: behind them, or with the oldest event logged. */
  function ReplayStart(history: seq<Event>, p: nat): (from: nat)
    requires p <= |history|
    ensures p <= from <= |history|
  {
    if |history| - p <= MAX_LOG then p else |history| - MAX_LOG
  }

  lemma ReplayOfWindow(history: seq<Event>, p: nat)
    requires Increasing(history) && p <= |history|
    ensures Replayed(LastOf(history, MAX_LOG), LastId(history, p)) == history[ReplayStart(history, p)..]
  {
    var from := if |history| <= MAX_LOG then 0 else |history| - MAX_LOG;
    assert LastOf(history, MAX_LOG) == history[from..];
    ReplayStretch(history, p, from);
  }

  /** What a replay after the first `p` events sends, compared with what is still to come. */
  lemma ReplayReceived(history: seq<Event>, p: nat)
    requires Increasing(history) && p <= |history|
    ensures AsReceived(Replayed(LastOf(history, MAX_LOG), LastId(history, p))) == AsReceived(history[p..]) <==>
            |history| - p <= MAX_LOG
  {
    ReplayOfWindow(history, p);
    var replayed := Replayed(LastOf(history, MAX_LOG), LastId(history, p));
    assert |AsReceived(replayed)| == |replayed| && |AsReceived(history[p..])| == |history| - p;
  }

  lemma NothingArrived(history: seq<Event>, n: nat, split: bool, k: nat)
    requires Increasing(history) && n < |history| && k <= |Printed(history[n], split)|
    requires AfterCut(history, n, split, k) == ([], LastId(history, n))
    ensures Harmless(history, n, split, k) <==> |history| - n <= MAX_LOG
  {
    ReplayReceived(history, n);
    var replayed := AsReceived(Replayed(LastOf(history, MAX_LOG), LastId(history, n)));
    assert [] + replayed == replayed;
  }

  lemma CutBefore(history: seq<Event>, n: nat, split: bool)
    requires n < |history|
    ensures AfterCut(history, n, split, 0) == ([], LastId(history, n))
  {
    assert Printed(history[n], split)[..0] == "";
  }

  lemma AllArrived(history: seq<Event>, n: nat, split: bool, k: nat)
    requires Increasing(history) && n < |history| && k <= |Printed(history[n], split)|
    requires AfterCut(history, n, split, k).0 == [Received(history[n])]
    requires AfterCut(history, n, split, k).1 == history[n].id
    ensures Harmless(history, n, split, k) <==> |history| - n - 1 <= MAX_LOG
  {
    ReplayReceived(history, n + 1);
    FirstReceived(history[n..]);
    assert history[n..][1..] == history[n + 1..];
    SameAfterFirst(
      Received(history[n]), AsReceived(Replayed(LastOf(history, MAX_LOG), history[n].id)),
      AsReceived(history[n + 1..]));
  }

  lemma SameAfterFirst(x: Event, a: seq<Event>, b: seq<Event>)
    ensures [x] + a == [x] + b <==> a == b
  {
    if [x] + a == [x] + b {
      assert a == ([x] + a)[1..] == b;
    }
  }

  lemma SomethingElseArrived(history: seq<Event>, n: nat, split: bool, k: nat)
    requires Increasing(history) && n < |history|
    requires Printable(history[n], split) && 0 < k < |Printed(history[n], split)|
    requires k < Threshold(history[n], split) && !(k <= 4 && n == 0)
    ensures AfterCut(history, n, split, k).0 != [] && AfterCut(history, n, split, k).0[0] != Received(history[n])
    ensures !Harmless(history, n, split, k)
  {
    var e := history[n];
    CutExactly(e, split, k);
    CutId(e, split, k);
    TurnAfterCut(history, n, split, k);
    FirstReceived(history[n..]);
    if k <= 4 {
      CutInId(e, split, k);
      assert Received(e).data != "";
    }
    var (handed, last) := AfterCut(history, n, split, k);
    var replayed := AsReceived(Replayed(LastOf(history, MAX_LOG), last));
    assert (handed + replayed)[0] == handed[0] != AsReceived(history[n..])[0];
  }

  /** Cut after the id, the rest of the event is lost for good: replay starts behind it, or later. */
  lemma CutLosesTheRest(history: seq<Event>, n: nat, split: bool, k: nat)
    requires Increasing(history) && n < |history|
    requires Printable(history[n], split) && IdEnd(history[n]) - 1 <= k < |Printed(history[n], split)|
    ensures AfterCut(history, n, split, k).1 == history[n].id
    ensures Replayed(LastOf(history, MAX_LOG), history[n].id) == history[ReplayStart(history, n + 1)..]
  {
    ResumesAfter(history, n, split, k);
    ReplayOfWindow(history, n + 1);
  }

  lemma ResumesAfter(history: seq<Event>, n: nat, split: bool, k: nat)
    requires n < |history| && Printable(history[n], split) && history[n].id != ""
    requires IdEnd(history[n]) - 1 <= k < |Printed(history[n], split)|
    ensures AfterCut(history, n, split, k).1 == history[n].id
  {
    ResumesWith(history, n, split, k);
    assert Kept("id", history[n].id, k) == history[n].id;
  }

  // ---------- Cut inside the id ----------

  lemma {:induction false} PrefixIsBefore(p: string, s: string)
    requires p < s
    ensures Before(p, s)
  {
    if p != "" {
      PrefixIsBefore(p[1..], s[1..]);
    }
  }

  lemma ReplayedStep(history: seq<Event>, p: string, from: nat)
    requires from < |history|
    ensures Replayed(history[from..], p) ==
            (if Before(p, history[from].id) then [history[from]] else []) + Replayed(history[from + 1..], p)
  {
    assert history[from..][1..] == history[from + 1..];
  }

  /** Replaying after an id that falls between two events sends everything from the second on. */
  lemma {:induction false} ReplayFrom(history: seq<Event>, p: string, m: nat, from: nat)
    requires Increasing(history) && from <= m <= |history|
    requires m < |history| ==> Before(p, history[m].id)
    requires from < m ==> !Before(p, history[m - 1].id)
    ensures Replayed(history[from..], p) == history[m..]
    decreases |history| - from
  {
    if from < |history| {
      ReplayedStep(history, p, from);
      if from < m {
        if from < m - 1 && Before(p, history[from].id) {
          BeforeIsTransitive(p, history[from].id, history[m - 1].id);
        }
        ReplayFrom(history, p, m, from + 1);
      } else {
        if m + 1 < |history| {
          BeforeIsTransitive(p, history[m].id, history[m + 1].id);
        }
        ReplayFrom(history, p, m + 1, from + 1);
        assert history[m..] == [history[m]] + history[m + 1..];
      }
    }
  }

  /** Where an id falls in the logged part of the history. */
  lemma {:induction false} FallsAt(history: seq<Event>, p: string, n: nat, from: nat) returns (m: nat)
    requires Increasing(history) && from <= n < |history| && Before(p, history[n].id)
    ensures from <= m <= n && Before(p, history[m].id) && (from < m ==> !Before(p, history[m - 1].id))
    decreases n
  {
    m := n;
    if from < n && Before(p, history[n - 1].id) {
      m := FallsAt(history, p, n - 1, from);
    }
  }

  /** What a replay after a proper prefix of an id sends. */
  lemma ReplayAfterPart(history: seq<Event>, p: string, n: nat, from: nat)
    requires Increasing(history) && n < |history| && from < |history| && p < history[n].id
    ensures exists m :: from <= m <= (if from <= n then n else from) && Replayed(history[from..], p) == history[m..]
    ensures Replayed(history[from..], p) == history[n..] <==>
            from == n || (from < n && !Before(p, history[n - 1].id))
  {
    PrefixIsBefore(p, history[n].id);
    if from > n {
      BeforeIsTransitive(p, history[n].id, history[from].id);
      ReplayFrom(history, p, from, from);
      assert |history[from..]| < |history[n..]|;
    } else {
      var m := FallsAt(history, p, n, from);
      ReplayFrom(history, p, m, from);
      assert |history[m..]| == |history| - m;
      if m < n - 1 {
        BeforeIsTransitive(p, history[m].id, history[n - 1].id);
      }
    }
  }

  /**
   Cut inside the id, the client resumes with part of it: the event is sent again if it is
   still logged, and so is everything logged before it whose id lies above that part. What
   is sent is exactly what was still to come if the event is the oldest one logged, or is
   logged and the one before does not lie above the part.
   */
  lemma CutInIdRepeats(history: seq<Event>, n: nat, split: bool, k: nat)
    requires Increasing(history) && n < |history|
    requires Printable(history[n], split) && 4 < k < IdEnd(history[n]) - 1
    ensures var from := if |history| <= MAX_LOG then 0 else |history| - MAX_LOG;
            var p := AfterCut(history, n, split, k).1;
            && p < history[n].id
            && (Replayed(LastOf(history, MAX_LOG), p) == history[n..] <==>
                from == n || (from < n && !Before(p, history[n - 1].id)))
            && exists m :: from <= m <= (if from <= n then n else from)
                           && Replayed(LastOf(history, MAX_LOG), p) == history[m..]
  {
    var from := if |history| <= MAX_LOG then 0 else |history| - MAX_LOG;
    CutInId(history[n], split, k);
    ResumesWith(history, n, split, k);
    assert LastOf(history, MAX_LOG) == history[from..];
    ReplayAfterPart(history, AfterCut(history, n, split, k).1, n, from);
  }
}
