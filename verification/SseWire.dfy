/**
 The event stream on the wire: the printing loop of `ServeHTTP` (transport/sse/http.go,
 transport/sse/utils.go), the block reader (transport/sse/event.go) and the block parser
 (transport/sse/client.go). Bytes are characters; base64, the time limit on events and
 the reader's buffer limit are off.
 */
module SseWire {
  import opened Options

  datatype Event = Event(id: string, data: string, event: string, retry: string, comment: string)

  const LF: string := "\n"

  predicate IsBreak(c: char) {
    c == '\n' || c == '\r'
  }

  /** No line break of either kind. */
  predicate OneLine(s: string) {
    forall i | 0 <= i < |s| :: !IsBreak(s[i])
  }

  predicate NoCR(s: string) {
    forall i | 0 <= i < |s| :: s[i] != '\r'
  }

  // ---------- Printing ----------

  /** A field line without its newline. */
  function Labelled(name: string, value: string): string {
    name + ": " + value
  }

  /** `writeData` */
  function Field(name: string, value: string): string {
    Labelled(name, value) + LF
  }

  /** `bytes.Split` at newlines: always at least one part. */
  function SplitLF(s: string): (parts: seq<string>)
    ensures parts != []
  {
    if s == "" then [""]
    else
      var rest := SplitLF(s[1..]);
      if s[0] == '\n' then [""] + rest else [[s[0]] + rest[0]] + rest[1..]
  }

  /** Concatenation of the parts, each ended by a newline. */
  function Unlines(parts: seq<string>): string {
    if parts == [] then "" else parts[0] + LF + Unlines(parts[1..])
  }

  function FieldIf(name: string, value: string): seq<string> {
    if value == "" then [] else [Labelled(name, value)]
  }

  function WithName(name: string, values: seq<string>): seq<string> {
    seq(|values|, i requires 0 <= i < |values| => Labelled(name, values[i]))
  }

  /** The lines written for the data of an event. */
  function DataLines(data: string, split: bool): seq<string> {
    if split then WithName("data", SplitLF(data))
    else if |data| > 0 && data[0] == ':' then [data]
    else [Labelled("data", data)]
  }

  function Lines(e: Event, split: bool): seq<string> {
    (if e.data == "" then []
     else [Labelled("id", e.id)] + DataLines(e.data, split) + FieldIf("event", e.event) + FieldIf("retry", e.retry))
    + FieldIf("", e.comment)
  }

  /** What one event adds to the stream: its lines and a blank one. */
  function Printed(e: Event, split: bool): string {
    Unlines(Lines(e, split)) + LF
  }

  /** The event that makes `ServeHTTP` end the stream. */
  predicate IsSentinel(e: Event) {
    e.data == "" && e.comment == "" && e.retry == "" && e.id == "" && e.event == ""
  }

  /** The whole stream written for a sequence of events. */
  function Wire(events: seq<Event>, split: bool): string {
    if events == [] || IsSentinel(events[0]) then "" else Printed(events[0], split) + Wire(events[1..], split)
  }

  lemma {:induction false} UnlinesAppend(a: seq<string>, b: seq<string>)
    ensures Unlines(a + b) == Unlines(a) + Unlines(b)
  {
    if a == [] {
      assert a + b == b;
    } else {
      assert (a + b)[0] == a[0] && (a + b)[1..] == a[1..] + b;
      UnlinesAppend(a[1..], b);
    }
  }

  lemma UnlinesOne(l: string)
    ensures Unlines([l]) == l + LF
  {
    assert [l][1..] == [];
  }

  /** The data lines of one event, as `ServeHTTP` writes them. */
  method WriteData(data: string, split: bool) returns (out: string)
    requires data != ""
    ensures out == Unlines(DataLines(data, split))
  {
    if split {
      var sd := SplitLF(data);
      ghost var lines := WithName("data", sd);
      out := "";
      for i := 0 to |sd|
        invariant out == Unlines(lines[..i])
      {
        assert lines[..i + 1] == lines[..i] + [lines[i]];
        UnlinesAppend(lines[..i], [lines[i]]);
        UnlinesOne(lines[i]);
        out := out + Field("data", sd[i]);
      }
      assert lines[..|sd|] == lines;
    } else if data[0] == ':' {
      UnlinesOne(data);
      out := data + LF;
    } else {
      UnlinesOne(Labelled("data", data));
      out := Field("data", data);
    }
  }

  method WriteFieldIf(name: string, value: string) returns (out: string)
    ensures out == Unlines(FieldIf(name, value))
  {
    out := "";
    if |value| > 0 {
      UnlinesOne(Labelled(name, value));
      out := Field(name, value);
    }
  }

  /** The body of the loop of `ServeHTTP` for an event that is not the sentinel. */
  method WriteEvent(e: Event, split: bool) returns (out: string)
    ensures out == Printed(e, split)
  {
    out := "";
    ghost var head: seq<string> := [];
    if |e.data| > 0 {
      var data := WriteData(e.data, split);
      var event := WriteFieldIf("event", e.event);
      var retry := WriteFieldIf("retry", e.retry);
      out := Field("id", e.id) + data + event + retry;
      head := [Labelled("id", e.id)];
      UnlinesOne(head[0]);
      UnlinesAppend(head, DataLines(e.data, split));
      UnlinesAppend(head + DataLines(e.data, split), FieldIf("event", e.event));
      UnlinesAppend(head + DataLines(e.data, split) + FieldIf("event", e.event), FieldIf("retry", e.retry));
      head := head + DataLines(e.data, split) + FieldIf("event", e.event) + FieldIf("retry", e.retry);
    }
    var comment := WriteFieldIf("", e.comment);
    UnlinesAppend(head, FieldIf("", e.comment));
    out := out + comment + LF;
  }

  lemma ServedOne(out: string, events: seq<Event>, i: nat, split: bool)
    requires i < |events| && !IsSentinel(events[i])
    ensures out + Wire(events[i..], split) == out + Printed(events[i], split) + Wire(events[i + 1..], split)
  {
    assert events[i..][1..] == events[i + 1..];
    Regroup(out, Printed(events[i], split), Wire(events[i + 1..], split));
  }

  method Serve(events: seq<Event>, split: bool) returns (out: string)
    ensures out == Wire(events, split)
  {
    out := "";
    var i := 0;
    while i < |events|
      invariant 0 <= i <= |events|
      invariant out + Wire(events[i..], split) == Wire(events, split)
    {
      if IsSentinel(events[i]) {
        assert out + "" == out;
        return;
      }
      ServedOne(out, events, i, split);
      var text := WriteEvent(events[i], split);
      out := out + text;
      i := i + 1;
    }
    assert out + "" == out;
  }

  // ---------- Cutting the stream into blocks ----------

  predicate OccursAt(s: string, p: string, i: int) {
    0 <= i <= |s| - |p| && s[i..i + |p|] == p
  }

  /** `bytes.Index` */
  function IndexOf(s: string, p: string, from: nat := 0): (r: int)
    ensures r >= 0 ==> OccursAt(s, p, r)
    ensures forall i | from <= i :: OccursAt(s, p, i) ==> 0 <= r <= i
    ensures r < 0 ==> r == -1
    decreases |s| - from
  {
    if from > |s| - |p| then -1
    else if s[from..from + |p|] == p then from
    else IndexOf(s, p, from + 1)
  }

  function MinPos(a: int, b: int): int {
    if a < 0 then b else if b < 0 then a else if a > b then b else a
  }

  /** The first of the places where the five separators start, and the length of the separator there. */
  function Nearest(crCr: int, lfLf: int, crLfLf: int, lfCrLf: int, crLfCrLf: int): (int, nat) {
    var minPos := MinPos(crCr, MinPos(lfLf, MinPos(crLfLf, MinPos(lfCrLf, crLfCrLf))));
    (minPos, if minPos == crLfCrLf then 4 else if minPos == crLfLf || minPos == lfCrLf then 3 else 2)
  }

  /** `containsDoubleNewline`: where the first block ends, and how long the separator is. */
  function DoubleNewline(data: string): (int, nat) {
    Nearest(IndexOf(data, "\r\r"), IndexOf(data, "\n\n"), IndexOf(data, "\r\n\n"),
            IndexOf(data, "\n\r\n"), IndexOf(data, "\r\n\r\n"))
  }

  /**
   The boundary found is the first place where any of the five separators stands, and its
   length is that of the separator there.
   */
  lemma FirstSeparatorExactly(data: string, q: string, j: int)
    requires q == "\r\r" || q == "\n\n" || q == "\r\n\n" || q == "\n\r\n" || q == "\r\n\r\n"
    ensures OccursAt(data, q, j) ==>
              var (i, n) := DoubleNewline(data); 0 <= i <= j && (i == j ==> n == |q|)
    ensures DoubleNewline(data).0 >= 0 ==>
              var (i, n) := DoubleNewline(data);
              OccursAt(data, "\r\r", i) || OccursAt(data, "\n\n", i) || OccursAt(data, "\r\n\n", i)
              || OccursAt(data, "\n\r\n", i) || OccursAt(data, "\r\n\r\n", i)
  {
    if OccursAt(data, q, j) {
      var (i, n) := DoubleNewline(data);
      assert 0 <= i <= j;
      if i == j {
        LengthThere(data, q, j);
      }
    }
  }

  lemma LengthThere(data: string, q: string, i: int)
    requires q == "\r\r" || q == "\n\n" || q == "\r\n\n" || q == "\n\r\n" || q == "\r\n\r\n"
    requires OccursAt(data, q, i) && DoubleNewline(data).0 == i
    ensures DoubleNewline(data).1 == |q|
  {
    assert IndexOf(data, q) == i;
    forall p | OccursAt(data, p, i) && (p == "\r\n\n" || p == "\n\r\n" || p == "\r\n\r\n") ensures p == q {
      SameSeparator(data, p, q, i);
    }
  }

  /** At most one separator stands at a place. */
  lemma SameSeparator(data: string, p: string, q: string, i: int)
    requires p == "\r\n\n" || p == "\n\r\n" || p == "\r\n\r\n"
    requires q == "\r\r" || q == "\n\n" || q == "\r\n\n" || q == "\n\r\n" || q == "\r\n\r\n"
    requires OccursAt(data, p, i) && OccursAt(data, q, i)
    ensures p == q
  {
    OccursChar(data, p, i, 0);
    OccursChar(data, p, i, 1);
    OccursChar(data, p, i, 2);
    OccursChar(data, q, i, 0);
    OccursChar(data, q, i, 1);
    if |q| > 2 {
      OccursChar(data, q, i, 2);
    }
  }

  lemma SeparatorFits(data: string)
    requires DoubleNewline(data).0 >= 0
    ensures DoubleNewline(data).0 + DoubleNewline(data).1 <= |data|
  {
  }

  /** The blocks that the reader hands out, the unfinished one at the end of the stream included. */
  function Blocks(data: string): seq<string>
    decreases |data|
  {
    if data == "" then []
    else
      var (i, n) := DoubleNewline(data);
      if i < 0 then [data]
      else
        SeparatorFits(data);
        [data[..i]] + Blocks(data[i + n..])
  }

  // ---------- Parsing one block ----------

  /** Index of the first line break, or the length. */
  function LineEnd(s: string): (n: nat)
    ensures n <= |s| && OneLine(s[..n]) && (n < |s| ==> IsBreak(s[n]))
  {
    if s == "" || IsBreak(s[0]) then 0 else
      var n := 1 + LineEnd(s[1..]);
      assert s[..n] == [s[0]] + s[1..][..n - 1];
      n
  }

  /** `bytes.FieldsFunc` at line breaks: the non-empty lines. */
  function Fields(s: string): seq<string>
    decreases |s|
  {
    if s == "" then []
    else if IsBreak(s[0]) then Fields(s[1..])
    else
      var n := LineEnd(s);
      [s[..n]] + Fields(s[n..])
  }

  predicate HasPrefix(s: string, p: string) {
    |p| <= |s| && s[..|p|] == p
  }

  function TrimHeader(size: nat, line: string): string {
    if |line| < size then line
    else
      var d := line[size..];
      var d1 := if |d| > 0 && d[0] == ' ' then d[1..] else d;
      if |d1| > 0 && d1[|d1| - 1] == '\n' then d1[..|d1| - 1] else d1
  }

  const EMPTY := Event("", "", "", "", "")

  function ParseLine(acc: Event, line: string): Event {
    if HasPrefix(line, "id:") then acc.(id := TrimHeader(3, line))
    else if HasPrefix(line, "data:") then acc.(data := acc.data + (TrimHeader(5, line) + LF))
    else if line == "data" then acc.(data := acc.data + LF)
    else if HasPrefix(line, "event:") then acc.(event := TrimHeader(6, line))
    else if HasPrefix(line, "retry:") then acc.(retry := TrimHeader(6, line))
    else acc
  }

  function ParseLines(acc: Event, lines: seq<string>): Event
    decreases |lines|
  {
    if lines == [] then acc else ParseLines(ParseLine(acc, lines[0]), lines[1..])
  }

  /** `bytes.TrimSuffix` of one newline. */
  function TrimLF(s: string): string {
    if |s| > 0 && s[|s| - 1] == '\n' then s[..|s| - 1] else s
  }

  /** `processEvent`; an empty block is an error. */
  function Parse(block: string): Option<Event> {
    if block == "" then None
    else
      var e := ParseLines(EMPTY, Fields(block));
      Some(e.(data := TrimLF(e.data)))
  }

  method ProcessEvent(block: string) returns (r: Option<Event>)
    ensures r == Parse(block)
  {
    if |block| < 1 {
      return None;
    }
    var lines := Fields(block);
    var e := EMPTY;
    for i := 0 to |lines|
      invariant ParseLines(e, lines[i..]) == ParseLines(EMPTY, lines)
    {
      assert lines[i..][1..] == lines[i + 1..];
      e := ParseLine(e, lines[i]);
    }
    return Some(e.(data := TrimLF(e.data)));
  }

  // ---------- The first block of a printed stream ----------

  predicate GoodLine(l: string) {
    l != "" && OneLine(l)
  }

  predicate GoodLines(ls: seq<string>) {
    ls != [] && forall l | l in ls :: GoodLine(l)
  }

  /** Printed lines end in a newline, contain no carriage return and no blank line. */
  lemma {:induction false} UnlinesShape(ls: seq<string>)
    requires GoodLines(ls)
    ensures var u := Unlines(ls);
            && |u| > 0 && u[|u| - 1] == '\n' && u[0] != '\n' && NoCR(u)
            && forall i | 0 <= i < |u| - 1 :: !(u[i] == '\n' && u[i + 1] == '\n')
  {
    var u, l, rest := Unlines(ls), ls[0], ls[1..];
    assert l in ls;
    assert u == l + LF + Unlines(rest);
    if rest != [] {
      assert forall m | m in rest :: m in ls;
      UnlinesShape(rest);
    }
  }

  lemma OccursChar(s: string, p: string, i: int, k: nat)
    requires OccursAt(s, p, i) && k < |p|
    ensures s[i + k] == p[k]
  {
    assert s[i..i + |p|][k] == p[k];
  }

  /** Nothing but the blank line after the printed lines can end the block. */
  lemma BlockEnds(ls: seq<string>, tail: string)
    requires GoodLines(ls)
    ensures DoubleNewline(Unlines(ls) + LF + tail) == (|Unlines(ls)| - 1, 2)
  {
    UnlinesShape(ls);
    BlankLineEnds(Unlines(ls), tail);
  }

  lemma BlankLineEnds(u: string, tail: string)
    requires |u| > 0 && u[|u| - 1] == '\n' && NoCR(u)
    requires forall i | 0 <= i < |u| - 1 :: !(u[i] == '\n' && u[i + 1] == '\n')
    ensures DoubleNewline(u + LF + tail) == (|u| - 1, 2)
  {
    var text := u + LF + tail;
    var p := |u| - 1;
    FirstBlankLine(u, tail);
    NotBefore(text, p, "\r\r");
    NotBefore(text, p, "\r\n\n");
    NotBefore(text, p, "\n\r\n");
    NotBefore(text, p, "\r\n\r\n");
  }

  lemma FirstBlankLine(u: string, tail: string)
    requires |u| > 0 && u[|u| - 1] == '\n' && NoCR(u)
    requires forall i | 0 <= i < |u| - 1 :: !(u[i] == '\n' && u[i + 1] == '\n')
    ensures var text := u + LF + tail;
            IndexOf(text, "\n\n") == |u| - 1 && forall i | 0 <= i < |u| + 1 :: text[i] != '\r'
  {
    var text := u + LF + tail;
    var p := |u| - 1;
    assert text[p..p + 2] == [text[p], text[p + 1]] == "\n\n";
    assert OccursAt(text, "\n\n", p);
    var lfLf := IndexOf(text, "\n\n");
    OccursChar(text, "\n\n", lfLf, 0);
    OccursChar(text, "\n\n", lfLf, 1);
  }

  /** A pattern with a carriage return in its first two places occurs nowhere up to `p`. */
  lemma NotBefore(text: string, p: nat, pattern: string)
    requires p + 1 < |text| && forall i | 0 <= i < p + 2 :: text[i] != '\r'
    requires |pattern| >= 2 && (pattern[0] == '\r' || pattern[1] == '\r')
    ensures IndexOf(text, pattern) < 0 || p < IndexOf(text, pattern)
  {
    var i := IndexOf(text, pattern);
    if 0 <= i <= p {
      OccursChar(text, pattern, i, 0);
      OccursChar(text, pattern, i, 1);
    }
  }

  // ---------- Printing and then parsing ----------

  lemma {:induction false} LineEndIs(l: string, rest: string)
    requires OneLine(l) && (rest == "" || IsBreak(rest[0]))
    ensures LineEnd(l + rest) == |l|
  {
    if l == "" {
      assert l + rest == rest;
    } else {
      assert (l + rest)[1..] == l[1..] + rest;
      LineEndIs(l[1..], rest);
    }
  }

  /** The lines of a block are the lines that were printed. */
  lemma {:induction false} FieldsOfLines(ls: seq<string>)
    requires GoodLines(ls)
    ensures Fields(TrimLF(Unlines(ls))) == ls
  {
    UnlinesShape(ls);
    var l, rest := ls[0], ls[1..];
    assert l in ls;
    if rest == [] {
      assert TrimLF(Unlines(ls)) == l;
      assert l + "" == l;
      LineEndIs(l, "");
    } else {
      assert forall m | m in rest :: m in ls;
      UnlinesShape(rest);
      var more := TrimLF(Unlines(rest));
      assert TrimLF(Unlines(ls)) == l + (LF + more);
      LineEndIs(l, LF + more);
      assert (l + (LF + more))[|l|..] == LF + more;
      assert (LF + more)[1..] == more;
      FieldsOfLines(rest);
    }
  }

  lemma {:induction false} ParseLinesAppend(acc: Event, a: seq<string>, b: seq<string>)
    ensures ParseLines(acc, a + b) == ParseLines(ParseLines(acc, a), b)
    decreases |a|
  {
    if a == [] {
      assert a + b == b;
    } else {
      assert (a + b)[1..] == a[1..] + b;
      ParseLinesAppend(ParseLine(acc, a[0]), a[1..], b);
    }
  }

  lemma ParseLinesOne(acc: Event, l: string)
    ensures ParseLines(acc, [l]) == ParseLine(acc, l)
  {
    assert [l][1..] == [];
  }

  lemma TrimLabel(name: string, v: string)
    requires OneLine(v)
    ensures HasPrefix(Labelled(name, v), name + ":")
    ensures TrimHeader(|name| + 1, Labelled(name, v)) == v
  {
    var l := Labelled(name, v);
    assert l == name + ":" + (" " + v);
    assert l[|name| + 1..] == " " + v;
    assert (" " + v)[1..] == v;
  }

  lemma ParseId(acc: Event, v: string)
    requires OneLine(v)
    ensures ParseLine(acc, Labelled("id", v)) == acc.(id := v)
  {
    TrimLabel("id", v);
  }

  lemma ParseData(acc: Event, v: string)
    requires OneLine(v)
    ensures ParseLine(acc, Labelled("data", v)) == acc.(data := acc.data + (v + LF))
  {
    TrimLabel("data", v);
    assert Labelled("data", v)[..3][0] == 'd';
  }

  lemma ParseEvent(acc: Event, v: string)
    requires OneLine(v)
    ensures ParseLine(acc, Labelled("event", v)) == acc.(event := v)
  {
    TrimLabel("event", v);
    assert Labelled("event", v)[..3][0] == 'e' && Labelled("event", v)[..5][0] == 'e';
  }

  lemma ParseRetry(acc: Event, v: string)
    requires OneLine(v)
    ensures ParseLine(acc, Labelled("retry", v)) == acc.(retry := v)
  {
    TrimLabel("retry", v);
    var l := Labelled("retry", v);
    assert l[..3][0] == 'r' && l[..5][0] == 'r' && l[..6][0] == 'r';
  }

  lemma ParseComment(acc: Event, v: string)
    ensures ParseLine(acc, Labelled("", v)) == acc
  {
    var l := Labelled("", v);
    assert l[0] == ':';
    assert forall n | 0 < n <= |l| :: l[..n][0] == l[0];
  }

  /** A value may stand right after the colon; of spaces there, only the first goes. */
  lemma NoSpaceAfterColon(acc: Event, v: string)
    requires OneLine(v) && (v == "" || v[0] != ' ')
    ensures ParseLine(acc, "id:" + v) == acc.(id := v)
    ensures ParseLine(acc, "data:" + v) == acc.(data := acc.data + (v + LF))
    ensures ParseLine(acc, "event:" + v) == acc.(event := v)
    ensures ParseLine(acc, "retry:" + v) == acc.(retry := v)
  {
    var i, d, e, r := "id:" + v, "data:" + v, "event:" + v, "retry:" + v;
    assert i[..3] == "id:" && i[3..] == v;
    assert d[..5] == "data:" && d[5..] == v && d[..3][0] == 'd';
    assert e[..6] == "event:" && e[6..] == v && e[..3][0] == 'e' && e[..5][0] == 'e' && e[0] == 'e';
    assert r[..6] == "retry:" && r[6..] == v && r[..3][0] == 'r' && r[..5][0] == 'r' && r[0] == 'r';
  }

  // ---------- The round trip ----------

  /** What the receiver can get back from an event: everything but the comment. */
  function Received(e: Event): Event {
    e.(comment := "")
  }

  /** The events that the format can carry in the given mode. */
  predicate Printable(e: Event, split: bool) {
    && e.data != "" && NoCR(e.data) && (!split ==> OneLine(e.data) && e.data[0] != ':')
    && OneLine(e.id) && OneLine(e.event) && OneLine(e.retry) && OneLine(e.comment)
  }

  lemma {:induction false} SplitIsOneLine(s: string)
    requires NoCR(s)
    ensures forall p | p in SplitLF(s) :: OneLine(p)
  {
    if s != "" {
      SplitIsOneLine(s[1..]);
      var rest := SplitLF(s[1..]);
      assert rest[0] in rest && forall p | p in rest[1..] :: p in rest;
    }
  }

  lemma {:induction false} JoinSplit(s: string)
    ensures Unlines(SplitLF(s)) == s + LF
  {
    if s == "" {
      UnlinesOne("");
    } else {
      JoinSplit(s[1..]);
      HeadFirst(s, LF);
      var rest := SplitLF(s[1..]);
      if s[0] == '\n' {
        UnlinesCons("", rest);
        assert "" + LF == [s[0]];
      } else {
        UnlinesFirstChar(s[0], rest);
      }
    }
  }

  lemma HeadFirst(s: string, tail: string)
    requires s != ""
    ensures s + tail == [s[0]] + (s[1..] + tail)
  {
  }

  lemma UnlinesCons(l: string, rest: seq<string>)
    ensures Unlines([l] + rest) == l + LF + Unlines(rest)
  {
    assert ([l] + rest)[1..] == rest;
  }

  lemma UnlinesFirstChar(c: char, parts: seq<string>)
    requires parts != []
    ensures Unlines([[c] + parts[0]] + parts[1..]) == [c] + Unlines(parts)
  {
    UnlinesCons([c] + parts[0], parts[1..]);
  }

  lemma Regroup(a: string, b: string, c: string)
    ensures a + b + c == a + (b + c)
  {
  }

  lemma {:induction false} ParseDataLines(acc: Event, parts: seq<string>)
    requires forall p | p in parts :: OneLine(p)
    ensures ParseLines(acc, WithName("data", parts)) == acc.(data := acc.data + Unlines(parts))
    decreases |parts|
  {
    var lines := WithName("data", parts);
    if parts != [] {
      assert parts[0] in parts && forall p | p in parts[1..] :: p in parts;
      assert lines[1..] == WithName("data", parts[1..]);
      ParseData(acc, parts[0]);
      ParseDataLines(ParseLine(acc, lines[0]), parts[1..]);
      Regroup(acc.data, parts[0] + LF, Unlines(parts[1..]));
    } else {
      assert acc.data + "" == acc.data;
    }
  }

  lemma NamedLinesAreGood(parts: seq<string>)
    requires parts != [] && forall p | p in parts :: OneLine(p)
    ensures GoodLines(WithName("data", parts))
  {
    var lines := WithName("data", parts);
    forall l | l in lines ensures GoodLine(l) {
      var i :| 0 <= i < |lines| && lines[i] == l;
      assert parts[i] in parts;
    }
  }

  /** The data lines carry the data, with the newline that the parser trims at the end. */
  lemma DataSurvives(acc: Event, e: Event, split: bool)
    requires Printable(e, split)
    ensures ParseLines(acc, DataLines(e.data, split)) == acc.(data := acc.data + (e.data + LF))
    ensures GoodLines(DataLines(e.data, split))
  {
    if split {
      SplitIsOneLine(e.data);
      JoinSplit(e.data);
      ParseDataLines(acc, SplitLF(e.data));
      NamedLinesAreGood(SplitLF(e.data));
    } else {
      ParseData(acc, e.data);
      ParseLinesOne(acc, Labelled("data", e.data));
    }
  }

  lemma FieldIfSurvives(acc: Event, e: Event)
    requires OneLine(e.event) && OneLine(e.retry) && OneLine(e.comment)
    ensures acc.event == "" ==> ParseLines(acc, FieldIf("event", e.event)) == acc.(event := e.event)
    ensures acc.retry == "" ==> ParseLines(acc, FieldIf("retry", e.retry)) == acc.(retry := e.retry)
    ensures ParseLines(acc, FieldIf("", e.comment)) == acc
  {
    ParseEvent(acc, e.event);
    ParseRetry(acc, e.retry);
    ParseComment(acc, e.comment);
    ParseLinesOne(acc, Labelled("event", e.event));
    ParseLinesOne(acc, Labelled("retry", e.retry));
    ParseLinesOne(acc, Labelled("", e.comment));
  }

  lemma LinesSurvive(e: Event, split: bool)
    requires Printable(e, split)
    ensures GoodLines(Lines(e, split))
    ensures ParseLines(EMPTY, Lines(e, split)) == e.(data := e.data + LF, comment := "")
  {
    var a, b := [Labelled("id", e.id)], DataLines(e.data, split);
    var c, d, f := FieldIf("event", e.event), FieldIf("retry", e.retry), FieldIf("", e.comment);
    var e1 := EMPTY.(id := e.id);
    var e2 := e1.(data := e.data + LF);
    var e3 := e2.(event := e.event);
    ParseId(EMPTY, e.id);
    ParseLinesOne(EMPTY, Labelled("id", e.id));
    DataSurvives(e1, e, split);
    FieldIfSurvives(e2, e);
    FieldIfSurvives(e3, e);
    FieldIfSurvives(e3.(retry := e.retry), e);
    assert "" + (e.data + LF) == e.data + LF;
    ParseLinesAppend(EMPTY, a, b);
    ParseLinesAppend(EMPTY, a + b, c);
    ParseLinesAppend(EMPTY, a + b + c, d);
    ParseLinesAppend(EMPTY, a + b + c + d, f);
    GoodLabels(e);
  }

  lemma GoodLabels(e: Event)
    requires OneLine(e.id) && OneLine(e.event) && OneLine(e.retry) && OneLine(e.comment)
    ensures GoodLine(Labelled("id", e.id))
    ensures GoodLine(Labelled("event", e.event)) && GoodLine(Labelled("retry", e.retry))
    ensures GoodLine(Labelled("", e.comment))
  {
  }

  function ParseAll(blocks: seq<string>): seq<Option<Event>> {
    seq(|blocks|, i requires 0 <= i < |blocks| => Parse(blocks[i]))
  }

  function AllReceived(events: seq<Event>): seq<Option<Event>> {
    seq(|events|, i requires 0 <= i < |events| => Some(Received(events[i])))
  }

  lemma ParseAllCons(block: string, blocks: seq<string>)
    ensures ParseAll([block] + blocks) == [Parse(block)] + ParseAll(blocks)
  {
  }

  lemma AllReceivedCons(events: seq<Event>, tail: seq<Option<Event>>)
    requires events != []
    ensures AllReceived(events) + tail == [Some(Received(events[0]))] + (AllReceived(events[1..]) + tail)
  {
  }

  lemma WireCons(events: seq<Event>, split: bool, tail: string)
    requires events != [] && !IsSentinel(events[0])
    ensures Wire(events, split) + tail == Printed(events[0], split) + (Wire(events[1..], split) + tail)
  {
  }

  /** Printed lines are cut off as one block whatever follows them. */
  lemma LinesAreOneBlock(ls: seq<string>, tail: string)
    requires GoodLines(ls)
    ensures Blocks(Unlines(ls) + LF + tail) == [TrimLF(Unlines(ls))] + Blocks(tail)
  {
    UnlinesShape(ls);
    BlockEnds(ls, tail);
    FirstBlockIs(Unlines(ls), tail);
  }

  lemma FirstBlockIs(u: string, tail: string)
    requires u != "" && u[|u| - 1] == '\n' && DoubleNewline(u + LF + tail) == (|u| - 1, 2)
    ensures Blocks(u + LF + tail) == [TrimLF(u)] + Blocks(tail)
  {
    var text := u + LF + tail;
    assert text[..|u| - 1] == u[..|u| - 1];
    assert text[|u| + 1..] == tail;
  }

  lemma BlockParses(e: Event, split: bool)
    requires Printable(e, split)
    ensures Parse(TrimLF(Unlines(Lines(e, split)))) == Some(Received(e))
  {
    LinesSurvive(e, split);
    FieldsOfLines(Lines(e, split));
    assert Fields("") == [];
    assert TrimLF(e.data + LF) == e.data;
  }

  /** A printed event is cut off as one block whatever follows it, and that block parses to the event. */
  lemma OneEventSurvives(e: Event, split: bool, tail: string)
    requires Printable(e, split)
    ensures var block := TrimLF(Unlines(Lines(e, split)));
            && Blocks(Printed(e, split) + tail) == [block] + Blocks(tail)
            && Parse(block) == Some(Received(e))
  {
    LinesSurvive(e, split);
    LinesAreOneBlock(Lines(e, split), tail);
    BlockParses(e, split);
  }

  /**
   Printing any sequence of printable events and reading the stream back gives the same
   identifiers, data, event names and retry values, in the same order.
   */
  lemma {:induction false} RoundTrip(events: seq<Event>, split: bool, tail: string)
    requires forall e | e in events :: Printable(e, split)
    ensures ParseAll(Blocks(Wire(events, split) + tail)) == AllReceived(events) + ParseAll(Blocks(tail))
    decreases |events|
  {
    if events == [] {
      assert Wire(events, split) + tail == tail;
    } else {
      var e, rest := events[0], events[1..];
      assert e in events && forall x | x in rest :: x in events;
      var more := Wire(rest, split) + tail;
      WireCons(events, split, tail);
      OneEventSurvives(e, split, more);
      ParseAllCons(TrimLF(Unlines(Lines(e, split))), Blocks(more));
      RoundTrip(rest, split, tail);
      AllReceivedCons(events, ParseAll(Blocks(tail)));
    }
  }

  // ---------- Reading in chunks ----------

  function Flat(chunks: seq<string>): string {
    if chunks == [] then "" else chunks[0] + Flat(chunks[1..])
  }

  /** Without carriage returns only a pair of newlines separates blocks. */
  lemma OnlyNewlinesSeparate(s: string)
    requires NoCR(s)
    ensures DoubleNewline(s).0 == IndexOf(s, "\n\n")
    ensures IndexOf(s, "\n\n") >= 0 ==> DoubleNewline(s).1 == 2
  {
    forall p: string | |p| >= 2 && (p[0] == '\r' || p[1] == '\r') ensures IndexOf(s, p) < 0 {
      var i := IndexOf(s, p);
      if i >= 0 {
        OccursChar(s, p, i, 0);
        OccursChar(s, p, i, 1);
      }
    }
    assert "\r\r"[0] == '\r' && "\r\n\n"[0] == '\r' && "\n\r\n"[1] == '\r' && "\r\n\r\n"[0] == '\r';
  }

  predicate Separator(p: string) {
    p == "\r\r" || p == "\n\n" || p == "\r\n\n" || p == "\n\r\n" || p == "\r\n\r\n"
  }

  lemma IndexIsStable(a: string, b: string, p: string)
    requires IndexOf(a, p) >= 0
    ensures IndexOf(a + b, p) == IndexOf(a, p)
  {
    var i, j := IndexOf(a, p), IndexOf(a + b, p);
    OccursInPrefix(a, b, p, i);
    OccursInPrefix(a, b, p, j);
  }

  lemma OccursInPrefix(a: string, b: string, p: string, i: int)
    requires 0 <= i <= |a| - |p|
    ensures OccursAt(a + b, p, i) <==> OccursAt(a, p, i)
  {
    assert (a + b)[i..i + |p|] == a[i..i + |p|];
  }

  /** No separator continues another one, or has another one inside it that ends earlier. */
  lemma SeparatorsDoNotOverlap(s: string, p: string, j: int, q: string, m: int)
    requires Separator(p) && Separator(q) && OccursAt(s, p, j) && OccursAt(s, q, m)
    requires m + |q| < j + |p|
    ensures m < j
  {
    if j == m || j == m - 1 {
      OccursChar(s, q, m, 0);
      OccursChar(s, q, m, 1);
      OccursChar(s, q, m, |q| - 1);
      OccursChar(s, p, j, 0);
      OccursChar(s, p, j, 1);
      OccursChar(s, p, j, m - j + |q| - 1);
      OccursChar(s, p, j, m - j + 1);
    }
  }

  /** A separator that is complete only with more input does not come before one that was there already. */
  lemma NoEarlierSeparator(a: string, b: string, p: string, q: string, m: int)
    requires Separator(p) && Separator(q) && OccursAt(a, q, m) && IndexOf(a, p) < 0
    ensures IndexOf(a + b, p) < 0 || m < IndexOf(a + b, p)
  {
    var j := IndexOf(a + b, p);
    OccursInPrefix(a, b, q, m);
    if j >= 0 {
      if j + |p| <= |a| {
        OccursInPrefix(a, b, p, j);
      }
      SeparatorsDoNotOverlap(a + b, p, j, q, m);
    }
  }

  lemma EachIndexIsStable(a: string, b: string, p: string, q: string, m: int)
    requires Separator(p) && Separator(q) && OccursAt(a, q, m)
    ensures var i, j := IndexOf(a, p), IndexOf(a + b, p);
            j == i || (i == -1 && m < j)
  {
    if IndexOf(a, p) >= 0 {
      IndexIsStable(a, b, p);
    } else {
      NoEarlierSeparator(a, b, p, q, m);
    }
  }

  lemma FirstSeparator(data: string) returns (q: string)
    requires DoubleNewline(data).0 >= 0
    ensures Separator(q) && OccursAt(data, q, DoubleNewline(data).0)
  {
    var i := DoubleNewline(data).0;
    q := if i == IndexOf(data, "\r\r") then "\r\r"
      else if i == IndexOf(data, "\n\n") then "\n\n"
      else if i == IndexOf(data, "\r\n\n") then "\r\n\n"
      else if i == IndexOf(data, "\n\r\n") then "\n\r\n"
      else "\r\n\r\n";
  }

  /** More input does not move a block boundary that is already there, whichever line breaks are used. */
  lemma BoundaryIsStable(a: string, b: string)
    requires DoubleNewline(a).0 >= 0
    ensures DoubleNewline(a + b) == DoubleNewline(a)
  {
    var q := FirstSeparator(a);
    var m := DoubleNewline(a).0;
    EachIndexIsStable(a, b, "\r\r", q, m);
    EachIndexIsStable(a, b, "\n\n", q, m);
    EachIndexIsStable(a, b, "\r\n\n", q, m);
    EachIndexIsStable(a, b, "\n\r\n", q, m);
    EachIndexIsStable(a, b, "\r\n\r\n", q, m);
    NearestIsStable(
      IndexOf(a, "\r\r"), IndexOf(a, "\n\n"), IndexOf(a, "\r\n\n"), IndexOf(a, "\n\r\n"), IndexOf(a, "\r\n\r\n"),
      IndexOf(a + b, "\r\r"), IndexOf(a + b, "\n\n"), IndexOf(a + b, "\r\n\n"), IndexOf(a + b, "\n\r\n"),
      IndexOf(a + b, "\r\n\r\n"));
  }

  /** Separators that turn up after the first one do not matter. */
  lemma NearestIsStable(a: int, b: int, c: int, d: int, e: int, a': int, b': int, c': int, d': int, e': int)
    requires var m := Nearest(a, b, c, d, e).0;
             && m >= 0 && (a' == a || (a == -1 && m < a')) && (b' == b || (b == -1 && m < b'))
             && (c' == c || (c == -1 && m < c')) && (d' == d || (d == -1 && m < d'))
             && (e' == e || (e == -1 && m < e'))
    ensures Nearest(a', b', c', d', e') == Nearest(a, b, c, d, e)
  {
  }

  /** Cutting the first block off what has arrived cuts it off the whole stream. */
  lemma CutFirstBlock(buffer: string, more: string)
    requires buffer != "" && DoubleNewline(buffer).0 >= 0
    ensures var (i, n) := DoubleNewline(buffer);
            && i + n <= |buffer|
            && Blocks(buffer + more) == [buffer[..i]] + Blocks(buffer[i + n..] + more)
  {
    var (i, n) := DoubleNewline(buffer);
    SeparatorFits(buffer);
    BoundaryIsStable(buffer, more);
    SlicesOfPrefix(buffer, more, i, i + n);
  }

  lemma SlicesOfPrefix(a: string, b: string, i: nat, k: nat)
    requires i <= k <= |a|
    ensures (a + b)[..i] == a[..i] && (a + b)[k..] == a[k..] + b
  {
  }

  lemma OneBlock(s: string)
    requires s != "" && DoubleNewline(s).0 < 0
    ensures Blocks(s) == [s] && ParseAll(Blocks(s)) == [Parse(s)]
  {
  }

  class EventStreamReader {
    var buffer: string
    var incoming: seq<string>

    /** Everything the connection will still deliver. */
    ghost function Rest(): string
      reads this
    {
      buffer + Flat(incoming)
    }

    constructor (incoming: seq<string>)
      ensures Rest() == Flat(incoming)
    {
      buffer := "";
      this.incoming := incoming;
      new;
      assert "" + Flat(incoming) == Flat(incoming);
    }

    /** One call of the split function that finds a boundary. */
    method Cut() returns (block: Option<string>)
      modifies this`buffer
      ensures block.None? ==> buffer == old(buffer) && (buffer == "" || DoubleNewline(buffer).0 < 0)
      ensures block.Some? ==> old(buffer) != ""
      ensures block.Some? ==> Blocks(old(Rest())) == [block.value] + Blocks(Rest())
    {
      var (i, n) := DoubleNewline(buffer);
      if buffer == "" || i < 0 {
        return None;
      }
      CutFirstBlock(buffer, Flat(incoming));
      block := Some(buffer[..i]);
      buffer := buffer[i + n..];
    }

    /** However the stream is chunked, reads return its blocks in order. */
    method ReadEvent() returns (block: Option<string>)
      modifies this
      ensures block.None? <==> old(Rest()) == ""
      ensures block.Some? ==> Blocks(old(Rest())) == [block.value] + Blocks(Rest())
    {
      ghost var all := Rest();
      while true
        invariant Rest() == all
        decreases |incoming|
      {
        block := Cut();
        if block.Some? {
          return;
        }
        if incoming == [] {
          assert all == buffer;
          if buffer != "" {
            OneBlock(buffer);
          }
          block := Last();
          return;
        }
        assert buffer + Flat(incoming) == (buffer + incoming[0]) + Flat(incoming[1..]);
        buffer := buffer + incoming[0];
        incoming := incoming[1..];
      }
    }

    /** The end of the stream: what is left is one more block, without a look for a boundary in it. */
    method Last() returns (block: Option<string>)
      requires incoming == []
      modifies this`buffer
      ensures block == (if old(buffer) == "" then None else Some(old(Rest()))) && Rest() == ""
    {
      assert buffer + "" == buffer;
      block := if buffer == "" then None else Some(buffer);
      buffer := "";
      assert "" + "" == "";
    }
  }
}
