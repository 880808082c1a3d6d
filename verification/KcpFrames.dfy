/**
 Length-prefixed frames over a byte stream and the typed packet inside a frame
 (transport/kcp/message.go). The byte order is a package variable in the source and a
 parameter here. A connection delivers its bytes in chunks of any size and then ends.
 */
module KcpFrames {
  import opened Sequences

  type Byte = b: int | 0 <= b < 256

  datatype ByteOrder = LittleEndian | BigEndian

  datatype Error = EndOfStream | UnexpectedEnd | FrameTooLarge | InvalidFrameSize

  datatype Result<+T> = Ok(value: T) | Err(error: Error)

  const LENGTH_SIZE: nat := 4
  const MAX_FRAME: nat := 33554432
  const UINT32: nat := 0x1_0000_0000

  // ---------- 32-bit integers ----------

  function Digits(v: nat): (s: seq<Byte>)
    requires v < UINT32
    ensures |s| == 4
  {
    [v % 256, v / 256 % 256, v / 65536 % 256, v / 16777216]
  }

  function Reversed(s: seq<Byte>): seq<Byte>
    requires |s| == 4
  {
    [s[3], s[2], s[1], s[0]]
  }

  function PutUint32(order: ByteOrder, v: nat): (s: seq<Byte>)
    requires v < UINT32
    ensures |s| == 4
  {
    match order
    case LittleEndian => Digits(v)
    case BigEndian => Reversed(Digits(v))
  }

  function Value(s: seq<Byte>): (v: nat)
    requires |s| == 4
    ensures v < UINT32
  {
    s[0] as int + 256 * (s[1] as int) + 65536 * (s[2] as int) + 16777216 * (s[3] as int)
  }

  function Uint32(order: ByteOrder, s: seq<Byte>): (v: nat)
    requires |s| == 4
    ensures v < UINT32
  {
    match order
    case LittleEndian => Value(s)
    case BigEndian => Value(Reversed(s))
  }

  lemma DigitsOfValue(s: seq<Byte>)
    requires |s| == 4
    ensures Digits(Value(s)) == s
  {
    var v := Value(s);
    var a: int, b: int, c: int := s[1], s[2], s[3];
    assert v / 256 == a + 256 * b + 65536 * c;
    assert v / 65536 == b + 256 * c;
    assert v / 16777216 == c;
  }

  lemma ValueOfDigits(v: nat)
    requires v < UINT32
    ensures Value(Digits(v)) == v
  {
    assert v == v % 256 + 256 * (v / 256);
    assert v / 256 == v / 256 % 256 + 256 * (v / 65536);
    assert v / 65536 == v / 65536 % 256 + 256 * (v / 16777216);
  }

  /** Writing and reading a 32-bit integer are inverse to each other in either byte order. */
  lemma Uint32Inverse(order: ByteOrder, v: nat, s: seq<Byte>)
    requires v < UINT32 && |s| == 4
    ensures Uint32(order, PutUint32(order, v)) == v
    ensures PutUint32(order, Uint32(order, s)) == s
  {
    ValueOfDigits(v);
    DigitsOfValue(s);
    DigitsOfValue(Reversed(s));
    assert Reversed(Reversed(Digits(v))) == Digits(v);
    assert Reversed(Reversed(s)) == s;
  }

  // ---------- The frame format ----------

  /** Little endian puts the lowest byte first, big endian the highest. */
  lemma BytesOf(v: nat)
    requires v < UINT32
    ensures PutUint32(LittleEndian, v) == [v % 256, v / 256 % 256, v / 65536 % 256, v / 16777216 % 256]
    ensures PutUint32(BigEndian, v) == [v / 16777216 % 256, v / 65536 % 256, v / 256 % 256, v % 256]
  {
  }

  function Frame(order: ByteOrder, payload: seq<Byte>): seq<Byte>
    requires |payload| <= MAX_FRAME
  {
    PutUint32(order, |payload|) + payload
  }

  /** What one `ReadFrame` returns and what it leaves, given everything the connection will deliver. */
  function Decoded(order: ByteOrder, s: seq<Byte>): (Result<seq<Byte>>, seq<Byte>) {
    if s == [] then (Err(EndOfStream), [])
    else if |s| < LENGTH_SIZE then (Err(UnexpectedEnd), [])
    else
      var size, rest := Uint32(order, s[..4]), s[4..];
      if size > MAX_FRAME then (Err(InvalidFrameSize), rest)
      else if size == 0 then (Ok([]), rest)
      else if rest == [] then (Err(EndOfStream), [])
      else if |rest| < size then (Err(UnexpectedEnd), [])
      else (Ok(rest[..size]), rest[size..])
  }

  class Connection {
    var incoming: seq<Byte>
    var outgoing: seq<Byte>

    constructor (incoming: seq<Byte>)
      ensures this.incoming == incoming && outgoing == []
    {
      this.incoming, outgoing := incoming, [];
    }

    /** One read: some bytes, at least one, or none at the end of the stream. */
    method Read(max: nat) returns (chunk: seq<Byte>)
      requires max > 0
      modifies this`incoming
      ensures |chunk| <= max && old(incoming) == chunk + incoming
      ensures chunk == [] <==> old(incoming) == []
    {
      if incoming == [] {
        return [];
      }
      var n: nat :| 1 <= n <= max && n <= |incoming|;
      chunk := incoming[..n];
      incoming := incoming[n..];
    }

    method Write(bytes: seq<Byte>)
      modifies this`outgoing
      ensures outgoing == old(outgoing) + bytes
    {
      outgoing := outgoing + bytes;
    }
  }

  /** `io.ReadFull`: whatever the chunks, exactly `size` bytes or an error at the end of the stream. */
  method ReadFull(conn: Connection, size: nat) returns (r: Result<seq<Byte>>)
    requires size > 0
    modifies conn`incoming
    ensures size <= |old(conn.incoming)| ==>
              r == Ok(old(conn.incoming)[..size]) && conn.incoming == old(conn.incoming)[size..]
    ensures |old(conn.incoming)| < size ==>
              r == Err(if old(conn.incoming) == [] then EndOfStream else UnexpectedEnd) && conn.incoming == []
  {
    var buf: seq<Byte> := [];
    while |buf| < size
      invariant |buf| <= size && old(conn.incoming) == buf + conn.incoming
    {
      var chunk := conn.Read(size - |buf|);
      if chunk == [] {
        return Err(if buf == [] then EndOfStream else UnexpectedEnd);
      }
      buf := buf + chunk;
    }
    return Ok(buf);
  }

  method WriteFrame(conn: Connection, order: ByteOrder, payload: seq<Byte>) returns (err: bool)
    modifies conn`outgoing
    ensures err == (|payload| > MAX_FRAME)
    ensures conn.outgoing == if |payload| > MAX_FRAME then old(conn.outgoing)
                             else old(conn.outgoing) + Frame(order, payload)
  {
    if |payload| > MAX_FRAME {
      return true;
    }
    conn.Write(PutUint32(order, |payload|) + payload);
    return false;
  }

  method ReadFrame(conn: Connection, order: ByteOrder) returns (r: Result<seq<Byte>>)
    modifies conn`incoming
    ensures (r, conn.incoming) == Decoded(order, old(conn.incoming))
  {
    var hdr := ReadFull(conn, LENGTH_SIZE);
    if hdr.Err? {
      return Err(hdr.error);
    }
    var size := Uint32(order, hdr.value);
    if size > MAX_FRAME {
      return Err(InvalidFrameSize);
    }
    if size == 0 {
      return Ok([]);
    }
    r := ReadFull(conn, size);
  }

  lemma FrameDecodes(order: ByteOrder, payload: seq<Byte>, rest: seq<Byte>)
    requires |payload| <= MAX_FRAME
    ensures Decoded(order, Frame(order, payload) + rest) == (Ok(payload), rest)
  {
    var s := Frame(order, payload) + rest;
    assert s[..4] == PutUint32(order, |payload|);
    Uint32Inverse(order, |payload|, s[..4]);
    assert s[4..] == payload + rest;
  }

  lemma DecodedIsFrame(order: ByteOrder, s: seq<Byte>)
    requires Decoded(order, s).0.Ok?
    ensures var (r, rest) := Decoded(order, s);
            |r.value| <= MAX_FRAME && s == Frame(order, r.value) + rest
  {
    var (r, rest) := Decoded(order, s);
    var header, body := s[..4], s[4..];
    Uint32Inverse(order, 0, header);
    assert |r.value| == Uint32(order, header) && body == r.value + rest;
    assert s == header + body && header + (r.value + rest) == header + r.value + rest;
  }

  /** A read returns a payload exactly when its frame is what comes next. */
  lemma DecodedExactly(order: ByteOrder, s: seq<Byte>, payload: seq<Byte>, rest: seq<Byte>)
    ensures Decoded(order, s) == (Ok(payload), rest) <==>
            |payload| <= 33554432 && s == PutUint32(order, |payload|) + payload + rest
  {
    if |payload| <= MAX_FRAME {
      FrameDecodes(order, payload, rest);
    }
    if Decoded(order, s).0.Ok? {
      DecodedIsFrame(order, s);
    }
  }

  // ---------- Streams of frames ----------

  ghost predicate AllFit(payloads: seq<seq<Byte>>) {
    forall i | 0 <= i < |payloads| :: |payloads[i]| <= MAX_FRAME
  }

  function Frames(order: ByteOrder, payloads: seq<seq<Byte>>): seq<Byte>
    requires AllFit(payloads)
  {
    if payloads == [] then [] else Frame(order, payloads[0]) + Frames(order, payloads[1..])
  }

  /** The payloads that reads return until the first error. */
  function DecodedUntilError(order: ByteOrder, s: seq<Byte>): seq<seq<Byte>>
    decreases |s|
  {
    var (r, rest) := Decoded(order, s);
    if r.Err? then [] else [r.value] + DecodedUntilError(order, rest)
  }

  /** After `k` reads of a stream of frames the first `k` payloads are out and the other frames are left. */
  lemma {:induction false} ReadsInvertWrites(order: ByteOrder, payloads: seq<seq<Byte>>, k: nat)
    requires AllFit(payloads) && k < |payloads|
    ensures Decoded(order, Frames(order, payloads[k..])) == (Ok(payloads[k]), Frames(order, payloads[k + 1..]))
  {
    assert payloads[k..][1..] == payloads[k + 1..];
    DecodedExactly(order, Frames(order, payloads[k..]), payloads[k], Frames(order, payloads[k + 1..]));
  }

  method ReadFrames(conn: Connection, order: ByteOrder, ghost payloads: seq<seq<Byte>>, k: nat)
      returns (out: seq<seq<Byte>>)
    requires AllFit(payloads) && k <= |payloads| && conn.incoming == Frames(order, payloads)
    modifies conn`incoming
    ensures out == payloads[..k] && conn.incoming == Frames(order, payloads[k..])
  {
    out := [];
    for i := 0 to k
      invariant out == payloads[..i] && conn.incoming == Frames(order, payloads[i..])
    {
      ReadsInvertWrites(order, payloads, i);
      var r := ReadFrame(conn, order);
      out := out + [r.value];
    }
  }

  // ---------- Writing and then reading ----------

  /** The payloads that `WriteFrame` accepts. */
  function Fitting(payloads: seq<seq<Byte>>): (r: seq<seq<Byte>>)
    ensures AllFit(r)
  {
    if payloads == [] then []
    else
      var n := |payloads| - 1;
      Fitting(payloads[..n]) + if |payloads[n]| <= MAX_FRAME then [payloads[n]] else []
  }

  lemma {:induction false} FittingIsAll(payloads: seq<seq<Byte>>)
    requires AllFit(payloads)
    ensures Fitting(payloads) == payloads
    decreases |payloads|
  {
    if payloads != [] {
      FittingIsAll(payloads[..|payloads| - 1]);
    }
  }

  lemma FittingMore(payloads: seq<seq<Byte>>, last: seq<Byte>)
    ensures Fitting(payloads + [last]) ==
            if |last| <= MAX_FRAME then Fitting(payloads) + [last] else Fitting(payloads)
  {
    assert (payloads + [last])[..|payloads|] == payloads;
    assert Fitting(payloads) + [] == Fitting(payloads);
  }

  lemma {:induction false} FramesAppend(order: ByteOrder, payloads: seq<seq<Byte>>, last: seq<Byte>)
    requires AllFit(payloads) && |last| <= MAX_FRAME
    ensures AllFit(payloads + [last])
    ensures Frames(order, payloads + [last]) == Frames(order, payloads) + Frame(order, last)
    decreases |payloads|
  {
    var all := payloads + [last];
    if payloads == [] {
      assert all[1..] == [];
      assert Frames(order, all) == Frame(order, last) + [];
    } else {
      assert all[1..] == payloads[1..] + [last];
      FramesAppend(order, payloads[1..], last);
      assert Frames(order, all) == Frame(order, payloads[0]) + Frames(order, all[1..]);
    }
  }

  lemma FramesOfMore(order: ByteOrder, payloads: seq<seq<Byte>>, last: seq<Byte>)
    ensures Frames(order, Fitting(payloads + [last])) ==
            Frames(order, Fitting(payloads)) + Adds(order, last)
  {
    FittingMore(payloads, last);
    if |last| <= MAX_FRAME {
      FramesAppend(order, Fitting(payloads), last);
    }
  }

  /** What the write of one payload adds to a stream, and what several writes add. */
  ghost function Adds(order: ByteOrder, payload: seq<Byte>): seq<Byte> {
    if |payload| <= MAX_FRAME then Frame(order, payload) else []
  }

  ghost function Written(order: ByteOrder, payloads: seq<seq<Byte>>): seq<Byte> {
    Frames(order, Fitting(payloads))
  }

  lemma Joined(a: seq<Byte>, b: seq<Byte>, c: seq<Byte>)
    ensures a + b + c == a + (b + c)
  {
  }

  lemma WrittenMore(order: ByteOrder, start: seq<Byte>, payloads: seq<seq<Byte>>, last: seq<Byte>)
    ensures start + Written(order, payloads) + Adds(order, last) == start + Written(order, payloads + [last])
  {
    FramesOfMore(order, payloads, last);
    Joined(start, Written(order, payloads), Adds(order, last));
  }

  /** Any number of writes leave the frames of what fits, one after the other, behind what was there. */
  method WriteFrames(conn: Connection, order: ByteOrder, payloads: seq<seq<Byte>>)
    modifies conn`outgoing
    ensures conn.outgoing == old(conn.outgoing) + Frames(order, Fitting(payloads))
  {
    assert old(conn.outgoing) + [] == old(conn.outgoing);
    for i := 0 to |payloads|
      invariant conn.outgoing == old(conn.outgoing) + Written(order, payloads[..i])
    {
      WrittenMore(order, old(conn.outgoing), payloads[..i], payloads[i]);
      assert payloads[..i + 1] == payloads[..i] + [payloads[i]];
      ghost var before := conn.outgoing;
      var err := WriteFrame(conn, order, payloads[i]);
      assert conn.outgoing == before + Adds(order, payloads[i]);
    }
    assert payloads[..|payloads|] == payloads;
  }

  /** What one side writes, the other side reads: all payloads that fit, in order, and nothing is left. */
  method Exchange(order: ByteOrder, payloads: seq<seq<Byte>>) returns (out: seq<seq<Byte>>, left: seq<Byte>)
    ensures out == Fitting(payloads) && left == []
    ensures AllFit(payloads) ==> out == payloads
  {
    var sender := new Connection([]);
    WriteFrames(sender, order, payloads);
    var receiver := new Connection(sender.outgoing);
    var n := |Fitting(payloads)|;
    out := ReadFrames(receiver, order, Fitting(payloads), n);
    left := receiver.incoming;
    assert Fitting(payloads)[n..] == [];
    if AllFit(payloads) {
      FittingIsAll(payloads);
    }
  }

  /**
   A stream of frames that breaks off after `n` bytes still yields payloads from the front
   of the list only, and all of them only if nothing is missing.
   */
  lemma {:induction false} TruncationIsSafe(order: ByteOrder, payloads: seq<seq<Byte>>, n: nat)
    requires AllFit(payloads) && n <= |Frames(order, payloads)|
    ensures var got := DecodedUntilError(order, Frames(order, payloads)[..n]);
            got <= payloads && (got == payloads <==> n == |Frames(order, payloads)|)
    decreases |payloads|
  {
    if payloads == [] {
      assert Frames(order, payloads)[..n] == [];
    } else {
      var p, rest := payloads[0], payloads[1..];
      var f := Frame(order, p);
      FirstOfCut(order, p, rest, n);
      if |f| <= n {
        TruncationIsSafe(order, rest, n - |f|);
        PrefixCons(p, DecodedUntilError(order, Frames(order, rest)[..n - |f|]), payloads);
      }
    }
  }

  /** A cut stream yields nothing if it ends in the first frame, and otherwise the first payload and more. */
  lemma FirstOfCut(order: ByteOrder, p: seq<Byte>, rest: seq<seq<Byte>>, n: nat)
    requires |p| <= MAX_FRAME && AllFit(rest) && n <= |Frame(order, p) + Frames(order, rest)|
    ensures var f, more := Frame(order, p), Frames(order, rest);
            DecodedUntilError(order, (f + more)[..n]) ==
            if n < |f| then [] else [p] + DecodedUntilError(order, more[..n - |f|])
  {
    var f, more := Frame(order, p), Frames(order, rest);
    FrontOfTwo(f, more, n);
    if |f| <= n {
      FrameDecodes(order, p, more[..n - |f|]);
    } else {
      PartialFrameFails(order, p, n);
    }
  }

  lemma PrefixCons(p: seq<Byte>, got: seq<seq<Byte>>, payloads: seq<seq<Byte>>)
    requires payloads != [] && p == payloads[0] && got <= payloads[1..]
    ensures [p] + got <= payloads && ([p] + got == payloads <==> got == payloads[1..])
  {
    assert payloads == [p] + payloads[1..];
  }

  /** A frame that breaks off is an error: a clean end before or after the length, an unexpected one elsewhere. */
  lemma PartialFrameFails(order: ByteOrder, payload: seq<Byte>, n: nat)
    requires |payload| <= 33554432 && n < |Frame(order, payload)|
    ensures Decoded(order, Frame(order, payload)[..n]) ==
            (Err(if n == 0 || n == 4 then EndOfStream else UnexpectedEnd), [])
  {
    var s := Frame(order, payload)[..n];
    if n >= 4 {
      assert s[..4] == PutUint32(order, |payload|);
      Uint32Inverse(order, |payload|, s[..4]);
    }
  }

  /** A length above 32 MiB is refused after the length has been read, whatever follows. */
  lemma OversizeIsRefused(order: ByteOrder, size: nat, rest: seq<Byte>)
    requires 33554432 < size < UINT32
    ensures Decoded(order, PutUint32(order, size) + rest) == (Err(InvalidFrameSize), rest)
  {
    var s := PutUint32(order, size) + rest;
    assert s[..4] == PutUint32(order, size) && s[4..] == rest;
    Uint32Inverse(order, size, s[..4]);
  }

  // ---------- The packet inside a frame ----------

  function Marshalled(order: ByteOrder, kind: nat, payload: seq<Byte>): seq<Byte>
    requires kind < UINT32
  {
    PutUint32(order, kind) + payload
  }

  class NetPacket {
    var kind: nat
    var payload: seq<Byte>

    method Marshal(order: ByteOrder) returns (buf: seq<Byte>)
      requires kind < UINT32
      ensures buf == Marshalled(order, kind, payload)
    {
      buf := PutUint32(order, kind);
      buf := buf + payload;
    }

    /** On success the packet is the one that marshals to `buf`; on failure it is untouched. */
    method Unmarshal(order: ByteOrder, buf: seq<Byte>) returns (r: Result<()>)
      modifies this
      ensures r == if |buf| >= 4 then Ok(()) else Err(if buf == [] then EndOfStream else UnexpectedEnd)
      ensures r.Ok? ==> kind < UINT32 && buf == Marshalled(order, kind, payload)
      ensures r.Err? ==> kind == old(kind) && payload == old(payload)
    {
      if |buf| < 4 {
        return Err(if buf == [] then EndOfStream else UnexpectedEnd);
      }
      kind := Uint32(order, buf[..4]);
      payload := buf[4..];
      Uint32Inverse(order, 0, buf[..4]);
      return Ok(());
    }
  }

  /**
   The bytes that a reader finds in the frame of a marshalled packet can only be
   unmarshalled to the same type and payload.
   */
  lemma PacketSurvives(
      order: ByteOrder, kind: nat, payload: seq<Byte>, rest: seq<Byte>, kind': nat, payload': seq<Byte>)
    requires kind < UINT32 && 4 + |payload| <= MAX_FRAME && kind' < UINT32
    ensures var (r, left) := Decoded(order, Frame(order, Marshalled(order, kind, payload)) + rest);
            && left == rest && r.Ok? && r.value == PutUint32(order, kind) + payload
            && (r.value == Marshalled(order, kind', payload') <==> kind' == kind && payload' == payload)
  {
    var s := Marshalled(order, kind, payload);
    DecodedExactly(order, Frame(order, s) + rest, s, rest);
    Uint32Inverse(order, kind, s[..4]);
    Uint32Inverse(order, kind', s[..4]);
    var s' := Marshalled(order, kind', payload');
    assert s[..4] == PutUint32(order, kind) && s[4..] == payload;
    assert s'[..4] == PutUint32(order, kind') && s'[4..] == payload';
  }
}
