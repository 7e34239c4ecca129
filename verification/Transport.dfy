/**
  Reading an HTTP/1.1 response from a socket that delivers it in arbitrary segments
  (packages/core/src/agy-transport.ts:147-191, 336-360, 411-493), against the chunked transfer
  coding of section 7.1 and the body lengths of section 6.3 of RFC 9112.
 */
module Transport {
  import opened Text

  newtype Byte = x: int | 0 <= x < 256

  type Bytes = seq<Byte>

  const CR: Byte := 13
  const LF: Byte := 10
  const SEMICOLON: Byte := 59
  const CRLF: Bytes := [CR, LF]
  const HEAD_END: Bytes := [CR, LF, CR, LF]
  const LAST_CHUNK: Bytes := [48, CR, LF, CR, LF]

  function Flatten(segments: seq<Bytes>): Bytes {
    if segments == [] then [] else segments[0] + Flatten(segments[1..])
  }

  // ----- Searching --------------------------------------------------------

  predicate Occurs(b: Bytes, mark: Bytes, i: int) {
    0 <= i && i + |mark| <= |b| && b[i..i + |mark|] == mark
  }

  function IndexFrom(b: Bytes, mark: Bytes, from: nat): (r: Option<nat>)
    requires from <= |b|
    ensures r.Some? ==> from <= r.value && Occurs(b, mark, r.value)
    ensures r.Some? ==> forall j | from <= j < r.value :: !Occurs(b, mark, j)
    ensures r.None? ==> forall j | from <= j <= |b| :: !Occurs(b, mark, j)
    decreases |b| - from
  {
    if Occurs(b, mark, from) then Some(from) else if from == |b| then None else IndexFrom(b, mark, from + 1)
  }

  /** `Buffer.indexOf`: the first occurrence. */
  function IndexOf(b: Bytes, mark: Bytes): (r: Option<nat>)
    ensures r.Some? ==> Occurs(b, mark, r.value) && forall j | 0 <= j < r.value :: !Occurs(b, mark, j)
    ensures r.None? ==> forall j :: !Occurs(b, mark, j)
  {
    IndexFrom(b, mark, 0)
  }

  /** More bytes at the end do not move the first occurrence. */
  lemma IndexIsStable(b: Bytes, more: Bytes, mark: Bytes)
    requires IndexOf(b, mark).Some?
    ensures IndexOf(b + more, mark) == IndexOf(b, mark)
  {
    var i := IndexOf(b, mark).value;
    assert (b + more)[i..i + |mark|] == b[i..i + |mark|];
    assert Occurs(b + more, mark, i);
    forall j | 0 <= j < i ensures !Occurs(b + more, mark, j) {
      assert !Occurs(b, mark, j) && j + |mark| <= |b|;
      assert (b + more)[j..j + |mark|] == b[j..j + |mark|];
    }
  }

  lemma CrlfAt(b: Bytes, j: int)
    ensures Occurs(b, CRLF, j) <==> 0 <= j && j + 2 <= |b| && b[j] == CR && b[j + 1] == LF
  {
    if 0 <= j && j + 2 <= |b| {
      assert b[j..j + 2] == [b[j], b[j + 1]];
    }
  }

  // ----- Chunk sizes ------------------------------------------------------

  /** The whitespace `trim` removes from a latin1 string. */
  predicate IsBlank(c: Byte) {
    9 <= c <= 13 || c == 32 || c == 160
  }

  function Unblank(b: Bytes): Bytes {
    if b != [] && IsBlank(b[0]) then Unblank(b[1..]) else b
  }

  function HexValue(c: Byte): Option<nat> {
    if 48 <= c <= 57 then Some(c as nat - 48)
    else if 65 <= c <= 70 then Some(c as nat - 55)
    else if 97 <= c <= 102 then Some(c as nat - 87)
    else None
  }

  /** The value of the leading hexadecimal digits, after what `sum` holds already. */
  function LeadingHex(b: Bytes, sum: nat): nat {
    if b == [] || HexValue(b[0]).None? then sum else LeadingHex(b[1..], 16 * sum + HexValue(b[0]).value)
  }

  const PLUS: Byte := 43
  const MINUS: Byte := 45

  /** `Number.parseInt(text, 16)`, or `None` for NaN. */
  function ParseHex(b: Bytes): Option<int> {
    var plain := if b != [] && (b[0] == PLUS || b[0] == MINUS) then b[1..] else b;
    var digits := if |plain| >= 2 && plain[0] == 48 && (plain[1] == 120 || plain[1] == 88) then plain[2..] else plain;
    if digits == [] || HexValue(digits[0]).None? then None
    else
      var value: int := LeadingHex(digits, 0);
      Some(if b[0] == MINUS then -value else value)
  }

  function BeforeSemicolon(line: Bytes): Bytes {
    if line == [] || line[0] == SEMICOLON then [] else [line[0]] + BeforeSemicolon(line[1..])
  }

  /** What a size line says, its extensions ignored; the sign is kept. */
  function ChunkSize(line: Bytes): Option<int> {
    ParseHex(Unblank(BeforeSemicolon(line)))
  }

  // ----- Chunked decoding ---------------------------------------------------

  function Min(a: nat, b: nat): nat {
    if a <= b then a else b
  }

  /** `Buffer.subarray` counts a negative offset from the end. */
  function Offset(offset: int, length: nat): (r: nat)
    ensures r <= length
  {
    if offset >= 0 then Min(offset, length) else if offset + length > 0 then offset + length else 0
  }

  /** `Buffer.subarray`. */
  function Subarray(b: Bytes, start: int, end: int): Bytes {
    var from, to := Offset(start, |b|), Offset(end, |b|);
    if from < to then b[from..to] else []
  }

  lemma SubarrayWithin(b: Bytes, start: nat, end: nat)
    requires start <= |b| && end <= |b|
    ensures Subarray(b, start, end) == if start < end then b[start..end] else []
  {
  }

  /** `Hang` stands where the decoding loop goes on forever. */
  datatype Event = Data(bytes: Bytes) | End | Error | Hang

  datatype Found = Wait | Bad | Finish | Chunk(data: Bytes, rest: Bytes)

  /** The buffer begins with a size so far below zero that its chunk would end before the buffer does begin. */
  predicate Backward(b: Bytes) {
    var line := IndexOf(b, CRLF);
    line.Some? && ChunkSize(b[..line.value]).Some? && ChunkSize(b[..line.value]).value < -(line.value + 2)
  }

  /** What the front of the buffer holds. */
  function Front(b: Bytes): (r: Found)
    ensures r.Chunk? ==> |r.rest| < |b| || (r.rest == b && Backward(b))
  {
    var line := IndexOf(b, CRLF);
    if line.None? then Wait
    else
      var size := ChunkSize(b[..line.value]);
      if size.None? then Bad
      else
        var start := line.value + 2;
        var end := start + size.value;
        if |b| < end + 2 then Wait
        else if size.value == 0 then Finish
        else Chunk(Subarray(b, start, end), Subarray(b, end + 2, |b|))
  }

  datatype Drained = Drained(events: seq<Event>, rest: Bytes)

  /** Everything a buffer yields, and what stays in it. */
  function Drain(b: Bytes): Drained
    decreases |b|
  {
    match Front(b)
    case Wait => Drained([], b)
    case Bad => Drained([Error], b)
    case Finish => Drained([End], [])
    case Chunk(data, rest) =>
      if rest == b then Drained([Data(data), Hang], b)
      else Drained([Data(data)] + Drain(rest).events, Drain(rest).rest)
  }

  lemma DrainsOne(b: Bytes)
    ensures var f := Front(b);
            Drain(b) == if f.Wait? then Drained([], b)
                        else if f.Bad? then Drained([Error], b)
                        else if f.Finish? then Drained([End], [])
                        else if f.rest == b then Drained([Data(f.data), Hang], b)
                        else Drained([Data(f.data)] + Drain(f.rest).events, Drain(f.rest).rest)
  {
  }

  /** A decoder: what it has not decoded, what it pushed, and whether it stopped for good. */
  datatype Decoder = Decoder(buffer: Bytes, events: seq<Event>, failed: bool)

  const NEW := Decoder([], [], false)

  /** The decoder takes nothing more: it threw, or its loop never returns. */
  predicate Stops(events: seq<Event>) {
    Error in events || Hang in events
  }

  lemma StopsAfterData(pushed: seq<Event>, events: seq<Event>)
    requires forall e | e in pushed :: e.Data?
    ensures Stops(pushed + events) == Stops(events)
    ensures !Stops([]) && !Stops([End]) && Stops([Error])
    ensures events != [] && events[|events| - 1] == Hang ==> Stops(events)
  {
  }

  /** One segment; a stopped stream is fed no more. */
  function Feed(d: Decoder, segment: Bytes): Decoder {
    if d.failed then d
    else
      var r := Drain(d.buffer + segment);
      Decoder(r.rest, d.events + r.events, Stops(r.events))
  }

  function FeedAll(d: Decoder, segments: seq<Bytes>): Decoder
    decreases segments
  {
    if segments == [] then d else FeedAll(Feed(d, segments[0]), segments[1..])
  }

  /** The source ended: one more decoding of the buffer, then the stream's own end. */
  function Close(d: Decoder): Decoder {
    var r := Feed(d, []);
    if r.failed then r else r.(events := r.events + [End])
  }

  class ChunkedDecodeStream {
    var buffer: Bytes
    var events: seq<Event>
    var failed: bool

    function State(): Decoder
      reads this
    {
      Decoder(buffer, events, failed)
    }

    constructor ()
      ensures State() == NEW
    {
      buffer, events, failed := [], [], false;
    }

    method Transform(segment: Bytes)
      modifies this
      ensures State() == Feed(old(State()), segment)
    {
      if !failed {
        buffer := buffer + segment;
        FlushAvailableChunks();
      }
    }

    method Flush()
      modifies this
      ensures State() == Close(old(State()))
    {
      if !failed {
        assert buffer + [] == buffer;
        FlushAvailableChunks();
        if !failed {
          events := events + [End];
        }
      }
    }

    /** Where the source's loop would find the same buffer again, and so forever, this one records a `Hang`. */
    method FlushAvailableChunks()
      requires !failed
      modifies this
      ensures buffer == Drain(old(buffer)).rest
      ensures events == old(events) + Drain(old(buffer)).events
      ensures failed == Stops(Drain(old(buffer)).events)
    {
      ghost var pushed: seq<Event> := [];
      ghost var all := Drain(buffer);
      hide Drain, ChunkSize, IndexOf, Subarray, Backward, Stops;
      while true
        invariant events == old(events) + pushed && !failed && forall e | e in pushed :: e.Data?
        invariant all == Drained(pushed + Drain(buffer).events, Drain(buffer).rest)
        decreases |buffer|
      {
        DrainsOne(buffer);
        StopsAfterData(pushed, Drain(buffer).events);
        var lineEnd := IndexOf(buffer, CRLF);
        if lineEnd.None? {
          return;
        }
        var size := ChunkSize(buffer[..lineEnd.value]);
        if size.None? {
          events := events + [Error];
          failed := true;
          return;
        }
        var chunkStart := lineEnd.value + 2;
        var chunkEnd := chunkStart + size.value;
        var nextOffset := chunkEnd + 2;
        if |buffer| < nextOffset {
          return;
        }
        if size.value == 0 {
          buffer := [];
          events := events + [End];
          return;
        }
        var data := Data(Subarray(buffer, chunkStart, chunkEnd));
        events := events + [data];
        var rest := Subarray(buffer, nextOffset, |buffer|);
        if rest == buffer {
          events := events + [Hang];
          failed := true;
          assert old(events) + pushed + [data] + [Hang] == old(events) + (pushed + [data, Hang]);
          return;
        }
        buffer := rest;
        assert pushed + ([data] + Drain(buffer).events) == (pushed + [data]) + Drain(buffer).events;
        pushed := pushed + [data];
      }
    }
  }

  // ----- What a reader sees --------------------------------------------------

  predicate Final(e: Event) {
    !e.Data?
  }

  /**
    Up to and including the first event that is not data. What a stream pushes after its end is
    dropped or reported as a push after the end, as the segments fall, and is not compared here.
   */
  function Seen(events: seq<Event>): seq<Event> {
    if events == [] then [] else if Final(events[0]) then [events[0]] else [events[0]] + Seen(events[1..])
  }

  predicate Over(events: seq<Event>) {
    exists i | 0 <= i < |events| :: Final(events[i])
  }

  lemma {:induction false} SeenOfOver(events: seq<Event>, more: seq<Event>)
    requires Over(events)
    ensures Seen(events + more) == Seen(events)
  {
    if !Final(events[0]) {
      assert Over(events[1..]) by {
        var i :| 0 <= i < |events| && Final(events[i]);
        assert Final(events[1..][i - 1]);
      }
      SeenOfOver(events[1..], more);
      assert (events + more)[1..] == events[1..] + more;
    }
  }

  /** No size line that decoding this buffer reaches is backward. */
  predicate Steady(b: Bytes)
    decreases |b|
  {
    !Backward(b) && (Front(b).Chunk? ==> Steady(Front(b).rest))
  }

  lemma SubarrayIsStable(b: Bytes, more: Bytes, start: nat, end: nat)
    requires start <= |b| && end <= |b|
    ensures Subarray(b + more, start, end) == Subarray(b, start, end)
  {
    SubarrayWithin(b, start, end);
    SubarrayWithin(b + more, start, end);
  }

  lemma RestIsStable(b: Bytes, more: Bytes, next: nat)
    requires next <= |b|
    ensures Subarray(b + more, next, |b + more|) == Subarray(b, next, |b|) + more
  {
    SubarrayWithin(b, next, |b|);
    SubarrayWithin(b + more, next, |b + more|);
  }

  /** More bytes do not change what the front of a buffer holds, once it holds anything and is not backward. */
  lemma FrontIsStable(b: Bytes, more: Bytes)
    requires !Front(b).Wait? && !Backward(b)
    ensures Front(b + more) == if Front(b).Chunk? then Chunk(Front(b).data, Front(b).rest + more) else Front(b)
    ensures !Backward(b + more)
  {
    hide IndexOf, ChunkSize, Subarray;
    IndexIsStable(b, more, CRLF);
    var line := IndexOf(b, CRLF).value;
    assert (b + more)[..line] == b[..line];
    if Front(b).Chunk? {
      var end := line + 2 + ChunkSize(b[..line]).value;
      SubarrayIsStable(b, more, line + 2, end);
      RestIsStable(b, more, end + 2);
    }
  }

  /** What a decoder saw of a steady buffer was steady. */
  lemma {:induction false} SteadyBefore(b: Bytes, more: Bytes)
    requires Steady(b + more)
    ensures Steady(b)
    decreases |b|
  {
    hide Front, ChunkSize, IndexOf;
    if IndexOf(b, CRLF).Some? {
      IndexIsStable(b, more, CRLF);
      var line := IndexOf(b, CRLF).value;
      assert (b + more)[..line] == b[..line];
    }
    if Front(b).Chunk? {
      FrontIsStable(b, more);
      SteadyBefore(Front(b).rest, more);
    }
  }

  /** Decoding a steady buffer now and its continuation later comes to decoding both at once. */
  lemma {:induction false} DrainContinues(b: Bytes, more: Bytes)
    requires Steady(b)
    ensures var first := Drain(b);
            var all := Drain(b + more);
            if Over(first.events) then Over(all.events) && Seen(all.events) == Seen(first.events)
            else all.events == first.events + Drain(first.rest + more).events
                 && all.rest == Drain(first.rest + more).rest
    decreases |b|
  {
    hide Front, Seen, Backward;
    DrainsOne(b);
    DrainsOne(b + more);
    match Front(b)
    case Wait =>
    case Chunk(data, rest) =>
      FrontIsStable(b, more);
      assert |rest + more| < |b + more|;
      DrainContinues(rest, more);
      ChunkFirst(data, Drain(rest).events, Drain(rest + more).events);
    case _ =>
      FrontIsStable(b, more);
      FinalFirst(Drain(b).events[0]);
  }

  lemma FinalFirst(e: Event)
    requires Final(e)
    ensures Over([e]) && Seen([e]) == [e]
  {
    assert Final([e][0]);
  }

  lemma ChunkFirst(data: Bytes, events: seq<Event>, all: seq<Event>)
    ensures Over([Data(data)] + events) <==> Over(events)
    ensures Over([Data(data)] + all) <==> Over(all)
    ensures Seen([Data(data)] + events) == [Data(data)] + Seen(events)
    ensures Seen([Data(data)] + all) == [Data(data)] + Seen(all)
  {
    forall es: seq<Event> | es == events || es == all
      ensures (Over([Data(data)] + es) <==> Over(es)) && Seen([Data(data)] + es) == [Data(data)] + Seen(es) {
      var w := [Data(data)] + es;
      assert w[1..] == es;
      if Over(es) {
        var i :| 0 <= i < |es| && Final(es[i]);
        assert Final(w[i + 1]);
      }
      if Over(w) {
        var i :| 0 <= i < |w| && Final(w[i]);
        assert Final(es[i - 1]);
      }
    }
  }

  /** The decoder agrees with decoding all of its input at once, as far as a reader sees. */
  predicate Agrees(d: Decoder, total: Bytes) {
    var all := Drain(total);
    if Over(d.events) then Over(all.events) && Seen(d.events) == Seen(all.events)
    else !d.failed && d.events == all.events && d.buffer == all.rest
  }

  lemma OverJoins(a: seq<Event>, b: seq<Event>)
    ensures Over(a + b) <==> Over(a) || Over(b)
  {
    if Over(a) {
      var i :| 0 <= i < |a| && Final(a[i]);
      assert Final((a + b)[i]);
    }
    if Over(b) {
      var i :| 0 <= i < |b| && Final(b[i]);
      assert Final((a + b)[|a| + i]);
    }
    if Over(a + b) {
      var i :| 0 <= i < |a + b| && Final((a + b)[i]);
      assert if i < |a| then Final(a[i]) else Final(b[i - |a|]);
    }
  }

  lemma FeedAgrees(d: Decoder, total: Bytes, segment: Bytes)
    requires Agrees(d, total) && Steady(total)
    ensures Agrees(Feed(d, segment), total + segment)
  {
    hide Drain, Seen;
    DrainContinues(total, segment);
    var r := Drain(d.buffer + segment);
    OverJoins(d.events, r.events);
    if Over(d.events) {
      SeenOfOver(d.events, r.events);
    } else if Stops(r.events) {
      var i :| 0 <= i < |r.events| && (r.events[i] == Error || r.events[i] == Hang);
      assert Final(r.events[i]);
    }
  }

  lemma {:induction false} FeedAllAgrees(d: Decoder, total: Bytes, segments: seq<Bytes>)
    requires Agrees(d, total) && Steady(total + Flatten(segments))
    ensures Agrees(FeedAll(d, segments), total + Flatten(segments))
    decreases segments
  {
    hide Feed, Agrees, Steady;
    if segments == [] {
      assert total + [] == total;
    } else {
      SteadyBefore(total, Flatten(segments));
      FeedAgrees(d, total, segments[0]);
      assert total + Flatten(segments) == (total + segments[0]) + Flatten(segments[1..]);
      FeedAllAgrees(Feed(d, segments[0]), total + segments[0], segments[1..]);
    }
  }

  /** The stream's own end adds nothing for a reader who saw one, and is the same after the same bytes. */
  lemma CloseAgrees(a: Decoder, b: Decoder, total: Bytes)
    requires Agrees(a, total) && Agrees(b, total)
    ensures Seen(a.events) == Seen(b.events) && Seen(Close(a).events) == Seen(Close(b).events)
  {
    hide Drain, Seen, Over;
    if Over(a.events) {
      CloseOfOver(a);
      CloseOfOver(b);
    }
  }

  lemma CloseOfOver(d: Decoder)
    requires Over(d.events)
    ensures Seen(Close(d).events) == Seen(d.events)
  {
    hide Drain, Seen, Over;
    if !d.failed {
      var r := Drain(d.buffer + []).events;
      SeenOfOver(d.events, r);
      SeenOfOver(d.events, r + [End]);
      assert d.events + (r + [End]) == d.events + r + [End];
    }
  }

  /** However a steady stream is cut, what a reader sees depends on its bytes alone. */
  lemma SegmentsDoNotMatter(segments: seq<Bytes>)
    requires Steady(Flatten(segments))
    ensures Seen(FeedAll(NEW, segments).events) == Seen(Drain(Flatten(segments)).events)
    ensures Seen(Close(FeedAll(NEW, segments)).events) == Seen(Close(Feed(NEW, Flatten(segments))).events)
  {
    var total := Flatten(segments);
    AgreesFromStart(segments);
    hide FeedAll, Flatten, Drain, Seen, Agrees, Feed, Close;
    assert Agrees(NEW, []) && Agrees(FeedAll(NEW, segments), total);
    assert [] + total == total;
    NothingIsSteady();
    FeedAgrees(NEW, [], total);
    FeedOnce(total);
    CloseAgrees(FeedAll(NEW, segments), Feed(NEW, total), total);
  }

  lemma FeedOnce(total: Bytes)
    ensures Feed(NEW, total).events == Drain(total).events
  {
    assert [] + total == total;
  }

  lemma NothingIsSteady()
    ensures Front([]) == Wait && Steady([])
  {
  }

  lemma AgreesFromStart(segments: seq<Bytes>)
    requires Steady(Flatten(segments))
    ensures Agrees(NEW, []) && Agrees(FeedAll(NEW, segments), Flatten(segments))
  {
    hide Steady;
    assert Agrees(NEW, []);
    assert [] + Flatten(segments) == Flatten(segments);
    FeedAllAgrees(NEW, [], segments);
  }

  // ----- Where segmentation does matter ---------------------------------------

  /** The bytes a reader gets. */
  function Payload(events: seq<Event>): Bytes {
    if events == [] then []
    else (match events[0] case Data(bytes) => bytes case _ => []) + Payload(events[1..])
  }

  lemma {:induction false} PayloadJoins(a: seq<Event>, b: seq<Event>)
    ensures Payload(a + b) == Payload(a) + Payload(b)
    decreases a
  {
    if a == [] {
      assert a + b == b;
    } else {
      PayloadJoins(a[1..], b);
      assert (a + b)[1..] == a[1..] + b;
    }
  }

  lemma PayloadOfOne(e: Event)
    ensures Payload([e]) == match e case Data(bytes) => bytes case _ => []
  {
    assert [e][1..] == [];
  }

  lemma {:induction false} SeenIsPart(events: seq<Event>)
    ensures |Payload(Seen(events))| <= |Payload(events)|
    decreases events
  {
    if events != [] {
      if Final(events[0]) {
        PayloadOfOne(events[0]);
      } else {
        SeenIsPart(events[1..]);
        assert ([events[0]] + Seen(events[1..]))[1..] == Seen(events[1..]);
      }
    }
  }

  /** Bytes that end no line. */
  predicate Plain(m: Bytes) {
    CR !in m && LF !in m
  }

  lemma PlainEndsNoLine(b: Bytes, m: Bytes)
    requires Plain(m) && IndexOf(b, CRLF).None?
    ensures IndexOf(b + m, CRLF).None?
  {
    forall j ensures !Occurs(b + m, CRLF, j) {
      CrlfAt(b, j);
      CrlfAt(b + m, j);
    }
  }

  /** What a buffer that waits for more can still take from bytes that end no line. */
  function Awaited(b: Bytes): nat {
    var line := IndexOf(b, CRLF);
    if line.Some? && ChunkSize(b[..line.value]).Some? && ChunkSize(b[..line.value]).value > 0
    then ChunkSize(b[..line.value]).value else 0
  }

  /** A waiting buffer takes at most one chunk from bytes that end no line, and then waits again. */
  lemma WaitingTakes(b: Bytes, m: Bytes)
    requires Front(b).Wait? && Plain(m)
    ensures var f := Front(b + m);
            !f.Bad? && !Backward(b + m)
            && (f.Chunk? ==> |f.data| <= Awaited(b) && Front(f.rest).Wait? && !Backward(f.rest))
  {
    hide ChunkSize, IndexOf;
    var line := IndexOf(b, CRLF);
    if line.None? {
      PlainEndsNoLine(b, m);
    } else {
      IndexIsStable(b, m, CRLF);
      assert (b + m)[..line.value] == b[..line.value];
      if Front(b + m).Chunk? {
        var end := line.value + 2 + ChunkSize(b[..line.value]).value;
        var rest := (b + m)[end + 2..];
        assert Front(b + m).rest == rest;
        assert rest == [] + m[end + 2 - |b|..];
        NothingIsSteady();
        PlainEndsNoLine([], m[end + 2 - |b|..]);
      }
    }
  }

  lemma WaitingPays(b: Bytes, m: Bytes)
    requires Front(b).Wait? && Plain(m)
    ensures |Payload(Drain(b + m).events)| <= Awaited(b)
  {
    WaitingTakes(b, m);
    hide Front, Backward, Drain, Awaited;
    DrainsOne(b + m);
    match Front(b + m)
    case Wait =>
    case Finish => PayloadOfOne(End);
    case Chunk(data, rest) =>
      DrainsOne(rest);
      assert [Data(data)] + [] == [Data(data)];
      PayloadOfOne(Data(data));
  }

  /** A steady stream stays steady however many bytes that end no line follow it. */
  lemma {:induction false} SteadyAfter(b: Bytes, m: Bytes)
    requires Steady(b) && Plain(m)
    ensures Steady(b + m)
    decreases |b|
  {
    hide Front, Backward;
    match Front(b)
    case Wait => WaitingTakes(b, m);
    case Chunk(_, rest) =>
      FrontIsStable(b, m);
      SteadyAfter(rest, m);
    case _ => FrontIsStable(b, m);
  }

  /** All but this many of the bytes that follow are pushed at the first backward size line. */
  function Slack(b: Bytes): nat
    decreases |b|
  {
    var line := IndexOf(b, CRLF);
    if Backward(b) then -ChunkSize(b[..line.value]).value
    else if Front(b).Chunk? then Slack(Front(b).rest)
    else 0
  }

  lemma BackwardPays(b: Bytes, m: Bytes)
    requires Backward(b)
    ensures Front(b + m).Chunk? && |Front(b + m).data| >= |m| - Slack(b)
  {
    hide ChunkSize, IndexOf;
    IndexIsStable(b, m, CRLF);
    var line := IndexOf(b, CRLF).value;
    assert (b + m)[..line] == b[..line];
  }

  /** The first event of a chunk is its data, whatever follows. */
  lemma ChunkPays(b: Bytes)
    requires Front(b).Chunk?
    ensures var events := Drain(b).events;
            var f := Front(b);
            Payload(Seen(events)) == f.data + if f.rest == b then [] else Payload(Seen(Drain(f.rest).events))
  {
    hide Front, Backward, Drain;
    DrainsOne(b);
    var events := Drain(b).events;
    var data := Front(b).data;
    assert events[0] == Data(data);
    assert Seen(events) == [Data(data)] + Seen(events[1..]);
    assert ([Data(data)] + Seen(events[1..]))[1..] == Seen(events[1..]);
    if Front(b).rest == b {
      assert events[1..] == [Hang];
      PayloadOfOne(Hang);
    } else {
      assert events[1..] == Drain(Front(b).rest).events;
    }
  }

  lemma {:induction false} UnsteadyPays(b: Bytes, m: Bytes)
    requires !Steady(b)
    ensures |Payload(Seen(Drain(b + m).events))| >= |m| - Slack(b)
    decreases |b|
  {
    hide Front, Backward, Drain, Seen, Payload;
    if Backward(b) {
      BackwardPays(b, m);
      ChunkPays(b + m);
    } else {
      FrontIsStable(b, m);
      ChunkPays(b + m);
      UnsteadyPays(Front(b).rest, m);
    }
  }

  lemma {:induction false} RestWaits(b: Bytes)
    requires !Stops(Drain(b).events)
    ensures Front(Drain(b).rest).Wait?
    decreases |b|
  {
    hide Front;
    DrainsOne(b);
    if Front(b).Finish? {
      NothingIsSteady();
    } else if Front(b).Chunk? && Front(b).rest != b {
      RestWaits(Front(b).rest);
    }
  }

  /** However a stream is cut, a reader gets the same bytes. */
  ghost predicate ReadsAlike(stream: Bytes) {
    forall segments | Flatten(segments) == stream ::
      Payload(Seen(FeedAll(NEW, segments).events)) == Payload(Seen(Drain(stream).events))
  }

  lemma FeedTwice(b: Bytes, m: Bytes)
    ensures FeedAll(NEW, [b, m]) == Feed(Feed(NEW, b), m)
  {
    assert [b, m][1..] == [m] && [m][1..] == [];
    assert FeedAll(Feed(NEW, b), [m]) == FeedAll(Feed(Feed(NEW, b), m), []);
  }

  /** Cut right after `b`, at most this much is read of it and of bytes after it that end no line. */
  lemma CutPays(b: Bytes, m: Bytes)
    requires Plain(m)
    ensures |Payload(Seen(FeedAll(NEW, [b, m]).events))| <= |Payload(Drain(b).events)| + Awaited(Drain(b).rest)
  {
    hide Drain, Awaited, FeedAll, Seen, Payload;
    var first := Feed(NEW, b);
    FeedOnce(b);
    assert [] + b == b;
    FeedTwice(b, m);
    SeenIsPart(Feed(first, m).events);
    if !first.failed {
      RestWaits(b);
      WaitingPays(first.buffer, m);
      PayloadJoins(first.events, Drain(first.buffer + m).events);
    }
  }

  lemma UnsteadyReadsUnlike(b: Bytes) returns (m: Bytes)
    requires !Steady(b)
    ensures Plain(m) && !ReadsAlike(b + m)
  {
    hide Drain, Awaited, Slack, Steady, FeedAll, Seen, Payload;
    var n := |Payload(Drain(b).events)| + Awaited(Drain(b).rest) + Slack(b) + 1;
    m := seq(n, _ => 65);
    UnsteadyPays(b, m);
    CutPays(b, m);
    assert [b, m][1..] == [m] && [m][1..] == [];
    assert Flatten([m]) == m + Flatten([]);
    assert Flatten([b, m]) == b + m;
  }

  lemma SteadyReadsAlike(stream: Bytes)
    requires Steady(stream)
    ensures ReadsAlike(stream)
  {
    forall segments | Flatten(segments) == stream
      ensures Payload(Seen(FeedAll(NEW, segments).events)) == Payload(Seen(Drain(stream).events)) {
      SegmentsDoNotMatter(segments);
    }
  }

  /**
    A stream is read alike in every segmentation, however it goes on within its last line or chunk,
    exactly when no size line in it is backward.
   */
  lemma ReadsAlikeIff(stream: Bytes)
    ensures Steady(stream) <==> forall m | Plain(m) :: ReadsAlike(stream + m)
  {
    hide Steady, ReadsAlike;
    if Steady(stream) {
      forall m | Plain(m) ensures ReadsAlike(stream + m) {
        SteadyAfter(stream, m);
        SteadyReadsAlike(stream + m);
      }
    } else {
      var m := UnsteadyReadsUnlike(stream);
    }
  }

  // ----- Where the loop does not end --------------------------------------------

  /** The decoding loop is in its `n`-th round or beyond it. */
  predicate Runs(b: Bytes, n: nat)
    decreases n
  {
    n == 0 || (Front(b).Chunk? && Runs(Front(b).rest, n - 1))
  }

  lemma {:induction false} StuckRuns(b: Bytes, n: nat)
    requires Front(b).Chunk? && Front(b).rest == b
    ensures Runs(b, n)
    decreases n
  {
    if n > 0 {
      StuckRuns(b, n - 1);
    }
  }

  /** A buffer that does not hang is decoded within as many rounds as it has bytes. */
  lemma {:induction false} RunsOut(b: Bytes)
    requires Hang !in Drain(b).events
    ensures !Runs(b, |b| + 1)
    decreases |b|
  {
    hide Front;
    DrainsOne(b);
    if Front(b).Chunk? {
      var rest := Front(b).rest;
      assert rest != b;
      RunsOut(rest);
      if Runs(rest, |b|) {
        RunsLess(rest, |b|, |rest| + 1);
      }
    }
  }

  lemma {:induction false} RunsLess(b: Bytes, n: nat, k: nat)
    requires Runs(b, n) && k <= n
    ensures Runs(b, k)
    decreases k
  {
    hide Front;
    if k > 0 {
      RunsLess(Front(b).rest, n - 1, k - 1);
    }
  }

  lemma {:induction false} HangRuns(b: Bytes, n: nat)
    requires Hang in Drain(b).events
    ensures Runs(b, n)
    decreases |b|, n
  {
    hide Front;
    DrainsOne(b);
    if Front(b).rest == b {
      StuckRuns(b, n);
    } else if n > 0 {
      HangRuns(Front(b).rest, n - 1);
    }
  }

  /** The decoding loop never returns exactly where decoding is said to hang. */
  lemma HangsIff(b: Bytes)
    ensures Hang in Drain(b).events <==> forall n: nat :: Runs(b, n)
  {
    hide Drain, Runs;
    if Hang in Drain(b).events {
      forall n: nat ensures Runs(b, n) {
        HangRuns(b, n);
      }
    } else {
      RunsOut(b);
    }
  }

  /**
    The size lines that leave the buffer as it is: what follows the chunk would begin right at the
    buffer's start, or a whole length or more before it.
   */
  lemma StuckIff(b: Bytes)
    requires Front(b).Chunk?
    ensures var line := IndexOf(b, CRLF).value;
            var size := ChunkSize(b[..line]).value;
            Front(b).rest == b <==> size == -(line + 4) || size <= -(line + 4) - |b|
  {
    hide ChunkSize, IndexOf;
    var line := IndexOf(b, CRLF).value;
    var next := line + 4 + ChunkSize(b[..line]).value;
    if next == 0 || next <= -|b| {
      assert b[0..|b|] == b;
    }
  }

  // ----- Encoding -----------------------------------------------------------

  /** A chunk and the size line that announces it. */
  datatype Piece = Piece(line: Bytes, data: Bytes)

  /** The line gives the data's length, and no line break falls inside it. */
  predicate WellFormed(c: Piece) {
    c.data != [] && ChunkSize(c.line) == Some(|c.data|) && forall i | 0 <= i < |c.line| :: c.line[i] != CR
  }

  predicate AllWellFormed(cs: seq<Piece>) {
    forall i | 0 <= i < |cs| :: WellFormed(cs[i])
  }

  function PieceText(c: Piece): Bytes {
    c.line + CRLF + c.data + CRLF
  }

  /** A chunked body without trailers (section 7.1 of RFC 9112). */
  function Body(cs: seq<Piece>): Bytes {
    if cs == [] then LAST_CHUNK else PieceText(cs[0]) + Body(cs[1..])
  }

  function DataEvents(cs: seq<Piece>): seq<Event> {
    seq(|cs|, i requires 0 <= i < |cs| => Data(cs[i].data))
  }

  lemma LineEndsAt(c: Piece, more: Bytes)
    requires WellFormed(c)
    ensures IndexOf(c.line + CRLF + more, CRLF) == Some(|c.line|)
  {
    var b := c.line + CRLF + more;
    var n := |c.line|;
    CrlfAt(b, n);
    forall j | 0 <= j < n ensures !Occurs(b, CRLF, j) {
      CrlfAt(b, j);
    }
  }

  lemma PieceIsFront(c: Piece, rest: Bytes)
    requires WellFormed(c)
    ensures Front(PieceText(c) + rest) == Chunk(c.data, rest) && !Backward(PieceText(c) + rest)
  {
    hide ChunkSize, IndexOf;
    var b := PieceText(c) + rest;
    var n := |c.line|;
    assert b == c.line + CRLF + (c.data + CRLF + rest);
    LineEndsAt(c, c.data + CRLF + rest);
    assert b[..n] == c.line;
    assert b[n + 2..n + 2 + |c.data|] == c.data;
    assert b[n + 2 + |c.data| + 2..] == rest;
  }

  /** Part of a chunk yields nothing. */
  lemma PartOfPieceWaits(c: Piece, p: nat)
    requires WellFormed(c) && p < |PieceText(c)|
    ensures Front(PieceText(c)[..p]) == Wait
  {
    hide ChunkSize, IndexOf;
    var whole := PieceText(c);
    var b := whole[..p];
    assert whole == b + whole[p..];
    assert whole == c.line + CRLF + (c.data + CRLF);
    LineEndsAt(c, c.data + CRLF);
    if IndexOf(b, CRLF).Some? {
      IndexIsStable(b, whole[p..], CRLF);
      assert b[..|c.line|] == c.line;
    }
  }

  lemma LastChunkLine(b: Bytes)
    requires |b| >= 3 && b[0] == 48 && b[1] == CR && b[2] == LF
    ensures IndexOf(b, CRLF) == Some(1) && ChunkSize(b[..1]) == Some(0)
  {
    CrlfAt(b, 0);
    CrlfAt(b, 1);
    var line := b[..1];
    assert line == [48] && line[1..] == [];
    assert BeforeSemicolon(line) == [48] + BeforeSemicolon([]) == [48];
    assert ParseHex([48]) == Some(LeadingHex([48], 0));
    assert LeadingHex([48][1..], 0) == 0;
  }

  lemma LastChunkWaits(p: nat)
    requires p < |LAST_CHUNK|
    ensures Front(LAST_CHUNK[..p]) == Wait
  {
    hide ChunkSize;
    var b := LAST_CHUNK[..p];
    if p >= 3 {
      LastChunkLine(b);
    } else {
      forall j ensures !Occurs(b, CRLF, j) {
        CrlfAt(b, j);
      }
    }
  }

  lemma LastChunkFinishes()
    ensures Front(LAST_CHUNK) == Finish
  {
    hide ChunkSize;
    LastChunkLine(LAST_CHUNK);
  }

  lemma FirstData(cs: seq<Piece>, k: nat)
    requires 0 < k <= |cs|
    ensures DataEvents(cs[..k]) == [Data(cs[0].data)] + DataEvents(cs[1..][..k - 1])
  {
  }

  /** The text of the first `k` chunks. */
  function Whole(cs: seq<Piece>, k: nat): Bytes
    requires k <= |cs|
  {
    if k == 0 then [] else PieceText(cs[0]) + Whole(cs[1..], k - 1)
  }

  /**
    Any part of an encoding decodes to the chunks it holds whole, and what they encode to, followed by
    what stays in the buffer, is that part.
   */
  lemma {:induction false} PartDecodes(cs: seq<Piece>, p: nat) returns (k: nat)
    requires AllWellFormed(cs) && p < |Body(cs)|
    ensures k <= |cs|
    ensures var d := Drain(Body(cs)[..p]);
            d.events == DataEvents(cs[..k]) && Whole(cs, k) + d.rest == Body(cs)[..p]
    decreases cs
  {
    hide Drain, Front, PieceText, WellFormed;
    var b := Body(cs)[..p];
    DrainsOne(b);
    if cs == [] {
      LastChunkWaits(p);
      k := 0;
    } else if p < |PieceText(cs[0])| {
      PartOfPieceWaits(cs[0], p);
      assert b == PieceText(cs[0])[..p];
      k := 0;
    } else {
      var n := |PieceText(cs[0])|;
      var rest := Body(cs[1..])[..p - n];
      assert b == PieceText(cs[0]) + rest;
      PieceIsFront(cs[0], rest);
      var j := PartDecodes(cs[1..], p - n);
      k := j + 1;
      FirstData(cs, k);
    }
  }

  lemma {:induction false} BodyDrains(cs: seq<Piece>)
    requires AllWellFormed(cs)
    ensures Drain(Body(cs)) == Drained(DataEvents(cs) + [End], [])
    decreases cs
  {
    hide Drain, Front, PieceText, WellFormed;
    DrainsOne(Body(cs));
    if cs == [] {
      LastChunkFinishes();
    } else {
      PieceIsFront(cs[0], Body(cs[1..]));
      BodyDrains(cs[1..]);
      assert DataEvents(cs) == [Data(cs[0].data)] + DataEvents(cs[1..]);
    }
  }

  lemma {:induction false} SeenOfData(cs: seq<Piece>)
    ensures Seen(DataEvents(cs) + [End]) == DataEvents(cs) + [End] && !Over(DataEvents(cs))
    decreases cs
  {
    if cs == [] {
      assert DataEvents(cs) + [End] == [End];
    } else {
      SeenOfData(cs[1..]);
      assert (DataEvents(cs) + [End])[1..] == DataEvents(cs[1..]) + [End];
    }
  }

  lemma {:induction false} BodyIsSteady(cs: seq<Piece>)
    requires AllWellFormed(cs)
    ensures Steady(Body(cs))
    decreases cs
  {
    hide Front, PieceText;
    if cs == [] {
      LastChunkFinishes();
      LastChunkLine(LAST_CHUNK);
    } else {
      PieceIsFront(cs[0], Body(cs[1..]));
      BodyIsSteady(cs[1..]);
    }
  }

  /** Every body encoded in chunks, cut anyhow, is read as exactly those chunks and then the end. */
  lemma ChunkedRoundTrip(cs: seq<Piece>, segments: seq<Bytes>)
    requires AllWellFormed(cs) && Flatten(segments) == Body(cs)
    ensures Seen(FeedAll(NEW, segments).events) == DataEvents(cs) + [End]
  {
    BodyIsSteady(cs);
    SegmentsDoNotMatter(segments);
    BodyDrains(cs);
    SeenOfData(cs);
  }

  /** Nothing more is decoded from what a decoding left. */
  lemma DrainIsComplete(b: Bytes)
    requires !Over(Drain(b).events) && Steady(b)
    ensures Drain(Drain(b).rest).events == []
  {
    hide Drain, Over;
    DrainContinues(b, []);
    assert b + [] == b && Drain(b).rest + [] == Drain(b).rest;
  }

  lemma DataEventsStopNothing(cs: seq<Piece>)
    ensures !Stops(DataEvents(cs))
  {
  }

  lemma CloseAfterDraining(b: Bytes, cs: seq<Piece>)
    requires Drain(b).events == DataEvents(cs) && Steady(b)
    ensures Close(Feed(NEW, b)).events == DataEvents(cs) + [End]
  {
    hide Drain, Over;
    SeenOfData(cs);
    DataEventsStopNothing(cs);
    DrainIsComplete(b);
    assert [] + b == b && Drain(b).rest + [] == Drain(b).rest;
    assert DataEvents(cs) + [] == DataEvents(cs);
  }

  /**
    A body cut off before its last chunk ended reads like a complete one: its whole chunks, then the
    end, with no error (section 8 of RFC 9112 has a reader tell such a body incomplete).
   */
  lemma TruncationReadsAsComplete(cs: seq<Piece>, segments: seq<Bytes>, p: nat) returns (k: nat)
    requires AllWellFormed(cs) && p < |Body(cs)| && Flatten(segments) == Body(cs)[..p]
    ensures k <= |cs|
    ensures Seen(Close(FeedAll(NEW, segments)).events) == Seen(FeedAll(NEW, [Body(cs[..k])]).events)
  {
    hide Drain, Steady, Seen, FeedAll, Body, PieceText, Close, Feed;
    k := PartDecodes(cs, p);
    BodyIsSteady(cs);
    assert Body(cs) == Body(cs)[..p] + Body(cs)[p..];
    SteadyBefore(Body(cs)[..p], Body(cs)[p..]);
    SegmentsDoNotMatter(segments);
    CloseAfterDraining(Flatten(segments), cs[..k]);
    SeenOfData(cs[..k]);
    assert [Body(cs[..k])][1..] == [];
    assert Flatten([Body(cs[..k])]) == Body(cs[..k]) + Flatten([]);
    ChunkedRoundTrip(cs[..k], [Body(cs[..k])]);
  }

  // ----- Size lines below zero ------------------------------------------------

  /** `-<digit>` on a line of its own. */
  function Minus(digit: Byte): Bytes {
    [MINUS, digit, CR, LF]
  }

  lemma MinusLine(digit: Byte, body: Bytes)
    requires 48 <= digit <= 57
    ensures var b := Minus(digit) + body;
            IndexOf(b, CRLF) == Some(2) && ChunkSize(b[..2]) == Some(48 - digit as int)
  {
    var b := Minus(digit) + body;
    CrlfAt(b, 0);
    CrlfAt(b, 1);
    CrlfAt(b, 2);
    hide Occurs;
    var line := b[..2];
    assert line == [MINUS, digit];
    assert [MINUS, digit][1..] == [digit] && [digit][1..] == [];
    assert BeforeSemicolon([digit]) == [digit] + BeforeSemicolon([]);
    assert BeforeSemicolon(line) == [MINUS] + BeforeSemicolon([digit]) == line;
    assert LeadingHex([digit], 0) == LeadingHex([], digit as nat - 48);
  }

  /** After a size line `-6` decoding goes on forever, whatever follows. */
  lemma MinusSixNeverEnds(body: Bytes)
    ensures forall n: nat :: Runs(Minus(54) + body, n)
  {
    hide ChunkSize, IndexOf;
    var b := Minus(54) + body;
    MinusLine(54, body);
    StuckIff(b);
    forall n: nat ensures Runs(b, n) {
      StuckRuns(b, n);
    }
  }

  /** A size line `-0` is a last chunk. */
  lemma MinusZeroEnds()
    ensures Drain(Minus(48) + CRLF) == Drained([End], [])
  {
    hide ChunkSize, IndexOf;
    MinusLine(48, CRLF);
  }

  lemma MinusFiveIsFront(body: Bytes)
    ensures var b := Minus(53) + body;
            Front(b) == Chunk(if body == [] then [] else b[4..|b| - 1], b[1..])
  {
    hide ChunkSize, IndexOf;
    MinusLine(53, body);
  }

  /** The first chunk of an encoding holds five bytes and says just that. */
  predicate BeginsWithFive(cs: seq<Piece>) {
    AllWellFormed(cs) && cs != [] && cs[0].line == [53]
  }

  lemma FiveBegins(cs: seq<Piece>) returns (after: Bytes)
    requires BeginsWithFive(cs)
    ensures Body(cs) == [53, CR, LF] + after && [MINUS] + Body(cs) == Minus(53) + after && after != []
    ensures Front([53, CR, LF]).Wait?
  {
    hide Front, ChunkSize;
    var c := cs[0];
    after := c.data + CRLF + Body(cs[1..]);
    assert Body(cs) == [53, CR, LF] + after;
    PartOfPieceWaits(c, 3);
    assert PieceText(c)[..3] == [53, CR, LF];
  }

  lemma MinusFiveAtOnce(cs: seq<Piece>)
    requires BeginsWithFive(cs)
    ensures var b := [MINUS] + Body(cs);
            |b| > 4 && Seen(FeedAll(NEW, [b]).events) == [Data(b[4..|b| - 1])] + (DataEvents(cs) + [End])
  {
    hide Front, Drain, Seen, ChunkSize, AllWellFormed;
    var b := [MINUS] + Body(cs);
    var after := FiveBegins(cs);
    MinusFiveIsFront(after);
    assert b[1..] == Body(cs);
    DrainsOne(b);
    BodyDrains(cs);
    SeenOfData(cs);
    assert [b][1..] == [];
    FeedOnce(b);
    ChunkFirst(b[4..|b| - 1], DataEvents(cs) + [End], []);
  }

  lemma MinusFiveCut(cs: seq<Piece>)
    requires BeginsWithFive(cs)
    ensures var b := [MINUS] + Body(cs);
            |b| > 4 && Seen(FeedAll(NEW, [b[..4], b[4..]]).events) == [Data([])] + (DataEvents(cs) + [End])
  {
    hide Front, Drain, Seen, ChunkSize, AllWellFormed;
    var b := [MINUS] + Body(cs);
    var after := FiveBegins(cs);
    assert b[4..] == after && b[..4] == Minus(53);
    var first := Minus(53);
    MinusFiveIsFront([]);
    assert first == first + [] && first[1..] == [53, CR, LF];
    DrainsOne(first);
    DrainsOne([53, CR, LF]);
    assert Drain(first) == Drained([Data([])], [53, CR, LF]);
    FeedTwice(first, after);
    assert [] + first == first;
    var d := Feed(NEW, first);
    assert d.events == [Data([])] && d.buffer == [53, CR, LF];
    BodyDrains(cs);
    SeenOfData(cs);
    assert Feed(d, after).events == [Data([])] + (DataEvents(cs) + [End]);
    ChunkFirst([], DataEvents(cs) + [End], []);
  }

  /**
    A minus sign before a body whose first chunk holds five bytes: in one segment all that follows the
    line but its last byte is pushed first, cut after the line nothing is.
   */
  lemma MinusFiveReadsUnlike(cs: seq<Piece>)
    requires BeginsWithFive(cs)
    ensures var b := [MINUS] + Body(cs);
            |b| > 4
            && Seen(FeedAll(NEW, [b]).events) == [Data(b[4..|b| - 1])] + (DataEvents(cs) + [End])
            && Seen(FeedAll(NEW, [b[..4], b[4..]]).events) == [Data([])] + (DataEvents(cs) + [End])
  {
    hide *;
    MinusFiveAtOnce(cs);
    MinusFiveCut(cs);
  }

  /** The five bytes of `hello`, announced as `-5`: pushed once or in part twice, as the segments fall. */
  lemma MinusFiveHello()
    ensures var hello := [104, 101, 108, 108, 111];
            var b := [MINUS, 53, CR, LF] + hello + CRLF + LAST_CHUNK;
            Payload(Seen(FeedAll(NEW, [b]).events)) == hello + CRLF + [48, CR, LF, CR] + hello
            && Payload(Seen(FeedAll(NEW, [b[..4], b[4..]]).events)) == hello
  {
    hide Drain, Seen, ChunkSize, FeedAll;
    var hello: Bytes := [104, 101, 108, 108, 111];
    var c := Piece([53], hello);
    assert ChunkSize([53]) == Some(5) by {
      DigitReads(53);
    }
    assert [c][1..] == [] && Body([c]) == PieceText(c) + LAST_CHUNK;
    var b := [MINUS, 53, CR, LF] + hello + CRLF + LAST_CHUNK;
    assert b == [MINUS] + Body([c]);
    MinusFiveReadsUnlike([c]);
    assert DataEvents([c]) == [Data(hello)];
    var first := b[4..|b| - 1];
    assert first == hello + CRLF + [48, CR, LF, CR];
    assert Payload([Data(hello), End]) == hello by {
      assert [Data(hello), End] == [Data(hello)] + [End];
      PayloadJoins([Data(hello)], [End]);
      PayloadOfOne(Data(hello));
      PayloadOfOne(End);
    }
    assert [Data(hello)] + [End] == [Data(hello), End];
    PayloadJoins([Data(first)], [Data(hello), End]);
    PayloadOfOne(Data(first));
    PayloadJoins([Data([])], [Data(hello), End]);
    PayloadOfOne(Data([]));
  }

  lemma DigitReads(digit: Byte)
    requires 48 <= digit <= 57
    ensures ChunkSize([digit]) == Some(digit as int - 48)
  {
    assert [digit][1..] == [];
    assert BeforeSemicolon([digit]) == [digit] + BeforeSemicolon([]);
    assert LeadingHex([digit], 0) == LeadingHex([], digit as nat - 48);
  }

  // ----- Size lines ---------------------------------------------------------

  function HexDigit(n: nat): Byte
    requires n < 16
  {
    if n < 10 then (48 + n) as Byte else (87 + n) as Byte
  }

  /** `n.toString(16)`. */
  function Hex(n: nat): (r: Bytes)
    ensures r != [] && forall i | 0 <= i < |r| :: 48 <= r[i] <= 57 || 97 <= r[i] <= 102
  {
    if n < 16 then [HexDigit(n)] else Hex(n / 16) + [HexDigit(n % 16)]
  }

  lemma {:induction false} LeadingHexJoins(a: Bytes, b: Bytes, sum: nat)
    requires forall i | 0 <= i < |a| :: HexValue(a[i]).Some?
    ensures LeadingHex(a + b, sum) == LeadingHex(b, LeadingHex(a, sum))
    decreases a
  {
    if a == [] {
      assert a + b == b;
    } else {
      assert (a + b)[1..] == a[1..] + b;
      LeadingHexJoins(a[1..], b, 16 * sum + HexValue(a[0]).value);
    }
  }

  lemma OneDigit(n: nat, sum: nat)
    requires n < 16
    ensures LeadingHex([HexDigit(n)], sum) == 16 * sum + n
  {
    assert [HexDigit(n)][1..] == [];
  }

  lemma {:induction false} HexReads(n: nat)
    ensures LeadingHex(Hex(n), 0) == n
  {
    if n < 16 {
      OneDigit(n, 0);
    } else {
      HexReads(n / 16);
      LeadingHexJoins(Hex(n / 16), [HexDigit(n % 16)], 0);
      OneDigit(n % 16, n / 16);
    }
  }

  lemma {:induction false} SemicolonEnds(a: Bytes, extension: Bytes)
    requires SEMICOLON !in a && (extension == [] || extension[0] == SEMICOLON)
    ensures BeforeSemicolon(a + extension) == a
    decreases a
  {
    if a == [] {
      assert a + extension == extension;
    } else {
      assert (a + extension)[1..] == a[1..] + extension;
      SemicolonEnds(a[1..], extension);
      assert a == [a[0]] + a[1..];
    }
  }

  /** The size a sender writes is the size read, whatever chunk extension follows it. */
  lemma SizeLineReads(n: nat, extension: Bytes)
    requires extension == [] || extension[0] == SEMICOLON
    ensures ChunkSize(Hex(n) + extension) == Some(n)
  {
    var h := Hex(n);
    SemicolonEnds(h, extension);
    assert Unblank(h) == h;
    HexReads(n);
    assert |h| >= 2 ==> h[1] != 120 && h[1] != 88;
  }

  /** The body `serializeRequest` writes for a host it sends chunked. */
  function RequestBody(body: Bytes): Bytes {
    Hex(|body|) + CRLF + body + ([CR, LF] + LAST_CHUNK)
  }

  /** A request body written in chunks is read back as it was, however it arrives. */
  lemma RequestBodyReads(body: Bytes, segments: seq<Bytes>)
    requires body != [] && Flatten(segments) == RequestBody(body)
    ensures Seen(FeedAll(NEW, segments).events) == [Data(body), End]
  {
    var c := Piece(Hex(|body|), body);
    SizeLineReads(|body|, []);
    assert Hex(|body|) + [] == Hex(|body|);
    assert WellFormed(c);
    assert [c][1..] == [];
    assert Body([c]) == PieceText(c) + LAST_CHUNK;
    assert RequestBody(body) == Body([c]);
    ChunkedRoundTrip([c], segments);
    assert DataEvents([c]) == [Data(body)];
  }

  // ----- Known length --------------------------------------------------------

  datatype Counter = Counter(remaining: nat, events: seq<Event>)

  function Count(c: Counter, segment: Bytes): Counter {
    if c.remaining == 0 then c
    else
      var taken := Data(segment[..Min(|segment|, c.remaining)]);
      var left := c.remaining - Min(|segment|, c.remaining);
      Counter(left, c.events + [taken] + if left == 0 then [End] else [])
  }

  function CountAll(c: Counter, segments: seq<Bytes>): Counter
    decreases segments
  {
    if segments == [] then c else CountAll(Count(c, segments[0]), segments[1..])
  }

  class ContentLengthStream {
    var remaining: nat
    var events: seq<Event>

    function State(): Counter
      reads this
    {
      Counter(remaining, events)
    }

    constructor (contentLength: nat)
      ensures State() == Counter(contentLength, [])
    {
      remaining, events := contentLength, [];
    }

    method Transform(segment: Bytes)
      modifies this
      ensures State() == Count(old(State()), segment)
    {
      if remaining == 0 {
        return;
      }
      if |segment| <= remaining {
        remaining := remaining - |segment|;
        events := events + [Data(segment)];
        assert segment[..|segment|] == segment;
      } else {
        events := events + [Data(segment[..remaining])];
        remaining := 0;
      }
      if remaining == 0 {
        events := events + [End];
      }
    }
  }

  /** Only data before a last end, which is there exactly once `n` bytes of a nonempty body came. */
  predicate Counts(c: Counter, n: nat, total: Bytes) {
    Payload(c.events) == total[..Min(n, |total|)] && c.remaining == n - Min(n, |total|)
    && (forall i | 0 <= i < |c.events| - 1 :: c.events[i].Data?)
    && (n > 0 && |total| >= n <==> Over(c.events))
    && (Over(c.events) ==> c.events[|c.events| - 1] == End)
  }

  lemma NothingOver(events: seq<Event>)
    ensures (forall i | 0 <= i < |events| :: events[i].Data?) ==> !Over(events)
    ensures events != [] && events[|events| - 1] == End ==> Over(events)
  {
    if events != [] && events[|events| - 1] == End {
      assert Final(events[|events| - 1]);
    }
  }

  lemma CountKeeps(c: Counter, n: nat, total: Bytes, segment: Bytes)
    requires Counts(c, n, total)
    ensures Counts(Count(c, segment), n, total + segment)
  {
    hide Payload;
    if c.remaining > 0 {
      var taken := segment[..Min(|segment|, c.remaining)];
      PayloadJoins(c.events, [Data(taken)]);
      PayloadOfOne(Data(taken));
      PayloadJoins(c.events + [Data(taken)], [End]);
      PayloadOfOne(End);
      assert (total + segment)[..Min(n, |total + segment|)] == total[..Min(n, |total|)] + taken;
      assert forall i | 0 <= i < |c.events| :: c.events[i].Data? by {
        assert c.events != [] ==> !Final(c.events[|c.events| - 1]);
      }
      NothingOver(c.events + [Data(taken)]);
      NothingOver(c.events + [Data(taken)] + [End]);
      assert c.events + [Data(taken)] + [] == c.events + [Data(taken)];
    } else {
      assert (total + segment)[..Min(n, |total + segment|)] == total[..Min(n, |total|)];
    }
  }

  lemma {:induction false} CountAllKeeps(c: Counter, n: nat, total: Bytes, segments: seq<Bytes>)
    requires Counts(c, n, total)
    ensures Counts(CountAll(c, segments), n, total + Flatten(segments))
    decreases segments
  {
    hide Counts, Count;
    if segments == [] {
      assert total + [] == total;
    } else {
      CountKeeps(c, n, total, segments[0]);
      CountAllKeeps(Count(c, segments[0]), n, total + segments[0], segments[1..]);
      assert total + Flatten(segments) == (total + segments[0]) + Flatten(segments[1..]);
    }
  }

  /**
    However a response of a known length arrives: exactly its first `n` bytes are emitted, and it ends
    by itself, once and last, exactly when they are complete and `n` is not 0.
   */
  lemma ExactlyTheLength(n: nat, segments: seq<Bytes>)
    ensures var c := CountAll(Counter(n, []), segments);
            var total := Flatten(segments);
            Payload(c.events) == total[..Min(n, |total|)]
            && (Over(c.events) <==> n > 0 && |total| >= n)
            && (Over(c.events) ==> c.events[|c.events| - 1] == End)
            && (Over(c.events) ==> forall i | 0 <= i < |c.events| - 1 :: c.events[i].Data?)
  {
    hide CountAll;
    assert Counts(Counter(n, []), n, []);
    CountAllKeeps(Counter(n, []), n, [], segments);
    assert [] + Flatten(segments) == Flatten(segments);
  }

  /** The source ended: the stream has no flush of its own and just ends. */
  function CloseCount(c: Counter): Counter {
    c.(events := c.events + [End])
  }

  lemma {:induction false} SeenOfDataThenEnd(events: seq<Event>)
    requires forall i | 0 <= i < |events| :: events[i].Data?
    ensures Seen(events + [End]) == events + [End]
    decreases events
  {
    if events == [] {
      assert events + [End] == [End];
    } else {
      SeenOfDataThenEnd(events[1..]);
      assert (events + [End])[1..] == events[1..] + [End];
    }
  }

  /**
    A response whose source ends early is read like a complete one: all bytes that came, up to the
    declared length, then one end and no error.
   */
  lemma ShortBodyReadsAsComplete(n: nat, segments: seq<Bytes>)
    ensures var total := Flatten(segments);
            var seen := Seen(CloseCount(CountAll(Counter(n, []), segments)).events);
            Payload(seen) == total[..Min(n, |total|)]
            && seen != [] && seen[|seen| - 1] == End && forall i | 0 <= i < |seen| - 1 :: seen[i].Data?
  {
    hide CountAll, Payload, Seen;
    var events := CountAll(Counter(n, []), segments).events;
    ExactlyTheLength(n, segments);
    if Over(events) {
      SeenOfOver(events, [End]);
      var data := events[..|events| - 1];
      assert events == data + [End];
      SeenOfDataThenEnd(data);
    } else {
      assert forall i | 0 <= i < |events| :: !Final(events[i]);
      SeenOfDataThenEnd(events);
      PayloadJoins(events, [End]);
      PayloadOfOne(End);
    }
  }

  // ----- The response head ----------------------------------------------------

  lemma EmptyHasNone(mark: Bytes)
    requires mark != []
    ensures IndexOf([], mark).None?
  {
  }

  datatype Head = Head(head: Bytes, leftover: Bytes)

  /** Concatenates segments until the blank line shows; `used` counts the segments taken. */
  method WaitForHead(segments: seq<Bytes>) returns (r: Option<Head>, used: nat)
    ensures used <= |segments|
    ensures var marker := IndexOf(Flatten(segments), HEAD_END);
            if marker.None? then r.None?
            else
              r.Some? && r.value.head == Flatten(segments)[..marker.value]
              && r.value.leftover + Flatten(segments[used..]) == Flatten(segments)[marker.value + 4..]
  {
    hide IndexOf;
    var buffer: Bytes := [];
    used := 0;
    EmptyHasNone(HEAD_END);
    while used < |segments|
      invariant 0 <= used <= |segments|
      invariant buffer + Flatten(segments[used..]) == Flatten(segments)
      invariant IndexOf(buffer, HEAD_END).None?
    {
      ghost var rest := segments[used..];
      assert rest[1..] == segments[used + 1..];
      buffer := buffer + segments[used];
      used := used + 1;
      var marker := IndexOf(buffer, HEAD_END);
      if marker.Some? {
        ghost var later := Flatten(segments[used..]);
        assert buffer + later == Flatten(segments);
        IndexIsStable(buffer, later, HEAD_END);
        assert (buffer + later)[..marker.value] == buffer[..marker.value];
        assert (buffer + later)[marker.value + 4..] == buffer[marker.value + 4..] + later;
        return Some(Head(buffer[..marker.value], buffer[marker.value + 4..])), used;
      }
    }
    assert buffer == Flatten(segments);
    return None, used;
  }
}
