// Chunked bodies, as in section 3.6.1 of RFC 2616, and where the headers lead.
module HttpChunks {
  import opened Options
  import opened HttpTypes
  import opened HttpStep
  import opened HttpReference
  import opened HttpBody
  import opened HttpHeaders
  import opened HttpStories

  // ----- chunks -----

  datatype Chunk = Chunk(size: seq<Octet>, extension: seq<Octet>, data: seq<Octet>)

  // The size line of a chunk: digits, and perhaps parameters.
  predicate SizeLineOk(c: Chunk) {
    && AllDigits(16, c.size) && Number(16, c.size) == |c.data| < UNKNOWN_LENGTH
    && CR !in c.extension && (c.extension != [] ==> c.extension[0] == ';' || c.extension[0] == ' ')
    && |c.size| + |c.extension| + 2 <= MAX_HEADER_SIZE
  }

  function SizeLine(c: Chunk): seq<Octet> { c.size + c.extension + CRLF }

  function Wire(c: Chunk): seq<Octet> { SizeLine(c) + c.data + CRLF }

  lemma ChunkByte(cfg: Config, p: Parser, ch: Octet)
    requires p.errno == OK && !TooLong(p) && ChunkState(p.state)
    ensures var o := StepChunk(cfg, Counted(p), ch); o.Next? ==> OneByte(cfg, p, ch) == Fed(o.p, Tell(o.act) + Own(o.p.state, ch), 1, More)
  {
    hide OneByte, StepStart, StepResponse, StepStatus, StepMethod, StepUrl, StepRequest, StepField, StepValue, StepEnd, StepChunk, Shaped;
    assert Once(cfg, Counted(p), ch) == StepChunk(cfg, Counted(p), ch);
    if StepChunk(cfg, Counted(p), ch).Next? { NextByte(cfg, p, ch); }
  }

  predicate AtChunk(p: Parser) { p.errno == OK && p.state.ChunkSizeStart? && Chunked in p.flags && p.nread == 0 }

  // The parser after the digits of a chunk size.
  function Sizing(p: Parser, n: nat, size: nat): Parser { p.(state := ChunkSize, nread := n, contentLength := size) }

  lemma {:induction false} SizeFed(cfg: Config, p: Parser, ds: seq<Octet>)
    requires AtChunk(p) && AllDigits(16, ds) && |ds| <= MAX_HEADER_SIZE
    ensures var r := Feed(cfg, p, ds); r.end.More? ==> r.log == [] && r.p == Sizing(p, |ds|, r.p.contentLength) && r.p.contentLength < UNKNOWN_LENGTH
  {
    hide OneByte, LengthDigit, StepChunk, Number;
    var n := |ds| - 1;
    var v, ch := ds[..n], ds[n];
    assert ds == v + [ch];
    if n == 0 {
      assert Feed(cfg, p, v) == Fed(p, [], 0, More);
      SizeDigitRead(cfg, p, ch);
    } else {
      SizeFed(cfg, p, v);
      var q := Feed(cfg, p, v);
      if q.end.More? { SizeDigitRead(cfg, q.p, ch); }
    }
  }

  // A chunk size is read as its number if and only if it is below 2^64 - 1.
  lemma SizeRead(cfg: Config, p: Parser, ds: seq<Octet>)
    requires AtChunk(p) && AllDigits(16, ds) && |ds| <= MAX_HEADER_SIZE
    ensures var r := Feed(cfg, p, ds);
      r == Fed(Sizing(p, |ds|, Number(16, ds)), [], |ds|, More) <==> Number(16, ds) < UNKNOWN_LENGTH
  {
    SizeFed(cfg, p, ds);
    if Number(16, ds) < UNKNOWN_LENGTH { SizeExact(cfg, p, ds); }
  }

  lemma {:induction false} SizeExact(cfg: Config, p: Parser, ds: seq<Octet>)
    requires AtChunk(p) && AllDigits(16, ds) && Number(16, ds) < UNKNOWN_LENGTH && |ds| <= MAX_HEADER_SIZE
    ensures Feed(cfg, p, ds) == Fed(Sizing(p, |ds|, Number(16, ds)), [], |ds|, More)
  {
    hide OneByte, LengthDigit, StepChunk;
    var n := |ds| - 1;
    var v, ch := ds[..n], ds[n];
    assert ds == v + [ch];
    if n == 0 {
      assert Feed(cfg, p, v) == Fed(p, [], 0, More);
      assert Number(16, v) == 0;
      SizeDigitRead(cfg, p, ch);
    } else {
      PrefixIsSmaller(16, ds);
      SizeExact(cfg, p, v);
      LengthDigitExact(Number(16, v), 16, Unhex(ch).value);
      SizeDigitRead(cfg, Feed(cfg, p, v).p, ch);
    }
  }

  lemma SizeDigitRead(cfg: Config, p: Parser, ch: Octet)
    requires p.errno == OK && Chunked in p.flags && p.nread < MAX_HEADER_SIZE && Unhex(ch).Some? && (p.state.ChunkSize? || AtChunk(p))
    ensures var t := if p.state.ChunkSize? then LengthDigit(p.contentLength, 16, Unhex(ch).value) else Some(Unhex(ch).value);
      var r := OneByte(cfg, p, ch);
      if t == None then !r.end.More? else r == Fed(Sizing(p, p.nread + 1, t.value), [], 1, More)
  {
    hide OneByte, LengthDigit;
    ChunkByte(cfg, p, ch);
    NoHexReturn(ch);
    if p.state.ChunkSize? && LengthDigit(p.contentLength, 16, Unhex(ch).value) == None { ChunkFails(cfg, p, ch); }
  }

  lemma NoHexReturn(ch: Octet)
    requires Unhex(ch).Some?
    ensures ch != CR && Unhex(ch).value < 16
  {
  }

  lemma ChunkFails(cfg: Config, p: Parser, ch: Octet)
    requires p.errno == OK && !TooLong(p) && ChunkState(p.state) && StepChunk(cfg, Counted(p), ch).Fail?
    ensures !OneByte(cfg, p, ch).end.More?
  {
    hide OneByte, StepChunk;
    Dispatch(cfg, Counted(p), ch);
    FailByte(cfg, p, ch);
  }

  lemma {:induction false} ExtensionRead(cfg: Config, p: Parser, e: seq<Octet>)
    requires p.errno == OK && p.state.ChunkSize? && Chunked in p.flags && p.nread + |e| <= MAX_HEADER_SIZE
    requires e != [] && CR !in e && (e[0] == ';' || e[0] == ' ')
    ensures Feed(cfg, p, e) == Fed(p.(state := ChunkParameters, nread := p.nread + |e|), [], |e|, More)
  {
    hide OneByte;
    var n := |e| - 1;
    assert e[n] in e;
    if n == 0 {
      assert Feed(cfg, p, e[..0]) == Fed(p, [], 0, More);
      ExtensionByte(cfg, p, e[0]);
    } else {
      ExtensionRead(cfg, p, e[..n]);
      ExtensionByte(cfg, Feed(cfg, p, e[..n]).p, e[n]);
    }
  }

  lemma ExtensionByte(cfg: Config, p: Parser, ch: Octet)
    requires p.errno == OK && Chunked in p.flags && p.nread < MAX_HEADER_SIZE && ch != CR
    requires p.state.ChunkParameters? || (p.state.ChunkSize? && (ch == ';' || ch == ' '))
    ensures OneByte(cfg, p, ch) == Fed(p.(state := ChunkParameters, nread := p.nread + 1), [], 1, More)
  {
    hide OneByte;
    ChunkByte(cfg, p, ch);
  }

  // The parser after the size line of a chunk.
  function SizeTaken(p: Parser, size: nat): Parser {
    if size == 0 then p.(nread := 0, contentLength := 0, flags := p.flags + {Trailing}, state := HeaderFieldStart)
    else p.(nread := 0, contentLength := size, state := ChunkData)
  }

  lemma LineEnd(cfg: Config, p: Parser)
    requires p.errno == OK && (p.state.ChunkSize? || p.state.ChunkParameters?) && Chunked in p.flags && p.nread + 2 <= MAX_HEADER_SIZE
    ensures Feed(cfg, p, CRLF) == Fed(SizeTaken(p, p.contentLength), [], 2, More)
  {
    hide OneByte, Feed;
    var q := p.(nread := p.nread + 1, state := ChunkSizeAlmostDone);
    ChunkByte(cfg, p, CR);
    ChunkByte(cfg, q, LF);
    Single(cfg, p, CR);
    Single(cfg, q, LF);
    Then(cfg, p, [CR], q, [], [LF], SizeTaken(p, p.contentLength), []);
    assert [CR] + [LF] == CRLF;
  }

  lemma SizeLineRead(cfg: Config, p: Parser, c: Chunk)
    requires AtChunk(p) && SizeLineOk(c)
    ensures Feed(cfg, p, SizeLine(c)) == Fed(SizeTaken(p, |c.data|), [], |SizeLine(c)|, More)
  {
    hide Feed, AllDigits, Number;
    var q := p.(state := ChunkSize, nread := |c.size|, contentLength := |c.data|);
    SizeRead(cfg, p, c.size);
    var r := if c.extension == [] then q else q.(state := ChunkParameters, nread := q.nread + |c.extension|);
    if c.extension == [] {
      assert c.size + c.extension == c.size;
    } else {
      ExtensionRead(cfg, q, c.extension);
      Then(cfg, p, c.size, q, [], c.extension, r, []);
    }
    LineEnd(cfg, r);
    Then(cfg, p, c.size + c.extension, r, [], CRLF, SizeTaken(r, r.contentLength), []);
  }

  lemma ChunkEnd(cfg: Config, p: Parser)
    requires p.errno == OK && p.state.ChunkDataAlmostDone? && Chunked in p.flags && p.contentLength == 0
    ensures Feed(cfg, p, CRLF) == Fed(p.(nread := 0, state := ChunkSizeStart), [], 2, More)
  {
    hide OneByte, Feed;
    var q := p.(state := ChunkDataDone);
    ChunkByte(cfg, p, CR);
    ChunkByte(cfg, q, LF);
    Single(cfg, p, CR);
    Single(cfg, q, LF);
    Then(cfg, p, [CR], q, [], [LF], p.(nread := 0, state := ChunkSizeStart), []);
    assert [CR] + [LF] == CRLF;
  }

  // A chunk of at least one byte.
  lemma ChunkRead(cfg: Config, p: Parser, c: Chunk)
    requires AtChunk(p) && SizeLineOk(c) && c.data != []
    ensures Feed(cfg, p, Wire(c)) == Fed(p.(contentLength := 0), Bytes(Body, c.data), |Wire(c)|, More)
  {
    hide Feed, SizeLine, SizeLineOk;
    SizeLineRead(cfg, p, c);
    var q := SizeTaken(p, |c.data|);
    var r := q.(contentLength := 0, state := ChunkDataAlmostDone);
    SizeFits(c);
    FeedBody(cfg, q, c.data);
    assert Bytes(Body, c.data) + [] == Bytes(Body, c.data);
    Then(cfg, p, SizeLine(c), q, [], c.data, r, Bytes(Body, c.data));
    assert [] + Bytes(Body, c.data) == Bytes(Body, c.data);
    ChunkEnd(cfg, r);
    Then(cfg, p, SizeLine(c) + c.data, r, Bytes(Body, c.data), CRLF, p.(contentLength := 0), []);
  }

  lemma SizeFits(c: Chunk)
    requires SizeLineOk(c)
    ensures |c.data| < UNKNOWN_LENGTH
  {
  }

  // ----- all chunks of a body -----

  predicate AllOk(cs: seq<Chunk>) { forall i :: 0 <= i < |cs| ==> SizeLineOk(cs[i]) && cs[i].data != [] }

  function Wires(cs: seq<Chunk>): seq<Octet> {
    if cs == [] then [] else Wires(cs[..|cs| - 1]) + Wire(cs[|cs| - 1])
  }

  function Contents(cs: seq<Chunk>): seq<Octet> {
    if cs == [] then [] else Contents(cs[..|cs| - 1]) + cs[|cs| - 1].data
  }

  lemma {:induction false} BytesCat(k: DataKind, a: seq<Octet>, b: seq<Octet>)
    ensures Bytes(k, a + b) == Bytes(k, a) + Bytes(k, b)
  {
    if b == [] {
      assert a + b == a;
    } else {
      var n := |b| - 1;
      BytesCat(k, a, b[..n]);
      assert (a + b)[..|a| + n] == a + b[..n];
    }
  }

  lemma {:induction false} ChunksRead(cfg: Config, p: Parser, cs: seq<Chunk>)
    requires AtChunk(p) && AllOk(cs)
    ensures Feed(cfg, p, Wires(cs)) == Fed(if cs == [] then p else p.(contentLength := 0), Bytes(Body, Contents(cs)), |Wires(cs)|, More)
  {
    hide OneByte, Wire, SizeLineOk;
    if cs != [] {
      var n := |cs| - 1;
      ChunksRead(cfg, p, cs[..n]);
      var q := if n == 0 then p else p.(contentLength := 0);
      ChunkRead(cfg, q, cs[n]);
      BytesCat(Body, Contents(cs[..n]), cs[n].data);
      Then(cfg, p, Wires(cs[..n]), q, Bytes(Body, Contents(cs[..n])), Wire(cs[n]), p.(contentLength := 0), Bytes(Body, cs[n].data));
    }
  }

  // The same first line.
  predicate SameStart(p: Parser, q: Parser) {
    p.kind == q.kind && p.verb == q.verb && p.major == q.major && p.minor == q.minor && p.status == q.status
  }

  // The last chunk, of size zero, with headers and the empty line behind it.
  function Ending(last: Chunk, trailers: seq<Header>): seq<Octet> { SizeLine(last) + (HeadersBytes(trailers) + CRLF) }

  predicate EndingOk(last: Chunk, trailers: seq<Header>) {
    SizeLineOk(last) && last.data == [] && HeadersOk(trailers) && |HeadersBytes(trailers)| + 2 <= MAX_HEADER_SIZE
  }

  // A parser behind the last line feed of a chunked message.
  ghost predicate ChunksDone(cfg: Config, p: Parser, trailers: seq<Header>, q: Parser) {
    && q.errno == OK && SameStart(p, q) && q.state == NewMessage(cfg, q) && q.heads == p.heads
    && q.flags == FlagsAfter(p.flags + {Trailing}, trailers) && q.nread == |HeadersBytes(trailers)| + 2
  }

  lemma LastChunkRead(cfg: Config, p: Parser, last: Chunk, trailers: seq<Header>)
    requires AtChunk(p) && EndingOk(last, trailers)
    ensures var r := Feed(cfg, p, Ending(last, trailers));
      r.end.More? && ChunksDone(cfg, p, trailers, r.p) && r.log == HeadersEvents(trailers) + [Notify(MessageComplete)]
  {
    hide Feed, SizeLine, SizeLineOk, HeadersBytes, HeadersOk, HeadersEvents, FlagsAfter, NewMessage;
    SizeLineRead(cfg, p, last);
    var q := SizeTaken(p, 0);
    var b := HeadersBytes(trailers) + CRLF;
    TrailersRead(cfg, q, trailers);
    FeedUsed(cfg, q, b);
    Then(cfg, p, SizeLine(last), q, [], b, Feed(cfg, q, b).p, Feed(cfg, q, b).log);
    assert [] + Feed(cfg, q, b).log == Feed(cfg, q, b).log;
    assert q.flags + {Trailing} == p.flags + {Trailing};
  }

  // Headers behind the last chunk are read as headers, and end the message.
  lemma TrailersRead(cfg: Config, p: Parser, trailers: seq<Header>)
    requires p.errno == OK && p.state.HeaderFieldStart? && Trailing in p.flags && HeadersOk(trailers)
    requires p.nread == 0 && |HeadersBytes(trailers)| + 2 <= MAX_HEADER_SIZE
    ensures var r := Feed(cfg, p, HeadersBytes(trailers) + CRLF);
      r.end.More? && ChunksDone(cfg, p, trailers, r.p) && r.log == HeadersEvents(trailers) + [Notify(MessageComplete)]
  {
    hide Feed, OneByte, HeadersBytes, HeadersOk, HeadersEvents, FlagsAfter, LengthAfter, NewMessage;
    var hs, note := HeadersBytes(trailers), [Notify(MessageComplete)];
    HeadersRead(cfg, p, trailers);
    FlagsGrow(p.flags, trailers);
    FeedUsed(cfg, p, hs);
    var q := Feed(cfg, p, hs).p;
    var s := q.(state := HeadersAlmostDone, nread := q.nread + 1);
    LastReturn(cfg, q);
    TrailerFeed(cfg, s);
    Single(cfg, s, LF);
    Then(cfg, q, [CR], s, [], [LF], OneByte(cfg, s, LF).p, note);
    assert [CR] + [LF] == CRLF && [] + note == note;
    Then(cfg, p, hs, q, HeadersEvents(trailers), CRLF, OneByte(cfg, s, LF).p, note);
    assert p.flags + {Trailing} == p.flags;
    StateIsFree(cfg, s.(nread := s.nread + 1));
  }

  // How the parser goes on does not depend on its state.
  lemma StateIsFree(cfg: Config, p: Parser)
    ensures NewMessage(cfg, p.(state := NewMessage(cfg, p))) == NewMessage(cfg, p)
  {
  }

  lemma TrailerFeed(cfg: Config, p: Parser)
    requires p.errno == OK && p.state.HeadersAlmostDone? && Trailing in p.flags && p.nread < MAX_HEADER_SIZE
    ensures var r := p.(nread := p.nread + 1); OneByte(cfg, p, LF) == Fed(r.(state := NewMessage(cfg, r)), [Notify(MessageComplete)], 1, More)
  {
    hide OneByte, Once, Shaped, NewMessage;
    Dispatch(cfg, Counted(p), LF);
    NextByte(cfg, p, LF);
  }

  // A chunked body: whatever the sizes and the parameters, the application
  // gets exactly the contents, then the headers behind them, and then one end
  // of message.
  lemma ChunkedBody(cfg: Config, p: Parser, cs: seq<Chunk>, last: Chunk, trailers: seq<Header>)
    requires AtChunk(p) && AllOk(cs) && EndingOk(last, trailers)
    ensures var r := Feed(cfg, p, Wires(cs) + Ending(last, trailers));
      && r.end.More? && ChunksDone(cfg, p, trailers, r.p)
      && r.log == Bytes(Body, Contents(cs)) + (HeadersEvents(trailers) + [Notify(MessageComplete)])
      && Story(r.log) == (if cs == [] then [] else [Data(Body, Contents(cs))]) + HeadersTold(trailers) + [Notify(MessageComplete)]
  {
    hide Feed, Story, Ending, EndingOk, AllOk, HeadersEvents, HeadersTold, NewMessage, FlagsAfter, HeadersBytes;
    ChunksRead(cfg, p, cs);
    var q := if cs == [] then p else p.(contentLength := 0);
    LastChunkRead(cfg, q, last, trailers);
    var b := Ending(last, trailers);
    FeedUsed(cfg, q, b);
    Then(cfg, p, Wires(cs), q, Bytes(Body, Contents(cs)), b, Feed(cfg, q, b).p, Feed(cfg, q, b).log);
    WholeStory(cs, last, trailers);
  }

  lemma WholeStory(cs: seq<Chunk>, last: Chunk, trailers: seq<Header>)
    requires AllOk(cs) && EndingOk(last, trailers)
    ensures Story(Bytes(Body, Contents(cs)) + (HeadersEvents(trailers) + [Notify(MessageComplete)]))
      == (if cs == [] then [] else [Data(Body, Contents(cs))]) + HeadersTold(trailers) + [Notify(MessageComplete)]
  {
    hide Story, Contents, HeadersEvents, HeadersTold, HeadersOk, SizeLineOk, Distinct;
    var b, note := Contents(cs), [Notify(MessageComplete)];
    var told := if cs == [] then [] else [Data(Body, b)];
    ContentsStory(cs, told);
    StoryCat(Bytes(Body, b), told, HeadersEvents(trailers) + note);
    assert told + (HeadersEvents(trailers) + note) == told + HeadersEvents(trailers) + note;
    HeadersWithin(told, trailers, note);
    ShortIsDistinct(told);
    HeadersDistinct(told, trailers);
    DistinctSnoc(told + HeadersTold(trailers), note[0]);
    StoryOfDistinct(told + HeadersTold(trailers) + note);
  }

  lemma ContentsStory(cs: seq<Chunk>, told: seq<Event>)
    requires AllOk(cs) && told == if cs == [] then [] else [Data(Body, Contents(cs))]
    ensures Story(Bytes(Body, Contents(cs))) == Story(told)
  {
    hide Story;
    var b := Contents(cs);
    if cs != [] {
      assert cs[|cs| - 1].data != [];
      StoryBytes([], Body, b);
      assert [] + Bytes(Body, b) == Bytes(Body, b) && [] + told == told;
    }
  }

  lemma ShortIsDistinct(log: seq<Event>)
    requires |log| <= 1
    ensures Distinct(log)
  {
  }

  // ----- from the headers to the body -----

  // The line feed that ends the headers: the application is told and may say
  // that there is no body, and the fields decide how the message goes on.
  lemma HeadersEnd(cfg: Config, p: Parser)
    requires p.errno == OK && p.state.HeadersAlmostDone? && p.nread < MAX_HEADER_SIZE && Trailing !in p.flags
    ensures var o := AfterHeaders(cfg, CompleteHeaders(cfg, p).(nread := 0));
      && (o.Next? ==> OneByte(cfg, p, LF) == Fed(o.p, [Notify(HeadersComplete)] + Tell(o.act), 1, More))
      && (o.Exit? ==> OneByte(cfg, p, LF) == Fed(o.p, [Notify(HeadersComplete)] + Tell(o.act), 1, Upgraded))
  {
    hide OneByte, Once, Switch, Shaped, NewMessage, AfterHeaders;
    var q := Counted(p);
    var head := CompleteHeaders(cfg, q);
    Dispatch(cfg, q, LF);
    SwitchAgain(cfg, q, LF);
    Dispatch(cfg, head, LF);
    assert head.(nread := 0) == CompleteHeaders(cfg, p).(nread := 0);
    NoDataAfter(cfg, head.(nread := 0), LF);
    SwitchLast(cfg, head, LF);
    OneByteCases(cfg, p, LF);
  }

  lemma NoDataAfter(cfg: Config, p: Parser, ch: Octet)
    requires p.errno == OK
    ensures var o := AfterHeaders(cfg, p); (o.Next? || o.Exit?) && Tell(o.act) + Own(o.p.state, ch) == Tell(o.act)
  {
    hide NewMessage;
  }
}
