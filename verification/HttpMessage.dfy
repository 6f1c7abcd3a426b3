// Whole messages, from the first line to the end of the body.
module HttpMessage {
  import opened HttpTypes
  import opened HttpStep
  import opened HttpReference
  import opened HttpExecute
  import opened HttpBody
  import opened HttpLines
  import opened HttpHeaders
  import opened HttpStories
  import opened HttpChunks
  import opened HttpStarts

  // ----- messages -----

  // Handover: what follows the headers belongs to another protocol.
  datatype Body =
    | NoBody
    | Sized(bytes: seq<Octet>)
    | InChunks(chunks: seq<Chunk>, last: Chunk, trailers: seq<Header>)
    | UntilEof(bytes: seq<Octet>)
    | Handover

  // eol ends the headers.
  datatype Message = Message(start: Start, headers: seq<Header>, eol: Eol, body: Body)

  // A request, or a response whose status has no body.
  predicate Bodiless(strict: bool, s: Start)
    requires StartOk(strict, s)
  {
    s.Answers? ==> var code := Number(10, s.status.code); code / 100 == 1 || code == 204 || code == 304
  }

  // How a message goes on when its headers have had this effect; skip: the
  // application says that there is no body.
  predicate Announces(strict: bool, s: Start, flags: set<Flag>, length: nat, skip: bool, b: Body)
    requires StartOk(strict, s)
  {
    if Upgrade in flags || (s.Asks? && s.line.verb == CONNECT) then b.Handover?
    else if skip then b.NoBody?
    else if Chunked in flags then b.InChunks? && AllOk(b.chunks) && EndingOk(b.last, b.trailers)
    else if length == 0 then b.NoBody?
    else if length != UNKNOWN_LENGTH then b.Sized? && |b.bytes| == length
    else if Bodiless(strict, s) then b.NoBody?
    else b.UntilEof?
  }

  predicate MessageOk(strict: bool, skip: bool, m: Message) {
    && StartOk(strict, m.start) && HeadersOk(m.headers)
    && Announces(strict, m.start, FlagsAfter({}, m.headers), LengthAfter(UNKNOWN_LENGTH, m.headers), skip, m.body)
  }

  function HeadBytes(m: Message): seq<Octet> { HeadFirst(m) + [LF] }

  // The head up to its last line feed.
  function HeadFirst(m: Message): seq<Octet> { StartBytes(m.start) + HeadersBytes(m.headers) + if m.eol.CrLf? then [CR] else [] }

  function BodyBytes(b: Body): seq<Octet> {
    match b
    case NoBody => []
    case Sized(bytes) => bytes
    case InChunks(cs, last, trailers) => HttpChunks.Wires(cs) + Ending(last, trailers)
    case UntilEof(bytes) => bytes
    case Handover => []
  }

  function BodyContents(b: Body): seq<Octet> {
    match b
    case NoBody => []
    case Sized(bytes) => bytes
    case InChunks(cs, _, _) => Contents(cs)
    case UntilEof(bytes) => bytes
    case Handover => []
  }

  function Trailers(b: Body): seq<Header> { if b.InChunks? then b.trailers else [] }

  function BodyTold(b: Body): (r: seq<Event>)
    ensures |r| <= 1
  {
    if BodyContents(b) == [] then [] else [Data(DataKind.Body, BodyContents(b))]
  }

  // What the application should be told of a message, but for its end.
  function Heard(m: Message): seq<Event> {
    StartTold(m.start) + HeadersTold(m.headers) + [Notify(HeadersComplete)] + BodyTold(m.body) + HeadersTold(Trailers(m.body))
  }

  // ----- the head -----

  // Only effects of headers are in the flags.
  lemma {:induction false} FlagsOfLines(h: HeaderState, ls: seq<Line>)
    ensures LinesFlags(h, ls) <= {Upgrade, Chunked, KeepAlive, Close}
  {
    hide IsWord, KindAfter;
    if ls != [] { FlagsOfLines(h, ls[..|ls| - 1]); }
  }

  lemma {:induction false} FlagsOfHeaders(flags: set<Flag>, hs: seq<Header>)
    ensures FlagsAfter(flags, hs) <= flags + {Upgrade, Chunked, KeepAlive, Close}
  {
    hide LinesFlags;
    if hs != [] {
      var h := hs[|hs| - 1];
      FlagsOfHeaders(flags, hs[..|hs| - 1]);
      FlagsOfLines(KindOf(h), h.lines);
    }
  }

  // Flags set before the headers stay.
  lemma {:induction false} FlagsJoin(flags: set<Flag>, more: set<Flag>, hs: seq<Header>)
    ensures FlagsAfter(flags + more, hs) == FlagsAfter(flags, hs) + more
  {
    hide HeaderFlags;
    if hs != [] { FlagsJoin(flags, more, hs[..|hs| - 1]); }
  }

  // What the byte-at-a-time parser tells up to the end of the headers.
  function HeadEvents(m: Message): seq<Event> { StartEvents(m.start) + HeadersEvents(m.headers) }

  // The headers up to the last line feed, from which on it does not matter
  // whether a carriage return came before it.
  lemma HeadRead(cfg: Config, p: Parser, m: Message)
    requires Awaits(p, m.start) && StartOk(cfg.strict, m.start) && HeadersOk(m.headers) && p.nread + |HeadBytes(m)| <= MAX_HEADER_SIZE
    ensures var b := HeadFirst(m);
      var f := Feed(cfg, p, b);
      && f == Fed(f.p, HeadEvents(m), |b|, More) && f.p.errno == OK && f.p.nread == p.nread + |b|
      && (f.p.state.HeadersAlmostDone? || (m.eol.BareLf? && (f.p.state.HeaderFieldStart? || f.p.state.HeaderValueLws?)))
      && f.p.heads == p.heads && Carries(f.p, cfg.strict, m.start)
      && f.p.flags == FlagsAfter({}, m.headers) && f.p.contentLength == LengthAfter(UNKNOWN_LENGTH, m.headers)
  {
    hide Feed, OneByte, StartOk, HeadersOk, Number, StartBytes, HeadersBytes, FlagsAfter, LengthAfter, StartEvents, HeadersEvents, MajorNumber, MinorNumber;
    StartRead(cfg, p, m.start);
    var line, hs := StartBytes(m.start), HeadersBytes(m.headers);
    var q := Feed(cfg, p, line).p;
    HeadersRead(cfg, q, m.headers);
    FeedUsed(cfg, q, hs);
    var s := Feed(cfg, q, hs).p;
    Then(cfg, p, line, q, StartEvents(m.start), hs, s, HeadersEvents(m.headers));
    if m.eol.CrLf? {
      LastReturn(cfg, s);
      Then(cfg, p, line + hs, s, HeadEvents(m), [CR], s.(state := HeadersAlmostDone, nread := s.nread + 1), []);
      assert HeadEvents(m) + [] == HeadEvents(m);
    } else {
      assert line + hs + [] == line + hs;
    }
  }

  // ----- the body -----

  function EndNotes(b: Body): seq<Event> { if b.UntilEof? then [] else [Notify(MessageComplete)] }

  // What the byte-at-a-time parser tells from the end of the headers on.
  function RestEvents(b: Body): seq<Event> {
    [Notify(HeadersComplete)] + (Bytes(DataKind.Body, BodyContents(b)) + (HeadersEvents(Trailers(b)) + EndNotes(b)))
  }

  // A parser that stands before the last line feed of the headers of s.
  ghost predicate AtBody(cfg: Config, p: Parser, s: Start, b: Body)
    requires StartOk(cfg.strict, s)
  {
    && p.errno == OK && p.state.HeadersAlmostDone? && p.nread < MAX_HEADER_SIZE && p.flags !! {Trailing, SkipBody}
    && p.contentLength <= UNKNOWN_LENGTH && Carries(p, cfg.strict, s) && Announces(cfg.strict, s, p.flags, p.contentLength, cfg.skips(p.heads), b)
  }

  // The header bytes counted behind the body.
  function TailCount(b: Body): nat { if b.InChunks? then |HeadersBytes(b.trailers)| + 2 else 0 }

  function SkipFlags(skip: bool): set<Flag> { if skip then {SkipBody} else {} }

  function TailFlags(b: Body): set<Flag> { if b.InChunks? then {Trailing} else {} }

  // The parser q behind a message with body b, whose headers ended at p; the
  // body of a response may go on until the connection is closed.
  ghost predicate Behind(cfg: Config, p: Parser, b: Body, q: Parser) {
    && q.errno == OK && q.heads == p.heads + 1 && SameStart(p, q)
    && if b.UntilEof? then q.state.BodyIdentityEof?
       else
         && q.state == NewMessage(cfg, q) && q.nread == TailCount(b)
         && q.flags == FlagsAfter(p.flags + SkipFlags(cfg.skips(p.heads)) + TailFlags(b), Trailers(b))
         && (b.Sized? ==> q.contentLength == 0) && (b.NoBody? || b.Handover? ==> q.contentLength == p.contentLength)
  }

  ghost predicate BodyFed(cfg: Config, p: Parser, f: Fed, b: Body) {
    && f.end == (if b.Handover? then Upgraded else More) && f.used == 1 + |BodyBytes(b)| && f.log == RestEvents(b)
    && Behind(cfg, p, b, f.p)
  }

  // Where the last line feed of the headers leads.
  lemma Turn(cfg: Config, p: Parser, s: Start, b: Body)
    requires StartOk(cfg.strict, s) && AtBody(cfg, p, s, b)
    ensures var o := AfterHeaders(cfg, CompleteHeaders(cfg, p).(nread := 0));
      && o.p.errno == OK && SameStart(p, o.p) && o.p.heads == p.heads + 1 && o.p.nread == 0
      && o.p.flags == p.flags + SkipFlags(cfg.skips(p.heads)) && o.p.contentLength == p.contentLength
      && (if b.Handover? then o.Exit? else o.Next?)
      && (b.NoBody? || b.Handover? ==> o.act == Note(MessageComplete) && o.p.state == NewMessage(cfg, o.p))
      && (!b.NoBody? && !b.Handover? ==> o.act == Quiet)
      && (b.Sized? ==> o.p.state.BodyIdentity? && 0 < o.p.contentLength == |b.bytes| < UNKNOWN_LENGTH)
      && (b.InChunks? ==> AtChunk(o.p))
      && (b.UntilEof? ==> o.p.state.BodyIdentityEof?)
  {
    hide NewMessage, AllOk, EndingOk, StartOk, Number;
    StateIsFree(cfg, CompleteHeaders(cfg, p).(nread := 0));
  }

  // The bytes behind the headers, for a body that has some.
  lemma ContentsRead(cfg: Config, p: Parser, b: Body)
    requires p.errno == OK && p.nread == 0 && (b.Sized? || b.InChunks? || b.UntilEof?)
    requires b.Sized? ==> p.state.BodyIdentity? && 0 < p.contentLength == |b.bytes| < UNKNOWN_LENGTH
    requires b.InChunks? ==> AtChunk(p) && AllOk(b.chunks) && EndingOk(b.last, b.trailers)
    requires b.UntilEof? ==> p.state.BodyIdentityEof?
    ensures var f := Feed(cfg, p, BodyBytes(b));
      && f == Fed(f.p, Bytes(DataKind.Body, BodyContents(b)) + (HeadersEvents(Trailers(b)) + EndNotes(b)), |BodyBytes(b)|, More)
      && f.p.errno == OK && SameStart(p, f.p) && f.p.heads == p.heads
      && if b.UntilEof? then f.p.state.BodyIdentityEof?
         else
           && f.p.state == NewMessage(cfg, f.p) && f.p.nread == TailCount(b)
           && f.p.flags == FlagsAfter(p.flags + TailFlags(b), Trailers(b)) && (b.Sized? ==> f.p.contentLength == 0)
  {
    hide OneByte, HttpChunks.Wires, Ending, AllOk, EndingOk, Contents, NewMessage, Bytes;
    if b.InChunks? {
      hide Feed, FlagsAfter, HeadersBytes, HeadersEvents;
      ChunkedBody(cfg, p, b.chunks, b.last, b.trailers);
      FeedUsed(cfg, p, BodyBytes(b));
    } else {
      assert HeadersEvents([]) + EndNotes(b) == EndNotes(b);
      assert p.flags + {} == p.flags;
      StateIsFree(cfg, p.(contentLength := 0, state := MessageDone));
      NoTrailers(p.flags);
      if b.bytes == [] {
        assert Feed(cfg, p, []) == Fed(p, [], 0, More);
        NoBytes();
      } else {
        FeedBody(cfg, p, b.bytes);
      }
    }
  }

  lemma NoBytes()
    ensures Bytes(DataKind.Body, []) + [] == []
  {
  }

  // Every kind of body is told as its contents, up to its own end.
  lemma BodyRead(cfg: Config, p: Parser, s: Start, b: Body)
    requires StartOk(cfg.strict, s) && AtBody(cfg, p, s, b)
    ensures BodyFed(cfg, p, Feed(cfg, p, [LF] + BodyBytes(b)), b)
  {
    hide Feed, OneByte, StartOk, AfterHeaders, CompleteHeaders, AllOk, EndingOk, AtChunk, HttpChunks.Wires, Ending, Number, NewMessage, HeadersBytes,
         FlagsAfter, HeadersEvents;
    Turn(cfg, p, s, b);
    HeadersEnd(cfg, p);
    Single(cfg, p, LF);
    var q, w := OneByte(cfg, p, LF).p, BodyBytes(b);
    if b.NoBody? || b.Handover? {
      assert [LF] + w == [LF];
      NothingTold(b);
      NoTrailers(q.flags);
      assert q.flags + {} == q.flags;
    } else {
      ContentsRead(cfg, q, b);
      var head := [Notify(HeadersComplete)];
      assert head + [] == head;
      Then(cfg, p, [LF], q, head, w, Feed(cfg, q, w).p, Feed(cfg, q, w).log);
    }
  }

  lemma NoTrailers(flags: set<Flag>)
    ensures FlagsAfter(flags, []) == flags
  {
  }

  lemma NothingTold(b: Body)
    requires b.NoBody? || b.Handover?
    ensures RestEvents(b) == [Notify(HeadersComplete)] + [Notify(MessageComplete)]
  {
  }

  // ----- the story of a message -----

  // What has been told when the last byte has been parsed.
  function ToldAtEnd(m: Message): seq<Event> { Heard(m) + EndNotes(m.body) }

  lemma ToldIsDistinct(strict: bool, m: Message)
    requires StartOk(strict, m.start)
    ensures Story(ToldAtEnd(m)) == ToldAtEnd(m)
  {
    hide Story, HeadersTold, BodyTold, StartTold, StartOk, Distinct;
    var h := StartTold(m.start);
    StartStory(strict, m.start);
    HeadersDistinct(h, m.headers);
    var a := h + HeadersTold(m.headers);
    DistinctSnoc(a, Notify(HeadersComplete));
    var b := a + [Notify(HeadersComplete)];
    BodyDistinct(b, m.body);
    HeadersDistinct(b + BodyTold(m.body), Trailers(m.body));
    if m.body.UntilEof? { assert Heard(m) + [] == Heard(m); } else { DistinctSnoc(Heard(m), Notify(MessageComplete)); }
    StoryOfDistinct(ToldAtEnd(m));
  }

  lemma BodyDistinct(log: seq<Event>, b: Body)
    requires Distinct(log) && log != [] && log[|log| - 1].Notify?
    ensures Distinct(log + BodyTold(b)) && !EndsInName(log + BodyTold(b))
  {
    hide BodyContents, Distinct;
    if BodyTold(b) == [] { assert log + BodyTold(b) == log; } else { DistinctSnoc(log, BodyTold(b)[0]); }
  }

  // The byte-at-a-time log tells what should be told.
  lemma MessageStory(strict: bool, m: Message)
    requires StartOk(strict, m.start) && HeadersOk(m.headers) && HeadersOk(Trailers(m.body))
    ensures Story(HeadEvents(m) + RestEvents(m.body)) == ToldAtEnd(m)
  {
    hide Story, HeadersTold, HeadersEvents, StartTold, StartEvents, StartOk, HeadersOk, BodyContents, Bytes, Trailers;
    var rest := RestEvents(m.body);
    var c, ts, notes, head := BodyContents(m.body), Trailers(m.body), EndNotes(m.body), [Notify(HeadersComplete)];
    StartStory(strict, m.start);
    StoryCat(StartEvents(m.start), StartTold(m.start), HeadersEvents(m.headers) + rest);
    assert HeadEvents(m) + rest == StartEvents(m.start) + (HeadersEvents(m.headers) + rest);
    var h := StartTold(m.start) + HeadersTold(m.headers);
    assert StartTold(m.start) + (HeadersEvents(m.headers) + rest) == StartTold(m.start) + HeadersEvents(m.headers) + rest;
    HeadersWithin(StartTold(m.start), m.headers, rest);
    var more := HeadersEvents(ts) + notes;
    assert h + rest == h + head + (Bytes(DataKind.Body, c) + more);
    ContentsTold(h + head, m.body, more);
    var g := h + head + BodyTold(m.body);
    assert g + more == g + HeadersEvents(ts) + notes;
    HeadersWithin(g, ts, notes);
    ToldIsDistinct(strict, m);
  }

  lemma ContentsTold(h: seq<Event>, b: Body, more: seq<Event>)
    ensures Story(h + (Bytes(DataKind.Body, BodyContents(b)) + more)) == Story(h + BodyTold(b) + more)
  {
    hide Story, BodyContents;
    if BodyContents(b) == [] {
      assert h + (Bytes(DataKind.Body, BodyContents(b)) + more) == h + BodyTold(b) + more;
    } else {
      BodyStory(h, BodyContents(b), more);
    }
  }

  // ----- whole messages -----

  lemma {:induction false} LengthBound(hs: seq<Header>)
    requires HeadersOk(hs)
    ensures LengthAfter(UNKNOWN_LENGTH, hs) <= UNKNOWN_LENGTH
  {
    hide LinesLength, LinesOk;
    if hs != [] {
      var h := hs[|hs| - 1];
      LengthBound(hs[..|hs| - 1]);
      LinesBound(KindOf(h), LengthAfter(UNKNOWN_LENGTH, hs[..|hs| - 1]), h.lines);
    }
  }

  lemma {:induction false} LinesBound(h: HeaderState, length: nat, ls: seq<Line>)
    requires LinesOk(h, ls) && length <= UNKNOWN_LENGTH
    ensures LinesLength(h, length, ls) <= UNKNOWN_LENGTH
  {
    if ls != [] { LinesBound(h, length, ls[..|ls| - 1]); }
  }

  // ----- what comes after a message -----

  function MajorOf(strict: bool, s: Start): nat
    requires StartOk(strict, s)
  {
    if s.Asks? then MajorNumber(s.line.version) else Number(10, s.status.major)
  }

  function MinorOf(strict: bool, s: Start): nat
    requires StartOk(strict, s)
  {
    if s.Asks? then MinorNumber(s.line.version) else Number(10, s.status.minor)
  }

  // Without a length, the body of a response ends with the connection.
  predicate EndsWithConnection(strict: bool, skip: bool, m: Message)
    requires MessageOk(strict, skip, m)
  {
    && !Bodiless(strict, m.start) && !skip
    && Chunked !in FlagsAfter({}, m.headers) && LengthAfter(UNKNOWN_LENGTH, m.headers) == UNKNOWN_LENGTH
  }

  // Another message may follow: the version keeps connections open and no
  // header or trailer asks to close it, or, for older versions, one asks to keep
  // it open.
  predicate KeepsAlive(strict: bool, skip: bool, m: Message)
    requires MessageOk(strict, skip, m)
  {
    var asked := FlagsAfter(FlagsAfter({}, m.headers), Trailers(m.body));
    && (if MajorOf(strict, m.start) > 0 && MinorOf(strict, m.start) > 0 then Close !in asked else KeepAlive in asked)
    && !EndsWithConnection(strict, skip, m)
  }

  // A flag is what some header asks for.
  lemma {:induction false} FlagAsked(f: Flag, hs: seq<Header>)
    ensures f in FlagsAfter({}, hs) <==> exists i :: 0 <= i < |hs| && f in HeaderFlags(hs[i])
  {
    hide HeaderFlags;
    if hs != [] {
      var some := hs[..|hs| - 1];
      FlagAsked(f, some);
      if i :| 0 <= i < |hs| && f in HeaderFlags(hs[i]) { assert i < |some| ==> f in HeaderFlags(some[i]); }
    }
  }

  // Only a strict parser goes dead, after a message that does not keep the
  // connection.
  function NextState(strict: bool, keeps: bool, s: Start): State {
    if strict && !keeps then Dead else FirstState(s)
  }

  lemma GoesOn(cfg: Config, p: Parser, m: Message, q: Parser)
    requires var skip := cfg.skips(p.heads); MessageOk(cfg.strict, skip, m) && !m.body.UntilEof?
    requires Carries(p, cfg.strict, m.start) && Behind(cfg, p, m.body, q)
    requires p.flags == FlagsAfter({}, m.headers) && p.contentLength == LengthAfter(UNKNOWN_LENGTH, m.headers)
    ensures q.state == NextState(cfg.strict, KeepsAlive(cfg.strict, cfg.skips(p.heads), m), m.start)
  {
    hide Number, StartOk, HeadersOk, FlagsAfter, LengthAfter, AllOk, EndingOk, HeadersBytes;
    var more := SkipFlags(cfg.skips(p.heads)) + TailFlags(m.body);
    FlagsJoin(p.flags, more, Trailers(m.body));
    assert p.flags + SkipFlags(cfg.skips(p.heads)) + TailFlags(m.body) == p.flags + more;
    FlagsOfHeaders({}, m.headers);
    FlagsOfHeaders(p.flags, Trailers(m.body));
    FlagsGrow(p.flags, Trailers(m.body));
    NoTrailers(p.flags);
  }

  // A connection that has been given up takes nothing but line ends.
  lemma DeadRefuses(cfg: Config, p: Parser, ch: Octet)
    requires p.errno == OK && p.state.Dead? && p.nread < MAX_HEADER_SIZE
    ensures var r := OneByte(cfg, p, ch);
      if ch == CR || ch == LF then r == Fed(p.(nread := p.nread + 1), [], 1, More) else r.end.Failed? && r.p.errno == CLOSED_CONNECTION && r.log == []
  {
    hide Shaped, StepResponse, StepStatus, StepMethod, StepUrl, StepRequest, StepField, StepValue, StepEnd, StepChunk;
  }

  // The parser behind a message waits for the next one of its kind, or for the
  // end of the connection, or is dead.
  ghost predicate GoneOn(cfg: Config, skip: bool, m: Message, p: Parser)
    requires MessageOk(cfg.strict, skip, m)
  {
    && p.errno == OK && Carries(p, cfg.strict, m.start)
    && if m.body.UntilEof? then p.state.BodyIdentityEof?
       else p.state == NextState(cfg.strict, KeepsAlive(cfg.strict, skip, m), m.start) && p.nread == TailCount(m.body)
  }

  // What is told, and how many bytes are taken; the bytes behind a handover are
  // left alone.
  ghost predicate ReadOut(m: Message, heads: nat, f: Fed) {
    && f == Fed(f.p, f.log, |WireOf(m)|, if m.body.Handover? then Upgraded else More) && f.p.heads == heads + 1
    && Story(f.log) == ToldAtEnd(m) && f.log != [] && f.log[0].Notify?
  }

  // A message, whatever its first line, its headers and its body, and however
  // the body is framed, is told to the application exactly, and the parser goes
  // on as the message says.
  lemma MessageRead(cfg: Config, p: Parser, m: Message)
    requires Awaits(p, m.start) && MessageOk(cfg.strict, cfg.skips(p.heads), m) && p.nread + |HeadBytes(m)| <= MAX_HEADER_SIZE
    ensures var f := Feed(cfg, p, WireOf(m)); ReadOut(m, p.heads, f) && GoneOn(cfg, cfg.skips(p.heads), m, f.p)
  {
    hide Feed, Story, StartOk, HeadersOk, HeadFirst, HeadersBytes, FlagsAfter, LengthAfter, HeadEvents, RestEvents, ToldAtEnd, Announces,
         BodyBytes, Number, KeepsAlive, NewMessage, TailCount, MajorNumber, MinorNumber;
    HeadRead(cfg, p, m);
    FlagsOfHeaders({}, m.headers);
    LengthBound(m.headers);
    var b, rest := HeadFirst(m), [LF] + BodyBytes(m.body);
    var r := Feed(cfg, p, b).p;
    var q := r.(state := HeadersAlmostDone);
    if r != q { BareLine(cfg, r, rest); }
    BodyRead(cfg, q, m.start, m.body);
    FeedSplit(cfg, p, b, rest);
    assert b + rest == WireOf(m);
    TrailersOk(cfg.strict, cfg.skips(p.heads), m);
    MessageStory(cfg.strict, m);
    BeginsWithNotice(m);
    if !m.body.UntilEof? { GoesOn(cfg, q, m, Feed(cfg, p, WireOf(m)).p); }
  }

  function WireOf(m: Message): seq<Octet> { HeadBytes(m) + BodyBytes(m.body) }

  lemma BeginsWithNotice(m: Message)
    ensures var log := HeadEvents(m) + RestEvents(m.body); log != [] && log[0].Notify?
  {
    hide RestEvents, HeadersEvents, Bytes;
  }

  lemma TrailersOk(strict: bool, skip: bool, m: Message)
    requires MessageOk(strict, skip, m)
    ensures HeadersOk(Trailers(m.body))
  {
    hide HeadersOk, StartOk, Number, SizeLineOk, AllOk, HeadersBytes;
    if !m.body.InChunks? { NoHeaders(); }
  }

  lemma NoHeaders()
    ensures HeadersOk([])
  {
  }

  // ----- connections -----

  function Wires(ms: seq<Message>): seq<Octet> {
    if ms == [] then [] else Wires(ms[..|ms| - 1]) + WireOf(ms[|ms| - 1])
  }

  // What the application should be told of some messages, but for the end of
  // the last if that is the end of the connection.
  function AllTold(ms: seq<Message>): seq<Event> {
    if ms == [] then [] else AllTold(ms[..|ms| - 1]) + ToldAtEnd(ms[|ms| - 1])
  }

  // The parser goes on after the message.
  predicate Continues(strict: bool, skip: bool, m: Message)
    requires MessageOk(strict, skip, m)
  {
    !m.body.UntilEof? && !m.body.Handover? && (strict ==> KeepsAlive(strict, skip, m))
  }

  predicate MessageAt(cfg: Config, kind: Kind, ms: seq<Message>, i: nat)
    requires i < |ms|
  {
    && MessageOk(cfg.strict, cfg.skips(i), ms[i]) && (kind.Both? || kind == KindFor(ms[i].start))
    && (i > 0 ==> ms[i].start.Asks? == ms[i - 1].start.Asks?)
    && (if i == 0 then 0 else TailCount(ms[i - 1].body)) + |HeadBytes(ms[i])| <= MAX_HEADER_SIZE
  }

  predicate FollowedAt(cfg: Config, kind: Kind, ms: seq<Message>, i: nat)
    requires i < |ms|
  {
    MessageAt(cfg, kind, ms, i) && Continues(cfg.strict, cfg.skips(i), ms[i])
  }

  // Messages of one kind that may follow one another.
  ghost predicate ConnectionOk(cfg: Config, kind: Kind, ms: seq<Message>) {
    && (forall i :: 0 <= i < |ms| ==> MessageAt(cfg, kind, ms, i))
    && (forall i :: 0 <= i < |ms| - 1 ==> FollowedAt(cfg, kind, ms, i))
  }

  lemma {:induction false} StoryApart(a: seq<Event>, b: seq<Event>)
    requires b != [] ==> b[0].Notify?
    ensures Story(a + b) == Story(a) + Story(b)
  {
    hide Story, Join;
    if b == [] {
      assert a + b == a;
      StoryOfNothing(a);
    } else {
      var n := |b| - 1;
      StoryApart(a, b[..n]);
      assert a + b == a + b[..n] + [b[n]] && b == b[..n] + [b[n]];
      StorySnoc(a + b[..n], b[n]);
      StorySnoc(b[..n], b[n]);
      if n > 0 {
        StoryIsNotEmpty(b[..n]);
        JoinApart(Story(a), Story(b[..n]), b[n]);
      } else {
        assert b[..n] == [];
        NoticeApart(Story(a), b[n]);
      }
    }
  }

  lemma StoryOfNothing(a: seq<Event>)
    ensures Story([]) == [] && Story(a) + [] == Story(a)
  {
  }

  lemma NoticeApart(a: seq<Event>, e: Event)
    requires e.Notify?
    ensures Join(a + Story([]), e) == a + Join(Story([]), e)
  {
    assert a + [] == a;
  }

  lemma JoinApart(a: seq<Event>, b: seq<Event>, e: Event)
    requires b != []
    ensures Join(a + b, e) == a + Join(b, e)
  {
    assert (a + b)[..|a + b| - 1] == a + b[..|b| - 1];
  }

  lemma {:induction false} StoryIsNotEmpty(a: seq<Event>)
    requires a != []
    ensures Story(a) != []
  {
  }

  // The parser behind some messages.
  ghost predicate AllOut(ms: seq<Message>, f: Fed)
    requires ms != []
  {
    && f == Fed(f.p, f.log, |Wires(ms)|, if ms[|ms| - 1].body.Handover? then Upgraded else More) && f.p.heads == |ms|
    && Story(f.log) == AllTold(ms)
  }

  lemma OneOut(m: Message, f: Fed)
    requires ReadOut(m, 0, f)
    ensures AllOut([m], f) && Wires([m]) == WireOf(m)
  {
    hide WireOf, ToldAtEnd, Story;
    var ms := [m];
    assert ms[..0] == [];
    assert Wires(ms) == [] + WireOf(m) && AllTold(ms) == [] + ToldAtEnd(m);
  }

  lemma OneMoreOut(ms: seq<Message>, m: Message, f: Fed, g: Fed)
    requires ms != [] && AllOut(ms, f) && !ms[|ms| - 1].body.Handover? && ReadOut(m, |ms|, g)
    ensures AllOut(ms + [m], Fed(g.p, f.log + g.log, f.used + g.used, g.end)) && Wires(ms + [m]) == Wires(ms) + WireOf(m)
  {
    hide WireOf, ToldAtEnd, Story;
    assert (ms + [m])[..|ms|] == ms;
    StoryApart(f.log, g.log);
  }

  // All messages of a connection are told, one after the other, and the last
  // decides how the parser goes on.
  lemma {:induction false} MessagesRead(cfg: Config, kind: Kind, ms: seq<Message>)
    requires ms != [] && ConnectionOk(cfg, kind, ms)
    ensures MessageAt(cfg, kind, ms, |ms| - 1)
    ensures var f := Feed(cfg, Init(kind), Wires(ms)); AllOut(ms, f) && GoneOn(cfg, cfg.skips(|ms| - 1), ms[|ms| - 1], f.p)
  {
    hide Feed, MessageOk, HeadBytes, GoneOn, ReadOut, AllOut, Wires, Continues, Awaits, Join;
    var n := |ms| - 1;
    var some, m := ms[..n], ms[n];
    assert MessageAt(cfg, kind, ms, n);
    if n == 0 {
      assert ms == [m];
      NewAwaits(kind, m.start);
      MessageRead(cfg, Init(kind), m);
      OneOut(m, Feed(cfg, Init(kind), WireOf(m)));
    } else {
      PartIsOk(cfg, kind, ms);
      MessagesRead(cfg, kind, some);
      var f := Feed(cfg, Init(kind), Wires(some));
      assert some + [m] == ms && some[n - 1] == ms[n - 1];
      FollowsOn(cfg, kind, ms, f.p);
      HeadsCounted(some, f);
      MessageRead(cfg, f.p, m);
      var g := Feed(cfg, f.p, WireOf(m));
      OneMoreOut(some, m, f, g);
      FeedSplit(cfg, Init(kind), Wires(some), WireOf(m));
    }
  }

  lemma NewAwaits(kind: Kind, s: Start)
    requires kind.Both? || kind == KindFor(s)
    ensures Awaits(Init(kind), s) && Init(kind).nread == 0 && Init(kind).heads == 0
  {
  }

  lemma HeadsCounted(ms: seq<Message>, f: Fed)
    requires ms != [] && AllOut(ms, f)
    ensures f.p.heads == |ms| && (f.end.More? <==> !ms[|ms| - 1].body.Handover?)
  {
  }

  lemma FollowsOn(cfg: Config, kind: Kind, ms: seq<Message>, p: Parser)
    requires |ms| > 1 && ConnectionOk(cfg, kind, ms) && MessageAt(cfg, kind, ms, |ms| - 2) && GoneOn(cfg, cfg.skips(|ms| - 2), ms[|ms| - 2], p)
    ensures var n := |ms| - 1; Awaits(p, ms[n].start) && MessageAt(cfg, kind, ms, n) && p.nread + |HeadBytes(ms[n])| <= MAX_HEADER_SIZE
    ensures !ms[|ms| - 2].body.Handover?
  {
    hide MessageOk, HeadBytes, Number, KeepsAlive, TailCount, MajorNumber, MinorNumber;
    assert FollowedAt(cfg, kind, ms, |ms| - 2) && MessageAt(cfg, kind, ms, |ms| - 1);
    StartIsOk(cfg.strict, cfg.skips(|ms| - 2), ms[|ms| - 2]);
  }

  lemma StartIsOk(strict: bool, skip: bool, m: Message)
    requires MessageOk(strict, skip, m)
    ensures StartOk(strict, m.start)
  {
  }

  lemma PartIsOk(cfg: Config, kind: Kind, ms: seq<Message>)
    requires ms != [] && ConnectionOk(cfg, kind, ms)
    ensures ConnectionOk(cfg, kind, ms[..|ms| - 1])
  {
    hide MessageOk, Continues, HeadBytes, TailCount;
    var some := ms[..|ms| - 1];
    forall i | 0 <= i < |some| ensures MessageAt(cfg, kind, some, i) { assert MessageAt(cfg, kind, ms, i); }
    forall i | 0 <= i < |some| - 1 ensures FollowedAt(cfg, kind, some, i) { assert FollowedAt(cfg, kind, ms, i); }
  }

  // What the application has been told when the connection has ended.
  function ToldInAll(ms: seq<Message>): seq<Event> {
    AllTold(ms) + if ms != [] && ms[|ms| - 1].body.UntilEof? then [Notify(MessageComplete)] else []
  }

  // The same through buffers: however the messages of a connection are cut, and
  // whatever follows a handover, a new parser tells them exactly, one after the
  // other, and takes exactly their bytes.
  method DeliverMessages(cfg: Config, kind: Kind, ms: seq<Message>, rest: seq<Octet>, buffers: seq<seq<Octet>>)
      returns (parser: HttpParser, used: nat, upgraded: bool)
    requires ms != [] && ConnectionOk(cfg, kind, ms) && (rest != [] ==> ms[|ms| - 1].body.Handover?)
    requires (forall j :: 0 <= j < |buffers| ==> buffers[j] != []) && Concat(buffers) == Wires(ms) + rest
    ensures MessageAt(cfg, kind, ms, |ms| - 1)
    ensures parser.fields.errno == OK && Carries(parser.fields, cfg.strict, ms[|ms| - 1].start) && Story(parser.heard) == ToldInAll(ms)
    ensures used == |Wires(ms)| && (upgraded <==> ms[|ms| - 1].body.Handover?)
  {
    hide Feed, Story, HttpParser.Valid, StartOk, AllTold, MessageOk, KeepsAlive, NextState, Number, Wires, HeadBytes, TailCount, MajorNumber,
         MinorNumber, Carries;
    MessagesRead(cfg, kind, ms);
    StartIsOk(cfg.strict, cfg.skips(|ms| - 1), ms[|ms| - 1]);
    FeedSplit(cfg, Init(kind), Wires(ms), rest);
    if rest == [] { assert Wires(ms) + rest == Wires(ms); }
    FeedEnd(cfg, Init(kind), Wires(ms) + rest);
    parser := new HttpParser(cfg, kind);
    used, upgraded := RunBuffers(parser, buffers);
    assert parser.heard + [] == parser.heard;
    assert AllTold(ms) + [] == AllTold(ms);
    if ms[|ms| - 1].body.UntilEof? {
      ghost var h := parser.heard;
      var n, u := parser.Execute([]);
      StorySnoc(h, Notify(MessageComplete));
    }
  }

  lemma FeedEnd(cfg: Config, p: Parser, data: seq<Octet>)
    requires p.errno == OK
    ensures var r := Feed(cfg, p, data); (r.p.errno != OK <==> r.end.Failed?) && [] + r.log == r.log
  {
  }
}
