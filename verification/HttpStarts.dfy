// The first lines of messages, by a parser that knows what it reads or by one
// that finds out.
module HttpStarts {
  import opened HttpTypes
  import opened HttpStep
  import opened HttpReference
  import opened HttpBody
  import opened HttpLines
  import opened HttpStories

  // ----- first lines -----

  datatype Start = Asks(line: RequestLine) | Answers(status: StatusLine)

  predicate StartOk(strict: bool, s: Start) {
    match s
    case Asks(line) => RequestLineOk(strict, line)
    case Answers(status) => StatusLineOk(status)
  }

  function StartBytes(s: Start): seq<Octet> {
    match s
    case Asks(line) => RequestLineBytes(line)
    case Answers(status) => StatusLineBytes(status)
  }

  function StartEvents(s: Start): seq<Event> {
    match s
    case Asks(line) => [Notify(MessageBegin)] + (Bytes(Url, line.url) + [Data(Url, [])])
    case Answers(status) => [Notify(MessageBegin)] + StatusNotes(status)
  }

  function StartTold(s: Start): seq<Event> {
    match s
    case Asks(line) => [Notify(MessageBegin), Data(Url, line.url)]
    case Answers(status) => [Notify(MessageBegin)] + StatusNotes(status)
  }

  function KindFor(s: Start): Kind { if s.Asks? then Kind.Request else Kind.Response }

  function FirstState(s: Start): State { if s.Asks? then StartReq else StartRes }

  // A parser of the right kind before a message, or one that has yet to find
  // out; that of a response has not parsed a CONNECT.
  predicate Awaits(p: Parser, s: Start) {
    && p.errno == OK && (s.Answers? ==> p.verb != CONNECT)
    && ((p.kind == KindFor(s) && p.state == FirstState(s)) || (p.kind.Both? && p.state.StartReqOrRes?))
  }

  // The fields hold what the first line says.
  ghost predicate Carries(p: Parser, strict: bool, s: Start)
    requires StartOk(strict, s)
  {
    match s
    case Asks(l) => p.kind.Request? && p.verb == l.verb && p.major == MajorNumber(l.version) && p.minor == MinorNumber(l.version)
    case Answers(l) =>
      && p.kind.Response? && p.verb != CONNECT
      && p.status == Number(10, l.code) && p.major == Number(10, l.major) && p.minor == Number(10, l.minor)
  }

  // The first byte tells a request from a response, but for an H.
  lemma FirstByteTells(cfg: Config, p: Parser, ch: Octet)
    requires p.errno == OK && p.kind.Both? && p.state.StartReqOrRes? && p.nread < MAX_HEADER_SIZE && IsAlpha(ch) && ch != 'H'
    ensures OneByte(cfg, p, ch) == OneByte(cfg, p.(kind := Kind.Request, state := StartReq), ch)
  {
    hide StepResponse, StepStatus, StepMethod, StepUrl, StepRequest, StepField, StepValue, StepEnd, StepChunk, Shaped;
    var q := Counted(p);
    assert Once(cfg, q, ch) == StepStart(q, ch);
    SwitchAgain(cfg, q, ch);
    var r := q.(kind := Kind.Request, state := StartReq);
    var clean := r.(flags := {}, contentLength := UNKNOWN_LENGTH);
    assert Once(cfg, r, ch) == StepStart(r, ch) == StepStart(clean, ch) == Once(cfg, clean, ch);
    SwitchLast(cfg, r, ch);
    SwitchLast(cfg, clean, ch);
    OneByteCases(cfg, p, ch);
    OneByteCases(cfg, p.(kind := Kind.Request, state := StartReq), ch);
  }

  // An H and one more letter do.
  lemma SecondByteTells(cfg: Config, p: Parser, s: Start, ch: Octet)
    requires p.errno == OK && p.kind.Both? && p.state.StartReqOrRes? && p.nread + 2 <= MAX_HEADER_SIZE && ch == if s.Asks? then 'E' else 'T'
    ensures Feed(cfg, p, ['H', ch]) == Feed(cfg, p.(kind := KindFor(s), state := FirstState(s)), ['H', ch])
  {
    var q := p.(kind := KindFor(s), state := FirstState(s));
    var both, one := Letter(p, ResOrRespH, p.kind, p.verb, p.index), if s.Asks? then Letter(q, ReqMethod, q.kind, HEAD, 1) else Letter(q, ResH, q.kind, q.verb, q.index);
    LetterH(cfg, p);
    LetterH(cfg, q);
    LetterNext(cfg, both, s, ch);
    LetterNext(cfg, one, s, ch);
    hide Feed, OneByte;
    Single(cfg, p, 'H');
    Single(cfg, q, 'H');
    Single(cfg, both, ch);
    Single(cfg, one, ch);
    FeedSplit(cfg, p, ['H'], [ch]);
    FeedSplit(cfg, q, ['H'], [ch]);
    assert ['H'] + [ch] == ['H', ch];
  }

  // The parser after one letter.
  function Letter(p: Parser, s: State, kind: Kind, verb: Method, index: nat): Parser {
    p.(state := s, kind := kind, verb := verb, index := index, nread := p.nread + 1, flags := {}, contentLength := UNKNOWN_LENGTH)
  }

  lemma LetterH(cfg: Config, p: Parser)
    requires p.errno == OK && p.nread < MAX_HEADER_SIZE && (p.state.StartReqOrRes? || p.state.StartReq? || p.state.StartRes?)
    ensures OneByte(cfg, p, 'H') == Fed(
      if p.state.StartReqOrRes? then Letter(p, ResOrRespH, p.kind, p.verb, p.index)
      else if p.state.StartReq? then Letter(p, ReqMethod, p.kind, HEAD, 1)
      else Letter(p, ResH, p.kind, p.verb, p.index), [Notify(MessageBegin)], 1, More)
  {
    hide OneByte, StepResponse, StepStatus, StepMethod, StepUrl, StepRequest, StepField, StepValue, StepEnd, StepChunk, Shaped;
    assert Once(cfg, Counted(p), 'H') == StepStart(Counted(p), 'H');
    NextByte(cfg, p, 'H');
  }

  lemma LetterNext(cfg: Config, p: Parser, s: Start, ch: Octet)
    requires p.errno == OK && p.nread < MAX_HEADER_SIZE && ch == if s.Asks? then 'E' else 'T'
    requires p.state.ResOrRespH? || (s.Asks? && p.state.ReqMethod? && p.verb == HEAD && p.index == 1 && p.kind.Request?) || (s.Answers? && p.state.ResH? && p.kind.Response?)
    ensures OneByte(cfg, p, ch) == Fed(
      if s.Asks? then p.(state := ReqMethod, kind := Kind.Request, verb := HEAD, index := 2, nread := p.nread + 1)
      else p.(state := ResHT, kind := Kind.Response, nread := p.nread + 1), [], 1, More)
  {
    hide OneByte, StepStatus, StepUrl, StepRequest, StepField, StepValue, StepEnd, StepChunk, Shaped;
    var q := Counted(p);
    assert Once(cfg, q, ch) == if p.state.ResOrRespH? then StepStart(q, ch) else if p.state.ReqMethod? then StepMethod(q, ch) else StepResponse(cfg, q, ch);
    NextByte(cfg, p, ch);
  }

  // A parser that does not know its kind reads a first line like one that does.
  lemma KindFound(cfg: Config, p: Parser, s: Start)
    requires Awaits(p, s) && p.kind.Both? && p.state.StartReqOrRes? && StartOk(cfg.strict, s) && p.nread + |StartBytes(s)| <= MAX_HEADER_SIZE
    ensures Feed(cfg, p, StartBytes(s)) == Feed(cfg, p.(kind := KindFor(s), state := FirstState(s)), StartBytes(s))
  {
    var b, q := StartBytes(s), p.(kind := KindFor(s), state := FirstState(s));
    FirstLetters(cfg.strict, s);
    hide Feed, OneByte, StartBytes, StartOk, KindFor, FirstState;
    if b[0] == 'H' {
      TwoLetters(cfg, p, s, b);
    } else {
      OneLetter(cfg, p, s, b);
    }
  }

  lemma TwoLetters(cfg: Config, p: Parser, s: Start, b: seq<Octet>)
    requires p.errno == OK && p.kind.Both? && p.state.StartReqOrRes? && p.nread + |b| <= MAX_HEADER_SIZE
    requires |b| >= 2 && b[0] == 'H' && b[1] == if s.Asks? then 'E' else 'T'
    ensures Feed(cfg, p, b) == Feed(cfg, p.(kind := KindFor(s), state := FirstState(s)), b)
  {
    hide Feed, OneByte, KindFor, FirstState;
    SecondByteTells(cfg, p, s, b[1]);
    assert b[..2] + b[2..] == b && b[..2] == ['H', b[1]];
    GoOnAlike(cfg, p, p.(kind := KindFor(s), state := FirstState(s)), b[..2], b[2..]);
  }

  lemma OneLetter(cfg: Config, p: Parser, s: Start, b: seq<Octet>)
    requires p.errno == OK && p.kind.Both? && p.state.StartReqOrRes? && p.nread + |b| <= MAX_HEADER_SIZE
    requires b != [] && s.Asks? && IsAlpha(b[0]) && b[0] != 'H'
    ensures Feed(cfg, p, b) == Feed(cfg, p.(kind := KindFor(s), state := FirstState(s)), b)
  {
    var q := p.(kind := KindFor(s), state := FirstState(s));
    hide Feed, OneByte;
    FirstByteTells(cfg, p, b[0]);
    Single(cfg, p, b[0]);
    Single(cfg, q, b[0]);
    assert [b[0]] + b[1..] == b;
    GoOnAlike(cfg, p, q, [b[0]], b[1..]);
  }

  // Two parsers that some bytes make alike stay so.
  lemma GoOnAlike(cfg: Config, p: Parser, q: Parser, a: seq<Octet>, b: seq<Octet>)
    requires p.errno == OK && q.errno == OK && Feed(cfg, p, a) == Feed(cfg, q, a)
    ensures Feed(cfg, p, a + b) == Feed(cfg, q, a + b)
  {
    hide Feed;
    FeedSplit(cfg, p, a, b);
    FeedSplit(cfg, q, a, b);
  }

  lemma FirstLetters(strict: bool, s: Start)
    requires StartOk(strict, s)
    ensures var b := StartBytes(s);
      |b| >= 2 && IsAlpha(b[0]) && (s.Answers? ==> b[0] == 'H') && (b[0] == 'H' ==> b[1] == if s.Asks? then 'E' else 'T')
  {
    hide HttpUrls.UrlOk, NumberOk, UrlEndBytes, Gap, ReasonBytes;
    if s.Asks? {
      NamesBegin(s.line.verb);
      assert StartBytes(s)[0] == Name(s.line.verb)[0] && StartBytes(s)[1] == Name(s.line.verb)[1];
    } else {
      assert StartBytes(s)[0] == "HTTP/"[0] && StartBytes(s)[1] == "HTTP/"[1];
    }
  }

  lemma NamesBegin(m: Method)
    ensures |Name(m)| >= 2 && IsAlpha(Name(m)[0]) && (Name(m)[0] == 'H' ==> Name(m)[1] == 'E')
  {
  }

  lemma StartRead(cfg: Config, p: Parser, s: Start)
    requires Awaits(p, s) && StartOk(cfg.strict, s) && p.nread + |StartBytes(s)| <= MAX_HEADER_SIZE
    ensures var b := StartBytes(s);
      var f := Feed(cfg, p, b);
      && f == Fed(f.p, StartEvents(s), |b|, More) && f.p.errno == OK && f.p.state.HeaderFieldStart? && f.p.nread == p.nread + |b|
      && f.p.heads == p.heads && f.p.flags == {} && f.p.contentLength == UNKNOWN_LENGTH && Carries(f.p, cfg.strict, s)
  {
    hide Feed, HttpUrls.UrlOk, NumberOk, Number, RequestLineBytes, StatusLineBytes, Name, VersionOk, MajorNumber, MinorNumber;
    if p.kind.Both? { KindFound(cfg, p, s); }
    var q := p.(kind := KindFor(s), state := FirstState(s));
    match s
    case Asks(line) => RequestLineRead(cfg, q, line);
    case Answers(status) => StatusLineRead(cfg, q, status);
  }

  lemma StartStory(strict: bool, s: Start)
    requires StartOk(strict, s)
    ensures Story(StartEvents(s)) == Story(StartTold(s)) && Distinct(StartTold(s)) && !EndsInName(StartTold(s))
  {
    hide Story;
    if s.Asks? {
      DataStory([Notify(MessageBegin)], Url, s.line.url);
      assert [Notify(MessageBegin)] + [Data(Url, s.line.url)] == StartTold(s);
    }
  }
}
