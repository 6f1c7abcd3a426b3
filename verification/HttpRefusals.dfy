// What the parser refuses, and what an early end of the connection means.
module HttpRefusals {
  import opened Options
  import opened HttpTypes
  import opened HttpStep
  import opened HttpReference
  import opened HttpExecute
  import opened HttpFields
  import opened HttpBody
  import opened HttpLines
  import opened HttpHeaders
  import opened HttpChunks
  import opened HttpStarts
  import opened HttpMessage

  // ----- names of headers -----

  // Characters of a line up to its colon.
  predicate NoMark(w: seq<Octet>) { ':' !in w && CR !in w && LF !in w && ' ' !in w }

  lemma NameByteRefused(cfg: Config, p: Parser, ch: Octet)
    requires p.errno == OK && p.nread < MAX_HEADER_SIZE && (p.state.HeaderFieldStart? || p.state.HeaderField?)
    requires ch != CR && ch != LF && ch != ' ' && Token(true, ch) == '\0' && (ch == ':' ==> p.state.HeaderFieldStart?)
    ensures var r := OneByte(cfg, p, ch); r.end.Failed? && r.p.errno == INVALID_HEADER_TOKEN
  {
    hide StepStart, StepResponse, StepStatus, StepMethod, StepUrl, StepRequest, StepValue, StepEnd, StepChunk, Shaped, FieldLetter;
    assert Token(cfg.strict, ch) == Token(true, ch);
    assert Once(cfg, Counted(p), ch) == StepField(cfg, Counted(p), ch);
  }

  // Any character that is no token refuses a header name, wherever it stands.
  lemma {:induction false} BadName(cfg: Config, p: Parser, w: seq<Octet>)
    requires p.errno == OK && p.state.HeaderFieldStart? && w != [] && NoMark(w) && !IsName(w) && p.nread + |w| <= MAX_HEADER_SIZE
    ensures var r := Feed(cfg, p, w); r.end.Failed? && r.p.errno == INVALID_HEADER_TOKEN
  {
    hide OneByte, Feed, Token;
    var n := |w| - 1;
    var v, ch := w[..n], w[n];
    assert w == v + [ch] && ch in w;
    FeedSplit(cfg, p, v, [ch]);
    if v == [] {
      assert w == [ch] && Token(true, ch) == '\0';
      NameByteRefused(cfg, p, ch);
      Single(cfg, p, ch);
    } else if IsName(v) {
      assert Token(true, ch) == '\0';
      AfterName(cfg, p, v);
      var q := Feed(cfg, p, v).p;
      NameByteRefused(cfg, q, ch);
      Single(cfg, q, ch);
    } else {
      BadName(cfg, p, v);
    }
  }

  lemma AfterName(cfg: Config, p: Parser, v: seq<Octet>)
    requires p.errno == OK && p.state.HeaderFieldStart? && IsName(v) && p.nread + |v| <= MAX_HEADER_SIZE
    ensures var r := Feed(cfg, p, v); r.end.More? && r.p.errno == OK && r.p.state.HeaderField? && r.p.nread == p.nread + |v|
  {
    hide Feed, HttpFields.Follows, HttpFields.Lowered, IsName;
    NameFed(cfg, p, v);
  }

  // What stands before a colon is taken as the name of a header exactly if it
  // is one: not empty, and of tokens only.
  lemma NameExactly(cfg: Config, p: Parser, w: seq<Octet>)
    requires p.errno == OK && p.state.HeaderFieldStart? && NoMark(w) && p.nread + |w| < MAX_HEADER_SIZE
    ensures Feed(cfg, p, w + ":").end.More? <==> IsName(w)
  {
    hide Feed, OneByte, Token, IsName, HttpFields.Standing;
    FeedSplit(cfg, p, w, ":");
    if w == [] {
      ColonIsNoToken();
      NameByteRefused(cfg, p, ':');
      Single(cfg, p, ':');
      assert w + ":" == ":";
      NothingIsNoName();
    } else if IsName(w) {
      FieldRecognised(cfg, p, w);
      assert w + [':'] == w + ":";
    } else {
      BadName(cfg, p, w);
    }
  }

  lemma ColonIsNoToken()
    ensures Token(true, ':') == '\0'
  {
  }

  lemma NothingIsNoName()
    ensures !IsName([])
  {
  }

  // ----- lengths -----

  lemma LengthByteRefused(cfg: Config, p: Parser, ch: Octet)
    requires LengthState(p) && p.nread < MAX_HEADER_SIZE && !IsNum(ch) && ch != CR && ch != LF
    requires (p.state.HeaderValueStart? && ch != ' ' && ch != '\t') || (p.state.HeaderValue? && ch != ' ')
    ensures var r := OneByte(cfg, p, ch); r.end.Failed? && r.p.errno == INVALID_CONTENT_LENGTH
  {
    hide StepStart, StepResponse, StepStatus, StepMethod, StepUrl, StepRequest, StepField, StepEnd, StepChunk, Shaped, LengthDigit;
    assert Once(cfg, Counted(p), ch) == StepValue(Counted(p), ch);
  }

  // Any other character refuses a Content-Length, wherever it stands.
  lemma {:induction false} BadLength(cfg: Config, p: Parser, v: seq<Octet>)
    requires LengthState(p) && p.state.HeaderValueStart? && ValueOk(v) && !LengthText(v) && p.nread + |v| <= MAX_HEADER_SIZE
    ensures !Feed(cfg, p, v).end.More?
  {
    hide OneByte, IsNum;
    var n := |v| - 1;
    var u, ch := v[..n], v[n];
    assert v == u + [ch] && ch in v;
    if u == [] {
      assert Feed(cfg, p, u) == Fed(p, [], 0, More);
      LengthByteRefused(cfg, p, ch);
    } else if LengthText(u) {
      assert !IsNum(ch) && ch != ' ';
      LengthFed(cfg, p, u);
      if Feed(cfg, p, u).end.More? { LengthByteRefused(cfg, Feed(cfg, p, u).p, ch); }
    } else {
      BadLength(cfg, p, u);
    }
  }

  // A chunk begins with a digit.
  lemma BadSize(cfg: Config, p: Parser, ch: Octet)
    requires AtChunk(p) && Unhex(ch).None?
    ensures var r := OneByte(cfg, p, ch); r.end.Failed? && r.p.errno == INVALID_CHUNK_SIZE
  {
    hide StepStart, StepResponse, StepStatus, StepMethod, StepUrl, StepRequest, StepField, StepValue, StepEnd, Shaped, LengthDigit;
    assert Once(cfg, Counted(p), ch) == StepChunk(cfg, Counted(p), ch);
  }

  // ----- a head that is too long, or cut short -----

  // No more than MAX_HEADER_SIZE bytes of a head are read.
  lemma HeadTooLong(cfg: Config, p: Parser, ch: Octet)
    requires p.errno == OK && ParsingHeader(p.state) && p.nread >= MAX_HEADER_SIZE
    ensures var r := OneByte(cfg, p, ch); r.end.Failed? && r.p.errno == HEADER_OVERFLOW && r.log == []
  {
  }

  // States between the first byte of a message and the end of its headers.
  predicate InHead(s: State) {
    || s.ResOrRespH? || ResponseState(s) || StatusState(s) || s.ReqMethod? || s.ReqSpacesBeforeUrl? || InUrl(s) || RequestState(s)
    || s.HeaderFieldStart? || s.HeaderField? || s.HeaderValueStart? || s.HeaderValue? || s.HeaderAlmostDone? || s.HeaderValueLws?
    || s.HeadersAlmostDone?
  }

  predicate NotOver(log: seq<Event>) { Notify(HeadersComplete) !in log && Notify(MessageComplete) !in log }

  // The head goes on until the application is told that it is over.
  lemma OnceInHead(cfg: Config, p: Parser, ch: Octet)
    requires p.errno == OK && InHead(p.state)
    ensures var o := Once(cfg, p, ch);
      (o.Next? || o.Again?) && NotOver(Tell(o.act)) ==> InHead(o.p.state)
  {
    hide Shaped, StepStart, StepResponse, StepStatus, StepMethod, StepUrl, StepRequest, StepField, StepValue, StepEnd, InHead;
    NotInHead(p.state);
    Dispatch(cfg, p, ch);
    if p.state.ResOrRespH? { StartInHead(p, ch); }
    else if ResponseState(p.state) { ResponseInHead(cfg, p, ch); }
    else if StatusState(p.state) { StatusInHead(cfg, p, ch); }
    else if p.state.ReqMethod? { MethodInHead(p, ch); }
    else if p.state.ReqSpacesBeforeUrl? || InUrl(p.state) { UrlInHead(cfg, p, ch); }
    else if RequestState(p.state) { RequestInHead(cfg, p, ch); }
    else if p.state.HeaderFieldStart? || p.state.HeaderField? { FieldInHead(cfg, p, ch); }
    else if p.state.HeaderValueStart? || p.state.HeaderValue? { ValueInHead(p, ch); }
    else { EndInHead(cfg, p, ch); }
  }

  lemma NotInHead(s: State)
    requires InHead(s)
    ensures !Bulk(s) && (StartState(s) ==> s.ResOrRespH?)
    ensures s.ResOrRespH? || ResponseState(s) || StatusState(s) || s.ReqMethod? || s.ReqSpacesBeforeUrl? || InUrl(s) || RequestState(s)
      || s.HeaderFieldStart? || s.HeaderField? || s.HeaderValueStart? || s.HeaderValue? || (EndState(s) && !s.HeadersDone?)
  {
  }

  predicate StaysInHead(o: Outcome) { (o.Next? || o.Again?) && NotOver(Tell(o.act)) ==> InHead(o.p.state) }

  lemma StartInHead(p: Parser, ch: Octet)
    requires p.errno == OK && p.state.ResOrRespH?
    ensures StaysInHead(StepStart(p, ch))
  {
  }

  lemma ResponseInHead(cfg: Config, p: Parser, ch: Octet)
    requires p.errno == OK && ResponseState(p.state)
    ensures StaysInHead(StepResponse(cfg, p, ch))
  {
    hide Shaped;
  }

  lemma StatusInHead(cfg: Config, p: Parser, ch: Octet)
    requires p.errno == OK && StatusState(p.state)
    ensures StaysInHead(StepStatus(cfg, p, ch))
  {
    hide Shaped;
  }

  lemma MethodInHead(p: Parser, ch: Octet)
    requires p.errno == OK && p.state.ReqMethod?
    ensures StaysInHead(StepMethod(p, ch))
  {
    hide Shaped, OtherMethod, Name;
  }

  lemma UrlInHead(cfg: Config, p: Parser, ch: Octet)
    requires p.errno == OK && (p.state.ReqSpacesBeforeUrl? || InUrl(p.state))
    ensures StaysInHead(StepUrl(cfg, p, ch))
  {
    hide Shaped, UrlChar;
  }

  lemma RequestInHead(cfg: Config, p: Parser, ch: Octet)
    requires p.errno == OK && RequestState(p.state)
    ensures StaysInHead(StepRequest(cfg, p, ch))
  {
    hide Shaped;
  }

  lemma FieldInHead(cfg: Config, p: Parser, ch: Octet)
    requires p.errno == OK && (p.state.HeaderFieldStart? || p.state.HeaderField?)
    ensures StaysInHead(StepField(cfg, p, ch))
  {
    hide Shaped, Token;
  }

  lemma ValueInHead(p: Parser, ch: Octet)
    requires p.errno == OK && (p.state.HeaderValueStart? || p.state.HeaderValue?)
    ensures StaysInHead(StepValue(p, ch))
  {
    hide Shaped, LengthDigit;
  }

  lemma EndInHead(cfg: Config, p: Parser, ch: Octet)
    requires p.errno == OK && EndState(p.state) && !p.state.HeadersDone?
    ensures StaysInHead(StepEnd(cfg, p, ch))
  {
    hide Shaped, NewMessage;
  }

  lemma NotOverCat(a: seq<Event>, b: seq<Event>)
    ensures NotOver(a + b) <==> NotOver(a) && NotOver(b)
  {
  }

  lemma {:induction false} SwitchInHead(cfg: Config, p: Parser, ch: Octet)
    requires p.errno == OK && InHead(p.state) && !Bulk(p.state)
    ensures var r := Switch(cfg, p, ch); r.end.More? && NotOver(r.log) ==> InHead(r.p.state)
    decreases Rank(p.state)
  {
    hide Once, InHead, NotOver, Rank, Shaped, Bulk;
    var o := Once(cfg, p, ch);
    OnceInHead(cfg, p, ch);
    if o.Again? {
      SwitchAgain(cfg, p, ch);
      NotOverCat(Tell(o.act), Switch(cfg, o.p, ch).log);
      if NotOver(Tell(o.act)) { SwitchInHead(cfg, o.p, ch); }
    } else {
      SwitchLast(cfg, p, ch);
      if o.Next? { NotOverCat(Tell(o.act), Own(o.p.state, ch)); }
    }
  }

  // From a first byte on, until the end of the headers has been told, an end of
  // the connection is an error.
  lemma {:induction false} FedInHead(cfg: Config, p: Parser, b: seq<Octet>)
    requires p.errno == OK && InHead(p.state)
    ensures var r := Feed(cfg, p, b); r.end.More? && NotOver(r.log) ==> InHead(r.p.state)
  {
    hide OneByte, InHead, NotOver;
    if b != [] {
      var n := |b| - 1;
      FedInHead(cfg, p, b[..n]);
      var r := Feed(cfg, p, b[..n]);
      if r.end.More? {
        NotOverCat(r.log, OneByte(cfg, r.p, b[n]).log);
        if InHead(r.p.state) { ByteInHead(cfg, r.p, b[n]); }
      }
    }
  }

  lemma ByteInHead(cfg: Config, p: Parser, ch: Octet)
    requires p.errno == OK && InHead(p.state)
    ensures var r := OneByte(cfg, p, ch); r.end.More? && NotOver(r.log) ==> InHead(r.p.state)
  {
    NotInHead(p.state);
    hide InHead, NotOver, Switch;
    OneByteCases(cfg, p, ch);
    SwitchInHead(cfg, Counted(p), ch);
  }

  lemma EofInHead(p: Parser)
    requires p.errno == OK && InHead(p.state)
    ensures EofParser(p).errno == INVALID_EOF_STATE && EofNotes(p) == []
  {
  }

  // The first byte of a message.
  lemma FirstByteIn(cfg: Config, p: Parser, s: Start)
    requires Awaits(p, s) && StartOk(cfg.strict, s) && p.nread < MAX_HEADER_SIZE
    ensures StartBytes(s) != [] && var r := OneByte(cfg, p, StartBytes(s)[0]); r.end.More? ==> InHead(r.p.state)
  {
    FirstLetters(cfg.strict, s);
    var ch := StartBytes(s)[0];
    hide StartBytes, StepResponse, StepStatus, StepMethod, StepUrl, StepRequest, StepField, StepValue, StepEnd, StepChunk, Shaped;
    var q := Counted(p);
    assert Once(cfg, q, ch) == StepStart(q, ch);
    if Once(cfg, q, ch).Again? {
      var r := q.(kind := Kind.Request, state := StartReq, flags := {}, contentLength := UNKNOWN_LENGTH);
      SwitchAgain(cfg, q, ch);
      assert Once(cfg, r, ch) == StepStart(r, ch);
    }
  }

  // If the connection ends within the head of a message, that is an error,
  // wherever it is cut.
  lemma HeadIsCut(cfg: Config, p: Parser, m: Message, k: nat)
    requires Awaits(p, m.start) && StartOk(cfg.strict, m.start) && HeadersOk(m.headers) && p.nread + |HeadBytes(m)| <= MAX_HEADER_SIZE
    requires 0 < k < |HeadBytes(m)|
    ensures var r := Feed(cfg, p, HeadBytes(m)[..k]); r.end.More? && EofParser(r.p).errno == INVALID_EOF_STATE && EofNotes(r.p) == []
  {
    hide Feed, StartOk, HeadersOk, HeadFirst, InHead, OneByte, EofParser, EofNotes;
    var b := HeadFirst(m);
    var a, c := b[..k], b[k..];
    assert HeadBytes(m)[..k] == a && a + c == b;
    HeadRead(cfg, p, m);
    FeedSplit(cfg, p, a, c);
    var r := Feed(cfg, p, a);
    HeadIsNotOver(cfg.strict, m);
    NotOverCat(r.log, Feed(cfg, r.p, c).log);
    FirstByteIn(cfg, p, m.start);
    FirstOfHead(m);
    assert [a[0]] + a[1..] == a;
    Single(cfg, p, a[0]);
    FeedSplit(cfg, p, [a[0]], a[1..]);
    var q := OneByte(cfg, p, a[0]);
    NotOverCat(q.log, Feed(cfg, q.p, a[1..]).log);
    FedInHead(cfg, q.p, a[1..]);
    EofInHead(r.p);
  }

  lemma FirstOfHead(m: Message)
    requires StartBytes(m.start) != []
    ensures HeadFirst(m) != [] && HeadFirst(m)[0] == StartBytes(m.start)[0]
  {
    hide StartBytes, HeadersBytes;
  }

  lemma {:induction false} BytesAreNotOver(k: DataKind, b: seq<Octet>)
    ensures NotOver(Bytes(k, b))
  {
    if b != [] { BytesAreNotOver(k, b[..|b| - 1]); }
  }

  lemma {:induction false} LinesAreNotOver(ls: seq<Line>)
    ensures NotOver(LinesEvents(ls))
  {
    hide NotOver;
    NothingIsNotOver();
    if ls != [] {
      var l := ls[|ls| - 1];
      LinesAreNotOver(ls[..|ls| - 1]);
      BytesAreNotOver(Value, l.text);
      DataIsNotOver(Value);
      NotOverCat(Bytes(Value, l.text), [Data(Value, [])]);
      NotOverCat(LinesEvents(ls[..|ls| - 1]), LineEvents(l));
    }
  }

  lemma NothingIsNotOver()
    ensures NotOver([])
  {
  }

  lemma DataIsNotOver(k: DataKind)
    ensures NotOver([Data(k, [])])
  {
  }

  lemma {:induction false} HeadersAreNotOver(hs: seq<Header>)
    ensures NotOver(HeadersEvents(hs))
  {
    hide NotOver, LinesEvents;
    NothingIsNotOver();
    if hs != [] {
      var h := hs[|hs| - 1];
      HeadersAreNotOver(hs[..|hs| - 1]);
      BytesAreNotOver(Field, h.name);
      DataIsNotOver(Field);
      NotOverCat(Bytes(Field, h.name), [Data(Field, [])]);
      LinesAreNotOver(h.lines);
      NotOverCat(Bytes(Field, h.name) + [Data(Field, [])], LinesEvents(h.lines));
      NotOverCat(HeadersEvents(hs[..|hs| - 1]), HeaderEvents(h));
    }
  }

  lemma HeadIsNotOver(strict: bool, m: Message)
    requires StartOk(strict, m.start)
    ensures NotOver(HeadEvents(m))
  {
    hide HeadersEvents;
    HeadersAreNotOver(m.headers);
    NotOverCat(StartEvents(m.start), HeadersEvents(m.headers));
    if m.start.Asks? { BytesAreNotOver(Url, m.start.line.url); }
  }

  // ----- fixed characters and numbers -----

  // The only character that a strict parser takes in a state.
  function Expected(s: State): Option<Octet> {
    if s.ResH? || s.ResHT? || s.ReqHttpH? || s.ReqHttpHT? then Some('T')
    else if s.ResHTT? || s.ReqHttpHTT? then Some('P')
    else if s.ResHTTP? || s.ReqHttpHTTP? then Some('/')
    else if s.ChunkDataAlmostDone? then Some(CR)
    else if s.ResLineAlmostDone? || s.ReqLineAlmostDone? || s.HeaderAlmostDone? || s.HeadersAlmostDone? || s.ChunkSizeAlmostDone? || s.ChunkDataDone?
    then Some(LF)
    else None
  }

  lemma FixedByte(cfg: Config, p: Parser, ch: Octet)
    requires cfg.strict && p.errno == OK && !TooLong(p) && Expected(p.state).Some? && ch != Expected(p.state).value
    ensures !OneByte(cfg, p, ch).end.More?
  {
    hide Shaped, Once, OneByte, AfterHeaders, CompleteHeaders, NewMessage, HeaderFlag;
    ExpectedIsNotBulk(p.state);
    Dispatch(cfg, Counted(p), ch);
    OneByteCases(cfg, p, ch);
    SwitchLast(cfg, Counted(p), ch);
  }

  lemma ExpectedIsNotBulk(s: State)
    requires Expected(s).Some?
    ensures !Bulk(s)
  {
  }

  lemma DigitRefused(cfg: Config, p: Parser, f: Place, v: nat, ch: Octet)
    requires p.errno == OK && p.state == HttpLines.Within(f) && p == With(f, p, v) && p.nread < MAX_HEADER_SIZE && IsNum(ch) && v * 10 + Digit(ch) > 999
    ensures OneByte(cfg, p, ch).end.Failed?
  {
    hide Shaped, StepStart, StepMethod, StepUrl, StepField, StepValue, StepEnd, StepChunk;
  }

  // A version or a status code is taken exactly if it is at most 999, and the
  // version of a request does not begin with zero.
  lemma {:induction false} NumberExactly(cfg: Config, p: Parser, f: Place, ds: seq<Octet>)
    requires p.errno == OK && p.state == Before(f) && AllDigits(10, ds) && p.nread + |ds| <= MAX_HEADER_SIZE
    ensures Feed(cfg, p, ds).end.More? <==> NumberOk(f, ds)
  {
    hide Feed, OneByte, With, HttpLines.Within, Before;
    if NumberOk(f, ds) {
      NumberRead(cfg, p, f, ds);
    } else {
      var n := |ds| - 1;
      var v, ch := ds[..n], ds[n];
      assert ds == v + [ch];
      FeedSplit(cfg, p, v, [ch]);
      if n == 0 {
        assert v == [] && ds == [ch];
        ZeroRefused(cfg, p, f, ds);
        Single(cfg, p, ch);
      } else {
        NumberExactly(cfg, p, f, v);
        if NumberOk(f, v) {
          NumberRead(cfg, p, f, v);
          var q := p.(state := HttpLines.Within(f), nread := p.nread + n);
          WithAgain(f, q, Number(10, v), Number(10, v));
          DigitRefused(cfg, With(f, q, Number(10, v)), f, Number(10, v), ch);
          Single(cfg, With(f, q, Number(10, v)), ch);
        }
      }
    }
  }

  lemma ZeroRefused(cfg: Config, p: Parser, f: Place, ds: seq<Octet>)
    requires p.errno == OK && p.state == Before(f) && AllDigits(10, ds) && |ds| == 1 && p.nread < MAX_HEADER_SIZE && !NumberOk(f, ds)
    ensures OneByte(cfg, p, ds[0]).end.Failed?
  {
    hide Shaped, StepStart, StepMethod, StepUrl, StepField, StepValue, StepEnd, StepChunk;
    assert ds[..0] == [];
    assert Number(10, ds) == Digit(ds[0]);
  }

  // ----- between messages -----

  // Line ends before a message do not matter, but that a parser of responses
  // tells of a beginning for each of their characters.
  lemma BreakBefore(cfg: Config, p: Parser, ch: Octet)
    requires p.errno == OK && p.nread < MAX_HEADER_SIZE && (ch == CR || ch == LF)
    requires p.state.StartReq? || p.state.StartReqOrRes? || p.state.StartRes?
    ensures OneByte(cfg, p, ch) ==
      if p.state.StartRes? then Fed(p.(nread := p.nread + 1, flags := {}, contentLength := UNKNOWN_LENGTH), [Notify(MessageBegin)], 1, More)
      else Fed(p.(nread := p.nread + 1), [], 1, More)
  {
    hide OneByte, StepResponse, StepStatus, StepMethod, StepUrl, StepRequest, StepField, StepValue, StepEnd, StepChunk, Shaped;
    assert Once(cfg, Counted(p), ch) == StepStart(Counted(p), ch);
    NextByte(cfg, p, ch);
  }
}
