// The request line and the status line.
module HttpLines {
  import opened Options
  import opened HttpTypes
  import opened HttpStep
  import opened HttpReference
  import opened HttpMethods
  import opened HttpUrls
  import opened HttpBody

  // ----- the numbers of a line -----

  datatype Place = ReqMajorAt | ReqMinorAt | ResMajorAt | ResMinorAt | StatusAt

  // The state before the first digit, and the one after it.
  function Before(f: Place): State {
    match f
    case ReqMajorAt => ReqFirstMajor
    case ReqMinorAt => ReqFirstMinor
    case ResMajorAt => ResFirstMajor
    case ResMinorAt => ResFirstMinor
    case StatusAt => ResFirstStatusCode
  }

  function Within(f: Place): State {
    match f
    case ReqMajorAt => ReqMajor
    case ReqMinorAt => ReqMinor
    case ResMajorAt => ResMajor
    case ResMinorAt => ResMinor
    case StatusAt => ResStatusCode
  }

  function With(f: Place, p: Parser, v: nat): Parser {
    match f
    case ReqMajorAt => p.(major := v)
    case ReqMinorAt => p.(minor := v)
    case ResMajorAt => p.(major := v)
    case ResMinorAt => p.(minor := v)
    case StatusAt => p.(status := v)
  }

  // Digits for a number of at most three digits' worth; a request's version
  // does not begin with zero.
  predicate NumberOk(f: Place, ds: seq<Octet>) {
    AllDigits(10, ds) && Number(10, ds) <= 999 && (f.ReqMajorAt? ==> ds[0] != '0')
  }

  lemma FirstDigit(cfg: Config, p: Parser, f: Place, ch: Octet)
    requires p.errno == OK && p.state == Before(f) && p.nread < MAX_HEADER_SIZE && IsNum(ch) && (f.ReqMajorAt? ==> ch != '0')
    ensures OneByte(cfg, p, ch) == Fed(With(f, p.(state := Within(f), nread := p.nread + 1), Digit(ch)), [], 1, More)
  {
    hide OneByte, Once, Shaped;
    Dispatch(cfg, Counted(p), ch);
    NextByte(cfg, p, ch);
  }

  lemma MoreDigit(cfg: Config, p: Parser, f: Place, v: nat, ch: Octet)
    requires p.errno == OK && p.state == Within(f) && p == With(f, p, v) && p.nread < MAX_HEADER_SIZE && IsNum(ch) && v * 10 + Digit(ch) <= 999
    ensures OneByte(cfg, p, ch) == Fed(With(f, p.(nread := p.nread + 1), v * 10 + Digit(ch)), [], 1, More)
  {
    hide OneByte, Once, Shaped, StepRequest, StepResponse, StepStatus;
    Dispatch(cfg, Counted(p), ch);
    if f.ReqMajorAt? || f.ReqMinorAt? { RequestDigit(cfg, Counted(p), f, v, ch); } else { ResponseDigit(cfg, Counted(p), f, v, ch); }
    NextByte(cfg, p, ch);
  }

  lemma RequestDigit(cfg: Config, p: Parser, f: Place, v: nat, ch: Octet)
    requires p.errno == OK && p.state == Within(f) && p == With(f, p, v) && IsNum(ch) && v * 10 + Digit(ch) <= 999
    requires f.ReqMajorAt? || f.ReqMinorAt?
    ensures StepRequest(cfg, p, ch) == Next(With(f, p, v * 10 + Digit(ch)), Quiet)
  {
    hide Shaped;
  }

  lemma ResponseDigit(cfg: Config, p: Parser, f: Place, v: nat, ch: Octet)
    requires p.errno == OK && p.state == Within(f) && p == With(f, p, v) && IsNum(ch) && v * 10 + Digit(ch) <= 999
    requires !f.ReqMajorAt? && !f.ReqMinorAt?
    ensures (if f.StatusAt? then StepStatus(cfg, p, ch) else StepResponse(cfg, p, ch)) == Next(With(f, p, v * 10 + Digit(ch)), Quiet)
  {
    hide Shaped;
  }

  lemma {:induction false} NumberRead(cfg: Config, p: Parser, f: Place, ds: seq<Octet>)
    requires p.errno == OK && p.state == Before(f) && NumberOk(f, ds) && p.nread + |ds| <= MAX_HEADER_SIZE
    ensures Feed(cfg, p, ds) == Fed(With(f, p.(state := Within(f), nread := p.nread + |ds|), Number(10, ds)), [], |ds|, More)
  {
    hide OneByte, With, Within, Before;
    var n := |ds| - 1;
    var v, ch := ds[..n], ds[n];
    assert ds == v + [ch];
    if n == 0 {
      assert Feed(cfg, p, v) == Fed(p, [], 0, More);
      assert Number(10, v) == 0;
      FirstDigit(cfg, p, f, ch);
    } else {
      PrefixIsSmaller(10, ds);
      NumberRead(cfg, p, f, v);
      var q := p.(state := Within(f), nread := p.nread + n);
      WithAgain(f, q, Number(10, v), Number(10, ds));
      MoreDigit(cfg, With(f, q, Number(10, v)), f, Number(10, v), ch);
    }
  }

  lemma WithAgain(f: Place, p: Parser, a: nat, b: nat)
    ensures var q := With(f, p, a);
      && q.state == p.state && q.errno == p.errno && q.nread == p.nread && With(f, q, a) == q
      && With(f, q.(nread := q.nread + 1), b) == With(f, p.(nread := p.nread + 1), b)
  {
  }

  // ----- fixed parts -----

  // The state behind a character that is fixed.
  function RequestNext(s: State, ch: Octet): Option<State> {
    if s.ReqHttpStart? && ch == 'H' then Some(ReqHttpH)
    else if s.ReqHttpH? && ch == 'T' then Some(ReqHttpHT)
    else if s.ReqHttpHT? && ch == 'T' then Some(ReqHttpHTT)
    else if s.ReqHttpHTT? && ch == 'P' then Some(ReqHttpHTTP)
    else if s.ReqHttpHTTP? && ch == '/' then Some(ReqFirstMajor)
    else if s.ReqMajor? && ch == '.' then Some(ReqFirstMinor)
    else if s.ReqMinor? && ch == CR then Some(ReqLineAlmostDone)
    else if s.ReqMinor? && ch == LF then Some(HeaderFieldStart)
    else if s.ReqLineAlmostDone? && ch == LF then Some(HeaderFieldStart)
    else None
  }

  function ResponseNext(s: State, ch: Octet): Option<State> {
    if s.ResH? && ch == 'T' then Some(ResHT)
    else if s.ResHT? && ch == 'T' then Some(ResHTT)
    else if s.ResHTT? && ch == 'P' then Some(ResHTTP)
    else if s.ResHTTP? && ch == '/' then Some(ResFirstMajor)
    else if s.ResMajor? && ch == '.' then Some(ResFirstMinor)
    else if s.ResMinor? && ch == ' ' then Some(ResFirstStatusCode)
    else None
  }

  lemma RequestStep(cfg: Config, p: Parser, ch: Octet)
    requires p.errno == OK && RequestNext(p.state, ch).Some?
    ensures RequestState(p.state) && StepRequest(cfg, p, ch) == Goto(p, RequestNext(p.state, ch).value)
  {
    hide Shaped;
  }

  lemma ResponseStep(cfg: Config, p: Parser, ch: Octet)
    requires p.errno == OK && ResponseNext(p.state, ch).Some?
    ensures ResponseState(p.state) && StepResponse(cfg, p, ch) == Goto(p, ResponseNext(p.state, ch).value)
  {
    hide Shaped;
  }

  // A fixed character of a request or a response.
  lemma Constant(cfg: Config, p: Parser, ch: Octet, next: State)
    requires p.errno == OK && p.nread < MAX_HEADER_SIZE
    requires RequestNext(p.state, ch) == Some(next) || ResponseNext(p.state, ch) == Some(next)
    ensures Feed(cfg, p, [ch]) == Fed(Moved(p, next, 1), [], 1, More)
  {
    NoData(p.state, ch);
    hide OneByte, Once, Shaped, Feed, StepRequest, StepResponse, RequestNext, ResponseNext, Group, RequestState, ResponseState, InUrl;
    Dispatch(cfg, Counted(p), ch);
    if RequestNext(p.state, ch) == Some(next) { RequestStep(cfg, Counted(p), ch); } else { ResponseStep(cfg, Counted(p), ch); }
    NextByte(cfg, p, ch);
    Single(cfg, p, ch);
  }

  lemma NoData(s: State, ch: Octet)
    ensures RequestNext(s, ch).Some? ==> Group(RequestNext(s, ch).value).None? && !Bulk(s) && ParsingHeader(s)
    ensures ResponseNext(s, ch).Some? ==> Group(ResponseNext(s, ch).value).None? && !Bulk(s) && ParsingHeader(s)
  {
  }

  // A parser that has gone from state to state over n bytes, with nothing told.
  function Moved(p: Parser, s: State, n: nat): Parser { p.(state := s, nread := p.nread + n) }

  lemma HttpRead(cfg: Config, p: Parser)
    requires p.errno == OK && p.state.ReqHttpStart? && p.nread + 5 <= MAX_HEADER_SIZE
    ensures Feed(cfg, p, "HTTP/") == Fed(Moved(p, ReqFirstMajor, 5), [], 5, More)
  {
    hide Feed;
    Constant(cfg, p, 'H', ReqHttpH);
    Constant(cfg, Moved(p, ReqHttpH, 1), 'T', ReqHttpHT);
    Then(cfg, p, "H", Moved(p, ReqHttpH, 1), [], "T", Moved(p, ReqHttpHT, 2), []);
    Constant(cfg, Moved(p, ReqHttpHT, 2), 'T', ReqHttpHTT);
    Then(cfg, p, "H" + "T", Moved(p, ReqHttpHT, 2), [], "T", Moved(p, ReqHttpHTT, 3), []);
    Constant(cfg, Moved(p, ReqHttpHTT, 3), 'P', ReqHttpHTTP);
    Then(cfg, p, "H" + "T" + "T", Moved(p, ReqHttpHTT, 3), [], "P", Moved(p, ReqHttpHTTP, 4), []);
    Constant(cfg, Moved(p, ReqHttpHTTP, 4), '/', ReqFirstMajor);
    Then(cfg, p, "H" + "T" + "T" + "P", Moved(p, ReqHttpHTTP, 4), [], "/", Moved(p, ReqFirstMajor, 5), []);
    assert "H" + "T" + "T" + "P" + "/" == "HTTP/";
  }

  lemma LineEndRead(cfg: Config, p: Parser, eol: Eol)
    requires p.errno == OK && p.state.ReqMinor? && p.nread + |EolBytes(eol)| <= MAX_HEADER_SIZE
    ensures var b := EolBytes(eol); Feed(cfg, p, b) == Fed(Moved(p, HeaderFieldStart, |b|), [], |b|, More)
  {
    hide Feed;
    if eol.BareLf? {
      Constant(cfg, p, LF, HeaderFieldStart);
    } else {
      var u := Moved(p, ReqLineAlmostDone, 1);
      Constant(cfg, p, CR, ReqLineAlmostDone);
      Constant(cfg, u, LF, HeaderFieldStart);
      Then(cfg, p, [CR], u, [], [LF], Moved(p, HeaderFieldStart, 2), []);
      assert [CR] + [LF] == CRLF;
    }
  }

  // Where spaces are skipped.
  predicate SkipsSpaces(s: State) { s.ReqSpacesBeforeUrl? || s.ReqHttpStart? || s.ResFirstStatusCode? }

  lemma {:induction false} GapRead(cfg: Config, p: Parser, n: nat)
    requires p.errno == OK && SkipsSpaces(p.state) && p.nread + n <= MAX_HEADER_SIZE
    ensures Feed(cfg, p, Gap(n)) == Fed(p.(nread := p.nread + n), [], n, More)
  {
    hide OneByte, Feed, SkipsSpaces;
    if n == 0 {
      FeedOfNothing(cfg, p);
    } else {
      GapRead(cfg, p, n - 1);
      GapLength(n - 1);
      var q := p.(nread := p.nread + (n - 1));
      GapByte(cfg, q);
      Single(cfg, q, ' ');
      Then(cfg, p, Gap(n - 1), q, [], [' '], q.(nread := q.nread + 1), []);
    }
  }

  lemma FeedOfNothing(cfg: Config, p: Parser)
    requires p.errno == OK
    ensures Feed(cfg, p, []) == Fed(p, [], 0, More)
  {
  }

  lemma GapByte(cfg: Config, p: Parser)
    requires p.errno == OK && SkipsSpaces(p.state) && p.nread < MAX_HEADER_SIZE
    ensures OneByte(cfg, p, ' ') == Fed(p.(nread := p.nread + 1), [], 1, More)
  {
    hide OneByte, Once, Shaped, UrlChar;
    Dispatch(cfg, Counted(p), ' ');
    NextByte(cfg, p, ' ');
  }

  // The parser after the version of a request.
  function WithVersion(p: Parser, s: State, n: nat, major: nat, minor: nat): Parser {
    p.(state := s, nread := p.nread + n, major := major, minor := minor)
  }

  lemma VersionNumbers(cfg: Config, p: Parser, major: seq<Octet>, minor: seq<Octet>)
    requires p.errno == OK && p.state.ReqFirstMajor? && NumberOk(ReqMajorAt, major) && NumberOk(ReqMinorAt, minor)
    requires p.nread + |major| + 1 + |minor| <= MAX_HEADER_SIZE
    ensures var b := major + "." + minor;
      Feed(cfg, p, b) == Fed(WithVersion(p, ReqMinor, |b|, Number(10, major), Number(10, minor)), [], |b|, More)
  {
    hide Feed, Number;
    NumberRead(cfg, p, ReqMajorAt, major);
    var r := p.(state := ReqMajor, nread := p.nread + |major|, major := Number(10, major));
    Constant(cfg, r, '.', ReqFirstMinor);
    var s := Moved(r, ReqFirstMinor, 1);
    Then(cfg, p, major, r, [], ".", s, []);
    NumberRead(cfg, s, ReqMinorAt, minor);
    var t := s.(state := ReqMinor, nread := s.nread + |minor|, minor := Number(10, minor));
    Then(cfg, p, major + ".", s, [], minor, t, []);
  }

  // The version and the end of the request line.
  function VersionBytes(major: seq<Octet>, minor: seq<Octet>, eol: Eol): seq<Octet> { "HTTP/" + (major + "." + minor) + EolBytes(eol) }

  lemma VersionRead(cfg: Config, p: Parser, major: seq<Octet>, minor: seq<Octet>, eol: Eol)
    requires p.errno == OK && p.state.ReqHttpStart? && NumberOk(ReqMajorAt, major) && NumberOk(ReqMinorAt, minor)
    requires p.nread + |VersionBytes(major, minor, eol)| <= MAX_HEADER_SIZE
    ensures var b := VersionBytes(major, minor, eol);
      Feed(cfg, p, b) == Fed(WithVersion(p, HeaderFieldStart, |b|, Number(10, major), Number(10, minor)), [], |b|, More)
  {
    hide Feed, Number;
    var b := major + "." + minor;
    HttpRead(cfg, p);
    var q := Moved(p, ReqFirstMajor, 5);
    VersionNumbers(cfg, q, major, minor);
    var t := WithVersion(q, ReqMinor, |b|, Number(10, major), Number(10, minor));
    Then(cfg, p, "HTTP/", q, [], b, t, []);
    LineEndRead(cfg, t, eol);
    Then(cfg, p, "HTTP/" + b, t, [], EolBytes(eol), Moved(t, HeaderFieldStart, |EolBytes(eol)|), []);
  }

  // ----- the URL -----

  lemma DeadStaysDead(strict: bool, ch: Octet)
    ensures UrlChar(strict, Dead, ch) == Dead && UrlChar(strict, ReqServerStart, ' ') == Dead
  {
  }

  lemma UrlByte(cfg: Config, p: Parser, ch: Octet)
    requires p.errno == OK && (p.state.ReqSpacesBeforeUrl? || InUrl(p.state)) && p.nread < MAX_HEADER_SIZE && ch != ' ' && ch != CR && ch != LF
    ensures var s := UrlChar(cfg.strict, if p.state.ReqSpacesBeforeUrl? && p.verb == CONNECT then ReqServerStart else p.state, ch);
      var r := OneByte(cfg, p, ch);
      if s.Dead? then !r.end.More? else r == Fed(Moved(p, s, 1), [Data(Url, [ch])], 1, More)
  {
    hide OneByte, Once, Shaped, UrlChar;
    Dispatch(cfg, Counted(p), ch);
    if Once(cfg, Counted(p), ch).Next? { NextByte(cfg, p, ch); } else { FailByte(cfg, p, ch); }
  }

  // A URL ends at a space or, without a version, with its line.
  lemma UrlEnd(cfg: Config, p: Parser, ch: Octet)
    requires p.errno == OK && InUrl(p.state) && p.nread < MAX_HEADER_SIZE && (ch == ' ' || ch == CR || ch == LF)
    ensures var r := OneByte(cfg, p, ch);
      if MayEnd(p.state) then r == Fed(Ended(p, ch), [Data(Url, [])], 1, More) else !r.end.More?
  {
    hide OneByte, Once, Shaped, UrlChar;
    Dispatch(cfg, Counted(p), ch);
    if Once(cfg, Counted(p), ch).Next? { NextByte(cfg, p, ch); } else { FailByte(cfg, p, ch); }
  }

  function Ended(p: Parser, ch: Octet): Parser {
    if ch == ' ' then Moved(p, ReqHttpStart, 1)
    else WithVersion(p, if ch == CR then ReqLineAlmostDone else HeaderFieldStart, 1, 0, 9)
  }

  predicate NoBreak(url: seq<Octet>) { ' ' !in url && CR !in url && LF !in url }

  lemma UrlBegins(cfg: Config, p: Parser, url: seq<Octet>)
    requires p.errno == OK && p.state.ReqSpacesBeforeUrl? && |url| == 1 && NoBreak(url) && p.nread < MAX_HEADER_SIZE
    ensures var s := UrlState(cfg.strict, p.verb, url);
      var r := Feed(cfg, p, url);
      if s.Dead? then !r.end.More? else InUrl(s) && r == Fed(Moved(p, s, 1), Bytes(Url, url), 1, More)
  {
    hide OneByte, UrlChar, Feed;
    assert url[..0] == [] && url == [url[0]] && url[0] in url;
    assert Bytes(Url, []) == [];
    UrlByte(cfg, p, url[0]);
    Single(cfg, p, url[0]);
  }

  lemma {:induction false} UrlRead(cfg: Config, p: Parser, url: seq<Octet>)
    requires p.errno == OK && p.state.ReqSpacesBeforeUrl? && url != [] && NoBreak(url) && p.nread + |url| <= MAX_HEADER_SIZE
    ensures var s := UrlState(cfg.strict, p.verb, url);
      var r := Feed(cfg, p, url);
      if s.Dead? then !r.end.More? else InUrl(s) && r == Fed(Moved(p, s, |url|), Bytes(Url, url), |url|, More)
  {
    hide OneByte, UrlChar, Feed, InUrl;
    var n := |url| - 1;
    var v, ch := url[..n], url[n];
    assert url == v + [ch] && ch in url;
    if n == 0 {
      UrlBegins(cfg, p, url);
    } else {
      UrlRead(cfg, p, v);
      DeadStaysDead(cfg.strict, ch);
      FeedSplit(cfg, p, v, [ch]);
      var s := UrlState(cfg.strict, p.verb, v);
      if !s.Dead? {
        var q := Moved(p, s, n);
        UrlByte(cfg, q, ch);
        UrlStays(cfg.strict, s, ch);
        Single(cfg, q, ch);
      }
    }
  }

  lemma UrlStays(strict: bool, s: State, ch: Octet)
    ensures var r := UrlChar(strict, s, ch); !r.Dead? ==> InUrl(r)
    ensures InUrl(s) ==> !s.ReqSpacesBeforeUrl?
  {
  }

  // A URL followed by a space or a line end is accepted exactly if its
  // characters lead to where a URL may end, and is then told as it is.
  lemma UrlAndEnd(cfg: Config, p: Parser, url: seq<Octet>, ch: Octet)
    requires p.errno == OK && p.state.ReqSpacesBeforeUrl? && url != [] && NoBreak(url) && p.nread + |url| < MAX_HEADER_SIZE
    requires ch == ' ' || ch == CR || ch == LF
    ensures var r := Feed(cfg, p, url + [ch]);
      if UrlOk(cfg.strict, p.verb, url)
      then r == Fed(Ended(p.(nread := p.nread + |url|), ch), Bytes(Url, url) + [Data(Url, [])], |url| + 1, More)
      else !r.end.More?
  {
    hide Feed, OneByte, UrlState, NoBreak, InUrl;
    UrlRead(cfg, p, url);
    var s := UrlState(cfg.strict, p.verb, url);
    FeedSplit(cfg, p, url, [ch]);
    if !s.Dead? {
      UrlEnd(cfg, Moved(p, s, |url|), ch);
      Single(cfg, Moved(p, s, |url|), ch);
    }
  }

  lemma {:induction false} OkHasNoBreak(strict: bool, verb: Method, url: seq<Octet>)
    requires !UrlState(strict, verb, url).Dead?
    ensures NoBreak(url)
  {
    if url != [] {
      var n := |url| - 1;
      BreakIsDead(strict, UrlState(strict, verb, url[..n]), url[n]);
      DeadStaysDead(strict, url[n]);
      OkHasNoBreak(strict, verb, url[..n]);
      assert url == url[..n] + [url[n]];
    }
  }

  lemma BreakIsDead(strict: bool, s: State, ch: Octet)
    ensures ch == ' ' || ch == CR || ch == LF ==> UrlChar(strict, s, ch) == Dead
  {
  }

  // ----- whole lines -----

  // A request names its version, or is of version 0.9.
  datatype Version = Numbered(space: nat, major: seq<Octet>, minor: seq<Octet>) | Implied

  datatype RequestLine = RequestLine(verb: Method, gap: nat, url: seq<Octet>, version: Version, eol: Eol)

  predicate VersionOk(v: Version) { v.Numbered? ==> NumberOk(ReqMajorAt, v.major) && NumberOk(ReqMinorAt, v.minor) }

  predicate RequestLineOk(strict: bool, r: RequestLine) { UrlOk(strict, r.verb, r.url) && VersionOk(r.version) }

  function MajorNumber(v: Version): nat
    requires VersionOk(v)
  {
    if v.Implied? then 0 else Number(10, v.major)
  }

  function MinorNumber(v: Version): nat
    requires VersionOk(v)
  {
    if v.Implied? then 9 else Number(10, v.minor)
  }

  function UrlEndBytes(r: RequestLine): seq<Octet> {
    match r.version
    case Numbered(space, major, minor) => [' '] + (Gap(space) + VersionBytes(major, minor, r.eol))
    case Implied => EolBytes(r.eol)
  }

  function RequestLineBytes(r: RequestLine): seq<Octet> { Name(r.verb) + [' '] + (Gap(r.gap) + (r.url + UrlEndBytes(r))) }

  // From the URL to the end of the line.
  lemma UrlAndVersion(cfg: Config, p: Parser, r: RequestLine)
    requires p.errno == OK && p.state.ReqSpacesBeforeUrl? && p.verb == r.verb && RequestLineOk(cfg.strict, r)
    requires var b := r.url + UrlEndBytes(r); p.nread + |b| <= MAX_HEADER_SIZE
    ensures var b := r.url + UrlEndBytes(r);
      Feed(cfg, p, b) == Fed(WithVersion(p, HeaderFieldStart, |b|, MajorNumber(r.version), MinorNumber(r.version)),
                             Bytes(Url, r.url) + [Data(Url, [])], |b|, More)
  {
    hide Feed, Number, UrlOk, NumberOk, NoBreak, Gap;
    UrlIsWord(cfg.strict, r);
    var told := Bytes(Url, r.url) + [Data(Url, [])];
    assert told + [] == told;
    match r.version
    case Numbered(space, major, minor) => UrlThenVersion(cfg, p, r, space, major, minor);
    case Implied =>
      var first := if r.eol.CrLf? then CR else LF;
      UrlAndEnd(cfg, p, r.url, first);
      if r.eol.CrLf? {
        var q := WithVersion(p, ReqLineAlmostDone, |r.url| + 1, 0, 9);
        Constant(cfg, q, LF, HeaderFieldStart);
        Then(cfg, p, r.url + [CR], q, told, [LF], Moved(q, HeaderFieldStart, 1), []);
        assert r.url + [CR] + [LF] == r.url + CRLF;
      }
  }

  lemma UrlThenVersion(cfg: Config, p: Parser, r: RequestLine, space: nat, major: seq<Octet>, minor: seq<Octet>)
    requires p.errno == OK && p.state.ReqSpacesBeforeUrl? && p.verb == r.verb && UrlOk(cfg.strict, r.verb, r.url) && r.url != [] && NoBreak(r.url)
    requires r.version == Numbered(space, major, minor) && NumberOk(ReqMajorAt, major) && NumberOk(ReqMinorAt, minor)
    requires p.nread + |r.url + UrlEndBytes(r)| <= MAX_HEADER_SIZE
    ensures var b := r.url + UrlEndBytes(r);
      Feed(cfg, p, b) == Fed(WithVersion(p, HeaderFieldStart, |b|, Number(10, major), Number(10, minor)),
                             Bytes(Url, r.url) + [Data(Url, [])], |b|, More)
  {
    hide Feed, Number, UrlOk, NoBreak, Gap, Bytes, VersionBytes, DigitOf;
    var more, url := Gap(space) + VersionBytes(major, minor, r.eol), r.url + [' '];
    assert r.url + UrlEndBytes(r) == url + more;
    UrlAndEnd(cfg, p, r.url, ' ');
    GapAndVersion(cfg, Moved(p, ReqHttpStart, |url|), space, major, minor, r.eol);
    InTwo(cfg, p, r.url, url, more, Number(10, major), Number(10, minor));
  }

  lemma InTwo(cfg: Config, p: Parser, url: seq<Octet>, a: seq<Octet>, b: seq<Octet>, major: nat, minor: nat)
    requires p.errno == OK && Feed(cfg, p, a) == Fed(Moved(p, ReqHttpStart, |a|), Bytes(Url, url) + [Data(Url, [])], |a|, More)
    requires Feed(cfg, Moved(p, ReqHttpStart, |a|), b) == Fed(WithVersion(Moved(p, ReqHttpStart, |a|), HeaderFieldStart, |b|, major, minor), [], |b|, More)
    ensures Feed(cfg, p, a + b) == Fed(WithVersion(p, HeaderFieldStart, |a + b|, major, minor), Bytes(Url, url) + [Data(Url, [])], |a + b|, More)
  {
    hide Feed, Bytes;
    var told, q := Bytes(Url, url) + [Data(Url, [])], Moved(p, ReqHttpStart, |a|);
    assert told + [] == told;
    Then(cfg, p, a, q, told, b, WithVersion(q, HeaderFieldStart, |b|, major, minor), []);
  }

  lemma GapAndVersion(cfg: Config, p: Parser, space: nat, major: seq<Octet>, minor: seq<Octet>, eol: Eol)
    requires p.errno == OK && p.state.ReqHttpStart? && NumberOk(ReqMajorAt, major) && NumberOk(ReqMinorAt, minor)
    requires p.nread + |Gap(space) + VersionBytes(major, minor, eol)| <= MAX_HEADER_SIZE
    ensures var b := Gap(space) + VersionBytes(major, minor, eol);
      Feed(cfg, p, b) == Fed(WithVersion(p, HeaderFieldStart, |b|, Number(10, major), Number(10, minor)), [], |b|, More)
  {
    hide Feed, Number, Gap, VersionBytes, DigitOf;
    var version := VersionBytes(major, minor, eol);
    GapLength(space);
    GapRead(cfg, p, space);
    var s := p.(nread := p.nread + space);
    VersionRead(cfg, s, major, minor, eol);
    Then(cfg, p, Gap(space), s, [], version, WithVersion(s, HeaderFieldStart, |version|, Number(10, major), Number(10, minor)), []);
  }

  lemma {:induction false} GapLength(n: nat)
    ensures |Gap(n)| == n
  {
    if n > 0 { GapLength(n - 1); }
  }

  // A request line is read as its method, URL and version.
  lemma RequestLineRead(cfg: Config, p: Parser, r: RequestLine)
    requires p.errno == OK && p.state.StartReq? && RequestLineOk(cfg.strict, r) && p.nread + |RequestLineBytes(r)| <= MAX_HEADER_SIZE
    ensures var n := |RequestLineBytes(r)|;
      Feed(cfg, p, RequestLineBytes(r)) ==
        Fed(p.(flags := {}, contentLength := UNKNOWN_LENGTH, verb := r.verb, index := |Name(r.verb)| + 1, nread := p.nread + n,
               state := HeaderFieldStart, major := MajorNumber(r.version), minor := MinorNumber(r.version)),
            [Notify(MessageBegin)] + (Bytes(Url, r.url) + [Data(Url, [])]), n, More)
  {
    hide Feed, Number, Name, UrlOk, NumberOk, Gap, UrlEndBytes, Bytes, MajorNumber, MinorNumber;
    var w, begin := Name(r.verb), [Notify(MessageBegin)];
    NameIsWord(r.verb);
    GapLength(r.gap);
    MethodRecognised(cfg, p, w);
    var q := Started(p, r.verb, |w| + 1).(state := ReqSpacesBeforeUrl);
    GapRead(cfg, q, r.gap);
    var s := q.(nread := q.nread + r.gap);
    assert begin + [] == begin;
    Then(cfg, p, w + [' '], q, begin, Gap(r.gap), s, []);
    UrlAndVersion(cfg, s, r);
    var b := r.url + UrlEndBytes(r);
    Then(cfg, p, w + [' '] + Gap(r.gap), s, begin, b,
         WithVersion(s, HeaderFieldStart, |b|, MajorNumber(r.version), MinorNumber(r.version)), Bytes(Url, r.url) + [Data(Url, [])]);
    assert w + [' '] + Gap(r.gap) + b == RequestLineBytes(r);
  }

  lemma UrlIsWord(strict: bool, r: RequestLine)
    requires RequestLineOk(strict, r)
    ensures r.url != [] && NoBreak(r.url)
  {
    OkHasNoBreak(strict, r.verb, r.url);
  }

  // ----- the status line -----

  datatype StatusLine = StatusLine(major: seq<Octet>, minor: seq<Octet>, gap: nat, code: seq<Octet>, reason: Option<seq<Octet>>, eol: Eol)

  predicate StatusLineOk(l: StatusLine) {
    && NumberOk(ResMajorAt, l.major) && NumberOk(ResMinorAt, l.minor) && NumberOk(StatusAt, l.code)
    && (l.reason.Some? ==> CR !in l.reason.value && LF !in l.reason.value)
  }

  function ReasonBytes(l: StatusLine): seq<Octet> { (if l.reason.Some? then [' '] + l.reason.value else []) + EolBytes(l.eol) }

  function StatusLineBytes(l: StatusLine): seq<Octet> {
    "HTTP/" + (l.major + "." + l.minor + " ") + Gap(l.gap) + l.code + ReasonBytes(l)
  }

  // A bare line feed ends the line without a notice.
  function StatusNotes(l: StatusLine): seq<Event> { if l.eol.CrLf? then [Notify(StatusComplete)] else [] }

  // The parser after the first letter of a response.
  function Answering(p: Parser, s: State, n: nat): Parser {
    p.(flags := {}, contentLength := UNKNOWN_LENGTH, state := s, nread := p.nread + n)
  }

  lemma ResponseStart(cfg: Config, p: Parser)
    requires p.errno == OK && p.state.StartRes? && p.nread < MAX_HEADER_SIZE
    ensures OneByte(cfg, p, 'H') == Fed(Answering(p, ResH, 1), [Notify(MessageBegin)], 1, More)
  {
    hide OneByte, Shaped, StepResponse, StepStatus, StepMethod, StepUrl, StepRequest, StepField, StepValue, StepEnd, StepChunk;
    assert Once(cfg, Counted(p), 'H') == StepStart(Counted(p), 'H');
    NextByte(cfg, p, 'H');
  }

  lemma AnswerRead(cfg: Config, p: Parser)
    requires p.errno == OK && p.state.StartRes? && p.nread + 5 <= MAX_HEADER_SIZE
    ensures Feed(cfg, p, "HTTP/") == Fed(Answering(p, ResFirstMajor, 5), [Notify(MessageBegin)], 5, More)
  {
    hide Feed, OneByte;
    ResponseStart(cfg, p);
    Single(cfg, p, 'H');
    var begin := [Notify(MessageBegin)];
    assert begin + [] == begin;
    Constant(cfg, Answering(p, ResH, 1), 'T', ResHT);
    Then(cfg, p, "H", Answering(p, ResH, 1), begin, "T", Answering(p, ResHT, 2), []);
    Constant(cfg, Answering(p, ResHT, 2), 'T', ResHTT);
    Then(cfg, p, "H" + "T", Answering(p, ResHT, 2), begin, "T", Answering(p, ResHTT, 3), []);
    Constant(cfg, Answering(p, ResHTT, 3), 'P', ResHTTP);
    Then(cfg, p, "H" + "T" + "T", Answering(p, ResHTT, 3), begin, "P", Answering(p, ResHTTP, 4), []);
    Constant(cfg, Answering(p, ResHTTP, 4), '/', ResFirstMajor);
    Then(cfg, p, "H" + "T" + "T" + "P", Answering(p, ResHTTP, 4), begin, "/", Answering(p, ResFirstMajor, 5), []);
    assert "H" + "T" + "T" + "P" + "/" == "HTTP/";
  }

  lemma AnswerVersion(cfg: Config, p: Parser, major: seq<Octet>, minor: seq<Octet>)
    requires p.errno == OK && p.state.ResFirstMajor? && NumberOk(ResMajorAt, major) && NumberOk(ResMinorAt, minor)
    requires p.nread + |major| + |minor| + 2 <= MAX_HEADER_SIZE
    ensures var b := major + "." + minor + " ";
      Feed(cfg, p, b) == Fed(WithVersion(p, ResFirstStatusCode, |b|, Number(10, major), Number(10, minor)), [], |b|, More)
  {
    hide Feed, Number;
    NumberRead(cfg, p, ResMajorAt, major);
    var r := p.(state := ResMajor, nread := p.nread + |major|, major := Number(10, major));
    Constant(cfg, r, '.', ResFirstMinor);
    var s := Moved(r, ResFirstMinor, 1);
    Then(cfg, p, major, r, [], ".", s, []);
    NumberRead(cfg, s, ResMinorAt, minor);
    var t := s.(state := ResMinor, nread := s.nread + |minor|, minor := Number(10, minor));
    Then(cfg, p, major + ".", s, [], minor, t, []);
    Constant(cfg, t, ' ', ResFirstStatusCode);
    Then(cfg, p, major + "." + minor, t, [], " ", Moved(t, ResFirstStatusCode, 1), []);
  }

  // The characters after the status code.
  lemma ReasonByte(cfg: Config, p: Parser, ch: Octet)
    requires p.errno == OK && p.nread < MAX_HEADER_SIZE
    requires (p.state.ResStatusCode? && ch == ' ') || (p.state.ResStatus? && ch != CR && ch != LF)
    ensures OneByte(cfg, p, ch) == Fed(Moved(p, ResStatus, 1), [], 1, More)
  {
    hide OneByte, Once, Shaped;
    Dispatch(cfg, Counted(p), ch);
    NextByte(cfg, p, ch);
  }

  lemma {:induction false} ReasonRead(cfg: Config, p: Parser, reason: seq<Octet>)
    requires p.errno == OK && p.state.ResStatus? && CR !in reason && LF !in reason && p.nread + |reason| <= MAX_HEADER_SIZE
    ensures Feed(cfg, p, reason) == Fed(Moved(p, ResStatus, |reason|), [], |reason|, More)
  {
    hide OneByte;
    if reason != [] {
      var n := |reason| - 1;
      assert reason[n] in reason;
      ReasonRead(cfg, p, reason[..n]);
      ReasonByte(cfg, Moved(p, ResStatus, n), reason[n]);
    }
  }

  lemma StatusEnd(cfg: Config, p: Parser, l: StatusLine)
    requires p.errno == OK && (p.state.ResStatus? || p.state.ResStatusCode?) && p.nread + |EolBytes(l.eol)| <= MAX_HEADER_SIZE
    ensures var b := EolBytes(l.eol); Feed(cfg, p, b) == Fed(Moved(p, HeaderFieldStart, |b|), StatusNotes(l), |b|, More)
  {
    hide OneByte, Feed;
    if l.eol.BareLf? {
      StatusBreak(cfg, p, LF);
      Single(cfg, p, LF);
    } else {
      var q := Moved(p, ResLineAlmostDone, 1);
      StatusBreak(cfg, p, CR);
      StatusFeed(cfg, q);
      Single(cfg, p, CR);
      Single(cfg, q, LF);
      Then(cfg, p, [CR], q, [], [LF], Moved(p, HeaderFieldStart, 2), [Notify(StatusComplete)]);
      assert [CR] + [LF] == CRLF;
    }
  }

  lemma StatusBreak(cfg: Config, p: Parser, ch: Octet)
    requires p.errno == OK && (p.state.ResStatus? || p.state.ResStatusCode?) && p.nread < MAX_HEADER_SIZE && (ch == CR || ch == LF)
    ensures OneByte(cfg, p, ch) == Fed(Moved(p, if ch == CR then ResLineAlmostDone else HeaderFieldStart, 1), [], 1, More)
  {
    hide OneByte, Once, Shaped;
    Dispatch(cfg, Counted(p), ch);
    NextByte(cfg, p, ch);
  }

  lemma StatusFeed(cfg: Config, p: Parser)
    requires p.errno == OK && p.state.ResLineAlmostDone? && p.nread < MAX_HEADER_SIZE
    ensures OneByte(cfg, p, LF) == Fed(Moved(p, HeaderFieldStart, 1), [Notify(StatusComplete)], 1, More)
  {
    hide OneByte, Once, Shaped;
    Dispatch(cfg, Counted(p), LF);
    NextByte(cfg, p, LF);
  }

  lemma ReasonAndEnd(cfg: Config, p: Parser, l: StatusLine)
    requires p.errno == OK && p.state.ResStatusCode? && p.nread + |ReasonBytes(l)| <= MAX_HEADER_SIZE
    requires l.reason.Some? ==> CR !in l.reason.value && LF !in l.reason.value
    ensures var b := ReasonBytes(l); Feed(cfg, p, b) == Fed(Moved(p, HeaderFieldStart, |b|), StatusNotes(l), |b|, More)
  {
    hide Feed, OneByte;
    var end := EolBytes(l.eol);
    if l.reason.Some? {
      var reason, q := l.reason.value, Moved(p, ResStatus, 1);
      ReasonByte(cfg, p, ' ');
      Single(cfg, p, ' ');
      ReasonRead(cfg, q, reason);
      var r := Moved(q, ResStatus, |reason|);
      Then(cfg, p, [' '], q, [], reason, r, []);
      StatusEnd(cfg, r, l);
      Then(cfg, p, [' '] + reason, r, [], end, Moved(r, HeaderFieldStart, |end|), StatusNotes(l));
    } else {
      StatusEnd(cfg, p, l);
      assert [] + end == end;
    }
    assert [] + StatusNotes(l) == StatusNotes(l);
  }

  // The code and the rest of the line.
  lemma CodeAndEnd(cfg: Config, p: Parser, l: StatusLine)
    requires p.errno == OK && p.state.ResFirstStatusCode? && StatusLineOk(l) && p.nread + l.gap + |l.code + ReasonBytes(l)| <= MAX_HEADER_SIZE
    ensures var b := Gap(l.gap) + l.code + ReasonBytes(l);
      Feed(cfg, p, b) == Fed(Moved(p, HeaderFieldStart, |b|).(status := Number(10, l.code)), StatusNotes(l), |b|, More)
  {
    hide Feed, Number, ReasonBytes, Gap;
    GapLength(l.gap);
    GapRead(cfg, p, l.gap);
    var q := p.(nread := p.nread + l.gap);
    NumberRead(cfg, q, StatusAt, l.code);
    var s := q.(state := ResStatusCode, nread := q.nread + |l.code|, status := Number(10, l.code));
    Then(cfg, p, Gap(l.gap), q, [], l.code, s, []);
    ReasonAndEnd(cfg, s, l);
    var e := ReasonBytes(l);
    Then(cfg, p, Gap(l.gap) + l.code, s, [], e, Moved(s, HeaderFieldStart, |e|), StatusNotes(l));
    assert [] + StatusNotes(l) == StatusNotes(l);
  }

  // A status line is read as its version and status code.
  lemma StatusLineRead(cfg: Config, p: Parser, l: StatusLine)
    requires p.errno == OK && p.state.StartRes? && StatusLineOk(l) && p.nread + |StatusLineBytes(l)| <= MAX_HEADER_SIZE
    ensures var n := |StatusLineBytes(l)|;
      Feed(cfg, p, StatusLineBytes(l)) ==
        Fed(p.(flags := {}, contentLength := UNKNOWN_LENGTH, nread := p.nread + n, state := HeaderFieldStart,
               major := Number(10, l.major), minor := Number(10, l.minor), status := Number(10, l.code)),
            [Notify(MessageBegin)] + StatusNotes(l), n, More)
  {
    hide Feed, Number, ReasonBytes, Gap;
    var begin := [Notify(MessageBegin)];
    AnswerRead(cfg, p);
    var q := Answering(p, ResFirstMajor, 5);
    AnswerVersion(cfg, q, l.major, l.minor);
    var b := l.major + "." + l.minor + " ";
    var r := WithVersion(q, ResFirstStatusCode, |b|, Number(10, l.major), Number(10, l.minor));
    Then(cfg, p, "HTTP/", q, begin, b, r, []);
    assert begin + [] == begin;
    GapLength(l.gap);
    CodeAndEnd(cfg, r, l);
    var e := Gap(l.gap) + l.code + ReasonBytes(l);
    Then(cfg, p, "HTTP/" + b, r, begin, e, Moved(r, HeaderFieldStart, |e|).(status := Number(10, l.code)), StatusNotes(l));
    assert "HTTP/" + b + e == StatusLineBytes(l);
  }
}
