// One byte through the switch of http_parser_execute, by groups of states.
module HttpStep {
  import opened Options
  import opened HttpTypes

  // What a state does besides changing fields: nothing; set a mark at the
  // current byte; hand over the data between a mark and the current byte; both
  // of these at once; or notify.
  datatype Act = Quiet | Mark(kind: DataKind) | Emit(kind: DataKind) | Blank(kind: DataKind) | Note(notice: Notice)

  // Next: go on with the next byte; Again: look at the same byte once more;
  // Exit: return because the rest is another protocol; Fail: goto error, with
  // errno set; Abort: an assertion fails, or a read is out of bounds.
  datatype Outcome =
    | Next(p: Parser, act: Act)
    | Again(p: Parser, act: Act)
    | Exit(p: Parser, act: Act)
    | Fail(p: Parser)
    | Abort

  function Error(p: Parser, e: Errno): Outcome { Fail(p.(errno := e)) }

  function Goto(p: Parser, s: State): Outcome { Next(p.(state := s), Quiet) }

  // STRICT_CHECK, then the given outcome.
  function Checked(cfg: Config, p: Parser, bad: bool, r: Outcome): Outcome {
    if cfg.strict && bad then Error(p, STRICT) else r
  }

  // ----- what a byte does to the marks -----

  // Data goes on, or ends and is handed over exactly once, or begins.
  predicate Shape(s: State, act: Act, s': State) {
    match act
    case Quiet => Group(s) == Group(s') && !s.ChunkDataAlmostDone?
    case Mark(k) => Group(s).None? && Group(s') == Some(k) && !s.ChunkDataAlmostDone?
    case Emit(k) => Group(s').None? && if k == Body then s.ChunkDataAlmostDone? else Group(s) == Some(k)
    case Blank(k) => Group(s).None? && Group(s').None? && k != Body && !s.ChunkDataAlmostDone?
    case Note(_) => Group(s).None? && Group(s').None? && !s.ChunkDataAlmostDone?
  }

  // How often the same byte can still be looked at.
  function Rank(s: State): nat {
    if s.HeaderValueLws? then 3
    else if s.HeaderFieldStart? then 2
    else if s.HeadersAlmostDone? || s.HeaderValue? || s.StartReqOrRes? then 1
    else 0
  }

  predicate Shaped(s: State, r: Outcome) {
    match r
    case Next(p, act) => p.errno == OK && Shape(s, act, p.state)
    case Again(p, act) =>
      && p.errno == OK && Shape(s, act, p.state)
      && Rank(p.state) < Rank(s) && Group(p.state).None? && !Bulk(p.state) && !p.state.ChunkDataAlmostDone?
    case Exit(p, act) => p.errno == OK && Shape(s, act, p.state) && Group(p.state).None?
    case Fail(p) => p.errno != OK
    case Abort => true
  }

  // States that take as many bytes at once as they can.
  predicate Bulk(s: State) { s.BodyIdentity? || s.ChunkData? || s.BodyIdentityEof? }

  // ----- http_message_needs_eof, http_should_keep_alive -----

  predicate NeedsEof(p: Parser) {
    && !p.kind.Request?
    && !(p.status / 100 == 1 || p.status == 204 || p.status == 304 || SkipBody in p.flags)
    && Chunked !in p.flags && p.contentLength == UNKNOWN_LENGTH
  }

  predicate ShouldKeepAlive(p: Parser) {
    && (if p.major > 0 && p.minor > 0 then Close !in p.flags else KeepAlive in p.flags)
    && !NeedsEof(p)
  }

  function NewMessage(cfg: Config, p: Parser): (s: State)
    ensures s.StartReq? || s.StartRes? || s.Dead?
  {
    if cfg.strict && !ShouldKeepAlive(p) then Dead
    else if p.kind.Request? then StartReq else StartRes
  }

  function Complete(cfg: Config, p: Parser): (r: Outcome)
    ensures r.Next? && Group(r.p.state).None?
  {
    Next(p.(state := NewMessage(cfg, p)), Note(MessageComplete))
  }

  // ----- the reachable parsers -----

  predicate FieldState(h: HeaderState) {
    !(h.MatchingChunked? || h.MatchingKeepAlive? || h.MatchingClose? || h.ChunkedValue? || h.KeepAliveValue? || h.CloseValue?)
  }

  predicate StateOk(p: Parser) {
    if p.state.ReqMethod? then p.index <= |Name(p.verb)|
    else if p.state.HeaderField? then FieldState(p.headerState)
    else if p.state.HeaderValue? then !p.headerState.Connection? && !p.headerState.TransferEncoding?
    else if p.state.ChunkSizeStart? then Chunked in p.flags && p.nread == 0
    else if p.state.ChunkSize? || p.state.ChunkParameters? || p.state.ChunkSizeAlmostDone? then Chunked in p.flags && p.contentLength < UNKNOWN_LENGTH
    else if p.state.ChunkData? then Chunked in p.flags && 0 < p.contentLength < UNKNOWN_LENGTH
    else if p.state.ChunkDataAlmostDone? then Chunked in p.flags && p.contentLength == 0
    else if p.state.ChunkDataDone? then Chunked in p.flags
    else if p.state.BodyIdentity? then 0 < p.contentLength < UNKNOWN_LENGTH
    else true
  }

  predicate Reachable(p: Parser) {
    StateOk(p) && p.contentLength <= UNKNOWN_LENGTH && p.nread <= MAX_HEADER_SIZE
  }

  // The same, for a parser whose count of header bytes includes the current one.
  predicate ReachableAt(p: Parser) {
    if p.state.ChunkSizeStart? then Chunked in p.flags && p.nread == 1 && p.contentLength <= UNKNOWN_LENGTH
    else Reachable(p)
  }

  predicate Safe(r: Outcome) {
    match r
    case Next(p, _) => Reachable(p)
    case Again(p, _) => ReachableAt(p)
    case Exit(p, _) => Reachable(p)
    case Fail(_) => true
    case Abort => false
  }

  // ----- the first byte of a message -----

  function FirstLetter(ch: Octet): Option<Method> {
    match ch
    case 'C' => Some(CONNECT) case 'D' => Some(DELETE) case 'G' => Some(GET) case 'H' => Some(HEAD)
    case 'L' => Some(LOCK) case 'M' => Some(MKCOL) case 'N' => Some(NOTIFY) case 'O' => Some(OPTIONS)
    case 'P' => Some(POST) case 'R' => Some(REPORT) case 'S' => Some(SUBSCRIBE) case 'T' => Some(TRACE)
    case 'U' => Some(UNLOCK)
    case _ => None
  }

  predicate StartState(s: State) { s.Dead? || s.StartReqOrRes? || s.ResOrRespH? || s.StartRes? || s.StartReq? }

  function StepStart(p: Parser, ch: Octet): (r: Outcome)
    requires StartState(p.state) && p.errno == OK
    ensures Shaped(p.state, r)
  {
    var clean := p.(flags := {}, contentLength := UNKNOWN_LENGTH);
    if p.state.StartReqOrRes? then
      if ch == CR || ch == LF then Next(p, Quiet)
      else if ch == 'H' then Next(clean.(state := ResOrRespH), Note(MessageBegin))
      else Again(clean.(kind := Request, state := StartReq), Quiet)
    else if p.state.ResOrRespH? then
      if ch == 'T' then Next(p.(kind := Response, state := ResHT), Quiet)
      else if ch != 'E' then Error(p, INVALID_CONSTANT)
      else Next(p.(kind := Request, verb := HEAD, index := 2, state := ReqMethod), Quiet)
    else if p.state.StartRes? then
      if ch == 'H' then Next(clean.(state := ResH), Note(MessageBegin))
      else if ch == CR || ch == LF then Next(clean, Note(MessageBegin))
      else Error(clean, INVALID_CONSTANT)
    else if p.state.StartReq? then
      if ch == CR || ch == LF then Next(p, Quiet)
      else if !IsAlpha(ch) then Error(clean, INVALID_METHOD)
      else (
        match FirstLetter(ch)
        case None => Error(clean.(verb := DELETE, index := 1), INVALID_METHOD)
        case Some(m) => Next(clean.(verb := m, index := 1, state := ReqMethod), Note(MessageBegin))
      )
    else
      if ch == CR || ch == LF then Next(p, Quiet) else Error(p, CLOSED_CONNECTION)
  }

  // ----- the status line -----

  function Major(p: Parser, ch: Octet, next: State): Outcome {
    if ch == '.' then Goto(p, next)
    else if !IsNum(ch) then Error(p, INVALID_VERSION)
    else
      var q := p.(major := p.major * 10 + Digit(ch));
      if q.major > 999 then Error(q, INVALID_VERSION) else Next(q, Quiet)
  }

  function Minor(p: Parser, ch: Octet): Outcome {
    if !IsNum(ch) then Error(p, INVALID_VERSION)
    else
      var q := p.(minor := p.minor * 10 + Digit(ch));
      if q.minor > 999 then Error(q, INVALID_VERSION) else Next(q, Quiet)
  }

  predicate ResponseState(s: State) {
    s.ResH? || s.ResHT? || s.ResHTT? || s.ResHTTP? || s.ResFirstMajor? || s.ResMajor? || s.ResFirstMinor? || s.ResMinor?
  }

  function StepResponse(cfg: Config, p: Parser, ch: Octet): (r: Outcome)
    requires ResponseState(p.state) && p.errno == OK
    ensures Shaped(p.state, r)
  {
    if p.state.ResH? then Checked(cfg, p, ch != 'T', Goto(p, ResHT))
    else if p.state.ResHT? then Checked(cfg, p, ch != 'T', Goto(p, ResHTT))
    else if p.state.ResHTT? then Checked(cfg, p, ch != 'P', Goto(p, ResHTTP))
    else if p.state.ResHTTP? then Checked(cfg, p, ch != '/', Goto(p, ResFirstMajor))
    else if p.state.ResFirstMajor? then
      if !IsNum(ch) then Error(p, INVALID_VERSION) else Next(p.(major := Digit(ch), state := ResMajor), Quiet)
    else if p.state.ResMajor? then Major(p, ch, ResFirstMinor)
    else if p.state.ResFirstMinor? then
      if !IsNum(ch) then Error(p, INVALID_VERSION) else Next(p.(minor := Digit(ch), state := ResMinor), Quiet)
    else if ch == ' ' then Goto(p, ResFirstStatusCode) else Minor(p, ch)
  }

  predicate StatusState(s: State) { s.ResFirstStatusCode? || s.ResStatusCode? || s.ResStatus? || s.ResLineAlmostDone? }

  function StepStatus(cfg: Config, p: Parser, ch: Octet): (r: Outcome)
    requires StatusState(p.state) && p.errno == OK
    ensures Shaped(p.state, r)
  {
    if p.state.ResFirstStatusCode? then
      if IsNum(ch) then Next(p.(status := Digit(ch), state := ResStatusCode), Quiet)
      else if ch == ' ' then Next(p, Quiet)
      else Error(p, INVALID_STATUS)
    else if p.state.ResStatusCode? then
      if !IsNum(ch) then
        if ch == ' ' then Goto(p, ResStatus)
        else if ch == CR then Goto(p, ResLineAlmostDone)
        else if ch == LF then Goto(p, HeaderFieldStart)
        else Error(p, INVALID_STATUS)
      else
        var q := p.(status := p.status * 10 + Digit(ch));
        if q.status > 999 then Error(q, INVALID_STATUS) else Next(q, Quiet)
    else if p.state.ResStatus? then
      if ch == CR then Goto(p, ResLineAlmostDone)
      else if ch == LF then Goto(p, HeaderFieldStart)
      else Next(p, Quiet)
    else
      Checked(cfg, p, ch != LF, Next(p.(state := HeaderFieldStart), Note(StatusComplete)))
  }

  // ----- the method -----

  // The method to go on with when ch is not the next letter of method m.
  function OtherMethod(m: Method, index: nat, ch: Octet): Option<Method> {
    if m == CONNECT then
      if index == 1 && ch == 'H' then Some(CHECKOUT)
      else if index == 2 && ch == 'P' then Some(COPY)
      else None
    else if m == MKCOL then
      if index == 1 && ch == 'O' then Some(MOVE)
      else if index == 1 && ch == 'E' then Some(MERGE)
      else if index == 1 && ch == '-' then Some(MSEARCH)
      else if index == 2 && ch == 'A' then Some(MKACTIVITY)
      else None
    else if m == SUBSCRIBE then
      if index == 1 && ch == 'E' then Some(SEARCH) else None
    else if index == 1 && m == POST then
      if ch == 'R' then Some(PROPFIND)
      else if ch == 'U' then Some(PUT)
      else if ch == 'A' then Some(PATCH)
      else None
    else if index == 2 then
      if m == PUT then if ch == 'R' then Some(PURGE) else None
      else if m == UNLOCK then if ch == 'S' then Some(UNSUBSCRIBE) else None
      else None
    else if index == 4 && m == PROPFIND && ch == 'P' then Some(PROPPATCH)
    else None
  }

  function StepMethod(p: Parser, ch: Octet): (r: Outcome)
    requires p.state.ReqMethod? && p.errno == OK
    ensures Shaped(p.state, r)
  {
    var name := Name(p.verb);
    if ch == '\0' then Error(p, INVALID_METHOD)
    else if p.index > |name| then Abort
    else
      var next := p.(index := p.index + 1);
      if ch == ' ' && p.index == |name| then Next(next.(state := ReqSpacesBeforeUrl), Quiet)
      else if p.index < |name| && ch == name[p.index] then Next(next, Quiet)
      else
        match OtherMethod(p.verb, p.index, ch)
        case Some(m) => Next(next.(verb := m), Quiet)
        case None => Error(p, INVALID_METHOD)
  }

  // ----- the URL -----

  // parse_url_char
  function UrlChar(strict: bool, s: State, ch: Octet): (r: State)
    ensures r.Dead? || InUrl(r)
  {
    if ch == ' ' || ch == CR || ch == LF || (strict && (ch == '\t' || ch as int == 12)) then Dead
    else
      if s.ReqSpacesBeforeUrl? then
        if ch == '/' || ch == '*' then ReqPath else if IsAlpha(ch) then ReqSchema else Dead
      else if s.ReqSchema? then
        if IsAlpha(ch) then s else if ch == ':' then ReqSchemaSlash else Dead
      else if s.ReqSchemaSlash? then if ch == '/' then ReqSchemaSlashSlash else Dead
      else if s.ReqSchemaSlashSlash? then if ch == '/' then ReqServerStart else Dead
      else if s.ReqServerWithAt? then if ch == '@' then Dead else ServerChar(ch)
      else if s.ReqServerStart? || s.ReqServer? then ServerChar(ch)
      else if s.ReqPath? then
        if IsUrlChar(strict, ch) then s
        else if ch == '?' then ReqQueryStringStart
        else if ch == '#' then ReqFragmentStart
        else Dead
      else if s.ReqQueryStringStart? || s.ReqQueryString? then
        if IsUrlChar(strict, ch) || ch == '?' then ReqQueryString
        else if ch == '#' then ReqFragmentStart
        else Dead
      else if s.ReqFragmentStart? then
        if IsUrlChar(strict, ch) || ch == '?' then ReqFragment else if ch == '#' then s else Dead
      else if s.ReqFragment? then
        if IsUrlChar(strict, ch) || ch == '?' || ch == '#' then s else Dead
      else Dead
  }

  function ServerChar(ch: Octet): State {
    if ch == '/' then ReqPath
    else if ch == '?' then ReqQueryStringStart
    else if ch == '@' then ReqServerWithAt
    else if IsUserInfo(ch) || ch == '[' || ch == ']' then ReqServer
    else Dead
  }

  function StepUrl(cfg: Config, p: Parser, ch: Octet): (r: Outcome)
    requires (p.state.ReqSpacesBeforeUrl? || InUrl(p.state)) && p.errno == OK
    ensures Shaped(p.state, r)
  {
    if p.state.ReqSpacesBeforeUrl? then
      if ch == ' ' then Next(p, Quiet)
      else
        var s := UrlChar(cfg.strict, if p.verb == CONNECT then ReqServerStart else p.state, ch);
        if s.Dead? then Error(p.(state := s), INVALID_URL) else Next(p.(state := s), Mark(Url))
    else if ch == ' ' || ch == CR || ch == LF then
      if p.state.ReqSchema? || p.state.ReqSchemaSlash? || p.state.ReqSchemaSlashSlash? || p.state.ReqServerStart? then
        Error(p, INVALID_URL)
      else if ch == ' ' then Next(p.(state := ReqHttpStart), Emit(Url))
      else Next(p.(major := 0, minor := 9, state := if ch == CR then ReqLineAlmostDone else HeaderFieldStart), Emit(Url))
    else
      var s := UrlChar(cfg.strict, p.state, ch);
      if s.Dead? then Error(p.(state := s), INVALID_URL) else Goto(p, s)
  }

  // ----- the rest of the request line -----

  predicate RequestState(s: State) {
    || s.ReqHttpStart? || s.ReqHttpH? || s.ReqHttpHT? || s.ReqHttpHTT? || s.ReqHttpHTTP? || s.ReqFirstMajor? || s.ReqMajor?
    || s.ReqFirstMinor? || s.ReqMinor? || s.ReqLineAlmostDone?
  }

  function StepRequest(cfg: Config, p: Parser, ch: Octet): (r: Outcome)
    requires RequestState(p.state) && p.errno == OK
    ensures Shaped(p.state, r)
  {
    if p.state.ReqHttpStart? then
      if ch == 'H' then Goto(p, ReqHttpH) else if ch == ' ' then Next(p, Quiet) else Error(p, INVALID_CONSTANT)
    else if p.state.ReqHttpH? then Checked(cfg, p, ch != 'T', Goto(p, ReqHttpHT))
    else if p.state.ReqHttpHT? then Checked(cfg, p, ch != 'T', Goto(p, ReqHttpHTT))
    else if p.state.ReqHttpHTT? then Checked(cfg, p, ch != 'P', Goto(p, ReqHttpHTTP))
    else if p.state.ReqHttpHTTP? then Checked(cfg, p, ch != '/', Goto(p, ReqFirstMajor))
    else if p.state.ReqFirstMajor? then
      if ch == '0' || !IsNum(ch) then Error(p, INVALID_VERSION) else Next(p.(major := Digit(ch), state := ReqMajor), Quiet)
    else if p.state.ReqMajor? then Major(p, ch, ReqFirstMinor)
    else if p.state.ReqFirstMinor? then
      if !IsNum(ch) then Error(p, INVALID_VERSION) else Next(p.(minor := Digit(ch), state := ReqMinor), Quiet)
    else if p.state.ReqMinor? then
      if ch == CR then Goto(p, ReqLineAlmostDone)
      else if ch == LF then Goto(p, HeaderFieldStart)
      else Minor(p, ch)
    else if ch != LF then Error(p, LF_EXPECTED) else Goto(p, HeaderFieldStart)
  }

  // ----- header fields -----

  const CONNECTION := "connection"
  const PROXY_CONNECTION := "proxy-connection"
  const CONTENT_LENGTH := "content-length"
  const TRANSFER_ENCODING := "transfer-encoding"
  const UPGRADE := "upgrade"
  const CHUNKED := "chunked"
  const KEEP_ALIVE := "keep-alive"
  const CLOSE := "close"

  // One more letter of a word being matched; `hit` once the word is complete.
  function Match(p: Parser, c: Octet, word: string, hit: HeaderState): Parser {
    var i := p.index + 1;
    if i >= |word| || c != word[i] then p.(index := i, headerState := General)
    else if i == |word| - 1 then p.(index := i, headerState := hit)
    else p.(index := i)
  }

  function FieldFirst(c: Octet): HeaderState {
    match c
    case 'c' => C
    case 'p' => MatchingProxyConnection
    case 't' => MatchingTransferEncoding
    case 'u' => MatchingUpgrade
    case _ => General
  }

  // A token character of a field name, in lower case.
  function FieldLetter(p: Parser, ch: Octet, c: Octet): Parser {
    if p.headerState.C? then p.(index := p.index + 1, headerState := if c == 'o' then CO else General)
    else if p.headerState.CO? then p.(index := p.index + 1, headerState := if c == 'n' then CON else General)
    else if p.headerState.CON? then
      p.(index := p.index + 1,
         headerState := if c == 'n' then MatchingConnection else if c == 't' then MatchingContentLength else General)
    else if p.headerState.MatchingConnection? then Match(p, c, CONNECTION, Connection)
    else if p.headerState.MatchingProxyConnection? then Match(p, c, PROXY_CONNECTION, Connection)
    else if p.headerState.MatchingContentLength? then Match(p, c, CONTENT_LENGTH, ContentLength)
    else if p.headerState.MatchingTransferEncoding? then Match(p, c, TRANSFER_ENCODING, TransferEncoding)
    else if p.headerState.MatchingUpgrade? then Match(p, c, UPGRADE, UpgradeHeader)
    else if p.headerState.Connection? || p.headerState.ContentLength? || p.headerState.TransferEncoding? || p.headerState.UpgradeHeader? then
      if ch != ' ' then p.(headerState := General) else p
    else p
  }

  function StepField(cfg: Config, p: Parser, ch: Octet): (r: Outcome)
    requires (p.state.HeaderFieldStart? || p.state.HeaderField?) && p.errno == OK
    ensures Shaped(p.state, r)
  {
    var c := Token(cfg.strict, ch);
    if p.state.HeaderFieldStart? then
      if ch == CR then Goto(p, HeadersAlmostDone)
      else if ch == LF then Again(p.(state := HeadersAlmostDone), Quiet)
      else if c == '\0' then Error(p, INVALID_HEADER_TOKEN)
      else Next(p.(index := 0, state := HeaderField, headerState := FieldFirst(c)), Mark(Field))
    else if c != '\0' then
      if !FieldState(p.headerState) then Abort else Next(FieldLetter(p, ch, c), Quiet)
    else if ch == ':' then Next(p.(state := HeaderValueStart), Emit(Field))
    else if ch == CR then Next(p.(state := HeaderAlmostDone), Emit(Field))
    else if ch == LF then Next(p.(state := HeaderFieldStart), Emit(Field))
    else Error(p, INVALID_HEADER_TOKEN)
  }

  // ----- header values -----

  // t = length * base + digit in 64 bits; too large if it came out smaller
  // than before, or as the value that stands for "no length".
  function LengthDigit(length: nat, base: nat, digit: nat): (r: Option<nat>)
    ensures r.Some? ==> r.value < UNKNOWN_LENGTH
  {
    var t := (length * base + digit) % WRAP64;
    if t < length || t == UNKNOWN_LENGTH then None else Some(t)
  }

  // The first character of a value.
  function ValueFirst(p: Parser, ch: Octet): Outcome {
    var c := Lower(ch);
    if p.headerState.UpgradeHeader? then Next(p.(flags := p.flags + {Upgrade}, headerState := General), Mark(Value))
    else if p.headerState.TransferEncoding? then Next(p.(headerState := if c == 'c' then MatchingChunked else General), Mark(Value))
    else if p.headerState.ContentLength? then
      if !IsNum(ch) then Error(p, INVALID_CONTENT_LENGTH) else Next(p.(contentLength := Digit(ch)), Mark(Value))
    else if p.headerState.Connection? then
      Next(p.(headerState := if c == 'k' then MatchingKeepAlive else if c == 'c' then MatchingClose else General), Mark(Value))
    else Next(p.(headerState := General), Mark(Value))
  }

  // A further character of a value.
  function ValueLetter(p: Parser, ch: Octet): Outcome {
    var c := Lower(ch);
    if p.headerState.General? then Next(p, Quiet)
    else if p.headerState.Connection? || p.headerState.TransferEncoding? then Abort
    else if p.headerState.ContentLength? then
      if ch == ' ' then Next(p, Quiet)
      else if !IsNum(ch) then Error(p, INVALID_CONTENT_LENGTH)
      else (
        match LengthDigit(p.contentLength, 10, Digit(ch))
        case None => Error(p, INVALID_CONTENT_LENGTH)
        case Some(t) => Next(p.(contentLength := t), Quiet)
      )
    else if p.headerState.MatchingChunked? then Next(Match(p, c, CHUNKED, ChunkedValue), Quiet)
    else if p.headerState.MatchingKeepAlive? then Next(Match(p, c, KEEP_ALIVE, KeepAliveValue), Quiet)
    else if p.headerState.MatchingClose? then Next(Match(p, c, CLOSE, CloseValue), Quiet)
    else if p.headerState.ChunkedValue? || p.headerState.KeepAliveValue? || p.headerState.CloseValue? then
      Next(if ch != ' ' then p.(headerState := General) else p, Quiet)
    else Next(p.(headerState := General), Quiet)
  }

  function StepValue(p: Parser, ch: Octet): (r: Outcome)
    requires (p.state.HeaderValueStart? || p.state.HeaderValue?) && p.errno == OK
    ensures Shaped(p.state, r)
  {
    if p.state.HeaderValueStart? then
      if ch == ' ' || ch == '\t' then Next(p, Quiet)
      else if ch == CR then Next(p.(index := 0, headerState := General, state := HeaderAlmostDone), Blank(Value))
      else if ch == LF then Next(p.(index := 0, state := HeaderFieldStart), Blank(Value))
      else ValueFirst(p.(index := 0, state := HeaderValue), ch)
    else if ch == CR then Next(p.(state := HeaderAlmostDone), Emit(Value))
    else if ch == LF then Again(p.(state := HeaderAlmostDone), Emit(Value))
    else ValueLetter(p, ch)
  }

  // ----- the end of a header line and of the headers -----

  predicate EndState(s: State) { s.HeaderAlmostDone? || s.HeaderValueLws? || s.HeadersAlmostDone? || s.HeadersDone? }

  function HeaderFlag(h: HeaderState): set<Flag> {
    if h.KeepAliveValue? then {KeepAlive}
    else if h.CloseValue? then {Close}
    else if h.ChunkedValue? then {Chunked}
    else {}
  }

  // The callback that may say that there is no body.
  function CompleteHeaders(cfg: Config, p: Parser): Parser {
    p.(state := HeadersDone, upgrade := Upgrade in p.flags || p.verb == CONNECT, heads := p.heads + 1,
       flags := if cfg.skips(p.heads) then p.flags + {SkipBody} else p.flags)
  }

  // How the message goes on after its headers.
  function AfterHeaders(cfg: Config, p: Parser): (r: Outcome)
    requires p.errno == OK
    ensures Shaped(HeadersDone, r)
  {
    if p.upgrade then Exit(p.(state := NewMessage(cfg, p)), Note(MessageComplete))
    else if SkipBody in p.flags then Complete(cfg, p)
    else if Chunked in p.flags then Goto(p, ChunkSizeStart)
    else if p.contentLength == 0 then Complete(cfg, p)
    else if p.contentLength != UNKNOWN_LENGTH then Goto(p, BodyIdentity)
    else if p.kind.Request? || !NeedsEof(p) then Complete(cfg, p)
    else Goto(p, BodyIdentityEof)
  }

  function StepEnd(cfg: Config, p: Parser, ch: Octet): (r: Outcome)
    requires EndState(p.state) && p.errno == OK
    ensures Shaped(p.state, r)
  {
    if p.state.HeaderAlmostDone? then
      Checked(cfg, p, ch != LF, Goto(p.(flags := p.flags + HeaderFlag(p.headerState)), HeaderValueLws))
    else if p.state.HeaderValueLws? then
      if ch == ' ' || ch == '\t' then Goto(p, HeaderValueStart) else Again(p.(state := HeaderFieldStart), Quiet)
    else if p.state.HeadersAlmostDone? then
      Checked(cfg, p, ch != LF,
        if Trailing in p.flags then Complete(cfg, p) else Again(CompleteHeaders(cfg, p), Note(HeadersComplete)))
    else Checked(cfg, p, ch != LF, AfterHeaders(cfg, p.(nread := 0)))
  }

  // ----- chunks, and the end of a body -----

  predicate ChunkState(s: State) {
    || s.ChunkSizeStart? || s.ChunkSize? || s.ChunkParameters? || s.ChunkSizeAlmostDone?
    || s.ChunkDataAlmostDone? || s.ChunkDataDone? || s.MessageDone?
  }

  function SizeDigit(p: Parser, ch: Octet): Outcome {
    match Unhex(ch)
    case None => if ch == ';' || ch == ' ' then Goto(p, ChunkParameters) else Error(p, INVALID_CHUNK_SIZE)
    case Some(d) =>
      match LengthDigit(p.contentLength, 16, d)
      case None => Error(p, INVALID_CONTENT_LENGTH)
      case Some(t) => Next(p.(contentLength := t), Quiet)
  }

  function StepChunk(cfg: Config, p: Parser, ch: Octet): (r: Outcome)
    requires ChunkState(p.state) && p.errno == OK
    ensures Shaped(p.state, r)
  {
    if p.state.MessageDone? then Complete(cfg, p)
    else if Chunked !in p.flags then Abort
    else
      if p.state.ChunkSizeStart? then
        if p.nread != 1 then Abort
        else (
          match Unhex(ch)
          case None => Error(p, INVALID_CHUNK_SIZE)
          case Some(d) => Next(p.(contentLength := d, state := ChunkSize), Quiet)
        )
      else if p.state.ChunkSize? then if ch == CR then Goto(p, ChunkSizeAlmostDone) else SizeDigit(p, ch)
      else if p.state.ChunkParameters? then if ch == CR then Goto(p, ChunkSizeAlmostDone) else Next(p, Quiet)
      else if p.state.ChunkSizeAlmostDone? then
        Checked(cfg, p, ch != LF,
          if p.contentLength == 0 then Goto(p.(nread := 0, flags := p.flags + {Trailing}), HeaderFieldStart)
          else Goto(p.(nread := 0), ChunkData))
      else if p.state.ChunkDataAlmostDone? then
        if p.contentLength != 0 then Abort
        else Checked(cfg, p, ch != CR, Next(p.(state := ChunkDataDone), Emit(Body)))
      else Checked(cfg, p, ch != LF, Goto(p.(nread := 0), ChunkSizeStart))
  }

  // ----- the switch -----

  function Once(cfg: Config, p: Parser, ch: Octet): (r: Outcome)
    requires p.errno == OK && !Bulk(p.state)
    ensures Shaped(p.state, r)
  {
    if StartState(p.state) then StepStart(p, ch)
    else if ResponseState(p.state) then StepResponse(cfg, p, ch)
    else if StatusState(p.state) then StepStatus(cfg, p, ch)
    else if p.state.ReqMethod? then StepMethod(p, ch)
    else if p.state.ReqSpacesBeforeUrl? || InUrl(p.state) then StepUrl(cfg, p, ch)
    else if RequestState(p.state) then StepRequest(cfg, p, ch)
    else if p.state.HeaderFieldStart? || p.state.HeaderField? then StepField(cfg, p, ch)
    else if p.state.HeaderValueStart? || p.state.HeaderValue? then StepValue(p, ch)
    else if EndState(p.state) then StepEnd(cfg, p, ch)
    else StepChunk(cfg, p, ch)
  }

  // ----- no assertion fails -----

  lemma StartIsSafe(p: Parser, ch: Octet)
    requires StartState(p.state) && p.errno == OK && ReachableAt(p)
    ensures Safe(StepStart(p, ch))
  {
  }

  lemma ResponseIsSafe(cfg: Config, p: Parser, ch: Octet)
    requires ResponseState(p.state) && p.errno == OK && ReachableAt(p)
    ensures Safe(StepResponse(cfg, p, ch))
  {
  }

  lemma StatusIsSafe(cfg: Config, p: Parser, ch: Octet)
    requires StatusState(p.state) && p.errno == OK && ReachableAt(p)
    ensures Safe(StepStatus(cfg, p, ch))
  {
  }

  lemma MethodIsSafe(p: Parser, ch: Octet)
    requires p.state.ReqMethod? && p.errno == OK && ReachableAt(p)
    ensures Safe(StepMethod(p, ch))
  {
  }

  lemma UrlIsSafe(cfg: Config, p: Parser, ch: Octet)
    requires (p.state.ReqSpacesBeforeUrl? || InUrl(p.state)) && p.errno == OK && ReachableAt(p)
    ensures Safe(StepUrl(cfg, p, ch))
  {
  }

  lemma RequestIsSafe(cfg: Config, p: Parser, ch: Octet)
    requires RequestState(p.state) && p.errno == OK && ReachableAt(p)
    ensures Safe(StepRequest(cfg, p, ch))
  {
  }

  lemma FieldIsSafe(cfg: Config, p: Parser, ch: Octet)
    requires (p.state.HeaderFieldStart? || p.state.HeaderField?) && p.errno == OK && ReachableAt(p)
    ensures Safe(StepField(cfg, p, ch))
  {
    hide FieldLetter, Token;
    if FieldState(p.headerState) { FieldLetterKeeps(p, ch, Token(cfg.strict, ch)); }
  }

  lemma FieldLetterKeeps(p: Parser, ch: Octet, c: Octet)
    requires FieldState(p.headerState)
    ensures var q := FieldLetter(p, ch, c); q == p.(index := q.index, headerState := q.headerState) && FieldState(q.headerState)
  {
  }

  lemma ValueIsSafe(p: Parser, ch: Octet)
    requires (p.state.HeaderValueStart? || p.state.HeaderValue?) && p.errno == OK && ReachableAt(p)
    ensures Safe(StepValue(p, ch))
  {
  }

  lemma EndIsSafe(cfg: Config, p: Parser, ch: Octet)
    requires EndState(p.state) && p.errno == OK && ReachableAt(p)
    ensures Safe(StepEnd(cfg, p, ch))
  {
  }

  lemma ChunkIsSafe(cfg: Config, p: Parser, ch: Octet)
    requires ChunkState(p.state) && p.errno == OK && ReachableAt(p)
    ensures Safe(StepChunk(cfg, p, ch))
  {
  }
}
