// The fields of the HTTP parser and its character classes.
module HttpTypes {
  import opened Options

  const MAX_HEADER_SIZE := 80 * 1024
  const UNKNOWN_LENGTH := 0xFFFF_FFFF_FFFF_FFFF
  const WRAP64 := 0x1_0000_0000_0000_0000

  type Octet = c: char | c as int < 256

  datatype Kind = Request | Response | Both

  datatype State =
    | Dead | StartReqOrRes | ResOrRespH | StartRes | ResH | ResHT | ResHTT | ResHTTP
    | ResFirstMajor | ResMajor | ResFirstMinor | ResMinor
    | ResFirstStatusCode | ResStatusCode | ResStatus | ResLineAlmostDone
    | StartReq | ReqMethod | ReqSpacesBeforeUrl
    | ReqSchema | ReqSchemaSlash | ReqSchemaSlashSlash | ReqServerStart | ReqServer | ReqServerWithAt
    | ReqPath | ReqQueryStringStart | ReqQueryString | ReqFragmentStart | ReqFragment
    | ReqHttpStart | ReqHttpH | ReqHttpHT | ReqHttpHTT | ReqHttpHTTP
    | ReqFirstMajor | ReqMajor | ReqFirstMinor | ReqMinor | ReqLineAlmostDone
    | HeaderFieldStart | HeaderField | HeaderValueStart | HeaderValue | HeaderValueLws | HeaderAlmostDone
    | ChunkSizeStart | ChunkSize | ChunkParameters | ChunkSizeAlmostDone
    | HeadersAlmostDone | HeadersDone
    | ChunkData | ChunkDataAlmostDone | ChunkDataDone
    | BodyIdentity | BodyIdentityEof | MessageDone

  datatype HeaderState =
    | General | C | CO | CON
    | MatchingConnection | MatchingProxyConnection | MatchingContentLength
    | MatchingTransferEncoding | MatchingUpgrade
    | Connection | ContentLength | TransferEncoding | UpgradeHeader
    | MatchingChunked | MatchingKeepAlive | MatchingClose
    | ChunkedValue | KeepAliveValue | CloseValue

  datatype Flag = Chunked | KeepAlive | Close | Trailing | Upgrade | SkipBody

  datatype Method =
    | DELETE | GET | HEAD | POST | PUT | CONNECT | OPTIONS | TRACE | COPY | LOCK | MKCOL | MOVE
    | PROPFIND | PROPPATCH | SEARCH | UNLOCK | REPORT | MKACTIVITY | CHECKOUT | MERGE
    | MSEARCH | NOTIFY | SUBSCRIBE | UNSUBSCRIBE | PATCH | PURGE

  datatype Errno =
    | OK | INVALID_EOF_STATE | HEADER_OVERFLOW | CLOSED_CONNECTION | INVALID_VERSION | INVALID_STATUS
    | INVALID_METHOD | INVALID_URL | LF_EXPECTED | INVALID_HEADER_TOKEN | INVALID_CONTENT_LENGTH
    | INVALID_CHUNK_SIZE | INVALID_CONSTANT | STRICT

  // struct http_parser; `heads` counts the calls of on_headers_complete, so
  // that the answer of the application can be looked up.
  datatype Parser = Parser(
    kind: Kind, state: State, flags: set<Flag>, headerState: HeaderState, index: nat,
    nread: nat, contentLength: nat, major: nat, minor: nat, status: nat,
    verb: Method, upgrade: bool, errno: Errno, heads: nat)

  // strict: HTTP_PARSER_STRICT; skips(n): does the n-th on_headers_complete
  // callback say that the message has no body.
  datatype Config = Config(strict: bool, skips: nat -> bool)

  datatype DataKind = Field | Value | Url | Body

  datatype Notice = MessageBegin | StatusComplete | HeadersComplete | MessageComplete

  // What the application is told.
  datatype Event = Data(kind: DataKind, bytes: seq<Octet>) | Notify(notice: Notice)

  // http_parser_init
  function Init(kind: Kind): Parser {
    Parser(kind, match kind case Request => StartReq case Response => StartRes case Both => StartReqOrRes,
           {}, General, 0, 0, 0, 0, 0, 0, DELETE, false, OK, 0)
  }

  predicate ParsingHeader(s: State) {
    !s.ChunkData? && !s.ChunkDataAlmostDone? && !s.ChunkDataDone? && !s.BodyIdentity? && !s.BodyIdentityEof? && !s.MessageDone?
  }

  // The data that continues in this state from one buffer to the next.
  predicate InUrl(s: State) {
    || s.ReqSchema? || s.ReqSchemaSlash? || s.ReqSchemaSlashSlash? || s.ReqServerStart? || s.ReqServer?
    || s.ReqServerWithAt? || s.ReqPath? || s.ReqQueryStringStart? || s.ReqQueryString?
    || s.ReqFragmentStart? || s.ReqFragment?
  }

  function Group(s: State): Option<DataKind> {
    if s.HeaderField? then Some(Field)
    else if s.HeaderValue? then Some(Value)
    else if InUrl(s) then Some(Url)
    else None
  }

  // ----- character classes -----

  const CR: char := '\r'
  const LF: char := '\n'
  const CRLF: seq<Octet> := [CR, LF]

  // The ends of lines that are taken.
  datatype Eol = CrLf | BareLf

  function EolBytes(e: Eol): seq<Octet> { if e.CrLf? then CRLF else [LF] }

  function Gap(n: nat): seq<Octet> { if n == 0 then [] else Gap(n - 1) + [' '] }

  function Lower(c: Octet): Octet {
    var v := c as int;
    if (v / 32) % 2 == 1 then c else (v + 32) as char
  }

  predicate IsAlpha(c: Octet) { 'a' <= c <= 'z' || 'A' <= c <= 'Z' }

  predicate IsNum(c: Octet) { '0' <= c <= '9' }

  function Digit(c: Octet): nat
    requires IsNum(c)
  {
    c as int - '0' as int
  }

  // The token table: the character in lower case, or NUL.
  function Token(strict: bool, c: Octet): Octet {
    if !strict && c == ' ' then ' '
    else if 'A' <= c <= 'Z' then (c as int + 32) as char
    else if 'a' <= c <= 'z' || IsNum(c) || c in "!#$%&'*+-.^_`|~" then c
    else '\0'
  }

  // The hex table has initialisers for 128 entries only: the rest are zero,
  // which reads as the digit 0.
  function Unhex(c: Octet): Option<nat> {
    if IsNum(c) then Some(Digit(c))
    else if 'a' <= c <= 'f' then Some(c as int - 'a' as int + 10)
    else if 'A' <= c <= 'F' then Some(c as int - 'A' as int + 10)
    else if c as int >= 128 then Some(0)
    else None
  }

  predicate IsUserInfo(c: Octet) {
    IsAlpha(c) || IsNum(c) || c in "-_.!~*'()%;:&=+$,"
  }

  predicate IsUrlChar(strict: bool, c: Octet) {
    || (' ' < c <= '~' && c != '#' && c != '?')
    || (!strict && (c == '\t' || c as int == 12 || c as int >= 128))
  }

  function Name(m: Method): seq<Octet> {
    match m
    case DELETE => "DELETE" case GET => "GET" case HEAD => "HEAD" case POST => "POST" case PUT => "PUT"
    case CONNECT => "CONNECT" case OPTIONS => "OPTIONS" case TRACE => "TRACE"
    case COPY => "COPY" case LOCK => "LOCK" case MKCOL => "MKCOL" case MOVE => "MOVE"
    case PROPFIND => "PROPFIND" case PROPPATCH => "PROPPATCH" case SEARCH => "SEARCH" case UNLOCK => "UNLOCK"
    case REPORT => "REPORT" case MKACTIVITY => "MKACTIVITY" case CHECKOUT => "CHECKOUT" case MERGE => "MERGE"
    case MSEARCH => "M-SEARCH" case NOTIFY => "NOTIFY" case SUBSCRIBE => "SUBSCRIBE" case UNSUBSCRIBE => "UNSUBSCRIBE"
    case PATCH => "PATCH" case PURGE => "PURGE"
  }
}
