// Header values, with padding and folded lines, and whole header blocks.
module HttpHeaders {
  import opened HttpTypes
  import opened HttpStep
  import opened HttpReference
  import opened HttpFields
  import opened HttpBody

  // ----- words in values -----

  datatype Word = ChunkedWord | KeepAliveWord | CloseWord

  function TextOf(w: Word): string {
    match w
    case ChunkedWord => CHUNKED
    case KeepAliveWord => KEEP_ALIVE
    case CloseWord => CLOSE
  }

  function MatchingOf(w: Word): HeaderState {
    match w
    case ChunkedWord => MatchingChunked
    case KeepAliveWord => MatchingKeepAlive
    case CloseWord => MatchingClose
  }

  function HitOf(w: Word): HeaderState {
    match w
    case ChunkedWord => ChunkedValue
    case KeepAliveWord => KeepAliveValue
    case CloseWord => CloseValue
  }

  // v begins the word, whatever the case of its letters.
  predicate Begins(v: seq<Octet>, word: string) {
    |v| <= |word| && forall i :: 0 <= i < |v| ==> Lower(v[i]) == word[i]
  }

  // v is the word, perhaps followed by spaces.
  predicate IsWord(v: seq<Octet>, word: string) {
    |v| >= |word| && Begins(v[..|word|], word) && forall i :: |word| <= i < |v| ==> v[i] == ' '
  }

  function Standing(v: seq<Octet>, w: Word): HeaderState {
    if |v| < |TextOf(w)| then if Begins(v, TextOf(w)) then MatchingOf(w) else General
    else if IsWord(v, TextOf(w)) then HitOf(w) else General
  }

  ghost predicate Stands(h: HeaderState, index: nat, v: seq<Octet>, w: Word) {
    v != [] && h == Standing(v, w) && (h == MatchingOf(w) ==> index == |v| - 1)
  }

  // A further letter of a value.
  lemma LetterStands(p: Parser, ch: Octet, v: seq<Octet>, w: Word)
    requires Stands(p.headerState, p.index, v, w)
    ensures var o := ValueLetter(p, ch);
      && o.Next? && o.act == Quiet && o.p == p.(index := o.p.index, headerState := o.p.headerState)
      && Stands(o.p.headerState, o.p.index, v + [ch], w)
  {
    var word, u := TextOf(w), v + [ch];
    BeginsMore(v, ch, word);
    IsWordMore(v, ch, word);
    hide Begins, IsWord, Lower;
    match w
    case ChunkedWord =>
    case KeepAliveWord =>
    case CloseWord =>
  }

  lemma BeginsMore(v: seq<Octet>, ch: Octet, word: string)
    ensures Begins(v + [ch], word) <==> Begins(v, word) && |v| < |word| && Lower(ch) == word[|v|]
  {
    hide Lower;
    var u := v + [ch];
    assert u[|v|] == ch;
    if Begins(u, word) { forall i | 0 <= i < |v| ensures Lower(v[i]) == word[i] { assert u[i] == v[i]; } }
  }

  lemma IsWordMore(v: seq<Octet>, ch: Octet, word: string)
    ensures |v| >= |word| ==> (IsWord(v + [ch], word) <==> IsWord(v, word) && ch == ' ')
    ensures |v| + 1 == |word| ==> (IsWord(v + [ch], word) <==> Begins(v + [ch], word))
  {
    hide Begins;
    var u := v + [ch];
    assert u[|v|] == ch;
    if |v| >= |word| { assert u[..|word|] == v[..|word|]; }
    if |v| + 1 == |word| { assert u[..|word|] == u; }
    if |v| >= |word| && IsWord(u, word) { forall i | |word| <= i < |v| ensures v[i] == ' ' { assert u[i] == v[i]; } }
  }

  // ----- one value -----

  predicate ValueOk(v: seq<Octet>) {
    v != [] && v[0] != ' ' && v[0] != '\t' && CR !in v && LF !in v
  }

  // The word looked for in a value of a header of kind h that begins with v.
  function WordFor(h: HeaderState, v: seq<Octet>): Word
    requires v != []
  {
    if h.TransferEncoding? then ChunkedWord else if Lower(v[0]) == 'k' then KeepAliveWord else CloseWord
  }

  // Where the automaton stands after a value of a header that is not a length.
  ghost predicate ValueStands(h: HeaderState, q: HeaderState, index: nat, v: seq<Octet>) {
    v != [] && if h.TransferEncoding? || h.Connection? then Stands(q, index, v, WordFor(h, v)) else q == General
  }

  function Upgraded(p: Parser): set<Flag> { if p.headerState.UpgradeHeader? then p.flags + {Upgrade} else p.flags }

  lemma FirstStands(p: Parser, ch: Octet)
    requires !p.headerState.ContentLength?
    ensures var o := ValueFirst(p, ch);
      && o.Next? && o.act == Mark(Value) && o.p == p.(flags := Upgraded(p), headerState := o.p.headerState)
      && (p.index == 0 ==> ValueStands(p.headerState, o.p.headerState, 0, [ch]))
  {
    var v := [ch];
    BeginsMore([], ch, CHUNKED);
    BeginsMore([], ch, KEEP_ALIVE);
    BeginsMore([], ch, CLOSE);
    assert [] + [ch] == v;
    hide IsWord, Lower;
  }

  lemma ValueByte(cfg: Config, p: Parser, ch: Octet)
    requires p.errno == OK && p.nread < MAX_HEADER_SIZE && ch != CR && ch != LF
    requires (p.state.HeaderValueStart? && ch != ' ' && ch != '\t') || p.state.HeaderValue?
    ensures var q := Counted(p);
      var o := if p.state.HeaderValueStart? then ValueFirst(q.(index := 0, state := HeaderValue), ch) else ValueLetter(q, ch);
      o.Next? && o.p.state.HeaderValue? && (o.act == Quiet || o.act.Mark?) ==> OneByte(cfg, p, ch) == Fed(o.p, [Data(Value, [ch])], 1, More)
  {
    hide OneByte, Once, Shaped, ValueFirst, ValueLetter;
    Dispatch(cfg, Counted(p), ch);
    if Once(cfg, Counted(p), ch).Next? { NextByte(cfg, p, ch); }
  }

  // The parser after n bytes of a value, up to the automaton of words.
  ghost predicate ValueFed(p: Parser, r: Fed, v: seq<Octet>) {
    && r.end.More? && r.log == Bytes(Value, v)
    && r.p == p.(state := HeaderValue, nread := p.nread + |v|, flags := Upgraded(p), index := r.p.index, headerState := r.p.headerState)
    && ValueStands(p.headerState, r.p.headerState, r.p.index, v)
  }

  lemma {:induction false} ValueRead(cfg: Config, p: Parser, v: seq<Octet>)
    requires p.errno == OK && p.state.HeaderValueStart? && !p.headerState.ContentLength? && ValueOk(v) && p.nread + |v| <= MAX_HEADER_SIZE
    ensures ValueFed(p, Feed(cfg, p, v), v)
  {
    hide OneByte, ValueStands, ValueFirst, ValueLetter;
    var n := |v| - 1;
    var u, ch := v[..n], v[n];
    assert v == u + [ch] && ch in v;
    if n == 0 {
      ValueBegins(cfg, p, ch);
      assert v == [ch];
    } else {
      hide Feed;
      ValueRead(cfg, p, u);
      var q := Feed(cfg, p, u).p;
      NextLetter(p.headerState, Counted(q), ch, u);
      ValueByte(cfg, q, ch);
      FeedSplit(cfg, p, u, [ch]);
      Single(cfg, q, ch);
    }
  }

  lemma ValueBegins(cfg: Config, p: Parser, ch: Octet)
    requires p.errno == OK && p.state.HeaderValueStart? && !p.headerState.ContentLength? && ValueOk([ch]) && p.nread < MAX_HEADER_SIZE
    ensures ValueFed(p, Feed(cfg, p, [ch]), [ch])
  {
    hide OneByte, ValueStands, ValueFirst, ValueLetter, Feed;
    assert [ch][..0] == [] && Bytes(Value, []) == [];
    assert [ch][0] == ch && ch in [ch];
    FirstStands(Counted(p).(index := 0, state := HeaderValue), ch);
    ValueByte(cfg, p, ch);
    Single(cfg, p, ch);
  }

  lemma NextLetter(h: HeaderState, q: Parser, ch: Octet, u: seq<Octet>)
    requires ValueStands(h, q.headerState, q.index, u)
    ensures var o := ValueLetter(q, ch);
      && o.Next? && o.act == Quiet && o.p == q.(index := o.p.index, headerState := o.p.headerState)
      && ValueStands(h, o.p.headerState, o.p.index, u + [ch])
  {
    hide Stands;
    if h.TransferEncoding? || h.Connection? { LetterStands(q, ch, u, WordFor(h, u)); }
  }

  // The flag that a header sets.
  function Effect(h: HeaderState, v: seq<Octet>): set<Flag> {
    if h.UpgradeHeader? then {Upgrade}
    else if h.TransferEncoding? && IsWord(v, CHUNKED) then {Chunked}
    else if h.Connection? && IsWord(v, KEEP_ALIVE) then {KeepAlive}
    else if h.Connection? && IsWord(v, CLOSE) then {Close}
    else {}
  }

  lemma EffectOfWord(h: HeaderState, q: HeaderState, index: nat, v: seq<Octet>)
    requires ValueStands(h, q, index, v) && !h.UpgradeHeader?
    ensures HeaderFlag(q) == Effect(h, v)
  {
    if h.Connection? { FirstLetterOf(v); }
    hide IsWord, Begins;
  }

  // keep-alive and close begin differently.
  lemma FirstLetterOf(v: seq<Octet>)
    requires v != []
    ensures IsWord(v, KEEP_ALIVE) ==> Lower(v[0]) == 'k'
    ensures IsWord(v, CLOSE) ==> Lower(v[0]) == 'c'
  {
    hide Lower;
    if IsWord(v, KEEP_ALIVE) { assert v[..|KEEP_ALIVE|][0] == v[0]; }
    if IsWord(v, CLOSE) { assert v[..|CLOSE|][0] == v[0]; }
  }

  // ----- one line of a value -----

  // The same but for the automaton of header names and values.
  ghost predicate Alike(p: Parser, q: Parser) { p == q.(index := p.index, headerState := p.headerState) }

  lemma ValueReturn(cfg: Config, p: Parser)
    requires p.errno == OK && p.state.HeaderValue? && p.nread < MAX_HEADER_SIZE
    ensures OneByte(cfg, p, CR) == Fed(p.(state := HeaderAlmostDone, nread := p.nread + 1), [Data(Value, [])], 1, More)
  {
    hide OneByte, Once, Shaped, ValueFirst, ValueLetter;
    Dispatch(cfg, Counted(p), CR);
    NextByte(cfg, p, CR);
  }

  lemma ValueLineFeed(cfg: Config, p: Parser)
    requires p.errno == OK && p.state.HeaderAlmostDone? && p.nread < MAX_HEADER_SIZE
    ensures OneByte(cfg, p, LF) == Fed(p.(state := HeaderValueLws, nread := p.nread + 1, flags := p.flags + HeaderFlag(p.headerState)), [], 1, More)
  {
    hide OneByte, Once, Shaped, HeaderFlag;
    Dispatch(cfg, Counted(p), LF);
    NextByte(cfg, p, LF);
  }

  // The end of a line with a value; a bare line feed is looked at twice.
  lemma ValueEnd(cfg: Config, p: Parser, eol: Eol)
    requires p.errno == OK && p.state.HeaderValue? && p.nread + |EolBytes(eol)| <= MAX_HEADER_SIZE
    ensures var n := |EolBytes(eol)|;
      Feed(cfg, p, EolBytes(eol))
      == Fed(p.(state := HeaderValueLws, nread := p.nread + n, flags := p.flags + HeaderFlag(p.headerState)), [Data(Value, [])], n, More)
  {
    hide OneByte, Feed, HeaderFlag;
    if eol.BareLf? {
      BareEnd(cfg, p);
      Single(cfg, p, LF);
    } else {
      var q := p.(state := HeaderAlmostDone, nread := p.nread + 1);
      ValueReturn(cfg, p);
      ValueLineFeed(cfg, q);
      Single(cfg, p, CR);
      Single(cfg, q, LF);
      Then(cfg, p, [CR], q, [Data(Value, [])], [LF],
           p.(state := HeaderValueLws, nread := p.nread + 2, flags := p.flags + HeaderFlag(p.headerState)), []);
      assert [Data(Value, [])] + [] == [Data(Value, [])];
      assert [CR] + [LF] == CRLF;
    }
  }

  lemma BareEnd(cfg: Config, p: Parser)
    requires p.errno == OK && p.state.HeaderValue? && p.nread < MAX_HEADER_SIZE
    ensures OneByte(cfg, p, LF)
      == Fed(p.(state := HeaderValueLws, nread := p.nread + 1, flags := p.flags + HeaderFlag(p.headerState)), [Data(Value, [])], 1, More)
  {
    hide OneByte, Once, Switch, Shaped, HeaderFlag, ValueFirst, ValueLetter;
    var q := Counted(p);
    Dispatch(cfg, q, LF);
    SwitchAgain(cfg, q, LF);
    Dispatch(cfg, q.(state := HeaderAlmostDone), LF);
    SwitchLast(cfg, q.(state := HeaderAlmostDone), LF);
    OneByteCases(cfg, p, LF);
    assert [Data(Value, [])] + [] == [Data(Value, [])];
  }

  // The parser after a value line, up to the automaton.
  function Lined(p: Parser, n: nat, flags: set<Flag>, length: nat): Parser {
    p.(state := HeaderValueLws, nread := p.nread + n, flags := flags, contentLength := length)
  }

  // Of the kinds of headers only four matter.
  predicate SameKind(a: HeaderState, b: HeaderState) {
    && (a.Connection? <==> b.Connection?) && (a.ContentLength? <==> b.ContentLength?)
    && (a.TransferEncoding? <==> b.TransferEncoding?) && (a.UpgradeHeader? <==> b.UpgradeHeader?)
  }

  lemma PlainText(cfg: Config, p: Parser, v: seq<Octet>, eol: Eol)
    requires p.errno == OK && p.state.HeaderValueStart? && !p.headerState.ContentLength? && ValueOk(v) && p.nread + |v + EolBytes(eol)| <= MAX_HEADER_SIZE
    ensures var r := Feed(cfg, p, v + EolBytes(eol));
      && r.end.More? && r.log == Bytes(Value, v) + [Data(Value, [])] && SameKind(r.p.headerState, General)
      && Alike(r.p, Lined(p, |v + EolBytes(eol)|, p.flags + Effect(p.headerState, v), p.contentLength))
  {
    hide Feed, Effect, ValueOk, HeaderFlag, ValueStands;
    ValueRead(cfg, p, v);
    var q := Feed(cfg, p, v).p;
    ValueEnd(cfg, q, eol);
    EffectOf(p, q, v);
    StandsNowhere(p.headerState, q, v);
    FeedUsed(cfg, p, v);
    Then(cfg, p, v, q, Bytes(Value, v), EolBytes(eol), Feed(cfg, q, EolBytes(eol)).p, [Data(Value, [])]);
  }

  // Behind a value the automaton no longer knows the kind of the header.
  lemma StandsNowhere(h: HeaderState, q: Parser, v: seq<Octet>)
    requires ValueStands(h, q.headerState, q.index, v)
    ensures SameKind(q.headerState, General)
  {
    hide Begins, IsWord;
  }

  lemma FeedUsed(cfg: Config, p: Parser, v: seq<Octet>)
    requires p.errno == OK && Feed(cfg, p, v).end.More?
    ensures Feed(cfg, p, v) == Fed(Feed(cfg, p, v).p, Feed(cfg, p, v).log, |v|, More) && Feed(cfg, p, v).p.errno == OK
  {
  }

  lemma EffectOf(p: Parser, q: Parser, v: seq<Octet>)
    requires q.flags == Upgraded(p) && ValueStands(p.headerState, q.headerState, q.index, v)
    ensures q.flags + HeaderFlag(q.headerState) == p.flags + Effect(p.headerState, v)
  {
    hide Stands, Standing, IsWord;
    if !p.headerState.UpgradeHeader? { EffectOfWord(p.headerState, q.headerState, q.index, v); }
  }

  lemma LengthLine(cfg: Config, p: Parser, v: seq<Octet>, eol: Eol)
    requires p.errno == OK && p.state.HeaderValueStart? && p.headerState.ContentLength? && p.nread + |v + EolBytes(eol)| <= MAX_HEADER_SIZE
    requires LengthText(v) && LengthOf(v) < UNKNOWN_LENGTH
    ensures var r := Feed(cfg, p, v + EolBytes(eol));
      && r.end.More? && r.log == Bytes(Value, v) + [Data(Value, [])] && r.p.headerState == p.headerState
      && Alike(r.p, Lined(p, |v + EolBytes(eol)|, p.flags, LengthOf(v)))
  {
    hide Feed, LengthText, LengthOf, DigitsAndSpaces;
    ContentLengthRead(cfg, p, v);
    var q := Feed(cfg, p, v).p;
    ValueEnd(cfg, q, eol);
    assert p.flags + {} == p.flags;
    FeedUsed(cfg, p, v);
    Then(cfg, p, v, q, Bytes(Value, v), EolBytes(eol), Feed(cfg, q, EolBytes(eol)).p, [Data(Value, [])]);
  }

  // A line without a value: the automaton forgets the header.
  lemma NoValue(cfg: Config, p: Parser)
    requires p.errno == OK && p.state.HeaderValueStart? && p.nread + 2 <= MAX_HEADER_SIZE
    ensures Feed(cfg, p, CRLF) == Fed(p.(state := HeaderValueLws, nread := p.nread + 2, index := 0, headerState := General), [Data(Value, [])], 2, More)
  {
    hide OneByte, Feed;
    var q := p.(state := HeaderAlmostDone, nread := p.nread + 1, index := 0, headerState := General);
    NoValueByte(cfg, p);
    ValueLineFeed(cfg, q);
    assert q.flags + {} == p.flags;
    Single(cfg, p, CR);
    Single(cfg, q, LF);
    Then(cfg, p, [CR], q, [Data(Value, [])], [LF], q.(state := HeaderValueLws, nread := q.nread + 1), []);
    assert [Data(Value, [])] + [] == [Data(Value, [])];
    assert [CR] + [LF] == CRLF;
  }

  lemma NoValueByte(cfg: Config, p: Parser)
    requires p.errno == OK && p.state.HeaderValueStart? && p.nread < MAX_HEADER_SIZE
    ensures OneByte(cfg, p, CR)
      == Fed(p.(state := HeaderAlmostDone, nread := p.nread + 1, index := 0, headerState := General), [Data(Value, [])], 1, More)
  {
    hide OneByte, Once, Shaped, ValueFirst, ValueLetter;
    Dispatch(cfg, Counted(p), CR);
    NextByte(cfg, p, CR);
  }

  predicate IsBlank(ch: Octet) { ch == ' ' || ch == '\t' }

  predicate Blanks(pad: seq<Octet>) { forall i :: 0 <= i < |pad| ==> IsBlank(pad[i]) }

  lemma BlankByte(cfg: Config, p: Parser, ch: Octet)
    requires p.errno == OK && p.state.HeaderValueStart? && p.nread < MAX_HEADER_SIZE && IsBlank(ch)
    ensures OneByte(cfg, p, ch) == Fed(p.(nread := p.nread + 1), [], 1, More)
  {
    hide OneByte, Once, Shaped, ValueFirst, ValueLetter;
    Dispatch(cfg, Counted(p), ch);
    NextByte(cfg, p, ch);
  }

  lemma {:induction false} BlanksRead(cfg: Config, p: Parser, pad: seq<Octet>)
    requires p.errno == OK && p.state.HeaderValueStart? && p.nread + |pad| <= MAX_HEADER_SIZE && Blanks(pad)
    ensures Feed(cfg, p, pad) == Fed(p.(nread := p.nread + |pad|), [], |pad|, More)
  {
    hide OneByte, IsBlank;
    if pad != [] {
      var n := |pad| - 1;
      BlanksRead(cfg, p, pad[..n]);
      BlankByte(cfg, p.(nread := p.nread + n), pad[n]);
    }
  }

  datatype Line = Line(pad: seq<Octet>, text: seq<Octet>, eol: Eol)

  function TextBytes(l: Line): seq<Octet> { l.text + EolBytes(l.eol) }

  function LineBytes(l: Line): seq<Octet> { l.pad + TextBytes(l) }

  function LineEvents(l: Line): seq<Event> { Bytes(Value, l.text) + [Data(Value, [])] }

  // A line of a header of kind h: blanks, and a value or a whole line end.
  predicate LineOk(h: HeaderState, l: Line) {
    && Blanks(l.pad)
    && (if l.text == [] then l.eol.CrLf? else if h.ContentLength? then LengthText(l.text) && LengthOf(l.text) < UNKNOWN_LENGTH else ValueOk(l.text))
  }

  function LineFlags(h: HeaderState, l: Line): set<Flag> { if l.text == [] || h.ContentLength? then {} else Effect(h, l.text) }

  // Each line of a length that is not empty replaces it.
  function LineLength(h: HeaderState, length: nat, l: Line): nat
    requires LineOk(h, l)
  {
    if h.ContentLength? && l.text != [] then LengthOf(l.text) else length
  }

  // The kind as which a further line is read.
  function NextKind(h: HeaderState, l: Line): HeaderState { if h.ContentLength? && l.text != [] then ContentLength else General }

  lemma TextRead(cfg: Config, p: Parser, h: HeaderState, l: Line)
    requires p.errno == OK && p.state.HeaderValueStart? && SameKind(p.headerState, h) && LineOk(h, l) && p.nread + |TextBytes(l)| <= MAX_HEADER_SIZE
    ensures var r := Feed(cfg, p, TextBytes(l));
      && r.end.More? && r.log == LineEvents(l) && SameKind(r.p.headerState, NextKind(h, l))
      && Alike(r.p, Lined(p, |TextBytes(l)|, p.flags + LineFlags(h, l), LineLength(h, p.contentLength, l)))
  {
    hide Feed, Effect, ValueOk, LengthText, LengthOf, Blanks, DigitsAndSpaces;
    assert p.flags + {} == p.flags;
    if l.text == [] {
      NoValue(cfg, p);
      assert l.text + CRLF == CRLF;
      assert LineEvents(l) == [Data(Value, [])];
    } else if h.ContentLength? {
      LengthLine(cfg, p, l.text, l.eol);
    } else {
      PlainText(cfg, p, l.text, l.eol);
      EffectOfKind(p.headerState, h, l.text);
    }
  }

  // A line is told as its value, without the padding.
  lemma LineRead(cfg: Config, p: Parser, h: HeaderState, l: Line)
    requires p.errno == OK && p.state.HeaderValueStart? && SameKind(p.headerState, h) && LineOk(h, l) && p.nread + |LineBytes(l)| <= MAX_HEADER_SIZE
    ensures var r := Feed(cfg, p, LineBytes(l));
      && r.end.More? && r.log == LineEvents(l) && SameKind(r.p.headerState, NextKind(h, l))
      && Alike(r.p, Lined(p, |LineBytes(l)|, p.flags + LineFlags(h, l), LineLength(h, p.contentLength, l)))
  {
    hide Feed, Effect, ValueOk, LengthText, LengthOf, Blanks, LineEvents, LineFlags, DigitsAndSpaces, NextKind, SameKind;
    var q := p.(nread := p.nread + |l.pad|);
    var line := TextBytes(l);
    BlanksRead(cfg, p, l.pad);
    TextRead(cfg, q, h, l);
    FeedUsed(cfg, q, line);
    Then(cfg, p, l.pad, q, [], line, Feed(cfg, q, line).p, LineEvents(l));
    assert [] + LineEvents(l) == LineEvents(l);
  }

  lemma EffectOfKind(a: HeaderState, b: HeaderState, v: seq<Octet>)
    requires SameKind(a, b)
    ensures Effect(a, v) == Effect(b, v)
  {
    hide IsWord;
  }

  // ----- folded lines -----

  function KindAfter(h: HeaderState, ls: seq<Line>): HeaderState {
    if ls == [] then h else NextKind(KindAfter(h, ls[..|ls| - 1]), ls[|ls| - 1])
  }

  // A line that goes on with a value begins with a blank.
  predicate LinesOk(h: HeaderState, ls: seq<Line>) {
    ls != [] ==>
      var n := |ls| - 1;
      LinesOk(h, ls[..n]) && LineOk(KindAfter(h, ls[..n]), ls[n]) && (n > 0 ==> ls[n].pad != [])
  }

  function LinesBytes(ls: seq<Line>): seq<Octet> {
    if ls == [] then [] else LinesBytes(ls[..|ls| - 1]) + LineBytes(ls[|ls| - 1])
  }

  function LinesEvents(ls: seq<Line>): seq<Event> {
    if ls == [] then [] else LinesEvents(ls[..|ls| - 1]) + LineEvents(ls[|ls| - 1])
  }

  // The value, as the application gets it.
  function Joined(ls: seq<Line>): seq<Octet> {
    if ls == [] then [] else Joined(ls[..|ls| - 1]) + ls[|ls| - 1].text
  }

  function LinesFlags(h: HeaderState, ls: seq<Line>): set<Flag> {
    if ls == [] then {} else LinesFlags(h, ls[..|ls| - 1]) + LineFlags(KindAfter(h, ls[..|ls| - 1]), ls[|ls| - 1])
  }

  function LinesLength(h: HeaderState, length: nat, ls: seq<Line>): nat
    requires LinesOk(h, ls)
  {
    if ls == [] then length
    else
      var n := |ls| - 1;
      LineLength(KindAfter(h, ls[..n]), LinesLength(h, length, ls[..n]), ls[n])
  }

  // A blank at the start of a line goes on with the value.
  lemma FoldedLine(cfg: Config, p: Parser, b: seq<Octet>)
    requires p.errno == OK && p.state.HeaderValueLws? && p.nread < MAX_HEADER_SIZE && b != [] && IsBlank(b[0])
    ensures Feed(cfg, p, b) == Feed(cfg, p.(state := HeaderValueStart), b)
  {
    hide OneByte, Feed;
    var q := p.(state := HeaderValueStart);
    FoldByte(cfg, p, b[0]);
    BlankByte(cfg, q, b[0]);
    Single(cfg, p, b[0]);
    Single(cfg, q, b[0]);
    FeedSplit(cfg, p, [b[0]], b[1..]);
    FeedSplit(cfg, q, [b[0]], b[1..]);
    assert [b[0]] + b[1..] == b;
  }

  lemma FoldByte(cfg: Config, p: Parser, ch: Octet)
    requires p.errno == OK && p.state.HeaderValueLws? && p.nread < MAX_HEADER_SIZE && IsBlank(ch)
    ensures OneByte(cfg, p, ch) == Fed(p.(state := HeaderValueStart, nread := p.nread + 1), [], 1, More)
  {
    hide OneByte, Once, Shaped;
    Dispatch(cfg, Counted(p), ch);
    NextByte(cfg, p, ch);
  }

  // The outcome of all lines of a value.
  ghost predicate LinesFed(p: Parser, r: Fed, h: HeaderState, ls: seq<Line>)
    requires LinesOk(h, ls)
  {
    && r.end.More? && r.log == LinesEvents(ls) && SameKind(r.p.headerState, KindAfter(h, ls))
    && Alike(r.p, Lined(p, |LinesBytes(ls)|, p.flags + LinesFlags(h, ls), LinesLength(h, p.contentLength, ls)))
  }

  lemma {:induction false} LinesRead(cfg: Config, p: Parser, h: HeaderState, ls: seq<Line>)
    requires p.errno == OK && p.state.HeaderValueStart? && SameKind(p.headerState, h) && ls != [] && LinesOk(h, ls)
    requires p.nread + |LinesBytes(ls)| <= MAX_HEADER_SIZE
    ensures LinesFed(p, Feed(cfg, p, LinesBytes(ls)), h, ls)
  {
    hide Feed, LineBytes, LineOk, LineEvents, LineFlags, LineLength, NextKind, SameKind;
    var n := |ls| - 1;
    var some, l := ls[..n], ls[n];
    if n == 0 {
      assert some == [];
      assert LinesBytes(ls) == LineBytes(l) && LinesEvents(ls) == LineEvents(l);
      LineRead(cfg, p, h, l);
      assert KindAfter(h, ls) == NextKind(h, l) && LinesFlags(h, ls) == LineFlags(h, l);
      assert LinesLength(h, p.contentLength, ls) == LineLength(h, p.contentLength, l);
    } else {
      hide LinesFed;
      assert LinesBytes(ls) == LinesBytes(some) + LineBytes(l);
      LinesRead(cfg, p, h, some);
      LinesAndLine(cfg, p, h, ls);
    }
  }

  lemma LinesAndLine(cfg: Config, p: Parser, h: HeaderState, ls: seq<Line>)
    requires p.errno == OK && |ls| > 1 && LinesOk(h, ls) && p.nread + |LinesBytes(ls)| <= MAX_HEADER_SIZE
    requires LinesFed(p, Feed(cfg, p, LinesBytes(ls[..|ls| - 1])), h, ls[..|ls| - 1])
    ensures LinesFed(p, Feed(cfg, p, LinesBytes(ls)), h, ls)
  {
    hide Feed, LineBytes, LineOk, LineEvents, LineFlags, LineLength, NextKind, SameKind;
    var n := |ls| - 1;
    var some, l := ls[..n], ls[n];
    var b, k := LineBytes(l), KindAfter(h, some);
    FeedUsed(cfg, p, LinesBytes(some));
    var q := Feed(cfg, p, LinesBytes(some)).p;
    LineStart(k, l);
    FoldedLine(cfg, q, b);
    LineRead(cfg, q.(state := HeaderValueStart), k, l);
    FeedUsed(cfg, q, b);
    Then(cfg, p, LinesBytes(some), q, LinesEvents(some), b, Feed(cfg, q, b).p, LineEvents(l));
  }

  lemma LineStart(h: HeaderState, l: Line)
    requires LineOk(h, l)
    ensures LineBytes(l) != [] && (l.pad != [] ==> IsBlank(LineBytes(l)[0]))
  {
  }

  // ----- one header -----

  datatype Header = Header(name: seq<Octet>, lines: seq<Line>)

  function KindOf(h: Header): HeaderState { Recognised(Lowered(h.name)) }

  predicate HeaderOk(h: Header) { IsName(h.name) && h.lines != [] && LinesOk(KindOf(h), h.lines) }

  function HeaderBytes(h: Header): seq<Octet> { h.name + ":" + LinesBytes(h.lines) }

  function HeaderEvents(h: Header): seq<Event> { Bytes(Field, h.name) + [Data(Field, [])] + LinesEvents(h.lines) }

  function HeaderFlags(h: Header): set<Flag> { LinesFlags(KindOf(h), h.lines) }

  function HeaderLength(length: nat, h: Header): nat
    requires HeaderOk(h)
  {
    LinesLength(KindOf(h), length, h.lines)
  }

  // A header is read as its name and value, and has the effect of its kind.
  lemma HeaderRead(cfg: Config, p: Parser, h: Header)
    requires p.errno == OK && p.state.HeaderFieldStart? && HeaderOk(h) && p.nread + |HeaderBytes(h)| <= MAX_HEADER_SIZE
    ensures var r := Feed(cfg, p, HeaderBytes(h));
      && r.end.More? && r.log == HeaderEvents(h)
      && Alike(r.p, Lined(p, |HeaderBytes(h)|, p.flags + HeaderFlags(h), HeaderLength(p.contentLength, h)))
  {
    hide Feed, IsName, Lowered, Recognised, LinesOk, LinesBytes, LinesEvents, LinesFlags, LinesLength, KindAfter;
    var name, lines := h.name + ":", LinesBytes(h.lines);
    FieldRecognised(cfg, p, h.name);
    RecognisedKind(h);
    FeedUsed(cfg, p, name);
    var q := Feed(cfg, p, name).p;
    LinesRead(cfg, q, KindOf(h), h.lines);
    FeedUsed(cfg, q, lines);
    Then(cfg, p, name, q, Bytes(Field, h.name) + [Data(Field, [])], lines, Feed(cfg, q, lines).p, LinesEvents(h.lines));
  }

  lemma RecognisedKind(h: Header)
    ensures var u := Lowered(h.name);
      && (KindOf(h).Connection? <==> u == "connection" || u == "proxy-connection") && (KindOf(h).ContentLength? <==> u == "content-length")
      && (KindOf(h).TransferEncoding? <==> u == "transfer-encoding") && (KindOf(h).UpgradeHeader? <==> u == "upgrade")
  {
    StandingIsExact(Lowered(h.name));
  }

  // ----- header blocks -----

  predicate HeadersOk(hs: seq<Header>) { forall i :: 0 <= i < |hs| ==> HeaderOk(hs[i]) }

  function HeadersBytes(hs: seq<Header>): seq<Octet> {
    if hs == [] then [] else HeadersBytes(hs[..|hs| - 1]) + HeaderBytes(hs[|hs| - 1])
  }

  function HeadersEvents(hs: seq<Header>): seq<Event> {
    if hs == [] then [] else HeadersEvents(hs[..|hs| - 1]) + HeaderEvents(hs[|hs| - 1])
  }

  // What a list of headers does to the flags and to the length of the body.
  function FlagsAfter(flags: set<Flag>, hs: seq<Header>): set<Flag> {
    if hs == [] then flags
    else FlagsAfter(flags, hs[..|hs| - 1]) + HeaderFlags(hs[|hs| - 1])
  }

  function LengthAfter(length: nat, hs: seq<Header>): nat
    requires HeadersOk(hs)
  {
    if hs == [] then length else HeaderLength(LengthAfter(length, hs[..|hs| - 1]), hs[|hs| - 1])
  }

  // Behind a header line, any character but white space begins the next one.
  lemma NextLine(cfg: Config, p: Parser, b: seq<Octet>)
    requires p.errno == OK && p.state.HeaderValueLws? && p.nread < MAX_HEADER_SIZE && b != [] && !IsBlank(b[0])
    ensures Feed(cfg, p, b) == Feed(cfg, p.(state := HeaderFieldStart), b)
  {
    hide OneByte, Feed;
    var q := p.(state := HeaderFieldStart);
    NextLineByte(cfg, p, b[0]);
    Single(cfg, p, b[0]);
    Single(cfg, q, b[0]);
    FeedSplit(cfg, p, [b[0]], b[1..]);
    FeedSplit(cfg, q, [b[0]], b[1..]);
    assert [b[0]] + b[1..] == b;
  }

  lemma NextLineByte(cfg: Config, p: Parser, ch: Octet)
    requires p.errno == OK && p.state.HeaderValueLws? && p.nread < MAX_HEADER_SIZE && !IsBlank(ch)
    ensures OneByte(cfg, p, ch) == OneByte(cfg, p.(state := HeaderFieldStart), ch)
  {
    hide Once, Switch, Shaped;
    var q := p.(state := HeaderFieldStart);
    Dispatch(cfg, Counted(p), ch);
    SwitchAgain(cfg, Counted(p), ch);
    var r := Switch(cfg, Counted(q), ch);
    assert [] + r.log == r.log;
  }

  // The parser after some headers, up to the automaton of names and values.
  function Headed(p: Parser, hs: seq<Header>): Parser
    requires HeadersOk(hs)
  {
    p.(state := if hs == [] then HeaderFieldStart else HeaderValueLws, nread := p.nread + |HeadersBytes(hs)|,
       flags := FlagsAfter(p.flags, hs), contentLength := LengthAfter(p.contentLength, hs))
  }

  // A header block is read as its headers.
  lemma {:induction false} HeadersRead(cfg: Config, p: Parser, hs: seq<Header>)
    requires p.errno == OK && p.state.HeaderFieldStart? && HeadersOk(hs) && p.nread + |HeadersBytes(hs)| <= MAX_HEADER_SIZE
    ensures var r := Feed(cfg, p, HeadersBytes(hs));
      r.end.More? && r.log == HeadersEvents(hs) && Alike(r.p, Headed(p, hs))
  {
    hide HeaderBytes, HeaderEvents, OneByte, HeaderOk, HeaderFlags, HeaderLength;
    if hs == [] {
      assert Feed(cfg, p, []) == Fed(p, [], 0, More);
    } else {
      var n := |hs| - 1;
      var some, h := hs[..n], hs[n];
      HeadersRead(cfg, p, some);
      var q := Feed(cfg, p, HeadersBytes(some)).p;
      var s := q.(state := HeaderFieldStart);
      HeaderStart(h);
      HeaderRead(cfg, s, h);
      if some != [] { NextLine(cfg, q, HeaderBytes(h)); } else { assert s == q; }
      FeedUsed(cfg, p, HeadersBytes(some));
      FeedUsed(cfg, q, HeaderBytes(h));
      Then(cfg, p, HeadersBytes(some), q, HeadersEvents(some), HeaderBytes(h), Feed(cfg, q, HeaderBytes(h)).p, HeaderEvents(h));
    }
  }

  lemma HeaderStart(h: Header)
    requires HeaderOk(h)
    ensures var b := HeaderBytes(h); b != [] && !IsBlank(b[0])
  {
    assert HeaderBytes(h)[0] == h.name[0];
  }

  lemma {:induction false} FlagsGrow(flags: set<Flag>, hs: seq<Header>)
    ensures flags <= FlagsAfter(flags, hs)
  {
    hide HeaderFlags;
    if hs != [] { FlagsGrow(flags, hs[..|hs| - 1]); }
  }

  // The carriage return of the empty line, after the first line or a header.
  lemma EmptyLine(cfg: Config, p: Parser)
    requires p.errno == OK && p.state.HeaderFieldStart? && p.nread < MAX_HEADER_SIZE
    ensures OneByte(cfg, p, CR) == Fed(p.(nread := p.nread + 1, state := HeadersAlmostDone), [], 1, More)
  {
    hide OneByte, Shaped, StepStart, StepResponse, StepStatus, StepMethod, StepUrl, StepRequest, StepValue, StepEnd, StepChunk;
    assert Once(cfg, Counted(p), CR) == StepField(cfg, Counted(p), CR);
    NextByte(cfg, p, CR);
  }

  lemma LastReturn(cfg: Config, p: Parser)
    requires p.errno == OK && (p.state.HeaderFieldStart? || p.state.HeaderValueLws?) && p.nread < MAX_HEADER_SIZE
    ensures Feed(cfg, p, [CR]) == Fed(p.(state := HeadersAlmostDone, nread := p.nread + 1), [], 1, More)
  {
    hide Feed, OneByte;
    if p.state.HeaderValueLws? { NextLine(cfg, p, [CR]); }
    var q := p.(state := HeaderFieldStart);
    EmptyLine(cfg, q);
    Single(cfg, q, CR);
  }

  // A bare line feed after the first line or a header ends the headers, too.
  lemma BareLine(cfg: Config, p: Parser, b: seq<Octet>)
    requires p.errno == OK && (p.state.HeaderFieldStart? || p.state.HeaderValueLws?) && p.nread < MAX_HEADER_SIZE && b != [] && b[0] == LF
    ensures Feed(cfg, p, b) == Feed(cfg, p.(state := HeadersAlmostDone), b)
  {
    hide Feed, OneByte;
    if p.state.HeaderValueLws? { NextLine(cfg, p, b); }
    var q, r := p.(state := HeaderFieldStart), p.(state := HeadersAlmostDone);
    BareByte(cfg, q);
    Single(cfg, q, LF);
    Single(cfg, r, LF);
    FeedSplit(cfg, q, [LF], b[1..]);
    FeedSplit(cfg, r, [LF], b[1..]);
    assert [LF] + b[1..] == b;
  }

  lemma BareByte(cfg: Config, p: Parser)
    requires p.errno == OK && p.state.HeaderFieldStart? && p.nread < MAX_HEADER_SIZE
    ensures OneByte(cfg, p, LF) == OneByte(cfg, p.(state := HeadersAlmostDone), LF)
  {
    hide Once, Switch, Shaped;
    Dispatch(cfg, Counted(p), LF);
    SwitchAgain(cfg, Counted(p), LF);
    var r := Switch(cfg, Counted(p.(state := HeadersAlmostDone)), LF);
    assert [] + r.log == r.log;
  }
}
