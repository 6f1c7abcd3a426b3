// The parser as it would be if it were fed one byte at a time, and the
// comparison of what two runs tell the application.
module HttpReference {
  import opened HttpTypes
  import opened HttpStep

  datatype End = More | Upgraded | Failed | Aborted

  // The parser after some bytes, what was told, and how many bytes were taken.
  datatype Fed = Fed(p: Parser, log: seq<Event>, used: nat, end: End)

  // The end of a datum shows as an empty piece of it.
  function Tell(act: Act): seq<Event> {
    match act
    case Quiet => []
    case Mark(_) => []
    case Emit(k) => if k.Body? then [] else [Data(k, [])]
    case Blank(k) => [Data(k, [])]
    case Note(n) => [Notify(n)]
  }

  // A byte that leaves the parser within some datum is part of it.
  function Own(s: State, ch: Octet): seq<Event> {
    if Group(s).Some? then [Data(Group(s).value, [ch])] else []
  }

  // The switch, as often as it looks at the byte.
  function Switch(cfg: Config, p: Parser, ch: Octet): Fed
    requires p.errno == OK && !Bulk(p.state)
    decreases Rank(p.state)
  {
    match Once(cfg, p, ch)
    case Next(q, act) => Fed(q, Tell(act) + Own(q.state, ch), 1, More)
    case Again(q, act) => var r := Switch(cfg, q, ch); r.(log := Tell(act) + r.log)
    case Exit(q, act) => Fed(q, Tell(act), 1, Upgraded)
    case Fail(q) => Fed(q, [], 0, Failed)
    case Abort => Fed(p, [], 0, Aborted)
  }

  predicate BodyOk(p: Parser) {
    p.state.BodyIdentityEof? || (0 < p.contentLength < UNKNOWN_LENGTH && (p.state.ChunkData? ==> Chunked in p.flags))
  }

  // The parser after n bytes of body.
  function AfterBody(p: Parser, n: nat): Parser
    requires Bulk(p.state) && (p.state.BodyIdentityEof? || n <= p.contentLength)
  {
    if p.state.BodyIdentityEof? then p
    else if n < p.contentLength then p.(contentLength := p.contentLength - n)
    else p.(contentLength := 0, state := if p.state.ChunkData? then ChunkDataAlmostDone else MessageDone)
  }

  function BodyByte(cfg: Config, p: Parser, ch: Octet): Fed
    requires p.errno == OK && Bulk(p.state)
  {
    if !BodyOk(p) then Fed(p, [], 0, Aborted)
    else
      var q := AfterBody(p, 1);
      if q.state.MessageDone? then var r := Switch(cfg, q, ch); r.(log := [Data(Body, [ch])] + r.log)
      else Fed(q, [Data(Body, [ch])], 1, More)
  }

  // Header bytes are counted.
  function Counted(p: Parser): Parser {
    if ParsingHeader(p.state) then p.(nread := p.nread + 1) else p
  }

  predicate TooLong(p: Parser) { ParsingHeader(p.state) && p.nread >= MAX_HEADER_SIZE }

  function OneByte(cfg: Config, p: Parser, ch: Octet): Fed
    requires p.errno == OK
  {
    if TooLong(p) then Fed(Counted(p).(errno := HEADER_OVERFLOW), [], 0, Failed)
    else if Bulk(p.state) then BodyByte(cfg, p, ch)
    else Switch(cfg, Counted(p), ch)
  }

  function Feed(cfg: Config, p: Parser, data: seq<Octet>): (r: Fed)
    requires p.errno == OK
    ensures (r.p.errno != OK <==> r.end.Failed?) && (r.end.More? ==> r.used == |data|)
  {
    if data == [] then Fed(p, [], 0, More)
    else
      var n := |data| - 1;
      var r := Feed(cfg, p, data[..n]);
      if !r.end.More? then r
      else
        OneByteEnds(cfg, r.p, data[n]);
        var s := OneByte(cfg, r.p, data[n]);
        Fed(s.p, r.log + s.log, r.used + s.used, s.end)
  }

  lemma OneByteEnds(cfg: Config, p: Parser, ch: Octet)
    requires p.errno == OK
    ensures var s := OneByte(cfg, p, ch); (s.p.errno != OK <==> s.end.Failed?) && (s.used == if s.end.More? || s.end.Upgraded? then 1 else 0)
  {
    if Bulk(p.state) {
      if BodyOk(p) { if AfterBody(p, 1).state.MessageDone? { SwitchEnds(cfg, AfterBody(p, 1), ch); } }
    } else if !TooLong(p) {
      SwitchEnds(cfg, Counted(p), ch);
    }
  }

  lemma {:induction false} SwitchEnds(cfg: Config, p: Parser, ch: Octet)
    requires p.errno == OK && !Bulk(p.state)
    ensures var r := Switch(cfg, p, ch); (r.p.errno != OK <==> r.end.Failed?) && (r.used == if r.end.More? || r.end.Upgraded? then 1 else 0)
    decreases Rank(p.state)
  {
    hide Once;
    var o := Once(cfg, p, ch);
    if o.Again? { SwitchEnds(cfg, o.p, ch); }
  }

  // Going on from where a first part ended.
  function Resume(cfg: Config, r: Fed, data: seq<Octet>): Fed
    requires r.end.More? ==> r.p.errno == OK
  {
    if !r.end.More? then r
    else
      var s := Feed(cfg, r.p, data);
      Fed(s.p, r.log + s.log, r.used + s.used, s.end)
  }

  // Bytes fed in two parts.
  lemma {:induction false} FeedSplit(cfg: Config, p: Parser, a: seq<Octet>, b: seq<Octet>)
    requires p.errno == OK
    ensures Feed(cfg, p, a + b) == Resume(cfg, Feed(cfg, p, a), b)
  {
    hide OneByte;
    if b == [] {
      assert a + b == a;
    } else {
      var n := |b| - 1;
      assert (a + b)[..|a + b| - 1] == a + b[..n] && (a + b)[|a + b| - 1] == b[n];
      FeedSplit(cfg, p, a, b[..n]);
    }
  }

  // One stretch after another.
  lemma Then(cfg: Config, p: Parser, a: seq<Octet>, q: Parser, la: seq<Event>, b: seq<Octet>, r: Parser, lb: seq<Event>)
    requires p.errno == OK && q.errno == OK && Feed(cfg, p, a) == Fed(q, la, |a|, More) && Feed(cfg, q, b) == Fed(r, lb, |b|, More)
    ensures Feed(cfg, p, a + b) == Fed(r, la + lb, |a + b|, More)
  {
    hide Feed;
    FeedSplit(cfg, p, a, b);
  }

  lemma Single(cfg: Config, p: Parser, ch: Octet)
    requires p.errno == OK
    ensures Feed(cfg, p, [ch]) == OneByte(cfg, p, ch)
  {
    hide OneByte;
    assert Feed(cfg, p, [ch][..0]) == Fed(p, [], 0, More);
    var r := OneByte(cfg, p, ch);
    assert [] + r.log == r.log;
  }

  // Which part of the switch a state belongs to.
  lemma Dispatch(cfg: Config, p: Parser, ch: Octet)
    requires p.errno == OK && !Bulk(p.state)
    ensures ResponseState(p.state) ==> Once(cfg, p, ch) == StepResponse(cfg, p, ch)
    ensures StatusState(p.state) ==> Once(cfg, p, ch) == StepStatus(cfg, p, ch)
    ensures p.state.ReqSpacesBeforeUrl? || InUrl(p.state) ==> Once(cfg, p, ch) == StepUrl(cfg, p, ch)
    ensures RequestState(p.state) ==> Once(cfg, p, ch) == StepRequest(cfg, p, ch)
    ensures p.state.HeaderFieldStart? || p.state.HeaderField? ==> Once(cfg, p, ch) == StepField(cfg, p, ch)
    ensures p.state.HeaderValueStart? || p.state.HeaderValue? ==> Once(cfg, p, ch) == StepValue(p, ch)
    ensures EndState(p.state) ==> Once(cfg, p, ch) == StepEnd(cfg, p, ch)
    ensures ChunkState(p.state) ==> Once(cfg, p, ch) == StepChunk(cfg, p, ch)
  {
    hide Shaped, StepStart, StepResponse, StepStatus, StepMethod, StepUrl, StepRequest, StepField, StepValue, StepEnd, StepChunk;
  }

  // A byte that is looked at once.
  lemma NextByte(cfg: Config, p: Parser, ch: Octet)
    requires p.errno == OK && !TooLong(p) && !Bulk(p.state) && Once(cfg, Counted(p), ch).Next?
    ensures var o := Once(cfg, Counted(p), ch); OneByte(cfg, p, ch) == Fed(o.p, Tell(o.act) + Own(o.p.state, ch), 1, More)
  {
    hide Once;
  }

  lemma FailByte(cfg: Config, p: Parser, ch: Octet)
    requires p.errno == OK && !TooLong(p) && !Bulk(p.state) && Once(cfg, Counted(p), ch).Fail?
    ensures OneByte(cfg, p, ch).end.Failed?
  {
    hide Once;
  }

  // What one look leads to.
  lemma SwitchAgain(cfg: Config, p: Parser, ch: Octet)
    requires p.errno == OK && !Bulk(p.state) && Once(cfg, p, ch).Again?
    ensures var o := Once(cfg, p, ch);
      && o.p.errno == OK && !Bulk(o.p.state) && Shape(p.state, o.act, o.p.state) && Rank(o.p.state) < Rank(p.state)
      && Group(o.p.state).None? && !o.p.state.ChunkDataAlmostDone?
      && Switch(cfg, p, ch) == Switch(cfg, o.p, ch).(log := Tell(o.act) + Switch(cfg, o.p, ch).log)
  {
    hide Once, Rank, Shape, Group;
  }

  lemma SwitchLast(cfg: Config, p: Parser, ch: Octet)
    requires p.errno == OK && !Bulk(p.state) && !Once(cfg, p, ch).Again?
    ensures var o := Once(cfg, p, ch);
      var r := Switch(cfg, p, ch);
      && (o.Next? ==> r == Fed(o.p, Tell(o.act) + Own(o.p.state, ch), 1, More) && Shape(p.state, o.act, o.p.state))
      && (o.Exit? ==> r == Fed(o.p, Tell(o.act), 1, Upgraded) && Shape(p.state, o.act, o.p.state) && Group(o.p.state).None?)
      && (o.Fail? ==> r == Fed(o.p, [], 0, Failed))
      && (o.Abort? ==> r.end.Aborted?)
  {
    hide Once, Shape, Group;
  }

  lemma OneByteCases(cfg: Config, p: Parser, ch: Octet)
    requires p.errno == OK && (TooLong(p) || !Bulk(p.state))
    ensures OneByte(cfg, p, ch) ==
      if TooLong(p) then Fed(Counted(p).(errno := HEADER_OVERFLOW), [], 0, Failed) else Switch(cfg, Counted(p), ch)
  {
  }

  // ----- no assertion fails -----

  lemma {:induction false} SwitchIsSafe(cfg: Config, p: Parser, ch: Octet)
    requires p.errno == OK && !Bulk(p.state) && ReachableAt(p)
    ensures var r := Switch(cfg, p, ch); !r.end.Aborted? && (!r.end.Failed? ==> Reachable(r.p))
    decreases Rank(p.state)
  {
    OnceIsSafe(cfg, p, ch);
    hide Once, ReachableAt, Reachable;
    var o := Once(cfg, p, ch);
    if o.Again? { SwitchIsSafe(cfg, o.p, ch); }
  }

  lemma OnceIsSafe(cfg: Config, p: Parser, ch: Octet)
    requires p.errno == OK && !Bulk(p.state) && ReachableAt(p)
    ensures Safe(Once(cfg, p, ch))
  {
    hide Safe, Shaped, ReachableAt, StepStart, StepResponse, StepStatus, StepMethod, StepUrl, StepRequest, StepField, StepValue, StepEnd, StepChunk;
    if StartState(p.state) { StartIsSafe(p, ch); }
    else if ResponseState(p.state) { ResponseIsSafe(cfg, p, ch); }
    else if StatusState(p.state) { StatusIsSafe(cfg, p, ch); }
    else if p.state.ReqMethod? { MethodIsSafe(p, ch); }
    else if p.state.ReqSpacesBeforeUrl? || InUrl(p.state) { UrlIsSafe(cfg, p, ch); }
    else if RequestState(p.state) { RequestIsSafe(cfg, p, ch); }
    else if p.state.HeaderFieldStart? || p.state.HeaderField? { FieldIsSafe(cfg, p, ch); }
    else if p.state.HeaderValueStart? || p.state.HeaderValue? { ValueIsSafe(p, ch); }
    else if EndState(p.state) { EndIsSafe(cfg, p, ch); }
    else { ChunkIsSafe(cfg, p, ch); }
  }

  lemma OneByteIsSafe(cfg: Config, p: Parser, ch: Octet)
    requires p.errno == OK && Reachable(p)
    ensures var r := OneByte(cfg, p, ch); !r.end.Aborted? && (!r.end.Failed? ==> Reachable(r.p))
  {
    hide Switch;
    if !Bulk(p.state) {
      if !TooLong(p) { SwitchIsSafe(cfg, Counted(p), ch); }
    } else if AfterBody(p, 1).state.MessageDone? {
      SwitchIsSafe(cfg, AfterBody(p, 1), ch);
    }
  }

  // From http_parser_init on, for all input: none of the assertions on the
  // body states, the chunk size line and the header states fails.
  lemma {:induction false} FeedIsSafe(cfg: Config, p: Parser, data: seq<Octet>)
    requires p.errno == OK && Reachable(p)
    ensures var r := Feed(cfg, p, data); !r.end.Aborted? && (!r.end.Failed? ==> Reachable(r.p))
  {
    hide Reachable, OneByte;
    if data != [] {
      var n := |data| - 1;
      FeedIsSafe(cfg, p, data[..n]);
      var r := Feed(cfg, p, data[..n]);
      if r.end.More? { OneByteIsSafe(cfg, r.p, data[n]); }
    }
  }

  lemma InitIsReachable(kind: Kind)
    ensures Reachable(Init(kind)) && Init(kind).errno == OK
  {
  }

  // ----- the same story, however the data is cut -----

  // Adjacent pieces of the same kind of data are one.
  function Join(log: seq<Event>, e: Event): seq<Event> {
    if e.Data? && log != [] && log[|log| - 1].Data? && log[|log| - 1].kind == e.kind
    then log[..|log| - 1] + [Data(e.kind, log[|log| - 1].bytes + e.bytes)]
    else log + [e]
  }

  function Story(log: seq<Event>): seq<Event> {
    if log == [] then [] else Join(Story(log[..|log| - 1]), log[|log| - 1])
  }

  lemma StorySnoc(a: seq<Event>, e: Event)
    ensures Story(a + [e]) == Join(Story(a), e)
  {
    assert (a + [e])[..|a|] == a;
  }

  lemma {:induction false} StoryCat(a: seq<Event>, b: seq<Event>, c: seq<Event>)
    requires Story(a) == Story(b)
    ensures Story(a + c) == Story(b + c)
  {
    if c == [] {
      assert a + c == a && b + c == b;
    } else {
      var d, e := c[..|c| - 1], c[|c| - 1];
      StoryCat(a, b, d);
      assert a + c == (a + d) + [e] && b + c == (b + d) + [e];
      StorySnoc(a + d, e);
      StorySnoc(b + d, e);
    }
  }

  lemma StoryJoin(a: seq<Event>, k: DataKind, x: seq<Octet>, y: seq<Octet>)
    ensures Story(a + [Data(k, x)] + [Data(k, y)]) == Story(a + [Data(k, x + y)])
  {
    StorySnoc(a, Data(k, x));
    StorySnoc(a + [Data(k, x)], Data(k, y));
    StorySnoc(a, Data(k, x + y));
    var s := Story(a);
    if s != [] && s[|s| - 1].Data? && s[|s| - 1].kind == k {
      var z := s[|s| - 1].bytes;
      assert (z + x) + y == z + (x + y);
      var s1 := Join(s, Data(k, x));
      assert s1[..|s1| - 1] == s[..|s| - 1];
    } else {
      assert (s + [Data(k, x)])[..|s|] == s;
    }
  }

  // ----- bodies -----

  // Data of one kind, byte by byte.
  function Bytes(k: DataKind, b: seq<Octet>): seq<Event> {
    if b == [] then [] else Bytes(k, b[..|b| - 1]) + [Data(k, [b[|b| - 1]])]
  }

  lemma {:induction false} StoryBytes(h: seq<Event>, k: DataKind, b: seq<Octet>)
    requires b != []
    ensures Story(h + Bytes(k, b)) == Story(h + [Data(k, b)])
  {
    var n := |b| - 1;
    var last := [Data(k, [b[n]])];
    assert b == b[..n] + [b[n]];
    assert h + Bytes(k, b) == h + Bytes(k, b[..n]) + last;
    if n == 0 {
      assert h + [] + last == h + last;
    } else {
      StoryBytes(h, k, b[..n]);
      StoryCat(h + Bytes(k, b[..n]), h + [Data(k, b[..n])], last);
      StoryJoin(h, k, b[..n], [b[n]]);
    }
  }

  // The parser after n bytes of body, with the end of the message.
  function BodyTaken(cfg: Config, p: Parser, n: nat): Parser
    requires Bulk(p.state) && (p.state.BodyIdentityEof? || n <= p.contentLength)
  {
    var q := AfterBody(p, n);
    if q.state.MessageDone? then q.(state := NewMessage(cfg, q)) else q
  }

  function BodyNotes(p: Parser, n: nat): seq<Event> {
    if p.state.BodyIdentity? && n == p.contentLength then [Notify(MessageComplete)] else []
  }

  lemma OneBodyByte(cfg: Config, p: Parser, ch: Octet)
    requires p.errno == OK && Bulk(p.state) && BodyOk(p)
    ensures OneByte(cfg, p, ch) == Fed(BodyTaken(cfg, p, 1), [Data(Body, [ch])] + BodyNotes(p, 1), 1, More)
  {
    var q := AfterBody(p, 1);
    if q.state.MessageDone? {
      assert Once(cfg, q, ch) == Complete(cfg, q);
      assert Switch(cfg, q, ch).log == [Notify(MessageComplete)];
    }
  }

  // A run of body bytes, one at a time.
  lemma {:induction false} FeedBody(cfg: Config, p: Parser, b: seq<Octet>)
    requires p.errno == OK && Bulk(p.state) && BodyOk(p) && b != [] && (p.state.BodyIdentityEof? || |b| <= p.contentLength)
    ensures Feed(cfg, p, b) == Fed(BodyTaken(cfg, p, |b|), Bytes(Body, b) + BodyNotes(p, |b|), |b|, More)
  {
    hide OneByte, NewMessage;
    var n := |b| - 1;
    if n == 0 {
      OneBodyByte(cfg, p, b[0]);
      assert Feed(cfg, p, b[..0]) == Fed(p, [], 0, More);
    } else {
      FeedBody(cfg, p, b[..n]);
      var q := AfterBody(p, n);
      assert Feed(cfg, p, b[..n]) == Fed(q, Bytes(Body, b[..n]), n, More);
      OneBodyByte(cfg, q, b[n]);
      assert Bytes(Body, b[..n]) + ([Data(Body, [b[n]])] + BodyNotes(q, 1)) == Bytes(Body, b) + BodyNotes(p, |b|);
    }
  }
}
