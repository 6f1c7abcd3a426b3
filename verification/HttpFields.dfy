// The header sub-automaton recognises exactly the header names it looks for.
module HttpFields {
  import opened HttpTypes
  import opened HttpStep
  import opened HttpReference

  predicate Prefix(u: seq<Octet>, word: string) { |u| <= |word| && u == word[..|u|] }

  lemma PrefixGrows(u: seq<Octet>, c: Octet, word: string)
    ensures Prefix(u + [c], word) <==> Prefix(u, word) && |u| < |word| && c == word[|u|]
    ensures Prefix(u, word) && |u| == |word| <==> u == word
  {
    if |u| < |word| {
      assert word[..|u| + 1] == word[..|u|] + [word[|u|]];
      assert (u + [c])[..|u|] == u && (u + [c])[|u|] == c;
      assert word[..|u| + 1][..|u|] == word[..|u|];
    }
    assert word[..|word|] == word;
  }

  // The header that a name in lower case stands for.
  function Recognised(u: seq<Octet>): HeaderState {
    if u == CONNECTION || u == PROXY_CONNECTION then Connection
    else if u == CONTENT_LENGTH then ContentLength
    else if u == TRANSFER_ENCODING then TransferEncoding
    else if u == UPGRADE then UpgradeHeader
    else General
  }

  // Where the automaton stands while the name may still become one of these.
  function Standing(u: seq<Octet>): HeaderState {
    if Recognised(u) != General then Recognised(u)
    else if Prefix(u, CONNECTION) || Prefix(u, CONTENT_LENGTH) then
      if |u| == 1 then C else if |u| == 2 then CO else if |u| == 3 then CON
      else if Prefix(u, CONNECTION) then MatchingConnection else MatchingContentLength
    else if Prefix(u, PROXY_CONNECTION) then MatchingProxyConnection
    else if Prefix(u, TRANSFER_ENCODING) then MatchingTransferEncoding
    else if Prefix(u, UPGRADE) then MatchingUpgrade
    else General
  }

  lemma FirstStands(c: Octet)
    ensures FieldFirst(c) == Standing([c])
  {
    PrefixGrows([], c, CONNECTION);
    PrefixGrows([], c, CONTENT_LENGTH);
    PrefixGrows([], c, PROXY_CONNECTION);
    PrefixGrows([], c, TRANSFER_ENCODING);
    PrefixGrows([], c, UPGRADE);
    assert [] + [c] == [c];
  }

  ghost predicate Follows(h: HeaderState, index: nat, u: seq<Octet>) {
    u != [] && h == Standing(u) && (!h.General? ==> index == |u| - 1)
  }

  // No name begins two of the words, but for the common start of two of them.
  lemma Apart(u: seq<Octet>)
    requires u != []
    ensures Prefix(u, CONNECTION) || Prefix(u, CONTENT_LENGTH) ==> u[0] == 'c'
    ensures Prefix(u, PROXY_CONNECTION) ==> u[0] == 'p'
    ensures Prefix(u, TRANSFER_ENCODING) ==> u[0] == 't'
    ensures Prefix(u, UPGRADE) ==> u[0] == 'u'
    ensures |u| > 3 && Prefix(u, CONNECTION) ==> u[3] == 'n'
    ensures |u| > 3 && Prefix(u, CONTENT_LENGTH) ==> u[3] == 't'
    ensures |u| <= 3 ==> (Prefix(u, CONNECTION) <==> Prefix(u, CONTENT_LENGTH))
  {
  }

  predicate Begins(u: seq<Octet>) {
    Prefix(u, CONNECTION) || Prefix(u, CONTENT_LENGTH) || Prefix(u, PROXY_CONNECTION) || Prefix(u, TRANSFER_ENCODING) || Prefix(u, UPGRADE)
  }

  // The state of a name that begins one word, and its match with one more letter.
  lemma StandsAt(u: seq<Octet>)
    requires u != []
    ensures (Prefix(u, CONNECTION) || Prefix(u, CONTENT_LENGTH)) && |u| <= 3 ==> Standing(u) == if |u| == 1 then C else if |u| == 2 then CO else CON
    ensures Prefix(u, CONNECTION) && |u| > 3 ==> Standing(u) == if |u| == |CONNECTION| then Connection else MatchingConnection
    ensures Prefix(u, CONTENT_LENGTH) && |u| > 3 ==> Standing(u) == if |u| == |CONTENT_LENGTH| then ContentLength else MatchingContentLength
    ensures Prefix(u, PROXY_CONNECTION) ==> Standing(u) == if |u| == |PROXY_CONNECTION| then Connection else MatchingProxyConnection
    ensures Prefix(u, TRANSFER_ENCODING) ==> Standing(u) == if |u| == |TRANSFER_ENCODING| then TransferEncoding else MatchingTransferEncoding
    ensures Prefix(u, UPGRADE) ==> Standing(u) == if |u| == |UPGRADE| then UpgradeHeader else MatchingUpgrade
    ensures !Begins(u) ==> Standing(u) == General
  {
    Apart(u);
    PrefixGrows(u, 'a', CONNECTION);
    PrefixGrows(u, 'a', CONTENT_LENGTH);
    PrefixGrows(u, 'a', PROXY_CONNECTION);
    PrefixGrows(u, 'a', TRANSFER_ENCODING);
    PrefixGrows(u, 'a', UPGRADE);
    hide Prefix;
  }

  lemma AllGrow(u: seq<Octet>, c: Octet)
    ensures Prefix(u + [c], CONNECTION) <==> Prefix(u, CONNECTION) && |u| < |CONNECTION| && c == CONNECTION[|u|]
    ensures Prefix(u + [c], CONTENT_LENGTH) <==> Prefix(u, CONTENT_LENGTH) && |u| < |CONTENT_LENGTH| && c == CONTENT_LENGTH[|u|]
    ensures Prefix(u + [c], PROXY_CONNECTION) <==> Prefix(u, PROXY_CONNECTION) && |u| < |PROXY_CONNECTION| && c == PROXY_CONNECTION[|u|]
    ensures Prefix(u + [c], TRANSFER_ENCODING) <==> Prefix(u, TRANSFER_ENCODING) && |u| < |TRANSFER_ENCODING| && c == TRANSFER_ENCODING[|u|]
    ensures Prefix(u + [c], UPGRADE) <==> Prefix(u, UPGRADE) && |u| < |UPGRADE| && c == UPGRADE[|u|]
  {
    PrefixGrows(u, c, CONNECTION);
    PrefixGrows(u, c, CONTENT_LENGTH);
    PrefixGrows(u, c, PROXY_CONNECTION);
    PrefixGrows(u, c, TRANSFER_ENCODING);
    PrefixGrows(u, c, UPGRADE);
  }

  lemma LetterFollows(p: Parser, ch: Octet, c: Octet, u: seq<Octet>)
    requires Follows(p.headerState, p.index, u) && ch != ' '
    ensures var q := FieldLetter(p, ch, c); Follows(q.headerState, q.index, u + [c])
  {
    hide Prefix, Standing, Recognised;
    if Prefix(u, CONNECTION) || Prefix(u, CONTENT_LENGTH) {
      ConFollows(p, ch, c, u);
    } else if Begins(u) {
      OthersFollow(p, ch, c, u);
    } else {
      StandsAt(u);
      AllGrow(u, c);
      StandsAt(u + [c]);
    }
  }

  lemma ConFollows(p: Parser, ch: Octet, c: Octet, u: seq<Octet>)
    requires Follows(p.headerState, p.index, u) && ch != ' ' && (Prefix(u, CONNECTION) || Prefix(u, CONTENT_LENGTH))
    ensures var q := FieldLetter(p, ch, c); Follows(q.headerState, q.index, u + [c])
  {
    hide Prefix, Standing, Recognised;
    StandsAt(u);
    AllGrow(u, c);
    Apart(u);
    StandsAt(u + [c]);
  }

  lemma OthersFollow(p: Parser, ch: Octet, c: Octet, u: seq<Octet>)
    requires Follows(p.headerState, p.index, u) && ch != ' ' && Begins(u) && !Prefix(u, CONNECTION) && !Prefix(u, CONTENT_LENGTH)
    ensures var q := FieldLetter(p, ch, c); Follows(q.headerState, q.index, u + [c])
  {
    hide Prefix, Standing, Recognised;
    StandsAt(u);
    AllGrow(u, c);
    Apart(u);
    StandsAt(u + [c]);
  }

  // ----- whole names -----

  predicate IsName(w: seq<Octet>) { w != [] && forall i :: 0 <= i < |w| ==> Token(true, w[i]) != '\0' }

  function Lowered(w: seq<Octet>): seq<Octet> {
    seq(|w|, i requires 0 <= i < |w| => Token(true, w[i]))
  }

  lemma LoweredSnoc(w: seq<Octet>, ch: Octet)
    ensures Lowered(w + [ch]) == Lowered(w) + [Token(true, ch)]
  {
  }

  lemma NameByte(cfg: Config, p: Parser, ch: Octet)
    requires p.errno == OK && p.nread < MAX_HEADER_SIZE && Token(true, ch) != '\0'
    requires p.state.HeaderFieldStart? || (p.state.HeaderField? && FieldState(p.headerState))
    ensures ch != ' '
    ensures var r := OneByte(cfg, p, ch);
      var c := Token(true, ch);
      var q := p.(nread := p.nread + 1);
      r == Fed(if p.state.HeaderFieldStart? then q.(index := 0, state := HeaderField, headerState := FieldFirst(c)) else FieldLetter(q, ch, c),
               [Data(Field, [ch])], 1, More)
  {
    hide FieldLetter, FieldFirst, OneByte, StepStart, StepResponse, StepStatus, StepMethod, StepUrl, StepRequest, StepValue, StepEnd, StepChunk;
    var q := Counted(p);
    assert Token(cfg.strict, ch) == Token(true, ch);
    if p.state.HeaderField? { FieldLetterKeeps(q, ch, Token(true, ch)); }
    assert Once(cfg, q, ch) == StepField(cfg, q, ch);
    NextByte(cfg, p, ch);
  }

  lemma {:induction false} NameFed(cfg: Config, p: Parser, w: seq<Octet>)
    requires p.errno == OK && p.state.HeaderFieldStart? && IsName(w) && p.nread + |w| <= MAX_HEADER_SIZE
    ensures var r := Feed(cfg, p, w);
      && r.end.More? && r.log == Bytes(Field, w)
      && r.p == p.(state := HeaderField, nread := p.nread + |w|, index := r.p.index, headerState := r.p.headerState)
      && Follows(r.p.headerState, r.p.index, Lowered(w)) && FieldState(r.p.headerState)
  {
    hide OneByte, Token, FieldLetter, FieldFirst, Standing, FieldState;
    var n := |w| - 1;
    var v, ch := w[..n], w[n];
    assert w == v + [ch];
    LoweredSnoc(v, ch);
    if n == 0 {
      assert Feed(cfg, p, v) == Fed(p, [], 0, More);
      NameByte(cfg, p, ch);
      FirstStands(Token(true, ch));
      FirstIsField(Token(true, ch));
      assert Lowered(w) == [Token(true, ch)];
    } else {
      NameFed(cfg, p, v);
      var q := Feed(cfg, p, v).p;
      NameByte(cfg, q, ch);
      LetterFollows(q.(nread := q.nread + 1), ch, Token(true, ch), Lowered(v));
      FieldLetterKeeps(q.(nread := q.nread + 1), ch, Token(true, ch));
    }
  }

  lemma FirstIsField(c: Octet)
    ensures FieldState(FieldFirst(c))
  {
  }

  lemma ColonByte(cfg: Config, p: Parser)
    requires p.errno == OK && p.nread < MAX_HEADER_SIZE && p.state.HeaderField?
    ensures OneByte(cfg, p, ':') == Fed(p.(nread := p.nread + 1, state := HeaderValueStart), [Data(Field, [])], 1, More)
  {
    hide OneByte, StepStart, StepResponse, StepStatus, StepMethod, StepUrl, StepRequest, StepValue, StepEnd, StepChunk;
    assert Once(cfg, Counted(p), ':') == StepField(cfg, Counted(p), ':');
    NextByte(cfg, p, ':');
  }

  // The value of a header is read as that of connection, content-length,
  // transfer-encoding or upgrade exactly if its name, in lower case, is that
  // name or, for connection, proxy-connection.
  lemma FieldRecognised(cfg: Config, p: Parser, w: seq<Octet>)
    requires p.errno == OK && p.state.HeaderFieldStart? && IsName(w) && p.nread + |w| < MAX_HEADER_SIZE
    ensures var r := Feed(cfg, p, w + [':']);
      var h := r.p.headerState;
      && r.end.More? && r.log == Bytes(Field, w) + [Data(Field, [])] && Story(r.log) == [Data(Field, w)]
      && r.p == p.(state := HeaderValueStart, nread := p.nread + |w| + 1, index := r.p.index, headerState := h)
      && (h.Connection? <==> Lowered(w) == "connection" || Lowered(w) == "proxy-connection")
      && (h.ContentLength? <==> Lowered(w) == "content-length")
      && (h.TransferEncoding? <==> Lowered(w) == "transfer-encoding")
      && (h.UpgradeHeader? <==> Lowered(w) == "upgrade")
  {
    NameFed(cfg, p, w);
    assert (w + [':'])[..|w|] == w;
    ColonByte(cfg, Feed(cfg, p, w).p);
    StoryOf(Field, w);
    StandingIsExact(Lowered(w));
    hide Story, Standing;
  }

  lemma StandingIsExact(u: seq<Octet>)
    ensures var h := Standing(u); h.Connection? || h.ContentLength? || h.TransferEncoding? || h.UpgradeHeader? <==> Recognised(u) != General
    ensures Recognised(u) != General ==> Standing(u) == Recognised(u)
    ensures (Recognised(u).Connection? <==> u == "connection" || u == "proxy-connection")
    ensures (Recognised(u).ContentLength? <==> u == "content-length")
    ensures (Recognised(u).TransferEncoding? <==> u == "transfer-encoding")
    ensures (Recognised(u).UpgradeHeader? <==> u == "upgrade")
  {
    assert |CONNECTION| == 10 && |PROXY_CONNECTION| == 16 && |CONTENT_LENGTH| == 14 && |TRANSFER_ENCODING| == 17 && |UPGRADE| == 7;
  }

  lemma StoryOf(k: DataKind, w: seq<Octet>)
    requires w != []
    ensures Story(Bytes(k, w) + [Data(k, [])]) == [Data(k, w)]
  {
    StoryBytes([], k, w);
    assert [] + Bytes(k, w) == Bytes(k, w) && [] + [Data(k, w)] == [Data(k, w)];
    StoryCat(Bytes(k, w), [Data(k, w)], [Data(k, [])]);
    StoryJoin([], k, w, []);
    assert [] + [Data(k, w)] + [Data(k, [])] == [Data(k, w)] + [Data(k, [])];
    assert w + [] == w;
    assert [Data(k, w)][..0] == [];
  }
}
