// The incremental method matcher accepts exactly the names of the table.
module HttpMethods {
  import opened Options
  import opened HttpTypes
  import opened HttpStep
  import opened HttpReference

  // The method that the matcher stands at after k letters of the name of m.
  function Path(m: Method, k: nat): Method {
    match m
    case CHECKOUT => if k <= 1 then CONNECT else m
    case COPY => if k <= 2 then CONNECT else m
    case MOVE | MERGE | MSEARCH => if k <= 1 then MKCOL else m
    case MKACTIVITY => if k <= 2 then MKCOL else m
    case SEARCH => if k <= 1 then SUBSCRIBE else m
    case PROPFIND | PUT | PATCH => if k <= 1 then POST else m
    case PROPPATCH => if k <= 1 then POST else if k <= 4 then PROPFIND else m
    case PURGE => if k <= 1 then POST else if k <= 2 then PUT else m
    case UNSUBSCRIBE => if k <= 2 then UNLOCK else m
    case _ => m
  }

  // One letter more, or None.
  function Letter(m: Method, k: nat, ch: Octet): Option<Method>
    requires k <= |Name(m)|
  {
    if ch == '\0' then None
    else if k < |Name(m)| && ch == Name(m)[k] then Some(m)
    else OtherMethod(m, k, ch)
  }

  lemma PathStarts(m: Method)
    ensures Name(m) != [] && FirstLetter(Name(m)[0]) == Some(Path(m, 1)) && Path(m, |Name(m)|) == m
    ensures IsAlpha(Name(m)[0])
  {
  }

  lemma PathGoesOn(m: Method, k: nat)
    requires 1 <= k < |Name(m)|
    ensures k <= |Name(Path(m, k))| && Letter(Path(m, k), k, Name(m)[k]) == Some(Path(m, k + 1))
  {
    hide OtherMethod;
    OnPath(m, k);
  }

  lemma OnPath(m: Method, k: nat)
    requires 1 <= k < |Name(m)|
    ensures var c := Path(m, k);
      && k <= |Name(c)| && Name(m)[k] != '\0'
      && if k < |Name(c)| && Name(m)[k] == Name(c)[k] then Path(m, k + 1) == c
         else OtherMethod(c, k, Name(m)[k]) == Some(Path(m, k + 1))
  {
  }

  // A change of method keeps the letters seen so far.
  lemma OtherAgrees(m: Method, k: nat, ch: Octet)
    requires k <= |Name(m)| && OtherMethod(m, k, ch).Some?
    ensures var n := Name(OtherMethod(m, k, ch).value);
      k < |n| && n[..k] == Name(m)[..k] && n[k] == ch && ch != ' '
  {
    OtherIsLetter(m, k, ch);
    hide OtherMethod, Name;
    var n := Name(OtherMethod(m, k, ch).value);
    forall i | 0 <= i < k ensures n[i] == Name(m)[i] { OtherLetters(m, k, ch, i); }
  }

  lemma OtherIsLetter(m: Method, k: nat, ch: Octet)
    requires OtherMethod(m, k, ch).Some?
    ensures var n := Name(OtherMethod(m, k, ch).value); k < |n| && n[k] == ch && ch != ' '
  {
  }

  lemma OtherLetters(m: Method, k: nat, ch: Octet, i: nat)
    requires i < k <= |Name(m)| && OtherMethod(m, k, ch).Some?
    ensures var n := Name(OtherMethod(m, k, ch).value); i < |n| && n[i] == Name(m)[i]
  {
  }

  lemma MethodByte(cfg: Config, p: Parser, ch: Octet)
    requires p.state.ReqMethod? && p.errno == OK && p.index <= |Name(p.verb)| && p.nread < MAX_HEADER_SIZE && ch != ' '
    ensures var r := OneByte(cfg, p, ch);
      match Letter(p.verb, p.index, ch)
      case Some(m) => r == Fed(p.(nread := p.nread + 1, index := p.index + 1, verb := m), [], 1, More)
      case None => !r.end.More?
  {
    hide OtherMethod, Name;
  }

  lemma SpaceByte(cfg: Config, p: Parser)
    requires p.state.ReqMethod? && p.errno == OK && p.index <= |Name(p.verb)| && p.nread < MAX_HEADER_SIZE
    ensures var r := OneByte(cfg, p, ' ');
      if p.index == |Name(p.verb)| then r == Fed(p.(nread := p.nread + 1, index := p.index + 1, state := ReqSpacesBeforeUrl), [], 1, More)
      else !r.end.More?
  {
    NoSpaces(p.verb, p.index);
    hide OtherMethod, Name;
  }

  lemma NoSpaces(m: Method, k: nat)
    ensures k < |Name(m)| ==> Name(m)[k] != ' ' && OtherMethod(m, k, ' ') == None
  {
    OtherIsNoSpace(m, k);
    hide OtherMethod;
  }

  lemma OtherIsNoSpace(m: Method, k: nat)
    ensures OtherMethod(m, k, ' ') == None
  {
  }

  // The parser after n letters of a method.
  function Started(p: Parser, m: Method, n: nat): Parser {
    p.(flags := {}, contentLength := UNKNOWN_LENGTH, verb := m, index := n, nread := p.nread + n, state := ReqMethod)
  }

  lemma FirstByte(cfg: Config, p: Parser, ch: Octet)
    requires p.state.StartReq? && p.errno == OK && p.nread < MAX_HEADER_SIZE && ch != CR && ch != LF
    ensures var r := OneByte(cfg, p, ch);
      if FirstLetter(ch).Some?
      then r == Fed(Started(p, FirstLetter(ch).value, 1), [Notify(MessageBegin)], 1, More)
      else !r.end.More?
  {
  }

  // After the word w: the letters seen are those of the method's name.
  ghost predicate Seen(p: Parser, w: seq<Octet>) {
    && p.state.ReqMethod? && p.errno == OK && p.index == |w| <= |Name(p.verb)| && Name(p.verb)[..|w|] == w
  }

  lemma FirstSeen(ch: Octet)
    requires FirstLetter(ch).Some?
    ensures var n := Name(FirstLetter(ch).value); 1 <= |n| && n[..1] == [ch]
  {
  }

  lemma {:induction false} WordFed(cfg: Config, p: Parser, w: seq<Octet>)
    requires p.state.StartReq? && p.errno == OK && w != [] && w[0] != CR && w[0] != LF && ' ' !in w
    requires p.nread + |w| <= MAX_HEADER_SIZE
    ensures var r := Feed(cfg, p, w);
      r.end.More? ==> Seen(r.p, w) && r.p == Started(p, r.p.verb, |w|) && r.log == [Notify(MessageBegin)]
  {
    hide OneByte, Name, FirstLetter, Letter;
    var n := |w| - 1;
    assert w == w[..n] + [w[n]];
    if n == 0 {
      FirstByte(cfg, p, w[0]);
      assert Feed(cfg, p, w[..0]) == Fed(p, [], 0, More);
      if FirstLetter(w[0]).Some? { FirstSeen(w[0]); }
    } else {
      WordFed(cfg, p, w[..n]);
      var q := Feed(cfg, p, w[..n]);
      if q.end.More? {
        MethodByte(cfg, q.p, w[n]);
        if Letter(q.p.verb, n, w[n]).Some? { LetterSeen(q.p, w[..n], w[n]); }
      }
    }
  }

  lemma LetterSeen(p: Parser, w: seq<Octet>, ch: Octet)
    requires Seen(p, w) && Letter(p.verb, |w|, ch).Some?
    ensures var n := Name(Letter(p.verb, |w|, ch).value); |w| < |n| && n[..|w| + 1] == w + [ch]
  {
    hide Name, OtherMethod;
    var name := Name(p.verb);
    var k := |w|;
    if k < |name| && ch == name[k] {
      assert name[..k + 1] == name[..k] + [name[k]];
    } else {
      OtherAgrees(p.verb, k, ch);
      var n := Name(OtherMethod(p.verb, k, ch).value);
      assert n[..k + 1] == n[..k] + [n[k]];
    }
  }

  // A name of the table is followed letter by letter.
  lemma {:induction false} NameFed(cfg: Config, p: Parser, m: Method, k: nat)
    requires p.state.StartReq? && p.errno == OK && 1 <= k <= |Name(m)| && p.nread + |Name(m)| <= MAX_HEADER_SIZE
    ensures var r := Feed(cfg, p, Name(m)[..k]); r.end.More? && r.p.verb == Path(m, k)
  {
    PathStarts(m);
    NameIsWord(m);
    hide OneByte, Name, FirstLetter, Letter, Path;
    var w := Name(m)[..k];
    assert w[..k - 1] == Name(m)[..k - 1] && w[k - 1] == Name(m)[k - 1];
    if k == 1 {
      FirstByte(cfg, p, w[0]);
      assert Feed(cfg, p, w[..0]) == Fed(p, [], 0, More);
    } else {
      NameFed(cfg, p, m, k - 1);
      WordFed(cfg, p, w[..k - 1]);
      PathGoesOn(m, k - 1);
      MethodByte(cfg, Feed(cfg, p, w[..k - 1]).p, w[k - 1]);
    }
  }

  lemma NameIsWord(m: Method)
    ensures ' ' !in Name(m) && Name(m) != [] && Name(m)[0] != CR && Name(m)[0] != LF
  {
  }

  // A word followed by a space is accepted exactly if it is the name of a
  // method, and then as that method.
  lemma MethodRecognised(cfg: Config, p: Parser, w: seq<Octet>)
    requires p.state.StartReq? && p.errno == OK && w != [] && w[0] != CR && w[0] != LF && ' ' !in w
    requires p.nread + |w| < MAX_HEADER_SIZE
    ensures var r := Feed(cfg, p, w + [' ']);
      && (r.end.More? <==> exists m :: Name(m) == w)
      && (r.end.More? ==> Name(r.p.verb) == w && r.p == Started(p, r.p.verb, |w| + 1).(state := ReqSpacesBeforeUrl) && r.log == [Notify(MessageBegin)])
      && (forall m :: Name(m) == w ==> r.p.verb == m)
  {
    hide OneByte, Name, Path;
    var r := Feed(cfg, p, w);
    assert (w + [' '])[..|w|] == w;
    WordFed(cfg, p, w);
    if r.end.More? { SpaceByte(cfg, r.p); }
    forall m | Name(m) == w ensures r.end.More? && r.p.verb == m {
      NameFed(cfg, p, m, |w|);
      assert Name(m)[..|w|] == w;
      PathStarts(m);
    }
  }
}
