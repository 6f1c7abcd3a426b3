// Which URLs the parser accepts: those of a grammar.
module HttpUrls {
  import opened HttpTypes
  import opened HttpStep

  // Where the characters of a URL lead: a path, a scheme or, for CONNECT, a
  // server comes first.
  function UrlState(strict: bool, verb: Method, url: seq<Octet>): State {
    if url == [] then if verb == CONNECT then ReqServerStart else ReqSpacesBeforeUrl
    else UrlChar(strict, UrlState(strict, verb, url[..|url| - 1]), url[|url| - 1])
  }

  // A URL may end within a server, a path, a query or a fragment.
  predicate MayEnd(s: State) {
    || s.ReqServer? || s.ReqServerWithAt? || s.ReqPath? || s.ReqQueryStringStart? || s.ReqQueryString?
    || s.ReqFragmentStart? || s.ReqFragment?
  }

  predicate UrlOk(strict: bool, verb: Method, url: seq<Octet>) { url != [] && MayEnd(UrlState(strict, verb, url)) }

  // ----- the grammar -----

  // What may follow the first character of a path, or of a query.
  predicate IsTail(strict: bool, s: seq<Octet>) {
    forall i :: 0 <= i < |s| ==> IsUrlChar(strict, s[i]) || s[i] == '?' || s[i] == '#'
  }

  predicate Letters(s: seq<Octet>) { s != [] && forall i :: 0 <= i < |s| ==> IsAlpha(s[i]) }

  predicate IsServerChar(ch: Octet) { IsUserInfo(ch) || ch == '[' || ch == ']' || ch == '@' }

  // A user, a host and a port: no two at signs are next to each other.
  predicate IsServer(s: seq<Octet>) {
    && (forall i :: 0 <= i < |s| ==> IsServerChar(s[i]))
    && (forall i :: 0 < i < |s| ==> s[i] != '@' || s[i - 1] != '@')
  }

  // A path, or "*"; or a server, behind a scheme or, for CONNECT, by itself,
  // with a path or a query.
  datatype Target = Local(path: seq<Octet>) | Remote(scheme: seq<Octet>, server: seq<Octet>, path: seq<Octet>)

  function TargetText(t: Target): seq<Octet> {
    match t
    case Local(path) => path
    case Remote(scheme, server, path) => (if scheme == [] then [] else scheme + "://") + server + path
  }

  predicate TargetOk(strict: bool, verb: Method, t: Target) {
    match t
    case Local(path) => verb != CONNECT && path != [] && (path[0] == '/' || path[0] == '*') && IsTail(strict, path[1..])
    case Remote(scheme, server, path) =>
      && (if verb == CONNECT then scheme == [] else Letters(scheme)) && IsServer(server) && (server != [] || path != [])
      && (path != [] ==> (path[0] == '/' || path[0] == '?') && IsTail(strict, path[1..]))
  }

  ghost predicate IsTarget(strict: bool, verb: Method, t: Target, url: seq<Octet>) { TargetOk(strict, verb, t) && TargetText(t) == url }

  predicate InServer(s: State) { s.ReqServerStart? || s.ReqServer? || s.ReqServerWithAt? }

  predicate InPath(s: State) {
    s.ReqPath? || s.ReqQueryStringStart? || s.ReqQueryString? || s.ReqFragmentStart? || s.ReqFragment?
  }

  lemma OneChar(strict: bool, verb: Method, url: seq<Octet>, ch: Octet)
    ensures UrlState(strict, verb, url + [ch]) == UrlChar(strict, UrlState(strict, verb, url), ch)
  {
    hide UrlChar;
    assert (url + [ch])[..|url|] == url;
  }

  // ----- what the grammar gives is accepted -----

  lemma PathChar(strict: bool, s: State, ch: Octet)
    requires InPath(s)
    ensures if IsUrlChar(strict, ch) || ch == '?' || ch == '#' then InPath(UrlChar(strict, s, ch)) else UrlChar(strict, s, ch).Dead?
  {
  }

  lemma {:induction false} TailGoesOn(strict: bool, verb: Method, url: seq<Octet>, more: seq<Octet>)
    requires InPath(UrlState(strict, verb, url)) && IsTail(strict, more)
    ensures InPath(UrlState(strict, verb, url + more))
  {
    hide UrlChar, UrlState, IsUrlChar;
    if more == [] {
      assert url + more == url;
    } else {
      var n := |more| - 1;
      TailGoesOn(strict, verb, url, more[..n]);
      assert url + more == url + more[..n] + [more[n]];
      OneChar(strict, verb, url + more[..n], more[n]);
      PathChar(strict, UrlState(strict, verb, url + more[..n]), more[n]);
    }
  }

  lemma ServerCharLeads(strict: bool, s: State, ch: Octet)
    requires InServer(s)
    ensures var r := UrlChar(strict, s, ch);
      if IsServerChar(ch) && !(s.ReqServerWithAt? && ch == '@') then r == (if ch == '@' then ReqServerWithAt else ReqServer)
      else if ch == '/' || ch == '?' then InPath(r) else r.Dead?
  {
  }

  lemma {:induction false} ServerGoesOn(strict: bool, verb: Method, url: seq<Octet>, server: seq<Octet>)
    requires UrlState(strict, verb, url).ReqServerStart? && IsServer(server)
    ensures UrlState(strict, verb, url + server)
      == if server == [] then ReqServerStart else if server[|server| - 1] == '@' then ReqServerWithAt else ReqServer
  {
    hide UrlChar, UrlState, IsUserInfo;
    if server == [] {
      assert url + server == url;
    } else {
      var n := |server| - 1;
      ServerGoesOn(strict, verb, url, server[..n]);
      assert url + server == url + server[..n] + [server[n]];
      OneChar(strict, verb, url + server[..n], server[n]);
      ServerCharLeads(strict, UrlState(strict, verb, url + server[..n]), server[n]);
    }
  }

  lemma {:induction false} SchemeGoesOn(strict: bool, verb: Method, s: seq<Octet>)
    requires Letters(s) && verb != CONNECT
    ensures UrlState(strict, verb, s).ReqSchema?
  {
    if |s| > 1 { SchemeGoesOn(strict, verb, s[..|s| - 1]); } else { assert s[..0] == []; }
  }

  lemma SlashesGoOn(strict: bool, verb: Method, scheme: seq<Octet>)
    requires Letters(scheme) && verb != CONNECT
    ensures UrlState(strict, verb, scheme + "://").ReqServerStart?
  {
    SchemeGoesOn(strict, verb, scheme);
    hide UrlState, Letters;
    OneChar(strict, verb, scheme, ':');
    OneChar(strict, verb, scheme + ":", '/');
    OneChar(strict, verb, scheme + ":" + "/", '/');
    assert scheme + ":" + "/" + "/" == scheme + "://";
  }

  lemma TargetAccepted(strict: bool, verb: Method, t: Target)
    requires TargetOk(strict, verb, t)
    ensures UrlOk(strict, verb, TargetText(t))
  {
    hide UrlChar, UrlState, IsTail, IsServer, Letters;
    match t
    case Local(path) =>
      FirstSlash(strict, verb, path[0]);
      assert [path[0]] + path[1..] == path;
      TailGoesOn(strict, verb, [path[0]], path[1..]);
      PathMayEnd(UrlState(strict, verb, path));
    case Remote(scheme, server, path) =>
      var base := if scheme == [] then [] else scheme + "://";
      if scheme != [] { SlashesGoOn(strict, verb, scheme); } else { StartsWithServer(strict, verb, scheme); }
      ServerGoesOn(strict, verb, base, server);
      if path == [] {
        assert base + server + path == base + server;
        if base == [] { assert base + server == server; }
      } else {
        PathAccepted(strict, verb, base + server, path);
      }
  }

  lemma StartsWithServer(strict: bool, verb: Method, scheme: seq<Octet>)
    requires if verb == CONNECT then scheme == [] else Letters(scheme)
    ensures scheme == [] ==> UrlState(strict, verb, []).ReqServerStart?
  {
  }

  lemma PathMayEnd(s: State)
    requires InPath(s)
    ensures MayEnd(s)
  {
  }

  lemma PathAccepted(strict: bool, verb: Method, url: seq<Octet>, path: seq<Octet>)
    requires InServer(UrlState(strict, verb, url)) && path != [] && (path[0] == '/' || path[0] == '?') && IsTail(strict, path[1..])
    ensures UrlOk(strict, verb, url + path)
  {
    hide UrlChar, UrlState, IsTail;
    OneChar(strict, verb, url, path[0]);
    ServerCharLeads(strict, UrlState(strict, verb, url), path[0]);
    ServerEnds(path[0]);
    TailGoesOn(strict, verb, url + [path[0]], path[1..]);
    assert url + [path[0]] + path[1..] == url + path;
    PathMayEnd(UrlState(strict, verb, url + path));
  }

  lemma ServerEnds(ch: Octet)
    ensures ch == '/' || ch == '?' ==> !IsServerChar(ch)
  {
  }

  lemma FirstSlash(strict: bool, verb: Method, ch: Octet)
    requires verb != CONNECT && (ch == '/' || ch == '*')
    ensures UrlState(strict, verb, [ch]).ReqPath?
  {
    assert [ch][..0] == [];
  }

  // ----- what is accepted is in the grammar -----

  // The part of a URL read so far, by the state that it leads to.
  ghost predicate ShapeOf(strict: bool, verb: Method, url: seq<Octet>, s: State, t: Target) {
    var n := |url|;
    if s.ReqSpacesBeforeUrl? then verb != CONNECT && url == []
    else if s.ReqSchema? then verb != CONNECT && Letters(url)
    else if s.ReqSchemaSlash? then verb != CONNECT && n > 1 && Letters(url[..n - 1]) && url[n - 1..] == ":"
    else if s.ReqSchemaSlashSlash? then verb != CONNECT && n > 2 && Letters(url[..n - 2]) && url[n - 2..] == ":/"
    else if InServer(s) then
      && t.Remote? && t.path == [] && TargetText(t) == url && IsServer(t.server)
      && (if verb == CONNECT then t.scheme == [] else Letters(t.scheme))
      && s == (if t.server == [] then ReqServerStart else if t.server[|t.server| - 1] == '@' then ReqServerWithAt else ReqServer)
    else InPath(s) && IsTarget(strict, verb, t, url) && t.path != []
  }

  lemma {:induction false} UrlShape(strict: bool, verb: Method, url: seq<Octet>) returns (t: Target)
    requires !UrlState(strict, verb, url).Dead?
    ensures ShapeOf(strict, verb, url, UrlState(strict, verb, url), t)
  {
    hide UrlChar, ShapeOf;
    if url == [] {
      t := Remote([], [], []);
      NothingYet(strict, verb);
    } else {
      var n := |url| - 1;
      var s := UrlState(strict, verb, url[..n]);
      DeadIsDead(strict, url[n]);
      t := UrlShape(strict, verb, url[..n]);
      assert url[..n] + [url[n]] == url;
      if InServer(s) { t := MoreServer(strict, verb, url[..n], s, t, url[n]); }
      else if InPath(s) { t := MorePath(strict, verb, url[..n], s, t, url[n]); }
      else { t := MoreScheme(strict, verb, url[..n], s, t, url[n]); }
    }
  }

  lemma NothingYet(strict: bool, verb: Method)
    ensures ShapeOf(strict, verb, [], UrlState(strict, verb, []), Remote([], [], []))
  {
  }

  lemma DeadIsDead(strict: bool, ch: Octet)
    ensures UrlChar(strict, Dead, ch) == Dead
  {
  }

  lemma MoreServer(strict: bool, verb: Method, url: seq<Octet>, s: State, t: Target, ch: Octet) returns (u: Target)
    requires InServer(s) && ShapeOf(strict, verb, url, s, t) && !UrlChar(strict, s, ch).Dead?
    ensures ShapeOf(strict, verb, url + [ch], UrlChar(strict, s, ch), u)
  {
    ServerCharLeads(strict, s, ch);
    hide UrlChar, ShapeOf, IsServerChar;
    if IsServerChar(ch) && !(s.ReqServerWithAt? && ch == '@') {
      u := t.(server := t.server + [ch]);
      StillServer(strict, verb, url, s, t, ch);
    } else {
      u := t.(path := [ch]);
      PathBegins(strict, verb, url, s, t, ch, UrlChar(strict, s, ch));
    }
  }

  lemma StillServer(strict: bool, verb: Method, url: seq<Octet>, s: State, t: Target, ch: Octet)
    requires InServer(s) && ShapeOf(strict, verb, url, s, t) && IsServerChar(ch) && !(s.ReqServerWithAt? && ch == '@')
    ensures ShapeOf(strict, verb, url + [ch], if ch == '@' then ReqServerWithAt else ReqServer, t.(server := t.server + [ch]))
  {
    hide IsServerChar, TargetText, IsServer, Letters, TargetOk;
    ServerTextMore(t, ch);
    ServerMore(t.server, ch);
  }

  lemma PathBegins(strict: bool, verb: Method, url: seq<Octet>, s: State, t: Target, ch: Octet, r: State)
    requires InServer(s) && ShapeOf(strict, verb, url, s, t) && (ch == '/' || ch == '?') && InPath(r)
    ensures ShapeOf(strict, verb, url + [ch], r, t.(path := [ch]))
  {
    hide TargetText, IsServer, Letters, InPath;
    PathIsNoServer(s, r);
    PathTextMore(t, ch);
    assert [] + [ch] == [ch] && [ch][1..] == [];
  }

  lemma ServerTextMore(t: Target, ch: Octet)
    requires t.Remote? && t.path == []
    ensures TargetText(t.(server := t.server + [ch])) == TargetText(t) + [ch]
  {
    var base := if t.scheme == [] then [] else t.scheme + "://";
    assert base + (t.server + [ch]) + [] == base + t.server + [] + [ch];
  }

  lemma ServerMore(server: seq<Octet>, ch: Octet)
    requires IsServer(server) && IsServerChar(ch) && !(server != [] && server[|server| - 1] == '@' && ch == '@')
    ensures IsServer(server + [ch])
  {
    hide IsServerChar;
  }

  lemma PathTextMore(t: Target, ch: Octet)
    ensures TargetText(t.(path := t.path + [ch])) == TargetText(t) + [ch]
  {
    if t.Remote? {
      var base := (if t.scheme == [] then [] else t.scheme + "://") + t.server;
      assert base + (t.path + [ch]) == base + t.path + [ch];
    }
    assert t.path == [] ==> t.path + [ch] == [ch];
  }

  lemma MorePath(strict: bool, verb: Method, url: seq<Octet>, s: State, t: Target, ch: Octet) returns (u: Target)
    requires InPath(s) && ShapeOf(strict, verb, url, s, t) && !UrlChar(strict, s, ch).Dead?
    ensures ShapeOf(strict, verb, url + [ch], UrlChar(strict, s, ch), u)
  {
    PathChar(strict, s, ch);
    PathIsNoServer(s, UrlChar(strict, s, ch));
    hide UrlChar, IsUrlChar, IsServer, Letters, TargetText, InPath, InServer;
    u := t.(path := t.path + [ch]);
    PathTextMore(t, ch);
    TailMore(strict, t.path, ch);
  }

  lemma PathIsNoServer(s: State, r: State)
    ensures InPath(s) ==> !InServer(s) && !s.ReqSpacesBeforeUrl? && !s.ReqSchema? && !s.ReqSchemaSlash? && !s.ReqSchemaSlashSlash?
    ensures InPath(r) ==> !InServer(r) && !r.ReqSpacesBeforeUrl? && !r.ReqSchema? && !r.ReqSchemaSlash? && !r.ReqSchemaSlashSlash?
  {
  }

  lemma TailMore(strict: bool, path: seq<Octet>, ch: Octet)
    requires path != [] && IsTail(strict, path[1..]) && (IsUrlChar(strict, ch) || ch == '?' || ch == '#')
    ensures IsTail(strict, (path + [ch])[1..]) && (path + [ch])[0] == path[0]
  {
    hide IsUrlChar;
    assert (path + [ch])[1..] == path[1..] + [ch];
  }

  lemma MoreScheme(strict: bool, verb: Method, url: seq<Octet>, s: State, t: Target, ch: Octet) returns (u: Target)
    requires !InServer(s) && !InPath(s) && ShapeOf(strict, verb, url, s, t) && !UrlChar(strict, s, ch).Dead?
    ensures ShapeOf(strict, verb, url + [ch], UrlChar(strict, s, ch), u)
  {
    hide TargetText, TargetOk, IsUrlChar;
    var all, n := url + [ch], |url|;
    assert all[..n] == url && all[n..] == [ch];
    u := t;
    if s.ReqSpacesBeforeUrl? {
      u := Local([ch]);
      FirstTarget(strict, verb, ch);
      assert all == [ch];
    } else if s.ReqSchemaSlash? {
      assert all[..n - 1] == url[..n - 1] && all[n - 1..] == url[n - 1..] + [ch];
    } else if s.ReqSchemaSlashSlash? {
      u := Remote(url[..n - 2], [], []);
      SchemeText(url[..n - 2]);
      assert all == url[..n - 2] + "://";
    }
  }

  lemma FirstTarget(strict: bool, verb: Method, ch: Octet)
    requires verb != CONNECT
    ensures ch == '/' || ch == '*' ==> IsTarget(strict, verb, Local([ch]), [ch])
  {
    assert [ch][1..] == [];
  }

  lemma SchemeText(scheme: seq<Octet>)
    requires scheme != []
    ensures TargetText(Remote(scheme, [], [])) == scheme + "://"
  {
  }

  // A URL is accepted exactly if it is in the grammar.
  lemma UrlExactly(strict: bool, verb: Method, url: seq<Octet>)
    ensures UrlOk(strict, verb, url) <==> exists t :: IsTarget(strict, verb, t, url)
  {
    hide UrlChar, TargetOk, TargetText;
    if UrlOk(strict, verb, url) {
      var t := UrlShape(strict, verb, url);
      ShapeIsTarget(strict, verb, url, UrlState(strict, verb, url), t);
    }
    if t :| IsTarget(strict, verb, t, url) { TargetAccepted(strict, verb, t); }
  }

  lemma ShapeIsTarget(strict: bool, verb: Method, url: seq<Octet>, s: State, t: Target)
    requires ShapeOf(strict, verb, url, s, t) && MayEnd(s)
    ensures IsTarget(strict, verb, t, url)
  {
  }
}
