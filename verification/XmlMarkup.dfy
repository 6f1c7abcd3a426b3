// What XML looks like: texts in which white space, quotes and the form of tags
// are free, and the trees that they stand for. The parser accepts exactly these.
module XmlMarkup {
  import opened Options
  import opened XmlText
  import opened XmlParser

  predicate Spaces(s: seq<Char>) { forall i :: 0 <= i < |s| ==> IsSpace(s[i]) }

  predicate ValidName(name: seq<Char>) {
    name != [] && IsNameStart(name[0]) && forall i :: 0 <= i < |name| ==> IsNameChar(name[i])
  }

  // An attribute, with the white space before it, before and behind the equals
  // sign, and its quote.
  datatype Attr = Attr(before: seq<Char>, name: seq<Char>, gap: seq<Char>, space: seq<Char>, quote: Char, raw: seq<Char>)

  // A tag, from behind the opening bracket to its end.
  datatype Tag = Tag(lead: seq<Char>, slash: bool, name: seq<Char>, attrs: seq<Attr>, trail: seq<Char>)

  // A closing tag, which may carry attributes.
  datatype Close = Close(gap: seq<Char>, tag: Tag)

  datatype Item =
    | TextItem(raw: seq<Char>)
    | EmptyItem(gap: seq<Char>, tag: Tag)
    | FullItem(gap: seq<Char>, tag: Tag, items: seq<Item>, close: Close)

  // ----- their texts, each followed by what comes next -----

  function AttrText(a: Attr, next: seq<Char>): seq<Char> {
    a.before + (a.name + (a.gap + (['='] + (a.space + ([a.quote] + (a.raw + [a.quote] + next))))))
  }

  function AttrsText(attrs: seq<Attr>, next: seq<Char>): seq<Char> {
    if attrs == [] then next else AttrText(attrs[0], AttrsText(attrs[1..], next))
  }

  function TagText(t: Tag, next: seq<Char>): seq<Char> {
    t.lead + ((if t.slash then ['/'] else []) + (t.name + AttrsText(t.attrs, t.trail + next)))
  }

  function CloseText(c: Close, next: seq<Char>): seq<Char> { c.gap + (['<'] + TagText(c.tag, ['>'] + next)) }

  function ItemText(item: Item, next: seq<Char>): seq<Char> {
    match item
    case TextItem(raw) => raw + next
    case EmptyItem(gap, tag) => gap + (['<'] + TagText(tag, "/>" + next))
    case FullItem(gap, tag, items, close) => gap + (['<'] + TagText(tag, ['>'] + ItemsText(items, CloseText(close, next))))
  }

  function ItemsText(items: seq<Item>, next: seq<Char>): seq<Char> {
    if items == [] then next else ItemText(items[0], ItemsText(items[1..], next))
  }

  // ----- which are proper -----

  predicate AttrOk(a: Attr) {
    Spaces(a.before) && ValidName(a.name) && Spaces(a.gap) && Spaces(a.space) && (a.quote == '"' || a.quote == '\'') && a.quote !in a.raw
  }

  function AttributesOf(attrs: seq<Attr>): (r: seq<Attribute>)
    ensures |r| == |attrs|
  {
    if attrs == [] then [] else [Attribute(attrs[0].name, Decode(attrs[0].raw))] + AttributesOf(attrs[1..])
  }

  predicate Unique(attributes: seq<Attribute>) {
    forall i, j :: 0 <= i < j < |attributes| ==> attributes[i].name != attributes[j].name
  }

  predicate TagOk(t: Tag) {
    && Spaces(t.lead) && ValidName(t.name) && Spaces(t.trail)
    && (forall i :: 0 <= i < |t.attrs| ==> AttrOk(t.attrs[i])) && Unique(AttributesOf(t.attrs))
    && (t.attrs != [] ==> t.attrs[0].before != [])
  }

  // White space before a tag is part of a text before it.
  predicate GapOk(gap: seq<Char>, afterText: bool) { Spaces(gap) && (afterText ==> gap == []) }

  predicate CloseOk(c: Close, afterText: bool) { GapOk(c.gap, afterText) && TagOk(c.tag) && c.tag.slash }

  // A closing tag has the name of its element; a tag that closes itself may
  // begin like a closing tag.
  predicate ItemOk(item: Item, afterText: bool) {
    match item
    case TextItem(raw) => !afterText && '<' !in raw && !Spaces(raw)
    case EmptyItem(gap, tag) => GapOk(gap, afterText) && TagOk(tag)
    case FullItem(gap, tag, items, close) =>
      && GapOk(gap, afterText) && TagOk(tag) && !tag.slash && ItemsOk(items, false)
      && CloseOk(close, EndsInText(items, false)) && close.tag.name == tag.name
  }

  predicate ItemsOk(items: seq<Item>, afterText: bool) {
    items != [] ==> ItemOk(items[0], afterText) && ItemsOk(items[1..], items[0].TextItem?)
  }

  function EndsInText(items: seq<Item>, afterText: bool): bool {
    if items == [] then afterText else items[|items| - 1].TextItem?
  }

  // ----- the trees they stand for -----

  function TreeOf(item: Item): Node {
    match item
    case TextItem(raw) => Text(Decode(raw))
    case EmptyItem(_, tag) => Element(tag.name, AttributesOf(tag.attrs), [])
    case FullItem(_, tag, items, _) => Element(tag.name, AttributesOf(tag.attrs), TreesOf(items))
  }

  function TreesOf(items: seq<Item>): seq<Node> {
    if items == [] then [] else [TreeOf(items[0])] + TreesOf(items[1..])
  }

  // ----- white space and names -----

  lemma NoSpaceToSkip(s: seq<Char>)
    requires s != [] ==> !IsSpace(s[0])
    ensures SkipSpace(s) == s
  {
  }

  lemma {:induction false} SpacesSkipped(gap: seq<Char>, s: seq<Char>)
    requires Spaces(gap) && (s != [] ==> !IsSpace(s[0]))
    ensures SkipSpace(gap + s) == s
  {
    hide IsSpace;
    if gap == [] {
      assert gap + s == s;
      NoSpaceToSkip(s);
    } else {
      SpacesSkipped(gap[1..], s);
      assert (gap + s)[1..] == gap[1..] + s;
    }
  }

  lemma {:induction false} SpacesThere(s: seq<Char>) returns (gap: seq<Char>)
    ensures s == gap + SkipSpace(s) && Spaces(gap)
  {
    hide IsSpace;
    if s == [] || !IsSpace(s[0]) {
      gap := [];
    } else {
      gap := SpacesThere(s[1..]);
      gap := [s[0]] + gap;
    }
  }

  lemma {:induction false} NameParsed(name: seq<Char>, next: seq<Char>)
    requires (forall i :: 0 <= i < |name| ==> IsNameChar(name[i])) && (next != [] ==> !IsNameChar(next[0]))
    ensures NameChars(name + next) == Read(name, next)
  {
    hide IsNameChar, NameChars;
    if name == [] {
      assert name + next == next;
      NoNameChars(next);
    } else {
      NameParsed(name[1..], next);
      var s := name + next;
      assert s[0] == name[0] && s[1..] == name[1..] + next;
      NextNameChar(s);
      assert [name[0]] + name[1..] == name;
    }
  }

  lemma NoNameChars(s: seq<Char>)
    requires s != [] ==> !IsNameChar(s[0])
    ensures NameChars(s) == Read([], s)
  {
  }

  lemma NextNameChar(s: seq<Char>)
    requires s != [] && IsNameChar(s[0])
    ensures NameChars(s) == Read([s[0]] + NameChars(s[1..]).part, NameChars(s[1..]).rest)
  {
  }

  lemma {:induction false} NameThere(s: seq<Char>)
    ensures var r := NameChars(s); forall i :: 0 <= i < |r.part| ==> IsNameChar(r.part[i])
  {
    hide IsNameChar;
    if s != [] && IsNameChar(s[0]) {
      NameThere(s[1..]);
      var r := NameChars(s);
      forall i | 0 <= i < |r.part| ensures IsNameChar(r.part[i]) { if i > 0 { assert r.part[i] == NameChars(s[1..]).part[i - 1]; } }
    }
  }

  lemma NameIsValid(s: seq<Char>)
    requires ParseName(s).Some?
    ensures ValidName(ParseName(s).value.part) && s == ParseName(s).value.part + ParseName(s).value.rest
  {
    hide IsNameChar, IsNameStart;
    NameThere(s);
    var part := ParseName(s).value.part;
    assert ParseName(s) == Some(NameChars(s));
    assert part[0] == s[0];
  }

  lemma UntilParsed(part: seq<Char>, c: Char, next: seq<Char>)
    requires c !in part
    ensures ParseUntil(part + [c] + next, c) == Some(Read(part, next))
  {
    Found(part, c, next, 0);
    var s := part + [c] + next;
    assert s[..|part|] == part && s[|part| + 1..] == next;
  }

  lemma {:induction false} FoundFirst(s: seq<Char>, c: Char, i: nat)
    requires i <= |s| && Find(s, c, i).Some?
    ensures i <= Find(s, c, i).value < |s| && forall j :: i <= j < Find(s, c, i).value ==> s[j] != c
    decreases |s| - i
  {
    if s[i] != c { FoundFirst(s, c, i + 1); }
  }

  lemma UntilThere(s: seq<Char>, c: Char)
    requires ParseUntil(s, c).Some?
    ensures var r := ParseUntil(s, c).value; c !in r.part && s == r.part + [c] + r.rest
  {
    FoundFirst(s, c, 0);
  }

  lemma Separators()
    ensures !IsNameChar('=') && !IsNameChar(' ') && !IsNameChar('>') && !IsNameChar('/') && !IsNameChar('"') && !IsNameChar('\'')
    ensures !IsSpace('=') && !IsSpace('<') && !IsSpace('>') && !IsSpace('/') && !IsSpace('"') && !IsSpace('\'')
  {
  }

  lemma NameIsNoSpace(c: Char)
    ensures IsNameStart(c) ==> !IsSpace(c) && c != '>' && c != '/' && c != '=' && c != '<' && c != '?' && c != '!'
    ensures IsNameChar(c) ==> !IsSpace(c) && c != '>' && c != '/' && c != '='
    ensures IsNameStart(c) ==> IsNameChar(c)
  {
  }

  // ----- attributes -----

  function AttributeOf(a: Attr): Attribute { Attribute(a.name, Decode(a.raw)) }

  // An attribute is read from its name on.
  lemma AttrParsed(a: Attr, next: seq<Char>)
    requires AttrOk(a)
    ensures var s := AttrText(a.(before := []), next);
      s != [] && IsNameStart(s[0]) && ParseAttribute(s) == Some(AttributeRead(AttributeOf(a), next))
  {
    hide Decode, IsNameChar, IsNameStart, IsSpace;
    var u := [a.quote] + (a.raw + [a.quote] + next);
    var t := ['='] + (a.space + u);
    var s := AttrText(a.(before := []), next);
    assert s == a.name + (a.gap + t);
    Separators();
    GapEndsName(a.gap, t);
    NameParsed(a.name, a.gap + t);
    SpacesSkipped(a.gap, t);
    assert t[1..] == a.space + u;
    SpacesSkipped(a.space, u);
    assert u[1..] == a.raw + [a.quote] + next;
    UntilParsed(a.raw, a.quote, next);
  }

  lemma GapEndsName(gap: seq<Char>, next: seq<Char>)
    requires Spaces(gap) && (next != [] ==> !IsNameChar(next[0]))
    ensures gap + next != [] ==> !IsNameChar((gap + next)[0])
  {
    if gap != [] { NameIsNoSpace(gap[0]); }
  }

  lemma AttrThere(s: seq<Char>) returns (a: Attr)
    requires ParseAttribute(s).Some?
    ensures var r := ParseAttribute(s).value; AttrOk(a) && a.before == [] && s == AttrText(a, r.rest) && AttributeOf(a) == r.attribute
  {
    hide Decode, IsNameChar, IsNameStart, IsSpace, SkipSpace, NameChars;
    NameIsValid(s);
    var name := ParseName(s).value;
    var gap := SpacesThere(name.rest);
    var t := SkipSpace(name.rest);
    var space := SpacesThere(t[1..]);
    var u := SkipSpace(t[1..]);
    UntilThere(u[1..], u[0]);
    var value := ParseUntil(u[1..], u[0]).value;
    a := Attr([], name.part, gap, space, u[0], value.part);
    assert t == ['='] + t[1..] && u == [u[0]] + u[1..];
    assert a.raw + [a.quote] + value.rest == u[1..];
  }

  // ----- the attributes of a tag -----

  lemma {:induction false} NamesOfAttributes(attrs: seq<Attr>)
    ensures forall i :: 0 <= i < |attrs| ==> AttributesOf(attrs)[i] == AttributeOf(attrs[i])
  {
    hide Decode;
    if attrs != [] {
      NamesOfAttributes(attrs[1..]);
      forall i | 0 <= i < |attrs| ensures AttributesOf(attrs)[i] == AttributeOf(attrs[i]) { if i > 0 { assert attrs[1..][i - 1] == attrs[i]; } }
    }
  }

  // What ends a tag.
  predicate TagEnd(next: seq<Char>, closed: bool, rest: seq<Char>) { next == (if closed then "/>" else ">") + rest }

  lemma {:induction false} AttrsParsed(attrs: seq<Attr>, seen: seq<Attribute>, trail: seq<Char>, next: seq<Char>, closed: bool, rest: seq<Char>)
    requires forall i :: 0 <= i < |attrs| ==> AttrOk(attrs[i])
    requires Unique(seen + AttributesOf(attrs)) && Spaces(trail) && TagEnd(next, closed, rest)
    ensures ParseAttributes(AttrsText(attrs, trail + next), seen) == Some(TagRead(seen + AttributesOf(attrs), closed, rest))
    decreases |attrs|
  {
    hide ParseAttribute, IsSpace, Spaces, AttrOk, AttrText, Decode, IsNameStart;
    Separators();
    if attrs == [] {
      assert next[0] == '>' || next[0] == '/';
      SpacesSkipped(trail, next);
      NameIsNoSpace(next[0]);
      assert if closed then next[2..] == rest else next[1..] == rest;
      assert seen + [] == seen;
    } else {
      var a, more := attrs[0], AttrsText(attrs[1..], trail + next);
      AttrParsed(a, more);
      AttrStart(a, more);
      var all := seen + AttributesOf(attrs);
      assert all == (seen + [AttributeOf(a)]) + AttributesOf(attrs[1..]);
      FreshName(seen, AttributeOf(a), AttributesOf(attrs[1..]));
      AttrsParsed(attrs[1..], seen + [AttributeOf(a)], trail, next, closed, rest);
    }
  }

  lemma AttrStart(a: Attr, next: seq<Char>)
    requires AttrOk(a) && AttrText(a.(before := []), next) != [] && IsNameStart(AttrText(a.(before := []), next)[0])
    ensures SkipSpace(AttrText(a, next)) == AttrText(a.(before := []), next)
  {
    hide IsNameStart, IsSpace;
    var s := AttrText(a.(before := []), next);
    NameIsNoSpace(s[0]);
    SpacesSkipped(a.before, s);
    assert AttrText(a, next) == a.before + s;
  }

  lemma FreshName(seen: seq<Attribute>, a: Attribute, more: seq<Attribute>)
    requires Unique((seen + [a]) + more)
    ensures !HasName(seen, a.name)
  {
    var all := (seen + [a]) + more;
    assert all[|seen|] == a;
    forall i | 0 <= i < |seen| ensures seen[i].name != a.name { assert all[i] == seen[i]; }
  }

  lemma {:induction false} AttrsThere(s: seq<Char>, seen: seq<Attribute>) returns (attrs: seq<Attr>, trail: seq<Char>, next: seq<Char>)
    requires ParseAttributes(s, seen).Some? && Unique(seen)
    ensures var r := ParseAttributes(s, seen).value;
      && (forall i :: 0 <= i < |attrs| ==> AttrOk(attrs[i])) && Spaces(trail) && TagEnd(next, r.closed, r.rest)
      && s == AttrsText(attrs, trail + next) && r.attributes == seen + AttributesOf(attrs) && Unique(r.attributes)
    decreases |s|
  {
    hide ParseAttribute, IsSpace, Spaces, AttrOk, AttrText, Decode, IsNameStart, SkipSpace;
    var t := SkipSpace(s);
    var gap := SpacesThere(s);
    if IsNameStart(t[0]) {
      var a := AttrThere(t);
      var r := ParseAttribute(t).value;
      StillUnique(seen, r.attribute);
      attrs, trail, next := AttrsThere(r.rest, seen + [r.attribute]);
      var b := a.(before := gap);
      AttrBefore(a, gap, r.rest);
      assert seen + [r.attribute] + AttributesOf(attrs) == seen + ([r.attribute] + AttributesOf(attrs));
      attrs := [b] + attrs;
    } else {
      attrs, trail, next := [], gap, t;
      assert seen + [] == seen;
    }
  }

  lemma AttrBefore(a: Attr, gap: seq<Char>, next: seq<Char>)
    requires AttrOk(a) && a.before == [] && Spaces(gap)
    ensures AttrOk(a.(before := gap)) && AttrText(a.(before := gap), next) == gap + AttrText(a, next) && AttributeOf(a.(before := gap)) == AttributeOf(a)
  {
    hide IsSpace, IsNameStart, IsNameChar, Decode;
  }

  lemma StillUnique(seen: seq<Attribute>, a: Attribute)
    requires Unique(seen) && !HasName(seen, a.name)
    ensures Unique(seen + [a])
  {
  }

  // ----- tags -----

  // A tag from its slash or its name on.
  function NameOn(t: Tag, next: seq<Char>): seq<Char> { t.name + AttrsText(t.attrs, t.trail + next) }

  lemma TagParsed(t: Tag, next: seq<Char>, closed: bool, rest: seq<Char>)
    requires TagOk(t) && TagEnd(next, closed, rest)
    ensures var s, u := TagText(t, next), NameOn(t, next);
      && SkipSpace(s) == (if t.slash then ['/'] else []) + u && u != [] && u[0] != '/'
      && ParseName(u) == Some(Read(t.name, AttrsText(t.attrs, t.trail + next)))
      && ParseAttributes(AttrsText(t.attrs, t.trail + next), []) == Some(TagRead(AttributesOf(t.attrs), closed, rest))
      && s != [] && s[0] != '?' && s[0] != '!'
  {
    hide ParseAttributes, AttrsText, IsNameStart, IsNameChar, IsSpace, AttributesOf, Unique;
    var more := AttrsText(t.attrs, t.trail + next);
    var u := t.name + more;
    Separators();
    NameIsNoSpace(t.name[0]);
    TagGoesOn(t, next);
    NameParsed(t.name, more);
    assert [] + AttributesOf(t.attrs) == AttributesOf(t.attrs);
    AttrsParsed(t.attrs, [], t.trail, next, closed, rest);
    var v := (if t.slash then ['/'] else []) + u;
    assert v[0] == if t.slash then '/' else t.name[0];
    SpacesSkipped(t.lead, v);
    SpaceIsNoMark();
    assert u[0] == t.name[0];
    assert TagText(t, next) == t.lead + v;
  }

  lemma SpaceIsNoMark()
    ensures !IsSpace('?') && !IsSpace('!')
  {
  }

  // What follows the name of a tag is no part of it.
  lemma TagGoesOn(t: Tag, next: seq<Char>)
    requires TagOk(t) && next != [] && (next[0] == '>' || next[0] == '/')
    ensures var more := AttrsText(t.attrs, t.trail + next); more != [] && !IsNameChar(more[0])
  {
    hide IsNameStart, IsNameChar, IsSpace, AttributesOf, Unique, AttrsText;
    Separators();
    if t.attrs == [] {
      NoAttrs(t.trail + next);
      GapEndsName(t.trail, next);
    } else {
      var a := t.attrs[0];
      FirstAttr(t.attrs, t.trail + next);
      NameIsNoSpace(a.before[0]);
    }
  }

  lemma NoAttrs(next: seq<Char>)
    ensures AttrsText([], next) == next
  {
  }

  lemma FirstAttr(attrs: seq<Attr>, next: seq<Char>)
    requires attrs != [] && attrs[0].before != []
    ensures var s := AttrsText(attrs, next); s != [] && s[0] == attrs[0].before[0]
  {
  }

  lemma TagThere(s: seq<Char>) returns (t: Tag, next: seq<Char>)
    requires var u := SkipSpace(s);
      var v := if u != [] && u[0] == '/' then u[1..] else u;
      ParseName(v).Some? && ParseAttributes(ParseName(v).value.rest, []).Some?
    ensures var u := SkipSpace(s);
      var v := if u != [] && u[0] == '/' then u[1..] else u;
      var r := ParseAttributes(ParseName(v).value.rest, []).value;
      && TagOk(t) && t.slash == (u != [] && u[0] == '/') && t.name == ParseName(v).value.part && AttributesOf(t.attrs) == r.attributes
      && TagEnd(next, r.closed, r.rest) && s == TagText(t, next)
  {
    hide ParseAttributes, IsNameStart, IsNameChar, IsSpace, SkipSpace, ParseName, AttrText;
    var lead := SpacesThere(s);
    var u := SkipSpace(s);
    var slash := u != [] && u[0] == '/';
    var v := if slash then u[1..] else u;
    NameIsValid(v);
    NameEnds(v);
    var name := ParseName(v).value;
    var attrs, trail;
    attrs, trail, next := AttrsThere(name.rest, []);
    t := Tag(lead, slash, name.part, attrs, trail);
    var r := ParseAttributes(name.rest, []).value;
    assert [] + AttributesOf(attrs) == AttributesOf(attrs);
    if attrs != [] && attrs[0].before == [] { AttrStartsName(attrs, trail + next); }
    assert u == (if slash then ['/'] else []) + v;
  }

  lemma NameEnds(s: seq<Char>)
    requires ParseName(s).Some?
    ensures var rest := ParseName(s).value.rest; rest != [] ==> !IsNameChar(rest[0])
  {
    hide IsNameChar, IsNameStart;
  }

  lemma AttrStartsName(attrs: seq<Attr>, next: seq<Char>)
    requires attrs != [] && AttrOk(attrs[0]) && attrs[0].before == []
    ensures var s := AttrsText(attrs, next); s != [] && IsNameChar(s[0])
  {
    hide IsNameChar, IsNameStart;
    assert AttrsText(attrs, next)[0] == attrs[0].name[0];
  }

  // ----- what follows the children -----

  // The end of the document, or the closing tag of the parent.
  datatype Tail = TheEnd(trail: seq<Char>) | Closed(close: Close, rest: seq<Char>)

  function TailText(t: Tail): seq<Char> {
    match t
    case TheEnd(trail) => trail
    case Closed(close, rest) => CloseText(close, rest)
  }

  predicate TailOk(t: Tail, afterText: bool) {
    match t
    case TheEnd(trail) => Spaces(trail) && !afterText
    case Closed(close, _) => CloseOk(close, afterText)
  }

  function EndOf(t: Tail): Option<End> {
    match t
    case TheEnd(_) => None
    case Closed(close, rest) => Some(End(close.tag.name, rest))
  }

  // ----- the parser reads what is proper -----

  // A tag at the start of the children.
  lemma BracketRead(gap: seq<Char>, u: seq<Char>)
    requires Spaces(gap) && u != [] && u[0] != '?' && u[0] != '!'
    ensures ParseChildren(gap + (['<'] + u)) ==
      match ParseElement(u) { case Bad => BAD case Closing(end) => Children([], Some(end), true) case Whole(node, rest) => Prepend(node, ParseChildren(rest)) }
  {
    hide ParseElement, ParseUntil, IsSpace;
    Separators();
    var t := ['<'] + u;
    SpacesSkipped(gap, t);
    assert t[1..] == u;
  }

  lemma TextRead(raw: seq<Char>, after: seq<Char>)
    requires '<' !in raw && !Spaces(raw) && after != []
    ensures ParseChildren(raw + (['<'] + after)) == Prepend(Text(Decode(raw)), ParseChildren(['<'] + after))
  {
    hide Decode, SkipSpace, IsSpace;
    InkFound(raw, ['<'] + after);
    assert raw + (['<'] + after) == raw + ['<'] + after;
    UntilParsed(raw, '<', after);
  }

  lemma {:induction false} InkFound(x: seq<Char>, y: seq<Char>)
    requires '<' !in x && !Spaces(x)
    ensures SkipSpace(x + y) != [] && SkipSpace(x + y)[0] != '<'
  {
    hide IsSpace;
    assert x[0] in x;
    if IsSpace(x[0]) {
      var i :| 0 <= i < |x| && !IsSpace(x[i]);
      assert x[1..][i - 1] == x[i];
      InkFound(x[1..], y);
      assert (x + y)[1..] == x[1..] + y;
    }
  }

  lemma CloseRead(c: Close, rest: seq<Char>)
    requires TagOk(c.tag) && c.tag.slash && Spaces(c.gap)
    ensures ParseChildren(CloseText(c, rest)) == Children([], Some(End(c.tag.name, rest)), true)
  {
    hide ParseAttributes, ParseName, ParseChildren, AttrsText, TagOk, TagText;
    var next := ['>'] + rest;
    var s := TagText(c.tag, next);
    TagParsed(c.tag, next, false, rest);
    var u := NameOn(c.tag, next);
    assert (['/'] + u)[1..] == u;
    BracketRead(c.gap, s);
  }

  lemma EmptyRead(gap: seq<Char>, t: Tag, next: seq<Char>)
    requires TagOk(t) && Spaces(gap)
    ensures ParseChildren(gap + (['<'] + TagText(t, "/>" + next))) == Prepend(Element(t.name, AttributesOf(t.attrs), []), ParseChildren(next))
  {
    hide ParseAttributes, ParseName, ParseChildren, AttrsText, TagOk, TagText;
    var s := TagText(t, "/>" + next);
    TagParsed(t, "/>" + next, true, next);
    var u := NameOn(t, "/>" + next);
    assert (['/'] + u)[1..] == u && [] + u == u;
    BracketRead(gap, s);
  }

  // An element, once its children are read up to its closing tag.
  lemma FullRead(gap: seq<Char>, t: Tag, inside: seq<Char>, nodes: seq<Node>, rest: seq<Char>)
    requires TagOk(t) && !t.slash && Spaces(gap) && ParseChildren(inside) == Children(nodes, Some(End(t.name, rest)), true)
    ensures ParseChildren(gap + (['<'] + TagText(t, ['>'] + inside))) == Prepend(Element(t.name, AttributesOf(t.attrs), nodes), ParseChildren(rest))
  {
    hide ParseAttributes, ParseName, ParseChildren, AttrsText, TagOk, TagText;
    var s := TagText(t, ['>'] + inside);
    TagParsed(t, ['>'] + inside, false, inside);
    assert [] + NameOn(t, ['>'] + inside) == NameOn(t, ['>'] + inside);
    BracketRead(gap, s);
  }

  // What follows a text begins with a tag.
  lemma Bracket(items: seq<Item>, t: Tail)
    requires ItemsOk(items, true) && TailOk(t, EndsInText(items, true))
    ensures var s := ItemsText(items, TailText(t)); |s| > 1 && s[0] == '<'
  {
    hide TagOk, TagText, ItemsOk;
    if items != [] {
      FirstOk(items, true);
      BracketFirst(items[0], ItemsText(items[1..], TailText(t)));
    } else {
      TagIsNotEmpty(t.close.tag, ['>'] + t.rest);
    }
  }

  lemma BracketFirst(item: Item, next: seq<Char>)
    requires ItemOk(item, true)
    ensures var s := ItemText(item, next); |s| > 1 && s[0] == '<'
  {
    hide TagOk, TagText, ItemsOk, ItemsText, CloseText;
    match item {
      case EmptyItem(gap, tag) => TagIsNotEmpty(tag, "/>" + next);
      case FullItem(gap, tag, items, close) => TagIsNotEmpty(tag, ['>'] + ItemsText(items, CloseText(close, next)));
    }
  }

  lemma TagIsNotEmpty(t: Tag, next: seq<Char>)
    requires TagOk(t)
    ensures TagText(t, next) != []
  {
    hide AttrsText, IsNameStart, IsNameChar;
  }

  lemma FirstOk(items: seq<Item>, afterText: bool)
    requires ItemsOk(items, afterText) && items != []
    ensures ItemOk(items[0], afterText) && ItemsOk(items[1..], items[0].TextItem?)
  {
  }

  lemma EndsAlike(items: seq<Item>, afterText: bool)
    requires items != []
    ensures EndsInText(items, afterText) == EndsInText(items[1..], items[0].TextItem?)
  {
  }

  // Every proper list of items, whatever follows it, is read as its trees.
  lemma {:induction false} ItemsParsed(items: seq<Item>, afterText: bool, t: Tail)
    requires ItemsOk(items, afterText) && TailOk(t, EndsInText(items, afterText))
    ensures ParseChildren(ItemsText(items, TailText(t))) == Children(TreesOf(items), EndOf(t), true)
    decreases items, 1
  {
    hide ParseChildren, ItemText, TreeOf, CloseText, TagOk, ItemOk;
    if items == [] {
      TailParsed(t, afterText);
    } else {
      FirstOk(items, afterText);
      EndsAlike(items, afterText);
      ItemsParsed(items[1..], items[0].TextItem?, t);
      ItemParsed(items[0], afterText, ItemsText(items[1..], TailText(t))) by {
        if items[0].TextItem? { Bracket(items[1..], t); }
      }
    }
  }

  lemma TailParsed(t: Tail, afterText: bool)
    requires TailOk(t, afterText)
    ensures ParseChildren(TailText(t)) == Children([], EndOf(t), true)
  {
    hide ParseElement, ParseUntil, CloseText, TagOk, IsSpace;
    match t
    case TheEnd(trail) =>
      SpacesSkipped(trail, []);
      assert trail + [] == trail;
    case Closed(close, rest) => CloseRead(close, rest);
  }

  lemma {:induction false} ItemParsed(item: Item, afterText: bool, next: seq<Char>)
    requires ItemOk(item, afterText) && (item.TextItem? ==> |next| > 1 && next[0] == '<')
    ensures ParseChildren(ItemText(item, next)) == Prepend(TreeOf(item), ParseChildren(next))
    decreases item, 0
  {
    hide ParseChildren, ItemsText, TreesOf, TagOk, TagText, CloseText, ItemsOk;
    match item {
      case TextItem(raw) =>
        TextRead(raw, next[1..]);
        assert next == ['<'] + next[1..];
      case EmptyItem(gap, tag) => EmptyRead(gap, tag, next);
      case FullItem(gap, tag, items, close) =>
        ItemsParsed(items, false, Closed(close, next));
        FullRead(gap, tag, ItemsText(items, CloseText(close, next)), TreesOf(items), next);
    }
  }

  // ----- what the parser reads is proper -----

  // Some input of the parser as a list of items and what follows them.
  lemma {:induction false} ChildrenThere(s: seq<Char>, afterText: bool) returns (items: seq<Item>, t: Tail)
    requires ParseChildren(s).ok && (afterText ==> s != [] && s[0] == '<')
    ensures ItemsOk(items, afterText) && TailOk(t, EndsInText(items, afterText)) && s == ItemsText(items, TailText(t))
    ensures ParseChildren(s) == Children(TreesOf(items), EndOf(t), true)
    decreases |s|, 1
  {
    hide ParseElement, ItemText, TreeOf, TagOk, ItemOk, SkipSpace, ParseUntil, CloseText, IsSpace;
    var gap := SpacesThere(s);
    var u := SkipSpace(s);
    Separators();
    if afterText { NoSpaceToSkip(s); assert gap == []; }
    if u == [] {
      items, t := [], TheEnd(s);
      assert s == gap;
    } else if u[0] != '<' {
      var text := ParseUntil(s, '<').value;
      UntilThere(s, '<');
      TextIsNotEmpty(s);
      var after := ['<'] + text.rest;
      InkThere(s, text.part, after);
      items, t := ChildrenThere(after, true);
      TextItemThere(text.part, after);
      assert s == text.part + after;
      MoreItems(TextItem(text.part), false, items, t);
      items := [TextItem(text.part)] + items;
    } else {
      var item, close := ElementThere(u[1..]);
      assert u == ['<'] + u[1..];
      match ParseElement(u[1..]) {
        case Closing(end) =>
          CloseWithGap(close, gap, end.rest);
          items, t := [], Closed(close.(gap := gap), end.rest);
        case Whole(node, rest) =>
          ItemWithGap(item, gap, rest);
          item := WithGap(item, gap);
          items, t := ChildrenThere(rest, false);
          MoreItems(item, afterText, items, t);
          items := [item] + items;
      }
    }
  }

  lemma InkThere(s: seq<Char>, part: seq<Char>, after: seq<Char>)
    requires s == part + after && after != [] && after[0] == '<' && SkipSpace(s) != [] && SkipSpace(s)[0] != '<'
    ensures !Spaces(part)
  {
    hide IsSpace, SkipSpace;
    Separators();
    if Spaces(part) { SpacesSkipped(part, after); }
  }

  lemma TextItemThere(raw: seq<Char>, next: seq<Char>)
    requires '<' !in raw && !Spaces(raw)
    ensures ItemOk(TextItem(raw), false) && ItemText(TextItem(raw), next) == raw + next && TreeOf(TextItem(raw)) == Text(Decode(raw))
  {
  }

  lemma MoreItems(item: Item, afterText: bool, items: seq<Item>, t: Tail)
    requires ItemOk(item, afterText) && ItemsOk(items, item.TextItem?)
    ensures var all := [item] + items;
      && ItemsOk(all, afterText) && EndsInText(all, afterText) == EndsInText(items, item.TextItem?)
      && ItemsText(all, TailText(t)) == ItemText(item, ItemsText(items, TailText(t))) && TreesOf(all) == [TreeOf(item)] + TreesOf(items)
  {
    hide ItemOk, ItemText, TreeOf;
    var all := [item] + items;
    assert all[1..] == items;
  }

  function WithGap(item: Item, gap: seq<Char>): Item
    requires !item.TextItem?
  {
    match item
    case EmptyItem(_, tag) => EmptyItem(gap, tag)
    case FullItem(_, tag, items, close) => FullItem(gap, tag, items, close)
  }

  lemma ItemWithGap(item: Item, gap: seq<Char>, next: seq<Char>)
    requires !item.TextItem? && ItemOk(item, true) && Spaces(gap)
    ensures var x := WithGap(item, gap);
      ItemOk(x, gap == []) && ItemOk(x, false) && !x.TextItem? && ItemText(x, next) == gap + ItemText(item, next) && TreeOf(x) == TreeOf(item)
  {
    hide TagOk, ItemsOk, TagText, CloseText, ItemsText, TreesOf;
    match item {
      case EmptyItem(none, tag) => assert none + (['<'] + TagText(tag, "/>" + next)) == ['<'] + TagText(tag, "/>" + next);
      case FullItem(none, tag, items, close) =>
        var inside := TagText(tag, ['>'] + ItemsText(items, CloseText(close, next)));
        assert none + (['<'] + inside) == ['<'] + inside;
    }
  }

  lemma CloseWithGap(c: Close, gap: seq<Char>, next: seq<Char>)
    requires CloseOk(c, true) && Spaces(gap)
    ensures CloseOk(c.(gap := gap), gap == []) && CloseOk(c.(gap := gap), false) && CloseText(c.(gap := gap), next) == gap + CloseText(c, next)
  {
    hide TagOk, TagText;
    var inside := ['<'] + TagText(c.tag, ['>'] + next);
    assert c.gap + inside == inside;
  }

  const NO_ITEM := TextItem([])
  const NO_CLOSE := Close([], Tag([], false, [], [], []))

  // An element or a closing tag, from behind its bracket.
  lemma {:induction false} ElementThere(s: seq<Char>) returns (item: Item, close: Close)
    requires !ParseElement(s).Bad?
    ensures ParseElement(s).Whole? ==> var r := ParseElement(s);
      !item.TextItem? && ItemOk(item, true) && ['<'] + s == ItemText(item, r.rest) && TreeOf(item) == r.node
    ensures ParseElement(s).Closing? ==> var end := ParseElement(s).end;
      CloseOk(close, true) && ['<'] + s == CloseText(close, end.rest) && close.tag.name == end.name
    decreases |s|, 0
  {
    hide ParseAttributes, ParseName, ParseChildren, TagOk, SkipSpace, TagText, ItemsText, TreesOf, ItemsOk, AttributesOf, IsSpace;
    var tag, next := TagThere(s);
    var u := SkipSpace(s);
    var name := ParseName(if tag.slash then u[1..] else u).value;
    var r := ParseAttributes(name.rest, []).value;
    assert [] + (['<'] + s) == ['<'] + s;
    item, close := NO_ITEM, NO_CLOSE;
    if r.closed {
      item := EmptyItem([], tag);
    } else if tag.slash {
      close := Close([], tag);
    } else {
      var items, t := ChildrenThere(r.rest, false);
      item := FullItem([], tag, items, t.close);
    }
  }

  // ----- documents -----

  // White space, perhaps a byte order mark, items, and what ends them: nothing,
  // or a closing tag with anything behind it.
  datatype Document = Document(lead: seq<Char>, marked: bool, items: seq<Item>, tail: Tail)

  const MARK: seq<Char> := [0xEF as char, 0xBB as char, 0xBF as char]

  function Inside(d: Document): seq<Char> { ItemsText(d.items, TailText(d.tail)) }

  function DocumentText(d: Document): seq<Char> { d.lead + ((if d.marked then MARK else []) + Inside(d)) }

  predicate Marked(s: seq<Char>) { |s| >= 3 && s[..3] == MARK }

  // Without a mark, leading white space is part of no text.
  predicate DocumentOk(d: Document) {
    && Spaces(d.lead) && ItemsOk(d.items, false) && TailOk(d.tail, EndsInText(d.items, false)) && Inside(d) != []
    && (!d.marked ==> !IsSpace(Inside(d)[0]) && !Marked(Inside(d)))
  }

  ghost predicate IsDocument(d: Document, s: seq<Char>, nodes: seq<Node>) {
    DocumentOk(d) && DocumentText(d) == s && TreesOf(d.items) == nodes
  }

  // The parser accepts exactly the proper documents, as exactly the trees they
  // stand for.
  lemma ParsedExactly(s: seq<Char>, nodes: seq<Node>)
    ensures ParseDocument(s) == Some(nodes) <==> exists d :: IsDocument(d, s, nodes)
  {
    hide ParseDocument, DocumentOk, DocumentText;
    if ParseDocument(s) == Some(nodes) {
      var d := DocumentThere(s);
      assert IsDocument(d, s, nodes);
    }
    if d :| IsDocument(d, s, nodes) { DocumentParsed(d); }
  }

  lemma DocumentParsed(d: Document)
    requires DocumentOk(d)
    ensures ParseDocument(DocumentText(d)) == Some(TreesOf(d.items))
  {
    hide ParseChildren, ItemsText, TailText, TreesOf, ItemsOk, TailOk, SkipSpace, IsSpace;
    var u := (if d.marked then MARK else []) + Inside(d);
    MarkIsNoSpace();
    assert d.marked ==> u[0] == MARK[0] && u[..3] == MARK && u[3..] == Inside(d);
    assert !d.marked ==> u == Inside(d);
    SpacesSkipped(d.lead, u);
    MarkedMeans(u);
    ItemsParsed(d.items, false, d.tail);
  }

  lemma MarkIsNoSpace()
    ensures !IsSpace(MARK[0])
  {
  }

  lemma MarkedMeans(s: seq<Char>)
    ensures Marked(s) <==> |s| >= 3 && s[0] as int == 0xEF && s[1] as int == 0xBB && s[2] as int == 0xBF
  {
  }

  lemma DocumentThere(s: seq<Char>) returns (d: Document)
    requires ParseDocument(s).Some?
    ensures IsDocument(d, s, ParseDocument(s).value)
  {
    hide ParseChildren, ItemsText, TailText, TreesOf, ItemsOk, TailOk, SkipSpace, IsSpace;
    var lead := SpacesThere(s);
    var t := SkipSpace(s);
    MarkedMeans(t);
    var u := if Marked(t) then t[3..] else t;
    var items, tail := ChildrenThere(u, false);
    d := Document(lead, Marked(t), items, tail);
    assert t == (if Marked(t) then MARK else []) + u;
  }

  // ----- what is refused -----

  // An element whose closing tag has another name is an error, whatever is
  // inside.
  lemma MismatchRefused(gap: seq<Char>, t: Tag, items: seq<Item>, close: Close, rest: seq<Char>)
    requires Spaces(gap) && TagOk(t) && !t.slash && ItemsOk(items, false) && CloseOk(close, EndsInText(items, false))
    requires close.tag.name != t.name
    ensures ParseChildren(gap + (['<'] + TagText(t, ['>'] + ItemsText(items, CloseText(close, rest))))) == BAD
  {
    hide ParseAttributes, ParseName, ParseChildren, AttrsText, TagOk, TagText, ItemsText, CloseText, ItemsOk;
    var inside := ItemsText(items, CloseText(close, rest));
    ItemsParsed(items, false, Closed(close, rest));
    TagParsed(t, ['>'] + inside, false, inside);
    assert [] + NameOn(t, ['>'] + inside) == NameOn(t, ['>'] + inside);
    BracketRead(gap, TagText(t, ['>'] + inside));
  }

  // An attribute that repeats a name is an error, whatever comes after it.
  lemma {:induction false} RepetitionRefused(attrs: seq<Attr>, seen: seq<Attribute>, a: Attr, rest: seq<Char>)
    requires (forall i :: 0 <= i < |attrs| ==> AttrOk(attrs[i])) && AttrOk(a) && Unique(seen + AttributesOf(attrs))
    requires HasName(seen + AttributesOf(attrs), a.name)
    ensures ParseAttributes(AttrsText(attrs, AttrText(a, rest)), seen) == None
    decreases |attrs|
  {
    hide ParseAttribute, IsSpace, Spaces, AttrOk, AttrText, Decode, IsNameStart;
    if attrs == [] {
      assert seen + [] == seen;
      AttrParsed(a, rest);
      AttrStart(a, rest);
    } else {
      var b, more := attrs[0], AttrsText(attrs[1..], AttrText(a, rest));
      AttrParsed(b, more);
      AttrStart(b, more);
      var all := seen + AttributesOf(attrs);
      assert all == (seen + [AttributeOf(b)]) + AttributesOf(attrs[1..]);
      FreshName(seen, AttributeOf(b), AttributesOf(attrs[1..]));
      RepetitionRefused(attrs[1..], seen + [AttributeOf(b)], a, rest);
    }
  }
}
