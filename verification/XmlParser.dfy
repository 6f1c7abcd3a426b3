// The recursive parser of XML elements and text. Its input is what is left of
// the buffer; a NUL ends the buffer, so none is in it.
module XmlParser {
  import opened Options
  import opened XmlText

  datatype Attribute = Attribute(name: seq<Char>, value: seq<Char>)

  datatype Node = Text(value: seq<Char>) | Element(name: seq<Char>, attributes: seq<Attribute>, children: seq<Node>)

  predicate IsNameStart(c: Char) {
    c as int >= 128 || 'a' <= c <= 'z' || 'A' <= c <= 'Z' || c == ':' || c == '_'
  }

  predicate IsNameChar(c: Char) { IsNameStart(c) || '0' <= c <= '9' || c == '.' || c == '-' }

  function SkipSpace(s: seq<Char>): (r: seq<Char>)
    ensures |r| <= |s| && (r != [] ==> !IsSpace(r[0]))
  {
    if s == [] || !IsSpace(s[0]) then s else SkipSpace(s[1..])
  }

  // A part of the input and what follows it.
  datatype Read = Read(part: seq<Char>, rest: seq<Char>)

  function NameChars(s: seq<Char>): (r: Read)
    ensures r.part + r.rest == s && (r.rest != [] ==> !IsNameChar(r.rest[0]))
  {
    if s == [] || !IsNameChar(s[0]) then Read([], s)
    else
      var r := NameChars(s[1..]);
      Read([s[0]] + r.part, r.rest)
  }

  // StrPair::ParseName
  function ParseName(s: seq<Char>): (r: Option<Read>)
    ensures r.Some? ==> r.value.part != [] && r.value.part + r.value.rest == s
  {
    if s == [] || !IsNameStart(s[0]) then None else Some(NameChars(s))
  }

  // StrPair::ParseText up to a one-character end tag, which is skipped.
  function ParseUntil(s: seq<Char>, c: Char): (r: Option<Read>)
    ensures r.Some? ==> r.value.part + [c] + r.value.rest == s
  {
    match Find(s, c, 0)
    case None => None
    case Some(k) => Some(Read(s[..k], s[k + 1..]))
  }

  datatype AttributeRead = AttributeRead(attribute: Attribute, rest: seq<Char>)

  // XMLAttribute::ParseDeep
  function ParseAttribute(s: seq<Char>): (r: Option<AttributeRead>)
    ensures r.Some? ==> |r.value.rest| < |s|
  {
    match ParseName(s)
    case None => None
    case Some(name) =>
      if name.rest == [] then None
      else
        var t := SkipSpace(name.rest);
        if t == [] || t[0] != '=' then None
        else
          var u := SkipSpace(t[1..]);
          if u == [] || (u[0] != '"' && u[0] != '\'') then None
          else
            match ParseUntil(u[1..], u[0])
            case None => None
            case Some(value) => Some(AttributeRead(Attribute(name.part, Decode(value.part)), value.rest))
  }

  datatype TagRead = TagRead(attributes: seq<Attribute>, closed: bool, rest: seq<Char>)

  predicate HasName(attributes: seq<Attribute>, name: seq<Char>) {
    exists i :: 0 <= i < |attributes| && attributes[i].name == name
  }

  // XMLElement::ParseAttributes: `seen` are the attributes so far.
  function ParseAttributes(s: seq<Char>, seen: seq<Attribute>): (r: Option<TagRead>)
    ensures r.Some? ==> |r.value.rest| < |s|
    decreases |s|
  {
    var t := SkipSpace(s);
    if t == [] then None
    else if IsNameStart(t[0]) then
      match ParseAttribute(t)
      case None => None
      case Some(a) => if HasName(seen, a.attribute.name) then None else ParseAttributes(a.rest, seen + [a.attribute])
    else if t[0] == '>' then Some(TagRead(seen, false, t[1..]))
    else if t[0] == '/' && |t| > 1 && t[1] == '>' then Some(TagRead(seen, true, t[2..]))
    else None
  }

  // A closing tag, and what follows it.
  datatype End = End(name: seq<Char>, rest: seq<Char>)

  // The children read; the closing tag of their parent, which the last of
  // them reads; and whether there was no error.
  datatype Children = Children(nodes: seq<Node>, end: Option<End>, ok: bool)

  const BAD := Children([], None, false)

  function Prepend(node: Node, c: Children): Children { c.(nodes := [node] + c.nodes) }

  datatype ElementRead = Bad | Closing(end: End) | Whole(node: Node, rest: seq<Char>)

  // XMLNode::ParseDeep
  function ParseChildren(s: seq<Char>): (r: Children)
    ensures r.end.Some? ==> |r.end.value.rest| < |s|
    decreases |s|, 1
  {
    var t := SkipSpace(s);
    if t == [] then Children([], None, true)
    else if t[0] != '<' then
      match ParseUntil(s, '<')
      case None => BAD
      case Some(text) =>
        TextIsNotEmpty(s);
        if text.rest == [] then BAD else Prepend(Text(Decode(text.part)), ParseChildren(['<'] + text.rest))
    else if |t| > 1 && (t[1] == '?' || t[1] == '!') then BAD
    else
      match ParseElement(t[1..])
      case Bad => BAD
      case Closing(end) => Children([], Some(end), true)
      case Whole(node, rest) => Prepend(node, ParseChildren(rest))
  }

  // XMLElement::ParseDeep, from behind the opening bracket, with the check of
  // the closing tag.
  function ParseElement(s: seq<Char>): (r: ElementRead)
    ensures r.Closing? ==> |r.end.rest| < |s|
    ensures r.Whole? ==> |r.rest| < |s|
    decreases |s|, 0
  {
    var t := SkipSpace(s);
    var closing := t != [] && t[0] == '/';
    match ParseName(if closing then t[1..] else t)
    case None => Bad
    case Some(name) =>
      match ParseAttributes(name.rest, [])
      case None => Bad
      case Some(tag) =>
        if tag.closed then Whole(Element(name.part, tag.attributes, []), tag.rest)
        else if closing then Closing(End(name.part, tag.rest))
        else
          var c := ParseChildren(tag.rest);
          if c.ok && c.end.Some? && c.end.value.name == name.part
          then Whole(Element(name.part, tag.attributes, c.nodes), c.end.value.rest)
          else Bad
  }

  lemma TextIsNotEmpty(s: seq<Char>)
    requires SkipSpace(s) != [] && SkipSpace(s)[0] != '<' && ParseUntil(s, '<').Some?
    ensures ParseUntil(s, '<').value.part != []
  {
  }

  // XMLDocument::Parse: the nodes of the document, or an error. A closing tag
  // at the top ends the document silently.
  function ParseDocument(s: seq<Char>): Option<seq<Node>> {
    var t := SkipSpace(s);
    var u := if |t| >= 3 && t[0] as int == 0xEF && t[1] as int == 0xBB && t[2] as int == 0xBF then t[3..] else t;
    if u == [] then None
    else
      var c := ParseChildren(u);
      if c.ok then Some(c.nodes) else None
  }

  // ----- the loops of the parser -----

  // XMLElement::ParseAttributes
  method ReadAttributes(s: seq<Char>) returns (r: Option<TagRead>)
    ensures r == ParseAttributes(s, [])
  {
    hide SkipSpace, ParseAttribute, IsNameStart;
    var p := s;
    var attributes: seq<Attribute> := [];
    while true
      invariant ParseAttributes(p, attributes) == ParseAttributes(s, [])
      decreases |p|
    {
      p := SkipSpace(p);
      if p == [] { return None; }
      if IsNameStart(p[0]) {
        var a := ParseAttribute(p);
        if a == None || HasName(attributes, a.value.attribute.name) { return None; }
        attributes := attributes + [a.value.attribute];
        p := a.value.rest;
      } else if p[0] == '>' {
        return Some(TagRead(attributes, false, p[1..]));
      } else if p[0] == '/' && |p| > 1 && p[1] == '>' {
        return Some(TagRead(attributes, true, p[2..]));
      } else {
        return None;
      }
    }
  }

  // XMLNode::ParseDeep
  method ReadChildren(s: seq<Char>) returns (r: Children)
    ensures r == ParseChildren(s)
    decreases |s|, 1
  {
    hide SkipSpace, ParseUntil, ParseElement, Decode;
    var p := s;
    var nodes: seq<Node> := [];
    assert [] + ParseChildren(s).nodes == ParseChildren(s).nodes;
    while true
      invariant |p| <= |s| && ParseChildren(s) == ParseChildren(p).(nodes := nodes + ParseChildren(p).nodes)
      decreases |p|
    {
      ghost var all := ParseChildren(p);
      var t := SkipSpace(p);
      if t == [] { return Children(nodes, None, true); }
      if t[0] != '<' {
        var text := ParseUntil(p, '<');
        if text == None || text.value.rest == [] { return Children(nodes, None, false); }
        TextIsNotEmpty(p);
        Grown(nodes, Text(Decode(text.value.part)), ParseChildren(['<'] + text.value.rest));
        nodes := nodes + [Text(Decode(text.value.part))];
        p := ['<'] + text.value.rest;
      } else if |t| > 1 && (t[1] == '?' || t[1] == '!') {
        return Children(nodes, None, false);
      } else {
        var element := ReadElement(t[1..]);
        match element {
          case Bad => return Children(nodes, None, false);
          case Closing(end) => return Children(nodes, Some(end), true);
          case Whole(node, rest) =>
            Grown(nodes, node, ParseChildren(rest));
            nodes := nodes + [node];
            p := rest;
        }
      }
    }
  }

  lemma Grown(nodes: seq<Node>, node: Node, c: Children)
    ensures nodes + Prepend(node, c).nodes == nodes + [node] + c.nodes
  {
  }

  // XMLElement::ParseDeep
  method ReadElement(s: seq<Char>) returns (r: ElementRead)
    ensures r == ParseElement(s)
    decreases |s|, 0
  {
    hide SkipSpace, ParseName, ParseAttributes, ParseChildren;
    var t := SkipSpace(s);
    var closing := t != [] && t[0] == '/';
    if closing { t := t[1..]; }
    var name := ParseName(t);
    if name == None { return Bad; }
    var tag := ReadAttributes(name.value.rest);
    if tag == None { return Bad; }
    if tag.value.closed { return Whole(Element(name.value.part, tag.value.attributes, []), tag.value.rest); }
    if closing { return Closing(End(name.value.part, tag.value.rest)); }
    var c := ReadChildren(tag.value.rest);
    if !c.ok || c.end == None || c.end.value.name != name.value.part { return Bad; }
    return Whole(Element(name.value.part, tag.value.attributes, c.nodes), c.end.value.rest);
  }

  // XMLDocument::Parse
  method ReadDocument(s: seq<Char>) returns (r: Option<seq<Node>>)
    ensures r == ParseDocument(s)
  {
    var p := SkipSpace(s);
    if |p| >= 3 && p[0] as int == 0xEF && p[1] as int == 0xBB && p[2] as int == 0xBF { p := p[3..]; }
    if p == [] { return None; }
    var c := ReadChildren(p);
    return if c.ok then Some(c.nodes) else None;
  }

  // ----- names are flushed behind the parser -----

  // While parsing, only names are turned into strings, by a NUL written over
  // the character behind the name. When the name of an attribute is asked for,
  // to find duplicates, that character has been consumed: the rest of the input
  // is strictly behind it.
  lemma AttributeNameIsBehind(s: seq<Char>)
    requires ParseAttribute(s).Some?
    ensures |ParseAttribute(s).value.rest| < |ParseName(s).value.rest|
  {
  }

  // The same for the name of an element or a closing tag, when closing tags are
  // compared.
  lemma ElementNameIsBehind(s: seq<Char>)
    requires !ParseElement(s).Bad?
    ensures var t := SkipSpace(s);
      var name := ParseName(if t != [] && t[0] == '/' then t[1..] else t);
      var r := ParseElement(s);
      && name.Some? && |if r.Closing? then r.end.rest else r.rest| < |name.value.rest|
  {
    hide SkipSpace, ParseName, ParseAttributes, ParseChildren;
  }
}
