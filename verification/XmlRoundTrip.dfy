// Parsing undoes printing: what is printed is a proper document for its tree.
module XmlRoundTrip {
  import opened Options
  import opened XmlText
  import opened XmlParser
  import opened XmlPrinter
  import opened XmlMarkup

  // No carriage return, which would be read as a line feed, and no NUL, which
  // would end the buffer.
  predicate ValidValue(s: seq<Char>) { CrFree(s) && '\0' !in s }

  predicate ValidText(s: seq<Char>) { ValidValue(s) && exists i :: 0 <= i < |s| && !IsSpace(s[i]) }

  predicate ValidAttributes(attributes: seq<Attribute>) {
    && (forall i :: 0 <= i < |attributes| ==> ValidName(attributes[i].name) && ValidValue(attributes[i].value))
    && Unique(attributes)
  }

  predicate ValidNode(node: Node) {
    match node
    case Text(value) => ValidText(value)
    case Element(name, attributes, children) => ValidName(name) && ValidAttributes(attributes) && ValidNodes(children)
  }

  // Texts are not next to each other.
  predicate ValidNodes(nodes: seq<Node>) {
    nodes == [] || (ValidNode(nodes[0]) && ValidNodes(nodes[1..]) && !(nodes[0].Text? && |nodes| > 1 && nodes[1].Text?))
  }

  // ----- the compact form of a tree -----

  function CompactAttr(a: Attribute): Attr { Attr([' '], a.name, [], [], '"', Escape(a.value, false)) }

  function CompactAttrs(attributes: seq<Attribute>): seq<Attr> {
    if attributes == [] then [] else [CompactAttr(attributes[0])] + CompactAttrs(attributes[1..])
  }

  function CompactTag(name: seq<Char>, slash: bool, attributes: seq<Attribute>): Tag { Tag([], slash, name, CompactAttrs(attributes), []) }

  function Compact(node: Node): Item {
    match node
    case Text(value) => TextItem(Escape(value, true))
    case Element(name, attributes, children) =>
      if children == [] then EmptyItem([], CompactTag(name, false, attributes))
      else FullItem([], CompactTag(name, false, attributes), CompactAll(children), Close([], CompactTag(name, true, [])))
  }

  function CompactAll(nodes: seq<Node>): seq<Item> {
    if nodes == [] then [] else [Compact(nodes[0])] + CompactAll(nodes[1..])
  }

  // ----- it is what the printer writes -----

  lemma {:induction false} AttrsPrinted(attributes: seq<Attribute>, next: seq<Char>)
    ensures AttrsText(CompactAttrs(attributes), next) == PrintAttributes(attributes) + next
  {
    hide Escape;
    if attributes != [] {
      AttrsPrinted(attributes[1..], next);
      AttrPrinted(attributes[0], PrintAttributes(attributes[1..]) + next);
      var all := CompactAttrs(attributes);
      assert all[0] == CompactAttr(attributes[0]) && all[1..] == CompactAttrs(attributes[1..]);
    }
  }

  lemma AttrPrinted(a: Attribute, next: seq<Char>)
    ensures AttrText(CompactAttr(a), next) == PrintAttribute(a) + next
  {
    hide Escape;
  }

  lemma TagPrinted(name: seq<Char>, slash: bool, attributes: seq<Attribute>, next: seq<Char>)
    ensures TagText(CompactTag(name, slash, attributes), next) == (if slash then "/" else "") + name + PrintAttributes(attributes) + next
  {
    AttrsPrinted(attributes, next);
    assert [] + next == next;
  }

  lemma {:induction false} NodePrinted(node: Node, next: seq<Char>)
    ensures ItemText(Compact(node), next) == PrintNode(node) + next
    decreases node, 0
  {
    hide TagText, CompactTag, PrintAttributes, ItemsText, PrintNodes, CompactAll, Escape;
    if node.Element? {
      var name, attributes, children := node.name, node.attributes, node.children;
      if children == [] {
        TagPrinted(name, false, attributes, "/>" + next);
      } else {
        var close := CloseText(Close([], CompactTag(name, true, [])), next);
        TagPrinted(name, true, [], ">" + next);
        NoAttributes();
        assert close == "</" + name + ">" + next;
        NodesPrinted(children, close);
        TagPrinted(name, false, attributes, ['>'] + (PrintNodes(children) + close));
      }
    }
  }

  lemma NoAttributes()
    ensures PrintAttributes([]) == []
  {
  }

  lemma {:induction false} NodesPrinted(nodes: seq<Node>, next: seq<Char>)
    ensures ItemsText(CompactAll(nodes), next) == PrintNodes(nodes) + next
    decreases nodes, 1
  {
    hide ItemText, Compact, PrintNode;
    if nodes != [] {
      NodesPrinted(nodes[1..], next);
      NodePrinted(nodes[0], PrintNodes(nodes[1..]) + next);
      var all := CompactAll(nodes);
      assert all[0] == Compact(nodes[0]) && all[1..] == CompactAll(nodes[1..]);
    }
  }

  // ----- it is proper, and stands for the tree -----

  lemma {:induction false} AttrsCompact(attributes: seq<Attribute>)
    requires forall i :: 0 <= i < |attributes| ==> ValidName(attributes[i].name) && ValidValue(attributes[i].value)
    ensures var attrs := CompactAttrs(attributes);
      && |attrs| == |attributes| && (forall i :: 0 <= i < |attrs| ==> AttrOk(attrs[i]) && attrs[i].before != [])
      && AttributesOf(attrs) == attributes
  {
    hide Escape, Decode, Decodable, ValidName, CompactAttr, AttrOk;
    if attributes != [] {
      var a, all := attributes[0], CompactAttrs(attributes);
      AttrsCompact(attributes[1..]);
      AttrCompact(a);
      assert all[0] == CompactAttr(a) && all[1..] == CompactAttrs(attributes[1..]);
      forall i | 0 <= i < |all| ensures AttrOk(all[i]) && all[i].before != [] { if i > 0 { assert all[i] == all[1..][i - 1]; } }
    }
  }

  lemma AttrCompact(a: Attribute)
    requires ValidName(a.name) && ValidValue(a.value)
    ensures var x := CompactAttr(a); AttrOk(x) && x.before != [] && x.name == a.name && Decode(x.raw) == a.value
  {
    hide Escape, Decode, Decodable, ValidName;
    EscapeIsPlain(a.value, false);
    DecodeEscape(a.value, false);
    assert IsSpace(' ');
  }

  lemma TagCompact(name: seq<Char>, slash: bool, attributes: seq<Attribute>)
    requires ValidName(name) && ValidAttributes(attributes)
    ensures TagOk(CompactTag(name, slash, attributes)) && AttributesOf(CompactTag(name, slash, attributes).attrs) == attributes
  {
    hide ValidName, CompactAttrs, AttrOk;
    AttrsCompact(attributes);
  }

  lemma {:induction false} EscapeKeepsInk(s: seq<Char>, i: nat)
    requires i < |s| && !IsSpace(s[i])
    ensures exists j :: 0 <= j < |Escape(s, true)| && !IsSpace(Escape(s, true)[j])
  {
    var first, rest := EscapeChar(s[0], true), Escape(s[1..], true);
    if i == 0 {
      InkOfChar(s[0]);
      assert Escape(s, true)[0] == first[0];
    } else {
      EscapeKeepsInk(s[1..], i - 1);
      var j :| 0 <= j < |rest| && !IsSpace(rest[j]);
      assert Escape(s, true)[|first| + j] == rest[j];
    }
  }

  lemma InkOfChar(c: Char)
    requires !IsSpace(c)
    ensures EscapeChar(c, true) != [] && !IsSpace(EscapeChar(c, true)[0])
  {
  }

  lemma TextCompact(value: seq<Char>)
    requires ValidText(value)
    ensures ItemOk(TextItem(Escape(value, true)), false) && TreeOf(TextItem(Escape(value, true))) == Text(value)
  {
    hide Escape, Decode, Decodable, IsSpace;
    var i :| 0 <= i < |value| && !IsSpace(value[i]);
    EscapeKeepsInk(value, i);
    EscapeIsPlain(value, true);
    DecodeEscape(value, true);
  }

  lemma {:induction false} NodeCompact(node: Node, afterText: bool)
    requires ValidNode(node) && (afterText ==> node.Element?)
    ensures ItemOk(Compact(node), afterText) && TreeOf(Compact(node)) == node && (Compact(node).TextItem? <==> node.Text?)
    decreases node, 0
  {
    hide ValidName, ValidAttributes, TagOk, CompactTag, Escape, CompactAll, TreesOf, ItemsOk, ValidText, ValidNodes;
    match node {
      case Text(value) => TextCompact(value);
      case Element(name, attributes, children) =>
        TagCompact(name, false, attributes);
        NoneIsValid();
        TagCompact(name, true, []);
        NamesKept(name, attributes);
        if children != [] { NodesCompact(children, false); }
    }
  }

  lemma NoneIsValid()
    ensures ValidAttributes([])
  {
  }

  lemma NamesKept(name: seq<Char>, attributes: seq<Attribute>)
    ensures var a, b := CompactTag(name, false, attributes), CompactTag(name, true, []); a.name == b.name == name && !a.slash && b.slash
  {
  }

  lemma {:induction false} NodesCompact(nodes: seq<Node>, afterText: bool)
    requires ValidNodes(nodes) && (afterText && nodes != [] ==> nodes[0].Element?)
    ensures ItemsOk(CompactAll(nodes), afterText) && TreesOf(CompactAll(nodes)) == nodes
    ensures EndsInText(CompactAll(nodes), afterText) == if nodes == [] then afterText else nodes[|nodes| - 1].Text?
    decreases nodes, 1
  {
    hide ItemOk, TreeOf, Compact, ValidNode;
    if nodes != [] {
      var all := CompactAll(nodes);
      NodeCompact(nodes[0], afterText);
      NodesCompact(nodes[1..], nodes[0].Text?);
      assert all[0] == Compact(nodes[0]) && all[1..] == CompactAll(nodes[1..]);
      assert [nodes[0]] + nodes[1..] == nodes;
      EndsAlike(all, afterText);
    }
  }

  // ----- the round trip -----

  // A document of elements, printed in compact form and parsed, is the same
  // document.
  lemma DocumentRoundTrip(nodes: seq<Node>)
    requires nodes != [] && ValidNodes(nodes) && forall i :: 0 <= i < |nodes| ==> nodes[i].Element?
    ensures ParseDocument(PrintNodes(nodes)) == Some(nodes)
  {
    hide ParseDocument, PrintNodes, ItemsText, CompactAll, TreesOf, ItemsOk, IsSpace, ValidNodes;
    NodesCompact(nodes, false);
    NodesPrinted(nodes, []);
    var d := Document([], false, CompactAll(nodes), TheEnd([]));
    var s := PrintNodes(nodes);
    assert s + [] == s && [] + s == s;
    StartsWithBracket(nodes);
    DocumentParsed(d);
  }

  lemma StartsWithBracket(nodes: seq<Node>)
    requires nodes != [] && nodes[0].Element?
    ensures var s := PrintNodes(nodes); s != [] && !IsSpace(s[0]) && !Marked(s)
  {
    hide PrintAttributes;
    assert PrintNode(nodes[0])[0] == '<';
    MarkedMeans(PrintNodes(nodes));
  }

  // The printer and the parser together.
  method SaveAndLoad(nodes: seq<Node>) returns (loaded: Option<seq<Node>>)
    requires nodes != [] && ValidNodes(nodes) && forall i :: 0 <= i < |nodes| ==> nodes[i].Element?
    ensures loaded == Some(nodes)
  {
    hide ParseDocument, PrintNodes, ValidNodes;
    var printer := new Printer();
    printer.VisitChildren(nodes);
    DocumentRoundTrip(nodes);
    assert printer.out == PrintNodes(nodes);
    loaded := ReadDocument(printer.out);
  }
}
