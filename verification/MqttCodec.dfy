// MQTT messages and their bytes.
module MqttCodec {
  import opened Options
  import opened MqttLength

  const CONNECT := 1
  const PUBLISH := 3
  const SUBSCRIBE := 8

  // ----- the fixed header -----

  datatype Header = Header(kind: nat, dup: bool, qos: nat, retain: bool)

  predicate HeaderFits(h: Header) { h.kind < 16 && h.qos < 4 }

  // The bit fields keep the low bits of kind and qos.
  function HeaderByte(h: Header): Byte {
    h.kind % 16 * 16 + (if h.dup then 8 else 0) + h.qos % 4 * 2 + (if h.retain then 1 else 0)
  }

  function ParseHeader(b: Byte): Header {
    Header(b / 16, b / 8 % 2 == 1, b / 2 % 4, b % 2 == 1)
  }

  // A header is read back as it was written exactly if it fits its bit fields.
  lemma HeaderRoundTrip(h: Header)
    ensures ParseHeader(HeaderByte(h)) == h <==> HeaderFits(h)
  {
    Bits(h.kind % 16, if h.dup then 1 else 0, h.qos % 4, if h.retain then 1 else 0);
  }

  lemma HeaderBack(b: Byte)
    ensures HeaderByte(ParseHeader(b)) == b && HeaderFits(ParseHeader(b))
  {
    var half := b / 2;
    var eighth := half / 4;
    Bits(eighth / 2, eighth % 2, half % 4, b % 2);
    assert b == eighth / 2 * 16 + eighth % 2 * 8 + half % 4 * 2 + b % 2;
  }

  lemma Bits(k: nat, d: nat, q: nat, r: nat)
    requires k < 16 && d < 2 && q < 4 && r < 2
    ensures var x := k * 16 + d * 8 + q * 2 + r; 0 <= x < 256 && x / 16 == k && x / 8 % 2 == d && x / 2 % 4 == q && x % 2 == r
  {
    var x := k * 16 + d * 8 + q * 2 + r;
    assert x / 8 == 2 * k + d;
    assert x / 2 == 8 * k + 4 * d + q;
  }

  // ----- what is written -----

  function Short(n: nat): (r: seq<Byte>)
    ensures |r| == 2
  {
    [n / 256 % 256, n % 256]
  }

  function Str(s: seq<Byte>): (r: seq<Byte>)
    ensures |r| == 2 + |s|
  {
    Short(|s|) + s
  }

  function Wire(h: Header, body: seq<Byte>): seq<Byte> { [HeaderByte(h)] + LengthBytes(|body|) + body }

  datatype Publish = Publish(header: Header, topic: seq<Byte>, id: nat, payload: seq<Byte>)

  function PublishBody(m: Publish): seq<Byte> { Str(m.topic) + Short(m.id) + m.payload }

  datatype Topic = Topic(name: seq<Byte>, qos: Byte)

  datatype Subscribe = Subscribe(header: Header, id: nat, topics: seq<Topic>)

  function TopicsBytes(ts: seq<Topic>): seq<Byte> {
    if ts == [] then [] else TopicsBytes(ts[..|ts| - 1]) + Str(ts[|ts| - 1].name) + [ts[|ts| - 1].qos]
  }

  function SubscribeBody(m: Subscribe): seq<Byte> { Short(m.id) + TopicsBytes(m.topics) }

  datatype Connect = Connect(
    header: Header, protocol: seq<Byte>, version: Byte, clean: bool, keepAlive: nat, client: seq<Byte>,
    will: Option<Will>, user: Option<seq<Byte>>, password: Option<seq<Byte>>, willQos: nat, willRetain: bool)

  datatype Will = Will(topic: seq<Byte>, message: seq<Byte>)

  // "MQIsdp"
  const PROTOCOL: seq<Byte> := [0x4D, 0x51, 0x49, 0x73, 0x64, 0x70]
  const VERSION: Byte := 3
  const KEEP_ALIVE := 60

  // What CMqttConnect::encode writes: of the flags only the clean session.
  function ConnectBody(client: seq<Byte>, clean: bool): seq<Byte> {
    Str(PROTOCOL) + [VERSION] + [if clean then 2 else 0] + Short(KEEP_ALIVE) + Str(client)
  }

  // ----- what is read -----

  function ShortAt(b: seq<Byte>, o: nat): Option<nat> {
    if |b| < o + 2 then None else Some(b[o] as int * 256 + b[o + 1])
  }

  // A string at position o.
  function StringAt(b: seq<Byte>, o: nat): Option<seq<Byte>> {
    match ShortAt(b, o)
    case None => None
    case Some(n) => if |b| < o + 2 + n then None else Some(b[o + 2..o + 2 + n])
  }

  // CMqttMsg::decode: the position after the fixed header.
  function Start(b: seq<Byte>): Option<nat> {
    if |b| < 3 then None
    else
      match Read(b, |b|)
      case Got(_, k) => Some(1 + k)
      case _ => None
  }

  function DecodePublish(b: seq<Byte>): Option<Publish> {
    match Start(b)
    case None => None
    case Some(o) =>
      match StringAt(b, o)
      case None => None
      case Some(topic) =>
        var p := o + 2 + |topic|;
        match ShortAt(b, p)
        case None => None
        case Some(id) => if p + 2 <= |b| then Some(Publish(ParseHeader(b[0]), topic, id, b[p + 2..])) else None
  }

  // Topics from position o on, as long as they are complete.
  function TopicsAt(b: seq<Byte>, o: nat): seq<Topic>
    decreases |b| - o
  {
    match StringAt(b, o)
    case None => []
    case Some(name) =>
      var p := o + 2 + |name|;
      if |b| < p + 1 then [] else [Topic(name, b[p])] + TopicsAt(b, p + 1)
  }

  function DecodeSubscribe(b: seq<Byte>): Option<Subscribe> {
    match Start(b)
    case None => None
    case Some(o) =>
      if ParseHeader(b[0]).kind != SUBSCRIBE then None
      else
        match ShortAt(b, o)
        case None => None
        case Some(id) => Some(Subscribe(ParseHeader(b[0]), id, TopicsAt(b, o + 2)))
  }

  function Bit(flags: Byte, weight: nat): bool
    requires weight > 0
  {
    flags / weight % 2 == 1
  }

  // A string that is there only if its flag says so.
  function MaybeString(b: seq<Byte>, o: nat, present: bool): Option<seq<Byte>> {
    if present then StringAt(b, o) else Some([])
  }

  function After(o: nat, s: seq<Byte>, present: bool): nat { if present then o + 2 + |s| else o }

  // CMqttConnect::decode from its client id on.
  function ConnectTail(b: seq<Byte>, o: nat, h: Header, protocol: seq<Byte>, version: Byte, flags: Byte, keepAlive: nat): Option<Connect> {
    match StringAt(b, o)
    case None => None
    case Some(client) =>
      var will, name, pass := Bit(flags, 4), Bit(flags, 128), Bit(flags, 64);
      var p := o + 2 + |client|;
      match MaybeString(b, p, will)
      case None => None
      case Some(topic) =>
        var q := After(p, topic, will);
        match MaybeString(b, q, will)
        case None => None
        case Some(message) =>
          var r := After(q, message, will);
          match MaybeString(b, r, name)
          case None => None
          case Some(user) =>
            var t := After(r, user, name);
            match MaybeString(b, t, pass)
            case None => None
            case Some(password) =>
              Some(Connect(h, protocol, version, Bit(flags, 2), keepAlive, client,
                           if will then Some(Will(topic, message)) else None,
                           if name then Some(user) else None, if pass then Some(password) else None,
                           flags / 8 % 4, Bit(flags, 32)))
  }

  function DecodeConnect(b: seq<Byte>): Option<Connect> {
    match Start(b)
    case None => None
    case Some(o) =>
      if ParseHeader(b[0]).kind != CONNECT then None
      else
        match StringAt(b, o)
        case None => None
        case Some(protocol) =>
          var p := o + 2 + |protocol|;
          if |b| < p + 2 then None
          else
            match ShortAt(b, p + 2)
            case None => None
            case Some(keepAlive) => ConnectTail(b, p + 4, ParseHeader(b[0]), protocol, b[p], b[p + 1], keepAlive)
  }

  // ----- round trips -----

  // The bytes x are at position o of b.
  ghost predicate At(b: seq<Byte>, o: nat, x: seq<Byte>) { o + |x| <= |b| && b[o..o + |x|] == x }

  lemma AtParts(b: seq<Byte>, o: nat, x: seq<Byte>, y: seq<Byte>)
    requires At(b, o, x + y)
    ensures At(b, o, x) && At(b, o + |x|, y)
  {
    assert (x + y)[..|x|] == x && (x + y)[|x|..] == y;
  }

  lemma AtEnd(b: seq<Byte>, o: nat, x: seq<Byte>)
    requires At(b, o, x) && o + |x| == |b|
    ensures b[o..] == x
  {
    assert b[o..] == b[o..o + |x|];
  }

  lemma AtByte(b: seq<Byte>, o: nat, x: Byte)
    requires At(b, o, [x])
    ensures o < |b| && b[o] == x
  {
    assert b[o] == b[o..o + 1][0];
  }

  lemma ReadShort(b: seq<Byte>, o: nat, n: nat)
    requires At(b, o, Short(n)) && n < 65536
    ensures ShortAt(b, o) == Some(n)
  {
    assert b[o] == b[o..o + 2][0] && b[o + 1] == b[o..o + 2][1];
  }

  lemma ReadString(b: seq<Byte>, o: nat, s: seq<Byte>)
    requires At(b, o, Str(s)) && |s| < 65536
    ensures StringAt(b, o) == Some(s)
  {
    AtParts(b, o, Short(|s|), s);
    ReadShort(b, o, |s|);
  }

  lemma ReadStart(h: Header, body: seq<Byte>)
    requires 2 <= |body| < TWO_BYTES
    ensures Start(Wire(h, body)) == Some(1 + |LengthBytes(|body|)|) && Wire(h, body)[0] == HeaderByte(h)
    ensures At(Wire(h, body), 1 + |LengthBytes(|body|)|, body) && |Wire(h, body)| == 1 + |LengthBytes(|body|)| + |body|
  {
    hide Read, LengthBytes, HeaderByte;
    var b := Wire(h, body);
    LengthRoundTrip(HeaderByte(h), |body|, body, |b|);
  }

  // A publish is read back as it was written.
  lemma PublishRoundTrip(m: Publish)
    requires HeaderFits(m.header) && m.id < 65536 && |PublishBody(m)| < TWO_BYTES
    ensures DecodePublish(Wire(m.header, PublishBody(m))) == Some(m)
  {
    hide Read, LengthBytes, HeaderByte, ParseHeader, At, Str, Short, StringAt, ShortAt, Start;
    var body := PublishBody(m);
    var b, o := Wire(m.header, body), 1 + |LengthBytes(|body|)|;
    ReadStart(m.header, body);
    HeaderRoundTrip(m.header);
    AtParts(b, o, Str(m.topic) + Short(m.id), m.payload);
    AtParts(b, o, Str(m.topic), Short(m.id));
    ReadString(b, o, m.topic);
    ReadShort(b, o + 2 + |m.topic|, m.id);
    AtEnd(b, o + 4 + |m.topic|, m.payload);
  }

  lemma {:induction false} ReadTopics(b: seq<Byte>, o: nat, ts: seq<Topic>, k: nat)
    requires k <= |ts| && (forall i :: 0 <= i < |ts| ==> |ts[i].name| < 65536)
    requires At(b, o, TopicsBytes(ts)) && o + |TopicsBytes(ts)| == |b|
    ensures TopicsAt(b, o + |TopicsBytes(ts[..k])|) == ts[k..]
    ensures |TopicsBytes(ts[..k])| <= |TopicsBytes(ts)|
    decreases |ts| - k
  {
    hide At, Str, StringAt, TopicsAt, TopicsBytes;
    if k == |ts| {
      assert ts[..k] == ts;
      NoTopicAt(b, |b|);
    } else {
      TopicsPrefix(ts, k + 1);
      ReadTopics(b, o, ts, k + 1);
      var t, before := ts[k], TopicsBytes(ts[..k]);
      TopicsSnoc(ts, k);
      AtPrefix(b, o, TopicsBytes(ts[..k + 1]), TopicsBytes(ts));
      AtParts(b, o, before + Str(t.name), [t.qos]);
      AtParts(b, o, before, Str(t.name));
      TopicRead(b, o + |before|, t);
      assert ts[k..] == [t] + ts[k + 1..];
    }
  }

  lemma TopicsSnoc(ts: seq<Topic>, k: nat)
    requires k < |ts|
    ensures TopicsBytes(ts[..k + 1]) == TopicsBytes(ts[..k]) + Str(ts[k].name) + [ts[k].qos]
  {
    hide Str;
    assert ts[..k + 1][..k] == ts[..k];
  }

  lemma TopicRead(b: seq<Byte>, o: nat, t: Topic)
    requires At(b, o, Str(t.name)) && At(b, o + 2 + |t.name|, [t.qos]) && |t.name| < 65536
    ensures TopicsAt(b, o) == [t] + TopicsAt(b, o + 3 + |t.name|)
  {
    hide At, Str, StringAt;
    ReadString(b, o, t.name);
    AtByte(b, o + 2 + |t.name|, t.qos);
  }

  lemma NoTopicAt(b: seq<Byte>, o: nat)
    requires |b| < o + 2
    ensures TopicsAt(b, o) == []
  {
  }

  lemma AtPrefix(b: seq<Byte>, o: nat, x: seq<Byte>, y: seq<Byte>)
    requires At(b, o, y) && x <= y
    ensures At(b, o, x)
  {
    assert b[o..o + |x|] == b[o..o + |y|][..|x|];
  }

  lemma {:induction false} TopicsPrefix(ts: seq<Topic>, k: nat)
    requires k <= |ts|
    ensures TopicsBytes(ts[..k]) <= TopicsBytes(ts)
  {
    if k == |ts| {
      assert ts[..k] == ts;
    } else {
      TopicsPrefix(ts[..|ts| - 1], k);
      assert ts[..|ts| - 1][..k] == ts[..k];
    }
  }

  // Each topic takes its part of the bytes.
  lemma {:induction false} TopicsFit(ts: seq<Topic>, i: nat)
    requires i < |ts|
    ensures |ts[i].name| + 3 <= |TopicsBytes(ts)|
  {
    if i < |ts| - 1 { TopicsFit(ts[..|ts| - 1], i); }
  }

  // A subscribe to at least one topic is read back as it was written.
  lemma SubscribeRoundTrip(m: Subscribe)
    requires HeaderFits(m.header) && m.header.kind == SUBSCRIBE && m.id < 65536 && m.topics != [] && |SubscribeBody(m)| < TWO_BYTES
    ensures DecodeSubscribe(Wire(m.header, SubscribeBody(m))) == Some(m)
  {
    hide Read, LengthBytes, HeaderByte, ParseHeader, At, Str, Short, StringAt, ShortAt, Start;
    var body := SubscribeBody(m);
    var b, o := Wire(m.header, body), 1 + |LengthBytes(|body|)|;
    ReadStart(m.header, body);
    HeaderRoundTrip(m.header);
    AtParts(b, o, Short(m.id), TopicsBytes(m.topics));
    ReadShort(b, o, m.id);
    forall i | 0 <= i < |m.topics| ensures |m.topics[i].name| < 65536 { TopicsFit(m.topics, i); }
    ReadTopics(b, o + 2, m.topics, 0);
    assert m.topics[0..] == m.topics && m.topics[..0] == [];
  }

  // A connect is read back with the fixed protocol, version and keep-alive,
  // and without will, user name and password.
  lemma ConnectRoundTrip(h: Header, client: seq<Byte>, clean: bool)
    requires HeaderFits(h) && h.kind == CONNECT && |ConnectBody(client, clean)| < TWO_BYTES
    ensures DecodeConnect(Wire(h, ConnectBody(client, clean)))
      == Some(Connect(h, PROTOCOL, VERSION, clean, KEEP_ALIVE, client, None, None, None, 0, false))
  {
    hide Read, LengthBytes, HeaderByte, ParseHeader, At, Str, Short, StringAt, ShortAt, Start;
    var body := ConnectBody(client, clean);
    var b, o := Wire(h, body), 1 + |LengthBytes(|body|)|;
    var flags: Byte := if clean then 2 else 0;
    ReadStart(h, body);
    HeaderRoundTrip(h);
    AtParts(b, o, Str(PROTOCOL) + [VERSION] + [flags] + Short(KEEP_ALIVE), Str(client));
    AtParts(b, o, Str(PROTOCOL) + [VERSION] + [flags], Short(KEEP_ALIVE));
    AtParts(b, o, Str(PROTOCOL) + [VERSION], [flags]);
    AtParts(b, o, Str(PROTOCOL), [VERSION]);
    ReadString(b, o, PROTOCOL);
    AtByte(b, o + 8, VERSION);
    AtByte(b, o + 9, flags);
    ReadShort(b, o + 10, KEEP_ALIVE);
    ReadString(b, o + 12, client);
  }

  // The position of the message id in the bytes of a publish.
  function IdAt(b: seq<Byte>, m: Publish): nat
    requires DecodePublish(b) == Some(m)
  {
    Start(b).value + 2 + |m.topic|
  }

  // The bytes with another message id.
  function Renumber(b: seq<Byte>, m: Publish, id: nat): seq<Byte>
    requires DecodePublish(b) == Some(m)
  {
    b[..IdAt(b, m)] + Short(id) + b[IdAt(b, m) + 2..]
  }

  // The fixed header is read from the first bytes only.
  lemma StartLocal(b: seq<Byte>, c: seq<Byte>, o: nat)
    requires |b| == |c| && o <= |b| && b[..o] == c[..o] && Start(b).Some? && Start(b).value <= o
    ensures Start(c) == Start(b)
  {
    hide Digits;
    LastByteLocal(b, o, 1);
    LastByteLocal(c, o, 1);
    var k := LastByte(b, 1);
    assert b[1..k + 1] == b[..o][1..k + 1] && c[1..k + 1] == c[..o][1..k + 1];
  }

  lemma StringLocal(b: seq<Byte>, c: seq<Byte>, s: nat, o: nat)
    requires |b| == |c| && o <= |b| && b[..o] == c[..o] && StringAt(b, s).Some? && s + 2 + |StringAt(b, s).value| <= o
    ensures StringAt(c, s) == StringAt(b, s)
  {
    var n := |StringAt(b, s).value|;
    assert b[s] == b[..o][s] && c[s] == c[..o][s] && b[s + 1] == b[..o][s + 1] && c[s + 1] == c[..o][s + 1];
    SliceOfPrefix(b, o, s + 2, s + 2 + n);
    SliceOfPrefix(c, o, s + 2, s + 2 + n);
  }

  lemma SliceOfPrefix(b: seq<Byte>, o: nat, i: nat, j: nat)
    requires i <= j <= o <= |b|
    ensures b[..o][i..j] == b[i..j]
  {
  }

  // Writing another message id into any bytes that are a publish gives the
  // publish with that id.
  lemma Renumbered(b: seq<Byte>, m: Publish, id: nat)
    requires DecodePublish(b) == Some(m) && id < 65536
    ensures DecodePublish(Renumber(b, m, id)) == Some(m.(id := id))
  {
    hide Start, ParseHeader, StringAt;
    var o, c := IdAt(b, m), Renumber(b, m, id);
    StartInside(b);
    assert c[..o] == b[..o] && c[o + 2..] == b[o + 2..] && c[o..o + 2] == Short(id);
    StartLocal(b, c, o);
    StringLocal(b, c, Start(b).value, o);
    ReadShort(c, o, id);
    assert c[0] == c[..o][0] && b[0] == b[..o][0];
  }

  lemma StartInside(b: seq<Byte>)
    ensures Start(b).Some? ==> 2 <= Start(b).value <= |b|
  {
  }

  // ----- connects in full -----

  // The connect flags (section 3.1 of MQTT 3.1.1).
  function FlagsOf(c: Connect): Byte
    requires c.willQos < 4
  {
    (if c.user.Some? then 128 else 0) + (if c.password.Some? then 64 else 0) + (if c.willRetain then 32 else 0) + c.willQos * 8
    + (if c.will.Some? then 4 else 0) + (if c.clean then 2 else 0)
  }

  function MaybeStr(s: Option<seq<Byte>>): seq<Byte> { if s.Some? then Str(s.value) else [] }

  function WillBytes(w: Option<Will>): seq<Byte> { if w.Some? then Str(w.value.topic) + Str(w.value.message) else [] }

  // A connect as other clients write it.
  function FullConnectBody(c: Connect): seq<Byte>
    requires c.willQos < 4
  {
    Str(c.protocol) + [c.version] + [FlagsOf(c)] + Short(c.keepAlive) + TailBytes(c)
  }

  function TailBytes(c: Connect): seq<Byte> { UserBytes(c) + MaybeStr(c.password) }

  function UserBytes(c: Connect): seq<Byte> { ClientBytes(c) + MaybeStr(c.user) }

  function ClientBytes(c: Connect): seq<Byte> { Str(c.client) + WillBytes(c.will) }

  lemma FlagBits(c: Connect)
    requires c.willQos < 4
    ensures var f := FlagsOf(c);
      && (Bit(f, 2) <==> c.clean) && (Bit(f, 4) <==> c.will.Some?) && (Bit(f, 32) <==> c.willRetain)
      && (Bit(f, 64) <==> c.password.Some?) && (Bit(f, 128) <==> c.user.Some?) && f / 8 % 4 == c.willQos
  {
  }

  lemma ReadMaybe(b: seq<Byte>, o: nat, s: Option<seq<Byte>>)
    requires At(b, o, MaybeStr(s)) && |MaybeStr(s)| < TWO_BYTES
    ensures Found(b, o, s, o + |MaybeStr(s)|)
  {
    hide At, Str, StringAt;
    if s.Some? { ReadString(b, o, s.value); }
  }

  lemma TailDecoded(b: seq<Byte>, o: nat, c: Connect)
    requires c.willQos < 4 && At(b, o, TailBytes(c)) && |TailBytes(c)| < TWO_BYTES
    ensures ConnectTail(b, o, c.header, c.protocol, c.version, FlagsOf(c), c.keepAlive) == Some(c)
  {
    TailFound(b, o, c);
    FlagBits(c);
    hide At, StringAt, FlagsOf, Bit, MaybeStr, MaybeString, After, WillBytes, ConnectTail, TailBytes, Found;
    TailIs(b, o, c, FlagsOf(c));
  }

  lemma TailFound(b: seq<Byte>, o: nat, c: Connect)
    requires At(b, o, TailBytes(c)) && |TailBytes(c)| < TWO_BYTES
    ensures StringAt(b, o) == Some(c.client)
    ensures var p := o + 2 + |c.client|;
      var q := p + |WillBytes(c.will)|;
      && Found(b, p, TopicOf(c.will), p + |MaybeStr(TopicOf(c.will))|) && Found(b, p + |MaybeStr(TopicOf(c.will))|, MessageOf(c.will), q)
      && Found(b, q, c.user, q + |MaybeStr(c.user)|) && Found(b, q + |MaybeStr(c.user)|, c.password, q + |MaybeStr(c.user)| + |MaybeStr(c.password)|)
  {
    hide At, Str, StringAt, MaybeStr, WillBytes, Found, TopicOf, MessageOf;
    AtParts(b, o, UserBytes(c), MaybeStr(c.password));
    AtParts(b, o, ClientBytes(c), MaybeStr(c.user));
    AtParts(b, o, Str(c.client), WillBytes(c.will));
    ReadString(b, o, c.client);
    var p := o + 2 + |c.client|;
    var q := p + |WillBytes(c.will)|;
    WillRead(b, p, c.will);
    ReadMaybe(b, q, c.user);
    ReadMaybe(b, q + |MaybeStr(c.user)|, c.password);
  }

  // The strings of a will.
  function TopicOf(w: Option<Will>): Option<seq<Byte>> { if w.Some? then Some(w.value.topic) else None }

  function MessageOf(w: Option<Will>): Option<seq<Byte>> { if w.Some? then Some(w.value.message) else None }

  function OrEmpty(s: Option<seq<Byte>>): seq<Byte> { if s.Some? then s.value else [] }

  ghost predicate Found(b: seq<Byte>, o: nat, s: Option<seq<Byte>>, next: nat) {
    MaybeString(b, o, s.Some?) == Some(OrEmpty(s)) && After(o, OrEmpty(s), s.Some?) == next
  }

  lemma WillRead(b: seq<Byte>, o: nat, w: Option<Will>)
    requires At(b, o, WillBytes(w)) && |WillBytes(w)| < TWO_BYTES
    ensures Found(b, o, TopicOf(w), o + |MaybeStr(TopicOf(w))|)
    ensures Found(b, o + |MaybeStr(TopicOf(w))|, MessageOf(w), o + |WillBytes(w)|)
  {
    hide At, MaybeStr, MaybeString, After, WillBytes;
    WillParts(w);
    AtParts(b, o, MaybeStr(TopicOf(w)), MaybeStr(MessageOf(w)));
    ReadMaybe(b, o, TopicOf(w));
    ReadMaybe(b, o + |MaybeStr(TopicOf(w))|, MessageOf(w));
  }

  lemma TailIs(b: seq<Byte>, o: nat, c: Connect, f: Byte)
    requires StringAt(b, o) == Some(c.client)
    requires (Bit(f, 2) <==> c.clean) && (Bit(f, 4) <==> c.will.Some?) && (Bit(f, 32) <==> c.willRetain) && f / 8 % 4 == c.willQos
    requires (Bit(f, 64) <==> c.password.Some?) && (Bit(f, 128) <==> c.user.Some?)
    requires var p := o + 2 + |c.client|;
      var q := p + |WillBytes(c.will)|;
      && Found(b, p, TopicOf(c.will), p + |MaybeStr(TopicOf(c.will))|) && Found(b, p + |MaybeStr(TopicOf(c.will))|, MessageOf(c.will), q)
      && Found(b, q, c.user, q + |MaybeStr(c.user)|) && Found(b, q + |MaybeStr(c.user)|, c.password, q + |MaybeStr(c.user)| + |MaybeStr(c.password)|)
    ensures ConnectTail(b, o, c.header, c.protocol, c.version, f, c.keepAlive) == Some(c)
  {
    hide StringAt, Bit, MaybeStr, MaybeString, After, WillBytes;
  }

  lemma WillParts(w: Option<Will>)
    ensures WillBytes(w) == MaybeStr(TopicOf(w)) + MaybeStr(MessageOf(w))
  {
    hide Str;
  }

  // Every connect, with or without will, user name and password, is decoded.
  lemma ConnectDecoded(c: Connect)
    requires HeaderFits(c.header) && c.header.kind == CONNECT && c.willQos < 4 && c.keepAlive < 65536 && |FullConnectBody(c)| < TWO_BYTES
    ensures DecodeConnect(Wire(c.header, FullConnectBody(c))) == Some(c)
  {
    hide Read, LengthBytes, HeaderByte, ParseHeader, At, Str, Short, StringAt, ShortAt, Start, ConnectTail, FlagsOf, TailBytes;
    var body := FullConnectBody(c);
    var b, o := Wire(c.header, body), 1 + |LengthBytes(|body|)|;
    var flags := FlagsOf(c);
    var tail := TailBytes(c);
    ReadStart(c.header, body);
    HeaderRoundTrip(c.header);
    AtParts(b, o, Str(c.protocol) + [c.version] + [flags] + Short(c.keepAlive), tail);
    AtParts(b, o, Str(c.protocol) + [c.version] + [flags], Short(c.keepAlive));
    AtParts(b, o, Str(c.protocol) + [c.version], [flags]);
    AtParts(b, o, Str(c.protocol), [c.version]);
    ReadString(b, o, c.protocol);
    var p := o + 2 + |c.protocol|;
    AtByte(b, p, c.version);
    AtByte(b, p + 1, flags);
    ReadShort(b, p + 2, c.keepAlive);
    TailDecoded(b, p + 4, c);
  }

  // ----- what is decoded is what the bytes say -----

  lemma ShortThere(b: seq<Byte>, o: nat)
    requires ShortAt(b, o).Some?
    ensures o + 2 <= |b| && b[o..o + 2] == Short(ShortAt(b, o).value) && ShortAt(b, o).value < 65536
  {
    var n := b[o] as int * 256 + b[o + 1] as int;
    assert n / 256 == b[o] && n % 256 == b[o + 1];
  }

  lemma StringThere(b: seq<Byte>, o: nat)
    requires StringAt(b, o).Some?
    ensures var s := StringAt(b, o).value; o + 2 + |s| <= |b| && b[o..o + 2 + |s|] == Str(s)
  {
    ShortThere(b, o);
    var n := ShortAt(b, o).value;
    assert b[o..o + 2 + n] == b[o..o + 2] + b[o + 2..o + 2 + n];
  }

  // Any bytes that decode as a publish are, behind the fixed header, the bytes
  // of that publish.
  lemma PublishThere(b: seq<Byte>, m: Publish)
    requires DecodePublish(b) == Some(m)
    ensures Start(b).Some? && Start(b).value <= |b| && b[0] == HeaderByte(m.header) && b[Start(b).value..] == PublishBody(m)
  {
    hide HeaderByte, ParseHeader, Read;
    var o := Start(b).value;
    HeaderBack(b[0]);
    StringThere(b, o);
    var p := o + 2 + |m.topic|;
    ShortThere(b, p);
    assert b[o..] == b[o..p] + b[p..p + 2] + b[p + 2..];
  }

  // Any bytes that decode as a subscribe are that subscribe, perhaps with the
  // beginning of a further topic.
  lemma SubscribeThere(b: seq<Byte>, m: Subscribe)
    requires DecodeSubscribe(b) == Some(m)
    ensures m.header.kind == SUBSCRIBE && b[0] == HeaderByte(m.header) && Start(b).Some? && Start(b).value <= |b|
    ensures var o := Start(b).value; |b| - o >= |SubscribeBody(m)| && b[o..o + |SubscribeBody(m)|] == SubscribeBody(m)
  {
    hide HeaderByte, ParseHeader, Read, TopicsAt, TopicsBytes;
    var o := Start(b).value;
    HeaderBack(b[0]);
    ShortThere(b, o);
    TopicsThere(b, o + 2);
    var n := |TopicsBytes(m.topics)|;
    assert b[o..o + 2 + n] == b[o..o + 2] + b[o + 2..o + 2 + n];
  }

  lemma {:induction false} TopicsThere(b: seq<Byte>, o: nat)
    requires o <= |b|
    ensures var x := TopicsBytes(TopicsAt(b, o)); o + |x| <= |b| && b[o..o + |x|] == x
    decreases |b| - o
  {
    hide Short, TopicsBytes;
    var ts := TopicsAt(b, o);
    NothingWritten();
    if ts != [] {
      StringThere(b, o);
      var name := StringAt(b, o).value;
      var p := o + 2 + |name|;
      TopicsThere(b, p + 1);
      FirstTopicBytes(ts);
      var x := TopicsBytes(ts[1..]);
      assert b[o..p + 1 + |x|] == b[o..p] + [b[p]] + b[p + 1..p + 1 + |x|];
    }
  }

  lemma NothingWritten()
    ensures TopicsBytes([]) == []
  {
  }

  lemma {:induction false} FirstTopicBytes(ts: seq<Topic>)
    requires ts != []
    ensures TopicsBytes(ts) == Str(ts[0].name) + [ts[0].qos] + TopicsBytes(ts[1..])
  {
    hide TopicsBytes, Str;
    var n := |ts| - 1;
    var t := ts[n];
    LastTopicBytes(ts[..n], t);
    assert ts == ts[..n] + [t];
    if n == 0 {
      assert ts[..n] == [] && ts[1..] == [];
      NothingWritten();
      assert [] + Str(t.name) + [t.qos] == Str(t.name) + [t.qos] + [];
    } else {
      FirstTopicBytes(ts[..n]);
      assert ts[1..] == ts[..n][1..] + [t];
      LastTopicBytes(ts[..n][1..], t);
      Regroup(Str(ts[0].name) + [ts[0].qos], TopicsBytes(ts[..n][1..]), Str(t.name), [t.qos]);
    }
  }

  lemma Regroup(a: seq<Byte>, b: seq<Byte>, c: seq<Byte>, d: seq<Byte>)
    ensures a + b + c + d == a + (b + c + d)
  {
  }

  lemma LastTopicBytes(ts: seq<Topic>, t: Topic)
    ensures TopicsBytes(ts + [t]) == TopicsBytes(ts) + Str(t.name) + [t.qos]
  {
    assert (ts + [t])[..|ts|] == ts;
  }

  // ----- messages on the wire -----

  // A publish of "hi" to "a/b" with quality of service 1 and id 10.
  lemma PublishOnWire()
    ensures Wire(Header(PUBLISH, false, 1, false), PublishBody(Publish(Header(PUBLISH, false, 1, false), [0x61, 0x2F, 0x62], 10, [0x68, 0x69])))
      == [0x32, 9, 0, 3, 0x61, 0x2F, 0x62, 0, 10, 0x68, 0x69]
  {
  }

  // A subscribe to "a/b" with quality of service 1 and id 10.
  lemma SubscribeOnWire()
    ensures Wire(Header(SUBSCRIBE, false, 1, false), SubscribeBody(Subscribe(Header(SUBSCRIBE, false, 1, false), 10, [Topic([0x61, 0x2F, 0x62], 1)])))
      == [0x82, 8, 0, 10, 0, 3, 0x61, 0x2F, 0x62, 1]
  {
    var t := Topic([0x61, 0x2F, 0x62], 1);
    assert [t][..0] == [];
  }

  // A connect of the client "c" with a clean session.
  lemma ConnectOnWire()
    ensures Wire(Header(CONNECT, false, 0, false), ConnectBody([0x63], true))
      == [0x10, 15, 0, 6, 0x4D, 0x51, 0x49, 0x73, 0x64, 0x70, 3, 2, 0, 60, 0, 1, 0x63]
  {
  }
}
