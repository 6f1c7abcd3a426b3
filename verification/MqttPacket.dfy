// Reading and writing MQTT messages in a packet buffer with a cursor.
module MqttPacket {
  import opened Options
  import opened MqttLength
  import opened MqttCodec

  class Packet {
    const buf: array<Byte>
    const maxSize: nat
    var offset: nat

    constructor (buf: array<Byte>, len: nat)
      requires len <= buf.Length
      ensures Valid() && offset == 0 && this.buf == buf && maxSize == len
    {
      this.buf, maxSize, offset := buf, len, 0;
    }

    ghost predicate Valid()
      reads this
    {
      offset <= maxSize <= buf.Length
    }

    // ----- writing -----

    // E has been written, as far as all of it fitted: writes that did not fit
    // were skipped, and the cursor tells.
    ghost predicate Tracks(E: seq<Byte>)
      reads this, buf
    {
      && Valid() && offset <= |E|
      && (offset == |E| <==> |E| <= maxSize)
      && (offset == |E| ==> buf[..offset] == E)
    }

    method WriteBytes(x: seq<Byte>, ghost E: seq<Byte>) returns (ok: bool)
      requires Tracks(E)
      modifies this, buf
      ensures Tracks(E + x) && (ok <==> old(offset) + |x| <= maxSize)
      ensures offset == if ok then old(offset) + |x| else old(offset)
    {
      if maxSize - offset < |x| { return false; }
      ghost var before := buf[..offset];
      var i := 0;
      while i < |x|
        invariant 0 <= i <= |x| && offset == old(offset) && buf[..offset] == before && buf[offset..offset + i] == x[..i]
      {
        buf[offset + i] := x[i];
        i := i + 1;
      }
      assert buf[..offset + |x|] == buf[..offset] + buf[offset..offset + |x|];
      offset := offset + |x|;
      return true;
    }

    method WriteShort(n: nat, ghost E: seq<Byte>) returns (ok: bool)
      requires Tracks(E)
      modifies this, buf
      ensures Tracks(E + Short(n)) && (ok <==> old(offset) + 2 <= maxSize)
      ensures offset == if ok then old(offset) + 2 else old(offset)
    {
      ok := WriteBytes([n / 256 % 256, n % 256], E);
    }

    // The length is written in 16 bits, and without it nothing is.
    method WriteString(s: seq<Byte>, ghost E: seq<Byte>)
      requires Tracks(E)
      modifies this, buf
      ensures Tracks(E + Str(s))
    {
      hide Short;
      var ok := WriteShort(|s|, E);
      assert E + Str(s) == E + Short(|s|) + s;
      if ok { ok := WriteBytes(s, E + Short(|s|)); }
    }

    // The length is written without looking at the size of the buffer.
    method WriteRemainLength(n: nat, ghost E: seq<Byte>)
      requires Tracks(E) && offset == |E| && offset + |LengthBytes(n)| <= maxSize
      modifies this, buf
      ensures Tracks(E + LengthBytes(n)) && offset == old(offset) + |LengthBytes(n)|
    {
      hide LengthBytes;
      ghost var before := buf[..offset];
      var count := WriteLength(buf, offset, n);
      assert buf[..offset] == before;
      assert buf[..offset + count] == buf[..offset] + buf[offset..offset + count];
      offset := offset + count;
    }

    // CMqttMsg::encode and the remaining length.
    method WriteStart(h: Header, n: nat) returns (ghost E: seq<Byte>)
      requires Valid() && offset == 0 && 1 + |LengthBytes(n)| <= maxSize
      modifies this, buf
      ensures E == [HeaderByte(h)] + LengthBytes(n) && Tracks(E) && offset == |E|
    {
      hide HeaderByte, LengthBytes;
      var _ := WriteBytes([HeaderByte(h)], []);
      assert [] + [HeaderByte(h)] == [HeaderByte(h)];
      WriteRemainLength(n, [HeaderByte(h)]);
      E := [HeaderByte(h)] + LengthBytes(n);
    }

    // CMqttPublish::encode: the length of the packet if every field fitted.
    method EncodePublish(m: Publish) returns (code: int)
      requires Valid() && offset == 0 && 1 + |LengthBytes(|PublishBody(m)|)| <= maxSize
      modifies this, buf
      ensures var wire := Wire(m.header, PublishBody(m));
        if |wire| <= maxSize then code == |wire| && offset == |wire| && buf[..offset] == wire else code == -1
    {
      hide LengthBytes, HeaderByte, Str, Short;
      var n := |m.topic| + 2 + 2 + |m.payload|;
      ghost var E := WriteStart(m.header, n);
      ghost var start := E;
      WriteString(m.topic, E);
      E := E + Str(m.topic);
      var ok := WriteShort(m.id, E);
      E := E + Short(m.id);
      ok := WriteBytes(m.payload, E);
      E := E + m.payload;
      assert E == start + PublishBody(m);
      code := if offset == |LengthBytes(n)| + n + 1 then offset else -1;
    }

    // CMqttSubscribe::encode
    method EncodeSubscribe(m: Subscribe) returns (code: int)
      requires Valid() && offset == 0 && 1 + |LengthBytes(|SubscribeBody(m)|)| <= maxSize
      modifies this, buf
      ensures var wire := Wire(m.header, SubscribeBody(m));
        if m.topics != [] && |wire| <= maxSize then code == |wire| && offset == |wire| && buf[..offset] == wire else code == -1
    {
      hide LengthBytes, HeaderByte, Str, Short, TopicsBytes;
      if m.topics == [] { return -1; }
      var n := PayloadLength(m.topics);
      n := n + 2;
      ghost var E := WriteStart(m.header, n);
      ghost var start := E;
      var ok := WriteShort(m.id, E);
      E := E + Short(m.id);
      ghost var head := E;
      var i := 0;
      NoTopicsBytes(m.topics);
      while i < |m.topics|
        invariant 0 <= i <= |m.topics| && E == head + TopicsBytes(m.topics[..i]) && Tracks(E)
      {
        var t := m.topics[i];
        TopicsSnoc(m.topics, i);
        assert head + TopicsBytes(m.topics[..i + 1]) == E + Str(t.name) + [t.qos];
        WriteString(t.name, E);
        E := E + Str(t.name);
        ok := WriteBytes([t.qos], E);
        E := E + [t.qos];
        i := i + 1;
      }
      assert m.topics[..i] == m.topics;
      assert E == start + SubscribeBody(m);
      code := if offset == |LengthBytes(n)| + n + 1 then offset else -1;
    }

    // CMqttConnect::encode, which does not notice a field that did not fit.
    method EncodeConnect(h: Header, client: seq<Byte>, clean: bool) returns (code: int)
      requires Valid() && offset == 0 && 1 + |LengthBytes(|ConnectBody(client, clean)|)| <= maxSize
      modifies this, buf
      ensures code == offset
      ensures var wire := Wire(h, ConnectBody(client, clean));
        if |wire| <= maxSize then code == |wire| && buf[..offset] == wire else code < |wire|
    {
      hide LengthBytes, HeaderByte, Str, Short;
      var n := 2 + |PROTOCOL| + 1 + 1 + 2 + 2 + |client|;
      ghost var E := WriteStart(h, n);
      ghost var start := E;
      WriteString(PROTOCOL, E);
      E := E + Str(PROTOCOL);
      var ok := WriteBytes([VERSION], E);
      E := E + [VERSION];
      var flags: Byte := if clean then 2 else 0;
      ok := WriteBytes([flags], E);
      E := E + [flags];
      ok := WriteShort(KEEP_ALIVE, E);
      E := E + Short(KEEP_ALIVE);
      WriteString(client, E);
      E := E + Str(client);
      assert E == start + ConnectBody(client, clean);
      code := offset;
    }

    // ----- reading -----

    method ReadByte() returns (r: Option<Byte>)
      requires Valid()
      modifies `offset
      ensures Valid() && r == (if old(offset) < maxSize then Some(buf[old(offset)]) else None)
      ensures offset == if r.Some? then old(offset) + 1 else old(offset)
    {
      if maxSize - offset < 1 { return None; }
      offset := offset + 1;
      return Some(buf[offset - 1]);
    }

    method ReadBytes(len: nat) returns (r: Option<seq<Byte>>)
      requires Valid()
      modifies `offset
      ensures Valid() && r == (if old(offset) + len <= maxSize then Some(buf[old(offset)..old(offset) + len]) else None)
      ensures offset == if r.Some? then old(offset) + len else old(offset)
    {
      if maxSize - offset < len { return None; }
      var payload: seq<Byte> := [];
      for i := 0 to len
        invariant payload == buf[offset..offset + i]
      {
        payload := payload + [buf[offset + i]];
      }
      offset := offset + len;
      return Some(payload);
    }

    method ReadShort() returns (r: Option<nat>)
      requires Valid()
      modifies `offset
      ensures Valid() && r == ShortAt(buf[..maxSize], old(offset))
      ensures offset == if r.Some? then old(offset) + 2 else old(offset)
    {
      if maxSize - offset < 2 { return None; }
      offset := offset + 2;
      return Some(buf[offset - 2] as int * 256 + buf[offset - 1]);
    }

    method ReadString() returns (r: Option<seq<Byte>>)
      requires Valid()
      modifies `offset
      ensures Valid() && r == StringAt(buf[..maxSize], old(offset))
      ensures r.Some? ==> offset == old(offset) + 2 + |r.value|
      ensures offset >= old(offset)
    {
      var n := ReadShort();
      if n == None || maxSize - offset < n.value { return None; }
      r := Some(buf[offset..offset + n.value]);
      assert buf[..maxSize][offset..offset + n.value] == buf[offset..offset + n.value];
      offset := offset + n.value;
    }

    // CMqttMsg::decode, with read_remain_length.
    method ReadStart() returns (h: Option<Header>)
      requires Valid() && offset == 0 && Readable(buf[..])
      modifies `offset
      ensures Valid() && h == (if Start(buf[..maxSize]).Some? then Some(ParseHeader(buf[0])) else None)
      ensures h.Some? ==> maxSize >= 3 && offset == Start(buf[..maxSize]).value
    {
      hide Read, ParseHeader;
      var b := ReadByte();
      if b == None || maxSize - offset < 2 { return None; }
      var code, value, count := RemainLength(buf[..], maxSize);
      ReadLocal(buf[..], maxSize);
      assert buf[..][..maxSize] == buf[..maxSize];
      GotFits(buf[..maxSize]);
      if code < 0 { return None; }
      offset := offset + count;
      return Some(ParseHeader(b.value));
    }

    // CMqttPublish::decode
    method DecodePublish() returns (m: Option<Publish>)
      requires Valid() && offset == 0 && Readable(buf[..])
      modifies `offset
      ensures m == MqttCodec.DecodePublish(buf[..maxSize])
    {
      hide Start, ParseHeader, StringAt, ShortAt;
      var h := ReadStart();
      if h == None { return None; }
      var topic := ReadString();
      if topic == None { return None; }
      var id := ReadShort();
      if id == None { return None; }
      ghost var p := offset;
      var payload := ReadBytes(maxSize - offset);
      assert buf[..maxSize][p..] == buf[p..maxSize];
      return Some(Publish(h.value, topic.value, id.value, payload.value));
    }

    // CMqttSubscribe::decode: topics until one is incomplete.
    method DecodeSubscribe() returns (m: Option<Subscribe>)
      requires Valid() && offset == 0 && Readable(buf[..])
      modifies `offset
      ensures m == MqttCodec.DecodeSubscribe(buf[..maxSize])
    {
      hide Start, ParseHeader, StringAt, ShortAt;
      var h := ReadStart();
      if h == None { return None; }
      assert buf[..maxSize][0] == buf[0];
      if h.value.kind != SUBSCRIBE { return None; }
      var id := ReadShort();
      if id == None { return None; }
      var topics := ReadTopics();
      return Some(Subscribe(h.value, id.value, topics));
    }

    method ReadTopics() returns (topics: seq<Topic>)
      requires Valid()
      modifies `offset
      ensures topics == TopicsAt(buf[..maxSize], old(offset))
    {
      hide TopicsAt;
      topics := [];
      ghost var rest := TopicsAt(buf[..maxSize], offset);
      var t := ReadTopic();
      while t.Some?
        invariant Valid() && topics + rest == TopicsAt(buf[..maxSize], old(offset))
        invariant if t.Some? then rest == [t.value] + TopicsAt(buf[..maxSize], offset) else rest == []
        decreases maxSize - offset, t.Some?
      {
        topics := topics + [t.value];
        rest := rest[1..];
        t := ReadTopic();
      }
    }

    // One topic with its qos.
    method ReadTopic() returns (t: Option<Topic>)
      requires Valid()
      modifies `offset
      ensures Valid() && offset >= old(offset) && (t.Some? ==> offset > old(offset))
      ensures TopicsAt(buf[..maxSize], old(offset)) == if t.Some? then [t.value] + TopicsAt(buf[..maxSize], offset) else []
    {
      hide StringAt, TopicsAt;
      NextTopic(buf[..maxSize], offset);
      var name := ReadString();
      if name == None { return None; }
      var qos := ReadByte();
      if qos == None { return None; }
      return Some(Topic(name.value, qos.value));
    }

    // A string that is read only if its flag is set.
    method ReadIf(present: bool) returns (r: Option<seq<Byte>>)
      requires Valid()
      modifies `offset
      ensures Valid() && r == MaybeString(buf[..maxSize], old(offset), present)
      ensures r.Some? ==> offset == After(old(offset), r.value, present)
    {
      if present { r := ReadString(); } else { r := Some([]); }
    }

    // CMqttConnect::decode
    method DecodeConnect() returns (m: Option<Connect>)
      requires Valid() && offset == 0 && Readable(buf[..])
      modifies `offset
      ensures m == MqttCodec.DecodeConnect(buf[..maxSize])
    {
      hide Start, ParseHeader, StringAt, ShortAt, ConnectTail;
      var h := ReadStart();
      if h == None || h.value.kind != CONNECT { return None; }
      var protocol := ReadString();
      if protocol == None { return None; }
      var version := ReadByte();
      if version == None { return None; }
      var flags := ReadByte();
      if flags == None { return None; }
      var keepAlive := ReadShort();
      if keepAlive == None { return None; }
      m := ReadTail(h.value, protocol.value, version.value, flags.value, keepAlive.value);
    }

    method ReadTail(h: Header, protocol: seq<Byte>, version: Byte, flags: Byte, keepAlive: nat) returns (m: Option<Connect>)
      requires Valid()
      modifies `offset
      ensures m == ConnectTail(buf[..maxSize], old(offset), h, protocol, version, flags, keepAlive)
    {
      hide StringAt, MaybeString, Bit, After;
      var client := ReadString();
      if client == None { return None; }
      var will, name, pass := Bit(flags, 4), Bit(flags, 128), Bit(flags, 64);
      var topic := ReadIf(will);
      if topic == None { return None; }
      var message := ReadIf(will);
      if message == None { return None; }
      var user := ReadIf(name);
      if user == None { return None; }
      var password := ReadIf(pass);
      if password == None { return None; }
      return Some(Connect(h, protocol, version, Bit(flags, 2), keepAlive, client.value,
                          if will then Some(Will(topic.value, message.value)) else None,
                          if name then Some(user.value) else None, if pass then Some(password.value) else None,
                          flags / 8 % 4, Bit(flags, 32)));
    }
  }

  lemma NextTopic(b: seq<Byte>, o: nat)
    ensures var name := StringAt(b, o);
      TopicsAt(b, o) ==
        if name.Some? && o + 2 + |name.value| < |b|
        then [Topic(name.value, b[o + 2 + |name.value|])] + TopicsAt(b, o + 2 + |name.value| + 1)
        else []
  {
  }

  lemma GotFits(b: seq<Byte>)
    ensures Read(b, |b|).Got? ==> 1 + Read(b, |b|).count <= |b|
  {
  }

  lemma NoTopicsBytes(ts: seq<Topic>)
    ensures TopicsBytes(ts[..0]) == []
  {
  }

  // The loop that adds up the lengths of the topics.
  method PayloadLength(ts: seq<Topic>) returns (n: nat)
    ensures n == |TopicsBytes(ts)|
  {
    n := 0;
    var i := 0;
    while i < |ts|
      invariant 0 <= i <= |ts| && n == |TopicsBytes(ts[..i])|
    {
      assert ts[..i + 1][..i] == ts[..i];
      n := n + |ts[i].name| + 2 + 1;
      i := i + 1;
    }
    assert ts[..i] == ts;
  }
}
