// The framing of MQTT packets: the receive buffer of a connection.
module MqttFraming {
  import opened MqttLength

  const MAX_BUF_SIZE := 4096

  // A packet with a length field of one or two bytes.
  datatype Frame = Frame(header: Byte, body: seq<Byte>)

  function Bytes(f: Frame): (r: seq<Byte>)
    ensures |r| >= 2
  {
    [f.header] + LengthBytes(|f.body|) + f.body
  }

  ghost predicate FrameOk(f: Frame) { |f.body| < TWO_BYTES && |Bytes(f)| <= MAX_BUF_SIZE }

  function Stream(fs: seq<Frame>): seq<Byte> {
    if fs == [] then [] else Bytes(fs[0]) + Stream(fs[1..])
  }

  function Packets(fs: seq<Frame>): seq<seq<Byte>> {
    seq(|fs|, i requires 0 <= i < |fs| => Bytes(fs[i]))
  }

  // A whole packet at the start of the bytes is recognised.
  lemma WholePacket(f: Frame, rest: seq<Byte>, len: nat)
    requires FrameOk(f) && len >= |Bytes(f)|
    ensures Read(Bytes(f) + rest, len) == Got(|f.body|, |Bytes(f)| - 1 - |f.body|)
  {
    hide Read, LengthBytes;
    assert Bytes(f) + rest == [f.header] + LengthBytes(|f.body|) + (f.body + rest);
    LengthRoundTrip(f.header, |f.body|, f.body + rest, len);
  }

  // Four bytes that all say that the length goes on.
  predicate LongRun(mem: seq<Byte>) { LastByte(mem, 1) == 5 }

  // The start of a packet waits for the rest, unless the bytes that follow it
  // in the buffer, left from earlier packets, look like an endless length.
  lemma UnfinishedPacket(f: Frame, part: seq<Byte>, stale: seq<Byte>)
    requires FrameOk(f) && part < Bytes(f) && part != []
    ensures Read(part + stale, |part|) == if LongRun(part + stale) then Fail else NeedMore
  {
    hide Digits;
    var b, n := Bytes(f), |LengthBytes(|f.body|)|;
    var mem := part + stale;
    var k := LastByte(mem, 1);
    if k < 5 && |part| > n {
      assert LengthBytes(|f.body|) <= mem[1..] by {
        assert b[1..n + 1] == LengthBytes(|f.body|);
        assert mem[1..n + 1] == b[1..n + 1];
      }
      LengthEnds(mem, 1, |f.body|);
      assert mem[1..k + 1] == LengthBytes(|f.body|);
      ShortLength(|f.body|);
    } else if k < 5 && k < |part| {
      assert |part| <= n;
      FieldGoesOn(f, part, k);
    }
  }

  // Stale bytes that do this to the first two bytes of a packet.
  lemma EndlessLength(f: Frame, beyond: seq<Byte>)
    requires FrameOk(f) && |f.body| >= 128
    ensures var part := Bytes(f)[..2]; LongRun(part + [0x80, 0x80, 0x80] + beyond)
  {
    var mem := Bytes(f)[..2] + [0x80, 0x80, 0x80] + beyond;
    assert mem[1] == LengthBytes(|f.body|)[0] >= 128;
    assert mem[2] == mem[3] == mem[4] == 0x80;
  }

  // No byte before the last of the length field ends it.
  lemma FieldGoesOn(f: Frame, part: seq<Byte>, k: nat)
    requires part <= Bytes(f) && 1 <= k < |part| <= |LengthBytes(|f.body|)| && |f.body| < TWO_BYTES
    ensures part[k] >= 128
  {
    var n := |f.body|;
    ShortLength(n);
    assert part[k] == Bytes(f)[k] == LengthBytes(n)[k - 1];
  }

  // The bytes of the first frame, as far as they are there.
  lemma FirstFrame(fs: seq<Frame>, x: seq<Byte>)
    requires x <= Stream(fs) && x != []
    ensures fs != []
    ensures |x| >= |Bytes(fs[0])| ==> x == Bytes(fs[0]) + x[|Bytes(fs[0])|..] && x[|Bytes(fs[0])|..] <= Stream(fs[1..])
    ensures |x| < |Bytes(fs[0])| ==> x < Bytes(fs[0])
  {
    hide Bytes;
    var b := Bytes(fs[0]);
    var s := b + Stream(fs[1..]);
    assert x == s[..|x|];
    if |x| >= |b| {
      assert x[..|b|] == b;
      assert x[|b|..] == Stream(fs[1..])[..|x| - |b|];
    } else {
      assert x == b[..|x|];
    }
  }

  lemma PacketsGrow(fs: seq<Frame>, k: nat)
    requires k < |fs|
    ensures Packets(fs[..k + 1]) == Packets(fs[..k]) + [Bytes(fs[k])] && fs[k..][1..] == fs[k + 1..]
  {
    hide Bytes;
  }

  lemma StreamNone(fs: seq<Frame>, d: nat)
    requires d <= |fs|
    ensures Stream(fs[d..d]) == []
  {
  }

  lemma {:induction false} StreamGrows(fs: seq<Frame>, d: nat, k: nat)
    requires d <= k < |fs|
    ensures Stream(fs[d..k + 1]) == Stream(fs[d..k]) + Bytes(fs[k])
    decreases k - d
  {
    hide Bytes;
    if d == k {
      assert fs[k..k + 1] == [fs[k]] && [fs[k]][1..] == [];
    } else {
      StreamGrows(fs, d + 1, k);
      assert fs[d..k + 1][1..] == fs[d + 1..k + 1] && fs[d..k][1..] == fs[d + 1..k];
    }
  }

  // The bytes up to offset are frames d to done, and those from there on are
  // the start of the rest.
  ghost predicate Progress(mem: seq<Byte>, len: nat, offset: nat, plan: seq<Frame>, d: nat, done: nat)
    requires offset <= len <= |mem| && d <= done <= |plan|
  {
    mem[..len] == Stream(plan[d..done]) + mem[offset..len] && mem[offset..len] <= Stream(plan[done..])
  }

  lemma ProgressStarts(mem: seq<Byte>, len: nat, plan: seq<Frame>, d: nat)
    requires len <= |mem| && d <= |plan| && mem[..len] <= Stream(plan[d..])
    ensures Progress(mem, len, 0, plan, d, d)
  {
    hide Stream;
    StreamNone(plan, d);
    assert mem[0..len] == mem[..len];
    assert [] + mem[..len] == mem[..len];
  }

  lemma ProgressMeans(mem: seq<Byte>, len: nat, offset: nat, plan: seq<Frame>, d: nat, done: nat)
    requires offset <= len <= |mem| && d <= done <= |plan| && Progress(mem, len, offset, plan, d, done)
    ensures mem[..len] == Stream(plan[d..done]) + mem[offset..len] && mem[offset..len] <= Stream(plan[done..])
    ensures offset == len ==> mem[offset..len] == []
  {
  }

  lemma ProgressStep(mem: seq<Byte>, len: nat, offset: nat, plan: seq<Frame>, d: nat, done: nat, total: nat)
    requires offset + total <= len <= |mem| && d <= done < |plan| && Progress(mem, len, offset, plan, d, done)
    requires mem[offset..offset + total] == Bytes(plan[done]) && mem[offset + total..len] <= Stream(plan[done + 1..])
    ensures Progress(mem, len, offset + total, plan, d, done + 1)
  {
    hide Stream, Bytes;
    StreamGrows(plan, d, done);
    assert mem[offset..len] == mem[offset..offset + total] + mem[offset + total..len];
  }

  // What remain_length finds at the start of x, with `stale` behind it.
  lemma Look(f: Frame, x: seq<Byte>, stale: seq<Byte>)
    requires FrameOk(f) && x != [] && (Bytes(f) <= x || x < Bytes(f))
    ensures Bytes(f) <= x ==> Read(x + stale, |x|) == Got(|f.body|, |Bytes(f)| - 1 - |f.body|)
    ensures x < Bytes(f) ==> Read(x + stale, |x|) == if LongRun(x + stale) then Fail else NeedMore
  {
    hide Read, Bytes, LongRun, FrameOk;
    if Bytes(f) <= x {
      var rest := x[|Bytes(f)|..];
      assert x + stale == Bytes(f) + (rest + stale);
      WholePacket(f, rest + stale, |x|);
    } else {
      UnfinishedPacket(f, x, stale);
    }
  }

  lemma ShortTail(f: Frame, x: seq<Byte>)
    requires FrameOk(f) && x < Bytes(f)
    ensures |x| < MAX_BUF_SIZE
  {
  }

  class Connection {
    const buf: array<Byte>
    var pos: nat
    var handed: seq<seq<Byte>>      // packets given to process so far

    ghost const plan: seq<Frame>    // what the peer sends
    ghost var done: nat             // frames handed over

    constructor (ghost frames: seq<Frame>)
      requires forall i :: 0 <= i < |frames| ==> FrameOk(frames[i])
      ensures Valid() && fresh(buf) && plan == frames && handed == [] && pos == 0 && done == 0
    {
      buf := new Byte[MAX_BUF_SIZE];
      pos, handed, plan, done := 0, [], frames, 0;
      new;
      assert Packets(plan[..0]) == [] && buf[..0] == [];
    }

    // Exactly the complete packets have been handed over, in order, and the
    // buffer holds exactly the start of the next one.
    ghost predicate Valid()
      reads this, buf
    {
      && buf.Length == MAX_BUF_SIZE && pos < MAX_BUF_SIZE && done <= |plan|
      && (forall i :: 0 <= i < |plan| ==> FrameOk(plan[i]))
      && handed == Packets(plan[..done])
      && buf[..pos] <= Stream(plan[done..])
      && (if done < |plan| then pos < |Bytes(plan[done])| else pos == 0)
    }

    // handle_input: what read() delivers, at most as much as there is room for,
    // goes behind the bytes left from the last time. `beyond` are the bytes in
    // memory after the buffer, which the search for the length may look at.
    method Receive(data: seq<Byte>, beyond: seq<Byte>) returns (code: int, ghost tail: seq<Byte>)
      requires Valid() && 0 < |data| <= MAX_BUF_SIZE - pos && |beyond| == 4
      requires buf[..pos] + data <= Stream(plan[done..])
      modifies this, buf
      ensures old(done) <= done <= |plan| && handed == Packets(plan[..done])
      ensures old(buf[..pos]) + data == Stream(plan[old(done)..done]) + tail
      ensures if done < |plan| then tail < Bytes(plan[done]) else tail == []
      ensures code == if tail != [] && LongRun(tail + old(buf[pos + |data|..]) + beyond) then -1 else 0
      ensures code == 0 ==> Valid() && buf[..pos] == tail
    {
      hide Stream, Bytes, FrameOk, LongRun;
      ghost var all, spare := buf[..pos] + data, buf[pos + |data|..];
      forall i | 0 <= i < |data| { buf[pos + i] := data[i]; }
      pos := pos + |data|;
      assert buf[..pos] == all;
      assert buf[..] == all + spare;
      code, tail := ProcessMqtt(beyond);
    }

    // process_mqtt: hands over the complete packets, and moves the start of the
    // next one to the start of the buffer.
    method ProcessMqtt(beyond: seq<Byte>) returns (code: int, ghost tail: seq<Byte>)
      requires buf.Length == MAX_BUF_SIZE && pos <= MAX_BUF_SIZE && |beyond| == 4 && done <= |plan|
      requires (forall i :: 0 <= i < |plan| ==> FrameOk(plan[i])) && handed == Packets(plan[..done])
      requires buf[..pos] <= Stream(plan[done..])
      modifies this, buf
      ensures old(done) <= done <= |plan| && handed == Packets(plan[..done])
      ensures old(buf[..pos]) == Stream(plan[old(done)..done]) + tail
      ensures if done < |plan| then tail < Bytes(plan[done]) else tail == []
      ensures code == if tail != [] && LongRun(tail + old(buf[pos..]) + beyond) then -1 else 0
      ensures code == 0 ==> Valid() && buf[..pos] == tail
    {
      hide Stream, Bytes, FrameOk, LongRun, Packets, Progress;
      var len, offset := pos, 0;
      ghost var mem, d := buf[..], done;
      ProgressStarts(mem, len, plan, d);
      assert mem[..len] == buf[..len];
      while offset < len
        invariant offset <= len == pos == old(pos) && buf[..] == mem && d <= done <= |plan|
        invariant handed == Packets(plan[..done]) && Progress(mem, len, offset, plan, d, done)
      {
        ProgressMeans(mem, len, offset, plan, d, done);
        assert buf[offset..len] == mem[offset..len] && buf[len..] == mem[len..];
        var found, total := FindPacket(offset, len, beyond);
        if found == NEED_MORE_DATA {
          tail := mem[offset..len];
          ShortTail(plan[done], tail);
          MoveDown(offset, len);
          return 0, tail;
        } else if found == FAILURE {
          return -1, mem[offset..len];
        }
        assert buf[offset..offset + total] == mem[offset..offset + total];
        assert buf[offset + total..len] == mem[offset + total..len];
        ProgressStep(mem, len, offset, plan, d, done, total);
        handed := handed + [buf[offset..offset + total]];
        PacketsGrow(plan, done);
        done := done + 1;
        offset := offset + total;
      }
      ProgressMeans(mem, len, offset, plan, d, done);
      pos := 0;
      return 0, [];
    }

    // What the loop finds at an offset: a whole packet, or the start of one.
    method FindPacket(offset: nat, len: nat, beyond: seq<Byte>) returns (code: int, total: nat)
      requires buf.Length == MAX_BUF_SIZE && offset < len <= MAX_BUF_SIZE && |beyond| == 4 && done <= |plan|
      requires (forall i :: 0 <= i < |plan| ==> FrameOk(plan[i])) && buf[offset..len] <= Stream(plan[done..])
      ensures done < |plan|
      ensures code >= 0 ==>
        && offset + total <= len && buf[offset..offset + total] == Bytes(plan[done])
        && buf[offset + total..len] <= Stream(plan[done + 1..])
      ensures code < 0 ==>
        && buf[offset..len] < Bytes(plan[done])
        && code == if LongRun(buf[offset..len] + buf[len..] + beyond) then FAILURE else NEED_MORE_DATA
    {
      hide Stream, Bytes, FrameOk, LongRun, Read;
      var value, count;
      code, value, count := RemainLength(buf[offset..] + beyond, len - offset);
      total := value + count + 1;
      ghost var x := buf[offset..len];
      assert buf[offset..] + beyond == x + (buf[len..] + beyond) == x + buf[len..] + beyond;
      FirstFrame(plan[done..], x);
      Look(plan[done], x, buf[len..] + beyond);
      assert plan[done..][1..] == plan[done + 1..];
      if code >= 0 {
        assert buf[offset..offset + total] == x[..total];
        assert buf[offset + total..len] == x[total..];
      }
    }

    // memmove
    method MoveDown(offset: nat, len: nat)
      requires buf.Length == MAX_BUF_SIZE && offset <= len <= MAX_BUF_SIZE && pos == len
      modifies `pos, buf
      ensures pos == len - offset && buf[..pos] == old(buf[offset..len])
    {
      if offset != 0 {
        forall i | 0 <= i < len - offset { buf[i] := buf[offset + i]; }
        pos := len - offset;
      }
    }
  }
}
