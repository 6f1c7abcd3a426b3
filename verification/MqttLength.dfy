// The remaining length of MQTT packets (section 2.2.3 of MQTT 3.1.1), as it is
// written and as it is read.
module MqttLength {
  import opened Arithmetic
  import PowersOfTwo

  type Byte = x: int | 0 <= x < 256

  const FAILURE := -1
  const NEED_MORE_DATA := -2
  const MAX_LENGTH_BYTES := 4
  const TWO_BYTES := 16384

  // Bitwise or of 32-bit numbers.
  function Or(a: nat, b: nat): nat { OrOf(a, b, 32) }

  function OrOf(a: nat, b: nat, width: nat): nat {
    PowersOfTwo.Value(PowersOfTwo.Or(PowersOfTwo.Bits(a, width), PowersOfTwo.Bits(b, width)))
  }

  // Bit by bit.
  lemma OrStep(a: nat, b: nat, width: nat)
    requires width > 0
    ensures OrOf(a, b, width) == (if a % 2 == 1 || b % 2 == 1 then 1 else 0) + 2 * OrOf(a / 2, b / 2, width - 1)
  {
    var u, v := PowersOfTwo.Bits(a, width), PowersOfTwo.Bits(b, width);
    assert PowersOfTwo.Or(u, v)[1..] == PowersOfTwo.Or(u[1..], v[1..]);
    assert u[1..] == PowersOfTwo.Bits(a / 2, width - 1) && v[1..] == PowersOfTwo.Bits(b / 2, width - 1);
  }

  lemma {:induction false} OrBound(a: nat, b: nat, k: nat, width: nat)
    requires a < Pow2(k) && b < Pow2(k) && k <= width
    ensures OrOf(a, b, width) < Pow2(k)
    decreases width
  {
    if k == 0 {
      OrDisjoint(0, 0, 0, width);
    } else {
      OrStep(a, b, width);
      OrBound(a / 2, b / 2, k - 1, width - 1);
    }
  }

  // Or of numbers without common bits.
  lemma {:induction false} OrDisjoint(hi: nat, lo: nat, k: nat, width: nat)
    requires lo < Pow2(k) && hi * Pow2(k) < Pow2(width) && k <= width
    ensures OrOf(hi * Pow2(k), lo, width) == hi * Pow2(k) + lo
    decreases width
  {
    if width == 0 {
      assert hi * Pow2(0) == hi;
    } else if k == 0 {
      assert hi * Pow2(0) == hi && hi / 2 * Pow2(0) == hi / 2;
      OrStep(hi, 0, width);
      OrDisjoint(hi / 2, 0, 0, width - 1);
    } else {
      var a := hi * Pow2(k - 1);
      assert hi * Pow2(k) == 2 * a;
      OrStep(2 * a, lo, width);
      OrDisjoint(hi, lo / 2, k - 1, width - 1);
    }
  }
  // ----- writing -----

  function LengthBytes(n: nat): (r: seq<Byte>)
    ensures |r| > 0
  {
    if n < 128 then [n] else [n % 128 + 128] + LengthBytes(n / 128)
  }

  // The loop of write_remain_length.
  method WriteLength(buf: array<Byte>, offset: nat, length: nat) returns (count: nat)
    requires offset + |LengthBytes(length)| <= buf.Length
    modifies buf
    ensures count == |LengthBytes(length)| && buf[offset..offset + count] == LengthBytes(length)
    ensures buf[..offset] == old(buf[..offset]) && buf[offset + count..] == old(buf[offset + count..])
  {
    hide LengthBytes, Overlaid;
    count := 0;
    ghost var m := buf[..];
    ghost var all := LengthBytes(length);
    OverlaidNone(m, offset, all);
    var rest, more := length, true;
    while more
      invariant 0 <= count <= |all| && all[count..] == if more then LengthBytes(rest) else []
      invariant buf[..] == Overlaid(m, offset, all, count)
      decreases more, rest
    {
      NextDigit(rest);
      assert all[count..][0] == all[count] && all[count..][1..] == all[count + 1..];
      OverlaidMore(m, offset, all, count);
      var digit := rest % 128;
      rest := rest / 128;
      buf[offset + count] := if rest > 0 then digit + 128 else digit;
      count := count + 1;
      more := rest > 0;
    }
    OverlaidParts(m, offset, all, buf[..]);
  }

  // m with the first k of the bytes x from position o on.
  ghost function Overlaid(m: seq<Byte>, o: nat, x: seq<Byte>, k: nat): seq<Byte>
    requires o + |x| <= |m| && k <= |x|
  {
    m[..o] + x[..k] + m[o + k..]
  }

  lemma OverlaidNone(m: seq<Byte>, o: nat, x: seq<Byte>)
    requires o + |x| <= |m|
    ensures Overlaid(m, o, x, 0) == m
  {
  }

  lemma OverlaidMore(m: seq<Byte>, o: nat, x: seq<Byte>, k: nat)
    requires o + |x| <= |m| && k < |x|
    ensures |Overlaid(m, o, x, k)| == |m| && Overlaid(m, o, x, k)[o + k := x[k]] == Overlaid(m, o, x, k + 1)
  {
  }

  lemma OverlaidParts(m: seq<Byte>, o: nat, x: seq<Byte>, r: seq<Byte>)
    requires o + |x| <= |m| && r == Overlaid(m, o, x, |x|)
    ensures |r| == |m| && r[..o] == m[..o] && r[o..o + |x|] == x && r[o + |x|..] == m[o + |x|..]
  {
  }

  lemma NextDigit(n: nat)
    ensures LengthBytes(n) == [if n / 128 > 0 then n % 128 + 128 else n % 128] + if n / 128 > 0 then LengthBytes(n / 128) else []
  {
  }

  // ----- reading -----

  // What remain_length computes: the last byte is the first one below 128, of
  // at most four; every byte after the first is shifted by 7.
  datatype Reading = Fail | NeedMore | Got(value: nat, count: nat)

  function Digits(ds: seq<Byte>): nat
    requires ds != []
  {
    var last := |ds| - 1;
    var d: nat := ds[last] % 128;
    if last == 0 then d else Or(d * 128, Digits(ds[..last]))
  }

  // The position of the last length byte in mem, from position i on, or 5.
  function LastByte(mem: seq<Byte>, i: nat): (k: nat)
    requires 1 <= i <= 5
    ensures i <= k <= 5 && (k < 5 ==> k < |mem| && mem[k] < 128)
    ensures forall j :: i <= j < k && j < |mem| ==> mem[j] >= 128
    decreases 5 - i
  {
    if i == 5 || i >= |mem| then 5 else if mem[i] < 128 then i else LastByte(mem, i + 1)
  }

  // The bytes that remain_length looks at exist, whatever len says.
  predicate Readable(mem: seq<Byte>) { |mem| >= 5 || LastByte(mem, 1) < 5 }

  function Read(mem: seq<Byte>, len: nat): Reading {
    var k := LastByte(mem, 1);
    if k == 5 then Fail
    else
      var v := Digits(mem[1..k + 1]);
      if v + k + 1 > len then NeedMore else Got(v, k)
  }

  lemma OneDigit(mem: seq<Byte>)
    requires |mem| >= 2
    ensures Digits(mem[1..2]) == mem[1] % 128
  {
  }

  lemma MoreDigits(mem: seq<Byte>, k: nat)
    requires 1 <= k && k + 1 < |mem|
    ensures Digits(mem[1..k + 2]) == Or((mem[k + 1] % 128) as nat * 128, Digits(mem[1..k + 1]))
  {
    assert mem[1..k + 2][..k] == mem[1..k + 1] && mem[1..k + 2][k] == mem[k + 1];
  }

  // remain_length
  method RemainLength(mem: seq<Byte>, len: nat) returns (code: int, value: nat, count: nat)
    requires Readable(mem)
    ensures match Read(mem, len)
      case Fail => code == FAILURE
      case NeedMore => code == NEED_MORE_DATA
      case Got(v, k) => code == v && value == v && count == k
  {
    value, count := 0, 0;
    hide Digits;
    var offset, found := 0, false;
    while offset < MAX_LENGTH_BYTES
      invariant offset <= MAX_LENGTH_BYTES && LastByte(mem, 1) == LastByte(mem, offset + 1)
      invariant offset > 0 ==> offset < |mem| && value == Digits(mem[1..offset + 1])
      invariant !found
    {
      var byte := mem[offset + 1];
      var d: nat := byte % 128;
      if offset > 0 { MoreDigits(mem, offset); }
      else { OneDigit(mem); }
      value := if offset == 0 then d else Or(d * 128, value);
      if byte < 128 {
        found := true;
        break;
      }
      offset := offset + 1;
    }
    if !found { return FAILURE, value, count; }
    count := offset + 1;
    code := if value + count + 1 > len then NEED_MORE_DATA else value;
  }

  // A length field within the first len bytes is the same with or without the
  // bytes that follow.
  lemma {:induction false} LastByteLocal(mem: seq<Byte>, len: nat, i: nat)
    requires len <= |mem| && 1 <= i <= 5
    ensures LastByte(mem[..len], i) < 5 ==> LastByte(mem, i) == LastByte(mem[..len], i) < len
    ensures LastByte(mem, i) < len && LastByte(mem, i) < 5 ==> LastByte(mem[..len], i) == LastByte(mem, i)
    decreases 5 - i
  {
    if i < 5 && i < len { LastByteLocal(mem, len, i + 1); }
  }

  lemma ReadLocal(mem: seq<Byte>, len: nat)
    requires len <= |mem|
    ensures Read(mem, len).Got? <==> Read(mem[..len], len).Got?
    ensures Read(mem, len).Got? ==> Read(mem, len) == Read(mem[..len], len)
  {
    LastByteLocal(mem, len, 1);
    var k := LastByte(mem, 1);
    if k < len && k < 5 { assert mem[..len][1..k + 1] == mem[1..k + 1]; }
  }

  // ----- round trip -----

  lemma Powers()
    ensures Pow2(7) == 128 && Pow2(14) == TWO_BYTES && Pow2(14) <= Pow2(32)
  {
    assert Pow2(4) == 16;
    assert Pow2(11) == 2048 by { assert Pow2(8) == 256; }
    MorePower(14, 32);
  }

  lemma {:induction false} MorePower(a: nat, b: nat)
    requires a <= b
    ensures Pow2(a) <= Pow2(b)
  {
    if a < b { MorePower(a, b - 1); }
  }

  // Whatever is read has 14 bits.
  lemma {:induction false} DigitsBound(ds: seq<Byte>)
    requires ds != []
    ensures Digits(ds) < TWO_BYTES
  {
    Powers();
    var last := |ds| - 1;
    if last > 0 {
      DigitsBound(ds[..last]);
      var d: nat := ds[last] % 128;
      OrBound(d * 128, Digits(ds[..last]), 14, 32);
    }
  }

  lemma TwoDigits(lo: Byte, hi: Byte)
    ensures Digits([lo]) == lo % 128 && Digits([lo, hi]) == (hi % 128) as nat * 128 + lo % 128
  {
    var d: nat := hi % 128;
    Powers();
    OrDisjoint(d, lo % 128, 7, 32);
    assert [lo, hi][..1] == [lo];
  }

  // A written length is found where it was written.
  lemma {:induction false} LengthEnds(mem: seq<Byte>, i: nat, n: nat)
    requires 1 <= i <= 5 && LengthBytes(n) <= mem[if i <= |mem| then i else |mem|..]
    ensures LastByte(mem, i) == if i + |LengthBytes(n)| <= 5 then i + |LengthBytes(n)| - 1 else 5
    decreases n
  {
    if i < 5 {
      assert mem[i] == LengthBytes(n)[0];
      if n >= 128 {
        assert LengthBytes(n)[1..] == LengthBytes(n / 128);
        assert LengthBytes(n / 128) <= mem[i + 1..];
        LengthEnds(mem, i + 1, n / 128);
      }
    }
  }

  // A length is read back as it was written, by a reader that has the whole
  // packet, if and only if it takes one or two bytes.
  lemma LengthRoundTrip(header: Byte, n: nat, rest: seq<Byte>, len: nat)
    requires len >= 1 + |LengthBytes(n)| + n
    ensures Read([header] + LengthBytes(n) + rest, len) == Got(n, |LengthBytes(n)|) <==> n < TWO_BYTES
  {
    hide Digits, LengthBytes;
    var mem := [header] + LengthBytes(n) + rest;
    assert mem[1..] == LengthBytes(n) + rest;
    LengthEnds(mem, 1, n);
    assert |LengthBytes(n)| <= 4 ==> mem[1..1 + |LengthBytes(n)|] == LengthBytes(n);
    DigitsBound(LengthBytes(n));
    if n < TWO_BYTES { ShortLength(n); }
  }

  lemma ShortLength(n: nat)
    requires n < TWO_BYTES
    ensures |LengthBytes(n)| == (if n < 128 then 1 else 2) && Digits(LengthBytes(n)) == n
  {
    hide Digits;
    if n < 128 {
      TwoDigits(n, 0);
    } else {
      assert LengthBytes(n) == [n % 128 + 128, n / 128];
      TwoDigits(n % 128 + 128, n / 128);
    }
  }

  // 16384 is written as 80 80 01 and read back as 128.
  lemma ThreeBytesMisread(header: Byte, rest: seq<Byte>, len: nat)
    requires len >= 132
    ensures LengthBytes(16384) == [0x80, 0x80, 0x01]
    ensures Read([header] + LengthBytes(16384) + rest, len) == Got(128, 3)
  {
    ThreeDigits();
    hide Digits;
    assert LengthBytes(128) == [0x80, 0x01];
    var mem := [header] + [0x80, 0x80, 0x01] + rest;
    assert mem[1..4] == [0x80, 0x80, 0x01];
    assert LastByte(mem, 3) == 3;
    assert LastByte(mem, 2) == 3;
  }

  lemma ThreeDigits()
    ensures Digits([0x80, 0x80, 0x01]) == 128
  {
    hide OrOf;
    TwoDigits(0x80, 0x80);
    assert [0x80, 0x80, 0x01][..2] == [0x80, 0x80];
    Powers();
    OrDisjoint(1, 0, 7, 32);
  }
}
