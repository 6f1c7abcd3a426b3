// Numbers in messages, Content-Length, and bodies of announced length.
module HttpBody {
  import opened Options
  import opened Arithmetic
  import opened HttpTypes
  import opened HttpStep
  import opened HttpReference

  function DigitOf(base: nat, ch: Octet): Option<nat> {
    if base == 10 then if IsNum(ch) then Some(Digit(ch)) else None else Unhex(ch)
  }

  predicate Digits(base: nat, ds: seq<Octet>) { forall i :: 0 <= i < |ds| ==> DigitOf(base, ds[i]).Some? }

  predicate AllDigits(base: nat, ds: seq<Octet>) { ds != [] && Digits(base, ds) }

  function Number(base: nat, ds: seq<Octet>): nat
    requires Digits(base, ds)
  {
    if ds == [] then 0 else Number(base, ds[..|ds| - 1]) * base + DigitOf(base, ds[|ds| - 1]).value
  }

  // The overflow check misses nothing below the value for "no length".
  lemma LengthDigitExact(length: nat, base: nat, d: nat)
    requires base > 0 && length * base + d < UNKNOWN_LENGTH
    ensures LengthDigit(length, base, d) == Some(length * base + d)
  {
    MulMonotone(1, base, length);
    assert base * length == length * base;
  }

  lemma PrefixIsSmaller(base: nat, ds: seq<Octet>)
    requires base > 0 && AllDigits(base, ds)
    ensures Number(base, ds[..|ds| - 1]) <= Number(base, ds)
  {
    var n := Number(base, ds[..|ds| - 1]);
    MulMonotone(1, base, n);
    assert base * n == n * base;
  }

  // ----- Content-Length -----

  predicate LengthState(p: Parser) { p.errno == OK && p.headerState.ContentLength? }

  lemma LengthByte(cfg: Config, p: Parser, ch: Octet)
    requires LengthState(p) && IsNum(ch) && p.nread < MAX_HEADER_SIZE && (p.state.HeaderValueStart? || p.state.HeaderValue?)
    ensures var r := OneByte(cfg, p, ch);
      var t := if p.state.HeaderValueStart? then Some(Digit(ch)) else LengthDigit(p.contentLength, 10, Digit(ch));
      if t == None then !r.end.More?
      else r == Fed(p.(state := HeaderValue, index := if p.state.HeaderValueStart? then 0 else p.index, nread := p.nread + 1, contentLength := t.value),
                    [Data(Value, [ch])], 1, More)
  {
    hide OneByte, LengthDigit, StepStart, StepResponse, StepStatus, StepMethod, StepUrl, StepRequest, StepField, StepEnd, StepChunk;
    var q := Counted(p);
    assert Once(cfg, q, ch) == StepValue(q, ch);
    if Once(cfg, q, ch).Next? { NextByte(cfg, p, ch); } else { FailByte(cfg, p, ch); }
  }

  ghost predicate LengthRead(p: Parser, r: Fed, ds: seq<Octet>) {
    && r.p == p.(state := HeaderValue, index := 0, nread := p.nread + |ds|, contentLength := r.p.contentLength)
    && r.p.contentLength < UNKNOWN_LENGTH && r.log == Bytes(Value, ds)
  }

  // A length begins with a digit; spaces among its digits are skipped.
  predicate DigitsAndSpaces(v: seq<Octet>) { forall i :: 0 <= i < |v| ==> IsNum(v[i]) || v[i] == ' ' }

  predicate LengthText(v: seq<Octet>) { v != [] && IsNum(v[0]) && DigitsAndSpaces(v) }

  function LengthOf(v: seq<Octet>): nat
    requires DigitsAndSpaces(v)
  {
    if v == [] then 0
    else
      var n := |v| - 1;
      if v[n] == ' ' then LengthOf(v[..n]) else 10 * LengthOf(v[..n]) + Digit(v[n])
  }

  // Without spaces it is the number of the digits.
  lemma {:induction false} LengthOfDigits(ds: seq<Octet>)
    requires AllDigits(10, ds)
    ensures LengthText(ds) && LengthOf(ds) == Number(10, ds)
  {
    if |ds| > 1 { LengthOfDigits(ds[..|ds| - 1]); }
  }

  lemma LengthSpace(cfg: Config, p: Parser)
    requires LengthState(p) && p.nread < MAX_HEADER_SIZE && p.state.HeaderValue?
    ensures OneByte(cfg, p, ' ') == Fed(p.(nread := p.nread + 1), [Data(Value, [' '])], 1, More)
  {
    hide OneByte, Once, Shaped, LengthDigit;
    Dispatch(cfg, Counted(p), ' ');
    NextByte(cfg, p, ' ');
  }

  lemma {:induction false} LengthFed(cfg: Config, p: Parser, v: seq<Octet>)
    requires LengthState(p) && p.state.HeaderValueStart? && LengthText(v) && p.nread + |v| <= MAX_HEADER_SIZE
    ensures var r := Feed(cfg, p, v); r.end.More? ==> LengthRead(p, r, v)
  {
    hide OneByte, LengthDigit;
    var n := |v| - 1;
    var u, ch := v[..n], v[n];
    assert v == u + [ch];
    if n == 0 {
      assert Feed(cfg, p, u) == Fed(p, [], 0, More) && Bytes(Value, u) == [];
      LengthByte(cfg, p, ch);
    } else {
      LengthFed(cfg, p, u);
      var q := Feed(cfg, p, u);
      if q.end.More? { if ch == ' ' { LengthSpace(cfg, q.p); } else { LengthByte(cfg, q.p, ch); } }
    }
  }

  // A Content-Length is read as the number of its digits if and only if that
  // is below 2^64 - 1.
  lemma ContentLengthRead(cfg: Config, p: Parser, v: seq<Octet>)
    requires LengthState(p) && p.state.HeaderValueStart? && LengthText(v) && p.nread + |v| <= MAX_HEADER_SIZE
    ensures var r := Feed(cfg, p, v);
      && (r.end.More? && r.p.contentLength == LengthOf(v) <==> LengthOf(v) < UNKNOWN_LENGTH)
      && (r.end.More? ==> LengthRead(p, r, v))
  {
    LengthFed(cfg, p, v);
    if LengthOf(v) < UNKNOWN_LENGTH { NumberFed(cfg, p, v); }
  }

  lemma {:induction false} NumberFed(cfg: Config, p: Parser, v: seq<Octet>)
    requires LengthState(p) && p.state.HeaderValueStart? && LengthText(v) && p.nread + |v| <= MAX_HEADER_SIZE && LengthOf(v) < UNKNOWN_LENGTH
    ensures var r := Feed(cfg, p, v); r.end.More? && r.p.contentLength == LengthOf(v)
  {
    hide OneByte, LengthDigit;
    var n := |v| - 1;
    var u, ch := v[..n], v[n];
    assert v == u + [ch];
    if n == 0 {
      assert Feed(cfg, p, u) == Fed(p, [], 0, More);
      assert LengthOf(u) == 0;
      LengthByte(cfg, p, ch);
    } else {
      NumberFed(cfg, p, u);
      LengthFed(cfg, p, u);
      var q := Feed(cfg, p, u).p;
      if ch == ' ' {
        LengthSpace(cfg, q);
      } else {
        LengthByte(cfg, q, ch);
        LengthDigitExact(LengthOf(u), 10, Digit(ch));
      }
    }
  }

  lemma AppendDigit(ds: seq<Octet>, ch: Octet)
    requires IsNum(ch) && (ds == [] || AllDigits(10, ds))
    ensures AllDigits(10, ds + [ch]) && Number(10, ds + [ch]) == 10 * (if ds == [] then 0 else Number(10, ds)) + Digit(ch)
  {
    assert (ds + [ch])[..|ds|] == ds;
  }

  // The digit 3 followed by n zeros.
  function Three(n: nat): seq<Octet> {
    if n == 0 then ['3'] else Three(n - 1) + ['0']
  }

  function PowerOfTen(n: nat): nat {
    if n == 0 then 1 else 10 * PowerOfTen(n - 1)
  }

  lemma BigPower()
    ensures PowerOfTen(18) == 1_000_000_000_000_000_000 && PowerOfTen(19) == 10_000_000_000_000_000_000
  {
    assert PowerOfTen(2) == 100;
    assert PowerOfTen(4) == 10_000;
    assert PowerOfTen(6) == 1_000_000;
    assert PowerOfTen(8) == 100_000_000;
    assert PowerOfTen(10) == 10_000_000_000;
    assert PowerOfTen(12) == 1_000_000_000_000;
    assert PowerOfTen(14) == 100_000_000_000_000;
    assert PowerOfTen(16) == 10_000_000_000_000_000;
  }

  lemma {:induction false} ThreeNumber(n: nat)
    ensures AllDigits(10, Three(n)) && |Three(n)| == n + 1 && Number(10, Three(n)) == 3 * PowerOfTen(n)
  {
    hide Number;
    if n == 0 {
      AppendDigit([], '3');
      assert [] + ['3'] == Three(0);
    } else {
      ThreeNumber(n - 1);
      AppendDigit(Three(n - 1), '0');
    }
  }

  // 3 * 10^19 is more than 64 bits hold; it is accepted as 3 * 10^19 - 2^64.
  lemma TooLongLengthAccepted(cfg: Config, p: Parser)
    requires LengthState(p) && p.state.HeaderValueStart? && p.nread + 20 <= MAX_HEADER_SIZE
    ensures AllDigits(10, Three(19)) && Number(10, Three(19)) == 30_000_000_000_000_000_000
    ensures var r := Feed(cfg, p, Three(19)); r.end.More? && r.p.contentLength == 11_553_255_926_290_448_384
  {
    hide OneByte, PowerOfTen, Number;
    ThreeNumber(18);
    ThreeNumber(19);
    BigPower();
    LengthOfDigits(Three(18));
    ContentLengthRead(cfg, p, Three(18));
    assert Three(19) == Three(18) + ['0'];
    assert Three(19)[..19] == Three(18);
    LengthByte(cfg, Feed(cfg, p, Three(18)).p, '0');
  }

  // A body of the announced length.
  lemma IdentityBody(cfg: Config, p: Parser, body: seq<Octet>)
    requires p.errno == OK && p.state.BodyIdentity? && body != [] && p.contentLength == |body| < UNKNOWN_LENGTH
    ensures var r := Feed(cfg, p, body);
      && r.end.More? && r.p == p.(contentLength := 0, state := NewMessage(cfg, p.(contentLength := 0)))
      && Story(r.log) == [Data(Body, body), Notify(MessageComplete)]
  {
    FeedBody(cfg, p, body);
    hide NewMessage, Feed;
    BodyStory([], body, [Notify(MessageComplete)]);
    var told := [Data(Body, body)];
    assert [] + told + [Notify(MessageComplete)] == told + [Notify(MessageComplete)];
    assert [] + (Bytes(Body, body) + [Notify(MessageComplete)]) == Bytes(Body, body) + [Notify(MessageComplete)];
    StorySnoc(told, Notify(MessageComplete));
    StorySnoc([], told[0]);
    assert [] + told == told;
  }

  lemma BodyStory(h: seq<Event>, body: seq<Octet>, notes: seq<Event>)
    requires body != []
    ensures Story(h + (Bytes(Body, body) + notes)) == Story(h + [Data(Body, body)] + notes)
  {
    hide Story;
    StoryBytes(h, Body, body);
    StoryCat(h + Bytes(Body, body), h + [Data(Body, body)], notes);
    assert h + (Bytes(Body, body) + notes) == h + Bytes(Body, body) + notes;
  }
}
