// Text and attribute values of XML: escaping on output, and the decoding of
// entities and line ends on input.
module XmlText {
  import opened Options
  import opened Arithmetic

  // A byte of the text, as a character.
  type Char = char

  const CR: Char := '\r'
  const LF: Char := '\n'

  predicate IsSpace(c: Char) { c == ' ' || 9 <= c as int <= 13 }

  // ----- entities -----

  // The entity table.
  function Entity(i: nat): (string, Char)
    requires i < 5
  {
    if i == 0 then ("quot", '"')
    else if i == 1 then ("amp", '&')
    else if i == 2 then ("apos", '\'')
    else if i == 3 then ("lt", '<')
    else ("gt", '>')
  }

  // The entity whose name and semicolon s begins with, from number i on.
  function FindEntity(s: seq<Char>, i: nat): Option<nat>
    requires i <= 5
    decreases 5 - i
  {
    if i == 5 then None
    else
      var name := Entity(i).0;
      if |s| > |name| && s[..|name|] == name && s[|name|] == ';' then Some(i) else FindEntity(s, i + 1)
  }

  // ----- output -----

  predicate Escaped(c: Char, restricted: bool) {
    c == '&' || c == '<' || c == '>' || (!restricted && (c == '"' || c == '\''))
  }

  function EscapeChar(c: Char, restricted: bool): seq<Char> {
    if !Escaped(c, restricted) then [c]
    else if c == '"' then "&quot;"
    else if c == '&' then "&amp;"
    else if c == '\'' then "&apos;"
    else if c == '<' then "&lt;"
    else "&gt;"
  }

  function Escape(s: seq<Char>, restricted: bool): seq<Char> {
    if s == [] then [] else EscapeChar(s[0], restricted) + Escape(s[1..], restricted)
  }

  // ----- numeric character references -----

  function Digit(c: Char, hex: bool): Option<nat> {
    if '0' <= c <= '9' then Some(c as int - '0' as int)
    else if hex && 'a' <= c <= 'f' then Some(c as int - 'a' as int + 10)
    else if hex && 'A' <= c <= 'F' then Some(c as int - 'A' as int + 10)
    else None
  }

  // The value of the digits at the end of ds, back to the character x of a
  // hexadecimal or # of a decimal reference; products wrap at 32 bits.
  function Scaled(ds: seq<Char>, hex: bool, mult: nat): Option<nat> {
    if ds == [] || ds[|ds| - 1] == (if hex then 'x' else '#') then Some(0)
    else
      match Digit(ds[|ds| - 1], hex)
      case None => None
      case Some(d) =>
        match Scaled(ds[..|ds| - 1], hex, mult * (if hex then 16 else 10) % 0x1_0000_0000)
        case None => None
        case Some(v) => Some(mult * d % 0x1_0000_0000 + v)
  }

  // ConvertUTF32ToUTF8
  function Utf8(u: nat): (r: seq<Char>)
    ensures |r| <= 4 && (u == 0 ==> |r| == 1)
  {
    if u < 0x80 then [u as char]
    else if u < 0x800 then [(0xC0 + u / 64) as char, (0x80 + u % 64) as char]
    else if u < 0x10000 then [(0xE0 + u / 4096) as char, (0x80 + u / 64 % 64) as char, (0x80 + u % 64) as char]
    else if u < 0x200000 then
      [(0xF0 + u / 262144) as char, (0x80 + u / 4096 % 64) as char, (0x80 + u / 64 % 64) as char, (0x80 + u % 64) as char]
    else []
  }

  function Low(c: Char): nat { c as int % 64 }

  // Section 3 of RFC 3629: the number of an encoded character.
  function FromUtf8(b: seq<Char>): nat
    requires b != []
  {
    var lead := b[0] as int;
    if lead < 0x80 then lead
    else if lead < 0xE0 && |b| >= 2 then lead % 32 * 64 + Low(b[1])
    else if lead < 0xF0 && |b| >= 3 then lead % 16 * 4096 + Low(b[1]) * 64 + Low(b[2])
    else if |b| >= 4 then lead % 8 * 262144 + Low(b[1]) * 4096 + Low(b[2]) * 64 + Low(b[3])
    else 0
  }

  // Each number below 2^21 is encoded so that it can be read back; others give
  // nothing.
  lemma Utf8RoundTrip(u: nat)
    ensures Utf8(u) == [] <==> u >= 0x200000
    ensures u < 0x200000 ==> FromUtf8(Utf8(u)) == u
  {
    hide Low;
    Follow(u % 64);
    Follow(u / 64 % 64);
    Follow(u / 4096 % 64);
    if u >= 0x80 { Sixes(u); }
  }

  // The leading bits and the groups of six that make up a number.
  lemma Sixes(u: nat)
    ensures u / 64 < 32 ==> (0xC0 + u / 64) % 32 * 64 + u % 64 == u
    ensures u / 4096 < 16 ==> (0xE0 + u / 4096) % 16 * 4096 + u / 64 % 64 * 64 + u % 64 == u
    ensures u / 262144 < 8 ==> (0xF0 + u / 262144) % 8 * 262144 + u / 4096 % 64 * 4096 + u / 64 % 64 * 64 + u % 64 == u
  {
    var a, b, c := u / 64, u / 4096, u / 262144;
    assert b == a / 64 && c == b / 64;
    assert u == a * 64 + u % 64;
    assert a == b * 64 + a % 64;
    assert b == c * 64 + b % 64;
    if a < 32 { assert (0xC0 + a) % 32 == a; }
    if b < 16 { assert (0xE0 + b) % 16 == b; }
    if c < 8 { assert (0xF0 + c) % 8 == c; }
  }

  lemma Follow(x: nat)
    requires x < 64
    ensures Low((0x80 + x) as char) == x
  {
  }

  // ----- input -----

  function Find(s: seq<Char>, c: Char, i: nat): (k: Option<nat>)
    requires i <= |s|
    ensures k.Some? ==> i <= k.value < |s| && s[k.value] == c
    decreases |s| - i
  {
    if i == |s| then None else if s[i] == c then Some(i) else Find(s, c, i + 1)
  }

  lemma {:induction false} Found(part: seq<Char>, c: Char, next: seq<Char>, i: nat)
    requires c !in part && i <= |part|
    ensures Find(part + [c] + next, c, i) == Some(|part|)
    decreases |part| - i
  {
    if i < |part| {
      assert (part + [c] + next)[i] == part[i] && part[i] in part;
      Found(part, c, next, i + 1);
    }
  }

  // GetCharacterRef: the bytes of a reference and how much of s it takes.
  datatype Reference = Reference(bytes: seq<Char>, taken: nat)

  function CharacterRef(s: seq<Char>): (r: Option<Reference>)
    requires |s| >= 2 && s[0] == '&' && s[1] == '#'
    ensures r.Some? ==> 1 <= r.value.taken <= |s| && |r.value.bytes| <= r.value.taken
  {
    if |s| == 2 then Some(Reference([], 1))
    else
      var hex := s[2] == 'x';
      var from := if hex then 3 else 2;
      if |s| <= from then None
      else
        match Find(s, ';', from)
        case None => None
        case Some(k) =>
          match Scaled(s[..k], hex, 1)
          case None => None
          case Some(u) => Some(Reference(Utf8(u), k + 1))
  }

  // ----- the number of a reference -----

  const WRAP32 := 0x1_0000_0000

  predicate AreDigits(ds: seq<Char>, hex: bool) { forall i :: 0 <= i < |ds| ==> Digit(ds[i], hex).Some? }

  function Base(hex: bool): nat { if hex then 16 else 10 }

  // The number that digits stand for.
  function NumberOf(ds: seq<Char>, hex: bool): nat
    requires AreDigits(ds, hex)
  {
    if ds == [] then 0 else Base(hex) * NumberOf(ds[..|ds| - 1], hex) + Digit(ds[|ds| - 1], hex).value
  }

  function BasePower(hex: bool, k: nat): nat { if k == 0 then 1 else BasePower(hex, k - 1) * Base(hex) }

  lemma WrappedProduct(a: nat, b: nat)
    ensures a % WRAP32 * b % WRAP32 == a * b % WRAP32
  {
    var q, r := a / WRAP32, a % WRAP32;
    var p := r * b;
    assert a * b == (WRAP32 * q + r) * b == WRAP32 * (q * b) + p;
    ModUnique(a * b, WRAP32, q * b + p / WRAP32, p % WRAP32);
  }

  // One more digit, which counts for `power`.
  lemma DigitCounts(power: nat, d: nat, n: nat, base: nat)
    requires base > 0 && (base * n + d) * power < WRAP32
    ensures n * (power * base) + d * power == (base * n + d) * power && n * (power * base) < WRAP32
    ensures power % WRAP32 * d % WRAP32 == d * power
  {
    var a, b := n * (power * base), d * power;
    assert a + b == (base * n + d) * power;
    assert a >= 0;
    WrappedProduct(power, d);
    assert power * d == b;
    assert 0 <= b < WRAP32;
  }

  lemma {:induction false} DigitsScaled(head: seq<Char>, ds: seq<Char>, hex: bool, k: nat)
    requires AreDigits(ds, hex) && head != [] && head[|head| - 1] == (if hex then 'x' else '#')
    requires NumberOf(ds, hex) * BasePower(hex, k) < WRAP32
    ensures Scaled(head + ds, hex, BasePower(hex, k) % WRAP32) == Some(NumberOf(ds, hex) * BasePower(hex, k))
    decreases |ds|
  {
    hide BasePower;
    var power := BasePower(hex, k);
    if ds == [] {
      assert head + ds == head;
      assert NumberOf(ds, hex) == 0;
    } else {
      var n := |ds| - 1;
      var some, d := ds[..n], Digit(ds[n], hex).value;
      NextPower(hex, k);
      DigitCounts(power, d, NumberOf(some, hex), Base(hex));
      WrappedProduct(power, Base(hex));
      DigitsScaled(head, some, hex, k + 1);
      var all := head + ds;
      assert all[|all| - 1] == ds[n] && all[..|all| - 1] == head + some;
    }
  }

  lemma NextPower(hex: bool, k: nat)
    ensures BasePower(hex, k + 1) == BasePower(hex, k) * Base(hex) && BasePower(hex, 0) == 1
  {
  }

  // A numeric reference gives the character of its number, however many zeros
  // its digits begin with, as long as that has 32 bits.
  lemma ReferenceRead(ds: seq<Char>, hex: bool, rest: seq<Char>)
    requires ds != [] && AreDigits(ds, hex) && NumberOf(ds, hex) < WRAP32
    ensures var head := if hex then "&#x" else "&#";
      CharacterRef(head + ds + ";" + rest) == Some(Reference(Utf8(NumberOf(ds, hex)), |head| + |ds| + 1))
  {
    hide NumberOf, Scaled;
    var head := if hex then "&#x" else "&#";
    var s := head + ds + ";" + rest;
    NextPower(hex, 0);
    assert NumberOf(ds, hex) * 1 == NumberOf(ds, hex);
    DigitsScaled(head, ds, hex, 0);
    forall i | 0 <= i < |head + ds| ensures (head + ds)[i] != ';' { if i >= |head| { assert (head + ds)[i] == ds[i - |head|]; } }
    Found(head + ds, ';', rest, |head|);
    assert s[..|head + ds|] == head + ds;
    if !hex { assert s[2] == ds[0]; }
  }

  // What one step of GetStr reads and writes.
  datatype Piece = Piece(bytes: seq<Char>, taken: nat)

  function NextPiece(s: seq<Char>): (r: Piece)
    requires s != []
    ensures 1 <= r.taken <= |s| && |r.bytes| <= r.taken
  {
    if s[0] == CR then Piece([LF], if |s| > 1 && s[1] == LF then 2 else 1)
    else if s[0] == LF then Piece([LF], if |s| > 1 && s[1] == CR then 2 else 1)
    else if s[0] == '&' && |s| > 1 && s[1] == '#' then
      match CharacterRef(s)
      case None => Piece([s[0]], 1)
      case Some(r) => Piece(r.bytes, r.taken)
    else if s[0] == '&' then
      match FindEntity(s[1..], 0)
      case None => Piece([s[0]], 1)
      case Some(i) =>
        EntityFits(s[1..], 0);
        Piece([Entity(i).1], |Entity(i).0| + 2)
    else Piece([s[0]], 1)
  }

  lemma EntityFits(s: seq<Char>, i: nat)
    requires i <= 5 && FindEntity(s, i).Some?
    ensures i <= FindEntity(s, i).value < 5 && |Entity(FindEntity(s, i).value).0| + 1 <= |s|
    decreases 5 - i
  {
  }

  // An ampersand that begins nothing known.
  predicate Unknown(s: seq<Char>) {
    s != [] && s[0] == '&' && !(|s| > 1 && s[1] == '#') && FindEntity(s[1..], 0) == None
  }

  function Decode(s: seq<Char>): seq<Char> {
    if s == [] then [] else NextPiece(s).bytes + Decode(s[NextPiece(s).taken..])
  }

  predicate Decodable(s: seq<Char>) {
    s == [] || (!Unknown(s) && Decodable(s[NextPiece(s).taken..]))
  }

  // What GetStr makes of s, from the character numbered k on, when it has
  // written n characters: at an unknown entity it skips one character of both,
  // so that the character that stands there shows through.
  function DecodeFrom(s: seq<Char>, k: nat, n: nat): seq<Char>
    requires n <= k <= |s|
    decreases |s| - k
  {
    if k == |s| then []
    else if Unknown(s[k..]) then [s[n]] + DecodeFrom(s, k + 1, n + 1)
    else NextPiece(s[k..]).bytes + DecodeFrom(s, k + NextPiece(s[k..]).taken, n + |NextPiece(s[k..]).bytes|)
  }

  // Without unknown entities that is the decoded text.
  lemma {:induction false} DecodeFromIs(s: seq<Char>, k: nat, n: nat)
    requires n <= k <= |s| && Decodable(s[k..])
    ensures DecodeFrom(s, k, n) == Decode(s[k..])
    decreases |s| - k
  {
    hide NextPiece, Unknown;
    if k < |s| {
      var piece := NextPiece(s[k..]);
      assert s[k..][piece.taken..] == s[k + piece.taken..];
      DecodeFromIs(s, k + piece.taken, n + |piece.bytes|);
    }
  }

  // With one, a character of an earlier entity shows through.
  lemma UnknownShowsThrough()
    ensures DecodeFrom("&lt;&x", 0, 0) == "<lx"
  {
    var s := "&lt;&x";
    EntityFound(s[1..], 3);
    assert s[0..] == s && s[4..] == "&x" && s[5..] == "x" && s[4..][1..] == "x";
    assert s[1..][..2] == "lt";
    assert !Unknown(s) && NextPiece(s) == Piece("<", 4);
    assert FindEntity("x", 0) == None by { NoShortEntity("x", 0); }
    assert Unknown("&x");
    assert DecodeFrom(s, 6, 3) == [];
    assert NextPiece("x") == Piece("x", 1) && !Unknown("x");
    assert DecodeFrom(s, 5, 2) == "x";
    assert DecodeFrom(s, 4, 1) == "l" + "x";
  }

  lemma {:induction false} NoShortEntity(s: seq<Char>, i: nat)
    requires |s| <= 1 && i <= 5
    ensures FindEntity(s, i) == None
    decreases 5 - i
  {
    if i < 5 { NoShortEntity(s, i + 1); }
  }

  // StrPair::GetStr with entities and line ends, in place: the write position
  // never passes the read position, and what is read is what was there.
  method GetStr(a: array<Char>, start: nat, end: nat) returns (n: nat)
    requires start <= end < a.Length
    modifies a
    ensures start + n <= end && a[start + n] == '\0'
    ensures a[start..start + n] == DecodeFrom(old(a[start..end]), 0, 0)
    ensures Decodable(old(a[start..end])) ==> a[start..start + n] == Decode(old(a[start..end]))
    ensures a[..start] == old(a[..start]) && a[end + 1..] == old(a[end + 1..])
  {
    hide Decode, Decodable, DecodeFrom;
    ghost var s := a[start..end];
    a[end] := '\0';
    assert a[start..end] == s;
    n := Rewrite(a, start, end);
    ghost var out := a[start..start + n];
    a[start + n] := '\0';
    assert a[start..start + n] == out;
    if Decodable(s) {
      assert s[0..] == s;
      DecodeFromIs(s, 0, 0);
    }
  }

  method Rewrite(a: array<Char>, start: nat, end: nat) returns (n: nat)
    requires start <= end < a.Length
    modifies a
    ensures start + n <= end && a[start..start + n] == DecodeFrom(old(a[start..end]), 0, 0)
    ensures a[..start] == old(a[..start]) && a[end + 1..] == old(a[end + 1..])
  {
    hide NextPiece, Unknown, Rewriting, Moved, DecodeFrom;
    ghost var m := a[..];
    var p, q := start, start;
    RewritingStarts(m, start, end);
    while p < end
      invariant start <= q <= p <= end && Rewriting(m, a[..], start, p, q, end)
      decreases end - p
    {
      ghost var before := a[..];
      var taken, written := GetPiece(a, p, q, end);
      RewritingStep(m, before, a[..], start, p, q, end, taken, written);
      p, q := p + taken, q + written;
    }
    RewritingEnds(m, a[..], start, q, end);
    assert a[..][start..q] == a[start..q] && m[start..end] == old(a[start..end]);
    assert a[..][..start] == a[..start] && a[..][end + 1..] == a[end + 1..];
    n := q - start;
  }

  // The contents m of the array have become a: from q on nothing has been
  // touched, and up to q stands what was read so far gives.
  ghost predicate Rewriting(m: seq<Char>, a: seq<Char>, start: nat, p: nat, q: nat, end: nat)
    requires start <= q <= p <= end < |m|
  {
    && |a| == |m| && a[..start] == m[..start] && a[q..] == m[q..]
    && a[start..q] + DecodeFrom(m[start..end], p - start, q - start) == DecodeFrom(m[start..end], 0, 0)
  }

  // What one step that reads at p and writes at q does to the array.
  ghost predicate Moved(a: seq<Char>, b: seq<Char>, p: nat, q: nat, end: nat, taken: nat, written: nat)
    requires q <= p < end < |a|
  {
    && |b| == |a| && 1 <= taken && p + taken <= end && written <= taken
    && b[..q] == a[..q] && b[q + written..] == a[q + written..]
    && var rest := a[p..end];
       if Unknown(rest) then taken == 1 && written == 1 && b == a
       else taken == NextPiece(rest).taken && b[q..q + written] == NextPiece(rest).bytes
  }

  lemma RewritingStarts(m: seq<Char>, start: nat, end: nat)
    requires start <= end < |m|
    ensures Rewriting(m, m, start, start, start, end)
  {
    hide DecodeFrom;
    var all := DecodeFrom(m[start..end], 0, 0);
    assert m[start..start] == [] && [] + all == all;
  }

  lemma RewritingStep(m: seq<Char>, a: seq<Char>, b: seq<Char>, start: nat, p: nat, q: nat, end: nat, taken: nat, written: nat)
    requires start <= q <= p < end < |m| && Rewriting(m, a, start, p, q, end) && Moved(a, b, p, q, end, taken, written)
    ensures p + taken <= end && written <= taken && Rewriting(m, b, start, p + taken, q + written, end)
  {
    hide NextPiece, Unknown, DecodeFrom;
    var s, k, n, out := m[start..end], p - start, q - start, a[start..q];
    Unread(m, a, start, p, q, end);
    DecodeStep(s, k, n);
    Written(m, a, b, start, q, written);
    var rest := DecodeFrom(s, k + taken, n + written);
    assert Unknown(a[p..end]) ==> b[q..q + 1] == [s[n]];
    assert out + (b[q..q + written] + rest) == out + b[q..q + written] + rest;
  }

  lemma Unread(m: seq<Char>, a: seq<Char>, start: nat, p: nat, q: nat, end: nat)
    requires start <= q <= p < end < |m| && |a| == |m| && a[q..] == m[q..]
    ensures m[start..end][p - start..] == m[p..end] == a[p..end] && m[start..end][q - start] == a[q]
  {
    SliceOfTail(a, q, p, end);
    SliceOfTail(m, q, p, end);
    assert a[q..][0] == m[q..][0];
  }

  lemma SliceOfTail(a: seq<Char>, q: nat, i: nat, j: nat)
    requires q <= i <= j <= |a|
    ensures a[q..][i - q..j - q] == a[i..j]
  {
  }

  lemma Written(m: seq<Char>, a: seq<Char>, b: seq<Char>, start: nat, q: nat, written: nat)
    requires start <= q && q + written <= |m| && |a| == |m| == |b| && a[..start] == m[..start] && a[q..] == m[q..]
    requires b[..q] == a[..q] && b[q + written..] == a[q + written..]
    ensures b[..start] == m[..start] && b[q + written..] == m[q + written..] && b[start..q + written] == a[start..q] + b[q..q + written]
  {
    assert b[..start] == b[..q][..start] && a[..start] == a[..q][..start];
    assert a[q + written..] == a[q..][written..] && m[q..][written..] == m[q + written..];
    assert b[start..q] == b[..q][start..] && a[start..q] == a[..q][start..];
  }

  lemma DecodeStep(s: seq<Char>, k: nat, n: nat)
    requires n <= k < |s|
    ensures Unknown(s[k..]) ==> DecodeFrom(s, k, n) == [s[n]] + DecodeFrom(s, k + 1, n + 1)
    ensures var piece := NextPiece(s[k..]);
      !Unknown(s[k..]) ==> DecodeFrom(s, k, n) == piece.bytes + DecodeFrom(s, k + piece.taken, n + |piece.bytes|)
  {
    hide NextPiece, Unknown;
  }

  lemma RewritingEnds(m: seq<Char>, a: seq<Char>, start: nat, q: nat, end: nat)
    requires start <= q <= end < |m| && Rewriting(m, a, start, end, q, end)
    ensures |a| == |m| && a[..start] == m[..start] && a[end + 1..] == m[end + 1..]
    ensures a[start..q] == DecodeFrom(m[start..end], 0, 0)
  {
    assert a[q..][end + 1 - q..] == a[end + 1..] && m[q..][end + 1 - q..] == m[end + 1..];
  }

  // One step: reads at p, writes at q.
  method GetPiece(a: array<Char>, p: nat, q: nat, end: nat) returns (taken: nat, written: nat)
    requires q <= p < end < a.Length
    modifies a
    ensures Moved(old(a[..]), a[..], p, q, end, taken, written) && 1 <= taken && p + taken <= end && written <= taken
  {
    hide NextPiece, Unknown;
    ghost var m := a[..];
    var rest := a[p..end];
    assert m[p..end] == rest;
    if Unknown(rest) {
      return 1, 1;
    }
    var piece := NextPiece(rest);
    Copy(a, q, piece.bytes);
    assert a[..][..q] == m[..q];
    assert a[..][q + |piece.bytes|..] == m[q + |piece.bytes|..];
    assert a[..][q..q + |piece.bytes|] == piece.bytes;
    return piece.taken, |piece.bytes|;
  }

  method Copy(a: array<Char>, q: nat, bytes: seq<Char>)
    requires q + |bytes| <= a.Length
    modifies a
    ensures a[q..q + |bytes|] == bytes
    ensures forall i :: 0 <= i < q || q + |bytes| <= i < a.Length ==> a[i] == old(a[i])
  {
    forall i | 0 <= i < |bytes| { a[q + i] := bytes[i]; }
  }

  // ----- escaping and decoding -----

  // XMLPrinter::PrintString: runs of plain characters, and entities.
  method PrintString(s: seq<Char>, restricted: bool) returns (out: seq<Char>)
    ensures out == Escape(s, restricted)
  {
    hide Escape, Escaped, EscapeChar;
    out := [];
    var p, q := 0, 0;
    EscapeNothing(restricted);
    while q < |s|
      invariant 0 <= p <= q <= |s| && out + s[p..q] == Escape(s[..q], restricted)
    {
      EscapeSnoc(s[..q], s[q], restricted);
      assert s[..q + 1] == s[..q] + [s[q]];
      if Escaped(s[q], restricted) {
        out := out + s[p..q] + EscapeChar(s[q], restricted);
        p := q + 1;
      } else {
        assert s[p..q + 1] == s[p..q] + [s[q]];
        assert out + (s[p..q] + [s[q]]) == out + s[p..q] + [s[q]];
      }
      q := q + 1;
    }
    assert s[..q] == s;
    if p < q { out := out + s[p..]; }
  }

  lemma EscapeNothing(restricted: bool)
    ensures Escape([], restricted) == []
  {
  }

  lemma {:induction false} EscapeSnoc(s: seq<Char>, c: Char, restricted: bool)
    ensures Escape(s + [c], restricted) == Escape(s, restricted) + EscapeChar(c, restricted)
    ensures !Escaped(c, restricted) ==> EscapeChar(c, restricted) == [c]
  {
    hide EscapeChar;
    assert !Escaped(c, restricted) ==> EscapeChar(c, restricted) == [c] by { PlainChar(c, restricted); }
    if s == [] {
      assert s + [c] == [c] && [c][1..] == [];
    } else {
      EscapeSnoc(s[1..], c, restricted);
      assert (s + [c])[0] == s[0] && (s + [c])[1..] == s[1..] + [c];
    }
  }

  lemma PlainChar(c: Char, restricted: bool)
    ensures !Escaped(c, restricted) ==> EscapeChar(c, restricted) == [c]
  {
  }

  lemma EntityRead(c: Char, restricted: bool, rest: seq<Char>)
    requires Escaped(c, restricted)
    ensures var s := EscapeChar(c, restricted) + rest;
      !Unknown(s) && NextPiece(s) == Piece([c], |EscapeChar(c, restricted)|)
  {
    var i := EntityText(c, restricted);
    hide EscapeChar, Entity, FindEntity, Escaped;
    var name, s := Entity(i).0, EscapeChar(c, restricted) + rest;
    assert s[1..] == name + ";" + rest;
    assert s[1..][..|name|] == name;
    EntityFound(s[1..], i);
  }

  // The entity written for a character.
  lemma EntityText(c: Char, restricted: bool) returns (i: nat)
    requires Escaped(c, restricted)
    ensures i < 5 && Entity(i).1 == c && Entity(i).0 != [] && Entity(i).0[0] != '#'
    ensures EscapeChar(c, restricted) == "&" + Entity(i).0 + ";"
  {
    i := if c == '"' then 0 else if c == '&' then 1 else if c == '\'' then 2 else if c == '<' then 3 else 4;
  }

  // A name of the table followed by a semicolon is found.
  lemma EntityFound(s: seq<Char>, i: nat)
    requires i < 5 && |s| > |Entity(i).0| && s[..|Entity(i).0|] == Entity(i).0 && s[|Entity(i).0|] == ';'
    ensures FindEntity(s, 0) == Some(i)
  {
    FoundFrom(s, i, 0);
  }

  lemma {:induction false} FoundFrom(s: seq<Char>, i: nat, j: nat)
    requires j <= i < 5 && |s| > |Entity(i).0| && s[..|Entity(i).0|] == Entity(i).0 && s[|Entity(i).0|] == ';'
    ensures FindEntity(s, j) == Some(i)
    decreases i - j
  {
    if j < i {
      FoundFrom(s, i, j + 1);
      Letters(i, j);
      hide Entity;
      var x := s[..|Entity(i).0|];
      assert x[0] == s[0] && x[1] == s[1];
      if |s| > |Entity(j).0| {
        var y := s[..|Entity(j).0|];
        assert y[0] == s[0] && y[1] == s[1];
      }
    }
  }

  // No two names begin with the same two letters.
  lemma Letters(i: nat, j: nat)
    requires i < 5 && j < 5 && i != j
    ensures |Entity(i).0| >= 2 && |Entity(j).0| >= 2
    ensures Entity(i).0[0] != Entity(j).0[0] || Entity(i).0[1] != Entity(j).0[1]
  {
  }

  predicate CrFree(s: seq<Char>) { forall i :: 0 <= i < |s| ==> s[i] != CR }

  lemma EscapeStart(s: seq<Char>, restricted: bool)
    requires CrFree(s)
    ensures Escape(s, restricted) != [] ==> Escape(s, restricted)[0] != CR
  {
  }

  // Decoding undoes escaping.
  lemma {:induction false} DecodeEscape(s: seq<Char>, restricted: bool)
    requires CrFree(s)
    ensures Decodable(Escape(s, restricted)) && Decode(Escape(s, restricted)) == s
  {
    if s != [] {
      var c, rest := s[0], Escape(s[1..], restricted);
      DecodeEscape(s[1..], restricted);
      EscapeStart(s[1..], restricted);
      PlainChar(c, restricted);
      if Escaped(c, restricted) { EntityRead(c, restricted, rest); } else { PlainRead(c, rest); }
      var e := EscapeChar(c, restricted);
      hide NextPiece, Unknown, EscapeChar;
      assert (e + rest)[|e|..] == rest;
      assert [c] + s[1..] == s;
    }
  }

  lemma PlainRead(c: Char, rest: seq<Char>)
    requires c != '&' && c != CR && (rest != [] ==> rest[0] != CR)
    ensures !Unknown([c] + rest) && NextPiece([c] + rest) == Piece([c], 1)
  {
  }

  // No markup is left in escaped text.
  lemma {:induction false} EscapeIsPlain(s: seq<Char>, restricted: bool)
    ensures '<' !in Escape(s, restricted) && '>' !in Escape(s, restricted)
    ensures !restricted ==> '"' !in Escape(s, restricted) && '\'' !in Escape(s, restricted)
  {
    hide EscapeChar;
    if s != [] {
      EscapeIsPlain(s[1..], restricted);
      CharIsPlain(s[0], restricted);
    }
  }

  lemma CharIsPlain(c: Char, restricted: bool)
    ensures var e := EscapeChar(c, restricted); '<' !in e && '>' !in e && (!restricted ==> '"' !in e && '\'' !in e)
  {
  }

  // ----- line ends and references in a text -----

  predicate IsBreak(nl: seq<Char>) { nl == [CR] || nl == [LF] || nl == [CR, LF] || nl == [LF, CR] }

  // A break of one character that is not half of one of two.
  predicate Apart(nl: seq<Char>, rest: seq<Char>) { |nl| == 1 && rest != [] ==> !IsBreak(nl + [rest[0]]) }

  lemma PlainDecoded(c: Char, rest: seq<Char>)
    requires c != CR && c != LF && c != '&'
    ensures Decode([c] + rest) == [c] + Decode(rest)
  {
    var s := [c] + rest;
    assert s[1..] == rest;
  }

  lemma BreakDecoded(nl: seq<Char>, rest: seq<Char>)
    requires IsBreak(nl) && Apart(nl, rest)
    ensures Decode(nl + rest) == [LF] + Decode(rest)
  {
    var s := nl + rest;
    assert s[|nl|..] == rest;
    assert |nl| == 1 && rest != [] ==> s[1] == rest[0];
    assert NextPiece(s) == Piece([LF], |nl|);
  }

  // Every line of a text is decoded as it is, and ends in a line feed, whatever
  // its line end was.
  lemma {:induction false} LineDecoded(line: seq<Char>, nl: seq<Char>, rest: seq<Char>)
    requires CR !in line && LF !in line && '&' !in line && IsBreak(nl) && Apart(nl, rest)
    ensures Decode(line + nl + rest) == line + [LF] + Decode(rest)
  {
    hide Decode;
    if line == [] {
      BreakDecoded(nl, rest);
      assert line + nl + rest == nl + rest && line + [LF] + Decode(rest) == [LF] + Decode(rest);
    } else {
      LineDecoded(line[1..], nl, rest);
      assert line[0] in line;
      PlainDecoded(line[0], line[1..] + nl + rest);
      assert line + nl + rest == [line[0]] + (line[1..] + nl + rest);
      assert [line[0]] + (line[1..] + [LF] + Decode(rest)) == line + [LF] + Decode(rest);
    }
  }

  // A numeric reference is decoded as the character of its number.
  lemma ReferenceDecoded(ds: seq<Char>, hex: bool, rest: seq<Char>)
    requires ds != [] && AreDigits(ds, hex) && NumberOf(ds, hex) < WRAP32
    ensures Decode((if hex then "&#x" else "&#") + ds + ";" + rest) == Utf8(NumberOf(ds, hex)) + Decode(rest)
  {
    hide CharacterRef, NumberOf;
    var head := if hex then "&#x" else "&#";
    var s := head + ds + ";" + rest;
    ReferenceRead(ds, hex, rest);
    assert s[0] == '&' && s[1] == '#';
    assert s[|head| + |ds| + 1..] == rest;
  }
}
