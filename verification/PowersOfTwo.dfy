// Machine words as bits, and rounding up to a power of two by bit smearing.
module PowersOfTwo {
  import opened Arithmetic

  // A machine word, least significant bit first.
  type Word = seq<bool>

  const WIDTH := 64

  function Value(w: Word): nat {
    if w == [] then 0 else (if w[0] then 1 else 0) + 2 * Value(w[1..])
  }

  function Bits(x: nat, width: nat): (w: Word)
    ensures |w| == width
  {
    if width == 0 then [] else [x % 2 == 1] + Bits(x / 2, width - 1)
  }

  function ShiftRight(w: Word, k: nat): (r: Word)
    ensures |r| == |w|
  {
    seq(|w|, i requires 0 <= i < |w| => i + k < |w| && w[i + k])
  }

  function Or(a: Word, b: Word): (r: Word)
    requires |a| == |b|
    ensures |r| == |a|
  {
    seq(|a|, i requires 0 <= i < |a| => a[i] || b[i])
  }

  function And(a: Word, b: Word): (r: Word)
    requires |a| == |b|
    ensures |r| == |a|
  {
    seq(|a|, i requires 0 <= i < |a| => a[i] && b[i])
  }

  lemma {:induction false} BitsValue(x: nat, width: nat)
    requires x < Pow2(width)
    ensures Value(Bits(x, width)) == x
  {
    if width > 0 {
      BitsValue(x / 2, width - 1);
      assert Bits(x, width)[1..] == Bits(x / 2, width - 1);
    }
  }

  // n low bits set and the others clear.
  ghost predicate LowOnes(w: Word, n: nat) {
    n <= |w| && forall i :: 0 <= i < |w| ==> w[i] == (i < n)
  }

  lemma {:induction false} LowOnesValue(w: Word, n: nat)
    requires LowOnes(w, n)
    ensures Value(w) == Pow2(n) - 1
  {
    if w != [] {
      if n == 0 { LowOnesValue(w[1..], 0); } else { LowOnesValue(w[1..], n - 1); }
    }
  }

  // A word lies between the powers of two around its highest set bit.
  lemma {:induction false} HighestBit(w: Word, n: nat)
    requires n <= |w| && (forall i :: n <= i < |w| ==> !w[i]) && (n > 0 ==> w[n - 1])
    ensures Value(w) < Pow2(n) && (n > 0 ==> Pow2(n - 1) <= Value(w))
  {
    if w != [] {
      if n == 0 { HighestBit(w[1..], 0); } else { HighestBit(w[1..], n - 1); }
    }
  }

  ghost function Length(w: Word): (n: nat)
    ensures n <= |w| && (forall i :: n <= i < |w| ==> !w[i]) && (n > 0 ==> w[n - 1])
  {
    if w == [] then 0 else if w[|w| - 1] then |w| else Length(w[..|w| - 1])
  }

  // Bit i of w is set exactly when one of the bits i .. i + span - 1 of u is.
  ghost predicate Smeared(u: Word, w: Word, span: nat) {
    |w| == |u| && forall i :: 0 <= i < |u| ==> (w[i] <==> exists j :: i <= j < i + span && j < |u| && u[j])
  }

  lemma Smear(u: Word, w: Word, span: nat)
    requires Smeared(u, w, span) && span > 0
    ensures Smeared(u, Or(w, ShiftRight(w, span)), 2 * span)
  {
    var r := Or(w, ShiftRight(w, span));
    forall i | 0 <= i < |u| ensures r[i] <==> exists j :: i <= j < i + 2 * span && j < |u| && u[j] {
      if r[i] {
        if w[i] {
          var j :| i <= j < i + span && j < |u| && u[j];
        } else {
          var j :| i + span <= j < i + span + span && j < |u| && u[j];
        }
      }
      if j :| i <= j < i + 2 * span && j < |u| && u[j] {
        if j < i + span { assert w[i]; } else { assert w[i + span]; }
      }
    }
  }

  lemma NotSmeared(w: Word)
    ensures Smeared(w, w, 1)
  {
    forall i | 0 <= i < |w| ensures w[i] <==> exists j :: i <= j < i + 1 && j < |w| && w[j] {
      if w[i] { assert i <= i < i + 1 && w[i]; }
    }
  }

  // ceilToPow2: the least power of two that is not below x.
  method CeilToPow2(x: nat) returns (r: nat)
    requires 1 <= x <= Pow2(WIDTH - 1)
    ensures exists n: nat :: n < WIDTH && r == Pow2(n)
    ensures x <= r && (x > 1 ==> r < 2 * x)
  {
    assert Pow2(WIDTH) == 2 * Pow2(WIDTH - 1);
    var w := Bits(x - 1, WIDTH);
    ghost var u := w;
    BitsValue(x - 1, WIDTH);
    NotSmeared(w);
    Smear(u, w, 1);
    w := Or(w, ShiftRight(w, 1));
    Smear(u, w, 2);
    w := Or(w, ShiftRight(w, 2));
    Smear(u, w, 4);
    w := Or(w, ShiftRight(w, 4));
    var i := 1;
    while i < WIDTH / 8
      invariant i == 1 || i == 2 || i == 4 || i == 8
      invariant |w| == WIDTH && Smeared(u, w, 8 * i)
      decreases WIDTH - i
    {
      Smear(u, w, 8 * i);
      w := Or(w, ShiftRight(w, 8 * i));
      i := 2 * i;
    }
    SmearedValue(u, w);
    r := Value(w) + 1;
  }

  // All bits below the highest set bit of u: one less than a power of two.
  lemma SmearedValue(u: Word, w: Word)
    requires Smeared(u, w, |u|)
    ensures Value(w) + 1 == Pow2(Length(u))
    ensures Value(u) <= Value(w) && (Value(u) > 0 ==> Value(w) < 2 * Value(u))
    ensures Length(u) > 0 ==> Pow2(Length(u) - 1) <= Value(u)
  {
    var n := Length(u);
    FullySmeared(u, w, n);
    LowOnesValue(w, n);
    HighestBit(u, n);
  }

  lemma FullySmeared(u: Word, w: Word, n: nat)
    requires Smeared(u, w, |u|) && n == Length(u)
    ensures LowOnes(w, n)
  {
    forall i | 0 <= i < |w| ensures w[i] == (i < n) {
      if i < n { assert i <= n - 1 < i + |u| && u[n - 1]; }
    }
  }

  lemma {:induction false} ClearValue(w: Word)
    requires forall i :: 0 <= i < |w| ==> !w[i]
    ensures Value(w) == 0
  {
    if w != [] { ClearValue(w[1..]); }
  }

  // i & (size - 1) is i % size, for a size that is a power of two.
  lemma {:induction false} MaskIsMod(w: Word, mask: Word, n: nat)
    requires |w| == |mask| && LowOnes(mask, n)
    ensures Value(And(w, mask)) == Value(w) % Pow2(n)
  {
    var r := And(w, mask);
    if n == 0 {
      ClearValue(r);
      assert Value(w) % 1 == 0;
    } else {
      MaskIsMod(w[1..], mask[1..], n - 1);
      assert r[1..] == And(w[1..], mask[1..]);
      var b, v, p := if w[0] then 1 else 0, Value(w[1..]), Pow2(n - 1);
      assert Value(w) == b + 2 * v && Value(r) == b + 2 * (v % p);
      DoubleMod(b, v, p);
    }
  }

  lemma DoubleMod(b: nat, v: nat, p: nat)
    requires b < 2 && p > 0
    ensures (b + 2 * v) % (2 * p) == b + 2 * (v % p)
  {
    var q, m := v / p, v % p;
    assert v == p * q + m;
    assert b + 2 * v == (2 * p) * q + (b + 2 * m);
    assert 0 <= b + 2 * m < 2 * p;
    ModUnique(b + 2 * v, 2 * p, q, b + 2 * m);
  }
}
