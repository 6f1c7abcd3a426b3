// Where the wheel puts a node, and why each slot is emptied at the right tick.
module WheelPlacement {
  import opened Arithmetic
  import opened IntrusiveLists
  import opened TimerSpec

  // Ticks covered by one slot of a level.
  function Unit(level: nat): (u: nat)
    ensures u >= 1
  {
    match level
    case 2 => 0x100
    case 3 => 0x4000
    case 4 => 0x10_0000
    case 5 => 0x400_0000
    case _ => 1
  }

  // itimer_internal_add's choice of list, from 32-bit values.
  function HeadFor(expires: nat, jiffies: nat): (h: Head)
    ensures h.Slot?
  {
    var idx := (expires - jiffies) % WRAP;
    if idx < 0x100 then Slot(1, expires % 256)
    else if idx < 0x4000 then Slot(2, (expires / 0x100) % 64)
    else if idx < 0x10_0000 then Slot(3, (expires / 0x4000) % 64)
    else if idx < 0x400_0000 then Slot(4, (expires / 0x10_0000) % 64)
    else if idx >= HALF then Slot(1, jiffies % 256)
    else Slot(5, (expires / 0x400_0000) % 64)
  }

  // The tick at which the slot of a node due at d is emptied into lower levels.
  function CascadeTick(level: nat, d: nat): int {
    d - d % Unit(level)
  }

  // A node due at tick d may sit in list h when the next tick is `now` and the
  // levels up to `cascaded` have had their cascade for it.  `level` is the
  // level being cascaded.
  ghost predicate Placed(h: Head, d: nat, now: nat, cascaded: nat, level: nat) {
    match h
    case Slot(l, i) =>
      if l == 1 then i == d % 256 && now <= d < now + 256
      else
        && 2 <= l <= 5 && i == (d / Unit(l)) % 64 && now <= d < now + 64 * Unit(l)
        && (if l <= cascaded then now < CascadeTick(l, d) else now <= CascadeTick(l, d))
    case Cascading => 2 <= level <= 5 && CascadeTick(level, d) == now
    case Draining => d + 1 == now
  }

  // Lists whose nodes are re-added from `expires` must hold the true one.
  ghost predicate KeepsExpiry(h: Head) {
    h.Cascading? || (h.Slot? && h.level >= 2)
  }

  lemma SameDistance(now: nat, expires: nat)
    ensures (expires - now % WRAP) % WRAP == Distance(now, expires)
  {
    var q := now / WRAP;
    assert now == WRAP * q + now % WRAP;
    assert expires - now % WRAP == (expires - now) + WRAP * q;
  }

  // Counters that agree modulo 2^32 pick the same slot.
  lemma SlotOfCounter(d: nat)
    ensures (d % WRAP) % 256 == d % 256
    ensures ((d % WRAP) / 0x100) % 64 == (d / 0x100) % 64
    ensures ((d % WRAP) / 0x4000) % 64 == (d / 0x4000) % 64
    ensures ((d % WRAP) / 0x10_0000) % 64 == (d / 0x10_0000) % 64
    ensures ((d % WRAP) / 0x400_0000) % 64 == (d / 0x400_0000) % 64
  {
    Slot1OfCounter(d);
    Slot2OfCounter(d);
    Slot3OfCounter(d);
    Slot4OfCounter(d);
    Slot5OfCounter(d);
  }

  lemma Slot1OfCounter(d: nat)
    ensures (d % WRAP) % 256 == d % 256
  {
    assert d == 256 * (0x100_0000 * (d / WRAP)) + d % WRAP;
  }

  lemma Slot2OfCounter(d: nat)
    ensures ((d % WRAP) / 0x100) % 64 == (d / 0x100) % 64
  {
    assert d / 0x100 == 0x100_0000 * (d / WRAP) + (d % WRAP) / 0x100;
  }

  lemma Slot3OfCounter(d: nat)
    ensures ((d % WRAP) / 0x4000) % 64 == (d / 0x4000) % 64
  {
    assert d / 0x4000 == 0x4_0000 * (d / WRAP) + (d % WRAP) / 0x4000;
  }

  lemma Slot4OfCounter(d: nat)
    ensures ((d % WRAP) / 0x10_0000) % 64 == (d / 0x10_0000) % 64
  {
    assert d / 0x10_0000 == 0x1000 * (d / WRAP) + (d % WRAP) / 0x10_0000;
  }

  lemma Slot5OfCounter(d: nat)
    ensures ((d % WRAP) / 0x400_0000) % 64 == (d / 0x400_0000) % 64
  {
    assert d / 0x400_0000 == 0x40 * (d / WRAP) + (d % WRAP) / 0x400_0000;
  }

  lemma DueCounter(now: nat, expires: nat)
    requires expires < WRAP && Distance(now, expires) < HALF
    ensures DueTick(now, expires) % WRAP == expires
  {
    var d := now + Distance(now, expires);
    var q := (expires - now) / WRAP;
    assert expires - now == WRAP * q + Distance(now, expires);
    assert d == expires - WRAP * q;
  }

  // A node just added is placed, strictly ahead of its cascade.
  lemma AddedIsPlaced(now: nat, expires: nat, level: nat)
    requires expires < WRAP
    ensures var h := HeadFor(expires, now % WRAP);
      && Placed(h, DueTick(now, expires), now, 5, level)
      && h.Slot? && (h.level >= 2 ==> expires == DueTick(now, expires) % WRAP)
  {
    SameDistance(now, expires);
    if Distance(now, expires) < HALF {
      var d := DueTick(now, expires);
      DueCounter(now, expires);
      SlotOfCounter(d);
    } else {
      SlotOfCounter(now);
    }
  }

  // Being ready for a later cascade includes being ready for an earlier one.
  lemma PlacedWeaken(h: Head, d: nat, now: nat, cascaded: nat, level: nat, level': nat)
    requires Placed(h, d, now, 5, level) && h.Slot?
    ensures Placed(h, d, now, cascaded, level')
  {
  }

  // ITIMER_INDEX: the slot that level cascades at tick now.
  function CascadeIndex(level: nat, jiffies: nat): nat {
    (jiffies / Unit(level)) % 64
  }

  lemma CascadeIndexOfCounter(level: nat, now: nat)
    requires 2 <= level <= 5
    ensures CascadeIndex(level, now % WRAP) == CascadeIndex(level, now)
  {
    SlotOfCounter(now);
  }

  // The slot cascaded at `now` holds exactly the nodes whose cascade tick this is.
  lemma CascadedSlot(level: nat, index: nat, d: nat, now: nat)
    requires 2 <= level <= 5 && now % Unit(level) == 0
    requires Placed(Slot(level, index), d, now, level - 1, 0)
    ensures index == CascadeIndex(level, now) <==> CascadeTick(level, d) == now
  {
    match level
    case 2 => CascadedSlotAt(0x100, d, now);
    case 3 => CascadedSlotAt(0x4000, d, now);
    case 4 => CascadedSlotAt(0x10_0000, d, now);
    case 5 => CascadedSlotAt(0x400_0000, d, now);
  }

  lemma CascadedSlotAt(u: nat, d: nat, now: nat)
    requires u == 0x100 || u == 0x4000 || u == 0x10_0000 || u == 0x400_0000
    requires now % u == 0 && now <= d - d % u && d < now + 64 * u
    ensures (d / u) % 64 == (now / u) % 64 <==> d - d % u == now
  {
    var a, b := d / u, now / u;
    assert d - d % u == u * a && now == u * b;
    assert b <= a < b + 64;
    assert a % 64 == b % 64 <==> a == b by { SmallGap(a, b); }
  }

  lemma SmallGap(a: nat, b: nat)
    requires b <= a < b + 64
    ensures a % 64 == b % 64 <==> a == b
  {
  }

  // A node that leaves a level at its cascade tick is so close that it goes to
  // a strictly lower level, never late, and with its due tick unchanged.
  lemma CascadedGoesDown(level: nat, d: nat, now: nat)
    requires 2 <= level <= 5 && CascadeTick(level, d) == now
    ensures DueTick(now, d % WRAP) == d
    ensures var h := HeadFor(d % WRAP, now % WRAP); h.Slot? && h.level < level
  {
    var x := d - now;
    assert x == d % Unit(level) && x < Unit(level) <= 0x400_0000;
    ShortDistance(now, d);
    SameDistance(now, d % WRAP);
  }

  lemma ShortDistance(now: nat, d: nat)
    requires now <= d < now + WRAP
    ensures Distance(now, d % WRAP) == d - now
  {
    var q := d / WRAP;
    assert d == WRAP * q + d % WRAP;
    var x := d % WRAP - now;
    assert x == (d - now) + WRAP * (-q);
    assert x % WRAP == (d - now) % WRAP;
  }

  // No level whose lower index is not zero has a cascade due.
  lemma NotYetCascading(level: nat, d: nat, now: nat)
    requires 2 <= level <= 5 && now % Unit(level) != 0
    ensures CascadeTick(level, d) != now
  {
    hide Unit;
    var u := Unit(level);
    assert d == u * (d / u) + d % u;
    ModUnique(d - d % u, u, d / u, 0);
  }

  // A level cascades when the index of the level below is zero.
  lemma NextLevelAligned(level: nat, now: nat)
    requires 2 <= level <= 4 && now % Unit(level) == 0
    ensures now % Unit(level + 1) == 0 <==> CascadeIndex(level, now) == 0
  {
    match level
    case 2 => Aligned(now, 0x100);
    case 3 => Aligned(now, 0x4000);
    case 4 => Aligned(now, 0x10_0000);
  }

  lemma Aligned(now: nat, u: nat)
    requires u == 0x100 || u == 0x4000 || u == 0x10_0000
    requires now % u == 0
    ensures now % (64 * u) == 0 <==> (now / u) % 64 == 0
  {
    assert now == u * (now / u);
  }

  lemma {:induction false} HigherUnits(level: nat, higher: nat, now: nat)
    requires 2 <= level <= higher <= 5 && now % Unit(level) != 0
    ensures now % Unit(higher) != 0
    decreases higher
  {
    if level < higher {
      HigherUnits(level, higher - 1, now);
      assert Unit(higher) == Unit(higher - 1) * 64;
      hide Unit;
      if now % Unit(higher) == 0 { FactorDivides(now, Unit(higher - 1), 64); }
    }
  }

  lemma FactorDivides(now: nat, u: nat, k: nat)
    requires u > 0 && k > 0 && u * k > 0 && now % (u * k) == 0
    ensures now % u == 0
  {
    var q := now / (u * k);
    assert now == u * k * q == u * (k * q);
    ModUnique(now, u, k * q, 0);
  }
}
