// The clocks of the manager and the catch-up loop of its events in 32-bit
// arithmetic, where they may wrap around.
module WrappedClocks {
  import opened Arithmetic
  import opened TimerSpec
  import opened TimingWheel

  datatype Clocks = Clocks(current: nat, jiffies: nat, core: nat)

  // One turn of the loop of itimer_mgr_run, as far as the clocks go.
  function TickClocks(c: Clocks, interval: nat): Clocks {
    Clocks((c.current + interval) % WRAP, (c.jiffies + 1) % WRAP, (c.core + TicksTo(c.core, c.jiffies)) % WRAP)
  }

  function TurnClocks(c: Clocks, interval: nat, n: nat): Clocks {
    if n == 0 then c else TickClocks(TurnClocks(c, interval, n - 1), interval)
  }

  // Lock step: whatever the wrap-arounds, the core's counter stays with the
  // manager's and current is its initial value plus the elapsed ticks.
  lemma {:induction false} LockStep(c: Clocks, interval: nat, n: nat)
    requires c.core == c.jiffies < WRAP && c.current < WRAP
    ensures var z := TurnClocks(c, interval, n);
      && z.core == z.jiffies == (c.jiffies + n) % WRAP
      && z.current == (c.current + n * interval) % WRAP
  {
    hide TicksTo;
    if n > 0 {
      LockStep(c, interval, n - 1);
      var z, done := TurnClocks(c, interval, n - 1), (n - 1) * interval;
      assert n * interval == done + interval;
      AddOne(c.jiffies, n - 1, 1);
      AddOne(c.current, done, interval);
      assert TicksTo(z.core, z.jiffies) == 1 by { Caught(z.core); }
    }
  }

  lemma Caught(j: nat)
    ensures TicksTo(j, j) == 1
  {
  }

  lemma AddOne(a: nat, b: int, c: int)
    ensures ((a + b) % WRAP + c) % WRAP == (a + (b + c)) % WRAP
  {
    var q := (a + b) / WRAP;
    assert a + b == WRAP * q + (a + b) % WRAP;
  }

  // ----- where the catch-up loop is exact -----

  // slap after k turns of the loop.
  function SlapAfter(slap: nat, period: nat, k: nat): nat {
    if k == 0 then slap else (SlapAfter(slap, period, k - 1) + period) % WRAP
  }

  // The loop of an infinitely repeating event turns n times and then ends.
  ghost predicate Serves(slap: nat, period: nat, current: nat, n: nat) {
    (forall k: nat :: k < n ==> SlapAfter(slap, period, k) <= current) && SlapAfter(slap, period, n) > current
  }

  lemma {:induction false} SlapIsMod(slap: nat, period: nat, k: nat)
    ensures SlapAfter(slap % WRAP, period, k) == (slap + k * period) % WRAP
  {
    if k > 0 {
      var before := (k - 1) * period;
      assert k * period == before + period;
      SlapIsMod(slap, period, k - 1);
      AddOne(slap, before, period);
    }
  }

  // Two times less than a wrap-around apart are in the same epoch of 2^32
  // exactly if they compare as their remainders do.
  lemma SameEpoch(a: nat, b: nat)
    requires a <= b < a + WRAP
    ensures a / WRAP == b / WRAP <==> a % WRAP <= b % WRAP
  {
  }

  // An event that is behind, in true time, by `due` deadlines: the loop serves
  // exactly these, and ends, if and only if the first deadline, the current
  // time and the next deadline all lie in the same epoch of 2^32.
  lemma CatchUpIsExact(slap: nat, period: nat, current: nat)
    requires 0 < period < WRAP && slap <= current < slap + WRAP
    ensures var due := (current - slap) / period + 1;
      Serves(slap % WRAP, period, current % WRAP, due) <==> slap / WRAP == current / WRAP == (slap + due * period) / WRAP
  {
    hide SlapAfter;
    var due := (current - slap) / period + 1;
    var last, next := slap + (due - 1) * period, slap + due * period;
    NextIsAfter(slap, period, current);
    SameEpoch(slap, current);
    SameEpoch(current, next);
    SlapIsMod(slap, period, due);
    SlapIsMod(slap, period, 0);
    if slap / WRAP == current / WRAP == next / WRAP {
      forall k: nat | k < due ensures SlapAfter(slap % WRAP, period, k) <= current % WRAP {
        NotAfter(slap, period, current, k);
        SlapIsMod(slap, period, k);
      }
      StrictlyLess(current, next);
    }
  }

  lemma StrictlyLess(a: nat, b: nat)
    requires a < b && a / WRAP == b / WRAP
    ensures a % WRAP < b % WRAP
  {
  }

  lemma NextIsAfter(slap: nat, period: nat, current: nat)
    requires 0 < period && slap <= current
    ensures current < slap + ((current - slap) / period + 1) * period <= current + period
  {
    var q := (current - slap) / period;
    assert (q + 1) * period == q * period + period;
    assert current - slap == q * period + (current - slap) % period;
  }

  // Deadlines that are due, in the epoch of the current time.
  lemma NotAfter(slap: nat, period: nat, current: nat, k: nat)
    requires 0 < period && slap <= current && slap / WRAP == current / WRAP && k <= (current - slap) / period
    ensures (slap + k * period) % WRAP <= current % WRAP
  {
    var q := (current - slap) / period;
    assert current - slap == q * period + (current - slap) % period;
    MulMonotone(0, k, period);
    MulMonotone(k, q, period);
    var d := slap + k * period;
    Between(slap, d, current);
  }

  lemma Between(a: nat, b: nat, c: nat)
    requires a <= b <= c && a / WRAP == c / WRAP
    ensures b % WRAP <= c % WRAP
  {
  }

  // The next deadline has wrapped: an event one deadline behind is served again.
  lemma CatchUpOverruns()
    ensures !Serves(0xFFFF_FFFB, 10, 0xFFFF_FFFB, 1) && SlapAfter(0xFFFF_FFFB, 10, 1) == 5
  {
    assert SlapAfter(0xFFFF_FFFB, 10, 0) == 0xFFFF_FFFB;
  }

  // The current time has wrapped and the deadline has not: nothing is served,
  // although a deadline is due.
  lemma CatchUpMisses()
    ensures var slap, current := 0xFFFF_FFFB, 0x1_0000_0005; slap < current && Serves(slap % WRAP, 10, current % WRAP, 0)
  {
  }

  // At the last moment before the wrap-around the loop never ends.
  lemma {:induction false} CatchUpNeverEnds(slap: nat, period: nat, k: nat)
    requires slap < WRAP
    ensures SlapAfter(slap, period, k) <= 0xFFFF_FFFF
  {
  }

  // An event behind by a whole wrap-around or more may be served exactly all
  // the same, so the condition is not necessary there.
  lemma CatchUpByChance()
    ensures var slap, period, current := 0xB000_0000, 0x5000_0000, 0x1_C000_0000;
      && current >= slap + WRAP && slap / WRAP != current / WRAP && (current - slap) / period + 1 == 4
      && Serves(slap % WRAP, period, current % WRAP, 4)
  {
    var s, p := 0xB000_0000, 0x5000_0000;
    assert SlapAfter(s, p, 0) == s;
    assert SlapAfter(s, p, 1) == 0;
    assert SlapAfter(s, p, 2) == 0x5000_0000;
    assert SlapAfter(s, p, 3) == 0xA000_0000;
    assert SlapAfter(s, p, 4) == 0xF000_0000;
    forall k: nat | k < 4 ensures SlapAfter(s, p, k) <= 0xC000_0000 {
      assert k == 0 || k == 1 || k == 2 || k == 3;
    }
  }
}
