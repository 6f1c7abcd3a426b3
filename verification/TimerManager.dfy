// Periodic events over the timing wheel: periods, repeat counts and catch-up,
// in milliseconds, with a manager that turns clock readings into ticks.
module TimerManager {
  import opened Arithmetic
  import opened IntrusiveLists
  import opened TimerSpec
  import opened WheelPlacement
  import opened TimingWheel
  import opened EventHistory

  const LIMIT := 300000
  const FARTHEST := 0x7000_0000

  datatype Evt = Evt(period: nat, slap: nat, repeat: int, running: bool, started: bool)

  ghost predicate EvtOpOk(op: EvtOp, maxPeriod: nat) {
    op.StartEvt? ==> op.period <= maxPeriod && (op.period > 0 || op.repeat >= 1)
  }

  ghost predicate EvtScriptOk(script: nat -> seq<EvtOp>, maxPeriod: nat) {
    forall k: nat, i :: 0 <= i < |script(k)| ==> EvtOpOk(script(k)[i], maxPeriod)
  }

  // The life of an event since it was last started: when, with what period and
  // repeat count, how many of its deadlines have been served, how many times
  // its callback has run, whether it may still run, whether it has run as often
  // as it was asked to, and the position in the history after its start.
  datatype Track = Track(begun: nat, period: nat, repeat: int, served: nat, runs: nat, active: bool, finished: bool, since: nat)

  // The track tells what the history says of the event.
  ghost predicate TrackOk(t: Track, h: seq<Act>, e: Node) {
    && 0 < t.since <= |h| && h[t.since - 1] == Started(e, t.begun, t.period, t.repeat) && NoStart(h, e, t.since)
    && t.runs == Count(h, e, t.since)
    && (t.active ==> NoStop(h, e, t.since)) && (NoStop(h, e, t.since) ==> t.active || t.finished)
  }

  // A start, a stop or a call of another event does not matter.
  lemma OtherAct(t: Track, h: seq<Act>, a: Act, e: Node)
    requires a.e != e
    ensures TrackOk(t, h, e) ==> TrackOk(t, h + [a], e)
    ensures NoStart(h, e, 0) && NoCall(h, e, 0) ==> NoStart(h + [a], e, 0) && NoCall(h + [a], e, 0)
  {
    hide Count;
    if TrackOk(t, h, e) {
      CountSnoc(h, a, e, t.since);
      assert forall i :: 0 <= i < |h| ==> (h + [a])[i] == h[i];
      StopSnoc(h, a, e, t.since);
    }
  }

  lemma StopSnoc(h: seq<Act>, a: Act, e: Node, from: nat)
    requires from <= |h|
    ensures NoStop(h + [a], e, from) <==> NoStop(h, e, from) && a != Stopped(e)
    ensures NoStart(h + [a], e, from) <==> NoStart(h, e, from) && !(a.Started? && a.e == e)
  {
    var g := h + [a];
    assert g[|h|] == a && forall i :: 0 <= i < |h| ==> g[i] == h[i];
    if NoStop(g, e, from) { forall i | from <= i < |h| ensures h[i] != Stopped(e) { assert g[i] == h[i]; } }
    if NoStart(g, e, from) { forall i | from <= i < |h| ensures !(h[i].Started? && h[i].e == e) { assert g[i] == h[i]; } }
  }

  lemma StartedAct(t: Track, h: seq<Act>, e: Node)
    requires t.since == |h| + 1 && t.runs == 0 && t.active
    ensures TrackOk(t, h + [Started(e, t.begun, t.period, t.repeat)], e)
  {
  }

  lemma StoppedAct(t: Track, h: seq<Act>, e: Node)
    requires TrackOk(t, h, e)
    ensures TrackOk(t.(active := false), h + [Stopped(e)], e)
  {
    hide Count;
    CountSnoc(h, Stopped(e), e, t.since);
    StopSnoc(h, Stopped(e), e, t.since);
    assert (h + [Stopped(e)])[t.since - 1] == h[t.since - 1];
  }

  lemma CalledAct(t: Track, h: seq<Act>, e: Node, x: nat)
    requires TrackOk(t, h, e)
    ensures TrackOk(t.(runs := t.runs + 1), h + [Called(e, x)], e)
  {
    hide Count;
    CountSnoc(h, Called(e, x), e, t.since);
    StopSnoc(h, Called(e, x), e, t.since);
    assert (h + [Called(e, x)])[t.since - 1] == h[t.since - 1];
  }

  lemma ServedTrack(t: Track, served: nat, h: seq<Act>, e: Node)
    requires TrackOk(t, h, e)
    ensures TrackOk(t.(served := served), h, e)
  {
  }

  lemma FinishedTrack(t: Track, h: seq<Act>, e: Node)
    requires TrackOk(t, h, e)
    ensures TrackOk(t.(active := false, finished := true), h, e)
  {
  }

  lemma MayBeCalled(t: Track, h: seq<Act>, e: Node)
    requires TrackOk(t, h, e) && t.active
    ensures exists s: nat :: s <= |h| && 0 < s && h[s - 1].Started? && h[s - 1].e == e && NoStop(h, e, s)
  {
    assert h[t.since - 1].Started?;
  }

  lemma StopOfNothing(h: seq<Act>, e: Node)
    requires NoStart(h, e, 0) && NoCall(h, e, 0)
    ensures NoStart(h + [Stopped(e)], e, 0) && NoCall(h + [Stopped(e)], e, 0)
  {
  }

  // By time x the last of a limited number of deadlines has been served.
  ghost predicate LastServed(t: Track, x: nat) {
    t.repeat > 0 && t.served == t.repeat && t.begun + t.repeat * t.period <= x
  }

  lemma LastServedIsCapped(t: Track, x: nat)
    requires LastServed(t, x) && t.period > 0
    ensures t.repeat <= Deadlines(t.begun, t.period, x)
  {
    var a := t.repeat * t.period;
    MulMonotone(0, t.repeat, t.period);
    DivMonotone(a, x - t.begun, t.period);
    DivUnique(a, t.period, t.repeat);
  }

  // The fields of a started event tell how many deadlines have been served.
  ghost predicate CountersOk(v: Evt, t: Track, x: nat) {
    && v.started && t.active && !t.finished
    && v.period == t.period && v.slap == t.begun + (t.served + 1) * t.period && v.slap < WRAP
    && t.begun <= x && (t.served > 0 ==> t.begun + t.served * t.period <= x)
    && (t.period == 0 ==> t.served == 0 && t.repeat >= 1)
    && (if t.repeat <= 0 then v.repeat == t.repeat else v.repeat == t.repeat - t.served && v.repeat >= 1)
  }

  // Event e, with its node due at tick d, when tick `tick` has current time x:
  // no tick before d reaches the next deadline.
  ghost predicate EvtOk(v: Evt, t: Track, d: nat, x: nat, tick: nat, interval: nat) {
    && CountersOk(v, t, x)
    && (t.period > 0 ==> x + (d - 1 - tick) * interval < v.slap)
  }

  // Nothing before the due tick is a deadline, so the count is exact.
  lemma ServedIsExact(v: Evt, t: Track, d: nat, x: nat, tick: nat, interval: nat)
    requires EvtOk(v, t, d, x, tick, interval) && t.period > 0 && d > tick
    ensures t.served == Deadlines(t.begun, t.period, x)
    ensures t.repeat > 0 ==> t.served < t.repeat
  {
    var early := (d - 1 - tick) * interval;
    assert early >= 0 by { MulMonotone(0, d - 1 - tick, interval); }
    CountIsExact(t.begun, t.period, t.served, x, v.slap);
  }

  lemma CountIsExact(begun: nat, period: nat, q: nat, x: nat, slap: nat)
    requires period > 0 && slap == begun + (q + 1) * period && begun <= x < slap
    requires q > 0 ==> begun + q * period <= x
    ensures q == (x - begun) / period
  {
    assert (q + 1) * period == period * q + period;
    DivUnique(x - begun, period, q);
  }

  // (slap - current + interval - 1) / interval, capped, in 32-bit arithmetic.
  function TicksAhead(slap: nat, current: nat, interval: nat): nat
    requires interval > 0
  {
    var ex := ((slap - current + interval - 1) % WRAP) / interval;
    if ex >= FARTHEST then FARTHEST else ex
  }

  // Arming ahead of a deadline never skips it.
  lemma ArmedBeforeDeadline(slap: nat, x: nat, tick: nat, now: nat, interval: nat)
    requires interval > 0 && x < slap < WRAP && (now == tick || now == tick + 1)
    ensures var d := DueTick(now, (tick % WRAP + TicksAhead(slap, x, interval)) % WRAP);
      d >= now && x + (d - 1 - tick) * interval < slap
  {
    var ex := TicksAhead(slap, x, interval);
    TicksAheadIsEarly(slap, x, interval);
    ArmedTick(tick, now, ex);
  }

  // A node armed ex ticks after `tick` is due then, or at once if that is past.
  lemma ArmedTick(tick: nat, now: nat, ex: nat)
    requires ex < HALF && (now == tick || now == tick + 1)
    ensures DueTick(now, (tick % WRAP + ex) % WRAP) == if tick + ex >= now then tick + ex else now
  {
    assert (tick % WRAP + ex) % WRAP == (tick + ex) % WRAP;
    if tick + ex >= now { ShortDistance(now, tick + ex); } else { OneBehind(tick); }
  }

  lemma TicksAheadIsEarly(slap: nat, x: nat, interval: nat)
    requires interval > 0 && x < slap < WRAP
    ensures TicksAhead(slap, x, interval) <= FARTHEST
    ensures x + (TicksAhead(slap, x, interval) - 1) * interval < slap
  {
    var a := slap - x + interval - 1;
    var ex, q := TicksAhead(slap, x, interval), a / interval;
    DivMonotone(a % WRAP, a, interval);
    assert ex <= q;
    assert interval * q <= a by { assert a == interval * q + a % interval; }
    MulMonotone(ex - 1, q - 1, interval);
    assert (q - 1) * interval == interval * q - interval;
  }

  lemma OneBehind(tick: nat)
    ensures Distance(tick + 1, tick % WRAP) == WRAP - 1
  {
    var q := tick / WRAP;
    assert tick == WRAP * q + tick % WRAP;
    assert tick % WRAP - (tick + 1) == WRAP * (-q - 1) + (WRAP - 1);
  }

  // After one more deadline is served.
  lemma ServeOne(v: Evt, t: Track, x: nat)
    requires t.period == v.period && v.slap == t.begun + (t.served + 1) * t.period && v.slap <= x
    ensures var t' := t.(served := t.served + 1);
      v.slap + v.period == t'.begun + (t'.served + 1) * t'.period && t'.begun + t'.served * t'.period <= x
  {
    assert (t.served + 2) * t.period == (t.served + 1) * t.period + t.period;
  }

  class Manager {
    const wheel: Wheel
    var interval: nat
    var current: nat
    var millisec: nat
    var jiffies: nat
    var events: map<Node, Evt>
    var calls: nat             // user callbacks run so far

    ghost const maxPeriod: nat
    ghost const origin: nat    // current at the start
    ghost var tick: nat        // jiffies, without wrapping
    ghost var tracks: map<Node, Track>
    ghost var busy: set<Node>  // the event whose callback is running
    ghost var history: seq<Act>

    // itimer_mgr_init
    constructor (now: nat, step: nat, ghost longest: nat)
      requires now + longest < WRAP
      ensures Valid() && busy == {} && wheel.Quiet() && fresh(wheel)
      ensures current == now && interval == (if step < 1 then 1 else step) && jiffies == 0 && millisec == 0
      ensures maxPeriod == longest && tick == wheel.now == 0 && wheel.due == map[] && history == [] && calls == 0
    {
      wheel := new Wheel(0);
      current, interval, jiffies, millisec := now, if step < 1 then 1 else step, 0, 0;
      events, calls := map[], 0;
      maxPeriod, origin, tick, tracks, busy, history := longest, now, 0, map[], {}, [];
    }

    function EvtOf(e: Node): Evt
      reads this
    {
      if e in events then events[e] else Evt(0, 0, 0, false, false)
    }

    // A started event is armed, ahead of its next deadline; outside its own
    // callback it has run once for each deadline served.
    ghost predicate EventOk(e: Node)
      reads this, wheel
    {
      && HistoryOk(e)
      && (e in wheel.due ==>
            && e in tracks
            && EvtOk(EvtOf(e), tracks[e], wheel.due[e], current, tick, interval)
            && (e !in busy ==> tracks[e].runs == tracks[e].served))
    }

    // An event is as the history says; a finished one has run for each of its
    // deadlines.
    ghost predicate HistoryOk(e: Node)
      reads this
    {
      if e in tracks
      then
        && TrackOk(tracks[e], history, e)
        && (tracks[e].finished ==> LastServed(tracks[e], current) && tracks[e].runs == tracks[e].served)
      else NoStart(history, e, 0) && NoCall(history, e, 0)
    }

    ghost predicate Armed(e: Node)
      reads this, wheel
    {
      && (EvtOf(e).started <==> e in wheel.due)
      && EvtOf(e).period <= maxPeriod
      && (e in tracks && tracks[e].active ==> e in wheel.due || e in busy)
    }

    // Everything holds, except that event `hole` is between firing and re-arming.
    ghost predicate ValidBut(hole: set<Node>)
      reads this, wheel
    {
      && wheel.Valid() && wheel.destroyed == {}
      && interval > 0 && jiffies == tick % WRAP && (wheel.now == tick || wheel.now == tick + 1)
      && current + maxPeriod < WRAP && current == TimeOfTick(origin, tick, interval) && StoppedAreQuiet(history)
      && (forall e: Node :: EventOk(e))
      && (forall e: Node :: e !in hole ==> Armed(e))
      && hole !! wheel.due.Keys
    }

    ghost predicate Valid()
      reads this, wheel
    {
      ValidBut({})
    }

    // Lock step: between ticks the wheel's counter is the manager's, and the
    // current time is that of the start plus the ticks since.
    lemma InStep()
      requires Valid() && wheel.now == tick
      ensures wheel.timerJiffies == jiffies == tick % WRAP && current == origin + tick * interval
    {
    }

    // Where the loop over the callbacks of event e stands, with `left` to go.
    ghost predicate Progress(e: Node, left: nat)
      reads this, wheel
    {
      if EvtOf(e).running
      then
        && e in tracks && tracks[e].active && !tracks[e].finished && tracks[e].runs + left == tracks[e].served
        && (e !in wheel.due ==> LastServed(tracks[e], current))
        && (tracks[e].repeat > 0 ==> tracks[e].served <= tracks[e].repeat)
      else if e in wheel.due then e in tracks && tracks[e].runs == tracks[e].served
      else e in tracks ==> !tracks[e].active
    }

    // Arms the node of a started event for its next deadline.
    method Rearm(e: Node)
      requires ValidBut({e}) && EvtOf(e).started && EvtOf(e).period <= maxPeriod && e in tracks
      requires EvtOk(EvtOf(e), tracks[e], NextTick(e), current, tick, interval)
      requires e !in busy ==> tracks[e].runs == tracks[e].served
      modifies wheel
      ensures Valid() && wheel.now == old(wheel.now) && wheel.fired == old(wheel.fired)
      ensures wheel.due == old(wheel.due)[e := old(NextTick(e))]
      ensures wheel.NoNewExpired(old(wheel.lists))
    {
      hide Wheel.Valid, Wheel.NoNewExpired, EvtOk, DueTick, TicksAhead;
      var ex := TicksAhead(EvtOf(e).slap, current, interval);
      wheel.Add(e, (jiffies + ex) % WRAP);
      forall x: Node ensures EventOk(x) && Armed(x) {
        assert old(EventOk(x)) && (x != e ==> old(Armed(x)));
      }
    }

    ghost function NextTick(e: Node): nat
      requires interval > 0
      reads this, wheel
    {
      DueTick(wheel.now, (jiffies + TicksAhead(EvtOf(e).slap, current, interval)) % WRAP)
    }

    // itimer_evt_start
    method Start(e: Node, period: nat, repeat: int)
      requires Valid() && EvtOpOk(StartEvt(e, period, repeat), maxPeriod)
      modifies `events, `tracks, `history, wheel
      ensures Valid() && wheel.now == old(wheel.now) && wheel.fired == old(wheel.fired)
      ensures events == old(events)[e := Evt(period, current + period, repeat, false, true)]
      ensures tracks == old(tracks)[e := Track(current, period, repeat, 0, 0, true, false, |history|)]
      ensures history == old(history) + [Started(e, current, period, repeat)]
      ensures e in wheel.due && forall y: Node :: y != e ==> (y in wheel.due <==> y in old(wheel.due))
      ensures wheel.NoNewExpired(old(wheel.lists))
    {
      hide Wheel.Valid, EvtOk, DueTick, TicksAhead, TrackOk, HistoryOk;
      if EvtOf(e).started {
        Halt(e);
      }
      SetStarted(e, period, repeat);
      StartedIsOk(period, repeat, current, tick, wheel.now, interval, |history|);
      Rearm(e);
    }

    // Overwrites the fields of an event that is not armed.
    method SetEvent(e: Node, v: Evt, ghost t: Track)
      requires ValidBut({e}) && !t.finished && TrackOk(t, history, e)
      modifies `events, `tracks
      ensures ValidBut({e}) && events == old(events)[e := v] && tracks == old(tracks)[e := t]
    {
      hide Wheel.Valid, EvtOk, TrackOk;
      events := events[e := v];
      tracks := tracks[e := t];
      forall x: Node ensures EventOk(x) && (x != e ==> Armed(x)) {
        assert old(EventOk(x)) && (x != e ==> old(Armed(x)));
      }
    }

    // The fields of an event that is not armed, at its start.
    method SetStarted(e: Node, period: nat, repeat: int)
      requires ValidBut({e})
      modifies `events, `tracks, `history
      ensures ValidBut({e}) && history == old(history) + [Started(e, current, period, repeat)]
      ensures events == old(events)[e := Evt(period, current + period, repeat, false, true)]
      ensures tracks == old(tracks)[e := Track(current, period, repeat, 0, 0, true, false, |history|)]
    {
      hide Wheel.Valid, EvtOk, TrackOk, NoStart, NoCall, StoppedAreQuiet;
      ghost var a := Started(e, current, period, repeat);
      QuietSnoc(history, a);
      history := history + [a];
      events := events[e := Evt(period, current + period, repeat, false, true)];
      tracks := tracks[e := Track(current, period, repeat, 0, 0, true, false, |history|)];
      StartedAct(tracks[e], old(history), e);
      forall x: Node ensures EventOk(x) && (x != e ==> Armed(x)) {
        assert old(EventOk(x)) && (x != e ==> old(Armed(x)));
        if x != e { OtherAct(if x in tracks then tracks[x] else tracks[e], old(history), a, x); }
      }
    }

    // Disarms the node of an event.
    method Halt(e: Node)
      requires Valid()
      modifies wheel
      ensures ValidBut({e}) && wheel.now == old(wheel.now) && wheel.fired == old(wheel.fired)
      ensures wheel.due == old(wheel.due) - {e} && wheel.NoNewExpired(old(wheel.lists)) && EvtOf(e).period <= maxPeriod
    {
      hide Wheel.Valid, EvtOk, HistoryOk;
      assert Armed(e);
      var _ := wheel.Del(e);
      forall x: Node ensures EventOk(x) && (x != e ==> Armed(x)) {
        assert old(EventOk(x)) && old(Armed(x));
      }
    }

    // itimer_evt_stop
    method Stop(e: Node)
      requires Valid()
      modifies `events, `tracks, `history, wheel
      ensures Valid() && wheel.now == old(wheel.now) && wheel.fired == old(wheel.fired)
      ensures events == old(events)[e := old(EvtOf(e)).(started := false, running := false)]
      ensures tracks == if e in old(tracks) then old(tracks)[e := old(tracks)[e].(active := false)] else old(tracks)
      ensures history == old(history) + [Stopped(e)]
      ensures e !in wheel.due && wheel.due == old(wheel.due) - {e}
      ensures wheel.NoNewExpired(old(wheel.lists))
    {
      hide Wheel.Valid, EvtOk, TrackOk, HistoryOk;
      Halt(e);
      SetStopped(e);
    }

    method SetStopped(e: Node)
      requires ValidBut({e}) && EvtOf(e).period <= maxPeriod
      modifies `events, `tracks, `history
      ensures Valid() && events == old(events)[e := old(EvtOf(e)).(started := false, running := false)]
      ensures tracks == if e in old(tracks) then old(tracks)[e := old(tracks)[e].(active := false)] else old(tracks)
      ensures history == old(history) + [Stopped(e)]
    {
      hide Wheel.Valid, EvtOk, TrackOk, NoStart, NoCall, StoppedAreQuiet, Count;
      QuietSnoc(history, Stopped(e));
      history := history + [Stopped(e)];
      events := events[e := EvtOf(e).(started := false, running := false)];
      if e in tracks { tracks := tracks[e := tracks[e].(active := false)]; }
      forall x: Node ensures EventOk(x) && Armed(x) {
        assert old(EventOk(x)) && (x != e ==> old(Armed(x)));
        if x != e {
          OtherAct(if x in tracks then tracks[x] else Track(0, 0, 0, 0, 0, false, false, 0), old(history), Stopped(e), x);
        } else if x in tracks {
          StoppedAct(old(tracks)[e], old(history), e);
        } else {
          StopOfNothing(old(history), e);
        }
      }
    }

    // What a user callback does with the events.
    method RunUserOps(ops: seq<EvtOp>, ghost e: Node, ghost left: nat)
      requires Valid() && Progress(e, left) && forall i :: 0 <= i < |ops| ==> EvtOpOk(ops[i], maxPeriod)
      modifies `events, `tracks, `history, wheel
      ensures Valid() && Progress(e, left) && wheel.now == old(wheel.now)
      ensures |ListOf(wheel.lists, Draining)| <= |ListOf(old(wheel.lists), Draining)|
      ensures history == old(history) + ActsOf(ops, current)
    {
      hide Valid;
      var i := 0;
      while i < |ops|
        invariant 0 <= i <= |ops| && Valid() && Progress(e, left) && wheel.now == old(wheel.now)
        invariant |ListOf(wheel.lists, Draining)| <= |ListOf(old(wheel.lists), Draining)|
        invariant history == old(history) + ActsOf(ops[..i], current)
      {
        assert EvtOpOk(ops[i], maxPeriod) && ops[..i + 1][..i] == ops[..i];
        match ops[i] {
          case StartEvt(x, period, repeat) => Start(x, period, repeat);
          case StopEvt(x) => Stop(x);
        }
        i := i + 1;
      }
      assert ops[..i] == ops;
    }

    // One run of the user's callback: only for an event that has not been
    // stopped since it was started, and no more often than it may repeat.
    method Invoke(e: Node, ops: seq<EvtOp>, ghost left: nat)
      requires Valid() && busy == {e} && EvtOf(e).running && left > 0 && Progress(e, left)
      requires tracks[e].active && (tracks[e].repeat > 0 ==> tracks[e].runs < tracks[e].repeat)
      requires forall i :: 0 <= i < |ops| ==> EvtOpOk(ops[i], maxPeriod)
      modifies `events, `tracks, `calls, `history, wheel
      ensures Valid() && Progress(e, left - 1) && wheel.now == old(wheel.now)
      ensures |ListOf(wheel.lists, Draining)| <= |ListOf(old(wheel.lists), Draining)|
      ensures calls == old(calls) + 1 && history == old(history) + ([Called(e, current)] + ActsOf(ops, current))
    {
      hide Wheel.Valid, Valid;
      SetCalled(e, left);
      RunUserOps(ops, e, left - 1);
    }

    method SetCalled(e: Node, ghost left: nat)
      requires Valid() && busy == {e} && EvtOf(e).running && left > 0 && Progress(e, left)
      modifies `tracks, `calls, `history
      ensures Valid() && Progress(e, left - 1) && calls == old(calls) + 1 && history == old(history) + [Called(e, current)]
    {
      hide Wheel.Valid, TrackOk, NoStart, NoCall, StoppedAreQuiet;
      ghost var a := Called(e, current);
      assert EventOk(e);
      MayBeCalled(tracks[e], history, e);
      QuietSnoc(history, a);
      calls := calls + 1;
      history := history + [a];
      tracks := tracks[e := tracks[e].(runs := tracks[e].runs + 1)];
      forall x: Node ensures EventOk(x) && Armed(x) {
        assert old(EventOk(x)) && old(Armed(x));
        if x != e { OtherAct(if x in tracks then tracks[x] else tracks[e], old(history), a, x); } else { CalledAct(old(tracks)[e], old(history), e, current); }
      }
    }

    // The callbacks of one firing.
    method InvokeAll(e: Node, count: nat, script: nat -> seq<EvtOp>) returns (ghost called: seq<Node>)
      requires Valid() && busy == {e} && Progress(e, count) && EvtScriptOk(script, maxPeriod)
      modifies `events, `tracks, `calls, `history, wheel
      ensures Valid() && wheel.now == old(wheel.now) && Progress(e, 0)
      ensures |ListOf(wheel.lists, Draining)| <= |ListOf(old(wheel.lists), Draining)|
      ensures |called| <= count && forall x :: x in called ==> x == e
      ensures calls == old(calls) + |called| && history == old(history) + CallActs(script, old(calls), called, current)
    {
      hide Valid, EvtScriptOk, ActsOf, CallActs;
      NoCallActs(script, calls, current);
      var left := count;
      called := [];
      while left > 0
        invariant 0 <= left <= count && Valid() && Progress(e, left) && wheel.now == old(wheel.now)
        invariant |ListOf(wheel.lists, Draining)| <= |ListOf(old(wheel.lists), Draining)|
        invariant |called| == count - left && forall x :: x in called ==> x == e
        invariant calls == old(calls) + |called| && history == old(history) + CallActs(script, old(calls), called, current)
      {
        if !EvtOf(e).running { break; }
        ScriptIsOk(script, maxPeriod, calls);
        CallMore(script, old(calls), called, e, current);
        Invoke(e, script(calls), left);
        called := called + [e];
        left := left - 1;
      }
    }

    // itimer_evt_cb
    method Callback(e: Node, script: nat -> seq<EvtOp>) returns (ghost called: seq<Node>)
      requires ValidBut({e}) && busy == {} && e in tracks && EvtOf(e).period <= maxPeriod && wheel.now == tick + 1
      requires EvtOk(EvtOf(e), tracks[e], tick, current, tick, interval) && tracks[e].runs == tracks[e].served
      requires EvtScriptOk(script, maxPeriod)
      modifies `events, `tracks, `calls, `busy, `history, wheel
      ensures Valid() && busy == {} && wheel.now == old(wheel.now)
      ensures |ListOf(wheel.lists, Draining)| <= |ListOf(old(wheel.lists), Draining)|
      ensures calls == old(calls) + |called| && history == old(history) + CallActs(script, old(calls), called, current)
      ensures forall x :: x in called ==> x == e
    {
      hide Wheel.Valid, CountersOk, EvtScriptOk, TicksAhead, DueTick, TrackOk, CallActs, LastServed, StoppedAreQuiet;
      assert EventOk(e);
      var v, count, stop;
      ghost var t;
      v, t, count, stop := CatchUp(EvtOf(e), tracks[e], current);
      ServedTrack(tracks[e], t.served, history, e);
      CaughtUp(e, v, t, count, stop);
      called := InvokeAll(e, count, script);
      FinishCallback(e);
    }

    // Stores the event after catch-up and arms or stops it.
    method CaughtUp(e: Node, v: Evt, ghost t: Track, count: nat, stop: bool)
      requires ValidBut({e}) && busy == {} && wheel.now == tick + 1
      requires v.period == t.period <= maxPeriod && t.active && !t.finished && t.runs + count == t.served && TrackOk(t, history, e)
      requires t.repeat > 0 ==> t.served <= t.repeat
      requires if stop then LastServed(t, current) else CountersOk(v, t, current) && current < v.slap
      modifies `events, `tracks, `busy, wheel
      ensures Valid() && busy == {e} && Progress(e, count) && wheel.now == old(wheel.now)
      ensures |ListOf(wheel.lists, Draining)| <= |ListOf(old(wheel.lists), Draining)|
    {
      hide Wheel.Valid, CountersOk, TicksAhead, DueTick, TrackOk, StoppedAreQuiet;
      busy := {e};
      forall x: Node ensures EventOk(x) && (x != e ==> Armed(x)) { assert old(EventOk(x)) && (x != e ==> old(Armed(x))); }
      if stop {
        SetEvent(e, v.(started := false, running := false), t);
      } else {
        SetEvent(e, v, t);
        StartedByCounters(v, t, current);
        ArmedBeforeDeadline(v.slap, current, tick, wheel.now, interval);
        Rearm(e);
      }
      SetRunning(e);
    }

    method SetRunning(e: Node)
      requires Valid()
      modifies `events
      ensures Valid() && events == old(events)[e := old(EvtOf(e)).(running := true)]
    {
      hide Wheel.Valid, TrackOk;
      events := events[e := EvtOf(e).(running := true)];
      forall x: Node ensures EventOk(x) && Armed(x) { assert old(EventOk(x)) && old(Armed(x)); }
    }

    method FinishCallback(e: Node)
      requires Valid() && busy == {e} && Progress(e, 0)
      modifies `events, `tracks, `busy
      ensures Valid() && busy == {}
    {
      hide Wheel.Valid, TrackOk, StoppedAreQuiet;
      assert EventOk(e);
      if e in tracks { FinishedTrack(tracks[e], history, e); }
      if e !in wheel.due && EvtOf(e).running { tracks := tracks[e := tracks[e].(active := false, finished := true)]; }
      events := events[e := EvtOf(e).(running := false)];
      busy := {};
      forall x: Node ensures EventOk(x) && Armed(x) { assert old(EventOk(x)) && old(Armed(x)); }
    }

    method DrainEvents(script: nat -> seq<EvtOp>) returns (ghost called: seq<Node>)
      requires Valid() && busy == {} && wheel.now == tick + 1 && EvtScriptOk(script, maxPeriod)
      modifies `events, `tracks, `calls, `busy, `history, wheel
      ensures Valid() && busy == {} && wheel.Quiet() && wheel.now == old(wheel.now)
      ensures calls == old(calls) + |called| && history == old(history) + CallActs(script, old(calls), called, current)
    {
      hide WellLinked, AllPlaced, Covered, LegalTrace, After, EvtScriptOk, EvtOk, HistoryOk, StoppedAreQuiet, CallActs, Armed;
      NoCallActs(script, calls, current);
      called := [];
      while Follow(wheel.next, HeadOf(Draining)) != HeadOf(Draining)
        invariant Valid() && busy == {} && wheel.now == old(wheel.now)
        invariant calls == old(calls) + |called| && history == old(history) + CallActs(script, old(calls), called, current)
        decreases |ListOf(wheel.lists, Draining)|
      {
        EmptyHead(wheel.next, wheel.prev, wheel.lists, Draining);
        var e := PopEvent();
        ghost var more := Callback(e, script);
        CallsCat(script, old(calls), called, more, current);
        called := called + more;
      }
      EmptyHead(wheel.next, wheel.prev, wheel.lists, Draining);
    }

    method PopEvent() returns (e: Node)
      requires Valid() && busy == {} && wheel.now == tick + 1 && !wheel.Quiet()
      modifies wheel
      ensures ValidBut({e}) && wheel.now == old(wheel.now) && e in tracks && EvtOf(e).period <= maxPeriod
      ensures EvtOk(EvtOf(e), tracks[e], tick, current, tick, interval) && tracks[e].runs == tracks[e].served
      ensures |ListOf(wheel.lists, Draining)| < |ListOf(old(wheel.lists), Draining)|
    {
      hide Wheel.Valid, EvtOk;
      e := wheel.PopExpired();
      forall x: Node ensures EventOk(x) && (x != e ==> Armed(x)) { assert old(EventOk(x)) && old(Armed(x)); }
      assert old(EventOk(e)) && old(Armed(e));
    }

    // itimer_core_run with the manager's own counter: exactly one iteration.
    method CoreRun(script: nat -> seq<EvtOp>) returns (ghost called: seq<Node>)
      requires Valid() && busy == {} && wheel.Quiet() && wheel.now == tick && EvtScriptOk(script, maxPeriod)
      modifies `events, `tracks, `calls, `busy, `history, wheel
      ensures Valid() && busy == {} && wheel.Quiet() && wheel.now == tick + 1
      ensures calls == old(calls) + |called| && history == old(history) + CallActs(script, old(calls), called, current)
    {
      hide Wheel.Quiet, EvtScriptOk, EvtOk, WellLinked, AllPlaced, Covered, LegalTrace, After, HistoryOk, StoppedAreQuiet, CallActs;
      NoCallActs(script, calls, current);
      OneIteration(tick);
      called := [];
      while (jiffies - wheel.timerJiffies) % WRAP < HALF
        invariant Valid() && busy == {} && wheel.Quiet()
        invariant wheel.now == tick ==> called == []
        invariant calls == old(calls) + |called| && history == old(history) + CallActs(script, old(calls), called, current)
        decreases tick + 1 - wheel.now
      {
        TickEvents();
        called := DrainEvents(script);
      }
    }

    method TickEvents()
      requires Valid() && wheel.Quiet() && wheel.now == tick
      modifies wheel
      ensures Valid() && wheel.now == tick + 1
    {
      hide Wheel.Valid, EvtOk;
      wheel.BeginTick();
      forall x: Node ensures EventOk(x) && Armed(x) { assert old(EventOk(x)) && old(Armed(x)); }
    }

    // One turn of the loop of itimer_mgr_run.
    method Tick(script: nat -> seq<EvtOp>) returns (ghost called: seq<Node>)
      requires Valid() && busy == {} && wheel.Quiet() && wheel.now == tick && EvtScriptOk(script, maxPeriod)
      requires current + interval + maxPeriod < WRAP
      modifies this, wheel
      ensures Valid() && busy == {} && wheel.Quiet() && wheel.now == tick == old(tick) + 1
      ensures current == old(current) + interval && interval == old(interval) && millisec == (old(millisec) + interval) % WRAP
      ensures calls == old(calls) + |called| && history == old(history) + CallActs(script, old(calls), called, old(current))
      ensures NoDrift(history, old(current)) && StoppedAreQuiet(history)
    {
      hide Wheel.Valid, Wheel.Quiet, EvtScriptOk, CountersOk, NoDrift, HistoryOk, CallActs, StoppedAreQuiet;
      called := CoreRun(script);
      AllServed();
      AdvanceClocks();
    }

    method AdvanceClocks()
      requires Valid() && busy == {} && wheel.now == tick + 1 && current + interval + maxPeriod < WRAP
      modifies `jiffies, `current, `millisec, `tick
      ensures Valid() && tick == old(tick) + 1 && current == old(current) + interval && millisec == (old(millisec) + interval) % WRAP
    {
      hide Wheel.Valid, CountersOk, NextJiffy, TrackOk, StoppedAreQuiet, TimeOfTick;
      label before:
      NextCounter(tick);
      NextTime(origin, tick, interval);
      jiffies := NextJiffy(jiffies);
      current := current + interval;
      millisec := (millisec + interval) % WRAP;
      tick := tick + 1;
      forall x: Node ensures EventOk(x) && Armed(x) {
        assert old@before(EventOk(x)) && old@before(Armed(x));
        if x in wheel.due { LaterTick(EvtOf(x), tracks[x], wheel.due[x], current - interval, tick - 1, interval); }
      }
    }

    lemma AllServed()
      requires Valid() && busy == {} && wheel.now == tick + 1 && wheel.Quiet()
      ensures NoDrift(history, current)
    {
      NothingBehind(wheel.lists, wheel.due, wheel.expires, wheel.now, 1);
      hide Wheel.Valid, TrackOk, CountersOk, Expected;
      forall i: nat | InForce(history, i) && history[i].period > 0
        ensures Count(history, history[i].e, i + 1) == Expected(history[i].time, history[i].period, history[i].repeat, current)
      {
        var e := history[i].e;
        assert EventOk(e) && Armed(e);
        var t := TrackInForce(i);
        ServedAll(e, t);
      }
    }

    // A start in force is what the track of its event tells.
    lemma TrackInForce(i: nat) returns (t: Track)
      requires InForce(history, i) && EventOk(history[i].e)
      ensures history[i].e in tracks && t == tracks[history[i].e] && (t.active || t.finished) && t.runs == Count(history, history[i].e, i + 1)
      ensures t.begun == history[i].time && t.period == history[i].period && t.repeat == history[i].repeat
    {
      hide EvtOk, Count, LastServed;
      var e := history[i].e;
      assert history[i].Started? && history[i].e == e;
      t := tracks[e];
      assert history[t.since - 1].Started? && history[t.since - 1].e == e;
      assert i < t.since <= i + 1;
    }

    lemma ServedAll(e: Node, t: Track)
      requires EventOk(e) && Armed(e) && busy == {} && e in tracks && t == tracks[e] && (t.active || t.finished) && t.period > 0
      requires NothingOverdue(Timer(wheel.now, wheel.due)) && wheel.now == tick + 1
      ensures t.runs == Expected(t.begun, t.period, t.repeat, current)
    {
      hide TrackOk, CountersOk;
      if e in wheel.due {
        ServedIsExact(EvtOf(e), t, wheel.due[e], current, tick, interval);
      } else {
        LastServedIsCapped(t, current);
      }
    }

    // A clock that has jumped too far either way restarts the tick clock.
    method Resync(ms: nat)
      requires Valid() && ms < WRAP && millisec < WRAP && 64 * interval + LIMIT < HALF
      modifies `millisec
      ensures Valid() && interval > 0 && millisec < WRAP && Behind(ms, millisec) <= LIMIT + 64 * interval
      ensures millisec == old(millisec) || millisec == ms
      ensures millisec == old(millisec) <==> old(millisec) == ms || Abs(Behind(ms, old(millisec))) <= LIMIT + 64 * interval
    {
      var limit := interval * 64;
      var diff := Behind(ms, millisec);
      if diff > LIMIT + limit {
        millisec := ms;
      } else if diff < -LIMIT - limit {
        millisec := ms;
      }
      forall x: Node ensures EventOk(x) && Armed(x) { assert old(EventOk(x)) && old(Armed(x)); }
    }

    // itimer_mgr_run
    method Run(ms: nat, script: nat -> seq<EvtOp>) returns (ghost called: seq<seq<Node>>)
      requires Valid() && busy == {} && wheel.Quiet() && wheel.now == tick && EvtScriptOk(script, maxPeriod)
      requires ms < WRAP && millisec < WRAP && 64 * interval + LIMIT < HALF
      requires current + LIMIT + 65 * interval + maxPeriod < WRAP
      modifies this, wheel
      ensures Valid() && busy == {} && wheel.Quiet() && wheel.now == tick == old(tick) + |called|
      ensures current == old(current) + |called| * interval && interval == old(interval)
      ensures |called| == TicksDue(Behind(ms, old(millisec)), interval) <= (LIMIT + 64 * interval) / interval + 1
      ensures calls == old(calls) + Total(called) && history == old(history) + RunActs(script, old(calls), called, old(current), interval)
      ensures (called != [] ==> NoDrift(history, current - interval)) && StoppedAreQuiet(history)
      ensures forall c: nat, j: nat :: EvtLastNamed(script, old(calls), calls, c, j) ==>
        SettledInRun(script(c)[j], history, |old(history)|, c + 1 - old(calls), old(current), interval, |called|)
    {
      hide Wheel.Quiet, EvtScriptOk, NoDrift, Behind, RunActs, StoppedAreQuiet, EventOk, Armed, Wheel.Valid, SettledInRun;
      SameInstant(ms);
      Resync(ms);
      called := RunTicks(ms, script);
      Bounded(|called|, interval);
      forall c: nat, j: nat | EvtLastNamed(script, old(calls), calls, c, j)
        ensures SettledInRun(script(c)[j], history, |old(history)|, c + 1 - old(calls), old(current), interval, |called|)
      {
        RunSettlesEvent(script, old(calls), called, old(current), interval, old(history), c, j);
      }
    }

    method RunTicks(ms: nat, script: nat -> seq<EvtOp>) returns (ghost called: seq<seq<Node>>)
      requires Valid() && busy == {} && wheel.Quiet() && wheel.now == tick && EvtScriptOk(script, maxPeriod)
      requires ms < WRAP && millisec < WRAP && 0 < interval && Behind(ms, millisec) <= LIMIT + 64 * interval < HALF
      requires current + LIMIT + 65 * interval + maxPeriod < WRAP
      modifies this, wheel
      ensures Valid() && busy == {} && wheel.Quiet() && wheel.now == tick == old(tick) + |called|
      ensures current == old(current) + |called| * interval && interval == old(interval)
      ensures called != [] ==> (|called| - 1) * interval <= LIMIT + 64 * interval
      ensures |called| == if Behind(ms, old(millisec)) < 0 then 0 else Behind(ms, old(millisec)) / interval + 1
      ensures calls == old(calls) + Total(called) && history == old(history) + RunActs(script, old(calls), called, old(current), interval)
      ensures called != [] ==> NoDrift(history, current - interval)
    {
      hide ValidBut, Wheel.Quiet, EvtScriptOk, NoDrift, Signed, Behind, CallActs, StoppedAreQuiet;
      called := [];
      ghost var done := 0;
      while Behind(ms, millisec) >= 0
        invariant Valid() && busy == {} && wheel.Quiet() && wheel.now == tick == old(tick) + |called|
        invariant millisec < WRAP && interval == old(interval) && done == |called| * interval && current == old(current) + done
        invariant Behind(ms, millisec) + done == Behind(ms, old(millisec))
        invariant calls == old(calls) + Total(called) && history == old(history) + RunActs(script, old(calls), called, old(current), interval)
        invariant called != [] ==> done - interval <= Behind(ms, old(millisec)) && NoDrift(history, current - interval)
        decreases Behind(ms, millisec)
      {
        StepAhead(ms, millisec, interval);
        NextProduct(|called|, interval);
        ghost var more := Tick(script);
        RunMoreActs(script, old(calls), called, more, old(current), interval);
        called := called + [more];
        done := done + interval;
      }
      TicksDone(Behind(ms, old(millisec)), |called|, interval);
    }
  }

  // Starts an event and runs the manager: if the callbacks that run leave the
  // event alone, it has been called exactly once for each deadline.
  method StartAndRun(m: Manager, e: Node, period: nat, repeat: int, ms: nat, script: nat -> seq<EvtOp>) returns (ghost called: seq<seq<Node>>)
    requires m.Valid() && m.busy == {} && m.wheel.Quiet() && m.wheel.now == m.tick && EvtScriptOk(script, m.maxPeriod)
    requires 0 < period <= m.maxPeriod && ms < WRAP && m.millisec < WRAP && 64 * m.interval + LIMIT < HALF
    requires m.current + LIMIT + 65 * m.interval + m.maxPeriod < WRAP
    requires forall k: nat :: EvtNotNamed(script(k), e)
    modifies m, m.wheel
    ensures m.Valid() && |old(m.history)| < |m.history| && m.history[|old(m.history)|] == Started(e, old(m.current), period, repeat)
    ensures called != [] ==>
      Count(m.history, e, |old(m.history)| + 1) == Expected(old(m.current), period, repeat, m.current - m.interval)
  {
    hide Manager.ValidBut, EvtScriptOk, RunActs, EvtNotNamed, Count, Expected;
    ghost var i := |m.history|;
    m.Start(e, period, repeat);
    ghost var h := m.history;
    called := m.Run(ms, script);
    ghost var more := RunActs(script, old(m.calls), called, old(m.current), m.interval);
    RunLeavesEventAlone(script, old(m.calls), called, old(m.current), m.interval, e);
    StaysInForce(h, more, i);
  }

  function TimeOfTick(origin: nat, tick: nat, interval: nat): nat { origin + tick * interval }

  lemma NextTime(origin: nat, tick: nat, interval: nat)
    ensures TimeOfTick(origin, tick + 1, interval) == TimeOfTick(origin, tick, interval) + interval
    ensures TimeOfTick(origin, 0, interval) == origin
  {
    NextProduct(tick, interval);
  }

  lemma NextProduct(k: nat, d: nat)
    ensures (k + 1) * d == k * d + d
  {
  }

  lemma StartedByCounters(v: Evt, t: Track, x: nat)
    requires CountersOk(v, t, x)
    ensures v.started && v.slap < WRAP
  {
  }

  lemma ScriptIsOk(script: nat -> seq<EvtOp>, maxPeriod: nat, k: nat)
    requires EvtScriptOk(script, maxPeriod)
    ensures forall i :: 0 <= i < |script(k)| ==> EvtOpOk(script(k)[i], maxPeriod)
  {
  }

  // The loop of itimer_evt_cb: serves every deadline that is not after x.
  method CatchUp(v: Evt, ghost t: Track, x: nat)
      returns (r: Evt, ghost t': Track, count: nat, stop: bool)
    requires CountersOk(v, t, x) && x + v.period < WRAP
    ensures t' == t.(served := t.served + count) && t.active && !t.finished && r.period == v.period == t.period
    ensures stop ==> LastServed(t', x)
    ensures !stop ==> x < r.slap && CountersOk(r, t', x)
    ensures t.repeat > 0 ==> t'.served <= t.repeat
  {
    r, t', count, stop := v, t, 0, false;
    while x >= r.slap
      invariant t' == t.(served := t.served + count) && r.period == v.period && r.started && r.running == v.running
      invariant r.slap == t'.begun + (t'.served + 1) * t'.period && r.slap < WRAP
      invariant t'.served > 0 ==> t'.begun + t'.served * t'.period <= x
      invariant if t.repeat <= 0 then r.repeat == t.repeat else r.repeat == t.repeat - t'.served && r.repeat >= 1
      decreases if v.period > 0 then x + v.period - r.slap else r.repeat
    {
      ServeOne(r, t', x);
      count := count + 1;
      t' := t'.(served := t'.served + 1);
      r := r.(slap := (r.slap + r.period) % WRAP);
      if r.repeat == 1 {
        stop := true;
        break;
      }
      if r.repeat > 1 {
        r := r.(repeat := r.repeat - 1);
      }
    }
  }

  lemma StartedIsOk(period: nat, repeat: int, x: nat, tick: nat, now: nat, interval: nat, since: nat)
    requires interval > 0 && x + period < WRAP && (now == tick || now == tick + 1) && (period > 0 || repeat >= 1)
    ensures var d := DueTick(now, (tick % WRAP + TicksAhead(x + period, x, interval)) % WRAP);
      EvtOk(Evt(period, x + period, repeat, false, true), Track(x, period, repeat, 0, 0, true, false, since), d, x, tick, interval)
  {
    if period > 0 { ArmedBeforeDeadline(x + period, x, tick, now, interval); }
  }

  lemma OneIteration(tick: nat)
    ensures (tick % WRAP - tick % WRAP) % WRAP < HALF
    ensures (tick % WRAP - (tick + 1) % WRAP) % WRAP >= HALF
  {
    assert (tick + 1) % WRAP == if tick % WRAP + 1 == WRAP then 0 else tick % WRAP + 1;
  }

  lemma LaterTick(v: Evt, t: Track, d: nat, x: nat, tick: nat, interval: nat)
    requires EvtOk(v, t, d, x, tick, interval)
    ensures EvtOk(v, t, d, x + interval, tick + 1, interval)
  {
    assert (d - 1 - tick) * interval == (d - 1 - (tick + 1)) * interval + interval;
  }

  // A 32-bit difference read as a signed number.
  function Signed(x: nat): int {
    if x < HALF then x else x - WRAP
  }

  // How far the tick clock is behind the clock, as a signed 32-bit number.
  function Behind(ms: nat, millisec: nat): int { Signed((ms - millisec) % WRAP) }

  lemma SameInstant(ms: nat)
    ensures Behind(ms, ms) == 0
  {
  }

  // The ticks that are due, when the tick clock is so far behind: a clock that
  // has jumped too far either way counts as one that agrees.
  function TicksDue(behind: int, interval: nat): nat
    requires interval > 0
  {
    var b := if Abs(behind) > 300000 + 64 * interval then 0 else behind;
    if b < 0 then 0 else b / interval + 1
  }

  lemma StepAhead(ms: nat, millisec: nat, interval: nat)
    requires ms < WRAP && millisec < WRAP && interval < HALF && Behind(ms, millisec) >= 0
    ensures Behind(ms, (millisec + interval) % WRAP) == Behind(ms, millisec) - interval
  {
    var a := (ms - millisec) % WRAP;
    assert (ms - (millisec + interval) % WRAP) % WRAP == (a - interval) % WRAP;
  }

  function Abs(x: int): int {
    if x < 0 then -x else x
  }

  // As many ticks as bring the tick clock past the clock.
  lemma TicksDone(behind: int, ticks: nat, interval: nat)
    requires interval > 0 && behind < ticks * interval && (ticks > 0 ==> ticks * interval - interval <= behind)
    ensures ticks == if behind < 0 then 0 else behind / interval + 1
    ensures ticks > 0 ==> (ticks - 1) * interval <= behind
  {
    if ticks > 0 {
      NextProduct(ticks - 1, interval);
      DivUnique(behind, interval, ticks - 1);
    }
  }

  lemma Bounded(ticks: nat, interval: nat)
    requires interval > 0 && (ticks > 0 ==> (ticks - 1) * interval <= LIMIT + 64 * interval)
    ensures ticks <= (LIMIT + 64 * interval) / interval + 1
  {
    if ticks > 0 {
      var a := LIMIT + 64 * interval;
      DivMonotone((ticks - 1) * interval, a, interval);
      DivUnique((ticks - 1) * interval, interval, ticks - 1);
    }
  }
}
