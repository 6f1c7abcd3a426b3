// What happens to periodic events: starts, stops and calls of their callbacks,
// in the order in which they happen.
module EventHistory {
  import opened IntrusiveLists

  // What a user callback may do with events.
  datatype EvtOp = StartEvt(e: Node, period: nat, repeat: int) | StopEvt(e: Node)

  datatype Act =
    | Started(e: Node, time: nat, period: nat, repeat: int)
    | Stopped(e: Node)
    | Called(e: Node, time: nat)

  // ----- events in a history -----

  predicate NoStart(h: seq<Act>, e: Node, from: nat) { forall i :: from <= i < |h| ==> !(h[i].Started? && h[i].e == e) }

  predicate NoStop(h: seq<Act>, e: Node, from: nat) { forall i :: from <= i < |h| ==> h[i] != Stopped(e) }

  predicate NoCall(h: seq<Act>, e: Node, from: nat) { forall i :: from <= i < |h| ==> !(h[i].Called? && h[i].e == e) }

  // How many calls of e there are from position `from` on.
  function Count(h: seq<Act>, e: Node, from: nat): nat {
    if |h| <= from then 0
    else Count(h[..|h| - 1], e, from) + if h[|h| - 1].Called? && h[|h| - 1].e == e then 1 else 0
  }

  lemma CountSnoc(h: seq<Act>, a: Act, e: Node, from: nat)
    requires from <= |h|
    ensures Count(h + [a], e, from) == Count(h, e, from) + if a.Called? && a.e == e then 1 else 0
  {
    assert (h + [a])[..|h|] == h;
  }

  // ----- exactness -----

  // Deadlines begun + period, begun + 2 * period, ... that are not after x.
  function Deadlines(begun: nat, period: nat, x: int): nat
    requires period > 0
  {
    if x < begun then 0 else (x - begun) / period
  }

  // How often an event should have been called by time x.
  function Expected(begun: nat, period: nat, repeat: int, x: int): nat
    requires period > 0
  {
    var n := Deadlines(begun, period, x);
    if 0 < repeat < n then repeat else n
  }

  // The start at position i of the history is in force: its event has not been
  // started again nor stopped.
  predicate InForce(h: seq<Act>, i: nat) {
    i < |h| && h[i].Started? && NoStart(h, h[i].e, i + 1) && NoStop(h, h[i].e, i + 1)
  }

  // No drift: for every start in force the callback has since been called once
  // for each deadline up to time x, at most as often as asked.
  ghost predicate NoDrift(h: seq<Act>, x: int) {
    forall i: nat :: InForce(h, i) && h[i].period > 0 ==> Count(h, h[i].e, i + 1) == Expected(h[i].time, h[i].period, h[i].repeat, x)
  }

  // No event is called after a stop until it is started again.
  ghost predicate StoppedAreQuiet(h: seq<Act>) {
    forall i: nat, j: nat :: i < j < |h| && h[i].Stopped? && h[j].Called? && h[j].e == h[i].e ==> StartedBetween(h, h[i].e, i, j)
  }

  predicate StartedBetween(h: seq<Act>, e: Node, i: nat, j: nat)
    requires i <= j <= |h|
  {
    exists k :: i < k < j && h[k].Started? && h[k].e == e
  }

  lemma QuietSnoc(h: seq<Act>, a: Act)
    requires StoppedAreQuiet(h)
    requires a.Called? ==> exists s: nat :: s <= |h| && 0 < s && h[s - 1].Started? && h[s - 1].e == a.e && NoStop(h, a.e, s)
    ensures StoppedAreQuiet(h + [a])
  {
    var g := h + [a];
    forall i: nat, j: nat | i < j < |g| && g[i].Stopped? && g[j].Called? && g[j].e == g[i].e ensures StartedBetween(g, g[i].e, i, j) {
      if j < |h| {
        assert StartedBetween(h, h[i].e, i, j);
        var k :| i < k < j && h[k].Started? && h[k].e == h[i].e;
        assert g[k].Started?;
      } else {
        var s: nat :| s <= |h| && 0 < s && h[s - 1].Started? && h[s - 1].e == a.e && NoStop(h, a.e, s);
        assert h[i] == Stopped(a.e) && h[s - 1] != h[i];
        assert i < s - 1;
        assert g[s - 1].Started?;
      }
    }
  }

  // ----- the acts of callbacks -----

  function ActOf(op: EvtOp, x: nat): Act {
    match op
    case StartEvt(e, period, repeat) => Started(e, x, period, repeat)
    case StopEvt(e) => Stopped(e)
  }

  function ActsOf(ops: seq<EvtOp>, x: nat): seq<Act> {
    if ops == [] then [] else ActsOf(ops[..|ops| - 1], x) + [ActOf(ops[|ops| - 1], x)]
  }

  // The calls of the events `called` at time x, one after the other, each
  // followed by exactly what its callback does.
  function CallActs(script: nat -> seq<EvtOp>, from: nat, called: seq<Node>, x: nat): seq<Act> {
    if called == [] then []
    else
      var k := |called| - 1;
      CallActs(script, from, called[..k], x) + [Called(called[k], x)] + ActsOf(script(from + k), x)
  }

  function Total(called: seq<seq<Node>>): nat {
    if called == [] then 0 else Total(called[..|called| - 1]) + |called[|called| - 1]|
  }

  // The same tick by tick, from time x on.
  function RunActs(script: nat -> seq<EvtOp>, from: nat, called: seq<seq<Node>>, x: nat, interval: nat): seq<Act> {
    if called == [] then []
    else
      var k := |called| - 1;
      RunActs(script, from, called[..k], x, interval) + CallActs(script, from + Total(called[..k]), called[k], x + k * interval)
  }

  lemma {:induction false} CallsCat(script: nat -> seq<EvtOp>, from: nat, a: seq<Node>, b: seq<Node>, x: nat)
    ensures CallActs(script, from, a + b, x) == CallActs(script, from, a, x) + CallActs(script, from + |a|, b, x)
  {
    hide ActsOf, CallActs;
    if b == [] {
      assert a + b == a;
      NoCallActs(script, from + |a|, x);
    } else {
      var k := |b| - 1;
      CallsCat(script, from, a, b[..k], x);
      CallMore(script, from, a + b[..k], b[k], x);
      CallMore(script, from + |a|, b[..k], b[k], x);
      assert a + b == a + b[..k] + [b[k]] && b == b[..k] + [b[k]];
      Associates(CallActs(script, from, a, x), CallActs(script, from + |a|, b[..k], x), [Called(b[k], x)] + ActsOf(script(from + |a| + k), x));
    }
  }

  lemma Associates(a: seq<Act>, b: seq<Act>, c: seq<Act>)
    ensures a + b + c == a + (b + c)
  {
  }

  lemma {:induction false} RunMoreActs(script: nat -> seq<EvtOp>, from: nat, called: seq<seq<Node>>, more: seq<Node>, x: nat, interval: nat)
    ensures RunActs(script, from, called + [more], x, interval)
         == RunActs(script, from, called, x, interval) + CallActs(script, from + Total(called), more, x + |called| * interval)
    ensures Total(called + [more]) == Total(called) + |more|
  {
    hide CallActs;
    var all := called + [more];
    assert all[..|all| - 1] == called && all[|all| - 1] == more;
  }

  lemma {:induction false} CallMore(script: nat -> seq<EvtOp>, from: nat, called: seq<Node>, e: Node, x: nat)
    ensures CallActs(script, from, called + [e], x)
         == CallActs(script, from, called, x) + ([Called(e, x)] + ActsOf(script(from + |called|), x))
  {
    hide ActsOf;
    var all := called + [e];
    assert all[..|all| - 1] == called && all[|all| - 1] == e;
  }

  lemma NoCallActs(script: nat -> seq<EvtOp>, from: nat, x: nat)
    ensures CallActs(script, from, [], x) == []
  {
  }

  // ----- events that no callback names -----

  predicate EvtNotNamed(ops: seq<EvtOp>, e: Node) { forall i :: 0 <= i < |ops| ==> ops[i].e != e }

  ghost predicate EvtLeftAlone(script: nat -> seq<EvtOp>, from: nat, to: nat, e: Node) {
    forall k: nat :: from <= k < to ==> EvtNotNamed(script(k), e)
  }

  // e is neither started nor stopped.
  predicate Alone(h: seq<Act>, e: Node) { NoStart(h, e, 0) && NoStop(h, e, 0) }

  lemma AloneCat(a: seq<Act>, b: seq<Act>, e: Node)
    requires Alone(a, e) && Alone(b, e)
    ensures Alone(a + b, e)
  {
  }

  lemma {:induction false} ActsLeaveAlone(ops: seq<EvtOp>, x: nat, e: Node)
    requires EvtNotNamed(ops, e)
    ensures Alone(ActsOf(ops, x), e)
  {
    if ops != [] {
      var k := |ops| - 1;
      ActsLeaveAlone(ops[..k], x, e);
      AloneCat(ActsOf(ops[..k], x), [ActOf(ops[k], x)], e);
    }
  }

  lemma {:induction false} CallsLeaveAlone(script: nat -> seq<EvtOp>, from: nat, called: seq<Node>, x: nat, e: Node)
    requires EvtLeftAlone(script, from, from + |called|, e)
    ensures Alone(CallActs(script, from, called, x), e)
  {
    if called != [] {
      var k := |called| - 1;
      CallsLeaveAlone(script, from, called[..k], x, e);
      var some := CallActs(script, from, called[..k], x);
      AloneCat(some, [Called(called[k], x)], e);
      ActsLeaveAlone(script(from + k), x, e);
      AloneCat(some + [Called(called[k], x)], ActsOf(script(from + k), x), e);
    }
  }

  lemma {:induction false} RunLeavesEventAlone(script: nat -> seq<EvtOp>, from: nat, called: seq<seq<Node>>, x: nat, interval: nat, e: Node)
    requires EvtLeftAlone(script, from, from + Total(called), e)
    ensures Alone(RunActs(script, from, called, x, interval), e)
  {
    hide Alone, CallActs;
    if called == [] {
      NothingAlone(e);
    } else {
      var k := |called| - 1;
      RunLeavesEventAlone(script, from, called[..k], x, interval, e);
      CallsLeaveAlone(script, from + Total(called[..k]), called[k], x + k * interval, e);
      AloneCat(RunActs(script, from, called[..k], x, interval), CallActs(script, from + Total(called[..k]), called[k], x + k * interval), e);
    }
  }

  lemma NothingAlone(e: Node)
    ensures Alone([], e)
  {
  }

  // A start stays in force while its event is left alone.
  lemma StaysInForce(h: seq<Act>, more: seq<Act>, i: nat)
    requires InForce(h, i) && Alone(more, h[i].e)
    ensures InForce(h + more, i) && (h + more)[i] == h[i]
  {
  }

  // A stopped event that is left alone is not called.
  lemma StaysStopped(h: seq<Act>, i: nat)
    requires StoppedAreQuiet(h) && i < |h| && h[i].Stopped? && NoStart(h, h[i].e, i)
    ensures NoCall(h, h[i].e, i)
  {
    forall j | i <= j < |h| ensures !(h[j].Called? && h[j].e == h[i].e) {
      assert !StartedBetween(h, h[i].e, i, j);
    }
  }

  // ----- events that callbacks name: the last operation counts -----

  function CallsIn(h: seq<Act>): nat {
    if h == [] then 0 else CallsIn(h[..|h| - 1]) + if h[|h| - 1].Called? then 1 else 0
  }

  lemma {:induction false} CallsInCat(a: seq<Act>, b: seq<Act>)
    ensures CallsIn(a + b) == CallsIn(a) + CallsIn(b)
  {
    if b == [] {
      assert a + b == a;
    } else {
      var n := |b| - 1;
      CallsInCat(a, b[..n]);
      assert (a + b)[..|a + b| - 1] == a + b[..n] && (a + b)[|a + b| - 1] == b[n];
    }
  }

  lemma {:induction false} NoCalls(h: seq<Act>)
    requires forall i :: 0 <= i < |h| ==> !h[i].Called?
    ensures CallsIn(h) == 0
  {
    if h != [] { NoCalls(h[..|h| - 1]); }
  }

  // Operation j of callback c is the last, of the callbacks numbered from
  // `from` to `end`, that names its event.
  ghost predicate EvtLastNamed(script: nat -> seq<EvtOp>, from: nat, end: nat, c: nat, j: nat) {
    && from <= c < end && j < |script(c)| && (forall i :: j < i < |script(c)| ==> script(c)[i].e != script(c)[j].e)
    && EvtLeftAlone(script, c + 1, end, script(c)[j].e)
  }

  // At position k of the history is the operation, done at the time of the call
  // before it, and its event is left alone from then on.
  ghost predicate Last(op: EvtOp, h: seq<Act>, k: nat, x: nat) {
    && k < |h| && Alone(h[k + 1..], op.e)
    && match op
       case StartEvt(e, period, repeat) => h[k] == Started(e, x, period, repeat)
       case StopEvt(e) => h[k] == Stopped(e)
  }

  lemma LastMore(op: EvtOp, h: seq<Act>, k: nat, x: nat, more: seq<Act>)
    requires Last(op, h, k, x) && Alone(more, op.e)
    ensures Last(op, h + more, k, x) && (h + more)[..k] == h[..k]
  {
    hide Alone;
    assert (h + more)[k + 1..] == h[k + 1..] + more;
    AloneCat(h[k + 1..], more, op.e);
  }

  lemma LastBefore(op: EvtOp, before: seq<Act>, h: seq<Act>, k: nat, x: nat)
    requires Last(op, h, k, x)
    ensures Last(op, before + h, |before| + k, x) && (before + h)[..|before| + k] == before + h[..k]
  {
    hide Alone;
    assert (before + h)[|before| + k + 1..] == h[k + 1..];
  }

  lemma {:induction false} ActsLast(ops: seq<EvtOp>, x: nat, j: nat)
    requires j < |ops| && forall i :: j < i < |ops| ==> ops[i].e != ops[j].e
    ensures |ActsOf(ops, x)| == |ops| && Last(ops[j], ActsOf(ops, x), j, x) && CallsIn(ActsOf(ops, x)[..j]) == 0
  {
    var n := |ops| - 1;
    var some, acts := ops[..n], ActsOf(ops[..n], x);
    ActsAreOps(some, x);
    ActsAreOps(ops, x);
    NoCalls(ActsOf(ops, x)[..j]);
    if j == n {
      assert ActsOf(ops, x)[j + 1..] == [];
    } else {
      ActsLast(some, x, j);
      LastMore(ops[j], acts, j, x, [ActOf(ops[n], x)]);
    }
  }

  lemma {:induction false} ActsAreOps(ops: seq<EvtOp>, x: nat)
    ensures |ActsOf(ops, x)| == |ops| && forall i :: 0 <= i < |ops| ==> ActsOf(ops, x)[i] == ActOf(ops[i], x)
  {
    if ops != [] { ActsAreOps(ops[..|ops| - 1], x); }
  }

  lemma {:induction false} CallsCounted(script: nat -> seq<EvtOp>, from: nat, called: seq<Node>, x: nat)
    ensures CallsIn(CallActs(script, from, called, x)) == |called|
  {
    hide ActsOf;
    if called != [] {
      var k := |called| - 1;
      CallsCounted(script, from, called[..k], x);
      OneCall(script, from + k, CallActs(script, from, called[..k], x), called[k], x);
    }
  }

  lemma OneCall(script: nat -> seq<EvtOp>, c: nat, h: seq<Act>, e: Node, x: nat)
    ensures CallsIn(h + [Called(e, x)]) == CallsIn(h) + 1
    ensures CallsIn(h + [Called(e, x)] + ActsOf(script(c), x)) == CallsIn(h) + 1
  {
    hide ActsOf;
    ActsAreOps(script(c), x);
    NoCalls(ActsOf(script(c), x));
    CallsInCat(h + [Called(e, x)], ActsOf(script(c), x));
    assert (h + [Called(e, x)])[..|h|] == h;
  }

  lemma {:induction false} CallsLast(script: nat -> seq<EvtOp>, from: nat, called: seq<Node>, x: nat, c: nat, j: nat) returns (k: nat)
    requires EvtLastNamed(script, from, from + |called|, c, j)
    ensures var h := CallActs(script, from, called, x); Last(script(c)[j], h, k, x) && CallsIn(h[..k]) == c + 1 - from
  {
    hide ActsOf, Last, CallsIn, Alone;
    var n := |called| - 1;
    var h, acts := CallActs(script, from, called[..n], x), ActsOf(script(from + n), x);
    var called' := h + [Called(called[n], x)];
    var e := script(c)[j].e;
    if c == from + n {
      ActsLast(script(c), x, j);
      LastBefore(script(c)[j], called', acts, j, x);
      k := |called'| + j;
      CallsInCat(called', acts[..j]);
      CallsCounted(script, from, called[..n], x);
      OneCall(script, c, h, called[n], x);
    } else {
      k := CallsLast(script, from, called[..n], x, c, j);
      ActsLeaveAlone(script(from + n), x, e);
      CallIsAlone(called[n], x, e);
      AloneCat([Called(called[n], x)], acts, e);
      LastMore(script(c)[j], h, k, x, [Called(called[n], x)] + acts);
      assert h + ([Called(called[n], x)] + acts) == called' + acts;
    }
  }

  lemma CallIsAlone(n: Node, x: nat, e: Node)
    ensures Alone([Called(n, x)], e)
  {
  }

  lemma {:induction false} RunCounted(script: nat -> seq<EvtOp>, from: nat, called: seq<seq<Node>>, x: nat, interval: nat)
    ensures CallsIn(RunActs(script, from, called, x, interval)) == Total(called)
  {
    hide CallActs;
    if called != [] {
      var k := |called| - 1;
      RunCounted(script, from, called[..k], x, interval);
      CallsCounted(script, from + Total(called[..k]), called[k], x + k * interval);
      CallsInCat(RunActs(script, from, called[..k], x, interval), CallActs(script, from + Total(called[..k]), called[k], x + k * interval));
    }
  }

  // In the exact history of a run the last operation on an event stands behind
  // the call whose callback does it, at the time of its tick, and nothing
  // starts or stops the event after it.
  lemma {:induction false} RunLast(script: nat -> seq<EvtOp>, from: nat, called: seq<seq<Node>>, x: nat, interval: nat, c: nat, j: nat)
      returns (k: nat, tick: nat)
    requires EvtLastNamed(script, from, from + Total(called), c, j)
    ensures tick < |called| && from + Total(called[..tick]) <= c < from + Total(called[..tick + 1])
    ensures var h := RunActs(script, from, called, x, interval);
      Last(script(c)[j], h, k, x + tick * interval) && CallsIn(h[..k]) == c + 1 - from
  {
    hide CallActs, Last, CallsIn, Alone;
    var n := |called| - 1;
    var some := called[..n];
    var f, time := from + Total(some), x + n * interval;
    var h, acts := RunActs(script, from, some, x, interval), CallActs(script, f, called[n], time);
    assert called[..n + 1] == called;
    if c >= f {
      k := TickLast(script, f, called[n], time, h, c, j);
      RunCounted(script, from, some, x, interval);
      tick := n;
    } else {
      k, tick := RunLast(script, from, some, x, interval, c, j);
      assert some[..tick] == called[..tick] && some[..tick + 1] == called[..tick + 1];
      CallsLeaveAlone(script, f, called[n], time, script(c)[j].e);
      LastMore(script(c)[j], h, k, x + tick * interval, acts);
    }
  }

  // In the last tick of a run.
  lemma TickLast(script: nat -> seq<EvtOp>, from: nat, called: seq<Node>, time: nat, before: seq<Act>, c: nat, j: nat) returns (k: nat)
    requires EvtLastNamed(script, from, from + |called|, c, j)
    ensures var h := before + CallActs(script, from, called, time);
      Last(script(c)[j], h, k, time) && CallsIn(h[..k]) == CallsIn(before) + c + 1 - from
  {
    hide CallActs, Last, CallsIn, Alone;
    var acts := CallActs(script, from, called, time);
    k := CallsLast(script, from, called, time, c, j);
    LastBefore(script(c)[j], before, acts, k, time);
    LastInside(script(c)[j], acts, k, time);
    CallsInCat(before, acts[..k]);
    k := |before| + k;
  }

  lemma LastInside(op: EvtOp, h: seq<Act>, k: nat, x: nat)
    requires Last(op, h, k, x)
    ensures k < |h|
  {
  }

  // What the last operation on an event leads to: after a stop there is no
  // call, after a start as many as there are deadlines.
  ghost predicate EvtSettled(op: EvtOp, h: seq<Act>, k: nat, time: nat, now: int) {
    k < |h| && match op
    case StartEvt(e, period, repeat) =>
      h[k] == Started(e, time, period, repeat) && InForce(h, k) && (period > 0 ==> Count(h, e, k + 1) == Expected(time, period, repeat, now))
    case StopEvt(e) => h[k] == Stopped(e) && NoCall(h, e, k)
  }

  lemma LastSettles(op: EvtOp, before: seq<Act>, h: seq<Act>, k: nat, time: nat, now: int)
    requires Last(op, h, k, time) && NoDrift(before + h, now) && StoppedAreQuiet(before + h)
    ensures EvtSettled(op, before + h, |before| + k, time, now)
  {
    hide NoDrift, StoppedAreQuiet, Count, Expected;
    var all, i := before + h, |before| + k;
    LastBefore(op, before, h, k, time);
    LastIsLast(all, op.e, i);
    match op {
      case StartEvt(e, period, repeat) => if period > 0 { DriftAt(all, i, now); }
      case StopEvt(e) => StaysStopped(all, i);
    }
  }

  lemma LastIsLast(h: seq<Act>, e: Node, k: nat)
    requires k < |h| && Alone(h[k + 1..], e)
    ensures NoStart(h, e, k + 1) && NoStop(h, e, k + 1)
  {
    forall i | k + 1 <= i < |h| ensures !(h[i].Started? && h[i].e == e) && h[i] != Stopped(e) { assert h[i] == h[k + 1..][i - k - 1]; }
  }

  lemma DriftAt(h: seq<Act>, i: nat, now: int)
    requires NoDrift(h, now) && InForce(h, i) && h[i].period > 0
    ensures Count(h, h[i].e, i + 1) == Expected(h[i].time, h[i].period, h[i].repeat, now)
  {
  }

  // The same for an operation that a run of so many ticks from time x on does
  // in the callback of the given number.
  ghost predicate SettledInRun(op: EvtOp, h: seq<Act>, before: nat, calls: nat, x: nat, interval: nat, ticks: nat) {
    exists k: nat, tick: nat :: tick < ticks && SettledAt(op, h, before, calls, x, interval, ticks, k, tick)
  }

  ghost predicate SettledAt(op: EvtOp, h: seq<Act>, before: nat, calls: nat, x: nat, interval: nat, ticks: nat, k: nat, tick: nat) {
    && before <= k <= |h| && CallsIn(h[before..k]) == calls
    && EvtSettled(op, h, k, x + tick * interval, x + (ticks - 1) * interval)
  }

  lemma RunSettlesEvent(script: nat -> seq<EvtOp>, from: nat, called: seq<seq<Node>>, x: nat, interval: nat, before: seq<Act>, c: nat, j: nat)
    requires EvtLastNamed(script, from, from + Total(called), c, j)
    requires var h := before + RunActs(script, from, called, x, interval);
      StoppedAreQuiet(h) && (called != [] ==> NoDrift(h, x + (|called| - 1) * interval))
    ensures SettledInRun(script(c)[j], before + RunActs(script, from, called, x, interval), |before|, c + 1 - from, x, interval, |called|)
  {
    hide NoDrift, StoppedAreQuiet, Last, CallsIn, RunActs, EvtSettled;
    var acts := RunActs(script, from, called, x, interval);
    var k, tick := RunLast(script, from, called, x, interval, c, j);
    LastSettles(script(c)[j], before, acts, k, x + tick * interval, x + (|called| - 1) * interval);
    LastInside(script(c)[j], acts, k, x + tick * interval);
    assert (before + acts)[|before|..|before| + k] == acts[..k];
    assert SettledAt(script(c)[j], before + acts, |before|, c + 1 - from, x, interval, |called|, |before| + k, tick);
  }
}
