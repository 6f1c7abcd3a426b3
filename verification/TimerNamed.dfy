// What becomes of a node that callbacks name: the last operation on it counts.
module TimerNamed {
  import opened IntrusiveLists
  import opened TimerSpec
  import opened TimerScript

  // What an operation does to the armed nodes at time `now`, when the nodes
  // `gone` have been destroyed.
  ghost predicate Done(op: NodeOp, gone: set<Node>, now: nat, before: map<Node, nat>, after: map<Node, nat>) {
    && (forall m :: m != op.n ==> (m in after <==> m in before) && (m in after ==> after[m] == before[m]))
    && (op.DelNode? || op.DestroyNode? || op.n in gone ==> op.n !in after)
    && (op.AddNode? || op.ModNode? ==> op.n in gone || (op.n in after && after[op.n] == DueTick(now, op.expires)))
  }

  // No destroyed node is armed.
  ghost predicate Buried(gone: set<Node>, t: Timer) { forall n :: n in gone ==> n !in t.due }

  lemma OpDone(op: NodeOp, gone: set<Node>, t: Timer)
    requires Buried(gone, t)
    ensures var u := After(t, OpEvents(op, gone, t.due));
      u.now == t.now && Done(op, gone, t.now, t.due, u.due) && Buried(OpDestroyed(op, gone), u)
  {
    hide DueTick;
    AfterNone(t);
    AfterOne(t, Disarmed(op.n));
    if op.AddNode? || op.ModNode? {
      AfterOne(t, Armed(op.n, op.expires));
      AfterTwo(t, Disarmed(op.n), Armed(op.n, op.expires));
    }
  }

  lemma AfterNone(t: Timer)
    ensures After(t, []) == t
  {
  }

  lemma AfterOne(t: Timer, e: Event)
    ensures After(t, [e]) == Apply(t, e)
  {
    assert [e][..0] == [];
  }

  lemma AfterTwo(t: Timer, e: Event, f: Event)
    ensures After(t, [e, f]) == Apply(Apply(t, e), f)
  {
    AfterOne(t, e);
    AfterOne(Apply(t, e), f);
    AfterCat(t, [e], [f]);
    assert [e] + [f] == [e, f];
  }

  function FiringsIn(es: seq<Event>): nat {
    if es == [] then 0 else FiringsIn(es[..|es| - 1]) + if es[|es| - 1].Fired? then 1 else 0
  }

  lemma {:induction false} FiringsCat(a: seq<Event>, b: seq<Event>)
    ensures FiringsIn(a + b) == FiringsIn(a) + FiringsIn(b)
  {
    if b == [] {
      assert a + b == a;
    } else {
      var n := |b| - 1;
      FiringsCat(a, b[..n]);
      assert (a + b)[..|a + b| - 1] == a + b[..n] && (a + b)[|a + b| - 1] == b[n];
    }
  }

  // ----- one callback -----

  lemma {:induction false} OpsKeepBuried(ops: seq<NodeOp>, gone: set<Node>, t: Timer)
    requires Buried(gone, t)
    ensures var es := OpsEvents(ops, gone, t);
      Buried(OpsDestroyed(ops, gone), After(t, es)) && After(t, es).now == t.now && FiringsIn(es) == 0
  {
    hide Buried, OpEvents;
    AfterNone(t);
    if ops != [] {
      var some, op := ops[..|ops| - 1], ops[|ops| - 1];
      OpsKeepBuried(some, gone, t);
      var es := OpsEvents(some, gone, t);
      var more := OpEvents(op, OpsDestroyed(some, gone), After(t, es).due);
      OpDone(op, OpsDestroyed(some, gone), After(t, es));
      OpFiresNothing(op, OpsDestroyed(some, gone), After(t, es).due);
      AfterCat(t, es, more);
      FiringsCat(es, more);
    }
  }

  lemma OpFiresNothing(op: NodeOp, gone: set<Node>, due: map<Node, nat>)
    ensures FiringsIn(OpEvents(op, gone, due)) == 0
  {
    NoFirings(OpEvents(op, gone, due));
  }

  lemma {:induction false} NoFirings(es: seq<Event>)
    requires forall i :: 0 <= i < |es| ==> !es[i].Fired?
    ensures FiringsIn(es) == 0
  {
    if es != [] { NoFirings(es[..|es| - 1]); }
  }

  // Operation j of a callback is the last that names its node.
  ghost predicate LastOf(ops: seq<NodeOp>, j: nat) {
    j < |ops| && forall i :: j < i < |ops| ==> ops[i].n != ops[j].n
  }

  // The events from the operation on: its node only fires, if it was armed.
  ghost predicate Settles(op: NodeOp, gone: set<Node>, t: Timer, es: seq<Event>, k: nat) {
    && k <= |es| && OnlyFires(es[k..], op.n)
    && var u := After(t, es[..k]);
       && (op.DelNode? || op.DestroyNode? || op.n in gone ==> op.n !in u.due)
       && (op.AddNode? || op.ModNode? ==> op.n in gone || (op.n in u.due && u.due[op.n] == DueTick(u.now, op.expires)))
  }

  lemma SettlesMore(op: NodeOp, gone: set<Node>, t: Timer, es: seq<Event>, k: nat, more: seq<Event>)
    requires Settles(op, gone, t, es, k) && OnlyFires(more, op.n)
    ensures Settles(op, gone, t, es + more, k)
  {
    hide DueTick, OnlyFires, After;
    assert (es + more)[..k] == es[..k] && (es + more)[k..] == es[k..] + more;
    OnlyFiresCat(es[k..], more, op.n);
  }

  lemma SettlesBefore(op: NodeOp, gone: set<Node>, t: Timer, before: seq<Event>, es: seq<Event>, k: nat)
    requires Settles(op, gone, After(t, before), es, k)
    ensures Settles(op, gone, t, before + es, |before| + k) && (before + es)[..|before| + k] == before + es[..k]
  {
    hide DueTick, OnlyFires, After;
    assert (before + es)[..|before| + k] == before + es[..k] && (before + es)[|before| + k..] == es[k..];
    AfterCat(t, before, es[..k]);
  }

  lemma {:induction false} OpsSettle(ops: seq<NodeOp>, gone: set<Node>, t: Timer, j: nat) returns (k: nat)
    requires Buried(gone, t) && LastOf(ops, j)
    ensures Settles(ops[j], OpsDestroyed(ops[..j], gone), t, OpsEvents(ops, gone, t), k)
    ensures FiringsIn(OpsEvents(ops, gone, t)[..k]) == 0
  {
    hide DueTick, After, OpEvents, OnlyFires, FiringsIn, Buried, Settles;
    var n := |ops| - 1;
    var some := ops[..n];
    var es := OpsEvents(some, gone, t);
    var more := OpEvents(ops[n], OpsDestroyed(some, gone), After(t, es).due);
    OpsKeepBuried(some, gone, t);
    if j == n {
      k := |es + more|;
      assert (es + more)[..k] == es + more;
      AfterCat(t, es, more);
      FiringsCat(es, more);
      OpFiresNothing(ops[n], OpsDestroyed(some, gone), After(t, es).due);
      OpSettles(ops[n], OpsDestroyed(some, gone), t, es);
    } else {
      k := OpsSettle(some, gone, t, j);
      assert some[..j] == ops[..j];
      OpNamesOther(ops[n], OpsDestroyed(some, gone), After(t, es).due, ops[j].n);
      SettlesMore(ops[j], OpsDestroyed(ops[..j], gone), t, es, k, more);
      assert k <= |es| by { SettlesWithin(ops[j], OpsDestroyed(ops[..j], gone), t, es, k); }
      assert (es + more)[..k] == es[..k];
    }
  }

  lemma SettlesWithin(op: NodeOp, gone: set<Node>, t: Timer, es: seq<Event>, k: nat)
    requires Settles(op, gone, t, es, k)
    ensures k <= |es|
  {
  }

  lemma OpSettles(op: NodeOp, gone: set<Node>, t: Timer, before: seq<Event>)
    requires Buried(gone, After(t, before))
    ensures var es := before + OpEvents(op, gone, After(t, before).due); Settles(op, gone, t, es, |es|)
  {
    hide DueTick, After, OpEvents;
    var u := After(t, before);
    var es := before + OpEvents(op, gone, u.due);
    OpDone(op, gone, u);
    AfterCat(t, before, OpEvents(op, gone, u.due));
    assert es[..|es|] == es && es[|es|..] == [];
  }

  lemma OpNamesOther(op: NodeOp, gone: set<Node>, due: map<Node, nat>, n: Node)
    requires op.n != n
    ensures OnlyFires(OpEvents(op, gone, due), n)
  {
  }

  lemma {:induction false} OpsDestroyExactly(ops: seq<NodeOp>, gone: set<Node>, n: Node)
    ensures n in OpsDestroyed(ops, gone) <==> n in gone || exists j :: 0 <= j < |ops| && ops[j] == DestroyNode(n)
  {
    if ops != [] {
      var some := ops[..|ops| - 1];
      OpsDestroyExactly(some, gone, n);
      if j :| 0 <= j < |ops| && ops[j] == DestroyNode(n) { assert j < |some| ==> some[j] == DestroyNode(n); }
    }
  }

  lemma SparedByOthers(ops: seq<NodeOp>, gone: set<Node>, n: Node)
    requires NotNamed(ops, n)
    ensures n in OpsDestroyed(ops, gone) <==> n in gone
  {
    OpsDestroyExactly(ops, gone, n);
  }

  lemma DestroyedByThen(ops: seq<NodeOp>, j: nat, gone: set<Node>)
    requires LastOf(ops, j) && !ops[j].DestroyNode?
    ensures ops[j].n in OpsDestroyed(ops, gone) <==> ops[j].n in OpsDestroyed(ops[..j], gone)
  {
    var n := ops[j].n;
    OpsDestroyExactly(ops, gone, n);
    OpsDestroyExactly(ops[..j], gone, n);
    if i :| 0 <= i < |ops| && ops[i] == DestroyNode(n) { assert i < j && ops[..j][i] == DestroyNode(n); }
  }

  // ----- whole runs -----

  // Operation j of callback c is the last, of the callbacks numbered from
  // `from` to `to`, that names its node.
  ghost predicate LastNamed(script: nat -> seq<NodeOp>, from: nat, to: nat, c: nat, j: nat) {
    from <= c < to && LastOf(script(c), j) && LeftAlone(script, c + 1, to, script(c)[j].n)
  }

  lemma {:induction false} DrainKeepsBuried(script: nat -> seq<NodeOp>, from: nat, order: seq<Node>, gone: set<Node>, t: Timer)
    requires t.now > 0 && Buried(gone, t)
    ensures var es := DrainEvents(script, from, order, gone, t);
      && Buried(DestroyedAfter(script, from, from + |order|, gone), After(t, es)) && After(t, es).now == t.now
      && FiringsIn(es) == |order|
  {
    hide Buried, OpsEvents, After, OpsDestroyed;
    AfterNone(t);
    if order != [] {
      var k := |order| - 1;
      DrainKeepsBuried(script, from, order[..k], gone, t);
      var es := DrainEvents(script, from, order[..k], gone, t);
      DrainOnce(script, from + k, es, order[k], DestroyedAfter(script, from, from + k, gone), t);
    }
  }

  // One more firing and its callback.
  lemma DrainOnce(script: nat -> seq<NodeOp>, c: nat, es: seq<Event>, n: Node, gone: set<Node>, t: Timer)
    requires t.now > 0 && Buried(gone, After(t, es)) && After(t, es).now == t.now
    ensures var fired := es + [Fired(n, t.now - 1)];
      var more := OpsEvents(script(c), gone, After(t, fired));
      && Buried(gone, After(t, fired)) && After(t, fired).now == t.now && FiringsIn(fired) == FiringsIn(es) + 1
      && Buried(OpsDestroyed(script(c), gone), After(t, fired + more)) && After(t, fired + more).now == t.now
      && FiringsIn(fired + more) == FiringsIn(es) + 1
  {
    hide OpsEvents, OpsDestroyed, After, FiringsIn;
    var e := Fired(n, t.now - 1);
    var fired := es + [e];
    AfterOne(After(t, es), e);
    AfterCat(t, es, [e]);
    FiringsCat(es, [e]);
    OneFiring(e);
    OpsKeepBuried(script(c), gone, After(t, fired));
    var more := OpsEvents(script(c), gone, After(t, fired));
    AfterCat(t, fired, more);
    FiringsCat(fired, more);
  }

  lemma OneFiring(e: Event)
    ensures FiringsIn([e]) == if e.Fired? then 1 else 0
  {
    assert [e][..0] == [];
  }

  lemma {:induction false} DrainSettles(script: nat -> seq<NodeOp>, from: nat, order: seq<Node>, gone: set<Node>, t: Timer, c: nat, j: nat)
      returns (k: nat, g: set<Node>)
    requires t.now > 0 && Buried(gone, t) && LastNamed(script, from, from + |order|, c, j)
    ensures var es := DrainEvents(script, from, order, gone, t);
      Settles(script(c)[j], g, t, es, k) && FiringsIn(es[..k]) == c + 1 - from
    ensures var n := script(c)[j].n;
      && (n in g ==> n in DestroyedAfter(script, from, from + |order|, gone))
      && (!script(c)[j].DestroyNode? && n in DestroyedAfter(script, from, from + |order|, gone) ==> n in g)
  {
    hide Buried, OpsEvents, After, OpsDestroyed, FiringsIn, Settles, OnlyFires, DestroyedAfter;
    var i := |order| - 1;
    var some := order[..i];
    var es, before := DrainEvents(script, from, some, gone, t), DestroyedAfter(script, from, from + i, gone);
    DrainKeepsBuried(script, from, some, gone, t);
    DrainOnce(script, from + i, es, order[i], before, t);
    var fired := es + [Fired(order[i], t.now - 1)];
    var more := OpsEvents(script(from + i), before, After(t, fired));
    DrainMore(script, from, some, order[i], gone, t);
    assert some + [order[i]] == order;
    if c == from + i {
      k := OpsSettle(script(c), before, After(t, fired), j);
      g := OpsDestroyed(script(c)[..j], before);
      DestroyedPart(script(c), j, before);
      if !script(c)[j].DestroyNode? { DestroyedByThen(script(c), j, before); }
      SettlesBefore(script(c)[j], g, t, fired, more, k);
      SettlesWithin(script(c)[j], g, After(t, fired), more, k);
      FiringsCat(fired, more[..k]);
      k := |fired| + k;
    } else {
      k, g := DrainSettles(script, from, some, gone, t, c, j);
      var n := script(c)[j].n;
      FiringIsFiring(order[i], t.now - 1, n);
      assert LeftAlone(script, from + i, from + i + 1, n);
      OpsLeaveAlone(script(from + i), before, After(t, fired), n);
      SparedByOthers(script(from + i), before, n);
      OnlyFiresCat([Fired(order[i], t.now - 1)], more, n);
      SettlesMore(script(c)[j], g, t, es, k, [Fired(order[i], t.now - 1)] + more);
      SettlesWithin(script(c)[j], g, t, es, k);
      assert es + ([Fired(order[i], t.now - 1)] + more) == fired + more;
      assert (fired + more)[..k] == es[..k];
    }
  }

  lemma {:induction false} DestroyedPart(ops: seq<NodeOp>, j: nat, gone: set<Node>)
    requires j <= |ops|
    ensures OpsDestroyed(ops[..j], gone) <= OpsDestroyed(ops, gone)
    decreases |ops|
  {
    if j < |ops| {
      var some := ops[..|ops| - 1];
      DestroyedPart(some, j, gone);
      assert some[..j] == ops[..j];
    } else {
      assert ops[..j] == ops;
    }
  }

  lemma TickKeepsBuried(script: nat -> seq<NodeOp>, from: nat, order: seq<Node>, gone: set<Node>, t: Timer)
    requires Buried(gone, t)
    ensures var es := TickEvents(script, from, order, gone, t);
      Buried(DestroyedAfter(script, from, from + |order|, gone), After(t, es)) && FiringsIn(es) == |order|
  {
    hide DrainEvents, After, DestroyedAfter, FiringsIn;
    var u := Timer(t.now + 1, t.due);
    var es := DrainEvents(script, from, order, gone, u);
    DrainKeepsBuried(script, from, order, gone, u);
    AfterOne(t, Tick(t.now));
    AfterCat(t, [Tick(t.now)], es);
    FiringsCat([Tick(t.now)], es);
    OneFiring(Tick(t.now));
  }

  lemma {:induction false} RunKeepsBuried(script: nat -> seq<NodeOp>, from: nat, order: seq<seq<Node>>, gone: set<Node>, t: Timer)
    requires Buried(gone, t)
    ensures var es := RunEvents(script, from, order, gone, t);
      Buried(DestroyedAfter(script, from, from + Firings(order), gone), After(t, es)) && FiringsIn(es) == Firings(order)
  {
    hide Buried, TickEvents, After, DestroyedAfter, FiringsIn;
    RunNothing(script, from, gone, t);
    AfterNone(t);
    NoFirings([]);
    if order != [] {
      var i := |order| - 1;
      var some := order[..i];
      var f := from + Firings(some);
      var es, before := RunEvents(script, from, some, gone, t), DestroyedAfter(script, from, f, gone);
      RunKeepsBuried(script, from, some, gone, t);
      var more := TickEvents(script, f, order[i], before, After(t, es));
      TickKeepsBuried(script, f, order[i], before, After(t, es));
      AfterCat(t, es, more);
      FiringsCat(es, more);
      DestroyedCat(script, from, f, f + |order[i]|, gone);
    }
  }

  lemma TickSettles(script: nat -> seq<NodeOp>, from: nat, order: seq<Node>, gone: set<Node>, t: Timer, c: nat, j: nat)
      returns (k: nat, g: set<Node>)
    requires Buried(gone, t) && LastNamed(script, from, from + |order|, c, j)
    ensures var es := TickEvents(script, from, order, gone, t);
      Settles(script(c)[j], g, t, es, k) && FiringsIn(es[..k]) == c + 1 - from
    ensures var n := script(c)[j].n;
      && (n in g ==> n in DestroyedAfter(script, from, from + |order|, gone))
      && (!script(c)[j].DestroyNode? && n in DestroyedAfter(script, from, from + |order|, gone) ==> n in g)
  {
    hide DrainEvents, After, DestroyedAfter, FiringsIn, Settles;
    var tick, u := [Tick(t.now)], Timer(t.now + 1, t.due);
    var es := DrainEvents(script, from, order, gone, u);
    k, g := DrainSettles(script, from, order, gone, u, c, j);
    AfterOne(t, Tick(t.now));
    SettlesBefore(script(c)[j], g, t, tick, es, k);
    SettlesWithin(script(c)[j], g, u, es, k);
    FiringsCat(tick, es[..k]);
    OneFiring(Tick(t.now));
    k := 1 + k;
  }

  // The last operation on a node settles what becomes of it in a run.
  lemma {:induction false} RunSettles(script: nat -> seq<NodeOp>, from: nat, order: seq<seq<Node>>, gone: set<Node>, t: Timer, c: nat, j: nat)
      returns (k: nat, g: set<Node>)
    requires Buried(gone, t) && LastNamed(script, from, from + Firings(order), c, j)
    ensures var es := RunEvents(script, from, order, gone, t);
      Settles(script(c)[j], g, t, es, k) && FiringsIn(es[..k]) == c + 1 - from
    ensures var n := script(c)[j].n;
      && (n in g ==> n in DestroyedAfter(script, from, from + Firings(order), gone))
      && (!script(c)[j].DestroyNode? && n in DestroyedAfter(script, from, from + Firings(order), gone) ==> n in g)
  {
    hide Buried, TickEvents, After, DestroyedAfter, FiringsIn, Settles, OnlyFires;
    var i := |order| - 1;
    var some := order[..i];
    var f, n := from + Firings(some), script(c)[j].n;
    var es, before := RunEvents(script, from, some, gone, t), DestroyedAfter(script, from, f, gone);
    RunKeepsBuried(script, from, some, gone, t);
    var more := TickEvents(script, f, order[i], before, After(t, es));
    DestroyedCat(script, from, f, f + |order[i]|, gone);
    if c >= f {
      k, g := TickSettles(script, f, order[i], before, After(t, es), c, j);
      SettlesBefore(script(c)[j], g, t, es, more, k);
      SettlesWithin(script(c)[j], g, After(t, es), more, k);
      FiringsCat(es, more[..k]);
      k := |es| + k;
    } else {
      k, g := RunSettles(script, from, some, gone, t, c, j);
      assert LeftAlone(script, f, f + |order[i]|, n);
      TickLeavesAlone(script, f, order[i], before, After(t, es), n);
      SettlesMore(script(c)[j], g, t, es, k, more);
      SettlesWithin(script(c)[j], g, t, es, k);
      assert (es + more)[..k] == es[..k];
      CallbacksSpare(script, f, f + |order[i]|, before, n);
    }
  }

  lemma {:induction false} CallbacksSpare(script: nat -> seq<NodeOp>, from: nat, end: nat, gone: set<Node>, n: Node)
    requires LeftAlone(script, from, end, n)
    ensures n in DestroyedAfter(script, from, end, gone) <==> n in gone
    decreases end
  {
    if from < end {
      CallbacksSpare(script, from, end - 1, gone, n);
      SparedByOthers(script(end - 1), DestroyedAfter(script, from, end - 1, gone), n);
    }
  }

  // Which nodes are destroyed in the end.
  ghost predicate Destroys(script: nat -> seq<NodeOp>, c: nat, n: Node) {
    exists j :: 0 <= j < |script(c)| && script(c)[j] == DestroyNode(n)
  }

  lemma {:induction false} DestroyedExactly(script: nat -> seq<NodeOp>, from: nat, end: nat, gone: set<Node>, n: Node)
    ensures n in DestroyedAfter(script, from, end, gone) <==> n in gone || exists c: nat :: from <= c < end && Destroys(script, c, n)
    decreases end
  {
    if from < end {
      DestroyedExactly(script, from, end - 1, gone, n);
      var before := DestroyedAfter(script, from, end - 1, gone);
      OpsDestroyExactly(script(end - 1), before, n);
      assert n in DestroyedAfter(script, from, end, gone) <==> n in before || Destroys(script, end - 1, n);
      if c: nat :| from <= c < end && Destroys(script, c, n) { assert c < end - 1 || Destroys(script, end - 1, n); }
    }
  }
}
