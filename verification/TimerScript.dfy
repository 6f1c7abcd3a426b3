// What the operations on nodes, callbacks and whole runs of a timer are: the
// exact events of each.
module TimerScript {
  import opened IntrusiveLists
  import opened TimerSpec

  // What a callback may do.
  datatype NodeOp =
    | AddNode(n: Node, expires: nat)
    | DelNode(n: Node)
    | ModNode(n: Node, expires: nat)
    | DestroyNode(n: Node)

  ghost predicate OpOk(op: NodeOp) {
    op.AddNode? || op.ModNode? ==> op.expires < WRAP
  }

  ghost predicate ScriptOk(script: nat -> seq<NodeOp>) {
    forall k: nat, i :: 0 <= i < |script(k)| ==> OpOk(script(k)[i])
  }

  // ----- operations -----

  // A destroyed node is left alone; a node is disarmed before it is modified.
  function OpEvents(op: NodeOp, destroyed: set<Node>, due: map<Node, nat>): seq<Event> {
    if op.n in destroyed then []
    else
      match op
      case AddNode(n, e) => [Armed(n, e)]
      case DelNode(n) => if n in due then [Disarmed(n)] else []
      case ModNode(n, e) => if n in due then [Disarmed(n), Armed(n, e)] else [Armed(n, e)]
      case DestroyNode(n) => [Disarmed(n)]
  }

  function OpDestroyed(op: NodeOp, destroyed: set<Node>): set<Node> {
    if op.DestroyNode? then destroyed + {op.n} else destroyed
  }

  // The operations of one callback.
  function OpsDestroyed(ops: seq<NodeOp>, destroyed: set<Node>): set<Node> {
    if ops == [] then destroyed else OpDestroyed(ops[|ops| - 1], OpsDestroyed(ops[..|ops| - 1], destroyed))
  }

  function OpsEvents(ops: seq<NodeOp>, destroyed: set<Node>, t: Timer): seq<Event> {
    if ops == [] then []
    else
      var some := ops[..|ops| - 1];
      var es := OpsEvents(some, destroyed, t);
      es + OpEvents(ops[|ops| - 1], OpsDestroyed(some, destroyed), After(t, es).due)
  }

  // ----- callbacks -----

  // The destroyed nodes after the callbacks numbered from `from` to `to`.
  function DestroyedAfter(script: nat -> seq<NodeOp>, from: nat, to: nat, destroyed: set<Node>): set<Node>
    decreases to
  {
    if to <= from then destroyed else OpsDestroyed(script(to - 1), DestroyedAfter(script, from, to - 1, destroyed))
  }

  // One tick's firings, of the nodes `order` one after the other: each is
  // followed by exactly what its callback does.
  function DrainEvents(script: nat -> seq<NodeOp>, from: nat, order: seq<Node>, destroyed: set<Node>, t: Timer): seq<Event>
    requires t.now > 0
  {
    if order == [] then []
    else
      var k := |order| - 1;
      var es := DrainEvents(script, from, order[..k], destroyed, t) + [Fired(order[k], t.now - 1)];
      es + OpsEvents(script(from + k), DestroyedAfter(script, from, from + k, destroyed), After(t, es))
  }

  // The number of firings in a run.
  function Firings(order: seq<seq<Node>>): nat {
    if order == [] then 0 else Firings(order[..|order| - 1]) + |order[|order| - 1]|
  }

  // One tick of timer t.
  function TickEvents(script: nat -> seq<NodeOp>, from: nat, order: seq<Node>, destroyed: set<Node>, t: Timer): seq<Event> {
    [Tick(t.now)] + DrainEvents(script, from, order, destroyed, Timer(t.now + 1, t.due))
  }

  // A run of |order| ticks.
  function RunEvents(script: nat -> seq<NodeOp>, from: nat, order: seq<seq<Node>>, destroyed: set<Node>, t: Timer): seq<Event> {
    if order == [] then []
    else
      var some := order[..|order| - 1];
      var es := RunEvents(script, from, some, destroyed, t);
      var f := from + Firings(some);
      es + TickEvents(script, f, order[|order| - 1], DestroyedAfter(script, from, f, destroyed), After(t, es))
  }

  // ----- nodes that no callback names -----

  predicate NotNamed(ops: seq<NodeOp>, n: Node) { forall i :: 0 <= i < |ops| ==> ops[i].n != n }

  // No callback numbered from `from` to `to` names n.
  ghost predicate LeftAlone(script: nat -> seq<NodeOp>, from: nat, to: nat, n: Node) {
    forall k: nat :: from <= k < to ==> NotNamed(script(k), n)
  }

  lemma OnlyFiresCat(a: seq<Event>, b: seq<Event>, n: Node)
    requires OnlyFires(a, n) && OnlyFires(b, n)
    ensures OnlyFires(a + b, n)
  {
    forall i | 0 <= i < |a + b| ensures FiresAt(a + b, n, i) {
      if i < |a| { assert FiresAt(a, n, i); } else { assert FiresAt(b, n, i - |a|); }
    }
  }

  lemma NothingFires(n: Node)
    ensures OnlyFires([], n)
  {
  }

  lemma FiringIsFiring(m: Node, d: nat, n: Node)
    ensures OnlyFires([Fired(m, d)], n)
  {
  }

  lemma TickIsFiring(d: nat, n: Node)
    ensures OnlyFires([Tick(d)], n)
  {
  }

  lemma {:induction false} OpsLeaveAlone(ops: seq<NodeOp>, destroyed: set<Node>, t: Timer, n: Node)
    requires NotNamed(ops, n)
    ensures OnlyFires(OpsEvents(ops, destroyed, t), n)
  {
    if ops != [] {
      var some := ops[..|ops| - 1];
      OpsLeaveAlone(some, destroyed, t, n);
      var es := OpsEvents(some, destroyed, t);
      OnlyFiresCat(es, OpEvents(ops[|ops| - 1], OpsDestroyed(some, destroyed), After(t, es).due), n);
    }
  }

  lemma {:induction false} DrainLeavesAlone(script: nat -> seq<NodeOp>, from: nat, order: seq<Node>, destroyed: set<Node>, t: Timer, n: Node)
    requires t.now > 0 && LeftAlone(script, from, from + |order|, n)
    ensures OnlyFires(DrainEvents(script, from, order, destroyed, t), n)
  {
    hide After, OpsEvents, OnlyFires, DestroyedAfter;
    NothingFires(n);
    if order != [] {
      var k := |order| - 1;
      FiringIsFiring(order[k], t.now - 1, n);
      DrainLeavesAlone(script, from, order[..k], destroyed, t, n);
      var es := DrainEvents(script, from, order[..k], destroyed, t);
      OnlyFiresCat(es, [Fired(order[k], t.now - 1)], n);
      var fired := es + [Fired(order[k], t.now - 1)];
      var callback := DestroyedAfter(script, from, from + k, destroyed);
      OpsLeaveAlone(script(from + k), callback, After(t, fired), n);
      OnlyFiresCat(fired, OpsEvents(script(from + k), callback, After(t, fired)), n);
    }
  }

  lemma {:induction false} RunLeavesAlone(script: nat -> seq<NodeOp>, from: nat, order: seq<seq<Node>>, destroyed: set<Node>, t: Timer, n: Node)
    requires LeftAlone(script, from, from + Firings(order), n)
    ensures OnlyFires(RunEvents(script, from, order, destroyed, t), n)
  {
    hide After, TickEvents, OnlyFires, DestroyedAfter;
    NothingFires(n);
    if order != [] {
      var k := |order| - 1;
      var some := order[..k];
      RunLeavesAlone(script, from, some, destroyed, t, n);
      var es := RunEvents(script, from, some, destroyed, t);
      var f := from + Firings(some);
      var u, gone := After(t, es), DestroyedAfter(script, from, f, destroyed);
      TickLeavesAlone(script, f, order[k], gone, u, n);
      OnlyFiresCat(es, TickEvents(script, f, order[k], gone, u), n);
    }
  }

  lemma TickLeavesAlone(script: nat -> seq<NodeOp>, from: nat, order: seq<Node>, destroyed: set<Node>, t: Timer, n: Node)
    requires LeftAlone(script, from, from + |order|, n)
    ensures OnlyFires(TickEvents(script, from, order, destroyed, t), n)
  {
    hide OnlyFires, DrainEvents;
    TickIsFiring(t.now, n);
    DrainLeavesAlone(script, from, order, destroyed, Timer(t.now + 1, t.due), n);
    OnlyFiresCat([Tick(t.now)], DrainEvents(script, from, order, destroyed, Timer(t.now + 1, t.due)), n);
  }

  // ----- one tick more -----

  lemma {:induction false} DestroyedCat(script: nat -> seq<NodeOp>, a: nat, b: nat, c: nat, destroyed: set<Node>)
    requires a <= b <= c
    ensures DestroyedAfter(script, b, c, DestroyedAfter(script, a, b, destroyed)) == DestroyedAfter(script, a, c, destroyed)
    decreases c
  {
    if b < c { DestroyedCat(script, a, b, c - 1, destroyed); }
  }

  lemma RunNothing(script: nat -> seq<NodeOp>, from: nat, destroyed: set<Node>, t: Timer)
    ensures RunEvents(script, from, [], destroyed, t) == [] && DestroyedAfter(script, from, from, destroyed) == destroyed
  {
  }

  lemma {:induction false} RunMore(script: nat -> seq<NodeOp>, from: nat, order: seq<seq<Node>>, fires: seq<Node>, destroyed: set<Node>, t: Timer)
    ensures var es := RunEvents(script, from, order, destroyed, t);
      var f := from + Firings(order);
      && RunEvents(script, from, order + [fires], destroyed, t)
         == es + TickEvents(script, f, fires, DestroyedAfter(script, from, f, destroyed), After(t, es))
      && Firings(order + [fires]) == Firings(order) + |fires|
  {
    hide After, TickEvents, DestroyedAfter;
    var all := order + [fires];
    assert all[..|all| - 1] == order && all[|all| - 1] == fires;
  }

  lemma {:induction false} DrainMore(script: nat -> seq<NodeOp>, from: nat, order: seq<Node>, n: Node, destroyed: set<Node>, t: Timer)
    requires t.now > 0
    ensures var es := DrainEvents(script, from, order, destroyed, t) + [Fired(n, t.now - 1)];
      var f := from + |order|;
      var gone := DestroyedAfter(script, from, f, destroyed);
      && DrainEvents(script, from, order + [n], destroyed, t) == es + OpsEvents(script(f), gone, After(t, es))
      && DestroyedAfter(script, from, f + 1, destroyed) == OpsDestroyed(script(f), gone)
  {
    hide After, OpsEvents, OpsDestroyed;
    var all := order + [n];
    assert all[..|all| - 1] == order && all[|all| - 1] == n;
  }

  lemma DrainNothing(script: nat -> seq<NodeOp>, from: nat, destroyed: set<Node>, t: Timer)
    requires t.now > 0
    ensures DrainEvents(script, from, [], destroyed, t) == [] && DestroyedAfter(script, from, from, destroyed) == destroyed
  {
  }
}
