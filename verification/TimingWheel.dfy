// The hierarchical timing wheel: five levels of circular lists, driven by a
// wrapping 32-bit tick counter, with callbacks that may arm, disarm and destroy
// nodes while a slot is being drained.
module TimingWheel {
  import opened IntrusiveLists
  import opened TimerSpec
  import opened TimerScript
  import opened TimerNamed
  import opened WheelPlacement

  // ----- placement of all nodes, as properties of values -----

  ghost predicate NodeOk(h: Head, n: Node, due: map<Node, nat>, expires: map<Node, nat>, now: nat, cascaded: nat, level: nat) {
    && n in due && n in expires
    && Placed(h, due[n], now, cascaded, level)
    && (KeepsExpiry(h) ==> expires[n] == due[n] % WRAP)
  }

  ghost predicate AllPlaced(lists: Contents, due: map<Node, nat>, expires: map<Node, nat>, now: nat, cascaded: nat, level: nat) {
    forall h: Head, n: Node :: n in ListOf(lists, h) ==> NodeOk(h, n, due, expires, now, cascaded, level)
  }

  ghost predicate Covered(lists: Contents, due: map<Node, nat>) {
    forall n: Node :: n in due ==> !Detached(lists, n)
  }

  lemma PlacedAfterAdd(lists: Contents, due: map<Node, nat>, expires: map<Node, nat>, now: nat, cascaded: nat, level: nat,
                       n: Node, d: nat, e: nat, h: Head)
    requires AllPlaced(lists, due, expires, now, cascaded, level) && Covered(lists, due) && Detached(lists, n)
    requires e < WRAP && h == HeadFor(e, now % WRAP) && d == DueTick(now, e)
    ensures AllPlaced(lists[h := ListOf(lists, h) + [n]], due[n := d], expires[n := e], now, cascaded, level)
    ensures Covered(lists[h := ListOf(lists, h) + [n]], due[n := d])
  {
    var lists', due', expires' := lists[h := ListOf(lists, h) + [n]], due[n := d], expires[n := e];
    AddedIsPlaced(now, e, level);
    PlacedWeaken(h, d, now, cascaded, level, level);
    forall g: Head, m: Node | m in ListOf(lists', g) ensures NodeOk(g, m, due', expires', now, cascaded, level) {
      if m != n { assert m in ListOf(lists, g); } else { assert n !in ListOf(lists, g); }
    }
    forall m: Node | m in due' ensures !Detached(lists', m) {
      if m == n { assert n in ListOf(lists', h); } else {
        var g: Head :| m in ListOf(lists, g);
        assert m in ListOf(lists', g);
      }
    }
  }

  lemma DetachedAfterDel(lists: Contents, h: Head, k: nat)
    requires Disjoint(lists) && k < |ListOf(lists, h)|
    ensures Detached(lists[h := Without(ListOf(lists, h), k)], ListOf(lists, h)[k])
  {
    var n, lists' := ListOf(lists, h)[k], lists[h := Without(ListOf(lists, h), k)];
    forall g: Head ensures n !in ListOf(lists', g) {
      assert NoRepeats(ListOf(lists, h));
      if g != h { assert n !in ListOf(lists, g); }
    }
  }

  lemma CoveredAfterDel(lists: Contents, due: map<Node, nat>, h: Head, k: nat)
    requires Covered(lists, due) && k < |ListOf(lists, h)|
    ensures Covered(lists[h := Without(ListOf(lists, h), k)], due - {ListOf(lists, h)[k]})
  {
    var n, lists' := ListOf(lists, h)[k], lists[h := Without(ListOf(lists, h), k)];
    forall m: Node | m in due - {n} ensures !Detached(lists', m) {
      var g: Head :| m in ListOf(lists, g);
      if g == h { StillInRest(ListOf(lists, h), k, m); }
      assert m in ListOf(lists', g);
    }
  }

  lemma StillInRest(ns: seq<Node>, k: nat, m: Node)
    requires k < |ns| && m in ns && m != ns[k]
    ensures m in Without(ns, k)
  {
    var i :| 0 <= i < |ns| && ns[i] == m;
    assert Without(ns, k)[if i < k then i else i - 1] == m;
  }

  lemma PlacedAfterDel(lists: Contents, due: map<Node, nat>, expires: map<Node, nat>, now: nat, cascaded: nat, level: nat,
                       h: Head, k: nat)
    requires AllPlaced(lists, due, expires, now, cascaded, level) && Covered(lists, due) && Disjoint(lists)
    requires k < |ListOf(lists, h)|
    ensures var n, lists' := ListOf(lists, h)[k], lists[h := Without(ListOf(lists, h), k)];
      && AllPlaced(lists', due - {n}, expires, now, cascaded, level) && Covered(lists', due - {n})
      && Detached(lists', n)
  {
    hide Placed;
    var n, lists' := ListOf(lists, h)[k], lists[h := Without(ListOf(lists, h), k)];
    DetachedAfterDel(lists, h, k);
    CoveredAfterDel(lists, due, h, k);
    forall g: Head, m: Node | m in ListOf(lists', g) ensures NodeOk(g, m, due - {n}, expires, now, cascaded, level) {
      assert m in ListOf(lists, g);
      assert n !in ListOf(lists', g);
    }
  }

  // The expiry of a node in no list does not matter.
  lemma PlacedWithout(lists: Contents, due: map<Node, nat>, expires: map<Node, nat>, now: nat, cascaded: nat, level: nat, n: Node)
    requires AllPlaced(lists, due, expires, now, cascaded, level) && Detached(lists, n)
    ensures AllPlaced(lists, due, expires[n := 0], now, cascaded, level)
  {
    hide Placed;
    forall h: Head, m: Node | m in ListOf(lists, h) ensures NodeOk(h, m, due, expires[n := 0], now, cascaded, level) {
      assert NodeOk(h, m, due, expires, now, cascaded, level);
      assert n !in ListOf(lists, h);
    }
  }

  class Wheel {
    var timerJiffies: nat
    var next: Pointers
    var prev: Pointers
    var expires: map<Node, nat>
    var attached: set<Node>    // nodes whose core pointer is set
    var destroyed: set<Node>   // nodes in state BAD
    var fired: nat             // callbacks run so far

    ghost const start: nat
    ghost var lists: Contents
    ghost var now: nat
    ghost var due: map<Node, nat>
    ghost var log: seq<Event>

    // The pointers form the lists, the counter is the tick modulo 2^32, every
    // armed node is in exactly one list, at a place that suits its due tick,
    // and everything done so far is a legal trace of the timer.
    ghost predicate Consistent(cascaded: nat, level: nat)
      reads this
    {
      && WellLinked(next, prev, lists)
      && timerJiffies == now % WRAP
      && AllPlaced(lists, due, expires, now, cascaded, level)
      && Covered(lists, due)
      && attached == due.Keys && attached !! destroyed
      && LegalTrace(Timer(start, map[]), log) && After(Timer(start, map[]), log) == Timer(now, due)
    }

    ghost predicate Valid()
      reads this
    {
      Consistent(1, 0) && ListOf(lists, Cascading) == []
    }

    // No slot is being drained.
    ghost predicate Quiet()
      reads this
    {
      ListOf(lists, Draining) == []
    }

    constructor (jiffies: nat)
      requires jiffies < WRAP
      ensures Valid() && Quiet() && now == start == jiffies && due == map[] && log == [] && destroyed == {}
    {
      timerJiffies, next, prev := jiffies, map[], map[];
      expires, attached, destroyed, fired := map[], {}, {}, 0;
      start, lists, now, due, log := jiffies, map[], jiffies, map[], [];
      new;
      forall h: Head ensures Circular(next, prev, h, ListOf(lists, h)) {
        assert JoinedAt(next, prev, h, [], 0);
      }
    }

    predicate Pending(n: Node)
      reads this
    {
      Follow(next, NodeOf(n)) != NodeOf(n)
    }

    lemma PendingIsDue(n: Node, cascaded: nat, level: nat)
      requires Consistent(cascaded, level)
      ensures Pending(n) <==> n in due
    {
      EmptyNode(next, prev, lists, n);
      if !Detached(lists, n) {
        var h: Head :| n in ListOf(lists, h);
      }
    }

    method AddTail(n: Node, h: Head)
      requires WellLinked(next, prev, lists) && Detached(lists, n)
      modifies `next, `prev, `lists
      ensures WellLinked(next, prev, lists) && lists == old(lists)[h := ListOf(old(lists), h) + [n]]
    {
      AddTailKeeps(next, prev, lists, n, h);
      ghost var next0, prev0 := next, prev;
      prev := prev[NodeOf(n) := Follow(prev, HeadOf(h))];
      next := next[NodeOf(n) := HeadOf(h)];
      next := next[Follow(prev, HeadOf(h)) := NodeOf(n)];
      prev := prev[HeadOf(h) := NodeOf(n)];
      assert next == AddTailNext(next0, prev0, n, h) && prev == AddTailPrev(prev0, n, h);
      lists := lists[h := ListOf(lists, h) + [n]];
    }

    method DelInit(n: Node, ghost h: Head, ghost k: nat)
      requires WellLinked(next, prev, lists) && k < |ListOf(lists, h)| && ListOf(lists, h)[k] == n
      modifies `next, `prev, `lists
      ensures WellLinked(next, prev, lists) && lists == old(lists)[h := Without(ListOf(old(lists), h), k)]
    {
      DelKeeps(next, prev, lists, h, k);
      assert JoinedAt(next, prev, h, ListOf(lists, h), k + 1);
      ghost var next0, prev0 := next, prev;
      var e := NodeOf(n);
      prev := prev[Follow(next, e) := Follow(prev, e)];
      next := next[Follow(prev, e) := Follow(next, e)];
      next := next[e := e];
      prev := prev[e := e];
      assert next == DelNext(next0, prev0, n) && prev == DelPrev(next0, prev0, n);
      lists := lists[h := Without(ListOf(lists, h), k)];
    }

    method SpliceInit(from: Head, to: Head)
      requires WellLinked(next, prev, lists) && from != to
      modifies `next, `prev, `lists
      ensures WellLinked(next, prev, lists)
      ensures lists == old(lists)[to := ListOf(old(lists), from) + ListOf(old(lists), to)][from := []]
    {
      SpliceKeeps(next, prev, lists, from, to);
      ghost var next0, prev0 := next, prev;
      if Follow(next, HeadOf(from)) != HeadOf(from) {
        var first, last, at := Follow(next, HeadOf(from)), Follow(prev, HeadOf(from)), Follow(next, HeadOf(to));
        prev := prev[first := HeadOf(to)];
        next := next[HeadOf(to) := first];
        next := next[last := at];
        prev := prev[at := last];
      }
      next := next[HeadOf(from) := HeadOf(from)];
      prev := prev[HeadOf(from) := HeadOf(from)];
      assert next == SpliceNext(next0, prev0, from, to) && prev == SplicePrev(next0, prev0, from, to);
      lists := lists[to := ListOf(lists, from) + ListOf(lists, to)][from := []];
    }

    // Unlinks a pending node from whichever list it is in.
    method Unlink(n: Node, ghost cascaded: nat, ghost level: nat) returns (ghost h: Head, ghost k: nat)
      requires Consistent(cascaded, level) && n in due
      modifies `next, `prev, `lists
      ensures WellLinked(next, prev, lists) && Detached(lists, n)
      ensures k < |ListOf(old(lists), h)| && ListOf(old(lists), h)[k] == n
      ensures lists == old(lists)[h := Without(ListOf(old(lists), h), k)]
      ensures AllPlaced(lists, due - {n}, expires, now, cascaded, level) && Covered(lists, due - {n})
    {
      assert !Detached(lists, n);
      h :| n in ListOf(lists, h);
      k :| 0 <= k < |ListOf(lists, h)| && ListOf(lists, h)[k] == n;
      PlacedAfterDel(lists, due, expires, now, cascaded, level, h, k);
      DelInit(n, h, k);
    }

    ghost method Record(e: Event)
      requires LegalTrace(Timer(start, map[]), log) && After(Timer(start, map[]), log) == Timer(now, due)
      requires Legal(Timer(now, due), e)
      modifies `log, `due, `now
      ensures log == old(log) + [e] && Timer(now, due) == Apply(Timer(old(now), old(due)), e)
      ensures LegalTrace(Timer(start, map[]), log) && After(Timer(start, map[]), log) == Timer(now, due)
    {
      Extend(Timer(start, map[]), log, e);
      var t := Apply(Timer(now, due), e);
      log, now, due := log + [e], t.now, t.due;
    }

    ghost predicate NoNewExpired(before: Contents)
      reads this
    {
      |ListOf(lists, Draining)| <= |ListOf(before, Draining)|
    }

    // Takes a node out of its list if it is in one.
    method UnlinkIfPending(n: Node)
      requires Valid()
      modifies `next, `prev, `lists, `attached
      ensures WellLinked(next, prev, lists) && Detached(lists, n) && attached == old(attached) - {n}
      ensures AllPlaced(lists, due - {n}, expires, now, 1, 0) && Covered(lists, due - {n})
      ensures NoNewExpired(old(lists)) && ListOf(lists, Cascading) == []
    {
      hide WellLinked, AllPlaced, Covered, Detached, LegalTrace, Without;
      PendingIsDue(n, 1, 0);
      EmptyNode(next, prev, lists, n);
      if Pending(n) {
        ghost var h, k := Unlink(n, 1, 0);
        attached := attached - {n};
      } else {
        assert due - {n} == due;
      }
    }

    // itimer_node_add
    method Add(n: Node, e: nat)
      requires Valid() && e < WRAP
      modifies this
      ensures Valid() && now == old(now) && destroyed == old(destroyed) && fired == old(fired)
      ensures n in destroyed ==> due == old(due) && log == old(log)
      ensures n !in destroyed ==> due == old(due)[n := DueTick(now, e)] && log == old(log) + [Armed(n, e)]
      ensures NoNewExpired(old(lists))
    {
      hide WellLinked, AllPlaced, Covered, Detached, LegalTrace, After, HeadFor, DueTick;
      if n in destroyed { return; }
      UnlinkIfPending(n);
      InternalAdd(n, e, due - {n}, 1, 0);
      Replaced(due, n, DueTick(now, e));
      Record(Armed(n, e));
    }

    // itimer_internal_add, after the expiry has been stored in the node.
    method InternalAdd(n: Node, e: nat, ghost rest: map<Node, nat>, ghost cascaded: nat, ghost level: nat)
      requires WellLinked(next, prev, lists) && Detached(lists, n) && e < WRAP && timerJiffies == now % WRAP
      requires AllPlaced(lists, rest, expires, now, cascaded, level) && Covered(lists, rest)
      modifies `next, `prev, `lists, `expires, `attached
      ensures WellLinked(next, prev, lists)
      ensures AllPlaced(lists, rest[n := DueTick(now, e)], expires, now, cascaded, level)
      ensures Covered(lists, rest[n := DueTick(now, e)])
      ensures attached == old(attached) + {n}
      ensures var h := HeadFor(e, timerJiffies); lists == old(lists)[h := ListOf(old(lists), h) + [n]]
    {
      expires := expires[n := e];
      var idx := (e - timerJiffies) % WRAP;
      var h: Head;
      if idx < 0x100 {
        h := Slot(1, e % 256);
      } else if idx < 0x4000 {
        h := Slot(2, (e / 0x100) % 64);
      } else if idx < 0x10_0000 {
        h := Slot(3, (e / 0x4000) % 64);
      } else if idx < 0x400_0000 {
        h := Slot(4, (e / 0x10_0000) % 64);
      } else if idx >= HALF {
        h := Slot(1, timerJiffies % 256);
      } else {
        h := Slot(5, (e / 0x400_0000) % 64);
      }
      PlacedAfterAdd(lists, rest, old(expires), now, cascaded, level, n, DueTick(now, e), e, h);
      AddTail(n, h);
      attached := attached + {n};
    }

    // itimer_node_del
    method Del(n: Node) returns (r: int)
      requires Valid()
      modifies this
      ensures Valid() && now == old(now) && destroyed == old(destroyed) && fired == old(fired)
      ensures r == if n in destroyed then -1 else if n in old(due) then 1 else 0
      ensures due == old(due) - {n}
      ensures log == if r == 1 then old(log) + [Disarmed(n)] else old(log)
      ensures NoNewExpired(old(lists))
    {
      hide WellLinked, AllPlaced, Covered, Detached, LegalTrace;
      if n in destroyed { return -1; }
      PendingIsDue(n, 1, 0);
      if Pending(n) {
        assert n in attached;  // assert(node->core != NULL)
        ghost var h, k := Unlink(n, 1, 0);
        attached := attached - {n};
        Record(Disarmed(n));
        return 1;
      }
      return 0;
    }

    // itimer_node_mod
    method Mod(n: Node, e: nat) returns (r: int)
      requires Valid() && e < WRAP
      modifies this
      ensures Valid() && now == old(now) && destroyed == old(destroyed) && fired == old(fired)
      ensures r == if n in destroyed then -1 else if n in old(due) then 1 else 0
      ensures due == if n in destroyed then old(due) else old(due)[n := DueTick(now, e)]
      ensures log == old(log) + OpEvents(ModNode(n, e), destroyed, old(due))
      ensures NoNewExpired(old(lists))
    {
      hide WellLinked, AllPlaced, Covered, Detached, LegalTrace;
      r := Del(n);
      Add(n, e);
    }

    // itimer_node_destroy
    method Destroy(n: Node)
      requires Valid()
      modifies this
      ensures Valid() && now == old(now) && destroyed == old(destroyed) + {n} && fired == old(fired)
      ensures due == old(due) - {n} && log == old(log) + OpEvents(DestroyNode(n), old(destroyed), old(due))
      ensures NoNewExpired(old(lists))
    {
      hide WellLinked, AllPlaced, Covered, Detached, LegalTrace, After;
      if n in destroyed {
        assert due - {n} == due;
        return;
      }
      UnlinkIfPending(n);
      Record(Disarmed(n));
      assert due == old(due) - {n};
      PlacedWithout(lists, due, expires, now, 1, 0, n);
      destroyed := destroyed + {n};
      expires := expires[n := 0];
    }

    // itimer_internal_cascade: empties one slot of a level into lower levels.
    method Cascade(level: nat, index: nat)
      requires 2 <= level <= 5 && index == CascadeIndex(level, now) && now % Unit(level) == 0
      requires Consistent(level - 1, 0) && ListOf(lists, Cascading) == []
      modifies `next, `prev, `lists, `expires, `attached
      ensures Consistent(level, 0) && ListOf(lists, Cascading) == []
      ensures ListOf(lists, Draining) == old(ListOf(lists, Draining))
    {
      hide WellLinked, AllPlaced, Covered, Detached, LegalTrace, After, HeadFor, DueTick, CascadeIndex, Disjoint;
      PlacedAfterSplice(lists, due, expires, now, level, index);
      SpliceInit(Slot(level, index), Cascading);
      while Follow(next, HeadOf(Cascading)) != HeadOf(Cascading)
        invariant Consistent(level, level)
        invariant ListOf(lists, Draining) == old(ListOf(lists, Draining))
        decreases |ListOf(lists, Cascading)|
      {
        EmptyHead(next, prev, lists, Cascading);
        var n := Follow(next, HeadOf(Cascading)).node;
        CascadingNode(lists, due, expires, now, level, n);
        ghost var d := due[n];
        LinkedDisjoint(next, prev, lists);
        PlacedAfterDel(lists, due, expires, now, level, level, Cascading, 0);
        DelInit(n, Cascading, 0);
        CascadedGoesDown(level, d, now);
        InternalAdd(n, expires[n], due - {n}, level, level);
        assert (due - {n})[n := d] == due;
        assert attached == old(attached);
      }
      EmptyHead(next, prev, lists, Cascading);
      NothingCascading(lists, due, expires, now, level, level, 0);
    }

    // One tick up to the callbacks: cascades, the counter, and the slot to drain.
    method BeginTick()
      requires Valid() && Quiet()
      modifies this
      ensures Valid() && now == old(now) + 1 && due == old(due) && destroyed == old(destroyed) && fired == old(fired)
      ensures log == old(log) + [Tick(old(now))]
      ensures forall n: Node :: n in ListOf(lists, Draining) <==> n in due && due[n] == old(now)
    {
      hide WellLinked, AllPlaced, Covered, LegalTrace, After, CascadeIndex, NothingOverdue, NextJiffy;
      var index := timerJiffies % 256;
      Slot1OfCounter(now);
      CascadesIfDue(index);
      Expired(lists, due, expires, now, index);
      NothingBehind(lists, due, expires, now, 5);
      Record(Tick(now));
      NextCounter(now - 1);
      timerJiffies := NextJiffy(timerJiffies);
      SpliceInit(Slot(1, index), Draining);
    }

    method CascadesIfDue(index: nat)
      requires Valid() && index == now % 256
      modifies `next, `prev, `lists, `expires, `attached
      ensures Consistent(5, 0) && ListOf(lists, Cascading) == []
      ensures ListOf(lists, Draining) == old(ListOf(lists, Draining))
    {
      hide WellLinked, AllPlaced, Covered, LegalTrace, After, CascadeIndex;
      if index == 0 {
        Cascades();
      } else {
        NoCascades(lists, due, expires, now, 1);
      }
    }

    // The cascades of a tick whose level-one index is zero.
    method Cascades()
      requires Valid() && now % 256 == 0
      modifies `next, `prev, `lists, `expires, `attached
      ensures Consistent(5, 0) && ListOf(lists, Cascading) == []
      ensures ListOf(lists, Draining) == old(ListOf(lists, Draining))
    {
      hide WellLinked, AllPlaced, Covered, LegalTrace, After, CascadeIndex, Unit;
      ghost var levels := 2;
      Units();
      Indexes(now);
      var i := CascadeIndex(2, timerJiffies);
      Cascade(2, i);
      if i == 0 {
        i := CascadeIndex(3, timerJiffies);
        Cascade(3, i);
        levels := 3;
        if i == 0 {
          i := CascadeIndex(4, timerJiffies);
          Cascade(4, i);
          levels := 4;
          if i == 0 {
            i := CascadeIndex(5, timerJiffies);
            Cascade(5, i);
            levels := 5;
          }
        }
      }
      if levels < 5 { NoCascades(lists, due, expires, now, levels); }
    }

    // Takes the next node off the drained slot; its callback is about to run.
    method PopExpired() returns (n: Node)
      requires Valid() && !Quiet()
      modifies this
      ensures Valid() && now == old(now) && destroyed == old(destroyed) && fired == old(fired) + 1
      ensures n == old(ListOf(lists, Draining))[0] && n in old(due) && old(due)[n] + 1 == now && due == old(due) - {n}
      ensures log == old(log) + [Fired(n, now - 1)]
      ensures |ListOf(lists, Draining)| < |ListOf(old(lists), Draining)|
      ensures ListOf(lists, Draining) == old(ListOf(lists, Draining))[1..]
    {
      hide WellLinked, AllPlaced, Covered, LegalTrace, After, Disjoint, Detached;
      EmptyHead(next, prev, lists, Draining);
      n := Follow(next, HeadOf(Draining)).node;
      DrainingNode(lists, due, expires, now, n);
      LinkedDisjoint(next, prev, lists);
      PlacedAfterDel(lists, due, expires, now, 1, 0, Draining, 0);
      DelInit(n, Draining, 0);
      attached := attached - {n};
      fired := fired + 1;
      Record(Fired(n, now - 1));
    }

    // The reference timer that the wheel implements.
    ghost function Reference(): Timer
      reads this
    {
      Timer(now, due)
    }

    // One operation on a node.
    method RunOp(op: NodeOp)
      requires Valid() && OpOk(op)
      modifies this
      ensures Valid() && now == old(now) && fired == old(fired) && NoNewExpired(old(lists))
      ensures Done(op, old(destroyed), now, old(due), due)
      ensures destroyed == if op.DestroyNode? then old(destroyed) + {op.n} else old(destroyed)
      ensures log == old(log) + OpEvents(op, old(destroyed), old(due))
    {
      hide WellLinked, AllPlaced, Covered, LegalTrace, After, DueTick;
      match op {
        case AddNode(n, e) => Add(n, e);
        case DelNode(n) => var _ := Del(n);
        case ModNode(n, e) => var _ := Mod(n, e);
        case DestroyNode(n) => Destroy(n);
      }
    }

    // What a callback does with the nodes.
    method RunOps(ops: seq<NodeOp>)
      requires Valid() && forall i :: 0 <= i < |ops| ==> OpOk(ops[i])
      modifies this
      ensures Valid() && now == old(now) && fired == old(fired) && NoNewExpired(old(lists))
      ensures destroyed == OpsDestroyed(ops, old(destroyed)) && log == old(log) + OpsEvents(ops, old(destroyed), old(Reference()))
    {
      hide Valid, OpEvents;
      ghost var t := Reference();
      Replay();
      var i := 0;
      while i < |ops|
        invariant 0 <= i <= |ops| && Valid() && now == old(now) && fired == old(fired) && NoNewExpired(old(lists))
        invariant destroyed == OpsDestroyed(ops[..i], old(destroyed)) && log == old(log) + OpsEvents(ops[..i], old(destroyed), t)
      {
        assert OpOk(ops[i]) && ops[..i + 1][..i] == ops[..i];
        Replayed(old(log), t, OpsEvents(ops[..i], old(destroyed), t));
        RunOp(ops[i]);
        i := i + 1;
      }
      assert ops[..i] == ops;
    }

    // The log tells what the reference timer is.
    lemma Replay()
      requires Valid()
      ensures After(Timer(start, map[]), log) == Reference()
    {
    }

    lemma Replayed(before: seq<Event>, t: Timer, es: seq<Event>)
      requires Valid() && log == before + es && After(Timer(start, map[]), before) == t
      ensures Reference() == After(t, es) && LegalTrace(t, es)
    {
      hide WellLinked, AllPlaced, Covered, LegalTrace, After;
      AfterCat(Timer(start, map[]), before, es);
      LegalRest(Timer(start, map[]), before, es);
    }

    // The firings of one tick, in the order of the drained list as the
    // callbacks leave it.
    method DrainSlot(script: nat -> seq<NodeOp>) returns (ghost order: seq<Node>)
      requires Valid() && ScriptOk(script) && now > 0
      modifies this
      ensures Valid() && Quiet() && now == old(now) && fired == old(fired) + |order|
      ensures destroyed == DestroyedAfter(script, old(fired), fired, old(destroyed))
      ensures log == old(log) + DrainEvents(script, old(fired), order, old(destroyed), old(Reference()))
    {
      hide WellLinked, AllPlaced, Covered, LegalTrace, After, OpsEvents, OpsDestroyed, ScriptOk, DrainEvents, DestroyedAfter;
      ghost var t, before, gone, from := Reference(), log, destroyed, fired;
      Replay();
      order := [];
      DrainNothing(script, from, gone, t);
      while Follow(next, HeadOf(Draining)) != HeadOf(Draining)
        invariant Valid() && now == old(now) && fired == from + |order|
        invariant destroyed == DestroyedAfter(script, from, fired, gone)
        invariant log == before + DrainEvents(script, from, order, gone, t)
        decreases |ListOf(lists, Draining)|
      {
        EmptyHead(next, prev, lists, Draining);
        ghost var es := DrainEvents(script, from, order, gone, t);
        var k := fired;
        var n := PopExpired();
        Replayed(before, t, es + [Fired(n, now - 1)]);
        CallbackOk(script, k);
        RunOps(script(k));
        DrainMore(script, from, order, n, gone, t);
        order := order + [n];
      }
      EmptyHead(next, prev, lists, Draining);
    }

    // itimer_internal_update: the k-th callback run does what script(k) says.
    // What happens is, tick by tick, the tick and its firings, each followed by
    // exactly what its callback does.
    method Update(jiffies: nat, script: nat -> seq<NodeOp>) returns (ghost order: seq<seq<Node>>)
      requires Valid() && Quiet() && jiffies < WRAP && ScriptOk(script)
      modifies this
      ensures Valid() && Quiet() && now == old(now) + |order| && |order| == TicksTo(old(timerJiffies), jiffies)
      ensures fired == old(fired) + Firings(order) && destroyed == DestroyedAfter(script, old(fired), fired, old(destroyed))
      ensures log == old(log) + RunEvents(script, old(fired), order, old(destroyed), old(Reference())) && NothingOverdue(Reference())
      ensures forall n: Node :: LeftAlone(script, old(fired), fired, n) ==> Exact(n, old(Reference()), log[|old(log)|..])
      ensures forall c: nat, j: nat :: LastNamed(script, old(fired), fired, c, j) ==>
        Settled(script(c)[j], old(Reference()), log[|old(log)|..], c + 1 - old(fired))
    {
      hide WellLinked, AllPlaced, Covered, LegalTrace, After, ScriptOk, NothingOverdue, DrainEvents, DestroyedAfter, RunEvents, Exact, LeftAlone;
      ghost var t, before, gone, from := Reference(), log, destroyed, fired;
      Replay();
      order := [];
      RunNothing(script, from, gone, t);
      while (jiffies - timerJiffies) % WRAP < HALF
        invariant Valid() && Quiet() && now == old(now) + |order| && fired == from + Firings(order)
        invariant |order| + TicksTo(timerJiffies, jiffies) == TicksTo(old(timerJiffies), jiffies)
        invariant destroyed == DestroyedAfter(script, from, fired, gone) && log == before + RunEvents(script, from, order, gone, t)
        decreases TicksTo(timerJiffies, jiffies)
      {
        Replayed(before, t, RunEvents(script, from, order, gone, t));
        OneTickLess(now, jiffies);
        BeginTick();
        ghost var f := fired;
        ghost var fires := DrainSlot(script);
        DestroyedCat(script, from, f, fired, gone);
        RunMore(script, from, order, fires, gone, t);
        order := order + [fires];
      }
      NothingBehind(lists, due, expires, now, 1);
      Replayed(before, t, RunEvents(script, from, order, gone, t));
      forall n: Node | LeftAlone(script, from, fired, n) ensures Exact(n, t, log[|before|..]) {
        RunLeavesAlone(script, from, order, gone, t, n);
        ExactlyFires(n, t, RunEvents(script, from, order, gone, t));
      }
      forall c: nat, j: nat | LastNamed(script, from, fired, c, j) ensures Settled(script(c)[j], t, log[|before|..], c + 1 - from) {
        var k, g := RunSettles(script, from, order, gone, t, c, j);
        SettledAt(script(c)[j], g, t, RunEvents(script, from, order, gone, t), k);
      }
    }

    // What an operation on a node, the last in a run, leads to: a node deleted
    // or destroyed is not armed and never fires after it; a node armed fires
    // once, at its due tick, if that has passed, and stays armed otherwise.
    ghost predicate Fate(op: NodeOp, time: nat, rest: seq<Event>)
      reads this
    {
      if op.DelNode? || op.DestroyNode? || op.n in destroyed then op.n !in due && NothingAbout(rest, op.n, 0, |rest|)
      else
        var d := DueTick(time, op.expires);
        if d < now then op.n !in due && FiresOnce(rest, op.n, d)
        else op.n in due && due[op.n] == d && NothingAbout(rest, op.n, 0, |rest|)
    }

    // The events of a run from an operation on, which comes after the given
    // number of firings.
    ghost predicate Settled(op: NodeOp, t: Timer, es: seq<Event>, firings: nat)
      reads this
    {
      exists k: nat :: k <= |es| && FiringsIn(es[..k]) == firings && Fate(op, After(t, es[..k]).now, es[k..])
    }

    lemma SettledAt(op: NodeOp, gone: set<Node>, t: Timer, es: seq<Event>, k: nat)
      requires Settles(op, gone, t, es, k) && LegalTrace(t, es) && After(t, es) == Reference() && NothingOverdue(Reference())
      requires op.n in gone ==> op.n in destroyed
      requires !op.DestroyNode? && op.n in destroyed ==> op.n in gone
      ensures Settled(op, t, es, FiringsIn(es[..k]))
    {
      hide LegalTrace, After, NothingOverdue, OnlyFires, NothingAbout, FiresOnce, DueTick;
      var u, rest := After(t, es[..k]), es[k..];
      assert es[..k] + rest == es;
      AfterCat(t, es[..k], rest);
      LegalRest(t, es[..k], rest);
      TimeMovesOn(t, es, k, |es|);
      assert es[..|es|] == es;
      ExactlyFires(op.n, u, rest);
    }

    // Exact firing of a node that no callback of the run names: armed for a
    // tick that has passed, it fires once, at that tick, and is armed no more;
    // armed for a later tick, it stays so; not armed, nothing happens to it.
    ghost predicate Exact(n: Node, t: Timer, es: seq<Event>)
      reads this
    {
      if n in t.due && t.due[n] < now then n !in due && FiresOnce(es, n, t.due[n])
      else NothingAbout(es, n, 0, |es|) && (n in due <==> n in t.due) && (n in due ==> due[n] == t.due[n])
    }

    lemma ExactlyFires(n: Node, t: Timer, es: seq<Event>)
      requires LegalTrace(t, es) && OnlyFires(es, n) && After(t, es) == Reference() && NothingOverdue(Reference()) && t.now <= now
      ensures Exact(n, t, es)
    {
      hide LegalTrace, After;
      Untouched(t, es, n);
      if n in t.due && n !in due { FiredInTime(t, es, n); }
    }

    // Every firing in the log of the wheel is that of the last arming of its
    // node, which nothing has touched since, at the tick the arming named.
    lemma FiringsAreExact(k: nat) returns (j: nat)
      requires Valid() && k < |log| && log[k].Fired?
      ensures j < k && log[j].Armed? && log[j].node == log[k].node && NothingAbout(log, log[k].node, j + 1, k)
      ensures log[k].tick == DueTick(After(Timer(start, map[]), log[..j]).now, log[j].expires)
    {
      j := FiringIsExact(start, log, k);
    }
  }

  // Arms a node and runs the wheel: if no callback names the node, it fires
  // once, at the tick it was armed for, as soon as that has been reached.
  method ArmAndRun(w: Wheel, n: Node, e: nat, jiffies: nat, script: nat -> seq<NodeOp>)
    requires w.Valid() && w.Quiet() && e < WRAP && jiffies < WRAP && ScriptOk(script) && n !in w.destroyed
    requires forall k: nat :: NotNamed(script(k), n)
    modifies w
    ensures w.Valid() && w.Quiet() && |old(w.log)| < |w.log|
    ensures var d := DueTick(old(w.now), e);
      var es := w.log[|old(w.log)| + 1..];
      if d < w.now then n !in w.due && FiresOnce(es, n, d) else n in w.due && w.due[n] == d && NothingAbout(es, n, 0, |es|)
  {
    hide Wheel.Valid, ScriptOk, NotNamed, RunEvents, DestroyedAfter, DueTick, NothingOverdue;
    w.Add(n, e);
    var order := w.Update(jiffies, script);
    assert LeftAlone(script, old(w.fired), w.fired, n);
  }

  lemma CallbackOk(script: nat -> seq<NodeOp>, k: nat)
    requires ScriptOk(script)
    ensures forall i :: 0 <= i < |script(k)| ==> OpOk(script(k)[i])
  {
  }

  lemma LinkedDisjoint(next: Pointers, prev: Pointers, c: Contents)
    requires WellLinked(next, prev, c)
    ensures Disjoint(c)
  {
  }

  // Splicing the slot whose cascade tick is now leaves only later cascades.
  lemma PlacedAfterSplice(lists: Contents, due: map<Node, nat>, expires: map<Node, nat>, now: nat, level: nat, index: nat)
    requires 2 <= level && AllPlaced(lists, due, expires, now, level - 1, 0) && Covered(lists, due)
    requires level <= 5 && index == CascadeIndex(level, now) && now % Unit(level) == 0
    requires ListOf(lists, Cascading) == []
    ensures var h := Slot(level, index);
      var lists' := lists[Cascading := ListOf(lists, h) + ListOf(lists, Cascading)][h := []];
      AllPlaced(lists', due, expires, now, level, level) && Covered(lists', due)
  {
    var h := Slot(level, index);
    var lists' := lists[Cascading := ListOf(lists, h) + ListOf(lists, Cascading)][h := []];
    assert ListOf(lists', Cascading) == ListOf(lists, h);
    forall g: Head, n: Node | n in ListOf(lists', g) ensures NodeOk(g, n, due, expires, now, level, level) {
      if g == Cascading {
        assert n in ListOf(lists, h);
        CascadedSlot(level, index, due[n], now);
      } else {
        assert n in ListOf(lists, g);
        if g.Slot? && g.level == level { CascadedSlot(level, g.index, due[n], now); }
      }
    }
    forall n: Node | n in due ensures !Detached(lists', n) {
      var g: Head :| n in ListOf(lists, g);
      assert n in ListOf(lists', if g == h then Cascading else g);
    }
  }

  lemma CascadingNode(lists: Contents, due: map<Node, nat>, expires: map<Node, nat>, now: nat, level: nat, n: Node)
    requires AllPlaced(lists, due, expires, now, level, level) && n in ListOf(lists, Cascading)
    ensures n in due && n in expires && 2 <= level <= 5 && CascadeTick(level, due[n]) == now && expires[n] == due[n] % WRAP
  {
    assert NodeOk(Cascading, n, due, expires, now, level, level);
  }

  lemma NothingCascading(lists: Contents, due: map<Node, nat>, expires: map<Node, nat>, now: nat, cascaded: nat, level: nat, level': nat)
    requires AllPlaced(lists, due, expires, now, cascaded, level) && ListOf(lists, Cascading) == []
    ensures AllPlaced(lists, due, expires, now, cascaded, level')
  {
    forall g: Head, n: Node | n in ListOf(lists, g) ensures NodeOk(g, n, due, expires, now, cascaded, level') {
      assert NodeOk(g, n, due, expires, now, cascaded, level);
      assert g != Cascading;
    }
  }

  lemma Units()
    ensures Unit(2) == 0x100 && Unit(3) == 0x4000 && Unit(4) == 0x10_0000 && Unit(5) == 0x400_0000
  {
  }

  lemma Indexes(now: nat)
    ensures forall l :: 2 <= l <= 5 ==> CascadeIndex(l, now % WRAP) == CascadeIndex(l, now)
    ensures forall l :: 2 <= l <= 4 && now % Unit(l) == 0 ==> (now % Unit(l + 1) == 0 <==> CascadeIndex(l, now) == 0)
  {
    forall l | 2 <= l <= 5 ensures CascadeIndex(l, now % WRAP) == CascadeIndex(l, now) { CascadeIndexOfCounter(l, now); }
    forall l | 2 <= l <= 4 && now % Unit(l) == 0 ensures now % Unit(l + 1) == 0 <==> CascadeIndex(l, now) == 0 { NextLevelAligned(l, now); }
  }

  // When the next level has no cascade at this tick, neither has any above it.
  lemma NoCascades(lists: Contents, due: map<Node, nat>, expires: map<Node, nat>, now: nat, cascaded: nat)
    requires AllPlaced(lists, due, expires, now, cascaded, 0) && 1 <= cascaded <= 4 && now % Unit(cascaded + 1) != 0
    ensures AllPlaced(lists, due, expires, now, 5, 0)
  {
    forall g: Head, n: Node | n in ListOf(lists, g) ensures NodeOk(g, n, due, expires, now, 5, 0) {
      assert NodeOk(g, n, due, expires, now, cascaded, 0);
      if g.Slot? && g.level > cascaded && g.level >= 2 {
        HigherUnits(cascaded + 1, g.level, now);
        NotYetCascading(g.level, due[n], now);
      }
    }
  }

  // After the cascades the slot of this tick holds exactly the nodes due now,
  // and every other node is still well placed for the next tick.
  lemma Expired(lists: Contents, due: map<Node, nat>, expires: map<Node, nat>, now: nat, index: nat)
    requires AllPlaced(lists, due, expires, now, 5, 0) && Covered(lists, due)
    requires index == now % 256 && ListOf(lists, Cascading) == [] && ListOf(lists, Draining) == []
    ensures var h := Slot(1, index);
      var lists' := lists[Draining := ListOf(lists, h) + ListOf(lists, Draining)][h := []];
      && AllPlaced(lists', due, expires, now + 1, 1, 0) && Covered(lists', due)
      && (forall n: Node :: n in ListOf(lists', Draining) <==> n in due && due[n] == now)
  {
    var h := Slot(1, index);
    var lists' := lists[Draining := ListOf(lists, h) + ListOf(lists, Draining)][h := []];
    assert ListOf(lists', Draining) == ListOf(lists, h);
    forall g: Head, n: Node | n in ListOf(lists, g)
      ensures if g == h then due[n] == now else NodeOk(g, n, due, expires, now + 1, 1, 0) && due[n] > now
    {
      StillPlaced(g, n, due, expires, now);
    }
    forall g: Head, n: Node | n in ListOf(lists', g) ensures NodeOk(g, n, due, expires, now + 1, 1, 0) {
      assert n in ListOf(lists, if g == Draining then h else g);
    }
    forall n: Node | n in due ensures !Detached(lists', n) && (due[n] == now ==> n in ListOf(lists', Draining)) {
      var g: Head :| n in ListOf(lists, g);
      assert n in ListOf(lists', if g == h then Draining else g);
    }
  }

  lemma StillPlaced(g: Head, n: Node, due: map<Node, nat>, expires: map<Node, nat>, now: nat)
    requires NodeOk(g, n, due, expires, now, 5, 0) && g != Draining
    ensures if g == Slot(1, now % 256) then due[n] == now else NodeOk(g, n, due, expires, now + 1, 1, 0) && due[n] > now
  {
    if g.level != 1 { assert due[n] >= CascadeTick(g.level, due[n]); }
  }

  lemma NothingBehind(lists: Contents, due: map<Node, nat>, expires: map<Node, nat>, now: nat, cascaded: nat)
    requires AllPlaced(lists, due, expires, now, cascaded, 0) && Covered(lists, due)
    requires ListOf(lists, Cascading) == [] && ListOf(lists, Draining) == []
    ensures NothingOverdue(Timer(now, due))
  {
    forall n | n in due ensures now <= due[n] {
      assert !Detached(lists, n);
      var g: Head :| n in ListOf(lists, g);
      assert NodeOk(g, n, due, expires, now, cascaded, 0);
    }
  }

  // How many iterations itimer_internal_update makes.
  function NextJiffy(jiffies: nat): nat { (jiffies + 1) % WRAP }

  lemma NextCounter(now: nat)
    ensures NextJiffy(now % WRAP) == (now + 1) % WRAP
  {
  }

  lemma Replaced(due: map<Node, nat>, n: Node, d: nat)
    ensures (due - {n})[n := d] == due[n := d]
  {
  }

  function TicksTo(jiffies: nat, target: nat): nat {
    var d := (target - jiffies) % WRAP;
    if d < HALF then d + 1 else 0
  }

  lemma OneTickLess(now: nat, target: nat)
    requires target < WRAP && (target - now % WRAP) % WRAP < HALF
    ensures TicksTo((now + 1) % WRAP, target) == TicksTo(now % WRAP, target) - 1
  {
    var d := (target - now % WRAP) % WRAP;
    assert (now + 1) % WRAP == if now % WRAP + 1 == WRAP then 0 else now % WRAP + 1;
    if d == 0 {
      assert (target - (now + 1) % WRAP) % WRAP == WRAP - 1;
    } else {
      assert (target - (now + 1) % WRAP) % WRAP == d - 1;
    }
  }

  lemma DrainingNode(lists: Contents, due: map<Node, nat>, expires: map<Node, nat>, now: nat, n: Node)
    requires AllPlaced(lists, due, expires, now, 1, 0) && n in ListOf(lists, Draining)
    ensures n in due && due[n] + 1 == now
  {
    assert NodeOk(Draining, n, due, expires, now, 1, 0);
  }
}
