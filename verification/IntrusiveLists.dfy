// The intrusive circular lists of the timing wheel.  Every list head and every
// node carries a next and a prev pointer; a head or node that is in no list
// points at itself.
module IntrusiveLists {

  type Node = nat

  // Slots of the five levels, and the two heads that live on the stack.
  datatype Head = Slot(level: nat, index: nat) | Cascading | Draining

  datatype Link = HeadOf(head: Head) | NodeOf(node: Node)

  type Pointers = map<Link, Link>

  // A link never written still holds what iqueue_init gave it: itself.
  function Follow(p: Pointers, l: Link): Link {
    if l in p then p[l] else l
  }

  type Contents = map<Head, seq<Node>>

  function ListOf(c: Contents, h: Head): seq<Node> {
    if h in c then c[h] else []
  }

  // The i-th link of the cycle of h: the head, its nodes, the head again.
  function CycleAt(h: Head, ns: seq<Node>, i: nat): Link
    requires i <= |ns| + 1
  {
    if i == 0 || i == |ns| + 1 then HeadOf(h) else NodeOf(ns[i - 1])
  }

  ghost predicate JoinedAt(next: Pointers, prev: Pointers, h: Head, ns: seq<Node>, i: nat)
    requires i <= |ns|
  {
    && Follow(next, CycleAt(h, ns, i)) == CycleAt(h, ns, i + 1)
    && Follow(prev, CycleAt(h, ns, i + 1)) == CycleAt(h, ns, i)
  }

  // next and prev run around the cycle of h in opposite directions.
  ghost predicate Circular(next: Pointers, prev: Pointers, h: Head, ns: seq<Node>) {
    forall i :: 0 <= i <= |ns| ==> JoinedAt(next, prev, h, ns, i)
  }

  ghost predicate NoRepeats(ns: seq<Node>) {
    forall i, j :: 0 <= i < j < |ns| ==> ns[i] != ns[j]
  }

  // A node is in at most one list, at most once.
  ghost predicate Disjoint(c: Contents) {
    && (forall h: Head :: NoRepeats(ListOf(c, h)))
    && (forall g: Head, h: Head, n :: g != h && n in ListOf(c, g) ==> n !in ListOf(c, h))
  }

  ghost predicate Detached(c: Contents, n: Node) {
    forall h: Head :: n !in ListOf(c, h)
  }

  ghost predicate WellLinked(next: Pointers, prev: Pointers, c: Contents) {
    && Disjoint(c)
    && (forall h: Head :: Circular(next, prev, h, ListOf(c, h)))
    && (forall n: Node :: Detached(c, n) ==> Follow(next, NodeOf(n)) == NodeOf(n) == Follow(prev, NodeOf(n)))
  }

  // Pointers that differ only at links outside the cycle leave it circular.
  lemma CycleKept(next: Pointers, prev: Pointers, next': Pointers, prev': Pointers, h: Head, ns: seq<Node>)
    requires Circular(next, prev, h, ns)
    requires Follow(next', HeadOf(h)) == Follow(next, HeadOf(h)) && Follow(prev', HeadOf(h)) == Follow(prev, HeadOf(h))
    requires forall n :: n in ns ==> Follow(next', NodeOf(n)) == Follow(next, NodeOf(n)) && Follow(prev', NodeOf(n)) == Follow(prev, NodeOf(n))
    ensures Circular(next', prev', h, ns)
  {
    forall i | 0 <= i <= |ns| ensures JoinedAt(next', prev', h, ns, i) {
      assert JoinedAt(next, prev, h, ns, i);
      if 0 < i { assert ns[i - 1] in ns; }
      if i < |ns| { assert ns[i] in ns; }
    }
  }

  // ----- add tail -----

  // iqueue_add_tail(node, head), assignment by assignment.
  function AddTailNext(next: Pointers, prev: Pointers, n: Node, h: Head): Pointers {
    var next1 := next[NodeOf(n) := HeadOf(h)];
    next1[Follow(prev, HeadOf(h)) := NodeOf(n)]
  }

  function AddTailPrev(prev: Pointers, n: Node, h: Head): Pointers {
    var prev1 := prev[NodeOf(n) := Follow(prev, HeadOf(h))];
    prev1[HeadOf(h) := NodeOf(n)]
  }

  lemma AddTailCycle(next: Pointers, prev: Pointers, h: Head, ns: seq<Node>, n: Node)
    requires Circular(next, prev, h, ns) && NoRepeats(ns) && n !in ns
    ensures Circular(AddTailNext(next, prev, n, h), AddTailPrev(prev, n, h), h, ns + [n])
  {
    var next', prev' := AddTailNext(next, prev, n, h), AddTailPrev(prev, n, h);
    assert JoinedAt(next, prev, h, ns, |ns|);
    forall i | 0 <= i <= |ns| + 1 ensures JoinedAt(next', prev', h, ns + [n], i) {
      if i < |ns| { assert JoinedAt(next, prev, h, ns, i); }
    }
  }

  lemma AddTailKeeps(next: Pointers, prev: Pointers, c: Contents, n: Node, h: Head)
    requires WellLinked(next, prev, c) && Detached(c, n)
    ensures WellLinked(AddTailNext(next, prev, n, h), AddTailPrev(prev, n, h), c[h := ListOf(c, h) + [n]])
  {
    var next', prev' := AddTailNext(next, prev, n, h), AddTailPrev(prev, n, h);
    var c' := c[h := ListOf(c, h) + [n]];
    var ns := ListOf(c, h);
    assert JoinedAt(next, prev, h, ns, |ns|);
    AddTailDisjoint(c, n, h);
    forall g: Head ensures Circular(next', prev', g, ListOf(c', g)) {
      if g == h { AddTailCycle(next, prev, h, ns, n); } else { CycleKept(next, prev, next', prev', g, ListOf(c, g)); }
    }
    forall m: Node | Detached(c', m) ensures Follow(next', NodeOf(m)) == NodeOf(m) == Follow(prev', NodeOf(m)) {
      DetachedAlso(c, h, n, m);
    }
  }

  lemma AddTailDisjoint(c: Contents, n: Node, h: Head)
    requires Disjoint(c) && Detached(c, n)
    ensures Disjoint(c[h := ListOf(c, h) + [n]])
  {
    var c' := c[h := ListOf(c, h) + [n]];
    AppendNoRepeats(ListOf(c, h), [n]);
    forall g: Head ensures NoRepeats(ListOf(c', g)) { assert NoRepeats(ListOf(c, g)); }
    forall f: Head, g: Head, m | f != g && m in ListOf(c', f) ensures m !in ListOf(c', g) {
      assert m in ListOf(c, f) || m == n;
      assert m !in ListOf(c, g);
      assert n !in ListOf(c, f) && n !in ListOf(c, g);
    }
  }

  lemma DetachedAlso(c: Contents, h: Head, n: Node, m: Node)
    requires Detached(c[h := ListOf(c, h) + [n]], m)
    ensures m != n && Detached(c, m)
  {
    var c' := c[h := ListOf(c, h) + [n]];
    assert n in ListOf(c', h);
    forall g: Head ensures m !in ListOf(c, g) { assert m !in ListOf(c', g); }
  }

  // ----- delete -----

  // iqueue_del_init(entry), assignment by assignment.
  function DelNext(next: Pointers, prev: Pointers, n: Node): Pointers {
    var next1 := next[Follow(prev, NodeOf(n)) := Follow(next, NodeOf(n))];
    next1[NodeOf(n) := NodeOf(n)]
  }

  function DelPrev(next: Pointers, prev: Pointers, n: Node): Pointers {
    var prev1 := prev[Follow(next, NodeOf(n)) := Follow(prev, NodeOf(n))];
    prev1[NodeOf(n) := NodeOf(n)]
  }

  function Without(ns: seq<Node>, k: nat): (r: seq<Node>)
    requires k < |ns|
    ensures |r| == |ns| - 1
  {
    ns[..k] + ns[k + 1..]
  }

  lemma DelCycle(next: Pointers, prev: Pointers, h: Head, ns: seq<Node>, k: nat)
    requires Circular(next, prev, h, ns) && NoRepeats(ns) && k < |ns|
    ensures Circular(DelNext(next, prev, ns[k]), DelPrev(next, prev, ns[k]), h, Without(ns, k))
  {
    var n := ns[k];
    var next', prev' := DelNext(next, prev, n), DelPrev(next, prev, n);
    var ms := Without(ns, k);
    assert JoinedAt(next, prev, h, ns, k) && JoinedAt(next, prev, h, ns, k + 1);
    forall i | 0 <= i <= |ms| ensures JoinedAt(next', prev', h, ms, i) {
      WithoutCycle(h, ns, k, i);
      WithoutCycle(h, ns, k, i + 1);
      if i < k { assert JoinedAt(next, prev, h, ns, i); } else if i > k { assert JoinedAt(next, prev, h, ns, i + 1); }
      DistinctLinks(h, ns, if i <= k then i else i + 1, k);
      DistinctLinks(h, ns, if i + 1 <= k then i + 1 else i + 2, k);
    }
  }

  // Removing position k shifts the later links of the cycle down by one.
  lemma WithoutCycle(h: Head, ns: seq<Node>, k: nat, i: nat)
    requires k < |ns| && i <= |ns|
    ensures CycleAt(h, Without(ns, k), i) == CycleAt(h, ns, if i <= k then i else i + 1)
  {
  }

  // The link of node k, and those beside it, against any other link.
  lemma DistinctLinks(h: Head, ns: seq<Node>, i: nat, k: nat)
    requires NoRepeats(ns) && i <= |ns| + 1 && k < |ns| && i != k + 1
    ensures CycleAt(h, ns, i) != NodeOf(ns[k])
    ensures CycleAt(h, ns, i) == CycleAt(h, ns, k) ==> i == k || (k == 0 && i == |ns| + 1)
    ensures CycleAt(h, ns, i) == CycleAt(h, ns, k + 2) ==> i == k + 2 || (k + 1 == |ns| && i == 0)
  {
  }

  lemma DelKeeps(next: Pointers, prev: Pointers, c: Contents, h: Head, k: nat)
    requires WellLinked(next, prev, c) && k < |ListOf(c, h)|
    ensures var n := ListOf(c, h)[k];
      WellLinked(DelNext(next, prev, n), DelPrev(next, prev, n), c[h := Without(ListOf(c, h), k)])
  {
    var n := ListOf(c, h)[k];
    var c' := c[h := Without(ListOf(c, h), k)];
    DelDisjoint(c, h, k);
    forall g: Head ensures Circular(DelNext(next, prev, n), DelPrev(next, prev, n), g, ListOf(c', g)) {
      DelCycles(next, prev, c, h, k, g);
    }
    forall m: Node | Detached(c', m)
      ensures Follow(DelNext(next, prev, n), NodeOf(m)) == NodeOf(m) == Follow(DelPrev(next, prev, n), NodeOf(m))
    {
      if m != n {
        StillDetached(c, h, k, m);
        NotBeside(next, prev, c, h, k, m);
      }
    }
  }

  lemma DelDisjoint(c: Contents, h: Head, k: nat)
    requires Disjoint(c) && k < |ListOf(c, h)|
    ensures Disjoint(c[h := Without(ListOf(c, h), k)])
  {
    var c' := c[h := Without(ListOf(c, h), k)];
    forall g: Head ensures NoRepeats(ListOf(c', g)) { assert NoRepeats(ListOf(c, g)); }
    forall f: Head, g: Head, m | f != g && m in ListOf(c', f) ensures m !in ListOf(c', g) {
      assert m in ListOf(c, f);
      assert m !in ListOf(c, g);
    }
  }

  lemma DelCycles(next: Pointers, prev: Pointers, c: Contents, h: Head, k: nat, g: Head)
    requires WellLinked(next, prev, c) && k < |ListOf(c, h)|
    ensures var n := ListOf(c, h)[k];
      Circular(DelNext(next, prev, n), DelPrev(next, prev, n), g, ListOf(c[h := Without(ListOf(c, h), k)], g))
  {
    var ns := ListOf(c, h);
    var n := ns[k];
    if g == h {
      DelCycle(next, prev, h, ns, k);
    } else {
      assert JoinedAt(next, prev, h, ns, k) && JoinedAt(next, prev, h, ns, k + 1);
      OutsideCycle(c, g, h, k);
      CycleKept(next, prev, DelNext(next, prev, n), DelPrev(next, prev, n), g, ListOf(c, g));
    }
  }

  // Neither node k of h nor its neighbours are in another list.
  lemma OutsideCycle(c: Contents, g: Head, h: Head, k: nat)
    requires Disjoint(c) && g != h && k < |ListOf(c, h)|
    ensures var ns := ListOf(c, h);
      forall i :: i in {k, k + 1, k + 2} ==>
        CycleAt(h, ns, i) != HeadOf(g) && forall m :: m in ListOf(c, g) ==> CycleAt(h, ns, i) != NodeOf(m)
  {
  }

  lemma StillDetached(c: Contents, h: Head, k: nat, m: Node)
    requires k < |ListOf(c, h)| && Detached(c[h := Without(ListOf(c, h), k)], m) && m != ListOf(c, h)[k]
    ensures Detached(c, m)
  {
    var ns := ListOf(c, h);
    var c' := c[h := Without(ns, k)];
    forall g: Head ensures m !in ListOf(c, g) {
      assert m !in ListOf(c', g);
    }
  }

  lemma NotBeside(next: Pointers, prev: Pointers, c: Contents, h: Head, k: nat, m: Node)
    requires WellLinked(next, prev, c) && k < |ListOf(c, h)| && Detached(c, m)
    ensures var n := ListOf(c, h)[k]; Follow(next, NodeOf(n)) != NodeOf(m) && Follow(prev, NodeOf(n)) != NodeOf(m)
  {
    var ns := ListOf(c, h);
    assert JoinedAt(next, prev, h, ns, k) && JoinedAt(next, prev, h, ns, k + 1);
    assert m !in ns;
  }

  // ----- splice -----

  // iqueue_splice_init(list, head), assignment by assignment.
  function SpliceNext(next: Pointers, prev: Pointers, from: Head, to: Head): Pointers {
    if Follow(next, HeadOf(from)) == HeadOf(from) then next[HeadOf(from) := HeadOf(from)] else
    var first, last, at := Follow(next, HeadOf(from)), Follow(prev, HeadOf(from)), Follow(next, HeadOf(to));
    var next1 := next[HeadOf(to) := first];
    next1[last := at][HeadOf(from) := HeadOf(from)]
  }

  function SplicePrev(next: Pointers, prev: Pointers, from: Head, to: Head): Pointers {
    if Follow(next, HeadOf(from)) == HeadOf(from) then prev[HeadOf(from) := HeadOf(from)] else
    var first, last, at := Follow(next, HeadOf(from)), Follow(prev, HeadOf(from)), Follow(next, HeadOf(to));
    var prev1 := prev[first := HeadOf(to)];
    prev1[at := last][HeadOf(from) := HeadOf(from)]
  }

  lemma SpliceCycle(next: Pointers, prev: Pointers, from: Head, to: Head, ns: seq<Node>, ms: seq<Node>)
    requires Circular(next, prev, from, ns) && NoRepeats(ns) && ns != []
    requires Circular(next, prev, to, ms) && NoRepeats(ms) && from != to
    requires forall n :: n in ns ==> n !in ms
    ensures Circular(SpliceNext(next, prev, from, to), SplicePrev(next, prev, from, to), to, ns + ms)
  {
    var next', prev' := SpliceNext(next, prev, from, to), SplicePrev(next, prev, from, to);
    assert JoinedAt(next, prev, from, ns, 0) && JoinedAt(next, prev, from, ns, |ns|) && JoinedAt(next, prev, to, ms, 0);
    forall i | 0 <= i <= |ns + ms| ensures JoinedAt(next', prev', to, ns + ms, i) {
      if 0 < i < |ns| { assert JoinedAt(next, prev, from, ns, i); }
      if i > |ns| { assert JoinedAt(next, prev, to, ms, i - |ns|); }
    }
  }

  lemma SpliceKeeps(next: Pointers, prev: Pointers, c: Contents, from: Head, to: Head)
    requires WellLinked(next, prev, c) && from != to
    ensures WellLinked(SpliceNext(next, prev, from, to), SplicePrev(next, prev, from, to),
                       c[to := ListOf(c, from) + ListOf(c, to)][from := []])
  {
    var next', prev' := SpliceNext(next, prev, from, to), SplicePrev(next, prev, from, to);
    var c' := c[to := ListOf(c, from) + ListOf(c, to)][from := []];
    SpliceDisjoint(c, from, to);
    forall h: Head ensures Circular(next', prev', h, ListOf(c', h)) { SpliceCycles(next, prev, c, from, to, h); }
    forall m: Node | Detached(c', m) ensures Follow(next', NodeOf(m)) == NodeOf(m) == Follow(prev', NodeOf(m)) {
      SpliceDetached(c, from, to, m);
      SpliceOutside(next, prev, c, from, to, m);
    }
  }

  lemma SpliceOutside(next: Pointers, prev: Pointers, c: Contents, from: Head, to: Head, m: Node)
    requires WellLinked(next, prev, c) && from != to && (m !in ListOf(c, from) && m !in ListOf(c, to))
    ensures Follow(SpliceNext(next, prev, from, to), NodeOf(m)) == Follow(next, NodeOf(m))
    ensures Follow(SplicePrev(next, prev, from, to), NodeOf(m)) == Follow(prev, NodeOf(m))
  {
    var ns, ms := ListOf(c, from), ListOf(c, to);
    EmptyHead(next, prev, c, from);
    assert JoinedAt(next, prev, from, ns, 0) && JoinedAt(next, prev, from, ns, |ns|) && JoinedAt(next, prev, to, ms, 0);
  }

  lemma SpliceCycles(next: Pointers, prev: Pointers, c: Contents, from: Head, to: Head, h: Head)
    requires WellLinked(next, prev, c) && from != to
    ensures Circular(SpliceNext(next, prev, from, to), SplicePrev(next, prev, from, to), h,
                     ListOf(c[to := ListOf(c, from) + ListOf(c, to)][from := []], h))
  {
    var ns, ms := ListOf(c, from), ListOf(c, to);
    EmptyHead(next, prev, c, from);
    if ns == [] {
      assert ns + ms == ms;
      SpliceNothing(next, prev, c, from, to, h);
    } else if h == to {
      SpliceCycle(next, prev, from, to, ns, ms);
    } else if h == from {
      assert JoinedAt(SpliceNext(next, prev, from, to), SplicePrev(next, prev, from, to), from, [], 0);
    } else {
      SpliceElsewhere(next, prev, c, from, to, h);
    }
  }

  lemma SpliceNothing(next: Pointers, prev: Pointers, c: Contents, from: Head, to: Head, h: Head)
    requires WellLinked(next, prev, c) && from != to && ListOf(c, from) == []
    ensures Circular(SpliceNext(next, prev, from, to), SplicePrev(next, prev, from, to), h, ListOf(c, h))
  {
    EmptyHead(next, prev, c, from);
    assert JoinedAt(next, prev, from, [], 0);
    CycleKept(next, prev, SpliceNext(next, prev, from, to), SplicePrev(next, prev, from, to), h, ListOf(c, h));
  }

  lemma SpliceElsewhere(next: Pointers, prev: Pointers, c: Contents, from: Head, to: Head, h: Head)
    requires WellLinked(next, prev, c) && from != to && ListOf(c, from) != [] && h != from && h != to
    ensures Circular(SpliceNext(next, prev, from, to), SplicePrev(next, prev, from, to), h, ListOf(c, h))
  {
    var next', prev' := SpliceNext(next, prev, from, to), SplicePrev(next, prev, from, to);
    forall m | m in ListOf(c, h)
      ensures Follow(next', NodeOf(m)) == Follow(next, NodeOf(m)) && Follow(prev', NodeOf(m)) == Follow(prev, NodeOf(m))
    {
      SpliceOutside(next, prev, c, from, to, m);
    }
    SpliceOutsideHead(next, prev, c, from, to, h);
    CycleKept(next, prev, next', prev', h, ListOf(c, h));
  }

  lemma SpliceOutsideHead(next: Pointers, prev: Pointers, c: Contents, from: Head, to: Head, h: Head)
    requires WellLinked(next, prev, c) && from != to && h != from && h != to
    ensures Follow(SpliceNext(next, prev, from, to), HeadOf(h)) == Follow(next, HeadOf(h))
    ensures Follow(SplicePrev(next, prev, from, to), HeadOf(h)) == Follow(prev, HeadOf(h))
  {
    var ns, ms := ListOf(c, from), ListOf(c, to);
    EmptyHead(next, prev, c, from);
    assert JoinedAt(next, prev, from, ns, 0) && JoinedAt(next, prev, from, ns, |ns|) && JoinedAt(next, prev, to, ms, 0);
  }

  lemma SpliceDisjoint(c: Contents, from: Head, to: Head)
    requires Disjoint(c) && from != to
    ensures Disjoint(c[to := ListOf(c, from) + ListOf(c, to)][from := []])
  {
    var ns, ms := ListOf(c, from), ListOf(c, to);
    var c' := c[to := ns + ms][from := []];
    AppendNoRepeats(ns, ms);
    forall h: Head ensures NoRepeats(ListOf(c', h)) { assert NoRepeats(ListOf(c, h)); }
    forall g: Head, h: Head, n | g != h && n in ListOf(c', g) ensures n !in ListOf(c', h) {
      var from1 := if g != to || n in ms then g else from;
      assert n in ListOf(c, from1);
      assert n !in ListOf(c, h) || h == from1;
      assert n !in ns || n !in ms;
    }
  }

  lemma AppendNoRepeats(ns: seq<Node>, ms: seq<Node>)
    requires NoRepeats(ns) && NoRepeats(ms) && forall n :: n in ns ==> n !in ms
    ensures NoRepeats(ns + ms)
  {
    forall i, j | 0 <= i < j < |ns + ms| ensures (ns + ms)[i] != (ns + ms)[j] {
      if i < |ns| <= j { assert ns[i] in ns && ms[j - |ns|] in ms; }
    }
  }

  lemma SpliceDetached(c: Contents, from: Head, to: Head, m: Node)
    requires Detached(c[to := ListOf(c, from) + ListOf(c, to)][from := []], m) && from != to
    ensures Detached(c, m)
  {
    var c' := c[to := ListOf(c, from) + ListOf(c, to)][from := []];
    assert m !in ListOf(c', to);
    forall h: Head ensures m !in ListOf(c, h) { assert m !in ListOf(c', h); }
  }

  // ----- emptiness tests -----

  // iqueue_is_empty on a head.
  lemma EmptyHead(next: Pointers, prev: Pointers, c: Contents, h: Head)
    requires WellLinked(next, prev, c)
    ensures Follow(next, HeadOf(h)) == HeadOf(h) <==> ListOf(c, h) == []
    ensures ListOf(c, h) != [] ==> Follow(next, HeadOf(h)) == NodeOf(ListOf(c, h)[0])
  {
    assert JoinedAt(next, prev, h, ListOf(c, h), 0);
  }

  // iqueue_is_empty on a node: it is in no list.
  lemma EmptyNode(next: Pointers, prev: Pointers, c: Contents, n: Node)
    requires WellLinked(next, prev, c)
    ensures Follow(next, NodeOf(n)) == NodeOf(n) <==> Detached(c, n)
  {
    if !Detached(c, n) {
      var h: Head :| n in ListOf(c, h);
      var ns := ListOf(c, h);
      var k :| 0 <= k < |ns| && ns[k] == n;
      assert JoinedAt(next, prev, h, ns, k + 1);
    }
  }
}
