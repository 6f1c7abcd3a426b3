// What a timer is for: a map from armed nodes to the tick at which each is due.
// A trace of what a timer does is legal when every firing is at its due tick
// and no tick begins while a firing is overdue.
module TimerSpec {
  import opened IntrusiveLists

  const WRAP := 0x1_0000_0000
  const HALF := 0x8000_0000

  datatype Event =
    | Armed(node: Node, expires: nat)
    | Disarmed(node: Node)
    | Tick(tick: nat)             // the tick's expired nodes are about to fire
    | Fired(node: Node, tick: nat)

  // `now` counts ticks without wrapping; it is the next tick to begin.
  datatype Timer = Timer(now: nat, due: map<Node, nat>)

  // The distance from the wrapping tick counter to `expires`.
  function Distance(now: nat, expires: nat): (d: nat)
    ensures d < WRAP
  {
    (expires - now) % WRAP
  }

  // The tick at which a node armed now fires: the next tick whose counter
  // equals `expires`, or the very next tick when that is half the counter's
  // range or more ahead, which means it is already past.
  function DueTick(now: nat, expires: nat): nat {
    if Distance(now, expires) < HALF then now + Distance(now, expires) else now
  }

  predicate Legal(t: Timer, e: Event) {
    match e
    case Armed(_, _) => true
    case Disarmed(_) => true
    case Tick(k) => k == t.now && NothingOverdue(t)
    case Fired(n, k) => n in t.due && t.due[n] == k && k + 1 == t.now
  }

  predicate NothingOverdue(t: Timer) {
    forall n :: n in t.due ==> t.now <= t.due[n]
  }

  function Apply(t: Timer, e: Event): Timer {
    match e
    case Armed(n, x) => t.(due := t.due[n := DueTick(t.now, x)])
    case Disarmed(n) => t.(due := t.due - {n})
    case Tick(_) => t.(now := t.now + 1)
    case Fired(n, _) => t.(due := t.due - {n})
  }

  function After(t: Timer, es: seq<Event>): Timer {
    if es == [] then t else Apply(After(t, es[..|es| - 1]), es[|es| - 1])
  }

  predicate LegalTrace(t: Timer, es: seq<Event>) {
    forall k :: 0 <= k < |es| ==> LegalAt(t, es, k)
  }

  predicate LegalAt(t: Timer, es: seq<Event>, k: nat)
    requires k < |es|
  {
    Legal(After(t, es[..k]), es[k])
  }

  lemma Extend(t: Timer, es: seq<Event>, e: Event)
    requires LegalTrace(t, es) && Legal(After(t, es), e)
    ensures LegalTrace(t, es + [e]) && After(t, es + [e]) == Apply(After(t, es), e)
  {
    assert (es + [e])[..|es|] == es;
    forall k | 0 <= k < |es + [e]| ensures LegalAt(t, es + [e], k) {
      if k < |es| {
        assert (es + [e])[..k] == es[..k];
        assert LegalAt(t, es, k);
      }
    }
  }

  predicate About(e: Event, n: Node) {
    !e.Tick? && e.node == n
  }

  predicate NothingAbout(es: seq<Event>, n: Node, i: nat, j: nat)
    requires i <= j <= |es|
  {
    forall k :: i <= k < j ==> !About(es[k], n)
  }

  lemma {:induction false} DueKept(t: Timer, es: seq<Event>, n: Node, i: nat, j: nat)
    requires i <= j <= |es| && NothingAbout(es, n, i, j)
    ensures n in After(t, es[..j]).due <==> n in After(t, es[..i]).due
    ensures n in After(t, es[..i]).due ==> After(t, es[..j]).due[n] == After(t, es[..i]).due[n]
  {
    if i < j {
      DueKept(t, es, n, i, j - 1);
      assert es[..j][..j - 1] == es[..j - 1];
      assert !About(es[j - 1], n);
    }
  }

  lemma {:induction false} TimeMovesOn(t: Timer, es: seq<Event>, i: nat, j: nat)
    requires i <= j <= |es|
    ensures After(t, es[..i]).now <= After(t, es[..j]).now
  {
    if i < j {
      TimeMovesOn(t, es, i, j - 1);
      assert es[..j][..j - 1] == es[..j - 1];
    }
  }

  // The last event about n before position k, if any.
  lemma {:induction false} LastAbout(es: seq<Event>, n: Node, k: nat) returns (j: int)
    requires k <= |es|
    ensures -1 <= j < k && NothingAbout(es, n, j + 1, k) && (j >= 0 ==> About(es[j], n))
  {
    if k == 0 { j := -1; }
    else if About(es[k - 1], n) { j := k - 1; }
    else { j := LastAbout(es, n, k - 1); }
  }

  // Exactness: a node fires only if it was armed and nothing has happened to
  // it since, at exactly the tick its arming named; so it fires once.
  lemma FiringIsExact(now: nat, es: seq<Event>, k: nat) returns (j: nat)
    requires LegalTrace(Timer(now, map[]), es) && k < |es| && es[k].Fired?
    ensures j < k && es[j].Armed? && es[j].node == es[k].node && NothingAbout(es, es[k].node, j + 1, k)
    ensures es[k].tick == DueTick(After(Timer(now, map[]), es[..j]).now, es[j].expires)
  {
    var t := Timer(now, map[]);
    var n := es[k].node;
    assert LegalAt(t, es, k);
    var last := LastAbout(es, n, k);
    DueKept(t, es, n, last + 1, k);
    assert es[..0] == [];
    assert last >= 0;
    j := last;
    assert es[..j + 1][..j] == es[..j];
    assert About(es[j], n);
  }

  // Completeness: an armed node to which nothing else happens fires before the
  // tick after its due tick begins.
  lemma FiringHappens(now: nat, es: seq<Event>, j: nat, m: nat) returns (k: nat)
    requires LegalTrace(Timer(now, map[]), es) && j < m < |es| && es[j].Armed? && es[m].Tick?
    requires es[m].tick > DueTick(After(Timer(now, map[]), es[..j]).now, es[j].expires)
    ensures j < k < m && About(es[k], es[j].node) && NothingAbout(es, es[j].node, j + 1, k)
    ensures es[k].Fired? ==> es[k].tick == DueTick(After(Timer(now, map[]), es[..j]).now, es[j].expires)
  {
    var t := Timer(now, map[]);
    var n := es[j].node;
    assert es[..j + 1][..j] == es[..j];
    assert LegalAt(t, es, m);
    if NothingAbout(es, n, j + 1, m) {
      DueKept(t, es, n, j + 1, m);
      assert false;
    }
    k := FirstAbout(es, n, j + 1, m);
    DueKept(t, es, n, j + 1, k);
    assert LegalAt(t, es, k);
  }

  lemma {:induction false} FirstAbout(es: seq<Event>, n: Node, i: nat, m: nat) returns (k: nat)
    requires i <= m <= |es| && !NothingAbout(es, n, i, m)
    ensures i <= k < m && About(es[k], n) && NothingAbout(es, n, i, k)
    decreases m - i
  {
    if About(es[i], n) { k := i; } else { k := FirstAbout(es, n, i + 1, m); }
  }

  // ----- traces in parts -----

  lemma {:induction false} AfterCat(t: Timer, a: seq<Event>, b: seq<Event>)
    ensures After(t, a + b) == After(After(t, a), b)
  {
    if b == [] {
      assert a + b == a;
    } else {
      var n := |b| - 1;
      AfterCat(t, a, b[..n]);
      assert (a + b)[..|a + b| - 1] == a + b[..n] && (a + b)[|a + b| - 1] == b[n];
    }
  }

  // The rest of a legal trace is a legal trace of the timer as it is then.
  lemma LegalRest(t: Timer, a: seq<Event>, b: seq<Event>)
    requires LegalTrace(t, a + b)
    ensures LegalTrace(After(t, a), b)
  {
    forall k | 0 <= k < |b| ensures LegalAt(After(t, a), b, k) {
      assert LegalAt(t, a + b, |a| + k);
      assert (a + b)[..|a| + k] == a + b[..k] && (a + b)[|a| + k] == b[k];
      AfterCat(t, a, b[..k]);
    }
  }

  // ----- nodes that nobody touches -----

  // All that happens to n in these events is that it fires.
  predicate OnlyFires(es: seq<Event>, n: Node) {
    forall i :: 0 <= i < |es| ==> FiresAt(es, n, i)
  }

  predicate FiresAt(es: seq<Event>, n: Node, i: nat)
    requires i < |es|
  {
    About(es[i], n) ==> es[i].Fired?
  }

  // n fires at tick d, once, and nothing else happens to it.
  predicate FiresOnce(es: seq<Event>, n: Node, d: nat) {
    exists j :: 0 <= j < |es| && es[j] == Fired(n, d) && NothingAbout(es, n, 0, j) && NothingAbout(es, n, j + 1, |es|)
  }

  // A node that nobody touches stays armed as it was, or fires once at its due
  // tick; one that is not armed stays so.
  lemma {:induction false} Untouched(t: Timer, es: seq<Event>, n: Node)
    requires LegalTrace(t, es) && OnlyFires(es, n)
    ensures n !in t.due ==> n !in After(t, es).due && NothingAbout(es, n, 0, |es|)
    ensures n in t.due && n in After(t, es).due ==> After(t, es).due[n] == t.due[n] && NothingAbout(es, n, 0, |es|)
    ensures n in t.due && n !in After(t, es).due ==> FiresOnce(es, n, t.due[n])
  {
    if es != [] {
      var k := |es| - 1;
      var some, e := es[..k], es[k];
      assert some + [e] == es;
      LegalPart(t, es, k);
      forall i | 0 <= i < k ensures FiresAt(some, n, i) { assert FiresAt(es, n, i); }
      Untouched(t, some, n);
      assert LegalAt(t, es, k) && FiresAt(es, n, k);
      if About(e, n) {
        assert e == Fired(n, t.due[n]) && NothingAbout(es, n, 0, k);
      } else if n in t.due && n !in After(t, some).due {
        var j :| 0 <= j < |some| && some[j] == Fired(n, t.due[n]) && NothingAbout(some, n, 0, j) && NothingAbout(some, n, j + 1, k);
        assert es[j] == Fired(n, t.due[n]) && NothingAbout(es, n, 0, j) && NothingAbout(es, n, j + 1, |es|);
      }
    }
  }

  lemma LegalPart(t: Timer, es: seq<Event>, k: nat)
    requires LegalTrace(t, es) && k <= |es|
    ensures LegalTrace(t, es[..k])
  {
    forall i | 0 <= i < k ensures LegalAt(t, es[..k], i) {
      assert LegalAt(t, es, i);
      assert es[..k][..i] == es[..i];
    }
  }

  // A firing is in a tick that has begun.
  lemma FiredInTime(t: Timer, es: seq<Event>, n: Node)
    requires LegalTrace(t, es) && n in t.due && FiresOnce(es, n, t.due[n])
    ensures t.due[n] < After(t, es).now
  {
    var j :| 0 <= j < |es| && es[j] == Fired(n, t.due[n]) && NothingAbout(es, n, 0, j) && NothingAbout(es, n, j + 1, |es|);
    assert LegalAt(t, es, j);
    TimeMovesOn(t, es, j, |es|);
    assert es[..|es|] == es;
  }
}
