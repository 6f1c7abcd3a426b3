// Every move of the consumer keeps the invariant.
module SpscConsumer {
  import opened SpscQueue
  import opened SpscInvariant
  import opened SpscBlocks

  ghost predicate At<T>(cfg: Config, s: State<T>, v: View) {
    Inv(cfg, s, v) && s.consumer.Dequeuing?
  }

  lemma ReadsKeepProducer<T>(cfg: Config, s: State<T>, s': State<T>, v: View)
    requires RingOk(s, v) && RingOk(s', v) && ProducerOk(cfg, s, v)
    requires OnlyReads(s, s') && s'.producer == s.producer && (s.sawFull ==> s'.sawFull)
    ensures ProducerOk(cfg, s', v)
  {
  }

  lemma CallMove<T>(cfg: Config, s: State<T>, v: View, c: Choice<T>)
    requires Inv(cfg, s, v) && s.consumer.ConsumerIdle?
    ensures Inv(cfg, Step(cfg, s, ConsumerMove(c)), v)
  {
    var s' := Step(cfg, s, ConsumerMove(c));
    ReadsKeepMemory(cfg, s, s', v);
    ReadsKeepProducer(cfg, s, s', v);
  }

  lemma ReadOnlyMoves<T>(cfg: Config, s: State<T>, v: View, c: Choice<T>)
    requires At(cfg, s, v)
    requires s.consumer.at.LoadFrontBlock? || s.consumer.at.LoadFront? || s.consumer.at.ReloadFrontBlock?
             || s.consumer.at.DequeueReturn?
    ensures Inv(cfg, Step(cfg, s, ConsumerMove(c)), v)
  {
    var s' := Step(cfg, s, ConsumerMove(c));
    ReadsKeepMemory(cfg, s, s', v);
    ReadsKeepProducer(cfg, s, s', v);
  }

  lemma CompareTailMove<T>(cfg: Config, s: State<T>, v: View, c: Choice<T>)
    requires At(cfg, s, v) && s.consumer.at.CompareTailBlock?
    ensures Inv(cfg, Step(cfg, s, ConsumerMove(c)), v)
  {
    var s' := Step(cfg, s, ConsumerMove(c));
    ReadsKeepMemory(cfg, s, s', v);
    ReadsKeepProducer(cfg, s, s', v);
  }

  // The consumer refreshes its shadow in block k.
  lemma ReloadedTail<T>(cfg: Config, s: State<T>, s': State<T>, v: View, k: nat)
    requires Memory(cfg, s, v) && ProducerOk(cfg, s, v) && k <= v.t
    requires Replaces(s, s', v.ring[k], BlockAt(s, v, k).(localTail := BlockAt(s, v, k).tail))
    requires SameHistory(s, s') && s'.producer == s.producer && (s.sawFull ==> s'.sawFull)
    ensures Memory(cfg, s', v) && ProducerOk(cfg, s', v)
  {
    var b := BlockAt(s, v, k);
    RefreshMemory(cfg, s, s', v, k, b.localFront, b.tail);
    assert v.(lo := v.lo) == v;
    ProducerIgnores(cfg, s, s', v, v.lo, k, s'.blocks[v.ring[k]]);
  }

  lemma ShadowShowsElement<T>(cfg: Config, s: State<T>, v: View, c: Choice<T>)
    requires At(cfg, s, v) && s.consumer.at.CheckElement? && s.consumer.at.bf != s.consumer.at.bt
    ensures Inv(cfg, Step(cfg, s, ConsumerMove(c)), v)
  {
    var s' := Step(cfg, s, ConsumerMove(c));
    ReadsKeepMemory(cfg, s, s', v);
    ReadsKeepProducer(cfg, s, s', v);
  }

  lemma CheckElementMove<T>(cfg: Config, s: State<T>, v: View, c: Choice<T>)
    requires At(cfg, s, v) && s.consumer.at.CheckElement? && s.consumer.at.bf == s.consumer.at.bt
    ensures Inv(cfg, Step(cfg, s, ConsumerMove(c)), v)
  {
    var s' := Step(cfg, s, ConsumerMove(c));
    ReloadedTail(cfg, s, s', v, 0);
    assert ConsumerOk(s', v) by { CheckedElement(cfg, s, s', v); }
  }

  // An empty front block that is also the tail block: the queue is empty now.
  lemma CheckedElement<T>(cfg: Config, s: State<T>, s': State<T>, v: View)
    requires Memory(cfg, s, v) && RingOk(s', v) && ConsumerOk(s, v)
    requires s.consumer.Dequeuing? && s.consumer.at.CheckElement? && s.consumer.at.bf == s.consumer.at.bt
    requires s'.consumer == DequeueStep(s).consumer && s'.blocks == DequeueStep(s).blocks && s'.frontBlock == s.frontBlock
    requires s'.sawEmpty == (s.sawEmpty || |s.enqueued| <= |s.dequeued|)
    ensures ConsumerOk(s', v)
  {
    ShapeAt(cfg, s, v, 0);
  }

  lemma ReloadTailMove<T>(cfg: Config, s: State<T>, v: View, c: Choice<T>)
    requires At(cfg, s, v) && s.consumer.at.ReloadTail?
    ensures Inv(cfg, Step(cfg, s, ConsumerMove(c)), v)
  {
    ReloadedTail(cfg, s, Step(cfg, s, ConsumerMove(c)), v, 0);
  }

  lemma ReloadFrontMove<T>(cfg: Config, s: State<T>, v: View, c: Choice<T>)
    requires At(cfg, s, v) && s.consumer.at.ReloadFront?
    ensures Inv(cfg, Step(cfg, s, ConsumerMove(c)), v)
  {
    var s' := Step(cfg, s, ConsumerMove(c));
    assert OnlyReads(s, s');
    ReadsKeepMemory(cfg, s, s', v);
    assert ProducerOk(cfg, s', v) by { ReadsKeepProducer(cfg, s, s', v); }
    assert ConsumerOk(s', v) by { ReloadedFront(s, s', v); }
  }

  lemma ReloadedFront<T>(s: State<T>, s': State<T>, v: View)
    requires RingOk(s, v) && RingOk(s', v) && ConsumerOk(s, v) && s.consumer.Dequeuing? && s.consumer.at.ReloadFront?
    requires s'.consumer == DequeueStep(s).consumer && s'.blocks == s.blocks && s'.frontBlock == s.frontBlock
    ensures ConsumerOk(s', v)
  {
  }

  lemma LoadNextMoves<T>(cfg: Config, s: State<T>, v: View, c: Choice<T>)
    requires At(cfg, s, v) && (s.consumer.at.LoadNextBlock? || s.consumer.at.LoadFrontOfNext?)
    ensures Inv(cfg, Step(cfg, s, ConsumerMove(c)), v)
  {
    var s' := Step(cfg, s, ConsumerMove(c));
    ReadsKeepMemory(cfg, s, s', v);
    ReadsKeepProducer(cfg, s, s', v);
    assert LinkedAt(s, v, 0);
  }

  // When the tail block is further on, the block after the front block is not
  // empty: assert(nextBlockFront != nextBlockTail).
  lemma NextHasElement<T>(cfg: Config, s: State<T>, v: View)
    requires Memory(cfg, s, v) && v.t > 0
    ensures BlockAt(s, v, 1).front != BlockAt(s, v, 1).tail && CountAt(s, v, 1) > 0
  {
    ShapeAt(cfg, s, v, 1);
    if v.t > 1 { assert JoinedAt(s, v, 1); }
  }

  // The element at the front of block k, when it begins the queue.
  lemma FrontElement<T>(cfg: Config, s: State<T>, v: View, k: nat)
    requires Memory(cfg, s, v) && k <= v.t && v.lo[v.ring[k]] == |s.dequeued| && CountAt(s, v, k) > 0
    requires !Holds(s, v.ring[k])
    ensures Has(s, v.ring[k], BlockAt(s, v, k).front) && |s.dequeued| < |s.enqueued|
    ensures BlockAt(s, v, k).data[BlockAt(s, v, k).front] == Live(s.enqueued[|s.dequeued|])
  {
    var b := BlockAt(s, v, k);
    assert BlockOkAt(s, v, k);
    MoveElementOut(b, v.lo[v.ring[k]], Log(s), WrittenTo(s, v.ring[k]));
    if k < v.t { StartsInLog(cfg, s, v, k + 1); assert JoinedAt(s, v, k); }
  }

  // The contents of the blocks up to the tail block lie in the log.
  lemma {:induction false} StartsInLog<T>(cfg: Config, s: State<T>, v: View, k: nat)
    requires Memory(cfg, s, v) && k <= v.t
    ensures v.lo[v.ring[k]] <= |s.enqueued|
    decreases v.t - k
  {
    ShapeAt(cfg, s, v, k);
    if k < v.t {
      StartsInLog(cfg, s, v, k + 1);
      assert JoinedAt(s, v, k);
    }
  }

  lemma PeekNext<T>(cfg: Config, s: State<T>, v: View, c: Choice<T>)
    requires At(cfg, s, v) && s.consumer.at.LoadTailOfNext? && s.consumer.op.Peek?
    ensures Inv(cfg, Step(cfg, s, ConsumerMove(c)), v)
  {
    var s' := Step(cfg, s, ConsumerMove(c));
    NextHasElement(cfg, s, v);
    assert JoinedAt(s, v, 0);
    FrontElement(cfg, s, v, 1);
    ReadsKeepMemory(cfg, s, s', v);
    ReadsKeepProducer(cfg, s, s', v);
  }

  lemma LoadTailOfNextMove<T>(cfg: Config, s: State<T>, v: View, c: Choice<T>)
    requires At(cfg, s, v) && s.consumer.at.LoadTailOfNext? && !s.consumer.op.Peek?
    ensures Inv(cfg, Step(cfg, s, ConsumerMove(c)), v)
  {
    NextHasElement(cfg, s, v);
    ReloadedTail(cfg, s, Step(cfg, s, ConsumerMove(c)), v, 1);
  }

  lemma PeekFront<T>(cfg: Config, s: State<T>, v: View, c: Choice<T>)
    requires At(cfg, s, v) && s.consumer.at.TakeElement? && s.consumer.op.Peek?
    ensures Inv(cfg, Step(cfg, s, ConsumerMove(c)), v)
  {
    var s' := Step(cfg, s, ConsumerMove(c));
    ShapeAt(cfg, s, v, 0);
    FrontElement(cfg, s, v, 0);
    ReadsKeepMemory(cfg, s, s', v);
    ReadsKeepProducer(cfg, s, s', v);
  }

  lemma TakeMove<T>(cfg: Config, s: State<T>, v: View, c: Choice<T>)
    requires At(cfg, s, v) && s.consumer.at.TakeElement? && !s.consumer.op.Peek?
    ensures Inv(cfg, Step(cfg, s, ConsumerMove(c)), v)
  {
    var s' := Step(cfg, s, ConsumerMove(c));
    ShapeAt(cfg, s, v, 0);
    FrontElement(cfg, s, v, 0);
    TakeMemory(cfg, s, s', v);
    assert v.(lo := v.lo) == v;
    ProducerIgnores(cfg, s, s', v, v.lo, 0, s'.blocks[s.frontBlock]);
  }

  lemma TakeMemory<T>(cfg: Config, s: State<T>, s': State<T>, v: View)
    requires Memory(cfg, s, v) && CountAt(s, v, 0) > 0 && Has(s, s.frontBlock, BlockAt(s, v, 0).front)
    requires Replaces(s, s', s.frontBlock, WriteSlot(BlockAt(s, v, 0), BlockAt(s, v, 0).front, Raw))
    requires s'.enqueued == s.enqueued && s'.dequeued == s.dequeued && s'.producer == s.producer
    requires forall b: BlockId :: !Holds(s, b)
    requires forall b: BlockId :: Holds(s', b) <==> b == s.frontBlock
    ensures Memory(cfg, s', v)
  {
    assert BlockOkAt(s, v, 0);
    MoveElementOut(BlockAt(s, v, 0), v.lo[s.frontBlock], Log(s), WrittenTo(s, s.frontBlock));
    assert BlockOkAt(s', v, 0);
    QuietWrite(cfg, s, s', v, 0);
  }

  lemma StoreFrontMove<T>(cfg: Config, s: State<T>, v: View, c: Choice<T>)
    requires At(cfg, s, v) && s.consumer.at.StoreFront?
    ensures Inv(cfg, Step(cfg, s, ConsumerMove(c)), v.(lo := v.lo[s.frontBlock := |s.dequeued| + 1]))
  {
    var s' := Step(cfg, s, ConsumerMove(c));
    var v' := v.(lo := v.lo[s.frontBlock := |s.dequeued| + 1]);
    ReleaseMemory(cfg, s, s', v);
    ProducerIgnores(cfg, s, s', v, v'.lo, 0, s'.blocks[s.frontBlock]);
  }

  lemma ReleaseMemory<T>(cfg: Config, s: State<T>, s': State<T>, v: View)
    requires Memory(cfg, s, v) && BlockAt(s, v, 0).localTail != BlockAt(s, v, 0).front
    requires |s.dequeued| < |s.enqueued| && s'.dequeued == s.dequeued + [s.enqueued[|s.dequeued|]]
    requires s'.enqueued == s.enqueued && s'.producer == s.producer
    requires Replaces(s, s', s.frontBlock, BlockAt(s, v, 0).(front := Succ(BlockAt(s, v, 0).front, BlockAt(s, v, 0).size)))
    requires forall b: BlockId :: Holds(s, b) <==> b == s.frontBlock
    requires forall b: BlockId :: !Holds(s', b)
    ensures Memory(cfg, s', v.(lo := v.lo[s.frontBlock := |s.dequeued| + 1]))
  {
    var v' := v.(lo := v.lo[s.frontBlock := |s.dequeued| + 1]);
    assert BlockOkAt(s, v, 0);
    ReleaseElement(BlockAt(s, v, 0), v.lo[s.frontBlock], Log(s), WrittenTo(s, s.frontBlock));
    LinksKept(cfg, s, s', v, v'.lo);
    assert BlockOkAt(s', v', 0);
    OthersKept(s, s', v, v', 0);
    ReleaseChain(s, s', v);
  }

  lemma ReleaseChain<T>(s: State<T>, s': State<T>, v: View)
    requires RingOk(s, v) && ChainOk(s, v) && RingOk(s', v.(lo := v.lo[s.frontBlock := |s.dequeued| + 1]))
    requires Replaces(s, s', s.frontBlock, s'.blocks[s.frontBlock]) && CountAt(s', v, 0) == CountAt(s, v, 0) - 1
    requires s'.enqueued == s.enqueued && |s'.dequeued| == |s.dequeued| + 1 && Unpublished(s') == Unpublished(s)
    ensures ChainOk(s', v.(lo := v.lo[s.frontBlock := |s.dequeued| + 1]))
  {
    var v' := v.(lo := v.lo[s.frontBlock := |s.dequeued| + 1]);
    forall i | 0 <= i < v.t ensures JoinedAt(s', v', i) { assert JoinedAt(s, v, i); }
    forall i | v.t < i < |v.ring| ensures VacantAt(s', v', i) { assert VacantAt(s, v, i); }
  }

  // The front block moves to the next block; the old one is now last.
  ghost function Rotated(v: View): View
    requires 0 < v.t < |v.ring|
  {
    v.(ring := v.ring[1..] + [v.ring[0]], t := v.t - 1)
  }

  lemma RotatedIds(v: View, i: nat)
    requires 0 < v.t < |v.ring| && i < |v.ring|
    ensures |Rotated(v).ring| == |v.ring|
    ensures Rotated(v).ring[i] == if i + 1 < |v.ring| then v.ring[i + 1] else v.ring[0]
  {
  }

  lemma RotatedRing<T>(cfg: Config, s: State<T>, s': State<T>, v: View)
    requires RingOk(s, v) && CapacityOk(cfg, s, v) && v.t > 0
    requires s'.blocks == s.blocks && s'.frontBlock == v.ring[1] && s'.tailBlock == s.tailBlock && s'.largest == s.largest
    ensures RingOk(s', Rotated(v)) && CapacityOk(cfg, s', Rotated(v))
  {
    var v' := Rotated(v);
    var n := |v.ring|;
    forall i | 0 <= i < n ensures v'.ring[i] < |s'.blocks| { RotatedIds(v, i); }
    forall i, j | 0 <= i < j < n ensures v'.ring[i] != v'.ring[j] { RotatedIds(v, i); RotatedIds(v, j); }
    RotatedIds(v, 0);
    RotatedIds(v, v'.t);
    forall i | 0 <= i < n ensures LinkedAt(s', v', i) {
      RotatedIds(v, i);
      RotatedIds(v, NextIndex(i, n));
      assert LinkedAt(s, v, NextIndex(i, n));
    }
    forall i | 0 <= i < n ensures BigAt(s', v', i) { RotatedIds(v, i); assert BigAt(s, v, NextIndex(i, n)); }
  }

  lemma RotatedContents<T>(s: State<T>, s': State<T>, v: View)
    requires RingOk(s, v) && v.t > 0 && RingOk(s', Rotated(v)) && ContentsOk(s, v)
    requires s'.blocks == s.blocks && Log(s') == Log(s)
    requires forall b: BlockId :: Holds(s', b) == Holds(s, b)
    requires forall b: BlockId :: WrittenTo(s', b) == WrittenTo(s, b)
    ensures ContentsOk(s', Rotated(v))
  {
    var v' := Rotated(v);
    forall i | 0 <= i < |v.ring| ensures BlockOkAt(s', v', i) {
      RotatedIds(v, i);
      assert BlockOkAt(s, v, NextIndex(i, |v.ring|));
    }
  }

  lemma RotatedChain<T>(s: State<T>, s': State<T>, v: View)
    requires RingOk(s, v) && v.t > 0 && RingOk(s', Rotated(v)) && ChainOk(s, v)
    requires CountAt(s, v, 0) == 0 && s'.blocks == s.blocks
    requires s'.enqueued == s.enqueued && s'.dequeued == s.dequeued && Unpublished(s') == Unpublished(s)
    requires 0 <= Unpublished(s)
    ensures ChainOk(s', Rotated(v))
  {
    var v' := Rotated(v);
    var n := |v.ring|;
    RotatedIds(v, 0);
    RotatedIds(v, v'.t);
    assert JoinedAt(s, v, 0);
    if v.t + 1 < n { RotatedIds(v, v.t); }
    forall i | 0 <= i < v'.t ensures JoinedAt(s', v', i) {
      RotatedIds(v, i);
      RotatedIds(v, i + 1);
      assert JoinedAt(s, v, i + 1);
    }
    forall i | v'.t < i < n ensures VacantAt(s', v', i) {
      RotatedIds(v, i);
      if i + 1 < n { assert VacantAt(s, v, i + 1); }
    }
  }

  lemma RotatedSeen<T>(s: State<T>, s': State<T>, v: View)
    requires RingOk(s, v) && v.t > 0 && RingOk(s', Rotated(v)) && s'.blocks == s.blocks
    requires s'.producer == s.producer && s'.enqueued == s.enqueued && s'.tailBlock == s.tailBlock
    requires s.sawFull ==> s'.sawFull
    ensures SeenByProducer(s, s', v, Rotated(v))
  {
    RotatedIds(v, v.t - 1);
    RotatedIds(v, v.t);
  }

  lemma AdvanceFrontMove<T>(cfg: Config, s: State<T>, v: View, c: Choice<T>)
    requires At(cfg, s, v) && s.consumer.at.AdvanceFrontBlock?
    ensures Inv(cfg, Step(cfg, s, ConsumerMove(c)), Rotated(v))
  {
    var s' := Step(cfg, s, ConsumerMove(c));
    RotatedRing(cfg, s, s', v);
    RotatedContents(s, s', v);
    RotatedChain(s, s', v);
    RotatedSeen(s, s', v);
    ProducerKept(cfg, s, s', v, Rotated(v));
    RotatedIds(v, 0);
  }

  lemma ConsumerKeepsInv<T>(cfg: Config, s: State<T>, v: View, c: Choice<T>) returns (v': View)
    requires Inv(cfg, s, v)
    ensures Inv(cfg, Step(cfg, s, ConsumerMove(c)), v')
  {
    v' := v;
    if s.consumer.ConsumerIdle? {
      CallMove(cfg, s, v, c);
      return;
    }
    match s.consumer.at
    case LoadFrontBlock => ReadOnlyMoves(cfg, s, v, c);
    case LoadFront(_) => ReadOnlyMoves(cfg, s, v, c);
    case CheckElement(_, bf, bt) => if bf == bt { CheckElementMove(cfg, s, v, c); } else { ShadowShowsElement(cfg, s, v, c); }
    case TakeElement(_, _) => if s.consumer.op.Peek? { PeekFront(cfg, s, v, c); } else { TakeMove(cfg, s, v, c); }
    case StoreFront(_, _, _) => StoreFrontMove(cfg, s, v, c); v' := v.(lo := v.lo[s.frontBlock := |s.dequeued| + 1]);
    case CompareTailBlock(_) => CompareTailMove(cfg, s, v, c);
    case ReloadFrontBlock => ReadOnlyMoves(cfg, s, v, c);
    case ReloadTail(_) => ReloadTailMove(cfg, s, v, c);
    case ReloadFront(_, _) => ReloadFrontMove(cfg, s, v, c);
    case LoadNextBlock(_) => LoadNextMoves(cfg, s, v, c);
    case LoadFrontOfNext(_, _) => LoadNextMoves(cfg, s, v, c);
    case LoadTailOfNext(_, _, _) =>
      if s.consumer.op.Peek? { PeekNext(cfg, s, v, c); } else { LoadTailOfNextMove(cfg, s, v, c); }
    case AdvanceFrontBlock(_, _) => AdvanceFrontMove(cfg, s, v, c); v' := Rotated(v);
    case DequeueReturn(_) => ReadOnlyMoves(cfg, s, v, c);
  }
}
