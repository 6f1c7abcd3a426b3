// Every move of the producer keeps the invariant.
module SpscProducer {
  import opened Arithmetic
  import opened SpscQueue
  import opened SpscInvariant
  import opened SpscBlocks

  ghost predicate At<T>(cfg: Config, s: State<T>, v: View) {
    Inv(cfg, s, v) && s.producer.Enqueuing?
  }

  lemma ReadOnlyMoves<T>(cfg: Config, s: State<T>, v: View, c: Choice<T>)
    requires At(cfg, s, v)
    requires s.producer.at.LoadTailBlock? || s.producer.at.LoadTail? || s.producer.at.EnqueueReturn?
    ensures Inv(cfg, Step(cfg, s, ProducerMove(c)), v)
  {
    var s' := Step(cfg, s, ProducerMove(c));
    ReadsKeepMemory(cfg, s, s', v);
    ReadsKeepConsumer(s, s', v);
  }

  lemma CallMove<T>(cfg: Config, s: State<T>, v: View, c: Choice<T>)
    requires Inv(cfg, s, v) && s.producer.ProducerIdle?
    ensures Inv(cfg, Step(cfg, s, ProducerMove(c)), v)
  {
    var s' := Step(cfg, s, ProducerMove(c));
    ReadsKeepMemory(cfg, s, s', v);
    ReadsKeepConsumer(s, s', v);
  }

  lemma LoadNextMoves<T>(cfg: Config, s: State<T>, v: View, c: Choice<T>)
    requires At(cfg, s, v) && (s.producer.at.LoadNext? || s.producer.at.ReloadNext?)
    ensures Inv(cfg, Step(cfg, s, ProducerMove(c)), v)
  {
    var s' := Step(cfg, s, ProducerMove(c));
    ReadsKeepMemory(cfg, s, s', v);
    ReadsKeepConsumer(s, s', v);
    assert LinkedAt(s, v, v.t);
  }

  lemma CompareFrontMove<T>(cfg: Config, s: State<T>, v: View, c: Choice<T>)
    requires At(cfg, s, v) && s.producer.at.CompareFrontBlock?
    ensures Inv(cfg, Step(cfg, s, ProducerMove(c)), v)
  {
    var s' := Step(cfg, s, ProducerMove(c));
    assert OnlyReads(s, s');
    ReadsKeepMemory(cfg, s, s', v);
    assert ConsumerOk(s', v) by { ReadsKeepConsumer(s, s', v); }
    NextIsFront(s, v);
  }

  // The block after the tail block is the front block exactly when the list
  // has no block to spare.
  lemma NextIsFront<T>(s: State<T>, v: View)
    requires RingOk(s, v)
    ensures BlockAt(s, v, v.t).next == To(s.frontBlock) <==> v.t == |v.ring| - 1
  {
    assert LinkedAt(s, v, v.t);
  }

  // With every block from the front to the tail block in use and the tail
  // block full, the queue holds what the constructor promised.
  lemma FullRing<T>(cfg: Config, s: State<T>, v: View)
    requires RingOk(s, v) && ChainOk(s, v) && CapacityOk(cfg, s, v)
    requires v.t == |v.ring| - 1 && CountAt(s, v, v.t) == BlockAt(s, v, v.t).size - 1
    requires 0 <= CountAt(s, v, 0)
    ensures |s.enqueued| >= |s.dequeued| + cfg.maxSize
  {
    assert BigAt(s, v, v.t);
    if v.t == 0 {
      assert cfg.maxSize <= 1 * (v.blockSize - 1);
    } else {
      InnerBlocksFull(cfg, s, v, v.t);
      assert JoinedAt(s, v, 0);
      var room := v.blockSize - 1;
      assert v.t * room == (v.t - 1) * room + room;
      var k := if v.blockCount == 1 then 1 else v.blockCount - 1;
      assert k * room <= v.t * room by { MulMonotone(k, v.t, room); }
    }
  }

  lemma {:induction false} InnerBlocksFull<T>(cfg: Config, s: State<T>, v: View, i: nat)
    requires RingOk(s, v) && ChainOk(s, v) && CapacityOk(cfg, s, v) && 1 <= i <= v.t
    ensures v.lo[v.ring[i]] >= v.lo[v.ring[1]] + (i - 1) * (v.blockSize - 1)
  {
    if i > 1 {
      InnerBlocksFull(cfg, s, v, i - 1);
      assert JoinedAt(s, v, i - 1) && BigAt(s, v, i - 1);
      assert (i - 1) * (v.blockSize - 1) == (i - 2) * (v.blockSize - 1) + (v.blockSize - 1);
    }
  }

  // The shadow shows room, so no shared read is needed.
  lemma ShadowShowsRoom<T>(cfg: Config, s: State<T>, v: View, c: Choice<T>)
    requires At(cfg, s, v) && s.producer.at.CheckRoom?
    requires Succ(s.producer.at.bt, BlockAt(s, v, v.t).size) != s.producer.at.bf
    ensures Inv(cfg, Step(cfg, s, ProducerMove(c)), v)
  {
    var s' := Step(cfg, s, ProducerMove(c));
    var b := BlockAt(s, v, v.t);
    ShapeAt(cfg, s, v, v.t);
    SuccIs(b.tail, b.size);
    ReadsKeepMemory(cfg, s, s', v);
    ReadsKeepConsumer(s, s', v);
  }

  lemma FrontIsReloaded<T>(cfg: Config, s: State<T>, s': State<T>, v: View)
    requires At(cfg, s, v) && s.producer.at.CheckRoom?
    requires Replaces(s, s', s.tailBlock, BlockAt(s, v, v.t).(localFront := BlockAt(s, v, v.t).front))
    requires SameHistory(s, s') && s'.consumer == s.consumer && (s.sawEmpty ==> s'.sawEmpty)
    requires forall b: BlockId :: WrittenTo(s', b) == WrittenTo(s, b)
    ensures Memory(cfg, s', v) && ConsumerOk(s', v)
  {
    var b := BlockAt(s, v, v.t);
    RefreshMemory(cfg, s, s', v, v.t, b.front, b.localTail);
    ConsumerIgnores(s, s', v, v, v.t, b.(localFront := b.front));
  }

  lemma FrontShowsRoom<T>(cfg: Config, s: State<T>, v: View, c: Choice<T>)
    requires At(cfg, s, v) && s.producer.at.CheckRoom?
    requires Succ(s.producer.at.bt, BlockAt(s, v, v.t).size) == s.producer.at.bf != BlockAt(s, v, v.t).front
    ensures Inv(cfg, Step(cfg, s, ProducerMove(c)), v)
  {
    ShapeAt(cfg, s, v, v.t);
    SuccIs(BlockAt(s, v, v.t).tail, BlockAt(s, v, v.t).size);
    FrontIsReloaded(cfg, s, Step(cfg, s, ProducerMove(c)), v);
  }

  lemma TailBlockIsFull<T>(cfg: Config, s: State<T>, v: View, c: Choice<T>)
    requires At(cfg, s, v) && s.producer.at.CheckRoom?
    requires Succ(s.producer.at.bt, BlockAt(s, v, v.t).size) == s.producer.at.bf == BlockAt(s, v, v.t).front
    ensures Inv(cfg, Step(cfg, s, ProducerMove(c)), v)
  {
    var s' := Step(cfg, s, ProducerMove(c));
    ShapeAt(cfg, s, v, v.t);
    SuccIs(BlockAt(s, v, v.t).tail, BlockAt(s, v, v.t).size);
    FrontIsReloaded(cfg, s, s', v);
    SawFull(cfg, s, s', v);
  }

  lemma SawFull<T>(cfg: Config, s: State<T>, s': State<T>, v: View)
    requires Memory(cfg, s, v) && CountAt(s, v, v.t) == BlockAt(s, v, v.t).size - 1
    requires s'.sawFull == (s.sawFull || |s.enqueued| >= |s.dequeued| + cfg.maxSize)
    ensures v.t == |v.ring| - 1 ==> s'.sawFull
  {
    if v.t == |v.ring| - 1 {
      ShapeAt(cfg, s, v, 0);
      FullRing(cfg, s, v);
    }
  }

  // The producer builds its element past the tail of block k.
  lemma BuildMemory<T>(cfg: Config, s: State<T>, s': State<T>, v: View, k: nat)
    requires Memory(cfg, s, v) && k < |v.ring| && s.producer.Enqueuing?
    requires CountAt(s, v, k) < BlockAt(s, v, k).size - 1 && BlockAt(s, v, k).tail < |BlockAt(s, v, k).data|
    requires Replaces(s, s', v.ring[k], WriteSlot(BlockAt(s, v, k), BlockAt(s, v, k).tail, Live(s.producer.x)))
    requires SameHistory(s, s')
    requires forall b: BlockId :: WrittenTo(s, b) == Nothing
    requires forall b: BlockId :: WrittenTo(s', b) == if b == v.ring[k] then Got(s.producer.x) else Nothing
    ensures Memory(cfg, s', v)
  {
    assert BlockOkAt(s, v, k);
    BuildElement(BlockAt(s, v, k), v.lo[v.ring[k]], Log(s), Holds(s, v.ring[k]), s.producer.x);
    assert BlockOkAt(s', v, k);
    QuietWrite(cfg, s, s', v, k);
  }

  lemma RawPastTail<T>(cfg: Config, s: State<T>, v: View, k: nat)
    requires Memory(cfg, s, v) && k < |v.ring| && s.producer.Enqueuing?
    requires CountAt(s, v, k) < BlockAt(s, v, k).size - 1
    requires WrittenTo(s, v.ring[k]) == Nothing
    ensures Has(s, v.ring[k], BlockAt(s, v, k).tail) && BlockAt(s, v, k).data[BlockAt(s, v, k).tail].Raw?
  {
    assert BlockOkAt(s, v, k);
    BuildElement(BlockAt(s, v, k), v.lo[v.ring[k]], Log(s), Holds(s, v.ring[k]), s.producer.x);
  }

  lemma WriteElementMove<T>(cfg: Config, s: State<T>, v: View, c: Choice<T>)
    requires At(cfg, s, v) && s.producer.at.WriteElement?
    ensures Inv(cfg, Step(cfg, s, ProducerMove(c)), v)
  {
    var s' := Step(cfg, s, ProducerMove(c));
    ShapeAt(cfg, s, v, v.t);
    RawPastTail(cfg, s, v, v.t);
    BuildMemory(cfg, s, s', v, v.t);
    ConsumerIgnores(s, s', v, v, v.t, s'.blocks[s.tailBlock]);
  }

  // The producer moves the tail of block k past the element it built there;
  // lo' is where that block's contents begin.
  lemma PublishContents<T>(cfg: Config, s: State<T>, s': State<T>, v: View, k: nat, lo': seq<nat>)
    requires Memory(cfg, s, v) && k < |v.ring| && Wrote(s, v.ring[k])
    requires Replaces(s, s', v.ring[k], BlockAt(s, v, k).(tail := Succ(BlockAt(s, v, k).tail, BlockAt(s, v, k).size)))
    requires |lo'| == |v.lo| && (forall b :: 0 <= b < |v.lo| && b != v.ring[k] ==> lo'[b] == v.lo[b])
    requires CountAt(s, v, k) == 0 || lo'[v.ring[k]] == v.lo[v.ring[k]]
    requires lo'[v.ring[k]] + CountAt(s, v, k) == |Log(s)|
    requires Log(s') == Log(s) + [s.producer.x]
    requires Ahead(BlockAt(s, v, k).tail, BlockAt(s, v, k).localFront, BlockAt(s, v, k).size) < BlockAt(s, v, k).size - 1
    requires forall b: BlockId :: Holds(s', b) == Holds(s, b)
    requires forall b: BlockId :: WrittenTo(s', b) == Nothing
    requires forall b: BlockId :: b != v.ring[k] ==> WrittenTo(s, b) == Nothing
    ensures RingOk(s', v.(lo := lo')) && CapacityOk(cfg, s', v.(lo := lo')) && ContentsOk(s', v.(lo := lo'))
    ensures Count(s'.blocks[v.ring[k]]) == CountAt(s, v, k) + 1
  {
    var v' := v.(lo := lo');
    var id := v.ring[k];
    assert BlockOkAt(s, v, k);
    StartMayMove(BlockAt(s, v, k), v.lo[id], lo'[id], Log(s), Holds(s, id), Got(s.producer.x));
    PublishElement(BlockAt(s, v, k), lo'[id], Log(s), Holds(s, id), s.producer.x);
    LinksKept(cfg, s, s', v, lo');
    assert BlockOkAt(s', v', k);
    OthersKept(s, s', v, v', k);
  }

  // Where an empty block's contents begin does not matter.
  lemma StartMayMove<T>(b: Block<T>, lo: nat, lo': nat, log: seq<T>, held: bool, written: Taken<T>)
    requires BlockOk(b, lo, log, held, written) && (Count(b) == 0 || lo' == lo) && lo' + Count(b) <= |log|
    ensures BlockOk(b, lo', log, held, written)
  {
    forall j | 0 <= j < b.size ensures b.data[j] == SlotSpec(b, lo', log, held, written, j) {
      assert b.data[j] == SlotSpec(b, lo, log, held, written, j);
    }
  }

  lemma StoreTailMove<T>(cfg: Config, s: State<T>, v: View, c: Choice<T>)
    requires At(cfg, s, v) && s.producer.at.StoreTail?
    ensures Inv(cfg, Step(cfg, s, ProducerMove(c)), v)
  {
    var s' := Step(cfg, s, ProducerMove(c));
    PublishContents(cfg, s, s', v, v.t, v.lo);
    assert v.(lo := v.lo) == v;
    StoreTailChain(s, s', v);
    ConsumerIgnores(s, s', v, v, v.t, s'.blocks[s.tailBlock]);
  }

  lemma StoreTailChain<T>(s: State<T>, s': State<T>, v: View)
    requires RingOk(s, v) && ChainOk(s, v) && RingOk(s', v)
    requires Replaces(s, s', s.tailBlock, s'.blocks[s.tailBlock])
    requires CountAt(s', v, v.t) == CountAt(s, v, v.t) + 1
    requires |s'.enqueued| == |s.enqueued| + 1 && s'.dequeued == s.dequeued && Unpublished(s') == Unpublished(s) == 0
    requires 0 <= CountAt(s, v, v.t)
    ensures ChainOk(s', v)
  {
    forall i | 0 <= i < v.t ensures JoinedAt(s', v, i) { assert JoinedAt(s, v, i); }
    forall i | v.t < i < |v.ring| ensures VacantAt(s', v, i) { assert VacantAt(s, v, i); }
  }

  lemma LoadNextFrontMove<T>(cfg: Config, s: State<T>, v: View, c: Choice<T>)
    requires At(cfg, s, v) && s.producer.at.LoadNextFront?
    ensures Inv(cfg, Step(cfg, s, ProducerMove(c)), v)
  {
    var s' := Step(cfg, s, ProducerMove(c));
    var b := BlockAt(s, v, v.t + 1);
    RefreshMemory(cfg, s, s', v, v.t + 1, b.front, b.localTail);
    ConsumerIgnores(s, s', v, v, v.t + 1, b.(localFront := b.front));
  }

  lemma LoadNextTailMove<T>(cfg: Config, s: State<T>, v: View, c: Choice<T>)
    requires At(cfg, s, v) && s.producer.at.LoadNextTail?
    ensures Inv(cfg, Step(cfg, s, ProducerMove(c)), v)
  {
    var s' := Step(cfg, s, ProducerMove(c));
    var b := BlockAt(s, v, v.t + 1);
    NextIsVacant(cfg, s, v);
    RefreshMemory(cfg, s, s', v, v.t + 1, b.localFront, b.localTail);
    ConsumerIgnores(s, s', v, v, v.t + 1, b);
  }

  // The block after the tail block is empty: assert(nextBlockFront == nextBlockTail).
  lemma NextIsVacant<T>(cfg: Config, s: State<T>, v: View)
    requires Memory(cfg, s, v) && v.t + 1 < |v.ring| && Unpublished(s) == 0
    ensures BlockAt(s, v, v.t + 1).tail == BlockAt(s, v, v.t + 1).front
  {
    ShapeAt(cfg, s, v, v.t + 1);
    assert VacantAt(s, v, v.t + 1);
  }

  lemma WriteNextElementMove<T>(cfg: Config, s: State<T>, v: View, c: Choice<T>)
    requires At(cfg, s, v) && s.producer.at.WriteNextElement?
    ensures Inv(cfg, Step(cfg, s, ProducerMove(c)), v)
  {
    var s' := Step(cfg, s, ProducerMove(c));
    ShapeAt(cfg, s, v, v.t + 1);
    RawPastTail(cfg, s, v, v.t + 1);
    BuildMemory(cfg, s, s', v, v.t + 1);
    ConsumerIgnores(s, s', v, v, v.t + 1, s'.blocks[v.ring[v.t + 1]]);
  }

  lemma StoreNextTailMove<T>(cfg: Config, s: State<T>, v: View, c: Choice<T>)
    requires At(cfg, s, v) && s.producer.at.StoreNextTail?
    ensures Inv(cfg, Step(cfg, s, ProducerMove(c)), v.(lo := v.lo[v.ring[v.t + 1] := |s.enqueued|]))
  {
    var s' := Step(cfg, s, ProducerMove(c));
    var id := v.ring[v.t + 1];
    var v' := v.(lo := v.lo[id := |s.enqueued|]);
    ShapeAt(cfg, s, v, v.t + 1);
    PublishContents(cfg, s, s', v, v.t + 1, v'.lo);
    StoreNextTailChain(s, s', v);
    ConsumerIgnores(s, s', v, v', v.t + 1, s'.blocks[id]);
  }

  lemma StoreNextTailChain<T>(s: State<T>, s': State<T>, v: View)
    requires RingOk(s, v) && ChainOk(s, v) && v.t + 1 < |v.ring|
    requires RingOk(s', v.(lo := v.lo[v.ring[v.t + 1] := |s.enqueued|]))
    requires Replaces(s, s', v.ring[v.t + 1], s'.blocks[v.ring[v.t + 1]])
    requires CountAt(s', v, v.t + 1) == 1
    requires s'.enqueued == s.enqueued && s'.dequeued == s.dequeued && Unpublished(s') == 1
    ensures ChainOk(s', v.(lo := v.lo[v.ring[v.t + 1] := |s.enqueued|]))
  {
    var v' := v.(lo := v.lo[v.ring[v.t + 1] := |s.enqueued|]);
    forall i | 0 <= i < v.t ensures JoinedAt(s', v', i) { assert JoinedAt(s, v, i); }
    forall i | v.t < i < |v.ring| ensures VacantAt(s', v', i) { assert VacantAt(s, v, i); }
  }

  lemma PublishMoves<T>(cfg: Config, s: State<T>, v: View, c: Choice<T>)
    requires At(cfg, s, v) && (s.producer.at.AdvanceTailBlock? || s.producer.at.PublishBlock?)
    ensures Inv(cfg, Step(cfg, s, ProducerMove(c)), v.(t := v.t + 1))
  {
    var s' := Step(cfg, s, ProducerMove(c));
    PublishTailMemory(cfg, s, s', v);
    ConsumerKept(s, s', v, v.(t := v.t + 1));
  }

  // The tail block moves on to the next block, which makes the element there
  // part of the queue.
  lemma PublishTailMemory<T>(cfg: Config, s: State<T>, s': State<T>, v: View)
    requires Memory(cfg, s, v) && v.t + 1 < |v.ring| && TailWasFull(s, v) && Unpublished(s) == 1 && Unpublished(s') == 0
    requires s'.blocks == s.blocks && s'.frontBlock == s.frontBlock && s'.tailBlock == v.ring[v.t + 1] && s'.largest == s.largest
    requires s'.dequeued == s.dequeued && s.enqueued <= s'.enqueued && Log(s') == Log(s)
    requires forall b: BlockId :: Holds(s', b) == Holds(s, b)
    requires forall b: BlockId :: WrittenTo(s', b) == WrittenTo(s, b)
    ensures Memory(cfg, s', v.(t := v.t + 1))
  {
    var v' := v.(t := v.t + 1);
    assert VacantAt(s, v, v.t + 1);
    forall i | 0 <= i < |v.ring| ensures LinkedAt(s', v', i) { assert LinkedAt(s, v, i); }
    forall i | 0 <= i < |v.ring| ensures BigAt(s', v', i) { assert BigAt(s, v, i); }
    forall i | 0 <= i < |v.ring| ensures BlockOkAt(s', v', i) { assert BlockOkAt(s, v, i); }
    forall i | 0 <= i < v'.t ensures JoinedAt(s', v', i) { if i < v.t { assert JoinedAt(s, v, i); } }
    forall i | v'.t < i < |v.ring| ensures VacantAt(s', v', i) { assert VacantAt(s, v, i); }
  }

  // Blocks outside the list may come and change without effect.
  lemma ListKept<T>(cfg: Config, s: State<T>, s': State<T>, v: View, lo': seq<nat>)
    requires Memory(cfg, s, v) && |s.blocks| <= |s'.blocks| == |lo'|
    requires forall i :: 0 <= i < |v.ring| ==> s'.blocks[v.ring[i]] == s.blocks[v.ring[i]] && lo'[v.ring[i]] == v.lo[v.ring[i]]
    requires s'.frontBlock == s.frontBlock && s'.tailBlock == s.tailBlock && s'.largest >= s.largest
    requires SameHistory(s, s') && (forall b: BlockId :: WrittenTo(s', b) == WrittenTo(s, b))
    ensures Memory(cfg, s', v.(lo := lo'))
  {
    var v' := v.(lo := lo');
    forall i | 0 <= i < |v.ring| ensures LinkedAt(s', v', i) { assert LinkedAt(s, v, i); }
    forall i | 0 <= i < |v.ring| ensures BigAt(s', v', i) { assert BigAt(s, v, i); }
    forall i | 0 <= i < |v.ring| ensures BlockOkAt(s', v', i) { assert BlockOkAt(s, v, i); }
    forall i | 0 <= i < v.t ensures JoinedAt(s', v', i) { assert JoinedAt(s, v, i); }
    forall i | v.t < i < |v.ring| ensures VacantAt(s', v', i) { assert VacantAt(s, v, i); }
  }

  lemma AllocateMove<T>(cfg: Config, s: State<T>, v: View, c: Choice<T>)
    requires At(cfg, s, v) && s.producer.at.AllocateBlock? && !c.OutOfMemory?
    ensures Inv(cfg, Step(cfg, s, ProducerMove(c)), v.(lo := v.lo + [|s.enqueued|]))
  {
    var s' := Step(cfg, s, ProducerMove(c));
    var v' := v.(lo := v.lo + [|s.enqueued|]);
    AllocatedList(cfg, s, s', v, c);
    assert ConsumerOk(s', v') by { ConsumerKept(s, s', v, v'); }
  }

  lemma AllocatedList<T>(cfg: Config, s: State<T>, s': State<T>, v: View, c: Choice<T>)
    requires At(cfg, s, v) && s.producer.at.AllocateBlock? && !c.OutOfMemory? && s' == Step(cfg, s, ProducerMove(c))
    ensures var v' := v.(lo := v.lo + [|s.enqueued|]); Memory(cfg, s', v') && ProducerOk(cfg, s', v')
  {
    var b := s'.blocks[|s.blocks|];
    assert s'.blocks == s.blocks + [b];
    AllocatedMemory(cfg, s, s', v, b);
  }

  lemma AllocatedMemory<T>(cfg: Config, s: State<T>, s': State<T>, v: View, b: Block<T>)
    requires Memory(cfg, s, v) && s'.blocks == s.blocks + [b]
    requires s'.frontBlock == s.frontBlock && s'.tailBlock == s.tailBlock && s'.largest >= s.largest
    requires SameHistory(s, s') && (forall b: BlockId :: WrittenTo(s', b) == WrittenTo(s, b))
    ensures Memory(cfg, s', v.(lo := v.lo + [|s.enqueued|]))
  {
    ListKept(cfg, s, s', v, v.lo + [|s.enqueued|]);
  }

  lemma AllocateFails<T>(cfg: Config, s: State<T>, v: View)
    requires At(cfg, s, v) && s.producer.at.AllocateBlock?
    ensures Inv(cfg, Step(cfg, s, ProducerMove(OutOfMemory)), v)
  {
    var s' := Step(cfg, s, ProducerMove(OutOfMemory));
    ReadsKeepMemory(cfg, s, s', v);
    ReadsKeepConsumer(s, s', v);
  }

  lemma LinkNewMove<T>(cfg: Config, s: State<T>, v: View, c: Choice<T>)
    requires At(cfg, s, v) && s.producer.at.LinkNewBlock?
    ensures Inv(cfg, Step(cfg, s, ProducerMove(c)), v)
  {
    var s' := Step(cfg, s, ProducerMove(c));
    ListKept(cfg, s, s', v, v.lo);
    assert v.(lo := v.lo) == v;
    ConsumerKept(s, s', v, v);
  }

  // The new block enters the list just after the tail block.
  ghost function Inserted(v: View, nb: BlockId): View
    requires v.t < |v.ring|
  {
    v.(ring := v.ring[..v.t + 1] + [nb] + v.ring[v.t + 1..])
  }

  lemma FreshBlockOk<T>(b: Block<T>, lo: nat, log: seq<T>, x: T)
    requires b.size >= 2 && b == WriteSlot(NewBlock(b.size), 0, Live(x)).(tail := 1, localTail := 1, next := b.next)
    requires lo + 1 == |log| && log[lo] == x
    ensures BlockOk(b, lo, log, false, Nothing) && Count(b) == 1
  {
  }

  lemma InsertedIds(v: View, nb: BlockId, i: nat)
    requires v.t < |v.ring| && i < |v.ring| + 1
    ensures |Inserted(v, nb).ring| == |v.ring| + 1
    ensures Inserted(v, nb).ring[i] == if i <= v.t then v.ring[i] else if i == v.t + 1 then nb else v.ring[i - 1]
  {
  }

  lemma InsertedLink<T>(s: State<T>, s': State<T>, v: View, nb: BlockId, i: nat)
    requires RingOk(s, v) && nb < |s.blocks| && nb !in v.ring && i <= |v.ring|
    requires s.blocks[nb].next == BlockAt(s, v, v.t).next
    requires s'.blocks == s.blocks[s.tailBlock := BlockAt(s, v, v.t).(next := To(nb))]
    requires Inserted(v, nb).ring[i] < |s'.blocks|
    ensures LinkedAt(s', Inserted(v, nb), i)
  {
    var v' := Inserted(v, nb);
    InsertedIds(v, nb, i);
    InsertedIds(v, nb, NextIndex(i, |v.ring| + 1));
    assert LinkedAt(s, v, v.t);
    if i < v.t { assert LinkedAt(s, v, i); } else if i > v.t + 1 { assert LinkedAt(s, v, i - 1); }
  }

  lemma InsertedRing<T>(cfg: Config, s: State<T>, s': State<T>, v: View, nb: BlockId)
    requires RingOk(s, v) && CapacityOk(cfg, s, v) && FreshBlock(s, v, nb)
    requires s.blocks[nb].next == BlockAt(s, v, v.t).next
    requires s'.blocks == s.blocks[s.tailBlock := BlockAt(s, v, v.t).(next := To(nb))]
    requires s'.frontBlock == s.frontBlock && s'.tailBlock == s.tailBlock && s'.largest == s.largest
    ensures RingOk(s', Inserted(v, nb)) && CapacityOk(cfg, s', Inserted(v, nb))
  {
    var v' := Inserted(v, nb);
    forall i | 0 <= i < |v'.ring| ensures v'.ring[i] < |s'.blocks| { InsertedIds(v, nb, i); }
    forall i, j | 0 <= i < j < |v'.ring| ensures v'.ring[i] != v'.ring[j] { InsertedIds(v, nb, i); InsertedIds(v, nb, j); }
    InsertedIds(v, nb, 0);
    InsertedIds(v, nb, v.t);
    forall i | 0 <= i < |v'.ring| ensures LinkedAt(s', v', i) { InsertedLink(s, s', v, nb, i); }
    forall i | 0 <= i < |v'.ring| ensures BigAt(s', v', i) {
      InsertedIds(v, nb, i);
      if i <= v.t { assert BigAt(s, v, i); } else if i > v.t + 1 { assert BigAt(s, v, i - 1); }
    }
  }

  lemma LinkTailMove<T>(cfg: Config, s: State<T>, v: View, c: Choice<T>)
    requires At(cfg, s, v) && s.producer.at.LinkTailBlock?
    ensures Inv(cfg, Step(cfg, s, ProducerMove(c)), Inserted(v, s.producer.at.nb))
  {
    var s' := Step(cfg, s, ProducerMove(c));
    var nb := s.producer.at.nb;
    var v' := Inserted(v, nb);
    InsertedRing(cfg, s, s', v, nb);
    LinkTailContents(s, s', v, nb);
    LinkTailChain(s, s', v, nb);
    LinkTailSeen(s, s', v, nb);
    ConsumerKept(s, s', v, v');
  }

  lemma LinkTailSeen<T>(s: State<T>, s': State<T>, v: View, nb: BlockId)
    requires RingOk(s, v) && RingOk(s', Inserted(v, nb))
    requires s'.blocks == s.blocks[s.tailBlock := BlockAt(s, v, v.t).(next := To(nb))]
    requires s'.consumer == s.consumer && s'.dequeued == s.dequeued && s.enqueued == s'.enqueued
    requires s'.frontBlock == s.frontBlock && (s.sawEmpty ==> s'.sawEmpty)
    ensures SeenByConsumer(s, s', v, Inserted(v, nb))
  {
    InsertedIds(v, nb, 0);
    if v.t > 0 { InsertedIds(v, nb, 1); }
  }

  lemma LinkTailContents<T>(s: State<T>, s': State<T>, v: View, nb: BlockId)
    requires RingOk(s, v) && ContentsOk(s, v) && FreshBlock(s, v, nb)
    requires s.producer.at.LinkTailBlock? && s'.producer == s.producer.(at := PublishBlock(nb)) && s'.consumer == s.consumer
    requires s'.enqueued == s.enqueued && s'.blocks == s.blocks[s.tailBlock := s.blocks[s.tailBlock].(next := To(nb))]
    requires ConsumerOk(s, v)
    requires RingOk(s', Inserted(v, nb))
    ensures ContentsOk(s', Inserted(v, nb))
  {
    var v' := Inserted(v, nb);
    forall i | 0 <= i < |v'.ring| ensures BlockOkAt(s', v', i) {
      InsertedIds(v, nb, i);
      if i == v.t + 1 {
        FreshBlockOk(s.blocks[nb], v.lo[nb], Log(s'), s.producer.x);
      } else {
        var k := if i <= v.t then i else i - 1;
        assert BlockOkAt(s, v, k);
        var id := v.ring[k];
        LogMayGrow(BlockAt(s, v, k), v.lo[id], Log(s), Log(s'), Holds(s, id), WrittenTo(s, id));
        NextIsNotContent(BlockAt(s, v, k), s'.blocks[id].next, v.lo[id], Log(s'), Holds(s, id));
      }
    }
  }

  lemma NextIsNotContent<T>(b: Block<T>, next: Ptr, lo: nat, log: seq<T>, held: bool)
    requires BlockOk(b, lo, log, held, Nothing)
    ensures BlockOk(b.(next := next), lo, log, held, Nothing)
  {
    var b' := b.(next := next);
    forall j | 0 <= j < b.size ensures b'.data[j] == SlotSpec(b', lo, log, held, Nothing, j) {
      assert b.data[j] == SlotSpec(b, lo, log, held, Nothing, j);
    }
  }

  lemma LinkTailChain<T>(s: State<T>, s': State<T>, v: View, nb: BlockId)
    requires RingOk(s, v) && ChainOk(s, v) && FreshBlock(s, v, nb)
    requires s.producer.at.LinkTailBlock? && s'.producer == s.producer.(at := PublishBlock(nb))
    requires s'.enqueued == s.enqueued && s'.dequeued == s.dequeued
    requires s'.blocks == s.blocks[s.tailBlock := s.blocks[s.tailBlock].(next := To(nb))]
    requires RingOk(s', Inserted(v, nb))
    ensures ChainOk(s', Inserted(v, nb))
  {
    var v' := Inserted(v, nb);
    InsertedIds(v, nb, 0);
    InsertedIds(v, nb, v.t);
    InsertedIds(v, nb, v.t + 1);
    forall i | 0 <= i < v.t ensures JoinedAt(s', v', i) {
      InsertedIds(v, nb, i);
      InsertedIds(v, nb, i + 1);
      assert JoinedAt(s, v, i);
    }
    forall i | v.t < i < |v'.ring| ensures VacantAt(s', v', i) {
      InsertedIds(v, nb, i);
      if i > v.t + 1 { assert VacantAt(s, v, i - 1); }
    }
  }

  lemma ProducerKeepsInv<T>(cfg: Config, s: State<T>, v: View, c: Choice<T>) returns (v': View)
    requires Inv(cfg, s, v)
    ensures Inv(cfg, Step(cfg, s, ProducerMove(c)), v')
  {
    v' := v;
    if s.producer.ProducerIdle? {
      CallMove(cfg, s, v, c);
      return;
    }
    match s.producer.at
    case LoadTailBlock => ReadOnlyMoves(cfg, s, v, c);
    case LoadTail(_) => ReadOnlyMoves(cfg, s, v, c);
    case CheckRoom(_, _, _) => 
      if Succ(s.producer.at.bt, BlockAt(s, v, v.t).size) != s.producer.at.bf {
        ShadowShowsRoom(cfg, s, v, c);
      } else if s.producer.at.bf != BlockAt(s, v, v.t).front {
        FrontShowsRoom(cfg, s, v, c);
      } else {
        TailBlockIsFull(cfg, s, v, c);
      }
    case WriteElement(_, _) => WriteElementMove(cfg, s, v, c);
    case StoreTail(_, _) => StoreTailMove(cfg, s, v, c);
    case LoadNext(_) => LoadNextMoves(cfg, s, v, c);
    case CompareFrontBlock(_, _) => CompareFrontMove(cfg, s, v, c);
    case ReloadNext(_) => LoadNextMoves(cfg, s, v, c);
    case LoadNextFront(_, _) => LoadNextFrontMove(cfg, s, v, c);
    case LoadNextTail(_, _, _) => LoadNextTailMove(cfg, s, v, c);
    case WriteNextElement(_, _) => WriteNextElementMove(cfg, s, v, c);
    case StoreNextTail(_, _) => StoreNextTailMove(cfg, s, v, c); v' := v.(lo := v.lo[v.ring[v.t + 1] := |s.enqueued|]);
    case AdvanceTailBlock(_) => PublishMoves(cfg, s, v, c); v' := v.(t := v.t + 1);
    case AllocateBlock(_) =>
      if c.OutOfMemory? {
        AllocateFails(cfg, s, v);
      } else {
        AllocateMove(cfg, s, v, c);
        v' := v.(lo := v.lo + [|s.enqueued|]);
      }
    case LinkNewBlock(_, _) => LinkNewMove(cfg, s, v, c);
    case LinkTailBlock(_, nb) => LinkTailMove(cfg, s, v, c); v' := Inserted(v, nb);
    case PublishBlock(_) => PublishMoves(cfg, s, v, c); v' := v.(t := v.t + 1);
    case EnqueueReturn(_) => ReadOnlyMoves(cfg, s, v, c);
  }
}
