// One block at a time: what the writes of the two threads do to the contents
// of a block, and what a change of one block leaves alone in the others.
module SpscBlocks {
  import opened SpscQueue
  import opened SpscInvariant

  lemma SuccIs(i: nat, size: nat)
    requires i < size
    ensures Succ(i, size) == if i + 1 == size then 0 else i + 1
  {
    if i + 1 < size { assert (i + 1) % size == i + 1; } else { assert (i + 1) % size == 0; }
  }

  lemma LogMayGrow<T>(b: Block<T>, lo: nat, log: seq<T>, log': seq<T>, held: bool, written: Taken<T>)
    requires BlockOk(b, lo, log, held, written) && log <= log'
    ensures BlockOk(b, lo, log', held, written)
  {
    forall j | 0 <= j < b.size ensures b.data[j] == SlotSpec(b, lo, log', held, written, j) {
      assert b.data[j] == SlotSpec(b, lo, log, held, written, j);
    }
  }

  lemma BuildElement<T>(b: Block<T>, lo: nat, log: seq<T>, held: bool, x: T)
    requires BlockOk(b, lo, log, held, Nothing) && Count(b) < b.size - 1
    ensures b.data[b.tail].Raw?
    ensures BlockOk(WriteSlot(b, b.tail, Live(x)), lo, log, held, Got(x))
  {
    var b' := WriteSlot(b, b.tail, Live(x));
    assert b.data[b.tail] == SlotSpec(b, lo, log, held, Nothing, b.tail);
    forall j | 0 <= j < b.size ensures b'.data[j] == SlotSpec(b', lo, log, held, Got(x), j) {
      assert b.data[j] == SlotSpec(b, lo, log, held, Nothing, j);
    }
  }

  lemma PublishElement<T>(b: Block<T>, lo: nat, log: seq<T>, held: bool, x: T)
    requires BlockOk(b, lo, log, held, Got(x)) && lo + Count(b) == |log|
    requires Ahead(b.tail, b.localFront, b.size) < b.size - 1
    ensures var b' := b.(tail := Succ(b.tail, b.size));
            BlockOk(b', lo, log + [x], held, Nothing) && Count(b') == Count(b) + 1
  {
    SuccIs(b.tail, b.size);
    var b' := b.(tail := Succ(b.tail, b.size));
    forall j | 0 <= j < b.size ensures b'.data[j] == SlotSpec(b', lo, log + [x], held, Nothing, j) {
      assert b.data[j] == SlotSpec(b, lo, log, held, Got(x), j);
    }
  }

  lemma MoveElementOut<T>(b: Block<T>, lo: nat, log: seq<T>, written: Taken<T>)
    requires BlockOk(b, lo, log, false, written) && Count(b) > 0
    ensures b.data[b.front] == Live(log[lo])
    ensures BlockOk(WriteSlot(b, b.front, Raw), lo, log, true, written)
  {
    var b' := WriteSlot(b, b.front, Raw);
    assert b.data[b.front] == SlotSpec(b, lo, log, false, written, b.front);
    forall j | 0 <= j < b.size ensures b'.data[j] == SlotSpec(b', lo, log, true, written, j) {
      assert b.data[j] == SlotSpec(b, lo, log, false, written, j);
    }
  }

  lemma ReleaseElement<T>(b: Block<T>, lo: nat, log: seq<T>, written: Taken<T>)
    requires BlockOk(b, lo, log, true, written) && b.localTail != b.front
    ensures var b' := b.(front := Succ(b.front, b.size));
            BlockOk(b', lo + 1, log, false, written) && Count(b') == Count(b) - 1
  {
    SuccIs(b.front, b.size);
    var b' := b.(front := Succ(b.front, b.size));
    forall j | 0 <= j < b.size ensures b'.data[j] == SlotSpec(b', lo + 1, log, false, written, j) {
      assert b.data[j] == SlotSpec(b, lo, log, true, written, j);
    }
  }

  lemma RefreshShadows<T>(b: Block<T>, lf: nat, lt: nat, lo: nat, log: seq<T>, held: bool, written: Taken<T>)
    requires BlockOk(b, lo, log, held, written)
    requires lf == b.localFront || lf == b.front
    requires lt == b.localTail || lt == b.tail
    ensures BlockOk(b.(localFront := lf, localTail := lt), lo, log, held, written)
  {
    var b' := b.(localFront := lf, localTail := lt);
    forall j | 0 <= j < b.size ensures b'.data[j] == SlotSpec(b', lo, log, held, written, j) {
      assert b.data[j] == SlotSpec(b, lo, log, held, written, j);
    }
  }

  // ----- frames -----

  ghost predicate SameLinks<T>(s: State<T>, s': State<T>) {
    && |s'.blocks| == |s.blocks| && s'.frontBlock == s.frontBlock && s'.tailBlock == s.tailBlock
    && s'.largest == s.largest
    && (forall b :: 0 <= b < |s.blocks| ==> s'.blocks[b].next == s.blocks[b].next && s'.blocks[b].size == s.blocks[b].size)
  }

  lemma LinksKept<T>(cfg: Config, s: State<T>, s': State<T>, v: View, lo': seq<nat>)
    requires RingOk(s, v) && CapacityOk(cfg, s, v) && SameLinks(s, s') && |lo'| == |v.lo|
    ensures RingOk(s', v.(lo := lo')) && CapacityOk(cfg, s', v.(lo := lo'))
  {
    var v' := v.(lo := lo');
    forall i | 0 <= i < |v.ring| ensures LinkedAt(s', v', i) { assert LinkedAt(s, v, i); }
    forall i | 0 <= i < |v.ring| ensures BigAt(s', v', i) { assert BigAt(s, v, i); }
  }

  // Only the block at place k changed, and the log only grew.
  ghost predicate OnlyBlock<T>(s: State<T>, s': State<T>, b: BlockId) {
    && |s'.blocks| == |s.blocks|
    && (forall c :: 0 <= c < |s.blocks| && c != b ==> s'.blocks[c] == s.blocks[c])
    && (forall c: BlockId :: c != b ==> WrittenTo(s', c) == WrittenTo(s, c))
    && (forall c: BlockId :: c != b ==> Holds(s', c) == Holds(s, c))
    && Log(s) <= Log(s')
  }

  lemma OthersKept<T>(s: State<T>, s': State<T>, v: View, v': View, k: nat)
    requires RingOk(s, v) && RingOk(s', v') && ContentsOk(s, v)
    requires k < |v.ring| && v'.ring == v.ring && OnlyBlock(s, s', v.ring[k])
    requires |v'.lo| == |v.lo| && (forall b :: 0 <= b < |v.lo| && b != v.ring[k] ==> v'.lo[b] == v.lo[b])
    requires BlockOkAt(s', v', k)
    ensures ContentsOk(s', v')
  {
    forall i | 0 <= i < |v.ring| ensures BlockOkAt(s', v', i) {
      if i != k {
        assert BlockOkAt(s, v, i);
        LogMayGrow(BlockAt(s, v, i), v.lo[v.ring[i]], Log(s), Log(s'), Holds(s, v.ring[i]), WrittenTo(s, v.ring[i]));
      }
    }
  }

  lemma ChainKept<T>(s: State<T>, s': State<T>, v: View)
    requires RingOk(s, v) && RingOk(s', v) && ChainOk(s, v) && |s'.blocks| == |s.blocks|
    requires s'.enqueued == s.enqueued && s'.dequeued == s.dequeued && Unpublished(s') == Unpublished(s)
    requires forall b :: 0 <= b < |s.blocks| ==> Count(s'.blocks[b]) == Count(s.blocks[b]) && s'.blocks[b].size == s.blocks[b].size
    ensures ChainOk(s', v)
  {
    forall i | 0 <= i < v.t ensures JoinedAt(s', v, i) { assert JoinedAt(s, v, i); }
    forall i | v.t < i < |v.ring| ensures VacantAt(s', v, i) { assert VacantAt(s, v, i); }
  }

  // A move that only reads shared memory.
  ghost predicate OnlyReads<T>(s: State<T>, s': State<T>) {
    && s'.blocks == s.blocks && s'.frontBlock == s.frontBlock && s'.tailBlock == s.tailBlock
    && s'.largest == s.largest && s'.enqueued == s.enqueued && s'.dequeued == s.dequeued
    && Log(s') == Log(s)
    && (forall b: BlockId :: WrittenTo(s', b) == WrittenTo(s, b))
    && (forall b: BlockId :: Holds(s', b) == Holds(s, b))
  }

  lemma ReadsKeepMemory<T>(cfg: Config, s: State<T>, s': State<T>, v: View)
    requires Memory(cfg, s, v) && OnlyReads(s, s')
    ensures Memory(cfg, s', v)
  {
    LinksKept(cfg, s, s', v, v.lo);
    forall i | 0 <= i < |v.ring| ensures BlockOkAt(s', v, i) { assert BlockOkAt(s, v, i); }
    ChainKept(s, s', v);
  }

  // A move that changes block k of the list but neither its links nor its
  // element count.
  lemma QuietWrite<T>(cfg: Config, s: State<T>, s': State<T>, v: View, k: nat)
    requires Memory(cfg, s, v) && SameLinks(s, s') && k < |v.ring| && OnlyBlock(s, s', v.ring[k])
    requires s'.enqueued == s.enqueued && s'.dequeued == s.dequeued && Unpublished(s') == Unpublished(s)
    requires Count(s'.blocks[v.ring[k]]) == Count(s.blocks[v.ring[k]])
    requires BlockOkAt(s', v, k)
    ensures Memory(cfg, s', v)
  {
    LinksKept(cfg, s, s', v, v.lo);
    OthersKept(s, s', v, v, k);
    ChainKept(s, s', v);
  }

  lemma ShapeAt<T>(cfg: Config, s: State<T>, v: View, i: nat)
    requires Memory(cfg, s, v) && i < |v.ring|
    ensures BlockShape(BlockAt(s, v, i)) && Shadows(BlockAt(s, v, i))
    ensures 0 <= CountAt(s, v, i) < BlockAt(s, v, i).size
  {
    assert BlockOkAt(s, v, i);
  }

  ghost predicate SameHistory<T>(s: State<T>, s': State<T>) {
    && s'.enqueued == s.enqueued && s'.dequeued == s.dequeued && Log(s') == Log(s)
    && (forall b: BlockId :: Holds(s', b) == Holds(s, b))
  }

  // s' is s with block b replaced.
  ghost predicate Replaces<T>(s: State<T>, s': State<T>, b: BlockId, blk: Block<T>) {
    && b < |s.blocks| && s'.blocks == s.blocks[b := blk]
    && s'.frontBlock == s.frontBlock && s'.tailBlock == s.tailBlock && s'.largest == s.largest
    && blk.next == s.blocks[b].next && blk.size == s.blocks[b].size
  }

  lemma RefreshMemory<T>(cfg: Config, s: State<T>, s': State<T>, v: View, k: nat, lf: nat, lt: nat)
    requires Memory(cfg, s, v) && k < |v.ring|
    requires Replaces(s, s', v.ring[k], BlockAt(s, v, k).(localFront := lf, localTail := lt))
    requires lf == BlockAt(s, v, k).localFront || lf == BlockAt(s, v, k).front
    requires lt == BlockAt(s, v, k).localTail || lt == BlockAt(s, v, k).tail
    requires SameHistory(s, s') && (forall b: BlockId :: WrittenTo(s', b) == WrittenTo(s, b))
    ensures Memory(cfg, s', v)
  {
    var id := v.ring[k];
    assert BlockOkAt(s, v, k);
    RefreshShadows(BlockAt(s, v, k), lf, lt, v.lo[id], Log(s), Holds(s, id), WrittenTo(s, id));
    assert BlockOkAt(s', v, k);
    QuietWrite(cfg, s, s', v, k);
  }

  // What the consumer relies on, and no producer move disturbs.
  ghost predicate SeenByConsumer<T>(s: State<T>, s': State<T>, v: View, v': View)
    requires RingOk(s, v) && RingOk(s', v')
  {
    && s'.consumer == s.consumer && s'.dequeued == s.dequeued && s.enqueued <= s'.enqueued
    && s'.frontBlock == s.frontBlock && (s.sawEmpty ==> s'.sawEmpty)
    && BlockAt(s', v', 0).front == BlockAt(s, v, 0).front && BlockAt(s', v', 0).localTail == BlockAt(s, v, 0).localTail
    && (v'.t == 0 ==> v.t == 0)
    && (v.t > 0 ==>
          && v'.t > 0 && v'.ring[1] == v.ring[1] && BlockAt(s', v', 0).tail == BlockAt(s, v, 0).tail
          && BlockAt(s', v', 1).front == BlockAt(s, v, 1).front && BlockAt(s', v', 1).localTail == BlockAt(s, v, 1).localTail)
    && |s.blocks| <= |s'.blocks|
    && (forall b, i {:trigger s.blocks[b].data[i]} :: 0 <= b < |s.blocks| && 0 <= i < |s.blocks[b].data| && s.blocks[b].data[i].Live? ==>
          i < |s'.blocks[b].data| && s'.blocks[b].data[i] == s.blocks[b].data[i])
  }

  lemma ConsumerKept<T>(s: State<T>, s': State<T>, v: View, v': View)
    requires RingOk(s, v) && RingOk(s', v') && ConsumerOk(s, v) && SeenByConsumer(s, s', v, v')
    ensures ConsumerOk(s', v')
  {
  }

  lemma ReadsKeepConsumer<T>(s: State<T>, s': State<T>, v: View)
    requires RingOk(s, v) && RingOk(s', v) && ConsumerOk(s, v)
    requires OnlyReads(s, s') && s'.consumer == s.consumer && (s.sawEmpty ==> s'.sawEmpty)
    ensures ConsumerOk(s', v)
  {
  }

  // A block whose change the consumer does not notice.
  ghost predicate SameForConsumer<T>(b: Block<T>, b': Block<T>) {
    && b'.front == b.front && b'.localTail == b.localTail && |b'.data| == |b.data|
    && (forall i :: 0 <= i < |b.data| && b.data[i].Live? ==> b'.data[i] == b.data[i])
  }

  lemma ConsumerIgnores<T>(s: State<T>, s': State<T>, v: View, v': View, k: nat, blk: Block<T>)
    requires RingOk(s, v) && RingOk(s', v') && ConsumerOk(s, v) && v'.ring == v.ring && v'.t == v.t
    requires k < |v.ring| && Replaces(s, s', v.ring[k], blk) && SameForConsumer(BlockAt(s, v, k), blk)
    requires k == 0 && v.t > 0 ==> blk.tail == BlockAt(s, v, k).tail
    requires s'.consumer == s.consumer && s'.dequeued == s.dequeued && s.enqueued <= s'.enqueued
    requires s.sawEmpty ==> s'.sawEmpty
    ensures ConsumerOk(s', v')
  {
    ConsumerKept(s, s', v, v');
  }

  // What the producer relies on, and no consumer move disturbs.
  ghost predicate SeenByProducer<T>(s: State<T>, s': State<T>, v: View, v': View)
    requires RingOk(s, v) && RingOk(s', v')
  {
    && s'.producer == s.producer && s'.enqueued == s.enqueued && s'.tailBlock == s.tailBlock
    && (s.sawFull ==> s'.sawFull)
    && |s'.blocks| == |s.blocks| && v'.blockSize == v.blockSize && |v'.ring| == |v.ring|
    && SameForProducer(BlockAt(s, v, v.t), BlockAt(s', v', v'.t))
    && (0 < v'.t ==> 0 < v.t && CountAt(s', v', v'.t) == CountAt(s, v, v.t))
    && (v'.t == |v.ring| - 1 ==> v.t == |v.ring| - 1)
    && (v.t < |v.ring| - 1 ==>
          && v'.t < |v.ring| - 1 && v'.ring[v'.t + 1] == v.ring[v.t + 1]
          && SameForProducer(BlockAt(s, v, v.t + 1), BlockAt(s', v', v'.t + 1))
          && BlockAt(s', v', v'.t + 1).front == BlockAt(s, v, v.t + 1).front)
    && (forall b :: 0 <= b < |s.blocks| && b !in v.ring ==>
          b !in v'.ring && s'.blocks[b] == s.blocks[b] && v'.lo[b] == v.lo[b])
  }

  ghost predicate SameForProducer<T>(b: Block<T>, b': Block<T>) {
    b'.tail == b.tail && b'.localFront == b.localFront && b'.size == b.size && b'.next == b.next
  }

  lemma ProducerKept<T>(cfg: Config, s: State<T>, s': State<T>, v: View, v': View)
    requires RingOk(s, v) && RingOk(s', v') && ProducerOk(cfg, s, v) && SeenByProducer(s, s', v, v')
    ensures ProducerOk(cfg, s', v')
  {
  }

  // A change of block k by the consumer, which the producer does not notice.
  lemma ProducerIgnores<T>(cfg: Config, s: State<T>, s': State<T>, v: View, lo': seq<nat>, k: nat, blk: Block<T>)
    requires RingOk(s, v) && RingOk(s', v.(lo := lo')) && ProducerOk(cfg, s, v)
    requires k <= v.t && Replaces(s, s', v.ring[k], blk) && SameForProducer(BlockAt(s, v, k), blk)
    requires k > 0 ==> blk.front == BlockAt(s, v, k).front
    requires |lo'| == |v.lo| && (forall b :: 0 <= b < |v.lo| && b != v.ring[k] ==> lo'[b] == v.lo[b])
    requires s'.producer == s.producer && s'.enqueued == s.enqueued && (s.sawFull ==> s'.sawFull)
    ensures ProducerOk(cfg, s', v.(lo := lo'))
  {
    ProducerKept(cfg, s, s', v, v.(lo := lo'));
  }
}
